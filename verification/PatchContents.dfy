/**
 What the merge of a registration succeeds on and contains, list by list and setting by setting, from the
 registration and the arguments alone.
 */
module PatchContents {
  import opened Options
  import opened ApplicationPatch

  /** No two rows match. */
  ghost predicate AtMostOne<T>(rows: seq<T>, matches: T -> bool) {
    forall i, j | 0 <= i < j < |rows| :: !(matches(rows[i]) && matches(rows[j]))
  }

  /** `after` is `before` with its one matching row replaced, or one row more if none matches. */
  ghost predicate OneRowChanged<T>(before: seq<T>, after: seq<T>, matches: T -> bool, changed: T -> T, added: T) {
    if forall i | 0 <= i < |before| :: !matches(before[i]) then after == before + [added]
    else
      && AtMostOne(before, matches)
      && |after| == |before|
      && forall i | 0 <= i < |before| :: after[i] == if matches(before[i]) then changed(before[i]) else before[i]
  }

  lemma {:induction false} CountIsAtMostOne<T>(rows: seq<T>, matches: T -> bool)
    ensures CountOf(rows, matches) <= 1 <==> AtMostOne(rows, matches)
    ensures CountOf(rows, matches) == 0 <==> forall i | 0 <= i < |rows| :: !matches(rows[i])
  {
    if rows != [] {
      var init, last := rows[..|rows| - 1], rows[|rows| - 1];
      CountIsAtMostOne(init, matches);
      assert forall i | 0 <= i < |init| :: init[i] == rows[i];
      if matches(last) && CountOf(init, matches) > 0 {
        var i :| 0 <= i < |init| && matches(init[i]);
        assert matches(rows[i]) && matches(rows[|rows| - 1]);
      }
    }
  }

  lemma EnsureChangesOneRow<T>(
    rows: seq<T>, rule: Rule<T>, blank: T, matches: T -> bool, changed: T -> T)
    requires Ensure(rows, rule, blank).Ok?
    requires forall i | 0 <= i < |rows| :: matches(rows[i]) == rule.matches(rows[i])
    requires forall i | 0 <= i < |rows| && matches(rows[i]) :: changed(rows[i]) == rule.adjust(rows[i])
    ensures OneRowChanged(rows, Ensure(rows, rule, blank).value, matches, changed, blank)
  {
    CountIsAtMostOne(rows, rule.matches);
    if CountOf(rows, rule.matches) != 0 {
      var i :| 0 <= i < |rows| && rule.matches(rows[i]);
      assert matches(rows[i]);
    }
  }

  // ---- settings ----------------------------------------------------------------------------------

  /** Every setting of the patch: the given name, a single tenant, no public client, version 2 tokens, no implicit
      grant, and what the merge does not own as it was. */
  lemma PatchSettings(
    existing: Application, displayName: string, redirects: seq<string>, authorizeCli: bool, ids: Fresh)
    requires PatchOf(existing, displayName, redirects, authorizeCli, ids).Ok?
    ensures var patch := PatchOf(existing, displayName, redirects, authorizeCli, ids).value;
      && patch.displayName == displayName && patch.audience == "AzureADMyOrg" && !patch.fallback
      && patch.api.tokenVersion == 2 && patch.api.rest == existing.api.rest
      && !patch.web.accessTokens && !patch.web.idTokens && patch.web.rest == existing.web.rest
      && (patch.identifierUris.Some? <==> existing.appId.Some? && existing.appId.value != "")
      && "triage-command-center" in patch.tags
      && (patch.identifierUris.Some? ==> "api://" + existing.appId.value in patch.identifierUris.value)
  {
    DedupeMembers(existing.tags + [REGISTRATION_TAG], REGISTRATION_TAG);
    if HasAppId(existing) {
      DedupeMembers(existing.identifierUris + ["api://" + existing.appId.value], "api://" + existing.appId.value);
    }
  }

  // ---- names -------------------------------------------------------------------------------------

  /** The first place of a name. */
  ghost function FirstPlace(names: seq<string>, x: string): nat
    requires x in names
    ensures FirstPlace(names, x) < |names| && names[FirstPlace(names, x)] == x
    ensures forall i | 0 <= i < FirstPlace(names, x) :: names[i] != x
  {
    if names[0] == x then 0 else 1 + FirstPlace(names[1..], x)
  }

  /** `merged` are the names of `all`, each once, by their first places. */
  ghost predicate ByFirstPlace(all: seq<string>, merged: seq<string>) {
    && (forall x :: x in merged <==> x in all)
    && forall i, j | 0 <= i < j < |merged| ::
         merged[i] in all && merged[j] in all && FirstPlace(all, merged[i]) < FirstPlace(all, merged[j])
  }

  lemma FirstPlaceOnlyExtends(names: seq<string>, x: string, y: string)
    requires y in names
    ensures y in names + [x] && FirstPlace(names + [x], y) == FirstPlace(names, y)
  {
    var place, all := FirstPlace(names, y), names + [x];
    assert all[place] == y;
    var other := FirstPlace(all, y);
    assert other <= place;
    assert names[other] == y;
  }

  lemma {:induction false} DedupeIsByFirstPlace(names: seq<string>)
    ensures ByFirstPlace(names, Dedupe(names))
  {
    forall x ensures x in Dedupe(names) <==> x in names {
      DedupeMembers(names, x);
    }
    if names != [] {
      var init, x := names[..|names| - 1], names[|names| - 1];
      assert names == init + [x];
      DedupeIsByFirstPlace(init);
      var merged := Dedupe(names);
      forall i, j | 0 <= i < j < |merged|
        ensures FirstPlace(names, merged[i]) < FirstPlace(names, merged[j])
      {
        assert merged[i] in Dedupe(init);
        DedupeMembers(init, merged[i]);
        FirstPlaceOnlyExtends(init, x, merged[i]);
        if j < |Dedupe(init)| {
          assert merged[j] in Dedupe(init);
          DedupeMembers(init, merged[j]);
          FirstPlaceOnlyExtends(init, x, merged[j]);
        } else {
          DedupeMembers(init, x);
          assert FirstPlace(names, x) == |init|;
        }
      }
    }
  }

  /** Redirects, tags and identifier URIs are the earlier ones and then the new ones, each at its first place. */
  lemma PatchNames(existing: Application, displayName: string, redirects: seq<string>, authorizeCli: bool, ids: Fresh)
    requires PatchOf(existing, displayName, redirects, authorizeCli, ids).Ok?
    ensures var patch := PatchOf(existing, displayName, redirects, authorizeCli, ids).value;
      && ByFirstPlace(existing.redirectUris + redirects, patch.redirectUris)
      && ByFirstPlace(existing.tags + ["triage-command-center"], patch.tags)
      && (patch.identifierUris.Some? ==>
            && existing.appId.Some?
            && ByFirstPlace(existing.identifierUris + ["api://" + existing.appId.value], patch.identifierUris.value))
  {
    DedupeIsByFirstPlace(existing.redirectUris + redirects);
    DedupeIsByFirstPlace(existing.tags + [REGISTRATION_TAG]);
    if HasAppId(existing) {
      DedupeIsByFirstPlace(existing.identifierUris + ["api://" + existing.appId.value]);
    }
  }

  // ---- scopes, authorizations and permissions ----------------------------------------------------------

  /** The scope is enabled where it is, or appended with the new id and its texts. */
  lemma PatchScopes(existing: Application, displayName: string, redirects: seq<string>, authorizeCli: bool, ids: Fresh)
    requires PatchOf(existing, displayName, redirects, authorizeCli, ids).Ok?
    ensures var patch := PatchOf(existing, displayName, redirects, authorizeCli, ids).value;
      OneRowChanged(existing.api.scopes, patch.api.scopes, (x: Scope) => x.value == "access_as_user",
                    (x: Scope) => Scope(x.id, x.value, true, x.texts),
                    Scope(ids.scopeId, "access_as_user", true,
                          ["User", "Access the triage command center",
                           "Access the command center as the signed-in user, subject to assigned roles.",
                           "Access the triage command center", "Access the command center using your assigned roles."]))
  {
    EnsureChangesOneRow(existing.api.scopes, ScopeRule(), BlankScope(ids.scopeId),
                        (x: Scope) => x.value == "access_as_user", (x: Scope) => Scope(x.id, x.value, true, x.texts));
  }

  lemma {:induction false} ScopeIdIsItsId(scopes: seq<Scope>, i: nat)
    requires i < |scopes| && scopes[i].value == "access_as_user"
    requires AtMostOne(scopes, (x: Scope) => x.value == "access_as_user")
    ensures ScopeIdOf(scopes) == scopes[i].id
  {
    var last := |scopes| - 1;
    if i < last {
      var matches := (x: Scope) => x.value == "access_as_user";
      assert !(matches(scopes[i]) && matches(scopes[last]));
      forall a, b | 0 <= a < b < last ensures !(matches(scopes[..last][a]) && matches(scopes[..last][b])) {
        assert !(matches(scopes[a]) && matches(scopes[b]));
      }
      ScopeIdIsItsId(scopes[..last], i);
    }
  }

  /** A list with this entry at its end, unless it is there. */
  function Including<T(==)>(xs: seq<T>, x: T): (r: seq<T>)
    ensures xs <= r && x in r && forall y | y in r :: y in xs || y == x
    ensures x in xs ==> r == xs
  {
    if x in xs then xs else xs + [x]
  }

  /** The command line client is authorized for the scope exactly when asked for; nobody else's authorization moves. */
  lemma PatchAuthorizations(existing: Application, displayName: string, redirects: seq<string>, authorizeCli: bool,
                            ids: Fresh)
    requires PatchOf(existing, displayName, redirects, authorizeCli, ids).Ok?
    ensures var patch := PatchOf(existing, displayName, redirects, authorizeCli, ids).value;
      var cli, scopeId := "04b07795-8ddb-461a-bbee-02f9e1bf7b46", ScopeIdOf(patch.api.scopes);
      && (!authorizeCli ==> patch.api.preAuthorized == existing.api.preAuthorized)
      && (authorizeCli ==>
            OneRowChanged(existing.api.preAuthorized, patch.api.preAuthorized, (x: PreAuthorized) => x.appId == cli,
                          (x: PreAuthorized) => PreAuthorized(x.appId, Including(x.permissionIds, scopeId)),
                          PreAuthorized(cli, [scopeId])))
  {
    if authorizeCli {
      var patch := PatchOf(existing, displayName, redirects, authorizeCli, ids).value;
      var cli, scopeId := "04b07795-8ddb-461a-bbee-02f9e1bf7b46", ScopeIdOf(patch.api.scopes);
      EnsureChangesOneRow(existing.api.preAuthorized, CliRule(scopeId), PreAuthorized(cli, [scopeId]),
                          (x: PreAuthorized) => x.appId == cli,
                          (x: PreAuthorized) => PreAuthorized(x.appId, Including(x.permissionIds, scopeId)));
    }
  }

  /** `after` grants this permission on this resource, and is `before` otherwise. */
  ghost predicate Grants(before: seq<Access>, after: seq<Access>, resource: string, permission: Permission) {
    OneRowChanged(before, after, (x: Access) => x.resourceAppId == resource,
                  (x: Access) => Access(x.resourceAppId, Including(x.permissions, permission)),
                  Access(resource, [permission]))
  }

  lemma EnsureGrants(rows: seq<Access>, name: string, resource: string, permission: Permission)
    requires Ensure(rows, AccessRule(name, resource, permission), Access(resource, [permission])).Ok?
    ensures Grants(rows, Ensure(rows, AccessRule(name, resource, permission), Access(resource, [permission])).value,
                   resource, permission)
  {
    EnsureChangesOneRow(rows, AccessRule(name, resource, permission), Access(resource, [permission]),
                        (x: Access) => x.resourceAppId == resource,
                        (x: Access) => Access(x.resourceAppId, Including(x.permissions, permission)));
  }

  /** The profile permission is granted on the directory, then the scope on the application itself if it has an id. */
  lemma PatchAccess(existing: Application, displayName: string, redirects: seq<string>, authorizeCli: bool, ids: Fresh)
    requires PatchOf(existing, displayName, redirects, authorizeCli, ids).Ok?
    ensures var patch := PatchOf(existing, displayName, redirects, authorizeCli, ids).value;
      exists rows ::
        && Grants(existing.access, rows, "00000003-0000-0000-c000-000000000000",
                  Permission("e1fe6dd8-ba31-4d61-89e7-88639da4683d", "Scope"))
        && if existing.appId.Some? && existing.appId.value != ""
           then Grants(rows, patch.access, existing.appId.value, Permission(ScopeIdOf(patch.api.scopes), "Scope"))
           else patch.access == rows
  {
    var patch := PatchOf(existing, displayName, redirects, authorizeCli, ids).value;
    var scopeId, profile := ScopeIdOf(patch.api.scopes), Permission(USER_READ_SCOPE_ID, "Scope");
    EnsureGrants(existing.access, "Graph permissions", GRAPH_CLIENT_ID, profile);
    var rows := Ensure(existing.access, GraphRule(), BlankGraphAccess()).value;
    if HasAppId(existing) {
      EnsureGrants(rows, "own-API permissions", existing.appId.value, Permission(scopeId, "Scope"));
    }
  }

  // ---- roles --------------------------------------------------------------------------------------------

  /** The four roles, by value and name. */
  lemma TheFourRoles()
    ensures |ROLES| == 4
    ensures ROLES[0].value == "CommandCenter.Reader" && ROLES[0].displayName == "Reader"
    ensures ROLES[1].value == "CommandCenter.Operator" && ROLES[1].displayName == "Operator"
    ensures ROLES[2].value == "CommandCenter.Approver" && ROLES[2].displayName == "Approver"
    ensures ROLES[3].value == "CommandCenter.Admin" && ROLES[3].displayName == "Admin"
  {
  }

  /** What becomes of a role by the first n of the four: enabled, with its description, and otherwise as it was. */
  ghost predicate Becomes(before: Role, after: Role, n: nat)
    requires n <= |ROLES|
  {
    if forall k | 0 <= k < n :: ROLES[k].value != before.value then after == before
    else
      exists k | 0 <= k < n ::
        && ROLES[k].value == before.value
        && after == Role(before.id, before.value, before.displayName, ROLES[k].description, true, before.memberTypes)
  }

  ghost predicate Absent(rows: seq<Role>, k: nat)
    requires k < |ROLES|
  {
    forall i | 0 <= i < |rows| :: rows[i].value != ROLES[k].value
  }

  /** A role added for users, enabled, under the new id. */
  ghost predicate IsNew(role: Role, k: nat, ids: Fresh)
    requires k < |ROLES|
  {
    role == Role(ids.roleId(ROLES[k].value), ROLES[k].value, ROLES[k].displayName, ROLES[k].description, true, ["User"])
  }

  /** One of the first n of the four, missing before. */
  ghost predicate IsAdded(before: seq<Role>, role: Role, n: nat, ids: Fresh)
    requires n <= |ROLES|
  {
    exists k | 0 <= k < n :: Absent(before, k) && IsNew(role, k, ids)
  }

  ghost predicate RolesMerged(before: seq<Role>, after: seq<Role>, n: nat, ids: Fresh)
    requires n <= |ROLES|
  {
    && |before| <= |after|
    && (forall i | 0 <= i < |before| :: Becomes(before[i], after[i], n))
    && (forall i | |before| <= i < |after| :: IsAdded(before, after[i], n, ids))
  }

  lemma BecomesOneMore(before: Role, after: Role, n: nat)
    requires n < |ROLES| && Becomes(before, after, n)
    ensures after.value == before.value
    ensures after.value != ROLES[n].value ==> Becomes(before, after, n + 1)
    ensures after.value == ROLES[n].value ==>
              Becomes(before, after.(isEnabled := true, description := ROLES[n].description), n + 1)
  {
    if after.value == ROLES[n].value {
      forall k | 0 <= k < n ensures ROLES[k].value != before.value {
        RoleValuesDiffer(k, n);
      }
    }
  }

  /** Merging one more role. */
  lemma OneMoreRoleMerged(before: seq<Role>, rows: seq<Role>, n: nat, ids: Fresh)
    requires n < |ROLES| && RolesMerged(before, rows, n, ids)
    requires var spec := ROLES[n]; Ensure(rows, RoleRule(spec), BlankRole(spec, ids.roleId(spec.value))).Ok?
    ensures var spec := ROLES[n];
      RolesMerged(before, Ensure(rows, RoleRule(spec), BlankRole(spec, ids.roleId(spec.value))).value, n + 1, ids)
  {
    var spec := ROLES[n];
    var after := Ensure(rows, RoleRule(spec), BlankRole(spec, ids.roleId(spec.value))).value;
    CountIsAtMostOne(rows, RoleRule(spec).matches);
    forall i | 0 <= i < |before| ensures Becomes(before[i], after[i], n + 1) {
      BecomesOneMore(before[i], rows[i], n);
    }
    forall i | |before| <= i < |after| ensures IsAdded(before, after[i], n + 1, ids) {
      if i < |rows| {
        var k :| 0 <= k < n && Absent(before, k) && IsNew(rows[i], k, ids);
        RoleValuesDiffer(k, n);
        assert !RoleRule(spec).matches(rows[i]);
        assert after[i] == rows[i] && IsNew(after[i], k, ids);
      } else {
        forall j | 0 <= j < |before| ensures before[j].value != spec.value {
          BecomesOneMore(before[j], rows[j], n);
          assert !RoleRule(spec).matches(rows[j]);
        }
        assert Absent(before, n) && IsNew(after[i], n, ids);
      }
    }
  }

  lemma {:induction false} RolesAreMerged(rows: seq<Role>, n: nat, ids: Fresh)
    requires n <= |ROLES| && EnsureRoles(rows, n, ids).Ok?
    ensures RolesMerged(rows, EnsureRoles(rows, n, ids).value, n, ids)
  {
    if n > 0 {
      RolesAreMerged(rows, n - 1, ids);
      OneMoreRoleMerged(rows, EnsureRoles(rows, n - 1, ids).value, n - 1, ids);
    }
  }

  /** Each role that was there stays at its place: one of the four enabled and described, any other untouched. What is
      added is one of the four that was missing, under its new id, enabled, for users only. */
  lemma PatchRoles(existing: Application, displayName: string, redirects: seq<string>, authorizeCli: bool, ids: Fresh)
    requires PatchOf(existing, displayName, redirects, authorizeCli, ids).Ok?
    ensures var patch := PatchOf(existing, displayName, redirects, authorizeCli, ids).value;
      RolesMerged(WithoutOrigin(existing.appRoles), patch.appRoles, |ROLES|, ids)
  {
    RolesAreMerged(WithoutOrigin(existing.appRoles), |ROLES|, ids);
  }

  /** All four are there. */
  lemma PatchHasTheFour(existing: Application, displayName: string, redirects: seq<string>, authorizeCli: bool,
                        ids: Fresh, k: nat)
    requires PatchOf(existing, displayName, redirects, authorizeCli, ids).Ok? && k < |ROLES|
    ensures !Absent(PatchOf(existing, displayName, redirects, authorizeCli, ids).value.appRoles, k)
  {
    var roles := PatchOf(existing, displayName, redirects, authorizeCli, ids).value.appRoles;
    RolesSettle(WithoutOrigin(existing.appRoles), |ROLES|, ids);
    assert Settled(roles, RoleRule(ROLES[k]));
    CountIsAtMostOne(roles, RoleRule(ROLES[k]).matches);
  }

  /** Stripping a stored role keeps the role. */
  lemma StoredRolesAreRows(stored: seq<StoredRole>)
    ensures |WithoutOrigin(stored)| == |stored|
    ensures forall i | 0 <= i < |stored| :: WithoutOrigin(stored)[i] == stored[i].role
  {
  }

  // ---- success --------------------------------------------------------------------------------------------

  /** A role there at most once, and for users only. */
  ghost predicate RoleIsClean(existing: Application, k: nat)
    requires k < |ROLES|
  {
    && AtMostOne(existing.appRoles, (x: StoredRole) => x.role.value == ROLES[k].value)
    && forall i | 0 <= i < |existing.appRoles| && existing.appRoles[i].role.value == ROLES[k].value ::
         existing.appRoles[i].role.memberTypes == ["User"]
  }

  ghost predicate AccessIsClean(existing: Application) {
    && AtMostOne(existing.access, (x: Access) => x.resourceAppId == "00000003-0000-0000-c000-000000000000")
    && (existing.appId.Some? && existing.appId.value != "" ==>
          AtMostOne(existing.access, (x: Access) => x.resourceAppId == existing.appId.value))
  }

  ghost predicate ApiIsClean(existing: Application, authorizeCli: bool) {
    && AtMostOne(existing.api.scopes, (x: Scope) => x.value == "access_as_user")
    && (authorizeCli ==> AtMostOne(existing.api.preAuthorized,
                                   (x: PreAuthorized) => x.appId == "04b07795-8ddb-461a-bbee-02f9e1bf7b46"))
  }

  ghost predicate IsClean(existing: Application, authorizeCli: bool) {
    && (existing.audience == None || existing.audience == Some("AzureADMyOrg")) && !existing.hasCredentials
    && ApiIsClean(existing, authorizeCli) && AccessIsClean(existing)
    && forall k | 0 <= k < |ROLES| :: RoleIsClean(existing, k)
  }

  lemma AccessIsCleanExactly(existing: Application)
    ensures AccessIsClean(existing) <==>
              && CountOf(existing.access, GraphRule().matches) <= 1
              && (HasAppId(existing) ==>
                    CountOf(existing.access, (x: Access) => x.resourceAppId == existing.appId.value) <= 1)
  {
    CountIsAtMostOne(existing.access, GraphRule().matches);
    if HasAppId(existing) {
      CountIsAtMostOne(existing.access, (x: Access) => x.resourceAppId == existing.appId.value);
    }
  }

  lemma ApiIsCleanExactly(existing: Application, authorizeCli: bool)
    ensures ApiIsClean(existing, authorizeCli) <==>
              && CountOf(existing.api.scopes, ScopeRule().matches) <= 1
              && (authorizeCli ==>
                    CountOf(existing.api.preAuthorized, (x: PreAuthorized) => x.appId == AZURE_CLI_CLIENT_ID) <= 1)
  {
    CountIsAtMostOne(existing.api.scopes, ScopeRule().matches);
    CountIsAtMostOne(existing.api.preAuthorized, (x: PreAuthorized) => x.appId == AZURE_CLI_CLIENT_ID);
  }

  lemma RoleIsCleanExactly(existing: Application, k: nat)
    requires k < |ROLES|
    ensures RoleIsMergeable(WithoutOrigin(existing.appRoles), ROLES[k]) <==> RoleIsClean(existing, k)
  {
    var rows, rule := WithoutOrigin(existing.appRoles), RoleRule(ROLES[k]);
    CountIsAtMostOne(rows, rule.matches);
    StoredRolesAreRows(existing.appRoles);
    assert forall i | 0 <= i < |rows| ::
        && (rule.matches(rows[i]) <==> existing.appRoles[i].role.value == ROLES[k].value)
        && (rule.acceptable(rows[i]) <==> existing.appRoles[i].role.memberTypes == ["User"]);
  }

  lemma {:induction false} RolesAreClean(existing: Application, n: nat)
    requires n <= |ROLES|
    ensures RolesAreMergeable(WithoutOrigin(existing.appRoles), n)
       <==> forall k | 0 <= k < n :: RoleIsClean(existing, k)
  {
    if n > 0 {
      RolesAreClean(existing, n - 1);
      RoleIsCleanExactly(existing, n - 1);
    }
  }

  /** The merge succeeds exactly on a single-tenant registration without credentials whose needed rows are there at most
      once each, and whose roles of these names are for users only. */
  lemma MergeSucceedsExactlyWhenClean(existing: Application, displayName: string, redirects: seq<string>,
                                      authorizeCli: bool, ids: Fresh)
    ensures PatchOf(existing, displayName, redirects, authorizeCli, ids).Ok? <==> IsClean(existing, authorizeCli)
  {
    MergeSucceedsExactlyWhenMergeable(existing, displayName, redirects, authorizeCli, ids);
    ApiIsCleanExactly(existing, authorizeCli);
    AccessIsCleanExactly(existing);
    RolesAreClean(existing, |ROLES|);
  }

  /** The registration counts as unchanged only when it equals the patch in every setting and list. */
  lemma UnchangedMeansEqual(existing: Application, patch: Patch)
    ensures !Differs(existing, patch) <==>
            && existing.displayName == patch.displayName && existing.audience == Some(patch.audience)
            && existing.fallback == patch.fallback && existing.api == patch.api && existing.web == patch.web
            && existing.redirectUris == patch.redirectUris && existing.tags == patch.tags
            && (patch.identifierUris == None || patch.identifierUris == Some(existing.identifierUris))
            && existing.access == patch.access && |existing.appRoles| == |patch.appRoles|
            && forall i | 0 <= i < |patch.appRoles| :: existing.appRoles[i] == StoredRole(patch.appRoles[i], "")
  {
    if |existing.appRoles| == |patch.appRoles|
       && forall i | 0 <= i < |patch.appRoles| :: existing.appRoles[i] == StoredRole(patch.appRoles[i], "") {
      assert existing.appRoles == Bare(patch.appRoles);
    }
  }
}

