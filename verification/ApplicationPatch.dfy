/**
 The reconciling merge that registers the command center: every list gains what
 the accelerator needs and loses nothing that was there.
 */
module ApplicationPatch {
  import opened Options

  // ---- the registration -------------------------------------------------------------

  datatype Scope = Scope(id: string, value: string, isEnabled: bool, texts: seq<string>)
  datatype PreAuthorized = PreAuthorized(appId: string, permissionIds: seq<string>)
  datatype Role = Role(
    id: string, value: string, displayName: string, description: string, isEnabled: bool, memberTypes: seq<string>)
  /** A role as the directory returns it; `origin` stands for the keys that a patch leaves out. */
  datatype StoredRole = StoredRole(role: Role, origin: string)
  datatype Permission = Permission(id: string, kind: string)
  datatype Access = Access(resourceAppId: string, permissions: seq<Permission>)
  datatype Api = Api(scopes: seq<Scope>, tokenVersion: int, preAuthorized: seq<PreAuthorized>, rest: string)

  datatype Web = Web(accessTokens: bool, idTokens: bool, rest: string)

  datatype Application = Application(
    appId: Option<string>, displayName: string, audience: Option<string>, fallback: bool, hasCredentials: bool,
    api: Api, appRoles: seq<StoredRole>, redirectUris: seq<string>, web: Web, tags: seq<string>,
    identifierUris: seq<string>, access: seq<Access>)

  /** `identifierUris` is absent while the application has no client id. */
  datatype Patch = Patch(
    displayName: string, audience: string, fallback: bool, api: Api, appRoles: seq<Role>, redirectUris: seq<string>,
    web: Web, tags: seq<string>, identifierUris: Option<seq<string>>, access: seq<Access>)

  const SINGLE_TENANT := "AzureADMyOrg"
  const SCOPE := "access_as_user"
  const AZURE_CLI_CLIENT_ID := "04b07795-8ddb-461a-bbee-02f9e1bf7b46"
  const GRAPH_CLIENT_ID := "00000003-0000-0000-c000-000000000000"
  const USER_READ_SCOPE_ID := "e1fe6dd8-ba31-4d61-89e7-88639da4683d"
  const REGISTRATION_TAG := "triage-command-center"

  datatype RoleSpec = RoleSpec(value: string, displayName: string, description: string)

  /** The values `uuid4` returns during one call. */
  datatype Fresh = Fresh(scopeId: string, roleId: string -> string)

  const ROLES: seq<RoleSpec> := [
    RoleSpec("CommandCenter.Reader", "Reader", "Read incidents, run history and health, and ask read-only questions."),
    RoleSpec("CommandCenter.Operator", "Operator",
             "Submit configured investigations, add incident notes, and record user resolutions."),
    RoleSpec("CommandCenter.Approver", "Approver", "Approve or deny pending remediation requests."),
    RoleSpec("CommandCenter.Admin", "Admin",
             "Administer application operations, scenario validation and reconciliation. " +
             "Access assignments are managed in Entra.")]

  // ---- deduplication ------------------------------------------------------------------

  /** `list(dict.fromkeys(xs))`: first occurrences, in order. */
  function Dedupe(xs: seq<string>): seq<string> {
    if xs == [] then []
    else
      var d, x := Dedupe(xs[..|xs| - 1]), xs[|xs| - 1];
      if x in d then d else d + [x]
  }

  lemma {:induction false} DedupeMembers(xs: seq<string>, x: string)
    ensures x in Dedupe(xs) <==> x in xs
  {
    if xs != [] {
      DedupeMembers(xs[..|xs| - 1], x);
      assert xs == xs[..|xs| - 1] + [xs[|xs| - 1]];
    }
  }

  lemma {:induction false} DedupeDistinct(xs: seq<string>)
    ensures forall i, j | 0 <= i < j < |Dedupe(xs)| :: Dedupe(xs)[i] != Dedupe(xs)[j]
  {
    if xs != [] {
      DedupeDistinct(xs[..|xs| - 1]);
    }
  }

  lemma {:induction false} DedupeOfDistinct(xs: seq<string>)
    requires forall i, j | 0 <= i < j < |xs| :: xs[i] != xs[j]
    ensures Dedupe(xs) == xs
  {
    if xs != [] {
      DedupeOfDistinct(xs[..|xs| - 1]);
    }
  }

  lemma {:induction false} DedupeAbsorbs(ds: seq<string>, ys: seq<string>)
    requires Dedupe(ds) == ds && forall y | y in ys :: y in ds
    ensures Dedupe(ds + ys) == ds
    decreases |ys|
  {
    if ys == [] {
      assert ds + ys == ds;
    } else {
      assert (ds + ys)[..|ds + ys| - 1] == ds + ys[..|ys| - 1];
      assert ys[|ys| - 1] in ys;
      DedupeAbsorbs(ds, ys[..|ys| - 1]);
    }
  }

  /** Merging the same additions again changes nothing. */
  lemma DedupeIsAFixpoint(xs: seq<string>, ys: seq<string>)
    ensures Dedupe(Dedupe(xs + ys) + ys) == Dedupe(xs + ys)
  {
    DedupeDistinct(xs + ys);
    DedupeOfDistinct(Dedupe(xs + ys));
    forall y | y in ys ensures y in Dedupe(xs + ys) {
      DedupeMembers(xs + ys, y);
    }
    DedupeAbsorbs(Dedupe(xs + ys), ys);
  }

  /** Nothing that was listed is dropped, and the first occurrences keep their order. */
  lemma {:induction false} DedupeKeepsAll(xs: seq<string>, ys: seq<string>)
    ensures Dedupe(xs) <= Dedupe(xs + ys)
    ensures forall x | x in xs :: x in Dedupe(xs + ys)
    decreases |ys|
  {
    forall x | x in xs ensures x in Dedupe(xs + ys) {
      DedupeMembers(xs + ys, x);
    }
    if ys == [] {
      assert xs + ys == xs;
    } else {
      assert (xs + ys)[..|xs + ys| - 1] == xs + ys[..|ys| - 1];
      DedupeKeepsAll(xs, ys[..|ys| - 1]);
    }
  }

  // ---- ensuring one row -----------------------------------------------------------------

  /** How one required row is recognised, vetted and brought up to date. */
  datatype Rule<!T> = Rule(name: string, matches: T -> bool, acceptable: T -> bool, adjust: T -> T)

  function CountOf<T>(rows: seq<T>, matches: T -> bool): nat {
    if rows == [] then 0
    else CountOf(rows[..|rows| - 1], matches) + if matches(rows[|rows| - 1]) then 1 else 0
  }

  function Adjusted<T>(rows: seq<T>, rule: Rule<T>): (r: seq<T>)
    ensures |r| == |rows|
  {
    seq(|rows|, i requires 0 <= i < |rows| => if rule.matches(rows[i]) then rule.adjust(rows[i]) else rows[i])
  }

  predicate AllAcceptable<T>(rows: seq<T>, rule: Rule<T>) {
    forall i | 0 <= i < |rows| :: rule.matches(rows[i]) ==> rule.acceptable(rows[i])
  }

  /** Find the unique match and adjust it in place, append a blank row, or refuse. */
  function Ensure<T>(rows: seq<T>, rule: Rule<T>, blank: T): Result<seq<T>> {
    if CountOf(rows, rule.matches) > 1 then Err("Multiple " + rule.name + " matched")
    else if CountOf(rows, rule.matches) == 0 then Ok(rows + [blank])
    else if !AllAcceptable(rows, rule) then Err(rule.name + " must be user roles")
    else Ok(Adjusted(rows, rule))
  }

  ghost predicate Lawful<T(!new)>(rule: Rule<T>, blank: T) {
    && rule.matches(blank) && rule.acceptable(blank) && rule.adjust(blank) == blank
    && forall x | rule.matches(x) && rule.acceptable(x) ::
         var y := rule.adjust(x); rule.matches(y) && rule.acceptable(y) && rule.adjust(y) == y
  }

  /** Exactly one row matches, and it already is what the rule wants. */
  ghost predicate Settled<T>(rows: seq<T>, rule: Rule<T>) {
    && CountOf(rows, rule.matches) == 1
    && forall i | 0 <= i < |rows| ::
         rule.matches(rows[i]) ==> rule.acceptable(rows[i]) && rule.adjust(rows[i]) == rows[i]
  }

  /** `after` keeps every row of `before` in place, changed at most by the rule. */
  ghost predicate GrowsBy<T>(before: seq<T>, after: seq<T>, rule: Rule<T>) {
    && |before| <= |after|
    && forall i | 0 <= i < |before| ::
         || after[i] == before[i]
         || (rule.matches(before[i]) && rule.acceptable(before[i]) && after[i] == rule.adjust(before[i]))
  }

  lemma {:induction false} CountPointwise<T>(a: seq<T>, b: seq<T>, matches: T -> bool)
    requires |a| == |b| && forall i | 0 <= i < |a| :: matches(a[i]) == matches(b[i])
    ensures CountOf(a, matches) == CountOf(b, matches)
  {
    if a != [] {
      CountPointwise(a[..|a| - 1], b[..|b| - 1], matches);
    }
  }

  lemma CountAppend<T>(rows: seq<T>, x: T, matches: T -> bool)
    ensures CountOf(rows + [x], matches) == CountOf(rows, matches) + if matches(x) then 1 else 0
  {
    assert (rows + [x])[..|rows|] == rows;
  }

  lemma {:induction false} CountZero<T>(rows: seq<T>, matches: T -> bool, i: nat)
    requires CountOf(rows, matches) == 0 && i < |rows|
    ensures !matches(rows[i])
  {
    if i < |rows| - 1 {
      CountZero(rows[..|rows| - 1], matches, i);
    }
  }

  lemma EnsureSettles<T(!new)>(rows: seq<T>, rule: Rule<T>, blank: T)
    requires Lawful(rule, blank) && Ensure(rows, rule, blank).Ok?
    ensures Settled(Ensure(rows, rule, blank).value, rule)
    ensures GrowsBy(rows, Ensure(rows, rule, blank).value, rule)
  {
    var r := Ensure(rows, rule, blank).value;
    if CountOf(rows, rule.matches) == 0 {
      CountAppend(rows, blank, rule.matches);
      forall i | 0 <= i < |rows| ensures !rule.matches(rows[i]) {
        CountZero(rows, rule.matches, i);
      }
    } else {
      CountPointwise(rows, r, rule.matches);
    }
  }

  lemma SettledIsFixed<T>(rows: seq<T>, rule: Rule<T>, blank: T)
    requires Settled(rows, rule)
    ensures Ensure(rows, rule, blank) == Ok(rows)
  {
    assert Adjusted(rows, rule) == rows;
  }

  /** Bringing one row up to date does not disturb a row another rule has settled, as long as the
      two rules agree on the rows they share. */
  ghost predicate Compatible<T(!new)>(settled: Rule<T>, rule: Rule<T>, blank: T) {
    && (settled.matches(blank) ==> forall x | settled.matches(x) :: rule.matches(x))
    && forall x | rule.matches(x) && rule.acceptable(x) ::
         (settled.matches(rule.adjust(x)) <==> settled.matches(x))
         && (settled.matches(x) && settled.acceptable(x) && settled.adjust(x) == x ==>
               settled.acceptable(rule.adjust(x)) && settled.adjust(rule.adjust(x)) == rule.adjust(x))
  }

  lemma {:induction false} CountAtMost<T>(rows: seq<T>, narrow: T -> bool, wide: T -> bool)
    requires forall i | 0 <= i < |rows| :: narrow(rows[i]) ==> wide(rows[i])
    ensures CountOf(rows, narrow) <= CountOf(rows, wide)
  {
    if rows != [] {
      CountAtMost(rows[..|rows| - 1], narrow, wide);
    }
  }

  lemma EnsureKeepsSettled<T(!new)>(rows: seq<T>, settled: Rule<T>, rule: Rule<T>, blank: T)
    requires Settled(rows, settled) && Compatible(settled, rule, blank) && Ensure(rows, rule, blank).Ok?
    ensures Settled(Ensure(rows, rule, blank).value, settled)
  {
    var r := Ensure(rows, rule, blank).value;
    if CountOf(rows, rule.matches) == 0 {
      if settled.matches(blank) {
        CountAtMost(rows, settled.matches, rule.matches);
      }
      CountAppend(rows, blank, settled.matches);
    } else {
      CountPointwise(rows, r, settled.matches);
    }
  }

  // ---- the rows the command center needs ------------------------------------------------

  function ScopeRule(): Rule<Scope> {
    Rule("access_as_user scopes", (x: Scope) => x.value == SCOPE, (x: Scope) => true,
         (x: Scope) => x.(isEnabled := true))
  }

  function BlankScope(id: string): Scope {
    Scope(id, SCOPE, true,
          ["User", "Access the triage command center",
           "Access the command center as the signed-in user, subject to assigned roles.",
           "Access the triage command center", "Access the command center using your assigned roles."])
  }

  function With<T(==)>(xs: seq<T>, x: T): seq<T> {
    if x in xs then xs else xs + [x]
  }

  function CliRule(scopeId: string): Rule<PreAuthorized> {
    Rule("Azure CLI preauthorizations", (x: PreAuthorized) => x.appId == AZURE_CLI_CLIENT_ID,
         (x: PreAuthorized) => true, (x: PreAuthorized) => x.(permissionIds := With(x.permissionIds, scopeId)))
  }

  function RoleRule(spec: RoleSpec): Rule<Role> {
    Rule(spec.value + " roles", (x: Role) => x.value == spec.value, (x: Role) => x.memberTypes == ["User"],
         (x: Role) => x.(isEnabled := true, description := spec.description))
  }

  function BlankRole(spec: RoleSpec, id: string): Role {
    Role(id, spec.value, spec.displayName, spec.description, true, ["User"])
  }

  function AccessRule(name: string, appId: string, permission: Permission): Rule<Access> {
    Rule(name, (x: Access) => x.resourceAppId == appId, (x: Access) => true,
         (x: Access) => x.(permissions := With(x.permissions, permission)))
  }

  /** The id of the scope the command center is reached through. */
  function ScopeIdOf(scopes: seq<Scope>): string {
    if scopes == [] then ""
    else if scopes[|scopes| - 1].value == SCOPE then scopes[|scopes| - 1].id
    else ScopeIdOf(scopes[..|scopes| - 1])
  }

  function WithoutOrigin(stored: seq<StoredRole>): (r: seq<Role>)
    ensures |r| == |stored|
  {
    seq(|stored|, i requires 0 <= i < |stored| => stored[i].role)
  }

  function EnsureRoles(rows: seq<Role>, n: nat, ids: Fresh): Result<seq<Role>>
    requires n <= |ROLES|
  {
    if n == 0 then Ok(rows)
    else
      match EnsureRoles(rows, n - 1, ids)
      case Err(e) => Err(e)
      case Ok(rs) =>
        Ensure(rs, RoleRule(ROLES[n - 1]), BlankRole(ROLES[n - 1], ids.roleId(ROLES[n - 1].value)))
  }

  function EnsureCli(rows: seq<PreAuthorized>, authorize: bool, scopeId: string): Result<seq<PreAuthorized>> {
    if authorize then Ensure(rows, CliRule(scopeId), PreAuthorized(AZURE_CLI_CLIENT_ID, [scopeId])) else Ok(rows)
  }

  function GraphRule(): Rule<Access> {
    AccessRule("Graph permissions", GRAPH_CLIENT_ID, Permission(USER_READ_SCOPE_ID, "Scope"))
  }

  function OwnRule(appId: string, scopeId: string): Rule<Access> {
    AccessRule("own-API permissions", appId, Permission(scopeId, "Scope"))
  }

  function BlankGraphAccess(): Access {
    Access(GRAPH_CLIENT_ID, [Permission(USER_READ_SCOPE_ID, "Scope")])
  }

  function BlankOwnAccess(appId: string, scopeId: string): Access {
    Access(appId, [Permission(scopeId, "Scope")])
  }

  /** An empty client id counts as none. */
  predicate HasAppId(existing: Application) {
    existing.appId.Some? && existing.appId.value != ""
  }

  function EnsureAccess(existing: Application, scopeId: string): Result<seq<Access>> {
    match Ensure(existing.access, GraphRule(), BlankGraphAccess())
    case Err(e) => Err(e)
    case Ok(rows) =>
      if HasAppId(existing)
      then Ensure(rows, OwnRule(existing.appId.value, scopeId), BlankOwnAccess(existing.appId.value, scopeId))
      else Ok(rows)
  }

  // ---- the whole merge --------------------------------------------------------------------

  predicate MultiTenant(existing: Application) {
    existing.audience.Some? && existing.audience.value != SINGLE_TENANT
  }

  function PatchOf(existing: Application, displayName: string, redirects: seq<string>, authorizeCli: bool, ids: Fresh):
    Result<Patch>
  {
    if MultiTenant(existing) then Err("multitenant")
    else if existing.hasCredentials then Err("credentials")
    else
      match Ensure(existing.api.scopes, ScopeRule(), BlankScope(ids.scopeId))
      case Err(e) => Err(e)
      case Ok(scopes) =>
        match EnsureCli(existing.api.preAuthorized, authorizeCli, ScopeIdOf(scopes))
        case Err(e) => Err(e)
        case Ok(preAuthorized) =>
          match EnsureRoles(WithoutOrigin(existing.appRoles), |ROLES|, ids)
          case Err(e) => Err(e)
          case Ok(roles) =>
            match EnsureAccess(existing, ScopeIdOf(scopes))
            case Err(e) => Err(e)
            case Ok(access) => Ok(Assemble(existing, displayName, redirects, scopes, preAuthorized, roles, access))
  }

  function Assemble(existing: Application, displayName: string, redirects: seq<string>, scopes: seq<Scope>,
                    preAuthorized: seq<PreAuthorized>, roles: seq<Role>, access: seq<Access>): Patch {
    Patch(displayName, SINGLE_TENANT, false, Api(scopes, 2, preAuthorized, existing.api.rest), roles,
          Dedupe(existing.redirectUris + redirects), Web(false, false, existing.web.rest),
          Dedupe(existing.tags + [REGISTRATION_TAG]),
          if HasAppId(existing) then Some(Dedupe(existing.identifierUris + ["api://" + existing.appId.value]))
          else None,
          access)
  }

  method EnsureRow<T>(rows: seq<T>, rule: Rule<T>, blank: T) returns (r: Result<seq<T>>)
    ensures r == Ensure(rows, rule, blank)
  {
    var count, found := 0, 0;
    for i := 0 to |rows|
      invariant count == CountOf(rows[..i], rule.matches)
      invariant count > 0 ==> found < i && rule.matches(rows[found])
    {
      assert rows[..i + 1][..i] == rows[..i];
      if rule.matches(rows[i]) {
        count, found := count + 1, i;
      }
    }
    assert rows[..|rows|] == rows;
    if count > 1 {
      return Err("Multiple " + rule.name + " matched");
    }
    if count == 0 {
      return Ok(rows + [blank]);
    }
    OnlyMatch(rows, rule.matches, found);
    if !rule.acceptable(rows[found]) {
      return Err(rule.name + " must be user roles");
    }
    assert rows[found := rule.adjust(rows[found])] == Adjusted(rows, rule);
    return Ok(rows[found := rule.adjust(rows[found])]);
  }

  lemma {:induction false} OnlyMatch<T>(rows: seq<T>, matches: T -> bool, found: nat)
    requires CountOf(rows, matches) == 1 && found < |rows| && matches(rows[found])
    ensures forall i | 0 <= i < |rows| :: matches(rows[i]) ==> i == found
  {
    if found == |rows| - 1 {
      forall i | 0 <= i < |rows| - 1 ensures !matches(rows[i]) {
        CountZero(rows[..|rows| - 1], matches, i);
      }
    } else {
      MatchCounts(rows[..|rows| - 1], matches, found);
      OnlyMatch(rows[..|rows| - 1], matches, found);
    }
  }

  lemma {:induction false} MatchCounts<T>(rows: seq<T>, matches: T -> bool, found: nat)
    requires found < |rows| && matches(rows[found])
    ensures CountOf(rows, matches) >= 1
  {
    if found < |rows| - 1 {
      MatchCounts(rows[..|rows| - 1], matches, found);
    }
  }

  method UniqueStrings(xs: seq<string>) returns (r: seq<string>)
    ensures r == Dedupe(xs)
  {
    r := [];
    for i := 0 to |xs|
      invariant r == Dedupe(xs[..i])
    {
      assert xs[..i + 1][..i] == xs[..i];
      if xs[i] !in r {
        r := r + [xs[i]];
      }
    }
    assert xs[..|xs|] == xs;
  }

  /** The merge as it is carried out, list by list on copies. */
  method ApplicationPatch(existing: Application, displayName: string, redirects: seq<string>, authorizeCli: bool,
                          ids: Fresh) returns (r: Result<Patch>)
    ensures r == PatchOf(existing, displayName, redirects, authorizeCli, ids)
  {
    if MultiTenant(existing) {
      return Err("multitenant");
    }
    if existing.hasCredentials {
      return Err("credentials");
    }
    var scopes := EnsureRow(existing.api.scopes, ScopeRule(), BlankScope(ids.scopeId));
    if scopes.Err? {
      return Err(scopes.reason);
    }
    var scopeId := ScopeIdOf(scopes.value);
    var authorized := Ok(existing.api.preAuthorized);
    if authorizeCli {
      authorized := EnsureRow(existing.api.preAuthorized, CliRule(scopeId),
                              PreAuthorized(AZURE_CLI_CLIENT_ID, [scopeId]));
      if authorized.Err? {
        return Err(authorized.reason);
      }
    }
    var roles := WithoutOrigin(existing.appRoles);
    var n := 0;
    while n < |ROLES|
      invariant n <= |ROLES| && EnsureRoles(WithoutOrigin(existing.appRoles), n, ids) == Ok(roles)
    {
      var merged := EnsureRow(roles, RoleRule(ROLES[n]), BlankRole(ROLES[n], ids.roleId(ROLES[n].value)));
      n := n + 1;
      if merged.Err? {
        RolesFailForGood(WithoutOrigin(existing.appRoles), n, ids);
        return Err(merged.reason);
      }
      roles := merged.value;
    }
    var access := EnsureRow(existing.access, GraphRule(), BlankGraphAccess());
    if access.Ok? && HasAppId(existing) {
      access := EnsureRow(access.value, OwnRule(existing.appId.value, scopeId),
                          BlankOwnAccess(existing.appId.value, scopeId));
    }
    if access.Err? {
      return Err(access.reason);
    }
    var redirectUris := UniqueStrings(existing.redirectUris + redirects);
    var tags := UniqueStrings(existing.tags + [REGISTRATION_TAG]);
    var uris: Option<seq<string>> := None;
    if HasAppId(existing) {
      var merged := UniqueStrings(existing.identifierUris + ["api://" + existing.appId.value]);
      uris := Some(merged);
    }
    return Ok(Patch(displayName, SINGLE_TENANT, false, Api(scopes.value, 2, authorized.value, existing.api.rest), roles,
                    redirectUris, Web(false, false, existing.web.rest), tags, uris, access.value));
  }

  /** A role that cannot be merged fails the whole merge with its own reason. */
  lemma {:induction false} RolesFailForGood(rows: seq<Role>, n: nat, ids: Fresh)
    requires n <= |ROLES| && EnsureRoles(rows, n, ids).Err?
    ensures EnsureRoles(rows, |ROLES|, ids) == Err(EnsureRoles(rows, n, ids).reason)
    decreases |ROLES| - n
  {
    if n < |ROLES| {
      RolesFailForGood(rows, n + 1, ids);
    }
  }

  // ---- the merge is a fixpoint --------------------------------------------------------------

  /** What reading the application back returns after the patch was stored: the patch's lists, with
      whatever `origin` the directory reports for each role. */
  ghost predicate Stored(existing: Application, patch: Patch, after: Application) {
    && after.appId == existing.appId && after.displayName == patch.displayName
    && after.audience == Some(patch.audience) && after.fallback == patch.fallback
    && after.hasCredentials == existing.hasCredentials
    && after.api == patch.api && WithoutOrigin(after.appRoles) == patch.appRoles
    && after.redirectUris == patch.redirectUris && after.web == patch.web && after.tags == patch.tags
    && after.identifierUris
       == (if patch.identifierUris.Some? then patch.identifierUris.value else existing.identifierUris)
    && after.access == patch.access
  }

  lemma RoleValuesDiffer(i: nat, j: nat)
    requires i < j < |ROLES|
    ensures ROLES[i].value != ROLES[j].value
  {
    assert ROLES[0].value[14] == 'R' && ROLES[1].value[14] == 'O';
    assert ROLES[2].value[15] == 'p' && ROLES[3].value[15] == 'd';
    assert ROLES[2].value[14] == 'A' && ROLES[3].value[14] == 'A';
  }

  lemma {:induction false} RolesSettle(rows: seq<Role>, n: nat, ids: Fresh)
    requires n <= |ROLES| && EnsureRoles(rows, n, ids).Ok?
    ensures forall k | 0 <= k < n :: Settled(EnsureRoles(rows, n, ids).value, RoleRule(ROLES[k]))
  {
    if n > 0 {
      RolesSettle(rows, n - 1, ids);
      var before, spec := EnsureRoles(rows, n - 1, ids).value, ROLES[n - 1];
      var blank := BlankRole(spec, ids.roleId(spec.value));
      EnsureSettles(before, RoleRule(spec), blank);
      forall k | 0 <= k < n - 1 ensures Settled(EnsureRoles(rows, n, ids).value, RoleRule(ROLES[k])) {
        RoleValuesDiffer(k, n - 1);
        EnsureKeepsSettled(before, RoleRule(ROLES[k]), RoleRule(spec), blank);
      }
    }
  }

  lemma {:induction false} SettledRolesAreFixed(rows: seq<Role>, n: nat, ids: Fresh)
    requires n <= |ROLES| && forall k | 0 <= k < n :: Settled(rows, RoleRule(ROLES[k]))
    ensures EnsureRoles(rows, n, ids) == Ok(rows)
  {
    if n > 0 {
      SettledRolesAreFixed(rows, n - 1, ids);
      SettledIsFixed(rows, RoleRule(ROLES[n - 1]), BlankRole(ROLES[n - 1], ids.roleId(ROLES[n - 1].value)));
    }
  }

  lemma AccessSettles(existing: Application, scopeId: string)
    requires EnsureAccess(existing, scopeId).Ok?
    ensures Settled(EnsureAccess(existing, scopeId).value, GraphRule())
    ensures HasAppId(existing) ==>
              Settled(EnsureAccess(existing, scopeId).value, OwnRule(existing.appId.value, scopeId))
  {
    var graphBlank := BlankGraphAccess();
    EnsureSettles(existing.access, GraphRule(), graphBlank);
    var rows := Ensure(existing.access, GraphRule(), graphBlank).value;
    if HasAppId(existing) {
      var own, blank := OwnRule(existing.appId.value, scopeId), BlankOwnAccess(existing.appId.value, scopeId);
      EnsureSettles(rows, own, blank);
      EnsureKeepsSettled(rows, GraphRule(), own, blank);
    }
  }

  lemma EnsuredIsFixed<T(!new)>(rows: seq<T>, rule: Rule<T>, blank: T, laterBlank: T)
    requires Lawful(rule, blank) && Ensure(rows, rule, blank).Ok?
    ensures Ensure(Ensure(rows, rule, blank).value, rule, laterBlank) == Ensure(rows, rule, blank)
  {
    EnsureSettles(rows, rule, blank);
    SettledIsFixed(Ensure(rows, rule, blank).value, rule, laterBlank);
  }

  lemma EnsuredRolesAreFixed(rows: seq<Role>, ids: Fresh, laterIds: Fresh)
    requires EnsureRoles(rows, |ROLES|, ids).Ok?
    ensures EnsureRoles(EnsureRoles(rows, |ROLES|, ids).value, |ROLES|, laterIds) == EnsureRoles(rows, |ROLES|, ids)
  {
    RolesSettle(rows, |ROLES|, ids);
    SettledRolesAreFixed(EnsureRoles(rows, |ROLES|, ids).value, |ROLES|, laterIds);
  }

  lemma EnsuredAccessIsFixed(existing: Application, after: Application, scopeId: string)
    requires EnsureAccess(existing, scopeId).Ok? && after.appId == existing.appId
    requires after.access == EnsureAccess(existing, scopeId).value
    ensures EnsureAccess(after, scopeId) == EnsureAccess(existing, scopeId)
  {
    AccessSettles(existing, scopeId);
    SettledIsFixed(after.access, GraphRule(), BlankGraphAccess());
    if HasAppId(existing) {
      var appId := existing.appId.value;
      SettledIsFixed(after.access, OwnRule(appId, scopeId), BlankOwnAccess(appId, scopeId));
    }
  }

  lemma StoredRowsAreFixed(existing: Application, displayName: string, redirects: seq<string>, authorizeCli: bool,
                           ids: Fresh, after: Application, laterIds: Fresh)
    requires PatchOf(existing, displayName, redirects, authorizeCli, ids).Ok?
    requires Stored(existing, PatchOf(existing, displayName, redirects, authorizeCli, ids).value, after)
    ensures var patch := PatchOf(existing, displayName, redirects, authorizeCli, ids).value;
      var scopeId := ScopeIdOf(patch.api.scopes);
      && Ensure(after.api.scopes, ScopeRule(), BlankScope(laterIds.scopeId)) == Ok(patch.api.scopes)
      && EnsureCli(after.api.preAuthorized, authorizeCli, scopeId) == Ok(patch.api.preAuthorized)
      && EnsureRoles(WithoutOrigin(after.appRoles), |ROLES|, laterIds) == Ok(patch.appRoles)
      && EnsureAccess(after, scopeId) == Ok(patch.access)
  {
    var patch := PatchOf(existing, displayName, redirects, authorizeCli, ids).value;
    var scopeId := ScopeIdOf(patch.api.scopes);
    EnsuredIsFixed(existing.api.scopes, ScopeRule(), BlankScope(ids.scopeId), BlankScope(laterIds.scopeId));
    if authorizeCli {
      var blank := PreAuthorized(AZURE_CLI_CLIENT_ID, [scopeId]);
      EnsuredIsFixed(existing.api.preAuthorized, CliRule(scopeId), blank, blank);
    }
    EnsuredRolesAreFixed(WithoutOrigin(existing.appRoles), ids, laterIds);
    EnsuredAccessIsFixed(existing, after, scopeId);
  }

  lemma StoredNamesAreFixed(existing: Application, displayName: string, redirects: seq<string>, authorizeCli: bool,
                            ids: Fresh, after: Application)
    requires PatchOf(existing, displayName, redirects, authorizeCli, ids).Ok?
    requires Stored(existing, PatchOf(existing, displayName, redirects, authorizeCli, ids).value, after)
    ensures var patch := PatchOf(existing, displayName, redirects, authorizeCli, ids).value;
      Assemble(after, displayName, redirects, patch.api.scopes, patch.api.preAuthorized, patch.appRoles, patch.access)
      == patch
  {
    if HasAppId(existing) {
      DedupeIsAFixpoint(existing.identifierUris, ["api://" + existing.appId.value]);
    }
    DedupeIsAFixpoint(existing.redirectUris, redirects);
    DedupeIsAFixpoint(existing.tags, [REGISTRATION_TAG]);
  }

  /** Recomputing the merge on an application that stored it gives the same patch, whatever fresh ids
      the second computation draws. */
  lemma StoredPatchIsAFixpoint(existing: Application, displayName: string, redirects: seq<string>, authorizeCli: bool,
                               ids: Fresh, after: Application, laterIds: Fresh)
    requires PatchOf(existing, displayName, redirects, authorizeCli, ids).Ok?
    requires Stored(existing, PatchOf(existing, displayName, redirects, authorizeCli, ids).value, after)
    ensures PatchOf(after, displayName, redirects, authorizeCli, laterIds)
         == PatchOf(existing, displayName, redirects, authorizeCli, ids)
  {
    StoredRowsAreFixed(existing, displayName, redirects, authorizeCli, ids, after, laterIds);
    StoredNamesAreFixed(existing, displayName, redirects, authorizeCli, ids, after);
  }

  // ---- the merge only grows -------------------------------------------------------------------

  ghost predicate ScopesSurvive(before: seq<Scope>, after: seq<Scope>) {
    && |before| <= |after|
    && forall i | 0 <= i < |before| :: after[i] == before[i] || after[i] == before[i].(isEnabled := true)
  }

  ghost predicate RolesSurvive(before: seq<Role>, after: seq<Role>) {
    && |before| <= |after|
    && forall i | 0 <= i < |before| ::
         after[i] == before[i].(isEnabled := after[i].isEnabled, description := after[i].description)
  }

  ghost predicate AuthorizationsSurvive(before: seq<PreAuthorized>, after: seq<PreAuthorized>) {
    && |before| <= |after|
    && forall i | 0 <= i < |before| ::
         after[i].appId == before[i].appId && before[i].permissionIds <= after[i].permissionIds
  }

  ghost predicate AccessSurvives(before: seq<Access>, after: seq<Access>) {
    && |before| <= |after|
    && forall i | 0 <= i < |before| ::
         after[i].resourceAppId == before[i].resourceAppId && before[i].permissions <= after[i].permissions
  }

  /** `after` lists the names of `before` first, then the added ones, each once and nothing else. */
  ghost predicate NamesSurvive(before: seq<string>, added: seq<string>, after: seq<string>) {
    && Dedupe(before) <= after
    && (forall x :: x in after <==> x in before || x in added)
    && forall i, j | 0 <= i < j < |after| :: after[i] != after[j]
  }

  lemma {:induction false} RolesGrow(rows: seq<Role>, n: nat, ids: Fresh)
    requires n <= |ROLES| && EnsureRoles(rows, n, ids).Ok?
    ensures RolesSurvive(rows, EnsureRoles(rows, n, ids).value)
  {
    if n > 0 {
      RolesGrow(rows, n - 1, ids);
      var spec := ROLES[n - 1];
      EnsureSettles(EnsureRoles(rows, n - 1, ids).value, RoleRule(spec), BlankRole(spec, ids.roleId(spec.value)));
    }
  }

  lemma OneAccessGrows(rows: seq<Access>, name: string, appId: string, permission: Permission)
    requires Ensure(rows, AccessRule(name, appId, permission), Access(appId, [permission])).Ok?
    ensures AccessSurvives(rows, Ensure(rows, AccessRule(name, appId, permission), Access(appId, [permission])).value)
  {
    EnsureSettles(rows, AccessRule(name, appId, permission), Access(appId, [permission]));
  }

  lemma AccessSurvivesOn(first: seq<Access>, middle: seq<Access>, last: seq<Access>)
    requires AccessSurvives(first, middle) && AccessSurvives(middle, last)
    ensures AccessSurvives(first, last)
  {}

  lemma AccessGrows(existing: Application, scopeId: string)
    requires EnsureAccess(existing, scopeId).Ok?
    ensures AccessSurvives(existing.access, EnsureAccess(existing, scopeId).value)
  {
    var profile := Permission(USER_READ_SCOPE_ID, "Scope");
    OneAccessGrows(existing.access, "Graph permissions", GRAPH_CLIENT_ID, profile);
    if HasAppId(existing) {
      var rows := Ensure(existing.access, GraphRule(), Access(GRAPH_CLIENT_ID, [profile])).value;
      OneAccessGrows(rows, "own-API permissions", existing.appId.value, Permission(scopeId, "Scope"));
      AccessSurvivesOn(existing.access, rows, EnsureAccess(existing, scopeId).value);
    }
  }

  /** Every scope, authorization, role and resource permission survives the merge, at its place. */
  lemma PatchKeepsRows(existing: Application, displayName: string, redirects: seq<string>, authorizeCli: bool,
                       ids: Fresh)
    requires PatchOf(existing, displayName, redirects, authorizeCli, ids).Ok?
    ensures var patch := PatchOf(existing, displayName, redirects, authorizeCli, ids).value;
      && ScopesSurvive(existing.api.scopes, patch.api.scopes)
      && AuthorizationsSurvive(existing.api.preAuthorized, patch.api.preAuthorized)
      && RolesSurvive(WithoutOrigin(existing.appRoles), patch.appRoles)
      && AccessSurvives(existing.access, patch.access)
  {
    var patch := PatchOf(existing, displayName, redirects, authorizeCli, ids).value;
    var scopeId := ScopeIdOf(patch.api.scopes);
    ScopesGrow(existing.api.scopes, ids.scopeId);
    AuthorizationsGrow(existing.api.preAuthorized, authorizeCli, scopeId);
    RolesGrow(WithoutOrigin(existing.appRoles), |ROLES|, ids);
    AccessGrows(existing, scopeId);
  }

  lemma ScopesGrow(rows: seq<Scope>, id: string)
    requires Ensure(rows, ScopeRule(), BlankScope(id)).Ok?
    ensures ScopesSurvive(rows, Ensure(rows, ScopeRule(), BlankScope(id)).value)
  {
    EnsureSettles(rows, ScopeRule(), BlankScope(id));
  }

  lemma AuthorizationsGrow(rows: seq<PreAuthorized>, authorizeCli: bool, scopeId: string)
    requires EnsureCli(rows, authorizeCli, scopeId).Ok?
    ensures AuthorizationsSurvive(rows, EnsureCli(rows, authorizeCli, scopeId).value)
  {
    if authorizeCli {
      EnsureSettles(rows, CliRule(scopeId), PreAuthorized(AZURE_CLI_CLIENT_ID, [scopeId]));
    }
  }

  /** Every redirect, tag and identifier URI survives the merge, in its order of first occurrence. */
  lemma PatchKeepsNames(existing: Application, displayName: string, redirects: seq<string>, authorizeCli: bool,
                        ids: Fresh)
    requires PatchOf(existing, displayName, redirects, authorizeCli, ids).Ok?
    ensures var patch := PatchOf(existing, displayName, redirects, authorizeCli, ids).value;
      && NamesSurvive(existing.redirectUris, redirects, patch.redirectUris)
      && NamesSurvive(existing.tags, [REGISTRATION_TAG], patch.tags)
      && (HasAppId(existing) <==> patch.identifierUris.Some?)
      && (HasAppId(existing) ==>
            NamesSurvive(existing.identifierUris, ["api://" + existing.appId.value], patch.identifierUris.value))
  {
    MergedNamesSurvive(existing.redirectUris, redirects);
    MergedNamesSurvive(existing.tags, [REGISTRATION_TAG]);
    if HasAppId(existing) {
      MergedNamesSurvive(existing.identifierUris, ["api://" + existing.appId.value]);
    }
  }

  lemma MergedNamesSurvive(before: seq<string>, added: seq<string>)
    ensures NamesSurvive(before, added, Dedupe(before + added))
  {
    DedupeKeepsAll(before, added);
    DedupeDistinct(before + added);
    forall x ensures x in Dedupe(before + added) <==> x in before + added {
      DedupeMembers(before + added, x);
    }
  }

  /** What the command center needs is there exactly once: its scope, its four roles and both permissions. */
  lemma PatchProvides(existing: Application, displayName: string, redirects: seq<string>, authorizeCli: bool,
                      ids: Fresh)
    requires PatchOf(existing, displayName, redirects, authorizeCli, ids).Ok?
    ensures var patch := PatchOf(existing, displayName, redirects, authorizeCli, ids).value;
      var scopeId := ScopeIdOf(patch.api.scopes);
      && Settled(patch.api.scopes, ScopeRule())
      && (authorizeCli ==> Settled(patch.api.preAuthorized, CliRule(scopeId)))
      && (forall k | 0 <= k < |ROLES| :: Settled(patch.appRoles, RoleRule(ROLES[k])))
      && Settled(patch.access, GraphRule())
      && (HasAppId(existing) ==> Settled(patch.access, OwnRule(existing.appId.value, scopeId)))
  {
    var patch := PatchOf(existing, displayName, redirects, authorizeCli, ids).value;
    var scopeId := ScopeIdOf(patch.api.scopes);
    EnsureSettles(existing.api.scopes, ScopeRule(), BlankScope(ids.scopeId));
    if authorizeCli {
      EnsureSettles(existing.api.preAuthorized, CliRule(scopeId), PreAuthorized(AZURE_CLI_CLIENT_ID, [scopeId]));
    }
    RolesSettle(WithoutOrigin(existing.appRoles), |ROLES|, ids);
    AccessSettles(existing, scopeId);
  }

  // ---- exactly when the merge is refused ----------------------------------------------------------

  /** The faults an operator can see in the registration beforehand. */
  ghost predicate Mergeable(existing: Application, authorizeCli: bool) {
    && !MultiTenant(existing) && !existing.hasCredentials
    && CountOf(existing.api.scopes, ScopeRule().matches) <= 1
    && (authorizeCli ==> CountOf(existing.api.preAuthorized, (x: PreAuthorized) => x.appId == AZURE_CLI_CLIENT_ID) <= 1)
    && RolesAreMergeable(WithoutOrigin(existing.appRoles), |ROLES|)
    && CountOf(existing.access, GraphRule().matches) <= 1
    && (HasAppId(existing) ==> CountOf(existing.access, (x: Access) => x.resourceAppId == existing.appId.value) <= 1)
  }

  ghost predicate RoleIsMergeable(rows: seq<Role>, spec: RoleSpec) {
    CountOf(rows, RoleRule(spec).matches) <= 1 && AllAcceptable(rows, RoleRule(spec))
  }

  ghost predicate RolesAreMergeable(rows: seq<Role>, n: nat)
    requires n <= |ROLES|
  {
    n == 0 || (RolesAreMergeable(rows, n - 1) && RoleIsMergeable(rows, ROLES[n - 1]))
  }

  lemma EnsureSucceedsExactlyWhen<T>(rows: seq<T>, rule: Rule<T>, blank: T)
    ensures Ensure(rows, rule, blank).Ok? <==> CountOf(rows, rule.matches) <= 1 && AllAcceptable(rows, rule)
  {
    if CountOf(rows, rule.matches) == 0 {
      forall i | 0 <= i < |rows| ensures !rule.matches(rows[i]) {
        CountZero(rows, rule.matches, i);
      }
    }
  }

  /** Merging one role leaves the standing of every other role as it was. */
  lemma OtherRoleUnmoved(rows: seq<Role>, spec: RoleSpec, id: string, other: RoleSpec)
    requires spec.value != other.value && Ensure(rows, RoleRule(spec), BlankRole(spec, id)).Ok?
    ensures RoleIsMergeable(Ensure(rows, RoleRule(spec), BlankRole(spec, id)).value, other)
       <==> RoleIsMergeable(rows, other)
  {
    var rule, blank := RoleRule(spec), BlankRole(spec, id);
    var after := Ensure(rows, rule, blank).value;
    if CountOf(rows, rule.matches) == 0 {
      CountAppend(rows, blank, RoleRule(other).matches);
      assert forall i | 0 <= i < |rows| :: after[i] == rows[i];
    } else {
      assert forall i | 0 <= i < |rows| ::
          after[i].value == rows[i].value && after[i].memberTypes == rows[i].memberTypes;
      CountPointwise(rows, after, RoleRule(other).matches);
    }
  }

  lemma {:induction false} LaterRoleUnmoved(rows: seq<Role>, n: nat, ids: Fresh, k: nat)
    requires n <= k < |ROLES| && EnsureRoles(rows, n, ids).Ok?
    ensures RoleIsMergeable(EnsureRoles(rows, n, ids).value, ROLES[k]) <==> RoleIsMergeable(rows, ROLES[k])
  {
    if n > 0 {
      LaterRoleUnmoved(rows, n - 1, ids, k);
      RoleValuesDiffer(n - 1, k);
      OtherRoleUnmoved(EnsureRoles(rows, n - 1, ids).value, ROLES[n - 1], ids.roleId(ROLES[n - 1].value), ROLES[k]);
    }
  }

  lemma RoleStepSucceedsExactlyWhen(rows: seq<Role>, n: nat, ids: Fresh)
    requires 0 < n <= |ROLES| && EnsureRoles(rows, n - 1, ids).Ok?
    ensures EnsureRoles(rows, n, ids).Ok? <==> RoleIsMergeable(rows, ROLES[n - 1])
  {
    var spec := ROLES[n - 1];
    LaterRoleUnmoved(rows, n - 1, ids, n - 1);
    EnsureSucceedsExactlyWhen(EnsureRoles(rows, n - 1, ids).value, RoleRule(spec),
                              BlankRole(spec, ids.roleId(spec.value)));
  }

  lemma {:induction false} RolesSucceedExactlyWhen(rows: seq<Role>, n: nat, ids: Fresh)
    requires n <= |ROLES|
    ensures EnsureRoles(rows, n, ids).Ok? <==> RolesAreMergeable(rows, n)
  {
    if n > 0 {
      RolesSucceedExactlyWhen(rows, n - 1, ids);
      if EnsureRoles(rows, n - 1, ids).Ok? {
        RoleStepSucceedsExactlyWhen(rows, n, ids);
      }
    }
  }

  lemma AccessSucceedsExactlyWhen(existing: Application, scopeId: string)
    ensures EnsureAccess(existing, scopeId).Ok? <==>
            && CountOf(existing.access, GraphRule().matches) <= 1
            && (HasAppId(existing) ==>
                  CountOf(existing.access, (x: Access) => x.resourceAppId == existing.appId.value) <= 1)
  {
    var graphBlank := BlankGraphAccess();
    var graph := Ensure(existing.access, GraphRule(), graphBlank);
    if graph.Ok? && HasAppId(existing) {
      var own, mine := OwnRule(existing.appId.value, scopeId), (x: Access) => x.resourceAppId == existing.appId.value;
      CountAtMost(existing.access, own.matches, mine);
      CountAtMost(existing.access, mine, own.matches);
      if CountOf(existing.access, GraphRule().matches) == 0 {
        CountAppend(existing.access, graphBlank, own.matches);
        if own.matches(graphBlank) {
          CountAtMost(existing.access, own.matches, GraphRule().matches);
        }
      } else {
        CountPointwise(existing.access, graph.value, own.matches);
      }
    }
  }

  /** The merge is refused for nothing but the visible faults, and for each of them. */
  lemma MergeSucceedsExactlyWhenMergeable(existing: Application, displayName: string, redirects: seq<string>,
                                          authorizeCli: bool, ids: Fresh)
    ensures PatchOf(existing, displayName, redirects, authorizeCli, ids).Ok? <==> Mergeable(existing, authorizeCli)
  {
    var scopes := Ensure(existing.api.scopes, ScopeRule(), BlankScope(ids.scopeId));
    if scopes.Ok? {
      var scopeId := ScopeIdOf(scopes.value);
      var cli := (x: PreAuthorized) => x.appId == AZURE_CLI_CLIENT_ID;
      CountAtMost(existing.api.preAuthorized, CliRule(scopeId).matches, cli);
      CountAtMost(existing.api.preAuthorized, cli, CliRule(scopeId).matches);
      RolesSucceedExactlyWhen(WithoutOrigin(existing.appRoles), |ROLES|, ids);
      AccessSucceedsExactlyWhen(existing, scopeId);
    }
  }

  // ---- when a rerun writes again --------------------------------------------------------------------

  /** `changed`: some value of the patch differs from what the registration holds. */
  predicate Differs(existing: Application, patch: Patch) {
    || existing.displayName != patch.displayName || existing.audience != Some(patch.audience)
    || existing.fallback != patch.fallback || existing.api != patch.api
    || existing.appRoles != Bare(patch.appRoles)
    || existing.redirectUris != patch.redirectUris || existing.web != patch.web || existing.tags != patch.tags
    || (patch.identifierUris.Some? && existing.identifierUris != patch.identifierUris.value)
    || existing.access != patch.access
  }

  function Bare(roles: seq<Role>): (r: seq<StoredRole>)
    ensures |r| == |roles|
  {
    seq(|roles|, i requires 0 <= i < |roles| => StoredRole(roles[i], ""))
  }

  /** A rerun leaves the stored registration alone, except that role keys outside the merged ones make
      it write the same values again. */
  lemma RerunWritesAgainExactlyWithExtraRoleKeys(
    existing: Application, displayName: string, redirects: seq<string>, authorizeCli: bool,
    ids: Fresh, after: Application, laterIds: Fresh)
    requires PatchOf(existing, displayName, redirects, authorizeCli, ids).Ok?
    requires Stored(existing, PatchOf(existing, displayName, redirects, authorizeCli, ids).value, after)
    ensures PatchOf(after, displayName, redirects, authorizeCli, laterIds).Ok?
    ensures Differs(after, PatchOf(after, displayName, redirects, authorizeCli, laterIds).value)
       <==> exists i | 0 <= i < |after.appRoles| :: after.appRoles[i].origin != ""
  {
    StoredPatchIsAFixpoint(existing, displayName, redirects, authorizeCli, ids, after, laterIds);
    var patch := PatchOf(existing, displayName, redirects, authorizeCli, ids).value;
    forall i | 0 <= i < |after.appRoles|
      ensures after.appRoles[i] == StoredRole(patch.appRoles[i], after.appRoles[i].origin) {
      assert WithoutOrigin(after.appRoles)[i] == after.appRoles[i].role;
    }
    if forall i | 0 <= i < |after.appRoles| :: after.appRoles[i].origin == "" {
      assert after.appRoles == Bare(patch.appRoles);
    } else {
      var i :| 0 <= i < |after.appRoles| && after.appRoles[i].origin != "";
      assert Bare(patch.appRoles)[i].origin == "";
    }
  }
}
