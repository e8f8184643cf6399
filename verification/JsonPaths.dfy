/**
 Containment place by place: every place of the expected tree makes its own demand on the same place of the
 actual one, and nothing else is demanded.
 */
module JsonPaths {
  import opened Options
  import opened JsonContainment

  datatype Key = Field(name: string) | Item(index: nat)

  type Path = seq<Key>

  ghost predicate OnlyWords(items: seq<Json>) {
    forall i | 0 <= i < |items| :: items[i].Str?
  }

  /** What stands at a place; a list of words is one place. */
  ghost function At(j: Json, path: Path): Option<Json>
    decreases |path|
  {
    if path == [] then Some(j)
    else if j.Obj? && path[0].Field? && path[0].name in j.fields then At(j.fields[path[0].name], path[1..])
    else if j.Arr? && path[0].Item? && path[0].index < |j.items| && !OnlyWords(j.items)
    then At(j.items[path[0].index], path[1..])
    else None
  }

  /** An object asks for an object, a list for a list of its length (of its words, if it has no others), and anything
      else for itself. */
  ghost predicate Demands(expected: Json, actual: Option<Json>) {
    && actual.Some?
    && match expected
       case Obj(_) => actual.value.Obj?
       case Arr(items) =>
         && actual.value.Arr? && |actual.value.items| == |items|
         && (OnlyWords(items) ==> OnlyWords(actual.value.items) && multiset(actual.value.items) == multiset(items))
       case NaN => false
       case _ => actual.value == expected
  }

  ghost predicate MeetsEveryDemand(actual: Json, expected: Json) {
    forall path | At(expected, path).Some? :: Demands(At(expected, path).value, At(actual, path))
  }

  lemma {:induction false} ContainsAt(actual: Json, expected: Json, path: Path)
    requires Contains(actual, expected) && At(expected, path).Some?
    ensures At(actual, path).Some? && Contains(At(actual, path).value, At(expected, path).value)
    decreases |path|
  {
    if path != [] {
      if expected.Obj? {
        ContainsAt(actual.fields[path[0].name], expected.fields[path[0].name], path[1..]);
      } else {
        ListsAreAlike(actual.items, expected.items);
        ContainsAt(actual.items[path[0].index], expected.items[path[0].index], path[1..]);
      }
    }
  }

  lemma ContainsDemands(actual: Json, expected: Json)
    requires Contains(actual, expected)
    ensures Demands(expected, Some(actual))
  {
    if expected.Arr? {
      ListsAreAlike(actual.items, expected.items);
    }
  }

  lemma AtBelow(j: Json, key: Key, path: Path)
    ensures At(j, [key] + path) == if At(j, [key]).Some? then At(At(j, [key]).value, path) else None
  {
    assert ([key] + path)[1..] == path && [key][1..] == [];
  }

  lemma DemandsBelow(actual: Json, expected: Json, key: Key)
    requires MeetsEveryDemand(actual, expected) && At(expected, [key]).Some?
    ensures At(actual, [key]).Some?
    ensures MeetsEveryDemand(At(actual, [key]).value, At(expected, [key]).value)
  {
    assert Demands(At(expected, [key]).value, At(actual, [key]));
    var a, e := At(actual, [key]).value, At(expected, [key]).value;
    forall path | At(e, path).Some? ensures Demands(At(e, path).value, At(a, path)) {
      AtBelow(expected, key, path);
      AtBelow(actual, key, path);
    }
  }

  lemma {:induction false} DemandsGiveContainment(actual: Json, expected: Json)
    requires MeetsEveryDemand(actual, expected)
    ensures Contains(actual, expected)
    decreases expected
  {
    assert At(expected, []) == Some(expected) && At(actual, []) == Some(actual);
    assert Demands(expected, Some(actual));
    match expected
    case Obj(fields) =>
      forall k | k in fields ensures k in actual.fields && Contains(actual.fields[k], fields[k]) {
        assert At(expected, [Field(k)]) == Some(fields[k]);
        DemandsBelow(actual, expected, Field(k));
        DemandsGiveContainment(actual.fields[k], fields[k]);
      }
    case Arr(items) =>
      if !OnlyWords(items) {
        forall i | 0 <= i < |items| ensures Contains(actual.items[i], items[i]) {
          assert At(expected, [Item(i)]) == Some(items[i]);
          DemandsBelow(actual, expected, Item(i));
          DemandsGiveContainment(actual.items[i], items[i]);
        }
      }
    case _ =>
  }

  /** Containment is exactly that every place of the expected tree has its demand met. */
  lemma ContainsExactlyByDemands(actual: Json, expected: Json)
    ensures Contains(actual, expected) <==> MeetsEveryDemand(actual, expected)
  {
    if Contains(actual, expected) {
      forall path | At(expected, path).Some? ensures Demands(At(expected, path).value, At(actual, path)) {
        ContainsAt(actual, expected, path);
        ContainsDemands(At(actual, path).value, At(expected, path).value);
      }
    }
    if MeetsEveryDemand(actual, expected) {
      DemandsGiveContainment(actual, expected);
    }
  }

  // ---- one way only ------------------------------------------------------------------------------

  /** The tree with one more field, or another value for it, in the object at a place. */
  ghost function Put(j: Json, path: Path, k: string, v: Json): Json
    decreases |path|
  {
    if path == [] then (if j.Obj? then Obj(j.fields[k := v]) else j)
    else if j.Obj? && path[0].Field? && path[0].name in j.fields
    then Obj(j.fields[path[0].name := Put(j.fields[path[0].name], path[1..], k, v)])
    else if j.Arr? && path[0].Item? && path[0].index < |j.items|
    then Arr(j.items[path[0].index := Put(j.items[path[0].index], path[1..], k, v)])
    else j
  }

  /** The tree without a field of the object at a place. */
  ghost function Drop(j: Json, path: Path, k: string): Json
    decreases |path|
  {
    if path == [] then (if j.Obj? then Obj(j.fields - {k}) else j)
    else if j.Obj? && path[0].Field? && path[0].name in j.fields
    then Obj(j.fields[path[0].name := Drop(j.fields[path[0].name], path[1..], k)])
    else if j.Arr? && path[0].Item? && path[0].index < |j.items|
    then Arr(j.items[path[0].index := Drop(j.items[path[0].index], path[1..], k)])
    else j
  }

  lemma EditsKeepWords(j: Json, path: Path, k: string, v: Json)
    ensures Put(j, path, k, v).Str? <==> j.Str?
    ensures Drop(j, path, k).Str? <==> j.Str?
    ensures j.Str? ==> Put(j, path, k, v) == j && Drop(j, path, k) == j
  {
  }

  lemma OneElementContains(a: seq<Json>, e: seq<Json>, i: nat, item: Json)
    requires !AllStrings(a) && Contains(Arr(a), Arr(e)) && i < |a| && (item.Str? <==> a[i].Str?) && Contains(item, e[i])
    ensures Contains(Arr(a[i := item]), Arr(e))
  {
    var n :| 0 <= n < |a| && !a[n].Str?;
    assert !a[i := item][n].Str?;
  }

  /** Adding a field that the expected object lacks, at any depth, keeps containment. */
  lemma {:induction false} AddingAFieldKeepsContainment(actual: Json, expected: Json, path: Path, k: string, v: Json)
    requires Contains(actual, expected)
    requires At(expected, path).Some? && At(expected, path).value.Obj? ==> k !in At(expected, path).value.fields
    ensures Contains(Put(actual, path, k, v), expected)
    decreases |path|
  {
    if path != [] {
      if actual.Obj? && path[0].Field? && path[0].name in actual.fields && path[0].name in expected.fields {
        AddingAFieldKeepsContainment(actual.fields[path[0].name], expected.fields[path[0].name], path[1..], k, v);
      } else if actual.Arr? && path[0].Item? && path[0].index < |actual.items| {
        var i := path[0].index;
        ListsAreAlike(actual.items, expected.items);
        EditsKeepWords(actual.items[i], path[1..], k, v);
        var item := Put(actual.items[i], path[1..], k, v);
        if AllStrings(actual.items) {
          assert actual.items[i := item] == actual.items;
        } else {
          AddingAFieldKeepsContainment(actual.items[i], expected.items[i], path[1..], k, v);
          OneElementContains(actual.items, expected.items, i, item);
        }
      }
    }
  }

  /** Dropping a field from the expected tree, at any depth, keeps containment. */
  lemma {:induction false} DroppingAFieldKeepsContainment(actual: Json, expected: Json, path: Path, k: string)
    requires Contains(actual, expected)
    ensures Contains(actual, Drop(expected, path, k))
    decreases |path|
  {
    if path != [] {
      if expected.Obj? && path[0].Field? && path[0].name in expected.fields {
        DroppingAFieldKeepsContainment(actual.fields[path[0].name], expected.fields[path[0].name], path[1..], k);
      } else if expected.Arr? && path[0].Item? && path[0].index < |expected.items| {
        var i := path[0].index;
        ListsAreAlike(actual.items, expected.items);
        EditsKeepWords(expected.items[i], path[1..], k, Null);
        var items := Drop(expected, path, k).items;
        if AllStrings(expected.items) {
          assert items == expected.items;
        } else {
          DroppingAFieldKeepsContainment(actual.items[i], expected.items[i], path[1..], k);
          assert !AllStrings(items) by {
            var n :| 0 <= n < |expected.items| && !expected.items[n].Str?;
            assert !items[n].Str?;
          }
        }
      }
    }
  }

  lemma {:induction false} AtLast(j: Json, path: Path, key: Key)
    ensures At(j, path + [key]) == if At(j, path).Some? then At(At(j, path).value, [key]) else None
    decreases |path|
  {
    if path == [] {
      assert path + [key] == [key];
    } else {
      assert (path + [key])[1..] == path[1..] + [key];
      if j.Obj? && path[0].Field? && path[0].name in j.fields {
        AtLast(j.fields[path[0].name], path[1..], key);
      } else if j.Arr? && path[0].Item? && path[0].index < |j.items| && !OnlyWords(j.items) {
        AtLast(j.items[path[0].index], path[1..], key);
      }
    }
  }

  /** A field that the expected tree asks for and the actual one lacks, at any place, refuses. */
  lemma AMissingFieldRefuses(actual: Json, expected: Json, path: Path, k: string)
    requires At(expected, path).Some? && At(expected, path).value.Obj? && k in At(expected, path).value.fields
    requires At(actual, path).Some? && At(actual, path).value.Obj? ==> k !in At(actual, path).value.fields
    ensures !Contains(actual, expected)
  {
    AtLast(expected, path, Field(k));
    AtLast(actual, path, Field(k));
    if Contains(actual, expected) {
      ContainsAt(actual, expected, path + [Field(k)]);
    }
  }

  /** Lists: the length counts, and the order as soon as one element is no word. */
  lemma ListsCompareInOrderUnlessOnlyWords(a: seq<Json>, e: seq<Json>)
    ensures OnlyWords(a) && OnlyWords(e) ==> (Contains(Arr(a), Arr(e)) <==> multiset(a) == multiset(e))
    ensures !OnlyWords(a) || !OnlyWords(e) ==>
              (Contains(Arr(a), Arr(e)) <==> |a| == |e| && forall i | 0 <= i < |e| :: Contains(a[i], e[i]))
    ensures |a| != |e| ==> !Contains(Arr(a), Arr(e))
  {
    assert |multiset(a)| == |a| && |multiset(e)| == |e|;
  }

  /** Words may change places. */
  lemma WordsMayChangePlaces(name: string, other: string)
    ensures Contains(Arr([Str(other), Str(name)]), Arr([Str(name), Str(other)]))
  {
    assert multiset([Str(other), Str(name)]) == multiset([Str(name), Str(other)]);
  }

  /** A word and anything else may not. */
  lemma OthersMayNot(name: string, v: Json)
    requires !v.Str?
    ensures !Contains(Arr([v, Str(name)]), Arr([Str(name), v]))
  {
    var a, e := [v, Str(name)], [Str(name), v];
    assert !a[0].Str?;
    ListsCompareInOrderUnlessOnlyWords(a, e);
    assert !Contains(a[0], e[0]);
  }

  /** An enriched object contains what it was made from, and not the other way round. */
  lemma OneWayOnly(fields: map<string, Json>, k: string, v: Json)
    requires k !in fields && NaNFree(Obj(fields))
    ensures Contains(Obj(fields[k := v]), Obj(fields)) && !Contains(Obj(fields), Obj(fields[k := v]))
  {
    forall n | n in fields ensures Contains(fields[n], fields[n]) {
      ReflexiveExactlyWithoutNaN(fields[n]);
    }
    assert k in fields[k := v];
  }
}
