/**
 The containment check that decides whether a deployed definition still holds
 everything the expected definition asks for.

 `json.loads` accepts `NaN`, which is unequal to itself, so NaN is a value here.
 */
module JsonContainment {

  datatype Json =
    | Null
    | Bool(b: bool)
    | Int(n: int)
    | Float(r: real)
    | NaN
    | Str(s: string)
    | Arr(items: seq<Json>)
    | Obj(fields: map<string, Json>)

  predicate AllStrings(items: seq<Json>) {
    forall i | 0 <= i < |items| :: items[i].Str?
  }

  /** `sorted(a) == sorted(b)` on strings: the same strings, equally often. */
  predicate SameSorted(a: seq<Json>, b: seq<Json>) {
    multiset(a) == multiset(b)
  }

  predicate Contains(actual: Json, expected: Json)
    decreases expected
  {
    match expected
    case Obj(fields) =>
      actual.Obj? && forall k | k in fields :: k in actual.fields && Contains(actual.fields[k], fields[k])
    case Arr(items) =>
      && actual.Arr?
      && |actual.items| == |items|
      && if AllStrings(actual.items) && AllStrings(items) then SameSorted(actual.items, items)
         else forall i | 0 <= i < |items| :: Contains(actual.items[i], items[i])
    case _ => actual == expected && expected != NaN
  }

  // ---- reflexivity --------------------------------------------------------------------

  predicate NaNFree(j: Json) {
    match j
    case NaN => false
    case Obj(fields) => forall k | k in fields :: NaNFree(fields[k])
    case Arr(items) => forall i | 0 <= i < |items| :: NaNFree(items[i])
    case _ => true
  }

  /** A value contains itself exactly when no NaN occurs in it. */
  lemma {:induction false} ReflexiveExactlyWithoutNaN(j: Json)
    ensures Contains(j, j) <==> NaNFree(j)
  {
    match j
    case Obj(fields) =>
      forall k | k in fields { ReflexiveExactlyWithoutNaN(fields[k]); }
    case Arr(items) =>
      forall i | 0 <= i < |items| { ReflexiveExactlyWithoutNaN(items[i]); }
    case _ =>
  }

  // ---- transitivity -------------------------------------------------------------------

  /** Containment never mixes strings with anything else. */
  lemma StringsMatchStrings(actual: Json, expected: Json)
    requires Contains(actual, expected)
    ensures actual.Str? <==> expected.Str?
  {
  }

  lemma ListsAreAlike(a: seq<Json>, b: seq<Json>)
    requires Contains(Arr(a), Arr(b))
    ensures |a| == |b| && (AllStrings(a) <==> AllStrings(b))
  {
    if !(AllStrings(a) && AllStrings(b)) {
      forall i | 0 <= i < |a| ensures a[i].Str? <==> b[i].Str? {
        StringsMatchStrings(a[i], b[i]);
      }
    }
  }

  lemma {:induction false} Transitive(a: Json, b: Json, c: Json)
    requires Contains(a, b) && Contains(b, c)
    ensures Contains(a, c)
    decreases c
  {
    match c
    case Obj(fields) =>
      forall k | k in fields ensures k in a.fields && Contains(a.fields[k], fields[k]) {
        Transitive(a.fields[k], b.fields[k], fields[k]);
      }
    case Arr(items) =>
      ListsAreAlike(a.items, b.items);
      ListsAreAlike(b.items, items);
      if !AllStrings(items) {
        forall i | 0 <= i < |items| ensures Contains(a.items[i], items[i]) {
          Transitive(a.items[i], b.items[i], items[i]);
        }
      }
    case _ =>
  }

  // ---- mutual containment ------------------------------------------------------------------

  /** A value up to the order of its string-only lists. */
  datatype Canonical =
    | Scalar(j: Json)
    | Words(words: multiset<Json>)
    | List(items: seq<Canonical>)
    | Record(fields: map<string, Canonical>)

  function Canon(j: Json): Canonical {
    match j
    case Obj(fields) => Record(map k | k in fields :: Canon(fields[k]))
    case Arr(items) =>
      if AllStrings(items) then Words(multiset(items))
      else List(seq(|items|, i requires 0 <= i < |items| => Canon(items[i])))
    case _ => Scalar(j)
  }

  lemma SameCanonSameLength(a: seq<Json>, b: seq<Json>)
    requires Canon(Arr(a)) == Canon(Arr(b))
    ensures |a| == |b| && (AllStrings(a) <==> AllStrings(b))
  {
    CanonLength(a);
    CanonLength(b);
  }

  lemma CanonLength(items: seq<Json>)
    ensures var c := Canon(Arr(items));
            if AllStrings(items) then c.Words? && |c.words| == |items| else c.List? && |c.items| == |items|
  {
    assert |multiset(items)| == |items|;
  }

  /** Equal canonical forms without NaN contain each other. */
  lemma {:induction false} SameCanonContains(a: Json, b: Json)
    requires Canon(a) == Canon(b) && NaNFree(b)
    ensures Contains(a, b)
    decreases b
  {
    match b
    case Obj(fields) =>
      assert a.Obj?;
      assert Canon(a).fields.Keys == Canon(b).fields.Keys;
      forall k | k in fields ensures k in a.fields && Contains(a.fields[k], fields[k]) {
        assert k in Canon(b).fields && k in Canon(a).fields;
        assert Canon(a).fields[k] == Canon(b).fields[k];
        SameCanonContains(a.fields[k], fields[k]);
      }
    case Arr(items) =>
      assert a.Arr?;
      SameCanonSameLength(a.items, items);
      if !AllStrings(items) {
        forall i | 0 <= i < |items| ensures Contains(a.items[i], items[i]) {
          assert Canon(a).items[i] == Canon(b).items[i];
          SameCanonContains(a.items[i], items[i]);
        }
      }
    case _ =>
  }

  lemma {:induction false} CanonKeepsNaN(a: Json, b: Json)
    requires Canon(a) == Canon(b) && NaNFree(a)
    ensures NaNFree(b)
    decreases b
  {
    match b
    case Obj(fields) =>
      assert a.Obj?;
      forall k | k in fields ensures NaNFree(fields[k]) {
        assert k in Canon(b).fields && k in Canon(a).fields;
        assert Canon(a).fields[k] == Canon(b).fields[k];
        CanonKeepsNaN(a.fields[k], fields[k]);
      }
    case Arr(items) =>
      assert a.Arr?;
      SameCanonSameLength(a.items, items);
      if !AllStrings(items) {
        forall i | 0 <= i < |items| ensures NaNFree(items[i]) {
          assert Canon(a).items[i] == Canon(b).items[i];
          CanonKeepsNaN(a.items[i], items[i]);
        }
      }
    case _ =>
  }

  lemma {:induction false} MutualMeansSameCanon(a: Json, b: Json)
    requires Contains(a, b) && Contains(b, a)
    ensures Canon(a) == Canon(b) && NaNFree(a)
    decreases b
  {
    match b
    case Obj(fields) =>
      forall k | k in a.fields ensures k in fields && Canon(a.fields[k]) == Canon(fields[k]) && NaNFree(a.fields[k]) {
        assert k in fields;
        MutualMeansSameCanon(a.fields[k], fields[k]);
      }
      assert a.fields.Keys == fields.Keys;
      assert Canon(a).fields == Canon(b).fields;
    case Arr(items) =>
      ListsAreAlike(a.items, items);
      if !AllStrings(items) {
        forall i | 0 <= i < |items| ensures Canon(a.items[i]) == Canon(items[i]) && NaNFree(a.items[i]) {
          MutualMeansSameCanon(a.items[i], items[i]);
        }
      }
    case _ =>
  }

  /** Two values contain each other exactly when they are free of NaN and equal up to the order of
      their string-only lists. */
  lemma MutualContainment(a: Json, b: Json)
    ensures Contains(a, b) && Contains(b, a) <==> Canon(a) == Canon(b) && NaNFree(a)
  {
    if Contains(a, b) && Contains(b, a) {
      MutualMeansSameCanon(a, b);
    }
    if Canon(a) == Canon(b) && NaNFree(a) {
      CanonKeepsNaN(a, b);
      SameCanonContains(a, b);
      SameCanonContains(b, a);
    }
  }
}
