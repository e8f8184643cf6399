/**
 The order in which a reset empties its tables: children before parents.

 A table name is represented by its rank in code-point order, so `sorted` on
 names is sorting by number.
 */
module DeletionOrder {
  import opened Options

  type Name = nat

  datatype Operation =
    Clear | ReplaceControl | PreserveReceipts | PreserveBudget | PreserveRegistration | PreserveJournal

  datatype Table = Table(name: Name, operation: Operation)

  datatype ForeignKey = ForeignKey(child: Name, parent: Name)

  function Clearable(tables: seq<Table>): set<Name> {
    set t | t in tables && t.operation == Clear :: t.name
  }

  /** Nothing still pending refers to `name`. */
  predicate Ready(keys: seq<ForeignKey>, pending: set<Name>, name: Name) {
    forall e | e in keys :: !(e.parent == name && e.child in pending)
  }

  function ReadyNames(keys: seq<ForeignKey>, pending: set<Name>): set<Name> {
    set n | n in pending && Ready(keys, pending, n)
  }

  // ---- sorting a set -----------------------------------------------------------

  predicate IsLeast(m: Name, s: set<Name>) {
    m in s && forall x | x in s :: m <= x
  }

  lemma {:induction false} LeastExists(s: set<Name>)
    requires s != {}
    ensures exists m :: IsLeast(m, s)
  {
    var x :| x in s;
    if s == {x} {
      assert IsLeast(x, s);
    } else {
      LeastExists(s - {x});
      var n :| IsLeast(n, s - {x});
      var m := if n < x then n else x;
      forall y | y in s ensures m <= y {
        assert y == x || y in s - {x};
      }
      assert IsLeast(m, s);
    }
  }

  function Sorted(s: set<Name>): (r: seq<Name>)
    ensures forall x :: x in r <==> x in s
    ensures forall i, j :: 0 <= i < j < |r| ==> r[i] < r[j]
  {
    if s == {} then []
    else
      LeastExists(s);
      var m :| IsLeast(m, s);
      var rest := Sorted(s - {m});
      assert forall j | 0 <= j < |rest| :: rest[j] in s - {m};
      [m] + rest
  }

  // ---- the layered order ---------------------------------------------------------

  function Layered(keys: seq<ForeignKey>, pending: set<Name>): Result<seq<Name>>
    decreases pending
  {
    var ready := ReadyNames(keys, pending);
    if pending == {} then Ok([])
    else if ready == {} then Err("foreign_key_cycle")
    else match Layered(keys, pending - ready)
      case Ok(rest) => Ok(Sorted(ready) + rest)
      case Err(e) => Err(e)
  }

  method Order(tables: seq<Table>, keys: seq<ForeignKey>) returns (r: Result<seq<Name>>)
    ensures r == Layered(keys, Clearable(tables))
    ensures Orders(tables, keys, r)
  {
    var pending := Clearable(tables);
    var ordered := [];
    assert forall rest: seq<Name> :: [] + rest == rest;
    while pending != {}
      invariant Layered(keys, Clearable(tables))
             == match Layered(keys, pending) case Ok(rest) => Ok(ordered + rest) case Err(e) => Err(e)
      decreases pending
    {
      var ready := ReadyNames(keys, pending);
      if ready == {} {
        LayeredOrders(tables, keys);
        return Err("foreign_key_cycle");
      }
      ghost var rest := Layered(keys, pending - ready);
      assert rest.Ok? ==> ordered + (Sorted(ready) + rest.value) == ordered + Sorted(ready) + rest.value;
      ordered := ordered + Sorted(ready);
      pending := pending - ready;
    }
    assert ordered + [] == ordered;
    LayeredOrders(tables, keys);
    return Ok(ordered);
  }

  // ---- what an order has to be ----------------------------------------------------

  ghost predicate PermutationOf(order: seq<Name>, names: set<Name>) {
    && (forall x :: x in order <==> x in names)
    && forall i, j :: 0 <= i < j < |order| ==> order[i] != order[j]
  }

  ghost predicate ChildrenFirst(keys: seq<ForeignKey>, order: seq<Name>) {
    forall i, j | 0 <= i < |order| && 0 <= j < |order| :: ForeignKey(order[i], order[j]) in keys ==> i < j
  }

  lemma {:induction false} LayeredIsADeletionOrder(keys: seq<ForeignKey>, pending: set<Name>)
    requires Layered(keys, pending).Ok?
    ensures PermutationOf(Layered(keys, pending).value, pending)
    ensures ChildrenFirst(keys, Layered(keys, pending).value)
    decreases pending
  {
    if pending != {} {
      var ready := ReadyNames(keys, pending);
      LayeredIsADeletionOrder(keys, pending - ready);
      ReadyThenRest(keys, pending, Sorted(ready), Layered(keys, pending - ready).value);
    }
  }

  lemma Unreferenced(keys: seq<ForeignKey>, pending: set<Name>, child: Name, parent: Name)
    requires ForeignKey(child, parent) in keys && child in pending
    ensures parent !in ReadyNames(keys, pending)
  {
    assert ForeignKey(child, parent).child in pending;
  }

  lemma JoinedPermutation(first: seq<Name>, rest: seq<Name>, names: set<Name>, others: set<Name>)
    requires PermutationOf(first, names) && PermutationOf(rest, others) && names !! others
    ensures PermutationOf(first + rest, names + others)
  {
    var order := first + rest;
    forall i, j | 0 <= i < j < |order| ensures order[i] != order[j] {
      assert order[i] in if i < |first| then first else rest;
      assert order[j] in if j < |first| then first else rest;
    }
  }

  lemma ReadyThenRest(keys: seq<ForeignKey>, pending: set<Name>, first: seq<Name>, rest: seq<Name>)
    requires PermutationOf(first, ReadyNames(keys, pending))
    requires PermutationOf(rest, pending - ReadyNames(keys, pending)) && ChildrenFirst(keys, rest)
    ensures PermutationOf(first + rest, pending) && ChildrenFirst(keys, first + rest)
  {
    var order := first + rest;
    JoinedPermutation(first, rest, ReadyNames(keys, pending), pending - ReadyNames(keys, pending));
    assert ReadyNames(keys, pending) + (pending - ReadyNames(keys, pending)) == pending;
    forall i, j | 0 <= i < |order| && 0 <= j < |order| && ForeignKey(order[i], order[j]) in keys
      ensures i < j
    {
      assert order[i] in pending;
      Unreferenced(keys, pending, order[i], order[j]);
      assert order[j] !in first;
      if i >= |first| {
        assert order[i] == rest[i - |first|] && order[j] == rest[j - |first|];
      }
    }
  }

  /** While a delete prefix runs, no surviving row can refer to an emptied table. */
  lemma NoDanglingReference(keys: seq<ForeignKey>, pending: set<Name>, k: nat, e: ForeignKey)
    requires Layered(keys, pending).Ok? && k <= |Layered(keys, pending).value|
    requires e in keys && e.child in pending && e.parent in Layered(keys, pending).value[..k]
    ensures e.child in Layered(keys, pending).value[..k]
  {
    LayeredIsADeletionOrder(keys, pending);
    var order := Layered(keys, pending).value;
    var j :| 0 <= j < k && order[j] == e.parent;
    assert e.child in order;
    var i :| 0 <= i < |order| && order[i] == e.child;
    assert ForeignKey(order[i], order[j]) in keys;
    assert order[..k][i] == e.child;
  }

  // ---- it fails exactly on a cycle ---------------------------------------------------

  /** A closed walk inside `names` that follows foreign keys from parent to child. */
  ghost predicate IsCycle(keys: seq<ForeignKey>, names: set<Name>, walk: seq<Name>) {
    && |walk| >= 2 && walk[0] == walk[|walk| - 1]
    && IsWalk(keys, names, walk)
  }

  ghost predicate IsWalk(keys: seq<ForeignKey>, names: set<Name>, walk: seq<Name>) {
    && (forall i | 0 <= i < |walk| :: walk[i] in names)
    && forall i | 0 < i < |walk| :: ForeignKey(walk[i], walk[i - 1]) in keys
  }

  ghost predicate Cyclic(keys: seq<ForeignKey>, names: set<Name>) {
    exists walk :: IsCycle(keys, names, walk)
  }

  lemma {:induction false} WalkRunsBackwards(keys: seq<ForeignKey>, order: seq<Name>, names: set<Name>, walk: seq<Name>)
    returns (first: nat, last: nat)
    requires PermutationOf(order, names) && ChildrenFirst(keys, order)
    requires |walk| >= 2 && IsWalk(keys, names, walk)
    ensures last < first < |order| && order[first] == walk[0] && order[last] == walk[|walk| - 1]
    decreases |walk|
  {
    assert walk[|walk| - 1] in order;
    last :| 0 <= last < |order| && order[last] == walk[|walk| - 1];
    if |walk| == 2 {
      assert walk[0] in order;
      first :| 0 <= first < |order| && order[first] == walk[0];
      assert ForeignKey(walk[1], walk[0]) in keys;
    } else {
      var shorter := walk[..|walk| - 1];
      var middle;
      first, middle := WalkRunsBackwards(keys, order, names, shorter);
      assert ForeignKey(order[last], order[middle]) in keys;
    }
  }

  lemma {:induction false} DistinctFitIn(s: seq<Name>, names: set<Name>)
    requires forall i | 0 <= i < |s| :: s[i] in names
    requires forall i, j :: 0 <= i < j < |s| ==> s[i] != s[j]
    ensures |s| <= |names|
  {
    if s != [] {
      var last := s[|s| - 1];
      DistinctFitIn(s[..|s| - 1], names - {last});
    }
  }

  /** In a stuck set every name has a child, so a long enough walk must repeat. */
  lemma {:induction false} StuckWalk(keys: seq<ForeignKey>, names: set<Name>, length: nat) returns (walk: seq<Name>)
    requires names != {} && ReadyNames(keys, names) == {}
    requires length >= 1
    ensures |walk| == length && IsWalk(keys, names, walk)
  {
    if length == 1 {
      var n :| n in names;
      walk := [n];
    } else {
      var shorter := StuckWalk(keys, names, length - 1);
      var end := shorter[|shorter| - 1];
      assert end !in ReadyNames(keys, names);
      var e :| e in keys && e.parent == end && e.child in names;
      assert e == ForeignKey(e.child, end);
      walk := shorter + [e.child];
    }
  }

  lemma StuckMeansCyclic(keys: seq<ForeignKey>, names: set<Name>)
    requires names != {} && ReadyNames(keys, names) == {}
    ensures Cyclic(keys, names)
  {
    var walk := StuckWalk(keys, names, |names| + 1);
    if forall i, j :: 0 <= i < j < |walk| ==> walk[i] != walk[j] {
      DistinctFitIn(walk, names);
    } else {
      var i, j :| 0 <= i < j < |walk| && walk[i] == walk[j];
      var loop := walk[i..j + 1];
      forall k | 0 < k < |loop| ensures ForeignKey(loop[k], loop[k - 1]) in keys {
        assert loop[k] == walk[i + k] && loop[k - 1] == walk[i + k - 1];
      }
      assert IsCycle(keys, names, loop);
    }
  }

  lemma {:induction false} FailureMeansCyclic(keys: seq<ForeignKey>, pending: set<Name>)
    requires Layered(keys, pending).Err?
    ensures Cyclic(keys, pending)
    decreases pending
  {
    var ready := ReadyNames(keys, pending);
    if ready == {} {
      StuckMeansCyclic(keys, pending);
    } else {
      FailureMeansCyclic(keys, pending - ready);
      var walk :| IsCycle(keys, pending - ready, walk);
      assert IsCycle(keys, pending, walk);
    }
  }

  /** The order fails exactly when the foreign keys among its tables form a cycle, self-references included. */
  lemma FailsExactlyOnACycle(keys: seq<ForeignKey>, pending: set<Name>)
    ensures Layered(keys, pending).Err? <==> Cyclic(keys, pending)
  {
    if Layered(keys, pending).Err? {
      FailureMeansCyclic(keys, pending);
    } else {
      LayeredIsADeletionOrder(keys, pending);
      if Cyclic(keys, pending) {
        var walk :| IsCycle(keys, pending, walk);
        var first, last := WalkRunsBackwards(keys, Layered(keys, pending).value, pending, walk);
      }
    }
  }

  /** An order of exactly the tables to clear, children first, or none because their keys form a cycle. */
  ghost predicate Orders(tables: seq<Table>, keys: seq<ForeignKey>, r: Result<seq<Name>>) {
    match r
    case Ok(order) =>
      && (forall x :: x in order <==> exists t | t in tables :: t.operation == Clear && t.name == x)
      && (forall i, j | 0 <= i < j < |order| :: order[i] != order[j])
      && ChildrenFirst(keys, order)
    case Err(_) => Cyclic(keys, set t | t in tables && t.operation == Clear :: t.name)
  }

  lemma LayeredOrders(tables: seq<Table>, keys: seq<ForeignKey>)
    ensures Orders(tables, keys, Layered(keys, Clearable(tables)))
  {
    if Layered(keys, Clearable(tables)).Ok? {
      LayeredIsADeletionOrder(keys, Clearable(tables));
    } else {
      FailsExactlyOnACycle(keys, Clearable(tables));
    }
  }

  // ---- which of the orders it is -------------------------------------------------------------

  /** The layer of a name: 0 without a child among the names, else one more than the highest of its children. */
  ghost predicate AreLayers(keys: seq<ForeignKey>, names: set<Name>, layer: map<Name, nat>) {
    && layer.Keys == names
    && (forall e | e in keys && e.parent in names && e.child in names :: layer[e.child] < layer[e.parent])
    && forall n | n in names && layer[n] > 0 ::
         exists e | e in keys :: e.parent == n && e.child in names && layer[e.child] == layer[n] - 1
  }

  /** Lower layers first, and by name within a layer. */
  ghost predicate IsByLayer(order: seq<Name>, layer: map<Name, nat>) {
    && (forall i | 0 <= i < |order| :: order[i] in layer)
    && forall i, j | 0 <= i < j < |order| ::
         layer[order[i]] < layer[order[j]] || (layer[order[i]] == layer[order[j]] && order[i] < order[j])
  }

  /** One layer below the layers of the rest. */
  function Raised(ready: set<Name>, pending: set<Name>, layer: map<Name, nat>): map<Name, nat> {
    map n | n in pending :: if n in ready || n !in layer then 0 else layer[n] + 1
  }

  /** Above the first layer, some child lies one layer below. */
  lemma RaisedHasAChildBelow(keys: seq<ForeignKey>, pending: set<Name>, layer: map<Name, nat>, n: Name)
    returns (e: ForeignKey)
    requires AreLayers(keys, pending - ReadyNames(keys, pending), layer)
    requires n in pending && n !in ReadyNames(keys, pending)
    ensures e in keys && e.parent == n && e.child in pending
    ensures var all := Raised(ReadyNames(keys, pending), pending, layer); all[e.child] == all[n] - 1
  {
    var ready := ReadyNames(keys, pending);
    if layer[n] == 0 {
      assert !Ready(keys, pending, n);
      e :| e in keys && e.parent == n && e.child in pending;
      assert e.child in ready;
    } else {
      e :| e in keys && e.parent == n && e.child in pending - ready && layer[e.child] == layer[n] - 1;
    }
  }

  lemma RaisedAreLayers(keys: seq<ForeignKey>, pending: set<Name>, layer: map<Name, nat>)
    requires AreLayers(keys, pending - ReadyNames(keys, pending), layer)
    ensures AreLayers(keys, pending, Raised(ReadyNames(keys, pending), pending, layer))
  {
    var ready := ReadyNames(keys, pending);
    var all := Raised(ready, pending, layer);
    forall e | e in keys && e.parent in pending && e.child in pending ensures all[e.child] < all[e.parent] {
      Unreferenced(keys, pending, e.child, e.parent);
    }
    forall n | n in pending && all[n] > 0
      ensures exists e | e in keys :: e.parent == n && e.child in pending && all[e.child] == all[n] - 1
    {
      var e := RaisedHasAChildBelow(keys, pending, layer, n);
    }
  }

  /** The order is the one by layer and name: everything that can go goes at once, sorted. */
  lemma {:induction false} OrderIsByLayer(keys: seq<ForeignKey>, pending: set<Name>) returns (layer: map<Name, nat>)
    requires Layered(keys, pending).Ok?
    ensures AreLayers(keys, pending, layer) && IsByLayer(Layered(keys, pending).value, layer)
    decreases pending
  {
    if pending == {} {
      layer := map[];
    } else {
      var ready := ReadyNames(keys, pending);
      var rest := Layered(keys, pending - ready).value;
      var above := OrderIsByLayer(keys, pending - ready);
      RaisedAreLayers(keys, pending, above);
      layer := Raised(ready, pending, above);
      SortedThenRaised(ready, pending, rest, above);
    }
  }

  lemma SortedThenRaised(ready: set<Name>, pending: set<Name>, rest: seq<Name>, above: map<Name, nat>)
    requires ready <= pending && above.Keys == pending - ready && IsByLayer(rest, above)
    ensures IsByLayer(Sorted(ready) + rest, Raised(ready, pending, above))
  {
    var first, layer := Sorted(ready), Raised(ready, pending, above);
    forall i | 0 <= i < |first| ensures first[i] in layer && layer[first[i]] == 0 {
      assert first[i] in ready;
    }
    forall i | 0 <= i < |rest| ensures rest[i] in layer && layer[rest[i]] == above[rest[i]] + 1 {
      assert rest[i] in above;
    }
  }
}
