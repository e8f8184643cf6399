/** What sweeps guarantee, and how long a lease has to be for it. */
module PipelineTheorems {
  import opened PipelineClaims

  // ---- sweeps that nobody overtakes --------------------------------------------------------------

  /** Between its claim and its mark, a sweep relies on nobody else working on the pipeline. */
  predicate Working(pc: Pc) {
    pc.Claimed? || pc.Checked? || pc.Triaging?
  }

  /** The step wins a claim of a pipeline that another sweep still works on, in whatever store. */
  ghost predicate Overtakes(w: World, s: Step) {
    && s.Claim? && w.PcOf(s.p) == Idle
    && ClaimTx(w.store, w.claims, Key(s.home, s.f.pipeline), s.p, w.now, s.ttl).1
    && exists q | q in w.sweeps :: Working(w.sweeps[q]) && w.sweeps[q].h.f.pipeline == s.f.pipeline
  }

  /** Nobody was overtaken. */
  ghost predicate Undisturbed(w: World, steps: seq<Step>) {
    steps == []
    || (Undisturbed(w, steps[..|steps| - 1]) && !Overtakes(Run(w, steps[..|steps| - 1]), steps[|steps| - 1]))
  }

  /** The triages of `f` in progress. */
  function InFlight(w: World, f: Failure): set<nat> {
    set p | p in w.sweeps && w.sweeps[p].Triaging? && w.sweeps[p].h.f == f
  }

  /** Two sweeps work on one pipeline. */
  ghost predicate Overlap(w: World) {
    exists p, q | p in w.sweeps && q in w.sweeps && p != q ::
      Working(w.sweeps[p]) && Working(w.sweeps[q]) && w.sweeps[p].h.f.pipeline == w.sweeps[q].h.f.pipeline
  }

  /** Every working sweep still has its claim; where leaving releases, nobody is left to release. */
  ghost predicate HoldsClaims(w: World) {
    && (w.store.InProcess? ==> forall p | p in w.sweeps :: !w.sweeps[p].Leaving?)
    && forall p | p in w.sweeps && Working(w.sweeps[p]) ::
      var h := w.sweeps[p].h;
      KeyOf(h) in w.claims && w.claims[KeyOf(h)] == Lease(p, h.until)
  }

  ghost predicate WorksOnFreshRuns(w: World) {
    forall p | p in w.sweeps && (w.sweeps[p].Checked? || w.sweeps[p].Triaging?) :: w.sweeps[p].h.f !in w.processed
  }

  /** Every triage of `f` since the start is in progress, ended unmarked, or is the one that marked it. */
  ghost predicate Conserved(w: World, f: Failure, before: bool) {
    Count(w.triaged, f) + (if before then 1 else 0)
      == Count(w.unfinished, f) + |InFlight(w, f)| + (if f in w.processed then 1 else 0)
  }

  ghost predicate Inv(w: World, marked: set<Failure>) {
    && !Overlap(w)
    && HoldsClaims(w)
    && WorksOnFreshRuns(w)
    && marked <= w.processed
    && forall f :: Conserved(w, f, f in marked)
  }

  lemma NextKeepsClaims(w: World, s: Step)
    requires HoldsClaims(w) && !Overtakes(w, s)
    ensures HoldsClaims(Next(w, s))
  {
  }

  lemma NextKeepsApart(w: World, s: Step)
    requires !Overlap(w) && !Overtakes(w, s)
    ensures !Overlap(Next(w, s))
  {
  }

  lemma NextKeepsFresh(w: World, s: Step)
    requires !Overlap(w) && WorksOnFreshRuns(w)
    ensures WorksOnFreshRuns(Next(w, s))
  {
  }

  lemma InFlightStep(w: World, s: Step, f: Failure)
    ensures InFlight(Next(w, s), f) ==
              if s.Triage? && w.PcOf(s.p).Checked? && w.PcOf(s.p).h.f == f then InFlight(w, f) + {s.p}
              else if (s.Mark? || s.GiveUp? || s.Crash?) then InFlight(w, f) - {s.p}
              else InFlight(w, f)
  {
  }

  // What a step does to the history of one run.

  lemma TriagedStep(w: World, s: Step, f: Failure)
    ensures Count(Next(w, s).triaged, f)
         == Count(w.triaged, f) + if s.Triage? && w.PcOf(s.p).Checked? && w.PcOf(s.p).h.f == f then 1 else 0
  {
    if s.Triage? && w.PcOf(s.p).Checked? {
      CountAppend(w.triaged, w.PcOf(s.p).h.f, f);
    }
  }

  /** The triage of `f` ends, with or without its mark. */
  predicate Ends(w: World, s: Step, f: Failure) {
    (s.Mark? || s.GiveUp? || s.Crash?) && w.PcOf(s.p).Triaging? && w.PcOf(s.p).h.f == f
  }

  lemma UnfinishedGrows(w: World, s: Step)
    ensures Next(w, s).unfinished == w.unfinished
              + if (s.GiveUp? || s.Crash?) && w.PcOf(s.p).Triaging? then [w.PcOf(s.p).h.f] else []
  {
  }

  lemma UnfinishedStep(w: World, s: Step, f: Failure)
    ensures Count(Next(w, s).unfinished, f)
         == Count(w.unfinished, f) + if Ends(w, s, f) && !s.Mark? then 1 else 0
  {
    UnfinishedGrows(w, s);
    if (s.GiveUp? || s.Crash?) && w.PcOf(s.p).Triaging? {
      CountAppend(w.unfinished, w.PcOf(s.p).h.f, f);
    }
  }

  lemma MarkedStep(w: World, s: Step, f: Failure)
    ensures f in Next(w, s).processed <==> f in w.processed || (Ends(w, s, f) && s.Mark?)
  {
  }

  lemma FlightStep(w: World, s: Step, f: Failure)
    ensures |InFlight(Next(w, s), f)| == |InFlight(w, f)|
              + (if s.Triage? && w.PcOf(s.p).Checked? && w.PcOf(s.p).h.f == f then 1 else 0)
              - (if Ends(w, s, f) then 1 else 0)
  {
    InFlightStep(w, s, f);
    if !s.Tick? {
      OneInOrOut(InFlight(w, f), s.p);
    }
  }

  lemma OneInOrOut(s: set<nat>, x: nat)
    ensures |s + {x}| == |s| + if x in s then 0 else 1
    ensures |s - {x}| == |s| - if x in s then 1 else 0
  {
    if x in s {
      assert s + {x} == s;
    } else {
      assert s - {x} == s;
    }
  }

  lemma NextConserves(w: World, s: Step, f: Failure, before: bool)
    requires WorksOnFreshRuns(w) && Conserved(w, f, before)
    ensures Conserved(Next(w, s), f, before)
  {
    TriagedStep(w, s, f);
    UnfinishedStep(w, s, f);
    MarkedStep(w, s, f);
    FlightStep(w, s, f);
  }

  lemma NextKeepsInv(w: World, s: Step, marked: set<Failure>)
    requires Inv(w, marked) && !Overtakes(w, s)
    ensures Inv(Next(w, s), marked)
  {
    NextKeepsApart(w, s);
    NextKeepsClaims(w, s);
    NextKeepsFresh(w, s);
    forall f ensures Conserved(Next(w, s), f, f in marked) && (f in w.processed ==> f in Next(w, s).processed) {
      NextConserves(w, s, f, f in marked);
      MarkedStep(w, s, f);
    }
  }

  lemma InitialInv(store: Store, now: nat, processed: set<Failure>)
    ensures Inv(Initial(store, now, processed), processed)
  {
    var w := Initial(store, now, processed);
    forall f ensures Conserved(w, f, f in processed) {
      assert InFlight(w, f) == {};
    }
  }

  lemma {:induction false} RunKeepsInv(store: Store, now: nat, processed: set<Failure>, steps: seq<Step>)
    requires Undisturbed(Initial(store, now, processed), steps)
    ensures Inv(Run(Initial(store, now, processed), steps), processed)
    decreases |steps|
  {
    if steps == [] {
      InitialInv(store, now, processed);
    } else {
      RunKeepsInv(store, now, processed, steps[..|steps| - 1]);
      NextKeepsInv(Run(Initial(store, now, processed), steps[..|steps| - 1]), steps[|steps| - 1], processed);
    }
  }

  // ---- theorems --------------------------------------------------------------------------------

  ghost predicate EverOverlaps(w: World, steps: seq<Step>) {
    Overlap(Run(w, steps)) || (steps != [] && EverOverlaps(w, steps[..|steps| - 1]))
  }

  /** Sweeps overlap on a pipeline exactly when one of them is overtaken. */
  lemma {:induction false} OneSweepPerPipeline(store: Store, now: nat, processed: set<Failure>, steps: seq<Step>)
    ensures Undisturbed(Initial(store, now, processed), steps) <==> !EverOverlaps(Initial(store, now, processed), steps)
    decreases |steps|
  {
    var w := Initial(store, now, processed);
    if Undisturbed(w, steps) {
      RunKeepsInv(store, now, processed, steps);
    }
    if steps != [] {
      OneSweepPerPipeline(store, now, processed, steps[..|steps| - 1]);
      var v, s := Run(w, steps[..|steps| - 1]), steps[|steps| - 1];
      if Overtakes(v, s) {
        OvertakingOverlaps(v, s);
      }
    }
  }

  lemma OvertakingOverlaps(v: World, s: Step)
    requires Overtakes(v, s)
    ensures Overlap(Next(v, s))
  {
    var q :| q in v.sweeps && Working(v.sweeps[q]) && v.sweeps[q].h.f.pipeline == s.f.pipeline;
    var u := Next(v, s);
    assert u.sweeps[q] == v.sweeps[q] && Working(u.sweeps[s.p]) && q != s.p;
  }

  /** The step begins the triage of a run that is marked. */
  predicate TriagesMarked(w: World, s: Step) {
    s.Triage? && w.PcOf(s.p).Checked? && w.PcOf(s.p).h.f in w.processed
  }

  ghost predicate EverTriagesMarked(w: World, steps: seq<Step>) {
    steps != []
    && (EverTriagesMarked(w, steps[..|steps| - 1])
        || TriagesMarked(Run(w, steps[..|steps| - 1]), steps[|steps| - 1]))
  }

  /** As long as no sweep is overtaken, no run is triaged once it is marked, whatever sweeps die. */
  lemma {:induction false} NeverTriagedAfterMark(store: Store, now: nat, processed: set<Failure>, steps: seq<Step>)
    requires Undisturbed(Initial(store, now, processed), steps)
    ensures WorksOnFreshRuns(Run(Initial(store, now, processed), steps))
    ensures !EverTriagesMarked(Initial(store, now, processed), steps)
    decreases |steps|
  {
    RunKeepsInv(store, now, processed, steps);
    if steps != [] {
      NeverTriagedAfterMark(store, now, processed, steps[..|steps| - 1]);
    }
  }

  lemma MarkedIsNotInFlight(w: World, f: Failure)
    requires WorksOnFreshRuns(w) && f in w.processed
    ensures InFlight(w, f) == {}
  {
    forall p ensures p !in InFlight(w, f) {
    }
  }

  lemma AtMostOneInFlight(w: World, f: Failure)
    requires !Overlap(w)
    ensures |InFlight(w, f)| <= 1
  {
    if InFlight(w, f) != {} {
      var p :| p in InFlight(w, f);
      forall q | q in InFlight(w, f) ensures q == p {
        assert Working(w.sweeps[p]) && Working(w.sweeps[q]);
      }
      assert InFlight(w, f) == {p};
    }
  }

  /** The exact account of repeats: each triage of a run beyond the first is paid for by one that
      ended without its mark, and two never overlap. */
  lemma TriagesAreAccounted(store: Store, now: nat, processed: set<Failure>, steps: seq<Step>, f: Failure)
    requires Undisturbed(Initial(store, now, processed), steps) && f !in processed
    ensures var w := Run(Initial(store, now, processed), steps);
            && Count(w.triaged, f)
               == Count(w.unfinished, f) + |InFlight(w, f)| + (if f in w.processed then 1 else 0)
            && |InFlight(w, f)| + (if f in w.processed then 1 else 0) <= 1
  {
    var w := Run(Initial(store, now, processed), steps);
    RunKeepsInv(store, now, processed, steps);
    assert Conserved(w, f, f in processed);
    AtMostOneInFlight(w, f);
    if f in w.processed { MarkedIsNotInFlight(w, f); }
  }

  /** With no death and no unmarked ending, every run is triaged at most once, marked ones never again. */
  lemma TriagedAtMostOnce(store: Store, now: nat, processed: set<Failure>, steps: seq<Step>, f: Failure)
    requires Undisturbed(Initial(store, now, processed), steps)
    requires Count(Run(Initial(store, now, processed), steps).unfinished, f) == 0
    ensures Count(Run(Initial(store, now, processed), steps).triaged, f) <= (if f in processed then 0 else 1)
  {
    if f !in processed {
      TriagesAreAccounted(store, now, processed, steps, f);
    } else {
      RunKeepsInv(store, now, processed, steps);
      var w := Run(Initial(store, now, processed), steps);
      assert Conserved(w, f, true);
      MarkedIsNotInFlight(w, f);
    }
  }

  // ---- how long a lease has to be --------------------------------------------------------------

  /** The lease, the longest time from a claim to its triage, and the longest from there to the mark. */
  datatype Times = Times(lease: nat, reading: nat, triaging: nat)

  /** No sweep has read or triaged for longer than it may. */
  ghost predicate Timely(w: World, t: Times) {
    forall p | p in w.sweeps && Working(w.sweeps[p]) ::
      var pc := w.sweeps[p];
      if pc.Triaging? then pc.began + t.lease <= pc.h.until + t.reading && w.now <= pc.began + t.triaging
      else w.now + t.lease <= pc.h.until + t.reading
  }

  /** Every claim is taken for the lease, and if the store is shared, in that store. */
  predicate Regular(s: Step, shared: bool, t: Times) {
    s.Claim? ==> s.ttl == t.lease && (shared ==> s.home == 0)
  }

  ghost predicate TimelyRun(w: World, steps: seq<Step>, shared: bool, t: Times) {
    && Timely(Run(w, steps), t)
    && (steps == [] || (TimelyRun(w, steps[..|steps| - 1], shared, t) && Regular(steps[|steps| - 1], shared, t)))
  }

  /** Sweeps that keep to these times never triage a marked run, however they interleave and die. */
  ghost predicate LeaseSuffices(store: Store, shared: bool, t: Times) {
    forall now, processed, steps | TimelyRun(Initial(store, now, processed), steps, shared, t) ::
      !EverTriagesMarked(Initial(store, now, processed), steps)
  }

  /** A durable claim lasts through its last instant, one in a process only up to it. */
  predicate Fits(store: Store, t: Times) {
    match store
    case Durable => t.reading + t.triaging <= t.lease
    case InProcess => t.reading + t.triaging < t.lease
  }

  /** Working sweeps claimed in the shared store. */
  ghost predicate AtHome(w: World) {
    forall p | p in w.sweeps && Working(w.sweeps[p]) :: w.sweeps[p].h.home == 0
  }

  lemma NextKeepsHome(w: World, s: Step)
    requires AtHome(w) && (s.Claim? ==> s.home == 0)
    ensures AtHome(Next(w, s))
  {
  }

  lemma TimelyIsNotOvertaken(w: World, s: Step, t: Times)
    requires HoldsClaims(w) && AtHome(w) && Timely(w, t) && Fits(w.store, t) && (s.Claim? ==> s.home == 0)
    ensures !Overtakes(w, s)
  {
  }

  lemma {:induction false} StoreStays(w: World, steps: seq<Step>)
    ensures Run(w, steps).store == w.store
  {
    if steps != [] {
      StoreStays(w, steps[..|steps| - 1]);
    }
  }

  lemma {:induction false} TimelyIsUndisturbed(
    store: Store, now: nat, processed: set<Failure>, steps: seq<Step>, t: Times)
    requires TimelyRun(Initial(store, now, processed), steps, true, t) && Fits(store, t)
    ensures Undisturbed(Initial(store, now, processed), steps) && AtHome(Run(Initial(store, now, processed), steps))
    decreases |steps|
  {
    if steps != [] {
      var w, init, s := Initial(store, now, processed), steps[..|steps| - 1], steps[|steps| - 1];
      TimelyIsUndisturbed(store, now, processed, init, t);
      RunKeepsInv(store, now, processed, init);
      StoreStays(w, init);
      TimelyIsNotOvertaken(Run(w, init), s, t);
      NextKeepsHome(Run(w, init), s);
    }
  }

  // ---- a sweep that is overtaken ------------------------------------------------------------------

  /** Sweep 0 claims at once, reads and triages for the given times, and is then overtaken in store `home`. */
  datatype Late = Late(store: Store, f: Failure, lease: nat, reading: nat, triaging: nat, home: nat) {
    function Mine(): Held { Held(f, 0, lease) }
    function Now(): nat { reading + triaging }
    function Theirs(): Held { Held(f, home, Now() + lease) }
    function Key0(): Key { Key(0, f.pipeline) }
    function First(): map<Key, Lease> { map[Key0() := Lease(0, lease)] }
    function Both(): map<Key, Lease> { First()[Key(home, f.pipeline) := Lease(1, Now() + lease)] }

    /** Sweep 0 alone. */
    function Alone(pc: Pc, now: nat): World {
      World(store, now, First(), {}, map[0 := pc], if pc.Triaging? then [f] else [], [])
    }

    /** Sweep 1 has claimed the pipeline too. */
    function Overtaken(pc: Pc): World {
      World(store, Now(), Both(), {}, map[0 := Triaging(Mine(), reading), 1 := pc], [f], [])
    }

    /** The other sweep's claim was won. */
    predicate Wins() {
      home != 0 || Expired(store, Lease(0, lease), Now())
    }
  }

  function LateStep(l: Late, k: nat): Step {
    match k
    case 0 => Claim(0, 0, l.f, l.lease)
    case 1 => Check(0)
    case 2 => Tick(l.reading)
    case 3 => Triage(0)
    case 4 => Tick(l.triaging)
    case 5 => Claim(1, l.home, l.f, l.lease)
    case 6 => Check(1)
    case 7 => Mark(0)
    case _ => Triage(1)
  }

  /** The state before the k-th of these steps. */
  function LateState(l: Late, k: nat): World {
    match k
    case 0 => Initial(l.store, 0, {})
    case 1 => l.Alone(Claimed(l.Mine()), 0)
    case 2 => l.Alone(Checked(l.Mine()), 0)
    case 3 => l.Alone(Checked(l.Mine()), l.reading)
    case 4 => l.Alone(Triaging(l.Mine(), l.reading), l.reading)
    case 5 => l.Alone(Triaging(l.Mine(), l.reading), l.Now())
    case 6 => l.Overtaken(Claimed(l.Theirs()))
    case 7 => l.Overtaken(Checked(l.Theirs()))
    case 8 => Next(l.Overtaken(Checked(l.Theirs())), Mark(0))
    case _ => Next(Next(l.Overtaken(Checked(l.Theirs())), Mark(0)), Triage(1))
  }

  lemma LateReads(l: Late)
    ensures Next(LateState(l, 0), LateStep(l, 0)) == LateState(l, 1)
    ensures Next(LateState(l, 1), LateStep(l, 1)) == LateState(l, 2)
    ensures Next(LateState(l, 2), LateStep(l, 2)) == LateState(l, 3)
  {
    assert map[][l.Key0() := Lease(0, l.lease)] == l.First();
    assert map[][0 := Claimed(l.Mine())] == map[0 := Claimed(l.Mine())];
    assert map[0 := Claimed(l.Mine())][0 := Checked(l.Mine())] == map[0 := Checked(l.Mine())];
  }

  lemma LateTriages(l: Late)
    ensures Next(LateState(l, 3), LateStep(l, 3)) == LateState(l, 4)
    ensures Next(LateState(l, 4), LateStep(l, 4)) == LateState(l, 5)
  {
    var triaging := Triaging(l.Mine(), l.reading);
    assert map[0 := Checked(l.Mine())][0 := triaging] == map[0 := triaging];
  }

  lemma LateIsOvertaken(l: Late)
    requires l.Wins()
    ensures Next(LateState(l, 5), LateStep(l, 5)) == LateState(l, 6)
    ensures Next(LateState(l, 6), LateStep(l, 6)) == LateState(l, 7)
  {
    var first, claimed, checked := Triaging(l.Mine(), l.reading), Claimed(l.Theirs()), Checked(l.Theirs());
    assert map[0 := first][1 := claimed] == map[0 := first, 1 := claimed];
    assert map[0 := first, 1 := claimed][1 := checked] == map[0 := first, 1 := checked];
  }

  lemma LateMarks(l: Late)
    ensures var v := LateState(l, 8);
      && v.now == l.Now() && l.f in v.processed && v.sweeps.Keys == {0, 1}
      && v.sweeps[1] == Checked(l.Theirs()) && (v.sweeps[0].Leaving? || v.sweeps[0].Gone?)
  {
  }

  lemma LateIsTimely(l: Late, t: Times, k: nat)
    requires l.lease == t.lease && l.reading <= t.reading && l.triaging <= t.triaging && k < 10
    ensures Timely(LateState(l, k), t)
  {
    if k >= 8 {
      LateMarks(l);
    }
  }

  lemma LateFollows(l: Late, k: nat)
    requires l.Wins() && k < 9
    ensures Next(LateState(l, k), LateStep(l, k)) == LateState(l, k + 1)
  {
    if k < 3 {
      LateReads(l);
    } else if k < 5 {
      LateTriages(l);
    } else if k < 7 {
      LateIsOvertaken(l);
    }
  }

  /** The k steps from the start. */
  lemma {:induction false} LateRuns(l: Late, shared: bool, t: Times, k: nat) returns (steps: seq<Step>)
    requires l.Wins() && l.lease == t.lease && l.reading <= t.reading && l.triaging <= t.triaging && k <= 9
    requires shared ==> l.home == 0
    ensures |steps| == k && (k > 0 ==> steps[k - 1] == LateStep(l, k - 1))
    ensures TimelyRun(LateState(l, 0), steps, shared, t) && Run(LateState(l, 0), steps) == LateState(l, k)
    ensures k == 9 ==> EverTriagesMarked(LateState(l, 0), steps)
  {
    if k == 0 {
      steps := [];
      LateIsTimely(l, t, 0);
    } else {
      var init := LateRuns(l, shared, t, k - 1);
      steps := init + [LateStep(l, k - 1)];
      assert steps[..k - 1] == init;
      LateFollows(l, k - 1);
      LateIsTimely(l, t, k);
      if k == 9 {
        LateMarks(l);
        assert TriagesMarked(LateState(l, 8), Triage(1));
      }
    }
  }

  /** When the times do not fit in the lease, or runners do not share a store, some timely schedule triages a
      marked run: a second sweep claims and checks, the first one marks, the second one triages. */
  lemma LateSweepTriagesAgain(store: Store, shared: bool, t: Times, f: Failure) returns (steps: seq<Step>)
    requires !shared || !Fits(store, t)
    ensures TimelyRun(Initial(store, 0, {}), steps, shared, t) && EverTriagesMarked(Initial(store, 0, {}), steps)
  {
    var l := Late(store, f, t.lease, t.reading, t.triaging, if shared then 0 else 1);
    steps := LateRuns(l, shared, t, 9);
  }

  /** An overtaken sweep that leaves gives away the claim of the one that overtook it exactly where the release
      does not ask whose claim it is: a third sweep gets in beside the second. */
  lemma OvertakenSweepLetsAThirdIn(l: Late, ttl: nat)
    requires l.Wins() && l.home == 0
    ensures Overtakes(LateState(l, 8), Claim(2, 0, l.f, ttl)) <==> l.store == InProcess
  {
    LateMarks(l);
    var v := LateState(l, 8);
    assert Working(v.sweeps[1]);
    assert v.claims == if l.store == InProcess then map[] else map[l.Key0() := Lease(1, l.Now() + l.lease)];
  }

  /** A lease is long enough exactly when all sweeps claim in one store and it covers the reads and the triage
      together: through its last instant in the durable store, with time left in a process. */
  lemma LeaseSufficesExactly(store: Store, shared: bool, t: Times)
    ensures LeaseSuffices(store, shared, t) <==> shared && Fits(store, t)
  {
    if shared && Fits(store, t) {
      forall now, processed, steps | TimelyRun(Initial(store, now, processed), steps, shared, t)
        ensures !EverTriagesMarked(Initial(store, now, processed), steps)
      {
        TimelyIsUndisturbed(store, now, processed, steps, t);
        NeverTriagedAfterMark(store, now, processed, steps);
      }
    } else {
      var steps := LateSweepTriagesAgain(store, shared, t, Failure(0, 0));
    }
  }

  /** The times of the source, in ticks of which a second has `second`: its lease adds 90 seconds to the two
      configured timeouts, its triage is cut off 30 seconds after them, and the rest is the reads before and
      the recording after the cut-off, up to the mark. */
  function SourceTimes(timeouts: nat, second: nat, reading: nat, recording: nat): Times {
    Times(timeouts + 90 * second, reading, timeouts + 30 * second + recording)
  }

  /** Reads and recording together may take 60 seconds with the durable store, and less than 60 in a process. */
  lemma SixtySecondsOfSlack(store: Store, timeouts: nat, second: nat, reading: nat, recording: nat)
    ensures LeaseSuffices(store, true, SourceTimes(timeouts, second, reading, recording)) <==>
              if store == Durable then reading + recording <= 60 * second else reading + recording < 60 * second
  {
    LeaseSufficesExactly(store, true, SourceTimes(timeouts, second, reading, recording));
  }
}
