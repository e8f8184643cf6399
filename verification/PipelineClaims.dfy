/**
 Concurrent sweeps over failed pipeline runs: claim, re-check, triage, mark, release.

 There are two claim stores. The durable one takes a row by insert or by stealing an expired one, and
 deletes it only for its owner. The one kept in a process belongs to one runner: it gives a claim away at
 the very instant it expires, and its release does not ask whose claim it is.
 */
module PipelineClaims {

  datatype Store = Durable | InProcess

  /** One failed run of one pipeline. The claim is per pipeline, the processed mark per run. */
  datatype Failure = Failure(pipeline: nat, run: nat)

  datatype Lease = Lease(owner: nat, expires: nat)

  /** Claims of different stores, or different runners' stores, do not see each other. */
  datatype Key = Key(home: nat, pipeline: nat)

  /** A claim a sweep took: for which run, in which store, and until when. */
  datatype Held = Held(f: Failure, home: nat, until: nat)

  function KeyOf(h: Held): Key {
    Key(h.home, h.f.pipeline)
  }

  /** Every sweep takes its own claim token; `began` is when the triage began. */
  datatype Pc =
    | Idle
    | Claimed(h: Held)     // before the processed check
    | Checked(h: Held)     // not yet processed; source evidence being re-read
    | Triaging(h: Held, began: nat)
    | Leaving(h: Held)     // in `finally`, before the release
    | Gone

  /** `triaged` and `unfinished` list the triages begun and those that ended without a mark. */
  datatype World = World(
    store: Store, now: nat, claims: map<Key, Lease>, processed: set<Failure>, sweeps: map<nat, Pc>,
    triaged: seq<Failure>, unfinished: seq<Failure>)
  {
    function PcOf(p: nat): Pc { if p in sweeps then sweeps[p] else Idle }
  }

  datatype Step =
    | Claim(p: nat, home: nat, f: Failure, ttl: nat)
    | Check(p: nat)
    | Abandon(p: nat)                     // the evidence changed, or reading it failed
    | Triage(p: nat)
    | Mark(p: nat)
    | GiveUp(p: nat)                      // the triage raised, or its outcome is not durable
    | Release(p: nat)
    | Crash(p: nat)
    | Tick(seconds: nat)

  function Initial(store: Store, now: nat, processed: set<Failure>): World {
    World(store, now, map[], processed, map[], [], [])
  }

  /** The row may be stolen while `expires_at < now`; the entry of a process unless `expires > now`. */
  predicate Expired(store: Store, lease: Lease, now: nat) {
    match store
    case Durable => lease.expires < now
    case InProcess => lease.expires <= now
  }

  function ClaimTx(store: Store, claims: map<Key, Lease>, key: Key, owner: nat, now: nat, ttl: nat):
    (map<Key, Lease>, bool)
  {
    if key !in claims || Expired(store, claims[key], now) then (claims[key := Lease(owner, now + ttl)], true)
    else (claims, false)
  }

  /** DELETE ... WHERE claim_key = key AND owner = owner; in a process, a plain pop of the key. */
  function ReleaseTx(store: Store, claims: map<Key, Lease>, key: Key, owner: nat): map<Key, Lease> {
    if key in claims && (store.InProcess? || claims[key].owner == owner) then claims - {key} else claims
  }

  function At(w: World, p: nat, pc: Pc): World {
    w.(sweeps := w.sweeps[p := pc])
  }

  function Released(w: World, p: nat, h: Held): World {
    At(w.(claims := ReleaseTx(w.store, w.claims, KeyOf(h), p)), p, Gone)
  }

  /** On the way out. Within a process nothing comes between the end of the work and the release. */
  function Leave(w: World, p: nat, h: Held): World {
    if w.store.InProcess? then Released(w, p, h) else At(w, p, Leaving(h))
  }

  /** A sweep that dies leaves its row; within a process its `finally` still runs, or the store dies with it. */
  function Die(w: World, p: nat, h: Held): World {
    if w.store.InProcess? then Released(w, p, h) else At(w, p, Gone)
  }

  function Next(w: World, s: Step): World {
    match s
    case Tick(seconds) => w.(now := w.now + seconds)
    case Claim(p, home, f, ttl) =>
      if w.PcOf(p) != Idle then w
      else
        var (claims, won) := ClaimTx(w.store, w.claims, Key(home, f.pipeline), p, w.now, ttl);
        At(w.(claims := claims), p, if won then Claimed(Held(f, home, w.now + ttl)) else Gone)
    case Check(p) =>
      (match w.PcOf(p)
       case Claimed(h) => if h.f in w.processed then Leave(w, p, h) else At(w, p, Checked(h))
       case _ => w)
    case Abandon(p) =>
      (match w.PcOf(p)
       case Checked(h) => Leave(w, p, h)
       case _ => w)
    case Triage(p) =>
      (match w.PcOf(p)
       case Checked(h) => At(w.(triaged := w.triaged + [h.f]), p, Triaging(h, w.now))
       case _ => w)
    case Mark(p) =>
      (match w.PcOf(p)
       case Triaging(h, _) => Leave(w.(processed := w.processed + {h.f}), p, h)
       case _ => w)
    case GiveUp(p) =>
      (match w.PcOf(p)
       case Triaging(h, _) => Leave(w.(unfinished := w.unfinished + [h.f]), p, h)
       case _ => w)
    case Release(p) =>
      (match w.PcOf(p)
       case Leaving(h) => Released(w, p, h)
       case _ => w)
    case Crash(p) =>
      (match w.PcOf(p)
       case Triaging(h, _) => Die(w.(unfinished := w.unfinished + [h.f]), p, h)
       case Claimed(h) => Die(w, p, h)
       case Checked(h) => Die(w, p, h)
       case _ => At(w, p, Gone))
  }

  function Run(w: World, steps: seq<Step>): World {
    if steps == [] then w else Next(Run(w, steps[..|steps| - 1]), steps[|steps| - 1])
  }

  // ---- what a step decides --------------------------------------------------------------------

  /** Sweep p is on its way out and, within a process, gone with whatever claim its key holds. */
  ghost predicate IsOut(w: World, v: World, p: nat, h: Held) {
    if w.store == InProcess then
      v.sweeps == w.sweeps[p := Gone] && v.claims == w.claims - {Key(h.home, h.f.pipeline)}
    else v.sweeps == w.sweeps[p := Leaving(h)] && v.claims == w.claims
  }

  /** A claim is won exactly on a free or expired key, and then held until the lease ends. */
  lemma ClaimDecides(w: World, p: nat, home: nat, f: Failure, ttl: nat)
    requires p !in w.sweeps
    ensures var v, key := Next(w, Claim(p, home, f, ttl)), Key(home, f.pipeline);
      var won := key !in w.claims || w.claims[key].expires < w.now
                 || (w.store == InProcess && w.claims[key].expires == w.now);
      && v == w.(claims := v.claims, sweeps := v.sweeps)
      && v.claims == (if won then w.claims[key := Lease(p, w.now + ttl)] else w.claims)
      && v.sweeps == w.sweeps[p := if won then Claimed(Held(f, home, w.now + ttl)) else Gone]
  {
  }

  /** A claimed sweep goes on exactly with an unmarked run; a checked one gives up or begins its triage. */
  lemma ChecksDecide(w: World, p: nat)
    requires p in w.sweeps
    ensures var v := Next(w, Check(p));
      && (w.sweeps[p].Claimed? ==>
            && v == w.(claims := v.claims, sweeps := v.sweeps)
            && if w.sweeps[p].h.f in w.processed then IsOut(w, v, p, w.sweeps[p].h)
               else v.claims == w.claims && v.sweeps == w.sweeps[p := Checked(w.sweeps[p].h)])
      && (!w.sweeps[p].Claimed? ==> v == w)
    ensures w.sweeps[p].Checked? ==>
              && IsOut(w, Next(w, Abandon(p)), p, w.sweeps[p].h)
              && Next(w, Triage(p)) == w.(triaged := w.triaged + [w.sweeps[p].h.f],
                                          sweeps := w.sweeps[p := Triaging(w.sweeps[p].h, w.now)])
  {
  }

  /** A triage ends with its mark or without, and the sweep leaves; a release gives the claim of its owner back. */
  lemma EndsDecide(w: World, p: nat)
    requires p in w.sweeps
    ensures w.sweeps[p].Triaging? ==>
              var h, v, u := w.sweeps[p].h, Next(w, Mark(p)), Next(w, GiveUp(p));
              && IsOut(w, v, p, h) && v.processed == w.processed + {h.f} && v.unfinished == w.unfinished
              && IsOut(w, u, p, h) && u.processed == w.processed && u.unfinished == w.unfinished + [h.f]
              && v.triaged == w.triaged == u.triaged
    ensures w.sweeps[p].Leaving? ==>
              var key, v := Key(w.sweeps[p].h.home, w.sweeps[p].h.f.pipeline), Next(w, Release(p));
              && v == w.(claims := v.claims, sweeps := w.sweeps[p := Gone])
              && v.claims == if key in w.claims && (w.store == InProcess || w.claims[key].owner == p)
                             then w.claims - {key} else w.claims
  {
  }

  /** A death leaves a durable claim standing; within a process it gives the claim back. A triage cut short counts
      as unfinished, and nothing is ever marked by it. */
  lemma DeathDecides(w: World, p: nat)
    requires p in w.sweeps
    ensures var v := Next(w, Crash(p));
      && v.sweeps == w.sweeps[p := Gone] && v.processed == w.processed && v.triaged == w.triaged
      && v.unfinished == w.unfinished + (if w.sweeps[p].Triaging? then [w.sweeps[p].h.f] else [])
      && (w.store == Durable ==> v.claims == w.claims)
      && (w.store == InProcess && (w.sweeps[p].Claimed? || w.sweeps[p].Checked? || w.sweeps[p].Triaging?) ==>
            v.claims == w.claims - {Key(w.sweeps[p].h.home, w.sweeps[p].h.f.pipeline)})
  {
  }

  // ---- one sweep in program order ---------------------------------------------------------

  /** How the calls inside one sweep turn out. */
  datatype Outcomes = Outcomes(stillFailed: bool, raises: bool, durable: bool)

  predicate Marks(o: Outcomes) { o.stillFailed && !o.raises && o.durable }

  /** An uninterrupted sweep: what it leaves behind. */
  function SweepResult(w: World, p: nat, home: nat, f: Failure, ttl: nat, o: Outcomes): World {
    var key := Key(home, f.pipeline);
    var (claims, won) := ClaimTx(w.store, w.claims, key, p, w.now, ttl);
    var works := won && f !in w.processed && o.stillFailed;
    World(w.store, w.now,
          if won then claims - {key} else w.claims,
          if works && Marks(o) then w.processed + {f} else w.processed,
          w.sweeps[p := Gone],
          if works then w.triaged + [f] else w.triaged,
          if works && !Marks(o) then w.unfinished + [f] else w.unfinished)
  }

  class Sweeper {
    const store: Store
    var now: nat
    var claims: map<Key, Lease>
    var processed: set<Failure>
    var sweeps: map<nat, Pc>
    var triaged: seq<Failure>
    var unfinished: seq<Failure>

    function Value(): World
      reads this
    {
      World(store, now, claims, processed, sweeps, triaged, unfinished)
    }

    constructor (w: World)
      ensures Value() == w
    {
      store, now, claims, processed, sweeps := w.store, w.now, w.claims, w.processed, w.sweeps;
      triaged, unfinished := w.triaged, w.unfinished;
    }

    method TryClaim(key: Key, owner: nat, ttl: nat) returns (won: bool)
      modifies this`claims
      ensures (claims, won) == ClaimTx(store, old(claims), key, owner, now, ttl)
      ensures won <==> key !in old(claims) || old(claims)[key].expires < now
                       || (store.InProcess? && old(claims)[key].expires == now)
      ensures claims == if won then old(claims)[key := Lease(owner, now + ttl)] else old(claims)
    {
      if store == Durable {
        if key in claims && claims[key].expires >= now {
          return false;
        }
      } else {
        if key in claims && claims[key].expires > now {
          return false;
        }
      }
      claims := claims[key := Lease(owner, now + ttl)];
      return true;
    }

    method GiveBack(key: Key, owner: nat)
      modifies this`claims
      ensures claims == ReleaseTx(store, old(claims), key, owner)
      ensures forall k :: k in claims <==>
                k in old(claims) && !(k == key && (store.InProcess? || old(claims)[k].owner == owner))
      ensures forall k | k in claims :: claims[k] == old(claims)[k]
    {
      if key in claims && (store == InProcess || claims[key].owner == owner) {
        claims := claims - {key};
      }
    }

    /** The claim is released on every path after it was taken. */
    method RunPipelineFailure(p: nat, home: nat, f: Failure, ttl: nat, o: Outcomes)
      requires Value().PcOf(p) == Idle
      modifies this
      ensures Value() == SweepResult(old(Value()), p, home, f, ttl, o)
      ensures var key := Key(home, f.pipeline);
        var won := key !in old(claims) || old(claims)[key].expires < now
                   || (store == InProcess && old(claims)[key].expires == now);
        var works := won && f !in old(processed) && o.stillFailed;
        var marks := works && !o.raises && o.durable;
        && claims == (if won then old(claims) - {key} else old(claims)) && now == old(now)
        && processed == old(processed) + (if marks then {f} else {})
        && triaged == old(triaged) + (if works then [f] else [])
        && unfinished == old(unfinished) + (if works && !marks then [f] else [])
    {
      sweeps := sweeps[p := Gone];
      var won := TryClaim(Key(home, f.pipeline), p, ttl);
      if !won {
        return;
      }
      if f !in processed && o.stillFailed {
        triaged := triaged + [f];
        if !o.raises && o.durable {
          processed := processed + {f};
        } else {
          unfinished := unfinished + [f];
        }
      }
      GiveBack(Key(home, f.pipeline), p);
    }
  }

  /** Where the release is part of leaving, the last step has nothing left to do. */
  function SweepSteps(w: World, p: nat, home: nat, f: Failure, ttl: nat, o: Outcomes): seq<Step> {
    var start := [Claim(p, home, f, ttl)];
    if !ClaimTx(w.store, w.claims, Key(home, f.pipeline), p, w.now, ttl).1 then start
    else if f in w.processed then start + [Check(p)] + [Release(p)]
    else if !o.stillFailed then start + [Check(p)] + [Abandon(p)] + [Release(p)]
    else start + [Check(p)] + [Triage(p)] + [if Marks(o) then Mark(p) else GiveUp(p)] + [Release(p)]
  }

  lemma OneMore(w: World, steps: seq<Step>, v: World, s: Step)
    requires Run(w, steps) == v
    ensures Run(w, steps + [s]) == Next(v, s)
  {
    assert (steps + [s])[..|steps|] == steps;
  }

  /** `w` with sweep p at `pc`, whatever p did before. */
  function With(w: World, claims: map<Key, Lease>, p: nat, pc: Pc): World {
    w.(claims := claims, sweeps := w.sweeps[p := pc])
  }

  lemma MoveOn(w: World, claims: map<Key, Lease>, p: nat, pc: Pc, next: Pc)
    ensures At(With(w, claims, p, pc), p, next) == With(w, claims, p, next)
  {
    assert w.sweeps[p := pc][p := next] == w.sweeps[p := next];
  }

  /** Leaving and releasing end the same way in either store. */
  lemma LeaveAndRelease(w: World, claims: map<Key, Lease>, p: nat, h: Held, pc: Pc)
    requires KeyOf(h) in claims && claims[KeyOf(h)].owner == p
    ensures Next(Leave(With(w, claims, p, pc), p, h), Release(p)) == With(w, claims - {KeyOf(h)}, p, Gone)
  {
    MoveOn(w, claims, p, pc, Leaving(h));
    MoveOn(w, claims, p, pc, Gone);
    MoveOn(w, claims, p, Leaving(h), Gone);
    assert w.sweeps[p := pc][p := Gone] == w.sweeps[p := Gone];
    assert w.sweeps[p := Leaving(h)][p := Gone] == w.sweeps[p := Gone];
  }

  /** The program order of the source is one of the interleavings: nobody else moves. */
  lemma SweepIsItsSteps(w: World, p: nat, home: nat, f: Failure, ttl: nat, o: Outcomes)
    requires w.PcOf(p) == Idle
    ensures Run(w, SweepSteps(w, p, home, f, ttl, o)) == SweepResult(w, p, home, f, ttl, o)
  {
    var (claims, won) := ClaimTx(w.store, w.claims, Key(home, f.pipeline), p, w.now, ttl);
    var h := Held(f, home, w.now + ttl);
    var start := [Claim(p, home, f, ttl)];
    OneMore(w, [], w, Claim(p, home, f, ttl));
    assert [] + start == start;
    if won {
      var v := With(w, claims, p, Claimed(h));
      assert Run(w, start) == v;
      if f in w.processed {
        SweepStops(w, start, claims, p, h, Claimed(h), Check(p));
      } else {
        MoveOn(w, claims, p, Claimed(h), Checked(h));
        OneMore(w, start, v, Check(p));
        var u := With(w, claims, p, Checked(h));
        assert Run(w, start + [Check(p)]) == u;
        if !o.stillFailed {
          SweepStops(w, start + [Check(p)], claims, p, h, Checked(h), Abandon(p));
        } else {
          SweepWorks(w, start + [Check(p)], claims, p, h, o);
        }
      }
    }
  }

  lemma SweepStops(w: World, steps: seq<Step>, claims: map<Key, Lease>, p: nat, h: Held, pc: Pc, s: Step)
    requires Run(w, steps) == With(w, claims, p, pc) && KeyOf(h) in claims && claims[KeyOf(h)].owner == p
    requires Next(With(w, claims, p, pc), s) == Leave(With(w, claims, p, pc), p, h)
    ensures Run(w, steps + [s] + [Release(p)]) == With(w, claims - {KeyOf(h)}, p, Gone)
  {
    LeaveAndRelease(w, claims, p, h, pc);
    OneMore(w, steps, With(w, claims, p, pc), s);
    OneMore(w, steps + [s], Leave(With(w, claims, p, pc), p, h), Release(p));
  }

  lemma SweepWorks(w: World, steps: seq<Step>, claims: map<Key, Lease>, p: nat, h: Held, o: Outcomes)
    requires Run(w, steps) == With(w, claims, p, Checked(h))
    requires KeyOf(h) in claims && claims[KeyOf(h)].owner == p
    ensures Run(w, steps + [Triage(p)] + [if Marks(o) then Mark(p) else GiveUp(p)] + [Release(p)])
         == With(Ended(w.(triaged := w.triaged + [h.f]), h.f, o), claims - {KeyOf(h)}, p, Gone)
  {
    var last := if Marks(o) then Mark(p) else GiveUp(p);
    var begun, triaging := w.(triaged := w.triaged + [h.f]), Triaging(h, w.now);
    var ended := Ended(begun, h.f, o);
    TriageBegins(w, claims, p, h);
    TriageEnds(begun, claims, p, h, o);
    OneMore(w, steps, With(w, claims, p, Checked(h)), Triage(p));
    OneMore(w, steps + [Triage(p)], With(begun, claims, p, triaging), last);
    LeaveAndRelease(ended, claims, p, h, triaging);
    OneMore(w, steps + [Triage(p)] + [last], Leave(With(ended, claims, p, triaging), p, h), Release(p));
  }

  /** The run is marked, or its triage ended without a mark. */
  function Ended(w: World, f: Failure, o: Outcomes): World {
    if Marks(o) then w.(processed := w.processed + {f}) else w.(unfinished := w.unfinished + [f])
  }

  lemma TriageBegins(w: World, claims: map<Key, Lease>, p: nat, h: Held)
    ensures Next(With(w, claims, p, Checked(h)), Triage(p))
         == With(w.(triaged := w.triaged + [h.f]), claims, p, Triaging(h, w.now))
  {
    MoveOn(w, claims, p, Checked(h), Triaging(h, w.now));
  }

  lemma TriageEnds(w: World, claims: map<Key, Lease>, p: nat, h: Held, o: Outcomes)
    ensures var triaging := Triaging(h, w.now);
      Next(With(w, claims, p, triaging), if Marks(o) then Mark(p) else GiveUp(p))
      == Leave(With(Ended(w, h.f, o), claims, p, triaging), p, h)
  {
  }

  function Count(log: seq<Failure>, f: Failure): nat {
    if log == [] then 0
    else Count(log[..|log| - 1], f) + if log[|log| - 1] == f then 1 else 0
  }

  lemma CountAppend(log: seq<Failure>, g: Failure, f: Failure)
    ensures Count(log + [g], f) == Count(log, f) + if g == f then 1 else 0
  {
    assert (log + [g])[..|log|] == log;
  }
}
