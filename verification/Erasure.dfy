/** A caller that goes away unanswered might as well never have come. */
module Erasure {
  import opened Basics
  import opened Windows
  import opened Pools
  import opened RetryAfter
  import opened Pacing
  import opened Rendezvous
  import opened Dispatch
  import opened Gate

  // ---- Pools that differ only in expired hits ----

  /** The same lane, but for hits that have expired by `now`. */
  ghost predicate SameBudget(v: LaneView, v': LaneView, now: Instant) {
    v' == v.(hits := v'.hits) && Pruned(v'.hits, v.window, now) == Pruned(v.hits, v.window, now)
  }

  ghost predicate Alike(s: PoolView, s': PoolView, now: Instant) {
    |s'| == |s| && forall i :: 0 <= i < |s| ==> SameBudget(s[i], s'[i], now)
  }

  /** Such lanes have spent the same, now and at any later time. */
  lemma {:induction false} SameBudgetSpendsTheSame(v: LaneView, v': LaneView, now: Instant, t: Instant)
    requires SameBudget(v, v', now) && now <= t
    ensures Spent(v'.hits, v.window, t) == Spent(v.hits, v.window, t)
    ensures SameBudget(v, v', t)
  {
    PrunedDropsExpired(v.hits, v.window, now);
    PrunedDropsExpired(v'.hits, v.window, now);
    SpentAfterDrop(v.hits, Pruned(v.hits, v.window, now), v.window, now, t);
    SpentAfterDrop(v'.hits, Pruned(v'.hits, v.window, now), v.window, now, t);
    PrunedShrinks(v.hits, v.window, now, t);
    PrunedShrinks(v'.hits, v.window, now, t);
  }

  lemma {:induction false} AlikeLater(s: PoolView, s': PoolView, now: Instant, t: Instant)
    requires Alike(s, s', now) && now <= t
    ensures Alike(s, s', t)
  {
    forall i | 0 <= i < |s| ensures SameBudget(s[i], s'[i], t) {
      SameBudgetSpendsTheSame(s[i], s'[i], now, t);
    }
  }

  lemma {:induction false} AlikeOnwards(a: PoolView, b: PoolView, c: PoolView, now: Instant)
    requires Alike(a, b, now) && Alike(b, c, now)
    ensures Alike(a, c, now)
  {
    forall i | 0 <= i < |a| ensures SameBudget(a[i], c[i], now) {
      assert SameBudget(a[i], b[i], now) && SameBudget(b[i], c[i], now);
    }
  }

  /** A scan leaves an alike pool. */
  lemma {:induction false} ScanIsAlike(s: PoolView, q: Request, now: Instant)
    ensures Alike(s, ScanAll(s, q, now), now)
  {
    forall i | 0 <= i < |s| ensures SameBudget(s[i], ScanAll(s, q, now)[i], now) {
      PrunedTwice(s[i].hits, s[i].window, now);
    }
  }

  lemma {:induction false} AlikeReads(s: PoolView, s': PoolView, q: Request, weigh: Weigh, now: Instant)
    requires Alike(s, s', now)
    ensures ReadAll(s', q, now) == ReadAll(s, q, now) && Ids(s') == Ids(s)
    ensures BestLane(s', q, weigh, now) == BestLane(s, q, weigh, now)
    ensures AnyEligible(s', q) <==> AnyEligible(s, q)
  {
    forall i | 0 <= i < |s| ensures Read(s'[i], i, q, now) == Read(s[i], i, q, now) && s'[i].spec == s[i].spec {
      assert SameBudget(s[i], s'[i], now);
    }
  }

  lemma {:induction false} AlikeTaken(s: PoolView, s': PoolView, i: nat, now: Instant)
    requires Alike(s, s', now) && i < |s|
    ensures Alike(Taken(s, i, now), Taken(s', i, now), now)
  {
    forall j | 0 <= j < |s| ensures SameBudget(Taken(s, i, now)[j], Taken(s', i, now)[j], now) {
      assert SameBudget(s[j], s'[j], now);
    }
  }

  /** Alike pools answer a turn alike, and stay alike. */
  lemma {:induction false} AlikeTurn(s: PoolView, s': PoolView, q: Request, weigh: Weigh, now: Instant)
    requires Alike(s, s', now)
    ensures TurnOf(s', q, weigh, now).1 == TurnOf(s, q, weigh, now).1
    ensures Alike(TurnOf(s, q, weigh, now).0, TurnOf(s', q, weigh, now).0, now)
  {
    AlikeReads(s, s', q, weigh, now);
    AlikeScans(s, s', q, now);
    AlikeDecisions(ScanAll(s, q, now), ScanAll(s', q, now), BestLane(s, q, weigh, now), AnyEligible(s, q),
                   TallyOf(ReadAll(s, q, now), |s|).soonest, now);
  }

  lemma {:induction false} AlikeDecisions(a: PoolView, a': PoolView, best: Option<nat>, eligible: bool,
                                          soonest: Option<Instant>, now: Instant)
    requires Alike(a, a', now) && (best.Some? ==> best.value < |a|)
    ensures Decided(a', best, eligible, soonest, now).1 == Decided(a, best, eligible, soonest, now).1
    ensures Alike(Decided(a, best, eligible, soonest, now).0, Decided(a', best, eligible, soonest, now).0, now)
  {
    if best.Some? {
      assert SameBudget(a[best.value], a'[best.value], now);
      AlikeTaken(a, a', best.value, now);
    }
  }

  lemma {:induction false} AlikeScans(s: PoolView, s': PoolView, q: Request, now: Instant)
    requires Alike(s, s', now)
    ensures Alike(ScanAll(s, q, now), ScanAll(s', q, now), now)
  {
    forall i | 0 <= i < |s| ensures SameBudget(ScanAll(s, q, now)[i], ScanAll(s', q, now)[i], now) {
      assert SameBudget(s[i], s'[i], now);
    }
  }

  lemma {:induction false} AlikeBenched(s: PoolView, s': PoolView, lane: nat, until: Instant, now: Instant)
    requires Alike(s, s', now)
    ensures Alike(Benched(s, lane, until), Benched(s', lane, until), now)
  {
    forall i | 0 <= i < |s| ensures SameBudget(Benched(s, lane, until)[i], Benched(s', lane, until)[i], now) {
      assert SameBudget(s[i], s'[i], now);
    }
  }

  /** For one window throughout, as every pool of one place has. */
  ghost predicate OneWindow(s: PoolView, window: nat) {
    forall i :: 0 <= i < |s| ==> s[i].window == window
  }

  lemma {:induction false} AlikeRebuilt(s: PoolView, s': PoolView, specs: seq<LaneSpec>, window: nat, now: Instant)
    requires Alike(s, s', now) && OneWindow(s, window)
    ensures Alike(Rebuilt(s, specs, window), Rebuilt(s', specs, window), now)
  {
    forall i | 0 <= i < |specs|
      ensures SameBudget(Successor(s, specs[i], window), Successor(s', specs[i], window), now)
    {
      AlikeSuccessor(s, s', specs[i], window, now);
    }
  }

  lemma {:induction false} AlikeSuccessor(s: PoolView, s': PoolView, spec: LaneSpec, window: nat, now: Instant)
    requires Alike(s, s', now) && OneWindow(s, window)
    ensures SameBudget(Successor(s, spec, window), Successor(s', spec, window), now)
  {
    forall j | 0 <= j < |s| ensures s'[j].Id() == s[j].Id() {
      assert SameBudget(s[j], s'[j], now);
    }
    SameIndex(s, s', spec.Id());
    var found := FindLane(s, spec.Id());
    if found.Some? {
      assert SameBudget(s[found.value], s'[found.value], now);
    }
  }

  lemma {:induction false} WindowStays(place: Place, steps: seq<Step>)
    requires Playable(place, steps)
    ensures OneWindow(After(place, steps).pool, place.window)
  {
    StepsMakeARun(place, steps);
    WindowIsThePlaces(place, steps);
    var r := RunOf(place, steps);
    StatesAreOrderly(r, |r.events|);
    var pool := After(place, steps).pool;
    forall i | 0 <= i < |pool| ensures pool[i].window == place.window {
      assert OrderlyLane(pool[i], r.window, r.Clock(|r.events|));
    }
  }

  // ---- The same steps without one caller ----

  predicate About(step: Step, name: nat) {
    match step
    case Arrive(c) => c.name == name
    case Enter(n) => n == name
    case Turn(n) => n == name
    case Drop(n) => n == name
    case _ => false
  }

  function Erased(steps: seq<Step>, name: nat): seq<Step> {
    if steps == [] then []
    else
      var n := |steps| - 1;
      Erased(steps[..n], name) + if About(steps[n], name) then [] else [steps[n]]
  }

  ghost predicate Unanswered(g: Gate, name: nat) {
    forall k :: 0 <= k < |g.answered| ==> g.answered[k].name != name
  }

  function Other(holder: Option<Caller>, name: nat): Option<Caller> {
    if holder.Some? && holder.value.name == name then None else holder
  }

  /** `e` is `g` without the caller. */
  ghost predicate Matches(e: Gate, g: Gate, name: nat) {
    && e.queue == Without(g.queue, name)
    && e.holder == Other(g.holder, name)
    && e.now == g.now && Alike(e.pool, g.pool, g.now)
    && e.arrived == Less(g.arrived, {name})
    && e.answered == g.answered
    && e.dropped == g.dropped - {name}
  }

  /** NOTHING IS SPENT BY GOING AWAY. Take any steps in which a caller is never answered, dropped
      wherever it was; leave out everything it did. The rest can still happen, everyone else gets
      the same answers at the same times, and every lane has spent the same at every later time. */
  lemma {:induction false} LeavingCostsNothing(place: Place, steps: seq<Step>, name: nat, t: Instant)
    requires Playable(place, steps) && Unanswered(After(place, steps), name) && After(place, steps).now <= t
    ensures Playable(place, Erased(steps, name))
    ensures var e, g := After(place, Erased(steps, name)), After(place, steps);
      && e.answered == g.answered
      && |e.pool| == |g.pool|
      && forall i :: 0 <= i < |g.pool| ==>
           && e.pool[i].spec == g.pool[i].spec && e.pool[i].cooldown == g.pool[i].cooldown
           && Spent(e.pool[i].hits, place.window, t) == Spent(g.pool[i].hits, place.window, t)
  {
    ErasedMatches(place, steps, name);
    var e, g := After(place, Erased(steps, name)), After(place, steps);
    WindowStays(place, Erased(steps, name));
    forall i | 0 <= i < |g.pool|
      ensures e.pool[i].spec == g.pool[i].spec && e.pool[i].cooldown == g.pool[i].cooldown
      ensures Spent(e.pool[i].hits, place.window, t) == Spent(g.pool[i].hits, place.window, t)
    {
      SameBudgetSpendsTheSame(e.pool[i], g.pool[i], g.now, t);
    }
  }

  lemma {:induction false} ErasedMatches(place: Place, steps: seq<Step>, name: nat)
    requires Playable(place, steps) && Unanswered(After(place, steps), name)
    ensures Playable(place, Erased(steps, name))
    ensures Matches(After(place, Erased(steps, name)), After(place, steps), name)
  {
    if steps == [] {
      StartMatches(place, name);
    } else {
      var n := |steps| - 1;
      var g, step, e := After(place, steps[..n]), steps[n], Erased(steps[..n], name);
      AnswersOnlyGrow(g, place, step, name);
      ErasedMatches(place, steps[..n], name);
      if About(step, name) {
        assert e + [] == e;
        SkippedStepMatches(After(place, e), g, place, step, name);
      } else {
        WindowStays(place, e);
        OtherStepMatches(After(place, e), g, place, step, name);
        assert (e + [step])[..|e|] == e;
      }
    }
  }

  lemma {:induction false} StartMatches(place: Place, name: nat)
    ensures Matches(Open(place), Open(place), name)
  {
  }

  lemma {:induction false} AnswersOnlyGrow(g: Gate, place: Place, step: Step, name: nat)
    requires Enabled(g, step) && Unanswered(Next(g, place, step), name)
    ensures Unanswered(g, name)
  {
    var g' := Next(g, place, step);
    assert g.answered <= g'.answered;
    forall k | 0 <= k < |g.answered| ensures g.answered[k].name != name {
      assert g'.answered[k] == g.answered[k];
    }
  }

  lemma {:induction false} SkippedStepMatches(e: Gate, g: Gate, place: Place, step: Step, name: nat)
    requires Matches(e, g, name) && About(step, name) && Enabled(g, step) && Unanswered(Next(g, place, step), name)
    ensures Matches(e, Next(g, place, step), name)
  {
    match step
    case Arrive(c) => SkippedArrival(e, g, place, c);
    case Enter(_) => SkippedEntry(e, g, place, name);
    case Turn(_) => SkippedTurn(e, g, place, name);
    case Drop(_) => SkippedDrop(e, g, name);
    case _ =>
  }

  lemma {:induction false} SkippedArrival(e: Gate, g: Gate, place: Place, c: Caller)
    requires Matches(e, g, c.name) && Enabled(g, Arrive(c))
    ensures Matches(e, Next(g, place, Arrive(c)), c.name)
  {
    WithoutOneMore(g.queue, c, c.name);
    LessConcat(g.arrived, [c.name], {c.name});
    assert Less([c.name], {c.name}) == [] by { assert [c.name][..0] == []; }
  }

  lemma {:induction false} SkippedEntry(e: Gate, g: Gate, place: Place, name: nat)
    requires Matches(e, g, name) && Enabled(g, Enter(name))
    ensures Matches(e, Next(g, place, Enter(name)), name)
  {
    WithoutHead(g.queue, name);
  }

  lemma {:induction false} SkippedDrop(e: Gate, g: Gate, name: nat)
    requires Matches(e, g, name) && Enabled(g, Drop(name))
    ensures Matches(e, DropNext(g, name), name)
  {
    WithoutTwice(g.queue, name);
    assert (g.dropped + {name}) - {name} == g.dropped - {name};
  }

  lemma {:induction false} SkippedTurn(e: Gate, g: Gate, place: Place, name: nat)
    requires Matches(e, g, name) && Enabled(g, Turn(name)) && Unanswered(Next(g, place, Turn(name)), name)
    ensures Matches(e, Next(g, place, Turn(name)), name)
  {
    var q, g' := g.holder.value.q, Next(g, place, Turn(name));
    if TurnOf(g.pool, q, place.weigh, g.now).1.Answer? {
      AnswerIsRecorded(g, place, name);
    } else {
      ScanIsAlike(g.pool, q, g.now);
      AlikeOnwards(e.pool, g.pool, ScanAll(g.pool, q, g.now), g.now);
    }
  }

  lemma {:induction false} AnswerIsRecorded(g: Gate, place: Place, name: nat)
    requires Enabled(g, Turn(name)) && TurnOf(g.pool, g.holder.value.q, place.weigh, g.now).1.Answer?
    ensures !Unanswered(Next(g, place, Turn(name)), name)
  {
    var g' := Next(g, place, Turn(name));
    assert g'.answered[|g.answered|].name == name;
  }

  lemma {:induction false} OtherStepMatches(e: Gate, g: Gate, place: Place, step: Step, name: nat)
    requires Matches(e, g, name) && !About(step, name) && Enabled(g, step) && OneWindow(e.pool, place.window)
    ensures Enabled(e, step) && Matches(Next(e, place, step), Next(g, place, step), name)
  {
    match step
    case Arrive(c) => OtherArrives(e, g, place, c, name);
    case Enter(other) => OtherEnters(e, g, place, other, name);
    case Turn(other) => OtherTurns(e, g, place, other, name);
    case Drop(other) => OtherDrops(e, g, other, name);
    case _ => OtherwiseMatches(e, g, place, step, name);
  }

  lemma {:induction false} OtherwiseMatches(e: Gate, g: Gate, place: Place, step: Step, name: nat)
    requires Matches(e, g, name) && (step.Tick? || step.Bench? || step.Swap?)
    requires Enabled(g, step) && OneWindow(e.pool, place.window)
    ensures Enabled(e, step) && Matches(Next(e, place, step), Next(g, place, step), name)
  {
    match step
    case Tick(elapsed) => AlikeLater(e.pool, g.pool, g.now, g.now + elapsed);
    case Bench(lane, header) => AlikeBenched(e.pool, g.pool, lane, g.now + BenchSpan(header), g.now);
    case Swap(specs) => AlikeRebuilt(e.pool, g.pool, specs, place.window, g.now);
  }

  lemma {:induction false} OtherTurns(e: Gate, g: Gate, place: Place, other: nat, name: nat)
    requires Matches(e, g, name) && other != name && Enabled(g, Turn(other))
    ensures Enabled(e, Turn(other)) && Matches(TurnNext(e, place), TurnNext(g, place), name)
  {
    AlikeTurn(e.pool, g.pool, g.holder.value.q, place.weigh, g.now);
  }

  lemma {:induction false} OtherArrives(e: Gate, g: Gate, place: Place, c: Caller, name: nat)
    requires Matches(e, g, name) && c.name != name && Enabled(g, Arrive(c))
    ensures Enabled(e, Arrive(c)) && Matches(Next(e, place, Arrive(c)), Next(g, place, Arrive(c)), name)
  {
    var g' := Next(g, place, Arrive(c));
    assert g'.queue[..|g.queue|] == g.queue && g'.arrived[..|g.arrived|] == g.arrived;
  }

  lemma {:induction false} OtherEnters(e: Gate, g: Gate, place: Place, other: nat, name: nat)
    requires Matches(e, g, name) && other != name && Enabled(g, Enter(other))
    ensures Enabled(e, Enter(other)) && Matches(Next(e, place, Enter(other)), Next(g, place, Enter(other)), name)
  {
    WithoutHead(g.queue, name);
  }

  lemma {:induction false} OtherDrops(e: Gate, g: Gate, other: nat, name: nat)
    requires Matches(e, g, name) && other != name && Enabled(g, Drop(other))
    ensures Enabled(e, Drop(other)) && Matches(DropNext(e, other), DropNext(g, other), name)
  {
    assert (g.dropped - {name}) + {other} == (g.dropped + {other}) - {name};
    if AtGate(g.holder) == [other] {
      assert e.holder == g.holder;
    } else {
      assert other in Names(e.queue) by { NamesWithout(g.queue, name); }
      WithoutBoth(g.queue, name, other);
    }
  }

  /** Whoever leads the queue leads what is left of it, or was the one left out. */
  lemma {:induction false} WithoutHead(queue: seq<Caller>, name: nat)
    requires queue != []
    ensures queue[0].name == name ==> Without(queue, name) == Without(queue[1..], name)
    ensures queue[0].name != name ==> Without(queue, name) == [queue[0]] + Without(queue[1..], name)
  {
    var n := |queue| - 1;
    if n == 0 {
      assert queue[..0] == [] && queue[1..] == [];
    } else {
      WithoutHead(queue[..n], name);
      assert queue[..n][1..] == queue[1..][..n - 1];
    }
  }

  lemma {:induction false} WithoutBoth(queue: seq<Caller>, a: nat, b: nat)
    ensures Without(Without(queue, a), b) == Without(Without(queue, b), a)
  {
    if queue != [] {
      var n := |queue| - 1;
      var c, x, y := queue[n], Without(queue[..n], a), Without(queue[..n], b);
      WithoutBoth(queue[..n], a, b);
      assert Without(Without(queue, a), b) == Without(x, b) + if c.name == a || c.name == b then [] else [c] by {
        WithoutOneMore(x, c, b);
      }
      assert Without(Without(queue, b), a) == Without(y, a) + if c.name == a || c.name == b then [] else [c] by {
        WithoutOneMore(y, c, a);
      }
    }
  }

  lemma {:induction false} WithoutTwice(queue: seq<Caller>, name: nat)
    ensures Without(Without(queue, name), name) == Without(queue, name)
  {
    if queue != [] {
      var n := |queue| - 1;
      WithoutTwice(queue[..n], name);
      WithoutOneMore(Without(queue[..n], name), queue[n], name);
    }
  }

  lemma {:induction false} WithoutOneMore(queue: seq<Caller>, c: Caller, name: nat)
    ensures Without(queue + [c], name) == Without(queue, name) + if c.name == name then [] else [c]
    ensures queue + [] == queue && Without(queue, name) + [] == Without(queue, name)
  {
    assert (queue + [c])[..|queue|] == queue;
  }
}
