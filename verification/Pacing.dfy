/** Whole runs of the live pool: grants, benches, rebuild-and-swaps and fresh starts in any
    interleaving. */
module Pacing {
  import opened Basics
  import opened Windows
  import opened Pools
  import opened RetryAfter

  /** `Acquire` is one call of the dispatcher, placed at the moment it answers; its scan may
      prune any lane. `Bench` puts a lane out of rotation at `now`, for the time its answer's
      `Retry-After` header asks. `Rebuild` swaps in a rebuilt pool, `Renew` a new one, as the
      first claim and every process start do. */
  datatype Event =
    | Acquire(now: Instant, granted: Option<nat>)
    | Bench(now: Instant, lane: nat, header: Option<string>)
    | Rebuild(specs: seq<LaneSpec>)
    | Renew(specs: seq<LaneSpec>)
  {
    predicate Timed() {
      Acquire? || Bench?
    }

    function Until(): Instant
      requires Bench?
    {
      now + BenchSpan(header)
    }
  }

  /** What an answered acquire does to one lane: it records the grant, or at most forgets. */
  ghost predicate LaneStep(v: LaneView, v': LaneView, now: Instant, granted: bool) {
    if granted
    then v.HasRoom(now) && v' == v.(hits := Pruned(v.hits, v.window, now) + [now])
    else v.OnlyForgot(v', now)
  }

  ghost predicate AcquireStep(s: PoolView, s': PoolView, now: Instant, granted: Option<nat>) {
    && |s'| == |s|
    && (granted.Some? ==> granted.value < |s|)
    && forall i :: 0 <= i < |s| ==> LaneStep(s[i], s'[i], now, granted == Some(i))
  }

  ghost predicate BenchStep(s: PoolView, s': PoolView, lane: nat, until: Instant) {
    s' == if lane < |s| then s[lane := s[lane].(cooldown := Later(s[lane].cooldown, until))] else s
  }

  ghost predicate Step(window: nat, s: PoolView, e: Event, s': PoolView) {
    match e
    case Acquire(now, granted) => AcquireStep(s, s', now, granted)
    case Bench(_, lane, _) => BenchStep(s, s', lane, e.Until())
    case Rebuild(specs) => LiveSpecs(specs) && s' == Rebuilt(s, specs, window)
    case Renew(specs) => LiveSpecs(specs) && s' == Rebuilt([], specs, window)
  }

  datatype Run = Run(window: nat, states: seq<PoolView>, events: seq<Event>)
  {
    /** A pool of fresh lanes, one per identity, then one step per event, on a clock that
        never runs backwards. */
    ghost predicate Valid() {
      && |states| == |events| + 1
      && LiveSpecs(Specs(states[0]))
      && (forall i: nat :: i < |states[0]| ==> StartsFresh(i))
      && (forall k :: 0 <= k < |events| ==> Follows(k))
      && (forall i: nat, j: nat :: i < j < |events| ==> InOrder(i, j))
    }

    ghost predicate StartsFresh(i: nat) {
      |states| > 0 && i < |states[0]| && states[0][i] == FreshLane(states[0][i].spec, window)
    }

    ghost predicate InOrder(i: nat, j: nat) {
      i < |events| && j < |events| && (events[i].Timed() && events[j].Timed() ==> events[i].now <= events[j].now)
    }

    ghost predicate Follows(k: nat) {
      k < |events| && k + 1 < |states| && Step(window, states[k], events[k], states[k + 1])
    }

    /** The time of the last answer or bench among the first `k` events. */
    ghost function Clock(k: nat): Instant
      requires k <= |events|
    {
      if k == 0 then 0
      else if events[k - 1].Timed() then events[k - 1].now
      else Clock(k - 1)
    }

    /** Event `k` is a grant on the key `id`. */
    ghost predicate Grants(id: LaneId, k: nat) {
      && k < |events| && k < |states|
      && events[k].Acquire?
      && events[k].granted.Some?
      && events[k].granted.value < |states[k]|
      && states[k][events[k].granted.value].Id() == id
    }

    /** The times of the grants on `id` among events [from, end). */
    ghost function GrantLog(id: LaneId, from: nat, end: nat): seq<Instant>
      requires from <= end <= |events|
      decreases end
    {
      if from == end then []
      else GrantLog(id, from, end - 1) + if Grants(id, end - 1) then [events[end - 1].now] else []
    }

    /** `id` has a lane in every state from `from` through `end`, and no fresh start between. */
    ghost predicate Kept(id: LaneId, from: nat, end: nat) {
      && from <= end <= |events|
      && (forall k :: from <= k <= end ==> Has(id, k))
      && (forall k :: from <= k < end ==> !Renewed(k))
    }

    ghost predicate Has(id: LaneId, k: nat) {
      k < |states| && FindLane(states[k], id).Some?
    }

    ghost predicate Renewed(k: nat) {
      k < |events| && events[k].Renew?
    }

    ghost function LaneAt(id: LaneId, k: nat): LaneView
      requires Has(id, k)
    {
      states[k][FindLane(states[k], id).value]
    }
  }

  lemma {:induction false} ClockAdvances(r: Run, i: nat, j: nat)
    requires r.Valid() && i <= j <= |r.events|
    ensures r.Clock(i) <= r.Clock(j)
    ensures j < |r.events| && r.events[j].Timed() ==> r.Clock(j) <= r.events[j].now
    decreases j
  {
    if j < |r.events| && r.events[j].Timed() {
      ClockIsPast(r, j, j);
    }
    if i < j {
      ClockAdvances(r, i, j - 1);
    }
  }

  lemma {:induction false} ClockIsPast(r: Run, k: nat, m: nat)
    requires r.Valid() && k <= m < |r.events| && r.events[m].Timed()
    ensures r.Clock(k) <= r.events[m].now
  {
    if k > 0 {
      assert r.InOrder(k - 1, m);
      ClockIsPast(r, k - 1, m);
    }
  }

  predicate RestsAtMost(v: LaneView, until: Instant) {
    v.cooldown.Some? ==> v.cooldown.value <= until
  }

  /** A lane's hits are in time order and no later than `clock`, and no cooldown reaches more
      than the longest bench past it. */
  ghost predicate OrderlyLane(v: LaneView, window: nat, clock: Instant) {
    && v.window == window && v.spec.rpm > 0
    && Sorted(v.hits) && AllAtMost(v.hits, clock)
    && RestsAtMost(v, clock + LONGEST_BENCH)
  }

  ghost predicate Orderly(s: PoolView, window: nat, clock: Instant) {
    forall i :: 0 <= i < |s| ==> OrderlyLane(s[i], window, clock)
  }

  lemma {:induction false} LaneKeepsOrder(v: LaneView, v': LaneView, now: Instant, granted: bool, window: nat,
                                          clock: Instant)
    requires LaneStep(v, v', now, granted) && OrderlyLane(v, window, clock) && clock <= now
    ensures OrderlyLane(v', window, now) && v'.spec == v.spec
  {
    if granted {
      HitKeepsOrder(v.hits, window, clock, now);
    } else {
      SuffixKeepsOrder(v.hits, v'.hits, clock);
    }
  }

  lemma {:induction false} HitKeepsOrder(hits: seq<Instant>, window: nat, clock: Instant, now: Instant)
    requires Sorted(hits) && AllAtMost(hits, clock) && clock <= now
    ensures Sorted(Pruned(hits, window, now) + [now]) && AllAtMost(Pruned(hits, window, now) + [now], now)
  {
    var kept := Pruned(hits, window, now);
    PrunedDropsExpired(hits, window, now);
    SuffixKeepsOrder(hits, kept, clock);
    LatestKeepsOrder(kept, now);
  }

  lemma {:induction false} LatestKeepsOrder(hits: seq<Instant>, now: Instant)
    requires Sorted(hits) && AllAtMost(hits, now)
    ensures Sorted(hits + [now]) && AllAtMost(hits + [now], now)
  {
  }

  lemma {:induction false} SuffixKeepsOrder(hits: seq<Instant>, kept: seq<Instant>, clock: Instant)
    requires Sorted(hits) && AllAtMost(hits, clock)
    requires |kept| <= |hits| && kept == hits[|hits| - |kept|..]
    ensures Sorted(kept) && AllAtMost(kept, clock)
  {
    var gone := |hits| - |kept|;
    forall i | 0 <= i < |kept| ensures kept[i] == hits[gone + i] {
    }
  }

  lemma {:induction false} AcquireKeepsOrder(s: PoolView, s': PoolView, now: Instant, granted: Option<nat>,
                                             window: nat, clock: Instant)
    requires AcquireStep(s, s', now, granted) && Orderly(s, window, clock) && clock <= now
    ensures Orderly(s', window, now)
    ensures Specs(s') == Specs(s)
  {
    forall i | 0 <= i < |s| ensures OrderlyLane(s'[i], window, now) && s'[i].spec == s[i].spec {
      LaneKeepsOrder(s[i], s'[i], now, granted == Some(i), window, clock);
    }
  }

  /** In every reachable state identities are unique and every lane is orderly. */
  lemma {:induction false} StatesAreOrderly(r: Run, k: nat)
    requires r.Valid() && k <= |r.events|
    ensures UniqueIds(Specs(r.states[k]))
    ensures Orderly(r.states[k], r.window, r.Clock(k))
  {
    if k > 0 {
      StatesAreOrderly(r, k - 1);
      ClockAdvances(r, k - 1, k);
      var s, e, s' := r.states[k - 1], r.events[k - 1], r.states[k];
      assert r.Follows(k - 1);
      StepKeepsOrder(r.window, s, e, s', r.Clock(k - 1), r.Clock(k));
    } else {
      var first := r.states[0];
      forall i: nat | i < |first| ensures OrderlyLane(first[i], r.window, 0) {
        assert r.StartsFresh(i) && first[i].spec == Specs(first)[i];
      }
    }
  }

  lemma {:induction false} StepKeepsOrder(window: nat, s: PoolView, e: Event, s': PoolView, clock: Instant,
                                          clock': Instant)
    requires Step(window, s, e, s') && UniqueIds(Specs(s)) && Orderly(s, window, clock) && clock <= clock'
    requires e.Timed() ==> e.now == clock'
    ensures UniqueIds(Specs(s')) && Orderly(s', window, clock')
  {
    match e
    case Acquire(now, granted) => AcquireKeepsOrder(s, s', now, granted, window, clock);
    case Bench(_, lane, _) => BenchKeepsOrder(s, s', lane, e.Until(), window, clock, clock');
    case Rebuild(specs) =>
      forall i | 0 <= i < |s'| ensures OrderlyLane(s'[i], window, clock') {
        SuccessorIsOrderly(s, specs[i], window, clock, clock');
      }
    case Renew(specs) =>
      forall i | 0 <= i < |s'| ensures OrderlyLane(s'[i], window, clock') {
        SuccessorIsOrderly([], specs[i], window, clock, clock');
      }
  }

  lemma {:induction false} BenchKeepsOrder(s: PoolView, s': PoolView, lane: nat, until: Instant,
                                           window: nat, clock: Instant, clock': Instant)
    requires BenchStep(s, s', lane, until) && Orderly(s, window, clock) && UniqueIds(Specs(s))
    requires clock <= clock' && until <= clock' + LONGEST_BENCH
    ensures UniqueIds(Specs(s')) && Orderly(s', window, clock')
  {
    assert Specs(s') == Specs(s);
    forall i | 0 <= i < |s'| ensures OrderlyLane(s'[i], window, clock') {
      assert OrderlyLane(s[i], window, clock);
    }
  }

  lemma {:induction false} SuccessorIsOrderly(prior: PoolView, spec: LaneSpec, window: nat, clock: Instant,
                                              clock': Instant)
    requires Orderly(prior, window, clock) && clock <= clock' && spec.rpm > 0
    ensures OrderlyLane(Successor(prior, spec, window), window, clock')
  {
    var found := FindLane(prior, spec.Id());
    if found.Some? {
      assert OrderlyLane(prior[found.value], window, clock);
    }
  }

  lemma {:induction false} UniqueIndex(pool: PoolView, i: nat)
    requires UniqueIds(Specs(pool)) && i < |pool|
    ensures FindLane(pool, pool[i].Id()) == Some(i)
  {
    assert forall j :: 0 <= j < |pool| ==> Specs(pool)[j].Id() == pool[j].Id();
  }

  /** A rebuild with the specs already there changes nothing at all. */
  lemma {:induction false} RebuildingInPlaceChangesNothing(live: PoolView, window: nat)
    requires UniqueIds(Specs(live)) && forall i :: 0 <= i < |live| ==> live[i].window == window
    ensures Rebuilt(live, Specs(live), window) == live
  {
    var next := Rebuilt(live, Specs(live), window);
    forall i | 0 <= i < |live| ensures next[i] == live[i] {
      UniqueIndex(live, i);
      assert next[i] == Successor(live, live[i].spec, window);
    }
  }

  /** In cooldown until `until` at least. */
  predicate RestsUntil(v: LaneView, until: Instant) {
    v.cooldown.Some? && until <= v.cooldown.value
  }

  /** What one event can do to a key that survives it. */
  ghost predicate Survives(v: LaneView, v': LaneView, window: nat, now: Instant, granted: bool) {
    && (granted ==> v.HasRoom(now) && v'.hits == Pruned(v.hits, window, now) + [now])
    && (!granted ==> DropsExpired(v.hits, v'.hits, window, now))
    && (v.cooldown.Some? ==> RestsUntil(v', v.cooldown.value))
  }

  lemma {:induction false} SurvivesAcquire(s: PoolView, s': PoolView, id: LaneId, now: Instant, granted: Option<nat>)
    requires UniqueIds(Specs(s)) && AcquireStep(s, s', now, granted) && FindLane(s, id).Some?
    ensures FindLane(s', id) == FindLane(s, id)
    ensures var i := FindLane(s, id).value;
      Survives(s[i], s'[i], s[i].window, now, granted.Some? && s[granted.value].Id() == id)
  {
    forall j | 0 <= j < |s| ensures s'[j].Id() == s[j].Id() {
      assert LaneStep(s[j], s'[j], now, granted == Some(j));
    }
    var i := FindLane(s, id).value;
    assert LaneStep(s[i], s'[i], now, granted == Some(i));
    SameIndex(s, s', id);
    if granted.Some? {
      UniqueIndex(s, granted.value);
    }
  }

  lemma {:induction false} SameIndex(s: PoolView, s': PoolView, id: LaneId)
    requires |s| == |s'| && forall j :: 0 <= j < |s| ==> s'[j].Id() == s[j].Id()
    ensures FindLane(s', id) == FindLane(s, id)
  {
    var f, f' := FindLane(s, id), FindLane(s', id);
    assert f.Some? ==> s'[f.value].Id() == id;
    assert f'.Some? ==> s[f'.value].Id() == id;
  }

  lemma {:induction false} KeptLaneStep(r: Run, id: LaneId, k: nat)
    requires r.Valid() && k < |r.events| && r.Kept(id, k, k + 1)
    ensures Survives(r.LaneAt(id, k), r.LaneAt(id, k + 1), r.window, r.Clock(k + 1), r.Grants(id, k))
  {
    StatesAreOrderly(r, k);
    var s, s' := r.states[k], r.states[k + 1];
    assert r.Has(id, k) && r.Has(id, k + 1) && !r.Renewed(k);
    var i := FindLane(s, id).value;
    assert r.Follows(k);
    assert OrderlyLane(s[i], r.window, r.Clock(k));
    match r.events[k]
    case Acquire(now, granted) =>
      SurvivesAcquire(s, s', id, now, granted);
    case Bench(_, _, _) =>
      SameIndex(s, s', id);
    case Rebuild(specs) =>
      var i' := FindLane(s', id).value;
      assert s'[i'] == Successor(s, specs[i'], r.window);
    case Renew(_) =>
      assert false;
  }

  /** `hits` is the complete time-ordered grant log less entries expired by `clock`. */
  ghost predicate Tracks(log: seq<Instant>, hits: seq<Instant>, window: nat, clock: Instant) {
    Sorted(log) && AllAtMost(log, clock) && DropsExpired(log, hits, window, clock)
  }

  lemma {:induction false} TracksStep(log: seq<Instant>, v: LaneView, v': LaneView, window: nat, clock: Instant,
                                      now: Instant, granted: bool)
    requires Tracks(log, v.hits, window, clock) && clock <= now && Survives(v, v', window, now, granted)
    ensures Tracks(log + if granted then [now] else [], v'.hits, window, now)
  {
    if granted {
      var kept := Pruned(v.hits, window, now);
      PrunedDropsExpired(v.hits, window, now);
      DropsCompose(log, v.hits, kept, window, clock, now);
      DropsAppend(log, kept, window, now);
    } else {
      assert log + [] == log;
      DropsCompose(log, v.hits, v'.hits, window, clock, now);
    }
  }

  lemma {:induction false} DropsAppend(log: seq<Instant>, kept: seq<Instant>, window: nat, now: Instant)
    requires DropsExpired(log, kept, window, now) && Sorted(log) && AllAtMost(log, now)
    ensures Tracks(log + [now], kept + [now], window, now)
  {
    assert (log + [now])[|log| - |kept|..] == kept + [now];
  }

  /** A kept lane's retained hits are the key's complete grant history, less expired entries. */
  lemma {:induction false} HitsTrackTheLog(r: Run, id: LaneId, from: nat, k: nat)
    requires r.Valid() && r.Kept(id, from, k)
    ensures Tracks(r.LaneAt(id, from).hits + r.GrantLog(id, from, k), r.LaneAt(id, k).hits, r.window, r.Clock(k))
    decreases k - from
  {
    var start := r.LaneAt(id, from).hits;
    if k == from {
      StatesAreOrderly(r, k);
      assert OrderlyLane(r.LaneAt(id, k), r.window, r.Clock(k));
      assert start + r.GrantLog(id, from, k) == start;
    } else {
      HitsTrackTheLog(r, id, from, k - 1);
      ExtendTracking(r, id, from, k, start);
    }
  }

  lemma {:induction false} ExtendTracking(r: Run, id: LaneId, from: nat, k: nat, start: seq<Instant>)
    requires r.Valid() && from < k && r.Kept(id, from, k)
    requires Tracks(start + r.GrantLog(id, from, k - 1), r.LaneAt(id, k - 1).hits, r.window, r.Clock(k - 1))
    ensures Tracks(start + r.GrantLog(id, from, k), r.LaneAt(id, k).hits, r.window, r.Clock(k))
  {
    var v, v', granted := r.LaneAt(id, k - 1), r.LaneAt(id, k), r.Grants(id, k - 1);
    var log, clock, now := start + r.GrantLog(id, from, k - 1), r.Clock(k - 1), r.Clock(k);
    assert Survives(v, v', r.window, now, granted) by { KeptLaneStep(r, id, k - 1); }
    assert clock <= now by { ClockAdvances(r, k - 1, k); }
    assert start + r.GrantLog(id, from, k)
        == log + if granted then [now] else [] by { GrantLogStep(r, id, from, k, start); }
    TracksStep(log, v, v', r.window, clock, now, granted);
  }

  lemma {:induction false} GrantLogStep(r: Run, id: LaneId, from: nat, k: nat, start: seq<Instant>)
    requires r.Valid() && from < k <= |r.events|
    ensures start + r.GrantLog(id, from, k)
         == start + r.GrantLog(id, from, k - 1) + if r.Grants(id, k - 1) then [r.Clock(k)] else []
  {
  }

  /** PACING. Whatever grants, benches and rebuilds are interleaved, and whichever way they
      move the key's rpm: at each grant on a key kept since `from`, the grants on it since
      then that fall in the trailing window, this one included, number at most the rpm in
      force at that moment. */
  lemma {:induction false} PacedAcrossReconfiguration(r: Run, id: LaneId, from: nat, k: nat)
    requires r.Valid() && k < |r.events| && r.Kept(id, from, k) && r.Grants(id, k)
    ensures Spent(r.GrantLog(id, from, k + 1), r.window, r.events[k].now) <= r.LaneAt(id, k).spec.rpm
  {
    var v, now := r.LaneAt(id, k), r.events[k].now;
    var log := r.GrantLog(id, from, k);
    GrantHasRoom(r, id, k);
    HitsTrackTheLog(r, id, from, k);
    ClockAdvances(r, k, k);
    StatesAreOrderly(r, k);
    SpentAfterDrop(r.LaneAt(id, from).hits + log, v.hits, r.window, r.Clock(k), now);
    PrunedCountsSpent(v.hits, r.window, now);
    SpentConcat(r.LaneAt(id, from).hits, log, r.window, now);
    SpentConcat(log, [now], r.window, now);
    SpentBounded([now], r.window, now);
  }

  lemma {:induction false} GrantHasRoom(r: Run, id: LaneId, k: nat)
    requires r.Valid() && k < |r.events| && r.Grants(id, k) && FindLane(r.states[k], id).Some?
    ensures r.LaneAt(id, k).HasRoom(r.events[k].now)
    ensures r.LaneAt(id, k).window == r.window
  {
    StatesAreOrderly(r, k);
    assert r.Follows(k);
    UniqueIndex(r.states[k], r.events[k].granted.value);
  }

  /** NO GRANT INSIDE A BENCH. Once a kept key has been benched, no later grant on it comes before
      the seconds asked for are over: later, shorter benches and rebuilds cannot cut it short. */
  lemma {:induction false} NoGrantInsideABench(r: Run, id: LaneId, b: nat, k: nat)
    requires r.Valid() && b < k < |r.events| && r.Kept(id, b, k)
    requires r.events[b].Bench? && FindLane(r.states[b], id) == Some(r.events[b].lane)
    requires r.Grants(id, k)
    ensures r.events[k].now >= r.events[b].now + 1000 * BenchSecs(r.events[b].header)
  {
    GrantHasRoom(r, id, k);
    BenchTakesHold(r, id, b);
    BenchPersists(r, id, b + 1, k, r.events[b].Until());
  }

  lemma {:induction false} BenchPersists(r: Run, id: LaneId, from: nat, k: nat, until: Instant)
    requires r.Valid() && r.Kept(id, from, k) && RestsUntil(r.LaneAt(id, from), until)
    ensures RestsUntil(r.LaneAt(id, k), until)
    decreases k
  {
    if from < k {
      BenchPersists(r, id, from, k - 1, until);
      KeptLaneStep(r, id, k - 1);
    }
  }

  lemma {:induction false} BenchTakesHold(r: Run, id: LaneId, b: nat)
    requires r.Valid() && b < |r.events| && r.Kept(id, b, b + 1)
    requires r.events[b].Bench? && FindLane(r.states[b], id) == Some(r.events[b].lane)
    ensures RestsUntil(r.LaneAt(id, b + 1), r.events[b].Until())
  {
    var s, s', i := r.states[b], r.states[b + 1], r.events[b].lane;
    assert r.Follows(b);
    assert BenchStep(s, s', i, r.events[b].Until());
    SameIndex(s, s', id);
  }

  /** Every prefix of the log respects `limit` in the window ending at its last grant. */
  ghost predicate PacedLog(log: seq<Instant>, window: nat, limit: nat) {
    Sorted(log) && forall k :: 0 <= k < |log| ==> Spent(log[..k + 1], window, log[k]) <= limit
  }

  lemma {:induction false} SpentFalls(log: seq<Instant>, window: nat, t1: Instant, t2: Instant)
    requires t1 <= t2
    ensures Spent(log, window, t2) <= Spent(log, window, t1)
  {
    if log != [] {
      SpentFalls(log[..|log| - 1], window, t1, t2);
    }
  }
}
