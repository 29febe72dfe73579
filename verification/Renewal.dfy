/** Keys that start again from nothing: dropped by one rebuild and restored by another, or
    carried over a restart of the process. What that can cost. */
module Renewal {
  import opened Basics
  import opened Windows
  import opened Pools
  import opened Pacing
  import opened Upstream
  import opened Bursts

  // ---- At most one limit for each fresh start ----

  /** `id` keeps its lane through event `k`. */
  ghost predicate Carried(r: Run, id: LaneId, k: nat)
    requires k < |r.events|
  {
    r.Kept(id, k, k + 1)
  }

  /** How often `id` comes up with a lane that carries nothing over, among events [from, end). */
  ghost function FreshStarts(r: Run, id: LaneId, from: nat, end: nat): nat
    requires from <= end <= |r.events|
    decreases end
  {
    if from == end then 0
    else FreshStarts(r, id, from, end - 1) + if r.Has(id, end) && !Carried(r, id, end - 1) then 1 else 0
  }

  /** How many lanes without a common past `id` has in that time, the first one included. */
  ghost function Lives(r: Run, id: LaneId, from: nat, end: nat): nat
    requires from <= end <= |r.events|
  {
    FreshStarts(r, id, from, end) + if r.Has(id, from) then 1 else 0
  }

  /** Since when `id` has been carried without a break, up to `end`. */
  ghost function CarriedSince(r: Run, id: LaneId, from: nat, end: nat): (s: nat)
    requires from <= end <= |r.events|
    ensures from <= s <= end
    decreases end
  {
    if from < end && Carried(r, id, end - 1) then CarriedSince(r, id, from, end - 1) else end
  }

  lemma {:induction false} CarriedIsKept(r: Run, id: LaneId, from: nat, end: nat)
    requires r.Valid() && from <= end <= |r.events| && r.Has(id, end)
    ensures var s := CarriedSince(r, id, from, end);
      && r.Kept(id, s, end)
      && (s > from ==> !Carried(r, id, s - 1))
      && FreshStarts(r, id, from, end) == FreshStarts(r, id, from, s)
    decreases end
  {
    if from < end && Carried(r, id, end - 1) {
      CarriedIsKept(r, id, from, end - 1);
    }
  }

  /** `limit` bounds the rate of every lane `id` ever has. */
  ghost predicate RatedWithin(r: Run, id: LaneId, from: nat, end: nat, limit: nat)
    requires from <= end <= |r.events|
  {
    forall k :: from <= k < end ==> RatedAt(r, id, k, limit)
  }

  ghost predicate RatedAt(r: Run, id: LaneId, k: nat, limit: nat)
    requires k < |r.events|
  {
    r.Has(id, k) ==> r.LaneAt(id, k).spec.rpm <= limit
  }

  lemma {:induction false} PacedAtAnyTime(log: seq<Instant>, window: nat, limit: nat, now: Instant)
    requires PacedLog(log, window, limit) && AllAtMost(log, now)
    ensures Spent(log, window, now) <= limit
  {
    if log != [] {
      var n := |log| - 1;
      assert log[..n + 1] == log;
      SpentFalls(log, window, log[n], now);
    }
  }

  lemma {:induction false} LogIsPast(r: Run, id: LaneId, from: nat, end: nat)
    requires r.Valid() && from <= end <= |r.events|
    ensures AllAtMost(r.GrantLog(id, from, end), r.Clock(end))
    decreases end
  {
    if from < end {
      LogIsPast(r, id, from, end - 1);
      ClockAdvances(r, end - 1, end);
    }
  }

  lemma {:induction false} GrantedLaneStays(s: PoolView, s': PoolView, now: Instant, i: nat)
    requires AcquireStep(s, s', now, Some(i))
    ensures FindLane(s, s[i].Id()).Some? && FindLane(s', s[i].Id()).Some?
  {
    assert LaneStep(s[i], s'[i], now, Some(i) == Some(i));
    assert s'[i].Id() == s[i].Id();
  }

  /** An event that takes a key away, or brings it up fresh, is no grant on it. */
  lemma {:induction false} UncarriedIsNoGrant(r: Run, id: LaneId, from: nat, k: nat)
    requires r.Valid() && from <= k < |r.events| && !Carried(r, id, k)
    ensures !r.Grants(id, k)
    ensures r.GrantLog(id, from, k + 1) == r.GrantLog(id, from, k)
  {
    if r.Grants(id, k) {
      GrantIsCarried(r, id, k);
    }
  }

  lemma {:induction false} GrantIsCarried(r: Run, id: LaneId, k: nat)
    requires r.Valid() && k < |r.events| && r.Grants(id, k)
    ensures Carried(r, id, k)
  {
    assert r.Follows(k);
    GrantedLaneStays(r.states[k], r.states[k + 1], r.events[k].now, r.events[k].granted.value);
    assert r.Has(id, k) && r.Has(id, k + 1) && !r.Renewed(k);
  }

  ghost predicate CostBound(r: Run, id: LaneId, from: nat, end: nat, limit: nat, now: Instant)
    requires from <= end <= |r.events|
  {
    Spent(r.GrantLog(id, from, end), r.window, now) <= Times(Lives(r, id, from, end), limit)
  }

  /** WHAT A FRESH START COSTS. However often a key is dropped and restored, and however often
      the process restarts, the grants on it since `from` in any trailing window number at most
      its limit once for each time it came up fresh, and once more if it had a lane already. */
  lemma {:induction false} EachFreshStartCostsOneLimit(r: Run, id: LaneId, from: nat, end: nat, limit: nat,
                                                       now: Instant)
    requires r.Valid() && from <= end <= |r.events| && RatedWithin(r, id, from, end, limit) && r.Clock(end) <= now
    ensures Spent(r.GrantLog(id, from, end), r.window, now) <= Lives(r, id, from, end) * limit
  {
    CostIsBounded(r, id, from, end, limit, now);
    TimesIsProduct(Lives(r, id, from, end), limit);
  }

  lemma {:induction false} CostIsBounded(r: Run, id: LaneId, from: nat, end: nat, limit: nat, now: Instant)
    requires r.Valid() && from <= end <= |r.events| && RatedWithin(r, id, from, end, limit) && r.Clock(end) <= now
    ensures CostBound(r, id, from, end, limit, now)
    decreases end
  {
    if from == end {
      assert r.GrantLog(id, from, end) == [];
    } else if !r.Has(id, end) {
      ClockAdvances(r, end - 1, end);
      CostIsBounded(r, id, from, end - 1, limit, now);
      CostWhenGone(r, id, from, end, limit, now);
    } else {
      var s := CarriedSince(r, id, from, end);
      if from < s {
        ClockAdvances(r, s - 1, end);
        CostIsBounded(r, id, from, s - 1, limit, now);
      }
      CarriedIsKept(r, id, from, end);
      CostWhenPresent(r, id, from, s, end, limit, now);
    }
  }

  lemma {:induction false} CostWhenGone(r: Run, id: LaneId, from: nat, end: nat, limit: nat, now: Instant)
    requires r.Valid() && from < end <= |r.events| && !r.Has(id, end)
    requires CostBound(r, id, from, end - 1, limit, now)
    ensures CostBound(r, id, from, end, limit, now)
  {
    assert !Carried(r, id, end - 1);
    UncarriedIsNoGrant(r, id, from, end - 1);
  }

  lemma {:induction false} CostWhenPresent(r: Run, id: LaneId, from: nat, s: nat, end: nat, limit: nat, now: Instant)
    requires r.Valid() && from <= s <= end && r.Kept(id, s, end) && r.Clock(end) <= now
    requires RatedWithin(r, id, s, end, limit) && FreshStarts(r, id, from, end) == FreshStarts(r, id, from, s)
    requires from < s ==> !Carried(r, id, s - 1) && CostBound(r, id, from, s - 1, limit, now)
    ensures CostBound(r, id, from, end, limit, now)
  {
    SpentSplitsAtTheStart(r, id, from, s, end, limit, now);
    if from < s {
      assert r.Has(id, s);
      CostOfTheStart(r, id, from, s, limit, now);
    } else {
      assert r.GrantLog(id, from, s) == [] && r.Has(id, s);
      assert Times(1, limit) == Times(0, limit) + limit == limit;
    }
  }

  lemma {:induction false} SpentSplitsAtTheStart(r: Run, id: LaneId, from: nat, s: nat, end: nat, limit: nat,
                                                 now: Instant)
    requires r.Valid() && from <= s <= end && r.Kept(id, s, end) && r.Clock(end) <= now &&
             RatedWithin(r, id, s, end, limit)
    ensures Spent(r.GrantLog(id, from, end), r.window, now) <= Spent(r.GrantLog(id, from, s), r.window, now) + limit
  {
    LogSplits(r, id, from, s, end);
    SpentConcat(r.GrantLog(id, from, s), r.GrantLog(id, s, end), r.window, now);
    SpentSinceFresh(r, id, s, end, limit, now);
  }

  lemma {:induction false} CostOfTheStart(r: Run, id: LaneId, from: nat, s: nat, limit: nat, now: Instant)
    requires r.Valid() && from < s <= |r.events| && r.Has(id, s) && !Carried(r, id, s - 1)
    requires CostBound(r, id, from, s - 1, limit, now)
    ensures Spent(r.GrantLog(id, from, s), r.window, now) + limit <= Times(Lives(r, id, from, s), limit)
  {
    var n := Lives(r, id, from, s - 1);
    assert r.GrantLog(id, from, s) == r.GrantLog(id, from, s - 1) by { UncarriedIsNoGrant(r, id, from, s - 1); }
    assert Lives(r, id, from, s) == n + 1 by { OneMoreLife(r, id, from, s); }
    assert Times(n + 1, limit) == Times(n, limit) + limit;
  }

  lemma {:induction false} OneMoreLife(r: Run, id: LaneId, from: nat, s: nat)
    requires from < s <= |r.events| && r.Has(id, s) && !Carried(r, id, s - 1)
    ensures Lives(r, id, from, s) == Lives(r, id, from, s - 1) + 1
  {
  }

  lemma {:induction false} SpentSinceFresh(r: Run, id: LaneId, s: nat, end: nat, limit: nat, now: Instant)
    requires r.Valid() && r.Kept(id, s, end) && r.Clock(end) <= now && RatedWithin(r, id, s, end, limit)
    ensures Spent(r.GrantLog(id, s, end), r.window, now) <= limit
  {
    forall k | s <= k < end ensures r.Has(id, k) && r.LaneAt(id, k).spec.rpm <= limit {
      assert RatedAt(r, id, k, limit);
    }
    RunIsPaced(r, id, s, end, limit);
    LogIsPast(r, id, s, end);
    PacedAtAnyTime(r.GrantLog(id, s, end), r.window, limit, now);
  }

  /** At a real provider, too, one limit for each life of the key is the most it counts. */
  lemma {:induction false} UpstreamAcrossFreshStarts(r: Run, id: LaneId, from: nat, end: nat, providerWindow: nat,
                                                     limit: nat, d: Delivery, delay: nat, m: nat)
    requires r.Valid() && from <= end <= |r.events| && RatedWithin(r, id, from, end, limit)
    requires providerWindow > 0 && r.window == providerWindow + JITTER_MARGIN
    requires d.Of(r.GrantLog(id, from, end), delay, JITTER_MARGIN) && m < |d.arrivals|
    ensures CountAt(d.arrivals, m, providerWindow) <= Lives(r, id, from, end) * limit
  {
    var most := Lives(r, id, from, end) * limit;
    PacedAcrossFreshStarts(r, id, from, end, end, limit);
    PacedIsSpaced(r.GrantLog(id, from, end), r.window, most);
    NoViolation(r.GrantLog(id, from, end), d, delay, JITTER_MARGIN, providerWindow, most, m);
  }

  lemma {:induction false} PacedAcrossFreshStarts(r: Run, id: LaneId, from: nat, k: nat, end: nat, limit: nat)
    requires r.Valid() && from <= k <= end <= |r.events| && RatedWithin(r, id, from, end, limit)
    ensures PacedLog(r.GrantLog(id, from, k), r.window, Lives(r, id, from, end) * limit)
    decreases k
  {
    var most := Lives(r, id, from, end) * limit;
    if from == k {
      assert r.GrantLog(id, from, k) == [];
    } else {
      PacedAcrossFreshStarts(r, id, from, k - 1, end, limit);
      if r.Grants(id, k - 1) {
        assert RatedWithin(r, id, from, k, limit) by {
          assert forall j :: from <= j < k ==> RatedAt(r, id, j, limit);
        }
        assert Lives(r, id, from, k) * limit <= most by { FreshStartsGrow(r, id, from, k, end, limit); }
        GrantStaysPaced(r, id, from, k, limit, most);
      } else {
        assert r.GrantLog(id, from, k) == r.GrantLog(id, from, k - 1);
      }
    }
  }

  lemma {:induction false} GrantStaysPaced(r: Run, id: LaneId, from: nat, k: nat, limit: nat, most: nat)
    requires r.Valid() && from < k <= |r.events| && RatedWithin(r, id, from, k, limit) && r.Grants(id, k - 1)
    requires Lives(r, id, from, k) * limit <= most
    requires PacedLog(r.GrantLog(id, from, k - 1), r.window, most)
    ensures PacedLog(r.GrantLog(id, from, k), r.window, most)
  {
    var log, now := r.GrantLog(id, from, k - 1), r.events[k - 1].now;
    EachFreshStartCostsOneLimit(r, id, from, k, limit, now);
    LogIsPast(r, id, from, k - 1);
    ClockAdvances(r, k - 1, k - 1);
    assert AllAtMost(log, now);
    assert r.GrantLog(id, from, k) == log + [now];
    PacedLogGrows(log, now, r.window, most);
  }

  lemma {:induction false} FreshStartsGrow(r: Run, id: LaneId, from: nat, k: nat, end: nat, limit: nat)
    requires r.Valid() && from <= k <= end <= |r.events|
    ensures FreshStarts(r, id, from, k) <= FreshStarts(r, id, from, end)
    ensures Lives(r, id, from, k) * limit <= Lives(r, id, from, end) * limit
    decreases end
  {
    if k < end {
      FreshStartsGrow(r, id, from, k, end - 1, limit);
      MoreLimits(Lives(r, id, from, end - 1), Lives(r, id, from, end), limit);
    }
  }

  lemma {:induction false} MoreLimits(a: nat, b: nat, n: nat)
    requires a <= b
    ensures a * n <= b * n
  {
    TimesIsProduct(a, n);
    TimesIsProduct(b, n);
    TimesGrows(a, b, n);
  }

  lemma {:induction false} TimesGrows(a: nat, b: nat, n: nat)
    requires a <= b
    ensures Times(a, n) <= Times(b, n)
  {
    if a < b {
      TimesGrows(a, b - 1, n);
    }
  }

  // ---- What can be granted on top of what was left ----

  /** The whole new budget at once, on top of what was left of the old. */
  lemma {:induction false} Overrun(r: Run, id: LaneId) returns (r': Run)
    requires r.Valid() && r.window > 0 && r.Has(id, |r.events|)
    requires r.LaneAt(id, |r.events|) == FreshLane(r.LaneAt(id, |r.events|).spec, r.window)
    ensures r'.Valid() && Extends(r, r') && r'.Kept(id, |r.events|, |r'.events|)
    ensures Spent(r'.GrantLog(id, 0, |r'.events|), r.window, Now(r))
         == Spent(r.GrantLog(id, 0, |r.events|), r.window, Now(r)) + r.LaneAt(id, |r.events|).spec.rpm
  {
    var n, now, i := |r.events|, Now(r), FindLane(Last(r), id).value;
    var rpm := Last(r)[i].spec.rpm;
    StatesAreOrderly(r, n);
    assert OrderlyLane(Last(r)[i], r.window, now);
    r' := BurstOfGrants(r, i, now, rpm);
    assert IsBurst(r, r', i, id, now);
    BurstSpends(r, r', i, id, now);
    BurstKeeps(r, r', i, id, now);
  }

  lemma {:induction false} BurstSpends(r: Run, r': Run, i: nat, id: LaneId, now: Instant)
    requires r.Valid() && r.window > 0 && IsBurst(r, r', i, id, now)
    ensures Spent(r'.GrantLog(id, 0, |r'.events|), r.window, now)
         == Spent(r.GrantLog(id, 0, |r.events|), r.window, now) + (|r'.events| - |r.events|)
  {
    var n, m := |r.events|, |r'.events|;
    assert r'.GrantLog(id, 0, m) == r.GrantLog(id, 0, n) + Copies(m - n, now) by { BurstIsLogged(r, r', i, id, now); }
    SpentOfBurst(r.GrantLog(id, 0, n), m - n, r.window, now);
  }

  lemma {:induction false} BurstIsLogged(r: Run, r': Run, i: nat, id: LaneId, now: Instant)
    requires r.Valid() && IsBurst(r, r', i, id, now)
    ensures r'.GrantLog(id, 0, |r'.events|) == r.GrantLog(id, 0, |r.events|) + Copies(|r'.events| - |r.events|, now)
  {
    var n, m := |r.events|, |r'.events|;
    BurstLog(r, r', i, id, now, m);
    LogExtends(r, r', id, 0, n);
    LogSplits(r', id, 0, n, m);
  }

  lemma {:induction false} SpentOfBurst(log: seq<Instant>, count: nat, window: nat, now: Instant)
    requires window > 0
    ensures Spent(log + Copies(count, now), window, now) == Spent(log, window, now) + count
  {
    SpentConcat(log, Copies(count, now), window, now);
    SpentAtOnce(count, window, now);
  }

  // ---- How a key comes up fresh with budget still spent ----

  /** A restart does it to every key: the same lanes, and none of their hits. */
  lemma {:induction false} RestartForgets(r: Run, id: LaneId) returns (r': Run)
    requires r.Valid() && r.Has(id, |r.events|)
    ensures r'.Valid() && Extends(r, r') && |r'.events| == |r.events| + 1 && Now(r') == Now(r)
    ensures r'.Has(id, |r'.events|)
    ensures r'.LaneAt(id, |r'.events|) == FreshLane(r.LaneAt(id, |r.events|).spec, r.window)
    ensures r'.GrantLog(id, 0, |r'.events|) == r.GrantLog(id, 0, |r.events|)
    ensures FreshStarts(r', id, 0, |r'.events|) == FreshStarts(r, id, 0, |r.events|) + 1
  {
    var n, specs := |r.events|, Specs(Last(r));
    StatesAreOrderly(r, n);
    forall j | 0 <= j < |specs| ensures specs[j].rpm > 0 {
      assert OrderlyLane(Last(r)[j], r.window, Now(r));
    }
    var e, s' := Renew(specs), Rebuilt([], specs, r.window);
    ThenIsValid(r, e, s');
    r' := Then(r, e, s');
    SpecsFix(Last(r), s', id);
    LogExtends(r, r', id, 0, n);
    StartsExtend(r, r', id, n);
    assert r'.Has(id, n + 1) && r'.Renewed(n);
    assert Specs(s')[FindLane(s', id).value] == specs[FindLane(Last(r), id).value];
  }

  lemma {:induction false} StartsExtend(r: Run, r': Run, id: LaneId, k: nat)
    requires r.Valid() && r'.Valid() && Extends(r, r') && k <= |r.events|
    ensures FreshStarts(r', id, 0, k) == FreshStarts(r, id, 0, k)
  {
    if k > 0 {
      StartsExtend(r, r', id, k - 1);
      SameCarried(r, r', id, k - 1);
      assert r'.states[k] == r.states[k];
    }
  }

  lemma {:induction false} SameCarried(r: Run, r': Run, id: LaneId, k: nat)
    requires r.Valid() && r'.Valid() && Extends(r, r') && k < |r.events|
    ensures Carried(r', id, k) <==> Carried(r, id, k)
  {
    assert r'.states[k] == r.states[k] && r'.states[k + 1] == r.states[k + 1] && r'.events[k] == r.events[k];
    assert r.Has(id, k) == r'.Has(id, k) && r.Has(id, k + 1) == r'.Has(id, k + 1) && r.Renewed(k) == r'.Renewed(k);
  }

  /** Two rebuilds do it to one key: the first without it, the second with it again. */
  lemma {:induction false} DroppedAndRestored(r: Run, spec: LaneSpec, without: seq<LaneSpec>, again: seq<LaneSpec>)
    returns (r': Run)
    requires r.Valid() && LiveSpecs(without) && LiveSpecs(again)
    requires (forall i :: 0 <= i < |without| ==> without[i].Id() != spec.Id()) && spec in again
    ensures r'.Valid() && Extends(r, r') && Now(r') == Now(r)
    ensures r'.events == r.events + [Rebuild(without), Rebuild(again)]
    ensures r'.Has(spec.Id(), |r'.events|) && r'.LaneAt(spec.Id(), |r'.events|) == FreshLane(spec, r.window)
    ensures r'.GrantLog(spec.Id(), 0, |r'.events|) == r.GrantLog(spec.Id(), 0, |r.events|)
  {
    var n, id := |r.events|, spec.Id();
    var s1 := Rebuilt(Last(r), without, r.window);
    ThenIsValid(r, Rebuild(without), s1);
    var r1 := Then(r, Rebuild(without), s1);
    var s2 := Rebuilt(s1, again, r.window);
    ThenIsValid(r1, Rebuild(again), s2);
    r' := Then(r1, Rebuild(again), s2);
    ExtendsOnwards(r, r1, r');
    LogExtends(r, r', id, 0, n);
    assert r'.events == r.events + [Rebuild(without), Rebuild(again)];
    assert r'.GrantLog(id, 0, n + 2) == r'.GrantLog(id, 0, n + 1) == r'.GrantLog(id, 0, n);
    assert forall j :: 0 <= j < |s1| ==> s1[j].Id() == Specs(s1)[j].Id();
    var i :| 0 <= i < |again| && again[i] == spec;
    UniqueIndex(s2, i);
    assert s2[i] == Successor(s1, again[i], r.window);
  }

  /** So any key with budget still spent can be driven past its rpm: one restart, then its new
      budget at once. */
  lemma {:induction false} RestartCanOverrun(r: Run, id: LaneId) returns (r': Run)
    requires r.Valid() && r.window > 0 && r.Has(id, |r.events|)
    requires Spent(r.GrantLog(id, 0, |r.events|), r.window, Now(r)) > 0
    ensures r'.Valid() && Extends(r, r') && r'.Has(id, |r'.events|)
    ensures Spent(r'.GrantLog(id, 0, |r'.events|), r.window, Now(r)) > r.LaneAt(id, |r.events|).spec.rpm
  {
    var r1 := RestartForgets(r, id);
    r' := Overrun(r1, id);
    ExtendsOnwards(r, r1, r');
    assert r'.Has(id, |r'.events|);
  }
}
