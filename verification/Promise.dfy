/** When the upstream's limit is safe from here on, whatever has happened before. */
module Promise {
  import opened Basics
  import opened Windows
  import opened Pools
  import opened Pacing
  import opened Upstream
  import opened Bursts
  import opened Renewal
  import opened Allowances

  // ---- What the lanes could still grant ----

  /** How many grants the lane could make at `t`. */
  function RoomLeft(v: LaneView, t: Instant): nat {
    if v.HasRoom(t) then v.spec.rpm - v.Load(t) else 0
  }

  /** How many of them, on the first `n` lanes, would draw on `a`. */
  function RoomOn(pool: PoolView, meter: Metering, a: Allowance, t: Instant, n: nat): nat
    requires n <= |pool|
  {
    if n == 0 then 0
    else
      RoomOn(pool, meter, a, t, n - 1)
      + if AllowanceOf(meter, pool[n - 1].spec) == a then RoomLeft(pool[n - 1], t) else 0
  }

  /** What is still spent of the allowance at `t`, and all that the lanes could add to it then, is
      within the limit. */
  ghost predicate FitsAt(log: seq<Instant>, window: nat, pool: PoolView, meter: Metering, a: Allowance, limit: nat,
                         t: Instant)
  {
    Spent(log, window, t) + RoomOn(pool, meter, a, t, |pool|) <= limit
  }

  ghost predicate FitsFrom(log: seq<Instant>, window: nat, pool: PoolView, meter: Metering, a: Allowance, limit: nat,
                           clock: Instant)
  {
    forall t: Instant :: clock <= t ==> FitsAt(log, window, pool, meter, a, limit, t)
  }

  // ---- One lane ----

  lemma {:induction false} LoadIsSpent(v: LaneView, window: nat, clock: Instant, t: Instant)
    requires OrderlyLane(v, window, clock)
    ensures v.Load(t) == Spent(v.hits, window, t)
  {
    PrunedCountsSpent(v.hits, window, t);
  }

  /** A grant takes one from the room for as long as it counts. */
  lemma {:induction false} RoomAfterGrant(v: LaneView, v': LaneView, window: nat, clock: Instant, now: Instant,
                                          t: Instant)
    requires OrderlyLane(v, window, clock) && clock <= now <= t && LaneStep(v, v', now, true)
    ensures RoomLeft(v', t) + Spent([now], window, t) == RoomLeft(v, t)
  {
    var kept := Pruned(v.hits, window, now);
    LaneKeepsOrder(v, v', now, true, window, clock);
    LoadIsSpent(v, window, clock, t);
    LoadIsSpent(v', window, now, t);
    PrunedDropsExpired(v.hits, window, now);
    SpentAfterDrop(v.hits, kept, window, now, t);
    SpentConcat(kept, [now], window, t);
    PrunedShrinks(v.hits, window, now, t);
    SpentBounded([now], window, t);
  }

  lemma {:induction false} RoomAfterForgetting(v: LaneView, v': LaneView, now: Instant, t: Instant)
    requires v.OnlyForgot(v', now) && now <= t
    ensures RoomLeft(v', t) == RoomLeft(v, t)
  {
    PrunedAfterDrop(v.hits, v'.hits, v.window, now, t);
  }

  lemma {:induction false} RoomAfterBench(v: LaneView, until: Instant, t: Instant)
    ensures RoomLeft(v.(cooldown := Later(v.cooldown, until)), t) <= RoomLeft(v, t)
  {
  }

  // ---- The whole pool, through one event ----

  /** What the event adds to the log. */
  ghost function Drawn(s: PoolView, e: Event, meter: Metering, a: Allowance): seq<Instant> {
    if e.Acquire? && e.granted.Some? && e.granted.value < |s| && AllowanceOf(meter, s[e.granted.value].spec) == a
    then [e.now] else []
  }

  lemma {:induction false} RoomAfterAcquire(s: PoolView, s': PoolView, e: Event, meter: Metering, a: Allowance,
                                            window: nat, clock: Instant, t: Instant, n: nat)
    requires e.Acquire? && AcquireStep(s, s', e.now, e.granted) && Orderly(s, window, clock)
    requires clock <= e.now <= t && n <= |s|
    ensures var drawn := if e.granted.Some? && e.granted.value < n then Drawn(s, e, meter, a) else [];
            RoomOn(s', meter, a, t, n) + Spent(drawn, window, t) == RoomOn(s, meter, a, t, n)
  {
    if n > 0 {
      var i := n - 1;
      RoomAfterAcquire(s, s', e, meter, a, window, clock, t, i);
      assert LaneStep(s[i], s'[i], e.now, e.granted == Some(i)) && OrderlyLane(s[i], window, clock);
      LaneKeepsOrder(s[i], s'[i], e.now, e.granted == Some(i), window, clock);
      if e.granted == Some(i) {
        RoomAfterGrant(s[i], s'[i], window, clock, e.now, t);
      } else {
        RoomAfterForgetting(s[i], s'[i], e.now, t);
      }
    }
  }

  lemma {:induction false} RoomAfterBenching(s: PoolView, s': PoolView, lane: nat, until: Instant, meter: Metering,
                                             a: Allowance, t: Instant, n: nat)
    requires BenchStep(s, s', lane, until) && n <= |s|
    ensures RoomOn(s', meter, a, t, n) <= RoomOn(s, meter, a, t, n)
  {
    if n > 0 {
      RoomAfterBenching(s, s', lane, until, meter, a, t, n - 1);
      RoomAfterBench(s[n - 1], until, t);
    }
  }

  /** Under one configuration no event makes what fits fit no longer. */
  lemma {:induction false} StillFits(window: nat, s: PoolView, e: Event, s': PoolView, log: seq<Instant>,
                                     meter: Metering, a: Allowance, limit: nat, clock: Instant, t: Instant)
    requires Step(window, s, e, s') && UniqueIds(Specs(s)) && Orderly(s, window, clock)
    requires !e.Renew? && Specs(s') == Specs(s) && clock <= t && (e.Timed() ==> clock <= e.now <= t)
    requires FitsAt(log, window, s, meter, a, limit, t)
    ensures FitsAt(log + Drawn(s, e, meter, a), window, s', meter, a, limit, t)
  {
    SpentConcat(log, Drawn(s, e, meter, a), window, t);
    match e
    case Acquire(_, _) => RoomAfterAcquire(s, s', e, meter, a, window, clock, t, |s|);
    case Bench(_, lane, _) => RoomAfterBenching(s, s', lane, e.Until(), meter, a, t, |s|);
    case Rebuild(specs) =>
      forall i | 0 <= i < |s| ensures s[i].window == window {
        assert OrderlyLane(s[i], window, clock);
      }
      RebuildingInPlaceChangesNothing(s, window);
  }

  // ---- From here on ----

  /** The run goes on under the configuration it has come to: any grants and benches, rebuilds of
      the same lanes, and no fresh start. */
  ghost predicate Onwards(r: Run, r': Run)
    requires r.Valid()
  {
    && r'.Valid() && Extends(r, r')
    && (forall k :: |r.events| <= k <= |r'.events| ==> SameSpecsAt(r, r', k))
    && (forall k :: |r.events| <= k < |r'.events| ==> !r'.Renewed(k))
  }

  ghost predicate SameSpecsAt(r: Run, r': Run, k: nat)
    requires r.Valid()
  {
    k < |r'.states| && Specs(r'.states[k]) == Specs(Last(r))
  }

  /** The whole log of the allowance so far. */
  ghost function LogOf(r: Run, meter: Metering, a: Allowance): seq<Instant> {
    DrawLog(r, meter, a, 0, |r.events|)
  }

  /** However the run goes on, and however what was granted is delivered, the past included, the
      upstream never counts more than `limit`. */
  ghost predicate SafeFromHere(r: Run, meter: Metering, a: Allowance, limit: nat, providerWindow: nat)
    requires r.Valid()
  {
    forall r': Run :: Onwards(r, r') ==> AlwaysQuiet(LogOf(r', meter, a), JITTER_MARGIN, providerWindow, limit)
  }

  lemma {:induction false} DrawLogExtends(r: Run, r': Run, meter: Metering, a: Allowance, from: nat, end: nat)
    requires r.Valid() && r'.Valid() && Extends(r, r') && from <= end <= |r.events|
    ensures DrawLog(r', meter, a, from, end) == DrawLog(r, meter, a, from, end)
    decreases end
  {
    if from < end {
      DrawLogExtends(r, r', meter, a, from, end - 1);
      assert r'.states[end - 1] == r.states[end - 1] && r'.events[end - 1] == r.events[end - 1];
    }
  }

  lemma {:induction false} DrawLogSplits(r: Run, meter: Metering, a: Allowance, from: nat, mid: nat, end: nat)
    requires from <= mid <= end <= |r.events|
    ensures DrawLog(r, meter, a, from, end) == DrawLog(r, meter, a, from, mid) + DrawLog(r, meter, a, mid, end)
    decreases end
  {
    if mid < end {
      DrawLogSplits(r, meter, a, from, mid, end - 1);
    }
  }

  lemma {:induction false} FittingStaysPaced(r: Run, r': Run, meter: Metering, a: Allowance, limit: nat, k: nat)
    requires r.Valid() && Onwards(r, r') && |r.events| <= k <= |r'.events|
    requires PacedLog(LogOf(r, meter, a), r.window, limit)
    requires FitsFrom(LogOf(r, meter, a), r.window, Last(r), meter, a, limit, Now(r))
    ensures PacedLog(DrawLog(r', meter, a, 0, k), r.window, limit)
    ensures FitsFrom(DrawLog(r', meter, a, 0, k), r.window, r'.states[k], meter, a, limit, r'.Clock(k))
    decreases k
  {
    if k == |r.events| {
      DrawLogExtends(r, r', meter, a, 0, k);
      ClockExtends(r, r', k);
    } else {
      FittingStaysPaced(r, r', meter, a, limit, k - 1);
      FittingOneMore(r, r', meter, a, limit, k - 1);
    }
  }

  lemma {:induction false} FittingOneMore(r: Run, r': Run, meter: Metering, a: Allowance, limit: nat, k: nat)
    requires r.Valid() && Onwards(r, r') && |r.events| <= k < |r'.events|
    requires PacedLog(DrawLog(r', meter, a, 0, k), r.window, limit)
    requires FitsFrom(DrawLog(r', meter, a, 0, k), r.window, r'.states[k], meter, a, limit, r'.Clock(k))
    ensures PacedLog(DrawLog(r', meter, a, 0, k + 1), r.window, limit)
    ensures FitsFrom(DrawLog(r', meter, a, 0, k + 1), r.window, r'.states[k + 1], meter, a, limit, r'.Clock(k + 1))
  {
    var log, e := DrawLog(r', meter, a, 0, k), r'.events[k];
    var drawn := Drawn(r'.states[k], e, meter, a);
    assert DrawLog(r', meter, a, 0, k + 1) == log + drawn;
    OneEventFits(r, r', meter, a, limit, k, log);
    if drawn != [] {
      assert FitsAt(log + [e.now], r.window, r'.states[k + 1], meter, a, limit, e.now);
      assert Sorted(log + [e.now]) by { DrawLogIsPast(r', meter, a, 0, k + 1); }
      PacedLogGrows(log, e.now, r.window, limit);
    } else {
      assert log + [] == log;
    }
  }

  lemma {:induction false} OneEventFits(r: Run, r': Run, meter: Metering, a: Allowance, limit: nat, k: nat,
                                        log: seq<Instant>)
    requires r.Valid() && Onwards(r, r') && |r.events| <= k < |r'.events|
    requires FitsFrom(log, r.window, r'.states[k], meter, a, limit, r'.Clock(k))
    ensures FitsFrom(log + Drawn(r'.states[k], r'.events[k], meter, a), r.window, r'.states[k + 1], meter, a, limit,
                     r'.Clock(k + 1))
  {
    var s, e, s' := r'.states[k], r'.events[k], r'.states[k + 1];
    StatesAreOrderly(r', k);
    ClockAdvances(r', k, k + 1);
    assert r'.Follows(k) && SameSpecsAt(r, r', k) && SameSpecsAt(r, r', k + 1) && !r'.Renewed(k);
    forall t: Instant | r'.Clock(k + 1) <= t
      ensures FitsAt(log + Drawn(s, e, meter, a), r.window, s', meter, a, limit, t)
    {
      assert FitsAt(log, r.window, s, meter, a, limit, t);
      StillFits(r.window, s, e, s', log, meter, a, limit, r'.Clock(k), t);
    }
  }

  // ---- The run that uses all the room at once ----

  /** The first `n` lanes have used all their room at `t`; the others are as they were. */
  ghost predicate Filled(r: Run, r': Run, meter: Metering, a: Allowance, t: Instant, n: nat)
    requires r.Valid() && n <= |Last(r)|
  {
    && Onwards(r, r') && Now(r') <= t && |Last(r')| == |Last(r)|
    && LogOf(r', meter, a) == LogOf(r, meter, a) + Copies(RoomOn(Last(r), meter, a, t, n), t)
    && forall j :: n <= j < |Last(r)| ==> Last(r')[j] == Last(r)[j]
  }

  lemma {:induction false} FillRooms(r: Run, meter: Metering, a: Allowance, t: Instant, n: nat) returns (r': Run)
    requires r.Valid() && r.window > 0 && Now(r) <= t && n <= |Last(r)|
    ensures Filled(r, r', meter, a, t, n)
  {
    if n == 0 {
      r' := r;
      assert LogOf(r, meter, a) + [] == LogOf(r, meter, a);
    } else {
      var r1 := FillRooms(r, meter, a, t, n - 1);
      var v := Last(r)[n - 1];
      if AllowanceOf(meter, v.spec) == a && RoomLeft(v, t) > 0 {
        r' := BurstOfGrants(r1, n - 1, t, RoomLeft(v, t));
        FilledOneMore(r, r1, r', meter, a, t, n);
      } else {
        r' := r1;
      }
    }
  }

  lemma {:induction false} FilledOneMore(r: Run, r1: Run, r': Run, meter: Metering, a: Allowance, t: Instant, n: nat)
    requires r.Valid() && 0 < n <= |Last(r)| && Filled(r, r1, meter, a, t, n - 1)
    requires AllowanceOf(meter, Last(r)[n - 1].spec) == a && IsBurst(r1, r', n - 1, Last(r1)[n - 1].Id(), t)
    requires |r'.events| == |r1.events| + RoomLeft(Last(r)[n - 1], t) && Now(r') <= t
    requires |Last(r')| == |Last(r)| && forall j :: n <= j < |Last(r)| ==> Last(r')[j] == Last(r1)[j]
    ensures Filled(r, r', meter, a, t, n)
  {
    ExtendsOnwards(r, r1, r');
    assert SameSpecsAt(r, r1, |r1.events|);
    forall k | |r.events| <= k <= |r'.events| ensures SameSpecsAt(r, r', k) {
      if k <= |r1.events| {
        assert SameSpecsAt(r, r1, k) && r'.states[k] == r1.states[k];
      }
    }
    forall k | |r.events| <= k < |r'.events| ensures !r'.Renewed(k) {
      if k < |r1.events| {
        assert !r1.Renewed(k) && r'.events[k] == r1.events[k];
      }
    }
    assert AllowanceOf(meter, Last(r1)[n - 1].spec) == a by {
      assert Specs(Last(r1))[n - 1] == Specs(Last(r))[n - 1];
    }
    BurstDraws(r1, r', n - 1, t, meter, a, |r'.events|);
    CopiesAdd(RoomOn(Last(r), meter, a, t, n - 1), RoomLeft(Last(r)[n - 1], t), t);
  }

  lemma {:induction false} BurstDraws(r: Run, r': Run, i: nat, now: Instant, meter: Metering, a: Allowance, m: nat)
    requires r.Valid() && i < |Last(r)| && IsBurst(r, r', i, Last(r)[i].Id(), now) && |r.events| <= m <= |r'.events|
    requires AllowanceOf(meter, Last(r)[i].spec) == a
    ensures DrawLog(r', meter, a, 0, m) == LogOf(r, meter, a) + Copies(m - |r.events|, now)
    decreases m
  {
    if m == |r.events| {
      DrawLogExtends(r, r', meter, a, 0, m);
    } else {
      BurstDraws(r, r', i, now, meter, a, m - 1);
      assert Specs(r'.states[m - 1])[i] == Specs(Last(r))[i];
    }
  }

  lemma {:induction false} CopiesAdd<T>(a: nat, b: nat, x: T)
    ensures Copies(a, x) + Copies(b, x) == Copies(a + b, x)
  {
  }

  // ---- Exactly when ----

  /** EXACTLY WHEN A LIMIT IS SAFE FROM HERE. Whatever a run has been through, keys dropped, moved,
      restored or shared, restarts and all: as long as its configuration stays as it is now, the
      upstream never counts an allowance over `limit`, in any continuation and any delivery within
      the margin, if and only if the past was paced within it and, at every time to come, what is
      still spent and all that its lanes could then add fit in it. */
  lemma {:induction false} SafeFromHereIffItFits(r: Run, meter: Metering, a: Allowance, limit: nat, providerWindow: nat)
    requires r.Valid() && providerWindow > 0 && r.window == providerWindow + JITTER_MARGIN
    ensures SafeFromHere(r, meter, a, limit, providerWindow) <==>
              && PacedLog(LogOf(r, meter, a), r.window, limit)
              && FitsFrom(LogOf(r, meter, a), r.window, Last(r), meter, a, limit, Now(r))
  {
    if !PacedLog(LogOf(r, meter, a), r.window, limit) {
      OverrunIsHeard(r, r, meter, a, limit, providerWindow);
    } else if t: Instant :| Now(r) <= t && !FitsAt(LogOf(r, meter, a), r.window, Last(r), meter, a, limit, t) {
      var r' := FillRooms(r, meter, a, t, |Last(r)|);
      TooFull(LogOf(r, meter, a), RoomOn(Last(r), meter, a, t, |Last(r)|), t, r.window, limit, Now(r)) by {
        DrawLogIsPast(r, meter, a, 0, |r.events|);
      }
      OverrunIsHeard(r, r', meter, a, limit, providerWindow);
    } else {
      forall r': Run | Onwards(r, r') ensures AlwaysQuiet(LogOf(r', meter, a), JITTER_MARGIN, providerWindow, limit) {
        FittingStaysPaced(r, r', meter, a, limit, |r'.events|);
        DrawLogIsPast(r', meter, a, 0, |r'.events|);
        QuietIffPaced(LogOf(r', meter, a), JITTER_MARGIN, providerWindow, limit);
      }
    }
  }

  lemma {:induction false} OverrunIsHeard(r: Run, r': Run, meter: Metering, a: Allowance, limit: nat,
                                          providerWindow: nat)
    requires r.Valid() && Onwards(r, r') && providerWindow > 0 && r.window == providerWindow + JITTER_MARGIN
    requires !PacedLog(LogOf(r', meter, a), r.window, limit)
    ensures !SafeFromHere(r, meter, a, limit, providerWindow)
  {
    DrawLogIsPast(r', meter, a, 0, |r'.events|);
    QuietIffPaced(LogOf(r', meter, a), JITTER_MARGIN, providerWindow, limit);
  }

  /** Too many grants at one moment are not paced. */
  lemma {:induction false} TooFull(log: seq<Instant>, more: nat, t: Instant, window: nat, limit: nat, last: Instant)
    requires window > 0 && PacedLog(log, window, limit) && AllAtMost(log, last) && last <= t
    requires Spent(log, window, t) + more > limit
    ensures !PacedLog(log + Copies(more, t), window, limit)
  {
    var all := log + Copies(more, t);
    PacedAtAnyTime(log, window, limit, t);
    SpentConcat(log, Copies(more, t), window, t);
    SpentAtOnce(more, window, t);
    assert all[|all| - 1] == t && all[..|all|] == all;
    assert Spent(all[..(|all| - 1) + 1], window, all[|all| - 1]) > limit;
  }
}
