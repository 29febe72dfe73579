/** A lane that takes over an allowance which others may have spent: moved, re-pointed, dropped
    and restored, or restarted. Exactly when it keeps the promise however it is edited. */
module Carryover {
  import opened Basics
  import opened Windows
  import opened Pools
  import opened Pacing
  import opened Upstream
  import opened Bursts
  import opened Renewal
  import opened Allowances
  import opened Promise

  /** The run goes on with the key kept, under whatever rates, and nothing else draws on `a`. */
  ghost predicate Continues(r: Run, r': Run, id: LaneId, meter: Metering, a: Allowance) {
    && r'.Valid() && Extends(r, r') && |r.events| <= |r'.events|
    && r'.Kept(id, |r.events|, |r'.events|)
    && DrawnBy(r', meter, a, [id], |r.events|, |r'.events|)
  }

  /** If event `k` draws on `a` by way of `id`, then the grants that did so in the window ending
      there, on whatever lane, number at most the rpm then in force. */
  ghost predicate DrawWithin(r: Run, id: LaneId, meter: Metering, a: Allowance, k: nat)
    requires k < |r.events|
  {
    r.Has(id, k) && Draws(r, meter, a, k) ==>
      Spent(DrawLog(r, meter, a, 0, k + 1), r.window, r.events[k].now) <= r.LaneAt(id, k).spec.rpm
  }

  ghost predicate SafeWhileKept(r: Run, id: LaneId, meter: Metering, a: Allowance) {
    forall r': Run, k :: Continues(r, r', id, meter, a) && |r.events| <= k < |r'.events| ==>
      DrawWithin(r', id, meter, a, k)
  }

  /** Whenever the lane is out of its cooldown, all that is still spent of the allowance is in the
      lane's own load. */
  ghost predicate AccountedFor(r: Run, id: LaneId, meter: Metering, a: Allowance)
    requires r.Valid() && r.Has(id, |r.events|)
  {
    forall t: Instant :: Now(r) <= t ==> AccountedAt(LogOf(r, meter, a), r.window, r.LaneAt(id, |r.events|), t)
  }

  ghost predicate AccountedAt(log: seq<Instant>, window: nat, v: LaneView, t: Instant) {
    !v.Benched(t) ==> Spent(log, window, t) <= v.Load(t)
  }

  // ---- Accounted for is enough ----

  lemma {:induction false} CooldownLasts(r: Run, id: LaneId, from: nat, k: nat, t: Instant)
    requires r.Valid() && r.Kept(id, from, k) && !r.LaneAt(id, k).Benched(t)
    ensures !r.LaneAt(id, from).Benched(t)
  {
    if r.LaneAt(id, from).cooldown.Some? {
      BenchPersists(r, id, from, k, r.LaneAt(id, from).cooldown.value);
    }
  }

  /** A kept lane's load is what it began with and what it was granted since. */
  lemma {:induction false} LoadIsCarried(r: Run, id: LaneId, from: nat, k: nat, t: Instant)
    requires r.Valid() && r.Kept(id, from, k) && r.Clock(k) <= t
    ensures r.LaneAt(id, k).Load(t) == r.LaneAt(id, from).Load(t) + Spent(r.GrantLog(id, from, k), r.window, t)
  {
    var hits, log := r.LaneAt(id, from).hits, r.GrantLog(id, from, k);
    StatesAreOrderly(r, from);
    StatesAreOrderly(r, k);
    assert OrderlyLane(r.LaneAt(id, from), r.window, r.Clock(from));
    assert OrderlyLane(r.LaneAt(id, k), r.window, r.Clock(k));
    LoadIsSpent(r.LaneAt(id, from), r.window, r.Clock(from), t);
    LoadIsSpent(r.LaneAt(id, k), r.window, r.Clock(k), t);
    HitsTrackTheLog(r, id, from, k);
    SpentAfterDrop(hits + log, r.LaneAt(id, k).hits, r.window, r.Clock(k), t);
    SpentConcat(hits, log, r.window, t);
  }

  lemma {:induction false} AccountedIsSafe(r: Run, r': Run, id: LaneId, meter: Metering, a: Allowance, k: nat)
    requires r.Valid() && r.Has(id, |r.events|) && AccountedFor(r, id, meter, a)
    requires Continues(r, r', id, meter, a) && |r.events| <= k < |r'.events|
    ensures DrawWithin(r', id, meter, a, k)
  {
    var n := |r.events|;
    if r'.Has(id, k) && Draws(r', meter, a, k) {
      var now, v := r'.events[k].now, r'.LaneAt(id, k);
      assert DrawnByAt(r', meter, a, [id], k);
      assert r'.Grants(id, k);
      GrantHasRoom(r', id, k);
      ClockAdvances(r', n, k);
      ClockExtends(r, r', n);
      CooldownLasts(r', id, n, k, now);
      LoadIsCarried(r', id, n, k, now);
      assert r'.LaneAt(id, n) == r.LaneAt(id, n);
      assert AccountedAt(LogOf(r, meter, a), r.window, r.LaneAt(id, n), now);
      SpentSinceHere(r, r', id, meter, a, k, now);
      LaneAtWindow(r', id, k);
    }
  }

  lemma {:induction false} LaneAtWindow(r: Run, id: LaneId, k: nat)
    requires r.Valid() && k <= |r.events| && r.Has(id, k)
    ensures r.LaneAt(id, k).window == r.window
  {
    StatesAreOrderly(r, k);
    assert OrderlyLane(r.LaneAt(id, k), r.window, r.Clock(k));
  }

  lemma {:induction false} SpentSinceHere(r: Run, r': Run, id: LaneId, meter: Metering, a: Allowance, k: nat,
                                          now: Instant)
    requires r.Valid() && Continues(r, r', id, meter, a) && |r.events| <= k < |r'.events|
    ensures Spent(DrawLog(r', meter, a, 0, k + 1), r.window, now)
         <= Spent(LogOf(r, meter, a), r.window, now) + Spent(r'.GrantLog(id, |r.events|, k), r.window, now) + 1
  {
    var n := |r.events|;
    DrawLogSplits(r', meter, a, 0, n, k + 1);
    DrawLogExtends(r, r', meter, a, 0, n);
    SpentConcat(LogOf(r, meter, a), DrawLog(r', meter, a, n, k + 1), r.window, now);
    var since := DrawLog(r', meter, a, n, k);
    var last := if Draws(r', meter, a, k) then [r'.events[k].now] else [];
    assert DrawLog(r', meter, a, n, k + 1) == since + last;
    SpentConcat(since, last, r.window, now);
    SpentBounded(last, r.window, now);
    assert DrawnBy(r', meter, a, [id], n, k) by {
      forall m | n <= m < k ensures DrawnByAt(r', meter, a, [id], m) {
      }
    }
    MergedSpendsNoMore(r', meter, a, [id], n, k, now);
    OneLaneSpends(r', id, n, k, now);
  }

  lemma {:induction false} OneLaneSpends(r: Run, id: LaneId, from: nat, end: nat, now: Instant)
    requires from <= end <= |r.events|
    ensures SpentOn(r, [id], from, end, now) == Spent(r.GrantLog(id, from, end), r.window, now)
  {
    var spent := SpentOnEach(r, [id], from, end, now);
    assert spent[..0] == [] && Sum([]) == 0;
    assert Sum(spent) == Sum(spent[..0]) + spent[0];
  }

  // ---- And nothing less is ----

  /** One edit of the rate, one grant: more than the lane's load was still spent. */
  lemma {:induction false} UnaccountedOverruns(r: Run, id: LaneId, meter: Metering, t: Instant)
    returns (r': Run, k: nat)
    requires r.Valid() && r.window > 0 && r.Has(id, |r.events|) && Now(r) <= t
    requires !AccountedAt(LogOf(r, meter, AllowanceOf(meter, r.LaneAt(id, |r.events|).spec)), r.window,
                          r.LaneAt(id, |r.events|), t)
    ensures var a := AllowanceOf(meter, r.LaneAt(id, |r.events|).spec);
            Continues(r, r', id, meter, a) && |r.events| <= k < |r'.events| && !DrawWithin(r', id, meter, a, k)
  {
    var n, i := |r.events|, FindLane(Last(r), id).value;
    var v := Last(r)[i];
    var a := AllowanceOf(meter, v.spec);
    var r1 := Rerated(r, i, v.Load(t) + 1);
    var r2 := OneMoreGrant(r1, i, t);
    ExtendsOnwards(r, r1, r2);
    r', k := r2, n + 1;
    RatedAndGranted(r, Last(r1), r2, i, t, meter);
    DrawLogExtends(r, r2, meter, a, 0, n);
    assert DrawLog(r2, meter, a, 0, n + 1) == LogOf(r, meter, a) by { assert !Draws(r2, meter, a, n); }
    assert DrawLog(r2, meter, a, 0, n + 2) == LogOf(r, meter, a) + [t];
    SpentConcat(LogOf(r, meter, a), [t], r.window, t);
    SpentBounded([t], r.window, t);
  }

  /** The run with one more rebuild, which changes one lane's rate and nothing else. */
  lemma {:induction false} Rerated(r: Run, i: nat, rpm: nat) returns (r': Run)
    requires r.Valid() && i < |Last(r)| && rpm > 0
    ensures r'.Valid() && Extends(r, r') && |r'.events| == |r.events| + 1 && r'.events[|r.events|].Rebuild?
    ensures Now(r') == Now(r)
    ensures Last(r') == Last(r)[i := Last(r)[i].(spec := Last(r)[i].spec.(rpm := rpm))]
  {
    var s := Last(r);
    var specs := Specs(s)[i := s[i].spec.(rpm := rpm)];
    StatesAreOrderly(r, |r.events|);
    forall j | 0 <= j < |specs| ensures specs[j].rpm > 0 && specs[j].Id() == Specs(s)[j].Id() {
      assert OrderlyLane(s[j], r.window, Now(r));
    }
    var s' := Rebuilt(s, specs, r.window);
    forall j | 0 <= j < |s| ensures s'[j] == s[j].(spec := specs[j]) {
      UniqueIndex(s, j);
      assert s'[j] == Successor(s, specs[j], r.window) && OrderlyLane(s[j], r.window, Now(r));
    }
    ThenIsValid(r, Rebuild(specs), s');
    r' := Then(r, Rebuild(specs), s');
  }

  /** `r2` is `r` with one rebuild that gave lane `i` the rate it has in `s1`, then one grant. */
  ghost predicate IsRatedAndGranted(r: Run, s1: PoolView, r2: Run, i: nat, t: Instant)
    requires r.Valid()
  {
    var n := |r.events|;
    && r2.Valid() && Extends(r, r2) && |r2.events| == n + 2
    && r2.events[n].Rebuild? && r2.events[n + 1] == Acquire(t, Some(i)) && r2.states[n + 1] == s1
    && i < |Last(r)| == |s1| && s1[i] == Last(r)[i].(spec := Last(r)[i].spec.(rpm := s1[i].spec.rpm))
    && Specs(Last(r2)) == Specs(s1)
  }

  lemma {:induction false} RatedLaneIsThere(r: Run, s1: PoolView, r2: Run, i: nat, t: Instant, k: nat)
    requires r.Valid() && IsRatedAndGranted(r, s1, r2, i, t) && |r.events| <= k <= |r2.events|
    ensures r2.Has(Last(r)[i].Id(), k) && FindLane(r2.states[k], Last(r)[i].Id()) == Some(i)
  {
    StatesAreOrderly(r2, k);
    assert r2.states[|r.events|] == Last(r);
    assert Specs(Last(r2))[i] == Specs(s1)[i];
    UniqueIndex(r2.states[k], i);
  }

  lemma {:induction false} RatedAndGranted(r: Run, s1: PoolView, r2: Run, i: nat, t: Instant, meter: Metering)
    requires r.Valid() && IsRatedAndGranted(r, s1, r2, i, t)
    ensures var id, a := Last(r)[i].Id(), AllowanceOf(meter, Last(r)[i].spec);
      && Continues(r, r2, id, meter, a) && Draws(r2, meter, a, |r.events| + 1)
      && r2.Has(id, |r.events| + 1) && r2.LaneAt(id, |r.events| + 1) == s1[i]
  {
    var n, id, a := |r.events|, Last(r)[i].Id(), AllowanceOf(meter, Last(r)[i].spec);
    forall k | n <= k <= n + 2 ensures r2.Has(id, k) && FindLane(r2.states[k], id) == Some(i) {
      RatedLaneIsThere(r, s1, r2, i, t, k);
    }
    forall k | n <= k < n + 2 ensures !r2.Renewed(k) && DrawnByAt(r2, meter, a, [id], k) {
    }
    assert s1[i].Id() == id && AllowanceOf(meter, s1[i].spec) == a;
  }

  /** EXACTLY WHEN A LANE KEEPS THE PROMISE. Whatever a run has been through, and however the lane
      came by its allowance: as long as it is kept and nothing else draws on that, every grant on
      it finds what is spent of the allowance, earlier grants on other lanes included, within the
      rpm then in force, whatever that is edited to, if and only if whenever it is out of its
      cooldown all that is still spent is in its own load. */
  lemma {:induction false} SafeIffAccountedFor(r: Run, id: LaneId, meter: Metering)
    requires r.Valid() && r.window > 0 && r.Has(id, |r.events|)
    ensures var a := AllowanceOf(meter, r.LaneAt(id, |r.events|).spec);
            SafeWhileKept(r, id, meter, a) <==> AccountedFor(r, id, meter, a)
  {
    var v := r.LaneAt(id, |r.events|);
    var a := AllowanceOf(meter, v.spec);
    if AccountedFor(r, id, meter, a) {
      forall r': Run, k | Continues(r, r', id, meter, a) && |r.events| <= k < |r'.events|
        ensures DrawWithin(r', id, meter, a, k)
      {
        AccountedIsSafe(r, r', id, meter, a, k);
      }
    } else {
      var t: Instant :| Now(r) <= t && !AccountedAt(LogOf(r, meter, a), r.window, v, t);
      var r', k := UnaccountedOverruns(r, id, meter, t);
    }
  }

  /** THE PROMISE ACROSS A FRESH START. A lane that has come up fresh, restored, restarted or newly
      added, keeps the promise if and only if nothing of its allowance, on whatever lane it was
      spent, is spent still. */
  lemma {:induction false} FreshKeySafeIffUnspent(r: Run, id: LaneId, meter: Metering)
    requires r.Valid() && r.window > 0 && r.Has(id, |r.events|)
    requires r.LaneAt(id, |r.events|) == FreshLane(r.LaneAt(id, |r.events|).spec, r.window)
    ensures var a := AllowanceOf(meter, r.LaneAt(id, |r.events|).spec);
            SafeWhileKept(r, id, meter, a) <==> Spent(LogOf(r, meter, a), r.window, Now(r)) == 0
  {
    var v := r.LaneAt(id, |r.events|);
    var a := AllowanceOf(meter, v.spec);
    var log := LogOf(r, meter, a);
    SafeIffAccountedFor(r, id, meter);
    forall t: Instant | Now(r) <= t ensures AccountedAt(log, r.window, v, t) <==> Spent(log, r.window, t) == 0 {
      assert v.hits == [] && v.Load(t) == 0;
    }
    if Spent(log, r.window, Now(r)) == 0 {
      forall t: Instant | Now(r) <= t ensures Spent(log, r.window, t) == 0 {
        SpentFalls(log, r.window, Now(r), t);
      }
    } else {
      assert !AccountedAt(log, r.window, v, Now(r));
    }
  }
}
