/** Making runs longer: what can still happen after a given run. */
module Bursts {
  import opened Basics
  import opened Windows
  import opened Pools
  import opened Pacing

  ghost predicate Extends(r: Run, r': Run) {
    && r'.window == r.window
    && r.states <= r'.states
    && r.events <= r'.events
  }

  ghost function Last(r: Run): PoolView
    requires r.Valid()
  {
    r.states[|r.events|]
  }

  ghost function Now(r: Run): Instant
    requires r.Valid()
  {
    r.Clock(|r.events|)
  }

  /** The run with one more event. */
  ghost function Then(r: Run, e: Event, s': PoolView): Run {
    Run(r.window, r.states + [s'], r.events + [e])
  }

  lemma {:induction false} ClockThen(r: Run, e: Event, s': PoolView, k: nat)
    requires k <= |r.events|
    ensures Then(r, e, s').Clock(k) == r.Clock(k)
  {
    if k > 0 {
      ClockThen(r, e, s', k - 1);
    }
  }

  lemma {:induction false} ThenIsValid(r: Run, e: Event, s': PoolView)
    requires r.Valid() && Step(r.window, Last(r), e, s') && (e.Timed() ==> Now(r) <= e.now)
    ensures Then(r, e, s').Valid() && Extends(r, Then(r, e, s'))
    ensures Last(Then(r, e, s')) == s' && Now(Then(r, e, s')) == if e.Timed() then e.now else Now(r)
  {
    var n, r' := |r.events|, Then(r, e, s');
    forall k | 0 <= k < n + 1 ensures r'.Follows(k) {
      if k < n {
        assert r.Follows(k);
      }
    }
    forall i: nat, j: nat | i < j < n + 1 ensures r'.InOrder(i, j) {
      if j < n {
        assert r.InOrder(i, j);
      } else if r.events[i].Timed() {
        ClockCovers(r, i, n);
      }
    }
    forall i: nat | i < |r'.states[0]| ensures r'.StartsFresh(i) {
      assert r.StartsFresh(i);
    }
    ClockThen(r, e, s', n);
  }

  /** Nothing up to now is later than the clock. */
  lemma {:induction false} ClockCovers(r: Run, i: nat, k: nat)
    requires r.Valid() && i < k <= |r.events| && r.events[i].Timed()
    ensures r.events[i].now <= r.Clock(k)
  {
    if i < k - 1 {
      ClockCovers(r, i, k - 1);
      ClockAdvances(r, k - 1, k);
    }
  }

  lemma {:induction false} LogThen(r: Run, e: Event, s': PoolView, id: LaneId, from: nat, end: nat)
    requires r.Valid() && Then(r, e, s').Valid() && from <= end <= |r.events|
    ensures Then(r, e, s').GrantLog(id, from, end) == r.GrantLog(id, from, end)
    decreases end
  {
    if from < end {
      LogThen(r, e, s', id, from, end - 1);
    }
  }

  /** The log of a longer run begins with the log of the run it extends. */
  lemma {:induction false} LogExtends(r: Run, r': Run, id: LaneId, from: nat, end: nat)
    requires r.Valid() && r'.Valid() && Extends(r, r') && from <= end <= |r.events|
    ensures r'.GrantLog(id, from, end) == r.GrantLog(id, from, end)
    decreases end
  {
    if from < end {
      LogExtends(r, r', id, from, end - 1);
      assert r'.states[end - 1] == r.states[end - 1] && r'.events[end - 1] == r.events[end - 1];
    }
  }

  lemma {:induction false} ExtendsOnwards(a: Run, b: Run, c: Run)
    requires Extends(a, b) && Extends(b, c)
    ensures Extends(a, c)
  {
  }

  lemma {:induction false} LogSplits(r: Run, id: LaneId, from: nat, mid: nat, end: nat)
    requires r.Valid() && from <= mid <= end <= |r.events|
    ensures r.GrantLog(id, from, end) == r.GrantLog(id, from, mid) + r.GrantLog(id, mid, end)
    decreases end
  {
    if mid < end {
      LogSplits(r, id, from, mid, end - 1);
    }
  }

  // ---- Grants at one moment ----

  /** One more grant, on a lane that has room. */
  lemma {:induction false} OneMoreGrant(r: Run, i: nat, now: Instant) returns (r': Run)
    requires r.Valid() && Now(r) <= now && i < |Last(r)| && Last(r)[i].HasRoom(now)
    ensures r'.Valid() && Extends(r, r') && |r'.events| == |r.events| + 1
    ensures r'.events[|r.events|] == Acquire(now, Some(i))
    ensures Now(r') == now && Last(r') == Taken(Last(r), i, now) && Specs(Last(r')) == Specs(Last(r))
  {
    var s, e := Last(r), Acquire(now, Some(i));
    var s' := Taken(s, i, now);
    StatesAreOrderly(r, |r.events|);
    forall j | 0 <= j < |s| ensures LaneStep(s[j], s'[j], now, Some(i) == Some(j)) {
      assert DropsExpired(s[j].hits, s[j].hits, s[j].window, now);
    }
    ThenIsValid(r, e, s');
    r' := Then(r, e, s');
    assert Specs(s') == Specs(s);
  }

  /** A whole burst: `count` grants on one lane, all at `now`. */
  lemma {:induction false} BurstOfGrants(r: Run, i: nat, now: Instant, count: nat) returns (r': Run)
    requires r.Valid() && Now(r) <= now && i < |Last(r)| && r.window > 0
    requires !Last(r)[i].Benched(now) && Last(r)[i].Load(now) + count <= Last(r)[i].spec.rpm
    ensures r'.Valid() && Extends(r, r') && |r'.events| == |r.events| + count
    ensures forall k :: |r.events| <= k < |r'.events| ==> r'.events[k] == Acquire(now, Some(i))
    ensures forall k :: |r.events| <= k < |r'.states| ==> Specs(r'.states[k]) == Specs(Last(r))
    ensures |Last(r')| == |Last(r)| && forall j :: 0 <= j < |Last(r)| && j != i ==> Last(r')[j] == Last(r)[j]
    ensures Now(r) <= Now(r') <= now
    ensures !Last(r')[i].Benched(now) && Last(r')[i].Load(now) == Last(r)[i].Load(now) + count
    decreases count
  {
    if count == 0 {
      r' := r;
    } else {
      var r1 := BurstOfGrants(r, i, now, count - 1);
      assert Specs(r1.states[|r1.events|])[i] == Specs(Last(r))[i];
      r' := OneMoreGrant(r1, i, now);
      ExtendsOnwards(r, r1, r');
      var v := Last(r1)[i];
      StatesAreOrderly(r1, |r1.events|);
      assert OrderlyLane(v, r.window, Now(r1));
      LoadAfterHit(v.hits, v.window, now);
    }
  }

  lemma {:induction false} LoadAfterHit(hits: seq<Instant>, window: nat, now: Instant)
    requires window > 0
    ensures |Pruned(Pruned(hits, window, now) + [now], window, now)| == |Pruned(hits, window, now)| + 1
  {
    PrunedDropsExpired(hits, window, now);
    PrunedDropsExpired(Pruned(hits, window, now) + [now], window, now);
  }

  /** A burst on lane `i` of key `id`, as the run's log shows it. */
  ghost predicate IsBurst(r: Run, r': Run, i: nat, id: LaneId, now: Instant)
    requires r.Valid()
  {
    && r'.Valid() && Extends(r, r')
    && i < |Last(r)| && Last(r)[i].Id() == id
    && (forall k :: |r.events| <= k < |r'.events| ==> r'.events[k] == Acquire(now, Some(i)))
    && (forall k :: |r.events| <= k < |r'.states| ==> Specs(r'.states[k]) == Specs(Last(r)))
  }

  lemma {:induction false} BurstLog(r: Run, r': Run, i: nat, id: LaneId, now: Instant, m: nat)
    requires r.Valid() && IsBurst(r, r', i, id, now) && |r.events| <= m <= |r'.events|
    ensures r'.GrantLog(id, |r.events|, m) == Copies(m - |r.events|, now)
    ensures forall k :: |r.events| <= k < m ==> r'.Grants(id, k)
    decreases m
  {
    if |r.events| < m {
      BurstLog(r, r', i, id, now, m - 1);
      assert Specs(r'.states[m - 1])[i] == Specs(Last(r))[i];
    }
  }

  lemma {:induction false} BurstKeeps(r: Run, r': Run, i: nat, id: LaneId, now: Instant)
    requires r.Valid() && IsBurst(r, r', i, id, now)
    ensures r'.Kept(id, |r.events|, |r'.events|)
    ensures forall k :: |r.events| <= k <= |r'.events| ==> r'.Has(id, k) && r'.LaneAt(id, k).spec == Last(r)[i].spec
  {
    StatesAreOrderly(r, |r.events|);
    UniqueIndex(Last(r), i);
    forall k | |r.events| <= k <= |r'.events|
      ensures r'.Has(id, k) && r'.LaneAt(id, k).spec == Last(r)[i].spec
    {
      SpecsFix(Last(r), r'.states[k], id);
      assert Specs(r'.states[k])[i] == Specs(Last(r))[i];
    }
  }

  lemma {:induction false} SpecsFix(s: PoolView, s': PoolView, id: LaneId)
    requires Specs(s') == Specs(s)
    ensures FindLane(s', id) == FindLane(s, id)
  {
    forall j | 0 <= j < |s| ensures s'[j].Id() == s[j].Id() {
      assert Specs(s')[j] == Specs(s)[j];
    }
    SameIndex(s, s', id);
  }

  lemma {:induction false} ClockExtends(r: Run, r': Run, k: nat)
    requires Extends(r, r') && k <= |r.events|
    ensures r'.Clock(k) == r.Clock(k)
  {
    if k > 0 {
      ClockExtends(r, r', k - 1);
      assert r'.events[k - 1] == r.events[k - 1];
    }
  }

  lemma {:induction false} SpentAtOnce(n: nat, window: nat, now: Instant)
    requires window > 0
    ensures Spent(Copies(n, now), window, now) == n
  {
    SpentBounded(Copies(n, now), window, now);
  }
}
