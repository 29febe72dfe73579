/** What a provider that enforces its own sliding window sees of a paced key, once every
    request has been delayed on its way. */
module Upstream {
  import opened Basics
  import opened Windows
  import opened Pools
  import opened Pacing

  /** The provider's per-key deque after these arrivals (tests/support/mod.rs: drop the front
      while `now - front >= window`, then push). */
  function Deque(arrivals: seq<Instant>, window: nat): seq<Instant> {
    if arrivals == [] then []
    else
      var n := |arrivals| - 1;
      Pruned(Deque(arrivals[..n], window), window, arrivals[n]) + [arrivals[n]]
  }

  /** `kept` is the tail of `all`. */
  ghost predicate Tail(all: seq<Instant>, kept: seq<Instant>) {
    |kept| <= |all| && forall i :: 0 <= i < |kept| ==> kept[i] == all[|all| - |kept| + i]
  }

  lemma {:induction false} PrunedIsTail(hits: seq<Instant>, window: nat, now: Instant)
    ensures Tail(hits, Pruned(hits, window, now))
  {
    PrunedDropsExpired(hits, window, now);
  }

  lemma {:induction false} TailOfTail(a: seq<Instant>, b: seq<Instant>, c: seq<Instant>, last: Instant)
    requires Tail(a, b) && Tail(b, c)
    ensures Tail(a + [last], c + [last])
  {
    forall i | 0 <= i < |c| ensures c[i] == a[|a| - |c| + i] {
      assert c[i] == b[|b| - |c| + i];
    }
  }

  /** The deque is the tail of the arrivals, from one that has not expired. */
  lemma {:induction false} DequeIsTail(arrivals: seq<Instant>, window: nat)
    requires window > 0
    ensures Tail(arrivals, Deque(arrivals, window))
    ensures arrivals != [] ==> Deque(arrivals, window) != []
                               && !Expired(Deque(arrivals, window)[0], window, arrivals[|arrivals| - 1])
  {
    if arrivals != [] {
      var n := |arrivals| - 1;
      var before := Deque(arrivals[..n], window);
      DequeIsTail(arrivals[..n], window);
      PrunedIsTail(before, window, arrivals[n]);
      PrunedDropsExpired(before, window, arrivals[n]);
      TailOfTail(arrivals[..n], before, Pruned(before, window, arrivals[n]), arrivals[n]);
      assert arrivals == arrivals[..n] + [arrivals[n]];
    }
  }

  /** A provider that counts every request over `limit` in any window as a violation. */
  class EnforcingProvider {
    const limit: nat
    const window: nat
    var hits: seq<Instant>
    ghost var arrivals: seq<Instant>

    ghost predicate Valid() reads this {
      hits == Deque(arrivals, window)
    }

    constructor (limit: nat, window: nat)
      ensures Valid() && arrivals == [] && this.limit == limit && this.window == window
    {
      this.limit, this.window, hits, arrivals := limit, window, [], [];
    }

    method Forget(now: Instant)
      modifies this`hits
      ensures hits == Pruned(old(hits), window, now)
    {
      while hits != []
        invariant DropsExpired(old(hits), hits, window, now)
        decreases |hits|
      {
        if window <= now && hits[0] <= now - window {
          hits := hits[1..];
        } else {
          break;
        }
      }
      PrunedAfterDrop(old(hits), hits, window, now, now);
      UnexpiredStay(hits, window, now);
    }

    method Arrive(now: Instant) returns (over: bool)
      requires Valid()
      modifies this
      ensures Valid() && arrivals == old(arrivals) + [now]
      ensures over <==> |Deque(arrivals, window)| > limit
    {
      Forget(now);
      hits := hits + [now];
      arrivals := arrivals + [now];
      assert arrivals[..|arrivals| - 1] == old(arrivals);
      over := |hits| > limit;
    }
  }

  /** The provider's count at arrival `m`, that arrival included. */
  function CountAt(arrivals: seq<Instant>, m: nat, window: nat): nat
    requires m < |arrivals|
  {
    |Deque(arrivals[..m + 1], window)|
  }

  /** An over-full deque reaches back to an arrival that has not expired. */
  lemma {:induction false} OverfullDeque(arrivals: seq<Instant>, m: nat, window: nat, limit: nat)
    requires m < |arrivals| && Sorted(arrivals) && window > 0
    ensures CountAt(arrivals, m, window) > limit ==> limit <= m && !Expired(arrivals[m - limit], window, arrivals[m])
  {
    DequeIsTail(arrivals[..m + 1], window);
  }

  /** Grants `limit` apart are a whole window apart. */
  ghost predicate Spaced(grants: seq<Instant>, window: nat, limit: nat) {
    Sorted(grants) && forall k :: 0 <= k && k + limit < |grants| ==> grants[k] + window <= grants[k + limit]
  }

  lemma {:induction false} PacedIsSpaced(log: seq<Instant>, window: nat, limit: nat)
    requires PacedLog(log, window, limit)
    ensures Spaced(log, window, limit)
  {
    forall k | 0 <= k && k + limit < |log| ensures log[k] + window <= log[k + limit] {
      GrantsAreSpaced(log, window, limit, k);
    }
  }

  /** Where the first has not expired, none has. */
  lemma {:induction false} CrowdIsSpent(run: seq<Instant>, window: nat, now: Instant)
    requires Sorted(run) && run != [] && now < run[0] + window
    ensures Spent(run, window, now) == |run|
  {
    SpentBounded(run, window, now);
  }

  lemma {:induction false} GrantsAreSpaced(log: seq<Instant>, window: nat, limit: nat, k: nat)
    requires PacedLog(log, window, limit) && k + limit < |log|
    ensures log[k] + window <= log[k + limit]
  {
    var now, before, run := log[k + limit], log[..k], log[k..k + limit + 1];
    assert Spent(log[..k + limit + 1], window, now) <= limit;
    assert log[..k + limit + 1] == before + run;
    SpentConcat(before, run, window, now);
    if now < log[k] + window {
      assert Sorted(run) by { SortedSlice(log, k, k + limit + 1); }
      CrowdIsSpent(run, window, now);
    }
  }

  lemma {:induction false} SortedSlice(s: seq<nat>, lo: nat, hi: nat)
    requires Sorted(s) && lo <= hi <= |s|
    ensures Sorted(s[lo..hi])
  {
    forall i, j | 0 <= i < j < hi - lo ensures s[lo..hi][i] <= s[lo..hi][j] {
      assert s[lo..hi][i] == s[lo + i] && s[lo..hi][j] == s[lo + j];
    }
  }

  /** One delivery of a grant log: which permits arrive, in what order, and when. A permit
      arrives at most once, and deliveries may overtake one another. */
  datatype Delivery = Delivery(order: seq<nat>, arrivals: seq<Instant>)
  {
    ghost predicate Of(grants: seq<Instant>, delay: nat, band: nat) {
      && |order| == |arrivals| && Distinct(order) && Sorted(arrivals)
      && forall m :: 0 <= m < |order| ==>
           && order[m] < |grants|
           && grants[order[m]] + delay <= arrivals[m] <= grants[order[m]] + delay + band
    }
  }

  /** If `limit + 1` permits are seen within one provider window, two of them were granted
      more than a limit apart: no delay band up to the margin can bring them together. */
  lemma {:induction false} NoCrowding(grants: seq<Instant>, d: Delivery, delay: nat, band: nat, window: nat, limit: nat,
                                      a: nat)
    requires Spaced(grants, window + band, limit) && d.Of(grants, delay, band)
    requires a + limit < |d.arrivals|
    ensures Expired(d.arrivals[a], window, d.arrivals[a + limit])
  {
    var crowd := d.order[a..a + limit + 1];
    forall i, j | 0 <= i < j < |crowd| ensures crowd[i] != crowd[j] {
      assert crowd[i] == d.order[a + i] && crowd[j] == d.order[a + j];
    }
    var lo, hi := FarApart(crowd);
    var p, q := a + lo, a + hi;
    assert crowd[lo] == d.order[p] && crowd[hi] == d.order[q];
    assert grants[d.order[p]] + window + band <= grants[d.order[p] + limit];
    assert grants[d.order[p] + limit] <= grants[d.order[q]];
    assert d.arrivals[a] <= d.arrivals[p] && d.arrivals[q] <= d.arrivals[a + limit];
  }

  /** Among n distinct indices two lie at least n - 1 apart. */
  lemma {:induction false} FarApart(xs: seq<nat>) returns (lo: nat, hi: nat)
    requires xs != [] && Distinct(xs)
    ensures lo < |xs| && hi < |xs| && xs[lo] + |xs| - 1 <= xs[hi]
  {
    lo, hi := 0, 0;
    for k := 1 to |xs|
      invariant lo < |xs| && hi < |xs|
      invariant forall i :: 0 <= i < k ==> xs[lo] <= xs[i] <= xs[hi]
    {
      if xs[k] < xs[lo] { lo := k; }
      if xs[hi] < xs[k] { hi := k; }
    }
    DistinctFit(xs, xs[lo], xs[hi] + 1);
  }

  /** ZERO VIOLATIONS for a spaced log: at no arrival does the provider's count pass `limit`. */
  lemma {:induction false} NoViolation(grants: seq<Instant>, d: Delivery, delay: nat, band: nat, window: nat,
                                       limit: nat, m: nat)
    requires window > 0 && Spaced(grants, window + band, limit) && d.Of(grants, delay, band)
    requires m < |d.arrivals|
    ensures CountAt(d.arrivals, m, window) <= limit
  {
    OverfullDeque(d.arrivals, m, window, limit);
    if limit <= m {
      NoCrowding(grants, d, delay, band, window, limit, m - limit);
    }
  }

  /** No arrival of this delivery is counted over `limit`. */
  ghost predicate Quiet(d: Delivery, window: nat, limit: nat) {
    forall m :: 0 <= m < |d.arrivals| ==> CountAt(d.arrivals, m, window) <= limit
  }

  // ---- Paced is exactly what an upstream needs ----

  /** The deque is all arrivals but some that have expired, and none that has. */
  ghost predicate HoldsTheWindow(arrivals: seq<Instant>, deque: seq<Instant>, window: nat, now: Instant) {
    DropsExpired(arrivals, deque, window, now) && |deque| == Spent(arrivals, window, now)
  }

  /** The provider's deque holds what is spent in its window. */
  lemma {:induction false} DequeCountsSpent(arrivals: seq<Instant>, window: nat)
    requires Sorted(arrivals) && window > 0 && arrivals != []
    ensures HoldsTheWindow(arrivals, Deque(arrivals, window), window, arrivals[|arrivals| - 1])
  {
    var n := |arrivals| - 1;
    var front := arrivals[..n];
    assert arrivals == front + [arrivals[n]];
    if n > 0 {
      DequeCountsSpent(front, window);
      OneMoreCounts(front, Deque(front, window), window, front[n - 1], arrivals[n]);
    } else {
      OneMoreCounts([], [], window, 0, arrivals[n]);
    }
  }

  lemma {:induction false} OneMoreCounts(front: seq<Instant>, before: seq<Instant>, window: nat, last: Instant,
                                         now: Instant)
    requires Sorted(front) && window > 0 && last <= now && HoldsTheWindow(front, before, window, last)
    ensures HoldsTheWindow(front + [now], Pruned(before, window, now) + [now], window, now)
  {
    var kept := Pruned(before, window, now);
    PrunedDropsExpired(before, window, now);
    DropsCompose(front, before, kept, window, last, now);
    TailCounts(front, kept, window, now);
  }

  lemma {:induction false} TailCounts(front: seq<Instant>, kept: seq<Instant>, window: nat, now: Instant)
    requires Sorted(front) && window > 0
    requires DropsExpired(front, kept, window, now) && (kept != [] ==> !Expired(kept[0], window, now))
    ensures HoldsTheWindow(front + [now], kept + [now], window, now)
  {
    var all := front + [now];
    forall j | 0 <= j < |front| - |kept| ensures Expired(all[j], window, now) {
      assert all[j] == front[j];
    }
    assert all[|front| - |kept|..] == kept + [now];
    SpentConcat(front, [now], window, now);
    SpentAfterDrop(front, kept, window, now, now);
    forall j | 0 <= j < |kept| ensures !Expired(kept[j], window, now) {
      assert kept[0] == front[|front| - |kept|] && kept[j] == front[|front| - |kept| + j];
    }
    SpentBounded(kept, window, now);
    SpentBounded([now], window, now);
  }

  /** No delivery of these grants, with delays varying by at most `band`, is counted over. */
  ghost predicate AlwaysQuiet(grants: seq<Instant>, band: nat, window: nat, limit: nat) {
    forall d: Delivery, delay :: d.Of(grants, delay, band) ==> Quiet(d, window, limit)
  }

  /** WHAT AN UPSTREAM NEEDS. Grants in time order are counted within `limit` in every delivery
      if and only if they were paced within it, in a window longer by the band. */
  lemma {:induction false} QuietIffPaced(grants: seq<Instant>, band: nat, window: nat, limit: nat)
    requires Sorted(grants) && window > 0
    ensures AlwaysQuiet(grants, band, window, limit) <==> PacedLog(grants, window + band, limit)
  {
    if PacedLog(grants, window + band, limit) {
      PacedIsSpaced(grants, window + band, limit);
      forall d: Delivery, delay, m | d.Of(grants, delay, band) && 0 <= m < |d.arrivals|
        ensures CountAt(d.arrivals, m, window) <= limit
      {
        NoViolation(grants, d, delay, band, window, limit, m);
      }
    } else {
      var k :| 0 <= k < |grants| && Spent(grants[..k + 1], window + band, grants[k]) > limit;
      var d := BunchedUp(grants, band, window, k);
      assert d.Of(grants, 0, band) && !Quiet(d, window, limit);
    }
  }

  /** When something granted at `t` arrives if it is held back by `band`, but not past `now`. */
  function HeldBack(t: Instant, band: nat, now: Instant): Instant {
    if t + band < now then t + band else now
  }

  function AllHeldBack(grants: seq<Instant>, band: nat, now: Instant): (late: seq<Instant>)
    ensures |late| == |grants| && forall i :: 0 <= i < |grants| ==> late[i] == HeldBack(grants[i], band, now)
  {
    if grants == [] then []
    else AllHeldBack(grants[..|grants| - 1], band, now) + [HeldBack(grants[|grants| - 1], band, now)]
  }

  lemma {:induction false} HeldBackIsSpent(grants: seq<Instant>, band: nat, window: nat, now: Instant)
    requires window > 0
    ensures Spent(AllHeldBack(grants, band, now), window, now) == Spent(grants, window + band, now)
  {
    if grants != [] {
      HeldBackIsSpent(grants[..|grants| - 1], band, window, now);
    }
  }

  /** The first grants, up to the one at `k`, held back so that all that was in the longer window
      is in the provider's. */
  lemma {:induction false} BunchedUp(grants: seq<Instant>, band: nat, window: nat, k: nat) returns (d: Delivery)
    requires Sorted(grants) && k < |grants| && window > 0
    ensures d.Of(grants, 0, band) && |d.arrivals| == k + 1
    ensures CountAt(d.arrivals, k, window) == Spent(grants[..k + 1], window + band, grants[k])
  {
    var first, now := grants[..k + 1], grants[k];
    d := Delivery(UpTo(k + 1), AllHeldBack(first, band, now));
    HeldBackIsADelivery(grants, band, k, d);
    HeldBackIsSpent(first, band, window, now);
    assert d.arrivals[..k + 1] == d.arrivals && d.arrivals[k] == now;
    assert HoldsTheWindow(d.arrivals, Deque(d.arrivals, window), window, now) by {
      DequeCountsSpent(d.arrivals, window);
    }
  }

  lemma {:induction false} HeldBackIsADelivery(grants: seq<Instant>, band: nat, k: nat, d: Delivery)
    requires Sorted(grants) && k < |grants| && d == Delivery(UpTo(k + 1), AllHeldBack(grants[..k + 1], band, grants[k]))
    ensures d.Of(grants, 0, band)
  {
    forall i | 0 <= i <= k ensures d.arrivals[i] == HeldBack(grants[i], band, grants[k]) && d.order[i] == i {
      assert grants[..k + 1][i] == grants[i];
    }
  }

  ghost predicate MarginSuffices(window: nat, margin: nat, band: nat, limit: nat) {
    forall grants, d: Delivery, delay ::
      Spaced(grants, window + margin, limit) && d.Of(grants, delay, band) ==> Quiet(d, window, limit)
  }

  /** The margin is exactly what is needed. Every spaced log survives every delivery whose
      delays vary by at most `band` if and only if the enforced window exceeds the provider's
      by at least `band`. */
  lemma {:induction false} MarginIsTight(window: nat, margin: nat, band: nat, limit: nat)
    requires window > 0 && limit > 0
    ensures MarginSuffices(window, margin, band, limit) <==> band <= margin
  {
    if band <= margin {
      forall grants, d: Delivery, delay | Spaced(grants, window + margin, limit) && d.Of(grants, delay, band)
        ensures Quiet(d, window, limit)
      {
        assert Spaced(grants, window + band, limit);
        forall m | 0 <= m < |d.arrivals| ensures CountAt(d.arrivals, m, window) <= limit {
          NoViolation(grants, d, delay, band, window, limit, m);
        }
      }
    } else {
      var grants, d := TooLittleMargin(window, margin, band, limit);
    }
  }

  /** `limit` copies of `a`, then `b`. */
  function Burst(a: nat, limit: nat, b: nat): (s: seq<nat>)
    ensures |s| == limit + 1 && s[limit] == b && forall i :: 0 <= i < limit ==> s[i] == a
  {
    Copies(limit, a) + [b]
  }

  /** A burst delayed as long as possible, and one more permit not delayed at all. */
  lemma {:induction false} TooLittleMargin(window: nat, margin: nat, band: nat, limit: nat)
    returns (grants: seq<Instant>, d: Delivery)
    requires window > 0 && limit > 0 && margin < band
    ensures Spaced(grants, window + margin, limit) && d.Of(grants, 0, band) && !Quiet(d, window, limit)
  {
    var gap := window + margin;
    var late: nat := if gap <= band then gap else band;
    grants := Burst(0, limit, gap);
    assert Spaced(grants, gap, limit);
    d := Delivery(UpTo(limit + 1), Burst(late, limit, gap));
    assert d.Of(grants, 0, band);
    BurstCrowds(late, limit, gap, window);
    assert CountAt(d.arrivals, limit, window) > limit;
  }

  lemma {:induction false} BurstCrowds(a: nat, limit: nat, b: nat, window: nat)
    requires a <= b < a + window
    ensures CountAt(Burst(a, limit, b), limit, window) == limit + 1
  {
    var s := Burst(a, limit, b);
    CrowdedDeque(s, window);
    assert s[..limit + 1] == s;
  }

  /** Arrivals all inside one window all stay in the deque. */
  lemma {:induction false} CrowdedDeque(arrivals: seq<Instant>, window: nat)
    requires Sorted(arrivals)
    requires forall i :: 0 <= i < |arrivals| ==> arrivals[|arrivals| - 1] < arrivals[i] + window
    ensures Deque(arrivals, window) == arrivals
  {
    if arrivals != [] {
      var n := |arrivals| - 1;
      var rest := arrivals[..n];
      CrowdedDeque(rest, window);
      UnexpiredStay(rest, window, arrivals[n]);
      assert arrivals == rest + [arrivals[n]];
    }
  }

  /** THE UPSTREAM NEVER SEES A VIOLATION. In every run of the live pool, through every bench
      and rebuild that keeps the key and never rates it above the provider's `limit`, however
      the permits are delayed within a band of the jitter margin and however they overtake one
      another, the provider never counts more than `limit` of them in its own window. */
  lemma {:induction false} UpstreamSeesNoViolation(r: Run, id: LaneId, from: nat, end: nat, providerWindow: nat,
                                                   limit: nat, d: Delivery, delay: nat, m: nat)
    requires r.Valid() && r.Kept(id, from, end)
    requires providerWindow > 0 && r.window == providerWindow + JITTER_MARGIN
    requires forall k :: from <= k < end ==> r.LaneAt(id, k).spec.rpm <= limit
    requires d.Of(r.GrantLog(id, from, end), delay, JITTER_MARGIN) && m < |d.arrivals|
    ensures CountAt(d.arrivals, m, providerWindow) <= limit
  {
    RunIsPaced(r, id, from, end, limit);
    PacedIsSpaced(r.GrantLog(id, from, end), r.window, limit);
    NoViolation(r.GrantLog(id, from, end), d, delay, JITTER_MARGIN, providerWindow, limit, m);
  }

  lemma {:induction false} RunIsPaced(r: Run, id: LaneId, from: nat, end: nat, limit: nat)
    requires r.Valid() && r.Kept(id, from, end)
    requires forall k :: from <= k < end ==> r.LaneAt(id, k).spec.rpm <= limit
    ensures PacedLog(r.GrantLog(id, from, end), r.window, limit)
    decreases end
  {
    if from < end {
      RunIsPaced(r, id, from, end - 1, limit);
      LogIsSorted(r, id, from, end);
      RunStaysPaced(r, id, from, end - 1, limit);
    }
  }

  lemma {:induction false} RunStaysPaced(r: Run, id: LaneId, from: nat, k: nat, limit: nat)
    requires r.Valid() && from <= k < |r.events| && r.Kept(id, from, k + 1) && r.LaneAt(id, k).spec.rpm <= limit
    requires PacedLog(r.GrantLog(id, from, k), r.window, limit) && Sorted(r.GrantLog(id, from, k + 1))
    ensures PacedLog(r.GrantLog(id, from, k + 1), r.window, limit)
  {
    var log := r.GrantLog(id, from, k);
    if r.Grants(id, k) {
      PacedAcrossReconfiguration(r, id, from, k);
      PacedLogGrows(log, r.events[k].now, r.window, limit);
    } else {
      assert r.GrantLog(id, from, k + 1) == log;
    }
  }

  lemma {:induction false} LogIsSorted(r: Run, id: LaneId, from: nat, end: nat)
    requires r.Valid() && r.Kept(id, from, end)
    ensures Sorted(r.GrantLog(id, from, end))
  {
    HitsTrackTheLog(r, id, from, end);
    SortedSuffix(r.LaneAt(id, from).hits, r.GrantLog(id, from, end));
  }

  lemma {:induction false} PacedLogGrows(log: seq<Instant>, now: Instant, window: nat, limit: nat)
    requires PacedLog(log, window, limit) && Sorted(log + [now]) && Spent(log + [now], window, now) <= limit
    ensures PacedLog(log + [now], window, limit)
  {
    var all := log + [now];
    forall k | 0 <= k < |all| ensures Spent(all[..k + 1], window, all[k]) <= limit {
      if k < |log| {
        assert all[..k + 1] == log[..k + 1];
      } else {
        assert all[..k + 1] == all;
      }
    }
  }

  lemma {:induction false} SortedSuffix(a: seq<nat>, b: seq<nat>)
    requires Sorted(a + b)
    ensures Sorted(b)
  {
    forall i, j | 0 <= i < j < |b| ensures b[i] <= b[j] {
      assert (a + b)[|a| + i] == b[i] && (a + b)[|a| + j] == b[j];
    }
  }
}
