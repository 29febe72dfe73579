/** What one upstream counts. It knows a request by what it is sent, so several lanes may draw on
    one allowance there, at once or one after another. */
module Allowances {
  import opened Basics
  import opened Windows
  import opened Pools
  import opened Pacing
  import opened Upstream
  import opened Bursts
  import opened Renewal

  /** One budget somewhere: a server, and what that server takes for the caller's identity. */
  datatype Allowance = Allowance(server: string, credential: string)

  /** Which allowance a request draws on: any function of the base URL it is sent to, the key it
      is sent with and the protocol that says how. */
  type Metering = (string, string, Protocol) -> Allowance

  function AllowanceOf(meter: Metering, spec: LaneSpec): Allowance {
    meter(spec.baseUrl, spec.key, spec.protocol)
  }

  /** Event `k` is a grant that draws on `a`. */
  ghost predicate Draws(r: Run, meter: Metering, a: Allowance, k: nat) {
    && k < |r.events| && k < |r.states|
    && r.events[k].Acquire?
    && r.events[k].granted.Some?
    && r.events[k].granted.value < |r.states[k]|
    && AllowanceOf(meter, r.states[k][r.events[k].granted.value].spec) == a
  }

  /** The lane whose grant event `k` is. */
  ghost function Drawer(r: Run, meter: Metering, a: Allowance, k: nat): LaneId
    requires Draws(r, meter, a, k)
  {
    r.states[k][r.events[k].granted.value].Id()
  }

  /** The times of the grants that draw on `a` among events [from, end), on whatever lane. */
  ghost function DrawLog(r: Run, meter: Metering, a: Allowance, from: nat, end: nat): seq<Instant>
    requires from <= end <= |r.events|
    decreases end
  {
    if from == end then []
    else DrawLog(r, meter, a, from, end - 1) + if Draws(r, meter, a, end - 1) then [r.events[end - 1].now] else []
  }

  function Sum(xs: seq<nat>): nat {
    if xs == [] then 0 else Sum(xs[..|xs| - 1]) + xs[|xs| - 1]
  }

  /** What grows at one place by `more`, and shrinks nowhere, grows by that much in all. */
  lemma {:induction false} SumGrows(xs: seq<nat>, ys: seq<nat>, i: nat, more: nat)
    requires |xs| == |ys| && forall j :: 0 <= j < |xs| ==> xs[j] <= ys[j]
    requires more > 0 ==> i < |xs| && xs[i] + more <= ys[i]
    ensures Sum(xs) + more <= Sum(ys)
  {
    if xs != [] {
      var n := |xs| - 1;
      SumGrows(xs[..n], ys[..n], i, if i < n then more else 0);
    }
  }

  /** Budget spent on each of these lanes. */
  ghost function SpentOnEach(r: Run, ids: seq<LaneId>, from: nat, end: nat, now: Instant): (spent: seq<nat>)
    requires from <= end <= |r.events|
    ensures |spent| == |ids| && forall i :: 0 <= i < |ids| ==> spent[i] == SpentBy(r, ids[i], from, end, now)
  {
    seq(|ids|, i requires 0 <= i < |ids| => SpentBy(r, ids[i], from, end, now))
  }

  ghost function SpentBy(r: Run, id: LaneId, from: nat, end: nat, now: Instant): nat
    requires from <= end <= |r.events|
  {
    Spent(r.GrantLog(id, from, end), r.window, now)
  }

  /** Budget spent on these lanes together. */
  ghost function SpentOn(r: Run, ids: seq<LaneId>, from: nat, end: nat, now: Instant): nat
    requires from <= end <= |r.events|
  {
    Sum(SpentOnEach(r, ids, from, end, now))
  }

  /** Whatever draws on `a` among events [from, end) is one of these lanes. */
  ghost predicate DrawnBy(r: Run, meter: Metering, a: Allowance, ids: seq<LaneId>, from: nat, end: nat)
    requires from <= end <= |r.events|
  {
    forall k :: from <= k < end ==> DrawnByAt(r, meter, a, ids, k)
  }

  ghost predicate DrawnByAt(r: Run, meter: Metering, a: Allowance, ids: seq<LaneId>, k: nat)
    requires k < |r.events|
  {
    Draws(r, meter, a, k) ==> Drawer(r, meter, a, k) in ids
  }

  // ---- The merged log spends no more than its lanes together ----

  lemma {:induction false} GrantSpends(r: Run, id: LaneId, from: nat, k: nat, now: Instant)
    requires from <= k < |r.events|
    ensures SpentBy(r, id, from, k, now) <= SpentBy(r, id, from, k + 1, now)
    ensures r.Grants(id, k) ==>
              SpentBy(r, id, from, k + 1, now) == SpentBy(r, id, from, k, now) + Spent([r.events[k].now], r.window, now)
  {
    var log := r.GrantLog(id, from, k);
    if r.Grants(id, k) {
      SpentConcat(log, [r.events[k].now], r.window, now);
    } else {
      assert log + [] == log;
    }
  }

  /** A grant on one of the lanes counts on that one at least. */
  lemma {:induction false} SpentOnGrows(r: Run, ids: seq<LaneId>, from: nat, k: nat, now: Instant, i: nat, more: nat)
    requires from <= k < |r.events|
    requires more > 0 ==> i < |ids| && r.Grants(ids[i], k) && more == Spent([r.events[k].now], r.window, now)
    ensures SpentOn(r, ids, from, k, now) + more <= SpentOn(r, ids, from, k + 1, now)
  {
    forall j | 0 <= j < |ids| ensures SpentBy(r, ids[j], from, k, now) <= SpentBy(r, ids[j], from, k + 1, now) {
      GrantSpends(r, ids[j], from, k, now);
    }
    if more > 0 {
      GrantSpends(r, ids[i], from, k, now);
    }
    SumGrows(SpentOnEach(r, ids, from, k, now), SpentOnEach(r, ids, from, k + 1, now), i, more);
  }

  ghost predicate MergedWithin(r: Run, meter: Metering, a: Allowance, ids: seq<LaneId>, from: nat, end: nat,
                               now: Instant)
    requires from <= end <= |r.events|
  {
    Spent(DrawLog(r, meter, a, from, end), r.window, now) <= SpentOn(r, ids, from, end, now)
  }

  lemma {:induction false} DrawnForLess(r: Run, meter: Metering, a: Allowance, ids: seq<LaneId>, from: nat, end: nat)
    requires from < end <= |r.events| && DrawnBy(r, meter, a, ids, from, end)
    ensures DrawnBy(r, meter, a, ids, from, end - 1) && DrawnByAt(r, meter, a, ids, end - 1)
  {
    forall k | from <= k < end ensures DrawnByAt(r, meter, a, ids, k) {
    }
  }

  lemma {:induction false} MergedSpendsNoMore(r: Run, meter: Metering, a: Allowance, ids: seq<LaneId>,
                                              from: nat, end: nat, now: Instant)
    requires from <= end <= |r.events| && DrawnBy(r, meter, a, ids, from, end)
    ensures MergedWithin(r, meter, a, ids, from, end, now)
    decreases end
  {
    if from == end {
      assert DrawLog(r, meter, a, from, end) == [];
    } else {
      DrawnForLess(r, meter, a, ids, from, end);
      MergedSpendsNoMore(r, meter, a, ids, from, end - 1, now);
      MergedStep(r, meter, a, ids, from, end - 1, now);
    }
  }

  lemma {:induction false} MergedStep(r: Run, meter: Metering, a: Allowance, ids: seq<LaneId>,
                                      from: nat, k: nat, now: Instant)
    requires from <= k < |r.events| && DrawnByAt(r, meter, a, ids, k) && MergedWithin(r, meter, a, ids, from, k, now)
    ensures MergedWithin(r, meter, a, ids, from, k + 1, now)
  {
    var log := DrawLog(r, meter, a, from, k);
    if Draws(r, meter, a, k) {
      var i :| 0 <= i < |ids| && ids[i] == Drawer(r, meter, a, k);
      assert r.Grants(ids[i], k);
      SpentOnGrows(r, ids, from, k, now, i, Spent([r.events[k].now], r.window, now));
      SpentConcat(log, [r.events[k].now], r.window, now);
    } else {
      assert DrawLog(r, meter, a, from, k + 1) == log;
      SpentOnGrows(r, ids, from, k, now, 0, 0);
    }
  }

  lemma {:induction false} DrawLogIsPast(r: Run, meter: Metering, a: Allowance, from: nat, end: nat)
    requires r.Valid() && from <= end <= |r.events|
    ensures AllAtMost(DrawLog(r, meter, a, from, end), r.Clock(end)) && Sorted(DrawLog(r, meter, a, from, end))
    decreases end
  {
    if from < end {
      DrawLogIsPast(r, meter, a, from, end - 1);
      ClockAdvances(r, end - 1, end);
    }
  }

  // ---- One limit for every life of every lane that draws ----

  /** For each of these lanes, its limit once for each of its lives. */
  ghost function Allotted(r: Run, ids: seq<LaneId>, limits: seq<nat>, from: nat, end: nat): (each: seq<nat>)
    requires from <= end <= |r.events| && |limits| == |ids|
    ensures |each| == |ids| && forall i :: 0 <= i < |ids| ==> each[i] == Lives(r, ids[i], from, end) * limits[i]
  {
    seq(|ids|, i requires 0 <= i < |ids| => Lives(r, ids[i], from, end) * limits[i])
  }

  ghost function Allotments(r: Run, ids: seq<LaneId>, limits: seq<nat>, from: nat, end: nat): nat
    requires from <= end <= |r.events| && |limits| == |ids|
  {
    Sum(Allotted(r, ids, limits, from, end))
  }

  ghost predicate AllRatedWithin(r: Run, ids: seq<LaneId>, limits: seq<nat>, from: nat, end: nat)
    requires from <= end <= |r.events|
  {
    |limits| == |ids| && forall i :: 0 <= i < |ids| ==> RatedWithin(r, ids[i], from, end, limits[i])
  }

  lemma {:induction false} LanesStayWithin(r: Run, ids: seq<LaneId>, limits: seq<nat>, from: nat, end: nat,
                                           now: Instant)
    requires r.Valid() && from <= end <= |r.events| && AllRatedWithin(r, ids, limits, from, end) && r.Clock(end) <= now
    ensures SpentOn(r, ids, from, end, now) <= Allotments(r, ids, limits, from, end)
  {
    var spent, allotted := SpentOnEach(r, ids, from, end, now), Allotted(r, ids, limits, from, end);
    forall i | 0 <= i < |ids| ensures spent[i] <= allotted[i] {
      EachFreshStartCostsOneLimit(r, ids[i], from, end, limits[i], now);
    }
    SumGrows(spent, allotted, 0, 0);
  }

  lemma {:induction false} AllotmentsGrow(r: Run, ids: seq<LaneId>, limits: seq<nat>, from: nat, k: nat, end: nat)
    requires r.Valid() && from <= k <= end <= |r.events| && |limits| == |ids|
    ensures Allotments(r, ids, limits, from, k) <= Allotments(r, ids, limits, from, end)
  {
    var before, after := Allotted(r, ids, limits, from, k), Allotted(r, ids, limits, from, end);
    forall i | 0 <= i < |ids| ensures before[i] <= after[i] {
      FreshStartsGrow(r, ids[i], from, k, end, limits[i]);
    }
    SumGrows(before, after, 0, 0);
  }

  lemma {:induction false} RatedForLess(r: Run, ids: seq<LaneId>, limits: seq<nat>, from: nat, k: nat, end: nat)
    requires from <= k <= end <= |r.events| && AllRatedWithin(r, ids, limits, from, end)
    ensures AllRatedWithin(r, ids, limits, from, k)
  {
    forall i | 0 <= i < |ids| ensures RatedWithin(r, ids[i], from, k, limits[i]) {
      forall j | from <= j < k ensures RatedAt(r, ids[i], j, limits[i]) {
        assert RatedWithin(r, ids[i], from, end, limits[i]);
      }
    }
  }

  lemma {:induction false} AllowanceIsPaced(r: Run, meter: Metering, a: Allowance, ids: seq<LaneId>, limits: seq<nat>,
                                            from: nat, k: nat, most: nat)
    requires r.Valid() && from <= k <= |r.events|
    requires DrawnBy(r, meter, a, ids, from, k) && AllRatedWithin(r, ids, limits, from, k)
    requires Allotments(r, ids, limits, from, k) <= most
    ensures PacedLog(DrawLog(r, meter, a, from, k), r.window, most)
    decreases k
  {
    if from < k {
      DrawnForLess(r, meter, a, ids, from, k);
      RatedForLess(r, ids, limits, from, k - 1, k);
      AllotmentsGrow(r, ids, limits, from, k - 1, k);
      AllowanceIsPaced(r, meter, a, ids, limits, from, k - 1, most);
      if Draws(r, meter, a, k - 1) {
        DrawStaysPaced(r, meter, a, ids, limits, from, k, most);
      } else {
        assert DrawLog(r, meter, a, from, k) == DrawLog(r, meter, a, from, k - 1);
      }
    }
  }

  lemma {:induction false} DrawStaysPaced(r: Run, meter: Metering, a: Allowance, ids: seq<LaneId>, limits: seq<nat>,
                                          from: nat, k: nat, most: nat)
    requires r.Valid() && from < k <= |r.events| && Draws(r, meter, a, k - 1)
    requires DrawnBy(r, meter, a, ids, from, k) && AllRatedWithin(r, ids, limits, from, k)
    requires Allotments(r, ids, limits, from, k) <= most
    requires PacedLog(DrawLog(r, meter, a, from, k - 1), r.window, most)
    ensures PacedLog(DrawLog(r, meter, a, from, k), r.window, most)
  {
    var log, now := DrawLog(r, meter, a, from, k - 1), r.events[k - 1].now;
    assert DrawLog(r, meter, a, from, k) == log + [now];
    assert Spent(log + [now], r.window, now) <= most by {
      MergedSpendsNoMore(r, meter, a, ids, from, k, now);
      LanesStayWithin(r, ids, limits, from, k, now);
    }
    assert Sorted(log + [now]) by { DrawLogIsPast(r, meter, a, from, k); }
    PacedLogGrows(log, now, r.window, most);
  }

  // ---- The lanes that ever draw, and their highest rates ----

  ghost function Drawers(r: Run, meter: Metering, a: Allowance, from: nat, end: nat): (ids: seq<LaneId>)
    requires from <= end <= |r.events|
    decreases end
  {
    if from == end then []
    else
      var before := Drawers(r, meter, a, from, end - 1);
      if Draws(r, meter, a, end - 1) && Drawer(r, meter, a, end - 1) !in before
      then before + [Drawer(r, meter, a, end - 1)]
      else before
  }

  lemma {:induction false} DrawersDraw(r: Run, meter: Metering, a: Allowance, from: nat, end: nat)
    requires from <= end <= |r.events|
    ensures DrawnBy(r, meter, a, Drawers(r, meter, a, from, end), from, end)
    ensures Distinct(Drawers(r, meter, a, from, end))
    decreases end
  {
    if from < end {
      var before := Drawers(r, meter, a, from, end - 1);
      DrawersDraw(r, meter, a, from, end - 1);
      forall k | from <= k < end ensures DrawnByAt(r, meter, a, Drawers(r, meter, a, from, end), k) {
        assert k < end - 1 ==> DrawnByAt(r, meter, a, before, k);
      }
    }
  }

  /** The highest rate `id` has in that time. */
  ghost function Peak(r: Run, id: LaneId, from: nat, end: nat): nat
    requires from <= end <= |r.events|
    decreases end
  {
    if from == end then 0
    else
      var before := Peak(r, id, from, end - 1);
      if r.Has(id, end - 1) && r.LaneAt(id, end - 1).spec.rpm > before then r.LaneAt(id, end - 1).spec.rpm else before
  }

  ghost function Peaks(r: Run, ids: seq<LaneId>, from: nat, end: nat): (limits: seq<nat>)
    requires from <= end <= |r.events|
    ensures |limits| == |ids| && forall i :: 0 <= i < |ids| ==> limits[i] == Peak(r, ids[i], from, end)
  {
    if ids == [] then [] else Peaks(r, ids[..|ids| - 1], from, end) + [Peak(r, ids[|ids| - 1], from, end)]
  }

  lemma {:induction false} PeakIsHighest(r: Run, id: LaneId, from: nat, end: nat, limit: nat)
    requires from <= end <= |r.events| && Peak(r, id, from, end) <= limit
    ensures RatedWithin(r, id, from, end, limit)
    decreases end
  {
    if from < end {
      PeakIsHighest(r, id, from, end - 1, limit);
      forall k | from <= k < end ensures RatedAt(r, id, k, limit) {
        assert k < end - 1 ==> RatedAt(r, id, k, limit);
      }
    }
  }

  /** THE MOST AN UPSTREAM EVER SEES. In every run, through every bench, rebuild and restart,
      whichever lanes come to draw on an allowance and however long each is kept: however the
      permits are delayed within a band of the jitter margin and however they overtake one
      another, the upstream never counts more than the highest rate of each lane that ever drew on
      it, once for each life of that lane. */
  lemma {:induction false} UpstreamSeesAtMostTheAllotments(r: Run, meter: Metering, a: Allowance, from: nat, end: nat,
                                                           providerWindow: nat, d: Delivery, delay: nat, m: nat)
    requires r.Valid() && from <= end <= |r.events|
    requires providerWindow > 0 && r.window == providerWindow + JITTER_MARGIN
    requires d.Of(DrawLog(r, meter, a, from, end), delay, JITTER_MARGIN) && m < |d.arrivals|
    ensures var ids := Drawers(r, meter, a, from, end);
            CountAt(d.arrivals, m, providerWindow) <= Allotments(r, ids, Peaks(r, ids, from, end), from, end)
  {
    var ids := Drawers(r, meter, a, from, end);
    var limits := Peaks(r, ids, from, end);
    DrawersDraw(r, meter, a, from, end);
    forall i | 0 <= i < |ids| ensures RatedWithin(r, ids[i], from, end, limits[i]) {
      PeakIsHighest(r, ids[i], from, end, limits[i]);
    }
    CountWithinAllotments(r, meter, a, ids, limits, from, end, providerWindow, d, delay, m);
  }

  lemma {:induction false} CountWithinAllotments(r: Run, meter: Metering, a: Allowance, ids: seq<LaneId>,
                                                 limits: seq<nat>, from: nat, end: nat, providerWindow: nat,
                                                 d: Delivery, delay: nat, m: nat)
    requires r.Valid() && from <= end <= |r.events|
    requires DrawnBy(r, meter, a, ids, from, end) && AllRatedWithin(r, ids, limits, from, end)
    requires providerWindow > 0 && r.window == providerWindow + JITTER_MARGIN
    requires d.Of(DrawLog(r, meter, a, from, end), delay, JITTER_MARGIN) && m < |d.arrivals|
    ensures CountAt(d.arrivals, m, providerWindow) <= Allotments(r, ids, limits, from, end)
  {
    var most := Allotments(r, ids, limits, from, end);
    AllowanceIsPaced(r, meter, a, ids, limits, from, end, most);
    PacedIsSpaced(DrawLog(r, meter, a, from, end), r.window, most);
    NoViolation(DrawLog(r, meter, a, from, end), d, delay, JITTER_MARGIN, providerWindow, most, m);
  }

  // ---- Lanes that are kept throughout ----

  /** Each of these lanes is kept throughout, within its own limit. */
  ghost predicate KeptWithin(r: Run, ids: seq<LaneId>, limits: seq<nat>, from: nat, end: nat)
    requires from <= end <= |r.events|
  {
    AllRatedWithin(r, ids, limits, from, end) && forall i :: 0 <= i < |ids| ==> r.Kept(ids[i], from, end)
  }

  lemma {:induction false} KeptLivesOnce(r: Run, id: LaneId, from: nat, end: nat)
    requires r.Kept(id, from, end)
    ensures FreshStarts(r, id, from, end) == 0 && Lives(r, id, from, end) == 1
    decreases end
  {
    if from < end {
      KeptLivesOnce(r, id, from, end - 1);
      assert Carried(r, id, end - 1);
    }
  }

  lemma {:induction false} KeptAllotments(r: Run, ids: seq<LaneId>, limits: seq<nat>, from: nat, end: nat)
    requires from <= end <= |r.events| && KeptWithin(r, ids, limits, from, end)
    ensures Allotments(r, ids, limits, from, end) == Sum(limits)
  {
    forall i | 0 <= i < |ids| ensures Lives(r, ids[i], from, end) * limits[i] == limits[i] {
      KeptLivesOnce(r, ids[i], from, end);
    }
    assert Allotted(r, ids, limits, from, end) == limits;
  }

  /** So if the lanes that draw on an allowance are kept throughout, the upstream never counts more
      than their limits together. */
  lemma {:induction false} UpstreamSeesAtMostTheSum(r: Run, meter: Metering, a: Allowance, ids: seq<LaneId>,
                                                    limits: seq<nat>, from: nat, end: nat, providerWindow: nat,
                                                    d: Delivery, delay: nat, m: nat)
    requires r.Valid() && from <= end <= |r.events|
    requires DrawnBy(r, meter, a, ids, from, end) && KeptWithin(r, ids, limits, from, end)
    requires providerWindow > 0 && r.window == providerWindow + JITTER_MARGIN
    requires d.Of(DrawLog(r, meter, a, from, end), delay, JITTER_MARGIN) && m < |d.arrivals|
    ensures CountAt(d.arrivals, m, providerWindow) <= Sum(limits)
  {
    KeptAllotments(r, ids, limits, from, end);
    CountWithinAllotments(r, meter, a, ids, limits, from, end, providerWindow, d, delay, m);
  }
}
