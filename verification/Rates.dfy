/** One configuration, from its start: exactly which limits it keeps. */
module Rates {
  import opened Basics
  import opened Windows
  import opened Pools
  import opened Pacing
  import opened Upstream
  import opened Bursts
  import opened Allowances
  import opened Promise

  /** What all the lanes that draw on an allowance may send together. */
  function RateOf(specs: seq<LaneSpec>, meter: Metering, a: Allowance): nat {
    if specs == [] then 0
    else
      var n := |specs| - 1;
      RateOf(specs[..n], meter, a) + if AllowanceOf(meter, specs[n]) == a then specs[n].rpm else 0
  }

  /** A process that has just started on these lanes. */
  ghost function FirstRun(specs: seq<LaneSpec>, window: nat): (r: Run)
    requires LiveSpecs(specs)
    ensures r.Valid() && r.events == [] && r.window == window && Last(r) == Rebuilt([], specs, window)
  {
    var r := Run(window, [Rebuilt([], specs, window)], []);
    FreshPoolStarts(r, specs);
    r
  }

  lemma {:induction false} FreshPoolStarts(r: Run, specs: seq<LaneSpec>)
    requires r.events == [] && r.states == [Rebuilt([], specs, r.window)]
    ensures forall i: nat :: i < |specs| ==> r.StartsFresh(i) && r.states[0][i] == FreshLane(specs[i], r.window)
  {
    forall i: nat | i < |specs| ensures r.StartsFresh(i) && r.states[0][i] == FreshLane(specs[i], r.window) {
      assert r.states[0][i] == Successor([], specs[i], r.window);
    }
  }

  /** No run under this configuration, however delivered, is ever counted over `limit`. */
  ghost predicate SafeAt(specs: seq<LaneSpec>, providerWindow: nat, meter: Metering, a: Allowance, limit: nat)
    requires LiveSpecs(specs)
  {
    SafeFromHere(FirstRun(specs, providerWindow + JITTER_MARGIN), meter, a, limit, providerWindow)
  }

  lemma {:induction false} FreshRoom(pool: PoolView, specs: seq<LaneSpec>, window: nat, meter: Metering, a: Allowance,
                                     t: Instant, n: nat)
    requires LiveSpecs(specs) && n <= |specs| == |pool|
    requires forall i :: 0 <= i < n ==> pool[i] == FreshLane(specs[i], window)
    ensures RoomOn(pool, meter, a, t, n) == RateOf(specs[..n], meter, a)
  {
    if n > 0 {
      FreshRoom(pool, specs, window, meter, a, t, n - 1);
      assert specs[..n][..n - 1] == specs[..n - 1];
    } else {
      assert specs[..0] == [];
    }
  }

  /** EXACTLY WHEN A LIMIT IS SAFE. Under one configuration, the upstream never counts an allowance
      over `limit`, in any run and any delivery within the margin, if and only if the lanes that
      draw on it may send no more than that together. */
  lemma {:induction false} SafeIffRatesFit(specs: seq<LaneSpec>, providerWindow: nat, meter: Metering, a: Allowance,
                                           limit: nat)
    requires LiveSpecs(specs) && providerWindow > 0
    ensures SafeAt(specs, providerWindow, meter, a, limit) <==> RateOf(specs, meter, a) <= limit
  {
    var r := FirstRun(specs, providerWindow + JITTER_MARGIN);
    SafeFromHereIffItFits(r, meter, a, limit, providerWindow);
    FreshPoolStarts(r, specs);
    forall t: Instant ensures FitsAt([], r.window, Last(r), meter, a, limit, t) <==> RateOf(specs, meter, a) <= limit {
      FreshRoom(Last(r), specs, r.window, meter, a, t, |specs|);
      assert specs[..|specs|] == specs;
    }
    assert FitsFrom([], r.window, Last(r), meter, a, limit, 0) ==> FitsAt([], r.window, Last(r), meter, a, limit, 0);
  }

  lemma {:induction false} RateGrows(specs: seq<LaneSpec>, meter: Metering, a: Allowance, n: nat)
    requires 0 < n <= |specs|
    ensures RateOf(specs[..n], meter, a) == RateOf(specs[..n - 1], meter, a)
                                            + if AllowanceOf(meter, specs[n - 1]) == a then specs[n - 1].rpm else 0
  {
    assert specs[..n][..n - 1] == specs[..n - 1];
  }

  /** So the promise holds at a lane's own rate if and only if no other lane draws on what it
      draws on. */
  lemma {:induction false} SafeAtItsOwnRateIffUnshared(specs: seq<LaneSpec>, providerWindow: nat, meter: Metering,
                                                       i: nat)
    requires LiveSpecs(specs) && providerWindow > 0 && i < |specs|
    ensures SafeAt(specs, providerWindow, meter, AllowanceOf(meter, specs[i]), specs[i].rpm) <==>
              Unshared(specs, meter, i)
  {
    SafeIffRatesFit(specs, providerWindow, meter, AllowanceOf(meter, specs[i]), specs[i].rpm);
    OwnRateIff(specs, meter, i, |specs|);
    assert specs[..|specs|] == specs;
  }

  ghost predicate Unshared(specs: seq<LaneSpec>, meter: Metering, i: nat)
    requires i < |specs|
  {
    forall j :: 0 <= j < |specs| && j != i ==> AllowanceOf(meter, specs[j]) != AllowanceOf(meter, specs[i])
  }

  lemma {:induction false} OwnRateIff(specs: seq<LaneSpec>, meter: Metering, i: nat, n: nat)
    requires LiveSpecs(specs) && i < |specs| && n <= |specs|
    ensures var a := AllowanceOf(meter, specs[i]);
      && (i < n ==> RateOf(specs[..n], meter, a) >= specs[i].rpm)
      && (RateOf(specs[..n], meter, a) == (if i < n then specs[i].rpm else 0) <==>
            forall j :: 0 <= j < n && j != i ==> AllowanceOf(meter, specs[j]) != a)
  {
    if n == 0 {
      assert specs[..0] == [];
    } else {
      OwnRateIff(specs, meter, i, n - 1);
      RateGrows(specs, meter, AllowanceOf(meter, specs[i]), n);
    }
  }
}
