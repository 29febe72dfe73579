/** The lock-free concurrency cap: claim first with one atomic add, hand back on refusal. */
module Admission {
  import opened Basics

  /** `holders` have a live guard; `undoing` were refused and have not yet handed back. */
  datatype Shared = Shared(counter: int, holders: set<nat>, undoing: set<nat>)

  /** The atomic steps of the callers, in any interleaving. Each claim brings the cap it read. */
  datatype Step = FetchAdd(caller: nat, max: nat) | Undo(caller: nat) | DropGuard(caller: nat)

  const IDLE := Shared(0, {}, {})

  function Next(s: Shared, step: Step): Shared {
    match step
    case FetchAdd(c, max) =>
      if c in s.holders || c in s.undoing then s
      else if s.counter >= max then s.(counter := s.counter + 1, undoing := s.undoing + {c})
      else s.(counter := s.counter + 1, holders := s.holders + {c})
    case Undo(c) =>
      if c in s.undoing then s.(counter := s.counter - 1, undoing := s.undoing - {c}) else s
    case DropGuard(c) =>
      if c in s.holders then s.(counter := s.counter - 1, holders := s.holders - {c}) else s
  }

  function After(steps: seq<Step>): Shared {
    if steps == [] then IDLE else Next(After(steps[..|steps| - 1]), steps[|steps| - 1])
  }

  ghost predicate Exact(s: Shared) {
    s.counter == |s.holders| + |s.undoing| && s.holders !! s.undoing
  }

  /** EXACT COUNT. In every interleaving the counter is the live guards plus the refusals not
      yet undone; so it never goes negative. */
  lemma {:induction false} CounterIsExact(steps: seq<Step>)
    ensures Exact(After(steps)) && 0 <= After(steps).counter
  {
    if steps != [] {
      CounterIsExact(steps[..|steps| - 1]);
      StepStaysExact(After(steps[..|steps| - 1]), steps[|steps| - 1]);
    }
  }

  lemma {:induction false} StepStaysExact(s: Shared, step: Step)
    requires Exact(s)
    ensures Exact(Next(s, step))
  {
    if step.FetchAdd? {
      ClaimStaysExact(s, step);
    }
  }

  lemma {:induction false} ClaimStaysExact(s: Shared, step: Step)
    requires Exact(s) && step.FetchAdd?
    ensures Exact(Next(s, step))
  {
  }

  /** Handing back takes one off and leaves no trace of the caller, nor any mark on the others; so
      does a guard's drop. */
  lemma {:induction false} HandingBackTakesOne(steps: seq<Step>, caller: nat)
    ensures var s, s' := After(steps), Next(After(steps), Undo(caller));
      && (caller in s.undoing ==>
            s'.counter == s.counter - 1 && s'.undoing == s.undoing - {caller} && s'.holders == s.holders - {caller})
      && (caller !in s.undoing ==> s' == s)
    ensures var s, s' := After(steps), Next(After(steps), DropGuard(caller));
      && (caller in s.holders ==>
            s'.counter == s.counter - 1 && s'.holders == s.holders - {caller} && s'.undoing == s.undoing - {caller})
      && (caller !in s.holders ==> s' == s)
  {
    CounterIsExact(steps);
  }

  function From(s: Shared, steps: seq<Step>): Shared {
    if steps == [] then s else Next(From(s, steps[..|steps| - 1]), steps[|steps| - 1])
  }

  /** Steps that start nothing new, undo every refusal pending in `s` and drop every guard. */
  ghost predicate WindsUp(s: Shared, more: seq<Step>) {
    && (forall k :: 0 <= k < |more| ==> !more[k].FetchAdd?)
    && (forall c :: c in s.undoing ==> Undo(c) in more)
    && (forall c :: c in s.holders ==> DropGuard(c) in more)
  }

  lemma {:induction false} OnlyUntouchedRemain(s: Shared, more: seq<Step>)
    requires Exact(s) && forall k :: 0 <= k < |more| ==> !more[k].FetchAdd?
    ensures Exact(From(s, more))
    ensures forall c :: c in From(s, more).undoing <==> c in s.undoing && Undo(c) !in more
    ensures forall c :: c in From(s, more).holders <==> c in s.holders && DropGuard(c) !in more
  {
    if more != [] {
      var n := |more| - 1;
      OnlyUntouchedRemain(s, more[..n]);
      StepStaysExact(From(s, more[..n]), more[n]);
      assert more == more[..n] + [more[n]];
    }
  }

  /** NOTHING LEAKS. From every run, once each pending refusal has been undone and each guard
      dropped, in whatever order, the counter is back at zero and the next claim, under any cap
      but zero, is admitted. */
  lemma {:induction false} NothingLeaks(steps: seq<Step>, more: seq<Step>, caller: nat, max: nat)
    requires WindsUp(After(steps), more) && max > 0
    ensures From(After(steps), more) == IDLE
    ensures caller in Next(From(After(steps), more), FetchAdd(caller, max)).holders
  {
    CounterIsExact(steps);
    OnlyUntouchedRemain(After(steps), more);
    var s := From(After(steps), more);
    assert s.undoing == {} && s.holders == {};
  }

  /** NO OVERSHOOT. The moment a claim succeeds, live guards are within the cap it was made
      under, whatever the other callers were in the middle of. */
  lemma {:induction false} AdmittedWithinCap(steps: seq<Step>, caller: nat, max: nat)
    requires caller !in After(steps).holders && caller in Next(After(steps), FetchAdd(caller, max)).holders
    ensures |Next(After(steps), FetchAdd(caller, max)).holders| <= max
  {
    CounterIsExact(steps);
  }

  lemma {:induction false} NeverAboveTheCap(steps: seq<Step>, max: nat)
    requires forall i :: 0 <= i < |steps| && steps[i].FetchAdd? ==> steps[i].max <= max
    ensures |After(steps).holders| <= max
  {
    if steps != [] {
      var n := |steps| - 1;
      NeverAboveTheCap(steps[..n], max);
      CounterIsExact(steps[..n]);
    }
  }

  /** A refusal can be spurious: it happens below the cap exactly when refusals still waiting
      to be undone make up the difference. With none pending every refusal is honest. */
  lemma {:induction false} RefusalBelowCapIffUndosPending(steps: seq<Step>, caller: nat, max: nat)
    requires caller !in After(steps).holders && caller !in After(steps).undoing && |After(steps).holders| < max
    ensures caller !in Next(After(steps), FetchAdd(caller, max)).holders
        <==> |After(steps).undoing| >= max - |After(steps).holders|
  {
    CounterIsExact(steps);
  }

  /** It does happen: under a cap of one, a caller is turned away although nobody holds a guard. */
  lemma {:induction false} SpuriousRefusal()
    ensures var s := After([FetchAdd(0, 1), FetchAdd(1, 1), DropGuard(0), FetchAdd(2, 1)]);
      s.holders == {} && 2 in s.undoing
  {
    var a: seq<Step> := [FetchAdd(0, 1)];
    var b := a + [FetchAdd(1, 1)];
    var c := b + [DropGuard(0)];
    var d := c + [FetchAdd(2, 1)];
    assert a[..0] == [] && b[..1] == a && c[..2] == b && d[..3] == c;
    assert After(a) == Shared(1, {0}, {});
    assert After(b) == Shared(2, {0}, {1});
    assert After(c) == Shared(1, {}, {1});
    assert After(d) == Shared(2, {}, {1, 2});
    assert d == [FetchAdd(0, 1), FetchAdd(1, 1), DropGuard(0), FetchAdd(2, 1)];
  }
}
