/** What is sent is what is counted: a permit says where its request goes, and that is the lane it
    was granted on. */
module Sends {
  import opened Basics
  import opened Windows
  import opened Pools
  import opened Pacing
  import opened Upstream
  import opened Rendezvous
  import opened Dispatch
  import opened Bursts
  import opened G = Gate
  import opened Allowances
  import opened Promise

  /** The permits handed out whose requests draw on `a`, by what they are sent with. */
  function SentTimes(answered: seq<G.Answered>, meter: Metering, a: Allowance): seq<Instant> {
    if answered == [] then []
    else
      var n := |answered| - 1;
      SentTimes(answered[..n], meter, a) + if SendsTo(answered[n], meter, a) then [answered[n].at] else []
  }

  predicate SendsTo(answer: G.Answered, meter: Metering, a: Allowance) {
    answer.permit.Some? &&
    var p := answer.permit.value;
    meter(p.baseUrl, p.key, p.protocol) == a
  }

  /** A turn's permit carries, field by field, what its lane has: so whatever an upstream goes by,
      the request draws on the lane's own allowance. */
  lemma {:induction false} PermitsCarryTheirLane(pool: PoolView, q: Request, weigh: Weigh, now: Instant,
                                                 permit: Permit)
    requires forall i :: 0 <= i < |pool| ==> pool[i].spec.rpm > 0
    requires TurnOf(pool, q, weigh, now).1 == Answer(Some(permit))
    ensures permit.laneIdx < |pool|
    ensures var s := pool[permit.laneIdx].spec;
      && permit.provider == s.provider && permit.baseUrl == s.baseUrl
      && permit.key == s.key && permit.protocol == s.protocol
      && forall meter: Metering :: meter(permit.baseUrl, permit.key, permit.protocol) == AllowanceOf(meter, s)
  {
    TurnsAreSettled(pool, q, weigh, now);
  }

  /** The gate's permits by allowance are its run's draws. */
  ghost predicate Sent(r: Run, g: G.Gate, meter: Metering, a: Allowance) {
    LogOf(r, meter, a) == SentTimes(g.answered, meter, a)
  }

  /** WHAT IS SENT IS WHAT IS COUNTED. Over any arrivals, turns, cancellations, benches and swaps,
      and whatever an upstream goes by: the permits whose requests draw on an allowance are, one
      for one and at the same times, the grants that the lanes' specs charge to it. */
  lemma {:induction false} SentIsCounted(place: Place, steps: seq<Step>, meter: Metering, a: Allowance)
    requires Playable(place, steps)
    ensures RunOf(place, steps).Valid() && Sent(RunOf(place, steps), After(place, steps), meter, a)
  {
    StepsMakeARun(place, steps);
    if steps != [] {
      var n := |steps| - 1;
      var r, g := RunOf(place, steps[..n]), After(place, steps[..n]);
      SentIsCounted(place, steps[..n], meter, a);
      StepsMakeARun(place, steps[..n]);
      match steps[n]
      case Turn(name) => TurnIsSent(place, r, g, name, meter, a);
      case Bench(lane, header) =>
        NothingDrawn(r, Event.Bench(g.now, lane, header), After(place, steps).pool, meter, a);
      case Swap(specs) => NothingDrawn(r, Rebuild(specs), After(place, steps).pool, meter, a);
      case _ =>
    }
  }

  lemma {:induction false} NothingDrawn(r: Run, e: Event, s': PoolView, meter: Metering, a: Allowance)
    requires r.Valid() && Then(r, e, s').Valid() && !e.Acquire?
    ensures LogOf(Then(r, e, s'), meter, a) == LogOf(r, meter, a)
  {
    DrawLogExtends(r, Then(r, e, s'), meter, a, 0, |r.events|);
  }

  lemma {:induction false} TurnIsSent(place: Place, r: Run, g: G.Gate, name: nat, meter: Metering, a: Allowance)
    requires Tells(r, g) && Enabled(g, Turn(name)) && Sent(r, g, meter, a)
    ensures var e := Acquire(g.now, GrantedBy(g.pool, g.holder.value.q, place.weigh, g.now));
            var g' := Next(g, place, Turn(name));
            Then(r, e, g'.pool).Valid() && Sent(Then(r, e, g'.pool), g', meter, a)
  {
    var q := g.holder.value.q;
    var (after, outcome) := TurnOf(g.pool, q, place.weigh, g.now);
    TurnExtends(place, r, g, name);
    StatesAreOrderly(r, |r.events|);
    forall i | 0 <= i < |g.pool| ensures g.pool[i].spec.rpm > 0 {
      assert OrderlyLane(g.pool[i], r.window, Now(r));
    }
    if outcome.Answer? && outcome.permit.Some? {
      PermitsCarryTheirLane(g.pool, q, place.weigh, g.now, outcome.permit.value);
    }
    OutcomeIsSent(r, g, after, outcome, meter, a);
  }

  lemma {:induction false} OutcomeIsSent(r: Run, g: G.Gate, after: PoolView, outcome: Outcome, meter: Metering,
                                         a: Allowance)
    requires r.Valid() && Last(r) == g.pool && Sent(r, g, meter, a) && g.holder.Some?
    requires Then(r, Acquire(g.now, GrantIn(outcome)), after).Valid()
    requires outcome.Answer? && outcome.permit.Some? ==>
               var p := outcome.permit.value;
               p.laneIdx < |g.pool|
               && meter(p.baseUrl, p.key, p.protocol) == AllowanceOf(meter, g.pool[p.laneIdx].spec)
    ensures Sent(Then(r, Acquire(g.now, GrantIn(outcome)), after), Turned(g, after, outcome), meter, a)
  {
    LastDraw(r, Acquire(g.now, GrantIn(outcome)), after, meter, a);
    if outcome.Answer? {
      LastSent(g.answered, Answered(g.holder.value.name, outcome.permit, g.now), meter, a);
    }
  }

  lemma {:induction false} LastDraw(r: Run, e: Event, s': PoolView, meter: Metering, a: Allowance)
    requires r.Valid() && Then(r, e, s').Valid() && e.Acquire?
    requires e.granted.Some? ==> e.granted.value < |Last(r)|
    ensures LogOf(Then(r, e, s'), meter, a)
         == LogOf(r, meter, a) + if e.granted.Some? && AllowanceOf(meter, Last(r)[e.granted.value].spec) == a
                                 then [e.now] else []
  {
    DrawLogExtends(r, Then(r, e, s'), meter, a, 0, |r.events|);
    assert Then(r, e, s').states[|r.events|] == Last(r);
  }

  lemma {:induction false} LastSent(answered: seq<G.Answered>, answer: G.Answered, meter: Metering, a: Allowance)
    ensures SentTimes(answered + [answer], meter, a)
         == SentTimes(answered, meter, a) + if SendsTo(answer, meter, a) then [answer.at] else []
  {
    assert (answered + [answer])[..|answered|] == answered;
  }
}
