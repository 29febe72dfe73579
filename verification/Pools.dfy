/** Lanes and pools: one lane per provider key, its limiter and its cooldown; and the
    rebuild that carries a kept key's spent budget into a replacement pool. */
module Pools {
  import opened Basics
  import opened Windows

  /** A provider's real per-key rate window, and the slack enforced on top of it. */
  const PROVIDER_WINDOW: nat := 60 * SECOND
  const JITTER_MARGIN: nat := 1 * SECOND

  datatype Protocol = OpenAi | Anthropic

  /** What a lane is built from; `provider` and `key` together are its identity. */
  datatype LaneSpec = LaneSpec(provider: string, baseUrl: string, key: string, rpm: nat, protocol: Protocol)
  {
    function Id(): LaneId { LaneId(provider, key) }
  }

  datatype LaneId = LaneId(provider: string, key: string)

  /** The value of a lane object at one moment. */
  datatype LaneView = LaneView(spec: LaneSpec, window: nat, hits: seq<Instant>, cooldown: Option<Instant>)
  {
    function Id(): LaneId { spec.Id() }

    predicate Benched(now: Instant) {
      cooldown.Some? && cooldown.value > now
    }

    function Load(now: Instant): nat {
      |Pruned(hits, window, now)|
    }

    /** Able to grant at `now`: out of its cooldown and under its limit. */
    predicate HasRoom(now: Instant) {
      !Benched(now) && Load(now) < spec.rpm
    }

    /** The same lane, having forgotten nothing but hits expired by `now`. */
    ghost predicate OnlyForgot(later: LaneView, now: Instant) {
      later == this.(hits := later.hits) && DropsExpired(hits, later.hits, window, now)
    }
  }

  type PoolView = seq<LaneView>

  /** The pool once lane `idx` has recorded a grant at `now`. */
  ghost function Taken(pool: PoolView, idx: nat, now: Instant): PoolView
    requires idx < |pool|
  {
    pool[idx := pool[idx].(hits := Pruned(pool[idx].hits, pool[idx].window, now) + [now])]
  }

  ghost predicate UniqueIds(specs: seq<LaneSpec>) {
    forall i, j :: 0 <= i < j < |specs| ==> specs[i].Id() != specs[j].Id()
  }

  /** What a pool is built from: one spec per identity, each with a rate. */
  ghost predicate LiveSpecs(specs: seq<LaneSpec>) {
    UniqueIds(specs) && forall i :: 0 <= i < |specs| ==> specs[i].rpm > 0
  }

  function Specs(pool: PoolView): (specs: seq<LaneSpec>)
    ensures |specs| == |pool| && forall i :: 0 <= i < |pool| ==> specs[i] == pool[i].spec
  {
    seq(|pool|, i requires 0 <= i < |pool| => pool[i].spec)
  }

  /** The first lane with this identity. */
  function FindLane(pool: PoolView, id: LaneId): (found: Option<nat>)
    ensures found.Some? ==> found.value < |pool| && pool[found.value].Id() == id
                            && forall j :: 0 <= j < found.value ==> pool[j].Id() != id
    ensures found.None? ==> forall j :: 0 <= j < |pool| ==> pool[j].Id() != id
  {
    if pool == [] then None
    else
      var n := |pool| - 1;
      match FindLane(pool[..n], id)
      case Some(i) => Some(i)
      case None => if pool[n].Id() == id then Some(n) else None
  }

  function FreshLane(spec: LaneSpec, window: nat): LaneView {
    LaneView(spec, window, [], None)
  }

  /** A lane built for `spec`, adopting the hits and cooldown of its predecessor if it has one. */
  function Successor(prior: PoolView, spec: LaneSpec, window: nat): LaneView {
    match FindLane(prior, spec.Id())
    case None => FreshLane(spec, window)
    case Some(i) => LaneView(spec, window, prior[i].hits, prior[i].cooldown)
  }

  function Rebuilt(prior: PoolView, specs: seq<LaneSpec>, window: nat): (next: PoolView)
    ensures |next| == |specs| && Specs(next) == specs
  {
    seq(|specs|, i requires 0 <= i < |specs| => Successor(prior, specs[i], window))
  }

  function Later(cooldown: Option<Instant>, until: Instant): Option<Instant> {
    match cooldown
    case None => Some(until)
    case Some(current) => Some(if current < until then until else current)
  }

  class Lane {
    const spec: LaneSpec
    const limiter: SlidingWindow
    var cooldown: Option<Instant>

    ghost predicate Valid() {
      limiter.limit == spec.rpm
    }

    ghost function View(): LaneView
      reads this, limiter
    {
      LaneView(spec, limiter.window, limiter.hits, cooldown)
    }

    constructor (spec: LaneSpec, window: nat)
      ensures Valid() && fresh(limiter)
      ensures View() == FreshLane(spec, window)
    {
      this.spec := spec;
      this.limiter := new SlidingWindow(spec.rpm, window);
      this.cooldown := None;
    }

    /** Take the lane out of rotation until `until`, never shortening a bench in force. */
    method Bench(until: Instant)
      modifies this`cooldown
      ensures View() == old(View()).(cooldown := Later(old(cooldown), until))
      ensures forall t: Instant :: View().Benched(t) <==> old(View()).Benched(t) || t < until
    {
      cooldown := Some(if cooldown.Some? && cooldown.value > until then cooldown.value else until);
    }

    method CooldownEnds(now: Instant) returns (until: Option<Instant>)
      ensures until == if View().Benched(now) then cooldown else None
    {
      until := if cooldown.Some? && cooldown.value > now then cooldown else None;
    }

    method Load(now: Instant) returns (n: nat)
      modifies limiter
      ensures View() == old(View()).(hits := Pruned(old(limiter.hits), limiter.window, now))
      ensures n == old(View()).Load(now)
    {
      n := limiter.Load(now);
    }

    method TryAcquire(now: Instant) returns (r: Result<(), Instant>)
      requires Valid()
      modifies limiter
      ensures r.Ok? <==> old(View()).Load(now) < spec.rpm
      ensures View() == old(View()).(hits := Pruned(old(limiter.hits), limiter.window, now)
                                             + if r.Ok? then [now] else [])
      ensures r.Err? ==> r.error == (if limiter.hits == [] then now else limiter.hits[0]) + limiter.window
    {
      r := limiter.TryAcquire(now);
    }

    /** Adopt another lane's spent budget and cooldown, but not its limit. */
    method CarryFrom(donor: Lane)
      modifies this`cooldown, limiter
      ensures View() == old(View()).(hits := old(donor.limiter.hits), cooldown := old(donor.cooldown))
    {
      limiter.hits := donor.limiter.hits;
      cooldown := donor.cooldown;
    }
  }

  class Pool {
    const lanes: seq<Lane>
    const window: nat

    ghost const limiters: set<SlidingWindow>

    /** Every lane and every limiter is a separate object. */
    ghost predicate Valid() {
      && (forall i :: 0 <= i < |lanes| ==>
            lanes[i].Valid() && lanes[i].limiter.window == window && lanes[i].limiter in limiters)
      && (forall i, j :: 0 <= i < j < |lanes| ==> lanes[i] != lanes[j] && lanes[i].limiter != lanes[j].limiter)
    }

    ghost function View(): (v: PoolView)
      requires Valid()
      reads lanes, limiters
      ensures |v| == |lanes| && forall i :: 0 <= i < |v| ==> v[i] == lanes[i].View()
    {
      seq(|lanes|, i requires 0 <= i < |lanes| reads lanes, limiters => lanes[i].View())
    }

    constructor Make(lanes: seq<Lane>, window: nat)
      ensures this.lanes == lanes && this.window == window
      ensures limiters == set i | 0 <= i < |lanes| :: lanes[i].limiter
    {
      this.lanes, this.window := lanes, window;
      this.limiters := set i | 0 <= i < |lanes| :: lanes[i].limiter;
    }

    /** A new lane for `spec`, seeded from the first lane here with the same identity. */
    method SucceedLane(spec: LaneSpec) returns (lane: Lane)
      requires Valid()
      ensures fresh(lane) && fresh(lane.limiter)
      ensures lane.Valid()
      ensures lane.View() == Successor(View(), spec, window)
    {
      lane := new Lane(spec, window);
      var j := 0;
      while j < |lanes| && lanes[j].spec.Id() != spec.Id()
        invariant 0 <= j <= |lanes|
        invariant forall i :: 0 <= i < j ==> lanes[i].spec.Id() != spec.Id()
      {
        j := j + 1;
      }
      assert forall i :: 0 <= i < |lanes| ==> View()[i].Id() == lanes[i].spec.Id();
      if j < |lanes| {
        assert FindLane(View(), spec.Id()) == Some(j);
        label adopt:
        lane.CarryFrom(lanes[j]);
        assert View() == old@adopt(View());
      }
    }

    /** Build a replacement pool. The old pool is left as it was; each new lane starts from
        its predecessor's hits and cooldown, under its own new limit. */
    method Rebuild(specs: seq<LaneSpec>) returns (next: Pool)
      requires Valid()
      ensures next.Valid() && next.window == window
      ensures fresh(next) && fresh(next.lanes) && fresh(next.limiters)
      ensures next.View() == Rebuilt(View(), specs, window)
    {
      var built := SucceedAll(specs);
      next := Assemble(built);
    }

    /** A new lane for each of `specs`, all separate objects. */
    method SucceedAll(specs: seq<LaneSpec>) returns (built: seq<Lane>)
      requires Valid()
      ensures |built| == |specs|
      ensures forall i :: 0 <= i < |built| ==> fresh(built[i]) && fresh(built[i].limiter)
      ensures forall i, j :: 0 <= i < j < |built| ==> built[i] != built[j] && built[i].limiter != built[j].limiter
      ensures forall i :: 0 <= i < |built| ==>
                built[i].Valid() && built[i].View() == Successor(View(), specs[i], window)
    {
      built := [];
      ghost var before := View();
      for k := 0 to |specs|
        invariant |built| == k
        invariant forall i :: 0 <= i < k ==> fresh(built[i]) && fresh(built[i].limiter)
        invariant forall i, j :: 0 <= i < j < k ==> built[i] != built[j] && built[i].limiter != built[j].limiter
        invariant forall i :: 0 <= i < k ==> built[i].Valid() && built[i].View() == Successor(before, specs[i], window)
      {
        var lane := SucceedLane(specs[k]);
        built := built + [lane];
      }
    }

    /** A pool of the same window out of these lanes. */
    method Assemble(built: seq<Lane>) returns (next: Pool)
      requires forall i :: 0 <= i < |built| ==> built[i].Valid() && built[i].limiter.window == window
      requires forall i, j :: 0 <= i < j < |built| ==> built[i] != built[j] && built[i].limiter != built[j].limiter
      ensures fresh(next) && next.Valid() && next.window == window && next.lanes == built
      ensures next.limiters == set i | 0 <= i < |built| :: built[i].limiter
    {
      next := new Pool.Make(built, window);
    }
  }
}
