/** The fairness gate in front of a live pool: callers queue on a fair mutex, the one holding it
    takes turns at the dispatcher's loop, and anyone may be dropped wherever it waits. Benches
    and rebuilds happen meanwhile. */
module Gate {
  import opened Basics
  import opened Windows
  import opened Pools
  import opened RetryAfter
  import opened Pacing
  import opened Rendezvous
  import opened Dispatch
  import opened Bursts
  import opened Upstream
  import opened Renewal

  datatype Caller = Caller(name: nat, q: Request)

  datatype Answered = Answered(name: nat, permit: Option<Permit>, at: Instant)

  /** `arrived`, `answered` and `dropped` are histories: every caller in order of arrival, every
      answer in order, and the callers dropped. */
  datatype Gate = Gate(queue: seq<Caller>, holder: Option<Caller>, pool: PoolView, now: Instant,
                       arrived: seq<nat>, answered: seq<Answered>, dropped: set<nat>)

  /** `Turn` is one pass of the holder's wait loop, on the pool as it is at that moment. */
  datatype Step =
    | Arrive(c: Caller)
    | Enter(name: nat)
    | Turn(name: nat)
    | Drop(name: nat)
    | Tick(elapsed: nat)
    | Bench(lane: nat, header: Option<string>)
    | Swap(specs: seq<LaneSpec>)

  /** Where everything happens: the first pool, the window it enforces, and the session hash. */
  datatype Place = Place(specs: seq<LaneSpec>, window: nat, weigh: Weigh)

  ghost function Open(place: Place): Gate {
    Gate([], None, Rebuilt([], place.specs, place.window), 0, [], [], {})
  }

  function Names(queue: seq<Caller>): (names: seq<nat>)
    ensures |names| == |queue| && forall i :: 0 <= i < |queue| ==> names[i] == queue[i].name
  {
    if queue == [] then [] else Names(queue[..|queue| - 1]) + [queue[|queue| - 1].name]
  }

  ghost predicate Enabled(g: Gate, step: Step) {
    match step
    case Arrive(c) => c.name !in g.arrived
    case Enter(name) => g.holder.None? && g.queue != [] && g.queue[0].name == name
    case Turn(name) => g.holder.Some? && g.holder.value.name == name
    case Drop(name) => (g.holder.Some? && g.holder.value.name == name) || name in Names(g.queue)
    case Swap(specs) => LiveSpecs(specs)
    case _ => true
  }

  /** The queue less one caller. */
  function Without(queue: seq<Caller>, name: nat): seq<Caller> {
    if queue == [] then []
    else
      var n := |queue| - 1;
      Without(queue[..n], name) + if queue[n].name == name then [] else [queue[n]]
  }

  ghost function Benched(pool: PoolView, lane: nat, until: Instant): PoolView {
    if lane < |pool| then pool[lane := pool[lane].(cooldown := Later(pool[lane].cooldown, until))] else pool
  }

  ghost function TurnNext(g: Gate, place: Place): Gate
    requires g.holder.Some?
  {
    var (after, outcome) := TurnOf(g.pool, g.holder.value.q, place.weigh, g.now);
    Turned(g, after, outcome)
  }

  ghost function Turned(g: Gate, after: PoolView, outcome: Outcome): Gate
    requires g.holder.Some?
  {
    match outcome
    case Answer(permit) =>
      g.(pool := after, holder := None, answered := g.answered + [Answered(g.holder.value.name, permit, g.now)])
    case Sleep(_) => g.(pool := after)
  }

  function EnterNext(g: Gate): Gate
    requires g.queue != []
  {
    g.(holder := Some(g.queue[0]), queue := g.queue[1..])
  }

  function DropNext(g: Gate, name: nat): Gate {
    if g.holder.Some? && g.holder.value.name == name then g.(holder := None, dropped := g.dropped + {name})
    else g.(queue := Without(g.queue, name), dropped := g.dropped + {name})
  }

  ghost function Next(g: Gate, place: Place, step: Step): Gate
    requires Enabled(g, step)
  {
    match step
    case Arrive(c) => g.(queue := g.queue + [c], arrived := g.arrived + [c.name])
    case Enter(_) => EnterNext(g)
    case Turn(_) => TurnNext(g, place)
    case Drop(name) => DropNext(g, name)
    case Tick(elapsed) => g.(now := g.now + elapsed)
    case Bench(lane, header) => g.(pool := Benched(g.pool, lane, g.now + BenchSpan(header)))
    case Swap(specs) => g.(pool := Rebuilt(g.pool, specs, place.window))
  }

  /** Steps each of which could happen when it did. */
  ghost predicate Playable(place: Place, steps: seq<Step>)
    decreases |steps|, 0
  {
    LiveSpecs(place.specs) &&
    (steps == [] ||
     var n := |steps| - 1;
     Playable(place, steps[..n]) && Enabled(After(place, steps[..n]), steps[n]))
  }

  ghost function After(place: Place, steps: seq<Step>): Gate
    requires Playable(place, steps)
    decreases |steps|, 1
  {
    if steps == [] then Open(place)
    else Next(After(place, steps[..|steps| - 1]), place, steps[|steps| - 1])
  }

  // ---- First come, first served ----

  function Served(answered: seq<Answered>): (names: seq<nat>)
    ensures |names| == |answered| && forall i :: 0 <= i < |answered| ==> names[i] == answered[i].name
  {
    if answered == [] then [] else Served(answered[..|answered| - 1]) + [answered[|answered| - 1].name]
  }

  function AtGate(holder: Option<Caller>): seq<nat> {
    if holder.Some? then [holder.value.name] else []
  }

  function Line(g: Gate): seq<nat> {
    Served(g.answered) + AtGate(g.holder) + Names(g.queue)
  }

  /** `s` less the members of `gone`. */
  function Less(s: seq<nat>, gone: set<nat>): (r: seq<nat>)
    ensures forall x :: x in r <==> x in s && x !in gone
  {
    if s == [] then []
    else
      var n := |s| - 1;
      assert s == s[..n] + [s[n]];
      Less(s[..n], gone) + if s[n] in gone then [] else [s[n]]
  }

  ghost predicate Fair(g: Gate) {
    && Distinct(g.arrived)
    && Line(g) == Less(g.arrived, g.dropped)
    && (forall name :: name in g.dropped ==> name in g.arrived)
  }

  /** FIFO, after any steps: those answered, then the one at the gate, then the queue, are
      exactly the callers not dropped, in order of arrival. */
  lemma {:induction false} FirstComeFirstServed(place: Place, steps: seq<Step>)
    requires Playable(place, steps)
    ensures Fair(After(place, steps))
  {
    if steps != [] {
      var n := |steps| - 1;
      FirstComeFirstServed(place, steps[..n]);
      StaysFair(After(place, steps[..n]), place, steps[n]);
    }
  }

  lemma {:induction false} StaysFair(g: Gate, place: Place, step: Step)
    requires Fair(g) && Enabled(g, step)
    ensures Fair(Next(g, place, step))
  {
    match step
    case Arrive(c) => ArrivalStaysFair(g, place, c);
    case Enter(_) => EntryStaysFair(g);
    case Turn(_) =>
      var turn := TurnOf(g.pool, g.holder.value.q, place.weigh, g.now);
      TurnStaysFair(g, turn.0, turn.1);
    case Drop(name) => DropStaysFair(g, name);
    case _ =>
  }

  lemma {:induction false} ArrivalStaysFair(g: Gate, place: Place, c: Caller)
    requires Fair(g) && Enabled(g, Arrive(c))
    ensures Fair(Next(g, place, Arrive(c)))
  {
    var g' := Next(g, place, Arrive(c));
    assert g'.arrived[..|g.arrived|] == g.arrived;
    assert g'.queue[..|g.queue|] == g.queue;
    assert Line(g') == Line(g) + [c.name];
  }

  lemma {:induction false} EntryStaysFair(g: Gate)
    requires Fair(g) && g.holder.None? && g.queue != []
    ensures Fair(EnterNext(g))
  {
    var g' := EnterNext(g);
    NamesFromTheFront(g.queue);
    assert Line(g') == Line(g) by {
      assert AtGate(g'.holder) == [g.queue[0].name] && AtGate(g.holder) == [];
      assert Served(g.answered) + [] == Served(g.answered);
    }
  }

  lemma {:induction false} NamesFromTheFront(queue: seq<Caller>)
    requires queue != []
    ensures Names(queue) == [queue[0].name] + Names(queue[1..])
  {
    assert forall i :: 0 < i < |queue| ==> queue[i] == queue[1..][i - 1];
  }

  lemma {:induction false} TurnStaysFair(g: Gate, after: PoolView, outcome: Outcome)
    requires Fair(g) && g.holder.Some?
    ensures Fair(Turned(g, after, outcome))
  {
    var g' := Turned(g, after, outcome);
    if outcome.Answer? {
      assert g'.answered[..|g.answered|] == g.answered;
      assert Served(g'.answered) == Served(g.answered) + [g.holder.value.name];
      assert Line(g') == Line(g);
    }
  }

  lemma {:induction false} DropStaysFair(g: Gate, name: nat)
    requires Fair(g) && (AtGate(g.holder) == [name] || name in Names(g.queue))
    ensures Fair(DropNext(g, name))
  {
    var g', front := DropNext(g, name), Served(g.answered);
    assert name in g.arrived by { assert name in Line(g); }
    assert Line(g') == Less(Line(g), {name}) by {
      assert Distinct(Line(g)) by { LessKeepsDistinct(g.arrived, g.dropped); }
      if AtGate(g.holder) == [name] {
        HolderLeavesTheLine(front, Names(g.queue), name);
      } else {
        NamesWithout(g.queue, name);
        WaiterLeavesTheLine(front, AtGate(g.holder), Names(g.queue), name);
      }
    }
    LessTwice(g.arrived, g.dropped, name);
  }

  lemma {:induction false} HolderLeavesTheLine(front: seq<nat>, queue: seq<nat>, name: nat)
    requires Distinct(front + [name] + queue)
    ensures Less(front + [name] + queue, {name}) == front + [] + queue
  {
    DistinctParts(front, [name], queue, name);
    LessConcat(front + [name], queue, {name});
    LessConcat(front, [name], {name});
    NothingLost(front, {name});
    NothingLost(queue, {name});
    assert Less([name], {name}) == [] by { assert [name][..0] == []; }
  }

  lemma {:induction false} WaiterLeavesTheLine(front: seq<nat>, held: seq<nat>, queue: seq<nat>, name: nat)
    requires Distinct(front + held + queue) && |held| <= 1 && name in queue
    ensures Less(front + held + queue, {name}) == front + held + Less(queue, {name})
  {
    DistinctParts(front, held, queue, name);
    LessConcat(front + held, queue, {name});
    LessConcat(front, held, {name});
    NothingLost(front, {name});
    NothingLost(held, {name});
  }

  lemma {:induction false} NamesWithout(queue: seq<Caller>, name: nat)
    ensures Names(Without(queue, name)) == Less(Names(queue), {name})
  {
    if queue != [] {
      var n := |queue| - 1;
      var front := Without(queue[..n], name);
      NamesWithout(queue[..n], name);
      assert Names(queue)[..n] == Names(queue[..n]);
      assert (front + [queue[n]])[..|front|] == front;
    }
  }

  lemma {:induction false} DistinctParts(front: seq<nat>, held: seq<nat>, queue: seq<nat>, c: nat)
    requires Distinct(front + held + queue) && |held| <= 1 && (held == [c] || c in queue)
    ensures c !in front && (held == [c] ==> c !in queue) && (c in queue ==> c !in held)
  {
    var line := front + held + queue;
    var at := if held == [c] then |front| else var k :| 0 <= k < |queue| && queue[k] == c; |front| + |held| + k;
    assert line[at] == c;
    forall i | 0 <= i < |front| ensures front[i] != c { assert line[i] == front[i]; }
    forall i | 0 <= i < |queue| && held == [c] ensures queue[i] != c { assert line[|front| + |held| + i] == queue[i]; }
  }

  lemma {:induction false} LessConcat(a: seq<nat>, b: seq<nat>, gone: set<nat>)
    ensures Less(a + b, gone) == Less(a, gone) + Less(b, gone)
  {
    if b == [] {
      assert a + b == a;
    } else {
      assert (a + b)[..|a + b| - 1] == a + b[..|b| - 1];
      LessConcat(a, b[..|b| - 1], gone);
    }
  }

  lemma {:induction false} NothingLost(s: seq<nat>, gone: set<nat>)
    requires forall x :: x in s ==> x !in gone
    ensures Less(s, gone) == s
  {
    if s != [] {
      assert s == s[..|s| - 1] + [s[|s| - 1]];
      NothingLost(s[..|s| - 1], gone);
    }
  }

  lemma {:induction false} LessTwice(s: seq<nat>, gone: set<nat>, c: nat)
    ensures Less(s, gone + {c}) == Less(Less(s, gone), {c})
  {
    if s != [] {
      var n := |s| - 1;
      LessTwice(s[..n], gone, c);
      LessConcat(Less(s[..n], gone), if s[n] in gone then [] else [s[n]], {c});
    }
  }

  lemma {:induction false} LessKeepsDistinct(s: seq<nat>, gone: set<nat>)
    requires Distinct(s)
    ensures Distinct(Less(s, gone))
  {
    if s != [] {
      var n := |s| - 1;
      LessKeepsDistinct(s[..n], gone);
      assert forall i :: 0 <= i < n ==> s[..n][i] != s[n];
      assert s[n] !in Less(s[..n], gone);
    }
  }

  lemma {:induction false} NobodyDroppedIsAnswered(place: Place, steps: seq<Step>)
    requires Playable(place, steps)
    ensures var g := After(place, steps); forall k :: 0 <= k < |g.answered| ==> g.answered[k].name !in g.dropped
  {
    FirstComeFirstServed(place, steps);
    var g := After(place, steps);
    forall k | 0 <= k < |g.answered| ensures g.answered[k].name !in g.dropped {
      assert Line(g)[k] == g.answered[k].name;
      assert Line(g)[k] in Less(g.arrived, g.dropped);
    }
  }

  // ---- Conservation: what the lanes recorded is what was handed out ----

  /** The times of the permits handed out on lane `id`. */
  function PermitTimes(answered: seq<Answered>, id: LaneId): seq<Instant> {
    if answered == [] then []
    else
      var n := |answered| - 1;
      PermitTimes(answered[..n], id) + if IsFor(answered[n], id) then [answered[n].at] else []
  }

  predicate IsFor(a: Answered, id: LaneId) {
    a.permit.Some? && LaneId(a.permit.value.provider, a.permit.value.key) == id
  }

  /** What a turn grants. */
  ghost function GrantedBy(pool: PoolView, q: Request, weigh: Weigh, now: Instant): Option<nat> {
    GrantIn(TurnOf(pool, q, weigh, now).1)
  }

  function GrantIn(outcome: Outcome): Option<nat> {
    if outcome.Answer? && outcome.permit.Some? then Some(outcome.permit.value.laneIdx) else None
  }

  lemma {:induction false} TurnIsAStep(pool: PoolView, q: Request, weigh: Weigh, now: Instant)
    requires forall i :: 0 <= i < |pool| ==> pool[i].spec.rpm > 0
    ensures AcquireStep(pool, TurnOf(pool, q, weigh, now).0, now, GrantedBy(pool, q, weigh, now))
  {
    TurnsAreSettled(pool, q, weigh, now);
    var best := BestLane(pool, q, weigh, now);
    NothingForgotten(pool, now);
    if best.Some? {
      BestHasRoom(pool, q, weigh, now);
      TakenFromTheFirstPool(pool, pool, q, now, best.value);
    } else {
      ScanOnlyForgets(pool, q, now);
      ForgettingIsAStep(pool, ScanAll(pool, q, now), now);
    }
  }

  lemma {:induction false} NothingForgotten(pool: PoolView, now: Instant)
    ensures OnlyForgotAll(pool, pool, now)
  {
  }

  /** The pacing run that these steps make: a turn is an acquire, a bench a bench, a swap a
      rebuild; nothing else touches the pool. */
  ghost function RunOf(place: Place, steps: seq<Step>): Run
    requires Playable(place, steps)
  {
    if steps == [] then Run(place.window, [Open(place).pool], [])
    else
      var n := |steps| - 1;
      var r, g, g' := RunOf(place, steps[..n]), After(place, steps[..n]), After(place, steps);
      match steps[n]
      case Turn(_) => Then(r, Acquire(g.now, GrantedBy(g.pool, g.holder.value.q, place.weigh, g.now)), g'.pool)
      case Bench(lane, header) => Then(r, Event.Bench(g.now, lane, header), g'.pool)
      case Swap(specs) => Then(r, Rebuild(specs), g'.pool)
      case _ => r
  }

  /** `r` tells the pool's side of the story so far. */
  ghost predicate Tells(r: Run, g: Gate) {
    r.Valid() && Last(r) == g.pool && Now(r) <= g.now
    && forall id: LaneId :: PermitsLogged(r, g, id)
  }

  ghost predicate PermitsLogged(r: Run, g: Gate, id: LaneId)
    requires r.Valid()
  {
    r.GrantLog(id, 0, |r.events|) == PermitTimes(g.answered, id)
  }

  lemma {:induction false} StepsMakeARun(place: Place, steps: seq<Step>)
    requires Playable(place, steps)
    ensures Tells(RunOf(place, steps), After(place, steps))
  {
    if steps == [] {
      OpeningRun(place);
    } else {
      var n := |steps| - 1;
      var r, g := RunOf(place, steps[..n]), After(place, steps[..n]);
      StepsMakeARun(place, steps[..n]);
      WindowIsThePlaces(place, steps[..n]);
      match steps[n]
      case Turn(name) => TurnExtends(place, r, g, name);
      case Bench(lane, header) =>
        BenchExtends(r, g, After(place, steps), lane, header);
      case Swap(specs) =>
        SwapExtends(r, g, After(place, steps), specs);
      case _ =>
        assert After(place, steps).pool == g.pool && After(place, steps).answered == g.answered;
        forall id: LaneId ensures PermitsLogged(r, After(place, steps), id) {
          assert PermitsLogged(r, g, id);
        }
    }
  }

  lemma {:induction false} OpeningRun(place: Place)
    requires LiveSpecs(place.specs)
    ensures Tells(Run(place.window, [Open(place).pool], []), Open(place))
  {
    var r := Run(place.window, [Open(place).pool], []);
    forall i: nat | i < |place.specs| ensures r.StartsFresh(i) {
      assert r.states[0][i] == Successor([], place.specs[i], place.window);
    }
  }

  lemma {:induction false} TurnExtends(place: Place, r: Run, g: Gate, name: nat)
    requires Tells(r, g) && Enabled(g, Turn(name))
    ensures var e := Acquire(g.now, GrantedBy(g.pool, g.holder.value.q, place.weigh, g.now));
            var g' := Next(g, place, Turn(name));
            Tells(Then(r, e, g'.pool), g')
  {
    var q, g' := g.holder.value.q, Next(g, place, Turn(name));
    var granted := GrantedBy(g.pool, q, place.weigh, g.now);
    StatesAreOrderly(r, |r.events|);
    forall i | 0 <= i < |g.pool| ensures g.pool[i].spec.rpm > 0 {
      assert OrderlyLane(g.pool[i], r.window, Now(r));
    }
    TurnIsAStep(g.pool, q, place.weigh, g.now);
    ThenIsValid(r, Acquire(g.now, granted), g'.pool);
    var (after, outcome) := TurnOf(g.pool, q, place.weigh, g.now);
    TurnsAreSettled(g.pool, q, place.weigh, g.now);
    forall id: LaneId ensures PermitsLogged(Then(r, Acquire(g.now, granted), g'.pool), g', id) {
      assert PermitsLogged(r, g, id);
      TurnIsLogged(r, g, after, outcome, id);
    }
  }

  /** A permit names the lane it was granted on. */
  ghost predicate NamesItsLane(pool: PoolView, outcome: Outcome) {
    outcome.Answer? && outcome.permit.Some? ==>
      var permit := outcome.permit.value;
      permit.laneIdx < |pool| && LaneId(permit.provider, permit.key) == pool[permit.laneIdx].Id()
  }

  lemma {:induction false} TurnIsLogged(r: Run, g: Gate, after: PoolView, outcome: Outcome, id: LaneId)
    requires r.Valid() && Last(r) == g.pool && PermitsLogged(r, g, id) && g.holder.Some?
    requires NamesItsLane(g.pool, outcome) && Then(r, Acquire(g.now, GrantIn(outcome)), after).Valid()
    ensures PermitsLogged(Then(r, Acquire(g.now, GrantIn(outcome)), after), Turned(g, after, outcome), id)
  {
    var n, r', g' := |r.events|, Then(r, Acquire(g.now, GrantIn(outcome)), after), Turned(g, after, outcome);
    LogThen(r, r'.events[n], after, id, 0, n);
    assert r'.states[n] == g.pool;
    if outcome.Answer? {
      assert g'.answered[..|g.answered|] == g.answered;
    }
  }

  lemma {:induction false} BenchExtends(r: Run, g: Gate, g': Gate, lane: nat, header: Option<string>)
    requires Tells(r, g) && g' == g.(pool := Benched(g.pool, lane, g.now + BenchSpan(header)))
    ensures Tells(Then(r, Event.Bench(g.now, lane, header), g'.pool), g')
  {
    var n, e := |r.events|, Event.Bench(g.now, lane, header);
    ThenIsValid(r, e, g'.pool);
    forall id: LaneId ensures PermitsLogged(Then(r, e, g'.pool), g', id) {
      assert PermitsLogged(r, g, id);
      LogThen(r, e, g'.pool, id, 0, n);
    }
  }

  lemma {:induction false} SwapExtends(r: Run, g: Gate, g': Gate, specs: seq<LaneSpec>)
    requires Tells(r, g) && LiveSpecs(specs) && g' == g.(pool := Rebuilt(g.pool, specs, r.window))
    ensures Tells(Then(r, Rebuild(specs), g'.pool), g')
  {
    var n, e := |r.events|, Rebuild(specs);
    ThenIsValid(r, e, g'.pool);
    forall id: LaneId ensures PermitsLogged(Then(r, e, g'.pool), g', id) {
      assert PermitsLogged(r, g, id);
      LogThen(r, e, g'.pool, id, 0, n);
    }
  }

  /** CONSERVATION. For a key that has had a lane throughout, the hits its lane holds are the
      times of the permits handed out on it, one for one and in order, less only expired ones:
      so at every later moment the budget spent is that of the permits, and no caller that went
      away without one has cost anything. */
  lemma {:induction false} HitsAreThePermits(place: Place, steps: seq<Step>, id: LaneId, t: Instant)
    requires Playable(place, steps) && After(place, steps).now <= t
    requires RunOf(place, steps).Kept(id, 0, |RunOf(place, steps).events|)
    ensures var g := After(place, steps);
      && FindLane(g.pool, id).Some?
      && var hits, permits := g.pool[FindLane(g.pool, id).value].hits, PermitTimes(g.answered, id);
         && DropsExpired(permits, hits, place.window, g.now)
         && Spent(hits, place.window, t) == Spent(permits, place.window, t)
  {
    var r, g := RunOf(place, steps), After(place, steps);
    StepsMakeARun(place, steps);
    WindowIsThePlaces(place, steps);
    assert PermitsLogged(r, g, id);
    HitsAreTheLog(r, id, g.now, t);
  }

  lemma {:induction false} HitsAreTheLog(r: Run, id: LaneId, now: Instant, t: Instant)
    requires r.Valid() && r.Kept(id, 0, |r.events|) && Now(r) <= now <= t
    ensures FindLane(Last(r), id).Some?
    ensures var hits, log := Last(r)[FindLane(Last(r), id).value].hits, r.GrantLog(id, 0, |r.events|);
      DropsExpired(log, hits, r.window, now) && Spent(hits, r.window, t) == Spent(log, r.window, t)
  {
    var n := |r.events|;
    assert r.Has(id, 0) && r.Has(id, n);
    var log, hits := r.GrantLog(id, 0, n), r.LaneAt(id, n).hits;
    HitsTrackTheLog(r, id, 0, n);
    FirstHitsAreNone(r, id);
    assert [] + log == log;
    SpentAfterDrop(log, hits, r.window, Now(r), t);
  }

  lemma {:induction false} WindowIsThePlaces(place: Place, steps: seq<Step>)
    requires Playable(place, steps)
    ensures RunOf(place, steps).window == place.window
  {
    if steps != [] {
      WindowIsThePlaces(place, steps[..|steps| - 1]);
    }
  }

  lemma {:induction false} FirstHitsAreNone(r: Run, id: LaneId)
    requires r.Valid() && r.Has(id, 0)
    ensures r.LaneAt(id, 0).hits == []
  {
    assert r.StartsFresh(FindLane(r.states[0], id).value);
  }

  /** So every permit the gate hands out is paced, whatever is benched or rebuilt while callers
      wait: for a key kept throughout and never rated above `limit`, no trailing window holds
      more than `limit` of its permits. */
  lemma {:induction false} PermitsArePaced(place: Place, steps: seq<Step>, id: LaneId, limit: nat)
    requires Playable(place, steps)
    requires var r := RunOf(place, steps);
      && r.Kept(id, 0, |r.events|)
      && forall k :: 0 <= k < |r.events| ==> RatedAt(r, id, k, limit)
    ensures PacedLog(PermitTimes(After(place, steps).answered, id), place.window, limit)
  {
    var r, g := RunOf(place, steps), After(place, steps);
    StepsMakeARun(place, steps);
    WindowIsThePlaces(place, steps);
    assert PermitsLogged(r, g, id);
    forall k | 0 <= k < |r.events| ensures r.Has(id, k) && r.LaneAt(id, k).spec.rpm <= limit {
      assert RatedAt(r, id, k, limit);
    }
    RunIsPaced(r, id, 0, |r.events|, limit);
  }
}
