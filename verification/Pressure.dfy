/** Whole runs of one model's governor, its separately locked steps interleaved at will. */
module Pressure {
  import opened Basics
  import opened Governor

  /** Admission takes the lock twice: `ReadCap` consults the cap, `Claim` decides on the cap
      that was read. Anything may happen in between. */
  datatype Op = Rebuff(lane: nat) | ReadCap(task: nat) | Claim(task: nat) | Release(task: nat) | Report

  /** `elapsed` is the time since the step before. */
  datatype Step = Step(elapsed: nat, op: Op)

  /** The model, the caps read but not yet acted on, the callers holding a permit; and three
      histories that no step reads: every rebuff, every cut, every growth. */
  datatype World = World(m: ModelState, clock: Instant, read: map<nat, nat>, live: set<nat>,
                         log: seq<Rebuff>, cuts: seq<Instant>, growths: seq<Instant>)

  const FRESH := World(UNGOVERNED, 0, map[], {}, [], [], [])

  function Next(w: World, step: Step): World {
    var now := w.clock + step.elapsed;
    var v := w.(clock := now);
    match step.op
    case Rebuff(lane) =>
      var m := Rebuffed(w.m, lane, now);
      v.(m := m, log := w.log + [(now, lane)], cuts := if m.limit != w.m.limit then w.cuts + [now] else w.cuts)
    case ReadCap(task) =>
      if task in w.read || task in w.live then v
      else
        var m := Consulted(w.m, now);
        var growths := if m.limit > w.m.limit then w.growths + [now] else w.growths;
        v.(m := m, read := w.read[task := m.limit], growths := growths)
    case Claim(task) =>
      if task !in w.read then v
      else if Refuses(w.m, w.read[task]) then v.(read := w.read - {task})
      else v.(read := w.read - {task}, m := Admitted(w.m), live := w.live + {task})
    case Release(task) =>
      if task in w.live then v.(m := Released(w.m), live := w.live - {task}) else v
    case Report => v.(m := Reported(w.m, now))
  }

  function From(w: World, steps: seq<Step>): World {
    if steps == [] then w else Next(From(w, steps[..|steps| - 1]), steps[|steps| - 1])
  }

  function After(steps: seq<Step>): World {
    From(FRESH, steps)
  }

  // ---- Permits and caps ----

  ghost predicate Counted(w: World) {
    && w.m.inflight == |w.live|
    && (w.m.limit == 0 || w.m.limit >= MIN_LIMIT)
    && (w.m.limit > 0 ==> w.m.lastRebuff.Some? && w.m.lastAdjusted.Some?)
    && (forall t :: t in w.read ==> w.read[t] == 0 || w.read[t] >= MIN_LIMIT)
    && (forall t :: t in w.read ==> t !in w.live)
  }

  lemma {:induction false} StaysCounted(w: World, step: Step)
    requires Counted(w)
    ensures Counted(Next(w, step))
  {
    if step.op.Claim? || step.op.Release? {
      PermitsStayCounted(w, step);
    } else {
      CapsStaySound(w, step);
    }
  }

  lemma {:induction false} PermitsStayCounted(w: World, step: Step)
    requires Counted(w) && (step.op.Claim? || step.op.Release?)
    ensures Counted(Next(w, step))
  {
    var w', task := Next(w, step), step.op.task;
    assert w'.live == w.live || w'.live == w.live + {task} || w'.live == w.live - {task};
  }

  lemma {:induction false} CapsStaySound(w: World, step: Step)
    requires Counted(w) && !step.op.Claim? && !step.op.Release?
    ensures Counted(Next(w, step))
  {
    assert Next(w, step).live == w.live;
  }

  /** COUNTS ARE EXACT. However the locked steps of any number of tasks interleave, the
      in-flight count is the number of live permits, a cap is 0 or at least 2, and a governed
      model has both timestamps. */
  lemma {:induction false} InflightIsLivePermits(steps: seq<Step>)
    ensures Counted(After(steps))
  {
    if steps != [] {
      InflightIsLivePermits(steps[..|steps| - 1]);
      StaysCounted(After(steps[..|steps| - 1]), steps[|steps| - 1]);
    }
  }

  /** The saturating subtraction never saturates: a release always takes one off. */
  lemma {:induction false} ReleaseTakesOne(steps: seq<Step>, task: nat, elapsed: nat)
    requires task in After(steps).live
    ensures Next(After(steps), Step(elapsed, Release(task))).m.inflight == After(steps).m.inflight - 1
  {
    InflightIsLivePermits(steps);
    assert After(steps).live != {};
  }

  /** A governed admission leaves the in-flight count at most the cap it read, even if a cut
      landed between its two locks; and it is refused exactly when that cap was full. */
  lemma {:induction false} AdmissionRespectsTheCapItRead(steps: seq<Step>, task: nat, elapsed: nat)
    requires task in After(steps).read && After(steps).read[task] > 0
    ensures var w, w' := After(steps), Next(After(steps), Step(elapsed, Claim(task)));
      && (task in w'.live ==> w'.m.inflight <= w.read[task])
      && (task !in w'.live <==> |w.live| >= w.read[task])
  {
    InflightIsLivePermits(steps);
  }

  // ---- Evidence ----

  /** The lanes rebuffed in the last ten seconds of the whole run. */
  ghost function LanesWithin(log: seq<Rebuff>, now: Instant): set<nat> {
    set r | r in log && now < r.0 + 10 * SECOND :: r.1
  }

  /** Pruning and dissolving have forgotten nothing that still counts. */
  ghost predicate Remembers(w: World) {
    && (forall r :: r in w.m.rebuffs ==> r in w.log)
    && (forall r :: r in w.log ==> r.0 <= w.clock)
    && (forall r :: r in w.log && Since(w.clock, r.0) < EVIDENCE_WINDOW ==> r in w.m.rebuffs)
    && (w.m.lastRebuff.Some? ==> forall r :: r in w.log ==> r.0 <= w.m.lastRebuff.value)
  }

  lemma {:induction false} StillRemembers(w: World, step: Step)
    requires Remembers(w)
    ensures Remembers(Next(w, step))
  {
    if step.op.Rebuff? {
      RebuffIsRemembered(w, step);
    }
  }

  lemma {:induction false} RebuffIsRemembered(w: World, step: Step)
    requires Remembers(w) && step.op.Rebuff?
    ensures Remembers(Next(w, step))
    ensures forall r :: r in Next(w, step).m.rebuffs ==> Since(Next(w, step).clock, r.0) < EVIDENCE_WINDOW
  {
    var now, w' := w.clock + step.elapsed, Next(w, step);
    RecentAndOneMore(w.m.rebuffs, now, step.op.lane);
    assert w'.m.rebuffs == Recent(w.m.rebuffs, now) + [(now, step.op.lane)];
    forall r | r in w'.log && Since(now, r.0) < EVIDENCE_WINDOW ensures r in w'.m.rebuffs {
      assert r in w.log || r == (now, step.op.lane);
    }
  }

  lemma {:induction false} RecentAndOneMore(rebuffs: seq<Rebuff>, now: Instant, lane: nat)
    ensures forall r :: r in Recent(rebuffs, now) + [(now, lane)] <==>
              (r in rebuffs && Since(now, r.0) < EVIDENCE_WINDOW) || r == (now, lane)
  {
    FilterHas(rebuffs, IsRecent(now));
  }

  lemma {:induction false} AlwaysRemembers(steps: seq<Step>)
    ensures Remembers(After(steps))
  {
    if steps != [] {
      AlwaysRemembers(steps[..|steps| - 1]);
      StillRemembers(After(steps[..|steps| - 1]), steps[|steps| - 1]);
    }
  }

  /** PRUNED EVIDENCE IS THE FULL LOG. At every rebuff the keys counted are exactly the distinct
      lanes rebuffed on this model in the last 10 s of the whole run. */
  lemma {:induction false} EvidenceIsExact(steps: seq<Step>, elapsed: nat, lane: nat)
    ensures var w' := Next(After(steps), Step(elapsed, Rebuff(lane)));
      ImplicatedKeys(w'.m.rebuffs) == |LanesWithin(w'.log, w'.clock)|
  {
    var w, step := After(steps), Step(elapsed, Rebuff(lane));
    var w' := Next(w, step);
    AlwaysRemembers(steps);
    RebuffIsRemembered(w, step);
    ImplicatedKeysCountsLanes(w'.m.rebuffs);
    assert LaneSet(w'.m.rebuffs) == LanesWithin(w'.log, w'.clock);
  }

  /** A cut happens exactly when two lanes were rebuffed within 10 s, the cap has not moved for
      5 s, and either there was no cap, or our own gate was full and the cap above both two and
      half of what was in flight. */
  lemma {:induction false} CutsExactlyOnCorrelatedPressure(steps: seq<Step>, elapsed: nat, lane: nat)
    ensures var w, w' := After(steps), Next(After(steps), Step(elapsed, Rebuff(lane)));
      w'.m.limit != w.m.limit <==>
        && |LanesWithin(w'.log, w'.clock)| >= 2
        && (w.m.lastAdjusted.Some? ==> Since(w'.clock, w.m.lastAdjusted.value) >= 5 * SECOND)
        && (w.m.limit == 0 || (|w.live| >= w.m.limit && w.m.limit > 2 && 2 * w.m.limit > |w.live|))
  {
    EvidenceIsExact(steps, elapsed, lane);
    InflightIsLivePermits(steps);
  }

  /** HALVED. A rebuff that moves the cap leaves it at half of what is in flight, rounded down, and
      never below two; so a cap that was in force has fallen. */
  lemma {:induction false} ACutHalves(steps: seq<Step>, elapsed: nat, lane: nat)
    requires Next(After(steps), Step(elapsed, Rebuff(lane))).m.limit != After(steps).m.limit
    ensures var n, was := |After(steps).live|, After(steps).m.limit;
            var cap := Next(After(steps), Step(elapsed, Rebuff(lane))).m.limit;
      && (n < 4 ==> cap == 2)
      && (n >= 4 ==> n - 1 <= 2 * cap <= n)
      && (was > 0 ==> cap < was)
  {
    InflightIsLivePermits(steps);
  }

  /** However often one key is rebuffed, the model is never governed on its account. */
  lemma {:induction false} OneKeyNeverIndicts(steps: seq<Step>, lane: nat)
    requires forall i :: 0 <= i < |steps| && steps[i].op.Rebuff? ==> steps[i].op.lane == lane
    ensures After(steps).m.limit == 0
    ensures forall r :: r in After(steps).log ==> r.1 == lane
  {
    if steps != [] {
      var before, last := steps[..|steps| - 1], steps[|steps| - 1];
      OneKeyNeverIndicts(before, lane);
      if last.op.Rebuff? {
        EvidenceIsExact(before, last.elapsed, lane);
        var w' := Next(After(before), last);
        assert LanesWithin(w'.log, w'.clock) <= {lane};
        SubsetSize(LanesWithin(w'.log, w'.clock), {lane});
      }
    }
  }

  lemma {:induction false} SubsetSize(a: set<nat>, b: set<nat>)
    requires a <= b
    ensures |a| <= |b|
  {
    if a != {} {
      var x :| x in a;
      SubsetSize(a - {x}, b - {x});
    }
  }

  // ---- Where the code parts from its own comments ----

  /** The same steps with nobody reading the reports: their time passes, and that is all. */
  function Unread(w: World, step: Step): World {
    if step.op.Report? then w.(clock := w.clock + step.elapsed) else Next(w, step)
  }

  function FromUnread(w: World, steps: seq<Step>): World {
    if steps == [] then w else Unread(FromUnread(w, steps[..|steps| - 1]), steps[|steps| - 1])
  }

  /** No cap and nothing to get one from. */
  ghost predicate AtRest(m: ModelState) {
    m.limit == 0 && m.rebuffs == [] && m.lastRebuff == None
  }

  /** What a report may have forgotten, any admission would have forgotten too. */
  ghost predicate SameToReaders(m: ModelState, m': ModelState, now: Instant) {
    && m.inflight == m'.inflight
    && (m == m' || (AtRest(m) && (AtRest(m') || AtLeastSince(m'.lastRebuff, now, DISSOLVE_AFTER))))
  }

  /** Everything but the model's own state is the same, and that is the same to readers. */
  ghost predicate SameToCallers(w: World, w': World) {
    w == w'.(m := w.m) && SameToReaders(w.m, w'.m, w.clock)
  }

  lemma {:induction false} ReportShowsNothing(w: World, w': World, step: Step)
    requires SameToCallers(w, w') && !step.op.Rebuff?
    ensures SameToCallers(Next(w, step), Unread(w', step))
  {
    var now := w.clock + step.elapsed;
    assert AtLeastSince(w'.m.lastRebuff, w.clock, DISSOLVE_AFTER)
           ==> AtLeastSince(w'.m.lastRebuff, now, DISSOLVE_AFTER);
    match step.op
    case ReadCap(_) => ReadersAgree(w.m, w'.m, now);
    case _ =>
  }

  lemma {:induction false} ReadersAgree(m: ModelState, m': ModelState, now: Instant)
    requires SameToReaders(m, m', now)
    ensures SameToReaders(Consulted(m, now), Consulted(m', now), now)
    ensures Consulted(m, now).limit == Consulted(m', now).limit
    ensures Consulted(m, now).limit > m.limit <==> Consulted(m', now).limit > m'.limit
  {
  }

  /** REPORTS SHOW ONLY THROUGH REBUFFS. From any state, until the next rebuff, however many
      reports are made and whatever they dissolve, every admission reads the cap it would have
      read and is admitted or refused just the same, and every growth comes when it would have. */
  lemma {:induction false} ReportsShowOnlyThroughRebuffs(w: World, steps: seq<Step>)
    requires forall k :: 0 <= k < |steps| ==> !steps[k].op.Rebuff?
    ensures SameToCallers(From(w, steps), FromUnread(w, steps))
  {
    if steps != [] {
      var n := |steps| - 1;
      ReportsShowOnlyThroughRebuffs(w, steps[..n]);
      ReportShowsNothing(From(w, steps[..n]), FromUnread(w, steps[..n]), steps[n]);
    }
  }

  lemma {:induction false} OneRebuff(m: ModelState, a: nat, t: Instant)
    requires m.limit == 0 && m.rebuffs == []
    ensures Rebuffed(m, a, t) == ModelState(0, m.inflight, [(t, a)], Some(t), m.lastAdjusted)
  {
    LanesOfOne(a, t);
    assert Recent([], t) + [(t, a)] == [(t, a)];
  }

  /** Two lanes rebuffed within ten seconds, the model as it was. */
  lemma {:induction false} SecondRebuff(m: ModelState, a: nat, b: nat, t1: Instant, t2: Instant)
    requires m.limit == 0 && m.rebuffs == [(t1, a)] && a != b && t1 <= t2 < t1 + EVIDENCE_WINDOW
    ensures var cooling := m.lastAdjusted.Some? && Since(t2, m.lastAdjusted.value) < ADJUST_COOLDOWN;
            var limit := if cooling then 0 else BackedOff(m.inflight);
            var moved := if cooling then m.lastAdjusted else Some(t2);
            Rebuffed(m, b, t2) == ModelState(limit, m.inflight, [(t1, a), (t2, b)], Some(t2), moved)
  {
    LanesOfTwo(a, b, t1, t2);
    assert Recent([(t1, a)], t2) + [(t2, b)] == [(t1, a), (t2, b)];
  }

  lemma {:induction false} LanesOfOne(a: nat, t: Instant)
    ensures ImplicatedKeys([(t, a)]) == 1 && Recent([], t) == []
  {
    var one: seq<Rebuff> := [(t, a)];
    ImplicatedKeysCountsLanes(one);
    assert one[0] in one;
    assert LaneSet(one) == {a};
  }

  lemma {:induction false} LanesOfTwo(a: nat, b: nat, t1: Instant, t2: Instant)
    requires a != b && t1 <= t2 < t1 + EVIDENCE_WINDOW
    ensures ImplicatedKeys([(t1, a), (t2, b)]) == 2 && Recent([(t1, a)], t2) == [(t1, a)]
  {
    var one, two: seq<Rebuff> := [(t1, a)], [(t1, a), (t2, b)];
    ImplicatedKeysCountsLanes(two);
    assert two[0] in two && two[1] in two;
    assert LaneSet(two) == {a, b};
    assert one[..0] == [];
  }

  /** Two rebuffs, with nothing between. */
  ghost function TwiceRebuffed(m: ModelState, a: nat, t1: Instant, b: nat, t2: Instant): ModelState {
    Rebuffed(Rebuffed(m, a, t1), b, t2)
  }

  /** Both ways of dissolving a cap forget the evidence, but only one forgets when the cap last
      moved: after the operator's report, pressure from two keys within ten seconds engages a new
      cap if and only if the old one had not moved for 5 s; after a consultation it always does. */
  lemma {:induction false} DissolvingByReportKeepsTheCutCooldown(m: ModelState, now: Instant,
                                                                 a: nat, t1: Instant, b: nat, t2: Instant)
    requires AtLeastSince(m.lastRebuff, now, 600 * SECOND) && a != b && t1 <= t2 < t1 + 10 * SECOND
    ensures TwiceRebuffed(Consulted(m, now), a, t1, b, t2).limit > 0
    ensures TwiceRebuffed(Reported(m, now), a, t1, b, t2).limit > 0 <==>
              (m.lastAdjusted.Some? ==> Since(t2, m.lastAdjusted.value) >= 5 * SECOND)
  {
    var consulted, reported := Consulted(m, now), Reported(m, now);
    OneRebuff(consulted, a, t1);
    SecondRebuff(Rebuffed(consulted, a, t1), a, b, t1, t2);
    OneRebuff(reported, a, t1);
    SecondRebuff(Rebuffed(reported, a, t1), a, b, t1, t2);
  }

  lemma {:induction false} OneStepMore(steps: seq<Step>, step: Step)
    ensures After(steps + [step]) == Next(After(steps), step)
  {
    assert (steps + [step])[..|steps|] == steps;
  }

  /** Two keys rebuffed at the very start engage a cap of two. */
  function Engaged(a: nat, b: nat): seq<Step> {
    [Step(0, Rebuff(a))] + [Step(0, Rebuff(b))]
  }

  ghost predicate JustEngaged(w: World, a: nat, b: nat) {
    && w.clock == 0 && w.read == map[] && w.live == {}
    && w.m == ModelState(2, 0, [(0, a), (0, b)], Some(0), Some(0))
  }

  lemma {:induction false} EngagedCap(a: nat, b: nat)
    requires a != b
    ensures JustEngaged(After(Engaged(a, b)), a, b)
  {
    var none: seq<Step> := [];
    assert none + [Step(0, Rebuff(a))] == [Step(0, Rebuff(a))];
    OneStepMore(none, Step(0, Rebuff(a)));
    OneStepMore([Step(0, Rebuff(a))], Step(0, Rebuff(b)));
    SecondEngages(FRESH, a, b);
  }

  lemma {:induction false} SecondEngages(w: World, a: nat, b: nat)
    requires w == FRESH && a != b
    ensures JustEngaged(Next(Next(w, Step(0, Rebuff(a))), Step(0, Rebuff(b))), a, b)
  {
    OneRebuff(w.m, a, 0);
    SecondRebuff(Rebuffed(w.m, a, 0), a, b, 0, 0);
  }

  /** And then: a growth at `g`; `last` once ten minutes have been quiet; and two more rebuffs of
      the two keys after that. */
  function LatePressure(a: nat, b: nat, g: nat, d: nat, last: Op, e1: nat, e2: nat): seq<Step> {
    Engaged(a, b) + [Step(g, ReadCap(0))] + [Step(d, last)] + [Step(e1, Rebuff(a))] + [Step(e2, Rebuff(b))]
  }

  /** The runs in which it shows: with a report for `last` the two keys engage no cap if the
      growth was less than five seconds before, and with a consultation they always do. */
  lemma {:induction false} ReportHidesCorrelatedPressure(a: nat, b: nat, g: nat, d: nat, e1: nat, e2: nat)
    requires a != b && 60 * SECOND <= g < 600 * SECOND <= g + d && e2 < 10 * SECOND
    ensures After(LatePressure(a, b, g, d, Report, e1, e2)).m.limit > 0 <==> d + e1 + e2 >= 5 * SECOND
    ensures After(LatePressure(a, b, g, d, ReadCap(1), e1, e2)).m.limit > 0
  {
    GrownCap(a, b, g);
    LateOutcome(Engaged(a, b) + [Step(g, ReadCap(0))], Report, a, b, d, e1, e2);
    LateOutcome(Engaged(a, b) + [Step(g, ReadCap(0))], ReadCap(1), a, b, d, e1, e2);
  }

  lemma {:induction false} GrownCap(a: nat, b: nat, g: nat)
    requires a != b && GROW_INTERVAL <= g < DISSOLVE_AFTER
    ensures var w := After(Engaged(a, b) + [Step(g, ReadCap(0))]);
            && w.clock == g && w.read == map[0 := 3] && w.live == {}
            && w.m == ModelState(3, 0, [(0, a), (0, b)], Some(0), Some(g))
  {
    EngagedCap(a, b);
    OneStepMore(Engaged(a, b), Step(g, ReadCap(0)));
    GrowsAt(After(Engaged(a, b)), a, b, g);
  }

  lemma {:induction false} GrowsAt(w: World, a: nat, b: nat, g: nat)
    requires JustEngaged(w, a, b) && GROW_INTERVAL <= g < DISSOLVE_AFTER
    ensures var w' := Next(w, Step(g, ReadCap(0)));
            && w'.clock == g && w'.read == map[0 := 3] && w'.live == {}
            && w'.m == ModelState(3, 0, [(0, a), (0, b)], Some(0), Some(g))
  {
  }

  lemma {:induction false} LateOutcome(s0: seq<Step>, last: Op, a: nat, b: nat, d: nat, e1: nat, e2: nat)
    requires a != b && e2 < EVIDENCE_WINDOW
    requires AtLeastSince(After(s0).m.lastRebuff, After(s0).clock + d, DISSOLVE_AFTER) &&
             After(s0).m.lastAdjusted == Some(After(s0).clock)
    requires last == Report || (last == ReadCap(1) && 1 !in After(s0).read && 1 !in After(s0).live)
    ensures After(s0 + [Step(d, last)] + [Step(e1, Rebuff(a))] + [Step(e2, Rebuff(b))]).m.limit > 0
       <==> last.ReadCap? || d + e1 + e2 >= ADJUST_COOLDOWN
  {
    var w1 := DissolvedStep(s0, last, d);
    var w2 := FirstRebuffStep(s0 + [Step(d, last)], a, e1);
    SecondOutcome(s0 + [Step(d, last)] + [Step(e1, Rebuff(a))], w2, a, b, e2);
  }

  lemma {:induction false} SecondOutcome(steps: seq<Step>, w: World, a: nat, b: nat, e: nat)
    requires w == After(steps) && w.m.limit == 0 && w.m.rebuffs == [(w.clock, a)] && a != b && e < EVIDENCE_WINDOW
    ensures After(steps + [Step(e, Rebuff(b))]).m.limit > 0
       <==> (w.m.lastAdjusted.Some? ==> Since(w.clock + e, w.m.lastAdjusted.value) >= ADJUST_COOLDOWN)
  {
    OneStepMore(steps, Step(e, Rebuff(b)));
    SecondRebuff(w.m, a, b, w.clock, w.clock + e);
  }

  lemma {:induction false} DissolvedStep(steps: seq<Step>, last: Op, d: nat) returns (w': World)
    requires AtLeastSince(After(steps).m.lastRebuff, After(steps).clock + d, DISSOLVE_AFTER)
    requires last == Report || (last == ReadCap(1) && 1 !in After(steps).read && 1 !in After(steps).live)
    ensures w' == After(steps + [Step(d, last)]) && w'.clock == After(steps).clock + d
    ensures w'.m == ModelState(0, w'.m.inflight, [], None, if last.Report? then After(steps).m.lastAdjusted else None)
  {
    OneStepMore(steps, Step(d, last));
    w' := Next(After(steps), Step(d, last));
  }

  lemma {:induction false} FirstRebuffStep(steps: seq<Step>, a: nat, e: nat) returns (w': World)
    requires After(steps).m.limit == 0 && After(steps).m.rebuffs == []
    ensures w' == After(steps + [Step(e, Rebuff(a))]) && w'.clock == After(steps).clock + e
    ensures w'.m == ModelState(0, w'.m.inflight, [(w'.clock, a)], Some(w'.clock), After(steps).m.lastAdjusted)
  {
    OneStepMore(steps, Step(e, Rebuff(a)));
    w' := Next(After(steps), Step(e, Rebuff(a)));
    OneRebuff(After(steps).m, a, w'.clock);
  }

  /** A cap grows whether or not the model was rebuffed in the meantime: all that counts is that
      the cap itself has not moved for 60 s and that the last rebuff is not ten minutes old. Once it
      is, the cap is gone; and otherwise it is read as it stands. */
  lemma {:induction false} GrowthIgnoresRebuffs(steps: seq<Step>, task: nat, elapsed: nat)
    requires var w := After(steps); task !in w.read && task !in w.live && w.m.limit > 0
    ensures After(steps).m.lastRebuff.Some? && After(steps).m.lastAdjusted.Some?
    ensures var w, w' := After(steps), Next(After(steps), Step(elapsed, ReadCap(task)));
            var quiet := Since(w'.clock, w.m.lastRebuff.value) >= 600 * SECOND;
            var settled := Since(w'.clock, w.m.lastAdjusted.value) >= 60 * SECOND;
      && (w'.m.limit == w.m.limit + 1 <==> !quiet && settled)
      && (w'.m.limit == 0 <==> quiet)
      && (w'.m.limit == w.m.limit <==> !quiet && !settled)
      && w'.read[task] == w'.m.limit
  {
    InflightIsLivePermits(steps);
  }

  /** The runs in which it shows: a rebuff at any moment up to the growth itself. */
  lemma {:induction false} CapGrowsRightAfterARebuff(a: nat, b: nat, e: nat)
    requires a != b && 10 * SECOND <= e <= 60 * SECOND
    ensures var w := After(Engaged(a, b) + [Step(e, Rebuff(a))]);
            var w' := Next(w, Step(60 * SECOND - e, ReadCap(0)));
            w.m.limit == 2 && w.m.lastRebuff == Some(e) && w'.m.limit == 3
  {
    EngagedCap(a, b);
    OneStepMore(Engaged(a, b), Step(e, Rebuff(a)));
    LoneRebuff(After(Engaged(a, b)), a, b, e);
  }

  lemma {:induction false} LoneRebuff(w: World, a: nat, b: nat, e: nat)
    requires JustEngaged(w, a, b) && e >= EVIDENCE_WINDOW
    ensures var w' := Next(w, Step(e, Rebuff(a)));
            w'.clock == e && w'.read == map[] && w'.live == {} && w'.m == ModelState(2, 0, [(e, a)], Some(e), Some(0))
  {
    var old2: seq<Rebuff> := [(0, a), (0, b)];
    FilterNoneIsEmpty(old2, IsRecent(e));
    LanesOfOne(a, e);
    assert [] + [(e, a)] == [(e, a)];
  }

  // ---- How fast a cap can move ----

  ghost predicate SpacedBy(times: seq<Instant>, gap: nat) {
    forall i, j :: 0 <= i < j < |times| ==> times[i] + gap <= times[j]
  }

  /** What the timestamps know of the histories. */
  ghost predicate CutsPaced(w: World) {
    && SpacedBy(w.cuts, ADJUST_COOLDOWN)
    && forall i :: 0 <= i < |w.cuts| ==>
         && w.cuts[i] <= w.clock
         && (w.m.lastRebuff.Some? ==> w.cuts[i] <= w.m.lastRebuff.value)
         && ((w.m.lastAdjusted.Some? && w.cuts[i] <= w.m.lastAdjusted.value) || w.cuts[i] + DISSOLVE_AFTER <= w.clock)
  }

  ghost predicate GrowthsPaced(w: World) {
    && SpacedBy(w.growths, GROW_INTERVAL)
    && forall i :: 0 <= i < |w.growths| ==>
         && w.growths[i] <= w.clock
         && (w.m.limit > 0 && w.m.lastAdjusted.Some? ==> w.growths[i] <= w.m.lastAdjusted.value)
  }

  lemma {:induction false} CutsStayPaced(w: World, step: Step)
    requires CutsPaced(w)
    ensures CutsPaced(Next(w, step))
  {
    if step.op.Rebuff? {
      CutIsPaced(w, step);
    }
  }

  lemma {:induction false} CutIsPaced(w: World, step: Step)
    requires CutsPaced(w) && step.op.Rebuff?
    ensures CutsPaced(Next(w, step))
  {
    var w' := Next(w, step);
    assert w'.cuts == w.cuts || w'.cuts == w.cuts + [w'.clock];
  }

  lemma {:induction false} GrowthsStayPaced(w: World, step: Step)
    requires Counted(w) && GrowthsPaced(w)
    ensures GrowthsPaced(Next(w, step))
  {
  }

  /** Cuts, engagements included, are at least 5 s apart in every run, dissolutions or not;
      growths are at least 60 s apart. */
  lemma {:induction false} CapMovesAreSpaced(steps: seq<Step>)
    ensures SpacedBy(After(steps).cuts, 5 * SECOND) && SpacedBy(After(steps).growths, 60 * SECOND)
    ensures CutsPaced(After(steps)) && GrowthsPaced(After(steps))
  {
    if steps != [] {
      var before := steps[..|steps| - 1];
      CapMovesAreSpaced(before);
      InflightIsLivePermits(before);
      CutsStayPaced(After(before), steps[|steps| - 1]);
      GrowthsStayPaced(After(before), steps[|steps| - 1]);
    }
  }

  /** `n` halved `k` times, never below the floor. */
  ghost function Halved(n: nat, k: nat): nat {
    if k == 0 then n else Halved(n, k - 1) / 2
  }

  ghost function Floored(n: nat): nat {
    if n < MIN_LIMIT then MIN_LIMIT else n
  }

  /** One step from a governed cap either dissolves it, keeps it, grows it by one, or cuts it
      to no less than half, and then records the cut. */
  lemma {:induction false} OneStepAtMostHalves(w: World, step: Step)
    requires Counted(w) && w.m.limit > 0
    ensures var w' := Next(w, step);
      || (w'.m.limit == 0 && w'.cuts == w.cuts)
      || (w'.m.limit == w.m.limit && w'.cuts == w.cuts)
      || (w'.m.limit == w.m.limit + 1 && w'.cuts == w.cuts)
      || (Floored(w.m.limit / 2) <= w'.m.limit < w.m.limit && w'.cuts == w.cuts + [w'.clock])
  {
  }

  ghost predicate StaysGoverned(w: World, more: seq<Step>) {
    forall k :: 0 <= k <= |more| ==> From(w, more[..k]).m.limit > 0
  }

  /** The cap is at least the old one halved once per cut since, and the floor. */
  ghost predicate KeepsFloor(w: World, w': World) {
    && |w.cuts| <= |w'.cuts| && w.clock <= w'.clock
    && (forall i :: |w.cuts| <= i < |w'.cuts| ==> w.clock <= w'.cuts[i])
    && w'.m.limit >= Floored(Halved(w.m.limit, |w'.cuts| - |w.cuts|))
  }

  /** THE CAP CANNOT COLLAPSE. From any reachable state, for as long as the cap does not
      dissolve, it stays at least the old cap halved once per cut and never below 2; and over a
      time T there are at most 1 + T / 5 s cuts. */
  lemma {:induction false} CapCannotCollapse(steps: seq<Step>, more: seq<Step>)
    requires StaysGoverned(After(steps), more)
    ensures var w := After(steps);
      var w' := From(w, more);
      && KeepsFloor(w, w')
      && |w'.cuts| - |w.cuts| <= 1 + (w'.clock - w.clock) / (5 * SECOND)
  {
    InflightIsLivePermits(steps);
    CapMovesAreSpaced(steps);
    CannotCollapseFrom(After(steps), more);
  }

  lemma {:induction false} CannotCollapseFrom(w: World, more: seq<Step>)
    requires Counted(w) && CutsPaced(w) && StaysGoverned(w, more)
    ensures var w' := From(w, more);
            KeepsFloor(w, w') && |w'.cuts| - |w.cuts| <= 1 + (w'.clock - w.clock) / ADJUST_COOLDOWN
  {
    var w' := From(w, more);
    assert KeepsFloor(w, w') && CutsPaced(w') by { CutsKeepTheFloor(w, more); }
    FewCuts(w, w');
  }

  lemma {:induction false} FewCuts(w: World, w': World)
    requires KeepsFloor(w, w') && CutsPaced(w')
    ensures |w'.cuts| - |w.cuts| <= 1 + (w'.clock - w.clock) / ADJUST_COOLDOWN
  {
    var n := |w'.cuts| - |w.cuts|;
    if n > 0 {
      SpanOfSpaced(w'.cuts, |w.cuts|, |w'.cuts| - 1);
      assert w.clock + (n - 1) * ADJUST_COOLDOWN <= w'.clock;
    }
  }

  lemma {:induction false} StepKeepsFloor(w: World, v: World, step: Step)
    requires KeepsFloor(w, v) && Counted(v) && v.m.limit > 0 && Next(v, step).m.limit > 0
    ensures KeepsFloor(w, Next(v, step))
  {
    OneStepAtMostHalves(v, step);
  }

  lemma {:induction false} CutsKeepTheFloor(w: World, more: seq<Step>)
    requires Counted(w) && CutsPaced(w) && StaysGoverned(w, more)
    ensures KeepsFloor(w, From(w, more)) && Counted(From(w, more)) && CutsPaced(From(w, more))
  {
    assert more[..|more|] == more;
    if more == [] {
    } else {
      var n := |more| - 1;
      assert forall k :: 0 <= k <= n ==> more[..n][..k] == more[..k];
      CutsKeepTheFloor(w, more[..n]);
      var v := From(w, more[..n]);
      assert From(w, more[..n + 1]).m.limit > 0;
      StepKeepsFloor(w, v, more[n]);
      StaysCounted(v, more[n]);
      CutsStayPaced(v, more[n]);
    }
  }

  lemma {:induction false} SpanOfSpaced(times: seq<Instant>, i: nat, j: nat)
    requires SpacedBy(times, ADJUST_COOLDOWN) && i <= j < |times|
    ensures times[i] + (j - i) * ADJUST_COOLDOWN <= times[j]
    decreases j
  {
    if i < j {
      SpanOfSpaced(times, i, j - 1);
    }
  }
}
