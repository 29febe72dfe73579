/** The store and the live pool together: settings steps, grants and benches in one run, and
    what that run is to the lanes. */
module Service {
  import opened Basics
  import opened Pools
  import opened Config
  import opened Lanes
  import opened Settings
  import opened Windows
  import Pacing

  /** The store's world, and the lanes with their hits and cooldowns. */
  datatype Service = Service(world: World, live: PoolView)

  datatype Act = Do(step: Step) | Serve(event: Pacing.Event)

  /** What a settings step does to the live pool, if anything. */
  function Effect(w: World, step: Step): (e: Option<Pacing.Event>)
    ensures e.Some? ==> !e.value.Timed()
  {
    match step
    case Swap(task) =>
      if task !in w.tasks || !w.tasks[task].Filed? then None
      else if w.tasks[task].renews then Some(Pacing.Renew(LaneSpecs(w.tasks[task].c.providers)))
      else Some(Pacing.Rebuild(LaneSpecs(w.tasks[task].c.providers)))
    case Restart => Some(Pacing.Renew(LaneSpecs(Boot(w.disk).store.providers)))
    case _ => None
  }

  function LiveNext(window: nat, w: World, live: PoolView, step: Step): PoolView {
    match Effect(w, step)
    case None => live
    case Some(Rebuild(specs)) => Rebuilt(live, specs, window)
    case Some(Renew(specs)) => Rebuilt([], specs, window)
    case Some(_) => live
  }

  ghost predicate Moves(window: nat, s: Service, act: Act, s': Service) {
    match act
    case Do(step) => s' == Service(Next(s.world, step), LiveNext(window, s.world, s.live, step))
    case Serve(e) => e.Timed() && s'.world == s.world && Pacing.Step(window, s.live, e, s'.live)
  }

  /** A server from its first boot on an empty disk: any steps of any handlers, restarts, grants
      and benches, in any order, on a clock that never runs backwards. */
  datatype History = History(window: nat, services: seq<Service>, acts: seq<Act>)
  {
    ghost predicate Valid() {
      && |services| == |acts| + 1
      && services[0] == Service(Boot(None), [])
      && (forall k :: 0 <= k < |acts| ==> Follows(k))
      && (forall i: nat, j: nat :: i < j < |acts| ==> InOrder(i, j))
    }

    ghost predicate Follows(k: nat) {
      k < |acts| && k + 1 < |services| && Moves(window, services[k], acts[k], services[k + 1])
    }

    ghost predicate InOrder(i: nat, j: nat) {
      i < |acts| && j < |acts| && (acts[i].Serve? && acts[j].Serve? && acts[i].event.Timed() && acts[j].event.Timed()
                                   ==> acts[i].event.now <= acts[j].event.now)
    }

    /** What the lanes go through. A step that leaves them alone reads as a rebuild with the
        specs they have, which changes nothing. */
    ghost function AsRun(): (r: Pacing.Run)
      requires |services| == |acts| + 1
      ensures r.window == window && |r.states| == |services| && |r.events| == |acts|
      ensures forall k :: 0 <= k < |services| ==> r.states[k] == services[k].live
      ensures forall k :: 0 <= k < |acts| ==> r.events[k] == EventOf(services[k], acts[k])
    {
      Pacing.Run(window, seq(|services|, k requires 0 <= k < |services| => services[k].live),
                 seq(|acts|, k requires 0 <= k < |acts| && |services| == |acts| + 1 => EventOf(services[k], acts[k])))
    }
  }

  function EventOf(s: Service, act: Act): Pacing.Event {
    match act
    case Serve(e) => e
    case Do(step) =>
      var effect := Effect(s.world, step);
      if effect.Some? then effect.value else Pacing.Rebuild(Specs(s.live))
  }

  /** What a lane starts with when a pool is swapped in. */
  ghost predicate StartsFrom(was: PoolView, lane: LaneView, carries: bool) {
    if carries && exists j :: 0 <= j < |was| && SameKey(was[j], lane)
    then exists j :: 0 <= j < |was| && SameKey(was[j], lane) && TakesOver(was[j], lane)
    else lane.hits == [] && lane.cooldown == None
  }

  predicate TakesOver(a: LaneView, b: LaneView) {
    b.hits == a.hits && b.cooldown == a.cooldown
  }

  predicate SameKey(a: LaneView, b: LaneView) {
    a.spec.provider == b.spec.provider && a.spec.key == b.spec.key
  }

  ghost predicate AllStartFrom(was: PoolView, lanes: PoolView, carries: bool) {
    forall i :: 0 <= i < |lanes| ==> StartsFrom(was, lanes[i], carries)
  }

  /** WHAT A SETTINGS STEP DOES TO THE LIVE LANES. Only a swap and a restart touch them. An edit's
      swap puts up the lanes of its copy, each with the hits and cooldown of the lane that had
      its provider and key, or unused; the claim's swap and a restart put up unused ones. */
  lemma {:induction false} LanesStartFrom(window: nat, w: World, live: PoolView, step: Step)
    ensures var live' := LiveNext(window, w, live, step);
      match step
      case Restart =>
        && AllStartFrom(live, live', false)
        && Specs(live') == if w.disk.Some? then LaneSpecs(w.disk.value.providers) else []
      case Swap(task) =>
        if task in w.tasks && w.tasks[task].Filed? then
          && AllStartFrom(live, live', !w.tasks[task].renews)
          && Specs(live') == LaneSpecs(w.tasks[task].c.providers)
        else live' == live
      case _ => live' == live
  {
    match Effect(w, step)
    case None =>
    case Some(Rebuild(specs)) => RebuiltStartsFrom(live, live, specs, window, true);
    case Some(Renew(specs)) => RebuiltStartsFrom([], live, specs, window, false);
  }

  lemma {:induction false} RebuiltStartsFrom(prior: PoolView, was: PoolView, specs: seq<LaneSpec>, window: nat,
                                             carries: bool)
    requires prior == if carries then was else []
    ensures AllStartFrom(was, Rebuilt(prior, specs, window), carries)
  {
    var next := Rebuilt(prior, specs, window);
    forall i | 0 <= i < |next| ensures StartsFrom(was, next[i], carries) {
      assert next[i] == Successor(prior, specs[i], window);
      assert forall j :: 0 <= j < |was| ==> (SameKey(was[j], next[i]) <==> was[j].Id() == specs[i].Id());
    }
  }

  /** The lanes are those of the world's pool, and every world is good. */
  ghost predicate Sane(s: Service, window: nat) {
    GoodWorld(s.world) && Specs(s.live) == s.world.pool && forall i :: 0 <= i < |s.live| ==> s.live[i].window == window
  }

  lemma {:induction false} GoodSpecsAreLive(specs: seq<LaneSpec>)
    requires GoodSpecs(specs)
    ensures LiveSpecs(specs)
  {
  }

  lemma {:induction false} RebuiltIsSane(live: PoolView, specs: seq<LaneSpec>, window: nat)
    ensures forall i :: 0 <= i < |specs| ==> Rebuilt(live, specs, window)[i].window == window
  {
    forall i | 0 <= i < |specs| ensures Rebuilt(live, specs, window)[i].window == window {
      assert Rebuilt(live, specs, window)[i] == Successor(live, specs[i], window);
    }
  }

  lemma {:induction false} ServingIsSane(window: nat, s: Service, e: Pacing.Event, s': Service)
    requires Sane(s, window) && Moves(window, s, Serve(e), s')
    ensures Sane(s', window)
  {
    if e.Acquire? {
      forall i | 0 <= i < |s.live| ensures s'.live[i].spec == s.live[i].spec && s'.live[i].window == window {
        assert Pacing.LaneStep(s.live[i], s'.live[i], e.now, e.granted == Some(i));
      }
    }
    assert Specs(s'.live) == Specs(s.live);
  }

  lemma {:induction false} DoingIsSane(window: nat, s: Service, step: Step, s': Service)
    requires Sane(s, window) && Moves(window, s, Do(step), s')
    ensures Sane(s', window)
    ensures Pacing.Step(window, s.live, EventOf(s, Do(step)), s'.live)
  {
    EveryStepKeepsTheWorldGood(s.world, step);
    GoodSpecsAreLive(s'.world.pool);
    match Effect(s.world, step)
    case None =>
      DiskAndPoolMoveOnlySo(s.world, step);
      Pacing.RebuildingInPlaceChangesNothing(s.live, window);
    case Some(e) =>
      RebuiltIsSane(if e.Rebuild? then s.live else [], e.specs, window);
  }

  /** ONE RUN OF THE LANES. Whatever the handlers, the dispatcher and the upstreams do from the
      first boot on, restarts included, the lanes go through a valid run of grants, benches,
      rebuilds and fresh starts, and are always those of the pool last swapped in. */
  lemma {:induction false} TheLanesMakeARun(h: History)
    requires h.Valid()
    ensures h.AsRun().Valid()
    ensures forall k :: 0 <= k < |h.services| ==> Sane(h.services[k], h.window)
  {
    var r := h.AsRun();
    StatesAreSane(h, |h.acts|);
    forall k | 0 <= k < |h.acts| ensures r.Follows(k) {
      assert Sane(h.services[k], h.window);
      ActIsAnEvent(h, k);
    }
    forall i: nat, j: nat | i < j < |h.acts| ensures r.InOrder(i, j) {
      assert h.InOrder(i, j);
    }
  }

  lemma {:induction false} ActIsAnEvent(h: History, k: nat)
    requires h.Valid() && k < |h.acts| && Sane(h.services[k], h.window)
    ensures Sane(h.services[k + 1], h.window)
    ensures Pacing.Step(h.window, h.services[k].live, EventOf(h.services[k], h.acts[k]), h.services[k + 1].live)
  {
    assert h.Follows(k);
    var s, s' := h.services[k], h.services[k + 1];
    match h.acts[k]
    case Do(step) => DoingIsSane(h.window, s, step, s');
    case Serve(e) => ServingIsSane(h.window, s, e, s');
  }

  lemma {:induction false} StatesAreSane(h: History, n: nat)
    requires h.Valid() && n <= |h.acts|
    ensures forall k :: 0 <= k <= n ==> Sane(h.services[k], h.window)
  {
    if n == 0 {
      FirstBootIsGood();
    } else {
      StatesAreSane(h, n - 1);
      ActIsAnEvent(h, n - 1);
    }
  }

  // ---- A key in every save ----

  ghost predicate HasLane(c: Store, id: LaneId) {
    exists i :: 0 <= i < |LaneSpecs(c.providers)| && LaneSpecs(c.providers)[i].Id() == id
  }

  /** The claim is over, its pool swapped in. */
  ghost predicate ClaimDone(w: World) {
    !w.setupRequired && forall t :: t in w.tasks ==> !Claims(w.tasks[t])
  }

  predicate Claims(phase: Phase) {
    phase.Claiming? || phase.Opened? || (phase.Filed? && phase.renews)
  }

  /** Every copy saved but not yet swapped in has the key. */
  ghost predicate InEveryFiled(w: World, id: LaneId) {
    forall t :: t in w.tasks && w.tasks[t].Filed? ==> HasLane(w.tasks[t].c, id)
  }

  /** If act `m` saves a copy of the store, the key is in it. */
  ghost predicate SavesWith(h: History, id: LaneId, m: nat)
    requires h.Valid() && m < |h.acts|
  {
    var w, act := h.services[m].world, h.acts[m];
    act.Do? && act.step.Save? && act.step.task in w.tasks && w.tasks[act.step.task].Stamped?
    ==> HasLane(w.tasks[act.step.task].c, id)
  }

  /** From act `from` to act `k` the process is not restarted and the key is live, and in
      everything that is saved. */
  ghost predicate InEverySave(h: History, id: LaneId, from: nat, k: nat)
    requires h.Valid()
  {
    && from <= k <= |h.acts|
    && FindLane(h.services[from].live, id).Some?
    && ClaimDone(h.services[from].world) && InEveryFiled(h.services[from].world, id)
    && (forall m :: from <= m < k ==> h.acts[m] != Do(Restart) && SavesWith(h, id, m))
  }

  lemma {:induction false} WorldStaysClaimed(w: World, step: Step, id: LaneId)
    requires ClaimDone(w) && InEveryFiled(w, id) && step != Restart
    requires step.Save? && step.task in w.tasks && w.tasks[step.task].Stamped? ==> HasLane(w.tasks[step.task].c, id)
    ensures ClaimDone(Next(w, step)) && InEveryFiled(Next(w, step), id)
  {
    match step
    case Begin(task, cmd) =>
      if task !in w.tasks && !cmd.Setup? {
        EditStaysClaimed(w, task, Guarded(cmd), Swaps(cmd), Edit(w.store, cmd), id);
      }
    case Open(_) =>
    case Snapshot(_) =>
    case Save(_, _) =>
    case Swap(_) =>
  }

  lemma {:induction false} EditStaysClaimed(w: World, task: nat, guarded: bool, swaps: bool, edited: Option<Store>,
                                            id: LaneId)
    requires ClaimDone(w) && InEveryFiled(w, id)
    ensures ClaimDone(EditedNext(w, task, guarded, swaps, edited)) &&
            InEveryFiled(EditedNext(w, task, guarded, swaps, edited), id)
  {
  }

  ghost predicate CarriesOn(s: Service, id: LaneId) {
    ClaimDone(s.world) && InEveryFiled(s.world, id) && FindLane(s.live, id).Some?
  }

  lemma {:induction false} CarriesOnThroughout(h: History, id: LaneId, from: nat, k: nat)
    requires h.Valid() && InEverySave(h, id, from, k)
    ensures CarriesOn(h.services[k], id)
    decreases k
  {
    if from < k {
      assert SavesWith(h, id, k - 1);
      CarriesOnThroughout(h, id, from, k - 1);
      CarriesOnOneMore(h, id, k - 1);
    }
  }

  lemma {:induction false} CarriesOnOneMore(h: History, id: LaneId, k: nat)
    requires h.Valid() && k < |h.acts| && h.acts[k] != Do(Restart) && SavesWith(h, id, k) &&
             CarriesOn(h.services[k], id)
    ensures CarriesOn(h.services[k + 1], id) && !EventOf(h.services[k], h.acts[k]).Renew?
  {
    assert h.Follows(k);
    var s, s' := h.services[k], h.services[k + 1];
    match h.acts[k]
    case Do(step) =>
      WorldStaysClaimed(s.world, step, id);
      LaneSurvives(h.window, s.world, s.live, step, id);
    case Serve(e) => ServingKeepsLanes(h.window, s, e, s', id);
  }

  /** So its lane is never missing and never starts afresh. */
  lemma {:induction false} SavedKeysAreKept(h: History, id: LaneId, from: nat, k: nat)
    requires h.Valid() && InEverySave(h, id, from, k)
    ensures h.AsRun().Kept(id, from, k)
  {
    var r := h.AsRun();
    forall m | from <= m <= k ensures r.Has(id, m) {
      CarriesOnThroughout(h, id, from, m);
    }
    forall m | from <= m < k ensures !r.Renewed(m) {
      CarriesOnThroughout(h, id, from, m);
      assert SavesWith(h, id, m);
      CarriesOnOneMore(h, id, m);
    }
  }

  lemma {:induction false} LaneSurvives(window: nat, w: World, live: PoolView, step: Step, id: LaneId)
    requires ClaimDone(w) && InEveryFiled(w, id) && step != Restart && FindLane(live, id).Some?
    ensures FindLane(LiveNext(window, w, live, step), id).Some?
    ensures Effect(w, step).Some? ==> !Effect(w, step).value.Renew?
  {
    if step.Swap? && step.task in w.tasks && w.tasks[step.task].Filed? {
      var specs := LaneSpecs(w.tasks[step.task].c.providers);
      assert !Claims(w.tasks[step.task]) && HasLane(w.tasks[step.task].c, id);
      var i :| 0 <= i < |specs| && specs[i].Id() == id;
      assert Specs(Rebuilt(live, specs, window))[i] == specs[i];
    }
  }

  lemma {:induction false} ServingKeepsLanes(window: nat, s: Service, e: Pacing.Event, s': Service, id: LaneId)
    requires Moves(window, s, Serve(e), s') && FindLane(s.live, id).Some?
    ensures FindLane(s'.live, id).Some?
  {
    var i := FindLane(s.live, id).value;
    if e.Acquire? {
      assert Pacing.LaneStep(s.live[i], s'.live[i], e.now, e.granted == Some(i));
    }
    assert s'.live[i].Id() == id;
  }

  /** PACED ACROSS EVERY SAVED EDIT. However many settings are edited, refused, saved or lost
      meanwhile, and in whatever interleaving: at each grant on a key that is in everything
      saved since `from`, the grants on it since then that fall in the trailing window number
      at most the rpm then in force. */
  lemma {:induction false} PacedAcrossSavedEdits(h: History, id: LaneId, from: nat, k: nat)
    requires h.Valid() && k < |h.acts| && InEverySave(h, id, from, k) && h.AsRun().Grants(id, k)
    ensures h.AsRun().Has(id, k)
    ensures var r := h.AsRun();
            Spent(r.GrantLog(id, from, k + 1), h.window, h.acts[k].event.now) <= r.LaneAt(id, k).spec.rpm
  {
    TheLanesMakeARun(h);
    SavedKeysAreKept(h, id, from, k);
    Pacing.PacedAcrossReconfiguration(h.AsRun(), id, from, k);
  }
}
