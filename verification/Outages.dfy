/** How the live pool can come to have no lane. */
module Outages {
  import opened Basics
  import opened Pools
  import opened Config
  import opened Lanes
  import opened Settings
  import Failover
  import Urls

  // ---- At one step ----

  /** The pool goes empty exactly when a handler swaps in a copy of the store that had no lane
      when it was taken, or the process restarts on one. */
  lemma {:induction false} PoolEmptiesIff(w: World, step: Step)
    requires GoodWorld(w) && w.pool != []
    ensures Next(w, step).pool == [] <==>
              || (step.Swap? && step.task in w.tasks && w.tasks[step.task].Filed? && Dry(w.tasks[step.task].c))
              || (step.Restart? && Dry(w.disk.value))
  {
  }

  // ---- Without any more key or provider edits ----

  /** Some copy of the store has no lane: in memory, on disk, or in a handler's hands. */
  ghost predicate SomewhereDry(w: World) {
    || Dry(w.store)
    || (w.disk.Some? && Dry(w.disk.value))
    || exists t :: t in w.tasks && HoldsDry(w.tasks[t])
  }

  predicate HoldsDry(phase: Phase) {
    (phase.Stamped? || phase.Filed?) && Dry(phase.c)
  }

  /** No new key or provider edit, and no claim. */
  predicate Calm(step: Step) {
    step.Begin? ==> !Guarded(step.cmd) && !step.cmd.Setup?
  }

  ghost predicate AllCalm(steps: seq<Step>) {
    forall k :: 0 <= k < |steps| ==> Calm(steps[k])
  }

  lemma {:induction false} CalmEditKeepsLanes(c: Store, cmd: Command)
    requires !Guarded(cmd) && Edit(c, cmd).Some?
    ensures Dry(Edit(c, cmd).value) == Dry(c)
  {
  }

  ghost predicate Wet(w: World) {
    GoodWorld(w) && !w.setupRequired && !SomewhereDry(w) && w.pool != []
  }

  lemma {:induction false} WetStaysWet(w: World, step: Step)
    requires Wet(w) && Calm(step)
    ensures Wet(Next(w, step))
  {
    EveryStepKeepsTheWorldGood(w, step);
    PoolEmptiesIff(w, step);
    StaysUndry(w, step);
  }

  lemma {:induction false} StaysUndry(w: World, step: Step)
    requires Wet(w) && Calm(step)
    ensures !SomewhereDry(Next(w, step)) && Next(w, step).pool != []
  {
    match step
    case Begin(task, cmd) =>
      if task !in w.tasks && Edit(w.store, cmd).Some? {
        CalmEditKeepsLanes(w.store, cmd);
      }
      WetBegin(w, task, Swaps(cmd), Edit(w.store, cmd));
    case Open(task) => NoTaskIsDry(w, OpenNext(w, task));
    case Snapshot(task) => NoTaskIsDry(w, SnapshotNext(w, task));
    case Save(task, ok) => WetSave(w, task, ok);
    case Swap(task) => WetSwap(w, task);
    case Restart =>
  }

  lemma {:induction false} WetBegin(w: World, task: nat, swaps: bool, edited: Option<Store>)
    requires !SomewhereDry(w) && (task !in w.tasks && edited.Some? ==> !Dry(edited.value))
    ensures task !in w.tasks ==> !SomewhereDry(EditedNext(w, task, false, swaps, edited))
  {
    if task !in w.tasks && edited.Some? {
      NoTaskIsDry(w, EditedNext(w, task, false, swaps, edited));
    }
  }

  lemma {:induction false} WetSave(w: World, task: nat, ok: bool)
    requires !SomewhereDry(w)
    ensures !SomewhereDry(SaveNext(w, task, ok))
  {
    assert task in w.tasks ==> !HoldsDry(w.tasks[task]);
    NoTaskIsDry(w, SaveNext(w, task, ok));
  }

  lemma {:induction false} WetSwap(w: World, task: nat)
    requires !SomewhereDry(w)
    ensures !SomewhereDry(SwapNext(w, task))
    ensures w.pool != [] ==> SwapNext(w, task).pool != []
  {
    assert task in w.tasks ==> !HoldsDry(w.tasks[task]);
    NoTaskIsDry(w, SwapNext(w, task));
  }

  /** A task's copy is one it had, or the store as it is. */
  lemma {:induction false} NoTaskIsDry(w: World, w': World)
    requires !SomewhereDry(w) && !Dry(w'.store)
    requires forall t :: t in w'.tasks && (w'.tasks[t].Stamped? || w'.tasks[t].Filed?) ==>
               || w'.tasks[t].c == w'.store
               || (t in w.tasks && (w.tasks[t].Stamped? || w.tasks[t].Filed?) && w.tasks[t].c == w'.tasks[t].c)
    ensures forall t :: t in w'.tasks ==> !HoldsDry(w'.tasks[t])
  {
    forall t | t in w'.tasks ensures !HoldsDry(w'.tasks[t]) {
      if w'.tasks[t].Stamped? || w'.tasks[t].Filed? {
        assert t in w.tasks ==> !HoldsDry(w.tasks[t]);
      }
    }
  }

  lemma {:induction false} WetForAllCalm(w: World, steps: seq<Step>)
    requires Wet(w) && AllCalm(steps)
    ensures Wet(After(w, steps))
  {
    if steps != [] {
      var n := |steps| - 1;
      WetForAllCalm(w, steps[..n]);
      WetStaysWet(After(w, steps[..n]), steps[n]);
    }
  }

  ghost predicate CanEmpty(w: World) {
    exists steps :: AllCalm(steps) && After(w, steps).pool == []
  }

  /** EXACTLY WHEN THE POOL CAN GO EMPTY with no more key or provider edits: when the store, the
      disk or some copy in flight has no lane. */
  lemma {:induction false} PoolCanEmptyIff(w: World)
    requires GoodWorld(w) && !w.setupRequired && w.pool != []
    ensures CanEmpty(w) <==> SomewhereDry(w)
  {
    if SomewhereDry(w) {
      var steps := WayToEmpty(w);
    } else if CanEmpty(w) {
      var steps :| AllCalm(steps) && After(w, steps).pool == [];
      WetForAllCalm(w, steps);
    }
  }

  lemma {:induction false} WayToEmpty(w: World) returns (steps: seq<Step>)
    requires GoodWorld(w) && !w.setupRequired && SomewhereDry(w)
    ensures AllCalm(steps) && After(w, steps).pool == []
  {
    if w.disk.Some? && Dry(w.disk.value) {
      steps := [Restart];
      AfterOne(w, Restart);
    } else if t :| t in w.tasks && HoldsDry(w.tasks[t]) {
      steps := FinishTask(w, t);
    } else {
      steps := ResaveAndRestart(w);
    }
  }

  lemma {:induction false} FinishTask(w: World, t: nat) returns (steps: seq<Step>)
    requires t in w.tasks && HoldsDry(w.tasks[t])
    ensures AllCalm(steps) && After(w, steps).pool == []
  {
    if w.tasks[t].Filed? {
      steps := [Swap(t)];
      AfterOne(w, Swap(t));
    } else {
      steps := [Save(t, true), Restart];
      AfterTwo(w, Save(t, true), Restart);
    }
  }

  /** A dry store empties the pool by way of the disk, whatever form is saved next. */
  lemma {:induction false} ResaveAndRestart(w: World) returns (steps: seq<Step>)
    requires !w.setupRequired && Dry(w.store)
    ensures AllCalm(steps) && After(w, steps).pool == []
  {
    var t := Unused(w.tasks.Keys);
    steps := [Begin(t, Resave), Save(t, true), Restart];
    var w1 := w.(tasks := w.tasks[t := Stamped(w.store, false)]);
    assert BeginNext(w, t, Resave) == w1;
    AfterTwo(w, Begin(t, Resave), Save(t, true));
    assert steps[..2] == [Begin(t, Resave), Save(t, true)];
    assert SaveNext(w1, t, true).disk == Some(w.store);
  }

  lemma {:induction false} AfterOne(w: World, a: Step)
    ensures After(w, [a]) == Next(w, a)
  {
    assert [a][..0] == [];
  }

  lemma {:induction false} AfterTwo(w: World, a: Step, b: Step)
    ensures After(w, [a, b]) == Next(Next(w, a), b)
  {
    AfterOne(w, a);
    assert [a, b][..1] == [a];
  }

  /** A number not yet in use. */
  lemma {:induction false} Unused(used: set<nat>) returns (n: nat)
    ensures n !in used && forall m :: m in used ==> m < n
  {
    if used == {} {
      n := 0;
    } else {
      var x :| x in used;
      var below := Unused(used - {x});
      n := if x < below then below else x + 1;
      forall m | m in used ensures m < n {
        assert m == x || m in used - {x};
      }
    }
  }

  // ---- Two handlers at once ----

  /** Left alone from here, the handler saves, swaps in a pool with no lane and answers success. */
  ghost predicate EndsDry(w: World, task: nat) {
    var w1 := SaveNext(SnapshotNext(w, task), task, true);
    var w2 := SwapNext(w1, task);
    ReplyTo(w1, Swap(task)) == Some(Saved) && w2.pool == [] && w2.disk == Some(w2.store) && Dry(w2.store)
  }

  /** A key edit that keeps a lane can still be the one that empties the pool. If another edit,
      refused because it would leave none, comes between the first handler's edit and its copy,
      the first answers success and swaps in no lane at all. */
  lemma {:induction false} TwoKeyEditsCanEmptyThePool(w: World, t1: nat, a: KeyAction, t2: nat, b: KeyAction)
    requires Good(w.store) && !w.setupRequired && t1 != t2 && t1 !in w.tasks && t2 !in w.tasks
    requires EditKeys(w.store, a).Some? && !Dry(EditKeys(w.store, a).value)
    requires KeyEditBites(EditKeys(w.store, a).value, b)
    ensures var w1 := BeginNext(w, t1, Keys(a));
            && ReplyTo(w, Begin(t1, Keys(a))) == None
            && ReplyTo(w1, Begin(t2, Keys(b))) == Some(Refused)
            && EndsDry(BeginNext(w1, t2, Keys(b)), t1)
  {
    var c1 := EditKeys(w.store, a).value;
    assert GoodProviders(c1.providers) by { KeyEditIsGood(w.store, a); }
    KeyEditDrainsIff(c1, b);
    var w1 := BeginsWith(w, t1, Keys(a), c1);
    var w2 := BeginsWith(w1, t2, Keys(b), EditKeys(c1, b).value);
    TwoEditsCanEmptyThePool(w, t1, c1, t2, EditKeys(c1, b).value);
  }

  lemma {:induction false} BeginsWith(w: World, task: nat, cmd: Command, c: Store) returns (w': World)
    requires !w.setupRequired && task !in w.tasks && cmd.Keys? && EditKeys(w.store, cmd.key) == Some(c)
    ensures w' == BeginNext(w, task, cmd) == EditedNext(w, task, true, true, Some(c))
    ensures ReplyTo(w, Begin(task, cmd)) == if Dry(c) then Some(Refused) else None
  {
    w' := BeginNext(w, task, cmd);
  }

  lemma {:induction false} TwoEditsCanEmptyThePool(w: World, t1: nat, c1: Store, t2: nat, c2: Store)
    requires !Dry(c1) && Dry(c2)
    ensures EndsDry(EditedNext(EditedNext(w, t1, true, true, Some(c1)), t2, true, true, Some(c2)), t1)
  {
    RestOfTheRound(EditedNext(EditedNext(w, t1, true, true, Some(c1)), t2, true, true, Some(c2)), t1);
  }

  /** From its edit on, a handler left alone saves and swaps in the store as it finds it. */
  lemma {:induction false} RestOfTheRound(w: World, task: nat)
    requires At(w, task, Edited)
    ensures var w1 := SaveNext(SnapshotNext(w, task), task, true);
            var w2 := SwapNext(w1, task);
            && At(w1, task, Filed(w.store, false)) && w1.store == w.store
            && w2 == w.(disk := Some(w.store), pool := LaneSpecs(w.store.providers), tasks := w.tasks - {task})
  {
    var w0 := SnapshotNext(w, task);
    assert w0 == w.(tasks := w.tasks[task := Stamped(w.store, true)]);
    var w1 := SaveNext(w0, task, true);
    assert w1 == w.(disk := Some(w.store), tasks := w.tasks[task := Filed(w.store, false)]);
    assert w1.tasks - {task} == w.tasks - {task};
  }

  function Disable(provider: string, x: nat): KeyAction {
    UpdateKey(provider, x, Some(false), None)
  }

  /** And whenever exactly two keys of one provider are live, switching off one and, meanwhile,
      the other is such a pair: each alone would be let through. */
  lemma {:induction false} AnyTwoLiveKeysCanBeDrained(c: Store, provider: string, x: nat, y: nat)
    requires Good(c) && FindProvider(c.providers, provider).Some?
    requires var p := c.providers[FindProvider(c.providers, provider).value];
      && x < |p.keys| && y < |p.keys| && x != y && Live(p.keys[x]) && Live(p.keys[y])
      && TwoLanes(c.providers, FindProvider(c.providers, provider).value, x, y)
    ensures EditKeys(c, Disable(provider, x)).Some? && !Dry(EditKeys(c, Disable(provider, x)).value)
    ensures KeyEditBites(EditKeys(c, Disable(provider, x)).value, Disable(provider, y))
  {
    var ps, i, c' := c.providers, FindProvider(c.providers, provider).value, EditKeys(c, Disable(provider, x)).value;
    assert GoodProviders(c'.providers) by { KeyEditIsGood(c, Disable(provider, x)); }
    assert c'.providers == ps[i := ps[i].(keys := ps[i].keys[x := ps[i].keys[x].(enabled := false)])];
    SameFind(ps, c'.providers, provider);
    OneLaneLeft(ps, c'.providers, i, x, y);
  }

  lemma {:induction false} OneLaneLeft(ps: seq<Provider>, ps': seq<Provider>, i: nat, x: nat, y: nat)
    requires GoodProviders(ps') && i < |ps| && x < |ps[i].keys| && y < |ps[i].keys| && x != y && Live(ps[i].keys[y])
    requires ps' == ps[i := ps[i].(keys := ps[i].keys[x := ps[i].keys[x].(enabled := false)])] && TwoLanes(ps, i, x, y)
    ensures LaneSpecs(ps') != [] && OnlyLane(ps', LaneId(ps[i].name, ps[i].keys[y].key))
  {
    NoLanesIff(ps');
    assert Live(ps'[i].keys[y]);
    assert OthersIdle(ps', i, y) by {
      assert forall j :: 0 <= j < |ps| && j != i ==> ps'[j] == ps[j];
    }
    OnlyLaneIff(ps', i, y);
  }

  /** Any first claim given a second key is such a store. */
  lemma {:induction false} EveryTwoKeyClaimCanBeDrained(form: SetupForm, raw: string)
    requires Urls.Trim(form.username) != [] && form.password != []
    requires Urls.Trim(raw) != [] && Urls.Trim(raw) != form.apiKey
    ensures var name, c := form.providerName, Claimed(EmptyStore(), form);
            && EditKeys(c, AddKey(name, raw, None)).Some?
            && var c2 := EditKeys(c, AddKey(name, raw, None)).value;
               && EditKeys(c2, Disable(name, 0)).Some? && !Dry(EditKeys(c2, Disable(name, 0)).value)
               && KeyEditBites(EditKeys(c2, Disable(name, 0)).value, Disable(name, 1))
  {
    var name, c := form.providerName, Claimed(EmptyStore(), form);
    NewClaimIsGood(EmptyStore(), form);
    var p := c.providers[0];
    assert c.providers == [p] && [p][..0] == [];
    assert FindProvider([p], name) == Some(0);
    assert !HasKey(p.keys, Urls.Trim(raw));
    var c2 := EditKeys(c, AddKey(name, raw, None)).value;
    KeyEditIsGood(c, AddKey(name, raw, None));
    SameFind(c.providers, c2.providers, name);
    AnyTwoLiveKeysCanBeDrained(c2, name, 0, 1);
  }

  ghost predicate TwoLanes(ps: seq<Provider>, i: nat, x: nat, y: nat) {
    forall j, k :: 0 <= j < |ps| && 0 <= k < |ps[j].keys| && !(j == i && (k == x || k == y)) ==> !Live(ps[j].keys[k])
  }

  lemma {:induction false} SameFind(ps: seq<Provider>, ps': seq<Provider>, name: string)
    requires |ps'| == |ps| && forall j :: 0 <= j < |ps| ==> ps'[j].name == ps[j].name
    ensures FindProvider(ps', name) == FindProvider(ps, name)
  {
    if ps != [] {
      var n := |ps| - 1;
      SameFind(ps[..n], ps'[..n], name);
    }
  }

  // ---- One handler after another ----

  /** A handler run to the end with nothing in between. */
  function Whole(w: World, task: nat, cmd: Command, saveOk: bool): World {
    SwapNext(SaveNext(SnapshotNext(OpenNext(BeginNext(w, task, cmd), task), task), task, saveOk), task)
  }

  /** A key edit that was refused for emptying the pool empties it all the same, on disk too, as
      soon as an alias edit is saved. */
  lemma {:induction false} RefusedRemovalTakesEffectLater(w: World, t1: nat, a: KeyAction, t2: nat, b: AliasAction)
    requires Good(w.store) && !w.setupRequired && t1 !in w.tasks && t2 !in w.tasks && KeyEditBites(w.store, a)
    requires EditAliases(EditKeys(w.store, a).value, b).Some?
    ensures var w1 := Whole(w, t1, Keys(a), true);
            var w2 := Whole(w1, t2, Aliases(b), true);
            w1.pool == w.pool && w2.pool == [] && w2.disk == Some(w2.store) && Dry(w2.store)
  {
    KeyEditDrainsIff(w.store, a);
    var c1 := EditKeys(w.store, a).value;
    var w1 := w.(store := c1);
    assert Whole(w, t1, Keys(a), true) == w1;
    var c2 := EditAliases(c1, b).value;
    var w2 := w1.(store := c2, tasks := w1.tasks[t2 := Edited]);
    assert OpenNext(BeginNext(w1, t2, Aliases(b)), t2) == w2;
    RestOfTheRound(w2, t2);
  }

  /** What a first claim leaves: one account, one provider, one key, one lane. */
  lemma {:induction false} FirstClaim(task: nat, form: SetupForm)
    requires Urls.Trim(form.username) != [] && form.password != []
    ensures var w := Whole(Boot(None), task, Setup(form, true), true);
            && GoodWorld(w) && !w.setupRequired && w.tasks == map[] && w.disk == Some(w.store)
            && w.pool == LaneSpecs(w.store.providers) && |w.pool| == 1
            && w.store == Claimed(EmptyStore(), form)
            && KeyEditBites(w.store, RemoveKey(form.providerName, 0))
  {
    var c := Claimed(EmptyStore(), form);
    FirstBootIsGood();
    ClaimRuns(task, form);
    WholeIsGood(Boot(None), task, Setup(form, true), true);
    assert c.providers == [c.providers[0]];
    Urls.NormIsNormal(form.baseUrl);
    SoleLane(c.providers[0]);
  }

  lemma {:induction false} ClaimRuns(task: nat, form: SetupForm)
    requires Urls.Trim(form.username) != [] && form.password != []
    ensures var c := Claimed(EmptyStore(), form);
            Whole(Boot(None), task, Setup(form, true), true) == World(c, false, Some(c), LaneSpecs(c.providers), map[])
  {
    var c := Claimed(EmptyStore(), form);
    var w1 := World(c, true, Some(c), [], map[task := Claiming]);
    assert BeginNext(Boot(None), task, Setup(form, true)) == w1;
    var w2 := w1.(setupRequired := false, tasks := map[task := Opened]);
    assert OpenNext(w1, task) == w2;
    var w3 := w2.(tasks := map[task := Filed(c, true)]);
    assert SnapshotNext(w2, task) == w3 && SaveNext(w3, task, true) == w3;
    assert w3.tasks - {task} == map[];
  }

  lemma {:induction false} WholeIsGood(w: World, task: nat, cmd: Command, saveOk: bool)
    requires GoodWorld(w)
    ensures Keeps(w, Whole(w, task, cmd, saveOk))
  {
    var w1 := BeginNext(w, task, cmd);
    var w2 := OpenNext(w1, task);
    var w3 := SnapshotNext(w2, task);
    var w4 := SaveNext(w3, task, saveOk);
    FirstHalfIsGood(w, task, cmd);
    assert Keeps(w, w4) by {
      SaveIsGood(w3, task, saveOk);
      KeepsOnwards(w, w3, w4);
    }
    SwapIsGood(w4, task);
    KeepsOnwards(w, w4, SwapNext(w4, task));
  }

  lemma {:induction false} FirstHalfIsGood(w: World, task: nat, cmd: Command)
    requires GoodWorld(w)
    ensures Keeps(w, SnapshotNext(OpenNext(BeginNext(w, task, cmd), task), task))
  {
    var w1 := BeginNext(w, task, cmd);
    var w2 := OpenNext(w1, task);
    assert Keeps(w, w1) by { EveryStepKeepsTheWorldGood(w, Begin(task, cmd)); }
    assert Keeps(w, w2) by {
      OpenIsGood(w1, task);
      KeepsOnwards(w, w1, w2);
    }
    SnapshotIsGood(w2, task);
    KeepsOnwards(w, w2, SnapshotNext(w2, task));
  }

  lemma {:induction false} SoleLane(p: Provider)
    requires |p.keys| == 1 && Live(p.keys[0]) && p.keys[0].rpm <= 10_000 && Urls.Normal(p.baseUrl)
    ensures LaneSpecs([p]) == [SpecFor(p, p.keys[0])]
    ensures KeyEditBites(Store([], [p], []), RemoveKey(p.name, 0))
  {
    assert p.keys[..0] == [] && [p][..0] == [];
    assert KeySpecs(p, p.keys) == [] + [SpecFor(p, p.keys[0])];
    assert LaneSpecs([p]) == [] + KeySpecs(p, p.keys);
    assert FindProvider([p], p.name) == Some(0);
    OnlyLaneIff([p], 0, 0);
  }

  lemma {:induction false} AliasTaken(c: Store, a: KeyAction, name: string, model: string)
    requires EditKeys(c, a).Some? && Urls.Trim(name) != []
    ensures EditAliases(EditKeys(c, a).value, UpsertAlias(name, [Failover.AliasTarget(a.provider, model)])).Some?
  {
    var ps := EditKeys(c, a).value.providers;
    assert ps[FindProvider(c.providers, a.provider).value].name == a.provider;
    assert HasProvider(ps, a.provider);
    assert GoodAlias(Failover.Alias(Urls.Trim(name), [Failover.AliasTarget(a.provider, model)]), ps);
  }

  /** From any first claim it takes two commands to get there, the first of them refused: remove
      the only key, then save any alias. */
  lemma {:induction false} EveryClaimIsTwoStepsFromAnOutage(form: SetupForm, name: string, model: string)
    requires Urls.Trim(form.username) != [] && form.password != [] && Urls.Trim(name) != []
    ensures var a := RemoveKey(form.providerName, 0);
            var w1 := Whole(Boot(None), 0, Setup(form, true), true);
            var w2 := Whole(w1, 1, Keys(a), true);
            var w3 := Whole(w2, 2, Aliases(UpsertAlias(name, [Failover.AliasTarget(form.providerName, model)])), true);
            && ReplyTo(w1, Begin(1, Keys(a))) == Some(Refused)
            && w2.pool == w1.pool != [] && w3.pool == []
  {
    var a := RemoveKey(form.providerName, 0);
    var w1 := Whole(Boot(None), 0, Setup(form, true), true);
    FirstClaim(0, form);
    KeyEditDrainsIff(w1.store, a);
    AliasTaken(w1.store, a, name, model);
    RefusedRemovalTakesEffectLater(w1, 1, a, 2, UpsertAlias(name, [Failover.AliasTarget(form.providerName, model)]));
  }
}
