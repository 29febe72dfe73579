/** The store's state machine: the first-run claim, the settings edits, failed saves and
    restarts, with what is in memory, what is on disk and which lanes are live.

    Handlers run side by side. Each takes the store's lock to edit, releases it, takes it again
    to copy the store, saves the copy with no lock held, and swaps in a pool built from it: so
    those are separate steps here, and any handler's steps may come between another's. */
module Settings {
  import opened Basics
  import opened Pools
  import opened Config
  import opened Lanes
  import Urls

  datatype SetupForm = SetupForm(username: string, password: string, pwHash: string,
                                 providerName: string, baseUrl: string, apiKey: string, protocol: Protocol)

  /** `Resave` stands for the forms that edit neither lanes, aliases nor accounts, client keys
      and limits, but save the whole store. The claim saves while it holds the lock. */
  datatype Command =
    | Setup(form: SetupForm, saveOk: bool)
    | Keys(key: KeyAction)
    | Providers(provider: ProviderAction)
    | Aliases(alias: AliasAction)
    | Users(user: UserAction)
    | Resave

  /** How far a handler has got: its edit made; a copy of the store taken, to be saved and, for
      some, swapped in; the copy saved and about to be swapped in, as a rebuild or as a fresh
      pool; a claim saved but the wizard still open; and the wizard closed. */
  datatype Phase =
    | Edited
    | Stamped(c: Store, swaps: bool)
    | Filed(c: Store, renews: bool)
    | Claiming
    | Opened

  datatype World = World(store: Store, setupRequired: bool, disk: Option<Store>, pool: seq<LaneSpec>,
                         tasks: map<nat, Phase>)

  datatype Step =
    | Begin(task: nat, cmd: Command)
    | Open(task: nat)
    | Snapshot(task: nat)
    | Save(task: nat, ok: bool)
    | Swap(task: nat)
    | Restart

  datatype Reply = Saved | SaveFailed | Refused

  /** A process starting on whatever was last saved. */
  function Boot(disk: Option<Store>): World {
    var store := if disk.Some? then disk.value else EmptyStore();
    World(store, !HasSuperuser(store.users), disk, LaneSpecs(store.providers), map[])
  }

  function Claimed(c: Store, form: SetupForm): Store {
    c.(users := c.users + [User(form.username, form.pwHash, Superuser)],
       providers := c.providers + [Provider(form.providerName, Urls.Norm(form.baseUrl),
                                            [ProviderKey(form.apiKey, true, 40, form.username)], form.protocol)])
  }

  predicate Claimable(w: World, form: SetupForm) {
    && w.setupRequired
    && Urls.Trim(form.username) != [] && form.password != []
    && !HasSuperuser(w.store.users)
  }

  /** The edited store, or `None` when the command is refused before it touches anything. */
  function Edit(c: Store, cmd: Command): Option<Store> {
    match cmd
    case Setup(_, _) => None
    case Keys(a) => EditKeys(c, a)
    case Providers(a) => EditProviders(c, a)
    case Aliases(a) => EditAliases(c, a)
    case Users(a) => EditUsers(c, a)
    case Resave => Some(c)
  }

  /** Key and provider edits count the lanes, after they have edited the store. */
  predicate Guarded(cmd: Command) {
    cmd.Keys? || cmd.Providers?
  }

  predicate Dry(c: Store) {
    LaneSpecs(c.providers) == []
  }

  function ClaimNext(w: World, task: nat, form: SetupForm, saveOk: bool): World {
    if !Claimable(w, form) then w
    else
      var c := Claimed(w.store, form);
      if saveOk then w.(store := c, disk := Some(c), tasks := w.tasks[task := Claiming]) else w.(store := c)
  }

  /** Accounts and the forms that only resave copy the store before they release it. */
  predicate Swaps(cmd: Command) {
    !cmd.Users? && !cmd.Resave?
  }

  function EditNext(w: World, task: nat, cmd: Command): World {
    EditedNext(w, task, Guarded(cmd), Swaps(cmd), Edit(w.store, cmd))
  }

  function EditedNext(w: World, task: nat, guarded: bool, swaps: bool, edited: Option<Store>): World {
    match edited
    case None => w
    case Some(c) =>
      if guarded && Dry(c) then w.(store := c)
      else w.(store := c, tasks := w.tasks[task := if swaps then Edited else Stamped(c, false)])
  }

  function BeginNext(w: World, task: nat, cmd: Command): World {
    if task in w.tasks then w
    else if cmd.Setup? then ClaimNext(w, task, cmd.form, cmd.saveOk)
    else if w.setupRequired then w
    else EditNext(w, task, cmd)
  }

  predicate At(w: World, task: nat, phase: Phase) {
    task in w.tasks && w.tasks[task] == phase
  }

  function OpenNext(w: World, task: nat): World {
    if At(w, task, Claiming) then w.(setupRequired := false, tasks := w.tasks[task := Opened]) else w
  }

  function SnapshotNext(w: World, task: nat): World {
    if At(w, task, Edited) then w.(tasks := w.tasks[task := Stamped(w.store, true)])
    else if At(w, task, Opened) then w.(tasks := w.tasks[task := Filed(w.store, true)])
    else w
  }

  function SaveNext(w: World, task: nat, ok: bool): World {
    if task in w.tasks && w.tasks[task].Stamped? then
      var c, swaps := w.tasks[task].c, w.tasks[task].swaps;
      if !ok then w.(tasks := w.tasks - {task})
      else w.(disk := Some(c), tasks := if swaps then w.tasks[task := Filed(c, false)] else w.tasks - {task})
    else w
  }

  function SwapNext(w: World, task: nat): World {
    if task in w.tasks && w.tasks[task].Filed? then
      w.(pool := LaneSpecs(w.tasks[task].c.providers), tasks := w.tasks - {task})
    else w
  }

  function Next(w: World, step: Step): World {
    match step
    case Begin(task, cmd) => BeginNext(w, task, cmd)
    case Open(task) => OpenNext(w, task)
    case Snapshot(task) => SnapshotNext(w, task)
    case Save(task, ok) => SaveNext(w, task, ok)
    case Swap(task) => SwapNext(w, task)
    case Restart => Boot(w.disk)
  }

  predicate Refuses(guarded: bool, edited: Option<Store>) {
    edited.None? || (guarded && Dry(edited.value))
  }

  /** What the caller hears, at the step that answers it. */
  function ReplyTo(w: World, step: Step): Option<Reply> {
    match step
    case Begin(task, cmd) =>
      if task in w.tasks then None
      else if cmd.Setup? then
        if !Claimable(w, cmd.form) then Some(Refused) else if cmd.saveOk then None else Some(SaveFailed)
      else if w.setupRequired || Refuses(Guarded(cmd), Edit(w.store, cmd)) then Some(Refused)
      else None
    case Save(task, ok) =>
      if task in w.tasks && w.tasks[task].Stamped? then
        if !ok then Some(SaveFailed) else if w.tasks[task].swaps then None else Some(Saved)
      else None
    case Swap(task) => if task in w.tasks && w.tasks[task].Filed? then Some(Saved) else None
    case _ => None
  }

  function After(w: World, steps: seq<Step>): World {
    if steps == [] then w
    else
      var n := |steps| - 1;
      Next(After(w, steps[..n]), steps[n])
  }

  // ---- What every reachable world satisfies ----

  /** A saved or soon to be saved copy: good, and with the same superuser as the store. */
  ghost predicate Sound(c: Store, store: Store) {
    Good(c) && HasSuperuser(c.users) && SuperName(c.users) == SuperName(store.users)
  }

  ghost predicate GoodPhase(phase: Phase, store: Store) {
    phase.Stamped? || phase.Filed? ==> Sound(phase.c, store)
  }

  /** Before anything is saved the wizard is open and nothing runs; while it is open only a
      claim may be finishing. Once something is saved there is one superuser, the same in
      memory, on disk and in every copy in flight. The live lanes have distinct identities and
      normalised URLs. */
  ghost predicate GoodWorld(w: World) {
    && Good(w.store)
    && GoodSpecs(w.pool)
    && (w.disk.None? ==> w.setupRequired && w.pool == [] && w.tasks == map[])
    && (w.disk.Some? ==> Sound(w.disk.value, w.store))
    && (w.disk.Some? && w.setupRequired ==> w.tasks != map[])
    && (forall t :: t in w.tasks && w.setupRequired ==> w.tasks[t] == Claiming)
    && (forall t :: t in w.tasks ==> GoodPhase(w.tasks[t], w.store))
  }

  /** A step keeps the world good; what was claimed stays claimed, by the same account; and a
      closed wizard stays closed. */
  ghost predicate Keeps(w: World, w': World) {
    && GoodWorld(w')
    && (w.disk.Some? ==> w'.disk.Some? && SuperName(w'.store.users) == SuperName(w.store.users))
    && (!w.setupRequired ==> !w'.setupRequired)
  }

  lemma {:induction false} StoreHasSuperuser(w: World)
    requires GoodWorld(w) && w.disk.Some?
    ensures HasSuperuser(w.store.users) && SuperName(w.store.users).Some?
  {
    SuperNameIff(w.disk.value.users);
    SuperNameIff(w.store.users);
  }

  lemma {:induction false} EditIsGood(c: Store, cmd: Command)
    requires Good(c) && HasSuperuser(c.users) && Edit(c, cmd).Some?
    ensures Sound(Edit(c, cmd).value, c)
  {
    match cmd
    case Keys(a) => KeyEditIsGood(c, a);
    case Providers(a) => ProviderEditIsGood(c, a);
    case Aliases(a) => AliasEditIsGood(c, a);
    case Users(a) =>
      UserEditIsGood(c, a);
      SuperNameIff(c.users);
      SuperNameIff(EditUsers(c, a).value.users);
    case _ =>
  }

  lemma {:induction false} BootIsGood(w: World)
    requires GoodWorld(w)
    ensures Keeps(w, Boot(w.disk))
  {
    var b := Boot(w.disk);
    GoodProvidersMakeGoodSpecs(b.store.providers);
  }

  lemma {:induction false} ClaimIsGood(w: World, task: nat, form: SetupForm, saveOk: bool)
    requires GoodWorld(w) && task !in w.tasks
    ensures Keeps(w, ClaimNext(w, task, form, saveOk))
  {
    if Claimable(w, form) {
      if w.disk.Some? {
        StoreHasSuperuser(w);
      } else {
        NewClaimIsGood(w.store, form);
      }
    }
  }

  lemma {:induction false} NewClaimIsGood(c: Store, form: SetupForm)
    requires c == EmptyStore()
    ensures Sound(Claimed(c, form), Claimed(c, form))
  {
    var c' := Claimed(c, form);
    Urls.NormIsNormal(form.baseUrl);
    assert c'.users == [User(form.username, form.pwHash, Superuser)];
    assert c'.users[0].role == Superuser;
  }

  lemma {:induction false} EditStepIsGood(w: World, task: nat, cmd: Command)
    requires GoodWorld(w) && !w.setupRequired && task !in w.tasks
    ensures Keeps(w, EditNext(w, task, cmd))
  {
    StoreHasSuperuser(w);
    if Edit(w.store, cmd).Some? {
      EditIsGood(w.store, cmd);
      NewStoreIsGood(w, task, Edit(w.store, cmd).value);
    }
  }

  /** Whatever the handler does next, a sound new store leaves every copy sound. */
  lemma {:induction false} NewStoreIsGood(w: World, task: nat, c: Store)
    requires GoodWorld(w) && !w.setupRequired && task !in w.tasks && Sound(c, w.store)
    ensures Keeps(w, w.(store := c))
    ensures Keeps(w, w.(store := c, tasks := w.tasks[task := Edited]))
    ensures Keeps(w, w.(store := c, tasks := w.tasks[task := Stamped(c, false)]))
  {
    forall t | t in w.tasks ensures GoodPhase(w.tasks[t], c) {
      assert GoodPhase(w.tasks[t], w.store);
    }
  }

  lemma {:induction false} OpenIsGood(w: World, task: nat)
    requires GoodWorld(w)
    ensures Keeps(w, OpenNext(w, task))
  {
  }

  lemma {:induction false} SnapshotIsGood(w: World, task: nat)
    requires GoodWorld(w)
    ensures Keeps(w, SnapshotNext(w, task))
  {
    if task in w.tasks {
      StoreHasSuperuser(w);
    }
  }

  lemma {:induction false} SaveIsGood(w: World, task: nat, ok: bool)
    requires GoodWorld(w)
    ensures Keeps(w, SaveNext(w, task, ok))
  {
    if task in w.tasks && w.tasks[task].Stamped? {
      assert GoodPhase(w.tasks[task], w.store);
    }
  }

  lemma {:induction false} SwapIsGood(w: World, task: nat)
    requires GoodWorld(w)
    ensures Keeps(w, SwapNext(w, task))
  {
    if task in w.tasks && w.tasks[task].Filed? {
      assert GoodPhase(w.tasks[task], w.store);
      GoodProvidersMakeGoodSpecs(w.tasks[task].c.providers);
    }
  }

  /** No step of any handler, however steps interleave and whichever saves fail, breaks the
      store, the disk or the pool, displaces the superuser or reopens the wizard. */
  lemma {:induction false} EveryStepKeepsTheWorldGood(w: World, step: Step)
    requires GoodWorld(w)
    ensures Keeps(w, Next(w, step))
  {
    match step
    case Begin(task, cmd) =>
      if task !in w.tasks && cmd.Setup? {
        ClaimIsGood(w, task, cmd.form, cmd.saveOk);
      } else if task !in w.tasks && !w.setupRequired {
        EditStepIsGood(w, task, cmd);
      }
    case Open(task) => OpenIsGood(w, task);
    case Snapshot(task) => SnapshotIsGood(w, task);
    case Save(task, ok) => SaveIsGood(w, task, ok);
    case Swap(task) => SwapIsGood(w, task);
    case Restart => BootIsGood(w);
  }

  lemma {:induction false} KeepsOnwards(a: World, b: World, c: World)
    requires Keeps(a, b) && Keeps(b, c)
    ensures Keeps(a, c)
  {
  }

  lemma {:induction false} EveryRunKeepsTheWorldGood(w: World, steps: seq<Step>)
    requires GoodWorld(w)
    ensures Keeps(w, After(w, steps))
  {
    if steps != [] {
      var n := |steps| - 1;
      EveryRunKeepsTheWorldGood(w, steps[..n]);
      EveryStepKeepsTheWorldGood(After(w, steps[..n]), steps[n]);
      KeepsOnwards(w, After(w, steps[..n]), After(w, steps));
    }
  }

  lemma {:induction false} FirstBootIsGood()
    ensures GoodWorld(Boot(None))
  {
  }

  /** From a first boot on an empty disk, any steps of any handlers in any interleaving leave a
      good world. */
  lemma {:induction false} EveryReachableWorldIsGood(steps: seq<Step>)
    ensures GoodWorld(After(Boot(None), steps))
  {
    FirstBootIsGood();
    EveryRunKeepsTheWorldGood(Boot(None), steps);
  }

  /** So no request to any lane that is ever live has its version segment doubled at the join. */
  lemma {:induction false} NoLaneEverDoublesV1(steps: seq<Step>, i: nat, path: string, p: nat)
    requires i < |After(Boot(None), steps).pool| && Urls.StartsWith(path, "/")
    requires var base := After(Boot(None), steps).pool[i].baseUrl; p <= |base| <= p + 7
    ensures !Urls.OccursAt(After(Boot(None), steps).pool[i].baseUrl + Urls.Collapsed(path), Urls.DOUBLE_V1, p)
  {
    EveryReachableWorldIsGood(steps);
    var base := After(Boot(None), steps).pool[i].baseUrl;
    Urls.RightOfNormal(base);
    Urls.JoinNeverDoublesV1(base, path, p);
  }

  /** Exactly one account is superuser once the claim has been saved. */
  lemma {:induction false} OneSuperuserAfterTheClaim(steps: seq<Step>)
    ensures var w := After(Boot(None), steps);
            w.disk.Some? ==> exists i ::
              && 0 <= i < |w.store.users| && w.store.users[i].role == Superuser
              && forall j :: 0 <= j < |w.store.users| && w.store.users[j].role == Superuser ==> j == i
  {
    EveryReachableWorldIsGood(steps);
    var w := After(Boot(None), steps);
    if w.disk.Some? {
      StoreHasSuperuser(w);
      var i :| 0 <= i < |w.store.users| && w.store.users[i].role == Superuser;
    }
  }

  /** Whatever follows, restarts included, the account that claimed the proxy stays its
      superuser, and once the wizard has closed it never opens again. */
  lemma {:induction false} TheClaimIsForGood(w: World, more: seq<Step>)
    requires GoodWorld(w) && w.disk.Some?
    ensures var w' := After(w, more);
      && SuperName(w.store.users).Some? && SuperName(w'.store.users) == SuperName(w.store.users)
      && (!w.setupRequired ==> !w'.setupRequired)
  {
    StoreHasSuperuser(w);
    EveryRunKeepsTheWorldGood(w, more);
  }

  /** A claim whose save failed bars every command, a second claim included, until a restart,
      which is a first boot again. */
  lemma {:induction false} FailedClaimBarsAllUntilRestart(w: World, task: nat, form: SetupForm, step: Step)
    requires GoodWorld(w) && task !in w.tasks && ReplyTo(w, Begin(task, Setup(form, false))) == Some(SaveFailed)
    ensures var stuck := BeginNext(w, task, Setup(form, false));
            && (Next(stuck, step) == stuck <==> step != Restart)
            && (step.Begin? ==> ReplyTo(stuck, step) == Some(Refused))
            && Next(stuck, Restart) == Boot(None)
  {
    if w.disk.Some? {
      StoreHasSuperuser(w);
    } else {
      var stuck := BeginNext(w, task, Setup(form, false));
      var us := stuck.store.users;
      assert us[|us| - 1].role == Superuser;
      assert !HasSuperuser(Boot(None).store.users);
    }
  }

  // ---- Refusals ----

  /** Only a save, or a claim, changes the disk; only a swap, or a restart, changes the pool. */
  lemma {:induction false} DiskAndPoolMoveOnlySo(w: World, step: Step)
    ensures Next(w, step).disk != w.disk ==>
            (step.Save? && step.ok) || (step.Begin? && step.cmd.Setup? && step.cmd.saveOk)
    ensures Next(w, step).pool != w.pool ==> step.Swap? || step.Restart?
  {
  }

  /** The key edits that are refused after they have been made: dropping or switching off the
      only lane, or changing something else while there is none. */
  ghost predicate KeyEditBites(c: Store, a: KeyAction) {
    match FindProvider(c.providers, a.provider)
    case None => false
    case Some(i) =>
      var keys := c.providers[i].keys;
      match a
      case AddKey(_, _, _) => false
      case RemoveKey(name, index) => index < |keys| && OnlyLane(c.providers, LaneId(name, keys[index].key))
      case UpdateKey(name, index, enabled, rpm) =>
        && index < |keys| && OnlyLane(c.providers, LaneId(name, keys[index].key))
        && (rpm.Some? ==> CheckRpm(rpm.value))
        && !Or(enabled, keys[index].enabled)
        && (keys[index].enabled || Or(rpm, keys[index].rpm) != keys[index].rpm)
  }

  /** A refused key edit has changed the store after all exactly in those cases. */
  lemma {:induction false} RefusedKeyEditBitesIff(w: World, task: nat, a: KeyAction)
    requires GoodProviders(w.store.providers) && !w.setupRequired && task !in w.tasks
    ensures var step := Begin(task, Keys(a));
            (ReplyTo(w, step) == Some(Refused) && Next(w, step).store != w.store) <==> KeyEditBites(w.store, a)
  {
    KeyEditDrainsIff(w.store, a);
  }

  lemma {:induction false} KeyEditDrainsIff(c: Store, a: KeyAction)
    requires GoodProviders(c.providers)
    ensures KeyEditBites(c, a) <==> EditKeys(c, a).Some? && Dry(EditKeys(c, a).value) && EditKeys(c, a).value != c
  {
    var found := FindProvider(c.providers, a.provider);
    if found.Some? && EditedKeys(c.providers[found.value].keys, a).Some? {
      KeysChange(c.providers, found.value, a);
      KeysLeaveNoLaneIff(c.providers, found.value, a);
    }
  }

  ghost predicate ProviderEditBites(c: Store, a: ProviderAction) {
    match a
    case AddProvider(_, _, _, _, _) => false
    case RemoveProvider(name) => HasProvider(c.providers, name) && OnlyProvider(c.providers, name)
    case SetBaseUrl(name, url) =>
      && Dry(c) && IsHttp(Urls.Norm(url))
      && match FindProvider(c.providers, name)
         case None => false
         case Some(i) => c.providers[i].baseUrl != Urls.Norm(url)
  }

  lemma {:induction false} RefusedProviderEditBitesIff(w: World, task: nat, a: ProviderAction)
    requires !w.setupRequired && task !in w.tasks
    ensures var step := Begin(task, Providers(a));
            (ReplyTo(w, step) == Some(Refused) && Next(w, step).store != w.store) <==> ProviderEditBites(w.store, a)
  {
    ProviderEditDrainsIff(w.store, a);
  }

  lemma {:induction false} ProviderEditDrainsIff(c: Store, a: ProviderAction)
    ensures ProviderEditBites(c, a) <==>
              EditProviders(c, a).Some? && Dry(EditProviders(c, a).value) && EditProviders(c, a).value != c
  {
    match a
    case AddProvider(_, _, _, _, _) => AddedProviderServes(c, a);
    case RemoveProvider(name) => ProviderRemovalBites(c, name);
    case SetBaseUrl(name, url) =>
      if EditProviders(c, a).Some? {
        MovedProviderBites(c, name, url);
      }
  }

  lemma {:induction false} AddedProviderServes(c: Store, a: ProviderAction)
    requires a.AddProvider?
    ensures EditProviders(c, a).Some? ==> !Dry(EditProviders(c, a).value)
  {
    var edited := EditProviders(c, a);
    if edited.Some? {
      var ps := edited.value.providers;
      assert Live(ps[|c.providers|].keys[0]);
      NoLanesIff(ps);
    }
  }

  lemma {:induction false} ProviderRemovalBites(c: Store, name: string)
    ensures var ps := KeepProviders(c.providers, name);
      && (HasProvider(c.providers, name) ==> ps != c.providers)
      && (LaneSpecs(ps) == [] <==> OnlyProvider(c.providers, name))
  {
    KeptLanes(c.providers, name);
    FilterHas(c.providers, ProviderBut(name));
    if i :| 0 <= i < |c.providers| && c.providers[i].name == name {
      assert c.providers[i] in c.providers && c.providers[i] !in KeepProviders(c.providers, name);
    }
  }

  lemma {:induction false} MovedProviderBites(c: Store, name: string, url: string)
    requires EditProviders(c, SetBaseUrl(name, url)).Some?
    ensures var c', i := EditProviders(c, SetBaseUrl(name, url)).value, FindProvider(c.providers, name).value;
      && (Dry(c') <==> Dry(c))
      && (c' == c <==> c.providers[i].baseUrl == Urls.Norm(url))
  {
    var ps, i := c.providers, FindProvider(c.providers, name).value;
    var ps' := ps[i := ps[i].(baseUrl := Urls.Norm(url))];
    NoLanesIff(ps);
    NoLanesIff(ps');
    assert forall j :: 0 <= j < |ps| ==> ps'[j].keys == ps[j].keys;
    assert ps'[i].baseUrl == Urls.Norm(url);
    if ps[i].baseUrl == Urls.Norm(url) {
      assert ps' == ps;
    }
  }
}
