/** When memory, disk and live lanes agree. */
module Agreement {
  import opened Basics
  import opened Pools
  import opened Config
  import opened Lanes
  import opened Settings
  import opened Outages
  import Urls

  predicate InStep(w: World) {
    w.disk == Some(w.store) && w.pool == LaneSpecs(w.store.providers)
  }

  /** Claimed, with no handler at work. */
  ghost predicate Settled(w: World) {
    !w.setupRequired && w.tasks == map[]
  }

  // ---- Handlers side by side ----

  /** A swap brings the three together exactly when the disk holds the store as it is now, and
      the copy swapped in has its lanes: when no one else's edit or save has come in between. */
  lemma {:induction false} SwapAgreesIff(w: World, task: nat, c: Store)
    requires At(w, task, Filed(c, false))
    ensures InStep(SwapNext(w, task)) <==>
            w.disk == Some(w.store) && LaneSpecs(c.providers) == LaneSpecs(w.store.providers)
  {
  }

  /** Step `k` of a run belongs to this handler, or kills it. */
  predicate Concerns(step: Step, task: nat) {
    match step
    case Begin(t, _) => t == task
    case Open(t) => t == task
    case Snapshot(t) => t == task
    case Save(t, _) => t == task
    case Swap(t) => t == task
    case Restart => true
  }

  /** The handler copies the store at step `i`, saves the copy at step `j` and swaps it in at
      step `k`; what the others do meanwhile is arbitrary. */
  ghost predicate Round(w: World, steps: seq<Step>, task: nat, i: nat, j: nat, k: nat) {
    && i < j < k < |steps|
    && At(After(w, steps[..i]), task, Edited)
    && steps[i] == Snapshot(task) && steps[j] == Save(task, true) && steps[k] == Swap(task)
    && (forall m :: i < m < k && m != j ==> !Concerns(steps[m], task))
  }

  lemma {:induction false} AfterStep(w: World, steps: seq<Step>, n: nat)
    requires n < |steps|
    ensures After(w, steps[..n + 1]) == Next(After(w, steps[..n]), steps[n])
  {
    assert steps[..n + 1][..n] == steps[..n];
  }

  /** Others' steps leave a handler where it was. */
  lemma {:induction false} OthersLeaveItAlone(w: World, step: Step, task: nat, phase: Phase)
    requires At(w, task, phase) && !Concerns(step, task)
    ensures At(Next(w, step), task, phase)
  {
    match step
    case Begin(t, cmd) =>
    case _ =>
  }

  lemma {:induction false} InFlight(w: World, steps: seq<Step>, task: nat, phase: Phase, from: nat, n: nat)
    requires from <= n <= |steps| && At(After(w, steps[..from]), task, phase)
    requires forall m :: from <= m < n ==> !Concerns(steps[m], task)
    ensures At(After(w, steps[..n]), task, phase)
    decreases n
  {
    if from < n {
      InFlight(w, steps, task, phase, from, n - 1);
      AfterStep(w, steps, n - 1);
      OthersLeaveItAlone(After(w, steps[..n - 1]), steps[n - 1], task, phase);
    }
  }

  /** What a handler swaps in is the store as it was when it took its copy. */
  lemma {:induction false} RoundCarriesItsCopy(w: World, steps: seq<Step>, task: nat, i: nat, j: nat, k: nat)
    requires Round(w, steps, task, i, j, k)
    ensures var c := After(w, steps[..i]).store;
      && At(After(w, steps[..k]), task, Filed(c, false))
      && After(w, steps[..j + 1]).disk == Some(c)
  {
    var c := After(w, steps[..i]).store;
    AfterStep(w, steps, i);
    InFlight(w, steps, task, Stamped(c, true), i + 1, j);
    AfterStep(w, steps, j);
    InFlight(w, steps, task, Filed(c, false), j + 1, k);
  }

  // ---- What the other handlers' steps come to ----

  /** What a step makes of the store: only the first step of an edit makes anything of it. */
  function EditedBy(c: Store, step: Step): Store {
    if step.Begin? && Edit(c, step.cmd).Some? then Edit(c, step.cmd).value else c
  }

  /** The edits begun among these steps, one after another, on the store `c`. */
  function Replayed(c: Store, steps: seq<Step>): Store {
    if steps == [] then c
    else EditedBy(Replayed(c, steps[..|steps| - 1]), steps[|steps| - 1])
  }

  /** The first `n` steps as a process makes them once it is claimed: no restart, and each handler
      begins under a number that is not in use. */
  ghost predicate OneProcess(w: World, steps: seq<Step>, n: nat)
    requires n <= |steps|
  {
    Settled(w) && forall m :: 0 <= m < n ==> Ordinary(w, steps, m)
  }

  ghost predicate Ordinary(w: World, steps: seq<Step>, m: nat)
    requires m < |steps|
  {
    steps[m] != Restart && (steps[m].Begin? ==> steps[m].task !in After(w, steps[..m]).tasks)
  }

  lemma {:induction false} StaysClaimed(w: World, steps: seq<Step>, n: nat)
    requires n <= |steps| && OneProcess(w, steps, n)
    ensures !After(w, steps[..n]).setupRequired
  {
    if n > 0 {
      StaysClaimed(w, steps, n - 1);
      AfterStep(w, steps, n - 1);
      assert Ordinary(w, steps, n - 1);
      ClosedStaysClosed(After(w, steps[..n - 1]), steps[n - 1]);
    }
  }

  lemma {:induction false} ClosedStaysClosed(w: World, step: Step)
    requires !w.setupRequired && step != Restart
    ensures !Next(w, step).setupRequired
  {
  }

  lemma {:induction false} OneProcessForLess(w: World, steps: seq<Step>, m: nat, n: nat)
    requires m <= n <= |steps| && OneProcess(w, steps, n)
    ensures OneProcess(w, steps, m)
  {
  }

  /** The store before each step, and after the last. */
  function StoresOf(w: World, steps: seq<Step>): (stores: seq<Store>)
    ensures |stores| == |steps| + 1 && forall m :: 0 <= m <= |steps| ==> stores[m] == After(w, steps[..m]).store
  {
    seq(|steps| + 1, m requires 0 <= m <= |steps| => After(w, steps[..m]).store)
  }

  /** The store is what the edits begun since have made of it. */
  lemma {:induction false} StoreIsReplayed(w: World, steps: seq<Step>, from: nat, n: nat)
    requires from <= n <= |steps| && OneProcess(w, steps, n)
    ensures After(w, steps[..n]).store == Replayed(After(w, steps[..from]).store, steps[from..n])
  {
    var stores := StoresOf(w, steps);
    forall m | from <= m < n ensures stores[m + 1] == EditedBy(stores[m], steps[m]) {
      OneProcessForLess(w, steps, m + 1, n);
      StoreIsEdited(w, steps, m);
    }
    EditsAddUp(stores, steps, from, n);
  }

  lemma {:induction false} EditsAddUp(stores: seq<Store>, steps: seq<Step>, from: nat, n: nat)
    requires from <= n <= |steps| && |stores| == |steps| + 1
    requires forall m :: from <= m < n ==> stores[m + 1] == EditedBy(stores[m], steps[m])
    ensures stores[n] == Replayed(stores[from], steps[from..n])
    decreases n
  {
    if from == n {
      assert steps[from..n] == [];
    } else {
      EditsAddUp(stores, steps, from, n - 1);
      ReplayedOneMore(stores[from], steps, from, n - 1);
    }
  }

  lemma {:induction false} ReplayedOneMore(c: Store, steps: seq<Step>, from: nat, n: nat)
    requires from <= n < |steps|
    ensures Replayed(c, steps[from..n + 1]) == EditedBy(Replayed(c, steps[from..n]), steps[n])
  {
    assert steps[from..n + 1][..n - from] == steps[from..n];
  }

  lemma {:induction false} StoreIsEdited(w: World, steps: seq<Step>, n: nat)
    requires n < |steps| && OneProcess(w, steps, n + 1)
    ensures After(w, steps[..n + 1]).store == EditedBy(After(w, steps[..n]).store, steps[n])
  {
    AfterStep(w, steps, n);
    StaysClaimed(w, steps, n);
    assert Ordinary(w, steps, n);
    StepEdits(After(w, steps[..n]), steps[n]);
  }

  lemma {:induction false} StepEdits(w: World, step: Step)
    requires !w.setupRequired && step != Restart && (step.Begin? ==> step.task !in w.tasks)
    ensures Next(w, step).store == EditedBy(w.store, step)
  {
  }

  ghost predicate Saves(w: World, step: Step) {
    step.Save? && step.ok && step.task in w.tasks && w.tasks[step.task].Stamped?
  }

  ghost predicate SavesAt(w: World, steps: seq<Step>, m: nat) {
    m < |steps| && Saves(After(w, steps[..m]), steps[m])
  }

  /** What each step saves, if anything. */
  ghost function SavesOf(w: World, steps: seq<Step>): (saves: seq<Option<Store>>)
    ensures |saves| == |steps| && forall m :: 0 <= m < |steps| ==> saves[m] == SavedAt(w, steps, m)
  {
    seq(|steps|, m requires 0 <= m < |steps| => SavedAt(w, steps, m))
  }

  ghost function SavedAt(w: World, steps: seq<Step>, m: nat): Option<Store>
    requires m < |steps|
  {
    if SavesAt(w, steps, m) then Some(After(w, steps[..m]).tasks[steps[m].task].c) else None
  }

  ghost function DisksOf(w: World, steps: seq<Step>): (disks: seq<Option<Store>>)
    ensures |disks| == |steps| + 1 && forall m :: 0 <= m <= |steps| ==> disks[m] == DiskAt(w, steps, m)
  {
    seq(|steps| + 1, m requires 0 <= m <= |steps| => DiskAt(w, steps, m))
  }

  ghost function DiskAt(w: World, steps: seq<Step>, n: nat): Option<Store>
    requires n <= |steps|
  {
    After(w, steps[..n]).disk
  }

  /** The last save among steps [j, k), if step `j` is one. */
  function LastSave(saves: seq<Option<Store>>, j: nat, k: nat): (m: nat)
    requires j < k <= |saves|
    ensures j <= m < k
  {
    if k == j + 1 || saves[k - 1].Some? then k - 1 else LastSave(saves, j, k - 1)
  }

  lemma {:induction false} LastSaveStands(saves: seq<Option<Store>>, disks: seq<Option<Store>>, j: nat, k: nat)
    requires j < k <= |saves| && |disks| == |saves| + 1 && saves[j].Some?
    requires forall m :: j <= m < k ==> disks[m + 1] == if saves[m].Some? then saves[m] else disks[m]
    ensures disks[k] == saves[LastSave(saves, j, k)]
    decreases k
  {
    if k > j + 1 && saves[k - 1].None? {
      LastSaveStands(saves, disks, j, k - 1);
    }
  }

  lemma {:induction false} DiskIsLastSaved(w: World, steps: seq<Step>, j: nat, k: nat)
    requires j < k <= |steps| && OneProcess(w, steps, k) && SavesAt(w, steps, j)
    ensures var m := LastSave(SavesOf(w, steps), j, k);
            SavesAt(w, steps, m) && DiskAt(w, steps, k) == SavedAt(w, steps, m)
  {
    var saves, disks := SavesOf(w, steps), DisksOf(w, steps);
    forall m | j <= m < k ensures disks[m + 1] == if saves[m].Some? then saves[m] else disks[m] {
      OneProcessForLess(w, steps, m + 1, k);
      if SavesAt(w, steps, m) {
        SaveIsOnDisk(w, steps, m);
      } else {
        DiskStays(w, steps, m);
      }
    }
    LastSaveStands(saves, disks, j, k);
    LastSaveSaves(saves, j, k);
  }

  lemma {:induction false} LastSaveSaves(saves: seq<Option<Store>>, j: nat, k: nat)
    requires j < k <= |saves| && saves[j].Some?
    ensures saves[LastSave(saves, j, k)].Some?
    decreases k
  {
    if k > j + 1 && saves[k - 1].None? {
      LastSaveSaves(saves, j, k - 1);
    }
  }

  lemma {:induction false} DiskStays(w: World, steps: seq<Step>, n: nat)
    requires n < |steps| && OneProcess(w, steps, n + 1) && !SavesAt(w, steps, n)
    ensures DiskAt(w, steps, n + 1) == DiskAt(w, steps, n)
  {
    AfterStep(w, steps, n);
    StaysClaimed(w, steps, n);
    assert Ordinary(w, steps, n);
    OnlySavesMoveTheDisk(After(w, steps[..n]), steps[n]);
  }

  lemma {:induction false} SaveIsOnDisk(w: World, steps: seq<Step>, n: nat)
    requires SavesAt(w, steps, n)
    ensures DiskAt(w, steps, n + 1) == SavedAt(w, steps, n)
  {
    AfterStep(w, steps, n);
  }

  lemma {:induction false} OnlySavesMoveTheDisk(w: World, step: Step)
    requires !w.setupRequired && step != Restart && !Saves(w, step)
    ensures Next(w, step).disk == w.disk
  {
  }

  /** With this step the handler has a copy of the store to save. */
  ghost predicate TakesCopy(w: World, step: Step, task: nat) {
    HasCopy(Next(w, step), task) && !HasCopy(w, task)
  }

  predicate HasCopy(w: World, task: nat) {
    task in w.tasks && w.tasks[task].Stamped?
  }

  /** When, among the first `n` steps, the handler last took its copy. */
  ghost function CopiedAt(w: World, steps: seq<Step>, n: nat, task: nat): (p: nat)
    requires n <= |steps|
    ensures p <= n
  {
    if n == 0 then 0
    else if TakesCopy(After(w, steps[..n - 1]), steps[n - 1], task) then n
    else CopiedAt(w, steps, n - 1, task)
  }

  lemma {:induction false} CopyIsTheStoreThen(w: World, steps: seq<Step>, n: nat, task: nat)
    requires n <= |steps| && w.tasks == map[] && HasCopy(After(w, steps[..n]), task)
    ensures After(w, steps[..n]).tasks[task].c == After(w, steps[..CopiedAt(w, steps, n, task)]).store
  {
    if n > 0 {
      var v := After(w, steps[..n - 1]);
      AfterStep(w, steps, n - 1);
      CopyIsTaken(v, steps[n - 1], task);
      if HasCopy(v, task) {
        CopyIsTheStoreThen(w, steps, n - 1, task);
      }
    }
  }

  /** A copy is of the store as it is when it is taken, and is not changed after. */
  lemma {:induction false} CopyIsTaken(w: World, step: Step, task: nat)
    requires HasCopy(Next(w, step), task)
    ensures Next(w, step).tasks[task].c == if HasCopy(w, task) then w.tasks[task].c else Next(w, step).store
  {
  }

  /** EXACTLY WHEN A SAVED EDIT BRINGS THEM TOGETHER. However handlers interleave, once a handler
      has answered success the store, the disk and the lanes agree if and only if the edits begun
      since the copy that was saved last was taken, by whichever handler, come to nothing, and the
      edits begun since the handler's own copy leave its lanes as they were. */
  lemma {:induction false} RoundAgreesIff(w: World, steps: seq<Step>, task: nat, i: nat, j: nat, k: nat)
    requires Round(w, steps, task, i, j, k) && OneProcess(w, steps, k)
    ensures var own, last := After(w, steps[..i]).store, LastSave(SavesOf(w, steps), j, k);
            var p := CopiedAt(w, steps, last, steps[last].task);
            var saved := After(w, steps[..p]).store;
      && ReplyTo(After(w, steps[..k]), steps[k]) == Some(Saved)
      && (InStep(After(w, steps[..k + 1])) <==>
            && Replayed(saved, steps[p..k]) == saved
            && LaneSpecs(Replayed(own, steps[i..k]).providers) == LaneSpecs(own.providers))
  {
    var own, last, at := After(w, steps[..i]).store, LastSave(SavesOf(w, steps), j, k), After(w, steps[..k]);
    var p := CopiedAt(w, steps, last, steps[last].task);
    SwapAgrees(w, steps, task, i, j, k);
    assert SavesAt(w, steps, j) by { CopyIsCarried(w, steps, task, i, j, k); }
    DiskIsLastSaved(w, steps, j, k);
    CopyIsTheStoreThen(w, steps, last, steps[last].task);
    StoreIsReplayed(w, steps, p, k);
    StoreIsReplayed(w, steps, i, k);
  }

  lemma {:induction false} CopyIsCarried(w: World, steps: seq<Step>, task: nat, i: nat, j: nat, k: nat)
    requires Round(w, steps, task, i, j, k)
    ensures At(After(w, steps[..j]), task, Stamped(After(w, steps[..i]).store, true))
  {
    AfterStep(w, steps, i);
    InFlight(w, steps, task, Stamped(After(w, steps[..i]).store, true), i + 1, j);
  }

  lemma {:induction false} SwapAgrees(w: World, steps: seq<Step>, task: nat, i: nat, j: nat, k: nat)
    requires Round(w, steps, task, i, j, k)
    ensures var own, at := After(w, steps[..i]).store, After(w, steps[..k]);
      && ReplyTo(at, steps[k]) == Some(Saved)
      && (InStep(After(w, steps[..k + 1])) <==>
            at.disk == Some(at.store) && LaneSpecs(own.providers) == LaneSpecs(at.store.providers))
  {
    RoundCarriesItsCopy(w, steps, task, i, j, k);
    AfterStep(w, steps, k);
    SwapAgreesIff(After(w, steps[..k]), task, After(w, steps[..i]).store);
  }

  /** No one else changed the store or the disk at step `m`. */
  ghost predicate StillAt(w: World, steps: seq<Step>, m: nat)
    requires m < |steps|
  {
    && After(w, steps[..m + 1]).store == After(w, steps[..m]).store
    && After(w, steps[..m + 1]).disk == After(w, steps[..m]).disk
  }

  /** In particular they agree, whatever came before, if nobody else edited or saved between the
      copy and the swap. */
  lemma {:induction false} UndisturbedRoundAgrees(w: World, steps: seq<Step>, task: nat, i: nat, j: nat, k: nat)
    requires Round(w, steps, task, i, j, k)
    requires forall m :: i < m < k && m != j ==> StillAt(w, steps, m)
    ensures InStep(After(w, steps[..k + 1]))
  {
    var c := After(w, steps[..i]).store;
    RoundCarriesItsCopy(w, steps, task, i, j, k);
    AfterStep(w, steps, i);
    StoreStill(w, steps, task, i + 1, j);
    SaveKeepsTheStore(w, steps, task, j);
    StoreStill(w, steps, task, j + 1, k);
    SwapAgrees(w, steps, task, i, j, k);
  }

  lemma {:induction false} SaveKeepsTheStore(w: World, steps: seq<Step>, task: nat, j: nat)
    requires j < |steps| && steps[j] == Save(task, true)
    ensures After(w, steps[..j + 1]).store == After(w, steps[..j]).store
  {
    AfterStep(w, steps, j);
  }

  lemma {:induction false} StoreStill(w: World, steps: seq<Step>, task: nat, from: nat, n: nat)
    requires from <= n <= |steps| && forall m :: from <= m < n ==> StillAt(w, steps, m)
    ensures After(w, steps[..n]).store == After(w, steps[..from]).store
    ensures After(w, steps[..n]).disk == After(w, steps[..from]).disk
    decreases n
  {
    if from < n {
      StoreStill(w, steps, task, from, n - 1);
      assert StillAt(w, steps, n - 1);
    }
  }

  /** What is left when the second handler edits, saves and swaps between the first one's copy and
      its save: both are answered success, and disk and lanes are those of the older copy. */
  ghost predicate ComesApart(w2: World, t1: nat, t2: nat, c1: Store, c2: Store) {
    var w3 := SaveNext(SnapshotNext(w2, t2), t2, true);
    var w4 := SaveNext(SwapNext(w3, t2), t1, true);
    var w5 := SwapNext(w4, t1);
    && ReplyTo(w3, Swap(t2)) == Some(Saved) && ReplyTo(w4, Swap(t1)) == Some(Saved)
    && w5.store == c2 && w5.disk == Some(c1) && w5.pool == LaneSpecs(c1.providers) && !InStep(w5)
  }

  /** The command is taken, makes `c` of the store, and is to be saved and swapped in. */
  ghost predicate Taken(c0: Store, cmd: Command, c: Store) {
    Swaps(cmd) && !cmd.Setup? && Edit(c0, cmd) == Some(c) && (Guarded(cmd) ==> !Dry(c))
  }

  /** Any two commands that are each taken, the second on what the first makes of the store, can
      leave memory on one side and disk and lanes on the other, both answered success. */
  lemma {:induction false} TwoSavedEditsCanDisagree(w: World, t1: nat, cmd1: Command, c1: Store,
                                                    t2: nat, cmd2: Command, c2: Store)
    requires !w.setupRequired && t1 != t2 && t1 !in w.tasks && t2 !in w.tasks
    requires Taken(w.store, cmd1, c1) && Taken(c1, cmd2, c2) && c1 != c2
    ensures var w1 := SnapshotNext(BeginNext(w, t1, cmd1), t1);
      && ReplyTo(w, Begin(t1, cmd1)) == None && ReplyTo(w1, Begin(t2, cmd2)) == None
      && BeginNext(w, t1, cmd1).store == c1 && BeginNext(w1, t2, cmd2).store == c2
      && ComesApart(BeginNext(w1, t2, cmd2), t1, t2, c1, c2)
  {
    var w0 := TakenBegins(w, t1, cmd1, c1);
    var w1 := SnapshotNext(w0, t1);
    assert w1 == w.(store := c1, tasks := w.tasks[t1 := Stamped(c1, true)]) by {
      assert w.tasks[t1 := Edited][t1 := Stamped(c1, true)] == w.tasks[t1 := Stamped(c1, true)];
    }
    var w2 := TakenBegins(w1, t2, cmd2, c2);
    TwoCopiesComeApart(w1, w2, t1, c1, t2, c2);
  }

  lemma {:induction false} TakenBegins(w: World, task: nat, cmd: Command, c: Store) returns (w': World)
    requires !w.setupRequired && task !in w.tasks && Taken(w.store, cmd, c)
    ensures w' == BeginNext(w, task, cmd) == w.(store := c, tasks := w.tasks[task := Edited])
    ensures ReplyTo(w, Begin(task, cmd)) == None
  {
    w' := BeginNext(w, task, cmd);
    assert w' == EditedNext(w, task, Guarded(cmd), Swaps(cmd), Some(c));
  }

  lemma {:induction false} TwoCopiesComeApart(w1: World, w2: World, t1: nat, c1: Store, t2: nat, c2: Store)
    requires t1 != t2 && c1 != c2 && At(w1, t1, Stamped(c1, true))
    requires w2 == w1.(store := c2, tasks := w1.tasks[t2 := Edited])
    ensures ComesApart(w2, t1, t2, c1, c2)
  {
    RestOfTheRound(w2, t2);
    var w4 := SwapNext(SaveNext(SnapshotNext(w2, t2), t2, true), t2);
    assert At(w4, t1, Stamped(c1, true));
  }

  /** From any first claim adding two keys at once is enough: both are answered success, and the
      second, in memory, is neither on disk nor live. */
  lemma {:induction false} EveryClaimCanComeApart(form: SetupForm, key1: string, key2: string)
    requires Urls.Trim(form.username) != [] && form.password != []
    requires Urls.Trim(key1) == key1 != [] && Urls.Trim(key2) == key2 != []
    requires key1 != form.apiKey && key2 != form.apiKey && key1 != key2
    ensures var w := Whole(Boot(None), 0, Setup(form, true), true);
            var cmd1, cmd2 := Keys(AddKey(form.providerName, key1, None)), Keys(AddKey(form.providerName, key2, None));
            var w1 := SnapshotNext(BeginNext(w, 1, cmd1), 1);
            var c1, c2 := BeginNext(w, 1, cmd1).store, BeginNext(w1, 2, cmd2).store;
      && ComesApart(BeginNext(w1, 2, cmd2), 1, 2, c1, c2)
      && (forall s :: s in LaneSpecs(c1.providers) ==> s.key != key2)
      && exists s :: s in LaneSpecs(c2.providers) && s.key == key2
  {
    var w := AfterTheFirstClaim(form);
    var cmd1, cmd2 := Keys(AddKey(form.providerName, key1, None)), Keys(AddKey(form.providerName, key2, None));
    var c1, c2 := TwoKeysAdded(form, key1, key2);
    TwoSavedEditsCanDisagree(w, 1, cmd1, c1, 2, cmd2, c2);
  }

  lemma {:induction false} AfterTheFirstClaim(form: SetupForm) returns (w: World)
    requires Urls.Trim(form.username) != [] && form.password != []
    ensures w == Whole(Boot(None), 0, Setup(form, true), true)
    ensures !w.setupRequired && w.tasks == map[] && w.store == Claimed(EmptyStore(), form)
  {
    w := Whole(Boot(None), 0, Setup(form, true), true);
    FirstClaim(0, form);
  }

  lemma {:induction false} TwoKeysAdded(form: SetupForm, key1: string, key2: string) returns (c1: Store, c2: Store)
    requires Urls.Trim(key1) == key1 != [] && Urls.Trim(key2) == key2 != []
    requires key1 != form.apiKey && key2 != form.apiKey && key1 != key2
    ensures Taken(Claimed(EmptyStore(), form), Keys(AddKey(form.providerName, key1, None)), c1)
    ensures Taken(c1, Keys(AddKey(form.providerName, key2, None)), c2) && c1 != c2
    ensures forall s :: s in LaneSpecs(c1.providers) ==> s.key != key2
    ensures exists s :: s in LaneSpecs(c2.providers) && s.key == key2
  {
    var c := Claimed(EmptyStore(), form);
    var p := c.providers[0];
    assert c.providers == [p];
    var p1 := p.(keys := p.keys + [ProviderKey(key1, true, 40, "")]);
    var p2 := p1.(keys := p1.keys + [ProviderKey(key2, true, 40, "")]);
    c1 := c.(providers := [p1]);
    c2 := c1.(providers := [p2]);
    OneKeyMore(c, p, key1);
    OneKeyMore(c1, p1, key2);
    SoleProviderLanes(p1);
    SoleProviderLanes(p2);
    forall s | s in LaneSpecs([p1]) ensures s.key != key2 {
      var k: nat :| ServesAt(p1, p1.keys, s, k);
    }
    assert ServesAt(p2, p2.keys, SpecFor(p2, p2.keys[2]), 2);
    assert SpecFor(p2, p2.keys[2]) in LaneSpecs(c2.providers);
    assert c1.providers[0] != c2.providers[0];
  }

  lemma {:induction false} OneKeyMore(c: Store, p: Provider, key: string)
    requires c.providers == [p] && Urls.Trim(key) == key != [] && !HasKey(p.keys, key)
    ensures Taken(c, Keys(AddKey(p.name, key, None)),
                  c.(providers := [p.(keys := p.keys + [ProviderKey(key, true, 40, "")])]))
  {
    var p' := p.(keys := p.keys + [ProviderKey(key, true, 40, "")]);
    assert [p][..0] == [] && FindProvider([p], p.name) == Some(0);
    assert c.providers[0 := p'] == [p'];
    SoleProviderLanes(p');
    assert Live(p'.keys[|p.keys|]);
  }

  lemma {:induction false} SoleProviderLanes(p: Provider)
    ensures forall s :: s in LaneSpecs([p]) <==> Serves(p, p.keys, s)
    ensures (exists k: nat :: k < |p.keys| && Live(p.keys[k])) ==> LaneSpecs([p]) != []
  {
    forall s ensures s in LaneSpecs([p]) <==> Serves(p, p.keys, s) {
      LaneSpecsHas([p], s);
      assert Serves(p, p.keys, s) ==> ServedBy([p], s, 0);
    }
    if k: nat :| k < |p.keys| && Live(p.keys[k]) {
      assert ServesAt(p, p.keys, SpecFor(p, p.keys[k]), k);
      assert SpecFor(p, p.keys[k]) in LaneSpecs([p]);
    }
  }

  // ---- One handler after another ----

  /** The command, run alone, changes the store without saving it: its save fails, or it is one
      of the edits that are refused too late. */
  predicate LeavesUnsaved(c: Store, cmd: Command, saveOk: bool) {
    var edited := Edit(c, cmd);
    edited.Some? && edited.value != c && (!saveOk || (Guarded(cmd) && Dry(edited.value)))
  }

  /** The late refusals among them are the edits that bite. */
  lemma {:induction false} LateRefusalsBite(c: Store, cmd: Command)
    requires GoodProviders(c.providers)
    ensures LeavesUnsaved(c, cmd, true) <==>
              (cmd.Keys? && KeyEditBites(c, cmd.key)) || (cmd.Providers? && ProviderEditBites(c, cmd.provider))
  {
    if cmd.Keys? {
      KeyEditDrainsIff(c, cmd.key);
    } else if cmd.Providers? {
      ProviderEditDrainsIff(c, cmd.provider);
    }
  }

  datatype Deed = Deed(cmd: Command, saveOk: bool)

  /** Commands handled one after another, each to its end. */
  function Served(w: World, deeds: seq<Deed>): World {
    if deeds == [] then w
    else
      var n := |deeds| - 1;
      Whole(Served(w, deeds[..n]), n, deeds[n].cmd, deeds[n].saveOk)
  }

  /** One command run alone keeps the three in agreement exactly when it leaves nothing unsaved. */
  lemma {:induction false} AloneAgreesIff(w: World, task: nat, cmd: Command, saveOk: bool)
    requires Settled(w) && InStep(w)
    ensures Settled(Whole(w, task, cmd, saveOk))
    ensures InStep(Whole(w, task, cmd, saveOk)) <==> !LeavesUnsaved(w.store, cmd, saveOk)
  {
    var edited := Edit(w.store, cmd);
    var w1 := EditedNext(w, task, Guarded(cmd), Swaps(cmd), edited);
    if cmd.Setup? {
      assert BeginNext(w, task, cmd) == w;
    } else {
      assert BeginNext(w, task, cmd) == w1;
      EditedAlone(w, task, Guarded(cmd), Swaps(cmd), edited, saveOk);
      assert !Swaps(cmd) && edited.Some? ==> edited.value.providers == w.store.providers;
    }
  }

  /** What is left of a handler once its edit is made. */
  function Rest(w: World, task: nat, saveOk: bool): World {
    SwapNext(SaveNext(SnapshotNext(OpenNext(w, task), task), task, saveOk), task)
  }

  lemma {:induction false} EditedAlone(w: World, task: nat, guarded: bool, swaps: bool, edited: Option<Store>,
                                       saveOk: bool)
    requires Settled(w)
    ensures var w' := Rest(EditedNext(w, task, guarded, swaps, edited), task, saveOk);
      w' == if Refuses(guarded, edited) then (if edited.Some? then w.(store := edited.value) else w)
            else if !saveOk then w.(store := edited.value)
            else if swaps then
              w.(store := edited.value, disk := Some(edited.value), pool := LaneSpecs(edited.value.providers))
            else w.(store := edited.value, disk := Some(edited.value))
  {
    var w1 := EditedNext(w, task, guarded, swaps, edited);
    if !Refuses(guarded, edited) {
      var c := edited.value;
      if swaps {
        assert w1.tasks == map[task := Edited];
        assert SnapshotNext(OpenNext(w1, task), task) == w1.(tasks := map[task := Stamped(c, true)]);
      } else {
        assert w1.tasks == map[task := Stamped(c, false)];
      }
      StampedAlone(w.(store := c), task, c, swaps, saveOk);
    }
  }

  lemma {:induction false} StampedAlone(w: World, task: nat, c: Store, swaps: bool, saveOk: bool)
    requires w.tasks == map[]
    ensures var w' := SwapNext(SaveNext(w.(tasks := map[task := Stamped(c, swaps)]), task, saveOk), task);
      w' == if !saveOk then w
            else if swaps then w.(disk := Some(c), pool := LaneSpecs(c.providers))
            else w.(disk := Some(c))
  {
    var w1 := w.(tasks := map[task := Stamped(c, swaps)]);
    assert w1.tasks - {task} == map[];
    if saveOk && swaps {
      var w2 := w1.(disk := Some(c), tasks := map[task := Filed(c, false)]);
      assert SaveNext(w1, task, true) == w2;
      assert w2.tasks - {task} == map[];
    }
  }

  predicate AlwaysInStep(w: World, deeds: seq<Deed>) {
    InStep(Served(w, deeds)) && (deeds == [] || AlwaysInStep(w, deeds[..|deeds| - 1]))
  }

  predicate NothingUnsaved(w: World, deeds: seq<Deed>) {
    deeds == [] ||
    var n := |deeds| - 1;
    NothingUnsaved(w, deeds[..n]) && !LeavesUnsaved(Served(w, deeds[..n]).store, deeds[n].cmd, deeds[n].saveOk)
  }

  /** OVER WHOLE RUNS, with handlers one at a time: memory, disk and lanes agree after every
      command if and only if no command, on the store as it found it, had its save fail on a
      change or was one of the edits refused too late. */
  lemma {:induction false} AlwaysInStepIffNothingUnsaved(w: World, deeds: seq<Deed>)
    requires Settled(w) && InStep(w)
    ensures Settled(Served(w, deeds))
    ensures AlwaysInStep(w, deeds) <==> NothingUnsaved(w, deeds)
  {
    if deeds != [] {
      var n := |deeds| - 1;
      AlwaysInStepIffNothingUnsaved(w, deeds[..n]);
      if InStep(Served(w, deeds[..n])) {
        AloneAgreesIff(Served(w, deeds[..n]), n, deeds[n].cmd, deeds[n].saveOk);
      } else {
        AloneSettles(Served(w, deeds[..n]), n, deeds[n].cmd, deeds[n].saveOk);
      }
    }
  }

  lemma {:induction false} AloneSettles(w: World, task: nat, cmd: Command, saveOk: bool)
    requires Settled(w)
    ensures Settled(Whole(w, task, cmd, saveOk))
  {
    if cmd.Setup? {
      assert BeginNext(w, task, cmd) == w;
    } else {
      EditedAlone(w, task, Guarded(cmd), Swaps(cmd), Edit(w.store, cmd), saveOk);
    }
  }
}
