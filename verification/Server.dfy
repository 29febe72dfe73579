/** The running server: the store behind its mutex, the saved copy, the handlers in progress,
    and the live pool. Each handler edits the store in place, and each of its lock holds is one
    method here. */
module Server {
  import opened Basics
  import opened Pools
  import opened Config
  import opened Failover
  import opened Settings
  import opened Lanes
  import opened Service
  import Pacing
  import Urls

  /** Collect a spec for every enabled key of every provider. */
  method CollectSpecs(providers: seq<Provider>) returns (specs: seq<LaneSpec>)
    ensures specs == LaneSpecs(providers)
  {
    specs := [];
    for i := 0 to |providers|
      invariant specs == LaneSpecs(providers[..i])
    {
      assert providers[..i + 1][..i] == providers[..i];
      var more := CollectKeys(providers[i]);
      specs := specs + more;
    }
    assert providers[..|providers|] == providers;
  }

  method CollectKeys(p: Provider) returns (specs: seq<LaneSpec>)
    ensures specs == KeySpecs(p, p.keys)
  {
    specs := [];
    for k := 0 to |p.keys|
      invariant specs == KeySpecs(p, p.keys[..k])
    {
      assert p.keys[..k + 1][..k] == p.keys[..k];
      var key := p.keys[k];
      if key.enabled && key.rpm > 0 {
        specs := specs + [LaneSpec(p.name, p.baseUrl, key.key, key.rpm, p.protocol)];
      }
    }
    assert p.keys[..|p.keys|] == p.keys;
  }

  /** A pool no request has used yet. */
  method FreshPool(specs: seq<LaneSpec>, window: nat) returns (pool: Pool)
    ensures fresh(pool) && fresh(pool.lanes) && fresh(pool.limiters)
    ensures pool.Valid() && pool.window == window && pool.View() == Rebuilt([], specs, window)
  {
    var none := new Pool.Make([], window);
    pool := none.Rebuild(specs);
  }

  lemma {:induction false} RetainMisses(ps: seq<Provider>, name: string)
    ensures |KeepProviders(ps, name)| == |ps| <==> !HasProvider(ps, name)
    ensures !HasProvider(ps, name) ==> KeepProviders(ps, name) == ps
  {
    FilterAllIsSame(ps, ProviderBut(name));
    if i :| 0 <= i < |ps| && ps[i].name == name {
      assert ps[i] in ps && !ProviderBut(name)(ps[i]);
    }
  }

  /** NO OTHER KEY NOTICES. Whatever the live pool has come to be, swapping in a saved key edit
      leaves every other key that has a lane in it the budget and cooldown it had. */
  lemma {:induction false} OtherKeysKeepTheirBudget(c: Store, a: KeyAction, live: PoolView, window: nat, s: LaneSpec)
    requires Good(c) && EditKeys(c, a).Some?
    requires s in LaneSpecs(c.providers) && FindLane(live, s.Id()).Some?
    requires s.Id() != LaneId(a.provider, EditedKey(c.providers[FindProvider(c.providers, a.provider).value], a))
    ensures var next := Rebuilt(live, LaneSpecs(EditKeys(c, a).value.providers), window);
            var was := live[FindLane(live, s.Id()).value];
      FindLane(next, s.Id()).Some? && next[FindLane(next, s.Id()).value] == LaneView(s, window, was.hits, was.cooldown)
  {
    var specs' := LaneSpecs(EditKeys(c, a).value.providers);
    var next := Rebuilt(live, specs', window);
    KeyEditIsGood(c, a);
    IdsAreUnique(EditKeys(c, a).value.providers);
    KeyEditLanesExactly(c, a, s);
    var j :| 0 <= j < |specs'| && specs'[j] == s;
    Pacing.UniqueIndex(next, j);
    assert next[j] == Successor(live, s, window);
  }

  lemma {:induction false} SwapMoves(window: nat, w: World, live: PoolView, task: nat)
    requires task in w.tasks && w.tasks[task].Filed?
    ensures var specs := LaneSpecs(w.tasks[task].c.providers);
      && Next(w, Swap(task)) == w.(pool := specs, tasks := w.tasks - {task})
      && LiveNext(window, w, live, Swap(task)) == Rebuilt(if w.tasks[task].renews then [] else live, specs, window)
      && ReplyTo(w, Swap(task)) == Some(Saved)
  {
  }

  class Server {
    var users: seq<User>
    var providers: seq<Provider>
    var aliases: seq<Alias>
    var setupRequired: bool
    var disk: Option<Store>
    var pool: Pool
    var tasks: map<nat, Phase>

    ghost predicate Valid()
      reads this, pool
    {
      pool.Valid()
    }

    function CurrentStore(): Store
      reads this
    {
      Store(users, providers, aliases)
    }

    ghost function LivePool(): PoolView
      requires Valid()
      reads this, pool, pool.lanes, pool.limiters
    {
      pool.View()
    }

    ghost function View(): World
      requires Valid()
      reads this, pool, pool.lanes, pool.limiters
    {
      World(CurrentStore(), setupRequired, disk, Specs(LivePool()), tasks)
    }

    /** A process starting on whatever was last saved. */
    constructor (saved: Option<Store>, providerWindow: nat)
      ensures Valid() && View() == Boot(saved)
      ensures pool.window == providerWindow + JITTER_MARGIN
      ensures LivePool() == Rebuilt([], LaneSpecs(providers), pool.window)
    {
      var c := if saved.Some? then saved.value else EmptyStore();
      users, providers, aliases := c.users, c.providers, c.aliases;
      setupRequired := !HasSuperuser(c.users);
      disk := saved;
      tasks := map[];
      var specs := CollectSpecs(c.providers);
      var live := FreshPool(specs, providerWindow + JITTER_MARGIN);
      pool := live;
    }

    /** One step of one handler that leaves every lane as it was. */
    twostate predicate Steps(step: Step)
      requires old(Valid()) && Valid()
      reads this, pool, pool.lanes, pool.limiters
    {
      View() == Next(old(View()), step) && pool == old(pool) && LivePool() == old(LivePool())
    }

    /** The store as edited, if the edit was not refused before it touched anything. */
    function Made(edited: bool): Option<Store>
      reads this
    {
      if edited then Some(CurrentStore()) else None
    }

    /** The end of the first lock hold of a handler that began on the store `was`. A key or
        provider edit that leaves no lane is refused, but not undone. */
    method Conclude(task: nat, cmd: Command, edited: bool, ghost was: Store) returns (reply: Option<Reply>)
      requires Valid() && task !in tasks && !setupRequired && !cmd.Setup?
      requires Made(edited) == Edit(was, cmd) && (!edited ==> CurrentStore() == was)
      modifies this`tasks
      ensures Valid() && View() == BeginNext(old(View()).(store := was), task, cmd)
      ensures reply == ReplyTo(old(View()).(store := was), Begin(task, cmd))
    {
      if !edited {
        return Some(Refused);
      }
      if Guarded(cmd) {
        var specs := CollectSpecs(providers);
        if specs == [] {
          return Some(Refused);
        }
      }
      tasks := tasks[task := if Swaps(cmd) then Edited else Stamped(CurrentStore(), false)];
      return None;
    }

    method ProviderKeys(task: nat, a: KeyAction) returns (reply: Option<Reply>)
      requires Valid() && task !in tasks
      modifies this`providers, this`tasks
      ensures Valid() && Steps(Begin(task, Keys(a)))
      ensures reply == ReplyTo(old(View()), Begin(task, Keys(a)))
    {
      if setupRequired {
        return Some(Refused);
      }
      var edited := EditKeyList(a);
      reply := Conclude(task, Keys(a), edited, old(CurrentStore()));
    }

    /** Find the provider and push, remove or change one of its keys; false if refused. */
    method EditKeyList(a: KeyAction) returns (edited: bool)
      modifies this`providers
      ensures Made(edited) == EditKeys(old(CurrentStore()), a) && (!edited ==> CurrentStore() == old(CurrentStore()))
    {
      var found := FindProvider(providers, a.provider);
      if found.None? {
        return false;
      }
      var i := found.value;
      var p := providers[i];
      match a {
        case AddKey(_, raw, rpm) =>
          var key := Urls.Trim(raw);
          if key == [] || HasKey(p.keys, key) || !CheckRpm(Or(rpm, 40)) {
            return false;
          }
          p := p.(keys := p.keys + [ProviderKey(key, true, Or(rpm, 40), "")]);
        case RemoveKey(_, index) =>
          if index >= |p.keys| {
            return false;
          }
          p := p.(keys := p.keys[..index] + p.keys[index + 1..]);
        case UpdateKey(_, index, enabled, rpm) =>
          if index >= |p.keys| || (rpm.Some? && !CheckRpm(rpm.value)) {
            return false;
          }
          var k := p.keys[index];
          if rpm.Some? {
            k := k.(rpm := rpm.value);
          }
          if enabled.Some? {
            k := k.(enabled := enabled.value);
          }
          p := p.(keys := p.keys[index := k]);
      }
      providers := providers[i := p];
      return true;
    }

    method ProvidersAction(task: nat, a: ProviderAction) returns (reply: Option<Reply>)
      requires Valid() && task !in tasks
      modifies this`providers, this`aliases, this`tasks
      ensures Valid() && Steps(Begin(task, Providers(a)))
      ensures reply == ReplyTo(old(View()), Begin(task, Providers(a)))
    {
      if setupRequired {
        return Some(Refused);
      }
      var edited := EditProviderList(a);
      reply := Conclude(task, Providers(a), edited, old(CurrentStore()));
    }

    method EditProviderList(a: ProviderAction) returns (edited: bool)
      modifies this`providers, this`aliases
      ensures Made(edited) == EditProviders(old(CurrentStore()), a) &&
              (!edited ==> CurrentStore() == old(CurrentStore()))
    {
      match a {
        case AddProvider(rawName, rawUrl, rawKey, rpm, protocol) =>
          var name, key := Urls.Trim(rawName), Urls.Trim(rawKey);
          if name == [] || key == [] || HasProvider(providers, name) || !CheckRpm(Or(rpm, 40)) {
            return false;
          }
          var url := Urls.NormalizeBaseUrl(rawUrl);
          if !IsHttp(url) {
            return false;
          }
          providers := providers + [Provider(name, url, [ProviderKey(key, true, Or(rpm, 40), "")], protocol)];
        case RemoveProvider(name) =>
          var before := |providers|;
          providers := KeepProviders(providers, name);
          RetainMisses(old(providers), name);
          if |providers| == before {
            return false;
          }
          aliases := PruneAliases(aliases, name);
        case SetBaseUrl(name, rawUrl) =>
          var url := Urls.NormalizeBaseUrl(rawUrl);
          var found := FindProvider(providers, name);
          if !IsHttp(url) || found.None? {
            return false;
          }
          providers := providers[found.value := providers[found.value].(baseUrl := url)];
      }
      return true;
    }

    /** Aliases: edited with no look at the lanes that are left. */
    method AliasesAction(task: nat, a: AliasAction) returns (reply: Option<Reply>)
      requires Valid() && task !in tasks
      modifies this`aliases, this`tasks
      ensures Valid() && Steps(Begin(task, Aliases(a)))
      ensures reply == ReplyTo(old(View()), Begin(task, Aliases(a)))
    {
      if setupRequired {
        return Some(Refused);
      }
      var edited := EditAliasList(a);
      reply := Conclude(task, Aliases(a), edited, old(CurrentStore()));
    }

    method EditAliasList(a: AliasAction) returns (edited: bool)
      modifies this`aliases
      ensures Made(edited) == EditAliases(old(CurrentStore()), a) && (!edited ==> CurrentStore() == old(CurrentStore()))
    {
      match a {
        case UpsertAlias(rawName, targets) =>
          var name := Urls.Trim(rawName);
          if name == [] || !GoodAlias(Alias(name, targets), providers) {
            return false;
          }
          aliases := KeepAliases(aliases, name);
          aliases := aliases + [Alias(name, targets)];
          return true;
        case RemoveAlias(name) =>
          var before := |aliases|;
          aliases := KeepAliases(aliases, name);
          if |aliases| == before {
            FilterAllIsSame(old(aliases), AliasBut(name));
          }
          return |aliases| != before;
      }
    }

    method EditUserList(a: UserAction) returns (edited: bool)
      modifies this`users
      ensures Made(edited) == EditUsers(old(CurrentStore()), a) && (!edited ==> CurrentStore() == old(CurrentStore()))
    {
      match a {
        case AddUser(rawName, len, hash, admin) =>
          var name := Urls.Trim(rawName);
          if name == [] || len < MIN_PASSWORD || FindUser(users, name).Some? {
            return false;
          }
          users := users + [User(name, hash, if admin then Admin else Plain)];
        case RemoveUser(name) =>
          var found := FindUser(users, name);
          if found.None? || users[found.value].role == Superuser {
            return false;
          }
          users := KeepUsers(users, name);
        case SetPassword(name, len, hash) =>
          var found := FindUser(users, name);
          if len < MIN_PASSWORD || found.None? {
            return false;
          }
          users := users[found.value := users[found.value].(pwHash := hash)];
      }
      return true;
    }

    /** Accounts: copied in the same lock hold, to be saved and never swapped in. */
    method UsersAction(task: nat, a: UserAction) returns (reply: Option<Reply>)
      requires Valid() && task !in tasks
      modifies this`users, this`tasks
      ensures Valid() && Steps(Begin(task, Users(a)))
      ensures reply == ReplyTo(old(View()), Begin(task, Users(a)))
    {
      if setupRequired {
        return Some(Refused);
      }
      var edited := EditUserList(a);
      reply := Conclude(task, Users(a), edited, old(CurrentStore()));
    }

    /** Client keys and limits: nothing of theirs is kept here, but the whole store is copied. */
    method ResaveAction(task: nat) returns (reply: Option<Reply>)
      requires Valid() && task !in tasks
      modifies this`tasks
      ensures Valid() && Steps(Begin(task, Resave))
      ensures reply == ReplyTo(old(View()), Begin(task, Resave))
    {
      if setupRequired {
        return Some(Refused);
      }
      reply := Conclude(task, Resave, true, CurrentStore());
    }

    /** Push the first account and its provider. */
    method PushClaim(form: SetupForm)
      modifies this`users, this`providers
      ensures CurrentStore() == Claimed(old(CurrentStore()), form)
    {
      users := users + [User(form.username, form.pwHash, Superuser)];
      var url := Urls.NormalizeBaseUrl(form.baseUrl);
      var key := ProviderKey(form.apiKey, true, 40, form.username);
      providers := providers + [Provider(form.providerName, url, [key], form.protocol)];
    }

    /** The one-time claim, saved while the store is locked. */
    method SetupSubmit(task: nat, form: SetupForm, saveOk: bool) returns (reply: Option<Reply>)
      requires Valid() && task !in tasks
      modifies this`users, this`providers, this`disk, this`tasks
      ensures Valid() && Steps(Begin(task, Setup(form, saveOk)))
      ensures reply == ReplyTo(old(View()), Begin(task, Setup(form, saveOk)))
    {
      if !setupRequired || Urls.Trim(form.username) == [] || form.password == [] || HasSuperuser(users) {
        return Some(Refused);
      }
      PushClaim(form);
      if !saveOk {
        return Some(SaveFailed);
      }
      disk := Some(CurrentStore());
      tasks := tasks[task := Claiming];
      return None;
    }

    /** The wizard closes once the claim's lock is released. */
    method CloseWizard(task: nat)
      requires Valid() && At(View(), task, Claiming)
      modifies this`setupRequired, this`tasks
      ensures Valid() && Steps(Open(task))
    {
      setupRequired := false;
      tasks := tasks[task := Opened];
    }

    /** The second lock hold: copy the store as it is by now. */
    method CopyStore(task: nat)
      requires Valid() && (At(View(), task, Edited) || At(View(), task, Opened))
      modifies this`tasks
      ensures Valid() && Steps(Snapshot(task))
    {
      if tasks[task] == Edited {
        tasks := tasks[task := Stamped(CurrentStore(), true)];
      } else {
        tasks := tasks[task := Filed(CurrentStore(), true)];
      }
    }

    /** Save the copy, with no lock held. A failed save leaves disk and pool alone. */
    method SaveCopy(task: nat, ok: bool) returns (reply: Option<Reply>)
      requires Valid() && task in tasks && tasks[task].Stamped?
      modifies this`disk, this`tasks
      ensures Valid() && Steps(Save(task, ok))
      ensures reply == ReplyTo(old(View()), Save(task, ok))
    {
      var c, swaps := tasks[task].c, tasks[task].swaps;
      if !ok {
        tasks := tasks - {task};
        return Some(SaveFailed);
      }
      disk := Some(c);
      if swaps {
        tasks := tasks[task := Filed(c, false)];
        return None;
      }
      tasks := tasks - {task};
      return Some(Saved);
    }

    /** Swap in a pool built from the copy: for an edit, rebuilt from the live one, so that every
        kept key's spent budget and cooldown come across; for the claim, a new one. */
    method SwapPool(task: nat) returns (reply: Option<Reply>)
      requires Valid() && task in tasks && tasks[task].Filed?
      modifies this`pool, this`tasks
      ensures Valid() && View() == Next(old(View()), Swap(task)) && pool.window == old(pool.window)
      ensures LivePool() == LiveNext(pool.window, old(View()), old(LivePool()), Swap(task))
      ensures reply == ReplyTo(old(View()), Swap(task))
    {
      SwapMoves(pool.window, View(), LivePool(), task);
      var next := NextPool(tasks[task].c, tasks[task].renews);
      pool := next;
      tasks := tasks - {task};
      return Some(Saved);
    }

    method NextPool(c: Store, renews: bool) returns (next: Pool)
      requires Valid()
      ensures fresh(next) && fresh(next.lanes) && fresh(next.limiters)
      ensures next.Valid() && next.window == pool.window
      ensures next.View() == Rebuilt(if renews then [] else LivePool(), LaneSpecs(c.providers), pool.window)
    {
      var specs := CollectSpecs(c.providers);
      if renews {
        next := FreshPool(specs, pool.window);
      } else {
        next := pool.Rebuild(specs);
      }
    }
  }
}
