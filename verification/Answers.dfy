/** What becomes of a command, and what its answer is worth. */
module Answers {
  import opened Basics
  import opened Pools
  import opened Config
  import opened Lanes
  import opened Settings
  import opened Edits
  import opened Outages
  import opened Agreement
  import Urls

  // ---- Which commands are taken, and what they do to the store ----

  ghost predicate Allowed(c: Store, cmd: Command) {
    match cmd
    case Setup(_, _) => false
    case Keys(a) => exists i: nat :: NamedAt(c.providers, a.provider, i) && KeysAllow(c.providers[i].keys, a)
    case Providers(a) => ProvidersAllow(c.providers, a)
    case Aliases(a) => AliasesAllow(c, a)
    case Users(a) => UsersAllow(c.users, a)
    case Resave => true
  }

  ghost predicate Becomes(c: Store, c': Store, cmd: Command) {
    match cmd
    case Setup(_, _) => false
    case Keys(a) => exists i: nat :: NamedAt(c.providers, a.provider, i) && OnlyKeysOf(c, c', i, a)
    case Providers(a) => OnlyProvidersChange(c, c', a)
    case Aliases(a) => OnlyAliasesChange(c, c', a)
    case Users(a) => OnlyUsersChange(c, c', a)
    case Resave => c' == c
  }

  lemma {:induction false} EditIsExact(c: Store, cmd: Command)
    requires Good(c)
    ensures Edit(c, cmd).Some? <==> Allowed(c, cmd)
    ensures Edit(c, cmd).Some? ==> Becomes(c, Edit(c, cmd).value, cmd)
  {
    match cmd
    case Setup(_, _) =>
    case Keys(a) => KeyCommandIsExact(c, a);
    case Providers(a) => ProviderEditIsExact(c, a);
    case Aliases(a) => AliasEditIsExact(c, a);
    case Users(a) => UserEditIsExact(c, a);
    case Resave =>
  }

  lemma {:induction false} KeyCommandIsExact(c: Store, a: KeyAction)
    requires Good(c)
    ensures EditKeys(c, a).Some? <==> Allowed(c, Keys(a))
    ensures EditKeys(c, a).Some? ==> Becomes(c, EditKeys(c, a).value, Keys(a))
  {
    if i: nat :| NamedAt(c.providers, a.provider, i) {
      KeyEditIsExact(c, a, i);
      assert forall j: nat :: NamedAt(c.providers, a.provider, j) ==> j == i;
    } else {
      KeyEditNeedsItsProvider(c, a);
    }
  }

  /** Some provider has a key that is switched on. */
  ghost predicate Serving(c: Store) {
    exists i: nat, k: nat :: i < |c.providers| && SwitchedOn(c.providers[i].keys, k)
  }

  lemma {:induction false} DryUnlessServing(c: Store)
    ensures Dry(c) <==> !Serving(c)
  {
    NoLanesIff(c.providers);
    if i: nat, k: nat :| i < |c.providers| && SwitchedOn(c.providers[i].keys, k) {
      assert Live(c.providers[i].keys[k]);
    } else {
      forall i: nat, k: nat | i < |c.providers| && k < |c.providers[i].keys| ensures !Live(c.providers[i].keys[k]) {
        assert !SwitchedOn(c.providers[i].keys, k);
      }
    }
  }

  // ---- One command on its own ----

  /** Where a command leaves the server when nobody else is at work. An edit that is not allowed
      changes nothing. An allowed one changes the store; a key or provider edit that leaves no
      key on, or a failed save, changes neither disk nor lanes; otherwise the store is on disk
      and, unless only accounts were edited or the store only saved again, its lanes are live. */
  ghost predicate EndsAs(w: World, w': World, cmd: Command, saveOk: bool) {
    && w'.setupRequired == w.setupRequired && w'.tasks == w.tasks
    && if !Allowed(w.store, cmd) then w' == w
       else
         && Becomes(w.store, w'.store, cmd)
         && if ((cmd.Keys? || cmd.Providers?) && !Serving(w'.store)) || !saveOk
            then w'.disk == w.disk && w'.pool == w.pool
            else
              && w'.disk == Some(w'.store)
              && w'.pool == if cmd.Users? || cmd.Resave? then w.pool else LaneSpecs(w'.store.providers)
  }

  lemma {:induction false} CommandAlone(w: World, task: nat, cmd: Command, saveOk: bool)
    requires Settled(w) && Good(w.store) && !cmd.Setup?
    ensures EndsAs(w, Whole(w, task, cmd, saveOk), cmd, saveOk)
  {
    var edited := Edit(w.store, cmd);
    EditIsExact(w.store, cmd);
    EditedAlone(w, task, Guarded(cmd), Swaps(cmd), edited, saveOk);
    assert BeginNext(w, task, cmd) == EditedNext(w, task, Guarded(cmd), Swaps(cmd), edited);
    if edited.Some? {
      DryUnlessServing(edited.value);
    }
  }

  /** One account, the superuser's; one provider, with one key, of that account's, on at 40. */
  ghost predicate HoldsOnly(c: Store, form: SetupForm) {
    && |c.users| == 1 && |c.providers| == 1 && c.aliases == []
    && c.users[0].username == form.username && c.users[0].pwHash == form.pwHash && c.users[0].role == Superuser
    && c.providers[0].name == form.providerName && c.providers[0].baseUrl == Urls.Norm(form.baseUrl)
    && c.providers[0].protocol == form.protocol && |c.providers[0].keys| == 1
    && var k := c.providers[0].keys[0]; k.key == form.apiKey && k.enabled && k.rpm == 40 && k.owner == form.username
  }

  /** The lane of a sole provider's sole key. */
  ghost predicate ServesOnly(w: World) {
    && |w.store.providers| == |w.pool| == 1 && |w.store.providers[0].keys| == 1
    && ServesAt(w.store.providers[0], w.store.providers[0].keys, w.pool[0], 0)
  }

  lemma {:induction false} ClaimedHolds(form: SetupForm)
    ensures HoldsOnly(Claimed(EmptyStore(), form), form)
  {
  }

  lemma {:induction false} SoleProviderServes(w: World, form: SetupForm)
    requires HoldsOnly(w.store, form) && w.pool == LaneSpecs(w.store.providers)
    ensures ServesOnly(w)
  {
    var p := w.store.providers[0];
    assert w.store.providers == [p];
    Urls.NormIsNormal(form.baseUrl);
    SoleLane(p);
  }

  /** The first claim, run alone: it is on disk, and the only lane is its key's. */
  lemma {:induction false} ClaimAlone(task: nat, form: SetupForm)
    requires Urls.Trim(form.username) != [] && form.password != []
    ensures var w := Whole(Boot(None), task, Setup(form, true), true);
            HoldsOnly(w.store, form) && ServesOnly(w) && w.disk == Some(w.store) && Settled(w)
  {
    var w := Whole(Boot(None), task, Setup(form, true), true);
    FirstClaim(task, form);
    ClaimedHolds(form);
    SoleProviderServes(w, form);
  }

  // ---- Answers ----

  /** The handler that the step belongs to is at work, or about to begin. */
  predicate Acts(w: World, step: Step) {
    match step
    case Restart => false
    case Begin(task, _) => task !in w.tasks
    case _ => step.task in w.tasks
  }

  predicate AtWork(w: World, step: Step) {
    !step.Restart? && step.task in w.tasks
  }

  /** Every handler is answered once, as it ends. */
  lemma {:induction false} AnsweredIffDone(w: World, step: Step)
    requires Acts(w, step)
    ensures ReplyTo(w, step).Some? <==> !AtWork(Next(w, step), step)
  {
  }

  /** AN ANSWER MEANS WHAT IT SAYS. `Saved`: the copy this handler took is on disk, or was put
      there by its save and its lanes are live. `SaveFailed`: neither disk nor lanes moved.
      `Refused`: nor did they, and no handler was started. */
  lemma {:induction false} AnswersAreHonest(w: World, step: Step)
    requires Acts(w, step)
    ensures var w' := Next(w, step);
      match ReplyTo(w, step)
      case None => true
      case Some(Refused) => step.Begin? && w'.tasks == w.tasks && w'.disk == w.disk && w'.pool == w.pool
      case Some(SaveFailed) =>
        && w'.disk == w.disk && w'.pool == w.pool
        && ((step.Save? && !step.ok) || (step.Begin? && step.cmd.Setup? && !step.cmd.saveOk))
      case Some(Saved) =>
        if step.Save? then step.ok && At(w, step.task, Stamped(w.tasks[step.task].c, false))
             && w'.disk == Some(w.tasks[step.task].c) && w'.pool == w.pool
        else step.Swap? && w.tasks[step.task].Filed?
             && w'.disk == w.disk && w'.pool == LaneSpecs(w.tasks[step.task].c.providers)
  {
  }

  /** EXACTLY WHAT IS REFUSED. A claim is refused when the wizard is closed, a name or password
      is missing, or there is a superuser already; any other command while the wizard is open,
      when it is not allowed, or when it edits keys or providers and leaves no key on. */
  lemma {:induction false} RefusedIff(w: World, task: nat, cmd: Command)
    requires Good(w.store) && task !in w.tasks
    ensures ReplyTo(w, Begin(task, cmd)) == Some(Refused) <==>
              if cmd.Setup? then
                || !w.setupRequired || Urls.Trim(cmd.form.username) == [] || cmd.form.password == []
                || exists i :: 0 <= i < |w.store.users| && w.store.users[i].role == Superuser
              else
                || w.setupRequired || !Allowed(w.store, cmd)
                || ((cmd.Keys? || cmd.Providers?) && !Serving(BeginNext(w, task, cmd).store))
  {
    if !cmd.Setup? {
      EditIsExact(w.store, cmd);
      var edited := Edit(w.store, cmd);
      if edited.Some? {
        DryUnlessServing(edited.value);
      }
    }
  }
}
