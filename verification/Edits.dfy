/** What each settings edit does to the store, position by position, and exactly when it is
    refused before anything is touched. */
module Edits {
  import opened Basics
  import opened Config
  import opened Failover
  import Urls

  ghost predicate NamedAt(ps: seq<Provider>, name: string, i: nat) {
    i < |ps| && ps[i].name == name
  }

  ghost predicate DifferOnlyAt<T(!new)>(s: seq<T>, s': seq<T>, i: nat) {
    i < |s| == |s'| && forall j :: 0 <= j < |s| && j != i ==> s'[j] == s[j]
  }

  ghost predicate Without<T(!new)>(s: seq<T>, s': seq<T>, i: nat) {
    i < |s| && s' == s[..i] + s[i + 1..]
  }

  // ---- Keys ----

  /** The key at position `x` keeps its text and owner, and takes what the edit gives. */
  ghost predicate Retuned(k: ProviderKey, k': ProviderKey, enabled: Option<bool>, rpm: Option<nat>) {
    && k'.key == k.key && k'.owner == k.owner
    && k'.enabled == (match enabled case None => k.enabled case Some(on) => on)
    && k'.rpm == (match rpm case None => k.rpm case Some(rate) => rate)
  }

  /** A new key goes last, trimmed, enabled, at 40 unless told otherwise, and belongs to nobody. */
  ghost predicate KeysEdited(keys: seq<ProviderKey>, keys': seq<ProviderKey>, a: KeyAction) {
    match a
    case AddKey(_, raw, rpm) =>
      keys' == keys + [ProviderKey(Urls.Trim(raw), true, match rpm case None => 40 case Some(rate) => rate, "")]
    case RemoveKey(_, x) => Without(keys, keys', x)
    case UpdateKey(_, x, enabled, rpm) => DifferOnlyAt(keys, keys', x) && Retuned(keys[x], keys'[x], enabled, rpm)
  }

  /** The edit asks for something a provider with these keys can give. */
  ghost predicate KeysAllow(keys: seq<ProviderKey>, a: KeyAction) {
    match a
    case AddKey(_, raw, rpm) =>
      && Urls.Trim(raw) != []
      && (forall k :: 0 <= k < |keys| ==> keys[k].key != Urls.Trim(raw))
      && (rpm.Some? ==> 1 <= rpm.value <= 10_000)
    case RemoveKey(_, x) => x < |keys|
    case UpdateKey(_, x, _, rpm) => x < |keys| && (rpm.Some? ==> 1 <= rpm.value <= 10_000)
  }

  /** Only the keys of provider `i` change. */
  ghost predicate OnlyKeysOf(c: Store, c': Store, i: nat, a: KeyAction) {
    && c'.users == c.users && c'.aliases == c.aliases
    && DifferOnlyAt(c.providers, c'.providers, i)
    && c'.providers[i].name == c.providers[i].name
    && c'.providers[i].baseUrl == c.providers[i].baseUrl
    && c'.providers[i].protocol == c.providers[i].protocol
    && KeysEdited(c.providers[i].keys, c'.providers[i].keys, a)
  }

  /** A key edit is taken exactly when the provider exists and its keys allow it, and then it
      changes one position of that provider's keys and nothing else in the store. */
  lemma {:induction false} KeyEditIsExact(c: Store, a: KeyAction, i: nat)
    requires GoodProviders(c.providers) && NamedAt(c.providers, a.provider, i)
    ensures EditKeys(c, a).Some? <==> KeysAllow(c.providers[i].keys, a)
    ensures EditKeys(c, a).Some? ==> OnlyKeysOf(c, EditKeys(c, a).value, i, a)
  {
    assert FindProvider(c.providers, a.provider) == Some(i);
    var keys := c.providers[i].keys;
    assert EditKeys(c, a).Some? <==> EditedKeys(keys, a).Some?;
    KeysEditIsExact(keys, a);
  }

  lemma {:induction false} KeysEditIsExact(keys: seq<ProviderKey>, a: KeyAction)
    ensures EditedKeys(keys, a).Some? <==> KeysAllow(keys, a)
    ensures EditedKeys(keys, a).Some? ==> KeysEdited(keys, EditedKeys(keys, a).value, a)
  {
  }

  lemma {:induction false} KeyEditNeedsItsProvider(c: Store, a: KeyAction)
    requires forall i: nat :: !NamedAt(c.providers, a.provider, i)
    ensures EditKeys(c, a).None?
  {
    if i :| 0 <= i < |c.providers| && c.providers[i].name == a.provider {
      assert NamedAt(c.providers, a.provider, i);
    }
  }

  // ---- Providers ----

  ghost predicate Reachable(url: string) {
    (|url| >= 7 && url[..7] == "http://") || (|url| >= 8 && url[..8] == "https://")
  }

  /** When a provider edit is taken. */
  ghost predicate ProvidersAllow(ps: seq<Provider>, a: ProviderAction) {
    match a
    case AddProvider(rawName, rawUrl, rawKey, rpm, _) =>
      && Urls.Trim(rawName) != [] && Urls.Trim(rawKey) != []
      && (forall i: nat :: !NamedAt(ps, Urls.Trim(rawName), i))
      && (rpm.Some? ==> 1 <= rpm.value <= 10_000)
      && Reachable(Urls.Norm(rawUrl))
    case RemoveProvider(name) => exists i: nat :: NamedAt(ps, name, i)
    case SetBaseUrl(name, rawUrl) => (exists i: nat :: NamedAt(ps, name, i)) && Reachable(Urls.Norm(rawUrl))
  }

  /** What it does to the providers: a new one goes last with its one key, a removed one leaves
      the others in their order, and a re-pointed one has another base URL. */
  ghost predicate ProvidersEdited(ps: seq<Provider>, ps': seq<Provider>, a: ProviderAction) {
    match a
    case AddProvider(rawName, rawUrl, rawKey, rpm, protocol) =>
      var rate := match rpm case None => 40 case Some(rate) => rate;
      ps' == ps + [Provider(Urls.Trim(rawName), Urls.Norm(rawUrl),
                            [ProviderKey(Urls.Trim(rawKey), true, rate, "")], protocol)]
    case RemoveProvider(name) => exists i: nat :: NamedAt(ps, name, i) && Without(ps, ps', i)
    case SetBaseUrl(name, rawUrl) => exists i: nat :: NamedAt(ps, name, i) && Repointed(ps, ps', i, Urls.Norm(rawUrl))
  }

  ghost predicate Repointed(ps: seq<Provider>, ps': seq<Provider>, i: nat, url: string) {
    && DifferOnlyAt(ps, ps', i)
    && ps'[i].baseUrl == url
    && ps'[i].name == ps[i].name && ps'[i].keys == ps[i].keys && ps'[i].protocol == ps[i].protocol
  }

  /** The alias still has a target that is not on the provider. */
  ghost predicate StillLeads(a: Alias, gone: string) {
    exists k :: 0 <= k < |a.targets| && a.targets[k].provider != gone
  }

  /** Where the targets stand that are not on the provider. */
  ghost predicate Elsewhere(at: seq<nat>, targets: seq<AliasTarget>, gone: string) {
    forall k :: 0 <= k < |targets| ==> (k in at <==> targets[k].provider != gone)
  }

  ghost predicate LosesTargets(a: Alias, a': Alias, gone: string) {
    && a'.name == a.name
    && exists at: seq<nat> :: Reads(a'.targets, a.targets, at) && Elsewhere(at, a.targets, gone)
  }

  /** The aliases that still lead somewhere stay, in their order, each with the targets that are
      not on the provider, in theirs. */
  ghost predicate AliasesPruned(aliases: seq<Alias>, aliases': seq<Alias>, gone: string, at: seq<nat>) {
    && |aliases'| == |at| && Ascending(at, |aliases|)
    && (forall k :: 0 <= k < |aliases| ==> (k in at <==> StillLeads(aliases[k], gone)))
    && (forall i :: 0 <= i < |at| ==> LosesTargets(aliases[at[i]], aliases'[i], gone))
  }

  lemma {:induction false} KeptTargetsAreTheOthers(a: Alias, gone: string)
    ensures KeepTargets(a.targets, gone) != [] <==> StillLeads(a, gone)
    ensures LosesTargets(a, Alias(a.name, KeepTargets(a.targets, gone)), gone)
  {
    var at := Places(a.targets, TargetBut(gone));
    FilterReads(a.targets, TargetBut(gone));
    assert Elsewhere(at, a.targets, gone);
    if k :| 0 <= k < |a.targets| && a.targets[k].provider != gone {
      assert k in at;
    }
    if at != [] {
      assert at[0] in at;
    }
  }

  lemma {:induction false} PruningIsExact(aliases: seq<Alias>, gone: string)
    ensures exists at: seq<nat> :: AliasesPruned(aliases, PruneAliases(aliases, gone), gone, at)
  {
    if aliases == [] {
      assert AliasesPruned(aliases, PruneAliases(aliases, gone), gone, []);
    } else {
      var n := |aliases| - 1;
      PruningIsExact(aliases[..n], gone);
      var at: seq<nat> :| AliasesPruned(aliases[..n], PruneAliases(aliases[..n], gone), gone, at);
      PruneOneMore(aliases, PruneAliases(aliases[..n], gone), gone, at);
    }
  }

  lemma {:induction false} PruneOneMore(aliases: seq<Alias>, front: seq<Alias>, gone: string, at: seq<nat>)
    requires aliases != [] && front == PruneAliases(aliases[..|aliases| - 1], gone)
    requires AliasesPruned(aliases[..|aliases| - 1], front, gone, at)
    ensures exists more: seq<nat> :: AliasesPruned(aliases, PruneAliases(aliases, gone), gone, more)
  {
    var n := |aliases| - 1;
    var last := Alias(aliases[n].name, KeepTargets(aliases[n].targets, gone));
    KeptTargetsAreTheOthers(aliases[n], gone);
    if StillLeads(aliases[n], gone) {
      PrunedStill(aliases, front, gone, at, last);
      assert PruneAliases(aliases, gone) == front + [last];
    } else {
      PrunedAway(aliases, front, gone, at);
      assert PruneAliases(aliases, gone) == front + [] == front;
    }
  }

  lemma {:induction false} PrunedStill(aliases: seq<Alias>, front: seq<Alias>, gone: string, at: seq<nat>, last: Alias)
    requires aliases != [] && AliasesPruned(aliases[..|aliases| - 1], front, gone, at)
    requires StillLeads(aliases[|aliases| - 1], gone) && LosesTargets(aliases[|aliases| - 1], last, gone)
    ensures AliasesPruned(aliases, front + [last], gone, at + [|aliases| - 1])
  {
    var n := |aliases| - 1;
    assert forall k :: 0 <= k < n ==> aliases[..n][k] == aliases[k];
  }

  lemma {:induction false} PrunedAway(aliases: seq<Alias>, front: seq<Alias>, gone: string, at: seq<nat>)
    requires aliases != [] && AliasesPruned(aliases[..|aliases| - 1], front, gone, at)
    requires !StillLeads(aliases[|aliases| - 1], gone)
    ensures AliasesPruned(aliases, front, gone, at)
  {
    var n := |aliases| - 1;
    assert forall k :: 0 <= k < n ==> aliases[..n][k] == aliases[k];
  }

  /** In particular an alias with no target on the provider is not touched. */
  lemma {:induction false} UntouchedAliasStays(aliases: seq<Alias>, gone: string, i: nat)
    requires i < |aliases| && aliases[i].targets != []
    requires forall k :: 0 <= k < |aliases[i].targets| ==> aliases[i].targets[k].provider != gone
    ensures aliases[i] in PruneAliases(aliases, gone)
  {
    var n := |aliases| - 1;
    if i < n {
      UntouchedAliasStays(aliases[..n], gone, i);
    } else {
      FilterHas(aliases[n].targets, TargetBut(gone));
      FilterAllIsSame(aliases[n].targets, TargetBut(gone));
      assert KeepTargets(aliases[n].targets, gone) == aliases[n].targets;
    }
  }

  ghost predicate OnlyProvidersChange(c: Store, c': Store, a: ProviderAction) {
    && c'.users == c.users
    && ProvidersEdited(c.providers, c'.providers, a)
    && (!a.RemoveProvider? ==> c'.aliases == c.aliases)
    && (a.RemoveProvider? ==> exists at: seq<nat> :: AliasesPruned(c.aliases, c'.aliases, a.name, at))
  }

  /** A provider edit is taken exactly when it may be; the accounts stay as they are, and so do
      the aliases, except that removing a provider takes away exactly the targets on it and the
      aliases left with none. */
  lemma {:induction false} ProviderEditIsExact(c: Store, a: ProviderAction)
    requires GoodProviders(c.providers)
    ensures EditProviders(c, a).Some? <==> ProvidersAllow(c.providers, a)
    ensures EditProviders(c, a).Some? ==> OnlyProvidersChange(c, EditProviders(c, a).value, a)
  {
    match a {
      case AddProvider(name, url, _, _, _) =>
        ProviderIsNamed(c.providers, Urls.Trim(name));
        HttpIsReachable(Urls.Norm(url));
      case RemoveProvider(name) =>
        ProviderIsNamed(c.providers, name);
        RemovedProvider(c.providers, name);
        PruningIsExact(c.aliases, name);
      case SetBaseUrl(name, url) =>
        ProviderIsNamed(c.providers, name);
        HttpIsReachable(Urls.Norm(url));
        RepointedProvider(c, name, url);
    }
  }

  lemma {:induction false} ProviderIsNamed(ps: seq<Provider>, name: string)
    ensures HasProvider(ps, name) <==> exists i: nat :: NamedAt(ps, name, i)
  {
    if i :| 0 <= i < |ps| && ps[i].name == name {
      assert NamedAt(ps, name, i);
    }
  }

  lemma {:induction false} HttpIsReachable(url: string)
    ensures IsHttp(url) <==> Reachable(url)
  {
  }

  lemma {:induction false} RemovedProvider(ps: seq<Provider>, name: string)
    requires GoodProviders(ps)
    ensures HasProvider(ps, name) ==> exists i: nat :: NamedAt(ps, name, i) && Without(ps, KeepProviders(ps, name), i)
  {
    if i: nat :| NamedAt(ps, name, i) {
      FilterTakesOut(ps, ProviderBut(name), i);
      assert NamedAt(ps, name, i) && Without(ps, KeepProviders(ps, name), i);
    } else {
      ProviderIsNamed(ps, name);
    }
  }

  lemma {:induction false} RepointedProvider(c: Store, name: string, url: string)
    ensures var edited := EditProviders(c, SetBaseUrl(name, url));
            edited.Some? ==> ProvidersEdited(c.providers, edited.value.providers, SetBaseUrl(name, url))
  {
    if EditProviders(c, SetBaseUrl(name, url)).Some? {
      var i := FindProvider(c.providers, name).value;
      var ps' := EditProviders(c, SetBaseUrl(name, url)).value.providers;
      assert NamedAt(c.providers, name, i) && Repointed(c.providers, ps', i, Urls.Norm(url));
    }
  }

  // ---- Aliases ----

  ghost predicate AliasAt(aliases: seq<Alias>, name: string, i: nat) {
    i < |aliases| && aliases[i].name == name
  }

  ghost predicate IsAlias(aliases: seq<Alias>, name: string) {
    exists i: nat :: AliasAt(aliases, name, i)
  }

  /** The alias of that name is gone, if there was one, and the others are in their order. */
  ghost predicate AliasGone(aliases: seq<Alias>, left: seq<Alias>, name: string) {
    if IsAlias(aliases, name) then exists i: nat :: AliasAt(aliases, name, i) && Without(aliases, left, i)
    else left == aliases
  }

  lemma {:induction false} KeptAliasesAreTheOthers(aliases: seq<Alias>, name: string)
    requires forall i, j :: 0 <= i < j < |aliases| ==> aliases[i].name != aliases[j].name
    ensures AliasGone(aliases, KeepAliases(aliases, name), name)
    ensures |KeepAliases(aliases, name)| == |aliases| <==> !IsAlias(aliases, name)
  {
    FilterAllIsSame(aliases, AliasBut(name));
    if i: nat :| AliasAt(aliases, name, i) {
      FilterTakesOut(aliases, AliasBut(name), i);
      assert AliasAt(aliases, name, i) && Without(aliases, KeepAliases(aliases, name), i);
    } else {
      forall i: nat | i < |aliases| ensures aliases[i].name != name {
        assert !AliasAt(aliases, name, i);
      }
    }
  }

  ghost predicate AliasesAllow(c: Store, a: AliasAction) {
    match a
    case UpsertAlias(raw, targets) =>
      && Urls.Trim(raw) != [] && targets != []
      && forall k :: 0 <= k < |targets| ==> OnAProvider(c.providers, targets[k])
    case RemoveAlias(name) => IsAlias(c.aliases, name)
  }

  ghost predicate OnAProvider(ps: seq<Provider>, t: AliasTarget) {
    exists i: nat :: NamedAt(ps, t.provider, i)
  }

  ghost predicate AliasesEdited(aliases: seq<Alias>, aliases': seq<Alias>, a: AliasAction) {
    match a
    case UpsertAlias(raw, targets) =>
      && aliases' != [] && aliases'[|aliases'| - 1] == Alias(Urls.Trim(raw), targets)
      && AliasGone(aliases, aliases'[..|aliases'| - 1], Urls.Trim(raw))
    case RemoveAlias(name) => AliasGone(aliases, aliases', name)
  }

  ghost predicate OnlyAliasesChange(c: Store, c': Store, a: AliasAction) {
    c'.users == c.users && c'.providers == c.providers && AliasesEdited(c.aliases, c'.aliases, a)
  }

  /** An alias edit is taken exactly when it may be: a new definition replaces the old one of
      that name and goes last, and all other aliases, the providers and the accounts stay. */
  lemma {:induction false} AliasEditIsExact(c: Store, a: AliasAction)
    requires GoodAliases(c.aliases, c.providers)
    ensures EditAliases(c, a).Some? <==> AliasesAllow(c, a)
    ensures EditAliases(c, a).Some? ==> OnlyAliasesChange(c, EditAliases(c, a).value, a)
  {
    match a {
      case UpsertAlias(raw, targets) =>
        var name := Urls.Trim(raw);
        var left := KeepAliases(c.aliases, name);
        KeptAliasesAreTheOthers(c.aliases, name);
        assert (left + [Alias(name, targets)])[..|left|] == left;
        forall k | 0 <= k < |targets|
          ensures HasProvider(c.providers, targets[k].provider) <==> OnAProvider(c.providers, targets[k])
        {
          ProviderIsNamed(c.providers, targets[k].provider);
        }
      case RemoveAlias(name) => KeptAliasesAreTheOthers(c.aliases, name);
    }
  }

  // ---- Accounts ----

  ghost predicate UserAt(users: seq<User>, name: string, i: nat) {
    i < |users| && users[i].username == name
  }

  /** An account can be added under a name not taken, removed unless it is the superuser's, and
      given a new password; a password has at least ten characters. */
  ghost predicate UsersAllow(users: seq<User>, a: UserAction) {
    match a
    case AddUser(raw, len, _, _) =>
      Urls.Trim(raw) != [] && len >= 10 && forall i: nat :: !UserAt(users, Urls.Trim(raw), i)
    case RemoveUser(name) => exists i: nat :: UserAt(users, name, i) && users[i].role != Superuser
    case SetPassword(name, len, _) => len >= 10 && exists i: nat :: UserAt(users, name, i)
  }

  ghost predicate Rehashed(users: seq<User>, users': seq<User>, i: nat, hash: string) {
    && DifferOnlyAt(users, users', i)
    && users'[i].pwHash == hash && users'[i].username == users[i].username && users'[i].role == users[i].role
  }

  ghost predicate UsersEdited(users: seq<User>, users': seq<User>, a: UserAction) {
    match a
    case AddUser(raw, _, hash, admin) =>
      users' == users + [if admin then User(Urls.Trim(raw), hash, Admin) else User(Urls.Trim(raw), hash, Plain)]
    case RemoveUser(name) => exists i: nat :: UserAt(users, name, i) && Without(users, users', i)
    case SetPassword(name, _, hash) => exists i: nat :: UserAt(users, name, i) && Rehashed(users, users', i, hash)
  }

  ghost predicate OnlyUsersChange(c: Store, c': Store, a: UserAction) {
    c'.providers == c.providers && c'.aliases == c.aliases && UsersEdited(c.users, c'.users, a)
  }

  /** An account edit is taken exactly when it may be, and concerns that one account: nobody
      else's password, name or role changes, and neither do providers or aliases. */
  lemma {:induction false} UserEditIsExact(c: Store, a: UserAction)
    requires GoodUsers(c.users)
    ensures EditUsers(c, a).Some? <==> UsersAllow(c.users, a)
    ensures EditUsers(c, a).Some? ==> OnlyUsersChange(c, EditUsers(c, a).value, a)
  {
    var name := if a.AddUser? then Urls.Trim(a.username) else a.username;
    var found := FindUser(c.users, name);
    if found.Some? {
      assert UserAt(c.users, name, found.value);
      if a.RemoveUser? && EditUsers(c, a).Some? {
        FilterTakesOut(c.users, UserBut(name), found.value);
        assert Without(c.users, EditUsers(c, a).value.users, found.value);
      }
      if a.SetPassword? && EditUsers(c, a).Some? {
        assert Rehashed(c.users, EditUsers(c, a).value.users, found.value, a.hash);
      }
    }
  }
}
