/** What the settings edits do to the store's invariants and to the lanes built from it. */
module Lanes {
  import opened Basics
  import opened Pools
  import opened Config
  import opened Failover
  import Urls

  // ---- Which lanes there are ----

  ghost predicate ServesAt(p: Provider, keys: seq<ProviderKey>, s: LaneSpec, k: nat) {
    && k < |keys| && keys[k].enabled && keys[k].rpm > 0
    && s.provider == p.name && s.baseUrl == p.baseUrl && s.protocol == p.protocol
    && s.key == keys[k].key && s.rpm == keys[k].rpm
  }

  ghost predicate Serves(p: Provider, keys: seq<ProviderKey>, s: LaneSpec) {
    exists k: nat :: ServesAt(p, keys, s, k)
  }

  lemma {:induction false} KeySpecsHas(p: Provider, keys: seq<ProviderKey>, s: LaneSpec)
    ensures s in KeySpecs(p, keys) <==> Serves(p, keys, s)
  {
    if keys != [] {
      var n := |keys| - 1;
      KeySpecsHas(p, keys[..n], s);
      if k: nat :| ServesAt(p, keys[..n], s, k) {
        assert ServesAt(p, keys, s, k);
      }
      if k: nat :| ServesAt(p, keys, s, k) {
        assert k < n ==> ServesAt(p, keys[..n], s, k);
      }
      assert Live(keys[n]) && s == SpecFor(p, keys[n]) ==> ServesAt(p, keys, s, n);
    }
  }

  ghost predicate ServedBy(ps: seq<Provider>, s: LaneSpec, i: nat) {
    i < |ps| && Serves(ps[i], ps[i].keys, s)
  }

  /** The lanes are the live keys: one lane's spec is there exactly when some provider has a
      live key that reads so. */
  lemma {:induction false} LaneSpecsHas(ps: seq<Provider>, s: LaneSpec)
    ensures s in LaneSpecs(ps) <==> exists i: nat :: ServedBy(ps, s, i)
  {
    if ps != [] {
      var n := |ps| - 1;
      KeySpecsHas(ps[n], ps[n].keys, s);
      LaneSpecsHas(ps[..n], s);
      if i: nat :| ServedBy(ps[..n], s, i) {
        assert ServedBy(ps, s, i);
      }
      if i: nat :| ServedBy(ps, s, i) {
        assert i < n ==> ServedBy(ps[..n], s, i);
      }
      assert Serves(ps[n], ps[n].keys, s) ==> ServedBy(ps, s, n);
    }
  }

  /** Keys of providers, read provider by provider and in each key by key. */
  datatype Slot = Slot(p: nat, k: nat)
  {
    predicate Before(later: Slot) {
      p < later.p || (p == later.p && k < later.k)
    }
  }

  ghost predicate InReadingOrder(from: seq<Slot>) {
    forall i, j :: 0 <= i < j < |from| ==> from[i].Before(from[j])
  }

  /** Lane `i` is the key at slot `from[i]`, and the slots are those of the live keys. */
  ghost predicate LanesFrom(ps: seq<Provider>, lanes: seq<LaneSpec>, from: seq<Slot>) {
    && |from| == |lanes| && InReadingOrder(from)
    && (forall i :: 0 <= i < |from| ==>
          from[i].p < |ps| && ServesAt(ps[from[i].p], ps[from[i].p].keys, lanes[i], from[i].k))
    && (forall p: nat, k: nat :: p < |ps| && SwitchedOn(ps[p].keys, k) ==> Slot(p, k) in from)
  }

  predicate SwitchedOn(keys: seq<ProviderKey>, k: nat) {
    k < |keys| && keys[k].enabled && keys[k].rpm > 0
  }

  /** ONE LANE FOR EACH LIVE KEY, in the order the keys are stored. */
  lemma {:induction false} OneLanePerLiveKey(ps: seq<Provider>)
    ensures exists from :: LanesFrom(ps, LaneSpecs(ps), from)
  {
    if ps == [] {
      assert LanesFrom(ps, LaneSpecs(ps), []);
    } else {
      var n := |ps| - 1;
      OneLanePerLiveKey(ps[..n]);
      var from :| LanesFrom(ps[..n], LaneSpecs(ps[..n]), from);
      KeysInOrder(ps[n], ps[n].keys, n);
      MoreLanes(ps, LaneSpecs(ps[..n]), from, KeySpecs(ps[n], ps[n].keys), LiveAt(ps[n].keys, n), n);
      assert LanesFrom(ps, LaneSpecs(ps), from + LiveAt(ps[n].keys, n));
    }
  }

  ghost predicate KeysFrom(p: Provider, at: nat, lanes: seq<LaneSpec>, from: seq<Slot>) {
    && |from| == |lanes| && InReadingOrder(from)
    && (forall i :: 0 <= i < |from| ==> from[i].p == at && ServesAt(p, p.keys, lanes[i], from[i].k))
    && (forall k: nat :: SwitchedOn(p.keys, k) ==> Slot(at, k) in from)
  }

  lemma {:induction false} MoreLanes(ps: seq<Provider>, lanes: seq<LaneSpec>, from: seq<Slot>,
                                     more: seq<LaneSpec>, ks: seq<Slot>, n: nat)
    requires |ps| == n + 1 && LanesFrom(ps[..n], lanes, from) && KeysFrom(ps[n], n, more, ks)
    ensures LanesFrom(ps, lanes + more, from + ks)
  {
    var all := from + ks;
    assert forall p :: 0 <= p < n ==> ps[..n][p] == ps[p];
    assert InReadingOrder(all);
    forall i | 0 <= i < |all|
      ensures all[i].p < |ps| && ServesAt(ps[all[i].p], ps[all[i].p].keys, (lanes + more)[i], all[i].k)
    {
    }
    forall p: nat, k: nat | p < |ps| && SwitchedOn(ps[p].keys, k) ensures Slot(p, k) in all {
      assert p < n ==> SwitchedOn(ps[..n][p].keys, k) && Slot(p, k) in from;
    }
  }

  function LiveAt(keys: seq<ProviderKey>, p: nat): seq<Slot> {
    if keys == [] then []
    else
      var n := |keys| - 1;
      LiveAt(keys[..n], p) + if SwitchedOn(keys, n) then [Slot(p, n)] else []
  }

  lemma {:induction false} KeysInOrder(p: Provider, keys: seq<ProviderKey>, at: nat)
    ensures |LiveAt(keys, at)| == |KeySpecs(p, keys)| && InReadingOrder(LiveAt(keys, at))
    ensures forall i :: 0 <= i < |LiveAt(keys, at)| ==>
              LiveAt(keys, at)[i].p == at && ServesAt(p, keys, KeySpecs(p, keys)[i], LiveAt(keys, at)[i].k)
    ensures forall k: nat :: SwitchedOn(keys, k) ==> Slot(at, k) in LiveAt(keys, at)
  {
    if keys != [] {
      var n := |keys| - 1;
      KeysInOrder(p, keys[..n], at);
      assert forall k :: 0 <= k < n ==> keys[..n][k] == keys[k];
      assert forall k: nat :: SwitchedOn(keys, k) && k < n ==> SwitchedOn(keys[..n], k);
    }
  }

  ghost predicate AllIdle(ps: seq<Provider>) {
    forall j, k :: 0 <= j < |ps| && 0 <= k < |ps[j].keys| ==> !Live(ps[j].keys[k])
  }

  lemma {:induction false} NoLanesIff(ps: seq<Provider>)
    ensures LaneSpecs(ps) == [] <==> AllIdle(ps)
  {
    if LaneSpecs(ps) == [] {
      forall i: nat, k: nat | i < |ps| && k < |ps[i].keys| ensures !Live(ps[i].keys[k]) {
        var key := ps[i].keys[k];
        var s := SpecFor(ps[i], key);
        LaneSpecsHas(ps, s);
        if Live(key) {
          assert ServesAt(ps[i], ps[i].keys, s, k);
          assert ServedBy(ps, s, i);
        }
      }
    } else {
      var s := LaneSpecs(ps)[0];
      LaneSpecsHas(ps, s);
      var i: nat :| ServedBy(ps, s, i);
    }
  }

  // ---- Lane identity ----

  lemma {:induction false} KeyIdsAreUnique(p: Provider, keys: seq<ProviderKey>)
    requires GoodKeys(keys)
    ensures UniqueIds(KeySpecs(p, keys))
  {
    if keys != [] {
      var n := |keys| - 1;
      var front := KeySpecs(p, keys[..n]);
      KeyIdsAreUnique(p, keys[..n]);
      forall j | 0 <= j < |front| ensures front[j].key != keys[n].key {
        KeySpecsHas(p, keys[..n], front[j]);
        var k: nat :| ServesAt(p, keys[..n], front[j], k);
      }
    }
  }

  lemma {:induction false} SpecsOf(p: Provider, j: nat)
    requires j < |KeySpecs(p, p.keys)|
    ensures KeySpecs(p, p.keys)[j].provider == p.name
  {
    KeySpecsHas(p, p.keys, KeySpecs(p, p.keys)[j]);
  }

  /** No two lanes built from a good store share an identity, so a rebuild's search for a
      predecessor has at most one answer. */
  lemma {:induction false} IdsAreUnique(ps: seq<Provider>)
    requires GoodProviders(ps)
    ensures UniqueIds(LaneSpecs(ps))
  {
    if ps != [] {
      var n := |ps| - 1;
      var front, mine := LaneSpecs(ps[..n]), KeySpecs(ps[n], ps[n].keys);
      KeyIdsAreUnique(ps[n], ps[n].keys);
      IdsAreUnique(ps[..n]);
      forall i, j | 0 <= i < |front| && 0 <= j < |mine| ensures front[i].Id() != mine[j].Id() {
        SpecsOf(ps[n], j);
        LaneSpecsHas(ps[..n], front[i]);
        var k: nat :| ServedBy(ps[..n], front[i], k);
        assert ps[..n][k] == ps[k];
      }
    }
  }

  /** What a rebuild is given: distinct identities, each with a base URL in normal form. */
  ghost predicate GoodSpecs(specs: seq<LaneSpec>) {
    UniqueIds(specs) && forall i :: 0 <= i < |specs| ==> Urls.Normal(specs[i].baseUrl) && 1 <= specs[i].rpm <= 10_000
  }

  lemma {:induction false} GoodProvidersMakeGoodSpecs(ps: seq<Provider>)
    requires GoodProviders(ps)
    ensures GoodSpecs(LaneSpecs(ps))
  {
    var specs := LaneSpecs(ps);
    IdsAreUnique(ps);
    forall i | 0 <= i < |specs| ensures Urls.Normal(specs[i].baseUrl) && 1 <= specs[i].rpm <= 10_000 {
      LaneSpecsHas(ps, specs[i]);
      var j: nat :| ServedBy(ps, specs[i], j);
      assert GoodKeys(ps[j].keys);
    }
  }

  // ---- The superuser ----

  /** The name of the first superuser account. */
  function SuperName(users: seq<User>): Option<string> {
    if users == [] then None
    else
      var n := |users| - 1;
      match SuperName(users[..n])
      case Some(name) => Some(name)
      case None => if users[n].role == Superuser then Some(users[n].username) else None
  }

  lemma {:induction false} SuperNameIff(users: seq<User>)
    ensures SuperName(users).Some? <==> HasSuperuser(users)
  {
    if users != [] {
      var n := |users| - 1;
      SuperNameIff(users[..n]);
      if i :| 0 <= i < n && users[..n][i].role == Superuser {
        assert users[i].role == Superuser;
      }
      if i :| 0 <= i < |users| && users[i].role == Superuser {
        assert i < n ==> users[..n][i].role == Superuser;
      }
    }
  }

  // ---- Edits keep a good store good ----

  lemma {:induction false} KeyEditIsGood(c: Store, a: KeyAction)
    requires Good(c) && EditKeys(c, a).Some?
    ensures Good(EditKeys(c, a).value) && EditKeys(c, a).value.users == c.users
  {
    var i := FindProvider(c.providers, a.provider).value;
    var keys, ps := EditedKeys(c.providers[i].keys, a).value, EditKeys(c, a).value.providers;
    assert GoodKeys(c.providers[i].keys);
    EditedKeysAreGood(c.providers[i].keys, a);
    NewKeysAreGood(c.providers, i, keys);
    AliasesSurvive(c.aliases, c.providers, ps);
    assert c != EmptyStore();
  }

  lemma {:induction false} NewKeysAreGood(ps: seq<Provider>, i: nat, keys: seq<ProviderKey>)
    requires GoodProviders(ps) && i < |ps| && GoodKeys(keys)
    ensures var ps' := ps[i := ps[i].(keys := keys)];
            GoodProviders(ps') && forall j :: 0 <= j < |ps| ==> ps'[j].name == ps[j].name
  {
    var ps' := ps[i := ps[i].(keys := keys)];
    assert forall j :: 0 <= j < |ps| ==> ps'[j].name == ps[j].name && ps'[j].baseUrl == ps[j].baseUrl;
    assert forall j :: 0 <= j < |ps| ==> ps'[j].keys == if j == i then keys else ps[j].keys;
  }

  lemma {:induction false} EditedKeysAreGood(keys: seq<ProviderKey>, a: KeyAction)
    requires GoodKeys(keys) && EditedKeys(keys, a).Some?
    ensures GoodKeys(EditedKeys(keys, a).value)
  {
    match a
    case AddKey(_, raw, rpm) => MoreKeysAreGood(keys, ProviderKey(Urls.Trim(raw), true, Or(rpm, 40), ""));
    case RemoveKey(_, x) => FewerKeysAreGood(keys, x);
    case UpdateKey(_, x, enabled, rpm) =>
      ChangedKeysAreGood(keys, x, keys[x].(rpm := Or(rpm, keys[x].rpm), enabled := Or(enabled, keys[x].enabled)));
  }

  lemma {:induction false} MoreKeysAreGood(keys: seq<ProviderKey>, k: ProviderKey)
    requires GoodKeys(keys) && !HasKey(keys, k.key) && CheckRpm(k.rpm)
    ensures GoodKeys(keys + [k])
  {
  }

  lemma {:induction false} FewerKeysAreGood(keys: seq<ProviderKey>, x: nat)
    requires GoodKeys(keys) && x < |keys|
    ensures GoodKeys(keys[..x] + keys[x + 1..])
  {
    var keys' := keys[..x] + keys[x + 1..];
    assert forall j :: 0 <= j < |keys'| ==> keys'[j] == if j < x then keys[j] else keys[j + 1];
  }

  lemma {:induction false} ChangedKeysAreGood(keys: seq<ProviderKey>, x: nat, k: ProviderKey)
    requires GoodKeys(keys) && x < |keys| && k.key == keys[x].key && CheckRpm(k.rpm)
    ensures GoodKeys(keys[x := k])
  {
    assert forall j :: 0 <= j < |keys| ==> keys[x := k][j].key == keys[j].key;
  }

  lemma {:induction false} AliasesSurvive(aliases: seq<Alias>, ps: seq<Provider>, ps': seq<Provider>)
    requires GoodAliases(aliases, ps)
    requires |ps| <= |ps'| && forall j :: 0 <= j < |ps| ==> ps'[j].name == ps[j].name
    ensures GoodAliases(aliases, ps')
  {
    forall i | 0 <= i < |aliases| ensures GoodAlias(aliases[i], ps') {
      assert GoodAlias(aliases[i], ps);
      forall k | 0 <= k < |aliases[i].targets| ensures HasProvider(ps', aliases[i].targets[k].provider) {
        var j :| 0 <= j < |ps| && ps[j].name == aliases[i].targets[k].provider;
        assert ps'[j].name == aliases[i].targets[k].provider;
      }
    }
  }

  /** Removing a provider by name keeps every other one. */
  lemma {:induction false} KeptProvidersAreGood(ps: seq<Provider>, gone: string)
    requires GoodProviders(ps)
    ensures GoodProviders(KeepProviders(ps, gone))
  {
    var left := KeepProviders(ps, gone);
    var apart := (p: Provider, q: Provider) => p.name != q.name;
    assert Pairwise(ps, apart);
    FilterKeepsPairs(ps, ProviderBut(gone), apart);
    FilterHas(ps, ProviderBut(gone));
    forall i | 0 <= i < |left| ensures GoodKeys(left[i].keys) && Urls.Normal(left[i].baseUrl) {
      assert left[i] in left;
    }
  }

  lemma {:induction false} KeptTargets(a: Alias, gone: string, ps: seq<Provider>)
    requires GoodAlias(a, ps) && KeepTargets(a.targets, gone) != []
    ensures GoodAlias(Alias(a.name, KeepTargets(a.targets, gone)), KeepProviders(ps, gone))
  {
    var ts := KeepTargets(a.targets, gone);
    FilterHas(a.targets, TargetBut(gone));
    FilterHas(ps, ProviderBut(gone));
    forall k | 0 <= k < |ts| ensures HasProvider(KeepProviders(ps, gone), ts[k].provider) {
      assert ts[k] in ts;
      var j :| 0 <= j < |a.targets| && a.targets[j] == ts[k];
      assert HasProvider(ps, a.targets[j].provider);
      var i :| 0 <= i < |ps| && ps[i].name == ts[k].provider;
      assert ps[i] in KeepProviders(ps, gone);
    }
  }

  lemma {:induction false} PrunedNames(aliases: seq<Alias>, gone: string, a: Alias)
    requires a in PruneAliases(aliases, gone)
    ensures exists i :: 0 <= i < |aliases| && aliases[i].name == a.name
  {
    var n := |aliases| - 1;
    if a in PruneAliases(aliases[..n], gone) {
      PrunedNames(aliases[..n], gone, a);
      var i :| 0 <= i < n && aliases[..n][i].name == a.name;
      assert aliases[i].name == a.name;
    } else {
      assert aliases[n].name == a.name;
    }
  }

  /** Removing a provider leaves no alias pointing at it, and none without a target. */
  lemma {:induction false} PrunedAliasesAreGood(aliases: seq<Alias>, ps: seq<Provider>, gone: string)
    requires GoodAliases(aliases, ps)
    ensures GoodAliases(PruneAliases(aliases, gone), KeepProviders(ps, gone))
  {
    if aliases != [] {
      var n := |aliases| - 1;
      var front := PruneAliases(aliases[..n], gone);
      PrunedAliasesAreGood(aliases[..n], ps, gone);
      assert GoodAlias(aliases[n], ps);
      if KeepTargets(aliases[n].targets, gone) != [] {
        KeptTargets(aliases[n], gone, ps);
      }
      forall j | 0 <= j < |front| ensures front[j].name != aliases[n].name {
        PrunedNames(aliases[..n], gone, front[j]);
        var k :| 0 <= k < n && aliases[..n][k].name == front[j].name;
      }
    }
  }

  lemma {:induction false} ProviderEditIsGood(c: Store, a: ProviderAction)
    requires Good(c) && HasSuperuser(c.users) && EditProviders(c, a).Some?
    ensures Good(EditProviders(c, a).value) && EditProviders(c, a).value.users == c.users
  {
    var c' := EditProviders(c, a).value;
    match a {
      case AddProvider(name, url, key, rpm, protocol) =>
        Urls.NormIsNormal(url);
        assert forall j :: 0 <= j < |c.providers| ==> c'.providers[j] == c.providers[j];
        AliasesSurvive(c.aliases, c.providers, c'.providers);
      case RemoveProvider(name) =>
        KeptProvidersAreGood(c.providers, name);
        PrunedAliasesAreGood(c.aliases, c.providers, name);
      case SetBaseUrl(name, url) => RepointingIsGood(c, name, url);
    }
  }

  lemma {:induction false} RepointingIsGood(c: Store, name: string, url: string)
    requires Good(c) && HasSuperuser(c.users) && EditProviders(c, SetBaseUrl(name, url)).Some?
    ensures Good(EditProviders(c, SetBaseUrl(name, url)).value)
  {
    var ps, ps' := c.providers, EditProviders(c, SetBaseUrl(name, url)).value.providers;
    Urls.NormIsNormal(url);
    assert forall j :: 0 <= j < |ps| ==> ps'[j].name == ps[j].name && ps'[j].keys == ps[j].keys;
    AliasesSurvive(c.aliases, ps, ps');
  }

  lemma {:induction false} KeptAliases(aliases: seq<Alias>, gone: string, ps: seq<Provider>)
    requires GoodAliases(aliases, ps)
    ensures GoodAliases(KeepAliases(aliases, gone), ps)
    ensures forall a :: a in KeepAliases(aliases, gone) ==> a.name != gone
  {
    var left := KeepAliases(aliases, gone);
    var apart := (a: Alias, b: Alias) => a.name != b.name;
    assert Pairwise(aliases, apart);
    FilterKeepsPairs(aliases, AliasBut(gone), apart);
    FilterHas(aliases, AliasBut(gone));
    forall i | 0 <= i < |left| ensures GoodAlias(left[i], ps) {
      assert left[i] in left;
      var k :| 0 <= k < |aliases| && aliases[k] == left[i];
    }
  }

  lemma {:induction false} AliasEditIsGood(c: Store, a: AliasAction)
    requires Good(c) && HasSuperuser(c.users) && EditAliases(c, a).Some?
    ensures Good(EditAliases(c, a).value) && EditAliases(c, a).value.users == c.users
  {
    KeptAliases(c.aliases, if a.UpsertAlias? then Urls.Trim(a.name) else a.name, c.providers);
  }

  lemma {:induction false} KeptUsers(users: seq<User>, gone: string)
    requires GoodUsers(users)
    ensures GoodUsers(KeepUsers(users, gone))
  {
    var apart := (a: User, b: User) => a.username != b.username && !(a.role == Superuser && b.role == Superuser);
    assert Pairwise(users, apart);
    FilterKeepsPairs(users, UserBut(gone), apart);
  }

  lemma {:induction false} KeptSuperuser(users: seq<User>, gone: string)
    requires forall i :: 0 <= i < |users| && users[i].username == gone ==> users[i].role != Superuser
    ensures SuperName(KeepUsers(users, gone)) == SuperName(users)
  {
    if users != [] {
      var n := |users| - 1;
      var front := KeepUsers(users[..n], gone);
      KeptSuperuser(users[..n], gone);
      SuperNameOneMore(front, users[n]);
      assert front + [] == front;
    }
  }

  lemma {:induction false} SuperNameOneMore(users: seq<User>, u: User)
    ensures SuperName(users + [u]) == if SuperName(users).Some? then SuperName(users)
                                      else if u.role == Superuser then Some(u.username) else None
  {
    assert (users + [u])[..|users|] == users;
  }

  lemma {:induction false} NewHash(users: seq<User>, i: nat, hash: string)
    requires i < |users|
    ensures SuperName(users[i := users[i].(pwHash := hash)]) == SuperName(users)
  {
    var n, users' := |users| - 1, users[i := users[i].(pwHash := hash)];
    if i < n {
      NewHash(users[..n], i, hash);
      assert users'[..n] == users[..n][i := users[..n][i].(pwHash := hash)];
    } else {
      assert users'[..n] == users[..n];
    }
  }

  lemma {:induction false} UserEditIsGood(c: Store, a: UserAction)
    requires Good(c) && HasSuperuser(c.users) && EditUsers(c, a).Some?
    ensures Good(EditUsers(c, a).value) && SuperName(EditUsers(c, a).value.users) == SuperName(c.users)
  {
    var users := EditUsers(c, a).value.users;
    match a {
      case AddUser(name, len, hash, admin) =>
        SuperNameOneMore(c.users, users[|c.users|]);
      case RemoveUser(name) =>
        var i := FindUser(c.users, name).value;
        assert forall j :: 0 <= j < |c.users| && c.users[j].username == name ==> j == i;
        KeptUsers(c.users, name);
        KeptSuperuser(c.users, name);
      case SetPassword(name, len, hash) =>
        var i := FindUser(c.users, name).value;
        NewHash(c.users, i, hash);
        assert forall j :: 0 <= j < |users| ==>
            users[j].username == c.users[j].username && users[j].role == c.users[j].role;
    }
    SuperNameIff(c.users);
    SuperNameIff(users);
  }

  // ---- Edits and the live lanes ----

  /** Whether no lane but this one is live. */
  ghost predicate OnlyLane(ps: seq<Provider>, id: LaneId) {
    forall s :: s in LaneSpecs(ps) ==> s.Id() == id
  }

  ghost predicate OnlyProvider(ps: seq<Provider>, name: string) {
    forall s :: s in LaneSpecs(ps) ==> s.provider == name
  }

  ghost predicate OthersIdle(ps: seq<Provider>, i: nat, x: nat) {
    forall j, k :: 0 <= j < |ps| && 0 <= k < |ps[j].keys| && !(j == i && k == x) ==> !Live(ps[j].keys[k])
  }

  lemma {:induction false} OnlyLaneIff(ps: seq<Provider>, i: nat, x: nat)
    requires GoodProviders(ps) && i < |ps| && x < |ps[i].keys|
    ensures OnlyLane(ps, LaneId(ps[i].name, ps[i].keys[x].key)) <==> OthersIdle(ps, i, x)
  {
    var id := LaneId(ps[i].name, ps[i].keys[x].key);
    if OnlyLane(ps, id) {
      forall j: nat, k: nat | j < |ps| && k < |ps[j].keys| && !(j == i && k == x) ensures !Live(ps[j].keys[k]) {
        var key := ps[j].keys[k];
        var s := SpecFor(ps[j], key);
        LaneSpecsHas(ps, s);
        assert GoodKeys(ps[j].keys);
        if Live(key) {
          assert ServesAt(ps[j], ps[j].keys, s, k);
          assert ServedBy(ps, s, j);
        }
      }
    }
    if OthersIdle(ps, i, x) {
      forall s | s in LaneSpecs(ps) ensures s.Id() == id {
        LaneSpecsHas(ps, s);
        var j: nat :| ServedBy(ps, s, j);
        var k: nat :| ServesAt(ps[j], ps[j].keys, s, k);
      }
    }
  }

  /** A key edit leaves no lane exactly when it drops or switches off the only live one, or
      switches off an idle one while none is live. */
  lemma {:induction false} KeysLeaveNoLaneIff(ps: seq<Provider>, i: nat, a: KeyAction)
    requires GoodProviders(ps) && i < |ps| && EditedKeys(ps[i].keys, a).Some?
    ensures var ps' := ps[i := ps[i].(keys := EditedKeys(ps[i].keys, a).value)];
            LaneSpecs(ps') == [] <==> match a
                                      case AddKey(_, _, _) => false
                                      case RemoveKey(_, x) => OnlyLane(ps, LaneId(ps[i].name, ps[i].keys[x].key))
                                      case UpdateKey(_, x, enabled, _) =>
                                        && !Or(enabled, ps[i].keys[x].enabled)
                                        && OnlyLane(ps, LaneId(ps[i].name, ps[i].keys[x].key))
  {
    match a {
      case AddKey(_, _, _) => AddedKey(ps, i, a);
      case RemoveKey(_, x) =>
        OnlyLaneIff(ps, i, x);
        RemovedKey(ps, i, x);
        NoLanesIff(ps[i := ps[i].(keys := ps[i].keys[..x] + ps[i].keys[x + 1..])]);
      case UpdateKey(_, x, _, _) =>
        assert GoodKeys(ps[i].keys);
        OnlyLaneIff(ps, i, x);
        UpdatedKey(ps, i, a);
        NoLanesIff(ps[i := ps[i].(keys := EditedKeys(ps[i].keys, a).value)]);
    }
  }

  lemma {:induction false} AddedKey(ps: seq<Provider>, i: nat, a: KeyAction)
    requires i < |ps| && a.AddKey? && EditedKeys(ps[i].keys, a).Some?
    ensures LaneSpecs(ps[i := ps[i].(keys := EditedKeys(ps[i].keys, a).value)]) != []
  {
    var ps' := ps[i := ps[i].(keys := EditedKeys(ps[i].keys, a).value)];
    NoLanesIff(ps');
    assert Live(ps'[i].keys[|ps[i].keys|]);
  }

  lemma {:induction false} RemovedKey(ps: seq<Provider>, i: nat, x: nat)
    requires i < |ps| && x < |ps[i].keys|
    ensures AllIdle(ps[i := ps[i].(keys := ps[i].keys[..x] + ps[i].keys[x + 1..])]) <==> OthersIdle(ps, i, x)
  {
    var keys := ps[i].keys;
    var keys' := keys[..x] + keys[x + 1..];
    var ps' := ps[i := ps[i].(keys := keys')];
    if AllIdle(ps') {
      forall j, k | 0 <= j < |ps| && 0 <= k < |ps[j].keys| && !(j == i && k == x) ensures !Live(ps[j].keys[k]) {
        var k' := if j == i && k > x then k - 1 else k;
        assert ps'[j].keys[k'] == ps[j].keys[k];
      }
    }
    if OthersIdle(ps, i, x) {
      forall j, k | 0 <= j < |ps'| && 0 <= k < |ps'[j].keys| ensures !Live(ps'[j].keys[k]) {
        var k' := if j == i && k >= x then k + 1 else k;
        assert ps'[j].keys[k] == ps[j].keys[k'];
      }
    }
  }

  lemma {:induction false} UpdatedKey(ps: seq<Provider>, i: nat, a: KeyAction)
    requires i < |ps| && a.UpdateKey? && EditedKeys(ps[i].keys, a).Some? && GoodKeys(ps[i].keys)
    ensures var ps' := ps[i := ps[i].(keys := EditedKeys(ps[i].keys, a).value)];
            AllIdle(ps') <==> OthersIdle(ps, i, a.index) && !Or(a.enabled, ps[i].keys[a.index].enabled)
  {
    var keys, x := ps[i].keys, a.index;
    var ps' := ps[i := ps[i].(keys := EditedKeys(keys, a).value)];
    assert forall j :: 0 <= j < |ps| ==> |ps'[j].keys| == |ps[j].keys|;
    assert forall j, k :: 0 <= j < |ps| && 0 <= k < |ps[j].keys| && !(j == i && k == x) ==>
        ps'[j].keys[k] == ps[j].keys[k];
    assert Live(ps'[i].keys[x]) <==> Or(a.enabled, keys[x].enabled);
  }

  lemma {:induction false} KeysChange(ps: seq<Provider>, i: nat, a: KeyAction)
    requires i < |ps| && EditedKeys(ps[i].keys, a).Some?
    ensures ps[i := ps[i].(keys := EditedKeys(ps[i].keys, a).value)] != ps <==>
              (a.UpdateKey? ==>
                 var k := ps[i].keys[a.index];
                 Or(a.enabled, k.enabled) != k.enabled || Or(a.rpm, k.rpm) != k.rpm)
  {
    var keys := ps[i].keys;
    var keys' := EditedKeys(keys, a).value;
    var ps' := ps[i := ps[i].(keys := keys')];
    assert ps'[i].keys == keys';
    if a.UpdateKey? {
      var k, k' := keys[a.index], keys'[a.index];
      if k' == k {
        assert keys' == keys;
        assert ps' == ps;
      }
    }
  }

  /** Removing a provider takes its lanes and no others. */
  lemma {:induction false} RemovalTakesItsLanes(ps: seq<Provider>, gone: string, s: LaneSpec)
    ensures s in LaneSpecs(KeepProviders(ps, gone)) <==> s in LaneSpecs(ps) && s.provider != gone
  {
    if ps != [] {
      var n := |ps| - 1;
      var front := KeepProviders(ps[..n], gone);
      RemovalTakesItsLanes(ps[..n], gone, s);
      KeySpecsHas(ps[n], ps[n].keys, s);
      LanesOneMore(front, ps[n]);
      assert front + [] == front;
    }
  }

  lemma {:induction false} LanesOneMore(ps: seq<Provider>, p: Provider)
    ensures LaneSpecs(ps + [p]) == LaneSpecs(ps) + KeySpecs(p, p.keys)
  {
    assert (ps + [p])[..|ps|] == ps;
  }

  /** Adding a provider adds one lane, for its trimmed name and key at its normalised URL. */
  lemma {:induction false} AdditionAddsOneLane(c: Store, a: ProviderAction, s: LaneSpec)
    requires a.AddProvider? && EditProviders(c, a).Some?
    ensures s in LaneSpecs(EditProviders(c, a).value.providers) <==>
              s in LaneSpecs(c.providers)
              || s == LaneSpec(Urls.Trim(a.name), Urls.Norm(a.baseUrl), Urls.Trim(a.key), Or(a.rpm, 40), a.protocol)
  {
    var ps, ps' := c.providers, EditProviders(c, a).value.providers;
    var p := ps'[|ps|];
    LanesOneMore(ps, p);
    assert KeySpecs(p, p.keys[..0]) == [] by { assert p.keys[..0] == []; }
    assert KeySpecs(p, p.keys) == [SpecFor(p, p.keys[0])];
  }

  /** Re-pointing a provider moves its lanes to the new URL and changes nothing else. */
  lemma {:induction false} RepointingMovesItsLanes(c: Store, name: string, url: string, s: LaneSpec)
    requires GoodProviders(c.providers) && EditProviders(c, SetBaseUrl(name, url)).Some?
    ensures var was := c.providers[FindProvider(c.providers, name).value].baseUrl;
            s in LaneSpecs(EditProviders(c, SetBaseUrl(name, url)).value.providers) <==>
              if s.provider == name then s.baseUrl == Urls.Norm(url) && s.(baseUrl := was) in LaneSpecs(c.providers)
              else s in LaneSpecs(c.providers)
  {
    var i := FindProvider(c.providers, name).value;
    var ps, ps' := c.providers, EditProviders(c, SetBaseUrl(name, url)).value.providers;
    if s.provider == name {
      var s0 := s.(baseUrl := ps[i].baseUrl);
      assert forall j :: 0 <= j < |ps| ==> ps'[j].name == ps[j].name;
      ServedByOne(ps, i, s0);
      ServedByOne(ps', i, s);
      SameKeysServe(ps[i], ps'[i], s0, s);
    } else {
      SameElsewhere(ps, ps', i, s);
    }
  }

  lemma {:induction false} SameKeysServe(p: Provider, p': Provider, s: LaneSpec, s': LaneSpec)
    requires p' == p.(baseUrl := p'.baseUrl) && s == s'.(baseUrl := p.baseUrl)
    ensures Serves(p', p'.keys, s') <==> s'.baseUrl == p'.baseUrl && Serves(p, p.keys, s)
  {
    if k: nat :| ServesAt(p', p'.keys, s', k) {
      assert ServesAt(p, p.keys, s, k);
    }
    if k: nat :| ServesAt(p, p.keys, s, k) && s'.baseUrl == p'.baseUrl {
      assert ServesAt(p', p'.keys, s', k);
    }
  }

  lemma {:induction false} KeptLanes(ps: seq<Provider>, gone: string)
    ensures LaneSpecs(KeepProviders(ps, gone)) == [] <==> OnlyProvider(ps, gone)
  {
    var left := LaneSpecs(KeepProviders(ps, gone));
    if left != [] {
      RemovalTakesItsLanes(ps, gone, left[0]);
    }
    forall s | s in LaneSpecs(ps) ensures s.provider != gone ==> s in left {
      RemovalTakesItsLanes(ps, gone, s);
    }
  }

  /** The key an edit is about. */
  function EditedKey(p: Provider, a: KeyAction): string
    requires EditedKeys(p.keys, a).Some?
  {
    if a.AddKey? then Urls.Trim(a.key) else p.keys[a.index].key
  }

  /** The lane that key has afterwards, if any. */
  function NewLane(p: Provider, a: KeyAction): Option<LaneSpec>
    requires EditedKeys(p.keys, a).Some?
  {
    var key := EditedKey(p, a);
    match a
    case AddKey(_, _, rpm) => Some(LaneSpec(p.name, p.baseUrl, key, Or(rpm, 40), p.protocol))
    case RemoveKey(_, _) => None
    case UpdateKey(_, x, enabled, rpm) =>
      if Or(enabled, p.keys[x].enabled)
      then Some(LaneSpec(p.name, p.baseUrl, key, Or(rpm, p.keys[x].rpm), p.protocol))
      else None
  }

  lemma {:induction false} EditedKeysServe(p: Provider, a: KeyAction, s: LaneSpec)
    requires GoodKeys(p.keys) && EditedKeys(p.keys, a).Some?
    ensures ServesExactly(p, a, s)
  {
    match a {
      case AddKey(_, _, _) => AddedKeyServes(p, a, s);
      case RemoveKey(_, _) => RemovedKeyServes(p, a, s);
      case UpdateKey(_, _, _, _) => UpdatedKeyServes(p, a, s);
    }
  }

  ghost predicate ServesExactly(p: Provider, a: KeyAction, s: LaneSpec)
    requires EditedKeys(p.keys, a).Some?
  {
    Serves(p, EditedKeys(p.keys, a).value, s) <==>
        (Serves(p, p.keys, s) && s.key != EditedKey(p, a)) || NewLane(p, a) == Some(s)
  }

  lemma {:induction false} AddedKeyServes(p: Provider, a: KeyAction, s: LaneSpec)
    requires GoodKeys(p.keys) && EditedKeys(p.keys, a).Some? && a.AddKey?
    ensures ServesExactly(p, a, s)
  {
    var keys, keys' := p.keys, EditedKeys(p.keys, a).value;
    if k: nat :| ServesAt(p, keys', s, k) {
      assert k < |keys| ==> ServesAt(p, keys, s, k);
    }
    if k: nat :| ServesAt(p, keys, s, k) {
      assert ServesAt(p, keys', s, k);
    }
    assert NewLane(p, a) == Some(s) ==> ServesAt(p, keys', s, |keys|);
  }

  lemma {:induction false} RemovedKeyServes(p: Provider, a: KeyAction, s: LaneSpec)
    requires GoodKeys(p.keys) && EditedKeys(p.keys, a).Some? && a.RemoveKey?
    ensures ServesExactly(p, a, s)
  {
    var keys, keys', x := p.keys, EditedKeys(p.keys, a).value, a.index;
    if k: nat :| ServesAt(p, keys', s, k) {
      assert ServesAt(p, keys, s, if k < x then k else k + 1);
    }
    if k: nat :| ServesAt(p, keys, s, k) && k != x {
      assert ServesAt(p, keys', s, if k < x then k else k - 1);
    }
  }

  lemma {:induction false} UpdatedKeyServes(p: Provider, a: KeyAction, s: LaneSpec)
    requires GoodKeys(p.keys) && EditedKeys(p.keys, a).Some? && a.UpdateKey?
    ensures ServesExactly(p, a, s)
  {
    var keys, keys', x := p.keys, EditedKeys(p.keys, a).value, a.index;
    if k: nat :| ServesAt(p, keys', s, k) {
      assert k != x ==> ServesAt(p, keys, s, k);
    }
    if k: nat :| ServesAt(p, keys, s, k) && k != x {
      assert ServesAt(p, keys', s, k);
    }
    if NewLane(p, a) == Some(s) {
      assert ServesAt(p, keys', s, x);
    }
  }

  /** EXACTLY ONE LANE. A key edit takes away the lane of the key it is about, puts back that
      key's new lane if it is to have one, and leaves every other lane's spec as it was: so a
      rebuild carries every other key's spent budget. */
  lemma {:induction false} KeyEditLanesExactly(c: Store, a: KeyAction, s: LaneSpec)
    requires GoodProviders(c.providers) && EditKeys(c, a).Some?
    ensures var p := c.providers[FindProvider(c.providers, a.provider).value];
            s in LaneSpecs(EditKeys(c, a).value.providers) <==>
              (s in LaneSpecs(c.providers) && s.Id() != LaneId(a.provider, EditedKey(p, a))) || NewLane(p, a) == Some(s)
  {
    var i := FindProvider(c.providers, a.provider).value;
    var ps, ps' := c.providers, EditKeys(c, a).value.providers;
    if s.provider == a.provider {
      assert GoodKeys(ps[i].keys);
      EditedKeysServe(ps[i], a, s);
      ServedByOne(ps, i, s);
      assert forall j :: 0 <= j < |ps| ==> ps'[j].name == ps[j].name;
      ServedByOne(ps', i, s);
      SameServes(ps[i], ps'[i], ps'[i].keys, s);
    } else {
      ServedByOthers(ps, ps'[i].keys, i, s);
    }
  }

  lemma {:induction false} SameServes(p: Provider, p': Provider, keys: seq<ProviderKey>, s: LaneSpec)
    requires p' == p.(keys := keys)
    ensures Serves(p', keys, s) <==> Serves(p, keys, s)
  {
    if k: nat :| ServesAt(p, keys, s, k) {
      assert ServesAt(p', keys, s, k);
    }
    if k: nat :| ServesAt(p', keys, s, k) {
      assert ServesAt(p, keys, s, k);
    }
  }

  lemma {:induction false} ServedByOthers(ps: seq<Provider>, keys: seq<ProviderKey>, i: nat, s: LaneSpec)
    requires i < |ps| && s.provider != ps[i].name
    ensures s in LaneSpecs(ps[i := ps[i].(keys := keys)]) <==> s in LaneSpecs(ps)
  {
    SameElsewhere(ps, ps[i := ps[i].(keys := keys)], i, s);
  }

  /** A provider's lanes come from that provider alone. */
  lemma {:induction false} ServedByOne(ps: seq<Provider>, i: nat, s: LaneSpec)
    requires i < |ps| && forall j, k :: 0 <= j < k < |ps| ==> ps[j].name != ps[k].name
    ensures s.provider == ps[i].name ==> (s in LaneSpecs(ps) <==> Serves(ps[i], ps[i].keys, s))
    ensures s.provider != ps[i].name ==> !Serves(ps[i], ps[i].keys, s)
  {
    LaneSpecsHas(ps, s);
    if j: nat :| ServedBy(ps, s, j) {
      assert s.provider == ps[j].name;
    }
    assert Serves(ps[i], ps[i].keys, s) ==> ServedBy(ps, s, i);
  }

  /** Changing one provider leaves the lanes of the others. */
  lemma {:induction false} SameElsewhere(ps: seq<Provider>, ps': seq<Provider>, i: nat, s: LaneSpec)
    requires |ps'| == |ps| && i < |ps| && forall j :: 0 <= j < |ps| && j != i ==> ps'[j] == ps[j]
    requires !Serves(ps[i], ps[i].keys, s) && !Serves(ps'[i], ps'[i].keys, s)
    ensures s in LaneSpecs(ps') <==> s in LaneSpecs(ps)
  {
    LaneSpecsHas(ps, s);
    LaneSpecsHas(ps', s);
    if j: nat :| ServedBy(ps, s, j) {
      assert ServedBy(ps', s, j);
    }
    if j: nat :| ServedBy(ps', s, j) {
      assert ServedBy(ps, s, j);
    }
  }
}
