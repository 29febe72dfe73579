/** The stored configuration, and the edits the settings handlers make to it. */
module Config {
  import opened Basics
  import opened Pools
  import opened Failover
  import Urls

  datatype Role = Superuser | Admin | Plain

  datatype User = User(username: string, pwHash: string, role: Role)

  datatype ProviderKey = ProviderKey(key: string, enabled: bool, rpm: nat, owner: string)

  datatype Provider = Provider(name: string, baseUrl: string, keys: seq<ProviderKey>, protocol: Protocol)

  datatype Store = Store(users: seq<User>, providers: seq<Provider>, aliases: seq<Alias>)

  function EmptyStore(): Store {
    Store([], [], [])
  }

  // ---- Lanes ----

  predicate Live(k: ProviderKey) {
    k.enabled && k.rpm > 0
  }

  function SpecFor(p: Provider, k: ProviderKey): LaneSpec {
    LaneSpec(p.name, p.baseUrl, k.key, k.rpm, p.protocol)
  }

  function KeySpecs(p: Provider, keys: seq<ProviderKey>): seq<LaneSpec> {
    if keys == [] then []
    else
      var n := |keys| - 1;
      KeySpecs(p, keys[..n]) + if Live(keys[n]) then [SpecFor(p, keys[n])] else []
  }

  /** Every enabled key with a rate, across all providers. */
  function LaneSpecs(providers: seq<Provider>): seq<LaneSpec> {
    if providers == [] then []
    else
      var n := |providers| - 1;
      LaneSpecs(providers[..n]) + KeySpecs(providers[n], providers[n].keys)
  }

  // ---- What every reachable store satisfies ----

  ghost predicate GoodKeys(keys: seq<ProviderKey>) {
    && (forall i, j :: 0 <= i < j < |keys| ==> keys[i].key != keys[j].key)
    && (forall i :: 0 <= i < |keys| ==> 1 <= keys[i].rpm <= 10_000)
  }

  ghost predicate GoodProviders(ps: seq<Provider>) {
    && (forall i, j :: 0 <= i < j < |ps| ==> ps[i].name != ps[j].name)
    && (forall i :: 0 <= i < |ps| ==> GoodKeys(ps[i].keys) && Urls.Normal(ps[i].baseUrl))
  }

  predicate HasProvider(ps: seq<Provider>, name: string) {
    exists i :: 0 <= i < |ps| && ps[i].name == name
  }

  predicate GoodAlias(a: Alias, ps: seq<Provider>) {
    a.targets != [] && forall k :: 0 <= k < |a.targets| ==> HasProvider(ps, a.targets[k].provider)
  }

  ghost predicate GoodAliases(aliases: seq<Alias>, ps: seq<Provider>) {
    && (forall i, j :: 0 <= i < j < |aliases| ==> aliases[i].name != aliases[j].name)
    && (forall i :: 0 <= i < |aliases| ==> GoodAlias(aliases[i], ps))
  }

  predicate HasSuperuser(users: seq<User>) {
    exists i :: 0 <= i < |users| && users[i].role == Superuser
  }

  ghost predicate GoodUsers(users: seq<User>) {
    && (forall i, j :: 0 <= i < j < |users| ==> users[i].username != users[j].username)
    && (forall i, j :: 0 <= i < j < |users| ==> !(users[i].role == Superuser && users[j].role == Superuser))
  }

  ghost predicate Good(c: Store) {
    && GoodUsers(c.users) && GoodProviders(c.providers) && GoodAliases(c.aliases, c.providers)
    && (!HasSuperuser(c.users) ==> c == EmptyStore())
  }

  // ---- Edits: the new store, or `None` when refused before anything is touched ----

  predicate CheckRpm(rpm: nat) {
    1 <= rpm <= 10_000
  }

  function FindProvider(ps: seq<Provider>, name: string): (found: Option<nat>)
    ensures found.Some? ==> found.value < |ps| && ps[found.value].name == name
    ensures found.None? <==> !HasProvider(ps, name)
  {
    if ps == [] then None
    else
      var n := |ps| - 1;
      match FindProvider(ps[..n], name)
      case Some(i) => Some(i)
      case None => if ps[n].name == name then Some(n) else None
  }

  predicate HasKey(keys: seq<ProviderKey>, key: string) {
    exists i :: 0 <= i < |keys| && keys[i].key == key
  }

  datatype KeyAction =
    | AddKey(provider: string, key: string, rpm: Option<nat>)
    | RemoveKey(provider: string, index: nat)
    | UpdateKey(provider: string, index: nat, enabled: Option<bool>, rpm: Option<nat>)

  function Or<T>(o: Option<T>, d: T): T {
    if o.Some? then o.value else d
  }

  function EditedKeys(keys: seq<ProviderKey>, a: KeyAction): Option<seq<ProviderKey>> {
    match a
    case AddKey(_, raw, rpm) =>
      var key := Urls.Trim(raw);
      if key == [] || HasKey(keys, key) || !CheckRpm(Or(rpm, 40)) then None
      else Some(keys + [ProviderKey(key, true, Or(rpm, 40), "")])
    case RemoveKey(_, index) =>
      if index >= |keys| then None else Some(keys[..index] + keys[index + 1..])
    case UpdateKey(_, index, enabled, rpm) =>
      if index >= |keys| || (rpm.Some? && !CheckRpm(rpm.value)) then None
      else
        var k := keys[index];
        Some(keys[index := k.(rpm := Or(rpm, k.rpm), enabled := Or(enabled, k.enabled))])
  }

  function EditKeys(c: Store, a: KeyAction): Option<Store> {
    match FindProvider(c.providers, a.provider)
    case None => None
    case Some(i) =>
      match EditedKeys(c.providers[i].keys, a)
      case None => None
      case Some(keys) => Some(c.(providers := c.providers[i := c.providers[i].(keys := keys)]))
  }

  datatype ProviderAction =
    | AddProvider(name: string, baseUrl: string, key: string, rpm: Option<nat>, protocol: Protocol)
    | RemoveProvider(name: string)
    | SetBaseUrl(name: string, baseUrl: string)

  predicate IsHttp(url: string) {
    Urls.StartsWith(url, "http://") || Urls.StartsWith(url, "https://")
  }

  function ProviderBut(gone: string): Provider -> bool {
    (p: Provider) => p.name != gone
  }

  function KeepProviders(ps: seq<Provider>, gone: string): seq<Provider> {
    Filter(ps, ProviderBut(gone))
  }

  function TargetBut(gone: string): AliasTarget -> bool {
    (t: AliasTarget) => t.provider != gone
  }

  function KeepTargets(ts: seq<AliasTarget>, gone: string): seq<AliasTarget> {
    Filter(ts, TargetBut(gone))
  }

  /** Every alias loses its targets on the provider; one left with none is dropped. */
  function PruneAliases(aliases: seq<Alias>, gone: string): seq<Alias> {
    if aliases == [] then []
    else
      var n := |aliases| - 1;
      var targets := KeepTargets(aliases[n].targets, gone);
      PruneAliases(aliases[..n], gone) + if targets != [] then [Alias(aliases[n].name, targets)] else []
  }

  function EditProviders(c: Store, a: ProviderAction): Option<Store> {
    match a
    case AddProvider(rawName, rawUrl, rawKey, rpm, protocol) =>
      var name, key, url := Urls.Trim(rawName), Urls.Trim(rawKey), Urls.Norm(rawUrl);
      if name == [] || key == [] || HasProvider(c.providers, name) || !CheckRpm(Or(rpm, 40)) || !IsHttp(url) then None
      else
        var p := Provider(name, url, [ProviderKey(key, true, Or(rpm, 40), "")], protocol);
        Some(c.(providers := c.providers + [p]))
    case RemoveProvider(name) =>
      if !HasProvider(c.providers, name) then None
      else Some(c.(providers := KeepProviders(c.providers, name), aliases := PruneAliases(c.aliases, name)))
    case SetBaseUrl(name, rawUrl) =>
      var url := Urls.Norm(rawUrl);
      match FindProvider(c.providers, name)
      case None => None
      case Some(i) =>
        if IsHttp(url) then Some(c.(providers := c.providers[i := c.providers[i].(baseUrl := url)])) else None
  }

  datatype AliasAction = UpsertAlias(name: string, targets: seq<AliasTarget>) | RemoveAlias(name: string)

  function AliasBut(gone: string): Alias -> bool {
    (a: Alias) => a.name != gone
  }

  function KeepAliases(aliases: seq<Alias>, gone: string): seq<Alias> {
    Filter(aliases, AliasBut(gone))
  }

  function EditAliases(c: Store, a: AliasAction): Option<Store> {
    match a
    case UpsertAlias(rawName, targets) =>
      var name := Urls.Trim(rawName);
      if name == [] || !GoodAlias(Alias(name, targets), c.providers) then None
      else Some(c.(aliases := KeepAliases(c.aliases, name) + [Alias(name, targets)]))
    case RemoveAlias(name) =>
      if |KeepAliases(c.aliases, name)| == |c.aliases| then None else Some(c.(aliases := KeepAliases(c.aliases, name)))
  }

  /** Passwords reach this model as their length and their hash. */
  datatype UserAction =
    | AddUser(username: string, passwordLen: nat, hash: string, admin: bool)
    | RemoveUser(username: string)
    | SetPassword(username: string, passwordLen: nat, hash: string)

  const MIN_PASSWORD: nat := 10

  function FindUser(users: seq<User>, name: string): (found: Option<nat>)
    ensures found.Some? ==> found.value < |users| && users[found.value].username == name
    ensures found.None? ==> forall i :: 0 <= i < |users| ==> users[i].username != name
  {
    if users == [] then None
    else
      var n := |users| - 1;
      match FindUser(users[..n], name)
      case Some(i) => Some(i)
      case None => if users[n].username == name then Some(n) else None
  }

  function UserBut(gone: string): User -> bool {
    (u: User) => u.username != gone
  }

  function KeepUsers(users: seq<User>, gone: string): seq<User> {
    Filter(users, UserBut(gone))
  }

  function EditUsers(c: Store, a: UserAction): Option<Store> {
    match a
    case AddUser(rawName, len, hash, admin) =>
      var name := Urls.Trim(rawName);
      if name == [] || len < MIN_PASSWORD || FindUser(c.users, name).Some? then None
      else Some(c.(users := c.users + [User(name, hash, if admin then Admin else Plain)]))
    case RemoveUser(name) =>
      (match FindUser(c.users, name)
       case None => None
       case Some(i) => if c.users[i].role == Superuser then None else Some(c.(users := KeepUsers(c.users, name))))
    case SetPassword(name, len, hash) =>
      if len < MIN_PASSWORD then None
      else
        match FindUser(c.users, name)
        case None => None
        case Some(i) => Some(c.(users := c.users[i := c.users[i].(pwHash := hash)]))
  }
}
