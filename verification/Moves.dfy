/** One key moved between providers, or one provider re-pointed: no two live lanes ever share an
    allowance, no lane is dropped and restored, nothing restarts, and the upstream still counts
    two budgets in one window. */
module Moves {
  import opened Basics
  import opened Windows
  import opened Pools
  import opened Config
  import opened Lanes
  import opened Settings
  import opened Outages
  import opened Agreement
  import opened Upstream
  import opened Bursts
  import opened Allowances
  import opened Promise
  import opened Rates
  import opened Sharing
  import P = Pacing
  import Urls

  // ---- The run ----

  /** A run of these three pools, one rebuilt from another: all of one lane's budget under the
      first, all of another's under the third. */
  ghost predicate IsSecondBudget(r: P.Run, specs0: seq<LaneSpec>, specs1: seq<LaneSpec>, specs2: seq<LaneSpec>,
                                 s: LaneSpec, s': LaneSpec)
  {
    && r.Valid() && |r.events| == s.rpm + 2 + s'.rpm
    && r.events[s.rpm] == P.Rebuild(specs1) && r.events[s.rpm + 1] == P.Rebuild(specs2)
    && (forall k :: 0 <= k < |r.events| && k != s.rpm && k != s.rpm + 1 ==> r.events[k].Acquire?)
    && (forall k :: 0 <= k <= |r.events| ==> OneOfThese(r, k, specs0, specs1, specs2))
  }

  ghost predicate OneOfThese(r: P.Run, k: nat, specs0: seq<LaneSpec>, specs1: seq<LaneSpec>, specs2: seq<LaneSpec>) {
    k < |r.states| && (Specs(r.states[k]) == specs0 || Specs(r.states[k]) == specs1 || Specs(r.states[k]) == specs2)
  }

  /** A lane that has neither been granted on nor benched. */
  ghost predicate Untouched(pool: PoolView, id: LaneId) {
    forall j :: 0 <= j < |pool| && pool[j].Id() == id ==> pool[j].hits == [] && pool[j].cooldown == None
  }

  lemma {:induction false} StaysUntouched(pool: PoolView, specs: seq<LaneSpec>, window: nat, id: LaneId)
    requires Untouched(pool, id)
    ensures Untouched(Rebuilt(pool, specs, window), id)
  {
    var next := Rebuilt(pool, specs, window);
    forall j | 0 <= j < |next| && next[j].Id() == id ensures next[j].hits == [] && next[j].cooldown == None {
      assert next[j] == Successor(pool, specs[j], window);
    }
  }

  lemma {:induction false} OneMoreRebuild(r: P.Run, specs: seq<LaneSpec>) returns (r': P.Run)
    requires r.Valid() && LiveSpecs(specs)
    ensures r'.Valid() && Extends(r, r') && |r'.events| == |r.events| + 1 && r'.events[|r.events|] == P.Rebuild(specs)
    ensures Last(r') == Rebuilt(Last(r), specs, r.window) && Now(r') == Now(r)
    ensures forall meter, a :: LogOf(r', meter, a) == LogOf(r, meter, a)
  {
    ThenIsValid(r, P.Rebuild(specs), Rebuilt(Last(r), specs, r.window));
    r' := Then(r, P.Rebuild(specs), Rebuilt(Last(r), specs, r.window));
    forall meter, a ensures LogOf(r', meter, a) == LogOf(r, meter, a) {
      DrawLogExtends(r, r', meter, a, 0, |r.events|);
      assert !Draws(r', meter, a, |r.events|);
    }
  }

  /** All the first lane's budget, at time zero. */
  lemma {:induction false} FirstBudget(specs: seq<LaneSpec>, s: LaneSpec, id: LaneId, meter: Metering, window: nat)
    returns (r: P.Run)
    requires LiveSpecs(specs) && s in specs && s.Id() != id && window > 0
    ensures r.Valid() && r.window == window && Now(r) == 0 && |r.events| == s.rpm
    ensures forall k :: 0 <= k < |r.events| ==> r.events[k].Acquire?
    ensures forall k :: 0 <= k <= |r.events| ==> Specs(r.states[k]) == specs
    ensures LogOf(r, meter, AllowanceOf(meter, s)) == Copies(s.rpm, 0)
    ensures Untouched(Last(r), id)
  {
    var r0 := FirstRun(specs, window);
    var i :| 0 <= i < |specs| && specs[i] == s;
    FreshPoolStarts(r0, specs);
    r := BurstOfGrants(r0, i, 0, s.rpm);
    BurstDraws(r0, r, i, 0, meter, AllowanceOf(meter, s), |r.events|);
    assert LogOf(r0, meter, AllowanceOf(meter, s)) == [];
    assert [] + Copies(s.rpm, 0) == Copies(s.rpm, 0);
    forall k | 0 <= k <= |r.events| ensures Specs(r.states[k]) == specs {
      assert k == 0 ==> r.states[k] == r0.states[0];
    }
    forall j | 0 <= j < |Last(r)| && Last(r)[j].Id() == id
      ensures Last(r)[j].hits == [] && Last(r)[j].cooldown == None
    {
      assert Specs(Last(r))[j] == specs[j];
      assert j != i;
    }
  }

  lemma {:induction false} SecondBudget(specs0: seq<LaneSpec>, specs1: seq<LaneSpec>, specs2: seq<LaneSpec>,
                                        s: LaneSpec, s': LaneSpec, meter: Metering, window: nat) returns (r: P.Run)
    requires LiveSpecs(specs0) && LiveSpecs(specs1) && LiveSpecs(specs2) && window > 0
    requires s in specs0 && s' in specs2 && s.Id() != s'.Id() && AllowanceOf(meter, s') == AllowanceOf(meter, s)
    ensures r.window == window && IsSecondBudget(r, specs0, specs1, specs2, s, s')
    ensures LogOf(r, meter, AllowanceOf(meter, s)) == Copies(s.rpm + s'.rpm, 0)
  {
    var r0 := FirstBudget(specs0, s, s'.Id(), meter, window);
    var r1 := OneMoreRebuild(r0, specs1);
    var r2 := OneMoreRebuild(r1, specs2);
    StaysUntouched(Last(r0), specs1, window, s'.Id());
    StaysUntouched(Last(r1), specs2, window, s'.Id());
    var j :| 0 <= j < |specs2| && specs2[j] == s';
    assert Last(r2)[j].spec == s' && Specs(Last(r2))[j] == s';
    r := BurstOfGrants(r2, j, 0, s'.rpm);
    BurstDraws(r2, r, j, 0, meter, AllowanceOf(meter, s), |r.events|);
    CopiesAdd(s.rpm, s'.rpm, 0);
    ThreePools(r0, r1, r2, r, specs0, specs1, specs2, s, s');
  }

  lemma {:induction false} ThreePools(r0: P.Run, r1: P.Run, r2: P.Run, r: P.Run, specs0: seq<LaneSpec>,
                                      specs1: seq<LaneSpec>, specs2: seq<LaneSpec>, s: LaneSpec, s': LaneSpec)
    requires r0.Valid() && r1.Valid() && r2.Valid() && r.Valid()
    requires Extends(r0, r1) && Extends(r1, r2) && Extends(r2, r)
    requires |r0.events| == s.rpm && |r1.events| == s.rpm + 1 && |r2.events| == s.rpm + 2
    requires |r.events| == s.rpm + 2 + s'.rpm
    requires r1.events[s.rpm] == P.Rebuild(specs1) && r2.events[s.rpm + 1] == P.Rebuild(specs2)
    requires Specs(Last(r1)) == specs1 && Specs(Last(r2)) == specs2
    requires forall k :: 0 <= k < s.rpm ==> r0.events[k].Acquire?
    requires forall k :: s.rpm + 2 <= k < |r.events| ==> r.events[k].Acquire?
    requires forall k :: 0 <= k <= s.rpm ==> Specs(r0.states[k]) == specs0
    requires forall k :: s.rpm + 2 <= k <= |r.events| ==> Specs(r.states[k]) == specs2
    ensures IsSecondBudget(r, specs0, specs1, specs2, s, s')
  {
    ExtendsOnwards(r0, r1, r2);
    ExtendsOnwards(r0, r2, r);
    ExtendsOnwards(r1, r2, r);
    forall k | 0 <= k <= |r.events| ensures OneOfThese(r, k, specs0, specs1, specs2) {
      if k <= s.rpm {
        assert r.states[k] == r0.states[k];
      } else if k == s.rpm + 1 {
        assert r.states[k] == r1.states[k];
      }
    }
    assert forall k :: 0 <= k < s.rpm ==> r.events[k] == r0.events[k];
  }

  /** And the delivery that shows it. */
  lemma {:induction false} AllAtOnce(total: nat, window: nat) returns (d: Delivery)
    requires total > 0 && window > 0
    ensures d.Of(Copies(total, 0), 0, JITTER_MARGIN) && |d.arrivals| == total
    ensures CountAt(d.arrivals, total - 1, window) == total
  {
    d := Delivery(UpTo(total), Copies(total, 0));
    CrowdedDeque(d.arrivals, window);
    assert d.arrivals[..total] == d.arrivals;
  }

  // ---- The commands: a key moved ----

  /** The key at `x` of one provider can be moved to another that sends to the same URL. */
  ghost predicate Movable(c: Store, from: string, x: nat, onto: string) {
    var f, o := FindProvider(c.providers, from), FindProvider(c.providers, onto);
    && f.Some? && o.Some? && from != onto && x < |c.providers[f.value].keys|
    && var p, q, k := c.providers[f.value], c.providers[o.value], c.providers[f.value].keys[x];
       && p.baseUrl == q.baseUrl && p.protocol == q.protocol
       && Live(k) && Urls.Trim(k.key) == k.key != [] && !HasKey(q.keys, k.key)
       && !OnlyLane(c.providers, LaneId(from, k.key))
  }

  /** The lane the key has, and the one it gets. */
  ghost function LaneOf(c: Store, from: string, x: nat): LaneSpec
    requires FindProvider(c.providers, from).Some? && x < |c.providers[FindProvider(c.providers, from).value].keys|
  {
    var p := c.providers[FindProvider(c.providers, from).value];
    SpecFor(p, p.keys[x])
  }

  lemma {:induction false} RemovalIsTaken(c: Store, from: string, x: nat, onto: string)
    requires Good(c) && Movable(c, from, x, onto)
    ensures var a, s := RemoveKey(from, x), LaneOf(c, from, x);
      && EditKeys(c, a).Some? && Good(EditKeys(c, a).value) && !Dry(EditKeys(c, a).value)
      && (forall t :: t in LaneSpecs(EditKeys(c, a).value.providers) <==>
            t in LaneSpecs(c.providers) && t.Id() != s.Id())
      && FindProvider(EditKeys(c, a).value.providers, onto) == FindProvider(c.providers, onto)
      && EditKeys(c, a).value.providers[FindProvider(c.providers, onto).value]
         == c.providers[FindProvider(c.providers, onto).value]
  {
    var a := RemoveKey(from, x);
    var i := FindProvider(c.providers, from).value;
    var c' := EditKeys(c, a).value;
    KeyEditIsGood(c, a);
    KeysLeaveNoLaneIff(c.providers, i, a);
    SameFind(c.providers, c'.providers, onto);
    forall t
      ensures t in LaneSpecs(c'.providers) <==> t in LaneSpecs(c.providers) && t.Id() != LaneOf(c, from, x).Id()
    {
      KeyEditLanesExactly(c, a, t);
    }
  }

  lemma {:induction false} NewKeyIsTaken(c: Store, onto: string, key: string, rpm: Option<nat>)
    requires Good(c) && FindProvider(c.providers, onto).Some? && CheckRpm(Or(rpm, 40))
    requires Urls.Trim(key) == key != [] && !HasKey(c.providers[FindProvider(c.providers, onto).value].keys, key)
    ensures var a, q := AddKey(onto, key, rpm), c.providers[FindProvider(c.providers, onto).value];
            var s' := LaneSpec(onto, q.baseUrl, key, Or(rpm, 40), q.protocol);
      && EditKeys(c, a).Some? && Good(EditKeys(c, a).value) && !Dry(EditKeys(c, a).value)
      && (forall t :: t in LaneSpecs(EditKeys(c, a).value.providers) <==>
            (t in LaneSpecs(c.providers) && t.Id() != s'.Id()) || t == s')
  {
    var a := AddKey(onto, key, rpm);
    var i := FindProvider(c.providers, onto).value;
    var c' := EditKeys(c, a).value;
    KeyEditIsGood(c, a);
    KeysLeaveNoLaneIff(c.providers, i, a);
    forall t ensures t in LaneSpecs(c'.providers) <==>
        (t in LaneSpecs(c.providers) && t.Id() != LaneId(onto, key))
        || t == LaneSpec(onto, c.providers[i].baseUrl, key, Or(rpm, 40), c.providers[i].protocol)
    {
      KeyEditLanesExactly(c, a, t);
    }
  }

  /** A saved key edit, run alone. */
  lemma {:induction false} KeyEditRuns(w: World, task: nat, a: KeyAction)
    requires Settled(w) && EditKeys(w.store, a).Some? && !Dry(EditKeys(w.store, a).value)
    ensures var c := EditKeys(w.store, a).value;
            Whole(w, task, Keys(a), true) == w.(store := c, disk := Some(c), pool := LaneSpecs(c.providers))
  {
    var edited := EditKeys(w.store, a);
    assert BeginNext(w, task, Keys(a)) == EditedNext(w, task, true, true, edited);
    EditedAlone(w, task, true, true, edited, true);
  }

  /** The two commands that move the key. */
  function Removed(w: World, t: nat, from: string, x: nat): World {
    Whole(w, t, Keys(RemoveKey(from, x)), true)
  }

  function Added(w: World, t: nat, onto: string, key: string, rpm: Option<nat>): World {
    Whole(w, t, Keys(AddKey(onto, key, rpm)), true)
  }

  /** Both are saved; in between the key has no lane, and afterwards it has one under the other
      provider, which draws on the same allowance whatever an upstream goes by. */
  ghost predicate MovesTheLane(w: World, w1: World, w2: World, s: LaneSpec, s': LaneSpec) {
    && w1.disk == Some(w1.store) && w1.pool == LaneSpecs(w1.store.providers) && GoodSpecs(w1.pool)
    && w2.disk == Some(w2.store) && w2.pool == LaneSpecs(w2.store.providers) && GoodSpecs(w2.pool)
    && s in w.pool && s' == s.(provider := s'.provider, rpm := s'.rpm)
    && (forall t :: t in w.pool ==> t.Id() != s'.Id())
    && (forall t :: t in w1.pool <==> t in w.pool && t.Id() != s.Id())
    && (forall t :: t in w2.pool <==> (t in w1.pool && t.Id() != s'.Id()) || t == s')
  }

  lemma {:induction false} MovedKeyIsSaved(w: World, t1: nat, t2: nat, from: string, x: nat, onto: string,
                                           rpm: Option<nat>)
    requires GoodWorld(w) && Settled(w) && w.pool == LaneSpecs(w.store.providers)
    requires Movable(w.store, from, x, onto) && CheckRpm(Or(rpm, 40))
    ensures var s := LaneOf(w.store, from, x);
            var w1 := Removed(w, t1, from, x);
            MovesTheLane(w, w1, Added(w1, t2, onto, s.key, rpm), s, s.(provider := onto, rpm := Or(rpm, 40)))
  {
    var s := LaneOf(w.store, from, x);
    RemovalIsTaken(w.store, from, x, onto);
    KeyEditRuns(w, t1, RemoveKey(from, x));
    var w1 := Removed(w, t1, from, x);
    NewKeyIsTaken(w1.store, onto, s.key, rpm);
    KeyEditRuns(w1, t2, AddKey(onto, s.key, rpm));
    var w2 := Added(w1, t2, onto, s.key, rpm);
    GoodProvidersMakeGoodSpecs(w1.store.providers);
    GoodProvidersMakeGoodSpecs(w2.store.providers);
    LaneIsLive(w.store, from, x);
    forall t | t in w.pool ensures t.Id() != LaneId(onto, s.key) {
      NoLaneYet(w.store.providers, onto, s.key, t);
    }
  }

  lemma {:induction false} NoLaneYet(ps: seq<Provider>, name: string, key: string, t: LaneSpec)
    requires GoodProviders(ps) && FindProvider(ps, name).Some? && !HasKey(ps[FindProvider(ps, name).value].keys, key)
    requires t in LaneSpecs(ps)
    ensures t.Id() != LaneId(name, key)
  {
    var i := FindProvider(ps, name).value;
    ServedByOne(ps, i, t);
    if t.provider == name {
      var k: nat :| ServesAt(ps[i], ps[i].keys, t, k);
      assert ps[i].keys[k].key == t.key;
    }
  }

  lemma {:induction false} LaneIsLive(c: Store, from: string, x: nat)
    requires FindProvider(c.providers, from).Some? && x < |c.providers[FindProvider(c.providers, from).value].keys|
    requires Live(c.providers[FindProvider(c.providers, from).value].keys[x])
    ensures LaneOf(c, from, x) in LaneSpecs(c.providers)
  {
    var i, s := FindProvider(c.providers, from).value, LaneOf(c, from, x);
    LaneSpecsHas(c.providers, s);
    assert ServesAt(c.providers[i], c.providers[i].keys, s, x);
    assert ServedBy(c.providers, s, i);
  }

  /** Nothing among these draws on `a` but lanes of this identity. */
  ghost predicate OnlyDrawer(specs: seq<LaneSpec>, meter: Metering, a: Allowance, id: LaneId) {
    forall t :: t in specs && AllowanceOf(meter, t) == a ==> t.Id() == id
  }

  /** No pool on the way has two lanes that draw on the allowance. */
  ghost predicate NeverShared(w: World, w1: World, w2: World, s: LaneSpec, s': LaneSpec, meter: Metering) {
    && OnlyDrawer(w.pool, meter, AllowanceOf(meter, s), s.Id())
    && (forall t :: t in w1.pool ==> AllowanceOf(meter, t) != AllowanceOf(meter, s))
    && OnlyDrawer(w2.pool, meter, AllowanceOf(meter, s), s'.Id())
  }

  lemma {:induction false} MovesAlone(w: World, w1: World, w2: World, s: LaneSpec, s': LaneSpec, meter: Metering)
    requires MovesTheLane(w, w1, w2, s, s') && OnlyDrawer(w.pool, meter, AllowanceOf(meter, s), s.Id())
    ensures NeverShared(w, w1, w2, s, s', meter)
  {
  }

  /** A run of these pools in which the upstream counts both rates in one window. */
  ghost predicate CountsBoth(r: P.Run, d: Delivery, specs0: seq<LaneSpec>, specs1: seq<LaneSpec>, specs2: seq<LaneSpec>,
                             s: LaneSpec, s': LaneSpec, meter: Metering, providerWindow: nat)
  {
    && IsSecondBudget(r, specs0, specs1, specs2, s, s') && r.window == providerWindow + JITTER_MARGIN
    && d.Of(LogOf(r, meter, AllowanceOf(meter, s)), 0, JITTER_MARGIN)
    && |d.arrivals| == s.rpm + s'.rpm > 0
    && CountAt(d.arrivals, |d.arrivals| - 1, providerWindow) == s.rpm + s'.rpm
  }

  lemma {:induction false} CountBoth(specs0: seq<LaneSpec>, specs1: seq<LaneSpec>, specs2: seq<LaneSpec>,
                                     s: LaneSpec, s': LaneSpec, meter: Metering, providerWindow: nat)
    returns (r: P.Run, d: Delivery)
    requires GoodSpecs(specs0) && GoodSpecs(specs1) && GoodSpecs(specs2) && providerWindow > 0
    requires s in specs0 && s' in specs2 && s.Id() != s'.Id() && AllowanceOf(meter, s') == AllowanceOf(meter, s)
    ensures CountsBoth(r, d, specs0, specs1, specs2, s, s', meter, providerWindow)
  {
    assert s.rpm > 0 by {
      var i :| 0 <= i < |specs0| && specs0[i] == s;
    }
    r := SecondBudget(specs0, specs1, specs2, s, s', meter, providerWindow + JITTER_MARGIN);
    d := AllAtOnce(s.rpm + s'.rpm, providerWindow);
  }

  /** A MOVED KEY IS A SECOND BUDGET. Move any live key to another provider at the same URL. If it
      shared its allowance with no other lane, then no pool on the way has two lanes on it, and no
      lane is ever restored; but there is a run of these very pools, with no restart, in which the
      upstream counts the key's old rate and its new one in one window. */
  lemma {:induction false} MovedKeyIsASecondBudget(w: World, t1: nat, t2: nat, from: string, x: nat, onto: string,
                                                   rpm: Option<nat>, meter: Metering, providerWindow: nat)
    returns (r: P.Run, d: Delivery)
    requires GoodWorld(w) && Settled(w) && w.pool == LaneSpecs(w.store.providers) && providerWindow > 0
    requires Movable(w.store, from, x, onto) && CheckRpm(Or(rpm, 40))
    requires var s := LaneOf(w.store, from, x); OnlyDrawer(w.pool, meter, AllowanceOf(meter, s), s.Id())
    ensures var s := LaneOf(w.store, from, x);
            var s' := s.(provider := onto, rpm := Or(rpm, 40));
            var w1 := Removed(w, t1, from, x);
            var w2 := Added(w1, t2, onto, s.key, rpm);
      && MovesTheLane(w, w1, w2, s, s') && NeverShared(w, w1, w2, s, s', meter)
      && CountsBoth(r, d, w.pool, w1.pool, w2.pool, s, s', meter, providerWindow)
  {
    var s := LaneOf(w.store, from, x);
    var s' := s.(provider := onto, rpm := Or(rpm, 40));
    var w1 := Removed(w, t1, from, x);
    var w2 := Added(w1, t2, onto, s.key, rpm);
    MovedKeyIsSaved(w, t1, t2, from, x, onto, rpm);
    MovesAlone(w, w1, w2, s, s', meter);
    r, d := CountBothMoved(w, w1, w2, s, s', meter, providerWindow);
  }

  lemma {:induction false} CountBothMoved(w: World, w1: World, w2: World, s: LaneSpec, s': LaneSpec, meter: Metering,
                                          providerWindow: nat)
    returns (r: P.Run, d: Delivery)
    requires GoodSpecs(w.pool) && MovesTheLane(w, w1, w2, s, s') && providerWindow > 0
    ensures CountsBoth(r, d, w.pool, w1.pool, w2.pool, s, s', meter, providerWindow)
  {
    r, d := CountBoth(w.pool, w1.pool, w2.pool, s, s', meter, providerWindow);
  }

  /** From any first claim it takes three commands, all of them saved: a second provider at the same
      URL, the key away from the first, the key onto the second. */
  lemma {:induction false} EveryClaimCanMoveItsKey(form: SetupForm, name: string, key: string, meter: Metering,
                                                   providerWindow: nat)
    returns (r: P.Run, d: Delivery)
    requires Urls.Trim(form.username) != [] && form.password != [] && providerWindow > 0
    requires Urls.Trim(form.apiKey) == form.apiKey != [] && IsHttp(Urls.Norm(form.baseUrl))
    requires Urls.Trim(name) == name != [] && name != form.providerName
    requires Urls.Trim(key) == key != [] && key != form.apiKey
    requires meter(Urls.Norm(form.baseUrl), key, form.protocol)
             != meter(Urls.Norm(form.baseUrl), form.apiKey, form.protocol)
    ensures var a := AddProvider(name, form.baseUrl, key, None, form.protocol);
            var w1 := Whole(Whole(Boot(None), 0, Setup(form, true), true), 1, Providers(a), true);
            var w2 := Removed(w1, 2, form.providerName, 0);
            var w3 := Added(w2, 3, name, form.apiKey, None);
            var s := LaneSpec(form.providerName, Urls.Norm(form.baseUrl), form.apiKey, 40, form.protocol);
            var s' := s.(provider := name, rpm := 40);
      && w1.disk == Some(w1.store) && MovesTheLane(w1, w2, w3, s, s') && NeverShared(w1, w2, w3, s, s', meter)
      && CountsBoth(r, d, w1.pool, w2.pool, w3.pool, s, s', meter, providerWindow) && |d.arrivals| == 80
  {
    var w0, s := AfterTheClaim(form);
    var w1 := SecondProvider(w0, s, form, 1, name, key);
    r, d := MoveTheFirstKey(w1, 2, 3, s, name, key, meter, providerWindow);
  }

  lemma {:induction false} MoveTheFirstKey(w: World, t1: nat, t2: nat, s: LaneSpec, name: string, key: string,
                                           meter: Metering, providerWindow: nat)
    returns (r: P.Run, d: Delivery)
    requires GoodWorld(w) && Settled(w) && w.pool == LaneSpecs(w.store.providers) && providerWindow > 0
    requires Movable(w.store, s.provider, 0, name) && LaneOf(w.store, s.provider, 0) == s
    requires w.pool == [s, s.(provider := name, key := key)]
    requires meter(s.baseUrl, key, s.protocol) != meter(s.baseUrl, s.key, s.protocol)
    ensures var s' := s.(provider := name, rpm := 40);
            var w1 := Removed(w, t1, s.provider, 0);
            var w2 := Added(w1, t2, name, s.key, None);
      && MovesTheLane(w, w1, w2, s, s') && NeverShared(w, w1, w2, s, s', meter)
      && CountsBoth(r, d, w.pool, w1.pool, w2.pool, s, s', meter, providerWindow)
  {
    r, d := MovedKeyIsASecondBudget(w, t1, t2, s.provider, 0, name, None, meter, providerWindow);
  }

  lemma {:induction false} SecondProvider(w0: World, s: LaneSpec, form: SetupForm, task: nat, name: string, key: string)
    returns (w: World)
    requires GoodWorld(w0) && Settled(w0) && w0.store == Claimed(EmptyStore(), form)
    requires w0.pool == [s] == LaneSpecs(w0.store.providers)
    requires s == LaneSpec(form.providerName, Urls.Norm(form.baseUrl), form.apiKey, 40, form.protocol)
    requires Urls.Trim(form.apiKey) == form.apiKey != [] && IsHttp(Urls.Norm(form.baseUrl))
    requires Urls.Trim(name) == name != [] && name != form.providerName
    requires Urls.Trim(key) == key != [] && key != form.apiKey
    ensures var a := AddProvider(name, form.baseUrl, key, None, form.protocol);
            w == Whole(w0, task, Providers(a), true)
    ensures GoodWorld(w) && Settled(w) && w.pool == LaneSpecs(w.store.providers) && w.disk == Some(w.store)
    ensures Movable(w.store, form.providerName, 0, name)
    ensures LaneOf(w.store, form.providerName, 0) == s && w.pool == [s, s.(provider := name, key := key)]
  {
    var a := AddProvider(name, form.baseUrl, key, None, form.protocol);
    var c := SecondIsTaken(w0.store, form, name, key);
    w := Whole(w0, task, Providers(a), true);
    SecondIsSaved(w0, task, a, c);
    TwoProviders(c, form, name, key);
  }

  lemma {:induction false} SecondIsSaved(w: World, task: nat, a: ProviderAction, c: Store)
    requires GoodWorld(w) && Settled(w) && w.pool == LaneSpecs(w.store.providers)
    requires a.AddProvider? && EditProviders(w.store, a) == Some(c)
    ensures var w' := Whole(w, task, Providers(a), true);
      && GoodWorld(w') && Settled(w') && w'.store == c && w'.disk == Some(c)
      && w'.pool == LaneSpecs(c.providers) == w.pool + [AddedLane(a)]
  {
    AdditionIsSaved(w, task, a);
    AdditionAppends(w.store, a);
    WholeIsGood(w, task, Providers(a), true);
  }

  lemma {:induction false} SecondIsTaken(c0: Store, form: SetupForm, name: string, key: string) returns (c: Store)
    requires c0 == Claimed(EmptyStore(), form) && IsHttp(Urls.Norm(form.baseUrl))
    requires Urls.Trim(name) == name != [] && name != form.providerName && Urls.Trim(key) == key != []
    ensures var a := AddProvider(name, form.baseUrl, key, None, form.protocol);
            EditProviders(c0, a) == Some(c)
            && AddedLane(a) == LaneSpec(name, Urls.Norm(form.baseUrl), key, 40, form.protocol)
    ensures c.providers == c0.providers
                           + [Provider(name, Urls.Norm(form.baseUrl), [ProviderKey(key, true, 40, "")], form.protocol)]
  {
    var a := AddProvider(name, form.baseUrl, key, None, form.protocol);
    ClaimedName(form, name);
    c := EditProviders(c0, a).value;
  }

  lemma {:induction false} TwoProviders(c: Store, form: SetupForm, name: string, key: string)
    requires name != form.providerName && key != form.apiKey && Urls.Trim(form.apiKey) == form.apiKey != []
    requires c.providers == Claimed(EmptyStore(), form).providers
                            + [Provider(name, Urls.Norm(form.baseUrl), [ProviderKey(key, true, 40, "")], form.protocol)]
    ensures Movable(c, form.providerName, 0, name)
    ensures LaneOf(c, form.providerName, 0)
         == LaneSpec(form.providerName, Urls.Norm(form.baseUrl), form.apiKey, 40, form.protocol)
  {
    var ps := c.providers;
    assert ps[..1] == [ps[0]] && ps[..1][..0] == [];
    assert FindProvider(ps[..1], form.providerName) == Some(0) && FindProvider(ps[..1], name) == None;
    assert FindProvider(ps, form.providerName) == Some(0) && FindProvider(ps, name) == Some(1);
    var t := SpecFor(ps[1], ps[1].keys[0]);
    LaneSpecsHas(ps, t);
    assert ServesAt(ps[1], ps[1].keys, t, 0);
    assert ServedBy(ps, t, 1);
  }

  // ---- The commands: a provider re-pointed ----

  /** A RE-POINTED PROVIDER IS A SECOND BUDGET, TOO. Point one provider away from a URL and another,
      with the same key, onto it. Both lanes are kept throughout, with what they have spent; but the
      second one's own load knows nothing of what the first spent there. */
  lemma {:induction false} RepointedProviderIsASecondBudget(c: Store, from: string, away: string, onto: string,
                                                            s: LaneSpec, s': LaneSpec, meter: Metering, window: nat)
    returns (r: P.Run)
    requires Good(c) && from != onto && window > 0
    requires EditProviders(c, SetBaseUrl(from, away)).Some?
    requires var c1 := EditProviders(c, SetBaseUrl(from, away)).value;
             EditProviders(c1, SetBaseUrl(onto, s.baseUrl)).Some?
    requires s in LaneSpecs(c.providers) && s' in LaneSpecs(c.providers) && s.provider == from && s'.provider == onto
    requires s'.key == s.key && s'.protocol == s.protocol
    ensures var c1 := EditProviders(c, SetBaseUrl(from, away)).value;
            var c2 := EditProviders(c1, SetBaseUrl(onto, s.baseUrl)).value;
            var moved := s'.(baseUrl := s.baseUrl);
      && s'.Id() == moved.Id() && s' in LaneSpecs(c1.providers) && moved in LaneSpecs(c2.providers)
      && s.(baseUrl := Urls.Norm(away)) in LaneSpecs(c1.providers)
      && s.(baseUrl := Urls.Norm(away)) in LaneSpecs(c2.providers)
      && IsSecondBudget(r, LaneSpecs(c.providers), LaneSpecs(c1.providers), LaneSpecs(c2.providers), s, moved)
      && r.window == window && LogOf(r, meter, AllowanceOf(meter, s)) == Copies(s.rpm + moved.rpm, 0)
  {
    var c1 := EditProviders(c, SetBaseUrl(from, away)).value;
    var c2 := EditProviders(c1, SetBaseUrl(onto, s.baseUrl)).value;
    var moved := s'.(baseUrl := s.baseUrl);
    RepointingKeepsTheLanes(c, from, away, s, s');
    assert Good(c1) by { RepointedIsGood(c, from, away); }
    assert Urls.Norm(s.baseUrl) == s.baseUrl by { LaneUrlIsNormal(c, s); }
    RepointingKeepsTheLanes(c1, onto, s.baseUrl, s', s.(baseUrl := Urls.Norm(away)));
    assert Good(c2) by { RepointedIsGood(c1, onto, s.baseUrl); }
    GoodProvidersMakeGoodSpecs(c.providers);
    GoodProvidersMakeGoodSpecs(c1.providers);
    GoodProvidersMakeGoodSpecs(c2.providers);
    var specs0, specs1, specs2 := LaneSpecs(c.providers), LaneSpecs(c1.providers), LaneSpecs(c2.providers);
    r := SecondBudget(specs0, specs1, specs2, s, moved, meter, window);
  }

  lemma {:induction false} RepointedIsGood(c: Store, name: string, url: string)
    requires Good(c) && EditProviders(c, SetBaseUrl(name, url)).Some?
    ensures Good(EditProviders(c, SetBaseUrl(name, url)).value)
  {
    if !HasSuperuser(c.users) {
      assert FindProvider(c.providers, name).None?;
    } else {
      ProviderEditIsGood(c, SetBaseUrl(name, url));
    }
  }

  lemma {:induction false} LaneUrlIsNormal(c: Store, s: LaneSpec)
    requires Good(c) && s in LaneSpecs(c.providers)
    ensures Urls.Norm(s.baseUrl) == s.baseUrl
  {
    GoodProvidersMakeGoodSpecs(c.providers);
    var i :| 0 <= i < |LaneSpecs(c.providers)| && LaneSpecs(c.providers)[i] == s;
    Urls.RightOfNormal(s.baseUrl);
  }

  /** One provider's lanes go to the new URL, another's stay where they are. */
  lemma {:induction false} RepointingKeepsTheLanes(c: Store, name: string, url: string, own: LaneSpec, other: LaneSpec)
    requires Good(c) && EditProviders(c, SetBaseUrl(name, url)).Some?
    requires own in LaneSpecs(c.providers) && other in LaneSpecs(c.providers) && own.provider == name != other.provider
    ensures var ps := EditProviders(c, SetBaseUrl(name, url)).value.providers;
            own.(baseUrl := Urls.Norm(url)) in LaneSpecs(ps) && other in LaneSpecs(ps)
  {
    var i := FindProvider(c.providers, name).value;
    RepointingMovesItsLanes(c, name, url, own.(baseUrl := Urls.Norm(url)));
    RepointingMovesItsLanes(c, name, url, other);
    LaneSpecsHas(c.providers, own);
    ServedByOne(c.providers, i, own);
    assert own.baseUrl == c.providers[i].baseUrl;
  }
}
