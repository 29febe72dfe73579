/** How two live lanes come to draw on one allowance, and which reachable pools and moments keep
    the promise. */
module Sharing {
  import opened Basics
  import opened Windows
  import opened Pools
  import opened Config
  import opened Lanes
  import opened Settings
  import opened Outages
  import opened Agreement
  import opened Upstream
  import opened Allowances
  import opened Promise
  import opened Rates
  import Pacing
  import Bursts
  import Service
  import Urls

  // ---- Whatever the server has been through ----

  /** THE MOST ANY UPSTREAM SEES of a server, from its first boot on, whatever handlers, restarts,
      grants and benches are interleaved: the highest rate of each lane that ever drew on the
      allowance, once for each life of that lane. */
  lemma {:induction false} ServerKeepsTheAllotments(h: Service.History, meter: Metering, a: Allowance, from: nat,
                                                    end: nat, providerWindow: nat, d: Delivery, delay: nat, m: nat)
    requires h.Valid() && from <= end <= |h.acts|
    requires providerWindow > 0 && h.window == providerWindow + JITTER_MARGIN
    requires d.Of(DrawLog(h.AsRun(), meter, a, from, end), delay, JITTER_MARGIN) && m < |d.arrivals|
    ensures var r, ids := h.AsRun(), Drawers(h.AsRun(), meter, a, from, end);
            CountAt(d.arrivals, m, providerWindow) <= Allotments(r, ids, Peaks(r, ids, from, end), from, end)
  {
    Service.TheLanesMakeARun(h);
    UpstreamSeesAtMostTheAllotments(h.AsRun(), meter, a, from, end, providerWindow, d, delay, m);
  }

  /** EXACTLY WHICH MOMENTS KEEP THE PROMISE. At any moment the server can come to, and for as long
      as the lanes then live stay as they are, a limit is safe if and only if the past was paced
      within it and what is still spent and all that the lanes could add always fit in it. */
  lemma {:induction false} ReachableMomentIsSafeIffItFits(h: Service.History, meter: Metering, a: Allowance, limit: nat,
                                                          providerWindow: nat)
    requires h.Valid() && providerWindow > 0 && h.window == providerWindow + JITTER_MARGIN
    ensures var r := h.AsRun();
      && r.Valid()
      && (SafeFromHere(r, meter, a, limit, providerWindow) <==>
            && Pacing.PacedLog(LogOf(r, meter, a), r.window, limit)
            && FitsFrom(LogOf(r, meter, a), r.window, Bursts.Last(r), meter, a, limit, Bursts.Now(r)))
  {
    Service.TheLanesMakeARun(h);
    SafeFromHereIffItFits(h.AsRun(), meter, a, limit, providerWindow);
  }

  /** In particular for a process that has just started, on whatever configuration the handlers
      can have reached: a live lane's own rate is safe if and only if no other live lane draws on
      what it draws on. */
  lemma {:induction false} ReachablePoolIsSafeIffUnshared(steps: seq<Step>, providerWindow: nat, meter: Metering,
                                                          i: nat)
    requires providerWindow > 0 && i < |After(Boot(None), steps).pool|
    ensures var pool := After(Boot(None), steps).pool;
      && LiveSpecs(pool)
      && (SafeAt(pool, providerWindow, meter, AllowanceOf(meter, pool[i]), pool[i].rpm) <==> Unshared(pool, meter, i))
  {
    EveryReachableWorldIsGood(steps);
    SafeAtItsOwnRateIffUnshared(After(Boot(None), steps).pool, providerWindow, meter, i);
  }

  // ---- Whose allowance a request draws on ----

  /** A limiter that goes by the Authorization header, with nothing for one that is absent: OpenAI
      lanes send their key in it, Anthropic lanes send theirs in another header. Which URLs lead to
      one server is not for the proxy to know. */
  function ByAuthorization(serverOf: string -> string): Metering {
    (url: string, key: string, protocol: Protocol) =>
      Allowance(serverOf(url), if protocol == OpenAi then "Bearer " + key else "")
  }

  /** A limiter that goes by the key, in whichever header it comes. */
  function ByKey(serverOf: string -> string): Metering {
    (url: string, key: string, protocol: Protocol) => Allowance(serverOf(url), key)
  }

  /** By the Authorization header, two lanes share exactly when they lead to one server, speak one
      protocol, and, if that is OpenAI's, have one key: Anthropic lanes share whatever their keys. */
  lemma {:induction false} AuthorizationSharedIff(serverOf: string -> string, s: LaneSpec, s': LaneSpec)
    ensures AllowanceOf(ByAuthorization(serverOf), s) == AllowanceOf(ByAuthorization(serverOf), s') <==>
              && serverOf(s.baseUrl) == serverOf(s'.baseUrl) && s.protocol == s'.protocol
              && (s.protocol == OpenAi ==> s.key == s'.key)
  {
    var b, b' := "Bearer " + s.key, "Bearer " + s'.key;
    assert |b| > 0 && |b'| > 0 && b[7..] == s.key && b'[7..] == s'.key;
  }

  // ---- Two lanes on one allowance ----

  /** The lane a new provider brings. */
  function AddedLane(a: ProviderAction): LaneSpec
    requires a.AddProvider?
  {
    LaneSpec(Urls.Trim(a.name), Urls.Norm(a.baseUrl), Urls.Trim(a.key), Or(a.rpm, 40), a.protocol)
  }

  lemma {:induction false} AdditionAppends(c: Store, a: ProviderAction)
    requires a.AddProvider? && EditProviders(c, a).Some?
    ensures LaneSpecs(EditProviders(c, a).value.providers) == LaneSpecs(c.providers) + [AddedLane(a)]
  {
    var p := EditProviders(c, a).value.providers[|c.providers|];
    LanesOneMore(c.providers, p);
    assert p.keys == [p.keys[0]] && p.keys[..0] == [];
    assert KeySpecs(p, []) == [];
    assert KeySpecs(p, p.keys) == [] + [AddedLane(a)];
  }

  /** What one lane more does to the rate of an allowance. */
  ghost predicate Doubles(specs: seq<LaneSpec>, specs': seq<LaneSpec>, s: LaneSpec, twin: LaneSpec, meter: Metering,
                          providerWindow: nat)
  {
    var a := AllowanceOf(meter, s);
    && specs' == specs + [twin] && LiveSpecs(specs')
    && RateOf(specs', meter, a) == RateOf(specs, meter, a) + twin.rpm
    && !SafeAt(specs', providerWindow, meter, a, s.rpm)
    && (SafeAt(specs', providerWindow, meter, a, s.rpm + twin.rpm) <==> RateOf(specs, meter, a) == s.rpm)
  }

  lemma {:induction false} TwinDoubles(specs: seq<LaneSpec>, i: nat, twin: LaneSpec, meter: Metering,
                                       providerWindow: nat)
    requires LiveSpecs(specs + [twin]) && i < |specs| && providerWindow > 0
    requires AllowanceOf(meter, twin) == AllowanceOf(meter, specs[i])
    ensures Doubles(specs, specs + [twin], specs[i], twin, meter, providerWindow)
  {
    var s, specs', a := specs[i], specs + [twin], AllowanceOf(meter, specs[i]);
    TwinAddsItsRate(specs, i, twin, meter);
    SafeIffRatesFit(specs', providerWindow, meter, a, s.rpm);
    SafeIffRatesFit(specs', providerWindow, meter, a, s.rpm + twin.rpm);
  }

  lemma {:induction false} TwinAddsItsRate(specs: seq<LaneSpec>, i: nat, twin: LaneSpec, meter: Metering)
    requires LiveSpecs(specs + [twin]) && i < |specs| && AllowanceOf(meter, twin) == AllowanceOf(meter, specs[i])
    ensures var a := AllowanceOf(meter, specs[i]);
      && RateOf(specs + [twin], meter, a) == RateOf(specs, meter, a) + twin.rpm
      && RateOf(specs, meter, a) >= specs[i].rpm && twin.rpm > 0
  {
    var specs' := specs + [twin];
    assert specs'[..|specs|] == specs && specs'[|specs|] == twin && specs[..|specs|] == specs;
    FrontIsLive(specs, twin);
    OwnRateIff(specs, meter, i, |specs|);
  }

  lemma {:induction false} FrontIsLive(specs: seq<LaneSpec>, last: LaneSpec)
    requires LiveSpecs(specs + [last])
    ensures LiveSpecs(specs)
  {
    assert forall i :: 0 <= i < |specs| ==> (specs + [last])[i] == specs[i];
  }

  /** ANY LIVE LANE CAN BE DOUBLED. Whatever an upstream goes by, a new provider whose lane draws on
      what a live lane draws on is saved and answered success like any other, and from then on that
      allowance may be counted over the live lane's rate: up to the two rates together. */
  lemma {:induction false} AnyLaneCanBeDoubled(w: World, task: nat, i: nat, a: ProviderAction, meter: Metering,
                                               providerWindow: nat)
    requires GoodWorld(w) && Settled(w) && w.pool == LaneSpecs(w.store.providers) && i < |w.pool| && providerWindow > 0
    requires a.AddProvider? && EditProviders(w.store, a).Some?
    requires AllowanceOf(meter, AddedLane(a)) == AllowanceOf(meter, w.pool[i])
    ensures var w' := Whole(w, task, Providers(a), true);
            w'.disk == Some(w'.store) && Doubles(w.pool, w'.pool, w.pool[i], AddedLane(a), meter, providerWindow)
  {
    AdditionIsSaved(w, task, a);
    assert GoodSpecs(Whole(w, task, Providers(a), true).pool) by { WholeIsGood(w, task, Providers(a), true); }
    TwinDoubles(w.pool, i, AddedLane(a), meter, providerWindow);
  }

  lemma {:induction false} AdditionIsSaved(w: World, task: nat, a: ProviderAction)
    requires Settled(w) && w.pool == LaneSpecs(w.store.providers)
    requires a.AddProvider? && EditProviders(w.store, a).Some?
    ensures var w', c := Whole(w, task, Providers(a), true), EditProviders(w.store, a).value;
      w' == w.(store := c, disk := Some(c), pool := w.pool + [AddedLane(a)])
  {
    var c := EditProviders(w.store, a).value;
    AdditionAppends(w.store, a);
    assert !Dry(c) by { assert LaneSpecs(c.providers)[|w.pool|] == AddedLane(a); }
    ProviderEditRuns(w, task, a, c);
  }

  /** A saved provider edit, run alone. */
  lemma {:induction false} ProviderEditRuns(w: World, task: nat, a: ProviderAction, c: Store)
    requires Settled(w) && EditProviders(w.store, a) == Some(c) && !Dry(c)
    ensures Whole(w, task, Providers(a), true)
         == w.(store := c, disk := Some(c), pool := LaneSpecs(c.providers))
  {
    assert BeginNext(w, task, Providers(a)) == EditedNext(w, task, true, true, Some(c));
    EditedAlone(w, task, true, true, Some(c), true);
  }

  /** A provider under another name, with the URL, the key and the protocol of a lane that is live
      already. */
  function Twin(s: LaneSpec, name: string, rpm: Option<nat>): ProviderAction {
    AddProvider(name, s.baseUrl, s.key, rpm, s.protocol)
  }

  /** What the form asks of such a twin; none of it looks at the URL and the key together. */
  predicate Twinnable(c: Store, s: LaneSpec, name: string, rpm: Option<nat>) {
    && Urls.Trim(name) != [] && !HasProvider(c.providers, Urls.Trim(name))
    && Urls.Trim(s.key) == s.key != [] && IsHttp(s.baseUrl) && CheckRpm(Or(rpm, 40))
  }

  /** The twin of a live lane is taken, and draws on the same allowance whatever an upstream goes
      by. */
  lemma {:induction false} TwinIsTaken(w: World, i: nat, name: string, rpm: Option<nat>, meter: Metering)
    requires GoodWorld(w) && i < |w.pool| && Twinnable(w.store, w.pool[i], name, rpm)
    ensures var a := Twin(w.pool[i], name, rpm);
      && EditProviders(w.store, a).Some?
      && AddedLane(a) == w.pool[i].(provider := Urls.Trim(name), rpm := Or(rpm, 40))
      && AllowanceOf(meter, AddedLane(a)) == AllowanceOf(meter, w.pool[i])
  {
    assert Urls.Normal(w.pool[i].baseUrl);
    Urls.RightOfNormal(w.pool[i].baseUrl);
  }

  /** From any first claim it takes one command to get there. */
  lemma {:induction false} EveryClaimCanBeDoubled(form: SetupForm, name: string, meter: Metering, providerWindow: nat)
    requires Urls.Trim(form.username) != [] && form.password != [] && providerWindow > 0
    requires Urls.Trim(name) != [] && Urls.Trim(name) != form.providerName
    requires Urls.Trim(form.apiKey) == form.apiKey != [] && IsHttp(Urls.Norm(form.baseUrl))
    ensures var w1 := Whole(Boot(None), 0, Setup(form, true), true);
            |w1.pool| == 1 &&
            var s := w1.pool[0];
            var w2 := Whole(w1, 1, Providers(Twin(s, name, None)), true);
            && w2.disk == Some(w2.store) && |w2.pool| == 2 && LiveSpecs(w2.pool)
            && AllowanceOf(meter, w2.pool[0]) == AllowanceOf(meter, w2.pool[1]) == AllowanceOf(meter, s)
            && RateOf(w2.pool, meter, AllowanceOf(meter, s)) == 80
            && !SafeAt(w2.pool, providerWindow, meter, AllowanceOf(meter, s), 40)
  {
    var w1, s := AfterTheClaim(form);
    ClaimedName(form, Urls.Trim(name));
    TwinIsTaken(w1, 0, name, None, meter);
    SoleLaneRate(s, meter);
    AnyLaneCanBeDoubled(w1, 1, 0, Twin(s, name, None), meter, providerWindow);
  }

  lemma {:induction false} SoleLaneRate(s: LaneSpec, meter: Metering)
    ensures RateOf([s], meter, AllowanceOf(meter, s)) == s.rpm
  {
    assert [s][..0] == [];
  }

  lemma {:induction false} AfterTheClaim(form: SetupForm) returns (w: World, s: LaneSpec)
    requires Urls.Trim(form.username) != [] && form.password != []
    ensures w == Whole(Boot(None), 0, Setup(form, true), true) && GoodWorld(w) && Settled(w)
    ensures w.pool == [s] == LaneSpecs(w.store.providers) && w.store == Claimed(EmptyStore(), form)
    ensures s == LaneSpec(form.providerName, Urls.Norm(form.baseUrl), form.apiKey, 40, form.protocol)
  {
    w := Whole(Boot(None), 0, Setup(form, true), true);
    FirstClaim(0, form);
    ClaimedLane(form);
    s := LaneSpec(form.providerName, Urls.Norm(form.baseUrl), form.apiKey, 40, form.protocol);
  }

  lemma {:induction false} ClaimedLane(form: SetupForm)
    ensures LaneSpecs(Claimed(EmptyStore(), form).providers)
         == [LaneSpec(form.providerName, Urls.Norm(form.baseUrl), form.apiKey, 40, form.protocol)]
  {
    var c := Claimed(EmptyStore(), form);
    var p := c.providers[0];
    Urls.NormIsNormal(form.baseUrl);
    assert c.providers == [p];
    SoleLane(p);
  }

  lemma {:induction false} ClaimedName(form: SetupForm, name: string)
    ensures HasProvider(Claimed(EmptyStore(), form).providers, name) <==> name == form.providerName
  {
    assert Claimed(EmptyStore(), form).providers[0].name == form.providerName;
  }
}
