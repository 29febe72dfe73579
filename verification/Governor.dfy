/** One model's pressure governor: the evidence it keeps, when it cuts, grows and dissolves,
    and the permits it counts. Times are milliseconds. */
module Governor {
  import opened Basics

  const EVIDENCE_WINDOW: nat := 10 * SECOND
  const KEYS_TO_INDICT: nat := 2
  const DISSOLVE_AFTER: nat := 600 * SECOND
  const ADJUST_COOLDOWN: nat := 5 * SECOND
  const MIN_LIMIT: nat := 2
  const GROW_INTERVAL: nat := 60 * SECOND

  type Rebuff = (Instant, nat)

  /** `limit` 0 means ungoverned. */
  datatype ModelState = ModelState(limit: nat, inflight: nat, rebuffs: seq<Rebuff>,
                                   lastRebuff: Option<Instant>, lastAdjusted: Option<Instant>)

  const UNGOVERNED := ModelState(0, 0, [], None, None)

  /** `now.duration_since(at)`, which saturates. */
  function Since(now: Instant, at: Instant): nat {
    if at <= now then now - at else 0
  }

  predicate AtLeastSince(at: Option<Instant>, now: Instant, span: nat) {
    at.Some? && Since(now, at.value) >= span
  }

  function IsRecent(now: Instant): Rebuff -> bool {
    (r: Rebuff) => Since(now, r.0) < EVIDENCE_WINDOW
  }

  function Recent(rebuffs: seq<Rebuff>, now: Instant): seq<Rebuff> {
    Filter(rebuffs, IsRecent(now))
  }

  // ---- Distinct keys: sort, remove adjacent duplicates, count ----

  function Insert(x: nat, s: seq<nat>): seq<nat> {
    if s == [] then [x]
    else
      var n := |s| - 1;
      if s[n] <= x then s + [x] else Insert(x, s[..n]) + [s[n]]
  }

  function Sort(s: seq<nat>): seq<nat> {
    if s == [] then [] else Insert(s[|s| - 1], Sort(s[..|s| - 1]))
  }

  function Dedup(s: seq<nat>): seq<nat> {
    if |s| < 2 then s
    else
      var n := |s| - 1;
      Dedup(s[..n]) + if s[n - 1] == s[n] then [] else [s[n]]
  }

  function Lanes(rebuffs: seq<Rebuff>): (lanes: seq<nat>)
    ensures |lanes| == |rebuffs| && forall i :: 0 <= i < |lanes| ==> lanes[i] == rebuffs[i].1
  {
    seq(|rebuffs|, i requires 0 <= i < |rebuffs| => rebuffs[i].1)
  }

  function ImplicatedKeys(rebuffs: seq<Rebuff>): nat {
    |Dedup(Sort(Lanes(rebuffs)))|
  }

  lemma {:induction false} InsertSorts(x: nat, s: seq<nat>)
    requires Sorted(s)
    ensures Sorted(Insert(x, s))
    ensures forall y :: y in Insert(x, s) <==> y == x || y in s
  {
    if s != [] {
      var n := |s| - 1;
      assert s == s[..n] + [s[n]];
      if s[n] > x {
        var front := Insert(x, s[..n]);
        InsertSorts(x, s[..n]);
        forall j | 0 <= j < |front| ensures front[j] <= s[n] {
          assert front[j] in front;
        }
      }
    }
  }

  lemma {:induction false} SortSorts(s: seq<nat>)
    ensures Sorted(Sort(s))
    ensures forall y :: y in Sort(s) <==> y in s
  {
    if s != [] {
      var n := |s| - 1;
      SortSorts(s[..n]);
      InsertSorts(s[n], Sort(s[..n]));
      assert s == s[..n] + [s[n]];
    }
  }

  ghost function Members(s: seq<nat>): set<nat> {
    set x | x in s
  }

  lemma {:induction false} DedupCounts(s: seq<nat>)
    requires Sorted(s)
    ensures |Dedup(s)| == |Members(s)|
  {
    if |s| == 1 {
      assert Members(s) == {s[0]};
    } else if |s| > 1 {
      DedupCounts(s[..|s| - 1]);
      MembersOfFront(s);
    }
  }

  lemma {:induction false} MembersOfFront(s: seq<nat>)
    requires Sorted(s) && |s| > 1
    ensures var n := |s| - 1; |Members(s)| == |Members(s[..n])| + if s[n - 1] == s[n] then 0 else 1
  {
    var n := |s| - 1;
    var front := s[..n];
    assert s == front + [s[n]];
    assert Members(s) == Members(front) + {s[n]};
    if s[n - 1] == s[n] {
      assert front[n - 1] == s[n];
      assert Members(s) == Members(front);
    } else {
      assert s[n] !in front;
    }
  }

  ghost function LaneSet(rebuffs: seq<Rebuff>): set<nat> {
    set r | r in rebuffs :: r.1
  }

  /** Sort-dedup-count is the number of distinct lanes. */
  lemma {:induction false} ImplicatedKeysCountsLanes(rebuffs: seq<Rebuff>)
    ensures ImplicatedKeys(rebuffs) == |LaneSet(rebuffs)|
  {
    var lanes := Lanes(rebuffs);
    SortSorts(lanes);
    DedupCounts(Sort(lanes));
    forall r | r in rebuffs ensures r.1 in lanes {
      var i :| 0 <= i < |rebuffs| && rebuffs[i] == r;
      assert lanes[i] == r.1;
    }
    forall x | x in lanes ensures x in LaneSet(rebuffs) {
      var i :| 0 <= i < |lanes| && lanes[i] == x;
      assert rebuffs[i] in rebuffs;
    }
    assert Members(Sort(lanes)) == LaneSet(rebuffs);
  }

  // ---- What each locked step does to a model ----

  function BackedOff(inflight: nat): nat {
    var half := (if inflight < 1 then 1 else inflight) / 2;
    if half < MIN_LIMIT then MIN_LIMIT else half
  }

  /** The cap a rebuff leaves: unchanged without fresh evidence from two keys, within the cut
      cooldown, or while our own gate was not what was binding. */
  function CutLimit(s: ModelState, evidence: seq<Rebuff>, now: Instant): nat {
    var justAdjusted := s.lastAdjusted.Some? && Since(now, s.lastAdjusted.value) < ADJUST_COOLDOWN;
    var binding := s.limit == 0 || s.inflight >= s.limit;
    if ImplicatedKeys(evidence) >= KEYS_TO_INDICT && !justAdjusted && binding then
      if s.limit == 0 || BackedOff(s.inflight) < s.limit then BackedOff(s.inflight) else s.limit
    else s.limit
  }

  function Rebuffed(s: ModelState, lane: nat, now: Instant): ModelState {
    var evidence := Recent(s.rebuffs, now) + [(now, lane)];
    var limit := CutLimit(s, evidence, now);
    ModelState(limit, s.inflight, evidence, Some(now), if limit != s.limit then Some(now) else s.lastAdjusted)
  }

  function LastMoved(s: ModelState): Option<Instant> {
    if s.lastAdjusted.Some? then s.lastAdjusted else s.lastRebuff
  }

  /** The state after reading the cap: dissolved after a long quiet, or grown by one. */
  function Consulted(s: ModelState, now: Instant): ModelState {
    if AtLeastSince(s.lastRebuff, now, DISSOLVE_AFTER) then
      ModelState(0, s.inflight, [], None, None)
    else if s.limit > 0 && AtLeastSince(LastMoved(s), now, GROW_INTERVAL) then
      s.(limit := s.limit + 1, lastAdjusted := Some(now))
    else s
  }

  /** The operator's report dissolves too, but leaves `lastAdjusted` as it was. */
  function Reported(s: ModelState, now: Instant): ModelState {
    if AtLeastSince(s.lastRebuff, now, DISSOLVE_AFTER) then
      s.(limit := 0, rebuffs := [], lastRebuff := None)
    else s
  }

  /** An admission at `t` reads the same cap from either state, and counts the same permits. */
  ghost predicate ReadsAlike(s: ModelState, s': ModelState, t: Instant) {
    Consulted(s, t).limit == Consulted(s', t).limit && s.inflight == s'.inflight
  }

  /** A report changes nothing that an admission reads, then or at any later time, unless a
      rebuff comes first. */
  lemma {:induction false} ReportsAreInvisibleToAdmission(s: ModelState, now: Instant, t: Instant)
    requires now <= t
    ensures ReadsAlike(Reported(s, now), s, t)
  {
  }

  predicate Refuses(s: ModelState, cap: nat) {
    cap > 0 && s.inflight >= cap
  }

  function Admitted(s: ModelState): ModelState {
    s.(inflight := s.inflight + 1)
  }

  function Released(s: ModelState): ModelState {
    s.(inflight := if s.inflight > 0 then s.inflight - 1 else 0)
  }

  type Models = map<string, ModelState>

  function StateOf(models: Models, model: string): ModelState {
    if model in models then models[model] else UNGOVERNED
  }

  /** The shared map of models; every method is one hold of its lock. */
  class Governor {
    var models: Models

    constructor ()
      ensures models == map[]
    {
      models := map[];
    }

    /** Record that `model` was rebuffed while being served by `lane`. */
    method NoteRebuff(model: string, lane: nat, now: Instant)
      modifies this
      ensures models == old(models)[model := Rebuffed(StateOf(old(models), model), lane, now)]
    {
      var state := StateOf(models, model);
      state := state.(rebuffs := Recent(state.rebuffs, now));
      state := state.(rebuffs := state.rebuffs + [(now, lane)], lastRebuff := Some(now));
      var justAdjusted := state.lastAdjusted.Some? && Since(now, state.lastAdjusted.value) < ADJUST_COOLDOWN;
      var binding := state.limit == 0 || state.inflight >= state.limit;
      if ImplicatedKeys(state.rebuffs) >= KEYS_TO_INDICT && !justAdjusted && binding {
        var observed := if state.inflight < 1 then 1 else state.inflight;
        var backedOff := if observed / 2 < MIN_LIMIT then MIN_LIMIT else observed / 2;
        var was := state.limit;
        state := state.(limit := if was == 0 then backedOff else if was < backedOff then was else backedOff);
        if state.limit != was {
          state := state.(lastAdjusted := Some(now));
        }
      }
      models := models[model := state];
    }

    /** The cap on `model`, 0 when ungoverned; dissolves or grows it on the way. */
    method Limit(model: string, now: Instant) returns (limit: nat)
      modifies this
      ensures limit == Consulted(StateOf(old(models), model), now).limit
      ensures models == if model in old(models) then old(models)[model := Consulted(old(models)[model], now)]
                        else old(models)
    {
      if model !in models {
        return 0;
      }
      var state := models[model];
      if state.lastRebuff.Some? && Since(now, state.lastRebuff.value) >= DISSOLVE_AFTER {
        models := models[model := ModelState(0, state.inflight, [], None, None)];
        return 0;
      }
      if state.limit > 0 {
        var since := if state.lastAdjusted.Some? then state.lastAdjusted else state.lastRebuff;
        if since.Some? && Since(now, since.value) >= GROW_INTERVAL {
          state := state.(limit := state.limit + 1, lastAdjusted := Some(now));
        }
      }
      models := models[model := state];
      return state.limit;
    }

    /** Every model whose cap the next admission would find in force, with that cap as it stands
        and its live concurrency. Models quiet for ten minutes lose their cap and their evidence
        here, but admissions are none the wiser. */
    method Pressured(now: Instant) returns (out: map<string, (nat, nat)>)
      modifies this
      ensures models.Keys == old(models).Keys
      ensures forall m :: m in models ==>
                var was := old(models)[m];
                models[m] == if AtLeastSince(was.lastRebuff, now, DISSOLVE_AFTER)
                             then ModelState(0, was.inflight, [], None, was.lastAdjusted)
                             else was
      ensures forall m :: m in out <==> m in old(models) && Consulted(old(models)[m], now).limit > 0
      ensures forall m :: m in out ==> models[m] == old(models)[m] && out[m] == (models[m].limit, models[m].inflight)
      ensures forall m :: m in models && m !in out ==> models[m].limit == 0
      ensures forall m, t: Instant :: m in models && now <= t ==> ReadsAlike(models[m], old(models)[m], t)
    {
      models := map m | m in models :: Reported(models[m], now);
      out := map m | m in models && models[m].limit > 0 :: (models[m].limit, models[m].inflight);
      forall m, t: Instant | m in models && now <= t ensures ReadsAlike(models[m], old(models)[m], t) {
        ReportsAreInvisibleToAdmission(old(models)[m], now, t);
      }
    }

    /** The second half of an admission: take a slot unless the cap read earlier is full. */
    method Claim(model: string, limit: nat) returns (admitted: bool)
      modifies this
      ensures admitted <==> !Refuses(StateOf(old(models), model), limit)
      ensures var was := StateOf(old(models), model);
              models == old(models)[model := if admitted then Admitted(was) else was]
    {
      var state := StateOf(models, model);
      models := models[model := state];
      if limit > 0 && state.inflight >= limit {
        return false;
      }
      models := models[model := state.(inflight := state.inflight + 1)];
      return true;
    }

    /** A permit's drop. */
    method Release(model: string)
      modifies this
      ensures models == if model in old(models) then old(models)[model := Released(old(models)[model])] else old(models)
    {
      if model in models {
        var state := models[model];
        models := models[model := state.(inflight := if state.inflight >= 1 then state.inflight - 1 else 0)];
      }
    }
  }
}
