/** The dispatcher: scan every lane, choose one with room, or sleep until the soonest one
    could have room. One caller at a time runs this, holding the fairness gate. */
module Dispatch {
  import opened Basics
  import opened Windows
  import opened Pools
  import opened Pacing
  import opened Rendezvous

  datatype Request = Request(provider: Option<string>, exclude: seq<nat>, session: Option<nat>,
                             protocol: Option<Protocol>)

  datatype Permit = Permit(laneIdx: nat, provider: string, baseUrl: string, key: string, protocol: Protocol)

  predicate Eligible(spec: LaneSpec, i: nat, q: Request) {
    && (q.provider.Some? ==> spec.provider == q.provider.value)
    && (q.protocol.Some? ==> spec.protocol == q.protocol.value)
    && i !in q.exclude
  }

  ghost predicate AnyEligible(pool: PoolView, q: Request) {
    exists i :: 0 <= i < |pool| && Eligible(pool[i].spec, i, q)
  }

  /** When a lane without room should be looked at again. */
  function BlockedUntil(v: LaneView, now: Instant): Instant {
    if v.Benched(now) then v.cooldown.value
    else
      var kept := Pruned(v.hits, v.window, now);
      (if kept == [] then now else kept[0]) + v.window
  }

  /** What a scan learns from one lane: its load if it has room, else when to look again. */
  datatype Reading = Skipped | Room(load: nat) | Held(until: Instant)

  ghost function Read(v: LaneView, i: nat, q: Request, now: Instant): Reading {
    if !Eligible(v.spec, i, q) then Skipped
    else if v.HasRoom(now) then Room(v.Load(now))
    else Held(BlockedUntil(v, now))
  }

  ghost function ReadAll(pool: PoolView, q: Request, now: Instant): (rs: seq<Reading>)
    ensures |rs| == |pool| && forall i :: 0 <= i < |pool| ==> rs[i] == Read(pool[i], i, q, now)
  {
    seq(|pool|, i requires 0 <= i < |pool| => Read(pool[i], i, q, now))
  }

  /** What a scan has gathered so far: the earliest moment a held lane should be looked at
      again, whether any lane was eligible, and (load, index) of each lane with room. */
  datatype Tally = Tally(soonest: Option<Instant>, eligible: bool, room: seq<(nat, nat)>)
  {
    function Note(r: Reading, idx: nat): Tally {
      match r
      case Skipped => this
      case Room(load) => Tally(soonest, true, room + [(load, idx)])
      case Held(until) => Tally(if soonest.Some? && soonest.value <= until then soonest else Some(until), true, room)
    }
  }

  ghost function TallyOf(rs: seq<Reading>, n: nat): Tally
    requires n <= |rs|
  {
    if n == 0 then Tally(None, false, []) else TallyOf(rs, n - 1).Note(rs[n - 1], n - 1)
  }

  /** `room` lists exactly the lanes with room, in lane order; `soonest` is the least time
      among the held ones; `eligible` says whether any lane was not skipped. */
  lemma {:induction false} TallyIsExact(rs: seq<Reading>, n: nat)
    requires n <= |rs|
    ensures var t := TallyOf(rs, n);
      && (forall k :: 0 <= k < |t.room| ==> t.room[k].1 < n && rs[t.room[k].1] == Room(t.room[k].0))
      && (forall k, l :: 0 <= k < l < |t.room| ==> t.room[k].1 < t.room[l].1)
      && (forall i :: 0 <= i < n && rs[i].Room? ==> (rs[i].load, i) in t.room)
      && (t.soonest.Some? ==> exists i: nat :: i < n && rs[i] == Held(t.soonest.value))
      && (forall i: nat :: i < n && rs[i].Held? ==> t.soonest.Some? && t.soonest.value <= rs[i].until)
      && (t.eligible <==> exists i :: 0 <= i < n && !rs[i].Skipped?)
      && (t.room == [] ==> forall i :: 0 <= i < n ==> !rs[i].Room?)
  {
    if n > 0 {
      TallyIsExact(rs, n - 1);
      assert rs[n - 1].Held? ==> rs[n - 1] == Held(rs[n - 1].until);
    }
  }

  function Indices(room: seq<(nat, nat)>): (r: seq<nat>)
    ensures |r| == |room| && forall k :: 0 <= k < |room| ==> r[k] == room[k].1
  {
    seq(|room|, k requires 0 <= k < |room| => room[k].1)
  }

  /** Tuple order: emptier first, then lower index. */
  predicate NoEmptier(a: (nat, nat), b: (nat, nat)) {
    a.0 < b.0 || (a.0 == b.0 && a.1 <= b.1)
  }

  ghost predicate IsEmptiest(room: seq<(nat, nat)>, idx: nat) {
    exists k | 0 <= k < |room| :: room[k].1 == idx && forall l :: 0 <= l < |room| ==> NoEmptier(room[k], room[l])
  }

  function Emptiest(room: seq<(nat, nat)>): (r: Option<nat>)
    ensures r.None? <==> room == []
    ensures r.Some? ==> IsEmptiest(room, r.value)
  {
    if room == [] then None else Some(EmptiestPair(room).1)
  }

  function EmptiestPair(room: seq<(nat, nat)>): (best: (nat, nat))
    requires room != []
    ensures best in room && forall l :: 0 <= l < |room| ==> NoEmptier(best, room[l])
  {
    if |room| == 1 then room[0]
    else
      var rest := EmptiestPair(room[1..]);
      assert forall l :: 0 < l < |room| ==> room[l] == room[1..][l - 1];
      if NoEmptier(room[0], rest) then room[0] else rest
  }

  /** The session's own lane if it has room, else the emptiest lane with room. */
  function Choose(weigh: Weigh, ids: seq<LaneId>, session: Option<nat>, room: seq<(nat, nat)>): (r: Option<nat>)
    requires Candidates(ids, Indices(room))
    ensures r.None? <==> room == []
    ensures r.Some? ==> r.value in Indices(room)
  {
    match session
    case Some(s) => AffinityAmong(weigh, s, ids, Indices(room))
    case None =>
      match Emptiest(room)
      case None => None
      case Some(i) =>
        assert IsEmptiest(room, i);
        Some(i)
  }

  ghost function RoomFor(pool: PoolView, q: Request, now: Instant): (room: seq<(nat, nat)>)
    ensures Candidates(Ids(pool), Indices(room))
  {
    TallyIsExact(ReadAll(pool, q, now), |pool|);
    TallyOf(ReadAll(pool, q, now), |pool|).room
  }

  /** The lane a request gets if it is answered at `now`. */
  ghost function BestLane(pool: PoolView, q: Request, weigh: Weigh, now: Instant): (best: Option<nat>)
    ensures best.Some? ==> best.value < |pool|
  {
    Choose(weigh, Ids(pool), q.session, RoomFor(pool, q, now))
  }

  /** What one scan leaves of a lane. */
  function ScannedLane(v: LaneView, i: nat, q: Request, now: Instant): LaneView {
    if Eligible(v.spec, i, q) && !v.Benched(now) then v.(hits := Pruned(v.hits, v.window, now)) else v
  }

  ghost function ScanAll(pool: PoolView, q: Request, now: Instant): (after: PoolView)
    ensures |after| == |pool| && forall i :: 0 <= i < |pool| ==> after[i] == ScannedLane(pool[i], i, q, now)
  {
    seq(|pool|, i requires 0 <= i < |pool| => ScannedLane(pool[i], i, q, now))
  }

  ghost function PermitFor(v: LaneView, i: nat): Permit {
    Permit(i, v.spec.provider, v.spec.baseUrl, v.spec.key, v.spec.protocol)
  }

  // ---- One turn ----

  datatype Outcome = Answer(permit: Option<Permit>) | Sleep(until: Instant)

  /** When no lane names a time, the loop sleeps this long. */
  const FALLBACK_SLEEP: nat := 100

  /** What a scan leads to: grant if the chosen lane still has room; give up if no lane matches;
      otherwise sleep. */
  ghost function Decided(after: PoolView, best: Option<nat>, eligible: bool, soonest: Option<Instant>, now: Instant)
    : (turn: (PoolView, Outcome))
    requires best.Some? ==> best.value < |after|
    ensures |turn.0| == |after|
  {
    if best.Some? && after[best.value].Load(now) < after[best.value].spec.rpm then
      (Taken(after, best.value, now), Answer(Some(PermitFor(after[best.value], best.value))))
    else if !eligible then (after, Answer(None))
    else (after, Sleep(if soonest.Some? then soonest.value else now + FALLBACK_SLEEP))
  }

  /** One pass of the wait loop. */
  ghost function TurnOf(pool: PoolView, q: Request, weigh: Weigh, now: Instant): (turn: (PoolView, Outcome))
    ensures |turn.0| == |pool|
  {
    Decided(ScanAll(pool, q, now), BestLane(pool, q, weigh, now), AnyEligible(pool, q),
            TallyOf(ReadAll(pool, q, now), |pool|).soonest, now)
  }

  // ---- What waiting does to a lane ----

  lemma {:induction false} ForgettingIsInvisible(v: LaneView, v': LaneView, now: Instant, t: Instant)
    requires v.OnlyForgot(v', now) && now <= t
    ensures Pruned(v'.hits, v.window, t) == Pruned(v.hits, v.window, t)
    ensures v'.HasRoom(t) <==> v.HasRoom(t)
    ensures v'.Load(t) == v.Load(t) && v'.Benched(t) == v.Benched(t) && BlockedUntil(v', t) == BlockedUntil(v, t)
  {
    PrunedAfterDrop(v.hits, v'.hits, v.window, now, t);
  }

  lemma {:induction false} ForgotLater(v: LaneView, v': LaneView, v'': LaneView, t1: Instant, t2: Instant)
    requires v.OnlyForgot(v', t1) && v'.OnlyForgot(v'', t2) && t1 <= t2
    ensures v.OnlyForgot(v'', t2)
  {
    DropsCompose(v.hits, v'.hits, v''.hits, v.window, t1, t2);
  }

  /** A blocked lane stays blocked until its time, which is in the future. */
  lemma {:induction false} BlockedStaysBlocked(v: LaneView, now: Instant, t: Instant)
    requires !v.HasRoom(now) && v.spec.rpm > 0
    ensures now < BlockedUntil(v, now)
    ensures now <= t < BlockedUntil(v, now) ==> !v.HasRoom(t)
  {
    PrunedDropsExpired(v.hits, v.window, now);
    if !v.Benched(now) && now <= t {
      PrunedShrinks(v.hits, v.window, now, t);
    }
  }

  /** One lane's part of the wait: its live hits, and one more while it is benched. */
  ghost function LaneBurden(v: LaneView, i: nat, q: Request, now: Instant): nat {
    if Eligible(v.spec, i, q) then v.Load(now) + (if v.Benched(now) then 1 else 0) else 0
  }

  ghost function Burden(pool: PoolView, q: Request, now: Instant, n: nat): nat
    requires n <= |pool|
  {
    if n == 0 then 0 else Burden(pool, q, now, n - 1) + LaneBurden(pool[n - 1], n - 1, q, now)
  }

  lemma {:induction false} LaneBurdenFalls(v: LaneView, i: nat, q: Request, now: Instant, wake: Instant)
    requires now <= wake
    ensures LaneBurden(v, i, q, wake) <= LaneBurden(v, i, q, now)
    ensures Eligible(v.spec, i, q) && !v.HasRoom(now) && v.spec.rpm > 0 && BlockedUntil(v, now) <= wake
            ==> LaneBurden(v, i, q, wake) < LaneBurden(v, i, q, now)
  {
    PrunedDropsExpired(v.hits, v.window, now);
    PrunedShrinks(v.hits, v.window, now, wake);
  }

  lemma {:induction false} BurdenFalls(pool: PoolView, q: Request, now: Instant, wake: Instant, n: nat, woken: nat)
    requires n <= |pool| && now <= wake
    ensures Burden(pool, q, wake, n) <= Burden(pool, q, now, n)
    ensures woken < n && LaneBurden(pool[woken], woken, q, wake) < LaneBurden(pool[woken], woken, q, now)
            ==> Burden(pool, q, wake, n) < Burden(pool, q, now, n)
  {
    if n > 0 {
      BurdenFalls(pool, q, now, wake, n - 1, woken);
      LaneBurdenFalls(pool[n - 1], n - 1, q, now, wake);
    }
  }

  ghost predicate OnlyForgotAll(pool: PoolView, pool': PoolView, now: Instant) {
    |pool'| == |pool| && forall i :: 0 <= i < |pool| ==> pool[i].OnlyForgot(pool'[i], now)
  }

  lemma {:induction false} ForgettingKeepsBurden(pool: PoolView, pool': PoolView, q: Request, now: Instant, t: Instant,
                                                 n: nat)
    requires OnlyForgotAll(pool, pool', now) && n <= |pool| && now <= t
    ensures Burden(pool', q, t, n) == Burden(pool, q, t, n)
  {
    if n > 0 {
      ForgettingKeepsBurden(pool, pool', q, now, t, n - 1);
      ForgettingIsInvisible(pool[n - 1], pool'[n - 1], now, t);
    }
  }

  lemma {:induction false} ForgettingKeepsReadings(pool: PoolView, pool': PoolView, q: Request, now: Instant)
    requires OnlyForgotAll(pool, pool', now)
    ensures ReadAll(pool', q, now) == ReadAll(pool, q, now)
    ensures Ids(pool') == Ids(pool)
  {
    forall i | 0 <= i < |pool| ensures Read(pool'[i], i, q, now) == Read(pool[i], i, q, now) {
      ForgettingIsInvisible(pool[i], pool'[i], now, now);
    }
  }

  lemma {:induction false} ScanOnlyForgets(pool: PoolView, q: Request, now: Instant)
    ensures OnlyForgotAll(pool, ScanAll(pool, q, now), now)
  {
    forall i | 0 <= i < |pool| ensures pool[i].OnlyForgot(ScanAll(pool, q, now)[i], now) {
      PrunedDropsExpired(pool[i].hits, pool[i].window, now);
    }
  }

  lemma {:induction false} ForgotAllLater(a: PoolView, b: PoolView, c: PoolView, t1: Instant, t2: Instant)
    requires OnlyForgotAll(a, b, t1) && OnlyForgotAll(b, c, t2) && t1 <= t2
    ensures OnlyForgotAll(a, c, t2)
  {
    forall i | 0 <= i < |a| ensures a[i].OnlyForgot(c[i], t2) {
      ForgotLater(a[i], b[i], c[i], t1, t2);
    }
  }

  /** No eligible lane can grant at any time in [from, end). */
  ghost predicate NoRoomDuring(pool: PoolView, q: Request, from: Instant, end: int) {
    forall i, t: Instant :: 0 <= i < |pool| && Eligible(pool[i].spec, i, q) && from <= t < end ==> !pool[i].HasRoom(t)
  }

  /** With no lane free now, none is free before `soonest`; and by that time one hit has left
      a window or one bench has ended. */
  lemma {:induction false} WakeMakesProgress(pool: PoolView, q: Request, now: Instant, wake: Instant)
    requires forall i :: 0 <= i < |pool| ==> pool[i].spec.rpm > 0
    requires RoomFor(pool, q, now) == [] && AnyEligible(pool, q)
    ensures var s := TallyOf(ReadAll(pool, q, now), |pool|).soonest;
      && s.Some? && now < s.value
      && NoRoomDuring(pool, q, now, s.value)
      && (s.value <= wake ==> Burden(pool, q, wake, |pool|) < Burden(pool, q, now, |pool|))
  {
    var rs := ReadAll(pool, q, now);
    TallyIsExact(rs, |pool|);
    var j: nat :| j < |pool| && Eligible(pool[j].spec, j, q);
    assert rs[j].Held?;
    var s := TallyOf(rs, |pool|).soonest.value;
    var w: nat :| w < |pool| && rs[w] == Held(s);
    assert rs[w] == Read(pool[w], w, q, now);
    BlockedStaysBlocked(pool[w], now, now);
    if s <= wake {
      LaneBurdenFalls(pool[w], w, q, now, wake);
      BurdenFalls(pool, q, now, wake, |pool|, w);
    }
    NoneFreeBefore(pool, q, now, s);
  }

  lemma {:induction false} NoneFreeBefore(pool: PoolView, q: Request, now: Instant, end: Instant)
    requires forall i :: 0 <= i < |pool| ==> pool[i].spec.rpm > 0
    requires forall i :: 0 <= i < |pool| ==>
               var r := ReadAll(pool, q, now)[i]; !r.Room? && (r.Held? ==> end <= r.until)
    ensures NoRoomDuring(pool, q, now, end)
  {
    forall i, t: Instant | 0 <= i < |pool| && Eligible(pool[i].spec, i, q) && now <= t < end
      ensures !pool[i].HasRoom(t)
    {
      assert ReadAll(pool, q, now)[i] == Read(pool[i], i, q, now);
      BlockedStaysBlocked(pool[i], now, t);
    }
  }

  /** While nothing is granted, room once there stays. */
  lemma {:induction false} RoomPersists(v: LaneView, t1: Instant, t2: Instant)
    requires v.HasRoom(t1) && t1 <= t2
    ensures v.HasRoom(t2)
  {
    PrunedShrinks(v.hits, v.window, t1, t2);
  }

  lemma {:induction false} NoRoomCarries(first: PoolView, later: PoolView, q: Request, start: Instant, now: Instant,
                                         end: nat)
    requires OnlyForgotAll(first, later, now) && NoRoomDuring(later, q, now, end) && start <= now < end
    ensures NoRoomDuring(first, q, start, end)
  {
    forall i, t: Instant | 0 <= i < |first| && Eligible(first[i].spec, i, q) && start <= t < end
      ensures !first[i].HasRoom(t)
    {
      assert first[i].OnlyForgot(later[i], now);
      var later_t := if t < now then now else t;
      ForgettingIsInvisible(first[i], later[i], now, later_t);
      if first[i].HasRoom(t) {
        RoomPersists(first[i], t, later_t);
      }
    }
  }

  // ---- What an answer is ----

  /** The permit is for the lane the request should get among those with room at `now`. */
  ghost predicate GrantsBest(pool: PoolView, q: Request, weigh: Weigh, now: Instant, permit: Permit) {
    && permit.laneIdx < |pool|
    && permit == PermitFor(pool[permit.laneIdx], permit.laneIdx)
    && Eligible(pool[permit.laneIdx].spec, permit.laneIdx, q)
    && pool[permit.laneIdx].HasRoom(now)
    && BestLane(pool, q, weigh, now) == Some(permit.laneIdx)
  }

  lemma {:induction false} TakingIsAStep(first: PoolView, last: PoolView, idx: nat, now: Instant)
    requires OnlyForgotAll(first, last, now) && idx < |last| && last[idx].HasRoom(now)
    ensures AcquireStep(first, Taken(last, idx, now), now, Some(idx))
    ensures first[idx].HasRoom(now) && PermitFor(first[idx], idx) == PermitFor(last[idx], idx)
  {
    forall i | 0 <= i < |first| ensures LaneStep(first[i], Taken(last, idx, now)[i], now, i == idx) {
      assert first[i].OnlyForgot(last[i], now);
      ForgettingIsInvisible(first[i], last[i], now, now);
    }
  }

  lemma {:induction false} ForgettingIsAStep(first: PoolView, last: PoolView, now: Instant)
    requires OnlyForgotAll(first, last, now)
    ensures AcquireStep(first, last, now, None)
  {
  }

  lemma {:induction false} EligibleIsRead(pool: PoolView, q: Request, now: Instant)
    ensures AnyEligible(pool, q) <==> TallyOf(ReadAll(pool, q, now), |pool|).eligible
  {
    var rs := ReadAll(pool, q, now);
    TallyIsExact(rs, |pool|);
    assert forall i :: 0 <= i < |pool| ==> (Eligible(pool[i].spec, i, q) <==> !rs[i].Skipped?);
  }

  /** The whole contract of one acquire, from `start` to `finish`. No lane matching: `None`, at
      once. Otherwise the best lane, at a moment when it has room; and no eligible lane could
      have granted at any time more than one sleep's overrun earlier. */
  ghost predicate Answered(pool: PoolView, pool': PoolView, q: Request, weigh: Weigh,
                           start: Instant, finish: Instant, slack: nat, permit: Option<Permit>)
  {
    && start <= finish
    && (permit.None? <==> !AnyEligible(pool, q))
    && (permit.None? ==> finish == start)
    && (permit.Some? ==> GrantsBest(pool, q, weigh, finish, permit.value))
    && AcquireStep(pool, pool', finish, if permit.Some? then Some(permit.value.laneIdx) else None)
    && NoRoomDuring(pool, q, start, finish - slack)
  }

  /** The loop's invariant. */
  ghost predicate StillWaiting(first: PoolView, pool: PoolView, q: Request, start: Instant, now: Instant, slack: nat) {
    && start <= now
    && OnlyForgotAll(first, pool, now)
    && NoRoomDuring(first, q, start, now - slack)
    && (now == start || AnyEligible(first, q))
  }

  lemma {:induction false} StillWaitingAtStart(pool: PoolView, q: Request, start: Instant, slack: nat)
    ensures StillWaiting(pool, pool, q, start, start, slack)
  {
  }

  lemma {:induction false} SameEligibility(first: PoolView, pool: PoolView, q: Request, now: Instant)
    requires OnlyForgotAll(first, pool, now)
    ensures AnyEligible(first, q) <==> AnyEligible(pool, q)
  {
    assert forall i :: 0 <= i < |first| ==> first[i].OnlyForgot(pool[i], now);
  }

  lemma {:induction false} BestHasRoom(pool: PoolView, q: Request, weigh: Weigh, now: Instant)
    requires BestLane(pool, q, weigh, now).Some?
    ensures var i := BestLane(pool, q, weigh, now).value;
      && i < |pool| && GrantsBest(pool, q, weigh, now, PermitFor(pool[i], i))
      && ScanAll(pool, q, now)[i].HasRoom(now)
      && PermitFor(ScanAll(pool, q, now)[i], i) == PermitFor(pool[i], i)
  {
    var i := BestLane(pool, q, weigh, now).value;
    var rs := ReadAll(pool, q, now);
    TallyIsExact(rs, |pool|);
    assert i in Indices(RoomFor(pool, q, now));
    var k :| 0 <= k < |RoomFor(pool, q, now)| && RoomFor(pool, q, now)[k].1 == i;
    assert rs[i].Room?;
    PrunedShrinks(pool[i].hits, pool[i].window, now, now);
  }

  /** THE RE-CHECK NEVER FAILS AND THE FALLBACK IS NEVER TAKEN. A turn grants exactly when some
      lane has room, and then the best one; a turn that sleeps does so until a time that a held
      lane named, which lies ahead. */
  lemma {:induction false} TurnsAreSettled(pool: PoolView, q: Request, weigh: Weigh, now: Instant)
    requires forall i :: 0 <= i < |pool| ==> pool[i].spec.rpm > 0
    ensures var (after, outcome) := TurnOf(pool, q, weigh, now);
      && (BestLane(pool, q, weigh, now).Some? <==> outcome.Answer? && outcome.permit.Some?)
      && (outcome.Answer? && outcome.permit.Some? ==> GrantsBest(pool, q, weigh, now, outcome.permit.value))
      && (outcome.Sleep? ==>
            now < outcome.until && TallyOf(ReadAll(pool, q, now), |pool|).soonest == Some(outcome.until))
  {
    var best := BestLane(pool, q, weigh, now);
    if best.Some? {
      BestHasRoom(pool, q, weigh, now);
    } else if AnyEligible(pool, q) {
      WakeMakesProgress(pool, q, now, now);
    }
  }

  /** The three ways a turn can go. */
  lemma {:induction false} TurnGoes(pool: PoolView, q: Request, weigh: Weigh, now: Instant)
    requires forall i :: 0 <= i < |pool| ==> pool[i].spec.rpm > 0
    ensures var best, after, turn := BestLane(pool, q, weigh, now), ScanAll(pool, q, now), TurnOf(pool, q, weigh, now);
      && (best.Some? ==> turn == (Taken(after, best.value, now), Answer(Some(PermitFor(pool[best.value], best.value)))))
      && (best.None? && !AnyEligible(pool, q) ==> turn == (after, Answer(None)))
      && (best.None? && AnyEligible(pool, q) ==>
            var soonest := TallyOf(ReadAll(pool, q, now), |pool|).soonest;
            soonest.Some? && now < soonest.value && turn == (after, Sleep(soonest.value)))
  {
    TurnsAreSettled(pool, q, weigh, now);
    if BestLane(pool, q, weigh, now).Some? {
      BestHasRoom(pool, q, weigh, now);
    }
  }

  lemma {:induction false} AnswerWithPermit(first: PoolView, pool: PoolView, q: Request, weigh: Weigh,
                                            start: Instant, now: Instant, slack: nat, permit: Permit)
    requires StillWaiting(first, pool, q, start, now, slack) && GrantsBest(pool, q, weigh, now, permit)
    ensures Answered(first, Taken(ScanAll(pool, q, now), permit.laneIdx, now), q, weigh, start, now, slack,
            Some(permit))
  {
    BestForTheFirstPool(first, pool, q, weigh, now, permit);
    TakenFromTheFirstPool(first, pool, q, now, permit.laneIdx);
  }

  lemma {:induction false} BestForTheFirstPool(first: PoolView, pool: PoolView, q: Request, weigh: Weigh, now: Instant,
                                               permit: Permit)
    requires OnlyForgotAll(first, pool, now) && GrantsBest(pool, q, weigh, now, permit)
    ensures GrantsBest(first, q, weigh, now, permit) && AnyEligible(first, q)
  {
    var i := permit.laneIdx;
    ForgettingKeepsReadings(first, pool, q, now);
    assert first[i].OnlyForgot(pool[i], now);
    ForgettingIsInvisible(first[i], pool[i], now, now);
  }

  lemma {:induction false} TakenFromTheFirstPool(first: PoolView, pool: PoolView, q: Request, now: Instant, i: nat)
    requires OnlyForgotAll(first, pool, now) && i < |pool| && pool[i].HasRoom(now)
    ensures AcquireStep(first, Taken(ScanAll(pool, q, now), i, now), now, Some(i))
  {
    var after := ScanAll(pool, q, now);
    ScanOnlyForgets(pool, q, now);
    assert pool[i].OnlyForgot(after[i], now);
    ForgettingIsInvisible(pool[i], after[i], now, now);
    ForgotAllLater(first, pool, after, now, now);
    TakingIsAStep(first, after, i, now);
  }

  lemma {:induction false} AnswerWithNone(first: PoolView, pool: PoolView, q: Request, weigh: Weigh,
                                          start: Instant, now: Instant, slack: nat)
    requires StillWaiting(first, pool, q, start, now, slack) && !AnyEligible(pool, q)
    ensures Answered(first, ScanAll(pool, q, now), q, weigh, start, now, slack, None)
  {
    SameEligibility(first, pool, q, now);
    ScanOnlyForgets(pool, q, now);
    ForgotAllLater(first, pool, ScanAll(pool, q, now), now, now);
    ForgettingIsAStep(first, ScanAll(pool, q, now), now);
  }

  /** A sleep to `soonest`, overrun or not, keeps the invariant and lightens the burden. */
  lemma {:induction false} WaitOn(first: PoolView, pool: PoolView, q: Request, start: Instant, now: Instant,
                                  wake: Instant, slack: nat)
    requires forall i :: 0 <= i < |pool| ==> pool[i].spec.rpm > 0
    requires StillWaiting(first, pool, q, start, now, slack)
    requires RoomFor(pool, q, now) == [] && AnyEligible(pool, q)
    requires var s := TallyOf(ReadAll(pool, q, now), |pool|).soonest;
             s.Some? && s.value <= wake <= s.value + slack
    ensures StillWaiting(first, ScanAll(pool, q, now), q, start, wake, slack)
    ensures Burden(ScanAll(pool, q, now), q, wake, |pool|) < Burden(pool, q, now, |pool|)
  {
    var s, after := TallyOf(ReadAll(pool, q, now), |pool|).soonest.value, ScanAll(pool, q, now);
    WakeMakesProgress(pool, q, now, wake);
    ScanOnlyForgets(pool, q, now);
    ForgettingKeepsBurden(pool, after, q, now, wake, |pool|);
    ForgotAllLater(first, pool, after, now, now);
    OnlyForgotAllAtWake(first, after, now, wake);
    SameEligibility(first, pool, q, now);
    NoRoomCarries(first, pool, q, start, now, s);
  }

  lemma {:induction false} OnlyForgotAllAtWake(first: PoolView, pool: PoolView, now: Instant, wake: Instant)
    requires OnlyForgotAll(first, pool, now) && now <= wake
    ensures OnlyForgotAll(first, pool, wake)
  {
    forall i | 0 <= i < |first| ensures first[i].OnlyForgot(pool[i], wake) {
      assert first[i].OnlyForgot(pool[i], now);
    }
  }
}
