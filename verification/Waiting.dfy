/** What an answer means for the one who waited: when it comes, how long it can take, and
    which lane a conversation gets. */
module Waiting {
  import opened Basics
  import opened Windows
  import opened Pools
  import opened Pacing
  import opened RetryAfter
  import opened Rendezvous
  import opened Dispatch

  function Max(a: nat, b: nat): nat {
    if a < b then b else a
  }

  /** Closed form: a lane is free once its cooldown is over and the hit `rpm` from the end has
      left the window. */
  function FreeAt(v: LaneView): Instant
    requires v.spec.rpm > 0
  {
    Max(if v.cooldown.Some? then v.cooldown.value else 0,
        if |v.hits| < v.spec.rpm then 0 else v.hits[|v.hits| - v.spec.rpm] + v.window)
  }

  lemma {:induction false} HasRoomFromFreeAtOn(v: LaneView, t: Instant)
    requires v.spec.rpm > 0 && Sorted(v.hits)
    ensures v.HasRoom(t) <==> FreeAt(v) <= t
  {
    PrunedDropsExpired(v.hits, v.window, t);
    var kept, rpm := Pruned(v.hits, v.window, t), v.spec.rpm;
    if rpm <= |v.hits| {
      var pivot := |v.hits| - rpm;
      var first := |v.hits| - |kept|;
      if rpm <= |kept| {
        assert v.hits[first] == kept[0];
        assert v.hits[first] <= v.hits[pivot];
      } else {
        assert Expired(v.hits[pivot], v.window, t);
      }
    }
  }

  ghost predicate TimeOrdered(pool: PoolView) {
    forall i :: 0 <= i < |pool| ==> pool[i].spec.rpm > 0 && Sorted(pool[i].hits)
  }

  /** NEVER EARLY, NEVER LATE. The answer comes when the granted lane is free, and no later
      than one sleep's overrun after any eligible lane is. With ideal wake-ups that is exactly
      the earliest moment at which any eligible lane is free, or at once if one already is. */
  lemma {:induction false} AnsweredAtTheEarliestMoment(pool: PoolView, pool': PoolView, q: Request, weigh: Weigh,
                                                       start: Instant, finish: Instant, slack: nat, permit: Permit,
                                                       i: nat)
    requires TimeOrdered(pool) && Answered(pool, pool', q, weigh, start, finish, slack, Some(permit))
    requires i < |pool| && Eligible(pool[i].spec, i, q)
    ensures Max(start, FreeAt(pool[permit.laneIdx])) <= finish <= Max(start, FreeAt(pool[i])) + slack
    ensures slack == 0 ==> finish == Max(start, FreeAt(pool[permit.laneIdx]))
  {
    HasRoomFromFreeAtOn(pool[permit.laneIdx], finish);
    forall j: nat | j < |pool| && Eligible(pool[j].spec, j, q) ensures finish <= Max(start, FreeAt(pool[j])) + slack {
      var t := Max(start, FreeAt(pool[j]));
      HasRoomFromFreeAtOn(pool[j], t);
    }
  }

  /** A lane is free at the latest one enforced window from now, if its cooldown ends by then. */
  ghost predicate FreeWithin(v: LaneView, now: Instant, wait: nat) {
    && v.spec.rpm > 0 && v.window <= wait && AllAtMost(v.hits, now)
    && (v.cooldown.Some? ==> v.cooldown.value <= now + wait)
  }

  /** BOUNDED WAITING. Whoever holds the gate is answered within `wait`, and one overrun. */
  lemma {:induction false} AnsweredWithin(pool: PoolView, pool': PoolView, q: Request, weigh: Weigh, start: Instant,
                                          finish: Instant, slack: nat, permit: Option<Permit>, wait: nat)
    requires Answered(pool, pool', q, weigh, start, finish, slack, permit)
    requires forall i :: 0 <= i < |pool| ==> FreeWithin(pool[i], start, wait)
    ensures finish <= start + wait + slack
  {
    if AnyEligible(pool, q) {
      var i: nat :| i < |pool| && Eligible(pool[i].spec, i, q);
      var v, t := pool[i], start + wait;
      AllExpiredAreGone(v.hits, v.window, t);
      assert v.HasRoom(t);
    }
  }

  function EligibleLanes(pool: PoolView, q: Request, n: nat): (r: seq<nat>)
    requires n <= |pool|
    ensures forall i: nat :: i in r <==> i < n && Eligible(pool[i].spec, i, q)
    ensures Candidates(Ids(pool), r)
    ensures forall k :: 0 <= k < |r| ==> r[k] < n
  {
    if n == 0 then []
    else
      var before := EligibleLanes(pool, q, n - 1);
      var last: seq<nat> := if Eligible(pool[n - 1].spec, n - 1, q) then [n - 1] else [];
      assert forall i: nat :: i in last <==> i == n - 1 && Eligible(pool[i].spec, i, q);
      assert forall k :: 0 <= k < |before| ==> before[k] in before;
      before + last
  }

  /** The eligible lane a session's hash prefers, whether or not it has room. */
  function OwnLane(pool: PoolView, q: Request, weigh: Weigh, session: nat): (own: Option<nat>)
    ensures own.Some? ==> own.value < |pool| && own.value in EligibleLanes(pool, q, |pool|)
  {
    AffinityAmong(weigh, session, Ids(pool), EligibleLanes(pool, q, |pool|))
  }

  /** A CONVERSATION KEEPS ITS LANE. A session is granted the eligible lane its hash prefers if
      and only if that lane has room when the answer comes. */
  lemma {:induction false} StickySessionGetsItsLane(pool: PoolView, pool': PoolView, q: Request, weigh: Weigh,
                                                    start: Instant, finish: Instant, slack: nat, permit: Option<Permit>,
                                                    session: nat)
    requires Answered(pool, pool', q, weigh, start, finish, slack, permit) && q.session == Some(session)
    ensures permit.Some? ==>
              var own := OwnLane(pool, q, weigh, session);
              own.Some? && (permit.value.laneIdx == own.value <==> pool[own.value].HasRoom(finish))
  {
    if permit.Some? {
      var all, room := EligibleLanes(pool, q, |pool|), Indices(RoomFor(pool, q, finish));
      assert permit.value.laneIdx in all;
      var own := OwnLane(pool, q, weigh, session).value;
      if pool[own].HasRoom(finish) {
        RoomIsAmongEligible(pool, q, finish, own);
        NarrowingKeepsTheLane(weigh, session, Ids(pool), all, room);
      }
    }
  }

  lemma {:induction false} RoomIsAmongEligible(pool: PoolView, q: Request, now: Instant, own: nat)
    requires own in EligibleLanes(pool, q, |pool|) && own < |pool| && pool[own].HasRoom(now)
    ensures var room := Indices(RoomFor(pool, q, now));
      own in room && forall c :: c in room ==> c in EligibleLanes(pool, q, |pool|)
  {
    var room := RoomFor(pool, q, now);
    forall c | c in Indices(room) ensures c in EligibleLanes(pool, q, |pool|) {
      var k :| 0 <= k < |room| && Indices(room)[k] == c;
      RoomIsRead(pool, q, now, k);
    }
    RoomIsListed(pool, q, now, own);
    var k :| 0 <= k < |room| && room[k] == (pool[own].Load(now), own);
    assert Indices(room)[k] == own;
  }

  /** FREE CHOICE IS EMPTIEST. Without a session the granted lane carries no more load than any
      other eligible lane with room, and comes before the others that carry as little. */
  lemma {:induction false} UnpinnedRequestGetsTheEmptiestLane(pool: PoolView, pool': PoolView, q: Request, weigh: Weigh,
                                                              start: Instant, finish: Instant, slack: nat,
                                                              permit: Permit, i: nat)
    requires Answered(pool, pool', q, weigh, start, finish, slack, Some(permit)) && q.session == None
    requires i < |pool| && Eligible(pool[i].spec, i, q) && pool[i].HasRoom(finish)
    ensures permit.laneIdx < |pool| && pool[permit.laneIdx].Load(finish) <= pool[i].Load(finish)
    ensures pool[permit.laneIdx].Load(finish) == pool[i].Load(finish) ==> permit.laneIdx <= i
  {
    EmptiestIsNoEmptier(pool, q, finish, permit.laneIdx, i);
  }

  lemma {:induction false} EmptiestIsNoEmptier(pool: PoolView, q: Request, now: Instant, best: nat, i: nat)
    requires best < |pool| && IsEmptiest(RoomFor(pool, q, now), best)
    requires i < |pool| && Eligible(pool[i].spec, i, q) && pool[i].HasRoom(now)
    ensures NoEmptier((pool[best].Load(now), best), (pool[i].Load(now), i))
  {
    var room := RoomFor(pool, q, now);
    RoomIsListed(pool, q, now, i);
    var k :| 0 <= k < |room| && room[k].1 == best && forall l :: 0 <= l < |room| ==> NoEmptier(room[k], room[l]);
    RoomIsRead(pool, q, now, k);
    var l :| 0 <= l < |room| && room[l] == (pool[i].Load(now), i);
  }

  lemma {:induction false} RoomIsListed(pool: PoolView, q: Request, now: Instant, i: nat)
    requires i < |pool| && Eligible(pool[i].spec, i, q) && pool[i].HasRoom(now)
    ensures (pool[i].Load(now), i) in RoomFor(pool, q, now)
  {
    var rs := ReadAll(pool, q, now);
    TallyIsExact(rs, |pool|);
    assert rs[i] == Room(pool[i].Load(now));
  }

  lemma {:induction false} RoomIsRead(pool: PoolView, q: Request, now: Instant, k: nat)
    requires k < |RoomFor(pool, q, now)|
    ensures var (load, i) := RoomFor(pool, q, now)[k];
      i < |pool| && Eligible(pool[i].spec, i, q) && load == pool[i].Load(now)
  {
    TallyIsExact(ReadAll(pool, q, now), |pool|);
  }

  /** The longest wait for a free lane: a whole enforced window, or the longest bench. */
  function Longest(window: nat): nat {
    Max(window, LONGEST_BENCH)
  }

  lemma {:induction false} OrderlyIsFreeInTime(pool: PoolView, window: nat, clock: Instant, now: Instant)
    requires Orderly(pool, window, clock) && clock <= now
    ensures forall i :: 0 <= i < |pool| ==> FreeWithin(pool[i], now, Longest(window))
  {
    forall i | 0 <= i < |pool| ensures FreeWithin(pool[i], now, Longest(window)) {
      assert OrderlyLane(pool[i], window, clock);
    }
  }

  /** In every state of every run, each lane is free within the enforced window: with a provider
      window of 60 s, within 61 s. */
  lemma {:induction false} EveryLaneIsFreeInTime(r: Run, k: nat)
    requires r.Valid() && k <= |r.events|
    ensures forall i :: 0 <= i < |r.states[k]| ==> FreeWithin(r.states[k][i], r.Clock(k), Longest(r.window))
    ensures Longest(PROVIDER_WINDOW + JITTER_MARGIN) == 61 * SECOND
  {
    StatesAreOrderly(r, k);
    OrderlyIsFreeInTime(r.states[k], r.window, r.Clock(k), r.Clock(k));
  }

  /** So, whatever the pool has been through, the holder of the gate is answered within 61 s and
      one overrun of reaching it. */
  lemma {:induction false} HeadAnsweredInTime(r: Run, k: nat, pool': PoolView, q: Request, weigh: Weigh, start: Instant,
                                              finish: Instant, slack: nat, permit: Option<Permit>)
    requires r.Valid() && k <= |r.events| && r.Clock(k) <= start
    requires Answered(r.states[k], pool', q, weigh, start, finish, slack, permit)
    ensures finish <= start + Longest(r.window) + slack
    ensures r.window == PROVIDER_WINDOW + JITTER_MARGIN ==> finish <= start + 61 * SECOND + slack
  {
    StatesAreOrderly(r, k);
    OrderlyIsFreeInTime(r.states[k], r.window, r.Clock(k), start);
    AnsweredWithin(r.states[k], pool', q, weigh, start, finish, slack, permit, Longest(r.window));
  }

  // ---- A queue of waiters ----

  /** One caller in the queue: what it asks for, and after how many turns at the gate it gives
      up. `None` never does; 0 has gone before its turn comes. */
  datatype Waiter = Waiter(q: Request, stay: Option<nat>)

  datatype Reply = Served(permit: Option<Permit>) | GaveUp

  /** An answer leaves the pool as orderly as it found it, and comes in time. */
  lemma {:induction false} AnswerInTime(pool: PoolView, pool': PoolView, q: Request, weigh: Weigh, began: Instant,
                                        finish: Instant, slack: nat, permit: Option<Permit>, window: nat)
    requires Orderly(pool, window, began) && Answered(pool, pool', q, weigh, began, finish, slack, permit)
    ensures Orderly(pool', window, finish) && Specs(pool') == Specs(pool)
    ensures began <= finish <= began + Longest(window) + slack
  {
    var granted := if permit.Some? then Some(permit.value.laneIdx) else None;
    AcquireKeepsOrder(pool, pool', finish, granted, window, began);
    OrderlyIsFreeInTime(pool, window, began, began);
    AnsweredWithin(pool, pool', q, weigh, began, finish, slack, permit, Longest(window));
  }

  /** And so does giving up. */
  lemma {:induction false} GivingUpInTime(pool: PoolView, pool': PoolView, q: Request, began: Instant, finish: Instant,
                                          slack: nat, window: nat)
    requires Orderly(pool, window, began) && StillWaiting(pool, pool', q, began, finish, slack)
    ensures Orderly(pool', window, finish) && Specs(pool') == Specs(pool)
    ensures began <= finish <= began + Longest(window) + slack
  {
    ForgettingIsAStep(pool, pool', finish);
    AcquireKeepsOrder(pool, pool', finish, None, window, began);
    OrderlyIsFreeInTime(pool, window, began, began);
    if began < finish {
      var i: nat :| i < |pool| && Eligible(pool[i].spec, i, q);
      var v, t := pool[i], began + Longest(window);
      assert FreeWithin(v, began, Longest(window));
      AllExpiredAreGone(v.hits, v.window, t);
      assert v.HasRoom(t);
    }
  }

  lemma {:induction false} SameSpecsSameEligibility(a: PoolView, b: PoolView, q: Request)
    requires Specs(a) == Specs(b)
    ensures AnyEligible(a, q) <==> AnyEligible(b, q)
  {
    assert forall i :: 0 <= i < |a| ==> Specs(a)[i] == Specs(b)[i];
  }
}
