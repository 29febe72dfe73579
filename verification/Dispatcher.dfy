/** The scan-and-sleep loop itself, over live lane objects. */
module Dispatcher {
  import opened Basics
  import opened Windows
  import opened Pools
  import opened Pacing
  import opened Rendezvous
  import opened Dispatch
  import opened Waiting
  import opened Allowances

  /** Wall time as one task sees it. A sleep may overrun, by at most `slack`; with a slack of
      zero wake-ups are ideal. */
  class Clock {
    var now: Instant
    const slack: nat

    constructor (start: Instant, slack: nat)
      ensures now == start && this.slack == slack
    {
      now, this.slack := start, slack;
    }

    method Sleep(wait: nat)
      modifies this
      ensures old(now) + wait <= now <= old(now) + wait + slack
    {
      var late: nat :| late <= slack;
      now := now + wait + late;
    }
  }

  class Dispatcher {
    const pool: Pool
    const weigh: Weigh

    constructor (pool: Pool, weigh: Weigh)
      ensures this.pool == pool && this.weigh == weigh
    {
      this.pool, this.weigh := pool, weigh;
    }

    /** Look at one lane, pruning it if it is a candidate. */
    method Probe(lane: Lane, idx: nat, q: Request, now: Instant) returns (r: Reading)
      requires lane.Valid() && lane.spec.rpm > 0
      modifies lane.limiter
      ensures lane.View() == ScannedLane(old(lane.View()), idx, q, now)
      ensures r == Read(old(lane.View()), idx, q, now)
    {
      if (q.provider.Some? && lane.spec.provider != q.provider.value)
         || (q.protocol.Some? && lane.spec.protocol != q.protocol.value)
         || idx in q.exclude {
        return Skipped;
      }
      var until := lane.CooldownEnds(now);
      if until.Some? {
        return Held(until.value);
      }
      r := ProbeFree(lane, now);
    }

    /** The rest of the look, at a lane that is not benched. A saturated lane's `TryAcquire`
        records nothing: it only says when the next slot frees. */
    method ProbeFree(lane: Lane, now: Instant) returns (r: Reading)
      requires lane.Valid() && !lane.View().Benched(now)
      modifies lane.limiter
      ensures lane.View() == old(lane.View()).(hits := Pruned(old(lane.limiter.hits), lane.limiter.window, now))
      ensures r == if old(lane.View()).HasRoom(now) then Room(old(lane.View()).Load(now))
                   else Held(BlockedUntil(old(lane.View()), now))
    {
      var load := lane.Load(now);
      if load < lane.spec.rpm {
        return Room(load);
      }
      PrunedTwice(old(lane.limiter.hits), lane.limiter.window, now);
      var tried := lane.TryAcquire(now);
      assert tried.Err?;
      r := Held(tried.error);
    }

    method ProbeAt(idx: nat, q: Request, now: Instant, ghost v0: PoolView) returns (r: Reading)
      requires pool.Valid() && idx < |pool.lanes| == |v0|
      requires pool.lanes[idx].spec.rpm > 0 && pool.lanes[idx].View() == v0[idx]
      modifies pool.limiters
      ensures r == Read(v0[idx], idx, q, now)
      ensures pool.lanes[idx].View() == ScannedLane(v0[idx], idx, q, now)
      ensures forall j :: 0 <= j < |pool.lanes| && j != idx ==> pool.lanes[j].View() == old(pool.lanes[j].View())
    {
      r := Probe(pool.lanes[idx], idx, q, now);
    }

    /** One pass over the lanes: prunes as it reads, records no hit. */
    method Scan(q: Request, now: Instant, ghost v0: PoolView, ghost rs: seq<Reading>, ghost after: PoolView)
      returns (seen: Tally)
      requires pool.Valid() && forall i :: 0 <= i < |pool.lanes| ==> pool.lanes[i].spec.rpm > 0
      requires v0 == pool.View() && rs == ReadAll(v0, q, now) && after == ScanAll(v0, q, now)
      modifies pool.limiters
      ensures seen == TallyOf(rs, |rs|)
      ensures pool.View() == after
    {
      seen := Tally(None, false, []);
      for idx := 0 to |pool.lanes|
        invariant seen == TallyOf(rs, idx)
        invariant forall j :: 0 <= j < idx ==> pool.lanes[j].View() == after[j]
        invariant forall j :: idx <= j < |pool.lanes| ==> pool.lanes[j].View() == v0[j]
      {
        var r := ProbeAt(idx, q, now, v0);
        seen := seen.Note(r, idx);
      }
    }

    method LaneIds() returns (ids: seq<LaneId>)
      requires pool.Valid()
      ensures ids == Ids(pool.View())
    {
      ids := seq(|pool.lanes|, i requires 0 <= i < |pool.lanes| => pool.lanes[i].spec.Id());
    }

    /** Record a hit on the chosen lane, if it still has room. */
    method Take(idx: nat, now: Instant) returns (permit: Option<Permit>)
      requires pool.Valid() && idx < |pool.lanes|
      modifies pool.limiters
      ensures permit.Some? <==> old(pool.View())[idx].Load(now) < pool.lanes[idx].spec.rpm
      ensures permit.Some? ==> permit.value == PermitFor(old(pool.View())[idx], idx)
      ensures permit.Some? ==>
                var p, s := permit.value, pool.lanes[idx].spec;
                p.laneIdx == idx && p.provider == s.provider && p.baseUrl == s.baseUrl && p.key == s.key
                && p.protocol == s.protocol
      ensures permit.Some? ==> pool.View() == Taken(old(pool.View()), idx, now)
    {
      var lane := pool.lanes[idx];
      assert lane.limiter in pool.limiters;
      var got := lane.TryAcquire(now);
      var s := lane.spec;
      permit := if got.Ok? then Some(Permit(idx, s.provider, s.baseUrl, s.key, s.protocol)) else None;
    }

    /** One scan, and a grant if any lane has room. */
    method Attempt(q: Request, now: Instant, ghost v: PoolView) returns (seen: Tally, permit: Option<Permit>)
      requires pool.Valid() && forall i :: 0 <= i < |pool.lanes| ==> pool.lanes[i].spec.rpm > 0
      requires v == pool.View()
      modifies pool.limiters
      ensures seen == TallyOf(ReadAll(v, q, now), |v|)
      ensures permit.None? <==> RoomFor(v, q, now) == []
      ensures permit.Some? ==> GrantsBest(v, q, weigh, now, permit.value)
                               && pool.View() == Taken(ScanAll(v, q, now), permit.value.laneIdx, now)
      ensures permit.None? ==> pool.View() == ScanAll(v, q, now)
    {
      seen := Scan(q, now, v, ReadAll(v, q, now), ScanAll(v, q, now));
      ghost var room := RoomFor(v, q, now);
      var ids := LaneIds();
      assert ids == Ids(v);
      var choice := Choose(weigh, ids, q.session, seen.room);
      permit := None;
      if choice.Some? {
        BestHasRoom(v, q, weigh, now);
        permit := Take(choice.value, now);
        assert permit.Some?;
      }
    }

    /** One turn of the wait, on the pool as it is now: answer, or sleep until the soonest lane
        may have room. The 100 ms fallback is never taken: an eligible lane without room always
        names a time. */
    method Turn(clock: Clock, q: Request, ghost v0: PoolView, ghost start: Instant)
      returns (answered: bool, permit: Option<Permit>)
      requires pool.Valid() && forall i :: 0 <= i < |pool.lanes| ==> pool.lanes[i].spec.rpm > 0
      requires StillWaiting(v0, pool.View(), q, start, clock.now, clock.slack)
      modifies clock, pool.limiters
      ensures var (after, outcome) := old(TurnOf(pool.View(), q, weigh, clock.now));
        && pool.View() == after
        && (answered ==> outcome == Answer(permit) && clock.now == old(clock.now))
        && (!answered ==> outcome.Sleep? && outcome.until <= clock.now <= outcome.until + clock.slack)
      ensures answered ==> Answered(v0, pool.View(), q, weigh, start, clock.now, clock.slack, permit)
      ensures !answered ==> StillWaiting(v0, pool.View(), q, start, clock.now, clock.slack)
      ensures !answered ==> Burden(pool.View(), q, clock.now, |pool.lanes|)
                            < old(Burden(pool.View(), q, clock.now, |pool.lanes|))
    {
      ghost var v := pool.View();
      var now := clock.now;
      EligibleIsRead(v, q, now);
      TurnGoes(v, q, weigh, now);
      var seen, got := Attempt(q, now, v);
      if got.Some? {
        AnswerWithPermit(v0, v, q, weigh, start, now, clock.slack, got.value);
        return true, got;
      }
      if !seen.eligible {
        AnswerWithNone(v0, v, q, weigh, start, now, clock.slack);
        return true, None;
      }
      var wait := if seen.soonest.Some? then seen.soonest.value - now else FALLBACK_SLEEP;
      clock.Sleep(wait);
      WaitOn(v0, v, q, start, now, clock.now, clock.slack);
      return false, None;
    }

    /** Acquire a slot on a lane matching the request, waiting while every eligible lane is
        saturated or benched. `None` at once when no lane is eligible. */
    method AcquireFor(clock: Clock, q: Request) returns (permit: Option<Permit>)
      requires pool.Valid() && forall i :: 0 <= i < |pool.lanes| ==> pool.lanes[i].spec.rpm > 0
      modifies clock, pool.limiters
      ensures Answered(old(pool.View()), pool.View(), q, weigh, old(clock.now), clock.now, clock.slack, permit)
      ensures permit.Some? ==> CarriesItsLane(permit.value, q)
      ensures permit.None? <==> forall i :: 0 <= i < |pool.lanes| ==> !Fits(pool.lanes[i].spec, i, q)
    {
      var reply := AcquireWhile(clock, q, None);
      permit := reply.permit;
      assert forall i :: 0 <= i < |pool.lanes| ==>
          pool.View()[i].spec == pool.lanes[i].spec
          && (Eligible(pool.lanes[i].spec, i, q) <==> Fits(pool.lanes[i].spec, i, q));
    }

    /** The lane is of the provider and the protocol asked for, if any, and is not excluded. */
    ghost predicate Fits(spec: LaneSpec, i: nat, q: Request) {
      && (q.provider == None || q.provider == Some(spec.provider))
      && (q.protocol == None || q.protocol == Some(spec.protocol))
      && forall k :: 0 <= k < |q.exclude| ==> q.exclude[k] != i
    }

    /** The permit carries, field by field, what a fitting lane has: so whatever an upstream goes
        by, its request draws on that lane's allowance. */
    ghost predicate CarriesItsLane(permit: Permit, q: Request) {
      permit.laneIdx < |pool.lanes| &&
      var s := pool.lanes[permit.laneIdx].spec;
      && Fits(s, permit.laneIdx, q)
      && permit.provider == s.provider && permit.baseUrl == s.baseUrl
      && permit.key == s.key && permit.protocol == s.protocol
      && forall meter: Metering :: meter(permit.baseUrl, permit.key, permit.protocol) == AllowanceOf(meter, s)
    }

    /** The same for a caller that gives up after `stay` turns. Giving up records nothing. */
    method AcquireWhile(clock: Clock, q: Request, stay: Option<nat>) returns (reply: Reply)
      requires pool.Valid() && forall i :: 0 <= i < |pool.lanes| ==> pool.lanes[i].spec.rpm > 0
      modifies clock, pool.limiters
      ensures reply.Served? ==>
                Answered(old(pool.View()), pool.View(), q, weigh, old(clock.now), clock.now, clock.slack, reply.permit)
      ensures reply.GaveUp? ==>
                stay.Some? && StillWaiting(old(pool.View()), pool.View(), q, old(clock.now), clock.now, clock.slack)
    {
      ghost var v0, start := pool.View(), clock.now;
      var turns: nat := 0;
      StillWaitingAtStart(v0, q, start, clock.slack);
      while stay != Some(turns)
        invariant StillWaiting(v0, pool.View(), q, start, clock.now, clock.slack)
        decreases Burden(pool.View(), q, clock.now, |pool.lanes|)
      {
        var answered, permit := Turn(clock, q, v0, start);
        if answered {
          return Served(permit);
        }
        turns := turns + 1;
      }
      reply := GaveUp;
    }

    method ServeNext(clock: Clock, w: Waiter, ghost v0: PoolView) returns (reply: Reply)
      requires pool.Valid() && Orderly(pool.View(), pool.window, clock.now)
      requires Specs(pool.View()) == Specs(v0)
      modifies clock, pool.limiters
      ensures Orderly(pool.View(), pool.window, clock.now)
      ensures old(clock.now) <= clock.now <= old(clock.now) + Longest(pool.window) + clock.slack
      ensures Specs(pool.View()) == Specs(v0)
      ensures reply.GaveUp? ==> w.stay.Some?
      ensures reply.Served? ==> (reply.permit.None? <==> !AnyEligible(v0, w.q))
    {
      ghost var v, began := pool.View(), clock.now;
      assert forall i :: 0 <= i < |pool.lanes| ==> OrderlyLane(v[i], pool.window, began);
      reply := AcquireWhile(clock, w.q, w.stay);
      if reply.Served? {
        AnswerInTime(v, pool.View(), w.q, weigh, began, clock.now, clock.slack, reply.permit, pool.window);
      } else {
        GivingUpInTime(v, pool.View(), w.q, began, clock.now, clock.slack, pool.window);
      }
      SameSpecsSameEligibility(v0, v, w.q);
    }

    /** The gate's queue, served in arrival order: each caller starts when the one before it has
        been answered or has given up. From any orderly pool, as every run leaves it, the k-th is
        done within k + 1 longest waits and overruns. */
    method ServeInOrder(clock: Clock, queue: seq<Waiter>) returns (replies: seq<Reply>, doneAt: seq<Instant>)
      requires pool.Valid() && Orderly(pool.View(), pool.window, clock.now)
      modifies clock, pool.limiters
      ensures |replies| == |doneAt| == |queue|
      ensures forall k :: 0 <= k < |queue| ==> RightReply(replies[k], queue[k], old(pool.View()))
      ensures forall k :: 0 <= k < |queue| ==>
              doneAt[k] <= old(clock.now) + Times(k + 1, Longest(pool.window) + clock.slack)
      ensures Sorted(doneAt)
    {
      ghost var v0, start := pool.View(), clock.now;
      replies, doneAt := [], [];
      for k := 0 to |queue|
        invariant |replies| == |doneAt| == k
        invariant Orderly(pool.View(), pool.window, clock.now)
        invariant start <= clock.now <= start + Times(k, Longest(pool.window) + clock.slack)
        invariant Specs(pool.View()) == Specs(v0)
        invariant forall j :: 0 <= j < k ==> RightReply(replies[j], queue[j], v0)
        invariant forall j :: 0 <= j < k ==> doneAt[j] <= start + Times(j + 1, Longest(pool.window) + clock.slack)
        invariant Sorted(doneAt) && AllAtMost(doneAt, clock.now)
      {
        var reply := ServeNext(clock, queue[k], v0);
        replies, doneAt := replies + [reply], doneAt + [clock.now];
      }
    }
  }

  /** A caller that stays is served, with `None` exactly when no lane matches it. */
  ghost predicate RightReply(reply: Reply, w: Waiter, pool: PoolView) {
    && (reply.GaveUp? ==> w.stay.Some?)
    && (reply.Served? ==> (reply.permit.None? <==> !AnyEligible(pool, w.q)))
  }
}
