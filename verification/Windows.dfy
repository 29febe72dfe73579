/** The exact sliding-window limiter: at most `limit` grants per rolling `window`. */
module Windows {
  import opened Basics

  /** A hit at `t` no longer counts at `now` (src/pool.rs: `front <= now - window`). */
  predicate Expired(t: Instant, window: nat, now: Instant) {
    t + window <= now
  }

  /** `kept` is `hits` less a prefix, every dropped hit having expired by `now`. */
  ghost predicate DropsExpired(hits: seq<Instant>, kept: seq<Instant>, window: nat, now: Instant) {
    && |kept| <= |hits|
    && kept == hits[|hits| - |kept|..]
    && forall j :: 0 <= j < |hits| - |kept| ==> Expired(hits[j], window, now)
  }

  /** The hits left once the expired ones have been pruned from the front. */
  function Pruned(hits: seq<Instant>, window: nat, now: Instant): seq<Instant> {
    if hits == [] then []
    else
      var n := |hits| - 1;
      var front := Pruned(hits[..n], window, now);
      if front == [] && Expired(hits[n], window, now) then [] else front + [hits[n]]
  }

  /** Pruning drops an expired prefix and stops at the first hit still in the window. */
  lemma {:induction false} PrunedDropsExpired(hits: seq<Instant>, window: nat, now: Instant)
    ensures var kept := Pruned(hits, window, now);
      && DropsExpired(hits, kept, window, now)
      && (kept != [] ==> !Expired(kept[0], window, now))
  {
    if hits != [] {
      PrunedDropsExpired(hits[..|hits| - 1], window, now);
    }
  }

  lemma {:induction false} AllExpiredAreGone(hits: seq<Instant>, window: nat, now: Instant)
    requires forall i :: 0 <= i < |hits| ==> Expired(hits[i], window, now)
    ensures Pruned(hits, window, now) == []
  {
    if hits != [] {
      AllExpiredAreGone(hits[..|hits| - 1], window, now);
    }
  }

  lemma {:induction false} UnexpiredStay(hits: seq<Instant>, window: nat, now: Instant)
    requires hits != [] ==> !Expired(hits[0], window, now)
    ensures Pruned(hits, window, now) == hits
  {
    if hits != [] {
      var n := |hits| - 1;
      UnexpiredStay(hits[..n], window, now);
      assert hits == hits[..n] + [hits[n]];
    }
  }

  /** How many entries of a complete grant log lie inside the window that ends at `now`.
      This is the provider's question; it never looks at what the limiter retained. */
  ghost function Spent(log: seq<Instant>, window: nat, now: Instant): nat {
    if log == [] then 0
    else
      var n := |log| - 1;
      Spent(log[..n], window, now) + if Expired(log[n], window, now) then 0 else 1
  }

  lemma {:induction false} SpentBounded(log: seq<Instant>, window: nat, now: Instant)
    ensures Spent(log, window, now) <= |log|
    ensures (forall i :: 0 <= i < |log| ==> !Expired(log[i], window, now)) ==> Spent(log, window, now) == |log|
    ensures (forall i :: 0 <= i < |log| ==> Expired(log[i], window, now)) ==> Spent(log, window, now) == 0
  {
    if log != [] {
      SpentBounded(log[..|log| - 1], window, now);
    }
  }

  lemma {:induction false} SpentConcat(a: seq<Instant>, b: seq<Instant>, window: nat, now: Instant)
    ensures Spent(a + b, window, now) == Spent(a, window, now) + Spent(b, window, now)
  {
    if b == [] {
      assert a + b == a;
    } else {
      var n := |b| - 1;
      assert (a + b)[..|a| + n] == a + b[..n];
      SpentConcat(a, b[..n], window, now);
    }
  }

  /** Dropping expired hits never changes what is spent, now or later. */
  lemma {:induction false} SpentAfterDrop(log: seq<Instant>, kept: seq<Instant>, window: nat, earlier: Instant,
                                          now: Instant)
    requires DropsExpired(log, kept, window, earlier) && earlier <= now
    ensures Spent(log, window, now) == Spent(kept, window, now)
  {
    var gone := log[..|log| - |kept|];
    assert log == gone + kept;
    SpentConcat(gone, kept, window, now);
    SpentBounded(gone, window, now);
  }

  /** For a time-ordered log, the limiter's load is exactly the budget spent. */
  lemma {:induction false} PrunedCountsSpent(log: seq<Instant>, window: nat, now: Instant)
    requires Sorted(log)
    ensures |Pruned(log, window, now)| == Spent(log, window, now)
  {
    var kept := Pruned(log, window, now);
    PrunedDropsExpired(log, window, now);
    SpentAfterDrop(log, kept, window, now, now);
    SpentBounded(kept, window, now);
  }

  /** Two ways of forgetting expired hits agree once both have been pruned. */
  lemma {:induction false} PrunedAfterDrop(hits: seq<Instant>, kept: seq<Instant>, window: nat, earlier: Instant,
                                           now: Instant)
    requires DropsExpired(hits, kept, window, earlier) && earlier <= now
    ensures Pruned(kept, window, now) == Pruned(hits, window, now)
    decreases |hits|
  {
    if kept == [] {
      AllExpiredAreGone(hits, window, now);
    } else {
      var n, m := |hits| - 1, |kept| - 1;
      assert kept[..m] == hits[..n][n - m..];
      PrunedAfterDrop(hits[..n], kept[..m], window, earlier, now);
    }
  }

  lemma {:induction false} DropsCompose(a: seq<Instant>, b: seq<Instant>, c: seq<Instant>, window: nat, t1: Instant,
                                        t2: Instant)
    requires DropsExpired(a, b, window, t1) && DropsExpired(b, c, window, t2) && t1 <= t2
    ensures DropsExpired(a, c, window, t2)
  {
    forall j | 0 <= j < |a| - |c| ensures Expired(a[j], window, t2) {
      if |a| - |b| <= j {
        assert a[j] == b[j - (|a| - |b|)];
      }
    }
  }

  lemma {:induction false} PrunedTwice(hits: seq<Instant>, window: nat, now: Instant)
    ensures Pruned(Pruned(hits, window, now), window, now) == Pruned(hits, window, now)
  {
    PrunedDropsExpired(hits, window, now);
    PrunedAfterDrop(hits, Pruned(hits, window, now), window, now, now);
  }

  /** A later prune keeps no more, and one hit fewer once the oldest has expired. */
  lemma {:induction false} PrunedShrinks(hits: seq<Instant>, window: nat, t1: Instant, t2: Instant)
    requires t1 <= t2
    ensures Pruned(Pruned(hits, window, t1), window, t2) == Pruned(hits, window, t2)
    ensures |Pruned(hits, window, t2)| <= |Pruned(hits, window, t1)|
    ensures var kept := Pruned(hits, window, t1);
            kept != [] && Expired(kept[0], window, t2) ==> |Pruned(hits, window, t2)| < |kept|
    ensures var kept := Pruned(hits, window, t1);
            kept != [] && !Expired(kept[0], window, t2) ==> Pruned(hits, window, t2) == kept
  {
    PrunedDropsExpired(hits, window, t1);
    PrunedDropsExpired(Pruned(hits, window, t1), window, t2);
    PrunedAfterDrop(hits, Pruned(hits, window, t1), window, t1, t2);
  }

  /** One limiter object, pruned and extended in place. */
  class SlidingWindow {
    const limit: nat
    const window: nat
    var hits: seq<Instant>

    constructor (limit: nat, window: nat)
      ensures this.limit == limit && this.window == window && hits == []
    {
      this.limit, this.window, this.hits := limit, window, [];
    }

    method Prune(now: Instant)
      modifies this
      ensures hits == Pruned(old(hits), window, now)
    {
      while hits != []
        invariant DropsExpired(old(hits), hits, window, now)
        decreases |hits|
      {
        if window <= now && hits[0] <= now - window {
          hits := hits[1..];
        } else {
          break;
        }
      }
      PrunedAfterDrop(old(hits), hits, window, now, now);
      UnexpiredStay(hits, window, now);
    }

    /** Spent budget. */
    method Load(now: Instant) returns (n: nat)
      modifies this
      ensures hits == Pruned(old(hits), window, now)
      ensures n == |hits|
    {
      Prune(now);
      n := |hits|;
    }

    /** Grant and record a slot, or say when the next one frees: not before `retryAt`
        is there room, and at `retryAt` the oldest hit is gone. */
    method TryAcquire(now: Instant) returns (r: Result<(), Instant>)
      modifies this
      ensures r.Ok? <==> |Pruned(old(hits), window, now)| < limit
      ensures r.Ok? ==> hits == Pruned(old(hits), window, now) + [now]
      ensures r.Err? ==> hits == Pruned(old(hits), window, now)
      ensures r.Err? ==> r.error == (if hits == [] then now else hits[0]) + window
      ensures r.Err? && limit > 0 ==>
                && now < r.error
                && (forall t :: now <= t < r.error ==> |Pruned(old(hits), window, t)| >= limit)
                && |Pruned(old(hits), window, r.error)| < |hits|
    {
      Prune(now);
      PrunedDropsExpired(old(hits), window, now);
      if |hits| < limit {
        hits := hits + [now];
        r := Ok(());
      } else if hits != [] {
        forall t | now <= t ensures now <= t < hits[0] + window ==> |Pruned(old(hits), window, t)| >= limit {
          PrunedShrinks(old(hits), window, now, t);
        }
        PrunedShrinks(old(hits), window, now, hits[0] + window);
        r := Err(hits[0] + window);
      } else {
        r := Err(now + window);
      }
    }
  }
}
