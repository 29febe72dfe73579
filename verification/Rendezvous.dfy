/** Sticky lanes by highest-random-weight hashing. The hash is any function of the session
    and the lane's identity. */
module Rendezvous {
  import opened Basics
  import opened Pools

  type Weigh = (nat, LaneId) -> nat

  /** The position of the last maximum, as Rust's `max_by_key` picks it. */
  function LastMax(weights: seq<nat>): (r: Option<nat>)
    ensures r.None? <==> weights == []
    ensures r.Some? ==> IsLastMax(weights, r.value)
  {
    if weights == [] then None
    else
      var n := |weights| - 1;
      match LastMax(weights[..n])
      case None => Some(n)
      case Some(best) => if weights[best] <= weights[n] then Some(n) else Some(best)
  }

  ghost predicate IsLastMax(weights: seq<nat>, c: nat) {
    && c < |weights|
    && (forall j :: 0 <= j < |weights| ==> weights[j] <= weights[c])
    && (forall j :: c < j < |weights| ==> weights[j] < weights[c])
  }

  lemma {:induction false} OneLastMax(weights: seq<nat>, c: nat)
    requires IsLastMax(weights, c)
    ensures LastMax(weights) == Some(c)
  {
    var r := LastMax(weights).value;
    assert IsLastMax(weights, r);
  }

  function Weights(weigh: Weigh, session: nat, ids: seq<LaneId>): (ws: seq<nat>)
    ensures |ws| == |ids| && forall i :: 0 <= i < |ids| ==> ws[i] == weigh(session, ids[i])
  {
    seq(|ids|, i requires 0 <= i < |ids| => weigh(session, ids[i]))
  }

  function Ids(pool: PoolView): (ids: seq<LaneId>)
    ensures |ids| == |pool| && forall i :: 0 <= i < |pool| ==> ids[i] == pool[i].Id()
  {
    seq(|pool|, i requires 0 <= i < |pool| => pool[i].Id())
  }

  ghost predicate Candidates(ids: seq<LaneId>, candidates: seq<nat>) {
    && (forall i, j :: 0 <= i < j < |candidates| ==> candidates[i] < candidates[j])
    && (forall i :: 0 <= i < |candidates| ==> candidates[i] < |ids|)
  }

  /** The session's lane among `candidates`, which the callers list in lane order. */
  function AffinityAmong(weigh: Weigh, session: nat, ids: seq<LaneId>, candidates: seq<nat>): (r: Option<nat>)
    requires Candidates(ids, candidates)
    ensures r.None? <==> candidates == []
    ensures r.Some? ==> Wins(weigh, session, ids, candidates, r.value)
  {
    var among := seq(|candidates|, i requires 0 <= i < |candidates| => weigh(session, ids[candidates[i]]));
    match LastMax(among)
    case None => None
    case Some(p) =>
      assert forall j :: 0 <= j < |candidates| ==> among[j] == weigh(session, ids[candidates[j]]);
      Some(candidates[p])
  }

  /** Affinity over the whole pool. */
  function AffinityLane(weigh: Weigh, session: nat, ids: seq<LaneId>): (r: Option<nat>) {
    AffinityAmong(weigh, session, ids, UpTo(|ids|))
  }

  /** No candidate outweighs `c`, and none after it even equals it. */
  ghost predicate Wins(weigh: Weigh, session: nat, ids: seq<LaneId>, candidates: seq<nat>, c: nat)
    requires Candidates(ids, candidates)
  {
    && c in candidates
    && forall x :: x in candidates ==>
         && weigh(session, ids[x]) <= weigh(session, ids[c])
         && (c < x ==> weigh(session, ids[x]) < weigh(session, ids[c]))
  }

  /** The winner is the only winner. */
  lemma {:induction false} OneWinner(weigh: Weigh, session: nat, ids: seq<LaneId>, candidates: seq<nat>, c: nat)
    requires Candidates(ids, candidates) && Wins(weigh, session, ids, candidates, c)
    ensures AffinityAmong(weigh, session, ids, candidates) == Some(c)
  {
    var best := AffinityAmong(weigh, session, ids, candidates).value;
    assert best in candidates && c in candidates;
  }

  /** NARROWING. A conversation keeps its lane within whatever part of the candidates remains,
      as long as that lane remains. */
  lemma {:induction false} NarrowingKeepsTheLane(weigh: Weigh, session: nat, ids: seq<LaneId>, wide: seq<nat>,
                                                 narrow: seq<nat>)
    requires Candidates(ids, wide) && Candidates(ids, narrow)
    requires forall c :: c in narrow ==> c in wide
    requires wide != [] && AffinityAmong(weigh, session, ids, wide).value in narrow
    ensures AffinityAmong(weigh, session, ids, narrow) == AffinityAmong(weigh, session, ids, wide)
  {
    OneWinner(weigh, session, ids, narrow, AffinityAmong(weigh, session, ids, wide).value);
  }

  lemma {:induction false} AffinityLaneIsHeaviest(weigh: Weigh, session: nat, ids: seq<LaneId>)
    ensures AffinityLane(weigh, session, ids) == LastMax(Weights(weigh, session, ids))
  {
    var all := UpTo(|ids|);
    if ids != [] {
      var c := LastMax(Weights(weigh, session, ids)).value;
      assert all[c] == c;
      forall x | x in all
        ensures weigh(session, ids[x]) <= weigh(session, ids[c])
        ensures c < x ==> weigh(session, ids[x]) < weigh(session, ids[c])
      {
        assert Weights(weigh, session, ids)[x] <= Weights(weigh, session, ids)[c];
      }
      OneWinner(weigh, session, ids, all, c);
    }
  }

  /** MINIMAL DISRUPTION, for any hash. Read from `before + after`, this is adding the lane
      `x`: a session either stays exactly where it was or moves onto `x`. Read the other way
      it is removing `x`: only the sessions that lived on `x` move. */
  lemma {:induction false} OneLaneMoreOrLess(weigh: Weigh, session: nat, before: seq<LaneId>, x: LaneId,
                                             after: seq<LaneId>)
    ensures var with := AffinityLane(weigh, session, before + [x] + after);
      var without := AffinityLane(weigh, session, before + after);
      && with.Some?
      && (with.value < |before| ==> without == Some(with.value))
      && (with.value > |before| ==> without == Some(with.value - 1))
      && (with.value == |before| <==>
            && (forall i :: 0 <= i < |before| ==> weigh(session, before[i]) <= weigh(session, x))
            && (forall i :: 0 <= i < |after| ==> weigh(session, after[i]) < weigh(session, x)))
  {
    var a, w, b := Weights(weigh, session, before), weigh(session, x), Weights(weigh, session, after);
    WithOneMore(weigh, session, before, x, after);
    LastMaxInserted(a, w, b);
    assert (forall i :: 0 <= i < |before| ==> weigh(session, before[i]) <= w)
      <==> forall i :: 0 <= i < |a| ==> a[i] <= w;
    assert (forall i :: 0 <= i < |after| ==> weigh(session, after[i]) < w)
      <==> forall i :: 0 <= i < |b| ==> b[i] < w;
  }

  lemma {:induction false} WithOneMore(weigh: Weigh, session: nat, before: seq<LaneId>, x: LaneId, after: seq<LaneId>)
    ensures var a, w, b := Weights(weigh, session, before), weigh(session, x), Weights(weigh, session, after);
      && AffinityLane(weigh, session, before + [x] + after) == LastMax(a + [w] + b)
      && AffinityLane(weigh, session, before + after) == LastMax(a + b)
  {
    var a, w, b := Weights(weigh, session, before), weigh(session, x), Weights(weigh, session, after);
    WeightsJoin(weigh, session, before, [x], after);
    WeightsJoin(weigh, session, before, [], after);
    assert Weights(weigh, session, [x]) == [w] && Weights(weigh, session, []) == [];
    assert before + [] == before && a + [] == a;
    AffinityLaneIsHeaviest(weigh, session, before + [x] + after);
    AffinityLaneIsHeaviest(weigh, session, before + after);
  }

  lemma {:induction false} WeightsJoin(weigh: Weigh, session: nat, s: seq<LaneId>, t: seq<LaneId>, u: seq<LaneId>)
    ensures Weights(weigh, session, s + t + u)
         == Weights(weigh, session, s) + Weights(weigh, session, t) + Weights(weigh, session, u)
  {
  }

  lemma {:induction false} LastMaxInserted(a: seq<nat>, w: nat, b: seq<nat>)
    ensures var with, without := LastMax(a + [w] + b), LastMax(a + b);
      && (with.value < |a| ==> without == Some(with.value))
      && (with.value > |a| ==> without == Some(with.value - 1))
      && (with.value == |a| <==> (forall i :: 0 <= i < |a| ==> a[i] <= w) && (forall i :: 0 <= i < |b| ==> b[i] < w))
  {
    var ws, vs := a + [w] + b, a + b;
    var c := LastMax(ws).value;
    assert IsLastMax(ws, c);
    assert ws[|a|] == w;
    if c == |a| {
      forall i | 0 <= i < |a| ensures a[i] <= w { assert ws[i] == a[i]; }
      forall i | 0 <= i < |b| ensures b[i] < w { assert ws[|a| + 1 + i] == b[i]; }
    } else {
      var o := if c < |a| then c else c - 1;
      forall j | 0 <= j < |vs| ensures vs[j] <= vs[o] && (o < j ==> vs[j] < vs[o]) {
        assert vs[j] == ws[if j < |a| then j else j + 1];
      }
      OneLastMax(vs, o);
      if c < |a| {
        assert a[c] == ws[c] > w;
      } else {
        assert b[c - |a| - 1] == ws[c] >= w;
      }
    }
  }

  /** `p` lists every position below `n` once. */
  ghost predicate Permutation(p: seq<nat>, n: nat) {
    |p| == n && Distinct(p) && forall i :: 0 <= i < n ==> p[i] < n
  }

  function Reordered(ids: seq<LaneId>, p: seq<nat>): (r: seq<LaneId>)
    requires forall i :: 0 <= i < |p| ==> p[i] < |ids|
    ensures |r| == |p| && forall i :: 0 <= i < |p| ==> r[i] == ids[p[i]]
  {
    seq(|p|, i requires 0 <= i < |p| => ids[p[i]])
  }

  function Favourite(weigh: Weigh, session: nat, ids: seq<LaneId>): LaneId
    requires ids != []
  {
    ids[AffinityLane(weigh, session, ids).value]
  }

  ghost predicate NoTie(weigh: Weigh, session: nat, ids: seq<LaneId>)
    requires ids != []
  {
    var c := AffinityLane(weigh, session, ids).value;
    forall i :: 0 <= i < |ids| && i != c ==> weigh(session, ids[i]) < weigh(session, ids[c])
  }

  ghost predicate OrderBlind(weigh: Weigh, session: nat, ids: seq<LaneId>)
    requires ids != []
  {
    forall p :: Permutation(p, |ids|) ==>
      Favourite(weigh, session, Reordered(ids, p)) == Favourite(weigh, session, ids)
  }

  /** REORDERING. Permuting the lanes moves nothing, whatever the permutation, if and only if
      no other lane ties with the session's own. */
  lemma {:induction false} ReorderingMovesNothingIffNoTie(weigh: Weigh, session: nat, ids: seq<LaneId>)
    requires ids != [] && Distinct(ids)
    ensures OrderBlind(weigh, session, ids) <==> NoTie(weigh, session, ids)
  {
    var c := AffinityLane(weigh, session, ids).value;
    AffinityLaneIsHeaviest(weigh, session, ids);
    var ws := Weights(weigh, session, ids);
    if NoTie(weigh, session, ids) {
      forall p | Permutation(p, |ids|) ensures Favourite(weigh, session, Reordered(ids, p)) == ids[c] {
        Onto(p, |ids|, c);
        var at :| 0 <= at < |p| && p[at] == c;
        var moved := Reordered(ids, p);
        var c' := AffinityLane(weigh, session, moved).value;
        AffinityLaneIsHeaviest(weigh, session, moved);
        assert Weights(weigh, session, moved)[at] <= Weights(weigh, session, moved)[c'];
        assert moved[at] == ids[c] && moved[c'] == ids[p[c']];
      }
    } else {
      var i :| 0 <= i < |ids| && i != c && weigh(session, ids[i]) >= weigh(session, ids[c]);
      assert ws[i] == ws[c];
      var p := seq(|ids|, k => if k == i then c else if k == c then i else k);
      assert Permutation(p, |ids|);
      var moved := Reordered(ids, p);
      assert Weights(weigh, session, moved) == ws;
      AffinityLaneIsHeaviest(weigh, session, moved);
      assert Favourite(weigh, session, moved) == ids[i] != ids[c];
    }
  }

  /** A permutation reaches every position. */
  lemma {:induction false} Onto(p: seq<nat>, n: nat, c: nat)
    requires Permutation(p, n) && c < n
    ensures c in p
  {
    if c !in p {
      var squeezed := seq(n, i requires 0 <= i < n => if p[i] < c then p[i] else p[i] - 1);
      assert forall i :: 0 <= i < n ==> p[i] != c;
      DistinctFit(squeezed, 0, n - 1);
      assert false;
    }
  }
}
