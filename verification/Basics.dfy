/** Shared vocabulary: optional values, results, and time.
    An `Instant` is a number of milliseconds on a clock that never runs backwards. */
module Basics {
  datatype Option<+T> = None | Some(value: T)

  datatype Result<+R, +E> = Ok(value: R) | Err(error: E)

  type Instant = nat

  const SECOND: nat := 1000

  function Copies<T>(n: nat, x: T): (r: seq<T>)
    ensures |r| == n && forall i :: 0 <= i < n ==> r[i] == x
  {
    if n == 0 then [] else Copies(n - 1, x) + [x]
  }

  function UpTo(n: nat): (r: seq<nat>)
    ensures |r| == n && forall i :: 0 <= i < n ==> r[i] == i
  {
    if n == 0 then [] else UpTo(n - 1) + [n - 1]
  }

  /** `k` lots of `n`: multiplication by counting, for bounds that grow one lot at a time. */
  ghost function Times(k: nat, n: nat): nat {
    if k == 0 then 0 else Times(k - 1, n) + n
  }

  lemma {:induction false} TimesIsProduct(k: nat, n: nat)
    ensures Times(k, n) == k * n
  {
    if k > 0 {
      TimesIsProduct(k - 1, n);
      assert k * n == (k - 1) * n + n;
    }
  }

  ghost predicate Sorted(s: seq<nat>) {
    forall i, j :: 0 <= i < j < |s| ==> s[i] <= s[j]
  }

  ghost predicate Distinct<T(!new)>(s: seq<T>) {
    forall i, j :: 0 <= i < j < |s| ==> s[i] != s[j]
  }

  ghost predicate AllAtMost(s: seq<nat>, bound: nat) {
    forall i :: 0 <= i < |s| ==> s[i] <= bound
  }

  /** The elements of `s` that satisfy `p`, in order: Rust's `filter` and `retain`. */
  function Filter<T(!new)>(s: seq<T>, p: T -> bool): (r: seq<T>)
    ensures |r| <= |s|
  {
    if s == [] then []
    else
      var n := |s| - 1;
      Filter(s[..n], p) + if p(s[n]) then [s[n]] else []
  }

  lemma {:induction false} InFrontOrLast<T(!new)>(s: seq<T>)
    requires s != []
    ensures forall x :: x in s <==> x in s[..|s| - 1] || x == s[|s| - 1]
    ensures s[..|s| - 1] + [s[|s| - 1]] == s
  {
  }

  lemma {:induction false} FilterHas<T(!new)>(s: seq<T>, p: T -> bool)
    ensures forall x :: x in Filter(s, p) <==> x in s && p(x)
  {
    if s != [] {
      FilterHas(s[..|s| - 1], p);
      InFrontOrLast(s);
    }
  }

  /** Positions of an n-long sequence, each later than the one before. */
  ghost predicate Ascending(at: seq<nat>, n: nat) {
    && (forall i :: 0 <= i < |at| ==> at[i] < n)
    && (forall i, j :: 0 <= i < j < |at| ==> at[i] < at[j])
  }

  /** `r` is what stands in `s` at the positions `at`. */
  ghost predicate Reads<T(!new)>(r: seq<T>, s: seq<T>, at: seq<nat>) {
    |r| == |at| && Ascending(at, |s|) && forall i :: 0 <= i < |r| ==> r[i] == s[at[i]]
  }

  ghost predicate Chooses<T(!new)>(at: seq<nat>, s: seq<T>, p: T -> bool) {
    forall k :: 0 <= k < |s| ==> (k in at <==> p(s[k]))
  }

  /** Where `s` satisfies `p`. */
  ghost function Places<T(!new)>(s: seq<T>, p: T -> bool): seq<nat> {
    if s == [] then []
    else
      var n := |s| - 1;
      Places(s[..n], p) + if p(s[n]) then [n] else []
  }

  /** Filtering reads `s` in order at exactly the positions that satisfy `p`. */
  lemma {:induction false} FilterReads<T(!new)>(s: seq<T>, p: T -> bool)
    ensures Reads(Filter(s, p), s, Places(s, p)) && Chooses(Places(s, p), s, p)
  {
    if s != [] {
      var n := |s| - 1;
      FilterReads(s[..n], p);
      assert forall k :: 0 <= k < n ==> s[..n][k] == s[k];
      assert forall k :: k in Places(s[..n], p) ==> k < n;
    }
  }

  /** Where one element fails `p`, filtering takes that one out. */
  lemma {:induction false} FilterTakesOut<T(!new)>(s: seq<T>, p: T -> bool, i: nat)
    requires i < |s| && forall k :: 0 <= k < |s| ==> (p(s[k]) <==> k != i)
    ensures Filter(s, p) == s[..i] + s[i + 1..]
  {
    var n := |s| - 1;
    if i < n {
      FilterTakesOut(s[..n], p, i);
      assert s[..i] + s[i + 1..] == s[..n][..i] + s[..n][i + 1..] + [s[n]];
    } else {
      FilterAllIsSame(s[..n], p);
      FilterHas(s[..n], p);
      assert Filter(s, p) == Filter(s[..n], p) + [];
      assert forall k :: 0 <= k < n ==> s[..n][k] == s[k];
      assert s[..i] + s[i + 1..] == s[..n];
    }
  }

  /** `retain` removed nothing exactly when nothing was to go: comparing lengths is enough. */
  lemma {:induction false} FilterAllIsSame<T(!new)>(s: seq<T>, p: T -> bool)
    ensures |Filter(s, p)| == |s| <==> forall x :: x in s ==> p(x)
    ensures |Filter(s, p)| == |s| ==> Filter(s, p) == s
  {
    if s != [] {
      var n := |s| - 1;
      FilterAllIsSame(s[..n], p);
      InFrontOrLast(s);
    }
  }

  lemma {:induction false} FilterNoneIsEmpty<T(!new)>(s: seq<T>, p: T -> bool)
    requires forall x :: x in s ==> !p(x)
    ensures Filter(s, p) == []
  {
    if s != [] {
      FilterNoneIsEmpty(s[..|s| - 1], p);
    }
  }

  ghost predicate Pairwise<T(!new)>(s: seq<T>, r: (T, T) -> bool) {
    forall i, j :: 0 <= i < j < |s| ==> r(s[i], s[j])
  }

  /** Filtering keeps order: what holds of every earlier element with every later one still does. */
  lemma {:induction false} FilterKeepsPairs<T(!new)>(s: seq<T>, p: T -> bool, r: (T, T) -> bool)
    requires Pairwise(s, r)
    ensures Pairwise(Filter(s, p), r)
  {
    if s != [] {
      var n := |s| - 1;
      var front := Filter(s[..n], p);
      FilterKeepsPairs(s[..n], p, r);
      FilterHas(s[..n], p);
      forall i | 0 <= i < |front| ensures r(front[i], s[n]) {
        assert front[i] in s[..n];
        var k :| 0 <= k < n && s[k] == front[i];
      }
    }
  }

  /** Pigeonhole: distinct numbers confined to [lo, hi) number at most hi - lo. */
  lemma {:induction false} DistinctFit(xs: seq<nat>, lo: nat, hi: nat)
    requires Distinct(xs)
    requires lo <= hi
    requires forall i :: 0 <= i < |xs| ==> lo <= xs[i] < hi
    ensures |xs| <= hi - lo
    decreases hi
  {
    if xs == [] {
    } else if k :| 0 <= k < |xs| && xs[k] == hi - 1 {
      var rest := xs[..k] + xs[k + 1..];
      forall i | 0 <= i < |rest| ensures lo <= rest[i] < hi - 1 {
        var o := if i < k then i else i + 1;
        assert rest[i] == xs[o];
      }
      DistinctFit(rest, lo, hi - 1);
    } else {
      assert lo <= xs[0] < hi - 1;
      DistinctFit(xs, lo, hi - 1);
    }
  }
}
