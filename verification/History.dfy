/** Retained snapshots and the thinned view of them. */
module History {
  import opened Basics

  datatype Snapshot = Snapshot(t: nat, total: nat)

  const DAY: nat := 86_400
  const FOREVER: nat := 0xFFFF_FFFF_FFFF_FFFF

  function RetentionSecs(days: nat): nat {
    if days == 0 then FOREVER else days * DAY
  }

  function Cutoff(t: nat, retention: nat): nat {
    if retention <= t then t - retention else 0
  }

  function NotBefore(cutoff: nat): Snapshot -> bool {
    (s: Snapshot) => s.t >= cutoff
  }

  function Within(from: nat, end: nat): Snapshot -> bool {
    (s: Snapshot) => from <= s.t <= end
  }

  /** `Load` is a process starting on the file that the last one left. */
  datatype Event = Append(t: nat, total: nat) | Retain(days: nat) | Load(days: nat)

  datatype State = State(retention: nat, snaps: seq<Snapshot>, file: seq<Snapshot>)

  function Next(s: State, e: Event): State {
    match e
    case Append(t, total) =>
      var kept := Filter(s.snaps + [Snapshot(t, total)], NotBefore(Cutoff(t, s.retention)));
      s.(snaps := kept, file := kept)
    case Retain(days) => s.(retention := RetentionSecs(days))
    case Load(days) => State(RetentionSecs(days), s.file, s.file)
  }

  /** The first process, on whatever the file holds. */
  datatype Start = Start(days: nat, file: seq<Snapshot>)

  function After(start: Start, events: seq<Event>): State {
    if events == [] then State(RetentionSecs(start.days), start.file, start.file)
    else Next(After(start, events[..|events| - 1]), events[|events| - 1])
  }

  // ---- Which snapshots are retained ----

  /** The retention in force at event `k`: what was last set, or started with. */
  function RetentionAt(start: Start, events: seq<Event>, k: nat): nat
    requires k <= |events|
  {
    if k == 0 then RetentionSecs(start.days)
    else if events[k - 1].Append? then RetentionAt(start, events, k - 1)
    else RetentionSecs(events[k - 1].days)
  }

  /** Event `j` appends nothing, or something so little later that a snapshot of time `t` is
      within the retention then in force. */
  predicate Spares(start: Start, events: seq<Event>, j: nat, t: nat)
    requires j < |events|
  {
    events[j].Append? ==> t >= Cutoff(events[j].t, RetentionAt(start, events, j))
  }

  /** The snapshots of the file at the start and then those taken by the first `n` events, less
      what one of the later events up to `end` does not spare, in the order they were taken: no
      step of pruning is looked at. */
  ghost function Spared(start: Start, events: seq<Event>, n: nat, end: nat): seq<Snapshot>
    requires n <= end <= |events|
  {
    Joined(Filter(start.file, SparedTo(start, events, end)), SparedEach(start, events, n, end))
  }

  function Joined(first: seq<Snapshot>, rest: seq<seq<Snapshot>>): seq<Snapshot> {
    if rest == [] then first else Joined(first, rest[..|rest| - 1]) + rest[|rest| - 1]
  }

  ghost function SparedEach(start: Start, events: seq<Event>, n: nat, end: nat): (each: seq<seq<Snapshot>>)
    requires n <= end <= |events|
    ensures |each| == n && forall i :: 0 <= i < n ==> each[i] == SparedOne(start, events, i, end)
  {
    seq(n, i requires 0 <= i < n => SparedOne(start, events, i, end))
  }

  ghost function SparedTo(start: Start, events: seq<Event>, end: nat): Snapshot -> bool
    requires end <= |events|
  {
    (s: Snapshot) => forall j :: 0 <= j < end ==> Spares(start, events, j, s.t)
  }

  ghost function SparedOne(start: Start, events: seq<Event>, i: nat, end: nat): seq<Snapshot>
    requires i < end <= |events|
  {
    if Lasts(start, events, i, end) then [Snapshot(events[i].t, events[i].total)] else []
  }

  ghost predicate Lasts(start: Start, events: seq<Event>, i: nat, end: nat)
    requires i < end <= |events|
  {
    events[i].Append? && forall j :: i <= j < end ==> Spares(start, events, j, events[i].t)
  }

  lemma {:induction false} RetentionIs(start: Start, events: seq<Event>, k: nat)
    requires k <= |events|
    ensures After(start, events[..k]).retention == RetentionAt(start, events, k)
  {
    if k > 0 {
      RetentionIs(start, events, k - 1);
      assert events[..k][..k - 1] == events[..k - 1];
    }
  }

  /** What is in memory is what is in the file. */
  lemma {:induction false} FileIsCurrent(start: Start, events: seq<Event>)
    ensures After(start, events).file == After(start, events).snaps
  {
    if events != [] {
      FileIsCurrent(start, events[..|events| - 1]);
    }
  }

  lemma {:induction false} LastsOneMore(start: Start, events: seq<Event>, i: nat, end: nat)
    requires i < end < |events|
    ensures Lasts(start, events, i, end + 1) <==>
              Lasts(start, events, i, end) && Spares(start, events, end, events[i].t)
  {
  }

  lemma {:induction false} SameFilter(s: seq<Snapshot>, p: Snapshot -> bool, q: Snapshot -> bool)
    requires forall x :: p(x) == q(x)
    ensures Filter(s, p) == Filter(s, q)
  {
    if s != [] {
      SameFilter(s[..|s| - 1], p, q);
    }
  }

  lemma {:induction false} SparedWithoutAppend(start: Start, events: seq<Event>, n: nat, end: nat)
    requires n <= end < |events| && !events[end].Append?
    ensures Spared(start, events, n, end + 1) == Spared(start, events, n, end)
  {
    SameFilter(start.file, SparedTo(start, events, end + 1), SparedTo(start, events, end));
    forall i | 0 <= i < n ensures SparedOne(start, events, i, end + 1) == SparedOne(start, events, i, end) {
      if events[i].Append? {
        LastsOneMore(start, events, i, end);
      }
    }
    assert SparedEach(start, events, n, end + 1) == SparedEach(start, events, n, end);
  }

  lemma {:induction false} FilterOneMore(s: seq<Snapshot>, x: Snapshot, p: Snapshot -> bool)
    ensures Filter(s + [x], p) == Filter(s, p) + if p(x) then [x] else []
  {
    assert (s + [x])[..|s|] == s;
  }

  /** The cutoff that the append at event `end` applies. */
  function KeepAt(start: Start, events: seq<Event>, end: nat): Snapshot -> bool
    requires end < |events| && events[end].Append?
  {
    NotBefore(Cutoff(events[end].t, RetentionAt(start, events, end)))
  }

  lemma {:induction false} FilterTwice(s: seq<Snapshot>,
                                       p: Snapshot -> bool, q: Snapshot -> bool, both: Snapshot -> bool)
    requires forall x :: both(x) <==> p(x) && q(x)
    ensures Filter(s, both) == Filter(Filter(s, p), q)
  {
    if s != [] {
      var n := |s| - 1;
      var front := Filter(s[..n], p);
      FilterTwice(s[..n], p, q, both);
      if p(s[n]) {
        FilterOneMore(front, s[n], q);
      } else {
        assert Filter(s, p) == front + [] == front;
        assert Filter(s, both) == Filter(s[..n], both) + [];
      }
    }
  }

  lemma {:induction false} FilterJoined(first: seq<Snapshot>, rest: seq<seq<Snapshot>>, first': seq<Snapshot>,
                                        rest': seq<seq<Snapshot>>, p: Snapshot -> bool)
    requires first' == Filter(first, p) && |rest'| == |rest|
    requires forall i :: 0 <= i < |rest| ==> |rest[i]| <= 1 && rest'[i] == Filter(rest[i], p)
    ensures Joined(first', rest') == Filter(Joined(first, rest), p)
  {
    if rest != [] {
      var n := |rest| - 1;
      FilterJoined(first, rest[..n], first', rest'[..n], p);
      FilterSplits(Joined(first, rest[..n]), rest[n], p);
    }
  }

  lemma {:induction false} FilterSplits(s: seq<Snapshot>, one: seq<Snapshot>, p: Snapshot -> bool)
    requires |one| <= 1
    ensures Filter(s + one, p) == Filter(s, p) + Filter(one, p)
  {
    if one == [] {
      assert s + one == s;
    } else {
      FilterOneMore(s, one[0], p);
      FilterOneMore([], one[0], p);
      assert one == [one[0]] == [] + [one[0]];
    }
  }

  lemma {:induction false} SparedAtAnAppend(start: Start, events: seq<Event>, n: nat, end: nat)
    requires n <= end < |events| && events[end].Append?
    ensures Spared(start, events, n, end + 1) == Filter(Spared(start, events, n, end), KeepAt(start, events, end))
  {
    var keep := KeepAt(start, events, end);
    FileAtAnAppend(start, events, end, keep);
    forall i | 0 <= i < n
      ensures |SparedOne(start, events, i, end)| <= 1
      ensures SparedOne(start, events, i, end + 1) == Filter(SparedOne(start, events, i, end), keep)
    {
      OneAtAnAppend(start, events, i, end, keep);
    }
    FilterJoined(Filter(start.file, SparedTo(start, events, end)), SparedEach(start, events, n, end),
                 Filter(start.file, SparedTo(start, events, end + 1)), SparedEach(start, events, n, end + 1), keep);
  }

  lemma {:induction false} FileAtAnAppend(start: Start, events: seq<Event>, end: nat, keep: Snapshot -> bool)
    requires end < |events| && events[end].Append? && keep == KeepAt(start, events, end)
    ensures Filter(start.file, SparedTo(start, events, end + 1))
         == Filter(Filter(start.file, SparedTo(start, events, end)), keep)
  {
    forall x ensures SparedTo(start, events, end + 1)(x) <==> SparedTo(start, events, end)(x) && keep(x) {
      assert keep(x) <==> Spares(start, events, end, x.t);
    }
    FilterTwice(start.file, SparedTo(start, events, end), keep, SparedTo(start, events, end + 1));
  }

  lemma {:induction false} OneAtAnAppend(start: Start, events: seq<Event>, i: nat, end: nat, keep: Snapshot -> bool)
    requires i < end < |events| && events[end].Append? && keep == KeepAt(start, events, end)
    ensures |SparedOne(start, events, i, end)| <= 1
    ensures Filter(SparedOne(start, events, i, end), keep) == SparedOne(start, events, i, end + 1)
  {
    if Lasts(start, events, i, end) {
      LastsOneMore(start, events, i, end);
      FilterOneMore([], Snapshot(events[i].t, events[i].total), keep);
    }
  }

  /** RETENTION OVER ALL PROCESSES. However snapshots, changes of the setting and restarts
      interleave, what is retained is exactly the snapshots, found in the file or taken since, that
      every later one spared under the setting in force at that moment, in the order they were
      taken. In particular lengthening the retention brings nothing back, and a restart loses
      nothing. */
  lemma {:induction false} RetainedIffEveryCutoffSpares(start: Start, events: seq<Event>, n: nat)
    requires n <= |events|
    ensures After(start, events[..n]).snaps == Spared(start, events, n, n)
  {
    if n > 0 {
      var k := n - 1;
      RetainedIffEveryCutoffSpares(start, events, k);
      RetentionIs(start, events, k);
      FileIsCurrent(start, events[..k]);
      assert events[..n][..k] == events[..k];
      if events[k].Append? {
        RetainedAtAnAppend(start, events, k, After(start, events[..k]));
      } else {
        SparedWithoutAppend(start, events, k, k);
        assert SparedOne(start, events, k, n) == [];
        assert SparedEach(start, events, n, n)[..k] == SparedEach(start, events, k, n);
      }
    } else {
      FilterAllIsSame(start.file, SparedTo(start, events, 0));
    }
  }

  lemma {:induction false} RetainedAtAnAppend(start: Start, events: seq<Event>, k: nat, s: State)
    requires k < |events| && events[k].Append?
    requires s.retention == RetentionAt(start, events, k) && s.snaps == Spared(start, events, k, k)
    ensures Next(s, events[k]).snaps == Spared(start, events, k + 1, k + 1)
  {
    var x := Snapshot(events[k].t, events[k].total);
    SparedAtAnAppend(start, events, k, k);
    FilterOneMore(s.snaps, x, KeepAt(start, events, k));
    assert Spares(start, events, k, x.t);
    assert SparedEach(start, events, k + 1, k + 1)[..k] == SparedEach(start, events, k, k + 1);
  }

  class History {
    var retention: nat
    var snaps: seq<Snapshot>
    var file: seq<Snapshot>

    ghost function View(): State
      reads this
    {
      State(retention, snaps, file)
    }

    /** No days keeps everything: the retention is the largest 64-bit number. */
    predicate KeepsFor(days: nat)
      reads this
    {
      retention == if days == 0 then 0xFFFF_FFFF_FFFF_FFFF else days * 86_400
    }

    constructor (days: nat, saved: seq<Snapshot>)
      ensures View() == After(Start(days, saved), [])
      ensures snaps == saved && KeepsFor(days)
    {
      retention, snaps, file := if days == 0 then FOREVER else days * DAY, saved, saved;
    }

    /** The next process, on the file that this one leaves. */
    method Reload(days: nat)
      modifies this
      ensures View() == Next(old(View()), Load(days))
      ensures snaps == file == old(file) && KeepsFor(days)
    {
      retention, snaps := if days == 0 then FOREVER else days * DAY, file;
    }

    method SetRetentionDays(days: nat)
      modifies this`retention
      ensures View() == Next(old(View()), Retain(days))
      ensures KeepsFor(days)
    {
      retention := if days == 0 then FOREVER else days * DAY;
    }

    /** The new snapshot always stays, last; of the others, those not before the cutoff. */
    method Append(t: nat, total: nat)
      modifies this`snaps, this`file
      ensures View() == Next(old(View()), Event.Append(t, total))
      ensures snaps != [] && snaps[|snaps| - 1] == Snapshot(t, total)
      ensures forall s :: s in snaps <==> (s in old(snaps) || s == Snapshot(t, total)) && s.t + retention >= t
      ensures file == snaps
    {
      snaps := snaps + [Snapshot(t, total)];
      var cutoff := if retention <= t then t - retention else 0;
      FilterOneMore(old(snaps), Snapshot(t, total), NotBefore(cutoff));
      FilterHas(snaps, NotBefore(cutoff));
      snaps := Filter(snaps, NotBefore(cutoff));
      file := snaps;
    }

    /** The retained snapshots of the range, in order: all of them while they are within the
        limit or there is none, and otherwise evenly spaced ones from the first on. */
    method Range(from: nat, end: nat, max: nat) returns (r: seq<Snapshot>)
      ensures exists at :: InRange(at, snaps, from, end) && Shows(r, snaps, at, max)
    {
      var filtered := Filter(snaps, Within(from, end));
      r := Downsample(filtered, max);
      FilterReads(snaps, Within(from, end));
      ThinnedShows(filtered, snaps, Places(snaps, Within(from, end)), max);
    }
  }

  /** Where the snapshots of the range stand. */
  ghost predicate InRange(at: seq<nat>, snaps: seq<Snapshot>, from: nat, end: nat) {
    Ascending(at, |snaps|) && forall k :: 0 <= k < |snaps| ==> (k in at <==> from <= snaps[k].t <= end)
  }

  ghost predicate Shows<T(!new)>(r: seq<T>, s: seq<T>, at: seq<nat>, max: nat)
    requires Ascending(at, |s|)
  {
    if max == 0 || |at| <= max then Reads(r, s, at)
    else IsCeil(|r|, |at|, |at| / max) && forall i :: 0 <= i < |r| ==> StandsAt(r, s, at, |at| / max, i)
  }

  ghost predicate StandsAt<T(!new)>(r: seq<T>, s: seq<T>, at: seq<nat>, step: nat, i: nat)
    requires Ascending(at, |s|)
  {
    i < |r| && i * step < |at| && r[i] == s[at[i * step]]
  }

  lemma {:induction false} ThinnedShows<T(!new)>(v: seq<T>, s: seq<T>, at: seq<nat>, max: nat)
    requires Reads(v, s, at)
    ensures Shows(Downsample(v, max), s, at, max)
  {
    if 0 < max < |v| {
      DownsampleShape(v, max);
      var r := Downsample(v, max);
      forall i | 0 <= i < |r| ensures StandsAt(r, s, at, |at| / max, i) {
        assert EveryStepth(r, v, |v| / max, i);
      }
    }
  }

  // ---- The thinned view ----

  /** Every `step`-th element, starting at `from`: Rust's `step_by`. */
  function StepBy<T>(v: seq<T>, step: nat, from: nat): seq<T>
    requires step > 0
    decreases |v| - from
  {
    if from >= |v| then [] else [v[from]] + StepBy(v, step, from + step)
  }

  function Downsample<T>(v: seq<T>, max: nat): seq<T> {
    if max == 0 || |v| <= max then v
    else StepBy(v, if |v| / max < 1 then 1 else |v| / max, 0)
  }

  /** `c` is n / d rounded up. */
  ghost predicate IsCeil(c: nat, n: nat, d: nat) {
    n <= Times(c, d) < n + d
  }

  lemma {:induction false} StepByCount<T>(v: seq<T>, step: nat, from: nat)
    requires step > 0 && from < |v| + step
    ensures |v| <= from + Times(|StepBy(v, step, from)|, step) < |v| + step
    decreases |v| + step - from
  {
    if from < |v| {
      StepByCount(v, step, from + step);
    }
  }

  lemma {:induction false} StepByElements<T>(v: seq<T>, step: nat, from: nat, i: nat)
    requires step > 0 && i < |StepBy(v, step, from)|
    ensures from + Times(i, step) < |v| && StepBy(v, step, from)[i] == v[from + Times(i, step)]
    decreases i
  {
    if i > 0 {
      StepByElements(v, step, from + step, i - 1);
    }
  }

  /** HOW MANY POINTS. Within the limit, or without one, all of them. Over the
      limit, the thinned view holds ceil(n / floor(n / max)) of the n points, evenly spaced and
      in order: fewer than twice the limit, but within the limit exactly when it divides the
      number of points. */
  lemma {:induction false} DownsampleShape<T(!new)>(v: seq<T>, max: nat)
    ensures max == 0 || |v| <= max ==> Downsample(v, max) == v
    ensures 0 < max < |v| ==> ThinnedTo(Downsample(v, max), v, max, |v| / max)
  {
    if 0 < max < |v| {
      ThinnedShape(v, max);
    }
  }

  ghost predicate ThinnedTo<T(!new)>(r: seq<T>, v: seq<T>, max: nat, step: nat)
    requires max > 0
  {
    && step >= 1
    && IsCeil(|r|, |v|, step)
    && (forall i :: 0 <= i < |r| ==> EveryStepth(r, v, step, i))
    && max <= |r| < 2 * max
    && (|r| <= max <==> |v| % max == 0)
  }

  lemma {:induction false} ThinnedShape<T(!new)>(v: seq<T>, max: nat)
    requires 0 < max < |v|
    ensures ThinnedTo(Downsample(v, max), v, max, |v| / max)
  {
    var step := |v| / max;
    Quotient(|v|, max);
    StepByCount(v, step, 0);
    var r := StepBy(v, step, 0);
    forall i | 0 <= i < |r| ensures EveryStepth(r, v, step, i) {
      StepByElements(v, step, 0, i);
      TimesIsProduct(i, step);
    }
    CeilBounds(|r|, |v|, step, max, |v| % max);
  }

  ghost predicate EveryStepth<T(!new)>(r: seq<T>, v: seq<T>, step: nat, i: nat) {
    i < |r| && i * step < |v| && r[i] == v[i * step]
  }

  lemma {:induction false} Quotient(n: nat, d: nat)
    requires 0 < d <= n
    ensures n / d >= 1 && n == Times(d, n / d) + n % d && n % d < d
  {
    TimesIsProduct(d, n / d);
    assert n == d * (n / d) + n % d;
    assert n / d >= 1 by {
      assert d * 0 == 0;
    }
  }

  lemma {:induction false} TimesAdds(a: nat, b: nat, n: nat)
    ensures Times(a + b, n) == Times(a, n) + Times(b, n)
  {
    if b > 0 {
      TimesAdds(a, b - 1, n);
    }
  }

  lemma {:induction false} TimesLess(a: nat, b: nat, n: nat)
    requires a < b
    ensures Times(a, n) + n <= Times(b, n)
  {
    TimesAdds(a + 1, b - a - 1, n);
  }

  lemma {:induction false} TimesAtLeast(a: nat, n: nat)
    requires n >= 1
    ensures Times(a, n) >= a
  {
    if a > 0 {
      TimesAtLeast(a - 1, n);
    }
  }

  lemma {:induction false} CeilBounds(c: nat, n: nat, step: nat, max: nat, left: nat)
    requires n == Times(max, step) + left && left < max && step >= 1 && IsCeil(c, n, step)
    ensures max <= c < 2 * max
    ensures c <= max <==> left == 0
  {
    if c < max {
      TimesLess(c, max, step);
    } else {
      TimesAdds(max, c - max, step);
      TimesAtLeast(c - max, step);
      BoundTheRest(c - max, step, max, left);
    }
  }

  /** What is over the first `max` points covers what is left over. */
  lemma {:induction false} BoundTheRest(more: nat, step: nat, max: nat, left: nat)
    requires left < max && step >= 1 && left <= Times(more, step) < left + step
    ensures more < max && (more == 0 <==> left == 0)
  {
    if more > 0 {
      TimesAtLeast(more - 1, step);
    }
  }
}
