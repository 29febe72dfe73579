/** Base URLs and request paths, normalised so that joining them never doubles `/v1`. */
module Urls {
  /** Unicode White_Space, as Rust's `trim` uses it. */
  predicate IsSpace(c: char) {
    var u := c as int;
    || (0x09 <= u <= 0x0D) || u == 0x20 || u == 0x85 || u == 0xA0 || u == 0x1680
    || (0x2000 <= u <= 0x200A) || u == 0x2028 || u == 0x2029 || u == 0x202F || u == 0x205F || u == 0x3000
  }

  /** The twenty-five code points of White_Space. */
  lemma {:induction false} SpacesAre(c: char)
    ensures IsSpace(c) <==>
              c as int in {0x09, 0x0A, 0x0B, 0x0C, 0x0D, 0x20, 0x85, 0xA0, 0x1680,
                           0x2000, 0x2001, 0x2002, 0x2003, 0x2004, 0x2005, 0x2006, 0x2007, 0x2008, 0x2009, 0x200A,
                           0x2028, 0x2029, 0x202F, 0x205F, 0x3000}
  {
  }

  const V1 := "/v1"
  const DOUBLE_V1 := "/v1/v1/"

  predicate EndsWith(s: string, suffix: string) {
    |suffix| <= |s| && s[|s| - |suffix|..] == suffix
  }

  predicate StartsWith(s: string, prefix: string) {
    |prefix| <= |s| && s[..|prefix|] == prefix
  }

  function TrimStart(s: string): string {
    if s != [] && IsSpace(s[0]) then TrimStart(s[1..]) else s
  }

  function TrimEnd(s: string): string {
    if s != [] && IsSpace(s[|s| - 1]) then TrimEnd(s[..|s| - 1]) else s
  }

  function Trim(s: string): string {
    TrimEnd(TrimStart(s))
  }

  function TrimSlashes(s: string): string {
    if s != [] && s[|s| - 1] == '/' then TrimSlashes(s[..|s| - 1]) else s
  }

  function StripV1(s: string): string {
    if EndsWith(s, V1) then s[..|s| - 3] else s
  }

  // ---- The rules, one at a time, in any order ----

  /** `t` is `s` after one rule: lose a leading space, a trailing space, a trailing slash, or
      a trailing `/v1`. */
  ghost predicate Reduces(s: string, t: string) {
    || (s != [] && IsSpace(s[0]) && t == s[1..])
    || ReducesRight(s, t)
  }

  ghost predicate ReducesRight(s: string, t: string) {
    || (s != [] && (IsSpace(s[|s| - 1]) || s[|s| - 1] == '/') && t == s[..|s| - 1])
    || (EndsWith(s, V1) && t == s[..|s| - 3])
  }

  ghost predicate Normal(s: string) {
    && (s != [] ==> !IsSpace(s[0]) && !IsSpace(s[|s| - 1]) && s[|s| - 1] != '/')
    && !EndsWith(s, V1)
  }

  /** What is left when every rule that works on the right has been used up. */
  function Right(s: string): string {
    if s == [] then s
    else if IsSpace(s[|s| - 1]) || s[|s| - 1] == '/' then Right(s[..|s| - 1])
    else if EndsWith(s, V1) then Right(s[..|s| - 3])
    else s
  }

  /** The normal form. */
  function Norm(s: string): string {
    Right(TrimStart(s))
  }

  lemma {:induction false} RightStep(s: string, t: string)
    requires ReducesRight(s, t)
    ensures Right(t) == Right(s)
  {
    if EndsWith(s, V1) {
      assert s[|s| - 3..][2] == V1[2];
      assert s[|s| - 1] == '1';
    }
  }

  /** Trimming the left commutes with every rule on the right. */
  lemma {:induction false} TrimStartCommutes(s: string, t: string)
    requires ReducesRight(s, t)
    ensures TrimStart(s) == TrimStart(t) || ReducesRight(TrimStart(s), TrimStart(t))
    decreases |s|
  {
    if EndsWith(s, V1) {
      assert s[|s| - 3..][0] == V1[0];
    }
    if IsSpace(s[0]) && t != [] {
      TailReduces(s, t);
      TrimStartCommutes(s[1..], t[1..]);
    }
  }

  lemma {:induction false} TailReduces(s: string, t: string)
    requires ReducesRight(s, t) && t != []
    ensures ReducesRight(s[1..], t[1..]) && t[0] == s[0]
  {
    if EndsWith(s, V1) && t == s[..|s| - 3] {
      assert s[1..][|s[1..]| - 3..] == s[|s| - 3..];
      assert s[1..][..|s[1..]| - 3] == t[1..];
    } else {
      assert s[1..][..|s[1..]| - 1] == t[1..];
    }
  }

  /** CONFLUENCE, one step: every rule leaves the normal form what it was. */
  lemma {:induction false} StepKeepsNorm(s: string, t: string)
    requires Reduces(s, t)
    ensures Norm(t) == Norm(s) && |t| < |s|
  {
    if ReducesRight(s, t) {
      TrimStartCommutes(s, t);
      if TrimStart(s) != TrimStart(t) {
        RightStep(TrimStart(s), TrimStart(t));
      }
    }
  }

  lemma {:induction false} RightOfNormal(s: string)
    requires Normal(s)
    ensures Norm(s) == s
  {
  }

  ghost predicate Chain(steps: seq<string>) {
    steps != [] && forall i, j :: 0 <= i && j == i + 1 < |steps| ==> Reduces(steps[i], steps[j])
  }

  /** UNIQUE NORMAL FORM. Whichever rules are applied, in whichever order, as long as any
      applies: the end is always the same. */
  lemma {:induction false} EveryOrderEndsAlike(steps: seq<string>)
    requires Chain(steps) && Normal(steps[|steps| - 1])
    ensures steps[|steps| - 1] == Norm(steps[0])
  {
    if |steps| == 1 {
      RightOfNormal(steps[0]);
    } else {
      assert Chain(steps[1..]);
      EveryOrderEndsAlike(steps[1..]);
      StepKeepsNorm(steps[0], steps[1]);
    }
  }

  /** And there is always an end: the normal form is normal. */
  lemma {:induction false} NormIsNormal(s: string)
    ensures Normal(Norm(s)) && Norm(Norm(s)) == Norm(s)
  {
    TrimStartShape(s);
    RightIsNormal(TrimStart(s));
    RightOfNormal(Norm(s));
  }

  lemma {:induction false} RightIsNormal(s: string)
    requires s != [] ==> !IsSpace(s[0])
    ensures Normal(Right(s))
    decreases |s|
  {
    if s == [] {
    } else if IsSpace(s[|s| - 1]) || s[|s| - 1] == '/' {
      RightIsNormal(s[..|s| - 1]);
    } else if EndsWith(s, V1) {
      RightIsNormal(s[..|s| - 3]);
    }
  }

  lemma {:induction false} TrimStartShape(s: string)
    ensures var t := TrimStart(s);
      |t| <= |s| && t == s[|s| - |t|..] && (t != [] ==> !IsSpace(t[0])) && TrimStart(t) == t
  {
    if s != [] && IsSpace(s[0]) {
      TrimStartShape(s[1..]);
    }
  }

  lemma {:induction false} TrimEndShape(s: string)
    ensures var t := TrimEnd(s);
      |t| <= |s| && t == s[..|t|] && (t != [] ==> !IsSpace(t[|t| - 1])) && Norm(t) == Norm(s)
  {
    if s != [] && IsSpace(s[|s| - 1]) {
      TrimEndShape(s[..|s| - 1]);
      StepKeepsNorm(s, s[..|s| - 1]);
    }
  }

  lemma {:induction false} TrimSlashesShape(s: string)
    ensures var t := TrimSlashes(s);
      |t| <= |s| && t == s[..|t|] && (t != [] ==> t[|t| - 1] != '/') && Norm(t) == Norm(s)
  {
    if s != [] && s[|s| - 1] == '/' {
      TrimSlashesShape(s[..|s| - 1]);
      StepKeepsNorm(s, s[..|s| - 1]);
    }
  }

  /** What a trim takes off is all space, and what it leaves neither starts nor ends with one. */
  lemma {:induction false} TrimIsExact(s: string) returns (lo: nat, hi: nat)
    ensures lo <= hi <= |s| && Trim(s) == s[lo..hi]
    ensures forall i :: 0 <= i < lo || hi <= i < |s| ==> IsSpace(s[i])
    ensures Trim(s) != [] ==> !IsSpace(s[lo]) && !IsSpace(s[hi - 1])
  {
    lo := SpacesInFront(s);
    var t := s[lo..];
    var n := SpacesBehind(t);
    hi := lo + n;
    assert t[..n] == s[lo..hi];
    forall i | hi <= i < |s| ensures IsSpace(s[i]) {
      assert t[i - lo] == s[i];
    }
  }

  lemma {:induction false} SpacesInFront(s: string) returns (lo: nat)
    ensures lo <= |s| && TrimStart(s) == s[lo..]
    ensures (forall i :: 0 <= i < lo ==> IsSpace(s[i])) && (lo < |s| ==> !IsSpace(s[lo]))
  {
    if s != [] && IsSpace(s[0]) {
      var n := SpacesInFront(s[1..]);
      lo := n + 1;
      forall i | 0 < i < lo ensures IsSpace(s[i]) {
        assert s[i] == s[1..][i - 1];
      }
    } else {
      lo := 0;
    }
  }

  lemma {:induction false} SpacesBehind(s: string) returns (hi: nat)
    ensures hi <= |s| && TrimEnd(s) == s[..hi]
    ensures (forall i :: hi <= i < |s| ==> IsSpace(s[i])) && (hi > 0 ==> !IsSpace(s[hi - 1]))
  {
    if s != [] && IsSpace(s[|s| - 1]) {
      hi := SpacesBehind(s[..|s| - 1]);
      assert s[..|s| - 1][..hi] == s[..hi];
    } else {
      hi := |s|;
    }
  }

  // ---- The loop ----

  ghost predicate SliceOf(out: string, raw: string) {
    exists lo, hi :: 0 <= lo <= hi <= |raw| && out == raw[lo..hi]
  }

  lemma {:induction false} SliceOfSlice(a: string, b: string, raw: string, lo: nat, hi: nat)
    requires SliceOf(b, raw) && lo <= hi <= |b| && a == b[lo..hi]
    ensures SliceOf(a, raw)
  {
    var l, h :| 0 <= l <= h <= |raw| && b == raw[l..h];
    var again := raw[l + lo..l + hi];
    forall i | 0 <= i < hi - lo ensures again[i] == b[lo..hi][i] {
      assert b[lo + i] == raw[l + (lo + i)];
    }
    assert a == again;
  }

  lemma {:induction false} TrimShape(s: string, raw: string)
    requires SliceOf(s, raw)
    ensures SliceOf(Trim(s), raw) && Norm(Trim(s)) == Norm(s) && |Trim(s)| <= |s|
    ensures |Trim(s)| == |s| && s != [] ==> Trim(s) == s && !IsSpace(s[0]) && !IsSpace(s[|s| - 1])
  {
    var t := TrimStart(s);
    var e := TrimEnd(t);
    TrimStartShape(s);
    TrimEndShape(t);
    assert SliceOf(t, raw) by { SliceOfSlice(t, s, raw, |s| - |t|, |s|); }
    assert SliceOf(e, raw) by { SliceOfSlice(e, t, raw, 0, |e|); }
    assert Norm(t) == Norm(s);
    if |e| == |s| && s != [] {
      WholeSlice(t, s);
      WholeSlice(e, t);
    }
  }

  /** A slice as long as the whole is the whole. */
  lemma {:induction false} WholeSlice(t: string, s: string)
    requires |t| == |s| && (t == s[|s| - |t|..] || t == s[..|t|])
    ensures t == s
  {
  }

  /** One pass of the loop: still a slice with the same normal form; shorter, or finished. */
  lemma {:induction false} OnePass(out: string, raw: string)
    requires SliceOf(out, raw)
    ensures var next := StripV1(Trim(TrimSlashes(Trim(out))));
      && SliceOf(next, raw) && Norm(next) == Norm(out)
      && (next == out ==> Normal(out)) && (next != out ==> |next| < |out|)
  {
    var a := Trim(out);
    TrimShape(out, raw);
    var b := TrimSlashes(a);
    TrimSlashesShape(a);
    SliceOfSlice(b, a, raw, 0, |b|);
    var c := Trim(b);
    TrimShape(b, raw);
    StripShape(c, raw);
  }

  lemma {:induction false} StripShape(s: string, raw: string)
    requires SliceOf(s, raw)
    ensures SliceOf(StripV1(s), raw) && Norm(StripV1(s)) == Norm(s) && |StripV1(s)| <= |s|
    ensures |StripV1(s)| == |s| ==> StripV1(s) == s && !EndsWith(s, V1)
  {
    if EndsWith(s, V1) {
      StepKeepsNorm(s, StripV1(s));
      SliceOfSlice(StripV1(s), s, raw, 0, |s| - 3);
    }
  }

  /** Terminates on every input, with a slice of it: the unique normal form. */
  method NormalizeBaseUrl(raw: string) returns (out: string)
    ensures out == Norm(raw) && Normal(out)
    ensures SliceOf(out, raw)
  {
    out := raw;
    assert raw == raw[0..|raw|];
    while true
      invariant SliceOf(out, raw) && Norm(out) == Norm(raw)
      decreases |out|
    {
      var next := StripV1(Trim(TrimSlashes(Trim(out))));
      OnePass(out, raw);
      if next == out {
        RightOfNormal(out);
        return;
      }
      out := next;
    }
  }

  // ---- Request paths ----

  function Collapsed(path: string): (r: string)
    ensures !StartsWith(r, DOUBLE_V1)
    ensures StartsWith(path, "/") ==> StartsWith(r, "/")
    decreases |path|
  {
    if StartsWith(path, DOUBLE_V1) then
      var shorter := "/v1/" + path[7..];
      assert shorter[0] == '/';
      Collapsed(shorter)
    else path
  }

  method NormalizePath(path: string) returns (out: string)
    ensures out == Collapsed(path)
    ensures exists k: nat :: CollapsesBy(path, out, k)
    ensures !StartsWith(path, "/v1/v1/") ==> out == path
  {
    out := path;
    ghost var k: nat := 0;
    while StartsWith(out, DOUBLE_V1)
      invariant Collapsed(out) == Collapsed(path)
      invariant path == Repeat(k) + out && (k > 0 ==> StartsWith(out, "/v1/"))
      invariant k > 0 ==> StartsWith(path, "/v1/v1/")
      decreases |out|
    {
      ShortenedByOne(out, "/v1/" + out[7..]);
      RepeatAddsLast(k, "/v1/" + out[7..]);
      out, k := "/v1/" + out[7..], k + 1;
    }
    assert CollapsesBy(path, out, k);
  }

  lemma {:induction false} ShortenedByOne(was: string, out: string)
    requires StartsWith(was, DOUBLE_V1) && out == "/v1/" + was[7..]
    ensures was == "/v1" + out && StartsWith(out, "/v1/")
  {
    assert was == was[..7] + was[7..];
    assert DOUBLE_V1 == "/v1" + "/v1/";
  }

  lemma {:induction false} RepeatAddsLast(k: nat, rest: string)
    ensures Repeat(k + 1) + rest == Repeat(k) + ("/v1" + rest)
  {
    if k > 0 {
      RepeatAddsLast(k - 1, rest);
      assert Repeat(k + 1) + rest == "/v1" + (Repeat(k) + rest);
      assert Repeat(k) + ("/v1" + rest) == "/v1" + (Repeat(k - 1) + ("/v1" + rest));
    }
  }

  /** `path` is `out` behind `k` extra `/v1`s, and no more can be taken off. */
  ghost predicate CollapsesBy(path: string, out: string, k: nat) {
    path == Repeat(k) + out && (k > 0 ==> StartsWith(out, "/v1/")) && !StartsWith(out, "/v1/v1/")
  }

  /** There is only one way to collapse a path. */
  lemma {:induction false} OneWayToCollapse(path: string, out: string, k: nat, out': string, k': nat)
    requires CollapsesBy(path, out, k) && CollapsesBy(path, out', k')
    ensures out == out' && k == k'
  {
    assert (k == 0 ==> path == out) && (k' == 0 ==> path == out');
    if k > 0 && k' > 0 {
      OneLess(out, k);
      OneLess(out', k');
      OneWayToCollapse(path[3..], out, k - 1, out', k' - 1);
    } else if k > 0 {
      StartsDoubled(out, k);
    } else if k' > 0 {
      StartsDoubled(out', k');
    }
  }

  lemma {:induction false} OneLess(out: string, k: nat)
    requires k > 0
    ensures |Repeat(k) + out| >= 3 && (Repeat(k) + out)[3..] == Repeat(k - 1) + out
  {
    var rest := Repeat(k - 1) + out;
    assert Repeat(k) + out == "/v1" + rest;
    assert ("/v1" + rest)[3..] == rest;
  }

  lemma {:induction false} StartsDoubled(out: string, k: nat)
    requires k > 0 && StartsWith(out, "/v1/")
    ensures StartsWith(Repeat(k) + out, "/v1/v1/")
  {
    var rest := Repeat(k - 1) + out;
    assert Repeat(k) + out == "/v1" + rest;
    assert StartsWith(rest, "/v1/") by {
      if k > 1 {
        StartsDoubled(out, k - 1);
        assert rest[..4] == rest[..7][..4];
      }
    }
    assert ("/v1" + rest)[..7] == "/v1" + rest[..4];
  }

  function Repeat(k: nat): string {
    if k == 0 then "" else "/v1" + Repeat(k - 1)
  }

  /** However often the prefix was repeated, the path is the same: collapsing is a left inverse
      of prepending. */
  lemma {:induction false} ExtraPrefixesVanish(k: nat, rest: string)
    ensures Collapsed(Repeat(k) + ("/v1/" + rest)) == Collapsed("/v1/" + rest)
  {
    var path := Repeat(k) + ("/v1/" + rest);
    if k == 0 {
      assert path == "/v1/" + rest;
    } else {
      ExtraPrefixesVanish(k - 1, rest);
      var shorter := Repeat(k - 1) + ("/v1/" + rest);
      assert path == "/v1" + shorter;
      PrefixedByV1(k - 1, rest);
      CollapsesOnce(shorter);
    }
  }

  lemma {:induction false} CollapsesOnce(path: string)
    requires |path| >= 4 && path[..4] == "/v1/"
    ensures Collapsed("/v1" + path) == Collapsed(path)
  {
    var longer := "/v1" + path;
    assert longer[..7] == "/v1" + path[..4] == DOUBLE_V1;
    assert "/v1/" + longer[7..] == path;
  }

  lemma {:induction false} PrefixedByV1(k: nat, rest: string)
    ensures var path := Repeat(k) + ("/v1/" + rest); |path| >= 4 && path[..4] == "/v1/"
  {
    if k > 0 {
      var tail := Repeat(k - 1) + ("/v1/" + rest);
      assert Repeat(k) + ("/v1/" + rest) == "/v1" + tail;
      PrefixedByV1(k - 1, rest);
      assert tail[0] == tail[..4][0] == '/';
    }
  }

  /** `needle` occurs in `s` at `p`. */
  ghost predicate OccursAt(s: string, needle: string, p: nat) {
    p + |needle| <= |s| && s[p..p + |needle|] == needle
  }

  /** NO DOUBLED VERSION AT THE JOIN. A normalised base followed by a normalised path never
      has `/v1/v1/` starting at, ending at, or lying across the point where they meet. */
  lemma {:induction false} JoinNeverDoublesV1(base: string, path: string, p: nat)
    requires StartsWith(path, "/")
    requires p <= |Norm(base)| <= p + 7
    ensures !OccursAt(Norm(base) + Collapsed(path), DOUBLE_V1, p)
  {
    NormIsNormal(base);
    NoDoubleAcross(Norm(base), Collapsed(path), p);
  }

  lemma {:induction false} NoDoubleAcross(b: string, q: string, p: nat)
    requires Normal(b) && StartsWith(q, "/") && !StartsWith(q, DOUBLE_V1)
    requires p <= |b| <= p + 7
    ensures !OccursAt(b + q, DOUBLE_V1, p)
  {
    if OccursAt(b + q, DOUBLE_V1, p) {
      if p == |b| {
        AllInThePath(b, q);
      } else if p + 7 == |b| {
        OccursChar(b + q, p, 6);
      } else {
        MeetsAtASlash(b, q, p);
        BaseEndsInV1(b, q, p);
      }
    }
  }

  lemma {:induction false} OccursChar(s: string, p: nat, i: nat)
    requires OccursAt(s, DOUBLE_V1, p) && i < 7
    ensures s[p + i] == ['/', 'v', '1', '/', 'v', '1', '/'][i]
  {
    assert DOUBLE_V1 == ['/', 'v', '1', '/', 'v', '1', '/'];
    assert s[p..p + 7][i] == s[p + i];
  }

  lemma {:induction false} AllInThePath(b: string, q: string)
    requires OccursAt(b + q, DOUBLE_V1, |b|)
    ensures StartsWith(q, DOUBLE_V1)
  {
    assert (b + q)[|b|..|b| + 7] == q[..7];
  }

  lemma {:induction false} MeetsAtASlash(b: string, q: string, p: nat)
    requires OccursAt(b + q, DOUBLE_V1, p) && p < |b| < p + 7 && StartsWith(q, "/")
    ensures |b| - p == 3 || |b| - p == 6
  {
    OccursChar(b + q, p, |b| - p);
    assert (b + q)[|b|] == q[..1][0];
  }

  lemma {:induction false} BaseEndsInV1(b: string, q: string, p: nat)
    requires OccursAt(b + q, DOUBLE_V1, p) && (|b| == p + 3 || |b| == p + 6)
    ensures EndsWith(b, V1)
  {
    var k := |b| - 3 - p;
    OccursChar(b + q, p, k);
    OccursChar(b + q, p, k + 1);
    OccursChar(b + q, p, k + 2);
    assert b[|b| - 3..] == ['/', 'v', '1'] == V1;
  }
}
