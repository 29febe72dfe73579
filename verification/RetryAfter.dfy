/** How long a rebuffed lane is benched for. */
module RetryAfter {
  import opened Basics
  import Urls

  const MAX_RETRY_AFTER: nat := 60
  const DEFAULT_BENCH: nat := 5

  function Digits(s: string): Option<nat> {
    if s == [] then Some(0)
    else
      var n := |s| - 1;
      match Digits(s[..n])
      case None => None
      case Some(v) => if '0' <= s[n] <= '9' then Some(10 * v + (s[n] as int - '0' as int)) else None
  }

  /** Decimal u64, with the optional plus sign Rust's `parse` allows. */
  function ParseU64(s: string): Option<nat> {
    var body := if s != [] && s[0] == '+' then s[1..] else s;
    if body == [] then None
    else
      match Digits(body)
      case Some(v) => if v < 0x1_0000_0000_0000_0000 then Some(v) else None
      case None => None
  }

  /** Seconds to bench a lane for, given its `Retry-After` header if it sent one. */
  function BenchSecs(header: Option<string>): (secs: nat)
    ensures secs <= MAX_RETRY_AFTER
    ensures header.None? ==> secs == DEFAULT_BENCH
    ensures header.Some? && ParseU64(Urls.Trim(header.value)).Some? ==>
              var asked := ParseU64(Urls.Trim(header.value)).value;
              secs == if asked <= MAX_RETRY_AFTER then asked else MAX_RETRY_AFTER
    ensures header.Some? && ParseU64(Urls.Trim(header.value)).None? ==> secs == DEFAULT_BENCH
  {
    var asked := if header.Some? then ParseU64(Urls.Trim(header.value)) else None;
    match asked
    case None => DEFAULT_BENCH
    case Some(n) => if n < MAX_RETRY_AFTER then n else MAX_RETRY_AFTER
  }

  const LONGEST_BENCH: nat := MAX_RETRY_AFTER * SECOND

  /** The bench a `Retry-After` header leads to, in milliseconds. */
  function BenchSpan(header: Option<string>): (span: nat)
    ensures span <= LONGEST_BENCH
    ensures header.None? ==> span == DEFAULT_BENCH * SECOND
  {
    BenchSecs(header) * SECOND
  }

  // ---- Which headers say what ----

  /** A number in decimal, with no leading zero: nothing at all for zero. */
  function Decimal(n: nat): string {
    if n == 0 then "" else Decimal(n / 10) + [('0' as int + n % 10) as char]
  }

  /** A number as a header may write it: a plus sign or none, any zeros, and its digits. */
  function Written(plus: bool, zeros: nat, n: nat): string {
    (if plus then "+" else "") + Copies(zeros, '0') + Decimal(n)
  }

  predicate IsDigit(c: char) {
    '0' <= c <= '9'
  }

  lemma {:induction false} DigitsAdd(s: string, c: char)
    ensures Digits(s + [c]) == if Digits(s).Some? && IsDigit(c)
                               then Some(10 * Digits(s).value + (c as int - '0' as int))
                               else None
  {
    assert (s + [c])[..|s|] == s;
  }

  lemma {:induction false} ZerosAreZero(zeros: nat)
    ensures Digits(Copies(zeros, '0')) == Some(0)
  {
    if zeros > 0 {
      ZerosAreZero(zeros - 1);
      DigitsAdd(Copies(zeros - 1, '0'), '0');
    }
  }

  /** Reading back what was written. */
  lemma {:induction false} DigitsReadBack(zeros: nat, n: nat)
    ensures Digits(Copies(zeros, '0') + Decimal(n)) == Some(n)
  {
    if n == 0 {
      ZerosAreZero(zeros);
      assert Copies(zeros, '0') + [] == Copies(zeros, '0');
    } else {
      var front, c := Copies(zeros, '0') + Decimal(n / 10), ('0' as int + n % 10) as char;
      DigitsReadBack(zeros, n / 10);
      DigitsAdd(front, c);
      assert Copies(zeros, '0') + Decimal(n) == front + [c];
    }
  }

  /** Nothing else reads as a number. */
  lemma {:induction false} DigitsAreWritten(s: string) returns (zeros: nat)
    requires Digits(s).Some?
    ensures s == Copies(zeros, '0') + Decimal(Digits(s).value)
  {
    if s == [] {
      zeros := 0;
    } else {
      var front, c := s[..|s| - 1], s[|s| - 1];
      var v, d := Digits(front).value, c as int - '0' as int;
      zeros := DigitsAreWritten(front);
      assert s == front + [c];
      if 10 * v + d > 0 {
        DecimalAdds(v, d);
        assert s == Copies(zeros, '0') + Decimal(10 * v + d);
      } else {
        assert front == Copies(zeros, '0') + [] == Copies(zeros, '0');
        zeros := zeros + 1;
        assert s == Copies(zeros, '0') == Copies(zeros, '0') + [];
      }
    }
  }

  lemma {:induction false} DecimalAdds(v: nat, d: nat)
    requires d < 10 && 10 * v + d > 0
    ensures Decimal(10 * v + d) == Decimal(v) + [('0' as int + d) as char]
  {
    assert (10 * v + d) / 10 == v && (10 * v + d) % 10 == d;
  }

  /** A header is read as a number exactly when it is one written out, small enough for 64 bits. */
  lemma {:induction false} ParsesIffWritten(s: string, n: nat)
    ensures ParseU64(s) == Some(n) <==> n < 0x1_0000_0000_0000_0000 && IsWritten(s, n)
  {
    if plus, zeros: nat :| (zeros > 0 || n > 0) && s == Written(plus, zeros, n) {
      WrittenParses(plus, zeros, n);
    }
    if ParseU64(s) == Some(n) {
      ParsedIsWritten(s, n);
    }
  }

  lemma {:induction false} ParsedIsWritten(s: string, n: nat)
    requires ParseU64(s) == Some(n)
    ensures n < 0x1_0000_0000_0000_0000 && IsWritten(s, n)
  {
    var plus := s[0] == '+';
    var body := if plus then s[1..] else s;
    var zeros := DigitsAreWritten(body);
    assert s == (if plus then "+" else "") + body;
    WrittenIs(plus, zeros, n, body);
    assert zeros > 0 || n > 0 by {
      assert zeros == 0 && n == 0 ==> body == [] + [];
    }
  }

  lemma {:induction false} WrittenIs(plus: bool, zeros: nat, n: nat, body: string)
    requires body == Copies(zeros, '0') + Decimal(n)
    ensures Written(plus, zeros, n) == (if plus then "+" else "") + body
  {
  }

  ghost predicate IsWritten(s: string, n: nat) {
    exists plus, zeros: nat :: (zeros > 0 || n > 0) && s == Written(plus, zeros, n)
  }

  lemma {:induction false} WrittenParses(plus: bool, zeros: nat, n: nat)
    requires zeros > 0 || n > 0
    ensures ParseU64(Written(plus, zeros, n)) == if n < 0x1_0000_0000_0000_0000 then Some(n) else None
  {
    var body := Copies(zeros, '0') + Decimal(n);
    DigitsReadBack(zeros, n);
    FirstIsDigit(zeros, n);
    assert Written(plus, zeros, n) == (if plus then "+" else "") + body;
    SignIsIgnored(body, plus);
  }

  lemma {:induction false} SignIsIgnored(body: string, plus: bool)
    requires body != [] && IsDigit(body[0]) && Digits(body).Some?
    ensures ParseU64((if plus then "+" else "") + body)
         == var v := Digits(body).value; if v < 0x1_0000_0000_0000_0000 then Some(v) else None
  {
    var s := (if plus then "+" else "") + body;
    assert plus ==> s[1..] == body;
    assert !plus ==> s == body;
  }

  lemma {:induction false} FirstIsDigit(zeros: nat, n: nat)
    requires zeros > 0 || n > 0
    ensures var body := Copies(zeros, '0') + Decimal(n); body != [] && IsDigit(body[0])
  {
    if zeros == 0 && n / 10 > 0 {
      FirstIsDigit(zeros, n / 10);
      assert Decimal(n)[0] == Decimal(n / 10)[0];
    }
  }

  /** OBEYED UP TO A MINUTE. A `Retry-After` that is a number, spaces around it or not, benches for
      that many seconds, but sixty at most; any other, and none at all, for five. */
  lemma {:induction false} ObeyedUpToAMinute(header: string, n: nat)
    ensures IsWritten(Urls.Trim(header), n) && n < 0x1_0000_0000_0000_0000 ==>
              BenchSecs(Some(header)) == if n < 60 then n else 60
    ensures (forall v: nat :: v < 0x1_0000_0000_0000_0000 ==> !IsWritten(Urls.Trim(header), v)) ==>
              BenchSecs(Some(header)) == 5
    ensures BenchSecs(None) == 5
    ensures forall h :: BenchSpan(h) == 1000 * BenchSecs(h)
  {
    var s := Urls.Trim(header);
    ParsesIffWritten(s, n);
    if ParseU64(s).Some? {
      ParsesIffWritten(s, ParseU64(s).value);
    }
  }
}
