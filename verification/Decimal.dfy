/** Decimal printing and scanning as Go's fmt does it, and the order of the printed texts. */
module Decimal {
  import opened Options

  function Digit(d: nat): char
    requires d < 10
  {
    ('0' as int + d) as char
  }

  predicate IsDigit(ch: char) {
    '0' <= ch <= '9'
  }

  predicate AllDigits(s: string) {
    forall i :: 0 <= i < |s| ==> IsDigit(s[i])
  }

  /** The verb %d for a number that is not negative. */
  function Dec(n: nat): string {
    if n < 10 then [Digit(n)] else Dec(n / 10) + [Digit(n % 10)]
  }

  /** The verb %d. */
  function Signed(n: int): string {
    if n < 0 then "-" + Dec(-n) else Dec(n)
  }

  function Zeros(n: nat): string {
    seq(n, _ => '0')
  }

  /** The verb %0wd for a number that is not negative. */
  function Padded(n: nat, w: nat): string {
    Pad(Dec(n), w)
  }

  function Pad(digits: string, w: nat): string {
    if |digits| < w then Zeros(w - |digits|) + digits else digits
  }

  function Value(s: string): nat
    requires AllDigits(s)
  {
    if s == [] then 0 else Value(s[..|s| - 1]) * 10 + (s[|s| - 1] as int - '0' as int)
  }

  const MIN_INT64: int := -0x8000_0000_0000_0000
  const MAX_INT64: int := 0x7FFF_FFFF_FFFF_FFFF

  predicate IsSpace(ch: char) {
    var x := ch as int;
    || 0x09 <= x <= 0x0D || x == 0x20 || x == 0x85 || x == 0xA0 || x == 0x1680 || 0x2000 <= x <= 0x200A
    || x == 0x2028 || x == 0x2029 || x == 0x202F || x == 0x205F || x == 0x3000
  }

  /** In ASCII: the blank, and the characters from horizontal tab to carriage return. */
  lemma {:induction false} AsciiSpaces(ch: char)
    requires ch as int < 128
    ensures IsSpace(ch) <==> ch == ' ' || 9 <= ch as int <= 13
  {
  }

  /** Skips white space; a newline is an error. */
  function SkipSpace(s: string): Option<string> {
    if s == [] then Some(s)
    else if s[0] == '\n' then None
    else if IsSpace(s[0]) then SkipSpace(s[1..])
    else Some(s)
  }

  /** The length of the digits at the head of a text. */
  function DigitRun(s: string): (n: nat)
    ensures n <= |s| && AllDigits(s[..n])
    ensures n < |s| ==> !IsDigit(s[n])
  {
    if s == [] || !IsDigit(s[0]) then 0
    else
      var n := 1 + DigitRun(s[1..]);
      assert s[..n] == [s[0]] + s[1..][..n - 1];
      n
  }

  /** Sscanf(s, "%d", &int64): white space, a sign, digits; whatever follows is ignored. */
  function Scan(s: string): Option<int> {
    match SkipSpace(s)
    case None => None
    case Some(t) =>
      var negative := t != [] && t[0] == '-';
      var u := if t != [] && (t[0] == '-' || t[0] == '+') then t[1..] else t;
      var n := DigitRun(u);
      if n == 0 then None
      else
        var magnitude: int := Value(u[..n]);
        var x := if negative then -magnitude else magnitude;
        if MIN_INT64 <= x <= MAX_INT64 then Some(x) else None
  }

  lemma {:induction false} DecDigits(n: nat)
    ensures |Dec(n)| >= 1 && AllDigits(Dec(n)) && Value(Dec(n)) == n
  {
    if n < 10 {
      assert Dec(n)[..0] == [];
    } else {
      DecDigits(n / 10);
      assert Dec(n)[..|Dec(n)| - 1] == Dec(n / 10);
    }
  }

  lemma {:induction false} ThreeMore(n: nat, a: nat, b: nat, c: nat)
    requires n > 0 && a < 10 && b < 10 && c < 10
    ensures Dec(n * 1000 + a * 100 + b * 10 + c) == Dec(n) + [Digit(a), Digit(b), Digit(c)]
  {
    assert Dec(n * 10 + a) == Dec(n) + [Digit(a)];
    assert Dec(n * 100 + a * 10 + b) == Dec(n * 10 + a) + [Digit(b)];
  }

  lemma {:induction false} ScanDigits(d: string)
    requires d != [] && AllDigits(d)
    ensures Value(d) <= MAX_INT64 ==> Scan(d) == Some(Value(d))
    ensures 0 - Value(d) >= MIN_INT64 ==> Scan("-" + d) == Some(0 - Value(d))
  {
    assert DigitRun(d) == |d| && d[..|d|] == d;
    assert ("-" + d)[1..] == d;
    assert IsDigit(d[0]);
    assert SkipSpace(d) == Some(d);
    assert SkipSpace("-" + d) == Some("-" + d);
  }

  /** What %d prints for an int64, %d reads back. */
  lemma {:induction false} ScanSigned(n: int)
    requires -9_223_372_036_854_775_808 <= n <= 9_223_372_036_854_775_807
    ensures Scan(Signed(n)) == Some(n)
  {
    DecDigits(if n < 0 then -n else n);
    ScanDigits(Dec(if n < 0 then -n else n));
  }

  predicate Blank(s: string) {
    forall i :: 0 <= i < |s| ==> IsSpace(s[i]) && s[i] != '\n'
  }

  lemma {:induction false} SkipBlank(blank: string, s: string)
    requires Blank(blank) && (s != "" ==> !IsSpace(s[0]))
    ensures SkipSpace(blank + s) == Some(s)
  {
    if blank == [] {
      assert blank + s == s;
    } else {
      SkipBlank(blank[1..], s);
      assert (blank + s)[1..] == blank[1..] + s;
    }
  }

  lemma {:induction false} RunOfDigits(digits: string, rest: string)
    requires AllDigits(digits) && (rest != "" ==> !IsDigit(rest[0]))
    ensures DigitRun(digits + rest) == |digits|
  {
    if digits == [] {
      assert digits + rest == rest;
    } else {
      RunOfDigits(digits[1..], rest);
      assert (digits + rest)[1..] == digits[1..] + rest;
    }
  }

  /** White space, a sign or none, and digits are scanned as that number if it is an int64, whatever comes
      behind the digits; without digits nothing is. */
  lemma {:induction false} ScanReads(blank: string, sign: string, digits: string, rest: string)
    requires Blank(blank) && sign in {"", "+", "-"} && AllDigits(digits)
    requires rest != "" ==> !IsDigit(rest[0]) && !IsSpace(rest[0]) && rest[0] !in {'+', '-'}
    ensures var n := if sign == "-" then 0 - Value(digits) else Value(digits);
            Scan(blank + (sign + (digits + rest))) ==
            if digits != "" && -9_223_372_036_854_775_808 <= n <= 9_223_372_036_854_775_807 then Some(n) else None
  {
    var u := digits + rest;
    var t := sign + u;
    assert u != "" ==> u[0] == if digits != "" then digits[0] else rest[0];
    assert sign == "" ==> t == u;
    assert sign != "" ==> t[0] == sign[0] && t[1..] == u;
    SkipBlank(blank, t);
    RunOfDigits(digits, rest);
    assert u[..|digits|] == digits;
  }

  // ----- order -----

  /** Strings in the order in which bytes are compared. */
  predicate Less(a: string, b: string) {
    if b == [] then false
    else if a == [] then true
    else a[0] < b[0] || (a[0] == b[0] && Less(a[1..], b[1..]))
  }

  lemma {:induction false} LessIrreflexive(a: string)
    ensures !Less(a, a)
  {
    if a != [] {
      LessIrreflexive(a[1..]);
    }
  }

  lemma {:induction false} LessAppend(a: string, b: string, x: string, y: string)
    requires |a| == |b|
    ensures Less(a + x, b + y) <==> Less(a, b) || (a == b && Less(x, y))
  {
    if a == [] {
      assert a + x == x && b + y == y;
    } else {
      LessAppend(a[1..], b[1..], x, y);
      assert (a + x)[1..] == a[1..] + x && (b + y)[1..] == b[1..] + y;
      assert a == [a[0]] + a[1..] && b == [b[0]] + b[1..];
    }
  }

  lemma {:induction false} DigitOrder(d: nat, e: nat)
    requires d < 10 && e < 10
    ensures Less([Digit(d)], [Digit(e)]) <==> d < e
    ensures Digit(d) == Digit(e) <==> d == e
  {
  }

  /** Numbers with equally many digits are ordered as their texts are. */
  lemma {:induction false} DecOrder(m: nat, n: nat)
    requires |Dec(m)| == |Dec(n)|
    ensures Less(Dec(m), Dec(n)) <==> m < n
    ensures Dec(m) == Dec(n) <==> m == n
  {
    DecDigits(m);
    DecDigits(n);
    if m < 10 || n < 10 {
      DecDigits(m / 10);
      DecDigits(n / 10);
      DigitOrder(m % 10, n % 10);
    } else {
      DecOrder(m / 10, n / 10);
      DigitOrder(m % 10, n % 10);
      LessAppend(Dec(m / 10), Dec(n / 10), [Digit(m % 10)], [Digit(n % 10)]);
    }
  }

  /** The last `w` digits. */
  function Fixed(n: nat, w: nat): string {
    if w == 0 then [] else Fixed(n / 10, w - 1) + [Digit(n % 10)]
  }

  function Pow10(k: nat): (p: nat)
    ensures p >= 1
  {
    if k == 0 then 1 else 10 * Pow10(k - 1)
  }

  lemma {:induction false} FixedOrder(m: nat, n: nat, w: nat)
    requires m < Pow10(w) && n < Pow10(w)
    ensures |Fixed(m, w)| == |Fixed(n, w)| == w
    ensures Less(Fixed(m, w), Fixed(n, w)) <==> m < n
    ensures Fixed(m, w) == Fixed(n, w) <==> m == n
  {
    if w > 0 {
      FixedOrder(m / 10, n / 10, w - 1);
      DigitOrder(m % 10, n % 10);
      LessAppend(Fixed(m / 10, w - 1), Fixed(n / 10, w - 1), [Digit(m % 10)], [Digit(n % 10)]);
      assert Fixed(m, w)[..w - 1] == Fixed(m / 10, w - 1) && Fixed(n, w)[..w - 1] == Fixed(n / 10, w - 1);
      assert Fixed(m, w)[w - 1] == Digit(m % 10) && Fixed(n, w)[w - 1] == Digit(n % 10);
    }
  }

  lemma {:induction false} FixedZero(w: nat)
    ensures Fixed(0, w) == Zeros(w)
  {
    if w > 0 {
      FixedZero(w - 1);
      assert Zeros(w) == Zeros(w - 1) + ['0'];
    }
  }

  /** Padding a number that has at most `w` digits writes its last `w` digits. */
  lemma {:induction false} PaddedIsFixed(n: nat, w: nat)
    requires n < Pow10(w) && w >= 1
    ensures |Dec(n)| <= w && Padded(n, w) == Fixed(n, w)
  {
    if n < 10 {
      FixedZero(w - 1);
      assert n / 10 == 0 && n % 10 == n && Fixed(n, w) == Fixed(0, w - 1) + [Digit(n)];
      assert w == 1 ==> Zeros(0) + Dec(n) == Dec(n);
    } else {
      assert Pow10(1) == 10 && Pow10(w) == 10 * Pow10(w - 1);
      assert w > 1 && n / 10 < Pow10(w - 1);
      PaddedIsFixed(n / 10, w - 1);
      PadMore(Dec(n / 10), Digit(n % 10), w);
    }
  }

  lemma {:induction false} PadMore(digits: string, last: char, w: nat)
    requires |digits| < w
    ensures Pad(digits + [last], w) == Pad(digits, w - 1) + [last]
  {
    if |digits| + 1 < w {
      var z := Zeros(w - |digits| - 1);
      assert z + (digits + [last]) == (z + digits) + [last];
    }
  }

  lemma {:induction false} DecLength(n: nat, k: nat)
    requires k >= 1 && n < Pow10(k) && (k == 1 || Pow10(k - 1) <= n)
    ensures |Dec(n)| == k
  {
    if k > 1 {
      assert Pow10(1) == 10;
      PowGrows(k - 1);
      DecLength(n / 10, k - 1);
    }
  }

  lemma {:induction false} PowGrows(k: nat)
    requires k >= 1
    ensures Pow10(k) >= 10
  {
    if k > 1 {
      PowGrows(k - 1);
    }
  }

  // ----- numbers with different numbers of digits -----

  lemma {:induction false} Apart(a: nat, b: nat, m: nat)
    requires a < b
    ensures a * m + m <= b * m
  {
    if b == a + 1 {
      assert b * m == a * m + m;
    } else {
      Apart(a, b - 1, m);
      assert b * m == (b - 1) * m + m;
    }
  }

  lemma {:induction false} QuotientIs(n: nat, m: nat, q: nat, r: nat)
    requires n == q * m + r && r < m
    ensures n / m == q
  {
    var q': nat, r' := n / m, n % m;
    assert n == q' * m + r';
    if q' < q {
      Apart(q', q, m);
    } else if q < q' {
      Apart(q, q', m);
    }
  }

  lemma {:induction false} TenTimes(n: nat, p: nat)
    requires p >= 1
    ensures n / (10 * p) == n / 10 / p
  {
    var t := n / 10;
    var q, r := t / p, t % p;
    assert t == q * p + r;
    assert q * (10 * p) == 10 * (q * p);
    QuotientIs(n, 10 * p, q, 10 * r + n % 10);
  }

  /** A number without its last digits. */
  function Leading(n: nat, k: nat): nat {
    if k == 0 then n else Leading(n / 10, k - 1)
  }

  lemma {:induction false} LeadingIsQuotient(n: nat, k: nat)
    ensures Leading(n, k) == n / Pow10(k)
  {
    if k == 0 {
      assert Pow10(0) == 1;
    } else {
      LeadingIsQuotient(n / 10, k - 1);
      TenTimes(n, Pow10(k - 1));
    }
  }

  lemma {:induction false} DecPrefix(n: nat, k: nat)
    requires k < |Dec(n)|
    ensures Dec(n)[..|Dec(n)| - k] == Dec(Leading(n, k))
  {
    if k == 0 {
      assert Dec(n)[..|Dec(n)|] == Dec(n);
    } else {
      var d := Dec(n / 10);
      assert Dec(n) == d + [Digit(n % 10)];
      DecPrefix(n / 10, k - 1);
      assert Dec(n)[..|Dec(n)| - k] == d[..|d| - (k - 1)];
    }
  }

  lemma {:induction false} SignedInjective(m: int, n: int)
    ensures Signed(m) == Signed(n) <==> m == n
  {
    var a: nat, b: nat := if m < 0 then -m else m, if n < 0 then -n else n;
    DecDigits(a);
    DecDigits(b);
    assert IsDigit(Dec(a)[0]) && IsDigit(Dec(b)[0]);
    if m < 0 && n < 0 {
      assert Signed(m)[1..] == Dec(a) && Signed(n)[1..] == Dec(b);
    }
  }
}
