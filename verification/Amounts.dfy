/** Printing and parsing of amounts (internal/domain/amount.go, chain.go; internal/backend/amount.go;
    internal/service/fee.go). */
module Amounts {
  import opened Base
  import T = Texts

  newtype int64 = x: int | -0x8000_0000_0000_0000 <= x < 0x8000_0000_0000_0000

  const MIN64 := -0x8000_0000_0000_0000
  const SAT_PER_BTC := 100_000_000
  const MAX_MONEY: int64 := 2_100_000_000_000_000
  const MAX_FEE_RATE: int64 := 10_000_000
  const MIN_FEE_RATE: int64 := 1

  /** Two's-complement reduction to 64 bits. */
  function Wrap64(x: int): int { (x - MIN64) % 0x1_0000_0000_0000_0000 + MIN64 }

  // ── decimal numbers ──────────────────────────────────────────────────────────

  function Pow10(n: nat): nat { if n == 0 then 1 else 10 * Pow10(n - 1) }

  lemma {:induction false} DecimalConcat(a: string, b: string)
    requires AllDigits(a) && AllDigits(b)
    ensures AllDigits(a + b) && Decimal(a + b) == Decimal(a) * Pow10(|b|) + Decimal(b)
  {
    if b == "" {
      assert a + b == a;
    } else {
      var front := b[..|b| - 1];
      DecimalConcat(a, front);
      assert (a + b)[..|a + b| - 1] == a + front;
      TimesTen(Decimal(a), Pow10(|front|), Decimal(front));
    }
  }

  lemma TimesTen(x: nat, p: nat, y: nat)
    ensures 10 * (x * p + y) == x * (10 * p) + 10 * y
  {
  }

  lemma {:induction false} DecimalBelow(s: string)
    requires AllDigits(s)
    ensures Decimal(s) < Pow10(|s|)
  {
    if s != "" { DecimalBelow(s[..|s| - 1]); }
  }

  predicate AllZeros(s: string) { forall i :: 0 <= i < |s| ==> s[i] == '0' }

  lemma {:induction false} ZeroMeansZeros(s: string)
    requires AllDigits(s)
    ensures Decimal(s) == 0 <==> AllZeros(s)
  {
    if s != "" {
      ZeroMeansZeros(s[..|s| - 1]);
      assert AllZeros(s) ==> AllZeros(s[..|s| - 1]);
    }
  }

  function Zeros(n: nat): (s: string)
    ensures |s| == n && AllZeros(s)
  {
    seq(n, _ => '0')
  }

  // ── what an amount means ─────────────────────────────────────────────────────

  /** The length of the part before the first '.', or of everything. */
  function PointAt(s: string): (i: nat)
    ensures i <= |s| && (i < |s| ==> s[i] == '.') && forall k :: 0 <= k < i ==> s[k] != '.'
  {
    if s == "" || s[0] == '.' then 0 else 1 + PointAt(s[1..])
  }

  function Whole(s: string): string { s[..PointAt(s)] }

  function Fraction(s: string): string { if PointAt(s) == |s| then "" else s[PointAt(s) + 1..] }

  /** Digits around at most one point. */
  predicate IsNumber(s: string) { AllDigits(Whole(s)) && AllDigits(Fraction(s)) }

  /** `s` in whole coins is exactly `sats` hundred-millionths: no rounding on either side. */
  predicate Denotes(s: string, sats: nat)
    requires IsNumber(s)
  {
    assert AllDigits(Whole(s) + Fraction(s));
    sats * Pow10(|Fraction(s)|) == Decimal(Whole(s) + Fraction(s)) * Pow10(8)
  }

  function StripPlus(s: string): string { if s != "" && s[0] == '+' then s[1..] else s }

  predicate HasSuffix(s: string, suffix: string) { |suffix| <= |s| && s[|s| - |suffix|..] == suffix }

  datatype Unit = Sat | Btc

  /** The unit a trimmed lower-case amount carries, and what is left of it. */
  function UnitOf(s: string): (Unit, string) {
    if HasSuffix(s, "sats") then (Sat, s[..|s| - 4])
    else if HasSuffix(s, "sat") then (Sat, s[..|s| - 3])
    else if HasSuffix(s, "btc") then (Btc, s[..|s| - 3])
    else (Btc, s)
  }

  function Trim(s: string): string { T.TrimBy(s, T.IsSpace) }

  predicate BodyMeans(unit: Unit, body: string, sats: nat) {
    var s := StripPlus(Trim(body));
    match unit
    case Sat => s != "" && AllDigits(s) && Decimal(s) == sats
    case Btc => s != "" && s != "." && IsNumber(s) && Denotes(s, sats)
  }

  /** What an amount argument means, if anything. */
  predicate Means(s: string, sats: nat) {
    var t := Lower(Trim(s));
    t != "" && t[0] != '-' && BodyMeans(UnitOf(t).0, UnitOf(t).1, sats)
  }

  // ── the digit loops ──────────────────────────────────────────────────────────

  function PadTo8(s: string): string
    requires |s| <= 8
  {
    s + Zeros(8 - |s|)
  }

  /** The eight fractional digits that count, when no later digit does. */
  predicate FitsEight(fraction: string) { |fraction| > 8 ==> AllZeros(fraction[8..]) }

  function Eight(fraction: string): string { if |fraction| > 8 then fraction[..8] else PadTo8(fraction) }

  /** The number after the first `i` digits, continuing from `start`. */
  function Running(start: nat, digits: string, i: nat): nat
    requires i <= |digits| && AllDigits(digits[..i])
  {
    start * Pow10(i) + Decimal(digits[..i])
  }

  lemma RunningNext(start: nat, digits: string, i: nat)
    requires i < |digits| && AllDigits(digits[..i + 1])
    ensures AllDigits(digits[..i])
    ensures Running(start, digits, i + 1) == 10 * Running(start, digits, i) + DigitValue(digits[i])
  {
    assert digits[..i + 1][..i] == digits[..i];
    assert forall k :: 0 <= k < i ==> digits[..i][k] == digits[..i + 1][k];
    assert digits[..i + 1][i] == digits[i];
    TimesTen(start, Pow10(i), Decimal(digits[..i]));
  }

  /** Reading on never makes the number smaller. */
  lemma RunningGrows(start: nat, digits: string, i: nat)
    requires i <= |digits| && AllDigits(digits)
    ensures Running(start, digits, i) <= Running(start, digits, |digits|)
    decreases |digits| - i
  {
    if i < |digits| {
      RunningNext(start, digits, i);
      RunningGrows(start, digits, i + 1);
    }
  }

  /** Digits read so far times ten plus the next digit, refused above a cap. The accumulator is a
      64-bit integer: under the cap no step leaves its range. */
  method ReadDigits(start: int64, digits: string, cap: int64) returns (r: Option<int64>)
    requires 0 <= start <= cap && cap <= MAX_MONEY
    ensures r.Some? <==> AllDigits(digits) && start as int * Pow10(|digits|) + Decimal(digits) <= cap as int
    ensures r.Some? ==> r.value as int == start as int * Pow10(|digits|) + Decimal(digits)
  {
    var sats := start;
    for i := 0 to |digits|
      invariant AllDigits(digits[..i]) && 0 <= sats <= cap
      invariant sats as int == Running(start as int, digits, i)
    {
      if !IsDigit(digits[i]) {
        return None;
      }
      RunningNext(start as int, digits, i);
      sats := sats * 10 + DigitValue(digits[i]) as int64;
      if sats > cap {
        if AllDigits(digits) {
          RunningGrows(start as int, digits, i + 1);
          assert digits[..|digits|] == digits;
        }
        return None;
      }
    }
    assert digits[..|digits|] == digits;
    return Some(sats);
  }

  lemma ScaleUp(n: nat, d: nat, p: nat, q: nat, r: nat)
    requires p * q == r && p > 0
    ensures n * p == d * r <==> n == d * q
  {
    assert d * r == d * q * p;
    if n * p == d * q * p {
      Cancel(n, d * q, p);
    }
  }

  lemma {:induction false} PowSplit(m: nat, n: nat)
    ensures Pow10(m + n) == Pow10(m) * Pow10(n) && Pow10(m) > 0
  {
    if m > 0 { PowSplit(m - 1, n); }
  }

  /** The digits that count give exactly what the text denotes, and if any further digit is not
      zero the text denotes no whole number. */
  lemma DenotesByEight(s: string, sats: nat)
    requires IsNumber(s)
    ensures AllDigits(Eight(Fraction(s))) && AllDigits(Whole(s) + Eight(Fraction(s)))
    ensures Denotes(s, sats) <==> FitsEight(Fraction(s)) && sats == Decimal(Whole(s) + Eight(Fraction(s)))
  {
    var w, f := Whole(s), Fraction(s);
    var k := |f|;
    if k <= 8 {
      ShortFraction(w, f, sats);
    } else {
      LongFraction(w, f, sats);
    }
  }

  lemma ShortFraction(w: string, f: string, sats: nat)
    requires AllDigits(w) && AllDigits(f) && |f| <= 8
    ensures AllDigits(w + f) && AllDigits(w + PadTo8(f))
    ensures sats * Pow10(|f|) == Decimal(w + f) * Pow10(8) <==> sats == Decimal(w + PadTo8(f))
  {
    var z := Zeros(8 - |f|);
    DecimalConcat(w, f);
    DecimalConcat(w + f, z);
    ZeroMeansZeros(z);
    assert w + PadTo8(f) == w + f + z;
    PowSplit(|f|, 8 - |f|);
    ScaleUp(sats, Decimal(w + f), Pow10(|f|), Pow10(8 - |f|), Pow10(8));
  }

  lemma LongFraction(w: string, f: string, sats: nat)
    requires AllDigits(w) && AllDigits(f) && |f| > 8
    ensures AllDigits(w + f) && AllDigits(w + f[..8])
    ensures sats * Pow10(|f|) == Decimal(w + f) * Pow10(8) <==> AllZeros(f[8..]) && sats == Decimal(w + f[..8])
  {
    var a, t := w + f[..8], f[8..];
    assert w + f == a + t;
    DecimalConcat(w, f[..8]);
    DecimalConcat(a, t);
    DecimalBelow(t);
    ZeroMeansZeros(t);
    var p := Pow10(|t|);
    PowSplit(8, |t|);
    CancelCommon(sats, Decimal(a), Decimal(t), p, Pow10(8));
  }

  lemma CancelCommon(n: nat, a: nat, t: nat, p: nat, e: nat)
    requires t < p && e > 0
    ensures n * (e * p) == (a * p + t) * e <==> t == 0 && n == a
  {
    assert n * (e * p) == n * p * e;
    if n * p * e == (a * p + t) * e {
      Cancel(n * p, a * p + t, e);
      Between(n, a, t, p);
    }
  }

  lemma Between(n: nat, a: nat, t: nat, p: nat)
    requires n * p == a * p + t && t < p
    ensures n == a && t == 0
  {
    NotZero(n - a, p);
    assert (n - a) * p == t;
    if n - a >= 1 {
      Monotone(1, n - a, p);
    }
  }

  lemma Monotone(x: nat, y: nat, p: nat)
    requires x <= y
    ensures x * p <= y * p
  {
  }

  lemma NotZero(x: int, p: nat)
    requires p > 0
    ensures x * p == 0 <==> x == 0
    ensures x * p > 0 <==> x > 0
  {
  }

  lemma Cancel(x: int, y: int, e: nat)
    requires e > 0 && x * e == y * e
    ensures x == y
  {
    NotZero(x - y, e);
  }

  // ── the parsers ──────────────────────────────────────────────────────────────

  /** Exact up to the cap: the answer is what the body means, and a refused body means nothing, or
      more than the cap. */
  ghost predicate ExactBelowCap(unit: Unit, body: string, r: Option<int64>) {
    && (r.Some? ==> 0 <= r.value <= MAX_MONEY && BodyMeans(unit, body, r.value as int))
    && (r.None? ==> forall n: nat :: BodyMeans(unit, body, n) ==> n > MAX_MONEY as int)
  }

  method ParseSatSuffix(body: string) returns (r: Option<int64>)
    ensures ExactBelowCap(Sat, body, r)
  {
    var s := StripPlus(Trim(body));
    if s == "" {
      return None;
    }
    if '.' in s {
      assert AllDigits(s) ==> forall c :: c in s ==> IsDigit(c);
      return None;
    }
    r := ReadDigits(0, s, MAX_MONEY);
  }

  /** Whether only zeros follow the eighth fractional digit. */
  method NoFurtherDigit(fraction: string) returns (fits: bool)
    ensures fits == FitsEight(fraction)
  {
    for i := 8 to if |fraction| > 8 then |fraction| else 8
      invariant forall k :: 8 <= k < i ==> fraction[k] == '0'
    {
      if fraction[i] != '0' {
        assert fraction[8..][i - 8] == fraction[i];
        return false;
      }
    }
    return true;
  }

  /** What a body denotes, digit by digit. */
  lemma DenotesExactly(s: string)
    requires IsNumber(s)
    ensures AllDigits(Whole(s) + Eight(Fraction(s)))
    ensures forall n: nat :: Denotes(s, n) <==> FitsEight(Fraction(s)) && n == Decimal(Whole(s) + Eight(Fraction(s)))
  {
    DenotesByEight(s, 0);
    forall n: nat ensures Denotes(s, n) <==> FitsEight(Fraction(s)) && n == Decimal(Whole(s) + Eight(Fraction(s))) {
      DenotesByEight(s, n);
    }
  }

  method ParseBTCBody(body: string) returns (r: Option<int64>)
    ensures ExactBelowCap(Btc, body, r)
  {
    var s := StripPlus(Trim(body));
    if s == "" || s == "." {
      return None;
    }
    var whole, fraction := Whole(s), Fraction(s);
    if IsNumber(s) {
      DenotesExactly(s);
    }
    var fits := NoFurtherDigit(fraction);
    if !fits {
      return None;
    }
    DigitsOfEight(fraction);
    r := ReadTwo(whole, Eight(fraction));
  }

  /** Both digit runs, refused above the money cap. */
  method ReadTwo(whole: string, eight: string) returns (r: Option<int64>)
    requires |eight| == 8
    ensures r.Some? <==> AllDigits(whole) && AllDigits(eight) && Decimal(whole + eight) <= MAX_MONEY as int
    ensures r.Some? ==> r.value as int == Decimal(whole + eight)
  {
    if AllDigits(whole) && AllDigits(eight) {
      DecimalConcat(whole, eight);
      Monotone(1, Pow10(8), Decimal(whole));
    }
    r := ReadDigits(0, whole, MAX_MONEY);
    if r.None? {
      return;
    }
    r := ReadDigits(r.value, eight, MAX_MONEY);
  }

  lemma DigitsOfEight(fraction: string)
    requires FitsEight(fraction)
    ensures AllDigits(fraction) <==> AllDigits(Eight(fraction))
    ensures |Eight(fraction)| == 8
  {
    if |fraction| > 8 {
      assert fraction == fraction[..8] + fraction[8..];
    } else {
      assert forall i :: 0 <= i < |fraction| ==> PadTo8(fraction)[i] == fraction[i];
    }
  }

  /** The amount argument of a send. */
  method ParseAmountToSats(s: string) returns (r: Option<int64>)
    ensures r.Some? ==> 0 <= r.value <= 2_100_000_000_000_000 && Means(s, r.value as int)
    ensures r.None? ==> forall n: nat :: Means(s, n) ==> n > 2_100_000_000_000_000
  {
    var lower := Lower(Trim(s));
    if lower == "" || lower[0] == '-' {
      return None;
    }
    if HasSuffix(lower, "sats") {
      r := ParseSatSuffix(lower[..|lower| - 4]);
    } else if HasSuffix(lower, "sat") {
      r := ParseSatSuffix(lower[..|lower| - 3]);
    } else if HasSuffix(lower, "btc") {
      r := ParseBTCBody(lower[..|lower| - 3]);
    } else {
      r := ParseBTCBody(lower);
    }
  }

  /** An explicit fee rate: a whole number within the relay floor and the cap, or nothing. */
  method ParseFeeRate(s: string) returns (r: Option<int64>)
    ensures var d := StripPlus(s);
            && (r.Some? <==> d != "" && AllDigits(d) && 1 <= Decimal(d) <= 10_000_000)
            && (r.Some? ==> r.value as int == Decimal(d))
  {
    var body := StripPlus(s);
    if body == "" {
      return None;
    }
    r := ReadDigits(0, body, MAX_FEE_RATE);
    if r.Some? && r.value < MIN_FEE_RATE {
      return None;
    }
  }

  // ── the backend's parser, which has no cap ───────────────────────────────────

  lemma WrapShift(x: int, k: int)
    ensures Wrap64(x + k * 0x1_0000_0000_0000_0000) == Wrap64(x)
  {
  }

  lemma WrapParts(x: int) returns (k: int)
    ensures x == Wrap64(x) + k * 0x1_0000_0000_0000_0000
  {
    k := (x - MIN64) / 0x1_0000_0000_0000_0000;
  }

  /** Wrapping at every step is wrapping once. */
  lemma WrapStep(x: int, d: int)
    ensures Wrap64(Wrap64(x) * 10 + d) == Wrap64(x * 10 + d)
    ensures Wrap64(-Wrap64(x)) == Wrap64(-x)
  {
    var k := WrapParts(x);
    WrapShift(Wrap64(x) * 10 + d, 10 * k);
    WrapShift(-x, k);
  }

  function Unsigned(s: string): string {
    var t := Trim(s);
    if t != "" && (t[0] == '-' || t[0] == '+') then t[1..] else t
  }

  function Signed(negative: bool, v: int): int { if negative then -v else v }

  predicate IsNegative(s: string) { Trim(s) != "" && Trim(s)[0] == '-' }

  method WrapDigits(start: int, digits: string) returns (r: Option<int>)
    requires exists v: nat :: start == Wrap64(v)
    ensures r.Some? <==> AllDigits(digits)
    ensures r.Some? ==> forall v: nat :: start == Wrap64(v) ==> r.value == Wrap64(Running(v, digits, |digits|))
  {
    var sats := start;
    for i := 0 to |digits|
      invariant AllDigits(digits[..i])
      invariant forall v: nat :: start == Wrap64(v) ==> sats == Wrap64(Running(v, digits, i))
    {
      if !IsDigit(digits[i]) {
        return None;
      }
      ghost var before := sats;
      sats := Wrap64(sats * 10 + DigitValue(digits[i]));
      forall v: nat | start == Wrap64(v) ensures sats == Wrap64(Running(v, digits, i + 1)) {
        RunningNext(v, digits, i);
        WrapStep(Running(v, digits, i), DigitValue(digits[i]));
      }
    }
    assert digits[..|digits|] == digits;
    return Some(sats);
  }

  /** Both digit runs, wrapping at every step. */
  method WrapTwo(whole: string, eight: string) returns (r: Option<int>)
    ensures r.Some? <==> AllDigits(whole) && AllDigits(eight)
    ensures r.Some? ==> AllDigits(whole + eight) && r.value == Wrap64(Decimal(whole + eight))
  {
    assert Wrap64(0) == 0;
    r := WrapDigits(0, whole);
    if r.None? {
      return;
    }
    assert whole[..|whole|] == whole && eight[..|eight|] == eight;
    ghost var w: nat := Decimal(whole);
    assert r.value == Wrap64(Running(0, whole, |whole|)) == Wrap64(w);
    r := WrapDigits(r.value, eight);
    if r.None? {
      return;
    }
    DecimalConcat(whole, eight);
    assert r.value == Wrap64(Running(w, eight, |eight|));
  }

  ghost predicate ExactModulo(body: string, negative: bool, r: Option<int>) {
    && (r.Some? <==> IsNumber(body) && exists v: nat :: Denotes(body, v))
    && (r.Some? ==> forall v: nat :: Denotes(body, v) ==> r.value == Wrap64(Signed(negative, v)))
  }

  lemma ReadsExactly(body: string, negative: bool, v: nat, r: Option<int>)
    requires IsNumber(body) && Denotes(body, v) && ExactModulo(body, negative, r)
    ensures r == Some(Wrap64(Signed(negative, v)))
  {
  }

  lemma RefusedExactly(body: string, negative: bool)
    requires !IsNumber(body) || !FitsEight(Fraction(body))
    ensures ExactModulo(body, negative, None)
  {
    if IsNumber(body) {
      DenotesExactly(body);
    }
  }

  lemma AcceptedExactly(body: string, negative: bool, wrapped: int)
    requires IsNumber(body) && FitsEight(Fraction(body)) && AllDigits(Whole(body) + Eight(Fraction(body)))
    requires wrapped == Wrap64(Decimal(Whole(body) + Eight(Fraction(body))))
    ensures ExactModulo(body, negative, Some(if negative then Wrap64(-wrapped) else wrapped))
  {
    DenotesExactly(body);
    var v := Decimal(Whole(body) + Eight(Fraction(body)));
    assert Denotes(body, v);
    WrapStep(v, 0);
  }

  /** Exact modulo 2^64: a well-formed amount of whole satoshis gives its signed value, wrapped to 64
      bits; anything else is refused. The empty text counts as zero. */
  method DecimalBTCToSats(s: string) returns (r: Option<int>)
    ensures ExactModulo(Unsigned(s), IsNegative(s), r)
  {
    var body := Trim(s);
    var negative := false;
    if body != "" && body[0] == '-' {
      negative := true;
      body := body[1..];
    } else if body != "" && body[0] == '+' {
      body := body[1..];
    }
    assert body == Unsigned(s) && negative == IsNegative(s);
    r := ReadUnsigned(body, negative);
  }

  method ReadUnsigned(body: string, negative: bool) returns (r: Option<int>)
    ensures ExactModulo(body, negative, r)
  {
    var whole, fraction := Whole(body), Fraction(body);
    if !IsNumber(body) || !FitsEight(fraction) {
      RefusedExactly(body, negative);
    }
    var fits := NoFurtherDigit(fraction);
    if !fits {
      return None;
    }
    DigitsOfEight(fraction);
    r := WrapTwo(whole, Eight(fraction));
    if r.None? {
      return;
    }
    AcceptedExactly(body, negative, r.value);
    if negative {
      r := Some(Wrap64(-r.value));
    }
  }

  // ── printing ─────────────────────────────────────────────────────────────────

  function Digit(d: nat): (c: char)
    requires d < 10
    ensures IsDigit(c) && DigitValue(c) == d
  {
    (48 + d) as char
  }

  function Print(n: nat): string {
    if n < 10 then [Digit(n)] else Print(n / 10) + [Digit(n % 10)]
  }

  /** The last `k` decimal digits, zero-padded. */
  function Fixed(n: nat, k: nat): (s: string)
    ensures |s| == k
  {
    if k == 0 then "" else Fixed(n / 10, k - 1) + [Digit(n % 10)]
  }

  function Shown(n: int): string {
    var m: nat := if n < 0 then -n else n;
    (if n < 0 then "-" else "") + Print(m / SAT_PER_BTC) + "." + Fixed(m % SAT_PER_BTC, 8)
  }

  // The implementation's division and remainder truncate toward zero.
  function Quotient(a: int, b: nat): int requires b > 0 { if a < 0 then -(-a / b) else a / b }
  function Remainder(a: int, b: nat): int requires b > 0 { if a < 0 then -(-a % b) else a % b }

  /** Truncation of a code to one byte. */
  function ByteChar(x: int): char { (x % 256) as char }

  method PrintWhole(n: int) returns (s: string)
    ensures s == if n < 0 then "" else Print(n)
  {
    if n == 0 {
      return "0";
    }
    s := "";
    var m := n;
    while m > 0
      invariant m <= n && (n < 0 ==> m == n && s == "")
      invariant n > 0 ==> m >= 0 && (if m == 0 then s == Print(n) else Print(m) + s == Print(n))
      decreases m
    {
      s := [ByteChar(48 + m % 10)] + s;
      m := m / 10;
    }
  }

  lemma FixedNext(n: nat, k: nat, rest: string)
    ensures Fixed(n, k + 1) + rest == Fixed(n / 10, k) + ([Digit(n % 10)] + rest)
  {
  }

  /** Eight digits by repeated remainder, from the right. */
  method PrintEight(n: int) returns (s: string)
    requires -SAT_PER_BTC < n < SAT_PER_BTC
    ensures n >= 0 ==> s == Fixed(n, 8)
    ensures |s| == 8 && s[7] == ByteChar(48 + Remainder(n, 10))
  {
    var fb := new char[8](_ => ' ');
    var m := n;
    for i := 8 downto 0
      invariant n >= 0 ==> m >= 0 && Fixed(m, i) + fb[i..] == Fixed(n, 8)
      invariant if i == 8 then m == n else fb[7] == ByteChar(48 + Remainder(n, 10))
    {
      ghost var rest := fb[i + 1..];
      fb[i] := ByteChar(48 + Remainder(m, 10));
      assert fb[i..] == [fb[i]] + rest;
      if n >= 0 {
        FixedNext(m, i, rest);
      }
      m := Quotient(m, 10);
    }
    s := fb[..];
  }

  lemma NegationWraps(n: int)
    requires MIN64 <= n < 0
    ensures Wrap64(-n) == if n == MIN64 then MIN64 else -n
  {
  }

  lemma LeastParts()
    ensures Quotient(MIN64, SAT_PER_BTC) == -92_233_720_368 && Remainder(MIN64, SAT_PER_BTC) == -54_775_808
    ensures ByteChar(48 + Remainder(-54_775_808, 10)) == '('
  {
  }

  method PrintParts(sats: int) returns (s: string)
    requires MIN64 <= sats < -MIN64
    ensures sats >= 0 ==> s == Print(sats / SAT_PER_BTC) + "." + Fixed(sats % SAT_PER_BTC, 8)
    ensures sats == MIN64 ==> |s| == 9 && s[0] == '.' && s[8] == '('
  {
    var whole := Quotient(sats, SAT_PER_BTC);
    var frac := Remainder(sats, SAT_PER_BTC);
    LeastParts();
    var w := PrintWhole(whole);
    var f := PrintEight(frac);
    s := w + "." + f;
    if sats == MIN64 {
      assert s == "." + f;
    }
  }

  /** Prints every 64-bit amount exactly, except the one whose negation overflows. */
  method SatsToBTC(n: int) returns (s: string)
    requires MIN64 <= n < -MIN64
    ensures n != MIN64 ==> s == Shown(n)
    ensures n == MIN64 ==> |s| == 10 && s[0] == '-' && s[1] == '.' && s[9] == '('
  {
    var sats := n;
    if n < 0 {
      NegationWraps(n);
      sats := Wrap64(-n);
    }
    s := PrintParts(sats);
    if n < 0 {
      ghost var parts := s;
      s := "-" + s;
      assert forall k :: 0 <= k < |parts| ==> s[k + 1] == parts[k];
      assert n != MIN64 ==> s == "-" + Print(-n / SAT_PER_BTC) + "." + Fixed(-n % SAT_PER_BTC, 8);
    } else {
      assert s == "" + Print(n / SAT_PER_BTC) + "." + Fixed(n % SAT_PER_BTC, 8);
    }
  }

  lemma {:induction false} PrintDenotes(n: nat)
    ensures AllDigits(Print(n)) && Print(n) != "" && Decimal(Print(n)) == n
  {
    if n >= 10 {
      PrintDenotes(n / 10);
      assert Print(n)[..|Print(n)| - 1] == Print(n / 10);
    } else {
      assert Print(n)[..0] == "";
    }
  }

  lemma {:induction false} FixedDenotes(n: nat, k: nat)
    requires n < Pow10(k)
    ensures AllDigits(Fixed(n, k)) && Decimal(Fixed(n, k)) == n
  {
    if k > 0 {
      FixedDenotes(n / 10, k - 1);
      assert Fixed(n, k)[..k - 1] == Fixed(n / 10, k - 1);
    }
  }

  lemma PowEight()
    ensures Pow10(8) == SAT_PER_BTC
  {
    assert Pow10(2) == 100 && Pow10(4) == 10_000 && Pow10(6) == 1_000_000;
  }

  lemma {:induction false} PointFollows(a: string, b: string)
    requires AllDigits(a)
    ensures PointAt(a + "." + b) == |a|
  {
    if a == "" {
      assert a + "." + b == "." + b;
    } else {
      assert a[0] != '.';
      assert (a + "." + b)[1..] == a[1..] + "." + b;
      PointFollows(a[1..], b);
    }
  }

  /** The printed text of a non-negative amount denotes that amount and no other. */
  lemma ShownDenotes(n: nat)
    ensures var s := Shown(n);
            && IsNumber(s) && (forall v: nat :: Denotes(s, v) <==> v == n)
            && |s| >= 10 && IsDigit(s[0]) && IsDigit(s[|s| - 1]) && forall c :: c in s ==> IsDigit(c) || c == '.'
  {
    var w, f := Print(n / SAT_PER_BTC), Fixed(n % SAT_PER_BTC, 8);
    var s := Shown(n);
    PrintDenotes(n / SAT_PER_BTC);
    PowEight();
    FixedDenotes(n % SAT_PER_BTC, 8);
    PointFollows(w, f);
    assert s == w + "." + f;
    assert Whole(s) == w && Fraction(s) == f;
    DecimalConcat(w, f);
    forall v: nat ensures Denotes(s, v) <==> v == n {
      NotZero(v - n, Pow10(8));
    }
    assert s[0] == w[0] && s[|s| - 1] == f[7];
  }

  /** Trimming, lowering and suffix stripping leave a printed number alone. */
  lemma PlainText(s: string)
    requires s != "" && IsDigit(s[0]) && IsDigit(s[|s| - 1]) && forall c :: c in s ==> IsDigit(c) || c == '.'
    ensures Trim(s) == s && Lower(s) == s && StripPlus(s) == s && UnitOf(s) == (Btc, s) && s != "."
  {
    assert forall i :: 0 <= i < |s| ==> s[i] in s;
    TrimPlain(s);
    NoSuffix(s, "sats");
    NoSuffix(s, "sat");
    NoSuffix(s, "btc");
  }

  lemma TrimPlain(s: string)
    requires s != "" && !T.IsSpace(s[0]) && !T.IsSpace(s[|s| - 1])
    ensures Trim(s) == s
  {
  }

  lemma NoSuffix(s: string, suffix: string)
    requires s != "" && suffix != "" && s[|s| - 1] != suffix[|suffix| - 1]
    ensures !HasSuffix(s, suffix)
  {
    assert |suffix| <= |s| ==> s[|s| - |suffix|..][|suffix| - 1] == s[|s| - 1];
  }

  lemma ShownMeans(n: nat)
    ensures forall v: nat :: Means(Shown(n), v) <==> v == n
  {
    ShownDenotes(n);
    PlainText(Shown(n));
  }

  /** A run of digits means so many satoshis before "sat" or "sats", and so many coins before "btc" or alone. */
  lemma WholeAmounts(w: string, n: nat)
    requires w != "" && AllDigits(w)
    ensures Means(w + "sat", n) <==> n == Decimal(w)
    ensures Means(w + "sats", n) <==> n == Decimal(w)
    ensures Means(w + "btc", n) <==> n == Decimal(w) * 100_000_000
    ensures Means(w, n) <==> n == Decimal(w) * 100_000_000
  {
    WithUnit(w, "sat");
    WithUnit(w, "sats");
    WithUnit(w, "btc");
    PlainDigits(w);
    NoSuffix(w + "sat", "sats");
    NoSuffix(w + "btc", "sats");
    NoSuffix(w + "btc", "sat");
    PowEight();
    assert Whole(w) == w && w + "" == w;
  }

  lemma PlainDigits(w: string)
    requires w != "" && AllDigits(w)
    ensures Trim(w) == w && Lower(w) == w && StripPlus(w) == w && UnitOf(w) == (Btc, w) && w != "." && PointAt(w) == |w|
  {
    PlainText(w);
  }

  lemma WithUnit(w: string, unit: string)
    requires w != "" && AllDigits(w) && unit in {"sat", "sats", "btc"}
    ensures Lower(Trim(w + unit)) == w + unit && HasSuffix(w + unit, unit) && (w + unit)[..|w + unit| - |unit|] == w
    ensures (w + unit)[0] != '-'
  {
    TrimPlain(w + unit);
    assert forall i :: 0 <= i < |w| ==> LowerChar(w[i]) == w[i];
    assert Lower(unit) == unit;
    assert Lower(w + unit) == w + unit;
  }

  /** Digits, a point and up to eight digits mean the number of coins they denote. */
  lemma PointAmounts(w: string, f: string, n: nat)
    requires AllDigits(w) && AllDigits(f) && |f| <= 8 && w + f != ""
    ensures Means(w + "." + f, n) <==> n == Decimal(w) * 100_000_000 + Decimal(f) * Pow10(8 - |f|)
  {
    hide Denotes, IsNumber, Decimal, Pow10, Lower, HasSuffix;
    PointText(w, f);
    PointDenotes(w, f, n);
  }

  lemma PointDenotes(w: string, f: string, n: nat)
    requires AllDigits(w) && AllDigits(f) && |f| <= 8
    ensures var s := w + "." + f;
            IsNumber(s) && (Denotes(s, n) <==> n == Decimal(w) * 100_000_000 + Decimal(f) * Pow10(8 - |f|))
  {
    var s, z := w + "." + f, Zeros(8 - |f|);
    PointFollows(w, f);
    assert Whole(s) == w && Fraction(s) == f;
    ShortFraction(w, f, n);
    ZeroMeansZeros(z);
    DecimalConcat(f, z);
    DecimalConcat(w, f + z);
    assert w + PadTo8(f) == w + (f + z);
    PowEight();
  }

  /** An amount without digits means nothing. */
  lemma NoDigitsNoAmount(n: nat)
    ensures !Means("", n) && !Means(".", n)
  {
    TrimPlain(".");
    NoSuffix(".", "sats");
    NoSuffix(".", "sat");
    NoSuffix(".", "btc");
    assert Lower(".") == ".";
  }

  lemma PointText(w: string, f: string)
    requires AllDigits(w) && AllDigits(f) && w + f != ""
    ensures var s := w + "." + f;
            Trim(s) == s && Lower(s) == s && StripPlus(s) == s && UnitOf(s) == (Btc, s) && s != "." && s[0] != '-'
  {
    var s := w + "." + f;
    assert forall i :: 0 <= i < |s| ==> IsDigit(s[i]) || s[i] == '.';
    TrimPlain(s);
    NoSuffix(s, "sats");
    NoSuffix(s, "sat");
    NoSuffix(s, "btc");
    assert Lower(s) == s;
    assert |s| == |w| + 1 + |f|;
  }

  lemma MinusMeansNothing(s: string)
    requires s != "" && s[0] == '-'
    ensures forall v: nat :: !Means(s, v)
  {
    if Trim(s) != "" {
      MinusStays(s);
    }
  }

  lemma {:induction false} MinusStays(s: string)
    requires s != "" && s[0] == '-'
    ensures T.TrimRight(s, T.IsSpace) != "" && T.TrimRight(s, T.IsSpace)[0] == '-' && Trim(s) == T.TrimRight(s, T.IsSpace)
  {
    if |s| > 1 && T.IsSpace(s[|s| - 1]) {
      MinusStays(s[..|s| - 1]);
    }
  }

  /** Printing and parsing back gives the amount exactly when it is one a wallet may hold. */
  method PrintThenParse(n: int) returns (same: bool)
    requires MIN64 <= n < -MIN64
    ensures same <==> 0 <= n <= 2_100_000_000_000_000
  {
    var s := SatsToBTC(n);
    var r := ParseAmountToSats(s);
    same := r.Some? && r.value as int == n;
    if n >= 0 {
      ShownMeans(n);
      assert Means(s, n);
      assert r.Some? ==> r.value as int == n;
    } else {
      MinusMeansNothing(s);
      assert r.None?;
    }
  }

  lemma ShownNegative(n: int)
    requires n < 0
    ensures Shown(n) == "-" + Shown(-n)
  {
    var m: nat := -n;
    var w, f := Print(m / SAT_PER_BTC), Fixed(m % SAT_PER_BTC, 8);
    assert Shown(n) == "-" + w + "." + f && Shown(m) == "" + w + "." + f;
    assert "" + w + "." + f == w + "." + f && "-" + w + "." + f == "-" + (w + "." + f);
  }

  lemma MinusText(m: string)
    requires m != "" && !T.IsSpace(m[|m| - 1])
    ensures Unsigned("-" + m) == m && IsNegative("-" + m)
  {
    var s := "-" + m;
    assert s[|s| - 1] == m[|m| - 1];
    TrimPlain(s);
  }

  lemma MinusNumber(n: int)
    requires n < 0
    ensures Unsigned(Shown(n)) == Shown(-n) && IsNegative(Shown(n))
  {
    ShownDenotes(-n);
    ShownNegative(n);
    MinusText(Shown(-n));
  }

  lemma PlainReads(n: nat)
    ensures Unsigned(Shown(n)) == Shown(n) && !IsNegative(Shown(n)) && IsNumber(Shown(n)) && Denotes(Shown(n), n)
  {
    ShownDenotes(n);
    TrimPlain(Shown(n));
  }

  lemma InRangeStays(x: int)
    requires MIN64 <= x < -MIN64
    ensures Wrap64(x) == x
  {
  }

  /** A text that denotes `v` after its sign reads back as the signed value. */
  lemma ReadsBack(s: string, body: string, negative: bool, v: nat, r: Option<int>)
    requires body == Unsigned(s) && negative == IsNegative(s) && IsNumber(body) && Denotes(body, v)
    requires MIN64 <= Signed(negative, v) < -MIN64 && ExactModulo(Unsigned(s), IsNegative(s), r)
    ensures r == Some(Signed(negative, v))
  {
    ReadsExactly(body, negative, v, r);
    InRangeStays(Signed(negative, v));
  }

  /** What the backend's parser finds in a printed amount. */
  lemma ShownReads(n: int) returns (body: string, negative: bool, v: nat)
    ensures body == Unsigned(Shown(n)) && negative == IsNegative(Shown(n))
    ensures IsNumber(body) && Denotes(body, v) && Signed(negative, v) == n
  {
    if n >= 0 {
      PlainReads(n);
      return Shown(n), false, n;
    }
    MinusNumber(n);
    PlainReads(-n);
    return Shown(-n), true, -n;
  }

  lemma GarbageIsNoNumber(s: string)
    requires |s| == 10 && s[0] == '-' && s[1] == '.' && s[9] == '('
    ensures !IsNumber(Unsigned(s))
  {
    TrimPlain(s);
    var t := s[1..];
    assert Unsigned(s) == t && PointAt(t) == 0;
    assert Fraction(t)[7] == '(';
  }

  /** Printing and reading back through the backend's parser gives the amount back for every 64-bit
      amount but the least. */
  method PrintThenRead(n: int) returns (same: bool)
    requires MIN64 <= n < -MIN64
    ensures same <==> n != MIN64
  {
    var s := SatsToBTC(n);
    var r := DecimalBTCToSats(s);
    same := r == Some(n);
    if n == MIN64 {
      GarbageIsNoNumber(s);
    } else {
      ghost var body, negative, v := ShownReads(n);
      ReadsBack(s, body, negative, v, r);
    }
  }
}
