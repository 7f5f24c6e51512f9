/** The two ULID encoders (internal/journal/id.go, internal/policy/id.go) against base-32 digits. */
module Ulid {
  import opened Orders

  const ALPHABET := "0123456789ABCDEFGHJKMNPQRSTVWXYZ"

  // ── numbers and their digits ─────────────────────────────────────────────────

  function Power(base: nat, n: nat): nat { if n == 0 then 1 else base * Power(base, n - 1) }

  predicate Below(d: seq<nat>, base: nat) { forall i :: 0 <= i < |d| ==> d[i] < base }

  /** The number a run of digits denotes, most significant first. */
  function Number(d: seq<nat>, base: nat): nat {
    if d == [] then 0 else base * Number(d[..|d| - 1], base) + d[|d| - 1]
  }

  /** The 128-bit value of an identifier. */
  function Value(b: seq<bv8>): nat { Number(Digits(b), 256) }

  function Digits(b: seq<bv8>): (d: seq<nat>)
    ensures |d| == |b| && Below(d, 256)
  {
    seq(|b|, i requires 0 <= i < |b| => b[i] as int)
  }

  /** The last `n` base-32 digits of a number, most significant first. */
  function Base32(v: nat, n: nat): (d: seq<nat>)
    ensures |d| == n && Below(d, 32)
  {
    if n == 0 then [] else Base32(v / 32, n - 1) + [v % 32]
  }

  function Spell(digits: seq<nat>): string
    requires Below(digits, 32)
  {
    seq(|digits|, i requires 0 <= i < |digits| => ALPHABET[digits[i]])
  }

  /** The reference encoding: the 26 base-32 digits of the 128-bit value. */
  function Encoded(b: seq<bv8>): string { Spell(Base32(Value(b), 26)) }

  lemma {:induction false} Base32Inverts(d: seq<nat>)
    requires Below(d, 32)
    ensures Base32(Number(d, 32), |d|) == d
  {
    if d != [] {
      Base32Inverts(d[..|d| - 1]);
      assert Number(d, 32) / 32 == Number(d[..|d| - 1], 32) && Number(d, 32) % 32 == d[|d| - 1];
    }
  }

  lemma {:induction false} NumberConcat(a: seq<nat>, b: seq<nat>, base: nat)
    ensures Number(a + b, base) == Number(a, base) * Power(base, |b|) + Number(b, base)
  {
    if b == [] {
      assert a + b == a;
    } else {
      var front := b[..|b| - 1];
      NumberConcat(a, front, base);
      assert (a + b)[..|a + b| - 1] == a + front;
      MultiplyThrough(base, Number(a, base), Power(base, |front|), Number(front, base));
    }
  }

  lemma MultiplyThrough(base: nat, x: nat, p: nat, y: nat)
    ensures base * (x * p + y) == x * (base * p) + base * y
  {
  }

  lemma {:induction false} NumberBelow(d: seq<nat>, base: nat)
    requires Below(d, base)
    ensures Number(d, base) < Power(base, |d|)
  {
    if d != [] {
      NumberBelow(d[..|d| - 1], base);
      OneMoreDigit(base, Number(d[..|d| - 1], base), Power(base, |d| - 1), d[|d| - 1]);
    }
  }

  lemma OneMoreDigit(base: nat, x: nat, p: nat, d: nat)
    requires x < p && d < base
    ensures base * x + d < base * p
  {
    assert base * (x + 1) <= base * p;
  }

  // ── five bytes are eight symbols ─────────────────────────────────────────────

  // What each packed symbol is, as a number: `CrossN` joins the low bits of one byte, shifted up by
  // N, with the top N bits of the next; `MidN` is five bits, N above the bottom.
  function Top5(x: nat): nat { x / 8 }
  function Cross2(x: nat, y: nat): nat { 4 * (x % 8) + y / 64 }
  function Mid1(x: nat): nat { x / 2 % 32 }
  function Cross4(x: nat, y: nat): nat { 16 * (x % 2) + y / 16 }
  function Cross1(x: nat, y: nat): nat { 2 * (x % 16) + y / 128 }
  function Mid2(x: nat): nat { x / 4 % 32 }
  function Cross3(x: nat, y: nat): nat { 8 * (x % 4) + y / 32 }
  function Low5(x: nat): nat { x % 32 }

  function Group(v: seq<nat>): seq<nat>
    requires |v| == 5
  {
    [Top5(v[0]), Cross2(v[0], v[1]), Mid1(v[1]), Cross4(v[1], v[2]), Cross1(v[2], v[3]), Mid2(v[3]), Cross3(v[3], v[4]), Low5(v[4])]
  }

  lemma TwoBytes(a: nat, b: nat)
    requires a < 256 && b < 256
    ensures 2 * (32 * (32 * Top5(a) + Cross2(a, b)) + Mid1(b)) + b % 2 == 256 * a + b
    ensures Top5(a) < 32 && Cross2(a, b) < 32
  {
  }

  lemma ThirdByte(b: nat, c: nat, x: nat, v: nat)
    requires 2 * x + b % 2 == v && c < 256
    ensures 16 * (32 * x + Cross4(b, c)) + c % 16 == 256 * v + c && Cross4(b, c) < 32
  {
  }

  lemma FourthByte(c: nat, d: nat, x: nat, v: nat)
    requires 16 * x + c % 16 == v && d < 256
    ensures 4 * (32 * (32 * x + Cross1(c, d)) + Mid2(d)) + d % 4 == 256 * v + d && Cross1(c, d) < 32
  {
  }

  lemma FifthByte(d: nat, e: nat, x: nat, v: nat)
    requires 4 * x + d % 4 == v && e < 256
    ensures 32 * (32 * x + Cross3(d, e)) + Low5(e) == 256 * v + e && Cross3(d, e) < 32
  {
  }

  lemma NumberSnoc(d: seq<nat>, i: nat, base: nat)
    requires i < |d|
    ensures Number(d[..i + 1], base) == base * Number(d[..i], base) + d[i]
  {
    assert d[..i + 1][..i] == d[..i];
  }

  lemma NumberOfFour(d: seq<nat>)
    requires |d| >= 4
    ensures Number(d[..4], 32) == 32 * (32 * (32 * d[0] + d[1]) + d[2]) + d[3]
  {
    NumberSnoc(d, 0, 32); NumberSnoc(d, 1, 32); NumberSnoc(d, 2, 32); NumberSnoc(d, 3, 32);
  }

  lemma NumberOfEight(d: seq<nat>)
    requires |d| == 8
    ensures Number(d, 32) == 32 * (32 * (32 * (32 * Number(d[..4], 32) + d[4]) + d[5]) + d[6]) + d[7]
  {
    NumberSnoc(d, 4, 32); NumberSnoc(d, 5, 32); NumberSnoc(d, 6, 32); NumberSnoc(d, 7, 32);
    assert d[..8] == d;
  }

  lemma NumberOfTwo(v: seq<nat>)
    requires |v| >= 2
    ensures Number(v[..2], 256) == 256 * v[0] + v[1]
  {
    assert Number(v[..0], 256) == 0;
    hide Number;
    NumberSnoc(v, 0, 256);
    NumberSnoc(v, 1, 256);
  }

  lemma NumberOfFive(v: seq<nat>)
    requires |v| == 5
    ensures Number(v, 256) == 256 * (256 * (256 * Number(v[..2], 256) + v[2]) + v[3]) + v[4]
    ensures Number(v[..2], 256) == 256 * v[0] + v[1]
  {
    NumberOfTwo(v);
    hide Number;
    NumberSnoc(v, 2, 256); NumberSnoc(v, 3, 256); NumberSnoc(v, 4, 256);
    assert v[..5] == v;
  }

  lemma GroupKeepsNumber(v: seq<nat>)
    requires |v| == 5 && Below(v, 256)
    ensures Below(Group(v), 32) && Number(Group(v), 32) == Number(v, 256)
  {
    var g := Group(v);
    TwoBytes(v[0], v[1]);
    var x3, n2 := 32 * (32 * g[0] + g[1]) + g[2], 256 * v[0] + v[1];
    ThirdByte(v[1], v[2], x3, n2);
    var x4, n3 := 32 * x3 + g[3], 256 * n2 + v[2];
    FourthByte(v[2], v[3], x4, n3);
    var x6, n4 := 32 * (32 * x4 + g[4]) + g[5], 256 * n3 + v[3];
    FifthByte(v[3], v[4], x6, n4);
    NumberOfFour(g);
    NumberOfEight(g);
    NumberOfFive(v);
  }

  // ── sixteen bytes are twenty-six symbols ─────────────────────────────────────

  function Symbols(v: seq<nat>): seq<nat>
    requires |v| == 16
  {
    [v[0] / 32, v[0] % 32] + Group(v[1..6]) + Group(v[6..11]) + Group(v[11..16])
  }

  lemma PowersMeet()
    ensures Power(32, 8) == Power(256, 5)
  {
    assert Power(32, 2) == 0x400 && Power(32, 4) == 0x10_0000 && Power(32, 6) == 0x4000_0000;
    assert Power(256, 2) == 0x1_0000 && Power(256, 4) == 0x1_0000_0000;
  }

  /** One more group keeps digits and bytes in step. */
  lemma AppendGroup(d: seq<nat>, v: seq<nat>, g: seq<nat>)
    requires |g| == 5 && Below(g, 256) && Number(d, 32) == Number(v, 256)
    ensures Number(d + Group(g), 32) == Number(v + g, 256)
  {
    GroupKeepsNumber(g);
    NumberConcat(d, Group(g), 32);
    NumberConcat(v, g, 256);
    PowersMeet();
  }

  lemma FirstByte(x: nat)
    ensures Number([x / 32, x % 32], 32) == Number([x], 256) == x
  {
    assert [x / 32, x % 32][..1] == [x / 32] && [x / 32][..0] == [] && [x][..0] == [];
    assert Number([x / 32], 32) == x / 32;
  }

  lemma SymbolsBelow(v: seq<nat>)
    requires |v| == 16 && Below(v, 256)
    ensures Below(Symbols(v), 32)
  {
    GroupKeepsNumber(v[1..6]);
    GroupKeepsNumber(v[6..11]);
    GroupKeepsNumber(v[11..16]);
  }

  lemma ThreeGroups(d: seq<nat>, v: seq<nat>, a: seq<nat>, b: seq<nat>, c: seq<nat>)
    requires |a| == |b| == |c| == 5 && Below(a, 256) && Below(b, 256) && Below(c, 256)
    requires Number(d, 32) == Number(v, 256)
    ensures Number(d + Group(a) + Group(b) + Group(c), 32) == Number(v + a + b + c, 256)
  {
    AppendGroup(d, v, a);
    AppendGroup(d + Group(a), v + a, b);
    AppendGroup(d + Group(a) + Group(b), v + a + b, c);
  }

  lemma SymbolsKeepNumber(v: seq<nat>)
    requires |v| == 16 && Below(v, 256)
    ensures Number(Symbols(v), 32) == Number(v, 256)
  {
    FirstByte(v[0]);
    ThreeGroups([v[0] / 32, v[0] % 32], [v[0]], v[1..6], v[6..11], v[11..16]);
    assert [v[0]] + v[1..6] + v[6..11] + v[11..16] == v;
  }

  /** The packed symbols are the base-32 digits of the 128-bit value. */
  lemma SymbolsAreDigits(v: seq<nat>)
    requires |v| == 16 && Below(v, 256)
    ensures Below(Symbols(v), 32) && Symbols(v) == Base32(Number(v, 256), 26)
  {
    SymbolsBelow(v);
    SymbolsKeepNumber(v);
    Base32Inverts(Symbols(v));
  }

  // ── packing with bit operations ──────────────────────────────────────────────

  // The bits of one byte: a low part and a high part.
  lemma Bits17(x: bv8) ensures x as int == 2 * ((x & 0xFE) >> 1) as int + (x & 0x01) as int && (x & 0x01) as int < 2 {}
  lemma Bits26(x: bv8) ensures x as int == 4 * ((x & 0xFC) >> 2) as int + (x & 0x03) as int && (x & 0x03) as int < 4 {}
  lemma Bits35(x: bv8) ensures x as int == 8 * ((x & 0xF8) >> 3) as int + (x & 0x07) as int && (x & 0x07) as int < 8 {}
  lemma Bits44(x: bv8) ensures x as int == 16 * ((x & 0xF0) >> 4) as int + (x & 0x0F) as int && (x & 0x0F) as int < 16 {}
  lemma Bits53(x: bv8) ensures x as int == 32 * ((x & 0xE0) >> 5) as int + (x & 0x1F) as int && (x & 0x1F) as int < 32 {}
  lemma Bits62(x: bv8) ensures x as int == 64 * ((x & 0xC0) >> 6) as int + (x & 0x3F) as int && (x & 0x3F) as int < 64 {}
  lemma Bits71(x: bv8) ensures x as int == 128 * ((x & 0x80) >> 7) as int + (x & 0x7F) as int && (x & 0x7F) as int < 128 {}

  // Joined parts do not overlap, so joining adds.
  lemma Join2(x: bv8, y: bv8)
    ensures (((x & 0x07) << 2) | ((y & 0xC0) >> 6)) as int == 4 * (x & 0x07) as int + ((y & 0xC0) >> 6) as int
  {
  }

  lemma Join4(x: bv8, y: bv8)
    ensures (((x & 0x01) << 4) | ((y & 0xF0) >> 4)) as int == 16 * (x & 0x01) as int + ((y & 0xF0) >> 4) as int
  {
  }

  lemma Join1(x: bv8, y: bv8)
    ensures (((x & 0x0F) << 1) | ((y & 0x80) >> 7)) as int == 2 * (x & 0x0F) as int + ((y & 0x80) >> 7) as int
  {
  }

  lemma Join3(x: bv8, y: bv8)
    ensures (((x & 0x03) << 3) | ((y & 0xE0) >> 5)) as int == 8 * (x & 0x03) as int + ((y & 0xE0) >> 5) as int
  {
  }

  lemma Middle1(x: bv8)
    ensures ((x & 0xFE) >> 1) as int == 32 * ((x & 0xC0) >> 6) as int + ((x & 0x3E) >> 1) as int && ((x & 0x3E) >> 1) as int < 32
  {
  }

  lemma Middle2(x: bv8)
    ensures ((x & 0xFC) >> 2) as int == 32 * ((x & 0x80) >> 7) as int + ((x & 0x7C) >> 2) as int && ((x & 0x7C) >> 2) as int < 32
  {
  }

  lemma DivMod(x: nat, n: nat, q: nat, r: nat)
    requires n in {2, 4, 8, 16, 32, 64, 128} && x == n * q + r && r < n
    ensures q == x / n && r == x % n
  {
    if n == 2 {
    } else if n == 4 {
    } else if n == 8 {
    } else if n == 16 {
    } else if n == 32 {
    } else if n == 64 {
    }
  }

  // Mask, then shift: the journal's packing, symbol by symbol.
  lemma BitsTop3(x: bv8)
    ensures ((x & 0xE0) >> 5) as int == x as int / 32 && (x & 0x1F) as int == Low5(x as int)
  {
    Bits53(x);
    DivMod(x as int, 32, ((x & 0xE0) >> 5) as int, (x & 0x1F) as int);
  }

  lemma BitsTop5(x: bv8)
    ensures ((x & 0xF8) >> 3) as int == Top5(x as int) && (x & 0x07) as int == x as int % 8
  {
    Bits35(x);
    DivMod(x as int, 8, ((x & 0xF8) >> 3) as int, (x & 0x07) as int);
  }

  lemma BitsMid1(x: bv8)
    ensures ((x & 0x3E) >> 1) as int == Mid1(x as int) && (x & 0x01) as int == x as int % 2
  {
    Bits17(x);
    Middle1(x);
    DivMod(x as int, 2, ((x & 0xFE) >> 1) as int, (x & 0x01) as int);
    DivMod(x as int / 2, 32, ((x & 0xC0) >> 6) as int, ((x & 0x3E) >> 1) as int);
  }

  lemma BitsMid2(x: bv8)
    ensures ((x & 0x7C) >> 2) as int == Mid2(x as int) && (x & 0x03) as int == x as int % 4
  {
    Bits26(x);
    Middle2(x);
    DivMod(x as int, 4, ((x & 0xFC) >> 2) as int, (x & 0x03) as int);
    DivMod(x as int / 4, 32, ((x & 0x80) >> 7) as int, ((x & 0x7C) >> 2) as int);
  }

  lemma BitsCross2(x: bv8, y: bv8)
    ensures (((x & 0x07) << 2) | ((y & 0xC0) >> 6)) as int == Cross2(x as int, y as int)
  {
    Join2(x, y);
    BitsTop5(x);
    Bits62(y);
    DivMod(y as int, 64, ((y & 0xC0) >> 6) as int, (y & 0x3F) as int);
  }

  lemma BitsCross4(x: bv8, y: bv8)
    ensures (((x & 0x01) << 4) | ((y & 0xF0) >> 4)) as int == Cross4(x as int, y as int)
  {
    Join4(x, y);
    BitsMid1(x);
    Bits44(y);
    DivMod(y as int, 16, ((y & 0xF0) >> 4) as int, (y & 0x0F) as int);
  }

  lemma BitsCross1(x: bv8, y: bv8)
    ensures (((x & 0x0F) << 1) | ((y & 0x80) >> 7)) as int == Cross1(x as int, y as int)
  {
    Join1(x, y);
    Bits44(x);
    DivMod(x as int, 16, ((x & 0xF0) >> 4) as int, (x & 0x0F) as int);
    Bits71(y);
    DivMod(y as int, 128, ((y & 0x80) >> 7) as int, (y & 0x7F) as int);
  }

  lemma BitsCross3(x: bv8, y: bv8)
    ensures (((x & 0x03) << 3) | ((y & 0xE0) >> 5)) as int == Cross3(x as int, y as int)
  {
    Join3(x, y);
    Bits26(x);
    DivMod(x as int, 4, ((x & 0xFC) >> 2) as int, (x & 0x03) as int);
    Bits53(y);
    DivMod(y as int, 32, ((y & 0xE0) >> 5) as int, (y & 0x1F) as int);
  }

  /** Shift, then mask: the policy's packing takes the same bits. */
  lemma ShiftThenMask(x: bv8, y: bv8)
    ensures ((x & 0xFF) >> 5) == (x & 0xE0) >> 5
    ensures ((x & 0xFF) >> 3) == (x & 0xF8) >> 3
    ensures ((x << 2) | (y >> 6)) & 0x1F == ((x & 0x07) << 2) | ((y & 0xC0) >> 6)
    ensures (x >> 1) & 0x1F == (x & 0x3E) >> 1
    ensures ((x << 4) | (y >> 4)) & 0x1F == ((x & 0x01) << 4) | ((y & 0xF0) >> 4)
    ensures ((x << 1) | (y >> 7)) & 0x1F == ((x & 0x0F) << 1) | ((y & 0x80) >> 7)
    ensures (x >> 2) & 0x1F == (x & 0x7C) >> 2
    ensures ((x << 3) | (y >> 5)) & 0x1F == ((x & 0x03) << 3) | ((y & 0xE0) >> 5)
  {
  }

  // One symbol at a time, in either packing.

  method MaskTop3(x: bv8) returns (n: int)
    ensures n == x as int / 32
  {
    BitsTop3(x);
    n := ((x & 0xE0) >> 5) as int;
  }

  method ShiftTop3(x: bv8) returns (n: int)
    ensures n == x as int / 32
  {
    BitsTop3(x); ShiftThenMask(x, x);
    n := ((x & 0xFF) >> 5) as int;
  }

  method MaskLow5(x: bv8) returns (n: int)
    ensures n == Low5(x as int)
  {
    BitsTop3(x);
    n := (x & 0x1F) as int;
  }

  method MaskTop5(x: bv8) returns (n: int)
    ensures n == Top5(x as int)
  {
    BitsTop5(x);
    n := ((x & 0xF8) >> 3) as int;
  }

  method ShiftTop5(x: bv8) returns (n: int)
    ensures n == Top5(x as int)
  {
    BitsTop5(x); ShiftThenMask(x, x);
    n := ((x & 0xFF) >> 3) as int;
  }

  method MaskCross2(x: bv8, y: bv8) returns (n: int)
    ensures n == Cross2(x as int, y as int)
  {
    BitsCross2(x, y);
    n := (((x & 0x07) << 2) | ((y & 0xC0) >> 6)) as int;
  }

  method ShiftCross2(x: bv8, y: bv8) returns (n: int)
    ensures n == Cross2(x as int, y as int)
  {
    BitsCross2(x, y); ShiftThenMask(x, y);
    n := (((x << 2) | (y >> 6)) & 0x1F) as int;
  }

  method MaskMid1(x: bv8) returns (n: int)
    ensures n == Mid1(x as int)
  {
    BitsMid1(x);
    n := ((x & 0x3E) >> 1) as int;
  }

  method ShiftMid1(x: bv8) returns (n: int)
    ensures n == Mid1(x as int)
  {
    BitsMid1(x); ShiftThenMask(x, x);
    n := ((x >> 1) & 0x1F) as int;
  }

  method MaskCross4(x: bv8, y: bv8) returns (n: int)
    ensures n == Cross4(x as int, y as int)
  {
    BitsCross4(x, y);
    n := (((x & 0x01) << 4) | ((y & 0xF0) >> 4)) as int;
  }

  method ShiftCross4(x: bv8, y: bv8) returns (n: int)
    ensures n == Cross4(x as int, y as int)
  {
    BitsCross4(x, y); ShiftThenMask(x, y);
    n := (((x << 4) | (y >> 4)) & 0x1F) as int;
  }

  method MaskCross1(x: bv8, y: bv8) returns (n: int)
    ensures n == Cross1(x as int, y as int)
  {
    BitsCross1(x, y);
    n := (((x & 0x0F) << 1) | ((y & 0x80) >> 7)) as int;
  }

  method ShiftCross1(x: bv8, y: bv8) returns (n: int)
    ensures n == Cross1(x as int, y as int)
  {
    BitsCross1(x, y); ShiftThenMask(x, y);
    n := (((x << 1) | (y >> 7)) & 0x1F) as int;
  }

  method MaskMid2(x: bv8) returns (n: int)
    ensures n == Mid2(x as int)
  {
    BitsMid2(x);
    n := ((x & 0x7C) >> 2) as int;
  }

  method ShiftMid2(x: bv8) returns (n: int)
    ensures n == Mid2(x as int)
  {
    BitsMid2(x); ShiftThenMask(x, x);
    n := ((x >> 2) & 0x1F) as int;
  }

  method MaskCross3(x: bv8, y: bv8) returns (n: int)
    ensures n == Cross3(x as int, y as int)
  {
    BitsCross3(x, y);
    n := (((x & 0x03) << 3) | ((y & 0xE0) >> 5)) as int;
  }

  method ShiftCross3(x: bv8, y: bv8) returns (n: int)
    ensures n == Cross3(x as int, y as int)
  {
    BitsCross3(x, y); ShiftThenMask(x, y);
    n := (((x << 3) | (y >> 5)) & 0x1F) as int;
  }

  // ── the encoders ─────────────────────────────────────────────────────────────

  function SpellGroup(b: seq<bv8>): string
    requires |b| == 5
  {
    GroupKeepsNumber(Digits(b));
    Spell(Group(Digits(b)))
  }

  method Store(dst: array<char>, o: nat, g: seq<nat>)
    requires o + |g| <= dst.Length && Below(g, 32)
    modifies dst
    ensures dst[..o + |g|] == old(dst[..o]) + Spell(g)
  {
    for i := 0 to |g|
      invariant dst[..o + i] == old(dst[..o]) + Spell(g)[..i]
    {
      dst[o + i] := ALPHABET[g[i]];
    }
    assert Spell(g)[..|g|] == Spell(g);
  }

  /** The eight codes of five bytes, masking first, then shifting. */
  method MaskCodes(u: bv8, v: bv8, w: bv8, x: bv8, y: bv8) returns (g: seq<nat>)
    ensures g == Group(Digits([u, v, w, x, y]))
  {
    var n0 := MaskTop5(u);
    var n1 := MaskCross2(u, v);
    var n2 := MaskMid1(v);
    var n3 := MaskCross4(v, w);
    var n4 := MaskCross1(w, x);
    var n5 := MaskMid2(x);
    var n6 := MaskCross3(x, y);
    var n7 := MaskLow5(y);
    g := [n0, n1, n2, n3, n4, n5, n6, n7];
  }

  method MaskGroup(v: seq<bv8>, dst: array<char>, o: nat)
    requires |v| == 5 && o + 8 <= dst.Length
    modifies dst
    ensures dst[..o + 8] == old(dst[..o]) + SpellGroup(v)
  {
    var g := MaskCodes(v[0], v[1], v[2], v[3], v[4]);
    assert [v[0], v[1], v[2], v[3], v[4]] == v;
    GroupKeepsNumber(Digits(v));
    Store(dst, o, g);
  }

  /** The eight codes of five bytes, shifting first, then masking. */
  method ShiftCodes(u: bv8, v: bv8, w: bv8, x: bv8, y: bv8) returns (g: seq<nat>)
    ensures g == Group(Digits([u, v, w, x, y]))
  {
    var n0 := ShiftTop5(u);
    var n1 := ShiftCross2(u, v);
    var n2 := ShiftMid1(v);
    var n3 := ShiftCross4(v, w);
    var n4 := ShiftCross1(w, x);
    var n5 := ShiftMid2(x);
    var n6 := ShiftCross3(x, y);
    var n7 := MaskLow5(y);
    g := [n0, n1, n2, n3, n4, n5, n6, n7];
  }

  method ShiftGroup(v: seq<bv8>, dst: array<char>, o: nat)
    requires |v| == 5 && o + 8 <= dst.Length
    modifies dst
    ensures dst[..o + 8] == old(dst[..o]) + SpellGroup(v)
  {
    var g := ShiftCodes(v[0], v[1], v[2], v[3], v[4]);
    assert [v[0], v[1], v[2], v[3], v[4]] == v;
    GroupKeepsNumber(Digits(v));
    Store(dst, o, g);
  }

  lemma FirstInRange(x: bv8)
    ensures x as int / 32 < 32 && x as int % 32 < 32
  {
  }

  function SpellFirst(x: bv8): string {
    FirstInRange(x);
    [ALPHABET[x as int / 32], ALPHABET[x as int % 32]]
  }

  method MaskFirst(x: bv8, dst: array<char>)
    requires dst.Length == 26
    modifies dst
    ensures dst[..2] == SpellFirst(x)
  {
    var n0 := MaskTop3(x);
    var n1 := MaskLow5(x);
    FirstInRange(x);
    dst[0], dst[1] := ALPHABET[n0], ALPHABET[n1];
  }

  method ShiftFirst(x: bv8, dst: array<char>)
    requires dst.Length == 26
    modifies dst
    ensures dst[..2] == SpellFirst(x)
  {
    var n0 := ShiftTop3(x);
    var n1 := MaskLow5(x);
    FirstInRange(x);
    dst[0], dst[1] := ALPHABET[n0], ALPHABET[n1];
  }

  function InGroups(b: seq<bv8>): string
    requires |b| == 16
  {
    SpellFirst(b[0]) + SpellGroup(b[1..6]) + SpellGroup(b[6..11]) + SpellGroup(b[11..16])
  }

  /** The reference encoding, group by group. */
  lemma SpellInGroups(b: seq<bv8>)
    requires |b| == 16
    ensures Encoded(b) == InGroups(b)
  {
    var v := Digits(b);
    SymbolsAreDigits(v);
    DigitsSlice(b, 1, 6);
    DigitsSlice(b, 6, 11);
    DigitsSlice(b, 11, 16);
    FirstInRange(b[0]);
    var f: seq<nat> := [v[0] / 32, v[0] % 32];
    assert Spell(f) == SpellFirst(b[0]);
    GroupKeepsNumber(v[1..6]);
    GroupKeepsNumber(v[6..11]);
    GroupKeepsNumber(v[11..16]);
    SpellFour(f, Group(v[1..6]), Group(v[6..11]), Group(v[11..16]));
  }

  lemma DigitsSlice(b: seq<bv8>, i: nat, j: nat)
    requires i <= j <= |b|
    ensures Digits(b)[i..j] == Digits(b[i..j])
  {
  }

  lemma SpellFour(a: seq<nat>, b: seq<nat>, c: seq<nat>, d: seq<nat>)
    requires Below(a, 32) && Below(b, 32) && Below(c, 32) && Below(d, 32)
    ensures Below(a + b + c + d, 32) && Spell(a + b + c + d) == Spell(a) + Spell(b) + Spell(c) + Spell(d)
  {
  }

  method MaskAll(b: seq<bv8>) returns (s: string)
    requires |b| == 16
    ensures s == InGroups(b)
  {
    var dst := new char[26];
    MaskFirst(b[0], dst);
    MaskGroup(b[1..6], dst, 2);
    MaskGroup(b[6..11], dst, 10);
    MaskGroup(b[11..16], dst, 18);
    s := dst[..];
    assert s == dst[..26];
  }

  /** The journal's encoder. */
  method EncodeULID(b: seq<bv8>) returns (s: string)
    requires |b| == 16
    ensures s == Encoded(b)
  {
    s := MaskAll(b);
    SpellInGroups(b);
  }

  method ShiftAll(b: seq<bv8>) returns (s: string)
    requires |b| == 16
    ensures s == InGroups(b)
  {
    var dst := new char[26];
    ShiftFirst(b[0], dst);
    ShiftGroup(b[1..6], dst, 2);
    ShiftGroup(b[6..11], dst, 10);
    ShiftGroup(b[11..16], dst, 18);
    s := dst[..];
    assert s == dst[..26];
  }

  /** The policy's encoder: the same text for every identifier. */
  method EncodeCrockford(b: seq<bv8>) returns (s: string)
    requires |b| == 16
    ensures s == Encoded(b)
  {
    s := ShiftAll(b);
    SpellInGroups(b);
  }

  // ── order ────────────────────────────────────────────────────────────────────

  /** The symbols are the digits and then the capital letters, leaving out I, L, O and U. */
  lemma AlphabetIs(i: nat)
    requires i < 32
    ensures ALPHABET[i] as int == if i < 10 then '0' as int + i
                                  else if i < 18 then 'A' as int + (i - 10)
                                  else if i < 20 then 'J' as int + (i - 18)
                                  else if i < 22 then 'M' as int + (i - 20)
                                  else if i < 27 then 'P' as int + (i - 22)
                                  else 'V' as int + (i - 27)
    ensures |ALPHABET| == 32
  {
  }

  lemma AlphabetRises(i: nat, j: nat)
    requires i < j < 32
    ensures ALPHABET[i] < ALPHABET[j]
    decreases j
  {
    if i + 1 < j {
      AlphabetRises(i, j - 1);
    }
  }

  lemma NumberOfHead(d: seq<nat>, base: nat)
    requires d != []
    ensures Number(d, base) == d[0] * Power(base, |d| - 1) + Number(d[1..], base)
  {
    NumberConcat([d[0]], d[1..], base);
    assert [d[0]] + d[1..] == d && [d[0]][..0] == [];
    assert Number([d[0]], base) == d[0];
  }

  lemma HeadDecides(a: nat, b: nat, p: nat, x: nat, y: nat)
    requires a < b && x < p
    ensures a * p + x < b * p + y
  {
    assert (a + 1) * p <= b * p;
  }

  lemma LowerHeadWins(d: seq<nat>, e: seq<nat>)
    requires |d| == |e| > 0 && Below(d, 32) && Below(e, 32) && d[0] < e[0]
    ensures LexLess(Spell(d), Spell(e)) && !LexLess(Spell(e), Spell(d)) && Number(d, 32) < Number(e, 32)
  {
    AlphabetRises(d[0], e[0]);
    NumberOfHead(d, 32);
    NumberOfHead(e, 32);
    NumberBelow(d[1..], 32);
    HeadDecides(d[0], e[0], Power(32, |d| - 1), Number(d[1..], 32), Number(e[1..], 32));
  }

  /** Spelled digits of equal length compare as strings the way their numbers compare. */
  lemma {:induction false} SpellingKeepsOrder(d: seq<nat>, e: seq<nat>)
    requires |d| == |e| && Below(d, 32) && Below(e, 32)
    ensures LexLess(Spell(d), Spell(e)) <==> Number(d, 32) < Number(e, 32)
  {
    if d != [] {
      if d[0] < e[0] {
        LowerHeadWins(d, e);
      } else if e[0] < d[0] {
        LowerHeadWins(e, d);
      } else {
        SpellingKeepsOrder(d[1..], e[1..]);
        assert Spell(d)[1..] == Spell(d[1..]) && Spell(e)[1..] == Spell(e[1..]);
        NumberOfHead(d, 32);
        NumberOfHead(e, 32);
      }
    }
  }

  /** Identifiers compare as strings exactly as their 128-bit values compare. */
  lemma EncodingKeepsOrder(a: seq<bv8>, b: seq<bv8>)
    requires |a| == |b| == 16
    ensures LexLess(Encoded(a), Encoded(b)) <==> Value(a) < Value(b)
  {
    SymbolsAreDigits(Digits(a));
    SymbolsAreDigits(Digits(b));
    SymbolsKeepNumber(Digits(a));
    SymbolsKeepNumber(Digits(b));
    SpellingKeepsOrder(Symbols(Digits(a)), Symbols(Digits(b)));
  }

  lemma {:induction false} NumbersDiffer(d: seq<nat>, e: seq<nat>, base: nat)
    requires |d| == |e| && Below(d, base) && Below(e, base) && Number(d, base) == Number(e, base)
    ensures d == e
  {
    if d != [] {
      SameDigit(base, Number(d[..|d| - 1], base), Number(e[..|e| - 1], base), d[|d| - 1], e[|e| - 1]);
      NumbersDiffer(d[..|d| - 1], e[..|e| - 1], base);
      assert d == d[..|d| - 1] + [d[|d| - 1]] && e == e[..|e| - 1] + [e[|e| - 1]];
    }
  }

  lemma TimesMonotone(base: nat, x: nat, y: nat)
    requires x <= y
    ensures base * x <= base * y
  {
  }

  lemma SameDigit(base: nat, x: nat, y: nat, p: nat, q: nat)
    requires base * x + p == base * y + q && p < base && q < base
    ensures x == y && p == q
  {
    if x < y {
      TimesMonotone(base, x + 1, y);
    } else if y < x {
      TimesMonotone(base, y + 1, x);
    }
  }

  lemma SameByte(x: bv8, y: bv8)
    requires x as int == y as int
    ensures x == y
  {
  }

  /** Different identifiers have different texts. */
  lemma EncodingIsInjective(a: seq<bv8>, b: seq<bv8>)
    requires |a| == |b| == 16 && Encoded(a) == Encoded(b)
    ensures a == b
  {
    EncodingKeepsOrder(a, b);
    EncodingKeepsOrder(b, a);
    LexTotal(Encoded(a), Encoded(a));
    NumbersDiffer(Digits(a), Digits(b), 256);
    forall i | 0 <= i < 16 ensures a[i] == b[i] {
      assert a[i] as int == Digits(a)[i] == Digits(b)[i] == b[i] as int;
      SameByte(a[i], b[i]);
    }
  }

  // ── time ─────────────────────────────────────────────────────────────────────

  /** The low 48 bits of a millisecond count, big-endian. */
  function Stamp(ms: nat): (b: seq<bv8>)
    ensures |b| == 6
  {
    [LowByte(ms / 0x100_0000_0000), LowByte(ms / 0x1_0000_0000), LowByte(ms / 0x100_0000), LowByte(ms / 0x1_0000), LowByte(ms / 0x100), LowByte(ms)]
  }

  lemma NextByte(b: bv8)
    requires b as int < 255
    ensures (b + 1) as int == b as int + 1
  {
  }

  /** The byte with a given value. */
  function ToByte(x: nat): (b: bv8)
    requires x < 256
    ensures b as int == x
  {
    if x == 0 then 0
    else
      NextByte(ToByte(x - 1));
      ToByte(x - 1) + 1
  }

  function LowByte(x: nat): bv8 { ToByte(x % 256) }

  lemma NumberOfSix(d: seq<nat>)
    requires |d| == 6
    ensures Number(d, 256) == 256 * (256 * (256 * (256 * (256 * d[0] + d[1]) + d[2]) + d[3]) + d[4]) + d[5]
  {
    NumberOfFive(d[..5]);
    NumberSnoc(d, 5, 256);
    assert d[..6] == d && d[..5][..2] == d[..2];
  }

  lemma StampDigits(ms: nat)
    ensures Digits(Stamp(ms)) == [ms / 0x100_0000_0000 % 256, ms / 0x1_0000_0000 % 256, ms / 0x100_0000 % 256,
                                  ms / 0x1_0000 % 256, ms / 0x100 % 256, ms % 256]
  {
  }

  lemma StampValue(ms: nat)
    requires ms < 0x1_0000_0000_0000
    ensures Value(Stamp(ms)) == ms
  {
    StampDigits(ms);
    var d: seq<nat> := [ms / 0x100_0000_0000 % 256, ms / 0x1_0000_0000 % 256, ms / 0x100_0000 % 256,
                        ms / 0x1_0000 % 256, ms / 0x100 % 256, ms % 256];
    NumberOfSix(d);
    Peel(ms);
  }

  lemma Peel(ms: nat)
    requires ms < 0x1_0000_0000_0000
    ensures 256 * (256 * (256 * (256 * (256 * (ms / 0x100_0000_0000 % 256) + ms / 0x1_0000_0000 % 256) + ms / 0x100_0000 % 256)
                          + ms / 0x1_0000 % 256) + ms / 0x100 % 256) + ms % 256 == ms
  {
    assert ms / 0x100 / 256 == ms / 0x1_0000 && ms / 0x1_0000 / 256 == ms / 0x100_0000;
    assert ms / 0x100_0000 / 256 == ms / 0x1_0000_0000 && ms / 0x1_0000_0000 / 256 == ms / 0x100_0000_0000;
  }

  /** Identifiers of different milliseconds sort by time, whatever their random parts. */
  lemma TimeOrder(ms: nat, later: nat, r: seq<bv8>, s: seq<bv8>)
    requires ms < later < 0x1_0000_0000_0000 && |r| == |s| == 10
    ensures LexLess(Encoded(Stamp(ms) + r), Encoded(Stamp(later) + s))
  {
    ValueConcat(Stamp(ms), r);
    ValueConcat(Stamp(later), s);
    StampValue(ms);
    StampValue(later);
    NumberBelow(Digits(r), 256);
    HeadDecides(ms, later, Power(256, 10), Value(r), Value(s));
    EncodingKeepsOrder(Stamp(ms) + r, Stamp(later) + s);
  }

  lemma ValueConcat(a: seq<bv8>, b: seq<bv8>)
    ensures Value(a + b) == Value(a) * Power(256, |b|) + Value(b)
  {
    DigitsConcat(a, b);
    NumberConcat(Digits(a), Digits(b), 256);
  }

  lemma DigitsConcat(a: seq<bv8>, b: seq<bv8>)
    ensures Digits(a + b) == Digits(a) + Digits(b)
  {
  }

  /** A fresh identifier from a time and ten random bytes. */
  method NewULIDAt(ms: nat, entropy: seq<bv8>) returns (id: string)
    requires |entropy| == 10
    ensures id == Encoded(Stamp(ms) + entropy)
  {
    var b := new bv8[16];
    b[0], b[1], b[2] := LowByte(ms / 0x100_0000_0000), LowByte(ms / 0x1_0000_0000), LowByte(ms / 0x100_0000);
    b[3], b[4], b[5] := LowByte(ms / 0x1_0000), LowByte(ms / 0x100), LowByte(ms);
    for i := 0 to 10
      invariant b[..6] == Stamp(ms) && b[6..6 + i] == entropy[..i]
    {
      b[6 + i] := entropy[i];
    }
    assert b[..] == Stamp(ms) + entropy;
    id := EncodeULID(b[..]);
  }
}
