/** The canonical "<branch>/<index>" keys (internal/domain/wallet_ref.go, internal/keys/meta.go). */
module AddressKeys {
  import opened Base
  import opened Amounts

  type uint32 = x: nat | x < 0x1_0000_0000

  datatype Branch = Receive | Change

  function BranchText(b: Branch): string { if b.Change? then "1" else "0" }

  function AddressKey(b: Branch, index: nat): string { BranchText(b) + "/" + Print(index) }

  /** Decimal digits without a superfluous leading zero. */
  predicate IsCanonical(s: string) { s != "" && AllDigits(s) && (|s| > 1 ==> s[0] != '0') }

  lemma {:induction false} PrintIsCanonical(n: nat)
    ensures IsCanonical(Print(n)) && (n > 0 ==> Print(n)[0] != '0')
  {
    if n >= 10 {
      PrintIsCanonical(n / 10);
      assert Print(n)[0] == Print(n / 10)[0];
    }
  }

  /** A canonical text is the print of its number: printing and reading are inverse. */
  lemma {:induction false} CanonicalIsPrint(s: string)
    requires IsCanonical(s)
    ensures Print(Decimal(s)) == s && (s[0] != '0' ==> Decimal(s) > 0)
  {
    var d := DigitValue(s[|s| - 1]);
    if |s| == 1 {
      assert Decimal(s[..0]) == 0;
      assert s == [Digit(d)];
    } else {
      var front := s[..|s| - 1];
      assert front[0] == s[0];
      CanonicalIsPrint(front);
      assert Decimal(s) == 10 * Decimal(front) + d;
      assert s == front + [Digit(d)];
    }
  }

  ghost predicate Prints32(s: string) { exists n: uint32 :: s == Print(n) }

  /** Reads a 32-bit number from canonical digits; the accumulator never exceeds the bound by more
      than one digit. */
  method ParseUint32(s: string) returns (r: Option<uint32>)
    ensures r.Some? <==> Prints32(s)
    ensures r.Some? ==> s == Print(r.value)
  {
    PrintForms(s);
    if s == "" {
      return None;
    }
    if |s| > 1 && s[0] == '0' {
      return None;
    }
    var v: nat := 0;
    for i := 0 to |s|
      invariant AllDigits(s[..i]) && v == Decimal(s[..i]) && v < 0x1_0000_0000
    {
      if !IsDigit(s[i]) {
        return None;
      }
      assert s[..i + 1][..i] == s[..i];
      v := v * 10 + DigitValue(s[i]);
      if v > 0xFFFF_FFFF {
        if AllDigits(s) {
          DecimalGrows(s, i + 1);
        }
        return None;
      }
    }
    assert s[..|s|] == s;
    CanonicalIsPrint(s);
    return Some(v);
  }

  /** Which texts print a 32-bit number. */
  lemma PrintForms(s: string)
    ensures Prints32(s) <==> IsCanonical(s) && Decimal(s) < 0x1_0000_0000
  {
    if n: uint32 :| s == Print(n) {
      PrintIsCanonical(n);
      PrintDenotes(n);
    }
    if IsCanonical(s) && Decimal(s) < 0x1_0000_0000 {
      CanonicalIsPrint(s);
      var n: uint32 := Decimal(s);
    }
  }

  lemma DecimalGrows(s: string, i: nat)
    requires i <= |s| && AllDigits(s)
    ensures Decimal(s[..i]) <= Decimal(s)
  {
    RunningGrows(0, s, i);
    assert s[..|s|] == s;
  }

  lemma PrintInjective(m: nat, n: nat)
    requires Print(m) == Print(n)
    ensures m == n
  {
    PrintDenotes(m);
    PrintDenotes(n);
  }

  lemma KeyInjective(b: Branch, i: nat, c: Branch, j: nat)
    requires AddressKey(b, i) == AddressKey(c, j)
    ensures b == c && i == j
  {
    assert AddressKey(b, i)[0] == BranchText(b)[0] && AddressKey(c, j)[0] == BranchText(c)[0];
    assert AddressKey(b, i)[2..] == Print(i) && AddressKey(c, j)[2..] == Print(j);
    PrintInjective(i, j);
  }

  /** The position of the first '/', or the length. */
  function SlashAt(s: string): (i: nat)
    ensures i <= |s| && (i < |s| ==> s[i] == '/') && forall k :: 0 <= k < i ==> s[k] != '/'
  {
    if s == "" || s[0] == '/' then 0 else 1 + SlashAt(s[1..])
  }

  /** Reads back exactly the keys that are printed. */
  method ParseAddressKey(key: string) returns (r: Option<(Branch, uint32)>)
    ensures r.Some? ==> key == AddressKey(r.value.0, r.value.1)
    ensures r.None? ==> forall b: Branch, i: uint32 :: key != AddressKey(b, i)
  {
    var at := SlashAt(key);
    forall b: Branch, i: uint32 ensures key == AddressKey(b, i) ==> at == 1 && |key| > 2 && key[..1] == BranchText(b) && key[2..] == Print(i) {
      PrintIsCanonical(i);
      assert AddressKey(b, i)[1] == '/' && AddressKey(b, i)[0] != '/';
    }
    if at == |key| || at == 0 || at == |key| - 1 {
      return None;
    }
    assert key == key[..at] + "/" + key[at + 1..];
    BranchPrints();
    var b := ParseUint32(key[..at]);
    forall c: Branch | key[..at] == BranchText(c) ensures b == Some(if c.Change? then 1 else 0) {
      var n: uint32 := if c.Change? then 1 else 0;
      assert key[..at] == Print(n);
      PrintInjective(b.value, n);
    }
    if b.None? || (b.value != 0 && b.value != 1) {
      return None;
    }
    var branch := if b.value == 1 then Change else Receive;
    assert BranchText(branch) == key[..at];
    forall c: Branch, j: uint32 | key == AddressKey(c, j) ensures Prints32(key[at + 1..]) {
      assert key[at + 1..] == Print(j);
    }
    var i := ParseUint32(key[at + 1..]);
    if i.None? {
      return None;
    }
    return Some((branch, i.value));
  }

  lemma BranchPrints()
    ensures Print(0) == "0" && Print(1) == "1"
  {
  }

  /** Receive keys begin with 0 and change keys with 1. */
  lemma KeyForms(i: nat)
    ensures AddressKey(Receive, i) == "0/" + Print(i) && AddressKey(Change, i) == "1/" + Print(i)
    ensures AddressKey(Receive, 0) == "0/0"
  {
    assert Print(0) == "0";
  }
}
