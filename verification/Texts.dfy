/** Trimming white space: of texts, character by character, and of files, byte by byte. */
module Texts {

  /** The Unicode White Space property. */
  predicate IsSpace(c: char) {
    var n := c as int;
    9 <= n <= 13 || n == 32 || n == 0x85 || n == 0xA0 || n == 0x1680 || 0x2000 <= n <= 0x200A
    || n == 0x2028 || n == 0x2029 || n == 0x202F || n == 0x205F || n == 0x3000
  }

  /** The bytes that are white space by themselves. */
  predicate IsSpaceByte(c: char) { var n := c as int; 9 <= n <= 13 || n == 32 }

  /** The 25 characters with the property, and the six that are bytes. */
  lemma SpacesAre(c: char)
    ensures IsSpace(c) <==>
              c in "\t\n\U{b}\U{c}\r \U{85}\U{a0}\U{1680}\U{2000}\U{2001}\U{2002}\U{2003}\U{2004}\U{2005}\U{2006}\U{2007}\U{2008}\U{2009}\U{200a}\U{2028}\U{2029}\U{202f}\U{205f}\U{3000}"
    ensures IsSpaceByte(c) <==> c in "\t\n\U{b}\U{c}\r "
  {
  }

  function TrimLeft(s: string, space: char -> bool): string {
    if s != "" && space(s[0]) then TrimLeft(s[1..], space) else s
  }

  function TrimRight(s: string, space: char -> bool): string {
    if s != "" && space(s[|s| - 1]) then TrimRight(s[..|s| - 1], space) else s
  }

  function TrimBy(s: string, space: char -> bool): string { TrimRight(TrimLeft(s, space), space) }

  lemma {:induction false} TrimLeftSkipsSpaces(a: string, b: string, space: char -> bool)
    requires forall c :: c in a ==> space(c)
    ensures TrimLeft(a + b, space) == TrimLeft(b, space)
  {
    if a == "" {
      assert a + b == b;
    } else {
      assert a[0] in a;
      assert (a + b)[1..] == a[1..] + b;
      TrimLeftSkipsSpaces(a[1..], b, space);
    }
  }

  lemma {:induction false} TrimRightOfNonSpace(s: string, space: char -> bool)
    ensures TrimRight(s, space) == "" <==> forall c :: c in s ==> space(c)
  {
    if s != "" {
      assert s == s[..|s| - 1] + [s[|s| - 1]];
      TrimRightOfNonSpace(s[..|s| - 1], space);
    }
  }

  lemma {:induction false} BlankMeansSpaces(s: string, space: char -> bool)
    ensures TrimBy(s, space) == "" <==> forall c :: c in s ==> space(c)
  {
    if s == "" {
    } else if space(s[0]) {
      BlankMeansSpaces(s[1..], space);
      assert s == [s[0]] + s[1..];
    } else {
      assert s[0] in s;
      TrimRightOfNonSpace(s, space);
    }
  }
}
