/** The pieces of Go's strings and strconv packages that the source relies on. */
module Text {

  /** unicode.IsSpace */
  predicate IsSpace(c: char) {
    '\t' <= c <= '\r' || c == ' ' || c as int == 0x85 || c as int == 0xA0 || c as int == 0x1680
    || 0x2000 <= c as int <= 0x200a || c as int == 0x2028 || c as int == 0x2029 || c as int == 0x202f
    || c as int == 0x205f || c as int == 0x3000
  }

  /** strings.TrimSpace(s) == "" */
  predicate Blank(s: string) {
    forall i :: 0 <= i < |s| ==> IsSpace(s[i])
  }

  lemma BlankIs(s: string)
    ensures Blank(s) <==> !exists c :: c in s && !IsSpace(c)
  {
    if !Blank(s) {
      var i :| 0 <= i < |s| && !IsSpace(s[i]);
      assert s[i] in s;
    }
  }

  predicate IsDigit(c: char) { '0' <= c <= '9' }

  predicate IsHexDigit(c: char) { IsDigit(c) || 'a' <= c <= 'f' }

  function DigitChar(d: nat): (c: char)
    requires d < 10
    ensures IsDigit(c) && c as int - '0' as int == d
  {
    ('0' as int + d) as char
  }

  function DigitValue(c: char): (d: nat)
    requires IsDigit(c)
    ensures d < 10
  {
    c as int - '0' as int
  }

  /** Decimal representation of a natural number, without leading zeros. */
  function Decimal(n: nat): (s: string)
    ensures s != [] && forall i :: 0 <= i < |s| ==> IsDigit(s[i])
  {
    if n < 10 then [DigitChar(n)] else Decimal(n / 10) + [DigitChar(n % 10)]
  }

  /** PostgreSQL text cannot hold the zero character. */
  predicate NoNul(s: string) {
    '\0' !in s
  }

  /** Length in bytes of the UTF-8 encoding, which is what Go's len counts. */
  function ByteLength(s: string): (n: nat)
    ensures n >= |s|
  {
    if s == [] then 0 else ByteLength(s[..|s| - 1]) + CharBytes(s[|s| - 1])
  }

  /** Characters below 128, 2048 and 65536 take one, two and three bytes, the others four. */
  lemma {:induction false} ByteLengthIs(s: string, c: char)
    ensures ByteLength([]) == 0
    ensures ByteLength(s + [c]) == ByteLength(s) + if c as int < 128 then 1 else if c as int < 2048 then 2
                                                   else if c as int < 65536 then 3 else 4
  {
    assert (s + [c])[..|s|] == s;
  }

  /** The White_Space characters of Unicode. */
  lemma SpacesAre(c: char)
    ensures IsSpace(c) <==>
            c as int in {9, 10, 11, 12, 13, 32, 0x85, 0xA0, 0x1680, 0x2000, 0x2001, 0x2002, 0x2003, 0x2004, 0x2005,
                         0x2006, 0x2007, 0x2008, 0x2009, 0x200a, 0x2028, 0x2029, 0x202f, 0x205f, 0x3000}
  {
  }

  function CharBytes(c: char): (n: nat)
    ensures 1 <= n <= 4
  {
    if c as int < 0x80 then 1 else if c as int < 0x800 then 2 else if c as int < 0x1_0000 then 3 else 4
  }

  /** A text fits VARCHAR(width) if what exceeds the width is blank; the excess is then cut off. */
  predicate FitsWidth(s: string, width: nat) {
    forall i :: width <= i < |s| ==> s[i] == ' '
  }

  function Cut(s: string, width: nat): (r: string)
    ensures r <= s && |r| == if |s| <= width then |s| else width
  {
    if |s| <= width then s else s[..width]
  }

  predicate HasPrefix(s: string, prefix: string) {
    |prefix| <= |s| && s[..|prefix|] == prefix
  }

  lemma HasPrefixIs(s: string, prefix: string)
    ensures HasPrefix(s, prefix) <==> prefix <= s
  {
    if prefix <= s {
      assert s[..|prefix|] == prefix;
    }
  }
}
