/** The few string operations of Python that the modelled code relies on. */
module Text {
  /** str.isspace for one character. */
  predicate IsSpace(c: char) {
    var n := c as int;
    || 9 <= n <= 13 || 28 <= n <= 32 || n == 0x85 || n == 0xA0 || n == 0x1680
    || 0x2000 <= n <= 0x200A || n == 0x2028 || n == 0x2029 || n == 0x202F || n == 0x205F || n == 0x3000
  }

  function LStrip(s: string): string {
    if s != [] && IsSpace(s[0]) then LStrip(s[1..]) else s
  }

  function RStrip(s: string): string {
    if s != [] && IsSpace(s[|s| - 1]) then RStrip(s[..|s| - 1]) else s
  }

  function Strip(s: string): string {
    LStrip(RStrip(s))
  }

  function LowerChar(c: char): char {
    if 'A' <= c <= 'Z' then (c as int + 32) as char else c
  }

  /** str.lower on ASCII letters. */
  function Lower(s: string): string {
    seq(|s|, i requires 0 <= i < |s| => LowerChar(s[i]))
  }

  predicate IsDigit(c: char) {
    '0' <= c <= '9'
  }

  predicate AllDigits(s: string) {
    forall i | 0 <= i < |s| :: IsDigit(s[i])
  }

  function DigitValue(c: char): nat
    requires IsDigit(c)
  {
    c as int - '0' as int
  }

  function DigitChar(d: nat): char
    requires d < 10
  {
    ('0' as int + d) as char
  }

  /** The number a string of decimal digits denotes. */
  function NatValue(s: string): nat
    requires AllDigits(s)
  {
    if s == [] then 0 else NatValue(s[..|s| - 1]) * 10 + DigitValue(s[|s| - 1])
  }

  /** The shortest decimal numeral of n. */
  function NatText(n: nat): string {
    if n < 10 then [DigitChar(n)] else NatText(n / 10) + [DigitChar(n % 10)]
  }

  lemma {:induction false} NatTextValue(n: nat)
    ensures NatText(n) != [] && AllDigits(NatText(n)) && NatValue(NatText(n)) == n
  {
    var t := NatText(n);
    if n < 10 {
      assert t[..|t| - 1] == [];
    } else {
      NatTextValue(n / 10);
      assert t[..|t| - 1] == NatText(n / 10);
    }
  }

  predicate AllSpace(s: string) {
    forall i | 0 <= i < |s| :: IsSpace(s[i])
  }

  lemma {:induction false} LStripShape(s: string) returns (a: string)
    ensures s == a + LStrip(s) && AllSpace(a) && (LStrip(s) != [] ==> !IsSpace(LStrip(s)[0]))
    decreases |s|
  {
    a := [];
    if s != [] && IsSpace(s[0]) {
      a := LStripShape(s[1..]);
      a := [s[0]] + a;
    }
  }

  lemma {:induction false} RStripShape(s: string) returns (b: string)
    ensures s == RStrip(s) + b && AllSpace(b) && (RStrip(s) != [] ==> !IsSpace(RStrip(s)[|RStrip(s)| - 1]))
    decreases |s|
  {
    b := [];
    if s != [] && IsSpace(s[|s| - 1]) {
      b := RStripShape(s[..|s| - 1]);
      b := b + [s[|s| - 1]];
    }
  }

  /** str.strip cuts off white space, all of it, at both ends and nowhere else. */
  lemma StripShape(s: string) returns (a: string, b: string)
    ensures s == a + Strip(s) + b && AllSpace(a) && AllSpace(b)
    ensures Strip(s) != [] ==> !IsSpace(Strip(s)[0]) && !IsSpace(Strip(s)[|Strip(s)| - 1])
  {
    b := RStripShape(s);
    a := LStripShape(RStrip(s));
  }

  lemma StripSolid(s: string)
    requires s != [] && !IsSpace(s[0]) && !IsSpace(s[|s| - 1])
    ensures Strip(s) == s
  {
  }
}
