/**
 Decimal integers: the strict pattern `-?(0|[1-9]\d*)`, the value it denotes, and printing.
 Parsing is unbounded; callers apply the signed 64-bit range. Besides the ten ASCII digits `\d` admits
 the decimal digits of other scripts, which a table gives.
 */
module Numerals {
  import opened Models

  type Decimal = d: nat | d < 10

  /** The decimal digits beyond ASCII, with their values. */
  type DigitTable = char -> Option<Decimal>

  predicate Digit(c: char) { '0' <= c <= '9' }

  predicate AllDigits(s: string) { forall i :: 0 <= i < |s| ==> Digit(s[i]) }

  predicate Ascii(s: string) { forall i :: 0 <= i < |s| ==> s[i] < '\U{0080}' }

  /** What `\d` admits, and the value `int()` gives it. */
  function DigitValue(table: DigitTable, c: char): Option<Decimal> {
    if Digit(c) then Some(c as int - '0' as int)
    else if c < '\U{0080}' then None
    else table(c)
  }

  predicate Decimals(table: DigitTable, s: string) {
    forall i :: 0 <= i < |s| ==> DigitValue(table, s[i]).Some?
  }

  function DigitChar(d: Decimal): (c: char)
    ensures Digit(c) && c as int - '0' as int == d
  {
    (d + '0' as int) as char
  }

  /** `0`, or digits of which the first is an ASCII digit other than zero. */
  predicate NatText(table: DigitTable, s: string) {
    s == "0" || (s != "" && Digit(s[0]) && s[0] != '0' && Decimals(table, s))
  }

  predicate Negated(s: string) { s != "" && s[0] == '-' }

  /** The texts the integer pattern accepts. */
  predicate IntText(table: DigitTable, s: string) {
    if Negated(s) then NatText(table, s[1..]) else NatText(table, s)
  }

  function ParseNat(table: DigitTable, s: string): nat
    requires Decimals(table, s)
  {
    if s == "" then 0 else ParseNat(table, s[..|s|-1]) * 10 + DigitValue(table, s[|s|-1]).value
  }

  function ParseInt(table: DigitTable, s: string): int
    requires IntText(table, s)
  {
    if Negated(s) then 0 - ParseNat(table, s[1..]) else ParseNat(table, s)
  }

  function PrintNat(n: nat): string {
    if n < 10 then [DigitChar(n)] else PrintNat(n / 10) + [DigitChar(n % 10)]
  }

  function PrintInt(n: int): string {
    if n < 0 then "-" + PrintNat(-n) else PrintNat(n)
  }

  lemma {:induction false} PrintedNatParses(table: DigitTable, n: nat)
    ensures AllDigits(PrintNat(n)) && NatText(table, PrintNat(n)) && ParseNat(table, PrintNat(n)) == n
    ensures n > 0 ==> PrintNat(n)[0] != '0'
  {
    if n < 10 {
      assert PrintNat(n)[..0] == "";
    } else {
      PrintedNatParses(table, n / 10);
      var s := PrintNat(n);
      assert s[..|s|-1] == PrintNat(n / 10);
      assert s[0] == PrintNat(n / 10)[0];
    }
  }

  lemma {:induction false} PositiveNatText(table: DigitTable, s: string)
    requires NatText(table, s) && s != "0"
    ensures ParseNat(table, s) > 0
  {
    if |s| == 1 {
      assert s[..0] == "";
    } else {
      PositiveNatText(table, s[..|s|-1]);
    }
  }

  lemma {:induction false} ParsedNatPrints(table: DigitTable, s: string)
    requires NatText(table, s) && Ascii(s)
    ensures PrintNat(ParseNat(table, s)) == s
  {
    if |s| == 1 {
      assert s[..0] == "";
      assert s == [s[0]];
    } else {
      var front := s[..|s|-1];
      assert front[0] == s[0];
      ParsedNatPrints(table, front);
      PositiveNatText(table, front);
      var n := ParseNat(table, s);
      assert n / 10 == ParseNat(table, front) && n % 10 == DigitValue(table, s[|s|-1]).value;
      assert s == front + [s[|s|-1]];
    }
  }

  /** A printed integer is an optional minus sign and ASCII digits. */
  lemma PrintedIntDigits(n: int)
    ensures Ascii(PrintInt(n)) && PrintInt(n) != ""
    ensures if Negated(PrintInt(n)) then n < 0 && AllDigits(PrintInt(n)[1..]) else n >= 0 && AllDigits(PrintInt(n))
  {
    var table: DigitTable := c => None;
    PrintedNatParses(table, if n < 0 then -n else n);
    if n < 0 { assert PrintInt(n)[1..] == PrintNat(-n); }
  }

  /** Printing any integer gives an accepted text that parses back to it. */
  lemma PrintedIntParses(table: DigitTable, n: int)
    ensures IntText(table, PrintInt(n)) && ParseInt(table, PrintInt(n)) == n
  {
    if n < 0 {
      PrintedNatParses(table, -n);
      assert ("-" + PrintNat(-n))[1..] == PrintNat(-n);
    } else {
      PrintedNatParses(table, n);
    }
  }

  lemma PrintIntInjective(a: int, b: int)
    requires PrintInt(a) == PrintInt(b)
    ensures a == b
  {
    var table: DigitTable := c => None;
    PrintedIntParses(table, a);
    PrintedIntParses(table, b);
  }

  /** An accepted text is recovered by printing its value, with two exceptions: `-0`, and digits of other scripts. */
  lemma ParsedIntPrints(table: DigitTable, s: string)
    requires IntText(table, s)
    ensures PrintInt(ParseInt(table, s)) == s <==> s != "-0" && Ascii(s)
  {
    if !Ascii(s) {
      PrintedIntDigits(ParseInt(table, s));
    } else if Negated(s) {
      var digits := s[1..];
      ParsedNatPrints(table, digits);
      assert s == "-" + digits;
      if digits == "0" {
        assert digits[..0] == "";
        assert s == "-0";
        assert PrintInt(ParseInt(table, s)) == "0";
      } else {
        PositiveNatText(table, digits);
      }
    } else {
      ParsedNatPrints(table, s);
    }
  }
}
