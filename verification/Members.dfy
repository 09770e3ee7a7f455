/**
 The order in which set members are written: by type name, then by printed form
 (redis_to_aerospike/converters/set_converter.py). Printing raw bytes is injective, so the order is total
 on distinct members and sorting forgets the iteration order.
 */
module Members {
  import opened Models

  // ----- Printing raw bytes -----

  function HexDigit(d: nat): char
    requires d < 16
  {
    "0123456789abcdef"[d]
  }

  function Escape(b: Byte, quote: char): (e: string)
    ensures 1 <= |e| <= 4
  {
    if b == quote as int || b == '\\' as int then ['\\', b as char]
    else if b == 9 then "\\t"
    else if b == 10 then "\\n"
    else if b == 13 then "\\r"
    else if b < 32 || b >= 127 then ['\\', 'x', HexDigit(b / 16), HexDigit(b % 16)]
    else [b as char]
  }

  function EscapeAll(raw: seq<Byte>, quote: char): string {
    if raw == [] then "" else Escape(raw[0], quote) + EscapeAll(raw[1..], quote)
  }

  /** Double quotes only when the bytes hold a single quote and no double quote. */
  function Quote(raw: seq<Byte>): char {
    if '\'' as int in raw && '\"' as int !in raw then '\"' else '\''
  }

  /** `str()` of a bytes object. */
  function Print(raw: seq<Byte>): string {
    "b" + [Quote(raw)] + EscapeAll(raw, Quote(raw)) + [Quote(raw)]
  }

  lemma HexDigitsDiffer(a: nat, b: nat)
    requires a < 16 && b < 16 && a != b
    ensures HexDigit(a) != HexDigit(b)
  {
  }

  /** No byte's escape starts another byte's escape. */
  lemma EscapesPrefixFree(a: Byte, b: Byte, quote: char)
    requires quote == '\'' || quote == '\"'
    requires Escape(a, quote) <= Escape(b, quote)
    ensures a == b
  {
    var x, y := Escape(a, quote), Escape(b, quote);
    assert x[0] == y[0];
    if |x| == 4 {
      assert x[2] == y[2] && x[3] == y[3];
      if a / 16 != b / 16 { HexDigitsDiffer(a / 16, b / 16); }
      if a % 16 != b % 16 { HexDigitsDiffer(a % 16, b % 16); }
    } else if |x| == 2 {
      assert x[1] == y[1];
    }
  }

  lemma SameFirst(a: Byte, b: Byte, x: string, y: string, quote: char)
    requires quote == '\'' || quote == '\"'
    requires Escape(a, quote) + x == Escape(b, quote) + y
    ensures a == b && x == y
  {
    var p, q := Escape(a, quote), Escape(b, quote);
    var text := p + x;
    assert p == text[..|p|] && q == text[..|q|] && x == text[|p|..] && y == text[|q|..];
    assert p <= q || q <= p;
    forall c, d | Escape(c, quote) <= Escape(d, quote) ensures c == d { EscapesPrefixFree(c, d, quote); }
  }

  lemma {:induction false} EscapeAllInjective(a: seq<Byte>, b: seq<Byte>, quote: char)
    requires quote == '\'' || quote == '\"'
    requires EscapeAll(a, quote) == EscapeAll(b, quote)
    ensures a == b
  {
    if a != [] && b != [] {
      SameFirst(a[0], b[0], EscapeAll(a[1..], quote), EscapeAll(b[1..], quote), quote);
      EscapeAllInjective(a[1..], b[1..], quote);
      assert a == [a[0]] + a[1..] && b == [b[0]] + b[1..];
    }
  }

  lemma PrintInjective(a: seq<Byte>, b: seq<Byte>)
    requires Print(a) == Print(b)
    ensures a == b
  {
    var x, y := Print(a), Print(b);
    assert x[1] == Quote(a) && y[1] == Quote(b);
    assert x[2..|x|-1] == EscapeAll(a, Quote(a)) && y[2..|y|-1] == EscapeAll(b, Quote(b));
    EscapeAllInjective(a, b, Quote(a));
  }

  lemma {:induction false} PlainEscapes(raw: seq<Byte>, quote: char)
    requires quote == '\'' && forall b :: b in raw ==> 32 <= b < 127 && b != 39 && b != 92
    ensures EscapeAll(raw, quote) == seq(|raw|, i requires 0 <= i < |raw| => raw[i] as char)
  {
    if raw != [] {
      assert raw[0] in raw && forall b :: b in raw[1..] ==> b in raw;
      PlainEscapes(raw[1..], quote);
    }
  }

  /** Printable bytes other than the single quote and the backslash are printed as they are, between single quotes. */
  lemma PlainBytesPrint(raw: seq<Byte>)
    requires forall b :: b in raw ==> 32 <= b < 127 && b != 39 && b != 92
    ensures Print(raw) == "b'" + seq(|raw|, i requires 0 <= i < |raw| => raw[i] as char) + "'"
  {
    PlainEscapes(raw, '\'');
  }

  lemma PrintOne(b: Byte)
    ensures Print([b]) == "b" + [Quote([b])] + Escape(b, Quote([b])) + [Quote([b])]
  {
    assert [b][1..] == [];
    assert EscapeAll([b], Quote([b])) == Escape(b, Quote([b])) + EscapeAll([], Quote([b]));
  }

  /** Tab, newline, carriage return and backslash have escapes of their own. */
  lemma EscapedBytesPrint()
    ensures Print([9]) == "b'\\t'" && Print([10]) == "b'\\n'" && Print([13]) == "b'\\r'"
    ensures Print([92]) == "b'\\\\'"
  {
    PrintOne(9);
    PrintOne(10);
    PrintOne(13);
    PrintOne(92);
  }

  /** Every other byte outside the printable range is printed as two hexadecimal digits. */
  lemma HexBytesPrint(b: Byte)
    requires (b < 32 || b >= 127) && b !in {9, 10, 13}
    ensures Print([b]) == "b'\\x" + ["0123456789abcdef"[b / 16], "0123456789abcdef"[b % 16]] + "'"
  {
    PrintOne(b);
  }

  /** A single quote alone changes the quotes; with a double quote it is escaped. */
  lemma QuotesPrint()
    ensures Print([39]) == "b\"'\"" && Print([34]) == "b'\"'" && Print([39, 34]) == "b'\\'\"'"
  {
    PrintOne(39);
    PrintOne(34);
    var two: seq<Byte> := [39, 34];
    assert two[1..] == [34] && two[1..][1..] == [];
    assert Quote(two) == '\'';
    assert EscapeAll(two, '\'') == Escape(39, '\'') + (Escape(34, '\'') + EscapeAll([], '\''));
  }

  // ----- The order -----

  /** Lexicographic order by code point. */
  predicate TextLess(a: string, b: string) {
    b != "" && (a == "" || a[0] < b[0] || (a[0] == b[0] && TextLess(a[1..], b[1..])))
  }

  lemma {:induction false} TextLessIrreflexive(a: string)
    ensures !TextLess(a, a)
  {
    if a != "" { TextLessIrreflexive(a[1..]); }
  }

  lemma {:induction false} TextLessTransitive(a: string, b: string, c: string)
    requires TextLess(a, b) && TextLess(b, c)
    ensures TextLess(a, c)
  {
    if a != "" && a[0] == b[0] == c[0] {
      TextLessTransitive(a[1..], b[1..], c[1..]);
    }
  }

  lemma {:induction false} TextLessTotal(a: string, b: string)
    ensures TextLess(a, b) || a == b || TextLess(b, a)
  {
    if a != "" && b != "" && a[0] == b[0] {
      TextLessTotal(a[1..], b[1..]);
      assert a == [a[0]] + a[1..] && b == [b[0]] + b[1..];
    }
  }

  function Printed(m: UserKey): string { if m.TextKey? then m.text else Print(m.raw) }

  /** By type name, `bytes` before `str`, then by printed form. */
  predicate Less(a: UserKey, b: UserKey) {
    if a.TextKey? == b.TextKey? then TextLess(Printed(a), Printed(b)) else a.BinaryKey?
  }

  lemma LessIsStrictOrder(a: UserKey, b: UserKey, c: UserKey)
    ensures !Less(a, a)
    ensures Less(a, b) && Less(b, c) ==> Less(a, c)
  {
    TextLessIrreflexive(Printed(a));
    if TextLess(Printed(a), Printed(b)) && TextLess(Printed(b), Printed(c)) {
      TextLessTransitive(Printed(a), Printed(b), Printed(c));
    }
  }

  lemma LessIsTotal(a: UserKey, b: UserKey)
    ensures Less(a, b) || a == b || Less(b, a)
  {
    TextLessTotal(Printed(a), Printed(b));
    if a.BinaryKey? && b.BinaryKey? && Printed(a) == Printed(b) {
      PrintInjective(a.raw, b.raw);
    }
  }

  /** Up to `i` the texts agree; there `a` ends or has the smaller character. */
  predicate FirstLess(a: string, b: string, i: int) {
    0 <= i <= |a| && i < |b| && a[..i] == b[..i] && (i == |a| || a[i] < b[i])
  }

  lemma {:induction false} LessHasFirst(a: string, b: string) returns (i: int)
    requires TextLess(a, b)
    ensures FirstLess(a, b, i)
  {
    if a == "" || a[0] < b[0] {
      i := 0;
    } else {
      i := LessHasFirst(a[1..], b[1..]);
      assert a[..i+1] == [a[0]] + a[1..][..i] && b[..i+1] == [b[0]] + b[1..][..i];
      i := i + 1;
    }
  }

  lemma {:induction false} FirstIsLess(a: string, b: string, i: int)
    requires FirstLess(a, b, i)
    ensures TextLess(a, b)
  {
    if i > 0 {
      assert a[..i][0] == b[..i][0];
      assert a[1..][..i-1] == a[..i][1..] && b[1..][..i-1] == b[..i][1..];
      FirstIsLess(a[1..], b[1..], i - 1);
    }
  }

  /** `a` is shorter and starts `b`, or has the smaller character where the two first differ. */
  lemma TextLessMeaning(a: string, b: string)
    ensures TextLess(a, b) <==> exists i :: FirstLess(a, b, i)
  {
    if TextLess(a, b) { var i := LessHasFirst(a, b); }
    if i :| FirstLess(a, b, i) { FirstIsLess(a, b, i); }
  }

  /** Raw bytes come before text; text is ordered as such, raw bytes by how they print. */
  lemma LessMeaning(a: UserKey, b: UserKey)
    ensures a.BinaryKey? && b.TextKey? ==> Less(a, b) && !Less(b, a)
    ensures a.TextKey? && b.TextKey? ==> (Less(a, b) <==> TextLess(a.text, b.text))
    ensures a.BinaryKey? && b.BinaryKey? ==> (Less(a, b) <==> TextLess(Print(a.raw), Print(b.raw)))
  {
  }

  // ----- Sorting -----

  ghost predicate Ascending(s: seq<UserKey>) {
    forall i, j :: 0 <= i < j < |s| ==> Less(s[i], s[j])
  }

  function Insert(m: UserKey, s: seq<UserKey>): seq<UserKey> {
    if s == [] then [m]
    else if s[0] == m then s
    else if Less(m, s[0]) then [m] + s
    else [s[0]] + Insert(m, s[1..])
  }

  /** The distinct members in order: a set comprehension followed by `sorted`. */
  function Sort(members: seq<UserKey>): seq<UserKey> {
    if members == [] then [] else Insert(members[0], Sort(members[1..]))
  }

  lemma {:induction false} InsertKeepsOrder(m: UserKey, s: seq<UserKey>)
    requires Ascending(s)
    ensures Ascending(Insert(m, s))
    ensures forall x :: x in Insert(m, s) <==> x == m || x in s
  {
    if s != [] {
      LessIsTotal(m, s[0]);
      InsertKeepsOrder(m, s[1..]);
      if Less(m, s[0]) {
        forall j | 0 < j < |s| ensures Less(m, s[j]) {
          LessIsStrictOrder(m, s[0], s[j]);
        }
      }
      var rest := Insert(m, s[1..]);
      if s[0] != m && !Less(m, s[0]) {
        forall j | 0 <= j < |rest| ensures Less(s[0], rest[j]) {
          assert rest[j] in rest;
          if rest[j] != m {
            var k :| 0 <= k < |s[1..]| && s[1..][k] == rest[j];
            assert s[k+1] == rest[j];
          }
        }
      }
    }
  }

  /** Sorting gives exactly the members, each once, in order. */
  lemma {:induction false} SortIsSorted(members: seq<UserKey>)
    ensures Ascending(Sort(members))
    ensures forall x :: x in Sort(members) <==> x in members
  {
    if members != [] {
      SortIsSorted(members[1..]);
      InsertKeepsOrder(members[0], Sort(members[1..]));
    }
  }

  lemma EmptyTogether(a: seq<UserKey>, b: seq<UserKey>)
    requires forall x :: x in a ==> x in b
    ensures b == [] ==> a == []
  {
    if a != [] { assert a[0] in b; }
  }

  /** An ascending sequence is determined by its members. */
  lemma {:induction false} AscendingUnique(a: seq<UserKey>, b: seq<UserKey>)
    requires Ascending(a) && Ascending(b) && forall x :: x in a <==> x in b
    ensures a == b
  {
    EmptyTogether(a, b);
    EmptyTogether(b, a);
    if a != [] && b != [] {
      SameLeast(a, b);
      forall x ensures x in a[1..] <==> x in b[1..] {
        LessIsStrictOrder(a[0], a[0], a[0]);
        assert x in a <==> x == a[0] || x in a[1..];
        assert x in b <==> x == b[0] || x in b[1..];
        assert a[0] !in a[1..] && b[0] !in b[1..];
      }
      AscendingUnique(a[1..], b[1..]);
      assert a == [a[0]] + a[1..] && b == [b[0]] + b[1..];
    }
  }

  lemma SameLeast(a: seq<UserKey>, b: seq<UserKey>)
    requires a != [] && b != [] && Ascending(a) && Ascending(b) && forall x :: x in a <==> x in b
    ensures a[0] == b[0]
  {
    assert a[0] in b && b[0] in a;
    var i :| 0 <= i < |b| && b[i] == a[0];
    var j :| 0 <= j < |a| && a[j] == b[0];
    if i > 0 && j > 0 {
      LessIsStrictOrder(a[0], b[0], a[0]);
    }
  }

  /** Sorting forgets the iteration order. */
  lemma SortForgetsOrder(a: seq<UserKey>, b: seq<UserKey>)
    requires forall x :: x in a <==> x in b
    ensures Sort(a) == Sort(b)
  {
    SortIsSorted(a);
    SortIsSorted(b);
    AscendingUnique(Sort(a), Sort(b));
  }
}
