/**
 Strict UTF-8 (section 4 of RFC 3629), written as the table of well-formed byte sequences given
 there: no overlong forms, no surrogates, nothing above U+10FFFF.
 */
module Utf8 {
  import opened Models

  function EncodeChar(c: char): (r: seq<Byte>)
    ensures 1 <= |r| <= 4
  {
    var n := c as int;
    if n < 0x80 then [n]
    else if n < 0x800 then [0xC0 + n / 64, 0x80 + n % 64]
    else if n < 0x10000 then [0xE0 + n / 64 / 64, 0x80 + n / 64 % 64, 0x80 + n % 64]
    else [0xF0 + n / 64 / 64 / 64, 0x80 + n / 64 / 64 % 64, 0x80 + n / 64 % 64, 0x80 + n % 64]
  }

  function Encode(s: string): seq<Byte> {
    if s == "" then [] else EncodeChar(s[0]) + Encode(s[1..])
  }

  /** One character of each length. */
  lemma EncodedExamples()
    ensures EncodeChar('A') == [0x41] && EncodeChar('\U{E9}') == [0xC3, 0xA9]
    ensures EncodeChar('\U{20AC}') == [0xE2, 0x82, 0xAC] && EncodeChar('\U{1F600}') == [0xF0, 0x9F, 0x98, 0x80]
  {
  }

  predicate Tail(b: Byte) { 0x80 <= b <= 0xBF }

  /** The second byte allowed after the lead byte of a three- or four-byte sequence. */
  predicate SecondByte(lead: Byte, b: Byte) {
    if lead == 0xE0 then 0xA0 <= b <= 0xBF
    else if lead == 0xED then 0x80 <= b <= 0x9F
    else if lead == 0xF0 then 0x90 <= b <= 0xBF
    else if lead == 0xF4 then 0x80 <= b <= 0x8F
    else Tail(b)
  }

  /** Number of bytes of the well-formed sequence that starts `bytes`, or 0 if none does. */
  function LeadLength(bytes: seq<Byte>): (n: nat)
    ensures n <= |bytes| && n <= 4
  {
    if bytes == [] then 0
    else if bytes[0] <= 0x7F then 1
    else if 0xC2 <= bytes[0] <= 0xDF then
      if 2 <= |bytes| && Tail(bytes[1]) then 2 else 0
    else if 0xE0 <= bytes[0] <= 0xEF then
      if 3 <= |bytes| && SecondByte(bytes[0], bytes[1]) && Tail(bytes[2]) then 3 else 0
    else if 0xF0 <= bytes[0] <= 0xF4 then
      if 4 <= |bytes| && SecondByte(bytes[0], bytes[1]) && Tail(bytes[2]) && Tail(bytes[3]) then 4 else 0
    else 0
  }

  /** Appends the six payload bits of a tail byte. */
  function Shift(n: int, b: Byte): (m: int)
    requires Tail(b)
    ensures m / 64 == n && 0x80 + m % 64 == b
  {
    var payload: int := b - 0x80;
    n * 64 + payload
  }

  /** The code point of the well-formed sequence that starts `bytes`. */
  function Point(bytes: seq<Byte>): int
    requires LeadLength(bytes) > 0
  {
    var lead: int := bytes[0];
    match LeadLength(bytes)
    case 1 => lead
    case 2 => Shift(lead - 0xC0, bytes[1])
    case 3 => Shift(Shift(lead - 0xE0, bytes[1]), bytes[2])
    case _ => Shift(Shift(Shift(lead - 0xF0, bytes[1]), bytes[2]), bytes[3])
  }

  function DecodeChar(bytes: seq<Byte>): char
    requires LeadLength(bytes) > 0
  {
    Point(bytes) as char
  }

  /** Strict decoding; None is the UnicodeDecodeError. */
  function Decode(bytes: seq<Byte>): Option<string> {
    if bytes == [] then Some("")
    else
      var n := LeadLength(bytes);
      if n == 0 then None
      else
        match Decode(bytes[n..])
        case None => None
        case Some(rest) => Some([DecodeChar(bytes)] + rest)
  }

  lemma EncodedCharDecodes(c: char, rest: seq<Byte>)
    ensures LeadLength(EncodeChar(c) + rest) == |EncodeChar(c)|
    ensures DecodeChar(EncodeChar(c) + rest) == c
  {
    var n := c as int;
    var code := EncodeChar(c);
    var bytes := code + rest;
    assert forall i :: 0 <= i < |code| ==> bytes[i] == code[i];
    if n < 0x80 {
    } else if n < 0x800 {
      assert LeadLength(bytes) == 2;
    } else if n < 0x10000 {
      assert LeadLength(bytes) == 3;
      assert Shift(bytes[0] - 0xE0, bytes[1]) == n / 64;
    } else {
      assert LeadLength(bytes) == 4;
      assert Shift(bytes[0] - 0xF0, bytes[1]) == n / 64 / 64;
      assert Shift(n / 64 / 64, bytes[2]) == n / 64;
    }
  }

  lemma DecodedCharEncodes(bytes: seq<Byte>)
    requires LeadLength(bytes) > 0
    ensures EncodeChar(DecodeChar(bytes)) == bytes[..LeadLength(bytes)]
  {
    match LeadLength(bytes) {
      case 1 =>
      case 2 => DecodedPair(bytes);
      case 3 => DecodedTriple(bytes);
      case _ => DecodedQuad(bytes);
    }
  }

  lemma DecodedPair(bytes: seq<Byte>)
    requires LeadLength(bytes) == 2
    ensures EncodeChar(DecodeChar(bytes)) == bytes[..2]
  {
    assert Point(bytes) / 64 == bytes[0] - 0xC0;
  }

  lemma DecodedTriple(bytes: seq<Byte>)
    requires LeadLength(bytes) == 3
    ensures EncodeChar(DecodeChar(bytes)) == bytes[..3]
  {
    var n := Point(bytes);
    assert n / 64 == Shift(bytes[0] - 0xE0, bytes[1]);
    assert n / 64 / 64 == bytes[0] - 0xE0;
    assert 0x800 <= n < 0x10000;
  }

  lemma DecodedQuad(bytes: seq<Byte>)
    requires LeadLength(bytes) == 4
    ensures EncodeChar(DecodeChar(bytes)) == bytes[..4]
  {
    var n := Point(bytes);
    assert n / 64 == Shift(Shift(bytes[0] - 0xF0, bytes[1]), bytes[2]);
    assert n / 64 / 64 == Shift(bytes[0] - 0xF0, bytes[1]);
    assert n / 64 / 64 / 64 == bytes[0] - 0xF0;
    assert 0x10000 <= n;
  }

  /** Decoding inverts encoding, so every string is representable. */
  lemma {:induction false} DecodeAfterEncode(s: string)
    ensures Decode(Encode(s)) == Some(s)
  {
    if s != "" {
      EncodedCharDecodes(s[0], Encode(s[1..]));
      var bytes := EncodeChar(s[0]) + Encode(s[1..]);
      assert bytes[|EncodeChar(s[0])|..] == Encode(s[1..]);
      DecodeAfterEncode(s[1..]);
      assert [s[0]] + s[1..] == s;
    }
  }

  lemma DecodeStep(bytes: seq<Byte>)
    requires bytes != [] && Decode(bytes).Some?
    ensures LeadLength(bytes) > 0 && Decode(bytes[LeadLength(bytes)..]).Some?
    ensures Decode(bytes).value == [DecodeChar(bytes)] + Decode(bytes[LeadLength(bytes)..]).value
  {
  }

  lemma Reassemble(bytes: seq<Byte>, n: nat, c: char, rest: string)
    requires n <= |bytes| && EncodeChar(c) == bytes[..n] && Encode(rest) == bytes[n..]
    ensures Encode([c] + rest) == bytes
  {
    EncodeCons(c, rest);
  }

  /** Whatever decodes is the encoding of what it decodes to: strict decoding loses nothing. */
  lemma {:induction false} EncodeAfterDecode(bytes: seq<Byte>)
    requires Decode(bytes).Some?
    ensures Encode(Decode(bytes).value) == bytes
  {
    if bytes != [] {
      DecodeStep(bytes);
      DecodedCharEncodes(bytes);
      EncodeAfterDecode(bytes[LeadLength(bytes)..]);
      Reassemble(bytes, LeadLength(bytes), DecodeChar(bytes), Decode(bytes[LeadLength(bytes)..]).value);
    }
  }

  lemma EncodeCons(c: char, rest: string)
    ensures Encode([c] + rest) == EncodeChar(c) + Encode(rest)
  {
    assert ([c] + rest)[1..] == rest;
  }

  /** The accepted byte strings are exactly the encodings. */
  lemma DecodesIffEncoding(bytes: seq<Byte>)
    ensures Decode(bytes).Some? <==> exists s :: Encode(s) == bytes
  {
    if Decode(bytes).Some? { EncodeAfterDecode(bytes); }
    if s :| Encode(s) == bytes { DecodeAfterEncode(s); }
  }

  /** Text when decodable, otherwise the raw bytes: how keys and members are carried over. */
  function DecodeOrKeep(bytes: seq<Byte>): UserKey {
    match Decode(bytes)
    case Some(text) => TextKey(text)
    case None => BinaryKey(bytes)
  }

  /** The fallback to raw bytes keeps distinct byte strings distinct. */
  lemma DecodeOrKeepInjective(a: seq<Byte>, b: seq<Byte>)
    ensures DecodeOrKeep(a) == DecodeOrKeep(b) <==> a == b
  {
    if DecodeOrKeep(a) == DecodeOrKeep(b) && Decode(a).Some? {
      EncodeAfterDecode(a);
      EncodeAfterDecode(b);
    }
  }

  /** The encoding of a text is kept as that text; bytes that encode no text are kept as they are. */
  lemma KeptAsTextOrBytes(bytes: seq<Byte>)
    ensures forall s :: DecodeOrKeep(bytes) == TextKey(s) <==> Encode(s) == bytes
    ensures DecodeOrKeep(bytes) == BinaryKey(bytes) <==> forall s :: Encode(s) != bytes
    ensures DecodeOrKeep(bytes).BinaryKey? ==> DecodeOrKeep(bytes).raw == bytes
  {
    DecodesIffEncoding(bytes);
    if Decode(bytes).Some? { EncodeAfterDecode(bytes); }
    forall s | Encode(s) == bytes ensures DecodeOrKeep(bytes) == TextKey(s) { DecodeAfterEncode(s); }
  }

  // ----- Lossy decoding -----

  /** How many bytes one replacement character stands for when no well-formed sequence starts `bytes`: the longest
      start of such a sequence, or one byte. */
  function Malformed(bytes: seq<Byte>): (n: nat)
    requires bytes != []
    ensures 1 <= n <= |bytes|
  {
    if 0xE0 <= bytes[0] <= 0xEF && 2 <= |bytes| && SecondByte(bytes[0], bytes[1]) then 2
    else if 0xF0 <= bytes[0] <= 0xF4 && 2 <= |bytes| && SecondByte(bytes[0], bytes[1]) then
      if 3 <= |bytes| && Tail(bytes[2]) then 3 else 2
    else 1
  }

  /** The first `m` bytes start a well-formed sequence of more than `m` bytes. */
  ghost predicate StartsLonger(bytes: seq<Byte>, m: nat)
    requires m <= |bytes|
  {
    exists tail :: LeadLength(bytes[..m] + tail) > m
  }

  lemma Completes(bytes: seq<Byte>, m: nat, tail: seq<Byte>)
    requires 1 <= m <= |bytes| && LeadLength(bytes[..m] + tail) > m
    ensures StartsLonger(bytes, m)
  {
  }

  lemma CompletionOfTwo(bytes: seq<Byte>)
    requires 2 <= |bytes| && 0xE0 <= bytes[0] <= 0xF4 && SecondByte(bytes[0], bytes[1])
    ensures StartsLonger(bytes, 2)
  {
    var tail: seq<Byte> := [0x80, 0x80];
    var whole := bytes[..2] + tail;
    assert whole[0] == bytes[0] && whole[1] == bytes[1] && whole[2] == 0x80 && whole[3] == 0x80;
    Completes(bytes, 2, tail);
  }

  lemma CompletionOfThree(bytes: seq<Byte>)
    requires 3 <= |bytes| && 0xF0 <= bytes[0] <= 0xF4 && SecondByte(bytes[0], bytes[1]) && Tail(bytes[2])
    ensures StartsLonger(bytes, 3)
  {
    var tail: seq<Byte> := [0x80];
    var whole := bytes[..3] + tail;
    assert whole[0] == bytes[0] && whole[1] == bytes[1] && whole[2] == bytes[2] && whole[3] == 0x80;
    Completes(bytes, 3, tail);
  }

  /** One replacement character stands for the longest start of a well-formed sequence: each longer piece than one byte
      starts one, and no piece beyond it does. */
  lemma MalformedIsMaximal(bytes: seq<Byte>, m: nat)
    requires bytes != [] && LeadLength(bytes) == 0 && 1 < m <= |bytes|
    ensures m <= Malformed(bytes) <==> StartsLonger(bytes, m)
  {
    if m <= Malformed(bytes) {
      if m == 2 { CompletionOfTwo(bytes); } else { CompletionOfThree(bytes); }
    }
    if StartsLonger(bytes, m) {
      var tail :| LeadLength(bytes[..m] + tail) > m;
      var whole := bytes[..m] + tail;
      assert forall i :: 0 <= i < m ==> whole[i] == bytes[i];
    }
  }

  /** Decoding with malformed parts replaced by U+FFFD. */
  function DecodeReplace(bytes: seq<Byte>): string {
    if bytes == [] then ""
    else
      var n := LeadLength(bytes);
      if n > 0 then [DecodeChar(bytes)] + DecodeReplace(bytes[n..])
      else ['\U{FFFD}'] + DecodeReplace(bytes[Malformed(bytes)..])
  }

  /** Replacement changes nothing in valid UTF-8. */
  lemma {:induction false} ReplaceKeepsValid(bytes: seq<Byte>)
    requires Decode(bytes).Some?
    ensures DecodeReplace(bytes) == Decode(bytes).value
  {
    if bytes != [] { ReplaceKeepsValid(bytes[LeadLength(bytes)..]); }
  }

  /** It is injective on valid UTF-8. */
  lemma ReplaceInjectiveOnValid(a: seq<Byte>, b: seq<Byte>)
    requires Decode(a).Some? && Decode(b).Some?
    ensures DecodeReplace(a) == DecodeReplace(b) <==> a == b
  {
    ReplaceKeepsValid(a);
    ReplaceKeepsValid(b);
    EncodeAfterDecode(a);
    EncodeAfterDecode(b);
  }

  /** It is not injective beyond that: two different malformed names read the same. */
  lemma ReplaceCollapses()
    ensures DecodeReplace([0xFF]) == DecodeReplace([0xFE]) == "\U{FFFD}"
  {
    var x: seq<Byte>, y: seq<Byte> := [0xFF], [0xFE];
    assert x[1..] == [] && y[1..] == [];
  }
}
