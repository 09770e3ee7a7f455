/**
 Scalars and TTLs: turning raw Redis bytes into the most natural value without changing data, and
 Redis millisecond TTLs into Aerospike TTLs (redis_to_aerospike/converters/base.py).
 */
module Coercion {
  import opened Models
  import Numerals
  import Utf8

  const INT64_MIN := -0x8000_0000_0000_0000
  const INT64_MAX := 0x7FFF_FFFF_FFFF_FFFF

  /** What the host's number formats decide: the digits of other scripts, float texts, and their finite values; None
      is a value that is not finite. */
  datatype NumberFormat = NumberFormat(
    digits: Numerals.DigitTable,
    accepts: string -> bool,
    parse: string -> Option<Float>)

  /** The end anchor of the pattern, and `int()`, ignore one newline at the end of the text. */
  predicate EndsInNewline(text: string) { text != "" && text[|text|-1] == '\n' }

  function Chomp(text: string): string { if EndsInNewline(text) then text[..|text|-1] else text }

  predicate InInt64(n: int) { INT64_MIN <= n <= INT64_MAX }

  function CoerceText(numbers: NumberFormat, text: string): Value {
    if Numerals.IntText(numbers.digits, Chomp(text)) then
      var n := Numerals.ParseInt(numbers.digits, Chomp(text));
      if InInt64(n) then IntValue(n) else TextValue(text)
    else if numbers.accepts(text) && ('.' in text || 'e' in text || 'E' in text) then
      match numbers.parse(text)
      case Some(f) => FloatValue(f)
      case None => TextValue(text)
    else TextValue(text)
  }

  function Coerce(numbers: NumberFormat, raw: seq<Byte>): Value {
    match Utf8.Decode(raw)
    case Some(text) => CoerceText(numbers, text)
    case None => BlobValue(raw)
  }

  lemma PrintedHasNoNewline(n: int)
    ensures !EndsInNewline(Numerals.PrintInt(n)) && Chomp(Numerals.PrintInt(n)) == Numerals.PrintInt(n)
  {
    Numerals.PrintedIntDigits(n);
    var s := Numerals.PrintInt(n);
    if Numerals.Negated(s) && |s| > 1 { assert s[|s|-1] == s[1..][|s|-2]; }
  }

  /** The decimal text of any integer becomes that integer inside signed 64 bits and stays text outside. */
  lemma PrintedIntegersCoerce(numbers: NumberFormat, n: int)
    ensures Coerce(numbers, Utf8.Encode(Numerals.PrintInt(n)))
         == if -0x8000_0000_0000_0000 <= n <= 0x7FFF_FFFF_FFFF_FFFF then IntValue(n)
            else TextValue(Numerals.PrintInt(n))
  {
    Utf8.DecodeAfterEncode(Numerals.PrintInt(n));
    Numerals.PrintedIntParses(numbers.digits, n);
    PrintedHasNoNewline(n);
  }

  /** A text that becomes an integer is recovered by printing it, except `-0`, texts that end in a newline and texts
      with digits of other scripts: for those the stored value no longer tells what was read. */
  lemma CoercedIntegersPrint(numbers: NumberFormat, text: string, n: int)
    requires CoerceText(numbers, text) == IntValue(n)
    ensures Numerals.PrintInt(n) == text <==> !EndsInNewline(text) && text != "-0" && Numerals.Ascii(text)
  {
    Numerals.ParsedIntPrints(numbers.digits, Chomp(text));
    PrintedHasNoNewline(n);
  }

  /** The three exceptions occur. The digit is the Arabic-Indic two. */
  lemma CoercionChangesData(numbers: NumberFormat)
    ensures CoerceText(numbers, "-0") == CoerceText(numbers, "0") == CoerceText(numbers, "0\n") == IntValue(0)
    ensures numbers.digits('\U{0662}') == Some(2) ==> CoerceText(numbers, ['1', '\U{0662}']) == IntValue(12)
  {
    assert "-0"[1..] == "0" && "0\n"[..1] == "0" && "0"[..0] == "";
    assert Numerals.ParseNat(numbers.digits, "0") == 0;
    if numbers.digits('\U{0662}') == Some(2) {
      var text := ['1', '\U{0662}'];
      assert text[..1] == ['1'] && ['1'][..0] == "";
      assert Numerals.ParseNat(numbers.digits, ['1']) == 1;
      assert Numerals.ParseNat(numbers.digits, text) == 12;
    }
  }

  /** A string value that is kept as text or as a blob is recovered exactly. */
  lemma KeptVerbatim(numbers: NumberFormat, raw: seq<Byte>)
    ensures var v := Coerce(numbers, raw);
            && (v.TextValue? ==> Utf8.Encode(v.s) == raw)
            && (v.BlobValue? ==> v.raw == raw)
            && !v.ListValue? && !v.MapValue?
  {
    if Utf8.Decode(raw).Some? { Utf8.EncodeAfterDecode(raw); }
  }

  /** The text matches the integer pattern, one newline at its end aside, and its value fits 64 bits. */
  predicate ReadsAsInteger(numbers: NumberFormat, text: string, n: int) {
    var digits := if text != "" && text[|text|-1] == '\n' then text[..|text|-1] else text;
    && Numerals.IntText(numbers.digits, digits)
    && n == Numerals.ParseInt(numbers.digits, digits)
    && -0x8000_0000_0000_0000 <= n <= 0x7FFF_FFFF_FFFF_FFFF
  }

  /** The text is no integer of any size, matches the float pattern, has a point or an exponent, and is finite. */
  predicate ReadsAsFloat(numbers: NumberFormat, text: string, f: Float) {
    var digits := if text != "" && text[|text|-1] == '\n' then text[..|text|-1] else text;
    && !Numerals.IntText(numbers.digits, digits)
    && numbers.accepts(text) && (exists c :: c in text && c in ".eE")
    && numbers.parse(text) == Some(f)
  }

  lemma ReadsWithoutNewline(numbers: NumberFormat, text: string)
    ensures forall n :: ReadsAsInteger(numbers, text, n) <==>
              Numerals.IntText(numbers.digits, Chomp(text)) && n == Numerals.ParseInt(numbers.digits, Chomp(text))
              && InInt64(n)
    ensures forall f :: ReadsAsFloat(numbers, text, f) <==>
              !Numerals.IntText(numbers.digits, Chomp(text)) && numbers.accepts(text)
              && ('.' in text || 'e' in text || 'E' in text) && numbers.parse(text) == Some(f)
  {
    assert (exists c :: c in text && c in ".eE") <==> ('.' in text || 'e' in text || 'E' in text) by {
      assert ".eE"[0] == '.' && ".eE"[1] == 'e' && ".eE"[2] == 'E';
    }
  }

  lemma TextMeaning(numbers: NumberFormat, text: string)
    ensures forall n :: CoerceText(numbers, text) == IntValue(n) <==> ReadsAsInteger(numbers, text, n)
    ensures forall f :: CoerceText(numbers, text) == FloatValue(f) <==> ReadsAsFloat(numbers, text, f)
    ensures CoerceText(numbers, text) == TextValue(text) || CoerceText(numbers, text).IntValue?
              || CoerceText(numbers, text).FloatValue?
  {
    ReadsWithoutNewline(numbers, text);
  }

  /** A scalar becomes an integer or a float exactly when its text reads as one; any other text stays that text, and
      bytes that are no text stay those bytes. */
  lemma ScalarMeaning(numbers: NumberFormat, raw: seq<Byte>)
    ensures Utf8.Decode(raw).None? ==> Coerce(numbers, raw) == BlobValue(raw)
    ensures Utf8.Decode(raw).Some? ==>
              var text := Utf8.Decode(raw).value;
              && (forall n :: Coerce(numbers, raw) == IntValue(n) <==> ReadsAsInteger(numbers, text, n))
              && (forall f :: Coerce(numbers, raw) == FloatValue(f) <==> ReadsAsFloat(numbers, text, f))
              && (Coerce(numbers, raw) == TextValue(text) <==>
                    (forall n :: !ReadsAsInteger(numbers, text, n)) && (forall f :: !ReadsAsFloat(numbers, text, f)))
  {
    if Utf8.Decode(raw).Some? {
      var text := Utf8.Decode(raw).value;
      TextMeaning(numbers, text);
      var result := Coerce(numbers, raw);
      assert result.IntValue? ==> ReadsAsInteger(numbers, text, result.i);
      assert result.FloatValue? ==> ReadsAsFloat(numbers, text, result.f);
    }
  }

  /** Two byte strings that do not read as numbers are coerced alike only if they are equal. */
  lemma OnlyNumbersCollapse(numbers: NumberFormat, a: seq<Byte>, b: seq<Byte>)
    requires forall raw :: raw in {a, b} && Utf8.Decode(raw).Some? ==>
               && (forall n :: !ReadsAsInteger(numbers, Utf8.Decode(raw).value, n))
               && (forall f :: !ReadsAsFloat(numbers, Utf8.Decode(raw).value, f))
    ensures Coerce(numbers, a) == Coerce(numbers, b) <==> a == b
  {
    ScalarMeaning(numbers, a);
    ScalarMeaning(numbers, b);
    KeptVerbatim(numbers, a);
    KeptVerbatim(numbers, b);
    assert a in {a, b} && b in {a, b};
  }

  // ----- TTLs -----

  const TTL_NEVER_EXPIRE := 0xFFFF_FFFF
  const MAX_REAL_TTL := 0xFFFF_FFFC

  datatype OverflowMode = Reject | Clamp | NeverExpire

  datatype TtlOutcome = Ttl(seconds: int) | TooLong

  /** A PTTL reply: -1 means no expiry and -2 a missing key. */
  function FromPttl(reply: int): Option<int> { if reply >= 0 then Some(reply) else None }

  /** Milliseconds rounded up to whole seconds, at least one. */
  function Seconds(ms: int): (s: int)
    ensures s >= 1 && s * 1000 >= ms
    ensures s == 1 || (s - 1) * 1000 < ms
  {
    Max(1, (ms + 999) / 1000)
  }

  predicate Overflows(maxTtl: int, ms: int) { maxTtl != 0 && Seconds(ms) > maxTtl }

  function ToTtl(mode: OverflowMode, maxTtl: int, ttlMs: Option<int>): TtlOutcome {
    match ttlMs
    case None => Ttl(TTL_NEVER_EXPIRE)
    case Some(ms) =>
      if Overflows(maxTtl, ms) then
        match mode
        case Reject => TooLong
        case NeverExpire => Ttl(TTL_NEVER_EXPIRE)
        case Clamp => Ttl(maxTtl)
      else if Seconds(ms) < MAX_REAL_TTL then Ttl(Seconds(ms)) else Ttl(MAX_REAL_TTL)
  }

  /** A limit is set, and the TTL is above it. */
  predicate AboveLimit(maxTtl: int, ms: int) { maxTtl != 0 && (maxTtl < 0 || ms > maxTtl * 1000) }

  /** What a Redis TTL becomes. No expiry is never-expire in every mode. Above the limit the mode decides: rejection,
      never-expire, or the limit itself. Otherwise it is the least number of seconds, at least one, that covers the
      TTL, up to the largest that is not reserved. */
  predicate TtlMeans(mode: OverflowMode, maxTtl: int, ttlMs: Option<int>, o: TtlOutcome) {
    match ttlMs
    case None => o == Ttl(0xFFFF_FFFF)
    case Some(ms) =>
      if !AboveLimit(maxTtl, ms) then
        && o.Ttl? && 1 <= o.seconds <= 0xFFFF_FFFC
        && (o.seconds == 1 || (o.seconds - 1) * 1000 < ms)
        && (ms <= o.seconds * 1000 || o.seconds == 0xFFFF_FFFC)
      else if mode.Reject? then o == TooLong
      else if mode.NeverExpire? then o == Ttl(0xFFFF_FFFF)
      else o == Ttl(maxTtl)
  }

  /** This determines the result, and a rejection occurs exactly in REJECT mode above a limit. */
  lemma TtlMeaning(mode: OverflowMode, maxTtl: int, ttlMs: Option<int>, o: TtlOutcome)
    ensures TtlMeans(mode, maxTtl, ttlMs, o) <==> o == ToTtl(mode, maxTtl, ttlMs)
    ensures ToTtl(mode, maxTtl, ttlMs) == TooLong <==>
              mode == Reject && ttlMs.Some? && AboveLimit(maxTtl, ttlMs.value)
  {
    if ttlMs.Some? { assert maxTtl != 0 ==> (Seconds(ttlMs.value) > maxTtl <==> AboveLimit(maxTtl, ttlMs.value)); }
  }

  /** A TTL that means what it says: never expire, or a positive number of seconds below the reserved values. */
  predicate SafeTtl(o: TtlOutcome) {
    o.TooLong? || o.seconds == TTL_NEVER_EXPIRE || 1 <= o.seconds <= MAX_REAL_TTL
  }

  /** No Redis TTL becomes a reserved value or the namespace default, exactly when the limit is not clamped to or lies
      in the safe range itself. */
  lemma TtlsAreSafe(mode: OverflowMode, maxTtl: int)
    ensures (forall ttl :: SafeTtl(ToTtl(mode, maxTtl, ttl)))
            <==> mode != Clamp || 0 <= maxTtl <= MAX_REAL_TTL || maxTtl == TTL_NEVER_EXPIRE
  {
    if mode == Clamp && !(0 <= maxTtl <= MAX_REAL_TTL || maxTtl == TTL_NEVER_EXPIRE) {
      var ms := if maxTtl < 0 then 0 else maxTtl * 1000 + 1;
      assert Seconds(ms) > maxTtl;
      assert !SafeTtl(ToTtl(mode, maxTtl, Some(ms)));
    }
  }

  /** An enormous TTL can be clamped to a value the server reads as something else: the two sentinels below
      never-expire. */
  lemma ClampReachesSentinels(maxTtl: int)
    requires maxTtl == 0xFFFF_FFFD || maxTtl == 0xFFFF_FFFE
    ensures ToTtl(Clamp, maxTtl, Some(maxTtl * 1000 + 1)) == Ttl(maxTtl) && !SafeTtl(Ttl(maxTtl))
  {
    assert Seconds(maxTtl * 1000 + 1) > maxTtl;
  }

  /** A longer Redis TTL never gives a shorter Aerospike TTL. */
  lemma TtlsAreMonotone(mode: OverflowMode, maxTtl: int, a: int, b: int)
    requires a <= b
    requires ToTtl(mode, maxTtl, Some(a)).Ttl? && ToTtl(mode, maxTtl, Some(b)).Ttl?
    ensures ToTtl(mode, maxTtl, Some(a)).seconds <= ToTtl(mode, maxTtl, Some(b)).seconds
  {
  }

  /** A record expires early only when its TTL was clamped, and otherwise less than a second late. */
  lemma TtlsAreNeverEarly(mode: OverflowMode, maxTtl: int, ms: int)
    requires !Overflows(maxTtl, ms) && Seconds(ms) <= MAX_REAL_TTL
    ensures ToTtl(mode, maxTtl, Some(ms)) == Ttl(Seconds(ms))
    ensures Seconds(ms) * 1000 >= ms && (ms >= 1 ==> Seconds(ms) * 1000 < ms + 1000)
  {
  }

  /** The shared policy object: `warned` is tested and set under its lock, `logged` counts the warnings emitted. */
  class TtlPolicy {
    const mode: OverflowMode
    const maxTtl: int
    var warned: bool
    var logged: nat

    constructor (mode: OverflowMode, maxTtl: int)
      ensures this.mode == mode && this.maxTtl == maxTtl && !warned && logged == 0
    {
      this.mode, this.maxTtl, this.warned, this.logged := mode, maxTtl, false, 0;
    }

    method WarnOnce()
      modifies this
      ensures warned && logged == old(logged) + (if old(warned) then 0 else 1)
    {
      if warned {
        return;
      }
      warned := true;
      logged := logged + 1;
    }

    method Convert(ttlMs: Option<int>) returns (o: TtlOutcome)
      modifies this
      ensures o == ToTtl(mode, maxTtl, ttlMs) && TtlMeans(mode, maxTtl, ttlMs, o)
      ensures warned == (old(warned) || OverflowsAt(maxTtl, ttlMs))
      ensures logged == old(logged) + (if warned && !old(warned) then 1 else 0)
    {
      TtlMeaning(mode, maxTtl, ttlMs, ToTtl(mode, maxTtl, ttlMs));
      if ttlMs.None? {
        return Ttl(TTL_NEVER_EXPIRE);
      }
      var seconds := Max(1, (ttlMs.value + 999) / 1000);
      if maxTtl != 0 && seconds > maxTtl {
        WarnOnce();
        match mode
        case Reject => o := TooLong;
        case NeverExpire => o := Ttl(TTL_NEVER_EXPIRE);
        case Clamp => o := Ttl(maxTtl);
      } else {
        o := Ttl(if MAX_REAL_TTL < seconds then MAX_REAL_TTL else seconds);
      }
    }
  }

  predicate OverflowsAt(maxTtl: int, ttlMs: Option<int>) { ttlMs.Some? && AboveLimit(maxTtl, ttlMs.value) }

  predicate OverflowsAny(maxTtl: int, calls: seq<Option<int>>) {
    exists i :: 0 <= i < |calls| && OverflowsAt(maxTtl, calls[i])
  }

  /** How far a conversion has got: it has read its TTL, or found it too long and is to warn, or returned. */
  datatype Progress = Entered | Warning | Returned(outcome: TtlOutcome)

  /** Concurrent conversions through one policy, in any interleaving: `schedule` names the conversion that takes the
      next step. Passing the policy's lock is one step; what comes before and after touches nothing shared. Each
      conversion that has returned gave the TTL it gives alone; if it was too long one warning has been logged, and one
      is never logged twice nor without cause. */
  method ConvertAll(policy: TtlPolicy, calls: seq<Option<int>>, schedule: seq<nat>) returns (progress: seq<Progress>)
    requires !policy.warned && policy.logged == 0
    modifies policy
    ensures |progress| == |calls| && forall i :: 0 <= i < |calls| && progress[i].Returned? ==>
              TtlMeans(policy.mode, policy.maxTtl, calls[i], progress[i].outcome)
    ensures policy.logged <= 1
    ensures policy.logged == 1 ==> OverflowsAny(policy.maxTtl, calls)
    ensures (forall i :: 0 <= i < |calls| ==> progress[i].Returned?) ==>
              policy.logged == if OverflowsAny(policy.maxTtl, calls) then 1 else 0
  {
    progress := seq(|calls|, i => Entered);
    for k := 0 to |schedule|
      invariant |progress| == |calls|
      invariant policy.logged == if policy.warned then 1 else 0
      invariant policy.warned ==> OverflowsAny(policy.maxTtl, calls)
      invariant forall i :: 0 <= i < |calls| ==>
                Stands(policy.mode, policy.maxTtl, policy.warned, calls[i], progress[i])
    {
      var i := schedule[k];
      if i < |calls| {
        match progress[i] {
          case Entered =>
            var next := if OverflowsAt(policy.maxTtl, calls[i]) then Warning
                        else Returned(ToTtl(policy.mode, policy.maxTtl, calls[i]));
            progress := progress[i := next];
          case Warning =>
            policy.WarnOnce();
            progress := progress[i := Returned(ToTtl(policy.mode, policy.maxTtl, calls[i]))];
          case Returned(_) =>
        }
      }
    }
    forall i | 0 <= i < |calls| && progress[i].Returned?
      ensures TtlMeans(policy.mode, policy.maxTtl, calls[i], progress[i].outcome)
    {
      TtlMeaning(policy.mode, policy.maxTtl, calls[i], progress[i].outcome);
    }
  }

  /** A conversion only warns if its TTL is too long, and has warned by the time it returns. */
  predicate Stands(mode: OverflowMode, maxTtl: int, warned: bool, ttlMs: Option<int>, p: Progress) {
    match p
    case Entered => true
    case Warning => OverflowsAt(maxTtl, ttlMs)
    case Returned(o) => o == ToTtl(mode, maxTtl, ttlMs) && (OverflowsAt(maxTtl, ttlMs) ==> warned)
  }
}
