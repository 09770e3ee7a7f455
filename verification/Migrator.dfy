/**
 The migrator's own code (redis_to_aerospike/migrator.py): preparing a record, writing it or a batch, the
 loop of one worker, and the end-to-end result for the configuration the command line builds.
 */
module Migrator {
  import opened Models
  import opened Sequences
  import opened Server
  import opened Sink
  import opened BatchWriter
  import opened BatchRefinement
  import opened Stats
  import opened Pipeline
  import opened Coercion
  import opened Converters
  import opened Routing
  import opened RedisSource
  import opened Independence
  import Utf8

  // ----- Preparing a record -----

  datatype Settings = Settings(router: Router, converter: Converter, sink: SinkConfig)

  function RedisType(v: RedisValue): string {
    match v
    case StringReply(_) => "string"
    case HashReply(_) => "hash"
    case ListReply(_) => "list"
    case SetReply(_) => "set"
    case ZSetReply(_) => "zset"
    case OtherReply(name) => name
  }

  /** The hash layout the route asks for, or else the configured one. */
  function LayoutOf(st: Settings, r: RedisRecord): HashStrategy {
    var asked := Resolve(st.router, r.key).hashStrategy;
    if asked.Some? then asked.value else st.converter.hashStrategy
  }

  /** The bin the route asks for, or else the configured one. */
  function HashBinOf(st: Settings, r: RedisRecord): string {
    var asked := Resolve(st.router, r.key).valueBin;
    if asked.Some? then asked.value else st.converter.valueBin
  }

  function ConvertedBy(st: Settings, r: RedisRecord): Conversion {
    if r.value.HashReply? then
      var layout := LayoutOf(st, r);
      ConvertRecord(st.converter, r, Some(layout), if layout == MapBin then Some(HashBinOf(st, r)) else None)
    else ConvertRecord(st.converter, r, None, None)
  }

  lemma ConvertedByKeepsKey(st: Settings, r: RedisRecord)
    ensures ConvertedBy(st, r).Converted? ==>
              ConvertedBy(st, r).record.key == r.key && ConvertedBy(st, r).record.setName == None
  {
  }

  /** Overriding the set and the key where the route changes them. */
  function Place(sink: SinkConfig, resolution: Resolution, key: UserKey, a: AerospikeRecord): AerospikeRecord {
    var placed := if resolution.setName != sink.setName then a.(setName := Some(resolution.setName)) else a;
    if resolution.key != key then placed.(key := resolution.key) else placed
  }

  /** `_prepare` without transforms. */
  function PrepareRecord(st: Settings, r: RedisRecord): Prepared {
    match ConvertedBy(st, r)
    case NoConverter => Unsupported(RedisType(r.value))
    case Raised(exception) => Failed("convert:" + exception)
    case Converted(a) => Ready(Place(st.sink, Resolve(st.router, r.key), r.key, a))
  }

  /** A prepared record is written under the key its route places it at: in the namespace of the sink, in the set of the
      first matching route unless that is unnamed, under the key its pattern leaves; without a route, whole in the
      default set. */
  lemma PreparedAsRouted(st: Settings, r: RedisRecord)
    requires st.router.defaultSet == st.sink.setName && PrepareRecord(st, r).Ready?
    ensures KeyOf(st.sink, PrepareRecord(st, r).record)
         == RecordKey(st.sink.namespace, Placement(st.router, r.key).0, Placement(st.router, r.key).1)
    ensures forall i :: TakenBy(st.router, r.key, i) ==>
              var route := st.router.routes[i];
              KeyOf(st.sink, PrepareRecord(st, r).record)
                == RecordKey(st.sink.namespace, if route.destination == "" then st.sink.setName else route.destination,
                             TextKey(StrippedKey(st.router, r.key.text, route.pattern)))
    ensures TakenByNone(st.router, r.key) ==>
              KeyOf(st.sink, PrepareRecord(st, r).record) == RecordKey(st.sink.namespace, st.sink.setName, r.key)
  {
    ConvertedByKeepsKey(st, r);
    PlacedAsRouted(st, r.key, ConvertedBy(st, r).record);
    ResolveMeaning(st.router, r.key);
  }

  /** The record holds what its value, the layout and the TTL policy ask for. */
  ghost predicate Holds(st: Settings, r: RedisRecord, a: AerospikeRecord, layout: HashStrategy, hashBin: string) {
    && BinsMean(st.converter, r.value, a, layout, hashBin)
    && a.ttl.Some? && TtlMeans(st.converter.mode, st.converter.maxTtl, r.ttlMs, Ttl(a.ttl.value))
  }

  /** A prepared record holds its value in the layout that its route asks for, or that the configuration gives where the
      route or its setting is missing. */
  lemma PreparedHolds(st: Settings, r: RedisRecord)
    requires PrepareRecord(st, r).Ready?
    ensures forall i :: TakenBy(st.router, r.key, i) ==>
              var route := st.router.routes[i];
              Holds(st, r, PrepareRecord(st, r).record,
                    if route.hashStrategy.Some? then route.hashStrategy.value else st.converter.hashStrategy,
                    if route.valueBin.Some? then route.valueBin.value else st.converter.valueBin)
    ensures TakenByNone(st.router, r.key) ==>
              Holds(st, r, PrepareRecord(st, r).record, st.converter.hashStrategy, st.converter.valueBin)
  {
    ResolveMeaning(st.router, r.key);
    PreparedInLayout(st, r);
  }

  lemma ConvertedInLayout(st: Settings, r: RedisRecord)
    ensures ConversionMeans(st.converter, r, LayoutOf(st, r), HashBinOf(st, r), ConvertedBy(st, r))
  {
    var cv, layout, hashBin := st.converter, LayoutOf(st, r), HashBinOf(st, r);
    if r.value.HashReply? {
      var asked := if layout == MapBin then Some(hashBin) else None;
      ConversionMeaning(cv, r, Some(layout), asked);
      LayoutIsForHashes(cv, r, layout, if asked.Some? then asked.value else cv.valueBin, layout, hashBin,
            ConvertedBy(st, r));
    } else {
      ConversionMeaning(cv, r, None, None);
      LayoutIsForHashes(cv, r, cv.hashStrategy, cv.valueBin, layout, hashBin, ConvertedBy(st, r));
    }
  }

  lemma PreparedInLayout(st: Settings, r: RedisRecord)
    requires PrepareRecord(st, r).Ready?
    ensures Holds(st, r, PrepareRecord(st, r).record, LayoutOf(st, r), HashBinOf(st, r))
  {
    ConvertedInLayout(st, r);
    var a := ConvertedBy(st, r).record;
    var placed := Place(st.sink, Resolve(st.router, r.key), r.key, a);
    assert placed.bins == a.bins && placed.uniqueBins == a.uniqueBins && placed.ttl == a.ttl;
    PlacingKeepsBins(st.converter, r.value, a, placed, LayoutOf(st, r), HashBinOf(st, r));
  }

  lemma PlacingKeepsBins(cv: Converter, value: RedisValue, a: AerospikeRecord, placed: AerospikeRecord,
          layout: HashStrategy, hashBin: string)
    requires BinsMean(cv, value, a, layout, hashBin) && placed.bins == a.bins && placed.uniqueBins == a.uniqueBins
    ensures BinsMean(cv, value, placed, layout, hashBin)
  {
  }

  lemma ConvertReason(exception: string)
    ensures "convert:" + exception == "convert:ValueError" <==> exception == "ValueError"
    ensures "convert:" + exception == "convert:TtlTooLongError" <==> exception == "TtlTooLongError"
  {
    assert ("convert:" + exception)[8..] == exception;
    assert "convert:ValueError"[8..] == "ValueError" && "convert:TtlTooLongError"[8..] == "TtlTooLongError";
  }

  /** The hash is to be spread over bins and has a field whose name is too long for one. */
  predicate HasBadName(st: Settings, r: RedisRecord) {
    r.value.HashReply? && LayoutOf(st, r).FieldBins? && SomeNameTooLong(r.value.fields)
  }

  predicate HasBadTtl(st: Settings, r: RedisRecord) {
    st.converter.mode.Reject? && r.ttlMs.Some? && AboveLimit(st.converter.maxTtl, r.ttlMs.value)
  }

  /** A record that is not prepared is skipped under its type's name if it has no converter, and otherwise fails for a
      field name or for its TTL, in this order. */
  lemma UnpreparedReasons(st: Settings, r: RedisRecord)
    ensures match PrepareRecord(st, r)
            case Unsupported(name) => r.value == OtherReply(name)
            case Failed(reason) =>
              && !r.value.OtherReply? && (HasBadName(st, r) || HasBadTtl(st, r))
              && reason == if HasBadName(st, r) then "convert:ValueError" else "convert:TtlTooLongError"
            case Ready(_) => !r.value.OtherReply? && !HasBadName(st, r) && !HasBadTtl(st, r)
  {
    ConvertedInLayout(st, r);
    match ConvertedBy(st, r)
    case Raised(exception) => ConvertReason(exception);
    case _ =>
  }

  lemma PlacedAsRouted(st: Settings, key: UserKey, a: AerospikeRecord)
    requires st.router.defaultSet == st.sink.setName && a.key == key && a.setName == None
    ensures KeyOf(st.sink, Place(st.sink, Resolve(st.router, key), key, a))
         == RecordKey(st.sink.namespace, Placement(st.router, key).0, Placement(st.router, key).1)
  {
  }

  // ----- The producer -----

  /** `_produce` and the end of `run`, one worker's queue put after the other: the records the source yields before it
      ends or raises, each counted as scanned, and then one stop marker for each worker, also when the source raised. */
  method Produce(c: Config, stats: MigrationStats, yielded: seq<RedisRecord>) returns (put: seq<Item>)
    modifies stats
    ensures |put| == |yielded| + WorkerCount(c)
    ensures forall i :: 0 <= i < |yielded| ==> put[i] == Record(yielded[i])
    ensures forall i :: |yielded| <= i < |put| ==> put[i].Stop?
    ensures stats.View() == old(stats.View()).(scanned := old(stats.scanned) + |yielded|)
  {
    put := [];
    for i := 0 to |yielded|
      invariant |put| == i && forall j :: 0 <= j < i ==> put[j] == Record(yielded[j])
      invariant stats.View() == old(stats.View()).(scanned := old(stats.scanned) + i)
    {
      stats.RecordScanned();
      put := put + [Record(yielded[i])];
    }
    for n := 0 to WorkerCount(c)
      invariant |put| == |yielded| + n
      invariant forall i :: 0 <= i < |yielded| ==> put[i] == Record(yielded[i])
      invariant forall i :: |yielded| <= i < |put| ==> put[i].Stop?
    {
      put := put + [Stop];
    }
  }

  // ----- One worker -----

  /** What `sink.write` does: return, or raise. */
  datatype SingleAnswer = Wrote | AlreadyExists | Threw(exception: string)

  /** What `sink.write_many` does: one outcome for each record, or raise. */
  datatype BatchAnswer = Outcomes(results: seq<Option<string>>) | BatchThrew(exception: string)

  function SingleVerdictOf(answer: SingleAnswer): Verdict {
    match answer
    case Wrote => WasMigrated
    case AlreadyExists => WasPresent
    case Threw(exception) => WasRefused("write:" + exception)
  }

  function BatchVerdicts(c: Config, n: nat, answer: BatchAnswer): (v: seq<Verdict>)
    requires answer.Outcomes? ==> |answer.results| == n
    ensures |v| == n
  {
    match answer
    case BatchThrew(exception) => seq(n, i => WasRefused("write:" + exception))
    case Outcomes(results) => seq(n, i requires 0 <= i < n => BatchVerdict(c.sink, results[i]))
  }

  function RegisterAll(t: Tally, verdicts: seq<Verdict>): Tally {
    if verdicts == [] then t else Register(RegisterAll(t, verdicts[..|verdicts|-1]), verdicts[|verdicts|-1])
  }

  lemma {:induction false} RegisterAllCounts(t: Tally, verdicts: seq<Verdict>)
    ensures Counted(RegisterAll(t, verdicts)) == Counted(t) + |verdicts|
  {
    if verdicts != [] { RegisterAllCounts(t, verdicts[..|verdicts|-1]); }
  }

  lemma RegisterOne(t: Tally, v: Verdict)
    ensures RegisterAll(t, [v]) == Register(t, v)
  {
    assert [v][..0] == [];
  }

  lemma RegisterStep(t: Tally, verdicts: seq<Verdict>, i: nat)
    requires i < |verdicts|
    ensures RegisterAll(t, verdicts[..i+1]) == Register(RegisterAll(t, verdicts[..i]), verdicts[i])
  {
    assert verdicts[..i+1][..i] == verdicts[..i] && verdicts[..i+1][i] == verdicts[i];
  }

  lemma {:induction false} RegisterAllConcat(t: Tally, a: seq<Verdict>, b: seq<Verdict>)
    ensures RegisterAll(RegisterAll(t, a), b) == RegisterAll(t, a + b)
  {
    if b == [] {
      assert a + b == a;
    } else {
      var n := |b| - 1;
      RegisterAllConcat(t, a, b[..n]);
      assert (a + b)[..|a + b|-1] == a + b[..n];
    }
  }

  lemma BumpsCommute(counts: map<string, nat>, x: string, y: string)
    ensures Bump(Bump(counts, x), y) == Bump(Bump(counts, y), x)
  {
  }

  lemma CountsCommute(t: Tally, v: Verdict, reason: string)
    ensures Register(Skipped(t, reason), v) == Skipped(Register(t, v), reason)
    ensures Register(Errored(t, reason), v) == Errored(Register(t, v), reason)
  {
    BumpsCommute(t.skippedByType, reason, "exists");
    if v.WasRefused? { BumpsCommute(t.errorsByType, reason, v.reason); }
  }

  /** It does not matter when a record that is not written is counted. */
  lemma {:induction false} AllCountsCommute(t: Tally, verdicts: seq<Verdict>, reason: string)
    ensures RegisterAll(Skipped(t, reason), verdicts) == Skipped(RegisterAll(t, verdicts), reason)
    ensures RegisterAll(Errored(t, reason), verdicts) == Errored(RegisterAll(t, verdicts), reason)
  {
    if verdicts != [] {
      var n := |verdicts| - 1;
      AllCountsCommute(t, verdicts[..n], reason);
      CountsCommute(RegisterAll(t, verdicts[..n]), verdicts[n], reason);
    }
  }

  function CountPrepared(t: Tally, prepared: Prepared): Tally {
    match prepared
    case Ready(_) => t
    case Unsupported(reason) => Skipped(t, reason)
    case Failed(reason) => Errored(t, reason)
  }

  /** The counts of the records that are not written. */
  function CountUnready(c: Config, t: Tally, records: seq<RedisRecord>): Tally {
    if records == [] then t
    else CountPrepared(CountUnready(c, t, records[..|records|-1]), c.prepare(records[|records|-1]))
  }

  lemma CountPreparedCommutes(t: Tally, prepared: Prepared, verdicts: seq<Verdict>)
    ensures RegisterAll(CountPrepared(t, prepared), verdicts) == CountPrepared(RegisterAll(t, verdicts), prepared)
  {
    if !prepared.Ready? { AllCountsCommute(t, verdicts, prepared.reason); }
  }

  lemma ReadyStep(c: Config, t: Tally, records: seq<RedisRecord>, i: nat)
    requires i < |records|
    ensures ReadyRecords(c, records[..i+1]) == if c.prepare(records[i]).Ready?
              then ReadyRecords(c, records[..i]) + [c.prepare(records[i]).record] else ReadyRecords(c, records[..i])
    ensures CountUnready(c, t, records[..i+1]) == CountPrepared(CountUnready(c, t, records[..i]), c.prepare(records[i]))
  {
    assert records[..i+1][..i] == records[..i] && records[..i+1][i] == records[i];
  }

  /** What the sink does, call by call: `single(n)` and `batch(n, size)` answer the n-th call of a worker, and no two
      answers are tied to each other. */
  datatype Answers = Answers(single: nat -> SingleAnswer, batch: (nat, nat) -> BatchAnswer)

  /** `write_many` answers with one outcome for each record, or raises. */
  ghost predicate Aligned(answers: Answers) {
    forall n, size :: answers.batch(n, size).Outcomes? ==> |answers.batch(n, size).results| == size
  }

  /** The verdicts of the n-th call. */
  ghost function CallVerdicts(c: Config, answers: Answers, n: nat, size: nat): seq<Verdict>
    requires Aligned(answers)
  {
    if BatchSize(c) == 1 then [SingleVerdictOf(answers.single(n))] else BatchVerdicts(c, size, answers.batch(n, size))
  }

  ghost function VerdictsOf(c: Config, answers: Answers, calls: seq<seq<AerospikeRecord>>): seq<Verdict>
    requires Aligned(answers)
  {
    if calls == [] then []
    else
      var n := |calls| - 1;
      VerdictsOf(c, answers, calls[..n]) + CallVerdicts(c, answers, n, |calls[n]|)
  }

  lemma VerdictsAppend(c: Config, answers: Answers, calls: seq<seq<AerospikeRecord>>, buffer: seq<AerospikeRecord>,
          t: Tally)
    requires Aligned(answers)
    ensures RegisterAll(t, VerdictsOf(c, answers, calls + [buffer]))
         == RegisterAll(RegisterAll(t, VerdictsOf(c, answers, calls)), CallVerdicts(c, answers, |calls|, |buffer|))
  {
    assert (calls + [buffer])[..|calls|] == calls;
    RegisterAllConcat(t, VerdictsOf(c, answers, calls), CallVerdicts(c, answers, |calls|, |buffer|));
  }

  /** The loop has dealt with `records`: some of the ready ones are in `calls`, all full, the rest in the buffer, and
      `now` counts the others and the answers to the calls. */
  ghost predicate Looped(c: Config, answers: Answers, start: Tally, records: seq<RedisRecord>,
          calls: seq<seq<AerospikeRecord>>, buffer: seq<AerospikeRecord>, now: Tally)
    requires Aligned(answers)
  {
    && Flatten(calls) + buffer == ReadyRecords(c, records)
    && |buffer| < BatchSize(c) && AllFull(calls, BatchSize(c))
    && now == RegisterAll(CountUnready(c, start, records), VerdictsOf(c, answers, calls))
    && Counted(now) + |buffer| == Counted(start) + |records|
  }

  lemma LoopedSkipping(c: Config, answers: Answers, start: Tally, records: seq<RedisRecord>, i: nat,
          calls: seq<seq<AerospikeRecord>>, buffer: seq<AerospikeRecord>, now: Tally)
    requires Aligned(answers) && i < |records| && !c.prepare(records[i]).Ready?
    requires Looped(c, answers, start, records[..i], calls, buffer, now)
    ensures Looped(c, answers, start, records[..i+1], calls, buffer, CountPrepared(now, c.prepare(records[i])))
  {
    ReadyStep(c, start, records, i);
    CountPreparedCommutes(CountUnready(c, start, records[..i]), c.prepare(records[i]), VerdictsOf(c, answers, calls));
  }

  lemma LoopedKeeping(c: Config, answers: Answers, start: Tally, records: seq<RedisRecord>, i: nat,
          calls: seq<seq<AerospikeRecord>>, buffer: seq<AerospikeRecord>, now: Tally)
    requires Aligned(answers) && i < |records| && c.prepare(records[i]).Ready? && |buffer| + 1 < BatchSize(c)
    requires Looped(c, answers, start, records[..i], calls, buffer, now)
    ensures Looped(c, answers, start, records[..i+1], calls, buffer + [c.prepare(records[i]).record], now)
  {
    var r := c.prepare(records[i]).record;
    ReadyStep(c, start, records, i);
    assert Flatten(calls) + (buffer + [r]) == Flatten(calls) + buffer + [r];
  }

  lemma OneMoreCall(calls: seq<seq<AerospikeRecord>>, buffer: seq<AerospikeRecord>, r: AerospikeRecord)
    ensures Flatten(calls + [buffer + [r]]) + [] == (Flatten(calls) + buffer) + [r]
  {
    FlattenAppend(calls, buffer + [r]);
    assert Flatten(calls) + (buffer + [r]) == (Flatten(calls) + buffer) + [r];
  }

  lemma LoopedCalling(c: Config, answers: Answers, start: Tally, records: seq<RedisRecord>, i: nat,
          calls: seq<seq<AerospikeRecord>>, buffer: seq<AerospikeRecord>, now: Tally, later: Tally)
    requires Aligned(answers) && i < |records| && c.prepare(records[i]).Ready? && |buffer| + 1 == BatchSize(c)
    requires Looped(c, answers, start, records[..i], calls, buffer, now)
    requires later == RegisterAll(now, CallVerdicts(c, answers, |calls|, |buffer| + 1))
    requires Counted(later) == Counted(now) + |buffer| + 1
    ensures Looped(c, answers, start, records[..i+1], calls + [buffer + [c.prepare(records[i]).record]], [], later)
  {
    var r := c.prepare(records[i]).record;
    ReadyStep(c, start, records, i);
    OneMoreCall(calls, buffer, r);
    VerdictsAppend(c, answers, calls, buffer + [r], CountUnready(c, start, records[..i+1]));
  }

  lemma LoopedDelivering(c: Config, answers: Answers, start: Tally, records: seq<RedisRecord>, i: nat,
          calls: seq<seq<AerospikeRecord>>, buffer: seq<AerospikeRecord>, now: Tally,
          made: seq<seq<AerospikeRecord>>, left: seq<AerospikeRecord>, later: Tally)
    requires Aligned(answers) && i < |records| && c.prepare(records[i]).Ready?
    requires Looped(c, answers, start, records[..i], calls, buffer, now)
    requires var full := buffer + [c.prepare(records[i]).record];
             if |full| == BatchSize(c) then left == [] && made == [full] else left == full && made == []
    requires later == if made == [] then now
               else RegisterAll(now, CallVerdicts(c, answers, |calls|, |buffer| + 1))
    requires Counted(later) + |left| == Counted(now) + |buffer| + 1
    ensures Looped(c, answers, start, records[..i+1], calls + made, left, later)
  {
    if made == [] {
      LoopedKeeping(c, answers, start, records, i, calls, buffer, now);
      assert calls + made == calls;
    } else {
      LoopedCalling(c, answers, start, records, i, calls, buffer, now, later);
    }
  }

  /** The last flush, of what is left in the buffer. */
  lemma LoopedLast(c: Config, answers: Answers, start: Tally, records: seq<RedisRecord>,
          calls: seq<seq<AerospikeRecord>>, buffer: seq<AerospikeRecord>, now: Tally)
    requires Aligned(answers) && Looped(c, answers, start, records, calls, buffer, now)
    ensures var made, verdicts := if buffer == [] then [] else [buffer], CallVerdicts(c, answers, |calls|, |buffer|);
            && Flatten(calls + made) == ReadyRecords(c, records) && Chunked(calls + made, BatchSize(c))
            && RegisterAll(CountUnready(c, start, records), VerdictsOf(c, answers, calls + made))
                 == if buffer == [] then now else RegisterAll(now, verdicts)
  {
    if buffer == [] {
      assert calls + [] == calls;
      assert Flatten(calls) + buffer == Flatten(calls);
    } else {
      FlattenAppend(calls, buffer);
      assert (calls + [buffer])[..|calls|] == calls;
      VerdictsAppend(c, answers, calls, buffer, CountUnready(c, start, records));
    }
  }

  class WorkerThread {
    const c: Config
    const stats: MigrationStats

    constructor (c: Config, stats: MigrationStats)
      ensures this.c == c && this.stats == stats
    {
      this.c, this.stats := c, stats;
    }

    /** `_prepare`: a record that is not written is counted here. */
    method Prepare(r: RedisRecord) returns (prepared: Option<AerospikeRecord>)
      modifies stats
      ensures match c.prepare(r)
              case Ready(a) => prepared == Some(a) && stats.View() == old(stats.View())
              case Unsupported(reason) => prepared == None && stats.View() == Skipped(old(stats.View()), reason)
              case Failed(reason) => prepared == None && stats.View() == Errored(old(stats.View()), reason)
    {
      match c.prepare(r) {
        case Ready(a) =>
          prepared := Some(a);
        case Unsupported(reason) =>
          stats.RecordSkipped(reason);
          prepared := None;
        case Failed(reason) =>
          stats.RecordError(reason);
          prepared := None;
      }
    }

    /** `_write_one`, given what the sink did. */
    method WriteSingle(answer: SingleAnswer)
      modifies stats
      ensures stats.View() == Register(old(stats.View()), SingleVerdictOf(answer))
    {
      match answer {
        case AlreadyExists => stats.RecordSkipped("exists");
        case Threw(exception) => stats.RecordError("write:" + exception);
        case Wrote => stats.RecordMigrated();
      }
    }

    /** `_flush`, given what the sink did: one count for each buffered record. */
    method Flush(buffer: seq<AerospikeRecord>, answer: BatchAnswer)
      requires answer.Outcomes? ==> |answer.results| == |buffer|
      modifies stats
      ensures stats.View() == RegisterAll(old(stats.View()), BatchVerdicts(c, |buffer|, answer))
      ensures Counted(stats.View()) == old(Counted(stats.View())) + |buffer|
    {
      var verdicts := BatchVerdicts(c, |buffer|, answer);
      for i := 0 to |buffer|
        invariant stats.View() == RegisterAll(old(stats.View()), verdicts[..i])
      {
        RegisterStep(old(stats.View()), verdicts, i);
        if answer.BatchThrew? {
          stats.RecordError("write:" + answer.exception);
        } else {
          CountOutcome(answer.results[i]);
        }
      }
      assert verdicts[..|buffer|] == verdicts;
      RegisterAllCounts(old(stats.View()), verdicts);
    }

    /** The branches of `_flush` on one outcome. */
    method CountOutcome(outcome: Option<string>)
      modifies stats
      ensures stats.View() == Register(old(stats.View()), BatchVerdict(c.sink, outcome))
    {
      if outcome.None? {
        stats.RecordMigrated();
      } else if c.sink.policy == CreateOnly && outcome.value == RECORD_EXISTS {
        stats.RecordSkipped("exists");
      } else {
        stats.RecordError("write:" + outcome.value);
      }
    }

    /** One prepared record: written at once in single mode, otherwise buffered, and the buffer flushed when full.
        `n` counts the calls made before. */
    method Deliver(buffer: seq<AerospikeRecord>, r: AerospikeRecord, answers: Answers, n: nat)
      returns (left: seq<AerospikeRecord>, made: seq<seq<AerospikeRecord>>)
      requires |buffer| < BatchSize(c)
      requires Aligned(answers)
      modifies stats
      ensures if |buffer| + 1 == BatchSize(c) then left == [] && made == [buffer + [r]]
                else left == buffer + [r] && made == []
      ensures stats.View() == if made == [] then old(stats.View())
                else RegisterAll(old(stats.View()), CallVerdicts(c, answers, n, |buffer| + 1))
      ensures Counted(stats.View()) + |left| == old(Counted(stats.View())) + |buffer| + 1
    {
      left, made := buffer, [];
      if c.batchSize <= 1 {
        RegisterOne(stats.View(), SingleVerdictOf(answers.single(n)));
        WriteSingle(answers.single(n));
        assert buffer + [r] == [r];
        made := [[r]];
      } else {
        left := left + [r];
        if |left| >= c.batchSize {
          Flush(left, answers.batch(n, |left|));
          made := [left];
          left := [];
        }
      }
    }

    /** `_worker_loop` over the items this worker dequeues, which are `records` and then its stop marker, for any
        answers of the sink. The calls it makes are the prepared records in order, cut into full batches and at most
        one last partial one. Its counts are those of the records it does not write and those of the answers to its
        calls, and every record is counted exactly once. */
    method WorkerLoop(items: seq<Item>, ghost records: seq<RedisRecord>, answers: Answers)
      returns (calls: seq<seq<AerospikeRecord>>)
      requires |records| < |items| && items[|records|].Stop?
      requires forall i :: 0 <= i < |records| ==> items[i] == Record(records[i])
      requires Aligned(answers)
      modifies stats
      ensures Flatten(calls) == ReadyRecords(c, records)
      ensures Chunked(calls, BatchSize(c))
      ensures stats.View()
           == RegisterAll(CountUnready(c, old(stats.View()), records), VerdictsOf(c, answers, calls))
      ensures Counted(stats.View()) == old(Counted(stats.View())) + |records|
    {
      var buffer: seq<AerospikeRecord> := [];
      calls := [];
      var next := 0;
      ghost var start := stats.View();
      while !items[next].Stop?
        invariant 0 <= next <= |records|
        invariant Looped(c, answers, start, records[..next], calls, buffer, stats.View())
        decreases |records| - next
      {
        ghost var before := stats.View();
        var prepared := Prepare(items[next].record);
        if prepared.Some? {
          var left, made := Deliver(buffer, prepared.value, answers, |calls|);
          LoopedDelivering(c, answers, start, records, next, calls, buffer, before, made, left, stats.View());
          buffer, calls := left, calls + made;
        } else {
          LoopedSkipping(c, answers, start, records, next, calls, buffer, before);
        }
        next := next + 1;
      }
      assert records[..|records|] == records;
      LoopedLast(c, answers, start, records, calls, buffer, stats.View());
      if buffer != [] {
        Flush(buffer, answers.batch(|calls|, |buffer|));
        calls := calls + [buffer];
      } else {
        assert calls + [] == calls;
      }
    }
  }

  // ----- The steps of the pipeline and the code agree -----

  /** The replies of a batch, by key. */
  ghost function RepliesByKey(sent: seq<BatchWriter.Command>, replies: seq<Reply>): map<RecordKey, Reply>
    requires |replies| == |sent|
  {
    if sent == [] then map[]
    else RepliesByKey(sent[1..], replies[1..])[sent[0].key := replies[0]]
  }

  lemma {:induction false} ReplyOfKey(sent: seq<BatchWriter.Command>, replies: seq<Reply>, j: nat)
    requires |replies| == |sent| && j < |sent|
    requires forall a, b :: 0 <= a < b < |sent| ==> sent[a].key != sent[b].key
    ensures sent[j].key in RepliesByKey(sent, replies) && RepliesByKey(sent, replies)[sent[j].key] == replies[j]
  {
    if j > 0 {
      assert forall a :: 0 <= a < |sent[1..]| ==> sent[1..][a] == sent[a+1];
      ReplyOfKey(sent[1..], replies[1..], j - 1);
    }
  }

  /** In batch mode the outcomes that `WriteMany` promises for a flushed buffer give exactly the verdicts by which the
      pipeline counts it. */
  lemma OutcomesGiveVerdicts(c: Config, buffer: seq<AerospikeRecord>, sent: seq<BatchWriter.Command>,
          replies: seq<Reply>, results: seq<Option<string>>)
    requires BatchSize(c) > 1 && |replies| == |sent| && |results| == |buffer|
    requires forall a, b :: 0 <= a < b < |sent| ==> sent[a].key != sent[b].key
    requires forall i :: 0 <= i < |buffer| && TooLarge(c.sink, buffer[i]) ==> results[i] == Some(TOO_LARGE)
    requires forall i :: 0 <= i < |buffer| && !TooLarge(c.sink, buffer[i]) ==>
               Fanned(c.sink, sent, replies, KeyOf(c.sink, buffer[i]), results[i])
    ensures BatchVerdicts(c, |buffer|, Outcomes(results)) == Verdicts(c, buffer, RepliesByKey(sent, replies))
  {
    var byKey := RepliesByKey(sent, replies);
    forall i | 0 <= i < |buffer| ensures BatchVerdict(c.sink, results[i]) == VerdictFor(c, buffer[i], byKey) {
      if !TooLarge(c.sink, buffer[i]) {
        assert Fanned(c.sink, sent, replies, KeyOf(c.sink, buffer[i]), results[i]);
        var j :| 0 <= j < |sent| && sent[j].key == KeyOf(c.sink, buffer[i]) &&
              results[i] == BatchReason(c.sink, replies[j]);
        ReplyOfKey(sent, replies, j);
      }
    }
  }

  /** What `AerospikeSink.write` does for the server's reply: an oversized record raises before the server is asked,
      any failure raises the client's exception, and under CREATE_ONLY one that means the record exists is renamed. */
  function WriteAnswer(cfg: SinkConfig, r: AerospikeRecord, reply: Reply): SingleAnswer {
    if TooLarge(cfg, r) then Threw(TOO_LARGE)
    else if reply.code == 0 then Wrote
    else if cfg.policy == CreateOnly && MeansExists(cfg, reply) then AlreadyExists
    else Threw(reply.exception)
  }

  /** In single mode what `write` does for the reply to its one command gives exactly the verdict by which the pipeline
      counts the record; an oversized record sends no command. */
  lemma AnswerGivesVerdict(c: Config, r: AerospikeRecord, reply: Reply, replies: map<RecordKey, Reply>)
    requires BatchSize(c) == 1 && replies.Keys == Winners(c.sink, [r]).Keys
    requires forall k :: k in replies ==> replies[k] == reply
    ensures [SingleVerdictOf(WriteAnswer(c.sink, r, reply))] == Verdicts(c, [r], replies)
    ensures TooLarge(c.sink, r) <==> replies == map[]
  {
    assert [r][..0] == [] && Winners(c.sink, [r][..0]) == map[];
    assert Winners(c.sink, [r]).Keys == if TooLarge(c.sink, r) then {} else {KeyOf(c.sink, r)};
  }

  /** A call that raised gives every buffered record the same verdict, in the pipeline as in the code. */
  lemma RaisesGiveVerdicts(c: Config, s: State, w: nat, exception: string)
    requires CanHappen(c, s, Raise(w, exception))
    ensures var n, next := |s.workers[w].buffer|, Next(c, s, Raise(w, exception)).workers[w];
            && next.phase == Reporting(BatchVerdicts(c, n, BatchThrew(exception))) && next.buffer == []
            && forall v :: v in next.phase.verdicts ==> v == SingleVerdictOf(Threw(exception))
  {
  }

  // ----- End to end -----

  /** The pipeline the command line builds: no transforms, the built-in converters. */
  function Migration(st: Settings, workers: int, batchSize: int, queueSize: int, writeRate: real,
          startTime: real): Config {
    Config(workers, batchSize, queueSize, writeRate, startTime, st.sink, r => PrepareRecord(st, r))
  }

  /** No two different keys of the scan that are present are placed under one record key. */
  ghost predicate NoCollisions(router: Router, redis: Redis, keys: seq<RawKey>) {
    forall k1, k2 | k1 in keys && k2 in keys && Present(redis, k1) && Present(redis, k2) ::
      Placement(router, Utf8.DecodeOrKeep(k1)) == Placement(router, Utf8.DecodeOrKeep(k2)) ==> k1 == k2
  }

  /** With distinct destinations only the pairs that the empty-body fallback creates collide. */
  lemma DistinctDestinationsSeparate(router: Router, redis: Redis, keys: seq<RawKey>)
    requires DistinctDestinations(router)
    ensures NoCollisions(router, redis, keys) <==>
              forall k1, k2 :: k1 in keys && k2 in keys && Present(redis, k1) && Present(redis, k2) ==>
                !FallbackPair(router, Utf8.DecodeOrKeep(k1), Utf8.DecodeOrKeep(k2))
  {
    forall k1, k2 | k1 != k2
      ensures Placement(router, Utf8.DecodeOrKeep(k1)) == Placement(router, Utf8.DecodeOrKeep(k2)) <==>
                FallbackPair(router, Utf8.DecodeOrKeep(k1), Utf8.DecodeOrKeep(k2))
                || FallbackPair(router, Utf8.DecodeOrKeep(k2), Utf8.DecodeOrKeep(k1))
    {
      ByteKeyCollisions(router, k1, k2);
    }
    assert forall k :: !FallbackPair(router, k, k);
  }

  /** Without collisions the scanned records are alike wherever they share a record key. */
  lemma ScanIsAlike(st: Settings, c: Config, redis: Redis, keys: seq<RawKey>)
    requires c.sink == st.sink && forall r :: c.prepare(r) == PrepareRecord(st, r)
    requires st.router.defaultSet == st.sink.setName && NoCollisions(st.router, redis, keys)
    ensures Alike(c, RecordsOf(redis, keys))
  {
    var source := RecordsOf(redis, keys);
    RecordsMembers(redis, keys);
    forall r1, r2 | r1 in source && r2 in source && KeysOf(c, r1) != {} && KeysOf(c, r1) == KeysOf(c, r2)
      ensures Fresh(c.prepare(r1).record) == Fresh(c.prepare(r2).record)
    {
      var k1 :| k1 in keys && Present(redis, k1) && r1 == RecordOf(redis, k1);
      var k2 :| k2 in keys && Present(redis, k2) && r2 == RecordOf(redis, k2);
      assert KeyOf(c.sink, c.prepare(r1).record) in KeysOf(c, r2);
      PreparedAsRouted(st, r1);
      PreparedAsRouted(st, r2);
    }
  }

  /** What the key's record holds in the end: what it held if CREATE_ONLY found it, and otherwise what one write of the
      prepared record leaves there, with the TTL that the key's own Redis TTL means. */
  ghost predicate Migrated(st: Settings, r: RedisRecord, before: Store, after: Store) {
    PrepareRecord(st, r).Ready? &&
    var a := PrepareRecord(st, r).record;
    var k := KeyOf(st.sink, a);
    && k in after
    && (st.sink.policy == CreateOnly && k in before ==> after[k] == before[k])
    && (!(st.sink.policy == CreateOnly && k in before) ==>
          && k in WriteOne(st.sink, before, a) && after[k] == WriteOne(st.sink, before, a)[k]
          && TtlMeans(st.converter.mode, st.converter.maxTtl, r.ttlMs, Ttl(after[k].ttl)))
  }

  lemma MergedIsMigrated(st: Settings, r: RedisRecord, before: Store, after: Store)
    requires PrepareRecord(st, r).Ready? && !TooLarge(st.sink, PrepareRecord(st, r).record)
    requires var a := PrepareRecord(st, r).record;
             Lookup(after, KeyOf(st.sink, a)) == Some(Merge(st.sink.policy, Lookup(before, KeyOf(st.sink, a)), a))
    ensures Migrated(st, r, before, after)
  {
    var a := PrepareRecord(st, r).record;
    WritesMerge(st.sink, before, a);
    WriteLeavesRecord(st.sink, before, a, WriteOne(st.sink, before, a));
    PreparedInLayout(st, r);
  }

  /** Whatever the tuning and the schedule, a complete clean migration leaves the store of one sequential loop, every
      key that is present, converts and fits is found migrated under its own record key, and no other record changes. */
  lemma EndToEnd(st: Settings, c: Config, redis: Redis, keys: seq<RawKey>, store: Store, events: seq<Event>, t: State)
    requires c == Migration(st, c.workers, c.batchSize, c.queueSize, c.writeRate, c.startTime)
    requires st.router.defaultSet == st.sink.setName && NoCollisions(st.router, redis, keys)
    requires CleanRun(c, Init(c, RecordsOf(redis, keys), store), events, t) && t.producer.Done?
    ensures t.store == Sequential(c, RecordsOf(redis, keys), store)
    ensures forall k :: k in keys && Present(redis, k) && KeysOf(c, RecordOf(redis, k)) != {} ==>
              Migrated(st, RecordOf(redis, k), store, t.store)
    ensures forall key :: (forall k :: k in keys && Present(redis, k) ==> key !in KeysOf(c, RecordOf(redis, k))) ==>
              Lookup(t.store, key) == Lookup(store, key)
  {
    var source := RecordsOf(redis, keys);
    ScanIsAlike(st, c, redis, keys);
    ScheduleIndependence(c, source, store, events, t);
    AlikeCollapses(c, source, store);
    RecordsMembers(redis, keys);
    forall k | k in keys && Present(redis, k) && KeysOf(c, RecordOf(redis, k)) != {}
      ensures Migrated(st, RecordOf(redis, k), store, t.store)
    {
      var a := PrepareRecord(st, RecordOf(redis, k)).record;
      AlikeFits(c, source, RecordOf(redis, k));
      BatchStoreAt(c.sink, store, ReadyRecords(c, source), KeyOf(st.sink, a));
      MergedIsMigrated(st, RecordOf(redis, k), store, t.store);
    }
    forall key | forall k :: k in keys && Present(redis, k) ==> key !in KeysOf(c, RecordOf(redis, k))
      ensures Lookup(t.store, key) == Lookup(store, key)
    {
      BatchStoreAt(c.sink, store, ReadyRecords(c, source), key);
      NobodyWrites(c, redis, keys, key);
    }
  }

  lemma NobodyWrites(c: Config, redis: Redis, keys: seq<RawKey>, key: RecordKey)
    requires forall k :: k in keys && Present(redis, k) ==> key !in KeysOf(c, RecordOf(redis, k))
    ensures key !in Winners(c.sink, ReadyRecords(c, RecordsOf(redis, keys)))
  {
    var ready := ReadyRecords(c, RecordsOf(redis, keys));
    if key in Winners(c.sink, ready) {
      WinnerFits(c.sink, ready, key);
      ReadyMembers(c, RecordsOf(redis, keys));
      RecordsMembers(redis, keys);
    }
  }
}
