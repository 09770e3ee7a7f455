/**
 The write side: the size guard, the operation lists, single writes and the batch writer
 (redis_to_aerospike/aerospike_sink.py).
 */
module Sink {
  import opened Models
  import opened Sequences
  import opened Server
  import Utf8

  // ----- Keys and sizes -----

  function KeyOf(cfg: SinkConfig, r: AerospikeRecord): RecordKey {
    var setName := match r.setName
                   case Some(name) => if name == "" then cfg.setName else name
                   case None => cfg.setName;
    RecordKey(cfg.namespace, setName, r.key)
  }

  function EstimateSize(v: Value): nat {
    match v
    case IntValue(_) => 8
    case FloatValue(_) => 8
    case TextValue(s) => |Utf8.Encode(s)|
    case BlobValue(raw) => |raw|
    case ListValue(items) => SumSizes(items)
    case MapValue(entries) => SumEntrySizes(entries)
  }

  function SumSizes(items: seq<Value>): nat {
    if items == [] then 0 else EstimateSize(items[0]) + SumSizes(items[1..])
  }

  function SumEntrySizes(entries: seq<Entry>): nat {
    if entries == [] then 0
    else EntrySize(entries[0]) + SumEntrySizes(entries[1..])
  }

  function EntrySize(e: Entry): nat { EstimateSize(e.key) + EstimateSize(e.value) }

  function SumBinSizes(bins: seq<Bin>): nat {
    if bins == [] then 0
    else |Utf8.Encode(bins[0].name)| + EstimateSize(bins[0].value) + SumBinSizes(bins[1..])
  }

  predicate TooLarge(cfg: SinkConfig, r: AerospikeRecord) {
    SumBinSizes(r.bins) > cfg.maxRecordSize
  }

  /** The bytes that count for a value: eight for a number, the text in UTF-8, raw bytes as they are, and the items or
      keys and values of a collection one after the other. */
  function Payload(v: Value): seq<Byte> {
    match v
    case IntValue(_) => EIGHT_BYTES
    case FloatValue(_) => EIGHT_BYTES
    case TextValue(s) => Utf8.Encode(s)
    case BlobValue(raw) => raw
    case ListValue(items) => ItemsPayload(items)
    case MapValue(entries) => EntriesPayload(entries)
  }

  const EIGHT_BYTES: seq<Byte> := [0, 0, 0, 0, 0, 0, 0, 0]

  function ItemsPayload(items: seq<Value>): seq<Byte> {
    if items == [] then [] else Payload(items[0]) + ItemsPayload(items[1..])
  }

  function EntriesPayload(entries: seq<Entry>): seq<Byte> {
    if entries == [] then [] else EntryPayload(entries[0]) + EntriesPayload(entries[1..])
  }

  function EntryPayload(e: Entry): seq<Byte> { Payload(e.key) + Payload(e.value) }

  lemma {:induction false} SizeIsPayload(v: Value)
    ensures EstimateSize(v) == |Payload(v)|
  {
    match v
    case ListValue(items) => SizesArePayload(items);
    case MapValue(entries) => EntrySizesArePayload(entries);
    case _ =>
  }

  lemma {:induction false} SizesArePayload(items: seq<Value>)
    ensures SumSizes(items) == |ItemsPayload(items)|
  {
    if items != [] {
      SizeIsPayload(items[0]);
      SizesArePayload(items[1..]);
    }
  }

  lemma {:induction false} EntrySizesArePayload(entries: seq<Entry>)
    ensures SumEntrySizes(entries) == |EntriesPayload(entries)|
  {
    if entries != [] {
      EntrySizeIsPayload(entries[0]);
      EntrySizesArePayload(entries[1..]);
    }
  }

  lemma {:induction false} EntrySizeIsPayload(e: Entry)
    ensures EntrySize(e) == |EntryPayload(e)|
  {
    SizeIsPayload(e.key);
    SizeIsPayload(e.value);
  }

  /** The payload of a record: the names and the values of its bins. */
  function RecordPayload(bins: seq<Bin>): seq<Byte> {
    if bins == [] then []
    else Utf8.Encode(bins[0].name) + Payload(bins[0].value) + RecordPayload(bins[1..])
  }

  lemma {:induction false} BinSizesArePayload(bins: seq<Bin>)
    ensures SumBinSizes(bins) == |RecordPayload(bins)|
  {
    if bins != [] {
      SizeIsPayload(bins[0].value);
      BinSizesArePayload(bins[1..]);
    }
  }

  /** A record is too large exactly when its payload is longer than the limit. */
  lemma TooLargeMeaning(cfg: SinkConfig, r: AerospikeRecord)
    ensures TooLarge(cfg, r) <==> |RecordPayload(r.bins)| > cfg.maxRecordSize
  {
    BinSizesArePayload(r.bins);
  }

  // ----- What a record means once stored -----

  /** Plain maps go out as key-ordered maps; only the outermost map is wrapped. */
  function EncodeForWrite(v: Value): Stored {
    if v.MapValue? then KeyOrdered(AsMap(v.entries)) else Plain(v)
  }

  /** A dict built from the entries one after the other. */
  function AsMap(entries: seq<Entry>): map<Value, Value> {
    if entries == [] then map[]
    else AsMap(entries[..|entries|-1])[entries[|entries|-1].key := entries[|entries|-1].value]
  }

  lemma {:induction false} AsMapHolds(entries: seq<Entry>, k: Value, v: Value)
    requires DistinctEntryKeys(entries)
    ensures k in AsMap(entries) && AsMap(entries)[k] == v <==> Entry(k, v) in entries
  {
    if entries != [] {
      var n := |entries| - 1;
      var front, last := entries[..n], entries[n];
      AsMapHolds(front, k, v);
      assert last == Entry(last.key, last.value);
      if Entry(k, v) in front {
        var i :| 0 <= i < n && entries[i] == Entry(k, v);
        assert last.key != k;
      }
    }
  }

  /** Dicts with the same entries are stored alike, whatever order they were filled in, and no others are. */
  lemma MapsStoreAlike(a: seq<Entry>, b: seq<Entry>)
    requires DistinctEntryKeys(a) && DistinctEntryKeys(b)
    ensures EncodeForWrite(MapValue(a)) == EncodeForWrite(MapValue(b)) <==> forall e :: e in a <==> e in b
  {
    var x, y := AsMap(a), AsMap(b);
    forall e ensures e in a <==> e.key in x && x[e.key] == e.value { AsMapHolds(a, e.key, e.value); }
    forall e ensures e in b <==> e.key in y && y[e.key] == e.value { AsMapHolds(b, e.key, e.value); }
    if forall e :: e in a <==> e in b {
      assert forall k :: k in x ==> Entry(k, x[k]) in b;
      assert forall k :: k in y ==> Entry(k, y[k]) in a;
      assert x == y;
    }
  }

  function ItemsOf(v: Value): seq<Value> {
    if v.ListValue? then v.items else []
  }

  /** The value a bin holds after the write: a unique-list bin is its members without repeats. */
  function Settled(b: Bin, unique: set<string>): Stored {
    if b.name in unique then Plain(ListValue(AppendAbsent([], ItemsOf(b.value)))) else EncodeForWrite(b.value)
  }

  function SettledBins(bins: seq<Bin>, unique: set<string>): map<string, Stored> {
    if bins == [] then map[]
    else map[bins[0].name := Settled(bins[0], unique)] + SettledBins(bins[1..], unique)
  }

  function Content(r: AerospikeRecord): map<string, Stored> { SettledBins(r.bins, r.uniqueBins) }

  function BinNames(r: AerospikeRecord): set<string> { set b | b in r.bins :: b.name }

  function WriteTtl(r: AerospikeRecord): int { if r.ttl.Some? then r.ttl.value else 0 }

  /** The record left under a key by writing `r` over what was found there. */
  function Merge(policy: ExistsPolicy, found: Option<StoredRecord>, r: AerospikeRecord): StoredRecord {
    if Admits(policy, found) then StoredRecord(StartingBins(policy, found) + Content(r), WriteTtl(r))
    else found.value
  }

  // ----- Operation lists -----

  function BinOps(b: Bin, unique: set<string>): seq<Op> {
    if b.name in unique
    then [WriteBin(b.name, Plain(ListValue([]))), AppendUnique(b.name, ItemsOf(b.value))]
    else [WriteBin(b.name, EncodeForWrite(b.value))]
  }

  function Ops(bins: seq<Bin>, unique: set<string>): seq<Op> {
    if bins == [] then [] else BinOps(bins[0], unique) + Ops(bins[1..], unique)
  }

  predicate HasUniqueBins(r: AerospikeRecord) {
    exists b :: b in r.bins && b.name in r.uniqueBins
  }

  lemma {:induction false} OpsConcat(a: seq<Bin>, b: seq<Bin>, unique: set<string>)
    ensures Ops(a + b, unique) == Ops(a, unique) + Ops(b, unique)
  {
    if a == [] {
      assert a + b == b;
    } else {
      assert (a + b)[1..] == a[1..] + b;
      OpsConcat(a[1..], b, unique);
    }
  }

  /** The operation list of a record, built bin by bin. */
  method BuildOps(r: AerospikeRecord) returns (ops: seq<Op>)
    ensures forall bins :: RunOps(bins, ops) == bins + Content(r)
    ensures ops == Ops(r.bins, r.uniqueBins)
  {
    ops := [];
    for i := 0 to |r.bins|
      invariant ops == Ops(r.bins[..i], r.uniqueBins)
    {
      OpsConcat(r.bins[..i], [r.bins[i]], r.uniqueBins);
      assert r.bins[..i] + [r.bins[i]] == r.bins[..i+1];
      if r.bins[i].name in r.uniqueBins {
        ops := ops + [WriteBin(r.bins[i].name, Plain(ListValue([])))];
        ops := ops + [AppendUnique(r.bins[i].name, ItemsOf(r.bins[i].value))];
      } else {
        ops := ops + [WriteBin(r.bins[i].name, EncodeForWrite(r.bins[i].value))];
      }
    }
    assert r.bins[..|r.bins|] == r.bins;
    forall bins ensures RunOps(bins, ops) == bins + Content(r) {
      OpsMeaning(bins, r.bins, r.uniqueBins);
    }
  }

  lemma BinOpsMeaning(start: map<string, Stored>, b: Bin, unique: set<string>)
    ensures RunOps(start, BinOps(b, unique)) == start[b.name := Settled(b, unique)]
  {
    if b.name in unique {
      var reset := start[b.name := Plain(ListValue([]))];
      var ops := BinOps(b, unique);
      assert ops[1..] == [AppendUnique(b.name, ItemsOf(b.value))];
      assert RunOps(start, ops) == RunOps(reset, ops[1..]);
      assert ops[1..][1..] == [];
      assert RunOps(reset, ops[1..]) == RunOp(reset, ops[1]);
    } else {
      var ops := BinOps(b, unique);
      assert ops[1..] == [];
      assert RunOps(start, ops) == RunOps(RunOp(start, ops[0]), []);
    }
  }

  lemma WriteThenRest(start: map<string, Stored>, name: string, v: Stored, rest: map<string, Stored>)
    ensures start[name := v] + rest == start + (map[name := v] + rest)
  {
  }

  /** On any prior bins, the operation list leaves exactly the record's content on top of them. */
  lemma {:induction false} OpsMeaning(start: map<string, Stored>, bins: seq<Bin>, unique: set<string>)
    ensures RunOps(start, Ops(bins, unique)) == start + SettledBins(bins, unique)
    decreases bins
  {
    if bins != [] {
      var v, rest := Settled(bins[0], unique), Ops(bins[1..], unique);
      RunOpsConcat(start, BinOps(bins[0], unique), rest);
      BinOpsMeaning(start, bins[0], unique);
      OpsMeaning(start[bins[0].name := v], bins[1..], unique);
      WriteThenRest(start, bins[0].name, v, SettledBins(bins[1..], unique));
    }
  }

  /** Running the list a second time changes nothing. */
  lemma OpsIdempotent(start: map<string, Stored>, r: AerospikeRecord)
    ensures var ops := Ops(r.bins, r.uniqueBins);
            RunOps(RunOps(start, ops), ops) == RunOps(start, ops)
  {
    OpsMeaning(start, r.bins, r.uniqueBins);
    OpsMeaning(start + Content(r), r.bins, r.uniqueBins);
  }

  lemma {:induction false} SettledNames(bins: seq<Bin>, unique: set<string>)
    ensures SettledBins(bins, unique).Keys == set b | b in bins :: b.name
  {
    if bins != [] {
      SettledNames(bins[1..], unique);
      assert forall b :: b in bins <==> b == bins[0] || b in bins[1..];
    }
  }

  lemma ContentNames(r: AerospikeRecord)
    ensures Content(r).Keys == BinNames(r)
  {
    SettledNames(r.bins, r.uniqueBins);
  }

  /** A bin whose name is used once holds, after the write, exactly the members it was given and
      no repeats when it is a unique-list bin, and its own value otherwise. */
  lemma {:induction false} SettledAt(bins: seq<Bin>, unique: set<string>, i: nat)
    requires i < |bins|
    requires forall j :: i < j < |bins| ==> bins[j].name != bins[i].name
    ensures bins[i].name in SettledBins(bins, unique)
    ensures var v := SettledBins(bins, unique)[bins[i].name];
            if bins[i].name in unique
            then v.Plain? && v.value.ListValue? && Distinct(v.value.items)
                 && forall x :: x in v.value.items <==> x in ItemsOf(bins[i].value)
            else v == EncodeForWrite(bins[i].value)
  {
    SettledNames(bins[1..], unique);
    if i == 0 {
      AppendAbsentMembers([], ItemsOf(bins[0].value));
      forall b | b in bins[1..] ensures b.name != bins[0].name {
        var j :| 0 <= j < |bins[1..]| && bins[1..][j] == b;
        assert bins[j+1] == b;
      }
    } else {
      forall j | i - 1 < j < |bins[1..]| ensures bins[1..][j].name != bins[1..][i-1].name {
        assert bins[1..][j] == bins[j+1];
      }
      SettledAt(bins[1..], unique, i - 1);
    }
  }

  // ----- Single writes -----

  function EncodedBins(bins: seq<Bin>): map<string, Stored> {
    if bins == [] then map[] else map[bins[0].name := EncodeForWrite(bins[0].value)] + EncodedBins(bins[1..])
  }

  /** `AerospikeSink.write`: an oversized record is refused before the server sees it; otherwise
      `put` when no bin is a unique list, `operate` when one is. */
  function WriteOne(cfg: SinkConfig, store: Store, r: AerospikeRecord): Store {
    if TooLarge(cfg, r) then store
    else if HasUniqueBins(r)
    then Operate(store, cfg.policy, KeyOf(cfg, r), Ops(r.bins, r.uniqueBins), WriteTtl(r))
    else Put(store, cfg.policy, KeyOf(cfg, r), EncodedBins(r.bins), WriteTtl(r))
  }

  /** One sub-command of the batch: always an operation list. */
  function WriteInBatch(cfg: SinkConfig, store: Store, key: RecordKey, r: AerospikeRecord): Store {
    Operate(store, cfg.policy, key, Ops(r.bins, r.uniqueBins), WriteTtl(r))
  }

  lemma {:induction false} PlainContent(bins: seq<Bin>, unique: set<string>)
    requires forall b :: b in bins ==> b.name !in unique
    ensures EncodedBins(bins) == SettledBins(bins, unique)
  {
    if bins != [] {
      PlainContent(bins[1..], unique);
    }
  }

  /** `put`, `operate` and a batch sub-command agree: each leaves the merged record. */
  lemma WritesMerge(cfg: SinkConfig, store: Store, r: AerospikeRecord)
    ensures WriteInBatch(cfg, store, KeyOf(cfg, r), r)
         == store[KeyOf(cfg, r) := Merge(cfg.policy, Lookup(store, KeyOf(cfg, r)), r)]
    ensures !TooLarge(cfg, r) ==> WriteOne(cfg, store, r) == WriteInBatch(cfg, store, KeyOf(cfg, r), r)
  {
    var found := Lookup(store, KeyOf(cfg, r));
    OpsMeaning(StartingBins(cfg.policy, found), r.bins, r.uniqueBins);
    if !HasUniqueBins(r) {
      PlainContent(r.bins, r.uniqueBins);
    }
  }

  /** Whether the policy lets the write change what is stored. */
  predicate Written(cfg: SinkConfig, store: Store, key: RecordKey) {
    cfg.policy == CreateOnly ==> key !in store
  }

  /** What a small record's write leaves, single or in a batch. CREATE_ONLY keeps a record it finds. Otherwise the TTL
      is the record's own, or the namespace default if it has none; the bins are the record's and, under UPDATE, those
      found that the record does not name. No other key is touched. */
  lemma WriteLeavesRecord(cfg: SinkConfig, store: Store, r: AerospikeRecord, after: Store)
    requires !TooLarge(cfg, r)
    requires after == WriteOne(cfg, store, r) || after == WriteInBatch(cfg, store, KeyOf(cfg, r), r)
    ensures var k := KeyOf(cfg, r);
            && after.Keys == store.Keys + {k}
            && (forall other :: other in store && other != k ==> after[other] == store[other])
            && (!Written(cfg, store, k) ==> after[k] == store[k])
            && (Written(cfg, store, k) ==>
                  && (forall t :: r.ttl == Some(t) ==> after[k].ttl == t)
                  && (r.ttl == None ==> after[k].ttl == 0)
                  && (forall name :: name in after[k].bins <==>
                        (exists b :: b in r.bins && b.name == name)
                        || (cfg.policy == Update && k in store && name in store[k].bins))
                  && (forall name :: name in after[k].bins && (forall b :: b in r.bins ==> b.name != name) ==>
                        k in store && name in store[k].bins && after[k].bins[name] == store[k].bins[name]))
  {
    WritesMerge(cfg, store, r);
    ContentNames(r);
  }

  /** And each bin the record names last holds its value: a unique list its members once each, a map its entries, any
      other value itself. */
  lemma WriteLeavesValue(cfg: SinkConfig, store: Store, r: AerospikeRecord, after: Store, i: nat)
    requires !TooLarge(cfg, r) && Written(cfg, store, KeyOf(cfg, r))
    requires after == WriteOne(cfg, store, r) || after == WriteInBatch(cfg, store, KeyOf(cfg, r), r)
    requires i < |r.bins| && forall j :: i < j < |r.bins| ==> r.bins[j].name != r.bins[i].name
    ensures KeyOf(cfg, r) in after && r.bins[i].name in after[KeyOf(cfg, r)].bins
    ensures var v, stored := r.bins[i].value, after[KeyOf(cfg, r)].bins[r.bins[i].name];
            if r.bins[i].name in r.uniqueBins then
              v.ListValue? ==>
                && stored.Plain? && stored.value.ListValue? && Distinct(stored.value.items)
                && forall x :: x in stored.value.items <==> x in v.items
            else if v.MapValue? then
              DistinctEntryKeys(v.entries) ==>
                stored.KeyOrdered? && forall key, x ::
                  (key in stored.entries && stored.entries[key] == x) <==> Entry(key, x) in v.entries
            else stored == Plain(v)
  {
    WritesMerge(cfg, store, r);
    SettledAt(r.bins, r.uniqueBins, i);
    if r.bins[i].value.MapValue? && DistinctEntryKeys(r.bins[i].value.entries) {
      forall key, x ensures (key in AsMap(r.bins[i].value.entries) && AsMap(r.bins[i].value.entries)[key] == x)
                              <==> Entry(key, x) in r.bins[i].value.entries
      {
        AsMapHolds(r.bins[i].value.entries, key, x);
      }
    }
  }

  /** Under every policy, writing the same record again changes nothing. */
  lemma MergeIdempotent(policy: ExistsPolicy, found: Option<StoredRecord>, r: AerospikeRecord)
    ensures Merge(policy, Some(Merge(policy, found, r)), r) == Merge(policy, found, r)
  {
    var start := StartingBins(policy, found);
    assert start + Content(r) + Content(r) == start + Content(r);
  }
}
