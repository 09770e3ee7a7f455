/**
 When the batch writer leaves the same store as writing the records one by one: always under
 REPLACE, and under UPDATE and CREATE_ONLY exactly under a condition on the records alone.
 */
module BatchRefinement {
  import opened Models
  import opened Server
  import opened Sink
  import opened BatchWriter
  import Utf8

  /** The simple writer: one `write` after the other, ignoring size rejections. */
  function WriteAll(cfg: SinkConfig, store: Store, records: seq<AerospikeRecord>): Store {
    if records == [] then store
    else WriteOne(cfg, WriteAll(cfg, store, records[..|records|-1]), records[|records|-1])
  }

  /** The server executing the commands of one batch, all of them answered OK. */
  function RunCommands(cfg: SinkConfig, store: Store, sent: seq<Command>): Store {
    if sent == [] then store
    else WriteInBatch(cfg, RunCommands(cfg, store, sent[..|sent|-1]), sent[|sent|-1].key, sent[|sent|-1].record)
  }

  /** The store the batch leaves: each winner merged over what its key held before. */
  function BatchStore(cfg: SinkConfig, store: Store, records: seq<AerospikeRecord>): Store {
    var winners := Winners(cfg, records);
    map k | k in store.Keys + winners.Keys ::
      if k in winners then Merge(cfg.policy, Lookup(store, k), winners[k]) else store[k]
  }

  lemma {:induction false} RunCommandsAt(cfg: SinkConfig, store: Store, sent: seq<Command>, k: RecordKey)
    requires forall i, j :: 0 <= i < j < |sent| ==> sent[i].key != sent[j].key
    requires forall c :: c in sent ==> KeyOf(cfg, c.record) == c.key
    ensures (forall c :: c in sent ==> c.key != k) ==> Lookup(RunCommands(cfg, store, sent), k) == Lookup(store, k)
    ensures forall c :: c in sent && c.key == k ==>
              Lookup(RunCommands(cfg, store, sent), k) == Some(Merge(cfg.policy, Lookup(store, k), c.record))
  {
    if sent != [] {
      var n := |sent| - 1;
      RunCommandsAt(cfg, store, sent[..n], k);
      WritesMerge(cfg, RunCommands(cfg, store, sent[..n]), sent[n].record);
      forall c | c in sent[..n] && c.key == k ensures sent[n].key != k {
        var j :| 0 <= j < n && sent[j] == c;
      }
      assert forall c :: c in sent <==> c in sent[..n] || c == sent[n];
    }
  }

  /** Executing the planned commands, in whatever order they were sent, leaves the batch store. */
  lemma PlanLeavesBatchStore(cfg: SinkConfig, store: Store, records: seq<AerospikeRecord>, sent: seq<Command>)
    requires Plan(cfg, records, sent)
    ensures RunCommands(cfg, store, sent) == BatchStore(cfg, store, records)
  {
    var ran, expected, winners := RunCommands(cfg, store, sent), BatchStore(cfg, store, records), Winners(cfg, records);
    WinnersAreLast(cfg, records);
    forall c | c in sent ensures c.key in winners && winners[c.key] == c.record && KeyOf(cfg, c.record) == c.key {
      assert c.key in (set d | d in sent :: d.key);
      var slot :| LastSlot(cfg, records, c.key, slot) && c.record == records[slot];
      var other :| LastSlot(cfg, records, c.key, other) && winners[c.key] == records[other];
    }
    forall k ensures Lookup(ran, k) == Lookup(expected, k) {
      RunCommandsAt(cfg, store, sent, k);
      if k in winners {
        assert k in (set c | c in sent :: c.key);
        var c :| c in sent && c.key == k;
        assert Lookup(expected, k) == Some(Merge(cfg.policy, Lookup(store, k), c.record));
      } else {
        assert forall c :: c in sent ==> c.key != k;
      }
    }
    SameLookups(ran, expected);
  }

  lemma SameLookups(a: Store, b: Store)
    requires forall k :: Lookup(a, k) == Lookup(b, k)
    ensures a == b
  {
    forall k ensures k in a <==> k in b { assert Lookup(a, k) == Lookup(b, k); }
    forall k | k in a ensures a[k] == b[k] { assert Lookup(a, k) == Lookup(b, k); }
  }

  // ----- The one-by-one writer, key by key -----

  /** All the bins the small records of each key carry, later ones over earlier ones. */
  function Piles(cfg: SinkConfig, records: seq<AerospikeRecord>): map<RecordKey, map<string, Stored>> {
    if records == [] then map[]
    else
      var front, last := Piles(cfg, records[..|records|-1]), records[|records|-1];
      var k := KeyOf(cfg, last);
      if TooLarge(cfg, last) then front
      else front[k := (if k in front then front[k] else map[]) + Content(last)]
  }

  /** The first small record of each key. */
  function Firsts(cfg: SinkConfig, records: seq<AerospikeRecord>): map<RecordKey, AerospikeRecord> {
    if records == [] then map[]
    else
      var front, last := Firsts(cfg, records[..|records|-1]), records[|records|-1];
      if TooLarge(cfg, last) || KeyOf(cfg, last) in front then front else front[KeyOf(cfg, last) := last]
  }

  /** What one-by-one writing leaves under a key, for each policy, given the key's winner, pile and first record. */
  function Accumulated(policy: ExistsPolicy, found: Option<StoredRecord>, winner: AerospikeRecord,
          pile: map<string, Stored>, first: AerospikeRecord): StoredRecord {
    match policy
    case Replace => Fresh(winner)
    case Update => StoredRecord(StartingBins(Update, found) + pile, WriteTtl(winner))
    case CreateOnly => if found.Some? then found.value else Fresh(first)
  }

  function Expected(cfg: SinkConfig, found: Option<StoredRecord>, records: seq<AerospikeRecord>,
          k: RecordKey): Option<StoredRecord>
    requires k in Winners(cfg, records) ==> k in Piles(cfg, records) && k in Firsts(cfg, records)
  {
    if k !in Winners(cfg, records) then found
    else Some(Accumulated(cfg.policy, found, Winners(cfg, records)[k], Piles(cfg, records)[k], Firsts(cfg, records)[k]))
  }

  /** A record as it is stored under a key that held nothing. */
  function Fresh(r: AerospikeRecord): StoredRecord { StoredRecord(Content(r), WriteTtl(r)) }

  lemma {:induction false} SameKeys(cfg: SinkConfig, records: seq<AerospikeRecord>)
    ensures Winners(cfg, records).Keys == Piles(cfg, records).Keys == Firsts(cfg, records).Keys
  {
    if records != [] {
      SameKeys(cfg, records[..|records|-1]);
    }
  }

  lemma MergeFirst(policy: ExistsPolicy, found: Option<StoredRecord>, r: AerospikeRecord)
    ensures Merge(policy, found, r) == Accumulated(policy, found, r, map[] + Content(r), r)
  {
    assert map[] + Content(r) == Content(r);
  }

  lemma MergeNext(policy: ExistsPolicy, found: Option<StoredRecord>, winner: AerospikeRecord,
          pile: map<string, Stored>, first: AerospikeRecord, r: AerospikeRecord)
    ensures Merge(policy, Some(Accumulated(policy, found, winner, pile, first)), r)
         == Accumulated(policy, found, r, pile + Content(r), first)
  {
    assert map[] + Content(r) == Content(r);
    assert (StartingBins(Update, found) + pile) + Content(r) == StartingBins(Update, found) + (pile + Content(r));
  }

  lemma {:induction false} WriteAllAt(cfg: SinkConfig, store: Store, records: seq<AerospikeRecord>, k: RecordKey)
    ensures Winners(cfg, records).Keys == Piles(cfg, records).Keys == Firsts(cfg, records).Keys
    ensures Lookup(WriteAll(cfg, store, records), k) == Expected(cfg, Lookup(store, k), records, k)
  {
    SameKeys(cfg, records);
    if records != [] {
      var n := |records| - 1;
      var front, last := records[..n], records[n];
      WriteAllAt(cfg, store, front, k);
      WritesMerge(cfg, WriteAll(cfg, store, front), last);
      if !TooLarge(cfg, last) && KeyOf(cfg, last) == k {
        if k in Winners(cfg, front) {
          MergeNext(cfg.policy, Lookup(store, k), Winners(cfg, front)[k], Piles(cfg, front)[k], Firsts(cfg, front)[k],
                last);
        } else {
          MergeFirst(cfg.policy, Lookup(store, k), last);
        }
      }
    }
  }

  lemma {:induction false} PileNames(cfg: SinkConfig, records: seq<AerospikeRecord>, k: RecordKey, name: string)
    requires k in Piles(cfg, records)
    ensures name in Piles(cfg, records)[k] <==>
              exists i :: 0 <= i < |records| && !TooLarge(cfg, records[i]) && KeyOf(cfg, records[i]) == k &&
                    name in BinNames(records[i])
  {
    var n := |records| - 1;
    var front, last := records[..n], records[n];
    ContentNames(last);
    if k in Piles(cfg, front) {
      PileNames(cfg, front, k, name);
      if i :| 0 <= i < |front| && !TooLarge(cfg, front[i]) && KeyOf(cfg, front[i]) == k && name in BinNames(front[i]) {
        assert records[i] == front[i];
      }
    } else {
      SameKeys(cfg, front);
      WinnersAreLast(cfg, front);
    }
    if i :| 0 <= i < |records| && !TooLarge(cfg, records[i]) && KeyOf(cfg, records[i]) == k &&
          name in BinNames(records[i]) {
      if i < n {
        assert front[i] == records[i];
      }
    }
  }

  lemma {:induction false} PileEndsWithWinner(cfg: SinkConfig, records: seq<AerospikeRecord>, k: RecordKey)
    requires k in Winners(cfg, records)
    ensures k in Piles(cfg, records)
    ensures Piles(cfg, records)[k] == Piles(cfg, records)[k] + Content(Winners(cfg, records)[k])
  {
    SameKeys(cfg, records);
    var front, last := records[..|records|-1], records[|records|-1];
    if TooLarge(cfg, last) || KeyOf(cfg, last) != k {
      PileEndsWithWinner(cfg, front, k);
    }
  }

  // ----- The exact condition -----

  /** The last small occurrence of every key carries every bin name of the earlier ones. */
  ghost predicate LastCoversEarlier(cfg: SinkConfig, records: seq<AerospikeRecord>) {
    forall i, slot :: 0 <= i < |records| && !TooLarge(cfg, records[i]) &&
          LastSlot(cfg, records, KeyOf(cfg, records[i]), slot)
      ==> BinNames(records[i]) <= BinNames(records[slot])
  }

  /** `slot` is the first record with this key that is small enough to be sent. */
  ghost predicate FirstSlot(cfg: SinkConfig, records: seq<AerospikeRecord>, key: RecordKey, slot: int) {
    && 0 <= slot < |records|
    && !TooLarge(cfg, records[slot])
    && KeyOf(cfg, records[slot]) == key
    && forall j :: 0 <= j < slot && !TooLarge(cfg, records[j]) ==> KeyOf(cfg, records[j]) != key
  }

  lemma {:induction false} FirstIsFirst(cfg: SinkConfig, records: seq<AerospikeRecord>, k: RecordKey)
          returns (slot: nat)
    requires k in Firsts(cfg, records)
    ensures FirstSlot(cfg, records, k, slot) && Firsts(cfg, records)[k] == records[slot]
  {
    var n := |records| - 1;
    var front := records[..n];
    if k in Firsts(cfg, front) {
      slot := FirstIsFirst(cfg, front, k);
      assert forall j :: 0 <= j < n ==> records[j] == front[j];
    } else {
      NoneSmall(cfg, front, k);
      assert forall j :: 0 <= j < n ==> records[j] == front[j];
      slot := n;
    }
  }

  lemma NoneSmall(cfg: SinkConfig, records: seq<AerospikeRecord>, k: RecordKey)
    requires k !in Firsts(cfg, records)
    ensures forall j :: 0 <= j < |records| && !TooLarge(cfg, records[j]) ==> KeyOf(cfg, records[j]) != k
  {
    SameKeys(cfg, records);
    WinnersAreLast(cfg, records);
  }

  /** The first and the last small occurrence of every key store the same fresh record. */
  ghost predicate FirstStoresAsLast(cfg: SinkConfig, records: seq<AerospikeRecord>) {
    forall k, first, last :: FirstSlot(cfg, records, k, first) && LastSlot(cfg, records, k, last)
      ==> Fresh(records[first]) == Fresh(records[last])
  }

  ghost predicate Collapsible(cfg: SinkConfig, records: seq<AerospikeRecord>) {
    match cfg.policy
    case Replace => true
    case Update => LastCoversEarlier(cfg, records)
    case CreateOnly => FirstStoresAsLast(cfg, records)
  }

  lemma CoveredPile(cfg: SinkConfig, records: seq<AerospikeRecord>, k: RecordKey)
    requires LastCoversEarlier(cfg, records) && k in Winners(cfg, records)
    ensures k in Piles(cfg, records) && Piles(cfg, records)[k] == Content(Winners(cfg, records)[k])
  {
    PileEndsWithWinner(cfg, records, k);
    WinnersAreLast(cfg, records);
    var winner := Winners(cfg, records)[k];
    var slot :| LastSlot(cfg, records, k, slot) && winner == records[slot];
    ContentNames(winner);
    forall name | name in Piles(cfg, records)[k] ensures name in Content(winner) {
      PileNames(cfg, records, k, name);
    }
  }

  /** The batch and the one-by-one writer agree under a key of the batch: the test per policy. */
  ghost predicate AgreesAt(cfg: SinkConfig, records: seq<AerospikeRecord>, k: RecordKey)
    requires k in Winners(cfg, records) && k in Piles(cfg, records) && k in Firsts(cfg, records)
  {
    match cfg.policy
    case Replace => true
    case Update => Piles(cfg, records)[k] == Content(Winners(cfg, records)[k])
    case CreateOnly => Fresh(Firsts(cfg, records)[k]) == Fresh(Winners(cfg, records)[k])
  }

  lemma BatchStoreAt(cfg: SinkConfig, store: Store, records: seq<AerospikeRecord>, k: RecordKey)
    ensures Lookup(BatchStore(cfg, store, records), k)
         == if k in Winners(cfg, records) then Some(Merge(cfg.policy, Lookup(store, k), Winners(cfg, records)[k]))
               else Lookup(store, k)
  {
  }

  lemma AgreementAt(cfg: SinkConfig, found: Option<StoredRecord>, records: seq<AerospikeRecord>, k: RecordKey)
    requires k in Winners(cfg, records) && k in Piles(cfg, records) && k in Firsts(cfg, records)
    ensures AgreesAt(cfg, records, k) ==>
              Some(Merge(cfg.policy, found, Winners(cfg, records)[k])) == Expected(cfg, found, records, k)
    ensures Some(Merge(cfg.policy, None, Winners(cfg, records)[k])) == Expected(cfg, None, records, k) ==>
              AgreesAt(cfg, records, k)
  {
    var winner, pile := Winners(cfg, records)[k], Piles(cfg, records)[k];
    assert map[] + Content(winner) == Content(winner) && map[] + pile == pile;
  }

  lemma CollapsibleAt(cfg: SinkConfig, records: seq<AerospikeRecord>, k: RecordKey)
    requires Collapsible(cfg, records) && k in Winners(cfg, records)
    ensures k in Piles(cfg, records) && k in Firsts(cfg, records) && AgreesAt(cfg, records, k)
  {
    SameKeys(cfg, records);
    if cfg.policy == Update {
      CoveredPile(cfg, records, k);
    }
    var first := FirstIsFirst(cfg, records, k);
    var last := WinnerIsLast(cfg, records, k);
  }

  lemma CollapsibleSuffices(cfg: SinkConfig, store: Store, records: seq<AerospikeRecord>)
    requires Collapsible(cfg, records)
    ensures BatchStore(cfg, store, records) == WriteAll(cfg, store, records)
  {
    forall k ensures Lookup(BatchStore(cfg, store, records), k) == Lookup(WriteAll(cfg, store, records), k) {
      WriteAllAt(cfg, store, records, k);
      BatchStoreAt(cfg, store, records, k);
      if k in Winners(cfg, records) {
        CollapsibleAt(cfg, records, k);
        AgreementAt(cfg, Lookup(store, k), records, k);
      }
    }
    SameLookups(BatchStore(cfg, store, records), WriteAll(cfg, store, records));
  }

  lemma PilesCoverBins(cfg: SinkConfig, records: seq<AerospikeRecord>)
    requires forall k :: k in Winners(cfg, records) ==>
              k in Piles(cfg, records) && Piles(cfg, records)[k] == Content(Winners(cfg, records)[k])
    ensures LastCoversEarlier(cfg, records)
  {
    WinnersAreLast(cfg, records);
    forall i, slot | 0 <= i < |records| && !TooLarge(cfg, records[i]) &&
          LastSlot(cfg, records, KeyOf(cfg, records[i]), slot)
      ensures BinNames(records[i]) <= BinNames(records[slot])
    {
      var k := KeyOf(cfg, records[i]);
      var last :| LastSlot(cfg, records, k, last) && Winners(cfg, records)[k] == records[last];
      assert last == slot;
      ContentNames(records[last]);
      forall name | name in BinNames(records[i]) ensures name in BinNames(records[last]) {
        PileNames(cfg, records, k, name);
      }
    }
  }

  lemma FirstsStoreAsLasts(cfg: SinkConfig, records: seq<AerospikeRecord>)
    requires Firsts(cfg, records).Keys == Winners(cfg, records).Keys
    requires forall k :: k in Winners(cfg, records) ==>
              Fresh(Firsts(cfg, records)[k]) == Fresh(Winners(cfg, records)[k])
    ensures FirstStoresAsLast(cfg, records)
  {
    forall k, first, last | FirstSlot(cfg, records, k, first) && LastSlot(cfg, records, k, last)
      ensures Fresh(records[first]) == Fresh(records[last])
    {
      SmallRecordsWin(cfg, records, last);
      var i := FirstIsFirst(cfg, records, k);
      var j := WinnerIsLast(cfg, records, k);
      assert i == first && j == last;
    }
  }

  lemma EmptyStoreDecides(cfg: SinkConfig, records: seq<AerospikeRecord>)
    requires BatchStore(cfg, map[], records) == WriteAll(cfg, map[], records)
    ensures Collapsible(cfg, records)
  {
    SameKeys(cfg, records);
    forall k | k in Winners(cfg, records) ensures AgreesAt(cfg, records, k) {
      WriteAllAt(cfg, map[], records, k);
      BatchStoreAt(cfg, map[], records, k);
      AgreementAt(cfg, None, records, k);
    }
    if cfg.policy == Update {
      forall k | k in Winners(cfg, records) ensures Piles(cfg, records)[k] == Content(Winners(cfg, records)[k]) {
        assert AgreesAt(cfg, records, k);
      }
      PilesCoverBins(cfg, records);
    } else if cfg.policy == CreateOnly {
      forall k | k in Winners(cfg, records) ensures Fresh(Firsts(cfg, records)[k]) == Fresh(Winners(cfg, records)[k]) {
        assert AgreesAt(cfg, records, k);
      }
      FirstsStoreAsLasts(cfg, records);
    }
  }

  /** With OK replies the batch leaves the one-by-one store, whatever the store held, if and only if
      the records are collapsible; a store that holds nothing already tells the two apart. */
  lemma BatchRefinesOneByOne(cfg: SinkConfig, records: seq<AerospikeRecord>)
    ensures (forall store :: BatchStore(cfg, store, records) == WriteAll(cfg, store, records)) <==>
              Collapsible(cfg, records)
    ensures BatchStore(cfg, map[], records) == WriteAll(cfg, map[], records) <==> Collapsible(cfg, records)
  {
    if Collapsible(cfg, records) {
      forall store ensures BatchStore(cfg, store, records) == WriteAll(cfg, store, records) {
        CollapsibleSuffices(cfg, store, records);
      }
    }
    if BatchStore(cfg, map[], records) == WriteAll(cfg, map[], records) {
      EmptyStoreDecides(cfg, records);
    }
  }

  /** A duplicate key is enough to separate the two writers: with `a` then `b` written to different
      bins of one key, UPDATE keeps both bins one by one and only the last in a batch; with two
      values for one bin, CREATE_ONLY keeps the first one by one and the last in a batch. */
  lemma CollapsingLosesData(cfg: SinkConfig, a: AerospikeRecord, b: AerospikeRecord)
    requires cfg.maxRecordSize >= 16 && cfg.policy != Replace
    requires a == AerospikeRecord(a.key, [Bin("a", IntValue(1))], None, {}, None)
    requires b == AerospikeRecord(a.key, [Bin(if cfg.policy == Update then "b" else "a", IntValue(2))], None, {}, None)
    ensures BatchStore(cfg, map[], [a, b]) != WriteAll(cfg, map[], [a, b])
  {
    assert Utf8.Encode("a") == Utf8.EncodeChar('a') + Utf8.Encode(""[..]) by { assert "a"[1..] == ""; }
    assert Utf8.Encode("b") == Utf8.EncodeChar('b') + Utf8.Encode(""[..]) by { assert "b"[1..] == ""; }
    assert !TooLarge(cfg, a) && !TooLarge(cfg, b) by {
      assert a.bins[1..] == [] && b.bins[1..] == [];
    }
    var records := [a, b];
    var k := KeyOf(cfg, a);
    assert FirstSlot(cfg, records, k, 0) && LastSlot(cfg, records, k, 1);
    if cfg.policy == Update {
      assert Bin("a", IntValue(1)) in a.bins;
      assert "a" in BinNames(records[0]) && "a" !in BinNames(records[1]);
    } else {
      assert a.bins[1..] == [] && b.bins[1..] == [];
      assert Content(a)["a"] != Content(b)["a"];
      assert Fresh(records[0]) != Fresh(records[1]);
    }
    BatchRefinesOneByOne(cfg, records);
  }

  // ----- What is reported -----

  /** Whether the server accepts the write reported for position `i`, in a batch and one by one. */
  predicate AdmittedInBatch(cfg: SinkConfig, store: Store, records: seq<AerospikeRecord>, i: nat)
    requires i < |records|
  {
    Admits(cfg.policy, Lookup(store, KeyOf(cfg, records[i])))
  }

  predicate AdmittedAlone(cfg: SinkConfig, store: Store, records: seq<AerospikeRecord>, i: nat)
    requires i < |records|
  {
    Admits(cfg.policy, Lookup(WriteAll(cfg, store, records[..i]), KeyOf(cfg, records[i])))
  }

  ghost predicate DistinctKeys(cfg: SinkConfig, records: seq<AerospikeRecord>) {
    forall i, j :: 0 <= i < j < |records| && !TooLarge(cfg, records[i]) && !TooLarge(cfg, records[j])
      ==> KeyOf(cfg, records[i]) != KeyOf(cfg, records[j])
  }

  lemma AdmissionAt(cfg: SinkConfig, store: Store, records: seq<AerospikeRecord>, i: nat)
    requires i < |records| && !TooLarge(cfg, records[i])
    ensures AdmittedAlone(cfg, store, records, i) <==>
              cfg.policy != CreateOnly
              || (KeyOf(cfg, records[i]) !in store
                  && forall j :: 0 <= j < i && !TooLarge(cfg, records[j]) ==>
                        KeyOf(cfg, records[j]) != KeyOf(cfg, records[i]))
  {
    var k, front := KeyOf(cfg, records[i]), records[..i];
    WriteAllAt(cfg, store, front, k);
    WinnersAreLast(cfg, front);
    forall j | 0 <= j < i && !TooLarge(cfg, records[j]) && KeyOf(cfg, records[j]) == k
          ensures k in Winners(cfg, front) {
      assert front[j] == records[j];
    }
    if k in Winners(cfg, front) {
      var slot :| LastSlot(cfg, front, k, slot);
      assert front[slot] == records[slot];
    }
  }

  /** Migrated and skipped counts agree with one-by-one writing in every store exactly when the
      policy is not CREATE_ONLY or no two small records share a key: a duplicate in a CREATE_ONLY
      batch is reported as migrated where a second single write is reported as existing. */
  lemma ReportsAgree(cfg: SinkConfig, records: seq<AerospikeRecord>)
    ensures (forall store, i :: 0 <= i < |records| && !TooLarge(cfg, records[i])
               ==> (AdmittedInBatch(cfg, store, records, i) <==> AdmittedAlone(cfg, store, records, i)))
            <==> cfg.policy != CreateOnly || DistinctKeys(cfg, records)
  {
    forall store, i | 0 <= i < |records| && !TooLarge(cfg, records[i])
      ensures (cfg.policy != CreateOnly || DistinctKeys(cfg, records)) ==>
                (AdmittedInBatch(cfg, store, records, i) <==> AdmittedAlone(cfg, store, records, i))
    {
      AdmissionAt(cfg, store, records, i);
    }
    if cfg.policy == CreateOnly && !DistinctKeys(cfg, records) {
      var i, j :| 0 <= i < j < |records| && !TooLarge(cfg, records[i]) && !TooLarge(cfg, records[j])
                  && KeyOf(cfg, records[i]) == KeyOf(cfg, records[j]);
      AdmissionAt(cfg, map[], records, j);
      assert AdmittedInBatch(cfg, map[], records, j) && !AdmittedAlone(cfg, map[], records, j);
    }
  }
}
