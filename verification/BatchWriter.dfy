/**
 The batch writer `write_many` and its comparison with writing the records one by one
 (redis_to_aerospike/aerospike_sink.py).
 */
module BatchWriter {
  import opened Models
  import opened Sequences
  import opened Sink
  import Numerals

  /** The server's answer to one write. `exception` is the class name the client raises when the
      same failure happens to a single `put` or `operate`. */
  datatype Reply = Reply(code: int, inDoubt: bool, exception: string)

  /** One sub-command of a batch. */
  datatype Command = Command(key: RecordKey, record: AerospikeRecord)

  const TOO_LARGE := "RecordTooLargeError"
  const RECORD_EXISTS := "RecordExists"

  /** The per-record outcome reported for a batch reply: None is success. */
  function BatchReason(cfg: SinkConfig, reply: Reply): Option<string> {
    if reply.code == 0 then None
    else if cfg.policy == CreateOnly && reply.code in cfg.existsCodes then Some(RECORD_EXISTS)
    else Some("BatchError:" + Numerals.PrintInt(reply.code) + (if reply.inDoubt then ":in_doubt" else ""))
  }

  /** `slot` is the last record of `records` with this key that is small enough to be sent. */
  ghost predicate LastSlot(cfg: SinkConfig, records: seq<AerospikeRecord>, key: RecordKey, slot: int) {
    && 0 <= slot < |records|
    && !TooLarge(cfg, records[slot])
    && KeyOf(cfg, records[slot]) == key
    && forall j :: slot < j < |records| && !TooLarge(cfg, records[j]) ==> KeyOf(cfg, records[j]) != key
  }

  /** The keys to send, each with the record that is sent under it. */
  function Winners(cfg: SinkConfig, records: seq<AerospikeRecord>): map<RecordKey, AerospikeRecord> {
    if records == [] then map[]
    else
      var front, last := Winners(cfg, records[..|records|-1]), records[|records|-1];
      if TooLarge(cfg, last) then front else front[KeyOf(cfg, last) := last]
  }

  lemma {:induction false} SmallRecordsWin(cfg: SinkConfig, records: seq<AerospikeRecord>, i: nat)
    requires i < |records| && !TooLarge(cfg, records[i])
    ensures KeyOf(cfg, records[i]) in Winners(cfg, records)
  {
    var n := |records| - 1;
    if i < n {
      assert records[..n][i] == records[i];
      SmallRecordsWin(cfg, records[..n], i);
    }
  }

  lemma {:induction false} WinnerIsLast(cfg: SinkConfig, records: seq<AerospikeRecord>, k: RecordKey)
          returns (slot: nat)
    requires k in Winners(cfg, records)
    ensures LastSlot(cfg, records, k, slot) && Winners(cfg, records)[k] == records[slot]
  {
    var n := |records| - 1;
    if !TooLarge(cfg, records[n]) && KeyOf(cfg, records[n]) == k {
      slot := n;
    } else {
      slot := WinnerIsLast(cfg, records[..n], k);
      assert records[..n][slot] == records[slot];
      forall j | slot < j < |records| && !TooLarge(cfg, records[j]) ensures KeyOf(cfg, records[j]) != k {
        if j < n { assert records[..n][j] == records[j]; }
      }
    }
  }

  /** A winner is the record in the last slot of its key, and every small record has one. */
  lemma WinnersAreLast(cfg: SinkConfig, records: seq<AerospikeRecord>)
    ensures forall i :: 0 <= i < |records| && !TooLarge(cfg, records[i])
              ==> KeyOf(cfg, records[i]) in Winners(cfg, records)
    ensures forall k :: k in Winners(cfg, records)
              ==> exists slot :: LastSlot(cfg, records, k, slot) && Winners(cfg, records)[k] == records[slot]
  {
    forall i | 0 <= i < |records| && !TooLarge(cfg, records[i])
          ensures KeyOf(cfg, records[i]) in Winners(cfg, records) {
      SmallRecordsWin(cfg, records, i);
    }
    forall k | k in Winners(cfg, records)
      ensures exists slot :: LastSlot(cfg, records, k, slot) && Winners(cfg, records)[k] == records[slot]
    {
      var slot := WinnerIsLast(cfg, records, k);
    }
  }

  lemma WinnerFits(cfg: SinkConfig, records: seq<AerospikeRecord>, k: RecordKey)
    requires k in Winners(cfg, records)
    ensures Winners(cfg, records)[k] in records
    ensures KeyOf(cfg, Winners(cfg, records)[k]) == k && !TooLarge(cfg, Winners(cfg, records)[k])
  {
    var slot := WinnerIsLast(cfg, records, k);
  }

  /** What is known once the first `i` records have been looked at. */
  ghost predicate Collected(cfg: SinkConfig, records: seq<AerospikeRecord>, i: nat, results: seq<Option<string>>,
          keyOf: seq<Option<RecordKey>>, order: seq<RecordKey>, lastSlot: map<RecordKey, int>)
    requires i <= |records|
  {
    && |results| == |keyOf| == |records|
    && (forall p :: i <= p < |records| ==> keyOf[p].None?)
    && Distinct(order) && (forall k :: k in order <==> k in lastSlot)
    && (forall k :: k in lastSlot ==> LastSlot(cfg, records[..i], k, lastSlot[k]))
    && (forall p :: 0 <= p < i ==> Slotted(cfg, records[p], results[p], keyOf[p], order))
  }

  lemma LargeCollected(cfg: SinkConfig, records: seq<AerospikeRecord>, i: nat, results: seq<Option<string>>,
          keyOf: seq<Option<RecordKey>>, order: seq<RecordKey>, lastSlot: map<RecordKey, int>)
    requires i < |records| && TooLarge(cfg, records[i])
    requires Collected(cfg, records, i, results, keyOf, order, lastSlot)
    ensures Collected(cfg, records, i + 1, results[i := Some(TOO_LARGE)], keyOf, order, lastSlot)
  {
    SlotsAdvance(cfg, records, lastSlot, i, lastSlot);
  }

  lemma SmallCollected(cfg: SinkConfig, records: seq<AerospikeRecord>, i: nat, results: seq<Option<string>>,
          keyOf: seq<Option<RecordKey>>, order: seq<RecordKey>, lastSlot: map<RecordKey, int>)
    requires i < |records| && !TooLarge(cfg, records[i])
    requires Collected(cfg, records, i, results, keyOf, order, lastSlot)
    ensures var key := KeyOf(cfg, records[i]);
            Collected(cfg, records, i + 1, results, keyOf[i := Some(key)],
                      if key in lastSlot then order else order + [key], lastSlot[key := i])
  {
    var key := KeyOf(cfg, records[i]);
    var longer := if key in lastSlot then order else order + [key];
    SlotsAdvance(cfg, records, lastSlot, i, lastSlot[key := i]);
    assert key in longer;
    assert forall k :: k in order ==> k in longer;
  }

  /** The first loop of `write_many`: size errors, the key of every small record, and the last slot
      of every key, the keys in order of first appearance. */
  method CollectSlots(cfg: SinkConfig, records: seq<AerospikeRecord>)
    returns (results: seq<Option<string>>, keyOf: seq<Option<RecordKey>>, order: seq<RecordKey>,
          lastSlot: map<RecordKey, int>)
    ensures |results| == |keyOf| == |records|
    ensures Distinct(order) && forall k :: k in order <==> k in lastSlot
    ensures forall k :: k in lastSlot ==> LastSlot(cfg, records, k, lastSlot[k])
    ensures forall p :: 0 <= p < |records| ==> Slotted(cfg, records[p], results[p], keyOf[p], order)
  {
    results := seq(|records|, i => None);
    keyOf := seq(|records|, i => None);
    lastSlot := map[];
    order := [];
    for i := 0 to |records|
      invariant Collected(cfg, records, i, results, keyOf, order, lastSlot)
    {
      if TooLarge(cfg, records[i]) {
        LargeCollected(cfg, records, i, results, keyOf, order, lastSlot);
        results := results[i := Some(TOO_LARGE)];
      } else {
        SmallCollected(cfg, records, i, results, keyOf, order, lastSlot);
        var key := KeyOf(cfg, records[i]);
        keyOf := keyOf[i := Some(key)];
        if key !in lastSlot { order := order + [key]; }
        lastSlot := lastSlot[key := i];
      }
    }
    assert records[..|records|] == records;
  }

  /** Looking at one more record updates its own key's slot, if it is small, and no other. */
  lemma SlotsAdvance(cfg: SinkConfig, records: seq<AerospikeRecord>, slots: map<RecordKey, int>, i: nat,
          next: map<RecordKey, int>)
    requires i < |records| && forall k :: k in slots ==> LastSlot(cfg, records[..i], k, slots[k])
    requires next == if TooLarge(cfg, records[i]) then slots else slots[KeyOf(cfg, records[i]) := i]
    ensures forall k :: k in next ==> LastSlot(cfg, records[..i+1], k, next[k])
  {
    forall k | k in next ensures LastSlot(cfg, records[..i+1], k, next[k]) {
      if k in slots && (TooLarge(cfg, records[i]) || KeyOf(cfg, records[i]) != k) {
        assert LastSlot(cfg, records[..i], k, slots[k]);
        assert records[..i+1] == records[..i] + [records[i]];
      }
    }
  }

  ghost predicate Slotted(cfg: SinkConfig, r: AerospikeRecord, result: Option<string>, key: Option<RecordKey>,
          order: seq<RecordKey>) {
    if TooLarge(cfg, r) then result == Some(TOO_LARGE) && key.None?
    else key == Some(KeyOf(cfg, r)) && KeyOf(cfg, r) in order
  }

  /** The last two loops of `write_many`: pair the sent keys with the replies, then copy each key's
      outcome to every position that shares it. */
  method FanOut(cfg: SinkConfig, results: seq<Option<string>>, keyOf: seq<Option<RecordKey>>, sent: seq<Command>,
          replies: seq<Reply>)
    returns (filled: seq<Option<string>>)
    requires |results| == |keyOf|
    requires forall i, j :: 0 <= i < j < |sent| ==> sent[i].key != sent[j].key
    requires forall i :: 0 <= i < |keyOf| && keyOf[i].Some? ==>
              exists j :: 0 <= j < |sent| && sent[j].key == keyOf[i].value
    ensures |filled| == |results|
    ensures forall i :: 0 <= i < |keyOf| && keyOf[i].None? ==> filled[i] == results[i]
    ensures forall i :: 0 <= i < |keyOf| && keyOf[i].Some? ==> Fanned(cfg, sent, replies, keyOf[i].value, filled[i])
  {
    var reasonForKey: map<RecordKey, Option<string>> := map[];
    var paired := if |sent| < |replies| then |sent| else |replies|;
    for j := 0 to paired
      invariant forall k :: k in reasonForKey ==> exists a :: 0 <= a < j && sent[a].key == k
      invariant forall a :: 0 <= a < j ==>
                sent[a].key in reasonForKey && reasonForKey[sent[a].key] == BatchReason(cfg, replies[a])
    {
      reasonForKey := reasonForKey[sent[j].key := BatchReason(cfg, replies[j])];
    }
    filled := results;
    for i := 0 to |keyOf|
      invariant |filled| == |results|
      invariant forall p :: 0 <= p < |keyOf| && (i <= p || keyOf[p].None?) ==> filled[p] == results[p]
      invariant forall p :: 0 <= p < i && keyOf[p].Some? ==> Fanned(cfg, sent, replies, keyOf[p].value, filled[p])
    {
      if keyOf[i].Some? {
        var key := keyOf[i].value;
        filled := filled[i := if key in reasonForKey then reasonForKey[key] else None];
        assert Fanned(cfg, sent, replies, key, filled[i]);
      }
    }
  }

  /** Each key of a small record is sent once, with the record in its last slot, and no other key is. */
  ghost predicate Plan(cfg: SinkConfig, records: seq<AerospikeRecord>, sent: seq<Command>) {
    && (forall i, j :: 0 <= i < j < |sent| ==> sent[i].key != sent[j].key)
    && (forall c :: c in sent ==> exists slot :: LastSlot(cfg, records, c.key, slot) && c.record == records[slot])
    && (set c | c in sent :: c.key) == Winners(cfg, records).Keys
  }

  /** The second loop of `write_many`: one command per key, built from the key's last slot. */
  method BuildCommands(cfg: SinkConfig, records: seq<AerospikeRecord>, order: seq<RecordKey>,
          lastSlot: map<RecordKey, int>)
    returns (sent: seq<Command>)
    requires Distinct(order) && forall k :: k in order <==> k in lastSlot
    requires forall k :: k in lastSlot ==> LastSlot(cfg, records, k, lastSlot[k])
    requires forall i :: 0 <= i < |records| && !TooLarge(cfg, records[i]) ==> KeyOf(cfg, records[i]) in order
    ensures Plan(cfg, records, sent)
    ensures |sent| == |order| && forall j :: 0 <= j < |sent| ==> sent[j].key == order[j]
  {
    sent := [];
    for j := 0 to |order|
      invariant |sent| == j
      invariant forall a :: 0 <= a < j ==> sent[a] == Command(order[a], records[lastSlot[order[a]]])
    {
      sent := sent + [Command(order[j], records[lastSlot[order[j]]])];
    }
    SentKeys(cfg, records, order, sent);
    forall c | c in sent ensures exists slot :: LastSlot(cfg, records, c.key, slot) && c.record == records[slot] {
      var j :| 0 <= j < |sent| && sent[j] == c;
      assert LastSlot(cfg, records, c.key, lastSlot[order[j]]);
    }
  }

  lemma KeyIsSent(order: seq<RecordKey>, sent: seq<Command>, key: RecordKey)
    requires |sent| == |order| && forall j :: 0 <= j < |sent| ==> sent[j].key == order[j]
    requires key in order
    ensures exists j :: 0 <= j < |sent| && sent[j].key == key
  {
    var j :| 0 <= j < |order| && order[j] == key;
    assert sent[j].key == key;
  }

  /** `write_many`. The server is the function from the commands sent to the replies received; the
      empty command list stands for making no call. */
  method WriteMany(cfg: SinkConfig, records: seq<AerospikeRecord>, server: seq<Command> -> seq<Reply>)
    returns (results: seq<Option<string>>, sent: seq<Command>)
    // one outcome per record
    ensures |results| == |records|
    // each key of a small record is sent once, from its last slot
    ensures Plan(cfg, records, sent)
    // a too large record gets the size error, any other its own key's reply
    ensures forall i :: 0 <= i < |records| && TooLarge(cfg, records[i]) ==> results[i] == Some(TOO_LARGE)
    ensures forall i :: 0 <= i < |records| && !TooLarge(cfg, records[i]) ==>
              Fanned(cfg, sent, if sent == [] then [] else server(sent), KeyOf(cfg, records[i]), results[i])
  {
    var before, keyOf, order, lastSlot := CollectSlots(cfg, records);
    assert forall i :: 0 <= i < |records| ==> Slotted(cfg, records[i], before[i], keyOf[i], order);
    results := before;
    sent := BuildCommands(cfg, records, order, lastSlot);
    if sent == [] {
      return;
    }
    forall i | 0 <= i < |keyOf| && keyOf[i].Some? ensures exists j :: 0 <= j < |sent| && sent[j].key == keyOf[i].value {
      KeyIsSent(order, sent, keyOf[i].value);
    }
    results := FanOut(cfg, before, keyOf, sent, server(sent));
  }

  /** The outcome of a position is the reply at its key's command; a missing reply reads as success. */
  ghost predicate Fanned(cfg: SinkConfig, sent: seq<Command>, replies: seq<Reply>, key: RecordKey,
          outcome: Option<string>) {
    exists j :: 0 <= j < |sent| && sent[j].key == key
      && outcome == if j < |replies| then BatchReason(cfg, replies[j]) else None
  }

  /** Nothing is sent when every record is too large. */
  lemma AllTooLargeSendsNothing(cfg: SinkConfig, records: seq<AerospikeRecord>, sent: seq<Command>)
    requires Plan(cfg, records, sent)
    ensures sent == [] <==> forall i :: 0 <= i < |records| ==> TooLarge(cfg, records[i])
  {
    WinnersAreLast(cfg, records);
    if sent == [] {
      assert Winners(cfg, records).Keys == {};
    } else {
      assert sent[0] in sent;
    }
  }

  lemma SentKeys(cfg: SinkConfig, records: seq<AerospikeRecord>, order: seq<RecordKey>, sent: seq<Command>)
    requires |sent| == |order| && forall j :: 0 <= j < |sent| ==> sent[j].key == order[j]
    requires forall k :: k in order ==> exists slot :: LastSlot(cfg, records, k, slot)
    requires forall i :: 0 <= i < |records| && !TooLarge(cfg, records[i]) ==> KeyOf(cfg, records[i]) in order
    ensures (set c | c in sent :: c.key) == Winners(cfg, records).Keys
  {
    WinnersAreLast(cfg, records);
    forall k | k in order ensures k in Winners(cfg, records) && k in (set c | c in sent :: c.key) {
      var slot :| LastSlot(cfg, records, k, slot);
      var j :| 0 <= j < |order| && order[j] == k;
      assert sent[j] in sent;
    }
    forall c | c in sent ensures c.key in order {
      var j :| 0 <= j < |sent| && sent[j] == c;
    }
    forall k | k in Winners(cfg, records) ensures k in order {
      var slot :| LastSlot(cfg, records, k, slot);
    }
  }

  // ----- Reasons -----

  /** Success is code 0, and "exists" is reported only under CREATE_ONLY for one of the client's codes. */
  lemma ReasonMeaning(cfg: SinkConfig, reply: Reply)
    ensures BatchReason(cfg, reply).None? <==> reply.code == 0
    ensures BatchReason(cfg, reply) == Some(RECORD_EXISTS) <==>
              reply.code != 0 && cfg.policy == CreateOnly && reply.code in cfg.existsCodes
    ensures BatchReason(cfg, reply) in {None, Some(RECORD_EXISTS)} ||
              BatchReason(cfg, reply)
                == Some("BatchError:" + Numerals.PrintInt(reply.code) + (if reply.inDoubt then ":in_doubt" else ""))
  {
    var reason := BatchReason(cfg, reply);
    assert reply.code != 0 && !(cfg.policy == CreateOnly && reply.code in cfg.existsCodes) ==> reason.value[0] == 'B';
  }

  function Suffix(reply: Reply): string { if reply.inDoubt then ":in_doubt" else "" }

  lemma {:induction false} NumbersEndBeforeColon(a: string, b: string, x: string, y: string)
    requires ':' !in a && ':' !in b && (x == "" || x[0] == ':') && (y == "" || y[0] == ':')
    requires a + x == b + y
    ensures a == b && x == y
  {
    assert forall i :: 0 <= i < |a| ==> (a + x)[i] == a[i];
    assert forall i :: 0 <= i < |b| ==> (b + y)[i] == b[i];
    assert a == "" ==> a + x == x;
    assert b == "" ==> b + y == y;
    if a != "" && b != "" {
      assert (a + x)[0] == (b + y)[0];
      assert (a + x)[1..] == a[1..] + x && (b + y)[1..] == b[1..] + y;
      NumbersEndBeforeColon(a[1..], b[1..], x, y);
      assert a == [a[0]] + a[1..] && b == [b[0]] + b[1..];
    }
  }

  lemma PrintedHasNoColon(n: int)
    ensures ':' !in Numerals.PrintInt(n)
  {
    Numerals.PrintedIntDigits(n);
    var s := Numerals.PrintInt(n);
    if Numerals.Negated(s) { assert s == ['-'] + s[1..]; }
  }

  /** The error breakdown tells failures apart by code and by doubt. */
  lemma ReasonsTellFailuresApart(cfg: SinkConfig, a: Reply, b: Reply)
    requires BatchReason(cfg, a) == BatchReason(cfg, b) && BatchReason(cfg, a) != None &&
              BatchReason(cfg, a) != Some(RECORD_EXISTS)
    ensures a.code == b.code && a.inDoubt == b.inDoubt
  {
    ReasonMeaning(cfg, a);
    ReasonMeaning(cfg, b);
    var head, x, y := "BatchError:", Numerals.PrintInt(a.code), Numerals.PrintInt(b.code);
    var reason := BatchReason(cfg, a).value;
    assert reason == head + (x + Suffix(a)) && reason == head + (y + Suffix(b));
    assert x + Suffix(a) == reason[|head|..] && y + Suffix(b) == reason[|head|..];
    PrintedHasNoColon(a.code);
    PrintedHasNoColon(b.code);
    NumbersEndBeforeColon(x, y, Suffix(a), Suffix(b));
    Numerals.PrintIntInjective(a.code, b.code);
  }
}
