/**
 The Aerospike server as the sink relies on it: a map from record keys to records, operation
 lists, and the three record-exists policies.
 */
module Server {
  import opened Models
  import opened Sequences

  /** A bin as the server keeps it. A key-ordered map has no order of its own: equal entries are equal maps. */
  datatype Stored = Plain(value: Value) | KeyOrdered(entries: map<Value, Value>)

  datatype StoredRecord = StoredRecord(bins: map<string, Stored>, ttl: int)

  type Store = map<RecordKey, StoredRecord>

  datatype Op =
    | WriteBin(name: string, value: Stored)
    | AppendUnique(name: string, items: seq<Value>)

  /** ADD_UNIQUE with NO_FAIL and PARTIAL: members already present are skipped silently. */
  function AppendAbsent(list: seq<Value>, items: seq<Value>): seq<Value>
    decreases items
  {
    if items == [] then list
    else AppendAbsent(if items[0] in list then list else list + [items[0]], items[1..])
  }

  function ListIn(bins: map<string, Stored>, name: string): seq<Value> {
    if name in bins && bins[name].Plain? && bins[name].value.ListValue? then bins[name].value.items else []
  }

  function RunOp(bins: map<string, Stored>, op: Op): map<string, Stored> {
    match op
    case WriteBin(name, value) => bins[name := value]
    case AppendUnique(name, items) => bins[name := Plain(ListValue(AppendAbsent(ListIn(bins, name), items)))]
  }

  function RunOps(bins: map<string, Stored>, ops: seq<Op>): map<string, Stored>
    decreases ops
  {
    if ops == [] then bins else RunOps(RunOp(bins, ops[0]), ops[1..])
  }

  /** Whether the policy lets a write through, given the record found under the key. */
  predicate Admits(policy: ExistsPolicy, found: Option<StoredRecord>) {
    policy != CreateOnly || found.None?
  }

  /** The bins a write starts from: REPLACE and creation start empty, UPDATE merges. */
  function StartingBins(policy: ExistsPolicy, found: Option<StoredRecord>): map<string, Stored> {
    if policy == Update && found.Some? then found.value.bins else map[]
  }

  function Lookup(store: Store, key: RecordKey): Option<StoredRecord> {
    if key in store then Some(store[key]) else None
  }

  /** `client.operate`, and one sub-command of `client.batch_write`. */
  function Operate(store: Store, policy: ExistsPolicy, key: RecordKey, ops: seq<Op>, ttl: int): Store {
    var found := Lookup(store, key);
    if Admits(policy, found)
    then store[key := StoredRecord(RunOps(StartingBins(policy, found), ops), ttl)]
    else store
  }

  /** `client.put`: the given bins are written over the starting bins. */
  function Put(store: Store, policy: ExistsPolicy, key: RecordKey, bins: map<string, Stored>, ttl: int): Store {
    var found := Lookup(store, key);
    if Admits(policy, found)
    then store[key := StoredRecord(StartingBins(policy, found) + bins, ttl)]
    else store
  }

  /** Unique append leaves exactly the old and the new members, each once. */
  lemma {:induction false} AppendAbsentMembers(list: seq<Value>, items: seq<Value>)
    requires Distinct(list)
    ensures Distinct(AppendAbsent(list, items))
    ensures forall v :: v in AppendAbsent(list, items) <==> v in list || v in items
    decreases items
  {
    if items != [] {
      var next := if items[0] in list then list else list + [items[0]];
      AppendAbsentMembers(next, items[1..]);
      assert forall v :: v in items <==> v == items[0] || v in items[1..];
    }
  }

  lemma {:induction false} RunOpsConcat(bins: map<string, Stored>, first: seq<Op>, rest: seq<Op>)
    ensures RunOps(bins, first + rest) == RunOps(RunOps(bins, first), rest)
    decreases first
  {
    if first == [] {
      assert first + rest == rest;
    } else {
      assert (first + rest)[1..] == first[1..] + rest;
      RunOpsConcat(RunOp(bins, first[0]), first[1..], rest);
    }
  }
}
