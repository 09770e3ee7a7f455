/**
 The data carried through the migration: the raw Redis record, the Aerospike record a converter
 builds from it, and the settings of the sink.
 */
module Models {

  datatype Option<+T> = None | Some(value: T)

  type Byte = b: int | 0 <= b < 256

  /** A user key: text when the Redis key is valid UTF-8, raw bytes otherwise. */
  datatype UserKey = TextKey(text: string) | BinaryKey(raw: seq<Byte>)

  /** A finite double. Its arithmetic is not modelled, only its identity. */
  datatype Float = Float(id: nat)

  /** A bin value. A map keeps its insertion order, as a Python dict does. */
  datatype Value =
    | IntValue(i: int)
    | FloatValue(f: Float)
    | TextValue(s: string)
    | BlobValue(raw: seq<Byte>)
    | ListValue(items: seq<Value>)
    | MapValue(entries: seq<Entry>)

  datatype Entry = Entry(key: Value, value: Value)

  ghost predicate DistinctEntryKeys(entries: seq<Entry>) {
    forall i, j :: 0 <= i < j < |entries| ==> entries[i].key != entries[j].key
  }

  datatype Bin = Bin(name: string, value: Value)

  /** A record ready to be written. Bins keep their insertion order, as a Python dict does;
      `uniqueBins` are the names whose write policy is UNIQUE_LIST. */
  datatype AerospikeRecord = AerospikeRecord(
    key: UserKey,
    bins: seq<Bin>,
    ttl: Option<int>,
    uniqueBins: set<string>,
    setName: Option<string>)

  /** A sorted-set score: a finite double, or the printed form of inf, -inf or nan. */
  datatype Score = Finite(f: Float) | NonFinite(text: string)

  /** A raw Redis value. Sets and hashes are given in the order the client iterates over them. */
  datatype RedisValue =
    | StringReply(raw: seq<Byte>)
    | HashReply(fields: seq<(seq<Byte>, seq<Byte>)>)
    | ListReply(elements: seq<seq<Byte>>)
    | SetReply(members: seq<seq<Byte>>)
    | ZSetReply(scored: seq<(seq<Byte>, Score)>)
    | OtherReply(typeName: string)

  datatype RedisRecord = RedisRecord(key: UserKey, value: RedisValue, ttlMs: Option<int>)

  /** What writing a record that already exists does. */
  datatype ExistsPolicy = Update | Replace | CreateOnly

  /** The part of the Aerospike configuration the sink consults. `existsCodes` are the client's
      result codes that mean "record already exists". */
  datatype SinkConfig = SinkConfig(
    namespace: string,
    setName: string,
    policy: ExistsPolicy,
    maxRecordSize: int,
    existsCodes: set<int>)

  /** The identity of a stored record. */
  datatype RecordKey = RecordKey(namespace: string, setName: string, user: UserKey)

  function Max(a: int, b: int): int { if a < b then b else a }
}
