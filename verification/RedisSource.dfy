/**
 The read side: pipelined reads decoded by position, and chunking of the cluster scan
 (redis_to_aerospike/redis_source.py). The pipeline answers each command with a function of the command
 and its key.
 */
module RedisSource {
  import opened Models
  import opened Sequences
  import Coercion
  import Utf8

  type RawKey = seq<Byte>

  datatype Command = Type | Pttl | Get | HGetAll | LRange | SMembers | ZRange | Exists

  datatype Request = Request(command: Command, key: RawKey)

  /** A reply: bytes that name a type, a number, nothing, or a value. */
  datatype Raw = Name(raw: seq<Byte>) | Number(n: int) | Missing | Data(value: RedisValue)

  type Redis = Request -> Raw

  /** Executing a pipeline: one reply per request, in order. */
  function Execute(redis: Redis, requests: seq<Request>): (replies: seq<Raw>)
    ensures |replies| == |requests| && forall i :: 0 <= i < |requests| ==> replies[i] == redis(requests[i])
  {
    seq(|requests|, i requires 0 <= i < |requests| => redis(requests[i]))
  }

  // ----- What one key should give -----

  /** A type name is decoded with replacement. A TYPE reply that is no name names no type, so not "none" either: its
      key is passed on as one of an unsupported type. */
  function TypeName(raw: Raw): string { if raw.Name? then Utf8.DecodeReplace(raw.raw) else "" }

  function TypeOf(redis: Redis, key: RawKey): string { TypeName(redis(Request(Type, key))) }

  function TtlOf(raw: Raw): Option<int> { if raw.Number? then Coercion.FromPttl(raw.n) else None }

  function ReadCommand(typeName: string): Command {
    if typeName == "string" then Get
    else if typeName == "hash" then HGetAll
    else if typeName == "list" then LRange
    else if typeName == "set" then SMembers
    else if typeName == "zset" then ZRange
    else Exists
  }

  function ValueOf(redis: Redis, key: RawKey): Raw { redis(Request(ReadCommand(TypeOf(redis, key)), key)) }

  predicate EmptyCollection(v: RedisValue) {
    match v
    case HashReply(fields) => fields == []
    case ListReply(elements) => elements == []
    case SetReply(members) => members == []
    case ZSetReply(scored) => scored == []
    case _ => false
  }

  /** A read that came back empty: the key vanished after its type was read. An empty string is a value. */
  predicate Vanished(typeName: string, raw: Raw) {
    if typeName == "string" then raw.Missing?
    else if typeName in {"hash", "list", "set", "zset"} then raw.Missing? || (raw.Data? && EmptyCollection(raw.value))
    else false
  }

  function MakeRecord(key: RawKey, typeName: string, raw: Raw, ttl: Option<int>): RedisRecord {
    RedisRecord(Utf8.DecodeOrKeep(key), if raw.Data? then raw.value else OtherReply(typeName), ttl)
  }

  predicate Present(redis: Redis, key: RawKey) {
    TypeOf(redis, key) != "none" && !Vanished(TypeOf(redis, key), ValueOf(redis, key))
  }

  function RecordOf(redis: Redis, key: RawKey): RedisRecord {
    MakeRecord(key, TypeOf(redis, key), ValueOf(redis, key), TtlOf(redis(Request(Pttl, key))))
  }

  /** The records of a scanned key sequence: one for each occurrence that is present, in scan order. */
  function RecordsOf(redis: Redis, keys: seq<RawKey>): seq<RedisRecord> {
    if keys == [] then []
    else
      var front, last := RecordsOf(redis, keys[..|keys|-1]), keys[|keys|-1];
      if Present(redis, last) then front + [RecordOf(redis, last)] else front
  }

  lemma {:induction false} RecordsOfConcat(redis: Redis, a: seq<RawKey>, b: seq<RawKey>)
    ensures RecordsOf(redis, a + b) == RecordsOf(redis, a) + RecordsOf(redis, b)
  {
    if b == [] {
      assert a + b == a;
    } else {
      var n := |b| - 1;
      assert (a + b)[..|a + b|-1] == a + b[..n];
      RecordsOfConcat(redis, a, b[..n]);
    }
  }

  // ----- What the record of one key holds -----

  /** The value has the shape of its type. */
  predicate Shaped(typeName: string, v: RedisValue) {
    && (typeName == "string" ==> v.StringReply?) && (typeName == "hash" ==> v.HashReply?)
    && (typeName == "list" ==> v.ListReply?) && (typeName == "set" ==> v.SetReply?)
    && (typeName == "zset" ==> v.ZSetReply?)
  }

  /** Milliseconds left, when the PTTL reply is a number of them; -1 and -2 are no expiry. */
  function TtlReplied(raw: Raw): Option<int> {
    match raw
    case Number(n) => if n >= 0 then Some(n) else None
    case _ => None
  }

  lemma NameIsRead(name: string, raw: seq<Byte>)
    requires raw == Utf8.Encode(name)
    ensures TypeName(Name(raw)) == name
  {
    Utf8.DecodeAfterEncode(name);
    Utf8.ReplaceKeepsValid(raw);
  }

  lemma RecordsOfOne(redis: Redis, key: RawKey)
    ensures RecordsOf(redis, [key]) == if Present(redis, key) then [RecordOf(redis, key)] else []
  {
    assert [key][..0] == [] && RecordsOf(redis, []) == [];
  }

  lemma ReadByItsCommand(redis: Redis, key: RawKey, typeName: string, command: Command)
    requires (typeName, command) in {("string", Get), ("hash", HGetAll), ("list", LRange), ("set", SMembers),
                                     ("zset", ZRange)}
    requires redis(Request(Type, key)) == Name(Utf8.Encode(typeName))
    ensures TypeOf(redis, key) == typeName != "none" && ValueOf(redis, key) == redis(Request(command, key))
  {
    NameIsRead(typeName, Utf8.Encode(typeName));
  }

  lemma VanishedMeaning(typeName: string, reply: Raw)
    requires typeName in {"string", "hash", "list", "set", "zset"}
    requires reply == Missing || (reply.Data? && Shaped(typeName, reply.value))
    ensures Vanished(typeName, reply) <==>
              reply in [Missing, Data(HashReply([])), Data(ListReply([])), Data(SetReply([])), Data(ZSetReply([]))]
  {
  }

  /** A key of one of the five types yields one record with exactly what its type's own command replies and with its own
      TTL, unless that reply is missing or an empty collection; an empty string is a value. */
  lemma ReadsItsValue(redis: Redis, key: RawKey, typeName: string, command: Command)
    requires (typeName, command) in {("string", Get), ("hash", HGetAll), ("list", LRange), ("set", SMembers),
                                     ("zset", ZRange)}
    requires redis(Request(Type, key)) == Name(Utf8.Encode(typeName))
    requires var reply := redis(Request(command, key));
             reply == Missing || (reply.Data? && Shaped(typeName, reply.value))
    ensures var reply := redis(Request(command, key));
            RecordsOf(redis, [key])
              == if reply in [Missing, Data(HashReply([])), Data(ListReply([])), Data(SetReply([])),
                              Data(ZSetReply([]))]
                 then []
                 else [RedisRecord(Utf8.DecodeOrKeep(key), reply.value, TtlReplied(redis(Request(Pttl, key))))]
  {
    ReadByItsCommand(redis, key, typeName, command);
    VanishedMeaning(typeName, redis(Request(command, key)));
    RecordsOfOne(redis, key);
  }

  /** A key of any other type yields one record that names the type, unless the type is `none`. */
  lemma ReadsItsType(redis: Redis, key: RawKey, typeName: string)
    requires typeName !in {"string", "hash", "list", "set", "zset"}
    requires redis(Request(Type, key)) == Name(Utf8.Encode(typeName)) && !redis(Request(Exists, key)).Data?
    ensures RecordsOf(redis, [key])
         == if typeName == "none" then []
            else [RedisRecord(Utf8.DecodeOrKeep(key), OtherReply(typeName), TtlReplied(redis(Request(Pttl, key))))]
  {
    NameIsRead(typeName, Utf8.Encode(typeName));
    RecordsOfOne(redis, key);
  }

  /** The records of a scan are those of its keys, one key after the other. */
  lemma {:induction false} RecordsKeyByKey(redis: Redis, keys: seq<RawKey>)
    ensures RecordsOf(redis, keys)
         == Flatten(seq(|keys|, i requires 0 <= i < |keys| => RecordsOf(redis, [keys[i]])))
  {
    var parts := seq(|keys|, i requires 0 <= i < |keys| => RecordsOf(redis, [keys[i]]));
    if keys != [] {
      var n := |keys| - 1;
      RecordsKeyByKey(redis, keys[..n]);
      RecordsOfOne(redis, keys[n]);
      assert parts[..n] == seq(n, i requires 0 <= i < n => RecordsOf(redis, [keys[..n][i]]));
    }
  }

  // ----- The pipelined reads -----

  /** The first pipeline: a TYPE and a PTTL request for each key. */
  method TypeRequests(keys: seq<RawKey>) returns (requests: seq<Request>)
    ensures |requests| == 2 * |keys|
    ensures forall j :: 0 <= j < |keys| ==> requests[2*j] == Request(Type, keys[j])
    ensures forall j :: 0 <= j < |keys| ==> requests[2*j+1] == Request(Pttl, keys[j])
  {
    requests := [];
    for i := 0 to |keys|
      invariant |requests| == 2 * i
      invariant forall j :: 0 <= j < i ==> requests[2*j] == Request(Type, keys[j])
      invariant forall j :: 0 <= j < i ==> requests[2*j+1] == Request(Pttl, keys[j])
    {
      requests := requests + [Request(Type, keys[i]), Request(Pttl, keys[i])];
    }
  }

  /** TYPE and PTTL of key `i` are replies `2i` and `2i+1`. */
  method FetchTypesAndTtls(redis: Redis, keys: seq<RawKey>)
          returns (types: map<RawKey, string>, ttls: map<RawKey, Option<int>>)
    ensures types.Keys == ttls.Keys == set k | k in keys
    ensures forall k :: k in keys ==> types[k] == TypeOf(redis, k)
    ensures forall k :: k in keys ==> ttls[k] == TtlOf(redis(Request(Pttl, k)))
  {
    var requests := TypeRequests(keys);
    var results := Execute(redis, requests);
    types, ttls := map[], map[];
    for i := 0 to |keys|
      invariant types.Keys == ttls.Keys == set k | k in keys[..i]
      invariant forall k :: k in types ==> types[k] == TypeOf(redis, k)
      invariant forall k :: k in ttls ==> ttls[k] == TtlOf(redis(Request(Pttl, k)))
    {
      var rawType, pttl := results[i * 2], results[i * 2 + 1];
      assert rawType == redis(Request(Type, keys[i])) && pttl == redis(Request(Pttl, keys[i]));
      types := types[keys[i] := TypeName(rawType)];
      ttls := ttls[keys[i] := TtlOf(pttl)];
      assert keys[..i+1] == keys[..i] + [keys[i]];
    }
    assert keys[..|keys|] == keys;
  }

  /** The second pipeline: one value read for each key that is not gone; keys typed `none` send no request, so
      positions shift. */
  method ValueRequests(redis: Redis, keys: seq<RawKey>, types: map<RawKey, string>)
    returns (orderedKeys: seq<RawKey>, requests: seq<Request>)
    requires forall k :: k in keys ==> k in types && types[k] == TypeOf(redis, k)
    ensures |requests| == |orderedKeys|
    ensures forall j :: 0 <= j < |requests| ==>
              requests[j] == Request(ReadCommand(TypeOf(redis, orderedKeys[j])), orderedKeys[j])
    ensures forall k :: k in orderedKeys <==> k in keys && TypeOf(redis, k) != "none"
  {
    orderedKeys, requests := [], [];
    for i := 0 to |keys|
      invariant |requests| == |orderedKeys|
      invariant forall j :: 0 <= j < |requests| ==>
                requests[j] == Request(ReadCommand(TypeOf(redis, orderedKeys[j])), orderedKeys[j])
      invariant forall k :: k in orderedKeys <==> k in keys[..i] && TypeOf(redis, k) != "none"
    {
      var keyType := types[keys[i]];
      assert keys[..i+1] == keys[..i] + [keys[i]];
      if keyType != "none" {
        orderedKeys := orderedKeys + [keys[i]];
        requests := requests + [Request(ReadCommand(keyType), keys[i])];
      }
    }
    assert keys[..|keys|] == keys;
  }

  /** The values read, each under the key it was requested for. */
  method FetchValues(redis: Redis, keys: seq<RawKey>, types: map<RawKey, string>) returns (values: map<RawKey, Raw>)
    requires forall k :: k in keys ==> k in types && types[k] == TypeOf(redis, k)
    ensures forall k :: k in values <==> k in keys && TypeOf(redis, k) != "none"
    ensures forall k :: k in values ==> values[k] == ValueOf(redis, k)
  {
    var orderedKeys, requests := ValueRequests(redis, keys, types);
    var results := Execute(redis, requests);
    values := map[];
    for j := 0 to |orderedKeys|
      invariant forall k :: k in values <==> k in orderedKeys[..j]
      invariant forall k :: k in values ==> values[k] == ValueOf(redis, k)
    {
      values := values[orderedKeys[j] := results[j]];
      assert orderedKeys[..j+1] == orderedKeys[..j] + [orderedKeys[j]];
    }
    assert orderedKeys[..|orderedKeys|] == orderedKeys;
  }

  /** One batch of `iter_records`. */
  method ReadBatch(redis: Redis, keys: seq<RawKey>) returns (records: seq<RedisRecord>)
    ensures records == RecordsOf(redis, keys)
  {
    var types, ttls := FetchTypesAndTtls(redis, keys);
    var values := FetchValues(redis, keys, types);
    records := [];
    for i := 0 to |keys|
      invariant records == RecordsOf(redis, keys[..i])
    {
      var key := keys[i];
      assert keys[..i+1][..i] == keys[..i] && keys[..i+1][i] == key;
      var keyType := types[key];
      if keyType == "none" || key !in values {
        continue;
      }
      var value := values[key];
      if Vanished(keyType, value) {
        continue;
      }
      records := records + [MakeRecord(key, keyType, value, ttls[key])];
    }
    assert keys[..|keys|] == keys;
  }

  /** `iter_records`: for every batching of the scan, including repeated keys and keys that are gone, exactly one record
      for each occurrence that is present, in scan order, with its own type, TTL and value. */
  method IterRecords(redis: Redis, batches: seq<seq<RawKey>>) returns (records: seq<RedisRecord>)
    ensures records == RecordsOf(redis, Flatten(batches))
  {
    records := [];
    for b := 0 to |batches|
      invariant records == RecordsOf(redis, Flatten(batches[..b]))
    {
      assert batches[..b+1][..b] == batches[..b];
      RecordsOfConcat(redis, Flatten(batches[..b]), batches[b]);
      if batches[b] == [] {
        continue;
      }
      var batch := ReadBatch(redis, batches[b]);
      records := records + batch;
    }
    assert batches[..|batches|] == batches;
  }

  /** Chunking the cluster scan: the batches concatenate to the stream, all but the last have the full size and none is
      empty. A size below one gives batches of one key. */
  method ChunkKeys(stream: seq<RawKey>, batchSize: int) returns (batches: seq<seq<RawKey>>)
    ensures Flatten(batches) == stream
    ensures Chunked(batches, Max(1, batchSize))
  {
    batches := [];
    var batch: seq<RawKey> := [];
    for i := 0 to |stream|
      invariant Flatten(batches) + batch == stream[..i]
      invariant |batch| < Max(1, batchSize)
      invariant forall j :: 0 <= j < |batches| ==> |batches[j]| == Max(1, batchSize)
    {
      batch := batch + [stream[i]];
      assert stream[..i+1] == stream[..i] + [stream[i]];
      assert Flatten(batches) + batch == stream[..i+1];
      if |batch| >= batchSize {
        FlattenAppend(batches, batch);
        batches := batches + [batch];
        batch := [];
      }
    }
    assert stream[..|stream|] == stream;
    if batch != [] {
      FlattenAppend(batches, batch);
      batches := batches + [batch];
    }
  }

  // ----- What the record sequence holds -----

  lemma {:induction false} RecordsMembers(redis: Redis, keys: seq<RawKey>)
    ensures forall r :: r in RecordsOf(redis, keys) ==>
              exists k :: k in keys && Present(redis, k) && r == RecordOf(redis, k)
    ensures forall k :: k in keys && Present(redis, k) ==> RecordOf(redis, k) in RecordsOf(redis, keys)
  {
    if keys != [] {
      var n := |keys| - 1;
      RecordsMembers(redis, keys[..n]);
      assert keys[n] in keys;
      assert forall k :: k in keys <==> k in keys[..n] || k == keys[n];
    }
  }

  /** Two records of one snapshot with the same decoded key are the same record: a repeated key is read alike. */
  lemma OneRecordPerKey(redis: Redis, keys: seq<RawKey>, r1: RedisRecord, r2: RedisRecord)
    requires r1 in RecordsOf(redis, keys) && r2 in RecordsOf(redis, keys) && r1.key == r2.key
    ensures r1 == r2
  {
    RecordsMembers(redis, keys);
    var k1 :| k1 in keys && Present(redis, k1) && r1 == RecordOf(redis, k1);
    var k2 :| k2 in keys && Present(redis, k2) && r2 == RecordOf(redis, k2);
    Utf8.DecodeOrKeepInjective(k1, k2);
  }
}
