# redis2aerospike: a verified model

`redis2aerospike` copies a Redis keyspace into Aerospike. One producer streams records from a
`SCAN` onto a bounded queue; worker threads convert them, throttle themselves on a shared token
bucket and write them, one at a time or in batches, under one of three record-exists policies.

This project models that pipeline in Dafny and proves what it promises.

| file | what it holds |
|---|---|
| `Models.dfy`, `Sequences.dfy` | records, keys, values, sink settings; sequences: repeats, chunks, sums |
| `Utf8.dfy`, `Numerals.dfy` | strict UTF-8 (section 4 of RFC 3629) and decimal integers, with their inverses |
| `Coercion.dfy`, `Members.dfy`, `Converters.dfy` | scalar coercion, TTLs, set ordering, the built-in converters |
| `Routing.dfy` | glob routes, key stripping, key collisions |
| `RedisSource.dfy` | pipelined reads and chunking |
| `Server.dfy`, `Sink.dfy`, `BatchWriter.dfy`, `BatchRefinement.dfy` | the abstract server, operation lists, `write_many`, and its comparison with single writes |
| `RateLimit.dfy` | the token bucket |
| `Stats.dfy` | the counters |
| `Pipeline.dfy` | the pipeline as a transition system |
| `Accounting.dfy`, `Shutdown.dfy`, `Independence.dfy`, `Report.dfy`, `Duplicates.dfy`, `Recovery.dfy`, `WorkerRuns.dfy`, `Throttling.dfy` | what every run keeps, and the main results about whole runs |
| `Migrator.dfy` | `_produce`, `_prepare`, `_write_one`, `_flush`, `_worker_loop`, and the end-to-end result |

Code that updates things step by step is modelled by classes and methods (`TokenBucket`,
`MigrationStats`, `TtlPolicy`, `WorkerThread`, `WriteMany`, `IterRecords`, ...), each proved against a
specification. The concurrent whole is a transition system: a state holds what the threads share and
where each thread is, an event is one atomic step together with what the environment decided (the
server's reply, the clock reading), and a run is any sequence of enabled events. Results about runs
therefore hold for every interleaving, worker count, batch size, queue size, clock and server.

The main results:

* **Schedule independence** (`Independence.ScheduleIndependence`, `Migrator.EndToEnd`): every complete
  clean run leaves the store of one sequential convert-and-write loop, and every clean run can be
  continued to a complete one (`Independence.CleanRunsCanFinish`).
* **Reports** (`Report.ReportIndependence`, `Duplicates.TuningsReportAlike`): the whole report of a complete
  clean run, breakdowns included, is a function of the source and the number of records migrated. That number
  is a function of the source too, unless the policy is CREATE_ONLY; then it lies between the number of new keys
  and the number of their records, both ends are reached (`Duplicates.MigratedBounds`,
  `Duplicates.OneBatchReportsAll`), and all tunings report alike if and only if the new keys are distinct.
* **Recovery** (`Recovery.RerunCompletes`, `Recovery.ReportTellsStore`): after any number of attempts broken off
  anywhere, one clean run from the start leaves the store of the sequential loop on the original store. A complete
  run whose source did not raise, and whose server says "exists" only of keys it holds, leaves that store if it
  reports no more errors than the source is due, whatever failed on the way.
* **Shutdown** (`Shutdown.EveryRunCanFinish`, `Shutdown.NothingIsLost`): no reachable state is stuck,
  every run is bounded, and at the end every scanned record has been counted exactly once.
* **Batching** (`BatchRefinement.BatchRefinesOneByOne`): exactly when one batch leaves the store of
  single writes.
* **Throttling** (`RateLimit.BucketWindowBound`, `Throttling.AggregateWriteLimit`): sharp bounds on what
  the token bucket grants and on the writes all workers start.
* **The stored record** (`RedisSource.ReadsItsValue`, `Coercion.ScalarMeaning`, `Coercion.TtlMeaning`,
  `Converters.ConversionMeaning`, `Sink.WriteLeavesRecord`, `Sink.WriteLeavesValue`, carried through by
  `Migrator.EndToEnd`): which command reads a key, what its value and its TTL become, and what a write leaves.
* **Placement** (`Routing.ResolveMeaning`, `Routing.CollisionsOfAnyRouter`, `Routing.CollisionsCharacterised`): where
  a key goes, and exactly which two Redis keys share an Aerospike record, for any router and, more sharply, for one whose destinations are named, distinct
  and different from the default set.

## Where the code and its documentation differ

The model follows the code.

* `write_many` says that collapsing duplicate keys to the last one matches sequential single writes. That
  holds under REPLACE; under UPDATE and CREATE_ONLY it holds exactly under
  `BatchRefinement.Collapsible`, and `BatchRefinement.CollapsingLosesData` gives inputs where it fails.
  Under CREATE_ONLY the counters differ as well (`BatchRefinement.ReportsAgree`): every duplicate of a
  fresh key in one batch is reported as migrated, so what a whole migration reports depends on its tuning
  (`Duplicates.ScannedTwice` gives a source, `Duplicates.TuningsReportAlike` the exact condition).
* The tuning guide allows the write limiter a burst of one second's worth of the rate. The code widens
  it to a whole batch: with a limit of one record a second and batches of two, two writes start at once
  (`Throttling.BurstOfTwo`). Every run keeps to the documented burst if and only if a batch is no larger than the
  limit (`Throttling.DocumentedBurst`).
* The transfer guide says that CREATE_ONLY counts an existing record as skipped. Single mode tells such a record by
  exception class or code, batch mode by code alone, so a failure of that class whose code is unknown is skipped by
  one and an error for the other (`Pipeline.ModesDiffer` gives one, `Pipeline.ModesCountAlike` the exact condition).
* Integer coercion promises no silent data changes. The pattern's end anchor accepts a trailing newline, `-0` loses
  its sign, and digits of other scripts become ASCII digits (`Coercion.CoercionChangesData`);
  `Coercion.CoercedIntegersPrint` shows that these are all the changes.
* TTLs are meant never to collide with the reserved values. In CLAMP mode a limit of 0xFFFFFFFD or 0xFFFFFFFE, which
  the configuration accepts, is sent as it is (`Coercion.ClampReachesSentinels`); `Coercion.TtlsAreSafe` gives the
  exact condition.
* `TtlPolicy` documents its single warning for the non-rejecting modes; the code warns once in REJECT
  mode too, and so does the model.

## Model

| member | source | states |
|---|---|---|
| `Utf8.DecodeAfterEncode` | redis_to_aerospike/redis_source.py:304-314 | strict decoding inverts encoding |
| `Utf8.EncodeAfterDecode` | redis_to_aerospike/redis_source.py:304-314 | whatever strict decoding accepts is recovered by encoding it again |
| `Utf8.EncodedExamples` | redis_to_aerospike/redis_source.py:304-314 | the encodings of one character of each length |
| `Utf8.DecodesIffEncoding` | redis_to_aerospike/redis_source.py:304-314 | the byte strings accepted by the table of well-formed sequences are exactly the encodings of strings |
| `Utf8.DecodeOrKeepInjective` | redis_to_aerospike/converters/base.py:75-88 | text with a raw-bytes fallback keeps distinct keys and members distinct |
| `Utf8.KeptAsTextOrBytes` | redis_to_aerospike/redis_source.py:304-314 | the encoding of a text is kept as that text, and bytes that encode none are kept as they are |
| `Utf8.ReplaceInjectiveOnValid` | redis_to_aerospike/converters/hash_converter.py:23-26 | lossy decoding is injective on valid UTF-8 |
| `Utf8.ReplaceCollapses` | redis_to_aerospike/converters/hash_converter.py:23-26 | lossy decoding makes two different malformed names the same |
| `Utf8.MalformedIsMaximal` | redis_to_aerospike/converters/hash_converter.py:23-26 | one replacement character stands for the longest start of a well-formed sequence |
| `Numerals.PrintedIntParses` | redis_to_aerospike/converters/base.py:25-57 | printing any integer gives a text the strict pattern accepts and that parses back to it |
| `Numerals.ParsedIntPrints` | redis_to_aerospike/converters/base.py:25-57 | an accepted text is recovered by printing its value if and only if it is not `-0` and all its digits are ASCII |
| `Coercion.PrintedIntegersCoerce` | redis_to_aerospike/converters/base.py:28-60 | the decimal text of every integer becomes that integer inside signed 64 bits and stays the same text outside |
| `Coercion.CoercedIntegersPrint` | redis_to_aerospike/converters/base.py:34-60 | a text that became an integer is recovered by printing if and only if it is ASCII, not `-0`, and does not end in a newline |
| `Coercion.CoercionChangesData` | redis_to_aerospike/converters/base.py:25-60 | three different texts that become the same integer, and a digit of another script that becomes an ASCII one |
| `Coercion.KeptVerbatim` | redis_to_aerospike/converters/base.py:34-66 | a value kept as text or as a blob still determines the bytes that were read |
| `Coercion.ScalarMeaning` | redis_to_aerospike/converters/base.py:34-66 | bytes become an integer or a float exactly when their text reads as one, any other text stays that text, and bytes that are no text stay those bytes |
| `Coercion.OnlyNumbersCollapse` | redis_to_aerospike/converters/base.py:34-66 | two byte strings that read as no number are coerced alike only if they are equal |
| `Coercion.TtlMeaning` | redis_to_aerospike/converters/base.py:133-164 | no expiry is never-expire in every mode; above a limit REJECT rejects, NEVER_EXPIRE never expires and CLAMP gives the limit; otherwise the least seconds that cover the TTL, saturated; a rejection occurs in no other case |
| `Coercion.TtlsAreSafe` | redis_to_aerospike/converters/base.py:133-164 | for every Redis TTL the result is a rejection, never-expire or a real TTL, if and only if the mode is not clamp or the limit itself is safe |
| `Coercion.ClampReachesSentinels` | redis_to_aerospike/converters/base.py:69-72 | an enormous TTL clamped to a reserved value, for two limits |
| `Coercion.TtlsAreMonotone` | redis_to_aerospike/converters/base.py:133-164 | a longer Redis TTL never gives a shorter Aerospike TTL |
| `Coercion.TtlsAreNeverEarly` | redis_to_aerospike/converters/base.py:133-139 | unless clamped, a record expires no earlier than in Redis and less than a second later |
| `Coercion.TtlPolicy.Convert` | redis_to_aerospike/converters/base.py:133-171 | one conversion through the shared policy gives what the TTL means, and when it warns |
| `Coercion.ConvertAll` | redis_to_aerospike/converters/base.py:119-171 | over any interleaving of conversions each gives what its own TTL means; once all have returned one warning is logged if some TTL was too long and none otherwise |
| `Members.PrintInjective` | redis_to_aerospike/converters/set_converter.py:19-22 | the printed form of raw bytes determines the bytes, so the sort key separates members |
| `Members.LessIsTotal` | redis_to_aerospike/converters/set_converter.py:19-22 | the sort key orders any two distinct members |
| `Members.LessMeaning` | redis_to_aerospike/converters/set_converter.py:19-22 | raw bytes come before text, text is ordered as such and raw bytes by how they print |
| `Members.TextLessMeaning` | redis_to_aerospike/converters/set_converter.py:19-22 | a text is less when it starts the other or has the smaller character where the two first differ |
| `Members.PlainBytesPrint` | redis_to_aerospike/converters/set_converter.py:19-22 | printable bytes without a single quote or backslash print as themselves |
| `Members.HexBytesPrint` | redis_to_aerospike/converters/set_converter.py:19-22 | bytes outside the printable range print as two hexadecimal digits, but for those with escapes of their own |
| `Members.SortForgetsOrder` | redis_to_aerospike/converters/set_converter.py:28-30 | sorting gives the same list for every iteration order |
| `Converters.SetKeepsSize` | redis_to_aerospike/converters/set_converter.py:28-30 | a set becomes a list of the same size without repeats |
| `Converters.SetKeepsMembers` | redis_to_aerospike/converters/set_converter.py:28-30 | the list holds exactly the decoded members |
| `Converters.SetListForgetsOrder` | redis_to_aerospike/converters/set_converter.py:28-30 | the list is the same for every iteration order of the set |
| `Converters.SetMeaning` | redis_to_aerospike/converters/set_converter.py:28-30 | a text is in the list exactly when its encoding is a member, bytes when they are a member and no text |
| `Converters.SetListOrdered` | redis_to_aerospike/converters/set_converter.py:28-30 | raw bytes come first in the list, texts follow in their order |
| `Converters.DictionaryMeaning` | redis_to_aerospike/converters/hash_converter.py:55-56 | a dictionary has each key once, with the value assigned last |
| `Converters.ScoreMap` | redis_to_aerospike/converters/zset_converter.py:31-35 | the loop builds a dictionary with one entry per member, in order, with that member's score |
| `Converters.ScoreMeaning` | redis_to_aerospike/converters/zset_converter.py:22-35 | a member is its text or its bytes, a finite score a double and any other score text |
| `Converters.HashKeepsFields` | redis_to_aerospike/converters/hash_converter.py:55-56 | a hash with valid UTF-8 fields keeps one entry per field, in order |
| `Converters.HashFieldMeaning` | redis_to_aerospike/converters/hash_converter.py:23-56 | a valid field is its text and its value is coerced as a scalar |
| `Converters.HashKeepsCount` | redis_to_aerospike/converters/hash_converter.py:55-56 | a hash keeps as many entries as fields if and only if no two fields read the same after replacement |
| `Converters.BinaryFieldsCollapse` | redis_to_aerospike/converters/hash_converter.py:23-26 | two malformed fields that end in one entry |
| `Converters.FieldBins` | redis_to_aerospike/converters/hash_converter.py:58-69 | the loop rejects exactly when some bin name exceeds 15 bytes, and otherwise every name fits |
| `Converters.FieldBinsKeepFields` | redis_to_aerospike/converters/hash_converter.py:58-69 | distinct valid fields give one bin each, in order |
| `Converters.ConversionMeaning` | redis_to_aerospike/converters/base.py:188-199 | when a conversion fails and with which exception; otherwise the key is kept, the TTL is what it means, and the bins hold the value, type by type and layout by layout |
| `Converters.ConvertedTtlIsSafe` | redis_to_aerospike/converters/base.py:188-199 | end to end, a built-in conversion rejects or sends never-expire or a real TTL |
| `Routing.SingleStarMatch` | redis_to_aerospike/set_routing.py:27-45 | a single-star pattern matches exactly the keys with its prefix, its suffix and room for both |
| `Routing.GlobMeaning` | redis_to_aerospike/set_routing.py:27-32 | a key matches a pattern exactly when it can be cut into parts its characters stand for |
| `Routing.StripRoundTrip` | redis_to_aerospike/set_routing.py:20-45 | the user key is a non-empty body that the literals complete to the Redis key, or the whole key |
| `Routing.StripGivesBody` | redis_to_aerospike/set_routing.py:20-45 | between two literals around one star the body is left, or the whole key when the body is empty |
| `Routing.StripKeepsWhole` | redis_to_aerospike/set_routing.py:20-26 | any other pattern takes nothing off |
| `Routing.FirstMatch` | redis_to_aerospike/set_routing.py:55-67 | the route taken matches and no earlier one does |
| `Routing.ResolveMeaning` | redis_to_aerospike/set_routing.py:55-67 | the first matching route decides destination, layout and bin and its pattern the key; without one, and for raw bytes, the key goes whole to the default set |
| `Routing.CollisionsCharacterised` | redis_to_aerospike/set_routing.py:48-67 | with named destinations, distinct and different from the default set, two distinct keys share a record key if and only if one single-star route L*R takes both and they are L+R and L+L+R+R |
| `Routing.CollisionsOfAnyRouter` | redis_to_aerospike/set_routing.py:20-67 | for any router, two keys share a record key if and only if their sets are the same and they are one key, or texts in which each one's own literals enclose the same body |
| `Routing.ByteKeyCollisions` | redis_to_aerospike/redis_source.py:304-314 | the same for the byte strings Redis returns |
| `Routing.FallbackCollides` | redis_to_aerospike/set_routing.py:44-45 | such a pair exists |
| `Routing.SharedDestinationCollides` | redis_to_aerospike/set_routing.py:58-66 | without distinct destinations other keys collide |
| `RedisSource.FetchTypesAndTtls` | redis_to_aerospike/redis_source.py:254-270 | every key gets its own TYPE and PTTL reply, repeated keys included |
| `RedisSource.FetchValues` | redis_to_aerospike/redis_source.py:272-296 | every key that is not gone gets its own value, although keys typed `none` shift the positions |
| `RedisSource.ReadsItsValue` | redis_to_aerospike/redis_source.py:184-296 | a key of one of the five types yields one record with what its type's own command replies and its own TTL, unless the reply is missing or an empty collection |
| `RedisSource.ReadsItsType` | redis_to_aerospike/redis_source.py:184-296 | a key of another type yields one record that names it, unless it is `none` |
| `RedisSource.RecordsKeyByKey` | redis_to_aerospike/redis_source.py:184-207 | the records of a scan are those of its keys, one after the other |
| `RedisSource.IterRecords` | redis_to_aerospike/redis_source.py:184-218 | for every batching, one record per present occurrence, in scan order, with its own type, TTL and value |
| `RedisSource.OneRecordPerKey` | redis_to_aerospike/redis_source.py:184-207 | records of one snapshot with the same key are the same record |
| `RedisSource.ChunkKeys` | redis_to_aerospike/redis_source.py:241-252 | the chunks concatenate to the stream and all but the last are full |
| `Server.AppendAbsentMembers` | redis_to_aerospike/aerospike_sink.py:505-522 | unique append leaves exactly the old and new members, each once |
| `Sink.MapsStoreAlike` | redis_to_aerospike/aerospike_sink.py:240-255 | two dicts are stored alike if and only if they have the same entries, in whatever order they were filled |
| `Sink.TooLargeMeaning` | redis_to_aerospike/aerospike_sink.py:309-349 | a record is too large exactly when the bytes of its names and values are more than the limit |
| `Sink.BuildOps` | redis_to_aerospike/aerospike_sink.py:481-525 | on any prior bins, running the built list leaves them with the record's content on top |
| `Sink.SettledAt` | redis_to_aerospike/aerospike_sink.py:517-525 | a unique-list bin ends with exactly the given members and no repeats, any other bin with its value |
| `Sink.OpsIdempotent` | redis_to_aerospike/aerospike_sink.py:501-525 | running the list twice equals running it once |
| `Sink.WritesMerge` | redis_to_aerospike/aerospike_sink.py:351-379 | `put`, `operate` and a batch sub-command leave the same record under every policy |
| `Sink.WriteLeavesRecord` | redis_to_aerospike/aerospike_sink.py:259-272 | a small record's write leaves its own TTL, or 0 without one, its own bins and under UPDATE the others found; CREATE_ONLY keeps a record it finds; no other key changes |
| `Sink.WriteLeavesValue` | redis_to_aerospike/aerospike_sink.py:240-257 | each bin holds its value: a unique list its members once each, a map its entries, any other value itself |
| `Sink.MergeIdempotent` | redis_to_aerospike/aerospike_sink.py:259-272 | writing the same record again changes nothing under every policy |
| `BatchWriter.WriteMany` | redis_to_aerospike/aerospike_sink.py:388-447 | one outcome per record; each key of a small record is sent once, from its last slot; every position gets its own key's reply or the size error |
| `BatchWriter.AllTooLargeSendsNothing` | redis_to_aerospike/aerospike_sink.py:414-424 | nothing is sent if and only if every record is too large |
| `BatchWriter.ReasonMeaning` | redis_to_aerospike/aerospike_sink.py:449-466 | when a reply reads as success, when as an existing record, and how any other is worded |
| `BatchWriter.ReasonsTellFailuresApart` | redis_to_aerospike/aerospike_sink.py:463-466 | the failure text determines the result code and the in-doubt flag |
| `BatchRefinement.PlanLeavesBatchStore` | redis_to_aerospike/aerospike_sink.py:426-437 | executing the planned commands merges each key's winner over what the key held |
| `BatchRefinement.BatchRefinesOneByOne` | redis_to_aerospike/aerospike_sink.py:388-447 | the batch leaves the store of single writes, from every store, if and only if REPLACE, or UPDATE and each key's last record covers the bins of the earlier ones, or CREATE_ONLY and each key's first and last record store alike |
| `BatchRefinement.CollapsingLosesData` | redis_to_aerospike/aerospike_sink.py:396-402 | two-record batches that leave another store than single writes under UPDATE and CREATE_ONLY |
| `BatchRefinement.ReportsAgree` | redis_to_aerospike/aerospike_sink.py:443-447 | batch and single writes report alike from every store if and only if not CREATE_ONLY or keys are distinct |
| `RateLimit.TokenBucket.constructor` | redis_to_aerospike/ratelimit.py:28-35 | a new bucket is full; its capacity defaults to the rate |
| `RateLimit.TokenBucket.Acquire` | redis_to_aerospike/ratelimit.py:37-62 | the new balance and the wait of one acquire; a disabled bucket changes nothing |
| `RateLimit.RefinesVirtualScheduling` | redis_to_aerospike/ratelimit.py:45-62 | refill and deficit equal the recurrence on finish times, and the grant is at the later of now and the finish time |
| `RateLimit.NoOvertaking` | redis_to_aerospike/ratelimit.py:45-62 | grant times never decrease in lock order |
| `RateLimit.NewBucketBound` | redis_to_aerospike/ratelimit.py:28-62 | tokens granted by any time are at most the capacity plus the rate times the time elapsed |
| `RateLimit.BucketWindowBound` | redis_to_aerospike/ratelimit.py:45-62 | tokens granted in any interval are at most the larger of the capacity and its first request, plus the rate times its length |
| `RateLimit.NoNeedlessWait` | redis_to_aerospike/ratelimit.py:52-62 | a caller that waits is held exactly until the requests since some earlier call fill the allowance |
| `Stats.BumpAddsOne` | redis_to_aerospike/stats.py:43-51 | counting one reason raises the breakdown's total by one |
| `Stats.MigrationStats.RecordSkipped` | redis_to_aerospike/stats.py:43-46 | the new counters, and that the breakdown still adds up |
| `Stats.MigrationStats.RecordError` | redis_to_aerospike/stats.py:48-51 | the new counters, and that the breakdown still adds up |
| `Pipeline.ModesCountAlike` | redis_to_aerospike/migrator.py:187-232 | single and batch mode count a reply alike if and only if the policy is not CREATE_ONLY, the reply is OK, its code means "exists", or its exception class does not |
| `Pipeline.ModesDiffer` | redis_to_aerospike/aerospike_sink.py:293-308 | a failure that single mode counts as existing and batch mode as an error |
| `Pipeline.EnvironmentIsFree` | redis_to_aerospike/migrator.py:187-232 | in a write call any reply may come for any pending key and any failure may be applied or not, the call may raise, the source may raise, and the clock may show any later time |
| `Accounting.RunKeepsInvariant` | redis_to_aerospike/migrator.py:87-143 | the inductive invariant over buffers, stop markers and counters holds in every reachable state |
| `Shutdown.Conservation` | redis_to_aerospike/migrator.py:112-232 | in every reachable state scanned equals migrated, skipped and errors plus the records still held, and both breakdowns add up |
| `Shutdown.InFlightBound` | redis_to_aerospike/migrator.py:71-143 | a worker holds at most a batch, and scanned minus counted is at most queue size plus workers times batch size plus one |
| `Shutdown.NoDeadlock` | redis_to_aerospike/migrator.py:87-143 | before the end some event can happen that is no failure |
| `Shutdown.StepsRunOut` | redis_to_aerospike/migrator.py:87-143 | every step uses up part of a measure |
| `Shutdown.EveryRunCanFinish` | redis_to_aerospike/migrator.py:87-143 | every reachable state is final or can go on without failures, final states are exactly the stuck ones, and runs are bounded |
| `Shutdown.RecordsBeforeStops` | redis_to_aerospike/migrator.py:91-96 | once a worker has taken a stop marker no record is queued or to be put |
| `Shutdown.NothingIsLost` | redis_to_aerospike/migrator.py:87-143 | at the end each worker has taken one stop marker, queue and buffers are empty, and every scanned record is counted, even if the source raised |
| `Independence.AlikeCollapses` | redis_to_aerospike/migrator.py:118-143 | for records alike per key the sequential loop leaves one merged record per key |
| `Independence.ScheduleIndependence` | redis_to_aerospike/migrator.py:112-232 | every complete clean run leaves the store of the sequential loop, under each policy |
| `Independence.TuningDoesNotMatter` | redis_to_aerospike/migrator.py:64-85 | two complete clean runs with different tuning and schedules leave the same store |
| `Independence.FinalKeys` | redis_to_aerospike/migrator.py:112-232 | every complete clean run leaves exactly the keys the store had and those of the source, alike or not |
| `Independence.CleanRunsCanFinish` | redis_to_aerospike/migrator.py:87-143 | every clean run can go on cleanly to the end |
| `Report.ReportIndependence` | redis_to_aerospike/migrator.py:145-232 | the whole report of a complete clean run, breakdowns included, follows from the source and the number migrated, and that number from the source unless the policy is CREATE_ONLY |
| `Report.MigratedDecidesReport` | redis_to_aerospike/migrator.py:145-232 | two tunings that report as many records migrated report the same in every counter and breakdown |
| `Duplicates.MigratedBounds` | redis_to_aerospike/migrator.py:187-232 | a complete clean CREATE_ONLY run creates exactly the new keys, reports at least one record for each and at most every record of each, and in single mode one for each |
| `Duplicates.OneBatchReportsAll` | redis_to_aerospike/aerospike_sink.py:439-447 | one worker with a batch for the whole source reports every record of every new key as migrated |
| `Duplicates.TuningsReportAlike` | redis_to_aerospike/migrator.py:64-85 | all complete clean runs of all tunings report the same if and only if the policy is not CREATE_ONLY or the new keys are distinct; otherwise the numbers migrated differ |
| `Duplicates.ScannedTwice` | redis_to_aerospike/aerospike_sink.py:396-402 | a key scanned twice: single writes report migrated 1 and skipped 1, one batch of two reports migrated 2 |
| `Recovery.RerunCompletes` | docs/04-transferring-data.md:171-173 | after any attempts broken off anywhere, doubtful writes included, a complete clean run from the start leaves the sequential store of the original store and reports no error but those of the source |
| `Recovery.SequentialIdempotent` | docs/04-transferring-data.md:152-169 | migrating a second time changes nothing, under each policy |
| `Recovery.ReportTellsStore` | redis_to_aerospike/migrator.py:187-232 | a complete run whose source did not raise, and whose server says "exists" only of keys it holds, reports at least the errors of the source; if it reports no more, or none, it leaves the sequential store, whatever write calls failed or raised |
| `WorkerRuns.WorkerFlushes` | redis_to_aerospike/migrator.py:118-143 | in every complete run each worker has flushed the records it took, converted and in order, in full batches and one last partial one |
| `WorkerRuns.LoopMakesTheFlushes` | redis_to_aerospike/migrator.py:118-143 | the calls that the worker's loop makes on those records are exactly these flushes |
| `Throttling.AggregateWriteLimit` | redis_to_aerospike/migrator.py:187-213 | in every reachable state the writes started by all workers are at most the larger of limit and batch size, plus the limit times the time elapsed |
| `Throttling.DocumentedBurst` | docs/05-running-and-tuning.md:74-78 | every run stays within one second's worth of the limit plus the limit times the time if and only if the batch size is at most the limit |
| `Throttling.BurstOfTwo` | docs/05-running-and-tuning.md:74-78 | with limit 1 and batch size 2 a run starts two writes at time zero |
| `Throttling.AcquiresFitCapacity` | redis_to_aerospike/migrator.py:77-85 | no acquire exceeds the capacity, so in every interval the grants stay within the allowance |
| `Migrator.PreparedAsRouted` | redis_to_aerospike/migrator.py:145-185 | a prepared record is written in the set of the first matching route, unless that is unnamed, under the key its pattern leaves, and without a route whole in the default set |
| `Migrator.PreparedHolds` | redis_to_aerospike/migrator.py:145-185 | it holds its value in the layout and bin its route asks for or else the configured ones, with the TTL its Redis TTL means |
| `Migrator.UnpreparedReasons` | redis_to_aerospike/migrator.py:163-178 | a record is skipped under its type's name without a converter, and fails for a field name or its TTL, in this order, under these names |
| `Migrator.Produce` | redis_to_aerospike/migrator.py:87-116 | the records yielded are put in order and counted as scanned, then one stop marker for each worker, also when the source raised |
| `Migrator.WorkerThread.Prepare` | redis_to_aerospike/migrator.py:145-185 | a record that is not written is counted once, by reason |
| `Migrator.WorkerThread.WriteSingle` | redis_to_aerospike/migrator.py:187-201 | one count per single write, by what the sink did |
| `Migrator.WorkerThread.Flush` | redis_to_aerospike/migrator.py:203-232 | one count per buffered record, by its outcome, also when the whole batch failed |
| `Migrator.WorkerThread.WorkerLoop` | redis_to_aerospike/migrator.py:118-143 | for any answers of the sink, the calls are the prepared records in order in full batches and one last partial one, the counters are those of the records not written and of the answers to the calls, and every dequeued record is counted once |
| `Migrator.AnswerGivesVerdict` | redis_to_aerospike/aerospike_sink.py:351-386 | what `write` does for a reply gives the verdict the transition system counts in single mode |
| `Migrator.RaisesGiveVerdicts` | redis_to_aerospike/migrator.py:212-219 | a write call that raises gives every buffered record the same refusal |
| `Migrator.OutcomesGiveVerdicts` | redis_to_aerospike/migrator.py:221-232 | the outcomes promised by the batch writer give the verdicts the transition system counts |
| `Migrator.ScanIsAlike` | redis_to_aerospike/migrator.py:145-185 | if no two present scanned keys are placed under one record key, scanned records are alike wherever they share one |
| `Migrator.DistinctDestinationsSeparate` | redis_to_aerospike/migrator.py:145-185 | with distinct destinations that is so if and only if no two of them are a fallback pair |
| `Migrator.EndToEnd` | redis_to_aerospike/migrator.py:87-143 | a complete clean migration leaves the sequential store; every key that converts and fits is found under its own record key as one write leaves it, with the TTL its own Redis TTL means, or as CREATE_ONLY found it; no other record changes |

## Left out

- The Redis and Aerospike clients, connections, TLS, authentication and server information: foreign calls. Redis is a function from requests to replies, Aerospike an abstract store with arbitrary replies per key.
- A write that the server applies only after the client has given up on it: once a write call has raised, its commands are over.
- `SCAN` itself: which keys it returns is the server's promise, so the scanned keys are an input, repeats included.
- The scan limiter: it only delays the producer. It is the same token bucket, with its capacity equal to its rate.
- Transforms and custom converters: `Pipeline.Config.prepare` is any function that does not raise; the end-to-end result is for the built-in converters without transforms.
- Floating point: float texts and their finite values are a parameter (`Coercion.NumberFormat`), and TTL division is exact.
- Server.RunOp: a unique-list bin keeps the order of first insertion; the server's own element order for ordered lists is not modelled, nor is appending to a bin that is no list, which the preceding reset rules out.
- Sink.EncodeForWrite: only the outermost map is wrapped, as in the code; a map inside another value keeps its insertion order, and no built-in converter makes one.
- Sink.ItemsOf: a unique-list bin that does not hold a list reads as empty; only the set converter marks bins so, and it always writes a list.
- RedisSource.TypeName: a TYPE reply that is no byte string is passed on as an unsupported type under an empty name, where the code counts it under the reply itself.
- Coercion.CoerceText: which characters beyond ASCII are decimal digits is a parameter, and integers of any length are parsed.
- Recovery.RerunCompletes: the source yields the same records each time; TTLs that run down between attempts are not modelled.
- Routing.Matches: patterns with brackets are decided by a parameter, since they never rewrite a key; matching is case-sensitive.
- Migrator.WorkerThread.Prepare: conversion and placement are the configured function, which `Migrator.PrepareRecord` gives for the built-in converters; the method is the counting around it.
- Migrator.WorkerThread.WriteSingle: the wait for the limiter is a step of the transition system and the call's result a parameter, given by `Migrator.WriteAnswer` for a reply.
- Duplicates.TuningsReportAlike: assumes a code by which the client recognises an existing record under CREATE_ONLY; without one no clean run gets past a key that exists.
- Converters.ConvertRecord: a record's type is the shape of its value, so a value that contradicts its type cannot be stated.
- Configuration files, command line, progress thread, log lines and the printed report: user interface.
- The sample data scripts.
