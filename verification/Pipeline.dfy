/**
 The migration pipeline as a transition system (redis_to_aerospike/migrator.py): one producer, a
 bounded FIFO queue, workers with private buffers, one stop marker per worker and a flush on exit.

 A state holds what the threads share and where each thread is; an event is one atomic step of one
 thread together with what the environment decided (the server's reply, the clock reading). A run is
 any sequence of enabled events, so every interleaving and every server behaviour is covered.
 */
module Pipeline {
  import opened Models
  import opened Server
  import opened Sink
  import opened BatchWriter
  import opened RateLimit
  import opened Stats

  /** What `_prepare` makes of a record: a record to write, or a count and nothing to write. */
  datatype Prepared = Ready(record: AerospikeRecord) | Unsupported(reason: string) | Failed(reason: string)

  datatype Config = Config(
    workers: int,
    batchSize: int,
    queueSize: int,
    writeRate: real,
    startTime: real,
    sink: SinkConfig,
    prepare: RedisRecord -> Prepared)

  function WorkerCount(c: Config): (n: nat)
    ensures n >= 1
  {
    Max(1, c.workers)
  }

  function BatchSize(c: Config): (n: nat)
    ensures n >= 1
  {
    Max(1, c.batchSize)
  }

  /** The write limiter's burst is widened to fit a whole batch. */
  function NewLimiter(c: Config): Bucket {
    NewBucket(c.writeRate, Some(RMax(c.writeRate, BatchSize(c) as real)), c.startTime)
  }

  datatype Item = Record(record: RedisRecord) | Stop

  datatype Producer =
    | Fetching
    | Holding(record: RedisRecord, counted: bool)
    | Stopping(left: nat)
    | Done

  /** The count a written record ends in. */
  datatype Verdict = WasMigrated | WasPresent | WasRefused(reason: string)

  datatype Phase =
    | Idle
    | Got(record: RedisRecord)
    | Throttling
    | Sleeping(ticket: nat)
    | Sending(pending: map<RecordKey, AerospikeRecord>, replies: map<RecordKey, Reply>)
    | Reporting(verdicts: seq<Verdict>)
    | Exited

  /** `stops` counts the stop markers the worker has taken. */
  datatype Worker = Worker(phase: Phase, buffer: seq<AerospikeRecord>, stops: nat)

  /** An entry of the write limiter's log: the call, when it is granted, and whether its write has started. */
  datatype Ticket = Ticket(now: real, tokens: nat, at: real, started: bool)

  datatype State = State(
    source: seq<RedisRecord>,
    producer: Producer,
    raised: bool,
    queue: seq<Item>,
    workers: seq<Worker>,
    tally: Tally,
    store: Store,
    clock: real,
    limiter: Bucket,
    log: seq<Ticket>,
    started: nat)

  function Init(c: Config, source: seq<RedisRecord>, store: Store): State {
    State(source, Fetching, false, [], seq(WorkerCount(c), i => Worker(Idle, [], 0)), EMPTY, store,
          c.startTime, NewLimiter(c), [], 0)
  }

  datatype Event =
    | Fetch
    | SourceRaises
    | SourceEnds
    | CountScanned
    | PutRecord
    | PutStop
    | Join
    | Take(w: nat)
    | Prepare(w: nat)
    | Throttle(w: nat, now: real)
    | Wake(w: nat, now: real)
    | Send(w: nat, key: RecordKey, reply: Reply, applied: bool)
    | Return(w: nat)
    | Raise(w: nat, reason: string)
    | Count(w: nat)

  /** A queue without a positive limit never blocks a put. */
  predicate CanPut(c: Config, s: State) {
    c.queueSize <= 0 || |s.queue| < c.queueSize
  }

  /** What the server may answer to a write and whether it applied it: OK means applied; CREATE_ONLY never
      applies over an existing record; any other failure leaves the application in doubt. */
  predicate ServerMay(c: Config, s: State, key: RecordKey, reply: Reply, applied: bool) {
    && (reply.code == 0 ==> applied)
    && (applied ==> Admits(c.sink.policy, Lookup(s.store, key)))
  }

  predicate CanHappen(c: Config, s: State, e: Event) {
    match e
    case Fetch => s.producer.Fetching? && s.source != []
    case SourceRaises => s.producer.Fetching?
    case SourceEnds => s.producer.Fetching? && s.source == []
    case CountScanned => s.producer.Holding? && !s.producer.counted
    case PutRecord => s.producer.Holding? && s.producer.counted && CanPut(c, s)
    case PutStop => s.producer.Stopping? && s.producer.left > 0 && CanPut(c, s)
    case Join => s.producer == Stopping(0) && forall w :: 0 <= w < |s.workers| ==> s.workers[w].phase.Exited?
    case Take(w) => w < |s.workers| && s.workers[w].phase.Idle? && s.queue != []
    case Prepare(w) => w < |s.workers| && s.workers[w].phase.Got?
    case Throttle(w, now) => w < |s.workers| && s.workers[w].phase.Throttling? && s.clock <= now
    case Wake(w, now) =>
      && w < |s.workers| && s.workers[w].phase.Sleeping? && s.clock <= now
      && s.workers[w].phase.ticket < |s.log| && s.log[s.workers[w].phase.ticket].at <= now
    case Send(w, key, reply, applied) =>
      && w < |s.workers| && s.workers[w].phase.Sending? && key in s.workers[w].phase.pending
      && ServerMay(c, s, key, reply, applied)
    case Return(w) => w < |s.workers| && s.workers[w].phase.Sending? && s.workers[w].phase.pending == map[]
    case Raise(w, _) => w < |s.workers| && s.workers[w].phase.Sending?
    case Count(w) => w < |s.workers| && s.workers[w].phase.Reporting? && s.workers[w].phase.verdicts != []
  }

  // ----- Verdicts -----

  /** The exception test of a single write: by class name, or by result code. */
  predicate MeansExists(cfg: SinkConfig, reply: Reply) {
    reply.exception == "RecordExistsError" || reply.code in cfg.existsCodes
  }

  function SingleVerdict(cfg: SinkConfig, reply: Reply): Verdict {
    if reply.code == 0 then WasMigrated
    else if cfg.policy == CreateOnly && MeansExists(cfg, reply) then WasPresent
    else WasRefused("write:" + reply.exception)
  }

  function BatchVerdict(cfg: SinkConfig, outcome: Option<string>): Verdict {
    if outcome.None? then WasMigrated
    else if cfg.policy == CreateOnly && outcome.value == RECORD_EXISTS then WasPresent
    else WasRefused("write:" + outcome.value)
  }

  /** The verdict of one buffered record once all replies are in: single mode writes alone, batch mode reads
      its key's reply from the batch. */
  function VerdictFor(c: Config, r: AerospikeRecord, replies: map<RecordKey, Reply>): Verdict {
    var key := KeyOf(c.sink, r);
    if TooLarge(c.sink, r) then WasRefused("write:" + TOO_LARGE)
    else if key !in replies then WasMigrated
    else ReplyVerdict(c, replies[key])
  }

  function ReplyVerdict(c: Config, reply: Reply): Verdict {
    if BatchSize(c) == 1 then SingleVerdict(c.sink, reply) else BatchVerdict(c.sink, BatchReason(c.sink, reply))
  }

  function Verdicts(c: Config, buffer: seq<AerospikeRecord>, replies: map<RecordKey, Reply>): (v: seq<Verdict>)
    ensures |v| == |buffer|
  {
    seq(|buffer|, i requires 0 <= i < |buffer| => VerdictFor(c, buffer[i], replies))
  }

  function Register(t: Tally, v: Verdict): Tally {
    match v
    case WasMigrated => Migrated(t)
    case WasPresent => Skipped(t, "exists")
    case WasRefused(reason) => Errored(t, reason)
  }

  /** Single and batch mode count a reply alike, as migrated, as present or as an error, unless CREATE_ONLY meets a
      failure that its exception class calls an existing record and its code does not. */
  lemma ModesCountAlike(cfg: SinkConfig, reply: Reply)
    ensures var one, many := SingleVerdict(cfg, reply), BatchVerdict(cfg, BatchReason(cfg, reply));
            (one.WasMigrated? == many.WasMigrated? && one.WasPresent? == many.WasPresent?)
              <==> cfg.policy != CreateOnly || reply.code == 0 || reply.code in cfg.existsCodes
                   || reply.exception != "RecordExistsError"
  {
    ReasonMeaning(cfg, reply);
  }

  /** Such a failure: single mode skips the record as existing, batch mode reports an error. */
  lemma ModesDiffer(cfg: SinkConfig)
    requires cfg.policy == CreateOnly && 5 !in cfg.existsCodes
    ensures var reply := Reply(5, false, "RecordExistsError");
            SingleVerdict(cfg, reply) == WasPresent && BatchVerdict(cfg, BatchReason(cfg, reply)).WasRefused?
  {
    ReasonMeaning(cfg, Reply(5, false, "RecordExistsError"));
  }

  // ----- Steps -----

  function Settle(s: State, w: nat, worker: Worker): State
    requires w < |s.workers|
  {
    s.(workers := s.workers[w := worker])
  }

  /** Where a worker goes once its buffer has been flushed. */
  function AfterFlush(worker: Worker): Phase { if worker.stops > 0 then Exited else Idle }

  /** Taking the next queue item; a stop marker ends the loop, after a flush if records remain. */
  function DoTake(s: State, w: nat): State
    requires w < |s.workers| && s.queue != []
  {
    var worker := s.workers[w];
    var next := match s.queue[0]
                case Record(r) => worker.(phase := Got(r))
                case Stop => worker.(stops := worker.stops + 1, phase := if worker.buffer == [] then Exited
                      else Throttling);
    Settle(s.(queue := s.queue[1..]), w, next)
  }

  /** Converting: a skipped or failed record is counted at once, a ready one joins the buffer, which is
      flushed when full. In single mode the buffer is full with its first record. */
  function DoPrepare(c: Config, s: State, w: nat): State
    requires w < |s.workers| && s.workers[w].phase.Got?
  {
    var worker := s.workers[w];
    match c.prepare(worker.phase.record)
    case Unsupported(reason) => Settle(s.(tally := Skipped(s.tally, reason)), w, worker.(phase := Idle))
    case Failed(reason) => Settle(s.(tally := Errored(s.tally, reason)), w, worker.(phase := Idle))
    case Ready(r) =>
      var buffer := worker.buffer + [r];
      Settle(s, w, worker.(buffer := buffer, phase := if |buffer| >= BatchSize(c) then Throttling else Idle))
  }

  /** The critical section of the shared limiter's `acquire`: one token per buffered record. */
  function DoThrottle(s: State, w: nat, now: real): State
    requires w < |s.workers|
  {
    var n := |s.workers[w].buffer|;
    var call := Call(now, n as real);
    Settle(s.(clock := now,
              limiter := Taken(s.limiter, call),
              log := s.log + [Ticket(now, n, GrantTime(s.limiter, call), false)]),
           w, s.workers[w].(phase := Sleeping(|s.log|)))
  }

  /** The sleep is over and the write starts: one command per distinct key of the small records. */
  function DoWake(c: Config, s: State, w: nat, now: real): State
    requires w < |s.workers| && s.workers[w].phase.Sleeping? && s.workers[w].phase.ticket < |s.log|
  {
    var worker := s.workers[w];
    var t := worker.phase.ticket;
    Settle(s.(clock := now, started := s.started + |worker.buffer|, log := s.log[t := s.log[t].(started := true)]),
           w, worker.(phase := Sending(Winners(c.sink, worker.buffer), map[])))
  }

  /** The server handles one command: a single write goes through `write`, a batch through operation lists. */
  function DoSend(c: Config, s: State, w: nat, key: RecordKey, reply: Reply, applied: bool): State
    requires w < |s.workers| && s.workers[w].phase.Sending? && key in s.workers[w].phase.pending
  {
    var worker := s.workers[w];
    var r := worker.phase.pending[key];
    var store := if !applied then s.store
                 else if BatchSize(c) == 1 then WriteOne(c.sink, s.store, r)
                 else WriteInBatch(c.sink, s.store, key, r);
    Settle(s.(store := store), w,
           worker.(phase := Sending(worker.phase.pending - {key}, worker.phase.replies[key := reply])))
  }

  function DoReturn(c: Config, s: State, w: nat): State
    requires w < |s.workers| && s.workers[w].phase.Sending?
  {
    var worker := s.workers[w];
    Settle(s, w, worker.(buffer := [], phase := Reporting(Verdicts(c, worker.buffer, worker.phase.replies))))
  }

  /** The write call raised: every buffered record counts as an error. */
  function DoRaise(s: State, w: nat, reason: string): State
    requires w < |s.workers|
  {
    var worker := s.workers[w];
    Settle(s, w, worker.(buffer := [], phase := Reporting(seq(|worker.buffer|, i => WasRefused("write:" + reason)))))
  }

  function DoCount(s: State, w: nat): State
    requires w < |s.workers| && s.workers[w].phase.Reporting? && s.workers[w].phase.verdicts != []
  {
    var worker := s.workers[w];
    var verdicts := worker.phase.verdicts;
    var rest := if |verdicts| == 1 then AfterFlush(worker) else Reporting(verdicts[1..]);
    Settle(s.(tally := Register(s.tally, verdicts[0])), w, worker.(phase := rest))
  }

  function Next(c: Config, s: State, e: Event): State
    requires CanHappen(c, s, e)
  {
    match e
    case Fetch => s.(source := s.source[1..], producer := Holding(s.source[0], false))
    case SourceRaises => s.(raised := true, producer := Stopping(WorkerCount(c)))
    case SourceEnds => s.(producer := Stopping(WorkerCount(c)))
    case CountScanned => s.(tally := Scanned(s.tally), producer := s.producer.(counted := true))
    case PutRecord => s.(queue := s.queue + [Record(s.producer.record)], producer := Fetching)
    case PutStop => s.(queue := s.queue + [Stop], producer := Stopping(s.producer.left - 1))
    case Join => s.(producer := Done)
    case Take(w) => DoTake(s, w)
    case Prepare(w) => DoPrepare(c, s, w)
    case Throttle(w, now) => DoThrottle(s, w, now)
    case Wake(w, now) => DoWake(c, s, w, now)
    case Send(w, key, reply, applied) => DoSend(c, s, w, key, reply, applied)
    case Return(w) => DoReturn(c, s, w)
    case Raise(w, reason) => DoRaise(s, w, reason)
    case Count(w) => DoCount(s, w)
  }

  /** The environment is free: while a write call is under way any reply may come for any pending key, and any failure
      may be applied or not; only OK means applied, and CREATE_ONLY applies nothing over a record. The call may raise
      at any moment, the source whenever it is asked for a record, and the clock may show any later time. */
  lemma EnvironmentIsFree(c: Config, s: State, w: nat)
    requires w < |s.workers|
    ensures s.workers[w].phase.Sending? ==>
              forall key, reply, applied | key in s.workers[w].phase.pending ::
                CanHappen(c, s, Send(w, key, reply, applied)) <==>
                  (reply.code == 0 ==> applied) && (applied && c.sink.policy == CreateOnly ==> key !in s.store)
    ensures s.workers[w].phase.Sending? ==> forall reason :: CanHappen(c, s, Raise(w, reason))
    ensures s.producer.Fetching? ==> CanHappen(c, s, SourceRaises)
    ensures s.workers[w].phase.Throttling? ==>
              forall now :: s.clock <= now <==> CanHappen(c, s, Throttle(w, now))
  {
  }

  /** `events` is a run from `s` to `t`. */
  ghost predicate Run(c: Config, s: State, events: seq<Event>, t: State)
    decreases |events|
  {
    if events == [] then s == t
    else CanHappen(c, s, events[0]) && Run(c, Next(c, s, events[0]), events[1..], t)
  }
}
