/**
 The counters of a complete clean run, breakdowns included: all of them are a function of the source
 and of the number of records reported as migrated, and unless the policy is CREATE_ONLY that number is
 a function of the source as well.
 */
module Report {
  import opened Models
  import opened Sequences
  import opened Server
  import opened Sink
  import opened BatchWriter
  import opened Stats
  import opened Pipeline
  import opened Accounting
  import opened Shutdown
  import opened Independence

  // ----- What the source is due for -----

  const WRITE_TOO_LARGE := "write:" + TOO_LARGE

  /** The reason a source record fails for, whatever the schedule. */
  function FailureOf(c: Config, r: RedisRecord): Option<string> {
    match c.prepare(r)
    case Ready(a) => if TooLarge(c.sink, a) then Some(WRITE_TOO_LARGE) else None
    case Failed(reason) => Some(reason)
    case Unsupported(_) => None
  }

  /** The reason a source record is skipped for before it is written. */
  function SkipOf(c: Config, r: RedisRecord): Option<string> {
    match c.prepare(r)
    case Unsupported(reason) => Some(reason)
    case _ => None
  }

  function BumpIf(counts: map<string, nat>, reason: Option<string>): map<string, nat> {
    if reason.Some? then Bump(counts, reason.value) else counts
  }

  function ErrorsOf(c: Config, source: seq<RedisRecord>): map<string, nat> {
    if source == [] then map[] else BumpIf(ErrorsOf(c, source[1..]), FailureOf(c, source[0]))
  }

  function SkipsOf(c: Config, source: seq<RedisRecord>): map<string, nat> {
    if source == [] then map[] else BumpIf(SkipsOf(c, source[1..]), SkipOf(c, source[0]))
  }

  /** The records that convert and fit: each is reported as migrated or as present. */
  function ArrivalsOf(c: Config, source: seq<RedisRecord>): nat {
    if source == [] then 0 else One(KeysOf(c, source[0]) != {}) + ArrivalsOf(c, source[1..])
  }

  /** The breakdown with `n` more records found present. */
  function WithPresent(counts: map<string, nat>, n: nat): map<string, nat> {
    if n == 0 then counts else counts["exists" := CountOf(counts, "exists") + n]
  }

  // ----- Counters, one at a time -----

  /** A counter: failures or skips for one reason, all failures, records migrated or present, and records migrated, to
      which only keys outside `held` are due. */
  datatype Kind = Errors | Failures(reason: string) | Skips(reason: string) | Arrivals | Creations(held: set<RecordKey>)

  function One(b: bool): nat { if b then 1 else 0 }

  function CountOf(counts: map<string, nat>, reason: string): nat { if reason in counts then counts[reason] else 0 }

  function Tallied(kind: Kind, t: Tally): nat {
    match kind
    case Errors => t.errors
    case Failures(reason) => CountOf(t.errorsByType, reason)
    case Skips(reason) => CountOf(t.skippedByType, reason)
    case Arrivals => t.migrated + CountOf(t.skippedByType, "exists")
    case Creations(_) => t.migrated
  }

  /** Whether a converted record is to end up in the counter. */
  function Due(c: Config, kind: Kind, a: AerospikeRecord): nat {
    One(match kind
        case Errors => TooLarge(c.sink, a)
        case Failures(reason) => TooLarge(c.sink, a) && reason == WRITE_TOO_LARGE
        case Skips(_) => false
        case Arrivals => !TooLarge(c.sink, a)
        case Creations(held) => !TooLarge(c.sink, a) && KeyOf(c.sink, a) !in held)
  }

  function SourceDue(c: Config, kind: Kind, r: RedisRecord): nat {
    match c.prepare(r)
    case Ready(a) => Due(c, kind, a)
    case Failed(reason) => One(kind.Errors? || kind == Failures(reason))
    case Unsupported(reason) => One(kind == Skips(reason) || (kind.Arrivals? && reason == "exists"))
  }

  function VerdictDue(kind: Kind, v: Verdict): nat {
    match v
    case WasMigrated => One(kind.Arrivals? || kind.Creations?)
    case WasPresent => One(kind.Arrivals? || kind == Skips("exists"))
    case WasRefused(reason) => One(kind.Errors? || kind == Failures(reason))
  }

  function ItemDue(c: Config, kind: Kind, item: Item): nat {
    if item.Record? then SourceDue(c, kind, item.record) else 0
  }

  function SourcesDue(c: Config, kind: Kind): RedisRecord -> nat { r => SourceDue(c, kind, r) }

  function ItemsDue(c: Config, kind: Kind): Item -> nat { item => ItemDue(c, kind, item) }

  function BufferDue(c: Config, kind: Kind): AerospikeRecord -> nat { a => Due(c, kind, a) }

  function VerdictsDue(kind: Kind): Verdict -> nat { v => VerdictDue(kind, v) }

  function WorkersDue(c: Config, kind: Kind): Worker -> nat { w => WorkerDue(c, kind, w) }

  function SumSource(c: Config, kind: Kind, rs: seq<RedisRecord>): nat { Sum(rs, SourcesDue(c, kind)) }

  function SumQueue(c: Config, kind: Kind, queue: seq<Item>): nat { Sum(queue, ItemsDue(c, kind)) }

  function SumBuffer(c: Config, kind: Kind, buffer: seq<AerospikeRecord>): nat { Sum(buffer, BufferDue(c, kind)) }

  function SumVerdicts(kind: Kind, verdicts: seq<Verdict>): nat { Sum(verdicts, VerdictsDue(kind)) }

  function WorkerDue(c: Config, kind: Kind, w: Worker): nat {
    SumBuffer(c, kind, w.buffer)
    + (if w.phase.Got? then SourceDue(c, kind, w.phase.record) else 0)
    + (if w.phase.Reporting? then SumVerdicts(kind, w.phase.verdicts) else 0)
  }

  function SumWorkers(c: Config, kind: Kind, workers: seq<Worker>): nat {
    Sum(workers, WorkersDue(c, kind))
  }

  /** What the counter shows plus what is still due to it. */
  function Outlook(c: Config, kind: Kind, s: State): nat {
    Tallied(kind, s.tally) + SumSource(c, kind, s.source)
    + (if s.producer.Holding? then SourceDue(c, kind, s.producer.record) else 0)
    + SumQueue(c, kind, s.queue) + SumWorkers(c, kind, s.workers)
  }

  // ----- Only the end of a write call can change the outlook -----

  /** Counting a reason moves the counters it is about, each by one. */
  lemma CountingOne(kind: Kind, t: Tally, reason: string)
    ensures Tallied(kind, Skipped(t, reason))
         == Tallied(kind, t) + One(kind == Skips(reason) || (kind.Arrivals? && reason == "exists"))
    ensures Tallied(kind, Errored(t, reason)) == Tallied(kind, t) + One(kind.Errors? || kind == Failures(reason))
  {
  }

  lemma RegisteringOne(kind: Kind, t: Tally, v: Verdict)
    ensures Tallied(kind, Register(t, v)) == Tallied(kind, t) + VerdictDue(kind, v)
  {
    CountingOne(kind, t, if v.WasRefused? then v.reason else "exists");
  }

  lemma PrepareKeepsDue(c: Config, kind: Kind, s: State, w: nat)
    requires CanHappen(c, s, Prepare(w))
    ensures Tallied(kind, DoPrepare(c, s, w).tally) + WorkerDue(c, kind, DoPrepare(c, s, w).workers[w])
         == Tallied(kind, s.tally) + WorkerDue(c, kind, s.workers[w])
  {
    var worker, next := s.workers[w], DoPrepare(c, s, w);
    match c.prepare(worker.phase.record)
    case Ready(a) =>
      SumAppend(worker.buffer, a, BufferDue(c, kind));
      assert next.workers[w].buffer == worker.buffer + [a] && next.tally == s.tally;
    case Unsupported(reason) =>
      CountingOne(kind, s.tally, reason);
      assert next.workers[w].buffer == worker.buffer && next.tally == Skipped(s.tally, reason);
    case Failed(reason) =>
      CountingOne(kind, s.tally, reason);
      assert next.workers[w].buffer == worker.buffer && next.tally == Errored(s.tally, reason);
  }

  lemma CountKeepsDue(c: Config, kind: Kind, s: State, w: nat)
    requires CanHappen(c, s, Count(w))
    ensures Tallied(kind, DoCount(s, w).tally) + WorkerDue(c, kind, DoCount(s, w).workers[w])
         == Tallied(kind, s.tally) + WorkerDue(c, kind, s.workers[w])
  {
    var verdicts := s.workers[w].phase.verdicts;
    assert SumVerdicts(kind, verdicts) == VerdictDue(kind, verdicts[0]) + SumVerdicts(kind, verdicts[1..]);
    assert |verdicts| == 1 ==> verdicts[1..] == [] && SumVerdicts(kind, verdicts[1..]) == 0;
    RegisteringOne(kind, s.tally, verdicts[0]);
  }

  lemma ActorKeepsDue(c: Config, kind: Kind, s: State, e: Event)
    requires CanHappen(c, s, e) && Actor(e).Some? && !e.Return? && !e.Raise?
    ensures var t, w := Next(c, s, e), Actor(e).value;
            Tallied(kind, t.tally) + WorkerDue(c, kind, t.workers[w])
              == Tallied(kind, s.tally) + WorkerDue(c, kind, s.workers[w])
  {
    if e.Prepare? {
      PrepareKeepsDue(c, kind, s, e.w);
    } else if e.Count? {
      CountKeepsDue(c, kind, s, e.w);
    }
  }

  /** What the end of a write call adds to what its worker is due for. */
  function Gain(c: Config, kind: Kind, s: State, e: Event): int
    requires CanHappen(c, s, e)
  {
    if e.Return? || e.Raise?
    then WorkerDue(c, kind, Next(c, s, e).workers[e.w]) - WorkerDue(c, kind, s.workers[e.w])
    else 0
  }

  lemma ActorOutlook(c: Config, kind: Kind, s: State, e: Event)
    requires CanHappen(c, s, e) && Actor(e).Some?
    ensures Outlook(c, kind, Next(c, s, e)) == Outlook(c, kind, s) + Gain(c, kind, s, e)
  {
    var t := Next(c, s, e);
    ActorStep(c, s, e);
    ActorKeepsSource(c, s, e);
    if e.Return? || e.Raise? {
      assert t.tally == s.tally;
    } else {
      ActorKeepsDue(c, kind, s, e);
    }
    SumUpdate(s.workers, Actor(e).value, t.workers[Actor(e).value], WorkersDue(c, kind));
  }

  lemma TakeKeepsOutlook(c: Config, kind: Kind, s: State, w: nat)
    requires CanHappen(c, s, Take(w))
    ensures Outlook(c, kind, Next(c, s, Take(w))) == Outlook(c, kind, s)
  {
    SumUpdate(s.workers, w, Next(c, s, Take(w)).workers[w], WorkersDue(c, kind));
  }

  lemma StepOutlook(c: Config, kind: Kind, s: State, e: Event)
    requires CanHappen(c, s, e)
    ensures Outlook(c, kind, Next(c, s, e)) == Outlook(c, kind, s) + Gain(c, kind, s, e)
  {
    if Actor(e).Some? {
      ActorOutlook(c, kind, s, e);
    } else if e.Take? {
      TakeKeepsOutlook(c, kind, s, e.w);
    } else if e.PutRecord? {
      SumAppend(s.queue, Record(s.producer.record), ItemsDue(c, kind));
    } else if e.PutStop? {
      SumAppend(s.queue, Stop, ItemsDue(c, kind));
    }
  }

  // ----- Clean replies -----

  /** Replies received so far are OK, or "exists" under CREATE_ONLY. */
  predicate CleanReply(c: Config, reply: Reply) {
    reply.code == 0 || (c.sink.policy == CreateOnly && reply.code in c.sink.existsCodes)
  }

  predicate CleanReplies(c: Config, w: Worker) {
    w.phase.Sending? ==> forall k :: k in w.phase.replies ==> CleanReply(c, w.phase.replies[k])
  }

  ghost predicate AllClean(c: Config, s: State) {
    forall w :: 0 <= w < |s.workers| ==> CleanReplies(c, s.workers[w])
  }

  lemma StepKeepsClean(c: Config, s: State, e: Event)
    requires AllClean(c, s) && CanHappen(c, s, e) && Clean(c, s, e)
    ensures AllClean(c, Next(c, s, e))
  {
    var t := Next(c, s, e);
    forall w | 0 <= w < |t.workers| ensures CleanReplies(c, t.workers[w]) {
      assert CleanReplies(c, s.workers[w]);
    }
  }

  /** Every small record of the buffer has its reply. */
  ghost predicate Answered(c: Config, buffer: seq<AerospikeRecord>, replies: map<RecordKey, Reply>) {
    forall a :: a in buffer && !TooLarge(c.sink, a) ==>
      KeyOf(c.sink, a) in replies && CleanReply(c, replies[KeyOf(c.sink, a)])
  }

  lemma ReturnIsAnswered(c: Config, s: State, w: nat)
    requires Shape(c, s) && AllClean(c, s) && CanHappen(c, s, Return(w))
    ensures Answered(c, s.workers[w].buffer, s.workers[w].phase.replies)
  {
    var worker := s.workers[w];
    assert WorkerOk(c, worker) && CleanReplies(c, worker);
    WinnersAreLast(c.sink, worker.buffer);
    forall a | a in worker.buffer && !TooLarge(c.sink, a)
      ensures KeyOf(c.sink, a) in worker.phase.replies && CleanReply(c, worker.phase.replies[KeyOf(c.sink, a)])
    {
      var i :| 0 <= i < |worker.buffer| && worker.buffer[i] == a;
      assert KeyOf(c.sink, a) in Winners(c.sink, worker.buffer);
      assert KeyOf(c.sink, a) in worker.phase.pending.Keys + worker.phase.replies.Keys;
    }
  }

  /** The verdict of a record whose reply is clean. */
  lemma CleanVerdict(c: Config, a: AerospikeRecord, replies: map<RecordKey, Reply>)
    requires !TooLarge(c.sink, a) ==> KeyOf(c.sink, a) in replies && CleanReply(c, replies[KeyOf(c.sink, a)])
    ensures VerdictFor(c, a, replies)
         == if TooLarge(c.sink, a) then WasRefused(WRITE_TOO_LARGE)
            else if replies[KeyOf(c.sink, a)].code == 0 then WasMigrated
            else WasPresent
  {
    if !TooLarge(c.sink, a) { ReasonMeaning(c.sink, replies[KeyOf(c.sink, a)]); }
  }

  // ----- Counters a clean run determines -----

  /** Every counter but those that CREATE_ONLY leaves to the schedule. */
  predicate Decided(c: Config, kind: Kind) {
    !kind.Creations? && (kind == Skips("exists") ==> c.sink.policy != CreateOnly)
  }

  /** The verdicts of a flushed buffer are what its records were due for. */
  lemma {:induction false} VerdictsAsDue(c: Config, kind: Kind, buffer: seq<AerospikeRecord>,
          replies: map<RecordKey, Reply>, verdicts: seq<Verdict>)
    requires Decided(c, kind) && Answered(c, buffer, replies)
    requires |verdicts| == |buffer| && forall i :: 0 <= i < |buffer| ==>
              verdicts[i] == VerdictFor(c, buffer[i], replies)
    ensures SumVerdicts(kind, verdicts) == SumBuffer(c, kind, buffer)
  {
    if buffer != [] {
      VerdictsAsDue(c, kind, buffer[1..], replies, verdicts[1..]);
      assert buffer[0] in buffer;
      CleanVerdict(c, buffer[0], replies);
      assert VerdictDue(kind, verdicts[0]) == Due(c, kind, buffer[0]);
    }
  }

  lemma StepKeepsOutlook(c: Config, kind: Kind, s: State, e: Event)
    requires Decided(c, kind) && Shape(c, s) && AllClean(c, s) && CanHappen(c, s, e) && Clean(c, s, e)
    ensures Outlook(c, kind, Next(c, s, e)) == Outlook(c, kind, s)
  {
    StepOutlook(c, kind, s, e);
    if e.Return? {
      var worker := s.workers[e.w];
      ReturnIsAnswered(c, s, e.w);
      VerdictsAsDue(c, kind, worker.buffer, worker.phase.replies, Verdicts(c, worker.buffer, worker.phase.replies));
    }
  }

  lemma {:induction false} RunKeepsOutlook(c: Config, kind: Kind, s: State, events: seq<Event>, t: State)
    requires Decided(c, kind) && Shape(c, s) && AllClean(c, s) && CleanRun(c, s, events, t)
    ensures Outlook(c, kind, t) == Outlook(c, kind, s)
    decreases |events|
  {
    if events != [] {
      StepKeepsShape(c, s, events[0]);
      StepKeepsClean(c, s, events[0]);
      StepKeepsOutlook(c, kind, s, events[0]);
      RunKeepsOutlook(c, kind, Next(c, s, events[0]), events[1..], t);
    }
  }

  lemma NobodyDue(c: Config, kind: Kind, workers: seq<Worker>)
    requires forall w :: 0 <= w < |workers| ==>
              (workers[w].phase.Exited? || workers[w].phase.Idle?) && workers[w].buffer == []
    ensures SumWorkers(c, kind, workers) == 0
  {
    SumBound(workers, WorkersDue(c, kind), 0);
  }

  lemma InitOutlook(c: Config, kind: Kind, source: seq<RedisRecord>, store: Store)
    ensures Outlook(c, kind, Init(c, source, store)) == SumSource(c, kind, source)
    ensures AllClean(c, Init(c, source, store))
  {
    NobodyDue(c, kind, Init(c, source, store).workers);
  }

  lemma FinalOutlook(c: Config, kind: Kind, source: seq<RedisRecord>, store: Store, events: seq<Event>, t: State)
    requires Run(c, Init(c, source, store), events, t) && t.producer.Done? && !t.raised
    ensures Outlook(c, kind, t) == Tallied(kind, t.tally)
  {
    NothingIsLost(c, source, store, events, t);
    RunKeepsRead(c, |source|, Init(c, source, store), events, t);
    NobodyDue(c, kind, t.workers);
  }

  lemma FinalCounter(c: Config, kind: Kind, source: seq<RedisRecord>, store: Store, events: seq<Event>, t: State)
    requires Decided(c, kind) && CleanRun(c, Init(c, source, store), events, t) && t.producer.Done?
    ensures Tallied(kind, t.tally) == SumSource(c, kind, source)
  {
    InitInvariant(c, source, store);
    InitOutlook(c, kind, source, store);
    RunKeepsOutlook(c, kind, Init(c, source, store), events, t);
    CleanRunIsRun(c, Init(c, source, store), events, t);
    FinalOutlook(c, kind, source, store, events, t);
  }

  // ----- The number migrated -----

  /** Only keys outside `held` have been created. */
  predicate CreatesNew(held: set<RecordKey>, w: Worker) {
    w.phase.Sending? ==> forall k :: k in w.phase.replies && w.phase.replies[k].code == 0 ==> k !in held
  }

  /** The keys in `held` stay in the store, so CREATE_ONLY creates none of them. */
  ghost predicate Holds(held: set<RecordKey>, s: State) {
    held <= s.store.Keys && forall w :: 0 <= w < |s.workers| ==> CreatesNew(held, s.workers[w])
  }

  lemma StepKeepsHeld(c: Config, held: set<RecordKey>, s: State, e: Event)
    requires c.sink.policy == CreateOnly || held == {}
    requires Shape(c, s) && Holds(held, s) && CanHappen(c, s, e) && Clean(c, s, e)
    ensures Holds(held, Next(c, s, e))
  {
    var t := Next(c, s, e);
    if e.Send? { SendWritesKey(c, s, e); }
    forall w | 0 <= w < |t.workers| ensures CreatesNew(held, t.workers[w]) {
      assert CreatesNew(held, s.workers[w]);
    }
  }

  /** A flushed buffer is reported as migrated at most where a new key is due, and everywhere there if each of its new
      keys was created. */
  lemma {:induction false} VerdictsCreate(c: Config, held: set<RecordKey>, buffer: seq<AerospikeRecord>,
          replies: map<RecordKey, Reply>, verdicts: seq<Verdict>)
    requires Answered(c, buffer, replies) && forall k :: k in replies && replies[k].code == 0 ==> k !in held
    requires |verdicts| == |buffer| && forall i :: 0 <= i < |buffer| ==>
              verdicts[i] == VerdictFor(c, buffer[i], replies)
    ensures SumVerdicts(Creations(held), verdicts) <= SumBuffer(c, Creations(held), buffer)
    ensures (forall k :: k in replies && k !in held ==> replies[k].code == 0) ==>
              SumVerdicts(Creations(held), verdicts) == SumBuffer(c, Creations(held), buffer)
  {
    if buffer != [] {
      VerdictsCreate(c, held, buffer[1..], replies, verdicts[1..]);
      assert buffer[0] in buffer;
      CleanVerdict(c, buffer[0], replies);
    }
  }

  lemma ReturnCreates(c: Config, held: set<RecordKey>, s: State, w: nat)
    requires Shape(c, s) && AllClean(c, s) && Holds(held, s) && CanHappen(c, s, Return(w))
    ensures var replies := s.workers[w].phase.replies;
            && Gain(c, Creations(held), s, Return(w)) <= 0
            && ((forall k :: k in replies && k !in held ==> replies[k].code == 0) ==>
                  Gain(c, Creations(held), s, Return(w)) == 0)
  {
    var worker := s.workers[w];
    ReturnIsAnswered(c, s, w);
    assert CreatesNew(held, worker);
    VerdictsCreate(c, held, worker.buffer, worker.phase.replies, Verdicts(c, worker.buffer, worker.phase.replies));
  }

  lemma {:induction false} RunCreates(c: Config, held: set<RecordKey>, s: State, events: seq<Event>, t: State)
    requires c.sink.policy == CreateOnly || held == {}
    requires Shape(c, s) && AllClean(c, s) && Holds(held, s) && CleanRun(c, s, events, t)
    ensures Outlook(c, Creations(held), t) <= Outlook(c, Creations(held), s)
    decreases |events|
  {
    if events != [] {
      StepKeepsShape(c, s, events[0]);
      StepKeepsClean(c, s, events[0]);
      StepKeepsHeld(c, held, s, events[0]);
      StepOutlook(c, Creations(held), s, events[0]);
      if events[0].Return? { ReturnCreates(c, held, s, events[0].w); }
      RunCreates(c, held, Next(c, s, events[0]), events[1..], t);
    }
  }

  lemma FinalCreations(c: Config, held: set<RecordKey>, source: seq<RedisRecord>, store: Store, events: seq<Event>,
          t: State)
    requires (c.sink.policy == CreateOnly && held == store.Keys) || held == {}
    requires CleanRun(c, Init(c, source, store), events, t) && t.producer.Done?
    ensures t.tally.migrated <= SumSource(c, Creations(held), source)
  {
    InitInvariant(c, source, store);
    InitOutlook(c, Creations(held), source, store);
    RunCreates(c, held, Init(c, source, store), events, t);
    CleanRunIsRun(c, Init(c, source, store), events, t);
    FinalOutlook(c, Creations(held), source, store, events, t);
  }

  // ----- The whole report -----

  ghost predicate Positive(counts: map<string, nat>) { forall reason :: reason in counts ==> counts[reason] > 0 }

  ghost predicate TallyPositive(t: Tally) { Positive(t.skippedByType) && Positive(t.errorsByType) }

  lemma SameCounts(a: map<string, nat>, b: map<string, nat>)
    requires Positive(a) && Positive(b) && forall reason :: CountOf(a, reason) == CountOf(b, reason)
    ensures a == b
  {
    assert forall reason :: reason in a <==> CountOf(a, reason) > 0;
    assert forall reason :: reason in b <==> CountOf(b, reason) > 0;
    forall reason | reason in a ensures a[reason] == b[reason] { assert CountOf(a, reason) == CountOf(b, reason); }
  }

  lemma BumpKeepsPositive(t: Tally, reason: string)
    requires TallyPositive(t)
    ensures TallyPositive(Skipped(t, reason)) && TallyPositive(Errored(t, reason))
  {
  }

  lemma StepKeepsPositive(c: Config, s: State, e: Event)
    requires TallyPositive(s.tally) && CanHappen(c, s, e)
    ensures TallyPositive(Next(c, s, e).tally)
  {
    if e.Prepare? {
      var prepared := c.prepare(s.workers[e.w].phase.record);
      if !prepared.Ready? { BumpKeepsPositive(s.tally, prepared.reason); }
    } else if e.Count? {
      var v := s.workers[e.w].phase.verdicts[0];
      BumpKeepsPositive(s.tally, if v.WasRefused? then v.reason else "exists");
    } else {
      assert Next(c, s, e).tally == s.tally || Next(c, s, e).tally == Scanned(s.tally);
    }
  }

  lemma {:induction false} RunKeepsPositive(c: Config, s: State, events: seq<Event>, t: State)
    requires TallyPositive(s.tally) && Run(c, s, events, t)
    ensures TallyPositive(t.tally)
    decreases |events|
  {
    if events != [] {
      StepKeepsPositive(c, s, events[0]);
      RunKeepsPositive(c, Next(c, s, events[0]), events[1..], t);
    }
  }

  lemma {:induction false} BreakdownsAsDue(c: Config, source: seq<RedisRecord>, reason: string)
    ensures CountOf(ErrorsOf(c, source), reason) == SumSource(c, Failures(reason), source)
    ensures CountOf(SkipsOf(c, source), reason) == SumSource(c, Skips(reason), source)
    ensures ArrivalsOf(c, source) == SumSource(c, Creations({}), source)
    ensures SumSource(c, Arrivals, source) == ArrivalsOf(c, source) + SumSource(c, Skips("exists"), source)
    ensures Positive(ErrorsOf(c, source)) && Positive(SkipsOf(c, source))
  {
    if source != [] { BreakdownsAsDue(c, source[1..], reason); }
  }

  /** The whole report of a complete clean run that reports `migrated` records as migrated: every record is scanned, the
      errors are those of the records that do not convert or are too large, by reason, and the skips are those of the
      unsupported types plus the records that fit and were not migrated. */
  ghost function ReportOf(c: Config, source: seq<RedisRecord>, migrated: nat): Tally
    requires migrated <= ArrivalsOf(c, source)
  {
    var errors, skips := ErrorsOf(c, source), WithPresent(SkipsOf(c, source), ArrivalsOf(c, source) - migrated);
    Tally(|source|, migrated, Total(skips), Total(errors), skips, errors)
  }

  lemma MigratedReported(c: Config, source: seq<RedisRecord>, store: Store, events: seq<Event>, t: State)
    requires CleanRun(c, Init(c, source, store), events, t) && t.producer.Done?
    ensures t.tally.migrated <= ArrivalsOf(c, source)
    ensures c.sink.policy != CreateOnly ==> t.tally.migrated == ArrivalsOf(c, source)
    ensures t.tally.migrated + CountOf(t.tally.skippedByType, "exists")
         == ArrivalsOf(c, source) + CountOf(SkipsOf(c, source), "exists")
  {
    BreakdownsAsDue(c, source, "exists");
    FinalCounter(c, Arrivals, source, store, events, t);
    FinalCreations(c, {}, source, store, events, t);
    if c.sink.policy != CreateOnly { FinalCounter(c, Skips("exists"), source, store, events, t); }
  }

  lemma FinalPositive(c: Config, source: seq<RedisRecord>, store: Store, events: seq<Event>, t: State)
    requires CleanRun(c, Init(c, source, store), events, t)
    ensures TallyPositive(t.tally)
  {
    CleanRunIsRun(c, Init(c, source, store), events, t);
    RunKeepsPositive(c, Init(c, source, store), events, t);
  }

  lemma ErrorsReported(c: Config, source: seq<RedisRecord>, store: Store, events: seq<Event>, t: State)
    requires CleanRun(c, Init(c, source, store), events, t) && t.producer.Done?
    ensures t.tally.errorsByType == ErrorsOf(c, source)
  {
    FinalPositive(c, source, store, events, t);
    BreakdownsAsDue(c, source, "");
    forall reason ensures CountOf(t.tally.errorsByType, reason) == CountOf(ErrorsOf(c, source), reason) {
      BreakdownsAsDue(c, source, reason);
      FinalCounter(c, Failures(reason), source, store, events, t);
    }
    SameCounts(t.tally.errorsByType, ErrorsOf(c, source));
  }

  lemma PresentCounts(counts: map<string, nat>, n: nat)
    requires Positive(counts)
    ensures Positive(WithPresent(counts, n))
    ensures CountOf(WithPresent(counts, n), "exists") == CountOf(counts, "exists") + n
    ensures forall reason :: reason != "exists" ==> CountOf(WithPresent(counts, n), reason) == CountOf(counts, reason)
  {
  }

  lemma SkipsReported(c: Config, source: seq<RedisRecord>, store: Store, events: seq<Event>, t: State)
    requires CleanRun(c, Init(c, source, store), events, t) && t.producer.Done?
    requires t.tally.migrated <= ArrivalsOf(c, source)
    ensures t.tally.skippedByType == WithPresent(SkipsOf(c, source), ArrivalsOf(c, source) - t.tally.migrated)
  {
    var skips := WithPresent(SkipsOf(c, source), ArrivalsOf(c, source) - t.tally.migrated);
    FinalPositive(c, source, store, events, t);
    BreakdownsAsDue(c, source, "exists");
    PresentCounts(SkipsOf(c, source), ArrivalsOf(c, source) - t.tally.migrated);
    MigratedReported(c, source, store, events, t);
    forall reason ensures CountOf(t.tally.skippedByType, reason) == CountOf(skips, reason) {
      if reason != "exists" {
        BreakdownsAsDue(c, source, reason);
        FinalCounter(c, Skips(reason), source, store, events, t);
      }
    }
    SameCounts(t.tally.skippedByType, skips);
  }

  lemma TotalsReported(c: Config, source: seq<RedisRecord>, store: Store, events: seq<Event>, t: State)
    requires CleanRun(c, Init(c, source, store), events, t) && t.producer.Done?
    ensures t.tally.scanned == |source|
    ensures t.tally.skipped == Total(t.tally.skippedByType) && t.tally.errors == Total(t.tally.errorsByType)
  {
    CleanRunIsRun(c, Init(c, source, store), events, t);
    NothingIsLost(c, source, store, events, t);
    Conservation(c, source, store, events, t);
  }

  lemma IsReport(c: Config, source: seq<RedisRecord>, t: Tally)
    requires t.scanned == |source| && t.migrated <= ArrivalsOf(c, source)
    requires t.errorsByType == ErrorsOf(c, source)
    requires t.skippedByType == WithPresent(SkipsOf(c, source), ArrivalsOf(c, source) - t.migrated)
    requires t.skipped == Total(t.skippedByType) && t.errors == Total(t.errorsByType)
    ensures t == ReportOf(c, source, t.migrated)
  {
  }

  /** The report of a complete clean run is a function of the source and of the number migrated, which is the number of
      records that convert and fit unless the policy is CREATE_ONLY. */
  lemma ReportIndependence(c: Config, source: seq<RedisRecord>, store: Store, events: seq<Event>, t: State)
    requires CleanRun(c, Init(c, source, store), events, t) && t.producer.Done?
    ensures t.tally.migrated <= ArrivalsOf(c, source)
    ensures c.sink.policy != CreateOnly ==> t.tally.migrated == ArrivalsOf(c, source)
    ensures t.tally == ReportOf(c, source, t.tally.migrated)
  {
    MigratedReported(c, source, store, events, t);
    ErrorsReported(c, source, store, events, t);
    SkipsReported(c, source, store, events, t);
    TotalsReported(c, source, store, events, t);
    IsReport(c, source, t.tally);
  }

  lemma {:induction false} SameBreakdowns(c1: Config, c2: Config, source: seq<RedisRecord>)
    requires Retuned(c1, c2)
    ensures ErrorsOf(c1, source) == ErrorsOf(c2, source) && SkipsOf(c1, source) == SkipsOf(c2, source)
    ensures ArrivalsOf(c1, source) == ArrivalsOf(c2, source)
  {
    if source != [] { SameBreakdowns(c1, c2, source[1..]); }
  }

  lemma SameReport(c1: Config, c2: Config, source: seq<RedisRecord>, migrated: nat)
    requires Retuned(c1, c2) && migrated <= ArrivalsOf(c1, source)
    ensures migrated <= ArrivalsOf(c2, source) && ReportOf(c1, source, migrated) == ReportOf(c2, source, migrated)
    ensures ArrivalsOf(c1, source) == ArrivalsOf(c2, source)
  {
    SameBreakdowns(c1, c2, source);
  }

  /** Two migrations of one source, tuned and scheduled differently, whatever the stores held: if they report as many
      records migrated, they report the same. */
  lemma MigratedDecidesReport(c1: Config, c2: Config, source: seq<RedisRecord>, store1: Store, store2: Store,
          events1: seq<Event>, events2: seq<Event>, t1: State, t2: State)
    requires Retuned(c1, c2)
    requires CleanRun(c1, Init(c1, source, store1), events1, t1) && t1.producer.Done?
    requires CleanRun(c2, Init(c2, source, store2), events2, t2) && t2.producer.Done?
    requires c1.sink.policy != CreateOnly || t1.tally.migrated == t2.tally.migrated
    ensures t1.tally == t2.tally
  {
    ReportIndependence(c1, source, store1, events1, t1);
    ReportIndependence(c2, source, store2, events2, t2);
    SameReport(c1, c2, source, t1.tally.migrated);
  }
}
