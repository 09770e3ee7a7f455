/**
 What a CREATE_ONLY migration reports. The keys that end up in the store are those of the source, but how many
 records are counted as migrated depends on the batches: a batch reports every record of a key it creates as
 migrated, single writes only the first.
 */
module Duplicates {
  import opened Models
  import opened Sequences
  import opened Server
  import opened Sink
  import opened BatchWriter
  import opened Pipeline
  import opened Accounting
  import opened Shutdown
  import opened Independence
  import opened Report

  // ----- New keys -----

  /** The keys, in source order and with repeats, of the records that convert and fit and whose key is not held. */
  function NewKeys(c: Config, source: seq<RedisRecord>, held: set<RecordKey>): seq<RecordKey> {
    if source == [] then []
    else NewKey(c, source[0], held) + NewKeys(c, source[1..], held)
  }

  function NewKey(c: Config, r: RedisRecord, held: set<RecordKey>): seq<RecordKey> {
    match c.prepare(r)
    case Ready(a) => if TooLarge(c.sink, a) || KeyOf(c.sink, a) in held then [] else [KeyOf(c.sink, a)]
    case _ => []
  }

  lemma {:induction false} NewKeysAreDue(c: Config, source: seq<RedisRecord>, held: set<RecordKey>)
    ensures |NewKeys(c, source, held)| == SumSource(c, Creations(held), source)
  {
    if source != [] { NewKeysAreDue(c, source[1..], held); }
  }

  lemma {:induction false} NewKeysMembers(c: Config, source: seq<RedisRecord>, held: set<RecordKey>, k: RecordKey)
    ensures k in NewKeys(c, source, held) <==> k !in held && exists i :: 0 <= i < |source| && k in KeysOf(c, source[i])
  {
    if source != [] {
      NewKeysMembers(c, source[1..], held, k);
      if i :| 0 <= i < |source[1..]| && k in KeysOf(c, source[1..][i]) {
        assert k in KeysOf(c, source[i+1]);
      }
      if i :| 0 <= i < |source| && k in KeysOf(c, source[i]) {
        assert i > 0 ==> k in KeysOf(c, source[1..][i-1]);
      }
    }
  }

  lemma {:induction false} SameNewKeys(c1: Config, c2: Config, source: seq<RedisRecord>, held: set<RecordKey>)
    requires Retuned(c1, c2)
    ensures NewKeys(c1, source, held) == NewKeys(c2, source, held)
  {
    if source != [] { SameNewKeys(c1, c2, source[1..], held); }
  }

  // ----- Every key created is reported at least once -----

  /** The keys the worker's write call has created so far. */
  function Confirmed(w: Worker): set<RecordKey> {
    if w.phase.Sending? then Successes(w.phase.replies) else {}
  }

  function Successes(replies: map<RecordKey, Reply>): set<RecordKey> {
    set k | k in replies && replies[k].code == 0
  }

  /** How often the worker is to report a key as created, at least. */
  function Credit(w: Worker): nat {
    |Confirmed(w)| + (if w.phase.Reporting? then SumVerdicts(Creations({}), w.phase.verdicts) else 0)
  }

  function CreditOfAll(workers: seq<Worker>): nat {
    Sum(workers, Credit)
  }

  lemma NoCredit(workers: seq<Worker>)
    requires forall w :: 0 <= w < |workers| ==> workers[w].phase.Idle? || workers[w].phase.Exited?
    ensures CreditOfAll(workers) == 0
  {
    SumBound(workers, Credit, 0);
  }

  /** The keys created are at most those reported or to be reported, and exactly those in single mode. */
  ghost predicate Credited(c: Config, held: set<RecordKey>, s: State) {
    && held <= s.store.Keys
    && |s.store.Keys - held| <= s.tally.migrated + CreditOfAll(s.workers)
    && (BatchSize(c) == 1 ==> |s.store.Keys - held| == s.tally.migrated + CreditOfAll(s.workers))
  }

  /** Distinct created keys of a buffer are reported by distinct positions. */
  lemma {:induction false} CreatedAreReported(c: Config, buffer: seq<AerospikeRecord>, replies: map<RecordKey, Reply>,
          verdicts: seq<Verdict>, keys: set<RecordKey>)
    requires Answered(c, buffer, replies)
    requires |verdicts| == |buffer| && forall i :: 0 <= i < |buffer| ==>
              verdicts[i] == VerdictFor(c, buffer[i], replies)
    requires forall k :: k in keys ==>
               k in replies && replies[k].code == 0
               && exists a :: a in buffer && !TooLarge(c.sink, a) && KeyOf(c.sink, a) == k
    ensures |keys| <= SumVerdicts(Creations({}), verdicts)
  {
    if buffer == [] {
      assert keys == {};
    } else {
      var first := buffer[0];
      var rest := if TooLarge(c.sink, first) then keys else keys - {KeyOf(c.sink, first)};
      CreatedAreReported(c, buffer[1..], replies, verdicts[1..], rest);
      assert first in buffer;
      CleanVerdict(c, first, replies);
      assert rest != keys ==> keys == rest + {KeyOf(c.sink, first)};
    }
  }

  lemma SumOneVerdict(kind: Kind, v: Verdict)
    ensures SumVerdicts(kind, [v]) == VerdictDue(kind, v)
  {
    SumOne(v, VerdictsDue(kind));
  }

  /** In single mode the one record is reported as migrated exactly when its key was created. */
  lemma OneIsReported(c: Config, a: AerospikeRecord, replies: map<RecordKey, Reply>, verdicts: seq<Verdict>,
          keys: set<RecordKey>)
    requires Answered(c, [a], replies) && verdicts == [VerdictFor(c, a, replies)]
    requires replies.Keys == Winners(c.sink, [a]).Keys && keys == Successes(replies)
    ensures SumVerdicts(Creations({}), verdicts) == |keys|
  {
    assert [a][..0] == [] && Winners(c.sink, []) == map[];
    var v := VerdictFor(c, a, replies);
    assert verdicts == [v];
    SumOneVerdict(Creations({}), v);
    assert a in [a];
    CleanVerdict(c, a, replies);
    assert SumVerdicts(Creations({}), verdicts) == One(v.WasMigrated?);
    if !TooLarge(c.sink, a) {
      assert replies.Keys == {KeyOf(c.sink, a)};
      assert keys == if replies[KeyOf(c.sink, a)].code == 0 then {KeyOf(c.sink, a)} else {};
    }
  }

  lemma ReturnKeepsCredit(c: Config, s: State, w: nat)
    requires Shape(c, s) && AllClean(c, s) && CanHappen(c, s, Return(w))
    ensures Credit(s.workers[w]) <= Credit(Next(c, s, Return(w)).workers[w])
    ensures BatchSize(c) == 1 ==> Credit(s.workers[w]) == Credit(Next(c, s, Return(w)).workers[w])
  {
    var worker := s.workers[w];
    var buffer, replies, keys := worker.buffer, worker.phase.replies, Confirmed(worker);
    assert WorkerOk(c, worker);
    assert replies.Keys == Winners(c.sink, buffer).Keys;
    ReturnIsAnswered(c, s, w);
    forall k | k in keys ensures exists a :: a in buffer && !TooLarge(c.sink, a) && KeyOf(c.sink, a) == k {
      WinnerFits(c.sink, buffer, k);
    }
    CreatedAreReported(c, buffer, replies, Verdicts(c, buffer, replies), keys);
    if BatchSize(c) == 1 {
      assert buffer == [buffer[0]];
      OneIsReported(c, buffer[0], replies, Verdicts(c, buffer, replies), keys);
    }
  }

  lemma OneMoreReply(replies: map<RecordKey, Reply>, key: RecordKey, reply: Reply)
    requires key !in replies
    ensures |Successes(replies[key := reply])| == |Successes(replies)| + One(reply.code == 0)
  {
    assert Successes(replies[key := reply]) == Successes(replies) + (if reply.code == 0 then {key} else {});
  }

  lemma SendConfirms(c: Config, s: State, e: Event)
    requires Shape(c, s) && e.Send? && CanHappen(c, s, e)
    ensures Credit(Next(c, s, e).workers[e.w]) == Credit(s.workers[e.w]) + One(e.reply.code == 0)
  {
    assert WorkerOk(c, s.workers[e.w]);
    OneMoreReply(s.workers[e.w].phase.replies, e.key, e.reply);
  }

  /** A clean CREATE_ONLY write is answered OK exactly when its key is new. */
  lemma SendAnswers(c: Config, s: State, e: Event)
    requires c.sink.policy == CreateOnly && e.Send? && CanHappen(c, s, e) && Clean(c, s, e)
    ensures e.reply.code == 0 <==> e.key !in s.store
  {
  }

  lemma OneMoreKey(held: set<RecordKey>, keys: set<RecordKey>, key: RecordKey)
    requires held <= keys
    ensures |keys + {key} - held| == |keys - held| + One(key !in keys)
  {
    assert keys + {key} - held == (keys - held) + (if key in keys then {} else {key});
  }

  lemma SendCreates(c: Config, held: set<RecordKey>, s: State, e: Event)
    requires c.sink.policy == CreateOnly && held <= s.store.Keys
    requires Shape(c, s) && e.Send? && CanHappen(c, s, e) && Clean(c, s, e)
    ensures held <= Next(c, s, e).store.Keys
    ensures |Next(c, s, e).store.Keys - held| == |s.store.Keys - held| + One(e.reply.code == 0)
  {
    SendWritesKey(c, s, e);
    SendAnswers(c, s, e);
    OneMoreKey(held, s.store.Keys, e.key);
  }

  lemma CountKeepsCredit(c: Config, s: State, w: nat)
    requires CanHappen(c, s, Count(w))
    ensures DoCount(s, w).tally.migrated + Credit(DoCount(s, w).workers[w]) == s.tally.migrated + Credit(s.workers[w])
  {
    var verdicts := s.workers[w].phase.verdicts;
    var kind := Creations({});
    RegisteringOne(kind, s.tally, verdicts[0]);
    assert SumVerdicts(kind, verdicts) == VerdictDue(kind, verdicts[0]) + SumVerdicts(kind, verdicts[1..]);
    assert |verdicts| == 1 ==> verdicts[1..] == [] && SumVerdicts(kind, verdicts[1..]) == 0;
  }

  lemma OthersKeepCredit(c: Config, s: State, e: Event)
    requires CanHappen(c, s, e) && (e.Prepare? || e.Throttle? || e.Wake?)
    ensures Credit(Next(c, s, e).workers[e.w]) == 0 == Credit(s.workers[e.w])
    ensures Next(c, s, e).store == s.store && Next(c, s, e).tally.migrated == s.tally.migrated
  {
    assert Successes(map[]) == {};
  }

  /** What worker `w` adds to the keys created it adds to the reports at least, and exactly in single mode. */
  ghost predicate CreditMoves(c: Config, held: set<RecordKey>, s: State, t: State, w: nat) {
    && w < |s.workers| && w < |t.workers| && held <= t.store.Keys
    && var created := |t.store.Keys - held| - |s.store.Keys - held|;
       var reported := t.tally.migrated + Credit(t.workers[w]) - s.tally.migrated - Credit(s.workers[w]);
       created <= reported && (BatchSize(c) == 1 ==> created == reported)
  }

  lemma ActorCredit(c: Config, held: set<RecordKey>, s: State, e: Event)
    requires c.sink.policy == CreateOnly && Shape(c, s) && AllClean(c, s) && held <= s.store.Keys
    requires CanHappen(c, s, e) && Clean(c, s, e) && Actor(e).Some?
    ensures CreditMoves(c, held, s, Next(c, s, e), Actor(e).value)
  {
    if e.Send? {
      SendConfirms(c, s, e);
      SendCreates(c, held, s, e);
    } else if e.Return? {
      ReturnKeepsCredit(c, s, e.w);
    } else if e.Count? {
      CountKeepsCredit(c, s, e.w);
    } else {
      OthersKeepCredit(c, s, e);
    }
  }

  lemma ActorKeepsCredit(c: Config, held: set<RecordKey>, s: State, e: Event)
    requires c.sink.policy == CreateOnly && Shape(c, s) && AllClean(c, s) && Credited(c, held, s)
    requires CanHappen(c, s, e) && Clean(c, s, e) && Actor(e).Some?
    ensures Credited(c, held, Next(c, s, e))
  {
    ActorStep(c, s, e);
    ActorCredit(c, held, s, e);
    SumUpdate(s.workers, Actor(e).value, Next(c, s, e).workers[Actor(e).value], Credit);
  }

  lemma StepKeepsCredit(c: Config, held: set<RecordKey>, s: State, e: Event)
    requires c.sink.policy == CreateOnly && Shape(c, s) && AllClean(c, s) && Credited(c, held, s)
    requires CanHappen(c, s, e) && Clean(c, s, e)
    ensures Credited(c, held, Next(c, s, e))
  {
    if Actor(e).Some? {
      ActorKeepsCredit(c, held, s, e);
    } else if e.Take? {
      SumUpdate(s.workers, e.w, Next(c, s, e).workers[e.w], Credit);
    }
  }

  lemma {:induction false} RunKeepsCredit(c: Config, held: set<RecordKey>, s: State, events: seq<Event>, t: State)
    requires c.sink.policy == CreateOnly && Shape(c, s) && AllClean(c, s) && Credited(c, held, s)
    requires CleanRun(c, s, events, t)
    ensures Credited(c, held, t)
    decreases |events|
  {
    if events != [] {
      StepKeepsShape(c, s, events[0]);
      StepKeepsClean(c, s, events[0]);
      StepKeepsCredit(c, held, s, events[0]);
      RunKeepsCredit(c, held, Next(c, s, events[0]), events[1..], t);
    }
  }

  lemma InitCredit(c: Config, source: seq<RedisRecord>, store: Store)
    ensures Credited(c, store.Keys, Init(c, source, store)) && AllClean(c, Init(c, source, store))
  {
    NoCredit(Init(c, source, store).workers);
    assert store.Keys - store.Keys == {};
  }

  lemma EverybodyExited(c: Config, source: seq<RedisRecord>, store: Store, events: seq<Event>, t: State)
    requires CleanRun(c, Init(c, source, store), events, t) && t.producer.Done?
    ensures forall w :: 0 <= w < |t.workers| ==> t.workers[w].phase.Exited?
  {
    CleanRunIsRun(c, Init(c, source, store), events, t);
    NothingIsLost(c, source, store, events, t);
  }

  lemma SettledCredit(c: Config, held: set<RecordKey>, t: State)
    requires Credited(c, held, t) && forall w :: 0 <= w < |t.workers| ==> t.workers[w].phase.Exited?
    ensures |t.store.Keys - held| <= t.tally.migrated
    ensures BatchSize(c) == 1 ==> |t.store.Keys - held| == t.tally.migrated
  {
    NoCredit(t.workers);
  }

  lemma ReachedCredit(c: Config, source: seq<RedisRecord>, store: Store, events: seq<Event>, t: State)
    requires c.sink.policy == CreateOnly && CleanRun(c, Init(c, source, store), events, t)
    ensures Credited(c, store.Keys, t)
  {
    InitInvariant(c, source, store);
    InitCredit(c, source, store);
    RunKeepsCredit(c, store.Keys, Init(c, source, store), events, t);
  }

  lemma FinalCredit(c: Config, source: seq<RedisRecord>, store: Store, events: seq<Event>, t: State)
    requires c.sink.policy == CreateOnly
    requires CleanRun(c, Init(c, source, store), events, t) && t.producer.Done?
    ensures |t.store.Keys - store.Keys| <= t.tally.migrated
    ensures BatchSize(c) == 1 ==> |t.store.Keys - store.Keys| == t.tally.migrated
  {
    ReachedCredit(c, source, store, events, t);
    EverybodyExited(c, source, store, events, t);
    SettledCredit(c, store.Keys, t);
  }

  lemma CreatedKeys(c: Config, source: seq<RedisRecord>, store: Store, events: seq<Event>, t: State)
    requires CleanRun(c, Init(c, source, store), events, t) && t.producer.Done?
    ensures var created := AsSet(NewKeys(c, source, store.Keys));
            t.store.Keys == store.Keys + created && t.store.Keys - store.Keys == created
  {
    forall k
      ensures k in t.store.Keys <==> k in store.Keys || k in NewKeys(c, source, store.Keys)
      ensures k in NewKeys(c, source, store.Keys) ==> k !in store.Keys
    {
      FinalKeys(c, source, store, events, t, k);
      NewKeysMembers(c, source, store.Keys, k);
    }
  }

  /** A complete clean CREATE_ONLY run creates exactly the new keys, and reports at least one record for each of them
      and at most every record of each. Single writes report one record for each. */
  lemma MigratedBounds(c: Config, source: seq<RedisRecord>, store: Store, events: seq<Event>, t: State)
    requires c.sink.policy == CreateOnly
    requires CleanRun(c, Init(c, source, store), events, t) && t.producer.Done?
    ensures t.store.Keys == store.Keys + AsSet(NewKeys(c, source, store.Keys))
    ensures |AsSet(NewKeys(c, source, store.Keys))| <= t.tally.migrated <= |NewKeys(c, source, store.Keys)|
    ensures BatchSize(c) == 1 ==> t.tally.migrated == |AsSet(NewKeys(c, source, store.Keys))|
  {
    FinalCredit(c, source, store, events, t);
    CreatedKeys(c, source, store, events, t);
    FinalCreations(c, store.Keys, source, store, events, t);
    NewKeysAreDue(c, source, store.Keys);
  }

  // ----- One batch for everything reports every record -----

  /** No record is outside the workers. */
  predicate Drained(s: State) {
    s.source == [] && !s.producer.Holding? && Records(s.queue) == 0
  }

  /** The store holds the keys in `held` and those answered, which were answered OK exactly if not in `held`. */
  ghost predicate Exact(held: set<RecordKey>, keys: set<RecordKey>, replies: map<RecordKey, Reply>) {
    keys == held + replies.Keys && forall k :: k in replies ==> (replies[k].code == 0 <==> k !in held)
  }

  lemma OneMoreExact(held: set<RecordKey>, keys: set<RecordKey>, replies: map<RecordKey, Reply>, key: RecordKey,
          reply: Reply)
    requires Exact(held, keys, replies) && key !in replies && (reply.code == 0 <==> key !in keys)
    ensures Exact(held, keys + {key}, replies[key := reply])
  {
  }

  /** The only worker has not written yet, or is writing its only batch, or has written it. */
  ghost predicate OneBatch(held: set<RecordKey>, s: State)
    requires |s.workers| == 1
  {
    match s.workers[0].phase
    case Sending(_, replies) =>
      Drained(s) && Exact(held, s.store.Keys, replies)
    case Reporting(_) => Drained(s)
    case Got(_) => s.store.Keys == held
    case _ => s.store.Keys == held || (Drained(s) && s.workers[0].buffer == [])
  }

  /** A worker flushes a buffer as large as the source only when it holds every record. */
  lemma FlushIsLast(c: Config, total: nat, s: State)
    requires Invariant(c, s) && Read(total, s) && !s.raised && total <= BatchSize(c) && |s.workers| == 1
    requires s.workers[0].phase.Sleeping?
    ensures Drained(s) && s.workers[0].buffer != []
  {
    var worker := s.workers[0];
    assert WorkerOk(c, worker);
    assert s.workers == [worker];
    SumOne(worker, Held);
    SumOne(worker, StopsOf);
    assert HeldByAll(s.workers) == |worker.buffer| && StopsTaken(s.workers) == worker.stops;
  }

  lemma SendKeepsOneBatch(c: Config, held: set<RecordKey>, s: State, e: Event)
    requires c.sink.policy == CreateOnly && Shape(c, s) && |s.workers| == 1 && OneBatch(held, s)
    requires e.Send? && CanHappen(c, s, e) && Clean(c, s, e)
    ensures OneBatch(held, Next(c, s, e))
  {
    assert WorkerOk(c, s.workers[0]);
    SendWritesKey(c, s, e);
    SendAnswers(c, s, e);
    OneMoreExact(held, s.store.Keys, s.workers[0].phase.replies, e.key, e.reply);
  }

  lemma TakeKeepsOneBatch(c: Config, held: set<RecordKey>, s: State, e: Event)
    requires Shape(c, s) && |s.workers| == 1 && OneBatch(held, s) && e.Take? && CanHappen(c, s, e)
    ensures OneBatch(held, Next(c, s, e))
  {
    assert WorkerOk(c, s.workers[0]);
  }

  lemma ActorKeepsOneBatch(c: Config, held: set<RecordKey>, s: State, e: Event)
    requires Shape(c, s) && |s.workers| == 1 && OneBatch(held, s) && CanHappen(c, s, e) && Clean(c, s, e)
    requires e.Prepare? || e.Throttle? || e.Return? || e.Count?
    ensures OneBatch(held, Next(c, s, e))
  {
    assert WorkerOk(c, s.workers[0]);
    ActorKeepsSource(c, s, e);
  }

  lemma ProducerKeepsOneBatch(c: Config, held: set<RecordKey>, s: State, e: Event)
    requires |s.workers| == 1 && OneBatch(held, s) && CanHappen(c, s, e) && Clean(c, s, e)
    requires Actor(e).None? && !e.Take?
    ensures OneBatch(held, Next(c, s, e))
  {
    if e.PutStop? { QueueAppend(s.queue, Stop); }
  }

  lemma StepKeepsOneBatch(c: Config, held: set<RecordKey>, total: nat, s: State, e: Event)
    requires c.sink.policy == CreateOnly && Invariant(c, s) && |s.workers| == 1 && OneBatch(held, s)
    requires Read(total, s) && !s.raised && total <= BatchSize(c)
    requires CanHappen(c, s, e) && Clean(c, s, e)
    ensures OneBatch(held, Next(c, s, e))
  {
    if e.Send? {
      SendKeepsOneBatch(c, held, s, e);
    } else if e.Wake? {
      FlushIsLast(c, total, s);
    } else if e.Take? {
      TakeKeepsOneBatch(c, held, s, e);
    } else if Actor(e).Some? {
      ActorKeepsOneBatch(c, held, s, e);
    } else {
      ProducerKeepsOneBatch(c, held, s, e);
    }
  }

  /** What a clean run of a single worker with room for every record keeps. */
  ghost predicate Alone(c: Config, held: set<RecordKey>, total: nat, s: State) {
    && c.sink.policy == CreateOnly && Invariant(c, s) && |s.workers| == 1 && OneBatch(held, s)
    && Read(total, s) && !s.raised && total <= BatchSize(c) && AllClean(c, s) && Holds(held, s)
  }

  lemma StepKeepsAlone(c: Config, held: set<RecordKey>, total: nat, s: State, e: Event)
    requires Alone(c, held, total, s) && CanHappen(c, s, e) && Clean(c, s, e)
    ensures Alone(c, held, total, Next(c, s, e))
  {
    StepKeepsInvariant(c, s, e);
    StepKeepsRead(c, total, s, e);
    StepKeepsClean(c, s, e);
    StepKeepsHeld(c, held, s, e);
    StepKeepsOneBatch(c, held, total, s, e);
    StepKeepsUnraised(c, s, e);
  }

  lemma StepKeepsUnraised(c: Config, s: State, e: Event)
    requires CanHappen(c, s, e) && Clean(c, s, e)
    ensures Next(c, s, e).raised == s.raised
  {
    if Actor(e).Some? { ActorKeepsSource(c, s, e); }
  }

  lemma StepKeepsCreations(c: Config, held: set<RecordKey>, total: nat, s: State, e: Event)
    requires Alone(c, held, total, s) && CanHappen(c, s, e) && Clean(c, s, e)
    ensures Outlook(c, Creations(held), Next(c, s, e)) == Outlook(c, Creations(held), s)
  {
    StepOutlook(c, Creations(held), s, e);
    if e.Return? { ReturnCreates(c, held, s, e.w); }
  }

  lemma {:induction false} RunKeepsCreations(c: Config, held: set<RecordKey>, total: nat, s: State, events: seq<Event>,
          t: State)
    requires Alone(c, held, total, s) && CleanRun(c, s, events, t)
    ensures Outlook(c, Creations(held), t) == Outlook(c, Creations(held), s)
    decreases |events|
  {
    if events != [] {
      StepKeepsAlone(c, held, total, s, events[0]);
      StepKeepsCreations(c, held, total, s, events[0]);
      RunKeepsCreations(c, held, total, Next(c, s, events[0]), events[1..], t);
    }
  }

  /** One worker with a batch size that fits the whole source reports every record of every new key. */
  lemma OneBatchReportsAll(c: Config, source: seq<RedisRecord>, store: Store, events: seq<Event>, t: State)
    requires c.sink.policy == CreateOnly && WorkerCount(c) == 1 && |source| <= BatchSize(c)
    requires CleanRun(c, Init(c, source, store), events, t) && t.producer.Done?
    ensures t.tally.migrated == |NewKeys(c, source, store.Keys)|
  {
    var held := store.Keys;
    InitInvariant(c, source, store);
    InitOutlook(c, Creations(held), source, store);
    RunKeepsCreations(c, held, |source|, Init(c, source, store), events, t);
    CleanRunIsRun(c, Init(c, source, store), events, t);
    FinalOutlook(c, Creations(held), source, store, events, t);
    NewKeysAreDue(c, source, held);
  }

  // ----- When the report does not depend on the tuning -----

  /** Some complete clean run of the migration ends in `t`. */
  ghost predicate Ends(c: Config, source: seq<RedisRecord>, store: Store, t: State) {
    t.producer.Done? && exists events :: CleanRun(c, Init(c, source, store), events, t)
  }

  /** Every migration has a complete clean run. */
  lemma SomeEnd(c: Config, source: seq<RedisRecord>, store: Store) returns (t: State)
    requires CanReportExists(c.sink)
    ensures Ends(c, source, store, t)
  {
    var s := Init(c, source, store);
    assert CleanRun(c, s, [], s);
    CleanRunsCanFinish(c, source, store, [], s);
    var rest: seq<Event>;
    rest, t :| CleanRun(c, s, rest, t) && t.producer.Done?;
  }

  lemma AgreeOnReport(c: Config, source: seq<RedisRecord>, store: Store, c1: Config, c2: Config, t1: State, t2: State)
    requires c.sink.policy != CreateOnly || Distinct(NewKeys(c, source, store.Keys))
    requires Retuned(c, c1) && Retuned(c, c2) && Ends(c1, source, store, t1) && Ends(c2, source, store, t2)
    ensures t1.tally == t2.tally
  {
    var events1 :| CleanRun(c1, Init(c1, source, store), events1, t1);
    var events2 :| CleanRun(c2, Init(c2, source, store), events2, t2);
    if c.sink.policy == CreateOnly {
      SameNewKeys(c, c1, source, store.Keys);
      SameNewKeys(c, c2, source, store.Keys);
      Cardinality(NewKeys(c, source, store.Keys));
      MigratedBounds(c1, source, store, events1, t1);
      MigratedBounds(c2, source, store, events2, t2);
    }
    MigratedDecidesReport(c1, c2, source, store, store, events1, events2, t1, t2);
  }

  /** The two tunings that report the fewest and the most. */
  lemma ExtremeTunings(c: Config, source: seq<RedisRecord>, store: Store)
    returns (c1: Config, c2: Config, t1: State, t2: State)
    requires c.sink.policy == CreateOnly && CanReportExists(c.sink)
    ensures Retuned(c, c1) && Retuned(c, c2) && Ends(c1, source, store, t1) && Ends(c2, source, store, t2)
    ensures t1.tally.migrated == |AsSet(NewKeys(c, source, store.Keys))|
    ensures t2.tally.migrated == |NewKeys(c, source, store.Keys)|
  {
    c1, c2 := c.(batchSize := 1), c.(workers := 1, batchSize := |source|);
    t1 := SomeEnd(c1, source, store);
    t2 := SomeEnd(c2, source, store);
    var events1 :| CleanRun(c1, Init(c1, source, store), events1, t1);
    var events2 :| CleanRun(c2, Init(c2, source, store), events2, t2);
    SameNewKeys(c, c1, source, store.Keys);
    SameNewKeys(c, c2, source, store.Keys);
    MigratedBounds(c1, source, store, events1, t1);
    OneBatchReportsAll(c2, source, store, events2, t2);
  }

  /** All complete clean runs of all tunings report the same, breakdowns included, if and only if the policy is not
      CREATE_ONLY or the new keys of the source are distinct; otherwise they differ in the number migrated already. */
  lemma TuningsReportAlike(c: Config, source: seq<RedisRecord>, store: Store)
    requires CanReportExists(c.sink)
    ensures (forall c1, c2, t1, t2 | Retuned(c, c1) && Retuned(c, c2)
               && Ends(c1, source, store, t1) && Ends(c2, source, store, t2) :: t1.tally == t2.tally)
            <==> c.sink.policy != CreateOnly || Distinct(NewKeys(c, source, store.Keys))
    ensures (forall c1, c2, t1, t2 | Retuned(c, c1) && Retuned(c, c2)
               && Ends(c1, source, store, t1) && Ends(c2, source, store, t2) :: t1.tally.migrated == t2.tally.migrated)
            <==> c.sink.policy != CreateOnly || Distinct(NewKeys(c, source, store.Keys))
  {
    if c.sink.policy != CreateOnly || Distinct(NewKeys(c, source, store.Keys)) {
      forall c1, c2, t1, t2 | Retuned(c, c1) && Retuned(c, c2) && Ends(c1, source, store, t1) &&
            Ends(c2, source, store, t2)
        ensures t1.tally == t2.tally
      {
        AgreeOnReport(c, source, store, c1, c2, t1, t2);
      }
    } else {
      Cardinality(NewKeys(c, source, store.Keys));
      var c1, c2, t1, t2 := ExtremeTunings(c, source, store);
      assert t1.tally.migrated != t2.tally.migrated;
    }
  }

  /** With `n` of two arrivals migrated, the others are reported as present. */
  lemma TwoReported(c: Config, r: RedisRecord, events: seq<Event>, t: State)
    requires KeysOf(c, r) != {} && CleanRun(c, Init(c, [r, r], map[]), events, t) && t.producer.Done?
    ensures t.tally.migrated <= 2 && t.tally.skippedByType == WithPresent(map[], 2 - t.tally.migrated)
  {
    TwoRecords(c, r);
    ReportIndependence(c, [r, r], map[], events, t);
  }

  lemma PairIsOne(k: RecordKey)
    ensures |AsSet([k, k])| == 1
  {
    assert AsSet([k, k]) == {k};
  }

  /** Two records of one new key, written one at a time. */
  lemma MigratedOnce(c: Config, source: seq<RedisRecord>, store: Store, events: seq<Event>, t: State, k: RecordKey)
    requires c.sink.policy == CreateOnly && BatchSize(c) == 1
    requires CleanRun(c, Init(c, source, store), events, t) && t.producer.Done?
    requires NewKeys(c, source, store.Keys) == [k, k]
    ensures t.tally.migrated == 1
  {
    MigratedBounds(c, source, store, events, t);
    PairIsOne(k);
  }

  lemma ScannedTwiceAlone(c: Config, r: RedisRecord, t: State)
    requires c.sink.policy == CreateOnly && KeysOf(c, r) != {} && BatchSize(c) == 1
    requires Ends(c, [r, r], map[], t)
    ensures t.tally.migrated == 1 && t.tally.skippedByType == map["exists" := 1]
  {
    var events :| CleanRun(c, Init(c, [r, r], map[]), events, t);
    TwoRecords(c, r);
    var store: Store := map[];
    assert store.Keys == {};
    MigratedOnce(c, [r, r], store, events, t, KeyOf(c.sink, c.prepare(r).record));
    TwoReported(c, r, events, t);
  }

  lemma ScannedTwiceTogether(c: Config, r: RedisRecord, t: State)
    requires c.sink.policy == CreateOnly && KeysOf(c, r) != {}
    requires WorkerCount(c) == 1 && BatchSize(c) == 2 && Ends(c, [r, r], map[], t)
    ensures t.tally.migrated == 2 && t.tally.skippedByType == map[]
  {
    var events :| CleanRun(c, Init(c, [r, r], map[]), events, t);
    TwoRecords(c, r);
    OneBatchReportsAll(c, [r, r], map[], events, t);
    TwoReported(c, r, events, t);
  }

  /** A key scanned twice into an empty store: single writes report it migrated once and present once, one batch of two
      reports it migrated twice. Both migrations have complete clean runs. */
  lemma ScannedTwice(c: Config, r: RedisRecord)
    requires c.sink.policy == CreateOnly && CanReportExists(c.sink) && KeysOf(c, r) != {}
    ensures var one := c.(workers := 1, batchSize := 1);
            && (exists t :: Ends(one, [r, r], map[], t))
            && forall t :: Ends(one, [r, r], map[], t) ==>
                 t.tally.migrated == 1 && t.tally.skippedByType == map["exists" := 1]
    ensures var two := c.(workers := 1, batchSize := 2);
            && (exists t :: Ends(two, [r, r], map[], t))
            && forall t :: Ends(two, [r, r], map[], t) ==> t.tally.migrated == 2 && t.tally.skippedByType == map[]
  {
    var one, two := c.(workers := 1, batchSize := 1), c.(workers := 1, batchSize := 2);
    var t1 := SomeEnd(one, [r, r], map[]);
    var t2 := SomeEnd(two, [r, r], map[]);
    forall t | Ends(one, [r, r], map[], t)
      ensures t.tally.migrated == 1 && t.tally.skippedByType == map["exists" := 1]
    {
      ScannedTwiceAlone(one, r, t);
    }
    forall t | Ends(two, [r, r], map[], t) ensures t.tally.migrated == 2 && t.tally.skippedByType == map[] {
      ScannedTwiceTogether(two, r, t);
    }
  }

  lemma TwoRecords(c: Config, r: RedisRecord)
    requires KeysOf(c, r) != {}
    ensures var k := KeyOf(c.sink, c.prepare(r).record);
            NewKeys(c, [r, r], {}) == [k, k] && ArrivalsOf(c, [r, r]) == 2 && SkipsOf(c, [r, r]) == map[]
  {
    assert [r, r][1..] == [r] && [r][1..] == [];
    assert NewKeys(c, [r], {}) == NewKey(c, r, {}) + NewKeys(c, [], {});
    assert ArrivalsOf(c, [r]) == 1 && SkipsOf(c, [r]) == SkipsOf(c, []);
  }
}
