/**
 What can be relied on when things fail: an interrupted migration can be run again from the start, and the
 report of a migration tells whether its store is complete.
 */
module Recovery {
  import opened Models
  import opened Server
  import opened Sink
  import opened BatchWriter
  import opened BatchRefinement
  import opened Stats
  import opened Pipeline
  import opened Accounting
  import opened Shutdown
  import opened Independence
  import opened Report

  // ----- Any run only moves keys to their expected content -----

  lemma StepStaysUntainted(c: Config, image: map<RecordKey, AerospikeRecord>, init: Store, s: State, e: Event)
    requires Shape(c, s) && AllFit(c, image, s) && Untainted(c, image, init, s.store) && CanHappen(c, s, e)
    ensures Untainted(c, image, init, Next(c, s, e).store)
  {
    if e.Send? {
      AnySend(c, image, init, s, e);
    } else {
      assert Next(c, s, e).store == s.store;
    }
  }

  lemma {:induction false} RunStaysUntainted(c: Config, image: map<RecordKey, AerospikeRecord>, init: Store, s: State,
          events: seq<Event>, t: State)
    requires Shape(c, s) && AllFit(c, image, s) && Untainted(c, image, init, s.store) && Run(c, s, events, t)
    ensures Untainted(c, image, init, t.store)
    decreases |events|
  {
    if events != [] {
      StepKeepsShape(c, s, events[0]);
      StepKeepsFit(c, image, s, events[0]);
      StepStaysUntainted(c, image, init, s, events[0]);
      RunStaysUntainted(c, image, init, Next(c, s, events[0]), events[1..], t);
    }
  }

  /** The sequential loop ends alike on every store on which some keys hold their expected content already. */
  lemma SequentialFromUntainted(c: Config, source: seq<RedisRecord>, init: Store, store: Store)
    requires Alike(c, source) && Untainted(c, Image(c, source), init, store)
    ensures Sequential(c, source, store) == Sequential(c, source, init)
  {
    var image, ready := Image(c, source), ReadyRecords(c, source);
    AlikeCollapses(c, source, init);
    AlikeCollapses(c, source, store);
    forall k ensures Lookup(BatchStore(c.sink, store, ready), k) == Lookup(BatchStore(c.sink, init, ready), k) {
      BatchStoreAt(c.sink, init, ready, k);
      BatchStoreAt(c.sink, store, ready, k);
      if k in image { MergeIdempotent(c.sink.policy, Lookup(init, k), image[k]); }
    }
    SameLookups(BatchStore(c.sink, store, ready), BatchStore(c.sink, init, ready));
  }

  /** Migrating a second time changes nothing. */
  lemma SequentialIdempotent(c: Config, source: seq<RedisRecord>, store: Store)
    requires Alike(c, source)
    ensures Sequential(c, source, Sequential(c, source, store)) == Sequential(c, source, store)
  {
    AlikeCollapses(c, source, store);
    forall k
      ensures Lookup(Sequential(c, source, store), k) == Expect(c, Image(c, source), store, k)
    {
      BatchStoreAt(c.sink, store, ReadyRecords(c, source), k);
    }
    SequentialFromUntainted(c, source, store, Sequential(c, source, store));
  }

  // ----- Running again -----

  /** One attempt at the migration, tuned in some way and broken off anywhere: the source or writes may have raised,
      and writes that failed may have been applied. */
  ghost predicate Attempt(c: Config, source: seq<RedisRecord>, before: Store, after: Store) {
    exists c1, events, s ::
      Retuned(c, c1) && Run(c1, Init(c1, source, before), events, s) && s.store == after
  }

  ghost predicate Attempts(c: Config, source: seq<RedisRecord>, stores: seq<Store>) {
    forall i :: 0 < i < |stores| ==> Attempt(c, source, stores[i-1], stores[i])
  }

  lemma AttemptStaysUntainted(c: Config, source: seq<RedisRecord>, init: Store, before: Store, after: Store)
    requires Alike(c, source) && Untainted(c, Image(c, source), init, before) && Attempt(c, source, before, after)
    ensures Untainted(c, Image(c, source), init, after)
  {
    var c1, events, s :| Retuned(c, c1) && Run(c1, Init(c1, source, before), events, s) && s.store == after;
    SameReady(c, c1, source);
    InitInvariant(c1, source, before);
    InitOnCourse(c1, source, before);
    UntaintedRetuned(c, c1, Image(c, source), init, before);
    RunStaysUntainted(c1, Image(c, source), init, Init(c1, source, before), events, s);
    UntaintedRetuned(c, c1, Image(c, source), init, after);
  }

  lemma UntaintedRetuned(c: Config, c1: Config, image: map<RecordKey, AerospikeRecord>, init: Store, store: Store)
    requires Retuned(c, c1)
    ensures Untainted(c, image, init, store) <==> Untainted(c1, image, init, store)
  {
    assert forall k :: Expect(c, image, init, k) == Expect(c1, image, init, k);
  }

  lemma {:induction false} AttemptsStayUntainted(c: Config, source: seq<RedisRecord>, stores: seq<Store>, i: nat)
    requires Alike(c, source) && Attempts(c, source, stores) && i < |stores|
    ensures Untainted(c, Image(c, source), stores[0], stores[i])
  {
    if i > 0 {
      AttemptsStayUntainted(c, source, stores, i - 1);
      AttemptStaysUntainted(c, source, stores[0], stores[i-1], stores[i]);
    }
  }

  /** After any number of attempts, each broken off anywhere and tuned in its own way, one complete clean run from the
      start leaves the store that one sequential loop over the original store leaves, and it reports no error but
      those of the source. */
  lemma RerunCompletes(c: Config, source: seq<RedisRecord>, stores: seq<Store>, events: seq<Event>, t: State)
    requires Alike(c, source) && stores != [] && Attempts(c, source, stores)
    requires CleanRun(c, Init(c, source, stores[|stores|-1]), events, t) && t.producer.Done?
    ensures t.store == Sequential(c, source, stores[0])
    ensures t.tally.errorsByType == ErrorsOf(c, source)
  {
    var last := stores[|stores|-1];
    AttemptsStayUntainted(c, source, stores, |stores| - 1);
    ScheduleIndependence(c, source, last, events, t);
    SequentialFromUntainted(c, source, stores[0], last);
    ReportIndependence(c, source, last, events, t);
  }

  // ----- What the report tells -----

  /** The server says that a record exists only of keys it holds. */
  predicate Truthful(c: Config, s: State, e: Event) {
    e.Send? && ReplyVerdict(c, e.reply).WasPresent? ==> e.key in s.store
  }

  ghost predicate TruthfulRun(c: Config, s: State, events: seq<Event>, t: State)
    decreases |events|
  {
    if events == [] then s == t
    else
      && CanHappen(c, s, events[0]) && Truthful(c, s, events[0])
      && TruthfulRun(c, Next(c, s, events[0]), events[1..], t)
  }

  lemma {:induction false} TruthfulRunIsRun(c: Config, s: State, events: seq<Event>, t: State)
    requires TruthfulRun(c, s, events, t)
    ensures Run(c, s, events, t) && (s.raised ==> t.raised)
    decreases |events|
  {
    if events != [] { TruthfulRunIsRun(c, Next(c, s, events[0]), events[1..], t); }
  }

  lemma {:induction false} DueErrors(c: Config, source: seq<RedisRecord>)
    ensures SumSource(c, Errors, source) == Total(ErrorsOf(c, source))
  {
    if source != [] {
      DueErrors(c, source[1..]);
      var reason := FailureOf(c, source[0]);
      if reason.Some? { BumpAddsOne(ErrorsOf(c, source[1..]), reason.value); }
    }
  }

  /** A buffer is refused at least where that is due; if nowhere else, no small record was refused. */
  lemma {:induction false} VerdictsRefuse(c: Config, buffer: seq<AerospikeRecord>, replies: map<RecordKey, Reply>,
          verdicts: seq<Verdict>)
    requires |verdicts| == |buffer| && forall i :: 0 <= i < |buffer| ==>
              verdicts[i] == VerdictFor(c, buffer[i], replies)
    ensures SumBuffer(c, Errors, buffer) <= SumVerdicts(Errors, verdicts)
    ensures SumBuffer(c, Errors, buffer) == SumVerdicts(Errors, verdicts) ==>
              forall a :: a in buffer && !TooLarge(c.sink, a) && KeyOf(c.sink, a) in replies ==>
                !ReplyVerdict(c, replies[KeyOf(c.sink, a)]).WasRefused?
  {
    if buffer != [] {
      VerdictsRefuse(c, buffer[1..], replies, verdicts[1..]);
      assert forall a :: a in buffer <==> a == buffer[0] || a in buffer[1..];
    }
  }

  /** When the call raised every record is refused; if only where that is due, no record was small. */
  lemma {:induction false} RaisedRefuses(c: Config, buffer: seq<AerospikeRecord>, verdicts: seq<Verdict>)
    requires |verdicts| == |buffer| && forall i :: 0 <= i < |verdicts| ==> verdicts[i].WasRefused?
    ensures SumBuffer(c, Errors, buffer) <= SumVerdicts(Errors, verdicts)
    ensures SumBuffer(c, Errors, buffer) == SumVerdicts(Errors, verdicts) ==> Winners(c.sink, buffer) == map[]
  {
    SumUpTo(c, buffer, verdicts);
    if SumBuffer(c, Errors, buffer) == SumVerdicts(Errors, verdicts) {
      forall k | k in Winners(c.sink, buffer) ensures false { WinnerFits(c.sink, buffer, k); }
    }
  }

  lemma {:induction false} SumUpTo(c: Config, buffer: seq<AerospikeRecord>, verdicts: seq<Verdict>)
    requires |verdicts| == |buffer| && forall i :: 0 <= i < |verdicts| ==> verdicts[i].WasRefused?
    ensures SumBuffer(c, Errors, buffer) <= |buffer| == SumVerdicts(Errors, verdicts)
    ensures SumBuffer(c, Errors, buffer) == |buffer| ==> forall a :: a in buffer ==> TooLarge(c.sink, a)
  {
    if buffer != [] {
      SumUpTo(c, buffer[1..], verdicts[1..]);
      assert forall a :: a in buffer <==> a == buffer[0] || a in buffer[1..];
    }
  }

  lemma ErrorsGain(c: Config, s: State, e: Event)
    requires CanHappen(c, s, e)
    ensures Gain(c, Errors, s, e) >= 0
  {
    if e.Return? {
      var worker := s.workers[e.w];
      VerdictsRefuse(c, worker.buffer, worker.phase.replies, Verdicts(c, worker.buffer, worker.phase.replies));
    } else if e.Raise? {
      RaisedRefuses(c, s.workers[e.w].buffer, Next(c, s, e).workers[e.w].phase.verdicts);
    }
  }

  /** No run reports fewer errors than are due. */
  lemma {:induction false} ErrorsOnlyGrow(c: Config, s: State, events: seq<Event>, t: State)
    requires TruthfulRun(c, s, events, t)
    ensures Outlook(c, Errors, s) <= Outlook(c, Errors, t)
    decreases |events|
  {
    if events != [] {
      StepOutlook(c, Errors, s, events[0]);
      ErrorsGain(c, s, events[0]);
      ErrorsOnlyGrow(c, Next(c, s, events[0]), events[1..], t);
    }
  }

  // ----- No error too many: every key gets there -----

  predicate DoubtIn(c: Config, w: Worker, k: RecordKey) {
    w.phase.Sending? && k in w.phase.replies && ReplyVerdict(c, w.phase.replies[k]).WasRefused?
  }

  /** A worker has yet to report that a write of `k` was refused. */
  ghost predicate Doubtful(c: Config, s: State, k: RecordKey) {
    exists w :: 0 <= w < |s.workers| && DoubtIn(c, s.workers[w], k)
  }

  /** Each key of the source is on its way, or holds what it is to end with, or is to be reported as refused. */
  ghost predicate Traced(c: Config, image: map<RecordKey, AerospikeRecord>, init: Store, s: State) {
    forall k :: k in image ==>
      Waiting(c, s, k) || Lookup(s.store, k) == Expect(c, image, init, k) || Doubtful(c, s, k)
  }

  /** A write call that ends without an error too many leaves no key in doubt. */
  lemma EndClearsDoubt(c: Config, s: State, e: Event, k: RecordKey)
    requires Shape(c, s) && CanHappen(c, s, e) && (e.Return? || e.Raise?) && Gain(c, Errors, s, e) == 0
    ensures !DoubtIn(c, s.workers[e.w], k)
    ensures e.Raise? ==> WorkerKeys(c, s.workers[e.w]) == {}
  {
    var worker := s.workers[e.w];
    var replies, buffer := worker.phase.replies, worker.buffer;
    assert WorkerOk(c, worker);
    assert worker.phase.pending.Keys + replies.Keys == Winners(c.sink, buffer).Keys;
    if e.Return? {
      VerdictsRefuse(c, buffer, replies, Verdicts(c, buffer, replies));
      if k in replies { WinnerFits(c.sink, buffer, k); }
    } else {
      RaisedRefuses(c, buffer, Next(c, s, e).workers[e.w].phase.verdicts);
      assert worker.phase.pending.Keys == {} && replies.Keys == {};
    }
  }

  lemma RaiseStillWaiting(c: Config, s: State, e: Event, k: RecordKey)
    requires CanHappen(c, s, e) && e.Raise? && WorkerKeys(c, s.workers[e.w]) == {} && Waiting(c, s, k)
    ensures Waiting(c, Next(c, s, e), k)
  {
    var t := Next(c, s, e);
    if v :| 0 <= v < |s.workers| && k in WorkerKeys(c, s.workers[v]) {
      assert v != e.w && t.workers[v] == s.workers[v];
    }
  }

  lemma SendKeepsDoubt(c: Config, s: State, e: Event, k: RecordKey)
    requires Shape(c, s) && e.Send? && CanHappen(c, s, e) && DoubtIn(c, s.workers[e.w], k)
    ensures DoubtIn(c, Next(c, s, e).workers[e.w], k)
  {
    assert WorkerOk(c, s.workers[e.w]);
  }

  lemma WorkerKeepsDoubt(c: Config, s: State, e: Event, w: nat, k: RecordKey)
    requires Shape(c, s) && CanHappen(c, s, e) && Gain(c, Errors, s, e) == 0
    requires w < |s.workers| && DoubtIn(c, s.workers[w], k)
    ensures w < |Next(c, s, e).workers| && DoubtIn(c, Next(c, s, e).workers[w], k)
  {
    if Actor(e) != Some(w) {
      OthersLeaveAlone(c, s, e, w);
    } else if e.Send? {
      SendKeepsDoubt(c, s, e, k);
    } else {
      EndClearsDoubt(c, s, e, k);
    }
  }

  lemma StepKeepsDoubt(c: Config, s: State, e: Event, k: RecordKey)
    requires Shape(c, s) && CanHappen(c, s, e) && Gain(c, Errors, s, e) == 0 && Doubtful(c, s, k)
    ensures Doubtful(c, Next(c, s, e), k)
  {
    var w :| 0 <= w < |s.workers| && DoubtIn(c, s.workers[w], k);
    WorkerKeepsDoubt(c, s, e, w, k);
  }

  /** A key that is written is settled, or in doubt. */
  lemma SendKeepsTrace(c: Config, image: map<RecordKey, AerospikeRecord>, init: Store, s: State, e: Event)
    requires Shape(c, s) && AllFit(c, image, s) && Untainted(c, image, init, s.store)
    requires e.Send? && CanHappen(c, s, e) && Truthful(c, s, e)
    ensures Lookup(Next(c, s, e).store, e.key) == Expect(c, image, init, e.key) || Doubtful(c, Next(c, s, e), e.key)
    ensures forall k :: Lookup(s.store, k) == Expect(c, image, init, k) ==>
              Lookup(Next(c, s, e).store, k) == Expect(c, image, init, k)
  {
    AnySend(c, image, init, s, e);
    ReasonMeaning(c.sink, e.reply);
    if ReplyVerdict(c, e.reply).WasRefused? { assert DoubtIn(c, Next(c, s, e).workers[e.w], e.key); }
  }

  lemma StepKeepsTrace(c: Config, image: map<RecordKey, AerospikeRecord>, init: Store, s: State, e: Event)
    requires Shape(c, s) && AllFit(c, image, s) && Untainted(c, image, init, s.store) && Traced(c, image, init, s)
    requires CanHappen(c, s, e) && Truthful(c, s, e) && Gain(c, Errors, s, e) == 0
    ensures Traced(c, image, init, Next(c, s, e))
  {
    var t := Next(c, s, e);
    if e.Send? {
      SendKeepsTrace(c, image, init, s, e);
    } else {
      assert t.store == s.store;
    }
    forall k | k in image
      ensures Waiting(c, t, k) || Lookup(t.store, k) == Expect(c, image, init, k) || Doubtful(c, t, k)
    {
      if Doubtful(c, s, k) {
        StepKeepsDoubt(c, s, e, k);
      } else if Waiting(c, s, k) {
        if e.Raise? {
          EndClearsDoubt(c, s, e, k);
          RaiseStillWaiting(c, s, e, k);
        } else {
          StillWaiting(c, s, e, k);
        }
      }
    }
  }

  lemma {:induction false} RunKeepsTrace(c: Config, image: map<RecordKey, AerospikeRecord>, init: Store, s: State,
          events: seq<Event>, t: State)
    requires Shape(c, s) && AllFit(c, image, s) && Untainted(c, image, init, s.store) && Traced(c, image, init, s)
    requires TruthfulRun(c, s, events, t) && Outlook(c, Errors, s) == Outlook(c, Errors, t)
    ensures Traced(c, image, init, t) && Untainted(c, image, init, t.store)
    decreases |events|
  {
    if events != [] {
      StepOutlook(c, Errors, s, events[0]);
      ErrorsGain(c, s, events[0]);
      ErrorsOnlyGrow(c, Next(c, s, events[0]), events[1..], t);
      StepKeepsShape(c, s, events[0]);
      StepKeepsFit(c, image, s, events[0]);
      StepStaysUntainted(c, image, init, s, events[0]);
      StepKeepsTrace(c, image, init, s, events[0]);
      RunKeepsTrace(c, image, init, Next(c, s, events[0]), events[1..], t);
    }
  }

  lemma TracedIsSequential(c: Config, source: seq<RedisRecord>, store: Store, events: seq<Event>, t: State)
    requires Alike(c, source) && Run(c, Init(c, source, store), events, t) && t.producer.Done? && !t.raised
    requires Traced(c, Image(c, source), store, t) && Untainted(c, Image(c, source), store, t.store)
    ensures t.store == Sequential(c, source, store)
  {
    var ready := ReadyRecords(c, source);
    NothingIsLost(c, source, store, events, t);
    AlikeCollapses(c, source, store);
    forall k ensures Lookup(t.store, k) == Lookup(BatchStore(c.sink, store, ready), k) {
      BatchStoreAt(c.sink, store, ready, k);
      NothingWaiting(c, source, store, events, t, k);
      assert !Doubtful(c, t, k);
    }
    SameLookups(t.store, BatchStore(c.sink, store, ready));
  }

  lemma FinalErrors(c: Config, source: seq<RedisRecord>, store: Store, events: seq<Event>, t: State)
    requires TruthfulRun(c, Init(c, source, store), events, t) && t.producer.Done? && !t.raised
    ensures Outlook(c, Errors, Init(c, source, store)) == Total(ErrorsOf(c, source)) <= t.tally.errors
    ensures Outlook(c, Errors, t) == t.tally.errors
  {
    InitOutlook(c, Errors, source, store);
    DueErrors(c, source);
    ErrorsOnlyGrow(c, Init(c, source, store), events, t);
    TruthfulRunIsRun(c, Init(c, source, store), events, t);
    FinalOutlook(c, Errors, source, store, events, t);
  }

  /** The report tells whether the store is complete. A complete run whose source did not raise reports at least the
      errors of the source; if it reports no more, or none at all, its store is that of the sequential loop, whatever
      failed or raised on the way. */
  lemma ReportTellsStore(c: Config, source: seq<RedisRecord>, store: Store, events: seq<Event>, t: State)
    requires Alike(c, source)
    requires TruthfulRun(c, Init(c, source, store), events, t) && t.producer.Done? && !t.raised
    ensures Total(ErrorsOf(c, source)) <= t.tally.errors
    ensures t.tally.errors == Total(ErrorsOf(c, source)) || t.tally.errors == 0 ==>
              t.store == Sequential(c, source, store)
  {
    FinalErrors(c, source, store, events, t);
    if t.tally.errors == Total(ErrorsOf(c, source)) {
      InitInvariant(c, source, store);
      InitOnCourse(c, source, store);
      RunKeepsTrace(c, Image(c, source), store, Init(c, source, store), events, t);
      TruthfulRunIsRun(c, Init(c, source, store), events, t);
      TracedIsSequential(c, source, store, events, t);
    }
  }
}
