/**
 Conservation, bounded in-flight work, and shutdown without loss or deadlock: the main results about
 every run of the pipeline.
 */
module Shutdown {
  import opened Models
  import opened Sequences
  import opened Server
  import opened Sink
  import opened BatchWriter
  import opened RateLimit
  import opened Stats
  import opened Pipeline
  import opened Accounting

  // ----- Conservation -----

  /** Every record read from the source so far is counted as scanned or in the producer's hand. */
  predicate Read(total: nat, s: State) {
    && s.tally.scanned + |s.source| + (if s.producer.Holding? && !s.producer.counted then 1 else 0) == total
    && ((s.producer.Stopping? || s.producer.Done?) && !s.raised ==> s.source == [])
  }

  lemma StepKeepsRead(c: Config, total: nat, s: State, e: Event)
    requires Read(total, s) && CanHappen(c, s, e)
    ensures Read(total, Next(c, s, e))
  {
    if Actor(e).Some? {
      ActorStep(c, s, e);
      ActorKeepsSource(c, s, e);
    }
  }

  lemma {:induction false} RunKeepsRead(c: Config, total: nat, s: State, events: seq<Event>, t: State)
    requires Read(total, s) && Run(c, s, events, t)
    ensures Read(total, t)
    decreases |events|
  {
    if events != [] {
      StepKeepsRead(c, total, s, events[0]);
      RunKeepsRead(c, total, Next(c, s, events[0]), events[1..], t);
    }
  }

  /** In every reachable state the scanned records are those counted as migrated, skipped or failed plus
      those the producer, the queue and the workers still hold, and both breakdowns add up. */
  lemma Conservation(c: Config, source: seq<RedisRecord>, store: Store, events: seq<Event>, t: State)
    requires Run(c, Init(c, source, store), events, t)
    ensures t.tally.scanned == t.tally.migrated + t.tally.skipped + t.tally.errors + InFlight(t)
    ensures Total(t.tally.skippedByType) == t.tally.skipped && Total(t.tally.errorsByType) == t.tally.errors
    ensures t.tally.scanned <= |source|
  {
    InitInvariant(c, source, store);
    RunKeepsInvariant(c, Init(c, source, store), events, t);
    RunKeepsRead(c, |source|, Init(c, source, store), events, t);
  }

  // ----- Bounded in-flight work -----

  /** In every reachable state each worker holds at most a batch, its current item included, so the records
      scanned and not yet counted fit in the queue, the batches and the producer's hand. */
  lemma InFlightBound(c: Config, source: seq<RedisRecord>, store: Store, events: seq<Event>, t: State)
    requires Run(c, Init(c, source, store), events, t) && c.queueSize >= 1
    ensures forall w :: 0 <= w < |t.workers| ==> Held(t.workers[w]) <= BatchSize(c)
    ensures |t.queue| <= c.queueSize
    ensures t.tally.scanned - (t.tally.migrated + t.tally.skipped + t.tally.errors)
         <= c.queueSize + (if c.workers < 1 then 1 else c.workers) * (if c.batchSize < 1 then 1 else c.batchSize) + 1
  {
    InitInvariant(c, source, store);
    RunKeepsInvariant(c, Init(c, source, store), events, t);
    QueueParts(t.queue);
    forall w | 0 <= w < |t.workers| ensures Held(t.workers[w]) <= BatchSize(c) {
      assert WorkerOk(c, t.workers[w]);
    }
    SumBound(t.workers, Held, BatchSize(c));
  }

  // ----- No deadlock -----

  /** An event that is no failure: the server applies what the policy admits and answers OK, and otherwise answers
      with the given code that the record exists. */
  predicate Calm(c: Config, s: State, e: Event, code: int) {
    && !e.Raise? && !e.SourceRaises?
    && (e.Send? ==> if Admits(c.sink.policy, Lookup(s.store, e.key)) then e.reply.code == 0
          else e.reply.code == code && !e.applied)
  }

  /** A worker that has not exited can always step, unless it waits on an empty queue. */
  lemma WorkerCanStep(c: Config, s: State, w: nat, code: int) returns (e: Event)
    requires Shape(c, s) && TicketsValid(s) && w < |s.workers| && !s.workers[w].phase.Exited? && code != 0
    requires s.workers[w].phase.Idle? ==> s.queue != []
    ensures CanHappen(c, s, e) && Calm(c, s, e, code)
  {
    assert WorkerOk(c, s.workers[w]);
    match s.workers[w].phase
    case Idle => e := Take(w);
    case Got(_) => e := Prepare(w);
    case Throttling => e := Throttle(w, s.clock);
    case Sleeping(ticket) => e := Wake(w, RMax(s.clock, s.log[ticket].at));
    case Sending(pending, _) =>
      if pending == map[] {
        e := Return(w);
      } else {
        var key :| key in pending;
        e := if Admits(c.sink.policy, Lookup(s.store, key))
             then Send(w, key, Reply(0, false, ""), true)
             else Send(w, key, Reply(code, false, "RecordExistsError"), false);
      }
    case Reporting(_) => e := Count(w);
  }

  predicate TicketsValid(s: State) {
    forall w :: 0 <= w < |s.workers| && s.workers[w].phase.Sleeping? ==> s.workers[w].phase.ticket < |s.log|
  }

  lemma {:induction false} SomeWorkerLeft(workers: seq<Worker>) returns (w: nat)
    requires StopsTaken(workers) < |workers|
    ensures w < |workers| && workers[w].stops == 0
  {
    if workers[0].stops == 0 {
      w := 0;
    } else {
      w := SomeWorkerLeft(workers[1..]);
      w := w + 1;
    }
  }

  /** In every state that keeps the invariant some event can happen that is no failure, until the run is over. */
  lemma NoDeadlock(c: Config, s: State, code: int) returns (e: Event)
    requires Invariant(c, s) && TicketsValid(s) && !s.producer.Done? && code != 0
    ensures CanHappen(c, s, e) && Calm(c, s, e, code)
  {
    QueueParts(s.queue);
    match s.producer
    case Fetching => e := if s.source == [] then SourceEnds else Fetch;
    case Holding(_, counted) =>
      if !counted {
        e := CountScanned;
      } else if CanPut(c, s) {
        e := PutRecord;
      } else {
        var w := SomeWorkerLeft(s.workers);
        assert WorkerOk(c, s.workers[w]);
        e := WorkerCanStep(c, s, w, code);
      }
    case Stopping(left) =>
      if left > 0 && CanPut(c, s) {
        e := PutStop;
      } else if w :| 0 <= w < |s.workers| && !s.workers[w].phase.Exited? && s.workers[w].stops > 0 {
        assert WorkerOk(c, s.workers[w]);
        e := WorkerCanStep(c, s, w, code);
      } else if StopsTaken(s.workers) < |s.workers| {
        var w := SomeWorkerLeft(s.workers);
        assert WorkerOk(c, s.workers[w]);
        e := WorkerCanStep(c, s, w, code);
      } else {
        AllStopped(c, s);
        e := Join;
      }
  }

  lemma {:induction false} StopsPerWorker(workers: seq<Worker>)
    requires forall w :: 0 <= w < |workers| ==> workers[w].stops <= 1
    ensures StopsTaken(workers) <= |workers|
    ensures StopsTaken(workers) == |workers| ==> forall w :: 0 <= w < |workers| ==> workers[w].stops == 1
  {
    if workers != [] {
      assert forall w :: 0 <= w < |workers[1..]| ==> workers[1..][w] == workers[w+1];
      StopsPerWorker(workers[1..]);
      assert forall w :: 0 < w < |workers| ==> workers[w] == workers[1..][w-1];
    }
  }

  lemma AllStopped(c: Config, s: State)
    requires Shape(c, s) && Ordered(c, s) && s.producer.Stopping? && StopsTaken(s.workers) >= |s.workers|
    requires forall w :: 0 <= w < |s.workers| ==> s.workers[w].phase.Exited? || s.workers[w].stops == 0
    ensures s.producer == Stopping(0) && forall w :: 0 <= w < |s.workers| ==> s.workers[w].phase.Exited?
  {
    forall w | 0 <= w < |s.workers| ensures s.workers[w].stops <= 1 { assert WorkerOk(c, s.workers[w]); }
    StopsPerWorker(s.workers);
  }

  // ----- Termination -----

  /** Steps a worker can still take with what it holds. */
  function WorkerMeasure(w: Worker): nat {
    match w.phase
    case Idle => 10 * |w.buffer|
    case Got(_) => 16 + 10 * |w.buffer|
    case Throttling => 4 + 10 * |w.buffer|
    case Sleeping(_) => 3 + 10 * |w.buffer|
    case Sending(pending, _) => 2 + 8 * |w.buffer| + |pending|
    case Reporting(verdicts) => |verdicts|
    case Exited => 0
  }

  function WorkersMeasure(workers: seq<Worker>): nat {
    Sum(workers, WorkerMeasure)
  }

  function ProducerMeasure(c: Config, p: Producer): nat {
    match p
    case Fetching => 8 * WorkerCount(c) + 2
    case Holding(_, counted) => 8 * WorkerCount(c) + 2 + (if counted then 18 else 19)
    case Stopping(left) => 8 * left + 1
    case Done => 0
  }

  /** An upper bound on the number of steps left. */
  function Measure(c: Config, s: State): nat {
    20 * |s.source| + ProducerMeasure(c, s.producer) + 17 * Records(s.queue) + 6 * Stops(s.queue) +
          WorkersMeasure(s.workers)
  }

  lemma {:induction false} FewWinners(cfg: SinkConfig, records: seq<AerospikeRecord>)
    ensures |Winners(cfg, records)| <= |records|
  {
    if records != [] {
      var n := |records| - 1;
      FewWinners(cfg, records[..n]);
      var front, k := Winners(cfg, records[..n]), KeyOf(cfg, records[n]);
      assert front[k := records[n]].Keys == front.Keys + {k};
    }
  }

  lemma SendProgress(c: Config, s: State, e: Event)
    requires CanHappen(c, s, e) && e.Send?
    ensures WorkerMeasure(Next(c, s, e).workers[e.w]) < WorkerMeasure(s.workers[e.w])
  {
    var pending := s.workers[e.w].phase.pending;
    assert (pending - {e.key}).Keys == pending.Keys - {e.key};
    assert |(pending - {e.key}).Keys| < |pending.Keys|;
  }

  lemma WakeProgress(c: Config, s: State, e: Event)
    requires CanHappen(c, s, e) && e.Wake?
    ensures WorkerMeasure(Next(c, s, e).workers[e.w]) < WorkerMeasure(s.workers[e.w])
  {
    FewWinners(c.sink, s.workers[e.w].buffer);
  }

  lemma PrepareProgress(c: Config, s: State, e: Event)
    requires CanHappen(c, s, e) && e.Prepare?
    ensures WorkerMeasure(Next(c, s, e).workers[e.w]) < WorkerMeasure(s.workers[e.w])
  {
    var worker := s.workers[e.w];
    assert forall r :: |worker.buffer + [r]| == |worker.buffer| + 1;
  }

  lemma ThrottleProgress(c: Config, s: State, e: Event)
    requires CanHappen(c, s, e) && e.Throttle?
    ensures WorkerMeasure(Next(c, s, e).workers[e.w]) < WorkerMeasure(s.workers[e.w])
  {
  }

  lemma FlushProgress(c: Config, s: State, e: Event)
    requires CanHappen(c, s, e) && (e.Return? || e.Raise?)
    ensures WorkerMeasure(Next(c, s, e).workers[e.w]) < WorkerMeasure(s.workers[e.w])
  {
    var next := Next(c, s, e).workers[e.w];
    assert next.phase.Reporting? && |next.phase.verdicts| == |s.workers[e.w].buffer|;
  }

  lemma CountProgress(c: Config, s: State, e: Event)
    requires CanHappen(c, s, e) && e.Count? && WorkerOk(c, s.workers[e.w])
    ensures WorkerMeasure(Next(c, s, e).workers[e.w]) < WorkerMeasure(s.workers[e.w])
  {
  }

  lemma ActorProgress(c: Config, s: State, e: Event)
    requires Shape(c, s) && CanHappen(c, s, e) && Actor(e).Some?
    ensures WorkerMeasure(Next(c, s, e).workers[Actor(e).value]) < WorkerMeasure(s.workers[Actor(e).value])
  {
    assert WorkerOk(c, s.workers[Actor(e).value]);
    if e.Wake? {
      WakeProgress(c, s, e);
    } else if e.Send? {
      SendProgress(c, s, e);
    } else if e.Prepare? {
      PrepareProgress(c, s, e);
    } else if e.Count? {
      CountProgress(c, s, e);
    } else if e.Throttle? {
      ThrottleProgress(c, s, e);
    } else {
      FlushProgress(c, s, e);
    }
  }

  lemma ActorRunsOut(c: Config, s: State, e: Event)
    requires Shape(c, s) && CanHappen(c, s, e) && Actor(e).Some?
    ensures Measure(c, Next(c, s, e)) < Measure(c, s)
  {
    var t := Next(c, s, e);
    ActorStep(c, s, e);
    ActorProgress(c, s, e);
    ActorKeepsSource(c, s, e);
    SumUpdate(s.workers, Actor(e).value, t.workers[Actor(e).value], WorkerMeasure);
  }

  lemma ActorKeepsSource(c: Config, s: State, e: Event)
    requires CanHappen(c, s, e) && Actor(e).Some?
    ensures Next(c, s, e).source == s.source && Next(c, s, e).raised == s.raised
  {
  }

  lemma TakeRunsOut(c: Config, s: State, w: nat)
    requires Shape(c, s) && CanHappen(c, s, Take(w))
    ensures Measure(c, Next(c, s, Take(w))) < Measure(c, s)
  {
    SumUpdate(s.workers, w, Next(c, s, Take(w)).workers[w], WorkerMeasure);
  }

  /** Every step of every thread uses up part of the measure. */
  lemma StepsRunOut(c: Config, s: State, e: Event)
    requires Shape(c, s) && CanHappen(c, s, e)
    ensures Measure(c, Next(c, s, e)) < Measure(c, s)
  {
    if Actor(e).Some? {
      ActorRunsOut(c, s, e);
    } else if e.Take? {
      TakeRunsOut(c, s, e.w);
    } else if e.PutRecord? {
      QueueAppend(s.queue, Record(s.producer.record));
    } else if e.PutStop? {
      QueueAppend(s.queue, Stop);
    }
  }

  /** Every run is finite: it has at most as many steps as the measure of its first state. */
  lemma {:induction false} RunsAreBounded(c: Config, s: State, events: seq<Event>, t: State)
    requires Shape(c, s) && Run(c, s, events, t)
    ensures |events| + Measure(c, t) <= Measure(c, s)
    decreases |events|
  {
    if events != [] {
      StepsRunOut(c, s, events[0]);
      StepKeepsShape(c, s, events[0]);
      RunsAreBounded(c, Next(c, s, events[0]), events[1..], t);
    }
  }

  lemma StepKeepsTickets(c: Config, s: State, e: Event)
    requires TicketsValid(s) && CanHappen(c, s, e)
    ensures TicketsValid(Next(c, s, e))
  {
  }

  lemma {:induction false} RunKeepsTickets(c: Config, s: State, events: seq<Event>, t: State)
    requires TicketsValid(s) && Run(c, s, events, t)
    ensures TicketsValid(t)
    decreases |events|
  {
    if events != [] {
      StepKeepsTickets(c, s, events[0]);
      RunKeepsTickets(c, Next(c, s, events[0]), events[1..], t);
    }
  }

  /** Every reachable state that is not final has an enabled event that is no failure, and every run is at most as
      long as the measure of its first state: no interleaving, queue size or server behaviour blocks or runs on. */
  lemma EveryRunCanFinish(c: Config, source: seq<RedisRecord>, store: Store, events: seq<Event>, t: State, code: int)
    requires Run(c, Init(c, source, store), events, t) && code != 0
    ensures t.producer.Done? || exists e :: CanHappen(c, t, e) && Calm(c, t, e, code)
    ensures t.producer.Done? ==> forall e :: !CanHappen(c, t, e)
    ensures |events| + Measure(c, t) <= Measure(c, Init(c, source, store))
  {
    InitInvariant(c, source, store);
    RunKeepsInvariant(c, Init(c, source, store), events, t);
    RunKeepsTickets(c, Init(c, source, store), events, t);
    RunsAreBounded(c, Init(c, source, store), events, t);
    if t.producer.Done? {
      DoneIsFinal(c, t);
    } else {
      var e := NoDeadlock(c, t, code);
    }
  }

  lemma DoneIsFinal(c: Config, t: State)
    requires t.producer.Done? && forall w :: 0 <= w < |t.workers| ==> t.workers[w].phase.Exited?
    ensures forall e :: !CanHappen(c, t, e)
  {
  }

  // ----- The end of a run -----

  /** FIFO order: once a worker has taken a stop marker, every record has been dequeued before it and the
      producer has none left to put. */
  lemma RecordsBeforeStops(c: Config, source: seq<RedisRecord>, store: Store, events: seq<Event>, t: State, w: nat)
    requires Run(c, Init(c, source, store), events, t) && w < |t.workers| && t.workers[w].stops > 0
    ensures forall i :: 0 <= i < |t.queue| ==> t.queue[i].Stop?
    ensures t.producer.Stopping? || t.producer.Done?
  {
    InitInvariant(c, source, store);
    RunKeepsInvariant(c, Init(c, source, store), events, t);
    SumUpdate(t.workers, w, t.workers[w].(stops := 0), StopsOf);
    QueueParts(t.queue);
  }

  /** When the run is over every worker has taken exactly one stop marker, the queue and all buffers are empty
      and every scanned record has been counted once, even if the source raised midway; if it did not, every
      record of the source has been scanned. */
  lemma NothingIsLost(c: Config, source: seq<RedisRecord>, store: Store, events: seq<Event>, t: State)
    requires Run(c, Init(c, source, store), events, t) && t.producer.Done?
    ensures t.queue == [] && |t.workers| == WorkerCount(c) == if c.workers < 1 then 1 else c.workers
    ensures forall w :: 0 <= w < |t.workers| ==>
              t.workers[w].phase.Exited? && t.workers[w].buffer == [] && t.workers[w].stops == 1
    ensures t.tally.scanned == t.tally.migrated + t.tally.skipped + t.tally.errors
    ensures !t.raised ==> t.tally.scanned == |source|
  {
    InitInvariant(c, source, store);
    RunKeepsInvariant(c, Init(c, source, store), events, t);
    RunKeepsRead(c, |source|, Init(c, source, store), events, t);
    forall w | 0 <= w < |t.workers| ensures t.workers[w].phase.Exited? && t.workers[w].buffer == [] &&
          t.workers[w].stops == 1 {
      assert WorkerOk(c, t.workers[w]);
    }
    AllTaken(t.workers);
    QueueParts(t.queue);
  }

  lemma {:induction false} AllTaken(workers: seq<Worker>)
    requires forall w :: 0 <= w < |workers| ==>
              workers[w].phase.Exited? && workers[w].buffer == [] && workers[w].stops == 1
    ensures StopsTaken(workers) == |workers| && HeldByAll(workers) == 0
  {
    if workers != [] {
      assert forall w :: 0 <= w < |workers[1..]| ==> workers[1..][w] == workers[w+1];
      AllTaken(workers[1..]);
    }
  }
}
