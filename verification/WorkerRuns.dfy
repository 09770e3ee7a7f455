/**
 One worker's part of a run: the buffers it flushes are the records it took, converted and cut into batches.
 The transition system and the loop of the code make the same calls.
 */
module WorkerRuns {
  import opened Models
  import opened Sequences
  import opened Server
  import opened Pipeline
  import opened Accounting
  import opened Shutdown
  import opened Independence

  /** The record that worker `w` takes off the queue with an event, if any. */
  function StepTook(s: State, e: Event, w: nat): seq<RedisRecord> {
    if e.Take? && e.w == w && s.queue != [] && s.queue[0].Record? then [s.queue[0].record] else []
  }

  /** The buffer whose write call returns or raises with an event, if it is worker `w`'s. */
  function StepFlushed(s: State, e: Event, w: nat): seq<seq<AerospikeRecord>> {
    if (e.Return? || e.Raise?) && e.w == w && w < |s.workers| then [s.workers[w].buffer] else []
  }

  /** The records worker `w` takes in a run, in order. */
  ghost function Took(c: Config, s: State, events: seq<Event>, w: nat): seq<RedisRecord>
    decreases |events|
  {
    if events == [] || !CanHappen(c, s, events[0]) then []
    else StepTook(s, events[0], w) + Took(c, Next(c, s, events[0]), events[1..], w)
  }

  /** The buffers worker `w` flushes in a run, in order. */
  ghost function Flushed(c: Config, s: State, events: seq<Event>, w: nat): seq<seq<AerospikeRecord>>
    decreases |events|
  {
    if events == [] || !CanHappen(c, s, events[0]) then []
    else StepFlushed(s, events[0], w) + Flushed(c, Next(c, s, events[0]), events[1..], w)
  }

  function InHand(worker: Worker): seq<RedisRecord> { if worker.phase.Got? then [worker.phase.record] else [] }

  /** The records to write that the worker holds, its current item included. */
  function Carried(c: Config, worker: Worker): seq<AerospikeRecord> {
    worker.buffer + ReadyRecords(c, InHand(worker))
  }

  lemma {:induction false} ReadyConcat(c: Config, a: seq<RedisRecord>, b: seq<RedisRecord>)
    ensures ReadyRecords(c, a + b) == ReadyRecords(c, a) + ReadyRecords(c, b)
  {
    if b == [] {
      assert a + b == a;
    } else {
      var n := |b| - 1;
      assert (a + b)[..|a + b|-1] == a + b[..n];
      ReadyConcat(c, a, b[..n]);
    }
  }

  lemma ReadyOne(c: Config, r: RedisRecord)
    ensures ReadyRecords(c, [r]) == if c.prepare(r).Ready? then [c.prepare(r).record] else []
  {
    assert [r][..0] == [] && ReadyRecords(c, []) == [];
  }

  lemma FlattenOne(buffer: seq<AerospikeRecord>)
    ensures Flatten([buffer]) == buffer
  {
    assert [buffer][..0] == [];
  }

  /** What the worker holds, with what it takes, is what it flushes and goes on holding. */
  ghost predicate Passes(c: Config, s: State, e: Event, w: nat)
    requires CanHappen(c, s, e) && w < |s.workers|
  {
    var t := Next(c, s, e);
    && |t.workers| == |s.workers|
    && Carried(c, s.workers[w]) + ReadyRecords(c, StepTook(s, e, w))
         == Flatten(StepFlushed(s, e, w)) + Carried(c, t.workers[w])
  }

  lemma PreparePasses(c: Config, s: State, w: nat)
    requires CanHappen(c, s, Prepare(w))
    ensures Passes(c, s, Prepare(w), w)
  {
    var worker, next := s.workers[w], DoPrepare(c, s, w).workers[w];
    ReadyOne(c, worker.phase.record);
    assert InHand(worker) == [worker.phase.record] && InHand(next) == [];
    assert ReadyRecords(c, []) == [];
    assert next.buffer == worker.buffer + ReadyRecords(c, InHand(worker));
  }

  lemma TakePasses(c: Config, s: State, w: nat)
    requires CanHappen(c, s, Take(w))
    ensures Passes(c, s, Take(w), w)
  {
    var worker, next := s.workers[w], DoTake(s, w).workers[w];
    assert InHand(worker) == [] && InHand(next) == StepTook(s, Take(w), w) && next.buffer == worker.buffer;
    assert ReadyRecords(c, []) == [];
  }

  lemma EndPasses(c: Config, s: State, e: Event, w: nat)
    requires CanHappen(c, s, e) && Actor(e) == Some(w) && (e.Return? || e.Raise?)
    ensures Passes(c, s, e, w)
  {
    var worker, next := s.workers[w], Next(c, s, e).workers[w];
    FlattenOne(worker.buffer);
    assert InHand(worker) == [] && InHand(next) == [] && next.buffer == [];
    assert ReadyRecords(c, []) == [];
  }

  lemma OthersPass(c: Config, s: State, e: Event, w: nat)
    requires CanHappen(c, s, e) && Actor(e) == Some(w) && (e.Throttle? || e.Wake? || e.Send? || e.Count?)
    ensures Passes(c, s, e, w)
  {
    var worker, next := s.workers[w], Next(c, s, e).workers[w];
    assert InHand(worker) == [] && InHand(next) == [] && next.buffer == worker.buffer;
  }

  lemma OwnStepPasses(c: Config, s: State, e: Event, w: nat)
    requires CanHappen(c, s, e) && w < |s.workers| && (Actor(e) == Some(w) || e == Take(w))
    ensures Passes(c, s, e, w)
  {
    if e.Prepare? {
      PreparePasses(c, s, w);
    } else if e.Take? {
      TakePasses(c, s, w);
    } else if e.Return? || e.Raise? {
      EndPasses(c, s, e, w);
    } else {
      OthersPass(c, s, e, w);
    }
  }

  lemma StepPasses(c: Config, s: State, e: Event, w: nat)
    requires CanHappen(c, s, e) && w < |s.workers|
    ensures Passes(c, s, e, w)
  {
    if Actor(e) == Some(w) || e == Take(w) {
      OwnStepPasses(c, s, e, w);
    } else {
      OthersLeaveAlone(c, s, e, w);
    }
  }

  lemma Chain<T>(a: seq<T>, took: seq<T>, flushed: seq<T>, b: seq<T>, tookLater: seq<T>, flushedLater: seq<T>,
          d: seq<T>)
    requires a + took == flushed + b && b + tookLater == flushedLater + d
    ensures a + (took + tookLater) == (flushed + flushedLater) + d
  {
    assert a + (took + tookLater) == (a + took) + tookLater;
    assert flushed + (b + tookLater) == (flushed + b) + tookLater;
    assert flushed + (flushedLater + d) == (flushed + flushedLater) + d;
  }

  /** In every run, what a worker carried and took is what it flushed and carries, in order. */
  lemma {:induction false} FlushesFollowTakes(c: Config, s: State, events: seq<Event>, t: State, w: nat)
    requires Run(c, s, events, t) && w < |s.workers|
    ensures |t.workers| == |s.workers|
    ensures Carried(c, s.workers[w]) + ReadyRecords(c, Took(c, s, events, w))
         == Flatten(Flushed(c, s, events, w)) + Carried(c, t.workers[w])
    decreases |events|
  {
    if events != [] {
      var e := events[0];
      var m := Next(c, s, e);
      var took, flushed := Took(c, m, events[1..], w), Flushed(c, m, events[1..], w);
      StepPasses(c, s, e, w);
      FlushesFollowTakes(c, m, events[1..], t, w);
      ReadyConcat(c, StepTook(s, e, w), took);
      FlattenConcat(StepFlushed(s, e, w), flushed);
      Chain(Carried(c, s.workers[w]), ReadyRecords(c, StepTook(s, e, w)), Flatten(StepFlushed(s, e, w)),
            Carried(c, m.workers[w]), ReadyRecords(c, took), Flatten(flushed), Carried(c, t.workers[w]));
    }
  }

  // ----- Full batches and one last partial one -----

  /** How many flushes the worker can still make: none once it has flushed after its stop marker, and one before. */
  predicate FewLeft(worker: Worker, flushes: nat) {
    worker.stops == 0 || flushes == 0 || (flushes == 1 && !worker.phase.Reporting? && !worker.phase.Exited?)
  }

  lemma {:induction false} FlushesAreChunked(c: Config, s: State, events: seq<Event>, t: State, w: nat)
    requires Shape(c, s) && Run(c, s, events, t) && w < |s.workers|
    ensures Chunked(Flushed(c, s, events, w), BatchSize(c))
    ensures FewLeft(s.workers[w], |Flushed(c, s, events, w)|)
    decreases |events|
  {
    if events != [] {
      var e := events[0];
      var m := Next(c, s, e);
      var rest := Flushed(c, m, events[1..], w);
      StepKeepsShape(c, s, e);
      FlushesAreChunked(c, m, events[1..], t, w);
      if StepFlushed(s, e, w) != [] {
        FlushIsChunk(c, s, e, w);
        ChunkedCons(s.workers[w].buffer, rest, BatchSize(c));
      } else {
        StepKeepsFewLeft(c, s, e, w, |rest|);
        assert StepFlushed(s, e, w) + rest == rest;
      }
    }
  }

  lemma FlushIsChunk(c: Config, s: State, e: Event, w: nat)
    requires Shape(c, s) && CanHappen(c, s, e) && StepFlushed(s, e, w) != []
    ensures StepFlushed(s, e, w) == [s.workers[w].buffer] && FlushReady(c, s.workers[w])
    ensures w < |Next(c, s, e).workers| && Next(c, s, e).workers[w].phase.Reporting?
    ensures Next(c, s, e).workers[w].stops == s.workers[w].stops <= 1
    ensures !s.workers[w].phase.Reporting? && !s.workers[w].phase.Exited?
  {
    assert WorkerOk(c, s.workers[w]);
  }

  lemma StepKeepsFewLeft(c: Config, s: State, e: Event, w: nat, flushes: nat)
    requires Shape(c, s) && CanHappen(c, s, e) && w < |s.workers| && StepFlushed(s, e, w) == []
    requires w < |Next(c, s, e).workers| && FewLeft(Next(c, s, e).workers[w], flushes)
    ensures FewLeft(s.workers[w], flushes)
  {
    assert WorkerOk(c, s.workers[w]);
    if Actor(e) == Some(w) {
      ActorStep(c, s, e);
    } else if e != Take(w) {
      OthersLeaveAlone(c, s, e, w);
    }
  }

  lemma EmptyEnds<T>(a: seq<T>, took: seq<T>, flushed: seq<T>, b: seq<T>)
    requires a + took == flushed + b && a == [] && b == []
    ensures flushed == took
  {
    assert a + took == took && flushed + b == flushed;
  }

  /** From empty hands to empty hands. */
  lemma FlushesBetween(c: Config, s: State, events: seq<Event>, t: State, w: nat)
    requires Run(c, s, events, t) && w < |s.workers| && w < |t.workers|
    requires Carried(c, s.workers[w]) == [] && Carried(c, t.workers[w]) == []
    ensures Flatten(Flushed(c, s, events, w)) == ReadyRecords(c, Took(c, s, events, w))
  {
    FlushesFollowTakes(c, s, events, t, w);
    EmptyEnds(Carried(c, s.workers[w]), ReadyRecords(c, Took(c, s, events, w)), Flatten(Flushed(c, s, events, w)),
          Carried(c, t.workers[w]));
  }

  /** At the end of every run each worker has flushed the records it took, converted and in order, in full batches and
      at most one last partial one. */
  lemma WorkerFlushes(c: Config, source: seq<RedisRecord>, store: Store, events: seq<Event>, t: State, w: nat,
          took: seq<RedisRecord>, flushed: seq<seq<AerospikeRecord>>)
    requires Run(c, Init(c, source, store), events, t) && t.producer.Done? && w < WorkerCount(c)
    requires took == Took(c, Init(c, source, store), events, w)
    requires flushed == Flushed(c, Init(c, source, store), events, w)
    ensures Flatten(flushed) == ReadyRecords(c, took) && Chunked(flushed, BatchSize(c))
  {
    var s := Init(c, source, store);
    InitInvariant(c, source, store);
    EndsEmpty(c, source, store, events, t, w);
    CarriesNothing(c, s.workers[w]);
    CarriesNothing(c, t.workers[w]);
    FlushesBetween(c, s, events, t, w);
    FlushesAreChunked(c, s, events, t, w);
  }

  lemma CarriesNothing(c: Config, worker: Worker)
    requires worker.buffer == [] && !worker.phase.Got?
    ensures Carried(c, worker) == []
  {
  }

  lemma EndsEmpty(c: Config, source: seq<RedisRecord>, store: Store, events: seq<Event>, t: State, w: nat)
    requires Run(c, Init(c, source, store), events, t) && t.producer.Done? && w < WorkerCount(c)
    ensures w < |t.workers| && t.workers[w].phase.Exited? && t.workers[w].buffer == []
  {
    NothingIsLost(c, source, store, events, t);
  }

  /** So they are the calls of the worker's loop on those records. */
  lemma LoopMakesTheFlushes(c: Config, source: seq<RedisRecord>, store: Store, events: seq<Event>, t: State, w: nat,
          took: seq<RedisRecord>, calls: seq<seq<AerospikeRecord>>)
    requires Run(c, Init(c, source, store), events, t) && t.producer.Done? && w < WorkerCount(c)
    requires took == Took(c, Init(c, source, store), events, w)
    requires Flatten(calls) == ReadyRecords(c, took) && Chunked(calls, BatchSize(c))
    ensures calls == Flushed(c, Init(c, source, store), events, w)
  {
    var flushed := Flushed(c, Init(c, source, store), events, w);
    WorkerFlushes(c, source, store, events, t, w, took, flushed);
    ChunkedUnique(calls, flushed, BatchSize(c));
  }
}
