/**
 What every reachable state of the pipeline keeps: no record is lost or counted twice, the work in
 flight is bounded, and stop markers are accounted for one by one.
 */
module Accounting {
  import opened Models
  import opened Sequences
  import opened BatchWriter
  import opened Stats
  import opened Pipeline

  // ----- Records and stop markers held -----

  /** Records a worker holds that have not been counted yet. */
  function Held(w: Worker): nat {
    |w.buffer| + (if w.phase.Got? then 1 else 0) + (if w.phase.Reporting? then |w.phase.verdicts| else 0)
  }

  function HeldByAll(workers: seq<Worker>): nat {
    Sum(workers, Held)
  }

  function StopsOf(w: Worker): nat { w.stops }

  function StopsTaken(workers: seq<Worker>): nat {
    Sum(workers, StopsOf)
  }

  function RecordsIn(item: Item): nat { if item.Record? then 1 else 0 }

  function StopsIn(item: Item): nat { if item.Stop? then 1 else 0 }

  function Records(queue: seq<Item>): nat { Sum(queue, RecordsIn) }

  function Stops(queue: seq<Item>): nat { Sum(queue, StopsIn) }

  /** Records counted as scanned and not yet as migrated, skipped or failed. */
  function InFlight(s: State): nat {
    (if s.producer.Holding? && s.producer.counted then 1 else 0) + Records(s.queue) + HeldByAll(s.workers)
  }

  lemma QueueAppend(queue: seq<Item>, item: Item)
    ensures Records(queue + [item]) == Records(queue) + (if item.Record? then 1 else 0)
    ensures Stops(queue + [item]) == Stops(queue) + (if item.Stop? then 1 else 0)
  {
    SumAppend(queue, item, RecordsIn);
    SumAppend(queue, item, StopsIn);
  }

  lemma {:induction false} QueueParts(queue: seq<Item>)
    ensures Records(queue) + Stops(queue) == |queue|
    ensures Records(queue) == 0 <==> forall i :: 0 <= i < |queue| ==> queue[i].Stop?
    ensures Stops(queue) == 0 <==> forall i :: 0 <= i < |queue| ==> queue[i].Record?
  {
    if queue != [] {
      QueueParts(queue[1..]);
      assert forall i :: 0 < i < |queue| ==> queue[i] == queue[1..][i-1];
    }
  }

  // ----- The invariant -----

  /** The buffer of a worker against its phase: open while it collects, full or last when it is flushed. */
  predicate WorkerOk(c: Config, w: Worker) {
    && w.stops <= 1
    && match w.phase
       case Idle => |w.buffer| < BatchSize(c) && w.stops == 0
       case Got(_) => |w.buffer| < BatchSize(c) && w.stops == 0
       case Throttling => FlushReady(c, w)
       case Sleeping(_) => FlushReady(c, w)
       case Sending(pending, replies) =>
         && FlushReady(c, w)
         && pending.Keys !! replies.Keys
         && pending.Keys + replies.Keys == Winners(c.sink, w.buffer).Keys
         && forall k :: k in pending ==> pending[k] == Winners(c.sink, w.buffer)[k]
       case Reporting(verdicts) => w.buffer == [] && 0 < |verdicts| <= BatchSize(c)
       case Exited => w.buffer == [] && w.stops == 1
  }

  predicate FlushReady(c: Config, w: Worker) {
    0 < |w.buffer| <= BatchSize(c) && (w.stops == 0 ==> |w.buffer| == BatchSize(c))
  }

  ghost predicate StopsLast(queue: seq<Item>) {
    forall i, j :: 0 <= i < j < |queue| && queue[i].Stop? ==> queue[j].Stop?
  }

  /** Every stop marker is yet to be put, in the queue, or taken by a worker. */
  predicate StopsAccounted(c: Config, s: State) {
    match s.producer
    case Fetching => Stops(s.queue) + StopsTaken(s.workers) == 0
    case Holding(_, _) => Stops(s.queue) + StopsTaken(s.workers) == 0
    case Stopping(left) => left + Stops(s.queue) + StopsTaken(s.workers) == WorkerCount(c)
    case Done => Stops(s.queue) + StopsTaken(s.workers) == WorkerCount(c)
  }

  ghost predicate Shape(c: Config, s: State) {
    && |s.workers| == WorkerCount(c)
    && (forall w :: 0 <= w < |s.workers| ==> WorkerOk(c, s.workers[w]))
    && (c.queueSize >= 1 ==> |s.queue| <= c.queueSize)
  }

  ghost predicate Ordered(c: Config, s: State) {
    && StopsAccounted(c, s)
    && StopsLast(s.queue)
    && (StopsTaken(s.workers) > 0 ==> Records(s.queue) == 0)
    && (s.producer.Done? ==> forall w :: 0 <= w < |s.workers| ==> s.workers[w].phase.Exited?)
  }

  ghost predicate Balanced(s: State) {
    s.tally.scanned == s.tally.migrated + s.tally.skipped + s.tally.errors + InFlight(s) && Consistent(s.tally)
  }

  ghost predicate Invariant(c: Config, s: State) {
    Shape(c, s) && Ordered(c, s) && Balanced(s)
  }

  // ----- The invariant holds initially -----

  lemma FreshWorkers(workers: seq<Worker>)
    requires forall w :: 0 <= w < |workers| ==> workers[w] == Worker(Idle, [], 0)
    ensures HeldByAll(workers) == 0 && StopsTaken(workers) == 0
  {
    SumBound(workers, Held, 0);
    SumBound(workers, StopsOf, 0);
  }

  lemma FreshShape(c: Config, s: State)
    requires |s.workers| == WorkerCount(c) && forall w :: 0 <= w < |s.workers| ==> s.workers[w] == Worker(Idle, [], 0)
    requires s.queue == []
    ensures Shape(c, s)
  {
    forall w | 0 <= w < |s.workers| ensures WorkerOk(c, s.workers[w]) {
      assert s.workers[w] == Worker(Idle, [], 0);
    }
  }

  lemma FreshState(c: Config, s: State)
    requires HeldByAll(s.workers) == 0 && StopsTaken(s.workers) == 0
    requires s.producer == Fetching && s.queue == [] && s.tally == EMPTY
    ensures Ordered(c, s) && Balanced(s)
  {
    NothingCounted();
  }

  lemma InitInvariant(c: Config, source: seq<RedisRecord>, store: Server.Store)
    ensures Invariant(c, Init(c, source, store))
  {
    var s := Init(c, source, store);
    FreshWorkers(s.workers);
    FreshShape(c, s);
    FreshState(c, s);
  }

  // ----- Every step keeps it -----

  /** The events by which a worker works on what it holds. */
  function Actor(e: Event): Option<nat> {
    match e
    case Prepare(w) => Some(w)
    case Throttle(w, _) => Some(w)
    case Wake(w, _) => Some(w)
    case Send(w, _, _, _) => Some(w)
    case Return(w) => Some(w)
    case Raise(w, _) => Some(w)
    case Count(w) => Some(w)
    case _ => None
  }

  lemma SendKeepsOk(c: Config, s: State, e: Event)
    requires CanHappen(c, s, e) && e.Send? && WorkerOk(c, s.workers[e.w])
    ensures WorkerOk(c, Next(c, s, e).workers[e.w])
  {
    var phase, next := s.workers[e.w].phase, Next(c, s, e).workers[e.w].phase;
    assert next.pending.Keys == phase.pending.Keys - {e.key};
    assert next.replies.Keys == phase.replies.Keys + {e.key};
  }

  lemma ActorKeepsOk(c: Config, s: State, e: Event)
    requires CanHappen(c, s, e) && Actor(e).Some? && WorkerOk(c, s.workers[Actor(e).value])
    ensures WorkerOk(c, Next(c, s, e).workers[Actor(e).value])
  {
    if e.Send? { SendKeepsOk(c, s, e); }
  }

  lemma StepKeepsShape(c: Config, s: State, e: Event)
    requires Shape(c, s) && CanHappen(c, s, e)
    ensures Shape(c, Next(c, s, e))
  {
    var t := Next(c, s, e);
    if Actor(e).Some? {
      ActorStep(c, s, e);
      assert WorkerOk(c, s.workers[Actor(e).value]);
      ActorKeepsOk(c, s, e);
    } else if e.Take? {
      assert WorkerOk(c, s.workers[e.w]);
      assert WorkerOk(c, t.workers[e.w]);
    }
  }

  /** `t` differs from `s` in worker `w`, which keeps its stop markers and passes on only counted records. */
  predicate Accounted(s: State, t: State, w: nat) {
    && w < |s.workers| && |t.workers| == |s.workers|
    && t.workers == s.workers[w := t.workers[w]]
    && t.producer == s.producer && t.queue == s.queue && !s.workers[w].phase.Exited?
    && t.workers[w].stops == s.workers[w].stops
    && t.tally.scanned == s.tally.scanned
    && Counted(t.tally) + Held(t.workers[w]) == Counted(s.tally) + Held(s.workers[w])
  }

  lemma PrepareStep(c: Config, s: State, w: nat)
    requires CanHappen(c, s, Prepare(w))
    ensures Accounted(s, DoPrepare(c, s, w), w)
  {
  }

  lemma CountStep(c: Config, s: State, w: nat)
    requires CanHappen(c, s, Count(w))
    ensures Accounted(s, DoCount(s, w), w)
  {
  }

  lemma WriteStep(c: Config, s: State, e: Event)
    requires CanHappen(c, s, e) && (e.Throttle? || e.Wake? || e.Send?)
    ensures Accounted(s, Next(c, s, e), e.w)
  {
  }

  lemma FlushStep(c: Config, s: State, e: Event)
    requires CanHappen(c, s, e) && (e.Return? || e.Raise?)
    ensures Accounted(s, Next(c, s, e), e.w)
  {
  }

  /** Working on what it holds, a worker moves no queue item and takes no stop marker. */
  lemma ActorStep(c: Config, s: State, e: Event)
    requires CanHappen(c, s, e) && Actor(e).Some?
    ensures Accounted(s, Next(c, s, e), Actor(e).value)
  {
    if e.Prepare? {
      PrepareStep(c, s, e.w);
    } else if e.Count? {
      CountStep(c, s, e.w);
    } else if e.Return? || e.Raise? {
      FlushStep(c, s, e);
    } else {
      WriteStep(c, s, e);
    }
  }

  /** A step of another thread leaves a worker alone. */
  lemma OthersLeaveAlone(c: Config, s: State, e: Event, w: nat)
    requires CanHappen(c, s, e) && w < |s.workers| && Actor(e) != Some(w) && e != Take(w)
    ensures |Next(c, s, e).workers| == |s.workers| && Next(c, s, e).workers[w] == s.workers[w]
  {
    if Actor(e).Some? { ActorStep(c, s, e); }
  }

  lemma ActorKeepsOrder(c: Config, s: State, e: Event)
    requires Ordered(c, s) && CanHappen(c, s, e) && Actor(e).Some?
    ensures Ordered(c, Next(c, s, e))
  {
    ActorStep(c, s, e);
    var t, w := Next(c, s, e), Actor(e).value;
    SumUpdate(s.workers, w, t.workers[w], StopsOf);
  }

  lemma TakeKeepsOrder(c: Config, s: State, w: nat)
    requires Ordered(c, s) && CanHappen(c, s, Take(w))
    ensures Ordered(c, Next(c, s, Take(w)))
  {
    var t := Next(c, s, Take(w));
    SumUpdate(s.workers, w, t.workers[w], StopsOf);
    QueueParts(s.queue);
    QueueParts(t.queue);
    assert forall i :: 0 <= i < |t.queue| ==> t.queue[i] == s.queue[i+1];
  }

  lemma StepKeepsOrder(c: Config, s: State, e: Event)
    requires Ordered(c, s) && CanHappen(c, s, e)
    ensures Ordered(c, Next(c, s, e))
  {
    if Actor(e).Some? {
      ActorKeepsOrder(c, s, e);
    } else if e.Take? {
      TakeKeepsOrder(c, s, e.w);
    } else if e.PutRecord? {
      QueueAppend(s.queue, Record(s.producer.record));
      QueueParts(s.queue);
    } else if e.PutStop? {
      QueueAppend(s.queue, Stop);
    }
  }

  lemma ActorKeepsConsistent(c: Config, s: State, e: Event)
    requires Consistent(s.tally) && CanHappen(c, s, e) && Actor(e).Some?
    ensures Consistent(Next(c, s, e).tally)
  {
    if e.Prepare? {
      var prepared := c.prepare(s.workers[e.w].phase.record);
      if !prepared.Ready? { CountingKeepsConsistent(s.tally, prepared.reason); }
    } else if e.Count? {
      var v := s.workers[e.w].phase.verdicts[0];
      CountingKeepsConsistent(s.tally, if v.WasRefused? then v.reason else "exists");
    }
  }

  lemma ActorKeepsBalance(c: Config, s: State, e: Event)
    requires Balanced(s) && CanHappen(c, s, e) && Actor(e).Some?
    ensures Balanced(Next(c, s, e))
  {
    var t := Next(c, s, e);
    ActorStep(c, s, e);
    SumUpdate(s.workers, Actor(e).value, t.workers[Actor(e).value], Held);
    ActorKeepsConsistent(c, s, e);
  }

  lemma TakeKeepsBalance(c: Config, s: State, w: nat)
    requires Balanced(s) && CanHappen(c, s, Take(w))
    ensures Balanced(Next(c, s, Take(w)))
  {
    SumUpdate(s.workers, w, Next(c, s, Take(w)).workers[w], Held);
  }

  lemma StepKeepsBalance(c: Config, s: State, e: Event)
    requires Balanced(s) && CanHappen(c, s, e)
    ensures Balanced(Next(c, s, e))
  {
    if Actor(e).Some? {
      ActorKeepsBalance(c, s, e);
    } else if e.Take? {
      TakeKeepsBalance(c, s, e.w);
    } else if e.PutRecord? {
      QueueAppend(s.queue, Record(s.producer.record));
    } else if e.PutStop? {
      QueueAppend(s.queue, Stop);
    }
  }

  lemma StepKeepsInvariant(c: Config, s: State, e: Event)
    requires Invariant(c, s) && CanHappen(c, s, e)
    ensures Invariant(c, Next(c, s, e))
  {
    StepKeepsShape(c, s, e);
    StepKeepsOrder(c, s, e);
    StepKeepsBalance(c, s, e);
  }

  /** The invariant holds in every reachable state. */
  lemma {:induction false} RunKeepsInvariant(c: Config, s: State, events: seq<Event>, t: State)
    requires Invariant(c, s) && Run(c, s, events, t)
    ensures Invariant(c, t)
    decreases |events|
  {
    if events != [] {
      StepKeepsInvariant(c, s, events[0]);
      RunKeepsInvariant(c, Next(c, s, events[0]), events[1..], t);
    }
  }
}
