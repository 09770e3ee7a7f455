/**
 Schedule independence: every complete clean run leaves the store that one sequential
 convert-and-write loop leaves, whatever the worker count, batch size, queue size and interleaving.
 */
module Independence {
  import opened Models
  import opened Server
  import opened Sink
  import opened BatchWriter
  import opened BatchRefinement
  import opened Pipeline
  import opened Accounting
  import opened Shutdown

  // ----- The sequential loop -----

  /** The records a source is converted to, in source order. */
  function ReadyRecords(c: Config, source: seq<RedisRecord>): seq<AerospikeRecord> {
    if source == [] then []
    else
      var front := ReadyRecords(c, source[..|source|-1]);
      match c.prepare(source[|source|-1])
      case Ready(r) => front + [r]
      case _ => front
  }

  /** Convert and write one record after the other. */
  function Sequential(c: Config, source: seq<RedisRecord>, store: Store): Store {
    WriteAll(c.sink, store, ReadyRecords(c, source))
  }

  /** The key a source record is written under, if it is written at all. */
  function KeysOf(c: Config, r: RedisRecord): set<RecordKey> {
    match c.prepare(r)
    case Ready(a) => if TooLarge(c.sink, a) then {} else {KeyOf(c.sink, a)}
    case _ => {}
  }

  /** Source records written under one key store the same content with the same TTL. */
  ghost predicate Alike(c: Config, source: seq<RedisRecord>) {
    forall r1, r2 :: r1 in source && r2 in source && KeysOf(c, r1) != {} && KeysOf(c, r1) == KeysOf(c, r2)
      ==> Fresh(c.prepare(r1).record) == Fresh(c.prepare(r2).record)
  }

  /** What each key is to hold in the end: the winners of the whole source. */
  function Image(c: Config, source: seq<RedisRecord>): map<RecordKey, AerospikeRecord> {
    Winners(c.sink, ReadyRecords(c, source))
  }

  predicate Fits(c: Config, image: map<RecordKey, AerospikeRecord>, a: AerospikeRecord) {
    !TooLarge(c.sink, a) ==> KeyOf(c.sink, a) in image && Fresh(image[KeyOf(c.sink, a)]) == Fresh(a)
  }

  predicate SourceFits(c: Config, image: map<RecordKey, AerospikeRecord>, r: RedisRecord) {
    match c.prepare(r)
    case Ready(a) => Fits(c, image, a)
    case _ => true
  }

  lemma {:induction false} ReadyMembers(c: Config, source: seq<RedisRecord>)
    ensures forall a :: a in ReadyRecords(c, source) ==> exists r :: r in source && c.prepare(r) == Ready(a)
    ensures forall r :: r in source && c.prepare(r).Ready? ==> c.prepare(r).record in ReadyRecords(c, source)
  {
    if source != [] {
      var n := |source| - 1;
      ReadyMembers(c, source[..n]);
      assert source[n] in source;
      assert forall r :: r in source <==> r in source[..n] || r == source[n];
    }
  }

  lemma AlikeFits(c: Config, source: seq<RedisRecord>, r: RedisRecord)
    requires Alike(c, source) && r in source
    ensures SourceFits(c, Image(c, source), r)
  {
    if KeysOf(c, r) != {} {
      var ready, a := ReadyRecords(c, source), c.prepare(r).record;
      var k := KeyOf(c.sink, a);
      ReadyMembers(c, source);
      WinnersAreLast(c.sink, ready);
      var i :| 0 <= i < |ready| && ready[i] == a;
      assert k in Winners(c.sink, ready);
      WinnerFits(c.sink, ready, k);
      var other :| other in source && c.prepare(other) == Ready(Winners(c.sink, ready)[k]);
      assert KeysOf(c, other) == KeysOf(c, r);
    }
  }

  lemma AlikeReady(c: Config, source: seq<RedisRecord>, a: AerospikeRecord, b: AerospikeRecord)
    requires Alike(c, source) && a in ReadyRecords(c, source) && b in ReadyRecords(c, source)
    requires !TooLarge(c.sink, a) && !TooLarge(c.sink, b) && KeyOf(c.sink, a) == KeyOf(c.sink, b)
    ensures Fresh(a) == Fresh(b)
  {
    ReadyMembers(c, source);
    var r1 :| r1 in source && c.prepare(r1) == Ready(a);
    var r2 :| r2 in source && c.prepare(r2) == Ready(b);
    assert KeysOf(c, r1) == KeysOf(c, r2) == {KeyOf(c.sink, a)};
    assert KeyOf(c.sink, a) in KeysOf(c, r1);
  }

  /** Records that are alike may be collapsed, so the sequential loop leaves the image on the store. */
  lemma AlikeCollapses(c: Config, source: seq<RedisRecord>, store: Store)
    requires Alike(c, source)
    ensures Sequential(c, source, store) == BatchStore(c.sink, store, ReadyRecords(c, source))
  {
    var ready := ReadyRecords(c, source);
    if c.sink.policy == Update {
      forall i, slot | 0 <= i < |ready| && !TooLarge(c.sink, ready[i]) &&
            LastSlot(c.sink, ready, KeyOf(c.sink, ready[i]), slot)
        ensures BinNames(ready[i]) <= BinNames(ready[slot])
      {
        AlikeReady(c, source, ready[i], ready[slot]);
        ContentNames(ready[i]);
        ContentNames(ready[slot]);
      }
    } else if c.sink.policy == CreateOnly {
      forall k, first, last | FirstSlot(c.sink, ready, k, first) && LastSlot(c.sink, ready, k, last)
        ensures Fresh(ready[first]) == Fresh(ready[last])
      {
        AlikeReady(c, source, ready[first], ready[last]);
      }
    }
    CollapsibleSuffices(c.sink, store, ready);
  }

  // ----- Clean runs -----

  /** Neither the source nor a write call raises, and the server answers OK, or "exists" when CREATE_ONLY meets
      an existing record. */
  predicate Clean(c: Config, s: State, e: Event) {
    match e
    case SourceRaises => false
    case Raise(_, _) => false
    case Send(_, key, reply, applied) =>
      reply.code == 0 || (c.sink.policy == CreateOnly && key in s.store && !applied && reply.code in c.sink.existsCodes)
    case _ => true
  }

  ghost predicate CleanRun(c: Config, s: State, events: seq<Event>, t: State)
    decreases |events|
  {
    if events == [] then s == t
    else CanHappen(c, s, events[0]) && Clean(c, s, events[0]) && CleanRun(c, Next(c, s, events[0]), events[1..], t)
  }

  lemma {:induction false} CleanRunIsRun(c: Config, s: State, events: seq<Event>, t: State)
    requires CleanRun(c, s, events, t)
    ensures Run(c, s, events, t) && (!s.raised ==> !t.raised)
    decreases |events|
  {
    if events != [] { CleanRunIsRun(c, Next(c, s, events[0]), events[1..], t); }
  }

  // ----- What every clean run keeps -----

  /** The content a key is to end with, given what it held at the start. */
  function Expect(c: Config, image: map<RecordKey, AerospikeRecord>, init: Store, k: RecordKey): Option<StoredRecord> {
    if k in image then Some(Merge(c.sink.policy, Lookup(init, k), image[k])) else Lookup(init, k)
  }

  /** Keys a worker has yet to write. */
  function WorkerKeys(c: Config, w: Worker): set<RecordKey> {
    (if w.phase.Got? then KeysOf(c, w.phase.record) else {})
    + (if w.phase.Sending? then w.phase.pending.Keys else Winners(c.sink, w.buffer).Keys)
  }

  function ItemKeys(c: Config, item: Item): set<RecordKey> {
    if item.Record? then KeysOf(c, item.record) else {}
  }

  /** Some record of key `k` is still on its way. */
  ghost predicate Waiting(c: Config, s: State, k: RecordKey) {
    || (exists i :: 0 <= i < |s.source| && k in KeysOf(c, s.source[i]))
    || (s.producer.Holding? && k in KeysOf(c, s.producer.record))
    || (exists i :: 0 <= i < |s.queue| && k in ItemKeys(c, s.queue[i]))
    || (exists w :: 0 <= w < |s.workers| && k in WorkerKeys(c, s.workers[w]))
  }

  ghost predicate WorkerFits(c: Config, image: map<RecordKey, AerospikeRecord>, w: Worker) {
    && (w.phase.Got? ==> SourceFits(c, image, w.phase.record))
    && forall i :: 0 <= i < |w.buffer| ==> Fits(c, image, w.buffer[i])
  }

  ghost predicate AllFit(c: Config, image: map<RecordKey, AerospikeRecord>, s: State) {
    && (forall i :: 0 <= i < |s.source| ==> SourceFits(c, image, s.source[i]))
    && (s.producer.Holding? ==> SourceFits(c, image, s.producer.record))
    && (forall i :: 0 <= i < |s.queue| && s.queue[i].Record? ==> SourceFits(c, image, s.queue[i].record))
    && (forall w :: 0 <= w < |s.workers| ==> WorkerFits(c, image, s.workers[w]))
  }

  /** Each key holds what it held at the start or what it is to end with. */
  ghost predicate Untainted(c: Config, image: map<RecordKey, AerospikeRecord>, init: Store, store: Store) {
    forall k :: Lookup(store, k) == Lookup(init, k) || Lookup(store, k) == Expect(c, image, init, k)
  }

  /** Moreover it holds the latter once no record of that key is on its way. */
  ghost predicate OnCourse(c: Config, image: map<RecordKey, AerospikeRecord>, init: Store, s: State) {
    && Untainted(c, image, init, s.store)
    && (forall k :: k in image ==> Waiting(c, s, k) || Lookup(s.store, k) == Expect(c, image, init, k))
  }

  lemma ActorKeepsFit(c: Config, image: map<RecordKey, AerospikeRecord>, s: State, e: Event)
    requires AllFit(c, image, s) && CanHappen(c, s, e) && Actor(e).Some?
    ensures AllFit(c, image, Next(c, s, e))
  {
    ActorStep(c, s, e);
    ActorKeepsSource(c, s, e);
    assert WorkerFits(c, image, s.workers[Actor(e).value]);
    assert WorkerFits(c, image, Next(c, s, e).workers[Actor(e).value]);
  }

  lemma StepKeepsFit(c: Config, image: map<RecordKey, AerospikeRecord>, s: State, e: Event)
    requires AllFit(c, image, s) && CanHappen(c, s, e)
    ensures AllFit(c, image, Next(c, s, e))
  {
    if Actor(e).Some? {
      ActorKeepsFit(c, image, s, e);
    } else if e.Take? {
      assert WorkerFits(c, image, s.workers[e.w]);
      assert WorkerFits(c, image, Next(c, s, e).workers[e.w]);
    }
  }

  lemma {:induction false} BufferGrows(cfg: SinkConfig, buffer: seq<AerospikeRecord>, r: AerospikeRecord)
    ensures Winners(cfg, buffer + [r]).Keys == Winners(cfg, buffer).Keys +
              (if TooLarge(cfg, r) then {} else {KeyOf(cfg, r)})
  {
    assert (buffer + [r])[..|buffer|] == buffer;
  }

  lemma ProducerStillWaiting(c: Config, s: State, e: Event, k: RecordKey)
    requires CanHappen(c, s, e) && Actor(e).None? && !e.Take? && Waiting(c, s, k)
    ensures Waiting(c, Next(c, s, e), k)
  {
    var t := Next(c, s, e);
    if e.Fetch? {
      if i :| 0 <= i < |s.source| && k in KeysOf(c, s.source[i]) {
        if i > 0 { assert k in KeysOf(c, t.source[i-1]); }
      }
    } else if e.PutRecord? || e.PutStop? {
      assert forall i :: 0 <= i < |s.queue| ==> t.queue[i] == s.queue[i];
      assert e.PutRecord? ==> ItemKeys(c, t.queue[|s.queue|]) == KeysOf(c, s.producer.record);
    }
  }

  lemma TakeStillWaiting(c: Config, s: State, w: nat, k: RecordKey)
    requires Shape(c, s) && CanHappen(c, s, Take(w)) && Waiting(c, s, k)
    ensures Waiting(c, Next(c, s, Take(w)), k)
  {
    var t := Next(c, s, Take(w));
    WorkerStillWaiting(c, s, Take(w), w, k);
    if i :| 0 <= i < |s.queue| && k in ItemKeys(c, s.queue[i]) {
      if i > 0 { assert k in ItemKeys(c, t.queue[i-1]); }
    } else if v :| 0 <= v < |s.workers| && k in WorkerKeys(c, s.workers[v]) {
      assert v != w ==> k in WorkerKeys(c, t.workers[v]);
    }
  }

  lemma ActorStillWaiting(c: Config, s: State, e: Event, k: RecordKey)
    requires Shape(c, s) && CanHappen(c, s, e) && !e.Raise? && Actor(e).Some? && Waiting(c, s, k)
    ensures Waiting(c, Next(c, s, e), k) || (e.Send? && e.key == k)
  {
    var t, w := Next(c, s, e), Actor(e).value;
    ActorStep(c, s, e);
    ActorKeepsSource(c, s, e);
    WorkerStillWaiting(c, s, e, w, k);
    if v :| 0 <= v < |s.workers| && k in WorkerKeys(c, s.workers[v]) {
      assert v != w ==> k in WorkerKeys(c, t.workers[v]);
    }
  }

  /** Only a write takes a key off its way. */
  lemma StillWaiting(c: Config, s: State, e: Event, k: RecordKey)
    requires Shape(c, s) && CanHappen(c, s, e) && !e.Raise? && Waiting(c, s, k)
    ensures Waiting(c, Next(c, s, e), k) || (e.Send? && e.key == k)
  {
    if Actor(e).Some? {
      ActorStillWaiting(c, s, e, k);
    } else if e.Take? {
      TakeStillWaiting(c, s, e.w, k);
    } else {
      ProducerStillWaiting(c, s, e, k);
    }
  }

  lemma WorkerStillWaiting(c: Config, s: State, e: Event, w: nat, k: RecordKey)
    requires Shape(c, s) && CanHappen(c, s, e) && !e.Raise? && (Actor(e) == Some(w) || e == Take(w))
    ensures k in WorkerKeys(c, s.workers[w]) ==> k in WorkerKeys(c, Next(c, s, e).workers[w]) || (e.Send? && e.key == k)
    ensures e.Take? && k in ItemKeys(c, s.queue[0]) ==> k in WorkerKeys(c, Next(c, s, e).workers[w])
  {
    assert WorkerOk(c, s.workers[w]);
    if e.Prepare? {
      var prepared := c.prepare(s.workers[w].phase.record);
      if prepared.Ready? { BufferGrows(c.sink, s.workers[w].buffer, prepared.record); }
    }
  }

  /** Writing a record that fits moves its key to the expected content, and no further. */
  lemma WriteIsExpected(c: Config, image: map<RecordKey, AerospikeRecord>, init: Store, cur: Option<StoredRecord>,
          r: AerospikeRecord)
    requires !TooLarge(c.sink, r) && Fits(c, image, r)
    requires cur == Lookup(init, KeyOf(c.sink, r)) || cur == Expect(c, image, init, KeyOf(c.sink, r))
    ensures Some(Merge(c.sink.policy, cur, r)) == Expect(c, image, init, KeyOf(c.sink, r))
    ensures c.sink.policy == CreateOnly && cur.Some? ==> cur == Expect(c, image, init, KeyOf(c.sink, r))
  {
    var k := KeyOf(c.sink, r);
    var wanted := image[k];
    assert Content(r) == Content(wanted) && WriteTtl(r) == WriteTtl(wanted);
    MergeIdempotent(c.sink.policy, Lookup(init, k), wanted);
  }

  /** A write that the server applies moves its key to the expected content; any other changes nothing. */
  lemma AnySend(c: Config, image: map<RecordKey, AerospikeRecord>, init: Store, s: State, e: Event)
    requires Shape(c, s) && AllFit(c, image, s) && Untainted(c, image, init, s.store) && e.Send? && CanHappen(c, s, e)
    ensures Lookup(Next(c, s, e).store, e.key)
         == if e.applied then Expect(c, image, init, e.key) else Lookup(s.store, e.key)
    ensures forall k :: k != e.key ==> Lookup(Next(c, s, e).store, k) == Lookup(s.store, k)
    ensures c.sink.policy == CreateOnly && e.key in s.store ==> Lookup(s.store, e.key) == Expect(c, image, init, e.key)
  {
    var worker := s.workers[e.w];
    assert WorkerOk(c, worker) && WorkerFits(c, image, worker);
    var r := worker.phase.pending[e.key];
    assert r == Winners(c.sink, worker.buffer)[e.key];
    WinnerFits(c.sink, worker.buffer, e.key);
    WritesMerge(c.sink, s.store, r);
    WriteIsExpected(c, image, init, Lookup(s.store, e.key), r);
  }

  lemma StepStaysOnCourse(c: Config, image: map<RecordKey, AerospikeRecord>, init: Store, s: State, e: Event)
    requires Shape(c, s) && AllFit(c, image, s) && OnCourse(c, image, init, s) && CanHappen(c, s, e) && Clean(c, s, e)
    ensures OnCourse(c, image, init, Next(c, s, e))
  {
    var t := Next(c, s, e);
    if e.Send? {
      AnySend(c, image, init, s, e);
    } else {
      assert t.store == s.store;
    }
    forall k | k in image ensures Waiting(c, t, k) || Lookup(t.store, k) == Expect(c, image, init, k) {
      if Waiting(c, s, k) { StillWaiting(c, s, e, k); }
    }
  }

  lemma {:induction false} RunStaysOnCourse(c: Config, image: map<RecordKey, AerospikeRecord>, init: Store, s: State,
          events: seq<Event>, t: State)
    requires Shape(c, s) && AllFit(c, image, s) && OnCourse(c, image, init, s) && CleanRun(c, s, events, t)
    ensures OnCourse(c, image, init, t)
    decreases |events|
  {
    if events != [] {
      StepKeepsShape(c, s, events[0]);
      StepKeepsFit(c, image, s, events[0]);
      StepStaysOnCourse(c, image, init, s, events[0]);
      RunStaysOnCourse(c, image, init, Next(c, s, events[0]), events[1..], t);
    }
  }

  lemma InitOnCourse(c: Config, source: seq<RedisRecord>, store: Store)
    requires Alike(c, source)
    ensures AllFit(c, Image(c, source), Init(c, source, store))
    ensures OnCourse(c, Image(c, source), store, Init(c, source, store))
  {
    var s, image := Init(c, source, store), Image(c, source);
    forall i | 0 <= i < |source| ensures SourceFits(c, image, source[i]) {
      AlikeFits(c, source, source[i]);
    }
    forall k | k in image ensures Waiting(c, s, k) {
      WinnerFits(c.sink, ReadyRecords(c, source), k);
      ReadyMembers(c, source);
      var r :| r in source && c.prepare(r) == Ready(image[k]);
      var i :| 0 <= i < |source| && source[i] == r;
      assert k in KeysOf(c, s.source[i]);
    }
  }

  lemma NothingWaiting(c: Config, source: seq<RedisRecord>, store: Store, events: seq<Event>, t: State, k: RecordKey)
    requires Run(c, Init(c, source, store), events, t) && t.producer.Done? && !t.raised
    ensures !Waiting(c, t, k)
  {
    NothingIsLost(c, source, store, events, t);
    RunKeepsRead(c, |source|, Init(c, source, store), events, t);
    forall w | 0 <= w < |t.workers| ensures k !in WorkerKeys(c, t.workers[w]) {
      assert t.workers[w].phase.Exited? && t.workers[w].buffer == [];
    }
  }

  lemma SendWritesKey(c: Config, s: State, e: Event)
    requires Shape(c, s) && e.Send? && CanHappen(c, s, e) && Clean(c, s, e)
    ensures Next(c, s, e).store.Keys == s.store.Keys + {e.key}
    ensures e.key in WorkerKeys(c, s.workers[e.w])
  {
    var worker := s.workers[e.w];
    assert WorkerOk(c, worker);
    WinnerFits(c.sink, worker.buffer, e.key);
    WritesMerge(c.sink, s.store, worker.phase.pending[e.key]);
  }

  /** No step puts a record on its way that was not on its way before. */
  lemma NoNewWaiting(c: Config, s: State, e: Event, k: RecordKey)
    requires Shape(c, s) && CanHappen(c, s, e) && Waiting(c, Next(c, s, e), k)
    ensures Waiting(c, s, k)
  {
    var t := Next(c, s, e);
    if Actor(e).Some? {
      ActorStep(c, s, e);
      ActorKeepsSource(c, s, e);
      if v :| 0 <= v < |t.workers| && k in WorkerKeys(c, t.workers[v]) {
        if v == Actor(e).value { ActorAddsNoKeys(c, s, e, k); }
        assert k in WorkerKeys(c, s.workers[v]);
      }
    } else if e.Take? {
      TakeAddsNoKeys(c, s, e.w, k);
    } else {
      ProducerAddsNoKeys(c, s, e, k);
    }
  }

  lemma ActorAddsNoKeys(c: Config, s: State, e: Event, k: RecordKey)
    requires Shape(c, s) && CanHappen(c, s, e) && Actor(e).Some?
    requires k in WorkerKeys(c, Next(c, s, e).workers[Actor(e).value])
    ensures k in WorkerKeys(c, s.workers[Actor(e).value])
  {
    var worker := s.workers[Actor(e).value];
    assert WorkerOk(c, worker);
    if e.Prepare? && c.prepare(worker.phase.record).Ready? {
      BufferGrows(c.sink, worker.buffer, c.prepare(worker.phase.record).record);
    }
  }

  lemma TakeAddsNoKeys(c: Config, s: State, w: nat, k: RecordKey)
    requires CanHappen(c, s, Take(w)) && Waiting(c, Next(c, s, Take(w)), k)
    ensures Waiting(c, s, k)
  {
    var t := Next(c, s, Take(w));
    if i :| 0 <= i < |t.queue| && k in ItemKeys(c, t.queue[i]) {
      assert k in ItemKeys(c, s.queue[i+1]);
    } else if v :| 0 <= v < |t.workers| && k in WorkerKeys(c, t.workers[v]) {
      assert k in WorkerKeys(c, s.workers[v]) || k in ItemKeys(c, s.queue[0]);
    }
  }

  lemma ProducerAddsNoKeys(c: Config, s: State, e: Event, k: RecordKey)
    requires CanHappen(c, s, e) && Actor(e).None? && !e.Take? && Waiting(c, Next(c, s, e), k)
    ensures Waiting(c, s, k)
  {
    var t := Next(c, s, e);
    if i :| 0 <= i < |t.source| && k in KeysOf(c, t.source[i]) {
      assert k in KeysOf(c, s.source[if e.Fetch? then i + 1 else i]);
    } else if i :| 0 <= i < |t.queue| && k in ItemKeys(c, t.queue[i]) {
      assert i < |s.queue| ==> k in ItemKeys(c, s.queue[i]);
    } else if e.Fetch? && k in KeysOf(c, t.producer.record) {
      assert k in KeysOf(c, s.source[0]);
    }
  }

  /** A key is stored or on its way after a clean step exactly when it was before. */
  lemma StepKeepsKeys(c: Config, s: State, e: Event, k: RecordKey)
    requires Shape(c, s) && CanHappen(c, s, e) && Clean(c, s, e)
    ensures Waiting(c, Next(c, s, e), k) || k in Next(c, s, e).store <==> Waiting(c, s, k) || k in s.store
  {
    if e.Send? { SendWritesKey(c, s, e); }
    if Waiting(c, s, k) { StillWaiting(c, s, e, k); }
    if Waiting(c, Next(c, s, e), k) { NoNewWaiting(c, s, e, k); }
  }

  lemma {:induction false} RunKeepsKeys(c: Config, s: State, events: seq<Event>, t: State, k: RecordKey)
    requires Shape(c, s) && CleanRun(c, s, events, t)
    ensures Waiting(c, t, k) || k in t.store <==> Waiting(c, s, k) || k in s.store
    decreases |events|
  {
    if events != [] {
      StepKeepsShape(c, s, events[0]);
      StepKeepsKeys(c, s, events[0], k);
      RunKeepsKeys(c, Next(c, s, events[0]), events[1..], t, k);
    }
  }

  /** Every complete clean run leaves exactly the keys the store had and those of the source, alike or not. */
  lemma FinalKeys(c: Config, source: seq<RedisRecord>, store: Store, events: seq<Event>, t: State, k: RecordKey)
    requires CleanRun(c, Init(c, source, store), events, t) && t.producer.Done?
    ensures k in t.store <==> k in store || exists i :: 0 <= i < |source| && k in KeysOf(c, source[i])
  {
    var s := Init(c, source, store);
    InitInvariant(c, source, store);
    RunKeepsKeys(c, s, events, t, k);
    CleanRunIsRun(c, s, events, t);
    NothingWaiting(c, source, store, events, t, k);
    assert forall w :: 0 <= w < |s.workers| ==> WorkerKeys(c, s.workers[w]) == {};
  }

  // ----- Clean runs get to the end -----

  /** Under CREATE_ONLY the client knows a failure code by which the server reports an existing record. */
  ghost predicate CanReportExists(cfg: SinkConfig) {
    cfg.policy == CreateOnly ==> exists code :: code != 0 && code in cfg.existsCodes
  }

  lemma FinishCleanly(c: Config, s: State, code: int) returns (events: seq<Event>, t: State)
    requires Invariant(c, s) && TicketsValid(s)
    requires code != 0 && (c.sink.policy == CreateOnly ==> code in c.sink.existsCodes)
    ensures CleanRun(c, s, events, t) && t.producer.Done?
    decreases Measure(c, s)
  {
    if s.producer.Done? {
      events, t := [], s;
    } else {
      var e := NoDeadlock(c, s, code);
      assert Clean(c, s, e);
      StepKeepsInvariant(c, s, e);
      StepKeepsTickets(c, s, e);
      StepsRunOut(c, s, e);
      var rest;
      rest, t := FinishCleanly(c, Next(c, s, e), code);
      events := [e] + rest;
    }
  }

  /** However a clean run began, it can go on cleanly to the end. */
  lemma CleanRunsCanFinish(c: Config, source: seq<RedisRecord>, store: Store, events: seq<Event>, s: State)
    requires CanReportExists(c.sink) && CleanRun(c, Init(c, source, store), events, s)
    ensures exists rest, t :: CleanRun(c, s, rest, t) && t.producer.Done?
  {
    InitInvariant(c, source, store);
    CleanRunIsRun(c, Init(c, source, store), events, s);
    RunKeepsInvariant(c, Init(c, source, store), events, s);
    RunKeepsTickets(c, Init(c, source, store), events, s);
    var code := 1;
    if c.sink.policy == CreateOnly { code :| code != 0 && code in c.sink.existsCodes; }
    var rest, t := FinishCleanly(c, s, code);
  }

  /** Every complete clean run leaves the store of the sequential loop. */
  lemma ScheduleIndependence(c: Config, source: seq<RedisRecord>, store: Store, events: seq<Event>, t: State)
    requires Alike(c, source)
    requires CleanRun(c, Init(c, source, store), events, t) && t.producer.Done?
    ensures t.store == Sequential(c, source, store)
  {
    var image, ready := Image(c, source), ReadyRecords(c, source);
    InitInvariant(c, source, store);
    InitOnCourse(c, source, store);
    RunStaysOnCourse(c, image, store, Init(c, source, store), events, t);
    CleanRunIsRun(c, Init(c, source, store), events, t);
    AlikeCollapses(c, source, store);
    forall k ensures Lookup(t.store, k) == Lookup(BatchStore(c.sink, store, ready), k) {
      BatchStoreAt(c.sink, store, ready, k);
      NothingWaiting(c, source, store, events, t, k);
    }
    SameLookups(t.store, BatchStore(c.sink, store, ready));
  }

  /** The same migration, tuned differently. */
  ghost predicate Retuned(c1: Config, c2: Config) {
    c2 == c1.(workers := c2.workers, batchSize := c2.batchSize, queueSize := c2.queueSize, writeRate := c2.writeRate,
              startTime := c2.startTime)
  }

  /** Two migrations of one source into one store, tuned differently and scheduled differently, agree. */
  lemma TuningDoesNotMatter(c1: Config, c2: Config, source: seq<RedisRecord>, store: Store,
                            events1: seq<Event>, events2: seq<Event>, t1: State, t2: State)
    requires Retuned(c1, c2)
    requires Alike(c1, source)
    requires CleanRun(c1, Init(c1, source, store), events1, t1) && t1.producer.Done?
    requires CleanRun(c2, Init(c2, source, store), events2, t2) && t2.producer.Done?
    ensures t1.store == t2.store
  {
    SameReady(c1, c2, source);
    ScheduleIndependence(c1, source, store, events1, t1);
    ScheduleIndependence(c2, source, store, events2, t2);
  }

  lemma {:induction false} SameReady(c1: Config, c2: Config, source: seq<RedisRecord>)
    requires c1.prepare == c2.prepare && c1.sink == c2.sink
    ensures ReadyRecords(c1, source) == ReadyRecords(c2, source)
    ensures Alike(c1, source) ==> Alike(c2, source)
  {
    if source != [] { SameReady(c1, c2, source[..|source|-1]); }
    forall r1, r2 | Alike(c1, source) && r1 in source && r2 in source && KeysOf(c2, r1) != {} &&
          KeysOf(c2, r1) == KeysOf(c2, r2)
      ensures Fresh(c2.prepare(r1).record) == Fresh(c2.prepare(r2).record)
    {
      assert KeysOf(c1, r1) == KeysOf(c2, r1) && KeysOf(c1, r2) == KeysOf(c2, r2);
    }
  }
}
