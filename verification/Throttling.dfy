/**
 The aggregate write limit: the shared limiter bounds the records whose write has started, across
 all workers, in single and in batch mode.
 */
module Throttling {
  import opened Models
  import opened Server
  import opened RateLimit
  import opened Pipeline
  import opened Accounting

  /** The limiter calls behind the log. */
  function CallsOf(log: seq<Ticket>): (calls: seq<Call>)
    ensures |calls| == |log|
    ensures forall i :: 0 <= i < |log| ==> calls[i] == Call(log[i].now, log[i].tokens as real)
  {
    seq(|log|, i requires 0 <= i < |log| => Call(log[i].now, log[i].tokens as real))
  }

  /** Records of the tickets whose write has started. */
  function StartedTokens(log: seq<Ticket>): nat {
    if log == [] then 0
    else StartedTokens(log[..|log|-1]) + (if log[|log|-1].started then log[|log|-1].tokens else 0)
  }

  /** A sleeping worker holds a ticket for its whole buffer that nobody has used. */
  predicate HoldsTicket(s: State, w: Worker) {
    w.phase.Sleeping? ==>
      && w.phase.ticket < |s.log|
      && !s.log[w.phase.ticket].started
      && s.log[w.phase.ticket].tokens == |w.buffer|
  }

  ghost predicate TicketsHeld(s: State) {
    && (forall w :: 0 <= w < |s.workers| ==> HoldsTicket(s, s.workers[w]))
    && (forall v, w :: 0 <= v < w < |s.workers| && s.workers[v].phase.Sleeping? && s.workers[w].phase.Sleeping?
          ==> s.workers[v].phase.ticket != s.workers[w].phase.ticket)
  }

  ghost predicate LogTimed(c: Config, s: State) {
    && c.startTime <= s.clock
    && (forall i :: 0 <= i < |s.log| ==> c.startTime <= s.log[i].now <= s.clock)
    && (forall i, j :: 0 <= i < j < |s.log| ==> s.log[i].now <= s.log[j].now)
  }

  /** The limiter's state and the grant times are those of the logged calls. */
  ghost predicate LogKept(c: Config, s: State) {
    && s.limiter == After(NewLimiter(c), CallsOf(s.log))
    && (Enabled(NewLimiter(c)) ==> forall i :: 0 <= i < |s.log| ==>
          s.log[i].at == Ledger(NewLimiter(c), CallsOf(s.log))[i].at)
  }

  ghost predicate StartsCounted(c: Config, s: State) {
    && s.started == StartedTokens(s.log)
    && (forall i :: 0 <= i < |s.log| && s.log[i].started ==> s.log[i].at <= s.clock)
    && (forall i :: 0 <= i < |s.log| ==> s.log[i].tokens <= BatchSize(c))
  }

  ghost predicate Throttled(c: Config, s: State) {
    TicketsHeld(s) && LogTimed(c, s) && LogKept(c, s) && StartsCounted(c, s)
  }

  // ----- Every step keeps it -----

  lemma {:induction false} StartOne(log: seq<Ticket>, t: nat)
    requires t < |log| && !log[t].started
    ensures StartedTokens(log[t := log[t].(started := true)]) == StartedTokens(log) + log[t].tokens
  {
    var n := |log| - 1;
    var marked := log[t := log[t].(started := true)];
    if t == n {
      assert marked[..n] == log[..n];
    } else {
      assert marked[..n] == log[..n][t := log[t].(started := true)];
      StartOne(log[..n], t);
    }
  }

  lemma CallsAppend(log: seq<Ticket>, x: Ticket)
    ensures CallsOf(log + [x]) == CallsOf(log) + [Call(x.now, x.tokens as real)]
  {
  }

  lemma LogAppend(b: Bucket, calls: seq<Call>, c: Call)
    ensures After(b, calls + [c]) == Taken(After(b, calls), c)
    ensures Enabled(b) ==>
              Enabled(After(b, calls)) && Ledger(b, calls + [c]) == Ledger(b, calls) + [GrantFor(After(b, calls), c)]
  {
    SettingsKept(b, calls);
    assert (calls + [c])[..|calls|] == calls;
  }

  lemma ThrottleKeepsLog(c: Config, s: State, w: nat, now: real)
    requires LogKept(c, s) && CanHappen(c, s, Throttle(w, now))
    ensures LogKept(c, Next(c, s, Throttle(w, now)))
  {
    var t, b := Next(c, s, Throttle(w, now)), NewLimiter(c);
    var n := |s.log|;
    var call := Call(now, |s.workers[w].buffer| as real);
    CallsAppend(s.log, t.log[n]);
    LogAppend(b, CallsOf(s.log), call);
    if Enabled(b) {
      var before, after := Ledger(b, CallsOf(s.log)), Ledger(b, CallsOf(t.log));
      assert after == before + [GrantFor(s.limiter, call)];
      forall i | 0 <= i < |t.log| ensures t.log[i].at == after[i].at {
        if i < n { assert t.log[i] == s.log[i] && after[i] == before[i]; }
      }
    }
  }

  lemma ThrottleKeepsTickets(c: Config, s: State, w: nat, now: real)
    requires TicketsHeld(s) && CanHappen(c, s, Throttle(w, now))
    ensures TicketsHeld(Next(c, s, Throttle(w, now)))
  {
    var t := Next(c, s, Throttle(w, now));
    forall v | 0 <= v < |t.workers| ensures HoldsTicket(t, t.workers[v]) {
      assert HoldsTicket(s, s.workers[v]);
    }
    forall v, u | 0 <= v < u < |t.workers| && t.workers[v].phase.Sleeping? && t.workers[u].phase.Sleeping?
      ensures t.workers[v].phase.ticket != t.workers[u].phase.ticket
    {
      assert HoldsTicket(s, s.workers[v]) && HoldsTicket(s, s.workers[u]);
    }
  }

  lemma ThrottleKeepsTimes(c: Config, s: State, w: nat, now: real)
    requires LogTimed(c, s) && CanHappen(c, s, Throttle(w, now))
    ensures LogTimed(c, Next(c, s, Throttle(w, now)))
  {
  }

  lemma AppendKeepsStarts(c: Config, s: State, t: State, x: Ticket)
    requires StartsCounted(c, s) && t.log == s.log + [x] && !x.started && x.tokens <= BatchSize(c)
    requires s.clock <= t.clock && t.started == s.started
    ensures StartsCounted(c, t)
  {
    assert t.log[..|s.log|] == s.log;
  }

  lemma ThrottleKeepsStarts(c: Config, s: State, w: nat, now: real)
    requires StartsCounted(c, s) && CanHappen(c, s, Throttle(w, now)) && WorkerOk(c, s.workers[w])
    ensures StartsCounted(c, Next(c, s, Throttle(w, now)))
  {
    var t := Next(c, s, Throttle(w, now));
    AppendKeepsStarts(c, s, t, t.log[|s.log|]);
  }

  lemma WakeKeepsTickets(c: Config, s: State, w: nat, now: real)
    requires TicketsHeld(s) && CanHappen(c, s, Wake(w, now))
    ensures TicketsHeld(Next(c, s, Wake(w, now)))
  {
    var t := Next(c, s, Wake(w, now));
    forall v | 0 <= v < |t.workers| ensures HoldsTicket(t, t.workers[v]) {
      assert HoldsTicket(s, s.workers[v]) && HoldsTicket(s, s.workers[w]);
    }
  }

  /** Marking one ticket as started changes neither the calls nor the grant times. */
  lemma MarkKeepsLog(c: Config, s: State, t: State, ticket: nat)
    requires LogTimed(c, s) && LogKept(c, s) && StartsCounted(c, s)
    requires ticket < |s.log| && !s.log[ticket].started && s.log[ticket].at <= t.clock && s.clock <= t.clock
    requires t.log == s.log[ticket := s.log[ticket].(started := true)] && t.limiter == s.limiter
    requires t.started == s.started + s.log[ticket].tokens
    ensures LogTimed(c, t) && LogKept(c, t) && StartsCounted(c, t)
  {
    StartOne(s.log, ticket);
    assert CallsOf(t.log) == CallsOf(s.log);
  }

  lemma WakeKeepsLog(c: Config, s: State, w: nat, now: real)
    requires TicketsHeld(s) && LogTimed(c, s) && LogKept(c, s) && StartsCounted(c, s) && CanHappen(c, s, Wake(w, now))
    ensures var t := Next(c, s, Wake(w, now)); LogTimed(c, t) && LogKept(c, t) && StartsCounted(c, t)
  {
    assert HoldsTicket(s, s.workers[w]);
    MarkKeepsLog(c, s, Next(c, s, Wake(w, now)), s.workers[w].phase.ticket);
  }

  /** Every other step leaves the limiter and the log alone and puts no worker to sleep. */
  predicate Quiet(s: State, t: State) {
    && t.log == s.log && t.clock == s.clock && t.limiter == s.limiter && t.started == s.started
    && |t.workers| == |s.workers|
    && forall v :: 0 <= v < |t.workers| && t.workers[v].phase.Sleeping? ==> t.workers[v] == s.workers[v]
  }

  lemma QuietStep(c: Config, s: State, e: Event)
    requires CanHappen(c, s, e) && !e.Throttle? && !e.Wake?
    ensures Quiet(s, Next(c, s, e))
  {
  }

  lemma QuietKeeps(c: Config, s: State, t: State)
    requires Throttled(c, s) && Quiet(s, t)
    ensures Throttled(c, t)
  {
    forall v | 0 <= v < |t.workers| ensures HoldsTicket(t, t.workers[v]) {
      assert HoldsTicket(s, s.workers[v]);
    }
  }

  lemma StepKeepsThrottled(c: Config, s: State, e: Event)
    requires Shape(c, s) && Throttled(c, s) && CanHappen(c, s, e)
    ensures Throttled(c, Next(c, s, e))
  {
    if e.Throttle? {
      ThrottleKeepsTickets(c, s, e.w, e.now);
      ThrottleKeepsTimes(c, s, e.w, e.now);
      assert WorkerOk(c, s.workers[e.w]);
      ThrottleKeepsStarts(c, s, e.w, e.now);
      ThrottleKeepsLog(c, s, e.w, e.now);
    } else if e.Wake? {
      WakeKeepsTickets(c, s, e.w, e.now);
      WakeKeepsLog(c, s, e.w, e.now);
    } else {
      QuietStep(c, s, e);
      QuietKeeps(c, s, Next(c, s, e));
    }
  }

  lemma {:induction false} RunKeepsThrottled(c: Config, s: State, events: seq<Event>, t: State)
    requires Shape(c, s) && Throttled(c, s) && Run(c, s, events, t)
    ensures Shape(c, t) && Throttled(c, t)
    decreases |events|
  {
    if events != [] {
      StepKeepsShape(c, s, events[0]);
      StepKeepsThrottled(c, s, events[0]);
      RunKeepsThrottled(c, Next(c, s, events[0]), events[1..], t);
    }
  }

  lemma ReachableThrottled(c: Config, source: seq<RedisRecord>, store: Store, events: seq<Event>, t: State)
    requires Run(c, Init(c, source, store), events, t)
    ensures Throttled(c, t)
  {
    InitInvariant(c, source, store);
    RunKeepsThrottled(c, Init(c, source, store), events, t);
  }

  // ----- The bounds -----

  lemma {:induction false} StartedAreGranted(log: seq<Ticket>, g: seq<Grant>, lo: real, hi: real, m: nat)
    requires m <= |log| == |g|
    requires forall i :: 0 <= i < |log| ==>
              g[i].tokens == log[i].tokens as real && (log[i].started ==> Within(g[i], lo, hi))
    ensures StartedTokens(log[..m]) as real <= TokensIn(g, lo, hi, m)
  {
    if m > 0 {
      StartedAreGranted(log, g, lo, hi, m - 1);
      assert log[..m][..m-1] == log[..m-1];
    }
  }

  lemma LogWellTimed(c: Config, s: State)
    requires LogTimed(c, s)
    ensures WellTimed(NewLimiter(c), CallsOf(s.log))
  {
  }

  lemma StartedWithinGrants(c: Config, t: State)
    requires Throttled(c, t) && Enabled(NewLimiter(c)) && WellTimed(NewLimiter(c), CallsOf(t.log))
    ensures t.started as real <= TokensIn(Ledger(NewLimiter(c), CallsOf(t.log)), c.startTime, t.clock, |t.log|)
  {
    var b, calls := NewLimiter(c), CallsOf(t.log);
    var g := Ledger(b, calls);
    forall i | 0 <= i < |t.log|
      ensures g[i].tokens == t.log[i].tokens as real && (t.log[i].started ==> Within(g[i], c.startTime, t.clock))
    {
      GrantedAfterCall(b, calls, i);
    }
    StartedAreGranted(t.log, g, c.startTime, t.clock, |t.log|);
    assert t.log[..|t.log|] == t.log;
  }

  lemma ReachableLog(c: Config, source: seq<RedisRecord>, store: Store, events: seq<Event>, t: State)
    requires Run(c, Init(c, source, store), events, t) && Enabled(NewLimiter(c))
    ensures WellTimed(NewLimiter(c), CallsOf(t.log)) && c.startTime <= t.clock
    ensures t.started as real <= TokensIn(Ledger(NewLimiter(c), CallsOf(t.log)), c.startTime, t.clock, |t.log|)
    ensures forall i :: 0 <= i < |t.log| ==> t.log[i].tokens <= BatchSize(c)
  {
    ReachableThrottled(c, source, store, events, t);
    LogWellTimed(c, t);
    StartedWithinGrants(c, t);
  }

  lemma StartedWithinAllowance(c: Config, source: seq<RedisRecord>, store: Store, events: seq<Event>, t: State)
    requires Run(c, Init(c, source, store), events, t) && Enabled(NewLimiter(c))
    ensures t.started as real <= Allowance(NewLimiter(c), t.clock - c.startTime)
  {
    ReachableLog(c, source, store, events, t);
    NewBucketBound(NewLimiter(c), CallsOf(t.log), t.clock);
  }

  /** With the limit enabled, in every reachable state the records whose sink write has started are at most the larger
      of the limit and the batch size, plus the limit times the time since the limiter was made. */
  lemma AggregateWriteLimit(c: Config, source: seq<RedisRecord>, store: Store, events: seq<Event>, t: State)
    requires Run(c, Init(c, source, store), events, t) && Enabled(NewLimiter(c))
    ensures t.started as real
         <= RMax(c.writeRate, BatchSize(c) as real) + c.writeRate * (t.clock - c.startTime)
  {
    StartedWithinAllowance(c, source, store, events, t);
    var b, span := NewLimiter(c), t.clock - c.startTime;
    assert b.capacity == RMax(c.writeRate, BatchSize(c) as real) && b.rate == c.writeRate;
    assert Allowance(b, span) == b.capacity + b.rate * span;
  }

  /** No acquire asks for more than the limiter's capacity, so in every interval the records granted number at most
      that capacity plus the limit times its length. */
  lemma AcquiresFitCapacity(c: Config, source: seq<RedisRecord>, store: Store, events: seq<Event>, t: State, lo: real,
          hi: real, first: nat)
    requires Run(c, Init(c, source, store), events, t) && Enabled(NewLimiter(c))
    requires FirstIn(Ledger(NewLimiter(c), CallsOf(t.log)), lo, hi, first)
    ensures forall i :: 0 <= i < |t.log| ==> t.log[i].tokens as real <= NewLimiter(c).capacity
    ensures TokensIn(Ledger(NewLimiter(c), CallsOf(t.log)), lo, hi, |t.log|) <= Allowance(NewLimiter(c), hi - lo)
  {
    ReachableLog(c, source, store, events, t);
    var b, calls := NewLimiter(c), CallsOf(t.log);
    BucketWindowBound(b, calls, lo, hi, first);
    assert b.(capacity := RMax(b.capacity, calls[first].tokens)) == b;
  }

  // ----- The documented burst -----

  lemma {:induction false} RunConcat(c: Config, s: State, first: seq<Event>, m: State, rest: seq<Event>, t: State)
    requires Run(c, s, first, m) && Run(c, m, rest, t)
    ensures Run(c, s, first + rest, t)
    decreases |first|
  {
    if first == [] {
      assert first + rest == rest;
    } else {
      assert (first + rest)[1..] == first[1..] + rest;
      RunConcat(c, Next(c, s, first[0]), first[1..], m, rest, t);
    }
  }

  /** Nothing has been asked of the limiter, no time has passed and nothing is queued. */
  ghost predicate Unthrottled(c: Config, s: State) {
    && s.clock == c.startTime && s.limiter == NewLimiter(c) && s.log == [] && s.started == 0
    && s.queue == [] && s.workers != [] && s.workers[0].stops == 0
  }

  /** The first worker has room for exactly the records left in the source. */
  ghost predicate Collecting(c: Config, r: RedisRecord, s: State) {
    && Unthrottled(c, s) && s.producer.Fetching? && s.workers[0].phase.Idle?
    && |s.source| + |s.workers[0].buffer| == BatchSize(c)
    && forall i :: 0 <= i < |s.source| ==> s.source[i] == r
  }

  /** The first worker holds a full batch. */
  ghost predicate Full(c: Config, s: State) {
    Unthrottled(c, s) && s.workers[0].phase.Throttling? && |s.workers[0].buffer| == BatchSize(c)
  }

  lemma RunOne(c: Config, s: State, e: Event, rest: seq<Event>, t: State)
    requires CanHappen(c, s, e) && Run(c, Next(c, s, e), rest, t)
    ensures Run(c, s, [e] + rest, t)
  {
    assert ([e] + rest)[1..] == rest;
  }

  /** The producer puts one record on the empty queue. */
  lemma PutOne(c: Config, r: RedisRecord, s: State) returns (t: State)
    requires Collecting(c, r, s) && s.source != []
    ensures Run(c, s, [Fetch] + ([CountScanned] + ([PutRecord] + [])), t)
    ensures t == s.(source := s.source[1..], tally := t.tally, queue := [Record(r)])
  {
    var s1 := Next(c, s, Fetch);
    var s2 := Next(c, s1, CountScanned);
    t := Next(c, s2, PutRecord);
    RunOne(c, s2, PutRecord, [], t);
    RunOne(c, s1, CountScanned, [PutRecord] + [], t);
    RunOne(c, s, Fetch, [CountScanned] + ([PutRecord] + []), t);
  }

  /** The first worker takes it and prepares it. */
  lemma TakeOne(c: Config, r: RedisRecord, s: State) returns (t: State)
    requires s.queue == [Record(r)] && s.workers != [] && s.workers[0].phase.Idle? && c.prepare(r).Ready?
    ensures Run(c, s, [Take(0)] + ([Prepare(0)] + []), t)
    ensures var worker := s.workers[0];
            var buffer := worker.buffer + [c.prepare(r).record];
            t == s.(queue := [], workers := s.workers[0 := worker.(buffer := buffer,
                      phase := if |buffer| >= BatchSize(c) then Throttling else Idle)])
  {
    var s1 := Next(c, s, Take(0));
    t := Next(c, s1, Prepare(0));
    RunOne(c, s1, Prepare(0), [], t);
    RunOne(c, s, Take(0), [Prepare(0)] + [], t);
  }

  /** One record goes from the source to the first worker's buffer. */
  lemma HandOver(c: Config, r: RedisRecord, s: State) returns (events: seq<Event>, t: State)
    requires Collecting(c, r, s) && s.source != [] && c.prepare(r).Ready?
    ensures Run(c, s, events, t)
    ensures if |s.source| == 1 then Full(c, t) else Collecting(c, r, t) && |t.source| == |s.source| - 1
  {
    var m := PutOne(c, r, s);
    t := TakeOne(c, r, m);
    events := [Fetch] + ([CountScanned] + ([PutRecord] + [])) + ([Take(0)] + ([Prepare(0)] + []));
    RunConcat(c, s, [Fetch] + ([CountScanned] + ([PutRecord] + [])), m, [Take(0)] + ([Prepare(0)] + []), t);
  }

  lemma {:induction false} FillBuffer(c: Config, r: RedisRecord, s: State) returns (events: seq<Event>, t: State)
    requires Collecting(c, r, s) && s.source != [] && c.prepare(r).Ready?
    ensures Run(c, s, events, t) && Full(c, t)
    decreases |s.source|
  {
    events, t := HandOver(c, r, s);
    if |s.source| > 1 {
      var m, rest := t, [];
      rest, t := FillBuffer(c, r, m);
      RunConcat(c, s, events, m, rest, t);
      events := events + rest;
    }
  }

  /** A full batch is granted at once, so its write starts at the time the limiter was made. */
  lemma StartFull(c: Config, s: State) returns (t: State)
    requires Full(c, s) && Enabled(NewLimiter(c))
    ensures Run(c, s, [Throttle(0, c.startTime), Wake(0, c.startTime)], t)
    ensures t.started == BatchSize(c) && t.clock == c.startTime
  {
    var n := |s.workers[0].buffer|;
    assert Refilled(s.limiter, c.startTime) == s.limiter.capacity >= n as real;
    var m := Next(c, s, Throttle(0, c.startTime));
    assert m.log == [Ticket(c.startTime, n, c.startTime, false)];
    t := Next(c, m, Wake(0, c.startTime));
    assert Run(c, t, [], t);
    assert Run(c, m, [Wake(0, c.startTime)], t);
    assert [Throttle(0, c.startTime), Wake(0, c.startTime)][1..] == [Wake(0, c.startTime)];
  }

  /** Whatever the limit, a whole batch can start at once. */
  lemma BatchStartsAtOnce(c: Config, r: RedisRecord, store: Store)
    returns (source: seq<RedisRecord>, events: seq<Event>, t: State)
    requires c.prepare(r).Ready? && Enabled(NewLimiter(c))
    ensures Run(c, Init(c, source, store), events, t) && t.started == BatchSize(c) && t.clock == c.startTime
  {
    source := seq(BatchSize(c), i => r);
    var m;
    events, m := FillBuffer(c, r, Init(c, source, store));
    t := StartFull(c, m);
    RunConcat(c, Init(c, source, store), events, m, [Throttle(0, c.startTime), Wake(0, c.startTime)], t);
    events := events + [Throttle(0, c.startTime), Wake(0, c.startTime)];
  }

  /** The burst the documentation allows: one second's worth of the limit. */
  ghost predicate WithinDocumentedBurst(c: Config, t: State) {
    t.started as real <= c.writeRate + c.writeRate * (t.clock - c.startTime)
  }

  /** Some run of the migration reaches `t`. */
  ghost predicate Reaches(c: Config, source: seq<RedisRecord>, store: Store, t: State) {
    exists events :: Run(c, Init(c, source, store), events, t)
  }

  /** Every run stays within the documented burst if and only if a batch is no larger than the limit. */
  lemma DocumentedBurst(c: Config, r: RedisRecord)
    requires c.prepare(r).Ready? && Enabled(NewLimiter(c))
    ensures (forall source, store, t :: Reaches(c, source, store, t) ==> WithinDocumentedBurst(c, t))
            <==> BatchSize(c) as real <= c.writeRate
  {
    if BatchSize(c) as real <= c.writeRate {
      forall source, store, t | Reaches(c, source, store, t) ensures WithinDocumentedBurst(c, t) {
        var events :| Run(c, Init(c, source, store), events, t);
        AggregateWriteLimit(c, source, store, events, t);
      }
    } else {
      var source, events, t := BatchStartsAtOnce(c, r, map[]);
      assert c.writeRate * (t.clock - c.startTime) == 0.0;
      assert Reaches(c, source, map[], t) && !WithinDocumentedBurst(c, t);
    }
  }

  /** With a limit of one record a second and batches of two, two writes start at time zero. */
  lemma BurstOfTwo(c: Config, r: RedisRecord)
    requires c.prepare(r).Ready? && c.writeRate == 1.0 && c.batchSize == 2 && c.startTime == 0.0
    ensures exists source, t ::
              Reaches(c, source, map[], t) && t.started == 2 && t.clock == 0.0 && !WithinDocumentedBurst(c, t)
  {
    var source, events, t := BatchStartsAtOnce(c, r, map[]);
    assert Reaches(c, source, map[], t) && !WithinDocumentedBurst(c, t);
  }
}
