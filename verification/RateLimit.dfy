/**
 The token bucket (redis_to_aerospike/ratelimit.py) over real-valued time, and what it guarantees
 of every sequence of calls made under its lock with a nondecreasing clock.
 */
module RateLimit {
  import opened Models

  datatype Bucket = Bucket(rate: real, capacity: real, tokens: real, last: real)

  /** One `acquire`: the clock reading taken under the lock and the tokens asked for. */
  datatype Call = Call(now: real, tokens: real)

  function RMax(a: real, b: real): real { if a < b then b else a }

  function RMin(a: real, b: real): real { if a < b then a else b }

  function NewBucket(rate: real, capacity: Option<real>, now: real): Bucket {
    var burst := if capacity.Some? then capacity.value else rate;
    Bucket(rate, burst, burst, now)
  }

  predicate Enabled(b: Bucket) { b.rate > 0.0 }

  /** The tokens on hand once the time since the last call has been credited. */
  function Refilled(b: Bucket, now: real): real {
    RMin(b.capacity, b.tokens + (now - b.last) * b.rate)
  }

  function Wait(b: Bucket, c: Call): real
  {
    if !Enabled(b) || Refilled(b, c.now) >= c.tokens then 0.0
    else (c.tokens - Refilled(b, c.now)) / b.rate
  }

  function Taken(b: Bucket, c: Call): Bucket {
    if Enabled(b) then b.(tokens := Refilled(b, c.now) - c.tokens, last := c.now) else b
  }

  class TokenBucket {
    const rate: real
    const enabled: bool
    const capacity: real
    var tokens: real
    var last: real

    ghost function View(): Bucket
      reads this
    {
      Bucket(rate, capacity, tokens, last)
    }

    constructor (rate: real, capacity: Option<real>, now: real)
      ensures View() == NewBucket(rate, capacity, now)
      ensures this.rate == rate && this.last == now && this.tokens == this.capacity
      ensures capacity.None? ==> this.capacity == rate
      ensures capacity.Some? ==> this.capacity == capacity.value
      ensures enabled == (rate > 0.0) == Enabled(View())
    {
      var burst := if capacity.Some? then capacity.value else rate;
      this.rate := rate;
      this.enabled := rate > 0.0;
      this.capacity := burst;
      this.tokens := burst;
      this.last := now;
    }

    /** The critical section of `acquire`; the caller then sleeps for the returned time. */
    method Acquire(n: real, now: real) returns (wait: real)
      requires enabled == Enabled(View())
      requires last <= now
      modifies this
      ensures View() == Taken(old(View()), Call(now, n))
      ensures wait == Wait(old(View()), Call(now, n))
      ensures !enabled ==> wait == 0.0 && View() == old(View())
    {
      if !enabled {
        return 0.0;
      }
      var elapsed := now - last;
      last := now;
      tokens := RMin(capacity, tokens + elapsed * rate);
      if tokens >= n {
        wait := 0.0;
      } else {
        wait := (n - tokens) / rate;
      }
      tokens := tokens - n;
    }
  }

  // ----- Virtual scheduling -----

  /** When the caller may go on. */
  function GrantTime(b: Bucket, c: Call): real { c.now + Wait(b, c) }

  /** The time at which the balance is back at zero if nobody else calls. */
  function FinishTime(b: Bucket): real
    requires Enabled(b)
  {
    b.last - b.tokens / b.rate
  }

  lemma Scaled(rate: real, x: real, y: real)
    requires rate > 0.0
    ensures rate * x <= rate * y <==> x <= y
    ensures rate * x == rate * y <==> x == y
  {
    if x < y { assert rate * (y - x) > 0.0; }
    if y < x { assert rate * (x - y) > 0.0; }
  }

  lemma Shared(rate: real, x: real, y: real)
    requires rate > 0.0
    ensures (x - y) / rate == x / rate - y / rate
  {
  }

  lemma Credited(rate: real, x: real, t: real)
    requires rate > 0.0
    ensures (x + t * rate) / rate == x / rate + t
  {
    assert t * rate / rate == t;
  }

  lemma Compared(rate: real, x: real, y: real)
    requires rate > 0.0
    ensures x < y <==> x / rate < y / rate
  {
    assert rate * (x / rate) == x && rate * (y / rate) == y;
    Scaled(rate, y / rate, x / rate);
  }

  lemma LaterScaled(rate: real, x: real, y: real)
    requires rate > 0.0
    ensures rate * RMax(x, y) == RMax(rate * x, rate * y)
  {
    Scaled(rate, x, y);
  }

  /** One step of the bucket in time units: dividing every balance by the rate turns it into time. */
  lemma StepInTime(rate: real, capacity: real, tokens: real, elapsed: real, n: real, refilled: real)
    requires rate > 0.0 && refilled == RMin(capacity, tokens + elapsed * rate)
    ensures refilled / rate == RMin(capacity / rate, tokens / rate + elapsed)
    ensures (refilled - n) / rate == refilled / rate - n / rate
    ensures refilled < n <==> refilled / rate < n / rate
  {
    Credited(rate, tokens, elapsed);
    Compared(rate, capacity, tokens + elapsed * rate);
    Shared(rate, refilled, n);
    Compared(rate, refilled, n);
  }

  lemma FinishInTime(b: Bucket, c: Call)
    requires Enabled(b)
    ensures FinishTime(Taken(b, c)) == RMax(FinishTime(b), c.now - b.capacity / b.rate) + c.tokens / b.rate
  {
    StepInTime(b.rate, b.capacity, b.tokens, c.now - b.last, c.tokens, Refilled(b, c.now));
  }

  lemma GrantInTime(b: Bucket, c: Call)
    requires Enabled(b)
    ensures GrantTime(b, c) == RMax(c.now, FinishTime(Taken(b, c)))
  {
    var refilled := Refilled(b, c.now);
    Shared(b.rate, refilled, c.tokens);
    Shared(b.rate, c.tokens, refilled);
    Compared(b.rate, refilled, c.tokens);
    assert FinishTime(Taken(b, c)) == c.now - (refilled - c.tokens) / b.rate;
  }

  /** Refill and deficit together are virtual scheduling: the finish time moves to the later of itself
      and `now - capacity/rate`, plus `tokens/rate`, and the caller goes on at the later of `now` and
      the new finish time. */
  lemma RefinesVirtualScheduling(b: Bucket, c: Call)
    requires Enabled(b)
    ensures FinishTime(Taken(b, c)) == RMax(FinishTime(b), c.now - b.capacity / b.rate) + c.tokens / b.rate
    ensures GrantTime(b, c) == RMax(c.now, FinishTime(Taken(b, c)))
  {
    FinishInTime(b, c);
    GrantInTime(b, c);
  }

  // ----- Runs -----

  function After(b: Bucket, calls: seq<Call>): Bucket {
    if calls == [] then b else Taken(After(b, calls[..|calls|-1]), calls[|calls|-1])
  }

  /** Calls in lock order: nonnegative requests, clock readings that never go back. */
  ghost predicate WellTimed(b: Bucket, calls: seq<Call>) {
    && (forall i :: 0 <= i < |calls| ==> calls[i].tokens >= 0.0 && b.last <= calls[i].now)
    && (forall i, j :: 0 <= i < j < |calls| ==> calls[i].now <= calls[j].now)
  }

  /** A granted call: when it was made, for how many tokens, from when the caller may go on; the time the
      tokens take to earn, and the finish time before and after it. */
  datatype Grant = Grant(now: real, tokens: real, at: real, cost: real, before: real, finish: real)

  function GrantFor(b: Bucket, c: Call): Grant
    requires Enabled(b)
  {
    Grant(c.now, c.tokens, GrantTime(b, c), c.tokens / b.rate, FinishTime(b), FinishTime(Taken(b, c)))
  }

  lemma {:induction false} SettingsKept(b: Bucket, calls: seq<Call>)
    ensures After(b, calls).rate == b.rate && After(b, calls).capacity == b.capacity
  {
    if calls != [] { SettingsKept(b, calls[..|calls|-1]); }
  }

  /** The grants of a run, in lock order. */
  function Ledger(b: Bucket, calls: seq<Call>): (g: seq<Grant>)
    requires Enabled(b)
    ensures |g| == |calls|
  {
    if calls == [] then []
    else
      SettingsKept(b, calls[..|calls|-1]);
      Ledger(b, calls[..|calls|-1]) + [GrantFor(After(b, calls[..|calls|-1]), calls[|calls|-1])]
  }

  // ----- The books: virtual scheduling, in time units -----

  /** The time a full bucket takes to earn. */
  function Depth(b: Bucket): real
    requires Enabled(b)
  {
    b.capacity / b.rate
  }

  /** A grant under virtual scheduling. */
  predicate Sound(depth: real, g: Grant) {
    && g.cost >= 0.0
    && g.finish == RMax(g.before, g.now - depth) + g.cost
    && g.at == RMax(g.now, g.finish)
  }

  /** The finish time left by the last grant. */
  function Finish(start: real, g: seq<Grant>): real { if g == [] then start else g[|g|-1].finish }

  /** Grant `i` is made no earlier than the one before it and starts from the finish time that one left. */
  predicate Linked(g: seq<Grant>, i: nat)
    requires 0 < i < |g|
  {
    g[i-1].now <= g[i].now && g[i].before == g[i-1].finish
  }

  /** Sound grants, the first one from `start`, each linked to the one before it. */
  ghost predicate Booked(depth: real, start: real, g: seq<Grant>) {
    && (forall i {:trigger Sound(depth, g[i])} :: 0 <= i < |g| ==> Sound(depth, g[i]))
    && (forall i {:trigger Linked(g, i)} :: 0 < i < |g| ==> Linked(g, i))
    && (g != [] ==> g[0].before == start)
  }

  /** The tokens of a grant are the rate times the time they take to earn. */
  predicate PricedAt(rate: real, g: Grant) { g.tokens == rate * g.cost }

  ghost predicate Priced(rate: real, g: seq<Grant>) {
    forall i {:trigger PricedAt(rate, g[i])} :: 0 <= i < |g| ==> PricedAt(rate, g[i])
  }

  lemma BookedAppend(depth: real, start: real, g: seq<Grant>, next: Grant)
    requires Booked(depth, start, g) && Sound(depth, next) && next.before == Finish(start, g)
    requires g != [] ==> g[|g|-1].now <= next.now
    ensures Booked(depth, start, g + [next])
  {
    var all := g + [next];
    forall i | 0 <= i < |all| ensures Sound(depth, all[i]) {
      if i < |g| { assert Sound(depth, g[i]); }
    }
    forall i | 0 < i < |all| ensures Linked(all, i) {
      if i < |g| { assert Linked(g, i); }
    }
  }

  lemma GrantSound(b: Bucket, c: Call)
    requires Enabled(b) && c.tokens >= 0.0
    ensures Sound(Depth(b), GrantFor(b, c)) && PricedAt(b.rate, GrantFor(b, c))
  {
    RefinesVirtualScheduling(b, c);
    Scaled(b.rate, 0.0, c.tokens / b.rate);
  }

  /** One more call keeps the books. */
  lemma LedgerAppend(b: Bucket, depth: real, start: real, g: seq<Grant>, c: Call)
    requires Enabled(b) && c.tokens >= 0.0 && depth == Depth(b)
    requires Booked(depth, start, g) && Priced(b.rate, g) && FinishTime(b) == Finish(start, g)
    requires g != [] ==> g[|g|-1].now <= c.now
    ensures Booked(depth, start, g + [GrantFor(b, c)]) && Priced(b.rate, g + [GrantFor(b, c)])
    ensures FinishTime(Taken(b, c)) == Finish(start, g + [GrantFor(b, c)])
  {
    var next := GrantFor(b, c);
    assert Sound(depth, next) && PricedAt(b.rate, next) by { GrantSound(b, c); }
    assert next.before == Finish(start, g) && next.now == c.now && next.finish == FinishTime(Taken(b, c));
    BookedAppend(depth, start, g, next);
    PricedAppend(b.rate, g, next);
  }

  lemma PricedAppend(rate: real, g: seq<Grant>, next: Grant)
    requires Priced(rate, g) && PricedAt(rate, next)
    ensures Priced(rate, g + [next])
  {
    forall i | 0 <= i < |g + [next]| ensures PricedAt(rate, (g + [next])[i]) {
      if i < |g| { assert PricedAt(rate, g[i]); }
    }
  }

  /** Every well-timed run of an enabled bucket keeps the books. */
  lemma {:induction false} LedgerBooked(b: Bucket, calls: seq<Call>)
    requires Enabled(b) && WellTimed(b, calls)
    ensures Booked(Depth(b), FinishTime(b), Ledger(b, calls)) && Priced(b.rate, Ledger(b, calls))
    ensures Enabled(After(b, calls)) && FinishTime(After(b, calls)) == Finish(FinishTime(b), Ledger(b, calls))
    ensures forall i :: 0 <= i < |calls| ==>
              Ledger(b, calls)[i].now == calls[i].now && Ledger(b, calls)[i].tokens == calls[i].tokens
  {
    SettingsKept(b, calls);
    if calls != [] {
      var n := |calls| - 1;
      LedgerBooked(b, calls[..n]);
      SettingsKept(b, calls[..n]);
      LedgerAppend(After(b, calls[..n]), Depth(b), FinishTime(b), Ledger(b, calls[..n]), calls[n]);
    }
  }

  // ----- Bounds -----

  /** Time the grants from `i` up to but not including `j` take to earn. */
  function Work(g: seq<Grant>, i: nat, j: nat): real
    requires i <= j <= |g|
    decreases j
  {
    if i == j then 0.0 else Work(g, i, j - 1) + g[j-1].cost
  }

  predicate Within(g: Grant, lo: real, hi: real) { lo <= g.at <= hi }

  /** The same for the grants due in the closed interval from `lo` to `hi`, among the first `m`. */
  function WorkIn(g: seq<Grant>, lo: real, hi: real, m: nat): real
    requires m <= |g|
  {
    if m == 0 then 0.0 else WorkIn(g, lo, hi, m - 1) + if Within(g[m-1], lo, hi) then g[m-1].cost else 0.0
  }

  /** Tokens granted in the closed interval from `lo` to `hi`, among the first `m` grants. */
  function TokensIn(g: seq<Grant>, lo: real, hi: real, m: nat): real
    requires m <= |g|
  {
    if m == 0 then 0.0 else TokensIn(g, lo, hi, m - 1) + if Within(g[m-1], lo, hi) then g[m-1].tokens else 0.0
  }

  /** Tokens asked for by the grants from `i` up to but not including `j`. */
  function Requested(g: seq<Grant>, i: nat, j: nat): real
    requires i <= j <= |g|
    decreases j
  {
    if i == j then 0.0 else Requested(g, i, j - 1) + g[j-1].tokens
  }

  ghost predicate FirstIn(g: seq<Grant>, lo: real, hi: real, first: nat) {
    && first < |g| && Within(g[first], lo, hi)
    && forall i :: 0 <= i < first ==> !Within(g[i], lo, hi)
  }

  lemma {:induction false} TokensAreWork(rate: real, g: seq<Grant>, lo: real, hi: real, m: nat)
    requires Priced(rate, g) && m <= |g|
    ensures TokensIn(g, lo, hi, m) == rate * WorkIn(g, lo, hi, m)
  {
    if m > 0 {
      TokensAreWork(rate, g, lo, hi, m - 1);
      assert PricedAt(rate, g[m-1]);
      AddScaled(rate, WorkIn(g, lo, hi, m - 1), g[m-1].cost);
    }
  }

  lemma {:induction false} RequestedIsWork(rate: real, g: seq<Grant>, i: nat, j: nat)
    requires Priced(rate, g) && i <= j <= |g|
    ensures Requested(g, i, j) == rate * Work(g, i, j)
    decreases j
  {
    if i < j {
      RequestedIsWork(rate, g, i, j - 1);
      assert PricedAt(rate, g[j-1]);
      AddScaled(rate, Work(g, i, j - 1), g[j-1].cost);
    }
  }

  lemma AddScaled(rate: real, x: real, y: real)
    ensures rate * (x + y) == rate * x + rate * y
  {
  }

  lemma {:induction false} FinishAdvances(depth: real, start: real, g: seq<Grant>, i: nat, j: nat)
    requires Booked(depth, start, g) && i <= j < |g|
    ensures 0.0 <= Work(g, i, j + 1) <= g[j].finish - g[i].before
    decreases j
  {
    assert Sound(depth, g[j]);
    if i < j {
      FinishAdvances(depth, start, g, i, j - 1);
      assert Linked(g, j);
    } else {
      assert Work(g, i, i) == 0.0;
    }
  }

  /** Grant times never decrease in lock order: no caller overtakes an earlier one. */
  lemma {:induction false} GrantsInOrder(depth: real, start: real, g: seq<Grant>, i: nat, j: nat)
    requires Booked(depth, start, g) && i <= j < |g|
    ensures g[i].at <= g[j].at
  {
    if i < j {
      GrantsInOrder(depth, start, g, i, j - 1);
      assert Sound(depth, g[j-1]) && Sound(depth, g[j]) && Linked(g, j);
    }
  }

  lemma {:induction false} NothingBefore(g: seq<Grant>, lo: real, hi: real, m: nat)
    requires m <= |g| && forall i :: 0 <= i < m ==> !Within(g[i], lo, hi)
    ensures WorkIn(g, lo, hi, m) == 0.0
  {
    if m > 0 { NothingBefore(g, lo, hi, m - 1); }
  }

  lemma {:induction false} WorkGrows(depth: real, start: real, g: seq<Grant>, i: nat, j: nat, k: nat)
    requires Booked(depth, start, g) && i <= j <= k <= |g|
    ensures Work(g, i, j) <= Work(g, i, k)
    decreases k
  {
    if j < k {
      WorkGrows(depth, start, g, i, j, k - 1);
      assert Sound(depth, g[k-1]);
    }
  }

  /** The work due in a window is part of the work between its first and some last grant. */
  lemma {:induction false} WindowSpan(depth: real, start: real, g: seq<Grant>, lo: real, hi: real, first: nat,
          m: nat) returns (end: nat)
    requires Booked(depth, start, g) && FirstIn(g, lo, hi, first) && first < m <= |g|
    ensures first < end <= m && g[end-1].at <= hi
    ensures WorkIn(g, lo, hi, m) <= Work(g, first, end)
    decreases m
  {
    if m == first + 1 {
      NothingBefore(g, lo, hi, first);
      end := m;
      assert Work(g, first, first) == 0.0;
    } else {
      end := WindowSpan(depth, start, g, lo, hi, first, m - 1);
      if Within(g[m-1], lo, hi) {
        WorkGrows(depth, start, g, first, end, m - 1);
        end := m;
      }
    }
  }

  lemma {:induction false} WorkFrom(g: seq<Grant>, i: nat, j: nat)
    requires i < j <= |g|
    ensures Work(g, i, j) == g[i].cost + Work(g, i + 1, j)
    decreases j
  {
    if i + 1 < j { WorkFrom(g, i, j - 1); }
    assert i + 1 == j ==> Work(g, i, i) == 0.0;
  }

  lemma WorkInWindow(depth: real, start: real, g: seq<Grant>, lo: real, hi: real, first: nat)
    requires Booked(depth, start, g) && FirstIn(g, lo, hi, first)
    ensures WorkIn(g, lo, hi, |g|) <= RMax(depth, g[first].cost) + (hi - lo)
  {
    var end := WindowSpan(depth, start, g, lo, hi, first, |g|);
    WorkFrom(g, first, end);
    assert Sound(depth, g[first]) && Sound(depth, g[end-1]);
    if first + 1 < end {
      FinishAdvances(depth, start, g, first + 1, end - 1);
      assert Linked(g, first + 1);
    }
  }

  lemma ScaleBound(rate: real, capacity: real, x: real, depth: real, cost: real, tokens: real, span: real)
    requires rate > 0.0 && rate * depth == capacity && rate * cost == tokens
    requires x <= RMax(depth, cost) + span
    ensures rate * x <= RMax(capacity, tokens) + rate * span
  {
    Scaled(rate, x, RMax(depth, cost) + span);
    AddScaled(rate, RMax(depth, cost), span);
    LaterScaled(rate, depth, cost);
  }

  /** Window bound: the tokens granted in any interval total at most the larger of the capacity and the
      first request granted in it, plus the rate times its length. */
  lemma WindowBound(rate: real, depth: real, start: real, g: seq<Grant>, lo: real, hi: real, first: nat)
    requires rate > 0.0 && Booked(depth, start, g) && Priced(rate, g) && FirstIn(g, lo, hi, first)
    ensures TokensIn(g, lo, hi, |g|) <= RMax(rate * depth, g[first].tokens) + rate * (hi - lo)
  {
    WorkInWindow(depth, start, g, lo, hi, first);
    TokensAreWork(rate, g, lo, hi, |g|);
    assert PricedAt(rate, g[first]);
    ScaleBound(rate, rate * depth, WorkIn(g, lo, hi, |g|), depth, g[first].cost, g[first].tokens, hi - lo);
  }

  lemma {:induction false} WorkByTime(depth: real, t0: real, g: seq<Grant>, t: real, m: nat)
    requires depth >= 0.0 && t0 <= t && m <= |g| && Booked(depth, t0 - depth, g)
    ensures WorkIn(g, t0, t, m) <= depth + (t - t0)
  {
    if m > 0 {
      WorkByTime(depth, t0, g, t, m - 1);
      if Within(g[m-1], t0, t) {
        FinishAdvances(depth, t0 - depth, g, 0, m - 1);
        assert Sound(depth, g[m-1]);
        WorkInAtMostWork(depth, t0 - depth, g, t0, t, m);
      }
    }
  }

  lemma {:induction false} WorkInAtMostWork(depth: real, start: real, g: seq<Grant>, lo: real, hi: real, m: nat)
    requires Booked(depth, start, g) && m <= |g|
    ensures WorkIn(g, lo, hi, m) <= Work(g, 0, m)
  {
    if m > 0 {
      WorkInAtMostWork(depth, start, g, lo, hi, m - 1);
      assert Sound(depth, g[m-1]);
    }
  }

  /** Start-up bound: from a bucket that was full at `t0`, the tokens granted by any time `t` total at most
      the capacity plus the rate times the time elapsed. */
  lemma GrantedByBound(rate: real, depth: real, t0: real, g: seq<Grant>, t: real)
    requires rate > 0.0 && depth >= 0.0 && t0 <= t
    requires Booked(depth, t0 - depth, g) && Priced(rate, g)
    ensures TokensIn(g, t0, t, |g|) <= rate * depth + rate * (t - t0)
  {
    WorkByTime(depth, t0, g, t, |g|);
    TokensAreWork(rate, g, t0, t, |g|);
    Scaled(rate, WorkIn(g, t0, t, |g|), depth + (t - t0));
    AddScaled(rate, depth, t - t0);
  }

  lemma {:induction false} BusySince(depth: real, t0: real, g: seq<Grant>, i: nat) returns (j: nat)
    requires i < |g| && Booked(depth, t0 - depth, g) && t0 <= g[0].now
    ensures j <= i && g[i].finish == g[j].now - depth + Work(g, j, i + 1)
  {
    assert Sound(depth, g[i]);
    assert 0 < i ==> Linked(g, i);
    if i == 0 || g[i-1].finish <= g[i].now - depth {
      j := i;
      assert Work(g, i, i) == 0.0;
    } else {
      j := BusySince(depth, t0, g, i - 1);
    }
  }

  /** No needless wait: from a bucket full at `t0`, a caller that has to wait is held exactly until the
      requests since some earlier call `j` fill the capacity plus the rate times the time since it. */
  lemma WaitIsTight(rate: real, depth: real, t0: real, g: seq<Grant>, i: nat) returns (j: nat)
    requires i < |g| && Booked(depth, t0 - depth, g) && Priced(rate, g)
    requires t0 <= g[0].now && g[i].now < g[i].at
    ensures j <= i && Requested(g, j, i + 1) == rate * depth + rate * (g[i].at - g[j].now)
  {
    j := BusySince(depth, t0, g, i);
    assert Work(g, j, i + 1) == depth + (g[i].at - g[j].now) by { assert Sound(depth, g[i]); }
    RequestedIsWork(rate, g, j, i + 1);
    AddScaled(rate, depth, g[i].at - g[j].now);
  }

  // ----- The bounds of a bucket as the migrator creates it -----

  lemma FullBucket(b: Bucket)
    requires Enabled(b) && b.tokens == b.capacity
    ensures b.rate * Depth(b) == b.capacity
    ensures FinishTime(b) == b.last - Depth(b)
    ensures b.capacity >= 0.0 ==> Depth(b) >= 0.0
  {
    Scaled(b.rate, 0.0, Depth(b));
  }

  /** A burst of the capacity plus what is earned over a span of time. */
  function Allowance(b: Bucket, span: real): real { b.capacity + b.rate * span }

  lemma FullBucketBound(b: Bucket, g: seq<Grant>, t: real)
    requires Enabled(b) && b.tokens == b.capacity >= 0.0 && b.last <= t
    requires Booked(Depth(b), FinishTime(b), g) && Priced(b.rate, g)
    ensures TokensIn(g, b.last, t, |g|) <= Allowance(b, t - b.last)
  {
    FullBucket(b);
    GrantedByBound(b.rate, Depth(b), b.last, g, t);
  }

  lemma AnyBucketWindow(b: Bucket, start: real, g: seq<Grant>, lo: real, hi: real, first: nat)
    requires Enabled(b) && Booked(Depth(b), start, g) && Priced(b.rate, g) && FirstIn(g, lo, hi, first)
    ensures TokensIn(g, lo, hi, |g|) <= Allowance(b.(capacity := RMax(b.capacity, g[first].tokens)), hi - lo)
  {
    assert b.rate * Depth(b) == b.capacity;
    WindowBound(b.rate, Depth(b), start, g, lo, hi, first);
  }

  /** A caller never goes on before it called. */
  lemma GrantedAfterCall(b: Bucket, calls: seq<Call>, i: nat)
    requires Enabled(b) && WellTimed(b, calls) && i < |calls|
    ensures Ledger(b, calls)[i].tokens == calls[i].tokens &&
              Ledger(b, calls)[i].now == calls[i].now <= Ledger(b, calls)[i].at
  {
    LedgerBooked(b, calls);
    assert Sound(Depth(b), Ledger(b, calls)[i]);
  }

  /** Over every sequence of nonnegative acquires under a nondecreasing clock, a new bucket grants by time
      `t` at most its capacity plus the rate times the time since its creation. */
  lemma NewBucketBound(b: Bucket, calls: seq<Call>, t: real)
    requires Enabled(b) && WellTimed(b, calls) && b.tokens == b.capacity >= 0.0 && b.last <= t
    ensures TokensIn(Ledger(b, calls), b.last, t, |calls|) <= Allowance(b, t - b.last)
  {
    LedgerBooked(b, calls);
    FullBucketBound(b, Ledger(b, calls), t);
  }

  /** And in any window at most the larger of the capacity and the first request granted in it, plus the
      rate times its length, whatever the balance before the first call. */
  lemma BucketWindowBound(b: Bucket, calls: seq<Call>, lo: real, hi: real, first: nat)
    requires Enabled(b) && WellTimed(b, calls) && FirstIn(Ledger(b, calls), lo, hi, first)
    ensures TokensIn(Ledger(b, calls), lo, hi, |calls|) <= Allowance(b.(capacity := RMax(b.capacity,
              calls[first].tokens)), hi - lo)
  {
    LedgerBooked(b, calls);
    AnyBucketWindow(b, FinishTime(b), Ledger(b, calls), lo, hi, first);
  }

  /** No caller overtakes an earlier one. */
  lemma NoOvertaking(b: Bucket, calls: seq<Call>, i: nat, j: nat)
    requires Enabled(b) && WellTimed(b, calls) && i <= j < |calls|
    ensures Ledger(b, calls)[i].at <= Ledger(b, calls)[j].at
  {
    LedgerBooked(b, calls);
    GrantsInOrder(Depth(b), FinishTime(b), Ledger(b, calls), i, j);
  }

  lemma FullBucketTight(b: Bucket, g: seq<Grant>, i: nat) returns (j: nat)
    requires Enabled(b) && b.tokens == b.capacity && i < |g| && b.last <= g[0].now && g[i].now < g[i].at
    requires Booked(Depth(b), FinishTime(b), g) && Priced(b.rate, g)
    ensures j <= i && Requested(g, j, i + 1) == Allowance(b, g[i].at - g[j].now)
  {
    FullBucket(b);
    j := WaitIsTight(b.rate, Depth(b), b.last, g, i);
  }

  /** A caller of a new bucket that has to wait is held exactly until the requests since some earlier call `j` fill the
      allowance for the time since that call: the bounds above cannot be improved by waiting less. */
  lemma NoNeedlessWait(b: Bucket, calls: seq<Call>, i: nat) returns (j: nat)
    requires Enabled(b) && WellTimed(b, calls) && b.tokens == b.capacity && i < |calls|
    requires calls[i].now < Ledger(b, calls)[i].at
    ensures j <= i && Requested(Ledger(b, calls), j, i + 1) == Allowance(b, Ledger(b, calls)[i].at - calls[j].now)
  {
    LedgerBooked(b, calls);
    j := FullBucketTight(b, Ledger(b, calls), i);
  }
}
