/** Token buckets over real time: the tenant operation quota and the origin retry budget. */
module TokenBuckets {

  datatype Bucket = Bucket(tokens: real, updated: real)

  function Max(a: real, b: real): real { if a > b then a else b }

  function Min(a: real, b: real): real { if a < b then a else b }

  /** What flows in during `elapsed`. */
  function Accrued(rate: real, elapsed: real): real {
    elapsed * rate
  }

  function Refilled(capacity: real, rate: real, b: Bucket, now: real): Bucket {
    Bucket(Min(capacity, b.tokens + Accrued(rate, Max(0.0, now - b.updated))), now)
  }

  /** Refill, then take one token if a whole one is there. */
  function Take(capacity: real, rate: real, b: Bucket, now: real): (Bucket, bool) {
    var r := Refilled(capacity, rate, b, now);
    if r.tokens < 1.0 then (r, false) else (r.(tokens := r.tokens - 1.0), true)
  }

  /** The bucket after requests at `times`. */
  function Run(capacity: real, rate: real, b: Bucket, times: seq<real>): Bucket {
    if times == [] then b else Take(capacity, rate, Run(capacity, rate, b, times[..|times| - 1]), times[|times| - 1]).0
  }

  predicate GrantedLast(capacity: real, rate: real, b: Bucket, times: seq<real>)
    requires times != []
  {
    Take(capacity, rate, Run(capacity, rate, b, times[..|times| - 1]), times[|times| - 1]).1
  }

  /** How many of the requests made at times in `[from, to]` were granted. */
  function Granted(capacity: real, rate: real, b: Bucket, times: seq<real>, from: real, to: real): nat {
    if times == [] then 0
    else
      var t := times[|times| - 1];
      Granted(capacity, rate, b, times[..|times| - 1], from, to) +
      (if from <= t <= to && GrantedLast(capacity, rate, b, times) then 1 else 0)
  }

  ghost predicate Monotone(b: Bucket, times: seq<real>) {
    && (forall i | 0 <= i < |times| :: b.updated <= times[i])
    && (forall i, j | 0 <= i < j < |times| :: times[i] <= times[j])
  }

  lemma AccruedSum(rate: real, x: real, y: real)
    ensures Accrued(rate, x) + Accrued(rate, y) == Accrued(rate, x + y)
  {
  }

  lemma AccruedPositive(rate: real, x: real)
    requires rate >= 0.0 && x >= 0.0
    ensures Accrued(rate, x) >= 0.0
  {
  }

  lemma AccruedMore(rate: real, x: real, y: real)
    requires rate >= 0.0 && x <= y
    ensures Accrued(rate, x) <= Accrued(rate, y)
  {
    AccruedPositive(rate, y - x);
    AccruedSum(rate, x, y - x);
  }

  lemma RefillBound(capacity: real, rate: real, b: Bucket, now: real)
    requires rate >= 0.0 && now >= b.updated && 0.0 <= b.tokens <= capacity
    ensures var r := Refilled(capacity, rate, b, now);
      0.0 <= r.tokens <= capacity && r.tokens <= b.tokens + Accrued(rate, now - b.updated)
  {
    AccruedPositive(rate, now - b.updated);
  }

  /** The tokens are never negative nor above capacity, and the bucket's time is the last request's. */
  lemma {:induction false} RunBounds(capacity: real, rate: real, b: Bucket, times: seq<real>)
    requires rate >= 0.0 && 0.0 <= b.tokens <= capacity && Monotone(b, times)
    ensures var r := Run(capacity, rate, b, times);
      && 0.0 <= r.tokens <= capacity
      && r.updated == if times == [] then b.updated else times[|times| - 1]
  {
    if times != [] {
      var init := times[..|times| - 1];
      RunBounds(capacity, rate, b, init);
      RefillBound(capacity, rate, Run(capacity, rate, b, init), times[|times| - 1]);
    }
  }

  /** What is granted in the window and what is left never exceed what the window allows. */
  ghost predicate Account(capacity: real, rate: real, r: Bucket, granted: nat, from: real, to: real) {
    && granted as real <= capacity + Accrued(rate, to - from)
    && (r.updated < from ==> granted == 0)
    && (from <= r.updated <= to ==> r.tokens + granted as real <= capacity + Accrued(rate, r.updated - from))
  }

  /** The first request inside the window starts from at most a full bucket. */
  lemma EnterWindow(capacity: real, rate: real, r: Bucket, now: real, from: real, to: real)
    requires rate >= 0.0 && capacity >= 0.0 && 0.0 <= r.tokens <= capacity && r.updated < from <= now <= to
    ensures var (s, ok) := Take(capacity, rate, r, now);
      Account(capacity, rate, s, if ok then 1 else 0, from, to)
  {
    RefillBound(capacity, rate, r, now);
    AccruedPositive(rate, now - from);
    AccruedPositive(rate, to - from);
  }

  lemma InsideWindow(capacity: real, rate: real, r: Bucket, granted: nat, now: real, from: real, to: real)
    requires rate >= 0.0 && 0.0 <= r.tokens <= capacity && from <= r.updated <= now <= to
    requires Account(capacity, rate, r, granted, from, to)
    ensures var (s, ok) := Take(capacity, rate, r, now);
      Account(capacity, rate, s, granted + if ok then 1 else 0, from, to)
  {
    RefillBound(capacity, rate, r, now);
    AccruedSum(rate, r.updated - from, now - r.updated);
    assert (r.updated - from) + (now - r.updated) == now - from;
    AccruedMore(rate, now - from, to - from);
  }

  lemma StepAccount(capacity: real, rate: real, r: Bucket, granted: nat, now: real, from: real, to: real)
    requires rate >= 0.0 && capacity >= 0.0 && 0.0 <= r.tokens <= capacity && r.updated <= now && from <= to
    requires Account(capacity, rate, r, granted, from, to)
    ensures var (s, ok) := Take(capacity, rate, r, now);
      Account(capacity, rate, s, granted + if from <= now <= to && ok then 1 else 0, from, to)
  {
    if from <= now <= to {
      if r.updated < from {
        EnterWindow(capacity, rate, r, now, from, to);
      } else {
        InsideWindow(capacity, rate, r, granted, now, from, to);
      }
    }
  }

  lemma {:induction false} RunAccount(capacity: real, rate: real, b: Bucket, times: seq<real>, from: real, to: real)
    requires rate >= 0.0 && 0.0 <= b.tokens <= capacity && Monotone(b, times) && from <= to
    ensures Account(capacity, rate, Run(capacity, rate, b, times), Granted(capacity, rate, b, times, from, to), from, to)
  {
    AccruedPositive(rate, to - from);
    if times == [] {
      if from <= b.updated { AccruedPositive(rate, b.updated - from); }
    } else {
      var init, now := times[..|times| - 1], times[|times| - 1];
      RunBounds(capacity, rate, b, init);
      RunAccount(capacity, rate, b, init, from, to);
      StepAccount(capacity, rate, Run(capacity, rate, b, init), Granted(capacity, rate, b, init, from, to), now, from, to);
    }
  }

  /** In any window of any run, at most `capacity + rate * length` requests are granted. */
  lemma WindowBound(capacity: real, rate: real, b: Bucket, times: seq<real>, from: real, to: real)
    requires rate >= 0.0 && 0.0 <= b.tokens <= capacity && Monotone(b, times) && from <= to
    ensures Granted(capacity, rate, b, times, from, to) as real <= capacity + rate * (to - from)
  {
    RunAccount(capacity, rate, b, times, from, to);
    assert Accrued(rate, to - from) == rate * (to - from);
  }

  // ----- What must be granted -----

  /** How many of the requests from number `j` on were granted. */
  function GrantedFrom(capacity: real, rate: real, b: Bucket, times: seq<real>, j: nat): nat {
    if |times| <= j then 0
    else GrantedFrom(capacity, rate, b, times[..|times| - 1], j) + if GrantedLast(capacity, rate, b, times) then 1 else 0
  }

  /** The bucket has run full by the time of request number `j`. */
  predicate FullAt(capacity: real, rate: real, b: Bucket, times: seq<real>, j: nat) {
    j < |times| &&
    var r := Run(capacity, rate, b, times[..j]);
    r.tokens + Accrued(rate, times[j] - r.updated) >= capacity
  }

  /** The last time it ran full, or the start: when, and how many tokens it held then. */
  datatype Since = Since(time: real, tokens: real, request: nat)

  predicate SinceFull(capacity: real, rate: real, b: Bucket, times: seq<real>, s: Since) {
    || s == Since(b.updated, b.tokens, 0)
    || (FullAt(capacity, rate, b, times, s.request) && s.time == times[s.request] && s.tokens == capacity)
  }

  lemma SinceLater(capacity: real, rate: real, b: Bucket, times: seq<real>, s: Since)
    requires times != [] && SinceFull(capacity, rate, b, times[..|times| - 1], s)
    ensures SinceFull(capacity, rate, b, times, s)
  {
    if s.request < |times| - 1 { assert times[..|times| - 1][..s.request] == times[..s.request]; }
  }

  lemma GrantedFromNext(capacity: real, rate: real, b: Bucket, times: seq<real>, j: nat)
    requires times != [] && j < |times|
    ensures GrantedFrom(capacity, rate, b, times, j) ==
      GrantedFrom(capacity, rate, b, times[..|times| - 1], j) + if GrantedLast(capacity, rate, b, times) then 1 else 0
  {
  }

  /** All that was there and has accrued, less what was granted. */
  predicate Holds(rate: real, s: Since, r: Bucket, granted: nat) {
    r.tokens == s.tokens + Accrued(rate, r.updated - s.time) - granted as real
  }

  /** What the bucket holds, from when it last ran full. */
  ghost predicate Level(capacity: real, rate: real, b: Bucket, times: seq<real>, s: Since, r: Bucket) {
    SinceFull(capacity, rate, b, times, s) && Holds(rate, s, r, GrantedFrom(capacity, rate, b, times, s.request))
  }

  lemma LevelFull(capacity: real, rate: real, b: Bucket, times: seq<real>) returns (s: Since)
    requires times != [] && FullAt(capacity, rate, b, times, |times| - 1)
    requires Run(capacity, rate, b, times[..|times| - 1]).updated <= times[|times| - 1]
    ensures Level(capacity, rate, b, times, s, Run(capacity, rate, b, times)) && s.request < |times|
  {
    var n := |times| - 1;
    s := Since(times[n], capacity, n);
    GrantedFromNext(capacity, rate, b, times, n);
    assert Accrued(rate, times[n] - times[n]) == 0.0;
  }

  lemma TakeBelow(capacity: real, rate: real, r: Bucket, now: real)
    requires r.updated <= now && r.tokens + Accrued(rate, now - r.updated) < capacity
    ensures var (t, ok) := Take(capacity, rate, r, now);
      t.updated == now && t.tokens == r.tokens + Accrued(rate, now - r.updated) - if ok then 1.0 else 0.0
  {
  }

  lemma HoldsNext(capacity: real, rate: real, s: Since, r: Bucket, now: real, granted: nat, next: Bucket, ok: bool, total: nat)
    requires r.updated <= now && r.tokens + Accrued(rate, now - r.updated) < capacity && Holds(rate, s, r, granted)
    requires Take(capacity, rate, r, now) == (next, ok) && total == granted + if ok then 1 else 0
    ensures Holds(rate, s, next, total)
  {
    TakeBelow(capacity, rate, r, now);
    LevelSum(rate, r.updated, s.time, now);
  }

  lemma RunNext(capacity: real, rate: real, b: Bucket, times: seq<real>)
    requires times != []
    ensures Take(capacity, rate, Run(capacity, rate, b, times[..|times| - 1]), times[|times| - 1]) ==
      (Run(capacity, rate, b, times), GrantedLast(capacity, rate, b, times))
  {
  }

  lemma NotFull(capacity: real, rate: real, b: Bucket, times: seq<real>)
    requires times != [] && !FullAt(capacity, rate, b, times, |times| - 1)
    ensures var r, now := Run(capacity, rate, b, times[..|times| - 1]), times[|times| - 1];
      r.tokens + Accrued(rate, now - r.updated) < capacity
  {
  }

  lemma HoldsAfter(capacity: real, rate: real, b: Bucket, times: seq<real>, s: Since)
    requires times != [] && !FullAt(capacity, rate, b, times, |times| - 1) && s.request < |times|
    requires Run(capacity, rate, b, times[..|times| - 1]).updated <= times[|times| - 1]
    requires Holds(rate, s, Run(capacity, rate, b, times[..|times| - 1]),
                   GrantedFrom(capacity, rate, b, times[..|times| - 1], s.request))
    ensures Holds(rate, s, Run(capacity, rate, b, times), GrantedFrom(capacity, rate, b, times, s.request))
  {
    var init := times[..|times| - 1];
    NotFull(capacity, rate, b, times);
    RunNext(capacity, rate, b, times);
    GrantedFromNext(capacity, rate, b, times, s.request);
    HoldsNext(capacity, rate, s, Run(capacity, rate, b, init), times[|times| - 1],
              GrantedFrom(capacity, rate, b, init, s.request), Run(capacity, rate, b, times),
              GrantedLast(capacity, rate, b, times), GrantedFrom(capacity, rate, b, times, s.request));
  }

  lemma LevelNext(capacity: real, rate: real, b: Bucket, times: seq<real>, s: Since)
    requires times != [] && !FullAt(capacity, rate, b, times, |times| - 1)
    requires s.request <= |times| - 1 && Run(capacity, rate, b, times[..|times| - 1]).updated <= times[|times| - 1]
    requires Level(capacity, rate, b, times[..|times| - 1], s, Run(capacity, rate, b, times[..|times| - 1]))
    ensures Level(capacity, rate, b, times, s, Run(capacity, rate, b, times))
  {
    SinceLater(capacity, rate, b, times, s);
    HoldsAfter(capacity, rate, b, times, s);
  }

  lemma LevelSum(rate: real, middle: real, from: real, to: real)
    ensures Accrued(rate, middle - from) + Accrued(rate, to - middle) == Accrued(rate, to - from)
  {
    AccruedSum(rate, middle - from, to - middle);
    assert (middle - from) + (to - middle) == to - from;
  }

  /** Exactly what the bucket holds: since it last ran full all that has accrued, less what was granted. */
  lemma {:induction false} LevelIs(capacity: real, rate: real, b: Bucket, times: seq<real>) returns (s: Since)
    requires rate >= 0.0 && 0.0 <= b.tokens <= capacity && Monotone(b, times)
    ensures Level(capacity, rate, b, times, s, Run(capacity, rate, b, times))
    ensures s.request <= |times| && (times != [] ==> s.request < |times|)
  {
    if times == [] {
      s := Since(b.updated, b.tokens, 0);
    } else {
      var init := times[..|times| - 1];
      RunBounds(capacity, rate, b, init);
      if FullAt(capacity, rate, b, times, |times| - 1) {
        s := LevelFull(capacity, rate, b, times);
      } else {
        s := LevelIs(capacity, rate, b, init);
        LevelNext(capacity, rate, b, times, s);
      }
    }
  }

  lemma RefusedHoldsLess(capacity: real, rate: real, b: Bucket, times: seq<real>)
    requires times != [] && !GrantedLast(capacity, rate, b, times)
    ensures Run(capacity, rate, b, times).tokens < 1.0 && Run(capacity, rate, b, times).updated == times[|times| - 1]
  {
  }

  /**
   A request is refused only when the allowance is used up: since the bucket last ran full,
   or since the start, more was granted than it held then and has accrued, less one.
   */
  lemma RefusedWhenSpent(capacity: real, rate: real, b: Bucket, times: seq<real>) returns (s: Since)
    requires rate >= 0.0 && 0.0 <= b.tokens <= capacity && Monotone(b, times)
    requires times != [] && !GrantedLast(capacity, rate, b, times)
    ensures SinceFull(capacity, rate, b, times, s)
    ensures GrantedFrom(capacity, rate, b, times, s.request) as real > s.tokens + rate * (times[|times| - 1] - s.time) - 1.0
  {
    s := LevelIs(capacity, rate, b, times);
    RefusedHoldsLess(capacity, rate, b, times);
    assert Accrued(rate, times[|times| - 1] - s.time) == rate * (times[|times| - 1] - s.time);
  }

  /** The tenant's admission: flags first, then the operation quota. */
  class TenantRuntime {
    const burst: real
    const rate: real
    var tokens: real
    var lastRefill: real
    var active: nat
    var accepting: bool
    var maintenance: bool
    var quotaRejections: nat

    function State(): Bucket
      reads this
    {
      Bucket(tokens, lastRefill)
    }

    constructor (burst: real, rate: real, enabled: bool, now: real)
      ensures this.burst == burst && this.rate == rate && State() == Bucket(burst, now)
      ensures active == 0 && accepting == enabled && !maintenance && quotaRejections == 0
    {
      this.burst, this.rate := burst, rate;
      tokens, lastRefill, active, accepting, maintenance, quotaRejections := burst, now, 0, enabled, false, 0;
    }

    /** An admitted operation is one granted by the bucket; a refusal by a flag leaves the bucket alone. */
    method BeginOperation(allowUnavailable: bool, now: real) returns (admitted: bool)
      modifies this`tokens, this`lastRefill, this`active, this`quotaRejections
      ensures (!accepting || maintenance) && !allowUnavailable ==> !admitted && State() == old(State())
      ensures allowUnavailable || (accepting && !maintenance) ==> (State(), admitted) == Take(burst, rate, old(State()), now)
      ensures active == old(active) + if admitted then 1 else 0
    {
      if (!accepting || maintenance) && !allowUnavailable {
        return false;
      }
      tokens := Min(burst, tokens + Max(0.0, now - lastRefill) * rate);
      lastRefill := now;
      if tokens < 1.0 {
        quotaRejections := quotaRejections + 1;
        return false;
      }
      tokens := tokens - 1.0;
      active := active + 1;
      admitted := true;
    }

    method EndOperation()
      modifies this`active
      ensures active == if old(active) > 0 then old(active) - 1 else 0
    {
      if active > 0 { active := active - 1; }
    }
  }

  /** The origin's retry budget. */
  class RetryBudget {
    const capacity: real
    const refill: real
    var tokens: real
    var updated: real
    var exhausted: nat

    function State(): Bucket
      reads this
    {
      Bucket(tokens, updated)
    }

    constructor (capacity: real, refill: real, now: real)
      ensures this.capacity == capacity && this.refill == refill && State() == Bucket(capacity, now) && exhausted == 0
    {
      this.capacity, this.refill := capacity, refill;
      tokens, updated, exhausted := capacity, now, 0;
    }

    method ConsumeRetry(now: real) returns (granted: bool)
      modifies this
      ensures (State(), granted) == Take(capacity, refill, old(State()), now)
      ensures exhausted == old(exhausted) + if granted then 0 else 1
    {
      tokens := Min(capacity, tokens + Max(0.0, now - updated) * refill);
      updated := now;
      if tokens < 1.0 {
        exhausted := exhausted + 1;
        return false;
      }
      tokens := tokens - 1.0;
      granted := true;
    }
  }
}
