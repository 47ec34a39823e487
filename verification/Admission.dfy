/** The origin's concurrency budget under every interleaving of its users. */
module Admission {

  type Thread = nat

  datatype Phase = Out | Waiting | Holding

  /** The counters of the budget, and what every thread is doing. */
  datatype Budget = Budget(active: int, waiting: int, rejected: nat, closed: bool, phases: map<Thread, Phase>)

  datatype Limits = Limits(maximum: nat, maximumQueue: nat)

  /** `Wake` is a return from the condition wait: notified, spurious or timed out (`expired`). */
  datatype Step = Acquire(t: Thread) | Wake(t: Thread, expired: bool) | Release(t: Thread) | Close

  function PhaseOf(b: Budget, t: Thread): Phase {
    if t in b.phases then b.phases[t] else Out
  }

  predicate Enabled(b: Budget, step: Step) {
    match step
    case Acquire(t) => PhaseOf(b, t).Out?
    case Wake(t, _) => PhaseOf(b, t).Waiting?
    case Release(t) => PhaseOf(b, t).Holding?
    case Close => true
  }

  function Next(lim: Limits, b: Budget, step: Step): Budget {
    match step
    case Acquire(t) =>
      if b.closed then b
      else if b.active < lim.maximum then b.(active := b.active + 1, phases := b.phases[t := Holding])
      else if b.waiting >= lim.maximumQueue then b.(rejected := b.rejected + 1)
      else b.(waiting := b.waiting + 1, phases := b.phases[t := Waiting])
    case Wake(t, expired) =>
      if b.closed then b.(waiting := b.waiting - 1, phases := b.phases[t := Out])
      else if b.active < lim.maximum then b.(active := b.active + 1, waiting := b.waiting - 1, phases := b.phases[t := Holding])
      else if expired then b.(waiting := b.waiting - 1, rejected := b.rejected + 1, phases := b.phases[t := Out])
      else b
    case Release(t) => b.(active := b.active - 1, phases := b.phases[t := Out])
    case Close => b.(closed := true)
  }

  function In(b: Budget, p: Phase): set<Thread> {
    set t | t in b.phases && b.phases[t] == p
  }

  /** The counters are the numbers of holders and waiters, and stay within the limits. */
  ghost predicate Exact(lim: Limits, b: Budget) {
    && b.active == |In(b, Holding)| && b.waiting == |In(b, Waiting)|
    && b.active <= lim.maximum && b.waiting <= lim.maximumQueue
  }

  lemma Moves(b: Budget, t: Thread, p: Phase, q: Phase)
    ensures In(b.(phases := b.phases[t := p]), q) == (In(b, q) - {t}) + (if p == q then {t} else {})
  {
  }

  lemma Counts(b: Budget, t: Thread, p: Phase, q: Phase)
    requires !q.Out?
    ensures |In(b.(phases := b.phases[t := p]), q)|
         == |In(b, q)| - (if PhaseOf(b, t) == q then 1 else 0) + (if p == q then 1 else 0)
  {
    Moves(b, t, p, q);
    assert t in In(b, q) <==> PhaseOf(b, t) == q;
  }

  lemma NextKeeps(lim: Limits, b: Budget, step: Step)
    requires Exact(lim, b) && Enabled(b, step)
    ensures Exact(lim, Next(lim, b, step))
  {
    if !step.Close? {
      Counts(b, step.t, Holding, Holding);
      Counts(b, step.t, Holding, Waiting);
      Counts(b, step.t, Waiting, Holding);
      Counts(b, step.t, Waiting, Waiting);
      Counts(b, step.t, Out, Holding);
      Counts(b, step.t, Out, Waiting);
      SameCounts(b, Next(lim, b, step));
    }
  }

  /** Who holds and who waits depends only on the phases. */
  lemma SameCounts(a: Budget, b: Budget)
    ensures In(b, Holding) == In(a.(phases := b.phases), Holding) && In(b, Waiting) == In(a.(phases := b.phases), Waiting)
  {
  }

  ghost predicate IsRun(lim: Limits, bs: seq<Budget>, steps: seq<Step>) {
    && |bs| == |steps| + 1 && bs[0] == Budget(0, 0, 0, false, map[])
    && forall i | 0 <= i < |steps| :: Enabled(bs[i], steps[i]) && bs[i + 1] == Next(lim, bs[i], steps[i])
  }

  /** Over every interleaving of acquire, wait, wake, timeout, release and close. */
  lemma {:induction false} AlwaysExact(lim: Limits, bs: seq<Budget>, steps: seq<Step>, n: nat)
    requires IsRun(lim, bs, steps) && n <= |steps|
    ensures Exact(lim, bs[n])
  {
    if n == 0 {
      assert In(bs[0], Holding) == {} && In(bs[0], Waiting) == {};
    } else {
      AlwaysExact(lim, bs, steps, n - 1);
      NextKeeps(lim, bs[n - 1], steps[n - 1]);
    }
  }

  datatype Entry = Entered | Queued | Refused

  /** The counters updated in place; each method is one stretch under the lock. */
  class AdmissionBudget {
    const lim: Limits
    var active: int
    var waiting: int
    var rejected: nat
    var closed: bool

    constructor (lim: Limits)
      ensures this.lim == lim && active == 0 && waiting == 0 && rejected == 0 && !closed
    {
      this.lim := lim;
      active, waiting, rejected, closed := 0, 0, 0, false;
    }

    /** What the counters say, with the threads' phases alongside. */
    function State(phases: map<Thread, Phase>): Budget
      reads this
    {
      Budget(active, waiting, rejected, closed, phases)
    }

    method Enter(t: Thread, ghost phases: map<Thread, Phase>) returns (out: Entry)
      modifies this
      ensures State(Next(lim, old(State(phases)), Acquire(t)).phases) == Next(lim, old(State(phases)), Acquire(t))
      ensures out == if old(closed) then Refused else if old(active) < lim.maximum then Entered
                     else if old(waiting) >= lim.maximumQueue then Refused else Queued
    {
      if closed {
        return Refused;
      }
      if active < lim.maximum {
        active := active + 1;
        return Entered;
      }
      if waiting >= lim.maximumQueue {
        rejected := rejected + 1;
        return Refused;
      }
      waiting := waiting + 1;
      out := Queued;
    }

    method Resume(t: Thread, expired: bool, ghost phases: map<Thread, Phase>) returns (out: Entry)
      modifies this
      ensures State(Next(lim, old(State(phases)), Wake(t, expired)).phases) == Next(lim, old(State(phases)), Wake(t, expired))
      ensures out == if old(closed) then Refused else if old(active) < lim.maximum then Entered
                     else if expired then Refused else Queued
    {
      if closed {
        waiting := waiting - 1;
        return Refused;
      }
      if active < lim.maximum {
        active := active + 1;
        waiting := waiting - 1;
        return Entered;
      }
      if expired {
        rejected := rejected + 1;
        waiting := waiting - 1;
        return Refused;
      }
      out := Queued;
    }

    method Leave(t: Thread, ghost phases: map<Thread, Phase>)
      modifies this`active
      ensures State(Next(lim, old(State(phases)), Release(t)).phases) == Next(lim, old(State(phases)), Release(t))
    {
      active := active - 1;
    }

    method Shut()
      modifies this`closed
      ensures closed
    {
      closed := true;
    }
  }
}
