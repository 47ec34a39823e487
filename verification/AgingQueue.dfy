/** The refresh queue: priorities, promotion of overdue jobs, and shutdown sentinels first. */
module AgingQueues {

  datatype Option<+T> = None | Some(value: T)

  /** A queued job, or a shutdown sentinel when `job` is `None`. */
  datatype Item = Item(priority: int, sequence: nat, enqueued: int, job: Option<string>)

  predicate Precedes(a: Item, b: Item) {
    a.priority < b.priority || (a.priority == b.priority && a.sequence <= b.sequence)
  }

  predicate Overdue(promotion: int, x: Item, now: int) {
    now - x.enqueued >= promotion
  }

  /** Which item a dequeue may return: a sentinel, else the overdue job queued first, else the least. */
  ghost predicate Chosen(promotion: int, q: set<Item>, now: int, x: Item) {
    && x in q
    && (if exists s :: s in q && s.job.None? then x.job.None?
        else if exists o :: o in q && Overdue(promotion, o, now) then
          Overdue(promotion, x, now) && forall o | o in q && Overdue(promotion, o, now) :: x.sequence <= o.sequence
        else forall y | y in q :: Precedes(x, y))
  }

  ghost predicate DistinctSequences(q: set<Item>) {
    forall x, y | x in q && y in q && x.sequence == y.sequence :: x == y
  }

  // ----- Runs -----

  datatype Queue = Queue(items: set<Item>, last: nat)

  datatype Step = Put(item: Item) | Get(now: int, item: Item)

  /** A put takes a later sequence number; numbers of puts that were shed are missing. */
  ghost predicate Enabled(promotion: int, q: Queue, step: Step) {
    match step
    case Put(x) => x.sequence > q.last
    case Get(now, x) => Chosen(promotion, q.items, now, x)
  }

  ghost function Next(q: Queue, step: Step): Queue {
    match step
    case Put(x) => Queue(q.items + {x}, x.sequence)
    case Get(_, x) => Queue(q.items - {x}, q.last)
  }

  ghost predicate Valid(q: Queue) {
    DistinctSequences(q.items) && forall x | x in q.items :: x.sequence <= q.last
  }

  lemma NextValid(promotion: int, q: Queue, step: Step)
    requires Valid(q) && Enabled(promotion, q, step)
    ensures Valid(Next(q, step))
  {
  }

  /** The sentinels, and the jobs queued before `j`. */
  ghost function Ahead(q: set<Item>, j: Item): set<Item> {
    set x | x in q && (x.job.None? || x.sequence < j.sequence)
  }

  /** While an overdue job waits, every dequeue takes something ahead of it. */
  lemma OverdueAdvances(promotion: int, q: Queue, now: int, x: Item, j: Item)
    requires Valid(q) && Chosen(promotion, q.items, now, x)
    requires j in q.items && j.job.Some? && Overdue(promotion, j, now) && x != j
    ensures x in Ahead(q.items, j) && |Ahead(q.items - {x}, j)| == |Ahead(q.items, j)| - 1
  {
    assert Ahead(q.items - {x}, j) == Ahead(q.items, j) - {x};
  }

  lemma PutBehind(q: Queue, x: Item, j: Item)
    requires Valid(q) && j in q.items && x.sequence > q.last
    ensures |Ahead(q.items + {x}, j)| <= |Ahead(q.items, j)| + if x.job.None? then 1 else 0
  {
    if x.job.None? {
      assert Ahead(q.items + {x}, j) == Ahead(q.items, j) + {x};
    } else {
      assert Ahead(q.items + {x}, j) == Ahead(q.items, j);
    }
  }

  ghost predicate IsRun(promotion: int, qs: seq<Queue>, steps: seq<Step>) {
    && |qs| == |steps| + 1 && qs[0] == Queue({}, 0)
    && forall i | 0 <= i < |steps| :: Enabled(promotion, qs[i], steps[i]) && qs[i + 1] == Next(qs[i], steps[i])
  }

  function Gets(steps: seq<Step>, from: nat, to: nat): nat
    requires from <= to <= |steps|
  {
    if from == to then 0 else Gets(steps, from, to - 1) + if steps[to - 1].Get? then 1 else 0
  }

  function Sentinels(steps: seq<Step>, from: nat, to: nat): nat
    requires from <= to <= |steps|
  {
    if from == to then 0
    else Sentinels(steps, from, to - 1) + if steps[to - 1].Put? && steps[to - 1].item.job.None? then 1 else 0
  }

  lemma {:induction false} RunValid(promotion: int, qs: seq<Queue>, steps: seq<Step>, n: nat)
    requires IsRun(promotion, qs, steps) && n <= |steps|
    ensures Valid(qs[n])
  {
    if n > 0 {
      RunValid(promotion, qs, steps, n - 1);
      NextValid(promotion, qs[n - 1], steps[n - 1]);
    }
  }

  /** Every dequeue from step `a` on reads the clock at `since` or later. */
  ghost predicate ClockFrom(steps: seq<Step>, a: nat, since: int) {
    forall i | a <= i < |steps| && steps[i].Get? :: steps[i].now >= since
  }

  /** A job still queued at `n` was queued at every point since `a`. */
  lemma StillQueued(promotion: int, qs: seq<Queue>, steps: seq<Step>, n: nat, j: Item)
    requires IsRun(promotion, qs, steps) && 0 < n <= |steps| && j in qs[n].items && j.sequence <= qs[n - 1].last
    ensures j in qs[n - 1].items && (steps[n - 1].Get? ==> steps[n - 1].item != j)
  {
  }

  lemma {:induction false} LastGrows(promotion: int, qs: seq<Queue>, steps: seq<Step>, a: nat, n: nat)
    requires IsRun(promotion, qs, steps) && a <= n <= |steps|
    ensures qs[a].last <= qs[n].last
    decreases n
  {
    if a < n { LastGrows(promotion, qs, steps, a, n - 1); }
  }

  /**
   No starvation: once a job is overdue (at `since`), it is served after at most as many dequeues as
   there are earlier jobs and sentinels queued, whatever priorities arrive later.
   */
  lemma {:induction false} NoStarvation(promotion: int, qs: seq<Queue>, steps: seq<Step>, a: nat, n: nat, j: Item, since: int)
    requires IsRun(promotion, qs, steps) && a <= n <= |steps| && j in qs[a].items && j.job.Some? && j in qs[n].items
    requires Overdue(promotion, j, since) && ClockFrom(steps, a, since)
    ensures Gets(steps, a, n) + |Ahead(qs[n].items, j)| <= |Ahead(qs[a].items, j)| + Sentinels(steps, a, n)
    decreases n
  {
    if a < n {
      RunValid(promotion, qs, steps, a);
      RunValid(promotion, qs, steps, n - 1);
      LastGrows(promotion, qs, steps, a, n - 1);
      StillQueued(promotion, qs, steps, n, j);
      NoStarvation(promotion, qs, steps, a, n - 1, j, since);
      var step := steps[n - 1];
      if step.Get? {
        OverdueAdvances(promotion, qs[n - 1], step.now, step.item, j);
      } else {
        PutBehind(qs[n - 1], step.item, j);
      }
    }
  }

  // ----- The queue itself -----

  /** The list of a priority queue: the least item comes first. */
  class AgingPriorityQueue {
    const promotion: int
    var items: seq<Item>

    ghost predicate Heaped()
      reads this
    {
      forall i | 0 <= i < |items| :: Precedes(items[0], items[i])
    }

    constructor (promotion: int)
      ensures this.promotion == promotion && items == [] && Heaped()
    {
      this.promotion, items := promotion, [];
    }

    /** Rearrange so that the least item comes first. */
    method Heapify()
      modifies this
      ensures Heaped() && multiset(items) == multiset(old(items))
    {
      if items == [] {
        return;
      }
      var least, i := 0, 1;
      while i < |items|
        invariant least < |items| && 1 <= i <= |items|
        invariant forall j | 0 <= j < i :: Precedes(items[least], items[j])
        invariant items == old(items)
      {
        if !Precedes(items[least], items[i]) {
          least := i;
        }
        i := i + 1;
      }
      Swapped(items, least);
      items := items[least := items[0]][0 := items[least]];
    }

    static lemma Swapped(s: seq<Item>, k: nat)
      requires k < |s|
      ensures multiset(s[k := s[0]][0 := s[k]]) == multiset(s)
    {
    }

    method Push(x: Item)
      modifies this
      ensures Heaped() && multiset(items) == multiset(old(items)) + multiset{x}
    {
      items := items + [x];
      Heapify();
    }

    method Remove(k: nat) returns (x: Item)
      requires k < |items|
      modifies this
      ensures x == old(items)[k] && Heaped() && multiset(items) == multiset(old(items)) - multiset{x}
    {
      x := items[k];
      assert items == items[..k] + [x] + items[k + 1..];
      items := items[..k] + items[k + 1..];
      Heapify();
    }

    method FindSentinel() returns (k: nat)
      ensures k <= |items| && (k < |items| ==> items[k].job.None?)
      ensures k == |items| ==> forall i | 0 <= i < |items| :: items[i].job.Some?
    {
      k := 0;
      while k < |items| && items[k].job.Some?
        invariant k <= |items| && forall i | 0 <= i < k :: items[i].job.Some?
      {
        k := k + 1;
      }
    }

    /** The overdue item with the least sequence number. */
    method FindOverdue(now: int) returns (k: nat)
      ensures k <= |items|
      ensures k < |items| ==> Overdue(promotion, items[k], now)
      ensures forall i | 0 <= i < |items| && Overdue(promotion, items[i], now) ::
        k < |items| && items[k].sequence <= items[i].sequence
    {
      k := |items|;
      var i := 0;
      while i < |items|
        invariant i <= |items| && (k == |items| || k < i)
        invariant k < |items| ==> Overdue(promotion, items[k], now)
        invariant forall j | 0 <= j < i && Overdue(promotion, items[j], now) ::
          k < |items| && items[k].sequence <= items[j].sequence
      {
        if Overdue(promotion, items[i], now) && (k == |items| || items[i].sequence < items[k].sequence) {
          k := i;
        }
        i := i + 1;
      }
    }

    /** Dequeue: the chosen item leaves, and every other item stays. */
    method Pop(now: int) returns (x: Item)
      requires Heaped() && items != []
      modifies this
      ensures Heaped() && multiset(items) == multiset(old(items)) - multiset{x}
      ensures Chosen(promotion, (set y | y in old(items)), now, x)
    {
      ghost var q := set y | y in items;
      var k := FindSentinel();
      if k == |items| {
        NoSentinel(items, q);
        k := FindOverdue(now);
        if k == |items| {
          NoneOverdue(promotion, items, q, now);
          k := 0;
          LeastChosen(promotion, items, q, now);
        } else {
          OverdueChosen(promotion, items, q, now, k);
        }
      } else {
        assert items[k] in q;
      }
      x := Remove(k);
    }
  }

  lemma NoSentinel(items: seq<Item>, q: set<Item>)
    requires q == (set y | y in items) && forall i | 0 <= i < |items| :: items[i].job.Some?
    ensures forall s | s in q :: s.job.Some?
  {
  }

  lemma NoneOverdue(promotion: int, items: seq<Item>, q: set<Item>, now: int)
    requires q == (set y | y in items) && forall i | 0 <= i < |items| :: !Overdue(promotion, items[i], now)
    ensures forall o | o in q :: !Overdue(promotion, o, now)
  {
  }

  lemma LeastChosen(promotion: int, items: seq<Item>, q: set<Item>, now: int)
    requires q == (set y | y in items) && items != [] && forall i | 0 <= i < |items| :: Precedes(items[0], items[i])
    requires (forall s | s in q :: s.job.Some?) && forall o | o in q :: !Overdue(promotion, o, now)
    ensures Chosen(promotion, q, now, items[0])
  {
  }

  lemma OverdueChosen(promotion: int, items: seq<Item>, q: set<Item>, now: int, k: nat)
    requires q == (set y | y in items) && k < |items| && Overdue(promotion, items[k], now)
    requires forall s | s in q :: s.job.Some?
    requires forall i | 0 <= i < |items| && Overdue(promotion, items[i], now) :: items[k].sequence <= items[i].sequence
    ensures Chosen(promotion, q, now, items[k])
  {
    assert items[k] in q;
  }
}
