/**
 What a mutation's reply tells its caller about the local cache.  Only a reply that
 reports a change makes the client bump its generation and empty the cache.
 */
module ClientReplies {
  import opened ClientProtocol

  /** The step runs a mutation to which the server answers that it changed nothing. */
  predicate ZeroReply(c: Client, step: Step) {
    step.Run? && PhaseOf(c, step.t).Locked? && !Effective(PhaseOf(c, step.t).mutation, Current(c))
  }

  /** The step ends a mutation that did not fail. */
  predicate Returns(c: Client, step: Step) {
    step.Bump? || ZeroReply(c, step)
  }

  /** The server state that the caller of a returned mutation has seen: the one it made, or else the one it found. */
  function Witnessed(c: Client, step: Step): nat
    requires Enabled(c, step) && Returns(c, step)
  {
    if step.Bump? then PhaseOf(c, step.t).seen else Latest(c)
  }

  /** The generation of `c` is past `g` only by bumps that saw the server state `a` or a later one. */
  ghost predicate After(c: Client, a: nat, g: nat) {
    && a < |c.history| && g <= c.generation
    && (c.generation > g ==> a <= c.bumped && (c.own.Some? ==> a <= c.floor))
    && (forall t | t in c.phases && c.phases[t].Applied? :: a <= c.phases[t].seen)
  }

  lemma ZeroStarts(c: Client, step: Step)
    requires Inv(c) && Enabled(c, step) && ZeroReply(c, step)
    ensures After(Next(c, step), Latest(c), c.generation)
  {
    var n := Next(c, step);
    assert PhaseOk(c, step.t, PhaseOf(c, step.t));
    forall t | t in n.phases ensures !n.phases[t].Applied? {
      if t != step.t { assert PhaseOk(c, t, c.phases[t]); }
    }
  }

  lemma AfterKeeps(c: Client, step: Step, a: nat, g: nat)
    requires After(c, a, g) && Enabled(c, step)
    ensures After(Next(c, step), a, g)
  {
    var n := Next(c, step);
    forall t | t in n.phases && n.phases[t].Applied? ensures a <= n.phases[t].seen {
      if t in c.phases && n.phases[t] == c.phases[t] { assert a <= c.phases[t].seen; }
    }
    if step.Bump? { assert step.t in c.phases; }
  }

  lemma {:induction false} RunAfter(cs: seq<Client>, steps: seq<Step>, i: nat, n: nat)
    requires IsRun(cs, steps) && i < n <= |steps| && ZeroReply(cs[i], steps[i])
    ensures After(cs[n], Latest(cs[i]), cs[i].generation)
    decreases n
  {
    if n == i + 1 {
      RunInv(cs, steps, i);
      ZeroStarts(cs[i], steps[i]);
    } else {
      RunAfter(cs, steps, i, n - 1);
      AfterKeeps(cs[n - 1], steps[n - 1], Latest(cs[i]), cs[i].generation);
    }
  }

  /** A mutation answered with zero leaves the local cache and its generation alone. */
  lemma ZeroReplyClearsNothing(c: Client, step: Step)
    requires Enabled(c, step) && ZeroReply(c, step)
    ensures Next(c, step).l1 == c.l1 && Next(c, step).generation == c.generation && Next(c, step).history == c.history
  {
  }

  /**
   After a mutation has returned, at step `i`, a local hit shows a value the server held
   in the state its caller has seen or later, if the reply reported a change or the
   generation has moved since.
   */
  lemma HitsAfterReply(cs: seq<Client>, steps: seq<Step>, i: nat, n: nat, k: Key)
    requires IsRun(cs, steps) && i < n <= |steps| && Returns(cs[i], steps[i]) && k in cs[n].l1
    requires !ZeroReply(cs[i], steps[i]) || cs[n].generation != cs[i].generation
    ensures cs[n].l1[k].seen >= Witnessed(cs[i], steps[i])
    ensures Held(cs[n].history, cs[n].l1[k].seen, k, cs[n].l1[k].value)
  {
    EntriesAreRecent(cs, steps, n, k);
    if ZeroReply(cs[i], steps[i]) {
      RunAfter(cs, steps, i, n);
    } else {
      NoHitBeforeMutation(cs, steps, i, n, k);
    }
  }

  /** The client has the value `e` in its cache, or a thread has it and may still admit it. */
  predicate Pending(c: Client, k: Key, e: Entry) {
    || (k in c.l1 && c.l1[k] == e)
    || exists t | t in c.phases ::
         && (c.phases[t].Holding? || c.phases[t].Admitting?) && c.phases[t].gen == c.generation
         && c.phases[t].key == k && Entry(c.phases[t].value, c.phases[t].seen) == e
  }

  lemma PendingWasPending(c: Client, step: Step, k: Key, e: Entry)
    requires Inv(c) && Enabled(c, step) && Pending(Next(c, step), k, e)
    requires Next(c, step).generation == c.generation
    ensures Pending(c, k, e) || e.seen >= Latest(c)
  {
    var n := Next(c, step);
    if k in n.l1 && n.l1[k] == e {
      if !(k in c.l1 && c.l1[k] == e) {
        assert step.Admit? || step.AdmitOwn?;
        assert step.t in c.phases;
      }
    } else {
      var t :| t in n.phases
        && (n.phases[t].Holding? || n.phases[t].Admitting?) && n.phases[t].gen == n.generation
        && n.phases[t].key == k && Entry(n.phases[t].value, n.phases[t].seen) == e;
      if t in c.phases && n.phases[t] == c.phases[t] {
        assert Pending(c, k, e);
      }
    }
  }

  lemma LatestGrows(c: Client, step: Step)
    requires Enabled(c, step)
    ensures Latest(Next(c, step)) >= Latest(c)
  {
  }

  lemma GenerationGrows(c: Client, step: Step)
    requires Enabled(c, step)
    ensures Next(c, step).generation >= c.generation
  {
  }

  lemma {:induction false} GenerationStays(cs: seq<Client>, steps: seq<Step>, i: nat, n: nat)
    requires IsRun(cs, steps) && i <= n <= |steps|
    ensures cs[n].generation >= cs[i].generation && Latest(cs[n]) >= Latest(cs[i])
    decreases n
  {
    if i < n {
      GenerationStays(cs, steps, i, n - 1);
      GenerationGrows(cs[n - 1], steps[n - 1]);
      LatestGrows(cs[n - 1], steps[n - 1]);
    }
  }

  /** `d` is still in the generation of `c`, whose server state is past the one `e` was read from. */
  predicate Older(c: Client, d: Client, e: Entry) {
    d.generation == c.generation && e.seen < Latest(c) <= Latest(d)
  }

  lemma StepBack(cs: seq<Client>, steps: seq<Step>, i: nat, n: nat, k: Key, e: Entry)
    requires IsRun(cs, steps) && i <= n < |steps| && Pending(cs[n + 1], k, e) && Older(cs[i], cs[n + 1], e)
    ensures Pending(cs[n], k, e) && Older(cs[i], cs[n], e)
  {
    GenerationStays(cs, steps, i, n);
    GenerationStays(cs, steps, n, n + 1);
    RunInv(cs, steps, n);
    var c, step := cs[n], steps[n];
    assert Enabled(c, step) && cs[n + 1] == Next(c, step);
    PendingWasPending(c, step, k, e);
  }

  lemma {:induction false} PendingBack(cs: seq<Client>, steps: seq<Step>, i: nat, n: nat, k: Key, e: Entry)
    requires IsRun(cs, steps) && i <= n <= |steps| && Pending(cs[n], k, e) && Older(cs[i], cs[n], e)
    ensures Pending(cs[i], k, e)
    decreases n
  {
    if i < n {
      StepBack(cs, steps, i, n - 1, k, e);
      PendingBack(cs, steps, i, n - 1, k, e);
    }
  }

  /** What an older hit after a zero reply can be: no bump has come since, and the client had the value already. */
  lemma OlderHitsAfterZero(cs: seq<Client>, steps: seq<Step>, i: nat, n: nat, k: Key)
    requires IsRun(cs, steps) && i < n <= |steps| && ZeroReply(cs[i], steps[i]) && k in cs[n].l1
    requires cs[n].l1[k].seen < Latest(cs[i])
    ensures cs[n].generation == cs[i].generation && Pending(cs[i], k, cs[n].l1[k])
  {
    if cs[n].generation != cs[i].generation {
      HitsAfterReply(cs, steps, i, n, k);
      assert false;
    }
    GenerationStays(cs, steps, i, n);
    PendingBack(cs, steps, i, n, k, cs[n].l1[k]);
  }

  lemma PendingSurvives(c: Client, step: Step, k: Key, e: Entry)
    requires Enabled(c, step) && ZeroReply(c, step) && Pending(c, k, e)
    ensures Pending(Next(c, step), k, e)
  {
    var n := Next(c, step);
    if !(k in c.l1 && c.l1[k] == e) {
      var t :| t in c.phases
        && (c.phases[t].Holding? || c.phases[t].Admitting?) && c.phases[t].gen == c.generation
        && c.phases[t].key == k && Entry(c.phases[t].value, c.phases[t].seen) == e;
      assert n.phases[t] == c.phases[t];
    }
  }

  /** Some step, or none, turns a pending value into a hit. */
  lemma PendingIsOneStepOff(c: Client, k: Key, e: Entry) returns (step: Option<Step>)
    requires Pending(c, k, e)
    ensures step.None? ==> k in c.l1 && c.l1[k] == e
    ensures step.Some? ==> Enabled(c, step.value) && k in Next(c, step.value).l1 && Next(c, step.value).l1[k] == e
  {
    if k in c.l1 && c.l1[k] == e { return None; }
    var t :| t in c.phases
      && (c.phases[t].Holding? || c.phases[t].Admitting?) && c.phases[t].gen == c.generation
      && c.phases[t].key == k && Entry(c.phases[t].value, c.phases[t].seen) == e;
    step := Some(if c.phases[t].Holding? then Admit(t, true) else AdmitOwn(t, true));
  }

  /** And each value the client had can be such a hit: some continuation of the run ends with it in the cache. */
  lemma PendingCanBeHit(cs: seq<Client>, steps: seq<Step>, k: Key, e: Entry) returns (ds: seq<Client>, ms: seq<Step>)
    requires IsRun(cs, steps) && steps != []
    requires ZeroReply(cs[|steps| - 1], steps[|steps| - 1]) && Pending(cs[|steps| - 1], k, e)
    ensures IsRun(ds, ms) && cs <= ds && steps <= ms
    ensures k in ds[|ms|].l1 && ds[|ms|].l1[k] == e
  {
    PendingSurvives(cs[|steps| - 1], steps[|steps| - 1], k, e);
    var c := cs[|steps|];
    var step := PendingIsOneStepOff(c, k, e);
    ds, ms := cs, steps;
    if step.Some? {
      Extend(cs, steps, step.value);
      ds, ms := cs + [Next(c, step.value)], steps + [step.value];
    }
  }

  lemma Extend(cs: seq<Client>, steps: seq<Step>, step: Step)
    requires IsRun(cs, steps) && Enabled(cs[|steps|], step)
    ensures IsRun(cs + [Next(cs[|steps|], step)], steps + [step])
  {
  }

  /** Thread 0 reads the value of "k" ... */
  lemma ReadOnce() returns (cs: seq<Client>, steps: seq<Step>)
    ensures IsRun(cs, steps) && |steps| == 2
    ensures cs[2] == Client([map["k" := "v"]], map[], 0, map[0 := Holding("k", 0, "v", 0)], None, 0, 0, None)
  {
    cs, steps := [Client([map["k" := "v"]], map[], 0, map[], None, 0, 0, None)], [];
    Extend(cs, steps, Sample(0, "k"));
    var c1 := Next(cs[0], Sample(0, "k"));
    cs, steps := cs + [c1], steps + [Sample(0, "k")];
    Extend(cs, steps, AnswerValue(0));
    cs, steps := cs + [Next(c1, AnswerValue(0))], steps + [AnswerValue(0)];
  }

  /** ... into the local cache, and another client removes it. */
  lemma ReadThenRemoved() returns (cs: seq<Client>, steps: seq<Step>)
    ensures IsRun(cs, steps) && |steps| == 4
    ensures cs[4] == Client([map["k" := "v"], map[]], map["k" := Entry("v", 0)], 0, map[0 := Idle], None, 0, 0, None)
  {
    cs, steps := ReadOnce();
    Extend(cs, steps, Admit(0, true));
    var c3 := Next(cs[2], Admit(0, true));
    cs, steps := cs + [c3], steps + [Admit(0, true)];
    Extend(cs, steps, External(map[]));
    cs, steps := cs + [Next(c3, External(map[]))], steps + [External(map[])];
  }

  /**
   The condition can fail: in a reached state the removal of "k" has just been answered
   with zero, because another client removed it first, and "k" is still in the local cache.
   */
  lemma RemovedKeyStaysCached() returns (cs: seq<Client>, steps: seq<Step>)
    ensures IsRun(cs, steps) && |steps| == 6
    ensures steps[4] == Lock(0, Remove({"k"})) && steps[5] == Run(0) && ZeroReply(cs[5], steps[5])
    ensures "k" !in Current(cs[6]) && "k" in cs[6].l1 && cs[6].l1["k"].seen < Witnessed(cs[5], steps[5])
  {
    cs, steps := ReadThenRemoved();
    var c4 := cs[4];
    Extend(cs, steps, Lock(0, Remove({"k"})));
    var c5 := Next(c4, Lock(0, Remove({"k"})));
    cs, steps := cs + [c5], steps + [Lock(0, Remove({"k"}))];
    Extend(cs, steps, Run(0));
    cs, steps := cs + [Next(c5, Run(0))], steps + [Run(0)];
  }
}
