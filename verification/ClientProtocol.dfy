/**
 The client's local cache under concurrent threads: lease reads, mutations, polls and
 admissions guarded by a generation counter, against a server whose values any other
 client may change at any time.
 */
module ClientProtocol {

  type Key = string
  type Value = string
  type Thread = nat
  type Server = map<Key, Value>

  datatype Option<+T> = None | Some(value: T)

  datatype Mutation =
    | Write(values: Server)                  // SET, MSET, MC.SET
    | Load(key: Key, value: Value)           // the write that ends a granted lease
    | Remove(keys: set<Key>)                 // DEL, MC.INVALIDATE
    | Expire(key: Key)                       // EXPIRE: the value stays

  /** What a thread is doing; `seen` is the number of a server state. */
  datatype Phase =
    | Idle
    | Reading(key: Key, gen: nat)                            // generation sampled, lease not answered
    | Holding(key: Key, gen: nat, value: Value, seen: nat)   // lease answered with a value
    | Granted(key: Key, value: Value)                        // lease granted, loader done
    | Locked(mutation: Mutation)                             // mutation lock held, command not run
    | Applied(mutation: Mutation, seen: nat)                 // command run, generation not bumped
    | Admitting(key: Key, gen: nat, value: Value, seen: nat) // own write, to be admitted

  datatype Entry = Entry(value: Value, seen: nat)

  /**
   `history` lists the server's states, the last being current.  `bumped` is the
   server state at the latest generation bump, `floor` the state made by the latest
   mutation that bumped, and `own` that mutation if it made the latest bump.
   */
  datatype Client = Client(history: seq<Server>, l1: map<Key, Entry>, generation: nat, phases: map<Thread, Phase>,
                           lock: Option<Thread>, bumped: nat, floor: nat, own: Option<Mutation>)

  datatype Step =
    | Sample(t: Thread, key: Key)
    | AnswerValue(t: Thread)
    | AnswerWait(t: Thread)
    | AnswerGrant(t: Thread, value: Value)
    | Admit(t: Thread, stored: bool)
    | Lock(t: Thread, mutation: Mutation)
    | LockLoad(t: Thread)
    | Run(t: Thread)
    | RunFails(t: Thread, applied: bool)
    | Bump(t: Thread)
    | AdmitOwn(t: Thread, stored: bool)
    | Poll
    | External(server: Server)
    | Forget(key: Key)

  function PhaseOf(c: Client, t: Thread): Phase {
    if t in c.phases then c.phases[t] else Idle
  }

  /** The number of the server's current state. */
  function Latest(c: Client): nat {
    if c.history == [] then 0 else |c.history| - 1
  }

  function Current(c: Client): Server {
    if c.history == [] then map[] else c.history[|c.history| - 1]
  }

  function Effect(m: Mutation, s: Server): Server {
    match m
    case Write(values) => s + values
    case Load(k, v) => s[k := v]
    case Remove(keys) => s - keys
    case Expire(k) => s
  }

  /** Whether the reply tells the client that something changed. */
  predicate Effective(m: Mutation, s: Server) {
    match m
    case Write(_) => true
    case Load(_, _) => true
    case Remove(keys) => keys * s.Keys != {}
    case Expire(k) => k in s
  }

  predicate Enabled(c: Client, step: Step) {
    match step
    case Sample(t, _) => PhaseOf(c, t).Idle?
    case AnswerValue(t) => PhaseOf(c, t).Reading? && PhaseOf(c, t).key in Current(c)
    case AnswerWait(t) => PhaseOf(c, t).Reading?
    case AnswerGrant(t, _) => PhaseOf(c, t).Reading?
    case Admit(t, _) => PhaseOf(c, t).Holding?
    case Lock(t, _) => PhaseOf(c, t).Idle? && c.lock.None?
    case LockLoad(t) => PhaseOf(c, t).Granted? && c.lock.None?
    case Run(t) => PhaseOf(c, t).Locked?
    case RunFails(t, _) => PhaseOf(c, t).Locked?
    case Bump(t) => PhaseOf(c, t).Applied?
    case AdmitOwn(t, _) => PhaseOf(c, t).Admitting?
    case Poll => true
    case External(_) => true
    case Forget(_) => true
  }

  function Goto(c: Client, t: Thread, p: Phase): Client {
    c.(phases := c.phases[t := p])
  }

  /** `_mutation_succeeded`: one more generation, and an empty local cache. */
  function Bumped(c: Client): Client {
    c.(generation := c.generation + 1, l1 := map[], bumped := Latest(c), own := None)
  }

  /** `_admit_if_generation`; `stored` is false when the value does not fit the local cache. */
  function Admitted(c: Client, gen: nat, key: Key, e: Entry, stored: bool): Client {
    if gen != c.generation || !stored then c else c.(l1 := c.l1[key := e])
  }

  function Next(c: Client, step: Step): Client
    requires Enabled(c, step)
  {
    match step
    case Sample(t, k) => Goto(c, t, Reading(k, c.generation))
    case AnswerValue(t) =>
      var p := PhaseOf(c, t);
      Goto(c, t, Holding(p.key, p.gen, Current(c)[p.key], Latest(c)))
    case AnswerWait(t) => Goto(c, t, Idle)
    case AnswerGrant(t, v) => Goto(c, t, Granted(PhaseOf(c, t).key, v))
    case Admit(t, stored) =>
      var p := PhaseOf(c, t);
      Goto(Admitted(c, p.gen, p.key, Entry(p.value, p.seen), stored), t, Idle)
    case Lock(t, m) => Goto(c, t, Locked(m)).(lock := Some(t))
    case LockLoad(t) => Goto(c, t, Locked(Load(PhaseOf(c, t).key, PhaseOf(c, t).value))).(lock := Some(t))
    case Run(t) =>
      var m := PhaseOf(c, t).mutation;
      if Effective(m, Current(c))
      then Goto(c, t, Applied(m, |c.history|)).(history := c.history + [Effect(m, Current(c))])
      else Goto(c, t, Idle).(lock := None)
    case RunFails(t, applied) =>
      Goto(c, t, Idle).(lock := None,
                        history := if applied then c.history + [Effect(PhaseOf(c, t).mutation, Current(c))] else c.history)
    case Bump(t) =>
      var p := PhaseOf(c, t);
      var b := Bumped(c).(floor := p.seen, own := Some(p.mutation), lock := None);
      Goto(b, t, if p.mutation.Load? then Admitting(p.mutation.key, b.generation, p.mutation.value, p.seen) else Idle)
    case AdmitOwn(t, stored) =>
      var p := PhaseOf(c, t);
      Goto(Admitted(c, p.gen, p.key, Entry(p.value, p.seen), stored), t, Idle)
    case Poll => Bumped(c)
    case External(s) => c.(history := c.history + [s])
    case Forget(k) => c.(l1 := c.l1 - {k})
  }

  // ----- The invariant -----

  /** The server held `v` under `k` in its state number `n`. */
  ghost predicate Held(history: seq<Server>, n: nat, k: Key, v: Value) {
    n < |history| && k in history[n] && history[n][k] == v
  }

  /** The mutation `m` made the server's state number `n`. */
  ghost predicate MadeBy(history: seq<Server>, n: nat, m: Mutation) {
    0 < n < |history| && history[n] == Effect(m, history[n - 1])
  }

  /** Read since the latest bump, or the very value that the mutation which made it wrote under the key. */
  ghost predicate Recent(c: Client, k: Key, v: Value, seen: nat) {
    seen >= c.bumped || (c.own == Some(Load(k, v)) && seen == c.floor)
  }

  ghost predicate EntryOk(c: Client, k: Key, e: Entry) {
    Held(c.history, e.seen, k, e.value) && Recent(c, k, e.value, e.seen)
  }

  ghost predicate PhaseOk(c: Client, t: Thread, p: Phase) {
    match p
    case Idle => true
    case Reading(_, gen) => gen <= c.generation
    case Holding(k, gen, v, seen) =>
      gen <= c.generation && Held(c.history, seen, k, v) && (gen == c.generation ==> Recent(c, k, v, seen))
    case Granted(_, _) => true
    case Locked(_) => c.lock == Some(t)
    case Applied(m, seen) =>
      c.lock == Some(t) && c.floor <= seen && MadeBy(c.history, seen, m)
    case Admitting(k, gen, v, seen) =>
      gen <= c.generation && Held(c.history, seen, k, v) && (gen == c.generation ==> Recent(c, k, v, seen))
  }

  ghost predicate Inv(c: Client) {
    && c.floor <= c.bumped < |c.history|
    && (forall k | k in c.l1 :: EntryOk(c, k, c.l1[k]))
    && (forall t | t in c.phases :: PhaseOk(c, t, c.phases[t]))
  }

  /** The history only grows. */
  lemma NextGrows(c: Client, step: Step)
    requires Enabled(c, step)
    ensures c.history <= Next(c, step).history
  {
  }

  lemma GotoKeeps(c: Client, t: Thread, p: Phase)
    requires Inv(c) && PhaseOk(c, t, p)
    ensures Inv(Goto(c, t, p))
  {
    var r := Goto(c, t, p);
    forall u | u in r.phases ensures PhaseOk(r, u, r.phases[u]) {
      assert PhaseOk(c, u, r.phases[u]);
    }
    forall k | k in r.l1 ensures EntryOk(r, k, r.l1[k]) {
      assert EntryOk(c, k, c.l1[k]);
    }
  }

  /** More server history disturbs nothing. */
  lemma GrowKeeps(c: Client, s: Server)
    requires Inv(c)
    ensures Inv(c.(history := c.history + [s]))
  {
    var r := c.(history := c.history + [s]);
    forall u | u in r.phases ensures PhaseOk(r, u, r.phases[u]) {
      assert PhaseOk(c, u, c.phases[u]);
    }
    forall k | k in r.l1 ensures EntryOk(r, k, r.l1[k]) {
      assert EntryOk(c, k, c.l1[k]);
    }
  }

  /** Giving the lock up, by the thread that has it, once it has left its critical phases. */
  lemma UnlockKeeps(c: Client, t: Thread)
    requires Inv(c) && (c.lock.None? || c.lock == Some(t)) && !PhaseOf(c, t).Locked? && !PhaseOf(c, t).Applied?
    ensures Inv(c.(lock := None))
  {
    var r := c.(lock := None);
    forall u | u in r.phases ensures PhaseOk(r, u, r.phases[u]) {
      assert PhaseOk(c, u, c.phases[u]);
    }
    forall k | k in r.l1 ensures EntryOk(r, k, r.l1[k]) {
      assert EntryOk(c, k, c.l1[k]);
    }
  }

  lemma LockKeeps(c: Client, t: Thread)
    requires Inv(c) && c.lock.None?
    ensures Inv(c.(lock := Some(t)))
  {
    var r := c.(lock := Some(t));
    forall u | u in r.phases ensures PhaseOk(r, u, r.phases[u]) {
      assert PhaseOk(c, u, c.phases[u]);
    }
    forall k | k in r.l1 ensures EntryOk(r, k, r.l1[k]) {
      assert EntryOk(c, k, c.l1[k]);
    }
  }

  lemma AdmitKeeps(c: Client, gen: nat, key: Key, e: Entry, stored: bool)
    requires Inv(c) && (gen == c.generation ==> EntryOk(c, key, e))
    ensures Inv(Admitted(c, gen, key, e, stored))
  {
    var r := Admitted(c, gen, key, e, stored);
    forall u | u in r.phases ensures PhaseOk(r, u, r.phases[u]) {
      assert PhaseOk(c, u, c.phases[u]);
    }
    forall k | k in r.l1 ensures EntryOk(r, k, r.l1[k]) {
      if k in c.l1 { assert EntryOk(c, k, c.l1[k]); }
    }
  }

  /** A bump makes every earlier sampled generation useless. */
  lemma BumpStepKeeps(c: Client, t: Thread)
    requires Inv(c) && PhaseOf(c, t).Applied?
    ensures Inv(Next(c, Bump(t)))
  {
    var p := PhaseOf(c, t);
    assert PhaseOk(c, t, p);
    var r := Next(c, Bump(t));
    forall u | u in r.phases ensures PhaseOk(r, u, r.phases[u]) {
      if u != t { assert PhaseOk(c, u, c.phases[u]); }
    }
  }

  lemma RunKeeps(c: Client, t: Thread)
    requires Inv(c) && PhaseOf(c, t).Locked?
    ensures Inv(Next(c, Run(t)))
  {
    var p := PhaseOf(c, t);
    assert PhaseOk(c, t, p);
    var m := p.mutation;
    if Effective(m, Current(c)) {
      var h := c.(history := c.history + [Effect(m, Current(c))]);
      GrowKeeps(c, Effect(m, Current(c)));
      GotoKeeps(h, t, Applied(m, |c.history|));
    } else {
      GotoKeeps(c, t, Idle);
      UnlockKeeps(Goto(c, t, Idle), t);
    }
  }

  lemma FailKeeps(c: Client, t: Thread, applied: bool)
    requires Inv(c) && PhaseOf(c, t).Locked?
    ensures Inv(Next(c, RunFails(t, applied)))
  {
    var p := PhaseOf(c, t);
    assert PhaseOk(c, t, p);
    GotoKeeps(c, t, Idle);
    var i := Goto(c, t, Idle);
    UnlockKeeps(i, t);
    if applied { GrowKeeps(i.(lock := None), Effect(p.mutation, Current(c))); }
  }

  lemma ReadKeeps(c: Client, step: Step)
    requires Inv(c) && Enabled(c, step)
    requires step.Sample? || step.AnswerValue? || step.AnswerWait? || step.AnswerGrant? || step.Admit? || step.AdmitOwn?
    ensures Inv(Next(c, step))
  {
    var p := PhaseOf(c, step.t);
    assert PhaseOk(c, step.t, p);
    if step.Sample? {
      GotoKeeps(c, step.t, Reading(step.key, c.generation));
    } else if step.AnswerValue? {
      GotoKeeps(c, step.t, Holding(p.key, p.gen, Current(c)[p.key], Latest(c)));
    } else if step.AnswerWait? {
      GotoKeeps(c, step.t, Idle);
    } else if step.AnswerGrant? {
      GotoKeeps(c, step.t, Granted(p.key, step.value));
    } else {
      AdmitKeeps(c, p.gen, p.key, Entry(p.value, p.seen), step.stored);
      GotoKeeps(Admitted(c, p.gen, p.key, Entry(p.value, p.seen), step.stored), step.t, Idle);
    }
  }

  lemma LockStepKeeps(c: Client, t: Thread, m: Mutation)
    requires Inv(c) && c.lock.None?
    ensures Inv(Goto(c, t, Locked(m)).(lock := Some(t)))
  {
    LockKeeps(c, t);
    GotoKeeps(c.(lock := Some(t)), t, Locked(m));
  }

  lemma PollKeeps(c: Client)
    requires Inv(c)
    ensures Inv(Bumped(c))
  {
    var r := Bumped(c);
    forall u | u in r.phases ensures PhaseOk(r, u, r.phases[u]) {
      assert PhaseOk(c, u, c.phases[u]);
    }
  }

  lemma ForgetKeeps(c: Client, k: Key)
    requires Inv(c)
    ensures Inv(c.(l1 := c.l1 - {k}))
  {
    var r := c.(l1 := c.l1 - {k});
    forall u | u in r.phases ensures PhaseOk(r, u, r.phases[u]) {
      assert PhaseOk(c, u, c.phases[u]);
    }
    forall j | j in r.l1 ensures EntryOk(r, j, r.l1[j]) {
      assert EntryOk(c, j, c.l1[j]);
    }
  }

  lemma NextKeeps(c: Client, step: Step)
    requires Inv(c) && Enabled(c, step)
    ensures Inv(Next(c, step))
  {
    match step
    case Lock(t, m) => LockStepKeeps(c, t, m);
    case LockLoad(t) => LockStepKeeps(c, t, Load(PhaseOf(c, t).key, PhaseOf(c, t).value));
    case Run(t) => RunKeeps(c, t);
    case RunFails(t, applied) => FailKeeps(c, t, applied);
    case Bump(t) => BumpStepKeeps(c, t);
    case Poll => PollKeeps(c);
    case External(s) => GrowKeeps(c, s);
    case Forget(k) => ForgetKeeps(c, k);
    case _ => ReadKeeps(c, step);
  }

  /** What a bumped mutation established never falls back. */
  lemma FloorRises(c: Client, step: Step)
    requires Inv(c) && Enabled(c, step)
    ensures Next(c, step).floor >= c.floor
    ensures step.Bump? ==> Next(c, step).floor == PhaseOf(c, step.t).seen
  {
    if step.Bump? { assert PhaseOk(c, step.t, PhaseOf(c, step.t)); }
  }

  // ----- Runs -----

  ghost predicate IsRun(cs: seq<Client>, steps: seq<Step>) {
    && |cs| == |steps| + 1
    && (exists s :: cs[0] == Client([s], map[], 0, map[], None, 0, 0, None))
    && forall i | 0 <= i < |steps| :: Enabled(cs[i], steps[i]) && cs[i + 1] == Next(cs[i], steps[i])
  }

  lemma {:induction false} RunInv(cs: seq<Client>, steps: seq<Step>, n: nat)
    requires IsRun(cs, steps) && n <= |steps|
    ensures Inv(cs[n])
  {
    if n > 0 {
      RunInv(cs, steps, n - 1);
      NextKeeps(cs[n - 1], steps[n - 1]);
    }
  }

  /**
   At every point of every interleaving, each local entry was read from the server
   after the latest generation bump, or was written by the mutation that made it.
   */
  lemma EntriesAreRecent(cs: seq<Client>, steps: seq<Step>, n: nat, k: Key)
    requires IsRun(cs, steps) && n <= |steps| && k in cs[n].l1
    ensures EntryOk(cs[n], k, cs[n].l1[k])
  {
    RunInv(cs, steps, n);
  }

  lemma {:induction false} FloorStays(cs: seq<Client>, steps: seq<Step>, i: nat, n: nat)
    requires IsRun(cs, steps) && i <= n <= |steps|
    ensures cs[n].floor >= cs[i].floor
    decreases n
  {
    if n > i {
      FloorStays(cs, steps, i, n - 1);
      RunInv(cs, steps, n - 1);
      FloorRises(cs[n - 1], steps[n - 1]);
    }
  }

  lemma {:induction false} HistoryStays(cs: seq<Client>, steps: seq<Step>, i: nat, n: nat)
    requires IsRun(cs, steps) && i <= n <= |steps|
    ensures cs[i].history <= cs[n].history
    decreases n
  {
    if n > i {
      HistoryStays(cs, steps, i, n - 1);
      NextGrows(cs[n - 1], steps[n - 1]);
    }
  }

  /**
   Once a mutation whose reply reported a change has returned (its bump is step `i`), every
   local hit shows a value the server held in the state that mutation made, or later; never
   one from before.
   */
  lemma NoHitBeforeMutation(cs: seq<Client>, steps: seq<Step>, i: nat, n: nat, k: Key)
    requires IsRun(cs, steps) && i < n <= |steps| && steps[i].Bump? && k in cs[n].l1
    ensures var p := PhaseOf(cs[i], steps[i].t);
      && p.Applied? && MadeBy(cs[n].history, p.seen, p.mutation)
      && cs[n].l1[k].seen >= p.seen && Held(cs[n].history, cs[n].l1[k].seen, k, cs[n].l1[k].value)
  {
    RunInv(cs, steps, i);
    assert PhaseOk(cs[i], steps[i].t, PhaseOf(cs[i], steps[i].t));
    HistoryStays(cs, steps, i, n);
    FloorRises(cs[i], steps[i]);
    FloorStays(cs, steps, i + 1, n);
    EntriesAreRecent(cs, steps, n, k);
    RunInv(cs, steps, n);
  }

  /** What a mutation leaves of one key, given the server before it. */
  predicate LeavesKey(m: Mutation, before: Server, after: Server, k: Key) {
    match m
    case Write(values) =>
      if k in values then k in after && after[k] == values[k]
      else (k in after <==> k in before) && (k in after ==> after[k] == before[k])
    case Load(j, v) =>
      if k == j then k in after && after[k] == v
      else (k in after <==> k in before) && (k in after ==> after[k] == before[k])
    case Remove(keys) =>
      if k in keys then k !in after
      else (k in after <==> k in before) && (k in after ==> after[k] == before[k])
    case Expire(_) => after == before
  }

  /**
   Read your own writes: once a mutation has returned, and while the server has not changed
   since, a local hit is the value it wrote, and a key it removed is no local hit.
   */
  lemma ReadYourWrites(cs: seq<Client>, steps: seq<Step>, i: nat, n: nat, k: Key)
    requires IsRun(cs, steps) && i < n <= |steps| && steps[i].Bump? && k in cs[n].l1
    requires PhaseOf(cs[i], steps[i].t).Applied? && |cs[n].history| == PhaseOf(cs[i], steps[i].t).seen + 1
    ensures var p := PhaseOf(cs[i], steps[i].t);
      p.Applied? && 0 < p.seen < |cs[n].history| &&
      var (before, after) := (cs[n].history[p.seen - 1], cs[n].history[p.seen]);
      LeavesKey(p.mutation, before, after, k) && k in after && cs[n].l1[k].value == after[k]
  {
    NoHitBeforeMutation(cs, steps, i, n, k);
  }
}
