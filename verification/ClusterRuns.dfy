/**
 Runs of the replicated store, started empty: quorum reads return the last acknowledged
 write, and no bootstrap from any earlier snapshot brings back an overwritten, deleted
 or flushed record.  Nodes join, leave and fail, and rebalances succeed and fail.
 */
module ClusterRuns {
  import opened HashRing
  import opened ClusterModel
  import opened ClusterInvariant
  import opened ClusterSteps
  import opened ClusterDeletes
  import opened ClusterSnapshots
  import opened ClusterMoves
  import opened ClusterUndo
  import opened ClusterSwitch

  // ----- Flush, eviction, heartbeats -----

  function FlushCommit(t: Cluster): Commit {
    Flushed(Version(t.term, t.sequence, t.leader))
  }

  /** A removed node has no metadata, of any key or of `k`. */
  predicate RetiredEmpty(s: Cluster) {
    forall n | n in s.nodes && s.nodes[n].status.Removed? :: n in s.metadata && s.metadata[n] == map[]
  }

  predicate RetiredWithout(s: Cluster, k: Key) {
    forall n | n in s.nodes && s.nodes[n].status.Removed? :: MetaAt(s, n, k).None?
  }

  lemma RetiredKeys(c: Config, s: Cluster)
    requires WellFormed(c, s)
    ensures RetiredEmpty(s) <==> forall k :: RetiredWithout(s, k)
  {
    if forall k :: RetiredWithout(s, k) {
      forall n | n in s.nodes && s.nodes[n].status.Removed? ensures n in s.metadata && s.metadata[n] == map[] {
        assert n in s.metadata.Keys;
        forall k ensures k !in s.metadata[n] {
          assert RetiredWithout(s, k);
          assert MetaAt(s, n, k).None?;
        }
      }
    }
  }

  /** A flush leaves what removed nodes have, and nothing else. */
  lemma FlushCells(c: Config, s: Cluster, up: set<NodeId>, n: NodeId, k: Key)
    requires WellFormed(c, s) && FlushReachable(s, up).1.Ok?
    ensures var t := FlushReachable(s, up).0;
      if n in s.nodes && s.nodes[n].status.Removed?
      then MetaAt(t, n, k) == MetaAt(s, n, k) && EntryAt(t, n, k) == EntryAt(s, n, k)
      else MetaAt(t, n, k).None? && EntryAt(t, n, k).None?
  {
    if n !in s.nodes { assert n !in s.metadata.Keys && n !in s.stores.Keys; }
  }

  lemma FlushShape(c: Config, s: Cluster, up: set<NodeId>)
    requires WellFormed(c, s) && LeaversAreMembers(s) && FlushReachable(s, up).1.Ok?
    ensures var t := FlushReachable(s, up).0;
      && WellFormed(c, t) && LeaversAreMembers(t)
      && t.term == s.term && t.leader == s.leader && t.ring == s.ring && t.sequence == s.sequence + 1
      && t.watermark == Some(Stamp(s, 1))
  {
  }

  /** With no metadata left behind, the flush is the key's newest change, and the watermark covers it. */
  lemma FlushKey(c: Config, s: Cluster, h: History, up: set<NodeId>, k: Key)
    requires WellFormed(c, s) && LeaversAreMembers(s) && KeyOk(c, s, h, k) && FlushReachable(s, up).1.Ok? && RetiredWithout(s, k)
    ensures var t := FlushReachable(s, up).0;
      KeyOk(c, t, h + [FlushCommit(t)], k) && QuorumOk(c, t, h + [FlushCommit(t)], k)
  {
    var t := FlushReachable(s, up).0;
    var e := FlushCommit(t);
    FlushShape(c, s, up);
    LastAppend(h, e, k);
    forall n
      ensures CellOk(c, t, h + [e], k, n)
      ensures MetaAt(t, n, k).None?
    {
      FlushCells(c, s, up, n, k);
      assert CellOk(c, s, h, k, n);
    }
    assert Vacant(t, k);
  }

  /** Metadata left behind is older than the flush, and hides that its key was flushed. */
  lemma FlushMisses(c: Config, s: Cluster, h: History, up: set<NodeId>, n: NodeId, k: Key)
    requires WellFormed(c, s) && Chain(h, s) && KeyOk(c, s, h, k) && FlushReachable(s, up).1.Ok?
    requires n in s.nodes && s.nodes[n].status.Removed? && MetaAt(s, n, k).Some?
    ensures var t := FlushReachable(s, up).0; !KeyOk(c, t, h + [FlushCommit(t)], k)
  {
    var t := FlushReachable(s, up).0;
    var e := FlushCommit(t);
    LastAppend(h, e, k);
    FlushCells(c, s, up, n, k);
    forall x ensures !Holds(t, x, k, e.version) {
      FlushCells(c, s, up, x, k);
      if MetaAt(t, x, k).Some? {
        var was := CommitOf(c, s, h, k, x);
        assert exists i :: 0 <= i < |h| && h[i] == was;
      }
    }
    assert !Vacant(t, k) by { assert MetaAt(t, n, k).Some?; }
  }

  /** After a flush a key is in order if and only if no removed node had metadata of it. */
  lemma FlushKeyIff(c: Config, s: Cluster, h: History, up: set<NodeId>, k: Key)
    requires Inv(c, s, h) && FlushReachable(s, up).1.Ok?
    ensures var t := FlushReachable(s, up).0; KeyOk(c, t, h + [FlushCommit(t)], k) <==> RetiredWithout(s, k)
  {
    assert KeyOk(c, s, h, k);
    if RetiredWithout(s, k) {
      FlushKey(c, s, h, up, k);
    } else {
      var n :| n in s.nodes && s.nodes[n].status.Removed? && MetaAt(s, n, k).Some?;
      FlushMisses(c, s, h, up, n, k);
    }
  }

  lemma FlushReachableIff(c: Config, s: Cluster, h: History, up: set<NodeId>)
    requires Inv(c, s, h) && FlushReachable(s, up).1.Ok?
    ensures var t := FlushReachable(s, up).0;
      && (Inv(c, t, h + [FlushCommit(t)]) <==> RetiredEmpty(s))
      && (RetiredEmpty(s) ==> QuorumInv(c, t, h + [FlushCommit(t)]))
  {
    var t := FlushReachable(s, up).0;
    FlushShape(c, s, up);
    ChainAppend(h, s, t, FlushCommit(t));
    RetiredKeys(c, s);
    forall k
      ensures KeyOk(c, t, h + [FlushCommit(t)], k) <==> RetiredWithout(s, k)
      ensures RetiredWithout(s, k) ==> QuorumOk(c, t, h + [FlushCommit(t)], k)
    {
      FlushKeyIff(c, s, h, up, k);
      assert KeyOk(c, s, h, k);
      if RetiredWithout(s, k) { FlushKey(c, s, h, up, k); }
    }
  }

  lemma DetectRetired(c: Config, s: Cluster, now: int)
    ensures RetiredEmpty(Detect(c, s, now)) <==> RetiredEmpty(s)
  {
    var t := Detect(c, s, now);
    assert t.nodes.Keys == s.nodes.Keys && t.metadata == s.metadata;
    assert forall n | n in s.nodes :: t.nodes[n].status.Removed? <==> s.nodes[n].status.Removed?;
  }

  /**
   A flush that is refused keeps the invariants; one that succeeds keeps them if and only
   if no removed node had metadata, which a flush passes over.
   */
  lemma FlushKeepsIff(c: Config, s: Cluster, h: History, now: int)
    requires Inv(c, s, h)
    ensures var (t, r) := Flush(c, s, now);
      if r.Ok?
      then (Inv(c, t, h + [FlushCommit(t)]) <==> RetiredEmpty(s)) && (RetiredEmpty(s) ==> QuorumInv(c, t, h + [FlushCommit(t)]))
      else Inv(c, t, h) && (QuorumInv(c, s, h) ==> QuorumInv(c, t, h))
    ensures var t := Flush(c, s, now).0; (s.watermark.Some? ==> t.watermark.Some?) && Forward(s, t)
  {
    var s1 := Detect(c, s, now);
    DetectIsControl(c, s, now);
    ControlStepKeeps(c, s, s1, h);
    if Flush(c, s, now).1.Ok? {
      DetectRetired(c, s, now);
      FlushShape(c, s1, Up(c, s1, now));
      FlushReachableIff(c, s1, h, Up(c, s1, now));
    }
  }

  lemma DropKeeps(c: Config, s: Cluster, h: History, n: NodeId, k: Key)
    requires Inv(c, s, h)
    ensures Inv(c, Drop(s, n, k), h)
    ensures QuorumInv(c, s, h) ==> QuorumInv(c, Drop(s, n, k), h)
  {
    var t := Drop(s, n, k);
    forall j
      ensures KeyOk(c, t, h, j)
      ensures QuorumOk(c, s, h, j) ==> QuorumOk(c, t, h, j)
    {
      assert KeyOk(c, s, h, j);
      forall m ensures CellOk(c, t, h, j, m) {
        assert CellOk(c, s, h, j, m);
        assert MetaAt(t, m, j) == MetaAt(s, m, j);
        assert EntryAt(t, m, j).None? || EntryAt(t, m, j) == EntryAt(s, m, j);
      }
      var last := Last(h, j);
      if last.Some? {
        if m :| Holds(s, m, j, last.value.version) {
          assert Holds(t, m, j, last.value.version);
        }
        assert Holders(s, j, last.value.version) == Holders(t, j, last.value.version);
      }
      assert forall m :: MetaAt(t, m, j) == MetaAt(s, m, j);
      assert Vacant(s, j) <==> Vacant(t, j);
    }
  }

  lemma HeartbeatKeeps(c: Config, s: Cluster, h: History, n: NodeId, sweep: seq<Key>, now: int)
    requires Inv(c, s, h)
    ensures var t := Heartbeat(c, s, n, sweep, now);
      && Inv(c, t, h) && (QuorumInv(c, s, h) ==> QuorumInv(c, t, h))
      && NotLower(s.watermark, t.watermark) && Forward(s, t)
  {
    if n in s.nodes {
      var node := s.nodes[n];
      var status := if node.status == Down then if n in s.ring.nodes then Active else Joining else node.status;
      var s1 := Elect(c, s.(nodes := s.nodes[n := Node(status, now)]), now);
      assert ControlStep(s, s1);
      ControlStepKeeps(c, s, s1, h);
      CollectAllKeeps(c, s1, h, sweep, Up(c, s1, now));
    }
  }

  // ----- Rebalances and membership -----

  lemma AddKeeps(c: Config, s: Cluster, h: History, n: NodeId, now: int)
    requires Inv(c, s, h)
    ensures var t := AddNode(s, n, now);
      Inv(c, t, h) && (QuorumInv(c, s, h) ==> QuorumInv(c, t, h)) && Forward(s, t) && t.watermark == s.watermark
  {
    var t := AddNode(s, n, now);
    if n !in s.nodes {
      AddShape(c, s, n, now);
      forall k
        ensures KeyOk(c, t, h, k)
        ensures QuorumOk(c, s, h, k) ==> QuorumOk(c, t, h, k)
      {
        assert KeyOk(c, s, h, k);
        AddCells(c, s, n, now, k);
        FrameKey(c, s, t, h, h, k);
      }
    }
  }

  lemma AddShape(c: Config, s: Cluster, n: NodeId, now: int)
    requires WellFormed(c, s) && LeaversAreMembers(s) && n !in s.nodes
    ensures var t := AddNode(s, n, now); WellFormed(c, t) && LeaversAreMembers(t)
  {
    var t := AddNode(s, n, now);
    assert t.stores.Keys == t.nodes.Keys && t.metadata.Keys == t.nodes.Keys;
  }

  lemma AddCells(c: Config, s: Cluster, n: NodeId, now: int, k: Key)
    requires WellFormed(c, s) && n !in s.nodes
    ensures SameKey(s, AddNode(s, n, now), k)
  {
    assert n !in s.stores.Keys && n !in s.metadata.Keys;
  }

  lemma LeaveKeeps(c: Config, s: Cluster, h: History, n: NodeId, removing: bool)
    requires Inv(c, s, h)
    ensures var t := LeaveNode(s, n, removing);
      Inv(c, t, h) && (QuorumInv(c, s, h) ==> QuorumInv(c, t, h)) && Forward(s, t) && t.watermark == s.watermark
  {
    var t := LeaveNode(s, n, removing);
    assert WellFormed(c, t) by { assert t.nodes.Keys == s.nodes.Keys; }
    forall k
      ensures KeyOk(c, t, h, k)
      ensures QuorumOk(c, s, h, k) ==> QuorumOk(c, t, h, k)
    {
      assert KeyOk(c, s, h, k);
      FrameKey(c, s, t, h, h, k);
    }
  }

  lemma RebalanceKeeps(c: Config, s: Cluster, h: History, plan: Plan, sweep: seq<Key>, broken: set<nat>, stuck: set<NodeId>, now: int)
    requires Inv(c, s, h)
    requires Rebalance(c, s, plan, sweep, broken, stuck, now).1.Ok? ==> Tidy(c, Detect(c, s, now), plan)
    ensures var t := Rebalance(c, s, plan, sweep, broken, stuck, now).0;
      Inv(c, t, h) && (QuorumInv(c, s, h) ==> QuorumInv(c, t, h)) && NotLower(s.watermark, t.watermark) && Forward(s, t)
  {
    var s1 := Detect(c, s, now);
    DetectIsControl(c, s, now);
    ControlStepKeeps(c, s, s1, h);
    if Rebalance(c, s, plan, sweep, broken, stuck, now).1.Ok? {
      SuccessKeeps(c, s1, h, plan, sweep, broken, stuck, now);
    } else {
      FailureIs(c, s, plan, sweep, broken, stuck, now);
      if Starts(c, s1, plan) { FailureKeeps(c, s1, h, plan, broken, now); }
    }
  }

  // ----- Runs -----

  datatype Op =
    | PutOp(key: Key, value: Value, profile: Profile, fence: Option<Fence>, faults: Faults, now: int)
    | DeleteOp(keys: seq<Key>, profile: Profile, fence: Option<Fence>, sweep: seq<Key>, faults: Faults,
               mute: set<NodeId>, broken: set<NodeId>, now: int)
    | GetOp(key: Key, profile: Profile, mute: set<NodeId>, broken: set<NodeId>, now: int)
    | DetectOp(now: int)
    | DownOp(node: NodeId, now: int)
    | HeartbeatOp(node: NodeId, sweep: seq<Key>, now: int)
    | EvictOp(node: NodeId, key: Key)
    | FlushOp(now: int)
    | SnapshotOp(node: NodeId, keys: seq<Key>)
    | BootstrapOp(node: NodeId, snapshot: nat, fails: bool, now: int)
    | AddOp(node: NodeId, now: int)
    | LeaveOp(node: NodeId, removing: bool)
    | RebalanceOp(plan: Plan, sweep: seq<Key>, failing: set<nat>, stuck: set<NodeId>, now: int)

  /**
   The store, the acknowledged changes so far, and every snapshot ever taken.  A snapshot
   session serves one bootstrap only; that a step may install any earlier snapshot, however
   often, makes the results about all runs cover more.
   */
  datatype World = World(s: Cluster, h: History, snaps: seq<Snapshot>)

  function Next(c: Config, w: World, op: Op): World {
    match op
    case PutOp(k, v, p, fence, faults, now) =>
      var (t, r) := Put(c, w.s, k, v, p, fence, faults, now);
      w.(s := t, h := if r.Ok? then w.h + [PutCommit(t, k, v)] else w.h)
    case DeleteOp(keys, p, fence, sweep, faults, mute, broken, now) =>
      var (t, r) := Delete(c, w.s, keys, p, fence, sweep, faults, mute, broken, now);
      w.(s := t, h := if r.Ok? then w.h + DeleteCommits(t, Unique(keys)) else w.h)
    case GetOp(k, p, mute, broken, now) => w.(s := Get(c, w.s, k, p, mute, broken, now).0)
    case DetectOp(now) => w.(s := Detect(c, w.s, now))
    case DownOp(n, now) => w.(s := NodeDown(c, w.s, n, now))
    case HeartbeatOp(n, sweep, now) => w.(s := Heartbeat(c, w.s, n, sweep, now))
    case EvictOp(n, k) => w.(s := Drop(w.s, n, k))
    case FlushOp(now) =>
      var (t, r) := Flush(c, w.s, now);
      w.(s := t, h := if r.Ok? then w.h + [FlushCommit(t)] else w.h)
    case SnapshotOp(n, keys) => w.(snaps := w.snaps + [TakeSnapshot(w.s, n, keys)])
    case BootstrapOp(n, i, fails, now) =>
      if i < |w.snaps| then w.(s := Bootstrap(c, w.s, n, w.snaps[i], fails, now).0) else w
    case AddOp(n, now) => w.(s := AddNode(w.s, n, now))
    case LeaveOp(n, removing) => w.(s := LeaveNode(w.s, n, removing))
    case RebalanceOp(plan, sweep, failing, stuck, now) => w.(s := Rebalance(c, w.s, plan, sweep, failing, stuck, now).0)
  }

  function Run(c: Config, w: World, ops: seq<Op>): World {
    if ops == [] then w else Next(c, Run(c, w, ops[..|ops| - 1]), ops[|ops| - 1])
  }

  /** A cluster as constructed: leadership at term one, every store empty. */
  ghost predicate Init(c: Config, w: World) {
    && WellFormed(c, w.s)
    && (forall n | n in w.s.nodes :: w.s.stores[n] == map[] && w.s.metadata[n] == map[])
    && NoRemoved(w.s) && LeaversAreMembers(w.s)
    && w.s.term == 1 && w.s.watermark.None?
    && w.h == [] && w.snaps == []
  }

  predicate UsesQuorum(op: Op) {
    match op
    case PutOp(_, _, p, _, _, _) => !p.One?
    case DeleteOp(_, p, _, _, _, _, _, _) => !p.One?
    case _ => true
  }

  /**
   A flush either fails or finds no metadata on a removed node, and a rebalance either fails
   or finds every key in order, which is so whenever all keys with any copy are catalogued.
   Both are exact: see `FlushKeepsIff` and `RebalanceKeepsIff`.
   */
  ghost predicate Careful(c: Config, w: World, op: Op) {
    match op
    case FlushOp(now) => Flush(c, w.s, now).1.Ok? ==> RetiredEmpty(w.s)
    case RebalanceOp(plan, sweep, failing, stuck, now) =>
      Rebalance(c, w.s, plan, sweep, failing, stuck, now).1.Ok? ==> Tidy(c, Detect(c, w.s, now), plan)
    case _ => true
  }

  ghost predicate CarefulRun(c: Config, w: World, ops: seq<Op>) {
    ops == [] || (CarefulRun(c, w, ops[..|ops| - 1]) && Careful(c, Run(c, w, ops[..|ops| - 1]), ops[|ops| - 1]))
  }

  ghost predicate Good(c: Config, w: World) {
    && Inv(c, w.s, w.h)
    && forall snap | snap in w.snaps :: SnapOk(w.h, w.s.watermark.Some?, snap)
  }

  lemma SnapsStay(w: World, x: World)
    requires forall snap | snap in w.snaps :: SnapOk(w.h, w.s.watermark.Some?, snap)
    requires x.snaps == w.snaps && w.h <= x.h && (w.s.watermark.Some? ==> x.s.watermark.Some?)
    ensures forall snap | snap in x.snaps :: SnapOk(x.h, x.s.watermark.Some?, snap)
  {
    assert forall e | e in w.h :: e in x.h;
    forall snap | snap in x.snaps ensures SnapOk(x.h, x.s.watermark.Some?, snap) {
      forall r | r in snap.records ensures RecordOk(x.h, x.s.watermark.Some?, r) {
        assert RecordOk(w.h, w.s.watermark.Some?, r);
      }
    }
  }

  lemma NextKeeps(c: Config, w: World, op: Op)
    requires Good(c, w) && Careful(c, w, op)
    ensures Good(c, Next(c, w, op)) && Forward(w.s, Next(c, w, op).s)
    ensures QuorumInv(c, w.s, w.h) && UsesQuorum(op) ==> QuorumInv(c, Next(c, w, op).s, Next(c, w, op).h)
  {
    var x := Next(c, w, op);
    NextInv(c, w, op);
    if op.SnapshotOp? {
      RecordsOfOk(c, w.s, w.h, op.node, op.keys);
    } else {
      SnapsStay(w, x);
    }
  }

  /** What one step from `w` to `x` keeps. */
  ghost predicate StepKeeps(c: Config, w: World, x: World, quorum: bool) {
    && Inv(c, x.s, x.h) && Forward(w.s, x.s) && w.h <= x.h
    && (w.s.watermark.Some? ==> x.s.watermark.Some?)
    && (QuorumInv(c, w.s, w.h) && quorum ==> QuorumInv(c, x.s, x.h))
  }

  lemma NextInv(c: Config, w: World, op: Op)
    requires Good(c, w) && Careful(c, w, op)
    ensures StepKeeps(c, w, Next(c, w, op), UsesQuorum(op))
  {
    match op
    case PutOp(k, v, p, fence, faults, now) => NextPut(c, w, op);
    case DeleteOp(keys, p, fence, sweep, faults, mute, broken, now) => NextDelete(c, w, op);
    case FlushOp(now) => NextFlush(c, w, op);
    case BootstrapOp(n, i, fails, now) => NextBootstrap(c, w, op);
    case GetOp(k, p, mute, broken, now) => GetKeeps(c, w.s, w.h, k, p, mute, broken, now);
    case AddOp(n, now) => AddKeeps(c, w.s, w.h, n, now);
    case LeaveOp(n, removing) => LeaveKeeps(c, w.s, w.h, n, removing);
    case RebalanceOp(plan, sweep, failing, stuck, now) => NextRebalance(c, w, op);
    case _ => NextNode(c, w, op);
  }

  lemma NextPut(c: Config, w: World, op: Op)
    requires Good(c, w) && op.PutOp?
    ensures StepKeeps(c, w, Next(c, w, op), UsesQuorum(op))
  {
    var x := Next(c, w, op);
    assert w.h <= x.h;
    PutKeeps(c, w.s, w.h, op.key, op.value, op.profile, op.fence, op.faults, op.now);
  }

  lemma NextDelete(c: Config, w: World, op: Op)
    requires Good(c, w) && op.DeleteOp?
    ensures StepKeeps(c, w, Next(c, w, op), UsesQuorum(op))
  {
    DeleteKeeps(c, w.s, w.h, op.keys, op.profile, op.fence, op.sweep, op.faults, op.mute, op.broken, op.now);
  }

  lemma NextFlush(c: Config, w: World, op: Op)
    requires Good(c, w) && op.FlushOp? && Careful(c, w, op)
    ensures StepKeeps(c, w, Next(c, w, op), UsesQuorum(op))
  {
    FlushKeepsIff(c, w.s, w.h, op.now);
  }

  lemma InstallKeeps(c: Config, w: World, n: NodeId, snap: Snapshot, fails: bool, now: int)
    requires Good(c, w) && snap in w.snaps
    ensures StepKeeps(c, w, w.(s := Bootstrap(c, w.s, n, snap, fails, now).0), true)
  {
    BootstrapKeeps(c, w.s, w.h, n, snap, fails, now);
  }

  lemma NextBootstrap(c: Config, w: World, op: Op)
    requires Good(c, w) && op.BootstrapOp?
    ensures StepKeeps(c, w, Next(c, w, op), UsesQuorum(op))
  {
    if op.snapshot < |w.snaps| {
      assert w.snaps[op.snapshot] in w.snaps;
      InstallKeeps(c, w, op.node, w.snaps[op.snapshot], op.fails, op.now);
    }
  }

  lemma NextRebalance(c: Config, w: World, op: Op)
    requires Good(c, w) && op.RebalanceOp? && Careful(c, w, op)
    ensures StepKeeps(c, w, Next(c, w, op), UsesQuorum(op))
  {
    RebalanceKeeps(c, w.s, w.h, op.plan, op.sweep, op.failing, op.stuck, op.now);
  }

  lemma NextNode(c: Config, w: World, op: Op)
    requires Good(c, w)
    requires op.DetectOp? || op.DownOp? || op.HeartbeatOp? || op.EvictOp? || op.SnapshotOp?
    ensures StepKeeps(c, w, Next(c, w, op), UsesQuorum(op))
  {
    match op
    case DetectOp(now) =>
      DetectIsControl(c, w.s, now);
      ControlStepKeeps(c, w.s, Detect(c, w.s, now), w.h);
    case DownOp(n, now) =>
      NodeDownIsControl(c, w.s, n, now);
      ControlStepKeeps(c, w.s, NodeDown(c, w.s, n, now), w.h);
    case HeartbeatOp(n, sweep, now) => HeartbeatKeeps(c, w.s, w.h, n, sweep, now);
    case EvictOp(n, k) => DropKeeps(c, w.s, w.h, n, k);
    case SnapshotOp(n, keys) =>
  }

  lemma GetKeeps(c: Config, s: Cluster, h: History, k: Key, p: Profile, mute: set<NodeId>, broken: set<NodeId>, now: int)
    requires Inv(c, s, h)
    ensures var t := Get(c, s, k, p, mute, broken, now).0;
      && Inv(c, t, h) && (QuorumInv(c, s, h) ==> QuorumInv(c, t, h))
      && NotLower(s.watermark, t.watermark) && Forward(s, t)
  {
    var s1 := Detect(c, s, now);
    DetectIsControl(c, s, now);
    ControlStepKeeps(c, s, s1, h);
    ReadKeeps(c, s1, h, k, p, Up(c, s1, now), mute, broken);
  }

  lemma InitGood(c: Config, w: World)
    requires Init(c, w)
    ensures Good(c, w) && QuorumInv(c, w.s, w.h)
  {
    forall k ensures KeyOk(c, w.s, w.h, k) {
      forall n ensures CellOk(c, w.s, w.h, k, n) {
        assert MetaAt(w.s, n, k).None? && EntryAt(w.s, n, k).None?;
      }
    }
  }

  lemma {:induction false} RunKeeps(c: Config, w: World, ops: seq<Op>)
    requires Good(c, w) && CarefulRun(c, w, ops)
    ensures Good(c, Run(c, w, ops)) && Forward(w.s, Run(c, w, ops).s)
    ensures QuorumInv(c, w.s, w.h) && (forall op | op in ops :: UsesQuorum(op)) ==>
      QuorumInv(c, Run(c, w, ops).s, Run(c, w, ops).h)
  {
    if ops != [] {
      var init := ops[..|ops| - 1];
      RunKeeps(c, w, init);
      NextKeeps(c, Run(c, w, init), ops[|ops| - 1]);
      assert forall op | op in init :: op in ops;
    }
  }

  // ----- Main results -----

  /**
   Quorum intersection over every run: after any history of quorum puts and deletes,
   reads, failures, recoveries, repairs, collections, evictions, flushes and
   bootstraps, membership changes and rebalances, a quorum read answers a miss or the last
   acknowledged write.
   */
  lemma QuorumReadsAreCurrent(c: Config, w0: World, ops: seq<Op>, k: Key, p: Profile,
                              mute: set<NodeId>, broken: set<NodeId>, now: int)
    requires Init(c, w0) && CarefulRun(c, w0, ops)
    requires !p.One? && forall op | op in ops :: UsesQuorum(op)
    ensures var w := Run(c, w0, ops);
      var r := Get(c, w.s, k, p, mute, broken, now).1;
      r.Ok? && r.value.Hit? ==>
        exists v: Version :: Last(w.h, k) == Some(Written(v, k, r.value.value))
  {
    InitGood(c, w0);
    RunKeeps(c, w0, ops);
    var w := Run(c, w0, ops);
    var s1 := Detect(c, w.s, now);
    DetectIsControl(c, w.s, now);
    ControlStepKeeps(c, w.s, s1, w.h);
    ReadReturnsLast(c, s1, w.h, k, p, Up(c, s1, now), mute, broken);
    var r := Get(c, w.s, k, p, mute, broken, now).1;
    if r.Ok? && r.value.Hit? {
      var last := Last(w.h, k).value;
      assert Last(w.h, k) == Some(Written(last.version, k, r.value.value));
    }
  }

  /**
   No resurrection, at any consistency profile: in every reachable state a node
   accepts a record of an earlier snapshot only if it is the newest acknowledged
   change of its key, even when the tombstone has been collected or the store flushed.
   */
  lemma BootstrapNeverResurrects(c: Config, w0: World, ops: seq<Op>, n: NodeId, snap: Snapshot, r: Record)
    requires Init(c, w0) && CarefulRun(c, w0, ops)
    requires snap in Run(c, w0, ops).snaps && r in snap.records
    ensures var w := Run(c, w0, ops);
      Accepts(w.s, n, r) ==>
        && Last(w.h, r.key).Some? && Last(w.h, r.key).value.version == r.version
        && (if Deletes(r) then Last(w.h, r.key).value == Deleted(r.version, r.key)
            else Last(w.h, r.key).value == Written(r.version, r.key, r.entry.value))
  {
    InitGood(c, w0);
    RunKeeps(c, w0, ops);
    var w := Run(c, w0, ops);
    if Accepts(w.s, n, r) {
      AcceptedIsNewest(c, w.s, w.h, n, r);
      LastIn(w.h, r.key);
    }
  }

  /** The newest metadata of a key is its newest change, or it is gone and the watermark covers it. */
  lemma WatermarkCovers(c: Config, w0: World, ops: seq<Op>, k: Key)
    requires Init(c, w0) && CarefulRun(c, w0, ops)
    ensures var w := Run(c, w0, ops);
      var last, latest := Last(w.h, k), Latest(w.s, k);
      && (latest.Some? ==>
            last.Some? && latest.value.version == last.value.version && (latest.value.deleted <==> last.value.Deleted?))
      && (latest.None? && last.Some? ==> w.s.watermark.Some? && !w.s.watermark.value.Less(last.value.version))
  {
    InitGood(c, w0);
    RunKeeps(c, w0, ops);
    var w := Run(c, w0, ops);
    assert KeyOk(c, w.s, w.h, k);
    LatestIsLast(c, w.s, w.h, k);
    LatestIsMax(c, w.s, k);
  }

  // ----- What needs no care -----

  /** Every removed node of `t` was one in `s`. */
  predicate NoneRemoved(s: Cluster, t: Cluster) {
    forall n | n in t.nodes && t.nodes[n].status.Removed? :: n in s.nodes && s.nodes[n].status.Removed?
  }

  ghost predicate Ordered(w: World) {
    Chain(w.h, w.s) && w.s.term >= 1
  }

  /** What one step keeps in any state; `calm` unless it is a rebalance. */
  ghost predicate StepShape(w: World, x: World, calm: bool) {
    && Forward(w.s, x.s) && (Ordered(w) ==> Ordered(x))
    && (calm ==> NoneRemoved(w.s, x.s))
  }

  predicate SucceedingRebalance(c: Config, w: World, op: Op) {
    op.RebalanceOp? && Rebalance(c, w.s, op.plan, op.sweep, op.failing, op.stuck, op.now).1.Ok?
  }

  lemma {:induction false} CollectAllFrame(c: Config, s: Cluster, keys: seq<Key>, up: set<NodeId>)
    ensures SameFrame(s, CollectAll(c, s, keys, up))
  {
    if keys != [] {
      var init := keys[..|keys| - 1];
      CollectAllFrame(c, s, init, up);
      CollectFrame(c, CollectAll(c, s, init, up), keys[|keys| - 1], up);
    }
  }

  lemma RepairFrame(s: Cluster, k: Key, w: Response, ns: seq<NodeId>, broken: set<NodeId>)
    ensures SameFrame(s, Repair(s, k, w, ns, broken))
  {
  }

  lemma CollectFrame(c: Config, s: Cluster, k: Key, up: set<NodeId>)
    ensures SameFrame(s, Collect(c, s, k, up))
  {
  }

  lemma SameFrameTrans(s: Cluster, t: Cluster, u: Cluster)
    requires SameFrame(s, t) && SameFrame(t, u)
    ensures SameFrame(s, u)
  {
  }

  /** A read answers without change, or repairs and collects. */
  lemma ReadIs(c: Config, s: Cluster, k: Key, p: Profile, up: set<NodeId>, mute: set<NodeId>, broken: set<NodeId>)
    ensures var t := Read(c, s, k, p, up, mute, broken).0;
      t == s || exists w, asked :: t == Collect(c, Repair(s, k, w, asked, broken), k, up)
  {
  }

  lemma ReadFrame(c: Config, s: Cluster, k: Key, p: Profile, up: set<NodeId>, mute: set<NodeId>, broken: set<NodeId>)
    ensures SameFrame(s, Read(c, s, k, p, up, mute, broken).0)
  {
    ReadIs(c, s, k, p, up, mute, broken);
    var t := Read(c, s, k, p, up, mute, broken).0;
    if t != s {
      var w, asked :| t == Collect(c, Repair(s, k, w, asked, broken), k, up);
      var u := Repair(s, k, w, asked, broken);
      RepairFrame(s, k, w, asked, broken);
      CollectFrame(c, u, k, up);
      SameFrameTrans(s, u, t);
    }
  }

  lemma {:induction false} ReadAllFrame(c: Config, s: Cluster, keys: seq<Key>, p: Profile, up: set<NodeId>, mute: set<NodeId>, broken: set<NodeId>)
    ensures SameFrame(s, ReadAll(c, s, keys, p, up, mute, broken).0)
  {
    if keys != [] {
      var init := keys[..|keys| - 1];
      ReadAllFrame(c, s, init, p, up, mute, broken);
      var u := ReadAll(c, s, init, p, up, mute, broken).0;
      ReadFrame(c, u, keys[|keys| - 1], p, up, mute, broken);
      SameFrameTrans(s, u, Read(c, u, keys[|keys| - 1], p, up, mute, broken).0);
    }
  }

  lemma {:induction false} InstallAllFrame(base: Cluster, s: Cluster, n: NodeId, rs: seq<Record>)
    ensures SameFrame(s, InstallAll(base, s, n, rs))
  {
    if rs != [] { InstallAllFrame(base, s, n, rs[..|rs| - 1]); }
  }

  lemma DeleteShapes(c: Config, s: Cluster, keys: seq<Key>, p: Profile, sweep: seq<Key>, up: set<NodeId>,
                     faults: Faults, mute: set<NodeId>, broken: set<NodeId>)
    ensures var (t, r) := DeleteKeys(c, s, keys, p, sweep, up, faults, mute, broken);
      && t.nodes == s.nodes && t.term == s.term && t.leader == s.leader
      && t.sequence == s.sequence + if r.Ok? then |keys| else 0
  {
    if keys != [] {
      var s0 := CollectAll(c, s, sweep, up);
      var s1 := ReadAll(c, s0, keys, p, up, mute, broken).0;
      DeleteShape(c, s, keys, p, sweep, up, faults, mute, broken);
      CollectAllFrame(c, s, sweep, up);
      ReadAllFrame(c, s0, keys, p, up, mute, broken);
      CollectAllFrame(c, Bury(c, s0, s1, keys, up, faults), keys, up);
    }
  }

  lemma ChainLater(h: History, s: Cluster, t: Cluster)
    requires Chain(h, s) && t.term >= s.term && t.sequence >= s.sequence
    ensures Chain(h, t)
  {
  }

  lemma PutSequence(c: Config, s: Cluster, k: Key, v: Value, p: Profile, fence: Option<Fence>, faults: Faults, now: int)
    ensures var (t, r) := Put(c, s, k, v, p, fence, faults, now);
      && Forward(s, t) && NoneRemoved(s, t) && t.sequence == s.sequence + if r.Ok? then 1 else 0
  {
    WholePutShape(c, s, k, v, p, fence, faults, now);
    DetectIsControl(c, s, now);
    var s1 := Detect(c, s, now);
    ReplicateForward(c, s1, k, v, p, Up(c, s1, now), faults);
    ReplicateSequence(c, s1, k, v, p, Up(c, s1, now), faults);
  }

  lemma ReplicateSequence(c: Config, s: Cluster, k: Key, v: Value, p: Profile, up: set<NodeId>, faults: Faults)
    ensures var (t, r) := ReplicatePut(c, s, k, v, p, up, faults);
      t.nodes == s.nodes && t.sequence == s.sequence + if r.Ok? then 1 else 0
  {
  }

  lemma PutOrder(c: Config, w: World, op: Op)
    requires op.PutOp?
    ensures StepShape(w, Next(c, w, op), true)
  {
    var x := Next(c, w, op);
    PutSequence(c, w.s, op.key, op.value, op.profile, op.fence, op.faults, op.now);
    if Ordered(w) {
      if Put(c, w.s, op.key, op.value, op.profile, op.fence, op.faults, op.now).1.Ok? {
        ChainAppend(w.h, w.s, x.s, PutCommit(x.s, op.key, op.value));
      } else {
        ChainLater(w.h, w.s, x.s);
      }
    }
  }

  lemma DeleteSequence(c: Config, s: Cluster, keys: seq<Key>, p: Profile, fence: Option<Fence>, sweep: seq<Key>,
                       faults: Faults, mute: set<NodeId>, broken: set<NodeId>, now: int)
    ensures var (t, r) := Delete(c, s, keys, p, fence, sweep, faults, mute, broken, now);
      var s1 := Detect(c, s, now);
      && NoneRemoved(s, t) && Forward(s, s1) && s1.sequence == s.sequence
      && t.term == s1.term && t.leader == s1.leader && t.sequence == s.sequence + if r.Ok? then |Unique(keys)| else 0
  {
    var s1 := Detect(c, s, now);
    DetectIsControl(c, s, now);
    DeleteShapes(c, s1, Unique(keys), p, sweep, Up(c, s1, now), faults, mute, broken);
  }

  lemma CommitsAre(s: Cluster, t: Cluster, keys: seq<Key>)
    requires t.term == s.term && t.leader == s.leader && t.sequence == s.sequence + |keys|
    ensures DeleteCommits(t, keys) == Tombs(keys, s.term, s.sequence, s.leader)
  {
  }

  lemma DeleteOrder(c: Config, w: World, op: Op)
    requires op.DeleteOp?
    ensures StepShape(w, Next(c, w, op), true)
  {
    var x, s1, keys := Next(c, w, op), Detect(c, w.s, op.now), Unique(op.keys);
    DeleteSequence(c, w.s, op.keys, op.profile, op.fence, op.sweep, op.faults, op.mute, op.broken, op.now);
    if Ordered(w) {
      ChainLater(w.h, w.s, s1);
      if Delete(c, w.s, op.keys, op.profile, op.fence, op.sweep, op.faults, op.mute, op.broken, op.now).1.Ok? {
        TombsChain(w.h, s1, x.s, keys);
        CommitsAre(s1, x.s, keys);
      } else {
        ChainLater(w.h, s1, x.s);
      }
    }
  }

  lemma FlushSequence(c: Config, s: Cluster, now: int)
    ensures var (t, r) := Flush(c, s, now);
      && NoneRemoved(s, t) && Forward(s, t) && t.sequence == s.sequence + if r.Ok? then 1 else 0
  {
    DetectIsControl(c, s, now);
  }

  lemma FlushOrder(c: Config, w: World, op: Op)
    requires op.FlushOp?
    ensures StepShape(w, Next(c, w, op), true)
  {
    var x := Next(c, w, op);
    FlushSequence(c, w.s, op.now);
    if Ordered(w) {
      if Flush(c, w.s, op.now).1.Ok? {
        ChainAppend(w.h, w.s, x.s, FlushCommit(x.s));
      } else {
        ChainLater(w.h, w.s, x.s);
      }
    }
  }

  lemma BootstrapFrame(c: Config, s: Cluster, n: NodeId, snap: Snapshot, fails: bool, now: int)
    ensures SameFrame(s, Bootstrap(c, s, n, snap, fails, now).0)
  {
    InstallAllFrame(s, s, n, snap.records);
    CollectAllFrame(c, InstallAll(s, s, n, snap.records), Gravestones(s, n, snap.records), Up(c, s, now));
  }

  lemma HeartbeatShape(c: Config, s: Cluster, n: NodeId, sweep: seq<Key>, now: int)
    ensures var t := Heartbeat(c, s, n, sweep, now); Forward(s, t) && NoneRemoved(s, t) && t.sequence == s.sequence
  {
    if n in s.nodes {
      var s1 := HeartbeatBeforeSweep(c, s, n, now);
      CollectAllFrame(c, s1, sweep, Up(c, s1, now));
    }
  }

  lemma RebalanceForward(c: Config, s: Cluster, plan: Plan, sweep: seq<Key>, failing: set<nat>, stuck: set<NodeId>, now: int)
    ensures var t := Rebalance(c, s, plan, sweep, failing, stuck, now).0; Forward(s, t) && t.sequence == s.sequence
  {
    var s1 := Detect(c, s, now);
    var m := RunMoves(c, s1, plan.moves, failing, now).0;
    DetectIsControl(c, s, now);
    MovesFrame(c, s1, plan.moves, failing, now);
    var d := DropFormer(c, Switch(m, plan), s1.ring.nodes);
    CollectAllFrame(c, d, sweep, Up(c, d, now));
    ElectIsControl(c, CollectAll(c, d, sweep, Up(c, d, now)), now);
  }

  lemma FailureRemovesNone(c: Config, s: Cluster, plan: Plan, sweep: seq<Key>, failing: set<nat>, stuck: set<NodeId>, now: int)
    requires WellFormed(c, s) && LeaversAreMembers(s) && Rebalance(c, s, plan, sweep, failing, stuck, now).1.Err?
    ensures NoneRemoved(s, Rebalance(c, s, plan, sweep, failing, stuck, now).0)
  {
    var s1 := Detect(c, s, now);
    DetectIsControl(c, s, now);
    MovesFrame(c, s1, plan.moves, failing, now);
    FailureIs(c, s, plan, sweep, failing, stuck, now);
  }

  /** Any other step, which acknowledges nothing. */
  lemma QuietOrder(c: Config, w: World, op: Op)
    requires !op.PutOp? && !op.DeleteOp? && !op.FlushOp?
    ensures var x := Next(c, w, op);
      && x.h == w.h && x.s.sequence == w.s.sequence && Forward(w.s, x.s)
      && (!op.RebalanceOp? ==> NoneRemoved(w.s, x.s))
  {
    match op
    case GetOp(k, p, mute, broken, now) =>
      var s1 := Detect(c, w.s, now);
      DetectIsControl(c, w.s, now);
      ReadFrame(c, s1, k, p, Up(c, s1, now), mute, broken);
    case DetectOp(now) => DetectIsControl(c, w.s, now);
    case DownOp(n, now) => NodeDownIsControl(c, w.s, n, now);
    case HeartbeatOp(n, sweep, now) => HeartbeatShape(c, w.s, n, sweep, now);
    case EvictOp(n, k) =>
    case SnapshotOp(n, keys) =>
    case BootstrapOp(n, i, fails, now) =>
      if i < |w.snaps| { BootstrapFrame(c, w.s, n, w.snaps[i], fails, now); }
    case AddOp(n, now) =>
    case LeaveOp(n, removing) =>
    case RebalanceOp(plan, sweep, failing, stuck, now) => RebalanceForward(c, w.s, plan, sweep, failing, stuck, now);
  }

  lemma NextShape(c: Config, w: World, op: Op)
    ensures StepShape(w, Next(c, w, op), !op.RebalanceOp?)
  {
    if op.PutOp? {
      PutOrder(c, w, op);
    } else if op.DeleteOp? {
      DeleteOrder(c, w, op);
    } else if op.FlushOp? {
      FlushOrder(c, w, op);
    } else {
      QuietOrder(c, w, op);
      if Ordered(w) { ChainLater(w.h, w.s, Next(c, w, op).s); }
    }
  }

  lemma {:induction false} RunOrdered(c: Config, w: World, ops: seq<Op>)
    requires Ordered(w)
    ensures Ordered(Run(c, w, ops)) && Forward(w.s, Run(c, w, ops).s)
  {
    if ops != [] {
      RunOrdered(c, w, ops[..|ops| - 1]);
      NextShape(c, Run(c, w, ops[..|ops| - 1]), ops[|ops| - 1]);
    }
  }

  /** In every run, careful or not, acknowledged stamps strictly increase, though a failed write's number is used again. */
  lemma StampsIncrease(c: Config, w0: World, ops: seq<Op>, i: nat, j: nat)
    requires Init(c, w0) && i < j < |Run(c, w0, ops).h|
    ensures var h := Run(c, w0, ops).h; h[i].version.Less(h[j].version)
  {
    RunOrdered(c, w0, ops);
  }

  /** Over any run terms never fall, and a term that is still current has kept its leader. */
  lemma {:induction false} OneLeaderPerTerm(c: Config, w0: World, before: seq<Op>, after: seq<Op>)
    requires Init(c, w0)
    ensures var w, x := Run(c, w0, before), Run(c, w0, before + after);
      && w.s.term <= x.s.term && (w.s.term == x.s.term ==> w.s.leader == x.s.leader)
  {
    RunOrdered(c, w0, before);
    RunOrdered(c, Run(c, w0, before), after);
    RunSplit(c, w0, before, after);
  }

  lemma {:induction false} RunSplit(c: Config, w: World, before: seq<Op>, after: seq<Op>)
    ensures Run(c, w, before + after) == Run(c, Run(c, w, before), after)
  {
    if after == [] {
      assert before + after == before;
    } else {
      assert (before + after)[..|before + after| - 1] == before + after[..|after| - 1];
      RunSplit(c, w, before, after[..|after| - 1]);
    }
  }

  // ----- Runs on one ring -----

  /** No step is a rebalance that succeeds. */
  predicate OneRing(c: Config, w: World, ops: seq<Op>) {
    ops == [] || (OneRing(c, w, ops[..|ops| - 1]) && !SucceedingRebalance(c, Run(c, w, ops[..|ops| - 1]), ops[|ops| - 1]))
  }

  predicate NoRemoved(s: Cluster) {
    forall n | n in s.nodes :: !s.nodes[n].status.Removed?
  }

  lemma CalmStep(c: Config, w: World, op: Op)
    requires Good(c, w) && NoRemoved(w.s) && !SucceedingRebalance(c, w, op)
    ensures Careful(c, w, op) && NoRemoved(Next(c, w, op).s)
  {
    if op.RebalanceOp? {
      FailureRemovesNone(c, w.s, op.plan, op.sweep, op.failing, op.stuck, op.now);
    } else {
      NextShape(c, w, op);
    }
  }

  /** Every run on one ring is careful, whatever snapshots it installs and whatever rebalances fail. */
  lemma {:induction false} OneRingIsCareful(c: Config, w: World, ops: seq<Op>)
    requires Good(c, w) && NoRemoved(w.s) && OneRing(c, w, ops)
    ensures CarefulRun(c, w, ops) && NoRemoved(Run(c, w, ops).s)
  {
    if ops != [] {
      var init := ops[..|ops| - 1];
      OneRingIsCareful(c, w, init);
      RunKeeps(c, w, init);
      CalmStep(c, Run(c, w, init), ops[|ops| - 1]);
    }
  }

  /** On one ring nothing else is needed: quorum reads are current in every run, failed rebalances included. */
  lemma OneRingReadsAreCurrent(c: Config, w0: World, ops: seq<Op>, k: Key, p: Profile,
                               mute: set<NodeId>, broken: set<NodeId>, now: int)
    requires Init(c, w0) && OneRing(c, w0, ops)
    requires !p.One? && forall op | op in ops :: UsesQuorum(op)
    ensures var w := Run(c, w0, ops);
      var r := Get(c, w.s, k, p, mute, broken, now).1;
      r.Ok? && r.value.Hit? ==>
        exists v: Version :: Last(w.h, k) == Some(Written(v, k, r.value.value))
  {
    InitGood(c, w0);
    OneRingIsCareful(c, w0, ops);
    QuorumReadsAreCurrent(c, w0, ops, k, p, mute, broken, now);
  }
}
