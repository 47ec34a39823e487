/**
 A reached state in which a flushed record is back, because the flush found its metadata on
 a removed node.  Two snapshots are taken, and each is installed once.
 */
module ClusterRetired {
  import opened HashRing
  import opened ClusterModel
  import opened ClusterInvariant
  import opened ClusterMoves
  import opened ClusterRuns
  import opened ClusterWitness

  /** Node 0 is to be removed from the empty cluster. */
  function Departing(): Cluster {
    Two(Removing, map[], map[], map[], map[], 0, None, {})
  }

  function Solo(store0: map<Key, Value>, row0: map<Key, Meta>, store1: map<Key, Value>, row1: map<Key, Meta>,
                sequence: nat, watermark: Option<Version>, catalog: set<Key>): Cluster {
    Cluster(LastRing(), [0, 1], map[0 := Node(Removed, 0), 1 := Node(Active, 0)], map[0 := store0, 1 := store1],
            map[0 := row0, 1 := row1], 2, sequence, 1, watermark, catalog)
  }

  function Row(): map<Key, Meta> {
    map["k" := Meta(Version(2, 1, 1), false)]
  }

  function Alone(): Cluster {
    Solo(map[], map[], map[], map[], 0, None, {})
  }

  function Kept(): Cluster {
    Solo(map[], map[], Copies(), Row(), 1, None, {"k"})
  }

  function Strayed(): Cluster {
    Solo(Copies(), Row(), Copies(), Row(), 1, None, {"k"})
  }

  function Emptied(): Cluster {
    Solo(Copies(), Row(), map[], map[], 2, Some(Version(2, 2, 1)), {})
  }

  function Returned(): Cluster {
    Solo(Copies(), Row(), Copies(), Row(), 2, Some(Version(2, 2, 1)), {})
  }

  // ----- The removal -----

  function Remove(): Plan {
    Plan(Fence(1, 0), 1, LastRing(), [], [], [0])
  }

  lemma RemoveFits(c: Config, s: Cluster, plan: Plan)
    requires s == Departing() && plan == Remove()
    ensures Fits(c, s, plan)
  {
    NewOwner();
    assert WithStatus(s, Joining) == {} && WithStatus(s, Draining) == {} && WithStatus(s, Removing) == {0};
    assert (set n | n in plan.departing) == {0};
    assert s.ring.nodes + {} - {0} == {1};
  }

  lemma RemoveSwitches(c: Config, s: Cluster, plan: Plan, u: Cluster)
    requires s == Departing() && plan == Remove() && u == Alone().(term := 1, leader := 0)
    ensures MoveAndSwitch(c, s, plan, {}, {}, 0) == (u, true)
  {
    assert plan.departing[..0] == [];
    assert Departed(s.nodes, plan.departing[..0]) == s.nodes;
    assert Switch(s, plan).nodes == u.nodes;
    assert Switch(s, plan) == u;
    assert forall n :: FormerKeys(c, u, n) == {};
    NothingFormer(c, u, s.ring.nodes, u.stores);
    NothingFormer(c, u, s.ring.nodes, u.metadata);
  }

  lemma OtherLeads(c: Config, s: Cluster)
    requires c.timeout >= 0 && s == Alone().(term := 1, leader := 0)
    ensures Elect(c, s, 0) == Alone()
  {
    Quiet(c, s);
    assert s.ring.nodes * Up(c, s, 0) == {1};
    var order: seq<NodeId> := [0, 1];
    assert order[..1] == [0];
    SelectOne(0, {1});
    assert Select(order, {1}) == [1];
    assert Least([1]) == 1;
  }

  lemma RemoveRuns(c: Config, s: Cluster, plan: Plan)
    requires c == Single() && s == Departing() && plan == Remove()
    ensures Rebalance(c, s, plan, [], {}, {}, 0) == (Alone(), Ok(()))
  {
    Quiet(c, s);
    RemoveFits(c, s, plan);
    RemoveSwitches(c, s, plan, Alone().(term := 1, leader := 0));
    OtherLeads(c, Alone().(term := 1, leader := 0));
  }

  lemma LeaveFirst(c: Config, w: World, op: Op)
    requires w == Before() && op == LeaveOp(0, true)
    ensures Next(c, w, op) == World(Departing(), [], [])
  {
    assert |{0, 1}| == 2;
  }

  lemma RemoveThen(c: Config, w: World, op: Op)
    requires c == Single() && w.s == Departing() && op == RebalanceOp(Remove(), [], {}, {}, 0)
    ensures Next(c, w, op) == w.(s := Alone())
  {
    RemoveRuns(c, w.s, op.plan);
  }

  lemma RemoveRun(c: Config, w: World) returns (ops: seq<Op>)
    requires c == Single() && w == Before()
    ensures Run(c, w, ops) == World(Alone(), [], []) && forall op | op in ops :: UsesQuorum(op)
  {
    var x := World(Departing(), [], []);
    var leave, rebalance := LeaveOp(0, true), RebalanceOp(Remove(), [], {}, {}, 0);
    LeaveFirst(c, w, leave);
    RemoveThen(c, x, rebalance);
    RunPair(c, w, x, World(Alone(), [], []), leave, rebalance);
    ops := [leave, rebalance];
  }

  lemma RunPair(c: Config, w: World, x: World, y: World, a: Op, b: Op)
    requires Next(c, w, a) == x && Next(c, x, b) == y
    ensures Run(c, w, [a, b]) == y
  {
    var ops := [a, b];
    assert ops[..1] == [a] && ops[..1][..0] == [];
    assert Run(c, w, []) == w;
    assert Run(c, w, [a]) == x;
  }

  // ----- A record put, copied to the removed node, flushed and installed again -----

  lemma OwnedByLast(c: Config, s: Cluster, k: Key)
    requires c == Single() && s.ring == LastRing()
    ensures Owners(c, s, k) == [1]
  {
    NewOwner();
  }

  lemma KeptIs(s: Cluster)
    requires s == Alone()
    ensures Install(s, {1}, "k", Some("v"), Meta(Stamp(s, 1), false)).(sequence := s.sequence + 1, catalog := s.catalog + {"k"}) == Kept()
  {
    var t := Install(s, {1}, "k", Some("v"), Meta(Stamp(s, 1), false));
    assert t.stores == Kept().stores;
    assert t.metadata == Kept().metadata;
  }

  function Kind(): Commit {
    Written(Version(2, 1, 1), "k", "v")
  }

  lemma PutKept(c: Config, w: World, op: Op)
    requires c == Single() && w == World(Alone(), [], []) && op == PutOp("k", "v", Majority, None, map[], 0)
    ensures Next(c, w, op) == World(Kept(), [Kind()], [])
  {
    OwnedByLast(c, w.s, "k");
    Quiet(c, w.s);
    PutWhole(c, w.s, "k", "v", 1);
    KeptIs(w.s);
  }

  function Copy(): Record {
    Record("k", Version(2, 1, 1), false, Some("v"))
  }

  function Saved(): Snapshot {
    Snapshot(2, Fence(2, 1), [Copy()])
  }

  lemma SavedIs(s: Cluster)
    requires s == Kept()
    ensures TakeSnapshot(s, 1, ["k"]) == Saved()
  {
    assert MetaAt(s, 1, "k") == Some(Meta(Version(2, 1, 1), false)) && EntryAt(s, 1, "k") == Some("v");
    assert RecordsOf(s, 1, []) == [];
    assert RecordsOf(s, 1, ["k"]) == [Copy()];
  }

  lemma SaveKept(c: Config, w: World, op: Op)
    requires w.s == Kept() && op == SnapshotOp(1, ["k"])
    ensures Next(c, w, op) == w.(snaps := w.snaps + [Saved()])
  {
    SavedIs(w.s);
  }

  lemma LatestSecond(md: map<NodeId, map<Key, Meta>>)
    requires 0 in md && 1 in md && "k" !in md[0] && "k" in md[1]
    ensures LatestIn(md, [0, 1], "k") == Some(md[1]["k"])
  {
    var order: seq<NodeId> := [0, 1];
    assert order[..1] == [0] && order[..1][..0] == [];
    assert LatestIn(md, [], "k") == None;
    assert LatestIn(md, order[..1], "k") == None;
  }

  /** A snapshot of the one record goes to a node that lacks it. */
  lemma InstallSaved(c: Config, s: Cluster, n: NodeId, t: Cluster)
    requires n in s.nodes && s.ring.version == 2 && s.term == 2 && s.leader == 1
    requires Accepts(s, n, Copy()) && t == InstallRecord(s, n, Copy())
    ensures Bootstrap(c, s, n, Saved(), false, 0) == (t, Ok(()))
  {
    OneRecord(c, s, n, Copy(), Up(c, s, 0));
    assert Saved().records == [Copy()];
    assert forall r | r in Saved().records :: BoundToFence(r, Saved().fence);
  }

  /** Both snapshots are taken. */
  function Twice(): World {
    World(Kept(), [Kind()], [Saved(), Saved()])
  }

  lemma StrayKept(c: Config, w: World, op: Op)
    requires w == Twice() && op == BootstrapOp(0, 0, false, 0)
    ensures Next(c, w, op) == w.(s := Strayed())
  {
    LatestSecond(w.s.metadata);
    var t := InstallRecord(w.s, 0, Copy());
    assert t.stores == Strayed().stores;
    assert t.metadata == Strayed().metadata;
    InstallSaved(c, w.s, 0, t);
  }

  lemma TwiceIs(x: World, y: World, z: World)
    requires x == World(Kept(), [Kind()], [])
    requires y == x.(snaps := x.snaps + [Saved()]) && z == y.(snaps := y.snaps + [Saved()])
    ensures z == Twice()
  {
  }

  lemma KeepOps(c: Config, w: World, put: Op, snapshot: Op)
    requires c == Single() && w == World(Alone(), [], [])
    requires put == PutOp("k", "v", Majority, None, map[], 0) && snapshot == SnapshotOp(1, ["k"])
    ensures Run(c, w, [put, snapshot, snapshot]) == Twice()
  {
    var x := Next(c, w, put);
    var y := Next(c, x, snapshot);
    var z := Next(c, y, snapshot);
    PutKept(c, w, put);
    SaveKept(c, x, snapshot);
    SaveKept(c, y, snapshot);
    TwiceIs(x, y, z);
    RunThree(c, w, x, y, z, put, snapshot, snapshot);
  }

  lemma KeepRun(c: Config, w: World) returns (ops: seq<Op>)
    requires c == Single() && w == World(Alone(), [], [])
    ensures Run(c, w, ops) == Twice() && forall op | op in ops :: UsesQuorum(op)
  {
    var put, snapshot := PutOp("k", "v", Majority, None, map[], 0), SnapshotOp(1, ["k"]);
    KeepOps(c, w, put, snapshot);
    ops := [put, snapshot, snapshot];
  }

  function Flush22(): Commit {
    Flushed(Version(2, 2, 1))
  }

  lemma WipedTwo<T>(nodes: map<NodeId, Node>, held: map<NodeId, map<Key, T>>)
    requires held.Keys == {0, 1} && 0 in nodes && 1 in nodes && nodes[0].status.Removed? && !nodes[1].status.Removed?
    ensures Wiped(nodes, held) == held[1 := map[]]
  {
  }

  lemma WipedIs(s: Cluster)
    requires s == Strayed()
    ensures Wiped(s.nodes, s.stores) == Emptied().stores && Wiped(s.nodes, s.metadata) == Emptied().metadata
  {
    WipedTwo(s.nodes, s.stores);
    WipedTwo(s.nodes, s.metadata);
  }

  lemma FlushIs(c: Config, s: Cluster)
    requires c == Single() && s == Strayed()
    ensures Flush(c, s, 0) == (Emptied(), Ok(()))
  {
    Quiet(c, s);
    assert Up(c, s, 0) == {1};
    WipedIs(s);
  }

  lemma FlushStrayed(c: Config, w: World, op: Op)
    requires c == Single() && w == Twice().(s := Strayed()) && op == FlushOp(0)
    ensures Next(c, w, op) == World(Emptied(), [Kind(), Flush22()], [Saved(), Saved()])
  {
    FlushIs(c, w.s);
  }

  lemma InstallSecond(c: Config, w: World, op: Op)
    requires w.s == Emptied() && w.snaps == [Saved(), Saved()] && op == BootstrapOp(1, 1, false, 0)
    ensures Next(c, w, op) == w.(s := Returned())
  {
    LatestOfTwo(w.s.metadata);
    var t := InstallRecord(w.s, 1, Copy());
    assert t.stores == Returned().stores;
    assert t.metadata == Returned().metadata;
    InstallSaved(c, w.s, 1, t);
  }

  /** The first snapshot goes to the removed node; after the flush the second goes back to the owner. */
  lemma ReturnOps(c: Config, w: World, stray: Op, flush: Op, install: Op)
    requires c == Single() && w == Twice()
    requires stray == BootstrapOp(0, 0, false, 0) && flush == FlushOp(0) && install == BootstrapOp(1, 1, false, 0)
    ensures Run(c, w, [stray, flush, install]) == World(Returned(), [Kind(), Flush22()], [Saved(), Saved()])
  {
    var x, y := w.(s := Strayed()), World(Emptied(), [Kind(), Flush22()], [Saved(), Saved()]);
    StrayKept(c, w, stray);
    FlushStrayed(c, x, flush);
    InstallSecond(c, y, install);
    RunThree(c, w, x, y, y.(s := Returned()), stray, flush, install);
  }

  lemma ReturnRun(c: Config, w: World) returns (ops: seq<Op>)
    requires c == Single() && w == Twice()
    ensures Run(c, w, ops) == World(Returned(), [Kind(), Flush22()], [Saved(), Saved()]) && forall op | op in ops :: UsesQuorum(op)
  {
    var stray, flush, install := BootstrapOp(0, 0, false, 0), FlushOp(0), BootstrapOp(1, 1, false, 0);
    ReturnOps(c, w, stray, flush, install);
    ops := [stray, flush, install];
  }

  lemma ReadFlushed(c: Config, s: Cluster)
    requires c == Single() && s == Returned()
    ensures Get(c, s, "k", Majority, {}, {}, 0).1 == Ok(Hit("v"))
  {
    Quiet(c, s);
    OwnedByLast(c, s, "k");
    LatestOfTwo(s.metadata);
    assert Up(c, s, 0) == {1};
    ReadAlone(c, s, "k", 1, {1});
  }

  /**
   A flush that finds metadata on a removed node brings a flushed record back: it passes
   the removed node over, whose metadata then admits an earlier snapshot elsewhere.
   */
  lemma RemovedNodeKeepsFlushed() returns (c: Config, w0: World, ops: seq<Op>)
    ensures Init(c, w0) && (forall op | op in ops :: UsesQuorum(op)) && !CarefulRun(c, w0, ops)
    ensures var w := Run(c, w0, ops);
      && Last(w.h, "k") == Some(Flushed(Version(2, 2, 1)))
      && Get(c, w.s, "k", Majority, {}, {}, 0).1 == Ok(Hit("v"))
  {
    c, w0 := Single(), Before();
    BeforeIsInit(c, w0);
    var a := RemoveRun(c, w0);
    var b := KeepRun(c, Run(c, w0, a));
    var d := ReturnRun(c, Run(c, Run(c, w0, a), b));
    RunSplit(c, w0, a, b);
    RunSplit(c, w0, a + b, d);
    ops := a + b + d;
    ReadFlushed(c, Returned());
    if CarefulRun(c, w0, ops) {
      QuorumReadsAreCurrent(c, w0, ops, "k", Majority, {}, {}, 0);
    }
  }
}
