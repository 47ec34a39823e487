/** A reached state in which a rebalance, on a state that is not tidy, has brought a deleted record back. */
module ClusterWitness {
  import opened HashRing
  import opened ClusterModel
  import opened ClusterInvariant
  import opened ClusterDeletes
  import opened ClusterMoves
  import ClusterBurial
  import opened ClusterRuns

  // ----- A deleted record returns -----

  /** One replica per key; every key has the token 0. */
  function Single(): Config {
    Config(1, 10, 5, (k: Key) => 0)
  }

  function BothRing(): Ring {
    Ring({0, 1}, [Point(1, 0, 0), Point(2, 1, 0)], 1)
  }

  function LastRing(): Ring {
    Ring({1}, [Point(2, 1, 0)], 2)
  }

  function Copies(): map<Key, Value> {
    map["k" := "v"]
  }

  function Two(first: Status, store: map<Key, Value>, row: map<Key, Meta>, store1: map<Key, Value>, row1: map<Key, Meta>,
               sequence: nat, watermark: Option<Version>, catalog: set<Key>): Cluster {
    Cluster(BothRing(), [0, 1], map[0 := Node(first, 0), 1 := Node(Active, 0)], map[0 := store, 1 := store1],
            map[0 := row, 1 := row1], 1, sequence, 0, watermark, catalog)
  }

  function Alive(): map<Key, Meta> {
    map["k" := Meta(Version(1, 1, 0), false)]
  }

  function Empty(): Cluster {
    Two(Active, map[], map[], map[], map[], 0, None, {})
  }

  function Stored(): Cluster {
    Two(Active, Copies(), Alive(), map[], map[], 1, None, {"k"})
  }

  function CopiedToo(): Cluster {
    Two(Active, Copies(), Alive(), Copies(), Alive(), 1, None, {"k"})
  }

  function Swept(): Cluster {
    Two(Active, map[], map[], Copies(), map[], 2, Some(Version(1, 2, 0)), {})
  }

  function Leaving(): Cluster {
    Two(Draining, map[], map[], Copies(), map[], 2, Some(Version(1, 2, 0)), {})
  }

  lemma BothValid()
    ensures BothRing().Valid() && Bisect(BothRing().points, 0) == 0
  {
    var ps := BothRing().points;
    assert ps[0] == Point(1, 0, 0) && ps[1] == Point(2, 1, 0);
    assert ps[0] in ps && ps[1] in ps;
    BisectSplits(ps, 0);
  }

  lemma FirstOwner()
    ensures BothRing().Valid() && BothRing().Owners(0, 1) == [0]
  {
    var ps := BothRing().points;
    BothValid();
    OwnersAreDistinctMembers(BothRing(), 0, 1);
    var walk := NodesOf(Clockwise(ps, 0));
    ClockwiseAt(ps, 0, 0);
    assert walk[0] == 0;
    DedupPrefix(walk, 1);
    assert walk[..1] == [0] && walk[..1][..0] == [];
    assert Dedup(walk[..1]) == [0];
  }

  lemma NewOwner()
    ensures LastRing().Valid() && LastRing().Owners(0, 1) == [1]
  {
    assert Point(2, 1, 0) in LastRing().points;
    OwnersAreDistinctMembers(LastRing(), 0, 1);
    var r := LastRing().Owners(0, 1);
    assert |r| == 1 && r[0] in r;
  }

  // ----- Small clusters -----

  lemma Quiet(c: Config, s: Cluster)
    requires forall n | n in s.nodes :: s.nodes[n].heartbeat == 0
    requires c.timeout >= 0
    ensures Detect(c, s, 0) == s
    ensures Up(c, s, 0) == set n | n in s.nodes && LiveStatus(s.nodes[n].status)
  {
    forall n | n in s.nodes ensures n !in TimedOut(c, s, 0) && (n in Up(c, s, 0) <==> LiveStatus(s.nodes[n].status)) {
      assert s.nodes[n].heartbeat == 0;
    }
    assert TimedOut(c, s, 0) == {};
  }

  lemma SelectOne(x: NodeId, keep: set<NodeId>)
    ensures Select([x], keep) == if x in keep then [x] else []
  {
    var one: seq<NodeId> := [x];
    assert one[..0] == [];
    assert Select(one[..0], keep) == [];
  }

  lemma FineAlone(x: NodeId)
    ensures WithFault([x], map[], Fine) == {x} && WithFault([x], map[], Rejects) == {} && WithFault([x], map[], Hard) == {}
  {
  }

  /** A put with one replica, which is up and well. */
  lemma PutAlone(c: Config, s: Cluster, k: Key, v: Value, x: NodeId, up: set<NodeId>)
    requires Owners(c, s, k) == [x] && x in up
    ensures ReplicatePut(c, s, k, v, Majority, up, map[]) ==
      (Install(s, {x}, k, Some(v), Meta(Stamp(s, 1), false)).(sequence := s.sequence + 1), Ok(()))
  {
    SelectOne(x, up);
    FineAlone(x);
    SelectOne(x, {x});
    assert Majority.Required(1) == 1;
  }

  lemma PutWhole(c: Config, s: Cluster, k: Key, v: Value, x: NodeId)
    requires Detect(c, s, 0) == s && Owners(c, s, k) == [x] && x in Up(c, s, 0)
    ensures Put(c, s, k, v, Majority, None, map[], 0) ==
      (Install(s, {x}, k, Some(v), Meta(Stamp(s, 1), false)).(sequence := s.sequence + 1, catalog := s.catalog + {k}), Ok(()))
  {
    PutAlone(c, s, k, v, x, Up(c, s, 0));
  }

  lemma StoredIs(s: Cluster)
    requires s == Empty()
    ensures Install(s, {0}, "k", Some("v"), Meta(Stamp(s, 1), false)).(sequence := s.sequence + 1, catalog := s.catalog + {"k"}) == Stored()
  {
    var t := Install(s, {0}, "k", Some("v"), Meta(Stamp(s, 1), false));
    assert t.stores == Stored().stores;
    assert t.metadata == Stored().metadata;
  }

  lemma OwnedByFirst(c: Config, s: Cluster, k: Key)
    requires c == Single() && s.ring == BothRing()
    ensures Owners(c, s, k) == [0]
  {
    FirstOwner();
  }

  lemma PutOne(c: Config, s: Cluster)
    requires c == Single() && s == Empty()
    ensures Put(c, s, "k", "v", Majority, None, map[], 0) == (Stored(), Ok(()))
  {
    OwnedByFirst(c, s, "k");
    Quiet(c, s);
    PutWhole(c, s, "k", "v", 0);
    StoredIs(s);
  }

  // ----- A delete with one replica -----

  lemma InstallNowhere(s: Cluster, k: Key, e: Option<Value>, m: Meta)
    ensures Install(s, {}, k, e, m) == s
  {
    assert InstallStores(s.stores, {}, k, e) == s.stores;
    assert InstallMeta(s.metadata, {}, k, m) == s.metadata;
  }

  lemma WinnerAlone(s: Cluster, x: NodeId, k: Key)
    ensures Winner(s, [x], k) == ResponseOf(s, x, k)
  {
  }

  lemma RepairAlone(s: Cluster, k: Key, x: NodeId)
    ensures Repair(s, k, ResponseOf(s, x, k), [x], {}) == s
  {
    var w := ResponseOf(s, x, k);
    if w.meta.Some? {
      assert (set n | n in [x] && n !in {} && NeedsRepair(s, k, w, n)) == {};
      InstallNowhere(s, k, if w.meta.value.deleted then None else w.entry, w.meta.value);
    }
  }

  lemma ReadAlone(c: Config, s: Cluster, k: Key, x: NodeId, up: set<NodeId>)
    requires Owners(c, s, k) == [x] && x in up && !Collectable(c, s, k, up)
    ensures Read(c, s, k, Majority, up, {}, {}) == (s, Ok(Answer(ResponseOf(s, x, k))))
  {
    assert up - {} == up;
    SelectOne(x, up);
    WinnerAlone(s, x, k);
    RepairAlone(s, k, x);
  }

  lemma OneKey(c: Config, s: Cluster, k: Key, read: Reader, up: set<NodeId>)
    ensures Rank([k], k) == 1 && Unique([k]) == [k]
    ensures CollectAll(c, s, [k], up) == Collect(c, s, k, up) && CollectAll(c, s, [], up) == s
    ensures var (t, r) := read(s, k);
      ReadEach(s, [k], read) == if r.Err? then (t, Err(r.error)) else (t, Ok(if r.value.Hit? then 1 else 0))
  {
    var one := [k];
    assert one[..0] == [];
    assert Unique(one[..0]) == [];
    assert ReadEach(s, one[..0], read) == (s, Ok(0));
    assert CollectAll(c, s, one[..0], up) == s;
  }

  /** A delete that passes every check. */
  lemma DeletePasses(c: Config, s: Cluster, keys: seq<Key>, sweep: seq<Key>, up: set<NodeId>, faults: Faults, hits: nat)
    requires CollectAll(c, s, sweep, up) == s
    requires keys != [] && AllReachable(c, s, keys, Majority, up) && Tombstones(s) == {} && Risky(c, s, keys, up) == {}
    requires ReadAll(c, s, keys, Majority, up, {}, {}) == (s, Ok(hits))
    requires !Aborts(c, s, keys, up, faults) && AllBuried(c, s, keys, Majority, up, faults)
    requires |Tombstones(CollectAll(c, Bury(c, s, s, keys, up, faults), keys, up))| <= c.tombstoneLimit
    ensures DeleteKeys(c, s, keys, Majority, sweep, up, faults, {}, {}) ==
      (CollectAll(c, Bury(c, s, s, keys, up, faults), keys, up), Ok(hits))
  {
  }

  lemma WellAlone(c: Config, s: Cluster, k: Key, x: NodeId, up: set<NodeId>)
    requires Owners(c, s, k) == [x] && x in up
    ensures AllReachable(c, s, [k], Majority, up) && AllBuried(c, s, [k], Majority, up, map[])
    ensures !Aborts(c, s, [k], up, map[]) && Risky(c, s, [k], up) == {}
  {
    SelectOne(x, up);
    FineAlone(x);
    SelectOne(x, {x});
  }

  lemma ReadAllAlone(c: Config, s: Cluster, k: Key, x: NodeId, up: set<NodeId>)
    requires Owners(c, s, k) == [x] && x in up && !Collectable(c, s, k, up)
    requires EntryAt(s, x, k).Some? && MetaAt(s, x, k).Some? && !MetaAt(s, x, k).value.deleted
    ensures ReadAll(c, s, [k], Majority, up, {}, {}) == (s, Ok(1))
  {
    OneKey(c, s, k, ReaderOf(c, Majority, up, {}, {}), up);
    ReadAlone(c, s, k, x, up);
  }

  /** A delete of the only record; its tombstone is collected at once. */
  lemma DeleteAlone(c: Config, s: Cluster, k: Key, x: NodeId, up: set<NodeId>, t: Cluster)
    requires Owners(c, s, k) == [x] && x in up && s.catalog == {k}
    requires EntryAt(s, x, k).Some? && MetaAt(s, x, k).Some? && !MetaAt(s, x, k).value.deleted
    requires Latest(s, k).Some? && !Latest(s, k).value.deleted && !Collectable(c, s, k, up)
    requires Collect(c, Bury(c, s, s, [k], up, map[]), k, up) == t && t.catalog == {}
    ensures DeleteKeys(c, s, [k], Majority, [k], up, map[], {}, {}) == (t, Ok(1))
  {
    OneKey(c, s, k, ReaderOf(c, Majority, up, {}, {}), up);
    WellAlone(c, s, k, x, up);
    ReadAllAlone(c, s, k, x, up);
    assert Tombstones(s) == {};
    OneKey(c, Bury(c, s, s, [k], up, map[]), k, ReaderOf(c, Majority, up, {}, {}), up);
    assert Tombstones(t) == {};
    DeletePasses(c, s, [k], [k], up, map[], 1);
  }

  function Buried(): Cluster {
    Two(Active, map[], map["k" := Meta(Version(1, 2, 0), true)], Copies(), Alive(), 2, None, {"k"})
  }

  lemma AloneTakesPart(c: Config, s: Cluster, k: Key, x: NodeId, up: set<NodeId>)
    requires Owners(c, s, k) == [x] && x in up
    ensures Participants(c, s, [k], up) == {x} && KeysAt(c, s, [k], up, x) == {k}
  {
    SelectOne(x, up);
    assert Available(c, s, k, up) == [x];
    forall n ensures n in Participants(c, s, [k], up) <==> n == x {
      if n == x { assert k in [k] && n in Available(c, s, k, up); }
    }
    forall j ensures j in KeysAt(c, s, [k], up, x) <==> j == k {
    }
  }

  function AfterBury(s: Cluster, k: Key, x: NodeId): Cluster
    requires x in s.stores && x in s.metadata
  {
    s.(sequence := s.sequence + 1, catalog := s.catalog + {k}, stores := s.stores[x := s.stores[x] - {k}],
       metadata := s.metadata[x := s.metadata[x][k := Meta(Stamp(s, 1), true)]])
  }

  lemma BuryAloneStores(c: Config, s: Cluster, k: Key, x: NodeId, up: set<NodeId>)
    requires Participants(c, s, [k], up) == {x} && KeysAt(c, s, [k], up, x) == {k} && x in s.stores
    ensures Bury(c, s, s, [k], up, map[]).stores == s.stores[x := s.stores[x] - {k}]
  {
  }

  lemma OneTombstone(s: Cluster, row: map<Key, Meta>, keys: seq<Key>, k: Key)
    requires Rank(keys, k) == 1
    ensures row + ClusterBurial.Tombstoned(keys, {k}, s.term, s.sequence, s.leader) == row[k := Meta(Stamp(s, 1), true)]
  {
  }

  lemma BuryAloneRow(c: Config, s: Cluster, keys: seq<Key>, k: Key, x: NodeId, up: set<NodeId>, faults: Faults, n: NodeId)
    requires Participants(c, s, keys, up) == {x} && KeysAt(c, s, keys, up, x) == {k} && Rank(keys, k) == 1
    requires x in s.metadata && n in s.metadata && n in s.stores && FaultOf(faults, n) == Fine
    requires n in Bury(c, s, s, keys, up, faults).metadata
    ensures Bury(c, s, s, keys, up, faults).metadata[n] == if n == x then s.metadata[n][k := Meta(Stamp(s, 1), true)] else s.metadata[n]
  {
    ClusterBurial.BuryRow(c, s, s, keys, up, faults, n);
    OneTombstone(s, s.metadata[n], keys, k);
  }

  lemma BuryKeys(c: Config, s: Cluster, keys: seq<Key>, up: set<NodeId>)
    ensures Bury(c, s, s, keys, up, map[]).metadata.Keys == s.metadata.Keys
  {
  }

  lemma BuryAloneRows(c: Config, s: Cluster, k: Key, x: NodeId, up: set<NodeId>)
    requires Participants(c, s, [k], up) == {x} && KeysAt(c, s, [k], up, x) == {k} && x in s.metadata && Rank([k], k) == 1
    requires s.stores.Keys == s.metadata.Keys
    ensures Bury(c, s, s, [k], up, map[]).metadata == s.metadata[x := s.metadata[x][k := Meta(Stamp(s, 1), true)]]
  {
    BuryKeys(c, s, [k], up);
    forall n | n in s.metadata
      ensures Bury(c, s, s, [k], up, map[]).metadata[n] == if n == x then s.metadata[n][k := Meta(Stamp(s, 1), true)] else s.metadata[n]
    {
      BuryAloneRow(c, s, [k], k, x, up, map[], n);
    }
  }

  lemma BuryAlone(c: Config, s: Cluster, k: Key, x: NodeId, up: set<NodeId>)
    requires Owners(c, s, k) == [x] && x in up && x in s.stores && s.stores.Keys == s.metadata.Keys
    ensures Bury(c, s, s, [k], up, map[]) == AfterBury(s, k, x)
  {
    AloneTakesPart(c, s, k, x, up);
    OneKey(c, s, k, ReaderOf(c, Majority, {}, {}, {}), {});
    BuryAloneStores(c, s, k, x, up);
    BuryAloneRows(c, s, k, x, up);
    var all := set j | j in [k];
    assert all == {k};
  }

  lemma AfterBuryIs(s: Cluster)
    requires s == CopiedToo()
    ensures AfterBury(s, "k", 0) == Buried()
  {
    assert Copies() - {"k"} == map[];
    assert Alive()["k" := Meta(Version(1, 2, 0), true)] == map["k" := Meta(Version(1, 2, 0), true)];
    assert s.catalog + {"k"} == {"k"};
  }

  lemma BuriedIs(c: Config, s: Cluster)
    requires c == Single() && s == CopiedToo()
    ensures Bury(c, s, s, ["k"], {0, 1}, map[]) == Buried()
  {
    OwnedByFirst(c, s, "k");
    BuryAlone(c, s, "k", 0, {0, 1});
    AfterBuryIs(s);
  }

  lemma LatestOfTwo(md: map<NodeId, map<Key, Meta>>)
    requires 0 in md && 1 in md && "k" in md[0]
    requires "k" in md[1] ==> !md[0]["k"].version.Less(md[1]["k"].version)
    ensures LatestIn(md, [0, 1], "k") == Some(md[0]["k"])
  {
    var order: seq<NodeId> := [0, 1];
    assert order[..1] == [0] && order[..1][..0] == [];
    assert LatestIn(md, [], "k") == None;
    assert LatestIn(md, order[..1], "k") == Some(md[0]["k"]);
  }

  lemma LatestOfNone(md: map<NodeId, map<Key, Meta>>)
    requires 0 in md ==> "k" !in md[0]
    requires 1 in md ==> "k" !in md[1]
    ensures LatestIn(md, [0, 1], "k") == None
  {
    var order: seq<NodeId> := [0, 1];
    assert order[..1] == [0] && order[..1][..0] == [];
    assert LatestIn(md, [], "k") == None;
    assert LatestIn(md, order[..1], "k") == None;
  }

  lemma CollectedIs(c: Config, s: Cluster)
    requires c == Single() && s == Buried()
    ensures Collect(c, s, "k", {0, 1}) == Swept()
  {
    OwnedByFirst(c, s, "k");
    LatestOfTwo(s.metadata);
    assert Collectable(c, s, "k", {0, 1});
    var t := Collect(c, s, "k", {0, 1});
    assert t.metadata == Swept().metadata;
  }

  lemma DeleteWhole(c: Config, s: Cluster, k: Key, t: Cluster)
    requires Detect(c, s, 0) == s && DeleteKeys(c, s, [k], Majority, [k], Up(c, s, 0), map[], {}, {}) == (t, Ok(1))
    ensures Delete(c, s, [k], Majority, None, [k], map[], {}, {}, 0) == (t, Ok(1))
  {
    OneKey(c, s, k, ReaderOf(c, Majority, {}, {}, {}), {});
  }

  lemma DeleteOne(c: Config, s: Cluster, keys: seq<Key>)
    requires c == Single() && s == CopiedToo() && keys == ["k"]
    ensures Delete(c, s, keys, Majority, None, keys, map[], {}, {}, 0) == (Swept(), Ok(1))
  {
    Quiet(c, s);
    OwnedByFirst(c, s, "k");
    LatestOfTwo(s.metadata);
    BuriedIs(c, s);
    CollectedIs(c, Buried());
    assert Up(c, s, 0) == {0, 1};
    DeleteAlone(c, s, "k", 0, Up(c, s, 0), Swept());
    DeleteWhole(c, s, "k", Swept());
  }

  // ----- Steps of the run -----

  function Taken(): Snapshot {
    Snapshot(1, Fence(1, 0), [Live()])
  }

  function Live(): Record {
    Record("k", Version(1, 1, 0), false, Some("v"))
  }

  lemma SnapshotOne()
    ensures TakeSnapshot(Stored(), 0, ["k"]) == Taken()
  {
    var s := Stored();
    assert MetaAt(s, 0, "k") == Some(Meta(Version(1, 1, 0), false)) && EntryAt(s, 0, "k") == Some("v");
    assert RecordsOf(s, 0, []) == [];
    assert RecordsOf(s, 0, ["k"]) == [Live()];
  }

  lemma LatestStored()
    ensures Latest(Stored(), "k") == Some(Meta(Version(1, 1, 0), false))
  {
    var md := Stored().metadata;
    var order: seq<NodeId> := [0, 1];
    assert order[..1] == [0] && order[..1][..0] == [];
    assert LatestIn(md, [], "k") == None;
    assert LatestIn(md, order[..1], "k") == Some(md[0]["k"]);
    assert LatestIn(md, order, "k") == Some(md[0]["k"]);
  }

  lemma BootstrapOther()
    ensures Bootstrap(Single(), Stored(), 1, Taken(), false, 0) == (CopiedToo(), Ok(()))
  {
    var c, s, snap := Single(), Stored(), Taken();
    LatestStored();
    assert MetaAt(s, 1, "k").None?;
    assert Accepts(s, 1, Live());
    OneRecord(c, s, 1, Live(), Up(c, s, 0));
    var t := InstallRecord(s, 1, Live());
    assert t.stores == CopiedToo().stores;
    assert t.metadata == CopiedToo().metadata;
    assert forall r | r in snap.records :: BoundToFence(r, snap.fence);
    assert snap.records == [Live()];
  }

  // ----- The rebalance, and the read after it -----

  function Drain(): Plan {
    Plan(Fence(1, 0), 1, LastRing(), [], [], [0])
  }

  function Shrunk(): Cluster {
    Cluster(LastRing(), [0, 1], map[0 := Node(Drained, 0), 1 := Node(Active, 0)], map[0 := map[], 1 := Copies()],
            map[0 := map[], 1 := map[]], 2, 2, 1, Some(Version(1, 2, 0)), {})
  }

  lemma DrainFits(c: Config, s: Cluster)
    requires s == Leaving()
    ensures Fits(c, s, Drain())
  {
    NewOwner();
    assert WithStatus(s, Joining) == {} && WithStatus(s, Removing) == {} && WithStatus(s, Draining) == {0};
    assert (set n | n in Drain().departing) == {0};
    assert s.ring.nodes + {} - {0} == {1};
  }

  lemma NothingFormer<T>(c: Config, s: Cluster, members: set<NodeId>, held: map<NodeId, map<Key, T>>)
    requires s.catalog == {}
    ensures WithoutFormer(c, s, members, held) == held
  {
    forall n | n in held ensures held[n] - FormerKeys(c, s, n) == held[n] {
    }
  }

  lemma DrainSwitches(c: Config, s: Cluster)
    requires s == Leaving()
    ensures MoveAndSwitch(c, s, Drain(), {}, {}, 0) == (Switch(s, Drain()), true)
    ensures Switch(s, Drain()) == Shrunk().(term := 1, leader := 0)
  {
    var plan := Drain();
    var u := Switch(s, plan);
    assert plan.departing[..0] == [];
    assert Departed(s.nodes, plan.departing[..0]) == s.nodes;
    assert u.nodes == Shrunk().nodes;
    assert forall n :: FormerKeys(c, u, n) == {};
    NothingFormer(c, u, s.ring.nodes, u.stores);
    NothingFormer(c, u, s.ring.nodes, u.metadata);
  }

  lemma SecondLeads(c: Config, s: Cluster)
    requires c.timeout >= 0 && s == Shrunk().(term := 1, leader := 0)
    ensures Elect(c, s, 0) == Shrunk()
  {
    Quiet(c, s);
    assert s.ring.nodes * Up(c, s, 0) == {1};
    var order: seq<NodeId> := [0, 1];
    assert order[..1] == [0];
    SelectOne(0, {1});
    assert Select(order, {1}) == [1];
    assert Least([1]) == 1;
  }

  lemma RebalanceOne(c: Config, s: Cluster, plan: Plan, sweep: seq<Key>, failing: set<nat>, stuck: set<NodeId>)
    requires c == Single() && s == Leaving() && plan == Drain() && sweep == [] && failing == {} && stuck == {}
    ensures Rebalance(c, s, plan, sweep, failing, stuck, 0) == (Shrunk(), Ok(()))
  {
    Quiet(c, s);
    DrainFits(c, s);
    DrainSwitches(c, s);
    SecondLeads(c, Switch(s, plan));
  }

  lemma ReadReturned(c: Config, s: Cluster)
    requires c == Single() && s == Shrunk()
    ensures Get(c, s, "k", Majority, {}, {}, 0).1 == Ok(Hit("v"))
  {
    Quiet(c, s);
    NewOwner();
    LatestOfNone(s.metadata);
    ReadAlone(c, s, "k", 1, Up(c, s, 0));
  }

  lemma RunThree(c: Config, w: World, x: World, y: World, z: World, a: Op, b: Op, d: Op)
    requires Next(c, w, a) == x && Next(c, x, b) == y && Next(c, y, d) == z
    ensures Run(c, w, [a, b, d]) == z
  {
    var ops := [a, b, d];
    assert ops[..2][..1][..0] == [] && ops[..2][..1] == [a] && ops[..2] == [a, b];
    assert Run(c, w, []) == w;
    assert Run(c, w, [a]) == x;
    assert Run(c, w, [a, b]) == y;
  }

  function Before(): World {
    World(Empty(), [], [])
  }

  function Wrote(): Commit {
    Written(Version(1, 1, 0), "k", "v")
  }

  lemma BeforeIsInit(c: Config, w: World)
    requires c == Single() && w == Before()
    ensures Init(c, w)
  {
    FirstOwner();
  }

  lemma PutNext(c: Config, w: World, op: Op)
    requires c == Single() && w == Before() && op == PutOp("k", "v", Majority, None, map[], 0)
    ensures Next(c, w, op) == World(Stored(), [Wrote()], [])
  {
    PutOne(c, w.s);
  }

  lemma SnapshotNext(c: Config, w: World, op: Op)
    requires w == World(Stored(), [Wrote()], []) && op == SnapshotOp(0, ["k"])
    ensures Next(c, w, op) == World(Stored(), [Wrote()], [Taken()])
  {
    SnapshotOne();
  }

  lemma BootstrapNext(c: Config, w: World, op: Op)
    requires c == Single() && w == World(Stored(), [Wrote()], [Taken()]) && op == BootstrapOp(1, 0, false, 0)
    ensures Next(c, w, op) == World(CopiedToo(), [Wrote()], [Taken()])
  {
    BootstrapOther();
  }

  /** A put, a snapshot of its owner, and that snapshot installed on the other node. */
  lemma CopyRun(c: Config, w: World, put: Op, snapshot: Op, install: Op)
    requires c == Single() && w == Before()
    requires put == PutOp("k", "v", Majority, None, map[], 0) && snapshot == SnapshotOp(0, ["k"]) && install == BootstrapOp(1, 0, false, 0)
    ensures Run(c, w, [put, snapshot, install]) == World(CopiedToo(), [Wrote()], [Taken()])
  {
    var x, y, z := World(Stored(), [Wrote()], []), World(Stored(), [Wrote()], [Taken()]), World(CopiedToo(), [Wrote()], [Taken()]);
    PutNext(c, w, put);
    SnapshotNext(c, x, snapshot);
    BootstrapNext(c, y, install);
    RunThree(c, w, x, y, z, put, snapshot, install);
  }

  lemma CopyOps(c: Config, w: World) returns (ops: seq<Op>)
    requires c == Single() && w == Before()
    ensures Run(c, w, ops) == World(CopiedToo(), [Wrote()], [Taken()]) && forall op | op in ops :: UsesQuorum(op)
  {
    var put, snapshot, install := PutOp("k", "v", Majority, None, map[], 0), SnapshotOp(0, ["k"]), BootstrapOp(1, 0, false, 0);
    CopyRun(c, w, put, snapshot, install);
    ops := [put, snapshot, install];
  }

  function Erased(): Commit {
    Deleted(Version(1, 2, 0), "k")
  }

  lemma ErasedIs(s: Cluster, keys: seq<Key>)
    requires s == Swept() && keys == ["k"]
    ensures DeleteCommits(s, keys) == [Erased()]
  {
  }

  lemma DeleteNext(c: Config, w: World, op: Op)
    requires c == Single() && w == World(CopiedToo(), [Wrote()], [Taken()])
    requires op == DeleteOp(["k"], Majority, None, ["k"], map[], {}, {}, 0)
    ensures Next(c, w, op) == World(Swept(), [Wrote(), Erased()], [Taken()])
  {
    DeleteOne(c, w.s, op.keys);
    OneKey(c, w.s, "k", ReaderOf(c, Majority, {}, {}, {}), {});
    ErasedIs(Swept(), op.keys);
  }

  lemma LeaveNext(c: Config, w: World, op: Op)
    requires w.s == Swept() && op == LeaveOp(0, false)
    ensures Next(c, w, op) == w.(s := Leaving())
  {
    LeavingIs(w.s);
  }

  lemma RebalanceNext(c: Config, w: World, op: Op)
    requires c == Single() && w.s == Leaving() && op == RebalanceOp(Drain(), [], {}, {}, 0)
    ensures Next(c, w, op) == w.(s := Shrunk())
  {
    RebalanceOne(c, w.s, op.plan, op.sweep, op.failing, op.stuck);
  }

  /** The record is deleted, its owner drained. */
  lemma DrainRun(c: Config, w: World, delete: Op, leave: Op, rebalance: Op)
    requires c == Single() && w == World(CopiedToo(), [Wrote()], [Taken()])
    requires delete == DeleteOp(["k"], Majority, None, ["k"], map[], {}, {}, 0)
    requires leave == LeaveOp(0, false) && rebalance == RebalanceOp(Drain(), [], {}, {}, 0)
    ensures Run(c, w, [delete, leave, rebalance]) == World(Shrunk(), [Wrote(), Erased()], [Taken()])
  {
    var x := World(Swept(), [Wrote(), Erased()], [Taken()]);
    DeleteNext(c, w, delete);
    LeaveNext(c, x, leave);
    RebalanceNext(c, x.(s := Leaving()), rebalance);
    RunThree(c, w, x, x.(s := Leaving()), x.(s := Shrunk()), delete, leave, rebalance);
  }

  lemma DrainOps(c: Config, w: World) returns (ops: seq<Op>)
    requires c == Single() && w == World(CopiedToo(), [Wrote()], [Taken()])
    ensures Run(c, w, ops) == World(Shrunk(), [Wrote(), Erased()], [Taken()]) && forall op | op in ops :: UsesQuorum(op)
  {
    var delete := DeleteOp(["k"], Majority, None, ["k"], map[], {}, {}, 0);
    var leave, rebalance := LeaveOp(0, false), RebalanceOp(Drain(), [], {}, {}, 0);
    DrainRun(c, w, delete, leave, rebalance);
    ops := [delete, leave, rebalance];
  }

  lemma LeavingIs(s: Cluster)
    requires s == Swept()
    ensures LeaveNode(s, 0, false) == Leaving()
  {
    assert |{0, 1}| == 2;
  }

  /**
   A rebalance on a state that is not tidy brings a deleted record back: a copy that a
   bootstrap left on a node that did not own the key becomes an owner's copy, and after
   the collection of the tombstone nothing says that it is old.
   */
  lemma UntidyRebalanceResurrects() returns (c: Config, w0: World, ops: seq<Op>)
    ensures Init(c, w0) && (forall op | op in ops :: UsesQuorum(op)) && !CarefulRun(c, w0, ops)
    ensures var w := Run(c, w0, ops);
      && Last(w.h, "k") == Some(Deleted(Version(1, 2, 0), "k"))
      && Get(c, w.s, "k", Majority, {}, {}, 0).1 == Ok(Hit("v"))
  {
    c, w0 := Single(), Before();
    BeforeIsInit(c, w0);
    var copy := CopyOps(c, w0);
    var drain := DrainOps(c, Run(c, w0, copy));
    ops := copy + drain;
    RunSplit(c, w0, copy, drain);
    ReadReturned(c, Shrunk());
    if CarefulRun(c, w0, ops) {
      QuorumReadsAreCurrent(c, w0, ops, "k", Majority, {}, {}, 0);
    }
  }
}
