/** A reached state in which a failed rebalance has put back a tombstone that it no longer catalogues. */
module ClusterForgotten {
  import opened HashRing
  import opened ClusterModel
  import opened ClusterInvariant
  import opened ClusterSteps
  import opened ClusterMoves
  import opened ClusterCollected
  import opened ClusterUndo
  import opened ClusterRuns
  import opened ClusterRebalance
  import ClusterBurial
  import ClusterWitness

  /** Three nodes that all own every key. */
  function Triple(): Config {
    Config(3, 10, 5, (k: Key) => 0)
  }

  function AllRing(version: nat): Ring {
    Ring({0, 1, 2}, [Point(1, 0, 0), Point(2, 1, 0), Point(3, 2, 0)], version)
  }

  function Three(row: map<Key, Meta>, sequence: nat, catalog: set<Key>): Cluster {
    Cluster(AllRing(1), [0, 1, 2], map[0 := Node(Active, 0), 1 := Node(Active, 0), 2 := Node(Active, 0)],
            map[0 := map[], 1 := map[], 2 := map[]], map[0 := row, 1 := row, 2 := map[]], 1, sequence, 0, None, catalog)
  }

  function Graves(): map<Key, Meta> {
    map["a" := Meta(Version(1, 1, 0), true), "b" := Meta(Version(1, 2, 0), true)]
  }

  function Fresh(): Cluster {
    Three(map[], 0, {})
  }

  /** Both keys are deleted on two nodes; the third has failed softly. */
  function Deletions(): Cluster {
    Three(Graves(), 2, {"a", "b"})
  }

  lemma AllValid(version: nat)
    ensures AllRing(version).Valid() && Bisect(AllRing(version).points, 0) == 0
  {
    var ps := AllRing(version).points;
    assert ps[0] == Point(1, 0, 0) && ps[1] == Point(2, 1, 0) && ps[2] == Point(3, 2, 0);
    assert ps[0] in ps && ps[1] in ps && ps[2] in ps;
    BisectSplits(ps, 0);
  }

  lemma AllOwn(version: nat)
    ensures AllRing(version).Valid() && AllRing(version).Owners(0, 3) == [0, 1, 2]
  {
    var ring := AllRing(version);
    var ps := ring.points;
    AllValid(version);
    OwnersAreDistinctMembers(ring, 0, 3);
    assert |{0, 1, 2}| == 3;
    var walk := NodesOf(Clockwise(ps, 0));
    ClockwiseAt(ps, 0, 0);
    ClockwiseAt(ps, 0, 1);
    ClockwiseAt(ps, 0, 2);
    DedupSteps(walk);
  }

  lemma DedupSteps(walk: seq<NodeId>)
    requires walk == [0, 1, 2]
    ensures Dedup(walk) == [0, 1, 2]
  {
    assert walk[..2] == [0, 1] && walk[..2][..1] == [0] && walk[..2][..1][..0] == [];
    assert Dedup(walk[..2][..1]) == [0];
    assert Dedup(walk[..2]) == [0, 1];
  }

  lemma SelectThree(keep: set<NodeId>)
    ensures Select([0, 1, 2], keep) ==
      (if 0 in keep then [0] else []) + (if 1 in keep then [1] else []) + (if 2 in keep then [2] else [])
  {
    var all: seq<NodeId> := [0, 1, 2];
    assert all[..2] == [0, 1] && all[..2][..1] == [0];
    ClusterWitness.SelectOne(0, keep);
  }

  lemma Owned(c: Config, s: Cluster, k: Key)
    requires c == Triple() && s.ring == AllRing(s.ring.version)
    ensures Owners(c, s, k) == [0, 1, 2]
  {
    AllOwn(s.ring.version);
  }

  // ----- The delete -----

  /** A read of a key that nobody has changes nothing. */
  lemma ReadNothing(c: Config, s: Cluster, k: Key, up: set<NodeId>)
    requires Owners(c, s, k) == [0, 1, 2] && up == {0, 1, 2} && Latest(s, k).None?
    requires forall n :: MetaAt(s, n, k).None? && EntryAt(s, n, k).None?
    ensures Read(c, s, k, Majority, up, {}, {}) == (s, Ok(Miss))
  {
    assert up - {} == up;
    SelectThree(up);
    var asked: seq<NodeId> := [0, 1, 2];
    assert Select(asked, up) == asked;
    WinnerIsBest(s, asked, k);
  }

  lemma {:induction false} LatestNobody(md: map<NodeId, map<Key, Meta>>, ns: seq<NodeId>, k: Key)
    requires forall n | n in md :: k !in md[n]
    ensures LatestIn(md, ns, k) == None
  {
    if ns != [] { LatestNobody(md, ns[..|ns| - 1], k); }
  }

  lemma TwoKeys(c: Config, s: Cluster, t: Cluster, read: Reader, up: set<NodeId>)
    requires read(s, "a") == (s, Ok(Miss)) && read(s, "b") == (s, Ok(Miss))
    requires !Collectable(c, t, "a", up) && !Collectable(c, t, "b", up)
    ensures Rank(["a", "b"], "a") == 1 && Rank(["a", "b"], "b") == 2 && Unique(["a", "b"]) == ["a", "b"]
    ensures ReadEach(s, ["a", "b"], read) == (s, Ok(0)) && CollectAll(c, t, ["a", "b"], up) == t && CollectAll(c, s, [], up) == s
  {
    var two := ["a", "b"];
    assert two[..1] == ["a"] && two[..1][..0] == [];
    assert ReadEach(s, two[..1][..0], read) == (s, Ok(0));
    assert ReadEach(s, two[..1], read) == (s, Ok(0));
    assert CollectAll(c, t, two[..1][..0], up) == t;
    assert CollectAll(c, t, two[..1], up) == t;
    assert Unique(two[..1]) == ["a"];
  }

  /** Node 2 lacks the tombstones, so they cannot be collected. */
  lemma NotYetCollectable(c: Config, s: Cluster, k: Key, up: set<NodeId>)
    requires Owners(c, s, k) == [0, 1, 2] && MetaAt(s, 2, k).None?
    ensures !Collectable(c, s, k, up)
  {
    var n: NodeId := 2;
    assert n in Owners(c, s, k);
  }

  lemma Faulty(faults: Faults)
    requires faults == map[2 := Soft]
    ensures WithFault([0, 1, 2], faults, Fine) == {0, 1} && FaultOf(faults, 0) == Fine && FaultOf(faults, 1) == Fine
  {
  }

  lemma AllTakePart(c: Config, s: Cluster, up: set<NodeId>)
    requires c == Triple() && s.ring == AllRing(1) && up == {0, 1, 2}
    ensures Available(c, s, "a", up) == [0, 1, 2] && Available(c, s, "b", up) == [0, 1, 2]
    ensures Participants(c, s, ["a", "b"], up) == {0, 1, 2}
    ensures forall n | n in [0, 1, 2] :: KeysAt(c, s, ["a", "b"], up, n) == {"a", "b"}
  {
    Owned(c, s, "a");
    Owned(c, s, "b");
    SelectThree(up);
    forall n ensures n in Participants(c, s, ["a", "b"], up) <==> n in {0, 1, 2} {
      if n in {0, 1, 2} { assert "a" in ["a", "b"] && n in Available(c, s, "a", up); }
    }
    forall n | n in [0, 1, 2] ensures KeysAt(c, s, ["a", "b"], up, n) == {"a", "b"} {
    }
  }

  lemma GravesAre(s: Cluster, keys: seq<Key>)
    requires s == Fresh() && Rank(keys, "a") == 1 && Rank(keys, "b") == 2
    ensures ClusterBurial.Tombstoned(keys, {"a", "b"}, s.term, s.sequence, s.leader) == Graves()
  {
  }

  lemma RowOf(c: Config, s: Cluster, keys: seq<Key>, up: set<NodeId>, faults: Faults, n: NodeId)
    requires s == Fresh() && n in s.metadata && KeysAt(c, s, keys, up, n) == {"a", "b"}
    requires Rank(keys, "a") == 1 && Rank(keys, "b") == 2
    ensures ClusterBurial.RowShare(c, s, s, keys, up, faults, n) == if FaultOf(faults, n) == Fine then Graves() else map[]
  {
    GravesAre(s, keys);
    assert s.metadata[n] == map[];
  }

  lemma StoreOf(c: Config, s: Cluster, keys: seq<Key>, up: set<NodeId>, faults: Faults, n: NodeId)
    requires s == Fresh() && n in s.stores
    ensures ClusterBurial.StoreShare(c, s, s, keys, up, faults, n) == map[]
  {
    assert s.stores[n] == map[];
  }

  lemma BuriedRow(c: Config, s: Cluster, keys: seq<Key>, up: set<NodeId>, faults: Faults, n: NodeId)
    requires s == Fresh() && n in s.metadata && n in s.stores && n in Participants(c, s, keys, up)
    requires KeysAt(c, s, keys, up, n) == {"a", "b"} && Rank(keys, "a") == 1 && Rank(keys, "b") == 2
    ensures Bury(c, s, s, keys, up, faults).metadata[n] == if FaultOf(faults, n) == Fine then Graves() else map[]
    ensures Bury(c, s, s, keys, up, faults).stores[n] == map[]
  {
    ClusterBurial.BuryRow(c, s, s, keys, up, faults, n);
    ClusterBurial.BuryStore(c, s, s, keys, up, faults, n);
    RowOf(c, s, keys, up, faults, n);
    StoreOf(c, s, keys, up, faults, n);
  }

  lemma BuryShape(c: Config, s: Cluster, keys: seq<Key>, up: set<NodeId>, faults: Faults)
    ensures var b := Bury(c, s, s, keys, up, faults);
      b == s.(sequence := s.sequence + |keys|, catalog := s.catalog + (set k | k in keys), stores := b.stores, metadata := b.metadata)
      && b.stores.Keys == s.stores.Keys && b.metadata.Keys == s.metadata.Keys
  {
  }

  lemma MapOfThree<T>(m: map<NodeId, T>, t: map<NodeId, T>)
    requires m.Keys == {0, 1, 2} && t.Keys == {0, 1, 2} && m[0] == t[0] && m[1] == t[1] && m[2] == t[2]
    ensures m == t
  {
  }

  lemma BuriedNode(c: Config, s: Cluster, keys: seq<Key>, up: set<NodeId>, faults: Faults, n: NodeId)
    requires c == Triple() && s == Fresh() && up == {0, 1, 2} && keys == ["a", "b"] && faults == map[2 := Soft]
    requires Rank(keys, "a") == 1 && Rank(keys, "b") == 2 && n in [0, 1, 2]
    requires n in Bury(c, s, s, keys, up, faults).metadata && n in Bury(c, s, s, keys, up, faults).stores
    ensures Bury(c, s, s, keys, up, faults).metadata[n] == Deletions().metadata[n]
    ensures Bury(c, s, s, keys, up, faults).stores[n] == Deletions().stores[n]
  {
    AllTakePart(c, s, up);
    BuriedRow(c, s, keys, up, faults, n);
  }

  lemma BuriedMaps(c: Config, s: Cluster, keys: seq<Key>, up: set<NodeId>, faults: Faults, b: Cluster)
    requires c == Triple() && s == Fresh() && up == {0, 1, 2} && keys == ["a", "b"] && faults == map[2 := Soft]
    requires Rank(keys, "a") == 1 && Rank(keys, "b") == 2
    requires b == Bury(c, s, s, keys, up, faults) && b.metadata.Keys == {0, 1, 2} && b.stores.Keys == {0, 1, 2}
    ensures b.metadata == Deletions().metadata && b.stores == Deletions().stores
  {
    BuriedNode(c, s, keys, up, faults, 0);
    BuriedNode(c, s, keys, up, faults, 1);
    BuriedNode(c, s, keys, up, faults, 2);
    MapOfThree(b.metadata, Deletions().metadata);
    MapOfThree(b.stores, Deletions().stores);
  }

  lemma BuriedIs(c: Config, s: Cluster, keys: seq<Key>, up: set<NodeId>, faults: Faults)
    requires c == Triple() && s == Fresh() && up == {0, 1, 2} && keys == ["a", "b"] && faults == map[2 := Soft]
    requires Rank(keys, "a") == 1 && Rank(keys, "b") == 2
    ensures Bury(c, s, s, keys, up, faults) == Deletions()
  {
    BuryShape(c, s, keys, up, faults);
    BuriedMaps(c, s, keys, up, faults, Bury(c, s, s, keys, up, faults));
    assert s.catalog + (set k | k in keys) == {"a", "b"};
  }

  lemma DeleteChecks(c: Config, s: Cluster, keys: seq<Key>, up: set<NodeId>, faults: Faults)
    requires c == Triple() && s == Fresh() && up == {0, 1, 2} && keys == ["a", "b"] && faults == map[2 := Soft]
    ensures AllReachable(c, s, keys, Majority, up) && Tombstones(s) == {} && Risky(c, s, keys, up) == {}
    ensures !Aborts(c, s, keys, up, faults) && AllBuried(c, s, keys, Majority, up, faults)
  {
    Owned(c, s, "a");
    Owned(c, s, "b");
    AllTakePart(c, s, up);
    Faulty(faults);
    SelectThree({0, 1});
    assert Majority.Required(3) == 2;
  }

  lemma AtMostTwo(s: Cluster)
    requires s == Deletions()
    ensures |Tombstones(s)| <= 5
  {
    var t := Tombstones(s);
    assert t <= {"a", "b"};
    SetSize(t, {"a", "b"});
  }

  lemma {:induction false} SetSize(a: set<Key>, b: set<Key>)
    requires a <= b
    ensures |a| <= |b|
  {
    if a != {} {
      var x :| x in a;
      SetSize(a - {x}, b - {x});
    }
  }

  lemma DeleteBoth(c: Config, s: Cluster, keys: seq<Key>, up: set<NodeId>, faults: Faults)
    requires c == Triple() && s == Fresh() && up == {0, 1, 2} && keys == ["a", "b"] && faults == map[2 := Soft]
    ensures DeleteKeys(c, s, keys, Majority, [], up, faults, {}, {}) == (Deletions(), Ok(0)) && Unique(keys) == keys
  {
    Owned(c, s, "a");
    Owned(c, s, "b");
    LatestNobody(s.metadata, s.order, "a");
    LatestNobody(s.metadata, s.order, "b");
    ReadNothing(c, s, "a", up);
    ReadNothing(c, s, "b", up);
    var t := Deletions();
    Owned(c, t, "a");
    Owned(c, t, "b");
    NotYetCollectable(c, t, "a", up);
    NotYetCollectable(c, t, "b", up);
    TwoKeys(c, s, t, ReaderOf(c, Majority, up, {}, {}), up);
    BuriedIs(c, s, keys, up, faults);
    DeleteChecks(c, s, keys, up, faults);
    AtMostTwo(t);
    ClusterWitness.DeletePasses(c, s, keys, [], up, faults, 0);
  }

  lemma DeleteStep(c: Config, s: Cluster)
    requires c == Triple() && s == Fresh()
    ensures Delete(c, s, ["a", "b"], Majority, None, [], map[2 := Soft], {}, {}, 0) == (Deletions(), Ok(0))
  {
    ClusterWitness.Quiet(c, s);
    var up := Up(c, s, 0);
    assert up == {0, 1, 2};
    DeleteBoth(c, s, ["a", "b"], up, map[2 := Soft]);
  }

  // ----- The rebalance -----

  /** The plan that brings node 2 up to date. */
  function CatchUp(): Plan {
    Plan(Fence(1, 0), 1, AllRing(2), [Move("a", 0, 2), Move("b", 0, 2)], [], [])
  }

  lemma LatestOfThree(md: map<NodeId, map<Key, Meta>>, k: Key)
    requires 0 in md && 1 in md && k in md[0] && k in md[1] && md[0][k] == md[1][k]
    requires 2 in md && k in md[2] ==> md[2][k] == md[0][k]
    ensures LatestIn(md, [0, 1, 2], k) == Some(md[0][k])
  {
    var order: seq<NodeId> := [0, 1, 2];
    assert order[..2] == [0, 1] && order[..2][..1] == [0] && order[..2][..1][..0] == [];
    assert LatestIn(md, order[..2][..1][..0], k) == None;
    assert LatestIn(md, order[..2][..1], k) == Some(md[0][k]);
    assert LatestIn(md, order[..2], k) == Some(md[0][k]);
  }

  lemma CatchUpMembers(s: Cluster)
    requires s == Deletions()
    ensures WithStatus(s, Joining) == {} && WithStatus(s, Removing) == {} && WithStatus(s, Draining) == {}
  {
  }

  lemma BothHold(s: Cluster, n: NodeId, k: Key)
    requires s == Deletions() && (k == "a" || k == "b") && (n == 0 || n == 1)
    ensures HoldsLatest(s, n, k)
  {
    LatestOfThree(s.metadata, k);
  }

  lemma PlannedThree(c: Config, s: Cluster, plan: Plan, k: Key)
    requires OwnersOn(c, plan.target, k) == [0, 1, 2] && Owners(c, s, k) == [0, 1, 2]
    requires HoldsLatest(s, 0, k) && HoldsLatest(s, 1, k) && Planned(plan.moves, k, 2)
    ensures AllPlanned(c, s, plan, k)
  {
  }

  lemma KeyPlanned(c: Config, s: Cluster, plan: Plan, k: Key)
    requires c == Triple() && s == Deletions() && plan == CatchUp() && (k == "a" || k == "b")
    ensures AllPlanned(c, s, plan, k)
  {
    AllOwn(2);
    Owned(c, s, k);
    BothHold(s, 0, k);
    BothHold(s, 1, k);
    assert plan.moves[0] in plan.moves && plan.moves[1] in plan.moves;
    PlannedThree(c, s, plan, k);
  }

  lemma MovesFit(c: Config, s: Cluster, m: Move)
    requires c == Triple() && s == Deletions() && m in CatchUp().moves
    ensures MoveFits(c, s, AllRing(2), m)
  {
    AllOwn(2);
    Owned(c, s, m.key);
  }

  lemma CatchUpFits(c: Config, s: Cluster, plan: Plan)
    requires c == Triple() && s == Deletions() && plan == CatchUp()
    ensures Fits(c, s, plan)
  {
    AllValid(2);
    CatchUpMembers(s);
    forall m | m in plan.moves ensures MoveFits(c, s, plan.target, m) {
      MovesFit(c, s, m);
    }
    forall k | k in s.catalog ensures AllPlanned(c, s, plan, k) {
      KeyPlanned(c, s, plan, k);
    }
  }

  function First(): Move {
    Move("a", 0, 2)
  }

  /** Every owner is up and has the tombstone of "a", or is sent it by the first move. */
  lemma FirstCollects(c: Config, s: Cluster, done: seq<Move>)
    requires c == Triple() && s == Deletions() && done == [First()]
    ensures Collected(c, s, done, 0, "a") && !AllCovered(c, s, done, 0)
  {
    ClusterWitness.Quiet(c, s);
    Owned(c, s, "a");
    LatestOfThree(s.metadata, "a");
    BothHold(s, 0, "a");
    BothHold(s, 1, "a");
    assert done[0] in done;
    forall n | n in Owners(c, s, "a") ensures n in Up(c, s, 0) && Reached(s, done, n, "a") {
    }
  }

  lemma FirstMoves(c: Config, s: Cluster)
    requires c == Triple() && s == Deletions()
    ensures RunMove(c, s, First(), false, 0).1
  {
    ClusterWitness.Quiet(c, s);
    LatestOfThree(s.metadata, "a");
    SnapshotIs(s, First());
    var snap := TakeSnapshot(s, 0, ["a"]);
    assert Streamed(s, First()) == Record("a", Version(1, 1, 0), true, None);
    assert snap.records == [Streamed(s, First())];
    assert forall r | r in snap.records :: BoundToFence(r, snap.fence);
  }

  /** An installation that is tried and raises. */
  lemma MoveRaises(c: Config, s: Cluster, m: Move, now: int)
    requires Lands(s, m)
    ensures !RunMove(c, s, m, true, now).1
  {
    if CanMove(c, s, m, now) {
      SnapshotIs(s, m);
      assert Streamed(s, m) in TakeSnapshot(s, m.source, [m.key]).records;
    }
  }

  lemma SecondLands(s: Cluster, u: Cluster)
    requires s == Deletions() && SameKey(s, u, "b") && u.order == s.order
    ensures Lands(u, Move("b", 0, 2))
  {
    SameKeyLatest(s, u, s.order, "b");
    LatestOfThree(s.metadata, "b");
    assert MetaAt(u, 0, "b") == MetaAt(s, 0, "b") && MetaAt(u, 2, "b") == MetaAt(s, 2, "b") && EntryAt(u, 0, "b") == EntryAt(s, 0, "b");
  }

  /** The second move finds its record acceptable, so its installation is tried and raises. */
  lemma SecondFails(c: Config, s: Cluster, u: Cluster)
    requires c == Triple() && s == Deletions() && u == RunMove(c, s, First(), false, 0).0
    ensures !RunMove(c, u, Move("b", 0, 2), true, 0).1
  {
    Sound(c, s);
    MoveElsewhere(c, s, First(), false, 0, "b");
    MoveFrame(c, s, First(), false, 0);
    SecondLands(s, u);
    MoveRaises(c, u, Move("b", 0, 2), 0);
  }

  lemma Sound(c: Config, s: Cluster)
    requires c == Triple() && (s == Deletions() || s == Fresh())
    ensures WellFormed(c, s) && LeaversAreMembers(s)
  {
    AllValid(1);
  }

  lemma OneOfTwo(c: Config, s: Cluster, moves: seq<Move>, broken: set<nat>, u: Cluster)
    requires |moves| == 2 && RunMove(c, s, moves[0], 0 in broken, 0) == (u, true) && !RunMove(c, u, moves[1], 1 in broken, 0).1
    ensures !RunMoves(c, s, moves, broken, 0).1 && Completes(c, s, moves, broken, 0, 1)
  {
    assert moves[..0] == [] && moves[..2] == moves;
    RunNext(c, s, moves, broken, 0, 0);
    RunNext(c, s, moves, broken, 0, 1);
  }

  lemma MovesFail(c: Config, s: Cluster, moves: seq<Move>, broken: set<nat>)
    requires c == Triple() && s == Deletions() && moves == [First(), Move("b", 0, 2)] && broken == {1}
    ensures !RunMoves(c, s, moves, broken, 0).1 && Completes(c, s, moves, broken, 0, 1)
  {
    FirstMoves(c, s);
    var u := RunMove(c, s, First(), false, 0).0;
    SecondFails(c, s, u);
    OneOfTwo(c, s, moves, broken, u);
  }

  lemma StopsInMoves(c: Config, s: Cluster, plan: Plan, sweep: seq<Key>, broken: set<nat>)
    requires Detect(c, s, 0) == s && Starts(c, s, plan) && !RunMoves(c, s, plan.moves, broken, 0).1
    ensures Rebalance(c, s, plan, sweep, broken, {}, 0).1.Err?
  {
  }

  lemma CatchUpStops(c: Config, s: Cluster, plan: Plan, sweep: seq<Key>, broken: set<nat>)
    requires c == Triple() && s == Deletions() && plan == CatchUp() && broken == {1}
    ensures Detect(c, s, 0) == s && Starts(c, s, plan)
    ensures Completes(c, s, plan.moves, broken, 0, 1) && Rebalance(c, s, plan, sweep, broken, {}, 0).1.Err?
  {
    ClusterWitness.Quiet(c, s);
    CatchUpFits(c, s, plan);
    MovesFail(c, s, plan.moves, broken);
    StopsInMoves(c, s, plan, sweep, broken);
  }

  lemma FirstIs(plan: Plan)
    requires plan == CatchUp()
    ensures plan.moves[..1] == [First()]
  {
  }

  lemma CatchUpFails(c: Config, s: Cluster, h: History, plan: Plan, sweep: seq<Key>, broken: set<nat>)
    requires c == Triple() && s == Deletions() && Inv(c, s, h) && plan == CatchUp() && broken == {1}
    ensures var (t, r) := Rebalance(c, s, plan, sweep, broken, {}, 0);
      r.Err? && "a" !in t.catalog && t.watermark.Some? && MetaAt(t, 0, "a") == MetaAt(s, 0, "a")
  {
    CatchUpStops(c, s, plan, sweep, broken);
    FirstIs(plan);
    FirstCollects(c, s, [First()]);
    WhatIsLost(c, s, h, plan, sweep, broken);
  }

  lemma WhatIsLost(c: Config, s: Cluster, h: History, plan: Plan, sweep: seq<Key>, broken: set<nat>)
    requires Inv(c, s, h) && Detect(c, s, 0) == s && Starts(c, s, plan) && 0 in s.ring.nodes
    requires Rebalance(c, s, plan, sweep, broken, {}, 0).1.Err? && s.watermark.None?
    requires Completes(c, s, plan.moves, broken, 0, 1)
    requires Collected(c, s, plan.moves[..1], 0, "a") && !AllCovered(c, s, plan.moves[..1], 0)
    ensures var t := Rebalance(c, s, plan, sweep, broken, {}, 0).0;
      "a" !in t.catalog && t.watermark.Some? && MetaAt(t, 0, "a") == MetaAt(s, 0, "a")
  {
    FailureForgets(c, s, h, plan, sweep, broken, {}, 0, 1, "a");
    FailedRebalance(c, s, plan, sweep, broken, {}, 0, 0, "a");
  }

  // ----- The run -----

  lemma RunTwo(c: Config, w: World, a: Op, b: Op)
    ensures Run(c, w, [a]) == Next(c, w, a) && Run(c, w, [a, b]) == Next(c, Next(c, w, a), b)
  {
    assert [a][..0] == [] && [a, b][..1] == [a];
    assert Run(c, w, []) == w;
  }

  lemma DeletesNext(c: Config, w: World, op: Op)
    requires c == Triple() && w == World(Fresh(), [], [])
    requires op == DeleteOp(["a", "b"], Majority, None, [], map[2 := Soft], {}, {}, 0)
    ensures Next(c, w, op).s == Deletions()
  {
    DeleteStep(c, w.s);
  }

  lemma CatchUpNext(c: Config, w: World, op: Op)
    requires c == Triple() && w.s == Deletions() && Inv(c, w.s, w.h)
    requires op == RebalanceOp(CatchUp(), ["a", "b"], {1}, {}, 0)
    ensures var t := Next(c, w, op).s;
      !SucceedingRebalance(c, w, op) && "a" !in t.catalog && t.watermark.Some? && MetaAt(t, 0, "a") == MetaAt(w.s, 0, "a")
  {
    CatchUpFails(c, w.s, w.h, op.plan, op.sweep, op.failing);
  }

  lemma FreshIsInit(c: Config, w: World)
    requires c == Triple() && w == World(Fresh(), [], [])
    ensures Init(c, w)
  {
    Sound(c, w.s);
  }

  lemma DeletesGood(c: Config, w: World, op: Op)
    requires c == Triple() && w == World(Fresh(), [], []) && op.DeleteOp?
    ensures Inv(c, Next(c, w, op).s, Next(c, w, op).h)
  {
    FreshIsInit(c, w);
    InitGood(c, w);
    NextKeeps(c, w, op);
  }

  lemma BeforeCatchUp(s: Cluster)
    requires s == Deletions()
    ensures "a" in s.catalog && s.watermark.None? && MetaAt(s, 0, "a") == Some(Meta(Version(1, 1, 0), true))
  {
  }

  lemma ForgettingRun(c: Config, w0: World, first: Op, rebalance: Op)
    requires c == Triple() && w0 == World(Fresh(), [], [])
    requires first == DeleteOp(["a", "b"], Majority, None, [], map[2 := Soft], {}, {}, 0)
    requires rebalance == RebalanceOp(CatchUp(), ["a", "b"], {1}, {}, 0)
    ensures var w, t := Run(c, w0, [first]), Run(c, w0, [first, rebalance]).s;
      && !SucceedingRebalance(c, w, rebalance) && w.s == Deletions()
      && "a" !in t.catalog && t.watermark.Some? && MetaAt(t, 0, "a") == MetaAt(w.s, 0, "a")
  {
    DeletesNext(c, w0, first);
    DeletesGood(c, w0, first);
    RunTwo(c, w0, first, rebalance);
    CatchUpNext(c, Next(c, w0, first), rebalance);
  }

  /**
   A failed rebalance can forget a tombstone: "a" is catalogued and nothing collected yet
   before it; afterwards node 0 has the tombstone of "a" as before, but the catalogue has
   lost "a" and the watermark says that it was collected.
   */
  lemma FailureForgetsTombstone() returns (c: Config, w0: World, first: Op, rebalance: Op)
    ensures Init(c, w0) && rebalance.RebalanceOp? && !SucceedingRebalance(c, Run(c, w0, [first]), rebalance)
    ensures var s, t := Run(c, w0, [first]).s, Run(c, w0, [first, rebalance]).s;
      && "a" in s.catalog && s.watermark.None? && "a" !in t.catalog && t.watermark.Some?
      && MetaAt(s, 0, "a") == MetaAt(t, 0, "a") == Some(Meta(Version(1, 1, 0), true))
  {
    c, w0 := Triple(), World(Fresh(), [], []);
    first := DeleteOp(["a", "b"], Majority, None, [], map[2 := Soft], {}, {}, 0);
    rebalance := RebalanceOp(CatchUp(), ["a", "b"], {1}, {}, 0);
    FreshIsInit(c, w0);
    ForgettingRun(c, w0, first, rebalance);
    BeforeCatchUp(Deletions());
  }
}
