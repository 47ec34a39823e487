/**
 A rebalance that fails.  Stores, metadata, statuses and the ring are put back; the
 catalogue and the collection watermark keep what the completed moves did to them.
 */
module ClusterUndo {
  import opened HashRing
  import opened ClusterModel
  import opened ClusterInvariant
  import opened ClusterSteps
  import opened ClusterRebalance
  import opened ClusterMoves
  import opened ClusterSwitch
  import opened ClusterCollected

  // ----- Nodes and keys that the moves leave alone -----

  /** Outside `affected`, moves from `s` to `x` only drop metadata of `k`, and only behind a watermark. */
  ghost predicate Outside(s: Cluster, x: Cluster, affected: set<NodeId>, k: Key) {
    forall n | n !in affected :: OutsideCell(s, x, n, k)
  }

  predicate OutsideCell(s: Cluster, x: Cluster, n: NodeId, k: Key) {
    EntryAt(x, n, k) == EntryAt(s, n, k)
    && (MetaAt(x, n, k) == MetaAt(s, n, k) || (MetaAt(x, n, k).None? && x.watermark.Some?))
  }

  lemma MoveOutside(c: Config, s: Cluster, u: Cluster, m: Move, fails: bool, now: int, affected: set<NodeId>, k: Key)
    requires WellFormed(c, u) && Outside(s, u, affected, k) && m.target in affected
    ensures Outside(s, RunMove(c, u, m, fails, now).0, affected, k)
  {
    var t := RunMove(c, u, m, fails, now).0;
    MoveCatalog(c, u, m, fails, now);
    forall n | n !in affected ensures OutsideCell(s, t, n, k) {
      assert OutsideCell(s, u, n, k);
      MoveCell(c, u, m, fails, now, n, k);
      LandedCell(u, m, n, k);
    }
  }

  lemma {:induction false} MovesOutside(c: Config, s: Cluster, moves: seq<Move>, broken: set<nat>, now: int, affected: set<NodeId>, k: Key)
    requires WellFormed(c, s) && forall m | m in moves :: m.target in affected
    ensures Outside(s, RunMoves(c, s, moves, broken, now).0, affected, k)
  {
    if moves != [] {
      var init, m := moves[..|moves| - 1], moves[|moves| - 1];
      assert m in moves && forall x | x in init :: x in moves;
      MovesOutside(c, s, init, broken, now, affected, k);
      MovesFrame(c, s, init, broken, now);
      var u := RunMoves(c, s, init, broken, now).0;
      FrameWellFormed(c, s, u);
      MoveOutside(c, s, u, m, |moves| - 1 in broken, now, affected, k);
    }
  }

  /** Some node of `members` has the newest version of `k`. */
  ghost predicate KeptBy(s: Cluster, members: set<NodeId>, k: Key) {
    Latest(s, k).Some? && exists n :: n in members && Holds(s, n, k, Latest(s, k).value.version)
  }

  lemma MoveSource(c: Config, s: Cluster, u: Cluster, m: Move, fails: bool, now: int, members: set<NodeId>, k: Key)
    requires WellFormed(c, u) && s.order == u.order && (SameKey(s, u, k) || KeptBy(s, members, k)) && m.source in members
    ensures SameKey(s, RunMove(c, u, m, fails, now).0, k) || KeptBy(s, members, k)
  {
    if SameKey(s, u, k) {
      if m.key != k || !CanMove(c, u, m, now) {
        if m.key != k { MoveElsewhere(c, u, m, fails, now, k); }
        SameKeyTrans(s, u, RunMove(c, u, m, fails, now).0, k);
      } else {
        SameKeyLatest(s, u, s.order, k);
        assert MetaAt(u, m.source, k) == MetaAt(s, m.source, k);
        assert Holds(s, m.source, k, Latest(s, k).value.version);
      }
    }
  }

  /** A key either keeps all its cells, or a source among `members` had its newest version at the start. */
  lemma {:induction false} MovesSource(c: Config, s: Cluster, moves: seq<Move>, broken: set<nat>, now: int, members: set<NodeId>, k: Key)
    requires WellFormed(c, s) && forall m | m in moves :: m.source in members
    ensures SameKey(s, RunMoves(c, s, moves, broken, now).0, k) || KeptBy(s, members, k)
  {
    if moves != [] {
      var init, m := moves[..|moves| - 1], moves[|moves| - 1];
      assert m in moves && forall x | x in init :: x in moves;
      MovesSource(c, s, init, broken, now, members, k);
      MovesFrame(c, s, init, broken, now);
      var u := RunMoves(c, s, init, broken, now).0;
      FrameWellFormed(c, s, u);
      MoveSource(c, s, u, m, |moves| - 1 in broken, now, members, k);
    }
  }

  // ----- Putting back -----

  lemma UndoneCell(c: Config, s: Cluster, x: Cluster, affected: set<NodeId>, n: NodeId, k: Key)
    requires WellFormed(c, s) && SameShape(s, x)
    ensures var t := Undone(s, x, affected);
      if n in affected then MetaAt(t, n, k) == MetaAt(s, n, k) && EntryAt(t, n, k) == EntryAt(s, n, k)
      else MetaAt(t, n, k) == MetaAt(x, n, k) && EntryAt(t, n, k) == EntryAt(x, n, k)
  {
  }

  lemma UndoneShape(c: Config, s: Cluster, x: Cluster, affected: set<NodeId>)
    requires WellFormed(c, s) && SameFrame(s, x)
    ensures var t := Undone(s, x, affected); SameFrame(s, t) && WellFormed(c, t) && t.watermark == x.watermark && t.catalog == x.catalog
  {
    var t := Undone(s, x, affected);
    forall n | n in s.nodes ensures t.nodes[n] == s.nodes[n] {
    }
    assert t.nodes == s.nodes;
  }

  lemma UndoneCellOk(c: Config, s: Cluster, x: Cluster, h: History, affected: set<NodeId>, k: Key, n: NodeId)
    requires WellFormed(c, s) && SameFrame(s, x) && s.ring.nodes <= affected && Outside(s, x, affected, k)
    requires KeyOk(c, s, h, k)
    ensures CellOk(c, Undone(s, x, affected), h, k, n)
  {
    assert CellOk(c, s, h, k, n);
    UndoneCell(c, s, x, affected, n, k);
    OwnersAreDistinctMembers(s.ring, c.token(k), c.replicas);
    if n !in affected { assert OutsideCell(s, x, n, k); }
  }

  /** The newest version of a key that some member had is there again. */
  lemma UndoneNewest(c: Config, s: Cluster, x: Cluster, h: History, affected: set<NodeId>, k: Key)
    requires WellFormed(c, s) && SameFrame(s, x) && s.ring.nodes <= affected && Outside(s, x, affected, k)
    requires Chain(h, s) && KeyOk(c, s, h, k) && KeptBy(s, s.ring.nodes, k)
    ensures Newest(Undone(s, x, affected), h, k)
    ensures QuorumOk(c, s, h, k) ==> QuorumOk(c, Undone(s, x, affected), h, k)
  {
    var t := Undone(s, x, affected);
    LatestIsLast(c, s, h, k);
    var v := Last(h, k).value.version;
    var n :| n in s.ring.nodes && Holds(s, n, k, Latest(s, k).value.version);
    UndoneCell(c, s, x, affected, n, k);
    assert Holds(t, n, k, v);
    assert !Vacant(s, k) by { assert MetaAt(s, n, k).Some?; }
    OwnersAreDistinctMembers(s.ring, c.token(k), c.replicas);
    forall o | o in Owners(c, s, k) && o in Holders(s, k, v) ensures o in Holders(t, k, v) {
      UndoneCell(c, s, x, affected, o, k);
    }
    SelectMono(Owners(c, s, k), Holders(s, k, v), Holders(t, k, v));
  }

  lemma UndoneSame(c: Config, s: Cluster, x: Cluster, affected: set<NodeId>, k: Key)
    requires WellFormed(c, s) && SameShape(s, x) && SameKey(s, x, k)
    ensures SameKey(s, Undone(s, x, affected), k)
  {
    var t := Undone(s, x, affected);
    forall n ensures MetaAt(s, n, k) == MetaAt(t, n, k) && EntryAt(s, n, k) == EntryAt(t, n, k) {
      UndoneCell(c, s, x, affected, n, k);
      assert MetaAt(s, n, k) == MetaAt(x, n, k) && EntryAt(s, n, k) == EntryAt(x, n, k);
    }
  }

  lemma UndoneKey(c: Config, s: Cluster, x: Cluster, h: History, affected: set<NodeId>, k: Key)
    requires WellFormed(c, s) && SameFrame(s, x) && s.ring.nodes <= affected && Outside(s, x, affected, k)
    requires Chain(h, s) && KeyOk(c, s, h, k) && (SameKey(s, x, k) || KeptBy(s, s.ring.nodes, k))
    ensures KeyOk(c, Undone(s, x, affected), h, k)
    ensures QuorumOk(c, s, h, k) ==> QuorumOk(c, Undone(s, x, affected), h, k)
  {
    var t := Undone(s, x, affected);
    UndoneShape(c, s, x, affected);
    if SameKey(s, x, k) {
      UndoneSame(c, s, x, affected, k);
      FrameKey(c, s, t, h, h, k);
    } else {
      UndoneNewest(c, s, x, h, affected, k);
      forall n ensures CellOk(c, t, h, k, n) {
        UndoneCellOk(c, s, x, h, affected, k, n);
      }
    }
  }

  lemma AffectedCovers(c: Config, s: Cluster, plan: Plan)
    requires WellFormed(c, s) && Fits(c, s, plan)
    ensures s.ring.nodes <= Affected(s.ring.nodes, plan)
    ensures forall m | m in plan.moves :: m.target in Affected(s.ring.nodes, plan) && m.source in s.ring.nodes
  {
    forall m | m in plan.moves ensures m.target in Affected(s.ring.nodes, plan) && m.source in s.ring.nodes {
      assert MoveFits(c, s, plan.target, m);
      OwnersAreDistinctMembers(s.ring, c.token(m.key), c.replicas);
    }
  }

  /** A rebalance that fails keeps both invariants, whatever its completed moves collected. */
  lemma FailureKeeps(c: Config, s: Cluster, h: History, plan: Plan, broken: set<nat>, now: int)
    requires Inv(c, s, h) && Fits(c, s, plan)
    ensures var t := Undone(s, RunMoves(c, s, plan.moves, broken, now).0, Affected(s.ring.nodes, plan));
      && Inv(c, t, h) && (QuorumInv(c, s, h) ==> QuorumInv(c, t, h)) && SameFrame(s, t)
  {
    var affected, x := Affected(s.ring.nodes, plan), RunMoves(c, s, plan.moves, broken, now).0;
    var t := Undone(s, x, affected);
    AffectedCovers(c, s, plan);
    MovesFrame(c, s, plan.moves, broken, now);
    MovesKeep(c, s, h, plan.moves, broken, now);
    UndoneShape(c, s, x, affected);
    forall k
      ensures KeyOk(c, t, h, k)
      ensures QuorumOk(c, s, h, k) ==> QuorumOk(c, t, h, k)
    {
      assert KeyOk(c, s, h, k);
      MovesOutside(c, s, plan.moves, broken, now, affected, k);
      MovesSource(c, s, plan.moves, broken, now, s.ring.nodes, k);
      UndoneKey(c, s, x, h, affected, k);
    }
    assert t.nodes == s.nodes;
  }

  // ----- What a failure does not put back -----

  /** The plan passes the checks that come before the checkpoints. */
  predicate Starts(c: Config, s: Cluster, plan: Plan) {
    plan.fence == Fence(s.term, s.leader) && plan.baseVersion == s.ring.version && Fits(c, s, plan)
  }

  lemma UndoneStatus(c: Config, s: Cluster, m: Cluster, plan: Plan, n: NodeId)
    requires LeaversAreMembers(s) && Fits(c, s, plan) && m.nodes == s.nodes && n in s.nodes
    ensures n in Undone(s, Switch(m, plan), Affected(s.ring.nodes, plan)).nodes
    ensures Undone(s, Switch(m, plan), Affected(s.ring.nodes, plan)).nodes[n] == s.nodes[n]
  {
    SwitchStatus(c, s, m, plan, n);
    assert n in WithStatus(s, Joining) ==> n in (set x | x in plan.joining);
  }

  lemma SwitchKeys(m: Cluster, plan: Plan)
    ensures Switch(m, plan).nodes.Keys == m.nodes.Keys
  {
    ActivatedKeys(m.nodes, plan.joining);
    DepartedKeys(Activated(m.nodes, plan.joining), plan.departing);
  }

  /** The switch changes the statuses of joining and leaving nodes only, and those are put back. */
  lemma UndoneSwitch(c: Config, s: Cluster, m: Cluster, plan: Plan)
    requires WellFormed(c, s) && LeaversAreMembers(s) && Fits(c, s, plan) && SameShape(s, m)
    ensures Undone(s, Switch(m, plan), Affected(s.ring.nodes, plan)) == Undone(s, m, Affected(s.ring.nodes, plan))
  {
    var affected := Affected(s.ring.nodes, plan);
    var x, y := Undone(s, Switch(m, plan), affected), Undone(s, m, affected);
    SwitchKeys(m, plan);
    assert x.nodes.Keys == s.nodes.Keys && y.nodes.Keys == s.nodes.Keys;
    forall n | n in s.nodes ensures x.nodes[n] == y.nodes[n] {
      UndoneStatus(c, s, m, plan, n);
    }
    assert x.nodes == y.nodes;
  }

  lemma FailureIs(c: Config, s: Cluster, plan: Plan, sweep: seq<Key>, broken: set<nat>, stuck: set<NodeId>, now: int)
    requires WellFormed(c, s) && LeaversAreMembers(s)
    ensures var (s1, (t, r)) := (Detect(c, s, now), Rebalance(c, s, plan, sweep, broken, stuck, now));
      r.Err? ==> t == if Starts(c, s1, plan) then Undone(s1, RunMoves(c, s1, plan.moves, broken, now).0, Affected(s1.ring.nodes, plan))
                      else s1
  {
    var s1 := Detect(c, s, now);
    DetectIsControl(c, s, now);
    if Starts(c, s1, plan) {
      DetectedMembers(c, s, now);
      MovesFrame(c, s1, plan.moves, broken, now);
      UndoneSwitch(c, s1, RunMoves(c, s1, plan.moves, broken, now).0, plan);
    }
  }

  lemma DetectedMembers(c: Config, s: Cluster, now: int)
    requires WellFormed(c, s) && LeaversAreMembers(s)
    ensures WellFormed(c, Detect(c, s, now)) && LeaversAreMembers(Detect(c, s, now))
  {
  }

  /**
   A failed rebalance leaves ring, statuses, leadership and sequence as failure detection
   left them, and the store, metadata and status of every affected node.  A node outside
   may lose metadata of a collected key; the catalogue may shrink, the watermark rise.
   */
  lemma FailedRebalance(c: Config, s: Cluster, plan: Plan, sweep: seq<Key>, broken: set<nat>, stuck: set<NodeId>, now: int,
                        n: NodeId, k: Key)
    requires WellFormed(c, s) && LeaversAreMembers(s) && n in s.nodes && Rebalance(c, s, plan, sweep, broken, stuck, now).1.Err?
    ensures var (s1, t) := (Detect(c, s, now), Rebalance(c, s, plan, sweep, broken, stuck, now).0);
      && SameFrame(s1, t)
      && t.stores[n] == s1.stores[n]
      && (n in Affected(s1.ring.nodes, plan) ==> NodeAsBefore(s1, t, n))
      && (MetaAt(t, n, k) == MetaAt(s1, n, k) || (MetaAt(t, n, k).None? && t.watermark.Some?))
  {
    var s1 := Detect(c, s, now);
    FailureIs(c, s, plan, sweep, broken, stuck, now);
    if Starts(c, s1, plan) {
      FailedMoves(c, s1, plan, broken, now, n, k);
    }
  }

  lemma FailedMoves(c: Config, s: Cluster, plan: Plan, broken: set<nat>, now: int, n: NodeId, k: Key)
    requires WellFormed(c, s) && n in s.nodes && Fits(c, s, plan)
    ensures var t := Undone(s, RunMoves(c, s, plan.moves, broken, now).0, Affected(s.ring.nodes, plan));
      && SameFrame(s, t) && t.stores[n] == s.stores[n] && (n in Affected(s.ring.nodes, plan) ==> NodeAsBefore(s, t, n))
      && (MetaAt(t, n, k) == MetaAt(s, n, k) || (MetaAt(t, n, k).None? && t.watermark.Some?))
  {
    var x, affected := RunMoves(c, s, plan.moves, broken, now).0, Affected(s.ring.nodes, plan);
    AffectedCovers(c, s, plan);
    MovesFrame(c, s, plan.moves, broken, now);
    UndoneShape(c, s, x, affected);
    if n !in affected {
      MovesOutside(c, s, plan.moves, broken, now, affected, k);
      MovesStores(c, s, plan.moves, broken, now, affected, n);
      assert OutsideCell(s, x, n, k);
    }
    UndoneCell(c, s, x, affected, n, k);
    UndoneNode(c, s, x, affected, n);
  }

  lemma {:induction false} MovesStores(c: Config, s: Cluster, moves: seq<Move>, broken: set<nat>, now: int, affected: set<NodeId>, n: NodeId)
    requires WellFormed(c, s) && n in s.nodes && n !in affected && forall m | m in moves :: m.target in affected
    ensures var x := RunMoves(c, s, moves, broken, now).0; n in x.stores && x.stores[n] == s.stores[n]
  {
    if moves != [] {
      var init, m := moves[..|moves| - 1], moves[|moves| - 1];
      assert m in moves && forall x | x in init :: x in moves;
      MovesStores(c, s, init, broken, now, affected, n);
      MoveStore(c, RunMoves(c, s, init, broken, now).0, m, |moves| - 1 in broken, now, n);
    }
  }

  lemma MoveStore(c: Config, s: Cluster, m: Move, fails: bool, now: int, n: NodeId)
    requires n in s.stores && n != m.target
    ensures var t := RunMove(c, s, m, fails, now).0; n in t.stores && t.stores[n] == s.stores[n]
  {
    MoveIs(c, s, m, fails, now);
  }

  lemma UndoneNode(c: Config, s: Cluster, x: Cluster, affected: set<NodeId>, n: NodeId)
    requires WellFormed(c, s) && SameFrame(s, x) && n in s.nodes
    requires n !in affected ==> x.stores[n] == s.stores[n]
    ensures var t := Undone(s, x, affected);
      t.stores[n] == s.stores[n] && (n in affected ==> NodeAsBefore(s, t, n))
  {
  }

  /**
   What a failure loses, told from the state in which the rebalance started, when the first
   `i` moves were made: the catalogue loses the keys of these moves whose newest version is
   a tombstone that every owner, being up, has or is sent by them; and the watermark stays
   exactly if it covers all these tombstones.
   */
  lemma FailureForgets(c: Config, s: Cluster, h: History, plan: Plan, sweep: seq<Key>, broken: set<nat>, stuck: set<NodeId>, now: int,
                       i: nat, k: Key)
    requires Inv(c, s, h) && Rebalance(c, s, plan, sweep, broken, stuck, now).1.Err? && Starts(c, Detect(c, s, now), plan)
    requires Completes(c, Detect(c, s, now), plan.moves, broken, now, i)
    ensures var (s1, t) := (Detect(c, s, now), Rebalance(c, s, plan, sweep, broken, stuck, now).0);
      && (k in t.catalog <==> k in s1.catalog && !Collected(c, s1, plan.moves[..i], now, k))
      && (t.watermark == s1.watermark <==> AllCovered(c, s1, plan.moves[..i], now))
  {
    var s1 := Detect(c, s, now);
    DetectIsControl(c, s, now);
    ControlStepKeeps(c, s, s1, h);
    FailureIs(c, s, plan, sweep, broken, stuck, now);
    CompletedState(c, s1, plan.moves, broken, now, i);
    MovesTrack(c, s1, h, plan.moves[..i], broken, now, k);
    MovesWatermark(c, s1, h, plan.moves[..i], broken, now);
  }

  /** So a failed rebalance that had no tombstone to move puts everything back. */
  lemma FailureForgetsNothing(c: Config, s: Cluster, h: History, plan: Plan, sweep: seq<Key>, broken: set<nat>, stuck: set<NodeId>, now: int)
    requires Inv(c, s, h) && Rebalance(c, s, plan, sweep, broken, stuck, now).1.Err?
    requires forall m | m in plan.moves :: !Tombstone(Detect(c, s, now), m.key)
    ensures var (s1, t) := (Detect(c, s, now), Rebalance(c, s, plan, sweep, broken, stuck, now).0);
      t.catalog == s1.catalog && t.watermark == s1.watermark
  {
    var s1, t := Detect(c, s, now), Rebalance(c, s, plan, sweep, broken, stuck, now).0;
    DetectIsControl(c, s, now);
    FailureIs(c, s, plan, sweep, broken, stuck, now);
    if Starts(c, s1, plan) {
      var i := SomeComplete(c, s1, plan.moves, broken, now);
      forall k ensures !Collected(c, s1, plan.moves[..i], now, k) && (k in t.catalog <==> k in s1.catalog) {
        FailureForgets(c, s, h, plan, sweep, broken, stuck, now, i, k);
        assert forall m | m in plan.moves[..i] :: m in plan.moves;
      }
      FailureForgets(c, s, h, plan, sweep, broken, stuck, now, i, "");
    }
  }
}
