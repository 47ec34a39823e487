/**
 A rebalance that succeeds, against the history of acknowledged changes: it keeps the
 invariants for every catalogued key, and for the others exactly under `TidyKey`.
 */
module ClusterSwitch {
  import opened HashRing
  import opened ClusterModel
  import opened ClusterInvariant
  import opened ClusterSteps
  import opened ClusterMoves
  import opened ClusterRebalance

  // ----- What a move leaves on its target -----

  /** Node `n` has no copy of `k`, or has its newest version. */
  predicate Settled(s: Cluster, n: NodeId, k: Key) {
    EntryAt(s, n, k).None? || HoldsLatest(s, n, k)
  }

  lemma SettledSame(s: Cluster, t: Cluster, n: NodeId, k: Key)
    requires SameKey(s, t, k) && s.order == t.order && Settled(s, n, k)
    ensures Settled(t, n, k)
  {
    SameKeyLatest(s, t, s.order, k);
    assert MetaAt(s, n, k) == MetaAt(t, n, k) && EntryAt(s, n, k) == EntryAt(t, n, k);
  }

  /** All replicas of one version agree on whether it is a deletion. */
  lemma VersionDecides(c: Config, s: Cluster, h: History, n: NodeId, k: Key)
    requires WellFormed(c, s) && Chain(h, s) && KeyOk(c, s, h, k)
    requires Latest(s, k).Some? && Holds(s, n, k, Latest(s, k).value.version)
    ensures MetaAt(s, n, k).value.deleted == Latest(s, k).value.deleted
  {
    LatestIsLast(c, s, h, k);
    HolderHasLast(c, s, h, k, n);
  }

  /** What a move streams, once it can run, is the newest version. */
  lemma StreamedIsLatest(c: Config, s: Cluster, h: History, m: Move, now: int)
    requires Inv(c, s, h) && CanMove(c, s, m, now)
    ensures Streamed(s, m).key == m.key && Streamed(s, m).version == Latest(s, m.key).value.version
    ensures Deletes(Streamed(s, m)) == Latest(s, m.key).value.deleted == Streamed(s, m).deleted
  {
    assert KeyOk(c, s, h, m.key);
    VersionDecides(c, s, h, m.source, m.key);
  }

  /** A record that is refused although it is the newest is there already. */
  lemma RefusedIsThere(c: Config, s: Cluster, h: History, m: Move, now: int)
    requires Inv(c, s, h) && CanMove(c, s, m, now) && !Lands(s, m)
    ensures HoldsLatest(s, m.target, m.key)
  {
    assert KeyOk(c, s, h, m.key);
    StreamedIsLatest(c, s, h, m, now);
    LatestIsMax(c, s, m.key);
    if Holds(s, m.target, m.key, Latest(s, m.key).value.version) {
      VersionDecides(c, s, h, m.target, m.key);
    }
  }

  /** The newest version is the same after a move that does not collect it. */
  lemma LandedLatest(c: Config, s: Cluster, h: History, m: Move, now: int)
    requires Inv(c, s, h) && CanMove(c, s, m, now)
    ensures Latest(Landed(s, m), m.key).Some? && Latest(Landed(s, m), m.key).value.version == Latest(s, m.key).value.version
  {
    StreamedIsLatest(c, s, h, m, now);
    if Lands(s, m) { InstallLatest(c, s, m.target, Streamed(s, m), m.key); }
    LandedVacancy(c, s, m);
  }

  lemma LandedVacancy(c: Config, s: Cluster, m: Move)
    requires WellFormed(c, s) && Latest(s, m.key).Some?
    ensures Latest(Landed(s, m), m.key).Some? && WellFormed(c, Landed(s, m))
  {
    if Lands(s, m) { InstallWellFormed(c, s, m.target, Streamed(s, m)); }
    LatestIsMax(c, s, m.key);
    var n :| MetaAt(s, n, m.key) == Latest(s, m.key);
    LandedCell(s, m, n, m.key);
    LatestIsMax(c, Landed(s, m), m.key);
    if Vacant(Landed(s, m), m.key) { assert MetaAt(Landed(s, m), n, m.key).None?; }
  }

  /** A completed move settles its target. */
  lemma MoveSettles(c: Config, s: Cluster, h: History, m: Move, fails: bool, now: int)
    requires Inv(c, s, h) && RunMove(c, s, m, fails, now).1
    ensures Settled(RunMove(c, s, m, fails, now).0, m.target, m.key)
  {
    MoveIs(c, s, m, fails, now);
    MoveCell(c, s, m, fails, now, m.target, m.key);
    LandedCell(s, m, m.target, m.key);
    StreamedIsLatest(c, s, h, m, now);
    LandedLatest(c, s, h, m, now);
    if !Lands(s, m) { RefusedIsThere(c, s, h, m, now); }
  }

  /** Whatever is settled stays settled. */
  lemma MoveKeepsSettled(c: Config, s: Cluster, h: History, m: Move, fails: bool, now: int, n: NodeId, k: Key)
    requires Inv(c, s, h) && Settled(s, n, k) && RunMove(c, s, m, fails, now).1
    ensures Settled(RunMove(c, s, m, fails, now).0, n, k)
  {
    var t := RunMove(c, s, m, fails, now).0;
    MoveFrame(c, s, m, fails, now);
    if k != m.key {
      MoveElsewhere(c, s, m, fails, now, k);
      SettledSame(s, t, n, k);
    } else if n == m.target {
      MoveSettles(c, s, h, m, fails, now);
    } else {
      MoveIs(c, s, m, fails, now);
      MoveCell(c, s, m, fails, now, n, k);
      LandedCell(s, m, n, k);
      LandedLatest(c, s, h, m, now);
      if EntryAt(s, n, k).Some? {
        assert KeyOk(c, s, h, k);
        VersionDecides(c, s, h, n, k);
        StreamedIsLatest(c, s, h, m, now);
      }
    }
  }

  lemma {:induction false} MovesSettle(c: Config, s: Cluster, h: History, moves: seq<Move>, broken: set<nat>, now: int, n: NodeId, k: Key)
    requires Inv(c, s, h) && RunMoves(c, s, moves, broken, now).1
    requires Settled(s, n, k) || Planned(moves, k, n)
    ensures Settled(RunMoves(c, s, moves, broken, now).0, n, k)
  {
    if moves != [] {
      var init, m := moves[..|moves| - 1], moves[|moves| - 1];
      var u := RunMoves(c, s, init, broken, now).0;
      MovesKeep(c, s, h, init, broken, now);
      if m.key == k && m.target == n {
        MoveSettles(c, u, h, m, |moves| - 1 in broken, now);
      } else {
        PlannedBefore(moves, k, n);
        MovesSettle(c, s, h, init, broken, now, n, k);
        MoveKeepsSettled(c, u, h, m, |moves| - 1 in broken, now, n, k);
      }
    }
  }

  lemma PlannedBefore(moves: seq<Move>, k: Key, n: NodeId)
    requires moves != [] && (moves[|moves| - 1].key != k || moves[|moves| - 1].target != n)
    ensures Planned(moves, k, n) ==> Planned(moves[..|moves| - 1], k, n)
  {
    assert moves == moves[..|moves| - 1] + [moves[|moves| - 1]];
  }

  /** A catalogued key leaves the catalogue only with its metadata. */
  lemma {:induction false} MovesVacate(c: Config, s: Cluster, moves: seq<Move>, broken: set<nat>, now: int, k: Key)
    requires WellFormed(c, s) && k in s.catalog && k !in RunMoves(c, s, moves, broken, now).0.catalog
    ensures Vacant(RunMoves(c, s, moves, broken, now).0, k)
  {
    if moves != [] {
      var init, m, fails := moves[..|moves| - 1], moves[|moves| - 1], |moves| - 1 in broken;
      var u := RunMoves(c, s, init, broken, now).0;
      MovesFrame(c, s, init, broken, now);
      FrameWellFormed(c, s, u);
      if k !in u.catalog {
        MovesVacate(c, s, init, broken, now, k);
        MoveElsewhere(c, u, m, fails, now, k);
        VacantSame(u, RunMove(c, u, m, fails, now).0, k);
      } else {
        MoveCatalog(c, u, m, fails, now);
        forall n ensures MetaAt(RunMove(c, u, m, fails, now).0, n, k).None? {
          MoveCell(c, u, m, fails, now, n, k);
        }
      }
    }
  }

  // ----- Statuses -----

  lemma {:induction false} ActivatedAt(nodes: map<NodeId, Node>, joining: seq<NodeId>, n: NodeId)
    requires n in nodes
    ensures n in Activated(nodes, joining)
    ensures Activated(nodes, joining)[n] == if n in joining then nodes[n].(status := Active) else nodes[n]
  {
    if joining != [] {
      assert joining == joining[..|joining| - 1] + [joining[|joining| - 1]];
      ActivatedAt(nodes, joining[..|joining| - 1], n);
    }
  }

  lemma {:induction false} DepartedAt(nodes: map<NodeId, Node>, departing: seq<NodeId>, n: NodeId)
    requires n in nodes && Distinct(departing)
    ensures n in Departed(nodes, departing)
    ensures Departed(nodes, departing)[n] ==
      if n !in departing then nodes[n] else nodes[n].(status := if nodes[n].status == Draining then Drained else Removed)
  {
    if departing != [] {
      var init, x := departing[..|departing| - 1], departing[|departing| - 1];
      assert departing == init + [x];
      DepartedAt(nodes, init, n);
    }
  }

  function StatusAfter(st: Status): Status {
    if st == Joining then Active else if st == Draining then Drained else if st == Removing then Removed else st
  }

  lemma SwitchStatus(c: Config, s: Cluster, m: Cluster, plan: Plan, n: NodeId)
    requires Fits(c, s, plan) && m.nodes == s.nodes && n in s.nodes
    ensures n in Switch(m, plan).nodes
    ensures Switch(m, plan).nodes[n] == s.nodes[n].(status := StatusAfter(s.nodes[n].status))
  {
    ActivatedKeys(m.nodes, plan.joining);
    ActivatedAt(m.nodes, plan.joining, n);
    DepartedAt(Activated(m.nodes, plan.joining), plan.departing, n);
    assert n in plan.joining <==> n in WithStatus(s, Joining) by { assert n in (set x | x in plan.joining) <==> n in plan.joining; }
    assert n in plan.departing <==> n in Leavers(s) by { assert n in (set x | x in plan.departing) <==> n in plan.departing; }
  }

  // ----- Which keys a rebalance leaves in order -----

  /** No owner to be has a copy of `k` without metadata. */
  predicate NoOrphan(c: Config, s: Cluster, ring: Ring, k: Key) {
    forall n | n in OwnersOn(c, ring, k) :: EntryAt(s, n, k).Some? ==> MetaAt(s, n, k).Some?
  }

  predicate QuorumOn(c: Config, s: Cluster, ring: Ring, k: Key) {
    Latest(s, k).Some? ==>
      2 * |Select(OwnersOn(c, ring, k), Holders(s, k, Latest(s, k).value.version))| > |OwnersOn(c, ring, k)|
  }

  /**
   A key that the rebalance moves, because it is catalogued, or may leave where it is: no
   owner to be has a copy without metadata, and more than half of them have the newest version.
   */
  predicate TidyKey(c: Config, s: Cluster, plan: Plan, k: Key) {
    k in s.catalog || (NoOrphan(c, s, plan.target, k) && QuorumOn(c, s, plan.target, k))
  }

  ghost predicate Tidy(c: Config, s: Cluster, plan: Plan) {
    forall k :: TidyKey(c, s, plan, k)
  }

  // ----- One key at the switch -----

  /** State `d` has the cells of `m`, or has dropped them. */
  ghost predicate Fewer(m: Cluster, d: Cluster, k: Key) {
    forall n :: FewerCell(m, d, n, k)
  }

  predicate FewerCell(m: Cluster, d: Cluster, n: NodeId, k: Key) {
    || (MetaAt(d, n, k) == MetaAt(m, n, k) && EntryAt(d, n, k) == EntryAt(m, n, k))
    || (MetaAt(d, n, k).None? && EntryAt(d, n, k).None?)
  }

  lemma SwitchFewer(c: Config, m: Cluster, plan: Plan, members: set<NodeId>, k: Key)
    ensures Fewer(m, DropFormer(c, Switch(m, plan), members), k)
  {
    var u := Switch(m, plan);
    var d := DropFormer(c, u, members);
    SwitchCell(c, m, plan, k);
    forall n ensures FewerCell(m, d, n, k) {
      DropCell(c, u, members, n, k);
      assert MetaAt(m, n, k) == MetaAt(u, n, k) && EntryAt(m, n, k) == EntryAt(u, n, k);
    }
  }

  lemma FewerCellsOk(c: Config, m: Cluster, d: Cluster, h: History, k: Key)
    requires KeyOk(c, m, h, k) && Fewer(m, d, k) && d.watermark == m.watermark && NoOrphan(c, d, d.ring, k)
    ensures forall n :: CellOk(c, d, h, k, n)
  {
    forall n ensures CellOk(c, d, h, k, n) {
      assert CellOk(c, m, h, k, n) && FewerCell(m, d, n, k);
    }
  }

  lemma FewerVacant(m: Cluster, d: Cluster, k: Key)
    requires Vacant(m, k) && Fewer(m, d, k)
    ensures Vacant(d, k)
  {
    forall n ensures MetaAt(d, n, k).None? {
      assert FewerCell(m, d, n, k) && MetaAt(m, n, k).None?;
    }
  }

  lemma FewerOrphans(c: Config, m: Cluster, d: Cluster, k: Key)
    requires Fewer(m, d, k) && NoOrphan(c, m, d.ring, k)
    ensures NoOrphan(c, d, d.ring, k)
  {
    forall n | n in OwnersOn(c, d.ring, k) ensures EntryAt(d, n, k).Some? ==> MetaAt(d, n, k).Some? {
      assert FewerCell(m, d, n, k);
    }
  }

  lemma VacantKeyOk(c: Config, m: Cluster, d: Cluster, h: History, k: Key)
    requires KeyOk(c, m, h, k) && Fewer(m, d, k) && d.watermark == m.watermark && NoOrphan(c, m, d.ring, k) && Vacant(m, k)
    ensures KeyOk(c, d, h, k) && QuorumOk(c, d, h, k)
  {
    FewerVacant(m, d, k);
    FewerOrphans(c, m, d, k);
    FewerCellsOk(c, m, d, h, k);
    assert forall n :: MetaAt(m, n, k).None?;
  }

  /** A quorum of the owners with the newest version is what the invariants ask for. */
  lemma QuorumKeyOk(c: Config, m: Cluster, d: Cluster, h: History, k: Key)
    requires WellFormed(c, m) && WellFormed(c, d) && Chain(h, m) && KeyOk(c, m, h, k)
    requires Fewer(m, d, k) && d.watermark == m.watermark
    requires NoOrphan(c, d, d.ring, k) && Latest(d, k).Some? && Latest(m, k).Some?
    requires Latest(d, k).value.version == Latest(m, k).value.version && QuorumOn(c, d, d.ring, k)
    ensures KeyOk(c, d, h, k) && QuorumOk(c, d, h, k)
  {
    LatestIsLast(c, m, h, k);
    FewerCellsOk(c, m, d, h, k);
    LatestIsMax(c, d, k);
    var n :| MetaAt(d, n, k) == Latest(d, k);
    assert Holds(d, n, k, Last(h, k).value.version);
  }

  lemma AllOwnersQuorum(c: Config, d: Cluster, k: Key)
    requires WellFormed(c, d) && OwnersHoldLatest(c, d, d.ring, k) && Latest(d, k).Some?
    ensures NoOrphan(c, d, d.ring, k) && QuorumOn(c, d, d.ring, k)
  {
    var owners, v := OwnersOn(c, d.ring, k), Latest(d, k).value.version;
    OwnersAreDistinctMembers(d.ring, c.token(k), c.replicas);
    forall n | n in owners ensures n in Holders(d, k, v) {
      assert HasRecord(d, n, k, Latest(d, k).value);
    }
    SelectAll(owners, Holders(d, k, v));
  }

  lemma {:induction false} SelectAll(ns: seq<NodeId>, keep: set<NodeId>)
    requires forall n | n in ns :: n in keep
    ensures Select(ns, keep) == ns
  {
    if ns != [] {
      assert ns == ns[..|ns| - 1] + [ns[|ns| - 1]];
      SelectAll(ns[..|ns| - 1], keep);
    }
  }

  // ----- The whole rebalance -----

  /** The state after the moves `m` of a plan that fits `s`, verified at the owners to be. */
  ghost predicate Streamable(c: Config, s: Cluster, h: History, plan: Plan, broken: set<nat>, now: int, m: Cluster) {
    && Inv(c, s, h) && Fits(c, s, plan) && RunMoves(c, s, plan.moves, broken, now) == (m, true)
    && OwnersCurrent(c, m, plan.target)
  }

  lemma CataloguedNoOrphan(c: Config, s: Cluster, h: History, plan: Plan, broken: set<nat>, now: int, m: Cluster, k: Key)
    requires Streamable(c, s, h, plan, broken, now, m) && k in s.catalog && Vacant(m, k)
    ensures NoOrphan(c, m, plan.target, k)
  {
    assert AllPlanned(c, s, plan, k);
    LatestNoneIfVacant(c, s, h, plan, broken, now, m, k);
    forall n | n in OwnersOn(c, plan.target, k) ensures EntryAt(m, n, k).None? {
      MovesSettle(c, s, h, plan.moves, broken, now, n, k);
    }
  }

  lemma LatestNoneIfVacant(c: Config, s: Cluster, h: History, plan: Plan, broken: set<nat>, now: int, m: Cluster, k: Key)
    requires Streamable(c, s, h, plan, broken, now, m) && Vacant(m, k)
    ensures Latest(m, k).None?
  {
    MovesKeep(c, s, h, plan.moves, broken, now);
    LatestIsMax(c, m, k);
  }

  lemma CataloguedKey(c: Config, s: Cluster, h: History, plan: Plan, broken: set<nat>, now: int, m: Cluster, k: Key)
    requires Streamable(c, s, h, plan, broken, now, m) && k in s.catalog
    ensures var d := DropFormer(c, Switch(m, plan), s.ring.nodes); KeyOk(c, d, h, k) && QuorumOk(c, d, h, k)
  {
    var u := Switch(m, plan);
    var d := DropFormer(c, u, s.ring.nodes);
    MovesKeep(c, s, h, plan.moves, broken, now);
    MovesFrame(c, s, plan.moves, broken, now);
    SwitchFewer(c, m, plan, s.ring.nodes, k);
    assert KeyOk(c, m, h, k);
    if Vacant(m, k) {
      CataloguedNoOrphan(c, s, h, plan, broken, now, m, k);
      VacantKeyOk(c, m, d, h, k);
    } else {
      if k !in m.catalog { MovesVacate(c, s, plan.moves, broken, now, k); }
      TargetKnown(c, s, plan);
      SwitchWellFormed(c, m, plan);
      OwnedKey(c, m, h, plan, s.ring.nodes, k);
    }
  }

  lemma OwnedKey(c: Config, m: Cluster, h: History, plan: Plan, members: set<NodeId>, k: Key)
    requires WellFormed(c, m) && Chain(h, m) && KeyOk(c, m, h, k) && !Vacant(m, k)
    requires WellFormed(c, Switch(m, plan)) && OwnersHoldLatest(c, m, plan.target, k)
    ensures var d := DropFormer(c, Switch(m, plan), members); KeyOk(c, d, h, k) && QuorumOk(c, d, h, k)
  {
    var u := Switch(m, plan);
    var d := DropFormer(c, u, members);
    SwitchFewer(c, m, plan, members, k);
    SwitchCell(c, m, plan, k);
    LatestIsMax(c, m, k);
    DropKeeps(c, u, members, k);
    DropLatest(c, u, members, k, Latest(u, k).value);
    AllOwnersQuorum(c, d, k);
    QuorumKeyOk(c, m, d, h, k);
  }

  lemma UncataloguedSame(c: Config, s: Cluster, plan: Plan, broken: set<nat>, now: int, members: set<NodeId>, k: Key)
    requires WellFormed(c, s) && Fits(c, s, plan) && k !in s.catalog
    ensures SameKey(s, DropFormer(c, Switch(RunMoves(c, s, plan.moves, broken, now).0, plan), members), k)
  {
    var m := RunMoves(c, s, plan.moves, broken, now).0;
    var u := Switch(m, plan);
    forall x | x in plan.moves ensures x.key != k {
      assert MoveFits(c, s, plan.target, x);
    }
    MovesVacant(c, s, plan.moves, broken, now, k);
    MovesFrame(c, s, plan.moves, broken, now);
    SwitchCell(c, m, plan, k);
    DropElsewhere(c, u, members, k);
    SameKeyTrans(s, m, u, k);
    SameKeyTrans(s, u, DropFormer(c, u, members), k);
  }

  /** The conditions of `TidyKey` speak only of the cells of the key. */
  lemma TidySame(c: Config, s: Cluster, t: Cluster, ring: Ring, k: Key)
    requires SameKey(s, t, k) && s.order == t.order
    ensures NoOrphan(c, s, ring, k) <==> NoOrphan(c, t, ring, k)
    ensures QuorumOn(c, s, ring, k) <==> QuorumOn(c, t, ring, k)
    ensures Latest(s, k) == Latest(t, k)
  {
    SameKeyLatest(s, t, s.order, k);
    assert forall n :: MetaAt(s, n, k) == MetaAt(t, n, k) && EntryAt(s, n, k) == EntryAt(t, n, k);
    if Latest(s, k).Some? {
      var v := Latest(s, k).value.version;
      forall n ensures n in Holders(s, k, v) <==> n in Holders(t, k, v) {
        assert MetaAt(s, n, k) == MetaAt(t, n, k);
      }
      assert Holders(s, k, v) == Holders(t, k, v);
    }
  }

  lemma SameFewer(s: Cluster, d: Cluster, k: Key)
    requires SameKey(s, d, k)
    ensures Fewer(s, d, k)
  {
    forall n ensures FewerCell(s, d, n, k) {
      assert MetaAt(s, n, k) == MetaAt(d, n, k) && EntryAt(s, n, k) == EntryAt(d, n, k);
    }
  }

  /** A key whose cells stay, seen under a new ring and behind a watermark that may have risen. */
  lemma StayingKey(c: Config, s: Cluster, d: Cluster, h: History, k: Key)
    requires WellFormed(c, s) && WellFormed(c, d) && Chain(h, s) && KeyOk(c, s, h, k)
    requires SameKey(s, d, k) && s.order == d.order && NotLower(s.watermark, d.watermark)
    ensures KeyOk(c, d, h, k) && QuorumOk(c, d, h, k) <==> NoOrphan(c, s, d.ring, k) && QuorumOn(c, s, d.ring, k)
  {
    var e := s.(watermark := d.watermark);
    assert SameKey(s, e, k);
    FrameKey(c, s, e, h, h, k);
    TidySame(c, s, d, d.ring, k);
    LatestIsLast(c, s, h, k);
    LatestIsMax(c, s, k);
    VacantSame(s, d, k);
    assert SameKey(e, d, k);
    TidySame(c, e, d, d.ring, k);
    assert Chain(h, e);
    if NoOrphan(c, s, d.ring, k) && QuorumOn(c, s, d.ring, k) {
      SameFewer(e, d, k);
      if Vacant(s, k) {
        assert Vacant(e, k) by { VacantSame(s, e, k); }
        VacantKeyOk(c, e, d, h, k);
      } else {
        QuorumKeyOk(c, e, d, h, k);
      }
    }
    if KeyOk(c, d, h, k) && QuorumOk(c, d, h, k) {
      forall n | n in OwnersOn(c, d.ring, k) ensures EntryAt(d, n, k).Some? ==> MetaAt(d, n, k).Some? {
        assert CellOk(c, d, h, k, n);
      }
    }
  }

  // ----- The state at the switch -----

  lemma SwitchShape(c: Config, s: Cluster, h: History, plan: Plan, broken: set<nat>, now: int, m: Cluster)
    requires Streamable(c, s, h, plan, broken, now, m)
    ensures var d := DropFormer(c, Switch(m, plan), s.ring.nodes);
      && WellFormed(c, d) && d.order == s.order && NotLower(s.watermark, d.watermark) && d.watermark == m.watermark
      && d.term == s.term && d.leader == s.leader && d.sequence == s.sequence && d.ring == plan.target
      && Inv(c, m, h) && (QuorumInv(c, s, h) ==> QuorumInv(c, m, h)) && SameFrame(s, m)
  {
    MovesKeep(c, s, h, plan.moves, broken, now);
    MovesFrame(c, s, plan.moves, broken, now);
    TargetKnown(c, s, plan);
    SwitchWellFormed(c, m, plan);
    DropShape(c, Switch(m, plan), s.ring.nodes);
  }

  lemma NoLeavers(c: Config, s: Cluster, m: Cluster, plan: Plan, members: set<NodeId>)
    requires Fits(c, s, plan) && m.nodes == s.nodes
    ensures LeaversAreMembers(DropFormer(c, Switch(m, plan), members))
  {
    var u := Switch(m, plan);
    ActivatedKeys(m.nodes, plan.joining);
    DepartedKeys(Activated(m.nodes, plan.joining), plan.departing);
    forall n | n in u.nodes ensures !u.nodes[n].status.Draining? && !u.nodes[n].status.Removing? {
      assert n in u.nodes.Keys;
      SwitchStatus(c, s, m, plan, n);
    }
  }

  lemma SwitchedKeyOk(c: Config, s: Cluster, h: History, plan: Plan, broken: set<nat>, now: int, m: Cluster, k: Key)
    requires Streamable(c, s, h, plan, broken, now, m) && TidyKey(c, s, plan, k)
    ensures var d := DropFormer(c, Switch(m, plan), s.ring.nodes); KeyOk(c, d, h, k) && QuorumOk(c, d, h, k)
  {
    if k in s.catalog {
      CataloguedKey(c, s, h, plan, broken, now, m, k);
    } else {
      var d := DropFormer(c, Switch(m, plan), s.ring.nodes);
      SwitchShape(c, s, h, plan, broken, now, m);
      UncataloguedSame(c, s, plan, broken, now, s.ring.nodes, k);
      assert KeyOk(c, s, h, k);
      StayingKey(c, s, d, h, k);
    }
  }

  lemma SwitchKeeps(c: Config, s: Cluster, h: History, plan: Plan, broken: set<nat>, now: int, m: Cluster)
    requires Streamable(c, s, h, plan, broken, now, m) && Tidy(c, s, plan)
    ensures var d := DropFormer(c, Switch(m, plan), s.ring.nodes); Inv(c, d, h) && QuorumInv(c, d, h)
  {
    var d := DropFormer(c, Switch(m, plan), s.ring.nodes);
    SwitchShape(c, s, h, plan, broken, now, m);
    NoLeavers(c, s, m, plan, s.ring.nodes);
    forall k ensures KeyOk(c, d, h, k) && QuorumOk(c, d, h, k) {
      assert TidyKey(c, s, plan, k);
      SwitchedKeyOk(c, s, h, plan, broken, now, m, k);
    }
  }

  // ----- After the sweep -----

  lemma ElectIsControl(c: Config, s: Cluster, now: int)
    ensures ControlStep(s, Elect(c, s, now)) && Elect(c, s, now).nodes == s.nodes
  {
  }

  /** A rebalance that succeeds on a tidy state keeps every invariant, and each key ends on a quorum. */
  lemma SuccessKeeps(c: Config, s: Cluster, h: History, plan: Plan, sweep: seq<Key>, broken: set<nat>, stuck: set<NodeId>, now: int)
    requires Inv(c, s, h) && Fits(c, s, plan) && ApplyPlan(c, s, plan, sweep, broken, stuck, now).1.Ok? && Tidy(c, s, plan)
    ensures var t := ApplyPlan(c, s, plan, sweep, broken, stuck, now).0;
      Inv(c, t, h) && QuorumInv(c, t, h) && NotLower(s.watermark, t.watermark) && Forward(s, t)
  {
    var m := RunMoves(c, s, plan.moves, broken, now).0;
    var d := DropFormer(c, Switch(m, plan), s.ring.nodes);
    SwitchKeeps(c, s, h, plan, broken, now, m);
    SwitchShape(c, s, h, plan, broken, now, m);
    SweepKeeps(c, d, h, sweep, now);
  }

  lemma SweepKeeps(c: Config, d: Cluster, h: History, sweep: seq<Key>, now: int)
    requires Inv(c, d, h) && QuorumInv(c, d, h)
    ensures var t := Elect(c, CollectAll(c, d, sweep, Up(c, d, now)), now);
      Inv(c, t, h) && QuorumInv(c, t, h) && NotLower(d.watermark, t.watermark) && Forward(d, t)
  {
    var x := CollectAll(c, d, sweep, Up(c, d, now));
    CollectAllKeeps(c, d, h, sweep, Up(c, d, now));
    ElectIsControl(c, x, now);
    ControlStepKeeps(c, x, Elect(c, x, now), h);
  }

  lemma {:induction false} CollectAllElsewhere(c: Config, s: Cluster, keys: seq<Key>, up: set<NodeId>, k: Key)
    requires k !in keys
    ensures SameKey(s, CollectAll(c, s, keys, up), k) && NotLower(s.watermark, CollectAll(c, s, keys, up).watermark)
  {
    if keys != [] {
      var init, j := keys[..|keys| - 1], keys[|keys| - 1];
      assert keys == init + [j];
      CollectAllElsewhere(c, s, init, up, k);
      var u := CollectAll(c, s, init, up);
      forall n ensures MetaAt(u, n, k) == MetaAt(Collect(c, u, j, up), n, k) && EntryAt(u, n, k) == EntryAt(Collect(c, u, j, up), n, k) {
        CollectCell(c, u, j, up, n, k);
      }
      SameKeyTrans(s, u, CollectAll(c, s, keys, up), k);
    }
  }

  /** The uncatalogued keys after a rebalance are as before it. */
  lemma UncataloguedStays(c: Config, s: Cluster, h: History, plan: Plan, sweep: seq<Key>, broken: set<nat>, stuck: set<NodeId>,
                          now: int, k: Key)
    requires Inv(c, s, h) && Fits(c, s, plan) && ApplyPlan(c, s, plan, sweep, broken, stuck, now).1.Ok?
    requires k !in s.catalog && forall j | j in sweep :: j in s.catalog
    ensures var t := ApplyPlan(c, s, plan, sweep, broken, stuck, now).0;
      && SameKey(s, t, k) && s.order == t.order && NotLower(s.watermark, t.watermark) && t.ring == plan.target
      && t.nodes == Switch(RunMoves(c, s, plan.moves, broken, now).0, plan).nodes
  {
    var m := RunMoves(c, s, plan.moves, broken, now).0;
    var d := DropFormer(c, Switch(m, plan), s.ring.nodes);
    SwitchShape(c, s, h, plan, broken, now, m);
    UncataloguedSame(c, s, plan, broken, now, s.ring.nodes, k);
    CollectAllElsewhere(c, d, sweep, Up(c, d, now), k);
    var x := CollectAll(c, d, sweep, Up(c, d, now));
    CollectAllRing(c, d, sweep, Up(c, d, now));
    ElectRecords(c, x, now, k);
    ElectIsControl(c, x, now);
    SameKeyTrans(s, d, x, k);
    SameKeyTrans(s, x, Elect(c, x, now), k);
  }

  /** And only on a tidy state: a key that is not in order before is not in order after. */
  lemma SuccessNeedsTidy(c: Config, s: Cluster, h: History, plan: Plan, sweep: seq<Key>, broken: set<nat>, stuck: set<NodeId>,
                         now: int, k: Key)
    requires Inv(c, s, h) && Fits(c, s, plan) && ApplyPlan(c, s, plan, sweep, broken, stuck, now).1.Ok?
    requires forall j | j in sweep :: j in s.catalog
    requires var t := ApplyPlan(c, s, plan, sweep, broken, stuck, now).0; Inv(c, t, h) && QuorumInv(c, t, h)
    ensures TidyKey(c, s, plan, k)
  {
    if k !in s.catalog {
      var t := ApplyPlan(c, s, plan, sweep, broken, stuck, now).0;
      UncataloguedStays(c, s, h, plan, sweep, broken, stuck, now, k);
      assert KeyOk(c, s, h, k) && KeyOk(c, t, h, k) && QuorumOk(c, t, h, k);
      StayingKey(c, s, t, h, k);
    }
  }

  /**
   After a rebalance that succeeded, both invariants hold if and only if the state it
   started from was tidy.
   */
  lemma RebalanceKeepsIff(c: Config, s: Cluster, h: History, plan: Plan, sweep: seq<Key>, broken: set<nat>, stuck: set<NodeId>, now: int)
    requires Inv(c, s, h) && Rebalance(c, s, plan, sweep, broken, stuck, now).1.Ok?
    requires forall j | j in sweep :: j in s.catalog
    ensures var t := Rebalance(c, s, plan, sweep, broken, stuck, now).0;
      Inv(c, t, h) && QuorumInv(c, t, h) <==> Tidy(c, Detect(c, s, now), plan)
  {
    var s1, t := Detect(c, s, now), Rebalance(c, s, plan, sweep, broken, stuck, now).0;
    DetectIsControl(c, s, now);
    ControlStepKeeps(c, s, s1, h);
    if Tidy(c, s1, plan) {
      SuccessKeeps(c, s1, h, plan, sweep, broken, stuck, now);
    }
    if Inv(c, t, h) && QuorumInv(c, t, h) {
      forall k ensures TidyKey(c, s1, plan, k) {
        SuccessNeedsTidy(c, s1, h, plan, sweep, broken, stuck, now, k);
      }
    }
  }
}
