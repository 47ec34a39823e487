/** What a rebalance may and may not change about the newest version of a key. */
module ClusterRebalance {
  import opened HashRing
  import opened ClusterModel
  import opened ClusterInvariant
  import opened ClusterMoves

  /** `t` still has the newest version of `k` in `s`, or its watermark covers it. */
  predicate KeepsLatest(s: Cluster, t: Cluster, k: Key) {
    match Latest(s, k)
    case None => Latest(t, k).None?
    case Some(m) =>
      || (Latest(t, k).Some? && Latest(t, k).value.version == m.version)
      || (Latest(t, k).None? && t.watermark.Some? && !t.watermark.value.Less(m.version))
  }

  lemma KeepsLatestTrans(s: Cluster, t: Cluster, u: Cluster, k: Key)
    requires KeepsLatest(s, t, k) && KeepsLatest(t, u, k) && NotLower(t.watermark, u.watermark)
    ensures KeepsLatest(s, u, k)
  {
  }

  /** Node `n` has in `t` the store, metadata and status it has in `s`. */
  predicate NodeAsBefore(s: Cluster, t: Cluster, n: NodeId) {
    && n in s.nodes && n in t.nodes && t.nodes[n].status == s.nodes[n].status
    && n in s.stores && n in t.stores && t.stores[n] == s.stores[n]
    && n in s.metadata && n in t.metadata && t.metadata[n] == s.metadata[n]
  }

  lemma LatestVersionIs(c: Config, s: Cluster, k: Key, n: NodeId, v: Version)
    requires WellFormed(c, s) && Holds(s, n, k, v)
    requires forall x :: MetaAt(s, x, k).Some? ==> !v.Less(MetaAt(s, x, k).value.version)
    ensures Latest(s, k).Some? && Latest(s, k).value.version == v
  {
    LatestIsMax(c, s, k);
    assert MetaAt(s, n, k).Some?;
    var x :| MetaAt(s, x, k) == Latest(s, k);
  }

  lemma {:induction false} SameKeyLatest(s: Cluster, t: Cluster, ns: seq<NodeId>, k: Key)
    requires forall n :: MetaAt(s, n, k) == MetaAt(t, n, k)
    ensures LatestIn(s.metadata, ns, k) == LatestIn(t.metadata, ns, k)
  {
    if ns != [] {
      SameKeyLatest(s, t, ns[..|ns| - 1], k);
      var n := ns[|ns| - 1];
      assert MetaAt(s, n, k) == MetaAt(t, n, k);
    }
  }

  // ----- One move -----

  /** Installing the newest version on one more node keeps it the newest. */
  lemma InstallLatest(c: Config, s: Cluster, n: NodeId, r: Record, k: Key)
    requires WellFormed(c, s) && n in s.nodes
    requires Latest(s, r.key).Some? && Latest(s, r.key).value.version == r.version
    ensures KeepsLatest(s, InstallRecord(s, n, r), k)
  {
    var t := InstallRecord(s, n, r);
    LatestIsMax(c, s, k);
    if k == r.key {
      forall x ensures MetaAt(t, x, k) == if x == n then Some(Meta(r.version, Deletes(r))) else MetaAt(s, x, k) {
      }
      assert Holds(t, n, k, r.version);
      LatestVersionIs(c, t, k, n, r.version);
    } else {
      forall x ensures MetaAt(s, x, k) == MetaAt(t, x, k) {
      }
      SameKeyLatest(s, t, s.order, k);
    }
  }

  lemma CollectKeepsLatest(c: Config, s: Cluster, j: Key, up: set<NodeId>, k: Key)
    requires WellFormed(c, s)
    ensures KeepsLatest(s, Collect(c, s, j, up), k)
    ensures NotLower(s.watermark, Collect(c, s, j, up).watermark)
    ensures WellFormed(c, Collect(c, s, j, up))
  {
    var t := Collect(c, s, j, up);
    if Collectable(c, s, j, up) {
      if j == k {
        LatestIsMax(c, t, k);
        assert Vacant(t, k);
      } else {
        forall x ensures MetaAt(s, x, k) == MetaAt(t, x, k) {
        }
        SameKeyLatest(s, t, s.order, k);
      }
    }
  }

  lemma {:induction false} CollectAllKeepsLatest(c: Config, s: Cluster, keys: seq<Key>, up: set<NodeId>, k: Key)
    requires WellFormed(c, s)
    ensures var t := CollectAll(c, s, keys, up);
      KeepsLatest(s, t, k) && NotLower(s.watermark, t.watermark) && WellFormed(c, t) && t.catalog <= s.catalog
  {
    if keys != [] {
      var init := keys[..|keys| - 1];
      CollectAllKeepsLatest(c, s, init, up, k);
      var u := CollectAll(c, s, init, up);
      CollectKeepsLatest(c, u, keys[|keys| - 1], up, k);
      KeepsLatestTrans(s, u, CollectAll(c, s, keys, up), k);
    }
  }

  /** A move copies the newest version from a holder of it. */
  lemma MoveKeepsLatest(c: Config, s: Cluster, m: Move, fails: bool, now: int, k: Key)
    requires WellFormed(c, s)
    ensures var t := RunMove(c, s, m, fails, now).0; KeepsLatest(s, t, k) && WellFormed(c, t)
  {
    MoveIs(c, s, m, fails, now);
    if RunMove(c, s, m, fails, now).1 {
      var u := Landed(s, m);
      if Lands(s, m) {
        InstallLatest(c, s, m.target, Streamed(s, m), k);
        InstallWellFormed(c, s, m.target, Streamed(s, m));
      }
      CollectKeepsLatest(c, u, m.key, Up(c, s, now), k);
      KeepsLatestTrans(s, u, Collect(c, u, m.key, Up(c, s, now)), k);
    }
  }

  lemma {:induction false} MovesKeepLatest(c: Config, s: Cluster, moves: seq<Move>, broken: set<nat>, now: int, k: Key)
    requires WellFormed(c, s)
    ensures var t := RunMoves(c, s, moves, broken, now).0; KeepsLatest(s, t, k) && WellFormed(c, t)
  {
    if moves != [] {
      var init, m := moves[..|moves| - 1], moves[|moves| - 1];
      MovesKeepLatest(c, s, init, broken, now, k);
      var u := RunMoves(c, s, init, broken, now).0;
      MoveKeepsLatest(c, u, m, |moves| - 1 in broken, now, k);
      MoveFrame(c, u, m, |moves| - 1 in broken, now);
      KeepsLatestTrans(s, u, RunMoves(c, s, moves, broken, now).0, k);
    }
  }

  lemma InstallWellFormed(c: Config, s: Cluster, n: NodeId, r: Record)
    requires WellFormed(c, s)
    ensures WellFormed(c, InstallRecord(s, n, r)) && InstallRecord(s, n, r).watermark == s.watermark
  {
  }

  // ----- Dropping the copies of former owners -----

  /** Among `members`, only the owners of `k` under `ring` have anything of it. */
  predicate OnlyOwnersHold(c: Config, s: Cluster, members: set<NodeId>, ring: Ring, k: Key) {
    forall n | n in members && n !in ring.Owners(c.token(k), c.replicas) :: MetaAt(s, n, k).None? && EntryAt(s, n, k).None?
  }

  predicate Dropped(c: Config, s: Cluster, members: set<NodeId>, n: NodeId, k: Key) {
    n in members && k in s.catalog && n !in Owners(c, s, k)
  }

  lemma DropCell(c: Config, s: Cluster, members: set<NodeId>, n: NodeId, k: Key)
    ensures var t := DropFormer(c, s, members);
      if Dropped(c, s, members, n, k) then MetaAt(t, n, k).None? && EntryAt(t, n, k).None?
      else MetaAt(t, n, k) == MetaAt(s, n, k) && EntryAt(t, n, k) == EntryAt(s, n, k)
  {
    assert k in FormerKeys(c, s, n) <==> k in s.catalog && n !in Owners(c, s, k);
  }

  /** A key that is not catalogued is not dropped. */
  lemma DropElsewhere(c: Config, s: Cluster, members: set<NodeId>, k: Key)
    requires k !in s.catalog
    ensures SameKey(s, DropFormer(c, s, members), k)
  {
    var t := DropFormer(c, s, members);
    forall n ensures MetaAt(s, n, k) == MetaAt(t, n, k) && EntryAt(s, n, k) == EntryAt(t, n, k) {
      DropCell(c, s, members, n, k);
    }
  }

  lemma DropShape(c: Config, s: Cluster, members: set<NodeId>)
    requires WellFormed(c, s)
    ensures var t := DropFormer(c, s, members); WellFormed(c, t) && SameShape(s, t)
  {
  }

  lemma DropVacant(c: Config, s: Cluster, members: set<NodeId>, k: Key)
    requires Vacant(s, k)
    ensures Vacant(DropFormer(c, s, members), k)
  {
    forall n ensures MetaAt(DropFormer(c, s, members), n, k).None? {
      DropCell(c, s, members, n, k);
      assert MetaAt(s, n, k).None?;
    }
  }

  /** What the owners have survives, and the newest version with it. */
  lemma DropLatest(c: Config, s: Cluster, members: set<NodeId>, k: Key, m: Meta)
    requires WellFormed(c, s) && Latest(s, k) == Some(m) && OwnersHoldLatest(c, s, s.ring, k)
    ensures var t := DropFormer(c, s, members);
      && WellFormed(c, t) && Latest(t, k).Some? && Latest(t, k).value.version == m.version
      && forall n | n in Owners(c, s, k) :: HasRecord(t, n, k, m)
  {
    var t := DropFormer(c, s, members);
    DropShape(c, s, members);
    LatestIsMax(c, s, k);
    forall n ensures MetaAt(t, n, k).Some? ==> !m.version.Less(MetaAt(t, n, k).value.version) {
      DropCell(c, s, members, n, k);
    }
    forall n | n in Owners(c, s, k) ensures HasRecord(t, n, k, m) {
      DropCell(c, s, members, n, k);
    }
    OwnersAreDistinctMembers(s.ring, c.token(k), c.replicas);
    var o := Owners(c, s, k)[0];
    assert o in Owners(c, s, k);
    assert HasRecord(t, o, k, m);
    LatestVersionIs(c, t, k, o, m.version);
  }

  /** Dropping former owners' copies changes neither what owners hold nor which version is newest. */
  lemma DropKeeps(c: Config, s: Cluster, members: set<NodeId>, k: Key)
    requires WellFormed(c, s) && OwnersHoldLatest(c, s, s.ring, k)
    ensures var t := DropFormer(c, s, members);
      KeepsLatest(s, t, k) && OwnersHoldLatest(c, t, s.ring, k)
  {
    if Latest(s, k).Some? {
      DropLatest(c, s, members, k, Latest(s, k).value);
    } else {
      LatestIsMax(c, s, k);
      DropVacant(c, s, members, k);
      DropShape(c, s, members);
      LatestIsMax(c, DropFormer(c, s, members), k);
    }
  }

  lemma DropOnlyOwners(c: Config, s: Cluster, members: set<NodeId>, k: Key)
    requires k in s.catalog
    ensures OnlyOwnersHold(c, DropFormer(c, s, members), members, s.ring, k)
  {
    forall n | n in members && n !in Owners(c, s, k)
      ensures MetaAt(DropFormer(c, s, members), n, k).None? && EntryAt(DropFormer(c, s, members), n, k).None?
    {
      DropCell(c, s, members, n, k);
    }
  }

  /** Collection after the rebalance: what is left of a key is untouched. */
  lemma CollectKeepsOwners(c: Config, s: Cluster, ring: Ring, j: Key, up: set<NodeId>, k: Key)
    requires WellFormed(c, s) && OwnersHoldLatest(c, s, ring, k)
    ensures OwnersHoldLatest(c, Collect(c, s, j, up), ring, k)
  {
    var t := Collect(c, s, j, up);
    if Collectable(c, s, j, up) {
      if j == k {
        LatestIsMax(c, t, k);
        assert Vacant(t, k);
      } else {
        forall x ensures MetaAt(s, x, k) == MetaAt(t, x, k) && EntryAt(s, x, k) == EntryAt(t, x, k) {
        }
        SameKeyLatest(s, t, s.order, k);
      }
    }
  }

  lemma {:induction false} CollectAllKeepsOwners(c: Config, s: Cluster, ring: Ring, keys: seq<Key>, up: set<NodeId>, k: Key)
    requires WellFormed(c, s) && OwnersHoldLatest(c, s, ring, k)
    ensures var t := CollectAll(c, s, keys, up);
      && OwnersHoldLatest(c, t, ring, k)
      && forall members :: OnlyOwnersHold(c, s, members, ring, k) ==> OnlyOwnersHold(c, t, members, ring, k)
  {
    if keys != [] {
      var init := keys[..|keys| - 1];
      CollectAllKeepsOwners(c, s, ring, init, up, k);
      CollectAllKeepsLatest(c, s, init, up, k);
      CollectKeepsOwners(c, CollectAll(c, s, init, up), ring, keys[|keys| - 1], up, k);
    }
  }

  // ----- A rebalance that succeeds -----

  /** Ring and statuses do not enter what the replicas hold. */
  lemma SwitchCell(c: Config, s: Cluster, plan: Plan, k: Key)
    ensures var t := Switch(s, plan);
      && Latest(t, k) == Latest(s, k) && SameKey(s, t, k)
      && (OwnersHoldLatest(c, s, plan.target, k) <==> OwnersHoldLatest(c, t, plan.target, k))
  {
    var t := Switch(s, plan);
    assert forall n :: MetaAt(t, n, k) == MetaAt(s, n, k) && EntryAt(t, n, k) == EntryAt(s, n, k);
  }

  lemma {:induction false} ActivatedKeys(nodes: map<NodeId, Node>, joining: seq<NodeId>)
    ensures Activated(nodes, joining).Keys == nodes.Keys
  {
    if joining != [] { ActivatedKeys(nodes, joining[..|joining| - 1]); }
  }

  lemma {:induction false} DepartedKeys(nodes: map<NodeId, Node>, departing: seq<NodeId>)
    ensures Departed(nodes, departing).Keys == nodes.Keys
  {
    if departing != [] { DepartedKeys(nodes, departing[..|departing| - 1]); }
  }

  lemma SwitchWellFormed(c: Config, s: Cluster, plan: Plan)
    requires WellFormed(c, s) && plan.target.Valid() && plan.target.nodes <= s.nodes.Keys
    ensures WellFormed(c, Switch(s, plan))
  {
    ActivatedKeys(s.nodes, plan.joining);
    DepartedKeys(Activated(s.nodes, plan.joining), plan.departing);
    var t := Switch(s, plan);
    assert t.nodes.Keys == s.nodes.Keys;
    forall n ensures n in t.nodes <==> n in s.nodes {
      assert n in t.nodes.Keys <==> n in s.nodes.Keys;
    }
    forall n | n in t.ring.nodes ensures n in t.nodes {
      assert n in s.nodes.Keys;
    }
  }

  lemma TargetKnown(c: Config, s: Cluster, plan: Plan)
    requires WellFormed(c, s) && Fits(c, s, plan)
    ensures plan.target.nodes <= s.nodes.Keys
  {
    forall n | n in plan.target.nodes ensures n in s.nodes.Keys {
      assert n in s.ring.nodes || n in WithStatus(s, Joining);
    }
  }

  /** What one key gains from a rebalance that succeeds. */
  ghost predicate KeyMoved(c: Config, s: Cluster, t: Cluster, members: set<NodeId>, k: Key) {
    KeepsLatest(s, t, k) && (k in t.catalog ==> OwnersHoldLatest(c, t, t.ring, k) && OnlyOwnersHold(c, t, members, t.ring, k))
  }

  lemma SwitchedKey(c: Config, s: Cluster, plan: Plan, broken: set<nat>, stuck: set<NodeId>, now: int, k: Key)
    requires WellFormed(c, s) && Fits(c, s, plan) && MoveAndSwitch(c, s, plan, broken, stuck, now).1
    ensures var t := MoveAndSwitch(c, s, plan, broken, stuck, now).0;
      WellFormed(c, t) && t.ring == plan.target && KeyMoved(c, s, t, s.ring.nodes, k)
  {
    var m := RunMoves(c, s, plan.moves, broken, now).0;
    var u := Switch(m, plan);
    MovesKeepLatest(c, s, plan.moves, broken, now, k);
    MovesFrame(c, s, plan.moves, broken, now);
    TargetKnown(c, s, plan);
    SwitchWellFormed(c, m, plan);
    SwitchCell(c, m, plan, k);
    DropShape(c, u, s.ring.nodes);
    var t := DropFormer(c, u, s.ring.nodes);
    if k in m.catalog {
      DropKeeps(c, u, s.ring.nodes, k);
      DropOnlyOwners(c, u, s.ring.nodes, k);
    } else {
      DropElsewhere(c, u, s.ring.nodes, k);
      SameKeyLatest(u, t, u.order, k);
    }
    KeepsLatestTrans(s, m, t, k);
  }

  lemma SweptKey(c: Config, s: Cluster, t: Cluster, members: set<NodeId>, sweep: seq<Key>, now: int, k: Key)
    requires WellFormed(c, t) && KeyMoved(c, s, t, members, k)
    ensures var u := Elect(c, CollectAll(c, t, sweep, Up(c, t, now)), now);
      KeyMoved(c, s, u, members, k) && u.ring == t.ring
  {
    var x := CollectAll(c, t, sweep, Up(c, t, now));
    CollectAllKeepsLatest(c, t, sweep, Up(c, t, now), k);
    KeepsLatestTrans(s, t, x, k);
    if k in x.catalog {
      CollectAllKeepsOwners(c, t, t.ring, sweep, Up(c, t, now), k);
      assert OnlyOwnersHold(c, x, members, t.ring, k);
    }
    assert x.ring == t.ring by { CollectAllRing(c, t, sweep, Up(c, t, now)); }
    ElectRecords(c, x, now, k);
  }

  lemma {:induction false} CollectAllRing(c: Config, s: Cluster, keys: seq<Key>, up: set<NodeId>)
    ensures SameShape(s, CollectAll(c, s, keys, up))
  {
    if keys != [] { CollectAllRing(c, s, keys[..|keys| - 1], up); }
  }

  lemma ElectRecords(c: Config, s: Cluster, now: int, k: Key)
    ensures var t := Elect(c, s, now);
      && SameKey(s, t, k) && t.metadata == s.metadata && t.stores == s.stores && t.ring == s.ring
      && t.order == s.order && t.catalog == s.catalog && t.watermark == s.watermark
  {
  }

  /**
   A rebalance that succeeds leaves every owner under the new ring with the newest version
   of every catalogued key that still has metadata, and the other old members with nothing
   of it; no key's newest version is lost, except behind the watermark.
   */
  lemma SuccessIsCurrent(c: Config, s: Cluster, plan: Plan, sweep: seq<Key>, broken: set<nat>, stuck: set<NodeId>, now: int, k: Key)
    requires WellFormed(c, s) && Rebalance(c, s, plan, sweep, broken, stuck, now).1.Ok?
    ensures var (s1, t) := (Detect(c, s, now), Rebalance(c, s, plan, sweep, broken, stuck, now).0);
      && t.ring == plan.target && KeepsLatest(s1, t, k)
      && (k in t.catalog ==> OwnersHoldLatest(c, t, t.ring, k) && OnlyOwnersHold(c, t, s1.ring.nodes, t.ring, k))
  {
    var s1 := Detect(c, s, now);
    SwitchedKey(c, s1, plan, broken, stuck, now, k);
    SweptKey(c, s1, MoveAndSwitch(c, s1, plan, broken, stuck, now).0, s1.ring.nodes, sweep, now, k);
  }
}
