/**
 When a rebalance succeeds, exactly, told from the state before it: which of its moves can be
 made, and which node would raise while former copies are dropped.
 */
module ClusterRebalanceAnswers {
  import opened HashRing
  import opened ClusterModel
  import opened ClusterInvariant
  import opened ClusterSteps
  import opened ClusterDeletes
  import opened ClusterSnapshots
  import opened ClusterMoves
  import opened ClusterCollected
  import opened ClusterRebalance
  import opened ClusterSwitch
  import opened ClusterUndo
  import opened ClusterRuns
  import opened ClusterAnswers
  import opened ClusterUpkeep

  // ----- Stamps of the current term -----

  /** A stamp of the current term was drawn under the current leader. */
  ghost predicate Bound(h: History, s: Cluster) {
    forall e | e in h :: e.version.term == s.term ==> e.version.leader == s.leader
  }

  lemma BoundLater(h: History, more: History, s: Cluster, t: Cluster)
    requires Bound(h, s) && Chain(h, s) && Forward(s, t)
    requires forall e | e in more :: e.version.leader == t.leader
    ensures Bound(h + more, t)
  {
    forall e | e in h + more && e.version.term == t.term ensures e.version.leader == t.leader {
      if e in h { assert exists i :: 0 <= i < |h| && h[i] == e; }
    }
  }

  lemma NextBound(c: Config, w: World, op: Op)
    requires Bound(w.h, w.s) && Ordered(w)
    ensures Bound(Next(c, w, op).h, Next(c, w, op).s)
  {
    var x := Next(c, w, op);
    NextShape(c, w, op);
    assert w.h + [] == w.h;
    match op
    case PutOp(k, v, p, fence, faults, now) =>
      BoundLater(w.h, [PutCommit(x.s, k, v)], w.s, x.s);
      BoundLater(w.h, [], w.s, x.s);
    case DeleteOp(keys, p, fence, sweep, faults, mute, broken, now) =>
      BoundLater(w.h, DeleteCommits(x.s, Unique(keys)), w.s, x.s);
      BoundLater(w.h, [], w.s, x.s);
    case FlushOp(now) =>
      BoundLater(w.h, [FlushCommit(x.s)], w.s, x.s);
      BoundLater(w.h, [], w.s, x.s);
    case _ =>
      QuietOrder(c, w, op);
      BoundLater(w.h, [], w.s, x.s);
  }

  /** So it is in every run. */
  lemma {:induction false} RunBound(c: Config, w: World, ops: seq<Op>)
    requires Init(c, w)
    ensures Bound(Run(c, w, ops).h, Run(c, w, ops).s)
  {
    if ops != [] {
      var init := ops[..|ops| - 1];
      RunBound(c, w, init);
      RunOrdered(c, w, init);
      NextBound(c, Run(c, w, init), ops[|ops| - 1]);
    }
  }

  // ----- One move -----

  lemma StreamedBound(c: Config, u: Cluster, h: History, m: Move, now: int)
    requires Inv(c, u, h) && Bound(h, u) && CanMove(c, u, m, now)
    ensures BoundToFence(Streamed(u, m), Fence(u.term, u.leader))
  {
    assert KeyOk(c, u, h, m.key);
    var e := CommitOf(c, u, h, m.key, m.source);
    ChainOrder(h, u, e, e);
    assert exists i :: 0 <= i < |h| && h[i] == e;
  }

  /** It is made unless something is missing or a node that has to install the record fails. */
  lemma MoveMadeIff(c: Config, u: Cluster, h: History, m: Move, fails: bool, now: int)
    requires Inv(c, u, h) && Bound(h, u)
    ensures RunMove(c, u, m, fails, now).1 <==> CanMove(c, u, m, now) && !(fails && Lands(u, m))
  {
    if CanMove(c, u, m, now) {
      var r, snap := Streamed(u, m), TakeSnapshot(u, m.source, [m.key]);
      SnapshotIs(u, m);
      StreamedBound(c, u, h, m, now);
      assert snap.records[0] == r;
      assert forall x :: x in snap.records <==> x == r;
    }
  }

  // ----- The newest version along the moves -----

  /** In `u`, after the moves `done`, the newest version of `k` is what it was in `s`, and who has it. */
  ghost predicate SameNewest(s: Cluster, u: Cluster, done: seq<Move>, k: Key) {
    && Latest(u, k).Some? && Latest(s, k).Some?
    && Latest(u, k).value.version == Latest(s, k).value.version && Latest(u, k).value.deleted == Latest(s, k).value.deleted
    && forall n :: HoldsLatest(u, n, k) <==> Reached(s, done, n, k)
  }

  lemma NewestOther(c: Config, s: Cluster, u: Cluster, t: Cluster, done: seq<Move>, m: Move, k: Key)
    requires SameNewest(s, u, done, k) && SameKey(u, t, k) && u.order == t.order && m.key != k
    ensures SameNewest(s, t, done + [m], k)
  {
    HoldsSame(u, t, 0, k);
    forall n ensures HoldsLatest(t, n, k) <==> Reached(s, done + [m], n, k) {
      HoldsSame(u, t, n, k);
      PlannedNext(done, m, k, n);
      assert HoldsLatest(u, n, k) <==> Reached(s, done, n, k);
    }
  }

  /** A record that is written, not deleted, is taken exactly if the target lacks it. */
  lemma WrittenLands(c: Config, u: Cluster, h: History, m: Move, now: int)
    requires Inv(c, u, h) && CanMove(c, u, m, now) && !Latest(u, m.key).value.deleted
    ensures Lands(u, m) <==> !HoldsLatest(u, m.target, m.key)
    ensures !Deletes(Streamed(u, m)) && !Streamed(u, m).deleted
  {
    StreamedIsLatest(c, u, h, m, now);
    assert KeyOk(c, u, h, m.key);
    if HoldsLatest(u, m.target, m.key) {
      VersionDecides(c, u, h, m.target, m.key);
    } else if !Lands(u, m) {
      RefusedIsThere(c, u, h, m, now);
    }
  }

  lemma WrittenKept(c: Config, u: Cluster, h: History, m: Move, now: int)
    requires Inv(c, u, h) && CanMove(c, u, m, now) && !Latest(u, m.key).value.deleted
    ensures var t := Landed(u, m);
      && Inv(c, t, h) && Latest(t, m.key).Some? && !Latest(t, m.key).value.deleted
      && Latest(t, m.key).value.version == Latest(u, m.key).value.version
  {
    var t, k := Landed(u, m), m.key;
    LandedLatest(c, u, h, m, now);
    if Lands(u, m) {
      SnapshotIs(u, m);
      RecordsOfOk(c, u, h, m.source, [k]);
      assert Streamed(u, m) in [Streamed(u, m)];
      InstallRecordKeeps(c, u, h, m.target, Streamed(u, m));
    }
    assert KeyOk(c, u, h, k) && KeyOk(c, t, h, k);
    LatestIsLast(c, u, h, k);
    LatestIsLast(c, t, h, k);
  }

  lemma WrittenHolders(c: Config, u: Cluster, h: History, m: Move, now: int, n: NodeId)
    requires Inv(c, u, h) && CanMove(c, u, m, now) && !Latest(u, m.key).value.deleted
    ensures HoldsLatest(Landed(u, m), n, m.key) <==> HoldsLatest(u, n, m.key) || n == m.target
  {
    WrittenLands(c, u, h, m, now);
    WrittenKept(c, u, h, m, now);
    StreamedIsLatest(c, u, h, m, now);
    LandedCell(u, m, n, m.key);
    assert m.target in u.stores by { assert m.target in u.stores.Keys; }
  }

  lemma NewestOwn(c: Config, s: Cluster, u: Cluster, h: History, done: seq<Move>, m: Move, fails: bool, now: int)
    requires Inv(c, u, h) && SameNewest(s, u, done, m.key) && !Latest(s, m.key).value.deleted && RunMove(c, u, m, fails, now).1
    ensures SameNewest(s, RunMove(c, u, m, fails, now).0, done + [m], m.key)
  {
    MoveIs(c, u, m, fails, now);
    WrittenLands(c, u, h, m, now);
    WrittenKept(c, u, h, m, now);
    forall n ensures HoldsLatest(Landed(u, m), n, m.key) <==> Reached(s, done + [m], n, m.key) {
      WrittenHolders(c, u, h, m, now, n);
      PlannedNext(done, m, m.key, n);
      assert HoldsLatest(u, n, m.key) <==> Reached(s, done, n, m.key);
    }
  }

  lemma NothingReachedYet(s: Cluster, k: Key)
    requires Latest(s, k).Some?
    ensures SameNewest(s, s, [], k)
  {
    forall n ensures HoldsLatest(s, n, k) <==> Reached(s, [], n, k) {
    }
  }

  lemma {:induction false} WrittenTrack(c: Config, s: Cluster, h: History, moves: seq<Move>, broken: set<nat>, now: int, k: Key)
    requires Inv(c, s, h) && RunMoves(c, s, moves, broken, now).1 && Latest(s, k).Some? && !Latest(s, k).value.deleted
    ensures SameNewest(s, RunMoves(c, s, moves, broken, now).0, moves, k)
  {
    if moves == [] {
      NothingReachedYet(s, k);
    } else {
      var init, m, fails := moves[..|moves| - 1], moves[|moves| - 1], |moves| - 1 in broken;
      assert moves == init + [m];
      WrittenTrack(c, s, h, init, broken, now, k);
      MovesKeep(c, s, h, init, broken, now);
      var u := RunMoves(c, s, init, broken, now).0;
      if m.key == k {
        NewestOwn(c, s, u, h, init, m, fails, now);
      } else {
        MoveElsewhere(c, u, m, fails, now, k);
        MoveFrame(c, u, m, fails, now);
        NewestOther(c, s, u, RunMove(c, u, m, fails, now).0, init, m, k);
      }
    }
  }

  /** Unless it is collected, the newest version of a key stays, with the nodes that moves bring it to. */
  lemma MovesNewest(c: Config, s: Cluster, h: History, moves: seq<Move>, broken: set<nat>, now: int, k: Key)
    requires Inv(c, s, h) && RunMoves(c, s, moves, broken, now).1
    ensures var u := RunMoves(c, s, moves, broken, now).0;
      if Latest(s, k).Some? && !Collected(c, s, moves, now, k) then SameNewest(s, u, moves, k) else Latest(u, k).None?
  {
    var u := RunMoves(c, s, moves, broken, now).0;
    MovesTrack(c, s, h, moves, broken, now, k);
    MovesKeep(c, s, h, moves, broken, now);
    LatestIsMax(c, u, k);
    if Latest(s, k).Some? && !Latest(s, k).value.deleted {
      WrittenTrack(c, s, h, moves, broken, now, k);
    }
  }

  // ----- Which moves can be made -----

  /**
   Move number `i` can be made once the earlier ones are: source and target are up, the source
   has the newest version or was brought it, nothing has been collected, and the target's
   engine works unless the target has the entry already.
   */
  predicate CanMake(c: Config, s: Cluster, moves: seq<Move>, broken: set<nat>, now: int, i: nat)
    requires i < |moves|
  {
    var m, done := moves[i], moves[..i];
    && m.source in Up(c, s, now) && m.target in Up(c, s, now)
    && Latest(s, m.key).Some? && Reached(s, done, m.source, m.key) && !Collected(c, s, done, now, m.key)
    && (i in broken ==> !Tombstone(s, m.key) && Reached(s, done, m.target, m.key))
  }

  lemma MadeIff(c: Config, s: Cluster, h: History, moves: seq<Move>, broken: set<nat>, now: int, i: nat)
    requires Inv(c, s, h) && Bound(h, s) && i < |moves| && RunMoves(c, s, moves[..i], broken, now).1
    ensures RunMoves(c, s, moves[..i + 1], broken, now).1 <==> CanMake(c, s, moves, broken, now, i)
  {
    var u, m := RunMoves(c, s, moves[..i], broken, now).0, moves[i];
    RunNext(c, s, moves, broken, now, i);
    MovesKeep(c, s, h, moves[..i], broken, now);
    MovesFrame(c, s, moves[..i], broken, now);
    MoveMadeIff(c, u, h, m, i in broken, now);
    MovesNewest(c, s, h, moves[..i], broken, now, m.key);
    if CanMove(c, u, m, now) { LandsIff(c, s, u, h, moves[..i], m, now); }
  }

  lemma LandsIff(c: Config, s: Cluster, u: Cluster, h: History, done: seq<Move>, m: Move, now: int)
    requires Inv(c, u, h) && CanMove(c, u, m, now) && SameNewest(s, u, done, m.key)
    ensures Lands(u, m) <==> Tombstone(s, m.key) || !Reached(s, done, m.target, m.key)
  {
    if Tombstone(s, m.key) {
      GraveLands(c, u, h, m, now);
    } else {
      WrittenLands(c, u, h, m, now);
      assert HoldsLatest(u, m.target, m.key) <==> Reached(s, done, m.target, m.key);
    }
  }

  predicate AllMake(c: Config, s: Cluster, moves: seq<Move>, broken: set<nat>, now: int, n: nat)
    requires n <= |moves|
  {
    forall i | 0 <= i < n :: CanMake(c, s, moves, broken, now, i)
  }

  lemma AllMakeNext(c: Config, s: Cluster, moves: seq<Move>, broken: set<nat>, now: int, n: nat)
    requires 0 < n <= |moves|
    ensures AllMake(c, s, moves, broken, now, n) <==>
      AllMake(c, s, moves, broken, now, n - 1) && CanMake(c, s, moves, broken, now, n - 1)
  {
  }

  lemma StaysFailed(c: Config, s: Cluster, moves: seq<Move>, broken: set<nat>, now: int, n: nat)
    requires n < |moves| && !RunMoves(c, s, moves[..n], broken, now).1
    ensures !RunMoves(c, s, moves[..n + 1], broken, now).1
  {
    RunNext(c, s, moves, broken, now, n);
  }

  lemma {:induction false} AllMadeIff(c: Config, s: Cluster, h: History, moves: seq<Move>, broken: set<nat>, now: int, n: nat)
    requires Inv(c, s, h) && Bound(h, s) && n <= |moves|
    ensures RunMoves(c, s, moves[..n], broken, now).1 <==> AllMake(c, s, moves, broken, now, n)
  {
    if n == 0 {
      assert moves[..0] == [];
    } else {
      AllMadeIff(c, s, h, moves, broken, now, n - 1);
      AllMakeNext(c, s, moves, broken, now, n);
      if AllMake(c, s, moves, broken, now, n - 1) {
        MadeIff(c, s, h, moves, broken, now, n - 1);
      } else {
        StaysFailed(c, s, moves, broken, now, n - 1);
      }
    }
  }

  // ----- After the moves -----

  /** Once all moves are made, every new owner of every catalogued key is current. */
  lemma MovedIsCurrent(c: Config, s: Cluster, h: History, plan: Plan, broken: set<nat>, now: int)
    requires Inv(c, s, h) && Fits(c, s, plan) && RunMoves(c, s, plan.moves, broken, now).1
    ensures OwnersCurrent(c, RunMoves(c, s, plan.moves, broken, now).0, plan.target)
  {
    var u := RunMoves(c, s, plan.moves, broken, now).0;
    MovesFrame(c, s, plan.moves, broken, now);
    forall k | k in u.catalog ensures OwnersHoldLatest(c, u, plan.target, k) {
      assert k in s.catalog;
      MovesNewest(c, s, h, plan.moves, broken, now, k);
      if Latest(u, k).Some? { OwnersReachedIt(c, s, u, plan, k); }
    }
  }

  lemma OwnersReachedIt(c: Config, s: Cluster, u: Cluster, plan: Plan, k: Key)
    requires Fits(c, s, plan) && k in s.catalog && SameNewest(s, u, plan.moves, k)
    ensures OwnersHoldLatest(c, u, plan.target, k)
  {
    assert AllPlanned(c, s, plan, k);
    forall n | n in OwnersOn(c, plan.target, k) ensures HasRecord(u, n, k, Latest(u, k).value) {
      assert HoldsLatest(u, n, k) <==> Reached(s, plan.moves, n, k);
    }
  }

  /** A member that raises on deletes has a catalogued key to give up, which no move has collected. */
  predicate Stuck(c: Config, s: Cluster, plan: Plan, stuck: set<NodeId>, now: int) {
    exists n, k | n in s.ring.nodes && k in s.catalog :: GivesUp(c, s, plan, stuck, now, n, k)
  }

  predicate GivesUp(c: Config, s: Cluster, plan: Plan, stuck: set<NodeId>, now: int, n: NodeId, k: Key) {
    n in stuck && n !in OwnersOn(c, plan.target, k) && !Collected(c, s, plan.moves, now, k)
  }

  lemma StuckIff(c: Config, s: Cluster, h: History, plan: Plan, broken: set<nat>, stuck: set<NodeId>, now: int)
    requires Inv(c, s, h) && RunMoves(c, s, plan.moves, broken, now).1
    ensures Blocked(c, Switch(RunMoves(c, s, plan.moves, broken, now).0, plan), s.ring.nodes, stuck) <==> Stuck(c, s, plan, stuck, now)
  {
    var u := RunMoves(c, s, plan.moves, broken, now).0;
    var x := Switch(u, plan);
    forall n, k ensures k in FormerKeys(c, x, n) <==>
      k in s.catalog && !Collected(c, s, plan.moves, now, k) && n !in OwnersOn(c, plan.target, k)
    {
      MovesTrack(c, s, h, plan.moves, broken, now, k);
      FormerIs(c, u, plan, n, k);
    }
    if n :| n in s.ring.nodes && n in stuck && FormerKeys(c, x, n) != {} {
      var k :| k in FormerKeys(c, x, n);
      assert GivesUp(c, s, plan, stuck, now, n, k);
    }
    if Stuck(c, s, plan, stuck, now) {
      var n, k :| n in s.ring.nodes && k in s.catalog && GivesUp(c, s, plan, stuck, now, n, k);
      assert k in FormerKeys(c, x, n);
    }
  }

  lemma FormerIs(c: Config, u: Cluster, plan: Plan, n: NodeId, k: Key)
    ensures k in FormerKeys(c, Switch(u, plan), n) <==> k in u.catalog && n !in OwnersOn(c, plan.target, k)
  {
  }

  lemma SucceedsIs(c: Config, s: Cluster, plan: Plan, sweep: seq<Key>, broken: set<nat>, stuck: set<NodeId>, now: int)
    ensures var s1 := Detect(c, s, now);
      var (m, moved) := RunMoves(c, s1, plan.moves, broken, now);
      Rebalance(c, s, plan, sweep, broken, stuck, now).1.Ok? <==>
        Starts(c, s1, plan) && moved && OwnersCurrent(c, m, plan.target) && !Blocked(c, Switch(m, plan), s1.ring.nodes, stuck)
  {
  }

  /**
   When a rebalance succeeds, told from the state after failure detection: the plan is of this
   leadership and ring and is the one recomputed, every move can be made in its turn, and
   no member that raises on deletes has a copy to drop.  In particular it then needs no
   further luck: the owners it verifies at the end are always current.
   */
  lemma RebalanceSucceedsIff(c: Config, s: Cluster, h: History, plan: Plan, sweep: seq<Key>, broken: set<nat>, stuck: set<NodeId>, now: int)
    requires Inv(c, s, h) && Bound(h, s)
    ensures var s1 := Detect(c, s, now);
      Rebalance(c, s, plan, sweep, broken, stuck, now).1.Ok? <==>
        && plan.fence.term == s1.term && plan.fence.leader == s1.leader && plan.baseVersion == s1.ring.version && Fits(c, s1, plan)
        && AllMake(c, s1, plan.moves, broken, now, |plan.moves|)
        && !Stuck(c, s1, plan, stuck, now)
    ensures var (s1, r) := (Detect(c, s, now), Rebalance(c, s, plan, sweep, broken, stuck, now).1);
      r.Err? ==> r.error == if plan.fence == Fence(s1.term, s1.leader) then RebalanceError else FenceError
  {
    var s1 := Detect(c, s, now);
    DetectIsControl(c, s, now);
    ControlStepKeeps(c, s, s1, h);
    BoundLater(h, [], s, s1);
    assert h + [] == h && plan.moves[..|plan.moves|] == plan.moves;
    SucceedsIs(c, s, plan, sweep, broken, stuck, now);
    AllMadeIff(c, s1, h, plan.moves, broken, now, |plan.moves|);
    if RunMoves(c, s1, plan.moves, broken, now).1 {
      StuckIff(c, s1, h, plan, broken, stuck, now);
      if Fits(c, s1, plan) { MovedIsCurrent(c, s1, h, plan, broken, now); }
    }
  }

  // ----- Membership afterwards -----

  lemma SuccessIs(c: Config, s: Cluster, plan: Plan, sweep: seq<Key>, broken: set<nat>, stuck: set<NodeId>, now: int)
    requires Rebalance(c, s, plan, sweep, broken, stuck, now).1.Ok?
    ensures var s1 := Detect(c, s, now);
      var m := RunMoves(c, s1, plan.moves, broken, now).0;
      var d := DropFormer(c, Switch(m, plan), s1.ring.nodes);
      && Fits(c, s1, plan) && RunMoves(c, s1, plan.moves, broken, now).1 && OwnersCurrent(c, m, plan.target)
      && Rebalance(c, s, plan, sweep, broken, stuck, now).0 == Elect(c, CollectAll(c, d, sweep, Up(c, d, now)), now)
  {
  }

  lemma SweptWellFormed(c: Config, d: Cluster, sweep: seq<Key>, up: set<NodeId>)
    requires WellFormed(c, d)
    ensures var x := CollectAll(c, d, sweep, up);
      WellFormed(c, x) && x.nodes == d.nodes && x.term == d.term && x.leader == d.leader && x.ring == d.ring
  {
    CollectAllFrame(c, d, sweep, up);
    FrameWellFormed(c, d, CollectAll(c, d, sweep, up));
  }

  lemma ElectedAfter(c: Config, d: Cluster, sweep: seq<Key>, now: int)
    requires WellFormed(c, d)
    ensures var t := Elect(c, CollectAll(c, d, sweep, Up(c, d, now)), now);
      t.nodes == d.nodes && t.ring == d.ring && Elected(c, t.(term := d.term, leader := d.leader), t, now)
  {
    var x := CollectAll(c, d, sweep, Up(c, d, now));
    SweptWellFormed(c, d, sweep, Up(c, d, now));
    ElectIs(c, x, now);
    assert Elect(c, x, now).(term := d.term, leader := d.leader) == x;
  }

  function StatusAt(s: Cluster, n: NodeId): Status
    requires n in s.nodes
  {
    match s.nodes[n].status
    case Joining => Active
    case Draining => Drained
    case Removing => Removed
    case other => other
  }

  lemma SwitchedNode(c: Config, s: Cluster, h: History, plan: Plan, broken: set<nat>, now: int, m: Cluster, n: NodeId)
    requires Streamable(c, s, h, plan, broken, now, m) && n in s.nodes
    ensures var d := DropFormer(c, Switch(m, plan), s.ring.nodes);
      && WellFormed(c, d) && d.ring == plan.target && d.term == s.term && d.leader == s.leader
      && n in d.nodes && d.nodes[n] == Node(StatusAt(s, n), s.nodes[n].heartbeat)
  {
    SwitchShape(c, s, h, plan, broken, now, m);
    SwitchStatus(c, s, m, plan, n);
  }

  /** Who is in service after a rebalance that succeeded, and who leads. */
  lemma RebalanceLeaves(c: Config, s: Cluster, h: History, plan: Plan, sweep: seq<Key>, broken: set<nat>, stuck: set<NodeId>, now: int, n: NodeId)
    requires Inv(c, s, h) && n in Detect(c, s, now).nodes && Rebalance(c, s, plan, sweep, broken, stuck, now).1.Ok?
    ensures var (s1, t) := (Detect(c, s, now), Rebalance(c, s, plan, sweep, broken, stuck, now).0);
      && t.ring == plan.target && n in t.nodes && t.nodes[n] == Node(StatusAt(s1, n), s1.nodes[n].heartbeat)
      && Elected(c, t.(term := s1.term, leader := s1.leader), t, now)
  {
    var s1 := Detect(c, s, now);
    var m := RunMoves(c, s1, plan.moves, broken, now).0;
    DetectIsControl(c, s, now);
    ControlStepKeeps(c, s, s1, h);
    SuccessIs(c, s, plan, sweep, broken, stuck, now);
    SwitchedNode(c, s1, h, plan, broken, now, m, n);
    ElectedAfter(c, DropFormer(c, Switch(m, plan), s1.ring.nodes), sweep, now);
  }

  lemma SweptNotDone(c: Config, d: Cluster, x: Cluster, sweep: seq<Key>, up: set<NodeId>, k: Key)
    requires Swept(c, d, x, sweep, up, k) && d.ring == x.ring && k in sweep && k in x.catalog
    ensures !Done(c, x, k, up)
  {
    assert SameKey(d, x, k);
    DoneSame(c, d, x, up, k);
  }

  /** The sweep that ends a rebalance leaves no tombstone that every owner has, all of them up. */
  lemma NoneLeftToCollect(c: Config, s: Cluster, h: History, plan: Plan, sweep: seq<Key>, broken: set<nat>, stuck: set<NodeId>, now: int, k: Key)
    requires Inv(c, s, h) && Rebalance(c, s, plan, sweep, broken, stuck, now).1.Ok? && Tidy(c, Detect(c, s, now), plan)
    requires k in sweep && k in Rebalance(c, s, plan, sweep, broken, stuck, now).0.catalog
    ensures var t := Rebalance(c, s, plan, sweep, broken, stuck, now).0; !Done(c, t, k, Up(c, t, now))
  {
    var s1 := Detect(c, s, now);
    var m := RunMoves(c, s1, plan.moves, broken, now).0;
    var d := DropFormer(c, Switch(m, plan), s1.ring.nodes);
    DetectIsControl(c, s, now);
    ControlStepKeeps(c, s, s1, h);
    SuccessIs(c, s, plan, sweep, broken, stuck, now);
    SwitchKeeps(c, s1, h, plan, broken, now, m);
    SweepEnds(c, d, h, sweep, now, k);
  }

  lemma SweepEnds(c: Config, d: Cluster, h: History, sweep: seq<Key>, now: int, k: Key)
    requires Inv(c, d, h) && k in sweep
    requires k in Elect(c, CollectAll(c, d, sweep, Up(c, d, now)), now).catalog
    ensures var t := Elect(c, CollectAll(c, d, sweep, Up(c, d, now)), now); !Done(c, t, k, Up(c, t, now))
  {
    var up := Up(c, d, now);
    var x := CollectAll(c, d, sweep, up);
    var t := Elect(c, x, now);
    SweepIs(c, d, h, sweep, up, k);
    SweptWellFormed(c, d, sweep, up);
    ElectIs(c, x, now);
    SweptNotDone(c, d, x, sweep, up, k);
    assert SameKey(x, t, k) && Up(c, t, now) == up;
    DoneSame(c, x, t, up, k);
  }

  // ----- Joining and leaving -----

  lemma TargetHas(c: Config, s: Cluster, plan: Plan, n: NodeId)
    requires Fits(c, s, plan) && n in s.nodes
    ensures n in plan.target.nodes <==>
      (n in s.ring.nodes || s.nodes[n].status == Joining) && s.nodes[n].status != Draining && s.nodes[n].status != Removing
  {
    assert n in WithStatus(s, Joining) <==> s.nodes[n].status == Joining;
    assert n in Leavers(s) <==> s.nodes[n].status == Draining || s.nodes[n].status == Removing;
  }

  /** A known node after a rebalance that succeeded: in or out of the ring, by its status before. */
  lemma MemberAfter(c: Config, s: Cluster, h: History, plan: Plan, sweep: seq<Key>, broken: set<nat>, stuck: set<NodeId>, now: int, n: NodeId)
    requires Inv(c, s, h) && n in s.nodes && Rebalance(c, s, plan, sweep, broken, stuck, now).1.Ok?
    ensures var (s1, t) := (Detect(c, s, now), Rebalance(c, s, plan, sweep, broken, stuck, now).0);
      && n in s1.nodes && n in t.nodes && t.nodes[n].status == StatusAt(s1, n)
      && (n in t.ring.nodes <==>
            (n in s.ring.nodes || s1.nodes[n].status == Joining) && s1.nodes[n].status != Draining && s1.nodes[n].status != Removing)
  {
    DetectIs(c, s, now, n);
    DetectIsControl(c, s, now);
    RebalanceLeaves(c, s, h, plan, sweep, broken, stuck, now, n);
    SuccessIs(c, s, plan, sweep, broken, stuck, now);
    TargetHas(c, Detect(c, s, now), plan, n);
  }

  /** A node that was added is a member after the next rebalance that succeeds, unless it has timed out by then. */
  lemma AddedServes(c: Config, s: Cluster, h: History, n: NodeId, at: int,
                    plan: Plan, sweep: seq<Key>, broken: set<nat>, stuck: set<NodeId>, now: int)
    requires Inv(c, s, h) && n !in s.nodes && Rebalance(c, AddNode(s, n, at), plan, sweep, broken, stuck, now).1.Ok?
    ensures n !in AddNode(s, n, at).ring.nodes
    ensures var t := Rebalance(c, AddNode(s, n, at), plan, sweep, broken, stuck, now).0;
      && n in t.nodes && (n in t.ring.nodes <==> now <= at + c.timeout)
      && t.nodes[n].status == if now <= at + c.timeout then Active else Down
  {
    var a := AddNode(s, n, at);
    AddKeeps(c, s, h, n, at);
    DetectIs(c, a, now, n);
    MemberAfter(c, a, h, plan, sweep, broken, stuck, now, n);
  }

  /**
   A member that was told to leave is gone after the next rebalance that succeeds, with no copy
   of a catalogued key, unless it was to be drained and has timed out: then it stays, down.
   */
  lemma LeaverLeaves(c: Config, s: Cluster, h: History, n: NodeId, removing: bool,
                     plan: Plan, sweep: seq<Key>, broken: set<nat>, stuck: set<NodeId>, now: int, k: Key)
    requires Inv(c, s, h) && n in s.ring.nodes && |s.ring.nodes| > 1
    requires Rebalance(c, LeaveNode(s, n, removing), plan, sweep, broken, stuck, now).1.Ok?
    ensures var t := Rebalance(c, LeaveNode(s, n, removing), plan, sweep, broken, stuck, now).0;
      var leaves := removing || now <= s.nodes[n].heartbeat + c.timeout;
      && n in t.nodes && (n !in t.ring.nodes <==> leaves)
      && t.nodes[n].status == (if !leaves then Down else if removing then Removed else Drained)
      && (leaves && k in t.catalog ==> MetaAt(t, n, k).None? && EntryAt(t, n, k).None?)
  {
    var a := LeaveNode(s, n, removing);
    var t := Rebalance(c, a, plan, sweep, broken, stuck, now).0;
    LeaveKeeps(c, s, h, n, removing);
    DetectIs(c, a, now, n);
    MemberAfter(c, a, h, plan, sweep, broken, stuck, now, n);
    if n !in t.ring.nodes && k in t.catalog { NonMemberHoldsNone(c, a, h, plan, sweep, broken, stuck, now, n, k); }
  }

  lemma NonMemberHoldsNone(c: Config, a: Cluster, h: History, plan: Plan, sweep: seq<Key>, broken: set<nat>, stuck: set<NodeId>, now: int,
                           n: NodeId, k: Key)
    requires Inv(c, a, h) && n in a.ring.nodes && Rebalance(c, a, plan, sweep, broken, stuck, now).1.Ok?
    requires var t := Rebalance(c, a, plan, sweep, broken, stuck, now).0; n !in t.ring.nodes && k in t.catalog
    ensures var t := Rebalance(c, a, plan, sweep, broken, stuck, now).0; MetaAt(t, n, k).None? && EntryAt(t, n, k).None?
  {
    SuccessIsCurrent(c, a, plan, sweep, broken, stuck, now, k);
    DetectIsControl(c, a, now);
    SuccessIs(c, a, plan, sweep, broken, stuck, now);
    OwnersAreDistinctMembers(plan.target, c.token(k), c.replicas);
  }
}
