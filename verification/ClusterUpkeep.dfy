/**
 Elections, heartbeats, sweeps, flushes, snapshots and bootstraps: when they take effect and
 exactly what they leave, told in nodes, cells and the acknowledged changes.
 */
module ClusterUpkeep {
  import opened HashRing
  import opened ClusterModel
  import opened ClusterInvariant
  import opened ClusterSteps
  import opened ClusterSnapshots
  import opened ClusterMoves
  import opened ClusterAnswers

  // ----- Leadership -----

  /** A member of the ring that can lead. */
  ghost predicate CanLead(c: Config, s: Cluster, now: int, n: NodeId) {
    n in s.ring.nodes && Serving(c, s, now, n)
  }

  lemma CandidatesAre(c: Config, s: Cluster, now: int, n: NodeId)
    requires WellFormed(c, s)
    ensures n in Select(s.order, s.ring.nodes * Up(c, s, now)) <==> CanLead(c, s, now, n)
  {
    SelectMember(s.order, s.ring.nodes * Up(c, s, now), n);
    UpIsServing(c, s, now, n);
  }

  lemma {:induction false} LeastIs(ns: seq<NodeId>)
    requires ns != []
    ensures Least(ns) in ns && forall n | n in ns :: Least(ns) <= n
  {
    if |ns| > 1 {
      assert ns == ns[..|ns| - 1] + [ns[|ns| - 1]];
      LeastIs(ns[..|ns| - 1]);
    }
  }

  /** Only a leader that cannot lead is replaced, in a new term, by the least member that can. */
  ghost predicate Elected(c: Config, s: Cluster, t: Cluster, now: int) {
    && t == s.(term := t.term, leader := t.leader)
    && (CanLead(c, s, now, s.leader) ==> t == s)
    && (!CanLead(c, s, now, s.leader) ==>
      && t.term == s.term + 1
      && ((exists n :: CanLead(c, s, now, n)) ==> CanLead(c, s, now, t.leader) && forall n | CanLead(c, s, now, n) :: t.leader <= n)
      && ((forall n :: !CanLead(c, s, now, n)) ==> t.leader == s.leader))
  }

  lemma ElectIs(c: Config, s: Cluster, now: int)
    requires WellFormed(c, s)
    ensures Elected(c, s, Elect(c, s, now), now)
  {
    var candidates := Select(s.order, s.ring.nodes * Up(c, s, now));
    forall n ensures n in candidates <==> CanLead(c, s, now, n) {
      CandidatesAre(c, s, now, n);
    }
    if candidates != [] {
      LeastIs(candidates);
      assert CanLead(c, s, now, candidates[0]);
    }
  }

  /** Failure detection elects if and only if some node has timed out, and then as told. */
  lemma DetectElects(c: Config, s: Cluster, now: int)
    requires WellFormed(c, s)
    ensures var t := Detect(c, s, now);
      if exists n :: n in s.nodes && InService(s.nodes[n].status) && !Serving(c, s, now, n)
      then Elected(c, s.(nodes := t.nodes), t, now)
      else t == s
  {
    var failed := TimedOut(c, s, now);
    if n :| n in s.nodes && InService(s.nodes[n].status) && !Serving(c, s, now, n) {
      assert n in failed;
      ElectIs(c, s.(nodes := MarkDown(s.nodes, failed)), now);
    } else {
      forall n ensures n !in failed {
        assert n in failed ==> n in s.nodes && InService(s.nodes[n].status) && !Serving(c, s, now, n);
      }
      assert failed == {};
    }
  }

  /** A node reported down is down, no other node changes, and leadership is settled again. */
  lemma NodeDownIs(c: Config, s: Cluster, n: NodeId, now: int)
    requires WellFormed(c, s) && n in s.nodes
    ensures var t := NodeDown(c, s, n, now);
      var gone := s.(nodes := s.nodes[n := Node(Down, s.nodes[n].heartbeat)]);
      t.nodes == gone.nodes && Elected(c, gone, t, now)
  {
    var gone := s.(nodes := s.nodes[n := Node(Down, s.nodes[n].heartbeat)]);
    assert MarkDown(s.nodes, {n}) == gone.nodes;
    assert WellFormed(c, gone);
    ElectIs(c, gone, now);
  }

  // ----- Sweeps -----

  /** Every owner is up and has the tombstone of version `v`, and no node has anything newer. */
  ghost predicate Graved(c: Config, s: Cluster, k: Key, up: set<NodeId>, v: Version) {
    && (forall n | n in Owners(c, s, k) :: n in up && MetaAt(s, n, k) == Some(Meta(v, true)) && EntryAt(s, n, k).None?)
    && (forall n | MetaAt(s, n, k).Some? :: !v.Less(MetaAt(s, n, k).value.version))
  }

  ghost predicate Done(c: Config, s: Cluster, k: Key, up: set<NodeId>) {
    exists v :: Graved(c, s, k, up, v)
  }

  lemma CollectableIsDone(c: Config, s: Cluster, h: History, k: Key, up: set<NodeId>)
    requires Inv(c, s, h)
    ensures Collectable(c, s, k, up) <==> Done(c, s, k, up)
    ensures Collectable(c, s, k, up) ==> Graved(c, s, k, up, Latest(s, k).value.version)
  {
    LatestIsMax(c, s, k);
    assert KeyOk(c, s, h, k);
    OwnersAreDistinctMembers(s.ring, c.token(k), c.replicas);
    if Collectable(c, s, k, up) {
      CollectableGraved(c, s, h, k, up);
    }
    if v :| Graved(c, s, k, up, v) {
      GravedCollectable(c, s, h, k, up, v);
    }
  }

  lemma CollectableGraved(c: Config, s: Cluster, h: History, k: Key, up: set<NodeId>)
    requires Inv(c, s, h) && Collectable(c, s, k, up)
    ensures Graved(c, s, k, up, Latest(s, k).value.version)
  {
    var m := Latest(s, k).value;
    LatestIsMax(c, s, k);
    assert KeyOk(c, s, h, k);
    LatestIsLast(c, s, h, k);
    forall n | n in Owners(c, s, k)
      ensures n in up && MetaAt(s, n, k) == Some(Meta(m.version, true)) && EntryAt(s, n, k).None?
    {
      assert HasRecord(s, n, k, m);
      HolderHasLast(c, s, h, k, n);
    }
  }

  lemma GravedCollectable(c: Config, s: Cluster, h: History, k: Key, up: set<NodeId>, v: Version)
    requires Inv(c, s, h) && Graved(c, s, k, up, v)
    ensures Collectable(c, s, k, up)
  {
    OwnersAreDistinctMembers(s.ring, c.token(k), c.replicas);
    var n := Owners(c, s, k)[0];
    assert n in Owners(c, s, k);
    LatestIsMax(c, s, k);
    assert MetaAt(s, n, k).Some?;
    assert KeyOk(c, s, h, k);
    var x :| MetaAt(s, x, k) == Latest(s, k);
    var d := CommitOf(c, s, h, k, n);
    var e := CommitOf(c, s, h, k, x);
    ChainOrder(h, s, d, e);
    ChainOrder(h, s, e, d);
  }

  /** What a sweep over `keys` leaves of key `k`. */
  ghost predicate Swept(c: Config, s: Cluster, t: Cluster, keys: seq<Key>, up: set<NodeId>, k: Key) {
    && (forall n :: EntryAt(t, n, k) == EntryAt(s, n, k))
    && (if k in keys && Done(c, s, k, up) then Vacant(t, k) else forall n :: MetaAt(t, n, k) == MetaAt(s, n, k))
    && (k in t.catalog <==> k in s.catalog && !(k in keys && Done(c, s, k, up)))
  }

  lemma CollectSweeps(c: Config, s: Cluster, h: History, k: Key, up: set<NodeId>, j: Key)
    requires Inv(c, s, h)
    ensures Swept(c, s, Collect(c, s, k, up), [k], up, j)
  {
    CollectableIsDone(c, s, h, k, up);
    var t := Collect(c, s, k, up);
    forall n ensures EntryAt(t, n, j) == EntryAt(s, n, j) {
      CollectCell(c, s, k, up, n, j);
    }
    forall n ensures MetaAt(t, n, j) == if j == k && Collectable(c, s, k, up) then None else MetaAt(s, n, j) {
      CollectCell(c, s, k, up, n, j);
    }
  }

  lemma DoneSame(c: Config, s: Cluster, t: Cluster, up: set<NodeId>, k: Key)
    requires SameKey(s, t, k) && s.ring == t.ring
    ensures Done(c, s, k, up) <==> Done(c, t, k, up)
  {
    assert forall n :: MetaAt(s, n, k) == MetaAt(t, n, k) && EntryAt(s, n, k) == EntryAt(t, n, k);
    if v :| Graved(c, s, k, up, v) {
      assert Graved(c, t, k, up, v);
    }
    if v :| Graved(c, t, k, up, v) {
      assert Graved(c, s, k, up, v);
    }
  }

  lemma VacantNotDone(c: Config, s: Cluster, k: Key, up: set<NodeId>)
    requires WellFormed(c, s) && Vacant(s, k)
    ensures !Done(c, s, k, up)
  {
    OwnersAreDistinctMembers(s.ring, c.token(k), c.replicas);
    var n := Owners(c, s, k)[0];
    assert n in Owners(c, s, k) && MetaAt(s, n, k).None?;
  }

  /** A sweep collects exactly the tombstones that every owner has, all of them up, and touches nothing else. */
  lemma {:induction false} SweepIs(c: Config, s: Cluster, h: History, keys: seq<Key>, up: set<NodeId>, k: Key)
    requires Inv(c, s, h)
    ensures Swept(c, s, CollectAll(c, s, keys, up), keys, up, k)
  {
    if keys != [] {
      var init, j := keys[..|keys| - 1], keys[|keys| - 1];
      assert keys == init + [j];
      var u := CollectAll(c, s, init, up);
      SweepIs(c, s, h, init, up, k);
      CollectAllKeeps(c, s, h, init, up);
      CollectSweeps(c, u, h, j, up, k);
      SweepNext(c, s, u, CollectAll(c, s, keys, up), init, j, up, k);
    }
  }

  lemma SweepNext(c: Config, s: Cluster, u: Cluster, t: Cluster, init: seq<Key>, j: Key, up: set<NodeId>, k: Key)
    requires WellFormed(c, u) && s.ring == u.ring
    requires Swept(c, s, u, init, up, k) && Swept(c, u, t, [j], up, k)
    ensures Swept(c, s, t, init + [j], up, k)
  {
    if k in init && Done(c, s, k, up) {
      VacantNotDone(c, u, k, up);
      assert forall n :: MetaAt(t, n, k) == MetaAt(u, n, k);
    } else {
      assert SameKey(s, u, k);
      DoneSame(c, s, u, up, k);
    }
  }

  lemma GravedSame(c: Config, s: Cluster, t: Cluster, up: set<NodeId>, k: Key, v: Version)
    requires SameKey(s, t, k) && s.ring == t.ring && Graved(c, t, k, up, v)
    ensures Graved(c, s, k, up, v)
  {
    assert forall n :: MetaAt(s, n, k) == MetaAt(t, n, k) && EntryAt(s, n, k) == EntryAt(t, n, k);
  }

  lemma CollectMark(c: Config, s: Cluster, h: History, k: Key, up: set<NodeId>) returns (v: Version)
    requires Inv(c, s, h)
    ensures var t := Collect(c, s, k, up);
      t.watermark == s.watermark || (Graved(c, s, k, up, v) && t.watermark == Some(v))
  {
    v := Version(0, 0, 0);
    if Collectable(c, s, k, up) {
      CollectableIsDone(c, s, h, k, up);
      v := Latest(s, k).value.version;
    }
  }

  /** The watermark after a sweep is the one before, or the version of a tombstone that was collected. */
  lemma {:induction false} SweepMark(c: Config, s: Cluster, h: History, keys: seq<Key>, up: set<NodeId>) returns (k: Key, v: Version)
    requires Inv(c, s, h)
    ensures var t := CollectAll(c, s, keys, up);
      t.watermark == s.watermark || (k in keys && Graved(c, s, k, up, v) && t.watermark == Some(v))
  {
    k, v := "", Version(0, 0, 0);
    if keys != [] {
      var init, j := keys[..|keys| - 1], keys[|keys| - 1];
      assert keys == init + [j];
      var u := CollectAll(c, s, init, up);
      k, v := SweepMark(c, s, h, init, up);
      CollectAllKeeps(c, s, h, init, up);
      var w := CollectMark(c, u, h, j, up);
      if CollectAll(c, s, keys, up).watermark != u.watermark {
        SweepIs(c, s, h, init, up, j);
        assert Done(c, u, j, up);
        if j in init && Done(c, s, j, up) { VacantNotDone(c, u, j, up); }
        GravedSame(c, s, u, up, j, w);
        k, v := j, w;
      }
    }
  }

  /** And it covers every tombstone that was collected. */
  lemma SweepCovers(c: Config, s: Cluster, h: History, keys: seq<Key>, up: set<NodeId>, k: Key, v: Version)
    requires Inv(c, s, h) && k in keys && Graved(c, s, k, up, v)
    ensures var t := CollectAll(c, s, keys, up); t.watermark.Some? && !t.watermark.value.Less(v)
  {
    var t := CollectAll(c, s, keys, up);
    SweepIs(c, s, h, keys, up, k);
    CollectAllKeeps(c, s, h, keys, up);
    assert KeyOk(c, s, h, k) && KeyOk(c, t, h, k);
    GravedIsLast(c, s, h, k, up, v);
    forall n ensures MetaAt(t, n, k).None? {
      assert Vacant(t, k);
    }
  }

  lemma GravedIsLast(c: Config, s: Cluster, h: History, k: Key, up: set<NodeId>, v: Version)
    requires Inv(c, s, h) && Graved(c, s, k, up, v)
    ensures Last(h, k).Some? && Last(h, k).value.version == v
  {
    OwnersAreDistinctMembers(s.ring, c.token(k), c.replicas);
    var n := Owners(c, s, k)[0];
    assert n in Owners(c, s, k) && MetaAt(s, n, k).Some?;
    GravedCollectable(c, s, h, k, up, v);
    assert KeyOk(c, s, h, k);
    LatestIsLast(c, s, h, k);
    assert HasRecord(s, n, k, Latest(s, k).value);
  }

  // ----- Heartbeats -----

  /** Where a node returns to when it is heard of again. */
  function StatusBack(s: Cluster, n: NodeId): Status
    requires n in s.nodes
  {
    match s.nodes[n].status
    case Down => if n in s.ring.nodes then Active else Joining
    case other => other
  }

  /**
   A heartbeat: the node is seen now and back from `Down`, no other node changes, leadership is
   settled again, and the sweep collects what is done.
   */
  lemma HeartbeatIs(c: Config, s: Cluster, h: History, n: NodeId, sweep: seq<Key>, now: int, k: Key)
    requires Inv(c, s, h) && n in s.nodes
    ensures var t := Heartbeat(c, s, n, sweep, now);
      var seen := s.(nodes := s.nodes[n := Node(StatusBack(s, n), now)]);
      && t.nodes == seen.nodes && t.ring == s.ring && t.sequence == s.sequence
      && Elected(c, seen, seen.(term := t.term, leader := t.leader), now)
      && Swept(c, s, t, sweep, Up(c, seen, now), k)
  {
    var seen := s.(nodes := s.nodes[n := Node(StatusBack(s, n), now)]);
    var s1 := Elect(c, seen, now);
    HeartbeatSees(c, s, h, n, now);
    CollectAllKeeps(c, s1, h, sweep, Up(c, s1, now));
    SweepIs(c, s1, h, sweep, Up(c, s1, now), k);
    SweptFrom(c, s1, s, Heartbeat(c, s, n, sweep, now), sweep, Up(c, s1, now), k);
  }

  lemma HeartbeatSees(c: Config, s: Cluster, h: History, n: NodeId, now: int)
    requires Inv(c, s, h) && n in s.nodes
    ensures var seen := s.(nodes := s.nodes[n := Node(StatusBack(s, n), now)]);
      var s1 := Elect(c, seen, now);
      && s1 == HeartbeatBeforeSweep(c, s, n, now) && s1 == seen.(term := s1.term, leader := s1.leader)
      && Elected(c, seen, s1, now) && Inv(c, s1, h) && Up(c, s1, now) == Up(c, seen, now)
  {
    var seen := s.(nodes := s.nodes[n := Node(StatusBack(s, n), now)]);
    var s1 := Elect(c, seen, now);
    assert WellFormed(c, seen);
    ElectIs(c, seen, now);
    assert ControlStep(s, s1);
    ControlStepKeeps(c, s, s1, h);
  }

  lemma SweptFrom(c: Config, s1: Cluster, s: Cluster, t: Cluster, sweep: seq<Key>, up: set<NodeId>, k: Key)
    requires Swept(c, s1, t, sweep, up, k) && s1.ring == s.ring && s1.catalog == s.catalog && SameKey(s, s1, k)
    ensures Swept(c, s, t, sweep, up, k)
  {
    DoneSame(c, s, s1, up, k);
  }

  // ----- Flush -----

  /** A flush succeeds if and only if every member of the ring is in service. */
  lemma FlushSucceedsIff(c: Config, s: Cluster, now: int)
    requires WellFormed(c, s)
    ensures Flush(c, s, now).1.Ok? <==> forall n | n in s.ring.nodes :: Serving(c, s, now, n)
    ensures Flush(c, s, now).1.Err? ==> Flush(c, s, now) == (Detect(c, s, now), Err(QuorumError))
  {
    var s1 := Detect(c, s, now);
    DetectIsControl(c, s, now);
    forall n | n in s.ring.nodes ensures n in Up(c, s1, now) <==> Serving(c, s, now, n) {
      DetectIs(c, s, now, n);
      UpIsServing(c, s1, now, n);
    }
    AllUp(s.ring.nodes, Up(c, s1, now));
  }

  lemma AllUp(members: set<NodeId>, up: set<NodeId>)
    ensures members <= up <==> forall n | n in members :: n in up
  {
    if forall n | n in members :: n in up {
      forall n ensures n in members * up <==> n in members {
      }
      assert members * up == members;
    }
  }

  lemma FlushControl(c: Config, s: Cluster, up: set<NodeId>)
    requires FlushReachable(s, up).1.Ok?
    ensures var t := FlushReachable(s, up).0;
      && t.ring == s.ring && t.nodes == s.nodes && t.term == s.term && t.leader == s.leader && t.sequence == s.sequence + 1
      && t.watermark == Some(Version(t.term, t.sequence, t.leader)) && t.catalog == {}
  {
  }

  lemma FlushCell(c: Config, s: Cluster, up: set<NodeId>, n: NodeId, k: Key)
    requires WellFormed(c, s) && FlushReachable(s, up).1.Ok?
    ensures var t := FlushReachable(s, up).0;
      if n in s.nodes && s.nodes[n].status == Removed
      then MetaAt(t, n, k) == MetaAt(s, n, k) && EntryAt(t, n, k) == EntryAt(s, n, k)
      else MetaAt(t, n, k).None? && EntryAt(t, n, k).None?
  {
    if n !in s.nodes { assert n !in s.metadata.Keys && n !in s.stores.Keys; }
  }

  lemma DetectRemoved(c: Config, s: Cluster, now: int, n: NodeId, k: Key)
    requires WellFormed(c, s)
    ensures var s1 := Detect(c, s, now);
      && WellFormed(c, s1) && s1.ring == s.ring && s1.sequence == s.sequence
      && MetaAt(s1, n, k) == MetaAt(s, n, k) && EntryAt(s1, n, k) == EntryAt(s, n, k)
      && (n in s1.nodes && s1.nodes[n].status == Removed <==> n in s.nodes && s.nodes[n].status == Removed)
  {
    DetectIsControl(c, s, now);
    if n in s.nodes { DetectIs(c, s, now, n); }
  }

  /** What it leaves: the copies of removed nodes, a newer watermark, and nothing catalogued. */
  lemma FlushLeaves(c: Config, s: Cluster, now: int, n: NodeId, k: Key)
    requires WellFormed(c, s) && Flush(c, s, now).1.Ok?
    ensures var (s1, t) := (Detect(c, s, now), Flush(c, s, now).0);
      && t.ring == s.ring && t.nodes == s1.nodes && t.term == s1.term && t.leader == s1.leader && t.sequence == s.sequence + 1
      && t.watermark == Some(Version(t.term, t.sequence, t.leader)) && t.catalog == {}
      && if n in s.nodes && s.nodes[n].status == Removed
         then MetaAt(t, n, k) == MetaAt(s, n, k) && EntryAt(t, n, k) == EntryAt(s, n, k)
         else MetaAt(t, n, k).None? && EntryAt(t, n, k).None?
  {
    var s1 := Detect(c, s, now);
    DetectRemoved(c, s, now, n, k);
    FlushControl(c, s1, Up(c, s1, now));
    FlushCell(c, s1, Up(c, s1, now), n, k);
  }

  // ----- Snapshots -----

  /** The record a snapshot makes of node `n`'s cell. */
  predicate Copies(s: Cluster, n: NodeId, r: Record) {
    var m, e := MetaAt(s, n, r.key), EntryAt(s, n, r.key);
    && r.entry == e
    && (m.Some? ==> r.version == m.value.version && (r.deleted <==> m.value.deleted || e.None?))
    && (m.None? ==> e.Some? && r.version == Version(0, 0, n) && !r.deleted)
  }

  /** A snapshot has a record of every key the node has anything of, and no other. */
  lemma {:induction false} SnapshotHolds(s: Cluster, n: NodeId, keys: seq<Key>, r: Record)
    ensures r in TakeSnapshot(s, n, keys).records <==> r.key in keys && Copies(s, n, r)
    ensures var snap := TakeSnapshot(s, n, keys);
      snap.ringVersion == s.ring.version && snap.fence == Fence(s.term, s.leader)
  {
    if keys != [] {
      var init, k := keys[..|keys| - 1], keys[|keys| - 1];
      assert keys == init + [k];
      SnapshotHolds(s, n, init, r);
      var last := RecordOf(s, n, k);
      assert RecordsOf(s, n, keys) == RecordsOf(s, n, init) + (if last.Some? then [last.value] else []);
      assert last == Some(r) <==> r.key == k && Copies(s, n, r);
    } else {
      assert RecordsOf(s, n, keys) == [];
    }
  }

  // ----- Bootstrap -----

  /** The record is the last acknowledged change of its key, and node `n` lacks it. */
  ghost predicate Wanted(s: Cluster, h: History, n: NodeId, r: Record) {
    && !Vacant(s, r.key)
    && if r.deleted || r.entry.None?
       then Last(h, r.key) == Some(Deleted(r.version, r.key))
       else
         && Last(h, r.key) == Some(Written(r.version, r.key, r.entry.value))
         && !(Holds(s, n, r.key, r.version) && EntryAt(s, n, r.key).Some?)
  }

  lemma WantedIsAccepted(c: Config, s: Cluster, h: History, n: NodeId, r: Record)
    requires Inv(c, s, h) && Wanted(s, h, n, r)
    ensures Accepts(s, n, r)
  {
    var k := r.key;
    assert KeyOk(c, s, h, k);
    LatestIsLast(c, s, h, k);
    LatestIsMax(c, s, k);
    LastIn(h, k);
    var last := Last(h, k).value;
    ChainOrder(h, s, last, last);
    if MetaAt(s, n, k).Some? {
      var e := CommitOf(c, s, h, k, n);
      ChainOrder(h, s, e, last);
    }
  }

  /** Which records a node takes: exactly the last acknowledged changes that it lacks. */
  lemma AcceptedIff(c: Config, s: Cluster, h: History, n: NodeId, r: Record)
    requires Inv(c, s, h) && RecordOk(h, s.watermark.Some?, r)
    ensures Accepts(s, n, r) <==> Wanted(s, h, n, r)
  {
    if Wanted(s, h, n, r) {
      WantedIsAccepted(c, s, h, n, r);
    } else if Accepts(s, n, r) {
      AcceptedIsNewest(c, s, h, n, r);
      LastIn(h, r.key);
      assert KeyOk(c, s, h, r.key);
      if Holds(s, n, r.key, r.version) { HolderHasLast(c, s, h, r.key, n); }
    }
  }

  /** The stamp is not of a later term, nor of another leader in this one. */
  predicate StampedUnder(r: Record, term: nat, leader: NodeId) {
    r.version.term <= term && (r.version.term == term ==> r.version.leader == leader)
  }

  /**
   A bootstrap succeeds if and only if the node is known, the snapshot is of this ring and
   this leadership, its keys are distinct and its stamps belong to it, and the node's engine
   does not fail a record it has to take.
   */
  lemma BootstrapSucceedsIff(c: Config, s: Cluster, h: History, n: NodeId, snap: Snapshot, fails: bool, now: int)
    requires Inv(c, s, h) && SnapOk(h, s.watermark.Some?, snap)
    ensures Bootstrap(c, s, n, snap, fails, now).1.Ok? <==>
      && n in s.nodes && snap.ringVersion == s.ring.version && snap.fence.term == s.term && snap.fence.leader == s.leader
      && (forall i, j | 0 <= i < j < |snap.records| :: snap.records[i].key != snap.records[j].key)
      && (forall r | r in snap.records :: StampedUnder(r, s.term, s.leader))
      && !(fails && exists r :: r in snap.records && Wanted(s, h, n, r))
    ensures var (t, r) := Bootstrap(c, s, n, snap, fails, now); r.Err? ==> t == s && (!fails ==> r.error == SnapshotError)
  {
    forall r | r in snap.records ensures Accepts(s, n, r) <==> Wanted(s, h, n, r) {
      AcceptedIff(c, s, h, n, r);
    }
    forall r | r in snap.records && snap.fence == Fence(s.term, s.leader)
      ensures StampedUnder(r, s.term, s.leader) <==> BoundToFence(r, snap.fence)
    {
    }
  }

  function RecordFor(rs: seq<Record>, k: Key): Option<Record> {
    if rs == [] then None
    else if rs[|rs| - 1].key == k then Some(rs[|rs| - 1])
    else RecordFor(rs[..|rs| - 1], k)
  }

  lemma {:induction false} RecordForIs(rs: seq<Record>, r: Record)
    requires DistinctKeys(rs)
    ensures r in rs <==> RecordFor(rs, r.key) == Some(r)
  {
    if rs != [] {
      var init, last := rs[..|rs| - 1], rs[|rs| - 1];
      assert rs == init + [last];
      RecordForIs(init, r);
      if r in init {
        var i :| 0 <= i < |init| && init[i] == r;
        assert rs[i].key != rs[|rs| - 1].key;
      }
    }
  }

  /** Node `m`'s cell of `k` after the records of `rs` that `n` takes are installed. */
  predicate Brought(base: Cluster, t: Cluster, n: NodeId, r: Option<Record>, m: NodeId, k: Key) {
    if m == n && n in base.stores && r.Some? && Accepts(base, n, r.value)
    then MetaAt(t, m, k) == Some(Meta(r.value.version, Deletes(r.value)))
      && EntryAt(t, m, k) == if Deletes(r.value) then None else r.value.entry
    else MetaAt(t, m, k) == MetaAt(base, m, k) && EntryAt(t, m, k) == EntryAt(base, m, k)
  }

  lemma {:induction false} InstallAllCell(base: Cluster, n: NodeId, rs: seq<Record>, m: NodeId, k: Key)
    requires base.stores.Keys == base.metadata.Keys && DistinctKeys(rs)
    ensures Brought(base, InstallAll(base, base, n, rs), n, RecordFor(rs, k), m, k)
  {
    if rs != [] {
      var init, r := rs[..|rs| - 1], rs[|rs| - 1];
      InstallAllCell(base, n, init, m, k);
      InstallAllFrameKeys(base, n, init);
      NoEarlierRecord(rs);
      RecordCell(InstallAll(base, base, n, init), n, r, m, k);
    }
  }

  lemma {:induction false} InstallAllFrameKeys(base: Cluster, n: NodeId, rs: seq<Record>)
    requires base.stores.Keys == base.metadata.Keys
    ensures var t := InstallAll(base, base, n, rs); t.stores.Keys == t.metadata.Keys == base.stores.Keys
  {
    if rs != [] { InstallAllFrameKeys(base, n, rs[..|rs| - 1]); }
  }

  lemma {:induction false} NoRecord(rs: seq<Record>, k: Key)
    requires forall r | r in rs :: r.key != k
    ensures RecordFor(rs, k).None?
  {
    if rs != [] {
      assert rs == rs[..|rs| - 1] + [rs[|rs| - 1]];
      NoRecord(rs[..|rs| - 1], k);
    }
  }

  lemma NoEarlierRecord(rs: seq<Record>)
    requires DistinctKeys(rs) && rs != []
    ensures RecordFor(rs[..|rs| - 1], rs[|rs| - 1].key).None?
  {
    var init := rs[..|rs| - 1];
    forall r | r in init ensures r.key != rs[|rs| - 1].key {
      var i :| 0 <= i < |init| && init[i] == r;
      assert rs[i].key != rs[|rs| - 1].key;
    }
    NoRecord(init, rs[|rs| - 1].key);
  }

  lemma RecordCell(s: Cluster, n: NodeId, r: Record, m: NodeId, k: Key)
    requires s.stores.Keys == s.metadata.Keys
    ensures var t := InstallRecord(s, n, r);
      if m == n && n in s.stores && k == r.key
      then MetaAt(t, m, k) == Some(Meta(r.version, Deletes(r))) && EntryAt(t, m, k) == (if Deletes(r) then None else r.entry)
      else MetaAt(t, m, k) == MetaAt(s, m, k) && EntryAt(t, m, k) == EntryAt(s, m, k)
  {
  }

  lemma {:induction false} GravestonesAre(s: Cluster, n: NodeId, rs: seq<Record>, k: Key)
    ensures k in Gravestones(s, n, rs) <==> exists r :: r in rs && r.key == k && Accepts(s, n, r) && r.deleted
  {
    if rs != [] {
      var init, r := rs[..|rs| - 1], rs[|rs| - 1];
      assert rs == init + [r];
      GravestonesAre(s, n, init, k);
      if k in Gravestones(s, n, rs) && k !in Gravestones(s, n, init) {
        assert r in rs && r.key == k && Accepts(s, n, r) && r.deleted;
      }
      if x :| x in rs && x.key == k && Accepts(s, n, x) && x.deleted {
        assert x in init || x == r;
      }
    } else {
      assert Gravestones(s, n, rs) == [];
    }
  }

  /** Of node `m` and key `k`, what a bootstrap of `n` installs. */
  ghost predicate Takes(s: Cluster, u: Cluster, h: History, n: NodeId, rs: seq<Record>, m: NodeId, k: Key) {
    && (forall r | r in rs && r.key == k && m == n && Wanted(s, h, n, r) ::
          MetaAt(u, n, k) == Some(Meta(r.version, Deletes(r))) && EntryAt(u, n, k) == if Deletes(r) then None else r.entry)
    && (m != n || (forall r | r in rs && r.key == k :: !Wanted(s, h, n, r)) ==>
          MetaAt(u, m, k) == MetaAt(s, m, k) && EntryAt(u, m, k) == EntryAt(s, m, k))
  }

  lemma InstallTakes(c: Config, s: Cluster, h: History, n: NodeId, rs: seq<Record>, m: NodeId, k: Key)
    requires Inv(c, s, h) && n in s.nodes && DistinctKeys(rs) && forall r | r in rs :: RecordOk(h, s.watermark.Some?, r)
    ensures Takes(s, InstallAll(s, s, n, rs), h, n, rs, m, k)
  {
    InstallAllCell(s, n, rs, m, k);
    assert n in s.stores.Keys;
    if RecordFor(rs, k).Some? { RecordForFound(rs, k); }
    forall r | r in rs && r.key == k ensures (Accepts(s, n, r) <==> Wanted(s, h, n, r)) && RecordFor(rs, k) == Some(r) {
      AcceptedIff(c, s, h, n, r);
      RecordForIs(rs, r);
    }
  }

  lemma GravesAre(c: Config, s: Cluster, h: History, n: NodeId, rs: seq<Record>, k: Key)
    requires Inv(c, s, h) && forall r | r in rs :: RecordOk(h, s.watermark.Some?, r)
    ensures k in Gravestones(s, n, rs) <==> exists r :: r in rs && r.key == k && r.deleted && Wanted(s, h, n, r)
  {
    GravestonesAre(s, n, rs, k);
    forall r | r in rs ensures Accepts(s, n, r) <==> Wanted(s, h, n, r) {
      AcceptedIff(c, s, h, n, r);
    }
  }

  lemma BootstrapSteps(c: Config, s: Cluster, n: NodeId, snap: Snapshot, fails: bool, now: int)
    requires Bootstrap(c, s, n, snap, fails, now).1.Ok?
    ensures n in s.nodes && DistinctKeys(snap.records)
    ensures Bootstrap(c, s, n, snap, fails, now).0 ==
      CollectAll(c, InstallAll(s, s, n, snap.records), Gravestones(s, n, snap.records), Up(c, s, now))
  {
  }

  /**
   What a bootstrap leaves: in `u` the records the node had to take are its cells and all other
   cells are as before; then the tombstones it took are collected, if every owner has them now.
   */
  lemma BootstrapLeaves(c: Config, s: Cluster, h: History, n: NodeId, snap: Snapshot, fails: bool, now: int, k: Key)
    returns (u: Cluster, graves: seq<Key>)
    requires Inv(c, s, h) && SnapOk(h, s.watermark.Some?, snap) && Bootstrap(c, s, n, snap, fails, now).1.Ok?
    ensures (forall m :: Takes(s, u, h, n, snap.records, m, k)) && Inv(c, u, h) && SameShape(s, u) && u.catalog == s.catalog
    ensures k in graves <==> exists r :: r in snap.records && r.key == k && r.deleted && Wanted(s, h, n, r)
    ensures Swept(c, u, Bootstrap(c, s, n, snap, fails, now).0, graves, Up(c, s, now), k)
  {
    u, graves := InstallAll(s, s, n, snap.records), Gravestones(s, n, snap.records);
    BootstrapSteps(c, s, n, snap, fails, now);
    InstallAllKeeps(c, s, h, n, snap.records);
    SweepIs(c, u, h, graves, Up(c, s, now), k);
    GravesAre(c, s, h, n, snap.records, k);
    forall m ensures Takes(s, u, h, n, snap.records, m, k) {
      InstallTakes(c, s, h, n, snap.records, m, k);
    }
  }

  lemma {:induction false} RecordForFound(rs: seq<Record>, k: Key)
    requires RecordFor(rs, k).Some?
    ensures RecordFor(rs, k).value in rs && RecordFor(rs, k).value.key == k
  {
    if rs[|rs| - 1].key != k { RecordForFound(rs[..|rs| - 1], k); }
  }
}
