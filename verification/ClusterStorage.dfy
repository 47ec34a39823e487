/**
 The coordinator object.  Each method changes the fields step by step, undoing
 partial work on errors, and is proved equal to its transition in `ClusterModel`.
 */
module ClusterStorageClass {
  import opened HashRing
  import opened ClusterModel
  import opened ClusterInvariant
  import opened ClusterReplicas
  import opened ClusterBurial
  import opened ClusterTransfers
  import opened ClusterMoves
  import opened ClusterCleaning

  class ClusterStorage {
    const config: Config
    var ring: Ring
    var order: seq<NodeId>
    var nodes: map<NodeId, Node>
    var stores: map<NodeId, map<Key, Value>>
    var metadata: map<NodeId, map<Key, Meta>>
    var term: nat
    var sequence: nat
    var leader: NodeId
    var watermark: Option<Version>
    var catalog: set<Key>

    function State(): Cluster
      reads this
    {
      Cluster(ring, order, nodes, stores, metadata, term, sequence, leader, watermark, catalog)
    }

    ghost predicate Valid()
      reads this
    {
      WellFormed(config, State())
    }

    /** An empty cluster led, at term one, by its least healthy member. */
    constructor (config: Config, ring: Ring, order: seq<NodeId>, nodes: map<NodeId, Node>, now: int)
      requires config.replicas > 0 && ring.Valid() && ring.nodes <= nodes.Keys
      requires forall n :: n in order <==> n in nodes
      requires exists n :: n in ring.nodes && Healthy(config, nodes[n], now)
      ensures Valid() && this.config == config
      ensures ring == this.ring && order == this.order && nodes == this.nodes
      ensures forall n | n in nodes :: stores[n] == map[] && metadata[n] == map[]
      ensures term == 1 && sequence == 0 && watermark.None? && catalog == {}
      ensures leader in ring.nodes && Elect(config, State(), now) == State()
    {
      this.config := config;
      this.ring := ring;
      this.order := order;
      this.nodes := nodes;
      this.stores := map n | n in nodes :: map[];
      this.metadata := map n | n in nodes :: map[];
      this.term := 1;
      this.sequence := 0;
      this.leader := 0;
      this.watermark := None;
      this.catalog := {};
      new;
      var candidates := Candidates(now);
      ghost var n :| n in ring.nodes && Healthy(config, nodes[n], now);
      SelectMember(order, ring.nodes * Up(config, State(), now), n);
      this.leader := LeastOf(candidates);
      LeaderStays(config, State(), now);
    }

    static method LeastOf(ns: seq<NodeId>) returns (m: NodeId)
      requires ns != []
      ensures m == Least(ns) && m in ns
    {
      m := ns[0];
      assert ns[..1] == [ns[0]];
      for i := 1 to |ns|
        invariant m == Least(ns[..i]) && m in ns
      {
        assert ns[..i + 1][..i] == ns[..i];
        if ns[i] < m { m := ns[i]; }
      }
      assert ns[..|ns|] == ns;
    }

    method AvailableOwners(owners: seq<NodeId>, now: int) returns (available: seq<NodeId>)
      ensures available == Select(owners, Up(config, State(), now))
    {
      available := [];
      for i := 0 to |owners|
        invariant available == Select(owners[..i], Up(config, State(), now))
      {
        SelectNext(owners, Up(config, State(), now), i);
        if owners[i] in nodes && Healthy(config, nodes[owners[i]], now) {
          available := available + [owners[i]];
        }
      }
      assert owners[..|owners|] == owners;
    }

    // ----- Membership -----

    /** The healthy ring members. */
    method Candidates(now: int) returns (candidates: seq<NodeId>)
      ensures candidates == Select(order, ring.nodes * Up(config, State(), now))
    {
      ghost var keep := ring.nodes * Up(config, State(), now);
      candidates := [];
      for i := 0 to |order|
        invariant candidates == Select(order[..i], keep)
      {
        SelectNext(order, keep, i);
        var n := order[i];
        if n in ring.nodes && n in nodes && Healthy(config, nodes[n], now) {
          candidates := candidates + [n];
        }
      }
      assert order[..|order|] == order;
    }

    method ElectLeader(now: int)
      modifies this`term, this`leader
      ensures State() == Elect(config, old(State()), now)
    {
      var candidates := Candidates(now);
      if leader in candidates {
        return;
      }
      term := term + 1;
      if candidates != [] {
        leader := LeastOf(candidates);
      }
    }

    method DetectFailures(now: int)
      requires Valid()
      modifies this`nodes, this`term, this`leader
      ensures State() == Detect(config, old(State()), now)
      ensures Valid()
    {
      var failed := MarkTimedOut(now);
      if failed != {} {
        ElectLeader(now);
      } else {
        assert nodes == old(nodes);
      }
    }

    method MarkTimedOut(now: int) returns (failed: set<NodeId>)
      requires Valid()
      modifies this`nodes
      ensures failed == TimedOut(config, old(State()), now)
      ensures nodes == MarkDown(old(nodes), failed)
    {
      ghost var s := State();
      failed := {};
      for i := 0 to |order|
        invariant failed == set n | n in order[..i] && n in TimedOut(config, s, now)
        invariant nodes == MarkDown(s.nodes, failed)
      {
        var n := order[i];
        assert order[..i + 1] == order[..i] + [n];
        if LiveStatus(nodes[n].status) && now - nodes[n].heartbeat > config.timeout {
          nodes := nodes[n := nodes[n].(status := Down)];
          failed := failed + {n};
        }
      }
      assert order[..|order|] == order;
      forall n ensures n in failed <==> n in TimedOut(config, s, now) {
        assert n in order <==> n in s.nodes;
      }
    }

    method MarkNodeDown(n: NodeId, now: int)
      modifies this`nodes, this`term, this`leader
      ensures State() == NodeDown(config, old(State()), n, now)
    {
      if n !in nodes { return; }
      ghost var s := State();
      nodes := nodes[n := nodes[n].(status := Down)];
      assert nodes == MarkDown(s.nodes, {n});
      ElectLeader(now);
    }

    method NextVersion() returns (v: Version)
      modifies this`sequence
      ensures sequence == old(sequence) + 1 && v == Stamp(old(State()), 1)
    {
      sequence := sequence + 1;
      v := Version(term, sequence, leader);
    }

    method LatestMetadata(k: Key) returns (best: Option<Meta>)
      ensures best == Latest(State(), k)
    {
      best := None;
      for i := 0 to |order|
        invariant best == LatestIn(metadata, order[..i], k)
      {
        assert order[..i + 1][..i] == order[..i];
        var n := order[i];
        if n in metadata && k in metadata[n] && (best.None? || best.value.version.Less(metadata[n][k].version)) {
          best := Some(metadata[n][k]);
        }
      }
      assert order[..|order|] == order;
    }

    /** A new, empty node that waits for a rebalance. */
    method AddNode(n: NodeId, now: int)
      requires Valid()
      modifies this`order, this`nodes, this`stores, this`metadata
      ensures Valid() && State() == ClusterModel.AddNode(old(State()), n, now)
    {
      if n !in nodes {
        order := order + [n];
        nodes := nodes[n := Node(Joining, now)];
        stores := stores[n := map[]];
        metadata := metadata[n := map[]];
      }
    }

    /** A member that waits to be drained or removed; the last member stays. */
    method LeaveNode(n: NodeId, removing: bool)
      requires Valid()
      modifies this`nodes
      ensures Valid() && State() == ClusterModel.LeaveNode(old(State()), n, removing)
    {
      if n in nodes && n in ring.nodes && |ring.nodes| > 1 {
        nodes := nodes[n := nodes[n].(status := if removing then Removing else Draining)];
      }
    }

    // ----- Checkpoints -----

    /** Put back every checkpoint that is still held, in the order they were taken. */
    method RestoreStores(ids: seq<NodeId>, checkpoints: map<NodeId, map<Key, Value>>)
      requires forall n | n in checkpoints :: n in ids
      modifies this`stores
      ensures stores == old(stores) + checkpoints
    {
      for i := 0 to |ids|
        invariant stores == Restored(old(stores), ids[..i], checkpoints)
      {
        assert ids[..i + 1][..i] == ids[..i];
        if ids[i] in checkpoints {
          stores := stores[ids[i] := checkpoints[ids[i]]];
        }
      }
      assert ids[..|ids|] == ids;
      RestoredAll(old(stores), ids, checkpoints);
    }

    method RestoreKeyMetadata(k: Key, ids: seq<NodeId>, saved: map<NodeId, Option<Meta>>)
      requires forall n | n in saved :: n in ids && n in metadata
      modifies this`metadata
      ensures metadata == Rewind(old(metadata), k, saved)
    {
      for i := 0 to |ids|
        invariant metadata == Rewound(old(metadata), k, ids[..i], saved)
      {
        assert ids[..i + 1][..i] == ids[..i];
        var n := ids[i];
        if n in saved {
          RewoundAt(old(metadata), k, ids[..i], saved, n);
          if saved[n].None? {
            metadata := metadata[n := metadata[n] - {k}];
          } else {
            metadata := metadata[n := metadata[n][k := saved[n].value]];
          }
        }
      }
      assert ids[..|ids|] == ids;
      RewoundAll(old(metadata), k, ids, saved);
    }

    // ----- Writes -----

    /**
     One replica's share of a put.  A failing engine is put back to its checkpoint,
     which is then used up.
     */
    method WriteReplica(n: NodeId, k: Key, v: Value, m: Meta, fault: Fault,
                        checkpoints: map<NodeId, map<Key, Value>>, saved: Option<Meta>)
      returns (left: map<NodeId, map<Key, Value>>)
      requires n in stores && n in metadata && n in checkpoints && checkpoints[n] == stores[n]
      requires saved == if k in metadata[n] then Some(metadata[n][k]) else None
      modifies this`stores, this`metadata
      ensures fault.Fine? ==>
        left == checkpoints && stores == old(stores)[n := old(stores)[n][k := v]] && metadata == old(metadata)[n := old(metadata)[n][k := m]]
      ensures !fault.Fine? ==> left == checkpoints - {n} && stores == old(stores) && metadata == old(metadata)
    {
      if fault.Fine? {
        stores := stores[n := stores[n][k := v]];
        metadata := metadata[n := metadata[n][k := m]];
        left := checkpoints;
      } else {
        // The engine may have changed anything of its own before raising.
        var wreck: map<Key, Value> := *;
        stores := stores[n := wreck];
        stores := stores[n := checkpoints[n]];
        left := checkpoints - {n};
        assert RewindRow(metadata[n], k, saved) == metadata[n];
        metadata := metadata[n := RewindRow(metadata[n], k, saved)];
        assert stores == old(stores);
        assert metadata == old(metadata);
      }
    }

    method ReplicatePut(k: Key, v: Value, p: Profile, faults: Faults, now: int) returns (r: Outcome<()>)
      requires Valid()
      modifies this`stores, this`metadata, this`sequence
      ensures Valid()
      ensures (State(), r) ==
        ClusterModel.ReplicatePut(config, old(State()), k, v, p, Up(config, old(State()), now), faults)
    {
      var owners := OwnersWalk(ring, config.token(k), config.replicas);
      var available := AvailableOwners(owners, now);
      AvailableDistinct(config, State(), k, now);
      PutWellFormed(config, State(), k, v, p, Up(config, State(), now), faults);
      r := WriteAll(available, p.Required(|owners|), k, v, faults);
    }

    /** Validation, then the write loop over the available owners. */
    method WriteAll(available: seq<NodeId>, required: nat, k: Key, v: Value, faults: Faults) returns (r: Outcome<()>)
      requires Distinct(available) && forall n | n in available :: n in stores && n in metadata
      modifies this`stores, this`metadata, this`sequence
      ensures var fine := WithFault(available, faults, Fine);
        (State(), r) ==
          if |available| < required then (old(State()), Err(QuorumError))
          else if WithFault(available, faults, Rejects) != {} then (old(State()), Err(StorageError))
          else if WithFault(available, faults, Hard) != {} then (old(State()), Err(StorageError))
          else if |Select(available, fine)| < required then (old(State()), Err(QuorumError))
          else (Install(old(State()), fine, k, Some(v), Meta(Stamp(old(State()), 1), false)).(sequence := old(sequence) + 1),
                Ok(()))
    {
      if |available| < required {
        return Err(QuorumError);
      }
      var rejected := AnyFault(available, faults, Rejects);
      if rejected {
        return Err(StorageError);
      }
      r := WriteReplicas(available, required, k, v, faults);
    }

    method WriteReplicas(available: seq<NodeId>, required: nat, k: Key, v: Value, faults: Faults) returns (r: Outcome<()>)
      requires Distinct(available) && forall n | n in available :: n in stores && n in metadata
      modifies this`stores, this`metadata, this`sequence
      ensures var fine := WithFault(available, faults, Fine);
        (State(), r) ==
          if WithFault(available, faults, Hard) != {} then (old(State()), Err(StorageError))
          else if |Select(available, fine)| < required then (old(State()), Err(QuorumError))
          else (Install(old(State()), fine, k, Some(v), Meta(Stamp(old(State()), 1), false)).(sequence := old(sequence) + 1),
                Ok(()))
    {
      ghost var s := State();
      var held := map n | n in available && n in stores :: stores[n];
      var saved := map n | n in available && n in metadata :: if k in metadata[n] then Some(metadata[n][k]) else None;
      var oldSequence := sequence;
      var version := NextVersion();
      var aborted, successes, checkpoints, done := WriteLoop(available, k, v, Meta(version, false), faults, held, saved);
      if aborted || |successes| < required {
        UndoInstall(s.stores, s.metadata, done, k, Some(v), Meta(version, false), checkpoints, saved);
        Rollback(k, available, checkpoints, saved);
        sequence := oldSequence;
        return Err(if aborted then StorageError else QuorumError);
      }
      return Ok(());
    }

    /**
     Write replica by replica.  `checkpoints` are those still to be undone on a
     rollback: a replica that failed by itself has already been put back.
     */
    method WriteLoop(available: seq<NodeId>, k: Key, v: Value, m: Meta, faults: Faults,
                     held: map<NodeId, map<Key, Value>>, saved: map<NodeId, Option<Meta>>)
      returns (aborted: bool, successes: seq<NodeId>, checkpoints: map<NodeId, map<Key, Value>>, ghost done: set<NodeId>)
      requires Distinct(available)
      requires forall n :: n in held <==> n in available && n in stores
      requires forall n :: n in saved <==> n in available && n in metadata
      requires forall n | n in available :: n in held && n in saved
      requires forall n | n in held :: held[n] == stores[n]
      requires forall n | n in saved :: saved[n] == if k in metadata[n] then Some(metadata[n][k]) else None
      modifies this`stores, this`metadata
      ensures aborted <==> WithFault(available, faults, Hard) != {}
      ensures !aborted ==> done == WithFault(available, faults, Fine) && successes == Select(available, done)
      ensures stores == InstallStores(old(stores), done, k, Some(v))
      ensures metadata == InstallMeta(old(metadata), done, k, m)
      ensures Pending(available, |available|, held, checkpoints, done)
    {
      forall j | 0 <= j < |available| ensures available[j] in held {
        var n := available[j];
        assert n in available;
      }
      checkpoints := held;
      successes := [];
      done := {};
      ghost var fine := WithFault(available, faults, Fine);
      assert stores == InstallStores(old(stores), {}, k, Some(v));
      assert metadata == InstallMeta(old(metadata), {}, k, m);
      for i := 0 to |available|
        invariant done == WithFault(available[..i], faults, Fine)
        invariant stores == InstallStores(old(stores), done, k, Some(v))
        invariant metadata == InstallMeta(old(metadata), done, k, m)
        invariant successes == Select(available[..i], fine)
        invariant WithFault(available[..i], faults, Hard) == {}
        invariant Pending(available, i, held, checkpoints, done)
      {
        var n := available[i];
        FaultNext(available, faults, i);
        SelectNext(available, fine, i);
        PendingStep(available, i, held, checkpoints, done);
        assert n in available;
        InstallNext(old(stores), old(metadata), done, n, k, Some(v), m);
        checkpoints := WriteReplica(n, k, v, m, FaultOf(faults, n), checkpoints, saved[n]);
        if FaultOf(faults, n) == Fine {
          successes := successes + [n];
          done := done + {n};
        } else if FaultOf(faults, n) == Hard {
          return true, successes, checkpoints, done;
        }
      }
      assert available[..|available|] == available;
      aborted := false;
    }

    method Put(k: Key, v: Value, p: Profile, fence: Option<Fence>, faults: Faults, now: int) returns (r: Outcome<()>)
      requires Valid()
      modifies this`nodes, this`term, this`leader, this`stores, this`metadata, this`sequence, this`catalog
      ensures (State(), r) == ClusterModel.Put(config, old(State()), k, v, p, fence, faults, now)
      ensures Valid()
    {
      DetectFailures(now);
      if fence.Some? && fence.value != Fence(term, leader) {
        return Err(FenceError);
      }
      ghost var s1 := State();
      r := ReplicatePut(k, v, p, faults, now);
      PutSteps(config, old(State()), s1, State(), k, v, p, fence, faults, now, r);
      if r.Ok? {
        catalog := catalog + {k};
      }
    }

    method AnyFault(ids: seq<NodeId>, faults: Faults, f: Fault) returns (found: bool)
      ensures found <==> WithFault(ids, faults, f) != {}
    {
      for i := 0 to |ids|
        invariant forall j | 0 <= j < i :: FaultOf(faults, ids[j]) != f
      {
        if FaultOf(faults, ids[i]) == f {
          assert ids[i] in WithFault(ids, faults, f);
          return true;
        }
      }
      return false;
    }

    // ----- Tombstone collection -----

    method NodeHasRecord(n: NodeId, k: Key, expected: Meta) returns (b: bool)
      ensures b == HasRecord(State(), n, k, expected)
    {
      if n !in metadata || k !in metadata[n] || metadata[n][k].version != expected.version {
        return false;
      }
      var exported := n in stores && k in stores[n];
      return metadata[n][k].deleted == !exported;
    }

    method DropMetadata(k: Key)
      requires forall n | n in metadata :: n in order
      modifies this`metadata
      ensures metadata == DropKey(old(metadata), k)
    {
      for i := 0 to |order|
        invariant metadata.Keys == old(metadata).Keys
        invariant forall n | n in metadata :: metadata[n] == if n in order[..i] then old(metadata)[n] - {k} else old(metadata)[n]
      {
        var n := order[i];
        assert order[..i + 1] == order[..i] + [n];
        if n in metadata {
          metadata := metadata[n := metadata[n] - {k}];
        }
      }
      assert order[..|order|] == order;
      forall n | n in metadata ensures metadata[n] == DropKey(old(metadata), k)[n] {
        assert n in order;
      }
    }

    method EveryOwnerHolds(k: Key, latest: Meta, now: int) returns (all: bool)
      requires Valid()
      ensures all <==> forall n | n in Owners(config, State(), k) ::
        n in Up(config, State(), now) && HasRecord(State(), n, k, latest)
    {
      var owners := OwnersWalk(ring, config.token(k), config.replicas);
      for i := 0 to |owners|
        invariant forall j | 0 <= j < i :: owners[j] in Up(config, State(), now) && HasRecord(State(), owners[j], k, latest)
      {
        var has := NodeHasRecord(owners[i], k, latest);
        if !(owners[i] in nodes && Healthy(config, nodes[owners[i]], now) && has) {
          assert owners[i] in owners;
          return false;
        }
      }
      return true;
    }

    method CollectKey(k: Key, now: int)
      requires Valid()
      modifies this`metadata, this`watermark, this`catalog
      ensures Valid()
      ensures State() == Collect(config, old(State()), k, Up(config, old(State()), now))
    {
      var latest := LatestMetadata(k);
      if latest.None? || !latest.value.deleted {
        return;
      }
      var everywhere := EveryOwnerHolds(k, latest.value, now);
      if !everywhere {
        return;
      }
      DropMetadata(k);
      if watermark.None? || watermark.value.Less(latest.value.version) {
        watermark := Some(latest.value.version);
      }
      catalog := catalog - {k};
    }

    method CollectTombstones(keys: seq<Key>, now: int)
      requires Valid()
      modifies this`metadata, this`watermark, this`catalog
      ensures Valid()
      ensures State() == CollectAll(config, old(State()), keys, Up(config, old(State()), now))
    {
      for i := 0 to |keys|
        invariant Valid() && nodes == old(nodes)
        invariant State() == CollectAll(config, old(State()), keys[..i], Up(config, old(State()), now))
      {
        assert keys[..i + 1][..i] == keys[..i];
        CollectKey(keys[i], now);
      }
      assert keys[..|keys|] == keys;
    }

    // ----- Reads -----

    method ReadReplicas(k: Key, p: Profile, mute: set<NodeId>, now: int) returns (r: Outcome<seq<NodeId>>)
      requires Valid()
      ensures var owners := Owners(config, State(), k);
        var up := Up(config, State(), now);
        var answering := Select(owners, up - mute);
        var asked := if p.One? && answering != [] then answering[..1] else answering;
        var required := p.Required(|owners|);
        r == if |Select(owners, up)| < required || |asked| < required || asked == [] then Err(QuorumError) else Ok(asked)
    {
      var owners := OwnersWalk(ring, config.token(k), config.replicas);
      var available := AvailableOwners(owners, now);
      ghost var up := Up(config, State(), now);
      SelectTwice(owners, up, up - mute);
      assert up * (up - mute) == up - mute;
      AvailableDistinct(config, State(), k, now);
      if |available| < p.Required(|owners|) {
        return Err(QuorumError);
      }
      var asked := AskInOrder(available, p, mute, up);
      if |asked| < p.Required(|owners|) || asked == [] {
        return Err(QuorumError);
      }
      return Ok(asked);
    }

    /** Ask the available owners in turn; at profile ONE stop at the first answer. */
    method AskInOrder(available: seq<NodeId>, p: Profile, mute: set<NodeId>, ghost up: set<NodeId>) returns (asked: seq<NodeId>)
      requires forall n | n in available :: n in up
      ensures var answering := Select(available, up - mute);
        asked == if p.One? && answering != [] then answering[..1] else answering
    {
      asked := [];
      for i := 0 to |available|
        invariant asked == Select(available[..i], up - mute)
        invariant p.One? ==> asked == []
      {
        SelectNext(available, up - mute, i);
        SelectPrefix(available, up - mute, i + 1);
        assert available[i] in available;
        if available[i] !in mute {
          asked := asked + [available[i]];
          if p.One? {
            return;
          }
        }
      }
      assert available[..|available|] == available;
    }

    method PickWinner(k: Key, asked: seq<NodeId>) returns (w: Response)
      requires asked != []
      ensures w == Winner(State(), asked, k)
    {
      assert asked[..1] == [asked[0]];
      w := Respond(asked[0], k);
      for i := 1 to |asked|
        invariant w == Winner(State(), asked[..i], k)
      {
        assert asked[..i + 1][..i] == asked[..i];
        var next := Respond(asked[i], k);
        if next.Beats(w) {
          w := next;
        }
      }
      assert asked[..|asked|] == asked;
    }

    method Respond(n: NodeId, k: Key) returns (r: Response)
      ensures r == ResponseOf(State(), n, k)
    {
      r := Response(n,
        if n in stores && k in stores[n] then Some(stores[n][k]) else None,
        if n in metadata && k in metadata[n] then Some(metadata[n][k]) else None);
    }

    /** Copy the winner's record over every stale or inconsistent replica that answered. */
    method RepairReplicas(k: Key, w: Response, asked: seq<NodeId>, broken: set<NodeId>)
      requires Distinct(asked) && forall n | n in asked :: n in stores && n in metadata
      modifies this`stores, this`metadata
      ensures State() == Repair(old(State()), k, w, asked, broken)
    {
      if w.meta.None? {
        return;
      }
      ghost var s := State();
      var e := if w.meta.value.deleted then None else w.entry;
      var responses := Responses(asked, k);
      assert stores == InstallStores(s.stores, {}, k, e);
      assert metadata == InstallMeta(s.metadata, {}, k, w.meta.value);
      for i := 0 to |asked|
        invariant stores == InstallStores(s.stores, RepairTargets(s, k, w, asked[..i], broken), k, e)
        invariant metadata == InstallMeta(s.metadata, RepairTargets(s, k, w, asked[..i], broken), k, w.meta.value)
      {
        assert asked[i] in asked;
        RepairStep(s, k, w, asked, broken, i, e);
        RepairReplica(s, k, w, responses[i], e, broken);
      }
      assert asked[..|asked|] == asked;
    }

    method Responses(asked: seq<NodeId>, k: Key) returns (rs: seq<Response>)
      ensures |rs| == |asked| && forall i | 0 <= i < |rs| :: rs[i] == ResponseOf(State(), asked[i], k)
    {
      rs := [];
      for i := 0 to |asked|
        invariant |rs| == i && forall j | 0 <= j < i :: rs[j] == ResponseOf(State(), asked[j], k)
      {
        var r := Respond(asked[i], k);
        rs := rs + [r];
      }
    }

    /** Rewrite one replica unless it is the winner, is newer, is already current, or fails. */
    method RepairReplica(ghost s: Cluster, k: Key, w: Response, x: Response, e: Option<Value>, broken: set<NodeId>)
      requires w.meta.Some? && x.node in stores && x.node in metadata && x == ResponseOf(s, x.node, k)
      modifies this`stores, this`metadata
      ensures var fix := x.node !in broken && NeedsRepair(s, k, w, x.node);
        && stores == (if fix then old(stores)[x.node := PutCell(old(stores)[x.node], k, e)] else old(stores))
        && metadata == (if fix then old(metadata)[x.node := old(metadata)[x.node][k := w.meta.value]] else old(metadata))
    {
      var current := x.meta.Some? && x.meta.value.version == w.meta.value.version && w.meta.value.deleted == x.entry.None?;
      var newer := x.meta.Some? && w.meta.value.version.Less(x.meta.value.version);
      if x.node != w.node && !newer && !current && x.node !in broken {
        stores := stores[x.node := PutCell(stores[x.node], k, e)];
        metadata := metadata[x.node := metadata[x.node][k := w.meta.value]];
      }
    }

    method Read(k: Key, p: Profile, mute: set<NodeId>, broken: set<NodeId>, now: int) returns (r: Outcome<Lookup>)
      requires Valid()
      modifies this`stores, this`metadata, this`watermark, this`catalog
      ensures Valid()
      ensures (State(), r) == ClusterModel.Read(config, old(State()), k, p, Up(config, old(State()), now), mute, broken)
    {
      ghost var s := State();
      var replies := ReadReplicas(k, p, mute, now);
      if replies.Err? {
        return Err(replies.error);
      }
      var asked := replies.value;
      var w := PickWinner(k, asked);
      var answer := if (w.meta.Some? && w.meta.value.deleted) || w.entry.None? then Miss else Hit(w.entry.value);
      if !p.One? {
        AskedAreDistinct(config, s, k, mute, now);
        RepairAndCollect(k, w, asked, broken, now);
      }
      return Ok(answer);
    }

    method RepairAndCollect(k: Key, w: Response, asked: seq<NodeId>, broken: set<NodeId>, now: int)
      requires Valid()
      requires Distinct(asked) && forall n | n in asked :: n in stores && n in metadata
      modifies this`stores, this`metadata, this`watermark, this`catalog
      ensures Valid()
      ensures State() == Collect(config, Repair(old(State()), k, w, asked, broken), k, Up(config, old(State()), now))
    {
      RepairReplicas(k, w, asked, broken);
      CollectKey(k, now);
    }

    method Get(k: Key, p: Profile, mute: set<NodeId>, broken: set<NodeId>, now: int) returns (r: Outcome<Lookup>)
      requires Valid()
      modifies this`nodes, this`term, this`leader, this`stores, this`metadata, this`watermark, this`catalog
      ensures Valid()
      ensures (State(), r) == ClusterModel.Get(config, old(State()), k, p, mute, broken, now)
    {
      DetectFailures(now);
      r := Read(k, p, mute, broken, now);
    }

    method Rollback(k: Key, ids: seq<NodeId>, checkpoints: map<NodeId, map<Key, Value>>, saved: map<NodeId, Option<Meta>>)
      requires forall n | n in checkpoints :: n in ids
      requires forall n | n in saved :: n in ids && n in metadata
      modifies this`stores, this`metadata
      ensures stores == old(stores) + checkpoints
      ensures metadata == Rewind(old(metadata), k, saved)
    {
      RestoreStores(ids, checkpoints);
      RestoreKeyMetadata(k, ids, saved);
    }

    // ----- Deletes -----

    method Delete(keys: seq<Key>, p: Profile, fence: Option<Fence>, sweep: seq<Key>, faults: Faults,
                  mute: set<NodeId>, broken: set<NodeId>, now: int)
      returns (r: Outcome<nat>)
      requires Valid()
      modifies this`nodes, this`term, this`leader, this`stores, this`metadata, this`watermark, this`catalog, this`sequence
      ensures Valid()
      ensures (State(), r) == ClusterModel.Delete(config, old(State()), keys, p, fence, sweep, faults, mute, broken, now)
    {
      DetectFailures(now);
      if fence.Some? && fence.value != Fence(term, leader) {
        return Err(FenceError);
      }
      var selected := FirstOccurrences(keys);
      r := DeleteKeys(selected, p, sweep, faults, mute, broken, now);
    }

    static method FirstOccurrences(keys: seq<Key>) returns (r: seq<Key>)
      ensures r == Unique(keys)
    {
      r := [];
      for i := 0 to |keys|
        invariant r == Unique(keys[..i])
      {
        assert keys[..i + 1][..i] == keys[..i];
        if keys[i] !in r {
          r := r + [keys[i]];
        }
      }
      assert keys[..|keys|] == keys;
    }

    /** The delete transaction over distinct keys. */
    method DeleteKeys(keys: seq<Key>, p: Profile, sweep: seq<Key>, faults: Faults, mute: set<NodeId>, broken: set<NodeId>, now: int)
      returns (r: Outcome<nat>)
      requires Valid()
      modifies this`stores, this`metadata, this`watermark, this`catalog, this`sequence
      ensures Valid()
      ensures (State(), r) == ClusterModel.DeleteKeys(config, old(State()), keys, p, sweep, Up(config, old(State()), now), faults, mute, broken)
    {
      if keys == [] {
        return Ok(0);
      }
      CollectTombstones(sweep, now);
      var reachable := AllKeysReachable(keys, p, now);
      if !reachable {
        return Err(QuorumError);
      }
      if |Tombstones(State())| + |Risky(config, State(), keys, Up(config, State(), now))| > config.tombstoneLimit {
        return Err(LimitError);
      }
      r := DeleteOrUndo(keys, p, faults, mute, broken, now);
    }

    method AllKeysReachable(keys: seq<Key>, p: Profile, now: int) returns (ok: bool)
      requires Valid()
      ensures ok == AllReachable(config, State(), keys, p, Up(config, State(), now))
    {
      for i := 0 to |keys|
        invariant forall k | k in keys[..i] :: Reachable(config, State(), k, p, Up(config, State(), now))
      {
        assert keys[..i + 1] == keys[..i] + [keys[i]];
        var owners := OwnersWalk(ring, config.token(keys[i]), config.replicas);
        var available := AvailableOwners(owners, now);
        if |available| < p.Required(|owners|) {
          assert !Reachable(config, State(), keys[i], p, Up(config, State(), now));
          return false;
        }
      }
      assert keys[..|keys|] == keys;
      return true;
    }

    /** Save what the transaction may touch, try it, and put everything back if it fails. */
    method DeleteOrUndo(keys: seq<Key>, p: Profile, faults: Faults, mute: set<NodeId>, broken: set<NodeId>, now: int)
      returns (r: Outcome<nat>)
      requires Valid()
      modifies this`stores, this`metadata, this`watermark, this`catalog, this`sequence
      ensures Valid()
      ensures (State(), r) == DeleteFrom(config, old(State()), keys, p, Up(config, old(State()), now), faults, mute, broken)
    {
      ghost var s0 := State();
      var nodeIds := Participants(config, State(), keys, Up(config, State(), now));
      var checkpoints := Saved(nodeIds, stores);
      var rows := metadata;
      var oldSequence, oldWatermark, oldCatalog := sequence, watermark, catalog;
      var left;
      r, left := TryDelete(keys, p, faults, mute, broken, now, nodeIds, checkpoints, rows);
      if r.Err? {
        UndoDelete(s0, keys, left, rows, oldSequence, oldWatermark, oldCatalog);
      }
    }

    method UndoDelete(ghost s0: Cluster, keys: seq<Key>, left: map<NodeId, map<Key, Value>>, rows: map<NodeId, map<Key, Meta>>,
                      oldSequence: nat, oldWatermark: Option<Version>, oldCatalog: set<Key>)
      requires WellFormed(config, s0) && Touched(s0, State(), left, set k | k in keys)
      requires rows == s0.metadata && oldSequence == s0.sequence && oldWatermark == s0.watermark && oldCatalog == s0.catalog
      modifies this`stores, this`metadata, this`watermark, this`catalog, this`sequence
      ensures State() == s0
    {
      UndoneIsBefore(config, s0, State(), left, keys);
      RestoreStores(order, left);
      RevertRows(keys, rows);
      sequence, watermark, catalog := oldSequence, oldWatermark, oldCatalog;
    }

    /** Put back the metadata of the selected keys on every node. */
    method RevertRows(keys: seq<Key>, rows: map<NodeId, map<Key, Meta>>)
      modifies this`metadata
      ensures metadata == Reverted(old(metadata), rows, set k | k in keys)
    {
      var all := set k | k in keys;
      metadata := map n | n in metadata :: if n in rows then Revert(metadata[n], rows[n], all) else metadata[n];
    }

    /** Read every key, then bury, check the quorums, collect, and check the limit again. */
    method TryDelete(keys: seq<Key>, p: Profile, faults: Faults, mute: set<NodeId>, broken: set<NodeId>, now: int,
                     nodeIds: set<NodeId>, checkpoints: map<NodeId, map<Key, Value>>, rows: map<NodeId, map<Key, Meta>>)
      returns (r: Outcome<nat>, left: map<NodeId, map<Key, Value>>)
      requires Valid() && nodeIds == Participants(config, State(), keys, Up(config, State(), now))
      requires checkpoints == Saved(nodeIds, stores) && rows == metadata
      modifies this`stores, this`metadata, this`watermark, this`catalog, this`sequence
      ensures r == DeleteFrom(config, old(State()), keys, p, Up(config, old(State()), now), faults, mute, broken).1
      ensures r.Ok? ==>
        Valid() && State() == DeleteFrom(config, old(State()), keys, p, Up(config, old(State()), now), faults, mute, broken).0
      ensures r.Err? ==> Touched(old(State()), State(), left, set k | k in keys)
    {
      ghost var s0, up := State(), Up(config, State(), now);
      ReadAllTouches(config, s0, keys, p, up, mute, broken, checkpoints);
      var existed := ReadKeys(keys, p, mute, broken, now);
      if existed.Err? {
        return existed, checkpoints;
      }
      ghost var s1 := State();
      DeleteFromRead(config, s0, s1, keys, p, up, faults, mute, broken, existed.value);
      var error;
      error, left := BuryAndCollect(s0, keys, p, faults, now, nodeIds, checkpoints, rows);
      r := if error.Some? then Err(error.value) else existed;
    }

    /** The part of the transaction that writes. */
    method BuryAndCollect(ghost s0: Cluster, keys: seq<Key>, p: Profile, faults: Faults, now: int, nodeIds: set<NodeId>,
                          checkpoints: map<NodeId, map<Key, Value>>, rows: map<NodeId, map<Key, Meta>>)
      returns (error: Option<Error>, left: map<NodeId, map<Key, Value>>)
      requires WellFormed(config, s0) && Touched(s0, State(), checkpoints, set k | k in keys)
      requires nodeIds == Participants(config, s0, keys, Up(config, s0, now))
      requires checkpoints == Saved(nodeIds, s0.stores) && rows == s0.metadata
      modifies this`stores, this`metadata, this`watermark, this`catalog, this`sequence
      ensures error == DeleteError(config, s0, old(State()), keys, p, Up(config, s0, now), faults)
      ensures error.None? ==>
        Valid() && State() == CollectAll(config, Bury(config, s0, old(State()), keys, Up(config, s0, now), faults), keys, Up(config, s0, now))
      ensures error.Some? ==> Touched(s0, State(), left, set k | k in keys)
    {
      ghost var s1, up := State(), Up(config, s0, now);
      error, left := BuryPhase(s0, keys, p, faults, now, nodeIds, checkpoints, rows);
      if error.Some? {
        return;
      }
      ghost var b := State();
      SameFrameWellFormed(config, s0, b);
      SameUp(config, s0, b, now);
      CollectTombstones(keys, now);
      if |Tombstones(State())| > config.tombstoneLimit {
        CollectAllTouches(config, s0, b, keys, up, left, set k | k in keys);
        error := Some(LimitError);
      }
    }

    /** The tombstones on every node, and the quorum of each key. */
    method BuryPhase(ghost s0: Cluster, keys: seq<Key>, p: Profile, faults: Faults, now: int, nodeIds: set<NodeId>,
                     checkpoints: map<NodeId, map<Key, Value>>, rows: map<NodeId, map<Key, Meta>>)
      returns (error: Option<Error>, left: map<NodeId, map<Key, Value>>)
      requires WellFormed(config, s0) && Touched(s0, State(), checkpoints, set k | k in keys)
      requires nodeIds == Participants(config, s0, keys, Up(config, s0, now))
      requires checkpoints == Saved(nodeIds, s0.stores) && rows == s0.metadata
      modifies this`stores, this`metadata, this`catalog, this`sequence
      ensures error == if Aborts(config, s0, keys, Up(config, s0, now), faults) then Some(StorageError)
                       else if !AllBuried(config, s0, keys, p, Up(config, s0, now), faults) then Some(QuorumError) else None
      ensures error.None? ==> State() == Bury(config, s0, old(State()), keys, Up(config, s0, now), faults)
      ensures Touched(s0, State(), left, set k | k in keys)
    {
      ghost var s1, up := State(), Up(config, s0, now);
      var aborted, succeeded;
      aborted, left, succeeded := BuryAll(s0, keys, faults, now, nodeIds, checkpoints, rows);
      if aborted {
        return Some(StorageError), left;
      }
      var enough := EnoughBuried(s0, keys, p, faults, now, succeeded);
      if !enough {
        return Some(QuorumError), left;
      }
      ghost var b := State();
      catalog := catalog + set k | k in keys;
      BuryIs(config, s0, s1, keys, up, faults);
      TouchedFrame(s0, b, State(), left, set k | k in keys);
      error := None;
    }

    /** Reserve the stamps and bury on every node. */
    method BuryAll(ghost s0: Cluster, keys: seq<Key>, faults: Faults, now: int, nodeIds: set<NodeId>,
                   checkpoints: map<NodeId, map<Key, Value>>, rows: map<NodeId, map<Key, Meta>>)
      returns (aborted: bool, left: map<NodeId, map<Key, Value>>, succeeded: set<NodeId>)
      requires WellFormed(config, s0) && Touched(s0, State(), checkpoints, set k | k in keys)
      requires nodeIds == Participants(config, s0, keys, Up(config, s0, now))
      requires checkpoints == Saved(nodeIds, s0.stores) && rows == s0.metadata
      modifies this`stores, this`metadata, this`sequence
      ensures aborted <==> Aborts(config, s0, keys, Up(config, s0, now), faults)
      ensures !aborted ==>
        && State() == BuriedAt(config, s0, old(State()), keys, Up(config, s0, now), faults, nodeIds).(sequence := old(sequence) + |keys|)
        && succeeded == FineOf(faults, nodeIds)
      ensures Touched(s0, State(), left, set k | k in keys)
    {
      ghost var s1, up := State(), Up(config, s0, now);
      var base := sequence;
      ParticipantsKnown(config, s0, keys, now);
      var list := ListNodes(nodeIds);
      ghost var fs, fm := StoreShares(config, s0, s1, keys, up, faults), RowShares(config, s0, s1, keys, up, faults);
      ghost var k;
      BackedBy(config, s0, s1, list, nodeIds, checkpoints);
      SharesAre(config, s0, s1, keys, up, faults);
      aborted, left, succeeded, k := BuryNodes(s0, s1, keys, faults, now, list, checkpoints, rows, fs, fm);
      ghost var b := State();
      sequence := base + |keys|;
      BuryOutcome(config, s0, s1, keys, up, faults, list, k, nodeIds, checkpoints, b, State());
    }

    /** The nodes of a set, each once. */
    method ListNodes(ids: set<NodeId>) returns (list: seq<NodeId>)
      requires forall n | n in ids :: n in order
      ensures Distinct(list) && (forall i | 0 <= i < |list| :: list[i] in ids) && forall n | n in ids :: n in list
    {
      list := [];
      for i := 0 to |order|
        invariant Distinct(list) && (forall j | 0 <= j < |list| :: list[j] in ids)
        invariant forall n | n in ids && n in order[..i] :: n in list
      {
        assert order[..i + 1] == order[..i] + [order[i]];
        if order[i] in ids && order[i] !in list {
          list := list + [order[i]];
        }
      }
      assert order[..|order|] == order;
    }

    method ReadKeys(keys: seq<Key>, p: Profile, mute: set<NodeId>, broken: set<NodeId>, now: int) returns (r: Outcome<nat>)
      requires Valid()
      modifies this`stores, this`metadata, this`watermark, this`catalog
      ensures Valid()
      ensures (State(), r) == ReadAll(config, old(State()), keys, p, Up(config, old(State()), now), mute, broken)
    {
      ghost var s, read := State(), ReaderOf(config, p, Up(config, State(), now), mute, broken);
      var hits := 0;
      for i := 0 to |keys|
        invariant Valid() && (State(), Ok(hits)) == ReadEach(s, keys[..i], read)
      {
        ReadEachSnoc(s, keys[..i], keys[i], read, State(), hits);
        assert keys[..i + 1] == keys[..i] + [keys[i]];
        var found := ReadBy(keys[i], p, mute, broken, now, read);
        if found.Err? {
          ReadEachStops(s, keys, read, i + 1, |keys|);
          assert keys[..|keys|] == keys;
          return Err(found.error);
        }
        hits := hits + if found.value.Hit? then 1 else 0;
      }
      assert keys[..|keys|] == keys;
      r := Ok(hits);
    }

    method ReadBy(k: Key, p: Profile, mute: set<NodeId>, broken: set<NodeId>, now: int, ghost read: Reader) returns (r: Outcome<Lookup>)
      requires Valid() && read == ReaderOf(config, p, Up(config, State(), now), mute, broken)
      modifies this`stores, this`metadata, this`watermark, this`catalog
      ensures Valid() && (State(), r) == read(old(State()), k)
    {
      r := Read(k, p, mute, broken, now);
    }

    /** The delete loop over the nodes; a node that fails is put back, and its checkpoint is used up. */
    method BuryNodes(ghost s0: Cluster, ghost s1: Cluster, keys: seq<Key>, faults: Faults, now: int, list: seq<NodeId>,
                     checkpoints: map<NodeId, map<Key, Value>>, rows: map<NodeId, map<Key, Meta>>,
                     ghost fs: NodeId -> map<Key, Value>, ghost fm: NodeId -> map<Key, Meta>)
      returns (aborted: bool, left: map<NodeId, map<Key, Value>>, succeeded: set<NodeId>, ghost k: nat)
      requires ring == s0.ring && nodes == s0.nodes && term == s1.term && leader == s1.leader && sequence == s1.sequence
      requires stores == s1.stores && metadata == s1.metadata
      requires Ready(config, s0, s1, keys, Up(config, s0, now), faults, list, checkpoints, rows, fs, fm)
      modifies this`stores, this`metadata
      ensures k <= |list| && BuriedTo(s1, list, k, fs, fm, faults, checkpoints, stores, metadata, left, succeeded)
      ensures if aborted then k > 0 && Stops(faults, list[k - 1]) else k == |list| && NoStops(faults, list, k)
    {
      aborted, left, succeeded := false, checkpoints, {};
      var i := 0;
      while i < |list| && !aborted
        invariant i <= |list| && BuriedTo(s1, list, i, fs, fm, faults, checkpoints, stores, metadata, left, succeeded)
        invariant if aborted then i > 0 && Stops(faults, list[i - 1]) else NoStops(faults, list, i)
        decreases |list| - i
      {
        left, succeeded := BuryNth(s0, s1, i, keys, faults, now, list, checkpoints, rows, fs, fm, left, succeeded);
        aborted, i := Stops(faults, list[i]), i + 1;
      }
      k := i;
    }

    method BuryNth(ghost s0: Cluster, ghost s1: Cluster, i: nat, keys: seq<Key>, faults: Faults, now: int, list: seq<NodeId>,
                   checkpoints: map<NodeId, map<Key, Value>>, rows: map<NodeId, map<Key, Meta>>,
                   ghost fs: NodeId -> map<Key, Value>, ghost fm: NodeId -> map<Key, Meta>,
                   left: map<NodeId, map<Key, Value>>, succeeded: set<NodeId>)
      returns (left': map<NodeId, map<Key, Value>>, succeeded': set<NodeId>)
      requires i < |list| && ring == s0.ring && nodes == s0.nodes && term == s1.term && leader == s1.leader && sequence == s1.sequence
      requires BuriedTo(s1, list, i, fs, fm, faults, checkpoints, stores, metadata, left, succeeded)
      requires Ready(config, s0, s1, keys, Up(config, s0, now), faults, list, checkpoints, rows, fs, fm)
      modifies this`stores, this`metadata
      ensures BuriedTo(s1, list, i + 1, fs, fm, faults, checkpoints, stores, metadata, left', succeeded')
    {
      NotYet(s1.stores, list, i, i, fs);
      NotYet(s1.metadata, list, i, i, fm);
      BuryNode(s0, s1, list[i], keys, faults, now, checkpoints, rows, fs, fm);
      left', succeeded' := Tally(faults, list, i, checkpoints, left, succeeded);
    }

    /** A node that succeeded keeps its checkpoint; one that failed has used it up. */
    static method Tally(faults: Faults, list: seq<NodeId>, i: nat, ghost checkpoints: map<NodeId, map<Key, Value>>,
                        left: map<NodeId, map<Key, Value>>, succeeded: set<NodeId>)
      returns (left': map<NodeId, map<Key, Value>>, succeeded': set<NodeId>)
      requires i < |list| && left == LeftUpTo(checkpoints, faults, list, i) && succeeded == FineUpTo(faults, list, i)
      ensures left' == LeftUpTo(checkpoints, faults, list, i + 1) && succeeded' == FineUpTo(faults, list, i + 1)
    {
      if FaultOf(faults, list[i]).Fine? {
        left', succeeded' := left, succeeded + {list[i]};
      } else {
        left', succeeded' := left - {list[i]}, succeeded;
      }
    }

    /** One node's share: delete its keys and write their tombstones, or put it back. */
    method BuryNode(ghost s0: Cluster, ghost s1: Cluster, n: NodeId, keys: seq<Key>, faults: Faults, now: int,
                    checkpoints: map<NodeId, map<Key, Value>>, rows: map<NodeId, map<Key, Meta>>,
                    ghost fs: NodeId -> map<Key, Value>, ghost fm: NodeId -> map<Key, Meta>)
      requires ring == s0.ring && nodes == s0.nodes && term == s1.term && leader == s1.leader && sequence == s1.sequence
      requires n in stores && n in metadata && n in checkpoints && n in rows
      requires n in s0.stores && n in s0.metadata && checkpoints[n] == s0.stores[n] && rows[n] == s0.metadata[n]
      requires n in s1.stores && n in s1.metadata && stores[n] == s1.stores[n] && metadata[n] == s1.metadata[n]
      requires IsShares(config, s0, s1, keys, Up(config, s0, now), faults, fs, fm)
      modifies this`stores, this`metadata
      ensures stores == old(stores)[n := fs(n)] && metadata == old(metadata)[n := fm(n)]
    {
      assert fs(n) == StoreShare(config, s0, s1, keys, Up(config, s0, now), faults, n);
      assert fm(n) == RowShare(config, s0, s1, keys, Up(config, s0, now), faults, n);
      SameKeysAt(config, s0, State(), keys, now, n);
      if FaultOf(faults, n).Fine? {
        var at := KeysAt(config, State(), keys, Up(config, State(), now), n);
        stores := stores[n := stores[n] - at];
        metadata := metadata[n := metadata[n] + Tombstoned(keys, at, term, sequence, leader)];
      } else {
        // The engine may have deleted some of the keys, or anything else, before raising.
        var wreck: map<Key, Value> := *;
        stores := stores[n := wreck];
        stores := stores[n := checkpoints[n]];
        metadata := metadata[n := Revert(metadata[n], rows[n], set k | k in keys)];
      }
    }

    /** Every key was deleted on as many owners as the profile requires. */
    method EnoughBuried(ghost s0: Cluster, keys: seq<Key>, p: Profile, faults: Faults, now: int, succeeded: set<NodeId>)
      returns (ok: bool)
      requires ring == s0.ring && nodes == s0.nodes && ring.Valid() && config.replicas > 0
      requires succeeded == FineOf(faults, Participants(config, s0, keys, Up(config, s0, now)))
      ensures ok == AllBuried(config, s0, keys, p, Up(config, s0, now), faults)
    {
      SameUp(config, s0, State(), now);
      for i := 0 to |keys|
        invariant forall k | k in keys[..i] :: Buried(config, s0, k, p, Up(config, s0, now), faults)
      {
        assert keys[..i + 1] == keys[..i] + [keys[i]];
        var owners := OwnersWalk(ring, config.token(keys[i]), config.replicas);
        var available := AvailableOwners(owners, now);
        BuriedCount(config, s0, keys, Up(config, s0, now), faults, keys[i]);
        if |Select(available, succeeded)| < p.Required(|owners|) {
          assert !Buried(config, s0, keys[i], p, Up(config, s0, now), faults);
          return false;
        }
      }
      assert keys[..|keys|] == keys;
      return true;
    }

    // ----- Heartbeats and flush -----

    /** `sweep` is the order in which the catalogue set is iterated. */
    method Heartbeat(n: NodeId, sweep: seq<Key>, now: int)
      requires Valid() && forall k :: k in sweep <==> k in catalog
      modifies this`nodes, this`term, this`leader, this`metadata, this`watermark, this`catalog
      ensures Valid()
      ensures State() == ClusterModel.Heartbeat(config, old(State()), n, sweep, now)
    {
      if n !in nodes {
        return;
      }
      Beat(n, now);
      CollectTombstones(sweep, now);
    }

    method Beat(n: NodeId, now: int)
      requires Valid() && n in nodes
      modifies this`nodes, this`term, this`leader
      ensures Valid()
      ensures State() == HeartbeatBeforeSweep(config, old(State()), n, now)
    {
      var node := nodes[n];
      if node.status == Down {
        node := node.(status := if n in ring.nodes then Active else Joining);
      }
      nodes := nodes[n := node.(heartbeat := now)];
      ElectLeader(now);
    }

    method Flush(now: int) returns (r: Outcome<()>)
      requires Valid()
      modifies this`nodes, this`term, this`leader, this`stores, this`metadata, this`watermark, this`sequence, this`catalog
      ensures Valid()
      ensures (State(), r) == ClusterModel.Flush(config, old(State()), now)
    {
      DetectFailures(now);
      r := FlushStores(now);
    }

    method FlushStores(now: int) returns (r: Outcome<()>)
      requires Valid()
      modifies this`stores, this`metadata, this`watermark, this`sequence, this`catalog
      ensures Valid()
      ensures (State(), r) == FlushReachable(old(State()), Up(config, old(State()), now))
    {
      var reachable := EveryMemberUp(now);
      if !reachable {
        return Err(QuorumError);
      }
      ClearStores();
      var v := NextVersion();
      watermark := Some(v);
      catalog := {};
      return Ok(());
    }

    method EveryMemberUp(now: int) returns (all: bool)
      requires Valid()
      ensures all <==> ring.nodes <= Up(config, State(), now)
    {
      for i := 0 to |order|
        invariant forall j | 0 <= j < i :: order[j] in ring.nodes ==> order[j] in Up(config, State(), now)
      {
        var n := order[i];
        if n in ring.nodes && !Healthy(config, nodes[n], now) {
          return false;
        }
      }
      forall n | n in ring.nodes ensures n in Up(config, State(), now) {
        assert n in order;
      }
      return true;
    }

    method ClearStores()
      requires Valid()
      modifies this`stores, this`metadata
      ensures Valid()
      ensures stores == Wiped(nodes, old(stores)) && metadata == Wiped(nodes, old(metadata))
    {
      ghost var blank: map<NodeId, map<Key, Value>> := Blank(nodes);
      ghost var bare: map<NodeId, map<Key, Meta>> := Blank(nodes);
      for i := 0 to |order|
        invariant stores == Restored(old(stores), order[..i], blank)
        invariant metadata == Restored(old(metadata), order[..i], bare)
      {
        assert order[..i + 1][..i] == order[..i];
        var n := order[i];
        if !nodes[n].status.Removed? {
          stores := stores[n := map[]];
          metadata := metadata[n := map[]];
        }
      }
      assert order[..|order|] == order;
      WipedNodeByNode(nodes, old(stores), order);
      WipedNodeByNode(nodes, old(metadata), order);
    }

    // ----- Snapshots and bootstrap -----

    method CreateSnapshot(n: NodeId, keys: seq<Key>) returns (snap: Snapshot)
      ensures snap == TakeSnapshot(State(), n, keys)
    {
      var records: seq<Record> := [];
      for i := 0 to |keys|
        invariant records == RecordsOf(State(), n, keys[..i])
      {
        assert keys[..i + 1][..i] == keys[..i];
        var x := Respond(n, keys[i]);
        if x.meta.Some? {
          records := records + [Record(keys[i], x.meta.value.version, x.meta.value.deleted || x.entry.None?, x.entry)];
        } else if x.entry.Some? {
          records := records + [Record(keys[i], Version(0, 0, n), false, x.entry)];
        }
      }
      assert keys[..|keys|] == keys;
      snap := Snapshot(ring.version, Fence(term, leader), records);
    }

    method AcceptsRecord(n: NodeId, r: Record) returns (b: bool)
      ensures b == Accepts(State(), n, r)
    {
      var x := Respond(n, r.key);
      var latest := LatestMetadata(r.key);
      var incomingDeleted := r.deleted || r.entry.None?;
      if x.meta.None? && latest.None? && watermark.Some? && !watermark.value.Less(r.version) {
        return false;
      }
      if x.meta.Some? && r.version.Less(x.meta.value.version) {
        return false;
      }
      if latest.Some? && r.version.Less(latest.value.version) {
        return false;
      }
      if latest.Some? && latest.value.version == r.version && latest.value.deleted != incomingDeleted {
        return false;
      }
      if x.meta.Some? && x.meta.value.version == r.version {
        if x.meta.value.deleted != incomingDeleted {
          return false;
        }
        var has := NodeHasRecord(n, r.key, x.meta.value);
        if !x.meta.value.deleted && has {
          return false;
        }
      }
      return true;
    }

    /** Bootstrap from a snapshot whose transfer has completed; `fails` makes the target's engine raise. */
    method BootstrapNode(n: NodeId, snap: Snapshot, fails: bool, now: int) returns (r: Outcome<()>)
      requires Valid()
      modifies this`stores, this`metadata, this`watermark, this`catalog
      ensures Valid()
      ensures (State(), r) == Bootstrap(config, old(State()), n, snap, fails, now)
    {
      var rs := snap.records;
      if n !in nodes || snap.ringVersion != ring.version || snap.fence != Fence(term, leader) || !DistinctKeys(rs)
         || exists x | x in rs :: !BoundToFence(x, snap.fence) {
        return Err(SnapshotError);
      }
      ghost var s := State();
      var accepted := ChooseRecords(n, rs);
      AcceptedNone(s, n, rs);
      InstallAccepted(s, s, n, rs);
      if accepted == [] {
        assert Gravestones(s, n, rs) == [];
        return Ok(());
      }
      var failed := InstallOrUndo(n, accepted, fails);
      if failed {
        return Err(StorageError);
      }
      var graves := GraveKeys(accepted);
      GravesOfAccepted(s, n, rs);
      CollectTombstones(graves, now);
      return Ok(());
    }

    method ChooseRecords(n: NodeId, rs: seq<Record>) returns (accepted: seq<Record>)
      ensures accepted == AcceptedOf(State(), n, rs)
    {
      accepted := [];
      for i := 0 to |rs|
        invariant accepted == AcceptedOf(State(), n, rs[..i])
      {
        assert rs[..i + 1][..i] == rs[..i];
        var ok := AcceptsRecord(n, rs[i]);
        if ok {
          accepted := accepted + [rs[i]];
        }
      }
      assert rs[..|rs|] == rs;
    }

    method GraveKeys(accepted: seq<Record>) returns (keys: seq<Key>)
      ensures keys == DeletedKeys(accepted)
    {
      keys := [];
      for i := 0 to |accepted|
        invariant keys == DeletedKeys(accepted[..i])
      {
        assert accepted[..i + 1][..i] == accepted[..i];
        if accepted[i].deleted {
          keys := keys + [accepted[i].key];
        }
      }
      assert accepted[..|accepted|] == accepted;
    }

    /** Install every accepted record, or put the node back to its checkpoint. */
    method InstallOrUndo(n: NodeId, accepted: seq<Record>, fails: bool) returns (failed: bool)
      requires Valid() && n in nodes
      modifies this`stores, this`metadata
      ensures Valid()
      ensures failed == fails
      ensures State() == if fails then old(State()) else InstallList(old(State()), n, accepted)
    {
      var checkpoint, saved := stores[n], metadata[n];
      for i := 0 to |accepted|
        invariant State() == InstallList(old(State()), n, accepted[..i])
      {
        assert accepted[..i + 1][..i] == accepted[..i];
        var x := accepted[i];
        var gone := x.deleted || x.entry.None?;
        InstallListAt(old(State()), n, accepted[..i]);
        InstallOne(State(), n, x);
        stores := stores[n := PutCell(stores[n], x.key, if gone then None else x.entry)];
        metadata := metadata[n := metadata[n][x.key := Meta(x.version, gone)]];
      }
      assert accepted[..|accepted|] == accepted;
      InstallListAt(old(State()), n, accepted);
      if fails {
        stores := stores[n := checkpoint];
        metadata := metadata[n := saved];
      }
      return fails;
    }

    // ----- Rebalance -----

    /**
     Apply a plan.  `sweep` is the order in which the catalogue is iterated; `broken`
     gives the moves whose bootstrap raises, `stuck` the nodes whose delete raises.
     */
    method ApplyRebalance(plan: Plan, sweep: seq<Key>, broken: set<nat>, stuck: set<NodeId>, now: int) returns (r: Outcome<()>)
      requires Valid() && forall k :: k in sweep <==> k in catalog
      modifies this
      ensures Valid()
      ensures (State(), r) == Rebalance(config, old(State()), plan, sweep, broken, stuck, now)
    {
      DetectFailures(now);
      if plan.fence != Fence(term, leader) {
        return Err(FenceError);
      }
      if plan.baseVersion != ring.version || !Fits(config, State(), plan) {
        return Err(RebalanceError);
      }
      r := ApplyChecked(plan, sweep, broken, stuck, now);
    }

    method ApplyChecked(plan: Plan, sweep: seq<Key>, broken: set<nat>, stuck: set<NodeId>, now: int) returns (r: Outcome<()>)
      requires Valid() && (forall k | k in catalog :: k in sweep) && Fits(config, State(), plan)
      modifies this
      ensures Valid()
      ensures (State(), r) == ApplyPlan(config, old(State()), plan, sweep, broken, stuck, now)
    {
      ghost var s := State();
      ghost var t := MoveAndSwitch(config, s, plan, broken, stuck, now).0;
      var affected := Affected(ring.nodes, plan);
      var checkpoints, rows, before := Saved(affected, stores), Saved(affected, metadata), Saved(affected, nodes);
      var oldRing := ring;
      var done := MoveVerifySwitch(plan, sweep, broken, stuck, now);
      if done {
        Settle(sweep, now);
        return Ok(());
      }
      PutBackAll(s, t, affected, checkpoints, rows, before, oldRing);
      return Err(RebalanceError);
    }

    /** Collection and election after the switch. */
    method Settle(sweep: seq<Key>, now: int)
      requires Valid()
      modifies this`metadata, this`watermark, this`catalog, this`term, this`leader
      ensures Valid()
      ensures State() == Elect(config, CollectAll(config, old(State()), sweep, Up(config, old(State()), now)), now)
    {
      CollectTombstones(sweep, now);
      ElectLeader(now);
    }

    /** Put back the ring and the checkpoints, metadata and statuses of the affected nodes. */
    method PutBackAll(ghost s: Cluster, ghost t: Cluster, ghost affected: set<NodeId>, checkpoints: map<NodeId, map<Key, Value>>,
                      rows: map<NodeId, map<Key, Meta>>, before: map<NodeId, Node>, oldRing: Ring)
      requires WellFormed(config, s) && SameNodes(s, State()) && oldRing == s.ring && order == s.order
      requires Partly(t, State(), s.ring.nodes) && s.ring.nodes <= affected
      requires checkpoints == Saved(affected, s.stores) && rows == Saved(affected, s.metadata) && before == Saved(affected, s.nodes)
      modifies this`stores, this`metadata, this`nodes, this`ring
      ensures Valid() && State() == Undone(s, t, affected)
    {
      UndonePartly(s, t, State(), s.ring.nodes, affected);
      PutBackSaved(s, affected, checkpoints, rows, before, oldRing);
      StillWellFormed(config, s, State());
    }

    method PutBackSaved(ghost s: Cluster, ghost affected: set<NodeId>, checkpoints: map<NodeId, map<Key, Value>>,
                        rows: map<NodeId, map<Key, Meta>>, before: map<NodeId, Node>, oldRing: Ring)
      requires WellFormed(config, s) && SameNodes(s, State()) && oldRing == s.ring && order == s.order
      requires checkpoints == Saved(affected, s.stores) && rows == Saved(affected, s.metadata) && before == Saved(affected, s.nodes)
      modifies this`stores, this`metadata, this`nodes, this`ring
      ensures State() == Undone(s, old(State()), affected) && SameNodes(s, State())
    {
      ghost var u := State();
      SavedInOrder(config, s, u, affected);
      PutBackMaps(checkpoints, rows, before);
      ring := oldRing;
      UndoneMaps(s, u, State(), affected);
    }

    method PutBackMaps(checkpoints: map<NodeId, map<Key, Value>>, rows: map<NodeId, map<Key, Meta>>, before: map<NodeId, Node>)
      requires forall n | n in checkpoints || n in rows || n in nodes :: n in order
      modifies this`stores, this`metadata, this`nodes
      ensures stores == old(stores) + checkpoints && metadata == old(metadata) + rows
      ensures nodes == WithStatuses(old(nodes), before)
    {
      RestoreStores(order, checkpoints);
      RestoreRows(order, rows);
      RestoreStatuses(before);
    }

    method RestoreRows(ids: seq<NodeId>, rows: map<NodeId, map<Key, Meta>>)
      requires forall n | n in rows :: n in ids
      modifies this`metadata
      ensures metadata == old(metadata) + rows
    {
      for i := 0 to |ids|
        invariant metadata == Restored(old(metadata), ids[..i], rows)
      {
        assert ids[..i + 1][..i] == ids[..i];
        if ids[i] in rows {
          metadata := metadata[ids[i] := rows[ids[i]]];
        }
      }
      assert ids[..|ids|] == ids;
      RestoredAll(old(metadata), ids, rows);
    }

    method RestoreStatuses(before: map<NodeId, Node>)
      requires forall n | n in nodes :: n in order
      modifies this`nodes
      ensures nodes == WithStatuses(old(nodes), before)
    {
      for i := 0 to |order|
        invariant nodes.Keys == old(nodes).Keys
        invariant forall n | n in nodes :: nodes[n] == if n in order[..i] then StatusFrom(old(nodes)[n], before, n) else old(nodes)[n]
      {
        var n := order[i];
        assert order[..i + 1] == order[..i] + [n];
        if n in before && n in nodes {
          nodes := nodes[n := nodes[n].(status := before[n].status)];
        }
      }
      assert order[..|order|] == order;
    }

    /** The guarded part of a rebalance; `false` is any exception in it. */
    method MoveVerifySwitch(plan: Plan, sweep: seq<Key>, broken: set<nat>, stuck: set<NodeId>, now: int) returns (done: bool)
      requires Valid() && (forall k | k in catalog :: k in sweep) && Fits(config, State(), plan)
      modifies this`stores, this`metadata, this`watermark, this`catalog, this`ring, this`nodes
      ensures SameNodes(old(State()), State()) && order == old(order)
      ensures var (t, ok) := MoveAndSwitch(config, old(State()), plan, broken, stuck, now);
        && done == ok && (done ==> Valid() && State() == t) && (!done ==> Partly(t, State(), old(ring).nodes))
    {
      ghost var s := State();
      var members := ring.nodes;
      done := RunPlan(plan.moves, broken, now);
      ghost var m := State();
      MovesFrame(config, s, plan.moves, broken, now);
      PartlySelf(m, members);
      if !done { return; }
      done := VerifyTargets(plan.target, sweep);
      if !done { return; }
      FitsSwitch(config, s, m, plan);
      SwitchMembership(plan);
      ghost var u := State();
      PartlySelf(u, members);
      done := DropFormerCopies(members, sweep, stuck);
    }

    method RunPlan(moves: seq<Move>, broken: set<nat>, now: int) returns (done: bool)
      requires Valid()
      modifies this`stores, this`metadata, this`watermark, this`catalog
      ensures Valid() && catalog <= old(catalog)
      ensures (State(), done) == RunMoves(config, old(State()), moves, broken, now)
    {
      ghost var s := State();
      for i := 0 to |moves|
        invariant Valid() && (State(), true) == RunMoves(config, s, moves[..i], broken, now)
      {
        RunNext(config, s, moves, broken, now, i);
        done := MoveOne(moves[i], i in broken, now);
        if !done {
          StopsAt(config, s, moves, broken, now, i + 1);
          MovesFrame(config, s, moves, broken, now);
          return;
        }
      }
      assert moves[..|moves|] == moves;
      MovesFrame(config, s, moves, broken, now);
      done := true;
    }

    method MoveOne(move: Move, fails: bool, now: int) returns (done: bool)
      requires Valid()
      modifies this`stores, this`metadata, this`watermark, this`catalog
      ensures Valid() && (State(), done) == RunMove(config, old(State()), move, fails, now)
    {
      var latest := LatestMetadata(move.key);
      if latest.None? || move.source !in nodes || move.target !in nodes {
        return false;
      }
      var has := NodeHasRecord(move.source, move.key, latest.value);
      if !has || !Healthy(config, nodes[move.source], now) || !Healthy(config, nodes[move.target], now) {
        return false;
      }
      var snap := CreateSnapshot(move.source, [move.key]);
      var r := BootstrapNode(move.target, snap, fails, now);
      return r.Ok?;
    }

    method VerifyTargets(target: Ring, sweep: seq<Key>) returns (done: bool)
      requires Valid() && target.Valid() && forall k | k in catalog :: k in sweep
      ensures done == OwnersCurrent(config, State(), target)
    {
      for i := 0 to |sweep|
        invariant forall k | k in sweep[..i] && k in catalog :: OwnersHoldLatest(config, State(), target, k)
      {
        assert sweep[..i + 1] == sweep[..i] + [sweep[i]];
        if sweep[i] in catalog {
          var ok := VerifyKey(target, sweep[i]);
          if !ok { return false; }
        }
      }
      assert sweep[..|sweep|] == sweep;
      return true;
    }

    method VerifyKey(target: Ring, k: Key) returns (ok: bool)
      requires Valid() && target.Valid()
      ensures ok == OwnersHoldLatest(config, State(), target, k)
    {
      var latest := LatestMetadata(k);
      if latest.None? { return true; }
      var owners := OwnersWalk(target, config.token(k), config.replicas);
      for i := 0 to |owners|
        invariant forall j | 0 <= j < i :: HasRecord(State(), owners[j], k, latest.value)
      {
        var has := NodeHasRecord(owners[i], k, latest.value);
        if !has {
          var n := owners[i];
          assert n in owners;
          return false;
        }
      }
      return true;
    }

    method SwitchMembership(plan: Plan)
      requires Valid() && plan.target.Valid() && plan.target.nodes <= nodes.Keys
      requires WellFormed(config, Switch(State(), plan))
      modifies this`ring, this`nodes
      ensures Valid() && State() == Switch(old(State()), plan)
    {
      ring := plan.target;
      for i := 0 to |plan.joining|
        invariant nodes == Activated(old(nodes), plan.joining[..i]) && ring == plan.target
      {
        var n := plan.joining[i];
        assert plan.joining[..i + 1][..i] == plan.joining[..i];
        if n in nodes {
          nodes := nodes[n := nodes[n].(status := Active)];
        }
      }
      assert plan.joining[..|plan.joining|] == plan.joining;
      ghost var active := nodes;
      for i := 0 to |plan.departing|
        invariant nodes == Departed(active, plan.departing[..i]) && ring == plan.target
      {
        var n := plan.departing[i];
        assert plan.departing[..i + 1][..i] == plan.departing[..i];
        if n in nodes {
          nodes := nodes[n := nodes[n].(status := if nodes[n].status == Draining then Drained else Removed)];
        }
      }
      assert plan.departing[..|plan.departing|] == plan.departing;
    }

    /** Delete every catalogued key from the old members that no longer own it. */
    method DropFormerCopies(members: set<NodeId>, sweep: seq<Key>, stuck: set<NodeId>) returns (done: bool)
      requires Valid() && members <= nodes.Keys && forall k | k in catalog :: k in sweep
      modifies this`stores, this`metadata
      ensures Valid() && Partly(old(State()), State(), members)
      ensures done == !Blocked(config, old(State()), members, stuck)
      ensures done ==> State() == DropFormer(config, old(State()), members)
    {
      ghost var s := State();
      CleanedNone(config, s, members);
      assert sweep[..0] == [];
      for i := 0 to |sweep|
        invariant State() == CleanedOf(config, s, members, KeysOf(sweep[..i], s.catalog))
        invariant forall k | k in KeysOf(sweep[..i], s.catalog) :: !Stuck(config, s, members, stuck, k)
      {
        assert sweep[..i + 1] == sweep[..i] + [sweep[i]];
        CleanedShape(config, s, members, KeysOf(sweep[..i], s.catalog));
        if sweep[i] in catalog {
          done := DropCopiesOf(s, KeysOf(sweep[..i], s.catalog), sweep[i], members, stuck);
          if !done {
            StuckBlocks(config, s, members, stuck, sweep[i]);
            return;
          }
        }
        KeysNext(sweep, i, s.catalog);
      }
      assert sweep[..|sweep|] == sweep;
      assert KeysOf(sweep, s.catalog) == s.catalog;
      CleanedAll(config, s, members);
      NoneStuck(config, s, members, stuck);
      CleanedShape(config, s, members, s.catalog);
      done := true;
    }

    /** Delete the key `j` from the members that do not own it. */
    method DropCopiesOf(ghost s: Cluster, ghost keys: set<Key>, j: Key, members: set<NodeId>, stuck: set<NodeId>) returns (done: bool)
      requires WellFormed(config, s) && State() == CleanedOf(config, s, members, keys) && members <= s.nodes.Keys
      modifies this`stores, this`metadata
      ensures Partly(s, State(), members) && Valid()
      ensures done == !Stuck(config, s, members, stuck, j)
      ensures done ==> State() == CleanedOf(config, s, members, keys + {j})
    {
      CleanedShape(config, s, members, keys);
      var owners := OwnersWalk(ring, config.token(j), config.replicas);
      ghost var x := State();
      ghost var i: nat;
      done, i := ForgetCopies(j, members, owners, stuck);
      ForgottenPartly(config, s, x, State(), members, owners, order[..i], j);
      if done {
        assert order[..i] == order;
        ForgottenCleans(config, s, members, keys, owners, order, j);
        forall n | n in members && n !in owners ensures n !in stuck {
          assert n in order;
        }
      }
    }

    /** Node by node; `i` nodes are done when it stops. */
    method ForgetCopies(j: Key, members: set<NodeId>, owners: seq<NodeId>, stuck: set<NodeId>) returns (done: bool, ghost i: nat)
      requires stores.Keys == metadata.Keys && forall n | n in order :: n in stores.Keys
      modifies this`stores, this`metadata
      ensures i <= |order| && (done ==> i == |order|)
      ensures stores == Forgotten(old(stores), members, owners, order[..i], j)
      ensures metadata == Forgotten(old(metadata), members, owners, order[..i], j)
      ensures if done then forall n | n in order :: !(n in members && n !in owners && n in stuck)
              else exists n :: n in members && n !in owners && n in stuck
    {
      ghost var st, md := stores, metadata;
      ForgottenNone(st, members, owners, order, j);
      ForgottenNone(md, members, owners, order, j);
      i := 0;
      for h := 0 to |order|
        invariant i == h
        invariant stores == Forgotten(st, members, owners, order[..h], j)
        invariant metadata == Forgotten(md, members, owners, order[..h], j)
        invariant forall n | n in order[..h] :: !(n in members && n !in owners && n in stuck)
      {
        var n := order[h];
        assert order[..h + 1] == order[..h] + [n];
        if n in members && n !in owners {
          if n in stuck {
            return false, h;
          }
          ForgottenNext(st, members, owners, order, h, j);
          ForgottenNext(md, members, owners, order, h, j);
          stores := stores[n := stores[n] - {j}];
          metadata := metadata[n := metadata[n] - {j}];
        } else {
          ForgottenSkip(st, members, owners, order, h, j);
          ForgottenSkip(md, members, owners, order, h, j);
        }
        i := h + 1;
      }
      assert order[..|order|] == order;
      return true, |order|;
    }
  }
}
