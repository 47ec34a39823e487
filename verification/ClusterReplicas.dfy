/** Replica by replica: what the coordinator's loops over nodes add up to. */
module ClusterReplicas {
  import opened HashRing
  import opened ClusterModel
  import opened ClusterInvariant

  // ----- Facts the loops need -----

  lemma SelectNext(ns: seq<NodeId>, keep: set<NodeId>, i: nat)
    requires i < |ns|
    ensures Select(ns[..i + 1], keep) == Select(ns[..i], keep) + (if ns[i] in keep then [ns[i]] else [])
  {
    assert ns[..i + 1][..i] == ns[..i];
  }

  lemma {:induction false} SelectPrefix(ns: seq<NodeId>, keep: set<NodeId>, i: nat)
    requires i <= |ns|
    ensures Select(ns[..i], keep) <= Select(ns, keep)
    decreases |ns|
  {
    if i < |ns| {
      SelectPrefix(ns[..|ns| - 1], keep, i);
      assert ns[..|ns| - 1][..i] == ns[..i];
    } else {
      assert ns[..i] == ns;
    }
  }

  lemma {:induction false} SelectDistinct(ns: seq<NodeId>, keep: set<NodeId>)
    requires Distinct(ns)
    ensures Distinct(Select(ns, keep))
  {
    if ns != [] {
      var init := ns[..|ns| - 1];
      SelectDistinct(init, keep);
      SelectMember(init, keep, ns[|ns| - 1]);
      assert ns[|ns| - 1] !in init;
    }
  }

  /** Restoring one key's metadata on some nodes. */
  function Rewind(metadata: map<NodeId, map<Key, Meta>>, k: Key, saved: map<NodeId, Option<Meta>>): map<NodeId, map<Key, Meta>> {
    map n | n in metadata ::
      if n in saved then RewindRow(metadata[n], k, saved[n]) else metadata[n]
  }

  /** Restoring checkpoints node by node. */
  function Restored<T>(stores: map<NodeId, T>, ids: seq<NodeId>, checkpoints: map<NodeId, T>): map<NodeId, T> {
    if ids == [] then stores
    else
      var r := Restored(stores, ids[..|ids| - 1], checkpoints);
      var n := ids[|ids| - 1];
      if n in checkpoints then r[n := checkpoints[n]] else r
  }

  lemma {:induction false} RestoredAt<T>(stores: map<NodeId, T>, ids: seq<NodeId>, checkpoints: map<NodeId, T>, n: NodeId)
    ensures var r := Restored(stores, ids, checkpoints);
      && (n in r <==> n in stores || (n in ids && n in checkpoints))
      && (n in r ==> r[n] == if n in ids && n in checkpoints then checkpoints[n] else stores[n])
  {
    if ids != [] {
      RestoredAt(stores, ids[..|ids| - 1], checkpoints, n);
      assert ids == ids[..|ids| - 1] + [ids[|ids| - 1]];
    }
  }

  lemma RestoredAll<T>(stores: map<NodeId, T>, ids: seq<NodeId>, checkpoints: map<NodeId, T>)
    requires forall n | n in checkpoints :: n in ids
    ensures Restored(stores, ids, checkpoints) == stores + checkpoints
  {
    var r := Restored(stores, ids, checkpoints);
    forall n
      ensures n in r <==> n in stores + checkpoints
      ensures n in r ==> r[n] == (stores + checkpoints)[n]
    {
      RestoredAt(stores, ids, checkpoints, n);
    }
  }

  function Blank<T>(nodes: map<NodeId, Node>): map<NodeId, map<Key, T>> {
    map n | n in nodes && !nodes[n].status.Removed? :: map[]
  }

  lemma WipedNodeByNode<T>(nodes: map<NodeId, Node>, held: map<NodeId, map<Key, T>>, ids: seq<NodeId>)
    requires held.Keys == nodes.Keys && forall n | n in nodes :: n in ids
    ensures Restored(held, ids, Blank(nodes)) == Wiped(nodes, held)
  {
    RestoredAll(held, ids, Blank(nodes));
  }

  /** Restoring one key's metadata node by node. */
  function Rewound(metadata: map<NodeId, map<Key, Meta>>, k: Key, ids: seq<NodeId>, saved: map<NodeId, Option<Meta>>)
    : map<NodeId, map<Key, Meta>>
  {
    if ids == [] then metadata
    else
      var r := Rewound(metadata, k, ids[..|ids| - 1], saved);
      var n := ids[|ids| - 1];
      if n in saved && n in r then r[n := RewindRow(r[n], k, saved[n])] else r
  }

  function RewindRow(row: map<Key, Meta>, k: Key, m: Option<Meta>): map<Key, Meta> {
    if m.None? then row - {k} else row[k := m.value]
  }

  lemma {:induction false} RewoundAt(metadata: map<NodeId, map<Key, Meta>>, k: Key, ids: seq<NodeId>,
                                     saved: map<NodeId, Option<Meta>>, n: NodeId)
    ensures var r := Rewound(metadata, k, ids, saved);
      && (n in r <==> n in metadata)
      && (n in r ==> r[n] == if n in ids && n in saved then RewindRow(metadata[n], k, saved[n]) else metadata[n])
  {
    if ids != [] {
      var init, x := ids[..|ids| - 1], ids[|ids| - 1];
      RewoundAt(metadata, k, init, saved, n);
      assert ids == init + [x];
      if n == x && n in metadata && n in saved {
        var row := metadata[n];
        assert RewindRow(RewindRow(row, k, saved[n]), k, saved[n]) == RewindRow(row, k, saved[n]);
      }
    }
  }

  lemma RewoundAll(metadata: map<NodeId, map<Key, Meta>>, k: Key, ids: seq<NodeId>, saved: map<NodeId, Option<Meta>>)
    requires forall n | n in saved :: n in ids
    ensures Rewound(metadata, k, ids, saved) == Rewind(metadata, k, saved)
  {
    var r := Rewound(metadata, k, ids, saved);
    forall n
      ensures n in r <==> n in Rewind(metadata, k, saved)
      ensures n in r ==> r[n] == Rewind(metadata, k, saved)[n]
    {
      RewoundAt(metadata, k, ids, saved, n);
    }
  }

  lemma InstallNext(st: map<NodeId, map<Key, Value>>, md: map<NodeId, map<Key, Meta>>, done: set<NodeId>, n: NodeId,
                    k: Key, e: Option<Value>, m: Meta)
    requires n in st && n in md && n !in done
    ensures InstallStores(st, done + {n}, k, e) == InstallStores(st, done, k, e)[n := PutCell(st[n], k, e)]
    ensures InstallMeta(md, done + {n}, k, m) == InstallMeta(md, done, k, m)[n := md[n][k := m]]
    ensures InstallStores(st, done, k, e)[n] == st[n] && InstallMeta(md, done, k, m)[n] == md[n]
  {
  }

  /** Undoing a partial installation gives back the exact maps. */
  lemma UndoInstall(st: map<NodeId, map<Key, Value>>, md: map<NodeId, map<Key, Meta>>, done: set<NodeId>,
                    k: Key, e: Option<Value>, m: Meta,
                    checkpoints: map<NodeId, map<Key, Value>>, saved: map<NodeId, Option<Meta>>)
    requires forall n | n in done :: n in checkpoints && n in saved
    requires forall n | n in checkpoints :: n in st && checkpoints[n] == st[n]
    requires forall n | n in saved :: n in md && saved[n] == if k in md[n] then Some(md[n][k]) else None
    ensures InstallStores(st, done, k, e) + checkpoints == st
    ensures Rewind(InstallMeta(md, done, k, m), k, saved) == md
  {
    var undone := InstallStores(st, done, k, e) + checkpoints;
    forall n
      ensures n in undone <==> n in st
      ensures n in st ==> undone[n] == st[n]
    {
    }
    assert undone == st;
    var back := Rewind(InstallMeta(md, done, k, m), k, saved);
    forall n | n in md ensures back[n] == md[n] {
      if n in saved && saved[n].None? {
        assert k !in md[n];
      }
    }
  }

  lemma FaultNext(ns: seq<NodeId>, faults: Faults, i: nat)
    requires i < |ns| && Distinct(ns)
    ensures WithFault(ns[..i + 1], faults, Fine) ==
        WithFault(ns[..i], faults, Fine) + (if FaultOf(faults, ns[i]) == Fine then {ns[i]} else {})
    ensures WithFault(ns[..i + 1], faults, Hard) ==
        WithFault(ns[..i], faults, Hard) + (if FaultOf(faults, ns[i]) == Hard then {ns[i]} else {})
    ensures ns[i] !in WithFault(ns[..i], faults, Fine)
    ensures ns[i] in WithFault(ns, faults, FaultOf(faults, ns[i]))
  {
    assert ns[..i + 1] == ns[..i] + [ns[i]];
    assert ns[i] !in ns[..i];
  }

  /** Checkpoints still to be undone, part way through a write loop. */
  ghost predicate Pending(available: seq<NodeId>, i: nat, held: map<NodeId, map<Key, Value>>,
                          checkpoints: map<NodeId, map<Key, Value>>, done: set<NodeId>)
  {
    && (forall n | n in checkpoints :: n in held && checkpoints[n] == held[n])
    && (forall n | n in done :: n in checkpoints && n in available)
    && (forall j | i <= j < |available| :: available[j] in checkpoints)
  }

  lemma PendingStep(available: seq<NodeId>, i: nat, held: map<NodeId, map<Key, Value>>,
                    checkpoints: map<NodeId, map<Key, Value>>, done: set<NodeId>)
    requires i < |available| && Distinct(available) && Pending(available, i, held, checkpoints, done)
    ensures available[i] in checkpoints && available[i] in held && checkpoints[available[i]] == held[available[i]]
    ensures Pending(available, i + 1, held, checkpoints, done + {available[i]})
    ensures available[i] !in done ==> Pending(available, i + 1, held, checkpoints - {available[i]}, done)
    ensures available[i] !in done ==> Pending(available, |available|, held, checkpoints - {available[i]}, done)
  {
    var n := available[i];
    assert n in checkpoints && n in available;
  }

  lemma PutWellFormed(c: Config, s: Cluster, k: Key, v: Value, p: Profile, up: set<NodeId>, faults: Faults)
    requires WellFormed(c, s)
    ensures WellFormed(c, ReplicatePut(c, s, k, v, p, up, faults).0)
  {
  }

  /** A leader among the candidates is kept. */
  lemma LeaderStays(c: Config, s: Cluster, now: int)
    requires s.leader in Select(s.order, s.ring.nodes * Up(c, s, now))
    ensures s.leader in s.ring.nodes && Elect(c, s, now) == s
  {
    SelectMember(s.order, s.ring.nodes * Up(c, s, now), s.leader);
  }

  lemma PutSteps(c: Config, s: Cluster, s1: Cluster, s2: Cluster, k: Key, v: Value, p: Profile, fence: Option<Fence>,
                 faults: Faults, now: int, r: Outcome<()>)
    requires s1 == Detect(c, s, now) && FenceHolds(s1, fence)
    requires (s2, r) == ReplicatePut(c, s1, k, v, p, Up(c, s1, now), faults)
    ensures Put(c, s, k, v, p, fence, faults, now) == (if r.Ok? then s2.(catalog := s2.catalog + {k}) else s2, r)
  {
  }

  /** The prefix of the repaired replicas. */
  function RepairTargets(s: Cluster, k: Key, w: Response, ns: seq<NodeId>, broken: set<NodeId>): set<NodeId> {
    set n | n in ns && n !in broken && NeedsRepair(s, k, w, n)
  }

  lemma RepairNext(s: Cluster, k: Key, w: Response, ns: seq<NodeId>, broken: set<NodeId>, i: nat)
    requires i < |ns| && Distinct(ns)
    ensures RepairTargets(s, k, w, ns[..i + 1], broken) ==
      RepairTargets(s, k, w, ns[..i], broken) + (if ns[i] !in broken && NeedsRepair(s, k, w, ns[i]) then {ns[i]} else {})
    ensures ns[i] !in RepairTargets(s, k, w, ns[..i], broken)
  {
    assert ns[..i + 1] == ns[..i] + [ns[i]];
    assert ns[i] !in ns[..i];
  }

  /** One replica further, the repaired maps change in that replica only, if it needs it. */
  lemma RepairStep(s: Cluster, k: Key, w: Response, ns: seq<NodeId>, broken: set<NodeId>, i: nat, e: Option<Value>)
    requires i < |ns| && Distinct(ns) && w.meta.Some? && ns[i] in s.stores && ns[i] in s.metadata
    ensures var n, fix := ns[i], ns[i] !in broken && NeedsRepair(s, k, w, ns[i]);
      var st, md := InstallStores(s.stores, RepairTargets(s, k, w, ns[..i], broken), k, e),
                    InstallMeta(s.metadata, RepairTargets(s, k, w, ns[..i], broken), k, w.meta.value);
      && n in st && n in md
      && InstallStores(s.stores, RepairTargets(s, k, w, ns[..i + 1], broken), k, e)
         == (if fix then st[n := PutCell(st[n], k, e)] else st)
      && InstallMeta(s.metadata, RepairTargets(s, k, w, ns[..i + 1], broken), k, w.meta.value)
         == (if fix then md[n := md[n][k := w.meta.value]] else md)
  {
    RepairNext(s, k, w, ns, broken, i);
    InstallNext(s.stores, s.metadata, RepairTargets(s, k, w, ns[..i], broken), ns[i], k, e, w.meta.value);
  }

  lemma AvailableDistinct(c: Config, s: Cluster, k: Key, now: int)
    requires WellFormed(c, s)
    ensures var a := Available(c, s, k, Up(c, s, now));
      Distinct(a) && forall n | n in a ::
        n in s.nodes && n in s.stores && n in s.metadata && n in Owners(c, s, k) && n in Up(c, s, now)
  {
    OwnersAreDistinctMembers(s.ring, c.token(k), c.replicas);
    SelectDistinct(Owners(c, s, k), Up(c, s, now));
    forall n | n in Available(c, s, k, Up(c, s, now)) ensures n in s.nodes && n in Owners(c, s, k) && n in Up(c, s, now) {
      SelectMember(Owners(c, s, k), Up(c, s, now), n);
    }
  }

  lemma AskedAreDistinct(c: Config, s: Cluster, k: Key, mute: set<NodeId>, now: int)
    requires WellFormed(c, s)
    ensures var a := Select(Owners(c, s, k), Up(c, s, now) - mute);
      Distinct(a) && forall n | n in a :: n in s.nodes && n in s.stores && n in s.metadata
  {
    OwnersAreDistinctMembers(s.ring, c.token(k), c.replicas);
    SelectDistinct(Owners(c, s, k), Up(c, s, now) - mute);
    forall n | n in Select(Owners(c, s, k), Up(c, s, now) - mute) ensures n in s.nodes {
      SelectMember(Owners(c, s, k), Up(c, s, now) - mute, n);
    }
  }

  /** The rows of the affected nodes, as saved in checkpoints. */
  function Saved<T>(affected: set<NodeId>, rows: map<NodeId, T>): map<NodeId, T> {
    map n | n in affected && n in rows :: rows[n]
  }

  predicate SameNodes(s: Cluster, t: Cluster) {
    s.stores.Keys == s.metadata.Keys == s.nodes.Keys == t.nodes.Keys == t.stores.Keys == t.metadata.Keys
  }

  lemma StillWellFormed(c: Config, s: Cluster, t: Cluster)
    requires WellFormed(c, s) && SameNodes(s, t) && t.ring == s.ring && t.order == s.order
    ensures WellFormed(c, t)
  {
    forall n ensures n in t.nodes <==> n in s.nodes {
      assert n in t.nodes.Keys <==> n in s.nodes.Keys;
    }
  }
}
