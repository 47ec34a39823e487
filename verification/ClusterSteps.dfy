/**
 Every transition of the replicated store keeps the invariant, and every
 transition at a quorum profile keeps the quorum invariant.
 */
module ClusterSteps {
  import opened HashRing
  import opened ClusterModel
  import opened ClusterInvariant

  // ----- Membership -----

  predicate Calm(st: Status) {
    st == Active || st == Joining || st == Down
  }

  /** A step that changes only membership, health or leadership, never lowering the term. */
  ghost predicate ControlStep(s: Cluster, t: Cluster) {
    && t.ring == s.ring && t.order == s.order && t.stores == s.stores && t.metadata == s.metadata
    && t.sequence == s.sequence && t.watermark == s.watermark && t.catalog == s.catalog
    && t.nodes.Keys == s.nodes.Keys
    && (forall n | n in t.nodes :: Calm(t.nodes[n].status) || t.nodes[n].status == s.nodes[n].status)
    && Forward(s, t)
  }

  /** Terms never fall, and one term has one leader. */
  predicate Forward(s: Cluster, t: Cluster) {
    t.term >= s.term && (t.term == s.term ==> t.leader == s.leader)
  }

  lemma ControlStepKeeps(c: Config, s: Cluster, t: Cluster, h: History)
    requires Inv(c, s, h) && ControlStep(s, t)
    ensures Inv(c, t, h)
    ensures QuorumInv(c, s, h) ==> QuorumInv(c, t, h)
  {
    forall k
      ensures KeyOk(c, t, h, k)
      ensures QuorumOk(c, s, h, k) ==> QuorumOk(c, t, h, k)
    {
      FrameKey(c, s, t, h, h, k);
    }
  }

  lemma DetectIsControl(c: Config, s: Cluster, now: int)
    ensures ControlStep(s, Detect(c, s, now))
  {
  }

  lemma NodeDownIsControl(c: Config, s: Cluster, n: NodeId, now: int)
    ensures ControlStep(s, NodeDown(c, s, n, now))
  {
  }

  // ----- Installing records -----

  lemma InstallCells(s: Cluster, targets: set<NodeId>, k: Key, e: Option<Value>, m: Meta, n: NodeId, j: Key)
    requires s.stores.Keys == s.metadata.Keys && n in s.stores
    ensures var t := Install(s, targets, k, e, m);
      if n in targets && j == k then MetaAt(t, n, j) == Some(m) && EntryAt(t, n, j) == e
      else MetaAt(t, n, j) == MetaAt(s, n, j) && EntryAt(t, n, j) == EntryAt(s, n, j)
  {
  }

  lemma InstallFrame(s: Cluster, targets: set<NodeId>, k: Key, e: Option<Value>, m: Meta, j: Key)
    requires s.stores.Keys == s.metadata.Keys && j != k
    ensures SameKey(s, Install(s, targets, k, e, m), j)
  {
    var t := Install(s, targets, k, e, m);
    forall n ensures MetaAt(s, n, j) == MetaAt(t, n, j) && EntryAt(s, n, j) == EntryAt(t, n, j) {
      if n in s.stores { InstallCells(s, targets, k, e, m, n, j); }
    }
  }

  /** Copying an acknowledged record over replicas that are not newer keeps the key. */
  lemma InstallKnownKey(c: Config, s: Cluster, h: History, targets: set<NodeId>, k: Key, e: Option<Value>, m: Meta)
    requires WellFormed(c, s) && Chain(h, s) && KeyOk(c, s, h, k)
    requires Recorded(h, k, m, e) && !Vacant(s, k)
    requires forall n | n in targets && MetaAt(s, n, k).Some? :: !m.version.Less(MetaAt(s, n, k).value.version)
    ensures KeyOk(c, Install(s, targets, k, e, m), h, k)
    ensures QuorumOk(c, s, h, k) ==> QuorumOk(c, Install(s, targets, k, e, m), h, k)
  {
    var t := Install(s, targets, k, e, m);
    forall n ensures CellOk(c, t, h, k, n) {
      assert CellOk(c, s, h, k, n);
      if n in s.stores { InstallCells(s, targets, k, e, m, n, k); }
    }
    var last := Last(h, k);
    if last.Some? {
      forall n | Holds(s, n, k, last.value.version) ensures Holds(t, n, k, last.value.version) {
        InstallCells(s, targets, k, e, m, n, k);
        if n in targets { RecordedNotNewer(h, s, k, m, e); }
      }
      var n :| Holds(s, n, k, last.value.version);
      assert Holds(t, n, k, last.value.version);
      SelectMono(Owners(c, s, k), Holders(s, k, last.value.version), Holders(t, k, last.value.version));
    }
  }

  lemma RecordedNotNewer(h: History, s: Cluster, k: Key, m: Meta, e: Option<Value>)
    requires Chain(h, s) && Recorded(h, k, m, e)
    ensures Last(h, k).Some?
    ensures !m.version.Less(Last(h, k).value.version) ==> m.version == Last(h, k).value.version
  {
    var x: Commit;
    if m.deleted {
      x := Deleted(m.version, k);
    } else {
      var v :| Written(m.version, k, v) in h;
      x := Written(m.version, k, v);
    }
    LastIsNewest(h, s, k, x);
    LastIn(h, k);
    ChainOrder(h, s, x, Last(h, k).value);
  }

  lemma InstallKnown(c: Config, s: Cluster, h: History, targets: set<NodeId>, k: Key, e: Option<Value>, m: Meta)
    requires Inv(c, s, h)
    requires Recorded(h, k, m, e) && !Vacant(s, k)
    requires forall n | n in targets && MetaAt(s, n, k).Some? :: !m.version.Less(MetaAt(s, n, k).value.version)
    ensures Inv(c, Install(s, targets, k, e, m), h)
    ensures QuorumInv(c, s, h) ==> QuorumInv(c, Install(s, targets, k, e, m), h)
  {
    var t := Install(s, targets, k, e, m);
    forall j
      ensures KeyOk(c, t, h, j)
      ensures QuorumOk(c, s, h, j) ==> QuorumOk(c, t, h, j)
    {
      assert KeyOk(c, s, h, j);
      if j == k {
        InstallKnownKey(c, s, h, targets, k, e, m);
      } else {
        InstallFrame(s, targets, k, e, m, j);
        FrameKey(c, s, t, h, h, j);
      }
    }
  }

  // ----- Writes -----

  lemma ChainAppend(h: History, s: Cluster, t: Cluster, e: Commit)
    requires Chain(h, s) && s.term <= t.term && s.sequence < t.sequence
    requires e.version.seqno == t.sequence && e.version.term == t.term && t.term >= 1
    ensures Chain(h + [e], t)
  {
  }

  /** The write stamps a quorum of owners with a fresh version. */
  lemma PutKey(c: Config, s: Cluster, h: History, targets: set<NodeId>, k: Key, v: Value, m: Meta)
    requires WellFormed(c, s) && KeyOk(c, s, h, k) && !m.deleted
    requires exists n :: n in targets && n in s.metadata
    ensures KeyOk(c, Install(s, targets, k, Some(v), m), h + [Written(m.version, k, v)], k)
    ensures 2 * |Select(Owners(c, s, k), targets * s.metadata.Keys)| > |Owners(c, s, k)| ==>
      QuorumOk(c, Install(s, targets, k, Some(v), m), h + [Written(m.version, k, v)], k)
  {
    var t, e := Install(s, targets, k, Some(v), m), Written(m.version, k, v);
    var g := h + [e];
    LastAppend(h, e, k);
    forall n ensures CellOk(c, t, g, k, n) {
      assert CellOk(c, s, h, k, n);
      if n in s.stores { InstallCells(s, targets, k, Some(v), m, n, k); }
      if n in targets && n in s.stores {
        assert e in g;
      } else if MetaAt(s, n, k).Some? {
        RecordedGrows(h, g, k, MetaAt(s, n, k).value, EntryAt(s, n, k));
      }
    }
    var n :| n in targets && n in s.metadata;
    InstallCells(s, targets, k, Some(v), m, n, k);
    assert Holds(t, n, k, e.version);
    forall x | x in targets * s.metadata.Keys ensures x in Holders(t, k, e.version) {
      InstallCells(s, targets, k, Some(v), m, x, k);
    }
    SelectMono(Owners(c, s, k), targets * s.metadata.Keys, Holders(t, k, e.version));
  }

  /** What an acknowledged put adds to the history. */
  function PutCommit(t: Cluster, k: Key, v: Value): Commit {
    Written(Version(t.term, t.sequence, t.leader), k, v)
  }

  lemma PutFrame(c: Config, s: Cluster, h: History, targets: set<NodeId>, k: Key, v: Value)
    requires WellFormed(c, s) && LeaversAreMembers(s) && Chain(h, s) && s.term >= 1
    ensures var t := Install(s, targets, k, Some(v), Meta(Stamp(s, 1), false)).(sequence := s.sequence + 1);
      && WellFormed(c, t) && LeaversAreMembers(t) && Chain(h + [PutCommit(t, k, v)], t)
      && t.term == s.term && t.watermark == s.watermark
  {
    var t := Install(s, targets, k, Some(v), Meta(Stamp(s, 1), false)).(sequence := s.sequence + 1);
    ChainAppend(h, s, t, PutCommit(t, k, v));
  }

  lemma PutKeys(c: Config, s: Cluster, h: History, targets: set<NodeId>, k: Key, v: Value, m: Meta, majority: bool)
    requires WellFormed(c, s) && (forall j :: KeyOk(c, s, h, j)) && !m.deleted
    requires exists n :: n in targets && n in s.metadata
    requires majority == (2 * |Select(Owners(c, s, k), targets * s.metadata.Keys)| > |Owners(c, s, k)|)
    ensures var t := Install(s, targets, k, Some(v), m).(sequence := s.sequence + 1);
      var g := h + [Written(m.version, k, v)];
      && (forall j :: KeyOk(c, t, g, j)) && (QuorumInv(c, s, h) && majority ==> QuorumInv(c, t, g))
  {
    var t := Install(s, targets, k, Some(v), m).(sequence := s.sequence + 1);
    var g := h + [Written(m.version, k, v)];
    forall j
      ensures KeyOk(c, t, g, j)
      ensures QuorumOk(c, s, h, j) && majority ==> QuorumOk(c, t, g, j)
    {
      assert KeyOk(c, s, h, j) && KeyOk(c, s, h, k);
      PutAt(c, s, h, targets, k, v, m, j);
    }
  }

  lemma PutStep(c: Config, s: Cluster, h: History, targets: set<NodeId>, k: Key, v: Value)
    requires Inv(c, s, h) && exists n :: n in targets && n in s.metadata
    ensures var t := Install(s, targets, k, Some(v), Meta(Stamp(s, 1), false)).(sequence := s.sequence + 1);
      var g := h + [PutCommit(t, k, v)];
      && Inv(c, t, g)
      && (QuorumInv(c, s, h) && 2 * |Select(Owners(c, s, k), targets * s.metadata.Keys)| > |Owners(c, s, k)|
          ==> QuorumInv(c, t, g))
  {
    PutFrame(c, s, h, targets, k, v);
    PutKeys(c, s, h, targets, k, v, Meta(Stamp(s, 1), false),
            2 * |Select(Owners(c, s, k), targets * s.metadata.Keys)| > |Owners(c, s, k)|);
  }

  lemma PutAt(c: Config, s: Cluster, h: History, targets: set<NodeId>, k: Key, v: Value, m: Meta, j: Key)
    requires WellFormed(c, s) && KeyOk(c, s, h, k) && KeyOk(c, s, h, j) && !m.deleted
    requires exists n :: n in targets && n in s.metadata
    ensures var t := Install(s, targets, k, Some(v), m).(sequence := s.sequence + 1);
      var g := h + [Written(m.version, k, v)];
      && KeyOk(c, t, g, j)
      && (QuorumOk(c, s, h, j) && 2 * |Select(Owners(c, s, k), targets * s.metadata.Keys)| > |Owners(c, s, k)|
          ==> QuorumOk(c, t, g, j))
  {
    var u, e := Install(s, targets, k, Some(v), m), Written(m.version, k, v);
    var t := u.(sequence := s.sequence + 1);
    if j != k {
      InstallFrame(s, targets, k, Some(v), m, j);
      LastAppend(h, e, j);
      FrameKey(c, s, t, h, h + [e], j);
    } else {
      PutKey(c, s, h, targets, k, v, m);
      assert SameKey(u, t, k);
      FrameKey(c, u, t, h + [e], h + [e], k);
    }
  }

  /** An acknowledged put, as one installation on a quorum. */
  lemma PutShape(c: Config, s: Cluster, k: Key, v: Value, p: Profile, up: set<NodeId>, faults: Faults) returns (targets: set<NodeId>)
    requires WellFormed(c, s) && up <= s.nodes.Keys
    requires ReplicatePut(c, s, k, v, p, up, faults).1.Ok?
    ensures ReplicatePut(c, s, k, v, p, up, faults).0
      == Install(s, targets, k, Some(v), Meta(Stamp(s, 1), false)).(sequence := s.sequence + 1)
    ensures exists n :: n in targets && n in s.metadata
    ensures !p.One? ==> 2 * |Select(Owners(c, s, k), targets * s.metadata.Keys)| > |Owners(c, s, k)|
  {
    targets := WithFault(Available(c, s, k, up), faults, Fine);
    OwnersAreDistinctMembers(s.ring, c.token(k), c.replicas);
    QuorumOfOwners(Owners(c, s, k), up, targets, s.metadata.Keys, p);
  }

  lemma ReplicatePutKeeps(c: Config, s: Cluster, h: History, k: Key, v: Value, p: Profile, up: set<NodeId>, faults: Faults)
    requires Inv(c, s, h) && up <= s.nodes.Keys
    requires ReplicatePut(c, s, k, v, p, up, faults).1.Ok?
    ensures var t := ReplicatePut(c, s, k, v, p, up, faults).0;
      && Inv(c, t, h + [PutCommit(t, k, v)])
      && (QuorumInv(c, s, h) && !p.One? ==> QuorumInv(c, t, h + [PutCommit(t, k, v)]))
  {
    var targets := PutShape(c, s, k, v, p, up, faults);
    PutStep(c, s, h, targets, k, v);
  }

  lemma QuorumOfOwners(owners: seq<NodeId>, up: set<NodeId>, fine: set<NodeId>, all: set<NodeId>, p: Profile)
    requires owners != [] && up <= all
    requires |Select(Select(owners, up), fine)| >= p.Required(|owners|)
    ensures exists n :: n in fine && n in all
    ensures !p.One? ==> 2 * |Select(owners, fine * all)| > |owners|
  {
    SelectTwice(owners, up, fine);
    var picked := Select(owners, up * fine);
    assert picked != [];
    SelectMember(owners, up * fine, picked[0]);
    SelectMono(owners, up * fine, fine * all);
  }

  lemma PutKeeps(c: Config, s: Cluster, h: History, k: Key, v: Value, p: Profile, fence: Option<Fence>, faults: Faults, now: int)
    requires Inv(c, s, h)
    ensures var (t, r) := Put(c, s, k, v, p, fence, faults, now);
      var g := if r.Ok? then h + [PutCommit(t, k, v)] else h;
      && Inv(c, t, g) && (QuorumInv(c, s, h) && !p.One? ==> QuorumInv(c, t, g))
      && t.watermark == s.watermark && Forward(s, t)
  {
    var s1 := Detect(c, s, now);
    DetectIsControl(c, s, now);
    ControlStepKeeps(c, s, s1, h);
    WholePutShape(c, s, k, v, p, fence, faults, now);
    if Put(c, s, k, v, p, fence, faults, now).1.Ok? {
      var up := Up(c, s1, now);
      ReplicatePutKeeps(c, s1, h, k, v, p, up, faults);
      ReplicateForward(c, s1, k, v, p, up, faults);
      CataloguedKeeps(c, s1, ReplicatePut(c, s1, k, v, p, up, faults).0, h, k, v, p);
    }
  }

  /** A put detects failures, and when accepted replicates and catalogues the key. */
  lemma WholePutShape(c: Config, s: Cluster, k: Key, v: Value, p: Profile, fence: Option<Fence>, faults: Faults, now: int)
    ensures var (t, r) := Put(c, s, k, v, p, fence, faults, now);
      var s1 := Detect(c, s, now);
      var (s2, r2) := ReplicatePut(c, s1, k, v, p, Up(c, s1, now), faults);
      if r.Ok? then r2.Ok? && t == s2.(catalog := s2.catalog + {k}) else t == s1
  {
  }

  lemma ReplicateForward(c: Config, s: Cluster, k: Key, v: Value, p: Profile, up: set<NodeId>, faults: Faults)
    ensures var s2 := ReplicatePut(c, s, k, v, p, up, faults).0; s2.watermark == s.watermark && Forward(s, s2)
  {
  }

  lemma CataloguedKeeps(c: Config, s: Cluster, s2: Cluster, h: History, k: Key, v: Value, p: Profile)
    requires Inv(c, s2, h + [PutCommit(s2, k, v)])
    requires QuorumInv(c, s, h) && !p.One? ==> QuorumInv(c, s2, h + [PutCommit(s2, k, v)])
    ensures var t := s2.(catalog := s2.catalog + {k});
      && Inv(c, t, h + [PutCommit(t, k, v)])
      && (QuorumInv(c, s, h) && !p.One? ==> QuorumInv(c, t, h + [PutCommit(t, k, v)]))
  {
    var t := s2.(catalog := s2.catalog + {k});
    assert PutCommit(t, k, v) == PutCommit(s2, k, v);
    CatalogKeeps(c, s2, t, h + [PutCommit(s2, k, v)]);
  }

  /** The catalogue plays no part in the invariant. */
  lemma CatalogKeeps(c: Config, s: Cluster, t: Cluster, h: History)
    requires t == s.(catalog := t.catalog)
    requires Inv(c, s, h)
    ensures Inv(c, t, h)
    ensures QuorumInv(c, s, h) ==> QuorumInv(c, t, h)
  {
    forall k
      ensures KeyOk(c, t, h, k)
      ensures QuorumOk(c, s, h, k) ==> QuorumOk(c, t, h, k)
    {
      assert KeyOk(c, s, h, k);
      FrameKey(c, s, t, h, h, k);
    }
  }

  // ----- Collection -----

  lemma CollectKey(c: Config, s: Cluster, h: History, k: Key, up: set<NodeId>)
    requires WellFormed(c, s) && Chain(h, s) && KeyOk(c, s, h, k)
    requires Collectable(c, s, k, up)
    ensures KeyOk(c, Collect(c, s, k, up), h, k)
    ensures QuorumOk(c, Collect(c, s, k, up), h, k)
  {
    var t := Collect(c, s, k, up);
    LatestIsLast(c, s, h, k);
    var m := Latest(s, k).value;
    forall n ensures CellOk(c, t, h, k, n) {
      if n in Owners(c, s, k) {
        assert HasRecord(s, n, k, m);
        HolderHasLast(c, s, h, k, n);
      }
    }
    assert Vacant(t, k);
  }

  lemma CollectKeeps(c: Config, s: Cluster, h: History, k: Key, up: set<NodeId>)
    requires Inv(c, s, h)
    ensures Inv(c, Collect(c, s, k, up), h)
    ensures QuorumInv(c, s, h) ==> QuorumInv(c, Collect(c, s, k, up), h)
    ensures forall j | j != k :: SameKey(s, Collect(c, s, k, up), j)
    ensures SameShape(s, Collect(c, s, k, up))
    ensures NotLower(s.watermark, Collect(c, s, k, up).watermark)
  {
    if Collectable(c, s, k, up) {
      var t := Collect(c, s, k, up);
      assert KeyOk(c, s, h, k);
      CollectShape(c, s, h, k, up);
      forall j
        ensures KeyOk(c, t, h, j)
        ensures QuorumOk(c, s, h, j) ==> QuorumOk(c, t, h, j)
        ensures j != k ==> SameKey(s, t, j)
      {
        assert KeyOk(c, s, h, j);
        CollectAt(c, s, h, k, up, j);
      }
    }
  }

  lemma CollectShape(c: Config, s: Cluster, h: History, k: Key, up: set<NodeId>)
    requires WellFormed(c, s) && Chain(h, s) && KeyOk(c, s, h, k) && Collectable(c, s, k, up)
    requires s.watermark.Some? ==> s.watermark.value.term >= 1
    ensures var t := Collect(c, s, k, up);
      && WellFormed(c, t) && SameShape(s, t) && NotLower(s.watermark, t.watermark) && Chain(h, t)
      && t.watermark.Some? && t.watermark.value.term >= 1
  {
    LatestIsLast(c, s, h, k);
    LastIn(h, k);
    ChainOrder(h, s, Last(h, k).value, Last(h, k).value);
  }

  lemma CollectAt(c: Config, s: Cluster, h: History, k: Key, up: set<NodeId>, j: Key)
    requires WellFormed(c, s) && Chain(h, s) && KeyOk(c, s, h, k) && KeyOk(c, s, h, j) && Collectable(c, s, k, up)
    ensures var t := Collect(c, s, k, up);
      KeyOk(c, t, h, j) && (QuorumOk(c, s, h, j) ==> QuorumOk(c, t, h, j)) && (j != k ==> SameKey(s, t, j))
  {
    if j == k {
      CollectKey(c, s, h, k, up);
    } else {
      LatestIsLast(c, s, h, k);
      LastIn(h, k);
      ChainOrder(h, s, Last(h, k).value, Last(h, k).value);
      FrameKey(c, s, Collect(c, s, k, up), h, h, j);
    }
  }

  lemma {:induction false} CollectAllKeeps(c: Config, s: Cluster, h: History, keys: seq<Key>, up: set<NodeId>)
    requires Inv(c, s, h)
    ensures var t := CollectAll(c, s, keys, up);
      && Inv(c, t, h) && (QuorumInv(c, s, h) ==> QuorumInv(c, t, h))
      && (forall j | j !in keys :: SameKey(s, t, j))
      && SameShape(s, t) && t.sequence == s.sequence && NotLower(s.watermark, t.watermark)
  {
    if keys != [] {
      var init := keys[..|keys| - 1];
      assert keys == init + [keys[|keys| - 1]];
      CollectAllKeeps(c, s, h, init, up);
      var u, t := CollectAll(c, s, init, up), CollectAll(c, s, keys, up);
      CollectKeeps(c, u, h, keys[|keys| - 1], up);
      forall j | j !in keys ensures SameKey(s, t, j) {
        assert SameKey(s, u, j) && SameKey(u, t, j);
      }
    }
  }

  // ----- Reads -----

  lemma {:induction false} WinnerIsBest(s: Cluster, ns: seq<NodeId>, k: Key)
    requires ns != []
    ensures var w := Winner(s, ns, k);
      && w.node in ns && w == ResponseOf(s, w.node, k)
      && forall n | n in ns :: !ResponseOf(s, n, k).Beats(w)
  {
    if |ns| > 1 {
      var init, x := ns[..|ns| - 1], ns[|ns| - 1];
      WinnerIsBest(s, init, k);
      assert ns == init + [x];
      var best, w := Winner(s, init, k), Winner(s, ns, k);
      forall n | n in ns ensures !ResponseOf(s, n, k).Beats(w) {
        if n != x { assert !ResponseOf(s, n, k).Beats(best); }
      }
    }
  }

  lemma RepairKeeps(c: Config, s: Cluster, h: History, k: Key, ns: seq<NodeId>, broken: set<NodeId>)
    requires Inv(c, s, h) && ns != []
    ensures var t := Repair(s, k, Winner(s, ns, k), ns, broken);
      && Inv(c, t, h) && (QuorumInv(c, s, h) ==> QuorumInv(c, t, h))
      && (forall j | j != k :: SameKey(s, t, j))
      && SameShape(s, t) && t.watermark == s.watermark && t.sequence == s.sequence
  {
    var w := Winner(s, ns, k);
    WinnerIsBest(s, ns, k);
    if w.meta.Some? {
      var targets := set n | n in ns && n !in broken && NeedsRepair(s, k, w, n);
      var e := if w.meta.value.deleted then None else w.entry;
      assert MetaAt(s, w.node, k).Some?;
      assert KeyOk(c, s, h, k);
      assert CellOk(c, s, h, k, w.node);
      InstallKnown(c, s, h, targets, k, e, w.meta.value);
      forall j | j != k ensures SameKey(s, Install(s, targets, k, e, w.meta.value), j) {
        InstallFrame(s, targets, k, e, w.meta.value, j);
      }
    }
  }

  lemma ReadKeeps(c: Config, s: Cluster, h: History, k: Key, p: Profile, up: set<NodeId>, mute: set<NodeId>, broken: set<NodeId>)
    requires Inv(c, s, h)
    ensures var t := Read(c, s, k, p, up, mute, broken).0;
      && Inv(c, t, h) && (QuorumInv(c, s, h) ==> QuorumInv(c, t, h))
      && (forall j | j != k :: SameKey(s, t, j))
      && SameShape(s, t) && NotLower(s.watermark, t.watermark) && t.sequence == s.sequence
  {
    var (t, r) := Read(c, s, k, p, up, mute, broken);
    if r.Ok? && !p.One? {
      var asked := Select(Owners(c, s, k), up - mute);
      var u := Repair(s, k, Winner(s, asked, k), asked, broken);
      RepairKeeps(c, s, h, k, asked, broken);
      CollectKeeps(c, u, h, k, up);
      forall j | j != k ensures SameKey(s, t, j) {
        assert SameKey(s, u, j) && SameKey(u, t, j);
      }
    }
  }

  /** One key: a read whose answers overlap the write quorum. */
  lemma KeyReadReturnsLast(c: Config, s: Cluster, h: History, k: Key, p: Profile, up: set<NodeId>, mute: set<NodeId>, broken: set<NodeId>)
    requires Chain(h, s) && KeyOk(c, s, h, k) && QuorumOk(c, s, h, k) && !p.One?
    ensures var r := Read(c, s, k, p, up, mute, broken).1;
      r.Ok? && r.value.Hit? ==>
        Last(h, k).Some? && Last(h, k).value.Written? && Last(h, k).value.key == k && Last(h, k).value.value == r.value.value
  {
    var r := Read(c, s, k, p, up, mute, broken).1;
    if r.Ok? && r.value.Hit? {
      var owners := Owners(c, s, k);
      var asked := Select(owners, up - mute);
      var w := Winner(s, asked, k);
      WinnerIsBest(s, asked, k);
      SelectMember(owners, up - mute, w.node);
      assert CellOk(c, s, h, k, w.node);
      assert w.meta.Some? && MetaAt(s, w.node, k) == w.meta;
      var e := CommitOf(c, s, h, k, w.node);
      LastIn(h, k);
      var last := Last(h, k).value;
      var n := Overlap(owners, Holders(s, k, last.version), up - mute);
      SelectMember(owners, up - mute, n);
      assert !ResponseOf(s, n, k).Beats(w);
      ChainOrder(h, s, e, last);
    }
  }

  /**
   A quorum read answers with a miss or with the value of the last acknowledged
   change of its key: never an older value, never a deleted one.
   */
  lemma ReadReturnsLast(c: Config, s: Cluster, h: History, k: Key, p: Profile, up: set<NodeId>, mute: set<NodeId>, broken: set<NodeId>)
    requires Inv(c, s, h) && QuorumInv(c, s, h) && !p.One?
    ensures var r := Read(c, s, k, p, up, mute, broken).1;
      r.Ok? && r.value.Hit? ==>
        Last(h, k).Some? && Last(h, k).value.Written? && Last(h, k).value.key == k && Last(h, k).value.value == r.value.value
  {
    assert KeyOk(c, s, h, k) && QuorumOk(c, s, h, k);
    KeyReadReturnsLast(c, s, h, k, p, up, mute, broken);
  }

  /** One more read, unless an earlier one has failed. */
  lemma ReadAllLast(c: Config, s: Cluster, keys: seq<Key>, p: Profile, up: set<NodeId>, mute: set<NodeId>, broken: set<NodeId>)
    requires keys != []
    ensures var (u, r) := ReadAll(c, s, keys[..|keys| - 1], p, up, mute, broken);
      ReadAll(c, s, keys, p, up, mute, broken).0 == if r.Ok? then Read(c, u, keys[|keys| - 1], p, up, mute, broken).0 else u
  {
  }

  lemma {:induction false} ReadAllKeeps(c: Config, s: Cluster, h: History, keys: seq<Key>, p: Profile,
                                        up: set<NodeId>, mute: set<NodeId>, broken: set<NodeId>)
    requires Inv(c, s, h)
    ensures var t := ReadAll(c, s, keys, p, up, mute, broken).0;
      && Inv(c, t, h) && (QuorumInv(c, s, h) ==> QuorumInv(c, t, h))
      && (forall j | j !in keys :: SameKey(s, t, j))
      && SameShape(s, t) && NotLower(s.watermark, t.watermark) && t.sequence == s.sequence
  {
    if keys != [] {
      var init, k := keys[..|keys| - 1], keys[|keys| - 1];
      assert keys == init + [k];
      ReadAllKeeps(c, s, h, init, p, up, mute, broken);
      ReadAllLast(c, s, keys, p, up, mute, broken);
      var (u, r) := ReadAll(c, s, init, p, up, mute, broken);
      if r.Ok? {
        ReadKeeps(c, u, h, k, p, up, mute, broken);
        var t := Read(c, u, k, p, up, mute, broken).0;
        forall j | j !in keys ensures SameKey(s, t, j) {
          assert SameKey(s, u, j) && SameKey(u, t, j);
        }
      }
    }
  }

  // ----- Deletes -----

  /** The tombstones an acknowledged delete adds: `keys[i]` gets sequence number `base + 1 + i`. */
  function Tombs(keys: seq<Key>, term: nat, base: nat, leader: NodeId): History {
    seq(|keys|, i requires 0 <= i < |keys| => Deleted(Version(term, base + 1 + i, leader), keys[i]))
  }

  predicate DistinctSeq(keys: seq<Key>) {
    forall i, j | 0 <= i < j < |keys| :: keys[i] != keys[j]
  }

  lemma {:induction false} RankOf(keys: seq<Key>, i: nat)
    requires i < |keys| && DistinctSeq(keys)
    ensures Rank(keys, keys[i]) == i + 1
  {
    if i < |keys| - 1 {
      RankOf(keys[..|keys| - 1], i);
    }
  }

  lemma TombsChain(h: History, s: Cluster, t: Cluster, keys: seq<Key>)
    requires Chain(h, s) && s.term == t.term && t.sequence == s.sequence + |keys| && s.term >= 1
    ensures Chain(h + Tombs(keys, s.term, s.sequence, s.leader), t)
  {
  }

  lemma {:induction false} LastTombs(h: History, keys: seq<Key>, term: nat, base: nat, leader: NodeId, k: Key)
    requires DistinctSeq(keys)
    ensures Last(h + Tombs(keys, term, base, leader), k) ==
      if k in keys then Some(Deleted(Version(term, base + Rank(keys, k), leader), k)) else Last(h, k)
  {
    var tombs := Tombs(keys, term, base, leader);
    if keys == [] {
      assert h + tombs == h;
    } else {
      var init, x := keys[..|keys| - 1], keys[|keys| - 1];
      assert keys == init + [x];
      LastTombs(h, init, term, base, leader, k);
      TombsSnoc(h, keys, term, base, leader);
      LastAppend(h + Tombs(init, term, base, leader), Deleted(Version(term, base + |keys|, leader), x), k);
    }
  }

  lemma TombsSnoc(h: History, keys: seq<Key>, term: nat, base: nat, leader: NodeId)
    requires keys != []
    ensures var init, x := keys[..|keys| - 1], keys[|keys| - 1];
      h + Tombs(keys, term, base, leader)
      == (h + Tombs(init, term, base, leader)) + [Deleted(Version(term, base + |keys|, leader), x)]
  {
    var init, x := keys[..|keys| - 1], keys[|keys| - 1];
    assert Tombs(keys, term, base, leader) == Tombs(init, term, base, leader) + [Deleted(Version(term, base + |keys|, leader), x)];
  }
}
