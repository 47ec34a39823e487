/**
 When a quorum read can return something other than the last acknowledged write of its
 key, told from the owners' records: in any state, and after a rebalance from the state
 before it.
 */
module ClusterStale {
  import opened HashRing
  import opened ClusterModel
  import opened ClusterInvariant
  import opened ClusterSteps
  import opened ClusterMoves
  import opened ClusterSwitch

  /** The answer `r` is a hit with another value than the last acknowledged write's. */
  predicate Stale(h: History, k: Key, r: Lookup) {
    r.Hit? && !(Last(h, k).Some? && Last(h, k).value.Written? && Last(h, k).value.value == r.value)
  }

  /** Some choice of owners that do not answer makes the read stale. */
  ghost predicate CanMislead(c: Config, s: Cluster, h: History, k: Key, p: Profile, up: set<NodeId>) {
    exists mute, broken :: Misleads(c, s, h, k, p, up, mute, broken)
  }

  predicate Misleads(c: Config, s: Cluster, h: History, k: Key, p: Profile, up: set<NodeId>, mute: set<NodeId>, broken: set<NodeId>) {
    var r := Read(c, s, k, p, up, mute, broken).1;
    r.Ok? && Stale(h, k, r.value)
  }

  /** The owners that are up and whose answer does not beat that of `n`. */
  function Behind(s: Cluster, owners: seq<NodeId>, k: Key, up: set<NodeId>, n: NodeId): set<NodeId> {
    set m | m in owners && m in up && !ResponseOf(s, m, k).Beats(ResponseOf(s, n, k))
  }

  /** An owner under `ring` that is up has a stale copy, and a quorum of the owners that are up do not beat it. */
  predicate Exposed(c: Config, s: Cluster, h: History, ring: Ring, k: Key, p: Profile, up: set<NodeId>) {
    var owners := OwnersOn(c, ring, k);
    exists n | n in owners ::
      && n in up && Stale(h, k, Answer(ResponseOf(s, n, k)))
      && |Select(owners, Behind(s, owners, k, up, n))| >= p.Required(|owners|)
  }

  // ----- In any state -----

  /** Every cell with metadata is some acknowledged change. */
  ghost predicate AllRecorded(s: Cluster, h: History, k: Key) {
    forall n :: MetaAt(s, n, k).Some? ==> Recorded(h, k, MetaAt(s, n, k).value, EntryAt(s, n, k))
  }

  lemma MisleadingIsExposed(c: Config, s: Cluster, h: History, k: Key, p: Profile, up: set<NodeId>, mute: set<NodeId>, broken: set<NodeId>)
    requires !p.One? && Misleads(c, s, h, k, p, up, mute, broken)
    ensures Exposed(c, s, h, s.ring, k, p, up)
  {
    var owners := Owners(c, s, k);
    var asked := Select(owners, up - mute);
    var w := Winner(s, asked, k);
    WinnerIsBest(s, asked, k);
    SelectMember(owners, up - mute, w.node);
    forall m | m in owners && m in up - mute ensures m in Behind(s, owners, k, up, w.node) {
      SelectMember(owners, up - mute, m);
      assert !ResponseOf(s, m, k).Beats(w);
    }
    SelectMono(owners, up - mute, Behind(s, owners, k, up, w.node));
    assert ResponseOf(s, w.node, k) == w;
  }

  /** Two answers that do not beat each other are the same. */
  lemma TiesAgree(s: Cluster, h: History, k: Key, m: NodeId, n: NodeId)
    requires Chain(h, s) && AllRecorded(s, h, k)
    requires !ResponseOf(s, m, k).Beats(ResponseOf(s, n, k)) && !ResponseOf(s, n, k).Beats(ResponseOf(s, m, k))
    ensures Answer(ResponseOf(s, m, k)) == Answer(ResponseOf(s, n, k))
  {
    var a, b := MetaAt(s, m, k), MetaAt(s, n, k);
    assert ResponseOf(s, m, k).Newness() == ResponseOf(s, n, k).Newness();
    if a.Some? { RecordedTerm(s, h, k, m); }
    if b.Some? { RecordedTerm(s, h, k, n); }
    if a.Some? && b.Some? && !a.value.deleted && !b.value.deleted {
      var v :| Written(a.value.version, k, v) in h && (EntryAt(s, m, k).Some? ==> EntryAt(s, m, k).value == v);
      var u :| Written(b.value.version, k, u) in h && (EntryAt(s, n, k).Some? ==> EntryAt(s, n, k).value == u);
      ChainOrder(h, s, Written(a.value.version, k, v), Written(b.value.version, k, u));
    }
  }

  lemma RecordedTerm(s: Cluster, h: History, k: Key, n: NodeId)
    requires Chain(h, s) && AllRecorded(s, h, k) && MetaAt(s, n, k).Some?
    ensures MetaAt(s, n, k).value.version.term >= 1
  {
    var m := MetaAt(s, n, k).value;
    assert Recorded(h, k, m, EntryAt(s, n, k));
    if m.deleted {
      ChainOrder(h, s, Deleted(m.version, k), Deleted(m.version, k));
    } else {
      var v :| Written(m.version, k, v) in h;
      ChainOrder(h, s, Written(m.version, k, v), Written(m.version, k, v));
    }
  }

  lemma {:induction false} SelectSame(ns: seq<NodeId>, a: set<NodeId>, b: set<NodeId>)
    requires forall n | n in ns :: n in a <==> n in b
    ensures Select(ns, a) == Select(ns, b)
  {
    if ns != [] {
      assert ns == ns[..|ns| - 1] + [ns[|ns| - 1]];
      SelectSame(ns[..|ns| - 1], a, b);
    }
  }

  /** The read that only the owners behind `n` answer. */
  lemma ExposedMisleads(c: Config, s: Cluster, h: History, k: Key, p: Profile, up: set<NodeId>, n: NodeId, mute: set<NodeId>)
    requires Chain(h, s) && AllRecorded(s, h, k) && !p.One? && n in Owners(c, s, k) && n in up
    requires Stale(h, k, Answer(ResponseOf(s, n, k)))
    requires var owners := Owners(c, s, k);
      && |Select(owners, Behind(s, owners, k, up, n))| >= p.Required(|owners|)
      && mute == (set m | m in owners && m !in Behind(s, owners, k, up, n))
    ensures Misleads(c, s, h, k, p, up, mute, {})
  {
    var owners := Owners(c, s, k);
    var behind := Behind(s, owners, k, up, n);
    SelectSame(owners, up - mute, behind);
    SelectMono(owners, behind, up);
    SelectMember(owners, up - mute, n);
    var asked := Select(owners, up - mute);
    WinnerIsBest(s, asked, k);
    var w := Winner(s, asked, k);
    SelectMember(owners, up - mute, w.node);
    TiesAgree(s, h, k, n, w.node);
  }

  /** In any state whose metadata is acknowledged: a read can be stale if and only if a stale copy is exposed. */
  lemma MisleadIff(c: Config, s: Cluster, h: History, k: Key, p: Profile, up: set<NodeId>)
    requires Chain(h, s) && AllRecorded(s, h, k) && !p.One?
    ensures CanMislead(c, s, h, k, p, up) <==> Exposed(c, s, h, s.ring, k, p, up)
  {
    if mute, broken :| Misleads(c, s, h, k, p, up, mute, broken) {
      MisleadingIsExposed(c, s, h, k, p, up, mute, broken);
    }
    if Exposed(c, s, h, s.ring, k, p, up) {
      var owners := Owners(c, s, k);
      var n :| n in owners && n in up && Stale(h, k, Answer(ResponseOf(s, n, k)))
        && |Select(owners, Behind(s, owners, k, up, n))| >= p.Required(|owners|);
      var mute := set m | m in owners && m !in Behind(s, owners, k, up, n);
      ExposedMisleads(c, s, h, k, p, up, n, mute);
    }
  }

  // ----- After a rebalance -----

  ghost predicate KeysOk(c: Config, s: Cluster, h: History, keys: set<Key>) {
    forall k | k in keys :: KeyOk(c, s, h, k) && QuorumOk(c, s, h, k)
  }

  ghost predicate Ordered(c: Config, s: Cluster, h: History) {
    WellFormed(c, s) && Chain(h, s) && (s.watermark.Some? ==> s.watermark.value.term >= 1)
  }

  lemma CollectKeysOk(c: Config, s: Cluster, h: History, k: Key, up: set<NodeId>, keys: set<Key>)
    requires Ordered(c, s, h) && KeysOk(c, s, h, keys) && k in keys
    ensures Ordered(c, Collect(c, s, k, up), h) && KeysOk(c, Collect(c, s, k, up), h, keys)
  {
    if Collectable(c, s, k, up) {
      var t := Collect(c, s, k, up);
      assert KeyOk(c, s, h, k);
      CollectShape(c, s, h, k, up);
      forall j | j in keys ensures KeyOk(c, t, h, j) && QuorumOk(c, t, h, j) {
        assert KeyOk(c, s, h, j) && QuorumOk(c, s, h, j);
        CollectAt(c, s, h, k, up, j);
      }
    }
  }

  lemma {:induction false} SweepKeysOk(c: Config, s: Cluster, h: History, sweep: seq<Key>, up: set<NodeId>, keys: set<Key>)
    requires Ordered(c, s, h) && KeysOk(c, s, h, keys) && forall k | k in sweep :: k in keys
    ensures Ordered(c, CollectAll(c, s, sweep, up), h) && KeysOk(c, CollectAll(c, s, sweep, up), h, keys)
  {
    if sweep != [] {
      var init := sweep[..|sweep| - 1];
      SweepKeysOk(c, s, h, init, up, keys);
      CollectKeysOk(c, CollectAll(c, s, init, up), h, sweep[|sweep| - 1], up, keys);
    }
  }

  /** A control step changes nothing that a key's owners hold. */
  lemma ControlKeysOk(c: Config, s: Cluster, t: Cluster, h: History, keys: set<Key>)
    requires KeysOk(c, s, h, keys) && Chain(h, s) && ControlStep(s, t)
    ensures KeysOk(c, t, h, keys) && Chain(h, t)
  {
    forall k | k in keys ensures KeyOk(c, t, h, k) && QuorumOk(c, t, h, k) {
      assert KeyOk(c, s, h, k) && QuorumOk(c, s, h, k);
      FrameKey(c, s, t, h, h, k);
    }
  }

  /** After a rebalance that succeeded every key that was catalogued is in order, whatever the others are. */
  lemma CataloguedOk(c: Config, s: Cluster, h: History, plan: Plan, sweep: seq<Key>, broken: set<nat>, stuck: set<NodeId>, now: int)
    requires Inv(c, s, h) && Fits(c, s, plan) && ApplyPlan(c, s, plan, sweep, broken, stuck, now).1.Ok?
    requires forall k | k in sweep :: k in s.catalog
    ensures var t := ApplyPlan(c, s, plan, sweep, broken, stuck, now).0; KeysOk(c, t, h, s.catalog) && Chain(h, t)
  {
    var m := RunMoves(c, s, plan.moves, broken, now).0;
    var d := DropFormer(c, Switch(m, plan), s.ring.nodes);
    SwitchShape(c, s, h, plan, broken, now, m);
    forall k | k in s.catalog ensures KeyOk(c, d, h, k) && QuorumOk(c, d, h, k) {
      CataloguedKey(c, s, h, plan, broken, now, m, k);
    }
    SweepKeysOk(c, d, h, sweep, Up(c, d, now), s.catalog);
    var x := CollectAll(c, d, sweep, Up(c, d, now));
    ElectIsControl(c, x, now);
    ControlKeysOk(c, x, Elect(c, x, now), h, s.catalog);
  }

  /** Exposure speaks only of the cells of the key. */
  lemma ExposedSame(c: Config, s: Cluster, t: Cluster, h: History, ring: Ring, k: Key, p: Profile, up: set<NodeId>)
    requires SameKey(s, t, k)
    ensures Exposed(c, s, h, ring, k, p, up) <==> Exposed(c, t, h, ring, k, p, up)
  {
    assert forall n :: ResponseOf(s, n, k) == ResponseOf(t, n, k) by {
      assert forall n :: MetaAt(s, n, k) == MetaAt(t, n, k) && EntryAt(s, n, k) == EntryAt(t, n, k);
    }
    var owners := OwnersOn(c, ring, k);
    forall n ensures Behind(s, owners, k, up, n) == Behind(t, owners, k, up, n) {
    }
  }

  lemma RecordedSame(c: Config, s: Cluster, t: Cluster, h: History, k: Key)
    requires KeyOk(c, s, h, k) && SameKey(s, t, k)
    ensures AllRecorded(t, h, k)
  {
    forall n | MetaAt(t, n, k).Some? ensures Recorded(h, k, MetaAt(t, n, k).value, EntryAt(t, n, k)) {
      assert MetaAt(s, n, k) == MetaAt(t, n, k) && EntryAt(s, n, k) == EntryAt(t, n, k);
      assert CellOk(c, s, h, k, n);
    }
  }

  lemma CurrentNotMisled(c: Config, s: Cluster, h: History, k: Key, p: Profile, up: set<NodeId>)
    requires Chain(h, s) && KeyOk(c, s, h, k) && QuorumOk(c, s, h, k) && !p.One?
    ensures !CanMislead(c, s, h, k, p, up)
  {
    forall mute, broken ensures !Misleads(c, s, h, k, p, up, mute, broken) {
      KeyReadReturnsLast(c, s, h, k, p, up, mute, broken);
    }
  }

  /**
   After a rebalance that succeeded, at any later time and whichever nodes are up then, a
   quorum read of `k` can be stale if and only if `k` was not catalogued and, in the state
   before, a node that the rebalance makes an owner had a stale copy that a quorum of the
   new owners that are up do not beat.
   */
  lemma RebalanceMisleadsIff(c: Config, s: Cluster, h: History, plan: Plan, sweep: seq<Key>, broken: set<nat>, stuck: set<NodeId>,
                             now: int, k: Key, p: Profile, later: int)
    requires Inv(c, s, h) && Rebalance(c, s, plan, sweep, broken, stuck, now).1.Ok? && !p.One?
    requires forall j | j in sweep :: j in s.catalog
    ensures var (s1, t) := (Detect(c, s, now), Rebalance(c, s, plan, sweep, broken, stuck, now).0);
      var u := Detect(c, t, later);
      CanMislead(c, u, h, k, p, Up(c, u, later)) <==> k !in s1.catalog && Exposed(c, s1, h, plan.target, k, p, Up(c, u, later))
  {
    var s1, t := Detect(c, s, now), Rebalance(c, s, plan, sweep, broken, stuck, now).0;
    var u := Detect(c, t, later);
    DetectIsControl(c, s, now);
    ControlStepKeeps(c, s, s1, h);
    DetectIsControl(c, t, later);
    CataloguedOk(c, s1, h, plan, sweep, broken, stuck, now);
    ControlKeysOk(c, t, u, h, s1.catalog);
    if k in s1.catalog {
      CurrentNotMisled(c, u, h, k, p, Up(c, u, later));
    } else {
      UncataloguedStays(c, s1, h, plan, sweep, broken, stuck, now, k);
      assert SameKey(s1, u, k) by { SameKeyTrans(s1, t, u, k); }
      assert KeyOk(c, s1, h, k);
      RecordedSame(c, s1, u, h, k);
      MisleadIff(c, u, h, k, p, Up(c, u, later));
      ExposedSame(c, s1, u, h, plan.target, k, p, Up(c, u, later));
    }
  }
}
