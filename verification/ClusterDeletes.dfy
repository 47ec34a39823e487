/** A delete transaction over any number of keys keeps the invariants. */
module ClusterDeletes {
  import opened HashRing
  import opened ClusterModel
  import opened ClusterInvariant
  import opened ClusterSteps

  /** Which state each cell of a buried cluster comes from. */
  lemma BuryCell(c: Config, s0: Cluster, s1: Cluster, keys: seq<Key>, up: set<NodeId>, faults: Faults, n: NodeId, k: Key)
    requires s1.stores.Keys == s1.metadata.Keys == s0.stores.Keys == s0.metadata.Keys && n in s1.stores
    ensures var t := Bury(c, s0, s1, keys, up, faults);
      var taking := n in Participants(c, s0, keys, up);
      if taking && FaultOf(faults, n).Fine? && k in KeysAt(c, s0, keys, up, n)
      then MetaAt(t, n, k) == Some(Meta(Stamp(s1, Rank(keys, k)), true)) && EntryAt(t, n, k).None?
      else if taking && !FaultOf(faults, n).Fine?
      then (k in keys ==> MetaAt(t, n, k) == MetaAt(s0, n, k)) && EntryAt(t, n, k) == EntryAt(s0, n, k)
        && (k !in keys ==> MetaAt(t, n, k) == MetaAt(s1, n, k))
      else MetaAt(t, n, k) == MetaAt(s1, n, k) && EntryAt(t, n, k) == EntryAt(s1, n, k)
  {
  }

  lemma BuryFrame(c: Config, s0: Cluster, s1: Cluster, keys: seq<Key>, up: set<NodeId>, faults: Faults, k: Key)
    requires s1.stores.Keys == s1.metadata.Keys == s0.stores.Keys == s0.metadata.Keys
    requires k !in keys && SameKey(s0, s1, k)
    ensures SameKey(s1, Bury(c, s0, s1, keys, up, faults), k)
  {
    var t := Bury(c, s0, s1, keys, up, faults);
    forall n ensures MetaAt(s1, n, k) == MetaAt(t, n, k) && EntryAt(s1, n, k) == EntryAt(t, n, k) {
      if n in s1.stores { BuryCell(c, s0, s1, keys, up, faults, n, k); }
    }
  }

  lemma BuryHolder(c: Config, s0: Cluster, s1: Cluster, keys: seq<Key>, up: set<NodeId>, faults: Faults, k: Key, n: NodeId)
    requires s1.stores.Keys == s1.metadata.Keys == s0.stores.Keys == s0.metadata.Keys
    requires k in keys && n in s1.stores && n in WithFault(Available(c, s0, k, up), faults, Fine)
    ensures Holds(Bury(c, s0, s1, keys, up, faults), n, k, Stamp(s1, Rank(keys, k)))
  {
    BuryCell(c, s0, s1, keys, up, faults, n, k);
    assert n in Participants(c, s0, keys, up);
    assert k in KeysAt(c, s0, keys, up, n);
  }

  lemma BuryCells(c: Config, s0: Cluster, s1: Cluster, h: History, g: History, keys: seq<Key>, up: set<NodeId>, faults: Faults, k: Key)
    requires SameShape(s0, s1) && s1.stores.Keys == s1.metadata.Keys
    requires NotLower(s0.watermark, s1.watermark)
    requires KeyOk(c, s0, h, k) && KeyOk(c, s1, h, k)
    requires k in keys && Deleted(Stamp(s1, Rank(keys, k)), k) in g && forall x | x in h :: x in g
    ensures forall n :: CellOk(c, Bury(c, s0, s1, keys, up, faults), g, k, n)
  {
    var t := Bury(c, s0, s1, keys, up, faults);
    forall n ensures CellOk(c, t, g, k, n) {
      assert CellOk(c, s0, h, k, n) && CellOk(c, s1, h, k, n);
      if n in s1.stores { BuryCell(c, s0, s1, keys, up, faults, n, k); }
      if MetaAt(s0, n, k).Some? { RecordedGrows(h, g, k, MetaAt(s0, n, k).value, EntryAt(s0, n, k)); }
      if MetaAt(s1, n, k).Some? { RecordedGrows(h, g, k, MetaAt(s1, n, k).value, EntryAt(s1, n, k)); }
    }
  }

  lemma BuryKey(c: Config, s0: Cluster, s1: Cluster, h: History, keys: seq<Key>, p: Profile, up: set<NodeId>, faults: Faults, k: Key)
    requires WellFormed(c, s0) && up <= s0.nodes.Keys
    requires SameShape(s0, s1) && s1.stores.Keys == s1.metadata.Keys
    requires NotLower(s0.watermark, s1.watermark)
    requires KeyOk(c, s0, h, k) && KeyOk(c, s1, h, k)
    requires k in keys && DistinctSeq(keys) && Buried(c, s0, k, p, up, faults)
    ensures var t := Bury(c, s0, s1, keys, up, faults);
      var g := h + Tombs(keys, s1.term, s1.sequence, s1.leader);
      KeyOk(c, t, g, k) && (!p.One? ==> QuorumOk(c, t, g, k))
  {
    var t := Bury(c, s0, s1, keys, up, faults);
    var g := h + Tombs(keys, s1.term, s1.sequence, s1.leader);
    var v := Stamp(s1, Rank(keys, k));
    LastTombs(h, keys, s1.term, s1.sequence, s1.leader, k);
    LastIn(g, k);
    BuryCells(c, s0, s1, h, g, keys, up, faults, k);
    BuryHolders(c, s0, s1, keys, up, faults, k, t, v);
    QuorumHolds(c, s0, t, k, v, p, up, WithFault(Available(c, s0, k, up), faults, Fine));
  }

  /** The nodes that took the tombstone. */
  lemma BuryHolders(c: Config, s0: Cluster, s1: Cluster, keys: seq<Key>, up: set<NodeId>, faults: Faults, k: Key, t: Cluster, v: Version)
    requires SameShape(s0, s1) && s1.stores.Keys == s1.metadata.Keys == s0.stores.Keys == s0.metadata.Keys == s0.nodes.Keys
    requires k in keys && t == Bury(c, s0, s1, keys, up, faults) && v == Stamp(s1, Rank(keys, k))
    ensures forall n | n in WithFault(Available(c, s0, k, up), faults, Fine) * s0.nodes.Keys :: Holds(t, n, k, v)
  {
    forall n | n in WithFault(Available(c, s0, k, up), faults, Fine) * s0.nodes.Keys ensures Holds(t, n, k, v) {
      BuryHolder(c, s0, s1, keys, up, faults, k, n);
    }
  }

  lemma QuorumHolds(c: Config, s0: Cluster, t: Cluster, k: Key, v: Version, p: Profile, up: set<NodeId>, fine: set<NodeId>)
    requires WellFormed(c, s0) && up <= s0.nodes.Keys
    requires |Select(Select(Owners(c, s0, k), up), fine)| >= p.Required(|Owners(c, s0, k)|)
    requires forall n | n in fine * s0.nodes.Keys :: Holds(t, n, k, v)
    ensures exists n :: Holds(t, n, k, v)
    ensures !p.One? ==> 2 * |Select(Owners(c, s0, k), Holders(t, k, v))| > |Owners(c, s0, k)|
  {
    var owners := Owners(c, s0, k);
    OwnersAreDistinctMembers(s0.ring, c.token(k), c.replicas);
    QuorumOfOwners(owners, up, fine, s0.nodes.Keys, p);
    var n :| n in fine && n in s0.nodes.Keys;
    assert n in fine * s0.nodes.Keys;
    SelectMono(owners, fine * s0.nodes.Keys, Holders(t, k, v));
  }

  lemma BuryWellFormed(c: Config, s0: Cluster, s1: Cluster, keys: seq<Key>, up: set<NodeId>, faults: Faults)
    requires WellFormed(c, s1)
    ensures WellFormed(c, Bury(c, s0, s1, keys, up, faults))
  {
  }

  lemma BuryKeeps(c: Config, s0: Cluster, s1: Cluster, h: History, keys: seq<Key>, p: Profile, up: set<NodeId>, faults: Faults)
    requires Inv(c, s0, h) && Inv(c, s1, h) && up <= s0.nodes.Keys
    requires SameShape(s0, s1) && NotLower(s0.watermark, s1.watermark)
    requires forall k | k !in keys :: SameKey(s0, s1, k)
    requires DistinctSeq(keys) && AllBuried(c, s0, keys, p, up, faults)
    ensures var t := Bury(c, s0, s1, keys, up, faults);
      var g := h + Tombs(keys, s1.term, s1.sequence, s1.leader);
      Inv(c, t, g) && (QuorumInv(c, s1, h) && !p.One? ==> QuorumInv(c, t, g))
  {
    var t := Bury(c, s0, s1, keys, up, faults);
    var g := h + Tombs(keys, s1.term, s1.sequence, s1.leader);
    TombsChain(h, s1, t, keys);
    BuryWellFormed(c, s0, s1, keys, up, faults);
    forall k
      ensures KeyOk(c, t, g, k)
      ensures QuorumInv(c, s1, h) && !p.One? ==> QuorumOk(c, t, g, k)
    {
      assert KeyOk(c, s0, h, k) && KeyOk(c, s1, h, k);
      if k in keys {
        BuryKey(c, s0, s1, h, keys, p, up, faults, k);
      } else {
        BuryFrame(c, s0, s1, keys, up, faults, k);
        LastTombs(h, keys, s1.term, s1.sequence, s1.leader, k);
        FrameKey(c, s1, t, h, g, k);
        assert QuorumInv(c, s1, h) ==> QuorumOk(c, s1, h, k);
      }
    }
  }

  /** What an acknowledged delete of `keys` adds to the history; `t` is the state after it. */
  function DeleteCommits(t: Cluster, keys: seq<Key>): History {
    Tombs(keys, t.term, if |keys| <= t.sequence then t.sequence - |keys| else 0, t.leader)
  }

  /** An acknowledged delete, step by step; a refused one stops after the first sweep. */
  lemma DeleteShape(c: Config, s: Cluster, keys: seq<Key>, p: Profile, sweep: seq<Key>, up: set<NodeId>,
                    faults: Faults, mute: set<NodeId>, broken: set<NodeId>)
    requires keys != []
    ensures var (t, r) := DeleteKeys(c, s, keys, p, sweep, up, faults, mute, broken);
      var s0 := CollectAll(c, s, sweep, up);
      var s1 := ReadAll(c, s0, keys, p, up, mute, broken).0;
      if r.Ok?
      then t == CollectAll(c, Bury(c, s0, s1, keys, up, faults), keys, up)
        && AllBuried(c, s0, keys, p, up, faults)
      else t == s0
  {
  }

  lemma DeleteSteps(c: Config, s0: Cluster, h: History, keys: seq<Key>, p: Profile, up: set<NodeId>,
                    faults: Faults, mute: set<NodeId>, broken: set<NodeId>)
    requires Inv(c, s0, h) && up <= s0.nodes.Keys && DistinctSeq(keys)
    requires AllBuried(c, s0, keys, p, up, faults)
    ensures var s1 := ReadAll(c, s0, keys, p, up, mute, broken).0;
      var t := CollectAll(c, Bury(c, s0, s1, keys, up, faults), keys, up);
      && Inv(c, t, h + DeleteCommits(t, keys)) && NotLower(s0.watermark, t.watermark)
      && t.term == s0.term && t.leader == s0.leader
      && (QuorumInv(c, s0, h) && !p.One? ==> QuorumInv(c, t, h + DeleteCommits(t, keys)))
  {
    var s1 := ReadAll(c, s0, keys, p, up, mute, broken).0;
    ReadAllKeeps(c, s0, h, keys, p, up, mute, broken);
    BuryKeeps(c, s0, s1, h, keys, p, up, faults);
    BuryShape(c, s0, s1, keys, up, faults);
    BuriedKeeps(c, s1, h, keys, p, up, Bury(c, s0, s1, keys, up, faults));
  }

  lemma BuryShape(c: Config, s0: Cluster, s1: Cluster, keys: seq<Key>, up: set<NodeId>, faults: Faults)
    ensures var b := Bury(c, s0, s1, keys, up, faults);
      && b.term == s1.term && b.leader == s1.leader && b.watermark == s1.watermark && b.sequence == s1.sequence + |keys|
  {
  }

  /** Collecting after the burial ends the delete; its stamps are the last `|keys|` drawn. */
  lemma BuriedKeeps(c: Config, s1: Cluster, h: History, keys: seq<Key>, p: Profile, up: set<NodeId>, b: Cluster)
    requires b.term == s1.term && b.leader == s1.leader && b.watermark == s1.watermark && b.sequence == s1.sequence + |keys|
    requires Inv(c, b, h + Tombs(keys, s1.term, s1.sequence, s1.leader))
    requires QuorumInv(c, s1, h) && !p.One? ==> QuorumInv(c, b, h + Tombs(keys, s1.term, s1.sequence, s1.leader))
    ensures var t := CollectAll(c, b, keys, up);
      && Inv(c, t, h + DeleteCommits(t, keys)) && NotLower(s1.watermark, t.watermark)
      && t.term == s1.term && t.leader == s1.leader
      && (QuorumInv(c, s1, h) && !p.One? ==> QuorumInv(c, t, h + DeleteCommits(t, keys)))
  {
    var t := CollectAll(c, b, keys, up);
    CollectAllKeeps(c, b, h + Tombs(keys, s1.term, s1.sequence, s1.leader), keys, up);
    assert t.sequence - |keys| == s1.sequence;
  }

  lemma DeleteKeysKeeps(c: Config, s: Cluster, h: History, keys: seq<Key>, p: Profile, sweep: seq<Key>, up: set<NodeId>,
                        faults: Faults, mute: set<NodeId>, broken: set<NodeId>)
    requires Inv(c, s, h) && up <= s.nodes.Keys && DistinctSeq(keys)
    ensures var (t, r) := DeleteKeys(c, s, keys, p, sweep, up, faults, mute, broken);
      var g := if r.Ok? then h + DeleteCommits(t, keys) else h;
      && Inv(c, t, g) && (QuorumInv(c, s, h) && !p.One? ==> QuorumInv(c, t, g))
      && NotLower(s.watermark, t.watermark) && t.term == s.term && t.leader == s.leader
  {
    if keys == [] {
      assert h + DeleteCommits(s, keys) == h;
    } else {
      var s0 := CollectAll(c, s, sweep, up);
      CollectAllKeeps(c, s, h, sweep, up);
      DeleteShape(c, s, keys, p, sweep, up, faults, mute, broken);
      if DeleteKeys(c, s, keys, p, sweep, up, faults, mute, broken).1.Ok? {
        DeleteSteps(c, s0, h, keys, p, up, faults, mute, broken);
      }
    }
  }

  lemma {:induction false} UniqueIsDistinct(keys: seq<Key>)
    ensures DistinctSeq(Unique(keys))
    ensures forall k :: k in Unique(keys) <==> k in keys
  {
    if keys != [] {
      UniqueIsDistinct(keys[..|keys| - 1]);
      assert keys == keys[..|keys| - 1] + [keys[|keys| - 1]];
    }
  }

  lemma DeleteKeeps(c: Config, s: Cluster, h: History, keys: seq<Key>, p: Profile, fence: Option<Fence>, sweep: seq<Key>,
                    faults: Faults, mute: set<NodeId>, broken: set<NodeId>, now: int)
    requires Inv(c, s, h)
    ensures var (t, r) := Delete(c, s, keys, p, fence, sweep, faults, mute, broken, now);
      var g := if r.Ok? then h + DeleteCommits(t, Unique(keys)) else h;
      && Inv(c, t, g) && (QuorumInv(c, s, h) && !p.One? ==> QuorumInv(c, t, g))
      && NotLower(s.watermark, t.watermark) && Forward(s, t)
  {
    var s1 := Detect(c, s, now);
    DetectIsControl(c, s, now);
    ControlStepKeeps(c, s, s1, h);
    UniqueIsDistinct(keys);
    if FenceHolds(s1, fence) {
      DeleteKeysKeeps(c, s1, h, Unique(keys), p, sweep, Up(c, s1, now), faults, mute, broken);
    }
  }
}
