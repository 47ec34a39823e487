/**
 The history of acknowledged writes and what every state of the replicated store
 keeps with respect to it.
 */
module ClusterInvariant {
  import opened HashRing
  import opened ClusterModel

  /** An acknowledged change, with its stamp. */
  datatype Commit =
    | Written(version: Version, key: Key, value: Value)
    | Deleted(version: Version, key: Key)
    | Flushed(version: Version)

  type History = seq<Commit>

  predicate Touches(e: Commit, k: Key) {
    e.Flushed? || e.key == k
  }

  /** The last acknowledged change of `k`. */
  function Last(h: History, k: Key): Option<Commit> {
    if h == [] then None
    else if Touches(h[|h| - 1], k) then Some(h[|h| - 1])
    else Last(h[..|h| - 1], k)
  }

  /** Stamps strictly increase along the history and never pass the coordinator. */
  ghost predicate Chain(h: History, s: Cluster) {
    && (forall i, j | 0 <= i < j < |h| ::
          h[i].version.seqno < h[j].version.seqno && h[i].version.term <= h[j].version.term)
    && (forall i | 0 <= i < |h| :: 1 <= h[i].version.term <= s.term && h[i].version.seqno <= s.sequence)
  }

  /** A replica's cell for `k` is some acknowledged change of `k`. */
  ghost predicate Recorded(h: History, k: Key, m: Meta, e: Option<Value>) {
    if m.deleted then Deleted(m.version, k) in h && e.None?
    else exists v :: Written(m.version, k, v) in h && (e.Some? ==> e.value == v)
  }

  ghost predicate CellOk(c: Config, s: Cluster, h: History, k: Key, n: NodeId) {
    match MetaAt(s, n, k)
    case Some(m) => Recorded(h, k, m, EntryAt(s, n, k))
    case None => EntryAt(s, n, k).None? || (n !in Owners(c, s, k) && s.watermark.Some?)
  }

  ghost predicate Vacant(s: Cluster, k: Key) {
    forall n :: MetaAt(s, n, k).None?
  }

  predicate Holds(s: Cluster, n: NodeId, k: Key, v: Version) {
    MetaAt(s, n, k).Some? && MetaAt(s, n, k).value.version == v
  }

  /** The newest change of `k` is held somewhere, or its key is vacant and the watermark covers it. */
  ghost predicate Newest(s: Cluster, h: History, k: Key) {
    var last := Last(h, k);
    last.Some? ==>
      || (exists n :: Holds(s, n, k, last.value.version))
      || (Vacant(s, k) && s.watermark.Some? && !s.watermark.value.Less(last.value.version))
  }

  ghost predicate KeyOk(c: Config, s: Cluster, h: History, k: Key) {
    && (forall n :: CellOk(c, s, h, k, n))
    && Newest(s, h, k)
  }

  function Holders(s: Cluster, k: Key, v: Version): set<NodeId> {
    set n | n in s.metadata && Holds(s, n, k, v)
  }

  /** Unless its tombstone is gone, the newest change of `k` is on more than half of the owners. */
  ghost predicate QuorumOk(c: Config, s: Cluster, h: History, k: Key) {
    var last := Last(h, k);
    last.Some? && !Vacant(s, k) ==>
      2 * |Select(Owners(c, s, k), Holders(s, k, last.value.version))| > |Owners(c, s, k)|
  }

  predicate LeaversAreMembers(s: Cluster) {
    forall n | n in s.nodes && (s.nodes[n].status.Draining? || s.nodes[n].status.Removing?) :: n in s.ring.nodes
  }

  ghost predicate Inv(c: Config, s: Cluster, h: History) {
    && WellFormed(c, s)
    && s.term >= 1
    && (s.watermark.Some? ==> s.watermark.value.term >= 1)
    && LeaversAreMembers(s)
    && Chain(h, s)
    && forall k :: KeyOk(c, s, h, k)
  }

  ghost predicate QuorumInv(c: Config, s: Cluster, h: History) {
    forall k :: QuorumOk(c, s, h, k)
  }

  // ----- Selections -----

  lemma {:induction false} SelectMember(ns: seq<NodeId>, keep: set<NodeId>, x: NodeId)
    ensures x in Select(ns, keep) <==> x in ns && x in keep
  {
    if ns != [] {
      SelectMember(ns[..|ns| - 1], keep, x);
      assert ns == ns[..|ns| - 1] + [ns[|ns| - 1]];
    }
  }

  lemma {:induction false} SelectMono(ns: seq<NodeId>, a: set<NodeId>, b: set<NodeId>)
    requires forall x | x in ns && x in a :: x in b
    ensures |Select(ns, a)| <= |Select(ns, b)| <= |ns|
  {
    if ns != [] {
      SelectMono(ns[..|ns| - 1], a, b);
    }
  }

  lemma {:induction false} SelectTwice(ns: seq<NodeId>, a: set<NodeId>, b: set<NodeId>)
    ensures Select(Select(ns, a), b) == Select(ns, a * b)
  {
    if ns != [] {
      var init, x := ns[..|ns| - 1], ns[|ns| - 1];
      SelectTwice(init, a, b);
      if x in a {
        assert Select(ns, a)[..|Select(init, a)|] == Select(init, a);
      } else {
        assert Select(ns, a) == Select(init, a);
      }
    }
  }

  /** Two majorities of the same owners share a node. */
  lemma {:induction false} Overlap(ns: seq<NodeId>, a: set<NodeId>, b: set<NodeId>) returns (n: NodeId)
    requires |Select(ns, a)| + |Select(ns, b)| > |ns|
    ensures n in ns && n in a && n in b
  {
    var x := ns[|ns| - 1];
    if x in a && x in b {
      n := x;
    } else {
      n := Overlap(ns[..|ns| - 1], a, b);
    }
  }

  // ----- Histories -----

  lemma ChainOrder(h: History, s: Cluster, a: Commit, b: Commit)
    requires Chain(h, s) && a in h && b in h
    ensures a.version.seqno == b.version.seqno ==> a == b
    ensures a.version.seqno < b.version.seqno ==> a.version.Less(b.version) && !b.version.Less(a.version)
    ensures a.version.term >= 1
  {
    var i :| 0 <= i < |h| && h[i] == a;
    var j :| 0 <= j < |h| && h[j] == b;
  }

  lemma {:induction false} LastIn(h: History, k: Key)
    ensures Last(h, k).Some? ==> Last(h, k).value in h && Touches(Last(h, k).value, k)
  {
    if h != [] && !Touches(h[|h| - 1], k) {
      LastIn(h[..|h| - 1], k);
    }
  }

  lemma {:induction false} LastIsNewest(h: History, s: Cluster, k: Key, e: Commit)
    requires Chain(h, s) && e in h && Touches(e, k)
    ensures Last(h, k).Some? && e.version.seqno <= Last(h, k).value.version.seqno
  {
    var i :| 0 <= i < |h| && h[i] == e;
    if !Touches(h[|h| - 1], k) {
      assert h[..|h| - 1][i] == e;
      LastIsNewest(h[..|h| - 1], s, k, e);
    }
  }

  lemma LastAppend(h: History, e: Commit, k: Key)
    ensures Last(h + [e], k) == if Touches(e, k) then Some(e) else Last(h, k)
  {
    assert (h + [e])[..|h|] == h;
  }

  // ----- Latest metadata -----

  lemma {:induction false} LatestInIsMax(md: map<NodeId, map<Key, Meta>>, ns: seq<NodeId>, k: Key)
    ensures match LatestIn(md, ns, k)
      case None => forall n | n in ns && n in md :: k !in md[n]
      case Some(m) =>
        && (exists n :: n in ns && n in md && k in md[n] && md[n][k] == m)
        && (forall n | n in ns && n in md && k in md[n] :: !m.version.Less(md[n][k].version))
  {
    if ns != [] {
      LatestInIsMax(md, ns[..|ns| - 1], k);
      assert ns == ns[..|ns| - 1] + [ns[|ns| - 1]];
    }
  }

  lemma LatestIsMax(c: Config, s: Cluster, k: Key)
    requires WellFormed(c, s)
    ensures Latest(s, k).None? <==> Vacant(s, k)
    ensures Latest(s, k).Some? ==> exists n :: MetaAt(s, n, k) == Latest(s, k)
    ensures Latest(s, k).Some? ==> forall n ::
      MetaAt(s, n, k).Some? ==> !Latest(s, k).value.version.Less(MetaAt(s, n, k).value.version)
  {
    LatestInIsMax(s.metadata, s.order, k);
    if Latest(s, k).Some? {
      var n :| n in s.order && n in s.metadata && k in s.metadata[n] && s.metadata[n][k] == Latest(s, k).value;
      assert MetaAt(s, n, k) == Latest(s, k);
    }
  }

  /** The commit behind a replica's metadata. */
  lemma CommitOf(c: Config, s: Cluster, h: History, k: Key, n: NodeId) returns (e: Commit)
    requires Chain(h, s) && KeyOk(c, s, h, k) && MetaAt(s, n, k).Some?
    ensures e in h && !e.Flushed? && e.key == k && e.version == MetaAt(s, n, k).value.version
    ensures MetaAt(s, n, k).value.deleted <==> e.Deleted?
    ensures e.Written? && EntryAt(s, n, k).Some? ==> EntryAt(s, n, k).value == e.value
    ensures e.Deleted? ==> EntryAt(s, n, k).None?
    ensures Last(h, k).Some? && e.version.seqno <= Last(h, k).value.version.seqno
  {
    assert CellOk(c, s, h, k, n);
    var m := MetaAt(s, n, k).value;
    if m.deleted {
      e := Deleted(m.version, k);
    } else {
      var v :| Written(m.version, k, v) in h && (EntryAt(s, n, k).Some? ==> EntryAt(s, n, k).value == v);
      e := Written(m.version, k, v);
    }
    LastIsNewest(h, s, k, e);
  }

  /** Latest metadata is the newest acknowledged change, whatever subset of nodes is reachable. */
  lemma LatestIsLast(c: Config, s: Cluster, h: History, k: Key)
    requires WellFormed(c, s) && Chain(h, s) && KeyOk(c, s, h, k)
    ensures Latest(s, k).None? ==> Vacant(s, k)
    ensures Latest(s, k).Some? ==>
      && Last(h, k).Some?
      && Latest(s, k).value.version == Last(h, k).value.version
      && !Last(h, k).value.Flushed?
      && (Latest(s, k).value.deleted <==> Last(h, k).value.Deleted?)
  {
    LatestIsMax(c, s, k);
    if Latest(s, k).Some? {
      var n :| MetaAt(s, n, k) == Latest(s, k);
      var e := CommitOf(c, s, h, k, n);
      LastIn(h, k);
      var last := Last(h, k).value;
      ChainOrder(h, s, e, last);
      var n' :| Holds(s, n', k, last.version);
    }
  }

  /** A replica that holds the newest version holds the newest change itself. */
  lemma HolderHasLast(c: Config, s: Cluster, h: History, k: Key, n: NodeId)
    requires Chain(h, s) && KeyOk(c, s, h, k)
    requires Last(h, k).Some? && Holds(s, n, k, Last(h, k).value.version)
    ensures !Last(h, k).value.Flushed? && Last(h, k).value.key == k
    ensures MetaAt(s, n, k).value.deleted <==> Last(h, k).value.Deleted?
    ensures EntryAt(s, n, k).Some? ==> Last(h, k).value.Written? && EntryAt(s, n, k).value == Last(h, k).value.value
  {
    var e := CommitOf(c, s, h, k, n);
    LastIn(h, k);
    ChainOrder(h, s, e, Last(h, k).value);
  }

  // ----- Frames -----

  ghost predicate SameKey(s: Cluster, t: Cluster, k: Key) {
    forall n :: MetaAt(s, n, k) == MetaAt(t, n, k) && EntryAt(s, n, k) == EntryAt(t, n, k)
  }

  /** Membership, ring and fencing state kept; used for steps that only touch records. */
  predicate SameShape(s: Cluster, t: Cluster) {
    && s.ring == t.ring && s.order == t.order && s.nodes == t.nodes
    && s.stores.Keys == t.stores.Keys && s.metadata.Keys == t.metadata.Keys
    && s.term == t.term && s.leader == t.leader
  }

  predicate NotLower(a: Option<Version>, b: Option<Version>) {
    a.Some? ==> b.Some? && !b.value.Less(a.value)
  }

  lemma RecordedGrows(h: History, g: History, k: Key, m: Meta, e: Option<Value>)
    requires Recorded(h, k, m, e) && forall x | x in h :: x in g
    ensures Recorded(g, k, m, e)
  {
  }

  /** A step that leaves the cells of `k` alone keeps everything about `k`. */
  lemma FrameKey(c: Config, s: Cluster, t: Cluster, h: History, g: History, k: Key)
    requires s.ring == t.ring
    requires SameKey(s, t, k) && NotLower(s.watermark, t.watermark)
    requires forall x | x in h :: x in g
    requires Last(g, k) == Last(h, k)
    requires KeyOk(c, s, h, k)
    ensures KeyOk(c, t, g, k)
    ensures QuorumOk(c, s, h, k) ==> QuorumOk(c, t, g, k)
  {
    forall n ensures CellOk(c, t, g, k, n) {
      assert CellOk(c, s, h, k, n);
      if MetaAt(s, n, k).Some? {
        RecordedGrows(h, g, k, MetaAt(s, n, k).value, EntryAt(s, n, k));
      }
    }
    var last := Last(h, k);
    if last.Some? {
      if n :| Holds(s, n, k, last.value.version) {
        assert Holds(t, n, k, last.value.version);
      }
      FrameHolders(c, s, t, k, last.value.version);
    }
    assert Vacant(s, k) <==> Vacant(t, k);
  }

  lemma FrameHolders(c: Config, s: Cluster, t: Cluster, k: Key, v: Version)
    requires s.ring == t.ring && SameKey(s, t, k)
    ensures |Select(Owners(c, s, k), Holders(s, k, v))| == |Select(Owners(c, t, k), Holders(t, k, v))|
  {
    forall n ensures n in Holders(s, k, v) <==> n in Holders(t, k, v) {
      assert MetaAt(s, n, k) == MetaAt(t, n, k);
    }
    assert Holders(s, k, v) == Holders(t, k, v);
  }
}
