/** What snapshots hold, and which of their records a bootstrap may install. */
module ClusterSnapshots {
  import opened HashRing
  import opened ClusterModel
  import opened ClusterInvariant
  import opened ClusterSteps

  /** A snapshot record is an acknowledged change, or a copy that the watermark already bars. */
  ghost predicate RecordOk(h: History, mark: bool, r: Record) {
    || (r.version.term == 0 && mark)
    || (r.entry.Some? && !r.deleted && Written(r.version, r.key, r.entry.value) in h)
    || (r.entry.None? && r.deleted && exists e :: e in h && !e.Flushed? && e.key == r.key && e.version == r.version)
  }

  ghost predicate SnapOk(h: History, mark: bool, snap: Snapshot) {
    forall r | r in snap.records :: RecordOk(h, mark, r)
  }

  lemma RecordOfOk(c: Config, s: Cluster, h: History, n: NodeId, k: Key)
    requires Inv(c, s, h)
    ensures var r := RecordOf(s, n, k); r.Some? ==> RecordOk(h, s.watermark.Some?, r.value)
  {
    assert KeyOk(c, s, h, k);
    assert CellOk(c, s, h, k, n);
    if MetaAt(s, n, k).Some? {
      var e := CommitOf(c, s, h, k, n);
    }
  }

  lemma {:induction false} RecordsOfOk(c: Config, s: Cluster, h: History, n: NodeId, keys: seq<Key>)
    requires Inv(c, s, h)
    ensures forall r | r in RecordsOf(s, n, keys) :: RecordOk(h, s.watermark.Some?, r)
  {
    if keys != [] {
      RecordsOfOk(c, s, h, n, keys[..|keys| - 1]);
      RecordOfOk(c, s, h, n, keys[|keys| - 1]);
    }
  }

  /**
   Whatever snapshot a record comes from, however old, a node accepts it only when
   it is the newest acknowledged change of its key.
   */
  lemma AcceptedIsNewest(c: Config, s: Cluster, h: History, n: NodeId, r: Record)
    requires Inv(c, s, h) && RecordOk(h, s.watermark.Some?, r) && Accepts(s, n, r)
    ensures !Vacant(s, r.key)
    ensures var last := Last(h, r.key);
      && last.Some? && last.value.version == r.version && !last.value.Flushed?
      && (Deletes(r) <==> last.value.Deleted?)
      && (last.value.Written? ==> r.entry == Some(last.value.value))
    ensures Recorded(h, r.key, Meta(r.version, Deletes(r)), if Deletes(r) then None else r.entry)
  {
    var k := r.key;
    assert KeyOk(c, s, h, k);
    LatestIsLast(c, s, h, k);
    LatestIsMax(c, s, k);
    LastIn(h, k);
    if r.version.term == 0 {
      if Latest(s, k).Some? { ChainOrder(h, s, Last(h, k).value, Last(h, k).value); }
      assert false;
    } else {
      var e :| e in h && !e.Flushed? && e.key == k && e.version == r.version
        && (r.entry.Some? ==> e.Written? && e.value == r.entry.value);
      LastIsNewest(h, s, k, e);
      ChainOrder(h, s, e, Last(h, k).value);
    }
  }

  lemma LatestSame(c: Config, s: Cluster, t: Cluster, ns: seq<NodeId>, k: Key)
    requires SameKey(s, t, k)
    ensures LatestIn(s.metadata, ns, k) == LatestIn(t.metadata, ns, k)
  {
    if ns != [] {
      LatestSame(c, s, t, ns[..|ns| - 1], k);
      var n := ns[|ns| - 1];
      assert MetaAt(s, n, k) == MetaAt(t, n, k);
    }
  }

  lemma AcceptsSame(c: Config, s: Cluster, t: Cluster, n: NodeId, r: Record)
    requires SameKey(s, t, r.key) && s.order == t.order && s.watermark == t.watermark
    ensures Accepts(s, n, r) == Accepts(t, n, r)
  {
    LatestSame(c, s, t, s.order, r.key);
    assert MetaAt(s, n, r.key) == MetaAt(t, n, r.key) && EntryAt(s, n, r.key) == EntryAt(t, n, r.key);
  }

  lemma InstallRecordKeeps(c: Config, s: Cluster, h: History, n: NodeId, r: Record)
    requires Inv(c, s, h) && RecordOk(h, s.watermark.Some?, r) && Accepts(s, n, r)
    ensures var t := InstallRecord(s, n, r);
      && Inv(c, t, h) && (QuorumInv(c, s, h) ==> QuorumInv(c, t, h))
      && (forall k | k != r.key :: SameKey(s, t, k))
      && SameShape(s, t) && t.watermark == s.watermark && t.sequence == s.sequence && t.catalog == s.catalog
  {
    AcceptedIsNewest(c, s, h, n, r);
    var e, m := if Deletes(r) then None else r.entry, Meta(r.version, Deletes(r));
    InstallKnown(c, s, h, {n}, r.key, e, m);
    forall k | k != r.key ensures SameKey(s, InstallRecord(s, n, r), k) {
      InstallFrame(s, {n}, r.key, e, m, k);
    }
  }

  lemma {:induction false} InstallAllKeeps(c: Config, s: Cluster, h: History, n: NodeId, rs: seq<Record>)
    requires Inv(c, s, h) && DistinctKeys(rs)
    requires forall r | r in rs :: RecordOk(h, s.watermark.Some?, r)
    ensures var t := InstallAll(s, s, n, rs);
      && Inv(c, t, h) && (QuorumInv(c, s, h) ==> QuorumInv(c, t, h))
      && (forall k | (forall r | r in rs :: r.key != k) :: SameKey(s, t, k))
      && SameShape(s, t) && t.watermark == s.watermark && t.sequence == s.sequence && t.catalog == s.catalog
  {
    if rs != [] {
      var init, r := rs[..|rs| - 1], rs[|rs| - 1];
      assert rs == init + [r];
      InstallAllKeeps(c, s, h, n, init);
      var s1, t := InstallAll(s, s, n, init), InstallAll(s, s, n, rs);
      forall x | x in init ensures x.key != r.key {
        var i :| 0 <= i < |init| && init[i] == x;
        assert rs[i].key != rs[|rs| - 1].key;
      }
      AcceptsSame(c, s, s1, n, r);
      if Accepts(s, n, r) {
        InstallRecordKeeps(c, s1, h, n, r);
      }
      forall k | forall x | x in rs :: x.key != k ensures SameKey(s, t, k) {
        assert r in rs;
        assert SameKey(s, s1, k) && SameKey(s1, t, k);
      }
    }
  }

  lemma BootstrapKeeps(c: Config, s: Cluster, h: History, n: NodeId, snap: Snapshot, fails: bool, now: int)
    requires Inv(c, s, h) && SnapOk(h, s.watermark.Some?, snap)
    ensures var t := Bootstrap(c, s, n, snap, fails, now).0;
      && Inv(c, t, h) && (QuorumInv(c, s, h) ==> QuorumInv(c, t, h))
      && NotLower(s.watermark, t.watermark) && SameShape(s, t) && t.sequence == s.sequence
  {
    if Bootstrap(c, s, n, snap, fails, now).1.Ok? {
      InstallAllKeeps(c, s, h, n, snap.records);
      CollectAllKeeps(c, InstallAll(s, s, n, snap.records), h, Gravestones(s, n, snap.records), Up(c, s, now));
    }
  }
}
