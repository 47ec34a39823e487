/** The records a bootstrap accepts and installs, one by one. */
module ClusterTransfers {
  import opened HashRing
  import opened ClusterModel

  // ----- Bootstrap as lists -----

  function AcceptedOf(s: Cluster, n: NodeId, rs: seq<Record>): seq<Record> {
    if rs == [] then []
    else AcceptedOf(s, n, rs[..|rs| - 1]) + (if Accepts(s, n, rs[|rs| - 1]) then [rs[|rs| - 1]] else [])
  }

  function DeletedKeys(rs: seq<Record>): seq<Key> {
    if rs == [] then []
    else DeletedKeys(rs[..|rs| - 1]) + (if rs[|rs| - 1].deleted then [rs[|rs| - 1].key] else [])
  }

  function InstallList(s: Cluster, n: NodeId, rs: seq<Record>): Cluster {
    if rs == [] then s else InstallRecord(InstallList(s, n, rs[..|rs| - 1]), n, rs[|rs| - 1])
  }

  lemma {:induction false} InstallAccepted(base: Cluster, s: Cluster, n: NodeId, rs: seq<Record>)
    ensures InstallAll(base, s, n, rs) == InstallList(s, n, AcceptedOf(base, n, rs))
  {
    if rs != [] {
      var init, r := rs[..|rs| - 1], rs[|rs| - 1];
      InstallAccepted(base, s, n, init);
      if Accepts(base, n, r) {
        assert AcceptedOf(base, n, rs)[..|AcceptedOf(base, n, init)|] == AcceptedOf(base, n, init);
      } else {
        assert AcceptedOf(base, n, rs) == AcceptedOf(base, n, init);
      }
    }
  }

  lemma {:induction false} GravesOfAccepted(s: Cluster, n: NodeId, rs: seq<Record>)
    ensures Gravestones(s, n, rs) == DeletedKeys(AcceptedOf(s, n, rs))
  {
    if rs != [] {
      var init, r := rs[..|rs| - 1], rs[|rs| - 1];
      GravesOfAccepted(s, n, init);
      if Accepts(s, n, r) {
        assert AcceptedOf(s, n, rs)[..|AcceptedOf(s, n, init)|] == AcceptedOf(s, n, init);
      } else {
        assert AcceptedOf(s, n, rs) == AcceptedOf(s, n, init);
      }
    }
  }

  lemma {:induction false} AcceptedNone(s: Cluster, n: NodeId, rs: seq<Record>)
    ensures AcceptedOf(s, n, rs) == [] <==> forall r | r in rs :: !Accepts(s, n, r)
    ensures AcceptedOf(s, n, rs) == [] ==> Gravestones(s, n, rs) == []
  {
    if rs != [] {
      AcceptedNone(s, n, rs[..|rs| - 1]);
      assert rs == rs[..|rs| - 1] + [rs[|rs| - 1]];
    }
  }

  lemma InstallOne(s: Cluster, n: NodeId, r: Record)
    requires n in s.stores && n in s.metadata
    ensures InstallRecord(s, n, r).stores == s.stores[n := PutCell(s.stores[n], r.key, if Deletes(r) then None else r.entry)]
    ensures InstallRecord(s, n, r).metadata == s.metadata[n := s.metadata[n][r.key := Meta(r.version, Deletes(r))]]
  {
  }

  lemma Overwrite<T>(m: map<NodeId, T>, n: NodeId, a: T, b: T)
    ensures m[n := a][n := b] == m[n := b]
    ensures n in m && m[n] == b ==> m[n := b] == m
  {
  }

  /** Installing records touches one node, and undoing that node undoes everything. */
  lemma {:induction false} InstallListAt(s: Cluster, n: NodeId, rs: seq<Record>)
    requires n in s.stores && n in s.metadata
    ensures var t := InstallList(s, n, rs);
      && t == s.(stores := t.stores, metadata := t.metadata)
      && n in t.stores && n in t.metadata
      && t.stores[n := s.stores[n]] == s.stores && t.metadata[n := s.metadata[n]] == s.metadata
  {
    if rs != [] {
      var init, r := rs[..|rs| - 1], rs[|rs| - 1];
      InstallListAt(s, n, init);
      var u := InstallList(s, n, init);
      InstallOne(u, n, r);
      Overwrite(u.stores, n, PutCell(u.stores[n], r.key, if Deletes(r) then None else r.entry), s.stores[n]);
      Overwrite(u.metadata, n, u.metadata[n][r.key := Meta(r.version, Deletes(r))], s.metadata[n]);
    } else {
      Overwrite(s.stores, n, s.stores[n], s.stores[n]);
      Overwrite(s.metadata, n, s.metadata[n], s.metadata[n]);
    }
  }
}
