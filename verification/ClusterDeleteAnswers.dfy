/**
 When a delete transaction succeeds, what it returns and what it leaves, told from the state
 before it: counts of owners, cells and the acknowledged changes.
 */
module ClusterDeleteAnswers {
  import opened HashRing
  import opened ClusterModel
  import opened ClusterInvariant
  import opened ClusterSteps
  import opened ClusterDeletes
  import opened ClusterMoves
  import opened ClusterAnswers
  import opened ClusterUpkeep

  // ----- The reads that come first -----

  predicate ShowsEntry(s: Cluster, n: NodeId, k: Key) {
    EntryAt(s, n, k).Some? && !(MetaAt(s, n, k).Some? && MetaAt(s, n, k).value.deleted)
  }

  /** A read would find the key: at profile ONE on the first owner that answers, else on some that has the last write. */
  ghost predicate Found(c: Config, s: Cluster, h: History, k: Key, p: Profile, up: set<NodeId>, mute: set<NodeId>) {
    var asked := Select(Owners(c, s, k), up - mute);
    if p.One? then asked != [] && ShowsEntry(s, asked[0], k)
    else exists n :: n in asked && Answers(c, s, h, k, n)
  }

  predicate Readable(c: Config, s: Cluster, k: Key, p: Profile, up: set<NodeId>, mute: set<NodeId>) {
    Enough(p, |Select(Owners(c, s, k), up - mute)|, |Owners(c, s, k)|)
  }

  ghost predicate Sound(c: Config, s: Cluster, h: History, p: Profile) {
    Inv(c, s, h) && (!p.One? ==> QuorumInv(c, s, h))
  }

  lemma ReadTells(c: Config, s: Cluster, h: History, k: Key, p: Profile, up: set<NodeId>, mute: set<NodeId>, broken: set<NodeId>)
    requires Sound(c, s, h, p)
    ensures var r := Read(c, s, k, p, up, mute, broken).1;
      && (r.Ok? <==> Readable(c, s, k, p, up, mute))
      && (r.Ok? ==> (r.value.Hit? <==> Found(c, s, h, k, p, up, mute)))
  {
    ReadSucceedsIff(c, s, k, p, up, mute, broken);
    if Read(c, s, k, p, up, mute, broken).1.Ok? {
      if p.One? {
        ReadAtOne(c, s, k, up, mute, broken);
      } else {
        ReadAnswersExactly(c, s, h, k, p, up, mute, broken);
      }
    }
  }

  /** A read touches only the owners that answer, unless it collects its key. */
  lemma ReadElsewhere(c: Config, s: Cluster, h: History, k: Key, p: Profile, up: set<NodeId>, mute: set<NodeId>, broken: set<NodeId>, n: NodeId)
    requires Inv(c, s, h) && !(n in Owners(c, s, k) && n in up - mute)
    ensures var t := Read(c, s, k, p, up, mute, broken).0;
      EntryAt(t, n, k) == EntryAt(s, n, k) && (MetaAt(t, n, k) == MetaAt(s, n, k) || MetaAt(t, n, k).None?)
  {
    if Read(c, s, k, p, up, mute, broken).1.Ok? && !p.One? {
      var asked := Select(Owners(c, s, k), up - mute);
      SelectMember(Owners(c, s, k), up - mute, n);
      ReadRepairs(c, s, k, p, up, mute, broken);
      AskedExist(c, s, k, up, mute);
      RepairLeaves(c, s, h, k, asked, broken);
      var u := Repair(s, k, Winner(s, asked, k), asked, broken);
      assert RepairedAt(s, u, k, asked, broken, Winner(s, asked, k).node, n);
      CollectCell(c, u, k, up, n, k);
    } else {
      ReadQuiet(c, s, k, p, up, mute, broken);
    }
  }

  lemma ReadQuiet(c: Config, s: Cluster, k: Key, p: Profile, up: set<NodeId>, mute: set<NodeId>, broken: set<NodeId>)
    ensures var (t, r) := Read(c, s, k, p, up, mute, broken); r.Err? || p.One? ==> t == s
  {
  }

  lemma ReadCatalog(c: Config, s: Cluster, k: Key, p: Profile, up: set<NodeId>, mute: set<NodeId>, broken: set<NodeId>, j: Key)
    requires j != k
    ensures j in Read(c, s, k, p, up, mute, broken).0.catalog <==> j in s.catalog
  {
  }

  /** State `u` after the reads of `keys` made in `s`. */
  ghost predicate ReadOver(c: Config, s: Cluster, u: Cluster, keys: seq<Key>, up: set<NodeId>, mute: set<NodeId>) {
    && (forall j | j !in keys :: SameKey(s, u, j) && (j in u.catalog <==> j in s.catalog))
    && (forall k, n | k in keys :: ReadCellOver(c, s, u, up, mute, n, k))
  }

  predicate ReadCellOver(c: Config, s: Cluster, u: Cluster, up: set<NodeId>, mute: set<NodeId>, n: NodeId, k: Key) {
    !(n in Owners(c, s, k) && n in up - mute) ==>
      EntryAt(u, n, k) == EntryAt(s, n, k) && (MetaAt(u, n, k) == MetaAt(s, n, k) || MetaAt(u, n, k).None?)
  }

  ghost function FoundKeys(c: Config, s: Cluster, h: History, keys: seq<Key>, p: Profile, up: set<NodeId>, mute: set<NodeId>): set<Key> {
    set k | k in keys && Found(c, s, h, k, p, up, mute)
  }

  lemma FoundSame(c: Config, s: Cluster, u: Cluster, h: History, k: Key, p: Profile, up: set<NodeId>, mute: set<NodeId>)
    requires SameKey(s, u, k) && s.ring == u.ring
    ensures Found(c, s, h, k, p, up, mute) <==> Found(c, u, h, k, p, up, mute)
  {
    assert forall n :: MetaAt(s, n, k) == MetaAt(u, n, k) && EntryAt(s, n, k) == EntryAt(u, n, k);
    forall n ensures Answers(c, s, h, k, n) <==> Answers(c, u, h, k, n) {
    }
  }

  lemma FoundNext(c: Config, s: Cluster, h: History, keys: seq<Key>, p: Profile, up: set<NodeId>, mute: set<NodeId>)
    requires keys != [] && DistinctSeq(keys)
    ensures var x := keys[|keys| - 1];
      |FoundKeys(c, s, h, keys, p, up, mute)|
      == |FoundKeys(c, s, h, keys[..|keys| - 1], p, up, mute)| + if Found(c, s, h, x, p, up, mute) then 1 else 0
  {
    var init, x := keys[..|keys| - 1], keys[|keys| - 1];
    assert keys == init + [x];
    var before, after := FoundKeys(c, s, h, init, p, up, mute), FoundKeys(c, s, h, keys, p, up, mute);
    forall k ensures k in after <==> k in before || (k == x && Found(c, s, h, x, p, up, mute)) {
    }
    OneMore(before, after, x, Found(c, s, h, x, p, up, mute));
  }

  lemma OneMore(before: set<Key>, after: set<Key>, x: Key, more: bool)
    requires x !in before && forall k :: k in after <==> k in before || (k == x && more)
    ensures |after| == |before| + if more then 1 else 0
  {
    assert after == if more then before + {x} else before;
  }

  /** Reading all keys: it succeeds if each can be read, and counts those found. */
  lemma {:induction false} ReadAllTells(c: Config, s: Cluster, h: History, keys: seq<Key>, p: Profile,
                                        up: set<NodeId>, mute: set<NodeId>, broken: set<NodeId>)
    requires Sound(c, s, h, p) && DistinctSeq(keys)
    ensures var (u, r) := ReadAll(c, s, keys, p, up, mute, broken);
      && (r.Ok? <==> AllReadable(c, s, keys, p, up, mute))
      && (r.Ok? ==> r.value == |FoundKeys(c, s, h, keys, p, up, mute)|)
      && ReadOver(c, s, u, keys, up, mute)
  {
    if keys == [] {
      assert FoundKeys(c, s, h, keys, p, up, mute) == {};
    } else {
      var init, x := keys[..|keys| - 1], keys[|keys| - 1];
      assert keys == init + [x];
      ReadAllTells(c, s, h, init, p, up, mute, broken);
      ReadAllKeeps(c, s, h, init, p, up, mute, broken);
      var (u, r) := ReadAll(c, s, init, p, up, mute, broken);
      FoundNext(c, s, h, keys, p, up, mute);
      if r.Ok? {
        ReadNext(c, s, u, h, init, x, p, up, mute, broken);
      } else {
        assert forall k | k in init :: k in keys;
        ReadOverMore(c, s, u, init, x, up, mute);
      }
      ReadAllStep(c, s, keys, p, up, mute, broken);
    }
  }

  lemma ReadAllStep(c: Config, s: Cluster, keys: seq<Key>, p: Profile, up: set<NodeId>, mute: set<NodeId>, broken: set<NodeId>)
    requires keys != []
    ensures var (u, r) := ReadAll(c, s, keys[..|keys| - 1], p, up, mute, broken);
      var (t, q) := Read(c, u, keys[|keys| - 1], p, up, mute, broken);
      ReadAll(c, s, keys, p, up, mute, broken) ==
        if r.Err? then (u, r) else if q.Err? then (t, Err(q.error)) else (t, Ok(r.value + if q.value.Hit? then 1 else 0))
  {
  }

  lemma ReadOverMore(c: Config, s: Cluster, u: Cluster, init: seq<Key>, x: Key, up: set<NodeId>, mute: set<NodeId>)
    requires ReadOver(c, s, u, init, up, mute)
    ensures ReadOver(c, s, u, init + [x], up, mute)
  {
    if x !in init { assert SameKey(s, u, x); }
    forall k, n | k in init + [x] ensures ReadCellOver(c, s, u, up, mute, n, k) {
      if k !in init { assert MetaAt(s, n, x) == MetaAt(u, n, x); }
    }
  }

  lemma ReadNext(c: Config, s: Cluster, u: Cluster, h: History, init: seq<Key>, x: Key, p: Profile, up: set<NodeId>, mute: set<NodeId>, broken: set<NodeId>)
    requires Sound(c, u, h, p) && SameShape(s, u) && x !in init && ReadOver(c, s, u, init, up, mute)
    ensures var (t, r) := Read(c, u, x, p, up, mute, broken);
      && (r.Ok? <==> Readable(c, s, x, p, up, mute))
      && (r.Ok? ==> (r.value.Hit? <==> Found(c, s, h, x, p, up, mute)))
      && ReadOver(c, s, t, init + [x], up, mute)
  {
    var t := Read(c, u, x, p, up, mute, broken).0;
    assert SameKey(s, u, x);
    ReadTells(c, u, h, x, p, up, mute, broken);
    FoundSame(c, s, u, h, x, p, up, mute);
    ReadKeeps(c, u, h, x, p, up, mute, broken);
    forall j | j !in init + [x] ensures SameKey(s, t, j) && (j in t.catalog <==> j in s.catalog) {
      assert SameKey(s, u, j) && SameKey(u, t, j);
      ReadCatalog(c, u, x, p, up, mute, broken, j);
    }
    forall k, n | k in init + [x] ensures ReadCellOver(c, s, t, up, mute, n, k) {
      ReadNextCell(c, s, u, h, init, x, p, up, mute, broken, n, k);
    }
  }

  lemma ReadNextCell(c: Config, s: Cluster, u: Cluster, h: History, init: seq<Key>, x: Key, p: Profile,
                     up: set<NodeId>, mute: set<NodeId>, broken: set<NodeId>, n: NodeId, k: Key)
    requires Inv(c, u, h) && SameShape(s, u) && x !in init && ReadOver(c, s, u, init, up, mute) && k in init + [x]
    ensures ReadCellOver(c, s, Read(c, u, x, p, up, mute, broken).0, up, mute, n, k)
  {
    var t := Read(c, u, x, p, up, mute, broken).0;
    if k == x {
      assert SameKey(s, u, x);
      assert MetaAt(s, n, x) == MetaAt(u, n, x) && EntryAt(s, n, x) == EntryAt(u, n, x);
      if !(n in Owners(c, s, x) && n in up - mute) { ReadElsewhere(c, u, h, x, p, up, mute, broken, n); }
    } else {
      ReadKeeps(c, u, h, x, p, up, mute, broken);
      assert SameKey(u, t, k) && ReadCellOver(c, s, u, up, mute, n, k);
      assert MetaAt(u, n, k) == MetaAt(t, n, k) && EntryAt(u, n, k) == EntryAt(t, n, k);
    }
  }

  // ----- Tombstones -----

  /** The last acknowledged change of `k` is a delete that some node still remembers. */
  ghost predicate Grave(s: Cluster, h: History, k: Key) {
    !Vacant(s, k) && Last(h, k).Some? && Last(h, k).value.Deleted?
  }

  ghost function Graves(s: Cluster, h: History): set<Key> {
    set k | k in s.catalog && Grave(s, h, k)
  }

  lemma GraveIs(c: Config, s: Cluster, h: History, k: Key)
    requires Inv(c, s, h)
    ensures Grave(s, h, k) <==> Latest(s, k).Some? && Latest(s, k).value.deleted
  {
    assert KeyOk(c, s, h, k);
    LatestIsLast(c, s, h, k);
    LatestIsMax(c, s, k);
  }

  lemma TombstonesAre(c: Config, s: Cluster, h: History)
    requires Inv(c, s, h)
    ensures Tombstones(s) == Graves(s, h)
  {
    forall k ensures k in Tombstones(s) <==> k in Graves(s, h) {
      GraveIs(c, s, h, k);
    }
  }

  /** Keys that get a tombstone which an owner that is not up will miss. */
  ghost function Missed(c: Config, s: Cluster, h: History, keys: seq<Key>, up: set<NodeId>): set<Key> {
    set k | k in keys && !Grave(s, h, k) && exists n :: n in Owners(c, s, k) && n !in up
  }

  lemma {:induction false} SelectAllIff(ns: seq<NodeId>, keep: set<NodeId>)
    ensures |Select(ns, keep)| < |ns| <==> exists n :: n in ns && n !in keep
  {
    if n :| n in ns && n !in keep {
      SelectMisses(ns, keep, n);
    } else {
      SelectEvery(ns, keep);
    }
  }

  lemma {:induction false} SelectMisses(ns: seq<NodeId>, keep: set<NodeId>, n: NodeId)
    requires n in ns && n !in keep
    ensures |Select(ns, keep)| < |ns|
  {
    var init, x := ns[..|ns| - 1], ns[|ns| - 1];
    assert ns == init + [x];
    SelectMono(init, keep, keep);
    if n != x { SelectMisses(init, keep, n); }
  }

  lemma RiskyAre(c: Config, s: Cluster, h: History, keys: seq<Key>, up: set<NodeId>)
    requires Inv(c, s, h)
    ensures Risky(c, s, keys, up) == Missed(c, s, h, keys, up)
  {
    forall k ensures k in Risky(c, s, keys, up) <==> k in Missed(c, s, h, keys, up) {
      GraveIs(c, s, h, k);
      SelectAllIff(Owners(c, s, k), up);
    }
  }

  // ----- What stays buried -----

  predicate AllTake(c: Config, s: Cluster, k: Key, up: set<NodeId>, faults: Faults) {
    forall n | n in Owners(c, s, k) :: n in Takers(up, faults)
  }

  predicate Takes(c: Config, s: Cluster, k: Key, up: set<NodeId>, faults: Faults, n: NodeId) {
    n in Owners(c, s, k) && n in Takers(up, faults)
  }

  /** The tombstones there would be afterwards: those of other keys, and the new ones that some owner has not taken. */
  ghost function Staying(c: Config, s: Cluster, h: History, keys: seq<Key>, up: set<NodeId>, faults: Faults): set<Key> {
    (set j | j in s.catalog && j !in keys && Grave(s, h, j)) + (set k | k in keys && !AllTake(c, s, k, up, faults))
  }

  /** The transaction deletes `k` on node `n`. */
  predicate Deletes(c: Config, s0: Cluster, keys: seq<Key>, up: set<NodeId>, faults: Faults, n: NodeId, k: Key) {
    n in Participants(c, s0, keys, up) && FaultOf(faults, n).Fine? && k in KeysAt(c, s0, keys, up, n)
  }

  lemma TakesIs(c: Config, s0: Cluster, keys: seq<Key>, up: set<NodeId>, faults: Faults, n: NodeId, k: Key)
    requires k in keys
    ensures Deletes(c, s0, keys, up, faults, n, k) <==> Takes(c, s0, k, up, faults, n)
  {
    SelectMember(Owners(c, s0, k), up, n);
    if Takes(c, s0, k, up, faults, n) {
      assert n in Available(c, s0, k, up);
    }
  }

  /** The states of one transaction: before it, after the reads, and with its tombstones. */
  ghost predicate Burying(c: Config, s0: Cluster, s1: Cluster, h: History, keys: seq<Key>, p: Profile, up: set<NodeId>, faults: Faults,
                          mute: set<NodeId>, b: Cluster) {
    && Inv(c, s0, h) && Inv(c, s1, h) && SameShape(s0, s1) && s1.sequence == s0.sequence && NotLower(s0.watermark, s1.watermark)
    && up <= s0.nodes.Keys && DistinctSeq(keys) && ReadOver(c, s0, s1, keys, up, mute)
    && AllBuried(c, s0, keys, p, up, faults)
    && b == Bury(c, s0, s1, keys, up, faults)
    && Inv(c, b, h + Tombs(keys, s1.term, s1.sequence, s1.leader))
  }

  function NewStamp(s: Cluster, keys: seq<Key>, k: Key): Version {
    Version(s.term, s.sequence + Rank(keys, k), s.leader)
  }

  lemma TakerDeletes(c: Config, s0: Cluster, s1: Cluster, h: History, keys: seq<Key>, p: Profile, up: set<NodeId>, faults: Faults,
                     mute: set<NodeId>, b: Cluster, n: NodeId, k: Key)
    requires Burying(c, s0, s1, h, keys, p, up, faults, mute, b) && k in keys && Takes(c, s0, k, up, faults, n)
    ensures s1.stores.Keys == s1.metadata.Keys == s0.stores.Keys == s0.metadata.Keys && n in s1.stores
    ensures Deletes(c, s0, keys, up, faults, n, k) && Stamp(s1, Rank(keys, k)) == NewStamp(s0, keys, k)
  {
    assert n in up && n in s1.stores.Keys;
    TakesIs(c, s0, keys, up, faults, n, k);
  }

  lemma FineCell(c: Config, s0: Cluster, s1: Cluster, keys: seq<Key>, up: set<NodeId>, faults: Faults, n: NodeId, k: Key, v: Version)
    requires s1.stores.Keys == s1.metadata.Keys == s0.stores.Keys == s0.metadata.Keys && n in s1.stores
    requires Deletes(c, s0, keys, up, faults, n, k) && v == Stamp(s1, Rank(keys, k))
    ensures var b := Bury(c, s0, s1, keys, up, faults);
      MetaAt(b, n, k) == Some(Meta(v, true)) && EntryAt(b, n, k).None?
  {
    BuryCell(c, s0, s1, keys, up, faults, n, k);
  }

  lemma OtherCell(c: Config, s0: Cluster, s1: Cluster, h: History, keys: seq<Key>, p: Profile, up: set<NodeId>, faults: Faults,
                  mute: set<NodeId>, b: Cluster, n: NodeId, k: Key)
    requires Burying(c, s0, s1, h, keys, p, up, faults, mute, b) && k in keys && !Takes(c, s0, k, up, faults, n)
    ensures EntryAt(b, n, k) == EntryAt(s0, n, k) && (MetaAt(b, n, k) == MetaAt(s0, n, k) || MetaAt(b, n, k).None?)
  {
    TakesIs(c, s0, keys, up, faults, n, k);
    SelectMember(Owners(c, s0, k), up, n);
    assert ReadCellOver(c, s0, s1, up, mute, n, k);
    if n in s1.stores.Keys {
      BuryCell(c, s0, s1, keys, up, faults, n, k);
    } else {
      assert n !in b.stores.Keys && n !in b.metadata.Keys;
    }
  }

  /** The cells of a deleted key once the tombstones are in place. */
  lemma BuriedCell(c: Config, s0: Cluster, s1: Cluster, h: History, keys: seq<Key>, p: Profile, up: set<NodeId>, faults: Faults,
                   mute: set<NodeId>, b: Cluster, n: NodeId, k: Key)
    requires Burying(c, s0, s1, h, keys, p, up, faults, mute, b) && k in keys
    ensures if Takes(c, s0, k, up, faults, n)
            then MetaAt(b, n, k) == Some(Meta(NewStamp(s0, keys, k), true)) && EntryAt(b, n, k).None?
            else EntryAt(b, n, k) == EntryAt(s0, n, k) && (MetaAt(b, n, k) == MetaAt(s0, n, k) || MetaAt(b, n, k).None?)
  {
    if Takes(c, s0, k, up, faults, n) {
      TakerDeletes(c, s0, s1, h, keys, p, up, faults, mute, b, n, k);
      FineCell(c, s0, s1, keys, up, faults, n, k, NewStamp(s0, keys, k));
    } else {
      OtherCell(c, s0, s1, h, keys, p, up, faults, mute, b, n, k);
    }
  }

  lemma SomeTakes(c: Config, s0: Cluster, k: Key, p: Profile, up: set<NodeId>, faults: Faults) returns (n: NodeId)
    requires WellFormed(c, s0) && Buried(c, s0, k, p, up, faults)
    ensures Takes(c, s0, k, up, faults, n)
  {
    var owners := Owners(c, s0, k);
    OwnersAreDistinctMembers(s0.ring, c.token(k), c.replicas);
    FineIsTaker(owners, up, faults);
    var takers := Select(owners, Takers(up, faults));
    assert |takers| > 0;
    n := takers[0];
    assert n in takers;
    SelectMember(owners, Takers(up, faults), n);
  }

  lemma StampIsLast(s0: Cluster, h: History, keys: seq<Key>, k: Key)
    requires DistinctSeq(keys) && k in keys
    ensures Last(h + Tombs(keys, s0.term, s0.sequence, s0.leader), k) == Some(Deleted(NewStamp(s0, keys, k), k))
  {
    LastTombs(h, keys, s0.term, s0.sequence, s0.leader, k);
  }

  /** With all owners' tombstones in place the key is done, ... */
  lemma AllTakeIsDone(c: Config, s0: Cluster, s1: Cluster, h: History, keys: seq<Key>, p: Profile, up: set<NodeId>, faults: Faults,
                      mute: set<NodeId>, b: Cluster, k: Key)
    requires Burying(c, s0, s1, h, keys, p, up, faults, mute, b) && k in keys && AllTake(c, s0, k, up, faults)
    ensures Done(c, b, k, up)
  {
    var g, v := h + Tombs(keys, s1.term, s1.sequence, s1.leader), NewStamp(s0, keys, k);
    StampIsLast(s0, h, keys, k);
    assert KeyOk(c, b, g, k);
    LastIn(g, k);
    forall n | n in Owners(c, b, k) ensures n in up && MetaAt(b, n, k) == Some(Meta(v, true)) && EntryAt(b, n, k).None? {
      BuriedCell(c, s0, s1, h, keys, p, up, faults, mute, b, n, k);
    }
    forall n | MetaAt(b, n, k).Some? ensures !v.Less(MetaAt(b, n, k).value.version) {
      var e := CommitOf(c, b, g, k, n);
      ChainOrder(g, b, e, Last(g, k).value);
    }
    assert Graved(c, b, k, up, v);
  }

  /** ... and not before. */
  lemma DoneIsAllTake(c: Config, s0: Cluster, s1: Cluster, h: History, keys: seq<Key>, p: Profile, up: set<NodeId>, faults: Faults,
                      mute: set<NodeId>, b: Cluster, k: Key)
    requires Burying(c, s0, s1, h, keys, p, up, faults, mute, b) && k in keys && Done(c, b, k, up)
    ensures AllTake(c, s0, k, up, faults)
  {
    var v :| Graved(c, b, k, up, v);
    var m := SomeTakes(c, s0, k, p, up, faults);
    BuriedCell(c, s0, s1, h, keys, p, up, faults, mute, b, m, k);
    forall n | n in Owners(c, s0, k) ensures n in Takers(up, faults) {
      BuriedCell(c, s0, s1, h, keys, p, up, faults, mute, b, n, k);
      assert n in Owners(c, b, k);
      if n !in Takers(up, faults) {
        OlderStamp(c, s0, h, k, n, NewStamp(s0, keys, k), keys);
      }
    }
  }

  lemma OlderStamp(c: Config, s0: Cluster, h: History, k: Key, n: NodeId, v: Version, keys: seq<Key>)
    requires Inv(c, s0, h) && MetaAt(s0, n, k).Some? && k in keys && v == NewStamp(s0, keys, k)
    ensures MetaAt(s0, n, k).value.version.Less(v)
  {
    assert KeyOk(c, s0, h, k);
    var e := CommitOf(c, s0, h, k, n);
    RankPositive(keys, k);
    ChainOrder(h, s0, e, e);
    var i :| 0 <= i < |h| && h[i] == e;
  }

  lemma {:induction false} RankPositive(keys: seq<Key>, k: Key)
    requires k in keys
    ensures 1 <= Rank(keys, k) <= |keys|
  {
    if keys[|keys| - 1] != k {
      assert keys == keys[..|keys| - 1] + [keys[|keys| - 1]];
      RankPositive(keys[..|keys| - 1], k);
    }
  }

  lemma BuryCatalog(c: Config, s0: Cluster, s1: Cluster, keys: seq<Key>, up: set<NodeId>, faults: Faults, j: Key)
    ensures j in Bury(c, s0, s1, keys, up, faults).catalog <==> j in s1.catalog || j in keys
  {
  }

  /** Key `j` at the end, `t`, of a transaction. */
  ghost predicate Ends(c: Config, s0: Cluster, t: Cluster, keys: seq<Key>, up: set<NodeId>, faults: Faults, j: Key) {
    if j !in keys then SameKey(s0, t, j) && (j in t.catalog <==> j in s0.catalog)
    else
      && (j in t.catalog <==> !AllTake(c, s0, j, up, faults))
      && (forall n :: EndCell(c, s0, t, keys, up, faults, j, n))
  }

  predicate EndCell(c: Config, s0: Cluster, t: Cluster, keys: seq<Key>, up: set<NodeId>, faults: Faults, j: Key, n: NodeId) {
    && EntryAt(t, n, j) == (if Takes(c, s0, j, up, faults, n) then None else EntryAt(s0, n, j))
    && (AllTake(c, s0, j, up, faults) ==> MetaAt(t, n, j).None?)
    && (!AllTake(c, s0, j, up, faults) && Takes(c, s0, j, up, faults, n) ==> MetaAt(t, n, j) == Some(Meta(NewStamp(s0, keys, j), true)))
    && (!Takes(c, s0, j, up, faults, n) ==> MetaAt(t, n, j) == MetaAt(s0, n, j) || MetaAt(t, n, j).None?)
  }

  lemma BurialEnds(c: Config, s0: Cluster, s1: Cluster, h: History, keys: seq<Key>, p: Profile, up: set<NodeId>, faults: Faults,
                   mute: set<NodeId>, b: Cluster, j: Key)
    requires Burying(c, s0, s1, h, keys, p, up, faults, mute, b)
    ensures Ends(c, s0, CollectAll(c, b, keys, up), keys, up, faults, j)
  {
    var t := CollectAll(c, b, keys, up);
    SweepIs(c, b, h + Tombs(keys, s1.term, s1.sequence, s1.leader), keys, up, j);
    BuryCatalog(c, s0, s1, keys, up, faults, j);
    if j !in keys {
      BuryFrame(c, s0, s1, keys, up, faults, j);
      assert SameKey(s0, s1, j) && SameKey(s1, b, j) && SameKey(b, t, j);
    } else {
      DoneIff(c, s0, s1, h, keys, p, up, faults, mute, b, j);
      forall n ensures EndCell(c, s0, t, keys, up, faults, j, n) {
        BuriedCell(c, s0, s1, h, keys, p, up, faults, mute, b, n, j);
        assert AllTake(c, s0, j, up, faults) ==> MetaAt(t, n, j).None?;
      }
    }
  }

  lemma DoneIff(c: Config, s0: Cluster, s1: Cluster, h: History, keys: seq<Key>, p: Profile, up: set<NodeId>, faults: Faults,
                mute: set<NodeId>, b: Cluster, k: Key)
    requires Burying(c, s0, s1, h, keys, p, up, faults, mute, b) && k in keys
    ensures Done(c, b, k, up) <==> AllTake(c, s0, k, up, faults)
  {
    if AllTake(c, s0, k, up, faults) { AllTakeIsDone(c, s0, s1, h, keys, p, up, faults, mute, b, k); }
    if Done(c, b, k, up) { DoneIsAllTake(c, s0, s1, h, keys, p, up, faults, mute, b, k); }
  }

  /** The tombstones afterwards. */
  lemma BurialStays(c: Config, s0: Cluster, s1: Cluster, h: History, keys: seq<Key>, p: Profile, up: set<NodeId>, faults: Faults,
                    mute: set<NodeId>, b: Cluster)
    requires Burying(c, s0, s1, h, keys, p, up, faults, mute, b)
    ensures Tombstones(CollectAll(c, b, keys, up)) == Staying(c, s0, h, keys, up, faults)
  {
    var t, g := CollectAll(c, b, keys, up), h + Tombs(keys, s1.term, s1.sequence, s1.leader);
    CollectAllKeeps(c, b, g, keys, up);
    TombstonesAre(c, t, g);
    forall j ensures j in Graves(t, g) <==> j in Staying(c, s0, h, keys, up, faults) {
      BurialEnds(c, s0, s1, h, keys, p, up, faults, mute, b, j);
      GraveAtEnd(c, s0, s1, h, keys, p, up, faults, mute, b, t, j);
    }
  }

  lemma GraveAtEnd(c: Config, s0: Cluster, s1: Cluster, h: History, keys: seq<Key>, p: Profile, up: set<NodeId>, faults: Faults,
                   mute: set<NodeId>, b: Cluster, t: Cluster, j: Key)
    requires Burying(c, s0, s1, h, keys, p, up, faults, mute, b) && Ends(c, s0, t, keys, up, faults, j)
    ensures var g := h + Tombs(keys, s1.term, s1.sequence, s1.leader);
      Grave(t, g, j) <==> if j in keys then !AllTake(c, s0, j, up, faults) else Grave(s0, h, j)
  {
    LastTombs(h, keys, s1.term, s1.sequence, s1.leader, j);
    if j in keys {
      var n := SomeTakes(c, s0, j, p, up, faults);
      VacantAtEnd(c, s0, t, keys, up, faults, j, n);
    } else {
      VacantSame(s0, t, j);
    }
  }

  lemma VacantAtEnd(c: Config, s0: Cluster, t: Cluster, keys: seq<Key>, up: set<NodeId>, faults: Faults, j: Key, n: NodeId)
    requires Ends(c, s0, t, keys, up, faults, j) && j in keys && Takes(c, s0, j, up, faults, n)
    ensures Vacant(t, j) <==> AllTake(c, s0, j, up, faults)
  {
    assert EndCell(c, s0, t, keys, up, faults, j, n);
    if AllTake(c, s0, j, up, faults) {
      forall m ensures MetaAt(t, m, j).None? {
        assert EndCell(c, s0, t, keys, up, faults, j, m);
      }
    }
  }

  // ----- The transaction -----

  /** What a delete of `keys` needs in `s0`, the state after its first sweep. */
  ghost predicate CanDelete(c: Config, s0: Cluster, h: History, keys: seq<Key>, p: Profile, up: set<NodeId>, faults: Faults, mute: set<NodeId>) {
    && AllReadable(c, s0, keys, p, up, mute) && NoneRefuses(c, s0, keys, up, faults) && AllTaken(c, s0, keys, p, up, faults)
    && |Graves(s0, h)| + |Missed(c, s0, h, keys, up)| <= c.tombstoneLimit
    && |Staying(c, s0, h, keys, up, faults)| <= c.tombstoneLimit
  }

  predicate AllReadable(c: Config, s: Cluster, keys: seq<Key>, p: Profile, up: set<NodeId>, mute: set<NodeId>) {
    forall k | k in keys :: Readable(c, s, k, p, up, mute)
  }

  predicate NoneRefuses(c: Config, s: Cluster, keys: seq<Key>, up: set<NodeId>, faults: Faults) {
    forall k | k in keys :: NoRefusal(Owners(c, s, k), up, faults)
  }

  predicate AllTaken(c: Config, s: Cluster, keys: seq<Key>, p: Profile, up: set<NodeId>, faults: Faults) {
    forall k | k in keys :: Enough(p, |Select(Owners(c, s, k), Takers(up, faults))|, |Owners(c, s, k)|)
  }

  lemma ReadableIsReachable(c: Config, s: Cluster, k: Key, p: Profile, up: set<NodeId>, mute: set<NodeId>)
    requires Readable(c, s, k, p, up, mute)
    ensures Reachable(c, s, k, p, up)
  {
    var owners := Owners(c, s, k);
    SelectMono(owners, up - mute, up);
    EnoughIsRequired(p, |Select(owners, up - mute)|, |owners|);
  }

  lemma BuriedIs(c: Config, s: Cluster, k: Key, p: Profile, up: set<NodeId>, faults: Faults)
    ensures Buried(c, s, k, p, up, faults) <==> Enough(p, |Select(Owners(c, s, k), Takers(up, faults))|, |Owners(c, s, k)|)
  {
    FineIsTaker(Owners(c, s, k), up, faults);
    EnoughIsRequired(p, |Select(Owners(c, s, k), Takers(up, faults))|, |Owners(c, s, k)|);
  }

  lemma AbortsIs(c: Config, s: Cluster, keys: seq<Key>, up: set<NodeId>, faults: Faults)
    ensures Aborts(c, s, keys, up, faults) <==> !NoneRefuses(c, s, keys, up, faults)
  {
    if k :| k in keys && !NoRefusal(Owners(c, s, k), up, faults) {
      var n :| n in Owners(c, s, k) && n in up && n in faults && faults[n] != Fine && faults[n] != Soft;
      SelectMember(Owners(c, s, k), up, n);
      assert n in Available(c, s, k, up);
      assert n in Participants(c, s, keys, up);
    }
    if Aborts(c, s, keys, up, faults) {
      var n :| n in Participants(c, s, keys, up) && (FaultOf(faults, n).Hard? || FaultOf(faults, n).Rejects?);
      var k :| k in keys && n in Available(c, s, k, up);
      SelectMember(Owners(c, s, k), up, n);
      assert !NoRefusal(Owners(c, s, k), up, faults);
    }
  }

  lemma BurialOf(c: Config, s0: Cluster, h: History, keys: seq<Key>, p: Profile, up: set<NodeId>, faults: Faults, mute: set<NodeId>, broken: set<NodeId>)
    requires Sound(c, s0, h, p) && up <= s0.nodes.Keys && DistinctSeq(keys) && AllBuried(c, s0, keys, p, up, faults)
    ensures var s1 := ReadAll(c, s0, keys, p, up, mute, broken).0;
      Burying(c, s0, s1, h, keys, p, up, faults, mute, Bury(c, s0, s1, keys, up, faults))
  {
    var s1 := ReadAll(c, s0, keys, p, up, mute, broken).0;
    ReadAllTells(c, s0, h, keys, p, up, mute, broken);
    ReadAllKeeps(c, s0, h, keys, p, up, mute, broken);
    BuryKeeps(c, s0, s1, h, keys, p, up, faults);
  }

  /** The checks of a transaction, in the words of the code. */
  predicate Passes(c: Config, s0: Cluster, keys: seq<Key>, p: Profile, up: set<NodeId>, faults: Faults, mute: set<NodeId>, broken: set<NodeId>) {
    && AllReachable(c, s0, keys, p, up)
    && |Tombstones(s0)| + |Risky(c, s0, keys, up)| <= c.tombstoneLimit
    && ReadAll(c, s0, keys, p, up, mute, broken).1.Ok?
    && !Aborts(c, s0, keys, up, faults) && AllBuried(c, s0, keys, p, up, faults)
    && |Tombstones(CollectAll(c, Bury(c, s0, ReadAll(c, s0, keys, p, up, mute, broken).0, keys, up, faults), keys, up))| <= c.tombstoneLimit
  }

  /** The error of a transaction that cannot succeed: the first of its checks that fails. */
  ghost function Refusal(c: Config, s0: Cluster, h: History, keys: seq<Key>, p: Profile, up: set<NodeId>, faults: Faults, mute: set<NodeId>): Error {
    if exists k :: k in keys && !Enough(p, |Select(Owners(c, s0, k), up)|, |Owners(c, s0, k)|) then QuorumError
    else if |Graves(s0, h)| + |Missed(c, s0, h, keys, up)| > c.tombstoneLimit then LimitError
    else if !AllReadable(c, s0, keys, p, up, mute) then QuorumError
    else if !NoneRefuses(c, s0, keys, up, faults) then StorageError
    else if !AllTaken(c, s0, keys, p, up, faults) then QuorumError
    else LimitError
  }

  lemma ReachableIs(c: Config, s: Cluster, keys: seq<Key>, p: Profile, up: set<NodeId>)
    ensures AllReachable(c, s, keys, p, up) <==> !exists k :: k in keys && !Enough(p, |Select(Owners(c, s, k), up)|, |Owners(c, s, k)|)
  {
    forall k | k in keys ensures Reachable(c, s, k, p, up) <==> Enough(p, |Select(Owners(c, s, k), up)|, |Owners(c, s, k)|) {
      EnoughIsRequired(p, |Select(Owners(c, s, k), up)|, |Owners(c, s, k)|);
    }
  }

  /** Reading fails only for want of owners that answer. */
  lemma {:induction false} ReadAllRefuses(c: Config, s: Cluster, keys: seq<Key>, p: Profile, up: set<NodeId>, mute: set<NodeId>, broken: set<NodeId>)
    ensures var r := ReadAll(c, s, keys, p, up, mute, broken).1; r.Err? ==> r.error == QuorumError
  {
    if keys != [] {
      ReadAllRefuses(c, s, keys[..|keys| - 1], p, up, mute, broken);
      ReadAllStep(c, s, keys, p, up, mute, broken);
      ReadRefuses(c, ReadAll(c, s, keys[..|keys| - 1], p, up, mute, broken).0, keys[|keys| - 1], p, up, mute, broken);
    }
  }

  /** The first check that fails, in the words of the code. */
  predicate FailsWith(c: Config, s0: Cluster, keys: seq<Key>, p: Profile, up: set<NodeId>, faults: Faults, mute: set<NodeId>, broken: set<NodeId>, e: Error) {
    if !AllReachable(c, s0, keys, p, up) then e == QuorumError
    else if |Tombstones(s0)| + |Risky(c, s0, keys, up)| > c.tombstoneLimit then e == LimitError
    else if ReadAll(c, s0, keys, p, up, mute, broken).1.Err? then e == QuorumError
    else if Aborts(c, s0, keys, up, faults) then e == StorageError
    else if !AllBuried(c, s0, keys, p, up, faults) then e == QuorumError
    else e == LimitError
  }

  lemma DeleteFails(c: Config, s: Cluster, keys: seq<Key>, p: Profile, sweep: seq<Key>, up: set<NodeId>,
                    faults: Faults, mute: set<NodeId>, broken: set<NodeId>)
    requires keys != [] && DeleteKeys(c, s, keys, p, sweep, up, faults, mute, broken).1.Err?
    ensures FailsWith(c, CollectAll(c, s, sweep, up), keys, p, up, faults, mute, broken,
                      DeleteKeys(c, s, keys, p, sweep, up, faults, mute, broken).1.error)
  {
    ReadAllRefuses(c, CollectAll(c, s, sweep, up), keys, p, up, mute, broken);
  }

  lemma RefusalIs(c: Config, s0: Cluster, h: History, keys: seq<Key>, p: Profile, up: set<NodeId>, faults: Faults, mute: set<NodeId>,
                  broken: set<NodeId>, e: Error)
    requires Sound(c, s0, h, p) && DistinctSeq(keys) && FailsWith(c, s0, keys, p, up, faults, mute, broken, e)
    ensures e == Refusal(c, s0, h, keys, p, up, faults, mute)
  {
    ReachableIs(c, s0, keys, p, up);
    TombstonesAre(c, s0, h);
    RiskyAre(c, s0, h, keys, up);
    ReadAllTells(c, s0, h, keys, p, up, mute, broken);
    AbortsIs(c, s0, keys, up, faults);
    QuorumsAre(c, s0, keys, p, up, faults, mute);
  }

  lemma DeleteKeysIs(c: Config, s: Cluster, keys: seq<Key>, p: Profile, sweep: seq<Key>, up: set<NodeId>,
                     faults: Faults, mute: set<NodeId>, broken: set<NodeId>)
    requires keys != []
    ensures var (t, r) := DeleteKeys(c, s, keys, p, sweep, up, faults, mute, broken);
      var s0 := CollectAll(c, s, sweep, up);
      && (r.Ok? <==> Passes(c, s0, keys, p, up, faults, mute, broken))
      && (if r.Ok? then r == ReadAll(c, s0, keys, p, up, mute, broken).1 else t == s0)
  {
  }

  lemma PassesIff(c: Config, s0: Cluster, h: History, keys: seq<Key>, p: Profile, up: set<NodeId>, faults: Faults, mute: set<NodeId>, broken: set<NodeId>)
    requires Sound(c, s0, h, p) && up <= s0.nodes.Keys && DistinctSeq(keys)
    ensures Passes(c, s0, keys, p, up, faults, mute, broken) <==> CanDelete(c, s0, h, keys, p, up, faults, mute)
  {
    ReadAllTells(c, s0, h, keys, p, up, mute, broken);
    TombstonesAre(c, s0, h);
    RiskyAre(c, s0, h, keys, up);
    AbortsIs(c, s0, keys, up, faults);
    QuorumsAre(c, s0, keys, p, up, faults, mute);
    if AllBuried(c, s0, keys, p, up, faults) { TombstonesStay(c, s0, h, keys, p, up, faults, mute, broken); }
  }

  lemma QuorumsAre(c: Config, s0: Cluster, keys: seq<Key>, p: Profile, up: set<NodeId>, faults: Faults, mute: set<NodeId>)
    ensures AllReadable(c, s0, keys, p, up, mute) ==> AllReachable(c, s0, keys, p, up)
    ensures AllBuried(c, s0, keys, p, up, faults) <==> AllTaken(c, s0, keys, p, up, faults)
  {
    forall k | k in keys
      ensures Readable(c, s0, k, p, up, mute) ==> Reachable(c, s0, k, p, up)
      ensures Buried(c, s0, k, p, up, faults) <==> Enough(p, |Select(Owners(c, s0, k), Takers(up, faults))|, |Owners(c, s0, k)|)
    {
      if Readable(c, s0, k, p, up, mute) { ReadableIsReachable(c, s0, k, p, up, mute); }
      BuriedIs(c, s0, k, p, up, faults);
    }
  }

  lemma TombstonesStay(c: Config, s0: Cluster, h: History, keys: seq<Key>, p: Profile, up: set<NodeId>, faults: Faults, mute: set<NodeId>, broken: set<NodeId>)
    requires Sound(c, s0, h, p) && up <= s0.nodes.Keys && DistinctSeq(keys) && AllBuried(c, s0, keys, p, up, faults)
    ensures var s1 := ReadAll(c, s0, keys, p, up, mute, broken).0;
      Tombstones(CollectAll(c, Bury(c, s0, s1, keys, up, faults), keys, up)) == Staying(c, s0, h, keys, up, faults)
  {
    BurialOf(c, s0, h, keys, p, up, faults, mute, broken);
    var s1 := ReadAll(c, s0, keys, p, up, mute, broken).0;
    BurialStays(c, s0, s1, h, keys, p, up, faults, mute, Bury(c, s0, s1, keys, up, faults));
  }

  /** The state in which a delete is decided: after failure detection and the first sweep. */
  function BeforeDelete(c: Config, s: Cluster, sweep: seq<Key>, now: int): Cluster {
    CollectAll(c, Detect(c, s, now), sweep, Up(c, Detect(c, s, now), now))
  }

  lemma BeforeDeleteIs(c: Config, s: Cluster, h: History, p: Profile, sweep: seq<Key>, now: int, k: Key)
    requires Sound(c, s, h, p)
    ensures var (s1, s0) := (Detect(c, s, now), BeforeDelete(c, s, sweep, now));
      && Sound(c, s1, h, p) && Sound(c, s0, h, p) && Swept(c, s, s0, sweep, Up(c, s1, now), k)
      && s0.term == s1.term && s0.leader == s1.leader && s0.sequence == s.sequence && s0.nodes == s1.nodes
      && Up(c, s1, now) <= s0.nodes.Keys
  {
    var s1 := Detect(c, s, now);
    DetectKeepsInv(c, s, h, now);
    DetectIsControl(c, s, now);
    CollectAllKeeps(c, s1, h, sweep, Up(c, s1, now));
    SweepIs(c, s1, h, sweep, Up(c, s1, now), k);
    assert SameKey(s, s1, k);
    SweptFrom(c, s1, s, BeforeDelete(c, s, sweep, now), sweep, Up(c, s1, now), k);
  }

  lemma DeleteIs(c: Config, s: Cluster, keys: seq<Key>, p: Profile, fence: Option<Fence>, sweep: seq<Key>,
                 faults: Faults, mute: set<NodeId>, broken: set<NodeId>, now: int)
    ensures var s1 := Detect(c, s, now);
      Delete(c, s, keys, p, fence, sweep, faults, mute, broken, now) ==
        if FenceFits(s1, fence) then DeleteKeys(c, s1, Unique(keys), p, sweep, Up(c, s1, now), faults, mute, broken)
        else (s1, Err(FenceError))
  {
  }

  lemma DeleteNothing(c: Config, s: Cluster, p: Profile, fence: Option<Fence>, sweep: seq<Key>,
                      faults: Faults, mute: set<NodeId>, broken: set<NodeId>, now: int)
    ensures var s1 := Detect(c, s, now);
      Delete(c, s, [], p, fence, sweep, faults, mute, broken, now) == (s1, if FenceFits(s1, fence) then Ok(0) else Err(FenceError))
  {
    assert Unique([]) == [];
  }

  lemma TransactionIs(c: Config, s: Cluster, h: History, keys: seq<Key>, p: Profile, sweep: seq<Key>, up: set<NodeId>,
                      faults: Faults, mute: set<NodeId>, broken: set<NodeId>)
    requires Sound(c, CollectAll(c, s, sweep, up), h, p) && up <= CollectAll(c, s, sweep, up).nodes.Keys
    requires keys != [] && DistinctSeq(keys)
    ensures var (t, r) := DeleteKeys(c, s, keys, p, sweep, up, faults, mute, broken);
      var s0 := CollectAll(c, s, sweep, up);
      && (r.Ok? <==> CanDelete(c, s0, h, keys, p, up, faults, mute))
      && (if r.Ok? then r.value == |FoundKeys(c, s0, h, keys, p, up, mute)|
          else t == s0 && r.error == Refusal(c, s0, h, keys, p, up, faults, mute))
  {
    var s0 := CollectAll(c, s, sweep, up);
    if DeleteKeys(c, s, keys, p, sweep, up, faults, mute, broken).1.Err? {
      DeleteFails(c, s, keys, p, sweep, up, faults, mute, broken);
      RefusalIs(c, s0, h, keys, p, up, faults, mute, broken, DeleteKeys(c, s, keys, p, sweep, up, faults, mute, broken).1.error);
    }
    DeleteKeysIs(c, s, keys, p, sweep, up, faults, mute, broken);
    PassesIff(c, s0, h, keys, p, up, faults, mute, broken);
    ReadAllTells(c, s0, h, keys, p, up, mute, broken);
  }

  /**
   When a delete succeeds and what it returns.  It needs a fence that fits; owners enough that
   answer and enough that take the tombstone, for every key; none that refuses; and room
   for the tombstones, both those that an owner may miss and those that stay.  It returns how
   many of the distinct keys were found.  One that fails leaves the state it was decided in.
   */
  lemma DeleteSucceedsIff(c: Config, s: Cluster, h: History, keys: seq<Key>, p: Profile, fence: Option<Fence>, sweep: seq<Key>,
                          faults: Faults, mute: set<NodeId>, broken: set<NodeId>, now: int)
    requires Sound(c, s, h, p) && keys != []
    ensures var (t, r) := Delete(c, s, keys, p, fence, sweep, faults, mute, broken, now);
      var (s0, up) := (BeforeDelete(c, s, sweep, now), Up(c, Detect(c, s, now), now));
      && (r.Ok? <==> FenceFits(s0, fence) && CanDelete(c, s0, h, Unique(keys), p, up, faults, mute))
      && (r.Ok? ==> r.value == |FoundKeys(c, s0, h, Unique(keys), p, up, mute)|)
      && (r.Err? ==> if FenceFits(s0, fence) then t == s0 && r.error == Refusal(c, s0, h, Unique(keys), p, up, faults, mute)
                     else t == Detect(c, s, now) && r.error == FenceError)
  {
    var (s1, s0) := (Detect(c, s, now), BeforeDelete(c, s, sweep, now));
    var up, ks := Up(c, s1, now), Unique(keys);
    BeforeDeleteIs(c, s, h, p, sweep, now, "");
    UniqueIsDistinct(keys);
    assert keys[0] in ks;
    DeleteIs(c, s, keys, p, fence, sweep, faults, mute, broken, now);
    TransactionIs(c, s1, h, ks, p, sweep, up, faults, mute, broken);
  }

  /**
   What a delete leaves: an owner that took the tombstone has it in place of the entry, every
   other cell of the key is as before; the key is forgotten exactly if all its owners took
   the tombstone; no other key is touched.
   */
  lemma DeleteLeaves(c: Config, s: Cluster, h: History, keys: seq<Key>, p: Profile, fence: Option<Fence>, sweep: seq<Key>,
                     faults: Faults, mute: set<NodeId>, broken: set<NodeId>, now: int, j: Key)
    requires Sound(c, s, h, p) && keys != [] && Delete(c, s, keys, p, fence, sweep, faults, mute, broken, now).1.Ok?
    ensures var t := Delete(c, s, keys, p, fence, sweep, faults, mute, broken, now).0;
      var (s0, up) := (BeforeDelete(c, s, sweep, now), Up(c, Detect(c, s, now), now));
      Ends(c, s0, t, Unique(keys), up, faults, j)
  {
    var (s1, s0) := (Detect(c, s, now), BeforeDelete(c, s, sweep, now));
    var up, ks := Up(c, s1, now), Unique(keys);
    BeforeDeleteIs(c, s, h, p, sweep, now, "");
    UniqueIsDistinct(keys);
    assert keys[0] in ks;
    DeleteShape(c, s1, ks, p, sweep, up, faults, mute, broken);
    BurialOf(c, s0, h, ks, p, up, faults, mute, broken);
    var s2 := ReadAll(c, s0, ks, p, up, mute, broken).0;
    BurialEnds(c, s0, s2, h, ks, p, up, faults, mute, Bury(c, s0, s2, ks, up, faults), j);
  }
}
