/**
 What the replicated store answers, and when it must: counts of owners, cells of nodes and
 the last acknowledged change, without the operations' own helpers.
 */
module ClusterAnswers {
  import opened HashRing
  import opened ClusterModel
  import opened ClusterInvariant
  import opened ClusterSteps

  // ----- Who counts -----

  /** A profile asks for one owner, for more than half of them, or for all. */
  predicate Enough(p: Profile, some: nat, all: nat) {
    match p
    case One => some >= 1
    case Majority => 2 * some > all
    case All => some >= all
  }

  predicate InService(st: Status) {
    st == Active || st == Joining || st == Draining
  }

  /** The nodes in service whose last heartbeat is within the timeout. */
  ghost predicate Serving(c: Config, s: Cluster, now: int, n: NodeId) {
    && n in s.nodes && now <= s.nodes[n].heartbeat + c.timeout
    && InService(s.nodes[n].status)
  }

  lemma UpIsServing(c: Config, s: Cluster, now: int, n: NodeId)
    ensures n in Up(c, s, now) <==> Serving(c, s, now, n)
  {
  }

  lemma EnoughIsRequired(p: Profile, some: nat, all: nat)
    ensures Enough(p, some, all) <==> some >= p.Required(all)
  {
  }

  /** Failure detection: what is in service afterwards has not timed out, and everything else is as before. */
  lemma DetectIs(c: Config, s: Cluster, now: int, n: NodeId)
    requires n in s.nodes
    ensures var t := Detect(c, s, now);
      && n in t.nodes && t.nodes[n].heartbeat == s.nodes[n].heartbeat
      && (Serving(c, t, now, n) <==> Serving(c, s, now, n))
      && (Serving(c, s, now, n) || !InService(s.nodes[n].status) ==> t.nodes[n] == s.nodes[n])
      && (!Serving(c, s, now, n) && InService(s.nodes[n].status) ==> t.nodes[n].status == Down)
  {
    assert n in TimedOut(c, s, now) <==> InService(s.nodes[n].status) && !Serving(c, s, now, n);
  }

  /** The owners that are up and take the write. */
  function Takers(up: set<NodeId>, faults: Faults): set<NodeId> {
    set n | n in up && (n !in faults || faults[n] == Fine)
  }

  /** No owner that is up rejects the write or fails it for good. */
  predicate NoRefusal(owners: seq<NodeId>, up: set<NodeId>, faults: Faults) {
    forall n | n in owners && n in up && n in faults :: faults[n] == Fine || faults[n] == Soft
  }

  predicate FenceFits(s: Cluster, fence: Option<Fence>) {
    fence == None || fence == Some(Fence(s.term, s.leader))
  }

  // ----- Puts -----

  lemma FineIsTaker(owners: seq<NodeId>, up: set<NodeId>, faults: Faults)
    ensures |Select(Select(owners, up), WithFault(Select(owners, up), faults, Fine))| == |Select(owners, Takers(up, faults))|
    ensures NoRefusal(owners, up, faults) <==>
      WithFault(Select(owners, up), faults, Rejects) == {} && WithFault(Select(owners, up), faults, Hard) == {}
  {
    var available := Select(owners, up);
    forall n ensures n in available <==> n in owners && n in up {
      SelectMember(owners, up, n);
    }
    SelectTwice(owners, up, WithFault(available, faults, Fine));
    SelectAlike(owners, up * WithFault(available, faults, Fine), Takers(up, faults));
    if NoRefusal(owners, up, faults) {
      forall n ensures n !in WithFault(available, faults, Rejects) && n !in WithFault(available, faults, Hard) {
      }
    } else {
      var n :| n in owners && n in up && n in faults && faults[n] != Fine && faults[n] != Soft;
      assert n in WithFault(available, faults, Rejects) || n in WithFault(available, faults, Hard);
    }
  }

  lemma {:induction false} SelectAlike(ns: seq<NodeId>, a: set<NodeId>, b: set<NodeId>)
    requires forall n | n in ns :: n in a <==> n in b
    ensures Select(ns, a) == Select(ns, b)
  {
    if ns != [] {
      assert ns == ns[..|ns| - 1] + [ns[|ns| - 1]];
      SelectAlike(ns[..|ns| - 1], a, b);
    }
  }

  lemma ReplicateSucceedsIff(c: Config, s: Cluster, k: Key, v: Value, p: Profile, up: set<NodeId>, faults: Faults)
    ensures var owners := Owners(c, s, k);
      ReplicatePut(c, s, k, v, p, up, faults).1.Ok? <==>
        NoRefusal(owners, up, faults) && Enough(p, |Select(owners, Takers(up, faults))|, |owners|)
  {
    var owners := Owners(c, s, k);
    FineIsTaker(owners, up, faults);
    SelectMono(owners, Takers(up, faults), up);
    EnoughIsRequired(p, |Select(owners, Takers(up, faults))|, |owners|);
  }

  /**
   When a put succeeds, told from the state after failure detection: the fence fits, no
   owner that is up rejects or fails hard, and those that take it are enough for the profile.
   */
  lemma PutSucceedsIff(c: Config, s: Cluster, k: Key, v: Value, p: Profile, fence: Option<Fence>, faults: Faults, now: int)
    ensures var s1 := Detect(c, s, now);
      var owners, up := Owners(c, s1, k), Up(c, s1, now);
      Put(c, s, k, v, p, fence, faults, now).1.Ok? <==>
        FenceFits(s1, fence) && NoRefusal(owners, up, faults) && Enough(p, |Select(owners, Takers(up, faults))|, |owners|)
  {
    var s1 := Detect(c, s, now);
    ReplicateSucceedsIff(c, s1, k, v, p, Up(c, s1, now), faults);
  }

  function PutError(c: Config, s: Cluster, k: Key, p: Profile, fence: Option<Fence>, up: set<NodeId>, faults: Faults): Error {
    var owners := Owners(c, s, k);
    if !FenceFits(s, fence) then FenceError
    else if Enough(p, |Select(owners, up)|, |owners|) && !NoRefusal(owners, up, faults) then StorageError
    else QuorumError
  }

  /** Which error a refused put raises, and that it then leaves the state as failure detection left it. */
  lemma PutRefuses(c: Config, s: Cluster, k: Key, v: Value, p: Profile, fence: Option<Fence>, faults: Faults, now: int)
    ensures var s1 := Detect(c, s, now);
      var (owners, up) := (Owners(c, s1, k), Up(c, s1, now));
      var (t, r) := Put(c, s, k, v, p, fence, faults, now);
      r.Err? ==> t == s1 && r.error == PutError(c, s1, k, p, fence, up, faults)
  {
    var s1 := Detect(c, s, now);
    var owners, up := Owners(c, s1, k), Up(c, s1, now);
    FineIsTaker(owners, up, faults);
    EnoughIsRequired(p, |Select(owners, up)|, |owners|);
  }

  /** A node whose cell of the key a successful put replaces. */
  predicate Stores(c: Config, s: Cluster, k: Key, faults: Faults, now: int, n: NodeId) {
    n in Owners(c, s, k) && n in Takers(Up(c, s, now), faults)
  }

  lemma ReplicatedIs(c: Config, s: Cluster, k: Key, v: Value, p: Profile, up: set<NodeId>, faults: Faults)
    requires ReplicatePut(c, s, k, v, p, up, faults).1.Ok?
    ensures var targets := WithFault(Select(Owners(c, s, k), up), faults, Fine);
      ReplicatePut(c, s, k, v, p, up, faults).0 ==
        Install(s, targets, k, Some(v), Meta(Version(s.term, s.sequence + 1, s.leader), false)).(sequence := s.sequence + 1)
  {
  }

  lemma TargetIs(c: Config, s: Cluster, k: Key, faults: Faults, now: int, n: NodeId)
    ensures n in WithFault(Select(Owners(c, s, k), Up(c, s, now)), faults, Fine) <==> Stores(c, s, k, faults, now, n)
  {
    SelectMember(Owners(c, s, k), Up(c, s, now), n);
  }

  /** The cell of `j` on `n` is the value put, with the next stamp, or as it was. */
  predicate WrittenAt(s: Cluster, t: Cluster, v: Value, stored: bool, n: NodeId, j: Key) {
    if stored
    then EntryAt(t, n, j) == Some(v) && MetaAt(t, n, j) == Some(Meta(Version(s.term, s.sequence + 1, s.leader), false))
    else EntryAt(t, n, j) == EntryAt(s, n, j) && MetaAt(t, n, j) == MetaAt(s, n, j)
  }

  lemma ReplicatedCells(c: Config, s: Cluster, k: Key, v: Value, p: Profile, faults: Faults, now: int, n: NodeId, j: Key)
    requires WellFormed(c, s) && ReplicatePut(c, s, k, v, p, Up(c, s, now), faults).1.Ok?
    ensures var t := ReplicatePut(c, s, k, v, p, Up(c, s, now), faults).0;
      WrittenAt(s, t, v, j == k && Stores(c, s, k, faults, now, n), n, j)
  {
    ReplicatedIs(c, s, k, v, p, Up(c, s, now), faults);
    TargetIs(c, s, k, faults, now, n);
    InstalledCell(c, s, WithFault(Select(Owners(c, s, k), Up(c, s, now)), faults, Fine), k, Some(v),
                  Meta(Version(s.term, s.sequence + 1, s.leader), false), n, j);
  }

  lemma InstalledCell(c: Config, s: Cluster, targets: set<NodeId>, k: Key, e: Option<Value>, m: Meta, n: NodeId, j: Key)
    requires WellFormed(c, s) && (n in targets ==> n in s.nodes)
    ensures var t := Install(s, targets, k, e, m);
      if j == k && n in targets then EntryAt(t, n, j) == e && MetaAt(t, n, j) == Some(m)
      else EntryAt(t, n, j) == EntryAt(s, n, j) && MetaAt(t, n, j) == MetaAt(s, n, j)
  {
    if n in s.stores.Keys { InstallCells(s, targets, k, e, m, n, j); }
  }

  lemma WrittenState(c: Config, s: Cluster, k: Key, v: Value, p: Profile, fence: Option<Fence>, faults: Faults, now: int)
    requires WellFormed(c, s) && Put(c, s, k, v, p, fence, faults, now).1.Ok?
    ensures var s1 := Detect(c, s, now);
      var (s2, r2) := ReplicatePut(c, s1, k, v, p, Up(c, s1, now), faults);
      WellFormed(c, s1) && r2.Ok? && Put(c, s, k, v, p, fence, faults, now).0 == s2.(catalog := s2.catalog + {k})
  {
    DetectIsControl(c, s, now);
    WholePutShape(c, s, k, v, p, fence, faults, now);
  }

  /** A put that succeeds writes the value, with the next stamp, on the owners that take it, and nothing else. */
  lemma WrittenCells(c: Config, s: Cluster, k: Key, v: Value, p: Profile, fence: Option<Fence>, faults: Faults, now: int, n: NodeId, j: Key)
    requires WellFormed(c, s) && Put(c, s, k, v, p, fence, faults, now).1.Ok?
    ensures var (s1, t) := (Detect(c, s, now), Put(c, s, k, v, p, fence, faults, now).0);
      WrittenAt(s1, t, v, j == k && Stores(c, s1, k, faults, now, n), n, j)
  {
    WrittenState(c, s, k, v, p, fence, faults, now);
    var s1 := Detect(c, s, now);
    var s2 := ReplicatePut(c, s1, k, v, p, Up(c, s1, now), faults).0;
    ReplicatedCells(c, s1, k, v, p, faults, now, n, j);
    CataloguedCell(s1, s2, v, j == k && Stores(c, s1, k, faults, now, n), n, j, s2.catalog + {k});
  }

  lemma CataloguedCell(s: Cluster, t: Cluster, v: Value, stored: bool, n: NodeId, j: Key, catalog: set<Key>)
    requires WrittenAt(s, t, v, stored, n, j)
    ensures WrittenAt(s, t.(catalog := catalog), v, stored, n, j)
  {
  }

  // ----- Reads -----

  lemma ReadSucceedsIff(c: Config, s: Cluster, k: Key, p: Profile, up: set<NodeId>, mute: set<NodeId>, broken: set<NodeId>)
    requires WellFormed(c, s)
    ensures var owners := Owners(c, s, k);
      Read(c, s, k, p, up, mute, broken).1.Ok? <==> Enough(p, |Select(owners, up - mute)|, |owners|)
  {
    var owners := Owners(c, s, k);
    OwnersAreDistinctMembers(s.ring, c.token(k), c.replicas);
    SelectMono(owners, up - mute, up);
    EnoughIsRequired(p, |Select(owners, up - mute)|, |owners|);
  }

  /** The answer for one owner's cell. */
  predicate Says(s: Cluster, n: NodeId, k: Key, r: Lookup) {
    if MetaAt(s, n, k).Some? && MetaAt(s, n, k).value.deleted then r == Miss
    else if EntryAt(s, n, k).Some? then r == Hit(EntryAt(s, n, k).value)
    else r == Miss
  }

  /** At profile ONE the first owner that answers decides, and the read changes nothing. */
  lemma ReadAtOne(c: Config, s: Cluster, k: Key, up: set<NodeId>, mute: set<NodeId>, broken: set<NodeId>)
    requires WellFormed(c, s) && Select(Owners(c, s, k), up - mute) != []
    ensures var (t, r) := Read(c, s, k, One, up, mute, broken);
      t == s && r.Ok? && Says(s, Select(Owners(c, s, k), up - mute)[0], k, r.value)
  {
    ReadSucceedsIff(c, s, k, One, up, mute, broken);
  }

  /** An answering owner has the last acknowledged write of `k`, entry included. */
  ghost predicate Answers(c: Config, s: Cluster, h: History, k: Key, n: NodeId) {
    Last(h, k).Some? && Last(h, k).value.Written? && Holds(s, n, k, Last(h, k).value.version)
    && EntryAt(s, n, k) == Some(Last(h, k).value.value)
  }

  /** The winner of a quorum read holds the key's last change, if any answering owner has metadata. */
  lemma WinnerHolds(c: Config, s: Cluster, h: History, k: Key, p: Profile, up: set<NodeId>, mute: set<NodeId>)
    requires Inv(c, s, h) && QuorumInv(c, s, h) && !p.One?
    requires var owners := Owners(c, s, k); Enough(p, |Select(owners, up - mute)|, |owners|)
    ensures var asked := Select(Owners(c, s, k), up - mute);
      && asked != []
      && var w := Winner(s, asked, k);
      && w.node in asked && w == ResponseOf(s, w.node, k)
      && (Last(h, k).Some? && !Vacant(s, k) ==> Holds(s, w.node, k, Last(h, k).value.version))
      && (Last(h, k).None? || Vacant(s, k) ==> w.meta.None? && w.entry.None?)
  {
    var owners := Owners(c, s, k);
    var asked := Select(owners, up - mute);
    OwnersAreDistinctMembers(s.ring, c.token(k), c.replicas);
    EnoughIsRequired(p, |asked|, |owners|);
    var w := Winner(s, asked, k);
    WinnerIsBest(s, asked, k);
    SelectMember(owners, up - mute, w.node);
    assert KeyOk(c, s, h, k) && QuorumOk(c, s, h, k);
    assert CellOk(c, s, h, k, w.node);
    if Last(h, k).Some? && !Vacant(s, k) {
      var last := Last(h, k).value;
      var n := Overlap(owners, Holders(s, k, last.version), up - mute);
      SelectMember(owners, up - mute, n);
      assert !ResponseOf(s, n, k).Beats(w);
      HolderHasLast(c, s, h, k, n);
      LastIn(h, k);
      ChainOrder(h, s, last, last);
      if w.meta.Some? {
        var e := CommitOf(c, s, h, k, w.node);
        ChainOrder(h, s, e, last);
      }
    } else if w.meta.Some? {
      var e := CommitOf(c, s, h, k, w.node);
      assert false;
    }
  }

  /** An owner that has the last write with its entry wins over those that have lost the entry. */
  lemma WinnerAnswers(c: Config, s: Cluster, h: History, k: Key, asked: seq<NodeId>, n: NodeId)
    requires Inv(c, s, h) && n in asked && Answers(c, s, h, k, n) && Holds(s, Winner(s, asked, k).node, k, Last(h, k).value.version)
    ensures Winner(s, asked, k).entry == Some(Last(h, k).value.value) && Winner(s, asked, k).meta.Some?
    ensures !Winner(s, asked, k).meta.value.deleted
  {
    var w := Winner(s, asked, k);
    WinnerIsBest(s, asked, k);
    assert KeyOk(c, s, h, k);
    HolderHasLast(c, s, h, k, w.node);
    HolderHasLast(c, s, h, k, n);
    assert !ResponseOf(s, n, k).Beats(w);
  }

  /**
   What a quorum read answers, exactly: the last acknowledged write if an owner that
   answers still has its entry, and a miss otherwise.
   */
  lemma ReadAnswersExactly(c: Config, s: Cluster, h: History, k: Key, p: Profile, up: set<NodeId>, mute: set<NodeId>, broken: set<NodeId>)
    requires Inv(c, s, h) && QuorumInv(c, s, h) && !p.One?
    requires Read(c, s, k, p, up, mute, broken).1.Ok?
    ensures var asked := Select(Owners(c, s, k), up - mute);
      var r := Read(c, s, k, p, up, mute, broken).1.value;
      if exists n :: n in asked && Answers(c, s, h, k, n) then r == Hit(Last(h, k).value.value) else r == Miss
  {
    var asked := Select(Owners(c, s, k), up - mute);
    ReadSucceedsIff(c, s, k, p, up, mute, broken);
    WinnerHolds(c, s, h, k, p, up, mute);
    var w := Winner(s, asked, k);
    if n :| n in asked && Answers(c, s, h, k, n) {
      assert MetaAt(s, n, k).Some?;
      WinnerAnswers(c, s, h, k, asked, n);
    } else if Answer(w).Hit? {
      assert KeyOk(c, s, h, k);
      HolderHasLast(c, s, h, k, w.node);
      assert Answers(c, s, h, k, w.node);
    }
  }

  // ----- Put, then get -----

  lemma DetectKeepsInv(c: Config, s: Cluster, h: History, now: int)
    requires Inv(c, s, h)
    ensures Inv(c, Detect(c, s, now), h) && (QuorumInv(c, s, h) ==> QuorumInv(c, Detect(c, s, now), h))
    ensures Detect(c, s, now).ring == s.ring && forall k :: SameKey(s, Detect(c, s, now), k)
  {
    DetectIsControl(c, s, now);
    ControlStepKeeps(c, s, Detect(c, s, now), h);
  }

  /** An owner that took the write answers the next reads. */
  lemma TakerAnswers(c: Config, s: Cluster, h: History, k: Key, v: Value, p: Profile, fence: Option<Fence>, faults: Faults, now: int, n: NodeId)
    requires WellFormed(c, s) && Put(c, s, k, v, p, fence, faults, now).1.Ok? && Stores(c, Detect(c, s, now), k, faults, now, n)
    ensures var t := Put(c, s, k, v, p, fence, faults, now).0; Answers(c, t, h + [PutCommit(t, k, v)], k, n)
  {
    var s1, t := Detect(c, s, now), Put(c, s, k, v, p, fence, faults, now).0;
    WrittenCells(c, s, k, v, p, fence, faults, now, n, k);
    LastAppend(h, PutCommit(t, k, v), k);
    PutStamp(c, s, k, v, p, fence, faults, now);
  }

  lemma PutStamp(c: Config, s: Cluster, k: Key, v: Value, p: Profile, fence: Option<Fence>, faults: Faults, now: int)
    requires Put(c, s, k, v, p, fence, faults, now).1.Ok?
    ensures var (s1, t) := (Detect(c, s, now), Put(c, s, k, v, p, fence, faults, now).0);
      && t.term == s1.term && t.leader == s1.leader && t.sequence == s1.sequence + 1 && t.ring == s1.ring
      && t.catalog == s1.catalog + {k} && t.nodes == s1.nodes && t.watermark == s1.watermark
  {
  }

  /** Some owner that took the write is among any answering quorum. */
  lemma TakerAmong(owners: seq<NodeId>, takers: set<NodeId>, answering: set<NodeId>, p: Profile, q: Profile) returns (n: NodeId)
    requires !p.One? && !q.One? && owners != []
    requires Enough(p, |Select(owners, takers)|, |owners|) && Enough(q, |Select(owners, answering)|, |owners|)
    ensures n in owners && n in takers && n in answering
  {
    n := Overlap(owners, takers, answering);
  }

  /**
   Put, then get: after a put at a quorum profile has succeeded, every quorum read that
   succeeds returns the value put, whichever owners answer and at whatever later time.
   */
  lemma PutThenGet(c: Config, s: Cluster, h: History, k: Key, v: Value, p: Profile, fence: Option<Fence>, faults: Faults, now: int,
                   q: Profile, mute: set<NodeId>, broken: set<NodeId>, later: int)
    requires Inv(c, s, h) && QuorumInv(c, s, h) && !p.One? && !q.One?
    requires Put(c, s, k, v, p, fence, faults, now).1.Ok?
    ensures var t := Put(c, s, k, v, p, fence, faults, now).0;
      var u := Detect(c, t, later);
      var owners := Owners(c, u, k);
      Get(c, t, k, q, mute, broken, later).1 ==
        if Enough(q, |Select(owners, Up(c, u, later) - mute)|, |owners|) then Ok(Hit(v)) else Err(QuorumError)
  {
    var s1, t := Detect(c, s, now), Put(c, s, k, v, p, fence, faults, now).0;
    var u, g := Detect(c, t, later), h + [PutCommit(t, k, v)];
    var owners, up := Owners(c, u, k), Up(c, u, later);
    PutKeeps(c, s, h, k, v, p, fence, faults, now);
    DetectKeepsInv(c, s, h, now);
    DetectKeepsInv(c, t, g, later);
    PutStamp(c, s, k, v, p, fence, faults, now);
    ReadSucceedsIff(c, u, k, q, up, mute, broken);
    if Enough(q, |Select(owners, up - mute)|, |owners|) {
      PutSucceedsIff(c, s, k, v, p, fence, faults, now);
      OwnersAreDistinctMembers(u.ring, c.token(k), c.replicas);
      var n := TakerAmong(owners, Takers(Up(c, s1, now), faults), up - mute, p, q);
      TakerAnswers(c, s, h, k, v, p, fence, faults, now, n);
      assert SameKey(t, u, k);
      assert MetaAt(t, n, k) == MetaAt(u, n, k) && EntryAt(t, n, k) == EntryAt(u, n, k);
      SelectMember(owners, up - mute, n);
      LastAppend(h, PutCommit(t, k, v), k);
      assert Answers(c, u, g, k, n);
      ReadAnswersExactly(c, u, g, k, q, up, mute, broken);
    } else {
      ReadRefuses(c, u, k, q, up, mute, broken);
    }
  }

  lemma ReadRefuses(c: Config, s: Cluster, k: Key, p: Profile, up: set<NodeId>, mute: set<NodeId>, broken: set<NodeId>)
    ensures var (t, r) := Read(c, s, k, p, up, mute, broken); r.Err? ==> r == Err(QuorumError) && t == s
  {
  }

  // ----- Read repair -----

  /** A read that answers at a quorum profile, as repair and collection. */
  lemma ReadRepairs(c: Config, s: Cluster, k: Key, p: Profile, up: set<NodeId>, mute: set<NodeId>, broken: set<NodeId>)
    requires Read(c, s, k, p, up, mute, broken).1.Ok? && !p.One?
    ensures var asked := Select(Owners(c, s, k), up - mute);
      && asked != []
      && Read(c, s, k, p, up, mute, broken).0 == Collect(c, Repair(s, k, Winner(s, asked, k), asked, broken), k, up)
  {
  }

  /** After the repair an answering node has the winner's record. */
  lemma RepairedCell(c: Config, s: Cluster, h: History, k: Key, asked: seq<NodeId>, broken: set<NodeId>, n: NodeId)
    requires Inv(c, s, h) && asked != [] && Winner(s, asked, k).meta.Some?
    requires forall m | m in asked :: m in s.nodes
    ensures var (w, t) := (Winner(s, asked, k), Repair(s, k, Winner(s, asked, k), asked, broken));
      if n in asked && n !in broken
      then MetaAt(t, n, k) == w.meta && EntryAt(t, n, k) == (if w.meta.value.deleted then None else w.entry)
      else MetaAt(t, n, k) == MetaAt(s, n, k) && EntryAt(t, n, k) == EntryAt(s, n, k)
  {
    var w := Winner(s, asked, k);
    WinnerIsBest(s, asked, k);
    assert KeyOk(c, s, h, k);
    var targets := set x | x in asked && x !in broken && NeedsRepair(s, k, w, x);
    var e := if w.meta.value.deleted then None else w.entry;
    if n in s.stores.Keys { InstallCells(s, targets, k, e, w.meta.value, n, k); }
    if n in asked && n !in broken && n !in targets {
      WinnerAgrees(c, s, h, k, asked, n);
    }
  }

  /** What is not repaired has the winner's record already. */
  lemma WinnerAgrees(c: Config, s: Cluster, h: History, k: Key, asked: seq<NodeId>, n: NodeId)
    requires Inv(c, s, h) && n in asked && Winner(s, asked, k).meta.Some? && !NeedsRepair(s, k, Winner(s, asked, k), n)
    ensures var w := Winner(s, asked, k);
      MetaAt(s, n, k) == w.meta && EntryAt(s, n, k) == (if w.meta.value.deleted then None else w.entry)
  {
    var w := Winner(s, asked, k);
    WinnerIsBest(s, asked, k);
    assert KeyOk(c, s, h, k);
    assert !ResponseOf(s, n, k).Beats(w);
    var e := CommitOf(c, s, h, k, w.node);
    if n != w.node {
      var d := CommitOf(c, s, h, k, n);
      ChainOrder(h, s, d, e);
      ChainOrder(h, s, e, e);
    }
  }

  lemma AskedExist(c: Config, s: Cluster, k: Key, up: set<NodeId>, mute: set<NodeId>)
    requires WellFormed(c, s)
    ensures forall n | n in Select(Owners(c, s, k), up - mute) :: n in Owners(c, s, k) && n in up && n !in mute && n in s.nodes
  {
    OwnersAreDistinctMembers(s.ring, c.token(k), c.replicas);
    forall n | n in Select(Owners(c, s, k), up - mute) ensures n in Owners(c, s, k) && n in up && n !in mute && n in s.nodes {
      SelectMember(Owners(c, s, k), up - mute, n);
    }
  }

  lemma CollectedIsVacant(c: Config, s: Cluster, k: Key, up: set<NodeId>)
    ensures Collectable(c, s, k, up) ==> Vacant(Collect(c, s, k, up), k)
    ensures !Collectable(c, s, k, up) ==> Collect(c, s, k, up) == s
  {
    if Collectable(c, s, k, up) {
      forall n ensures MetaAt(Collect(c, s, k, up), n, k).None? {
      }
    }
  }

  /** The node whose answer wins: newest, and with an entry rather than without. */
  predicate Newest(s: Cluster, k: Key, asked: seq<NodeId>, w: NodeId) {
    w in asked && forall n | n in asked && MetaAt(s, n, k).Some? ::
      && MetaAt(s, w, k).Some? && !MetaAt(s, w, k).value.version.Less(MetaAt(s, n, k).value.version)
      && (MetaAt(s, w, k).value == MetaAt(s, n, k).value && !MetaAt(s, n, k).value.deleted && EntryAt(s, n, k).Some? ==>
            EntryAt(s, w, k).Some?)
  }

  lemma WinnerIsNewest(c: Config, s: Cluster, h: History, k: Key, asked: seq<NodeId>)
    requires Inv(c, s, h) && asked != []
    ensures Newest(s, k, asked, Winner(s, asked, k).node)
  {
    var w := Winner(s, asked, k);
    WinnerIsBest(s, asked, k);
    assert KeyOk(c, s, h, k);
    forall n | n in asked && MetaAt(s, n, k).Some?
      ensures MetaAt(s, w.node, k).Some? && !MetaAt(s, w.node, k).value.version.Less(MetaAt(s, n, k).value.version)
      ensures MetaAt(s, w.node, k).value == MetaAt(s, n, k).value && !MetaAt(s, n, k).value.deleted && EntryAt(s, n, k).Some? ==>
        EntryAt(s, w.node, k).Some?
    {
      assert !ResponseOf(s, n, k).Beats(w);
      var e := CommitOf(c, s, h, k, n);
      ChainOrder(h, s, e, e);
    }
  }

  /** What a quorum read leaves in the cells of its key. */
  ghost predicate Repaired(s: Cluster, t: Cluster, k: Key, asked: seq<NodeId>, broken: set<NodeId>, w: NodeId) {
    forall n :: RepairedAt(s, t, k, asked, broken, w, n)
  }

  predicate RepairedAt(s: Cluster, t: Cluster, k: Key, asked: seq<NodeId>, broken: set<NodeId>, w: NodeId, n: NodeId) {
    if n in asked && n !in broken && MetaAt(s, w, k).Some?
    then MetaAt(t, n, k) == MetaAt(s, w, k)
      && EntryAt(t, n, k) == if MetaAt(s, w, k).value.deleted then None else EntryAt(s, w, k)
    else MetaAt(t, n, k) == MetaAt(s, n, k) && EntryAt(t, n, k) == EntryAt(s, n, k)
  }

  lemma RepairLeaves(c: Config, s: Cluster, h: History, k: Key, asked: seq<NodeId>, broken: set<NodeId>)
    requires Inv(c, s, h) && asked != [] && forall m | m in asked :: m in s.nodes
    ensures Repaired(s, Repair(s, k, Winner(s, asked, k), asked, broken), k, asked, broken, Winner(s, asked, k).node)
  {
    var w := Winner(s, asked, k);
    WinnerIsBest(s, asked, k);
    forall n ensures RepairedAt(s, Repair(s, k, w, asked, broken), k, asked, broken, w.node, n) {
      if w.meta.Some? { RepairedCell(c, s, h, k, asked, broken, n); }
    }
  }

  /**
   Read repair: a quorum read that collects nothing leaves every owner that answered, and
   was not broken, with the winner's metadata and entry, and every other cell as it was.
   */
  lemma ReadLeaves(c: Config, s: Cluster, h: History, k: Key, p: Profile, up: set<NodeId>, mute: set<NodeId>, broken: set<NodeId>)
    returns (w: NodeId)
    requires Inv(c, s, h) && !p.One? && Read(c, s, k, p, up, mute, broken).1.Ok?
    ensures var (t, r) := Read(c, s, k, p, up, mute, broken);
      var asked := Select(Owners(c, s, k), up - mute);
      && Newest(s, k, asked, w) && Says(s, w, k, r.value)
      && (forall j | j != k :: SameKey(s, t, j))
      && (!Vacant(t, k) || Vacant(s, k) ==> Repaired(s, t, k, asked, broken, w))
  {
    var asked := Select(Owners(c, s, k), up - mute);
    var t := Read(c, s, k, p, up, mute, broken).0;
    ReadRepairs(c, s, k, p, up, mute, broken);
    AskedExist(c, s, k, up, mute);
    ReadKeeps(c, s, h, k, p, up, mute, broken);
    WinnerIsNewest(c, s, h, k, asked);
    WinnerIsBest(s, asked, k);
    w := Winner(s, asked, k).node;
    RepairLeaves(c, s, h, k, asked, broken);
    var u := Repair(s, k, Winner(s, asked, k), asked, broken);
    CollectedIsVacant(c, u, k, up);
    LatestIsMax(c, s, k);
    assert Vacant(s, k) ==> MetaAt(s, w, k).None?;
  }

  /** With every owner repaired the tombstone can be collected. */
  lemma RepairedIsCollectable(c: Config, s: Cluster, h: History, k: Key, up: set<NodeId>, broken: set<NodeId>)
    requires Inv(c, s, h) && Last(h, k).Some? && Last(h, k).value.Deleted?
    requires Owners(c, s, k) != []
    requires var w := Winner(s, Owners(c, s, k), k); w == ResponseOf(s, w.node, k) && Holds(s, w.node, k, Last(h, k).value.version)
    requires forall n | n in Owners(c, s, k) :: n in up && n !in broken && n in s.nodes
    ensures var u := Repair(s, k, Winner(s, Owners(c, s, k), k), Owners(c, s, k), broken);
      Collectable(c, u, k, up) && Latest(u, k).Some? && Latest(u, k).value.version == Last(h, k).value.version
  {
    var owners := Owners(c, s, k);
    var w := Winner(s, owners, k);
    var u := Repair(s, k, w, owners, broken);
    assert KeyOk(c, s, h, k);
    HolderHasLast(c, s, h, k, w.node);
    RepairLeaves(c, s, h, k, owners, broken);
    RepairKeeps(c, s, h, k, owners, broken);
    assert KeyOk(c, u, h, k);
    LatestIsLast(c, u, h, k);
    forall n | n in owners ensures n in up && HasRecord(u, n, k, Latest(u, k).value) && MetaAt(u, n, k).Some? {
      assert RepairedAt(s, u, k, owners, broken, w.node, n);
      LatestIsMax(c, u, k);
    }
  }

  lemma CollectedLeaves(c: Config, u: Cluster, k: Key, up: set<NodeId>)
    requires Collectable(c, u, k, up)
    ensures var t := Collect(c, u, k, up);
      Vacant(t, k) && k !in t.catalog && t.watermark.Some? && !t.watermark.value.Less(Latest(u, k).value.version)
  {
    CollectedIsVacant(c, u, k, up);
  }

  /** A tombstone that all owners answer with, or are repaired to, is collected by the read. */
  lemma ReadCollects(c: Config, s: Cluster, h: History, k: Key, p: Profile, up: set<NodeId>, mute: set<NodeId>, broken: set<NodeId>)
    requires Inv(c, s, h) && QuorumInv(c, s, h) && !p.One? && !Vacant(s, k)
    requires Last(h, k).Some? && Last(h, k).value.Deleted?
    requires forall n | n in Owners(c, s, k) :: n in up && n !in mute && n !in broken
    ensures var (t, r) := Read(c, s, k, p, up, mute, broken);
      && r == Ok(Miss) && Vacant(t, k) && k !in t.catalog
      && t.watermark.Some? && !t.watermark.value.Less(Last(h, k).value.version)
  {
    var owners := Owners(c, s, k);
    SelectEvery(owners, up - mute);
    OwnersAreDistinctMembers(s.ring, c.token(k), c.replicas);
    ReadSucceedsIff(c, s, k, p, up, mute, broken);
    WinnerHolds(c, s, h, k, p, up, mute);
    AskedExist(c, s, k, up, mute);
    RepairedIsCollectable(c, s, h, k, up, broken);
    ReadRepairs(c, s, k, p, up, mute, broken);
    CollectedLeaves(c, Repair(s, k, Winner(s, owners, k), owners, broken), k, up);
    ReadMisses(c, s, h, k, p, up, mute, broken);
  }

  /** A deleted key is never found. */
  lemma ReadMisses(c: Config, s: Cluster, h: History, k: Key, p: Profile, up: set<NodeId>, mute: set<NodeId>, broken: set<NodeId>)
    requires Inv(c, s, h) && QuorumInv(c, s, h) && !p.One? && Last(h, k).Some? && Last(h, k).value.Deleted?
    requires Read(c, s, k, p, up, mute, broken).1.Ok?
    ensures Read(c, s, k, p, up, mute, broken).1 == Ok(Miss)
  {
    ReadAnswersExactly(c, s, h, k, p, up, mute, broken);
  }

  lemma {:induction false} SelectEvery(ns: seq<NodeId>, keep: set<NodeId>)
    requires forall n | n in ns :: n in keep
    ensures Select(ns, keep) == ns
  {
    if ns != [] {
      assert ns == ns[..|ns| - 1] + [ns[|ns| - 1]];
      SelectEvery(ns[..|ns| - 1], keep);
    }
  }
}
