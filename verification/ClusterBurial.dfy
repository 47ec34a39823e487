/** A delete transaction node by node, and its undoing. */
module ClusterBurial {
  import opened HashRing
  import opened ClusterModel
  import opened ClusterInvariant
  import opened ClusterReplicas

  // ----- Undoing a delete -----

  /** The delete transaction after its admission checks. */
  function DeleteFrom(c: Config, s0: Cluster, keys: seq<Key>, p: Profile, up: set<NodeId>, faults: Faults,
                      mute: set<NodeId>, broken: set<NodeId>): (Cluster, Outcome<nat>)
  {
    var (s1, existed) := ReadAll(c, s0, keys, p, up, mute, broken);
    if existed.Err? then (s0, existed)
    else if Aborts(c, s0, keys, up, faults) then (s0, Err(StorageError))
    else if !AllBuried(c, s0, keys, p, up, faults) then (s0, Err(QuorumError))
    else
      var s2 := CollectAll(c, Bury(c, s0, s1, keys, up, faults), keys, up);
      if |Tombstones(s2)| > c.tombstoneLimit then (s0, Err(LimitError)) else (s2, existed)
  }

  /** Why the writing part fails, if it does; `s1` is the state after the reads. */
  function DeleteError(c: Config, s0: Cluster, s1: Cluster, keys: seq<Key>, p: Profile, up: set<NodeId>, faults: Faults): Option<Error> {
    if Aborts(c, s0, keys, up, faults) then Some(StorageError)
    else if !AllBuried(c, s0, keys, p, up, faults) then Some(QuorumError)
    else if |Tombstones(CollectAll(c, Bury(c, s0, s1, keys, up, faults), keys, up))| > c.tombstoneLimit then Some(LimitError)
    else None
  }

  lemma DeleteFromRead(c: Config, s0: Cluster, s1: Cluster, keys: seq<Key>, p: Profile, up: set<NodeId>, faults: Faults,
                       mute: set<NodeId>, broken: set<NodeId>, hits: nat)
    requires ReadAll(c, s0, keys, p, up, mute, broken) == (s1, Ok(hits))
    ensures var error := DeleteError(c, s0, s1, keys, p, up, faults);
      DeleteFrom(c, s0, keys, p, up, faults, mute, broken)
      == if error.Some? then (s0, Err(error.value)) else (CollectAll(c, Bury(c, s0, s1, keys, up, faults), keys, up), Ok(hits))
  {
  }

  /** Membership, ring, leadership and the shape of the maps. */
  predicate SameControl(s: Cluster, t: Cluster) {
    && t == s.(stores := t.stores, metadata := t.metadata, sequence := t.sequence, watermark := t.watermark, catalog := t.catalog)
    && t.stores.Keys == s.stores.Keys && t.metadata.Keys == s.metadata.Keys
  }

  /** `t` differs from `s0` in stores that `left` still checkpoints and in the metadata of `keys`. */
  ghost predicate Touched(s0: Cluster, t: Cluster, left: map<NodeId, map<Key, Value>>, keys: set<Key>) {
    && SameControl(s0, t)
    && (forall n | n in left :: n in s0.stores && left[n] == s0.stores[n])
    && (forall n | n in s0.stores && n !in left :: t.stores[n] == s0.stores[n])
    && (forall n | n in s0.metadata :: t.metadata[n] - keys == s0.metadata[n] - keys)
  }

  function Reverted(metadata: map<NodeId, map<Key, Meta>>, rows: map<NodeId, map<Key, Meta>>, keys: set<Key>)
    : map<NodeId, map<Key, Meta>>
  {
    map n | n in metadata :: if n in rows then Revert(metadata[n], rows[n], keys) else metadata[n]
  }

  lemma RevertRestores(row: map<Key, Meta>, base: map<Key, Meta>, keys: set<Key>)
    requires row - keys == base - keys
    ensures Revert(row, base, keys) == base
  {
    var r := Revert(row, base, keys);
    forall k
      ensures k in r <==> k in base
      ensures k in r ==> r[k] == base[k]
    {
      if k !in keys {
        assert k in row - keys <==> k in base - keys;
        if k in row { assert (row - keys)[k] == row[k]; }
        if k in base { assert (base - keys)[k] == base[k]; }
      }
    }
  }

  /** Restoring the checkpoints still held and the selected keys' metadata gives back the state before. */
  lemma UndoneIsBefore(c: Config, s0: Cluster, t: Cluster, left: map<NodeId, map<Key, Value>>, keys: seq<Key>)
    requires WellFormed(c, s0) && Touched(s0, t, left, set k | k in keys)
    ensures t.stores + left == s0.stores && Reverted(t.metadata, s0.metadata, set k | k in keys) == s0.metadata
    ensures forall n | n in left :: n in t.order
  {
    var all := set k | k in keys;
    forall n | n in left ensures n in t.order { assert n in s0.stores.Keys && n in s0.nodes; }
    forall n | n in s0.metadata ensures Revert(t.metadata[n], s0.metadata[n], all) == s0.metadata[n] {
      RevertRestores(t.metadata[n], s0.metadata[n], all);
    }
    StoresBack(s0.stores, t.stores, left);
  }

  lemma StoresBack<T>(before: map<NodeId, T>, after: map<NodeId, T>, left: map<NodeId, T>)
    requires after.Keys == before.Keys && forall n | n in left :: n in before && left[n] == before[n]
    requires forall n | n in before && n !in left :: after[n] == before[n]
    ensures after + left == before
  {
    var r := after + left;
    forall n
      ensures n in r <==> n in before
      ensures n in r ==> r[n] == before[n]
    {
      assert n in after <==> n in after.Keys;
      assert n in before <==> n in before.Keys;
    }
  }

  lemma TouchedFrame(s0: Cluster, t: Cluster, u: Cluster, left: map<NodeId, map<Key, Value>>, keys: set<Key>)
    requires Touched(s0, t, left, keys) && u == t.(sequence := u.sequence, catalog := u.catalog)
    ensures Touched(s0, u, left, keys)
  {
  }

  lemma ReadEachSnoc(s: Cluster, ks: seq<Key>, k: Key, read: Reader, u: Cluster, hits: nat)
    requires ReadEach(s, ks, read) == (u, Ok(hits))
    ensures var (t, found) := read(u, k);
      ReadEach(s, ks + [k], read) == (t, if found.Err? then Err(found.error) else Ok(hits + if found.value.Hit? then 1 else 0))
  {
    var all := ks + [k];
    assert all[..|all| - 1] == ks && all[|all| - 1] == k;
  }

  lemma {:induction false} ReadEachStops(s: Cluster, keys: seq<Key>, read: Reader, i: nat, n: nat)
    requires i <= n <= |keys| && ReadEach(s, keys[..i], read).1.Err?
    ensures ReadEach(s, keys[..n], read) == ReadEach(s, keys[..i], read)
    decreases n
  {
    if i < n {
      ReadEachStops(s, keys, read, i, n - 1);
      assert keys[..n][..n - 1] == keys[..n - 1];
    }
  }

  lemma TouchedInstall(s0: Cluster, s: Cluster, targets: set<NodeId>, k: Key, e: Option<Value>, m: Meta,
                       left: map<NodeId, map<Key, Value>>, keys: set<Key>)
    requires Touched(s0, s, left, keys) && k in keys && forall n | n in targets && n in s0.stores :: n in left
    ensures Touched(s0, Install(s, targets, k, e, m), left, keys)
  {
    var t := Install(s, targets, k, e, m);
    forall n | n in s0.metadata ensures t.metadata[n] - keys == s0.metadata[n] - keys {
      assert s.metadata[n][k := m] - keys == s.metadata[n] - keys;
    }
  }

  lemma TouchedCollect(c: Config, s0: Cluster, s: Cluster, k: Key, up: set<NodeId>, left: map<NodeId, map<Key, Value>>, keys: set<Key>)
    requires Touched(s0, s, left, keys) && k in keys
    ensures Touched(s0, Collect(c, s, k, up), left, keys)
  {
    var t := Collect(c, s, k, up);
    if Collectable(c, s, k, up) {
      forall n | n in s0.metadata ensures t.metadata[n] - keys == s0.metadata[n] - keys {
        assert (s.metadata[n] - {k}) - keys == s.metadata[n] - keys;
      }
    }
  }

  lemma {:induction false} CollectAllTouches(c: Config, s0: Cluster, s: Cluster, ks: seq<Key>, up: set<NodeId>,
                                             left: map<NodeId, map<Key, Value>>, keys: set<Key>)
    requires Touched(s0, s, left, keys) && forall k | k in ks :: k in keys
    ensures Touched(s0, CollectAll(c, s, ks, up), left, keys)
  {
    if ks != [] {
      var init := ks[..|ks| - 1];
      assert ks[|ks| - 1] in ks && forall k | k in init :: k in ks;
      CollectAllTouches(c, s0, s, init, up, left, keys);
      TouchedCollect(c, s0, CollectAll(c, s, init, up), ks[|ks| - 1], up, left, keys);
    }
  }

  /** A read repairs only available owners of its key. */
  lemma ReadTouches(c: Config, s0: Cluster, s: Cluster, k: Key, p: Profile, up: set<NodeId>, mute: set<NodeId>, broken: set<NodeId>,
                    left: map<NodeId, map<Key, Value>>, keys: set<Key>)
    requires Touched(s0, s, left, keys) && k in keys
    requires forall n | n in Available(c, s0, k, up) && n in s0.stores :: n in left
    ensures Touched(s0, Read(c, s, k, p, up, mute, broken).0, left, keys)
  {
    var owners := Owners(c, s, k);
    var asked := Select(owners, up - mute);
    if asked != [] && !p.One? {
      var w := Winner(s, asked, k);
      forall n | n in asked ensures n in Available(c, s0, k, up) {
        SelectMember(owners, up - mute, n);
        SelectMember(owners, up, n);
      }
      RepairTouches(c, s0, s, k, w, asked, broken, left, keys);
      TouchedCollect(c, s0, Repair(s, k, w, asked, broken), k, up, left, keys);
    }
  }

  lemma RepairTouches(c: Config, s0: Cluster, s: Cluster, k: Key, w: Response, asked: seq<NodeId>, broken: set<NodeId>,
                      left: map<NodeId, map<Key, Value>>, keys: set<Key>)
    requires Touched(s0, s, left, keys) && k in keys && forall n | n in asked && n in s0.stores :: n in left
    ensures Touched(s0, Repair(s, k, w, asked, broken), left, keys)
  {
    if w.meta.Some? {
      var targets := set n | n in asked && n !in broken && NeedsRepair(s, k, w, n);
      TouchedInstall(s0, s, targets, k, if w.meta.value.deleted then None else w.entry, w.meta.value, left, keys);
    }
  }

  lemma {:induction false} ReadPrefixTouches(c: Config, s0: Cluster, ks: seq<Key>, p: Profile, up: set<NodeId>, mute: set<NodeId>,
                                             broken: set<NodeId>, left: map<NodeId, map<Key, Value>>, keys: set<Key>)
    requires Touched(s0, s0, left, keys) && forall k | k in ks :: k in keys
    requires forall k, n | k in ks && n in Available(c, s0, k, up) && n in s0.stores :: n in left
    ensures Touched(s0, ReadAll(c, s0, ks, p, up, mute, broken).0, left, keys)
  {
    if ks != [] {
      var init, k := ks[..|ks| - 1], ks[|ks| - 1];
      assert k in ks && forall j | j in init :: j in ks;
      ReadPrefixTouches(c, s0, init, p, up, mute, broken, left, keys);
      var (s1, r1) := ReadAll(c, s0, init, p, up, mute, broken);
      if r1.Ok? {
        ReadTouches(c, s0, s1, k, p, up, mute, broken, left, keys);
      }
    }
  }

  lemma ReadAllTouches(c: Config, s0: Cluster, keys: seq<Key>, p: Profile, up: set<NodeId>, mute: set<NodeId>, broken: set<NodeId>,
                       checkpoints: map<NodeId, map<Key, Value>>)
    requires checkpoints == Saved(Participants(c, s0, keys, up), s0.stores)
    ensures Touched(s0, ReadAll(c, s0, keys, p, up, mute, broken).0, checkpoints, set k | k in keys)
  {
    var all := set k | k in keys;
    forall k, n | k in keys && n in Available(c, s0, k, up) && n in s0.stores ensures n in checkpoints {
      assert n in Participants(c, s0, keys, up);
    }
    ReadPrefixTouches(c, s0, keys, p, up, mute, broken, checkpoints, all);
  }

  // ----- Burying node by node -----

  /** The tombstones of the keys `at`, stamped by their rank in `keys`. */
  function Tombstoned(keys: seq<Key>, at: set<Key>, term: nat, base: nat, leader: NodeId): map<Key, Meta> {
    map k | k in at :: Meta(Version(term, base + Rank(keys, k), leader), true)
  }

  /** What a delete leaves in one node's store. */
  function StoreShare(c: Config, s0: Cluster, s1: Cluster, keys: seq<Key>, up: set<NodeId>, faults: Faults, n: NodeId): map<Key, Value> {
    if n !in s0.stores || n !in s1.stores then map[]
    else if FaultOf(faults, n) == Fine then s1.stores[n] - KeysAt(c, s0, keys, up, n)
    else s0.stores[n]
  }

  /** What a delete leaves in one node's metadata. */
  function RowShare(c: Config, s0: Cluster, s1: Cluster, keys: seq<Key>, up: set<NodeId>, faults: Faults, n: NodeId): map<Key, Meta> {
    if n !in s0.metadata || n !in s1.metadata then map[]
    else if FaultOf(faults, n) == Fine
    then s1.metadata[n] + Tombstoned(keys, KeysAt(c, s0, keys, up, n), s1.term, s1.sequence, s1.leader)
    else Revert(s1.metadata[n], s0.metadata[n], set k | k in keys)
  }

  function StoreShares(c: Config, s0: Cluster, s1: Cluster, keys: seq<Key>, up: set<NodeId>, faults: Faults): NodeId -> map<Key, Value> {
    n => StoreShare(c, s0, s1, keys, up, faults, n)
  }

  function RowShares(c: Config, s0: Cluster, s1: Cluster, keys: seq<Key>, up: set<NodeId>, faults: Faults): NodeId -> map<Key, Meta> {
    n => RowShare(c, s0, s1, keys, up, faults, n)
  }

  ghost predicate IsShares(c: Config, s0: Cluster, s1: Cluster, keys: seq<Key>, up: set<NodeId>, faults: Faults,
                           fs: NodeId -> map<Key, Value>, fm: NodeId -> map<Key, Meta>) {
    && (forall n: NodeId {:trigger StoreShare(c, s0, s1, keys, up, faults, n)} :: fs(n) == StoreShare(c, s0, s1, keys, up, faults, n))
    && (forall n: NodeId {:trigger RowShare(c, s0, s1, keys, up, faults, n)} :: fm(n) == RowShare(c, s0, s1, keys, up, faults, n))
  }

  function Overlay<T>(m: map<NodeId, T>, done: set<NodeId>, f: NodeId -> T): map<NodeId, T> {
    map n | n in m :: if n in done then f(n) else m[n]
  }

  /** The cluster once the nodes `done` have had their share of the delete. */
  function BuriedAt(c: Config, s0: Cluster, s1: Cluster, keys: seq<Key>, up: set<NodeId>, faults: Faults, done: set<NodeId>): Cluster {
    s1.(stores := Overlay(s1.stores, done, StoreShares(c, s0, s1, keys, up, faults)),
        metadata := Overlay(s1.metadata, done, RowShares(c, s0, s1, keys, up, faults)))
  }

  function LeftOf(checkpoints: map<NodeId, map<Key, Value>>, faults: Faults, done: set<NodeId>): map<NodeId, map<Key, Value>> {
    map n | n in checkpoints && (n !in done || FaultOf(faults, n).Fine?) :: checkpoints[n]
  }

  function FineOf(faults: Faults, done: set<NodeId>): set<NodeId> {
    set n | n in done && FaultOf(faults, n).Fine?
  }

  predicate Stops(faults: Faults, n: NodeId) {
    FaultOf(faults, n).Hard? || FaultOf(faults, n).Rejects?
  }

  /** None of the first `i` nodes ends the delete. */
  predicate NoStops(faults: Faults, list: seq<NodeId>, i: nat)
    requires i <= |list|
  {
    i == 0 || (NoStops(faults, list, i - 1) && !Stops(faults, list[i - 1]))
  }

  lemma {:induction false} NoStopsAt(faults: Faults, list: seq<NodeId>, i: nat, j: nat)
    requires j < i <= |list| && NoStops(faults, list, i)
    ensures !Stops(faults, list[j])
  {
    if j < i - 1 { NoStopsAt(faults, list, i - 1, j); }
  }

  lemma AbortsIff(c: Config, s: Cluster, keys: seq<Key>, up: set<NodeId>, faults: Faults, list: seq<NodeId>, ids: set<NodeId>)
    requires ids == Participants(c, s, keys, up)
    requires (forall j | 0 <= j < |list| :: list[j] in ids) && forall n | n in ids :: n in list
    ensures Aborts(c, s, keys, up, faults) <==> exists j :: 0 <= j < |list| && Stops(faults, list[j])
  {
    if Aborts(c, s, keys, up, faults) {
      var n :| n in Participants(c, s, keys, up) && Stops(faults, n);
      var j :| 0 <= j < |list| && list[j] == n;
    }
  }

  /** Every listed node has a checkpoint of what it held. */
  ghost predicate Backed(s0: Cluster, s1: Cluster, list: seq<NodeId>, checkpoints: map<NodeId, map<Key, Value>>) {
    forall i | 0 <= i < |list| ::
      && list[i] in s0.stores && list[i] in s0.metadata && list[i] in s1.stores && list[i] in s1.metadata
      && list[i] in checkpoints && checkpoints[list[i]] == s0.stores[list[i]]
  }

  lemma BackedBy(c: Config, s0: Cluster, s1: Cluster, list: seq<NodeId>, ids: set<NodeId>, checkpoints: map<NodeId, map<Key, Value>>)
    requires WellFormed(c, s0) && SameControl(s0, s1) && ids <= s0.nodes.Keys && checkpoints == Saved(ids, s0.stores)
    requires forall i | 0 <= i < |list| :: list[i] in ids
    ensures Backed(s0, s1, list, checkpoints)
  {
    forall i | 0 <= i < |list|
      ensures list[i] in s0.stores && list[i] in s0.metadata && list[i] in s1.stores && list[i] in s1.metadata
    {
      assert list[i] in s0.nodes.Keys && list[i] in s1.stores.Keys && list[i] in s1.metadata.Keys;
    }
  }

  /** The map after the loop's first `i` nodes. */
  ghost function Overlaid<T>(m: map<NodeId, T>, list: seq<NodeId>, i: nat, f: NodeId -> T): map<NodeId, T>
    requires i <= |list|
  {
    if i == 0 then m else Overlaid(m, list, i - 1, f)[list[i - 1] := f(list[i - 1])]
  }

  ghost function LeftUpTo(checkpoints: map<NodeId, map<Key, Value>>, faults: Faults, list: seq<NodeId>, i: nat): map<NodeId, map<Key, Value>>
    requires i <= |list|
  {
    if i == 0 then checkpoints
    else if FaultOf(faults, list[i - 1]).Fine? then LeftUpTo(checkpoints, faults, list, i - 1)
    else LeftUpTo(checkpoints, faults, list, i - 1) - {list[i - 1]}
  }

  ghost function FineUpTo(faults: Faults, list: seq<NodeId>, i: nat): set<NodeId>
    requires i <= |list|
  {
    if i == 0 then {}
    else FineUpTo(faults, list, i - 1) + if FaultOf(faults, list[i - 1]).Fine? then {list[i - 1]} else {}
  }

  /** What the delete loop is given. */
  ghost predicate Ready(c: Config, s0: Cluster, s1: Cluster, keys: seq<Key>, up: set<NodeId>, faults: Faults, list: seq<NodeId>,
                        checkpoints: map<NodeId, map<Key, Value>>, rows: map<NodeId, map<Key, Meta>>,
                        fs: NodeId -> map<Key, Value>, fm: NodeId -> map<Key, Meta>) {
    Distinct(list) && Backed(s0, s1, list, checkpoints) && rows == s0.metadata && IsShares(c, s0, s1, keys, up, faults, fs, fm)
  }

  /** The loop's state after its first `i` nodes. */
  ghost predicate BuriedTo(s1: Cluster, list: seq<NodeId>, i: nat, fs: NodeId -> map<Key, Value>, fm: NodeId -> map<Key, Meta>,
                           faults: Faults, checkpoints: map<NodeId, map<Key, Value>>, stores: map<NodeId, map<Key, Value>>,
                           metadata: map<NodeId, map<Key, Meta>>, left: map<NodeId, map<Key, Value>>, succeeded: set<NodeId>)
    requires i <= |list|
  {
    && stores == Overlaid(s1.stores, list, i, fs) && metadata == Overlaid(s1.metadata, list, i, fm)
    && left == LeftUpTo(checkpoints, faults, list, i) && succeeded == FineUpTo(faults, list, i)
  }

  /** A node still to come is as the reads left it. */
  lemma {:induction false} NotYet<T>(m: map<NodeId, T>, list: seq<NodeId>, i: nat, j: nat, f: NodeId -> T)
    requires i <= j < |list| && Distinct(list) && list[j] in m
    ensures var r := Overlaid(m, list, i, f); list[j] in r && r[list[j]] == m[list[j]]
  {
    if i > 0 {
      NotYet(m, list, i - 1, j, f);
      assert list[i - 1] != list[j];
    }
  }

  lemma {:induction false} OverlaidIs<T>(m: map<NodeId, T>, list: seq<NodeId>, i: nat, f: NodeId -> T)
    requires i <= |list| && Distinct(list) && forall j | 0 <= j < |list| :: list[j] in m
    ensures Overlaid(m, list, i, f) == Overlay(m, Firsts(list, i), f)
  {
    if i == 0 {
      assert Firsts(list, 0) == {};
    } else {
      OverlaidIs(m, list, i - 1, f);
      FirstsNext(list, i - 1);
      OverlayNext(m, Firsts(list, i - 1), f, list[i - 1]);
    }
  }

  lemma OverlayNext<T>(m: map<NodeId, T>, done: set<NodeId>, f: NodeId -> T, n: NodeId)
    requires n in m
    ensures Overlay(m, done + {n}, f) == Overlay(m, done, f)[n := f(n)]
  {
  }

  lemma {:induction false} LeftSoFar(list: seq<NodeId>, i: nat, checkpoints: map<NodeId, map<Key, Value>>, faults: Faults)
    requires i <= |list| && Distinct(list)
    ensures LeftUpTo(checkpoints, faults, list, i) == LeftOf(checkpoints, faults, Firsts(list, i))
    ensures FineUpTo(faults, list, i) == FineOf(faults, Firsts(list, i))
  {
    if i == 0 {
      assert Firsts(list, 0) == {};
      assert LeftOf(checkpoints, faults, {}) == checkpoints;
    } else {
      LeftSoFar(list, i - 1, checkpoints, faults);
      FirstsNext(list, i - 1);
      LeftNext(checkpoints, faults, Firsts(list, i - 1), list[i - 1]);
    }
  }

  ghost function Firsts(list: seq<NodeId>, i: nat): set<NodeId> {
    set j | 0 <= j < i && j < |list| :: list[j]
  }

  lemma FirstsNext(list: seq<NodeId>, i: nat)
    requires i < |list| && Distinct(list)
    ensures Firsts(list, i + 1) == Firsts(list, i) + {list[i]} && list[i] !in Firsts(list, i)
  {
  }

  lemma FirstsWithin(list: seq<NodeId>, i: nat, ids: set<NodeId>)
    requires forall j | 0 <= j < |list| :: list[j] in ids
    ensures Firsts(list, i) <= ids
  {
  }

  lemma FirstsAll(list: seq<NodeId>, ids: set<NodeId>)
    requires (forall j | 0 <= j < |list| :: list[j] in ids) && forall n | n in ids :: n in list
    ensures Firsts(list, |list|) == ids
  {
    forall n | n in ids ensures n in Firsts(list, |list|) {
      var j :| 0 <= j < |list| && list[j] == n;
    }
  }

  lemma ParticipantsKnown(c: Config, s: Cluster, keys: seq<Key>, now: int)
    requires WellFormed(c, s)
    ensures Participants(c, s, keys, Up(c, s, now)) <= s.nodes.Keys
  {
    forall n | n in Participants(c, s, keys, Up(c, s, now)) ensures n in s.nodes {
      var k :| k in keys && n in Available(c, s, k, Up(c, s, now));
      SelectMember(Owners(c, s, k), Up(c, s, now), n);
    }
  }

  lemma LeftNext(checkpoints: map<NodeId, map<Key, Value>>, faults: Faults, done: set<NodeId>, n: NodeId)
    requires n !in done
    ensures LeftOf(checkpoints, faults, done + {n})
         == if FaultOf(faults, n).Fine? then LeftOf(checkpoints, faults, done) else LeftOf(checkpoints, faults, done) - {n}
    ensures FineOf(faults, done + {n}) == FineOf(faults, done) + if FaultOf(faults, n).Fine? then {n} else {}
  {
  }

  lemma RowOutside(row: map<Key, Meta>, more: map<Key, Meta>, keys: set<Key>)
    requires more.Keys <= keys
    ensures (row + more) - keys == row - keys
  {
  }

  lemma RevertOutside(row: map<Key, Meta>, base: map<Key, Meta>, keys: set<Key>)
    ensures Revert(row, base, keys) - keys == row - keys
  {
  }

  /** A node's share differs from what it had before only in the selected keys' metadata, and in its store only if all went well. */
  lemma ShareOutside(c: Config, s0: Cluster, s1: Cluster, keys: seq<Key>, up: set<NodeId>, faults: Faults, n: NodeId)
    requires n in s0.stores && n in s0.metadata && n in s1.stores && n in s1.metadata
    ensures var all := set k | k in keys;
      && RowShare(c, s0, s1, keys, up, faults, n) - all == s1.metadata[n] - all
      && (!FaultOf(faults, n).Fine? ==> StoreShare(c, s0, s1, keys, up, faults, n) == s0.stores[n])
  {
    var all := set k | k in keys;
    RowOutside(s1.metadata[n], Tombstoned(keys, KeysAt(c, s0, keys, up, n), s1.term, s1.sequence, s1.leader), all);
    RevertOutside(s1.metadata[n], s0.metadata[n], all);
  }

  lemma BuriedCells(c: Config, s0: Cluster, s1: Cluster, keys: seq<Key>, up: set<NodeId>, faults: Faults, done: set<NodeId>, n: NodeId)
    requires n in s0.stores && n in s0.metadata && n in s1.stores && n in s1.metadata
    ensures var t, all := BuriedAt(c, s0, s1, keys, up, faults, done), (set k | k in keys);
      && t.metadata[n] - all == s1.metadata[n] - all
      && (n !in done ==> t.stores[n] == s1.stores[n])
      && (n in done && !FaultOf(faults, n).Fine? ==> t.stores[n] == s0.stores[n])
  {
    ShareOutside(c, s0, s1, keys, up, faults, n);
  }

  /** Part of the way, everything changed can still be put back. */
  lemma BuriedTouches(c: Config, s0: Cluster, s1: Cluster, keys: seq<Key>, up: set<NodeId>, faults: Faults, done: set<NodeId>,
                      checkpoints: map<NodeId, map<Key, Value>>)
    requires WellFormed(c, s0) && Touched(s0, s1, checkpoints, set k | k in keys)
    requires checkpoints == Saved(Participants(c, s0, keys, up), s0.stores) && done <= Participants(c, s0, keys, up)
    ensures Touched(s0, BuriedAt(c, s0, s1, keys, up, faults, done), LeftOf(checkpoints, faults, done), set k | k in keys)
  {
    var all := set k | k in keys;
    var t, left := BuriedAt(c, s0, s1, keys, up, faults, done), LeftOf(checkpoints, faults, done);
    assert SameControl(s0, t);
    forall n | n in s0.metadata ensures t.metadata[n] - all == s0.metadata[n] - all {
      BuriedCells(c, s0, s1, keys, up, faults, done, n);
    }
    forall n | n in s0.stores && n !in left ensures t.stores[n] == s0.stores[n] {
      BuriedCells(c, s0, s1, keys, up, faults, done, n);
    }
  }

  lemma BuriedTouched(c: Config, s0: Cluster, s1: Cluster, keys: seq<Key>, up: set<NodeId>, faults: Faults, list: seq<NodeId>, k: nat,
                      ids: set<NodeId>, checkpoints: map<NodeId, map<Key, Value>>, b: Cluster, t: Cluster)
    requires WellFormed(c, s0) && Touched(s0, s1, checkpoints, set x | x in keys) && ids == Participants(c, s0, keys, up)
    requires checkpoints == Saved(ids, s0.stores) && k <= |list|
    requires (forall j | 0 <= j < |list| :: list[j] in ids) && forall n | n in ids :: n in list
    requires b == BuriedAt(c, s0, s1, keys, up, faults, Firsts(list, k)) && t == b.(sequence := t.sequence)
    ensures Touched(s0, t, LeftOf(checkpoints, faults, Firsts(list, k)), set x | x in keys)
    ensures k == |list| ==> Firsts(list, k) == ids
    ensures NoStops(faults, list, |list|) ==> !Aborts(c, s0, keys, up, faults)
    ensures k > 0 && Stops(faults, list[k - 1]) ==> Aborts(c, s0, keys, up, faults)
  {
    FirstsWithin(list, k, ids);
    FirstsAll(list, ids);
    BuriedTouches(c, s0, s1, keys, up, faults, Firsts(list, k), checkpoints);
    TouchedFrame(s0, b, t, LeftOf(checkpoints, faults, Firsts(list, k)), set x | x in keys);
    AbortsIff(c, s0, keys, up, faults, list, ids);
    if NoStops(faults, list, |list|) {
      forall j | 0 <= j < |list| ensures !Stops(faults, list[j]) { NoStopsAt(faults, list, |list|, j); }
    }
  }

  lemma SharesAre(c: Config, s0: Cluster, s1: Cluster, keys: seq<Key>, up: set<NodeId>, faults: Faults)
    ensures IsShares(c, s0, s1, keys, up, faults, StoreShares(c, s0, s1, keys, up, faults), RowShares(c, s0, s1, keys, up, faults))
  {
  }

  /** What the loop has done, in whatever order it took the nodes. */
  lemma BuryOutcome(c: Config, s0: Cluster, s1: Cluster, keys: seq<Key>, up: set<NodeId>, faults: Faults, list: seq<NodeId>, k: nat,
                    ids: set<NodeId>, checkpoints: map<NodeId, map<Key, Value>>, b: Cluster, t: Cluster)
    requires WellFormed(c, s0) && Touched(s0, s1, checkpoints, set x | x in keys) && ids == Participants(c, s0, keys, up)
    requires checkpoints == Saved(ids, s0.stores) && k <= |list| && Distinct(list) && Backed(s0, s1, list, checkpoints)
    requires (forall j | 0 <= j < |list| :: list[j] in ids) && forall n | n in ids :: n in list
    requires b == s1.(stores := Overlaid(s1.stores, list, k, StoreShares(c, s0, s1, keys, up, faults)),
                      metadata := Overlaid(s1.metadata, list, k, RowShares(c, s0, s1, keys, up, faults)))
    requires t == b.(sequence := t.sequence)
    ensures Touched(s0, t, LeftUpTo(checkpoints, faults, list, k), set x | x in keys)
    ensures k == |list| ==>
      t == BuriedAt(c, s0, s1, keys, up, faults, ids).(sequence := t.sequence) && FineUpTo(faults, list, k) == FineOf(faults, ids)
    ensures NoStops(faults, list, |list|) ==> !Aborts(c, s0, keys, up, faults)
    ensures k > 0 && Stops(faults, list[k - 1]) ==> Aborts(c, s0, keys, up, faults)
  {
    OverlaidIs(s1.stores, list, k, StoreShares(c, s0, s1, keys, up, faults));
    OverlaidIs(s1.metadata, list, k, RowShares(c, s0, s1, keys, up, faults));
    LeftSoFar(list, k, checkpoints, faults);
    BuriedTouched(c, s0, s1, keys, up, faults, list, k, ids, checkpoints, b, t);
  }

  lemma BuryStore(c: Config, s0: Cluster, s1: Cluster, keys: seq<Key>, up: set<NodeId>, faults: Faults, n: NodeId)
    requires n in s0.stores && n in s0.metadata && n in s1.stores && n in s1.metadata
    ensures Bury(c, s0, s1, keys, up, faults).stores[n]
         == if n in Participants(c, s0, keys, up) then StoreShare(c, s0, s1, keys, up, faults, n) else s1.stores[n]
  {
  }

  lemma BuryRow(c: Config, s0: Cluster, s1: Cluster, keys: seq<Key>, up: set<NodeId>, faults: Faults, n: NodeId)
    requires n in s0.stores && n in s0.metadata && n in s1.stores && n in s1.metadata
    ensures Bury(c, s0, s1, keys, up, faults).metadata[n]
         == if n in Participants(c, s0, keys, up) then RowShare(c, s0, s1, keys, up, faults, n) else s1.metadata[n]
  {
    TombstonesSame(s1, keys, KeysAt(c, s0, keys, up, n));
  }

  lemma TombstonesSame(s1: Cluster, keys: seq<Key>, at: set<Key>)
    ensures Tombstoned(keys, at, s1.term, s1.sequence, s1.leader) == map k | k in at :: Meta(Stamp(s1, Rank(keys, k)), true)
  {
  }

  lemma BuryIs(c: Config, s0: Cluster, s1: Cluster, keys: seq<Key>, up: set<NodeId>, faults: Faults)
    requires SameControl(s0, s1) && s0.stores.Keys == s0.metadata.Keys
    ensures Bury(c, s0, s1, keys, up, faults)
         == BuriedAt(c, s0, s1, keys, up, faults, Participants(c, s0, keys, up))
            .(sequence := s1.sequence + |keys|, catalog := s1.catalog + set k | k in keys)
  {
    var b, t := Bury(c, s0, s1, keys, up, faults), BuriedAt(c, s0, s1, keys, up, faults, Participants(c, s0, keys, up));
    SameMaps(c, s0, s1, keys, up, faults, b, t);
  }

  lemma SameMaps(c: Config, s0: Cluster, s1: Cluster, keys: seq<Key>, up: set<NodeId>, faults: Faults, b: Cluster, t: Cluster)
    requires SameControl(s0, s1) && s0.stores.Keys == s0.metadata.Keys
    requires b == Bury(c, s0, s1, keys, up, faults)
    requires t == BuriedAt(c, s0, s1, keys, up, faults, Participants(c, s0, keys, up))
    ensures b.stores == t.stores && b.metadata == t.metadata
  {
    assert b.stores.Keys == s1.stores.Keys == t.stores.Keys && b.metadata.Keys == s1.metadata.Keys == t.metadata.Keys;
    forall n | n in s1.stores.Keys ensures b.stores[n] == t.stores[n] && b.metadata[n] == t.metadata[n] {
      BuryStore(c, s0, s1, keys, up, faults, n);
      BuryRow(c, s0, s1, keys, up, faults, n);
    }
  }

  lemma SameFrameWellFormed(c: Config, s: Cluster, t: Cluster)
    requires WellFormed(c, s) && SameControl(s, t)
    ensures WellFormed(c, t)
  {
  }

  lemma SameUp(c: Config, s: Cluster, t: Cluster, now: int)
    requires s.nodes == t.nodes
    ensures Up(c, s, now) == Up(c, t, now)
  {
  }

  lemma SameKeysAt(c: Config, s: Cluster, t: Cluster, keys: seq<Key>, now: int, n: NodeId)
    requires s.ring == t.ring && s.nodes == t.nodes
    ensures Up(c, s, now) == Up(c, t, now) && KeysAt(c, s, keys, Up(c, s, now), n) == KeysAt(c, t, keys, Up(c, t, now), n)
  {
  }

  lemma {:induction false} SelectSame(ns: seq<NodeId>, a: set<NodeId>, b: set<NodeId>)
    requires forall n | n in ns :: n in a <==> n in b
    ensures Select(ns, a) == Select(ns, b)
  {
    if ns != [] {
      var init := ns[..|ns| - 1];
      assert ns[|ns| - 1] in ns && forall n | n in init :: n in ns;
      SelectSame(init, a, b);
    }
  }

  lemma BuriedCount(c: Config, s: Cluster, keys: seq<Key>, up: set<NodeId>, faults: Faults, k: Key)
    requires k in keys
    ensures var available := Available(c, s, k, up);
      Select(available, FineOf(faults, Participants(c, s, keys, up))) == Select(available, WithFault(available, faults, Fine))
  {
    var available := Available(c, s, k, up);
    forall n | n in available
      ensures n in FineOf(faults, Participants(c, s, keys, up)) <==> n in WithFault(available, faults, Fine)
    {
      assert n in Participants(c, s, keys, up);
    }
    SelectSame(available, FineOf(faults, Participants(c, s, keys, up)), WithFault(available, faults, Fine));
  }
}
