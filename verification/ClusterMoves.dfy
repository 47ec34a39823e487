/**
 The moves of a rebalance, one by one: what each streams and where it lands, which cells it
 changes, when it collects a tombstone, and that a move which fails changes nothing.
 */
module ClusterMoves {
  import opened HashRing
  import opened ClusterModel
  import opened ClusterInvariant
  import opened ClusterSnapshots

  /** The record that a move streams. */
  function Streamed(s: Cluster, m: Move): Record {
    var meta, e := MetaAt(s, m.source, m.key), EntryAt(s, m.source, m.key);
    if meta.None? then Record(m.key, Version(0, 0, m.source), false, e)
    else Record(m.key, meta.value.version, meta.value.deleted || e.None?, e)
  }

  predicate Lands(s: Cluster, m: Move) {
    Accepts(s, m.target, Streamed(s, m))
  }

  function Landed(s: Cluster, m: Move): Cluster {
    if Lands(s, m) then InstallRecord(s, m.target, Streamed(s, m)) else s
  }

  /** The move gives a tombstone to the last owner that lacked it. */
  predicate Collects(c: Config, s: Cluster, m: Move, now: int) {
    Lands(s, m) && Streamed(s, m).deleted && Collectable(c, Landed(s, m), m.key, Up(c, s, now))
  }

  lemma SnapshotIs(s: Cluster, m: Move)
    requires MetaAt(s, m.source, m.key).Some?
    ensures TakeSnapshot(s, m.source, [m.key]).records == [Streamed(s, m)]
  {
    assert RecordsOf(s, m.source, []) == [];
  }

  lemma OneRecord(c: Config, s: Cluster, n: NodeId, r: Record, up: set<NodeId>)
    ensures InstallAll(s, s, n, [r]) == if Accepts(s, n, r) then InstallRecord(s, n, r) else s
    ensures Gravestones(s, n, [r]) == if Accepts(s, n, r) && r.deleted then [r.key] else []
    ensures forall t: Cluster :: CollectAll(c, t, [r.key], up) == Collect(c, t, r.key, up)
  {
    assert InstallAll(s, s, n, []) == s;
    assert Gravestones(s, n, []) == [];
    forall t: Cluster ensures CollectAll(c, t, [r.key], up) == Collect(c, t, r.key, up) {
      assert CollectAll(c, t, [], up) == t;
    }
  }

  /** A move that succeeds installs the record and may collect; one that fails changes nothing. */
  lemma MoveIs(c: Config, s: Cluster, m: Move, fails: bool, now: int)
    ensures var (t, ok) := RunMove(c, s, m, fails, now);
      if !ok then t == s
      else
        && CanMove(c, s, m, now)
        && t == if Lands(s, m) && Streamed(s, m).deleted then Collect(c, Landed(s, m), m.key, Up(c, s, now)) else Landed(s, m)
  {
    if CanMove(c, s, m, now) {
      var r := Streamed(s, m);
      SnapshotIs(s, m);
      assert [r][0] == r;
      OneRecord(c, s, m.target, r, Up(c, s, now));
    }
  }

  // ----- What a move keeps -----

  /** Records and the watermark may change, the catalogue may shrink; nothing else. */
  predicate SameFrame(s: Cluster, t: Cluster) {
    SameShape(s, t) && t.sequence == s.sequence && t.catalog <= s.catalog && NotLower(s.watermark, t.watermark)
  }

  lemma MoveFrame(c: Config, s: Cluster, m: Move, fails: bool, now: int)
    ensures SameFrame(s, RunMove(c, s, m, fails, now).0)
  {
    MoveIs(c, s, m, fails, now);
  }

  lemma MoveKeeps(c: Config, s: Cluster, h: History, m: Move, fails: bool, now: int)
    requires Inv(c, s, h)
    ensures var t := RunMove(c, s, m, fails, now).0;
      Inv(c, t, h) && (QuorumInv(c, s, h) ==> QuorumInv(c, t, h))
  {
    if CanMove(c, s, m, now) {
      RecordsOfOk(c, s, h, m.source, [m.key]);
      BootstrapKeeps(c, s, h, m.target, TakeSnapshot(s, m.source, [m.key]), fails, now);
    }
  }

  lemma {:induction false} MovesKeep(c: Config, s: Cluster, h: History, moves: seq<Move>, broken: set<nat>, now: int)
    requires Inv(c, s, h)
    ensures var t := RunMoves(c, s, moves, broken, now).0;
      Inv(c, t, h) && (QuorumInv(c, s, h) ==> QuorumInv(c, t, h))
  {
    if moves != [] {
      var init := moves[..|moves| - 1];
      MovesKeep(c, s, h, init, broken, now);
      MoveKeeps(c, RunMoves(c, s, init, broken, now).0, h, moves[|moves| - 1], |moves| - 1 in broken, now);
    }
  }

  lemma {:induction false} MovesFrame(c: Config, s: Cluster, moves: seq<Move>, broken: set<nat>, now: int)
    ensures SameFrame(s, RunMoves(c, s, moves, broken, now).0)
  {
    if moves != [] {
      var init := moves[..|moves| - 1];
      MovesFrame(c, s, init, broken, now);
      MoveFrame(c, RunMoves(c, s, init, broken, now).0, moves[|moves| - 1], |moves| - 1 in broken, now);
    }
  }

  // ----- Cells after a move -----

  lemma LandedCell(s: Cluster, m: Move, n: NodeId, k: Key)
    requires s.stores.Keys == s.metadata.Keys
    ensures var t, r := Landed(s, m), Streamed(s, m);
      if Lands(s, m) && n == m.target && k == m.key && n in s.stores
      then MetaAt(t, n, k) == Some(Meta(r.version, Deletes(r))) && EntryAt(t, n, k) == (if Deletes(r) then None else r.entry)
      else MetaAt(t, n, k) == MetaAt(s, n, k) && EntryAt(t, n, k) == EntryAt(s, n, k)
  {
  }

  lemma CollectCell(c: Config, s: Cluster, k: Key, up: set<NodeId>, n: NodeId, j: Key)
    ensures var t := Collect(c, s, k, up);
      && EntryAt(t, n, j) == EntryAt(s, n, j)
      && MetaAt(t, n, j) == if j == k && Collectable(c, s, k, up) then None else MetaAt(s, n, j)
  {
  }

  /** The cells of `k` after one move. */
  lemma MoveCell(c: Config, s: Cluster, m: Move, fails: bool, now: int, n: NodeId, k: Key)
    requires s.stores.Keys == s.metadata.Keys
    ensures var (t, ok) := RunMove(c, s, m, fails, now);
      && EntryAt(t, n, k) == EntryAt(if ok then Landed(s, m) else s, n, k)
      && MetaAt(t, n, k) == if ok && k == m.key && Collects(c, s, m, now) then None
                            else MetaAt(if ok then Landed(s, m) else s, n, k)
  {
    MoveIs(c, s, m, fails, now);
    CollectCell(c, Landed(s, m), m.key, Up(c, s, now), n, k);
  }

  /** A move of another key, or of a key without metadata, leaves the cells of `k` alone. */
  lemma MoveElsewhere(c: Config, s: Cluster, m: Move, fails: bool, now: int, k: Key)
    requires WellFormed(c, s) && (k != m.key || Vacant(s, k))
    ensures SameKey(s, RunMove(c, s, m, fails, now).0, k)
  {
    LatestIsMax(c, s, m.key);
    var t := RunMove(c, s, m, fails, now).0;
    forall n ensures MetaAt(s, n, k) == MetaAt(t, n, k) && EntryAt(s, n, k) == EntryAt(t, n, k) {
      if k != m.key {
        MoveCell(c, s, m, fails, now, n, k);
        LandedCell(s, m, n, k);
      }
    }
  }

  lemma FrameWellFormed(c: Config, s: Cluster, t: Cluster)
    requires WellFormed(c, s) && SameShape(s, t)
    ensures WellFormed(c, t)
  {
  }

  lemma SameKeyTrans(s: Cluster, t: Cluster, u: Cluster, k: Key)
    requires SameKey(s, t, k) && SameKey(t, u, k)
    ensures SameKey(s, u, k)
  {
  }

  /** A key without metadata is not touched by any moves. */
  lemma {:induction false} MovesVacant(c: Config, s: Cluster, moves: seq<Move>, broken: set<nat>, now: int, k: Key)
    requires WellFormed(c, s) && (Vacant(s, k) || forall m | m in moves :: m.key != k)
    ensures SameKey(s, RunMoves(c, s, moves, broken, now).0, k)
  {
    if moves != [] {
      var init, m := moves[..|moves| - 1], moves[|moves| - 1];
      assert m in moves && forall x | x in init :: x in moves;
      MovesVacant(c, s, init, broken, now, k);
      MovesFrame(c, s, init, broken, now);
      var u := RunMoves(c, s, init, broken, now).0;
      FrameWellFormed(c, s, u);
      VacantSame(s, u, k);
      MoveElsewhere(c, u, m, |moves| - 1 in broken, now, k);
    }
  }

  lemma VacantSame(s: Cluster, t: Cluster, k: Key)
    requires SameKey(s, t, k)
    ensures Vacant(s, k) <==> Vacant(t, k)
  {
    assert forall n :: MetaAt(s, n, k) == MetaAt(t, n, k);
  }

  // ----- The catalogue -----

  lemma MoveCatalog(c: Config, s: Cluster, m: Move, fails: bool, now: int)
    ensures var (t, ok) := RunMove(c, s, m, fails, now);
      && t.catalog == (if ok && Collects(c, s, m, now) then s.catalog - {m.key} else s.catalog)
      && t.watermark == (if ok && Collects(c, s, m, now) then Raise(s.watermark, Latest(Landed(s, m), m.key).value.version)
                         else s.watermark)
  {
    MoveIs(c, s, m, fails, now);
  }

  /** One more of the moves. */
  lemma RunNext(c: Config, s: Cluster, moves: seq<Move>, broken: set<nat>, now: int, i: nat)
    requires i < |moves|
    ensures var (u, ok) := RunMoves(c, s, moves[..i], broken, now);
      RunMoves(c, s, moves[..i + 1], broken, now) == if ok then RunMove(c, u, moves[i], i in broken, now) else (u, false)
  {
    assert moves[..i + 1][..i] == moves[..i];
  }

  predicate Covers(watermark: Option<Version>, v: Version) {
    watermark.Some? && !watermark.value.Less(v)
  }

  lemma RaiseIsBase(a: Option<Version>, b: Option<Version>, v: Version)
    requires NotLower(a, b)
    ensures Raise(b, v) == a <==> b == a && Covers(a, v)
  {
  }

  lemma StepWatermark(c: Config, s: Cluster, u: Cluster, m: Move, fails: bool, now: int)
    requires NotLower(s.watermark, u.watermark)
    ensures var (t, ok) := RunMove(c, u, m, fails, now);
      t.watermark == s.watermark <==>
        u.watermark == s.watermark && (ok && Collects(c, u, m, now) ==> Covers(s.watermark, Latest(Landed(u, m), m.key).value.version))
  {
    MoveCatalog(c, u, m, fails, now);
    if Collects(c, u, m, now) {
      RaiseIsBase(s.watermark, u.watermark, Latest(Landed(u, m), m.key).value.version);
    }
  }

  // ----- Moves that stop -----

  /** After a move that fails, the rest are not made. */
  lemma {:induction false} StopsAt(c: Config, s: Cluster, moves: seq<Move>, broken: set<nat>, now: int, i: nat)
    requires i <= |moves| && !RunMoves(c, s, moves[..i], broken, now).1
    ensures RunMoves(c, s, moves, broken, now) == RunMoves(c, s, moves[..i], broken, now)
    decreases |moves|
  {
    if i == |moves| {
      assert moves[..i] == moves;
    } else {
      var init := moves[..|moves| - 1];
      assert init[..i] == moves[..i];
      StopsAt(c, s, init, broken, now, i);
    }
  }
}
