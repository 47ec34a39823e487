/**
 Which tombstones the moves of a rebalance collect, told from the state before them: those
 that all owners, being up, have already or are brought by the moves.
 */
module ClusterCollected {
  import opened HashRing
  import opened ClusterModel
  import opened ClusterInvariant
  import opened ClusterSnapshots
  import opened ClusterMoves
  import opened ClusterRebalance
  import opened ClusterSwitch

  predicate MovedKey(moves: seq<Move>, k: Key) {
    exists m | m in moves :: m.key == k
  }

  /** Node `n` has the newest version of `k` in `s`, or one of `moves` brings it. */
  predicate Reached(s: Cluster, moves: seq<Move>, n: NodeId, k: Key) {
    HoldsLatest(s, n, k) || Planned(moves, k, n)
  }

  predicate Tombstone(s: Cluster, k: Key) {
    Latest(s, k).Some? && Latest(s, k).value.deleted
  }

  predicate OwnersReached(c: Config, s: Cluster, moves: seq<Move>, now: int, k: Key) {
    forall n | n in Owners(c, s, k) :: n in Up(c, s, now) && Reached(s, moves, n, k)
  }

  /** What the moves collect once they are made: some are of `k`, and after them every owner has its tombstone. */
  predicate Collected(c: Config, s: Cluster, moves: seq<Move>, now: int, k: Key) {
    Tombstone(s, k) && MovedKey(moves, k) && OwnersReached(c, s, moves, now, k)
  }

  // ----- Keeping track of one key -----

  /** In `u` the newest version of `k` is the tombstone it was in `s`, where `done` brought it. */
  ghost predicate SameGrave(s: Cluster, u: Cluster, done: seq<Move>, k: Key) {
    && Tombstone(u, k) && Tombstone(s, k) && Latest(u, k).value.version == Latest(s, k).value.version
    && forall n :: HoldsLatest(u, n, k) <==> Reached(s, done, n, k)
  }

  /** State `u` after the moves `done`, which have collected `k` or not. */
  ghost predicate Track(c: Config, s: Cluster, u: Cluster, done: seq<Move>, now: int, k: Key, collected: bool) {
    && (collected <==> Collected(c, s, done, now, k))
    && (collected || Latest(s, k).None? ==> Vacant(u, k))
    && (!collected && Tombstone(s, k) ==> SameGrave(s, u, done, k))
  }

  lemma PlannedNext(done: seq<Move>, m: Move, k: Key, n: NodeId)
    ensures Planned(done + [m], k, n) <==> Planned(done, k, n) || (m.key == k && m.target == n)
    ensures MovedKey(done + [m], k) <==> MovedKey(done, k) || m.key == k
  {
    assert m in done + [m];
    forall x | x in done ensures x in done + [m] {
    }
  }

  lemma HoldsSame(s: Cluster, t: Cluster, n: NodeId, k: Key)
    requires SameKey(s, t, k) && s.order == t.order
    ensures Latest(s, k) == Latest(t, k) && (HoldsLatest(s, n, k) <==> HoldsLatest(t, n, k))
  {
    SameKeyLatest(s, t, s.order, k);
    assert MetaAt(s, n, k) == MetaAt(t, n, k) && EntryAt(s, n, k) == EntryAt(t, n, k);
  }

  /** A move of another key. */
  lemma TrackOther(c: Config, s: Cluster, u: Cluster, t: Cluster, done: seq<Move>, m: Move, now: int, k: Key, collected: bool)
    requires Track(c, s, u, done, now, k, collected) && SameKey(u, t, k) && u.order == t.order && m.key != k
    ensures Track(c, s, t, done + [m], now, k, collected)
  {
    forall n ensures Planned(done + [m], k, n) == Planned(done, k, n) && MovedKey(done + [m], k) == MovedKey(done, k) {
      PlannedNext(done, m, k, n);
    }
    assert OwnersReached(c, s, done + [m], now, k) == OwnersReached(c, s, done, now, k);
    VacantSame(u, t, k);
    if !collected && Tombstone(s, k) {
      HoldsSame(u, t, 0, k);
      forall n ensures HoldsLatest(t, n, k) <==> Reached(s, done + [m], n, k) {
        HoldsSame(u, t, n, k);
        assert HoldsLatest(u, n, k) <==> Reached(s, done, n, k);
      }
    }
  }

  // ----- A move of the key itself -----

  /** Only a key whose newest metadata is a tombstone is collected. */
  lemma CollectedIsTombstone(c: Config, s: Cluster, u: Cluster, h: History, m: Move, now: int)
    requires Inv(c, s, h) && Inv(c, u, h) && CanMove(c, u, m, now) && Collects(c, u, m, now)
    ensures Latest(s, m.key).Some? ==> Latest(s, m.key).value.deleted
  {
    RecordsOfOk(c, u, h, m.source, [m.key]);
    SnapshotIs(u, m);
    assert Streamed(u, m) in [Streamed(u, m)];
    AcceptedIsNewest(c, u, h, m.target, Streamed(u, m));
    assert KeyOk(c, s, h, m.key);
    LatestIsLast(c, s, h, m.key);
  }

  /** A tombstone is always accepted. */
  lemma GraveLands(c: Config, u: Cluster, h: History, m: Move, now: int)
    requires Inv(c, u, h) && CanMove(c, u, m, now) && Tombstone(u, m.key)
    ensures Lands(u, m) && Streamed(u, m).deleted && Deletes(Streamed(u, m))
  {
    assert KeyOk(c, u, h, m.key);
    StreamedIsLatest(c, u, h, m, now);
    LatestIsMax(c, u, m.key);
    if Holds(u, m.target, m.key, Latest(u, m.key).value.version) {
      VersionDecides(c, u, h, m.target, m.key);
    }
  }

  lemma GraveInv(c: Config, u: Cluster, h: History, m: Move, now: int)
    requires Inv(c, u, h) && CanMove(c, u, m, now) && Tombstone(u, m.key)
    ensures Inv(c, Landed(u, m), h)
  {
    GraveLands(c, u, h, m, now);
    SnapshotIs(u, m);
    RecordsOfOk(c, u, h, m.source, [m.key]);
    assert Streamed(u, m) in [Streamed(u, m)];
    InstallRecordKeeps(c, u, h, m.target, Streamed(u, m));
  }

  /** Once it has landed, the target holds the tombstone too, and nothing else has changed. */
  lemma GraveLanded(c: Config, s: Cluster, u: Cluster, h: History, done: seq<Move>, m: Move, now: int)
    requires Inv(c, u, h) && CanMove(c, u, m, now) && SameGrave(s, u, done, m.key)
    ensures SameGrave(s, Landed(u, m), done + [m], m.key)
  {
    var t, k := Landed(u, m), m.key;
    GraveLands(c, u, h, m, now);
    GraveInv(c, u, h, m, now);
    LandedLatest(c, u, h, m, now);
    StreamedIsLatest(c, u, h, m, now);
    assert KeyOk(c, u, h, k) && KeyOk(c, t, h, k);
    LatestIsLast(c, u, h, k);
    LatestIsLast(c, t, h, k);
    forall n ensures HoldsLatest(t, n, k) <==> Reached(s, done + [m], n, k) {
      LandedCell(u, m, n, k);
      PlannedNext(done, m, k, n);
      assert m.target in u.stores by { assert m.target in u.stores.Keys; }
      assert HoldsLatest(u, n, k) <==> Reached(s, done, n, k);
    }
  }

  /** It is collected at once if and only if every owner is up and now has it. */
  lemma GraveCollects(c: Config, s: Cluster, u: Cluster, h: History, done: seq<Move>, m: Move, now: int)
    requires Inv(c, u, h) && CanMove(c, u, m, now) && SameGrave(s, u, done, m.key) && SameFrame(s, u)
    ensures Collects(c, u, m, now) <==> Collected(c, s, done + [m], now, m.key)
  {
    var t, k := Landed(u, m), m.key;
    GraveLands(c, u, h, m, now);
    GraveLanded(c, s, u, h, done, m, now);
    PlannedNext(done, m, k, m.target);
    assert Up(c, u, now) == Up(c, s, now) && Owners(c, t, k) == Owners(c, s, k);
    forall n ensures HoldsLatest(t, n, k) == HasRecord(t, n, k, Latest(t, k).value) == Reached(s, done + [m], n, k) {
    }
  }

  lemma TrackOwn(c: Config, s: Cluster, u: Cluster, h: History, done: seq<Move>, m: Move, fails: bool, now: int, collected: bool)
    requires Inv(c, u, h) && SameFrame(s, u) && Tombstone(s, m.key)
    requires Track(c, s, u, done, now, m.key, collected) && RunMove(c, u, m, fails, now).1
    ensures !collected
    ensures Track(c, s, RunMove(c, u, m, fails, now).0, done + [m], now, m.key, Collects(c, u, m, now))
  {
    var k, t := m.key, RunMove(c, u, m, fails, now).0;
    MoveIs(c, u, m, fails, now);
    LatestIsMax(c, u, k);
    GraveCollects(c, s, u, h, done, m, now);
    GraveLanded(c, s, u, h, done, m, now);
    if Collects(c, u, m, now) {
      forall n ensures MetaAt(t, n, k).None? {
        MoveCell(c, u, m, fails, now, n, k);
      }
    }
  }

  lemma TrackNext(c: Config, s: Cluster, u: Cluster, h: History, done: seq<Move>, m: Move, fails: bool, now: int, k: Key, collected: bool)
    requires Inv(c, s, h) && Inv(c, u, h) && SameFrame(s, u)
    requires Track(c, s, u, done, now, k, collected) && RunMove(c, u, m, fails, now).1
    ensures Track(c, s, RunMove(c, u, m, fails, now).0, done + [m], now, k, collected || (m.key == k && Collects(c, u, m, now)))
  {
    var t := RunMove(c, u, m, fails, now).0;
    MoveFrame(c, u, m, fails, now);
    if m.key != k {
      MoveElsewhere(c, u, m, fails, now, k);
      TrackOther(c, s, u, t, done, m, now, k, collected);
    } else if Tombstone(s, k) {
      TrackOwn(c, s, u, h, done, m, fails, now, collected);
    } else {
      MoveIs(c, u, m, fails, now);
      LatestIsMax(c, u, k);
      if Collects(c, u, m, now) { CollectedIsTombstone(c, s, u, h, m, now); }
    }
  }

  // ----- All the moves -----

  lemma TrackStart(c: Config, s: Cluster, now: int, k: Key)
    requires WellFormed(c, s)
    ensures Track(c, s, s, [], now, k, false)
  {
    LatestIsMax(c, s, k);
  }

  /** The key `k` after moves that are all made: collected exactly if they reach all its owners. */
  lemma {:induction false} MovesTrack(c: Config, s: Cluster, h: History, moves: seq<Move>, broken: set<nat>, now: int, k: Key)
    requires Inv(c, s, h) && RunMoves(c, s, moves, broken, now).1
    ensures var u := RunMoves(c, s, moves, broken, now).0;
      && Track(c, s, u, moves, now, k, Collected(c, s, moves, now, k))
      && (k in u.catalog <==> k in s.catalog && !Collected(c, s, moves, now, k))
  {
    if moves == [] {
      TrackStart(c, s, now, k);
    } else {
      var init, m, fails := moves[..|moves| - 1], moves[|moves| - 1], |moves| - 1 in broken;
      assert moves == init + [m];
      MovesTrack(c, s, h, init, broken, now, k);
      MovesKeep(c, s, h, init, broken, now);
      MovesFrame(c, s, init, broken, now);
      var u := RunMoves(c, s, init, broken, now).0;
      TrackNext(c, s, u, h, init, m, fails, now, k, Collected(c, s, init, now, k));
      MoveCatalog(c, u, m, fails, now);
    }
  }

  /** What one more move collects, and its version. */
  lemma CollectedNext(c: Config, s: Cluster, h: History, moves: seq<Move>, broken: set<nat>, now: int, k: Key)
    requires Inv(c, s, h) && moves != [] && RunMoves(c, s, moves, broken, now).1
    ensures var init, m := moves[..|moves| - 1], moves[|moves| - 1];
      var u := RunMoves(c, s, init, broken, now).0;
      && (Collected(c, s, moves, now, k) <==> Collected(c, s, init, now, k) || (m.key == k && Collects(c, u, m, now)))
      && (m.key == k && Collects(c, u, m, now) ==> Latest(Landed(u, m), k).value.version == Latest(s, k).value.version)
  {
    var init, m, fails := moves[..|moves| - 1], moves[|moves| - 1], |moves| - 1 in broken;
    assert moves == init + [m];
    MovesTrack(c, s, h, init, broken, now, k);
    MovesKeep(c, s, h, init, broken, now);
    MovesFrame(c, s, init, broken, now);
    var u := RunMoves(c, s, init, broken, now).0;
    TrackNext(c, s, u, h, init, m, fails, now, k, Collected(c, s, init, now, k));
    if m.key == k && Collects(c, u, m, now) {
      MoveIs(c, u, m, fails, now);
      LandedLatest(c, u, h, m, now);
      LatestIsMax(c, u, k);
    }
  }

  /** The watermark of `s` covers every tombstone that the moves collect. */
  ghost predicate AllCovered(c: Config, s: Cluster, moves: seq<Move>, now: int) {
    forall k :: Collected(c, s, moves, now, k) ==> Covers(s.watermark, Latest(s, k).value.version)
  }

  lemma CoveredNext(c: Config, s: Cluster, h: History, moves: seq<Move>, broken: set<nat>, now: int)
    requires Inv(c, s, h) && moves != [] && RunMoves(c, s, moves, broken, now).1
    ensures var init, m := moves[..|moves| - 1], moves[|moves| - 1];
      var u := RunMoves(c, s, init, broken, now).0;
      AllCovered(c, s, moves, now) <==>
        && AllCovered(c, s, init, now)
        && (Collects(c, u, m, now) ==> Covers(s.watermark, Latest(Landed(u, m), m.key).value.version))
  {
    var init, m := moves[..|moves| - 1], moves[|moves| - 1];
    forall k
      ensures Collected(c, s, init, now, k) ==> Collected(c, s, moves, now, k)
      ensures k != m.key ==> (Collected(c, s, moves, now, k) <==> Collected(c, s, init, now, k))
    {
      CollectedNext(c, s, h, moves, broken, now, k);
    }
    CollectedNext(c, s, h, moves, broken, now, m.key);
  }

  /** The watermark stays exactly if it covers what the moves collect. */
  lemma {:induction false} MovesWatermark(c: Config, s: Cluster, h: History, moves: seq<Move>, broken: set<nat>, now: int)
    requires Inv(c, s, h) && RunMoves(c, s, moves, broken, now).1
    ensures RunMoves(c, s, moves, broken, now).0.watermark == s.watermark <==> AllCovered(c, s, moves, now)
  {
    if moves != [] {
      var init, m, fails := moves[..|moves| - 1], moves[|moves| - 1], |moves| - 1 in broken;
      var u := RunMoves(c, s, init, broken, now).0;
      MovesWatermark(c, s, h, init, broken, now);
      MovesFrame(c, s, init, broken, now);
      CoveredNext(c, s, h, moves, broken, now);
      StepWatermark(c, s, u, m, fails, now);
    }
  }

  // ----- Moves that stop -----

  /** The first `i` of the moves are made, and no more. */
  predicate Completes(c: Config, s: Cluster, moves: seq<Move>, broken: set<nat>, now: int, i: nat) {
    && i <= |moves| && RunMoves(c, s, moves[..i], broken, now).1
    && (i < |moves| ==> !RunMoves(c, s, moves[..i + 1], broken, now).1)
  }

  /** Some number of moves is made, ... */
  lemma {:induction false} SomeComplete(c: Config, s: Cluster, moves: seq<Move>, broken: set<nat>, now: int) returns (i: nat)
    ensures Completes(c, s, moves, broken, now, i)
  {
    i := 0;
    assert moves[..0] == [];
    while i < |moves| && RunMoves(c, s, moves[..i + 1], broken, now).1
      invariant i <= |moves| && RunMoves(c, s, moves[..i], broken, now).1
      decreases |moves| - i
    {
      i := i + 1;
    }
  }

  /** ... and they decide the state, because the move that fails changes nothing. */
  lemma CompletedState(c: Config, s: Cluster, moves: seq<Move>, broken: set<nat>, now: int, i: nat)
    requires Completes(c, s, moves, broken, now, i)
    ensures RunMoves(c, s, moves, broken, now).0 == RunMoves(c, s, moves[..i], broken, now).0
  {
    if i == |moves| {
      assert moves[..i] == moves;
    } else {
      StopsAt(c, s, moves, broken, now, i + 1);
      RunNext(c, s, moves, broken, now, i);
      MoveIs(c, RunMoves(c, s, moves[..i], broken, now).0, moves[i], i in broken, now);
    }
  }
}
