/** Whole runs of the engine: the limits always hold, and a lease token writes at most once. */
module EngineRuns {
  import opened OrderedDict
  import opened EngineModel
  import opened EngineInvariant

  // ----- Restoring a snapshot -----

  ghost predicate DistinctKeys(ps: seq<Prepared>) {
    forall i, j | 0 <= i < j < |ps| :: ps[i].key != ps[j].key
  }

  ghost predicate Absent(ps: seq<Prepared>, k: Key) {
    forall i | 0 <= i < |ps| :: ps[i].key != k
  }

  /** Loading changes only the keys it names. */
  lemma {:induction false} LoadElsewhere(e: Engine, ps: seq<Prepared>, now: int, k: Key)
    requires Absent(ps, k)
    ensures Load(e, ps, now).entries.Get(k) == e.entries.Get(k)
  {
    if ps != [] {
      assert ps[|ps| - 1].key != k;
      assert forall i | 0 <= i < |ps| - 1 :: ps[..|ps| - 1][i] == ps[i];
      LoadElsewhere(e, ps[..|ps| - 1], now, k);
    }
  }

  lemma {:induction false} LoadSizes(e: Engine, ps: seq<Prepared>, now: int, bound: nat)
    requires forall k | k in e.entries.vals :: e.entries.vals[k].size <= bound
    requires forall i | 0 <= i < |ps| :: ps[i].size <= bound
    ensures forall k | k in Load(e, ps, now).entries.vals :: Load(e, ps, now).entries.vals[k].size <= bound
  {
    if ps != [] {
      assert forall i | 0 <= i < |ps| - 1 :: ps[..|ps| - 1][i] == ps[i];
      LoadSizes(e, ps[..|ps| - 1], now, bound);
    }
  }

  /** Loading reaches exactly the count and the bytes that the capacity check computed. */
  lemma {:induction false} LoadCounts(e: Engine, ps: seq<Prepared>, now: int)
    requires Consistent(e) && DistinctKeys(ps)
    ensures var r := Load(e, ps, now);
      && Consistent(r) && r.leases == e.leases
      && |r.entries.keys| == |e.entries.keys| - ReplacedCount(e, ps) + |ps|
      && r.used == e.used - ReplacedBytes(e, ps) + NewBytes(ps)
  {
    if ps != [] {
      var init, p := ps[..|ps| - 1], ps[|ps| - 1];
      LoadCounts(e, init, now);
      var l := Load(e, init, now);
      LoadElsewhere(e, init, now, p.key);
      ReplaceCounts(l, p.key, PreparedEntry(p, now));
    }
  }

  lemma ReplaceCounts(l: Engine, k: Key, x: Entry)
    requires Consistent(l)
    ensures var r := AddEntry(RemoveEntry(l, k), k, x);
      && Consistent(r) && r.leases == l.leases
      && |r.entries.keys| == |l.entries.keys| + (if k in l.entries.vals then 0 else 1)
      && r.used == l.used + x.size - (if k in l.entries.vals then l.entries.vals[k].size else 0)
  {
    RemoveEntryKeeps(l, k);
    RemovedDict(l, k);
    WithoutOk(l.entries, k);
    AddEntryKeeps(RemoveEntry(l, k), k, x);
  }

  lemma RestoreKeeps(lim: Limits, e: Engine, ps: seq<Prepared>, now: int)
    requires Valid(lim, e) && DistinctKeys(ps) && forall i | 0 <= i < |ps| :: ps[i].size <= lim.maxEntry
    ensures Valid(lim, RestoreEntries(lim, e, ps, now).0)
  {
    var r := PurgeEntries(e, e.entries.keys, now);
    PurgeEntriesKeeps(e, e.entries.keys, now);
    ShrinksWithin(lim, e, r);
    if RestoreEntries(lim, e, ps, now).1.Ok? {
      LoadCounts(r, ps, now);
      LoadSizes(r, ps, now, lim.maxEntry);
    }
  }

  // ----- Runs -----

  datatype Op =
    | PutOp(key: Key, value: Value, window: Window, tags: seq<Tag>, size: nat, lease: Option<Token>, now: int)
    | GetOp(key: Key, now: int)
    | DeleteOp(key: Key)
    | ExpireOp(key: Key, ttl: nat, now: int)
    | FlushOp
    | AcquireOp(key: Key, force: bool, token: Token, size: nat, now: int)
    | ReleaseOp(key: Key, token: Token)
    | RenewOp(key: Key, token: Token, now: int)
    | InvalidateOp(tags: seq<Tag>)
    | RestoreOp(entries: seq<Prepared>, now: int)

  function Next(lim: Limits, e: Engine, op: Op): Engine {
    match op
    case PutOp(k, v, w, tags, size, lease, now) => Put(lim, e, k, v, w, tags, size, lease, now).0
    case GetOp(k, now) => Get(e, k, now).0
    case DeleteOp(k) => Delete(e, k).0
    case ExpireOp(k, ttl, now) => Expire(e, k, ttl, now).0
    case FlushOp => Flush(e).0
    case AcquireOp(k, force, token, size, now) => Acquire(lim, e, k, force, token, size, now).0
    case ReleaseOp(k, token) => Release(e, k, token).0
    case RenewOp(k, token, now) => Renew(lim, e, k, token, now).0
    case InvalidateOp(tags) => InvalidateTags(e, tags).0
    case RestoreOp(ps, now) => RestoreEntries(lim, e, ps, now).0
  }

  function Run(lim: Limits, e: Engine, ops: seq<Op>): Engine {
    if ops == [] then e else Next(lim, Run(lim, e, ops[..|ops| - 1]), ops[|ops| - 1])
  }

  /** What the snapshot validation of the source guarantees about prepared entries. */
  ghost predicate Prechecked(lim: Limits, op: Op) {
    op.RestoreOp? ==> DistinctKeys(op.entries) && forall i | 0 <= i < |op.entries| :: op.entries[i].size <= lim.maxEntry
  }

  lemma NextKeeps(lim: Limits, e: Engine, op: Op)
    requires Positive(lim) && Valid(lim, e) && Prechecked(lim, op)
    ensures Valid(lim, Next(lim, e, op))
  {
    match op
    case PutOp(k, v, w, tags, size, lease, now) => PutKeeps(lim, e, k, v, w, tags, size, lease, now);
    case GetOp(k, now) =>
      LookupKeeps(e, k, now, true);
      ShrinksWithin(lim, e, Get(e, k, now).0);
    case DeleteOp(k) => DeleteKeeps(lim, e, k);
    case ExpireOp(k, ttl, now) => ExpireKeeps(lim, e, k, ttl, now);
    case FlushOp =>
    case AcquireOp(k, force, token, size, now) => AcquireKeeps(lim, e, k, force, token, size, now);
    case ReleaseOp(k, token) =>
      RemoveLeaseShrinks(e, k);
      ShrinksWithin(lim, e, RemoveLease(e, k));
    case RenewOp(k, token, now) => RenewKeeps(lim, e, k, token, now);
    case InvalidateOp(tags) =>
      RemoveAllKeeps(e, KeysTagged(e, e.entries.keys, tags));
      ShrinksWithin(lim, e, RemoveAll(e, KeysTagged(e, e.entries.keys, tags)).0);
    case RestoreOp(ps, now) => RestoreKeeps(lim, e, ps, now);
  }

  /** After every operation of every run: exact bytes, exact tag index, all limits. */
  lemma {:induction false} EveryRunIsValid(lim: Limits, ops: seq<Op>)
    requires Positive(lim) && forall i | 0 <= i < |ops| :: Prechecked(lim, ops[i])
    ensures Valid(lim, Run(lim, Empty(), ops))
  {
    if ops != [] {
      var init := ops[..|ops| - 1];
      assert forall i | 0 <= i < |init| :: init[i] == ops[i];
      EveryRunIsValid(lim, init);
      NextKeeps(lim, Run(lim, Empty(), init), ops[|ops| - 1]);
    }
  }

  // ----- Lease tokens -----

  /** Random tokens: no two acquisitions of a run draw the same one. */
  ghost predicate FreshTokens(ops: seq<Op>) {
    forall i, j | 0 <= i < j < |ops| && ops[i].AcquireOp? && ops[j].AcquireOp? :: ops[i].token != ops[j].token
  }

  ghost predicate Dead(e: Engine, t: Token) {
    forall k | k in e.leases.vals :: e.leases.vals[k].token != t
  }

  /** Every lease of `r` is one of `e`, possibly renewed. */
  ghost predicate NoNewTokens(e: Engine, r: Engine) {
    forall k | k in r.leases.vals :: k in e.leases.vals && r.leases.vals[k].token == e.leases.vals[k].token
  }

  lemma {:induction false} PurgeNoNew(e: Engine, keys: seq<Key>, now: int)
    ensures NoNewTokens(e, PurgeLeases(e, keys, now))
  {
    if keys != [] { PurgeNoNew(e, keys[..|keys| - 1], now); }
  }

  lemma {:induction false} RemoveAllNoNew(e: Engine, keys: seq<Key>)
    ensures NoNewTokens(e, RemoveAll(e, keys).0)
  {
    if keys != [] { RemoveAllNoNew(e, keys[..|keys| - 1]); }
  }

  lemma {:induction false} PurgeEntriesLeases(e: Engine, keys: seq<Key>, now: int)
    ensures PurgeEntries(e, keys, now).leases == e.leases
  {
    if keys != [] { PurgeEntriesLeases(e, keys[..|keys| - 1], now); }
  }

  lemma {:induction false} LoadLeases(e: Engine, ps: seq<Prepared>, now: int)
    ensures Load(e, ps, now).leases == e.leases
  {
    if ps != [] { LoadLeases(e, ps[..|ps| - 1], now); }
  }

  lemma {:induction false} EvictLeases(lim: Limits, e: Engine)
    ensures EvictIfNeeded(lim, e).leases == e.leases
    decreases |e.entries.keys|
  {
    if OverLimit(lim, e) && e.entries.keys != [] && e.entries.keys[0] in e.entries.vals {
      DropShorter(e.entries.keys, e.entries.keys[0]);
      EvictLeases(lim, EvictOne(e));
    }
  }

  predicate PutSucceeds(lim: Limits, e: Engine, op: Op) {
    op.PutOp? && Put(lim, e, op.key, op.value, op.window, op.tags, op.size, op.lease, op.now).1.Ok?
  }

  lemma StoreLeases(e: Engine, k: Key, x: Entry)
    ensures Store(e, k, x).leases.vals == e.leases.vals - {k}
  {
    if k !in e.leases.vals {
      assert e.leases.vals - {k} == e.leases.vals;
    }
  }

  lemma PutLeases(lim: Limits, e: Engine, k: Key, v: Value, w: Window, tags: seq<Tag>, size: nat, lease: Option<Token>, now: int)
    ensures var (r, out) := Put(lim, e, k, v, w, tags, size, lease, now);
      && NoNewTokens(e, r)
      && (out.Ok? ==> k !in r.leases.vals)
      && (out.Ok? && lease.Some? ==> k in e.leases.vals && e.leases.vals[k].token == lease.value)
  {
    PutShape(lim, e, k, v, w, tags, size, lease, now);
    WriteLeases(lim, e, k, NewEntry(e, k, v, w, tags, size, now), now);
  }

  /** A refused put leaves the leases or drops that of its key; an accepted one had the token. */
  lemma PutShape(lim: Limits, e: Engine, k: Key, v: Value, w: Window, tags: seq<Tag>, size: nat, lease: Option<Token>, now: int)
    ensures var (r, out) := Put(lim, e, k, v, w, tags, size, lease, now);
      if out.Ok? then
        && r == StoreEvictLookup(lim, e, k, NewEntry(e, k, v, w, tags, size, now), now).0
        && (lease.Some? ==> k in e.leases.vals && e.leases.vals[k].token == lease.value)
      else r.leases.vals == e.leases.vals || r.leases.vals == e.leases.vals - {k}
  {
  }

  lemma WriteLeases(lim: Limits, e: Engine, k: Key, x: Entry, now: int)
    ensures StoreEvictLookup(lim, e, k, x, now).0.leases.vals == e.leases.vals - {k}
  {
    var a := Store(e, k, x);
    StoreLeases(e, k, x);
    EvictLeases(lim, a);
    LookupLeavesLeases(EvictIfNeeded(lim, a), k, now, false);
  }

  lemma AcquireTokens(lim: Limits, e: Engine, op: Op)
    requires op.AcquireOp?
    ensures forall k | k in Next(lim, e, op).leases.vals ::
      || (k in e.leases.vals && Next(lim, e, op).leases.vals[k].token == e.leases.vals[k].token)
      || (k == op.key && Next(lim, e, op).leases.vals[k].token == op.token)
  {
    var p := PurgeLeases(e, e.leases.keys, op.now);
    PurgeNoNew(e, e.leases.keys, op.now);
    LookupLeavesLeases(p, op.key, op.now, true);
    var (c, found) := Lookup(p, op.key, op.now, true);
    GrantTokens(lim, c, op.key, found, op.token, op.size, op.now);
  }

  lemma GrantTokens(lim: Limits, c: Engine, key: Key, found: Found, token: Token, size: nat, now: int)
    ensures var r := Grant(lim, c, key, found, token, size, now).0;
      forall k | k in r.leases.vals ::
        (k in c.leases.vals && r.leases.vals[k] == c.leases.vals[k]) || (k == key && r.leases.vals[k].token == token)
  {
  }

  /** Only an acquisition that draws `t` can bring `t` back. */
  lemma NextTokens(lim: Limits, e: Engine, op: Op)
    ensures !op.AcquireOp? ==> NoNewTokens(e, Next(lim, e, op))
    ensures op.AcquireOp? ==> forall k | k in Next(lim, e, op).leases.vals ::
      || (k in e.leases.vals && Next(lim, e, op).leases.vals[k].token == e.leases.vals[k].token)
      || (k == op.key && Next(lim, e, op).leases.vals[k].token == op.token)
  {
    match op
    case PutOp(k, v, w, tags, size, lease, now) => PutLeases(lim, e, k, v, w, tags, size, lease, now);
    case AcquireOp(k, force, token, size, now) => AcquireTokens(lim, e, op);
    case GetOp(k, now) => LookupLeavesLeases(e, k, now, true);
    case ExpireOp(k, ttl, now) => LookupLeavesLeases(e, k, now, false);
    case InvalidateOp(tags) => RemoveAllNoNew(e, KeysTagged(e, e.entries.keys, tags));
    case RestoreOp(ps, now) =>
      PurgeEntriesLeases(e, e.entries.keys, now);
      LoadLeases(PurgeEntries(e, e.entries.keys, now), ps, now);
    case _ => OtherTokens(lim, e, op);
  }

  lemma OtherTokens(lim: Limits, e: Engine, op: Op)
    requires op.DeleteOp? || op.FlushOp? || op.ReleaseOp? || op.RenewOp?
    ensures NoNewTokens(e, Next(lim, e, op))
  {
  }

  /** Every lease was granted by some acquisition of the run, with that key and token. */
  lemma {:induction false} LeasesWereDrawn(lim: Limits, ops: seq<Op>, k: Key)
    requires k in Run(lim, Empty(), ops).leases.vals
    ensures exists i ::
      0 <= i < |ops| && ops[i].AcquireOp? && ops[i].key == k && ops[i].token == Run(lim, Empty(), ops).leases.vals[k].token
  {
    if ops != [] {
      var init, op := ops[..|ops| - 1], ops[|ops| - 1];
      var e := Run(lim, Empty(), init);
      NextTokens(lim, e, op);
      if k in e.leases.vals && Run(lim, Empty(), ops).leases.vals[k].token == e.leases.vals[k].token {
        LeasesWereDrawn(lim, init, k);
        var i :| 0 <= i < |init| && init[i].AcquireOp? && init[i].key == k && init[i].token == e.leases.vals[k].token;
        assert ops[i] == init[i];
      } else {
        assert ops[|ops| - 1].AcquireOp?;
      }
    }
  }

  lemma {:induction false} StaysDead(lim: Limits, e: Engine, ops: seq<Op>, t: Token)
    requires Dead(e, t) && forall i | 0 <= i < |ops| && ops[i].AcquireOp? :: ops[i].token != t
    ensures Dead(Run(lim, e, ops), t)
  {
    if ops != [] {
      var init := ops[..|ops| - 1];
      assert forall i | 0 <= i < |init| :: init[i] == ops[i];
      StaysDead(lim, e, init, t);
      NextTokens(lim, Run(lim, e, init), ops[|ops| - 1]);
    }
  }

  lemma {:induction false} RunSplit(lim: Limits, e: Engine, a: seq<Op>, b: seq<Op>)
    ensures Run(lim, e, a + b) == Run(lim, Run(lim, e, a), b)
  {
    if b == [] {
      assert a + b == a;
    } else {
      assert (a + b)[..|a + b| - 1] == a + b[..|b| - 1];
      RunSplit(lim, e, a, b[..|b| - 1]);
    }
  }

  /** A completed put, delete or flush of `k`. */
  predicate Completes(lim: Limits, e: Engine, op: Op, k: Key) {
    || (PutSucceeds(lim, e, op) && op.key == k)
    || (op.DeleteOp? && op.key == k)
    || op.FlushOp?
  }

  lemma CompletionDropsLease(lim: Limits, e: Engine, op: Op, k: Key)
    requires Completes(lim, e, op, k)
    ensures k !in Next(lim, e, op).leases.vals
  {
    if op.PutOp? {
      PutLeases(lim, e, op.key, op.value, op.window, op.tags, op.size, op.lease, op.now);
    }
  }

  /** A completed write of `k` leaves no earlier token of `k` alive. */
  lemma CompletionKills(lim: Limits, ops: seq<Op>, a: nat, op: Op)
    requires FreshTokens(ops + [op]) && a < |ops|
    requires ops[a].AcquireOp? && Completes(lim, Run(lim, Empty(), ops), op, ops[a].key)
    ensures Dead(Next(lim, Run(lim, Empty(), ops), op), ops[a].token)
  {
    var e := Run(lim, Empty(), ops);
    var r := Next(lim, e, op);
    CompletionDropsLease(lim, e, op, ops[a].key);
    NextTokens(lim, e, op);
    forall k | k in r.leases.vals ensures r.leases.vals[k].token != ops[a].token {
      LeasesWereDrawn(lim, ops, k);
      var x :| 0 <= x < |ops| && ops[x].AcquireOp? && ops[x].key == k && ops[x].token == e.leases.vals[k].token;
      assert (ops + [op])[x] == ops[x] && (ops + [op])[a] == ops[a];
    }
  }

  lemma KilledForGood(lim: Limits, ops: seq<Op>, a: nat, i: nat, j: nat)
    requires FreshTokens(ops) && a < i < j <= |ops|
    requires ops[a].AcquireOp? && Dead(Run(lim, Empty(), ops[..i + 1]), ops[a].token)
    ensures Dead(Run(lim, Empty(), ops[..j]), ops[a].token)
  {
    var rest := ops[i + 1..j];
    assert ops[..j] == ops[..i + 1] + rest;
    RunSplit(lim, Empty(), ops[..i + 1], rest);
    forall x | 0 <= x < |rest| && rest[x].AcquireOp? ensures rest[x].token != ops[a].token {
      assert rest[x] == ops[i + 1 + x];
    }
    StaysDead(lim, Run(lim, Empty(), ops[..i + 1]), rest, ops[a].token);
  }

  /**
   Once a put, delete or flush of the key has completed, no put presenting a token
   issued for the key before it succeeds, whatever happens in between.
   */
  lemma StaleTokenNeverWrites(lim: Limits, ops: seq<Op>, a: nat, i: nat, j: nat)
    requires FreshTokens(ops) && a < i < j < |ops|
    requires ops[a].AcquireOp? && Completes(lim, Run(lim, Empty(), ops[..i]), ops[i], ops[a].key)
    requires ops[j].PutOp? && ops[j].lease == Some(ops[a].token)
    ensures !PutSucceeds(lim, Run(lim, Empty(), ops[..j]), ops[j])
  {
    assert ops[..i] + [ops[i]] == ops[..i + 1];
    assert ops[..i + 1][..i] == ops[..i];
    assert FreshTokens(ops[..i + 1]) by {
      assert forall x | 0 <= x < i + 1 :: ops[..i + 1][x] == ops[x];
    }
    CompletionKills(lim, ops[..i], a, ops[i]);
    KilledForGood(lim, ops, a, i, j);
    var p := ops[j];
    PutLeases(lim, Run(lim, Empty(), ops[..j]), p.key, p.value, p.window, p.tags, p.size, p.lease, p.now);
  }

  /** A lease token authorises at most one write. */
  lemma TokenWritesOnce(lim: Limits, ops: seq<Op>, i: nat, j: nat)
    requires FreshTokens(ops) && i < j < |ops|
    requires PutSucceeds(lim, Run(lim, Empty(), ops[..i]), ops[i]) && ops[i].lease.Some?
    requires ops[j].PutOp? && ops[j].lease == ops[i].lease
    ensures !PutSucceeds(lim, Run(lim, Empty(), ops[..j]), ops[j])
  {
    var e := Run(lim, Empty(), ops[..i]);
    var p := ops[i];
    PutLeases(lim, e, p.key, p.value, p.window, p.tags, p.size, p.lease, p.now);
    LeasesWereDrawn(lim, ops[..i], p.key);
    var a :| 0 <= a < i && ops[..i][a].AcquireOp? && ops[..i][a].key == ops[i].key && ops[..i][a].token == ops[i].lease.value;
    assert ops[a] == ops[..i][a];
    StaleTokenNeverWrites(lim, ops, a, i, j);
  }
}
