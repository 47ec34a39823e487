/**
 What the engine answers, told from the entry, its deadlines and the leases: windows of
 fresh and stale hits, also over runs, and when puts and leases are granted or refused.
 */
module EngineAnswers {
  import opened OrderedDict
  import opened EngineModel
  import opened EngineInvariant
  import opened EngineRuns

  // ----- Hits -----

  predicate Before(now: int, d: Deadline) {
    d == Never || now < d.time
  }

  /** An entry is fresh until its first deadline, stale until its second, and gone after. */
  function FoundAt(x: Entry, now: int): Found {
    if !Before(now, x.staleUntil) then Miss
    else if Before(now, x.freshUntil) then Fresh(x.value)
    else Stale(x.value)
  }

  function Answer(e: Engine, k: Key, now: int): Found {
    if k in e.entries.vals then FoundAt(e.entries.vals[k], now) else Miss
  }

  /** What a get answers. */
  lemma GetAnswers(e: Engine, k: Key, now: int)
    ensures Get(e, k, now).1 == Answer(e, k, now)
  {
  }

  /** Apart from the entry of `k`, a step keeps every entry. */
  ghost predicate OthersKept(e: Engine, r: Engine, k: Key) {
    forall j | j != k :: (j in r.entries.vals <==> j in e.entries.vals) && (j in e.entries.vals ==> r.entries.vals[j] == e.entries.vals[j])
  }

  /** A hit becomes the most recent entry and counts its access; an expired entry goes. */
  lemma GetLeaves(e: Engine, k: Key, now: int)
    ensures var r := Get(e, k, now).0;
      && OthersKept(e, r, k) && r.leases == e.leases && r.leaseBytes == e.leaseBytes
      && (k in r.entries.vals <==> k in e.entries.vals && Before(now, e.entries.vals[k].staleUntil))
      && (k in r.entries.vals ==>
            var x := e.entries.vals[k];
            && r.entries.keys == Drop(e.entries.keys, k) + [k] && r.tags == e.tags && r.used == e.used
            && r.entries.vals[k] == x.(accesses := if x.accesses + 1 <= 2147483647 then x.accesses + 1 else 2147483647, lastAccess := now))
  {
  }

  // ----- Puts -----

  /** The lease of `k` is running at `now`. */
  predicate Running(e: Engine, k: Key, now: int) {
    k in e.leases.vals && now < e.leases.vals[k].until
  }

  function OtherLeaseBytes(e: Engine, k: Key): int {
    e.leaseBytes - if k in e.leases.vals then e.leases.vals[k].size else 0
  }

  /** The entry that a put writes. */
  predicate IsWritten(e: Engine, k: Key, v: Value, w: Window, tags: seq<Tag>, size: nat, now: int, x: Entry) {
    && x.value == v && x.tags == tags && x.size == size
    && (match w
        case Persistent => x.freshUntil == Never && x.staleUntil == Never && x.window == None
        case For(ttl, stale) => x.freshUntil == At(now + ttl) && x.staleUntil == At(now + ttl + stale) && x.window == Some(ttl))
    && (if k in e.entries.vals
        then x.accesses == e.entries.vals[k].accesses && x.lastAccess == e.entries.vals[k].lastAccess
        else x.accesses == 0 && x.lastAccess == now)
  }

  lemma LookupAfter(e: Engine, k: Key, now: int)
    ensures var (r, found) := Lookup(e, k, now, false);
      && found == Answer(e, k, now)
      && OthersKept(e, r, k) && r.leases == e.leases && r.leaseBytes == e.leaseBytes
      && (k in r.entries.vals <==> k in e.entries.vals && Before(now, e.entries.vals[k].staleUntil))
      && (k in r.entries.vals ==> r.entries.vals[k] == e.entries.vals[k])
  {
  }

  lemma WritesEntry(e: Engine, k: Key, v: Value, w: Window, tags: seq<Tag>, size: nat, now: int)
    ensures IsWritten(e, k, v, w, tags, size, now, NewEntry(e, k, v, w, tags, size, now))
  {
  }

  /** When a put is refused, and why. */
  lemma PutDecides(lim: Limits, e: Engine, k: Key, v: Value, w: Window, tags: seq<Tag>, size: nat, token: Option<Token>, now: int)
    ensures Put(lim, e, k, v, w, tags, size, token, now).1 ==
      if size > lim.maxEntry || size > lim.maxMemory then Err(TooLarge)
      else if token.Some? && !Running(e, k, now) then Err(LeaseMissing)
      else if token.Some? && token.value != e.leases.vals[k].token then Err(TokenMismatch)
      else if size + OtherLeaseBytes(e, k) > lim.maxMemory then Err(NoMemory)
      else Ok(StoreEvictLookup(lim, e, k, NewEntry(e, k, v, w, tags, size, now), now).1)
    ensures Put(lim, e, k, v, w, tags, size, token, now).1.Ok? ==>
      Put(lim, e, k, v, w, tags, size, token, now).0 == StoreEvictLookup(lim, e, k, NewEntry(e, k, v, w, tags, size, now), now).0
  {
  }

  /** What storing `x` leaves: it, unless its time is over already, and of the other entries those not evicted. */
  ghost predicate Stored(e: Engine, r: Engine, k: Key, x: Entry, now: int) {
    && r.leases == e.leases.Without(k)
    && (k in r.entries.vals <==> Before(now, x.staleUntil)) && (k in r.entries.vals ==> r.entries.vals[k] == x)
    && (forall j | j in r.entries.vals && j != k :: j in e.entries.vals && r.entries.vals[j] == e.entries.vals[j])
  }

  lemma StoreLeaves(lim: Limits, e: Engine, k: Key, x: Entry, now: int)
    requires Positive(lim) && Valid(lim, e)
    requires x.size <= lim.maxEntry && x.size + OtherLeaseBytes(e, k) <= lim.maxMemory
    ensures var (r, found) := StoreEvictLookup(lim, e, k, x, now); Stored(e, r, k, x, now) && found == FoundAt(x, now)
  {
    var a := Store(e, k, x);
    var b := EvictIfNeeded(lim, a);
    LeaseFits(lim, e, k);
    StoreThenEvict(lim, e, k, x);
    StoreKeeps(e, k, x);
    EvictKeeps(lim, a);
    LookupAfter(b, k, now);
    forall j | j in b.entries.vals && j != k ensures j in e.entries.vals && b.entries.vals[j] == e.entries.vals[j] {
      assert j in a.entries.vals;
    }
  }

  /** When a put is accepted, why it is refused, what it answers and what it leaves. */
  lemma PutAnswers(lim: Limits, e: Engine, k: Key, v: Value, w: Window, tags: seq<Tag>, size: nat, token: Option<Token>, now: int)
    returns (x: Entry)
    requires Positive(lim) && Valid(lim, e)
    ensures IsWritten(e, k, v, w, tags, size, now, x)
    ensures Put(lim, e, k, v, w, tags, size, token, now).1 ==
      if size > lim.maxEntry || size > lim.maxMemory then Err(TooLarge)
      else if token.Some? && !Running(e, k, now) then Err(LeaseMissing)
      else if token.Some? && token.value != e.leases.vals[k].token then Err(TokenMismatch)
      else if size + OtherLeaseBytes(e, k) > lim.maxMemory then Err(NoMemory)
      else Ok(FoundAt(x, now))
    ensures var (r, out) := Put(lim, e, k, v, w, tags, size, token, now); out.Ok? ==> Stored(e, r, k, x, now)
  {
    x := NewEntry(e, k, v, w, tags, size, now);
    WritesEntry(e, k, v, w, tags, size, now);
    PutDecides(lim, e, k, v, w, tags, size, token, now);
    if size <= lim.maxEntry && size + OtherLeaseBytes(e, k) <= lim.maxMemory {
      StoreLeaves(lim, e, k, x, now);
    }
  }

  /** The entry before the `n` most recent ones does not fit with them. */
  ghost predicate OneTooMany(lim: Limits, e: Engine, r: Engine, n: nat) {
    OneTooManyIn(lim, e.entries, r.used, n)
  }

  predicate OneTooManyIn(lim: Limits, d: Dict<Entry>, used: int, n: nat) {
    n < |d.keys| ==>
      var y := d.keys[|d.keys| - n - 1];
      y in d.vals && (n + 1 > lim.maxEntries || used + d.vals[y].size > lim.maxMemory)
  }

  lemma EarlierIn(lim: Limits, d: Dict<Entry>, o: Dict<Entry>, used: int, n: nat)
    requires d.keys != [] && n < |d.keys| - 1 && o.keys == d.keys[1..]
    requires forall k | k in o.vals :: k in d.vals && o.vals[k] == d.vals[k]
    requires OneTooManyIn(lim, o, used, n)
    ensures OneTooManyIn(lim, d, used, n)
  {
    assert o.keys[|o.keys| - n - 1] == d.keys[|d.keys| - n - 1];
  }

  lemma EvictOneEntries(e: Engine)
    requires Consistent(e) && e.entries.keys != []
    ensures var o := EvictOne(e).entries;
      o.keys == e.entries.keys[1..] && forall k | k in o.vals :: k in e.entries.vals && o.vals[k] == e.entries.vals[k]
  {
    EvictOneKeeps(e);
  }

  lemma OneTooManyEarlier(lim: Limits, e: Engine, r: Engine, n: nat)
    requires Consistent(e) && e.entries.keys != [] && n < |e.entries.keys| - 1
    requires OneTooManyIn(lim, EvictOne(e).entries, r.used, n)
    ensures OneTooManyIn(lim, e.entries, r.used, n)
  {
    EvictOneEntries(e);
    EarlierIn(lim, e.entries, EvictOne(e).entries, r.used, n);
  }

  lemma EvictOneBytes(e: Engine)
    requires Consistent(e) && e.entries.keys != []
    ensures e.entries.keys[0] in e.entries.vals && EvictOne(e).used == e.used - e.entries.vals[e.entries.keys[0]].size
  {
    assert e.entries.keys[0] in e.entries.keys;
  }

  lemma EvictIs(lim: Limits, e: Engine)
    requires Consistent(e) && OverLimit(lim, e) && e.entries.keys != []
    ensures EvictIfNeeded(lim, e) == EvictIfNeeded(lim, EvictOne(e)) && |EvictOne(e).entries.keys| == |e.entries.keys| - 1
  {
    assert e.entries.keys[0] in e.entries.keys;
    EvictOneKeeps(e);
  }

  lemma MinimalEarlier(lim: Limits, e: Engine, r: Engine)
    requires Consistent(e) && e.leaseBytes <= lim.maxMemory && OverLimit(lim, e) && e.entries.keys != []
    requires r == EvictIfNeeded(lim, EvictOne(e)) && OneTooMany(lim, EvictOne(e), r, |r.entries.keys|)
    ensures OneTooMany(lim, e, r, |r.entries.keys|)
  {
    EvictOneKeeps(e);
    EvictOneBytes(e);
    EvictKeeps(lim, EvictOne(e));
    if |r.entries.keys| < |e.entries.keys| - 1 {
      OneTooManyEarlier(lim, e, r, |r.entries.keys|);
    } else {
      SameAfterEviction(lim, EvictOne(e));
    }
  }

  /** Eviction takes no more than it must: with the last entry it took, a limit would be passed. */
  lemma {:induction false} EvictMinimal(lim: Limits, e: Engine)
    requires Consistent(e) && e.leaseBytes <= lim.maxMemory
    ensures OneTooMany(lim, e, EvictIfNeeded(lim, e), |EvictIfNeeded(lim, e).entries.keys|)
    decreases |e.entries.keys|
  {
    if OverLimit(lim, e) && e.entries.keys != [] {
      EvictIs(lim, e);
      EvictOneKeeps(e);
      EvictMinimal(lim, EvictOne(e));
      MinimalEarlier(lim, e, EvictIfNeeded(lim, e));
    } else {
      NoEviction(lim, e);
    }
  }

  lemma NoEviction(lim: Limits, e: Engine)
    requires !OverLimit(lim, e) || e.entries.keys == []
    ensures EvictIfNeeded(lim, e) == e
  {
  }

  lemma SameAfterEviction(lim: Limits, e: Engine)
    requires Consistent(e) && e.leaseBytes <= lim.maxMemory && |EvictIfNeeded(lim, e).entries.keys| == |e.entries.keys|
    ensures EvictIfNeeded(lim, e) == e
  {
    if OverLimit(lim, e) && e.entries.keys != [] {
      assert e.entries.keys[0] in e.entries.keys;
      EvictOneKeeps(e);
      EvictKeeps(lim, EvictOne(e));
    }
  }

  // ----- Expiry and deletion -----

  /** Both deadlines are moved to `until`. */
  predicate Extended(x: Entry, y: Entry, until: int, ttl: nat) {
    y == x.(freshUntil := At(until), staleUntil := At(until), window := Some(ttl))
  }

  /** Expiring succeeds exactly for an entry whose time is not over, and moves its deadlines. */
  lemma ExpireAnswers(e: Engine, k: Key, ttl: nat, now: int)
    ensures var (r, done) := Expire(e, k, ttl, now);
      && (done <==> k in e.entries.vals && Before(now, e.entries.vals[k].staleUntil))
      && OthersKept(e, r, k) && r.leases == e.leases
      && (done ==> k in r.entries.vals && Extended(e.entries.vals[k], r.entries.vals[k], now + ttl, ttl))
      && (!done ==> k !in r.entries.vals)
  {
    LookupAfter(e, k, now);
  }

  lemma DeleteAnswers(e: Engine, k: Key)
    ensures var (r, existed) := Delete(e, k);
      && (existed <==> k in e.entries.vals)
      && k !in r.entries.vals && k !in r.leases.vals && OthersKept(e, r, k)
      && forall j | j != k :: j in r.leases.vals <==> j in e.leases.vals
  {
  }

  lemma FlushAnswers(e: Engine)
    ensures var (r, n) := Flush(e);
      r.entries.keys == [] && r.entries.vals == map[] && r.leases.vals == map[] && r.tags == map[] && n == |e.entries.keys|
  {
  }

  // ----- Leases -----

  /** Renewing succeeds exactly for the token of a running lease, and moves its end. */
  lemma RenewAnswers(lim: Limits, e: Engine, k: Key, token: Token, now: int)
    ensures var (r, done) := Renew(lim, e, k, token, now);
      && (done <==> Running(e, k, now) && e.leases.vals[k].token == token)
      && r.entries == e.entries
      && (done ==> r.leases.vals == e.leases.vals[k := e.leases.vals[k].(until := now + lim.leaseSeconds)])
      && (!done ==> r.leases.vals == if Running(e, k, now) then e.leases.vals else e.leases.vals - {k})
  {
    if k !in e.leases.vals { assert e.leases.vals - {k} == e.leases.vals; }
  }

  lemma ReleaseAnswers(e: Engine, k: Key, token: Token)
    ensures var (r, done) := Release(e, k, token);
      && (done <==> k in e.leases.vals && e.leases.vals[k].token == token)
      && r.entries == e.entries
      && r.leases.vals == if done then e.leases.vals - {k} else e.leases.vals
  {
  }

  /** The keys of the leases running at `now`. */
  function RunningKeys(e: Engine, now: int): set<Key> {
    set k | k in e.leases.vals && Running(e, k, now)
  }

  lemma PurgedAt(e: Engine, now: int, k: Key)
    requires Consistent(e)
    ensures var p := PurgeLeases(e, e.leases.keys, now);
      && (k in p.leases.vals <==> Running(e, k, now)) && (k in p.leases.vals ==> p.leases.vals[k] == e.leases.vals[k])
  {
    PurgedAll(e, e.leases.keys, now, k);
    if Running(e, k, now) { PurgeSpares(e, e.leases.keys, now, k); }
    assert k in e.leases.vals <==> k in e.leases.keys;
  }

  /** Purging leaves exactly the running leases. */
  lemma PurgeIs(e: Engine, now: int)
    requires Consistent(e)
    ensures var p := PurgeLeases(e, e.leases.keys, now);
      && Consistent(p) && p.entries == e.entries && p.tags == e.tags
      && p.leases.vals.Keys == RunningKeys(e, now) && |p.leases.keys| == |RunningKeys(e, now)|
  {
    var p := PurgeLeases(e, e.leases.keys, now);
    PurgeLeasesKeeps(e, e.leases.keys, now);
    forall k ensures k in p.leases.vals.Keys <==> k in RunningKeys(e, now) {
      PurgedAt(e, now, k);
    }
    PurgeTags(e, e.leases.keys, now);
    KeysCount(p.leases);
  }

  lemma {:induction false} PurgeSpares(e: Engine, keys: seq<Key>, now: int, k: Key)
    requires Running(e, k, now)
    ensures var r := PurgeLeases(e, keys, now); k in r.leases.vals && r.leases.vals[k] == e.leases.vals[k]
  {
    if keys != [] { PurgeSpares(e, keys[..|keys| - 1], now, k); }
  }

  lemma {:induction false} PurgeTags(e: Engine, keys: seq<Key>, now: int)
    ensures PurgeLeases(e, keys, now).tags == e.tags
  {
    if keys != [] { PurgeTags(e, keys[..|keys| - 1], now); }
  }

  lemma KeysCount<V>(d: Dict<V>)
    requires d.Ok()
    ensures |d.keys| == |d.vals.Keys|
  {
    DistinctCount(d.keys, d.vals.Keys);
  }

  lemma {:induction false} DistinctCount(keys: seq<Key>, s: set<Key>)
    requires Distinct(keys) && forall k :: k in keys <==> k in s
    ensures |keys| == |s|
  {
    if keys == [] {
      if s != {} { SomeMember(s); }
    } else {
      var init, k := keys[..|keys| - 1], keys[|keys| - 1];
      assert keys == init + [k];
      forall x ensures x in init <==> x in s - {k} {
        assert x in keys <==> x in s;
      }
      DistinctCount(init, s - {k});
    }
  }

  // ----- Acquiring -----

  function RunningSize(now: int): Lease -> nat {
    (l: Lease) => if now < l.until then l.size else 0
  }

  /** The bytes in use once expired leases, and the entry of `k` if its time is over, are gone. */
  function BytesLeft(e: Engine, k: Key, now: int): int {
    Total(e.entries, EntryBytes) + Total(e.leases, RunningSize(now))
    - if k in e.entries.vals && !Before(now, e.entries.vals[k].staleUntil) then e.entries.vals[k].size else 0
  }

  lemma {:induction false} PurgeRunning(e: Engine, keys: seq<Key>, now: int)
    requires Consistent(e)
    ensures Total(PurgeLeases(e, keys, now).leases, RunningSize(now)) == Total(e.leases, RunningSize(now))
  {
    if keys != [] {
      var init, k := keys[..|keys| - 1], keys[|keys| - 1];
      var r := PurgeLeases(e, init, now);
      PurgeRunning(e, init, now);
      PurgeLeasesKeeps(e, init, now);
      TotalWithout(r.leases, k, RunningSize(now));
    }
  }

  lemma {:induction false} WeightAlike(keys: seq<Key>, vals: map<Key, Lease>, now: int)
    requires forall k | k in keys && k in vals :: now < vals[k].until
    ensures Weight(keys, vals, LeaseBytes) == Weight(keys, vals, RunningSize(now))
  {
    if keys != [] {
      assert keys == keys[..|keys| - 1] + [keys[|keys| - 1]];
      WeightAlike(keys[..|keys| - 1], vals, now);
    }
  }

  lemma PurgedBytes(e: Engine, now: int)
    requires Consistent(e)
    ensures var p := PurgeLeases(e, e.leases.keys, now);
      p.used == Total(e.entries, EntryBytes) + Total(e.leases, RunningSize(now))
  {
    var p := PurgeLeases(e, e.leases.keys, now);
    PurgeIs(e, now);
    PurgeRunning(e, e.leases.keys, now);
    forall k | k in p.leases.vals ensures now < p.leases.vals[k].until {
      PurgedAt(e, now, k);
    }
    WeightAlike(p.leases.keys, p.leases.vals, now);
  }

  lemma LookedUp(e: Engine, k: Key, now: int)
    requires Consistent(e)
    ensures var (p, c) := (PurgeLeases(e, e.leases.keys, now), Lookup(PurgeLeases(e, e.leases.keys, now), k, now, true).0);
      && c.leases == p.leases && c.used == BytesLeft(e, k, now)
      && Lookup(p, k, now, true).1 == Answer(e, k, now)
  {
    var p := PurgeLeases(e, e.leases.keys, now);
    PurgeIs(e, now);
    PurgedBytes(e, now);
    LookupUses(p, k, now);
    GetAnswers(p, k, now);
    LookupLeavesLeases(p, k, now, true);
  }

  lemma LookupUses(e: Engine, k: Key, now: int)
    ensures Lookup(e, k, now, true).0.used ==
      e.used - if k in e.entries.vals && !Before(now, e.entries.vals[k].staleUntil) then e.entries.vals[k].size else 0
  {
  }

  /** What an acquisition answers. */
  function Acquired(lim: Limits, found: Found, force: bool, running: bool, room: bool, token: Token): Outcome<Leased> {
    if found.Fresh? && !force then Ok(Cached(found))
    else if running then Ok(if found.Stale? then Cached(found) else Loading)
    else if !room then Err(LeaseCapacity)
    else Ok(Granted(token, if found.Stale? then Some(found.value) else None))
  }

  /** There is room for one more lease of that size. */
  ghost predicate LeaseRoom(lim: Limits, e: Engine, k: Key, size: nat, now: int) {
    |RunningKeys(e, now)| < lim.maxEntries && BytesLeft(e, k, now) + size <= lim.maxMemory
  }

  /**
   What acquiring answers: a fresh hit without force, else what a running lease leaves to
   the caller, else a refusal when there is no room, else a lease, with the stale value if
   there is one.
   */
  lemma AcquireAnswers(lim: Limits, e: Engine, k: Key, force: bool, token: Token, size: nat, now: int)
    requires Consistent(e)
    ensures Acquire(lim, e, k, force, token, size, now).1 ==
      Acquired(lim, Answer(e, k, now), force, Running(e, k, now), LeaseRoom(lim, e, k, size, now), token)
  {
    PurgeIs(e, now);
    LookedUp(e, k, now);
    PurgedAt(e, now, k);
  }

  lemma GrantLeaves(lim: Limits, c: Engine, k: Key, found: Found, token: Token, size: nat, now: int)
    ensures var (r, out) := Grant(lim, c, k, found, token, size, now);
      if out.Ok? && out.value.Granted?
      then r.leases.vals == c.leases.vals[k := Lease(token, now + lim.leaseSeconds, size)]
      else r.leases == c.leases
  {
  }

  /** A grant runs for the lease time; every other lease is kept if it is running. */
  lemma AcquireLeaves(lim: Limits, e: Engine, k: Key, force: bool, token: Token, size: nat, now: int, j: Key)
    requires Consistent(e)
    ensures var (r, out) := Acquire(lim, e, k, force, token, size, now);
      if j == k && out.Ok? && out.value.Granted?
      then j in r.leases.vals && r.leases.vals[j] == Lease(token, now + lim.leaseSeconds, size)
      else (j in r.leases.vals <==> Running(e, j, now)) && (j in r.leases.vals ==> r.leases.vals[j] == e.leases.vals[j])
  {
    LookedUp(e, k, now);
    PurgedAt(e, now, j);
    var (c, found) := Lookup(PurgeLeases(e, e.leases.keys, now), k, now, true);
    GrantLeaves(lim, c, k, found, token, size, now);
  }

  // ----- Windows over runs -----

  /** The entry of `k` answers in `r` as in `e`. */
  predicate SameWindow(e: Engine, r: Engine, k: Key) {
    && k in e.entries.vals && k in r.entries.vals
    && r.entries.vals[k].value == e.entries.vals[k].value
    && r.entries.vals[k].freshUntil == e.entries.vals[k].freshUntil && r.entries.vals[k].staleUntil == e.entries.vals[k].staleUntil
  }

  /** The operation writes, expires or restores the key. */
  predicate Writes(op: Op, k: Key) {
    match op
    case PutOp(j, _, _, _, _, _, _) => j == k
    case ExpireOp(j, _, _) => j == k
    case RestoreOp(ps, _) => exists i | 0 <= i < |ps| :: ps[i].key == k
    case _ => false
  }

  /** Whatever is left of the entry of `k` answers as before. */
  ghost predicate Remains(e: Engine, r: Engine, k: Key) {
    k in e.entries.vals && k in r.entries.vals ==> SameWindow(e, r, k)
  }

  lemma PutRefused(lim: Limits, e: Engine, k: Key, v: Value, w: Window, tags: seq<Tag>, size: nat, token: Option<Token>, now: int)
    ensures var (r, out) := Put(lim, e, k, v, w, tags, size, token, now); out.Err? ==> r.entries == e.entries
  {
  }

  lemma PutRemains(lim: Limits, e: Engine, op: Op, k: Key)
    requires Positive(lim) && Valid(lim, e) && op.PutOp? && op.key != k
    ensures Remains(e, Next(lim, e, op), k)
  {
    var x := PutAnswers(lim, e, op.key, op.value, op.window, op.tags, op.size, op.lease, op.now);
    PutRefused(lim, e, op.key, op.value, op.window, op.tags, op.size, op.lease, op.now);
  }

  lemma GrantEntries(lim: Limits, c: Engine, k: Key, found: Found, token: Token, size: nat, now: int)
    ensures Grant(lim, c, k, found, token, size, now).0.entries == c.entries
  {
  }

  lemma AcquireRemains(lim: Limits, e: Engine, op: Op, k: Key)
    requires Consistent(e) && op.AcquireOp?
    ensures Remains(e, Next(lim, e, op), k)
  {
    var p := PurgeLeases(e, e.leases.keys, op.now);
    PurgeIs(e, op.now);
    GetLeaves(p, op.key, op.now);
    var (c, found) := Lookup(p, op.key, op.now, true);
    GrantEntries(lim, c, op.key, found, op.token, op.size, op.now);
  }

  lemma {:induction false} RemoveAllRemains(e: Engine, keys: seq<Key>, k: Key)
    ensures Remains(e, RemoveAll(e, keys).0, k)
    ensures k in RemoveAll(e, keys).0.entries.vals ==> k in e.entries.vals
  {
    if keys != [] { RemoveAllRemains(e, keys[..|keys| - 1], k); }
  }

  lemma {:induction false} PurgeEntriesRemains(e: Engine, keys: seq<Key>, now: int, k: Key)
    ensures Remains(e, PurgeEntries(e, keys, now), k)
    ensures k in PurgeEntries(e, keys, now).entries.vals ==> k in e.entries.vals
  {
    if keys != [] { PurgeEntriesRemains(e, keys[..|keys| - 1], now, k); }
  }

  lemma RestoreRemains(lim: Limits, e: Engine, op: Op, k: Key)
    requires op.RestoreOp? && !Writes(op, k)
    ensures Remains(e, Next(lim, e, op), k)
  {
    var p := PurgeEntries(e, e.entries.keys, op.now);
    PurgeEntriesRemains(e, e.entries.keys, op.now, k);
    LoadElsewhere(p, op.entries, op.now, k);
  }

  lemma NextRemains(lim: Limits, e: Engine, op: Op, k: Key)
    requires Positive(lim) && Valid(lim, e) && !Writes(op, k)
    ensures Remains(e, Next(lim, e, op), k)
  {
    match op
    case PutOp(j, v, w, tags, size, lease, now) => PutRemains(lim, e, op, k);
    case GetOp(j, now) => GetLeaves(e, j, now);
    case DeleteOp(j) => DeleteAnswers(e, j);
    case ExpireOp(j, ttl, now) => ExpireAnswers(e, j, ttl, now);
    case FlushOp =>
    case AcquireOp(j, force, token, size, now) => AcquireRemains(lim, e, op, k);
    case ReleaseOp(j, token) => ReleaseAnswers(e, j, token);
    case RenewOp(j, token, now) => RenewAnswers(lim, e, j, token, now);
    case InvalidateOp(tags) => RemoveAllRemains(e, KeysTagged(e, e.entries.keys, tags), k);
    case RestoreOp(ps, now) => RestoreRemains(lim, e, op, k);
  }

  /** From step `i` to step `j` no operation writes `k`, and its entry is there all the time. */
  ghost predicate Undisturbed(lim: Limits, ops: seq<Op>, i: nat, j: nat, k: Key)
    requires i <= j <= |ops|
  {
    && (forall m | i <= m < j :: !Writes(ops[m], k))
    && (forall m | i <= m <= j :: k in Run(lim, Empty(), ops[..m]).entries.vals)
  }

  lemma {:induction false} WindowStays(lim: Limits, ops: seq<Op>, i: nat, j: nat, k: Key)
    requires Positive(lim) && (forall m | 0 <= m < |ops| :: Prechecked(lim, ops[m]))
    requires i <= j <= |ops| && Undisturbed(lim, ops, i, j, k)
    ensures SameWindow(Run(lim, Empty(), ops[..i]), Run(lim, Empty(), ops[..j]), k)
    decreases j
  {
    if i < j {
      assert Undisturbed(lim, ops, i, j - 1, k);
      WindowStays(lim, ops, i, j - 1, k);
      var e := Run(lim, Empty(), ops[..j - 1]);
      assert ops[..j][..j - 1] == ops[..j - 1];
      assert forall m | 0 <= m < j - 1 :: ops[..j - 1][m] == ops[m];
      EveryRunIsValid(lim, ops[..j - 1]);
      NextRemains(lim, e, ops[j - 1], k);
    }
  }

  /** What a window leads to at `now`, when it starts at `from`. */
  function WindowAnswer(v: Value, w: Window, from: int, now: int): Found {
    match w
    case Persistent => Fresh(v)
    case For(ttl, stale) => if now < from + ttl then Fresh(v) else if now < from + ttl + stale then Stale(v) else Miss
  }

  lemma WindowAnswers(e: Engine, r: Engine, k: Key, v: Value, w: Window, from: int, now: int)
    requires SameWindow(e, r, k) && e.entries.vals[k].value == v
    requires e.entries.vals[k].freshUntil == (if w.Persistent? then Never else At(from + w.ttl))
    requires e.entries.vals[k].staleUntil == (if w.Persistent? then Never else At(from + w.ttl + w.stale))
    ensures Get(r, k, now).1 == WindowAnswer(v, w, from, now)
  {
    GetAnswers(r, k, now);
  }

  lemma PutWrites(lim: Limits, e: Engine, op: Op)
    requires Positive(lim) && Valid(lim, e) && PutSucceeds(lim, e, op) && op.key in Next(lim, e, op).entries.vals
    ensures var x := Next(lim, e, op).entries.vals[op.key];
      && x.value == op.value
      && x.freshUntil == (if op.window.Persistent? then Never else At(op.now + op.window.ttl))
      && x.staleUntil == (if op.window.Persistent? then Never else At(op.now + op.window.ttl + op.window.stale))
  {
    var x := PutAnswers(lim, e, op.key, op.value, op.window, op.tags, op.size, op.lease, op.now);
  }

  lemma ValidBefore(lim: Limits, ops: seq<Op>, i: nat)
    requires Positive(lim) && (forall m | 0 <= m < |ops| :: Prechecked(lim, ops[m])) && i <= |ops|
    ensures Valid(lim, Run(lim, Empty(), ops[..i]))
  {
    assert forall m | 0 <= m < i :: ops[..i][m] == ops[m];
    EveryRunIsValid(lim, ops[..i]);
  }

  lemma RunStep(lim: Limits, ops: seq<Op>, i: nat)
    requires i < |ops|
    ensures Run(lim, Empty(), ops[..i + 1]) == Next(lim, Run(lim, Empty(), ops[..i]), ops[i])
  {
    assert ops[..i + 1][..i] == ops[..i];
  }

  /**
   The window of a put, over runs: as long as the entry is neither changed nor evicted, it
   answers fresh before its time to live is over, stale before its stale time is over, and
   a miss afterwards, whatever other operations come between.
   */
  lemma PutWindow(lim: Limits, ops: seq<Op>, i: nat, j: nat, now: int)
    requires Positive(lim) && (forall m | 0 <= m < |ops| :: Prechecked(lim, ops[m]))
    requires i < j <= |ops| && PutSucceeds(lim, Run(lim, Empty(), ops[..i]), ops[i])
    requires Undisturbed(lim, ops, i + 1, j, ops[i].key)
    ensures Get(Run(lim, Empty(), ops[..j]), ops[i].key, now).1 == WindowAnswer(ops[i].value, ops[i].window, ops[i].now, now)
  {
    var put, e := ops[i], Run(lim, Empty(), ops[..i]);
    ValidBefore(lim, ops, i);
    RunStep(lim, ops, i);
    PutWrites(lim, e, put);
    WindowStays(lim, ops, i + 1, j, put.key);
    WindowAnswers(Next(lim, e, put), Run(lim, Empty(), ops[..j]), put.key, put.value, put.window, put.now, now);
  }

  /** The window of an expiry: the value that was there stays fresh until the new time, and is gone after. */
  lemma ExpireWindow(lim: Limits, ops: seq<Op>, i: nat, j: nat, now: int)
    requires Positive(lim) && (forall m | 0 <= m < |ops| :: Prechecked(lim, ops[m]))
    requires i < j <= |ops| && ops[i].ExpireOp?
    requires Expire(Run(lim, Empty(), ops[..i]), ops[i].key, ops[i].ttl, ops[i].now).1
    requires Undisturbed(lim, ops, i + 1, j, ops[i].key)
    ensures var (e, expire) := (Run(lim, Empty(), ops[..i]), ops[i]);
      && expire.key in e.entries.vals
      && Get(Run(lim, Empty(), ops[..j]), expire.key, now).1 ==
         if now < expire.now + expire.ttl then Fresh(e.entries.vals[expire.key].value) else Miss
  {
    var expire, k := ops[i], ops[i].key;
    var e, r := Run(lim, Empty(), ops[..i]), Run(lim, Empty(), ops[..i + 1]);
    assert ops[..i + 1][..i] == ops[..i];
    ExpireAnswers(e, k, expire.ttl, expire.now);
    WindowStays(lim, ops, i + 1, j, k);
    GetAnswers(Run(lim, Empty(), ops[..j]), k, now);
  }

  // ----- Restoring -----

  /** A snapshot is loaded exactly if what loading it would lead to is within both limits. */
  lemma RestoreSucceedsIff(lim: Limits, e: Engine, ps: seq<Prepared>, now: int)
    requires Valid(lim, e) && DistinctKeys(ps)
    ensures var loaded := Load(PurgeEntries(e, e.entries.keys, now), ps, now);
      RestoreEntries(lim, e, ps, now).1.Ok? <==> |loaded.entries.keys| <= lim.maxEntries && loaded.used <= lim.maxMemory
  {
    var r := PurgeEntries(e, e.entries.keys, now);
    PurgeEntriesKeeps(e, e.entries.keys, now);
    LoadCounts(r, ps, now);
  }

  lemma {:induction false} LoadedAt(e: Engine, ps: seq<Prepared>, now: int, i: nat)
    requires DistinctKeys(ps) && i < |ps|
    ensures Load(e, ps, now).entries.Get(ps[i].key) == Some(PreparedEntry(ps[i], now))
  {
    var init, p := ps[..|ps| - 1], ps[|ps| - 1];
    if i < |init| {
      assert init[i] == ps[i] && ps[i].key != p.key;
      LoadedAt(e, init, now, i);
    }
  }

  /** And then each of its entries answers with its own window. */
  lemma LoadedAnswers(e: Engine, ps: seq<Prepared>, now: int, i: nat, later: int)
    requires DistinctKeys(ps) && i < |ps|
    ensures Get(Load(e, ps, now), ps[i].key, later).1 == WindowAnswer(ps[i].value, ps[i].window, now, later)
  {
    LoadedAt(e, ps, now, i);
    GetAnswers(Load(e, ps, now), ps[i].key, later);
  }

  /** Only entries whose time is over are purged before. */
  lemma {:induction false} PurgesExpired(e: Engine, keys: seq<Key>, now: int, k: Key)
    ensures k in PurgeEntries(e, keys, now).entries.vals <==>
      k in e.entries.vals && (k !in keys || Before(now, e.entries.vals[k].staleUntil))
  {
    if keys != [] {
      var init, j := keys[..|keys| - 1], keys[|keys| - 1];
      assert keys == init + [j];
      PurgesExpired(e, init, now, k);
      PurgeEntriesSame(e, init, now, k);
    }
  }

  lemma {:induction false} PurgeEntriesSame(e: Engine, keys: seq<Key>, now: int, k: Key)
    ensures var r := PurgeEntries(e, keys, now);
      k in r.entries.vals ==> k in e.entries.vals && r.entries.vals[k] == e.entries.vals[k]
  {
    if keys != [] { PurgeEntriesSame(e, keys[..|keys| - 1], now, k); }
  }
}
