/**
 The bounded cache engine as a state and pure transitions: LRU entries, the
 reverse tag index, refresh leases, byte accounting, and the single-key undo
 journal.  Time is an integer clock, read once per operation.
 */
module EngineModel {
  import opened OrderedDict

  type Tag = string
  type Value = string
  type Token = string

  datatype Deadline = At(time: int) | Never

  predicate Passed(now: int, d: Deadline) {
    d.At? && now >= d.time
  }

  datatype Window = Persistent | For(ttl: nat, stale: nat)

  function FreshUntil(w: Window, now: int): Deadline {
    if w.Persistent? then Never else At(now + w.ttl)
  }

  function StaleUntil(w: Window, now: int): Deadline {
    if w.Persistent? then Never else At(now + w.ttl + w.stale)
  }

  datatype Entry = Entry(value: Value, freshUntil: Deadline, staleUntil: Deadline, tags: seq<Tag>, size: nat,
                         window: Option<nat>, accesses: nat, lastAccess: int)

  datatype Lease = Lease(token: Token, until: int, size: nat)

  datatype Limits = Limits(maxEntries: nat, maxMemory: nat, maxEntry: nat, leaseSeconds: nat)

  /** What `begin_mutation_checkpoint` saves, and the entries evicted since. */
  datatype Journal = Journal(key: Key, entry: Option<Entry>, predecessor: Option<Key>, lease: Option<Lease>,
                             used: int, leaseBytes: int, metrics: map<string, nat>, evicted: seq<(Key, Entry)>)

  datatype Engine = Engine(entries: Dict<Entry>, tags: map<Tag, set<Key>>, leases: Dict<Lease>,
                           used: int, leaseBytes: int, metrics: map<string, nat>, journal: Option<Journal>)

  datatype Error = TooLarge | LeaseMissing | TokenMismatch | NoMemory | LeaseCapacity | SnapshotCapacity

  datatype Outcome<+T> = Ok(value: T) | Err(error: Error)

  datatype Found = Miss | Fresh(value: Value) | Stale(value: Value)

  datatype Leased = Cached(found: Found) | Granted(token: Token, stale: Option<Value>) | Loading

  function Empty(): Engine {
    Engine(Dict([], map[]), map[], Dict([], map[]), 0, 0, map[], None)
  }

  function Bump(metrics: map<string, nat>, name: string): map<string, nat> {
    metrics[name := (if name in metrics then metrics[name] else 0) + 1]
  }

  function Counted(e: Engine, name: string): Engine {
    e.(metrics := Bump(e.metrics, name))
  }

  // ----- Tag index -----

  /** Remove `k` from the sets of `ts`, popping sets that become empty. */
  function Untag(tags: map<Tag, set<Key>>, k: Key, ts: seq<Tag>): map<Tag, set<Key>> {
    if ts == [] then tags
    else
      var r := Untag(tags, k, ts[..|ts| - 1]);
      var t := ts[|ts| - 1];
      if t !in r then r else if r[t] - {k} == {} then r - {t} else r[t := r[t] - {k}]
  }

  function Tagged(tags: map<Tag, set<Key>>, k: Key, ts: seq<Tag>): map<Tag, set<Key>> {
    if ts == [] then tags
    else
      var r := Tagged(tags, k, ts[..|ts| - 1]);
      var t := ts[|ts| - 1];
      r[t := (if t in r then r[t] else {}) + {k}]
  }

  // ----- Entries and leases -----

  function EvictedKeys(evicted: seq<(Key, Entry)>): set<Key> {
    set i | 0 <= i < |evicted| :: evicted[i].0
  }

  /** `_remove_entry`: the journal keeps the first removal of every other key. */
  function RemoveEntry(e: Engine, k: Key): Engine {
    if k !in e.entries.vals then e
    else
      var x := e.entries.vals[k];
      e.(entries := e.entries.Without(k),
         tags := Untag(e.tags, k, x.tags),
         used := e.used - x.size,
         journal := if e.journal.Some? && k != e.journal.value.key && k !in EvictedKeys(e.journal.value.evicted)
                    then Some(e.journal.value.(evicted := e.journal.value.evicted + [(k, x)]))
                    else e.journal)
  }

  /** Append a new entry and index its tags; the caller has removed any old one. */
  function AddEntry(e: Engine, k: Key, x: Entry): Engine {
    e.(entries := e.entries.Set(k, x), tags := Tagged(e.tags, k, x.tags), used := e.used + x.size)
  }

  function RemoveLease(e: Engine, k: Key): Engine {
    if k !in e.leases.vals then e
    else
      e.(leases := e.leases.Without(k),
         used := e.used - e.leases.vals[k].size,
         leaseBytes := e.leaseBytes - e.leases.vals[k].size)
  }

  function PurgeLeases(e: Engine, keys: seq<Key>, now: int): Engine {
    if keys == [] then e
    else
      var r := PurgeLeases(e, keys[..|keys| - 1], now);
      var k := keys[|keys| - 1];
      if k in r.leases.vals && r.leases.vals[k].until <= now then RemoveLease(r, k) else r
  }

  function PurgeEntries(e: Engine, keys: seq<Key>, now: int): Engine {
    if keys == [] then e
    else
      var r := PurgeEntries(e, keys[..|keys| - 1], now);
      var k := keys[|keys| - 1];
      if k in r.entries.vals && Passed(now, r.entries.vals[k].staleUntil) then RemoveEntry(r, k) else r
  }

  // ----- Lookup and eviction -----

  function Touched(x: Entry, now: int): Entry {
    x.(accesses := if x.accesses < 2147483647 then x.accesses + 1 else 2147483647, lastAccess := now)
  }

  function Lookup(e: Engine, k: Key, now: int, count: bool): (Engine, Found) {
    if k !in e.entries.vals then (if count then Counted(e, "misses_total") else e, Miss)
    else
      var x := e.entries.vals[k];
      if Passed(now, x.staleUntil) then
        var r := RemoveEntry(e, k);
        (if count then Counted(Counted(r, "misses_total"), "expirations_total") else r, Miss)
      else
        var moved := e.entries.ToEnd(k);
        var r := e.(entries := if count then moved.Set(k, Touched(x, now)) else moved);
        if !Passed(now, x.freshUntil)
        then (if count then Counted(r, "hits_total") else r, Fresh(x.value))
        else (if count then Counted(r, "stale_hits_total") else r, Stale(x.value))
  }

  predicate OverLimit(lim: Limits, e: Engine) {
    |e.entries.keys| > lim.maxEntries || e.used > lim.maxMemory
  }

  /** Evict the least recently used entry. */
  function EvictOne(e: Engine): Engine
    requires e.entries.keys != []
  {
    Counted(Counted(RemoveEntry(e, e.entries.keys[0]), "evictions_total"), "lru_evictions_total")
  }

  /** The eviction loop. */
  function EvictIfNeeded(lim: Limits, e: Engine): Engine
    decreases |e.entries.keys|
  {
    if !OverLimit(lim, e) || e.entries.keys == [] || e.entries.keys[0] !in e.entries.vals then e
    else
      DropShorter(e.entries.keys, e.entries.keys[0]);
      EvictIfNeeded(lim, EvictOne(e))
  }

  // ----- Operations -----

  function LeaseSize(e: Engine, k: Key): nat {
    if k in e.leases.vals then e.leases.vals[k].size else 0
  }

  function NewEntry(e: Engine, k: Key, v: Value, w: Window, tags: seq<Tag>, size: nat, now: int): Entry {
    var old_ := e.entries.Get(k);
    Entry(v, FreshUntil(w, now), StaleUntil(w, now), tags, size,
          if w.Persistent? then None else Some(w.ttl),
          if old_.Some? then old_.value.accesses else 0,
          if old_.Some? then old_.value.lastAccess else now)
  }

  /** The accepted part of a put, before eviction. */
  function Store(e: Engine, k: Key, x: Entry): Engine {
    Counted(RemoveLease(AddEntry(RemoveEntry(e, k), k, x), k), "writes_total")
  }

  function StoreEvictLookup(lim: Limits, e: Engine, k: Key, x: Entry, now: int): (Engine, Found) {
    Lookup(EvictIfNeeded(lim, Store(e, k, x)), k, now, false)
  }

  function Put(lim: Limits, e: Engine, k: Key, v: Value, w: Window, tags: seq<Tag>, size: nat,
               token: Option<Token>, now: int): (Engine, Outcome<Found>)
  {
    if size > lim.maxEntry || size > lim.maxMemory then (Counted(e, "rejected_entries_total"), Err(TooLarge))
    else if token.Some? && (k !in e.leases.vals || e.leases.vals[k].until <= now) then (RemoveLease(e, k), Err(LeaseMissing))
    else if token.Some? && e.leases.vals[k].token != token.value then (e, Err(TokenMismatch))
    else if size + e.leaseBytes - LeaseSize(e, k) > lim.maxMemory then (Counted(e, "rejected_entries_total"), Err(NoMemory))
    else
      var (r, found) := StoreEvictLookup(lim, e, k, NewEntry(e, k, v, w, tags, size, now), now);
      (r, Ok(found))
  }

  function Get(e: Engine, k: Key, now: int): (Engine, Found) {
    Lookup(e, k, now, true)
  }

  function Delete(e: Engine, k: Key): (Engine, bool) {
    var existed := k in e.entries.vals;
    var r := RemoveLease(RemoveEntry(e, k), k);
    (if existed then Counted(r, "deletes_total") else r, existed)
  }

  function Expire(e: Engine, k: Key, ttl: nat, now: int): (Engine, bool) {
    var (r, found) := Lookup(e, k, now, false);
    if found.Miss? || k !in r.entries.vals then (r, false)
    else
      var x := r.entries.vals[k].(freshUntil := At(now + ttl), staleUntil := At(now + ttl), window := Some(ttl));
      (Counted(r.(entries := r.entries.Set(k, x)), "expirations_set_total"), true)
  }

  function Flush(e: Engine): (Engine, nat) {
    (Counted(e.(entries := Dict([], map[]), tags := map[], leases := Dict([], map[]), used := 0, leaseBytes := 0), "flushes_total"),
     |e.entries.keys|)
  }

  /** `token` is the fresh token drawn by this call and `size` the lease's cost. */
  function Acquire(lim: Limits, e: Engine, k: Key, force: bool, token: Token, size: nat, now: int): (Engine, Outcome<Leased>) {
    var (c, found) := Lookup(PurgeLeases(e, e.leases.keys, now), k, now, true);
    if found.Fresh? && !force then (c, Ok(Cached(found)))
    else Grant(lim, c, k, found, token, size, now)
  }

  /** Hand out a lease, unless one is running or the limits are reached. */
  function Grant(lim: Limits, c: Engine, k: Key, found: Found, token: Token, size: nat, now: int): (Engine, Outcome<Leased>) {
    if k in c.leases.vals && c.leases.vals[k].until > now then
      (Counted(c, "coalesced_total"), Ok(if found.Stale? then Cached(found) else Loading))
    else if |c.leases.keys| >= lim.maxEntries || c.used + size > lim.maxMemory then
      (Counted(c, "rejected_leases_total"), Err(LeaseCapacity))
    else
      (Counted(c.(leases := c.leases.Set(k, Lease(token, now + lim.leaseSeconds, size)),
                  used := c.used + size, leaseBytes := c.leaseBytes + size), "leases_total"),
       Ok(Granted(token, if found.Stale? then Some(found.value) else None)))
  }

  function Release(e: Engine, k: Key, token: Token): (Engine, bool) {
    if k !in e.leases.vals || e.leases.vals[k].token != token then (e, false) else (RemoveLease(e, k), true)
  }

  function Renew(lim: Limits, e: Engine, k: Key, token: Token, now: int): (Engine, bool) {
    if k !in e.leases.vals || e.leases.vals[k].until <= now then (RemoveLease(e, k), false)
    else if e.leases.vals[k].token != token then (e, false)
    else
      (Counted(e.(leases := e.leases.Set(k, e.leases.vals[k].(until := now + lim.leaseSeconds))), "lease_renewals_total"), true)
  }

  /** Remove the entry and lease of each key; also counts the entries removed. */
  function RemoveAll(e: Engine, keys: seq<Key>): (Engine, nat) {
    if keys == [] then (e, 0)
    else
      var (r, n) := RemoveAll(e, keys[..|keys| - 1]);
      var k := keys[|keys| - 1];
      (RemoveLease(RemoveEntry(r, k), k), n + if k in r.entries.vals then 1 else 0)
  }

  /** Live keys carrying one of `ts`, in entry order. */
  function KeysTagged(e: Engine, keys: seq<Key>, ts: seq<Tag>): seq<Key> {
    if keys == [] then []
    else
      var k := keys[|keys| - 1];
      KeysTagged(e, keys[..|keys| - 1], ts) +
      (if exists t | t in ts :: t in e.tags && k in e.tags[t] then [k] else [])
  }

  function InvalidateTags(e: Engine, ts: seq<Tag>): (Engine, nat) {
    var (r, n) := RemoveAll(e, KeysTagged(e, e.entries.keys, ts));
    (r.(metrics := r.metrics["invalidations_total" :=
        (if "invalidations_total" in r.metrics then r.metrics["invalidations_total"] else 0) + n]), n)
  }

  // ----- Restoring a snapshot into the engine -----

  datatype Prepared = Prepared(key: Key, value: Value, tags: seq<Tag>, size: nat, window: Window)

  function PreparedEntry(p: Prepared, now: int): Entry {
    Entry(p.value, FreshUntil(p.window, now), StaleUntil(p.window, now), p.tags, p.size,
          if p.window.Persistent? then None else Some(p.window.ttl), 0, now)
  }

  function ReplacedBytes(e: Engine, ps: seq<Prepared>): nat {
    if ps == [] then 0
    else
      var k := ps[|ps| - 1].key;
      ReplacedBytes(e, ps[..|ps| - 1]) + (if k in e.entries.vals then e.entries.vals[k].size else 0)
  }

  function ReplacedCount(e: Engine, ps: seq<Prepared>): nat {
    if ps == [] then 0
    else ReplacedCount(e, ps[..|ps| - 1]) + (if ps[|ps| - 1].key in e.entries.vals then 1 else 0)
  }

  function NewBytes(ps: seq<Prepared>): nat {
    if ps == [] then 0 else NewBytes(ps[..|ps| - 1]) + ps[|ps| - 1].size
  }

  function Load(e: Engine, ps: seq<Prepared>, now: int): Engine {
    if ps == [] then e
    else
      var p := ps[|ps| - 1];
      AddEntry(RemoveEntry(Load(e, ps[..|ps| - 1], now), p.key), p.key, PreparedEntry(p, now))
  }

  /** Purge, check the capacity that would result, then load everything. */
  function RestoreEntries(lim: Limits, e: Engine, ps: seq<Prepared>, now: int): (Engine, Outcome<nat>) {
    var r := PurgeEntries(e, e.entries.keys, now);
    if |r.entries.keys| - ReplacedCount(r, ps) + |ps| > lim.maxEntries
       || r.used - ReplacedBytes(r, ps) + NewBytes(ps) > lim.maxMemory
    then (r, Err(SnapshotCapacity))
    else (Load(r, ps, now), Ok(|ps|))
  }

  // ----- The undo journal -----

  /** The key just before `k`, or the last key when `k` is absent. */
  function Predecessor(keys: seq<Key>, k: Key): Option<Key> {
    if keys == [] then None
    else if keys[0] == k then None
    else
      var r := Predecessor(keys[1..], k);
      if r.None? then Some(keys[0]) else r
  }

  function Begin(e: Engine, k: Key): Engine {
    e.(journal := Some(Journal(k, e.entries.Get(k), Predecessor(e.entries.keys, k), e.leases.Get(k),
                               e.used, e.leaseBytes, e.metrics, [])))
  }

  function Commit(e: Engine): Engine {
    e.(journal := None)
  }

  /** Put one evicted entry back at the front. */
  function PutBack(e: Engine, k: Key, x: Entry): Engine {
    var r := RemoveEntry(e, k);
    r.(entries := r.entries.Set(k, x).ToFront(k), tags := Tagged(r.tags, k, x.tags))
  }

  /** Put all evicted entries back, last evicted first. */
  function Reinstate(e: Engine, evicted: seq<(Key, Entry)>): Engine
    decreases |evicted|
  {
    if evicted == [] then e
    else
      var last := evicted[|evicted| - 1];
      Reinstate(PutBack(e, last.0, last.1), evicted[..|evicted| - 1])
  }

  /** Position just after `p`, or the front when `p` is not there. */
  function After(keys: seq<Key>, p: Key): (n: nat)
    ensures n <= |keys|
  {
    if keys == [] then 0
    else if keys[|keys| - 1] == p then |keys|
    else After(keys[..|keys| - 1], p)
  }

  function InsertAfter(d: Dict<Entry>, k: Key, x: Entry, p: Option<Key>): Dict<Entry> {
    var i := if p.None? then 0 else After(d.keys, p.value);
    Dict(d.keys[..i] + [k] + d.keys[i..], d.vals[k := x])
  }

  function Undo(e: Engine): Engine
    requires e.journal.Some?
  {
    var j := e.journal.value;
    var r := Reinstate(RemoveLease(RemoveEntry(e.(journal := None), j.key), j.key), j.evicted);
    r.(entries := if j.entry.None? then r.entries else InsertAfter(r.entries, j.key, j.entry.value, j.predecessor),
       tags := if j.entry.None? then r.tags else Tagged(r.tags, j.key, j.entry.value.tags),
       leases := if j.lease.None? then r.leases else r.leases.Set(j.key, j.lease.value),
       used := j.used,
       leaseBytes := j.leaseBytes,
       metrics := j.metrics)
  }
}
