/** What every engine operation keeps: exact accounting, an exact tag index, and the limits. */
module EngineInvariant {
  import opened OrderedDict
  import opened EngineModel

  function EntryBytes(x: Entry): nat { x.size }

  function LeaseBytes(l: Lease): nat { l.size }

  /** The tag index is exactly the inverse of the entries' tags, with no empty set. */
  ghost predicate TagsExact(tags: map<Tag, set<Key>>, vals: map<Key, Entry>) {
    && (forall t | t in tags :: tags[t] != {})
    && (forall t, k :: (t in tags && k in tags[t]) <==> (k in vals && t in vals[k].tags))
  }

  ghost predicate Consistent(e: Engine) {
    && e.entries.Ok() && e.leases.Ok()
    && TagsExact(e.tags, e.entries.vals)
    && e.used == Total(e.entries, EntryBytes) + Total(e.leases, LeaseBytes)
    && e.leaseBytes == Total(e.leases, LeaseBytes)
  }

  ghost predicate Within(lim: Limits, e: Engine) {
    && |e.entries.keys| <= lim.maxEntries
    && |e.leases.keys| <= lim.maxEntries
    && e.used <= lim.maxMemory
    && forall k | k in e.entries.vals :: e.entries.vals[k].size <= lim.maxEntry
  }

  ghost predicate Valid(lim: Limits, e: Engine) {
    Consistent(e) && Within(lim, e)
  }

  // ----- Tag index -----

  lemma {:induction false} UntagAt(tags: map<Tag, set<Key>>, k: Key, ts: seq<Tag>, t: Tag, j: Key)
    ensures var r := Untag(tags, k, ts);
      && ((t in r && j in r[t]) <==> (t in tags && j in tags[t] && !(j == k && t in ts)))
      && ((t in tags ==> tags[t] != {}) && t in r ==> r[t] != {})
      && (t in r ==> t in tags)
  {
    if ts != [] {
      UntagAt(tags, k, ts[..|ts| - 1], t, j);
      assert ts == ts[..|ts| - 1] + [ts[|ts| - 1]];
      var r := Untag(tags, k, ts[..|ts| - 1]);
      if t in r && j in r[t] && j != k {
        assert j in r[t] - {k};
      }
    }
  }

  lemma {:induction false} TaggedAt(tags: map<Tag, set<Key>>, k: Key, ts: seq<Tag>, t: Tag, j: Key)
    ensures var r := Tagged(tags, k, ts);
      && ((t in r && j in r[t]) <==> ((t in tags && j in tags[t]) || (j == k && t in ts)))
      && ((t in tags ==> tags[t] != {}) && t in r ==> r[t] != {})
  {
    if ts != [] {
      TaggedAt(tags, k, ts[..|ts| - 1], t, j);
      assert ts == ts[..|ts| - 1] + [ts[|ts| - 1]];
    }
  }

  lemma UntagExact(tags: map<Tag, set<Key>>, vals: map<Key, Entry>, k: Key)
    requires TagsExact(tags, vals) && k in vals
    ensures TagsExact(Untag(tags, k, vals[k].tags), vals - {k})
  {
    var r := Untag(tags, k, vals[k].tags);
    forall t, j
      ensures (t in r && j in r[t]) <==> (j in vals - {k} && t in (vals - {k})[j].tags)
      ensures t in r ==> r[t] != {}
    {
      UntagAt(tags, k, vals[k].tags, t, j);
    }
  }

  lemma TaggedExact(tags: map<Tag, set<Key>>, vals: map<Key, Entry>, k: Key, x: Entry)
    requires TagsExact(tags, vals) && k !in vals
    ensures TagsExact(Tagged(tags, k, x.tags), vals[k := x])
  {
    var r, w := Tagged(tags, k, x.tags), vals[k := x];
    forall t, j ensures (t in r && j in r[t]) <==> (j in w && t in w[j].tags) {
      TaggedAt(tags, k, x.tags, t, j);
      assert t in tags && j in tags[t] <==> j in vals && t in vals[j].tags;
    }
    forall t | t in r ensures r[t] != {} {
      TaggedAt(tags, k, x.tags, t, k);
    }
  }

  /** The entries determine the index. */
  lemma TagsDetermined(a: map<Tag, set<Key>>, b: map<Tag, set<Key>>, vals: map<Key, Entry>)
    requires TagsExact(a, vals) && TagsExact(b, vals)
    ensures a == b
  {
    forall t
      ensures t in a <==> t in b
      ensures t in a ==> a[t] == b[t]
    {
      InIndex(a, b, vals, t);
      InIndex(b, a, vals, t);
    }
  }

  lemma InIndex(a: map<Tag, set<Key>>, b: map<Tag, set<Key>>, vals: map<Key, Entry>, t: Tag)
    requires TagsExact(a, vals) && TagsExact(b, vals)
    ensures t in a ==> t in b && a[t] <= b[t]
  {
    if t in a {
      SomeMember(a[t]);
      var k :| k in a[t];
      assert k in vals && t in vals[k].tags;
      forall j | j in a[t] ensures j in b[t] {
        assert j in vals && t in vals[j].tags;
      }
    }
  }

  // ----- Building blocks -----

  lemma RemoveEntryKeeps(e: Engine, k: Key)
    requires Consistent(e)
    ensures Consistent(RemoveEntry(e, k))
  {
    if k in e.entries.vals {
      WithoutOk(e.entries, k);
      UntagExact(e.tags, e.entries.vals, k);
      TotalWithout(e.entries, k, EntryBytes);
    }
  }

  lemma AddEntryKeeps(e: Engine, k: Key, x: Entry)
    requires Consistent(e) && k !in e.entries.vals
    ensures Consistent(AddEntry(e, k, x))
  {
    SetOk(e.entries, k, x);
    TaggedExact(e.tags, e.entries.vals, k, x);
    TotalSet(e.entries, k, x, EntryBytes);
  }

  lemma RemoveLeaseKeeps(e: Engine, k: Key)
    requires Consistent(e)
    ensures Consistent(RemoveLease(e, k))
  {
    if k in e.leases.vals {
      WithoutOk(e.leases, k);
      TotalWithout(e.leases, k, LeaseBytes);
    }
  }

  /** `r` holds no more than `e`: every key of `r` is one of `e`, with the same size. */
  ghost predicate Shrinks(e: Engine, r: Engine) {
    && |r.entries.keys| <= |e.entries.keys| && |r.leases.keys| <= |e.leases.keys|
    && r.used <= e.used && r.leaseBytes <= e.leaseBytes
    && (forall k | k in r.entries.vals :: k in e.entries.vals && r.entries.vals[k].size == e.entries.vals[k].size)
  }

  lemma ShrinksTrans(a: Engine, b: Engine, c: Engine)
    requires Shrinks(a, b) && Shrinks(b, c)
    ensures Shrinks(a, c)
  {
  }

  lemma ShrinksWithin(lim: Limits, e: Engine, r: Engine)
    requires Valid(lim, e) && Consistent(r) && Shrinks(e, r)
    ensures Valid(lim, r)
  {
  }

  lemma RemoveEntryShrinks(e: Engine, k: Key)
    requires Consistent(e)
    ensures Consistent(RemoveEntry(e, k)) && Shrinks(e, RemoveEntry(e, k))
  {
    RemoveEntryKeeps(e, k);
    DropDistinct(e.entries.keys, k);
  }

  lemma RemoveLeaseShrinks(e: Engine, k: Key)
    requires Consistent(e)
    ensures Consistent(RemoveLease(e, k)) && Shrinks(e, RemoveLease(e, k))
  {
    RemoveLeaseKeeps(e, k);
    DropDistinct(e.leases.keys, k);
  }

  /** Moving an entry to the end of the order. */
  lemma MoveKeeps(e: Engine, k: Key)
    requires Consistent(e) && k in e.entries.vals
    ensures var r := e.(entries := e.entries.ToEnd(k)); Consistent(r) && Shrinks(e, r)
  {
    var x := e.entries.vals[k];
    ToEndOk(e.entries, k);
    WithoutOk(e.entries, k);
    TotalWithout(e.entries, k, EntryBytes);
    TotalSet(e.entries.Without(k), k, x, EntryBytes);
  }

  /** Updating an entry in place without changing its size or tags. */
  lemma UpdateKeeps(e: Engine, k: Key, x: Entry)
    requires Consistent(e) && k in e.entries.vals
    requires x.size == e.entries.vals[k].size && x.tags == e.entries.vals[k].tags
    ensures var r := e.(entries := e.entries.Set(k, x)); Consistent(r) && Shrinks(e, r)
  {
    var r := e.(entries := e.entries.Set(k, x));
    SetOk(e.entries, k, x);
    WeightSame(e.entries.keys, e.entries.vals, r.entries.vals, EntryBytes);
    forall t, j ensures (t in r.tags && j in r.tags[t]) <==> (j in r.entries.vals && t in r.entries.vals[j].tags) {
      assert (t in e.tags && j in e.tags[t]) <==> (j in e.entries.vals && t in e.entries.vals[j].tags);
    }
  }

  /** Counters change nothing that matters here. */
  lemma CountedKeeps(e: Engine, r: Engine)
    requires r == e.(metrics := r.metrics)
    ensures Consistent(e) ==> Consistent(r) && Shrinks(e, r)
  {
  }

  lemma CountedValid(lim: Limits, e: Engine, r: Engine)
    requires r == e.(metrics := r.metrics) && Valid(lim, e)
    ensures Valid(lim, r)
  {
  }

  /** The hit: moved to the end, and touched when counted. */
  function Refreshed(e: Engine, k: Key, now: int, count: bool): Engine
    requires k in e.entries.vals
  {
    var moved := e.entries.ToEnd(k);
    e.(entries := if count then moved.Set(k, Touched(e.entries.vals[k], now)) else moved)
  }

  lemma RefreshedKeeps(e: Engine, k: Key, now: int, count: bool)
    requires Consistent(e) && k in e.entries.vals
    ensures Consistent(Refreshed(e, k, now, count)) && Shrinks(e, Refreshed(e, k, now, count))
  {
    var m := e.(entries := e.entries.ToEnd(k));
    MoveKeeps(e, k);
    if count {
      UpdateKeeps(m, k, Touched(e.entries.vals[k], now));
      ShrinksTrans(e, m, Refreshed(e, k, now, count));
    }
  }

  /** Apart from the counters, a lookup removes an expired entry, refreshes a live one, or does nothing. */
  lemma LookupShape(e: Engine, k: Key, now: int, count: bool)
    ensures var r := Lookup(e, k, now, count).0;
      var b := if k !in e.entries.vals then e else if Passed(now, e.entries.vals[k].staleUntil) then RemoveEntry(e, k)
               else Refreshed(e, k, now, count);
      r == b.(metrics := r.metrics)
  {
  }

  lemma LookupKeeps(e: Engine, k: Key, now: int, count: bool)
    requires Consistent(e)
    ensures var r := Lookup(e, k, now, count).0; Consistent(r) && Shrinks(e, r)
  {
    var r := Lookup(e, k, now, count).0;
    LookupShape(e, k, now, count);
    if k !in e.entries.vals {
      CountedKeeps(e, r);
    } else if Passed(now, e.entries.vals[k].staleUntil) {
      RemoveEntryShrinks(e, k);
      CountedKeeps(RemoveEntry(e, k), r);
      ShrinksTrans(e, RemoveEntry(e, k), r);
    } else {
      RefreshedKeeps(e, k, now, count);
      CountedKeeps(Refreshed(e, k, now, count), r);
      ShrinksTrans(e, Refreshed(e, k, now, count), r);
    }
  }

  lemma {:induction false} PurgeLeasesKeeps(e: Engine, keys: seq<Key>, now: int)
    requires Consistent(e)
    ensures var r := PurgeLeases(e, keys, now);
      && Consistent(r) && Shrinks(e, r) && r.entries == e.entries
      && (forall k | k in r.leases.vals :: k in e.leases.vals && r.leases.vals[k] == e.leases.vals[k])
  {
    if keys != [] {
      var r, k := PurgeLeases(e, keys[..|keys| - 1], now), keys[|keys| - 1];
      PurgeLeasesKeeps(e, keys[..|keys| - 1], now);
      RemoveLeaseShrinks(r, k);
    }
  }

  lemma {:induction false} PurgeEntriesKeeps(e: Engine, keys: seq<Key>, now: int)
    requires Consistent(e)
    ensures var r := PurgeEntries(e, keys, now); Consistent(r) && Shrinks(e, r) && r.leases == e.leases
  {
    if keys != [] {
      var r, k := PurgeEntries(e, keys[..|keys| - 1], now), keys[|keys| - 1];
      PurgeEntriesKeeps(e, keys[..|keys| - 1], now);
      RemoveEntryShrinks(r, k);
    }
  }

  // ----- Eviction -----

  lemma EvictOneKeeps(e: Engine)
    requires Consistent(e) && e.entries.keys != []
    ensures var r := EvictOne(e);
      && Consistent(r) && Shrinks(e, r) && r.leases == e.leases && r.leaseBytes == e.leaseBytes
      && r.entries.keys == e.entries.keys[1..]
      && (forall k | k in r.entries.vals :: k in e.entries.vals && r.entries.vals[k] == e.entries.vals[k])
  {
    var k := e.entries.keys[0];
    assert k in e.entries.keys;
    RemoveEntryShrinks(e, k);
    DropAt(e.entries.keys, 0);
    assert e.entries.keys[..0] + e.entries.keys[1..] == e.entries.keys[1..];
  }

  /** The loop stops inside both limits, and keeps a suffix of the LRU order. */
  lemma {:induction false} EvictKeeps(lim: Limits, e: Engine)
    requires Consistent(e) && e.leaseBytes <= lim.maxMemory
    ensures var r := EvictIfNeeded(lim, e);
      && Consistent(r) && Shrinks(e, r) && !OverLimit(lim, r) && r.leases == e.leases
      && |r.entries.keys| <= |e.entries.keys| && r.entries.keys == e.entries.keys[|e.entries.keys| - |r.entries.keys|..]
      && (forall k | k in r.entries.vals :: k in e.entries.vals && r.entries.vals[k] == e.entries.vals[k])
    decreases |e.entries.keys|
  {
    if OverLimit(lim, e) && e.entries.keys != [] {
      assert e.entries.keys[0] in e.entries.keys;
      EvictOneKeeps(e);
      EvictKeeps(lim, EvictOne(e));
      ShrinksTrans(e, EvictOne(e), EvictIfNeeded(lim, e));
    } else if e.entries.keys == [] {
      assert Total(e.entries, EntryBytes) == 0;
    }
  }

  /** The newest entry survives its own eviction pass, when it fits beside the leases. */
  lemma {:induction false} NewestSurvives(lim: Limits, e: Engine, k: Key)
    requires Consistent(e) && lim.maxEntries > 0
    requires e.entries.keys != [] && e.entries.keys[|e.entries.keys| - 1] == k
    requires k in e.entries.vals && e.entries.vals[k].size + e.leaseBytes <= lim.maxMemory
    ensures k in EvictIfNeeded(lim, e).entries.vals && EvictIfNeeded(lim, e).entries.vals[k] == e.entries.vals[k]
    decreases |e.entries.keys|
  {
    if |e.entries.keys| == 1 {
      TotalOne(e.entries, EntryBytes);
    }
    if OverLimit(lim, e) {
      assert e.entries.keys[0] in e.entries.keys;
      EvictOneKeeps(e);
      NewestSurvives(lim, EvictOne(e), k);
    }
  }

  // ----- Operations -----

  lemma RemovedDict(e: Engine, k: Key)
    requires Consistent(e)
    ensures RemoveEntry(e, k).entries == e.entries.Without(k) && k !in RemoveEntry(e, k).entries.vals
    ensures RemoveLease(e, k).leases == e.leases.Without(k)
    ensures RemoveLease(e, k).leaseBytes == e.leaseBytes - LeaseSize(e, k)
  {
    if k !in e.entries.vals { WithoutAbsent(e.entries, k); }
    if k !in e.leases.vals { WithoutAbsent(e.leases, k); }
  }

  lemma StoreKeeps(e: Engine, k: Key, x: Entry)
    requires Consistent(e)
    ensures var r := Store(e, k, x);
      && Consistent(r)
      && r.entries == e.entries.Without(k).Set(k, x) && r.entries.keys != [] && r.entries.keys[|r.entries.keys| - 1] == k
      && r.leases == e.leases.Without(k)
      && r.leaseBytes == e.leaseBytes - LeaseSize(e, k)
  {
    var a := RemoveEntry(e, k);
    RemoveEntryKeeps(e, k);
    RemovedDict(e, k);
    var b := AddEntry(a, k, x);
    AddEntryKeeps(a, k, x);
    RemoveLeaseKeeps(b, k);
    RemovedDict(b, k);
  }

  ghost predicate Positive(lim: Limits) {
    lim.maxEntries > 0 && lim.maxMemory > 0 && lim.maxEntry > 0
  }

  lemma StoreThenEvict(lim: Limits, e: Engine, k: Key, x: Entry)
    requires Positive(lim) && Valid(lim, e)
    requires x.size <= lim.maxEntry && x.size + e.leaseBytes - LeaseSize(e, k) <= lim.maxMemory
    requires LeaseSize(e, k) <= e.leaseBytes <= lim.maxMemory
    ensures var r := EvictIfNeeded(lim, Store(e, k, x));
      Valid(lim, r) && k in r.entries.vals && r.entries.vals[k] == x
  {
    var a := Store(e, k, x);
    StoreKeeps(e, k, x);
    StoredSizes(lim, e, k, x);
    NewestSurvives(lim, a, k);
    EvictKeeps(lim, a);
  }

  lemma LeaseFits(lim: Limits, e: Engine, k: Key)
    requires Valid(lim, e)
    ensures LeaseSize(e, k) <= e.leaseBytes <= lim.maxMemory
  {
    TotalWithout(e.leases, k, LeaseBytes);
  }

  lemma LookupHit(e: Engine, k: Key, now: int)
    requires k in e.entries.vals && !Passed(now, e.entries.vals[k].staleUntil) && !Passed(now, e.entries.vals[k].freshUntil)
    ensures var (r, found) := Lookup(e, k, now, false);
      found == Fresh(e.entries.vals[k].value) && r.entries.vals == e.entries.vals
  {
  }

  lemma PutAcceptedKeeps(lim: Limits, e: Engine, k: Key, x: Entry, now: int)
    requires Positive(lim) && Valid(lim, e)
    requires x.size <= lim.maxEntry && x.size + e.leaseBytes - LeaseSize(e, k) <= lim.maxMemory
    ensures var (r, found) := StoreEvictLookup(lim, e, k, x, now);
      && Valid(lim, r)
      && (!Passed(now, x.staleUntil) && !Passed(now, x.freshUntil) ==>
            found == Fresh(x.value) && k in r.entries.vals && r.entries.vals[k] == x)
  {
    LeaseFits(lim, e, k);
    StoreThenEvict(lim, e, k, x);
    var b := EvictIfNeeded(lim, Store(e, k, x));
    LookupKeeps(b, k, now, false);
    ShrinksWithin(lim, b, Lookup(b, k, now, false).0);
    if !Passed(now, x.staleUntil) && !Passed(now, x.freshUntil) {
      LookupHit(b, k, now);
    }
  }

  /** A put keeps every limit, and what it stored is what a lookup then finds. */
  lemma PutKeeps(lim: Limits, e: Engine, k: Key, v: Value, w: Window, tags: seq<Tag>, size: nat, token: Option<Token>, now: int)
    requires Positive(lim) && Valid(lim, e)
    ensures var (r, out) := Put(lim, e, k, v, w, tags, size, token, now);
      && Valid(lim, r)
      && (out.Ok? && (w.For? ==> w.ttl > 0) ==>
            out.value == Fresh(v) && k in r.entries.vals && r.entries.vals[k] == NewEntry(e, k, v, w, tags, size, now))
  {
    if Put(lim, e, k, v, w, tags, size, token, now).1.Ok? {
      PutAcceptedKeeps(lim, e, k, NewEntry(e, k, v, w, tags, size, now), now);
    } else {
      RemoveLeaseShrinks(e, k);
      ShrinksWithin(lim, e, RemoveLease(e, k));
    }
  }

  lemma StoredSizes(lim: Limits, e: Engine, k: Key, x: Entry)
    requires Valid(lim, e) && x.size <= lim.maxEntry
    ensures var r := Store(e, k, x);
      && (forall j | j in r.entries.vals :: r.entries.vals[j].size <= lim.maxEntry)
      && |r.leases.keys| <= lim.maxEntries
  {
    StoreKeeps(e, k, x);
    DropShorter(e.leases.keys, k);
  }

  lemma DeleteKeeps(lim: Limits, e: Engine, k: Key)
    requires Valid(lim, e)
    ensures Valid(lim, Delete(e, k).0)
  {
    RemoveEntryShrinks(e, k);
    RemoveLeaseShrinks(RemoveEntry(e, k), k);
    ShrinksTrans(e, RemoveEntry(e, k), RemoveLease(RemoveEntry(e, k), k));
  }

  lemma ExpireKeeps(lim: Limits, e: Engine, k: Key, ttl: nat, now: int)
    requires Valid(lim, e)
    ensures Valid(lim, Expire(e, k, ttl, now).0)
  {
    LookupKeeps(e, k, now, false);
    var (r, found) := Lookup(e, k, now, false);
    ShrinksWithin(lim, e, r);
    if !found.Miss? && k in r.entries.vals {
      var x := r.entries.vals[k].(freshUntil := At(now + ttl), staleUntil := At(now + ttl), window := Some(ttl));
      UpdateKeeps(r, k, x);
      ShrinksWithin(lim, r, r.(entries := r.entries.Set(k, x)));
    }
  }

  lemma AcquireKeeps(lim: Limits, e: Engine, k: Key, force: bool, token: Token, size: nat, now: int)
    requires Valid(lim, e)
    ensures Valid(lim, Acquire(lim, e, k, force, token, size, now).0)
  {
    var p := PurgeLeases(e, e.leases.keys, now);
    PurgeLeasesKeeps(e, e.leases.keys, now);
    ShrinksWithin(lim, e, p);
    LookupKeeps(p, k, now, true);
    var c := Lookup(p, k, now, true).0;
    ShrinksWithin(lim, p, c);
    LookupLeavesLeases(p, k, now, true);
    PurgedAll(e, e.leases.keys, now, k);
    GrantedKeeps(lim, c, k, Lookup(p, k, now, true).1, token, size, now);
  }

  lemma GrantedKeeps(lim: Limits, c: Engine, k: Key, found: Found, token: Token, size: nat, now: int)
    requires Valid(lim, c) && (k in c.leases.vals ==> c.leases.vals[k].until > now)
    ensures Valid(lim, Grant(lim, c, k, found, token, size, now).0)
  {
    var r := Grant(lim, c, k, found, token, size, now).0;
    var l := Lease(token, now + lim.leaseSeconds, size);
    GrantShape(lim, c, k, found, token, size, now);
    if r == Leasing(c, k, l).(metrics := r.metrics) && k !in c.leases.vals
       && |c.leases.keys| < lim.maxEntries && c.used + l.size <= lim.maxMemory {
      GrantKeeps(lim, c, k, l);
      CountedValid(lim, Leasing(c, k, l), r);
    } else {
      CountedValid(lim, c, r);
    }
  }

  function Leasing(c: Engine, k: Key, l: Lease): Engine {
    c.(leases := c.leases.Set(k, l), used := c.used + l.size, leaseBytes := c.leaseBytes + l.size)
  }

  /** Apart from the counters, a grant adds one lease within the limits, or does nothing. */
  lemma GrantShape(lim: Limits, c: Engine, k: Key, found: Found, token: Token, size: nat, now: int)
    requires k in c.leases.vals ==> c.leases.vals[k].until > now
    ensures var r := Grant(lim, c, k, found, token, size, now).0;
      || r == c.(metrics := r.metrics)
      || (k !in c.leases.vals && |c.leases.keys| < lim.maxEntries && c.used + size <= lim.maxMemory
          && r == Leasing(c, k, Lease(token, now + lim.leaseSeconds, size)).(metrics := r.metrics))
  {
  }

  lemma GrantKeeps(lim: Limits, c: Engine, k: Key, l: Lease)
    requires Valid(lim, c) && k !in c.leases.vals && |c.leases.keys| < lim.maxEntries && c.used + l.size <= lim.maxMemory
    ensures Valid(lim, Leasing(c, k, l))
  {
    SetOk(c.leases, k, l);
    TotalSet(c.leases, k, l, LeaseBytes);
  }

  lemma ExtendKeeps(lim: Limits, e: Engine, k: Key, until: int)
    requires Valid(lim, e) && k in e.leases.vals
    ensures Valid(lim, e.(leases := e.leases.Set(k, e.leases.vals[k].(until := until))))
  {
    var l := e.leases.vals[k].(until := until);
    SetOk(e.leases, k, l);
    WeightSame(e.leases.keys, e.leases.vals, e.leases.vals[k := l], LeaseBytes);
  }

  lemma LookupLeavesLeases(e: Engine, k: Key, now: int, count: bool)
    ensures Lookup(e, k, now, count).0.leases == e.leases && Lookup(e, k, now, count).0.leaseBytes == e.leaseBytes
  {
  }

  lemma RemoveLeaseAt(e: Engine, j: Key, k: Key)
    ensures RemoveLease(e, j).leases.Get(k) == if j == k then None else e.leases.Get(k)
  {
  }

  /** After a purge every lease that is left is an old one, still running. */
  lemma {:induction false} PurgedAll(e: Engine, keys: seq<Key>, now: int, k: Key)
    ensures var l := PurgeLeases(e, keys, now).leases.Get(k);
      l.Some? ==> l == e.leases.Get(k) && (k in keys ==> l.value.until > now)
  {
    if keys != [] {
      var init, j := keys[..|keys| - 1], keys[|keys| - 1];
      assert keys == init + [j];
      PurgedAll(e, init, now, k);
      RemoveLeaseAt(PurgeLeases(e, init, now), j, k);
    }
  }

  lemma RenewKeeps(lim: Limits, e: Engine, k: Key, token: Token, now: int)
    requires Valid(lim, e)
    ensures Valid(lim, Renew(lim, e, k, token, now).0)
  {
    if k in e.leases.vals && e.leases.vals[k].until > now {
      ExtendKeeps(lim, e, k, now + lim.leaseSeconds);
    } else {
      RemoveLeaseShrinks(e, k);
      ShrinksWithin(lim, e, RemoveLease(e, k));
    }
  }

  lemma {:induction false} RemoveAllKeeps(e: Engine, keys: seq<Key>)
    requires Consistent(e)
    ensures var r := RemoveAll(e, keys).0; Consistent(r) && Shrinks(e, r)
  {
    if keys != [] {
      var r, k := RemoveAll(e, keys[..|keys| - 1]).0, keys[|keys| - 1];
      RemoveAllKeeps(e, keys[..|keys| - 1]);
      RemoveEntryShrinks(r, k);
      RemoveLeaseShrinks(RemoveEntry(r, k), k);
      ShrinksTrans(e, r, RemoveEntry(r, k));
      ShrinksTrans(e, RemoveEntry(r, k), RemoveLease(RemoveEntry(r, k), k));
    }
  }

  lemma {:induction false} RemoveAllMembers(e: Engine, keys: seq<Key>, k: Key)
    ensures RemoveAll(e, keys).0.entries.Get(k) == if k in keys then None else e.entries.Get(k)
  {
    if keys != [] {
      RemoveAllMembers(e, keys[..|keys| - 1], k);
      assert keys == keys[..|keys| - 1] + [keys[|keys| - 1]];
    }
  }

  lemma {:induction false} RemoveAllCounts(e: Engine, keys: seq<Key>)
    requires Consistent(e)
    ensures RemoveAll(e, keys).1 == |e.entries.keys| - |RemoveAll(e, keys).0.entries.keys|
  {
    if keys != [] {
      RemoveAllKeeps(e, keys[..|keys| - 1]);
      RemoveAllCounts(e, keys[..|keys| - 1]);
      WithoutOk(RemoveAll(e, keys[..|keys| - 1]).0.entries, keys[|keys| - 1]);
    }
  }

  lemma {:induction false} KeysTaggedMember(e: Engine, keys: seq<Key>, ts: seq<Tag>, k: Key)
    ensures k in KeysTagged(e, keys, ts) <==> k in keys && exists t | t in ts :: t in e.tags && k in e.tags[t]
  {
    if keys != [] {
      KeysTaggedMember(e, keys[..|keys| - 1], ts, k);
      assert keys == keys[..|keys| - 1] + [keys[|keys| - 1]];
    }
  }

  /** Invalidation removes exactly the entries that carry one of the tags, and counts them. */
  lemma InvalidateExact(e: Engine, ts: seq<Tag>, k: Key)
    requires Consistent(e)
    ensures var (r, n) := InvalidateTags(e, ts);
      && r.entries.Get(k) == (if k in e.entries.vals && exists t :: t in ts && t in e.entries.vals[k].tags then None
                              else e.entries.Get(k))
      && n == |e.entries.keys| - |r.entries.keys|
  {
    var keys := KeysTagged(e, e.entries.keys, ts);
    KeysTaggedMember(e, e.entries.keys, ts, k);
    RemoveAllMembers(e, keys, k);
    RemoveAllCounts(e, keys);
    assert forall t :: (t in e.tags && k in e.tags[t]) <==> (k in e.entries.vals && t in e.entries.vals[k].tags);
  }
}
