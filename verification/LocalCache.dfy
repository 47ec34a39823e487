/** The client's bounded LRU. */
module LocalCaches {
  import opened OrderedDict

  datatype LocalEntry = LocalEntry(value: string, freshUntil: int, staleUntil: int, size: nat)

  datatype Hit = Miss | Fresh(value: string) | Stale(value: string)

  function Size(e: LocalEntry): nat { e.size }

  /** `after` is `before` without some of its least recently used entries. */
  ghost predicate DropsOldest(before: Dict<LocalEntry>, after: Dict<LocalEntry>) {
    && |after.keys| <= |before.keys| && after.keys == before.keys[|before.keys| - |after.keys|..]
    && (forall k | k in after.vals :: k in before.vals && after.vals[k] == before.vals[k])
  }

  /** The newest entry, `k`, is within the memory limit. */
  ghost predicate Newest(d: Dict<LocalEntry>, k: Key, maxMemory: nat) {
    d.keys != [] && d.keys[|d.keys| - 1] == k && k in d.vals && d.vals[k].size <= maxMemory
  }

  /** Nothing is dropped in vain: with the last dropped entry, `after` would exceed a limit. */
  predicate OneTooMany(before: Dict<LocalEntry>, after: Dict<LocalEntry>, used: int, maxEntries: nat, maxMemory: nat) {
    var dropped := |before.keys| - |after.keys|;
    0 < dropped <= |before.keys| && before.keys[dropped - 1] in before.vals ==>
      |after.keys| + 1 > maxEntries || used + before.vals[before.keys[dropped - 1]].size > maxMemory
  }

  lemma TailOf(before: seq<Key>, keys: seq<Key>)
    requires 0 < |keys| <= |before| && keys == before[|before| - |keys|..]
    ensures keys[1..] == before[|before| - |keys[1..]|..]
  {
  }

  lemma WithoutOldest(d: Dict<LocalEntry>)
    requires d.Ok() && d.keys != []
    ensures d.Without(d.keys[0]).keys == d.keys[1..]
  {
    DropAt(d.keys, 0);
    assert d.keys[..0] + d.keys[1..] == d.keys[1..];
  }

  lemma TailDrops(before: Dict<LocalEntry>, d: Dict<LocalEntry>, r: Dict<LocalEntry>)
    requires d.keys != [] && DropsOldest(before, d) && r.keys == d.keys[1..] && r.vals == d.vals - {d.keys[0]}
    ensures DropsOldest(before, r)
  {
    TailOf(before.keys, d.keys);
  }

  lemma TailNewest(d: Dict<LocalEntry>, r: Dict<LocalEntry>, k: Key, maxMemory: nat)
    requires Distinct(d.keys) && |d.keys| > 1 && Newest(d, k, maxMemory)
    requires r.keys == d.keys[1..] && r.vals == d.vals - {d.keys[0]}
    ensures Newest(r, k, maxMemory)
  {
    assert d.keys[0] != d.keys[|d.keys| - 1];
  }

  lemma DropOldest(before: Dict<LocalEntry>, d: Dict<LocalEntry>, k: Key, maxMemory: nat)
    requires d.Ok() && |d.keys| > 1 && DropsOldest(before, d) && Newest(d, k, maxMemory)
    ensures var r := d.Without(d.keys[0]);
      DropsOldest(before, r) && Newest(r, k, maxMemory) && |r.keys| < |d.keys|
  {
    WithoutOldest(d);
    TailDrops(before, d, d.Without(d.keys[0]));
    TailNewest(d, d.Without(d.keys[0]), k, maxMemory);
  }

  /** One more step of the eviction loop, which was over a limit. */
  lemma StillNeeded(before: Dict<LocalEntry>, d: Dict<LocalEntry>, used: int, maxEntries: nat, maxMemory: nat)
    requires d.Ok() && d.keys != [] && DropsOldest(before, d) && (|d.keys| > maxEntries || used > maxMemory)
    ensures OneTooMany(before, d.Without(d.keys[0]), used - d.vals[d.keys[0]].size, maxEntries, maxMemory)
  {
    WithoutOldest(d);
    var dropped := |before.keys| - |d.keys|;
    assert d.keys[0] == before.keys[dropped];
  }

  /** Midway through the loop. */
  ghost predicate Evicting(before: Dict<LocalEntry>, d: Dict<LocalEntry>, k: Key, used: int, maxEntries: nat, maxMemory: nat) {
    && DropsOldest(before, d) && Newest(d, k, maxMemory) && OneTooMany(before, d, used, maxEntries, maxMemory)
    && d.Ok() && used == Total(d, Size)
  }

  lemma EvictStart(d: Dict<LocalEntry>, k: Key, used: int, maxEntries: nat, maxMemory: nat)
    requires d.Ok() && Newest(d, k, maxMemory) && used == Total(d, Size)
    ensures Evicting(d, d, k, used, maxEntries, maxMemory)
  {
    assert d.keys[0..] == d.keys;
  }

  /** The next step: the newest entry alone is within the limits, so there is another to drop. */
  lemma EvictStep(before: Dict<LocalEntry>, d: Dict<LocalEntry>, k: Key, used: int, maxEntries: nat, maxMemory: nat)
    requires Evicting(before, d, k, used, maxEntries, maxMemory) && maxEntries > 0
    requires |d.keys| > maxEntries || used > maxMemory
    ensures d.keys != [] && d.keys[0] in d.vals
    ensures var r := d.Without(d.keys[0]);
      Evicting(before, r, k, used - d.vals[d.keys[0]].size, maxEntries, maxMemory) && |r.keys| < |d.keys|
  {
    if |d.keys| == 1 { TotalOne(d, Size); }
    StillNeeded(before, d, used, maxEntries, maxMemory);
    DropOldest(before, d, k, maxMemory);
    WithoutOk(d, d.keys[0]);
    TotalWithout(d, d.keys[0], Size);
  }

  class LocalCache {
    const maxEntries: nat
    const maxMemory: nat
    var entries: Dict<LocalEntry>
    var used: int

    ghost predicate Exact()
      reads this
    {
      entries.Ok() && used == Total(entries, Size)
    }

    ghost predicate Valid()
      reads this
    {
      Exact() && maxEntries > 0 && |entries.keys| <= maxEntries && used <= maxMemory
    }

    constructor (maxEntries: nat, maxMemory: nat)
      requires maxEntries > 0 && maxMemory > 0
      ensures Valid() && entries == Dict([], map[]) && this.maxEntries == maxEntries && this.maxMemory == maxMemory
    {
      this.maxEntries, this.maxMemory := maxEntries, maxMemory;
      entries, used := Dict([], map[]), 0;
    }

    method Remove(k: Key)
      requires Exact()
      modifies this
      ensures Exact() && entries == old(entries).Without(k)
      ensures used == old(used) - if k in old(entries).vals then old(entries).vals[k].size else 0
    {
      WithoutOk(entries, k);
      TotalWithout(entries, k, Size);
      if k in entries.vals {
        used := used - entries.vals[k].size;
        entries := entries.Without(k);
      } else {
        WithoutAbsent(entries, k);
      }
    }

    /** A hit moves the entry to the most recent place; an expired entry is removed. */
    method Get(k: Key, now: int) returns (hit: Hit)
      requires Valid()
      modifies this
      ensures Valid()
      ensures hit.Miss? <==> k !in old(entries).vals || now >= old(entries).vals[k].staleUntil
      ensures !hit.Miss? ==> hit.value == old(entries).vals[k].value && entries == old(entries).ToEnd(k)
      ensures hit.Fresh? <==> !hit.Miss? && now < old(entries).vals[k].freshUntil
      ensures hit.Miss? ==> entries == old(entries).Without(k)
    {
      if k !in entries.vals {
        WithoutAbsent(entries, k);
        return Miss;
      }
      var e := entries.vals[k];
      if now >= e.staleUntil {
        DropShorter(entries.keys, k);
        Remove(k);
        return Miss;
      }
      ToEndOk(entries, k);
      WithoutOk(entries, k);
      TotalWithout(entries, k, Size);
      TotalSet(entries.Without(k), k, e, Size);
      entries := entries.ToEnd(k);
      hit := if now < e.freshUntil then Fresh(e.value) else Stale(e.value);
    }

    /** The eviction loop drops the oldest entries, never the newest one. */
    method Evict(ghost newest: Key)
      requires Exact() && maxEntries > 0 && Newest(entries, newest, maxMemory)
      modifies this
      ensures Valid() && newest in entries.vals && DropsOldest(old(entries), entries)
      ensures OneTooMany(old(entries), entries, used, maxEntries, maxMemory)
    {
      EvictStart(entries, newest, used, maxEntries, maxMemory);
      while |entries.keys| > maxEntries || used > maxMemory
        invariant Evicting(old(entries), entries, newest, used, maxEntries, maxMemory)
        decreases |entries.keys|
      {
        EvictStep(old(entries), entries, newest, used, maxEntries, maxMemory);
        Remove(entries.keys[0]);
      }
    }

    /** Store the value as the newest entry, unless it alone exceeds the memory limit. */
    method Put(k: Key, value: string, ttl: nat, stale: nat, size: nat, now: int) returns (stored: bool)
      requires Valid()
      modifies this
      ensures Valid() && stored == (size <= maxMemory)
      ensures !stored ==> entries == old(entries)
      ensures stored ==> k in entries.vals && entries.vals[k] == LocalEntry(value, now + ttl, now + ttl + stale, size)
      ensures stored ==>
        var put := old(entries).Without(k).Set(k, LocalEntry(value, now + ttl, now + ttl + stale, size));
        DropsOldest(put, entries) && OneTooMany(put, entries, used, maxEntries, maxMemory)
    {
      if size > maxMemory {
        return false;
      }
      var e := LocalEntry(value, now + ttl, now + ttl + stale, size);
      Remove(k);
      SetOk(entries, k, e);
      TotalSet(entries, k, e, Size);
      entries := entries.Set(k, e);
      used := used + size;
      Evict(k);
      stored := true;
    }

    method Clear()
      requires Valid()
      modifies this
      ensures Valid() && entries == Dict([], map[])
    {
      entries, used := Dict([], map[]), 0;
    }
  }
}
