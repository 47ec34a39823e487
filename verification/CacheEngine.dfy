/** The cache engine with its fields updated in place, each method proved against its transition. */
module CacheEngineClass {
  import opened OrderedDict
  import M = EngineModel
  import Inv = EngineInvariant
  import R = EngineRuns

  class CacheEngine {
    const lim: M.Limits
    var entries: Dict<M.Entry>
    var tags: map<M.Tag, set<Key>>
    var leases: Dict<M.Lease>
    var used: int
    var leaseBytes: int
    var metrics: map<string, nat>
    var journal: Option<M.Journal>

    function State(): M.Engine
      reads this
    {
      M.Engine(entries, tags, leases, used, leaseBytes, metrics, journal)
    }

    ghost predicate Valid()
      reads this
    {
      Inv.Positive(lim) && Inv.Valid(lim, State())
    }

    constructor (limits: M.Limits)
      requires Inv.Positive(limits)
      ensures lim == limits && State() == M.Empty() && Valid()
    {
      lim := limits;
      entries, tags, leases := Dict([], map[]), map[], Dict([], map[]);
      used, leaseBytes, metrics, journal := 0, 0, map[], None;
    }

    method Count(name: string)
      modifies this`metrics
      ensures State() == M.Counted(old(State()), name)
    {
      metrics := M.Bump(metrics, name);
    }

    method RemoveEntry(k: Key) returns (existed: bool)
      modifies this`entries, this`tags, this`used, this`journal
      ensures State() == M.RemoveEntry(old(State()), k) && existed == (k in old(entries).vals)
    {
      existed := k in entries.vals;
      if existed {
        var x := entries.vals[k];
        entries := entries.Without(k);
        if journal.Some? && k != journal.value.key && k !in M.EvictedKeys(journal.value.evicted) {
          journal := Some(journal.value.(evicted := journal.value.evicted + [(k, x)]));
        }
        used := used - x.size;
        DiscardTags(k, x.tags);
      }
    }

    method DiscardTags(k: Key, ts: seq<M.Tag>)
      modifies this`tags
      ensures tags == M.Untag(old(tags), k, ts)
    {
      var i := 0;
      while i < |ts|
        invariant i <= |ts| && tags == M.Untag(old(tags), k, ts[..i])
      {
        var t := ts[i];
        assert ts[..i + 1][..i] == ts[..i];
        if t in tags {
          var left := tags[t] - {k};
          tags := if left == {} then tags - {t} else tags[t := left];
        }
        i := i + 1;
      }
      assert ts[..i] == ts;
    }

    method AddTags(k: Key, ts: seq<M.Tag>)
      modifies this`tags
      ensures tags == M.Tagged(old(tags), k, ts)
    {
      var i := 0;
      while i < |ts|
        invariant i <= |ts| && tags == M.Tagged(old(tags), k, ts[..i])
      {
        var t := ts[i];
        assert ts[..i + 1][..i] == ts[..i];
        tags := tags[t := (if t in tags then tags[t] else {}) + {k}];
        i := i + 1;
      }
      assert ts[..i] == ts;
    }

    method RemoveLease(k: Key) returns (existed: bool)
      modifies this`leases, this`used, this`leaseBytes
      ensures State() == M.RemoveLease(old(State()), k) && existed == (k in old(leases).vals)
    {
      existed := k in leases.vals;
      if existed {
        var l := leases.vals[k];
        leases := leases.Without(k);
        used := used - l.size;
        leaseBytes := leaseBytes - l.size;
      }
    }

    method PurgeExpiredLeases(now: int)
      modifies this`leases, this`used, this`leaseBytes
      ensures State() == M.PurgeLeases(old(State()), old(leases).keys, now)
    {
      var keys, i := leases.keys, 0;
      while i < |keys|
        invariant i <= |keys| && State() == M.PurgeLeases(old(State()), keys[..i], now)
      {
        var k := keys[i];
        assert keys[..i + 1][..i] == keys[..i];
        if k in leases.vals && leases.vals[k].until <= now {
          var _ := RemoveLease(k);
        }
        i := i + 1;
      }
      assert keys[..i] == keys;
    }

    method PurgeExpiredEntries(now: int)
      modifies this`entries, this`tags, this`used, this`journal
      ensures State() == M.PurgeEntries(old(State()), old(entries).keys, now)
    {
      var keys, i := entries.keys, 0;
      while i < |keys|
        invariant i <= |keys| && State() == M.PurgeEntries(old(State()), keys[..i], now)
      {
        var k := keys[i];
        assert keys[..i + 1][..i] == keys[..i];
        if k in entries.vals && M.Passed(now, entries.vals[k].staleUntil) {
          var _ := RemoveEntry(k);
        }
        i := i + 1;
      }
      assert keys[..i] == keys;
    }

    method Lookup(k: Key, now: int, count: bool) returns (found: M.Found)
      modifies this`entries, this`tags, this`used, this`journal, this`metrics
      ensures (State(), found) == M.Lookup(old(State()), k, now, count)
    {
      if k !in entries.vals {
        if count { Count("misses_total"); }
        return M.Miss;
      }
      var x := entries.vals[k];
      if M.Passed(now, x.staleUntil) {
        var _ := RemoveEntry(k);
        if count { Count("misses_total"); Count("expirations_total"); }
        return M.Miss;
      }
      entries := entries.ToEnd(k);
      if count { entries := entries.Set(k, M.Touched(x, now)); }
      if !M.Passed(now, x.freshUntil) {
        if count { Count("hits_total"); }
        return M.Fresh(x.value);
      }
      if count { Count("stale_hits_total"); }
      return M.Stale(x.value);
    }

    /** The eviction loop: it ends, inside both limits. */
    method EvictIfNeeded()
      requires Inv.Consistent(State()) && leaseBytes <= lim.maxMemory
      modifies this`entries, this`tags, this`used, this`journal, this`metrics
      ensures State() == M.EvictIfNeeded(lim, old(State()))
      ensures |entries.keys| <= lim.maxEntries && used <= lim.maxMemory
    {
      ghost var target := M.EvictIfNeeded(lim, State());
      Inv.EvictKeeps(lim, State());
      while |entries.keys| > lim.maxEntries || used > lim.maxMemory
        invariant Inv.Consistent(State()) && leaseBytes <= lim.maxMemory
        invariant M.EvictIfNeeded(lim, State()) == target
        decreases |entries.keys|
      {
        NothingToEvict(State());
        var k := entries.keys[0];
        assert k in entries.keys;
        Inv.EvictOneKeeps(State());
        var _ := RemoveEntry(k);
        Count("evictions_total");
        Count("lru_evictions_total");
      }
    }

    /** An engine over one of its limits holds an entry. */
    lemma NothingToEvict(e: M.Engine)
      requires Inv.Consistent(e) && e.leaseBytes <= lim.maxMemory && M.OverLimit(lim, e)
      ensures e.entries.keys != []
    {
      assert e.entries.keys == [] ==> Total(e.entries, Inv.EntryBytes) == 0;
    }

    method Store(k: Key, x: M.Entry)
      modifies this`entries, this`tags, this`leases, this`used, this`leaseBytes, this`journal, this`metrics
      ensures State() == M.Store(old(State()), k, x)
    {
      var _ := RemoveEntry(k);
      entries := entries.Set(k, x);
      used := used + x.size;
      AddTags(k, x.tags);
      var _ := RemoveLease(k);
      Count("writes_total");
    }

    method Put(k: Key, v: M.Value, w: M.Window, ts: seq<M.Tag>, size: nat, token: Option<M.Token>, now: int)
      returns (out: M.Outcome<M.Found>)
      requires Valid()
      modifies this`entries, this`tags, this`leases, this`used, this`leaseBytes, this`journal, this`metrics
      ensures (State(), out) == M.Put(lim, old(State()), k, v, w, ts, size, token, now)
      ensures Valid()
    {
      Inv.PutKeeps(lim, State(), k, v, w, ts, size, token, now);
      if size > lim.maxEntry || size > lim.maxMemory {
        Count("rejected_entries_total");
        return M.Err(M.TooLarge);
      }
      if token.Some? {
        if k !in leases.vals || leases.vals[k].until <= now {
          var _ := RemoveLease(k);
          return M.Err(M.LeaseMissing);
        }
        if leases.vals[k].token != token.value {
          return M.Err(M.TokenMismatch);
        }
      }
      var reserved := leaseBytes - (if k in leases.vals then leases.vals[k].size else 0);
      if size + reserved > lim.maxMemory {
        Count("rejected_entries_total");
        return M.Err(M.NoMemory);
      }
      var found := Accept(k, M.NewEntry(State(), k, v, w, ts, size, now), now);
      out := M.Ok(found);
    }

    method Accept(k: Key, x: M.Entry, now: int) returns (found: M.Found)
      requires Valid() && x.size + leaseBytes - M.LeaseSize(State(), k) <= lim.maxMemory
      modifies this`entries, this`tags, this`leases, this`used, this`leaseBytes, this`journal, this`metrics
      ensures (State(), found) == M.StoreEvictLookup(lim, old(State()), k, x, now)
    {
      Inv.StoreKeeps(State(), k, x);
      Inv.LeaseFits(lim, State(), k);
      Store(k, x);
      EvictIfNeeded();
      found := Lookup(k, now, false);
    }

    method Get(k: Key, now: int) returns (found: M.Found)
      requires Valid()
      modifies this`entries, this`tags, this`used, this`journal, this`metrics
      ensures (State(), found) == M.Get(old(State()), k, now) && Valid()
    {
      Inv.LookupKeeps(State(), k, now, true);
      Inv.ShrinksWithin(lim, State(), M.Get(State(), k, now).0);
      found := Lookup(k, now, true);
    }

    method Delete(k: Key) returns (existed: bool)
      requires Valid()
      modifies this`entries, this`tags, this`leases, this`used, this`leaseBytes, this`journal, this`metrics
      ensures (State(), existed) == M.Delete(old(State()), k) && Valid()
    {
      Inv.DeleteKeeps(lim, State(), k);
      existed := RemoveEntry(k);
      var _ := RemoveLease(k);
      if existed { Count("deletes_total"); }
    }

    method Expire(k: Key, ttl: nat, now: int) returns (done: bool)
      requires Valid()
      modifies this`entries, this`tags, this`used, this`journal, this`metrics
      ensures (State(), done) == M.Expire(old(State()), k, ttl, now) && Valid()
    {
      Inv.ExpireKeeps(lim, State(), k, ttl, now);
      var found := Lookup(k, now, false);
      if found.Miss? || k !in entries.vals {
        return false;
      }
      var x := entries.vals[k].(freshUntil := M.At(now + ttl), staleUntil := M.At(now + ttl), window := Some(ttl));
      entries := entries.Set(k, x);
      Count("expirations_set_total");
      done := true;
    }

    method Flush() returns (removed: nat)
      requires Valid()
      modifies this`entries, this`tags, this`leases, this`used, this`leaseBytes, this`metrics
      ensures (State(), removed) == M.Flush(old(State())) && Valid()
    {
      removed := |entries.keys|;
      entries, tags, leases := Dict([], map[]), map[], Dict([], map[]);
      used, leaseBytes := 0, 0;
      Count("flushes_total");
    }

    /** `token` is the token this call draws, `size` what holding the lease costs. */
    method AcquireLease(k: Key, force: bool, token: M.Token, size: nat, now: int) returns (out: M.Outcome<M.Leased>)
      requires Valid()
      modifies this`entries, this`tags, this`leases, this`used, this`leaseBytes, this`journal, this`metrics
      ensures (State(), out) == M.Acquire(lim, old(State()), k, force, token, size, now) && Valid()
    {
      Inv.AcquireKeeps(lim, State(), k, force, token, size, now);
      PurgeExpiredLeases(now);
      var found := Lookup(k, now, true);
      if found.Fresh? && !force {
        return M.Ok(M.Cached(found));
      }
      out := GrantLease(k, found, token, size, now);
    }

    method GrantLease(k: Key, found: M.Found, token: M.Token, size: nat, now: int) returns (out: M.Outcome<M.Leased>)
      modifies this`leases, this`used, this`leaseBytes, this`metrics
      ensures (State(), out) == M.Grant(lim, old(State()), k, found, token, size, now)
    {
      if k in leases.vals && leases.vals[k].until > now {
        Count("coalesced_total");
        return M.Ok(if found.Stale? then M.Cached(found) else M.Loading);
      }
      if |leases.keys| >= lim.maxEntries || used + size > lim.maxMemory {
        Count("rejected_leases_total");
        return M.Err(M.LeaseCapacity);
      }
      leases := leases.Set(k, M.Lease(token, now + lim.leaseSeconds, size));
      used := used + size;
      leaseBytes := leaseBytes + size;
      Count("leases_total");
      return M.Ok(M.Granted(token, if found.Stale? then Some(found.value) else None));
    }

    method ReleaseLease(k: Key, token: M.Token) returns (done: bool)
      requires Valid()
      modifies this`leases, this`used, this`leaseBytes
      ensures (State(), done) == M.Release(old(State()), k, token) && Valid()
    {
      Inv.RemoveLeaseShrinks(State(), k);
      Inv.ShrinksWithin(lim, State(), M.RemoveLease(State(), k));
      if k !in leases.vals || leases.vals[k].token != token {
        return false;
      }
      done := RemoveLease(k);
    }

    method RenewLease(k: Key, token: M.Token, now: int) returns (done: bool)
      requires Valid()
      modifies this`leases, this`used, this`leaseBytes, this`metrics
      ensures (State(), done) == M.Renew(lim, old(State()), k, token, now) && Valid()
    {
      Inv.RenewKeeps(lim, State(), k, token, now);
      if k !in leases.vals || leases.vals[k].until <= now {
        var _ := RemoveLease(k);
        return false;
      }
      if leases.vals[k].token != token {
        return false;
      }
      leases := leases.Set(k, leases.vals[k].(until := now + lim.leaseSeconds));
      Count("lease_renewals_total");
      done := true;
    }

    /** Remove the entry and lease of every key, counting the entries. */
    method RemoveAll(keys: seq<Key>) returns (removed: nat)
      modifies this`entries, this`tags, this`leases, this`used, this`leaseBytes, this`journal
      ensures (State(), removed) == M.RemoveAll(old(State()), keys)
    {
      removed := 0;
      var i := 0;
      while i < |keys|
        invariant i <= |keys| && (State(), removed) == M.RemoveAll(old(State()), keys[..i])
      {
        assert keys[..i + 1][..i] == keys[..i];
        var existed := RemoveEntry(keys[i]);
        var _ := RemoveLease(keys[i]);
        removed := removed + if existed then 1 else 0;
        i := i + 1;
      }
      assert keys[..i] == keys;
    }

    method InvalidateTags(ts: seq<M.Tag>) returns (removed: nat)
      requires Valid()
      modifies this`entries, this`tags, this`leases, this`used, this`leaseBytes, this`journal, this`metrics
      ensures (State(), removed) == M.InvalidateTags(old(State()), ts) && Valid()
    {
      var keys := M.KeysTagged(State(), entries.keys, ts);
      Inv.RemoveAllKeeps(State(), keys);
      Inv.ShrinksWithin(lim, State(), M.RemoveAll(State(), keys).0);
      removed := RemoveAll(keys);
      metrics := metrics["invalidations_total" :=
        (if "invalidations_total" in metrics then metrics["invalidations_total"] else 0) + removed];
    }

    // ----- Restoring a snapshot -----

    /** What the entries to be replaced and the new ones add up to. */
    method Measure(ps: seq<M.Prepared>) returns (replacedBytes: nat, replacedCount: nat, newBytes: nat)
      ensures replacedBytes == M.ReplacedBytes(State(), ps)
      ensures replacedCount == M.ReplacedCount(State(), ps)
      ensures newBytes == M.NewBytes(ps)
    {
      replacedBytes, replacedCount, newBytes := 0, 0, 0;
      var i := 0;
      while i < |ps|
        invariant i <= |ps| && replacedBytes == M.ReplacedBytes(State(), ps[..i])
        invariant replacedCount == M.ReplacedCount(State(), ps[..i]) && newBytes == M.NewBytes(ps[..i])
      {
        assert ps[..i + 1][..i] == ps[..i];
        if ps[i].key in entries.vals {
          replacedBytes := replacedBytes + entries.vals[ps[i].key].size;
          replacedCount := replacedCount + 1;
        }
        newBytes := newBytes + ps[i].size;
        i := i + 1;
      }
      assert ps[..i] == ps;
    }

    method Load(ps: seq<M.Prepared>, now: int)
      modifies this`entries, this`tags, this`used, this`journal
      ensures State() == M.Load(old(State()), ps, now)
    {
      var i := 0;
      while i < |ps|
        invariant i <= |ps| && State() == M.Load(old(State()), ps[..i], now)
      {
        assert ps[..i + 1][..i] == ps[..i];
        var p := ps[i];
        var x := M.PreparedEntry(p, now);
        var _ := RemoveEntry(p.key);
        entries := entries.Set(p.key, x);
        used := used + x.size;
        AddTags(p.key, x.tags);
        i := i + 1;
      }
      assert ps[..i] == ps;
    }

    /** Purge, check the capacity that would result, then load everything. */
    method RestoreEntries(ps: seq<M.Prepared>, now: int) returns (out: M.Outcome<nat>)
      requires Valid() && R.Prechecked(lim, R.RestoreOp(ps, now))
      modifies this`entries, this`tags, this`used, this`journal
      ensures (State(), out) == M.RestoreEntries(lim, old(State()), ps, now) && Valid()
    {
      R.RestoreKeeps(lim, State(), ps, now);
      PurgeExpiredEntries(now);
      var replacedBytes, replacedCount, newBytes := Measure(ps);
      if |entries.keys| - replacedCount + |ps| > lim.maxEntries || used - replacedBytes + newBytes > lim.maxMemory {
        return M.Err(M.SnapshotCapacity);
      }
      Load(ps, now);
      out := M.Ok(|ps|);
    }

    // ----- The undo journal -----

    /** Walk to the key, remembering the key before it. */
    method FindPredecessor(k: Key) returns (p: Option<Key>)
      ensures p == M.Predecessor(entries.keys, k)
    {
      p := None;
      var i := 0;
      while i < |entries.keys|
        invariant i <= |entries.keys| && p == (if i == 0 then None else Some(entries.keys[i - 1]))
        invariant M.Predecessor(entries.keys, k) == PredecessorFrom(entries.keys[i..], k, p)
      {
        assert entries.keys[i..][1..] == entries.keys[i + 1..];
        if entries.keys[i] == k {
          return;
        }
        p := Some(entries.keys[i]);
        i := i + 1;
      }
    }

    static ghost function PredecessorFrom(rest: seq<Key>, k: Key, before: Option<Key>): Option<Key> {
      var r := M.Predecessor(rest, k);
      if r.None? then before else r
    }

    method BeginCheckpoint(k: Key) returns (ok: bool)
      requires Valid()
      modifies this`journal
      ensures ok == old(journal).None? && Valid()
      ensures State() == if ok then M.Begin(old(State()), k) else old(State())
    {
      if journal.Some? {
        return false;
      }
      var p := FindPredecessor(k);
      journal := Some(M.Journal(k, entries.Get(k), p, leases.Get(k), used, leaseBytes, metrics, []));
      ok := true;
    }

    method CommitCheckpoint()
      requires Valid()
      modifies this`journal
      ensures State() == M.Commit(old(State())) && Valid()
    {
      journal := None;
    }

    method PutBack(k: Key, x: M.Entry)
      modifies this`entries, this`tags, this`used, this`journal
      ensures State() == M.PutBack(old(State()), k, x)
    {
      var _ := RemoveEntry(k);
      entries := entries.Set(k, x).ToFront(k);
      AddTags(k, x.tags);
    }

    /** Put evicted entries back at the front, last evicted first. */
    method ReinstateEvicted(evicted: seq<(Key, M.Entry)>)
      modifies this`entries, this`tags, this`used, this`journal
      ensures State() == M.Reinstate(old(State()), evicted)
    {
      ghost var target := M.Reinstate(State(), evicted);
      var i := |evicted|;
      assert evicted[..i] == evicted;
      while i > 0
        invariant 0 <= i <= |evicted| && M.Reinstate(State(), evicted[..i]) == target
      {
        assert evicted[..i][..i - 1] == evicted[..i - 1];
        PutBack(evicted[i - 1].0, evicted[i - 1].1);
        i := i - 1;
      }
    }

    /** Walk back from the end to the predecessor and insert the entry after it, before the tail. */
    method ReinsertEntry(k: Key, x: M.Entry, p: Option<Key>)
      modifies this`entries
      ensures entries == M.InsertAfter(old(entries), k, x, p)
    {
      var keys, n := entries.keys, |entries.keys|;
      if p.None? {
        n := 0;
      } else {
        assert keys[..n] == keys;
        while n > 0 && keys[n - 1] != p.value
          invariant 0 <= n <= |keys| && M.After(keys, p.value) == M.After(keys[..n], p.value)
        {
          assert keys[..n][..n - 1] == keys[..n - 1];
          n := n - 1;
        }
      }
      entries := Dict(keys[..n] + [k] + keys[n..], entries.vals[k := x]);
    }

    /** Restoring the checkpoint. */
    method RestoreCheckpoint() returns (ok: bool)
      modifies this`entries, this`tags, this`leases, this`used, this`leaseBytes, this`journal, this`metrics
      ensures ok == old(journal).Some?
      ensures State() == if ok then M.Undo(old(State())) else old(State())
    {
      if journal.None? {
        return false;
      }
      var j := journal.value;
      journal := None;
      var _ := RemoveEntry(j.key);
      var _ := RemoveLease(j.key);
      ReinstateEvicted(j.evicted);
      if j.entry.Some? {
        ReinsertEntry(j.key, j.entry.value, j.predecessor);
        AddTags(j.key, j.entry.value.tags);
      }
      if j.lease.Some? {
        leases := leases.Set(j.key, j.lease.value);
      }
      used, leaseBytes, metrics := j.used, j.leaseBytes, j.metrics;
      ok := true;
    }
  }
}
