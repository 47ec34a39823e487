/** The counters of hits, stale hits and misses, over runs: each is the number of such answers. */
module EngineCounters {
  import opened OrderedDict
  import opened EngineModel
  import opened EngineInvariant
  import opened EngineRuns
  import opened EngineAnswers

  datatype Kind = FreshHit | StaleHit | NoHit

  function NameOf(kind: Kind): string {
    match kind
    case FreshHit => "hits_total"
    case StaleHit => "stale_hits_total"
    case NoHit => "misses_total"
  }

  function KindOf(found: Found): Kind {
    match found
    case Miss => NoHit
    case Fresh(_) => FreshHit
    case Stale(_) => StaleHit
  }

  function CountOf(metrics: map<string, nat>, name: string): nat {
    if name in metrics then metrics[name] else 0
  }

  /** The three counters agree. */
  predicate SameCounts(a: map<string, nat>, b: map<string, nat>) {
    forall kind: Kind :: CountOf(a, NameOf(kind)) == CountOf(b, NameOf(kind))
  }

  /** One more answer of the kind. */
  predicate OneMore(a: map<string, nat>, b: map<string, nat>, one: Kind) {
    forall kind: Kind :: CountOf(b, NameOf(kind)) == CountOf(a, NameOf(kind)) + if kind == one then 1 else 0
  }

  lemma BumpCounts(metrics: map<string, nat>, name: string, other: string)
    ensures CountOf(Bump(metrics, name), other) == CountOf(metrics, other) + if name == other then 1 else 0
  {
  }

  /** A counter with another name. */
  lemma BumpOther(metrics: map<string, nat>, name: string)
    requires forall kind: Kind :: name != NameOf(kind)
    ensures SameCounts(metrics, Bump(metrics, name))
  {
    forall kind: Kind ensures CountOf(metrics, NameOf(kind)) == CountOf(Bump(metrics, name), NameOf(kind)) {
      BumpCounts(metrics, name, NameOf(kind));
    }
  }

  lemma BumpOne(metrics: map<string, nat>, one: Kind)
    ensures OneMore(metrics, Bump(metrics, NameOf(one)), one)
  {
    forall kind: Kind
      ensures CountOf(Bump(metrics, NameOf(one)), NameOf(kind)) == CountOf(metrics, NameOf(kind)) + if kind == one then 1 else 0
    {
      BumpCounts(metrics, NameOf(one), NameOf(kind));
      NamesDiffer(kind, one);
    }
  }

  lemma NamesDiffer(a: Kind, b: Kind)
    ensures NameOf(a) == NameOf(b) <==> a == b
  {
    assert |NameOf(FreshHit)| == 10 && |NameOf(StaleHit)| == 16 && |NameOf(NoHit)| == 12;
  }

  /** A name that starts like none of the three. */
  lemma OtherName(name: string)
    requires name != [] && name[0] != 'h' && name[0] != 's' && name[0] != 'm'
    ensures forall kind: Kind :: name != NameOf(kind)
  {
    assert NameOf(FreshHit)[0] == 'h' && NameOf(StaleHit)[0] == 's' && NameOf(NoHit)[0] == 'm';
  }

  /** Counting under such a name. */
  lemma CountsOther(e: Engine, name: string)
    requires name != [] && name[0] != 'h' && name[0] != 's' && name[0] != 'm'
    ensures SameCounts(e.metrics, Counted(e, name).metrics)
  {
    OtherName(name);
    BumpOther(e.metrics, name);
  }

  // ----- Steps that count nothing -----

  lemma {:induction false} PurgeLeasesQuiet(e: Engine, keys: seq<Key>, now: int)
    ensures PurgeLeases(e, keys, now).metrics == e.metrics
  {
    if keys != [] { PurgeLeasesQuiet(e, keys[..|keys| - 1], now); }
  }

  lemma {:induction false} PurgeEntriesQuiet(e: Engine, keys: seq<Key>, now: int)
    ensures PurgeEntries(e, keys, now).metrics == e.metrics
  {
    if keys != [] { PurgeEntriesQuiet(e, keys[..|keys| - 1], now); }
  }

  lemma {:induction false} RemoveAllQuiet(e: Engine, keys: seq<Key>)
    ensures RemoveAll(e, keys).0.metrics == e.metrics
  {
    if keys != [] { RemoveAllQuiet(e, keys[..|keys| - 1]); }
  }

  lemma {:induction false} LoadQuiet(e: Engine, ps: seq<Prepared>, now: int)
    ensures Load(e, ps, now).metrics == e.metrics
  {
    if ps != [] { LoadQuiet(e, ps[..|ps| - 1], now); }
  }

  lemma {:induction false} EvictQuiet(lim: Limits, e: Engine)
    ensures SameCounts(e.metrics, EvictIfNeeded(lim, e).metrics)
    decreases |e.entries.keys|
  {
    if OverLimit(lim, e) && e.entries.keys != [] && e.entries.keys[0] in e.entries.vals {
      DropShorter(e.entries.keys, e.entries.keys[0]);
      EvictOneQuiet(e);
      EvictQuiet(lim, EvictOne(e));
    }
  }

  lemma EvictOneQuiet(e: Engine)
    requires e.entries.keys != []
    ensures SameCounts(e.metrics, EvictOne(e).metrics)
  {
    var r := RemoveEntry(e, e.entries.keys[0]);
    CountsOther(r, "evictions_total");
    CountsOther(Counted(r, "evictions_total"), "lru_evictions_total");
  }

  // ----- Lookups -----

  lemma LookupCounts(e: Engine, k: Key, now: int)
    ensures OneMore(e.metrics, Lookup(e, k, now, true).0.metrics, KindOf(Answer(e, k, now)))
  {
    var (r, found) := Lookup(e, k, now, true);
    BumpOne(e.metrics, KindOf(found));
    OtherName("expirations_total");
    BumpOther(Bump(e.metrics, "misses_total"), "expirations_total");
    GetAnswers(e, k, now);
  }

  lemma LookupQuiet(e: Engine, k: Key, now: int)
    ensures Lookup(e, k, now, false).0.metrics == e.metrics
  {
  }

  // ----- Operations -----

  lemma PutQuiet(lim: Limits, e: Engine, k: Key, v: Value, w: Window, tags: seq<Tag>, size: nat, token: Option<Token>, now: int)
    ensures SameCounts(e.metrics, Put(lim, e, k, v, w, tags, size, token, now).0.metrics)
  {
    PutEnds(lim, e, k, v, w, tags, size, token, now);
    CountsOther(e, "rejected_entries_total");
    assert RemoveLease(e, k).metrics == e.metrics;
    StoringQuiet(lim, e, k, NewEntry(e, k, v, w, tags, size, now), now);
  }

  lemma PutEnds(lim: Limits, e: Engine, k: Key, v: Value, w: Window, tags: seq<Tag>, size: nat, token: Option<Token>, now: int)
    ensures var r := Put(lim, e, k, v, w, tags, size, token, now).0;
      || r == e || r == RemoveLease(e, k) || r == Counted(e, "rejected_entries_total")
      || r == StoreEvictLookup(lim, e, k, NewEntry(e, k, v, w, tags, size, now), now).0
  {
  }

  lemma StoringQuiet(lim: Limits, e: Engine, k: Key, x: Entry, now: int)
    ensures SameCounts(e.metrics, StoreEvictLookup(lim, e, k, x, now).0.metrics)
  {
    StoreQuiet(e, k, x);
    EvictQuiet(lim, Store(e, k, x));
    LookupQuiet(EvictIfNeeded(lim, Store(e, k, x)), k, now);
    SameCountsTrans(e.metrics, Store(e, k, x).metrics, EvictIfNeeded(lim, Store(e, k, x)).metrics);
  }

  lemma StoreQuiet(e: Engine, k: Key, x: Entry)
    ensures SameCounts(e.metrics, Store(e, k, x).metrics)
  {
    CountsOther(RemoveLease(AddEntry(RemoveEntry(e, k), k, x), k), "writes_total");
  }

  lemma SameCountsTrans(a: map<string, nat>, b: map<string, nat>, c: map<string, nat>)
    requires SameCounts(a, b) && SameCounts(b, c)
    ensures SameCounts(a, c)
  {
    forall kind: Kind ensures CountOf(a, NameOf(kind)) == CountOf(c, NameOf(kind)) {
      assert CountOf(a, NameOf(kind)) == CountOf(b, NameOf(kind));
    }
  }

  lemma GrantQuiet(lim: Limits, c: Engine, k: Key, found: Found, token: Token, size: nat, now: int)
    ensures SameCounts(c.metrics, Grant(lim, c, k, found, token, size, now).0.metrics)
  {
    CountsOther(c, "coalesced_total");
    CountsOther(c, "rejected_leases_total");
    CountsOther(c, "leases_total");
  }

  lemma OneMoreSame(a: map<string, nat>, b: map<string, nat>, c: map<string, nat>, one: Kind)
    requires OneMore(a, b, one) && SameCounts(b, c)
    ensures OneMore(a, c, one)
  {
    forall kind: Kind ensures CountOf(c, NameOf(kind)) == CountOf(a, NameOf(kind)) + if kind == one then 1 else 0 {
      assert CountOf(b, NameOf(kind)) == CountOf(c, NameOf(kind));
    }
  }

  lemma AcquireCounts(lim: Limits, e: Engine, k: Key, force: bool, token: Token, size: nat, now: int)
    requires Consistent(e)
    ensures OneMore(e.metrics, Acquire(lim, e, k, force, token, size, now).0.metrics, KindOf(Answer(e, k, now)))
  {
    var p := PurgeLeases(e, e.leases.keys, now);
    PurgeLeasesQuiet(e, e.leases.keys, now);
    PurgeIs(e, now);
    LookupCounts(p, k, now);
    var (c, found) := Lookup(p, k, now, true);
    GrantQuiet(lim, c, k, found, token, size, now);
    OneMoreSame(e.metrics, c.metrics, Grant(lim, c, k, found, token, size, now).0.metrics, KindOf(Answer(e, k, now)));
  }

  lemma ExpireQuiet(e: Engine, k: Key, ttl: nat, now: int)
    ensures SameCounts(e.metrics, Expire(e, k, ttl, now).0.metrics)
  {
    LookupQuiet(e, k, now);
    CountsOther(Lookup(e, k, now, false).0, "expirations_set_total");
  }

  lemma InvalidateQuiet(e: Engine, ts: seq<Tag>)
    ensures SameCounts(e.metrics, InvalidateTags(e, ts).0.metrics)
  {
    RemoveAllQuiet(e, KeysTagged(e, e.entries.keys, ts));
    OtherName("invalidations_total");
  }

  lemma RestoreQuiet(lim: Limits, e: Engine, ps: seq<Prepared>, now: int)
    ensures RestoreEntries(lim, e, ps, now).0.metrics == e.metrics
  {
    PurgeEntriesQuiet(e, e.entries.keys, now);
    LoadQuiet(PurgeEntries(e, e.entries.keys, now), ps, now);
  }

  /** The operation asks for an entry and counts what it finds. */
  predicate Asks(op: Op) {
    op.GetOp? || op.AcquireOp?
  }

  lemma NextCounts(lim: Limits, e: Engine, op: Op)
    requires Consistent(e)
    ensures if Asks(op) then OneMore(e.metrics, Next(lim, e, op).metrics, KindOf(Answer(e, op.key, op.now)))
            else SameCounts(e.metrics, Next(lim, e, op).metrics)
  {
    match op
    case PutOp(k, v, w, tags, size, token, now) => PutQuiet(lim, e, k, v, w, tags, size, token, now);
    case GetOp(k, now) => LookupCounts(e, k, now);
    case DeleteOp(k) => CountsOther(RemoveLease(RemoveEntry(e, k), k), "deletes_total");
    case ExpireOp(k, ttl, now) => ExpireQuiet(e, k, ttl, now);
    case FlushOp => FlushQuiet(e);
    case AcquireOp(k, force, token, size, now) => AcquireCounts(lim, e, k, force, token, size, now);
    case ReleaseOp(k, token) =>
    case RenewOp(k, token, now) => RenewQuiet(lim, e, k, token, now);
    case InvalidateOp(ts) => InvalidateQuiet(e, ts);
    case RestoreOp(ps, now) => RestoreQuiet(lim, e, ps, now);
  }

  lemma FlushQuiet(e: Engine)
    ensures SameCounts(e.metrics, Flush(e).0.metrics)
  {
    CountsOther(e.(entries := Dict([], map[]), tags := map[], leases := Dict([], map[]), used := 0, leaseBytes := 0), "flushes_total");
  }

  lemma RenewQuiet(lim: Limits, e: Engine, k: Key, token: Token, now: int)
    ensures SameCounts(e.metrics, Renew(lim, e, k, token, now).0.metrics)
  {
    if k in e.leases.vals {
      CountsOther(e.(leases := e.leases.Set(k, e.leases.vals[k].(until := now + lim.leaseSeconds))), "lease_renewals_total");
    }
  }

  // ----- Runs -----

  /** How many of the gets and acquisitions of a run found the key fresh, stale or not at all. */
  function Answered(lim: Limits, ops: seq<Op>, kind: Kind): nat {
    if ops == [] then 0
    else
      var init, op := ops[..|ops| - 1], ops[|ops| - 1];
      Answered(lim, init, kind) +
      (if Asks(op) && KindOf(Answer(Run(lim, Empty(), init), op.key, op.now)) == kind then 1 else 0)
  }

  /** In every run each counter is the number of such answers, so together they are the number of questions. */
  lemma {:induction false} CountersExact(lim: Limits, ops: seq<Op>, kind: Kind)
    requires Positive(lim) && forall m | 0 <= m < |ops| :: Prechecked(lim, ops[m])
    ensures CountOf(Run(lim, Empty(), ops).metrics, NameOf(kind)) == Answered(lim, ops, kind)
  {
    if ops != [] {
      var init, op := ops[..|ops| - 1], ops[|ops| - 1];
      CountersExact(lim, init, kind);
      EveryRunIsValid(lim, init);
      NextCounts(lim, Run(lim, Empty(), init), op);
    }
  }
}
