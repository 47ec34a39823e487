/**
 The single-key undo journal: whatever is done to the journalled key, and however
 many other entries that evicts, undoing gives back the exact earlier state.
 */
module EngineJournal {
  import opened OrderedDict
  import opened EngineModel
  import opened EngineInvariant

  /** The entries of `e0` other than the journalled one. */
  function Others(e0: Engine, k: Key): Dict<Entry> {
    e0.entries.Without(k)
  }

  ghost predicate EvictedPrefix(o: Dict<Entry>, evicted: seq<(Key, Entry)>) {
    && |evicted| <= |o.keys|
    && forall i | 0 <= i < |evicted| :: o.keys[i] in o.vals && evicted[i] == (o.keys[i], o.vals[o.keys[i]])
  }

  /** `d` holds the keys `keys` of `o`, unchanged, and perhaps `k`. */
  ghost predicate HoldsRest(o: Dict<Entry>, d: Dict<Entry>, k: Key, keys: seq<Key>) {
    && d.Ok() && Drop(d.keys, k) == keys
    && forall j | j in d.vals && j != k :: j in o.vals && d.vals[j] == o.vals[j]
  }

  /** How a state during the journal relates to the state it began in. */
  ghost predicate Journalled(e0: Engine, k: Key, e: Engine) {
    var o := Others(e0, k);
    && e.journal.Some?
    && var j := e.journal.value;
    && j == Begin(e0, k).journal.value.(evicted := j.evicted)
    && EvictedPrefix(o, j.evicted)
    && HoldsRest(o, e.entries, k, o.keys[|j.evicted|..])
    && TagsExact(e.tags, e.entries.vals)
    && e.leases.vals - {k} == e0.leases.vals - {k}
  }

  lemma BeginJournalled(e0: Engine, k: Key)
    requires Consistent(e0)
    ensures Journalled(e0, k, Begin(e0, k))
  {
    var o := Others(e0, k);
    assert o.keys[0..] == o.keys;
    WithoutOk(e0.entries, k);
  }

  // ----- What the journalled key's operations do -----

  /** A change of anything but entries, tags, journal and other keys' leases. */
  lemma FrameJournalled(e0: Engine, k: Key, e: Engine, r: Engine)
    requires Journalled(e0, k, e)
    requires r.entries == e.entries && r.tags == e.tags && r.journal == e.journal
    requires r.leases.vals - {k} == e.leases.vals - {k}
    ensures Journalled(e0, k, r)
  {
  }

  lemma RemoveKey(e0: Engine, k: Key, e: Engine)
    requires Journalled(e0, k, e)
    ensures Journalled(e0, k, RemoveEntry(e, k)) && k !in RemoveEntry(e, k).entries.vals
  {
    if k in e.entries.vals {
      WithoutOk(e.entries, k);
      UntagExact(e.tags, e.entries.vals, k);
      DropMember(e.entries.keys, k, k);
      DropAbsent(Drop(e.entries.keys, k), k);
    }
  }

  lemma AddKey(e0: Engine, k: Key, e: Engine, x: Entry)
    requires Journalled(e0, k, e) && k !in e.entries.vals
    ensures Journalled(e0, k, AddEntry(e, k, x))
  {
    SetOk(e.entries, k, x);
    TaggedExact(e.tags, e.entries.vals, k, x);
    DropConcat(e.entries.keys, [k], k);
    DropOne(k);
    assert Drop(e.entries.keys, k) + [] == Drop(e.entries.keys, k);
  }

  lemma UpdateKey(e0: Engine, k: Key, e: Engine, x: Entry)
    requires Journalled(e0, k, e) && k in e.entries.vals && x.tags == e.entries.vals[k].tags
    ensures Journalled(e0, k, e.(entries := e.entries.Set(k, x)))
  {
    var r := e.(entries := e.entries.Set(k, x));
    SetOk(e.entries, k, x);
    forall t, j ensures (t in r.tags && j in r.tags[t]) <==> (j in r.entries.vals && t in r.entries.vals[j].tags) {
      assert (t in e.tags && j in e.tags[t]) <==> (j in e.entries.vals && t in e.entries.vals[j].tags);
    }
  }

  lemma MoveKey(e0: Engine, k: Key, e: Engine)
    requires Journalled(e0, k, e) && k in e.entries.vals
    ensures Journalled(e0, k, e.(entries := e.entries.ToEnd(k)))
  {
    ToEndOk(e.entries, k);
    DropConcat(Drop(e.entries.keys, k), [k], k);
    DropOne(k);
    DropMember(e.entries.keys, k, k);
    DropAbsent(Drop(e.entries.keys, k), k);
    assert Drop(e.entries.keys, k) + [] == Drop(e.entries.keys, k);
  }

  /** The first key in order, when it is not `k`, is the next of the others. */
  lemma FrontIsNext(o: Dict<Entry>, d: Dict<Entry>, k: Key, n: nat)
    requires d.Ok() && d.keys != [] && d.keys[0] != k && n <= |o.keys| && Drop(d.keys, k) == o.keys[n..]
    ensures n < |o.keys| && o.keys[n] == d.keys[0]
    ensures Drop(Drop(d.keys, d.keys[0]), k) == o.keys[n + 1..]
  {
    var x, rest := d.keys[0], d.keys[1..];
    assert d.keys == [x] + rest;
    DropConcat([x], rest, k);
    DropAbsent([x], k);
    assert ([x] + Drop(rest, k))[0] == x && ([x] + Drop(rest, k))[1..] == Drop(rest, k);
    DropAt(d.keys, 0);
    assert d.keys[..0] + d.keys[1..] == rest;
    assert o.keys[n..][1..] == o.keys[n + 1..];
  }

  lemma PrefixGrows(o: Dict<Entry>, evicted: seq<(Key, Entry)>)
    requires o.Ok() && EvictedPrefix(o, evicted) && |evicted| < |o.keys|
    ensures var f := o.keys[|evicted|];
      f in o.vals && f !in EvictedKeys(evicted) && EvictedPrefix(o, evicted + [(f, o.vals[f])])
  {
    var f := o.keys[|evicted|];
    assert f in o.keys;
  }

  lemma RestShrinks(o: Dict<Entry>, d: Dict<Entry>, k: Key, n: nat)
    requires n <= |o.keys| && HoldsRest(o, d, k, o.keys[n..]) && d.keys != [] && d.keys[0] != k
    ensures n < |o.keys| && o.keys[n] == d.keys[0]
    ensures HoldsRest(o, d.Without(d.keys[0]), k, o.keys[n + 1..])
    ensures d.keys[0] in d.vals && d.keys[0] in o.vals && d.vals[d.keys[0]] == o.vals[d.keys[0]]
  {
    var f := d.keys[0];
    assert f in d.keys;
    FrontIsNext(o, d, k, n);
    WithoutOk(d, f);
  }

  /** Evicting another key records it, in order. */
  lemma EvictOther(e0: Engine, k: Key, e: Engine)
    requires Consistent(e0) && Journalled(e0, k, e) && e.entries.keys != [] && e.entries.keys[0] != k
    ensures Journalled(e0, k, RemoveEntry(e, e.entries.keys[0]))
  {
    var o, evicted, f := Others(e0, k), e.journal.value.evicted, e.entries.keys[0];
    WithoutOk(e0.entries, k);
    RestShrinks(o, e.entries, k, |evicted|);
    PrefixGrows(o, evicted);
    UntagExact(e.tags, e.entries.vals, f);
    RecordEviction(o, e0, k, e, f);
  }

  lemma RecordEviction(o: Dict<Entry>, e0: Engine, k: Key, e: Engine, f: Key)
    requires o == Others(e0, k) && Journalled(e0, k, e) && f in e.entries.vals && f != k
    requires f !in EvictedKeys(e.journal.value.evicted)
    requires EvictedPrefix(o, e.journal.value.evicted + [(f, e.entries.vals[f])])
    requires HoldsRest(o, e.entries.Without(f), k, o.keys[|e.journal.value.evicted| + 1..])
    requires TagsExact(Untag(e.tags, f, e.entries.vals[f].tags), e.entries.vals - {f})
    ensures Journalled(e0, k, RemoveEntry(e, f))
  {
    var r := RemoveEntry(e, f);
    assert r.journal.value.evicted == e.journal.value.evicted + [(f, e.entries.vals[f])];
    assert r.entries == e.entries.Without(f);
  }

  lemma EvictFront(e0: Engine, k: Key, e: Engine)
    requires Consistent(e0) && Journalled(e0, k, e) && e.entries.keys != []
    ensures Journalled(e0, k, EvictOne(e))
  {
    var f := e.entries.keys[0];
    if f == k {
      RemoveKey(e0, k, e);
    } else {
      EvictOther(e0, k, e);
    }
    var r := RemoveEntry(e, f);
    FrameJournalled(e0, k, r, EvictOne(e));
  }

  lemma {:induction false} EvictJournalled(lim: Limits, e0: Engine, k: Key, e: Engine)
    requires Consistent(e0) && Journalled(e0, k, e)
    ensures Journalled(e0, k, EvictIfNeeded(lim, e))
    decreases |e.entries.keys|
  {
    if OverLimit(lim, e) && e.entries.keys != [] && e.entries.keys[0] in e.entries.vals {
      DropShorter(e.entries.keys, e.entries.keys[0]);
      EvictFront(e0, k, e);
      EvictJournalled(lim, e0, k, EvictOne(e));
    }
  }

  lemma LeaseGone(e0: Engine, k: Key, e: Engine)
    requires Journalled(e0, k, e)
    ensures Journalled(e0, k, RemoveLease(e, k))
  {
    assert (e.leases.vals - {k}) - {k} == e.leases.vals - {k};
  }

  lemma LookupJournalled(e0: Engine, k: Key, e: Engine, now: int, count: bool)
    requires Journalled(e0, k, e)
    ensures Journalled(e0, k, Lookup(e, k, now, count).0)
  {
    var r := Lookup(e, k, now, count).0;
    LookupShape(e, k, now, count);
    if k !in e.entries.vals {
      FrameJournalled(e0, k, e, r);
    } else if Passed(now, e.entries.vals[k].staleUntil) {
      RemoveKey(e0, k, e);
      FrameJournalled(e0, k, RemoveEntry(e, k), r);
    } else {
      RefreshedJournalled(e0, k, e, now, count);
      FrameJournalled(e0, k, Refreshed(e, k, now, count), r);
    }
  }

  lemma RefreshedJournalled(e0: Engine, k: Key, e: Engine, now: int, count: bool)
    requires Journalled(e0, k, e) && k in e.entries.vals
    ensures Journalled(e0, k, Refreshed(e, k, now, count))
  {
    MoveKey(e0, k, e);
    if count {
      UpdateKey(e0, k, e.(entries := e.entries.ToEnd(k)), Touched(e.entries.vals[k], now));
    }
  }

  lemma StoreJournalled(e0: Engine, k: Key, e: Engine, x: Entry)
    requires Journalled(e0, k, e)
    ensures Journalled(e0, k, Store(e, k, x))
  {
    RemoveKey(e0, k, e);
    AddKey(e0, k, RemoveEntry(e, k), x);
    LeaseGone(e0, k, AddEntry(RemoveEntry(e, k), k, x));
  }

  // ----- Operations on the journalled key -----

  datatype KeyOp =
    | KeyPut(value: Value, window: Window, tags: seq<Tag>, size: nat, lease: Option<Token>, now: int)
    | KeyGet(now: int)
    | KeyExpire(ttl: nat, now: int)
    | KeyDelete

  function Apply(lim: Limits, e: Engine, k: Key, op: KeyOp): Engine {
    match op
    case KeyPut(v, w, tags, size, lease, now) => Put(lim, e, k, v, w, tags, size, lease, now).0
    case KeyGet(now) => Get(e, k, now).0
    case KeyExpire(ttl, now) => Expire(e, k, ttl, now).0
    case KeyDelete => Delete(e, k).0
  }

  function ApplyAll(lim: Limits, e: Engine, k: Key, ops: seq<KeyOp>): Engine {
    if ops == [] then e else Apply(lim, ApplyAll(lim, e, k, ops[..|ops| - 1]), k, ops[|ops| - 1])
  }

  lemma WriteJournalled(lim: Limits, e0: Engine, k: Key, e: Engine, x: Entry, now: int)
    requires Consistent(e0) && Journalled(e0, k, e)
    ensures Journalled(e0, k, StoreEvictLookup(lim, e, k, x, now).0)
  {
    StoreJournalled(e0, k, e, x);
    EvictJournalled(lim, e0, k, Store(e, k, x));
    LookupJournalled(e0, k, EvictIfNeeded(lim, Store(e, k, x)), now, false);
  }

  lemma PutJournalled(lim: Limits, e0: Engine, k: Key, e: Engine, op: KeyOp)
    requires Consistent(e0) && Journalled(e0, k, e) && op.KeyPut?
    ensures Journalled(e0, k, Put(lim, e, k, op.value, op.window, op.tags, op.size, op.lease, op.now).0)
  {
    LeaseGone(e0, k, e);
    FrameJournalled(e0, k, e, Counted(e, "rejected_entries_total"));
    WriteJournalled(lim, e0, k, e, NewEntry(e, k, op.value, op.window, op.tags, op.size, op.now), op.now);
  }

  lemma ApplyJournalled(lim: Limits, e0: Engine, k: Key, e: Engine, op: KeyOp)
    requires Consistent(e0) && Journalled(e0, k, e)
    ensures Journalled(e0, k, Apply(lim, e, k, op))
  {
    match op
    case KeyPut(v, w, tags, size, lease, now) => PutJournalled(lim, e0, k, e, op);
    case KeyGet(now) => LookupJournalled(e0, k, e, now, true);
    case KeyExpire(ttl, now) => ExpireJournalled(e0, k, e, ttl, now);
    case KeyDelete => DeleteJournalled(e0, k, e);
  }

  lemma ExpireJournalled(e0: Engine, k: Key, e: Engine, ttl: nat, now: int)
    requires Journalled(e0, k, e)
    ensures Journalled(e0, k, Expire(e, k, ttl, now).0)
  {
    LookupJournalled(e0, k, e, now, false);
    ExpireFound(e0, k, e, Lookup(e, k, now, false).0, Lookup(e, k, now, false).1, ttl, now);
  }

  lemma ExpireFound(e0: Engine, k: Key, e: Engine, r: Engine, found: Found, ttl: nat, now: int)
    requires Journalled(e0, k, r) && (r, found) == Lookup(e, k, now, false)
    ensures Journalled(e0, k, Expire(e, k, ttl, now).0)
  {
    if !found.Miss? && k in r.entries.vals {
      var x := r.entries.vals[k].(freshUntil := At(now + ttl), staleUntil := At(now + ttl), window := Some(ttl));
      UpdateKey(e0, k, r, x);
      FrameJournalled(e0, k, r.(entries := r.entries.Set(k, x)), Expire(e, k, ttl, now).0);
    }
  }

  lemma DeleteJournalled(e0: Engine, k: Key, e: Engine)
    requires Journalled(e0, k, e)
    ensures Journalled(e0, k, Delete(e, k).0)
  {
    RemoveKey(e0, k, e);
    LeaseGone(e0, k, RemoveEntry(e, k));
    FrameJournalled(e0, k, RemoveLease(RemoveEntry(e, k), k), Delete(e, k).0);
  }

  lemma {:induction false} ApplyAllJournalled(lim: Limits, e0: Engine, k: Key, ops: seq<KeyOp>)
    requires Consistent(e0)
    ensures Journalled(e0, k, ApplyAll(lim, Begin(e0, k), k, ops))
  {
    if ops == [] {
      BeginJournalled(e0, k);
    } else {
      ApplyAllJournalled(lim, e0, k, ops[..|ops| - 1]);
      ApplyJournalled(lim, e0, k, ApplyAll(lim, Begin(e0, k), k, ops[..|ops| - 1]), ops[|ops| - 1]);
    }
  }

  // ----- Undoing -----

  /** `d` holds exactly the entries of `o` from position `n` on, in order. */
  ghost predicate Suffix(o: Dict<Entry>, d: Dict<Entry>, n: nat) {
    && d.Ok() && n <= |o.keys| && d.keys == o.keys[n..]
    && forall j | j in d.vals :: j in o.vals && d.vals[j] == o.vals[j]
  }

  lemma WholeSuffix(o: Dict<Entry>, d: Dict<Entry>)
    requires o.Ok() && Suffix(o, d, 0)
    ensures d == o
  {
    assert o.keys[0..] == o.keys;
    forall j ensures j in d.vals <==> j in o.vals {
      assert j in d.vals <==> j in d.keys;
      assert j in o.vals <==> j in o.keys;
    }
    assert d.vals == o.vals;
  }

  lemma FrontKeys(keys: seq<Key>, k: Key)
    requires k !in keys
    ensures [k] + Drop(keys + [k], k) == [k] + keys
  {
    DropConcat(keys, [k], k);
    DropOne(k);
    DropAbsent(keys, k);
    assert keys + [] == keys;
  }

  /** Setting the entry before the suffix and moving it to the front extends the suffix. */
  lemma ExtendSuffix(o: Dict<Entry>, d: Dict<Entry>, n: nat)
    requires o.Ok() && Suffix(o, d, n + 1)
    ensures var k := o.keys[n];
      k in o.vals && k !in d.vals && Suffix(o, d.Set(k, o.vals[k]).ToFront(k), n)
  {
    var k := o.keys[n];
    assert k in o.keys;
    assert k !in o.keys[n + 1..];
    assert k !in d.keys;
    FrontKeys(d.keys, k);
    var r := d.Set(k, o.vals[k]).ToFront(k);
    assert r.keys == [k] + o.keys[n + 1..] == o.keys[n..];
    FrontDistinct(d, k, o.vals[k]);
  }

  lemma FrontDistinct(d: Dict<Entry>, k: Key, x: Entry)
    requires d.Ok() && k !in d.vals
    ensures d.Set(k, x).ToFront(k).Ok()
  {
    assert k !in d.keys;
    FrontKeys(d.keys, k);
    var r := d.Set(k, x).ToFront(k);
    assert r.keys == [k] + d.keys;
    forall j ensures j in r.keys <==> j in r.vals {
      assert j in d.keys <==> j in d.vals;
    }
  }

  /** Mid-undo: the entries from position `n` on are back, with an exact index. */
  ghost predicate Resumed(o: Dict<Entry>, e: Engine, n: nat) {
    e.journal.None? && Suffix(o, e.entries, n) && TagsExact(e.tags, e.entries.vals)
  }

  lemma PutBackResumes(o: Dict<Entry>, e: Engine, n: nat)
    requires o.Ok() && Resumed(o, e, n + 1) && o.keys[n] in o.vals
    ensures var r := PutBack(e, o.keys[n], o.vals[o.keys[n]]);
      Resumed(o, r, n) && r.leases == e.leases
  {
    ExtendSuffix(o, e.entries, n);
    TaggedExact(e.tags, e.entries.vals, o.keys[n], o.vals[o.keys[n]]);
  }

  /** Putting evicted entries back at the front, last first, rebuilds the order. */
  lemma {:induction false} ReinstateRebuilds(o: Dict<Entry>, e: Engine, evicted: seq<(Key, Entry)>)
    requires o.Ok() && EvictedPrefix(o, evicted) && Resumed(o, e, |evicted|)
    ensures var r := Reinstate(e, evicted);
      Resumed(o, r, 0) && r.leases == e.leases
    decreases |evicted|
  {
    if evicted != [] {
      var n := |evicted| - 1;
      assert evicted[n] == (o.keys[n], o.vals[o.keys[n]]);
      PutBackResumes(o, e, n);
      ReinstateRebuilds(o, PutBack(e, evicted[n].0, evicted[n].1), evicted[..n]);
    }
  }

  lemma {:induction false} PredecessorOf(keys: seq<Key>, i: nat)
    requires Distinct(keys) && i < |keys|
    ensures Predecessor(keys, keys[i]) == if i == 0 then None else Some(keys[i - 1])
  {
    if i > 0 {
      assert keys[0] != keys[i];
      PredecessorOf(keys[1..], i - 1);
    }
  }

  lemma {:induction false} AfterAt(keys: seq<Key>, i: nat)
    requires Distinct(keys) && i < |keys|
    ensures After(keys, keys[i]) == i + 1
  {
    if i < |keys| - 1 {
      assert keys[|keys| - 1] != keys[i];
      AfterAt(keys[..|keys| - 1], i);
    }
  }

  lemma AfterPredecessor(keys: seq<Key>, k: Key, i: nat)
    requires Distinct(keys) && i < |keys| && keys[i] == k
    ensures Drop(keys, k) == keys[..i] + keys[i + 1..]
    ensures var p := Predecessor(keys, k);
      (if p.None? then 0 else After(Drop(keys, k), p.value)) == i
  {
    PredecessorOf(keys, i);
    DropAt(keys, i);
    DropDistinct(keys, k);
    if i > 0 {
      assert Drop(keys, k)[i - 1] == keys[i - 1];
      AfterAt(Drop(keys, k), i - 1);
    }
  }

  lemma InsertAt(keys: seq<Key>, k: Key, i: nat)
    requires Distinct(keys) && i < |keys| && keys[i] == k
    ensures var rest := Drop(keys, k);
      i <= |rest| && rest[..i] + [k] + rest[i..] == keys
  {
    DropAt(keys, i);
  }

  /** Re-inserting the journalled entry after its predecessor restores its exact place. */
  lemma InsertRestores(d: Dict<Entry>, k: Key, i: nat)
    requires Distinct(d.keys) && i < |d.keys| && d.keys[i] == k && k in d.vals
    ensures InsertAfter(d.Without(k), k, d.vals[k], Predecessor(d.keys, k)) == d
  {
    var keys, vals := d.keys, d.vals;
    KeysRestored(keys, k, i);
    assert (vals - {k})[k := vals[k]] == vals;
  }

  lemma KeysRestored(keys: seq<Key>, k: Key, i: nat)
    requires Distinct(keys) && i < |keys| && keys[i] == k
    ensures var p, rest := Predecessor(keys, k), Drop(keys, k);
      var j := if p.None? then 0 else After(rest, p.value);
      rest[..j] + [k] + rest[j..] == keys
  {
    AfterPredecessor(keys, k, i);
    InsertAt(keys, k, i);
  }

  /** The state once every evicted entry is back. */
  function Rebuilt(e: Engine, k: Key): Engine
    requires e.journal.Some?
  {
    Reinstate(RemoveLease(RemoveEntry(e.(journal := None), k), k), e.journal.value.evicted)
  }

  lemma RebuiltOthers(e0: Engine, k: Key, e: Engine)
    requires Consistent(e0) && Journalled(e0, k, e)
    ensures var r := Rebuilt(e, k);
      && r.entries == Others(e0, k) && TagsExact(r.tags, Others(e0, k).vals) && r.journal.None?
      && r.leases.vals == e0.leases.vals - {k}
  {
    StripKey(e0, k, e);
    WithoutOk(e0.entries, k);
    var b := RemoveLease(RemoveEntry(e.(journal := None), k), k);
    assert b.leases.vals == e.leases.vals - {k};
    RebuiltFrom(Others(e0, k), b, e.journal.value.evicted);
  }

  lemma RebuiltFrom(o: Dict<Entry>, b: Engine, evicted: seq<(Key, Entry)>)
    requires o.Ok() && EvictedPrefix(o, evicted) && Resumed(o, b, |evicted|)
    ensures var r := Reinstate(b, evicted);
      r.entries == o && TagsExact(r.tags, o.vals) && r.journal.None? && r.leases == b.leases
  {
    ReinstateRebuilds(o, b, evicted);
    WholeSuffix(o, Reinstate(b, evicted).entries);
  }

  ghost predicate SameState(a: Engine, b: Engine) {
    && a.entries == b.entries && a.tags == b.tags && a.leases.vals == b.leases.vals
    && a.used == b.used && a.leaseBytes == b.leaseBytes && a.metrics == b.metrics
  }

  lemma EntriesBack(e0: Engine, k: Key, tags: map<Tag, set<Key>>)
    requires Consistent(e0) && k in e0.entries.vals && TagsExact(tags, Others(e0, k).vals)
    ensures InsertAfter(Others(e0, k), k, e0.entries.vals[k], Predecessor(e0.entries.keys, k)) == e0.entries
    ensures Tagged(tags, k, e0.entries.vals[k].tags) == e0.tags
  {
    var o, x := Others(e0, k), e0.entries.vals[k];
    assert k in e0.entries.keys;
    var i :| 0 <= i < |e0.entries.keys| && e0.entries.keys[i] == k;
    InsertRestores(e0.entries, k, i);
    TaggedExact(tags, o.vals, k, x);
    assert o.vals[k := x] == e0.entries.vals;
    TagsDetermined(Tagged(tags, k, x.tags), e0.tags, e0.entries.vals);
  }

  lemma EntriesSame(e0: Engine, k: Key, tags: map<Tag, set<Key>>)
    requires Consistent(e0) && k !in e0.entries.vals && TagsExact(tags, Others(e0, k).vals)
    ensures Others(e0, k) == e0.entries && tags == e0.tags
  {
    WithoutAbsent(e0.entries, k);
    TagsDetermined(tags, e0.tags, e0.entries.vals);
  }

  lemma LeaseBack(leases: map<Key, Lease>, k: Key)
    ensures if k in leases then (leases - {k})[k := leases[k]] == leases else leases - {k} == leases
  {
  }

  lemma UndoJournalled(e0: Engine, k: Key, e: Engine)
    requires Consistent(e0) && Journalled(e0, k, e)
    ensures SameState(Undo(e), e0) && Undo(e).journal.None?
  {
    RebuiltOthers(e0, k, e);
    var d := Rebuilt(e, k);
    if k in e0.entries.vals {
      EntriesBack(e0, k, d.tags);
    } else {
      EntriesSame(e0, k, d.tags);
    }
    LeaseBack(e0.leases.vals, k);
  }

  /** Without the journalled key, what is left is a suffix of the others. */
  lemma StripKey(e0: Engine, k: Key, e: Engine)
    requires Consistent(e0) && Journalled(e0, k, e)
    ensures var b := RemoveEntry(e.(journal := None), k);
      Resumed(Others(e0, k), b, |e.journal.value.evicted|) && b.leases == e.leases
  {
    if k in e.entries.vals {
      WithoutOk(e.entries, k);
      UntagExact(e.tags, e.entries.vals, k);
    } else {
      DropAbsent(e.entries.keys, k);
    }
  }

  /**
   For any sequence of puts, gets, expiries and deletes of the journalled key, with
   any number of evictions, undo restores the entries in their exact LRU order, the
   tag index, the leases, the byte counts and the metrics.
   */
  lemma UndoRestoresEverything(lim: Limits, e0: Engine, k: Key, ops: seq<KeyOp>)
    requires Valid(lim, e0)
    ensures var e := ApplyAll(lim, Begin(e0, k), k, ops);
      e.journal.Some? && SameState(Undo(e), e0) && Undo(e).journal.None?
  {
    ApplyAllJournalled(lim, e0, k, ops);
    UndoJournalled(e0, k, ApplyAll(lim, Begin(e0, k), k, ops));
  }
}
