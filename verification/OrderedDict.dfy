/** Insertion-ordered dictionaries, and the total weight of what they hold. */
module OrderedDict {

  type Key = string

  datatype Option<+T> = None | Some(value: T)

  predicate Distinct(keys: seq<Key>) {
    forall i, j | 0 <= i < j < |keys| :: keys[i] != keys[j]
  }

  function Drop(keys: seq<Key>, k: Key): seq<Key> {
    if keys == [] then []
    else
      var x := keys[|keys| - 1];
      Drop(keys[..|keys| - 1], k) + (if x == k then [] else [x])
  }

  datatype Dict<V> = Dict(keys: seq<Key>, vals: map<Key, V>) {

    ghost predicate Ok() {
      && Distinct(keys)
      && forall k :: k in keys <==> k in vals
    }

    function Get(k: Key): Option<V> {
      if k in vals then Some(vals[k]) else None
    }

    /** `pop(k, None)`. */
    function Without(k: Key): Dict<V> {
      Dict(Drop(keys, k), vals - {k})
    }

    /** Assignment: a known key keeps its place, a new one goes last. */
    function Set(k: Key, v: V): Dict<V> {
      Dict(if k in vals then keys else keys + [k], vals[k := v])
    }

    /** `move_to_end(k)`. */
    function ToEnd(k: Key): Dict<V> {
      Dict(Drop(keys, k) + [k], vals)
    }

    /** `move_to_end(k, last=False)`. */
    function ToFront(k: Key): Dict<V> {
      Dict([k] + Drop(keys, k), vals)
    }
  }

  lemma SomeMember<T>(s: set<T>)
    requires s != {}
    ensures exists x :: x in s
  {
  }

  function Weight<V>(keys: seq<Key>, vals: map<Key, V>, size: V -> nat): nat
  {
    if keys == [] then 0
    else
      var k := keys[|keys| - 1];
      Weight(keys[..|keys| - 1], vals, size) + (if k in vals then size(vals[k]) else 0)
  }

  lemma {:induction false} DropMember(keys: seq<Key>, k: Key, x: Key)
    ensures x in Drop(keys, k) <==> x in keys && x != k
  {
    if keys != [] {
      DropMember(keys[..|keys| - 1], k, x);
      assert keys == keys[..|keys| - 1] + [keys[|keys| - 1]];
    }
  }

  lemma {:induction false} DropAbsent(keys: seq<Key>, k: Key)
    requires k !in keys
    ensures Drop(keys, k) == keys
  {
    if keys != [] {
      DropAbsent(keys[..|keys| - 1], k);
      assert keys == keys[..|keys| - 1] + [keys[|keys| - 1]];
    }
  }

  lemma {:induction false} DropShorter(keys: seq<Key>, k: Key)
    ensures |Drop(keys, k)| <= |keys|
    ensures k in keys ==> |Drop(keys, k)| < |keys|
  {
    if keys != [] {
      DropShorter(keys[..|keys| - 1], k);
      assert keys == keys[..|keys| - 1] + [keys[|keys| - 1]];
    }
  }

  lemma {:induction false} DropConcat(a: seq<Key>, b: seq<Key>, k: Key)
    ensures Drop(a + b, k) == Drop(a, k) + Drop(b, k)
  {
    if b == [] {
      assert a + b == a;
    } else {
      assert (a + b)[..|a + b| - 1] == a + b[..|b| - 1];
      DropConcat(a, b[..|b| - 1], k);
    }
  }

  lemma DropSplit(a: seq<Key>, k: Key, b: seq<Key>)
    requires k !in a && k !in b
    ensures Drop(a + ([k] + b), k) == a + b
  {
    calc {
      Drop(a + ([k] + b), k);
      { DropConcat(a, [k] + b, k); }
      Drop(a, k) + Drop([k] + b, k);
      { DropConcat([k], b, k); }
      Drop(a, k) + (Drop([k], k) + Drop(b, k));
      { DropAbsent(a, k); DropAbsent(b, k); DropOne(k); }
      a + ([] + b);
      a + b;
    }
  }

  lemma DropOne(k: Key)
    ensures Drop([k], k) == []
  {
    assert [k][..0] == [];
  }

  lemma SplitAt(keys: seq<Key>, i: nat)
    requires i < |keys| && Distinct(keys)
    ensures keys == keys[..i] + ([keys[i]] + keys[i + 1..])
    ensures keys[i] !in keys[..i] && keys[i] !in keys[i + 1..]
  {
  }

  /** Where `k` stands, dropping it closes the gap. */
  lemma DropAt(keys: seq<Key>, i: nat)
    requires i < |keys| && Distinct(keys)
    ensures Drop(keys, keys[i]) == keys[..i] + keys[i + 1..]
  {
    SplitAt(keys, i);
    DropSplit(keys[..i], keys[i], keys[i + 1..]);
  }

  lemma {:induction false} DropDistinct(keys: seq<Key>, k: Key)
    requires Distinct(keys)
    ensures Distinct(Drop(keys, k)) && |Drop(keys, k)| == |keys| - (if k in keys then 1 else 0)
  {
    if k in keys {
      var i :| 0 <= i < |keys| && keys[i] == k;
      DropAt(keys, i);
    } else {
      DropAbsent(keys, k);
    }
  }

  lemma WithoutOk<V>(d: Dict<V>, k: Key)
    requires d.Ok()
    ensures d.Without(k).Ok()
    ensures |d.Without(k).keys| == |d.keys| - (if k in d.vals then 1 else 0)
  {
    DropDistinct(d.keys, k);
    forall x ensures x in Drop(d.keys, k) <==> x in d.vals - {k} {
      DropMember(d.keys, k, x);
    }
  }

  lemma WithoutAbsent<V>(d: Dict<V>, k: Key)
    requires d.Ok() && k !in d.vals
    ensures d.Without(k) == d
  {
    DropAbsent(d.keys, k);
    assert d.vals - {k} == d.vals;
  }

  lemma TotalOne<V>(d: Dict<V>, size: V -> nat)
    requires d.Ok() && |d.keys| == 1
    ensures d.keys[0] in d.vals && Total(d, size) == size(d.vals[d.keys[0]])
  {
    var k := d.keys[0];
    assert k in d.keys;
    assert d.keys[..0] == [];
    assert Weight(d.keys[..0], d.vals, size) == 0;
  }

  lemma SetOk<V>(d: Dict<V>, k: Key, v: V)
    requires d.Ok()
    ensures d.Set(k, v).Ok()
  {
  }

  lemma ToEndOk<V>(d: Dict<V>, k: Key)
    requires d.Ok() && k in d.vals
    ensures d.ToEnd(k).Ok() && d.ToEnd(k) == d.Without(k).Set(k, d.vals[k])
  {
    WithoutOk(d, k);
    assert (d.vals - {k})[k := d.vals[k]] == d.vals;
    SetOk(d.Without(k), k, d.vals[k]);
  }

  lemma {:induction false} WeightSame<V>(keys: seq<Key>, a: map<Key, V>, b: map<Key, V>, size: V -> nat)
    requires forall k | k in keys :: (k in a <==> k in b) && (k in a ==> size(a[k]) == size(b[k]))
    ensures Weight(keys, a, size) == Weight(keys, b, size)
  {
    if keys != [] {
      assert keys[|keys| - 1] in keys;
      assert forall k | k in keys[..|keys| - 1] :: k in keys;
      WeightSame(keys[..|keys| - 1], a, b, size);
    }
  }

  lemma {:induction false} WeightConcat<V>(a: seq<Key>, b: seq<Key>, vals: map<Key, V>, size: V -> nat)
    ensures Weight(a + b, vals, size) == Weight(a, vals, size) + Weight(b, vals, size)
  {
    if b == [] {
      assert a + b == a;
    } else {
      assert (a + b)[..|a + b| - 1] == a + b[..|b| - 1];
      WeightConcat(a, b[..|b| - 1], vals, size);
    }
  }

  function Total<V>(d: Dict<V>, size: V -> nat): nat {
    Weight(d.keys, d.vals, size)
  }

  lemma WeightSplit<V>(a: seq<Key>, k: Key, b: seq<Key>, vals: map<Key, V>, size: V -> nat)
    requires k in vals
    ensures Weight(a + ([k] + b), vals, size) == Weight(a + b, vals, size) + size(vals[k])
  {
    WeightConcat(a, [k] + b, vals, size);
    WeightConcat([k], b, vals, size);
    WeightConcat(a, b, vals, size);
    assert [k][..0] == [];
    assert Weight([k], vals, size) == size(vals[k]);
  }

  lemma TotalWithout<V>(d: Dict<V>, k: Key, size: V -> nat)
    requires d.Ok()
    ensures Total(d.Without(k), size) == Total(d, size) - (if k in d.vals then size(d.vals[k]) else 0)
  {
    forall x | x in Drop(d.keys, k) ensures x in d.vals - {k} && x in d.vals {
      DropMember(d.keys, k, x);
    }
    WeightSame(Drop(d.keys, k), d.vals, d.vals - {k}, size);
    if k in d.vals {
      assert k in d.keys;
      var i :| 0 <= i < |d.keys| && d.keys[i] == k;
      WeightDrop(d.keys, i, d.vals, size);
    } else {
      DropAbsent(d.keys, k);
    }
  }

  lemma WeightDrop<V>(keys: seq<Key>, i: nat, vals: map<Key, V>, size: V -> nat)
    requires Distinct(keys) && i < |keys| && keys[i] in vals
    ensures Weight(Drop(keys, keys[i]), vals, size) == Weight(keys, vals, size) - size(vals[keys[i]])
  {
    DropAt(keys, i);
    SplitAt(keys, i);
    WeightSplit(keys[..i], keys[i], keys[i + 1..], vals, size);
  }

  lemma TotalSet<V>(d: Dict<V>, k: Key, v: V, size: V -> nat)
    requires d.Ok() && k !in d.vals
    ensures Total(d.Set(k, v), size) == Total(d, size) + size(v)
  {
    var t := d.Set(k, v);
    assert t.keys[..|d.keys|] == d.keys;
    WeightSame(d.keys, d.vals, t.vals, size);
  }
}
