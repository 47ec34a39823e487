/** A rebalance node by node: statuses put back, and copies of former owners dropped. */
module ClusterCleaning {
  import opened HashRing
  import opened ClusterModel
  import opened ClusterInvariant
  import opened ClusterReplicas
  import opened ClusterRebalance

  lemma FitsSwitch(c: Config, s: Cluster, m: Cluster, plan: Plan)
    requires WellFormed(c, s) && Fits(c, s, plan) && SameShape(s, m) && WellFormed(c, m)
    ensures plan.target.nodes <= m.nodes.Keys && WellFormed(c, Switch(m, plan)) && s.ring.nodes <= m.nodes.Keys
    ensures Switch(m, plan).nodes.Keys == m.nodes.Keys
  {
    TargetKnown(c, s, plan);
    SwitchWellFormed(c, m, plan);
    ActivatedKeys(m.nodes, plan.joining);
    DepartedKeys(Activated(m.nodes, plan.joining), plan.departing);
  }

  // ----- Putting back -----

  /** `u` differs from `t` only in what the nodes `members` hold. */
  predicate Partly(t: Cluster, u: Cluster, members: set<NodeId>) {
    && u == t.(stores := u.stores, metadata := u.metadata)
    && SameRows(t.stores, u.stores, members) && SameRows(t.metadata, u.metadata, members)
  }

  predicate SameRows<T(==)>(a: map<NodeId, T>, b: map<NodeId, T>, members: set<NodeId>) {
    a.Keys == b.Keys && forall n | n in a && n !in members :: b[n] == a[n]
  }

  lemma PartlySelf(t: Cluster, members: set<NodeId>)
    ensures Partly(t, t, members)
  {
  }

  function StatusFrom(node: Node, before: map<NodeId, Node>, n: NodeId): Node {
    if n in before then node.(status := before[n].status) else node
  }

  function WithStatuses(nodes: map<NodeId, Node>, before: map<NodeId, Node>): map<NodeId, Node> {
    map n | n in nodes :: StatusFrom(nodes[n], before, n)
  }

  lemma SavedInOrder(c: Config, s: Cluster, u: Cluster, affected: set<NodeId>)
    requires WellFormed(c, s) && SameNodes(s, u) && u.order == s.order
    ensures forall n | n in Saved(affected, s.stores) || n in Saved(affected, s.metadata) || n in u.nodes :: n in u.order
  {
    forall n | n in s.stores || n in s.metadata || n in u.nodes ensures n in u.order {
      assert n in s.stores.Keys || n in s.metadata.Keys || n in u.nodes.Keys;
      assert n in s.nodes;
    }
  }

  lemma PutBackIs<T>(held: map<NodeId, T>, saved: map<NodeId, T>, affected: set<NodeId>)
    requires held.Keys == saved.Keys
    ensures held + Saved(affected, saved) == PutBack(held, saved, affected)
  {
  }

  lemma UndoneMaps(s: Cluster, u: Cluster, t: Cluster, affected: set<NodeId>)
    requires SameNodes(s, u)
    requires t == u.(ring := s.ring, stores := t.stores, metadata := t.metadata, nodes := t.nodes)
    requires t.stores == u.stores + Saved(affected, s.stores) && t.metadata == u.metadata + Saved(affected, s.metadata)
    requires t.nodes == WithStatuses(u.nodes, Saved(affected, s.nodes))
    ensures t == Undone(s, u, affected) && SameNodes(s, t)
  {
    PutBackIs(u.stores, s.stores, affected);
    PutBackIs(u.metadata, s.metadata, affected);
    assert t.nodes == Undone(s, u, affected).nodes;
  }

  /** What the affected nodes hold before it does not matter to the undoing. */
  lemma UndonePartly(s: Cluster, t: Cluster, u: Cluster, members: set<NodeId>, affected: set<NodeId>)
    requires Partly(t, u, members) && members <= affected && s.stores.Keys == u.stores.Keys && s.metadata.Keys == u.metadata.Keys
    ensures Undone(s, u, affected) == Undone(s, t, affected)
  {
    PutBackSame(t.stores, u.stores, s.stores, members, affected);
    PutBackSame(t.metadata, u.metadata, s.metadata, members, affected);
  }

  lemma PutBackSame<T>(a: map<NodeId, T>, b: map<NodeId, T>, saved: map<NodeId, T>, members: set<NodeId>, affected: set<NodeId>)
    requires SameRows(a, b, members) && members <= affected && saved.Keys == b.Keys
    ensures PutBack(a, saved, affected) == PutBack(b, saved, affected)
  {
    forall n | n in a ensures n in b && PutBack(a, saved, affected)[n] == PutBack(b, saved, affected)[n] {
      assert n in b.Keys && n in saved.Keys;
    }
  }

  // ----- Dropping key by key -----

  function KeysOf(list: seq<Key>, catalog: set<Key>): set<Key> {
    set k | k in list && k in catalog
  }

  lemma KeysNext(list: seq<Key>, i: nat, catalog: set<Key>)
    requires i < |list|
    ensures KeysOf(list[..i + 1], catalog) ==
      if list[i] in catalog then KeysOf(list[..i], catalog) + {list[i]} else KeysOf(list[..i], catalog)
  {
    assert list[..i + 1] == list[..i] + [list[i]];
  }

  /** The keys of `keys` that node `n` does not own. */
  function Foreign(c: Config, s: Cluster, n: NodeId, keys: set<Key>): set<Key> {
    set k | k in keys && n !in Owners(c, s, k)
  }

  function Cleaned<T>(c: Config, s: Cluster, members: set<NodeId>, keys: set<Key>, held: map<NodeId, map<Key, T>>)
    : map<NodeId, map<Key, T>>
  {
    map n | n in held :: if n in members then held[n] - Foreign(c, s, n, keys) else held[n]
  }

  /** The keys of `keys` dropped by the members that do not own them. */
  function CleanedOf(c: Config, s: Cluster, members: set<NodeId>, keys: set<Key>): Cluster {
    s.(stores := Cleaned(c, s, members, keys, s.stores), metadata := Cleaned(c, s, members, keys, s.metadata))
  }

  lemma CleanedNoneRows<T>(c: Config, s: Cluster, members: set<NodeId>, held: map<NodeId, map<Key, T>>)
    ensures Cleaned(c, s, members, {}, held) == held
  {
    forall n | n in held ensures held[n] - Foreign(c, s, n, {}) == held[n] {
    }
  }

  lemma CleanedNone(c: Config, s: Cluster, members: set<NodeId>)
    ensures CleanedOf(c, s, members, KeysOf([], s.catalog)) == s
  {
    assert KeysOf([], s.catalog) == {};
    CleanedNoneRows(c, s, members, s.stores);
    CleanedNoneRows(c, s, members, s.metadata);
  }

  lemma CleanedAll(c: Config, s: Cluster, members: set<NodeId>)
    ensures CleanedOf(c, s, members, s.catalog) == DropFormer(c, s, members)
  {
    assert forall n :: Foreign(c, s, n, s.catalog) == FormerKeys(c, s, n);
  }

  lemma CleanedShape(c: Config, s: Cluster, members: set<NodeId>, keys: set<Key>)
    requires WellFormed(c, s)
    ensures WellFormed(c, CleanedOf(c, s, members, keys)) && Partly(s, CleanedOf(c, s, members, keys), members)
  {
  }

  /** Deleting `j` raises at some member that does not own it. */
  predicate Stuck(c: Config, s: Cluster, members: set<NodeId>, stuck: set<NodeId>, j: Key) {
    exists n | n in members :: n !in Owners(c, s, j) && n in stuck
  }

  lemma StuckBlocks(c: Config, s: Cluster, members: set<NodeId>, stuck: set<NodeId>, j: Key)
    requires j in s.catalog && Stuck(c, s, members, stuck, j)
    ensures Blocked(c, s, members, stuck)
  {
    var n :| n in members && n !in Owners(c, s, j) && n in stuck;
    assert j in FormerKeys(c, s, n);
  }

  lemma NoneStuck(c: Config, s: Cluster, members: set<NodeId>, stuck: set<NodeId>)
    requires forall k | k in s.catalog :: !Stuck(c, s, members, stuck, k)
    ensures !Blocked(c, s, members, stuck)
  {
    forall n | n in members && n in stuck ensures FormerKeys(c, s, n) == {} {
      forall k ensures k !in FormerKeys(c, s, n) {
        if k in s.catalog { assert !Stuck(c, s, members, stuck, k); }
      }
    }
  }

  // ----- One key, node by node -----

  /** `j` dropped by the members in `list` that are no owners. */
  function Forgotten<T>(held: map<NodeId, map<Key, T>>, members: set<NodeId>, owners: seq<NodeId>, list: seq<NodeId>, j: Key)
    : map<NodeId, map<Key, T>>
  {
    map n | n in held :: if n in list && n in members && n !in owners then held[n] - {j} else held[n]
  }

  lemma ForgottenNone<T>(held: map<NodeId, map<Key, T>>, members: set<NodeId>, owners: seq<NodeId>, list: seq<NodeId>, j: Key)
    ensures Forgotten(held, members, owners, list[..0], j) == held
  {
    var f := Forgotten(held, members, owners, list[..0], j);
    assert list[..0] == [];
    assert f.Keys == held.Keys;
    forall n | n in held ensures f[n] == held[n] {
    }
  }

  lemma ForgottenNext<T>(held: map<NodeId, map<Key, T>>, members: set<NodeId>, owners: seq<NodeId>, list: seq<NodeId>, i: nat, j: Key)
    requires i < |list| && list[i] in held && list[i] in members && list[i] !in owners
    ensures var f := Forgotten(held, members, owners, list[..i], j);
      Forgotten(held, members, owners, list[..i + 1], j) == f[list[i] := f[list[i]] - {j}]
  {
    assert list[..i + 1] == list[..i] + [list[i]];
    var f, g := Forgotten(held, members, owners, list[..i], j), Forgotten(held, members, owners, list[..i + 1], j);
    assert held[list[i]] - {j} - {j} == held[list[i]] - {j};
    assert f.Keys == held.Keys && g.Keys == held.Keys;
    forall n | n in held ensures g[n] == f[list[i] := f[list[i]] - {j}][n] {
    }
  }

  lemma ForgottenSkip<T>(held: map<NodeId, map<Key, T>>, members: set<NodeId>, owners: seq<NodeId>, list: seq<NodeId>, i: nat, j: Key)
    requires i < |list| && !(list[i] in members && list[i] !in owners)
    ensures Forgotten(held, members, owners, list[..i + 1], j) == Forgotten(held, members, owners, list[..i], j)
  {
    assert list[..i + 1] == list[..i] + [list[i]];
  }

  lemma ForgottenPartly(c: Config, s: Cluster, x: Cluster, t: Cluster, members: set<NodeId>, owners: seq<NodeId>, list: seq<NodeId>, j: Key)
    requires WellFormed(c, s) && Partly(s, x, members)
    requires t == x.(stores := Forgotten(x.stores, members, owners, list, j), metadata := Forgotten(x.metadata, members, owners, list, j))
    ensures Partly(s, t, members) && WellFormed(c, t)
  {
    assert t.stores.Keys == s.stores.Keys && t.metadata.Keys == s.metadata.Keys;
  }

  lemma ForeignNext(c: Config, s: Cluster, n: NodeId, keys: set<Key>, j: Key)
    ensures Foreign(c, s, n, keys + {j}) == if n in Owners(c, s, j) then Foreign(c, s, n, keys) else Foreign(c, s, n, keys) + {j}
  {
  }

  lemma ForgottenRow<T>(c: Config, s: Cluster, members: set<NodeId>, keys: set<Key>, held: map<NodeId, map<Key, T>>,
                        owners: seq<NodeId>, list: seq<NodeId>, j: Key)
    requires owners == Owners(c, s, j) && forall n | n in held :: n in list
    ensures Forgotten(Cleaned(c, s, members, keys, held), members, owners, list, j) == Cleaned(c, s, members, keys + {j}, held)
  {
    var f, g := Forgotten(Cleaned(c, s, members, keys, held), members, owners, list, j), Cleaned(c, s, members, keys + {j}, held);
    assert f.Keys == held.Keys && g.Keys == held.Keys;
    forall n | n in held ensures f[n] == g[n] {
      ForeignNext(c, s, n, keys, j);
      if n in members && n !in owners {
        assert held[n] - Foreign(c, s, n, keys) - {j} == held[n] - (Foreign(c, s, n, keys) + {j});
      }
    }
  }

  lemma ForgottenCleans(c: Config, s: Cluster, members: set<NodeId>, keys: set<Key>, owners: seq<NodeId>, list: seq<NodeId>, j: Key)
    requires WellFormed(c, s) && owners == Owners(c, s, j) && list == s.order
    ensures var x := CleanedOf(c, s, members, keys);
      x.(stores := Forgotten(x.stores, members, owners, list, j), metadata := Forgotten(x.metadata, members, owners, list, j))
      == CleanedOf(c, s, members, keys + {j})
  {
    assert forall n :: n in s.stores.Keys || n in s.metadata.Keys ==> n in s.nodes;
    ForgottenRow(c, s, members, keys, s.stores, owners, list, j);
    ForgottenRow(c, s, members, keys, s.metadata, owners, list, j);
  }
}
