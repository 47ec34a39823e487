/**
 Consistent-hash placement: virtual-node points sorted by token, and the
 clockwise walk that turns a key's token into its replica owners.

 Node identifiers are ranked integers: only their string order is used.  The
 two SHA-256 prefixes are parameters: `hash` for a virtual node, a plain token
 for a key.
 */
module HashRing {

  type NodeId = int

  datatype Point = Point(token: nat, node: NodeId, vnode: nat) {

    /** Python's tuple order on (token, node, virtual node). */
    predicate Less(other: Point) {
      || token < other.token
      || (token == other.token && node < other.node)
      || (token == other.token && node == other.node && vnode < other.vnode)
    }
  }

  predicate Sorted(ps: seq<Point>) {
    forall i, j | 0 <= i < j < |ps| :: ps[i].Less(ps[j])
  }

  /** `ps` is the ring of `nodes`: every virtual node once, in order. */
  ghost predicate IsPlacement(ps: seq<Point>, nodes: set<NodeId>, vnodes: nat, hash: (NodeId, nat) -> nat) {
    && Sorted(ps)
    && forall p :: p in ps <==> p.node in nodes && p.vnode < vnodes && p.token == hash(p.node, p.vnode)
  }

  function NodesOf(ps: seq<Point>): (r: seq<NodeId>)
    ensures |r| == |ps|
    ensures forall i | 0 <= i < |ps| :: r[i] == ps[i].node
  {
    seq(|ps|, i requires 0 <= i < |ps| => ps[i].node)
  }

  /** Number of points whose token does not exceed `token`, for sorted `ps`. */
  function Bisect(ps: seq<Point>, token: nat): (b: nat)
    ensures b <= |ps|
  {
    if ps == [] then 0
    else if ps[|ps| - 1].token <= token then |ps|
    else Bisect(ps[..|ps| - 1], token)
  }

  function Clockwise(ps: seq<Point>, token: nat): seq<Point> {
    var b := Bisect(ps, token);
    ps[b..] + ps[..b]
  }

  /** First occurrences, in order. */
  function Dedup(s: seq<NodeId>): seq<NodeId> {
    if s == [] then []
    else
      var r := Dedup(s[..|s| - 1]);
      var x := s[|s| - 1];
      if x in r then r else r + [x]
  }

  predicate Distinct(s: seq<NodeId>) {
    forall i, j | 0 <= i < j < |s| :: s[i] != s[j]
  }

  function Take(s: seq<NodeId>, n: nat): seq<NodeId> {
    if n <= |s| then s[..n] else s
  }

  datatype Ring = Ring(nodes: set<NodeId>, points: seq<Point>, version: nat) {

    /** Every member owns a point and only members do. */
    predicate Valid() {
      && nodes != {}
      && Sorted(points)
      && (forall p | p in points :: p.node in nodes)
      && (forall n | n in nodes :: exists p :: p in points && p.node == n)
    }

    function Wanted(replicas: nat): nat {
      if replicas <= |nodes| then replicas else |nodes|
    }

    function Owners(token: nat, replicas: nat): seq<NodeId> {
      Take(Preference(points, token), Wanted(replicas))
    }
  }

  // ----- Building and walking the ring -----

  /** Insertion into a sorted list of points: one step of `sorted`. */
  method Insert(ps: seq<Point>, p: Point) returns (r: seq<Point>)
    requires Sorted(ps)
    requires p !in ps
    ensures Sorted(r)
    ensures forall q :: q in r <==> q in ps || q == p
  {
    var i := 0;
    while i < |ps| && ps[i].Less(p)
      invariant 0 <= i <= |ps|
      invariant forall j | 0 <= j < i :: ps[j].Less(p)
    {
      i := i + 1;
    }
    r := ps[..i] + [p] + ps[i..];
    InsertedAt(ps, p, i);
  }

  lemma InsertedAt(ps: seq<Point>, p: Point, i: nat)
    requires Sorted(ps) && p !in ps && i <= |ps|
    requires (forall j | 0 <= j < i :: ps[j].Less(p)) && (i < |ps| ==> !ps[i].Less(p))
    ensures var r := ps[..i] + [p] + ps[i..]; Sorted(r) && forall q :: q in r <==> q in ps || q == p
  {
    LaterPoints(ps, p, i);
    assert ps == ps[..i] + ps[i..];
  }

  lemma LaterPoints(ps: seq<Point>, p: Point, i: nat)
    requires Sorted(ps) && p !in ps && i <= |ps| && (i < |ps| ==> !ps[i].Less(p))
    ensures forall j | i <= j < |ps| :: p.Less(ps[j])
  {
    forall j | i <= j < |ps| ensures p.Less(ps[j]) {
      assert ps[i] in ps;
      assert i == j || ps[i].Less(ps[j]);
    }
  }

  method Build(nodes: seq<NodeId>, vnodes: nat, version: nat, hash: (NodeId, nat) -> nat) returns (ring: Ring)
    requires nodes != [] && vnodes > 0
    requires Distinct(nodes)
    ensures ring.Valid()
    ensures ring.version == version
    ensures ring.nodes == set n | n in nodes
    ensures IsPlacement(ring.points, ring.nodes, vnodes, hash)
  {
    var points: seq<Point> := [];
    for i := 0 to |nodes|
      invariant IsPlacement(points, (set n | n in nodes[..i]), vnodes, hash)
    {
      for v := 0 to vnodes
        invariant Sorted(points)
        invariant forall p :: p in points <==>
            && p.token == hash(p.node, p.vnode)
            && ((p.node in nodes[..i] && p.vnode < vnodes) || (p.node == nodes[i] && p.vnode < v))
      {
        points := Insert(points, Point(hash(nodes[i], v), nodes[i], v));
      }
      assert nodes[..i + 1] == nodes[..i] + [nodes[i]];
    }
    assert nodes[..|nodes|] == nodes;
    ring := Ring((set n | n in nodes), points, version);
    forall n | n in ring.nodes
      ensures exists p :: p in points && p.node == n
    {
      assert Point(hash(n, 0), n, 0) in points;
    }
    assert nodes[0] in ring.nodes;
  }

  lemma {:induction false} BisectSplits(ps: seq<Point>, token: nat)
    requires Sorted(ps)
    ensures forall i | 0 <= i < |ps| :: ps[i].token <= token <==> i < Bisect(ps, token)
  {
    if ps != [] && token < ps[|ps| - 1].token {
      var init := ps[..|ps| - 1];
      BisectSplits(init, token);
      assert forall i | 0 <= i < |init| :: ps[i] == init[i];
    }
  }

  method BisectRight(ps: seq<Point>, token: nat) returns (b: nat)
    requires Sorted(ps)
    ensures b == Bisect(ps, token)
  {
    var lo, hi := 0, |ps|;
    while lo < hi
      invariant 0 <= lo <= hi <= |ps|
      invariant forall i | 0 <= i < lo :: ps[i].token <= token
      invariant forall i | hi <= i < |ps| :: token < ps[i].token
    {
      var mid := (lo + hi) / 2;
      if token < ps[mid].token { hi := mid; } else { lo := mid + 1; }
    }
    b := lo;
    BisectSplits(ps, token);
    assert b < |ps| ==> token < ps[b].token;
    assert 0 < b ==> ps[b - 1].token <= token;
  }

  lemma {:induction false} DedupPrefix(s: seq<NodeId>, i: nat)
    requires i <= |s|
    ensures Dedup(s[..i]) <= Dedup(s)
    decreases |s|
  {
    if i < |s| {
      DedupPrefix(s[..|s| - 1], i);
      assert s[..|s| - 1][..i] == s[..i];
    } else {
      assert s[..i] == s;
    }
  }

  lemma {:induction false} DedupMember(s: seq<NodeId>, x: NodeId)
    ensures x in Dedup(s) <==> x in s
  {
    if s != [] {
      DedupMember(s[..|s| - 1], x);
      DedupMember(s[..|s| - 1], s[|s| - 1]);
      assert s == s[..|s| - 1] + [s[|s| - 1]];
    }
  }

  lemma {:induction false} DedupDistinct(s: seq<NodeId>)
    ensures Distinct(Dedup(s))
  {
    if s != [] {
      DedupDistinct(s[..|s| - 1]);
    }
  }

  /** Node at `offset` steps clockwise from the bisection point. */
  lemma ClockwiseAt(ps: seq<Point>, token: nat, offset: nat)
    requires offset < |ps|
    ensures NodesOf(Clockwise(ps, token))[offset] == ps[(Bisect(ps, token) + offset) % |ps|].node
  {
    var b, n := Bisect(ps, token), |ps|;
    var clock := Clockwise(ps, token);
    Wrap(b + offset, n);
    if b + offset < n {
      assert clock[offset] == ps[b + offset];
    } else {
      assert clock[offset] == ps[..b][offset - (n - b)];
    }
  }

  lemma Wrap(x: nat, n: nat)
    requires x < 2 * n
    ensures x % n == if x < n then x else x - n
  {
    if n <= x {
      assert x == n + (x - n);
    }
  }

  method OwnersWalk(ring: Ring, token: nat, replicas: nat) returns (owners: seq<NodeId>)
    requires ring.Valid() && replicas > 0
    ensures owners == ring.Owners(token, replicas)
  {
    var wanted := if replicas <= |ring.nodes| then replicas else |ring.nodes|;
    var index := BisectRight(ring.points, token);
    owners := FirstDistinct(ring.points, index, wanted, token);
  }

  /** The clockwise loop: collect unseen nodes until `wanted` are found. */
  method FirstDistinct(ps: seq<Point>, index: nat, wanted: nat, ghost token: nat) returns (owners: seq<NodeId>)
    requires index == Bisect(ps, token) && wanted > 0
    ensures owners == Take(Preference(ps, token), wanted)
  {
    ghost var walk := NodesOf(Clockwise(ps, token));
    owners := [];
    for offset := 0 to |ps|
      invariant owners == Dedup(walk[..offset])
      invariant |owners| < wanted
    {
      ClockwiseAt(ps, token, offset);
      var node := ps[(index + offset) % |ps|].node;
      assert node == walk[offset];
      assert walk[..offset + 1][..offset] == walk[..offset];
      if node !in owners {
        owners := owners + [node];
        if |owners| == wanted {
          DedupPrefix(walk, offset + 1);
          return;
        }
      }
      assert owners == Dedup(walk[..offset + 1]);
    }
    assert walk[..|ps|] == walk;
  }

  // ----- Owners are min(replicas, nodes) distinct members -----

  lemma {:induction false} DistinctCount(s: seq<NodeId>, members: set<NodeId>)
    requires Distinct(s)
    requires forall x :: x in s <==> x in members
    ensures |s| == |members|
  {
    if s == [] {
      assert forall x :: x in members ==> x in s;
      assert members <= {};
    } else {
      var x := s[|s| - 1];
      var rest := s[..|s| - 1];
      assert s == rest + [x];
      DistinctCount(rest, members - {x});
    }
  }

  lemma WalkVisits(ps: seq<Point>, token: nat, i: nat)
    requires i < |ps|
    ensures ps[i].node in NodesOf(Clockwise(ps, token))
  {
    var b, clock := Bisect(ps, token), Clockwise(ps, token);
    var j := if i < b then i + |ps| - b else i - b;
    assert clock[j] == ps[i];
    assert NodesOf(clock)[j] == ps[i].node;
  }

  lemma WalkMember(ring: Ring, token: nat, x: NodeId)
    requires ring.Valid()
    ensures x in NodesOf(Clockwise(ring.points, token)) <==> x in ring.nodes
  {
    var clock := Clockwise(ring.points, token);
    var walk := NodesOf(clock);
    if x in ring.nodes {
      var p :| p in ring.points && p.node == x;
      var i :| 0 <= i < |ring.points| && ring.points[i] == p;
      WalkVisits(ring.points, token, i);
    }
    if x in walk {
      var i :| 0 <= i < |walk| && walk[i] == x;
      assert clock[i] in ring.points;
    }
  }

  /** Members in the order the clockwise walk first meets them. */
  function Preference(ps: seq<Point>, token: nat): seq<NodeId> {
    Dedup(NodesOf(Clockwise(ps, token)))
  }

  lemma PreferenceListsMembers(ring: Ring, token: nat)
    requires ring.Valid()
    ensures var d := Preference(ring.points, token);
      |d| == |ring.nodes| && Distinct(d) && forall x :: x in d <==> x in ring.nodes
  {
    var walk := NodesOf(Clockwise(ring.points, token));
    forall x ensures x in Dedup(walk) <==> x in ring.nodes {
      WalkMember(ring, token, x);
      DedupMember(walk, x);
    }
    DedupDistinct(walk);
    DistinctCount(Dedup(walk), ring.nodes);
  }

  lemma OwnersAreDistinctMembers(ring: Ring, token: nat, replicas: nat)
    requires ring.Valid()
    ensures var r := ring.Owners(token, replicas);
      && |r| == ring.Wanted(replicas)
      && Distinct(r)
      && (forall x | x in r :: x in ring.nodes)
  {
    PreferenceListsMembers(ring, token);
  }

  // ----- Owners are the nearest nodes clockwise -----

  /** Clockwise from `token`, the points after it come before the others; each part in ring order. */
  predicate Sooner(token: nat, p: Point, q: Point) {
    if token < p.token && q.token <= token then true
    else (token < p.token <==> token < q.token) && p.Less(q)
  }

  lemma ClockwiseOrder(ps: seq<Point>, token: nat, i: nat, j: nat)
    requires Sorted(ps) && i < j < |ps|
    ensures Sooner(token, Clockwise(ps, token)[i], Clockwise(ps, token)[j])
  {
    var b, n, clock := Bisect(ps, token), |ps|, Clockwise(ps, token);
    BisectSplits(ps, token);
    assert clock[i] == if i < n - b then ps[b + i] else ps[i - (n - b)];
    assert clock[j] == if j < n - b then ps[b + j] else ps[j - (n - b)];
  }

  /** Where the walk first meets its `i`-th distinct node. */
  lemma {:induction false} DedupFirst(s: seq<NodeId>, i: nat) returns (f: nat)
    requires i < |Dedup(s)|
    ensures f < |s| && s[f] == Dedup(s)[i] && forall e | 0 <= e < f :: s[e] in Dedup(s)[..i]
  {
    var init, r := s[..|s| - 1], Dedup(s[..|s| - 1]);
    if i < |r| {
      f := DedupFirst(init, i);
      assert Dedup(s)[..i] == r[..i];
    } else {
      f := |s| - 1;
      assert Dedup(s)[..i] == r;
      forall e | 0 <= e < f ensures s[e] in r {
        DedupMember(init, s[e]);
        assert init[e] == s[e];
      }
    }
  }

  /**
   Owner number `i` is the owner of the first point clockwise of the token that belongs to none
   of the owners before it, which decides the owners completely.
   */
  lemma OwnersAreNearest(ring: Ring, token: nat, replicas: nat, i: nat) returns (p: Point)
    requires ring.Valid() && i < |ring.Owners(token, replicas)|
    ensures p in ring.points && p.node == ring.Owners(token, replicas)[i]
    ensures forall q | q in ring.points && q.node !in ring.Owners(token, replicas)[..i] && q != p :: Sooner(token, p, q)
  {
    var ps, clock := ring.points, Clockwise(ring.points, token);
    var walk := NodesOf(clock);
    PreferenceListsMembers(ring, token);
    assert ring.Owners(token, replicas)[..i] == Preference(ps, token)[..i];
    var f := DedupFirst(walk, i);
    p := clock[f];
    assert p in clock;
    forall q | q in ps && q.node !in Preference(ps, token)[..i] && q != p ensures Sooner(token, p, q) {
      var e := ClockwiseIndex(ps, token, q);
      assert walk[e] == q.node;
      ClockwiseOrder(ps, token, f, e);
    }
  }

  lemma ClockwiseIndex(ps: seq<Point>, token: nat, q: Point) returns (e: nat)
    requires q in ps
    ensures e < |ps| && Clockwise(ps, token)[e] == q
  {
    var i :| 0 <= i < |ps| && ps[i] == q;
    var b := Bisect(ps, token);
    e := if i < b then i + |ps| - b else i - b;
  }

  // ----- Adding a node moves nothing between old nodes -----

  function Without(ps: seq<Point>, n: NodeId): seq<Point> {
    if ps == [] then []
    else
      var p := ps[|ps| - 1];
      Without(ps[..|ps| - 1], n) + (if p.node == n then [] else [p])
  }

  function Remove(s: seq<NodeId>, n: NodeId): seq<NodeId> {
    if s == [] then []
    else
      var x := s[|s| - 1];
      Remove(s[..|s| - 1], n) + (if x == n then [] else [x])
  }

  lemma {:induction false} WithoutMember(ps: seq<Point>, n: NodeId, p: Point)
    ensures p in Without(ps, n) <==> p in ps && p.node != n
  {
    if ps != [] {
      WithoutMember(ps[..|ps| - 1], n, p);
      assert ps == ps[..|ps| - 1] + [ps[|ps| - 1]];
    }
  }

  lemma {:induction false} RemoveMember(s: seq<NodeId>, n: NodeId, x: NodeId)
    ensures x in Remove(s, n) <==> x in s && x != n
  {
    if s != [] {
      RemoveMember(s[..|s| - 1], n, x);
      assert s == s[..|s| - 1] + [s[|s| - 1]];
    }
  }

  lemma {:induction false} SortedUnique(a: seq<Point>, b: seq<Point>)
    requires Sorted(a) && Sorted(b)
    requires forall p :: p in a <==> p in b
    ensures a == b
  {
    assert b != [] ==> b[0] in b;
    if a != [] {
      assert a[0] in b;
      assert b[0] in a;
      var i :| 0 <= i < |b| && b[i] == a[0];
      var j :| 0 <= j < |a| && a[j] == b[0];
      assert i == 0;
      TailMember(a);
      TailMember(b);
      SortedUnique(a[1..], b[1..]);
      assert a == [a[0]] + a[1..] && b == [b[0]] + b[1..];
    }
  }

  lemma TailMember(a: seq<Point>)
    requires Sorted(a) && a != []
    ensures forall p :: p in a[1..] <==> p in a && p != a[0]
  {
    assert a == [a[0]] + a[1..];
    assert forall i | 0 <= i < |a| - 1 :: a[1..][i] == a[i + 1];
  }

  lemma {:induction false} WithoutSorted(ps: seq<Point>, n: NodeId)
    requires Sorted(ps)
    ensures Sorted(Without(ps, n))
  {
    if ps != [] {
      var init := ps[..|ps| - 1];
      WithoutSorted(init, n);
      var w := Without(init, n);
      forall i | 0 <= i < |w| ensures w[i].Less(ps[|ps| - 1]) {
        WithoutMember(init, n, w[i]);
        assert w[i] in init;
      }
    }
  }

  lemma {:induction false} NodesOfWithout(ps: seq<Point>, n: NodeId)
    ensures NodesOf(Without(ps, n)) == Remove(NodesOf(ps), n)
  {
    if ps != [] {
      NodesOfWithout(ps[..|ps| - 1], n);
      assert NodesOf(ps)[..|ps| - 1] == NodesOf(ps[..|ps| - 1]);
    }
  }

  lemma {:induction false} WithoutConcat(a: seq<Point>, b: seq<Point>, n: NodeId)
    ensures Without(a + b, n) == Without(a, n) + Without(b, n)
  {
    if b == [] {
      assert a + b == a;
    } else {
      assert (a + b)[..|a + b| - 1] == a + b[..|b| - 1];
      WithoutConcat(a, b[..|b| - 1], n);
    }
  }

  lemma {:induction false} DedupRemove(s: seq<NodeId>, n: NodeId)
    ensures Dedup(Remove(s, n)) == Remove(Dedup(s), n)
  {
    if s != [] {
      var x := s[|s| - 1];
      var init := s[..|s| - 1];
      DedupRemove(init, n);
      RemoveMember(Dedup(init), n, x);
      RemoveAppend(Dedup(init), n, x);
      if x != n {
        assert Remove(s, n) == Remove(init, n) + [x];
        assert Remove(s, n)[..|Remove(s, n)| - 1] == Remove(init, n);
      } else {
        assert Remove(s, n) == Remove(init, n);
      }
    }
  }

  lemma RemoveAppend(s: seq<NodeId>, n: NodeId, x: NodeId)
    ensures Remove(s + [x], n) == Remove(s, n) + (if x == n then [] else [x])
  {
    assert (s + [x])[..|s|] == s;
  }

  lemma {:induction false} RemovePrefix(s: seq<NodeId>, i: nat, n: NodeId)
    requires i <= |s|
    ensures Remove(s[..i], n) <= Remove(s, n)
    decreases |s|
  {
    if i < |s| {
      RemovePrefix(s[..|s| - 1], i, n);
      assert s[..|s| - 1][..i] == s[..i];
    } else {
      assert s[..i] == s;
    }
  }

  lemma {:induction false} RemoveOnce(s: seq<NodeId>, n: NodeId)
    requires Distinct(s)
    ensures |Remove(s, n)| == if n in s then |s| - 1 else |s|
  {
    if s != [] {
      var init := s[..|s| - 1];
      assert s == init + [s[|s| - 1]];
      RemoveOnce(init, n);
    }
  }

  lemma TokenSplit(ps: seq<Point>, token: nat, p: Point)
    requires Sorted(ps)
    ensures p in ps[Bisect(ps, token)..] <==> p in ps && token < p.token
    ensures p in ps[..Bisect(ps, token)] <==> p in ps && p.token <= token
  {
    var b := Bisect(ps, token);
    BisectSplits(ps, token);
    if p in ps {
      var i :| 0 <= i < |ps| && ps[i] == p;
      if i < b { assert ps[..b][i] == p; } else { assert ps[b..][i - b] == p; }
    }
    if p in ps[b..] {
      var i :| 0 <= i < |ps| - b && ps[b..][i] == p;
      assert ps[b + i] == p;
    }
    if p in ps[..b] {
      var i :| 0 <= i < b && ps[..b][i] == p;
      assert ps[i] == p;
    }
  }

  /** The walk of the larger ring, minus the new node, is the old walk. */
  lemma ClockwiseWithout(before: seq<Point>, after: seq<Point>, nodes: set<NodeId>, n: NodeId, vnodes: nat,
                         hash: (NodeId, nat) -> nat, token: nat)
    requires n !in nodes
    requires IsPlacement(before, nodes, vnodes, hash)
    requires IsPlacement(after, nodes + {n}, vnodes, hash)
    ensures Without(Clockwise(after, token), n) == Clockwise(before, token)
  {
    var b, c := Bisect(before, token), Bisect(after, token);
    WithoutConcat(after[c..], after[..c], n);
    WithoutSorted(after[c..], n);
    WithoutSorted(after[..c], n);
    forall p
      ensures p in Without(after[c..], n) <==> p in before[b..]
      ensures p in Without(after[..c], n) <==> p in before[..b]
    {
      TokenSplit(before, token, p);
      TokenSplit(after, token, p);
      WithoutMember(after[c..], n, p);
      WithoutMember(after[..c], n, p);
    }
    SortedUnique(Without(after[c..], n), before[b..]);
    SortedUnique(Without(after[..c], n), before[..b]);
  }

  lemma PreferenceWithout(before: seq<Point>, after: seq<Point>, nodes: set<NodeId>, n: NodeId, vnodes: nat,
                          hash: (NodeId, nat) -> nat, token: nat)
    requires n !in nodes
    requires IsPlacement(before, nodes, vnodes, hash)
    requires IsPlacement(after, nodes + {n}, vnodes, hash)
    ensures Preference(before, token) == Remove(Preference(after, token), n)
  {
    ClockwiseWithout(before, after, nodes, n, vnodes, hash, token);
    NodesOfWithout(Clockwise(after, token), n);
    DedupRemove(NodesOf(Clockwise(after, token)), n);
  }

  /**
   Growing the ring by one node: with the new node struck out, the new owner list
   is a prefix of the old one, at most one owner shorter.  So no key moves between
   two old nodes, and each key gives up at most its last owner.
   */
  lemma AddingNodeMovesNothing(before: Ring, after: Ring, n: NodeId, vnodes: nat,
                               hash: (NodeId, nat) -> nat, token: nat, replicas: nat)
    requires before.Valid() && after.Valid()
    requires n !in before.nodes && after.nodes == before.nodes + {n}
    requires IsPlacement(before.points, before.nodes, vnodes, hash)
    requires IsPlacement(after.points, after.nodes, vnodes, hash)
    ensures Remove(after.Owners(token, replicas), n) <= before.Owners(token, replicas)
    ensures |before.Owners(token, replicas)| - 1 <= |Remove(after.Owners(token, replicas), n)|
  {
    PreferenceWithout(before.points, after.points, before.nodes, n, vnodes, hash, token);
    PreferenceListsMembers(before, token);
    PreferenceListsMembers(after, token);
    PrefixLengths(Preference(before.points, token), Preference(after.points, token),
                  after.Wanted(replicas), before.Wanted(replicas), n);
  }

  lemma PrefixLengths(d: seq<NodeId>, e: seq<NodeId>, w: nat, v: nat, n: NodeId)
    requires w <= |e| && v <= |d| && v <= w <= v + 1
    requires d == Remove(e, n) && Distinct(e)
    requires v < w ==> n in e && w == |e|
    ensures Remove(e[..w], n) <= d[..v]
    ensures v - 1 <= |Remove(e[..w], n)|
  {
    RemovePrefix(e, w, n);
    RemoveOnce(e[..w], n);
    RemoveOnce(e, n);
    if w == |e| {
      assert e[..w] == e;
    }
  }

  /** The rings that the constructor builds, before and after a node is added, are ones to which that applies. */
  method Grow(nodes: seq<NodeId>, n: NodeId, vnodes: nat, version: nat, hash: (NodeId, nat) -> nat)
    returns (before: Ring, after: Ring)
    requires nodes != [] && vnodes > 0 && Distinct(nodes) && n !in nodes
    ensures before.Valid() && after.Valid() && after.nodes == before.nodes + {n} && after.version == version + 1
    ensures forall token: nat, replicas: nat ::
      && Remove(after.Owners(token, replicas), n) <= before.Owners(token, replicas)
      && |before.Owners(token, replicas)| - 1 <= |Remove(after.Owners(token, replicas), n)|
  {
    before := Build(nodes, vnodes, version, hash);
    after := Build(nodes + [n], vnodes, version + 1, hash);
    forall token: nat, replicas: nat
      ensures Remove(after.Owners(token, replicas), n) <= before.Owners(token, replicas)
      ensures |before.Owners(token, replicas)| - 1 <= |Remove(after.Owners(token, replicas), n)|
    {
      AddingNodeMovesNothing(before, after, n, vnodes, hash, token, replicas);
    }
  }
}
