/** The bounded dependency graph: additions never close a cycle, and expansion is exact. */
module DependencyGraphs {
  import opened DependencyPaths

  datatype Added = Added | Present | Refused(reason: Reason)

  datatype Reason = Cycle | NodeLimit | EdgeLimit | FanoutLimit

  datatype Expanded = Nodes(nodes: set<Node>) | TooMany | TooDeep

  ghost function Pairs(e: Edges): set<(Node, Node)> {
    set x, y | x in e && y in e[x] :: (x, y)
  }

  lemma PairsGrow(e: Edges, a: Node, b: Node)
    requires b !in Kids(e, a)
    ensures |Pairs(With(e, a, b))| == |Pairs(e)| + 1
  {
    assert Pairs(With(e, a, b)) == Pairs(e) + {(a, b)};
  }

  ghost predicate Known(e: Edges, nodes: set<Node>) {
    forall x, y | y in Kids(e, x) :: x in nodes && y in nodes
  }

  ghost predicate Fanout(e: Edges, limit: nat) {
    forall x :: |Kids(e, x)| <= limit
  }

  lemma WithKids(e: Edges, a: Node, b: Node, x: Node)
    ensures Kids(With(e, a, b), x) == Kids(e, x) + (if x == a then {b} else {})
  {
  }

  lemma AddKeepsBounds(e: Edges, nodes: set<Node>, a: Node, b: Node, limit: nat)
    requires Known(e, nodes) && Fanout(e, limit) && |Kids(e, a)| < limit
    ensures Known(With(e, a, b), nodes + {a, b}) && Fanout(With(e, a, b), limit)
  {
    forall x, y | y in Kids(With(e, a, b), x) ensures x in nodes + {a, b} && y in nodes + {a, b} {
      WithKids(e, a, b, x);
      if y in Kids(e, x) {
        assert x in nodes && y in nodes;
      } else {
        assert x == a && y == b;
      }
    }
    forall x ensures |Kids(With(e, a, b), x)| <= limit {
      WithKids(e, a, b, x);
      assert |Kids(e, x)| <= limit;
    }
  }

  // ----- Depth-first search -----

  /** All pending nodes are reachable, and what `seen` leads to is seen or pending. */
  ghost predicate Exploring(e: Edges, start: Node, all: set<Node>, seen: set<Node>, pending: seq<Node>) {
    && (forall x, y | x in all && y in Kids(e, x) :: y in all)
    && (forall x | x in pending :: x in all && Reaches(e, start, x))
    && seen <= all && (start in seen || start in pending)
    && (forall x, y | x in seen && y in Kids(e, x) :: y in seen || y in pending)
  }

  lemma LastOf(pending: seq<Node>, x: Node)
    requires pending != []
    ensures x in pending <==> x in pending[..|pending| - 1] || x == pending[|pending| - 1]
  {
    assert pending == pending[..|pending| - 1] + [pending[|pending| - 1]];
  }

  lemma DropSeen(e: Edges, start: Node, all: set<Node>, seen: set<Node>, pending: seq<Node>)
    requires Exploring(e, start, all, seen, pending) && pending != [] && pending[|pending| - 1] in seen
    ensures Exploring(e, start, all, seen, pending[..|pending| - 1])
  {
    var rest := pending[..|pending| - 1];
    LastOf(pending, start);
    forall x | x in rest ensures x in all && Reaches(e, start, x) { LastOf(pending, x); }
    forall x, y | x in seen && y in Kids(e, x) ensures y in seen || y in rest { LastOf(pending, y); }
  }

  lemma Explore(e: Edges, start: Node, all: set<Node>, seen: set<Node>, pending: seq<Node>, kids: seq<Node>)
    requires Exploring(e, start, all, seen, pending) && pending != []
    requires forall y :: y in kids <==> y in Kids(e, pending[|pending| - 1])
    ensures Exploring(e, start, all, seen + {pending[|pending| - 1]}, pending[..|pending| - 1] + kids)
  {
    var node, rest := pending[|pending| - 1], pending[..|pending| - 1];
    LastOf(pending, node);
    LastOf(pending, start);
    forall x | x in rest + kids ensures x in all && Reaches(e, start, x) {
      LastOf(pending, x);
      if x in kids { ReachThenStep(e, start, node, x); }
    }
    forall x, y | x in seen + {node} && y in Kids(e, x) ensures y in seen + {node} || y in rest + kids {
      LastOf(pending, y);
    }
  }

  lemma NothingPending(e: Edges, start: Node, all: set<Node>, seen: set<Node>, target: Node)
    requires Exploring(e, start, all, seen, []) && target !in seen
    ensures !Reaches(e, start, target)
  {
    if Reaches(e, start, target) {
      var p :| PathFrom(e, start, target, p);
      ClosedContains(e, seen, p);
    }
  }

  // ----- Breadth-first search -----

  datatype Item = Item(node: Node, depth: nat)

  /** Depths in the queue never fall, and never exceed the first by more than one. */
  ghost predicate Levelled(queue: seq<Item>, d: nat) {
    && (forall i | 0 <= i < |queue| :: d <= queue[i].depth <= d + 1)
    && (forall i, j | 0 <= i < j < |queue| :: queue[i].depth <= queue[j].depth)
  }

  ghost predicate Queued(queue: seq<Item>, x: Node, d: nat) {
    exists i :: 0 <= i < |queue| && queue[i].node == x && queue[i].depth <= d
  }

  ghost predicate Covered(queue: seq<Item>, visited: set<Node>, x: Node, d: nat) {
    x in visited || Queued(queue, x, d)
  }

  /** The search at level `d`: everything nearer is visited, everything at `d` visited or queued. */
  ghost predicate Search(e: Edges, seeds: set<Node>, visited: set<Node>, queue: seq<Item>, d: nat) {
    && Levelled(queue, d)
    && (forall i | 0 <= i < |queue| :: queue[i].node in Within(e, seeds, queue[i].depth))
    && visited <= Within(e, seeds, d)
    && (d > 0 ==> Within(e, seeds, d - 1) <= visited)
    && (forall x | x in Within(e, seeds, d) :: Covered(queue, visited, x, d))
    && (forall x, y | x in visited && y in Kids(e, x) :: Covered(queue, visited, y, d + 1))
  }

  lemma QueuedHead(queue: seq<Item>, x: Node, d: nat)
    requires queue != [] && Queued(queue, x, d)
    ensures x == queue[0].node || Queued(queue[1..], x, d)
  {
    var i :| 0 <= i < |queue| && queue[i].node == x && queue[i].depth <= d;
    if i > 0 { assert queue[1..][i - 1] == queue[i]; }
  }

  lemma CoveredAfterHead(queue: seq<Item>, visited: set<Node>, x: Node, d: nat)
    requires queue != [] && Covered(queue, visited, x, d)
    ensures Covered(queue[1..], visited + {queue[0].node}, x, d)
  {
    if x !in visited { QueuedHead(queue, x, d); }
  }

  lemma LevelledTail(queue: seq<Item>, d: nat)
    requires queue != [] && Levelled(queue, d)
    ensures Levelled(queue[1..], d)
  {
  }

  /** Once no item of level `d` is left, the search stands at level `d + 1`. */
  lemma NextLevel(e: Edges, seeds: set<Node>, visited: set<Node>, queue: seq<Item>, d: nat)
    requires Search(e, seeds, visited, queue, d) && forall i | 0 <= i < |queue| :: queue[i].depth == d + 1
    ensures Search(e, seeds, visited, queue, d + 1)
  {
    forall x | x in Within(e, seeds, d) ensures x in visited {
      assert Covered(queue, visited, x, d);
    }
    var next := Within(e, seeds, d + 1);
    forall x | x in next ensures Covered(queue, visited, x, d + 1) {
      if x !in Within(e, seeds, d) {
        var w :| w in Within(e, seeds, d) && x in Kids(e, w);
        assert w in visited;
      }
    }
    forall x, y | x in visited && y in Kids(e, x) ensures Covered(queue, visited, y, d + 2) {
      assert Covered(queue, visited, y, d + 1);
    }
  }

  /** Bring the level up to the depth of the first item. */
  lemma AtHead(e: Edges, seeds: set<Node>, visited: set<Node>, queue: seq<Item>, d: nat)
    requires Search(e, seeds, visited, queue, d) && queue != []
    ensures Search(e, seeds, visited, queue, queue[0].depth)
  {
    if queue[0].depth != d {
      forall i | 0 <= i < |queue| ensures queue[i].depth == d + 1 {
        assert d <= queue[0].depth <= queue[i].depth <= d + 1;
      }
      NextLevel(e, seeds, visited, queue, d);
    }
  }

  lemma Skip(e: Edges, seeds: set<Node>, visited: set<Node>, queue: seq<Item>, d: nat)
    requires Search(e, seeds, visited, queue, d) && queue != [] && queue[0].node in visited
    ensures Search(e, seeds, visited, queue[1..], d)
  {
    LevelledTail(queue, d);
    assert visited + {queue[0].node} == visited;
    forall x | x in Within(e, seeds, d) ensures Covered(queue[1..], visited, x, d) {
      CoveredAfterHead(queue, visited, x, d);
    }
    forall x, y | x in visited && y in Kids(e, x) ensures Covered(queue[1..], visited, y, d + 1) {
      CoveredAfterHead(queue, visited, y, d + 1);
    }
  }

  /** `more` appends the unvisited children of the node at depth `d`. */
  ghost predicate Children(e: Edges, visited: set<Node>, node: Node, d: nat, more: seq<Item>) {
    && (forall i | 0 <= i < |more| :: more[i].depth == d + 1 && more[i].node in Kids(e, node))
    && (forall y | y in Kids(e, node) && y !in visited :: exists i :: 0 <= i < |more| && more[i].node == y)
  }

  lemma CoveredMore(queue: seq<Item>, visited: set<Node>, x: Node, d: nat, more: seq<Item>)
    requires Covered(queue, visited, x, d)
    ensures Covered(queue + more, visited, x, d)
  {
    if x !in visited {
      var i :| 0 <= i < |queue| && queue[i].node == x && queue[i].depth <= d;
      assert (queue + more)[i] == queue[i];
    }
  }

  lemma ChildCovered(e: Edges, visited: set<Node>, node: Node, d: nat, rest: seq<Item>, more: seq<Item>, y: Node)
    requires Children(e, visited, node, d, more) && y in Kids(e, node)
    ensures Covered(rest + more, visited, y, d + 1)
  {
    if y !in visited {
      var i :| 0 <= i < |more| && more[i].node == y;
      assert (rest + more)[|rest| + i] == more[i];
    }
  }

  lemma VisitLevels(e: Edges, seeds: set<Node>, node: Node, d: nat, rest: seq<Item>, more: seq<Item>, visited: set<Node>)
    requires Levelled(rest, d) && Children(e, visited, node, d, more) && node in Within(e, seeds, d)
    requires forall i | 0 <= i < |rest| :: rest[i].node in Within(e, seeds, rest[i].depth)
    ensures Levelled(rest + more, d)
    ensures forall i | 0 <= i < |rest + more| :: (rest + more)[i].node in Within(e, seeds, (rest + more)[i].depth)
  {
    forall i | 0 <= i < |more| ensures more[i].node in Within(e, seeds, more[i].depth) {
      assert more[i].node in Kids(e, node) && more[i].depth == d + 1;
    }
  }

  lemma Visit(e: Edges, seeds: set<Node>, visited: set<Node>, queue: seq<Item>, more: seq<Item>)
    requires queue != [] && Search(e, seeds, visited, queue, queue[0].depth)
    requires Children(e, visited + {queue[0].node}, queue[0].node, queue[0].depth, more)
    ensures Search(e, seeds, visited + {queue[0].node}, queue[1..] + more, queue[0].depth)
  {
    var node, d, rest, seen := queue[0].node, queue[0].depth, queue[1..], visited + {queue[0].node};
    LevelledTail(queue, d);
    VisitLevels(e, seeds, node, d, rest, more, seen);
    forall x | x in Within(e, seeds, d) ensures Covered(rest + more, seen, x, d) {
      CoveredAfterHead(queue, visited, x, d);
      CoveredMore(rest, seen, x, d, more);
    }
    forall x, y | x in seen && y in Kids(e, x) ensures Covered(rest + more, seen, y, d + 1) {
      if x in visited {
        CoveredAfterHead(queue, visited, y, d + 1);
        CoveredMore(rest, seen, y, d + 1, more);
      } else {
        ChildCovered(e, seen, node, d, rest, more, y);
      }
    }
  }

  /** An empty queue leaves nothing reachable unvisited. */
  lemma {:induction false} Finished(e: Edges, seeds: set<Node>, visited: set<Node>, d: nat, n: nat)
    requires Search(e, seeds, visited, [], d)
    ensures Within(e, seeds, n) <= visited
  {
    if n <= d {
      WithinGrows(e, seeds, n, d);
      forall x | x in Within(e, seeds, n) ensures x in visited { assert Covered([], visited, x, d); }
    } else {
      Finished(e, seeds, visited, d, n - 1);
      forall x | x in Within(e, seeds, n) ensures x in visited {
        if x !in Within(e, seeds, n - 1) {
          var w :| w in Within(e, seeds, n - 1) && x in Kids(e, w);
          assert Covered([], visited, x, d + 1);
        }
      }
    }
  }

  // ----- What expansion must return -----

  ghost predicate Exactly(e: Edges, seeds: set<Node>, s: set<Node>) {
    forall x :: x in s <==> Reachable(e, seeds, x)
  }

  /** More than `limit` nodes are reachable. */
  ghost predicate Exceeds(e: Edges, seeds: set<Node>, limit: nat) {
    exists s: set<Node> :: |s| > limit && AllReachable(e, seeds, s)
  }

  ghost predicate AllReachable(e: Edges, seeds: set<Node>, s: set<Node>) {
    forall x | x in s :: Reachable(e, seeds, x)
  }

  /** A node with children lies at shortest distance `depth` or more. */
  ghost predicate Deep(e: Edges, seeds: set<Node>, depth: nat)
    requires depth > 0
  {
    exists x :: DeepNode(e, seeds, depth, x)
  }

  ghost predicate DeepNode(e: Edges, seeds: set<Node>, depth: nat, x: Node)
    requires depth > 0
  {
    Reachable(e, seeds, x) && Kids(e, x) != {} && x !in Within(e, seeds, depth - 1)
  }

  ghost predicate Shallow(e: Edges, seeds: set<Node>, depth: nat, s: set<Node>)
    requires depth > 0
  {
    forall x | x in s && Kids(e, x) != {} :: x in Within(e, seeds, depth - 1)
  }

  lemma {:induction false} SubsetSize(s: set<Node>, t: set<Node>)
    requires s <= t
    ensures |s| <= |t|
  {
    assert t == s + (t - s);
  }

  lemma WithinBounds(e: Edges, seeds: set<Node>, s: set<Node>, limit: nat, depth: nat)
    requires depth > 0 && Exactly(e, seeds, s) && |s| <= limit && Shallow(e, seeds, depth, s)
    ensures !Exceeds(e, seeds, limit) && !Deep(e, seeds, depth)
  {
    forall t: set<Node> | AllReachable(e, seeds, t) ensures |t| <= limit {
      assert t <= s;
      SubsetSize(t, s);
    }
  }

  class DependencyGraph {
    const maxNodes: nat
    const maxEdges: nat
    const maxFanout: nat
    const maxDepth: nat
    const maxInvalidation: nat
    var edges: Edges
    var nodes: set<Node>
    var edgeCount: nat

    /** Acyclic, all endpoints known, the edge count exact, and every bound respected. */
    ghost predicate Valid()
      reads this
    {
      && maxDepth > 0
      && Acyclic(edges)
      && Known(edges, nodes)
      && edgeCount == |Pairs(edges)|
      && |nodes| <= maxNodes && edgeCount <= maxEdges
      && Fanout(edges, maxFanout)
    }

    constructor (maxNodes: nat, maxEdges: nat, maxFanout: nat, maxDepth: nat, maxInvalidation: nat)
      requires maxNodes > 0 && maxEdges > 0 && maxFanout > 0 && maxDepth > 0 && maxInvalidation > 0
      ensures Valid() && edges == map[]
      ensures this.maxNodes == maxNodes && this.maxEdges == maxEdges && this.maxFanout == maxFanout
      ensures this.maxDepth == maxDepth && this.maxInvalidation == maxInvalidation
    {
      this.maxNodes, this.maxEdges, this.maxFanout := maxNodes, maxEdges, maxFanout;
      this.maxDepth, this.maxInvalidation := maxDepth, maxInvalidation;
      edges, nodes, edgeCount := map[], {}, 0;
    }

    /** Depth-first search with a stack. */
    method IsReachable(start: Node, target: Node) returns (found: bool)
      requires Valid()
      ensures found <==> Reaches(edges, start, target)
    {
      var pending, seen := [start], {};
      ghost var all := nodes + {start};
      ReachesSelf(edges, start);
      while pending != []
        invariant Exploring(edges, start, all, seen, pending) && target !in seen
        decreases |all - seen|, |pending|
      {
        var node, rest := pending[|pending| - 1], pending[..|pending| - 1];
        assert node in pending;
        if node == target {
          return true;
        }
        if node in seen {
          DropSeen(edges, start, all, seen, pending);
          pending := rest;
        } else {
          var kids := Listed(Kids(edges, node));
          Explore(edges, start, all, seen, pending, kids);
          assert all - (seen + {node}) < all - seen;
          seen, pending := seen + {node}, rest + kids;
        }
      }
      NothingPending(edges, start, all, seen, target);
      found := false;
    }

    /** The elements of a set, in some order. */
    method Listed(s: set<Node>) returns (list: seq<Node>)
      ensures forall x :: x in list <==> x in s
    {
      list := [];
      var rest := s;
      while rest != {}
        invariant forall x :: x in s <==> x in rest || x in list
        decreases |rest|
      {
        var x :| x in rest;
        list, rest := list + [x], rest - {x};
      }
    }

    method AddDependency(a: Node, b: Node) returns (out: Added)
      requires Valid()
      modifies this
      ensures Valid()
      ensures out.Added? <==>
        && a != b && b !in Kids(old(edges), a) && |old(nodes) + {a, b}| <= maxNodes && old(edgeCount) < maxEdges
        && |Kids(old(edges), a)| < maxFanout && !Reaches(old(edges), b, a)
      ensures out.Present? <==> a != b && b in Kids(old(edges), a)
      ensures forall x :: Kids(edges, x) == Kids(old(edges), x) + (if out.Added? && x == a then {b} else {})
    {
      if a == b {
        return Refused(Cycle);
      }
      if b in Kids(edges, a) {
        return Present;
      }
      var known := nodes + {a, b};
      if |known| > maxNodes {
        return Refused(NodeLimit);
      }
      if edgeCount >= maxEdges {
        return Refused(EdgeLimit);
      }
      if |Kids(edges, a)| >= maxFanout {
        return Refused(FanoutLimit);
      }
      var back := IsReachable(b, a);
      if back {
        return Refused(Cycle);
      }
      AddKeepsAcyclic(edges, a, b);
      AddKeepsBounds(edges, nodes, a, b, maxFanout);
      PairsGrow(edges, a, b);
      nodes, edges, edgeCount := known, With(edges, a, b), edgeCount + 1;
      out := Added.Added;
    }

    method Enqueue(seeds: seq<Node>, depth: nat) returns (queue: seq<Item>)
      ensures |queue| == |seeds| && forall i | 0 <= i < |queue| :: queue[i] == Item(seeds[i], depth)
    {
      queue := [];
      var i := 0;
      while i < |seeds|
        invariant i <= |seeds| && |queue| == i && forall j | 0 <= j < i :: queue[j] == Item(seeds[j], depth)
      {
        queue := queue + [Item(seeds[i], depth)];
        i := i + 1;
      }
    }

    /**
     Breadth-first expansion: exactly the reachable nodes, refused precisely when they
     are more than the node bound or one with children lies too deep.
     */
    method Expand(seeds: seq<Node>) returns (out: Expanded)
      requires Valid()
      ensures var start := set x | x in seeds;
        && (out.Nodes? <==> !Exceeds(edges, start, maxInvalidation) && !Deep(edges, start, maxDepth))
        && (out.Nodes? ==> Exactly(edges, start, out.nodes))
    {
      ghost var start := set x | x in seeds;
      var queue := Enqueue(seeds, 0);
      var visited: set<Node> := {};
      ghost var d: nat := 0;
      SearchStarts(edges, start, seeds, queue);
      while queue != []
        invariant Search(edges, start, visited, queue, d)
        invariant |visited| <= maxInvalidation && Shallow(edges, start, maxDepth, visited)
        decreases maxInvalidation - |visited|, |queue|
      {
        var node, depth := queue[0].node, queue[0].depth;
        AtHead(edges, start, visited, queue, d);
        d := depth;
        if node in visited {
          Skip(edges, start, visited, queue, d);
          queue := queue[1..];
        } else {
          if |visited| >= maxInvalidation {
            OverNodes(edges, start, visited, queue, maxInvalidation);
            return TooMany;
          }
          if Kids(edges, node) != {} && depth >= maxDepth {
            HeadDistance(edges, start, visited, queue);
            OverDepth(edges, start, node, depth, maxDepth);
            return TooDeep;
          }
          ShallowGrows(edges, start, visited, queue, maxDepth);
          var kids := Unvisited(Kids(edges, node), visited + {node}, depth + 1);
          Visit(edges, start, visited, queue, kids);
          visited, queue := visited + {node}, queue[1..] + kids;
        }
      }
      VisitedExactly(edges, start, visited, d);
      WithinBounds(edges, start, visited, maxInvalidation, maxDepth);
      out := Nodes(visited);
    }

    /** The children not yet visited, in some order, one level down. */
    method Unvisited(kids: set<Node>, visited: set<Node>, depth: nat) returns (items: seq<Item>)
      ensures forall i | 0 <= i < |items| :: items[i].depth == depth && items[i].node in kids
      ensures forall y | y in kids && y !in visited :: exists i :: 0 <= i < |items| && items[i].node == y
    {
      var list := Listed(kids - visited);
      items := Enqueue(list, depth);
      assert forall i | 0 <= i < |list| :: list[i] in list;
      forall y | y in kids && y !in visited ensures exists i :: 0 <= i < |items| && items[i].node == y {
        assert y in list;
        var i :| 0 <= i < |list| && list[i] == y;
        assert items[i].node == y;
      }
    }
  }

  lemma SearchStarts(e: Edges, start: set<Node>, seeds: seq<Node>, queue: seq<Item>)
    requires start == set x | x in seeds
    requires |queue| == |seeds| && forall i | 0 <= i < |queue| :: queue[i] == Item(seeds[i], 0)
    ensures Search(e, start, {}, queue, 0)
  {
    forall x | x in start ensures Covered(queue, {}, x, 0) {
      var i :| 0 <= i < |seeds| && seeds[i] == x;
      assert queue[i].node == x;
    }
  }

  lemma OverNodes(e: Edges, seeds: set<Node>, visited: set<Node>, queue: seq<Item>, limit: nat)
    requires queue != [] && Search(e, seeds, visited, queue, queue[0].depth)
    requires queue[0].node !in visited && |visited| >= limit
    ensures Exceeds(e, seeds, limit)
  {
    var s := visited + {queue[0].node};
    assert s <= Within(e, seeds, queue[0].depth);
    assert AllReachable(e, seeds, s);
  }

  /** An unvisited head lies at exactly its depth. */
  lemma HeadDistance(e: Edges, seeds: set<Node>, visited: set<Node>, queue: seq<Item>)
    requires queue != [] && Search(e, seeds, visited, queue, queue[0].depth) && queue[0].node !in visited
    ensures queue[0].node in Within(e, seeds, queue[0].depth)
    ensures queue[0].depth > 0 ==> queue[0].node !in Within(e, seeds, queue[0].depth - 1)
  {
  }

  lemma OverDepth(e: Edges, seeds: set<Node>, node: Node, d: nat, depth: nat)
    requires 0 < depth <= d && node in Within(e, seeds, d) && node !in Within(e, seeds, d - 1) && Kids(e, node) != {}
    ensures Deep(e, seeds, depth)
  {
    NotNearer(e, seeds, node, depth - 1, d - 1);
    assert DeepNode(e, seeds, depth, node);
  }

  lemma NotNearer(e: Edges, seeds: set<Node>, node: Node, m: nat, n: nat)
    requires m <= n && node !in Within(e, seeds, n)
    ensures node !in Within(e, seeds, m)
  {
    WithinGrows(e, seeds, m, n);
  }

  lemma ShallowGrows(e: Edges, seeds: set<Node>, visited: set<Node>, queue: seq<Item>, depth: nat)
    requires queue != [] && Search(e, seeds, visited, queue, queue[0].depth)
    requires depth > 0 && Shallow(e, seeds, depth, visited) && (Kids(e, queue[0].node) == {} || queue[0].depth < depth)
    ensures Shallow(e, seeds, depth, visited + {queue[0].node})
  {
    var node, d := queue[0].node, queue[0].depth;
    assert node in Within(e, seeds, d);
    if d < depth { WithinGrows(e, seeds, d, depth - 1); }
  }

  lemma VisitedExactly(e: Edges, seeds: set<Node>, visited: set<Node>, d: nat)
    requires Search(e, seeds, visited, [], d)
    ensures Exactly(e, seeds, visited)
  {
    forall x ensures x in visited <==> Reachable(e, seeds, x) {
      if Reachable(e, seeds, x) {
        var n: nat :| x in Within(e, seeds, n);
        Finished(e, seeds, visited, d, n);
      }
    }
  }
}
