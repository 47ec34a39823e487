/** Paths, distances and cycles in a dependency graph. */
module DependencyPaths {

  type Node = string
  type Edges = map<Node, set<Node>>

  function Kids(e: Edges, x: Node): set<Node> {
    if x in e then e[x] else {}
  }

  function With(e: Edges, a: Node, b: Node): Edges {
    e[a := Kids(e, a) + {b}]
  }

  /** A nonempty chain of nodes, each an edge's target of the one before. */
  ghost predicate Path(e: Edges, p: seq<Node>) {
    p != [] && forall i | 0 <= i < |p| - 1 :: p[i + 1] in Kids(e, p[i])
  }

  ghost predicate PathFrom(e: Edges, x: Node, y: Node, p: seq<Node>) {
    Path(e, p) && p[0] == x && p[|p| - 1] == y
  }

  ghost predicate Reaches(e: Edges, x: Node, y: Node) {
    exists p :: PathFrom(e, x, y, p)
  }

  /** No edge leads back to where it came from. */
  ghost predicate Acyclic(e: Edges) {
    forall x, y | y in Kids(e, x) :: !Reaches(e, y, x)
  }

  lemma ReachesSelf(e: Edges, x: Node)
    ensures Reaches(e, x, x)
  {
    assert PathFrom(e, x, x, [x]);
  }

  lemma PathConcat(e: Edges, p: seq<Node>, q: seq<Node>)
    requires Path(e, p) && Path(e, q) && q[0] in Kids(e, p[|p| - 1])
    ensures Path(e, p + q)
  {
    var r := p + q;
    forall i | 0 <= i < |r| - 1 ensures r[i + 1] in Kids(e, r[i]) {
      if i < |p| - 1 {
        assert r[i] == p[i] && r[i + 1] == p[i + 1];
      } else if i >= |p| {
        assert r[i] == q[i - |p|] && r[i + 1] == q[i - |p| + 1];
      }
    }
  }

  /** From `x` to `m`, along an edge to `n`, and on to `y`. */
  lemma ReachesAcross(e: Edges, x: Node, m: Node, n: Node, y: Node)
    requires Reaches(e, x, m) && n in Kids(e, m) && Reaches(e, n, y)
    ensures Reaches(e, x, y)
  {
    var p :| PathFrom(e, x, m, p);
    var q :| PathFrom(e, n, y, q);
    PathConcat(e, p, q);
    assert PathFrom(e, x, y, p + q);
  }

  lemma StepThenReach(e: Edges, x: Node, n: Node, y: Node)
    requires n in Kids(e, x) && Reaches(e, n, y)
    ensures Reaches(e, x, y)
  {
    ReachesSelf(e, x);
    ReachesAcross(e, x, x, n, y);
  }

  lemma ReachThenStep(e: Edges, x: Node, m: Node, y: Node)
    requires Reaches(e, x, m) && y in Kids(e, m)
    ensures Reaches(e, x, y)
  {
    ReachesSelf(e, y);
    ReachesAcross(e, x, m, y, y);
  }

  // ----- Adding an edge -----

  /** A path with the new edge is an old path, or passes from an old path to `a` to one from `b`. */
  lemma {:induction false} NewPath(e: Edges, a: Node, b: Node, p: seq<Node>)
    requires Path(With(e, a, b), p)
    ensures Reaches(e, p[0], p[|p| - 1]) || (Reaches(e, p[0], a) && Reaches(e, b, p[|p| - 1]))
    decreases |p|
  {
    var x, y := p[0], p[|p| - 1];
    if |p| == 1 {
      ReachesSelf(e, x);
    } else {
      var q := p[1..];
      assert Path(With(e, a, b), q) by {
        forall i | 0 <= i < |q| - 1 ensures q[i + 1] in Kids(With(e, a, b), q[i]) {
          assert q[i] == p[i + 1] && q[i + 1] == p[i + 2];
        }
      }
      NewPath(e, a, b, q);
      assert p[1] in Kids(With(e, a, b), p[0]);
      FirstStep(e, a, b, x, q[0], y);
    }
  }

  lemma FirstStep(e: Edges, a: Node, b: Node, x: Node, n: Node, y: Node)
    requires n in Kids(With(e, a, b), x)
    requires Reaches(e, n, y) || (Reaches(e, n, a) && Reaches(e, b, y))
    ensures Reaches(e, x, y) || (Reaches(e, x, a) && Reaches(e, b, y))
  {
    if n in Kids(e, x) {
      if Reaches(e, n, y) {
        StepThenReach(e, x, n, y);
      } else {
        StepThenReach(e, x, n, a);
      }
    } else {
      ReachesSelf(e, a);
    }
  }

  lemma NewReach(e: Edges, a: Node, b: Node, x: Node, y: Node)
    requires Reaches(With(e, a, b), x, y)
    ensures Reaches(e, x, y) || (Reaches(e, x, a) && Reaches(e, b, y))
  {
    var p :| PathFrom(With(e, a, b), x, y, p);
    NewPath(e, a, b, p);
  }

  /** An edge whose target does not lead back to its source closes no cycle; any other does. */
  lemma AddKeepsAcyclic(e: Edges, a: Node, b: Node)
    requires Acyclic(e)
    ensures Acyclic(With(e, a, b)) <==> !Reaches(e, b, a)
  {
    var w := With(e, a, b);
    if Reaches(e, b, a) {
      OldReach(e, a, b, b, a);
      assert b in Kids(w, a);
    } else {
      forall x, y | y in Kids(w, x) ensures !Reaches(w, y, x) {
        NoNewCycle(e, a, b, x, y);
        if Reaches(w, y, x) {
          NewReach(e, a, b, y, x);
        }
      }
    }
  }

  lemma OldReach(e: Edges, a: Node, b: Node, x: Node, y: Node)
    requires Reaches(e, x, y)
    ensures Reaches(With(e, a, b), x, y)
  {
    var p :| PathFrom(e, x, y, p);
    assert PathFrom(With(e, a, b), x, y, p);
  }

  lemma NoNewCycle(e: Edges, a: Node, b: Node, x: Node, y: Node)
    requires Acyclic(e) && !Reaches(e, b, a) && y in Kids(With(e, a, b), x)
    ensures !Reaches(e, y, x) && !(Reaches(e, y, a) && Reaches(e, b, x))
  {
    if y in Kids(e, x) && Reaches(e, y, a) && Reaches(e, b, x) {
      ReachesAcross(e, b, x, y, a);
    }
  }

  // ----- Distance from the seeds -----

  /** The nodes at most `n` edges from a seed. */
  ghost function Within(e: Edges, seeds: set<Node>, n: nat): set<Node> {
    if n == 0 then seeds
    else
      var w := Within(e, seeds, n - 1);
      w + (set x, y | x in w && y in Kids(e, x) :: y)
  }

  ghost predicate ShortPath(e: Edges, seeds: set<Node>, n: nat, y: Node, p: seq<Node>) {
    Path(e, p) && p[0] in seeds && p[|p| - 1] == y && |p| <= n + 1
  }

  lemma WithinHasPath(e: Edges, seeds: set<Node>, n: nat, y: Node)
    requires y in Within(e, seeds, n)
    ensures exists p :: ShortPath(e, seeds, n, y, p)
    decreases n
  {
    if n == 0 {
      assert ShortPath(e, seeds, n, y, [y]);
    } else if y in Within(e, seeds, n - 1) {
      WithinHasPath(e, seeds, n - 1, y);
      var p :| ShortPath(e, seeds, n - 1, y, p);
      assert ShortPath(e, seeds, n, y, p);
    } else {
      var x :| x in Within(e, seeds, n - 1) && y in Kids(e, x);
      WithinHasPath(e, seeds, n - 1, x);
      var p :| ShortPath(e, seeds, n - 1, x, p);
      PathConcat(e, p, [y]);
      assert ShortPath(e, seeds, n, y, p + [y]);
    }
  }

  lemma {:induction false} PathIsWithin(e: Edges, seeds: set<Node>, p: seq<Node>)
    requires Path(e, p) && p[0] in seeds
    ensures p[|p| - 1] in Within(e, seeds, |p| - 1)
  {
    if |p| > 1 {
      var q := p[..|p| - 1];
      assert Path(e, q);
      PathIsWithin(e, seeds, q);
      assert q[|q| - 1] == p[|p| - 2] && p[|p| - 1] in Kids(e, p[|p| - 2]);
    }
  }

  lemma {:induction false} WithinGrows(e: Edges, seeds: set<Node>, m: nat, n: nat)
    requires m <= n
    ensures Within(e, seeds, m) <= Within(e, seeds, n)
    decreases n
  {
    if m < n { WithinGrows(e, seeds, m, n - 1); }
  }

  /** `Within` is distance: its members are the ends of paths of at most `n` edges from a seed. */
  lemma WithinIsDistance(e: Edges, seeds: set<Node>, n: nat, y: Node)
    ensures y in Within(e, seeds, n) <==> exists p :: ShortPath(e, seeds, n, y, p)
  {
    if y in Within(e, seeds, n) {
      WithinHasPath(e, seeds, n, y);
    }
    if p :| ShortPath(e, seeds, n, y, p) {
      PathIsWithin(e, seeds, p);
      WithinGrows(e, seeds, |p| - 1, n);
    }
  }

  ghost predicate Reachable(e: Edges, seeds: set<Node>, y: Node) {
    exists n: nat :: y in Within(e, seeds, n)
  }

  /** Reachable from the seeds means: some path from a seed ends there. */
  lemma ReachableIsPath(e: Edges, seeds: set<Node>, y: Node)
    ensures Reachable(e, seeds, y) <==> exists x :: x in seeds && Reaches(e, x, y)
  {
    if Reachable(e, seeds, y) {
      var n: nat :| y in Within(e, seeds, n);
      WithinHasPath(e, seeds, n, y);
      var p :| ShortPath(e, seeds, n, y, p);
      assert PathFrom(e, p[0], y, p);
    }
    if x :| x in seeds && Reaches(e, x, y) {
      var p :| PathFrom(e, x, y, p);
      PathIsWithin(e, seeds, p);
    }
  }

  lemma {:induction false} ClosedContains(e: Edges, s: set<Node>, p: seq<Node>)
    requires Path(e, p) && p[0] in s && forall x | x in s :: Kids(e, x) <= s
    ensures p[|p| - 1] in s
  {
    if |p| > 1 {
      var q := p[..|p| - 1];
      assert Path(e, q);
      ClosedContains(e, s, q);
      assert q[|q| - 1] == p[|p| - 2] && p[|p| - 1] in Kids(e, p[|p| - 2]);
    }
  }
}
