/** Dependency graphs: paths, cycles, topological orders and weakly connected components. */
module Graph {

  /** A transaction id. */
  datatype Node = Node(txid: string)

  type TxGraph = map<Node, seq<Node>>

  /** Every target of an edge is itself a node. */
  ghost predicate Closed(g: TxGraph) {
    forall n, m {:trigger Edge(g, n, m)} | Edge(g, n, m) :: m in g
  }

  predicate Edge(g: TxGraph, x: Node, y: Node) {
    x in g && y in g[x]
  }

  predicate Adjacent(g: TxGraph, x: Node, y: Node) {
    Edge(g, x, y) || Edge(g, y, x)
  }

  predicate EdgeAt(g: TxGraph, p: seq<Node>, i: nat)
    requires i < |p| - 1
  {
    Edge(g, p[i], p[i + 1])
  }

  /** Consecutive nodes of p are joined by edges. */
  ghost predicate IsPath(g: TxGraph, p: seq<Node>) {
    forall i: nat {:trigger EdgeAt(g, p, i)} | i < |p| - 1 :: EdgeAt(g, p, i)
  }

  ghost predicate IsCycle(g: TxGraph, p: seq<Node>) {
    |p| >= 2 && p[0] == p[|p| - 1] && IsPath(g, p)
  }

  ghost predicate HasCycle(g: TxGraph) {
    exists p :: IsCycle(g, p)
  }

  ghost predicate NoDuplicates(s: seq<Node>) {
    forall i, j | 0 <= i < j < |s| :: s[i] != s[j]
  }

  ghost function Elems(s: seq<Node>): set<Node> {
    set x | x in s
  }

  /** m is listed after position i. */
  ghost predicate Later(s: seq<Node>, i: nat, m: Node) {
    exists j :: i < j < |s| && s[j] == m
  }

  /** s lists its nodes once, and all successors of each come later in it. */
  ghost predicate Sorted(g: TxGraph, s: seq<Node>) {
    && NoDuplicates(s)
    && forall i: nat, m {:trigger Later(s, i, m)} | i < |s| && Edge(g, s[i], m) :: Later(s, i, m)
  }

  /** Every node once, every edge's source before its target. */
  ghost predicate IsTopologicalOrder(g: TxGraph, s: seq<Node>) {
    Sorted(g, s) && forall x :: x in s <==> x in g
  }

  /** In a sorted list an edge goes forward. */
  lemma SortedForward(g: TxGraph, s: seq<Node>, i: nat, j: nat)
    requires Sorted(g, s) && i < |s| && j < |s| && Edge(g, s[i], s[j])
    ensures i < j
  {
    assert Later(s, i, s[j]);
  }

  /** Along a path the positions in a topological order increase. */
  lemma {:induction false} PathForward(g: TxGraph, s: seq<Node>, p: seq<Node>) returns (i: nat, j: nat)
    requires Sorted(g, s) && IsPath(g, p) && |p| >= 2 && forall k | 0 <= k < |p| :: p[k] in s
    ensures i < j < |s| && s[i] == p[0] && s[j] == p[|p| - 1]
    decreases |p|
  {
    var n := |p| - 1;
    assert EdgeAt(g, p, n - 1);
    j :| 0 <= j < |s| && s[j] == p[n];
    if n == 1 {
      i :| 0 <= i < |s| && s[i] == p[0];
      SortedForward(g, s, i, j);
    } else {
      var front := p[..n];
      forall k: nat | k < |front| - 1
        ensures EdgeAt(g, front, k)
      {
        assert EdgeAt(g, p, k);
      }
      var m;
      i, m := PathForward(g, s, front);
      SortedForward(g, s, m, j);
    }
  }

  /** A graph with a topological order has no cycle. */
  lemma OrderedIsAcyclic(g: TxGraph, s: seq<Node>)
    requires Closed(g) && IsTopologicalOrder(g, s)
    ensures !HasCycle(g)
  {
    forall p | IsCycle(g, p)
      ensures false
    {
      forall k | 0 <= k < |p|
        ensures p[k] in s
      {
        if k < |p| - 1 {
          assert EdgeAt(g, p, k);
        } else {
          assert EdgeAt(g, p, k - 1);
        }
      }
      var i, j := PathForward(g, s, p);
    }
  }

  /** A path that an edge leads back into closes a cycle. */
  lemma BackEdge(g: TxGraph, stack: seq<Node>, n: Node)
    requires IsPath(g, stack) && n in stack && Edge(g, stack[|stack| - 1], n)
    ensures HasCycle(g)
  {
    var k :| 0 <= k < |stack| && stack[k] == n;
    var p := stack[k..] + [n];
    forall i: nat | i < |p| - 1
      ensures EdgeAt(g, p, i)
    {
      if i < |p| - 2 {
        assert EdgeAt(g, stack, k + i);
      }
    }
    assert IsCycle(g, p);
  }

  lemma PathExtends(g: TxGraph, stack: seq<Node>, n: Node)
    requires IsPath(g, stack) && (stack != [] ==> Edge(g, stack[|stack| - 1], n))
    ensures IsPath(g, stack + [n])
  {
    var p := stack + [n];
    forall i: nat | i < |p| - 1
      ensures EdgeAt(g, p, i)
    {
      if i < |stack| - 1 {
        assert EdgeAt(g, stack, i);
      }
    }
  }

  // ---------------------------------------------------------------- weak components

  predicate AdjacentAt(g: TxGraph, p: seq<Node>, i: nat)
    requires i < |p| - 1
  {
    Adjacent(g, p[i], p[i + 1])
  }

  ghost predicate IsWeakPath(g: TxGraph, p: seq<Node>) {
    forall i: nat {:trigger AdjacentAt(g, p, i)} | i < |p| - 1 :: AdjacentAt(g, p, i)
  }

  /** x and y are joined by edges taken in either direction. */
  ghost predicate Connected(g: TxGraph, x: Node, y: Node) {
    exists p :: |p| >= 1 && p[0] == x && p[|p| - 1] == y && IsWeakPath(g, p)
  }

  lemma ConnectedRefl(g: TxGraph, x: Node)
    ensures Connected(g, x, x)
  {
    assert IsWeakPath(g, [x]);
  }

  lemma ConnectedStep(g: TxGraph, x: Node, y: Node, z: Node)
    requires Connected(g, x, y) && Adjacent(g, y, z)
    ensures Connected(g, x, z)
  {
    var p :| |p| >= 1 && p[0] == x && p[|p| - 1] == y && IsWeakPath(g, p);
    var q := p + [z];
    forall i: nat | i < |q| - 1
      ensures AdjacentAt(g, q, i)
    {
      if i < |p| - 1 {
        assert AdjacentAt(g, p, i);
      }
    }
    assert IsWeakPath(g, q);
  }

  lemma {:induction false} ConnectedTrans(g: TxGraph, x: Node, y: Node, z: Node)
    requires Connected(g, x, y) && Connected(g, y, z)
    ensures Connected(g, x, z)
  {
    var p :| |p| >= 1 && p[0] == y && p[|p| - 1] == z && IsWeakPath(g, p);
    ConnectedAlong(g, x, p, |p| - 1);
  }

  lemma {:induction false} ConnectedAlong(g: TxGraph, x: Node, p: seq<Node>, n: nat)
    requires IsWeakPath(g, p) && n < |p| && Connected(g, x, p[0])
    ensures Connected(g, x, p[n])
  {
    if n > 0 {
      ConnectedAlong(g, x, p, n - 1);
      assert AdjacentAt(g, p, n - 1);
      ConnectedStep(g, x, p[n - 1], p[n]);
    }
  }

  lemma {:induction false} ConnectedSym(g: TxGraph, x: Node, y: Node)
    requires Connected(g, x, y)
    ensures Connected(g, y, x)
  {
    var p :| |p| >= 1 && p[0] == x && p[|p| - 1] == y && IsWeakPath(g, p);
    ConnectedRefl(g, y);
    ConnectedBack(g, y, p, 0);
  }

  lemma {:induction false} ConnectedBack(g: TxGraph, y: Node, p: seq<Node>, n: nat)
    requires IsWeakPath(g, p) && n < |p| && p[|p| - 1] == y
    ensures Connected(g, y, p[n])
    decreases |p| - n
  {
    if n == |p| - 1 {
      ConnectedRefl(g, y);
    } else {
      ConnectedBack(g, y, p, n + 1);
      assert AdjacentAt(g, p, n);
      ConnectedStep(g, y, p[n + 1], p[n]);
    }
  }

  /** s contains all neighbours of its nodes. */
  ghost predicate NeighbourClosed(g: TxGraph, s: set<Node>) {
    forall x, y {:trigger Adjacent(g, x, y)} | x in s && Adjacent(g, x, y) :: y in s
  }

  /** A weakly connected component. */
  ghost predicate IsComponent(g: TxGraph, s: set<Node>) {
    && s != {}
    && s <= g.Keys
    && NeighbourClosed(g, s)
    && forall x, y {:trigger Connected(g, x, y)} | x in s && y in s :: Connected(g, x, y)
  }

  lemma {:induction false} ClosedContains(g: TxGraph, s: set<Node>, p: seq<Node>, n: nat)
    requires NeighbourClosed(g, s) && IsWeakPath(g, p) && n < |p| && p[0] in s
    ensures p[n] in s
  {
    if n > 0 {
      ClosedContains(g, s, p, n - 1);
      assert AdjacentAt(g, p, n - 1);
    }
  }

  lemma ConnectedStays(g: TxGraph, s: set<Node>, x: Node, y: Node)
    requires NeighbourClosed(g, s) && x in s && Connected(g, x, y)
    ensures y in s
  {
    var p :| |p| >= 1 && p[0] == x && p[|p| - 1] == y && IsWeakPath(g, p);
    ClosedContains(g, s, p, |p| - 1);
  }

  /** A component is everything its nodes are connected to. */
  lemma ComponentIsAll(g: TxGraph, s: set<Node>, x: Node, y: Node)
    requires IsComponent(g, s) && x in s
    ensures y in s <==> Connected(g, x, y)
  {
    if Connected(g, x, y) {
      ConnectedStays(g, s, x, y);
    }
  }

  /** What one exploration from n adds to a closed set is the component of n. */
  lemma NewlyMarked(g: TxGraph, before: set<Node>, after: set<Node>, n: Node)
    requires NeighbourClosed(g, before) && NeighbourClosed(g, after) && before <= after <= g.Keys
    requires n in after && n !in before
    requires forall x | x in after - before :: Connected(g, n, x)
    ensures IsComponent(g, after - before)
  {
    var s := after - before;
    assert n in s;
    forall x, y | x in s && Adjacent(g, x, y)
      ensures y in s
    {
      assert Adjacent(g, y, x);
    }
    forall x, y | x in s && y in s
      ensures Connected(g, x, y)
    {
      ConnectedSym(g, n, x);
      ConnectedTrans(g, x, n, y);
    }
  }
}
