/** TopSortDFS: depth-first topological sorting with temporary and permanent marks, grouped by
    weakly connected components. */
module TopSort {
  import opened Graph

  /** g with an entry for every target. */
  ghost function Filled(g: TxGraph): TxGraph {
    map n | n in g.Keys + Targets(g) :: if n in g then g[n] else []
  }

  ghost function Targets(g: TxGraph): set<Node> {
    set n, m | n in g && m in g[n] :: m
  }

  lemma FilledClosed(g: TxGraph)
    ensures Closed(Filled(g)) && forall x, y :: Edge(Filled(g), x, y) <==> Edge(g, x, y)
  {
  }

  ghost predicate SameEdges(a: TxGraph, b: TxGraph) {
    forall x, y :: Edge(a, x, y) <==> Edge(b, x, y)
  }

  lemma SamePaths(a: TxGraph, b: TxGraph, p: seq<Node>)
    requires SameEdges(a, b)
    ensures IsPath(a, p) ==> IsPath(b, p)
    ensures IsWeakPath(a, p) ==> IsWeakPath(b, p)
  {
    if IsPath(a, p) {
      forall i: nat | i < |p| - 1
        ensures EdgeAt(b, p, i)
      {
        assert EdgeAt(a, p, i);
      }
    }
    if IsWeakPath(a, p) {
      forall i: nat | i < |p| - 1
        ensures AdjacentAt(b, p, i)
      {
        assert AdjacentAt(a, p, i);
      }
    }
  }

  /** Cycles, orders and connections depend on the edges only. */
  lemma SameShape(a: TxGraph, b: TxGraph)
    requires SameEdges(a, b)
    ensures HasCycle(a) ==> HasCycle(b)
    ensures forall s :: Sorted(a, s) ==> Sorted(b, s)
    ensures forall x, y :: Connected(a, x, y) ==> Connected(b, x, y)
  {
    if HasCycle(a) {
      var p :| IsCycle(a, p);
      SamePaths(a, b, p);
      assert IsCycle(b, p);
    }
    forall x, y | Connected(a, x, y)
      ensures Connected(b, x, y)
    {
      var p :| |p| >= 1 && p[0] == x && p[|p| - 1] == y && IsWeakPath(a, p);
      SamePaths(a, b, p);
    }
  }

  /** It has the nodes and the targets of g, and the same cycles, orders and connections. */
  lemma FilledKeeps(g: TxGraph)
    ensures forall x :: x in Filled(g) <==> x in g || exists n :: Edge(g, n, x)
    ensures HasCycle(Filled(g)) <==> HasCycle(g)
    ensures forall s :: Sorted(Filled(g), s) <==> Sorted(g, s)
    ensures forall x, y :: Connected(Filled(g), x, y) <==> Connected(g, x, y)
  {
    hide Filled, HasCycle, Sorted, Connected, Edge;
    FilledClosed(g);
    FilledNodes(g);
    SameShape(Filled(g), g);
    SameShape(g, Filled(g));
  }

  lemma FilledNodes(g: TxGraph)
    ensures forall x :: x in Filled(g) <==> x in g || exists n :: Edge(g, n, x)
  {
    forall x
      ensures x in Targets(g) <==> exists n :: Edge(g, n, x)
    {
      if x in Targets(g) {
        var n :| n in g && x in g[n];
        assert Edge(g, n, x);
      }
    }
  }

  /** r lists, for every node, the nodes with an edge to it. */
  ghost predicate Reverses(g: TxGraph, r: TxGraph) {
    forall n, m :: Edge(r, m, n) <==> Edge(g, n, m)
  }

  /** Fills in missing nodes and builds the reversed graph. */
  method Prepare(g: TxGraph) returns (full: TxGraph, reverse: TxGraph)
    ensures full == Filled(g)
    ensures Reverses(g, reverse)
  {
    full, reverse := g, map[];
    var rest := g.Keys;
    while rest != {}
      invariant rest <= g.Keys
      invariant Preparing(g, full, reverse, g.Keys - rest)
      decreases rest
    {
      var n :| n in rest;
      full, reverse := AddEdges(g, n, full, reverse, g.Keys - rest);
      rest := rest - {n};
      assert g.Keys - rest == (g.Keys - (rest + {n})) + {n};
    }
    assert g.Keys - rest == g.Keys;
    PreparedIsFilled(g, full, reverse);
  }

  /** The sources in seen have been handled. */
  ghost predicate Preparing(g: TxGraph, full: TxGraph, reverse: TxGraph, seen: set<Node>) {
    && (forall x :: x in full <==> x in g || exists n :: n in seen && Edge(g, n, x))
    && (forall x | x in full :: full[x] == if x in g then g[x] else [])
    && (forall n, m :: Edge(reverse, m, n) <==> n in seen && Edge(g, n, m))
  }

  lemma PreparedIsFilled(g: TxGraph, full: TxGraph, reverse: TxGraph)
    requires Preparing(g, full, reverse, g.Keys)
    ensures full == Filled(g) && Reverses(g, reverse)
  {
  }

  method AddEdges(g: TxGraph, n: Node, full0: TxGraph, reverse0: TxGraph, ghost seen: set<Node>)
    returns (full: TxGraph, reverse: TxGraph)
    requires n in g && n !in seen && Preparing(g, full0, reverse0, seen)
    ensures Preparing(g, full, reverse, seen + {n})
  {
    full, reverse := full0, reverse0;
    for i := 0 to |g[n]|
      invariant forall x :: x in full <==> x in full0 || x in g[n][..i]
      invariant forall x | x in full :: full[x] == if x in g then g[x] else []
      invariant forall k, m :: Edge(reverse, m, k) <==> Edge(reverse0, m, k) || (k == n && m in g[n][..i])
    {
      var m := g[n][i];
      assert g[n][..i + 1] == g[n][..i] + [m];
      if m !in full {
        full := full[m := []];
      }
      ghost var before := reverse;
      if m !in reverse {
        reverse := reverse[m := []];
      }
      reverse := reverse[m := reverse[m] + [n]];
      assert forall k, x :: Edge(reverse, x, k) <==> Edge(before, x, k) || (k == n && x == m);
    }
    assert g[n][..|g[n]|] == g[n];
    assert forall x :: x in g[n] <==> Edge(g, n, x);
  }

  class Sorter {
    const g: TxGraph
    const reverse: TxGraph
    const L: array<Node>
    var i: nat
    var temp: set<Node>
    var perm: set<Node>
    var cycleFound: bool
    var marked: set<Node>
    var subG: seq<Node>
    ghost var done: seq<Node>

    constructor (g: TxGraph, reverse: TxGraph)
      requires Closed(g) && Reverses(g, reverse)
      ensures this.g == g && this.reverse == reverse && fresh(L)
      ensures Ok([]) && perm == {} && done == [] && !cycleFound
      ensures marked == {} && subG == []
    {
      this.g := g;
      this.reverse := reverse;
      L := new Node[|g|];
      i := |g|;
      temp, perm, cycleFound, marked, subG, done := {}, {}, false, {}, [], [];
    }

    /** The temporary marks are the nodes of the current path, and done, the filled part of L, is a
        sorted list of the permanently marked ones. */
    ghost predicate Ok(stack: seq<Node>)
      reads this, L
    {
      && L.Length == |g|
      && i + |done| == |g|
      && L[i..] == done
      && Marks(g, temp, perm, stack, done)
    }

    /** Visits n from the end of the path stack. */
    method Visit(n: Node, ghost stack: seq<Node>)
      requires Ok(stack) && n in g && !cycleFound
      requires stack != [] ==> Edge(g, stack[|stack| - 1], n)
      modifies this`i, this`temp, this`perm, this`cycleFound, this`done, L
      ensures cycleFound ==> HasCycle(g)
      ensures !cycleFound ==> Ok(stack) && temp == old(temp) && n in perm && old(perm) <= perm
      ensures !cycleFound ==> EndsWith(done, old(done))
      ensures !cycleFound ==> FoundFrom(g, n, perm - old(perm))
      decreases g.Keys - temp - perm
    {
      hide Connected;
      if n in temp {
        assert ListsAt(stack, temp, n);
        BackEdge(g, stack, n);
        cycleFound := true;
        return;
      }
      if n in perm {
        return;
      }
      EnterNode(g, temp, perm, stack, done, n);
      assert ListsAt(stack, temp, n);
      temp := temp + {n};
      for k := 0 to |g[n]|
        invariant !cycleFound && Ok(stack + [n]) && temp == old(temp) + {n}
        invariant old(perm) <= perm && forall j | 0 <= j < k :: g[n][j] in perm
        invariant EndsWith(done, old(done))
        invariant FoundFrom(g, n, perm - old(perm))
      {
        var m := g[n][k];
        assert Edge(g, n, m);
        ghost var before, listed := perm, done;
        MeasureShrinks(g.Keys, old(temp), old(perm), perm, n);
        Visit(m, stack + [n]);
        if cycleFound {
          return;
        }
        NewlyConnected(g, n, m, before, perm, old(perm));
        EndsWithTrans(done, listed, old(done));
      }
      FinishNode(g, temp, perm, stack, done, n);
      FoundItself(g, n, perm, old(perm));
      EndsWithCons(done, old(done), n);
      temp := temp - {n};
      perm := perm + {n};
      Push(n);
    }

    /** Marks everything connected to n that is not marked yet, and appends it to subG. */
    method Dfs(n: Node) returns (ghost found: seq<Node>)
      requires Closed(g) && Reverses(g, reverse) && n in g && marked <= g.Keys
      modifies this`marked, this`subG
      ensures subG == old(subG) + found
      ensures Explored(g, n, old(marked), marked, found) && n in marked
      decreases g.Keys - marked
    {
      found := [];
      if n in marked {
        ExploredNothing(g, n, marked);
        return;
      }
      ExploreStart(g, n, marked);
      marked := marked + {n};
      for k := 0 to |g[n]|
        invariant subG == old(subG) + found
        invariant Exploring(g, n, old(marked), marked, found)
        invariant forall j | 0 <= j < k :: g[n][j] in marked
      {
        assert Edge(g, n, g[n][k]);
        MarkShrinks(g.Keys, old(marked), marked, n);
        ghost var before := marked;
        ghost var more := Dfs(g[n][k]);
        ExploreMore(g, n, g[n][k], old(marked), before, marked, found, more);
        found := found + more;
      }
      var sources := if n in reverse then reverse[n] else [];
      for k := 0 to |sources|
        invariant subG == old(subG) + found
        invariant Exploring(g, n, old(marked), marked, found)
        invariant forall j | 0 <= j < |g[n]| :: g[n][j] in marked
        invariant forall j | 0 <= j < k :: sources[j] in marked
      {
        assert Edge(reverse, n, sources[k]);
        assert Edge(g, sources[k], n);
        MarkShrinks(g.Keys, old(marked), marked, n);
        ghost var before := marked;
        ghost var more := Dfs(sources[k]);
        ExploreMore(g, n, sources[k], old(marked), before, marked, found, more);
        found := found + more;
      }
      forall y | Adjacent(g, n, y)
        ensures y in marked
      {
        if Edge(g, y, n) {
          assert Edge(reverse, n, y);
        }
      }
      ExploreFinish(g, n, old(marked), marked, found);
      subG := subG + [n];
      found := found + [n];
    }

    /** Fills L backwards. */
    method Push(n: Node)
      requires 0 < i <= L.Length && L[i..] == done
      modifies this`i, this`done, L
      ensures i == old(i) - 1 && done == [n] + old(done) && L[i..] == done
    {
      i := i - 1;
      ghost var rest := L[i + 1..];
      L[i] := n;
      assert L[i..] == [n] + rest;
      done := [n] + done;
    }
  }

  ghost predicate Marks(g: TxGraph, temp: set<Node>, perm: set<Node>, stack: seq<Node>, done: seq<Node>) {
    && Closed(g)
    && temp <= g.Keys && perm <= g.Keys && temp !! perm
    && Lists(stack, temp)
    && IsPath(g, stack)
    && Sorted(g, done)
    && |done| == |perm|
    && Lists(done, perm)
  }

  ghost predicate ListsAt(s: seq<Node>, m: set<Node>, x: Node) {
    x in s <==> x in m
  }

  /** s lists the elements of m; unfolded only where ListsAt is named. */
  ghost predicate Lists(s: seq<Node>, m: set<Node>) {
    forall x {:trigger ListsAt(s, m, x)} :: ListsAt(s, m, x)
  }

  ghost predicate EndsWith(s: seq<Node>, t: seq<Node>) {
    |t| <= |s| && s[|s| - |t|..] == t
  }

  lemma EndsWithTrans(a: seq<Node>, b: seq<Node>, c: seq<Node>)
    requires EndsWith(a, b) && EndsWith(b, c)
    ensures EndsWith(a, c)
  {
  }

  lemma EndsWithCons(a: seq<Node>, b: seq<Node>, n: Node)
    requires EndsWith(a, b)
    ensures EndsWith([n] + a, b)
  {
  }

  lemma FoundItself(g: TxGraph, n: Node, perm: set<Node>, start: set<Node>)
    requires FoundFrom(g, n, perm - start)
    ensures FoundFrom(g, n, perm + {n} - start)
  {
    ConnectedRefl(g, n);
  }

  ghost predicate FoundFrom(g: TxGraph, n: Node, s: set<Node>) {
    forall x {:trigger Connected(g, n, x)} | x in s :: Connected(g, n, x)
  }

  lemma EnterNode(g: TxGraph, temp: set<Node>, perm: set<Node>, stack: seq<Node>, done: seq<Node>, n: Node)
    requires Marks(g, temp, perm, stack, done) && n in g && n !in temp && n !in perm
    requires stack != [] ==> Edge(g, stack[|stack| - 1], n)
    ensures Marks(g, temp + {n}, perm, stack + [n], done)
  {
    PathExtends(g, stack, n);
    forall x
      ensures ListsAt(stack + [n], temp + {n}, x)
    {
      assert ListsAt(stack, temp, x);
    }
  }

  lemma MeasureShrinks(keys: set<Node>, temp: set<Node>, perm: set<Node>, perm2: set<Node>, n: Node)
    requires n in keys && n !in temp && n !in perm && perm <= perm2
    ensures keys - (temp + {n}) - perm2 < keys - temp - perm
  {
    assert n in keys - temp - perm && n !in keys - (temp + {n}) - perm2;
  }

  /** Nodes found from a successor m of n are connected to n. */
  lemma NewlyConnected(g: TxGraph, n: Node, m: Node, before: set<Node>, after: set<Node>, start: set<Node>)
    requires Edge(g, n, m) && FoundFrom(g, m, after - before) && FoundFrom(g, n, before - start)
    ensures FoundFrom(g, n, after - start)
  {
    ConnectedRefl(g, n);
    ConnectedStep(g, n, n, m);
    forall x | x in after - start
      ensures Connected(g, n, x)
    {
      if x !in before {
        ConnectedTrans(g, n, m, x);
      }
    }
  }

  /** A node whose successors are all listed goes in front of the list. */
  lemma FinishNode(g: TxGraph, temp: set<Node>, perm: set<Node>, stack: seq<Node>, done: seq<Node>, n: Node)
    requires Marks(g, temp, perm, stack + [n], done) && n !in stack && n in g && n !in perm
    requires forall j | 0 <= j < |g[n]| :: g[n][j] in perm
    ensures |done| < |g|
    ensures Marks(g, temp - {n}, perm + {n}, stack, [n] + done)
  {
    assert ListsAt(stack + [n], temp, n) && n in stack + [n];
    assert ListsAt(done, perm, n);
    assert perm < g.Keys;
    ProperSubsetSize(perm, g.Keys);
    forall x
      ensures ListsAt(stack, temp - {n}, x) && ListsAt([n] + done, perm + {n}, x)
    {
      assert ListsAt(stack + [n], temp, x) && ListsAt(done, perm, x);
    }
    PathShrinks(g, stack, n);
    forall m | Edge(g, n, m)
      ensures m in done
    {
      assert ListsAt(done, perm, m);
    }
    SortedCons(g, done, n);
  }

  lemma PathShrinks(g: TxGraph, stack: seq<Node>, n: Node)
    requires IsPath(g, stack + [n])
    ensures IsPath(g, stack)
  {
    forall i: nat | i < |stack| - 1
      ensures EdgeAt(g, stack, i)
    {
      assert EdgeAt(g, stack + [n], i);
    }
  }

  lemma SortedCons(g: TxGraph, s: seq<Node>, n: Node)
    requires Sorted(g, s) && n !in s && forall m | Edge(g, n, m) :: m in s
    ensures Sorted(g, [n] + s)
  {
    var all := [n] + s;
    forall i: nat, m | i < |all| && Edge(g, all[i], m)
      ensures Later(all, i, m)
    {
      if i == 0 {
        var j :| 0 <= j < |s| && s[j] == m;
        assert all[j + 1] == m;
      } else {
        assert all[i] == s[i - 1];
        assert Later(s, i - 1, m);
        var j :| i - 1 < j < |s| && s[j] == m;
        assert all[j + 1] == m;
      }
    }
    forall i, j | 0 <= i < j < |all|
      ensures all[i] != all[j]
    {
      assert all[j] == s[j - 1];
      if i == 0 {
        assert s[j - 1] in s;
      }
    }
  }

  // ---------------------------------------------------------------- exploring components

  /** All neighbours of the nodes in s are in m. */
  ghost predicate NeighboursIn(g: TxGraph, s: set<Node>, m: set<Node>) {
    forall x, y {:trigger Adjacent(g, x, y)} | x in s && Adjacent(g, x, y) :: y in m
  }

  /** A finished exploration from n: found lists the newly marked nodes, which are connected to n
      and have only marked neighbours. */
  ghost predicate Explored(g: TxGraph, n: Node, start: set<Node>, now: set<Node>, found: seq<Node>) {
    && start <= now <= g.Keys
    && NoDuplicates(found) && Lists(found, now - start)
    && FoundFrom(g, n, now - start)
    && NeighboursIn(g, now - start, now)
  }

  /** An exploration from n under way: n itself is marked but not listed yet. */
  ghost predicate Exploring(g: TxGraph, n: Node, start: set<Node>, now: set<Node>, found: seq<Node>) {
    && start <= now <= g.Keys && n in now && n !in start
    && NoDuplicates(found) && Lists(found, now - start - {n})
    && FoundFrom(g, n, now - start)
    && NeighboursIn(g, now - start - {n}, now)
  }

  lemma MarkShrinks(keys: set<Node>, start: set<Node>, now: set<Node>, n: Node)
    requires n in keys && n !in start && n in now && start <= now
    ensures keys - now < keys - start
  {
  }

  lemma ExploredNothing(g: TxGraph, n: Node, m: set<Node>)
    requires m <= g.Keys
    ensures Explored(g, n, m, m, [])
  {
  }

  lemma ExploreStart(g: TxGraph, n: Node, start: set<Node>)
    requires n in g && n !in start && start <= g.Keys
    ensures Exploring(g, n, start, start + {n}, [])
  {
    ConnectedRefl(g, n);
  }

  lemma ExploreMore(g: TxGraph, n: Node, m: Node, start: set<Node>, before: set<Node>, now: set<Node>,
                    found: seq<Node>, more: seq<Node>)
    requires Exploring(g, n, start, before, found) && Explored(g, m, before, now, more) && Adjacent(g, n, m)
    ensures Exploring(g, n, start, now, found + more)
  {
    ConnectedRefl(g, n);
    ConnectedStep(g, n, n, m);
    forall x | x in now - start
      ensures Connected(g, n, x)
    {
      if x !in before {
        ConnectedTrans(g, n, m, x);
      }
    }
    forall x
      ensures ListsAt(found + more, now - start - {n}, x)
    {
      assert ListsAt(found, before - start - {n}, x) && ListsAt(more, now - before, x);
    }
    NoDuplicatesConcat(found, more, before - start - {n}, now - before);
  }

  lemma NoDuplicatesConcat(a: seq<Node>, b: seq<Node>, x: set<Node>, y: set<Node>)
    requires NoDuplicates(a) && NoDuplicates(b) && Lists(a, x) && Lists(b, y) && x !! y
    ensures NoDuplicates(a + b)
  {
    var s := a + b;
    forall i, j | 0 <= i < j < |s|
      ensures s[i] != s[j]
    {
      if i < |a| <= j {
        assert ListsAt(a, x, s[i]) && ListsAt(b, y, s[j]);
        assert s[i] in a && s[j] in b;
      }
    }
  }

  lemma ExploreFinish(g: TxGraph, n: Node, start: set<Node>, now: set<Node>, found: seq<Node>)
    requires Exploring(g, n, start, now, found) && forall y | Adjacent(g, n, y) :: y in now
    ensures Explored(g, n, start, now, found + [n])
  {
    forall x
      ensures ListsAt(found + [n], now - start, x) && ListsAt([n], {n}, x)
    {
      assert ListsAt(found, now - start - {n}, x);
    }
    NoDuplicatesConcat(found, [n], now - start - {n}, {n});
  }

  lemma ProperSubsetSize<T>(a: set<T>, b: set<T>)
    requires a < b
    ensures |a| < |b|
  {
    assert b == a + (b - a);
    assert b - a != {};
  }

  // ---------------------------------------------------------------- splitting into components

  /** The nodes of the first n groups. */
  ghost function CoveredBy(subs: seq<seq<Node>>, n: nat): set<Node>
    requires n <= |subs|
  {
    if n == 0 then {} else CoveredBy(subs, n - 1) + Elems(subs[n - 1])
  }

  /** One group: a weakly connected component, listed once, apart from the groups before it. */
  ghost predicate IsGroup(g: TxGraph, subs: seq<seq<Node>>, k: nat)
    requires k < |subs|
  {
    NoDuplicates(subs[k]) && IsComponent(g, Elems(subs[k])) && Elems(subs[k]) !! CoveredBy(subs, k)
  }

  /** The first n lists are groups. */
  ghost predicate GroupsTo(g: TxGraph, subs: seq<seq<Node>>, n: nat)
    requires n <= |subs|
  {
    n == 0 || (GroupsTo(g, subs, n - 1) && IsGroup(g, subs, n - 1))
  }

  ghost predicate Groups(g: TxGraph, subs: seq<seq<Node>>) {
    GroupsTo(g, subs, |subs|)
  }

  lemma {:induction false} GroupAt(g: TxGraph, subs: seq<seq<Node>>, n: nat, k: nat)
    requires k < n <= |subs| && GroupsTo(g, subs, n)
    ensures IsGroup(g, subs, k)
  {
    if k < n - 1 {
      GroupAt(g, subs, n - 1, k);
    }
  }

  lemma {:induction false} CoveredPrefix(subs: seq<seq<Node>>, s: seq<Node>, n: nat)
    requires n <= |subs|
    ensures CoveredBy(subs + [s], n) == CoveredBy(subs, n)
  {
    if n > 0 {
      CoveredPrefix(subs, s, n - 1);
    }
  }

  /** What an exploration from a closed set finds is a component, and closes the set again. */
  lemma ExploredComponent(g: TxGraph, n: Node, start: set<Node>, now: set<Node>, found: seq<Node>)
    requires NeighbourClosed(g, start) && Explored(g, n, start, now, found) && n in now && n !in start
    ensures NeighbourClosed(g, now) && Elems(found) == now - start && IsComponent(g, Elems(found))
  {
    forall x, y | x in now && Adjacent(g, x, y)
      ensures y in now
    {
    }
    NewlyMarked(g, start, now, n);
    forall x
      ensures x in Elems(found) <==> x in now - start
    {
      assert ListsAt(found, now - start, x);
    }
    assert Elems(found) == now - start;
  }

  lemma GroupsExtend(g: TxGraph, subs: seq<seq<Node>>, s: seq<Node>)
    requires Groups(g, subs) && NoDuplicates(s) && IsComponent(g, Elems(s)) && Elems(s) !! CoveredBy(subs, |subs|)
    ensures Groups(g, subs + [s]) && CoveredBy(subs + [s], |subs| + 1) == CoveredBy(subs, |subs|) + Elems(s)
  {
    CoveredPrefix(subs, s, |subs|);
    GroupNew(g, subs, s);
    GroupsKept(g, subs, s, |subs|);
  }

  lemma GroupNew(g: TxGraph, subs: seq<seq<Node>>, s: seq<Node>)
    requires NoDuplicates(s) && IsComponent(g, Elems(s)) && Elems(s) !! CoveredBy(subs, |subs|)
    ensures IsGroup(g, subs + [s], |subs|)
  {
    CoveredPrefix(subs, s, |subs|);
    assert (subs + [s])[|subs|] == s;
  }

  lemma {:induction false} GroupsKept(g: TxGraph, subs: seq<seq<Node>>, s: seq<Node>, n: nat)
    requires n <= |subs| && GroupsTo(g, subs, n)
    ensures GroupsTo(g, subs + [s], n)
  {
    if n > 0 {
      GroupsKept(g, subs, s, n - 1);
      CoveredPrefix(subs, s, n - 1);
      assert (subs + [s])[n - 1] == subs[n - 1];
    }
  }

  /** What an exploration adds to the groups is a group. */
  lemma AddGroup(g: TxGraph, subs: seq<seq<Node>>, n: Node, start: set<Node>, now: set<Node>, found: seq<Node>)
    requires Groups(g, subs) && start == CoveredBy(subs, |subs|) && NeighbourClosed(g, start)
    requires Explored(g, n, start, now, found) && n in now && n !in start
    ensures Groups(g, subs + [found]) && now == CoveredBy(subs + [found], |subs| + 1) && NeighbourClosed(g, now)
  {
    ExploredComponent(g, n, start, now, found);
    GroupsExtend(g, subs, found);
  }

  /** Splits the nodes into weakly connected components. */
  method SplitGroups(s: Sorter) returns (subs: seq<seq<Node>>)
    requires Closed(s.g) && Reverses(s.g, s.reverse) && s.marked == {} && s.subG == []
    modifies s`marked, s`subG
    ensures Groups(s.g, subs) && CoveredBy(subs, |subs|) == s.g.Keys
  {
    subs := [];
    var rest := s.g.Keys;
    while rest != {}
      invariant rest <= s.g.Keys && s.g.Keys - rest <= s.marked <= s.g.Keys
      invariant s.subG == [] && Groups(s.g, subs) && s.marked == CoveredBy(subs, |subs|)
                && NeighbourClosed(s.g, s.marked)
      decreases rest
    {
      var n :| n in rest;
      rest := rest - {n};
      if n in s.marked {
        continue;
      }
      ghost var start := s.marked;
      ghost var found := s.Dfs(n);
      assert s.subG == found;
      AddGroup(s.g, subs, n, start, s.marked, found);
      subs := subs + [s.subG];
      s.subG := [];
    }
  }

  // ---------------------------------------------------------------- sorting group by group

  /** done holds the nodes of the first n groups, group after group, the first one last. */
  ghost predicate Segments(subs: seq<seq<Node>>, done: seq<Node>, n: nat)
    requires n <= |subs|
  {
    if n == 0 then done == []
    else
      var c := |subs[n - 1]|;
      c <= |done| && Elems(done[..c]) == Elems(subs[n - 1]) && Segments(subs, done[c..], n - 1)
  }

  lemma {:induction false} ElemsSize(s: seq<Node>)
    requires NoDuplicates(s)
    ensures |Elems(s)| == |s|
    decreases |s|
  {
    if s != [] {
      var front, x := s[..|s| - 1], s[|s| - 1];
      ElemsSize(front);
      assert Elems(s) == Elems(front) + {x};
      assert x !in front;
    }
  }

  /** The nodes in front of an old suffix are the ones added since. */
  lemma FrontElems(done: seq<Node>, listed: seq<Node>, perm: set<Node>, before: set<Node>)
    requires NoDuplicates(done) && EndsWith(done, listed) && Lists(done, perm) && Lists(listed, before)
    ensures Elems(done[..|done| - |listed|]) == perm - before
  {
    var c := |done| - |listed|;
    forall x
      ensures x in Elems(done[..c]) <==> x in perm - before
    {
      assert ListsAt(done, perm, x) && ListsAt(listed, before, x);
      assert done == done[..c] + done[c..];
    }
  }

  /** Sorting one whole group puts its segment in front. */
  lemma AddSegment(g: TxGraph, subs: seq<seq<Node>>, n: nat, listed: seq<Node>, done: seq<Node>, perm: set<Node>)
    requires n < |subs| && IsGroup(g, subs, n) && Segments(subs, listed, n)
    requires NoDuplicates(done) && Lists(done, perm) && Lists(listed, CoveredBy(subs, n))
    requires EndsWith(done, listed) && perm == CoveredBy(subs, n + 1)
    ensures Segments(subs, done, n + 1)
  {
    hide IsComponent, Elems, NoDuplicates, Lists, CoveredBy;
    var c := |done| - |listed|;
    FrontElems(done, listed, perm, CoveredBy(subs, n));
    FrontOnce(done, c);
    ElemsSize(done[..c]);
    ElemsSize(subs[n]);
    NextCovered(subs, n);
    assert perm - CoveredBy(subs, n) == Elems(subs[n]);
    SegmentInFront(subs, done, n);
  }

  lemma FrontOnce(s: seq<Node>, c: nat)
    requires NoDuplicates(s) && c <= |s|
    ensures NoDuplicates(s[..c])
  {
  }

  lemma NextCovered(subs: seq<seq<Node>>, n: nat)
    requires n < |subs|
    ensures CoveredBy(subs, n + 1) == CoveredBy(subs, n) + Elems(subs[n])
  {
  }

  lemma SegmentInFront(subs: seq<seq<Node>>, done: seq<Node>, n: nat)
    requires n < |subs| && |subs[n]| <= |done| && Elems(done[..|subs[n]|]) == Elems(subs[n])
    requires Segments(subs, done[|subs[n]|..], n)
    ensures Segments(subs, done, n + 1)
  {
    hide Elems;
  }

  /** Visits all nodes of group n. */
  method VisitGroup(s: Sorter, subs: seq<seq<Node>>, n: nat)
    requires n < |subs| && IsGroup(s.g, subs, n)
    requires s.Ok([]) && !s.cycleFound && s.perm == CoveredBy(subs, n)
    modifies s`i, s`temp, s`perm, s`cycleFound, s`done, s.L
    ensures s.cycleFound ==> HasCycle(s.g)
    ensures !s.cycleFound ==> s.Ok([]) && s.perm == CoveredBy(subs, n + 1) && EndsWith(s.done, old(s.done))
  {
    var group := subs[n];
    for j := 0 to |group|
      invariant s.Ok([]) && !s.cycleFound
      invariant CoveredBy(subs, n) <= s.perm <= CoveredBy(subs, n + 1)
      invariant forall k | 0 <= k < j :: group[k] in s.perm
      invariant EndsWith(s.done, old(s.done))
    {
      assert group[j] in Elems(group);
      if group[j] in s.perm {
        continue;
      }
      ghost var before, listed := s.perm, s.done;
      s.Visit(group[j], []);
      if s.cycleFound {
        return;
      }
      FoundInGroup(s.g, subs, n, group[j], before, s.perm);
      EndsWithTrans(s.done, listed, old(s.done));
    }
    assert s.perm == CoveredBy(subs, n + 1);
  }

  /** The first n groups have been sorted. */
  ghost predicate Placed(s: Sorter, subs: seq<seq<Node>>, n: nat)
    requires n <= |subs|
    reads s, s.L
  {
    s.Ok([]) && !s.cycleFound && s.perm == CoveredBy(subs, n) && Segments(subs, s.done, n)
  }

  /** Visits group n and puts its segment in front. */
  method SortGroup(s: Sorter, subs: seq<seq<Node>>, n: nat)
    requires n < |subs| && Groups(s.g, subs) && Placed(s, subs, n)
    modifies s`i, s`temp, s`perm, s`cycleFound, s`done, s.L
    ensures s.cycleFound ==> HasCycle(s.g)
    ensures !s.cycleFound ==> Placed(s, subs, n + 1)
  {
    GroupAt(s.g, subs, |subs|, n);
    VisitGroup(s, subs, n);
    if !s.cycleFound {
      AddSegment(s.g, subs, n, old(s.done), s.done, s.perm);
    }
  }

  lemma FoundInGroup(g: TxGraph, subs: seq<seq<Node>>, n: nat, x: Node, before: set<Node>, after: set<Node>)
    requires n < |subs| && IsGroup(g, subs, n) && x in Elems(subs[n])
    requires FoundFrom(g, x, after - before) && before <= CoveredBy(subs, n + 1)
    ensures after <= CoveredBy(subs, n + 1)
  {
    forall y | y in after
      ensures y in CoveredBy(subs, n + 1)
    {
      if y !in before {
        ComponentIsAll(g, Elems(subs[n]), x, y);
      }
    }
  }

  // ---------------------------------------------------------------- the whole sort

  /** Cutting the order into consecutive runs of the given sizes gives weak components. */
  ghost predicate RunsAreComponents(g: TxGraph, order: seq<Node>, sizes: seq<nat>) {
    if sizes == [] then order == []
    else
      && sizes[0] <= |order|
      && IsComponent(g, Elems(order[..sizes[0]]))
      && RunsAreComponents(g, order[sizes[0]..], sizes[1..])
  }

  /** Filled from the back, sizes holds the sizes of the first n groups. */
  ghost predicate SizesFrom(sizes: seq<nat>, subs: seq<seq<Node>>, n: nat)
    requires |sizes| == |subs|
  {
    forall j | 0 <= j < n <= |subs| :: sizes[|subs| - 1 - j] == |subs[j]|
  }

  lemma SizesNone(sizes: seq<nat>, subs: seq<seq<Node>>)
    requires |sizes| == |subs|
    ensures SizesFrom(sizes, subs, 0)
  {
  }

  lemma SizesStep(sizes: seq<nat>, subs: seq<seq<Node>>, n: nat)
    requires |sizes| == |subs| && n < |subs| && SizesFrom(sizes, subs, n)
    ensures SizesFrom(sizes[|subs| - n - 1 := |subs[n]|], subs, n + 1)
  {
  }

  lemma {:induction false} SegmentsAreRuns(g: TxGraph, subs: seq<seq<Node>>, sizes: seq<nat>, order: seq<Node>, n: nat)
    requires |sizes| == |subs| && n <= |subs| && Groups(g, subs) && Segments(subs, order, n)
    requires SizesFrom(sizes, subs, |subs|)
    ensures RunsAreComponents(g, order, sizes[|subs| - n..])
  {
    if n > 0 {
      GroupAt(g, subs, |subs|, n - 1);
      var c := |subs[n - 1]|;
      SegmentsAreRuns(g, subs, sizes, order[c..], n - 1);
      assert sizes[|subs| - 1 - (n - 1)] == c;
      assert sizes[|subs| - n..][1..] == sizes[|subs| - n + 1..];
    }
  }

  /** Topological sort of a dependency graph. The order is empty when there is a cycle. */
  method TopSortDFS(graph: TxGraph) returns (order: seq<Node>, cyclic: bool, childDAGSize: seq<nat>)
    ensures cyclic <==> HasCycle(Filled(graph))
    ensures cyclic ==> order == []
    ensures !cyclic ==> IsTopologicalOrder(Filled(graph), order)
    ensures !cyclic ==> RunsAreComponents(Filled(graph), order, childDAGSize)
  {
    hide Filled;
    var g, reverse := Prepare(graph);
    FilledClosed(graph);
    var s := new Sorter(g, reverse);
    var subs := SplitGroups(s);
    childDAGSize := SortGroups(s, subs);
    if s.cycleFound {
      return [], true, childDAGSize;
    }
    order, cyclic := s.L[..], false;
    WholeOrder(g, order, s.done, s.perm);
    SegmentsAreRuns(g, subs, childDAGSize, order, |subs|);
    assert childDAGSize[0..] == childDAGSize;
  }

  /** Sorts group after group, filling the list of sizes from the back like the order itself. */
  method SortGroups(s: Sorter, subs: seq<seq<Node>>) returns (sizes: seq<nat>)
    requires Groups(s.g, subs) && !s.cycleFound && Placed(s, subs, 0)
    modifies s`i, s`temp, s`perm, s`cycleFound, s`done, s.L
    ensures s.cycleFound ==> HasCycle(s.g)
    ensures !s.cycleFound ==> Placed(s, subs, |subs|)
    ensures !s.cycleFound ==> |sizes| == |subs| && SizesFrom(sizes, subs, |subs|)
  {
    hide *;
    sizes := seq(|subs|, _ => 0);
    SizesNone(sizes, subs);
    for n := 0 to |subs|
      invariant |sizes| == |subs|
      invariant !s.cycleFound && Placed(s, subs, n)
      invariant SizesFrom(sizes, subs, n)
    {
      SizesStep(sizes, subs, n);
      sizes := sizes[|subs| - n - 1 := |subs[n]|];
      SortGroup(s, subs, n);
      if s.cycleFound {
        return;
      }
    }
  }

  lemma WholeOrder(g: TxGraph, order: seq<Node>, done: seq<Node>, perm: set<Node>)
    requires Closed(g) && Sorted(g, done) && Lists(done, perm) && perm == g.Keys && order == done
    ensures IsTopologicalOrder(g, order) && !HasCycle(g)
  {
    forall x
      ensures x in order <==> x in g
    {
      assert ListsAt(done, perm, x);
    }
    OrderedIsAcyclic(g, order);
  }
}
