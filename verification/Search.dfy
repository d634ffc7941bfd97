/** The two-sided walk that finds the path between two blocks: what it has collected, and why the
    first block it sees twice is the lowest common ancestor. */
module Search {
  import opened Types
  import opened Chain
  import opened Tables

  /** The first n ids of the chain of id, from id down. */
  ghost function Down(t: Blocks, root: BlockId, id: BlockId, n: nat): (s: seq<BlockId>)
    requires IsTree(t, root) && id in t && n <= t[id].height + 1
    ensures |s| == n
    ensures forall i | 0 <= i < n :: s[i] in t && t[s[i]].height == t[id].height - i
    ensures forall i | 0 <= i < n :: s[i] == Path(t, root, id)[t[id].height - i]
  {
    var c := Path(t, root, id);
    assert forall k | 0 <= k <= t[id].height :: c[k] in t && t[c[k]].height == k by {
      forall k | 0 <= k <= t[id].height ensures c[k] in t && t[c[k]].height == k {
        PathPrefix(t, root, id, k);
      }
    }
    seq(n, i requires 0 <= i < n => c[t[id].height - i])
  }

  ghost function Bodies(d: Tables, ids: seq<BlockId>): (bs: seq<Block>)
    requires TxsStored(d) && forall i | 0 <= i < |ids| :: ids[i] in d.blocks
    ensures |bs| == |ids|
  {
    seq(|ids|, i requires 0 <= i < |ids| => BlockOf(d, ids[i]))
  }

  /** The walk has seen the first na blocks of the chain of a and the first nb of the chain of b;
      nothing was seen twice. */
  ghost predicate Seen(t: Blocks, root: BlockId, a: BlockId, b: BlockId, na: nat, nb: nat, visited: set<BlockId>)
    requires IsTree(t, root) && a in t && b in t
  {
    && 1 <= na <= t[a].height + 1
    && 1 <= nb <= t[b].height + 1
    && (forall x :: x in visited <==> x in Down(t, root, a, na) || x in Down(t, root, b, nb))
    && (forall x | x in Down(t, root, a, na) :: x !in Down(t, root, b, nb))
  }

  /** The height of the na-th block from a down. */
  ghost function CursorHeight(t: Blocks, a: BlockId, na: nat): nat
    requires a in t && 1 <= na <= t[a].height + 1
  {
    t[a].height + 1 - na
  }

  lemma SeenInit(t: Blocks, root: BlockId, a: BlockId, b: BlockId)
    requires IsTree(t, root) && a in t && b in t && a != b
    ensures Seen(t, root, a, b, 1, 1, {a, b})
    ensures Down(t, root, a, 1) == [a] && Down(t, root, b, 1) == [b]
  {
    assert Down(t, root, a, 1) == [a];
    assert Down(t, root, b, 1) == [b];
  }

  /** It is a's turn: a side whose cursor is more than its share behind has not moved yet. */
  ghost predicate Turn(ha: nat, hb: nat, na: nat, nb: nat) {
    && (ha > hb + 1 ==> nb == 1)
    && (hb > ha ==> na == 1)
  }

  /** x, the next block of a's chain, is the last one seen on b's side. */
  ghost predicate Found(t: Blocks, root: BlockId, a: BlockId, b: BlockId, na: nat, nb: nat, x: BlockId)
    requires IsTree(t, root) && a in t && b in t
  {
    && IsLowestCommonAncestor(t, root, a, b, x)
    && na == t[a].height - t[x].height
    && nb == t[b].height - t[x].height + 1
  }

  lemma RootAtZero(t: Blocks, root: BlockId, a: BlockId)
    requires IsTree(t, root) && a in t
    ensures Path(t, root, a)[0] == root
  {
    PathPrefix(t, root, a, 0);
    var r := Path(t, root, a)[0];
    assert TreeNode(t, root, r);
  }

  /** The next block of a's chain. */
  lemma NextDown(t: Blocks, root: BlockId, a: BlockId, b: BlockId, na: nat, nb: nat, visited: set<BlockId>)
    requires IsTree(t, root) && a in t && b in t && Seen(t, root, a, b, na, nb, visited)
    requires CursorHeight(t, a, na) >= CursorHeight(t, b, nb)
    ensures var h := CursorHeight(t, a, na);
            && h > 0
            && Down(t, root, a, na)[na - 1] == Path(t, root, a)[h]
            && t[Down(t, root, a, na)[na - 1]].preHash == Path(t, root, a)[h - 1]
  {
    hide IsTree, TreeNode;
    var h := CursorHeight(t, a, na);
    var da, db := Down(t, root, a, na), Down(t, root, b, nb);
    assert da[na - 1] in da && db[nb - 1] in db;
    RootAtZero(t, root, a);
    RootAtZero(t, root, b);
    if h == 0 {
      assert false;
    }
    PathLinked(t, root, a, h);
  }

  /** A block already seen is the last one seen on the other side. */
  lemma SeenIsLast(t: Blocks, root: BlockId, a: BlockId, b: BlockId, na: nat, nb: nat, visited: set<BlockId>)
    requires IsTree(t, root) && a in t && b in t && Seen(t, root, a, b, na, nb, visited)
    requires CursorHeight(t, a, na) >= CursorHeight(t, b, nb)
    requires Turn(CursorHeight(t, a, na), CursorHeight(t, b, nb), na, nb)
    requires CursorHeight(t, a, na) > 0 && Path(t, root, a)[CursorHeight(t, a, na) - 1] in visited
    ensures var x := Path(t, root, a)[CursorHeight(t, a, na) - 1];
            && x == Path(t, root, b)[CursorHeight(t, b, nb)]
            && CursorHeight(t, a, na) == CursorHeight(t, b, nb) + 1
  {
    hide Path, IsTree, Down;
    var h := CursorHeight(t, a, na);
    var x := Path(t, root, a)[h - 1];
    PathPrefix(t, root, a, h - 1);
    var da, db := Down(t, root, a, na), Down(t, root, b, nb);
    assert x !in da;
    var k :| 0 <= k < |db| && db[k] == x;
    assert t[b].height - k == h - 1;
  }

  lemma SeenIsFound(t: Blocks, root: BlockId, a: BlockId, b: BlockId, na: nat, nb: nat, visited: set<BlockId>)
    requires IsTree(t, root) && a in t && b in t && Seen(t, root, a, b, na, nb, visited)
    requires CursorHeight(t, a, na) == CursorHeight(t, b, nb) + 1
    requires Path(t, root, a)[CursorHeight(t, b, nb)] == Path(t, root, b)[CursorHeight(t, b, nb)]
    ensures Found(t, root, a, b, na, nb, Path(t, root, b)[CursorHeight(t, b, nb)])
  {
    var h := CursorHeight(t, b, nb);
    var x := Path(t, root, b)[h];
    PathPrefix(t, root, b, h);
    var da, db := Down(t, root, a, na), Down(t, root, b, nb);
    forall k | h < k && k <= t[a].height && k <= t[b].height
      ensures Path(t, root, a)[k] != Path(t, root, b)[k]
    {
      assert da[t[a].height - k] in da && db[t[b].height - k] in db;
    }
    SplitIsLowest(t, root, a, b, x);
  }

  lemma DownExtends(t: Blocks, root: BlockId, a: BlockId, n: nat)
    requires IsTree(t, root) && a in t && n <= t[a].height
    ensures Down(t, root, a, n + 1) == Down(t, root, a, n) + [Path(t, root, a)[t[a].height - n]]
  {
  }

  lemma SeenExtends(t: Blocks, root: BlockId, a: BlockId, b: BlockId, na: nat, nb: nat, visited: set<BlockId>,
                    x: BlockId)
    requires IsTree(t, root) && a in t && b in t && Seen(t, root, a, b, na, nb, visited)
    requires na <= t[a].height && x !in visited
    requires Down(t, root, a, na + 1) == Down(t, root, a, na) + [x]
    ensures Seen(t, root, a, b, na + 1, nb, visited + {x})
  {
  }

  /** A side at least as high as the other moves one block down. If that block was seen before, it
      is the lowest common ancestor and the blocks seen are the two branches; otherwise the walk
      goes on with the other side. */
  lemma HalfStep(t: Blocks, root: BlockId, a: BlockId, b: BlockId, na: nat, nb: nat, visited: set<BlockId>)
    requires IsTree(t, root) && a in t && b in t && Seen(t, root, a, b, na, nb, visited)
    requires Turn(CursorHeight(t, a, na), CursorHeight(t, b, nb), na, nb)
    requires CursorHeight(t, a, na) >= CursorHeight(t, b, nb)
    ensures var x := t[Down(t, root, a, na)[na - 1]].preHash;
            && x in t && x != "" && t[x].height + 1 == CursorHeight(t, a, na)
            && na < t[a].height + 1
            && if x in visited then Found(t, root, a, b, na, nb, x)
               else Down(t, root, a, na + 1) == Down(t, root, a, na) + [x]
                    && Seen(t, root, a, b, na + 1, nb, visited + {x})
                    && Turn(CursorHeight(t, b, nb), t[x].height, nb, na + 1)
  {
    NextDown(t, root, a, b, na, nb, visited);
    var h := CursorHeight(t, a, na);
    var x := Path(t, root, a)[h - 1];
    PathPrefix(t, root, a, h - 1);
    if x in visited {
      SeenIsLast(t, root, a, b, na, nb, visited);
      SeenIsFound(t, root, a, b, na, nb, visited);
    } else {
      DownExtends(t, root, a, na);
      SeenExtends(t, root, a, b, na, nb, visited, x);
    }
  }
}
