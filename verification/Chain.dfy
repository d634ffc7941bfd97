/** The tree formed by the blocks table through previous hashes: root-to-block chains,
    ancestors, branches and lowest common ancestors. Nothing here depends on the trunk marks. */
module Chain {
  import opened Types

  type Blocks = map<BlockId, Header>

  /** A stored block other than the root hangs one step above a stored block. */
  ghost predicate TreeNode(t: Blocks, root: BlockId, id: BlockId)
    requires id in t
  {
    id != root ==> t[id].preHash in t && t[id].height == t[t[id].preHash].height + 1
  }

  /** Previous hashes form a tree. The last quantifier is only unfolded where TreeNode is named,
      so that following previous hashes is left to the proofs. */
  ghost predicate IsTree(t: Blocks, root: BlockId) {
    && root in t
    && t[root].preHash == ""
    && t[root].height == 0
    && (forall id | id in t :: id != "" && t[id].id == id)
    && (forall id {:trigger TreeNode(t, root, id)} | id in t :: TreeNode(t, root, id))
  }

  /** The ids from the root up to id. */
  ghost function Path(t: Blocks, root: BlockId, id: BlockId): (c: seq<BlockId>)
    requires IsTree(t, root) && id in t
    ensures TreeNode(t, root, id)
    ensures |c| == t[id].height + 1
    ensures c[t[id].height] == id
    decreases t[id].height
  {
    assert TreeNode(t, root, id);
    if id == root then [root]
    else Path(t, root, t[id].preHash) + [id]
  }

  /** a is id or one of its ancestors. */
  ghost predicate OnPath(t: Blocks, root: BlockId, a: BlockId, id: BlockId)
    requires IsTree(t, root) && id in t
  {
    a in t && t[a].height <= t[id].height && Path(t, root, id)[t[a].height] == a
  }

  /** A chain is made of stored blocks at consecutive heights, and each of its prefixes is a chain. */
  lemma {:induction false} PathPrefix(t: Blocks, root: BlockId, id: BlockId, h: nat)
    requires IsTree(t, root) && id in t && h <= t[id].height
    ensures var a := Path(t, root, id)[h];
            a in t && t[a].height == h && Path(t, root, a) == Path(t, root, id)[..h + 1]
    decreases t[id].height
  {
    assert TreeNode(t, root, id);
    if h < t[id].height {
      PathPrefix(t, root, t[id].preHash, h);
    } else {
      assert Path(t, root, id)[..h + 1] == Path(t, root, id);
    }
  }

  lemma PathLinked(t: Blocks, root: BlockId, id: BlockId, h: nat)
    requires IsTree(t, root) && id in t && 0 < h <= t[id].height
    ensures var c := Path(t, root, id);
            c[h] in t && c[h] != root && t[c[h]].preHash == c[h - 1]
  {
    PathPrefix(t, root, id, h);
    PathPrefix(t, root, id, h - 1);
    var a := Path(t, root, id)[h];
    assert Path(t, root, a)[h - 1] == Path(t, root, id)[h - 1];
    assert Path(t, root, a) == Path(t, root, t[a].preHash) + [a];
  }

  /** Chains agree up to any height at which they meet. */
  lemma PathsAgree(t: Blocks, root: BlockId, a: BlockId, b: BlockId, h: nat)
    requires IsTree(t, root) && a in t && b in t
    requires h <= t[a].height && h <= t[b].height
    requires Path(t, root, a)[h] == Path(t, root, b)[h]
    ensures Path(t, root, a)[..h + 1] == Path(t, root, b)[..h + 1]
  {
    PathPrefix(t, root, a, h);
    PathPrefix(t, root, b, h);
  }

  /** t2 stores every block of t with the same previous hash and height. */
  ghost predicate Extends(t: Blocks, t2: Blocks) {
    forall id | id in t :: id in t2 && t2[id].preHash == t[id].preHash && t2[id].height == t[id].height
  }

  /** Chains do not change when blocks are added or trunk marks are rewritten. */
  lemma {:induction false} PathFrame(t: Blocks, t2: Blocks, root: BlockId, id: BlockId)
    requires IsTree(t, root) && IsTree(t2, root) && Extends(t, t2) && id in t
    ensures Path(t2, root, id) == Path(t, root, id)
    decreases t[id].height
  {
    if id != root {
      assert TreeNode(t, root, id);
      PathFrame(t, t2, root, t[id].preHash);
    }
  }

  /** c is an ancestor of both a and b, and every other common ancestor is an ancestor of c. */
  ghost predicate IsLowestCommonAncestor(t: Blocks, root: BlockId, a: BlockId, b: BlockId, c: BlockId)
    requires IsTree(t, root) && a in t && b in t
  {
    && OnPath(t, root, c, a)
    && OnPath(t, root, c, b)
    && forall d | OnPath(t, root, d, a) && OnPath(t, root, d, b) :: OnPath(t, root, d, c)
  }

  lemma LowestCommonAncestorUnique(t: Blocks, root: BlockId, a: BlockId, b: BlockId, c: BlockId, d: BlockId)
    requires IsTree(t, root) && a in t && b in t
    requires IsLowestCommonAncestor(t, root, a, b, c) && IsLowestCommonAncestor(t, root, a, b, d)
    ensures c == d
  {
  }

  /** A common ancestor above which the two chains share nothing is the lowest one. */
  lemma SplitIsLowest(t: Blocks, root: BlockId, a: BlockId, b: BlockId, c: BlockId)
    requires IsTree(t, root) && a in t && b in t
    requires OnPath(t, root, c, a) && OnPath(t, root, c, b)
    requires forall h | t[c].height < h && h <= t[a].height && h <= t[b].height ::
               Path(t, root, a)[h] != Path(t, root, b)[h]
    ensures IsLowestCommonAncestor(t, root, a, b, c)
  {
    forall d | OnPath(t, root, d, a) && OnPath(t, root, d, b)
      ensures OnPath(t, root, d, c)
    {
      PathPrefix(t, root, a, t[c].height);
      assert t[d].height <= t[c].height;
      assert Path(t, root, c)[t[d].height] == Path(t, root, a)[t[d].height];
    }
  }

  /** The ids of the chain of id strictly above height h, tip first. */
  ghost function Branch(t: Blocks, root: BlockId, id: BlockId, h: nat): (s: seq<BlockId>)
    requires IsTree(t, root) && id in t && h <= t[id].height
    ensures |s| == t[id].height - h
    ensures forall i | 0 <= i < |s| :: s[i] == Path(t, root, id)[t[id].height - i]
    ensures forall i | 0 <= i < |s| :: s[i] in t && t[s[i]].height == t[id].height - i
  {
    var c := Path(t, root, id);
    assert forall k | 0 <= k <= t[id].height :: c[k] in t && t[c[k]].height == k by {
      forall k | 0 <= k <= t[id].height ensures c[k] in t && t[c[k]].height == k {
        PathPrefix(t, root, id, k);
      }
    }
    seq(t[id].height - h, i requires 0 <= i < t[id].height - h => c[t[id].height - i])
  }
}
