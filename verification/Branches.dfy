/** The branch table (the childless blocks with their heights), truncation of the ledger, and
    runs of ConfirmBlock and Truncate from the empty ledger. */
module Branches {
  import opened Types
  import opened Chain
  import opened Tables

  ghost predicate HasChild(t: Blocks, root: BlockId, id: BlockId) {
    exists c :: c in t && c != root && t[c].preHash == id
  }

  /** Every branch entry is a stored block with its height. */
  ghost predicate BranchesSound(d: Tables) {
    forall id | id in d.branches :: id in d.blocks && d.branches[id] == d.blocks[id].height
  }

  /** The branch table holds exactly the childless blocks. */
  ghost predicate LeafInv(d: Tables) {
    && BranchesSound(d)
    && forall id {:trigger id in d.branches} {:trigger HasChild(d.blocks, d.root, id)} | id in d.blocks ::
         id in d.branches <==> !HasChild(d.blocks, d.root, id)
  }

  lemma AfterRootLeaves(b: Block)
    ensures LeafInv(AfterRoot(b))
  {
  }

  lemma AfterBlockBranchesSound(d: Tables, b: Block)
    requires TrunkInv(d) && BranchesSound(d) && b.preHash in d.blocks && b.id !in d.blocks
    ensures BranchesSound(AfterBlock(d, b))
  {
  }

  /** Adding a block gives a child to its previous block and to no other. */
  lemma ChildrenAfterAdd(t: Blocks, t2: Blocks, root: BlockId, h: Header, id: BlockId)
    requires IsTree(t, root) && Extends(t, t2)
    requires t2.Keys == t.Keys + {h.id} && t2[h.id] == h && h.id !in t
    requires h.preHash in t && id in t2
    ensures HasChild(t2, root, id) <==> id == h.preHash || (id in t && HasChild(t, root, id))
  {
    if id == h.preHash {
      assert h.id in t2 && h.id != root && t2[h.id].preHash == id;
    }
    if id in t && HasChild(t, root, id) {
      var c :| c in t && c != root && t[c].preHash == id;
      assert c in t2 && t2[c].preHash == id;
    }
    if HasChild(t2, root, id) && id != h.preHash {
      var c :| c in t2 && c != root && t2[c].preHash == id;
      assert TreeNode(t, root, c);
      assert c in t && t[c].preHash == id;
    }
  }

  /** A confirmed block takes the place of its previous block among the childless ones. */
  lemma AfterBlockLeaves(d: Tables, b: Block)
    requires TrunkInv(d) && LeafInv(d) && b.preHash in d.blocks && b.id != "" && b.id !in d.blocks
    ensures LeafInv(AfterBlock(d, b))
  {
    hide MarkedFor, SwitchesTrunk, HasChild;
    var d2 := AfterBlock(d, b);
    AfterBlockBranchesSound(d, b);
    AfterBlockTrunk(d, b);
    forall id | id in d2.blocks
      ensures id in d2.branches <==> !HasChild(d2.blocks, d2.root, id)
    {
      ChildrenAfterAdd(d.blocks, d2.blocks, d.root, d2.blocks[b.id], id);
    }
  }

  /** Every block has a childless block on or above it. */
  lemma {:induction false} LeafAbove(d: Tables, id: BlockId) returns (leaf: BlockId)
    requires TrunkInv(d) && id in d.blocks
    ensures leaf in d.blocks && !HasChild(d.blocks, d.root, leaf) && OnPath(d.blocks, d.root, id, leaf)
    decreases d.trunkHeight - d.blocks[id].height
  {
    if HasChild(d.blocks, d.root, id) {
      var c :| c in d.blocks && c != d.root && d.blocks[c].preHash == id;
      assert TreeNode(d.blocks, d.root, c);
      assert d.blocks[c].height <= d.trunkHeight;
      leaf := LeafAbove(d, c);
      PathPrefix(d.blocks, d.root, leaf, d.blocks[c].height);
      assert Path(d.blocks, d.root, c) == Path(d.blocks, d.root, id) + [c];
      assert Path(d.blocks, d.root, leaf)[d.blocks[id].height] == Path(d.blocks, d.root, c)[d.blocks[id].height];
    } else {
      leaf := id;
    }
  }

  // ---------------------------------------------------------------- truncation

  /** The branch tips that truncation to target starts from. */
  ghost predicate IsHigherTip(d: Tables, target: BlockId, tip: BlockId)
    requires target in d.blocks
  {
    tip in d.branches && tip != target && d.branches[tip] > d.blocks[target].height
  }

  /** Some branch tip reaches block id from above. */
  ghost predicate Reached(d: Tables, target: BlockId, id: BlockId)
    requires IsTree(d.blocks, d.root) && BranchesSound(d) && target in d.blocks
  {
    exists tip :: IsHigherTip(d, target, tip) && OnPath(d.blocks, d.root, id, tip)
  }

  ghost predicate Removed(d: Tables, target: BlockId, id: BlockId)
    requires IsTree(d.blocks, d.root) && BranchesSound(d) && target in d.blocks
  {
    id in d.blocks && d.blocks[id].height > d.blocks[target].height && Reached(d, target, id)
  }

  /** The tables after truncation to target: on every chain of a higher branch tip the blocks
      above the target's height go, with their height entries. */
  ghost function AfterTruncate(d: Tables, target: BlockId): Tables
    requires IsTree(d.blocks, d.root) && BranchesSound(d) && target in d.blocks
  {
    var kept := map tip | tip in d.branches && !IsHigherTip(d, target, tip) :: d.branches[tip];
    d.(blocks := map id | id in d.blocks && !Removed(d, target, id) :: d.blocks[id],
       heights := map h | h in d.heights
                          && !(exists id :: Removed(d, target, id) && d.blocks[id].inTrunk && d.blocks[id].height == h)
                      :: d.heights[h],
       branches := if exists tip :: IsHigherTip(d, target, tip) then kept[target := d.blocks[target].height] else kept,
       tip := target,
       trunkHeight := d.blocks[target].height)
  }

  /** Every stored block above the target's height is reached by a branch tip. */
  ghost predicate Covered(d: Tables, target: BlockId)
    requires IsTree(d.blocks, d.root) && BranchesSound(d) && target in d.blocks
  {
    forall id {:trigger Reached(d, target, id)} | id in d.blocks && d.blocks[id].height > d.blocks[target].height ::
      Reached(d, target, id)
  }

  lemma LeavesCover(d: Tables, target: BlockId)
    requires TrunkInv(d) && LeafInv(d) && target in d.blocks
    ensures Covered(d, target)
  {
    forall id | id in d.blocks && d.blocks[id].height > d.blocks[target].height
      ensures Reached(d, target, id)
    {
      var leaf := LeafAbove(d, id);
      assert IsHigherTip(d, target, leaf);
    }
  }

  /** Removing blocks above a height leaves a tree with the same chains. */
  lemma PruneTree(t: Blocks, t2: Blocks, root: BlockId, h: nat)
    requires IsTree(t, root)
    requires forall id | id in t2 :: id in t && t2[id] == t[id]
    requires forall id | id in t && t[id].height <= h :: id in t2
    requires forall id | id in t2 :: t[id].height <= h
    ensures IsTree(t2, root)
    ensures forall id | id in t2 :: Path(t2, root, id) == Path(t, root, id)
  {
    forall id | id in t2
      ensures TreeNode(t2, root, id)
    {
      assert TreeNode(t, root, id);
    }
    forall id | id in t2
      ensures Path(t2, root, id) == Path(t, root, id)
    {
      PathFrame(t2, t, root, id);
    }
  }

  /** Truncation is complete: when every higher block is reached from the branch table, exactly the
      blocks and height entries up to the target's height stay. */
  lemma TruncateComplete(d: Tables, target: BlockId)
    requires TrunkInv(d) && BranchesSound(d) && target in d.blocks && d.blocks[target].inTrunk && Covered(d, target)
    ensures var h := d.blocks[target].height; var d2 := AfterTruncate(d, target);
            && Pruned(d.blocks, d2.blocks, h)
            && d2.heights == (map k | k in d.heights && k <= h :: d.heights[k])
            && (forall k: nat :: k in d2.heights <==> k <= h)
            && d2.tip == target && d2.trunkHeight == h
  {
    hide BranchesSound;
    hide Path, OnPath;
    var h := d.blocks[target].height;
    var d2 := AfterTruncate(d, target);
    var c := Path(d.blocks, d.root, d.tip);
    forall k | k in d.heights
      ensures k in d2.heights <==> k <= h
    {
      PathPrefix(d.blocks, d.root, d.tip, k);
      assert d.blocks[c[k]].inTrunk;
      if k > h {
        assert Removed(d, target, c[k]);
      }
    }
  }

  ghost predicate Pruned(t: Blocks, t2: Blocks, h: nat) {
    t2 == map id | id in t && t[id].height <= h :: t[id]
  }

  lemma MarkedPrefix(t: Blocks, t2: Blocks, tip: BlockId, target: BlockId, c: seq<BlockId>, c2: seq<BlockId>)
    requires target in t && Pruned(t, t2, t[target].height) && tip in t && t[target].height <= t[tip].height
    requires |c| == t[tip].height + 1 && c2 == c[..t[target].height + 1] && c2[t[target].height] == target
    requires c[t[tip].height] == tip
    requires MarkedFor(t, tip, c)
    ensures MarkedFor(t2, target, c2)
  {
  }

  /** The marks of a trunk prefix are those of the whole trunk, cut at its height. */
  lemma PrunedMarks(t: Blocks, t2: Blocks, root: BlockId, tip: BlockId, target: BlockId)
    requires IsTree(t, root) && tip in t && Marked(t, root, tip) && target in t && t[target].inTrunk
    requires Pruned(t, t2, t[target].height)
    ensures IsTree(t2, root) && Marked(t2, root, target)
    ensures Path(t2, root, target) == Path(t, root, tip)[..t[target].height + 1]
  {
    var h := t[target].height;
    PruneTree(t, t2, root, h);
    PathPrefix(t, root, tip, h);
    var c, c2 := Path(t, root, tip), Path(t2, root, target);
    MarkedPrefix(t, t2, tip, target, c, c2);
  }

  /** Truncation keeps the trunk invariant exactly for a trunk target that leaves nothing higher. */
  lemma TruncateTrunkInv(d: Tables, target: BlockId)
    requires TrunkInv(d) && BranchesSound(d) && target in d.blocks
    ensures TrunkInv(AfterTruncate(d, target)) <==> d.blocks[target].inTrunk && Covered(d, target)
  {
    hide TreeNode, Path;
    var h := d.blocks[target].height;
    var d2 := AfterTruncate(d, target);
    if d.blocks[target].inTrunk && Covered(d, target) {
      TruncateComplete(d, target);
      PrunedMarks(d.blocks, d2.blocks, d.root, d.tip, target);
    } else if TrunkInv(d2) {
      assert d2.blocks[target].inTrunk;
      forall id | id in d.blocks && d.blocks[id].height > h
        ensures Reached(d, target, id)
      {
        assert id !in d2.blocks;
      }
    }
  }

  lemma TruncateBranchesSound(d: Tables, target: BlockId)
    requires IsTree(d.blocks, d.root) && BranchesSound(d) && target in d.blocks
    ensures BranchesSound(AfterTruncate(d, target))
  {
  }

  /** Pruning takes the children of the blocks at the cut and no others. */
  lemma ChildrenAfterPrune(t: Blocks, t2: Blocks, root: BlockId, h: nat, id: BlockId)
    requires IsTree(t, root) && Pruned(t, t2, h) && id in t
    ensures HasChild(t2, root, id) <==> HasChild(t, root, id) && t[id].height < h
  {
    if HasChild(t, root, id) && t[id].height < h {
      var c :| c in t && c != root && t[c].preHash == id;
      assert TreeNode(t, root, c);
      assert c in t2 && t2[c].preHash == id;
    }
    if HasChild(t2, root, id) {
      var c :| c in t2 && c != root && t2[c].preHash == id;
      assert TreeNode(t, root, c);
      assert c in t && t[c].preHash == id;
    }
  }

  lemma TruncatedBlock(d: Tables, target: BlockId, id: BlockId)
    requires TrunkInv(d) && LeafInv(d) && target in d.blocks && d.blocks[target].inTrunk
    requires id in d.blocks && d.blocks[id].height <= d.blocks[target].height
    ensures var d2 := AfterTruncate(d, target); var h := d.blocks[target].height;
            && id in d2.blocks
            && (HasChild(d2.blocks, d2.root, id) <==> HasChild(d.blocks, d.root, id) && d.blocks[id].height < h)
            && (id in d2.branches <==> id == target || !HasChild(d.blocks, d.root, id))
  {
    hide HasChild, MarkedFor;
    var d2 := AfterTruncate(d, target);
    assert Pruned(d.blocks, d2.blocks, d.blocks[target].height) by {
      LeavesCover(d, target);
      TruncateComplete(d, target);
    }
    ChildrenAfterPrune(d.blocks, d2.blocks, d.root, d.blocks[target].height, id);
    TargetListed(d, target);
  }

  /** After truncation the branch table is again the set of childless blocks exactly when no other
      block at the target's height lost a child. */
  lemma TruncateLeaves(d: Tables, target: BlockId)
    requires TrunkInv(d) && LeafInv(d) && target in d.blocks && d.blocks[target].inTrunk
    ensures LeafInv(AfterTruncate(d, target)) <==>
              forall id | id in d.blocks && d.blocks[id].height == d.blocks[target].height && id != target ::
                !HasChild(d.blocks, d.root, id)
  {
    var d2 := AfterTruncate(d, target);
    var h := d.blocks[target].height;
    TruncateBranchesSound(d, target);
    assert Pruned(d.blocks, d2.blocks, h) by {
      LeavesCover(d, target);
      TruncateComplete(d, target);
    }
    forall id | id in d.blocks && d.blocks[id].height <= h
      ensures (id in d2.branches <==> !HasChild(d2.blocks, d2.root, id))
         <==> (d.blocks[id].height < h || id == target || !HasChild(d.blocks, d.root, id))
    {
      TruncatedBlock(d, target, id);
    }
    LeavesEquivalence(d, d2, target, h);
  }

  lemma LeavesEquivalence(d: Tables, d2: Tables, target: BlockId, h: nat)
    requires Pruned(d.blocks, d2.blocks, h) && BranchesSound(d2)
    requires forall id {:trigger HasChild(d2.blocks, d2.root, id)}
               {:trigger HasChild(d.blocks, d.root, id)} {:trigger id in d2.branches}
               | id in d.blocks && d.blocks[id].height <= h ::
                 ((id in d2.branches <==> !HasChild(d2.blocks, d2.root, id))
                  <==> (d.blocks[id].height < h || id == target || !HasChild(d.blocks, d.root, id)))
    ensures LeafInv(d2) <==>
              forall id | id in d.blocks && d.blocks[id].height == h && id != target :: !HasChild(d.blocks, d.root, id)
  {
  }

  lemma TargetListed(d: Tables, target: BlockId)
    requires TrunkInv(d) && LeafInv(d) && target in d.blocks
    ensures target in AfterTruncate(d, target).branches
  {
    var leaf := LeafAbove(d, target);
    if leaf != target {
      assert IsHigherTip(d, target, leaf);
    }
  }

  /** A second truncation can leave a block above the new tip: this is why Covered is needed.
      The first one takes the children of side, which is not in the branch table afterwards. */
  lemma TruncateTwiceLeavesOrphan(d: Tables, t1: BlockId, t2: BlockId, side: BlockId)
    requires TrunkInv(d) && LeafInv(d) && t1 in d.blocks && t2 in d.blocks
    requires d.blocks[t1].inTrunk && d.blocks[t2].inTrunk && d.blocks[t2].height < d.blocks[t1].height
    requires side in d.blocks && side != t1 && d.blocks[side].height == d.blocks[t1].height
    requires HasChild(d.blocks, d.root, side)
    ensures var d1 := AfterTruncate(d, t1);
            && TrunkInv(d1) && BranchesSound(d1) && t2 in d1.blocks && d1.blocks[t2].inTrunk && !Covered(d1, t2)
            && side in AfterTruncate(d1, t2).blocks
            && AfterTruncate(d1, t2).blocks[side].height > AfterTruncate(d1, t2).trunkHeight
  {
    var d1 := AfterTruncate(d, t1);
    assert TrunkInv(d1) by {
      LeavesCover(d, t1);
      TruncateTrunkInv(d, t1);
    }
    TruncatedBlock(d, t1, side);
    TruncatedBlock(d, t1, t2);
    TruncateBranchesSound(d, t1);
    NotReachedAtTop(d1, t2, side);
  }

  lemma NotReachedAtTop(d: Tables, target: BlockId, id: BlockId)
    requires TrunkInv(d) && BranchesSound(d) && target in d.blocks
    requires id in d.blocks && d.blocks[id].height == d.trunkHeight && id !in d.branches
    ensures !Reached(d, target, id)
  {
  }

  // ---------------------------------------------------------------- runs

  datatype Op = Confirm(block: Block, isRoot: bool) | Truncate(target: BlockId)

  /** One call. A refused block leaves the tables as they are. What a call does is defined for kept
      tables; others would be stuck, but RunKeepsTrunk shows that no run reaches them. */
  ghost predicate Step(d: Tables, op: Op, d2: Tables) {
    if Kept(d) then
      match op
      case Confirm(b, isRoot) =>
        && Incoming(d, b)
        && d2 == (if Accepts(d, b, isRoot) then AfterConfirm(d, b, isRoot) else d)
      case Truncate(target) =>
        && d != EMPTY
        && target in d.blocks && d.blocks[target].inTrunk && Covered(d, target)
        && d2 == AfterTruncate(d, target)
    else d2 == d
  }

  /** A run from the empty ledger. Truncations go to trunk blocks and leave nothing higher. */
  ghost predicate Run(ds: seq<Tables>, ops: seq<Op>) {
    && |ds| == |ops| + 1
    && ds[0] == EMPTY
    && forall i | 0 <= i < |ops| :: Step(ds[i], ops[i], ds[i + 1])
  }

  lemma ConfirmKeeps(d: Tables, b: Block, isRoot: bool)
    requires Valid(d) && BranchesSound(d) && Incoming(d, b) && Accepts(d, b, isRoot)
    ensures var d2 := AfterConfirm(d, b, isRoot);
            && TrunkInv(d2) && TxsStored(d2) && BranchesSound(d2)
            && (d == EMPTY || LeafInv(d) ==> LeafInv(d2))
  {
    AfterConfirmValid(d, b, isRoot);
    if isRoot {
      AfterRootLeaves(b);
    } else {
      AfterBlockBranchesSound(d, b);
      if LeafInv(d) {
        AfterBlockLeaves(d, b);
      }
    }
  }

  lemma TruncateKeeps(d: Tables, target: BlockId)
    requires TrunkInv(d) && TxsStored(d) && BranchesSound(d)
    requires target in d.blocks && d.blocks[target].inTrunk && Covered(d, target)
    ensures TrunkInv(AfterTruncate(d, target)) && TxsStored(AfterTruncate(d, target))
    ensures BranchesSound(AfterTruncate(d, target))
  {
    TruncateTrunkInv(d, target);
    TruncateBranchesSound(d, target);
  }

  /** What every call keeps. */
  ghost predicate Kept(d: Tables) {
    Valid(d) && BranchesSound(d)
  }

  lemma StepKeeps(d: Tables, op: Op, d2: Tables)
    requires Kept(d) && Step(d, op, d2)
    ensures Kept(d2)
    ensures op.Confirm? && (d == EMPTY || LeafInv(d)) ==> d2 == EMPTY || LeafInv(d2)
  {
    match op
    case Confirm(b, isRoot) =>
      if Accepts(d, b, isRoot) {
        ConfirmKeeps(d, b, isRoot);
      }
    case Truncate(target) =>
      TruncateKeeps(d, target);
  }

  /** Every reachable ledger has the trunk invariant, and its branch table is exact as long as
      nothing was truncated. */
  lemma {:induction false} RunKeepsTrunk(ds: seq<Tables>, ops: seq<Op>, n: nat)
    requires Run(ds, ops) && n < |ds|
    ensures Kept(ds[n])
    ensures (forall i | 0 <= i < n :: ops[i].Confirm?) ==> ds[n] == EMPTY || LeafInv(ds[n])
  {
    if n > 0 {
      RunKeepsTrunk(ds, ops, n - 1);
      StepKeeps(ds[n - 1], ops[n - 1], ds[n]);
    }
  }

  /** The blocks confirmed in a run that are not attached to the tip repeat no ancestor's transaction. */
  ghost predicate RepeatFree(d: Tables, op: Op) {
    op.Confirm? && Valid(d) && !op.isRoot && op.block.preHash in d.blocks ==>
      ExtendsTip(d, op.block) || !Repeats(d, op.block)
  }

  lemma TruncateKeepsIndex(d: Tables, target: BlockId)
    requires TrunkInv(d) && BranchesSound(d) && IndexInv(d) && NoRepeat(d)
    requires target in d.blocks && d.blocks[target].inTrunk && Covered(d, target)
    ensures TrunkInv(AfterTruncate(d, target)) && IndexInv(AfterTruncate(d, target))
            && NoRepeat(AfterTruncate(d, target))
  {
    hide IsTree, TreeNode, Path;
    var d2 := AfterTruncate(d, target);
    assert Pruned(d.blocks, d2.blocks, d.blocks[target].height) by {
      TruncateComplete(d, target);
    }
    assert IndexInv(d2);
    TruncateTrunkInv(d, target);
    forall id, a, x | id in d2.blocks && a != id && OnPath(d2.blocks, d2.root, a, id) && x in d2.blocks[a].txids
      ensures x !in d2.blocks[id].txids
    {
      PrunedAncestor(d.blocks, d2.blocks, d.root, d.blocks[target].height, id, a);
    }
  }

  lemma PrunedAncestor(t: Blocks, t2: Blocks, root: BlockId, h: nat, id: BlockId, a: BlockId)
    requires IsTree(t, root) && IsTree(t2, root) && Pruned(t, t2, h)
    requires id in t2 && OnPath(t2, root, a, id)
    ensures OnPath(t, root, a, id)
  {
    PathFrame(t2, t, root, id);
  }

  /** In every reachable ledger the confirmed table attributes each trunk transaction to the trunk
      block holding it. */
  lemma {:induction false} RunKeepsIndex(ds: seq<Tables>, ops: seq<Op>, n: nat)
    requires Run(ds, ops) && n < |ds|
    requires forall i | 0 <= i < n :: RepeatFree(ds[i], ops[i])
    ensures Valid(ds[n]) && IndexInv(ds[n])
    ensures ds[n] != EMPTY ==> NoRepeat(ds[n])
  {
    hide Step, IndexInv, NoRepeat, RepeatFree, IsTree, Marked, BranchesSound;
    RunKeepsTrunk(ds, ops, n);
    if n == 0 {
      EmptyIndex();
    } else {
      RunKeepsTrunk(ds, ops, n - 1);
      RunKeepsIndex(ds, ops, n - 1);
      StepKeepsIndex(ds[n - 1], ops[n - 1], ds[n]);
    }
  }

  lemma EmptyIndex()
    ensures IndexInv(EMPTY)
  {
  }

  lemma StepKeepsIndex(d: Tables, op: Op, d2: Tables)
    requires Kept(d) && Step(d, op, d2) && RepeatFree(d, op) && Valid(d2)
    requires IndexInv(d) && (d != EMPTY ==> NoRepeat(d))
    ensures IndexInv(d2) && (d2 != EMPTY ==> NoRepeat(d2))
  {
    match op
    case Confirm(b, isRoot) =>
      if Accepts(d, b, isRoot) {
        if isRoot {
          AfterRootIndex(b);
        } else {
          AfterBlockIndex(d, b);
        }
      }
    case Truncate(target) =>
      TruncateKeepsIndex(d, target);
  }

  lemma AfterRootIndex(b: Block)
    requires b.id != ""
    ensures TrunkInv(AfterRoot(b)) && IndexInv(AfterRoot(b)) && NoRepeat(AfterRoot(b))
  {
    var d := AfterRoot(b);
    AfterRootTrunk(b);
    forall x | x in TxIds(b.txs)
      ensures x in d.confirmed && d.confirmed[x].blockId == b.id
    {
      var i :| 0 <= i < |b.txs| && TxIds(b.txs)[i] == x;
      assert b.txs[i].txid == x && Writes(EMPTY, true, x);
      RecordedAt(EMPTY, map[], b, true, |b.txs|, x);
    }
  }

  // ---------------------------------------------------------------- which blocks reachable ledgers accept

  /** Block ids are hashes: a block confirmed again after a truncation has its old transactions. */
  ghost predicate SameAgain(d: Tables, op: Op) {
    op.Confirm? ==> Identified(d, op.block)
  }

  lemma StepKeepsAttribution(d: Tables, op: Op, d2: Tables)
    requires Kept(d) && Step(d, op, d2) && SameAgain(d, op) && Attributed(d)
    ensures Attributed(d2)
  {
    hide TrunkInv, IsTree, Path;
    match op
    case Confirm(b, isRoot) =>
      if Accepts(d, b, isRoot) {
        if isRoot {
          AfterRootAttributed(b);
        } else {
          AfterBlockAttributed(d, b);
        }
      }
    case Truncate(target) =>
  }

  lemma {:induction false} RunKeepsAttribution(ds: seq<Tables>, ops: seq<Op>, n: nat)
    requires Run(ds, ops) && n < |ds| && forall i | 0 <= i < n :: SameAgain(ds[i], ops[i])
    ensures Attributed(ds[n])
  {
    hide Step, Kept, SameAgain;
    if n > 0 {
      RunKeepsTrunk(ds, ops, n - 1);
      RunKeepsAttribution(ds, ops, n - 1);
      StepKeepsAttribution(ds[n - 1], ops[n - 1], ds[n]);
    }
  }

  /** At every point of every run the next block is accepted exactly if it has at most one coinbase
      transaction and, if it becomes the tip, repeats nothing of the trunk that stays. */
  lemma RunAccepts(ds: seq<Tables>, ops: seq<Op>, n: nat, b: Block, m: BlockId)
    requires Run(ds, ops) && n < |ds| && ds[n] != EMPTY
    requires forall i | 0 <= i < n :: RepeatFree(ds[i], ops[i]) && SameAgain(ds[i], ops[i])
    requires Valid(ds[n]) && b.preHash in ds[n].blocks
    requires IsLowestCommonAncestor(ds[n].blocks, ds[n].root, ds[n].tip, b.preHash, m)
    ensures var d := ds[n];
            Accepts(d, b, false) <==>
              && (forall i, j | 0 <= i < j < |b.txs| :: !(b.txs[i].coinbase && b.txs[j].coinbase))
              && (d.blocks[b.preHash].height + 1 > d.trunkHeight ==>
                    forall a, i | OnPath(d.blocks, d.root, a, m) && 0 <= i < |b.txs| ::
                      b.txs[i].txid !in d.blocks[a].txids)
  {
    hide Step, SameAgain, RepeatFree, Accepts, Path;
    RunKeepsIndex(ds, ops, n);
    RunKeepsAttribution(ds, ops, n);
    AcceptsIff(ds[n], b, m);
  }
}
