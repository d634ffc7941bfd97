/** The ledger: ConfirmBlock with fork handling, the search for the path between two blocks, and
    truncation. The tables are updated in batches that are written atomically. */
module Ledger {
  import opened Types
  import opened Chain
  import opened Tables
  import opened Branches
  import opened Search

  datatype LedgerError = NoError | RootBlockAlreadyExist | TxDuplicated | GenesisNotLoaded

  datatype ConfirmStatus = ConfirmStatus(succ: bool, split: bool, orphan: bool, trunkSwitch: bool, error: LedgerError)

  const REFUSED := ConfirmStatus(false, false, false, false, NoError)

  /** Puts a header, and its height entry when it is marked as trunk, into the batch. */
  function SaveBlock(batch: Tables, h: Header): Tables {
    batch.(blocks := batch.blocks[h.id := h],
           heights := if h.inTrunk then batch.heights[h.height := h.id] else batch.heights)
  }

  function UpdateBranchInfo(branches: map<BlockId, nat>, added: BlockId, deleted: BlockId, height: nat)
    : map<BlockId, nat>
  {
    (branches - {deleted})[added := height]
  }

  lemma RootlessIsEmpty(d: Tables)
    requires Valid(d) && d.root == ""
    ensures d == EMPTY
  {
  }

  // ------------------------------------------------------------ the path between two blocks

  /** undo and todo are the bodies of the branches of cur and dest below their lowest common ancestor. */
  ghost predicate IsUndoTodo(d: Tables, cur: BlockId, dest: BlockId, a: BlockId, undo: seq<Block>, todo: seq<Block>)
    requires IsTree(d.blocks, d.root) && TxsStored(d) && cur in d.blocks && dest in d.blocks
  {
    && IsLowestCommonAncestor(d.blocks, d.root, cur, dest, a)
    && undo == Bodies(d, Branch(d.blocks, d.root, cur, d.blocks[a].height))
    && todo == Bodies(d, Branch(d.blocks, d.root, dest, d.blocks[a].height))
  }

  ghost predicate Collected(d: Tables, a: BlockId, b: BlockId, la: seq<Block>, lb: seq<Block>, visited: set<BlockId>)
    requires IsTree(d.blocks, d.root) && TxsStored(d) && a in d.blocks && b in d.blocks
  {
    && Seen(d.blocks, d.root, a, b, |la|, |lb|, visited)
    && la == Bodies(d, Down(d.blocks, d.root, a, |la|))
    && lb == Bodies(d, Down(d.blocks, d.root, b, |lb|))
  }

  lemma CollectedSymmetric(d: Tables, a: BlockId, b: BlockId, la: seq<Block>, lb: seq<Block>, visited: set<BlockId>)
    requires IsTree(d.blocks, d.root) && TxsStored(d) && a in d.blocks && b in d.blocks
    requires Collected(d, a, b, la, lb, visited)
    ensures Collected(d, b, a, lb, la, visited)
  {
  }

  lemma CursorOf(d: Tables, a: BlockId, la: seq<Block>)
    requires IsTree(d.blocks, d.root) && TxsStored(d) && a in d.blocks && 1 <= |la| <= d.blocks[a].height + 1
    requires la == Bodies(d, Down(d.blocks, d.root, a, |la|))
    ensures var x := Down(d.blocks, d.root, a, |la|)[|la| - 1];
            && x in d.blocks && la[|la| - 1] == BlockOf(d, x)
            && la[|la| - 1].height == CursorHeight(d.blocks, a, |la|)
            && la[|la| - 1].preHash == d.blocks[x].preHash
  {
  }

  /** What one move of a's cursor gives: the next block is new, and the walk goes on with b, or it
      was seen before, and the walk is done. */
  ghost predicate Moved(d: Tables, a: BlockId, b: BlockId, la: seq<Block>, lb: seq<Block>, visited: set<BlockId>)
    requires IsTree(d.blocks, d.root) && TxsStored(d) && a in d.blocks && b in d.blocks && |la| > 0 && |lb| > 0
  {
    var x := la[|la| - 1].preHash;
    && x in d.blocks && x != "" && d.blocks[x].height + 1 == la[|la| - 1].height
    && if x in visited
       then la[|la| - 1].id != x && lb[|lb| - 1].id == x && IsUndoTodo(d, a, b, x, la, lb[..|lb| - 1])
       else Collected(d, a, b, la + [BlockOf(d, x)], lb, visited + {x})
            && Turn(lb[|lb| - 1].height, d.blocks[x].height, |lb|, |la| + 1)
  }

  lemma CollectStep(d: Tables, a: BlockId, b: BlockId, la: seq<Block>, lb: seq<Block>, visited: set<BlockId>)
    requires IsTree(d.blocks, d.root) && TxsStored(d) && a in d.blocks && b in d.blocks
    requires Collected(d, a, b, la, lb, visited)
    requires Turn(la[|la| - 1].height, lb[|lb| - 1].height, |la|, |lb|)
    requires la[|la| - 1].height >= lb[|lb| - 1].height
    ensures Moved(d, a, b, la, lb, visited)
  {
    CursorOf(d, a, la);
    CursorOf(d, b, lb);
    HalfStep(d.blocks, d.root, a, b, |la|, |lb|, visited);
    var x := la[|la| - 1].preHash;
    if x in visited {
      FoundBodies(d, a, b, la, lb, x);
    } else {
      BodiesExtend(d, Down(d.blocks, d.root, a, |la|), x);
    }
  }

  /** a's turn to move, with everything collected so far. */
  ghost predicate Walking(d: Tables, a: BlockId, b: BlockId, la: seq<Block>, lb: seq<Block>, visited: set<BlockId>)
    requires IsTree(d.blocks, d.root) && TxsStored(d) && a in d.blocks && b in d.blocks
  {
    Collected(d, a, b, la, lb, visited) && Turn(la[|la| - 1].height, lb[|lb| - 1].height, |la|, |lb|)
  }

  /** The walk has ended in split, seen from a. */
  ghost predicate Hit(d: Tables, a: BlockId, b: BlockId, la: seq<Block>, lb: seq<Block>, split: BlockId)
    requires IsTree(d.blocks, d.root) && TxsStored(d) && a in d.blocks && b in d.blocks
  {
    && |la| > 0 && |lb| > 0
    && la[|la| - 1].id != split && lb[|lb| - 1].id == split && IsUndoTodo(d, a, b, split, la, lb[..|lb| - 1])
  }

  /** Drops the last block if it is the split block. */
  function TrimSplit(l: seq<Block>, split: BlockId): seq<Block> {
    if |l| > 0 && l[|l| - 1].id == split then l[..|l| - 1] else l
  }

  lemma WalkInit(d: Tables, a: BlockId, b: BlockId)
    requires IsTree(d.blocks, d.root) && TxsStored(d) && a in d.blocks && b in d.blocks && a != b
    ensures Walking(d, a, b, [BlockOf(d, a)], [BlockOf(d, b)], {a, b})
  {
    SeenInit(d.blocks, d.root, a, b);
  }

  /** One half of the loop body: a moves when it is at least as high as b, and then it is b's turn. */
  lemma WalkOld(d: Tables, a: BlockId, b: BlockId, la: seq<Block>, lb: seq<Block>, visited: set<BlockId>)
    requires IsTree(d.blocks, d.root) && TxsStored(d) && a in d.blocks && b in d.blocks
    requires Walking(d, a, b, la, lb, visited)
    ensures var x := la[|la| - 1].preHash;
            if la[|la| - 1].height >= lb[|lb| - 1].height
            then x != "" && x in d.blocks && d.blocks[x].height + 1 == la[|la| - 1].height
                 && if x in visited then Hit(d, a, b, la, lb, x)
                    else Walking(d, b, a, lb, la + [BlockOf(d, x)], visited + {x})
            else Walking(d, b, a, lb, la, visited)
  {
    if la[|la| - 1].height >= lb[|lb| - 1].height {
      CollectStep(d, a, b, la, lb, visited);
      var x := la[|la| - 1].preHash;
      if x !in visited {
        CollectedSymmetric(d, a, b, la + [BlockOf(d, x)], lb, visited + {x});
      }
    } else {
      CollectedSymmetric(d, a, b, la, lb, visited);
    }
  }

  lemma TrimHit(d: Tables, a: BlockId, b: BlockId, la: seq<Block>, lb: seq<Block>, split: BlockId)
    requires IsTree(d.blocks, d.root) && TxsStored(d) && a in d.blocks && b in d.blocks
    requires Hit(d, a, b, la, lb, split) || Hit(d, b, a, lb, la, split)
    ensures IsUndoTodo(d, a, b, split, TrimSplit(la, split), TrimSplit(lb, split))
  {
  }

  lemma BodiesExtend(d: Tables, ids: seq<BlockId>, x: BlockId)
    requires TxsStored(d) && x in d.blocks && forall i | 0 <= i < |ids| :: ids[i] in d.blocks
    ensures Bodies(d, ids + [x]) == Bodies(d, ids) + [BlockOf(d, x)]
  {
  }

  lemma FoundBodies(d: Tables, a: BlockId, b: BlockId, la: seq<Block>, lb: seq<Block>, x: BlockId)
    requires IsTree(d.blocks, d.root) && TxsStored(d) && a in d.blocks && b in d.blocks
    requires Found(d.blocks, d.root, a, b, |la|, |lb|, x) && |la| > 0
    requires la == Bodies(d, Down(d.blocks, d.root, a, |la|))
    requires lb == Bodies(d, Down(d.blocks, d.root, b, |lb|))
    ensures la[|la| - 1].id != x && lb[|lb| - 1].id == x
    ensures IsUndoTodo(d, a, b, x, la, lb[..|lb| - 1])
  {
  }

  lemma StepDown(t: Blocks, root: BlockId, a: BlockId, x: BlockId)
    requires IsTree(t, root) && a in t && OnPath(t, root, x, a) && t[x].height > 0
    ensures t[x].preHash in t && t[t[x].preHash].height == t[x].height - 1
    ensures OnPath(t, root, t[x].preHash, a)
  {
    PathLinked(t, root, a, t[x].height);
    PathPrefix(t, root, a, t[x].height - 1);
  }

  lemma StepDownBoth(t: Blocks, root: BlockId, a: BlockId, b: BlockId, x: BlockId, y: BlockId)
    requires IsTree(t, root) && a in t && b in t && OnPath(t, root, x, a) && OnPath(t, root, y, b)
    requires x != y && t[x].height == t[y].height
    ensures t[x].preHash in t && t[y].preHash in t
    ensures t[t[x].preHash].height == t[t[y].preHash].height == t[x].height - 1
    ensures OnPath(t, root, t[x].preHash, a) && OnPath(t, root, t[y].preHash, b)
  {
    RootAtZero(t, root, a);
    RootAtZero(t, root, b);
    StepDown(t, root, a, x);
    StepDown(t, root, b, y);
  }

  /** The path search and GetCommonParentBlockid agree on the ancestor. */
  lemma SearchesAgree(d: Tables, cur: BlockId, dest: BlockId, a: BlockId, undo: seq<Block>, todo: seq<Block>,
                      parent: BlockId)
    requires IsTree(d.blocks, d.root) && TxsStored(d) && cur in d.blocks && dest in d.blocks
    requires IsUndoTodo(d, cur, dest, a, undo, todo)
    requires IsLowestCommonAncestor(d.blocks, d.root, cur, dest, parent)
    ensures a == parent
    ensures undo != [] ==> undo[0].id == cur && undo[|undo| - 1].preHash == parent
    ensures todo != [] ==> todo[0].id == dest && todo[|todo| - 1].preHash == parent
  {
    LowestCommonAncestorUnique(d.blocks, d.root, cur, dest, a, parent);
    if undo != [] {
      PathLinked(d.blocks, d.root, cur, d.blocks[a].height + 1);
    }
    if todo != [] {
      PathLinked(d.blocks, d.root, dest, d.blocks[a].height + 1);
    }
  }

  // ------------------------------------------------------------ truncation

  ghost function ChainAbove(t: Blocks, root: BlockId, from: BlockId, h: nat): set<BlockId>
    requires IsTree(t, root) && from in t
  {
    set id | id in t && t[id].height > h && OnPath(t, root, id, from)
  }

  ghost function TrunkHeights(t: Blocks, gone: set<BlockId>): set<nat>
    requires gone <= t.Keys
  {
    set id | id in gone && t[id].inTrunk :: t[id].height
  }

  /** The tables without the blocks in gone and the height entries of those of them in the trunk. */
  ghost function Without(t: Blocks, d: Tables, gone: set<BlockId>): Tables
    requires gone <= t.Keys
  {
    d.(blocks := d.blocks - gone,
       heights := d.heights - TrunkHeights(t, gone))
  }

  ghost function RemovedBy(t: Blocks, root: BlockId, tips: seq<BlockId>, h: nat): set<BlockId>
    requires IsTree(t, root) && forall i | 0 <= i < |tips| :: tips[i] in t
  {
    set id | id in t && t[id].height > h && exists i :: 0 <= i < |tips| && OnPath(t, root, id, tips[i])
  }

  ghost function Rebranched(branches: map<BlockId, nat>, tips: seq<BlockId>, target: BlockId, h: nat)
    : map<BlockId, nat>
  {
    if tips == [] then branches
    else (map id | id in branches && id !in tips :: branches[id])[target := h]
  }

  /** The chain of from has been deleted from the batch down to, but not including, block x. */
  ghost predicate Removing(t: Blocks, root: BlockId, from: BlockId, h: nat, pending: Tables, x: BlockId, batch: Tables)
    requires IsTree(t, root) && from in t
  {
    && OnPath(t, root, x, from)
    && (if t[x].height >= h
        then batch == Without(t, pending, ChainAbove(t, root, from, t[x].height))
        else batch == Without(t, pending, ChainAbove(t, root, from, h)))
  }

  lemma RemovingInit(t: Blocks, root: BlockId, from: BlockId, h: nat, pending: Tables)
    requires IsTree(t, root) && from in t
    ensures Removing(t, root, from, h, pending, from, pending)
  {
  }

  lemma RemovingStep(t: Blocks, root: BlockId, from: BlockId, h: nat, pending: Tables, x: BlockId, batch: Tables)
    requires IsTree(t, root) && from in t
    requires Removing(t, root, from, h, pending, x, batch) && t[x].height > h
    ensures t[x].preHash in t && t[t[x].preHash].height < t[x].height
    ensures Removing(t, root, from, h, pending, t[x].preHash,
                     batch.(blocks := batch.blocks - {x},
                            heights := if t[x].inTrunk then batch.heights - {t[x].height} else batch.heights))
  {
    StepDown(t, root, from, x);
    var above := ChainAbove(t, root, from, t[x].height);
    assert ChainAbove(t, root, from, t[x].height - 1) == above + {x};
    WithoutOneMore(t, pending, above, x);
  }

  lemma WithoutOneMore(t: Blocks, d: Tables, gone: set<BlockId>, x: BlockId)
    requires gone <= t.Keys && x in t
    ensures Without(t, d, gone + {x})
         == Without(t, d, gone).(blocks := Without(t, d, gone).blocks - {x},
                                 heights := if t[x].inTrunk then Without(t, d, gone).heights - {t[x].height}
                                            else Without(t, d, gone).heights)
  {
  }

  lemma WithoutUnion(t: Blocks, d: Tables, a: set<BlockId>, b: set<BlockId>)
    requires a <= t.Keys && b <= t.Keys
    ensures Without(t, Without(t, d, a), b) == Without(t, d, a + b)
  {
  }

  lemma RemovedByStep(t: Blocks, root: BlockId, tips: seq<BlockId>, h: nat, i: nat)
    requires IsTree(t, root) && i < |tips| && forall j | 0 <= j < |tips| :: tips[j] in t
    ensures RemovedBy(t, root, tips[..i + 1], h) == RemovedBy(t, root, tips[..i], h) + ChainAbove(t, root, tips[i], h)
  {
  }

  lemma RebranchedStep(branches: map<BlockId, nat>, tips: seq<BlockId>, target: BlockId, h: nat, i: nat)
    requires i < |tips| && tips[i] != target
    ensures UpdateBranchInfo(Rebranched(branches, tips[..i], target, h), target, tips[i], h)
         == Rebranched(branches, tips[..i + 1], target, h)
  {
  }

  /** The tables after the chains of the given tips have been removed. */
  ghost function WithoutTips(d: Tables, target: BlockId, tips: seq<BlockId>): Tables
    requires IsTree(d.blocks, d.root) && target in d.blocks
    requires forall i | 0 <= i < |tips| :: tips[i] in d.blocks
  {
    var h := d.blocks[target].height;
    Without(d.blocks, d, RemovedBy(d.blocks, d.root, tips, h)).(branches := Rebranched(d.branches, tips, target, h))
  }

  lemma WithoutNone(d: Tables, target: BlockId)
    requires IsTree(d.blocks, d.root) && target in d.blocks
    ensures WithoutTips(d, target, []) == d
  {
    assert RemovedBy(d.blocks, d.root, [], d.blocks[target].height) == {};
  }

  lemma WithoutOneMoreTip(d: Tables, target: BlockId, tips: seq<BlockId>, i: nat)
    requires IsTree(d.blocks, d.root) && target in d.blocks && i < |tips|
    requires forall j | 0 <= j < |tips| :: tips[j] in d.blocks && tips[j] != target
    ensures var h := d.blocks[target].height;
            var next := Without(d.blocks, WithoutTips(d, target, tips[..i]), ChainAbove(d.blocks, d.root, tips[i], h));
            next.(branches := UpdateBranchInfo(next.branches, target, tips[i], h)) ==
            WithoutTips(d, target, tips[..i + 1])
  {
    hide Rebranched, IsTree, UpdateBranchInfo;
    var t, root, h := d.blocks, d.root, d.blocks[target].height;
    RemovedByStep(t, root, tips, h, i);
    WithoutUnion(t, d, RemovedBy(t, root, tips[..i], h), ChainAbove(t, root, tips[i], h));
    RebranchedStep(d.branches, tips, target, h, i);
  }

  lemma RemovedByHigherTips(d: Tables, target: BlockId, tips: seq<BlockId>, id: BlockId)
    requires IsTree(d.blocks, d.root) && BranchesSound(d) && target in d.blocks && id in d.blocks
    requires forall x :: x in tips <==> IsHigherTip(d, target, x)
    requires forall j | 0 <= j < |tips| :: tips[j] in d.blocks
    ensures id in RemovedBy(d.blocks, d.root, tips, d.blocks[target].height) <==> Removed(d, target, id)
  {
  }

  lemma TruncateDone(d: Tables, target: BlockId, tips: seq<BlockId>)
    requires IsTree(d.blocks, d.root) && BranchesSound(d) && target in d.blocks
    requires forall id :: id in tips <==> IsHigherTip(d, target, id)
    requires forall j | 0 <= j < |tips| :: tips[j] in d.blocks
    ensures AfterTruncate(d, target) ==
            WithoutTips(d, target, tips).(tip := target, trunkHeight := d.blocks[target].height)
  {
    var t, h := d.blocks, d.blocks[target].height;
    var gone := RemovedBy(t, d.root, tips, h);
    forall id | id in t
      ensures id in gone <==> Removed(d, target, id)
    {
      RemovedByHigherTips(d, target, tips, id);
    }
    TruncateDoneBranches(d, target, tips);
    assert AfterTruncate(d, target).blocks == d.blocks - gone;
    forall k | k in d.heights
      ensures k in TrunkHeights(t, gone) <==> exists id :: Removed(d, target, id) && t[id].inTrunk && t[id].height == k
    {
      if k in TrunkHeights(t, gone) {
        var id :| id in gone && t[id].inTrunk && t[id].height == k;
        assert Removed(d, target, id);
      }
    }
    assert AfterTruncate(d, target).heights == d.heights - TrunkHeights(t, gone);
  }

  lemma TruncateDoneBranches(d: Tables, target: BlockId, tips: seq<BlockId>)
    requires IsTree(d.blocks, d.root) && BranchesSound(d) && target in d.blocks
    requires forall id :: id in tips <==> IsHigherTip(d, target, id)
    ensures AfterTruncate(d, target).branches == Rebranched(d.branches, tips, target, d.blocks[target].height)
  {
    assert tips != [] ==> tips[0] in tips;
  }

  // ------------------------------------------------------------ marks during a fork

  /** The marks of t with the blocks above height h already moved from chain old to chain new. */
  ghost function MarkAbove(t: Blocks, old_: seq<BlockId>, new_: seq<BlockId>, h: nat): Blocks {
    map id | id in t ::
      if h < t[id].height < |old_| && old_[t[id].height] == id
      then t[id].(inTrunk := false, nextHash := "")
      else if h < t[id].height < |new_| - 1 && new_[t[id].height] == id
      then t[id].(inTrunk := true, nextHash := new_[t[id].height + 1])
      else t[id]
  }

  ghost function HeightsAbove(old_: seq<BlockId>, new_: seq<BlockId>, h: nat): map<nat, BlockId>
    requires |old_| <= |new_|
  {
    map k: nat | k < |old_| :: if k > h then new_[k] else old_[k]
  }

  lemma MarkAboveStep(t: Blocks, root: BlockId, old_: seq<BlockId>, new_: seq<BlockId>, p: BlockId, q: BlockId, h: nat)
    requires IsTree(t, root)
    requires p in t && q in t && p != q && t[p].height == t[q].height == h + 1
    requires h + 1 < |old_| && h + 2 < |new_| && old_[h + 1] == p && new_[h + 1] == q
    ensures MarkAbove(t, old_, new_, h)
         == MarkAbove(t, old_, new_, h + 1)[p := t[p].(inTrunk := false, nextHash := "")]
                                           [q := t[q].(inTrunk := true, nextHash := new_[h + 2])]
  {
  }

  /** Once the walk has met, the incremental marks are those set from scratch. */
  lemma MarkAboveMeets(t: Blocks, tip: BlockId, old_: seq<BlockId>, new_: seq<BlockId>, m: BlockId)
    requires MarkedFor(t, tip, old_) && m in t && t[m].height < |old_| && |new_| == |old_| + 1
    requires tip in t && t[tip].height == |old_| - 1
    requires old_[..t[m].height + 1] == new_[..t[m].height + 1] && new_[t[m].height] == m
    requires forall k | t[m].height < k < |old_| :: old_[k] != new_[k]
    ensures MarkAbove(t, old_, new_, t[m].height)[m := t[m].(inTrunk := true, nextHash := new_[t[m].height + 1])]
         == Remark(t, new_)
  {
    hide MarkedFor, MarkAbove, Remark;
    var h := t[m].height;
    assert forall k | 0 <= k <= h :: old_[k] == old_[..h + 1][k] == new_[..h + 1][k] == new_[k];
    MarkedKeys(t, old_, new_, m);
    forall id | id in t && id != m
      ensures MarkAbove(t, old_, new_, h)[id] == Remark(t, new_)[id]
    {
      MarkAboveMeetsAt(t, tip, old_, new_, h, id);
    }
  }

  lemma MarkedKeys(t: Blocks, old_: seq<BlockId>, new_: seq<BlockId>, m: BlockId)
    requires m in t && t[m].height < |old_| && |new_| == |old_| + 1 && new_[t[m].height] == m
    ensures MarkAbove(t, old_, new_, t[m].height).Keys == Remark(t, new_).Keys == t.Keys
    ensures Remark(t, new_)[m] == t[m].(inTrunk := true, nextHash := new_[t[m].height + 1])
  {
  }

  lemma MarkAboveMeetsAt(t: Blocks, tip: BlockId, old_: seq<BlockId>, new_: seq<BlockId>, h: nat, id: BlockId)
    requires MarkedFor(t, tip, old_) && h < |old_| && |new_| == |old_| + 1
    requires tip in t && t[tip].height == |old_| - 1 && id in t && (t[id].height == h ==> old_[h] != id)
    requires forall k | 0 <= k <= h :: old_[k] == new_[k]
    requires forall k | h < k < |old_| :: old_[k] != new_[k]
    ensures MarkAbove(t, old_, new_, h)[id] == Remark(t, new_)[id]
  {
  }

  lemma {:induction false} CoinbaseCountMonotone(txs: seq<Tx>, n: nat)
    requires n <= |txs|
    ensures CoinbaseCount(txs[..n]) <= CoinbaseCount(txs)
    decreases |txs|
  {
    if n < |txs| {
      CoinbaseCountMonotone(txs[..|txs| - 1], n);
      assert txs[..|txs| - 1][..n] == txs[..n];
    } else {
      assert txs[..n] == txs;
    }
  }

  lemma RecordedNone(d: Tables, base: Confirmed, b: Block, inTrunk: bool)
    ensures Recorded(d, base, b, inTrunk, 0) == base && CoinbaseCount(b.txs[..0]) == 0
  {
  }

  lemma RecordedStep(d: Tables, base: Confirmed, b: Block, inTrunk: bool, i: nat)
    requires i < |b.txs|
    ensures var conf, tx := Recorded(d, base, b, inTrunk, i), b.txs[i];
            Recorded(d, base, b, inTrunk, i + 1) ==
            if Writes(d, inTrunk, tx.txid) then conf[tx.txid := ConfirmedTx(tx, b.id)] else conf
    ensures CoinbaseCount(b.txs[..i + 1]) == CoinbaseCount(b.txs[..i]) + if b.txs[i].coinbase then 1 else 0
  {
    assert b.txs[..i + 1][..i] == b.txs[..i];
  }

  class Ledger {
    var db: Tables

    constructor ()
      ensures db == EMPTY
    {
      db := EMPTY;
    }

    // -------------------------------------------------------- confirming

    /** Attributes the transactions of stored block id to it, in the pending confirmed table. */
    method CorrectTxs(pending: Confirmed, id: BlockId) returns (conf: Confirmed)
      requires TxsStored(db) && id in db.blocks && pending.Keys == db.confirmed.Keys
      ensures conf == Correct(db, pending, id)
    {
      var txids := db.blocks[id].txids;
      conf := pending;
      for i := 0 to |txids|
        invariant conf.Keys == pending.Keys
        invariant forall x | x in conf ::
                    conf[x] == if x in txids[..i] && db.confirmed[x].blockId != id
                               then ConfirmedTx(db.confirmed[x].tx, id) else pending[x]
      {
        var x := txids[i];
        assert txids[..i + 1] == txids[..i] + [x];
        if db.confirmed[x].blockId != id {
          conf := conf[x := ConfirmedTx(db.confirmed[x].tx, id)];
        }
      }
      assert txids[..|txids|] == txids;
    }

    /** Moves the trunk marks from the chain of the old tip to the chain of newTipPre followed by
        next, walking both chains down in lockstep until they meet. */
    method HandleFork(oldTip: BlockId, newTipPre: BlockId, next: BlockId, pending: Tables)
      returns (batch: Tables, split: Header)
      requires TrunkInv(db) && TxsStored(db) && oldTip == db.tip
      requires newTipPre in db.blocks && db.blocks[newTipPre].height == db.trunkHeight
      requires next != "" && next !in db.blocks
      requires pending.blocks == db.blocks && pending.heights == db.heights && pending.confirmed == db.confirmed
      ensures ForkDone(db, newTipPre, next, pending, split, batch)
    {
      batch := pending;
      var p, q, nextHash := oldTip, newTipPre, next;
      ForkInit(db, newTipPre, next, pending);
      while p != q
        invariant ForkState(db, newTipPre, next, pending, p, q, nextHash, batch)
        decreases db.blocks[p].height
      {
        var pBlock := db.blocks[p].(inTrunk := false, nextHash := "");
        var qBlock := db.blocks[q].(inTrunk := true);
        var conf := CorrectTxs(batch.confirmed, q);
        qBlock := qBlock.(nextHash := nextHash);
        ForkNext(db, newTipPre, next, pending, p, q, nextHash, batch);
        nextHash := q;
        p := pBlock.preHash;
        q := qBlock.preHash;
        batch := batch.(confirmed := conf);
        batch := SaveBlock(batch, pBlock);
        batch := SaveBlock(batch, qBlock);
      }
      split := db.blocks[q].(inTrunk := true, nextHash := nextHash);
      ForkFinish(db, newTipPre, next, pending, q, nextHash, batch);
      batch := SaveBlock(batch, split);
    }

    /** Records the transactions of the block over the pending confirmed table, unless there are two
        coinbase transactions or one is already held by a trunk block up to splitHeight. */
    method RecordTxs(block: Block, inTrunk: bool, splitHeight: nat, pending: Confirmed)
      returns (conf: Confirmed, ok: bool, error: LedgerError)
      ensures ok <==> CoinbaseCount(block.txs) <= 1
                      && forall i | 0 <= i < |block.txs| :: !Duplicated(db, inTrunk, splitHeight, block.txs[i].txid)
      ensures ok ==> conf == Recorded(db, pending, block, inTrunk, |block.txs|) && error == NoError
      ensures error == TxDuplicated ==>
                exists i | 0 <= i < |block.txs| :: Duplicated(db, inTrunk, splitHeight, block.txs[i].txid)
      ensures error == NoError || error == TxDuplicated
    {
      hide Recorded, CoinbaseCount;
      RecordedNone(db, pending, block, inTrunk);
      conf := pending;
      var cbNum := 0;
      for i := 0 to |block.txs|
        invariant cbNum == CoinbaseCount(block.txs[..i]) <= 1
        invariant forall j | 0 <= j < i :: !Duplicated(db, inTrunk, splitHeight, block.txs[j].txid)
        invariant conf == Recorded(db, pending, block, inTrunk, i)
      {
        var tx := block.txs[i];
        RecordedStep(db, pending, block, inTrunk, i);
        if tx.coinbase {
          cbNum := cbNum + 1;
        }
        if cbNum > 1 {
          CoinbaseCountMonotone(block.txs, i + 1);
          return conf, false, NoError;
        }
        if tx.txid !in db.confirmed {
          conf := conf[tx.txid := ConfirmedTx(tx, block.id)];
        } else if db.confirmed[tx.txid].blockId !in db.blocks {
          // the block that held the transaction has been truncated
          conf := conf[tx.txid := ConfirmedTx(tx, block.id)];
        } else {
          var oldBlock := db.blocks[db.confirmed[tx.txid].blockId];
          if oldBlock.inTrunk && inTrunk && oldBlock.height <= splitHeight {
            return conf, false, TxDuplicated;
          } else if inTrunk {
            conf := conf[tx.txid := ConfirmedTx(tx, block.id)];
          }
        }
      }
      assert block.txs[..|block.txs|] == block.txs;
      return conf, true, NoError;
    }

    /** Submits a block. written says whether the batch is written. genesisParses says whether the
        configuration in the coinbase transaction of a genesis block can be read; a genesis block for
        which it cannot is stored all the same. */
    method ConfirmBlock(block: Block, isRoot: bool, genesisParses: bool, written: bool) returns (status: ConfirmStatus)
      requires Kept(db) && Incoming(db, block)
      modifies this
      ensures db == if Accepts(old(db), block, isRoot) && written then AfterConfirm(old(db), block, isRoot) else old(db)
      ensures Kept(db)
      ensures status.succ <==>
                && Accepts(old(db), block, isRoot) && written
                && (isRoot ==> genesisParses && CoinbaseCount(block.txs) == 1)
      ensures status.succ && !isRoot ==>
                && status.trunkSwitch == SwitchesTrunk(old(db), block)
                && status.orphan == !JoinsTrunk(old(db), block)
                && status.split == !ExtendsTip(old(db), block)
      ensures status.error == TxDuplicated ==> !Accepts(old(db), block, isRoot)
    {
      hide TreeNode, Remark, TxIds;
      if isRoot {
        status := ConfirmRoot(block, genesisParses, written);
        return;
      }
      if block.preHash !in db.blocks {
        return REFUSED;
      }
      var batch, header, splitHeight;
      batch, header, splitHeight, status := Attach(block);
      batch := batch.(branches := UpdateBranchInfo(batch.branches, block.id, block.preHash, header.height));
      var conf, ok, error := RecordTxs(block, header.inTrunk, splitHeight, batch.confirmed);
      if !ok {
        return REFUSED.(error := error);
      }
      if !written {
        return REFUSED;
      }
      ConfirmKeeps(db, block, false);
      db := batch.(confirmed := conf);
    }

    /** Saves the header of a block in a batch: on the tip, by a switch of the trunk, or on the side. */
    method Attach(block: Block) returns (batch: Tables, header: Header, splitHeight: nat, status: ConfirmStatus)
      requires TrunkInv(db) && TxsStored(db) && Incoming(db, block) && block.preHash in db.blocks
      ensures Prepared(db, block, header, splitHeight, batch)
      ensures status.succ && status.error == NoError && status.split == !ExtendsTip(db, block)
      ensures status.trunkSwitch == SwitchesTrunk(db, block) && status.orphan == !JoinsTrunk(db, block)
    {
      batch, splitHeight := db, db.trunkHeight;
      var preBlock := db.blocks[block.preHash];
      header := Header(block.id, block.preHash, "", preBlock.height + 1, true, block.proposer, TxIds(block.txs));
      status := ConfirmStatus(true, false, false, false, NoError);
      if preBlock.id == db.tip {
        TipPrepared(db, block);
        batch := batch.(tip := block.id, trunkHeight := db.trunkHeight + 1);
        batch := SaveBlock(batch, preBlock.(nextHash := block.id));
      } else if preBlock.height + 1 > db.trunkHeight {
        SwitchAtTrunkHeight(db, block);
        batch := batch.(tip := block.id, trunkHeight := preBlock.height + 1);
        var split;
        batch, split := HandleFork(db.tip, preBlock.id, block.id, batch);
        SwitchPrepared(db, block, split, batch);
        splitHeight := split.height;
        status := status.(split := true, trunkSwitch := true);
      } else {
        SidePrepared(db, block);
        header := header.(inTrunk := false);
        status := status.(split := true, orphan := true);
      }
      batch := SaveBlock(batch, header);
    }

    // -------------------------------------------------------- the path between two blocks

    /** The stored block with its transactions. */
    method QueryBlock(id: BlockId) returns (block: Option<Block>)
      requires TxsStored(db)
      ensures block == if id in db.blocks then Some(BlockOf(db, id)) else None
    {
      if id !in db.blocks {
        return None;
      }
      var header := db.blocks[id];
      var txs := [];
      for i := 0 to |header.txids|
        invariant txs == TxsOf(db.confirmed, header.txids[..i])
      {
        assert header.txids[..i + 1] == header.txids[..i] + [header.txids[i]];
        txs := txs + [db.confirmed[header.txids[i]].tx];
      }
      assert header.txids[..|header.txids|] == header.txids;
      return Some(Block(id, header.preHash, header.height, header.proposer, txs));
    }

    /** The blocks to undo from cur and to do towards dest: the two branches below the lowest common
        ancestor, tip first and without the ancestor. */
    method FindUndoAndTodoBlocks(cur: BlockId, dest: BlockId) returns (r: Option<(seq<Block>, seq<Block>)>)
      requires IsTree(db.blocks, db.root) && TxsStored(db)
      ensures r.Some? <==> cur == dest || (cur in db.blocks && dest in db.blocks)
      ensures r.Some? && cur == dest ==> r.value == ([], [])
      ensures r.Some? && cur != dest ==> exists a :: IsUndoTodo(db, cur, dest, a, r.value.0, r.value.1)
    {
      hide Bodies, TxsOf;
      if dest == cur {
        return Some(([], []));
      }
      var oldTip := QueryBlock(cur);
      if oldTip.None? {
        return None;
      }
      var newTip := QueryBlock(dest);
      if newTip.None? {
        return None;
      }
      var oldBlock, newBlock := oldTip.value, newTip.value;
      var undo, todo := [oldBlock], [newBlock];
      var visited := {oldBlock.id, newBlock.id};
      var split;
      WalkInit(db, cur, dest);
      while true
        invariant Walking(db, cur, dest, undo, todo, visited)
        invariant oldBlock == undo[|undo| - 1] && newBlock == todo[|todo| - 1]
        decreases oldBlock.height + newBlock.height
      {
        WalkOld(db, cur, dest, undo, todo, visited);
        var oldPreHash := oldBlock.preHash;
        if oldPreHash != "" && oldBlock.height >= newBlock.height {
          oldTip := QueryBlock(oldPreHash);
          oldBlock := oldTip.value;
          if oldBlock.id in visited {
            split := oldBlock.id;
            break;
          }
          visited := visited + {oldBlock.id};
          undo := undo + [oldBlock];
        }
        WalkOld(db, dest, cur, todo, undo, visited);
        var newPreHash := newBlock.preHash;
        if newPreHash != "" && newBlock.height >= oldBlock.height {
          newTip := QueryBlock(newPreHash);
          newBlock := newTip.value;
          if newBlock.id in visited {
            split := newBlock.id;
            break;
          }
          visited := visited + {newBlock.id};
          todo := todo + [newBlock];
        }
        if oldPreHash == "" && newPreHash == "" {
          // two roots: the blocks table holds one tree
          assert false;
        }
      }
      TrimHit(db, cur, dest, undo, todo, split);
      undo, todo := TrimSplit(undo, split), TrimSplit(todo, split);
      return Some((undo, todo));
    }

    /** The lowest common ancestor of two stored blocks. */
    method GetCommonParentBlockid(branch1: BlockId, branch2: BlockId) returns (r: Option<BlockId>)
      requires IsTree(db.blocks, db.root) && TxsStored(db)
      ensures r.Some? <==> branch1 in db.blocks && branch2 in db.blocks
      ensures r.Some? ==> IsLowestCommonAncestor(db.blocks, db.root, branch1, branch2, r.value)
    {
      hide Path, IsLowestCommonAncestor;
      var block1 := QueryBlock(branch1);
      if block1.None? {
        return None;
      }
      var block2 := QueryBlock(branch2);
      if block2.None? {
        return None;
      }
      var b1, b2 := block1.value, block2.value;
      while b1.height > b2.height
        invariant OnPath(db.blocks, db.root, b1.id, branch1) && b1 == BlockOf(db, b1.id)
        invariant b1.height >= b2.height || b1.id == branch1
        decreases b1.height
      {
        StepDown(db.blocks, db.root, branch1, b1.id);
        block1 := QueryBlock(b1.preHash);
        b1 := block1.value;
      }
      while b2.height > b1.height
        invariant OnPath(db.blocks, db.root, b2.id, branch2) && b2 == BlockOf(db, b2.id)
        invariant b2.height >= b1.height
        invariant b1.height == db.blocks[branch2].height || b1.id == branch1
        decreases b2.height
      {
        StepDown(db.blocks, db.root, branch2, b2.id);
        block2 := QueryBlock(b2.preHash);
        b2 := block2.value;
      }
      while b1.id != b2.id
        invariant OnPath(db.blocks, db.root, b1.id, branch1) && b1 == BlockOf(db, b1.id)
        invariant OnPath(db.blocks, db.root, b2.id, branch2) && b2 == BlockOf(db, b2.id)
        invariant b1.height == b2.height
        invariant forall h | b1.height < h && h <= db.blocks[branch1].height && h <= db.blocks[branch2].height ::
                    Path(db.blocks, db.root, branch1)[h] != Path(db.blocks, db.root, branch2)[h]
        decreases b1.height
      {
        StepDownBoth(db.blocks, db.root, branch1, branch2, b1.id, b2.id);
        block1 := QueryBlock(b1.preHash);
        b1 := block1.value;
        block2 := QueryBlock(b2.preHash);
        b2 := block2.value;
      }
      SplitIsLowest(db.blocks, db.root, branch1, branch2, b1.id);
      return Some(b1.id);
    }

    // -------------------------------------------------------- truncation

    /** The branch tips higher than the target. */
    method GetBranchInfo(target: BlockId, targetHeight: nat) returns (tips: seq<BlockId>)
      ensures forall id :: id in tips <==> id in db.branches && id != target && db.branches[id] > targetHeight
    {
      tips := [];
      var rest := db.branches.Keys;
      while rest != {}
        invariant rest <= db.branches.Keys
        invariant forall id ::
                    id in tips <==> id in db.branches && id !in rest && id != target && db.branches[id] > targetHeight
        decreases rest
      {
        var id :| id in rest;
        rest := rest - {id};
        if id != target && db.branches[id] > targetHeight {
          tips := tips + [id];
        }
      }
    }

    /** Deletes the chain of from down to, but not including, the height of to. */
    method RemoveBlocks(from: BlockId, to: BlockId, pending: Tables) returns (batch: Tables)
      requires IsTree(db.blocks, db.root) && from in db.blocks && to in db.blocks
      ensures batch == Without(db.blocks, pending, ChainAbove(db.blocks, db.root, from, db.blocks[to].height))
    {
      batch := pending;
      var fromBlock, toBlock := db.blocks[from], db.blocks[to];
      RemovingInit(db.blocks, db.root, from, db.blocks[to].height, pending);
      while fromBlock.height > toBlock.height
        invariant fromBlock.id in db.blocks && fromBlock == db.blocks[fromBlock.id]
        invariant Removing(db.blocks, db.root, from, db.blocks[to].height, pending, fromBlock.id, batch)
        decreases fromBlock.height
      {
        RemovingStep(db.blocks, db.root, from, db.blocks[to].height, pending, fromBlock.id, batch);
        batch := batch.(blocks := batch.blocks - {fromBlock.id});
        if fromBlock.inTrunk {
          batch := batch.(heights := batch.heights - {fromBlock.height});
        }
        fromBlock := db.blocks[fromBlock.preHash];
      }
    }

    /** Cuts the ledger back to the target block; written says whether the batch is written. */
    method Truncate(target: BlockId, written: bool) returns (ok: bool)
      requires Kept(db)
      modifies this
      ensures ok <==> target in old(db).blocks && written
      ensures ok ==> IsTree(old(db).blocks, old(db).root) && db == AfterTruncate(old(db), target)
      ensures !ok ==> db == old(db)
      ensures ok && old(db).blocks[target].inTrunk && Covered(old(db), target) ==> Kept(db)
    {
      hide MarkedFor;
      if target !in db.blocks {
        return false;
      }
      var block := db.blocks[target];
      var tips := GetBranchInfo(block.id, block.height);
      assert forall j | 0 <= j < |tips| :: tips[j] in tips;
      var batch := RemoveTips(target, tips);
      TruncateDone(db, target, tips);
      if !written {
        return false;
      }
      if block.inTrunk && Covered(db, target) {
        TruncateKeeps(db, target);
      }
      db := batch.(tip := target, trunkHeight := block.height);
      return true;
    }

    /** Deletes the chains of all tips above the target, and makes the target a tip in their place. */
    method RemoveTips(target: BlockId, tips: seq<BlockId>) returns (batch: Tables)
      requires IsTree(db.blocks, db.root) && target in db.blocks
      requires forall j | 0 <= j < |tips| :: tips[j] in db.blocks && tips[j] != target
      ensures batch == WithoutTips(db, target, tips)
    {
      hide WithoutTips;
      batch := db;
      WithoutNone(db, target);
      assert tips[..0] == [];
      for i := 0 to |tips|
        invariant batch == WithoutTips(db, target, tips[..i])
      {
        WithoutOneMoreTip(db, target, tips, i);
        batch := RemoveBlocks(tips[i], target, batch);
        batch := batch.(branches := UpdateBranchInfo(batch.branches, target, tips[i], db.blocks[target].height));
      }
      assert tips[..|tips|] == tips;
    }

    method ConfirmRoot(block: Block, genesisParses: bool, written: bool) returns (status: ConfirmStatus)
      requires Kept(db) && Incoming(db, block)
      modifies this
      ensures db == if Accepts(old(db), block, true) && written then AfterConfirm(old(db), block, true) else old(db)
      ensures Kept(db)
      ensures status.succ <==>
                Accepts(old(db), block, true) && written && genesisParses && CoinbaseCount(block.txs) == 1
      ensures status.error == TxDuplicated ==> !Accepts(old(db), block, true)
    {
      if block.preHash != "" {
        return REFUSED;
      }
      if db.root != "" {
        return REFUSED.(error := RootBlockAlreadyExist);
      }
      RootlessIsEmpty(db);
      var header := Header(block.id, "", "", 0, true, block.proposer, TxIds(block.txs));
      var batch := SaveBlock(db.(root := block.id, trunkHeight := 0, tip := block.id), header);
      batch := batch.(branches := UpdateBranchInfo(batch.branches, block.id, block.preHash, 0));
      var conf, ok, error := RecordTxs(block, true, db.trunkHeight, batch.confirmed);
      if !ok {
        return REFUSED.(error := error);
      }
      if !written {
        return REFUSED.(error := GenesisNotLoaded);
      }
      ConfirmKeeps(db, block, true);
      db := batch.(confirmed := conf);
      if genesisParses && CoinbaseCount(block.txs) == 1 {
        return ConfirmStatus(true, false, false, false, NoError);
      } else {
        return REFUSED.(error := GenesisNotLoaded);
      }
    }
  }

  /** The batch with the header of b saved, before its transactions and its branch entry. */
  ghost predicate Prepared(d: Tables, b: Block, header: Header, splitHeight: nat, batch: Tables)
    requires TrunkInv(d) && b.preHash in d.blocks
  {
    var d2 := AfterBlock(d, b);
    && header == d2.blocks[b.id]
    && splitHeight == SplitHeight(d, b)
    && batch == d2.(confirmed := Base(d, b), branches := d.branches)
  }

  lemma TipPrepared(d: Tables, b: Block)
    requires TrunkInv(d) && ExtendsTip(d, b) && b.id != "" && b.id !in d.blocks
    ensures var pre := d.blocks[b.preHash].(nextHash := b.id);
            var header := Header(b.id, b.preHash, "", pre.height + 1, true, b.proposer, TxIds(b.txs));
            var batch := SaveBlock(d.(tip := b.id, trunkHeight := d.trunkHeight + 1), pre);
            Prepared(d, b, header, d.trunkHeight, SaveBlock(batch, header))
  {
    hide Remark, HeightIndex, MarkedFor, IsTree, Path, Recorded;
    TipMarks(d, b);
  }

  /** Extending the tip re-marks the tip only. */
  lemma TipMarks(d: Tables, b: Block)
    requires TrunkInv(d) && ExtendsTip(d, b)
    ensures d.blocks[d.tip].id == d.tip && d.blocks[d.tip].inTrunk
    ensures var c := Path(d.blocks, d.root, d.tip);
            && d.blocks[d.tip := d.blocks[d.tip].(nextHash := b.id)] == Remark(d.blocks, c + [b.id])
            && d.heights[d.trunkHeight := d.tip][d.trunkHeight + 1 := b.id] == HeightIndex(c + [b.id])
  {
    hide Path;
    assert TreeNode(d.blocks, d.root, d.tip);
  }

  lemma SwitchPrepared(d: Tables, b: Block, split: Header, batch: Tables)
    requires TrunkInv(d) && SwitchesTrunk(d, b) && b.id != "" && b.id !in d.blocks
    requires d.blocks[b.preHash].height == d.trunkHeight
    requires ForkDone(d, b.preHash, b.id, d.(tip := b.id, trunkHeight := d.trunkHeight + 1), split, batch)
    ensures var header := Header(b.id, b.preHash, "", d.trunkHeight + 1, true, b.proposer, TxIds(b.txs));
            Prepared(d, b, header, split.height, SaveBlock(batch, header))
  {
    hide Marked, CorrectAll, IsTree;
    var c := Path(d.blocks, d.root, b.preHash);
    assert HeightIndex(c)[d.trunkHeight + 1 := b.id] == HeightIndex(c + [b.id]);
  }

  lemma SidePrepared(d: Tables, b: Block)
    requires TrunkInv(d) && b.preHash in d.blocks && !JoinsTrunk(d, b)
    ensures var header := Header(b.id, b.preHash, "", d.blocks[b.preHash].height + 1, false, b.proposer, TxIds(b.txs));
            Prepared(d, b, header, d.trunkHeight, SaveBlock(d, header))
  {
  }

  /** The lockstep walk stands at p and q; above their height the marks, the height entries and
      the attributions of transactions have been moved. */
  ghost predicate ForkState(d: Tables, newTipPre: BlockId, next: BlockId, pending: Tables,
                            p: BlockId, q: BlockId, nextHash: BlockId, batch: Tables)
    requires TrunkInv(d) && newTipPre in d.blocks && d.blocks[newTipPre].height == d.trunkHeight
  {
    var t, root := d.blocks, d.root;
    var old_, new_ := Path(t, root, d.tip), Path(t, root, newTipPre) + [next];
    && p in t && q in t && t[p].height == t[q].height <= d.trunkHeight
    && old_[t[p].height] == p && new_[t[p].height] == q && nextHash == new_[t[p].height + 1]
    && Meet(t, root, p, q) == Meet(t, root, d.tip, newTipPre)
    && batch == pending.(blocks := MarkAbove(t, old_, new_, t[p].height),
                         heights := HeightsAbove(old_, new_, t[p].height),
                         confirmed := CorrectAll(d, Branch(t, root, newTipPre, t[p].height)))
  }

  /** The result of the walk: split is the lowest common ancestor of the old tip and newTipPre, the
      marks and heights are those of the new chain, set from scratch, and the transactions of the
      branch above split are attributed to its blocks. */
  ghost predicate ForkDone(d: Tables, newTipPre: BlockId, next: BlockId, pending: Tables, split: Header, batch: Tables)
    requires TrunkInv(d) && newTipPre in d.blocks && d.blocks[newTipPre].height == d.trunkHeight
  {
    var c := Path(d.blocks, d.root, newTipPre);
    && split.id == Meet(d.blocks, d.root, d.tip, newTipPre)
    && split.height == d.blocks[split.id].height
    && batch == pending.(blocks := Remark(d.blocks, c + [next]),
                         heights := HeightIndex(c),
                         confirmed := CorrectAll(d, Branch(d.blocks, d.root, newTipPre, split.height)))
  }

  lemma ForkFinish(d: Tables, newTipPre: BlockId, next: BlockId, pending: Tables,
                   m: BlockId, nextHash: BlockId, batch: Tables)
    requires TrunkInv(d) && newTipPre in d.blocks && d.blocks[newTipPre].height == d.trunkHeight
    requires ForkState(d, newTipPre, next, pending, m, m, nextHash, batch)
    ensures var split := d.blocks[m].(inTrunk := true, nextHash := nextHash);
            ForkDone(d, newTipPre, next, pending, split, SaveBlock(batch, split))
  {
    ForkEnd(d, newTipPre, next, m);
  }

  lemma ForkInit(d: Tables, newTipPre: BlockId, next: BlockId, pending: Tables)
    requires TrunkInv(d) && newTipPre in d.blocks && d.blocks[newTipPre].height == d.trunkHeight
    requires pending.blocks == d.blocks && pending.heights == d.heights && pending.confirmed == d.confirmed
    ensures ForkState(d, newTipPre, next, pending, d.tip, newTipPre, next, pending)
  {
    hide MarkedFor, Path, TreeNode, IsTree;
  }

  lemma ForkNext(d: Tables, newTipPre: BlockId, next: BlockId, pending: Tables,
                 p: BlockId, q: BlockId, nextHash: BlockId, batch: Tables)
    requires TrunkInv(d) && newTipPre in d.blocks && d.blocks[newTipPre].height == d.trunkHeight
    requires ForkState(d, newTipPre, next, pending, p, q, nextHash, batch) && p != q
    ensures d.blocks[p].preHash in d.blocks && d.blocks[d.blocks[p].preHash].height < d.blocks[p].height
    ensures var pBlock := d.blocks[p].(inTrunk := false, nextHash := "");
            var qBlock := d.blocks[q].(inTrunk := true, nextHash := nextHash);
            ForkState(d, newTipPre, next, pending, pBlock.preHash, qBlock.preHash, q,
                      SaveBlock(SaveBlock(batch.(confirmed := Correct(d, batch.confirmed, q)), pBlock), qBlock))
  {
    ForkStep(d.blocks, d.root, d.tip, newTipPre, next, p, q);
    var h := d.blocks[p].height - 1;
    var ids := Branch(d.blocks, d.root, newTipPre, h);
    assert ids[..|ids| - 1] == Branch(d.blocks, d.root, newTipPre, h + 1);
  }

  lemma ForkStep(t: Blocks, root: BlockId, oldTip: BlockId, newTipPre: BlockId, next: BlockId, p: BlockId, q: BlockId)
    requires IsTree(t, root) && oldTip in t && newTipPre in t && t[oldTip].height == t[newTipPre].height
    requires p in t && q in t && p != q && t[p].height == t[q].height <= t[oldTip].height
    requires Path(t, root, oldTip)[t[p].height] == p && Path(t, root, newTipPre)[t[p].height] == q
    ensures 0 < t[p].height
    ensures var old_, new_ := Path(t, root, oldTip), Path(t, root, newTipPre) + [next];
            var h := t[p].height - 1;
            && p != root && q != root
            && t[p].preHash in t && t[q].preHash in t && t[t[p].preHash].height == t[t[q].preHash].height == h
            && old_[h] == t[p].preHash && new_[h] == t[q].preHash
            && Branch(t, root, newTipPre, h) == Branch(t, root, newTipPre, h + 1) + [q]
            && HeightsAbove(old_, new_, h) == HeightsAbove(old_, new_, h + 1)[h + 1 := q]
            && MarkAbove(t, old_, new_, h)
               == MarkAbove(t, old_, new_, h + 1)[p := t[p].(inTrunk := false, nextHash := "")]
                                                 [q := t[q].(inTrunk := true, nextHash := new_[h + 2])]
  {
    hide IsTree, Path, MarkAbove, HeightsAbove;
    var old_, new_ := Path(t, root, oldTip), Path(t, root, newTipPre) + [next];
    ForkDown(t, root, oldTip, newTipPre, p, q);
    var h := t[p].height - 1;
    HeightsAboveStep(old_, new_, h);
    MarkAboveStep(t, root, old_, new_, p, q, h);
  }

  /** Two different blocks of equal height have previous blocks. */
  lemma ForkDown(t: Blocks, root: BlockId, oldTip: BlockId, newTipPre: BlockId, p: BlockId, q: BlockId)
    requires IsTree(t, root) && oldTip in t && newTipPre in t && t[oldTip].height == t[newTipPre].height
    requires p in t && q in t && p != q && t[p].height == t[q].height <= t[oldTip].height
    requires Path(t, root, oldTip)[t[p].height] == p && Path(t, root, newTipPre)[t[p].height] == q
    ensures 0 < t[p].height && p != root && q != root
    ensures var h := t[p].height - 1;
            && t[p].preHash in t && t[q].preHash in t && t[t[p].preHash].height == t[t[q].preHash].height == h
            && Path(t, root, oldTip)[h] == t[p].preHash && Path(t, root, newTipPre)[h] == t[q].preHash
  {
    hide Path;
    assert TreeNode(t, root, p) && TreeNode(t, root, q);
    PathLinked(t, root, oldTip, t[p].height);
    PathLinked(t, root, newTipPre, t[p].height);
  }

  lemma HeightsAboveStep(old_: seq<BlockId>, new_: seq<BlockId>, h: nat)
    requires |old_| <= |new_| && h + 1 < |old_|
    ensures HeightsAbove(old_, new_, h) == HeightsAbove(old_, new_, h + 1)[h + 1 := new_[h + 1]]
  {
  }

  lemma ForkEnd(d: Tables, newTipPre: BlockId, next: BlockId, m: BlockId)
    requires TrunkInv(d) && newTipPre in d.blocks && d.blocks[newTipPre].height == d.trunkHeight
    requires m == Meet(d.blocks, d.root, d.tip, newTipPre)
    ensures var old_, new_ := Path(d.blocks, d.root, d.tip), Path(d.blocks, d.root, newTipPre) + [next];
            var h := d.blocks[m].height;
            && MarkAbove(d.blocks, old_, new_, h)[m := d.blocks[m].(inTrunk := true, nextHash := new_[h + 1])]
               == Remark(d.blocks, new_)
            && HeightsAbove(old_, new_, h)[h := m] == HeightIndex(Path(d.blocks, d.root, newTipPre))
  {
    hide MarkedFor;
    var old_, new_ := Path(d.blocks, d.root, d.tip), Path(d.blocks, d.root, newTipPre) + [next];
    var h := d.blocks[m].height;
    MeetIsLowest(d.blocks, d.root, d.tip, newTipPre);
    PathsAgree(d.blocks, d.root, d.tip, newTipPre, h);
    AgreeingPrefixes(old_, Path(d.blocks, d.root, newTipPre), next, h);
    MarkAboveMeets(d.blocks, d.tip, old_, new_, m);
  }

  lemma AgreeingPrefixes(a: seq<BlockId>, b: seq<BlockId>, next: BlockId, h: nat)
    requires h < |a| == |b| && a[..h + 1] == b[..h + 1]
    ensures a[..h + 1] == (b + [next])[..h + 1]
    ensures HeightsAbove(a, b + [next], h)[h := a[h]] == HeightIndex(b)
  {
  }
}
