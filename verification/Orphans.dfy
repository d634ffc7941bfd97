/** A ledger that keeps a block above its tip: two branches of equal length, truncated twice. */
module Orphans {
  import opened Types
  import opened Chain
  import opened Tables
  import opened Branches

  function Bare(id: BlockId, preHash: BlockId): Block {
    Block(id, preHash, 0, "", [])
  }

  /** The genesis block r, a and s on it, b on a, c on s; then the trunk is cut down to a. */
  function Calls(): seq<Op> {
    [Confirm(Bare("r", ""), true), Confirm(Bare("a", "r"), false), Confirm(Bare("s", "r"), false),
     Confirm(Bare("b", "a"), false), Confirm(Bare("c", "s"), false), Truncate("a")]
  }

  /** What is known of the tables after each block. */
  ghost predicate Grown(d: Tables, ids: set<BlockId>, trunk: seq<BlockId>) {
    && d != EMPTY && Kept(d) && LeafInv(d) && d.root == "r" && d.blocks.Keys == ids
    && Path(d.blocks, d.root, d.tip) == trunk
  }

  lemma AddBare(d: Tables, b: Block, ids: set<BlockId>, trunk: seq<BlockId>)
    requires Grown(d, ids, trunk) && b.txs == [] && b.id != "" && b.id !in ids && b.preHash in ids
    requires d.tip == b.preHash || d.blocks[b.preHash].height < d.trunkHeight
    ensures Step(d, Confirm(b, false), AfterBlock(d, b))
    ensures var d2 := AfterBlock(d, b);
            && Grown(d2, ids + {b.id}, if d.tip == b.preHash then trunk + [b.id] else trunk)
            && d2.tip == (if d.tip == b.preHash then b.id else d.tip)
            && d2.trunkHeight == d2.blocks[d2.tip].height
            && (forall id | id in ids :: d2.blocks[id].height == d.blocks[id].height)
            && d2.blocks[b.id].preHash == b.preHash && d2.blocks[b.id].height == d.blocks[b.preHash].height + 1
  {
    hide Base;
    hide IsTree, Path, MarkedFor, HasChild, BranchesSound, TreeNode;
    ConfirmKeeps(d, b, false);
    AfterBlockTrunk(d, b);
    PathFrame(d.blocks, AfterBlock(d, b).blocks, d.root, d.tip);
  }

  lemma RootGrown()
    ensures Step(EMPTY, Confirm(Bare("r", ""), true), AfterRoot(Bare("r", "")))
    ensures Grown(AfterRoot(Bare("r", "")), {"r"}, ["r"])
  {
    ConfirmKeeps(EMPTY, Bare("r", ""), true);
  }

  lemma FirstBlocks() returns (ds: seq<Tables>)
    ensures |ds| == 4 && ds[0] == EMPTY && forall i | 0 <= i < 3 :: Step(ds[i], Calls()[i], ds[i + 1])
    ensures Grown(ds[3], {"r", "a", "s"}, ["r", "a"]) && ds[3].tip == "a"
    ensures ds[3].blocks["s"].height == ds[3].blocks["a"].height == 1
  {
    hide TrunkInv, LeafInv, Path, TxsStored, BranchesSound, AfterBlock, Step, JoinsTrunk;
    RootGrown();
    var d1 := AfterRoot(Bare("r", ""));
    AddBare(d1, Bare("a", "r"), {"r"}, ["r"]);
    var d2 := AfterBlock(d1, Bare("a", "r"));
    AddBare(d2, Bare("s", "r"), {"r", "a"}, ["r", "a"]);
    ds := [EMPTY, d1, d2, AfterBlock(d2, Bare("s", "r"))];
  }

  /** The tables with the two branches. */
  lemma Forked() returns (ds: seq<Tables>)
    ensures |ds| == 6 && ds[0] == EMPTY && forall i | 0 <= i < 5 :: Step(ds[i], Calls()[i], ds[i + 1])
    ensures var d := ds[5];
            && Grown(d, {"r", "a", "s", "b", "c"}, ["r", "a", "b"])
            && d.blocks["c"].preHash == "s" && d.blocks["s"].height == d.blocks["a"].height == 1
  {
    hide TrunkInv, LeafInv, Path, TxsStored, BranchesSound, AfterBlock, Step, JoinsTrunk;
    ds := FirstBlocks();
    var d3 := ds[3];
    AddBare(d3, Bare("b", "a"), {"r", "a", "s"}, ["r", "a"]);
    var d4 := AfterBlock(d3, Bare("b", "a"));
    AddBare(d4, Bare("c", "s"), {"r", "a", "s", "b"}, ["r", "a", "b"]);
    assert {"r", "a", "s", "b"} + {"c"} == {"r", "a", "s", "b", "c"};
    ds := ds + [d4, AfterBlock(d4, Bare("c", "s"))];
  }

  lemma ForkedTrunk(d: Tables)
    requires Grown(d, {"r", "a", "s", "b", "c"}, ["r", "a", "b"])
    requires d.blocks["c"].preHash == "s" && d.blocks["a"].height == 1
    ensures d.blocks["r"].inTrunk && d.blocks["a"].inTrunk && d.blocks["r"].height == 0
            && HasChild(d.blocks, d.root, "s")
    ensures TrunkInv(d) && Covered(d, "a")
  {
    assert TreeNode(d.blocks, d.root, "r");
    LeavesCover(d, "a");
  }

  /** After these calls, all of them accepted, truncating to r leaves s, which is higher than r. */
  lemma TwiceTruncatedKeepsOrphan() returns (ds: seq<Tables>)
    ensures Run(ds, Calls())
    ensures var d := ds[6];
            && TrunkInv(d) && BranchesSound(d) && "r" in d.blocks && d.blocks["r"].inTrunk && !Covered(d, "r")
            && "s" in AfterTruncate(d, "r").blocks
            && AfterTruncate(d, "r").blocks["s"].height > AfterTruncate(d, "r").trunkHeight
  {
    hide TrunkInv, LeafInv, AfterTruncate, Path, Covered;
    ds := Forked();
    var d := ds[5];
    ForkedTrunk(d);
    TruncateTwiceLeavesOrphan(d, "a", "r", "s");
    ds := ds + [AfterTruncate(d, "a")];
    forall i | 0 <= i < 6
      ensures Step(ds[i], Calls()[i], ds[i + 1])
    {
      if i == 5 {
        assert Calls()[5] == Truncate("a");
      }
    }
  }
}
