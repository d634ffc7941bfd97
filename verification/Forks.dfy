/** A fork that carries a transaction of the branch it replaces: the block that switches the trunk is
    accepted, and the transaction is attributed to it. */
module Forks {
  import opened Types
  import opened Chain
  import opened Tables
  import opened Branches

  const PAYMENT := Tx("x", false, false, [], [])

  function Carrying(id: BlockId, preHash: BlockId, txs: seq<Tx>): Block {
    Block(id, preHash, 0, "", txs)
  }

  /** The genesis block r; a on r with the payment; s on r, empty; b on s with the payment again. */
  function Calls(): seq<Op> {
    [Confirm(Carrying("r", "", []), true), Confirm(Carrying("a", "r", [PAYMENT]), false),
     Confirm(Carrying("s", "r", []), false), Confirm(Carrying("b", "s", [PAYMENT]), false)]
  }

  /** What is known of the tables after each block. */
  ghost predicate Grown(d: Tables, ids: set<BlockId>) {
    && d != EMPTY && Kept(d) && IndexInv(d) && NoRepeat(d) && Attributed(d)
    && d.root == "r" && d.blocks.Keys == ids
    && (forall x | x in d.confirmed :: x == "x" && d.confirmed[x].tx == PAYMENT && d.confirmed[x].blockId in ids)
  }

  /** Two blocks up to height 1 that are not the same meet in the root. */
  lemma RootIsLowest(t: Blocks, root: BlockId, a: BlockId, b: BlockId)
    requires IsTree(t, root) && a in t && b in t && t[a].height <= 1 && t[b].height <= 1 && (a != b || a == root)
    ensures IsLowestCommonAncestor(t, root, a, b, root)
  {
    PathPrefix(t, root, a, 0);
    PathPrefix(t, root, b, 0);
    assert TreeNode(t, root, Path(t, root, a)[0]) && TreeNode(t, root, Path(t, root, b)[0]);
    SplitIsLowest(t, root, a, b, root);
  }

  /** A block up to height 1 has itself and the root on its chain. */
  lemma ShortChain(t: Blocks, root: BlockId, id: BlockId)
    requires IsTree(t, root) && id in t && t[id].height <= 1
    ensures forall a | OnPath(t, root, a, id) :: a == root || a == id
  {
    assert TreeNode(t, root, id);
    if id != root {
      assert TreeNode(t, root, t[id].preHash);
    }
  }

  /** A low block, with the payment or empty, that repeats nothing below it is confirmed. */
  ghost predicate Fits(d: Tables, b: Block) {
    && b.id != "" && b.id !in d.blocks && b.preHash in d.blocks && "r" in d.blocks
    && d.blocks[b.preHash].height <= 1 && d.trunkHeight <= 1 && (b.preHash != d.tip || d.tip == "r")
    && (b.txs == [] || (b.txs == [PAYMENT] && "x" !in d.blocks["r"].txids && "x" !in d.blocks[b.preHash].txids))
  }

  lemma AddBlockOn(d: Tables, b: Block, ids: set<BlockId>)
    requires Grown(d, ids) && Fits(d, b)
    ensures Step(d, Confirm(b, false), AfterBlock(d, b)) && Grown(AfterBlock(d, b), ids + {b.id})
  {
    hide Path, MarkedFor, BranchesSound, Recorded, Base, CoinbaseCount, Accepts, IndexInv, NoRepeat, TxsStored;
    hide Attributed, IsTree;
    Acceptable(d, b, ids);
    ConfirmKeeps(d, b, false);
    AfterBlockIndex(d, b);
    AfterBlockAttributed(d, b);
    OnlyPayments(d, b, ids);
  }

  lemma Acceptable(d: Tables, b: Block, ids: set<BlockId>)
    requires Grown(d, ids) && Fits(d, b)
    ensures Accepts(d, b, false) && !Repeats(d, b) && Incoming(d, b) && Identified(d, b)
  {
    hide Path, MarkedFor, BranchesSound, IndexInv, NoRepeat, TxsStored, Accepts, Attributed;
    ShortChain(d.blocks, d.root, b.preHash);
    RootIsLowest(d.blocks, d.root, d.tip, b.preHash);
    ShortChain(d.blocks, d.root, d.root);
    AcceptsIff(d, b, d.root);
  }

  /** What the new block and the old ones look like afterwards. */
  lemma Added(d: Tables, b: Block, id: BlockId)
    requires TrunkInv(d) && b.preHash in d.blocks && b.id !in d.blocks && id in d.blocks
    ensures var d2, h := AfterBlock(d, b), d.blocks[b.preHash].height + 1;
            && b.id in d2.blocks && d2.blocks[b.id].height == h && d2.blocks[b.id].txids == TxIds(b.txs)
            && d2.blocks[b.id].inTrunk == (h > d.trunkHeight)
            && id in d2.blocks
            && d2.blocks[id].height == d.blocks[id].height && d2.blocks[id].txids == d.blocks[id].txids
            && d2.tip == (if h > d.trunkHeight then b.id else d.tip)
            && d2.trunkHeight == (if h > d.trunkHeight then h else d.trunkHeight)
  {
    hide Path, MarkedFor, Recorded, Base, IsTree;
  }

  lemma OnlyPayments(d: Tables, b: Block, ids: set<BlockId>)
    requires Grown(d, ids) && b.preHash in ids && (b.txs == [] || b.txs == [PAYMENT])
    ensures var c := AfterBlock(d, b).confirmed;
            forall x | x in c :: x == "x" && c[x].tx == PAYMENT && c[x].blockId in ids + {b.id}
  {
    hide Path, Recorded, IndexInv, NoRepeat, Attributed, MarkedFor, TxsStored, IsTree;
    var c := AfterBlock(d, b).confirmed;
    forall x | x in c
      ensures x == "x" && c[x].tx == PAYMENT && c[x].blockId in ids + {b.id}
    {
      RecordedAt(d, Base(d, b), b, JoinsTrunk(d, b), |b.txs|, x);
      if x in d.confirmed && SwitchesTrunk(d, b) {
        CorrectAllAt(d, SideBranch(d, b), x);
        CorrectAllHeld(d, SideBranch(d, b), x);
      }
    }
  }

  lemma RootGrown()
    ensures Step(EMPTY, Confirm(Carrying("r", "", []), true), AfterRoot(Carrying("r", "", [])))
    ensures Grown(AfterRoot(Carrying("r", "", [])), {"r"})
  {
    hide Path, MarkedFor;
    ConfirmKeeps(EMPTY, Carrying("r", "", []), true);
    AfterRootIndex(Carrying("r", "", []));
  }

  /** The trunk block at a height is the one on the tip's chain. */
  lemma OffTrunk(d: Tables, a: BlockId, pre: BlockId)
    requires TrunkInv(d) && a in d.blocks && d.blocks[a].height == 1 && d.trunkHeight == 2
    requires pre in d.blocks && d.blocks[d.tip].preHash == pre && a != pre && d.tip != d.root
    ensures !d.blocks[a].inTrunk
  {
    PathLinked(d.blocks, d.root, d.tip, 2);
  }

  lemma FirstTwo() returns (d1: Tables, d2: Tables)
    ensures Step(EMPTY, Calls()[0], d1) && Step(d1, Calls()[1], d2) && Grown(d2, {"r", "a"})
    ensures d2.tip == "a" && d2.trunkHeight == 1 && d2.blocks["r"].height == 0 && d2.blocks["a"].height == 1
    ensures d2.blocks["a"].inTrunk && d2.blocks["a"].txids == ["x"] && d2.blocks["r"].txids == []
  {
    hide Grown, Step, AfterBlock;
    RootGrown();
    d1 := AfterRoot(Carrying("r", "", []));
    var a := Carrying("a", "r", [PAYMENT]);
    assert Grown(d1, {"r"}) && d1.blocks["r"].txids == [];
    AddBlockOn(d1, a, {"r"});
    GrownParts(d1, {"r"});
    Added(d1, a, "r");
    d2 := AfterBlock(d1, a);
    assert TxIds([PAYMENT]) == ["x"];
    assert {"r"} + {"a"} == {"r", "a"};
  }

  lemma GrownParts(d: Tables, ids: set<BlockId>)
    requires Grown(d, ids)
    ensures TrunkInv(d) && d.blocks.Keys == ids && IndexInv(d) && d.root == "r"
  {
  }

  /** All four blocks are accepted; in the end b is the tip, a is off the trunk, and the payment is b's. */
  lemma ReplacedBranchRepeats() returns (ds: seq<Tables>)
    ensures Run(ds, Calls())
    ensures ds[2].tip == "a" && "x" in ds[2].confirmed && ds[2].confirmed["x"].blockId == "a"
    ensures var d := ds[4];
            && d.tip == "b" && "a" in d.blocks && !d.blocks["a"].inTrunk
            && "x" in d.confirmed && d.confirmed["x"].blockId == "b"
  {
    hide Grown, Step, AfterBlock, TrunkInv;
    var d1, d2 := FirstTwo();
    var s, b := Carrying("s", "r", []), Carrying("b", "s", [PAYMENT]);
    GrownParts(d2, {"r", "a"});
    AddBlockOn(d2, s, {"r", "a"});
    Added(d2, s, "r");
    Added(d2, s, "a");
    var d3 := AfterBlock(d2, s);
    assert {"r", "a"} + {"s"} == {"r", "a", "s"};
    GrownParts(d3, {"r", "a", "s"});
    AddBlockOn(d3, b, {"r", "a", "s"});
    Added(d3, b, "a");
    Added(d3, b, "s");
    var d4 := AfterBlock(d3, b);
    GrownParts(d4, {"r", "a", "s"} + {"b"});
    assert TxIds([PAYMENT])[0] == "x";
    assert d4.blocks["b"].preHash == "s" by {
      BlockAbove(d3, b);
    }
    OffTrunk(d4, "a", "s");
    ds := [EMPTY, d1, d2, d3, d4];
  }

  lemma BlockAbove(d: Tables, b: Block)
    requires TrunkInv(d) && b.preHash in d.blocks
    ensures AfterBlock(d, b).blocks[b.id].preHash == b.preHash
  {
    hide Path, MarkedFor, Recorded, Base, IsTree;
  }
}
