/** The persisted tables of the ledger, their invariants, and what confirming a block does to
    them: a from-scratch definition that the incremental code of Ledger.dfy is proved to refine. */
module Tables {
  import opened Types
  import opened Chain

  /** An entry of the confirmed table: a transaction and the block it is attributed to. */
  datatype ConfirmedTx = ConfirmedTx(tx: Tx, blockId: BlockId)

  type Confirmed = map<TxId, ConfirmedTx>

  datatype Tables = Tables(
    blocks: Blocks,
    heights: map<nat, BlockId>,
    confirmed: Confirmed,
    branches: map<BlockId, nat>,
    root: BlockId,
    tip: BlockId,
    trunkHeight: nat)

  const EMPTY := Tables(map[], map[], map[], map[], "", "", 0)

  // ---------------------------------------------------------------- trunk

  /** InTrunk and NextHash are those of the chain c, which ends in tip. The tip's own nextHash is
      left open: truncation leaves it pointing at the block it removed. */
  ghost predicate MarkedFor(t: Blocks, tip: BlockId, c: seq<BlockId>) {
    forall id | id in t ::
      && t[id].height < |c|
      && (t[id].inTrunk <==> c[t[id].height] == id)
      && (t[id].inTrunk && id != tip ==> t[id].height + 1 < |c| && t[id].nextHash == c[t[id].height + 1])
      && (!t[id].inTrunk ==> t[id].nextHash == "")
  }

  /** The trunk marks of t are those of the chain from the root to tip. */
  ghost predicate Marked(t: Blocks, root: BlockId, tip: BlockId)
    requires IsTree(t, root) && tip in t
  {
    MarkedFor(t, tip, Path(t, root, tip))
  }

  function HeightIndex(c: seq<BlockId>): map<nat, BlockId> {
    map h: nat | h < |c| :: c[h]
  }

  /** The tables describe a tree whose highest block is the tip, and InTrunk, NextHash and the
      height table are exactly those of the root-to-tip chain. */
  ghost predicate TrunkInv(d: Tables) {
    && IsTree(d.blocks, d.root)
    && d.tip in d.blocks
    && d.trunkHeight == d.blocks[d.tip].height
    && Marked(d.blocks, d.root, d.tip)
    && d.heights == HeightIndex(Path(d.blocks, d.root, d.tip))
  }

  /** Every transaction of a stored block is in the confirmed table under its own id. */
  ghost predicate TxsStored(d: Tables) {
    && (forall id, x | id in d.blocks && x in d.blocks[id].txids :: x in d.confirmed)
    && (forall x | x in d.confirmed :: d.confirmed[x].tx.txid == x)
  }

  ghost predicate Valid(d: Tables) {
    d == EMPTY || (TrunkInv(d) && TxsStored(d))
  }

  /** The trunk marks of t set from scratch for the chain c, whose last element is not in t yet. */
  function Remark(t: Blocks, c: seq<BlockId>): Blocks {
    map id | id in t ::
      if 0 <= t[id].height < |c| - 1 && c[t[id].height] == id
      then t[id].(inTrunk := true, nextHash := c[t[id].height + 1])
      else t[id].(inTrunk := false, nextHash := "")
  }

  /** The block where the lockstep walk down from two blocks of equal height meets. */
  ghost function Meet(t: Blocks, root: BlockId, a: BlockId, b: BlockId): (m: BlockId)
    requires IsTree(t, root) && a in t && b in t && t[a].height == t[b].height
    ensures m in t && t[m].height <= t[a].height
    decreases t[a].height
  {
    if a == b then a
    else
      assert TreeNode(t, root, a) && TreeNode(t, root, b);
      Meet(t, root, t[a].preHash, t[b].preHash)
  }

  /** The lockstep walk ends at the lowest common ancestor, and above it the chains are disjoint. */
  lemma {:induction false} MeetIsLowest(t: Blocks, root: BlockId, a: BlockId, b: BlockId)
    requires IsTree(t, root) && a in t && b in t && t[a].height == t[b].height
    ensures IsLowestCommonAncestor(t, root, a, b, Meet(t, root, a, b))
    ensures forall h | t[Meet(t, root, a, b)].height < h <= t[a].height ::
              Path(t, root, a)[h] != Path(t, root, b)[h]
    decreases t[a].height
  {
    var m := Meet(t, root, a, b);
    if a != b {
      assert TreeNode(t, root, a) && TreeNode(t, root, b);
      MeetIsLowest(t, root, t[a].preHash, t[b].preHash);
      assert Path(t, root, a) == Path(t, root, t[a].preHash) + [a];
      assert Path(t, root, b) == Path(t, root, t[b].preHash) + [b];
    }
    SplitIsLowest(t, root, a, b, m);
  }

  // ---------------------------------------------------------------- confirming a block

  ghost predicate ExtendsTip(d: Tables, b: Block) {
    b.preHash in d.blocks && b.preHash == d.tip
  }

  /** The block goes on a side branch that thereby becomes longer than the trunk. */
  ghost predicate SwitchesTrunk(d: Tables, b: Block) {
    b.preHash in d.blocks && b.preHash != d.tip && d.blocks[b.preHash].height + 1 > d.trunkHeight
  }

  ghost predicate JoinsTrunk(d: Tables, b: Block) {
    ExtendsTip(d, b) || SwitchesTrunk(d, b)
  }

  lemma SwitchAtTrunkHeight(d: Tables, b: Block)
    requires TrunkInv(d) && SwitchesTrunk(d, b)
    ensures d.blocks[b.preHash].height == d.trunkHeight
  {
  }

  /** The highest trunk block that stays in the trunk. */
  ghost function SplitBlock(d: Tables, b: Block): (m: BlockId)
    requires TrunkInv(d) && JoinsTrunk(d, b)
    ensures m in d.blocks && d.blocks[m].height <= d.trunkHeight
  {
    Meet(d.blocks, d.root, d.tip, b.preHash)
  }

  /** The blocks that enter the trunk in a switch, tip first. */
  ghost function SideBranch(d: Tables, b: Block): (s: seq<BlockId>)
    requires TrunkInv(d) && JoinsTrunk(d, b)
    ensures forall i | 0 <= i < |s| :: s[i] in d.blocks
  {
    Branch(d.blocks, d.root, b.preHash, d.blocks[SplitBlock(d, b)].height)
  }

  /** conf with every transaction of block id attributed to it; the test reads the table itself. */
  ghost function Correct(d: Tables, conf: Confirmed, id: BlockId): (r: Confirmed)
    requires id in d.blocks
    ensures r.Keys == conf.Keys
  {
    map x | x in conf ::
      if x in d.blocks[id].txids && x in d.confirmed && d.confirmed[x].blockId != id
      then ConfirmedTx(d.confirmed[x].tx, id) else conf[x]
  }

  ghost function CorrectAll(d: Tables, ids: seq<BlockId>): (r: Confirmed)
    requires forall i | 0 <= i < |ids| :: ids[i] in d.blocks
    ensures r.Keys == d.confirmed.Keys
  {
    if ids == [] then d.confirmed
    else Correct(d, CorrectAll(d, ids[..|ids| - 1]), ids[|ids| - 1])
  }

  /** The confirmed table that the transactions of b are recorded over. */
  ghost function Base(d: Tables, b: Block): Confirmed
    requires TrunkInv(d)
  {
    if SwitchesTrunk(d, b) then CorrectAll(d, SideBranch(d, b)) else d.confirmed
  }

  /** Transaction x of a block confirmed now is (re)attributed to that block. */
  predicate Writes(d: Tables, inTrunk: bool, x: TxId) {
    x !in d.confirmed || d.confirmed[x].blockId !in d.blocks || inTrunk
  }

  /** Transaction x is already held by a trunk block that stays in the trunk. */
  predicate Duplicated(d: Tables, inTrunk: bool, splitHeight: nat, x: TxId) {
    && x in d.confirmed
    && d.confirmed[x].blockId in d.blocks
    && d.blocks[d.confirmed[x].blockId].inTrunk
    && inTrunk
    && d.blocks[d.confirmed[x].blockId].height <= splitHeight
  }

  /** The confirmed table after the first n transactions of block b have been recorded over base. */
  function Recorded(d: Tables, base: Confirmed, b: Block, inTrunk: bool, n: nat): (r: Confirmed)
    requires n <= |b.txs|
  {
    if n == 0 then base
    else
      var prev := Recorded(d, base, b, inTrunk, n - 1);
      var tx := b.txs[n - 1];
      if Writes(d, inTrunk, tx.txid) then prev[tx.txid := ConfirmedTx(tx, b.id)] else prev
  }

  function CoinbaseCount(txs: seq<Tx>): nat {
    if txs == [] then 0
    else CoinbaseCount(txs[..|txs| - 1]) + (if txs[|txs| - 1].coinbase then 1 else 0)
  }

  /** The height up to which a repeated transaction is refused. */
  ghost function SplitHeight(d: Tables, b: Block): nat
    requires TrunkInv(d)
  {
    if SwitchesTrunk(d, b) then d.blocks[SplitBlock(d, b)].height else d.trunkHeight
  }

  /** ConfirmBlock writes its batch exactly for these blocks. */
  ghost predicate Accepts(d: Tables, b: Block, isRoot: bool)
    requires Valid(d)
  {
    && CoinbaseCount(b.txs) <= 1
    && if isRoot then b.preHash == "" && d == EMPTY
       else
         && d != EMPTY
         && b.preHash in d.blocks
         && forall i | 0 <= i < |b.txs| :: !Duplicated(d, JoinsTrunk(d, b), SplitHeight(d, b), b.txs[i].txid)
  }

  /** The tables after a genesis block. */
  ghost function AfterRoot(b: Block): Tables {
    Tables(
      map[b.id := Header(b.id, "", "", 0, true, b.proposer, TxIds(b.txs))],
      map[0 := b.id],
      Recorded(EMPTY, map[], b, true, |b.txs|),
      map[b.id := 0],
      b.id, b.id, 0)
  }

  /** The tables after a later block: the trunk marks and the height table are those of the new
      chain, set from scratch, whenever the block joins the trunk. */
  ghost function AfterBlock(d: Tables, b: Block): Tables
    requires TrunkInv(d) && b.preHash in d.blocks
  {
    var height := d.blocks[b.preHash].height + 1;
    var joins := JoinsTrunk(d, b);
    var header := Header(b.id, b.preHash, "", height, joins, b.proposer, TxIds(b.txs));
    var base := Base(d, b);
    var chain := Path(d.blocks, d.root, b.preHash) + [b.id];
    Tables(
      (if joins then Remark(d.blocks, chain) else d.blocks)[b.id := header],
      if joins then HeightIndex(chain) else d.heights,
      Recorded(d, base, b, joins, |b.txs|),
      (d.branches - {b.preHash})[b.id := height],
      d.root,
      if joins then b.id else d.tip,
      if joins then height else d.trunkHeight)
  }

  ghost function AfterConfirm(d: Tables, b: Block, isRoot: bool): Tables
    requires Valid(d) && Accepts(d, b, isRoot)
  {
    if isRoot then AfterRoot(b) else AfterBlock(d, b)
  }

  /** What the callers of ConfirmBlock guarantee: the block id is a fresh hash and a transaction
      id determines its transaction. */
  ghost predicate Incoming(d: Tables, b: Block) {
    && b.id != "" && b.id !in d.blocks
    && (forall i | 0 <= i < |b.txs| && b.txs[i].txid in d.confirmed ::
          d.confirmed[b.txs[i].txid].tx == b.txs[i])
    && (forall i, j | 0 <= i < |b.txs| && 0 <= j < |b.txs| && b.txs[i].txid == b.txs[j].txid ::
          b.txs[i] == b.txs[j])
  }

  // ---------------------------------------------------------------- the trunk survives

  lemma AfterRootTrunk(b: Block)
    requires b.id != ""
    ensures TrunkInv(AfterRoot(b))
  {
  }

  /** Adding a block above a stored one gives a tree in which its chain is one longer. */
  lemma AddBlock(t: Blocks, t2: Blocks, root: BlockId, h: Header)
    requires IsTree(t, root) && Extends(t, t2)
    requires t2.Keys == t.Keys + {h.id} && t2[h.id] == h && h.id !in t && h.id != ""
    requires forall id | id in t :: t2[id].id == id
    requires h.preHash in t && h.height == t[h.preHash].height + 1
    ensures IsTree(t2, root)
    ensures Path(t2, root, h.id) == Path(t, root, h.preHash) + [h.id]
  {
    forall id | id in t2
      ensures TreeNode(t2, root, id)
    {
      assert id in t ==> TreeNode(t, root, id);
    }
    PathFrame(t, t2, root, h.preHash);
  }

  /** Re-marking for a longer chain gives the marks of that chain. */
  lemma RemarkMarked(t: Blocks, root: BlockId, h: Header)
    requires IsTree(t, root) && h.id !in t && h.id != "" && h.preHash in t
    requires h.height == t[h.preHash].height + 1 && h.inTrunk && h.nextHash == ""
    requires forall id | id in t :: t[id].height < h.height
    ensures var c := Path(t, root, h.preHash) + [h.id];
            var t2 := Remark(t, c)[h.id := h];
            IsTree(t2, root) && Path(t2, root, h.id) == c && Marked(t2, root, h.id)
  {
    var c := Path(t, root, h.preHash) + [h.id];
    var t2 := Remark(t, c)[h.id := h];
    AddBlock(t, t2, root, h);
    assert forall id | id in t :: t2[id] == Remark(t, c)[id];
  }

  /** A side block leaves the marks as they are. */
  lemma SideBlockMarked(t: Blocks, root: BlockId, tip: BlockId, h: Header)
    requires IsTree(t, root) && tip in t && Marked(t, root, tip)
    requires h.id !in t && h.id != "" && h.preHash in t
    requires t[h.preHash].height + 1 == h.height <= t[tip].height && !h.inTrunk && h.nextHash == ""
    ensures var t2 := t[h.id := h];
            && IsTree(t2, root)
            && Path(t2, root, tip) == Path(t, root, tip)
            && Path(t2, root, h.id) == Path(t, root, h.preHash) + [h.id]
            && Marked(t2, root, tip)
  {
    var t2 := t[h.id := h];
    AddBlock(t, t2, root, h);
    PathFrame(t, t2, root, tip);
    PathPrefix(t, root, tip, h.height);
  }

  lemma AfterBlockTrunk(d: Tables, b: Block)
    requires TrunkInv(d) && b.preHash in d.blocks && b.id != "" && b.id !in d.blocks
    ensures TrunkInv(AfterBlock(d, b)) && IsTree(AfterBlock(d, b).blocks, d.root)
    ensures Extends(d.blocks, AfterBlock(d, b).blocks)
    ensures Path(AfterBlock(d, b).blocks, d.root, b.id) == Path(d.blocks, d.root, b.preHash) + [b.id]
  {
    hide Path, Marked, Base, Recorded;
    var h := AfterBlock(d, b).blocks[b.id];
    if JoinsTrunk(d, b) {
      AllBelow(d, b);
      RemarkMarked(d.blocks, d.root, h);
    } else {
      SideBlockMarked(d.blocks, d.root, d.tip, h);
    }
  }

  /** A block that joins the trunk is higher than all others. */
  lemma AllBelow(d: Tables, b: Block)
    requires TrunkInv(d) && JoinsTrunk(d, b)
    ensures forall id | id in d.blocks :: d.blocks[id].height < d.blocks[b.preHash].height + 1
  {
  }

  // ---------------------------------------------------------------- the confirmed table

  lemma {:induction false} CorrectAllAt(d: Tables, ids: seq<BlockId>, x: TxId)
    requires forall i | 0 <= i < |ids| :: ids[i] in d.blocks
    requires x in d.confirmed
    ensures CorrectAll(d, ids)[x].tx == d.confirmed[x].tx
    ensures (forall i | 0 <= i < |ids| :: x !in d.blocks[ids[i]].txids) ==>
              CorrectAll(d, ids)[x] == d.confirmed[x]
    ensures forall k | 0 <= k < |ids| && x in d.blocks[ids[k]].txids
                       && (forall i | 0 <= i < |ids| && i != k :: x !in d.blocks[ids[i]].txids) ::
              CorrectAll(d, ids)[x].blockId == ids[k]
    decreases |ids|
  {
    if ids != [] {
      var front := ids[..|ids| - 1];
      CorrectAllAt(d, front, x);
      assert forall i | 0 <= i < |front| :: front[i] == ids[i];
      forall k | 0 <= k < |ids| && x in d.blocks[ids[k]].txids
                 && (forall i | 0 <= i < |ids| && i != k :: x !in d.blocks[ids[i]].txids)
        ensures CorrectAll(d, ids)[x].blockId == ids[k]
      {
        if k < |front| {
          assert x !in d.blocks[ids[|ids| - 1]].txids;
          assert x in d.blocks[front[k]].txids;
        }
      }
    }
  }

  lemma {:induction false} RecordedAt(d: Tables, base: Confirmed, b: Block, inTrunk: bool, n: nat, x: TxId)
    requires n <= |b.txs|
    ensures x in Recorded(d, base, b, inTrunk, n) <==>
              x in base || exists i | 0 <= i < n :: b.txs[i].txid == x && Writes(d, inTrunk, x)
    ensures (forall i | 0 <= i < n :: b.txs[i].txid != x || !Writes(d, inTrunk, x)) && x in base ==>
              Recorded(d, base, b, inTrunk, n)[x] == base[x]
    ensures forall i | 0 <= i < n && b.txs[i].txid == x && Writes(d, inTrunk, x) ::
              && Recorded(d, base, b, inTrunk, n)[x].blockId == b.id
              && exists j :: 0 <= j < n && b.txs[j].txid == x && Recorded(d, base, b, inTrunk, n)[x].tx == b.txs[j]
    decreases n
  {
    if n > 0 {
      RecordedAt(d, base, b, inTrunk, n - 1, x);
    }
  }

  /** Confirming a block never changes the transaction stored under an id, and stores all of the
      block's own transactions. */
  lemma AfterConfirmTxs(d: Tables, b: Block, isRoot: bool)
    requires Valid(d) && Accepts(d, b, isRoot) && Incoming(d, b)
    ensures TxsStored(AfterConfirm(d, b, isRoot))
    ensures forall x | x in d.confirmed ::
              x in AfterConfirm(d, b, isRoot).confirmed
              && AfterConfirm(d, b, isRoot).confirmed[x].tx == d.confirmed[x].tx
    ensures forall i | 0 <= i < |b.txs| ::
              b.txs[i].txid in AfterConfirm(d, b, isRoot).confirmed
              && AfterConfirm(d, b, isRoot).confirmed[b.txs[i].txid].tx == b.txs[i]
  {
    hide TrunkInv;
    var d2 := AfterConfirm(d, b, isRoot);
    var joins := isRoot || JoinsTrunk(d, b);
    var base := if isRoot then d.confirmed else Base(d, b);
    assert d2.confirmed == Recorded(d, base, b, joins, |b.txs|);
    forall x | x in d.confirmed
      ensures x in d2.confirmed && d2.confirmed[x].tx == d.confirmed[x].tx
    {
      RecordedAt(d, base, b, joins, |b.txs|, x);
      if !isRoot && SwitchesTrunk(d, b) {
        CorrectAllAt(d, SideBranch(d, b), x);
      }
    }
    forall i | 0 <= i < |b.txs|
      ensures b.txs[i].txid in d2.confirmed && d2.confirmed[b.txs[i].txid].tx == b.txs[i]
    {
      RecordedAt(d, base, b, joins, |b.txs|, b.txs[i].txid);
    }
    forall x | x in d2.confirmed
      ensures d2.confirmed[x].tx.txid == x
    {
      RecordedAt(d, base, b, joins, |b.txs|, x);
    }
    forall id, x | id in d2.blocks && x in d2.blocks[id].txids
      ensures x in d2.confirmed
    {
      if id == b.id {
        var i :| 0 <= i < |b.txs| && TxIds(b.txs)[i] == x;
        assert b.txs[i].txid == x;
      }
    }
  }

  /** The tables stay valid through every accepted block. */
  lemma AfterConfirmValid(d: Tables, b: Block, isRoot: bool)
    requires Valid(d) && Accepts(d, b, isRoot) && Incoming(d, b)
    ensures TrunkInv(AfterConfirm(d, b, isRoot)) && TxsStored(AfterConfirm(d, b, isRoot))
  {
    AfterConfirmTxs(d, b, isRoot);
    if isRoot {
      AfterRootTrunk(b);
    } else {
      AfterBlockTrunk(d, b);
    }
  }

  // ---------------------------------------------------------------- block bodies

  function TxsOf(confirmed: Confirmed, txids: seq<TxId>): (txs: seq<Tx>)
    requires forall i | 0 <= i < |txids| :: txids[i] in confirmed
    ensures |txs| == |txids|
  {
    seq(|txids|, i requires 0 <= i < |txids| => confirmed[txids[i]].tx)
  }

  /** A stored block with its transactions. */
  function BlockOf(d: Tables, id: BlockId): (b: Block)
    requires id in d.blocks
    requires forall i | 0 <= i < |d.blocks[id].txids| :: d.blocks[id].txids[i] in d.confirmed
  {
    var h := d.blocks[id];
    Block(id, h.preHash, h.height, h.proposer, TxsOf(d.confirmed, h.txids))
  }

  /** The body of a stored block never changes. */
  lemma AfterConfirmBodies(d: Tables, b: Block, isRoot: bool, id: BlockId)
    requires Valid(d) && Accepts(d, b, isRoot) && Incoming(d, b) && id in d.blocks
    ensures TxsStored(AfterConfirm(d, b, isRoot)) && id in AfterConfirm(d, b, isRoot).blocks
    ensures BlockOf(AfterConfirm(d, b, isRoot), id) == BlockOf(d, id)
  {
    hide TrunkInv;
    AfterConfirmTxs(d, b, isRoot);
    var d2 := AfterConfirm(d, b, isRoot);
    var txids := d.blocks[id].txids;
    assert d2.blocks[id].txids == txids;
    assert forall i | 0 <= i < |txids| ::
             txids[i] in d.confirmed && d2.confirmed[txids[i]].tx == d.confirmed[txids[i]].tx;
    assert TxsOf(d2.confirmed, txids) == TxsOf(d.confirmed, txids);
  }

  /** A confirmed block reads back as it came in, at its height. */
  lemma ConfirmedReadsBack(d: Tables, b: Block)
    requires Valid(d) && Accepts(d, b, false) && Incoming(d, b)
    ensures TxsStored(AfterBlock(d, b))
    ensures BlockOf(AfterBlock(d, b), b.id) == b.(height := d.blocks[b.preHash].height + 1)
  {
    AfterConfirmTxs(d, b, false);
    var d2 := AfterBlock(d, b);
    assert TxsOf(d2.confirmed, TxIds(b.txs)) == b.txs;
  }

  // ---------------------------------------------------------------- the transaction index

  /** The confirmed table attributes every trunk transaction to the trunk block holding it.
      In particular no transaction lies in two trunk blocks. */
  ghost predicate IndexInv(d: Tables) {
    forall id, x | id in d.blocks && d.blocks[id].inTrunk && x in d.blocks[id].txids ::
      x in d.confirmed && d.confirmed[x].blockId == id
  }

  /** No stored block repeats a transaction of one of its ancestors. */
  ghost predicate NoRepeat(d: Tables)
    requires IsTree(d.blocks, d.root)
  {
    forall id, a, x | id in d.blocks && a != id && OnPath(d.blocks, d.root, a, id)
                      && x in d.blocks[a].txids :: x !in d.blocks[id].txids
  }

  /** The incoming block repeats a transaction of an ancestor-to-be. */
  ghost predicate Repeats(d: Tables, b: Block)
    requires IsTree(d.blocks, d.root) && b.preHash in d.blocks
  {
    exists a, i :: OnPath(d.blocks, d.root, a, b.preHash) && 0 <= i < |b.txs| && b.txs[i].txid in d.blocks[a].txids
  }

  lemma TrunkTransactionsDistinct(d: Tables, a: BlockId, b: BlockId, x: TxId)
    requires IndexInv(d)
    requires a in d.blocks && d.blocks[a].inTrunk && x in d.blocks[a].txids
    requires b in d.blocks && d.blocks[b].inTrunk && x in d.blocks[b].txids
    ensures a == b
  {
    assert d.confirmed[x].blockId == a;
    assert d.confirmed[x].blockId == b;
  }

  /** A block accepted on the tip repeats nothing of the trunk: the duplicate test sees to it. */
  lemma TipBlockDoesNotRepeat(d: Tables, b: Block)
    requires d != EMPTY && Valid(d) && IndexInv(d) && Accepts(d, b, false) && ExtendsTip(d, b)
    ensures !Repeats(d, b)
  {
  }

  /** The ancestors of b, once confirmed, are those of its previous block, and every older block
      keeps its ancestors and its transactions. */
  lemma AncestorsAfterBlock(d: Tables, b: Block, id: BlockId, a: BlockId)
    requires TrunkInv(d) && b.preHash in d.blocks && b.id != "" && b.id !in d.blocks
    requires id in AfterBlock(d, b).blocks && a != id
    requires IsTree(AfterBlock(d, b).blocks, d.root) && OnPath(AfterBlock(d, b).blocks, d.root, a, id)
    ensures a in d.blocks && AfterBlock(d, b).blocks[a].txids == d.blocks[a].txids
    ensures OnPath(d.blocks, d.root, a, if id == b.id then b.preHash else id)
  {
    hide Path;
    var t2 := AfterBlock(d, b).blocks;
    var pre := if id == b.id then b.preHash else id;
    AfterBlockTrunk(d, b);
    PathFrame(d.blocks, t2, d.root, pre);
    PathPrefix(d.blocks, d.root, pre, t2[a].height);
  }

  lemma AfterBlockNoRepeat(d: Tables, b: Block)
    requires TrunkInv(d) && NoRepeat(d) && b.preHash in d.blocks && b.id != "" && b.id !in d.blocks
    requires !Repeats(d, b)
    ensures IsTree(AfterBlock(d, b).blocks, d.root)
    ensures NoRepeat(AfterBlock(d, b))
  {
    hide Base, TrunkInv, Recorded, Path, IsTree;
    var d2 := AfterBlock(d, b);
    AfterBlockTrunk(d, b);
    forall id, a, x | id in d2.blocks && a != id && OnPath(d2.blocks, d2.root, a, id) && x in d2.blocks[a].txids
      ensures x !in d2.blocks[id].txids
    {
      AncestorsAfterBlock(d, b, id, a);
    }
  }

  /** The chain of b below b itself, cut at the split block: trunk blocks up to it, the side
      branch above it. */
  lemma SideBranchAt(d: Tables, b: Block, a: BlockId)
    requires TrunkInv(d) && SwitchesTrunk(d, b) && OnPath(d.blocks, d.root, a, b.preHash)
    ensures var s := d.blocks[SplitBlock(d, b)].height; var h := d.blocks[a].height;
            if h <= s then d.blocks[a].inTrunk
            else SideBranch(d, b)[d.trunkHeight - h] == a
  {
    SwitchAtTrunkHeight(d, b);
    MeetIsLowest(d.blocks, d.root, d.tip, b.preHash);
    var m := SplitBlock(d, b);
    if d.blocks[a].height <= d.blocks[m].height {
      PathsAgree(d.blocks, d.root, d.tip, b.preHash, d.blocks[m].height);
      assert Path(d.blocks, d.root, d.tip)[d.blocks[a].height]
          == Path(d.blocks, d.root, d.tip)[..d.blocks[m].height + 1][d.blocks[a].height];
    }
  }

  lemma SideBranchOnPath(d: Tables, b: Block, i: nat)
    requires TrunkInv(d) && SwitchesTrunk(d, b) && i < |SideBranch(d, b)|
    ensures var a := SideBranch(d, b)[i];
            && OnPath(d.blocks, d.root, a, b.preHash)
            && d.blocks[SplitBlock(d, b)].height < d.blocks[a].height == d.trunkHeight - i
  {
  }

  /** Two blocks of one chain share no transaction. */
  lemma ChainDisjoint(d: Tables, id: BlockId, a: BlockId, c: BlockId, x: TxId)
    requires TrunkInv(d) && NoRepeat(d) && id in d.blocks
    requires OnPath(d.blocks, d.root, a, id) && OnPath(d.blocks, d.root, c, id) && a != c
    requires x in d.blocks[a].txids
    ensures x !in d.blocks[c].txids
  {
    PathPrefix(d.blocks, d.root, id, d.blocks[a].height);
    PathPrefix(d.blocks, d.root, id, d.blocks[c].height);
    if d.blocks[a].height < d.blocks[c].height {
      assert OnPath(d.blocks, d.root, a, c);
    } else {
      assert OnPath(d.blocks, d.root, c, a);
    }
  }

  /** The other blocks of the entering branch do not hold a transaction of a chain block. */
  lemma SideDisjoint(d: Tables, b: Block, a: BlockId, x: TxId)
    requires TrunkInv(d) && NoRepeat(d) && SwitchesTrunk(d, b)
    requires OnPath(d.blocks, d.root, a, b.preHash) && x in d.blocks[a].txids
    ensures var side := SideBranch(d, b);
            forall i | 0 <= i < |side| ::
              && (x in d.blocks[side[i]].txids ==> side[i] == a)
              && (side[i] == a ==> d.blocks[a].height > d.blocks[SplitBlock(d, b)].height
                                   && i == d.trunkHeight - d.blocks[a].height)
  {
    hide NoRepeat, Path, Marked;
    var side := SideBranch(d, b);
    forall i | 0 <= i < |side|
      ensures x in d.blocks[side[i]].txids ==> side[i] == a
      ensures side[i] == a ==> d.blocks[a].height > d.blocks[SplitBlock(d, b)].height
                               && i == d.trunkHeight - d.blocks[a].height
    {
      SideBranchOnPath(d, b, i);
      if side[i] != a {
        ChainDisjoint(d, b.preHash, a, side[i], x);
      }
    }
  }

  /** Attribution of a transaction of the chain that becomes the trunk, before b is recorded. */
  lemma SwitchAttribution(d: Tables, b: Block, a: BlockId, x: TxId)
    requires TrunkInv(d) && TxsStored(d) && IndexInv(d) && NoRepeat(d) && SwitchesTrunk(d, b)
    requires OnPath(d.blocks, d.root, a, b.preHash) && x in d.blocks[a].txids
    ensures x in CorrectAll(d, SideBranch(d, b)) && CorrectAll(d, SideBranch(d, b))[x].blockId == a
  {
    hide NoRepeat, Path, CorrectAll, SplitBlock, Marked;
    var side := SideBranch(d, b);
    SwitchAtTrunkHeight(d, b);
    SideBranchAt(d, b, a);
    SideDisjoint(d, b, a, x);
    CorrectAllAt(d, side, x);
    if d.blocks[a].height > d.blocks[SplitBlock(d, b)].height {
      var k := d.trunkHeight - d.blocks[a].height;
      assert x in d.blocks[side[k]].txids;
    }
  }

  /** Attribution of a transaction of any chain block other than b, in the table b is recorded over. */
  lemma BaseAttribution(d: Tables, b: Block, id: BlockId, x: TxId)
    requires d != EMPTY && Valid(d) && IndexInv(d) && NoRepeat(d)
    requires JoinsTrunk(d, b) && OnPath(d.blocks, d.root, id, b.preHash) && x in d.blocks[id].txids
    ensures x in Base(d, b) && Base(d, b)[x].blockId == id
  {
    if SwitchesTrunk(d, b) {
      SwitchAttribution(d, b, id, x);
    } else {
      assert d.blocks[id].inTrunk;
    }
  }

  /** The index follows the trunk through every accepted block, trunk switches included. */
  lemma AfterBlockIndex(d: Tables, b: Block)
    requires d != EMPTY && Valid(d) && IndexInv(d) && NoRepeat(d)
    requires Accepts(d, b, false) && Incoming(d, b)
    requires ExtendsTip(d, b) || !Repeats(d, b)
    ensures IndexInv(AfterBlock(d, b))
    ensures IsTree(AfterBlock(d, b).blocks, d.root) && NoRepeat(AfterBlock(d, b))
  {
    if ExtendsTip(d, b) {
      TipBlockDoesNotRepeat(d, b);
    }
    AfterBlockNoRepeat(d, b);
    var d2 := AfterBlock(d, b);
    forall id, x | id in d2.blocks && d2.blocks[id].inTrunk && x in d2.blocks[id].txids
      ensures x in d2.confirmed && d2.confirmed[x].blockId == id
    {
      AfterBlockAttribution(d, b, id, x);
    }
  }

  lemma AfterBlockAttribution(d: Tables, b: Block, id: BlockId, x: TxId)
    requires d != EMPTY && Valid(d) && IndexInv(d) && NoRepeat(d) && b.preHash in d.blocks && !Repeats(d, b)
    requires b.id !in d.blocks
    requires id in AfterBlock(d, b).blocks && AfterBlock(d, b).blocks[id].inTrunk
    requires x in AfterBlock(d, b).blocks[id].txids
    ensures x in AfterBlock(d, b).confirmed && AfterBlock(d, b).confirmed[x].blockId == id
  {
    var joins := JoinsTrunk(d, b);
    var base := Base(d, b);
    RecordedAt(d, base, b, joins, |b.txs|, x);
    if id == b.id {
      var i :| 0 <= i < |b.txs| && TxIds(b.txs)[i] == x;
      assert b.txs[i].txid == x && Writes(d, joins, x);
    } else if joins {
      assert OnPath(d.blocks, d.root, id, b.preHash);
      BaseAttribution(d, b, id, x);
      assert forall i | 0 <= i < |b.txs| :: b.txs[i].txid != x;
    } else {
      assert d.confirmed[x].blockId == id;
    }
  }

  // ---------------------------------------------------------------- which blocks are accepted

  /** A transaction attributed to a stored block is one of its transactions. */
  ghost predicate Attributed(d: Tables) {
    forall x | x in d.confirmed && d.confirmed[x].blockId in d.blocks :: x in d.blocks[d.confirmed[x].blockId].txids
  }

  /** If an earlier block had the id of b, it had the same transactions. */
  ghost predicate Identified(d: Tables, b: Block) {
    forall x | x in d.confirmed && d.confirmed[x].blockId == b.id :: x in TxIds(b.txs)
  }

  lemma {:induction false} CoinbaseFree(txs: seq<Tx>)
    ensures CoinbaseCount(txs) == 0 <==> forall i | 0 <= i < |txs| :: !txs[i].coinbase
    decreases |txs|
  {
    if txs != [] {
      var front := txs[..|txs| - 1];
      CoinbaseFree(front);
      assert forall i | 0 <= i < |front| :: front[i] == txs[i];
    }
  }

  lemma {:induction false} OneCoinbase(txs: seq<Tx>)
    ensures CoinbaseCount(txs) <= 1 <==> forall i, j | 0 <= i < j < |txs| :: !(txs[i].coinbase && txs[j].coinbase)
    decreases |txs|
  {
    if txs != [] {
      var front := txs[..|txs| - 1];
      OneCoinbase(front);
      CoinbaseFree(front);
      assert forall i | 0 <= i < |front| :: front[i] == txs[i];
    }
  }

  /** The height up to which repeats are refused is that of the block where the chain leaves the trunk. */
  lemma SplitHeightIs(d: Tables, b: Block, m: BlockId)
    requires TrunkInv(d) && JoinsTrunk(d, b) && IsLowestCommonAncestor(d.blocks, d.root, d.tip, b.preHash, m)
    ensures SplitHeight(d, b) == d.blocks[m].height
  {
    hide Path, Marked;
    if SwitchesTrunk(d, b) {
      SwitchAtTrunkHeight(d, b);
      MeetIsLowest(d.blocks, d.root, d.tip, b.preHash);
      LowestCommonAncestorUnique(d.blocks, d.root, d.tip, b.preHash, m, SplitBlock(d, b));
    } else {
      assert OnPath(d.blocks, d.root, d.tip, d.tip);
    }
  }

  /** The trunk up to a trunk block is the chain of that block. */
  lemma TrunkBelow(d: Tables, m: BlockId, a: BlockId)
    requires TrunkInv(d) && OnPath(d.blocks, d.root, m, d.tip)
    ensures OnPath(d.blocks, d.root, a, m) <==>
              a in d.blocks && d.blocks[a].inTrunk && d.blocks[a].height <= d.blocks[m].height
  {
    PathPrefix(d.blocks, d.root, d.tip, d.blocks[m].height);
  }

  /** A block on a stored one is accepted exactly if it has at most one coinbase transaction and, if it
      becomes the tip, repeats no transaction of the trunk up to where its chain leaves it. What the
      branch that it replaces holds, it may repeat. */
  lemma AcceptsIff(d: Tables, b: Block, m: BlockId)
    requires d != EMPTY && Valid(d) && IndexInv(d) && Attributed(d) && b.preHash in d.blocks
    requires IsLowestCommonAncestor(d.blocks, d.root, d.tip, b.preHash, m)
    ensures Accepts(d, b, false) <==>
              && (forall i, j | 0 <= i < j < |b.txs| :: !(b.txs[i].coinbase && b.txs[j].coinbase))
              && (d.blocks[b.preHash].height + 1 > d.trunkHeight ==>
                    forall a, i | OnPath(d.blocks, d.root, a, m) && 0 <= i < |b.txs| ::
                      b.txs[i].txid !in d.blocks[a].txids)
  {
    hide CoinbaseCount, Path, Marked, SplitHeight;
    OneCoinbase(b.txs);
    if JoinsTrunk(d, b) {
      SplitHeightIs(d, b, m);
      forall a
        ensures OnPath(d.blocks, d.root, a, m) <==>
                  a in d.blocks && d.blocks[a].inTrunk && d.blocks[a].height <= d.blocks[m].height
      {
        TrunkBelow(d, m, a);
      }
    }
  }

  /** So a block on the tip is accepted exactly if it repeats no ancestor's transaction. */
  lemma TipAcceptsIff(d: Tables, b: Block)
    requires d != EMPTY && Valid(d) && IndexInv(d) && Attributed(d) && ExtendsTip(d, b) && CoinbaseCount(b.txs) <= 1
    ensures Accepts(d, b, false) <==> !Repeats(d, b)
  {
    hide Path, Marked, Accepts, CoinbaseCount;
    OneCoinbase(b.txs);
    SplitIsLowest(d.blocks, d.root, d.tip, d.tip, d.tip);
    AcceptsIff(d, b, d.tip);
  }

  // ---------------------------------------------------------------- attribution is kept

  lemma {:induction false} CorrectAllHeld(d: Tables, ids: seq<BlockId>, x: TxId)
    requires x in d.confirmed && forall i | 0 <= i < |ids| :: ids[i] in d.blocks
    ensures var id := CorrectAll(d, ids)[x].blockId;
            id == d.confirmed[x].blockId || (id in d.blocks && x in d.blocks[id].txids)
    decreases |ids|
  {
    if ids != [] {
      CorrectAllHeld(d, ids[..|ids| - 1], x);
    }
  }

  lemma AfterBlockAttributed(d: Tables, b: Block)
    requires TrunkInv(d) && Attributed(d) && Identified(d, b) && b.preHash in d.blocks && b.id !in d.blocks
    ensures Attributed(AfterBlock(d, b))
  {
    hide Path, TrunkInv, Recorded;
    var d2, base := AfterBlock(d, b), Base(d, b);
    forall x | x in d2.confirmed && d2.confirmed[x].blockId in d2.blocks
      ensures x in d2.blocks[d2.confirmed[x].blockId].txids
    {
      RecordedAt(d, base, b, JoinsTrunk(d, b), |b.txs|, x);
      if x in d.confirmed && SwitchesTrunk(d, b) {
        CorrectAllHeld(d, SideBranch(d, b), x);
      }
      if i :| 0 <= i < |b.txs| && b.txs[i].txid == x {
        assert TxIds(b.txs)[i] == x;
      }
    }
  }

  lemma AfterRootAttributed(b: Block)
    ensures Attributed(AfterRoot(b))
  {
    var d := AfterRoot(b);
    forall x | x in d.confirmed
      ensures d.confirmed[x].blockId == b.id && x in TxIds(b.txs)
    {
      RecordedAt(EMPTY, map[], b, true, |b.txs|, x);
      var i :| 0 <= i < |b.txs| && b.txs[i].txid == x;
      assert TxIds(b.txs)[i] == x;
    }
  }
}
