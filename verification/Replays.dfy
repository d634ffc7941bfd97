/** The entries of the blocks on a chain, and how the pieces of the state machine (undoing a block,
    doing a block, rolling back and confirming unconfirmed transactions) move between replays. */
module Replays {
  import opened Types
  import opened Chain
  import opened Tables
  import opened Utxo
  import opened Value

  /** The entries of a block's transactions: each is done, then its fee is paid. */
  ghost function EntriesOf(txs: seq<Tx>, proposer: Address): (es: seq<Entry>)
    ensures |es| == 2 * |txs|
  {
    if txs == [] then []
    else EntriesOf(txs[..|txs| - 1], proposer) + [TxDone(txs[|txs| - 1]), FeePaid(txs[|txs| - 1], proposer)]
  }

  ghost function BlockEntries(b: Block): seq<Entry> {
    EntriesOf(b.txs, b.proposer)
  }

  /** The tables form a tree with all transactions stored, and id is a block or the empty hash. */
  ghost predicate Playable(d: Tables, id: BlockId) {
    IsTree(d.blocks, d.root) && TxsStored(d) && (id == "" || id in d.blocks)
  }

  /** The entries of all blocks from the root to id. */
  ghost function ChainEntries(d: Tables, id: BlockId): seq<Entry>
    requires Playable(d, id)
    decreases if id == "" then 0 else d.blocks[id].height + 1
  {
    if id == "" then []
    else
      assert TreeNode(d.blocks, d.root, id);
      ChainEntries(d, d.blocks[id].preHash) + BlockEntries(BlockOf(d, id))
  }

  ghost function PendingEntries(txs: seq<Tx>): (es: seq<Entry>)
    ensures |es| == |txs|
  {
    seq(|txs|, i requires 0 <= i < |txs| => TxDone(txs[i]))
  }

  // ---------------------------------------------------------------- distinctness

  /** No block holds a transaction twice. */
  ghost predicate DistinctTxs(d: Tables) {
    forall id, i, j | id in d.blocks && 0 <= i < j < |d.blocks[id].txids| ::
      d.blocks[id].txids[i] != d.blocks[id].txids[j]
  }

  lemma {:induction false} EntriesOfTxs(txs: seq<Tx>, proposer: Address, i: nat)
    requires i < 2 * |txs|
    ensures EntriesOf(txs, proposer)[i] == if i % 2 == 0 then TxDone(txs[i / 2]) else FeePaid(txs[i / 2], proposer)
    decreases |txs|
  {
    if i < 2 * (|txs| - 1) {
      EntriesOfTxs(txs[..|txs| - 1], proposer, i);
    }
  }

  lemma BlockEntriesDistinct(txs: seq<Tx>, proposer: Address)
    requires forall i, j | 0 <= i < j < |txs| :: txs[i].txid != txs[j].txid
    ensures Distinct(EntriesOf(txs, proposer))
  {
    var es := EntriesOf(txs, proposer);
    forall i, j | 0 <= i < |es| && 0 <= j < |es| && i != j && es[i].tx.txid == es[j].tx.txid
      ensures es[i].tx == es[j].tx && es[i].TxDone? != es[j].TxDone?
    {
      EntriesOfTxs(txs, proposer, i);
      EntriesOfTxs(txs, proposer, j);
      assert i / 2 == j / 2;
    }
  }

  lemma DistinctConcat(a: seq<Entry>, b: seq<Entry>)
    requires Distinct(a) && Distinct(b)
    requires forall x, y | x in a && y in b :: x.tx.txid != y.tx.txid
    ensures Distinct(a + b)
  {
  }

  /** An entry of the chain of id comes from a block on that chain. */
  lemma {:induction false} EntryOrigin(d: Tables, id: BlockId, e: Entry) returns (a: BlockId)
    requires Playable(d, id) && e in ChainEntries(d, id)
    ensures id in d.blocks && OnPath(d.blocks, d.root, a, id) && e.tx.txid in d.blocks[a].txids
    decreases if id == "" then 0 else d.blocks[id].height + 1
  {
    assert TreeNode(d.blocks, d.root, id);
    var pre := d.blocks[id].preHash;
    if e in ChainEntries(d, pre) {
      a := EntryOrigin(d, pre, e);
      assert id != d.root;
      assert Path(d.blocks, d.root, id) == Path(d.blocks, d.root, pre) + [id];
    } else {
      var b := BlockOf(d, id);
      assert e in BlockEntries(b);
      var i :| 0 <= i < |BlockEntries(b)| && BlockEntries(b)[i] == e;
      EntriesOfTxs(b.txs, b.proposer, i);
      assert e.tx.txid == d.blocks[id].txids[i / 2];
      a := id;
    }
  }

  lemma {:induction false} ChainDistinct(d: Tables, id: BlockId)
    requires Playable(d, id) && NoRepeat(d) && DistinctTxs(d)
    ensures Distinct(ChainEntries(d, id))
    decreases if id == "" then 0 else d.blocks[id].height + 1
  {
    if id != "" {
      assert TreeNode(d.blocks, d.root, id);
      var pre := d.blocks[id].preHash;
      ChainDistinct(d, pre);
      var b := BlockOf(d, id);
      assert forall i | 0 <= i < |b.txs| :: b.txs[i].txid == d.blocks[id].txids[i];
      BlockEntriesDistinct(b.txs, b.proposer);
      forall x, y | x in ChainEntries(d, pre) && y in BlockEntries(b)
        ensures x.tx.txid != y.tx.txid
      {
        BlockDisjointFromChain(d, id, x, y);
      }
      DistinctConcat(ChainEntries(d, pre), BlockEntries(b));
    }
  }

  lemma BlockDisjointFromChain(d: Tables, id: BlockId, x: Entry, y: Entry)
    requires Playable(d, id) && id != "" && NoRepeat(d)
    requires d.blocks[id].preHash == "" || d.blocks[id].preHash in d.blocks
    requires x in ChainEntries(d, d.blocks[id].preHash) && y in BlockEntries(BlockOf(d, id))
    ensures x.tx.txid != y.tx.txid
  {
    hide EntriesOf, ChainEntries;
    var pre := d.blocks[id].preHash;
    var b := BlockOf(d, id);
    var a := EntryOrigin(d, pre, x);
    assert TreeNode(d.blocks, d.root, id);
    assert id != d.root;
    assert Path(d.blocks, d.root, id) == Path(d.blocks, d.root, pre) + [id];
    assert OnPath(d.blocks, d.root, a, id) && a != id;
    var i :| 0 <= i < |BlockEntries(b)| && BlockEntries(b)[i] == y;
    EntriesOfTxs(b.txs, b.proposer, i);
    assert y.tx.txid == d.blocks[id].txids[i / 2];
  }

  // ---------------------------------------------------------------- stability and prefixes

  /** Confirming further blocks does not change what a chain replays to. */
  lemma {:induction false} ChainEntriesStable(d: Tables, b: Block, isRoot: bool, id: BlockId)
    requires Valid(d) && Accepts(d, b, isRoot) && Incoming(d, b) && Playable(d, id)
    ensures Playable(AfterConfirm(d, b, isRoot), id)
    ensures ChainEntries(AfterConfirm(d, b, isRoot), id) == ChainEntries(d, id)
    decreases if id == "" then 0 else d.blocks[id].height + 1
  {
    AfterConfirmValid(d, b, isRoot);
    if id != "" {
      assert TreeNode(d.blocks, d.root, id);
      AfterConfirmBodies(d, b, isRoot, id);
      ChainEntriesStable(d, b, isRoot, d.blocks[id].preHash);
    }
  }

  /** The entries up to an ancestor are a prefix of the entries up to its descendant. */
  lemma {:induction false} ChainEntriesPrefix(d: Tables, a: BlockId, id: BlockId)
    requires Playable(d, id) && id in d.blocks && OnPath(d.blocks, d.root, a, id)
    ensures ChainEntries(d, a) <= ChainEntries(d, id)
    decreases d.blocks[id].height
  {
    if a != id {
      assert TreeNode(d.blocks, d.root, id);
      var pre := d.blocks[id].preHash;
      assert Path(d.blocks, d.root, id) == (if id == d.root then [id] else Path(d.blocks, d.root, pre) + [id]);
      ChainEntriesPrefix(d, a, pre);
    }
  }

  // ---------------------------------------------------------------- the input check

  /** The outputs of a new entry are new keys. */
  lemma FreshAdd(es: seq<Entry>, e: Entry)
    requires Distinct(es + [e]) && CleanAll(es)
    ensures Add(e).Keys !! Replay(es).Keys
  {
    var all := es + [e];
    assert all[..|es|] == es;
    PrefixDistinct(all, |es|);
    forall k | k in Add(e)
      ensures k !in Replay(es)
    {
      ReplayClosed(es, k);
      forall x | x in es
        ensures k !in Add(x)
      {
        var i :| 0 <= i < |es| && es[i] == x;
        assert all[i] == x && all[|es|] == e;
        AddsDisjoint(all, i, |es|);
      }
    }
  }

  /** CheckInputEqualOutput: every input is an unspent entry with the same encoded amount, not frozen
      at the ledger's height, and sums agree or the transaction is a coinbase without input value.
      The frozen height an input declares is not looked at. */
  ghost predicate Checks(t: Table, tx: Tx, trunkHeight: nat) {
    && NoDuplicateInputs(tx.inputs)
    && (forall i | 0 <= i < |tx.inputs| :: InputOk(t, tx.inputs[i], trunkHeight))
    && (InSum(tx.inputs) == OutSum(tx.outputs) || (InSum(tx.inputs) == 0 && tx.coinbase))
  }

  predicate InputOk(t: Table, i: TxInput, trunkHeight: nat) {
    && InputKey(i) in t
    && t[InputKey(i)].amount == i.amount && i.minimal
    && t[InputKey(i)].frozenHeight <= trunkHeight
    && t[InputKey(i)].frozenHeight != -1
  }

  lemma ChecksSpent(t: Table, tx: Tx, trunkHeight: nat)
    requires Checks(t, tx, trunkHeight)
    ensures forall k | k in Spent(tx.inputs) :: k in t && t[k].amount == Spent(tx.inputs)[k].amount
    ensures BalancedTx(tx)
  {
    forall k | k in Spent(tx.inputs)
      ensures k in t && t[k].amount == Spent(tx.inputs)[k].amount
    {
      SpentKeys(tx.inputs, k);
      var i :| 0 <= i < |tx.inputs| && InputKey(tx.inputs[i]) == k;
      assert InputOk(t, tx.inputs[i], trunkHeight);
    }
  }

  /** A transaction that passes the check on a table that matches a clean replay extends the replay. */
  lemma ChecksClean(es: seq<Entry>, t: Table, tx: Tx, trunkHeight: nat)
    requires CleanAll(es) && Distinct(es + [TxDone(tx)]) && Matches(t, Replay(es)) && Checks(t, tx, trunkHeight)
    ensures CleanAll(es + [TxDone(tx)]) && Replay(es + [TxDone(tx)]) == Apply(Replay(es), TxDone(tx))
  {
    ChecksSpent(t, tx, trunkHeight);
    FreshAdd(es, TxDone(tx));
    ReplaySnoc(es, TxDone(tx));
  }

  /** The check accepts a transaction whose undo does not restore the table: the input misstates
      the frozen height of the entry it spends. */
  lemma UndoCanMisrestore()
    ensures var k := Key("alice", "t0", 0);
            var t := map[k := Item(7, 3)];
            var tx := Tx("t1", false, false, [TxInput("alice", "t0", 0, 7, true, 0)], [TxOutput("bob", 7, 0)]);
            && Checks(t, tx, 10)
            && Add(TxDone(tx)).Keys !! t.Keys
            && Revert(Apply(t, TxDone(tx)), TxDone(tx)) != t
  {
    var k := Key("alice", "t0", 0);
    var t := map[k := Item(7, 3)];
    var i, o := TxInput("alice", "t0", 0, 7, true, 0), TxOutput("bob", 7, 0);
    var tx := Tx("t1", false, false, [i], [o]);
    assert [i][..0] == [] && [o][..0] == [];
    assert InSum([i]) == InSum([]) + 7 && OutSum([o]) == OutSum([]) + 7;
    assert Spent([i]) == Spent([])[k := Item(7, 0)];
    assert InputOk(t, tx.inputs[0], 10);
    assert forall x | x in Made(tx) :: x.txid == "t1";
    RevertApplyIff(t, TxDone(tx));
    assert k in Del(TxDone(tx)) && t[k] != Del(TxDone(tx))[k];
  }

  // ---------------------------------------------------------------- undoing a block

  /** The code undoes a transaction first and its fee after it, although they were done in that order
      too. It makes no difference: what the transaction spends is not what pays its fee. */
  lemma UndoTxAndFee(es: seq<Entry>, tx: Tx, proposer: Address, t: Table)
    requires CleanAll(es + [TxDone(tx)]) && Distinct(es + [TxDone(tx), FeePaid(tx, proposer)])
    ensures Revert(Revert(t, TxDone(tx)), FeePaid(tx, proposer)) == RevertAll(t, [TxDone(tx), FeePaid(tx, proposer)])
  {
    var x, y := TxDone(tx), FeePaid(tx, proposer);
    forall k | k in Del(x).Keys
      ensures k !in Add(y).Keys
    {
      SpentBefore(es, x, y, k);
    }
    UndoCommutes(t, Del(x), Add(x), Add(y));
    assert [x, y][..1] == [x] && [x][..0] == [];
    assert RevertAll(t, [x, y]) == RevertAll(Revert(t, y), [x]) == Revert(Revert(t, y), x);
  }

  lemma UndoCommutes(t: Table, del: Table, add: Table, fee: Table)
    requires del.Keys !! fee.Keys
    ensures (((t + del) - add.Keys) + map[]) - fee.Keys == (((t + map[]) - fee.Keys) + del) - add.Keys
  {
  }

  lemma Neutral(t: Table, none: Table)
    requires none == map[]
    ensures t - none.Keys == t && t + none == t
  {
  }

  /** A key spent by x was made before, so the later entry y does not make it. */
  lemma SpentBefore(es: seq<Entry>, x: Entry, y: Entry, k: Key)
    requires CleanAll(es + [x]) && Distinct(es + [x, y]) && k in Del(x)
    ensures k !in Add(y)
  {
    var all := es + [x, y];
    assert all[..|es| + 1] == es + [x] && all[..|es|] == es;
    PrefixDistinct(all, |es|);
    ReplaySnoc(es, x);
    ReplayClosed(es, k);
    var e :| e in es && k in Add(e);
    var i :| 0 <= i < |es| && es[i] == e;
    assert all[i] == e && all[|es| + 1] == y;
    AddsDisjoint(all, i, |es| + 1);
  }

  // ---------------------------------------------------------------- rearranging totals

  lemma TotalRemove(es: seq<Entry>, j: nat)
    requires j < |es|
    ensures Total(es) == Total(es[..j] + es[j + 1..]) + Minted(es[j])
  {
    hide Total, Minted;
    var a, e, b := es[..j], es[j], es[j + 1..];
    TotalConcat(a, b);
    TotalConcat(a, [e]);
    TotalConcat(a + [e], b);
    TotalOne(e);
    assert (a + [e]) + b == es;
  }

  lemma {:induction false} TotalRearranged(a: seq<Entry>, b: seq<Entry>)
    requires Distinct(a) && Distinct(b) && SameEntries(a, b)
    ensures Total(a) == Total(b)
    decreases |a|
  {
    assert b != [] ==> b[0] in a;
    if a != [] {
      var n := |a| - 1;
      var e := a[n];
      assert e in a;
      var j :| 0 <= j < |b| && b[j] == e;
      var rest := b[..j] + b[j + 1..];
      TotalRemove(b, j);
      WithoutOne(a, b, j);
      TotalRearranged(a[..n], rest);
    }
  }

  lemma WithoutOne(a: seq<Entry>, b: seq<Entry>, j: nat)
    requires Distinct(a) && Distinct(b) && SameEntries(a, b) && a != [] && j < |b| && b[j] == a[|a| - 1]
    ensures Distinct(a[..|a| - 1]) && Distinct(b[..j] + b[j + 1..])
    ensures SameEntries(a[..|a| - 1], b[..j] + b[j + 1..])
  {
    var n := |a| - 1;
    var rest := b[..j] + b[j + 1..];
    forall i | 0 <= i < |rest|
      ensures rest[i] == b[if i < j then i else i + 1]
    {
    }
    forall x
      ensures x in a[..n] <==> x in rest
    {
      if x in a[..n] {
        var i :| 0 <= i < n && a[i] == x;
        assert a[i] in a;
        var k :| 0 <= k < |b| && b[k] == x;
        assert k != j;
        assert rest[if k < j then k else k - 1] == x;
      }
      if x in rest {
        var i :| 0 <= i < |rest| && rest[i] == x;
        var k := if i < j then i else i + 1;
        assert b[k] in b;
        var m :| 0 <= m < |a| && a[m] == x;
        assert m != n;
        assert a[..n][m] == x;
      }
    }
  }
}
