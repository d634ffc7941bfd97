/** Unconfirmed transactions on top of a chain: rolling them back in any dependency order, and
    confirming some of them with a mined block, where only coinbase and generated transactions and
    the fees remain to be done. */
module Unconfirmed {
  import opened Types
  import opened Chain
  import opened Tables
  import opened Utxo
  import opened Value
  import opened Replays

  // ---------------------------------------------------------------- rolling back

  /** order lists the unconfirmed transactions so that each comes after those it spends from. */
  ghost predicate DependencyOrder(c: seq<Entry>, unconfirmed: seq<Tx>, order: seq<Tx>) {
    && Distinct(c + PendingEntries(order))
    && SameEntries(c + PendingEntries(order), c + PendingEntries(unconfirmed))
    && Ordered(c + PendingEntries(order))
  }

  /** Any dependency order replays to the same table and the same total. */
  lemma AnyOrder(c: seq<Entry>, unconfirmed: seq<Tx>, order: seq<Tx>)
    requires Distinct(c + PendingEntries(unconfirmed)) && CleanAll(c + PendingEntries(unconfirmed))
    requires DependencyOrder(c, unconfirmed, order)
    ensures CleanAll(c + PendingEntries(order))
    ensures Replay(c + PendingEntries(order)) == Replay(c + PendingEntries(unconfirmed))
    ensures Total(c + PendingEntries(order)) == Total(c + PendingEntries(unconfirmed))
  {
    ReplayRearranged(c + PendingEntries(unconfirmed), c + PendingEntries(order));
    TotalRearranged(c + PendingEntries(unconfirmed), c + PendingEntries(order));
  }

  lemma PendingStep(c: seq<Entry>, order: seq<Tx>, i: nat)
    requires i < |order|
    ensures c + PendingEntries(order[..i + 1]) == (c + PendingEntries(order[..i])) + [TxDone(order[i])]
    ensures c + PendingEntries(order[..i + 1]) <= c + PendingEntries(order)
  {
  }

  // ---------------------------------------------------------------- membership

  lemma {:induction false} InEntriesOf(txs: seq<Tx>, proposer: Address, e: Entry)
    ensures e in EntriesOf(txs, proposer) <==> e.tx in txs && (e.FeePaid? ==> e.proposer == proposer)
    decreases |txs|
  {
    if txs != [] {
      InEntriesOf(txs[..|txs| - 1], proposer, e);
      assert txs == txs[..|txs| - 1] + [txs[|txs| - 1]];
    }
  }

  lemma InPending(txs: seq<Tx>, e: Entry)
    ensures e in PendingEntries(txs) <==> e.TxDone? && e.tx in txs
  {
    if e.TxDone? && e.tx in txs {
      var i :| 0 <= i < |txs| && txs[i] == e.tx;
      assert PendingEntries(txs)[i] == e;
    }
  }

  /** A transaction on a chain, or whose fee was paid there, was done there. */
  lemma {:induction false} DoneOnChain(d: Tables, id: BlockId, e: Entry)
    requires Playable(d, id) && e in ChainEntries(d, id)
    ensures TxDone(e.tx) in ChainEntries(d, id)
    decreases if id == "" then 0 else d.blocks[id].height + 1
  {
    assert TreeNode(d.blocks, d.root, id);
    var b := BlockOf(d, id);
    if e in BlockEntries(b) {
      InEntriesOf(b.txs, b.proposer, e);
      InEntriesOf(b.txs, b.proposer, TxDone(e.tx));
    } else {
      DoneOnChain(d, d.blocks[id].preHash, e);
    }
  }

  /** Unconfirmed transactions are not on the chain. */
  lemma PendingNotOnChain(d: Tables, id: BlockId, unconfirmed: seq<Tx>, e: Entry, tx: Tx)
    requires Playable(d, id) && Distinct(ChainEntries(d, id) + PendingEntries(unconfirmed))
    requires e in ChainEntries(d, id) && tx in unconfirmed
    ensures e.tx.txid != tx.txid
  {
    DoneOnChain(d, id, e);
    var c, p := ChainEntries(d, id), PendingEntries(unconfirmed);
    var i :| 0 <= i < |c| && c[i] == TxDone(e.tx);
    var j :| 0 <= j < |unconfirmed| && unconfirmed[j] == tx;
    assert (c + p)[i] == TxDone(e.tx) && (c + p)[|c| + j] == TxDone(tx);
  }

  lemma PendingUnique(c: seq<Entry>, unconfirmed: seq<Tx>, a: Tx, b: Tx)
    requires Distinct(c + PendingEntries(unconfirmed)) && a in unconfirmed && b in unconfirmed && a.txid == b.txid
    ensures a == b
  {
    var es := c + PendingEntries(unconfirmed);
    var i :| 0 <= i < |unconfirmed| && unconfirmed[i] == a;
    var j :| 0 <= j < |unconfirmed| && unconfirmed[j] == b;
    assert es[|c| + i] == TxDone(a) && es[|c| + j] == TxDone(b);
  }

  lemma DistinctJoin(a: seq<Entry>, b: seq<Entry>)
    requires Distinct(a) && Distinct(b)
    requires forall x, y | x in a && y in b && x.tx.txid == y.tx.txid :: x.tx == y.tx && x.TxDone? != y.TxDone?
    ensures Distinct(a + b)
  {
  }

  // ---------------------------------------------------------------- mined blocks

  /** Transactions that enter the ledger with a block and were never unconfirmed. */
  predicate Special(tx: Tx) {
    tx.coinbase || tx.autogen
  }

  /** What is still to be done of a block when the transactions in done have been done already: the
      others, and all fees. */
  ghost function PlayEntries(txs: seq<Tx>, proposer: Address, done: set<Tx>): seq<Entry> {
    if txs == [] then []
    else
      var tx := txs[|txs| - 1];
      PlayEntries(txs[..|txs| - 1], proposer, done)
      + if tx in done then [FeePaid(tx, proposer)] else [TxDone(tx), FeePaid(tx, proposer)]
  }

  lemma {:induction false} PlayAll(txs: seq<Tx>, proposer: Address)
    ensures PlayEntries(txs, proposer, {}) == EntriesOf(txs, proposer)
    decreases |txs|
  {
    if txs != [] {
      PlayAll(txs[..|txs| - 1], proposer);
    }
  }

  lemma {:induction false} InPlayEntries(txs: seq<Tx>, proposer: Address, done: set<Tx>, e: Entry)
    ensures e in PlayEntries(txs, proposer, done) <==>
              e.tx in txs && (if e.FeePaid? then e.proposer == proposer else e.tx !in done)
    decreases |txs|
  {
    if txs != [] {
      InPlayEntries(txs[..|txs| - 1], proposer, done, e);
      assert txs == txs[..|txs| - 1] + [txs[|txs| - 1]];
    }
  }

  ghost predicate DistinctIds(txs: seq<Tx>) {
    forall i, j | 0 <= i < j < |txs| :: txs[i].txid != txs[j].txid
  }

  lemma {:induction false} PlayDistinct(txs: seq<Tx>, proposer: Address, done: set<Tx>)
    requires DistinctIds(txs)
    ensures Distinct(PlayEntries(txs, proposer, done))
    decreases |txs|
  {
    if txs != [] {
      var front, tx := txs[..|txs| - 1], txs[|txs| - 1];
      PlayDistinct(front, proposer, done);
      var last := if tx in done then [FeePaid(tx, proposer)] else [TxDone(tx), FeePaid(tx, proposer)];
      forall x, y | x in PlayEntries(front, proposer, done) && y in last
        ensures x.tx.txid != y.tx.txid
      {
        InPlayEntries(front, proposer, done, x);
        var i :| 0 <= i < |front| && front[i] == x.tx;
        assert txs[i] == x.tx;
      }
      DistinctConcat(PlayEntries(front, proposer, done), last);
    }
  }

  /** The transactions whose id is not in ids. */
  function Unmined(txs: seq<Tx>, ids: set<TxId>): seq<Tx> {
    if txs == [] then []
    else Unmined(txs[..|txs| - 1], ids) + if txs[|txs| - 1].txid in ids then [] else [txs[|txs| - 1]]
  }

  lemma {:induction false} InUnmined(txs: seq<Tx>, ids: set<TxId>, tx: Tx)
    ensures tx in Unmined(txs, ids) <==> tx in txs && tx.txid !in ids
    decreases |txs|
  {
    if txs != [] {
      InUnmined(txs[..|txs| - 1], ids, tx);
      assert txs == txs[..|txs| - 1] + [txs[|txs| - 1]];
    }
  }

  ghost function IdSet(txs: seq<Tx>): set<TxId> {
    set i | 0 <= i < |txs| :: txs[i].txid
  }

  lemma InIdSet(txs: seq<Tx>, tx: Tx)
    requires tx in txs
    ensures tx.txid in IdSet(txs)
  {
  }

  /** The transactions of b that count as done are the unconfirmed ones among them. */
  ghost predicate Continues(b: Block, unconfirmed: seq<Tx>, done: set<Tx>) {
    && (forall tx | tx in b.txs && tx in done :: tx in unconfirmed)
    && (forall tx, u | tx in b.txs && tx !in done && u in unconfirmed :: tx.txid != u.txid)
  }

  /** A transaction of b does not occur on the chain below b. */
  lemma MinedNotBelow(d: Tables, id: BlockId, x: Entry, tx: Tx)
    requires Playable(d, id) && id in d.blocks && NoRepeat(d)
    requires d.blocks[id].preHash == "" || d.blocks[id].preHash in d.blocks
    requires x in ChainEntries(d, d.blocks[id].preHash) && tx in BlockOf(d, id).txs
    ensures x.tx.txid != tx.txid
  {
    var b := BlockOf(d, id);
    InEntriesOf(b.txs, b.proposer, TxDone(tx));
    BlockDisjointFromChain(d, id, x, TxDone(tx));
  }

  lemma MinedBodyDistinct(d: Tables, id: BlockId)
    requires Playable(d, id) && id in d.blocks && DistinctTxs(d)
    ensures DistinctIds(BlockOf(d, id).txs)
  {
  }

  /** The entries as they are done: chain, unconfirmed transactions, then what remains of the block. */
  lemma DoneDistinct(d: Tables, id: BlockId, unconfirmed: seq<Tx>, done: set<Tx>)
    requires Playable(d, id) && id in d.blocks && NoRepeat(d) && DistinctTxs(d)
    requires d.blocks[id].preHash == "" || d.blocks[id].preHash in d.blocks
    requires Continues(BlockOf(d, id), unconfirmed, done)
    requires Distinct(ChainEntries(d, d.blocks[id].preHash) + PendingEntries(unconfirmed))
    ensures var b := BlockOf(d, id);
            Distinct((ChainEntries(d, b.preHash) + PendingEntries(unconfirmed)) + PlayEntries(b.txs, b.proposer, done))
  {
    var b := BlockOf(d, id);
    var c, p, m := ChainEntries(d, b.preHash), PendingEntries(unconfirmed), PlayEntries(b.txs, b.proposer, done);
    MinedBodyDistinct(d, id);
    PlayDistinct(b.txs, b.proposer, done);
    forall x: Entry, y: Entry | x in c + p && y in m && x.tx.txid == y.tx.txid
      ensures x.tx == y.tx && x.TxDone? != y.TxDone?
    {
      InPlayEntries(b.txs, b.proposer, done, y);
      if x in c {
        MinedNotBelow(d, id, x, y.tx);
      } else {
        InPending(unconfirmed, x);
        PendingUnique(c, unconfirmed, x.tx, x.tx);
        if y.tx in done {
          PendingUnique(c, unconfirmed, x.tx, y.tx);
        }
      }
    }
    DistinctJoin(c + p, m);
  }

  /** The entries as they are meant: the chain through b, then what is still unconfirmed. */
  lemma MeantDistinct(d: Tables, id: BlockId, unconfirmed: seq<Tx>)
    requires Playable(d, id) && id in d.blocks && NoRepeat(d) && DistinctTxs(d)
    requires d.blocks[id].preHash == "" || d.blocks[id].preHash in d.blocks
    requires Distinct(ChainEntries(d, d.blocks[id].preHash) + PendingEntries(unconfirmed))
    ensures Distinct(ChainEntries(d, id) + PendingEntries(Unmined(unconfirmed, IdSet(BlockOf(d, id).txs))))
  {
    var b := BlockOf(d, id);
    var ids := IdSet(b.txs);
    var rest := Unmined(unconfirmed, ids);
    ChainDistinct(d, id);
    UnminedDistinct(ChainEntries(d, b.preHash), unconfirmed, ids);
    forall x, y | x in ChainEntries(d, id) && y in PendingEntries(rest)
      ensures x.tx.txid != y.tx.txid
    {
      InPending(rest, y);
      InUnmined(unconfirmed, ids, y.tx);
      if x in BlockEntries(b) {
        InEntriesOf(b.txs, b.proposer, x);
        InIdSet(b.txs, x.tx);
      } else {
        assert x in ChainEntries(d, b.preHash);
        PendingNotOnChain(d, b.preHash, unconfirmed, x, y.tx);
      }
    }
    DistinctConcat(ChainEntries(d, id), PendingEntries(rest));
  }

  lemma FewDistinct(es: seq<Entry>)
    requires |es| <= 1
    ensures Distinct(es)
  {
  }

  lemma PendingApart(c: seq<Entry>, txs: seq<Tx>, i: nat, j: nat)
    requires Distinct(c + PendingEntries(txs)) && i < j < |txs|
    ensures txs[i].txid != txs[j].txid
  {
    var es := c + PendingEntries(txs);
    assert es[|c| + i] == TxDone(txs[i]) && es[|c| + j] == TxDone(txs[j]);
  }

  lemma {:induction false} UnminedDistinct(c: seq<Entry>, txs: seq<Tx>, ids: set<TxId>)
    requires Distinct(c + PendingEntries(txs))
    ensures Distinct(PendingEntries(Unmined(txs, ids)))
    decreases |txs|
  {
    hide Distinct;
    if txs == [] {
      FewDistinct([]);
    } else {
      var front, tx := txs[..|txs| - 1], txs[|txs| - 1];
      FewDistinct([TxDone(tx)]);
      PendingStep(c, txs, |txs| - 1);
      assert txs[..|txs|] == txs;
      var es := c + PendingEntries(txs);
      assert es[..|es| - 1] == c + PendingEntries(front);
      PrefixDistinct(es, |es| - 1);
      UnminedDistinct(c, front, ids);
      if tx.txid !in ids {
        var kept := Unmined(front, ids);
        forall x, y | x in PendingEntries(kept) && y in [TxDone(tx)]
          ensures x.tx.txid != y.tx.txid
        {
          InPending(kept, x);
          InUnmined(front, ids, x.tx);
          var i :| 0 <= i < |front| && front[i] == x.tx;
          PendingApart(c, txs, i, |txs| - 1);
        }
        DistinctConcat(PendingEntries(kept), [TxDone(tx)]);
        assert PendingEntries(kept + [tx]) == PendingEntries(kept) + [TxDone(tx)];
      } else {
        assert Unmined(txs, ids) == Unmined(front, ids);
      }
    }
  }

  /** Done and meant are the same entries. */
  lemma DoneIsMeant(d: Tables, id: BlockId, unconfirmed: seq<Tx>, done: set<Tx>, e: Entry)
    requires Playable(d, id) && id in d.blocks
    requires d.blocks[id].preHash == "" || d.blocks[id].preHash in d.blocks
    requires Continues(BlockOf(d, id), unconfirmed, done)
    requires Distinct(ChainEntries(d, d.blocks[id].preHash) + PendingEntries(unconfirmed))
    ensures var b := BlockOf(d, id);
            e in (ChainEntries(d, b.preHash) + PendingEntries(unconfirmed)) + PlayEntries(b.txs, b.proposer, done)
            <==> e in ChainEntries(d, id) + PendingEntries(Unmined(unconfirmed, IdSet(b.txs)))
  {
    var b := BlockOf(d, id);
    var ids := IdSet(b.txs);
    InPlayEntries(b.txs, b.proposer, done, e);
    InEntriesOf(b.txs, b.proposer, e);
    InPending(unconfirmed, e);
    InPending(Unmined(unconfirmed, ids), e);
    InUnmined(unconfirmed, ids, e.tx);
    if e.TxDone? && e.tx in unconfirmed && e.tx.txid in ids {
      var i :| 0 <= i < |b.txs| && b.txs[i].txid == e.tx.txid;
      assert b.txs[i] in b.txs;
      PendingUnique(ChainEntries(d, b.preHash), unconfirmed, e.tx, b.txs[i]);
    }
  }

  lemma OrderedSnoc(es: seq<Entry>, e: Entry)
    requires Ordered(es)
    requires forall k | k in Del(e) :: exists x :: x in es && k in Add(x) && Add(x)[k].amount == Del(e)[k].amount
    ensures Ordered(es + [e])
  {
    var all := es + [e];
    forall i, k | 0 <= i < |all| && k in Del(all[i])
      ensures exists j :: 0 <= j < i && k in Add(all[j]) && Add(all[j])[k].amount == Del(all[i])[k].amount
    {
      if i < |es| {
        assert all[i] == es[i];
        var j :| 0 <= j < i && k in Add(es[j]) && Add(es[j])[k].amount == Del(es[i])[k].amount;
        assert all[j] == es[j];
      } else {
        var x :| x in es && k in Add(x) && Add(x)[k].amount == Del(e)[k].amount;
        var j :| 0 <= j < |es| && es[j] == x;
        assert all[j] == x;
      }
    }
  }

  /** The remaining unconfirmed transactions come after everything they spend from. */
  lemma {:induction false} MeantOrdered(c: seq<Entry>, chain: seq<Entry>, txs: seq<Tx>, ids: set<TxId>)
    requires Ordered(chain) && Ordered(c + PendingEntries(txs)) && c <= chain
    requires forall tx | tx in txs && tx.txid in ids :: TxDone(tx) in chain
    ensures Ordered(chain + PendingEntries(Unmined(txs, ids)))
    decreases |txs|
  {
    if txs == [] {
      assert chain + PendingEntries([]) == chain;
    } else {
      var front, tx := txs[..|txs| - 1], txs[|txs| - 1];
      var es := c + PendingEntries(txs);
      assert es == (c + PendingEntries(front)) + [TxDone(tx)];
      OrderedFront(c + PendingEntries(front), TxDone(tx));
      MeantOrdered(c, chain, front, ids);
      var kept := Unmined(front, ids);
      if tx.txid in ids {
        assert Unmined(txs, ids) == kept;
      } else {
        var all := chain + PendingEntries(kept);
        forall k | k in Del(TxDone(tx))
          ensures exists x :: x in all && k in Add(x) && Add(x)[k].amount == Del(TxDone(tx))[k].amount
        {
          var x :| x in c + PendingEntries(front) && k in Add(x) && Add(x)[k].amount == Del(TxDone(tx))[k].amount;
          if x !in c {
            InPending(front, x);
            InUnmined(front, ids, x.tx);
            InPending(kept, x);
          }
          assert x in all;
        }
        OrderedSnoc(all, TxDone(tx));
        assert all + [TxDone(tx)] == chain + PendingEntries(Unmined(txs, ids));
      }
    }
  }

  lemma OrderedFront(es: seq<Entry>, e: Entry)
    requires Ordered(es + [e])
    ensures Ordered(es)
    ensures forall k | k in Del(e) :: exists x :: x in es && k in Add(x) && Add(x)[k].amount == Del(e)[k].amount
  {
    var all := es + [e];
    forall i, k | 0 <= i < |es| && k in Del(es[i])
      ensures exists j :: 0 <= j < i && k in Add(es[j]) && Add(es[j])[k].amount == Del(es[i])[k].amount
    {
      assert all[i] == es[i];
      var j :| 0 <= j < i && k in Add(all[j]) && Add(all[j])[k].amount == Del(all[i])[k].amount;
      assert all[j] == es[j];
    }
    forall k | k in Del(e)
      ensures exists x :: x in es && k in Add(x) && Add(x)[k].amount == Del(e)[k].amount
    {
      assert all[|es|] == e;
      var j :| 0 <= j < |es| && k in Add(all[j]) && Add(all[j])[k].amount == Del(all[|es|])[k].amount;
      assert all[j] == es[j] && es[j] in es;
    }
  }

  /** What remains of a block comes after everything it spends from, if the block does. */
  lemma {:induction false} PlayOrdered(c: seq<Entry>, p: seq<Entry>, txs: seq<Tx>, proposer: Address, done: set<Tx>)
    requires Ordered(c + EntriesOf(txs, proposer)) && Ordered(c + p)
    requires forall tx | tx in txs && tx in done :: TxDone(tx) in p
    ensures Ordered((c + p) + PlayEntries(txs, proposer, done))
    decreases |txs|
  {
    hide Ordered;
    if txs == [] {
      assert (c + p) + PlayEntries(txs, proposer, done) == c + p;
    } else {
      var front, tx := txs[..|txs| - 1], txs[|txs| - 1];
      var es := c + EntriesOf(front, proposer);
      assert c + EntriesOf(txs, proposer) == (es + [TxDone(tx)]) + [FeePaid(tx, proposer)];
      OrderedFront(es + [TxDone(tx)], FeePaid(tx, proposer));
      OrderedFront(es, TxDone(tx));
      PlayOrdered(c, p, front, proposer, done);
      var all := (c + p) + PlayEntries(front, proposer, done);
      if tx in done {
        OrderedSnoc(all, FeePaid(tx, proposer));
        assert (c + p) + PlayEntries(txs, proposer, done) == all + [FeePaid(tx, proposer)];
      } else {
        SuppliersKept(c, p, front, proposer, done, tx);
        OrderedSnoc(all, TxDone(tx));
        OrderedSnoc(all + [TxDone(tx)], FeePaid(tx, proposer));
        assert (c + p) + PlayEntries(txs, proposer, done) == (all + [TxDone(tx)]) + [FeePaid(tx, proposer)];
      }
    }
  }

  lemma SuppliersKept(c: seq<Entry>, p: seq<Entry>, txs: seq<Tx>, proposer: Address, done: set<Tx>, tx: Tx)
    requires forall x | x in txs && x in done :: TxDone(x) in p
    requires forall k | k in Del(TxDone(tx)) ::
               exists x :: x in c + EntriesOf(txs, proposer)
                           && k in Add(x) && Add(x)[k].amount == Del(TxDone(tx))[k].amount
    ensures forall k | k in Del(TxDone(tx)) ::
              exists x :: x in (c + p) + PlayEntries(txs, proposer, done)
                          && k in Add(x) && Add(x)[k].amount == Del(TxDone(tx))[k].amount
  {
    hide Add, Del;
    forall k | k in Del(TxDone(tx))
      ensures exists x :: x in (c + p) + PlayEntries(txs, proposer, done)
                          && k in Add(x) && Add(x)[k].amount == Del(TxDone(tx))[k].amount
    {
      var x :| x in c + EntriesOf(txs, proposer) && k in Add(x) && Add(x)[k].amount == Del(TxDone(tx))[k].amount;
      if x !in c {
        InEntriesOf(txs, proposer, x);
        InPlayEntries(txs, proposer, done, x);
      }
      assert x in (c + p) + PlayEntries(txs, proposer, done);
    }
  }

  /** Playing what remains of a block on top of the unconfirmed transactions gives the replay of the
      longer chain with the other ones on top, exactly if it is clean and the block spends only from
      the chain: it may not leave out what its transactions depend on. */
  lemma PlayedReplay(d: Tables, id: BlockId, unconfirmed: seq<Tx>, done: set<Tx>)
    requires Playable(d, id) && id in d.blocks && NoRepeat(d) && DistinctTxs(d)
    requires d.blocks[id].preHash == "" || d.blocks[id].preHash in d.blocks
    requires Continues(BlockOf(d, id), unconfirmed, done)
    requires Distinct(ChainEntries(d, d.blocks[id].preHash) + PendingEntries(unconfirmed))
    requires CleanAll(ChainEntries(d, d.blocks[id].preHash) + PendingEntries(unconfirmed))
    ensures var b := BlockOf(d, id);
            var all := (ChainEntries(d, b.preHash) + PendingEntries(unconfirmed))
                       + PlayEntries(b.txs, b.proposer, done);
            var meant := ChainEntries(d, id) + PendingEntries(Unmined(unconfirmed, IdSet(b.txs)));
            && Distinct(all) && Distinct(meant) && Total(all) == Total(meant)
            && (CleanAll(meant) <==> CleanAll(all) && Ordered(ChainEntries(d, id)))
            && (CleanAll(meant) ==> Replay(all) == Replay(meant))
  {
    hide Distinct, CleanAll, Ordered, Replay, Total, PlayEntries, Unmined, IdSet, IsTree;
    var b := BlockOf(d, id);
    var before := ChainEntries(d, b.preHash) + PendingEntries(unconfirmed);
    var all := before + PlayEntries(b.txs, b.proposer, done);
    var meant := ChainEntries(d, id) + PendingEntries(Unmined(unconfirmed, IdSet(b.txs)));
    DoneDistinct(d, id, unconfirmed, done);
    MeantDistinct(d, id, unconfirmed);
    forall e
      ensures e in all <==> e in meant
    {
      DoneIsMeant(d, id, unconfirmed, done, e);
    }
    TotalRearranged(all, meant);
    CleanAllIff(before);
    if CleanAll(all) && Ordered(ChainEntries(d, id)) {
      RestOrdered(d, id, unconfirmed, done);
      ReplayRearranged(all, meant);
    }
    if CleanAll(meant) {
      ChainOrdered(d, id, PendingEntries(Unmined(unconfirmed, IdSet(b.txs))));
      AllOrdered(d, id, unconfirmed, done);
      ReplayRearranged(meant, all);
    }
  }

  lemma ChainOrdered(d: Tables, id: BlockId, p: seq<Entry>)
    requires Playable(d, id) && Distinct(ChainEntries(d, id) + p) && CleanAll(ChainEntries(d, id) + p)
    ensures Ordered(ChainEntries(d, id))
  {
    var c := ChainEntries(d, id);
    assert (c + p)[..|c|] == c;
    PrefixDistinct(c + p, |c|);
    CleanAllPrefix(c + p, |c|);
    CleanAllIff(c);
  }

  lemma RestOrdered(d: Tables, id: BlockId, unconfirmed: seq<Tx>, done: set<Tx>)
    requires Playable(d, id) && id in d.blocks
    requires d.blocks[id].preHash == "" || d.blocks[id].preHash in d.blocks
    requires Continues(BlockOf(d, id), unconfirmed, done)
    requires Distinct(ChainEntries(d, d.blocks[id].preHash) + PendingEntries(unconfirmed))
    requires Ordered(ChainEntries(d, d.blocks[id].preHash) + PendingEntries(unconfirmed))
    requires Ordered(ChainEntries(d, id))
    ensures Ordered(ChainEntries(d, id) + PendingEntries(Unmined(unconfirmed, IdSet(BlockOf(d, id).txs))))
  {
    hide Distinct, Ordered, Continues;
    var ids := IdSet(BlockOf(d, id).txs);
    forall tx | tx in unconfirmed && tx.txid in ids
      ensures TxDone(tx) in ChainEntries(d, id)
    {
      DoneIsMeant(d, id, unconfirmed, done, TxDone(tx));
      InPending(unconfirmed, TxDone(tx));
      InUnmined(unconfirmed, ids, tx);
      InPending(Unmined(unconfirmed, ids), TxDone(tx));
    }
    MeantOrdered(ChainEntries(d, d.blocks[id].preHash), ChainEntries(d, id), unconfirmed, ids);
  }

  lemma AllOrdered(d: Tables, id: BlockId, unconfirmed: seq<Tx>, done: set<Tx>)
    requires Playable(d, id) && id in d.blocks
    requires d.blocks[id].preHash == "" || d.blocks[id].preHash in d.blocks
    requires Continues(BlockOf(d, id), unconfirmed, done) && Ordered(ChainEntries(d, id))
    requires Ordered(ChainEntries(d, d.blocks[id].preHash) + PendingEntries(unconfirmed))
    ensures var b := BlockOf(d, id);
            Ordered((ChainEntries(d, b.preHash) + PendingEntries(unconfirmed)) + PlayEntries(b.txs, b.proposer, done))
  {
    hide Ordered;
    var b := BlockOf(d, id);
    forall tx | tx in b.txs && tx in done
      ensures TxDone(tx) in PendingEntries(unconfirmed)
    {
      InPending(unconfirmed, TxDone(tx));
    }
    PlayOrdered(ChainEntries(d, b.preHash), PendingEntries(unconfirmed), b.txs, b.proposer, done);
  }
}
