/** The state machine that follows the ledger: single transactions, blocks played on top of
    unconfirmed transactions, and Walk, which undoes and redoes whole blocks. Its methods are proved
    against the functions of Steps.dfy, Walks.dfy and Reposts.dfy. */
module State {
  import opened Types
  import opened Chain
  import opened Tables
  import opened Search
  import opened Utxo
  import opened Value
  import opened Replays
  import opened Unconfirmed
  import opened Steps
  import opened Walks
  import opened Reposts
  import Ledger

  /** Pending writes: the UTXO table and the recorded total as they will be once written, and the batch
      cache, which holds what the batch has made and not spent. */
  datatype Batch = Batch(utxo: Table, total: int, made: Table)

  ghost function WorkFrom(batch: Batch, mem: int): Work {
    Work(batch.utxo, batch.total, mem)
  }

  // ---------------------------------------------------------------- conservation

  /** On every chain, and with unconfirmed transactions on top, value is conserved: the sum of the
      table is the total that was minted less the fees of the unconfirmed transactions, provided
      coinbase transactions burn nothing and claim no fee. */
  lemma StateConserves(d: Tables, v: View)
    requires Tracks(d, v) && BalancedEntries(Entries(d, v))
    requires var es := Entries(d, v);
             forall i | 0 <= i < |es| && es[i].tx.coinbase ::
               InSum(es[i].tx.inputs) == 0 && forall o | o in es[i].tx.outputs :: !IsFee(o)
    ensures Sum(v.utxo) == Total(Entries(d, v)) - Owed(PendingEntries(v.unconfirmed))
    ensures Sum(v.utxo) == v.total - Gap(d, v) - Owed(PendingEntries(v.unconfirmed))
  {
    var c, p := ChainEntries(d, v.latest), PendingEntries(v.unconfirmed);
    SumMatches(v.utxo, Replay(c + p));
    Conservation(c + p);
    NoLeak(c + p);
    OwedConcat(c, p);
    ChainOwesNothing(d, v.latest);
  }

  lemma {:induction false} ChainOwesNothing(d: Tables, id: BlockId)
    requires Playable(d, id)
    ensures Owed(ChainEntries(d, id)) == 0
    decreases if id == "" then 0 else d.blocks[id].height + 1
  {
    if id != "" {
      assert TreeNode(d.blocks, d.root, id);
      ChainOwesNothing(d, d.blocks[id].preHash);
      var b := BlockOf(d, id);
      BlockOwesNothing(b.txs, b.proposer);
      OwedConcat(ChainEntries(d, d.blocks[id].preHash), BlockEntries(b));
    }
  }

  lemma {:induction false} BlockOwesNothing(txs: seq<Tx>, proposer: Address)
    ensures Owed(EntriesOf(txs, proposer)) == 0
  {
    if txs != [] {
      var front, tx := EntriesOf(txs[..|txs| - 1], proposer), txs[|txs| - 1];
      BlockOwesNothing(txs[..|txs| - 1], proposer);
      assert (front + [TxDone(tx), FeePaid(tx, proposer)])[..|front| + 1] == front + [TxDone(tx)];
      assert (front + [TxDone(tx)])[..|front|] == front;
    }
  }

  // ---------------------------------------------------------------- loops over inputs and outputs

  lemma SpentStep(inputs: seq<TxInput>, i: nat)
    requires i < |inputs|
    ensures Spent(inputs[..i + 1]) ==
            Spent(inputs[..i])[InputKey(inputs[i]) := Item(inputs[i].amount, inputs[i].frozenHeight)]
    ensures InSum(inputs[..i + 1]) == InSum(inputs[..i]) + inputs[i].amount
  {
    assert inputs[..i + 1][..i] == inputs[..i];
  }

  lemma DuplicateStep(inputs: seq<TxInput>, i: nat)
    requires i < |inputs| && NoDuplicateInputs(inputs[..i])
    ensures InputKey(inputs[i]) in Spent(inputs[..i]) ==> !NoDuplicateInputs(inputs)
    ensures InputKey(inputs[i]) !in Spent(inputs[..i]) ==> NoDuplicateInputs(inputs[..i + 1])
  {
    SpentKeys(inputs[..i], InputKey(inputs[i]));
    if InputKey(inputs[i]) in Spent(inputs[..i]) {
      var j :| 0 <= j < i && InputKey(inputs[..i][j]) == InputKey(inputs[i]);
      assert InputKey(inputs[j]) == InputKey(inputs[i]);
    } else {
      var more := inputs[..i + 1];
      forall a, b | 0 <= a < b < |more|
        ensures InputKey(more[a]) != InputKey(more[b])
      {
        assert inputs[..i][a] == inputs[a];
        if b < i {
          assert inputs[..i][b] == inputs[b];
        }
      }
    }
  }

  lemma MinusInsert(t: Table, m: Table, k: Key, v: Item)
    ensures t - m[k := v].Keys == (t - m.Keys) - {k}
  {
  }

  lemma PlusInsert(t: Table, m: Table, k: Key, v: Item)
    ensures t + m[k := v] == (t + m)[k := v]
  {
  }

  /** What a coinbase transaction mints with its first n outputs. */
  ghost function MintedBefore(tx: Tx, n: nat): int
    requires n <= |tx.outputs|
  {
    if tx.coinbase then OutSum(tx.outputs[..n]) - FeeSum(tx.outputs[..n]) else 0
  }

  lemma MadeStep(tx: Tx, i: nat)
    requires i < |tx.outputs|
    ensures var o := tx.outputs[i]; var made := MadeBefore(tx, i);
            && MintedBefore(tx, i + 1) == MintedBefore(tx, i) + (if tx.coinbase && !IsFee(o) then o.amount else 0)
            && MadeBefore(tx, i + 1) == if IsFee(o) || o.amount == 0 then made
                                        else made[Key(o.toAddr, tx.txid, i) := Item(o.amount, o.frozenHeight)]
  {
    OutputStep(tx.outputs, i);
    MadeBeforeStep(tx, i);
  }

  lemma NoneMade(tx: Tx)
    ensures MadeBefore(tx, 0) == map[] && MintedBefore(tx, 0) == 0
  {
  }

  lemma AllMade(tx: Tx)
    ensures MadeBefore(tx, |tx.outputs|) == Made(tx) && MintedBefore(tx, |tx.outputs|) == Minted(TxDone(tx))
  {
    assert tx.outputs[..|tx.outputs|] == tx.outputs;
  }

  lemma NoneFees(tx: Tx, proposer: Address)
    ensures FeesBefore(tx, proposer, 0) == map[]
  {
  }

  lemma AllFees(tx: Tx, proposer: Address)
    ensures FeesBefore(tx, proposer, |tx.outputs|) == Fees(tx, proposer)
  {
  }

  lemma OutputStep(outputs: seq<TxOutput>, i: nat)
    requires i < |outputs|
    ensures OutSum(outputs[..i + 1]) == OutSum(outputs[..i]) + outputs[i].amount
    ensures FeeSum(outputs[..i + 1]) == FeeSum(outputs[..i]) + (if IsFee(outputs[i]) then outputs[i].amount else 0)
  {
    assert outputs[..i + 1][..i] == outputs[..i];
  }

  // ---------------------------------------------------------------- loops over transactions

  lemma PlayedNothing(w: Work, b: Block, done: set<Tx>)
    ensures PlayedBlock(w, b, done, 0) == w && MadeIn(b.txs[..0], done) == map[]
  {
  }

  /** One more transaction, unless it is done already, and its fee. */
  lemma PlayedStep(w: Work, b: Block, done: set<Tx>, i: nat)
    requires i < |b.txs|
    ensures var x, tx := PlayedBlock(w, b, done, i), b.txs[i];
            var y := if tx in done then x else Moved(x, Apply(x.utxo, TxDone(tx)), Minted(TxDone(tx)));
            PlayedBlock(w, b, done, i + 1) == y.(utxo := Apply(y.utxo, FeePaid(tx, b.proposer)))
  {
    hide PlayEntries, ApplyAll, Total, Minted, Apply;
    var es, tx := PlayEntries(b.txs[..i], b.proposer, done), b.txs[i];
    PlayEntriesStep(b.txs, b.proposer, done, i);
    FeeMintsNothing(tx, b.proposer);
    if tx in done {
      assert es + [] + [FeePaid(tx, b.proposer)] == es + [FeePaid(tx, b.proposer)];
      ApplyAllSnoc(w.utxo, es, FeePaid(tx, b.proposer));
      TotalSnoc(es, FeePaid(tx, b.proposer));
    } else {
      ApplyAllSnoc(w.utxo, es, TxDone(tx));
      ApplyAllSnoc(w.utxo, es + [TxDone(tx)], FeePaid(tx, b.proposer));
      TotalSnoc(es, TxDone(tx));
      TotalSnoc(es + [TxDone(tx)], FeePaid(tx, b.proposer));
    }
  }

  lemma MadeInStep(txs: seq<Tx>, done: set<Tx>, i: nat)
    requires i < |txs|
    ensures var made, tx := MadeIn(txs[..i], done), txs[i];
            MadeIn(txs[..i + 1], done) == if tx in done then made else (made - Spent(tx.inputs).Keys) + Made(tx)
  {
    assert txs[..i + 1][..i] == txs[..i];
  }

  /** The work after the transactions of b from i on have been undone. */
  ghost function UndoneFrom(w: Work, b: Block, i: nat): Work
    requires i <= |b.txs|
  {
    var es := EntriesOf(b.txs[i..], b.proposer);
    Moved(w, RevertAll(w.utxo, es), -(Total(es) as int))
  }

  lemma UndoneEnds(w: Work, b: Block)
    ensures UndoneFrom(w, b, |b.txs|) == w && UndoneFrom(w, b, 0) == UndoneBlock(w, b)
  {
    assert b.txs[0..] == b.txs;
  }

  lemma {:induction false} EntriesOfCons(txs: seq<Tx>, proposer: Address)
    requires txs != []
    ensures EntriesOf(txs, proposer) == [TxDone(txs[0]), FeePaid(txs[0], proposer)] + EntriesOf(txs[1..], proposer)
    decreases |txs|
  {
    if |txs| > 1 {
      var front := txs[..|txs| - 1];
      EntriesOfCons(front, proposer);
      assert front[1..] == txs[1..][..|txs| - 2] && txs[1..][|txs| - 2] == txs[|txs| - 1];
    } else {
      assert txs[..0] == [] && txs[1..] == [];
    }
  }

  /** One more transaction undone, and its fee after it. */
  lemma UndoneStep(c: seq<Entry>, w: Work, b: Block, i: nat)
    requires i < |b.txs| && Distinct(c + BlockEntries(b)) && CleanAll(c + BlockEntries(b))
    ensures var x, tx := UndoneFrom(w, b, i + 1), b.txs[i];
            var y := Moved(x, Revert(x.utxo, TxDone(tx)), -(Minted(TxDone(tx)) as int));
            UndoneFrom(w, b, i) == y.(utxo := Revert(y.utxo, FeePaid(tx, b.proposer)))
  {
    hide EntriesOf, RevertAll, Total, Minted, Revert, Distinct, CleanAll;
    var tx, rest := b.txs[i], EntriesOf(b.txs[i + 1..], b.proposer);
    var two := [TxDone(tx), FeePaid(tx, b.proposer)];
    assert b.txs[i..][1..] == b.txs[i + 1..];
    EntriesOfCons(b.txs[i..], b.proposer);
    RevertAllConcat(w.utxo, two, rest);
    TotalConcat(two, rest);
    assert two == [TxDone(tx)] + [FeePaid(tx, b.proposer)];
    TotalSnoc([TxDone(tx)], FeePaid(tx, b.proposer));
    TotalOne(TxDone(tx));
    FeeMintsNothing(tx, b.proposer);
    var es := c + EntriesOf(b.txs[..i], b.proposer);
    PrefixReady(c, b, i);
    UndoTxAndFee(es, tx, b.proposer, RevertAll(w.utxo, rest));
  }

  lemma PrefixReady(c: seq<Entry>, b: Block, i: nat)
    requires i < |b.txs| && Distinct(c + BlockEntries(b)) && CleanAll(c + BlockEntries(b))
    ensures var es, tx := c + EntriesOf(b.txs[..i], b.proposer), b.txs[i];
            CleanAll(es + [TxDone(tx)]) && Distinct(es + [TxDone(tx), FeePaid(tx, b.proposer)])
  {
    hide Distinct, CleanAll;
    var es, tx, all := c + EntriesOf(b.txs[..i], b.proposer), b.txs[i], c + BlockEntries(b);
    EntriesOfPrefix(b.txs, b.proposer, i + 1);
    EntriesOfStep(b.txs, b.proposer, i);
    assert all[..|es| + 2] == es + [TxDone(tx), FeePaid(tx, b.proposer)];
    assert all[..|es| + 1] == es + [TxDone(tx)];
    PrefixDistinct(all, |es| + 2);
    CleanAllPrefix(all, |es| + 1);
  }

  /** The work after the transactions of the order from i on have been rolled back. */
  ghost function RolledFrom(w: Work, order: seq<Tx>, i: nat): Work
    requires i <= |order|
  {
    RolledBack(w, order[i..])
  }

  lemma RolledEnds(w: Work, order: seq<Tx>)
    ensures RolledFrom(w, order, |order|) == w && RolledFrom(w, order, 0) == RolledBack(w, order)
  {
    assert order[0..] == order && order[|order|..] == [];
    assert PendingEntries([]) == [];
  }

  lemma RolledStep(w: Work, order: seq<Tx>, i: nat)
    requires i < |order|
    ensures var x, tx := RolledFrom(w, order, i + 1), order[i];
            RolledFrom(w, order, i) == Moved(x, Revert(x.utxo, TxDone(tx)), -(Minted(TxDone(tx)) as int))
  {
    hide RevertAll, Total, Minted, Revert;
    var tx, rest := order[i], PendingEntries(order[i + 1..]);
    assert PendingEntries(order[i..]) == [TxDone(tx)] + rest;
    RevertAllConcat(w.utxo, [TxDone(tx)], rest);
    RevertOne(RevertAll(w.utxo, rest), TxDone(tx));
    TotalConcat([TxDone(tx)], rest);
    TotalOne(TxDone(tx));
  }

  lemma RevertOne(t: Table, e: Entry)
    ensures RevertAll(t, [e]) == Revert(t, e)
  {
    assert [e][..0] == [];
  }

  class State {
    const ledger: Ledger.Ledger
    const window: nat
    var utxo: Table
    var total: int
    var memTotal: int
    var latest: BlockId
    var unconfirmed: seq<Tx>
    var irreversibleHeight: nat

    ghost function Now(): View
      reads this
    {
      View(utxo, total, memTotal, latest, unconfirmed, irreversibleHeight)
    }

    /** A state machine that has played nothing yet. */
    constructor (ledger: Ledger.Ledger, window: nat)
      requires LedgerOk(ledger.db)
      ensures this.ledger == ledger && this.window == window && Now() == View(map[], 0, 0, "", [], 0)
      ensures Tracks(ledger.db, Now()) && Exact(ledger.db, Now())
    {
      this.ledger := ledger;
      this.window := window;
      utxo, total, memTotal, latest, unconfirmed, irreversibleHeight := map[], 0, 0, "", [], 0;
      new;
      assert ChainEntries(ledger.db, "") + PendingEntries([]) == [];
    }

    /** The input is looked up in the UTXO cache, then in the batch cache, then in the table. */
    method Lookup(made: Table, cached: Table, key: Key) returns (item: Option<Item>)
      ensures var seen := utxo + made + cached; item == if key in seen then Some(seen[key]) else None
    {
      if key in cached {
        return Some(cached[key]);
      }
      if key in made {
        return Some(made[key]);
      }
      return if key in utxo then Some(utxo[key]) else None;
    }

    method CheckInputEqualOutput(tx: Tx, made: Table, cached: Table) returns (ok: bool)
      ensures ok <==> Checks(utxo + made + cached, tx, ledger.db.trunkHeight)
    {
      var outputSum := 0;
      for i := 0 to |tx.outputs|
        invariant outputSum == OutSum(tx.outputs[..i])
      {
        OutputStep(tx.outputs, i);
        outputSum := outputSum + tx.outputs[i].amount;
      }
      assert tx.outputs[..|tx.outputs|] == tx.outputs;
      var inputsOk, inputSum := CheckInputs(tx.inputs, made, cached);
      return inputsOk && (inputSum == outputSum || (inputSum == 0 && tx.coinbase));
    }

    method CheckInputs(inputs: seq<TxInput>, made: Table, cached: Table) returns (ok: bool, inputSum: nat)
      ensures ok <==> NoDuplicateInputs(inputs)
                      && forall i | 0 <= i < |inputs| ::
                           InputOk(utxo + made + cached, inputs[i], ledger.db.trunkHeight)
      ensures ok ==> inputSum == InSum(inputs)
    {
      inputSum := 0;
      ghost var seen := utxo + made + cached;
      var dedup: set<Key> := {};
      for i := 0 to |inputs|
        invariant inputSum == InSum(inputs[..i])
        invariant dedup == Spent(inputs[..i]).Keys
        invariant NoDuplicateInputs(inputs[..i])
        invariant forall j | 0 <= j < i :: InputOk(seen, inputs[j], ledger.db.trunkHeight)
      {
        SpentStep(inputs, i);
        DuplicateStep(inputs, i);
        var key := InputKey(inputs[i]);
        if key in dedup {
          return false, 0;
        }
        dedup := dedup + {key};
        var item := Lookup(made, cached, key);
        if item.None? {
          return false, 0;
        }
        if item.value.amount != inputs[i].amount || !inputs[i].minimal {
          return false, 0;
        }
        if item.value.frozenHeight > ledger.db.trunkHeight || item.value.frozenHeight == -1 {
          return false, 0;
        }
        inputSum := inputSum + item.value.amount;
      }
      assert inputs[..|inputs|] == inputs;
      ok := true;
    }

    /** Does a transaction in the batch. The in-memory total changes at once. What the batch has deleted
        is still in the table that the check falls back to. */
    method DoTxInternal(tx: Tx, batch: Batch, cached: Table) returns (ok: bool, r: Batch)
      modifies this`memTotal
      ensures ok <==> Checks(utxo + batch.made + cached, tx, ledger.db.trunkHeight)
      ensures ok ==> WorkFrom(r, memTotal)
                     == Moved(WorkFrom(batch, old(memTotal)), Apply(batch.utxo, TxDone(tx)), Minted(TxDone(tx)))
      ensures ok ==> r.made == (batch.made - Spent(tx.inputs).Keys) + Made(tx)
      ensures !ok ==> memTotal == old(memTotal)
    {
      hide Made, Minted;
      ok := CheckInputEqualOutput(tx, batch.made, cached);
      r := batch;
      if !ok {
        return;
      }
      for i := 0 to |tx.inputs|
        invariant memTotal == old(memTotal)
        invariant r == batch.(utxo := batch.utxo - Spent(tx.inputs[..i]).Keys,
                              made := batch.made - Spent(tx.inputs[..i]).Keys)
      {
        SpentStep(tx.inputs, i);
        var key := InputKey(tx.inputs[i]);
        ghost var item := Item(tx.inputs[i].amount, tx.inputs[i].frozenHeight);
        MinusInsert(batch.utxo, Spent(tx.inputs[..i]), key, item);
        MinusInsert(batch.made, Spent(tx.inputs[..i]), key, item);
        r := r.(utxo := r.utxo - {key}, made := r.made - {key});
      }
      assert tx.inputs[..|tx.inputs|] == tx.inputs;
      r := AddOutputs(tx, r);
    }

    method AddOutputs(tx: Tx, batch: Batch) returns (r: Batch)
      modifies this`memTotal
      ensures WorkFrom(r, memTotal)
           == Moved(WorkFrom(batch, old(memTotal)), batch.utxo + Made(tx), Minted(TxDone(tx)))
      ensures r.made == batch.made + Made(tx)
    {
      hide MadeBefore, MintedBefore, Made, Minted;
      r := batch;
      NoneMade(tx);
      Neutral(batch.utxo, MadeBefore(tx, 0));
      Neutral(batch.made, MadeBefore(tx, 0));
      for i := 0 to |tx.outputs|
        invariant MintedBefore(tx, i) >= 0 && r.made == batch.made + MadeBefore(tx, i)
        invariant WorkFrom(r, memTotal)
               == Moved(WorkFrom(batch, old(memTotal)), batch.utxo + MadeBefore(tx, i), MintedBefore(tx, i))
      {
        MadeStep(tx, i);
        var output := tx.outputs[i];
        if IsFee(output) {
          continue;
        }
        if output.amount == 0 {
          continue;
        }
        var key, item := Key(output.toAddr, tx.txid, i), Item(output.amount, output.frozenHeight);
        PlusInsert(batch.utxo, MadeBefore(tx, i), key, item);
        PlusInsert(batch.made, MadeBefore(tx, i), key, item);
        r := r.(utxo := r.utxo[key := item], made := r.made[key := item]);
        if tx.coinbase {
          memTotal := memTotal + output.amount;
          r := r.(total := memTotal);
        }
      }
      AllMade(tx);
    }

    /** Undoes a transaction in the batch. */
    method UndoTxInternal(tx: Tx, batch: Batch) returns (r: Batch)
      modifies this`memTotal
      ensures WorkFrom(r, memTotal)
           == Moved(WorkFrom(batch, old(memTotal)), Revert(batch.utxo, TxDone(tx)), -(Minted(TxDone(tx)) as int))
      ensures r.made == batch.made
    {
      hide Made, Minted;
      r := batch;
      for i := 0 to |tx.inputs|
        invariant memTotal == old(memTotal)
        invariant r == batch.(utxo := batch.utxo + Spent(tx.inputs[..i]))
      {
        SpentStep(tx.inputs, i);
        var key, item := InputKey(tx.inputs[i]), Item(tx.inputs[i].amount, tx.inputs[i].frozenHeight);
        PlusInsert(batch.utxo, Spent(tx.inputs[..i]), key, item);
        r := r.(utxo := r.utxo[key := item]);
      }
      assert tx.inputs[..|tx.inputs|] == tx.inputs;
      r := RemoveOutputs(tx, r);
    }

    method RemoveOutputs(tx: Tx, batch: Batch) returns (r: Batch)
      modifies this`memTotal
      ensures WorkFrom(r, memTotal)
           == Moved(WorkFrom(batch, old(memTotal)), batch.utxo - Made(tx).Keys, -(Minted(TxDone(tx)) as int))
      ensures r.made == batch.made
    {
      hide MadeBefore, MintedBefore, Made, Minted;
      r := batch;
      NoneMade(tx);
      Neutral(batch.utxo, MadeBefore(tx, 0));
      for i := 0 to |tx.outputs|
        invariant MintedBefore(tx, i) >= 0 && r.made == batch.made
        invariant WorkFrom(r, memTotal)
               == Moved(WorkFrom(batch, old(memTotal)), batch.utxo - MadeBefore(tx, i).Keys, -MintedBefore(tx, i))
      {
        MadeStep(tx, i);
        var output := tx.outputs[i];
        if IsFee(output) {
          continue;
        }
        if output.amount == 0 {
          continue;
        }
        var key := Key(output.toAddr, tx.txid, i);
        MinusInsert(batch.utxo, MadeBefore(tx, i), key, Item(output.amount, output.frozenHeight));
        r := r.(utxo := r.utxo - {key});
        if tx.coinbase {
          memTotal := memTotal - output.amount;
          r := r.(total := memTotal);
        }
      }
      AllMade(tx);
    }

    method PayFee(tx: Tx, batch: Batch, proposer: Address) returns (r: Batch)
      ensures r == batch.(utxo := Apply(batch.utxo, FeePaid(tx, proposer)))
    {
      hide FeesBefore;
      r := batch;
      NoneFees(tx, proposer);
      Neutral(batch.utxo, FeesBefore(tx, proposer, 0));
      for i := 0 to |tx.outputs|
        invariant r == batch.(utxo := batch.utxo + FeesBefore(tx, proposer, i))
      {
        FeesBeforeStep(tx, proposer, i);
        if !IsFee(tx.outputs[i]) {
          continue;
        }
        var key, item := Key(proposer, tx.txid, i), Item(tx.outputs[i].amount, 0);
        PlusInsert(batch.utxo, FeesBefore(tx, proposer, i), key, item);
        r := r.(utxo := r.utxo[key := item]);
      }
      AllFees(tx, proposer);
      Neutral(batch.utxo, Del(FeePaid(tx, proposer)));
    }

    method UndoPayFee(tx: Tx, batch: Batch, proposer: Address) returns (r: Batch)
      ensures r == batch.(utxo := Revert(batch.utxo, FeePaid(tx, proposer)))
    {
      hide FeesBefore;
      r := batch;
      NoneFees(tx, proposer);
      Neutral(batch.utxo, FeesBefore(tx, proposer, 0));
      for i := 0 to |tx.outputs|
        invariant r == batch.(utxo := batch.utxo - FeesBefore(tx, proposer, i).Keys)
      {
        FeesBeforeStep(tx, proposer, i);
        if !IsFee(tx.outputs[i]) {
          continue;
        }
        var key := Key(proposer, tx.txid, i);
        MinusInsert(batch.utxo, FeesBefore(tx, proposer, i), key, Item(tx.outputs[i].amount, 0));
        r := r.(utxo := r.utxo - {key});
      }
      AllFees(tx, proposer);
      Neutral(batch.utxo, Del(FeePaid(tx, proposer)));
    }

    // ------------------------------------------------------------ whole blocks

    /** Undoes the transactions of a block, last first, skipping those already undone. */
    method UndoTxs(b: Block, undoDone: set<TxId>, pending: Batch, ghost c: seq<Entry>) returns (batch: Batch)
      requires Distinct(c + BlockEntries(b)) && CleanAll(c + BlockEntries(b))
      requires forall i | 0 <= i < |b.txs| :: b.txs[i].txid !in undoDone
      modifies this`memTotal
      ensures WorkFrom(batch, memTotal) == UndoneBlock(WorkFrom(pending, old(memTotal)), b)
    {
      hide UndoneFrom, UndoneBlock, Distinct, CleanAll, EntriesOf, Minted, Revert;
      batch := pending;
      ghost var w := WorkFrom(pending, old(memTotal));
      UndoneEnds(w, b);
      var i := |b.txs|;
      while i > 0
        invariant 0 <= i <= |b.txs| && WorkFrom(batch, memTotal) == UndoneFrom(w, b, i)
      {
        i := i - 1;
        UndoneStep(c, w, b, i);
        var tx := b.txs[i];
        if tx.txid !in undoDone {
          batch := UndoTxInternal(tx, batch);
        }
        batch := UndoPayFee(tx, batch, b.proposer);
      }
    }

    /** Does the transactions of a block that are not in done, in order, and pays all fees, up to the first
        transaction that is refused. */
    method PlayTxs(b: Block, done: set<Tx>, env: Env, pending: Batch) returns (ok: bool, batch: Batch)
      requires pending.made == map[]
      modifies this`memTotal
      ensures var n := FirstRefused(utxo, b, done, env, ledger.db.trunkHeight, 0);
              && WorkFrom(batch, memTotal) == PlayedBlock(WorkFrom(pending, old(memTotal)), b, done, n)
              && (ok <==> n == |b.txs|)
    {
      hide PlayedBlock, Minted, Apply, Checks, Made, MadeIn;
      batch := pending;
      ghost var w, h := WorkFrom(pending, old(memTotal)), ledger.db.trunkHeight;
      PlayedNothing(w, b, done);
      for i := 0 to |b.txs|
        invariant WorkFrom(batch, memTotal) == PlayedBlock(w, b, done, i) && batch.made == MadeIn(b.txs[..i], done)
        invariant forall j | 0 <= j < i :: !Refused(utxo, b, done, env, h, j)
      {
        var tx := b.txs[i];
        PlayedStep(w, b, done, i);
        MadeInStep(b.txs, done, i);
        if tx !in done {
          if !tx.coinbase && tx.txid in env.unverified {
            FirstRefusedIs(utxo, b, done, env, h, 0, i);
            return false, batch;
          }
          var did, next := DoTxInternal(tx, batch, env.caches(b.id, i));
          if !did {
            FirstRefusedIs(utxo, b, done, env, h, 0, i);
            return false, batch;
          }
          batch := next;
        }
        batch := PayFee(tx, batch, b.proposer);
      }
      FirstRefusedIs(utxo, b, done, env, h, 0, |b.txs|);
      ok := true;
    }

    /** Undoes the latest block, as one atomic write. */
    method UndoBlock(b: Block, undoDone: set<TxId>, ledgerPrune: bool, unwritable: set<BlockId>) returns (ok: bool)
      requires OnTop(ledger.db, Now(), b)
      requires forall i | 0 <= i < |b.txs| :: b.txs[i].txid !in undoDone
      modifies this
      ensures Now() == AfterUndo(ledger.db, old(Now()), b, ledgerPrune, unwritable, window)
      ensures ok <==> UndoOk(ledger.db, old(Now()), b, ledgerPrune, unwritable)
      ensures Tracks(ledger.db, Now())
    {
      hide Tracks, UndoneBlock, ChainEntries;
      UndoKeeps(ledger.db, Now(), b, ledgerPrune, unwritable, window);
      if !ledgerPrune && b.height <= irreversibleHeight {
        return false;
      }
      UndoReady(ledger.db, Now(), b);
      var batch := UndoTxs(b, undoDone, Batch(utxo, total, map[]), ChainEntries(ledger.db, b.preHash));
      if b.preHash !in ledger.db.blocks || b.preHash in unwritable {
        return false;
      }
      if ledgerPrune {
        irreversibleHeight := NextIrreversibleHeightForPrune(b.height, irreversibleHeight, window);
      }
      utxo, total, latest := batch.utxo, batch.total, b.preHash;
      return true;
    }

    /** Does a block, as one atomic write. env holds the transactions that fail their immediate
        verification and the contents of the UTXO cache, unwritable the blocks whose batch cannot be
        written. */
    method TodoBlock(b: Block, env: Env, unwritable: set<BlockId>) returns (ok: bool)
      modifies this
      ensures Now() == AfterTodo(ledger.db, old(Now()), b, env, unwritable, window)
      ensures ok <==> TodoOk(ledger.db, old(Now()), b, env, unwritable)
    {
      hide PlayedBlock, Refused;
      var did, batch := PlayTxs(b, {}, env, Batch(utxo, total, map[]));
      if !did {
        return false;
      }
      if b.id in unwritable {
        return false;
      }
      irreversibleHeight := NextIrreversibleHeight(b.height, irreversibleHeight, window);
      utxo, total, latest := batch.utxo, batch.total, b.id;
      return true;
    }

    // ------------------------------------------------------------ walking

    /** Undoes a branch, tip first, up to the first block that cannot be undone. */
    method ProcUndoBlkForWalk(undo: seq<Block>, undoDone: set<TxId>, ghost a: BlockId, ghost s: Setting,
                              ledgerPrune: bool, unwritable: set<BlockId>)
      returns (ok: bool)
      requires Tracks(ledger.db, Now()) && unconfirmed == [] && BranchBelow(ledger.db, a, latest, undo)
      requires forall e | e in ChainEntries(ledger.db, latest) :: e.tx.txid !in undoDone
      requires ledgerPrune == s.ledgerPrune && unwritable == s.unwritable && window == s.window
      modifies this
      ensures Now() == UndoRun(ledger.db, old(Now()), undo, s, |undo|)
      ensures ok <==> UndoRunOk(ledger.db, old(Now()), undo, s, |undo|)
    {
      hide Tracks, AfterUndo, UndoOk, BranchBelow, ChainEntries, Path, Undone;
      ghost var d, v := ledger.db, Now();
      BranchParts(d, a, v.latest, undo);
      for i := 0 to |undo|
        invariant ledger.db == d && Now() == UndoRun(d, v, undo, s, i) && UndoRunOk(d, v, undo, s, i)
      {
        UndoRunKeeps(d, v, a, undo, s, i);
        UndoAt(d, v, a, undo, undoDone, i);
        NextOnTop(d, v, a, undo, Now(), i);
        ok := UndoBlock(undo[i], undoDone, ledgerPrune, unwritable);
        if !ok {
          UndoRunStops(d, v, undo, s, i + 1, |undo|);
          return;
        }
      }
      ok := true;
    }

    /** Does a branch, tip last, up to the first block that cannot be done. */
    method ProcTodoBlkForWalk(todo: seq<Block>, env: Env, unwritable: set<BlockId>, ghost s: Setting)
      returns (ok: bool)
      requires env == s.env && unwritable == s.unwritable && window == s.window
      modifies this
      ensures Now() == TodoRun(ledger.db, old(Now()), todo, s, |todo|)
      ensures ok <==> TodoRunOk(ledger.db, old(Now()), todo, s, |todo|)
    {
      hide AfterTodo, TodoOk;
      ghost var d, v := ledger.db, Now();
      var i := |todo|;
      while i > 0
        invariant 0 <= i <= |todo| && ledger.db == d
        invariant Now() == TodoRun(d, v, todo, s, |todo| - i) && TodoRunOk(d, v, todo, s, |todo| - i)
      {
        i := i - 1;
        ok := TodoBlock(todo[i], env, unwritable);
        if !ok {
          TodoRunStops(d, v, todo, s, |todo| - i, |todo|);
          return;
        }
      }
      ok := true;
    }

    /** Moves the state machine to block dest. order is the dependency order in which sorting returned
        the unconfirmed transactions; written says whether the batch that rolls them back is written;
        env and unwritable are as for TodoBlock. */
    method Walk(dest: BlockId, ledgerPrune: bool, order: seq<Tx>, written: bool, env: Env, unwritable: set<BlockId>)
      returns (ok: bool)
      requires LedgerOk(ledger.db) && Tracks(ledger.db, Now())
      requires DependencyOrder(ChainEntries(ledger.db, latest), unconfirmed, order)
      modifies this
      ensures var s := Setting(ledgerPrune, order, written, env, unwritable, window);
              Walked(ledger.db, old(Now()), dest, s, Now(), ok)
      ensures Playable(ledger.db, latest) && (Tracks(ledger.db, Now()) <==> ChainFits(ledger.db, latest))
      ensures SoundCaches(ledger.db, env) ==> (Tracks(ledger.db, Now()) <==> SpendsOnce(ledger.db, latest))
      ensures ok ==> latest == dest && Drift(ledger.db, Now()) == Drift(ledger.db, old(Now()))
      ensures ok && dest != old(latest) ==> unconfirmed == []
    {
      hide Tracks, AfterRollBack, DependencyOrder, UndoRun, TodoRun, UndoRunOk, TodoRunOk, ChainEntries, BranchBelow,
           Path, ChainFits, SpendsOnce, SoundCaches;
      ghost var d, v := ledger.db, Now();
      ghost var s := Setting(ledgerPrune, order, written, env, unwritable, window);
      TracksFits(d, v);
      if dest == latest {
        return true;
      }
      RollBackKeeps(d, v, order, written);
      RollBackStays(v, order, written);
      TracksFits(d, AfterRollBack(v, order, written));
      OrderNotOnChain(d, v, order);
      var rolled, undoDone := RollBackUnconfirmedTx(order, written);
      if !rolled {
        return false;
      }
      var r := ledger.FindUndoAndTodoBlocks(latest, dest);
      if r.None? {
        return false;
      }
      ghost var a :| Ledger.IsUndoTodo(d, latest, dest, a, r.value.0, r.value.1);
      BetweenFound(d, latest, dest, a, r.value.0, r.value.1);
      ghost var u := Now();
      ok := ProcUndoBlkForWalk(r.value.0, undoDone, a, s, ledgerPrune, unwritable);
      if ok {
        ok := ProcTodoBlkForWalk(r.value.1, env, unwritable, s);
      }
      assert WalkedOver(d, v, a, r.value.0, r.value.1, s, Now(), ok);
      WalkOverKeeps(d, v, dest, a, r.value.0, r.value.1, s, Now(), ok);
    }

    // ------------------------------------------------------------ unconfirmed transactions

    /** Submits an unconfirmed transaction. */
    method DoTxSync(tx: Tx, o: Intake) returns (ok: bool)
      modifies this
      ensures Now() == AfterSubmit(ledger.db, old(Now()), tx, o)
      ensures ok <==> Enters(ledger.db, old(Now()), tx, o) && o.written
    {
      hide Checks, Apply, Revert, Minted, Made;
      if !o.locked {
        return false;
      }
      if exists i :: 0 <= i < |unconfirmed| && unconfirmed[i].txid == tx.txid {
        return false;
      }
      if o.full {
        return false;
      }
      assert utxo + map[] + o.cached == utxo + o.cached;
      var done, batch := DoTxInternal(tx, Batch(utxo, total, map[]), o.cached);
      if !done {
        return false;
      }
      if !o.putOk {
        var _ := UndoTxInternal(tx, batch);
        return false;
      }
      unconfirmed := unconfirmed + [tx];
      if !o.written {
        return false;
      }
      utxo, total := batch.utxo, batch.total;
      return true;
    }

    /** Undoes unconfirmed transactions in the batch, last first. */
    method UndoPending(order: seq<Tx>, pending: Batch) returns (batch: Batch, undoDone: set<TxId>)
      requires DistinctIds(order)
      modifies this`memTotal
      ensures WorkFrom(batch, memTotal) == RolledBack(WorkFrom(pending, old(memTotal)), order)
      ensures batch.made == pending.made && undoDone == IdSet(order)
    {
      hide RolledFrom, RolledBack, Minted, Revert;
      batch := pending;
      undoDone := {};
      ghost var w := WorkFrom(pending, old(memTotal));
      RolledEnds(w, order);
      var i := |order|;
      while i > 0
        invariant 0 <= i <= |order| && WorkFrom(batch, memTotal) == RolledFrom(w, order, i)
        invariant batch.made == pending.made && undoDone == IdSet(order[i..])
      {
        i := i - 1;
        var tx := order[i];
        OrderIdsDistinct(order, i);
        RolledStep(w, order, i);
        if tx.txid !in undoDone {
          batch := UndoTxInternal(tx, batch);
          undoDone := undoDone + {tx.txid};
        }
      }
      assert order[0..] == order;
    }

    /** Rolls back all unconfirmed transactions, in the reverse of the order that sorting them gave. */
    method RollBackUnconfirmedTx(order: seq<Tx>, written: bool) returns (ok: bool, undoDone: set<TxId>)
      requires DistinctIds(order)
      modifies this
      ensures Now() == AfterRollBack(old(Now()), order, written) && ok == written
      ensures ok ==> undoDone == IdSet(order)
    {
      hide RolledBack;
      var batch;
      batch, undoDone := UndoPending(order, Batch(utxo, total, map[]));
      if !written {
        return false, undoDone;
      }
      utxo, total, unconfirmed := batch.utxo, batch.total, [];
      return true, undoDone;
    }

    // ------------------------------------------------------------ blocks on top of unconfirmed transactions

    /** Plays a block this node has mined from its unconfirmed transactions. */
    method PlayForMiner(blockid: BlockId, env: Env, unwritable: set<BlockId>) returns (ok: bool)
      requires TxsStored(ledger.db)
      modifies this
      ensures if blockid in ledger.db.blocks && ledger.db.blocks[blockid].preHash == old(latest) then
                var b := BlockOf(ledger.db, blockid);
                && Now() == AfterMine(ledger.db, old(Now()), b, env, blockid in unwritable, window)
                && (ok <==> MineOk(ledger.db, old(Now()), b, env, blockid in unwritable))
              else Now() == old(Now()) && !ok
    {
      hide PlayedBlock, Refused;
      var found := ledger.QueryBlock(blockid);
      if found.None? {
        return false;
      }
      var b := found.value;
      if b.preHash != latest {
        return false;
      }
      var did, batch := PlayTxs(b, UserTxs(b), Unchecked(env), Batch(utxo, total, map[]));
      if !did || blockid in unwritable {
        return false;
      }
      irreversibleHeight := NextIrreversibleHeight(b.height, irreversibleHeight, window);
      var ids := set i | 0 <= i < |b.txs| :: b.txs[i].txid;
      utxo, total, latest, unconfirmed := batch.utxo, batch.total, b.id, Unmined(unconfirmed, ids);
      return true;
    }

    /** No output is spent twice in the block. */
    method CheckBlockInputs(b: Block) returns (ok: bool)
      ensures ok <==> NoDuplicateInputs(AllInputs(b.txs))
    {
      hide AllInputs, Spent, NoDuplicateInputs;
      ghost var all := AllInputs(b.txs);
      var keys: set<Key> := {};
      NoInputs(b.txs);
      assert all[..0] == [];
      for i := 0 to |b.txs|
        invariant |AllInputs(b.txs[..i])| <= |all|
        invariant keys == Spent(all[..|AllInputs(b.txs[..i])|]).Keys
        invariant NoDuplicateInputs(all[..|AllInputs(b.txs[..i])|])
      {
        ghost var m := |AllInputs(b.txs[..i])|;
        AllInputsGrow(b.txs, i, i + 1);
        AllInputsLast(b.txs, i);
        var inputs := b.txs[i].inputs;
        for j := 0 to |inputs|
          invariant m + j <= |all| && keys == Spent(all[..m + j]).Keys && NoDuplicateInputs(all[..m + j])
        {
          AllInputsAt(b.txs, i, j);
          SpentStep(all, m + j);
          DuplicateStep(all, m + j);
          var key := InputKey(inputs[j]);
          if key in keys {
            return false;
          }
          keys := keys + {key};
        }
      }
      assert b.txs[..|b.txs|] == b.txs && all[..|all|] == all;
      ok := true;
    }

    /** Plays a block received from elsewhere: the unconfirmed transactions in conflict with it are undone,
        what has not been done already is done, and the transactions that were in conflict are dropped. */
    method PlayAndRepost(blockid: BlockId, r: Repost) returns (ok: bool)
      requires TxsStored(ledger.db) && DistinctIds(r.conflicts)
      modifies this
      ensures if blockid in ledger.db.blocks && ledger.db.blocks[blockid].preHash == old(latest) then
                var b := BlockOf(ledger.db, blockid);
                && Now() == AfterRepost(ledger.db, old(Now()), b, r, window)
                && (ok <==> RepostOk(ledger.db, old(Now()), b, r))
              else Now() == old(Now()) && !ok
    {
      hide PlayedBlock, Refused, RolledBack;
      var found := ledger.QueryBlock(blockid);
      if found.None? {
        return false;
      }
      var b := found.value;
      if b.preHash != latest {
        return false;
      }
      var once := CheckBlockInputs(b);
      if !once {
        return false;
      }
      var pooled := set i | 0 <= i < |unconfirmed| :: unconfirmed[i].txid;
      var done := set tx | tx in b.txs && tx.txid in pooled;
      assert done == Pooled(b, unconfirmed);
      var cleared, undone := UndoPending(r.conflicts, Batch(utxo, total, map[]));
      if !r.verified {
        return false;
      }
      var did, batch := PlayTxs(b, done, Unchecked(r.env), cleared);
      if !did || !r.written {
        return false;
      }
      irreversibleHeight := NextIrreversibleHeight(b.height, irreversibleHeight, window);
      var ids := set i | 0 <= i < |b.txs| :: b.txs[i].txid;
      utxo, total, latest := batch.utxo, batch.total, b.id;
      unconfirmed := Unmined(Unmined(unconfirmed, undone), ids);
      return true;
    }
  }

  lemma NoInputs(txs: seq<Tx>)
    ensures AllInputs(txs[..0]) == [] && Spent([]) == map[] && NoDuplicateInputs([])
  {
  }

  lemma AllInputsLast(txs: seq<Tx>, i: nat)
    requires i < |txs|
    ensures AllInputs(txs[..i + 1]) == AllInputs(txs[..i]) + txs[i].inputs
    ensures |AllInputs(txs[..i + 1])| <= |AllInputs(txs)|
  {
    assert txs[..i + 1][..i] == txs[..i];
    AllInputsPrefix(txs, i + 1);
  }

  lemma {:induction false} AllInputsPrefix(txs: seq<Tx>, i: nat)
    requires i <= |txs|
    ensures |AllInputs(txs[..i])| <= |AllInputs(txs)|
    decreases |txs|
  {
    if i < |txs| {
      AllInputsPrefix(txs[..|txs| - 1], i);
      assert txs[..|txs| - 1][..i] == txs[..i];
    } else {
      assert txs[..i] == txs;
    }
  }

  lemma UndoReady(d: Tables, v: View, b: Block)
    requires OnTop(d, v, b)
    ensures Playable(d, b.preHash)
    ensures var c := ChainEntries(d, b.preHash); Distinct(c + BlockEntries(b)) && CleanAll(c + BlockEntries(b))
  {
    hide Distinct, CleanAll, EntriesOf, PendingEntries;
    ChainStep(d, v.latest);
    NothingPending(d, v.latest);
  }

  /** The transactions of block i of the branch have not been rolled back. */
  lemma UndoAt(d: Tables, v: View, a: BlockId, undo: seq<Block>, undoDone: set<TxId>, i: nat)
    requires BranchBelow(d, a, v.latest, undo) && i < |undo|
    requires forall e | e in ChainEntries(d, v.latest) :: e.tx.txid !in undoDone
    ensures forall j | 0 <= j < |undo[i].txs| :: undo[i].txs[j].txid !in undoDone
  {
    hide Path, EntriesOf, LedgerOk;
    BranchParts(d, a, v.latest, undo);
    BranchLength(d, a, v.latest, undo, i);
    var h := d.blocks[v.latest].height - i;
    StepAt(d, v.latest, h);
    var x := BlockAt(d, v.latest, h);
    AboveSplits(d, x, v.latest);
    forall j | 0 <= j < |undo[i].txs|
      ensures undo[i].txs[j].txid !in undoDone
    {
      var e := TxDone(undo[i].txs[j]);
      InEntriesOf(undo[i].txs, undo[i].proposer, e);
      assert e in ChainEntries(d, x);
      assert e in ChainEntries(d, v.latest);
    }
  }

  /** Block i of the branch is on top once the ones above it are undone. */
  lemma NextOnTop(d: Tables, v: View, a: BlockId, undo: seq<Block>, u: View, i: nat)
    requires BranchBelow(d, a, v.latest, undo) && i < |undo| && Tracks(d, u) && u.unconfirmed == []
    requires i <= d.blocks[v.latest].height
    requires u.latest == BlockAt(d, v.latest, d.blocks[v.latest].height - i)
    ensures OnTop(d, u, undo[i])
  {
    BranchLength(d, a, v.latest, undo, i);
  }

  lemma {:induction false} UndoRunStops(d: Tables, v: View, undo: seq<Block>, s: Setting, i: nat, n: nat)
    requires i <= n <= |undo| && !UndoRunOk(d, v, undo, s, i)
    ensures !UndoRunOk(d, v, undo, s, n) && UndoRun(d, v, undo, s, n) == UndoRun(d, v, undo, s, i)
  {
    if i < n {
      UndoRunStops(d, v, undo, s, i, n - 1);
    }
  }

  lemma {:induction false} TodoRunStops(d: Tables, v: View, todo: seq<Block>, s: Setting, i: nat, n: nat)
    requires i <= n <= |todo| && !TodoRunOk(d, v, todo, s, i)
    ensures !TodoRunOk(d, v, todo, s, n) && TodoRun(d, v, todo, s, n) == TodoRun(d, v, todo, s, i)
  {
    if i < n {
      TodoRunStops(d, v, todo, s, i, n - 1);
    }
  }

  lemma BetweenFound(d: Tables, cur: BlockId, dest: BlockId, a: BlockId, undo: seq<Block>, todo: seq<Block>)
    requires LedgerOk(d) && cur in d.blocks && dest in d.blocks && Ledger.IsUndoTodo(d, cur, dest, a, undo, todo)
    ensures Between(d, cur, dest, a, undo, todo)
  {
  }

  /** What is rolled back is not on the chain, and each id is rolled back once. */
  lemma OrderNotOnChain(d: Tables, v: View, order: seq<Tx>)
    requires Tracks(d, v) && DependencyOrder(ChainEntries(d, v.latest), v.unconfirmed, order)
    ensures Playable(d, v.latest) && forall e | e in ChainEntries(d, v.latest) :: e.tx.txid !in IdSet(order)
    ensures DistinctIds(order)
  {
    forall e | e in ChainEntries(d, v.latest)
      ensures e.tx.txid !in IdSet(order)
    {
      forall i | 0 <= i < |order|
        ensures order[i].txid != e.tx.txid
      {
        PendingNotOnChain(d, v.latest, order, e, order[i]);
      }
    }
    var c, es := ChainEntries(d, v.latest), ChainEntries(d, v.latest) + PendingEntries(order);
    forall i, j | 0 <= i < j < |order|
      ensures order[i].txid != order[j].txid
    {
      assert es[|c| + i] == TxDone(order[i]) && es[|c| + j] == TxDone(order[j]);
    }
  }

  lemma OrderIdsDistinct(order: seq<Tx>, i: nat)
    requires DistinctIds(order) && i < |order|
    ensures order[i].txid !in IdSet(order[i + 1..])
    ensures IdSet(order[i..]) == IdSet(order[i + 1..]) + {order[i].txid}
  {
    forall x
      ensures x in IdSet(order[i..]) <==> x in IdSet(order[i + 1..]) || x == order[i].txid
    {
      if x in IdSet(order[i..]) {
        var k :| 0 <= k < |order[i..]| && order[i..][k].txid == x;
        assert k > 0 ==> order[i + 1..][k - 1].txid == x;
      }
      if x in IdSet(order[i + 1..]) {
        var k :| 0 <= k < |order[i + 1..]| && order[i + 1..][k].txid == x;
        assert order[i..][k + 1].txid == x;
      }
      assert order[i..][0] == order[i];
    }
  }
}
