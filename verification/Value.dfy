/** Conservation of value: the sum of the UTXO table against the recorded total. */
module Value {
  import opened Types
  import opened Utxo

  ghost function Sum(t: Table): nat {
    if t == map[] then 0
    else
      var k :| k in t;
      t[k].amount + Sum(t - {k})
  }

  lemma {:induction false} SumRemove(t: Table, k: Key)
    requires k in t
    ensures Sum(t) == t[k].amount + Sum(t - {k})
    decreases |t|
  {
    var p :| p in t && Sum(t) == t[p].amount + Sum(t - {p});
    if p != k {
      SumRemove(t - {p}, k);
      SumRemove(t - {k}, p);
      assert (t - {p}) - {k} == (t - {k}) - {p};
    }
  }

  lemma SumInsert(t: Table, k: Key, v: Item)
    requires k !in t
    ensures Sum(t[k := v]) == Sum(t) + v.amount
  {
    SumRemove(t[k := v], k);
    assert t[k := v] - {k} == t;
  }

  lemma UnionInsert(a: Table, b: Table, k: Key)
    requires a.Keys !! b.Keys && k in b
    ensures a.Keys !! (b - {k}).Keys && k !in a + (b - {k})
    ensures (b - {k})[k := b[k]] == b && (a + (b - {k}))[k := b[k]] == a + b
    ensures |b - {k}| < |b|
  {
  }

  lemma {:induction false} SumUnion(a: Table, b: Table)
    requires a.Keys !! b.Keys
    ensures Sum(a + b) == Sum(a) + Sum(b)
    decreases |b|
  {
    if b == map[] {
      assert a + b == a;
    } else {
      var k :| k in b;
      UnionInsert(a, b, k);
      SumUnion(a, b - {k});
      SumInsert(b - {k}, k, b[k]);
      SumInsert(a + (b - {k}), k, b[k]);
    }
  }

  /** The sum depends on amounts only. */
  lemma {:induction false} SumMatches(t: Table, u: Table)
    requires Matches(t, u)
    ensures Sum(t) == Sum(u)
    decreases |t|
  {
    if t != map[] {
      var k :| k in t;
      assert k in u;
      SumRemove(t, k);
      SumRemove(u, k);
      SumMatches(t - {k}, u - {k});
    } else {
      assert u == map[];
    }
  }

  /** Doing a clean entry changes the sum by what it adds less what it deletes. */
  lemma SumApply(t: Table, e: Entry)
    requires Clean(t, e)
    ensures Sum(Apply(t, e)) == Sum(t) - Sum(Del(e)) + Sum(Add(e))
  {
    var rest := t - Del(e).Keys;
    SumUnion(rest, Add(e));
    SumUnion(rest, Del(e));
    SumMatches(rest + Del(e), t);
  }

  // ---------------------------------------------------------------- sums of inputs and outputs

  function InSum(inputs: seq<TxInput>): nat {
    if inputs == [] then 0 else InSum(inputs[..|inputs| - 1]) + inputs[|inputs| - 1].amount
  }

  function OutSum(outputs: seq<TxOutput>): nat {
    if outputs == [] then 0 else OutSum(outputs[..|outputs| - 1]) + outputs[|outputs| - 1].amount
  }

  function FeeSum(outputs: seq<TxOutput>): nat {
    if outputs == [] then 0
    else FeeSum(outputs[..|outputs| - 1]) + if IsFee(outputs[|outputs| - 1]) then outputs[|outputs| - 1].amount else 0
  }

  lemma {:induction false} FeesWithinOutputs(outputs: seq<TxOutput>)
    ensures FeeSum(outputs) <= OutSum(outputs)
  {
    if outputs != [] {
      FeesWithinOutputs(outputs[..|outputs| - 1]);
    }
  }

  ghost predicate NoDuplicateInputs(inputs: seq<TxInput>) {
    forall i, j | 0 <= i < j < |inputs| :: InputKey(inputs[i]) != InputKey(inputs[j])
  }

  lemma {:induction false} SpentKeys(inputs: seq<TxInput>, k: Key)
    ensures k in Spent(inputs) <==> exists i :: 0 <= i < |inputs| && InputKey(inputs[i]) == k
    ensures NoDuplicateInputs(inputs) ==>
              forall i | 0 <= i < |inputs| && InputKey(inputs[i]) == k ::
                Spent(inputs)[k] == Item(inputs[i].amount, inputs[i].frozenHeight)
  {
    if inputs != [] {
      var front := inputs[..|inputs| - 1];
      SpentKeys(front, k);
      assert forall i | 0 <= i < |front| :: front[i] == inputs[i];
    }
  }

  lemma {:induction false} SpentSum(inputs: seq<TxInput>)
    requires NoDuplicateInputs(inputs)
    ensures Sum(Spent(inputs)) == InSum(inputs)
  {
    if inputs != [] {
      var front, last := inputs[..|inputs| - 1], inputs[|inputs| - 1];
      SpentSum(front);
      SpentKeys(front, InputKey(last));
      assert forall i | 0 <= i < |front| :: front[i] == inputs[i];
      SumRemove(Spent(inputs), InputKey(last));
      assert Spent(inputs) - {InputKey(last)} == Spent(front);
    }
  }

  /** The part of Made that comes from the first n outputs. */
  ghost function MadeBefore(tx: Tx, n: nat): Table
    requires n <= |tx.outputs|
  {
    map o: nat | o < n && !IsFee(tx.outputs[o]) && tx.outputs[o].amount != 0 ::
      Key(tx.outputs[o].toAddr, tx.txid, o) := Item(tx.outputs[o].amount, tx.outputs[o].frozenHeight)
  }

  lemma MadeBeforeStep(tx: Tx, n: nat)
    requires n < |tx.outputs|
    ensures var o := tx.outputs[n]; var k := Key(o.toAddr, tx.txid, n);
            && k !in MadeBefore(tx, n)
            && MadeBefore(tx, n + 1)
               == if !IsFee(o) && o.amount != 0 then MadeBefore(tx, n)[k := Item(o.amount, o.frozenHeight)]
                  else MadeBefore(tx, n)
  {
  }

  lemma {:induction false} MadeBeforeSum(tx: Tx, n: nat)
    requires n <= |tx.outputs|
    ensures Sum(MadeBefore(tx, n)) == OutSum(tx.outputs[..n]) - FeeSum(tx.outputs[..n])
  {
    if n > 0 {
      MadeBeforeSum(tx, n - 1);
      MadeBeforeStep(tx, n - 1);
      var o := tx.outputs[n - 1];
      SumInsert(MadeBefore(tx, n - 1), Key(o.toAddr, tx.txid, n - 1), Item(o.amount, o.frozenHeight));
      assert tx.outputs[..n][..n - 1] == tx.outputs[..n - 1];
    }
  }

  lemma MadeSum(tx: Tx)
    ensures Sum(Made(tx)) == OutSum(tx.outputs) - FeeSum(tx.outputs)
  {
    MadeBeforeSum(tx, |tx.outputs|);
    assert tx.outputs[..|tx.outputs|] == tx.outputs;
    assert MadeBefore(tx, |tx.outputs|) == Made(tx);
  }

  /** The part of Fees that comes from the first n outputs. */
  ghost function FeesBefore(tx: Tx, proposer: Address, n: nat): Table
    requires n <= |tx.outputs|
  {
    map o: nat | o < n && IsFee(tx.outputs[o]) :: Key(proposer, tx.txid, o) := Item(tx.outputs[o].amount, 0)
  }

  lemma FeesBeforeStep(tx: Tx, proposer: Address, n: nat)
    requires n < |tx.outputs|
    ensures var o := tx.outputs[n]; var k := Key(proposer, tx.txid, n);
            && k !in FeesBefore(tx, proposer, n)
            && FeesBefore(tx, proposer, n + 1)
               == if IsFee(o) then FeesBefore(tx, proposer, n)[k := Item(o.amount, 0)] else FeesBefore(tx, proposer, n)
  {
  }

  lemma {:induction false} FeesBeforeSum(tx: Tx, proposer: Address, n: nat)
    requires n <= |tx.outputs|
    ensures Sum(FeesBefore(tx, proposer, n)) == FeeSum(tx.outputs[..n])
  {
    if n > 0 {
      FeesBeforeSum(tx, proposer, n - 1);
      FeesBeforeStep(tx, proposer, n - 1);
      var o := tx.outputs[n - 1];
      SumInsert(FeesBefore(tx, proposer, n - 1), Key(proposer, tx.txid, n - 1), Item(o.amount, 0));
      assert tx.outputs[..n][..n - 1] == tx.outputs[..n - 1];
    }
  }

  lemma FeesSum(tx: Tx, proposer: Address)
    ensures Sum(Fees(tx, proposer)) == FeeSum(tx.outputs)
  {
    FeesBeforeSum(tx, proposer, |tx.outputs|);
    assert tx.outputs[..|tx.outputs|] == tx.outputs;
    assert FeesBefore(tx, proposer, |tx.outputs|) == Fees(tx, proposer);
  }

  // ---------------------------------------------------------------- conservation

  /** What a coinbase transaction adds to the recorded total. */
  function Minted(e: Entry): nat {
    if e.TxDone? && e.tx.coinbase then
      FeesWithinOutputs(e.tx.outputs);
      OutSum(e.tx.outputs) - FeeSum(e.tx.outputs)
    else 0
  }

  /** The recorded total after a sequence of entries. */
  function Total(es: seq<Entry>): nat {
    if es == [] then 0 else Total(es[..|es| - 1]) + Minted(es[|es| - 1])
  }

  /** Fees deducted by transactions and not yet paid out to a proposer. */
  function Owed(es: seq<Entry>): int {
    if es == [] then 0
    else
      var fee := FeeSum(es[|es| - 1].tx.outputs);
      if es[|es| - 1].TxDone? then Owed(es[..|es| - 1]) + fee else Owed(es[..|es| - 1]) - fee
  }

  /** What coinbase transactions get wrong: fees they claim less inputs they burn. */
  function Leak(es: seq<Entry>): int {
    if es == [] then 0
    else Leak(es[..|es| - 1])
         + if es[|es| - 1].TxDone? && es[|es| - 1].tx.coinbase
           then FeeSum(es[|es| - 1].tx.outputs) - InSum(es[|es| - 1].tx.inputs) else 0
  }

  ghost predicate BalancedTx(tx: Tx) {
    NoDuplicateInputs(tx.inputs) && (!tx.coinbase ==> InSum(tx.inputs) == OutSum(tx.outputs))
  }

  ghost predicate BalancedEntries(es: seq<Entry>) {
    forall i | 0 <= i < |es| :: BalancedTx(es[i].tx)
  }

  /** The sum of the table is the recorded total less the fees still owed, plus the coinbase leak:
      value is conserved exactly when the leak is zero. */
  lemma {:induction false} Conservation(es: seq<Entry>)
    requires CleanAll(es) && BalancedEntries(es)
    ensures Sum(Replay(es)) == Total(es) - Owed(es) + Leak(es)
  {
    if es != [] {
      var front, e := es[..|es| - 1], es[|es| - 1];
      Conservation(front);
      SumApply(Replay(front), e);
      SpentSum(e.tx.inputs);
      MadeSum(e.tx);
      match e
      case TxDone(_) =>
      case FeePaid(tx, proposer) => FeesSum(tx, proposer);
    }
  }

  lemma {:induction false} NoLeak(es: seq<Entry>)
    requires forall i | 0 <= i < |es| && es[i].tx.coinbase ::
               InSum(es[i].tx.inputs) == 0 && forall o | o in es[i].tx.outputs :: !IsFee(o)
    ensures Leak(es) == 0
  {
    if es != [] {
      NoLeak(es[..|es| - 1]);
      NoFees(es[|es| - 1].tx.outputs);
    }
  }

  lemma {:induction false} NoFees(outputs: seq<TxOutput>)
    ensures (forall o | o in outputs :: !IsFee(o)) ==> FeeSum(outputs) == 0
  {
    if outputs != [] {
      NoFees(outputs[..|outputs| - 1]);
    }
  }

  /** The input check lets a coinbase transaction through that breaks conservation: one that claims
      a fee. Five units appear in the table and none in the total. */
  lemma CoinbaseFeeLeaks(miner: Address)
    ensures var tx := Tx("t", true, false, [], [TxOutput(FEE_PLACEHOLDER, 5, 0)]);
            var es := [TxDone(tx), FeePaid(tx, miner)];
            CleanAll(es) && BalancedEntries(es) && Total(es) == 0 && Owed(es) == 0 && Sum(Replay(es)) == 5
  {
    hide Fees;
    var out := TxOutput(FEE_PLACEHOLDER, 5, 0);
    var tx := Tx("t", true, false, [], [out]);
    var e1, e2 := TxDone(tx), FeePaid(tx, miner);
    var es := [e1, e2];
    assert es[..1] == [e1] && [e1][..0] == [];
    assert [out][..0] == [];
    assert FeeSum([out]) == FeeSum([]) + 5 && OutSum([out]) == OutSum([]) + 5;
    assert Replay([]) == map[];
    assert Replay([e1]) == Apply(Replay([]), e1) == map[];
    assert CleanAll([e1]);
    assert Total(es) == Total([e1]) + 0 && Total([e1]) == Total([]) + 0;
    assert Leak(es) == Leak([e1]) && Leak([e1]) == 5;
    assert Owed(es) == Owed([e1]) - 5 && Owed([e1]) == 5;
    Conservation(es);
  }

  lemma {:induction false} OwedConcat(a: seq<Entry>, b: seq<Entry>)
    ensures Owed(a + b) == Owed(a) + Owed(b) && Total(a + b) == Total(a) + Total(b) && Leak(a + b) == Leak(a) + Leak(b)
    decreases |b|
  {
    if b == [] {
      assert a + b == a;
    } else {
      OwedConcat(a, b[..|b| - 1]);
      assert (a + b)[..|a + b| - 1] == a + b[..|b| - 1];
    }
  }

  lemma TotalConcat(a: seq<Entry>, b: seq<Entry>)
    ensures Total(a + b) == Total(a) + Total(b)
  {
    OwedConcat(a, b);
  }

  lemma TotalOne(e: Entry)
    ensures Total([e]) == Minted(e)
  {
    assert [e][..0] == [];
  }
}
