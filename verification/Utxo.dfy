/** What transactions and fee payments do to the UTXO table, as an algebra of entries: each entry
    deletes some keys and adds others. Replaying a clean sequence of entries has a closed form that
    does not depend on their order, and undoing an entry is the inverse of doing it. */
module Utxo {
  import opened Types

  datatype Key = Key(addr: Address, txid: TxId, offset: nat)

  datatype Item = Item(amount: nat, frozenHeight: int)

  type Table = map<Key, Item>

  const FEE_PLACEHOLDER: Address := "$"

  predicate IsFee(o: TxOutput) {
    o.toAddr == FEE_PLACEHOLDER
  }

  function InputKey(i: TxInput): Key {
    Key(i.fromAddr, i.refTxid, i.refOffset)
  }

  /** The entries a transaction spends, as its inputs declare them. */
  function Spent(inputs: seq<TxInput>): Table {
    if inputs == [] then map[]
    else
      var i := inputs[|inputs| - 1];
      Spent(inputs[..|inputs| - 1])[InputKey(i) := Item(i.amount, i.frozenHeight)]
  }

  /** The entries a transaction creates: its outputs, but for fees and zero amounts. */
  function Made(tx: Tx): Table {
    map o: nat | o < |tx.outputs| && !IsFee(tx.outputs[o]) && tx.outputs[o].amount != 0 ::
      Key(tx.outputs[o].toAddr, tx.txid, o) := Item(tx.outputs[o].amount, tx.outputs[o].frozenHeight)
  }

  /** The entries that pay the fees of a transaction to the proposer of its block. */
  function Fees(tx: Tx, proposer: Address): Table {
    map o: nat | o < |tx.outputs| && IsFee(tx.outputs[o]) ::
      Key(proposer, tx.txid, o) := Item(tx.outputs[o].amount, 0)
  }

  // ---------------------------------------------------------------- entries

  datatype Entry = TxDone(tx: Tx) | FeePaid(tx: Tx, proposer: Address)

  function Del(e: Entry): Table {
    match e
    case TxDone(tx) => Spent(tx.inputs)
    case FeePaid(_, _) => map[]
  }

  function Add(e: Entry): Table {
    match e
    case TxDone(tx) => Made(tx)
    case FeePaid(tx, proposer) => Fees(tx, proposer)
  }

  function Apply(t: Table, e: Entry): Table {
    (t - Del(e).Keys) + Add(e)
  }

  function Revert(t: Table, e: Entry): Table {
    (t + Del(e)) - Add(e).Keys
  }

  /** The entry spends what is in the table, with the right amounts, and creates what is not. The
      frozen heights it declares may be wrong: nothing checks them. */
  ghost predicate Clean(t: Table, e: Entry) {
    && (forall k | k in Del(e) :: k in t && t[k].amount == Del(e)[k].amount)
    && Add(e).Keys !! t.Keys
  }

  /** Undoing a clean entry restores the table exactly when the entry declared the items it spent. */
  lemma RevertApplyIff(t: Table, e: Entry)
    requires Clean(t, e)
    ensures Revert(Apply(t, e), e) == t <==> forall k | k in Del(e) :: t[k] == Del(e)[k]
  {
  }

  /** Two tables hold the same outputs with the same amounts; frozen heights may differ. */
  ghost predicate Matches(t: Table, u: Table) {
    t.Keys == u.Keys && forall k | k in t :: t[k].amount == u[k].amount
  }

  lemma ApplyMatches(t: Table, u: Table, e: Entry)
    requires Matches(t, u)
    ensures Matches(Apply(t, e), Apply(u, e))
  {
  }

  /** Undoing a clean entry restores outputs and amounts, whatever it declared. */
  lemma RevertMatches(t: Table, u: Table, e: Entry)
    requires Clean(u, e) && Matches(t, Apply(u, e))
    ensures Matches(Revert(t, e), u)
  {
  }

  ghost function Replay(es: seq<Entry>): Table {
    if es == [] then map[] else Apply(Replay(es[..|es| - 1]), es[|es| - 1])
  }

  ghost predicate CleanAll(es: seq<Entry>) {
    es != [] ==> CleanAll(es[..|es| - 1]) && Clean(Replay(es[..|es| - 1]), es[|es| - 1])
  }

  /** Every transaction, and every fee payment, occurs once, and a txid determines the transaction. */
  ghost predicate Distinct(es: seq<Entry>) {
    forall i, j | 0 <= i < |es| && 0 <= j < |es| && i != j && es[i].tx.txid == es[j].tx.txid ::
      es[i].tx == es[j].tx && es[i].TxDone? != es[j].TxDone?
  }

  /** Every input was created, with the declared amount, by an earlier entry. */
  ghost predicate Ordered(es: seq<Entry>) {
    forall i, k | 0 <= i < |es| && k in Del(es[i]) ::
      exists j :: 0 <= j < i && k in Add(es[j]) && Add(es[j])[k].amount == Del(es[i])[k].amount
  }

  ghost predicate NoDoubleSpend(es: seq<Entry>) {
    forall i, j | 0 <= i < |es| && 0 <= j < |es| && i != j :: Del(es[i]).Keys !! Del(es[j]).Keys
  }

  ghost predicate Created(es: seq<Entry>, k: Key) {
    exists e :: e in es && k in Add(e)
  }

  ghost predicate Consumed(es: seq<Entry>, k: Key) {
    exists e :: e in es && k in Del(e)
  }

  lemma PrefixDistinct(es: seq<Entry>, n: nat)
    requires Distinct(es) && n <= |es|
    ensures Distinct(es[..n])
  {
  }

  /** A key is created by one entry only. */
  lemma AddsDisjoint(es: seq<Entry>, i: nat, j: nat)
    requires Distinct(es) && i < |es| && j < |es| && i != j
    ensures Add(es[i]).Keys !! Add(es[j]).Keys
  {
  }

  /** The closed form of a replay: what was created and not consumed. */
  lemma {:induction false} ReplayClosed(es: seq<Entry>, k: Key)
    requires Distinct(es) && CleanAll(es)
    ensures k in Replay(es) <==> Created(es, k) && !Consumed(es, k)
    ensures Consumed(es, k) ==> Created(es, k)
    ensures forall i | 0 <= i < |es| && k in Replay(es) && k in Add(es[i]) :: Replay(es)[k] == Add(es[i])[k]
    decreases |es|
  {
    if es != [] {
      var n := |es| - 1;
      var front, e := es[..n], es[n];
      PrefixDistinct(es, n);
      ReplayClosed(front, k);
      assert forall x :: x in es <==> x in front || x == e;
      assert forall i | 0 <= i < n :: front[i] == es[i];
      if k in Add(e) {
        forall i | 0 <= i < n
          ensures k !in Add(es[i])
        {
          AddsDisjoint(es, i, n);
        }
        assert !Created(front, k);
        assert !Consumed(front, k);
        assert k !in Replay(front);
      }
    }
  }

  /** Clean sequences are those in which every input was created before, and nothing is spent twice. */
  lemma {:induction false} CleanAllIff(es: seq<Entry>)
    requires Distinct(es)
    ensures CleanAll(es) <==> Ordered(es) && NoDoubleSpend(es)
    decreases |es|
  {
    if es != [] {
      var n := |es| - 1;
      PrefixDistinct(es, n);
      CleanAllIff(es[..n]);
      if CleanAll(es) {
        CleanLastSpends(es);
      }
      if Ordered(es) && NoDoubleSpend(es) {
        OrderedPrefix(es);
        OrderedLastClean(es);
      }
    }
  }

  /** An input of a clean last entry was created before and is spent for the first time. */
  lemma LastSpend(es: seq<Entry>, k: Key) returns (j: nat)
    requires Distinct(es) && es != [] && CleanAll(es) && k in Del(es[|es| - 1])
    ensures j < |es| - 1 && k in Add(es[j]) && Add(es[j])[k].amount == Del(es[|es| - 1])[k].amount
    ensures forall i | 0 <= i < |es| - 1 :: k !in Del(es[i])
  {
    var n := |es| - 1;
    var front := es[..n];
    PrefixDistinct(es, n);
    ReplayClosed(front, k);
    var x :| x in front && k in Add(x);
    j :| 0 <= j < n && front[j] == x;
    assert Replay(front)[k] == Add(front[j])[k];
    forall i | 0 <= i < n
      ensures k !in Del(es[i])
    {
      assert front[i] in front;
    }
  }

  lemma CleanLastSpends(es: seq<Entry>)
    requires Distinct(es) && es != [] && CleanAll(es)
    requires Ordered(es[..|es| - 1]) && NoDoubleSpend(es[..|es| - 1])
    ensures Ordered(es) && NoDoubleSpend(es)
  {
    hide IsFee;
    var n := |es| - 1;
    var front := es[..n];
    forall i, k | 0 <= i < |es| && k in Del(es[i])
      ensures exists j :: 0 <= j < i && k in Add(es[j]) && Add(es[j])[k].amount == Del(es[i])[k].amount
    {
      if i < n {
        assert front[i] == es[i];
        var j :| 0 <= j < i && k in Add(front[j]) && Add(front[j])[k].amount == Del(front[i])[k].amount;
        assert front[j] == es[j];
      } else {
        var j := LastSpend(es, k);
      }
    }
    forall i | 0 <= i < n
      ensures Del(es[i]).Keys !! Del(es[n]).Keys
    {
      forall k | k in Del(es[n]).Keys
        ensures k !in Del(es[i]).Keys
      {
        var j := LastSpend(es, k);
      }
    }
    NoDoubleSpendExtends(es);
  }

  lemma NoDoubleSpendExtends(es: seq<Entry>)
    requires es != [] && NoDoubleSpend(es[..|es| - 1])
    requires forall i | 0 <= i < |es| - 1 :: Del(es[i]).Keys !! Del(es[|es| - 1]).Keys
    ensures NoDoubleSpend(es)
  {
  }

  lemma OrderedPrefix(es: seq<Entry>)
    requires es != [] && Ordered(es) && NoDoubleSpend(es)
    ensures Ordered(es[..|es| - 1]) && NoDoubleSpend(es[..|es| - 1])
  {
    hide Add, Del;
    var front := es[..|es| - 1];
    forall i, k | 0 <= i < |front| && k in Del(front[i])
      ensures exists j :: 0 <= j < i && k in Add(front[j]) && Add(front[j])[k].amount == Del(front[i])[k].amount
    {
      assert front[i] == es[i];
      var j :| 0 <= j < i && k in Add(es[j]) && Add(es[j])[k].amount == Del(es[i])[k].amount;
      assert front[j] == es[j];
    }
  }

  lemma OrderedLastClean(es: seq<Entry>)
    requires Distinct(es) && es != [] && Ordered(es) && NoDoubleSpend(es) && CleanAll(es[..|es| - 1])
    ensures Clean(Replay(es[..|es| - 1]), es[|es| - 1])
  {
    hide Add;
    var n := |es| - 1;
    var front, e := es[..n], es[n];
    PrefixDistinct(es, n);
    forall k | k in Del(e)
      ensures k in Replay(front) && Replay(front)[k].amount == Del(e)[k].amount
    {
      ReplayClosed(front, k);
      var j :| 0 <= j < n && k in Add(es[j]) && Add(es[j])[k].amount == Del(e)[k].amount;
      assert front[j] == es[j] && front[j] in front;
      forall x | x in front
        ensures k !in Del(x)
      {
        var i :| 0 <= i < n && front[i] == x;
        assert Del(es[i]).Keys !! Del(es[n]).Keys;
      }
      assert !Consumed(front, k);
    }
    forall k | k in Add(e)
      ensures k !in Replay(front)
    {
      ReplayClosed(front, k);
      forall x | x in front
        ensures k !in Add(x)
      {
        var i :| 0 <= i < n && front[i] == x;
        AddsDisjoint(es, i, n);
      }
    }
  }

  ghost predicate SameEntries(a: seq<Entry>, b: seq<Entry>) {
    forall e :: e in a <==> e in b
  }

  /** The replay does not depend on the order: any dependency-respecting rearrangement of a clean
      sequence is clean and gives the same table. */
  lemma ReplayRearranged(a: seq<Entry>, b: seq<Entry>)
    requires Distinct(a) && Distinct(b) && SameEntries(a, b) && CleanAll(a) && Ordered(b)
    ensures CleanAll(b) && Replay(a) == Replay(b)
  {
    hide Ordered, Add;
    CleanAllIff(a);
    CleanAllIff(b);
    forall i, j | 0 <= i < |b| && 0 <= j < |b| && i != j
      ensures Del(b[i]).Keys !! Del(b[j]).Keys
    {
      assert b[i] in b && b[j] in b;
      var i2 :| 0 <= i2 < |a| && a[i2] == b[i];
      var j2 :| 0 <= j2 < |a| && a[j2] == b[j];
    }
    forall k
      ensures k in Replay(a) <==> k in Replay(b)
      ensures k in Replay(a) ==> Replay(a)[k] == Replay(b)[k]
    {
      ReplayClosed(a, k);
      ReplayClosed(b, k);
      if k in Replay(a) {
        var e :| e in a && k in Add(e);
        var i :| 0 <= i < |a| && a[i] == e;
        var j :| 0 <= j < |b| && b[j] == e;
        assert Replay(a)[k] == Add(a[i])[k] && Replay(b)[k] == Add(b[j])[k];
      }
    }
  }

  lemma ReplaySnoc(es: seq<Entry>, e: Entry)
    ensures Replay(es + [e]) == Apply(Replay(es), e)
    ensures CleanAll(es + [e]) <==> CleanAll(es) && Clean(Replay(es), e)
  {
  }

  lemma {:induction false} CleanAllPrefix(es: seq<Entry>, n: nat)
    requires CleanAll(es) && n <= |es|
    ensures CleanAll(es[..n])
    decreases |es|
  {
    if n < |es| {
      CleanAllPrefix(es[..|es| - 1], n);
      assert es[..|es| - 1][..n] == es[..n];
    } else {
      assert es[..n] == es;
    }
  }

  // ---------------------------------------------------------------- doing and undoing sequences

  ghost function ApplyAll(t: Table, es: seq<Entry>): Table {
    if es == [] then t else Apply(ApplyAll(t, es[..|es| - 1]), es[|es| - 1])
  }

  /** Undoes es, last first. */
  ghost function RevertAll(t: Table, es: seq<Entry>): Table
    decreases |es|
  {
    if es == [] then t else RevertAll(Revert(t, es[|es| - 1]), es[..|es| - 1])
  }

  /** The item that the entry spending k declares for it. */
  ghost function DeclaredBy(es: seq<Entry>, k: Key): Option<Item>
    decreases |es|
  {
    if es == [] then None
    else
      var earlier := DeclaredBy(es[..|es| - 1], k);
      if earlier.Some? then earlier
      else if k in Del(es[|es| - 1]) then Some(Del(es[|es| - 1])[k])
      else None
  }

  /** Doing es on a table that matches a replay matches the longer replay: outputs of es are as made,
      the others stay as they are in the table. */
  lemma {:induction false} ApplyAllTracks(c: seq<Entry>, es: seq<Entry>, t: Table)
    requires Distinct(c + es) && CleanAll(c + es) && Matches(t, Replay(c))
    ensures Matches(ApplyAll(t, es), Replay(c + es))
    ensures forall k | k in Replay(c + es) ::
              && (k in Replay(c) ==> k in t && ApplyAll(t, es)[k] == t[k] && Replay(c + es)[k] == Replay(c)[k])
              && (k !in Replay(c) ==> ApplyAll(t, es)[k] == Replay(c + es)[k])
    decreases |es|
  {
    if es == [] {
      assert c + es == c;
    } else {
      var front, e := es[..|es| - 1], es[|es| - 1];
      assert c + es == (c + front) + [e];
      ReplaySnoc(c + front, e);
      PrefixDistinct(c + es, |c + front|);
      assert (c + es)[..|c + front|] == c + front;
      ApplyAllTracks(c, front, t);
      ApplyMatches(ApplyAll(t, front), Replay(c + front), e);
      forall k | k in Add(e)
        ensures k !in Replay(c)
      {
        AddedIsNew(c, front, e, k);
      }
    }
  }

  lemma AddedIsNew(c: seq<Entry>, front: seq<Entry>, e: Entry, k: Key)
    requires Distinct((c + front) + [e]) && CleanAll(c + front) && k in Add(e)
    ensures k !in Replay(c)
  {
    var all := (c + front) + [e];
    assert all[..|c|] == c && (c + front)[..|c|] == c;
    PrefixDistinct(all, |c|);
    CleanAllPrefix(c + front, |c|);
    ReplayClosed(c, k);
    forall x | x in c
      ensures k !in Add(x)
    {
      var i :| 0 <= i < |c| && c[i] == x;
      assert all[i] == x && all[|all| - 1] == e;
      AddsDisjoint(all, i, |all| - 1);
    }
  }

  /** Undoing es from a table that matches the replay with it matches the replay without it; an
      output that es spent comes back as its spender declared it, the others stay as they are. */
  lemma {:induction false} RevertAllTracks(c: seq<Entry>, es: seq<Entry>, t: Table)
    requires CleanAll(c + es) && Matches(t, Replay(c + es))
    ensures Matches(RevertAll(t, es), Replay(c))
    ensures forall k | k in Replay(c) ::
              && (DeclaredBy(es, k).Some? ==> RevertAll(t, es)[k] == DeclaredBy(es, k).value)
              && (DeclaredBy(es, k).None? ==> k in t && RevertAll(t, es)[k] == t[k])
    decreases |es|
  {
    if es == [] {
      assert c + es == c;
    } else {
      var front, e := es[..|es| - 1], es[|es| - 1];
      assert c + es == (c + front) + [e];
      ReplaySnoc(c + front, e);
      RevertMatches(t, Replay(c + front), e);
      RevertAllTracks(c, front, Revert(t, e));
      forall k | k in Replay(c) && DeclaredBy(front, k).None?
        ensures k in Revert(t, e) && k !in Add(e)
      {
        assert k in Replay(c + front);
      }
    }
  }

  lemma {:induction false} ReplayConcat(c: seq<Entry>, es: seq<Entry>)
    ensures Replay(c + es) == ApplyAll(Replay(c), es)
    decreases |es|
  {
    if es == [] {
      assert c + es == c;
    } else {
      assert (c + es)[..|c + es| - 1] == c + es[..|es| - 1];
      ReplayConcat(c, es[..|es| - 1]);
    }
  }

  /** Leaving one branch for another restores the replay exactly when every output from below the fork
      that the new branch leaves unspent, and the old one had spent, was declared as it was. */
  lemma BranchSwitchExact(c: seq<Entry>, old_: seq<Entry>, new_: seq<Entry>)
    requires Distinct(c + old_) && CleanAll(c + old_) && Distinct(c + new_) && CleanAll(c + new_)
    ensures ApplyAll(RevertAll(Replay(c + old_), old_), new_) == Replay(c + new_) <==>
              forall k | k in Replay(c) && k in Replay(c + new_) ::
                DeclaredBy(old_, k).Some? ==> DeclaredBy(old_, k).value == Replay(c)[k]
  {
    hide Distinct, CleanAll, Replay, RevertAll, ApplyAll, DeclaredBy;
    var t := RevertAll(Replay(c + old_), old_);
    RevertAllTracks(c, old_, Replay(c + old_));
    ApplyAllTracks(c, old_, Replay(c));
    ApplyAllTracks(c, new_, t);
    ReplayConcat(c, old_);
  }

  // ---------------------------------------------------------------- what fits on a table

  /** k is in the table, or made by one of es, with that amount. */
  ghost predicate Supplied(t: Table, es: seq<Entry>, k: Key, amount: nat) {
    || (k in t && t[k].amount == amount)
    || exists e :: e in es && k in Add(e) && Add(e)[k].amount == amount
  }

  /** Everything that es spends is in the table or made by an earlier entry. */
  ghost predicate SuppliedAll(t: Table, es: seq<Entry>) {
    forall i, k | 0 <= i < |es| && k in Del(es[i]) :: Supplied(t, es[..i], k, Del(es[i])[k].amount)
  }

  /** es can be done on the table: it spends nothing twice, and only what is there or has been made. */
  ghost predicate Fits(t: Table, es: seq<Entry>) {
    NoDoubleSpend(es) && SuppliedAll(t, es)
  }

  /** New entries continue a clean sequence cleanly exactly if they fit on its table. */
  lemma FitsIff(c: seq<Entry>, es: seq<Entry>, t: Table)
    requires Distinct(c + es) && CleanAll(c) && Matches(t, Replay(c))
    ensures CleanAll(c + es) <==> Fits(t, es)
  {
    hide Add;
    assert (c + es)[..|c|] == c;
    PrefixDistinct(c + es, |c|);
    CleanAllIff(c);
    CleanAllIff(c + es);
    if CleanAll(c + es) {
      CleanFits(c, es, t);
    } else if Fits(t, es) {
      FitsOrdered(c, es, t);
      FitsOnce(c, es, t);
    }
  }

  lemma CleanFits(c: seq<Entry>, es: seq<Entry>, t: Table)
    requires Distinct(c + es) && Distinct(c) && CleanAll(c) && Matches(t, Replay(c))
    requires Ordered(c + es) && NoDoubleSpend(c + es)
    ensures Fits(t, es)
  {
    hide Add, Distinct, CleanAll, Replay;
    var all := c + es;
    assert forall i | 0 <= i < |es| :: all[|c| + i] == es[i];
    assert NoDoubleSpend(es);
    forall i, k | 0 <= i < |es| && k in Del(es[i])
      ensures Supplied(t, es[..i], k, Del(es[i])[k].amount)
    {
      assert all[|c| + i] == es[i];
      var j :| 0 <= j < |c| + i && k in Add(all[j]) && Add(all[j])[k].amount == Del(all[|c| + i])[k].amount;
      if j < |c| {
        ReplayClosed(c, k);
        assert c[j] == all[j] && c[j] in c;
        forall x | x in c
          ensures k !in Del(x)
        {
          var m :| 0 <= m < |c| && c[m] == x;
          assert all[m] == x;
        }
        assert Replay(c)[k] == Add(c[j])[k];
      } else {
        assert es[..i][j - |c|] == all[j] && es[..i][j - |c|] in es[..i];
      }
    }
  }

  lemma FitsOrdered(c: seq<Entry>, es: seq<Entry>, t: Table)
    requires Distinct(c) && CleanAll(c) && Matches(t, Replay(c)) && Ordered(c) && Fits(t, es)
    ensures Ordered(c + es)
  {
    hide Add, Distinct, CleanAll, Replay;
    var all := c + es;
    forall i, k | 0 <= i < |all| && k in Del(all[i])
      ensures exists j :: 0 <= j < i && k in Add(all[j]) && Add(all[j])[k].amount == Del(all[i])[k].amount
    {
      if i < |c| {
        assert all[i] == c[i];
        var j :| 0 <= j < i && k in Add(c[j]) && Add(c[j])[k].amount == Del(c[i])[k].amount;
        assert all[j] == c[j];
      } else {
        var n := i - |c|;
        assert all[i] == es[n] && Supplied(t, es[..n], k, Del(es[n])[k].amount);
        if k in t && t[k].amount == Del(es[n])[k].amount {
          ReplayClosed(c, k);
          var x :| x in c && k in Add(x);
          var j :| 0 <= j < |c| && c[j] == x;
          assert Replay(c)[k] == Add(c[j])[k];
          assert all[j] == c[j];
        } else {
          var x :| x in es[..n] && k in Add(x) && Add(x)[k].amount == Del(es[n])[k].amount;
          var j :| 0 <= j < n && es[..n][j] == x;
          assert all[|c| + j] == x;
        }
      }
    }
  }

  lemma FitsOnce(c: seq<Entry>, es: seq<Entry>, t: Table)
    requires Distinct(c + es) && Distinct(c) && CleanAll(c) && Matches(t, Replay(c)) && NoDoubleSpend(c) && Fits(t, es)
    ensures NoDoubleSpend(c + es)
  {
    hide Add, CleanAll, Replay;
    var all := c + es;
    forall i, j | 0 <= i < |c| && 0 <= j < |es|
      ensures Del(c[i]).Keys !! Del(es[j]).Keys
    {
      forall k | k in Del(c[i]).Keys
        ensures k !in Del(es[j]).Keys
      {
        if k in Del(es[j]) {
          assert Supplied(t, es[..j], k, Del(es[j])[k].amount);
          SpentIsGone(c, es, t, i, k);
        }
      }
    }
    forall i, j | 0 <= i < |all| && 0 <= j < |all| && i != j
      ensures Del(all[i]).Keys !! Del(all[j]).Keys
    {
      assert all[i] == if i < |c| then c[i] else es[i - |c|];
      assert all[j] == if j < |c| then c[j] else es[j - |c|];
    }
  }

  /** What c has spent is not in its table, and not made again. */
  lemma SpentIsGone(c: seq<Entry>, es: seq<Entry>, t: Table, i: nat, k: Key)
    requires Distinct(c + es) && Distinct(c) && CleanAll(c) && Matches(t, Replay(c)) && i < |c| && k in Del(c[i])
    ensures k !in t && forall e | e in es :: k !in Add(e)
  {
    hide Add, Del, CleanAll, Replay, Distinct;
    assert c[i] in c;
    ReplayClosed(c, k);
    var x :| x in c && k in Add(x);
    var m :| 0 <= m < |c| && c[m] == x;
    forall e | e in es
      ensures k !in Add(e)
    {
      var j :| 0 <= j < |es| && es[j] == e;
      assert (c + es)[m] == x && (c + es)[|c| + j] == e;
      AddsDisjoint(c + es, m, |c| + j);
    }
  }
}
