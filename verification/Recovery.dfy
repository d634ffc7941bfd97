/** A submission whose batch was not written leaves no trace once the unconfirmed transactions are rolled
    back: undoing a transaction that was never done comes to the same as undoing one that was. */
module Recovery {
  import opened Types
  import opened Chain
  import opened Tables
  import opened Utxo
  import opened Value
  import opened Replays
  import opened Unconfirmed
  import opened Steps
  import opened Walks

  /** The tables agree wherever e neither takes nor puts anything. */
  ghost predicate AgreeOff(t: Table, u: Table, e: Entry) {
    forall k {:trigger k in t} {:trigger k in u} | k !in Del(e) && k !in Add(e) ::
      (k in t <==> k in u) && (k in t ==> t[k] == u[k])
  }

  lemma RevertForgets(t: Table, u: Table, e: Entry)
    requires AgreeOff(t, u, e)
    ensures Revert(t, e) == Revert(u, e)
  {
    hide Del, Add;
  }

  lemma {:induction false} RevertAllForgets(t: Table, u: Table, e: Entry, es: seq<Entry>)
    requires AgreeOff(t, u, e) && e in es
    ensures RevertAll(t, es) == RevertAll(u, es)
    decreases |es|
  {
    hide Del, Add;
    var last := es[|es| - 1];
    if last == e {
      RevertForgets(t, u, e);
    } else {
      assert AgreeOff(Revert(t, last), Revert(u, last), e);
      RevertAllForgets(Revert(t, last), Revert(u, last), e, es[..|es| - 1]);
    }
  }

  lemma {:induction false} TotalAtLeast(es: seq<Entry>, e: Entry)
    requires e in es
    ensures Total(es) >= Minted(e)
    decreases |es|
  {
    if es[|es| - 1] != e {
      TotalAtLeast(es[..|es| - 1], e);
    }
  }

  /** Rolling back any order that has the transaction in it leads to the same state, whether the batch of
      its submission was written or not. */
  lemma UnwrittenRolledBack(d: Tables, v: View, tx: Tx, o: Intake, order: seq<Tx>)
    requires tx in order
    ensures AfterRollBack(AfterSubmit(d, v, tx, o.(written := false)), order, true)
         == AfterRollBack(AfterSubmit(d, v, tx, o.(written := true)), order, true)
  {
    hide Checks, Minted, Made;
    if Enters(d, v, tx, o) {
      var e, es := TxDone(tx), PendingEntries(order);
      PendingHas(order, tx);
      assert AgreeOff(v.utxo, Apply(v.utxo, e), e);
      RevertAllForgets(v.utxo, Apply(v.utxo, e), e, es);
      TotalAtLeast(es, e);
    }
  }

  lemma PendingHas(order: seq<Tx>, tx: Tx)
    requires tx in order
    ensures TxDone(tx) in PendingEntries(order)
  {
    var i :| 0 <= i < |order| && order[i] == tx;
    assert PendingEntries(order)[i] == TxDone(tx);
  }

  /** So a walk that gets to write its roll back ends as if the batch of the submission had been written,
      and is in step exactly when that would be. */
  lemma WalkRecovers(d: Tables, v: View, tx: Tx, o: Intake, dest: BlockId, a: BlockId, s: Setting, v2: View, ok: bool)
    requires LedgerOk(d) && Enters(d, v, tx, o) && Tracks(d, AfterSubmit(d, v, tx, o.(written := true)))
    requires DependencyOrder(ChainEntries(d, v.latest), v.unconfirmed + [tx], s.order)
    requires s.written && dest != v.latest && v.latest in d.blocks && dest in d.blocks
    requires IsLowestCommonAncestor(d.blocks, d.root, v.latest, dest, a)
    requires Walked(d, AfterSubmit(d, v, tx, o.(written := false)), dest, s, v2, ok)
    ensures Walked(d, AfterSubmit(d, v, tx, o.(written := true)), dest, s, v2, ok)
    ensures Playable(d, v2.latest) && (Tracks(d, v2) <==> ChainFits(d, v2.latest))
    ensures SoundCaches(d, s.env) ==> (Tracks(d, v2) <==> SpendsOnce(d, v2.latest))
  {
    hide AfterRollBack, AfterBranches, BranchesOk, Between, Checks, DependencyOrder, CleanAll, Matches, Replay;
    hide ChainFits, SpendsOnce, SoundCaches, Distinct, ChainEntries;
    var was := AfterSubmit(d, v, tx, o.(written := true));
    OrderHas(ChainEntries(d, v.latest), v.unconfirmed + [tx], s.order, tx);
    UnwrittenRolledBack(d, v, tx, o, s.order);
    WalkKeeps(d, was, dest, a, s, v2, ok);
  }

  lemma OrderHas(c: seq<Entry>, unconfirmed: seq<Tx>, order: seq<Tx>, tx: Tx)
    requires DependencyOrder(c, unconfirmed, order) && tx in unconfirmed && Distinct(c + PendingEntries(unconfirmed))
    ensures tx in order
  {
    hide Ordered;
    var e, p, all := TxDone(tx), PendingEntries(unconfirmed), c + PendingEntries(unconfirmed);
    PendingHas(unconfirmed, tx);
    var j :| 0 <= j < |p| && p[j] == e;
    assert all[|c| + j] == e;
    forall i | 0 <= i < |c|
      ensures c[i] != e
    {
      assert all[i] == c[i];
    }
    assert e in all && e in c + PendingEntries(order);
    var i :| 0 <= i < |PendingEntries(order)| && PendingEntries(order)[i] == e;
    assert PendingEntries(order)[i] == TxDone(order[i]);
  }
}
