/** PlayAndRepost: a block received from elsewhere is played on top of the unconfirmed transactions.
    Those in conflict with it are undone first, those it contains count as done, and only the rest of
    the block is done. */
module Reposts {
  import opened Types
  import opened Chain
  import opened Tables
  import opened Utxo
  import opened Value
  import opened Replays
  import opened Unconfirmed
  import opened Steps

  /** What the call meets: the conflicting unconfirmed transactions, each after those it spends from,
      whether the block's transactions are verified, what the UTXO cache holds, and whether the batch
      is written. */
  datatype Repost = Repost(conflicts: seq<Tx>, verified: bool, env: Env, written: bool)

  function AllInputs(txs: seq<Tx>): seq<TxInput> {
    if txs == [] then [] else AllInputs(txs[..|txs| - 1]) + txs[|txs| - 1].inputs
  }

  /** The transactions of b that are unconfirmed here. */
  ghost function Pooled(b: Block, unconfirmed: seq<Tx>): set<Tx> {
    set tx | tx in b.txs && tx.txid in IdSet(unconfirmed)
  }

  /** The unconfirmed transactions without the conflicting ones. */
  ghost function Remaining(v: View, r: Repost): seq<Tx> {
    Unmined(v.unconfirmed, IdSet(r.conflicts))
  }

  ghost predicate RepostOk(d: Tables, v: View, b: Block, r: Repost) {
    && NoDuplicateInputs(AllInputs(b.txs)) && r.verified && r.written
    && FirstRefused(v.utxo, b, Pooled(b, v.unconfirmed), Unchecked(r.env), d.trunkHeight, 0) == |b.txs|
  }

  /** A block that spends an output twice is refused at once. Verification comes after the conflicting
      transactions have been undone in the batch. */
  ghost function AfterRepost(d: Tables, v: View, b: Block, r: Repost, window: nat): View {
    var w := RolledBack(WorkOf(v), r.conflicts);
    if !NoDuplicateInputs(AllInputs(b.txs)) then v
    else if !r.verified then v.(memTotal := w.mem)
    else AfterPlay(d, v, w, b, Pooled(b, v.unconfirmed), Unchecked(r.env), r.written,
                   Unmined(Remaining(v, r), IdSet(b.txs)), window)
  }

  /** What a call that fails leaves in the in-memory total. */
  ghost function Leftover(d: Tables, v: View, b: Block, r: Repost): int {
    var n := FirstRefused(v.utxo, b, Pooled(b, v.unconfirmed), Unchecked(r.env), d.trunkHeight, 0);
    if !NoDuplicateInputs(AllInputs(b.txs)) then 0
    else if !r.verified then -(Total(PendingEntries(r.conflicts)) as int)
    else Total(PlayEntries(b.txs[..n], b.proposer, Pooled(b, v.unconfirmed))) - Total(PendingEntries(r.conflicts))
  }

  /** What the mempool guarantees: the conflicting transactions are unconfirmed ones, in dependency order,
      none of the others depends on them, and they are not in the block. */
  ghost predicate Separates(d: Tables, v: View, b: Block, r: Repost)
    requires Playable(d, v.latest)
  {
    && DependencyOrder(ChainEntries(d, v.latest), v.unconfirmed, Remaining(v, r) + r.conflicts)
    && (forall tx | tx in r.conflicts :: tx.txid !in IdSet(b.txs))
    && (forall tx, u | tx in b.txs && u in v.unconfirmed && tx.txid == u.txid :: tx == u)
  }

  /** The state once the conflicting transactions are undone. */
  ghost function Cleared(v: View, r: Repost): View {
    v.(utxo := RevertAll(v.utxo, PendingEntries(r.conflicts)), unconfirmed := Remaining(v, r))
  }

  /** No transaction of b that is still to be done spends an output of a conflicting one. */
  ghost predicate SpendsNoneOf(b: Block, done: set<Tx>, conflicts: seq<Tx>) {
    forall tx, c | tx in b.txs && tx !in done && c in conflicts :: Spent(tx.inputs).Keys !! Made(c).Keys
  }

  // ---------------------------------------------------------------- undoing the conflicting transactions

  lemma ClearedTracks(d: Tables, v: View, b: Block, r: Repost)
    requires Tracks(d, v) && Separates(d, v, b, r)
    ensures var u, p := Cleared(v, r), PendingEntries(r.conflicts);
            && Tracks(d, u)
            && Distinct(Entries(d, u) + p) && CleanAll(Entries(d, u) + p) && Matches(v.utxo, Replay(Entries(d, u) + p))
            && Total(Entries(d, v)) == Total(Entries(d, u)) + Total(p)
  {
    hide Distinct, CleanAll, Matches, Replay, RevertAll, Total, Ordered, SameEntries, ChainEntries;
    var c, kept, p := ChainEntries(d, v.latest), Remaining(v, r), PendingEntries(r.conflicts);
    AnyOrder(c, v.unconfirmed, kept + r.conflicts);
    var es := c + PendingEntries(kept);
    assert PendingEntries(kept + r.conflicts) == PendingEntries(kept) + p;
    assert c + PendingEntries(kept + r.conflicts) == es + p;
    RevertAllTracks(es, p, v.utxo);
    assert (es + p)[..|es|] == es;
    PrefixDistinct(es + p, |es|);
    CleanAllPrefix(es + p, |es|);
    TotalConcat(es, p);
  }

  lemma PooledContinues(d: Tables, v: View, b: Block, r: Repost)
    requires Playable(d, v.latest) && Separates(d, v, b, r)
    ensures Continues(b, Remaining(v, r), Pooled(b, v.unconfirmed))
  {
    hide DependencyOrder;
    var done := Pooled(b, v.unconfirmed);
    forall tx | tx in b.txs && tx in done
      ensures tx in Remaining(v, r)
    {
      var i :| 0 <= i < |v.unconfirmed| && v.unconfirmed[i].txid == tx.txid;
      assert v.unconfirmed[i] in v.unconfirmed && tx in v.unconfirmed;
      InIdSet(b.txs, tx);
      InUnmined(v.unconfirmed, IdSet(r.conflicts), tx);
    }
    forall tx, u | tx in b.txs && tx !in done && u in Remaining(v, r)
      ensures tx.txid != u.txid
    {
      InUnmined(v.unconfirmed, IdSet(r.conflicts), u);
      InIdSet(v.unconfirmed, u);
    }
  }

  // ---------------------------------------------------------------- what fits

  lemma AddKeys(e: Entry, k: Key)
    requires k in Add(e)
    ensures k.txid == e.tx.txid
  {
  }

  lemma {:induction false} AllInputsAt(txs: seq<Tx>, i: nat, j: nat)
    requires i < |txs| && j < |txs[i].inputs|
    ensures var n := |AllInputs(txs[..i])| + j; n < |AllInputs(txs)| && AllInputs(txs)[n] == txs[i].inputs[j]
    decreases |txs|
  {
    if i < |txs| - 1 {
      AllInputsAt(txs[..|txs| - 1], i, j);
      assert txs[..|txs| - 1][..i] == txs[..i];
    }
  }

  lemma {:induction false} AllInputsGrow(txs: seq<Tx>, i: nat, j: nat)
    requires i < j <= |txs|
    ensures |AllInputs(txs[..i])| + |txs[i].inputs| <= |AllInputs(txs[..j])|
    decreases j
  {
    assert txs[..j][..j - 1] == txs[..j - 1];
    if i < j - 1 {
      AllInputsGrow(txs, i, j - 1);
    }
  }

  /** Without a repeated input no two transactions spend the same output. */
  lemma InputsOnce(txs: seq<Tx>, i: nat, j: nat)
    requires i < j < |txs| && NoDuplicateInputs(AllInputs(txs))
    ensures Spent(txs[i].inputs).Keys !! Spent(txs[j].inputs).Keys
  {
    forall k | k in Spent(txs[i].inputs)
      ensures k !in Spent(txs[j].inputs)
    {
      if k in Spent(txs[j].inputs) {
        SpentKeys(txs[i].inputs, k);
        SpentKeys(txs[j].inputs, k);
        var p :| 0 <= p < |txs[i].inputs| && InputKey(txs[i].inputs[p]) == k;
        var q :| 0 <= q < |txs[j].inputs| && InputKey(txs[j].inputs[q]) == k;
        AllInputsAt(txs, i, p);
        AllInputsAt(txs, j, q);
        AllInputsGrow(txs, i, j);
      }
    }
  }

  lemma PlayedOnce(b: Block, done: set<Tx>)
    requires NoDuplicateInputs(AllInputs(b.txs))
    ensures NoDoubleSpend(PlayEntries(b.txs, b.proposer, done))
  {
    hide AllInputs, NoDuplicateInputs, Spent, PlayEntries;
    var es := PlayEntries(b.txs, b.proposer, done);
    forall i, j | 0 <= i < |es| && 0 <= j < |es| && i != j
      ensures Del(es[i]).Keys !! Del(es[j]).Keys
    {
      if es[i].TxDone? && es[j].TxDone? {
        var n := PlayAt(b.txs, b.proposer, done, i);
        var m := PlayAt(b.txs, b.proposer, done, j);
        assert |es[..i]| == i && |es[..j]| == j;
        if n < m {
          InputsOnce(b.txs, n, m);
        } else {
          assert n != m;
          InputsOnce(b.txs, m, n);
        }
      }
    }
  }

  /** What the block would spend of the table is still there once the conflicting transactions are undone,
      unless they have made it. */
  lemma ClearedBacks(c: seq<Entry>, p: seq<Tx>, t: Table, u: Table, b: Block, done: set<Tx>)
    requires Distinct(c + PendingEntries(p)) && CleanAll(c + PendingEntries(p)) && CleanAll(c) && Distinct(c)
    requires Matches(t, Replay(c + PendingEntries(p))) && Matches(u, Replay(c)) && SpendsNoneOf(b, done, p)
    ensures Backed(t, u, b, done)
  {
    hide Distinct, CleanAll, Replay, Spent, Made;
    forall n, k | 0 <= n < |b.txs| && b.txs[n] !in done && k in Spent(b.txs[n].inputs) && k in t
      ensures k in u && u[k].amount == t[k].amount
    {
      assert b.txs[n] in b.txs;
      assert forall x | x in p :: k !in Made(x);
      StillThere(c, p, k);
    }
  }

  lemma StillThere(c: seq<Entry>, p: seq<Tx>, k: Key)
    requires Distinct(c + PendingEntries(p)) && CleanAll(c + PendingEntries(p)) && CleanAll(c) && Distinct(c)
    requires k in Replay(c + PendingEntries(p)) && forall x | x in p :: k !in Made(x)
    ensures k in Replay(c) && Replay(c)[k].amount == Replay(c + PendingEntries(p))[k].amount
  {
    hide Distinct, CleanAll, Replay, Spent, Made;
    var all := c + PendingEntries(p);
    ReplayClosed(all, k);
    ReplayClosed(c, k);
    var e :| e in all && k in Add(e);
    if e !in c {
      InPending(p, e);
    }
    var i :| 0 <= i < |c| && c[i] == e;
    assert all[i] == e;
    assert forall x | x in c :: x in all;
  }

  /** A block that spends what a conflicting transaction has made does not fit. */
  lemma ForeignDoesNotFit(c: seq<Entry>, p: seq<Tx>, u: Table, b: Block, done: set<Tx>)
    requires Distinct(c + PendingEntries(p)) && CleanAll(c) && Distinct(c) && Matches(u, Replay(c))
    requires forall tx | tx in p :: tx.txid !in IdSet(b.txs)
    requires Fits(u, PlayEntries(b.txs, b.proposer, done))
    ensures SpendsNoneOf(b, done, p)
  {
    hide Distinct, CleanAll, Replay, Spent, Made, PlayEntries, NoDoubleSpend;
    var es := PlayEntries(b.txs, b.proposer, done);
    forall tx, x | tx in b.txs && tx !in done && x in p
      ensures Spent(tx.inputs).Keys !! Made(x).Keys
    {
      InPlayEntries(b.txs, b.proposer, done, TxDone(tx));
      var i :| 0 <= i < |es| && es[i] == TxDone(tx);
      forall k | k in Spent(tx.inputs).Keys
        ensures k !in Made(x).Keys
      {
        if k in Made(x) {
          assert k in Del(es[i]) && Supplied(u, es[..i], k, Del(es[i])[k].amount);
          MadeByConflict(c, p, u, b, done, x, k);
        }
      }
    }
  }

  lemma MadeByConflict(c: seq<Entry>, p: seq<Tx>, u: Table, b: Block, done: set<Tx>, x: Tx, k: Key)
    requires Distinct(c + PendingEntries(p)) && CleanAll(c) && Distinct(c) && Matches(u, Replay(c))
    requires x in p && k in Made(x) && x.txid !in IdSet(b.txs)
    ensures k !in u && forall e | e in PlayEntries(b.txs, b.proposer, done) :: k !in Add(e)
  {
    hide CleanAll, Replay, Made, PlayEntries;
    AddKeys(TxDone(x), k);
    forall e | e in PlayEntries(b.txs, b.proposer, done)
      ensures k !in Add(e)
    {
      InPlayEntries(b.txs, b.proposer, done, e);
      InIdSet(b.txs, e.tx);
      if k in Add(e) {
        AddKeys(e, k);
      }
    }
    ReplayClosed(c, k);
    var all := c + PendingEntries(p);
    InPending(p, TxDone(x));
    var j :| 0 <= j < |PendingEntries(p)| && PendingEntries(p)[j] == TxDone(x);
    forall e | e in c
      ensures k !in Add(e)
    {
      var i :| 0 <= i < |c| && c[i] == e;
      assert all[i] == e && all[|c| + j] == TxDone(x);
      AddsDisjoint(all, i, |c| + j);
    }
  }

  // ---------------------------------------------------------------- the whole step

  /** A received block that is played keeps the table in step, with exactly the unconfirmed transactions
      that are neither in it nor in conflict with it, if and only if the rest of it fits on the table
      without the conflicting ones and it spends only from its chain. With a sound cache, the rest fits
      exactly if it spends nothing that a conflicting transaction has made. A block that is not played
      keeps the table in step; how both totals move. */
  lemma RepostKeeps(d: Tables, v: View, b: Block, r: Repost, window: nat)
    requires Stored(d, v, b) && Tracks(d, v) && Separates(d, v, b, r)
    ensures var v2 := AfterRepost(d, v, b, r, window);
            var done := Pooled(b, v.unconfirmed);
            var es, p := PlayEntries(b.txs, b.proposer, done), PendingEntries(r.conflicts);
            && Playable(d, v2.latest)
            && if RepostOk(d, v, b, r) then
                 && (Tracks(d, v2) <==> Fits(Cleared(v, r).utxo, es) && Ordered(ChainEntries(d, b.id)))
                 && (Sound(Cleared(v, r).utxo, b, done, r.env) ==>
                       (Fits(Cleared(v, r).utxo, es) <==> SpendsNoneOf(b, done, r.conflicts)))
                 && v2.unconfirmed == Unmined(Remaining(v, r), IdSet(b.txs)) && Drift(d, v2) == Drift(d, v)
                 && Gap(d, v2) == if Total(p) != 0 || Total(es) != 0 then Drift(d, v) else Gap(d, v)
               else
                 && Tracks(d, v2) && v2 == v.(memTotal := v2.memTotal) && Gap(d, v2) == Gap(d, v)
                 && Drift(d, v2) == Drift(d, v) + Leftover(d, v, b, r)
  {
    hide Distinct, CleanAll, Matches, Replay, ApplyAll, RevertAll, Total, PlayEntries, PendingEntries, ChainEntries;
    hide Refused, Fits, Sound, Ordered, Continues, Unmined, IdSet, Separates, SpendsNoneOf, NoDuplicateInputs, Pooled;
    var v2 := AfterRepost(d, v, b, r, window);
    if RepostOk(d, v, b, r) {
      var done, u := Pooled(b, v.unconfirmed), Cleared(v, r);
      ClearedTracks(d, v, b, r);
      PooledContinues(d, v, b, r);
      PlayTracks(d, u, b, done);
      assert b.txs[..|b.txs|] == b.txs;
      SameTracks(d, Played(u, b, done), v2);
      if Sound(u.utxo, b, done, r.env) {
        RepostFits(d, v, b, r);
      }
    } else {
      SameTracks(d, v, v2);
    }
  }

  /** What a received block that is not played leaves: the table, the recorded total and the unconfirmed
      transactions as they were, and in the in-memory total what the conflicting transactions had minted
      taken off, and what the block's transactions before the first refused one mint added, unless it was
      refused at once. */
  lemma RepostFailure(d: Tables, v: View, b: Block, r: Repost, window: nat)
    requires !RepostOk(d, v, b, r)
    ensures var v2 := AfterRepost(d, v, b, r, window);
            var n := FirstRefused(v.utxo, b, Pooled(b, v.unconfirmed), Unchecked(r.env), d.trunkHeight, 0);
            && v2 == v.(memTotal := v2.memTotal)
            && v2.memTotal == v.memTotal
               - (if NoDuplicateInputs(AllInputs(b.txs)) then Total(PendingEntries(r.conflicts)) else 0)
               + (if NoDuplicateInputs(AllInputs(b.txs)) && r.verified
                  then Total(PlayEntries(b.txs[..n], b.proposer, Pooled(b, v.unconfirmed))) else 0)
  {
    hide NoDuplicateInputs, AllInputs, Total, PlayEntries, PendingEntries, Refused, ApplyAll, RevertAll;
  }

  lemma RepostFits(d: Tables, v: View, b: Block, r: Repost)
    requires Tracks(d, v) && Separates(d, v, b, r) && RepostOk(d, v, b, r)
    requires Sound(Cleared(v, r).utxo, b, Pooled(b, v.unconfirmed), r.env)
    ensures var done := Pooled(b, v.unconfirmed);
            Fits(Cleared(v, r).utxo, PlayEntries(b.txs, b.proposer, done)) <==> SpendsNoneOf(b, done, r.conflicts)
  {
    hide Distinct, CleanAll, Matches, Replay, RevertAll, Total, PlayEntries, PendingEntries, ChainEntries, Refused;
    hide Fits, Sound, SpendsNoneOf, NoDuplicateInputs, DependencyOrder, Pooled, IdSet, NoDoubleSpend;
    var done, u := Pooled(b, v.unconfirmed), Cleared(v, r);
    ClearedTracks(d, v, b, r);
    if SpendsNoneOf(b, done, r.conflicts) {
      ClearedBacks(Entries(d, u), r.conflicts, v.utxo, u.utxo, b, done);
      SoundUnchecked(u.utxo, b, done, r.env);
      AcceptedFits(v.utxo, u.utxo, b, done, Unchecked(r.env), d.trunkHeight);
      PlayedOnce(b, done);
    }
    if Fits(u.utxo, PlayEntries(b.txs, b.proposer, done)) {
      ForeignDoesNotFit(Entries(d, u), r.conflicts, u.utxo, b, done);
    }
  }
}
