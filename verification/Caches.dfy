/** The UTXO cache, which the input check looks at first: what it can hold while a block is played, and
    what a step that fails leaves in it. Entries may be dropped at any time. */
module Caches {
  import opened Types
  import opened Utxo
  import opened Value
  import opened Replays
  import opened Unconfirmed
  import opened Steps

  /** All that the cache can hold after n transactions of b, starting with cached: a transaction takes out
      what it spends and puts in what it makes, and its fee is put in. */
  ghost function Bound(cached: Table, b: Block, done: set<Tx>, n: nat): Table
    requires n <= |b.txs|
  {
    if n == 0 then cached
    else
      var m, tx := Bound(cached, b, done, n - 1), b.txs[n - 1];
      (if tx in done then m else (m - Spent(tx.inputs).Keys) + Made(tx)) + Fees(tx, b.proposer)
  }

  /** Part of m, with some entries dropped. */
  ghost predicate Part(cached: Table, m: Table) {
    forall k | k in cached :: k in m && m[k] == cached[k]
  }

  /** env's cache is what playing b from cached can leave in it. */
  ghost predicate Follows(env: Env, cached: Table, b: Block, done: set<Tx>) {
    forall n: nat {:trigger env.caches(b.id, n)} | n < |b.txs| :: Part(env.caches(b.id, n), Bound(cached, b, done, n))
  }

  /** The cache is part of the table with the batch, as far as the batch has got. */
  lemma {:induction false} BoundHere(t: Table, cached: Table, b: Block, done: set<Tx>, n: nat)
    requires CachedHere(t, cached) && n <= |b.txs|
    ensures CachedHere(ApplyAll(t, PlayEntries(b.txs[..n], b.proposer, done)), Bound(cached, b, done, n))
  {
    hide Made, Fees, Spent, PlayEntries, ApplyAll, CachedHere;
    if n == 0 {
      NoneLeft(b, done);
      NoneApplied(t);
    } else {
      BoundHere(t, cached, b, done, n - 1);
      var es, tx := PlayEntries(b.txs[..n - 1], b.proposer, done), b.txs[n - 1];
      PlayEntriesStep(b.txs, b.proposer, done, n - 1);
      var u, m := ApplyAll(t, es), Bound(cached, b, done, n - 1);
      var x, y := TxDone(tx), FeePaid(tx, b.proposer);
      if tx in done {
        assert es + [] + [y] == es + [y];
        ApplyAllSnoc(t, es, y);
        StepHere(u, m, Del(y).Keys, Add(y));
        Neutral(m, Del(y));
      } else {
        ApplyAllSnoc(t, es, x);
        ApplyAllSnoc(t, es + [x], y);
        StepHere(u, m, Del(x).Keys, Add(x));
        m := (m - Del(x).Keys) + Add(x);
        StepHere(Apply(u, x), m, Del(y).Keys, Add(y));
        Neutral(m, Del(y));
      }
    }
  }

  lemma StepHere(t: Table, m: Table, del: set<Key>, add: Table)
    requires CachedHere(t, m)
    ensures CachedHere((t - del) + add, (m - del) + add)
  {
  }

  lemma NoneApplied(t: Table)
    ensures ApplyAll(t, []) == t
  {
  }

  lemma NoneLeft(b: Block, done: set<Tx>)
    ensures PlayEntries(b.txs[..0], b.proposer, done) == []
  {
  }

  /** So a cache that agrees with the table is sound for every block, and agrees with the table that
      playing the block leaves. */
  lemma CacheKept(t: Table, cached: Table, b: Block, done: set<Tx>, env: Env, left: Table)
    requires CachedHere(t, cached) && Follows(env, cached, b, done) && Part(left, Bound(cached, b, done, |b.txs|))
    ensures Sound(t, b, done, env)
    ensures CachedHere(ApplyAll(t, PlayEntries(b.txs, b.proposer, done)), left)
  {
    hide Bound, PlayEntries, ApplyAll, Add;
    forall n: nat, k | n < |b.txs| && k in env.caches(b.id, n)
      ensures Supplied(t, PlayEntries(b.txs[..n], b.proposer, done), k, env.caches(b.id, n)[k].amount)
    {
      BoundHere(t, cached, b, done, n);
      assert Part(env.caches(b.id, n), Bound(cached, b, done, n));
      AppliedSupplied(t, PlayEntries(b.txs[..n], b.proposer, done), k);
    }
    BoundHere(t, cached, b, done, |b.txs|);
    assert b.txs[..|b.txs|] == b.txs;
  }

  /** What is in a table after es was there before or has been made. */
  lemma {:induction false} AppliedSupplied(t: Table, es: seq<Entry>, k: Key)
    requires k in ApplyAll(t, es)
    ensures Supplied(t, es, k, ApplyAll(t, es)[k].amount)
    decreases |es|
  {
    hide Add, Del;
    if es != [] {
      var front, e := es[..|es| - 1], es[|es| - 1];
      if k !in Add(e) {
        AppliedSupplied(t, front, k);
        assert forall x | x in front :: x in es;
      }
    }
  }

  /** A step that fails after n transactions leaves a cache that agrees with the table if and only if it
      holds nothing that these have made. */
  lemma FailedStepCache(t: Table, cached: Table, b: Block, done: set<Tx>, n: nat, left: Table)
    requires CachedHere(t, cached) && n <= |b.txs| && Part(left, Bound(cached, b, done, n))
    requires forall e | e in PlayEntries(b.txs[..n], b.proposer, done) :: Add(e).Keys !! t.Keys
    ensures CachedHere(t, left) <==>
              forall e | e in PlayEntries(b.txs[..n], b.proposer, done) :: Add(e).Keys !! left.Keys
  {
    hide Bound, PlayEntries, ApplyAll, Add;
    var es := PlayEntries(b.txs[..n], b.proposer, done);
    BoundHere(t, cached, b, done, n);
    if forall e | e in es :: Add(e).Keys !! left.Keys {
      forall k | k in left
        ensures k in t && t[k].amount == left[k].amount
      {
        AppliedSupplied(t, es, k);
      }
    }
  }
}
