/** What the UTXO table means, said of the transactions alone: it holds the outputs of the transactions on
    the chain and of the unconfirmed ones that none of them has spent, and the fees paid to proposers. And
    what the input check accepts, in the same terms. */
module Meaning {
  import opened Types
  import opened Chain
  import opened Tables
  import opened Utxo
  import opened Value
  import opened Replays
  import opened Unconfirmed
  import opened Steps
  import opened Reposts
  import opened Frozen

  // ---------------------------------------------------------------- transactions and outputs

  /** tx makes output k, neither a fee nor empty. */
  predicate Creates(tx: Tx, k: Key, item: Item) {
    && k.txid == tx.txid && k.offset < |tx.outputs|
    && var o := tx.outputs[k.offset];
       && o.toAddr == k.addr && o.toAddr != "$" && o.amount != 0 && item == Item(o.amount, o.frozenHeight)
  }

  /** Output k pays a fee of tx to the proposer. */
  predicate PaysFee(tx: Tx, proposer: Address, k: Key, item: Item) {
    && k.txid == tx.txid && k.offset < |tx.outputs|
    && var o := tx.outputs[k.offset]; o.toAddr == "$" && k.addr == proposer && item == Item(o.amount, 0)
  }

  ghost predicate Spends(tx: Tx, k: Key) {
    AnyRefers(tx.inputs, k)
  }

  ghost predicate AnyRefers(inputs: seq<TxInput>, k: Key) {
    exists i :: 0 <= i < |inputs| && Refers(inputs[i], k)
  }

  predicate Refers(i: TxInput, k: Key) {
    i.fromAddr == k.addr && i.refTxid == k.txid && i.refOffset == k.offset
  }

  lemma MadeMeans(tx: Tx, k: Key, item: Item)
    ensures k in Made(tx) && Made(tx)[k] == item <==> Creates(tx, k, item)
  {
  }

  lemma FeesMeans(tx: Tx, proposer: Address, k: Key, item: Item)
    ensures k in Fees(tx, proposer) && Fees(tx, proposer)[k] == item <==> PaysFee(tx, proposer, k, item)
  {
  }

  lemma SpentMeans(tx: Tx, k: Key)
    ensures k in Spent(tx.inputs) <==> Spends(tx, k)
  {
    SpentKeys(tx.inputs, k);
    if k in Spent(tx.inputs) {
      var i :| 0 <= i < |tx.inputs| && InputKey(tx.inputs[i]) == k;
      assert Refers(tx.inputs[i], k);
    }
    if Spends(tx, k) {
      var i :| 0 <= i < |tx.inputs| && Refers(tx.inputs[i], k);
      assert InputKey(tx.inputs[i]) == k;
    }
  }

  // ---------------------------------------------------------------- the transactions of a state

  /** Block x is on the chain of id and holds tx. */
  ghost predicate Holding(d: Tables, id: BlockId, x: BlockId, tx: Tx)
    requires Playable(d, id)
  {
    id in d.blocks && OnPath(d.blocks, d.root, x, id) && tx in BlockOf(d, x).txs
  }

  /** tx is in a block on the chain to the latest one, or unconfirmed. */
  ghost predicate Counts(d: Tables, v: View, tx: Tx)
    requires Playable(d, v.latest)
  {
    tx in v.unconfirmed || exists x :: Holding(d, v.latest, x, tx)
  }

  /** tx is in a block of this proposer on the chain to the latest one. */
  ghost predicate Collected(d: Tables, v: View, tx: Tx, proposer: Address)
    requires Playable(d, v.latest)
  {
    exists x :: Holding(d, v.latest, x, tx) && d.blocks[x].proposer == proposer
  }

  /** k has been made, as item, and not been spent. */
  ghost predicate Unspent(d: Tables, v: View, k: Key, item: Item)
    requires Playable(d, v.latest)
  {
    && ((exists tx :: Counts(d, v, tx) && Creates(tx, k, item))
        || exists tx, proposer :: Collected(d, v, tx, proposer) && PaysFee(tx, proposer, k, item))
    && !exists tx :: Counts(d, v, tx) && Spends(tx, k)
  }

  lemma {:induction false} ChainHolds(d: Tables, id: BlockId, e: Entry)
    requires Playable(d, id)
    ensures e in ChainEntries(d, id) <==>
              exists x :: Holding(d, id, x, e.tx) && (e.FeePaid? ==> d.blocks[x].proposer == e.proposer)
    decreases if id == "" then 0 else d.blocks[id].height + 1
  {
    hide EntriesOf, Path;
    if id != "" {
      assert TreeNode(d.blocks, d.root, id);
      var pre, b := d.blocks[id].preHash, BlockOf(d, id);
      ChainHolds(d, pre, e);
      InEntriesOf(b.txs, b.proposer, e);
      OnNextPath(d, id);
      if e in ChainEntries(d, pre) {
        var x :| Holding(d, pre, x, e.tx) && (e.FeePaid? ==> d.blocks[x].proposer == e.proposer);
        assert Holding(d, id, x, e.tx);
      } else if e in BlockEntries(b) {
        assert Holding(d, id, id, e.tx);
      }
      if x :| Holding(d, id, x, e.tx) && (e.FeePaid? ==> d.blocks[x].proposer == e.proposer) {
        if x != id {
          assert Holding(d, pre, x, e.tx);
        }
      }
    }
  }

  lemma OnNextPath(d: Tables, id: BlockId)
    requires IsTree(d.blocks, d.root) && id in d.blocks
    ensures var pre := d.blocks[id].preHash;
            && (pre == "" <==> id == d.root) && (pre == "" || pre in d.blocks)
            && forall x :: OnPath(d.blocks, d.root, x, id) <==>
                             x == id || (pre in d.blocks && OnPath(d.blocks, d.root, x, pre))
  {
    assert TreeNode(d.blocks, d.root, id);
    if id != d.root {
      assert Path(d.blocks, d.root, id) == Path(d.blocks, d.root, d.blocks[id].preHash) + [id];
    }
  }

  lemma EntriesHold(d: Tables, v: View, tx: Tx, proposer: Address)
    requires Playable(d, v.latest)
    ensures TxDone(tx) in Entries(d, v) <==> Counts(d, v, tx)
    ensures FeePaid(tx, proposer) in Entries(d, v) <==> Collected(d, v, tx, proposer)
  {
    hide ChainEntries, PendingEntries, Holding;
    ChainHolds(d, v.latest, TxDone(tx));
    ChainHolds(d, v.latest, FeePaid(tx, proposer));
    InPending(v.unconfirmed, TxDone(tx));
    InPending(v.unconfirmed, FeePaid(tx, proposer));
  }

  lemma CreatedMeans(d: Tables, v: View, k: Key)
    requires Playable(d, v.latest)
    ensures forall e | e in Entries(d, v) && k in Add(e) ::
              if e.TxDone? then Counts(d, v, e.tx) && Creates(e.tx, k, Add(e)[k])
              else Collected(d, v, e.tx, e.proposer) && PaysFee(e.tx, e.proposer, k, Add(e)[k])
    ensures forall tx, item | Counts(d, v, tx) && Creates(tx, k, item) ::
              TxDone(tx) in Entries(d, v) && k in Add(TxDone(tx)) && Add(TxDone(tx))[k] == item
    ensures forall tx, proposer, item | Collected(d, v, tx, proposer) && PaysFee(tx, proposer, k, item) ::
              && FeePaid(tx, proposer) in Entries(d, v)
              && k in Add(FeePaid(tx, proposer)) && Add(FeePaid(tx, proposer))[k] == item
  {
    hide Entries, Counts, Collected, Made, Fees, Creates, PaysFee;
    forall e | e in Entries(d, v) && k in Add(e)
      ensures if e.TxDone? then Counts(d, v, e.tx) && Creates(e.tx, k, Add(e)[k])
              else Collected(d, v, e.tx, e.proposer) && PaysFee(e.tx, e.proposer, k, Add(e)[k])
    {
      match e
      case TxDone(tx) =>
        EntriesHold(d, v, tx, "");
        MadeMeans(tx, k, Add(e)[k]);
      case FeePaid(tx, proposer) =>
        EntriesHold(d, v, tx, proposer);
        FeesMeans(tx, proposer, k, Add(e)[k]);
    }
    forall tx, item | Counts(d, v, tx) && Creates(tx, k, item)
      ensures TxDone(tx) in Entries(d, v) && k in Add(TxDone(tx)) && Add(TxDone(tx))[k] == item
    {
      EntriesHold(d, v, tx, "");
      MadeMeans(tx, k, item);
    }
    forall tx, proposer, item | Collected(d, v, tx, proposer) && PaysFee(tx, proposer, k, item)
      ensures && FeePaid(tx, proposer) in Entries(d, v)
              && k in Add(FeePaid(tx, proposer)) && Add(FeePaid(tx, proposer))[k] == item
    {
      EntriesHold(d, v, tx, proposer);
      FeesMeans(tx, proposer, k, item);
    }
  }

  lemma ConsumedMeans(d: Tables, v: View, k: Key)
    requires Playable(d, v.latest)
    ensures Consumed(Entries(d, v), k) <==> exists tx :: Counts(d, v, tx) && Spends(tx, k)
  {
    hide Entries, Counts, Collected, Spent, Spends;
    if Consumed(Entries(d, v), k) {
      var e :| e in Entries(d, v) && k in Del(e);
      EntriesHold(d, v, e.tx, "");
      SpentMeans(e.tx, k);
      assert Counts(d, v, e.tx) && Spends(e.tx, k);
    }
    if tx :| Counts(d, v, tx) && Spends(tx, k) {
      EntriesHold(d, v, tx, "");
      SpentMeans(tx, k);
      assert TxDone(tx) in Entries(d, v) && k in Del(TxDone(tx));
    }
  }

  /** A table in step holds exactly the outputs made and not spent, with their amounts; an exact one holds
      them with their frozen heights. */
  lemma TableMeans(d: Tables, v: View, k: Key, item: Item)
    requires Tracks(d, v)
    ensures Unspent(d, v, k, item) ==> k in v.utxo && v.utxo[k].amount == item.amount
    ensures k in v.utxo ==> exists made :: Unspent(d, v, k, made) && made.amount == v.utxo[k].amount
    ensures Exact(d, v) ==> (k in v.utxo && v.utxo[k] == item <==> Unspent(d, v, k, item))
  {
    hide Counts, Collected, Creates, PaysFee, Spends, Add, Del, Replay, Distinct, CleanAll;
    var es := Entries(d, v);
    ReplayClosed(es, k);
    ConsumedMeans(d, v, k);
    CreatedMeans(d, v, k);
    if k in v.utxo {
      var e :| e in es && k in Add(e);
      var i :| 0 <= i < |es| && es[i] == e;
      UnspentFrom(d, v, k, e);
      assert Unspent(d, v, k, Add(e)[k]);
    }
    if Unspent(d, v, k, item) {
      var e := SourceOf(d, v, k, item);
      var i :| 0 <= i < |es| && es[i] == e;
    }
  }

  lemma UnspentFrom(d: Tables, v: View, k: Key, e: Entry)
    requires Playable(d, v.latest) && e in Entries(d, v) && k in Add(e) && !Consumed(Entries(d, v), k)
    ensures Unspent(d, v, k, Add(e)[k])
  {
    hide Counts, Collected, Creates, PaysFee, Spends, Add, Entries;
    ConsumedMeans(d, v, k);
    CreatedMeans(d, v, k);
    if e.TxDone? {
      assert Counts(d, v, e.tx) && Creates(e.tx, k, Add(e)[k]);
    } else {
      assert Collected(d, v, e.tx, e.proposer) && PaysFee(e.tx, e.proposer, k, Add(e)[k]);
    }
  }

  lemma SourceOf(d: Tables, v: View, k: Key, item: Item) returns (e: Entry)
    requires Playable(d, v.latest) && Unspent(d, v, k, item)
    ensures e in Entries(d, v) && k in Add(e) && Add(e)[k] == item
  {
    hide Counts, Collected, Creates, PaysFee, Spends, Add, Entries;
    CreatedMeans(d, v, k);
    if tx :| Counts(d, v, tx) && Creates(tx, k, item) {
      e := TxDone(tx);
    } else {
      var tx, proposer :| Collected(d, v, tx, proposer) && PaysFee(tx, proposer, k, item);
      e := FeePaid(tx, proposer);
    }
  }

  // ---------------------------------------------------------------- what a submission may spend

  /** The input states the amount of the item as the table encodes it, and the item is not frozen. */
  predicate MaySpend(i: TxInput, item: Item, trunkHeight: nat) {
    i.minimal && i.amount == item.amount && !IsFrozen(item, trunkHeight)
  }

  predicate Balances(tx: Tx) {
    InSum(tx.inputs) == OutSum(tx.outputs) || (InSum(tx.inputs) == 0 && tx.coinbase)
  }

  /** No two inputs refer to the same output. */
  ghost predicate RefersOnce(tx: Tx) {
    forall i, j | 0 <= i < j < |tx.inputs| :: InputKey(tx.inputs[i]) != InputKey(tx.inputs[j])
  }

  lemma InputOkIff(t: Table, i: TxInput, trunkHeight: nat)
    ensures InputOk(t, i, trunkHeight) <==> InputKey(i) in t && MaySpend(i, t[InputKey(i)], trunkHeight)
  {
  }

  lemma ChecksIff(t: Table, tx: Tx, trunkHeight: nat)
    ensures Checks(t, tx, trunkHeight) <==>
              && RefersOnce(tx) && Balances(tx)
              && forall i | 0 <= i < |tx.inputs| ::
                   InputKey(tx.inputs[i]) in t && MaySpend(tx.inputs[i], t[InputKey(tx.inputs[i])], trunkHeight)
  {
    hide MaySpend, InputOk;
    forall i | 0 <= i < |tx.inputs|
      ensures InputOk(t, tx.inputs[i], trunkHeight) <==>
                InputKey(tx.inputs[i]) in t && MaySpend(tx.inputs[i], t[InputKey(tx.inputs[i])], trunkHeight)
    {
      InputOkIff(t, tx.inputs[i], trunkHeight);
    }
  }

  /** The input refers to an output on the chain or of an unconfirmed transaction that none has spent, and
      that may be spent. */
  ghost predicate TakesUnspent(d: Tables, v: View, i: TxInput)
    requires Playable(d, v.latest)
  {
    exists item :: Unspent(d, v, InputKey(i), item) && MaySpend(i, item, d.trunkHeight)
  }

  /** With an exact table and a cache that agrees with it, a submission gets in exactly if the mempool takes
      it, its id is not unconfirmed already, and it spends only unspent outputs, each once, for outputs of
      the same value. */
  lemma EntersIff(d: Tables, v: View, tx: Tx, o: Intake)
    requires Tracks(d, v) && Exact(d, v) && forall k | k in o.cached :: k in v.utxo && o.cached[k] == v.utxo[k]
    ensures Enters(d, v, tx, o) <==>
              && o.locked && !o.full && o.putOk && (forall u | u in v.unconfirmed :: u.txid != tx.txid)
              && RefersOnce(tx) && Balances(tx)
              && forall i | 0 <= i < |tx.inputs| :: TakesUnspent(d, v, tx.inputs[i])
  {
    hide Distinct, CleanAll, Matches, Replay, Entries, Exact, TakesUnspent, MaySpend, Checks, Balances, RefersOnce;
    assert v.utxo + o.cached == v.utxo;
    ChecksIff(v.utxo, tx, d.trunkHeight);
    forall i | 0 <= i < |tx.inputs|
      ensures (InputKey(tx.inputs[i]) in v.utxo
               && MaySpend(tx.inputs[i], v.utxo[InputKey(tx.inputs[i])], d.trunkHeight))
         <==> TakesUnspent(d, v, tx.inputs[i])
    {
      FoundMeans(d, v, tx.inputs[i]);
    }
  }

  lemma FoundMeans(d: Tables, v: View, i: TxInput)
    requires Tracks(d, v) && Exact(d, v)
    ensures (InputKey(i) in v.utxo && MaySpend(i, v.utxo[InputKey(i)], d.trunkHeight))
       <==> TakesUnspent(d, v, i)
  {
    hide Distinct, CleanAll, Matches, Replay, Entries, Exact, Unspent, MaySpend;
    var k := InputKey(i);
    if k in v.utxo {
      TableMeans(d, v, k, v.utxo[k]);
    }
    forall item | Unspent(d, v, k, item)
      ensures k in v.utxo && v.utxo[k] == item
    {
      TableMeans(d, v, k, item);
    }
  }

  // ---------------------------------------------------------------- what a block may spend

  /** Transaction j of the first n makes k, and none of those after it, up to n, spends it. */
  ghost predicate MadeBefore(txs: seq<Tx>, done: set<Tx>, j: int, k: Key, item: Item) {
    && 0 <= j < |txs| && txs[j] !in done && Creates(txs[j], k, item)
    && forall m | j < m < |txs| && txs[m] !in done :: !Spends(txs[m], k)
  }

  /** The batch cache holds what the transactions done so far have made and not spent. */
  lemma {:induction false} MadeInMeans(txs: seq<Tx>, done: set<Tx>, k: Key, item: Item)
    requires DistinctIds(txs)
    ensures k in MadeIn(txs, done) && MadeIn(txs, done)[k] == item <==> exists j :: MadeBefore(txs, done, j, k, item)
    decreases |txs|
  {
    hide Made, Creates, Spends;
    if txs != [] {
      var n := |txs| - 1;
      var front, tx := txs[..n], txs[n];
      MadeInMeans(front, done, k, item);
      MadeMeans(tx, k, item);
      SpentMeans(tx, k);
      assert forall i | 0 <= i < n :: front[i] == txs[i];
      if j :| MadeBefore(front, done, j, k, item) {
        if tx in done || k !in Spent(tx.inputs) {
          assert MadeBefore(txs, done, j, k, item);
        }
      }
      if tx !in done && Creates(tx, k, item) {
        assert MadeBefore(txs, done, n, k, item);
      }
      if j :| MadeBefore(txs, done, j, k, item) {
        if j < n {
          assert MadeBefore(front, done, j, k, item);
          CreatedOnce(txs[j], tx, k, item);
        }
      }
      if k in Made(tx) {
        MadeMeans(tx, k, Made(tx)[k]);
      }
    }
  }

  /** Different transactions make different outputs. */
  lemma CreatedOnce(a: Tx, b: Tx, k: Key, item: Item)
    requires a.txid != b.txid && Creates(a, k, item)
    ensures k !in Made(b)
  {
    if k in Made(b) {
      MadeMeans(b, k, Made(b)[k]);
    }
  }

  /** k is offered to transaction n of b as item: the table before the block holds it, or an earlier
      transaction of the block, not done before, has made it and no other one spent it since. What the
      block has spent of the table is still offered. */
  ghost predicate Offered(d: Tables, v: View, b: Block, done: set<Tx>, n: nat, k: Key, item: Item)
    requires Playable(d, v.latest) && n <= |b.txs|
  {
    Unspent(d, v, k, item) || exists j :: MadeBefore(b.txs[..n], done, j, k, item)
  }

  /** The UTXO cache holds only what is offered. */
  ghost predicate CacheOffers(d: Tables, v: View, b: Block, done: set<Tx>, env: Env)
    requires Playable(d, v.latest)
  {
    forall n: nat, k {:trigger k in env.caches(b.id, n)} | n < |b.txs| && k in env.caches(b.id, n) ::
      Offered(d, v, b, done, n, k, env.caches(b.id, n)[k])
  }

  ghost predicate TakesOffered(d: Tables, v: View, b: Block, done: set<Tx>, n: nat, i: TxInput)
    requires Playable(d, v.latest) && n <= |b.txs|
  {
    exists item :: Offered(d, v, b, done, n, InputKey(i), item) && MaySpend(i, item, d.trunkHeight)
  }

  /** Transaction n of b spends only what is offered to it, each output once, for outputs of the same value. */
  ghost predicate SpendsOffered(d: Tables, v: View, b: Block, done: set<Tx>, n: nat)
    requires Playable(d, v.latest) && n < |b.txs|
  {
    && RefersOnce(b.txs[n]) && Balances(b.txs[n])
    && forall i | 0 <= i < |b.txs[n].inputs| :: TakesOffered(d, v, b, done, n, b.txs[n].inputs[i])
  }

  /** An exact state, the next block, and a cache that holds only what is offered. */
  ghost predicate Ready(d: Tables, v: View, b: Block, done: set<Tx>, env: Env) {
    && Stored(d, v, b) && Tracks(d, v) && Exact(d, v) && Continues(b, v.unconfirmed, done)
    && CacheOffers(d, v, b, done, env)
  }

  /** With the next block on an exact state, and a cache that holds only what is offered, exactly the
      transactions are refused that are not verified, coinbase ones apart, or spend something else. */
  lemma RefusedIff(d: Tables, v: View, b: Block, done: set<Tx>, env: Env, n: nat)
    requires Ready(d, v, b, done, env) && n < |b.txs|
    ensures Refused(v.utxo, b, done, env, d.trunkHeight, n) <==>
              && b.txs[n] !in done
              && ((!b.txs[n].coinbase && b.txs[n].txid in env.unverified) || !SpendsOffered(d, v, b, done, n))
  {
    hide Distinct, CleanAll, Matches, Replay, Entries, Exact, Checks, Balances, RefersOnce, TakesOffered, CacheOffers,
         MaySpend, LedgerOk, Seen;
    var tx, seen := b.txs[n], Seen(v.utxo, b, done, env, n);
    ChecksIff(seen, tx, d.trunkHeight);
    forall i | 0 <= i < |tx.inputs|
      ensures (InputKey(tx.inputs[i]) in seen && MaySpend(tx.inputs[i], seen[InputKey(tx.inputs[i])], d.trunkHeight))
         <==> TakesOffered(d, v, b, done, n, tx.inputs[i])
    {
      SeenTakes(d, v, b, done, env, n, tx.inputs[i]);
    }
  }

  lemma SeenTakes(d: Tables, v: View, b: Block, done: set<Tx>, env: Env, n: nat, i: TxInput)
    requires Ready(d, v, b, done, env) && n < |b.txs|
    ensures var seen := Seen(v.utxo, b, done, env, n);
            InputKey(i) in seen && MaySpend(i, seen[InputKey(i)], d.trunkHeight) <==> TakesOffered(d, v, b, done, n, i)
  {
    hide Distinct, CleanAll, Matches, Replay, Entries, Exact, Offered, CacheOffers, MaySpend, LedgerOk, Seen;
    var seen, k := Seen(v.utxo, b, done, env, n), InputKey(i);
    SeenMeans(d, v, b, done, env, n, k);
    if k in seen {
      assert Offered(d, v, b, done, n, k, seen[k]);
    }
  }

  /** What the check sees is what is offered. */
  lemma SeenMeans(d: Tables, v: View, b: Block, done: set<Tx>, env: Env, n: nat, k: Key)
    requires Ready(d, v, b, done, env) && n < |b.txs|
    ensures forall item :: k in Seen(v.utxo, b, done, env, n) && Seen(v.utxo, b, done, env, n)[k] == item
                           <==> Offered(d, v, b, done, n, k, item)
  {
    hide Distinct, CleanAll, Matches, Replay, Entries, Exact, Offered, MadeIn, LedgerOk;
    var t, made := v.utxo, MadeIn(b.txs[..n], done);
    BodyDistinct(d, b, n);
    forall item
      ensures Offered(d, v, b, done, n, k, item) <==> (k in t && t[k] == item) || (k in made && made[k] == item)
    {
      OfferedIff(d, v, b, done, n, k, item);
    }
    if k in t {
      NewInBlock(d, v, b, done, n, k);
    }
    if k in env.caches(b.id, n) {
      assert Offered(d, v, b, done, n, k, env.caches(b.id, n)[k]);
    }
  }

  lemma OfferedIff(d: Tables, v: View, b: Block, done: set<Tx>, n: nat, k: Key, item: Item)
    requires Tracks(d, v) && Exact(d, v) && n <= |b.txs| && DistinctIds(b.txs[..n])
    ensures Offered(d, v, b, done, n, k, item) <==>
              || (k in v.utxo && v.utxo[k] == item)
              || (k in MadeIn(b.txs[..n], done) && MadeIn(b.txs[..n], done)[k] == item)
  {
    hide Distinct, CleanAll, Matches, Replay, Entries, Exact, Unspent, MadeBefore, MadeIn, DistinctIds;
    TableMeans(d, v, k, item);
    MadeInMeans(b.txs[..n], done, k, item);
  }

  lemma BodyDistinct(d: Tables, b: Block, n: nat)
    requires LedgerOk(d) && b.id in d.blocks && b == BlockOf(d, b.id) && n <= |b.txs|
    ensures DistinctIds(b.txs[..n])
  {
    MinedBodyDistinct(d, b.id);
  }

  lemma NewInBlock(d: Tables, v: View, b: Block, done: set<Tx>, n: nat, k: Key)
    requires Stored(d, v, b) && Tracks(d, v) && Continues(b, v.unconfirmed, done) && k in v.utxo && n <= |b.txs|
    ensures k !in MadeIn(b.txs[..n], done)
  {
    hide Tracks, LedgerOk, PlayEntries, Add, MadeIn, Continues;
    NextMakesNew(d, v, b, done, k);
    NotMadeIn(b, done, n, k);
  }

  // ---------------------------------------------------------------- which blocks are played

  /** A walk does the next block exactly if its batch is written and every transaction is verified, coinbase
      ones apart, and spends what is offered. */
  lemma TodoOkIff(d: Tables, v: View, b: Block, env: Env, unwritable: set<BlockId>)
    requires Ready(d, v, b, {}, env)
    ensures TodoOk(d, v, b, env, unwritable) <==>
              && b.id !in unwritable
              && forall n | 0 <= n < |b.txs| ::
                   (b.txs[n].coinbase || b.txs[n].txid !in env.unverified) && SpendsOffered(d, v, b, {}, n)
  {
    hide Ready, Refused, SpendsOffered;
    ReadyParts(d, v, b, {}, env);
    forall n: nat | n < |b.txs|
      ensures !Refused(v.utxo, b, {}, env, d.trunkHeight, n) <==>
                (b.txs[n].coinbase || b.txs[n].txid !in env.unverified) && SpendsOffered(d, v, b, {}, n)
    {
      RefusedIff(d, v, b, {}, env, n);
    }
  }

  lemma ReadyParts(d: Tables, v: View, b: Block, done: set<Tx>, env: Env)
    requires Ready(d, v, b, done, env)
    ensures Playable(d, v.latest)
  {
  }

  /** A miner plays its own block exactly if its batch is written and every coinbase and generated
      transaction spends what is offered. Nothing is verified. */
  lemma MineOkIff(d: Tables, v: View, b: Block, env: Env, unwritable: bool)
    requires Ready(d, v, b, UserTxs(b), env)
    ensures MineOk(d, v, b, env, unwritable) <==>
              && !unwritable
              && forall n | 0 <= n < |b.txs| && (b.txs[n].coinbase || b.txs[n].autogen) ::
                   SpendsOffered(d, v, b, UserTxs(b), n)
  {
    hide Ready, Refused, SpendsOffered;
    ReadyUnchecked(d, v, b, UserTxs(b), env);
    forall n: nat | n < |b.txs|
      ensures !Refused(v.utxo, b, UserTxs(b), Unchecked(env), d.trunkHeight, n) <==>
                (b.txs[n].coinbase || b.txs[n].autogen ==> SpendsOffered(d, v, b, UserTxs(b), n))
    {
      RefusedIff(d, v, b, UserTxs(b), Unchecked(env), n);
      assert b.txs[n] in b.txs;
    }
  }

  lemma ReadyUnchecked(d: Tables, v: View, b: Block, done: set<Tx>, env: Env)
    requires Ready(d, v, b, done, env)
    ensures Playable(d, v.latest) && Ready(d, v, b, done, Unchecked(env))
  {
  }

  /** A received block is played exactly if no output is spent twice in it, it is verified and written, and
      every transaction that is not unconfirmed spends what is offered, conflicting transactions included. */
  lemma RepostOkIff(d: Tables, v: View, b: Block, r: Repost)
    requires Ready(d, v, b, Pooled(b, v.unconfirmed), r.env)
    ensures RepostOk(d, v, b, r) <==>
              && r.verified && r.written && (forall n | 0 <= n < |b.txs| :: RefersOnce(b.txs[n]))
              && (forall n, m, k | 0 <= n < m < |b.txs| && Spends(b.txs[n], k) :: !Spends(b.txs[m], k))
              && forall n | 0 <= n < |b.txs| && (forall u | u in v.unconfirmed :: u.txid != b.txs[n].txid) ::
                   SpendsOffered(d, v, b, Pooled(b, v.unconfirmed), n)
  {
    hide Ready, Refused, SpendsOffered, NoDuplicateInputs, RefersOnce, Spends, AllInputs;
    var done := Pooled(b, v.unconfirmed);
    ReadyUnchecked(d, v, b, done, r.env);
    AllInputsIff(b.txs);
    forall n: nat | n < |b.txs|
      ensures !Refused(v.utxo, b, done, Unchecked(r.env), d.trunkHeight, n) <==>
                ((forall u | u in v.unconfirmed :: u.txid != b.txs[n].txid) ==> SpendsOffered(d, v, b, done, n))
    {
      RefusedIff(d, v, b, done, Unchecked(r.env), n);
      PooledIff(b, v.unconfirmed, n);
    }
  }

  lemma PooledIff(b: Block, unconfirmed: seq<Tx>, n: nat)
    requires n < |b.txs|
    ensures b.txs[n] !in Pooled(b, unconfirmed) <==> forall u | u in unconfirmed :: u.txid != b.txs[n].txid
  {
    if b.txs[n] in Pooled(b, unconfirmed) {
      var i :| 0 <= i < |unconfirmed| && unconfirmed[i].txid == b.txs[n].txid;
      assert unconfirmed[i] in unconfirmed;
    }
    forall u | u in unconfirmed && u.txid == b.txs[n].txid
      ensures b.txs[n] in Pooled(b, unconfirmed)
    {
      InIdSet(unconfirmed, u);
    }
  }

  /** No output is spent twice in a list of transactions. */
  lemma {:induction false} AllInputsIff(txs: seq<Tx>)
    ensures NoDuplicateInputs(AllInputs(txs)) <==>
              && (forall n | 0 <= n < |txs| :: RefersOnce(txs[n]))
              && (forall n, m, k | 0 <= n < m < |txs| && Spends(txs[n], k) :: !Spends(txs[m], k))
    decreases |txs|
  {
    hide NoDuplicateInputs, RefersOnce, Spends, AllInputs, AnyRefers;
    if txs == [] {
      NothingSpent();
    } else {
      var m := |txs| - 1;
      var front, tx := txs[..m], txs[m];
      AllInputsIff(front);
      AllInputsParts(txs);
      InputsConcat(AllInputs(front), tx);
      assert forall n | 0 <= n < m :: front[n] == txs[n];
      forall k
        ensures AnyRefers(AllInputs(front), k) <==> exists n :: 0 <= n < m && Spends(txs[n], k)
      {
        InAllInputs(front, k);
      }
    }
  }

  lemma NothingSpent()
    ensures NoDuplicateInputs(AllInputs([]))
  {
  }

  lemma AllInputsParts(txs: seq<Tx>)
    requires txs != []
    ensures AllInputs(txs) == AllInputs(txs[..|txs| - 1]) + txs[|txs| - 1].inputs
  {
  }

  lemma InputsConcat(a: seq<TxInput>, tx: Tx)
    ensures NoDuplicateInputs(a + tx.inputs) <==>
              && NoDuplicateInputs(a) && RefersOnce(tx)
              && forall k | Spends(tx, k) :: !AnyRefers(a, k)
  {
    var all := a + tx.inputs;
    if NoDuplicateInputs(all) {
      assert forall i | 0 <= i < |a| :: all[i] == a[i];
      assert forall i | 0 <= i < |tx.inputs| :: all[|a| + i] == tx.inputs[i];
      forall k, i | Spends(tx, k) && 0 <= i < |a|
        ensures !Refers(a[i], k)
      {
        var j :| 0 <= j < |tx.inputs| && Refers(tx.inputs[j], k);
        assert all[|a| + j] == tx.inputs[j] && InputKey(tx.inputs[j]) == k;
      }
    }
    if NoDuplicateInputs(a) && RefersOnce(tx) && forall k | Spends(tx, k) :: !AnyRefers(a, k) {
      forall i, j | 0 <= i < j < |all|
        ensures InputKey(all[i]) != InputKey(all[j])
      {
        if i < |a| <= j {
          assert Refers(tx.inputs[j - |a|], InputKey(all[j]));
          assert Spends(tx, InputKey(all[j])) && !Refers(a[i], InputKey(all[j]));
        }
      }
    }
  }

  lemma {:induction false} InAllInputs(txs: seq<Tx>, k: Key)
    ensures AnyRefers(AllInputs(txs), k) <==> exists n :: 0 <= n < |txs| && Spends(txs[n], k)
    decreases |txs|
  {
    if txs != [] {
      var m := |txs| - 1;
      var front, tx := txs[..m], txs[m];
      InAllInputs(front, k);
      assert forall n | 0 <= n < m :: front[n] == txs[n];
      RefersConcat(AllInputs(front), tx.inputs, k);
      if Spends(tx, k) {
        assert Spends(txs[m], k);
      }
    }
  }

  lemma RefersConcat(a: seq<TxInput>, b: seq<TxInput>, k: Key)
    ensures AnyRefers(a + b, k) <==> AnyRefers(a, k) || AnyRefers(b, k)
  {
    if i :| 0 <= i < |a| && Refers(a[i], k) {
      assert Refers((a + b)[i], k);
    }
    if i :| 0 <= i < |b| && Refers(b[i], k) {
      assert Refers((a + b)[|a| + i], k);
    }
    if i :| 0 <= i < |a + b| && Refers((a + b)[i], k) {
      if i < |a| {
        assert Refers(a[i], k);
      } else {
        assert Refers(b[i - |a|], k);
      }
    }
  }

  /** A miner's block takes coinbase and generated transactions that were never unconfirmed, and otherwise
      unconfirmed ones; this is what playing it asks for. */
  lemma MinerContinues(b: Block, unconfirmed: seq<Tx>)
    requires forall tx | tx in b.txs ::
               if tx.coinbase || tx.autogen then forall u | u in unconfirmed :: u.txid != tx.txid else tx in unconfirmed
    ensures Continues(b, unconfirmed, UserTxs(b))
  {
  }
}
