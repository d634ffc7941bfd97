/** What the steps of the state machine do to its tables and totals, as functions, and what they keep:
    the table is the replay of the chain with the unconfirmed transactions on top, up to frozen
    heights, and exactly where frozen heights were declared; and how the two totals move. */
module Steps {
  import opened Types
  import opened Chain
  import opened Tables
  import opened Utxo
  import opened Value
  import opened Replays
  import opened Unconfirmed

  /** The fields of the state machine: the recorded and the in-memory total are kept apart. */
  datatype View = View(
    utxo: Table,
    total: int,
    memTotal: int,
    latest: BlockId,
    unconfirmed: seq<Tx>,
    irreversibleHeight: nat)

  /** A batch under construction, and the in-memory total, which changes at once. */
  datatype Work = Work(utxo: Table, total: int, mem: int)

  ghost function WorkOf(v: View): Work {
    Work(v.utxo, v.total, v.memTotal)
  }

  /** A new table and delta more in the in-memory total. The total goes into the batch only when it
      changes, and then it is the in-memory one. */
  ghost function Moved(w: Work, utxo: Table, delta: int): Work {
    Work(utxo, if delta != 0 then w.mem + delta else w.total, w.mem + delta)
  }

  // ---------------------------------------------------------------- sequences of entries

  lemma {:induction false} ApplyAllConcat(t: Table, a: seq<Entry>, b: seq<Entry>)
    ensures ApplyAll(t, a + b) == ApplyAll(ApplyAll(t, a), b)
    decreases |b|
  {
    if b == [] {
      assert a + b == a;
    } else {
      assert (a + b)[..|a + b| - 1] == a + b[..|b| - 1];
      ApplyAllConcat(t, a, b[..|b| - 1]);
    }
  }

  lemma {:induction false} RevertAllConcat(t: Table, a: seq<Entry>, b: seq<Entry>)
    ensures RevertAll(t, a + b) == RevertAll(RevertAll(t, b), a)
    decreases |b|
  {
    if b == [] {
      assert a + b == a;
    } else {
      assert (a + b)[..|a + b| - 1] == a + b[..|b| - 1];
      RevertAllConcat(Revert(t, b[|b| - 1]), a, b[..|b| - 1]);
    }
  }

  lemma ApplyAllSnoc(t: Table, es: seq<Entry>, e: Entry)
    ensures ApplyAll(t, es + [e]) == Apply(ApplyAll(t, es), e)
  {
    assert (es + [e])[..|es|] == es;
  }

  // ---------------------------------------------------------------- tracking the chain

  /** What the table should be the replay of. */
  ghost function Entries(d: Tables, v: View): seq<Entry>
    requires Playable(d, v.latest)
  {
    ChainEntries(d, v.latest) + PendingEntries(v.unconfirmed)
  }

  /** The table holds the outputs and amounts of the replay. */
  ghost predicate Tracks(d: Tables, v: View) {
    && Playable(d, v.latest)
    && Distinct(Entries(d, v)) && CleanAll(Entries(d, v))
    && Matches(v.utxo, Replay(Entries(d, v)))
  }

  /** The table is the replay, frozen heights included. */
  ghost predicate Exact(d: Tables, v: View)
    requires Playable(d, v.latest)
  {
    v.utxo == Replay(Entries(d, v))
  }

  /** How far the in-memory total is off. */
  ghost function Drift(d: Tables, v: View): int
    requires Playable(d, v.latest)
  {
    v.memTotal - Total(Entries(d, v))
  }

  /** How far the recorded total is off. */
  ghost function Gap(d: Tables, v: View): int
    requires Playable(d, v.latest)
  {
    v.total - Total(Entries(d, v))
  }

  /** The ledger the state machine follows: a tree of stored blocks in which no transaction occurs
      twice on a chain. */
  ghost predicate LedgerOk(d: Tables) {
    IsTree(d.blocks, d.root) && TxsStored(d) && NoRepeat(d) && DistinctTxs(d)
  }

  // ---------------------------------------------------------------- irreversible height

  function NextIrreversibleHeight(blockHeight: nat, cur: nat, window: nat): nat {
    if window != 0 && blockHeight - window > cur then blockHeight - window else cur
  }

  function NextIrreversibleHeightForPrune(blockHeight: nat, cur: nat, window: nat): nat {
    if window == 0 then cur else if blockHeight - window <= 0 then 0 else blockHeight - window
  }

  // ---------------------------------------------------------------- what the input check sees

  /** What the checks depend on beside the tables: the transactions that fail verification, and what the
      UTXO cache holds when transaction n of a block is checked. */
  datatype Env = Env(unverified: set<TxId>, caches: (BlockId, nat) -> Table)

  /** The batch cache after txs: what those not in done have made, and no later one of them has spent. */
  ghost function MadeIn(txs: seq<Tx>, done: set<Tx>): Table {
    if txs == [] then map[]
    else
      var made, tx := MadeIn(txs[..|txs| - 1], done), txs[|txs| - 1];
      if tx in done then made else (made - Spent(tx.inputs).Keys) + Made(tx)
  }

  /** The UTXO cache, then the batch cache, then the table as it was before the batch. What the batch has
      deleted is found again in the table. */
  ghost function Seen(t: Table, b: Block, done: set<Tx>, env: Env, n: nat): Table
    requires n <= |b.txs|
  {
    t + MadeIn(b.txs[..n], done) + env.caches(b.id, n)
  }

  /** Transaction n of b is refused when its turn comes; those in done are not looked at. */
  ghost predicate Refused(t: Table, b: Block, done: set<Tx>, env: Env, trunkHeight: nat, n: nat)
    requires n < |b.txs|
  {
    && b.txs[n] !in done
    && ((!b.txs[n].coinbase && b.txs[n].txid in env.unverified)
        || !Checks(Seen(t, b, done, env, n), b.txs[n], trunkHeight))
  }

  /** The first transaction from n on that is refused, or the number of transactions. */
  ghost function FirstRefused(t: Table, b: Block, done: set<Tx>, env: Env, trunkHeight: nat, n: nat): (r: nat)
    requires n <= |b.txs|
    ensures n <= r <= |b.txs| && (r < |b.txs| ==> Refused(t, b, done, env, trunkHeight, r))
    ensures forall i | n <= i < r :: !Refused(t, b, done, env, trunkHeight, i)
    decreases |b.txs| - n
  {
    if n == |b.txs| || Refused(t, b, done, env, trunkHeight, n) then n
    else FirstRefused(t, b, done, env, trunkHeight, n + 1)
  }

  lemma {:induction false} FirstRefusedIs(t: Table, b: Block, done: set<Tx>, env: Env, trunkHeight: nat, n: nat,
                                          i: nat)
    requires n <= i <= |b.txs| && forall j | n <= j < i :: !Refused(t, b, done, env, trunkHeight, j)
    requires i < |b.txs| ==> Refused(t, b, done, env, trunkHeight, i)
    ensures FirstRefused(t, b, done, env, trunkHeight, n) == i
    decreases i - n
  {
    if n < i {
      FirstRefusedIs(t, b, done, env, trunkHeight, n + 1, i);
    }
  }

  /** The UTXO cache holds nothing but what is in the table or has been made in the block. */
  ghost predicate Sound(t: Table, b: Block, done: set<Tx>, env: Env) {
    forall n: nat, k {:trigger k in env.caches(b.id, n)} | n < |b.txs| && k in env.caches(b.id, n) ::
      Supplied(t, PlayEntries(b.txs[..n], b.proposer, done), k, env.caches(b.id, n)[k].amount)
  }

  /** What the transactions of b would spend of t is in u as well, with the same amount. */
  ghost predicate Backed(t: Table, u: Table, b: Block, done: set<Tx>) {
    forall n, k | 0 <= n < |b.txs| && b.txs[n] !in done && k in Spent(b.txs[n].inputs) && k in t ::
      k in u && u[k].amount == t[k].amount
  }

  lemma {:induction false} InMadeIn(txs: seq<Tx>, proposer: Address, done: set<Tx>, k: Key) returns (e: Entry)
    requires k in MadeIn(txs, done)
    ensures e in PlayEntries(txs, proposer, done) && k in Add(e) && Add(e)[k] == MadeIn(txs, done)[k]
    decreases |txs|
  {
    var front, tx := txs[..|txs| - 1], txs[|txs| - 1];
    if tx !in done && k in Made(tx) {
      e := TxDone(tx);
    } else {
      e := InMadeIn(front, proposer, done, k);
    }
  }

  /** An entry that does a transaction comes after what remains of the transactions before it. */
  lemma {:induction false} PlayAt(txs: seq<Tx>, proposer: Address, done: set<Tx>, i: nat) returns (n: nat)
    requires i < |PlayEntries(txs, proposer, done)| && PlayEntries(txs, proposer, done)[i].TxDone?
    ensures n < |txs| && txs[n] !in done && PlayEntries(txs, proposer, done)[i] == TxDone(txs[n])
    ensures PlayEntries(txs, proposer, done)[..i] == PlayEntries(txs[..n], proposer, done)
    decreases |txs|
  {
    var m := |txs| - 1;
    var front := PlayEntries(txs[..m], proposer, done);
    if i < |front| {
      n := PlayAt(txs[..m], proposer, done, i);
      assert txs[..m][..n] == txs[..n];
      assert PlayEntries(txs, proposer, done)[..i] == front[..i];
    } else {
      n := m;
      assert PlayEntries(txs, proposer, done)[..i] == front;
    }
  }

  /** With a sound cache the check passes only what is supplied, so that an accepted block fits exactly if
      it spends nothing twice. */
  lemma AcceptedFits(t: Table, u: Table, b: Block, done: set<Tx>, env: Env, trunkHeight: nat)
    requires FirstRefused(t, b, done, env, trunkHeight, 0) == |b.txs|
    requires Sound(u, b, done, env) && Backed(t, u, b, done)
    ensures var es := PlayEntries(b.txs, b.proposer, done); Fits(u, es) <==> NoDoubleSpend(es)
  {
    hide Sound, Backed, Refused, Spent, Made;
    var es := PlayEntries(b.txs, b.proposer, done);
    forall i, k | 0 <= i < |es| && k in Del(es[i])
      ensures Supplied(u, es[..i], k, Del(es[i])[k].amount)
    {
      var n := PlayAt(b.txs, b.proposer, done, i);
      AcceptedSupplied(t, u, b, done, env, trunkHeight, n, k);
    }
  }

  lemma AcceptedSupplied(t: Table, u: Table, b: Block, done: set<Tx>, env: Env, trunkHeight: nat, n: nat, k: Key)
    requires n < |b.txs| && b.txs[n] !in done && !Refused(t, b, done, env, trunkHeight, n)
    requires Sound(u, b, done, env) && Backed(t, u, b, done) && k in Spent(b.txs[n].inputs)
    ensures Supplied(u, PlayEntries(b.txs[..n], b.proposer, done), k, Spent(b.txs[n].inputs)[k].amount)
  {
    hide Checks, PlayEntries, MadeIn, Made, Spent;
    ChecksSpent(Seen(t, b, done, env, n), b.txs[n], trunkHeight);
    if k !in env.caches(b.id, n) && k in MadeIn(b.txs[..n], done) {
      var e := InMadeIn(b.txs[..n], b.proposer, done, k);
    }
  }

  // ---------------------------------------------------------------- playing a block

  /** The work after what remains of the first n transactions of b has been done, fees included. */
  ghost function PlayedBlock(w: Work, b: Block, done: set<Tx>, n: nat): Work
    requires n <= |b.txs|
  {
    var es := PlayEntries(b.txs[..n], b.proposer, done);
    Moved(w, ApplyAll(w.utxo, es), Total(es))
  }

  /** What remains of b is done on w, as one atomic write, and the checks look at v's table. When a
      transaction is refused or the batch is not written, only the in-memory total has moved. */
  ghost function AfterPlay(d: Tables, v: View, w: Work, b: Block, done: set<Tx>, env: Env, written: bool,
                           rest: seq<Tx>, window: nat): View
  {
    var n := FirstRefused(v.utxo, b, done, env, d.trunkHeight, 0);
    var x := PlayedBlock(w, b, done, n);
    if n == |b.txs| && written then
      View(x.utxo, x.total, x.mem, b.id, rest, NextIrreversibleHeight(b.height, v.irreversibleHeight, window))
    else v.(memTotal := x.mem)
  }

  /** b is stored in d on top of v's latest block. */
  ghost predicate Stored(d: Tables, v: View, b: Block) {
    LedgerOk(d) && b.id in d.blocks && b == BlockOf(d, b.id) && b.preHash == v.latest
  }

  /** What playing b makes of a table. */
  ghost function Played(u: View, b: Block, done: set<Tx>): View {
    u.(utxo := ApplyAll(u.utxo, PlayEntries(b.txs, b.proposer, done)), latest := b.id,
       unconfirmed := Unmined(u.unconfirmed, IdSet(b.txs)))
  }

  /** Playing a block stays in step if and only if what remains of it fits on the table and the block
      spends only from its chain. */
  lemma PlayTracks(d: Tables, u: View, b: Block, done: set<Tx>)
    requires Stored(d, u, b) && Tracks(d, u) && Continues(b, u.unconfirmed, done)
    ensures var es := PlayEntries(b.txs, b.proposer, done);
            && Playable(d, b.id)
            && Total(Entries(d, Played(u, b, done))) == Total(Entries(d, u)) + Total(es)
            && (Tracks(d, Played(u, b, done)) <==> Fits(u.utxo, es) && Ordered(ChainEntries(d, b.id)))
  {
    hide Distinct, CleanAll, Ordered, Matches, Replay, ApplyAll, Total, PlayEntries, PendingEntries, Unmined, IdSet;
    hide Fits, Continues;
    var before, es := Entries(d, u), PlayEntries(b.txs, b.proposer, done);
    assert TreeNode(d.blocks, d.root, b.id);
    PlayedReplay(d, b.id, u.unconfirmed, done);
    TotalConcat(before, es);
    FitsIff(before, es, u.utxo);
    if CleanAll(before + es) {
      ApplyAllTracks(before, es, u.utxo);
    }
  }

  lemma {:induction false} PlayEntriesPrefix(txs: seq<Tx>, proposer: Address, done: set<Tx>, n: nat)
    requires n <= |txs|
    ensures PlayEntries(txs[..n], proposer, done) <= PlayEntries(txs, proposer, done)
    decreases |txs|
  {
    if n < |txs| {
      PlayEntriesPrefix(txs[..|txs| - 1], proposer, done, n);
      assert txs[..|txs| - 1][..n] == txs[..n];
    } else {
      assert txs[..n] == txs;
    }
  }

  lemma PlayEntriesStep(txs: seq<Tx>, proposer: Address, done: set<Tx>, i: nat)
    requires i < |txs|
    ensures PlayEntries(txs[..i + 1], proposer, done)
         == PlayEntries(txs[..i], proposer, done) + (if txs[i] in done then [] else [TxDone(txs[i])])
            + [FeePaid(txs[i], proposer)]
  {
    assert txs[..i + 1][..i] == txs[..i];
  }

  lemma ChainStep(d: Tables, id: BlockId)
    requires LedgerOk(d) && id in d.blocks
    ensures Playable(d, d.blocks[id].preHash)
    ensures ChainEntries(d, id) == ChainEntries(d, d.blocks[id].preHash) + BlockEntries(BlockOf(d, id))
    ensures Distinct(ChainEntries(d, id))
  {
    assert TreeNode(d.blocks, d.root, id);
    ChainDistinct(d, id);
  }

  lemma {:induction false} EntriesOfPrefix(txs: seq<Tx>, proposer: Address, n: nat)
    requires n <= |txs|
    ensures EntriesOf(txs[..n], proposer) <= EntriesOf(txs, proposer)
    decreases |txs|
  {
    if n < |txs| {
      EntriesOfPrefix(txs[..|txs| - 1], proposer, n);
      assert txs[..|txs| - 1][..n] == txs[..n];
    } else {
      assert txs[..n] == txs;
    }
  }

  lemma EntriesOfStep(txs: seq<Tx>, proposer: Address, i: nat)
    requires i < |txs|
    ensures EntriesOf(txs[..i + 1], proposer)
         == EntriesOf(txs[..i], proposer) + [TxDone(txs[i])] + [FeePaid(txs[i], proposer)]
  {
    assert txs[..i + 1][..i] == txs[..i];
  }

  // ---------------------------------------------------------------- doing a block in a walk

  ghost predicate TodoOk(d: Tables, v: View, b: Block, env: Env, unwritable: set<BlockId>) {
    FirstRefused(v.utxo, b, {}, env, d.trunkHeight, 0) == |b.txs| && b.id !in unwritable
  }

  ghost function AfterTodo(d: Tables, v: View, b: Block, env: Env, unwritable: set<BlockId>, window: nat): View {
    AfterPlay(d, v, WorkOf(v), b, {}, env, b.id !in unwritable, v.unconfirmed, window)
  }

  /** What doing a block does to table and totals. The in-memory total is off by as much as before plus
      what a failed step has minted; the recorded total is off by as much as the in-memory one was if
      the step wrote it, and by as much as before otherwise. */
  lemma TodoMoves(d: Tables, v: View, b: Block, env: Env, unwritable: set<BlockId>, window: nat)
    requires Stored(d, v, b) && v.unconfirmed == []
    ensures Playable(d, v.latest) && Playable(d, b.id)
    ensures var v2 := AfterTodo(d, v, b, env, unwritable, window);
            var n := FirstRefused(v.utxo, b, {}, env, d.trunkHeight, 0);
            && v2.unconfirmed == []
            && if TodoOk(d, v, b, env, unwritable) then
                 && v2.utxo == ApplyAll(v.utxo, BlockEntries(b)) && v2.latest == b.id && Drift(d, v2) == Drift(d, v)
                 && Gap(d, v2) == if Total(BlockEntries(b)) != 0 then Drift(d, v) else Gap(d, v)
               else
                 && v2 == v.(memTotal := v2.memTotal)
                 && Drift(d, v2) == Drift(d, v) + Total(EntriesOf(b.txs[..n], b.proposer))
                 && Gap(d, v2) == Gap(d, v)
  {
    hide Distinct, CleanAll, Matches, Replay, ApplyAll, Total, EntriesOf, PendingEntries, ChainEntries, Refused;
    hide PlayEntries;
    var n := FirstRefused(v.utxo, b, {}, env, d.trunkHeight, 0);
    PlayAll(b.txs[..n], b.proposer);
    ChainStep(d, b.id);
    NothingPending(d, v.latest);
    NothingPending(d, b.id);
    TotalConcat(ChainEntries(d, v.latest), BlockEntries(b));
    if n == |b.txs| {
      assert b.txs[..n] == b.txs;
    }
  }

  /** A block that is done keeps the table in step if and only if it fits on it: it spends nothing twice,
      and only what is in the table or made earlier in the block. With a sound cache the check sees to
      the second half, and to the first within a transaction only. A block that is not done keeps it. */
  lemma TodoKeeps(d: Tables, v: View, b: Block, env: Env, unwritable: set<BlockId>, window: nat)
    requires Stored(d, v, b) && Tracks(d, v) && v.unconfirmed == []
    ensures var v2 := AfterTodo(d, v, b, env, unwritable, window);
            if TodoOk(d, v, b, env, unwritable) then
              && (Tracks(d, v2) <==> Fits(v.utxo, BlockEntries(b)))
              && (Sound(v.utxo, b, {}, env) ==> (Tracks(d, v2) <==> NoDoubleSpend(BlockEntries(b))))
            else Tracks(d, v2)
  {
    hide Fits, Sound, Replay, ApplyAll, Total, EntriesOf, PlayEntries, Refused, NoDoubleSpend;
    hide Distinct, CleanAll, Matches, Ordered, ChainEntries, PendingEntries, Unmined, IdSet;
    TodoMoves(d, v, b, env, unwritable, window);
    if TodoOk(d, v, b, env, unwritable) {
      TodoTracks(d, v, b, AfterTodo(d, v, b, env, unwritable, window));
      PlayAll(b.txs, b.proposer);
      if Sound(v.utxo, b, {}, env) {
        AcceptedFits(v.utxo, v.utxo, b, {}, env, d.trunkHeight);
      }
    }
  }

  lemma TodoTracks(d: Tables, v: View, b: Block, v2: View)
    requires Stored(d, v, b) && Tracks(d, v) && v.unconfirmed == []
    requires v2.utxo == ApplyAll(v.utxo, BlockEntries(b)) && v2.latest == b.id && v2.unconfirmed == []
    ensures Tracks(d, v2) <==> Fits(v.utxo, BlockEntries(b))
  {
    hide Fits, Distinct, CleanAll, Matches, Replay, ApplyAll, EntriesOf, PendingEntries;
    var c := ChainEntries(d, v.latest);
    ChainStep(d, b.id);
    NothingPending(d, v.latest);
    NothingPending(d, b.id);
    FitsIff(c, BlockEntries(b), v.utxo);
    if CleanAll(c + BlockEntries(b)) {
      ApplyAllTracks(c, BlockEntries(b), v.utxo);
    }
  }

  lemma NothingPending(d: Tables, latest: BlockId)
    requires Playable(d, latest)
    ensures ChainEntries(d, latest) + PendingEntries([]) == ChainEntries(d, latest)
  {
  }

  /** Which transactions mint decides whether a failed step moves the in-memory total. */
  lemma {:induction false} PlayMintsNothing(txs: seq<Tx>, proposer: Address, done: set<Tx>)
    ensures Total(PlayEntries(txs, proposer, done)) == 0 <==>
              forall i | 0 <= i < |txs| && txs[i] !in done :: Minted(TxDone(txs[i])) == 0
    decreases |txs|
  {
    hide Total, Minted;
    if txs == [] {
      NoTotal();
    } else {
      var front, tx := txs[..|txs| - 1], txs[|txs| - 1];
      PlayMintsNothing(front, proposer, done);
      var es := PlayEntries(front, proposer, done);
      FeeMintsNothing(tx, proposer);
      if tx in done {
        assert PlayEntries(txs, proposer, done) == es + [FeePaid(tx, proposer)];
        TotalSnoc(es, FeePaid(tx, proposer));
      } else {
        assert PlayEntries(txs, proposer, done) == (es + [TxDone(tx)]) + [FeePaid(tx, proposer)];
        TotalSnoc(es, TxDone(tx));
        TotalSnoc(es + [TxDone(tx)], FeePaid(tx, proposer));
      }
      assert forall i | 0 <= i < |front| :: front[i] == txs[i];
    }
  }

  lemma NoTotal()
    ensures Total([]) == 0
  {
  }

  lemma FeeMintsNothing(tx: Tx, proposer: Address)
    ensures Minted(FeePaid(tx, proposer)) == 0
  {
  }

  lemma TotalSnoc(es: seq<Entry>, e: Entry)
    ensures Total(es + [e]) == Total(es) + Minted(e)
  {
    TotalConcat(es, [e]);
    TotalOne(e);
  }

  // ---------------------------------------------------------------- undoing a block

  ghost function UndoneBlock(w: Work, b: Block): Work {
    Moved(w, RevertAll(w.utxo, BlockEntries(b)), -(Total(BlockEntries(b)) as int))
  }

  /** Undoing b is refused before anything is touched. */
  ghost predicate Irreversible(v: View, b: Block, ledgerPrune: bool) {
    !ledgerPrune && b.height <= v.irreversibleHeight
  }

  ghost predicate UndoOk(d: Tables, v: View, b: Block, ledgerPrune: bool, unwritable: set<BlockId>) {
    !Irreversible(v, b, ledgerPrune) && b.preHash in d.blocks && b.preHash !in unwritable
  }

  /** The latest block undone. */
  ghost function AfterUndo(
    d: Tables, v: View, b: Block, ledgerPrune: bool, unwritable: set<BlockId>, window: nat): View
  {
    var w := UndoneBlock(WorkOf(v), b);
    if Irreversible(v, b, ledgerPrune) then v
    else if UndoOk(d, v, b, ledgerPrune, unwritable) then
      View(w.utxo, w.total, w.mem, b.preHash, v.unconfirmed,
           if ledgerPrune then NextIrreversibleHeightForPrune(b.height, v.irreversibleHeight, window)
           else v.irreversibleHeight)
    else v.(memTotal := w.mem)
  }

  /** b is v's latest block, and nothing is unconfirmed. */
  ghost predicate OnTop(d: Tables, v: View, b: Block) {
    LedgerOk(d) && Tracks(d, v) && v.unconfirmed == [] && v.latest in d.blocks && b == BlockOf(d, v.latest)
  }

  lemma UndoKeeps(d: Tables, v: View, b: Block, ledgerPrune: bool, unwritable: set<BlockId>, window: nat)
    requires OnTop(d, v, b)
    ensures var v2 := AfterUndo(d, v, b, ledgerPrune, unwritable, window);
            && Tracks(d, v2) && v2.unconfirmed == []
            && if UndoOk(d, v, b, ledgerPrune, unwritable) then
                 && v2.utxo == RevertAll(v.utxo, BlockEntries(b)) && Drift(d, v2) == Drift(d, v)
                 && Gap(d, v2) == if Total(BlockEntries(b)) != 0 then Drift(d, v) else Gap(d, v)
               else
                 && Drift(d, v2) == Drift(d, v)
                    - (if Irreversible(v, b, ledgerPrune) then 0 else Total(BlockEntries(b)))
                 && Gap(d, v2) == Gap(d, v)
  {
    hide Distinct, CleanAll, Matches, Replay, RevertAll, Total, EntriesOf, PendingEntries, ChainEntries;
    if UndoOk(d, v, b, ledgerPrune, unwritable) {
      UndoTable(d, v, b);
    }
  }

  lemma UndoTable(d: Tables, v: View, b: Block)
    requires OnTop(d, v, b)
    ensures Playable(d, b.preHash)
    ensures var es := ChainEntries(d, b.preHash) + PendingEntries([]);
            && Distinct(es) && CleanAll(es) && Matches(RevertAll(v.utxo, BlockEntries(b)), Replay(es))
            && Total(Entries(d, v)) == Total(es) + Total(BlockEntries(b))
  {
    hide Distinct, CleanAll, Matches, Replay, RevertAll, Total, EntriesOf, PendingEntries;
    ChainStep(d, v.latest);
    NothingPending(d, v.latest);
    NothingPending(d, b.preHash);
    var c := ChainEntries(d, b.preHash);
    RevertAllTracks(c, BlockEntries(b), v.utxo);
    TotalConcat(c, BlockEntries(b));
    assert (c + BlockEntries(b))[..|c|] == c;
    PrefixDistinct(c + BlockEntries(b), |c|);
    CleanAllPrefix(c + BlockEntries(b), |c|);
  }

  // ---------------------------------------------------------------- rolling back

  ghost function RolledBack(w: Work, order: seq<Tx>): Work {
    Moved(w, RevertAll(w.utxo, PendingEntries(order)), -(Total(PendingEntries(order)) as int))
  }

  /** All unconfirmed transactions undone, last of the order first; if the batch is not written, only
      the in-memory total has moved. */
  ghost function AfterRollBack(v: View, order: seq<Tx>, written: bool): View {
    var w := RolledBack(WorkOf(v), order);
    if written then v.(utxo := w.utxo, total := w.total, memTotal := w.mem, unconfirmed := [])
    else v.(memTotal := w.mem)
  }

  lemma RollBackKeeps(d: Tables, v: View, order: seq<Tx>, written: bool)
    requires Tracks(d, v) && DependencyOrder(ChainEntries(d, v.latest), v.unconfirmed, order)
    ensures var v2 := AfterRollBack(v, order, written);
            && Tracks(d, v2)
            && if written then
                 && v2.utxo == RevertAll(v.utxo, PendingEntries(order)) && Drift(d, v2) == Drift(d, v)
                 && Gap(d, v2) == if Total(PendingEntries(order)) != 0 then Drift(d, v) else Gap(d, v)
               else
                 && Drift(d, v2) == Drift(d, v) - Total(PendingEntries(order))
                 && Gap(d, v2) == Gap(d, v)
  {
    hide Distinct, CleanAll, Matches, Replay, RevertAll, Total, PendingEntries, ChainEntries;
    var c, p := ChainEntries(d, v.latest), PendingEntries(order);
    AnyOrder(c, v.unconfirmed, order);
    TotalConcat(c, p);
    if written {
      RevertAllTracks(c, p, v.utxo);
      assert (c + p)[..|c|] == c;
      PrefixDistinct(c + p, |c|);
      CleanAllPrefix(c + p, |c|);
      NothingPending(d, v.latest);
    }
  }

  // ---------------------------------------------------------------- submitting a transaction

  /** What a submission meets: the spin lock on its keys, the mempool's capacity, the insertion into the
      mempool, the write of the batch, and what the UTXO cache holds. */
  datatype Intake = Intake(locked: bool, full: bool, putOk: bool, written: bool, cached: Table)

  /** The transaction gets into the mempool. */
  ghost predicate Enters(d: Tables, v: View, tx: Tx, o: Intake) {
    && o.locked && !o.full && o.putOk
    && (forall u | u in v.unconfirmed :: u.txid != tx.txid)
    && Checks(v.utxo + o.cached, tx, d.trunkHeight)
  }

  /** One submission. The mempool takes the transaction before the batch is written, and keeps it when
      writing fails. */
  ghost function AfterSubmit(d: Tables, v: View, tx: Tx, o: Intake): View {
    var w := Moved(WorkOf(v), Apply(v.utxo, TxDone(tx)), Minted(TxDone(tx)));
    if !Enters(d, v, tx, o) then v
    else if o.written then
      v.(utxo := w.utxo, total := w.total, memTotal := w.mem, unconfirmed := v.unconfirmed + [tx])
    else v.(memTotal := w.mem, unconfirmed := v.unconfirmed + [tx])
  }

  /** The transaction takes nothing from the table and puts nothing in. */
  predicate Inert(tx: Tx) {
    tx.inputs == [] && Made(tx) == map[]
  }

  /** The table holds what the transaction spends. */
  ghost predicate Holds(t: Table, tx: Tx) {
    forall k | k in Spent(tx.inputs) :: k in t && t[k].amount == Spent(tx.inputs)[k].amount
  }

  /** Every transaction of es with the id of tx is tx. */
  ghost predicate Identifies(es: seq<Entry>, tx: Tx) {
    forall e | e in es && e.tx.txid == tx.txid :: e.tx == tx
  }

  ghost predicate OnChain(d: Tables, latest: BlockId, tx: Tx)
    requires Playable(d, latest)
  {
    exists e :: e in ChainEntries(d, latest) && e.tx.txid == tx.txid
  }

  /** A submission that gets in keeps the table in step if and only if the table holds what it spends, it
      is written or changes nothing, and, if it spends nothing, it is not on the chain already. A cache
      that agrees with the table sees to the first. */
  lemma SubmitKeeps(d: Tables, v: View, tx: Tx, o: Intake)
    requires Tracks(d, v) && Identifies(ChainEntries(d, v.latest), tx)
    ensures var v2 := AfterSubmit(d, v, tx, o);
            var enters := Enters(d, v, tx, o);
            && (Tracks(d, v2) <==> (enters ==> && Holds(v.utxo, tx) && (o.written || Inert(tx))
                                               && (tx.inputs == [] ==> !OnChain(d, v.latest, tx))))
            && (enters && CachedHere(v.utxo, o.cached) ==> Holds(v.utxo, tx))
            && Playable(d, v2.latest) && Drift(d, v2) == Drift(d, v)
            && Gap(d, v2) == if enters && !o.written then Gap(d, v) - Minted(TxDone(tx))
                             else if enters && Minted(TxDone(tx)) != 0 then Drift(d, v) else Gap(d, v)
  {
    hide Distinct, CleanAll, Matches, Replay, Total, Minted, PendingEntries, ChainEntries, Checks, Apply, Holds, Inert;
    hide Identifies, OnChain;
    if Enters(d, v, tx, o) {
      SubmitTotal(d, v, tx);
      if CachedHere(v.utxo, o.cached) {
        CachedHolds(v.utxo, o.cached, tx, d.trunkHeight);
      }
      if OnChain(d, v.latest, tx) {
        SubmittedTwice(d, v, tx);
      } else {
        SubmitTable(d, v, tx);
      }
    }
  }

  /** The cache holds nothing but what is in the table, with its amounts. */
  ghost predicate CachedHere(t: Table, cached: Table) {
    forall k | k in cached :: k in t && t[k].amount == cached[k].amount
  }

  lemma CachedHolds(t: Table, cached: Table, tx: Tx, trunkHeight: nat)
    requires CachedHere(t, cached) && Checks(t + cached, tx, trunkHeight)
    ensures Holds(t, tx)
  {
    ChecksSpent(t + cached, tx, trunkHeight);
  }

  lemma SubmitTotal(d: Tables, v: View, tx: Tx)
    requires Playable(d, v.latest)
    ensures var es := ChainEntries(d, v.latest) + PendingEntries(v.unconfirmed + [tx]);
            es == Entries(d, v) + [TxDone(tx)] && Total(es) == Total(Entries(d, v)) + Minted(TxDone(tx))
  {
    hide Total, Minted;
    assert PendingEntries(v.unconfirmed + [tx]) == PendingEntries(v.unconfirmed) + [TxDone(tx)];
    TotalSnoc(Entries(d, v), TxDone(tx));
  }

  lemma SubmitTable(d: Tables, v: View, tx: Tx)
    requires Tracks(d, v) && !OnChain(d, v.latest, tx)
    requires forall u | u in v.unconfirmed :: u.txid != tx.txid
    ensures var es := Entries(d, v) + [TxDone(tx)];
            && Distinct(es) && (CleanAll(es) <==> Holds(v.utxo, tx))
            && (CleanAll(es) ==> Matches(Apply(v.utxo, TxDone(tx)), Replay(es)))
            && (CleanAll(es) ==> (Matches(v.utxo, Replay(es)) <==> Inert(tx)))
  {
    hide Distinct, CleanAll, Replay, Apply, ChainEntries, PendingEntries;
    var es, e := Entries(d, v), TxDone(tx);
    SubmittedDistinct(d, v, tx);
    FreshAdd(es, e);
    ReplaySnoc(es, e);
    ApplyMatches(v.utxo, Replay(es), e);
    if Clean(Replay(es), e) {
      UnappliedMatches(v.utxo, Replay(es), tx);
    }
  }

  /** A transaction that is on the chain has spent its inputs, and cannot be pending as well. */
  lemma SubmittedTwice(d: Tables, v: View, tx: Tx)
    requires Tracks(d, v) && OnChain(d, v.latest, tx) && Identifies(ChainEntries(d, v.latest), tx)
    ensures tx.inputs != [] ==> !Holds(v.utxo, tx)
    ensures !Distinct(Entries(d, v) + [TxDone(tx)])
  {
    hide CleanAll, Replay, Made, Spent;
    var es := Entries(d, v);
    var x :| x in ChainEntries(d, v.latest) && x.tx.txid == tx.txid;
    DoneOnChain(d, v.latest, x);
    assert TxDone(tx) in es;
    var i :| 0 <= i < |es| && es[i] == TxDone(tx);
    var all := es + [TxDone(tx)];
    assert all[i] == all[|es|] == TxDone(tx);
    if tx.inputs != [] {
      var k := InputKey(tx.inputs[|tx.inputs| - 1]);
      SpendsLast(tx);
      ReplayClosed(es, k);
    }
  }

  lemma SpendsLast(tx: Tx)
    requires tx.inputs != []
    ensures InputKey(tx.inputs[|tx.inputs| - 1]) in Spent(tx.inputs)
  {
  }

  lemma SubmittedDistinct(d: Tables, v: View, tx: Tx)
    requires Tracks(d, v) && !OnChain(d, v.latest, tx)
    requires forall u | u in v.unconfirmed :: u.txid != tx.txid
    ensures Distinct(Entries(d, v) + [TxDone(tx)])
  {
    var es := Entries(d, v);
    forall x, y | x in es && y in [TxDone(tx)]
      ensures x.tx.txid != y.tx.txid
    {
      if x in PendingEntries(v.unconfirmed) {
        InPending(v.unconfirmed, x);
      }
    }
    DistinctConcat(es, [TxDone(tx)]);
  }

  /** A table in which a clean transaction was not done looks as if it were done only if it is inert. */
  lemma UnappliedMatches(t: Table, u: Table, tx: Tx)
    requires Matches(t, u) && Clean(u, TxDone(tx))
    ensures Matches(t, Apply(u, TxDone(tx))) <==> Inert(tx)
  {
    var e := TxDone(tx);
    if tx.inputs != [] {
      var k := InputKey(tx.inputs[|tx.inputs| - 1]);
      assert k in Del(e);
      assert k in t && k !in Apply(u, e);
    }
    if k :| k in Made(tx) {
      assert k in Apply(u, e) && k !in t;
    }
  }

  // ---------------------------------------------------------------- playing a mined block

  /** The transactions of a block that its miner had as unconfirmed ones. */
  function UserTxs(b: Block): set<Tx> {
    set tx | tx in b.txs && !Special(tx)
  }

  /** The miner verifies nothing. */
  function Unchecked(env: Env): Env {
    env.(unverified := {})
  }

  ghost predicate MineOk(d: Tables, v: View, b: Block, env: Env, unwritable: bool) {
    FirstRefused(v.utxo, b, UserTxs(b), Unchecked(env), d.trunkHeight, 0) == |b.txs| && !unwritable
  }

  /** A block of this node's own played on top of the unconfirmed transactions: only special
      transactions and fees remain to be done. */
  ghost function AfterMine(d: Tables, v: View, b: Block, env: Env, unwritable: bool, window: nat): View {
    AfterPlay(d, v, WorkOf(v), b, UserTxs(b), Unchecked(env), !unwritable, Unmined(v.unconfirmed, IdSet(b.txs)), window)
  }

  /** A mined block whose user transactions are the unconfirmed ones among its own keeps the table in step
      if and only if what remains fits and it is closed under dependencies; how both totals move. */
  lemma MineKeeps(d: Tables, v: View, b: Block, env: Env, unwritable: bool, window: nat)
    requires Stored(d, v, b) && Tracks(d, v) && Continues(b, v.unconfirmed, UserTxs(b))
    ensures var v2 := AfterMine(d, v, b, env, unwritable, window);
            var n := FirstRefused(v.utxo, b, UserTxs(b), Unchecked(env), d.trunkHeight, 0);
            var es := PlayEntries(b.txs, b.proposer, UserTxs(b));
            && Playable(d, v2.latest)
            && if MineOk(d, v, b, env, unwritable) then
                 && (Tracks(d, v2) <==> Fits(v.utxo, es) && Ordered(ChainEntries(d, b.id)))
                 && (Sound(v.utxo, b, UserTxs(b), env) ==> (Fits(v.utxo, es) <==> NoDoubleSpend(es)))
                 && v2.utxo == ApplyAll(v.utxo, es) && Drift(d, v2) == Drift(d, v)
                 && Gap(d, v2) == if Total(es) != 0 then Drift(d, v) else Gap(d, v)
               else
                 && Tracks(d, v2) && Gap(d, v2) == Gap(d, v)
                 && Drift(d, v2) == Drift(d, v) + Total(PlayEntries(b.txs[..n], b.proposer, UserTxs(b)))
  {
    hide Distinct, CleanAll, Matches, Replay, ApplyAll, Total, PlayEntries, PendingEntries, ChainEntries, Refused;
    hide Fits, Sound, Ordered, Continues, NoDoubleSpend, Unmined, IdSet;
    var done := UserTxs(b);
    PlayTracks(d, v, b, done);
    if MineOk(d, v, b, env, unwritable) {
      assert b.txs[..|b.txs|] == b.txs;
      SameTracks(d, Played(v, b, done), AfterMine(d, v, b, env, unwritable, window));
      if Sound(v.utxo, b, done, env) {
        SoundUnchecked(v.utxo, b, done, env);
        AcceptedFits(v.utxo, v.utxo, b, done, Unchecked(env), d.trunkHeight);
      }
    }
  }

  lemma SoundUnchecked(t: Table, b: Block, done: set<Tx>, env: Env)
    requires Sound(t, b, done, env)
    ensures Sound(t, b, done, Unchecked(env))
  {
  }

  /** Being in step does not depend on the totals. */
  lemma SameTracks(d: Tables, u: View, v: View)
    requires u.utxo == v.utxo && u.latest == v.latest && u.unconfirmed == v.unconfirmed
    ensures Tracks(d, u) <==> Tracks(d, v)
    ensures Playable(d, u.latest) ==> Entries(d, u) == Entries(d, v)
  {
  }

  // ---------------------------------------------------------------- what a failed step does to the totals

  /** A block step that fails keeps the in-memory total if and only if the transactions before the first
      refused one mint nothing; the recorded total stays in any case. */
  lemma TodoFailure(d: Tables, v: View, b: Block, env: Env, unwritable: set<BlockId>, window: nat)
    requires !TodoOk(d, v, b, env, unwritable)
    ensures var v2 := AfterTodo(d, v, b, env, unwritable, window);
            var n := FirstRefused(v.utxo, b, {}, env, d.trunkHeight, 0);
            && v2.total == v.total
            && (v2.memTotal == v.memTotal <==> forall i | 0 <= i < n :: Minted(TxDone(b.txs[i])) == 0)
  {
    hide Minted, PlayEntries, Total;
    var n := FirstRefused(v.utxo, b, {}, env, d.trunkHeight, 0);
    PlayMintsNothing(b.txs[..n], b.proposer, {});
    assert forall i | 0 <= i < n :: b.txs[..n][i] == b.txs[i];
  }

  /** The same for a block that cannot be undone, unless it is refused at once. */
  lemma UndoFailure(d: Tables, v: View, b: Block, ledgerPrune: bool, unwritable: set<BlockId>, window: nat)
    requires !UndoOk(d, v, b, ledgerPrune, unwritable)
    ensures var v2 := AfterUndo(d, v, b, ledgerPrune, unwritable, window);
            && v2.total == v.total
            && (v2.memTotal == v.memTotal <==>
                  Irreversible(v, b, ledgerPrune) || forall i | 0 <= i < |b.txs| :: Minted(TxDone(b.txs[i])) == 0)
  {
    hide Minted, EntriesOf, Total;
    PlayAll(b.txs, b.proposer);
    PlayMintsNothing(b.txs, b.proposer, {});
  }

  /** The same for a mined block. */
  lemma MineFailure(d: Tables, v: View, b: Block, env: Env, unwritable: bool, window: nat)
    requires !MineOk(d, v, b, env, unwritable)
    ensures var v2 := AfterMine(d, v, b, env, unwritable, window);
            var n := FirstRefused(v.utxo, b, UserTxs(b), Unchecked(env), d.trunkHeight, 0);
            && v2.total == v.total
            && (v2.memTotal == v.memTotal <==> forall i | 0 <= i < n :: Minted(TxDone(b.txs[i])) == 0)
  {
    hide PlayEntries, Total;
    var n := FirstRefused(v.utxo, b, UserTxs(b), Unchecked(env), d.trunkHeight, 0);
    PlayMintsNothing(b.txs[..n], b.proposer, UserTxs(b));
    assert forall i | 0 <= i < n :: b.txs[..n][i] == b.txs[i];
    assert forall tx | tx in UserTxs(b) :: Minted(TxDone(tx)) == 0;
  }

  lemma {:induction false} PendingMintsNothing(txs: seq<Tx>)
    ensures Total(PendingEntries(txs)) == 0 <==> forall i | 0 <= i < |txs| :: Minted(TxDone(txs[i])) == 0
    decreases |txs|
  {
    if txs != [] {
      var front, tx := txs[..|txs| - 1], txs[|txs| - 1];
      PendingMintsNothing(front);
      assert PendingEntries(txs) == PendingEntries(front) + [TxDone(tx)];
      TotalSnoc(PendingEntries(front), TxDone(tx));
      assert forall i | 0 <= i < |front| :: front[i] == txs[i];
    }
  }

  /** The same for a roll back that is not written. */
  lemma RollBackFailure(v: View, order: seq<Tx>)
    ensures var v2 := AfterRollBack(v, order, false);
            && v2.total == v.total
            && (v2.memTotal == v.memTotal <==> forall i | 0 <= i < |order| :: Minted(TxDone(order[i])) == 0)
  {
    hide Minted, PendingEntries, Total;
    PendingMintsNothing(order);
  }
}
