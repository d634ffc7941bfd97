/** What goes wrong in the state machine, at concrete inputs: a genesis block that gives alice 7 has been
    played, and blocks are stored on top of it. */
module Failures {
  import opened Types
  import opened Chain
  import opened Tables
  import opened Branches
  import opened Utxo
  import opened Value
  import opened Replays
  import opened Unconfirmed
  import opened Steps
  import opened Walks
  import opened Reposts
  import opened Caches
  import Node

  // ---------------------------------------------------------------- transactions and blocks

  /** A coinbase transaction that mints amount for addr. */
  function Reward(txid: TxId, addr: Address, amount: nat): Tx {
    Tx(txid, true, false, [], [TxOutput(addr, amount, 0)])
  }

  /** A transaction that moves the first output of from. */
  function Transfer(txid: TxId, from: TxId, sender: Address, receiver: Address, amount: nat): Tx {
    Tx(txid, false, false, [TxInput(sender, from, 0, amount, true, 0)], [TxOutput(receiver, amount, 0)])
  }

  /** The first output of a transaction, in the hands of addr. */
  function Coin(addr: Address, txid: TxId): Key {
    Key(addr, txid, 0)
  }

  lemma RewardIs(txid: TxId, addr: Address, amount: nat)
    requires addr != FEE_PLACEHOLDER && amount > 0
    ensures var tx := Reward(txid, addr, amount);
            && (forall t, h :: Checks(t, tx, h)) && Minted(TxDone(tx)) == amount
            && Made(tx) == map[Coin(addr, txid) := Item(amount, 0)]
            && Spent(tx.inputs) == map[] && forall p :: Fees(tx, p) == map[]
  {
    var o := TxOutput(addr, amount, 0);
    assert [o][..0] == [];
    assert OutSum([o]) == OutSum([]) + amount && FeeSum([o]) == FeeSum([]) + 0;
  }

  lemma TransferIs(txid: TxId, from: TxId, sender: Address, receiver: Address, amount: nat)
    requires receiver != FEE_PLACEHOLDER && amount > 0
    ensures var tx := Transfer(txid, from, sender, receiver, amount);
            && (forall t: Table, h | Coin(sender, from) in t && t[Coin(sender, from)] == Item(amount, 0) ::
                  Checks(t, tx, h))
            && (forall t: Table, h :: Coin(sender, from) !in t ==> !Checks(t, tx, h))
            && Minted(TxDone(tx)) == 0
            && Made(tx) == map[Coin(receiver, txid) := Item(amount, 0)]
            && Spent(tx.inputs) == map[Coin(sender, from) := Item(amount, 0)] && forall p :: Fees(tx, p) == map[]
  {
    var i, o := TxInput(sender, from, 0, amount, true, 0), TxOutput(receiver, amount, 0);
    assert [i][..0] == [] && [o][..0] == [];
    assert InSum([i]) == InSum([]) + amount && OutSum([o]) == OutSum([]) + amount;
    assert Spent([i]) == Spent([])[Coin(sender, from) := Item(amount, 0)];
    var tx := Transfer(txid, from, sender, receiver, amount);
    forall t: Table, h: nat | Coin(sender, from) !in t
      ensures !Checks(t, tx, h)
    {
      assert !InputOk(t, tx.inputs[0], h);
    }
  }

  /** The entries of a transaction without fees, and what they do. */
  lemma OneTx(t: Table, es: seq<Entry>, tx: Tx, proposer: Address)
    requires Fees(tx, proposer) == map[]
    ensures var more := es + [TxDone(tx)] + [FeePaid(tx, proposer)];
            && ApplyAll(t, more) == Apply(ApplyAll(t, es), TxDone(tx))
            && Total(more) == Total(es) + Minted(TxDone(tx))
  {
    hide ApplyAll, Total, Minted, Spent, Made, Fees;
    ApplyAllSnoc(t, es, TxDone(tx));
    ApplyAllSnoc(t, es + [TxDone(tx)], FeePaid(tx, proposer));
    TotalSnoc(es, TxDone(tx));
    TotalSnoc(es + [TxDone(tx)], FeePaid(tx, proposer));
    FeeMintsNothing(tx, proposer);
    var u := ApplyAll(t, es + [TxDone(tx)]);
    Neutral(u, Del(FeePaid(tx, proposer)));
    Neutral(u, Add(FeePaid(tx, proposer)));
  }

  /** What the first n transactions of a block do, without fees. */
  lemma FirstTxs(t: Table, b: Block, n: nat)
    requires n < |b.txs| && Fees(b.txs[n], b.proposer) == map[]
    ensures PlayEntries(b.txs[..0], b.proposer, {}) == [] && MadeIn(b.txs[..0], {}) == map[] && ApplyAll(t, []) == t
    ensures Total([]) == 0
    ensures var es, more := PlayEntries(b.txs[..n], b.proposer, {}), PlayEntries(b.txs[..n + 1], b.proposer, {});
            && ApplyAll(t, more) == Apply(ApplyAll(t, es), TxDone(b.txs[n]))
            && Total(more) == Total(es) + Minted(TxDone(b.txs[n]))
    ensures MadeIn(b.txs[..n + 1], {}) == (MadeIn(b.txs[..n], {}) - Spent(b.txs[n].inputs).Keys) + Made(b.txs[n])
  {
    hide Minted, Spent, Made, Fees;
    PlayEntriesStep(b.txs, b.proposer, {}, n);
    OneTx(t, PlayEntries(b.txs[..n], b.proposer, {}), b.txs[n], b.proposer);
    assert b.txs[..n + 1][..n] == b.txs[..n];
  }

  // ---------------------------------------------------------------- the ledger

  function Genesis(): Block {
    Block("g", "", 0, "miner", [Reward("t0", "alice", 7)])
  }

  /** A ledger with the genesis block in it. */
  ghost predicate OnGenesis(d: Tables) {
    && d != EMPTY && Branches.Kept(d) && IndexInv(d) && LedgerOk(d)
    && "g" in d.blocks && BlockOf(d, "g") == Genesis()
  }

  lemma GenesisStored()
    ensures Step(EMPTY, Confirm(Genesis(), true), AfterRoot(Genesis()))
    ensures OnGenesis(AfterRoot(Genesis())) && AfterRoot(Genesis()).blocks.Keys == {"g"}
    ensures AfterRoot(Genesis()).confirmed.Keys == {"t0"}
  {
    hide Marked;
    var d, tx := AfterRoot(Genesis()), Reward("t0", "alice", 7);
    assert CoinbaseCount([tx]) == 1 by {
      assert [tx][..0] == [];
    }
    ConfirmKeeps(EMPTY, Genesis(), true);
    AfterRootIndex(Genesis());
    assert Recorded(EMPTY, map[], Genesis(), true, 0) == map[];
    assert d.confirmed == map["t0" := ConfirmedTx(tx, "g")];
    assert d.blocks["g"].txids == ["t0"];
    assert TxsOf(d.confirmed, ["t0"]) == [tx];
  }

  /** Its transactions are new, and their ids differ. */
  ghost predicate Fresh(d: Tables, b: Block) {
    && b.id != "" && b.id !in d.blocks && b.preHash == "g" && b.height == 1
    && CoinbaseCount(b.txs) <= 1 && DistinctIds(b.txs)
    && forall i | 0 <= i < |b.txs| :: b.txs[i].txid !in d.confirmed
  }

  ghost predicate Stores(d: Tables, b: Block) {
    OnGenesis(d) && b.id in d.blocks && BlockOf(d, b.id) == b
  }

  /** A block of new transactions is stored on the genesis block. */
  lemma StoredOnGenesis(d: Tables, b: Block) returns (d2: Tables)
    requires OnGenesis(d) && Fresh(d, b)
    ensures Step(d, Confirm(b, false), d2) && Stores(d2, b)
    ensures forall x | Stores(d, x) :: Stores(d2, x)
    ensures d2.blocks.Keys == d.blocks.Keys + {b.id}
    ensures forall x | x in d2.confirmed :: x in d.confirmed || x in IdSet(b.txs)
  {
    hide TxsOf, TrunkInv, CoinbaseCount;
    hide NoRepeat, IndexInv, Path, MarkedFor, BranchesSound, Recorded, Base, IdSet;
    assert TreeNode(d.blocks, d.root, "g");
    assert d.blocks["g"].height == Genesis().height;
    NoneRepeated(d, b);
    d2 := AfterBlock(d, b);
    Node.ConfirmKeepsLedger(d, b);
    ConfirmedReadsBack(d, b);
    BodiesKept(d, b);
    OnlyNewConfirmed(d, b);
  }

  lemma BodiesKept(d: Tables, b: Block)
    requires d != EMPTY && Valid(d) && Accepts(d, b, false) && Incoming(d, b)
    ensures TxsStored(AfterBlock(d, b))
    ensures forall id | id in d.blocks ::
              id in AfterBlock(d, b).blocks && BlockOf(AfterBlock(d, b), id) == BlockOf(d, id)
  {
    hide TrunkInv, Recorded, Base;
    AfterConfirmTxs(d, b, false);
    forall id | id in d.blocks
      ensures id in AfterBlock(d, b).blocks && BlockOf(AfterBlock(d, b), id) == BlockOf(d, id)
    {
      AfterConfirmBodies(d, b, false, id);
    }
  }

  lemma NoneRepeated(d: Tables, b: Block)
    requires OnGenesis(d) && Fresh(d, b)
    ensures !Repeats(d, b)
  {
  }

  lemma OnlyNewConfirmed(d: Tables, b: Block)
    requires TrunkInv(d) && b.preHash in d.blocks
    ensures forall x | x in AfterBlock(d, b).confirmed :: x in d.confirmed || x in IdSet(b.txs)
  {
    forall x | x in AfterBlock(d, b).confirmed
      ensures x in d.confirmed || x in IdSet(b.txs)
    {
      RecordedAt(d, Base(d, b), b, JoinsTrunk(d, b), |b.txs|, x);
    }
  }

  /** A block on the genesis block that does not repeat its transaction. */
  ghost predicate Atop(b: Block) {
    && b.id != "" && b.id != "g" && b.preHash == "g" && b.height == 1
    && CoinbaseCount(b.txs) <= 1 && DistinctIds(b.txs) && "t0" !in IdSet(b.txs)
  }

  lemma OneStored(b: Block) returns (ds: seq<Tables>)
    requires Atop(b)
    ensures Run(ds, [Confirm(Genesis(), true), Confirm(b, false)]) && Stores(ds[2], b)
    ensures ds[2].blocks.Keys == {"g", b.id} && forall x | x in ds[2].confirmed :: x == "t0" || x in IdSet(b.txs)
  {
    hide OnGenesis, Step, AfterRoot;
    var d := AfterRoot(Genesis());
    GenesisStored();
    assert forall i | 0 <= i < |b.txs| :: b.txs[i].txid in IdSet(b.txs);
    var d2 := StoredOnGenesis(d, b);
    ds := [EMPTY, d, d2];
  }

  lemma TwoStored(b: Block, c: Block) returns (ds: seq<Tables>)
    requires Atop(b) && Atop(c) && b.id != c.id && IdSet(b.txs) !! IdSet(c.txs)
    ensures Run(ds, [Confirm(Genesis(), true), Confirm(b, false), Confirm(c, false)])
    ensures Stores(ds[3], b) && Stores(ds[3], c)
  {
    hide OnGenesis, Step;
    ds := OneStored(b);
    assert forall i | 0 <= i < |c.txs| :: c.txs[i].txid in IdSet(c.txs);
    assert OnGenesis(ds[2]) by {
      assert Stores(ds[2], b);
    }
    var d := StoredOnGenesis(ds[2], c);
    var ops := [Confirm(Genesis(), true), Confirm(b, false)];
    var all := ds + [d];
    forall i | 0 <= i < 3
      ensures Step(all[i], (ops + [Confirm(c, false)])[i], all[i + 1])
    {
      if i < 2 {
        assert Step(ds[i], ops[i], ds[i + 1]);
      }
    }
    assert [Confirm(Genesis(), true), Confirm(b, false), Confirm(c, false)] == ops + [Confirm(c, false)];
    ds := all;
  }

  // ---------------------------------------------------------------- the state machine after the genesis block

  /** A cache that holds nothing, and everything verified. */
  function Plain(): Env {
    Env({}, (id, n) => map[])
  }

  function Calm(env: Env): Setting {
    Setting(false, [], true, env, {}, 0)
  }

  const START := View(map[], 0, 0, "", [], 0)

  const PLAYED := View(map[Coin("alice", "t0") := Item(7, 0)], 7, 7, "g", [], 0)

  lemma GenesisDoes(t: Table, env: Env, h: nat)
    ensures FirstRefused(t, Genesis(), {}, env.(unverified := {}), h, 0) == 1
    ensures ApplyAll(t, PlayEntries(Genesis().txs, "miner", {})) == t[Coin("alice", "t0") := Item(7, 0)]
    ensures Total(PlayEntries(Genesis().txs, "miner", {})) == 7
  {
    hide PlayEntries, ApplyAll, Total, Checks, Minted, Made, Spent, Fees;
    var g := Genesis();
    RewardIs("t0", "alice", 7);
    FirstTxs(t, g, 0);
    FirstRefusedIs(t, g, {}, env.(unverified := {}), h, 0, 1);
    assert g.txs[..1] == g.txs;
  }

  lemma StartTracks(d: Tables)
    requires OnGenesis(d)
    ensures Tracks(d, START) && Entries(d, START) == [] && Stored(d, START, Genesis())
  {
    assert ChainEntries(d, "") + PendingEntries([]) == [];
  }

  lemma GenesisOnce()
    ensures NoDoubleSpend(BlockEntries(Genesis())) && Pooled(Genesis(), []) == {}
    ensures NoDuplicateInputs(AllInputs(Genesis().txs)) && Unmined([], {}) == []
  {
    var g := Genesis();
    assert [Reward("t0", "alice", 7)][..0] == [];
    forall i | 0 <= i < |BlockEntries(g)|
      ensures Del(BlockEntries(g)[i]) == map[]
    {
      EntriesOfTxs(g.txs, g.proposer, i);
    }
  }

  /** Without unconfirmed transactions there is nothing to roll back. */
  lemma NothingRolled(v: View)
    requires v.unconfirmed == []
    ensures AfterRollBack(v, [], true) == v && RolledBack(WorkOf(v), []) == WorkOf(v)
  {
    assert PendingEntries([]) == [];
  }

  /** Playing the genesis block on an empty state machine, as a received block. */
  lemma GenesisPlayed(d: Tables)
    requires OnGenesis(d)
    ensures Tracks(d, PLAYED) && Drift(d, PLAYED) == 0 == Gap(d, PLAYED) && Total(Entries(d, PLAYED)) == 7
    ensures AfterRepost(d, START, Genesis(), Repost([], true, Plain(), true), 0) == PLAYED
  {
    hide PlayEntries, ApplyAll, Total, Checks, Refused, IndexInv, Branches.Kept, LedgerOk, RevertAll, Fits, Ordered;
    hide NoDoubleSpend, NoDuplicateInputs, AllInputs, Pooled, IdSet, EntriesOf, RolledBack;
    var g := Genesis();
    GenesisDoes(map[], Plain(), d.trunkHeight);
    assert Plain().(unverified := {}) == Plain();
    GenesisOnce();
    NothingRolled(START);
    StartTracks(d);
    assert g.txs[..1] == g.txs;
    assert AfterTodo(d, START, g, Plain(), {}, 0) == PLAYED;
    PlayAll(g.txs, g.proposer);
    NoTotal();
    TodoMoves(d, START, g, Plain(), {}, 0);
    TodoKeeps(d, START, g, Plain(), {}, 0);
  }

  /** A walk from the genesis block to a block on it does that block. */
  lemma WalkUp(d: Tables, v: View, b: Block, env: Env)
    requires Stores(d, b) && b.preHash == "g" && v.latest == "g" && v.unconfirmed == []
    ensures Stored(d, v, b)
    ensures Walked(d, v, b.id, Calm(env), AfterTodo(d, v, b, env, {}, 0), TodoOk(d, v, b, env, {}))
  {
    hide AfterTodo, TodoOk, Walked, AfterRollBack;
    NothingRolled(v);
    WalkOneUp(d, v, b, Calm(env));
  }

  // ---------------------------------------------------------------- a failed step and the totals

  function Bad(): Block {
    Block("b1", "g", 1, "miner", [Reward("c1", "miner", 5), Transfer("x", "none", "alice", "bob", 1)])
  }

  function Good(): Block {
    Block("b2", "g", 1, "miner", [Reward("c2", "miner", 3)])
  }

  lemma BadAndGood()
    ensures Atop(Bad()) && Atop(Good()) && IdSet(Bad().txs) !! IdSet(Good().txs)
  {
    var b, g := Bad().txs, Good().txs;
    assert b[..1] == [b[0]] && [b[0]][..0] == [] && g[..0] == [];
    assert IdSet(b) == {"c1", "x"} by {
      assert b[0].txid == "c1" && b[1].txid == "x";
    }
    assert IdSet(g) == {"c2"} by {
      assert g[0].txid == "c2";
    }
  }

  lemma BadStops(h: nat)
    ensures FirstRefused(PLAYED.utxo, Bad(), {}, Plain(), h, 0) == 1
    ensures Total(PlayEntries(Bad().txs[..1], "miner", {})) == 5
  {
    hide PlayEntries, ApplyAll, Total, Checks, Minted, Made, Spent, Fees, MadeIn;
    var b, t := Bad(), PLAYED.utxo;
    RewardIs("c1", "miner", 5);
    TransferIs("x", "none", "alice", "bob", 1);
    FirstTxs(t, b, 0);
    FirstRefusedIs(t, b, {}, Plain(), h, 0, 1);
  }

  lemma GoodIsDone(h: nat)
    ensures FirstRefused(PLAYED.utxo, Good(), {}, Plain(), h, 0) == 1
    ensures Total(PlayEntries(Good().txs, "miner", {})) == 3
  {
    hide PlayEntries, ApplyAll, Total, Checks, Minted, Made, Spent, Fees, MadeIn;
    var b, t := Good(), PLAYED.utxo;
    RewardIs("c2", "miner", 3);
    FirstTxs(t, b, 0);
    FirstRefusedIs(t, b, {}, Plain(), h, 0, 1);
    assert b.txs[..1] == b.txs;
  }

  /** The second transaction of a block is refused, so that nothing is written; but its reward of 5 stays
      in the in-memory total, and the walk to the next block, with a reward of 3, writes it down: the
      recorded total is 15 instead of 10. */
  lemma FailedStepDrifts() returns (ds: seq<Tables>, v1: View, v2: View)
    ensures Run(ds, [Confirm(Genesis(), true), Confirm(Bad(), false), Confirm(Good(), false)])
    ensures Stores(ds[3], Bad()) && Stores(ds[3], Good())
    ensures Walked(ds[3], PLAYED, "b1", Calm(Plain()), v1, false) && v1 == PLAYED.(memTotal := 12)
    ensures Walked(ds[3], v1, "b2", Calm(Plain()), v2, true) && v2.total == 15
    ensures Playable(ds[3], v2.latest) && Total(Entries(ds[3], v2)) == 10
  {
    hide PlayEntries, ApplyAll, Total, Refused, Step, LedgerOk, OnGenesis, Walked, EntriesOf;
    BadAndGood();
    ds := TwoStored(Bad(), Good());
    var d := ds[3];
    BadStops(d.trunkHeight);
    GoodIsDone(d.trunkHeight);
    WalkUp(d, PLAYED, Bad(), Plain());
    v1 := AfterTodo(d, PLAYED, Bad(), Plain(), {}, 0);
    WalkUp(d, v1, Good(), Plain());
    v2 := AfterTodo(d, v1, Good(), Plain(), {}, 0);
    assert Good().txs[..1] == Good().txs;
    TodoMoves(d, v1, Good(), Plain(), {}, 0);
    GenesisEntries(d, v1);
  }

  lemma GenesisEntries(d: Tables, v: View)
    requires OnGenesis(d) && v.latest == "g" && v.unconfirmed == []
    ensures Playable(d, "g") && Total(Entries(d, v)) == 7
  {
    hide Tracks, ApplyAll, Total, AfterRepost, LedgerOk;
    GenesisPlayed(d);
    SameTracks(d, PLAYED.(utxo := v.utxo), v);
    assert Entries(d, PLAYED) == Entries(d, v);
  }

  // ---------------------------------------------------------------- an output spent twice in a block

  function Twice(): Block {
    Block("b1", "g", 1, "miner", [Transfer("t1", "t0", "alice", "bob", 7), Transfer("t2", "t0", "alice", "carol", 7)])
  }

  lemma TwiceOnTop()
    ensures Atop(Twice())
  {
    var b := Twice().txs;
    assert b[..1] == [b[0]] && [b[0]][..0] == [];
  }

  lemma TwiceIsDone(h: nat)
    ensures FirstRefused(PLAYED.utxo, Twice(), {}, Plain(), h, 0) == 2
    ensures ApplyAll(PLAYED.utxo, PlayEntries(Twice().txs, "miner", {}))
         == map[Coin("bob", "t1") := Item(7, 0), Coin("carol", "t2") := Item(7, 0)]
    ensures Total(PlayEntries(Twice().txs, "miner", {})) == 0
  {
    hide PlayEntries, ApplyAll, Total, Checks, Minted, Made, Spent, Fees, MadeIn;
    var b, t := Twice(), PLAYED.utxo;
    TransferIs("t1", "t0", "alice", "bob", 7);
    TransferIs("t2", "t0", "alice", "carol", 7);
    FirstTxs(t, b, 0);
    FirstTxs(t, b, 1);
    FirstRefusedIs(t, b, {}, Plain(), h, 0, 2);
    assert b.txs[..2] == b.txs;
  }

  lemma TwiceSpends()
    ensures !NoDoubleSpend(BlockEntries(Twice()))
  {
    hide Spent, Made;
    var b := Twice();
    EntriesOfTxs(b.txs, b.proposer, 0);
    EntriesOfTxs(b.txs, b.proposer, 2);
    TransferIs("t1", "t0", "alice", "bob", 7);
    TransferIs("t2", "t0", "alice", "carol", 7);
    assert Coin("alice", "t0") in Del(BlockEntries(b)[0]).Keys && Coin("alice", "t0") in Del(BlockEntries(b)[2]).Keys;
  }

  /** Two transfers of the same genesis output in one block: the walk to the block succeeds, both receivers
      have the 7, and the table is worth 14 where 7 have been minted. */
  lemma DoubleSpendInBlock() returns (ds: seq<Tables>, v: View)
    ensures Run(ds, [Confirm(Genesis(), true), Confirm(Twice(), false)]) && Stores(ds[2], Twice())
    ensures Walked(ds[2], PLAYED, "b1", Calm(Plain()), v, true)
    ensures v.utxo == map[Coin("bob", "t1") := Item(7, 0), Coin("carol", "t2") := Item(7, 0)] && Sum(v.utxo) == 14
    ensures v.total == v.memTotal == 7 && !Tracks(ds[2], v)
  {
    hide PlayEntries, ApplyAll, Total, Refused, Step, LedgerOk, OnGenesis, Walked, EntriesOf, Tracks, Fits, Sum;
    hide NoDoubleSpend, Sound;
    TwiceOnTop();
    ds := OneStored(Twice());
    var d := ds[2];
    TwiceIsDone(d.trunkHeight);
    WalkUp(d, PLAYED, Twice(), Plain());
    v := AfterTodo(d, PLAYED, Twice(), Plain(), {}, 0);
    assert Twice().txs[..2] == Twice().txs;
    GenesisPlayed(d);
    TodoKeeps(d, PLAYED, Twice(), Plain(), {}, 0);
    PlainIsSound(PLAYED.utxo, Twice());
    TwiceSpends();
    SumOfTwo(Coin("bob", "t1"), Coin("carol", "t2"));
  }

  lemma PlainIsSound(t: Table, b: Block)
    ensures Sound(t, b, {}, Plain())
  {
  }

  lemma SumOfTwo(j: Key, k: Key)
    requires j != k
    ensures Sum(map[j := Item(7, 0), k := Item(7, 0)]) == 14
  {
    var none: Table := map[];
    var one := none[j := Item(7, 0)];
    SumInsert(none, j, Item(7, 0));
    SumInsert(one, k, Item(7, 0));
    assert one[k := Item(7, 0)] == map[j := Item(7, 0), k := Item(7, 0)];
  }

  // ---------------------------------------------------------------- what a failed step leaves in the cache

  function Stopped(): Block {
    Block("b1", "g", 1, "miner", [Transfer("t1", "t0", "alice", "bob", 7), Transfer("x", "none", "alice", "bob", 1)])
  }

  function Later(): Block {
    Block("b2", "g", 1, "miner", [Transfer("t3", "t1", "bob", "carol", 7)])
  }

  /** The cache holds the output of a transfer that was not written. */
  function Stale(): Env {
    Env({}, (id, n) => map[Coin("bob", "t1") := Item(7, 0)])
  }

  lemma StoppedAndLater()
    ensures Atop(Stopped()) && Atop(Later()) && IdSet(Stopped().txs) !! IdSet(Later().txs)
  {
    var b, g := Stopped().txs, Later().txs;
    assert b[..1] == [b[0]] && [b[0]][..0] == [] && g[..0] == [];
    assert IdSet(b) == {"t1", "x"} by {
      assert b[0].txid == "t1" && b[1].txid == "x";
    }
    assert IdSet(g) == {"t3"} by {
      assert g[0].txid == "t3";
    }
  }

  lemma StoppedStops(h: nat)
    ensures FirstRefused(PLAYED.utxo, Stopped(), {}, Plain(), h, 0) == 1
    ensures Total(PlayEntries(Stopped().txs[..1], "miner", {})) == 0
    ensures Bound(map[], Stopped(), {}, 1) == map[Coin("bob", "t1") := Item(7, 0)]
  {
    hide PlayEntries, ApplyAll, Total, Checks, Minted, Made, Spent, Fees, MadeIn;
    var b, t := Stopped(), PLAYED.utxo;
    TransferIs("t1", "t0", "alice", "bob", 7);
    TransferIs("x", "none", "alice", "bob", 1);
    FirstTxs(t, b, 0);
    FirstRefusedIs(t, b, {}, Plain(), h, 0, 1);
  }

  lemma LaterIsDone(h: nat)
    ensures FirstRefused(PLAYED.utxo, Later(), {}, Stale(), h, 0) == 1
    ensures ApplyAll(PLAYED.utxo, PlayEntries(Later().txs, "miner", {}))
         == map[Coin("alice", "t0") := Item(7, 0), Coin("carol", "t3") := Item(7, 0)]
    ensures Total(PlayEntries(Later().txs, "miner", {})) == 0
  {
    hide PlayEntries, ApplyAll, Total, Checks, Minted, Made, Spent, Fees, MadeIn;
    var b, t := Later(), PLAYED.utxo;
    TransferIs("t3", "t1", "bob", "carol", 7);
    FirstTxs(t, b, 0);
    FirstRefusedIs(t, b, {}, Stale(), h, 0, 1);
    assert b.txs[..1] == b.txs;
  }

  lemma LaterDoesNotFit()
    ensures !Fits(PLAYED.utxo, BlockEntries(Later()))
  {
    hide Spent, Made, NoDoubleSpend;
    var b, k := Later(), Coin("bob", "t1");
    EntriesOfTxs(b.txs, b.proposer, 0);
    TransferIs("t3", "t1", "bob", "carol", 7);
    assert k in Del(BlockEntries(b)[0]);
    assert BlockEntries(b)[..0] == [];
    assert !Supplied(PLAYED.utxo, BlockEntries(b)[..0], k, 7);
  }

  /** A block fails after its first transfer, and leaves the output of this transfer in the UTXO cache. A
      block that spends it is done, although it is not in the table: alice and carol both have the 7. */
  lemma StaleCacheSpent() returns (ds: seq<Tables>, v: View)
    ensures Run(ds, [Confirm(Genesis(), true), Confirm(Stopped(), false), Confirm(Later(), false)])
    ensures Stores(ds[3], Stopped()) && Stores(ds[3], Later())
    ensures Walked(ds[3], PLAYED, "b1", Calm(Plain()), PLAYED, false)
    ensures var n := FirstRefused(PLAYED.utxo, Stopped(), {}, Plain(), ds[3].trunkHeight, 0);
            Follows(Stale(), Bound(map[], Stopped(), {}, n), Later(), {})
    ensures Walked(ds[3], PLAYED, "b2", Calm(Stale()), v, true)
    ensures v.utxo == map[Coin("alice", "t0") := Item(7, 0), Coin("carol", "t3") := Item(7, 0)] && Sum(v.utxo) == 14
    ensures v.total == v.memTotal == 7 && !Tracks(ds[3], v)
  {
    hide Step, LedgerOk, OnGenesis, Walked, Tracks, Sum, Follows, Bound, Refused;
    StoppedAndLater();
    ds := TwoStored(Stopped(), Later());
    var d := ds[3];
    StoppedWalk(d);
    v := LaterWalk(d);
  }

  lemma StoppedWalk(d: Tables)
    requires Stores(d, Stopped())
    ensures Walked(d, PLAYED, "b1", Calm(Plain()), PLAYED, false)
    ensures var n := FirstRefused(PLAYED.utxo, Stopped(), {}, Plain(), d.trunkHeight, 0);
            Follows(Stale(), Bound(map[], Stopped(), {}, n), Later(), {})
  {
    hide PlayEntries, ApplyAll, Total, Refused, LedgerOk, OnGenesis, Walked, Bound;
    StoppedStops(d.trunkHeight);
    WalkUp(d, PLAYED, Stopped(), Plain());
    assert AfterTodo(d, PLAYED, Stopped(), Plain(), {}, 0) == PLAYED;
    BoundStarts(map[Coin("bob", "t1") := Item(7, 0)], Later());
  }

  lemma BoundStarts(cached: Table, b: Block)
    ensures Bound(cached, b, {}, 0) == cached
  {
  }

  lemma LaterWalk(d: Tables) returns (v: View)
    requires Stores(d, Later())
    ensures Walked(d, PLAYED, "b2", Calm(Stale()), v, true)
    ensures v.utxo == map[Coin("alice", "t0") := Item(7, 0), Coin("carol", "t3") := Item(7, 0)] && Sum(v.utxo) == 14
    ensures v.total == v.memTotal == 7 && !Tracks(d, v)
  {
    hide PlayEntries, ApplyAll, Total, Refused, LedgerOk, OnGenesis, Walked, EntriesOf, Tracks, Fits, Sum;
    hide NoDoubleSpend, Sound, AfterRepost, Drift, Gap;
    LaterIsDone(d.trunkHeight);
    WalkUp(d, PLAYED, Later(), Stale());
    v := AfterTodo(d, PLAYED, Later(), Stale(), {}, 0);
    assert Later().txs[..1] == Later().txs;
    GenesisPlayed(d);
    TodoKeeps(d, PLAYED, Later(), Stale(), {}, 0);
    LaterDoesNotFit();
    SumOfTwo(Coin("alice", "t0"), Coin("carol", "t3"));
  }

  // ---------------------------------------------------------------- a submission that is not written

  /** A transfer enters the mempool and its batch is not written: the table still holds the output it
      spent, the invariant is broken, and the transaction cannot be submitted again. */
  lemma UnwrittenSubmission(d: Tables)
    requires OnGenesis(d)
    ensures var tx, o := Transfer("t1", "t0", "alice", "bob", 7), Intake(true, false, true, false, map[]);
            var v := AfterSubmit(d, PLAYED, tx, o);
            && Tracks(d, PLAYED) && Enters(d, PLAYED, tx, o)
            && v.unconfirmed == [tx] && v.utxo == PLAYED.utxo && !Tracks(d, v) && !Enters(d, v, tx, o)
  {
    hide OnGenesis, Tracks, Total, Checks, Minted, Made, Apply, AfterRepost, Drift, Gap;
    var tx, o := Transfer("t1", "t0", "alice", "bob", 7), Intake(true, false, true, false, map[]);
    GenesisPlayed(d);
    TransferIs("t1", "t0", "alice", "bob", 7);
    assert PLAYED.utxo + map[] == PLAYED.utxo;
    GenesisIds(d);
    SubmitKeeps(d, PLAYED, tx, o);
  }

  lemma GenesisIds(d: Tables)
    requires OnGenesis(d)
    ensures Playable(d, "g") && forall e | e in ChainEntries(d, "g") :: e.tx.txid == "t0"
  {
    ChainStep(d, "g");
    forall e | e in ChainEntries(d, "g")
      ensures e.tx.txid == "t0"
    {
      InEntriesOf(Genesis().txs, "miner", e);
    }
  }
}
