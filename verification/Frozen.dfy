/** Frozen outputs: an output that is frozen for good, or up to a height that the trunk has not reached, is
    not spent by anything that the state machine takes. */
module Frozen {
  import opened Types
  import opened Chain
  import opened Tables
  import Branches
  import opened Utxo
  import opened Value
  import opened Replays
  import opened Unconfirmed
  import opened Steps
  import opened Walks
  import opened Reposts
  import opened Finality
  import N = Node

  predicate IsFrozen(item: Item, trunkHeight: nat) {
    item.frozenHeight == -1 || item.frozenHeight > trunkHeight
  }

  /** k is in both tables with the same item. */
  ghost predicate Stays(t: Table, u: Table, k: Key) {
    k in t && k in u && u[k] == t[k]
  }

  /** The cache does not say that k may be spent. */
  ghost predicate NotFreed(cached: Table, k: Key, trunkHeight: nat) {
    k in cached ==> IsFrozen(cached[k], trunkHeight)
  }

  ghost predicate NeverFreed(env: Env, k: Key, trunkHeight: nat) {
    forall id, n {:trigger env.caches(id, n)} :: NotFreed(env.caches(id, n), k, trunkHeight)
  }

  /** The input check lets no transaction spend what it sees frozen. */
  lemma CheckSparesFrozen(t: Table, tx: Tx, trunkHeight: nat, k: Key)
    requires Checks(t, tx, trunkHeight) && NotFreed(t, k, trunkHeight)
    ensures k !in Spent(tx.inputs)
  {
    SpentKeys(tx.inputs, k);
    forall i | 0 <= i < |tx.inputs|
      ensures InputKey(tx.inputs[i]) != k
    {
      assert InputOk(t, tx.inputs[i], trunkHeight);
    }
  }

  // ---------------------------------------------------------------- submissions

  /** A submission leaves a frozen output of another transaction where it is. */
  lemma FrozenSubmitted(d: Tables, v: View, tx: Tx, o: Intake, k: Key)
    requires k in v.utxo && IsFrozen(v.utxo[k], d.trunkHeight) && NotFreed(o.cached, k, d.trunkHeight)
    requires tx.txid != k.txid
    ensures Stays(v.utxo, AfterSubmit(d, v, tx, o).utxo, k)
  {
    hide Checks, Spent, Minted;
    if Enters(d, v, tx, o) {
      CheckSparesFrozen(v.utxo + o.cached, tx, d.trunkHeight, k);
    }
  }

  // ---------------------------------------------------------------- blocks

  lemma {:induction false} Untouched(t: Table, es: seq<Entry>, k: Key)
    requires k in t && forall e | e in es :: k !in Del(e) && k !in Add(e)
    ensures Stays(t, ApplyAll(t, es), k)
    decreases |es|
  {
    hide Del, Add;
    if es != [] {
      var front := es[..|es| - 1];
      assert forall e | e in front :: e in es;
      Untouched(t, front, k);
      assert es[|es| - 1] in es;
    }
  }

  /** Playing a block that is accepted on table t leaves an output frozen in t where it is, if the block
      does not make it. */
  lemma PlayLeaves(t: Table, u: Table, b: Block, done: set<Tx>, env: Env, h: nat, k: Key)
    requires FirstRefused(t, b, done, env, h, 0) == |b.txs|
    requires NotFreed(t, k, h) && NeverFreed(env, k, h) && k in u
    requires forall e | e in PlayEntries(b.txs, b.proposer, done) :: k !in Add(e)
    ensures Stays(u, ApplyAll(u, PlayEntries(b.txs, b.proposer, done)), k)
  {
    hide Checks, Spent, Made, PlayEntries, MadeIn, IsFrozen;
    var es := PlayEntries(b.txs, b.proposer, done);
    forall e | e in es
      ensures k !in Del(e)
    {
      if e.TxDone? {
        var i :| 0 <= i < |es| && es[i] == e;
        var n := PlayAt(b.txs, b.proposer, done, i);
        PlayEntriesPrefix(b.txs, b.proposer, done, n);
        NotMadeIn(b, done, n, k);
        assert !Refused(t, b, done, env, h, n);
        assert NotFreed(env.caches(b.id, n), k, h);
        CheckSparesFrozen(Seen(t, b, done, env, n), b.txs[n], h, k);
      }
    }
    Untouched(u, es, k);
  }

  lemma NotMadeIn(b: Block, done: set<Tx>, n: nat, k: Key)
    requires n <= |b.txs| && forall e | e in PlayEntries(b.txs, b.proposer, done) :: k !in Add(e)
    ensures k !in MadeIn(b.txs[..n], done)
  {
    hide Add;
    if k in MadeIn(b.txs[..n], done) {
      var e := InMadeIn(b.txs[..n], b.proposer, done, k);
      PlayEntriesPrefix(b.txs, b.proposer, done, n);
    }
  }

  /** A block that a walk does, or fails to do, leaves a frozen output of another transaction where it is. */
  lemma FrozenDone(d: Tables, v: View, b: Block, env: Env, unwritable: set<BlockId>, window: nat, k: Key)
    requires k in v.utxo && IsFrozen(v.utxo[k], d.trunkHeight) && NeverFreed(env, k, d.trunkHeight)
    requires forall tx | tx in b.txs :: tx.txid != k.txid
    ensures Stays(v.utxo, AfterTodo(d, v, b, env, unwritable, window).utxo, k)
  {
    hide PlayEntries, ApplyAll, Refused, IsFrozen, Add;
    if TodoOk(d, v, b, env, unwritable) {
      assert b.txs[..|b.txs|] == b.txs;
      forall e | e in PlayEntries(b.txs, b.proposer, {})
        ensures k !in Add(e)
      {
        InPlayEntries(b.txs, b.proposer, {}, e);
        if k in Add(e) {
          AddKeys(e, k);
        }
      }
      PlayLeaves(v.utxo, v.utxo, b, {}, env, d.trunkHeight, k);
    }
  }

  /** What is in a table that follows es is not made again. */
  lemma NotMadeAgain(es: seq<Entry>, more: seq<Entry>, t: Table, k: Key)
    requires Distinct(es + more) && CleanAll(es) && Matches(t, Replay(es)) && k in t
    ensures forall e | e in more :: k !in Add(e)
  {
    hide Add, Del, CleanAll, Replay;
    var all := es + more;
    assert all[..|es|] == es;
    PrefixDistinct(all, |es|);
    ReplayClosed(es, k);
    var x :| x in es && k in Add(x);
    var m :| 0 <= m < |es| && es[m] == x;
    forall e | e in more
      ensures k !in Add(e)
    {
      var j :| 0 <= j < |more| && more[j] == e;
      assert all[m] == x && all[|es| + j] == e;
      AddsDisjoint(all, m, |es| + j);
    }
  }

  /** The next block makes nothing that is in a table in step. */
  lemma NextMakesNew(d: Tables, u: View, b: Block, done: set<Tx>, k: Key)
    requires Stored(d, u, b) && Tracks(d, u) && Continues(b, u.unconfirmed, done) && k in u.utxo
    ensures forall e | e in PlayEntries(b.txs, b.proposer, done) :: k !in Add(e)
  {
    hide Distinct, CleanAll, Matches, Replay, PlayEntries, PendingEntries, ChainEntries, Continues, Add, Del;
    assert TreeNode(d.blocks, d.root, b.id);
    DoneDistinct(d, b.id, u.unconfirmed, done);
    NotMadeAgain(Entries(d, u), PlayEntries(b.txs, b.proposer, done), u.utxo, k);
  }

  /** The same for a mined block, with the unconfirmed transactions it confirms. */
  lemma FrozenMined(d: Tables, v: View, b: Block, env: Env, unwritable: bool, window: nat, k: Key)
    requires Stored(d, v, b) && Tracks(d, v) && Continues(b, v.unconfirmed, UserTxs(b))
    requires k in v.utxo && IsFrozen(v.utxo[k], d.trunkHeight) && NeverFreed(env, k, d.trunkHeight)
    ensures Stays(v.utxo, AfterMine(d, v, b, env, unwritable, window).utxo, k)
  {
    hide Tracks, PlayEntries, ApplyAll, Refused, IsFrozen, Add, Continues, Unmined;
    if MineOk(d, v, b, env, unwritable) {
      assert b.txs[..|b.txs|] == b.txs;
      NextMakesNew(d, v, b, UserTxs(b), k);
      PlayLeaves(v.utxo, v.utxo, b, UserTxs(b), Unchecked(env), d.trunkHeight, k);
    }
  }

  // ---------------------------------------------------------------- received blocks

  lemma {:induction false} NotDeclared(es: seq<Entry>, k: Key)
    requires forall e | e in es :: k !in Del(e)
    ensures DeclaredBy(es, k).None?
    decreases |es|
  {
    hide Del;
    if es != [] {
      var front := es[..|es| - 1];
      assert forall e | e in front :: e in es;
      NotDeclared(front, k);
      assert es[|es| - 1] in es;
    }
  }

  /** Undoing entries leaves what they have not made. */
  lemma RevertLeaves(c: seq<Entry>, es: seq<Entry>, t: Table, k: Key)
    requires Distinct(c + es) && CleanAll(c + es) && Matches(t, Replay(c + es)) && k in t
    requires forall e | e in es :: k !in Add(e)
    ensures Stays(t, RevertAll(t, es), k)
  {
    hide Add, Del, Distinct, CleanAll, Replay, RevertAll, DeclaredBy;
    var all := c + es;
    assert all[..|c|] == c;
    PrefixDistinct(all, |c|);
    CleanAllPrefix(all, |c|);
    ReplayClosed(all, k);
    ReplayClosed(c, k);
    assert forall e | e in c :: e in all;
    assert forall e | e in es :: e in all;
    NotDeclared(es, k);
    RevertAllTracks(c, es, t);
  }

  /** The same for a received block, for outputs that no conflicting transaction has made. */
  lemma FrozenReposted(d: Tables, v: View, b: Block, r: Repost, window: nat, k: Key)
    requires Stored(d, v, b) && Tracks(d, v) && Separates(d, v, b, r)
    requires k in v.utxo && IsFrozen(v.utxo[k], d.trunkHeight) && NeverFreed(r.env, k, d.trunkHeight)
    requires forall tx | tx in r.conflicts :: tx.txid != k.txid
    ensures Stays(v.utxo, AfterRepost(d, v, b, r, window).utxo, k)
  {
    hide Tracks, PlayEntries, ApplyAll, Refused, IsFrozen, Add, Continues, Unmined, Separates, RevertAll, Pooled;
    hide NoDuplicateInputs;
    if RepostOk(d, v, b, r) {
      var done, u := Pooled(b, v.unconfirmed), Cleared(v, r);
      assert b.txs[..|b.txs|] == b.txs;
      ClearedLeaves(d, v, b, r, k);
      PooledContinues(d, v, b, r);
      NextMakesNew(d, u, b, done, k);
      PlayLeaves(v.utxo, u.utxo, b, done, Unchecked(r.env), d.trunkHeight, k);
    }
  }

  lemma ClearedLeaves(d: Tables, v: View, b: Block, r: Repost, k: Key)
    requires Tracks(d, v) && Separates(d, v, b, r) && k in v.utxo && forall tx | tx in r.conflicts :: tx.txid != k.txid
    ensures Playable(d, v.latest) && Tracks(d, Cleared(v, r)) && Stays(v.utxo, Cleared(v, r).utxo, k)
  {
    hide Distinct, CleanAll, Matches, Replay, RevertAll, PendingEntries, ChainEntries, Add, Separates;
    var p := PendingEntries(r.conflicts);
    ClearedTracks(d, v, b, r);
    PendingMakesNot(r.conflicts, k);
    RevertLeaves(Entries(d, Cleared(v, r)), p, v.utxo, k);
  }

  lemma PendingMakesNot(txs: seq<Tx>, k: Key)
    requires forall tx | tx in txs :: tx.txid != k.txid
    ensures forall e | e in PendingEntries(txs) :: k !in Add(e)
  {
    hide Add, PendingEntries;
    forall e | e in PendingEntries(txs)
      ensures k !in Add(e)
    {
      InPending(txs, e);
      if k in Add(e) {
        AddKeys(e, k);
      }
    }
  }

  // ---------------------------------------------------------------- walks

  /** Rolling back leaves what the unconfirmed transactions have not made. */
  lemma RollBackLeaves(d: Tables, v: View, order: seq<Tx>, written: bool, k: Key)
    requires Tracks(d, v) && DependencyOrder(ChainEntries(d, v.latest), v.unconfirmed, order)
    requires k in v.utxo && forall tx | tx in v.unconfirmed :: tx.txid != k.txid
    ensures Stays(v.utxo, AfterRollBack(v, order, written).utxo, k)
  {
    hide Distinct, CleanAll, Matches, Replay, RevertAll, PendingEntries, ChainEntries, Add, SameEntries, Ordered;
    var c := ChainEntries(d, v.latest);
    AnyOrder(c, v.unconfirmed, order);
    OrderMakesNot(c, v.unconfirmed, order, k);
    RevertLeaves(c, PendingEntries(order), v.utxo, k);
  }

  lemma OrderMakesNot(c: seq<Entry>, unconfirmed: seq<Tx>, order: seq<Tx>, k: Key)
    requires Distinct(c + PendingEntries(order))
    requires SameEntries(c + PendingEntries(order), c + PendingEntries(unconfirmed))
    requires forall tx | tx in unconfirmed :: tx.txid != k.txid
    ensures forall e | e in PendingEntries(order) :: k !in Add(e)
  {
    hide Add;
    var p, all := PendingEntries(order), c + PendingEntries(order);
    PendingMakesNot(unconfirmed, k);
    forall e | e in p
      ensures k !in Add(e)
    {
      var j :| 0 <= j < |p| && p[j] == e;
      assert all[|c| + j] == e && e in all;
      forall i | 0 <= i < |c|
        ensures c[i] != e
      {
        assert all[i] == c[i];
      }
      assert e in c + PendingEntries(unconfirmed);
    }
  }

  /** Undoing the latest block leaves what it has not made. */
  lemma UndoLeaves(d: Tables, v: View, b: Block, ledgerPrune: bool, unwritable: set<BlockId>, window: nat, k: Key)
    requires OnTop(d, v, b) && k in v.utxo && forall tx | tx in b.txs :: tx.txid != k.txid
    ensures Stays(v.utxo, AfterUndo(d, v, b, ledgerPrune, unwritable, window).utxo, k)
  {
    hide Distinct, CleanAll, Matches, Replay, RevertAll, PendingEntries, EntriesOf, Add, Total;
    ChainStep(d, v.latest);
    NothingPending(d, v.latest);
    BlockMakesNot(b, k);
    RevertLeaves(ChainEntries(d, b.preHash), BlockEntries(b), v.utxo, k);
  }

  lemma BlockMakesNot(b: Block, k: Key)
    requires forall tx | tx in b.txs :: tx.txid != k.txid
    ensures forall e | e in BlockEntries(b) :: k !in Add(e)
  {
    hide Add, EntriesOf;
    forall e | e in BlockEntries(b)
      ensures k !in Add(e)
    {
      InEntriesOf(b.txs, b.proposer, e);
      if k in Add(e) {
        AddKeys(e, k);
      }
    }
  }

  /** A block above one that holds a transaction does not hold it. */
  lemma NotHeldAbove(d: Tables, x: BlockId, id: BlockId, txid: TxId)
    requires LedgerOk(d) && x in d.blocks && id in d.blocks && x != id && OnPath(d.blocks, d.root, x, id)
    requires txid in d.blocks[x].txids
    ensures forall tx | tx in BlockOf(d, id).txs :: tx.txid != txid
  {
    hide Path;
    forall tx | tx in BlockOf(d, id).txs
      ensures tx.txid != txid
    {
      var i :| 0 <= i < |BlockOf(d, id).txs| && BlockOf(d, id).txs[i] == tx;
      assert tx.txid == d.blocks[id].txids[i];
    }
  }

  /** Undoing blocks above x leaves the outputs of x that are unspent. */
  lemma {:induction false} UndoRunLeaves(d: Tables, v: View, a: BlockId, x: BlockId, undo: seq<Block>, s: Setting,
                                         n: nat, k: Key)
    requires Tracks(d, v) && v.unconfirmed == [] && BranchBelow(d, a, v.latest, undo) && n <= |undo| && LedgerOk(d)
    requires v.latest in d.blocks && x in d.blocks && OnPath(d.blocks, d.root, x, v.latest)
    requires UndoRun(d, v, undo, s, n).latest in d.blocks
    requires d.blocks[x].height <= d.blocks[UndoRun(d, v, undo, s, n).latest].height
    requires k in v.utxo && k.txid in d.blocks[x].txids
    ensures Stays(v.utxo, UndoRun(d, v, undo, s, n).utxo, k)
  {
    hide Tracks, BranchBelow, Path, ChainEntries, Undone, LedgerOk, AfterUndo, UndoOk, BlockOf;
    BranchParts(d, a, v.latest, undo);
    if n > 0 {
      var u := UndoRun(d, v, undo, s, n - 1);
      UndoRunHeights(d, v, a, undo, s, n - 1);
      if UndoRunOk(d, v, undo, s, n - 1) {
        UndoRunKeeps(d, v, a, undo, s, n - 1);
        var h := d.blocks[v.latest].height - (n - 1);
        BranchLength(d, a, v.latest, undo, n - 1);
        StepAt(d, v.latest, h);
        PathPrefix(d.blocks, d.root, v.latest, h - 1);
        UndoHeights(d, u, undo[n - 1], s.ledgerPrune, s.unwritable, s.window);
        BodyAt(d, u.latest);
        UndoRunLeaves(d, v, a, x, undo, s, n - 1, k);
        if UndoOk(d, u, undo[n - 1], s.ledgerPrune, s.unwritable) {
          LowerIsAncestor(d.blocks, d.root, x, u.latest, v.latest);
          NotHeldAbove(d, x, u.latest, k.txid);
          UndoLeaves(d, u, undo[n - 1], s.ledgerPrune, s.unwritable, s.window, k);
        }
      } else {
        UndoRunLeaves(d, v, a, x, undo, s, n - 1, k);
      }
    }
  }

  lemma BodyAt(d: Tables, id: BlockId)
    requires LedgerOk(d) && id in d.blocks
    ensures BlockOf(d, id).preHash == d.blocks[id].preHash && BlockOf(d, id).id == id
  {
  }

  /** Doing blocks above x leaves the outputs of x that are frozen. */
  lemma {:induction false} TodoRunLeaves(d: Tables, v: View, x: BlockId, dest: BlockId, todo: seq<Block>, s: Setting,
                                         n: nat, k: Key)
    requires v.unconfirmed == [] && v.latest in d.blocks && BranchBelow(d, v.latest, dest, todo) && n <= |todo|
    requires LedgerOk(d) && x in d.blocks && OnPath(d.blocks, d.root, x, v.latest)
    requires k in v.utxo && k.txid in d.blocks[x].txids
    requires IsFrozen(v.utxo[k], d.trunkHeight) && NeverFreed(s.env, k, d.trunkHeight)
    ensures Stays(v.utxo, TodoRun(d, v, todo, s, n).utxo, k)
  {
    hide BranchBelow, Path, ChainEntries, LedgerOk, AfterTodo, TodoOk, IsFrozen, NeverFreed, BlockOf, Rode, Done;
    BranchParts(d, v.latest, dest, todo);
    if n > 0 {
      TodoRunLeaves(d, v, x, dest, todo, s, n - 1, k);
      if TodoRunOk(d, v, todo, s, n - 1) {
        var u, h := TodoRun(d, v, todo, s, n - 1), d.blocks[v.latest].height + n;
        BranchLength(d, v.latest, dest, todo, |todo| - n);
        PathPrefix(d.blocks, d.root, dest, h);
        var y := BlockAt(d, dest, h);
        OnPathTransitive(d.blocks, d.root, x, v.latest, dest);
        LowerIsAncestor(d.blocks, d.root, x, y, dest);
        NotHeldAbove(d, x, y, k.txid);
        FrozenDone(d, u, todo[|todo| - n], s.env, s.unwritable, s.window, k);
      }
    }
  }

  /** A walk leaves the frozen outputs of every block that is on the chain before and after it. */
  lemma FrozenWalked(d: Tables, v: View, dest: BlockId, a: BlockId, s: Setting, v2: View, ok: bool, x: BlockId, k: Key)
    requires MayWalk(d, v, dest, a, s) && Walked(d, v, dest, s, v2, ok)
    requires v2.latest in d.blocks && OnPath(d.blocks, d.root, x, v.latest) && OnPath(d.blocks, d.root, x, v2.latest)
    requires k in v.utxo && k.txid in d.blocks[x].txids
    requires IsFrozen(v.utxo[k], d.trunkHeight) && NeverFreed(s.env, k, d.trunkHeight)
    ensures Stays(v.utxo, v2.utxo, k)
  {
    hide Tracks, AfterRollBack, AfterBranches, BranchesOk, ChainEntries, Between, DependencyOrder, Path, IsFrozen,
         NeverFreed;
    if dest != v.latest {
      RollBackHeights(v, s.order, s.written);
      PendingNotHeld(d, v, x, k.txid);
      RollBackLeaves(d, v, s.order, s.written, k);
      if s.written && dest in d.blocks {
        var a2, undo, todo :| Between(d, v.latest, dest, a2, undo, todo) && WalkedOver(d, v, a2, undo, todo, s, v2, ok);
        RollBackKeeps(d, v, s.order, true);
        BranchesLeave(d, AfterRollBack(v, s.order, true), dest, a2, undo, todo, s, x, k);
      }
    }
  }

  /** A transaction of a block on the chain is not unconfirmed. */
  lemma PendingNotHeld(d: Tables, v: View, x: BlockId, txid: TxId)
    requires LedgerOk(d) && Tracks(d, v) && v.latest in d.blocks && OnPath(d.blocks, d.root, x, v.latest)
    requires txid in d.blocks[x].txids
    ensures forall tx | tx in v.unconfirmed :: tx.txid != txid
    ensures exists e :: e in ChainEntries(d, v.latest) && e.tx.txid == txid
  {
    hide Path, ChainEntries, EntriesOf, PendingEntries;
    var b := BlockOf(d, x);
    var i :| 0 <= i < |d.blocks[x].txids| && d.blocks[x].txids[i] == txid;
    var e := TxDone(b.txs[i]);
    assert e.tx.txid == txid && b.txs[i] in b.txs;
    InEntriesOf(b.txs, b.proposer, e);
    ChainStep(d, x);
    ChainEntriesPrefix(d, x, v.latest);
    assert e in ChainEntries(d, x) && e in ChainEntries(d, v.latest);
    forall tx | tx in v.unconfirmed
      ensures tx.txid != txid
    {
      PendingNotOnChain(d, v.latest, v.unconfirmed, e, tx);
    }
  }

  lemma BranchesLeave(d: Tables, v: View, dest: BlockId, a: BlockId, undo: seq<Block>, todo: seq<Block>, s: Setting,
                      x: BlockId, k: Key)
    requires Tracks(d, v) && v.unconfirmed == [] && Between(d, v.latest, dest, a, undo, todo) && LedgerOk(d)
    requires v.latest in d.blocks && AfterBranches(d, v, a, undo, todo, s).latest in d.blocks
    requires OnPath(d.blocks, d.root, x, v.latest)
    requires OnPath(d.blocks, d.root, x, AfterBranches(d, v, a, undo, todo, s).latest)
    requires k in v.utxo && k.txid in d.blocks[x].txids
    requires IsFrozen(v.utxo[k], d.trunkHeight) && NeverFreed(s.env, k, d.trunkHeight)
    ensures Stays(v.utxo, AfterBranches(d, v, a, undo, todo, s).utxo, k)
  {
    hide Tracks, UndoRun, TodoRun, UndoRunOk, TodoRunOk, Path, ChainEntries, BranchBelow, Undone, Done, LedgerOk,
         IsFrozen, NeverFreed;
    var n, u := |undo|, UndoRun(d, v, undo, s, |undo|);
    UndoRunHeights(d, v, a, undo, s, n);
    if UndoRunOk(d, v, undo, s, n) {
      UndoRunKeeps(d, v, a, undo, s, n);
      BranchLength(d, a, v.latest, undo, 0);
      assert u.latest == a;
      TodoRunMoves(d, u, dest, todo, s, |todo|);
      OnPathTransitive(d.blocks, d.root, x, AfterBranches(d, v, a, undo, todo, s).latest, dest);
      assert OnPath(d.blocks, d.root, x, a);
      UndoRunLeaves(d, v, a, x, undo, s, n, k);
      TodoRunLeaves(d, u, x, dest, todo, s, |todo|, k);
    } else {
      UndoRunLeaves(d, v, a, x, undo, s, n, k);
    }
  }

  // ---------------------------------------------------------------- runs of a node

  /** What the UTXO cache says of k during an event does not free it. */
  ghost predicate CacheAgrees(e: N.Event, k: Key, trunkHeight: nat) {
    match e
    case Walking(_, s, _) => NeverFreed(s.env, k, trunkHeight)
    case Submitted(_, o) => NotFreed(o.cached, k, trunkHeight)
    case Mined(_, env, _, _) => NeverFreed(env, k, trunkHeight)
    case Reposted(_, r, _) => NeverFreed(r.env, k, trunkHeight)
    case _ => true
  }

  /** An unspent output of a final block that is frozen stays in the table in every event. */
  lemma StepLeavesFrozen(n: N.Node, e: N.Event, n2: N.Node, x: BlockId, k: Key)
    requires N.NodeInv(n) && N.Step(n, e, n2) && Forward(e) && Final(n, x) && k.txid in n.d.blocks[x].txids
    requires k in n.v.utxo && IsFrozen(n.v.utxo[k], n.d.trunkHeight) && CacheAgrees(e, k, n.d.trunkHeight)
    ensures Stays(n.v.utxo, n2.v.utxo, k)
  {
    hide Path, IndexInv, Marked, AfterBlock, Branches.AfterTruncate, Accepts, Branches.Covered, AfterSubmit, AfterMine,
         AfterRepost, Walked, Repeats, SoundCaches, SpendsOnce, ChainEntries, DependencyOrder, NoRepeat, DistinctTxs,
         IsLowestCommonAncestor, IsFrozen, NeverFreed, NotFreed, Distinct, CleanAll, Matches, Replay;
    PendingNotHeld(n.d, n.v, x, k.txid);
    match e
    case Walking(dest, s, ok) =>
      var a := if dest in n.d.blocks then AncestorOf(n.d, n.v.latest, dest) else "";
      WalkRespects(n.d, n.v, dest, a, s, n2.v, ok);
      FrozenWalked(n.d, n.v, dest, a, s, n2.v, ok, x, k);
    case Submitted(tx, o) =>
      if tx.txid == k.txid {
        NotTwice(n.d, n.v, tx, o);
      } else {
        FrozenSubmitted(n.d, n.v, tx, o, k);
      }
    case Mined(id, env, unwritable, window) =>
      if id in n.d.blocks && n.d.blocks[id].preHash == n.v.latest {
        StoredBody(n.d, id);
        FrozenMined(n.d, n.v, BlockOf(n.d, id), env, unwritable, window, k);
      }
    case Reposted(id, r, window) =>
      if id in n.d.blocks && n.d.blocks[id].preHash == n.v.latest {
        StoredBody(n.d, id);
        ConflictsNotHeld(n.d, n.v, BlockOf(n.d, id), r, k.txid);
        FrozenReposted(n.d, n.v, BlockOf(n.d, id), r, window, k);
      }
    case _ =>
  }

  /** A transaction that is on the chain does not get in again. */
  lemma NotTwice(d: Tables, v: View, tx: Tx, o: Intake)
    requires Tracks(d, v) && N.MaySubmit(d, v, tx, o) && OnChain(d, v.latest, tx)
    ensures AfterSubmit(d, v, tx, o) == v
  {
    hide Distinct, CleanAll, Matches, Replay, ChainEntries, PendingEntries, Checks, Holds, Identifies, OnChain,
         CachedHere;
    SubmittedTwice(d, v, tx);
    if Enters(d, v, tx, o) {
      CachedHolds(v.utxo, o.cached, tx, d.trunkHeight);
    }
  }

  lemma ConflictsNotHeld(d: Tables, v: View, b: Block, r: Repost, txid: TxId)
    requires Playable(d, v.latest) && Separates(d, v, b, r) && forall tx | tx in v.unconfirmed :: tx.txid != txid
    requires Tracks(d, v)
    ensures forall tx | tx in r.conflicts :: tx.txid != txid
  {
    hide Distinct, CleanAll, Matches, Replay, ChainEntries, PendingEntries, Ordered, Unmined;
    var c, order := ChainEntries(d, v.latest), Remaining(v, r) + r.conflicts;
    forall tx | tx in r.conflicts
      ensures tx.txid != txid
    {
      assert tx in order;
      InOrder(c, v.unconfirmed, order, tx);
    }
  }

  lemma InOrder(c: seq<Entry>, unconfirmed: seq<Tx>, order: seq<Tx>, tx: Tx)
    requires Distinct(c + PendingEntries(order)) && tx in order
    requires SameEntries(c + PendingEntries(order), c + PendingEntries(unconfirmed))
    ensures tx in unconfirmed
  {
    var p, all := PendingEntries(order), c + PendingEntries(order);
    var j :| 0 <= j < |order| && order[j] == tx;
    assert all[|c| + j] == TxDone(tx) && TxDone(tx) in all;
    forall i | 0 <= i < |c|
      ensures c[i] != TxDone(tx)
    {
      assert all[i] == c[i];
    }
    assert TxDone(tx) in c + PendingEntries(unconfirmed);
    InPending(unconfirmed, TxDone(tx));
  }

  /** In every run without pruning walks, an unspent output of a block that is final stays in the table, as
      it is, as long as it is frozen and the cache does not say otherwise. */
  lemma {:induction false} RunLeavesFrozen(ns: seq<N.Node>, es: seq<N.Event>, i: nat, j: nat, x: BlockId, k: Key)
    requires N.Run(ns, es) && i <= j < |ns| && N.NodeInv(ns[0])
    requires Final(ns[i], x) && k.txid in ns[i].d.blocks[x].txids && k in ns[i].v.utxo
    requires forall m | i <= m < j ::
               && Forward(es[m]) && IsFrozen(ns[i].v.utxo[k], ns[m].d.trunkHeight)
               && CacheAgrees(es[m], k, ns[m].d.trunkHeight)
    ensures Stays(ns[i].v.utxo, ns[j].v.utxo, k)
    ensures Final(ns[j], x) && k.txid in ns[j].d.blocks[x].txids
    decreases j
  {
    hide N.Step, N.NodeInv, CacheAgrees, IsFrozen;
    if i < j {
      RunLeavesFrozen(ns, es, i, j - 1, x, k);
      N.RunKeeps(ns, es, j - 1);
      assert N.StepAtIndex(ns, es, j - 1);
      StepKeepsFinal(ns[j - 1], es[j - 1], ns[j], x);
      StepLeavesFrozen(ns[j - 1], es[j - 1], ns[j], x, k);
      StepKeepsBody(ns[j - 1], es[j - 1], ns[j], x);
    }
  }

  lemma StepKeepsBody(n: N.Node, e: N.Event, n2: N.Node, x: BlockId)
    requires N.NodeInv(n) && N.Step(n, e, n2) && x in n.d.blocks && x in n2.d.blocks
    ensures n2.d.blocks[x].txids == n.d.blocks[x].txids
  {
    hide Path, IndexInv, Marked, Recorded, Base, Accepts, Branches.Covered, AfterSubmit, AfterMine, AfterRepost, Walked,
         IsTree, TxsStored, Repeats, SoundCaches, SpendsOnce, ChainEntries, DependencyOrder, NoRepeat, DistinctTxs,
         Tracks;
    match e
    case Confirmed(b) =>
      if Accepts(n.d, b, false) {
        AcceptsOnStored(n.d, b);
      }
    case _ =>
  }
}
