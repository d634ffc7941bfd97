/** Walk: the unconfirmed transactions are rolled back, one branch is undone block by block and
    another one done. Wherever it stops, the table follows the block it stopped at exactly if the blocks
    on its chain fit on each other; when it arrives in step, the table is the replay exactly if the
    undone entries declared what they had taken. */
module Walks {
  import opened Types
  import opened Chain
  import opened Tables
  import opened Search
  import opened Utxo
  import opened Value
  import opened Replays
  import opened Unconfirmed
  import opened Steps

  /** The arguments of a walk, and what it meets: whether the batch of the roll back is written, what the
      checks depend on, and the blocks whose batches are not written. */
  datatype Setting = Setting(
    ledgerPrune: bool,
    order: seq<Tx>,
    written: bool,
    env: Env,
    unwritable: set<BlockId>,
    window: nat)

  // ---------------------------------------------------------------- entries between two blocks

  /** The entries of the blocks above a, up to id. */
  ghost function Above(d: Tables, a: BlockId, id: BlockId): seq<Entry>
    requires Playable(d, id) && id in d.blocks && OnPath(d.blocks, d.root, a, id)
  {
    ChainEntriesPrefix(d, a, id);
    ChainEntries(d, id)[|ChainEntries(d, a)|..]
  }

  lemma AboveSplits(d: Tables, a: BlockId, id: BlockId)
    requires Playable(d, id) && id in d.blocks && OnPath(d.blocks, d.root, a, id)
    ensures ChainEntries(d, id) == ChainEntries(d, a) + Above(d, a, id)
  {
    ChainEntriesPrefix(d, a, id);
  }

  lemma AboveSelf(d: Tables, id: BlockId)
    requires Playable(d, id) && id in d.blocks
    ensures OnPath(d.blocks, d.root, id, id) && Above(d, id, id) == []
  {
  }

  /** The block at height h on the chain of id, and the step from the one below it. */
  lemma StepAt(d: Tables, id: BlockId, h: nat)
    requires LedgerOk(d) && id in d.blocks && 0 < h <= d.blocks[id].height
    ensures var x, pre := Path(d.blocks, d.root, id)[h], Path(d.blocks, d.root, id)[h - 1];
            && x in d.blocks && pre in d.blocks && d.blocks[x].height == h && d.blocks[x].preHash == pre
            && OnPath(d.blocks, d.root, x, id) && OnPath(d.blocks, d.root, pre, id)
            && ChainEntries(d, x) == ChainEntries(d, pre) + BlockEntries(BlockOf(d, x))
            && Above(d, pre, id) == BlockEntries(BlockOf(d, x)) + Above(d, x, id)
  {
    hide BlockOf;
    var x, pre := Path(d.blocks, d.root, id)[h], Path(d.blocks, d.root, id)[h - 1];
    PathPrefix(d.blocks, d.root, id, h);
    PathPrefix(d.blocks, d.root, id, h - 1);
    PathLinked(d.blocks, d.root, id, h);
    ChainStep(d, x);
    AboveSplits(d, x, id);
    AboveSplits(d, pre, id);
  }

  // ---------------------------------------------------------------- undoing a branch

  /** All of the first n blocks can be undone. */
  ghost predicate UndoRunOk(d: Tables, v: View, undo: seq<Block>, s: Setting, n: nat)
    requires n <= |undo|
  {
    n == 0 || (UndoRunOk(d, v, undo, s, n - 1)
               && UndoOk(d, UndoRun(d, v, undo, s, n - 1), undo[n - 1], s.ledgerPrune, s.unwritable))
  }

  /** The state after up to n blocks have been undone, stopping at the first that cannot. */
  ghost function UndoRun(d: Tables, v: View, undo: seq<Block>, s: Setting, n: nat): View
    requires n <= |undo|
  {
    if n == 0 then v
    else
      var u := UndoRun(d, v, undo, s, n - 1);
      if UndoRunOk(d, v, undo, s, n - 1) then AfterUndo(d, u, undo[n - 1], s.ledgerPrune, s.unwritable, s.window)
      else u
  }

  /** A state with nothing unconfirmed, at a block above a, and the bodies of the blocks in between. */
  ghost predicate BranchBelow(d: Tables, a: BlockId, id: BlockId, bodies: seq<Block>) {
    && LedgerOk(d) && id in d.blocks && OnPath(d.blocks, d.root, a, id)
    && bodies == Bodies(d, Branch(d.blocks, d.root, id, d.blocks[a].height))
  }

  /** u is v with the entries es undone: the table, and how the totals have moved. */
  ghost predicate Undone(d: Tables, v: View, es: seq<Entry>, u: View)
    requires Playable(d, v.latest) && Playable(d, u.latest)
  {
    && u.utxo == RevertAll(v.utxo, es)
    && Drift(d, u) == Drift(d, v)
    && Gap(d, u) == if Total(es) != 0 then Drift(d, v) else Gap(d, v)
  }

  ghost function BlockAt(d: Tables, id: BlockId, h: nat): BlockId
    requires IsTree(d.blocks, d.root) && id in d.blocks && h <= d.blocks[id].height
  {
    Path(d.blocks, d.root, id)[h]
  }

  lemma BranchLength(d: Tables, a: BlockId, id: BlockId, bodies: seq<Block>, i: nat)
    requires BranchBelow(d, a, id, bodies)
    ensures |bodies| == d.blocks[id].height - d.blocks[a].height
    ensures BlockAt(d, id, d.blocks[a].height) == a && BlockAt(d, id, d.blocks[id].height) == id
    ensures i < |bodies| ==>
              BlockAt(d, id, d.blocks[id].height - i) in d.blocks
              && bodies[i] == BlockOf(d, BlockAt(d, id, d.blocks[id].height - i))
  {
    if i < |bodies| {
      PathPrefix(d.blocks, d.root, id, d.blocks[id].height - i);
    }
  }

  lemma {:induction false} UndoRunKeeps(d: Tables, v: View, a: BlockId, undo: seq<Block>, s: Setting, n: nat)
    requires Tracks(d, v) && v.unconfirmed == [] && BranchBelow(d, a, v.latest, undo) && n <= |undo|
    ensures var u := UndoRun(d, v, undo, s, n);
            && Tracks(d, u) && u.unconfirmed == []
            && |undo| == d.blocks[v.latest].height - d.blocks[a].height
            && (UndoRunOk(d, v, undo, s, n) ==>
                  && u.latest == BlockAt(d, v.latest, d.blocks[v.latest].height - n)
                  && OnPath(d.blocks, d.root, u.latest, v.latest)
                  && Undone(d, v, Above(d, u.latest, v.latest), u))
  {
    hide Tracks, Undone, AfterUndo, UndoOk, BranchBelow, LedgerOk, Path, ChainEntries;
    BranchParts(d, a, v.latest, undo);
    BranchLength(d, a, v.latest, undo, n);
    if n == 0 {
      UndoNone(d, v);
    } else {
      UndoRunKeeps(d, v, a, undo, s, n - 1);
      if UndoRunOk(d, v, undo, s, n - 1) {
        BranchLength(d, a, v.latest, undo, n - 1);
        UndoOneMore(d, v, UndoRun(d, v, undo, s, n - 1), d.blocks[v.latest].height - n + 1, s);
      }
    }
  }

  lemma BranchParts(d: Tables, a: BlockId, id: BlockId, bodies: seq<Block>)
    requires BranchBelow(d, a, id, bodies)
    ensures LedgerOk(d) && IsTree(d.blocks, d.root) && id in d.blocks && OnPath(d.blocks, d.root, a, id)
            && a in d.blocks
    ensures Playable(d, id)
  {
  }

  lemma UndoNone(d: Tables, v: View)
    requires Tracks(d, v) && v.latest in d.blocks
    ensures Playable(d, v.latest) && OnPath(d.blocks, d.root, v.latest, v.latest)
    ensures Undone(d, v, Above(d, v.latest, v.latest), v)
  {
    AboveSelf(d, v.latest);
  }

  lemma UndoOneMore(d: Tables, v: View, u: View, h: nat, s: Setting)
    requires LedgerOk(d) && Tracks(d, v) && v.latest in d.blocks && 0 < h <= d.blocks[v.latest].height
    requires Tracks(d, u) && u.unconfirmed == [] && u.latest == BlockAt(d, v.latest, h)
    requires OnPath(d.blocks, d.root, u.latest, v.latest) && Undone(d, v, Above(d, u.latest, v.latest), u)
    ensures u.latest in d.blocks
    ensures var b := BlockOf(d, u.latest);
            var u2 := AfterUndo(d, u, b, s.ledgerPrune, s.unwritable, s.window);
            && Tracks(d, u2) && u2.unconfirmed == []
            && (UndoOk(d, u, b, s.ledgerPrune, s.unwritable) ==>
                  && u2.latest == BlockAt(d, v.latest, h - 1)
                  && OnPath(d.blocks, d.root, u2.latest, v.latest)
                  && Undone(d, v, Above(d, u2.latest, v.latest), u2))
  {
    hide RevertAll, Total, CleanAll, Distinct, Matches, Replay, EntriesOf, ChainEntries, Entries;
    StepAt(d, v.latest, h);
    var b, es := BlockOf(d, u.latest), Above(d, u.latest, v.latest);
    UndoKeeps(d, u, b, s.ledgerPrune, s.unwritable, s.window);
    RevertAllConcat(v.utxo, BlockEntries(b), es);
    TotalConcat(BlockEntries(b), es);
  }

  // ---------------------------------------------------------------- doing a branch

  /** All of the first n blocks, counted from the end of todo, can be done. */
  ghost predicate TodoRunOk(d: Tables, v: View, todo: seq<Block>, s: Setting, n: nat)
    requires n <= |todo|
  {
    n == 0 || (TodoRunOk(d, v, todo, s, n - 1)
               && TodoOk(d, TodoRun(d, v, todo, s, n - 1), todo[|todo| - n], s.env, s.unwritable))
  }

  /** The state after up to n blocks have been done, stopping at the first that cannot. */
  ghost function TodoRun(d: Tables, v: View, todo: seq<Block>, s: Setting, n: nat): View
    requires n <= |todo|
  {
    if n == 0 then v
    else
      var u := TodoRun(d, v, todo, s, n - 1);
      if TodoRunOk(d, v, todo, s, n - 1) then AfterTodo(d, u, todo[|todo| - n], s.env, s.unwritable, s.window)
      else u
  }

  /** u is v with the entries es done on top. */
  ghost predicate Done(d: Tables, v: View, es: seq<Entry>, u: View)
    requires Playable(d, v.latest) && Playable(d, u.latest)
  {
    && u.utxo == ApplyAll(v.utxo, es)
    && Drift(d, u) == Drift(d, v)
    && Gap(d, u) == if Total(es) != 0 then Drift(d, v) else Gap(d, v)
  }

  /** The entries above a on the chain of dest, up to height h. */
  ghost function AboveUpTo(d: Tables, a: BlockId, dest: BlockId, h: nat): seq<Entry>
    requires LedgerOk(d) && dest in d.blocks && OnPath(d.blocks, d.root, a, dest)
    requires d.blocks[a].height <= h <= d.blocks[dest].height
  {
    AncestorAt(d, a, dest, h);
    Above(d, a, BlockAt(d, dest, h))
  }

  lemma AncestorAt(d: Tables, a: BlockId, dest: BlockId, h: nat)
    requires LedgerOk(d) && dest in d.blocks && OnPath(d.blocks, d.root, a, dest)
    requires d.blocks[a].height <= h <= d.blocks[dest].height
    ensures BlockAt(d, dest, h) in d.blocks && d.blocks[BlockAt(d, dest, h)].height == h
    ensures OnPath(d.blocks, d.root, a, BlockAt(d, dest, h))
  {
    PathPrefix(d.blocks, d.root, dest, h);
  }

  lemma AboveUpToStep(d: Tables, a: BlockId, dest: BlockId, h: nat)
    requires LedgerOk(d) && dest in d.blocks && OnPath(d.blocks, d.root, a, dest)
    requires d.blocks[a].height < h <= d.blocks[dest].height
    ensures var x, pre := BlockAt(d, dest, h), BlockAt(d, dest, h - 1);
            && x in d.blocks && d.blocks[x].preHash == pre
            && AboveUpTo(d, a, dest, h) == AboveUpTo(d, a, dest, h - 1) + BlockEntries(BlockOf(d, x))
  {
    hide EntriesOf;
    AncestorAt(d, a, dest, h);
    AncestorAt(d, a, dest, h - 1);
    StepAt(d, dest, h);
    AboveSplits(d, a, BlockAt(d, dest, h));
    AboveSplits(d, a, BlockAt(d, dest, h - 1));
  }

  /** u has come from v up the chain of dest by doing blocks. */
  ghost predicate Rode(d: Tables, v: View, dest: BlockId, u: View) {
    && LedgerOk(d) && v.latest in d.blocks && u.latest in d.blocks && dest in d.blocks && u.unconfirmed == []
    && OnPath(d.blocks, d.root, v.latest, u.latest) && OnPath(d.blocks, d.root, u.latest, dest)
    && u.utxo == ApplyAll(v.utxo, Above(d, v.latest, u.latest))
  }

  /** Wherever it stops, doing a branch has done whole blocks; as long as it goes on, the totals move
      with them. */
  lemma {:induction false} TodoRunMoves(d: Tables, v: View, dest: BlockId, todo: seq<Block>, s: Setting, n: nat)
    requires v.unconfirmed == [] && v.latest in d.blocks && BranchBelow(d, v.latest, dest, todo) && n <= |todo|
    ensures var u := TodoRun(d, v, todo, s, n);
            && Rode(d, v, dest, u) && Playable(d, u.latest)
            && |todo| == d.blocks[dest].height - d.blocks[v.latest].height
            && (TodoRunOk(d, v, todo, s, n) ==>
                  && u.latest == BlockAt(d, dest, d.blocks[v.latest].height + n)
                  && Done(d, v, AboveUpTo(d, v.latest, dest, d.blocks[v.latest].height + n), u))
  {
    hide Done, Rode, AfterTodo, TodoOk, BranchBelow, LedgerOk, Path, ChainEntries, AboveUpTo;
    BranchParts(d, v.latest, dest, todo);
    BranchLength(d, v.latest, dest, todo, |todo| - n);
    var h := d.blocks[v.latest].height;
    if n == 0 {
      DoneNone(d, v, dest);
    } else {
      TodoRunMoves(d, v, dest, todo, s, n - 1);
      if TodoRunOk(d, v, todo, s, n - 1) {
        DoneOneMore(d, v, TodoRun(d, v, todo, s, n - 1), dest, h + n, todo[|todo| - n], s);
      }
    }
  }

  lemma DoneNone(d: Tables, v: View, dest: BlockId)
    requires LedgerOk(d) && v.unconfirmed == [] && v.latest in d.blocks && dest in d.blocks
             && OnPath(d.blocks, d.root, v.latest, dest)
    ensures Done(d, v, AboveUpTo(d, v.latest, dest, d.blocks[v.latest].height), v) && Rode(d, v, dest, v)
    ensures Playable(d, v.latest)
  {
    AncestorAt(d, v.latest, dest, d.blocks[v.latest].height);
    AboveSelf(d, v.latest);
  }

  lemma DoneOneMore(d: Tables, v: View, u: View, dest: BlockId, h: nat, b: Block, s: Setting)
    requires LedgerOk(d) && v.latest in d.blocks && dest in d.blocks && OnPath(d.blocks, d.root, v.latest, dest)
    requires d.blocks[v.latest].height < h <= d.blocks[dest].height
    requires Rode(d, v, dest, u) && Playable(d, u.latest) && u.latest == BlockAt(d, dest, h - 1)
    requires Done(d, v, AboveUpTo(d, v.latest, dest, h - 1), u)
    requires BlockAt(d, dest, h) in d.blocks && b == BlockOf(d, BlockAt(d, dest, h))
    ensures var u2 := AfterTodo(d, u, b, s.env, s.unwritable, s.window);
            && Rode(d, v, dest, u2) && Playable(d, u2.latest)
            && (TodoOk(d, u, b, s.env, s.unwritable) ==>
                  && u2.latest == BlockAt(d, dest, h)
                  && Done(d, v, AboveUpTo(d, v.latest, dest, h), u2))
  {
    hide ApplyAll, Total, EntriesOf, ChainEntries, Entries, Refused, AfterTodo, Drift, Gap, Path;
    NextStored(d, v, u, dest, h);
    var es := AboveUpTo(d, v.latest, dest, h - 1);
    TodoMoves(d, u, b, s.env, s.unwritable, s.window);
    ApplyAllConcat(v.utxo, es, BlockEntries(b));
    TotalConcat(es, BlockEntries(b));
  }

  lemma NextStored(d: Tables, v: View, u: View, dest: BlockId, h: nat)
    requires LedgerOk(d) && v.latest in d.blocks && dest in d.blocks && OnPath(d.blocks, d.root, v.latest, dest)
    requires d.blocks[v.latest].height < h <= d.blocks[dest].height && u.latest == BlockAt(d, dest, h - 1)
    ensures var x := BlockAt(d, dest, h);
            && x in d.blocks && Stored(d, u, BlockOf(d, x)) && BlockOf(d, x).id == x
            && OnPath(d.blocks, d.root, v.latest, x) && OnPath(d.blocks, d.root, x, dest)
            && AboveUpTo(d, v.latest, dest, h) == Above(d, v.latest, x)
            && AboveUpTo(d, v.latest, dest, h) == AboveUpTo(d, v.latest, dest, h - 1) + BlockEntries(BlockOf(d, x))
  {
    hide EntriesOf, ChainEntries;
    AboveUpToStep(d, v.latest, dest, h);
    AncestorAt(d, v.latest, dest, h);
    PathPrefix(d.blocks, d.root, dest, h);
    StoredBody(d, BlockAt(d, dest, h));
  }

  /** Every block on the chain of id fits on what the ones below it leave. */
  ghost predicate ChainFits(d: Tables, id: BlockId)
    requires Playable(d, id)
    decreases if id == "" then 0 else d.blocks[id].height + 1
  {
    id == "" ||
    (assert TreeNode(d.blocks, d.root, id);
     var pre := d.blocks[id].preHash;
     ChainFits(d, pre) && Fits(Replay(ChainEntries(d, pre)), BlockEntries(BlockOf(d, id))))
  }

  /** No block on the chain of id spends an output twice. */
  ghost predicate SpendsOnce(d: Tables, id: BlockId)
    requires Playable(d, id)
    decreases if id == "" then 0 else d.blocks[id].height + 1
  {
    id == "" ||
    (assert TreeNode(d.blocks, d.root, id);
     SpendsOnce(d, d.blocks[id].preHash) && NoDoubleSpend(BlockEntries(BlockOf(d, id))))
  }

  lemma {:induction false} SpendsOnceBelow(d: Tables, x: BlockId, id: BlockId)
    requires Playable(d, id) && id in d.blocks && x in d.blocks && OnPath(d.blocks, d.root, x, id) && SpendsOnce(d, id)
    ensures SpendsOnce(d, x)
    decreases d.blocks[id].height
  {
    hide EntriesOf, NoDoubleSpend;
    if x != id {
      assert TreeNode(d.blocks, d.root, id);
      var pre := d.blocks[id].preHash;
      assert Path(d.blocks, d.root, id) == (if id == d.root then [id] else Path(d.blocks, d.root, pre) + [id]);
      SpendsOnceBelow(d, x, pre);
    }
  }

  /** A chain replays cleanly if and only if its blocks fit; then none spends an output twice. */
  lemma {:induction false} ChainCleanIff(d: Tables, id: BlockId)
    requires LedgerOk(d) && Playable(d, id)
    ensures CleanAll(ChainEntries(d, id)) <==> ChainFits(d, id)
    ensures ChainFits(d, id) ==> SpendsOnce(d, id)
    decreases if id == "" then 0 else d.blocks[id].height + 1
  {
    hide EntriesOf, Replay, CleanAll, Distinct, SuppliedAll, NoDoubleSpend;
    if id == "" {
      NothingClean();
    } else {
      assert TreeNode(d.blocks, d.root, id);
      var pre, b := d.blocks[id].preHash, BlockOf(d, id);
      ChainStep(d, id);
      ChainCleanIff(d, pre);
      var c := ChainEntries(d, pre);
      assert (c + BlockEntries(b))[..|c|] == c;
      if CleanAll(c + BlockEntries(b)) {
        CleanAllPrefix(c + BlockEntries(b), |c|);
      }
      if CleanAll(c) {
        FitsIff(c, BlockEntries(b), Replay(c));
      }
    }
  }

  lemma NothingClean()
    ensures CleanAll([])
  {
  }

  /** Doing a branch from a table in step stays in step if and only if the chain done fits. */
  lemma RodeTracks(d: Tables, v: View, dest: BlockId, u: View)
    requires Tracks(d, v) && v.unconfirmed == [] && Rode(d, v, dest, u)
    ensures Playable(d, u.latest) && (Tracks(d, u) <==> ChainFits(d, u.latest))
  {
    hide Distinct, CleanAll, Matches, Replay, ApplyAll, ChainEntries, PendingEntries, Path, IsTree;
    var c, es := ChainEntries(d, v.latest), Above(d, v.latest, u.latest);
    AboveSplits(d, v.latest, u.latest);
    NothingPending(d, v.latest);
    NothingPending(d, u.latest);
    ChainDistinct(d, u.latest);
    ChainCleanIff(d, u.latest);
    if CleanAll(c + es) {
      ApplyAllTracks(c, es, v.utxo);
    }
  }

  lemma TracksFits(d: Tables, v: View)
    requires LedgerOk(d) && Tracks(d, v)
    ensures Playable(d, v.latest) && ChainFits(d, v.latest) && SpendsOnce(d, v.latest)
  {
    hide Distinct, Matches, Replay, ChainEntries, PendingEntries, IsTree;
    var c, es := ChainEntries(d, v.latest), Entries(d, v);
    assert es[..|c|] == c;
    CleanAllPrefix(es, |c|);
    ChainCleanIff(d, v.latest);
  }

  /** For every block the UTXO cache holds nothing but what is in the replay below it or made in it. */
  ghost predicate SoundCaches(d: Tables, env: Env)
    requires LedgerOk(d)
  {
    forall id {:trigger SoundAt(d, env, id)} | id in d.blocks :: SoundAt(d, env, id)
  }

  ghost predicate SoundAt(d: Tables, env: Env, id: BlockId)
    requires LedgerOk(d) && id in d.blocks
  {
    ChainStep(d, id);
    Sound(Replay(ChainEntries(d, d.blocks[id].preHash)), BlockOf(d, id), {}, env)
  }

  lemma SoundMatches(t: Table, u: Table, b: Block, done: set<Tx>, env: Env)
    requires Sound(t, b, done, env) && Matches(t, u)
    ensures Sound(u, b, done, env)
  {
    hide PlayEntries, Add;
    forall n: nat, k | n < |b.txs| && k in env.caches(b.id, n)
      ensures Supplied(u, PlayEntries(b.txs[..n], b.proposer, done), k, env.caches(b.id, n)[k].amount)
    {
      assert Supplied(t, PlayEntries(b.txs[..n], b.proposer, done), k, env.caches(b.id, n)[k].amount);
    }
  }

  /** With sound caches, doing a branch stays in step if and only if no block done spends an output
      twice. */
  lemma {:induction false} TodoRunSound(d: Tables, v: View, dest: BlockId, todo: seq<Block>, s: Setting, n: nat)
    requires Tracks(d, v) && v.unconfirmed == [] && v.latest in d.blocks && BranchBelow(d, v.latest, dest, todo)
    requires n <= |todo| && LedgerOk(d) && SoundCaches(d, s.env)
    ensures var u := TodoRun(d, v, todo, s, n); Playable(d, u.latest) && (Tracks(d, u) <==> SpendsOnce(d, u.latest))
  {
    hide Tracks, AfterTodo, TodoOk, BranchBelow, LedgerOk, Path, SpendsOnce, SoundCaches, ChainFits, Rode, Done;
    hide ChainEntries, AboveUpTo;
    var u := TodoRun(d, v, todo, s, n);
    TodoRunMoves(d, v, dest, todo, s, n);
    RodeTracks(d, v, dest, u);
    if n == 0 {
      TracksFits(d, v);
    } else {
      var w := TodoRun(d, v, todo, s, n - 1);
      TodoRunSound(d, v, dest, todo, s, n - 1);
      if TodoRunOk(d, v, todo, s, n - 1) {
        TodoRunMoves(d, v, dest, todo, s, n - 1);
        BranchParts(d, v.latest, dest, todo);
        BranchLength(d, v.latest, dest, todo, |todo| - n);
        RodeTracks(d, v, dest, w);
        SoundOneMore(d, v, w, dest, d.blocks[v.latest].height + n, todo[|todo| - n], s);
      }
    }
  }

  lemma SoundOneMore(d: Tables, v: View, u: View, dest: BlockId, h: nat, b: Block, s: Setting)
    requires LedgerOk(d) && v.latest in d.blocks && dest in d.blocks && OnPath(d.blocks, d.root, v.latest, dest)
    requires d.blocks[v.latest].height < h <= d.blocks[dest].height && SoundCaches(d, s.env)
    requires Rode(d, v, dest, u) && u.latest == BlockAt(d, dest, h - 1)
    requires Playable(d, u.latest) && (Tracks(d, u) <==> SpendsOnce(d, u.latest))
    requires Tracks(d, u) <==> ChainFits(d, u.latest)
    requires BlockAt(d, dest, h) in d.blocks && b == BlockOf(d, BlockAt(d, dest, h))
    ensures var u2 := AfterTodo(d, u, b, s.env, s.unwritable, s.window);
            && Playable(d, u2.latest)
            && ((Tracks(d, u2) <==> ChainFits(d, u2.latest)) ==> (Tracks(d, u2) <==> SpendsOnce(d, u2.latest)))
  {
    hide Replay, ApplyAll, Total, EntriesOf, ChainEntries, Refused, AfterTodo, Drift, Gap, Path, Fits, Sound, Tracks;
    hide NoDoubleSpend, TodoOk;
    NextStored(d, v, u, dest, h);
    var u2 := AfterTodo(d, u, b, s.env, s.unwritable, s.window);
    TodoMoves(d, u, b, s.env, s.unwritable, s.window);
    if TodoOk(d, u, b, s.env, s.unwritable) {
      if Tracks(d, u) {
        assert SoundAt(d, s.env, b.id);
        SoundHere(d, u, b, s.env);
        TodoKeeps(d, u, b, s.env, s.unwritable, s.window);
      }
    } else {
      SameTracks(d, u, u2);
    }
  }

  lemma SoundHere(d: Tables, u: View, b: Block, env: Env)
    requires Stored(d, u, b) && Tracks(d, u) && u.unconfirmed == [] && SoundAt(d, env, b.id)
    ensures Sound(u.utxo, b, {}, env)
  {
    hide Sound, Replay, CleanAll, Distinct;
    NothingPending(d, u.latest);
    SoundMatches(Replay(ChainEntries(d, u.latest)), u.utxo, b, {}, env);
  }

  lemma StoredBody(d: Tables, id: BlockId)
    requires LedgerOk(d) && id in d.blocks
    ensures BlockOf(d, id).id == id && BlockOf(d, id) == BlockOf(d, BlockOf(d, id).id)
  {
  }

  // ---------------------------------------------------------------- the whole walk

  /** What a walk to dest over the ancestor a leaves, after the unconfirmed transactions are gone. */
  ghost function AfterBranches(d: Tables, v: View, a: BlockId, undo: seq<Block>, todo: seq<Block>, s: Setting): View {
    var u := UndoRun(d, v, undo, s, |undo|);
    if UndoRunOk(d, v, undo, s, |undo|) then TodoRun(d, u, todo, s, |todo|) else u
  }

  ghost predicate BranchesOk(d: Tables, v: View, undo: seq<Block>, todo: seq<Block>, s: Setting) {
    && UndoRunOk(d, v, undo, s, |undo|)
    && TodoRunOk(d, UndoRun(d, v, undo, s, |undo|), todo, s, |todo|)
  }

  /** a is the lowest common ancestor, and undo and todo are the branches hanging below it. */
  ghost predicate Between(d: Tables, cur: BlockId, dest: BlockId, a: BlockId, undo: seq<Block>, todo: seq<Block>) {
    && LedgerOk(d) && cur in d.blocks && dest in d.blocks
    && IsLowestCommonAncestor(d.blocks, d.root, cur, dest, a)
    && BranchBelow(d, a, cur, undo) && BranchBelow(d, a, dest, todo)
  }

  /** The entries that a walk undoes: those of the branch it leaves, and the unconfirmed ones. */
  ghost function Left(d: Tables, v: View, a: BlockId, order: seq<Tx>): seq<Entry>
    requires Playable(d, v.latest) && v.latest in d.blocks && OnPath(d.blocks, d.root, a, v.latest)
  {
    Above(d, a, v.latest) + PendingEntries(order)
  }

  /** Every output below the fork that is unspent on the destination's chain, and was spent by what the
      walk undoes, had been declared with its frozen height. */
  ghost predicate Honest(d: Tables, v: View, a: BlockId, dest: BlockId, order: seq<Tx>)
    requires Playable(d, v.latest) && v.latest in d.blocks && OnPath(d.blocks, d.root, a, v.latest)
    requires dest in d.blocks && a in d.blocks
  {
    var below := Replay(ChainEntries(d, a));
    forall k {:trigger DeclaredBy(Left(d, v, a, order), k)} | k in below && k in Replay(ChainEntries(d, dest)) ::
      DeclaredBy(Left(d, v, a, order), k).Some? ==> DeclaredBy(Left(d, v, a, order), k).value == below[k]
  }

  /** A walk from v after the roll back: wherever it stops, it is in step exactly if the chain fits, or,
      with sound caches, if no block of it spends an output twice; when it arrives, the table is what
      undoing and doing the two branches makes of the old one. */
  lemma BranchesKeep(d: Tables, v: View, dest: BlockId, a: BlockId, undo: seq<Block>, todo: seq<Block>, s: Setting)
    requires Tracks(d, v) && v.unconfirmed == [] && Between(d, v.latest, dest, a, undo, todo)
    ensures var v2 := AfterBranches(d, v, a, undo, todo, s);
            && v2.unconfirmed == [] && Playable(d, v2.latest) && (Tracks(d, v2) <==> ChainFits(d, v2.latest))
            && (SoundCaches(d, s.env) ==> (Tracks(d, v2) <==> SpendsOnce(d, v2.latest)))
            && (Tracks(d, v2) || (v2.latest in d.blocks && OnPath(d.blocks, d.root, v2.latest, dest)))
    ensures BranchesOk(d, v, undo, todo, s) ==>
              var v2 := AfterBranches(d, v, a, undo, todo, s);
              && v2.latest == dest
              && v2.utxo == ApplyAll(RevertAll(v.utxo, Above(d, a, v.latest)), Above(d, a, dest))
              && Drift(d, v2) == Drift(d, v)
              && Gap(d, v2) == if Total(Above(d, a, v.latest)) != 0 || Total(Above(d, a, dest)) != 0
                               then Drift(d, v) else Gap(d, v)
  {
    hide Tracks, UndoRun, TodoRun, UndoRunOk, TodoRunOk, Path, ChainEntries, ApplyAll, RevertAll, Total, AboveUpTo,
         BranchBelow, ChainFits, SpendsOnce, SoundCaches;
    hide Above, Drift, Gap;
    BranchLength(d, a, v.latest, undo, 0);
    BranchLength(d, a, dest, todo, 0);
    UndoRunKeeps(d, v, a, undo, s, |undo|);
    var u := UndoRun(d, v, undo, s, |undo|);
    if UndoRunOk(d, v, undo, s, |undo|) {
      TodoRunMoves(d, u, dest, todo, s, |todo|);
      RodeTracks(d, u, dest, TodoRun(d, u, todo, s, |todo|));
      AboveUpToTop(d, a, dest);
      if SoundCaches(d, s.env) {
        TodoRunSound(d, u, dest, todo, s, |todo|);
      }
    } else {
      TracksFits(d, u);
    }
  }

  lemma AboveUpToTop(d: Tables, a: BlockId, dest: BlockId)
    requires LedgerOk(d) && dest in d.blocks && OnPath(d.blocks, d.root, a, dest)
    ensures AboveUpTo(d, a, dest, d.blocks[dest].height) == Above(d, a, dest)
  {
  }

  /** One call of Walk. */
  ghost predicate Walked(d: Tables, v: View, dest: BlockId, s: Setting, v2: View, ok: bool) {
    if dest == v.latest then v2 == v && ok
    else if !s.written || v.latest !in d.blocks || dest !in d.blocks then
      v2 == AfterRollBack(v, s.order, s.written) && !ok
    else
      exists a, undo, todo :: Between(d, v.latest, dest, a, undo, todo) && WalkedOver(d, v, a, undo, todo, s, v2, ok)
  }

  ghost predicate WalkedOver(d: Tables, v: View, a: BlockId, undo: seq<Block>, todo: seq<Block>, s: Setting,
                             v2: View, ok: bool) {
    var r := AfterRollBack(v, s.order, true);
    v2 == AfterBranches(d, r, a, undo, todo, s) && ok == BranchesOk(d, r, undo, todo, s)
  }

  /** Whatever happens to it, a walk leaves a table that follows the block it stopped at if and only if
      the blocks on that chain fit; with sound caches, if and only if none of them spends an output
      twice, so that a walk to a chain without such blocks is in step wherever it stops. When it arrives
      there are no unconfirmed transactions, the in-memory total is off by as much as before, the
      recorded total is off by as much if the walk wrote it, and a table in step is exact if and only if
      the undone entries declared what they had taken. */
  lemma WalkKeeps(d: Tables, v: View, dest: BlockId, a: BlockId, s: Setting, v2: View, ok: bool)
    requires LedgerOk(d) && Tracks(d, v) && DependencyOrder(ChainEntries(d, v.latest), v.unconfirmed, s.order)
    requires Walked(d, v, dest, s, v2, ok)
    requires v.latest in d.blocks && dest in d.blocks ==> IsLowestCommonAncestor(d.blocks, d.root, v.latest, dest, a)
    ensures Playable(d, v2.latest) && (Tracks(d, v2) <==> ChainFits(d, v2.latest))
    ensures SoundCaches(d, s.env) ==> (Tracks(d, v2) <==> SpendsOnce(d, v2.latest))
    ensures SoundCaches(d, s.env) && dest in d.blocks && SpendsOnce(d, dest) ==> Tracks(d, v2)
    ensures ok ==> v2.latest == dest && Drift(d, v2) == Drift(d, v)
    ensures ok && dest != v.latest ==>
              && v.latest in d.blocks && dest in d.blocks && v2.unconfirmed == []
              && (Exact(d, v) && Tracks(d, v2) ==> (Exact(d, v2) <==> Honest(d, v, a, dest, s.order)))
              && Gap(d, v2) == if Total(Left(d, v, a, s.order)) != 0 || Total(Above(d, a, dest)) != 0
                               then Drift(d, v) else Gap(d, v)
  {
    hide Tracks, Exact, Honest, AfterBranches, AfterRollBack, BranchesOk, Path, ChainEntries, PendingEntries, Between;
    hide DependencyOrder, Total, Left, ChainFits, SpendsOnce, SoundCaches;
    TracksFits(d, v);
    if dest != v.latest {
      RollBackKeeps(d, v, s.order, s.written);
      RollBackStays(v, s.order, s.written);
      if s.written && v.latest in d.blocks && dest in d.blocks {
        var a2, undo, todo :| Between(d, v.latest, dest, a2, undo, todo) && WalkedOver(d, v, a2, undo, todo, s, v2, ok);
        BetweenUnique(d, v.latest, dest, a2, undo, todo, a);
        WalkOverKeeps(d, v, dest, a, undo, todo, s, v2, ok);
      }
    }
  }

  lemma RollBackStays(v: View, order: seq<Tx>, written: bool)
    ensures AfterRollBack(v, order, written).latest == v.latest
    ensures written ==> AfterRollBack(v, order, written).unconfirmed == []
  {
  }

  lemma BetweenUnique(d: Tables, cur: BlockId, dest: BlockId, a: BlockId, undo: seq<Block>, todo: seq<Block>,
                      b: BlockId)
    requires Between(d, cur, dest, a, undo, todo) && IsLowestCommonAncestor(d.blocks, d.root, cur, dest, b)
    ensures a == b
  {
    LowestCommonAncestorUnique(d.blocks, d.root, cur, dest, a, b);
  }

  lemma WalkOverKeeps(d: Tables, v: View, dest: BlockId, a: BlockId, undo: seq<Block>, todo: seq<Block>, s: Setting,
                      v2: View, ok: bool)
    requires LedgerOk(d) && Tracks(d, v) && DependencyOrder(ChainEntries(d, v.latest), v.unconfirmed, s.order)
    requires Between(d, v.latest, dest, a, undo, todo) && WalkedOver(d, v, a, undo, todo, s, v2, ok)
    ensures Playable(d, v2.latest) && (Tracks(d, v2) <==> ChainFits(d, v2.latest))
    ensures SoundCaches(d, s.env) ==> (Tracks(d, v2) <==> SpendsOnce(d, v2.latest))
    ensures SoundCaches(d, s.env) && dest in d.blocks && SpendsOnce(d, dest) ==> Tracks(d, v2)
    ensures ok ==>
              && v2.latest == dest && Drift(d, v2) == Drift(d, v) && v2.unconfirmed == []
              && OnPath(d.blocks, d.root, a, v.latest) && OnPath(d.blocks, d.root, a, dest)
              && (Exact(d, v) && Tracks(d, v2) ==> (Exact(d, v2) <==> Honest(d, v, a, dest, s.order)))
              && Gap(d, v2) == if Total(Left(d, v, a, s.order)) != 0 || Total(Above(d, a, dest)) != 0
                               then Drift(d, v) else Gap(d, v)
  {
    hide Tracks, Exact, Honest, AfterBranches, AfterRollBack, BranchesOk, Path, ChainEntries, PendingEntries,
         BranchBelow;
    hide DependencyOrder, Total, ApplyAll, RevertAll, Above, ChainFits, SpendsOnce, SoundCaches;
    var r := AfterRollBack(v, s.order, true);
    RollBackKeeps(d, v, s.order, true);
    RollBackStays(v, s.order, true);
    BranchesKeep(d, r, dest, a, undo, todo, s);
    if SoundCaches(d, s.env) && SpendsOnce(d, dest) && !Tracks(d, v2) {
      SpendsOnceBelow(d, v2.latest, dest);
    }
    if ok {
      var p := PendingEntries(s.order);
      RevertAllConcat(v.utxo, Above(d, a, v.latest), p);
      TotalConcat(Above(d, a, v.latest), p);
      if Exact(d, v) && Tracks(d, v2) {
        ArrivedExact(d, v, dest, a, s.order, v2);
      }
    }
  }

  lemma ArrivedExact(d: Tables, v: View, dest: BlockId, a: BlockId, order: seq<Tx>, v2: View)
    requires LedgerOk(d) && Tracks(d, v) && Exact(d, v)
             && DependencyOrder(ChainEntries(d, v.latest), v.unconfirmed, order)
    requires v.latest in d.blocks && dest in d.blocks
    requires OnPath(d.blocks, d.root, a, v.latest) && OnPath(d.blocks, d.root, a, dest)
    requires Tracks(d, v2) && v2.latest == dest && v2.unconfirmed == []
    requires v2.utxo == ApplyAll(RevertAll(v.utxo, Left(d, v, a, order)), Above(d, a, dest))
    ensures Exact(d, v2) <==> Honest(d, v, a, dest, order)
  {
    hide Distinct, CleanAll, Matches, Replay, ApplyAll, RevertAll, ChainEntries, PendingEntries, DeclaredBy, Ordered,
         SameEntries;
    var c := ChainEntries(d, a);
    AnyOrder(ChainEntries(d, v.latest), v.unconfirmed, order);
    AboveSplits(d, a, v.latest);
    AboveSplits(d, a, dest);
    NothingPending(d, dest);
    assert ChainEntries(d, v.latest) + PendingEntries(order) == c + Left(d, v, a, order);
    BranchSwitchExact(c, Left(d, v, a, order), Above(d, a, dest));
  }

  // ---------------------------------------------------------------- when a walk arrives

  /** Every transaction of b passes the input check when its turn comes on top of c, also without help
      from the UTXO cache. */
  ghost predicate Passes(c: seq<Entry>, b: Block, trunkHeight: nat) {
    forall i {:trigger PassesAt(c, b, trunkHeight, i)} | 0 <= i < |b.txs| :: PassesAt(c, b, trunkHeight, i)
  }

  ghost predicate PassesAt(c: seq<Entry>, b: Block, trunkHeight: nat, i: int)
    requires 0 <= i < |b.txs|
  {
    Checks(Replay(c) + MadeIn(b.txs[..i], {}), b.txs[i], trunkHeight)
  }

  /** The UTXO cache contradicts neither the table nor the batch cache. */
  ghost predicate Agrees(t: Table, b: Block, env: Env) {
    forall i: nat, k {:trigger k in env.caches(b.id, i)} | i < |b.txs| && k in env.caches(b.id, i) ::
      var seen := t + MadeIn(b.txs[..i], {});
      k in seen ==> env.caches(b.id, i)[k] == seen[k]
  }

  lemma ChecksOverlay(t: Table, cached: Table, tx: Tx, trunkHeight: nat)
    requires Checks(t, tx, trunkHeight) && forall k | k in cached && k in t :: cached[k] == t[k]
    ensures Checks(t + cached, tx, trunkHeight)
  {
    forall i | 0 <= i < |tx.inputs|
      ensures InputOk(t + cached, tx.inputs[i], trunkHeight)
    {
      assert InputOk(t, tx.inputs[i], trunkHeight);
    }
  }

  /** All blocks above a on the chain of dest pass. */
  ghost predicate ChainPasses(d: Tables, a: BlockId, dest: BlockId)
    requires LedgerOk(d) && dest in d.blocks && OnPath(d.blocks, d.root, a, dest)
  {
    forall h {:trigger BlockPasses(d, dest, h)} | d.blocks[a].height < h <= d.blocks[dest].height ::
      BlockPasses(d, dest, h)
  }

  ghost predicate BlockPasses(d: Tables, dest: BlockId, h: int)
    requires LedgerOk(d) && dest in d.blocks && 0 < h <= d.blocks[dest].height
  {
    StepAt(d, dest, h);
    Passes(ChainEntries(d, BlockAt(d, dest, h - 1)), BlockOf(d, BlockAt(d, dest, h)), d.trunkHeight)
  }

  /** The UTXO cache contradicts no replay. */
  ghost predicate AgreesAll(d: Tables, env: Env)
    requires LedgerOk(d)
  {
    forall id {:trigger AgreesAt(d, env, id)} | id in d.blocks :: AgreesAt(d, env, id)
  }

  ghost predicate AgreesAt(d: Tables, env: Env, id: BlockId)
    requires LedgerOk(d) && id in d.blocks
  {
    ChainStep(d, id);
    Agrees(Replay(ChainEntries(d, d.blocks[id].preHash)), BlockOf(d, id), env)
  }

  /** A walk from an exact table for which everything can be written and is verified, what is undone
      declared what it took from below the fork, the transactions to be done pass the input check in the
      replay, and the UTXO cache does not contradict it, arrives exactly if there is nothing to undo, or
      the ledger is being pruned, or the fork is not below the irreversible height. */
  lemma WalkArrives(d: Tables, v: View, dest: BlockId, a: BlockId, undo: seq<Block>, todo: seq<Block>, s: Setting)
    requires LedgerOk(d) && Tracks(d, v) && Exact(d, v)
             && DependencyOrder(ChainEntries(d, v.latest), v.unconfirmed, s.order)
    requires Between(d, v.latest, dest, a, undo, todo) && OnPath(d.blocks, d.root, a, v.latest)
    requires s.env.unverified == {} && s.unwritable == {} && AgreesAll(d, s.env)
    requires Honest(d, v, a, a, s.order) && ChainPasses(d, a, dest)
    ensures BranchesOk(d, AfterRollBack(v, s.order, true), undo, todo, s) <==>
              s.ledgerPrune || a == v.latest || v.irreversibleHeight <= d.blocks[a].height
  {
    hide Tracks, Exact, Honest, UndoRun, UndoRunOk, TodoRun, TodoRunOk, Path, ChainEntries, PendingEntries, BranchBelow;
    hide DependencyOrder, Total, ApplyAll, RevertAll, Above, ChainPasses, AgreesAll;
    var r := AfterRollBack(v, s.order, true);
    RollBackKeeps(d, v, s.order, true);
    BranchLength(d, a, v.latest, undo, 0);
    UndoRunKeeps(d, r, a, undo, s, |undo|);
    if UndoRunOk(d, r, undo, s, |undo|) {
      UndoRunHeights(d, r, a, undo, s, |undo|);
    }
    if s.ledgerPrune || a == v.latest || v.irreversibleHeight <= d.blocks[a].height {
      UndoAllOk(d, r, a, undo, s, |undo|);
      var u := UndoRun(d, r, undo, s, |undo|);
      RevertAllConcat(v.utxo, Above(d, a, v.latest), PendingEntries(s.order));
      AtForkExact(d, v, a, s.order, u);
      TodoAllOk(d, u, dest, todo, s, |todo|);
    }
  }

  /** Only blocks above the irreversible height are undone, unless the ledger is being pruned. */
  lemma {:induction false} UndoRunHeights(d: Tables, v: View, a: BlockId, undo: seq<Block>, s: Setting, n: nat)
    requires Tracks(d, v) && v.unconfirmed == [] && BranchBelow(d, a, v.latest, undo) && n <= |undo|
    ensures var u := UndoRun(d, v, undo, s, n);
            && LedgerOk(d) && v.latest in d.blocks && OnPath(d.blocks, d.root, u.latest, v.latest)
            && (!s.ledgerPrune ==>
                  && u.irreversibleHeight == v.irreversibleHeight
                  && (u.latest == v.latest || v.irreversibleHeight <= d.blocks[u.latest].height))
  {
    hide Tracks, BranchBelow, Path, ChainEntries, Undone, LedgerOk, AfterUndo, UndoOk;
    BranchParts(d, a, v.latest, undo);
    if n > 0 {
      UndoRunHeights(d, v, a, undo, s, n - 1);
      if UndoRunOk(d, v, undo, s, n - 1) {
        UndoRunKeeps(d, v, a, undo, s, n - 1);
        BranchLength(d, a, v.latest, undo, n - 1);
        StepAt(d, v.latest, d.blocks[v.latest].height - (n - 1));
        PathPrefix(d.blocks, d.root, v.latest, d.blocks[v.latest].height - n);
        UndoHeights(d, UndoRun(d, v, undo, s, n - 1), undo[n - 1], s.ledgerPrune, s.unwritable, s.window);
      }
    } else {
      OnOwnPath(d, v.latest);
    }
  }

  /** What an undo step does to the latest block and the irreversible height. */
  lemma UndoHeights(d: Tables, v: View, b: Block, ledgerPrune: bool, unwritable: set<BlockId>, window: nat)
    ensures var v2 := AfterUndo(d, v, b, ledgerPrune, unwritable, window);
            && v2.latest == (if UndoOk(d, v, b, ledgerPrune, unwritable) then b.preHash else v.latest)
            && (!ledgerPrune ==> v2.irreversibleHeight == v.irreversibleHeight)
            && (!UndoOk(d, v, b, ledgerPrune, unwritable) ==> v2.utxo == v.utxo)
    ensures UndoOk(d, v, b, ledgerPrune, unwritable) && !ledgerPrune ==> v.irreversibleHeight < b.height
  {
  }

  lemma OnOwnPath(d: Tables, id: BlockId)
    requires LedgerOk(d) && id in d.blocks
    ensures OnPath(d.blocks, d.root, id, id)
  {
  }

  lemma {:induction false} UndoAllOk(d: Tables, v: View, a: BlockId, undo: seq<Block>, s: Setting, n: nat)
    requires Tracks(d, v) && v.unconfirmed == [] && BranchBelow(d, a, v.latest, undo) && n <= |undo|
    requires s.unwritable == {} && (s.ledgerPrune || undo == [] || v.irreversibleHeight <= d.blocks[a].height)
    ensures UndoRunOk(d, v, undo, s, n)
    ensures !s.ledgerPrune ==> UndoRun(d, v, undo, s, n).irreversibleHeight == v.irreversibleHeight
  {
    hide Tracks, BranchBelow, Path, ChainEntries, Undone;
    if n > 0 {
      UndoAllOk(d, v, a, undo, s, n - 1);
      UndoRunKeeps(d, v, a, undo, s, n - 1);
      BranchParts(d, a, v.latest, undo);
      BranchLength(d, a, v.latest, undo, n - 1);
      StepAt(d, v.latest, d.blocks[v.latest].height - (n - 1));
    }
  }

  lemma AtForkExact(d: Tables, v: View, a: BlockId, order: seq<Tx>, u: View)
    requires LedgerOk(d) && Tracks(d, v) && Exact(d, v)
             && DependencyOrder(ChainEntries(d, v.latest), v.unconfirmed, order)
    requires v.latest in d.blocks && OnPath(d.blocks, d.root, a, v.latest) && Honest(d, v, a, a, order)
    requires Tracks(d, u) && u.latest == a && u.unconfirmed == [] && u.utxo == RevertAll(v.utxo, Left(d, v, a, order))
    ensures Exact(d, u)
  {
    hide Tracks, Exact, Honest, ChainEntries, PendingEntries, DependencyOrder, Path, RevertAll;
    AboveSelf(d, a);
    ArrivedExact(d, v, a, a, order, u);
  }

  lemma {:induction false} TodoAllOk(d: Tables, v: View, dest: BlockId, todo: seq<Block>, s: Setting, n: nat)
    requires LedgerOk(d) && Playable(d, v.latest) && Exact(d, v) && v.unconfirmed == [] && v.latest in d.blocks
    requires BranchBelow(d, v.latest, dest, todo) && n <= |todo|
    requires s.env.unverified == {} && s.unwritable == {} && AgreesAll(d, s.env) && ChainPasses(d, v.latest, dest)
    ensures TodoRunOk(d, v, todo, s, n)
  {
    hide Exact, BranchBelow, LedgerOk, Path, ChainEntries, AboveUpTo, Done, Rode, TodoOk, TodoRun, ChainPasses;
    hide AgreesAll;
    if n > 0 {
      TodoAllOk(d, v, dest, todo, s, n - 1);
      TodoRunMoves(d, v, dest, todo, s, n - 1);
      BranchParts(d, v.latest, dest, todo);
      BranchLength(d, v.latest, dest, todo, |todo| - n);
      TodoNextOk(d, v, TodoRun(d, v, todo, s, n - 1), dest, d.blocks[v.latest].height + n, s);
    }
  }

  lemma TodoNextOk(d: Tables, v: View, u: View, dest: BlockId, h: nat, s: Setting)
    requires LedgerOk(d) && Playable(d, v.latest) && Exact(d, v) && v.unconfirmed == [] && v.latest in d.blocks
             && dest in d.blocks
    requires OnPath(d.blocks, d.root, v.latest, dest) && d.blocks[v.latest].height < h <= d.blocks[dest].height
    requires u.latest == BlockAt(d, dest, h - 1) && Playable(d, u.latest)
    requires Done(d, v, AboveUpTo(d, v.latest, dest, h - 1), u)
    requires s.env.unverified == {} && s.unwritable == {} && AgreesAll(d, s.env) && ChainPasses(d, v.latest, dest)
    ensures BlockAt(d, dest, h) in d.blocks
    ensures TodoOk(d, u, BlockOf(d, BlockAt(d, dest, h)), s.env, s.unwritable)
  {
    hide Path, Replay, ApplyAll, Checks, EntriesOf, Refused, MadeIn, Agrees, Passes, ChainEntries, Exact, Done, Above;
    StepAt(d, dest, h);
    var pre, b := BlockAt(d, dest, h - 1), BlockOf(d, BlockAt(d, dest, h));
    DoneIsReplay(d, v, u, dest, h - 1);
    assert BlockPasses(d, dest, h) && AgreesAt(d, s.env, b.id);
    PassesIsOk(ChainEntries(d, pre), b, s.env, d.trunkHeight);
  }

  /** Doing a branch on an exact table gives the replay. */
  lemma DoneIsReplay(d: Tables, v: View, u: View, dest: BlockId, h: nat)
    requires LedgerOk(d) && Playable(d, v.latest) && Exact(d, v) && v.unconfirmed == [] && v.latest in d.blocks
             && dest in d.blocks && OnPath(d.blocks, d.root, v.latest, dest)
    requires d.blocks[v.latest].height <= h <= d.blocks[dest].height
    requires Playable(d, u.latest) && Done(d, v, AboveUpTo(d, v.latest, dest, h), u)
    ensures Playable(d, BlockAt(d, dest, h)) && u.utxo == Replay(ChainEntries(d, BlockAt(d, dest, h)))
  {
    hide Path, Replay, ApplyAll, Total, EntriesOf, ChainEntries, Drift, Gap, NoRepeat, DistinctTxs;
    AncestorAt(d, v.latest, dest, h);
    AboveSplits(d, v.latest, BlockAt(d, dest, h));
    NothingPending(d, v.latest);
    ReplayConcat(ChainEntries(d, v.latest), Above(d, v.latest, BlockAt(d, dest, h)));
  }

  lemma PassesIsOk(c: seq<Entry>, b: Block, env: Env, trunkHeight: nat)
    requires Passes(c, b, trunkHeight) && Agrees(Replay(c), b, env) && env.unverified == {}
    ensures FirstRefused(Replay(c), b, {}, env, trunkHeight, 0) == |b.txs|
  {
    hide Checks, Replay, MadeIn;
    forall i | 0 <= i < |b.txs|
      ensures !Refused(Replay(c), b, {}, env, trunkHeight, i)
    {
      assert PassesAt(c, b, trunkHeight, i);
      ChecksOverlay(Replay(c) + MadeIn(b.txs[..i], {}), env.caches(b.id, i), b.txs[i], trunkHeight);
    }
  }

  // ---------------------------------------------------------------- walking up one block

  /** A walk to the next block is a roll back and that block. */
  lemma WalkOneUp(d: Tables, v: View, b: Block, s: Setting)
    requires Stored(d, v, b) && v.latest in d.blocks && s.written
    ensures var r := AfterRollBack(v, s.order, true);
            Walked(d, v, b.id, s, AfterTodo(d, r, b, s.env, s.unwritable, s.window),
                   TodoOk(d, r, b, s.env, s.unwritable))
  {
    hide AfterTodo, TodoOk, AfterRollBack;
    var r := AfterRollBack(v, s.order, true);
    NextBetween(d, v.latest, b);
    OneTodo(d, r, b, s);
    assert WalkedOver(d, v, v.latest, [], [b], s, AfterTodo(d, r, b, s.env, s.unwritable, s.window),
                      TodoOk(d, r, b, s.env, s.unwritable)) by {
      assert UndoRun(d, r, [], s, 0) == r && UndoRunOk(d, r, [], s, 0);
    }
    assert TreeNode(d.blocks, d.root, b.id);
  }

  lemma OneTodo(d: Tables, r: View, b: Block, s: Setting)
    ensures TodoRun(d, r, [b], s, 1) == AfterTodo(d, r, b, s.env, s.unwritable, s.window)
    ensures TodoRunOk(d, r, [b], s, 1) == TodoOk(d, r, b, s.env, s.unwritable)
  {
    hide AfterTodo, TodoOk;
    assert TodoRun(d, r, [b], s, 0) == r && TodoRunOk(d, r, [b], s, 0);
  }

  lemma NextBetween(d: Tables, a: BlockId, b: Block)
    requires LedgerOk(d) && b.id in d.blocks && b == BlockOf(d, b.id) && b.preHash == a && a in d.blocks
    ensures Between(d, a, b.id, a, [], [b])
  {
    var t, root := d.blocks, d.root;
    assert TreeNode(t, root, b.id) && TreeNode(t, root, a);
    assert b.id != root;
    assert Path(t, root, b.id) == Path(t, root, a) + [b.id];
    SplitIsLowest(t, root, a, b.id, a);
    assert Branch(t, root, a, t[a].height) == [];
    assert Branch(t, root, b.id, t[a].height) == [b.id];
  }
}
