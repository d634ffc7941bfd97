/** The irreversible height: blocks at or below it are never undone, except by walks that prune the ledger.
    It follows the highest block played at the distance of the slide window, so in every run of a node a
    block that is buried this deep stays on the chain for good. */
module Finality {
  import opened Types
  import opened Chain
  import opened Tables
  import opened Branches
  import opened Search
  import opened Utxo
  import opened Value
  import opened Replays
  import opened Unconfirmed
  import opened Steps
  import opened Walks
  import opened Reposts
  import N = Node

  function Max(a: int, b: int): int {
    if a < b then b else a
  }

  lemma OnPathTransitive(t: Blocks, root: BlockId, x: BlockId, y: BlockId, z: BlockId)
    requires IsTree(t, root) && y in t && z in t && OnPath(t, root, x, y) && OnPath(t, root, y, z)
    ensures OnPath(t, root, x, z)
  {
    PathPrefix(t, root, z, t[y].height);
  }

  /** Of two blocks on a chain, the lower one is an ancestor of the other. */
  lemma LowerIsAncestor(t: Blocks, root: BlockId, x: BlockId, y: BlockId, z: BlockId)
    requires IsTree(t, root) && y in t && z in t && OnPath(t, root, x, z) && OnPath(t, root, y, z)
    requires t[x].height <= t[y].height
    ensures OnPath(t, root, x, y)
  {
    PathPrefix(t, root, z, t[y].height);
  }

  // ---------------------------------------------------------------- how the height moves

  /** A block step raises the height to the block's own, less the window, if that is more. */
  lemma TodoHeights(d: Tables, v: View, b: Block, env: Env, unwritable: set<BlockId>, window: nat)
    ensures var v2 := AfterTodo(d, v, b, env, unwritable, window);
            v2.irreversibleHeight == if TodoOk(d, v, b, env, unwritable) && window > 0
                                     then Max(v.irreversibleHeight, b.height - window) else v.irreversibleHeight
  {
  }

  lemma {:induction false} TodoRunHeights(d: Tables, v: View, dest: BlockId, todo: seq<Block>, s: Setting, n: nat)
    requires v.unconfirmed == [] && v.latest in d.blocks && BranchBelow(d, v.latest, dest, todo) && n <= |todo|
    ensures var u := TodoRun(d, v, todo, s, n);
            && v.irreversibleHeight <= u.irreversibleHeight
            && (n == 0 || s.window == 0 ==> u.irreversibleHeight == v.irreversibleHeight)
            && (n > 0 && s.window > 0 && TodoRunOk(d, v, todo, s, n) ==>
                  u.irreversibleHeight == Max(v.irreversibleHeight, d.blocks[v.latest].height + n - s.window))
  {
    hide AfterTodo, TodoOk, BranchBelow, Path, LedgerOk;
    if n > 0 {
      TodoRunHeights(d, v, dest, todo, s, n - 1);
      if TodoRunOk(d, v, todo, s, n - 1) {
        BranchParts(d, v.latest, dest, todo);
        BranchLength(d, v.latest, dest, todo, |todo| - n);
        PathPrefix(d.blocks, d.root, dest, d.blocks[v.latest].height + n);
        TodoHeights(d, TodoRun(d, v, todo, s, n - 1), todo[|todo| - n], s.env, s.unwritable, s.window);
      }
    }
  }

  /** Pruning lowers the height with every block undone: it ends at the last of them, less the window. */
  lemma PruneHeights(d: Tables, v: View, b: Block, unwritable: set<BlockId>, window: nat)
    requires UndoOk(d, v, b, true, unwritable)
    ensures AfterUndo(d, v, b, true, unwritable, window).irreversibleHeight
         == if window > 0 then Max(0, b.height - window) else v.irreversibleHeight
  {
  }

  lemma {:induction false} PruneRunHeights(d: Tables, v: View, a: BlockId, undo: seq<Block>, s: Setting, n: nat)
    requires Tracks(d, v) && v.unconfirmed == [] && BranchBelow(d, a, v.latest, undo) && n <= |undo|
    requires s.ledgerPrune && UndoRunOk(d, v, undo, s, n)
    ensures v.latest in d.blocks
    ensures UndoRun(d, v, undo, s, n).irreversibleHeight
         == if n > 0 && s.window > 0 then Max(0, d.blocks[v.latest].height - n + 1 - s.window) else v.irreversibleHeight
  {
    hide AfterUndo, UndoOk, BranchBelow, Path, LedgerOk, Tracks;
    BranchParts(d, a, v.latest, undo);
    if n > 0 {
      PruneRunHeights(d, v, a, undo, s, n - 1);
      BranchLength(d, a, v.latest, undo, n - 1);
      PathPrefix(d.blocks, d.root, v.latest, d.blocks[v.latest].height - (n - 1));
      PruneHeights(d, UndoRun(d, v, undo, s, n - 1), undo[n - 1], s.unwritable, s.window);
    }
  }

  // ---------------------------------------------------------------- walks

  /** A walk, on whatever ancestor. */
  ghost predicate MayWalk(d: Tables, v: View, dest: BlockId, a: BlockId, s: Setting) {
    && LedgerOk(d) && Tracks(d, v) && DependencyOrder(ChainEntries(d, v.latest), v.unconfirmed, s.order)
    && v.latest in d.blocks
    && (dest in d.blocks ==> IsLowestCommonAncestor(d.blocks, d.root, v.latest, dest, a))
  }

  /** A walk that does not prune arrives only over an ancestor that is not below the irreversible height;
      wherever it stops, every block of the old chain at or below this height is still on the chain; and
      the height has not fallen. */
  lemma WalkRespects(d: Tables, v: View, dest: BlockId, a: BlockId, s: Setting, v2: View, ok: bool)
    requires MayWalk(d, v, dest, a, s) && Walked(d, v, dest, s, v2, ok) && !s.ledgerPrune
    ensures ok && dest != v.latest ==> dest in d.blocks && (a == v.latest || v.irreversibleHeight <= d.blocks[a].height)
    ensures v2.latest in d.blocks
    ensures forall x | OnPath(d.blocks, d.root, x, v.latest) && d.blocks[x].height <= v.irreversibleHeight ::
              OnPath(d.blocks, d.root, x, v2.latest)
    ensures v.irreversibleHeight <= v2.irreversibleHeight
  {
    hide Tracks, AfterRollBack, AfterBranches, BranchesOk, ChainEntries, Between, DependencyOrder, Path;
    if dest != v.latest {
      RollBackHeights(v, s.order, s.written);
      if s.written && dest in d.blocks {
        var a2, undo, todo :| Between(d, v.latest, dest, a2, undo, todo) && WalkedOver(d, v, a2, undo, todo, s, v2, ok);
        BetweenUnique(d, v.latest, dest, a2, undo, todo, a);
        RollBackKeeps(d, v, s.order, true);
        BranchesRespect(d, AfterRollBack(v, s.order, true), dest, a, undo, todo, s);
      }
    }
  }

  lemma RollBackHeights(v: View, order: seq<Tx>, written: bool)
    ensures var r := AfterRollBack(v, order, written);
            r.latest == v.latest && r.irreversibleHeight == v.irreversibleHeight && (written ==> r.unconfirmed == [])
  {
  }

  lemma BranchesRespect(d: Tables, v: View, dest: BlockId, a: BlockId, undo: seq<Block>, todo: seq<Block>, s: Setting)
    requires Tracks(d, v) && v.unconfirmed == [] && Between(d, v.latest, dest, a, undo, todo) && !s.ledgerPrune
    ensures var v2 := AfterBranches(d, v, a, undo, todo, s);
            && (BranchesOk(d, v, undo, todo, s) ==> a == v.latest || v.irreversibleHeight <= d.blocks[a].height)
            && v2.latest in d.blocks && v.irreversibleHeight <= v2.irreversibleHeight
            && forall x | OnPath(d.blocks, d.root, x, v.latest) && d.blocks[x].height <= v.irreversibleHeight ::
                 OnPath(d.blocks, d.root, x, v2.latest)
  {
    hide Tracks, UndoRun, TodoRun, UndoRunOk, TodoRunOk, Path, ChainEntries, BranchBelow, Undone, Done, LedgerOk;
    var n, u := |undo|, UndoRun(d, v, undo, s, |undo|);
    var v2 := AfterBranches(d, v, a, undo, todo, s);
    BranchParts(d, a, v.latest, undo);
    UndoRunHeights(d, v, a, undo, s, n);
    if UndoRunOk(d, v, undo, s, n) {
      UndoRunKeeps(d, v, a, undo, s, n);
      BranchLength(d, a, v.latest, undo, 0);
      assert u.latest == a;
      TodoRunHeights(d, u, dest, todo, s, |todo|);
      TodoRunMoves(d, u, dest, todo, s, |todo|);
    } else {
      OnOwnPath(d, u.latest);
    }
    forall x | OnPath(d.blocks, d.root, x, v.latest) && d.blocks[x].height <= v.irreversibleHeight
      ensures OnPath(d.blocks, d.root, x, v2.latest)
    {
      LowerIsAncestor(d.blocks, d.root, x, u.latest, v.latest);
      OnPathTransitive(d.blocks, d.root, x, u.latest, v2.latest);
    }
  }

  /** Where the irreversible height is when a walk has arrived. */
  lemma WalkHeights(d: Tables, v: View, dest: BlockId, a: BlockId, s: Setting, v2: View)
    requires MayWalk(d, v, dest, a, s) && Walked(d, v, dest, s, v2, true) && dest != v.latest
    ensures dest in d.blocks && a in d.blocks
    ensures var w, at := s.window, if s.ledgerPrune && a != v.latest && s.window > 0
                                   then Max(0, d.blocks[a].height + 1 - s.window) else v.irreversibleHeight;
            v2.irreversibleHeight == if w > 0 && a != dest then Max(at, d.blocks[dest].height - w) else at
  {
    hide Tracks, AfterRollBack, UndoRun, TodoRun, UndoRunOk, TodoRunOk, Path, ChainEntries, BranchBelow, Undone, Done;
    hide DependencyOrder, LedgerOk;
    RollBackHeights(v, s.order, s.written);
    var a2, undo, todo :| Between(d, v.latest, dest, a2, undo, todo) && WalkedOver(d, v, a2, undo, todo, s, v2, true);
    BetweenUnique(d, v.latest, dest, a2, undo, todo, a);
    var r, n := AfterRollBack(v, s.order, true), |undo|;
    RollBackKeeps(d, v, s.order, true);
    BranchParts(d, a, r.latest, undo);
    BranchLength(d, a, r.latest, undo, 0);
    BranchLength(d, a, dest, todo, 0);
    UndoRunKeeps(d, r, a, undo, s, n);
    if s.ledgerPrune {
      PruneRunHeights(d, r, a, undo, s, n);
    } else {
      UndoRunHeights(d, r, a, undo, s, n);
    }
    TodoRunHeights(d, UndoRun(d, r, undo, s, n), dest, todo, s, |todo|);
  }

  // ---------------------------------------------------------------- runs of a node

  /** The event is not a walk that prunes the ledger. */
  predicate Forward(e: N.Event) {
    e.Walking? ==> !e.s.ledgerPrune
  }

  /** x is on the chain to the latest block, at or below the irreversible height. */
  ghost predicate Final(n: N.Node, x: BlockId) {
    && IsTree(n.d.blocks, n.d.root) && n.v.latest in n.d.blocks
    && OnPath(n.d.blocks, n.d.root, x, n.v.latest) && n.d.blocks[x].height <= n.v.irreversibleHeight
  }

  /** A confirmed block changes no chain. */
  lemma ConfirmKeepsPaths(d: Tables, b: Block, x: BlockId, id: BlockId)
    requires TrunkInv(d) && b.preHash in d.blocks && b.id != "" && b.id !in d.blocks
    requires id in d.blocks && OnPath(d.blocks, d.root, x, id)
    ensures var d2 := AfterBlock(d, b);
            && IsTree(d2.blocks, d2.root) && id in d2.blocks && OnPath(d2.blocks, d2.root, x, id)
            && d2.blocks[x].height == d.blocks[x].height
  {
    hide Path, Marked, Recorded, Base;
    AfterBlockTrunk(d, b);
    PathFrame(d.blocks, AfterBlock(d, b).blocks, d.root, id);
  }

  lemma TruncateKeepsPaths(d: Tables, target: BlockId, x: BlockId, id: BlockId)
    requires Kept(d) && TrunkInv(d) && target in d.blocks && d.blocks[target].inTrunk && Covered(d, target)
    requires id in d.blocks && OnPath(d.blocks, d.root, id, target) && OnPath(d.blocks, d.root, x, id)
    ensures var d2 := AfterTruncate(d, target);
            && IsTree(d2.blocks, d2.root) && id in d2.blocks && OnPath(d2.blocks, d2.root, x, id)
            && d2.blocks[x].height == d.blocks[x].height
  {
    hide Path, Marked, AfterTruncate, Covered;
    var d2 := AfterTruncate(d, target);
    TruncateComplete(d, target);
    TruncateTrunkInv(d, target);
    assert d2.root == d.root by {
      TruncateRoot(d, target);
    }
    PathFrame(d2.blocks, d.blocks, d.root, id);
  }

  lemma TruncateRoot(d: Tables, target: BlockId)
    requires IsTree(d.blocks, d.root) && BranchesSound(d) && target in d.blocks
    ensures AfterTruncate(d, target).root == d.root
  {
  }

  /** Playing the next block adds it to the chain. */
  lemma NextKeepsPaths(d: Tables, v: View, v2: View, x: BlockId)
    requires IsTree(d.blocks, d.root) && v.latest in d.blocks && OnPath(d.blocks, d.root, x, v.latest)
    requires v2.latest == v.latest || (v2.latest in d.blocks && d.blocks[v2.latest].preHash == v.latest)
    ensures v2.latest in d.blocks && OnPath(d.blocks, d.root, x, v2.latest)
  {
    if v2.latest != v.latest {
      assert TreeNode(d.blocks, d.root, v2.latest);
      assert v2.latest != d.root;
      assert Path(d.blocks, d.root, v2.latest) == Path(d.blocks, d.root, v.latest) + [v2.latest];
    }
  }

  /** What playing a mined or a received block does to the latest block and the irreversible height. */
  lemma MineHeights(d: Tables, v: View, b: Block, env: Env, unwritable: bool, window: nat)
    ensures var v2 := AfterMine(d, v, b, env, unwritable, window);
            if MineOk(d, v, b, env, unwritable) then
              && v2.latest == b.id
              && v2.irreversibleHeight == if window > 0 then Max(v.irreversibleHeight, b.height - window)
                                          else v.irreversibleHeight
            else v2.latest == v.latest && v2.irreversibleHeight == v.irreversibleHeight
  {
    hide Refused, PlayedBlock;
  }

  lemma RepostHeights(d: Tables, v: View, b: Block, r: Repost, window: nat)
    ensures var v2 := AfterRepost(d, v, b, r, window);
            if RepostOk(d, v, b, r) then
              && v2.latest == b.id
              && v2.irreversibleHeight == if window > 0 then Max(v.irreversibleHeight, b.height - window)
                                          else v.irreversibleHeight
            else v2.latest == v.latest && v2.irreversibleHeight == v.irreversibleHeight
  {
    hide Refused, PlayedBlock, RolledBack, Pooled;
  }

  lemma StepKeepsFinal(n: N.Node, e: N.Event, n2: N.Node, x: BlockId)
    requires N.NodeInv(n) && N.Step(n, e, n2) && Forward(e) && Final(n, x)
    ensures Final(n2, x) && n.v.irreversibleHeight <= n2.v.irreversibleHeight
  {
    hide Path, IndexInv, Marked, Tracks, AfterBlock, AfterTruncate, Accepts, Covered, AfterSubmit, AfterMine,
         AfterRepost, MineOk, RepostOk, Walked, N.MaySubmit, N.MayMine, N.MayRepost, Repeats, SoundCaches, SpendsOnce,
         ChainEntries, DependencyOrder, NoRepeat, DistinctTxs, IsLowestCommonAncestor;
    match e
    case Confirmed(b) =>
      if Accepts(n.d, b, false) {
        AcceptsOnStored(n.d, b);
        ConfirmKeepsPaths(n.d, b, x, n.v.latest);
      }
    case Truncated(target) =>
      TruncateKeepsPaths(n.d, target, x, n.v.latest);
    case Walking(dest, s, ok) =>
      var a := if dest in n.d.blocks then AncestorOf(n.d, n.v.latest, dest) else "";
      WalkRespects(n.d, n.v, dest, a, s, n2.v, ok);
    case Submitted(tx, o) =>
      SubmitHeights(n.d, n.v, tx, o);
    case Mined(id, env, unwritable, window) =>
      if id in n.d.blocks && n.d.blocks[id].preHash == n.v.latest {
        MineHeights(n.d, n.v, BlockOf(n.d, id), env, unwritable, window);
        NextKeepsPaths(n.d, n.v, n2.v, x);
      }
    case Reposted(id, r, window) =>
      if id in n.d.blocks && n.d.blocks[id].preHash == n.v.latest {
        RepostHeights(n.d, n.v, BlockOf(n.d, id), r, window);
        NextKeepsPaths(n.d, n.v, n2.v, x);
      }
  }

  lemma AcceptsOnStored(d: Tables, b: Block)
    requires Valid(d) && Accepts(d, b, false)
    ensures d != EMPTY && b.preHash in d.blocks
  {
  }

  lemma SubmitHeights(d: Tables, v: View, tx: Tx, o: Intake)
    ensures var v2 := AfterSubmit(d, v, tx, o); v2.latest == v.latest && v2.irreversibleHeight == v.irreversibleHeight
  {
  }

  ghost function AncestorOf(d: Tables, a: BlockId, b: BlockId): (c: BlockId)
    requires LedgerOk(d) && a in d.blocks && b in d.blocks
    ensures IsLowestCommonAncestor(d.blocks, d.root, a, b, c)
  {
    assert exists c :: IsLowestCommonAncestor(d.blocks, d.root, a, b, c) by {
      var c := N.CommonAncestor(d, a, b);
    }
    var c :| IsLowestCommonAncestor(d.blocks, d.root, a, b, c);
    c
  }

  /** In every run without pruning walks, once a block is at or below the irreversible height on the chain
      to the latest block, it stays there. */
  lemma {:induction false} RunKeepsFinal(ns: seq<N.Node>, es: seq<N.Event>, i: nat, j: nat, x: BlockId)
    requires N.Run(ns, es) && i <= j < |ns| && N.NodeInv(ns[0])
    requires (forall k | i <= k < j :: Forward(es[k])) && Final(ns[i], x)
    ensures Final(ns[j], x) && ns[i].v.irreversibleHeight <= ns[j].v.irreversibleHeight
    decreases j
  {
    hide N.Step, N.NodeInv, Final;
    if i < j {
      RunKeepsFinal(ns, es, i, j - 1, x);
      N.RunKeeps(ns, es, j - 1);
      assert N.StepAtIndex(ns, es, j - 1);
      StepKeepsFinal(ns[j - 1], es[j - 1], ns[j], x);
    }
  }

  /** The event has played blocks up to the latest one, with slide window w. */
  ghost predicate Played(n: N.Node, e: N.Event, n2: N.Node, w: nat) {
    match e
    case Walking(dest, s, ok) =>
      && w == s.window && ok && LedgerOk(n.d) && n.v.latest in n.d.blocks && dest in n.d.blocks
      && !OnPath(n.d.blocks, n.d.root, dest, n.v.latest)
    case Mined(_, _, _, window) => w == window && n2.v.latest != n.v.latest
    case Reposted(_, _, window) => w == window && n2.v.latest != n.v.latest
    case _ => false
  }

  /** Then the irreversible height has followed. */
  lemma PlayedRaises(n: N.Node, e: N.Event, n2: N.Node, w: nat)
    requires N.NodeInv(n) && N.Step(n, e, n2) && Played(n, e, n2, w) && w > 0
    ensures n2.v.latest in n2.d.blocks
    ensures n2.d.blocks[n2.v.latest].height - w <= n2.v.irreversibleHeight
  {
    hide Path, IndexInv, Marked, Tracks, AfterMine, AfterRepost, MineOk, RepostOk, Walked, N.MayMine, N.MayRepost,
         SoundCaches, SpendsOnce, ChainEntries, DependencyOrder, NoRepeat, DistinctTxs;
    match e
    case Walking(dest, s, ok) =>
      var a := AncestorOf(n.d, n.v.latest, dest);
      OnOwnPath(n.d, dest);
      WalkHeights(n.d, n.v, dest, a, s, n2.v);
      ArrivedAt(n.d, n.v, dest, a, s, n2.v);
    case Mined(id, env, unwritable, window) =>
      MineHeights(n.d, n.v, BlockOf(n.d, id), env, unwritable, window);
    case Reposted(id, r, window) =>
      RepostHeights(n.d, n.v, BlockOf(n.d, id), r, window);
  }

  lemma ArrivedAt(d: Tables, v: View, dest: BlockId, a: BlockId, s: Setting, v2: View)
    requires MayWalk(d, v, dest, a, s) && Walked(d, v, dest, s, v2, true)
    ensures v2.latest == dest
  {
    hide Tracks, Walked, LedgerOk, DependencyOrder, ChainEntries, ChainFits, SpendsOnce, SoundCaches, Honest, Exact;
    WalkKeeps(d, v, dest, a, s, v2, true);
  }

  /** Finality: in every run, when a block has been played with slide window w, its ancestors that are w
      blocks below it, or more, stay on the chain to the latest block ever after, until a walk prunes the
      ledger. */
  lemma BuriedIsFinal(ns: seq<N.Node>, es: seq<N.Event>, i: nat, j: nat, w: nat, x: BlockId)
    requires N.Run(ns, es) && i < j < |ns| && N.NodeInv(ns[0])
    requires Played(ns[i], es[i], ns[i + 1], w) && w > 0 && forall k | i < k < j :: Forward(es[k])
    requires var n := ns[i + 1];
             && IsTree(n.d.blocks, n.d.root) && n.v.latest in n.d.blocks
             && OnPath(n.d.blocks, n.d.root, x, n.v.latest)
             && n.d.blocks[x].height + w <= n.d.blocks[n.v.latest].height
    ensures var n := ns[j];
            && IsTree(n.d.blocks, n.d.root) && n.v.latest in n.d.blocks
            && OnPath(n.d.blocks, n.d.root, x, n.v.latest)
  {
    hide N.Step, N.NodeInv, Played, Path;
    N.RunKeeps(ns, es, i);
    assert N.StepAtIndex(ns, es, i);
    PlayedRaises(ns[i], es[i], ns[i + 1], w);
    RunKeepsFinal(ns, es, i + 1, j, x);
  }
}
