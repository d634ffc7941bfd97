/** Runs of a whole node: blocks are confirmed in the ledger and cut off again, the state machine walks,
    takes submissions and plays mined and received blocks, in any order, failing or not. */
module Node {
  import opened Types
  import opened Chain
  import opened Tables
  import opened Branches
  import opened Utxo
  import opened Value
  import opened Replays
  import opened Unconfirmed
  import opened Steps
  import opened Walks
  import opened Reposts

  datatype Node = Node(d: Tables, v: View)

  /** The ledger's invariants, and the state machine follows the ledger. */
  ghost predicate NodeInv(n: Node) {
    n.d != EMPTY && Kept(n.d) && IndexInv(n.d) && LedgerOk(n.d) && Tracks(n.d, n.v)
  }

  datatype Event = Confirmed(block: Block)
                 | Truncated(target: BlockId)
                 | Walking(dest: BlockId, s: Setting, ok: bool)
                 | Submitted(tx: Tx, o: Intake)
                 | Mined(id: BlockId, env: Env, unwritable: bool, window: nat)
                 | Reposted(id: BlockId, r: Repost, window: nat)

  /** One event. What callers guarantee: incoming blocks have fresh ids and hold no transaction twice, and
      those that do not extend the tip repeat none of their ancestors; truncation goes to a covered trunk
      block that the state machine has walked down to. The UTXO cache agrees with the table. Walks go to
      chains without double spends within a block; submissions, own blocks and received blocks are as
      MaySubmit, MayMine and MayRepost say. What an event does is defined for nodes with the invariant; RunKeeps shows
      that there are no others. */
  ghost predicate Step(n: Node, e: Event, n2: Node) {
    if NodeInv(n) then
      match e
      case Confirmed(b) =>
        && Incoming(n.d, b) && DistinctIds(b.txs)
        && (b.preHash in n.d.blocks ==> ExtendsTip(n.d, b) || !Repeats(n.d, b))
        && n2 == Node(if Accepts(n.d, b, false) then AfterBlock(n.d, b) else n.d, n.v)
      case Truncated(target) =>
        && target in n.d.blocks && n.d.blocks[target].inTrunk && Covered(n.d, target)
        && (n.v.latest == "" || OnPath(n.d.blocks, n.d.root, n.v.latest, target))
        && n2 == Node(AfterTruncate(n.d, target), n.v)
      case Walking(dest, s, ok) =>
        && DependencyOrder(ChainEntries(n.d, n.v.latest), n.v.unconfirmed, s.order)
        && SoundCaches(n.d, s.env) && (dest in n.d.blocks ==> SpendsOnce(n.d, dest))
        && n2.d == n.d && Walked(n.d, n.v, dest, s, n2.v, ok)
      case Submitted(tx, o) => MaySubmit(n.d, n.v, tx, o) && n2 == Node(n.d, AfterSubmit(n.d, n.v, tx, o))
      case Mined(id, env, unwritable, window) =>
        if id in n.d.blocks && n.d.blocks[id].preHash == n.v.latest then
          && MayMine(n.d, n.v, BlockOf(n.d, id), env)
          && n2 == Node(n.d, AfterMine(n.d, n.v, BlockOf(n.d, id), env, unwritable, window))
        else n2 == n
      case Reposted(id, r, window) =>
        if id in n.d.blocks && n.d.blocks[id].preHash == n.v.latest then
          && MayRepost(n.d, n.v, BlockOf(n.d, id), r)
          && n2 == Node(n.d, AfterRepost(n.d, n.v, BlockOf(n.d, id), r, window))
        else n2 == n
    else n2 == n
  }

  /** An id determines its transaction, a transaction whose batch is not written is inert, and one without
      inputs is not on the chain. */
  ghost predicate MaySubmit(d: Tables, v: View, tx: Tx, o: Intake)
    requires Playable(d, v.latest)
  {
    && Identifies(ChainEntries(d, v.latest), tx) && CachedHere(v.utxo, o.cached)
    && (Enters(d, v, tx, o) ==> (o.written || Inert(tx)) && (tx.inputs == [] ==> !OnChain(d, v.latest, tx)))
  }

  /** The user transactions of an own block are unconfirmed, it is closed under dependencies, and its
      special transactions spend nothing twice. */
  ghost predicate MayMine(d: Tables, v: View, b: Block, env: Env)
    requires Playable(d, b.id)
  {
    && Continues(b, v.unconfirmed, UserTxs(b)) && Ordered(ChainEntries(d, b.id))
    && Sound(v.utxo, b, UserTxs(b), env) && NoDoubleSpend(PlayEntries(b.txs, b.proposer, UserTxs(b)))
  }

  /** The conflicts of a received block are separated from the other unconfirmed transactions, it spends
      only from its chain, and nothing that the conflicts have made. */
  ghost predicate MayRepost(d: Tables, v: View, b: Block, r: Repost)
    requires Playable(d, v.latest) && Playable(d, b.id)
  {
    && Separates(d, v, b, r) && Ordered(ChainEntries(d, b.id))
    && Sound(Cleared(v, r).utxo, b, Pooled(b, v.unconfirmed), r.env)
    && SpendsNoneOf(b, Pooled(b, v.unconfirmed), r.conflicts)
  }

  ghost predicate Run(ns: seq<Node>, es: seq<Event>) {
    |ns| == |es| + 1 && forall i {:trigger StepAtIndex(ns, es, i)} | 0 <= i < |es| :: StepAtIndex(ns, es, i)
  }

  ghost predicate StepAtIndex(ns: seq<Node>, es: seq<Event>, i: int)
    requires |ns| == |es| + 1 && 0 <= i < |es|
  {
    Step(ns[i], es[i], ns[i + 1])
  }

  // ---------------------------------------------------------------- the ledger's part

  /** A confirmed block keeps what the state machine needs of the ledger. */
  lemma ConfirmKeepsLedger(d: Tables, b: Block)
    requires d != EMPTY && Kept(d) && IndexInv(d) && LedgerOk(d)
    requires Incoming(d, b) && DistinctIds(b.txs) && Accepts(d, b, false)
    requires ExtendsTip(d, b) || !Repeats(d, b)
    ensures var d2 := AfterBlock(d, b); d2 != EMPTY && Kept(d2) && IndexInv(d2) && LedgerOk(d2)
  {
    hide NoRepeat, IndexInv, Recorded, Base, Duplicated;
    ConfirmKeeps(d, b, false);
    AfterBlockIndex(d, b);
    ConfirmedDistinct(d, b);
  }

  lemma ConfirmedDistinct(d: Tables, b: Block)
    requires TrunkInv(d) && DistinctTxs(d) && b.preHash in d.blocks && DistinctIds(b.txs)
    ensures DistinctTxs(AfterBlock(d, b))
  {
    hide Path, IsTree, Recorded, Base, Marked;
    var d2 := AfterBlock(d, b);
    forall id, i, j | id in d2.blocks && 0 <= i < j < |d2.blocks[id].txids|
      ensures d2.blocks[id].txids[i] != d2.blocks[id].txids[j]
    {
      if id != b.id {
        assert d2.blocks[id].txids == d.blocks[id].txids;
      }
    }
  }

  lemma TruncateKeepsLedger(d: Tables, target: BlockId)
    requires d != EMPTY && Kept(d) && IndexInv(d) && LedgerOk(d)
    requires target in d.blocks && d.blocks[target].inTrunk && Covered(d, target)
    ensures var d2 := AfterTruncate(d, target); d2 != EMPTY && Kept(d2) && IndexInv(d2) && LedgerOk(d2)
  {
    hide NoRepeat, IndexInv, Path;
    TruncateKeeps(d, target);
    TruncateKeepsIndex(d, target);
  }

  /** Truncation changes no history up to its target. */
  lemma {:induction false} TruncateKeepsHistory(d: Tables, target: BlockId, id: BlockId)
    requires Kept(d) && LedgerOk(d) && target in d.blocks && Playable(AfterTruncate(d, target), id)
    ensures Playable(d, id) && ChainEntries(AfterTruncate(d, target), id) == ChainEntries(d, id)
    decreases if id == "" || id !in d.blocks then 0 else d.blocks[id].height + 1
  {
    hide LedgerOk, MarkedFor, BranchesSound;
    if id != "" {
      var d2 := AfterTruncate(d, target);
      assert TreeNode(d2.blocks, d2.root, id) && TreeNode(d.blocks, d.root, id);
      assert d2.blocks[id] == d.blocks[id] && BlockOf(d2, id) == BlockOf(d, id);
      TruncateKeepsHistory(d, target, d.blocks[id].preHash);
    }
  }

  lemma TruncateKeepsState(d: Tables, target: BlockId, v: View)
    requires d != EMPTY && Kept(d) && IndexInv(d) && LedgerOk(d) && Tracks(d, v)
    requires target in d.blocks && d.blocks[target].inTrunk && Covered(d, target)
    requires v.latest == "" || OnPath(d.blocks, d.root, v.latest, target)
    ensures var d2 := AfterTruncate(d, target);
            Tracks(d2, v) && Drift(d2, v) == Drift(d, v) && Gap(d2, v) == Gap(d, v)
  {
    hide NoRepeat, IndexInv, Path, Distinct, CleanAll, Matches, Replay;
    TruncateKeepsLedger(d, target);
    TruncateComplete(d, target);
    TruncateKeepsHistory(d, target, v.latest);
  }

  lemma ConfirmKeepsState(d: Tables, b: Block, v: View)
    requires d != EMPTY && Kept(d) && Incoming(d, b) && Accepts(d, b, false) && Tracks(d, v)
    ensures var d2 := AfterBlock(d, b);
            Tracks(d2, v) && Drift(d2, v) == Drift(d, v) && Gap(d2, v) == Gap(d, v)
  {
    hide Distinct, CleanAll, Matches, Replay, Total;
    ChainEntriesStable(d, b, false, v.latest);
  }

  // ---------------------------------------------------------------- runs

  /** The event did what it set out to do. */
  ghost predicate Succeeded(n: Node, e: Event) {
    match e
    case Walking(_, _, ok) => ok
    case Mined(id, env, unwritable, _) =>
      id in n.d.blocks && TxsStored(n.d) && n.d.blocks[id].preHash == n.v.latest ==>
        MineOk(n.d, n.v, BlockOf(n.d, id), env, unwritable)
    case Reposted(id, r, _) =>
      id in n.d.blocks && TxsStored(n.d) && n.d.blocks[id].preHash == n.v.latest ==>
        RepostOk(n.d, n.v, BlockOf(n.d, id), r)
    case _ => true
  }

  /** The in-memory total is off by as much as before, and the recorded one by as much as one of the two
      was. */
  ghost predicate TotalsKept(n: Node, n2: Node)
    requires Playable(n.d, n.v.latest) && Playable(n2.d, n2.v.latest)
  {
    && Drift(n2.d, n2.v) == Drift(n.d, n.v)
    && (Gap(n2.d, n2.v) == Gap(n.d, n.v) || Gap(n2.d, n2.v) == Drift(n.d, n.v))
  }

  /** Every event keeps the invariant, and the totals if it succeeds. */
  lemma StepKeeps(n: Node, e: Event, n2: Node)
    requires NodeInv(n) && Step(n, e, n2)
    ensures NodeInv(n2)
    ensures Succeeded(n, e) ==> TotalsKept(n, n2)
  {
    hide Step, Succeeded, Kept, IndexInv, LedgerOk, Path, ChainEntries, AfterBlock, AfterTruncate, Drift, Gap;
    hide CleanAll, Distinct, Matches, Replay;
    match e
    case Confirmed(b) => ConfirmedKeeps(n, b, n2);
    case Truncated(target) => TruncatedKeeps(n, target, n2);
    case Walking(dest, s, ok) => WalkingKeeps(n, dest, s, ok, n2);
    case Submitted(tx, o) => SubmittedKeeps(n, tx, o, n2);
    case Mined(id, env, unwritable, window) => MinedKeeps(n, id, env, unwritable, window, n2);
    case Reposted(id, r, window) => RepostedKeeps(n, id, r, window, n2);
  }

  lemma TruncatedKeeps(n: Node, target: BlockId, n2: Node)
    requires NodeInv(n) && Step(n, Truncated(target), n2)
    ensures NodeInv(n2) && TotalsKept(n, n2)
  {
    hide Kept, IndexInv, LedgerOk, Path, ChainEntries, AfterTruncate, Drift, Gap, CleanAll, Distinct, Matches, Replay;
    TruncateKeepsLedger(n.d, target);
    TruncateKeepsState(n.d, target, n.v);
  }

  lemma SubmittedKeeps(n: Node, tx: Tx, o: Intake, n2: Node)
    requires NodeInv(n) && Step(n, Submitted(tx, o), n2)
    ensures NodeInv(n2) && TotalsKept(n, n2)
  {
    hide Kept, IndexInv, LedgerOk, Tracks, ChainEntries, Drift, Gap, AfterSubmit, Enters, Holds, CachedHere, Minted;
    SubmitKeeps(n.d, n.v, tx, o);
    InertMintsNothing(tx);
  }

  lemma ConfirmedKeeps(n: Node, b: Block, n2: Node)
    requires NodeInv(n) && Step(n, Confirmed(b), n2)
    ensures NodeInv(n2) && TotalsKept(n, n2)
  {
    hide IndexInv, Tracks, Path, ChainEntries, AfterBlock, Duplicated;
    if Accepts(n.d, b, false) {
      ConfirmKeepsLedger(n.d, b);
      ConfirmKeepsState(n.d, b, n.v);
    }
  }

  lemma WalkingKeeps(n: Node, dest: BlockId, s: Setting, ok: bool, n2: Node)
    requires NodeInv(n) && Step(n, Walking(dest, s, ok), n2)
    ensures NodeInv(n2) && (Succeeded(n, Walking(dest, s, ok)) ==> TotalsKept(n, n2))
  {
    hide Kept, IndexInv, Path, ChainEntries, Honest, Exact, Total, Left, Above, SpendsOnce, SoundCaches, ChainFits;
    hide CleanAll, Distinct, Matches, Replay;
    TracksFits(n.d, n.v);
    if n.v.latest in n.d.blocks && dest in n.d.blocks {
      var a := CommonAncestor(n.d, n.v.latest, dest);
      WalkKeeps(n.d, n.v, dest, a, s, n2.v, ok);
    } else {
      WalkKeeps(n.d, n.v, dest, "", s, n2.v, ok);
      StaysPut(n.d, n.v, dest, s, n2.v, ok);
    }
  }

  /** A walk to where the state machine is does nothing; one to or from a block that is not stored fails,
      after the roll back. */
  lemma StaysPut(d: Tables, v: View, dest: BlockId, s: Setting, v2: View, ok: bool)
    requires Walked(d, v, dest, s, v2, ok)
    ensures dest == v.latest ==> v2 == v && ok
    ensures dest != v.latest && (v.latest !in d.blocks || dest !in d.blocks) ==>
              !ok && v2.latest == v.latest && v2.unconfirmed == if s.written then [] else v.unconfirmed
  {
  }

  lemma MinedKeeps(n: Node, id: BlockId, env: Env, unwritable: bool, window: nat, n2: Node)
    requires NodeInv(n) && Step(n, Mined(id, env, unwritable, window), n2)
    ensures NodeInv(n2) && (Succeeded(n, Mined(id, env, unwritable, window)) ==> TotalsKept(n, n2))
  {
    hide Kept, IndexInv, Path, ChainEntries, AfterMine, MineOk, Continues, Ordered, Sound, NoDoubleSpend, PlayEntries;
    hide CleanAll, Distinct, Matches, Replay, Fits, Total;
    if id in n.d.blocks && n.d.blocks[id].preHash == n.v.latest {
      StoredBody(n.d, id);
      MineKeeps(n.d, n.v, BlockOf(n.d, id), env, unwritable, window);
    }
  }

  lemma RepostedKeeps(n: Node, id: BlockId, r: Repost, window: nat, n2: Node)
    requires NodeInv(n) && Step(n, Reposted(id, r, window), n2)
    ensures NodeInv(n2) && (Succeeded(n, Reposted(id, r, window)) ==> TotalsKept(n, n2))
  {
    hide Kept, IndexInv, Path, ChainEntries, AfterRepost, RepostOk, Separates, Ordered, Sound, PlayEntries, Cleared;
    hide CleanAll, Distinct, Matches, Replay, Fits, Total, SpendsNoneOf, Pooled, Leftover;
    if id in n.d.blocks && n.d.blocks[id].preHash == n.v.latest {
      StoredBody(n.d, id);
      RepostKeeps(n.d, n.v, BlockOf(n.d, id), r, window);
    }
  }

  lemma InertMintsNothing(tx: Tx)
    ensures Inert(tx) ==> Minted(TxDone(tx)) == 0
  {
    MadeSum(tx);
  }

  /** Any two stored blocks have a lowest common ancestor. */
  lemma CommonAncestor(d: Tables, a: BlockId, b: BlockId) returns (c: BlockId)
    requires LedgerOk(d) && a in d.blocks && b in d.blocks
    ensures IsLowestCommonAncestor(d.blocks, d.root, a, b, c)
  {
    var ha, hb := d.blocks[a].height, d.blocks[b].height;
    if ha <= hb {
      PathPrefix(d.blocks, d.root, b, ha);
      c := LevelAncestor(d, a, b, Path(d.blocks, d.root, b)[ha]);
    } else {
      PathPrefix(d.blocks, d.root, a, hb);
      c := LevelAncestor(d, b, a, Path(d.blocks, d.root, a)[hb]);
    }
  }

  lemma LevelAncestor(d: Tables, a: BlockId, b: BlockId, x: BlockId) returns (c: BlockId)
    requires LedgerOk(d) && a in d.blocks && b in d.blocks && d.blocks[a].height <= d.blocks[b].height
    requires x in d.blocks && d.blocks[x].height == d.blocks[a].height && OnPath(d.blocks, d.root, x, b)
    requires Path(d.blocks, d.root, x) == Path(d.blocks, d.root, b)[..d.blocks[a].height + 1]
    ensures IsLowestCommonAncestor(d.blocks, d.root, a, b, c)
    ensures IsLowestCommonAncestor(d.blocks, d.root, b, a, c)
  {
    c := Meet(d.blocks, d.root, a, x);
    MeetIsLowest(d.blocks, d.root, a, x);
    var h := d.blocks[c].height;
    assert Path(d.blocks, d.root, x)[h] == Path(d.blocks, d.root, b)[h];
    assert OnPath(d.blocks, d.root, c, b);
    SplitIsLowest(d.blocks, d.root, a, b, c);
    SplitIsLowest(d.blocks, d.root, b, a, c);
  }

  /** In every run from a node with the invariant, at every point, the ledger has its invariants and the
      table follows the chain to the latest block with the unconfirmed transactions on top. */
  lemma {:induction false} RunKeeps(ns: seq<Node>, es: seq<Event>, i: nat)
    requires Run(ns, es) && i < |ns| && NodeInv(ns[0])
    ensures NodeInv(ns[i])
    ensures (forall j {:trigger Succeeded(ns[j], es[j])} | 0 <= j < i :: Succeeded(ns[j], es[j]))
              && Drift(ns[0].d, ns[0].v) == 0 == Gap(ns[0].d, ns[0].v)
            ==> Drift(ns[i].d, ns[i].v) == 0 == Gap(ns[i].d, ns[i].v)
  {
    hide Step, Succeeded, Drift, Gap, Kept, IndexInv, LedgerOk, CleanAll, Distinct, Matches, Replay, ChainEntries;
    if i > 0 {
      RunKeeps(ns, es, i - 1);
      assert StepAtIndex(ns, es, i - 1);
      StepKeeps(ns[i - 1], es[i - 1], ns[i]);
    }
  }

  /** A fresh node: a genesis block, and nothing played. */
  lemma GenesisNode(b: Block)
    requires b.id != "" && Incoming(EMPTY, b) && DistinctIds(b.txs) && Accepts(EMPTY, b, true)
    ensures NodeInv(Node(AfterRoot(b), View(map[], 0, 0, "", [], 0)))
    ensures var v := View(map[], 0, 0, "", [], 0); Drift(AfterRoot(b), v) == 0 == Gap(AfterRoot(b), v)
  {
    hide Writes, TrunkInv, Incoming;
    var d := AfterRoot(b);
    ConfirmKeeps(EMPTY, b, true);
    AfterRootIndex(b);
    assert d.blocks[b.id].txids == TxIds(b.txs);
    assert ChainEntries(d, "") + PendingEntries([]) == [];
  }
}
