/** The Merkle tree of a block, built in one array: padded leaves first, then level after level, the
    root last. */
module Merkle {
  import opened Types
  import opened Bytes

  const CELL_SIZE: nat := 32

  /** The hash of a pair of cells. */
  type Hash = (Bytes, Bytes) -> Bytes

  type Cell = Option<Bytes>

  // ---------------------------------------------------------------- the specification, level by level

  /** The parents of a level; an odd last node is paired with itself. */
  ghost function NextLevel(h: Hash, s: seq<Bytes>): (r: seq<Bytes>)
    ensures |r| == (|s| + 1) / 2
  {
    if |s| == 0 then []
    else if |s| == 1 then [h(s[0], s[0])]
    else [h(s[0], s[1])] + NextLevel(h, s[2..])
  }

  ghost function Root(h: Hash, s: seq<Bytes>): Bytes
    requires s != []
    decreases |s|
  {
    if |s| == 1 then s[0] else Root(h, NextLevel(h, s))
  }

  /** A txid copied into a cell: cut off or filled up with zeros. */
  function CellOf(txid: Bytes): (c: Bytes)
    ensures |c| == CELL_SIZE && (|txid| == CELL_SIZE ==> c == txid)
  {
    if |txid| >= CELL_SIZE then txid[..CELL_SIZE] else txid + seq(CELL_SIZE - |txid|, _ => 0)
  }

  function Cells(txids: seq<Bytes>): seq<Bytes> {
    seq(|txids|, i requires 0 <= i < |txids| => CellOf(txids[i]))
  }

  lemma {:induction false} NextLevelAt(h: Hash, s: seq<Bytes>, j: nat)
    requires j < (|s| + 1) / 2
    ensures NextLevel(h, s)[j] == h(s[2 * j], if 2 * j + 1 < |s| then s[2 * j + 1] else s[2 * j])
    decreases |s|
  {
    if j > 0 {
      NextLevelAt(h, s[2..], j - 1);
    }
  }

  // ---------------------------------------------------------------- the array layout

  ghost predicate IsPowerOfTwo(n: nat) {
    n == 1 || (n > 1 && n % 2 == 0 && IsPowerOfTwo(n / 2))
  }

  lemma OneIsPowerOfTwo()
    ensures IsPowerOfTwo(1)
  {
  }

  lemma Doubled(n: nat)
    requires IsPowerOfTwo(n)
    ensures IsPowerOfTwo(2 * n) && 2 * n / 2 == n
  {
  }

  function Padded(s: seq<Bytes>, size: nat): seq<Cell> {
    seq(size, i => if 0 <= i < |s| then Some(s[i]) else None)
  }

  /** All levels one after the other, each padded to half the size of the one before. */
  ghost function Layout(h: Hash, s: seq<Bytes>, size: nat): (r: seq<Cell>)
    requires IsPowerOfTwo(size)
    ensures |r| == 2 * size - 1
    decreases size
  {
    if size == 1 then Padded(s, 1) else Padded(s, size) + Layout(h, NextLevel(h, s), size / 2)
  }

  function Parent(h: Hash, left: Cell, right: Cell): Cell {
    if left.None? then None
    else if right.None? then Some(h(left.value, left.value))
    else Some(h(left.value, right.value))
  }

  /** The first level above the leaves. */
  lemma LevelParents(h: Hash, s: seq<Bytes>, size: nat, j: nat)
    requires 2 * j + 1 < size && |s| <= size
    ensures Padded(NextLevel(h, s), size / 2)[j] == Parent(h, Padded(s, size)[2 * j], Padded(s, size)[2 * j + 1])
  {
    if 2 * j < |s| {
      NextLevelAt(h, s, j);
    }
  }

  lemma LayoutLeaves(h: Hash, s: seq<Bytes>, size: nat)
    requires IsPowerOfTwo(size)
    ensures size <= |Layout(h, s, size)| && forall k | 0 <= k < size :: Layout(h, s, size)[k] == Padded(s, size)[k]
  {
  }

  /** In the layout every inner cell is the parent of the two cells it is computed from. */
  lemma {:induction false} LayoutParents(h: Hash, s: seq<Bytes>, size: nat, j: nat)
    requires IsPowerOfTwo(size) && j < size - 1 && |s| <= size
    ensures Layout(h, s, size)[size + j] == Parent(h, Layout(h, s, size)[2 * j], Layout(h, s, size)[2 * j + 1])
    decreases size
  {
    var up := NextLevel(h, s);
    assert Layout(h, s, size) == Padded(s, size) + Layout(h, up, size / 2);
    if 2 * j < size {
      LayoutLeaves(h, up, size / 2);
      LevelParents(h, s, size, j);
    } else {
      LayoutParents(h, up, size / 2, j - size / 2);
    }
  }

  /** The last cell of the layout of more than half a full level is the root. */
  lemma {:induction false} LayoutRoot(h: Hash, s: seq<Bytes>, size: nat)
    requires IsPowerOfTwo(size) && size / 2 < |s| <= size
    ensures Layout(h, s, size)[2 * size - 2] == Some(Root(h, s))
    decreases size
  {
    if size > 1 {
      LayoutRoot(h, NextLevel(h, s), size / 2);
    }
  }

  // ---------------------------------------------------------------- building the tree

  /** The least power of two that is not below txCount. */
  method GetLeafSize(txCount: nat) returns (r: nat)
    requires txCount > 0
    ensures IsPowerOfTwo(r) && r / 2 < txCount <= r
  {
    hide IsPowerOfTwo;
    r := 1;
    OneIsPowerOfTwo();
    while r < txCount
      invariant 1 <= r && IsPowerOfTwo(r) && r / 2 < txCount
      decreases txCount - r
    {
      Doubled(r);
      r := 2 * r;
    }
  }

  method MakeMerkleTree(h: Hash, txids: seq<Bytes>) returns (tree: array<Cell>)
    ensures txids == [] ==> tree.Length == 0
    ensures txids != [] ==> |txids| <= tree.Length && forall i | 0 <= i < |txids| :: tree[i] == Some(CellOf(txids[i]))
    ensures txids != [] ==> tree[tree.Length - 1] == Some(Root(h, Cells(txids)))
  {
    hide NextLevel, Root;
    if txids == [] {
      tree := new Cell[0];
      return;
    }
    var leafSize := GetLeafSize(|txids|);
    var treeSize := leafSize * 2 - 1;
    tree := new Cell[treeSize](_ => None);
    for i := 0 to |txids|
      invariant forall k | 0 <= k < treeSize :: tree[k] == if k < i then Some(CellOf(txids[k])) else None
    {
      tree[i] := Some(CellOf(txids[i]));
    }
    assert tree[..leafSize] == Padded(Cells(txids), leafSize);
    FillParents(h, tree, leafSize, Cells(txids));
    LayoutLeaves(h, Cells(txids), leafSize);
    LayoutRoot(h, Cells(txids), leafSize);
    assert forall i | 0 <= i < |txids| :: tree[i] == tree[..][i];
    assert tree[treeSize - 1] == tree[..][treeSize - 1];
  }

  /** Computes the inner cells, two cells further on for each. */
  method FillParents(h: Hash, tree: array<Cell>, leafSize: nat, ghost cells: seq<Bytes>)
    requires IsPowerOfTwo(leafSize) && |cells| <= leafSize && tree.Length == 2 * leafSize - 1
    requires tree[..leafSize] == Padded(cells, leafSize)
    modifies tree
    ensures tree[..] == Layout(h, cells, leafSize)
  {
    hide Layout, Padded, IsPowerOfTwo;
    ghost var all := Layout(h, cells, leafSize);
    LayoutLeaves(h, cells, leafSize);
    assert forall k | 0 <= k < leafSize :: tree[k] == tree[..leafSize][k];
    var noneLeafOffset := leafSize;
    var i := 0;
    while i < tree.Length - 1
      invariant i % 2 == 0 && 0 <= i <= tree.Length - 1 && noneLeafOffset == leafSize + i / 2
      invariant forall k | 0 <= k < noneLeafOffset :: tree[k] == all[k]
    {
      LayoutParents(h, cells, leafSize, i / 2);
      if tree[i].None? {
        tree[noneLeafOffset] := None;
      } else if tree[i + 1].None? {
        tree[noneLeafOffset] := Some(h(tree[i].value, tree[i].value));
      } else {
        tree[noneLeafOffset] := Some(h(tree[i].value, tree[i + 1].value));
      }
      noneLeafOffset := noneLeafOffset + 1;
      i := i + 2;
    }
  }

  /** A block carries the right root. */
  method VerifyMerkle(h: Hash, txids: seq<Bytes>, merkleRoot: Bytes) returns (ok: bool)
    ensures ok <==> txids != [] && merkleRoot == Root(h, Cells(txids))
  {
    var tree := MakeMerkleTree(h, txids);
    if tree.Length == 0 {
      return false;
    }
    return tree[tree.Length - 1] == Some(merkleRoot);
  }

  // ---------------------------------------------------------------- what a root commits to

  /** The least power of two that is not below the number of leaves. */
  ghost predicate IsLeafSize(size: nat, n: nat) {
    IsPowerOfTwo(size) && size / 2 < n <= size
  }

  /** Which of n leaves is at place i when the odd last node of every level is doubled: the place is a
      child of place i / 2 one level up. */
  function Place(n: nat, i: nat): (k: nat)
    requires n > 0
    ensures k < n
    decreases n
  {
    if n == 1 then 0
    else
      var q := Place((n + 1) / 2, i / 2);
      if 2 * q + i % 2 < n then 2 * q + i % 2 else 2 * q
  }

  /** The full tree's leaves: the list with its odd tails doubled level by level. */
  function Completed(s: seq<Bytes>, size: nat): (r: seq<Bytes>)
    requires s != []
    ensures |r| == size && forall i | 0 <= i < size :: r[i] == s[Place(|s|, i)]
  {
    seq(size, i requires 0 <= i => s[Place(|s|, i)])
  }

  /** The first places are the leaves themselves. */
  lemma {:induction false} PlaceOfLeaf(n: nat, i: nat)
    requires i < n
    ensures Place(n, i) == i
    decreases n
  {
    if n > 1 {
      PlaceOfLeaf((n + 1) / 2, i / 2);
    }
  }

  /** A list is determined by its completion and its length. */
  lemma CompletedDetermines(a: seq<Bytes>, b: seq<Bytes>, size: nat)
    requires 0 < |a| == |b| <= size
    ensures Completed(a, size) == Completed(b, size) <==> a == b
  {
    if Completed(a, size) == Completed(b, size) {
      forall i | 0 <= i < |a|
        ensures a[i] == b[i]
      {
        PlaceOfLeaf(|a|, i);
        assert Completed(a, size)[i] == Completed(b, size)[i];
      }
    }
  }

  /** The pair that node q of the next level is computed from. */
  function PairAt(s: seq<Bytes>, q: nat): (Bytes, Bytes)
    requires q < (|s| + 1) / 2
  {
    (s[2 * q], if 2 * q + 1 < |s| then s[2 * q + 1] else s[2 * q])
  }

  lemma CompletedPair(s: seq<Bytes>, size: nat, j: nat)
    requires |s| > 1 && 2 * j + 1 < size
    ensures var c := Completed(s, size);
            (c[2 * j], c[2 * j + 1]) == PairAt(s, Place((|s| + 1) / 2, j))
  {
    assert (2 * j + 1) / 2 == j && (2 * j) / 2 == j;
  }

  /** Completing a level and going up are interchangeable. */
  lemma CompletedLevel(h: Hash, s: seq<Bytes>, size: nat)
    requires |s| > 1 && size % 2 == 0
    ensures NextLevel(h, Completed(s, size)) == Completed(NextLevel(h, s), size / 2)
  {
    hide Place, Completed;
    var c, up := Completed(s, size), NextLevel(h, s);
    forall j | 0 <= j < size / 2
      ensures NextLevel(h, c)[j] == Completed(up, size / 2)[j]
    {
      NextLevelAt(h, c, j);
      CompletedPair(s, size, j);
      NextLevelAt(h, s, Place(|up|, j));
    }
  }

  /** Completing a list keeps its root. */
  lemma {:induction false} CompletedKeepsRoot(h: Hash, s: seq<Bytes>, size: nat)
    requires IsLeafSize(size, |s|)
    ensures Root(h, Completed(s, size)) == Root(h, s)
    decreases size
  {
    if size > 1 {
      CompletedLevel(h, s, size);
      CompletedKeepsRoot(h, NextLevel(h, s), size / 2);
    }
  }

  /** The pairs that are hashed on the way to the root. */
  ghost function Hashed(h: Hash, s: seq<Bytes>): set<(Bytes, Bytes)>
    requires s != []
    decreases |s|
  {
    if |s| == 1 then {}
    else (set q: nat | q < (|s| + 1) / 2 :: PairAt(s, q)) + Hashed(h, NextLevel(h, s))
  }

  ghost predicate AreCells(s: seq<Bytes>) {
    forall i | 0 <= i < |s| :: |s[i]| == CELL_SIZE
  }

  /** The hash of two cells is a cell. */
  ghost predicate MakesCells(h: Hash) {
    forall x, y | |x| == |y| == CELL_SIZE :: |h(x, y)| == CELL_SIZE
  }

  /** Two different pairs of cells with the same hash. */
  ghost predicate Collision(h: Hash, p: (Bytes, Bytes), q: (Bytes, Bytes)) {
    && |p.0| == |p.1| == |q.0| == |q.1| == CELL_SIZE
    && p != q && h(p.0, p.1) == h(q.0, q.1)
  }

  /** No two pairs hashed in the two trees collide. */
  ghost predicate CollisionFree(h: Hash, a: seq<Bytes>, b: seq<Bytes>)
    requires a != [] && b != []
  {
    forall p, q | p in Hashed(h, a) && q in Hashed(h, b) :: !Collision(h, p, q)
  }

  lemma LevelCells(h: Hash, s: seq<Bytes>)
    requires MakesCells(h) && AreCells(s)
    ensures AreCells(NextLevel(h, s))
  {
    forall j | 0 <= j < |NextLevel(h, s)|
      ensures |NextLevel(h, s)[j]| == CELL_SIZE
    {
      NextLevelAt(h, s, j);
    }
  }

  /** Different completions with the same next level show a collision. */
  lemma LevelCommits(h: Hash, a: seq<Bytes>, b: seq<Bytes>, size: nat) returns (p: (Bytes, Bytes), q: (Bytes, Bytes))
    requires AreCells(a) && AreCells(b) && |a| > 1 && |b| > 1 && size % 2 == 0
    requires Completed(a, size) != Completed(b, size)
    requires Completed(NextLevel(h, a), size / 2) == Completed(NextLevel(h, b), size / 2)
    ensures p in Hashed(h, a) && q in Hashed(h, b) && Collision(h, p, q)
  {
    hide NextLevel, Place;
    var i :| 0 <= i < size && Completed(a, size)[i] != Completed(b, size)[i];
    var j := i / 2;
    assert i == 2 * j || i == 2 * j + 1;
    p, q := PairAt(a, Place((|a| + 1) / 2, j)), PairAt(b, Place((|b| + 1) / 2, j));
    CompletedPair(a, size, j);
    CompletedPair(b, size, j);
    CompletedNode(h, a, size, j);
    CompletedNode(h, b, size, j);
  }

  /** A node of the completed next level is the hash of a pair that is hashed. */
  lemma CompletedNode(h: Hash, s: seq<Bytes>, size: nat, j: nat)
    requires |s| > 1 && j < size / 2
    ensures var p := PairAt(s, Place((|s| + 1) / 2, j));
            p in Hashed(h, s) && Completed(NextLevel(h, s), size / 2)[j] == h(p.0, p.1)
  {
    NextLevelAt(h, s, Place((|s| + 1) / 2, j));
  }

  /** Equal roots of lists with different completions show a collision among the pairs hashed. */
  lemma {:induction false} RootCommits(h: Hash, a: seq<Bytes>, b: seq<Bytes>, size: nat)
    returns (p: (Bytes, Bytes), q: (Bytes, Bytes))
    requires MakesCells(h) && AreCells(a) && AreCells(b)
    requires IsLeafSize(size, |a|) && IsLeafSize(size, |b|)
    requires Root(h, a) == Root(h, b) && Completed(a, size) != Completed(b, size)
    ensures p in Hashed(h, a) && q in Hashed(h, b) && Collision(h, p, q)
    decreases size
  {
    if size > 1 {
      var ua, ub := NextLevel(h, a), NextLevel(h, b);
      if Completed(ua, size / 2) == Completed(ub, size / 2) {
        p, q := LevelCommits(h, a, b, size);
      } else {
        LevelCells(h, a);
        LevelCells(h, b);
        p, q := RootCommits(h, ua, ub, size / 2);
      }
    }
  }

  /** For lists of the same leaf size and no collision among the pairs hashed, the roots are equal exactly
      if the lists completed by doubling odd tails are equal. */
  lemma RootsEqualIff(h: Hash, a: seq<Bytes>, b: seq<Bytes>, size: nat)
    requires MakesCells(h) && AreCells(a) && AreCells(b)
    requires IsLeafSize(size, |a|) && IsLeafSize(size, |b|)
    requires CollisionFree(h, a, b)
    ensures Root(h, a) == Root(h, b) <==> Completed(a, size) == Completed(b, size)
  {
    if Completed(a, size) == Completed(b, size) {
      CompletedKeepsRoot(h, a, size);
      CompletedKeepsRoot(h, b, size);
    } else if Root(h, a) == Root(h, b) {
      var p, q := RootCommits(h, a, b, size);
      assert false;
    }
  }

  // ---------------------------------------------------------------- lists of different leaf sizes

  /** The nodes k levels up. */
  ghost function Level(h: Hash, s: seq<Bytes>, k: nat): (r: seq<Bytes>)
    ensures s != [] ==> r != []
    decreases k
  {
    if k == 0 then s else Level(h, NextLevel(h, s), k - 1)
  }

  /** size doubled k times. */
  function Widened(size: nat, k: nat): nat {
    if k == 0 then size else 2 * Widened(size, k - 1)
  }

  /** Any two leaf sizes are some levels apart. */
  lemma {:induction false} SizesApart(small: nat, large: nat) returns (k: nat)
    requires IsPowerOfTwo(small) && IsPowerOfTwo(large) && small <= large
    ensures large == Widened(small, k)
    decreases large
  {
    if small == large {
      k := 0;
    } else {
      NextPower(small, large);
      k := SizesApart(small, large / 2);
      k := k + 1;
    }
  }

  lemma {:induction false} NextPower(small: nat, large: nat)
    requires IsPowerOfTwo(small) && IsPowerOfTwo(large) && small < large
    ensures large % 2 == 0 && IsPowerOfTwo(large / 2) && small <= large / 2
    decreases small
  {
    if small > 1 {
      NextPower(small / 2, large / 2);
    }
  }

  /** A level up has the leaf size of its own height, and the same root. */
  lemma {:induction false} LevelRoot(h: Hash, s: seq<Bytes>, size: nat, k: nat)
    requires IsPowerOfTwo(size) && IsLeafSize(Widened(size, k), |s|) && MakesCells(h) && AreCells(s)
    ensures var up := Level(h, s, k); IsLeafSize(size, |up|) && Root(h, up) == Root(h, s) && AreCells(up)
    decreases k
  {
    if k > 0 {
      WidenedOnce(size, k - 1);
      LevelCells(h, s);
      LevelRoot(h, NextLevel(h, s), size, k - 1);
    }
  }

  lemma {:induction false} WidenedOnce(size: nat, k: nat)
    requires IsPowerOfTwo(size)
    ensures IsPowerOfTwo(Widened(size, k)) && Widened(size, k + 1) / 2 == Widened(size, k) >= 1
  {
    if k > 0 {
      WidenedOnce(size, k - 1);
    }
  }

  /** The root does not tell leaves from inner nodes: lists of different leaf sizes have equal roots exactly
      if the shorter one, completed, is the level of the longer one, completed, that has its size. */
  lemma RootsEqualAcrossSizes(h: Hash, a: seq<Bytes>, b: seq<Bytes>, size: nat, k: nat)
    requires MakesCells(h) && AreCells(a) && AreCells(b)
    requires IsLeafSize(size, |a|) && IsLeafSize(Widened(size, k), |b|)
    requires CollisionFree(h, a, Level(h, b, k))
    ensures Root(h, a) == Root(h, b) <==> Completed(a, size) == Completed(Level(h, b, k), size)
  {
    LevelRoot(h, b, size, k);
    RootsEqualIff(h, a, Level(h, b, k), size);
  }

  /** A pair and the hash of the pair, for example. */
  lemma PairAndNode(h: Hash, x: Bytes, y: Bytes)
    ensures Root(h, [x, y]) == Root(h, [h(x, y)]) && Level(h, [x, y], 1) == [h(x, y)]
  {
    assert [x, y][2..] == [];
    assert NextLevel(h, [x, y]) == [h(x, y)];
    assert Level(h, [x, y], 1) == Level(h, NextLevel(h, [x, y]), 0);
  }

  // ---------------------------------------------------------------- transactions

  /** So the root and the number of the transactions determine their cells. */
  lemma RootDeterminesTxs(h: Hash, a: seq<Bytes>, b: seq<Bytes>, size: nat)
    requires MakesCells(h) && |a| == |b| && IsLeafSize(size, |a|)
    requires CollisionFree(h, Cells(a), Cells(b))
    ensures Root(h, Cells(a)) == Root(h, Cells(b)) <==> Cells(a) == Cells(b)
    ensures AreCells(a) && AreCells(b) ==> (Root(h, Cells(a)) == Root(h, Cells(b)) <==> a == b)
  {
    RootsEqualIff(h, Cells(a), Cells(b), size);
    CompletedDetermines(Cells(a), Cells(b), size);
    if AreCells(a) && AreCells(b) {
      assert Cells(a) == a && Cells(b) == b;
    }
  }

  /** Without the number they do not: repeating the last of an odd number keeps the completion, and so
      the root. */
  lemma RepeatedLastKeepsRoot(h: Hash, s: seq<Bytes>, size: nat)
    requires |s| % 2 == 1 && |s| > 1 && IsLeafSize(size, |s|)
    ensures var t := s + [s[|s| - 1]]; Completed(t, size) == Completed(s, size) && Root(h, t) == Root(h, s)
  {
    var t := s + [s[|s| - 1]];
    forall i | 0 <= i < size
      ensures t[Place(|t|, i)] == s[Place(|s|, i)]
    {
      assert (|t| + 1) / 2 == (|s| + 1) / 2;
    }
    assert Completed(t, size) == Completed(s, size);
    CompletedKeepsRoot(h, s, size);
    CompletedKeepsRoot(h, t, size);
  }
}
