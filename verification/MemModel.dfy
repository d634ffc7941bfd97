/** The in-memory key-value model of the sandbox: an ordered tree, kept here as the sorted list of
    its entries, and its range iterator. */
module MemModel {
  import opened Types
  import opened Bytes

  datatype PureData = PureData(bucket: Bytes, key: Bytes, value: Bytes)

  /** refTxid None and refOffset 0 mark the empty version of a key that has never been written. */
  datatype VersionedData = VersionedData(refTxid: Option<Bytes>, refOffset: int, pure: PureData)

  datatype Entry = Entry(key: Bytes, data: VersionedData)

  const SEPARATOR: byte := 0x2f

  const DEL_FLAG: Bytes := [0]

  predicate IsEmptyVersionedData(d: VersionedData) {
    d.refTxid == None && d.refOffset == 0
  }

  predicate IsDelFlag(value: Bytes) {
    value == DEL_FLAG
  }

  function RawKey(bucket: Bytes, key: Bytes): Bytes {
    bucket + [SEPARATOR] + key
  }

  // ---------------------------------------------------------------- sorted lists of entries

  ghost predicate KeysRise(s: seq<Entry>, i: int, j: int)
    requires 0 <= i < j < |s|
  {
    Less(s[i].key, s[j].key)
  }

  ghost predicate Sorted(s: seq<Entry>) {
    forall i, j {:trigger KeysRise(s, i, j)} | 0 <= i < j < |s| :: KeysRise(s, i, j)
  }

  /** What a list of entries says about each key; an earlier entry wins. */
  ghost function AsMap(s: seq<Entry>): map<Bytes, VersionedData> {
    if s == [] then map[] else AsMap(s[1..])[s[0].key := s[0].data]
  }

  lemma {:induction false} MapHas(s: seq<Entry>, k: Bytes) returns (i: nat)
    requires k in AsMap(s)
    ensures i < |s| && s[i].key == k && AsMap(s)[k] == s[i].data
  {
    if s[0].key == k {
      i := 0;
    } else {
      i := MapHas(s[1..], k);
      i := i + 1;
    }
  }

  lemma {:induction false} MapAt(s: seq<Entry>, i: nat)
    requires Sorted(s) && i < |s|
    ensures s[i].key in AsMap(s) && AsMap(s)[s[i].key] == s[i].data
  {
    if i > 0 {
      SortedTail(s);
      MapAt(s[1..], i - 1);
      assert KeysRise(s, 0, i);
      LessIrreflexive(s[i].key);
    }
  }

  lemma SortedTail(s: seq<Entry>)
    requires Sorted(s) && s != []
    ensures Sorted(s[1..])
  {
    SortedSlice(s, 1, |s|);
    assert s[1..|s|] == s[1..];
  }

  lemma SortedSlice(s: seq<Entry>, lo: nat, hi: nat)
    requires Sorted(s) && lo <= hi <= |s|
    ensures Sorted(s[lo..hi])
  {
    forall i, j | 0 <= i < j < |s[lo..hi]|
      ensures KeysRise(s[lo..hi], i, j)
    {
      assert KeysRise(s, lo + i, lo + j);
    }
  }

  /** Every key of s comes after k. */
  ghost predicate Above(s: seq<Entry>, k: Bytes) {
    forall x {:trigger x in AsMap(s)} | x in AsMap(s) :: Less(k, x)
  }

  lemma SortedCons(e: Entry, s: seq<Entry>)
    requires Sorted(s) && Above(s, e.key)
    ensures Sorted([e] + s)
  {
    var all := [e] + s;
    forall i, j | 0 <= i < j < |all|
      ensures KeysRise(all, i, j)
    {
      if i == 0 {
        MapAt(s, j - 1);
      } else {
        assert KeysRise(s, i - 1, j - 1);
      }
    }
  }

  lemma HeadLeast(s: seq<Entry>)
    requires Sorted(s) && s != []
    ensures Above(s[1..], s[0].key)
  {
    forall x | x in AsMap(s[1..])
      ensures Less(s[0].key, x)
    {
      var i := MapHas(s[1..], x);
      assert KeysRise(s, 0, i + 1);
    }
  }

  /** A sorted list is determined by what it says about each key. */
  lemma {:induction false} SortedDetermined(a: seq<Entry>, b: seq<Entry>)
    requires Sorted(a) && Sorted(b) && AsMap(a) == AsMap(b)
    ensures a == b
    decreases |a|
  {
    assert a != [] ==> a[0].key in AsMap(a);
    assert b != [] ==> b[0].key in AsMap(b);
    if a != [] {
      SameHead(a, b);
      SortedTail(a);
      SortedTail(b);
      HeadLeast(a);
      HeadLeast(b);
      LessIrreflexive(a[0].key);
      assert AsMap(a[1..]) == AsMap(a) - {a[0].key};
      assert AsMap(b[1..]) == AsMap(b) - {b[0].key};
      SortedDetermined(a[1..], b[1..]);
      assert a == [a[0]] + a[1..] && b == [b[0]] + b[1..];
    }
  }

  lemma SameHead(a: seq<Entry>, b: seq<Entry>)
    requires Sorted(a) && Sorted(b) && AsMap(a) == AsMap(b) && a != [] && b != []
    ensures a[0] == b[0]
  {
    MapAt(a, 0);
    MapAt(b, 0);
    HeadLeast(a);
    HeadLeast(b);
    if a[0].key != b[0].key {
      assert b[0].key in AsMap(a[1..]) && a[0].key in AsMap(b[1..]);
      LessAsymmetric(a[0].key, b[0].key);
      assert false;
    }
  }

  // ---------------------------------------------------------------- the tree

  /** The first index whose key is not below k. */
  method Ceiling(s: seq<Entry>, k: Bytes) returns (r: nat)
    requires Sorted(s)
    ensures SplitAt(s, k, r)
  {
    r := 0;
    while r < |s| && Less(s[r].key, k)
      invariant r <= |s|
      invariant forall i | 0 <= i < r :: Less(s[i].key, k)
    {
      r := r + 1;
    }
    forall i | r <= i < |s|
      ensures !Less(s[i].key, k)
    {
      if r < i {
        assert KeysRise(s, r, i);
        if Less(s[i].key, k) {
          LessTransitive(s[r].key, s[i].key, k);
        }
      }
    }
  }

  lemma {:induction false} MapConcat(a: seq<Entry>, b: seq<Entry>)
    ensures AsMap(a + b) == AsMap(b) + AsMap(a)
  {
    if a == [] {
      assert a + b == b;
    } else {
      MapConcat(a[1..], b);
      assert (a + b)[1..] == a[1..] + b;
    }
  }

  /** s is split at r into the keys below k and the others. */
  ghost predicate SplitAt(s: seq<Entry>, k: Bytes, r: nat) {
    && r <= |s|
    && (forall i | 0 <= i < r :: Less(s[i].key, k))
    && (forall i | r <= i < |s| :: !Less(s[i].key, k))
  }

  lemma BelowRest(s: seq<Entry>, k: Bytes, r: nat, b: nat)
    requires Sorted(s) && SplitAt(s, k, r) && r <= b < |s| && (b == r ==> s[r].key != k)
    ensures Less(k, s[b].key)
  {
    LessTotal(k, s[r].key);
    if r < b {
      assert KeysRise(s, r, b);
      if Less(k, s[r].key) {
        LessTransitive(k, s[r].key, s[b].key);
      }
    }
  }

  lemma SortedAround(a: seq<Entry>, e: Entry, b: seq<Entry>)
    requires Sorted(a) && Sorted(b)
    requires forall i | 0 <= i < |a| :: Less(a[i].key, e.key)
    requires forall i | 0 <= i < |b| :: Less(e.key, b[i].key)
    ensures Sorted(a + [e] + b)
  {
    var all := a + [e] + b;
    forall i, j | 0 <= i < j < |all|
      ensures KeysRise(all, i, j)
    {
      if j < |a| {
        assert KeysRise(a, i, j);
      } else if i > |a| {
        assert KeysRise(b, i - |a| - 1, j - |a| - 1);
      } else if i < |a| < j {
        LessTransitive(a[i].key, e.key, b[j - |a| - 1].key);
      }
    }
  }

  /** Putting an entry in its place: e replaces the entry with its key, if there is one. */
  lemma Inserted(s: seq<Entry>, e: Entry, r: nat)
    requires Sorted(s) && SplitAt(s, e.key, r)
    ensures var rest := if r < |s| && s[r].key == e.key then s[r + 1..] else s[r..];
            Sorted(s[..r] + [e] + rest) && AsMap(s[..r] + [e] + rest) == AsMap(s)[e.key := e.data]
  {
    hide Less, Sorted, AsMap;
    var at := if r < |s| && s[r].key == e.key then r + 1 else r;
    var front, rest := s[..r], s[at..];
    SortedSlice(s, 0, r);
    SortedSlice(s, at, |s|);
    assert s[0..r] == front && s[at..|s|] == rest;
    forall i | 0 <= i < |rest|
      ensures Less(e.key, rest[i].key)
    {
      BelowRest(s, e.key, r, at + i);
    }
    SortedAround(front, e, rest);
    InsertedMap(s, e, r, at);
  }

  lemma InsertedMap(s: seq<Entry>, e: Entry, r: nat, at: nat)
    requires Sorted(s) && r <= |s| && SplitAt(s, e.key, r) && at == if r < |s| && s[r].key == e.key then r + 1 else r
    ensures AsMap(s[..r] + [e] + s[at..]) == AsMap(s)[e.key := e.data]
  {
    hide Sorted, SplitAt, Less;
    var front, tail, rest := s[..r], s[r..], s[at..];
    Lacks(s, e.key, r);
    if r < at {
      assert tail[1..] == rest;
      assert AsMap(tail) == AsMap(rest)[e.key := s[r].data];
    }
    InsertedParts(front, tail, rest, e);
    assert s == front + tail;
  }

  lemma InsertedParts(front: seq<Entry>, tail: seq<Entry>, rest: seq<Entry>, e: Entry)
    requires e.key !in AsMap(front) && AsMap(tail) - {e.key} == AsMap(rest) - {e.key}
    ensures AsMap(front + [e] + rest) == AsMap(front + tail)[e.key := e.data]
  {
    MapConcat(front, tail);
    assert front + [e] + rest == front + ([e] + rest);
    MapConcat(front, [e] + rest);
    assert ([e] + rest)[1..] == rest;
    PutMaps(AsMap(front), AsMap(tail), AsMap(rest), e.key, e.data);
  }

  lemma PutMaps(front: map<Bytes, VersionedData>, tail: map<Bytes, VersionedData>, rest: map<Bytes, VersionedData>,
                k: Bytes, d: VersionedData)
    requires k !in front && tail - {k} == rest - {k}
    ensures rest[k := d] + front == (tail + front)[k := d]
  {
    forall x
      ensures x != k ==> (x in rest <==> x in tail) && (x in rest ==> rest[x] == tail[x])
    {
      assert x in tail - {k} <==> x in rest - {k};
      if x in tail - {k} {
        assert (tail - {k})[x] == (rest - {k})[x];
      }
    }
  }

  lemma Lacks(s: seq<Entry>, k: Bytes, r: nat)
    requires Sorted(s) && SplitAt(s, k, r)
    ensures k !in AsMap(s[..r])
    ensures (r < |s| ==> s[r].key != k) ==> k !in AsMap(s)
  {
    LessIrreflexive(k);
    if k in AsMap(s[..r]) {
      var i := MapHas(s[..r], k);
    }
    if k in AsMap(s) {
      var i := MapHas(s, k);
      assert r <= i;
      if s[r].key != k {
        BelowRest(s, k, r, i);
      }
    }
  }

  // ---------------------------------------------------------------- ranges

  /** The entries of s before the first key that reaches end. */
  ghost function Until(s: seq<Entry>, end: Option<Bytes>): seq<Entry> {
    if s == [] || (end.Some? && !Less(s[0].key, end.value)) then []
    else [s[0]] + Until(s[1..], end)
  }

  lemma UntilStep(s: seq<Entry>, i: nat, end: Option<Bytes>)
    requires i <= |s|
    ensures Until(s[i..], end) == if i == |s| || (end.Some? && !Less(s[i].key, end.value)) then []
                                  else [s[i]] + Until(s[i + 1..], end)
  {
  }

  ghost function Restrict(m: map<Bytes, VersionedData>, start: Bytes, end: Option<Bytes>): map<Bytes, VersionedData> {
    map k | k in m && InRange(k, start, end) :: m[k]
  }

  ghost predicate BelowEnd(k: Bytes, end: Option<Bytes>) {
    end.Some? ==> Less(k, end.value)
  }

  lemma {:induction false} UntilIsRange(s: seq<Entry>, end: Option<Bytes>)
    requires Sorted(s)
    ensures Sorted(Until(s, end))
    ensures AsMap(Until(s, end)) == map k | k in AsMap(s) && BelowEnd(k, end) :: AsMap(s)[k]
    decreases |s|
  {
    if s != [] {
      SortedTail(s);
      HeadLeast(s);
      if BelowEnd(s[0].key, end) {
        UntilIsRange(s[1..], end);
        var rest := Until(s[1..], end);
        assert forall k | k in AsMap(rest) :: k in AsMap(s[1..]);
        assert Above(rest, s[0].key);
        SortedCons(s[0], rest);
        assert ([s[0]] + rest)[1..] == rest;
      } else {
        NoneBelow(s, end.value);
      }
    }
  }

  lemma NoneBelow(s: seq<Entry>, end: Bytes)
    requires Sorted(s) && s != [] && !Less(s[0].key, end)
    ensures forall k | k in AsMap(s) :: !Less(k, end)
  {
    HeadLeast(s);
    forall k | k in AsMap(s)
      ensures !Less(k, end)
    {
      if k != s[0].key {
        assert k in AsMap(s[1..]);
        if Less(k, end) {
          LessTransitive(s[0].key, k, end);
        }
      }
    }
  }

  /** Starting at the ceiling of start and stopping at end visits exactly the range. */
  lemma CeilingIsRange(s: seq<Entry>, start: Bytes, r: nat, end: Option<Bytes>)
    requires Sorted(s) && SplitAt(s, start, r)
    ensures Sorted(Until(s[r..], end)) && AsMap(Until(s[r..], end)) == Restrict(AsMap(s), start, end)
  {
    hide AsMap;
    var a, b := s[..r], s[r..];
    SortedSlice(s, r, |s|);
    assert s[r..|s|] == b;
    UntilIsRange(b, end);
    assert s == a + b;
    MapConcat(a, b);
    forall k | k in AsMap(a)
      ensures Less(k, start)
    {
      var i := MapHas(a, k);
    }
    forall k | k in AsMap(b)
      ensures !Less(k, start)
    {
      var i := MapHas(b, k);
    }
  }

  /** Iterates over a range of a tree, in key order. */
  class TreeIterator {
    const tree: seq<Entry>
    const end: Option<Bytes>
    var at: int
    var iterDone: bool

    ghost predicate Valid()
      reads this
    {
      -1 <= at < |tree|
    }

    /** What is still to come. */
    ghost function Rest(): seq<Entry>
      requires Valid()
      reads this
    {
      if iterDone then [] else Until(tree[at + 1..], end)
    }

    constructor (tree: seq<Entry>, start: Bytes, end: Option<Bytes>)
      requires Sorted(tree)
      ensures Valid() && Sorted(Rest()) && AsMap(Rest()) == Restrict(AsMap(tree), start, end)
    {
      var i: int := Ceiling(tree, start);
      this.tree, this.end := tree, end;
      iterDone := i == |tree|;
      at := i - 1;
      new;
      CeilingIsRange(tree, start, i, end);
    }

    method Next() returns (ok: bool)
      requires Valid()
      modifies this
      ensures Valid() && ok == (old(Rest()) != []) && Rest() == if ok then old(Rest())[1..] else []
      ensures ok ==> 0 <= at && tree[at] == old(Rest())[0] && !iterDone
    {
      hide Until, Less;
      if iterDone {
        return false;
      }
      UntilStep(tree, at + 1, end);
      if at + 1 == |tree| {
        iterDone := true;
        return false;
      }
      at := at + 1;
      if end.Some? && !Less(tree[at].key, end.value) {
        iterDone := true;
        return false;
      }
      return true;
    }

    /** The key within the bucket, None at the end. */
    method Key() returns (k: Option<Bytes>)
      requires Valid() && 0 <= at
      ensures k == if iterDone then None else Some(tree[at].data.pure.key)
    {
      return if iterDone then None else Some(tree[at].data.pure.key);
    }

    method Value() returns (v: Option<VersionedData>)
      requires Valid() && 0 <= at
      ensures v == if iterDone then None else Some(tree[at].data)
    {
      return if iterDone then None else Some(tree[at].data);
    }
  }

  /** raw lies in the bucket, and the rest of it between start and end. */
  ghost predicate Selects(bucket: Bytes, start: Option<Bytes>, end: Option<Bytes>, raw: Bytes) {
    RawKey(bucket, []) <= raw && InRange(raw[|bucket| + 1..], StartOf(start), end)
  }

  function StartOf(start: Option<Bytes>): Bytes {
    if start.Some? then start.value else []
  }

  /** A string between two with a common prefix has that prefix. */
  lemma {:induction false} BetweenHasPrefix(p: Bytes, a: Bytes, b: Bytes, k: Bytes)
    requires !Less(k, p + a) && Less(k, p + b)
    ensures p <= k
    decreases |p|
  {
    if p != [] {
      assert (p + a)[0] == p[0] && (p + a)[1..] == p[1..] + a && (p + b)[0] == p[0] && (p + b)[1..] == p[1..] + b;
      BetweenHasPrefix(p[1..], a, b, k[1..]);
      PrefixTail(p, k);
    }
  }

  /** The raw range from start to end is the part of the bucket from start to end. */
  lemma RawRange(bucket: Bytes, start: Option<Bytes>, end: Option<Bytes>, rawEnd: Option<Bytes>, raw: Bytes)
    requires end.Some? ==> rawEnd == Some(RawKey(bucket, end.value))
    requires end.None? ==> (InRange(raw, RawKey(bucket, []), rawEnd) <==> RawKey(bucket, []) <= raw)
    ensures InRange(raw, RawKey(bucket, StartOf(start)), rawEnd) <==> Selects(bucket, start, end, raw)
  {
    var p, s := bucket + [SEPARATOR], StartOf(start);
    assert RawKey(bucket, []) == p;
    if p <= raw {
      var rest := raw[|p|..];
      assert raw == p + rest;
      LessAfterPrefix(p, rest, s);
      if end.Some? {
        LessAfterPrefix(p, rest, end.value);
      }
    } else if InRange(raw, p + s, rawEnd) {
      if end.Some? {
        BetweenHasPrefix(p, s, end.value, raw);
      } else if Less(raw, p) {
        BelowExtension(p, s, raw);
      }
    }
  }

  lemma {:induction false} BelowExtension(p: Bytes, s: Bytes, k: Bytes)
    requires Less(k, p)
    ensures Less(k, p + s)
    decreases |p|
  {
    if k != [] && k[0] == p[0] {
      BelowExtension(p[1..], s, k[1..]);
      assert (p + s)[1..] == p[1..] + s;
    }
  }

  class MemXModel {
    var tree: seq<Entry>

    ghost predicate Valid()
      reads this
    {
      Sorted(tree)
    }

    constructor ()
      ensures Valid() && tree == []
    {
      tree := [];
    }

    method Get(bucket: Bytes, key: Bytes) returns (r: Option<VersionedData>)
      requires Valid()
      ensures r == Find(AsMap(tree), RawKey(bucket, key))
    {
      var k := RawKey(bucket, key);
      var i := Ceiling(tree, k);
      if i < |tree| && tree[i].key == k {
        MapAt(tree, i);
        return Some(tree[i].data);
      }
      Lacks(tree, k, i);
      return None;
    }

    method Put(bucket: Bytes, key: Bytes, value: VersionedData)
      requires Valid()
      modifies this
      ensures Valid() && AsMap(tree) == old(AsMap(tree))[RawKey(bucket, key) := value]
    {
      var e := Entry(RawKey(bucket, key), value);
      var i := Ceiling(tree, e.key);
      Inserted(tree, e, i);
      tree := tree[..i] + [e] + if i < |tree| && tree[i].key == e.key then tree[i + 1..] else tree[i..];
    }

    /** An iterator over the keys of a bucket from start to end; None is an error. */
    method Select(bucket: Bytes, start: Option<Bytes>, end: Option<Bytes>) returns (r: Option<TreeIterator>)
      requires Valid()
      ensures r.None? <==> bucket == [] || (start.Some? && end.Some? && Less(end.value, start.value))
      ensures r.Some? ==> fresh(r.value) && r.value.Valid() && Sorted(r.value.Rest())
      ensures r.Some? ==>
                AsMap(r.value.Rest()) ==
                map raw | raw in AsMap(tree) && Selects(bucket, start, end, raw) :: AsMap(tree)[raw]
    {
      if bucket == [] {
        return None;
      }
      if start.Some? && end.Some? && Compare(start.value, end.value) > 0 {
        LessTotal(start.value, end.value);
        return None;
      }
      if start.Some? && end.Some? && Less(end.value, start.value) {
        LessIrreflexive(start.value);
        LessAsymmetric(end.value, start.value);
      }
      var rawEnd;
      if end.Some? {
        rawEnd := Some(RawKey(bucket, end.value));
      } else {
        rawEnd := PrefixEnd(RawKey(bucket, []));
      }
      forall raw
        ensures InRange(raw, RawKey(bucket, StartOf(start)), rawEnd) <==> Selects(bucket, start, end, raw)
      {
        RawRange(bucket, start, end, rawEnd, raw);
      }
      var it := new TreeIterator(tree, RawKey(bucket, StartOf(start)), rawEnd);
      return Some(it);
    }
  }

  function Find(m: map<Bytes, VersionedData>, k: Bytes): Option<VersionedData> {
    if k in m then Some(m[k]) else None
  }
}
