/** The iterators behind Select: merging an iterator over writes, one over reads and one over the
    backend. Iterators are snapshots: what they range over does not change under way. Keys are the
    keys within the bucket. */
module Iterators {
  import opened Types
  import opened Bytes
  import opened MemModel
  import opened Sandbox

  /** bytes.Compare with None as the greatest value. */
  function CompareBytes(k1: Option<Bytes>, k2: Option<Bytes>): int {
    if k1.None? && k2.None? then 0
    else if k1.None? then 1
    else if k2.None? then -1
    else Compare(k1.value, k2.value)
  }

  /** The two-way merge; on equal keys the front wins. */
  ghost function Merge(front: seq<Entry>, back: seq<Entry>): seq<Entry>
    decreases |front| + |back|
  {
    if front == [] then back
    else if back == [] then front
    else if front[0].key == back[0].key then [front[0]] + Merge(front[1..], back[1..])
    else if Less(front[0].key, back[0].key) then [front[0]] + Merge(front[1..], back)
    else [back[0]] + Merge(front, back[1..])
  }

  /** The merge of two sorted lists is the sorted list of the front laid over the back. */
  lemma {:induction false} MergeIsOverlay(front: seq<Entry>, back: seq<Entry>)
    requires Sorted(front) && Sorted(back)
    ensures Sorted(Merge(front, back)) && AsMap(Merge(front, back)) == AsMap(back) + AsMap(front)
    decreases |front| + |back|
  {
    if front != [] && back != [] {
      if front[0].key == back[0].key {
        MergeTie(front, back);
      } else if Less(front[0].key, back[0].key) {
        MergeFront(front, back);
      } else {
        MergeBack(front, back);
      }
    }
  }

  lemma {:induction false} MergeTie(front: seq<Entry>, back: seq<Entry>)
    requires Sorted(front) && Sorted(back) && front != [] && back != [] && front[0].key == back[0].key
    ensures Sorted(Merge(front, back)) && AsMap(Merge(front, back)) == AsMap(back) + AsMap(front)
    decreases |front| + |back|, 0
  {
    hide Less, Sorted;
    SortedTail(front);
    SortedTail(back);
    HeadLeast(front);
    HeadLeast(back);
    MergeIsOverlay(front[1..], back[1..]);
    MergedCons(front[0], Merge(front[1..], back[1..]));
  }

  lemma {:induction false} MergeFront(front: seq<Entry>, back: seq<Entry>)
    requires Sorted(front) && Sorted(back) && front != [] && back != [] && Less(front[0].key, back[0].key)
    ensures Sorted(Merge(front, back)) && AsMap(Merge(front, back)) == AsMap(back) + AsMap(front)
    decreases |front| + |back|, 0
  {
    hide Less, Sorted;
    SortedTail(front);
    HeadLeast(front);
    AllAbove(front[0].key, back);
    LessIrreflexive(front[0].key);
    MergeIsOverlay(front[1..], back);
    MergedCons(front[0], Merge(front[1..], back));
  }

  lemma {:induction false} MergeBack(front: seq<Entry>, back: seq<Entry>)
    requires Sorted(front) && Sorted(back) && front != [] && back != []
    requires front[0].key != back[0].key && !Less(front[0].key, back[0].key)
    ensures Sorted(Merge(front, back)) && AsMap(Merge(front, back)) == AsMap(back) + AsMap(front)
    decreases |front| + |back|, 0
  {
    hide Less, Sorted;
    LessTotal(front[0].key, back[0].key);
    SortedTail(back);
    HeadLeast(back);
    AllAbove(back[0].key, front);
    LessIrreflexive(back[0].key);
    MergeIsOverlay(front, back[1..]);
    MergedCons(back[0], Merge(front, back[1..]));
  }

  lemma AllAbove(k: Bytes, s: seq<Entry>)
    requires Sorted(s) && s != [] && Less(k, s[0].key)
    ensures Above(s, k)
  {
    HeadLeast(s);
    forall x | x in AsMap(s)
      ensures Less(k, x)
    {
      if x != s[0].key {
        assert x in AsMap(s[1..]);
        LessTransitive(k, s[0].key, x);
      }
    }
  }

  lemma MergedCons(e: Entry, rest: seq<Entry>)
    requires Sorted(rest) && Above(rest, e.key)
    ensures Sorted([e] + rest) && AsMap([e] + rest) == AsMap(rest)[e.key := e.data]
  {
    SortedCons(e, rest);
    assert ([e] + rest)[1..] == rest;
  }

  /** Delete marks taken out. */
  ghost function Strip(s: seq<Entry>): seq<Entry> {
    if s == [] then []
    else if IsDelFlag(s[0].data.pure.value) then Strip(s[1..])
    else [s[0]] + Strip(s[1..])
  }

  lemma StripNone()
    ensures Strip([]) == []
  {
  }

  lemma StripCons(e: Entry, s: seq<Entry>)
    ensures Strip([e] + s) == if IsDelFlag(e.data.pure.value) then Strip(s) else [e] + Strip(s)
  {
    assert ([e] + s)[1..] == s;
  }

  ghost function Live(m: Table): Table {
    map k | k in m && !IsDelFlag(m[k].pure.value) :: m[k]
  }

  lemma {:induction false} StripIsLive(s: seq<Entry>)
    requires Sorted(s)
    ensures Sorted(Strip(s)) && AsMap(Strip(s)) == Live(AsMap(s))
  {
    if s != [] {
      SortedTail(s);
      HeadLeast(s);
      LessIrreflexive(s[0].key);
      StripIsLive(s[1..]);
      if !IsDelFlag(s[0].data.pure.value) {
        assert forall k | k in AsMap(Strip(s[1..])) :: k in AsMap(s[1..]);
        MergedCons(s[0], Strip(s[1..]));
      }
    }
  }

  // ---------------------------------------------------------------- the iterators

  /** An iterator over a snapshot. */
  class XMIterator {
    var items: seq<Entry>
    var cur: Option<Entry>

    constructor (items: seq<Entry>)
      ensures this.items == items
    {
      this.items, cur := items, None;
    }

    method Next() returns (ok: bool)
      modifies this
      ensures ok == (old(items) != []) && items == if ok then old(items)[1..] else []
      ensures cur == if ok then Some(old(items)[0]) else None
    {
      ok := items != [];
      cur := if ok then Some(items[0]) else None;
      items := if ok then items[1..] else [];
    }
  }

  /** Skips delete marks. */
  class StripDelIterator {
    const iter: XMIterator

    constructor (iter: XMIterator)
      ensures this.iter == iter
    {
      this.iter := iter;
    }

    method Next() returns (ok: bool)
      modifies iter
      ensures var rest := old(Strip(iter.items));
              && ok == (rest != []) && Strip(iter.items) == (if ok then rest[1..] else [])
              && iter.cur == if ok then Some(rest[0]) else None
    {
      hide Strip;
      StripNone();
      ghost var all := iter.items;
      ok := iter.Next();
      assert ok ==> all == [iter.cur.value] + iter.items;
      while ok
        invariant iter.cur.Some? == ok && (!ok ==> iter.items == [])
        invariant Strip(all) == if ok then Strip([iter.cur.value] + iter.items) else []
        decreases |iter.items|, ok
      {
        StripCons(iter.cur.value, iter.items);
        if IsDelFlag(iter.cur.value.data.pure.value) {
          ghost var before := iter.items;
          ok := iter.Next();
          assert ok ==> before == [iter.cur.value] + iter.items;
          continue;
        }
        return true;
      }
      return false;
    }
  }

  /** Looks one entry ahead. */
  class PeekIterator {
    var next: bool
    var key: Option<Bytes>
    var value: Option<VersionedData>
    const iter: XMIterator

    ghost predicate Valid()
      reads this, iter
    {
      if next then key.Some? && value.Some? else key.None? && value.None? && iter.items == []
    }

    /** What is still to come. */
    ghost function Rest(): seq<Entry>
      requires Valid()
      reads this, iter
    {
      if next then [Entry(key.value, value.value)] + iter.items else []
    }

    constructor (iter: XMIterator)
      modifies iter
      ensures this.iter == iter && Valid() && Rest() == old(iter.items)
    {
      this.iter := iter;
      next, key, value := false, None, None;
      new;
      Fill();
    }

    method Fill()
      modifies this, iter
      ensures Valid() && Rest() == old(iter.items)
    {
      var ok := iter.Next();
      if !ok {
        next, key, value := false, None, None;
        return;
      }
      next, key, value := true, Some(iter.cur.value.key), Some(iter.cur.value.data);
    }

    method Next() returns (k: Option<Bytes>, v: Option<VersionedData>)
      requires Valid()
      modifies this, iter
      ensures Valid() && k == FirstKey(old(Rest())) && v == FirstData(old(Rest())) && Rest() == Tail(old(Rest()))
    {
      if !next {
        return None, None;
      }
      k, v := key, value;
      Fill();
    }

    method Peek() returns (k: Option<Bytes>, v: Option<VersionedData>)
      requires Valid()
      ensures k == FirstKey(Rest()) && v == FirstData(Rest())
    {
      if !next {
        return None, None;
      }
      return key, value;
    }
  }

  function FirstKey(s: seq<Entry>): Option<Bytes> {
    if s == [] then None else Some(s[0].key)
  }

  function FirstData(s: seq<Entry>): Option<VersionedData> {
    if s == [] then None else Some(s[0].data)
  }

  function Tail(s: seq<Entry>): seq<Entry> {
    if s == [] then [] else s[1..]
  }

  /** Merges two iterators; on equal keys the front's value is taken and the back's skipped. */
  class MultiIterator {
    const front: PeekIterator
    const back: PeekIterator
    var key: Option<Bytes>
    var value: Option<VersionedData>

    ghost predicate Valid()
      reads this, front, back, front.iter, back.iter
    {
      front != back && front.iter != back.iter && front.Valid() && back.Valid()
    }

    /** What is still to come. */
    ghost function Rest(): seq<Entry>
      requires Valid()
      reads this, front, back, front.iter, back.iter
    {
      Merge(front.Rest(), back.Rest())
    }

    constructor (front: seq<Entry>, back: seq<Entry>)
      ensures fresh(this.front) && fresh(this.back) && fresh(this.front.iter) && fresh(this.back.iter)
      ensures Valid() && Rest() == Merge(front, back)
    {
      var f := new XMIterator(front);
      var b := new XMIterator(back);
      var p := new PeekIterator(f);
      var q := new PeekIterator(b);
      this.front, this.back, key, value := p, q, None, None;
    }

    method Next() returns (ok: bool)
      requires Valid()
      modifies this, front, back, front.iter, back.iter
      ensures Valid() && ok == (old(Rest()) != []) && Rest() == Tail(old(Rest()))
      ensures key == FirstKey(old(Rest())) && value == FirstData(old(Rest()))
    {
      if !front.next {
        ok := back.next;
        key, value := back.Next();
        return;
      }
      if !back.next {
        ok := front.next;
        key, value := front.Next();
        return;
      }
      var k1, _ := front.Peek();
      var k2, _ := back.Peek();
      var ret := CompareBytes(k1, k2);
      if ret == 0 {
        key, value := front.Next();
        var _, _ := back.Next();
      } else if ret == -1 {
        key, value := front.Next();
      } else {
        key, value := back.Next();
      }
      return true;
    }
  }

  // ---------------------------------------------------------------- Select

  method Collect(m: MultiIterator) returns (out: seq<Entry>)
    requires m.Valid()
    modifies m, m.front, m.back, m.front.iter, m.back.iter
    ensures out == old(m.Rest())
  {
    hide Merge, MultiIterator.Rest, PeekIterator.Rest;
    out := [];
    ghost var all := m.Rest();
    var ok := true;
    while ok
      invariant m.Valid() && (!ok ==> m.Rest() == [])
      invariant all == out + m.Rest()
      decreases |m.Rest()|, ok
    {
      ok := m.Next();
      if ok {
        out := out + [Entry(m.key.value, m.value.value)];
      }
    }
  }

  method CollectStripped(items: seq<Entry>) returns (out: seq<Entry>)
    ensures out == Strip(items)
  {
    hide Strip;
    var iter := new XMIterator(items);
    var s := new StripDelIterator(iter);
    out := [];
    var ok := true;
    while ok
      invariant s.iter == iter && (!ok ==> Strip(iter.items) == [])
      invariant Strip(items) == out + Strip(iter.items)
      decreases |Strip(iter.items)|, ok
    {
      ok := s.Next();
      if ok {
        out := out + [iter.cur.value];
      }
    }
  }

  /** The entries of a tree iterator, under their keys within the bucket. */
  ghost function InBucket(s: seq<Entry>): seq<Entry> {
    if s == [] then [] else [Entry(s[0].data.pure.key, s[0].data)] + InBucket(s[1..])
  }

  method Drain(it: TreeIterator) returns (out: seq<Entry>)
    requires it.Valid()
    modifies it
    ensures out == InBucket(old(it.Rest()))
  {
    hide Until, Less;
    out := [];
    ghost var all := it.Rest();
    var ok := true;
    while ok
      invariant it.Valid() && (!ok ==> it.Rest() == [])
      invariant InBucket(all) == out + InBucket(it.Rest())
      decreases |it.Rest()|, ok
    {
      ok := it.Next();
      if ok {
        var k := it.Key();
        var v := it.Value();
        out := out + [Entry(k.value, v.value)];
      }
    }
  }

  /** Every entry lies under the raw key it carries, in a bucket in scope. */
  ghost predicate OwnKeys(m: Table, scope: Bytes -> bool) {
    forall raw {:trigger raw in m} | raw in m ::
      RawKey(m[raw].pure.bucket, m[raw].pure.key) == raw && scope(m[raw].pure.bucket)
  }

  /** Whatever an execution has read and written so far lies under its own key. */
  lemma {:induction false} RunKeepsOwnKeys(contract: Contract, model: Reader, scope: Bytes -> bool, n: nat)
    requires Answers(model) && Uses(contract, scope)
    ensures OwnKeys(Run(contract, model, n).caches.inputs, scope)
    ensures OwnKeys(Run(contract, model, n).caches.outputs, scope)
  {
    hide RawKey;
    RunRecords(contract, model, scope, n);
    if n > 0 {
      RunKeepsOwnKeys(contract, model, scope, n - 1);
    }
  }

  /** What is selected from m for the bucket belongs to the bucket. */
  ghost predicate Owned(m: Table, bucket: Bytes, start: Option<Bytes>, end: Option<Bytes>) {
    forall raw {:trigger raw in m} | raw in m && Selects(bucket, start, end, raw) :: m[raw].pure.bucket == bucket
  }

  /** Without separators in bucket names it does. */
  lemma PlainIsOwned(m: Table, bucket: Bytes, start: Option<Bytes>, end: Option<Bytes>)
    requires PlainBucket(bucket) && OwnKeys(m, PlainBucket)
    ensures Owned(m, bucket, start, end)
  {
    forall raw | raw in m && Selects(bucket, start, end, raw)
      ensures m[raw].pure.bucket == bucket
    {
      assert raw == RawKey(bucket, raw[|bucket| + 1..]);
      RawKeyInjective(bucket, raw[|bucket| + 1..], m[raw].pure.bucket, m[raw].pure.key);
    }
  }

  /** The part of m that lies in a bucket between start and end, by key. */
  ghost predicate IsPart(p: Table, m: Table, bucket: Bytes, start: Option<Bytes>, end: Option<Bytes>) {
    forall k {:trigger IsPartAt(p, m, bucket, start, end, k)} :: IsPartAt(p, m, bucket, start, end, k)
  }

  ghost predicate IsPartAt(p: Table, m: Table, bucket: Bytes, start: Option<Bytes>, end: Option<Bytes>, k: Bytes) {
    Find(p, k) == if InRange(k, StartOf(start), end) then Find(m, RawKey(bucket, k)) else None
  }

  /** All entries of s lie in one bucket, under their own keys. */
  ghost predicate OneBucket(s: seq<Entry>, bucket: Bytes) {
    forall i {:trigger s[i]} | 0 <= i < |s| :: s[i].key == RawKey(bucket, s[i].data.pure.key)
  }

  ghost predicate SameAt(p: Table, m: Table, bucket: Bytes, k: Bytes) {
    Find(p, k) == Find(m, RawKey(bucket, k))
  }

  lemma {:induction false} InBucketKeeps(s: seq<Entry>, bucket: Bytes)
    requires Sorted(s) && OneBucket(s, bucket)
    ensures Sorted(InBucket(s))
    ensures forall k {:trigger SameAt(AsMap(InBucket(s)), AsMap(s), bucket, k)} ::
              SameAt(AsMap(InBucket(s)), AsMap(s), bucket, k)
  {
    if s != [] {
      SortedTail(s);
      HeadLeast(s);
      InBucketKeeps(s[1..], bucket);
      InBucketCons(s, bucket);
    }
  }

  lemma InBucketCons(s: seq<Entry>, bucket: Bytes)
    requires s != [] && OneBucket(s, bucket) && Above(s[1..], s[0].key) && Sorted(InBucket(s[1..]))
    requires forall k {:trigger SameAt(AsMap(InBucket(s[1..])), AsMap(s[1..]), bucket, k)} ::
               SameAt(AsMap(InBucket(s[1..])), AsMap(s[1..]), bucket, k)
    ensures Sorted(InBucket(s)) && forall k :: SameAt(AsMap(InBucket(s)), AsMap(s), bucket, k)
  {
    hide Sorted, Less, RawKey;
    var rest, e := InBucket(s[1..]), Entry(s[0].data.pure.key, s[0].data);
    forall k | k in AsMap(rest)
      ensures Less(e.key, k)
    {
      assert SameAt(AsMap(rest), AsMap(s[1..]), bucket, k);
      LessInBucket(bucket, e.key, k);
    }
    MergedCons(e, rest);
    forall k
      ensures SameAt(AsMap([e] + rest), AsMap(s), bucket, k)
    {
      assert SameAt(AsMap(rest), AsMap(s[1..]), bucket, k);
      SameRest(bucket, k, e.key);
    }
  }

  lemma LessInBucket(bucket: Bytes, a: Bytes, b: Bytes)
    ensures Less(RawKey(bucket, a), RawKey(bucket, b)) <==> Less(a, b)
  {
    LessAfterPrefix(bucket + [SEPARATOR], a, b);
  }

  lemma SameRest(bucket: Bytes, a: Bytes, b: Bytes)
    ensures RawKey(bucket, a) == RawKey(bucket, b) <==> a == b
  {
    assert RawKey(bucket, a)[|bucket| + 1..] == a && RawKey(bucket, b)[|bucket| + 1..] == b;
  }

  /** What a selection of a tree yields is its part of the bucket exactly if all of it belongs there. */
  lemma SelectedPart(s: seq<Entry>, m: Table, bucket: Bytes, start: Option<Bytes>, end: Option<Bytes>)
    requires OwnKeys(m, b => true) && Sorted(s)
    requires AsMap(s) == map raw | raw in m && Selects(bucket, start, end, raw) :: m[raw]
    ensures Owned(m, bucket, start, end) <==>
            Sorted(InBucket(s)) && IsPart(AsMap(InBucket(s)), m, bucket, start, end)
  {
    if Owned(m, bucket, start, end) {
      OwnedPart(s, m, bucket, start, end);
    } else if Sorted(InBucket(s)) && IsPart(AsMap(InBucket(s)), m, bucket, start, end) {
      PartOwned(s, m, bucket, start, end);
    }
  }

  lemma OwnedPart(s: seq<Entry>, m: Table, bucket: Bytes, start: Option<Bytes>, end: Option<Bytes>)
    requires OwnKeys(m, b => true) && Sorted(s) && Owned(m, bucket, start, end)
    requires AsMap(s) == map raw | raw in m && Selects(bucket, start, end, raw) :: m[raw]
    ensures Sorted(InBucket(s)) && IsPart(AsMap(InBucket(s)), m, bucket, start, end)
  {
    forall i | 0 <= i < |s|
      ensures s[i].key == RawKey(bucket, s[i].data.pure.key)
    {
      MapAt(s, i);
    }
    InBucketKeeps(s, bucket);
    forall k
      ensures IsPartAt(AsMap(InBucket(s)), m, bucket, start, end, k)
    {
      assert SameAt(AsMap(InBucket(s)), AsMap(s), bucket, k);
      assert RawKey(bucket, k)[|bucket| + 1..] == k && RawKey(bucket, []) <= RawKey(bucket, k);
    }
  }

  lemma PartOwned(s: seq<Entry>, m: Table, bucket: Bytes, start: Option<Bytes>, end: Option<Bytes>)
    requires OwnKeys(m, b => true) && Sorted(s)
    requires AsMap(s) == map raw | raw in m && Selects(bucket, start, end, raw) :: m[raw]
    requires Sorted(InBucket(s)) && IsPart(AsMap(InBucket(s)), m, bucket, start, end)
    ensures Owned(m, bucket, start, end)
  {
    hide Sorted, Selects, Less;
    forall raw | raw in m && Selects(bucket, start, end, raw)
      ensures m[raw].pure.bucket == bucket
    {
      assert raw in AsMap(s);
      var i := MapHas(s, raw);
      InBucketAt(s, i);
      MapAt(InBucket(s), i);
      var k := m[raw].pure.key;
      assert IsPartAt(AsMap(InBucket(s)), m, bucket, start, end, k);
      assert RawKey(bucket, k) in m && m[RawKey(bucket, k)] == m[raw];
      BucketOf(m[raw].pure.bucket, bucket, k);
    }
  }

  lemma {:induction false} InBucketAt(s: seq<Entry>, i: nat)
    requires i < |s|
    ensures |InBucket(s)| == |s| && InBucket(s)[i] == Entry(s[i].data.pure.key, s[i].data)
  {
    if |s| > 1 {
      InBucketAt(s[1..], if i > 0 then i - 1 else 0);
    }
  }

  lemma BucketOf(a: Bytes, b: Bytes, k: Bytes)
    requires RawKey(a, k) == RawKey(b, k)
    ensures a == b
  {
    assert |a| == |b|;
    assert a == RawKey(a, k)[..|a|] && b == RawKey(b, k)[..|a|];
  }

  /** A write to key "c" of bucket "a/b" turns up in a selection of bucket "a", as key "c". */
  lemma ForeignWriteSelected()
    ensures var ab, c := [0x61, SEPARATOR, 0x62], [0x63];
            var d := VersionedData(None, 0, PureData(ab, c, [7]));
            var m := map[RawKey(ab, c) := d];
            && OwnKeys(m, b => true) && Selects([0x61], None, None, RawKey(ab, c)) && !Owned(m, [0x61], None, None)
            && InBucket([Entry(RawKey(ab, c), d)]) == [Entry(c, d)]
  {
    var ab, c := [0x61, SEPARATOR, 0x62], [0x63];
    var d := VersionedData(None, 0, PureData(ab, c, [7]));
    var m, raw := map[RawKey(ab, c) := d], RawKey(ab, c);
    assert [Entry(raw, d)][1..] == [];
    assert raw == [0x61, SEPARATOR, 0x62, SEPARATOR, 0x63] && RawKey([0x61], []) == raw[..2];
    assert raw[2..] == [0x62, SEPARATOR, 0x63];
    assert Selects([0x61], None, None, raw);
    assert raw in m && m[raw].pure.bucket != [0x61];
  }

  /** Writes over reads over the backend, in key order. Delete marks of the reads and of the backend
      are not seen; those of the writes are. */
  ghost predicate Overlays(rest: seq<Entry>, c: Caches, backend: seq<Entry>, bucket: Bytes, start: Option<Bytes>,
                           end: Option<Bytes>) {
    && Sorted(rest)
    && forall k {:trigger OverlaysAt(AsMap(rest), c, backend, bucket, start, end, k)} ::
         OverlaysAt(AsMap(rest), c, backend, bucket, start, end, k)
  }

  ghost predicate OverlaysAt(m: Table, c: Caches, backend: seq<Entry>, bucket: Bytes, start: Option<Bytes>,
                             end: Option<Bytes>, k: Bytes) {
    var raw, within := RawKey(bucket, k), InRange(k, StartOf(start), end);
    Find(m, k) ==
    if within && raw in c.outputs then Some(c.outputs[raw])
    else if within && raw in c.inputs && !IsDelFlag(c.inputs[raw].pure.value) then Some(c.inputs[raw])
    else Find(Live(AsMap(backend)), k)
  }

  lemma PartsOverlay(w: seq<Entry>, r: seq<Entry>, backend: seq<Entry>, c: Caches, bucket: Bytes,
                     start: Option<Bytes>, end: Option<Bytes>)
    requires Sorted(w) && IsPart(AsMap(w), c.outputs, bucket, start, end)
    requires Sorted(r) && IsPart(AsMap(r), c.inputs, bucket, start, end) && Sorted(backend)
    ensures Overlays(Merge(w, Merge(Strip(r), Strip(backend))), c, backend, bucket, start, end)
  {
    hide Merge, Strip, Sorted, AsMap, Live, IsPartAt, OverlaysAt;
    StripIsLive(r);
    StripIsLive(backend);
    MergeIsOverlay(Strip(r), Strip(backend));
    MergeIsOverlay(w, Merge(Strip(r), Strip(backend)));
    var all := Merge(w, Merge(Strip(r), Strip(backend)));
    assert AsMap(all) == Live(AsMap(backend)) + Live(AsMap(r)) + AsMap(w);
    forall k
      ensures OverlaysAt(AsMap(all), c, backend, bucket, start, end, k)
    {
      PartsOverlayAt(AsMap(w), AsMap(r), backend, c, bucket, start, end, k);
    }
  }

  lemma PartsOverlayAt(w: Table, r: Table, backend: seq<Entry>, c: Caches, bucket: Bytes, start: Option<Bytes>,
                       end: Option<Bytes>, k: Bytes)
    requires IsPartAt(w, c.outputs, bucket, start, end, k) && IsPartAt(r, c.inputs, bucket, start, end, k)
    ensures OverlaysAt(Live(AsMap(backend)) + Live(r) + w, c, backend, bucket, start, end, k)
  {
  }

  /** The tree entries that a selection ranges over. */
  ghost predicate IsSelection(s: seq<Entry>, m: Table, bucket: Bytes, start: Option<Bytes>, end: Option<Bytes>) {
    Sorted(s) && AsMap(s) == map raw | raw in m && Selects(bucket, start, end, raw) :: m[raw]
  }

  /** The iterator of Select over the caches and the backend's own selection, None when that failed.
      The caches' selections fail only on arguments on which the backend's fails as well. */
  method Select(cache: XMCache, bucket: Bytes, start: Option<Bytes>, end: Option<Bytes>, backend: Option<seq<Entry>>)
    returns (r: Option<MultiIterator>, ghost w: seq<Entry>, ghost i: seq<Entry>)
    requires cache.Valid()
    requires backend.Some? ==> bucket != [] && !(start.Some? && end.Some? && Less(end.value, start.value))
    ensures r.None? <==> backend.None?
    ensures r.Some? ==> fresh(r.value) && r.value.Valid()
    ensures r.Some? ==>
              && IsSelection(w, cache.View().outputs, bucket, start, end)
              && IsSelection(i, cache.View().inputs, bucket, start, end)
              && r.value.Rest() == Merge(InBucket(w), Merge(Strip(InBucket(i)), Strip(backend.value)))
    ensures r.Some? && Sorted(backend.value) && OwnedCaches(cache.View(), bucket, start, end) ==>
              Overlays(r.value.Rest(), cache.View(), backend.value, bucket, start, end)
  {
    if backend.None? {
      return None, [], [];
    }
    var outputs := cache.outputsCache.Select(bucket, start, end);
    var inputs := cache.inputsCache.Select(bucket, start, end);
    w, i := outputs.value.Rest(), inputs.value.Rest();
    var writes := Drain(outputs.value);
    var read := Drain(inputs.value);
    var cached := CollectStripped(read);
    var stored := CollectStripped(backend.value);
    var inner := new MultiIterator(cached, stored);
    var rest := Collect(inner);
    var outer := new MultiIterator(writes, rest);
    if Sorted(backend.value) && OwnedCaches(cache.View(), bucket, start, end) {
      SelectOverlays(w, i, cache.View(), backend.value, bucket, start, end);
    }
    r := Some(outer);
  }

  ghost predicate OwnedCaches(c: Caches, bucket: Bytes, start: Option<Bytes>, end: Option<Bytes>) {
    && OwnKeys(c.outputs, b => true) && Owned(c.outputs, bucket, start, end)
    && OwnKeys(c.inputs, b => true) && Owned(c.inputs, bucket, start, end)
  }

  /** Where what is selected belongs to the bucket, that is writes over reads over the backend. */
  lemma SelectOverlays(w: seq<Entry>, i: seq<Entry>, c: Caches, backend: seq<Entry>, bucket: Bytes,
                       start: Option<Bytes>, end: Option<Bytes>)
    requires OwnedCaches(c, bucket, start, end)
    requires IsSelection(w, c.outputs, bucket, start, end) && IsSelection(i, c.inputs, bucket, start, end)
    requires Sorted(backend)
    ensures Overlays(Merge(InBucket(w), Merge(Strip(InBucket(i)), Strip(backend))), c, backend, bucket, start, end)
  {
    SelectedPart(w, c.outputs, bucket, start, end);
    SelectedPart(i, c.inputs, bucket, start, end);
    PartsOverlay(InBucket(w), InBucket(i), backend, c, bucket, start, end);
  }

  /** So in every execution that keeps to buckets without separators, Select shows the writes so far over
      the reads so far over the backend. */
  lemma SelectInRun(contract: Contract, model: Reader, n: nat, w: seq<Entry>, i: seq<Entry>, backend: seq<Entry>,
                    bucket: Bytes, start: Option<Bytes>, end: Option<Bytes>)
    requires Answers(model) && Uses(contract, PlainBucket) && PlainBucket(bucket) && Sorted(backend)
    requires IsSelection(w, Run(contract, model, n).caches.outputs, bucket, start, end)
    requires IsSelection(i, Run(contract, model, n).caches.inputs, bucket, start, end)
    ensures Overlays(Merge(InBucket(w), Merge(Strip(InBucket(i)), Strip(backend))), Run(contract, model, n).caches,
                     backend, bucket, start, end)
  {
    hide Overlays, IsSelection, Merge, Strip, InBucket, Owned;
    var c := Run(contract, model, n).caches;
    RunKeepsOwnKeys(contract, model, PlainBucket, n);
    PlainIsOwned(c.outputs, bucket, start, end);
    PlainIsOwned(c.inputs, bucket, start, end);
    SelectOverlays(w, i, c, backend, bucket, start, end);
  }
}
