/** The contract sandbox: reads and writes of one execution are collected so that it can be verified
    later by executing it again from its read set. */
module Sandbox {
  import opened Types
  import opened Bytes
  import opened MemModel
  import opened WriteSets

  /** A backend answers with data or does not find the key. */
  type Reader = (Bytes, Bytes) -> Option<VersionedData>

  type Table = map<Bytes, VersionedData>

  const TRANSIENT_BUCKET: Bytes := [0x24, 0x74, 0x72, 0x61, 0x6e, 0x73, 0x69, 0x65, 0x6e, 0x74]

  datatype Outcome = Value(value: Bytes) | NotFound | HasDel | Done

  /** What has been read from the backend, and what has been written. */
  datatype Caches = Caches(inputs: Table, outputs: Table)

  function ReadOutcome(d: VersionedData): Outcome {
    if IsEmptyVersionedData(d) then NotFound
    else if IsDelFlag(d.pure.value) then HasDel
    else Value(d.pure.value)
  }

  function WrittenOutcome(d: VersionedData): Outcome {
    if IsDelFlag(d.pure.value) then HasDel else Value(d.pure.value)
  }

  // ---------------------------------------------------------------- the steps as functions

  ghost function Fetch(model: Reader, inputs: Table, bucket: Bytes, key: Bytes): Option<VersionedData> {
    var raw := RawKey(bucket, key);
    if raw in inputs then Some(inputs[raw]) else model(bucket, key)
  }

  ghost function GetResult(model: Reader, c: Caches, bucket: Bytes, key: Bytes): Outcome {
    var raw := RawKey(bucket, key);
    if raw in c.outputs then WrittenOutcome(c.outputs[raw])
    else match Fetch(model, c.inputs, bucket, key)
      case Some(d) => ReadOutcome(d)
      case None => NotFound
  }

  ghost function AfterGet(model: Reader, c: Caches, bucket: Bytes, key: Bytes): Caches {
    var raw := RawKey(bucket, key);
    if raw in c.outputs then c
    else match Fetch(model, c.inputs, bucket, key)
      case Some(d) => c.(inputs := c.inputs[raw := d])
      case None => c
  }

  ghost function AfterPut(model: Reader, c: Caches, bucket: Bytes, key: Bytes, value: Bytes): Caches {
    var read := if bucket == TRANSIENT_BUCKET then c else AfterGet(model, c, bucket, key);
    read.(outputs := read.outputs[RawKey(bucket, key) := VersionedData(None, 0, PureData(bucket, key, value))])
  }

  // ---------------------------------------------------------------- the sandbox

  class XMCache {
    const model: Reader
    const inputsCache: MemXModel
    const outputsCache: MemXModel

    ghost predicate Valid()
      reads this, inputsCache, outputsCache
    {
      inputsCache != outputsCache && inputsCache.Valid() && outputsCache.Valid()
    }

    ghost function View(): Caches
      reads this, inputsCache, outputsCache
    {
      Caches(AsMap(inputsCache.tree), AsMap(outputsCache.tree))
    }

    constructor (model: Reader)
      ensures this.model == model && fresh(inputsCache) && fresh(outputsCache)
      ensures Valid() && View() == Caches(map[], map[])
    {
      this.model := model;
      inputsCache := new MemXModel();
      outputsCache := new MemXModel();
    }

    method Get(bucket: Bytes, key: Bytes) returns (r: Outcome)
      requires Valid()
      modifies inputsCache
      ensures Valid() && View() == AfterGet(model, old(View()), bucket, key)
      ensures r == GetResult(model, old(View()), bucket, key)
    {
      var written := outputsCache.Get(bucket, key);
      if written.Some? {
        return WrittenOutcome(written.value);
      }
      var data := GetAndSetFromInputsCache(bucket, key);
      if data.None? {
        return NotFound;
      }
      return ReadOutcome(data.value);
    }

    /** Reads through the input cache, filling it from the backend. */
    method GetAndSetFromInputsCache(bucket: Bytes, key: Bytes) returns (r: Option<VersionedData>)
      requires Valid()
      modifies inputsCache
      ensures Valid() && outputsCache.tree == old(outputsCache.tree)
      ensures r == Fetch(model, old(View()).inputs, bucket, key)
      ensures View().inputs ==
              if r.Some? then old(View()).inputs[RawKey(bucket, key) := r.value] else old(View()).inputs
    {
      r := inputsCache.Get(bucket, key);
      if r.None? {
        r := model(bucket, key);
        if r.Some? {
          inputsCache.Put(bucket, key, r.value);
        }
      }
    }

    method Put(bucket: Bytes, key: Bytes, value: Bytes)
      requires Valid()
      modifies inputsCache, outputsCache
      ensures Valid() && View() == AfterPut(model, old(View()), bucket, key, value)
    {
      if bucket != TRANSIENT_BUCKET {
        var _ := Get(bucket, key);
      }
      outputsCache.Put(bucket, key, VersionedData(None, 0, PureData(bucket, key, value)));
    }

    method Del(bucket: Bytes, key: Bytes)
      requires Valid()
      modifies inputsCache, outputsCache
      ensures Valid() && View() == AfterPut(model, old(View()), bucket, key, DEL_FLAG)
    {
      Put(bucket, key, DEL_FLAG);
    }

    /** The read set and the write set, in key order. */
    method RWSet() returns (rset: seq<VersionedData>, wset: seq<PureData>)
      requires Valid()
      ensures IsReadSet(rset, View().inputs) && IsWriteSet(wset, View().outputs)
    {
      rset := [];
      for i := 0 to |inputsCache.tree|
        invariant rset == DataOf(inputsCache.tree[..i])
      {
        assert inputsCache.tree[..i + 1][..i] == inputsCache.tree[..i];
        rset := rset + [inputsCache.tree[i].data];
      }
      assert inputsCache.tree[..|inputsCache.tree|] == inputsCache.tree;
      wset := [];
      for i := 0 to |outputsCache.tree|
        invariant wset == PureOf(DataOf(outputsCache.tree[..i]))
      {
        assert outputsCache.tree[..i + 1][..i] == outputsCache.tree[..i];
        PureSnoc(DataOf(outputsCache.tree[..i]), outputsCache.tree[i].data);
        wset := wset + [outputsCache.tree[i].data.pure];
      }
      assert outputsCache.tree[..|outputsCache.tree|] == outputsCache.tree;
    }

    /** Executes n steps of a contract. */
    method Execute(contract: Contract, n: nat) returns (outcomes: seq<Outcome>)
      requires Valid() && View() == Caches(map[], map[])
      modifies inputsCache, outputsCache
      ensures Valid() && Trace(View(), outcomes) == Run(contract, model, n)
    {
      outcomes := [];
      for i := 0 to n
        invariant Valid() && Trace(View(), outcomes) == Run(contract, model, i)
      {
        match contract(outcomes)
        case GetOp(bucket, key) =>
          var r := Get(bucket, key);
          outcomes := outcomes + [r];
        case PutOp(bucket, key, value) =>
          Put(bucket, key, value);
          outcomes := outcomes + [Done];
        case DelOp(bucket, key) =>
          Del(bucket, key);
          outcomes := outcomes + [Done];
      }
    }
  }

  // ---------------------------------------------------------------- executions

  datatype Op = GetOp(bucket: Bytes, key: Bytes)
              | PutOp(bucket: Bytes, key: Bytes, value: Bytes)
              | DelOp(bucket: Bytes, key: Bytes)

  /** A deterministic contract chooses its next operation from the outcomes so far. */
  type Contract = seq<Outcome> -> Op

  datatype Trace = Trace(caches: Caches, outcomes: seq<Outcome>)

  ghost function OpResult(model: Reader, c: Caches, op: Op): Outcome {
    if op.GetOp? then GetResult(model, c, op.bucket, op.key) else Done
  }

  ghost function AfterOp(model: Reader, c: Caches, op: Op): Caches {
    match op
    case GetOp(bucket, key) => AfterGet(model, c, bucket, key)
    case PutOp(bucket, key, value) => AfterPut(model, c, bucket, key, value)
    case DelOp(bucket, key) => AfterPut(model, c, bucket, key, DEL_FLAG)
  }

  /** n steps of a contract over a backend, starting with empty caches. */
  ghost function Run(contract: Contract, model: Reader, n: nat): Trace {
    if n == 0 then Trace(Caches(map[], map[]), [])
    else
      var before := Run(contract, model, n - 1);
      var op := contract(before.outcomes);
      Trace(AfterOp(model, before.caches, op), before.outcomes + [OpResult(model, before.caches, op)])
  }

  ghost function DataOf(s: seq<Entry>): seq<VersionedData> {
    if s == [] then [] else DataOf(s[..|s| - 1]) + [s[|s| - 1].data]
  }

  ghost function PureOf(s: seq<VersionedData>): seq<PureData> {
    if s == [] then [] else PureOf(s[..|s| - 1]) + [s[|s| - 1].pure]
  }

  lemma PureSnoc(s: seq<VersionedData>, d: VersionedData)
    ensures PureOf(s + [d]) == PureOf(s) + [d.pure]
  {
  }

  ghost predicate IsReadSet(rset: seq<VersionedData>, inputs: Table) {
    exists tree :: Sorted(tree) && AsMap(tree) == inputs && rset == DataOf(tree)
  }

  ghost predicate IsWriteSet(wset: seq<PureData>, outputs: Table) {
    exists tree :: Sorted(tree) && AsMap(tree) == outputs && wset == PureOf(DataOf(tree))
  }

  // ---------------------------------------------------------------- replaying from the read set

  /** The data answered is data for the key that was asked for. */
  ghost predicate Answers(model: Reader) {
    forall b, k {:trigger model(b, k)} | model(b, k).Some? ::
      model(b, k).value.pure.bucket == b && model(b, k).value.pure.key == k
  }

  /** Among the buckets in scope, a key with data is never missing under another name with the same
      raw key. */
  ghost predicate Consistent(model: Reader, scope: Bytes -> bool) {
    forall b, k, b2, k2 {:trigger model(b, k), model(b2, k2)}
      | scope(b) && scope(b2) && RawKey(b, k) == RawKey(b2, k2) && model(b, k).Some?
        && !IsEmptyVersionedData(model(b, k).value) ::
      model(b2, k2).Some?
  }

  ghost predicate Uses(contract: Contract, scope: Bytes -> bool) {
    forall h {:trigger contract(h)} :: scope(contract(h).bucket)
  }

  /** The reader made from a read set. */
  ghost function ReaderOf(m: Table): Reader {
    (b, k) => Find(m, RawKey(b, k))
  }

  ghost predicate SubMap(a: Table, b: Table) {
    forall k {:trigger k in a} | k in a :: k in b && b[k] == a[k]
  }

  /** Everything in the input cache was answered by the backend, in a bucket in scope. */
  ghost predicate Recorded(model: Reader, scope: Bytes -> bool, inputs: Table) {
    forall raw {:trigger raw in inputs} | raw in inputs ::
      var p := inputs[raw].pure;
      RawKey(p.bucket, p.key) == raw && model(p.bucket, p.key) == Some(inputs[raw]) && scope(p.bucket)
  }

  lemma GetGrows(model: Reader, scope: Bytes -> bool, c: Caches, bucket: Bytes, key: Bytes)
    requires Answers(model) && Recorded(model, scope, c.inputs) && scope(bucket)
    ensures var after := AfterGet(model, c, bucket, key);
            Recorded(model, scope, after.inputs) && SubMap(c.inputs, after.inputs) && after.outputs == c.outputs
  {
  }

  lemma OpGrows(model: Reader, scope: Bytes -> bool, c: Caches, op: Op)
    requires Answers(model) && Recorded(model, scope, c.inputs) && scope(op.bucket)
    ensures Recorded(model, scope, AfterOp(model, c, op).inputs) && SubMap(c.inputs, AfterOp(model, c, op).inputs)
  {
    GetGrows(model, scope, c, op.bucket, op.key);
  }

  lemma {:induction false} RunRecords(contract: Contract, model: Reader, scope: Bytes -> bool, n: nat)
    requires Answers(model) && Uses(contract, scope)
    ensures Recorded(model, scope, Run(contract, model, n).caches.inputs)
  {
    if n > 0 {
      RunRecords(contract, model, scope, n - 1);
      var before := Run(contract, model, n - 1);
      OpGrows(model, scope, before.caches, contract(before.outcomes));
    }
  }

  lemma {:induction false} RunGrows(contract: Contract, model: Reader, scope: Bytes -> bool, j: nat, n: nat)
    requires Answers(model) && Uses(contract, scope) && j <= n
    ensures SubMap(Run(contract, model, j).caches.inputs, Run(contract, model, n).caches.inputs)
    decreases n
  {
    if j < n {
      RunGrows(contract, model, scope, j, n - 1);
      var before := Run(contract, model, n - 1);
      RunRecords(contract, model, scope, n - 1);
      OpGrows(model, scope, before.caches, contract(before.outcomes));
    }
  }

  /** One read, by an execution and by its replay over m, what the execution will have read. */
  ghost predicate InStep(a: Caches, b: Caches, m: Table) {
    a.outputs == b.outputs && SubMap(a.inputs, b.inputs) && SubMap(b.inputs, m)
  }

  lemma GetInStep(model: Reader, scope: Bytes -> bool, m: Table, a: Caches, b: Caches, bucket: Bytes, key: Bytes)
    requires Answers(model) && Consistent(model, scope) && Recorded(model, scope, m) && scope(bucket)
    requires InStep(a, b, m) && SubMap(AfterGet(model, a, bucket, key).inputs, m)
    ensures GetResult(model, a, bucket, key) == GetResult(ReaderOf(m), b, bucket, key)
    ensures InStep(AfterGet(model, a, bucket, key), AfterGet(ReaderOf(m), b, bucket, key), m)
  {
    var raw := RawKey(bucket, key);
    if raw !in a.outputs {
      if Fetch(model, a.inputs, bucket, key).Some? {
        assert raw in AfterGet(model, a, bucket, key).inputs;
      } else if raw in m {
        MissingIsEmpty(model, scope, m, bucket, key);
      }
    }
  }

  /** What the backend did not find can only have been recorded under another name as empty. */
  lemma MissingIsEmpty(model: Reader, scope: Bytes -> bool, m: Table, bucket: Bytes, key: Bytes)
    requires Consistent(model, scope) && Recorded(model, scope, m) && scope(bucket)
    requires RawKey(bucket, key) in m && model(bucket, key).None?
    ensures IsEmptyVersionedData(m[RawKey(bucket, key)])
  {
  }

  lemma OpInStep(model: Reader, scope: Bytes -> bool, m: Table, a: Caches, b: Caches, op: Op)
    requires Answers(model) && Consistent(model, scope) && Recorded(model, scope, m) && scope(op.bucket)
    requires InStep(a, b, m) && SubMap(AfterOp(model, a, op).inputs, m)
    ensures OpResult(model, a, op) == OpResult(ReaderOf(m), b, op)
    ensures InStep(AfterOp(model, a, op), AfterOp(ReaderOf(m), b, op), m)
  {
    if op.GetOp? || op.bucket != TRANSIENT_BUCKET {
      GetInStep(model, scope, m, a, b, op.bucket, op.key);
    }
  }

  lemma {:induction false} Lockstep(contract: Contract, model: Reader, scope: Bytes -> bool, n: nat, j: nat)
    requires Answers(model) && Consistent(model, scope) && Uses(contract, scope) && j <= n
    ensures var m := Run(contract, model, n).caches.inputs;
            var a, b := Run(contract, model, j), Run(contract, ReaderOf(m), j);
            a.outcomes == b.outcomes && InStep(a.caches, b.caches, m)
    decreases j
  {
    if j > 0 {
      Lockstep(contract, model, scope, n, j - 1);
      RunRecords(contract, model, scope, n);
      RunGrows(contract, model, scope, j, n);
      var m := Run(contract, model, n).caches.inputs;
      var a, b := Run(contract, model, j - 1), Run(contract, ReaderOf(m), j - 1);
      OpInStep(model, scope, m, a.caches, b.caches, contract(a.outcomes));
    }
  }

  /** Executing again over the read set gives the same outcomes, the same read set and the same
      write set. */
  ghost predicate Replays(contract: Contract, model: Reader, n: nat) {
    Run(contract, ReaderOf(Run(contract, model, n).caches.inputs), n) == Run(contract, model, n)
  }

  lemma ReplaySound(contract: Contract, model: Reader, scope: Bytes -> bool, n: nat)
    requires Answers(model) && Consistent(model, scope) && Uses(contract, scope)
    ensures Replays(contract, model, n)
  {
    Lockstep(contract, model, scope, n, n);
    var a := Run(contract, model, n);
    var b := Run(contract, ReaderOf(a.caches.inputs), n);
    assert a.caches.inputs == b.caches.inputs;
  }

  /** Without the separator in bucket names, every execution over every backend can be replayed. */
  lemma ReplaySoundPlain(contract: Contract, model: Reader, n: nat)
    requires Answers(model) && Uses(contract, PlainBucket)
    ensures Replays(contract, model, n)
  {
    forall b, k, b2, k2 | PlainBucket(b) && PlainBucket(b2) && RawKey(b, k) == RawKey(b2, k2)
      ensures b == b2 && k == k2
    {
      RawKeyInjective(b, k, b2, k2);
    }
    ReplaySound(contract, model, PlainBucket, n);
  }

  predicate PlainBucket(b: Bytes) {
    SEPARATOR !in b
  }

  lemma RawKeyInjective(b: Bytes, k: Bytes, b2: Bytes, k2: Bytes)
    requires PlainBucket(b) && PlainBucket(b2) && RawKey(b, k) == RawKey(b2, k2)
    ensures b == b2 && k == k2
  {
    var raw := RawKey(b, k);
    assert raw[|b|] == SEPARATOR && raw[|b2|] == SEPARATOR;
    assert forall i | 0 <= i < |b| :: raw[i] == b[i] && b[i] in b;
    assert forall i | 0 <= i < |b2| :: raw[i] == b2[i] && b2[i] in b2;
    assert raw[..|b|] == b && RawKey(b2, k2)[..|b2|] == b2;
    assert raw[|b| + 1..] == k && RawKey(b2, k2)[|b2| + 1..] == k2;
  }

  /** Exactly when every execution can be replayed. */
  lemma ReplaySoundIff(model: Reader)
    requires Answers(model)
    ensures Consistent(model, b => true) <==> forall contract: Contract, n {:trigger Replays(contract, model, n)} ::
              Replays(contract, model, n)
  {
    if Consistent(model, b => true) {
      forall contract: Contract, n: nat
        ensures Replays(contract, model, n)
      {
        ReplaySound(contract, model, b => true, n);
      }
    } else {
      var b, k, b2, k2 :| RawKey(b, k) == RawKey(b2, k2) && model(b, k).Some?
                          && !IsEmptyVersionedData(model(b, k).value)
                          && model(b2, k2).None?;
      ReplayFails(model, b, k, b2, k2);
    }
  }

  /** Missing a key first, and then finding data under another name with the same raw key. */
  function MissThenHit(b: Bytes, k: Bytes, b2: Bytes, k2: Bytes): Contract {
    (h: seq<Outcome>) => if h == [] then GetOp(b2, k2) else GetOp(b, k)
  }

  lemma ReplayFails(model: Reader, b: Bytes, k: Bytes, b2: Bytes, k2: Bytes)
    requires RawKey(b, k) == RawKey(b2, k2) && model(b2, k2).None?
    requires model(b, k).Some? && !IsEmptyVersionedData(model(b, k).value)
    ensures !Replays(MissThenHit(b, k, b2, k2), model, 2)
  {
    var contract := MissThenHit(b, k, b2, k2);
    var first := Run(contract, model, 1);
    assert first.outcomes == [NotFound] && first.caches == Caches(map[], map[]);
    var m := Run(contract, model, 2).caches.inputs;
    assert m == map[RawKey(b, k) := model(b, k).value];
    assert Run(contract, ReaderOf(m), 1).outcomes == [ReadOutcome(model(b, k).value)];
    assert Run(contract, ReaderOf(m), 2).outcomes[0] == ReadOutcome(model(b, k).value);
    assert Run(contract, model, 2).outcomes[0] == NotFound;
  }

  /** A backend that holds data for key "c" of bucket "a/b" only. */
  function SlashBackend(b: Bytes, k: Bytes): Option<VersionedData> {
    if b == [0x61, SEPARATOR, 0x62] && k == [0x63] then Some(VersionedData(Some([1]), 0, PureData(b, k, [7]))) else None
  }

  /** Its raw key is also that of "b/c" in bucket "a": reading both, this one first, cannot be replayed. */
  lemma SlashBackendFails()
    ensures Answers(SlashBackend) && !Consistent(SlashBackend, b => true)
    ensures !Replays(MissThenHit([0x61, SEPARATOR, 0x62], [0x63], [0x61], [0x62, SEPARATOR, 0x63]), SlashBackend, 2)
  {
    var b, k, b2, k2 := [0x61, SEPARATOR, 0x62], [0x63], [0x61], [0x62, SEPARATOR, 0x63];
    assert RawKey(b, k) == RawKey(b2, k2);
    assert SlashBackend(b, k).Some? && SlashBackend(b2, k2).None?;
    ReplayFails(SlashBackend, b, k, b2, k2);
  }

  // ---------------------------------------------------------------- verification

  /** The tree XMReaderFromRWSet builds: each item under the key it carries. */
  ghost function Keyed(rset: seq<VersionedData>): Table {
    if rset == [] then map[]
    else
      var d := rset[|rset| - 1];
      Keyed(rset[..|rset| - 1])[RawKey(d.pure.bucket, d.pure.key) := d]
  }

  method XMReaderFromRWSet(rset: seq<VersionedData>) returns (m: MemXModel)
    ensures fresh(m) && m.Valid() && AsMap(m.tree) == Keyed(rset)
  {
    m := new MemXModel();
    for i := 0 to |rset|
      invariant m.Valid() && AsMap(m.tree) == Keyed(rset[..i])
    {
      assert rset[..i + 1][..i] == rset[..i];
      m.Put(rset[i].pure.bucket, rset[i].pure.key, rset[i]);
    }
    assert rset[..|rset|] == rset;
  }

  /** The tree of a read set is the input cache it was taken from. */
  lemma {:induction false} KeyedIsMap(tree: seq<Entry>)
    requires Sorted(tree)
    requires forall i | 0 <= i < |tree| :: tree[i].key == RawKey(tree[i].data.pure.bucket, tree[i].data.pure.key)
    ensures Keyed(DataOf(tree)) == AsMap(tree)
    decreases |tree|
  {
    hide Sorted, RawKey;
    if tree != [] {
      var n := |tree| - 1;
      var front, e := tree[..n], tree[n];
      SortedSlice(tree, 0, n);
      assert tree[0..n] == front;
      KeyedIsMap(front);
      assert DataOf(tree)[..|DataOf(tree)| - 1] == DataOf(front);
      assert tree == front + [e];
      MapConcat(front, [e]);
      LastIsNew(tree);
      assert AsMap([e]) == map[e.key := e.data];
    }
  }

  lemma LastIsNew(tree: seq<Entry>)
    requires Sorted(tree) && tree != []
    ensures tree[|tree| - 1].key !in AsMap(tree[..|tree| - 1])
  {
    var n := |tree| - 1;
    var k := tree[n].key;
    LessIrreflexive(k);
    forall i | 0 <= i < n
      ensures tree[i].key != k
    {
      assert KeysRise(tree, i, n);
    }
    if k in AsMap(tree[..n]) {
      var i := MapHas(tree[..n], k);
    }
  }

  function Lookup(tree: seq<Entry>, k: Bytes): (r: Option<VersionedData>)
    ensures r == Find(AsMap(tree), k)
  {
    if tree == [] then None
    else if tree[0].key == k then Some(tree[0].data)
    else Lookup(tree[1..], k)
  }

  /** What executing a contract over a read set writes, and the write set claimed, show the same. */
  ghost predicate Verifies(contract: Contract, n: nat, rset: seq<VersionedData>, wset: seq<PureData>) {
    exists written ::
      && IsWriteSet(written, Run(contract, ReaderOf(Keyed(rset)), n).caches.outputs)
      && multiset(AllShown(wset)) == multiset(AllShown(written))
  }

  /** Executes a contract again over a read set, and compares the write sets. */
  method Verify(contract: Contract, n: nat, rset: seq<VersionedData>, wset: seq<PureData>) returns (ok: bool)
    ensures ok <==> Verifies(contract, n, rset, wset)
  {
    var m := XMReaderFromRWSet(rset);
    var tree := m.tree;
    var reader: Reader := (b, k) => Lookup(tree, RawKey(b, k));
    var cache := new XMCache(reader);
    var _ := cache.Execute(contract, n);
    var _, written := cache.RWSet();
    ok := Equal(wset, written);
    SameReader(contract, reader, ReaderOf(Keyed(rset)), n);
    assert cache.View().outputs == Run(contract, ReaderOf(Keyed(rset)), n).caches.outputs;
    VerifiesIff(contract, n, rset, wset, written);
  }

  /** The write set of an execution is one, so it is the one to compare with. */
  lemma VerifiesIff(contract: Contract, n: nat, rset: seq<VersionedData>, wset: seq<PureData>, written: seq<PureData>)
    requires IsWriteSet(written, Run(contract, ReaderOf(Keyed(rset)), n).caches.outputs)
    ensures Verifies(contract, n, rset, wset) <==> multiset(AllShown(wset)) == multiset(AllShown(written))
  {
    hide IsWriteSet, Run, Keyed, ReaderOf;
    var outputs := Run(contract, ReaderOf(Keyed(rset)), n).caches.outputs;
    forall w | IsWriteSet(w, outputs)
      ensures w == written
    {
      WriteSetUnique(w, written, outputs);
    }
  }

  /** What was recorded from an execution that can be replayed passes; with the recorded read set, nothing
      else passes. */
  lemma RecordedVerifies(contract: Contract, model: Reader, n: nat, rset: seq<VersionedData>, recorded: seq<PureData>,
                         wset: seq<PureData>)
    requires Answers(model) && Replays(contract, model, n)
    requires IsReadSet(rset, Run(contract, model, n).caches.inputs)
    requires IsWriteSet(recorded, Run(contract, model, n).caches.outputs)
    ensures Verifies(contract, n, rset, wset) <==> multiset(AllShown(wset)) == multiset(AllShown(recorded))
  {
    ReadSetIsMap(contract, model, n, rset);
    forall w | IsWriteSet(w, Run(contract, model, n).caches.outputs)
      ensures w == recorded
    {
      WriteSetUnique(w, recorded, Run(contract, model, n).caches.outputs);
    }
  }

  /** Writes are compared by raw key: without the separator in bucket names that tells them apart. */
  lemma ShownDetermines(a: PureData, b: PureData)
    requires PlainBucket(a.bucket) && PlainBucket(b.bucket)
    ensures ShownAs(a) == ShownAs(b) <==> a == b
  {
    if ShownAs(a) == ShownAs(b) {
      RawKeyInjective(a.bucket, a.key, b.bucket, b.key);
    }
  }

  lemma ReadSetIsMap(contract: Contract, model: Reader, n: nat, rset: seq<VersionedData>)
    requires Answers(model) && IsReadSet(rset, Run(contract, model, n).caches.inputs)
    ensures Keyed(rset) == Run(contract, model, n).caches.inputs
  {
    var m := Run(contract, model, n).caches.inputs;
    var tree: seq<Entry> :| Sorted(tree) && AsMap(tree) == m && rset == DataOf(tree);
    RunRecords(contract, model, b => true, n);
    forall i | 0 <= i < |tree|
      ensures tree[i].key == RawKey(tree[i].data.pure.bucket, tree[i].data.pure.key)
    {
      MapAt(tree, i);
    }
    KeyedIsMap(tree);
  }

  lemma WriteSetUnique(a: seq<PureData>, b: seq<PureData>, outputs: Table)
    requires IsWriteSet(a, outputs) && IsWriteSet(b, outputs)
    ensures a == b
  {
    var s: seq<Entry> :| Sorted(s) && AsMap(s) == outputs && a == PureOf(DataOf(s));
    var t: seq<Entry> :| Sorted(t) && AsMap(t) == outputs && b == PureOf(DataOf(t));
    SortedDetermined(s, t);
  }

  /** An execution depends on the backend's answers only. */
  lemma {:induction false} SameReader(contract: Contract, a: Reader, b: Reader, n: nat)
    requires forall x, k :: a(x, k) == b(x, k)
    ensures Run(contract, a, n) == Run(contract, b, n)
  {
    if n > 0 {
      SameReader(contract, a, b, n - 1);
    }
  }
}
