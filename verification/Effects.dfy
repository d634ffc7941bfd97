/** What an execution in the sandbox reads and writes, said of the sequence of its operations: the laws of
    a store, the write set, the read set and every outcome. */
module Effects {
  import opened Types
  import opened Bytes
  import opened MemModel
  import opened Sandbox

  function OpKey(op: Op): Bytes {
    RawKey(op.bucket, op.key)
  }

  predicate IsWrite(op: Op) {
    op.PutOp? || op.DelOp?
  }

  /** What an operation writes. */
  function WrittenValue(op: Op): Bytes {
    match op
    case PutOp(_, _, value) => value
    case _ => DEL_FLAG
  }

  /** What is to be reported for a value written, and for an answer of the backend. */
  function Shows(value: Bytes): Outcome {
    if value == [0] then HasDel else Value(value)
  }

  function Reports(data: Option<VersionedData>): Outcome {
    if data.None? || (data.value.refTxid.None? && data.value.refOffset == 0) then NotFound
    else Shows(data.value.pure.value)
  }

  // ---------------------------------------------------------------- the laws of a store

  /** What was put is got, and a deleted key is reported as such. */
  lemma GetAfterPut(model: Reader, c: Caches, op: Op)
    requires IsWrite(op)
    ensures GetResult(model, AfterOp(model, c, op), op.bucket, op.key) == Shows(WrittenValue(op))
  {
  }

  /** An operation does not change what another key reads as, nor does reading a key change its own. */
  lemma GetAfterOther(model: Reader, c: Caches, op: Op, bucket: Bytes, key: Bytes)
    requires OpKey(op) != RawKey(bucket, key) || op == GetOp(bucket, key)
    ensures GetResult(model, AfterOp(model, c, op), bucket, key) == GetResult(model, c, bucket, key)
  {
    hide RawKey;
  }

  // ---------------------------------------------------------------- the operations of an execution

  /** The operations issued in the first n steps. */
  ghost function Issued(contract: Contract, model: Reader, n: nat): (ops: seq<Op>)
    ensures |ops| == n
  {
    if n == 0 then [] else Issued(contract, model, n - 1) + [contract(Run(contract, model, n - 1).outcomes)]
  }

  lemma {:induction false} IssuedPrefix(contract: Contract, model: Reader, i: nat, n: nat)
    requires i <= n
    ensures Issued(contract, model, n)[..i] == Issued(contract, model, i)
  {
    if i < n {
      IssuedPrefix(contract, model, i, n - 1);
    } else {
      assert Issued(contract, model, n)[..n] == Issued(contract, model, n);
    }
  }

  /** The last operation that wrote to raw. */
  function Latest(ops: seq<Op>, raw: Bytes): Option<Op> {
    if ops == [] then None
    else
      var op := ops[|ops| - 1];
      if IsWrite(op) && OpKey(op) == raw then Some(op) else Latest(ops[..|ops| - 1], raw)
  }

  lemma {:induction false} LatestIs(ops: seq<Op>, raw: Bytes)
    ensures Latest(ops, raw).None? <==> forall i | 0 <= i < |ops| && IsWrite(ops[i]) :: OpKey(ops[i]) != raw
    ensures forall j | 0 <= j < |ops| && IsWrite(ops[j]) && OpKey(ops[j]) == raw
                       && (forall i | j < i < |ops| && IsWrite(ops[i]) :: OpKey(ops[i]) != raw) ::
              Latest(ops, raw) == Some(ops[j])
    decreases |ops|
  {
    hide OpKey, IsWrite;
    if ops != [] {
      var n := |ops| - 1;
      LatestIs(ops[..n], raw);
      assert forall i | 0 <= i < n :: ops[..n][i] == ops[i];
    }
  }

  /** The item for what an operation wrote. */
  function ItemOf(op: Op): VersionedData {
    VersionedData(None, 0, PureData(op.bucket, op.key, WrittenValue(op)))
  }

  lemma OpWrites(model: Reader, c: Caches, op: Op, raw: Bytes)
    ensures Find(AfterOp(model, c, op).outputs, raw)
         == if IsWrite(op) && OpKey(op) == raw then Some(ItemOf(op)) else Find(c.outputs, raw)
  {
    hide RawKey, Fetch;
  }

  /** An execution has written a raw key exactly if an operation did, and then what the last one wrote. */
  lemma {:induction false} RunWrites(contract: Contract, model: Reader, n: nat, raw: Bytes)
    ensures var last := Latest(Issued(contract, model, n), raw);
            Find(Run(contract, model, n).caches.outputs, raw) == if last.Some? then Some(ItemOf(last.value)) else None
  {
    hide RawKey, AfterOp, IsWrite, OpKey;
    if n > 0 {
      var before := Run(contract, model, n - 1);
      RunWrites(contract, model, n - 1, raw);
      OpWrites(model, before.caches, contract(before.outcomes), raw);
      IssuedPrefix(contract, model, n - 1, n);
    }
  }

  // ---------------------------------------------------------------- the write set

  lemma {:induction false} InPureOf(tree: seq<Entry>, p: PureData)
    ensures p in PureOf(DataOf(tree)) <==> exists i :: 0 <= i < |tree| && tree[i].data.pure == p
    decreases |tree|
  {
    if tree != [] {
      var front, e := tree[..|tree| - 1], tree[|tree| - 1];
      InPureOf(front, p);
      PureSnoc(DataOf(front), e.data);
      if p in PureOf(DataOf(front)) {
        var i :| 0 <= i < |front| && front[i].data.pure == p;
        assert tree[i].data.pure == p;
      }
      if i :| 0 <= i < |tree| && tree[i].data.pure == p {
        if i < |front| {
          assert front[i].data.pure == p;
        }
      }
    }
  }

  lemma {:induction false} LatestKey(ops: seq<Op>, raw: Bytes)
    ensures Latest(ops, raw).Some? ==> OpKey(Latest(ops, raw).value) == raw
    decreases |ops|
  {
    if ops != [] {
      LatestKey(ops[..|ops| - 1], raw);
    }
  }

  /** The write set holds exactly the last write to every raw key that was written. */
  lemma WriteSetIs(contract: Contract, model: Reader, n: nat, wset: seq<PureData>, p: PureData)
    requires IsWriteSet(wset, Run(contract, model, n).caches.outputs)
    ensures var last := Latest(Issued(contract, model, n), RawKey(p.bucket, p.key));
            p in wset <==> last.Some? && p == PureData(last.value.bucket, last.value.key, WrittenValue(last.value))
  {
    hide Run, RawKey, Latest, Sorted, Issued, AsMap;
    var ops, out := Issued(contract, model, n), Run(contract, model, n).caches.outputs;
    var tree: seq<Entry> :| Sorted(tree) && AsMap(tree) == out && wset == PureOf(DataOf(tree));
    var raw := RawKey(p.bucket, p.key);
    InPureOf(tree, p);
    RunWrites(contract, model, n, raw);
    if p in wset {
      var i :| 0 <= i < |tree| && tree[i].data.pure == p;
      MapAt(tree, i);
      RunWrites(contract, model, n, tree[i].key);
      LatestKey(ops, tree[i].key);
    }
    if raw in out && out[raw].pure == p {
      var i := MapHas(tree, raw);
    }
  }

  // ---------------------------------------------------------------- the read set

  /** Reads from the backend if the key has been neither read nor written: writing does so, too, except in
      the transient bucket. */
  predicate Reads(op: Op) {
    op.GetOp? || op.bucket != TRANSIENT_BUCKET
  }

  /** The first answer of the backend to an operation on raw before anything was written to it. */
  ghost function FirstAnswer(model: Reader, ops: seq<Op>, raw: Bytes): Option<VersionedData> {
    if ops == [] then None
    else
      var front, op := ops[..|ops| - 1], ops[|ops| - 1];
      var first := FirstAnswer(model, front, raw);
      if first.Some? then first
      else if OpKey(op) == raw && Reads(op) && Latest(front, raw).None? then model(op.bucket, op.key)
      else None
  }

  lemma {:induction false} FirstAnswerFrom(model: Reader, ops: seq<Op>, raw: Bytes)
    ensures FirstAnswer(model, ops, raw).Some? ==>
              exists j :: 0 <= j < |ops| && OpKey(ops[j]) == raw
                          && FirstAnswer(model, ops, raw) == model(ops[j].bucket, ops[j].key)
    decreases |ops|
  {
    hide OpKey, Reads, Latest;
    if ops != [] {
      var front, n := ops[..|ops| - 1], |ops| - 1;
      FirstAnswerFrom(model, front, raw);
      if FirstAnswer(model, front, raw).Some? {
        var j :| 0 <= j < |front| && OpKey(front[j]) == raw
                 && FirstAnswer(model, front, raw) == model(front[j].bucket, front[j].key);
        assert ops[j] == front[j];
      } else {
        assert ops[n] == ops[|ops| - 1];
      }
    }
  }

  lemma FirstAnswerSnoc(model: Reader, ops: seq<Op>, op: Op, raw: Bytes)
    ensures var first := FirstAnswer(model, ops, raw);
            FirstAnswer(model, ops + [op], raw) ==
            if first.Some? then first
            else if OpKey(op) == raw && Reads(op) && Latest(ops, raw).None? then model(op.bucket, op.key)
            else None
  {
    assert (ops + [op])[..|ops|] == ops;
  }

  lemma RunNone(contract: Contract, model: Reader, raw: Bytes)
    ensures Find(Run(contract, model, 0).caches.inputs, raw) == FirstAnswer(model, Issued(contract, model, 0), raw)
  {
  }

  lemma RunStep(contract: Contract, model: Reader, n: nat) returns (op: Op)
    requires n > 0
    ensures Issued(contract, model, n) == Issued(contract, model, n - 1) + [op]
    ensures Run(contract, model, n).caches == AfterOp(model, Run(contract, model, n - 1).caches, op)
  {
    hide AfterOp;
    op := contract(Run(contract, model, n - 1).outcomes);
  }

  lemma OpReads(model: Reader, c: Caches, op: Op, raw: Bytes)
    ensures Find(AfterOp(model, c, op).inputs, raw)
         == if OpKey(op) == raw && Reads(op) && raw !in c.outputs && raw !in c.inputs then model(op.bucket, op.key)
            else Find(c.inputs, raw)
  {
    hide RawKey;
  }

  /** The read set holds a raw key exactly if the backend answered for it, with the first answer. */
  lemma {:induction false} RunReads(contract: Contract, model: Reader, n: nat, raw: Bytes)
    ensures Find(Run(contract, model, n).caches.inputs, raw) == FirstAnswer(model, Issued(contract, model, n), raw)
  {
    hide RawKey, Latest, AfterOp, Reads, OpKey, FirstAnswer, Run, Issued;
    if n == 0 {
      RunNone(contract, model, raw);
    } else {
      var op := RunStep(contract, model, n);
      RunReads(contract, model, n - 1, raw);
      RunWrites(contract, model, n - 1, raw);
      OpReads(model, Run(contract, model, n - 1).caches, op, raw);
      FirstAnswerSnoc(model, Issued(contract, model, n - 1), op, raw);
    }
  }

  // ---------------------------------------------------------------- outcomes

  lemma {:induction false} OutcomeAt(contract: Contract, model: Reader, n: nat, i: nat)
    requires i < n
    ensures var t := Run(contract, model, n);
            && |t.outcomes| == n
            && t.outcomes[i] == OpResult(model, Run(contract, model, i).caches, Issued(contract, model, n)[i])
    decreases n
  {
    hide OpResult, AfterOp;
    OutcomeCount(contract, model, n - 1);
    if i < n - 1 {
      OutcomeAt(contract, model, n - 1, i);
    }
  }

  lemma {:induction false} OutcomeCount(contract: Contract, model: Reader, n: nat)
    ensures |Run(contract, model, n).outcomes| == n
  {
    if n > 0 {
      OutcomeCount(contract, model, n - 1);
    }
  }

  /** Every read reports what was last written to its raw key, or else what the backend answers, provided
      that no other name with this raw key was used before. */
  lemma OutcomeIs(contract: Contract, model: Reader, n: nat, i: nat)
    requires i < n && Issued(contract, model, n)[i].GetOp?
    ensures var ops, t := Issued(contract, model, n), Run(contract, model, n);
            var last := Latest(ops[..i], OpKey(ops[i]));
            && |t.outcomes| == n
            && (last.Some? ==> t.outcomes[i] == Shows(WrittenValue(last.value)))
            && (last.None? && (forall j | 0 <= j < i && OpKey(ops[j]) == OpKey(ops[i]) :: SameName(ops[j], ops[i])) ==>
                  t.outcomes[i] == Reports(model(ops[i].bucket, ops[i].key)))
  {
    hide Run, RawKey, Latest, FirstAnswer, Issued;
    var ops := Issued(contract, model, n);
    var raw := OpKey(ops[i]);
    OutcomeAt(contract, model, n, i);
    IssuedPrefix(contract, model, i, n);
    RunWrites(contract, model, i, raw);
    RunReads(contract, model, i, raw);
    FirstAnswerFrom(model, ops[..i], raw);
  }

  predicate SameName(a: Op, b: Op) {
    a.bucket == b.bucket && a.key == b.key
  }
}
