/** Byte strings in lexicographic order, and the end of the range of a prefix. */
module Bytes {
  import opened Types

  type byte = x: int | 0 <= x < 256

  type Bytes = seq<byte>

  /** The order of bytes.Compare. */
  predicate Less(a: Bytes, b: Bytes)
    decreases |a|
  {
    b != [] && (a == [] || a[0] < b[0] || (a[0] == b[0] && Less(a[1..], b[1..])))
  }

  /** bytes.Compare. */
  function Compare(a: Bytes, b: Bytes): int {
    if a == b then 0 else if Less(a, b) then -1 else 1
  }

  lemma {:induction false} LessIrreflexive(a: Bytes)
    ensures !Less(a, a)
    decreases |a|
  {
    if a != [] {
      LessIrreflexive(a[1..]);
    }
  }

  lemma {:induction false} LessTotal(a: Bytes, b: Bytes)
    ensures Less(a, b) || a == b || Less(b, a)
    decreases |a|
  {
    if a != [] && b != [] && a[0] == b[0] {
      LessTotal(a[1..], b[1..]);
      assert a == [a[0]] + a[1..] && b == [b[0]] + b[1..];
    }
  }

  lemma {:induction false} LessTransitive(a: Bytes, b: Bytes, c: Bytes)
    requires Less(a, b) && Less(b, c)
    ensures Less(a, c)
    decreases |a|
  {
    if a != [] && a[0] == b[0] == c[0] {
      LessTransitive(a[1..], b[1..], c[1..]);
    }
  }

  lemma LessAsymmetric(a: Bytes, b: Bytes)
    requires Less(a, b)
    ensures !Less(b, a)
  {
  }

  /** A common prefix does not change the order. */
  lemma {:induction false} LessAfterPrefix(p: Bytes, a: Bytes, b: Bytes)
    ensures Less(p + a, p + b) <==> Less(a, b)
    decreases |p|
  {
    if p == [] {
      assert p + a == a && p + b == b;
    } else {
      LessAfterPrefix(p[1..], a, b);
      assert (p + a)[1..] == p[1..] + a && (p + b)[1..] == p[1..] + b;
    }
  }

  /** k lies in the half-open range from start to end, without upper bound when end is None. */
  predicate InRange(k: Bytes, start: Bytes, end: Option<Bytes>) {
    !Less(k, start) && (end.Some? ==> Less(k, end.value))
  }

  /** The first string after all those with the given prefix; None when there is no such string. */
  method PrefixEnd(prefix: Bytes) returns (limit: Option<Bytes>)
    ensures forall k: Bytes :: InRange(k, prefix, limit) <==> prefix <= k
  {
    limit := None;
    var i := |prefix| - 1;
    while i >= 0
      invariant -1 <= i < |prefix|
      invariant limit == None && forall j | i < j < |prefix| :: prefix[j] == 255
    {
      var c := prefix[i];
      if c < 255 {
        limit := Some(prefix[..i] + [c + 1]);
        forall k: Bytes
          ensures InRange(k, prefix, limit) <==> prefix <= k
        {
          RangeOfPrefix(prefix, i, k);
        }
        return;
      }
      i := i - 1;
    }
    forall k: Bytes
      ensures InRange(k, prefix, limit) <==> prefix <= k
    {
      RangeOfMax(prefix, k);
    }
  }

  /** Everything from an all-0xff string on has it as a prefix. */
  lemma {:induction false} RangeOfMax(prefix: Bytes, k: Bytes)
    requires forall j | 0 <= j < |prefix| :: prefix[j] == 255
    ensures !Less(k, prefix) <==> prefix <= k
    decreases |prefix|
  {
    if prefix != [] && k != [] && k[0] == 255 {
      RangeOfMax(prefix[1..], k[1..]);
      PrefixTail(prefix, k);
    }
  }

  lemma PrefixTail(p: Bytes, k: Bytes)
    requires p != [] && k != [] && p[0] == k[0]
    ensures p <= k <==> p[1..] <= k[1..]
  {
  }

  lemma {:induction false} RangeOfPrefix(prefix: Bytes, i: nat, k: Bytes)
    requires i < |prefix| && prefix[i] < 255 && forall j | i < j < |prefix| :: prefix[j] == 255
    ensures InRange(k, prefix, Some(prefix[..i] + [prefix[i] + 1])) <==> prefix <= k
    decreases i
  {
    var limit := prefix[..i] + [prefix[i] + 1];
    if i == 0 {
      assert limit == [prefix[0] + 1] && limit[1..] == [];
      assert k != [] ==> !Less(k[1..], []);
      if k != [] && k[0] == prefix[0] {
        RangeOfMax(prefix[1..], k[1..]);
        PrefixTail(prefix, k);
      }
    } else if k != [] && k[0] == prefix[0] {
      RangeOfPrefix(prefix[1..], i - 1, k[1..]);
      assert limit[1..] == prefix[1..][..i - 1] + [prefix[1..][i - 1] + 1];
      PrefixTail(prefix, k);
    }
  }
}
