/** Comparing write sets: two lists of writes are sorted by raw key and value and compared one by one. */
module WriteSets {
  import opened Types
  import opened Bytes
  import opened MemModel

  /** What the comparison sees of a write. */
  datatype Shown = Shown(raw: Bytes, value: Bytes)

  function ShownAs(p: PureData): Shown {
    Shown(RawKey(p.bucket, p.key), p.value)
  }

  function AllShown(s: seq<PureData>): seq<Shown> {
    seq(|s|, i requires 0 <= i < |s| => ShownAs(s[i]))
  }

  /** The order the lists are sorted by. */
  predicate Before(x: Shown, y: Shown) {
    Less(x.raw, y.raw) || (x.raw == y.raw && !Less(y.value, x.value))
  }

  lemma BeforeTotal(x: Shown, y: Shown)
    ensures Before(x, y) || Before(y, x)
    ensures Before(x, y) && Before(y, x) ==> x == y
  {
    LessTotal(x.raw, y.raw);
    LessTotal(x.value, y.value);
    if Less(x.raw, y.raw) {
      LessAsymmetric(x.raw, y.raw);
    }
    LessIrreflexive(x.raw);
    if Less(x.value, y.value) {
      LessAsymmetric(x.value, y.value);
    }
  }

  lemma BeforeTransitive(x: Shown, y: Shown, z: Shown)
    requires Before(x, y) && Before(y, z)
    ensures Before(x, z)
  {
    if Less(x.raw, y.raw) && Less(y.raw, z.raw) {
      LessTransitive(x.raw, y.raw, z.raw);
    } else if x.raw == y.raw == z.raw && Less(z.value, x.value) {
      LessTotal(y.value, z.value);
      if Less(y.value, z.value) {
        LessTransitive(y.value, z.value, x.value);
      }
    }
  }

  ghost predicate InOrder(s: seq<Shown>) {
    forall i, j {:trigger s[i], s[j]} | 0 <= i < j < |s| :: Before(s[i], s[j])
  }

  /** An ordered list is determined by what it holds. */
  lemma {:induction false} OrderDetermines(a: seq<Shown>, b: seq<Shown>)
    requires InOrder(a) && InOrder(b) && multiset(a) == multiset(b)
    ensures a == b
    decreases |a|
  {
    assert |multiset(a)| == |a| && |multiset(b)| == |b|;
    if a != [] {
      SameFirst(a, b);
      assert a == [a[0]] + a[1..] && b == [b[0]] + b[1..];
      assert multiset(a[1..]) == multiset(a) - multiset{a[0]};
      assert multiset(b[1..]) == multiset(b) - multiset{b[0]};
      OrderDetermines(a[1..], b[1..]);
    }
  }

  lemma SameFirst(a: seq<Shown>, b: seq<Shown>)
    requires InOrder(a) && InOrder(b) && multiset(a) == multiset(b) && a != [] && b != []
    ensures a[0] == b[0]
  {
    assert a[0] in multiset(b) && b[0] in multiset(a);
    var i :| 0 <= i < |b| && b[i] == a[0];
    var j :| 0 <= j < |a| && a[j] == b[0];
    BeforeTotal(a[0], b[0]);
  }

  /** Sorts what is shown of a list of writes. */
  method Sort(s: seq<PureData>) returns (t: seq<Shown>)
    ensures InOrder(t) && multiset(t) == multiset(AllShown(s))
  {
    t := [];
    for i := 0 to |s|
      invariant InOrder(t) && multiset(t) == multiset(AllShown(s)[..i])
    {
      assert AllShown(s)[..i + 1] == AllShown(s)[..i] + [ShownAs(s[i])];
      t := Insert(t, ShownAs(s[i]));
    }
    assert AllShown(s)[..|s|] == AllShown(s);
  }

  method Insert(s: seq<Shown>, x: Shown) returns (t: seq<Shown>)
    requires InOrder(s)
    ensures InOrder(t) && multiset(t) == multiset(s) + multiset{x}
  {
    hide Before;
    var k := |s|;
    while k > 0 && !Before(s[k - 1], x)
      invariant 0 <= k <= |s| && forall j | k <= j < |s| :: Before(x, s[j])
    {
      BeforeTotal(s[k - 1], x);
      k := k - 1;
    }
    t := s[..k] + [x] + s[k..];
    assert s == s[..k] + s[k..];
    InsertedInOrder(s, x, k);
  }

  lemma InsertedInOrder(s: seq<Shown>, x: Shown, k: nat)
    requires InOrder(s) && k <= |s| && (k > 0 ==> Before(s[k - 1], x))
    requires forall j | k <= j < |s| :: Before(x, s[j])
    ensures InOrder(s[..k] + [x] + s[k..])
  {
    hide Before;
    var t := s[..k] + [x] + s[k..];
    forall j | 0 <= j < k
      ensures Before(s[j], x)
    {
      if j < k - 1 {
        BeforeTransitive(s[j], s[k - 1], x);
      }
    }
    forall i, j | 0 <= i < j < |t|
      ensures Before(t[i], t[j])
    {
      var a, b := if i <= k then i else i - 1, if j <= k then j else j - 1;
      assert (i == k || t[i] == s[a]) && (j == k || t[j] == s[b]);
    }
  }

  /** Two lists of writes are equal if they show the same writes, as often. */
  method Equal(pd: seq<PureData>, vpd: seq<PureData>) returns (ok: bool)
    ensures ok <==> multiset(AllShown(pd)) == multiset(AllShown(vpd))
  {
    assert |multiset(AllShown(pd))| == |pd| && |multiset(AllShown(vpd))| == |vpd|;
    if |pd| != |vpd| {
      return false;
    }
    var pds := Sort(pd);
    var vpds := Sort(vpd);
    assert |multiset(pds)| == |pds| && |multiset(vpds)| == |vpds|;
    for i := 0 to |pds|
      invariant pds[..i] == vpds[..i]
    {
      if pds[i] != vpds[i] {
        if multiset(AllShown(pd)) == multiset(AllShown(vpd)) {
          OrderDetermines(pds, vpds);
        }
        return false;
      }
    }
    assert pds[..|pds|] == pds && vpds[..|pds|] == vpds;
    return true;
  }
}
