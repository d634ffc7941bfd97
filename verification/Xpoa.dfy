/** Editing the validators of XPoA: may the holders of weighted keys act for the current validators? */
module Xpoa {
  import opened Types
  import opened Bytes

  type Addr = Bytes

  type Weights = map<Addr, real>

  datatype AksItem = AksItem(address: Addr, weight: real)

  method Find(a: Addr, t: seq<Addr>) returns (found: bool)
    ensures found <==> a in t
  {
    for i := 0 to |t|
      invariant a !in t[..i]
    {
      if a == t[i] {
        return true;
      }
    }
    return false;
  }

  /** Are input of sum validators enough against the f faulty ones that 3f + 1 validators stand? */
  predicate CalFault(input: int, sum: int) {
    var f := Quo(sum - 1, 3);
    if f < 0 then false
    else if f == 0 then input >= Quo(sum, 2) + 1
    else input >= Quo(sum - f, 2) + 1
  }

  /** How many validators must agree. */
  function Needed(n: nat, enableBFT: bool): (r: nat)
    ensures enableBFT ==> forall count: nat :: CalFault(count, n) <==> count >= r
    ensures enableBFT && n > 0 ==> r > (n - 1) / 3
    ensures !enableBFT || n <= 3 ==> 2 * (r - 1) <= n < 2 * r
    ensures enableBFT && n > 3 ==> 2 * (r - 1) <= n - (n - 1) / 3 < 2 * r
  {
    var f := Quo(n - 1, 3);
    if !enableBFT || f == 0 then n / 2 + 1 else (n - f) / 2 + 1
  }

  /** The order of the sorted items: heavier first, the greater address first among equals. */
  predicate ItemLess(a: AksItem, b: AksItem) {
    if b.weight == a.weight then Less(b.address, a.address) else b.weight < a.weight
  }

  ghost predicate HeavierAt(s: seq<AksItem>, i: int, j: int)
    requires 0 <= i < j < |s|
  {
    s[i].weight >= s[j].weight
  }

  ghost predicate Descending(s: seq<AksItem>) {
    forall i, j {:trigger HeavierAt(s, i, j)} | 0 <= i < j < |s| :: HeavierAt(s, i, j)
  }

  ghost predicate DifferentAt(s: seq<AksItem>, i: int, j: int)
    requires 0 <= i < j < |s|
  {
    s[i].address != s[j].address
  }

  ghost predicate DistinctItems(s: seq<AksItem>) {
    forall i, j {:trigger DifferentAt(s, i, j)} | 0 <= i < j < |s| :: DifferentAt(s, i, j)
  }

  ghost predicate Has(s: seq<AksItem>, a: Addr, w: real) {
    AksItem(a, w) in s
  }

  /** s lists every address of aks once, with its weight. */
  ghost predicate Lists(s: seq<AksItem>, aks: Weights) {
    && DistinctItems(s)
    && (forall a, w {:trigger Has(s, a, w)} :: Has(s, a, w) <==> a in aks && aks[a] == w)
  }

  /** The addresses of the first n items. */
  ghost function Addresses(s: seq<AksItem>, n: nat): set<Addr>
    requires n <= |s|
  {
    if n == 0 then {} else Addresses(s, n - 1) + {s[n - 1].address}
  }

  lemma {:induction false} AddressAt(s: seq<AksItem>, n: nat, a: Addr) returns (i: nat)
    requires n <= |s| && a in Addresses(s, n)
    ensures i < n && s[i].address == a
  {
    if s[n - 1].address == a {
      i := n - 1;
    } else {
      i := AddressAt(s, n - 1, a);
    }
  }

  lemma {:induction false} AddressIn(s: seq<AksItem>, n: nat, i: nat)
    requires i < n <= |s|
    ensures s[i].address in Addresses(s, n)
  {
    if i < n - 1 {
      AddressIn(s, n - 1, i);
    }
  }

  lemma ListedAt(s: seq<AksItem>, aks: Weights, i: nat)
    requires Lists(s, aks) && i < |s|
    ensures s[i].address in aks && aks[s[i].address] == s[i].weight && s[i].address !in Addresses(s, i)
  {
    assert Has(s, s[i].address, s[i].weight);
    forall k | 0 <= k < i
      ensures s[k].address != s[i].address
    {
      assert DifferentAt(s, k, i);
    }
    if s[i].address in Addresses(s, i) {
      var k := AddressAt(s, i, s[i].address);
    }
  }

  lemma AllListed(s: seq<AksItem>, aks: Weights)
    requires Lists(s, aks)
    ensures Addresses(s, |s|) == aks.Keys
  {
    forall a
      ensures a in Addresses(s, |s|) <==> a in aks
    {
      if a in Addresses(s, |s|) {
        var i := AddressAt(s, |s|, a);
        ListedAt(s, aks, i);
      }
      if a in aks {
        assert Has(s, a, aks[a]);
        var i :| 0 <= i < |s| && s[i] == AksItem(a, aks[a]);
        AddressIn(s, |s|, i);
      }
    }
  }

  /** The total weight of a set of addresses. */
  ghost function Weight(aks: Weights, signers: set<Addr>): real
    requires signers <= aks.Keys
  {
    if signers == {} then 0.0
    else
      var a :| a in signers;
      aks[a] + Weight(aks, signers - {a})
  }

  lemma {:induction false} WeightRemove(aks: Weights, signers: set<Addr>, a: Addr)
    requires signers <= aks.Keys && a in signers
    ensures Weight(aks, signers) == aks[a] + Weight(aks, signers - {a})
    decreases |signers|
  {
    var b :| b in signers && Weight(aks, signers) == aks[b] + Weight(aks, signers - {b});
    if a != b {
      WeightRemove(aks, signers - {b}, a);
      WeightRemove(aks, signers - {a}, b);
      assert signers - {a} - {b} == signers - {b} - {a};
    }
  }

  /** The total weight of the first k items. */
  ghost function Top(s: seq<AksItem>, k: nat): real
    requires k <= |s|
  {
    if k == 0 then 0.0 else Top(s, k - 1) + s[k - 1].weight
  }

  /** No set is heavier than as many items from the front. */
  lemma {:induction false} TopIsGreatest(s: seq<AksItem>, aks: Weights, n: nat, signers: set<Addr>)
    requires Lists(s, aks) && Descending(s) && n <= |s| && signers <= Addresses(s, n) && signers <= aks.Keys
    ensures |signers| <= n && Weight(aks, signers) <= Top(s, |signers|)
    decreases n
  {
    if n > 0 {
      var a := s[n - 1].address;
      ListedAt(s, aks, n - 1);
      if a in signers {
        var rest := signers - {a};
        TopIsGreatest(s, aks, n - 1, rest);
        WeightRemove(aks, signers, a);
        assert |rest| < n - 1 ==> HeavierAt(s, |rest|, n - 1);
      } else {
        TopIsGreatest(s, aks, n - 1, signers);
      }
    }
  }

  /** The first k items weigh what their addresses weigh. */
  lemma {:induction false} TopIsReached(s: seq<AksItem>, aks: Weights, k: nat)
    requires Lists(s, aks) && k <= |s|
    ensures Addresses(s, k) <= aks.Keys && |Addresses(s, k)| == k && Weight(aks, Addresses(s, k)) == Top(s, k)
  {
    if k > 0 {
      TopIsReached(s, aks, k - 1);
      ListedAt(s, aks, k - 1);
      var a, before := s[k - 1].address, Addresses(s, k - 1);
      WeightRemove(aks, before + {a}, a);
      assert before + {a} - {a} == before;
    }
  }

  /** The map's items, in the arbitrary order in which a map is ranged over. */
  method ItemsOf(aks: Weights) returns (s: seq<AksItem>)
    ensures Lists(s, aks)
  {
    s := [];
    var rest := aks.Keys;
    while rest != {}
      invariant rest <= aks.Keys && DistinctItems(s)
      invariant forall a, w {:trigger Has(s, a, w)} :: Has(s, a, w) <==> a in aks && a !in rest && aks[a] == w
      decreases rest
    {
      var a :| a in rest;
      rest := rest - {a};
      forall j | 0 <= j < |s|
        ensures s[j].address != a
      {
        assert Has(s, s[j].address, s[j].weight);
      }
      Inserted(s, AksItem(a, aks[a]), |s|);
      assert s[..|s|] + [AksItem(a, aks[a])] + s[|s|..] == s + [AksItem(a, aks[a])];
      forall b, w
        ensures Has(s + [AksItem(a, aks[a])], b, w) <==> Has(s, b, w) || (b == a && w == aks[a])
      {
      }
      s := s + [AksItem(a, aks[a])];
    }
  }

  /** A stable sort. */
  method SortItems(items: seq<AksItem>, ghost aks: Weights) returns (s: seq<AksItem>)
    requires Lists(items, aks)
    ensures Lists(s, aks) && Descending(s)
  {
    s := [];
    for i := 0 to |items|
      invariant Descending(s) && DistinctItems(s) && SameItems(s, items[..i])
    {
      assert items[..i + 1] == items[..i] + [items[i]];
      var p := |s|;
      while p > 0 && ItemLess(items[i], s[p - 1])
        invariant 0 <= p <= |s|
        invariant p < |s| ==> items[i].weight >= s[p].weight
      {
        p := p - 1;
      }
      NewAddress(items, s, i);
      InsertedInOrder(s, items[i], p);
      Inserted(s, items[i], p);
      s := s[..p] + [items[i]] + s[p..];
    }
    assert items[..|items|] == items;
    forall a, w
      ensures Has(s, a, w) <==> Has(items, a, w)
    {
    }
  }

  ghost predicate SameItems(a: seq<AksItem>, b: seq<AksItem>) {
    forall x {:trigger x in a} :: x in a <==> x in b
  }

  lemma NewAddress(items: seq<AksItem>, s: seq<AksItem>, i: nat)
    requires i < |items| && DistinctItems(items) && SameItems(s, items[..i])
    ensures forall j | 0 <= j < |s| :: s[j].address != items[i].address
  {
    forall j | 0 <= j < |s|
      ensures s[j].address != items[i].address
    {
      assert s[j] in s;
      var k :| 0 <= k < i && items[k] == s[j];
      assert DifferentAt(items, k, i);
    }
  }

  lemma Inserted(s: seq<AksItem>, x: AksItem, p: nat)
    requires p <= |s| && DistinctItems(s) && forall j | 0 <= j < |s| :: s[j].address != x.address
    ensures DistinctItems(s[..p] + [x] + s[p..]) && SameItems(s[..p] + [x] + s[p..], s + [x])
  {
    var r := s[..p] + [x] + s[p..];
    forall i, j | 0 <= i < j < |r|
      ensures DifferentAt(r, i, j)
    {
      var a, b := if i < p then i else i - 1, if j < p then j else j - 1;
      if i != p && j != p {
        assert DifferentAt(s, a, b);
      }
    }
    assert s == s[..p] + s[p..];
  }

  lemma InsertedInOrder(s: seq<AksItem>, x: AksItem, p: nat)
    requires p <= |s| && Descending(s)
    requires p > 0 ==> s[p - 1].weight >= x.weight
    requires p < |s| ==> x.weight >= s[p].weight
    ensures Descending(s[..p] + [x] + s[p..])
  {
    var r := s[..p] + [x] + s[p..];
    forall i, j | 0 <= i < j < |r|
      ensures HeavierAt(r, i, j)
    {
      var a, b := if i < p then i else i - 1, if j < p then j else j - 1;
      if i != p && j != p {
        assert HeavierAt(s, a, b);
      } else if j == p {
        assert i < p - 1 ==> HeavierAt(s, i, p - 1);
      } else {
        assert p < b ==> HeavierAt(s, p, b);
      }
    }
  }

  /** A set of signers that reaches the threshold. */
  ghost predicate Reaches(aks: Weights, threshold: real, signers: set<Addr>) {
    signers <= aks.Keys && Weight(aks, signers) >= threshold
  }

  /** The decision, as a statement about all sets of signers. With several validators, enough of them
      must take part, whatever signers come together to reach the threshold. */
  ghost predicate Authorizes(validators: seq<Addr>, aks: Weights, threshold: real, enableBFT: bool) {
    if |validators| == 1 then validators[0] in aks && aks[validators[0]] >= threshold
    else
      && (forall a | a in aks :: a in validators)
      && |aks| >= Needed(|validators|, enableBFT)
      && forall signers {:trigger Reaches(aks, threshold, signers)} | Reaches(aks, threshold, signers) ::
           |signers| >= Needed(|validators|, enableBFT)
  }

  /** Do even the heaviest keys need enough company to reach the threshold? */
  method IsAuthAddress(validators: seq<Addr>, aks: Weights, threshold: real, enableBFT: bool) returns (ok: bool)
    ensures ok <==> Authorizes(validators, aks, threshold, enableBFT)
  {
    if |validators| == 1 {
      if validators[0] !in aks {
        return false;
      }
      return aks[validators[0]] >= threshold;
    }
    var rest := aks.Keys;
    while rest != {}
      invariant rest <= aks.Keys && forall a | a in aks && a !in rest :: a in validators
      decreases rest
    {
      var addr :| addr in rest;
      var found := Find(addr, validators);
      if !found {
        return false;
      }
      rest := rest - {addr};
    }
    var items := ItemsOf(aks);
    var s := SortItems(items, aks);
    var greedyCount := GreedyCount(s, aks, threshold);
    GreedyDecides(validators, aks, threshold, enableBFT, s, greedyCount);
    if !enableBFT {
      return greedyCount >= |validators| / 2 + 1;
    }
    return CalFault(greedyCount, |validators|);
  }

  /** The items from the front up to count are needed: no fewer of them reach the threshold, and they
      do, unless there are no more. */
  ghost predicate IsGreedy(s: seq<AksItem>, threshold: real, count: nat) {
    && count <= |s|
    && (forall k {:trigger Top(s, k)} | 0 <= k < count :: Top(s, k) < threshold)
    && (count < |s| ==> Top(s, count) >= threshold)
  }

  method GreedyCount(s: seq<AksItem>, ghost aks: Weights, threshold: real) returns (greedyCount: nat)
    requires Lists(s, aks)
    ensures IsGreedy(s, threshold, greedyCount)
  {
    greedyCount := 0;
    var sum := threshold;
    for i := 0 to |s|
      invariant greedyCount == i && sum == threshold - Top(s, i)
      invariant forall k {:trigger Top(s, k)} | 0 <= k < i :: Top(s, k) < threshold
    {
      if sum <= 0.0 {
        break;
      }
      sum := sum - s[i].weight;
      greedyCount := greedyCount + 1;
    }
  }

  lemma GreedyDecides(validators: seq<Addr>, aks: Weights, threshold: real, enableBFT: bool, s: seq<AksItem>,
                      count: nat)
    requires |validators| != 1 && Lists(s, aks) && Descending(s) && IsGreedy(s, threshold, count)
    requires forall a | a in aks :: a in validators
    ensures Authorizes(validators, aks, threshold, enableBFT) <==> count >= Needed(|validators|, enableBFT)
  {
    AllListed(s, aks);
    TopIsReached(s, aks, |s|);
    var needed := Needed(|validators|, enableBFT);
    if count >= needed {
      forall signers | Reaches(aks, threshold, signers)
        ensures |signers| >= needed
      {
        TopIsGreatest(s, aks, |s|, signers);
      }
    } else if count < |s| {
      TopIsReached(s, aks, count);
      assert Reaches(aks, threshold, Addresses(s, count));
    }
  }

  // ---------------------------------------------------------------- what an accepted request means

  /** A single validator acts alone, with a weight that reaches the threshold. */
  lemma AuthorizedAlone(v: Addr, aks: Weights, threshold: real, enableBFT: bool)
    ensures Authorizes([v], aks, threshold, enableBFT) <==> v in aks && Reaches(aks, threshold, {v})
  {
    if v in aks {
      WeightRemove(aks, {v}, v);
      assert {v} - {v} == {};
    }
  }

  /** Without BFT, any two sets of signers that reach the threshold have a member in common. */
  lemma AuthorizedIntersect(validators: seq<Addr>, aks: Weights, threshold: real, a: set<Addr>, b: set<Addr>)
    requires |validators| >= 2 && Authorizes(validators, aks, threshold, false)
    requires Reaches(aks, threshold, a) && Reaches(aks, threshold, b)
    ensures a * b != {}
  {
    var all := set x | x in validators;
    SeqSetSize(validators);
    assert a + b <= all;
    SubsetSize(a + b, all);
    assert |a + b| == |a| + |b| - |a * b|;
  }

  /** With BFT, a set of signers that reaches the threshold has a member that is not faulty, if at
      most f of the validators are. */
  lemma AuthorizedOutnumberFaulty(validators: seq<Addr>, aks: Weights, threshold: real, signers: set<Addr>,
                                  faulty: set<Addr>)
    requires |validators| >= 2 && Authorizes(validators, aks, threshold, true)
    requires Reaches(aks, threshold, signers) && |faulty| <= (|validators| - 1) / 3
    ensures signers - faulty != {}
  {
    SubsetSize(signers * faulty, faulty);
    assert |signers| == |signers - faulty| + |signers * faulty|;
  }

  lemma {:induction false} SubsetSize(a: set<Addr>, b: set<Addr>)
    requires a <= b
    ensures |a| <= |b|
  {
    assert b == a + (b - a);
  }

  lemma {:induction false} SeqSetSize(s: seq<Addr>)
    ensures |set x | x in s| <= |s|
  {
    if s != [] {
      var front := s[..|s| - 1];
      SeqSetSize(front);
      assert (set x | x in s) == (set x | x in front) + {s[|s| - 1]};
    }
  }
}
