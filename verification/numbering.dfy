/** Numbering by first appearance: what the two id maps of CpuTopology::NormalizeTopology compute. */
module Numbering {

  predicate Distinct(ids: seq<int>) { forall i, j | 0 <= i < j < |ids| :: ids[i] != ids[j] }

  /** The different ids of a list, each where it first appears. */
  function Firsts(ids: seq<int>): (firsts: seq<int>)
    ensures |firsts| <= |ids|
  {
    if ids == [] then [] else
    var front, x := ids[..|ids| - 1], ids[|ids| - 1];
    if x in front then Firsts(front) else Firsts(front) + [x]
  }

  /** The position of the first x in ids, or |ids|. */
  function PosIn(ids: seq<int>, x: int): (i: nat)
    ensures i <= |ids| && (i < |ids| ==> ids[i] == x)
    ensures forall k | 0 <= k < i :: ids[k] != x
  {
    if ids == [] then 0 else if ids[0] == x then 0 else PosIn(ids[1..], x) + 1
  }

  /** The number of x: how many different ids come before its first appearance. */
  function Number(ids: seq<int>, x: int): nat { PosIn(Firsts(ids), x) }

  /** Each id replaced by its number. */
  function Numbers(ids: seq<int>): (numbers: seq<int>)
    ensures |numbers| == |ids| && forall k | 0 <= k < |ids| :: numbers[k] == Number(ids, ids[k])
  {
    seq(|ids|, k requires 0 <= k < |ids| => Number(ids, ids[k]))
  }

  /** Two lists agree on which of their positions hold equal ids. */
  ghost predicate SamePattern(a: seq<int>, b: seq<int>) {
    |a| == |b| && forall i, j | 0 <= i < |a| && 0 <= j < |a| :: a[i] == a[j] <==> b[i] == b[j]
  }

  // ---- Extending a list ----

  lemma FirstsExtend(ids: seq<int>, x: int)
    ensures Firsts(ids + [x]) == if x in ids then Firsts(ids) else Firsts(ids) + [x]
  {
    assert (ids + [x])[..|ids|] == ids;
  }

  lemma {:induction false} FirstsSame(ids: seq<int>, x: int)
    ensures x in Firsts(ids) <==> x in ids
  {
    if ids != [] {
      var n := |ids| - 1;
      assert ids == ids[..n] + [ids[n]];
      FirstsSame(ids[..n], x);
    }
  }

  lemma {:induction false} FirstsDistinct(ids: seq<int>)
    ensures Distinct(Firsts(ids))
  {
    if ids != [] {
      var n := |ids| - 1;
      FirstsDistinct(ids[..n]);
      FirstsSame(ids[..n], ids[n]);
    }
  }

  lemma PosStable(a: seq<int>, b: seq<int>, x: int)
    requires a <= b && x in a
    ensures PosIn(b, x) == PosIn(a, x) < |a|
  {
    var i, j := PosIn(a, x), PosIn(b, x);
    assert i < |a| && b[i] == x;
    assert j < |a| ==> a[j] == b[j];
  }

  lemma {:induction false} FirstsGrow(a: seq<int>, b: seq<int>)
    requires a <= b
    ensures Firsts(a) <= Firsts(b)
    decreases |b|
  {
    if a != b {
      var front := b[..|b| - 1];
      FirstsGrow(a, front);
      assert b == front + [b[|b| - 1]];
      FirstsExtend(front, b[|b| - 1]);
    }
  }

  lemma NumberStable(a: seq<int>, b: seq<int>, x: int)
    requires a <= b && x in a
    ensures Number(b, x) == Number(a, x) < |Firsts(a)|
  {
    FirstsGrow(a, b);
    FirstsSame(a, x);
    PosStable(Firsts(a), Firsts(b), x);
  }

  lemma PosAtEnd(ids: seq<int>, x: int)
    requires x !in ids
    ensures PosIn(ids + [x], x) == |ids|
  {
    var all := ids + [x];
    assert all[|ids|] == x;
    assert forall k | 0 <= k < |ids| :: all[k] == ids[k];
  }

  /** What the loop assigns to the next id: its own number, or a new one. */
  lemma NextNumber(ids: seq<int>, x: int)
    ensures Number(ids + [x], x) == if x in ids then Number(ids, x) else |Firsts(ids)|
  {
    FirstsExtend(ids, x);
    FirstsSame(ids, x);
    if x !in ids { PosAtEnd(Firsts(ids), x); }
  }

  lemma NumbersExtend(ids: seq<int>, x: int)
    ensures Numbers(ids + [x]) == Numbers(ids) + [Number(ids + [x], x)]
  {
    var all := ids + [x];
    forall k | 0 <= k < |ids| ensures Numbers(all)[k] == Numbers(ids)[k] {
      NumberStable(ids, all, ids[k]);
    }
  }

  // ---- What the numbers are ----

  lemma NumbersApart(ids: seq<int>, x: int, y: int)
    requires x in ids && y in ids
    ensures Number(ids, x) == Number(ids, y) <==> x == y
    ensures Number(ids, x) < |Firsts(ids)|
  {
    FirstsSame(ids, x);
    FirstsSame(ids, y);
  }

  /** Equal numbers exactly where the ids were equal. */
  lemma NumbersKeepPattern(ids: seq<int>)
    ensures SamePattern(ids, Numbers(ids))
  {
    forall i, j | 0 <= i < |ids| && 0 <= j < |ids|
      ensures ids[i] == ids[j] <==> Numbers(ids)[i] == Numbers(ids)[j]
    {
      NumbersApart(ids, ids[i], ids[j]);
    }
  }

  function UpTo(n: nat): (r: seq<int>)
    ensures |r| == n && forall k | 0 <= k < n :: r[k] == k
  {
    seq(n, k => k)
  }

  /** The numbers are 0, 1, 2, .. in the order in which they appear, one for each different id. */
  lemma {:induction false} NumbersAreDense(ids: seq<int>)
    ensures Firsts(Numbers(ids)) == UpTo(|Firsts(ids)|)
  {
    if ids != [] {
      var front, x := ids[..|ids| - 1], ids[|ids| - 1];
      assert ids == front + [x];
      NumbersAreDense(front);
      DenseNext(front, x);
    }
  }

  lemma DenseFirsts(numbers: seq<int>, n: int, k: nat)
    requires Firsts(numbers) == UpTo(k)
    ensures n in numbers ==> Firsts(numbers + [n]) == UpTo(k)
    ensures n !in numbers && n == k ==> Firsts(numbers + [n]) == UpTo(k + 1)
  {
    FirstsExtend(numbers, n);
    assert UpTo(k) + [k as int] == UpTo(k + 1);
  }

  lemma DenseNext(ids: seq<int>, x: int)
    requires Firsts(Numbers(ids)) == UpTo(|Firsts(ids)|)
    ensures Firsts(Numbers(ids + [x])) == UpTo(|Firsts(ids + [x])|)
  {
    var n := Number(ids + [x], x);
    assert Numbers(ids + [x]) == Numbers(ids) + [n] by { NumbersExtend(ids, x); }
    assert |Firsts(ids + [x])| == |Firsts(ids)| + if x in ids then 0 else 1 by { FirstsExtend(ids, x); }
    assert n in Numbers(ids) <==> x in ids by { DenseStep(ids, x); }
    assert x !in ids ==> n == |Firsts(ids)| by { NextNumber(ids, x); }
    DenseFirsts(Numbers(ids), n, |Firsts(ids)|);
  }

  lemma {:induction false} DenseStep(ids: seq<int>, x: int)
    requires Firsts(Numbers(ids)) == UpTo(|Firsts(ids)|)
    ensures Number(ids + [x], x) in Numbers(ids) <==> x in ids
  {
    var n := Number(ids + [x], x);
    NextNumber(ids, x);
    FirstsSame(Numbers(ids), n);
    if x in ids { NumbersApart(ids, x, x); }
    assert n in UpTo(|Firsts(ids)|) <==> n < |Firsts(ids)| by {
      if n < |Firsts(ids)| { assert UpTo(|Firsts(ids)|)[n] == n; }
    }
  }

  lemma {:induction false} SamePatternSameNumbers(a: seq<int>, b: seq<int>)
    requires SamePattern(a, b)
    ensures Numbers(a) == Numbers(b) && |Firsts(a)| == |Firsts(b)|
  {
    if a != [] {
      var n := |a| - 1;
      var fa, fb := a[..n], b[..n];
      assert a == fa + [a[n]] && b == fb + [b[n]];
      SamePatternSameNumbers(fa, fb);
      SeenInBoth(a, b, n);
      NumbersExtend(fa, a[n]);
      NumbersExtend(fb, b[n]);
      FirstsExtend(fa, a[n]);
      FirstsExtend(fb, b[n]);
      NextNumber(fa, a[n]);
      NextNumber(fb, b[n]);
      if a[n] in fa { SameEarlier(fa, fb, a[n], b[n]); }
    }
  }

  lemma SameEarlier(a: seq<int>, b: seq<int>, x: int, y: int)
    requires |a| == |b| && Numbers(a) == Numbers(b) && x in a
    requires forall k | 0 <= k < |a| :: a[k] == x <==> b[k] == y
    ensures Number(a, x) == Number(b, y)
  {
    var k :| 0 <= k < |a| && a[k] == x;
    assert Numbers(a)[k] == Numbers(b)[k];
  }

  lemma SeenInBoth(a: seq<int>, b: seq<int>, n: nat)
    requires SamePattern(a, b) && n < |a|
    ensures a[n] in a[..n] <==> b[n] in b[..n]
  {
    if a[n] in a[..n] {
      var k :| 0 <= k < n && a[k] == a[n];
      assert b[..n][k] == b[n];
    }
    if b[n] in b[..n] {
      var k :| 0 <= k < n && b[k] == b[n];
      assert a[..n][k] == a[n];
    }
  }

  /** Numbers are a canonical form: they tell lists apart exactly by their pattern. */
  lemma NumbersAreCanonical(a: seq<int>, b: seq<int>)
    ensures Numbers(a) == Numbers(b) <==> SamePattern(a, b)
  {
    if Numbers(a) == Numbers(b) {
      NumbersKeepPattern(a);
      NumbersKeepPattern(b);
      var numbers := Numbers(a);
      forall i, j | 0 <= i < |a| && 0 <= j < |a|
        ensures a[i] == a[j] <==> b[i] == b[j]
      {
        assert a[i] == a[j] <==> numbers[i] == numbers[j];
        assert b[i] == b[j] <==> numbers[i] == numbers[j];
      }
    }
    if SamePattern(a, b) { SamePatternSameNumbers(a, b); }
  }
}
