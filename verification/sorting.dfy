/**
 * A stable sort by a numeric key, standing in for `Array.prototype.sort`
 * with a comparator of the form `(a, b) => key(a) - key(b)`. A stable sort's
 * output is uniquely determined by its input and key, so this insertion sort
 * returns exactly what any stable sort returns.
 */
module Sorting {
  import opened Seqs

  ghost predicate SortedAsc<T>(xs: seq<T>, key: T -> real) {
    forall i, j :: 0 <= i < j < |xs| ==> key(xs[i]) <= key(xs[j])
  }

  ghost predicate SortedDesc<T>(xs: seq<T>, key: T -> real) {
    forall i, j :: 0 <= i < j < |xs| ==> key(xs[i]) >= key(xs[j])
  }

  /** Inserts `x` before the first element whose key is not smaller. */
  function Insert<T>(x: T, xs: seq<T>, key: T -> real): (r: seq<T>)
    ensures |r| == |xs| + 1
    ensures multiset(r) == multiset(xs) + multiset{x}
  {
    if |xs| == 0 then [x]
    else if key(x) <= key(xs[0]) then [x] + xs
    else
      assert xs == [xs[0]] + xs[1..];
      [xs[0]] + Insert(x, xs[1..], key)
  }

  /** Inserting keeps every key at or above a common lower bound. */
  lemma {:induction false} InsertLowerBound<T>(x: T, xs: seq<T>, key: T -> real, b: real)
    requires key(x) >= b
    requires forall i :: 0 <= i < |xs| ==> key(xs[i]) >= b
    ensures forall i :: 0 <= i < |xs| + 1 ==> key(Insert(x, xs, key)[i]) >= b
  {
    if |xs| > 0 && key(x) > key(xs[0]) {
      InsertLowerBound(x, xs[1..], key, b);
    }
  }

  /** Inserting into a sorted sequence keeps it sorted. */
  lemma {:induction false} InsertSorted<T>(x: T, xs: seq<T>, key: T -> real)
    requires SortedAsc(xs, key)
    ensures SortedAsc(Insert(x, xs, key), key)
  {
    if |xs| > 0 && key(x) > key(xs[0]) {
      InsertSorted(x, xs[1..], key);
      InsertLowerBound(x, xs[1..], key, key(xs[0]));
    }
  }

  /** `[...xs].sort((a, b) => key(a) - key(b))`: ascending and stable. */
  function SortAsc<T>(xs: seq<T>, key: T -> real): (r: seq<T>)
    ensures |r| == |xs|
    ensures multiset(r) == multiset(xs)
    ensures SortedAsc(r, key)
  {
    if |xs| == 0 then []
    else
      assert xs == [xs[0]] + xs[1..];
      InsertSorted(xs[0], SortAsc(xs[1..], key), key);
      Insert(xs[0], SortAsc(xs[1..], key), key)
  }

  /** The key of the reversed order. */
  function Negated<T>(key: T -> real): T -> real {
    (x: T) => -key(x)
  }

  /** `[...xs].sort((a, b) => key(b) - key(a))`: descending and stable. */
  function SortDesc<T>(xs: seq<T>, key: T -> real): (r: seq<T>)
    ensures |r| == |xs|
    ensures multiset(r) == multiset(xs)
    ensures SortedDesc(r, key)
  {
    var neg := Negated(key);
    var r := SortAsc(xs, neg);
    assert forall i, j :: 0 <= i < j < |r| ==> neg(r[i]) <= neg(r[j]);
    r
  }

  /** With every key equal (a comparator that always answers 0) a stable sort keeps the order. */
  lemma {:induction false} SortConstantKeyIsIdentity<T>(xs: seq<T>, key: T -> real)
    requires forall i, j :: 0 <= i < |xs| && 0 <= j < |xs| ==> key(xs[i]) == key(xs[j])
    ensures SortAsc(xs, key) == xs
  {
    if |xs| > 0 {
      SortConstantKeyIsIdentity(xs[1..], key);
      var rest := xs[1..];
      if |rest| > 0 {
        assert key(xs[0]) == key(rest[0]);
      }
    }
  }

  /** Sorting keeps exactly the same elements. */
  lemma SortDescMembers<T>(xs: seq<T>, key: T -> real)
    ensures forall x :: x in SortDesc(xs, key) <==> x in xs
  {
    var r := SortDesc(xs, key);
    assert forall x :: x in r <==> x in multiset(r);
    assert forall x :: x in xs <==> x in multiset(xs);
  }

  /** The test `x => key(x) >= bound`. */
  function AtLeast<T>(key: T -> real, bound: real): T -> bool {
    (x: T) => key(x) >= bound
  }

  lemma SortedDescTail<T>(xs: seq<T>, key: T -> real)
    requires |xs| > 0 && SortedDesc(xs, key)
    ensures SortedDesc(xs[1..], key)
  {
    var rest := xs[1..];
    forall i, j | 0 <= i < j < |rest| ensures key(rest[i]) >= key(rest[j]) {
      assert rest[i] == xs[i + 1] && rest[j] == xs[j + 1];
    }
  }

  /** Below a head that misses the bound, nothing in a descending sequence reaches it. */
  lemma BelowHead<T>(xs: seq<T>, key: T -> real, bound: real)
    requires |xs| > 0 && SortedDesc(xs, key) && !AtLeast(key, bound)(xs[0])
    ensures Filter(xs[1..], AtLeast(key, bound)) == []
  {
    var rest := xs[1..];
    forall i | 0 <= i < |rest| ensures !AtLeast(key, bound)(rest[i]) {
      assert rest[i] == xs[i + 1];
    }
    FilterNone(rest, AtLeast(key, bound));
  }

  /** In a sequence sorted descending, the elements whose key reaches a bound come first. */
  lemma {:induction false} AtLeastIsPrefix<T>(xs: seq<T>, key: T -> real, bound: real)
    requires SortedDesc(xs, key)
    ensures Filter(xs, AtLeast(key, bound)) == xs[..|Filter(xs, AtLeast(key, bound))|]
  {
    var p := AtLeast(key, bound);
    if |xs| > 0 {
      var rest := xs[1..];
      assert xs == [xs[0]] + rest;
      FilterCons(xs[0], rest, p);
      if p(xs[0]) {
        SortedDescTail(xs, key);
        AtLeastIsPrefix(rest, key, bound);
        var n := |Filter(rest, p)|;
        assert xs[..n + 1] == [xs[0]] + rest[..n];
      } else {
        BelowHead(xs, key, bound);
      }
    }
  }

  /** `.order(key, { ascending: false }).limit(n)`: the `n` elements with the largest keys, largest first. */
  function Newest<T>(xs: seq<T>, key: T -> real, n: int): (r: seq<T>)
    ensures |r| <= |xs|
    ensures n >= 0 ==> |r| <= n
    ensures 0 <= n < |xs| ==> |r| == n
    ensures n >= |xs| ==> |r| == |xs|
    ensures n <= 0 ==> r == []
    ensures n >= |xs| ==> multiset(r) == multiset(xs)
    ensures forall i :: 0 <= i < |r| ==> r[i] in xs
    ensures SortedDesc(r, key)
  {
    var sorted := SortDesc(xs, key);
    var r := Take(sorted, n);
    SortDescMembers(xs, key);
    assert forall i :: 0 <= i < |r| ==> r[i] == sorted[i] && sorted[i] in sorted;
    r
  }

  /** An element left out of the newest `n` is no newer than any element kept. */
  lemma NewestAreNewest<T>(xs: seq<T>, key: T -> real, n: int, x: T)
    requires x in xs && x !in Newest(xs, key, n)
    ensures forall i :: 0 <= i < |Newest(xs, key, n)| ==> key(Newest(xs, key, n)[i]) >= key(x)
  {
    var sorted := SortDesc(xs, key);
    var r := Newest(xs, key, n);
    SortDescMembers(xs, key);
    var j :| 0 <= j < |sorted| && sorted[j] == x;
    forall i | 0 <= i < |r| ensures key(r[i]) >= key(x) {
      assert r[i] == sorted[i];
    }
  }
}
