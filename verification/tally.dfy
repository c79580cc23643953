/**
 * Frequency counting with a JavaScript `Map`: keys are kept in order of first
 * insertion, `map.set(k, (map.get(k) || 0) + 1)` bumps a count, and the
 * "top k" list is the entries sorted by count descending (stable) and cut.
 */
module Tally {
  import opened Seqs
  import opened Sorting

  datatype Entry<K> = Entry(key: K, count: nat)

  /** How often `k` occurs in `keys`. */
  function Occurrences<K(==)>(keys: seq<K>, k: K): nat {
    if |keys| == 0 then 0
    else Occurrences(keys[..|keys| - 1], k) + (if keys[|keys| - 1] == k then 1 else 0)
  }

  /** The occurrences in a concatenation are those of its parts added up. */
  lemma {:induction false} OccurrencesConcat<K>(a: seq<K>, b: seq<K>, k: K)
    ensures Occurrences(a + b, k) == Occurrences(a, k) + Occurrences(b, k)
  {
    if |b| == 0 {
      assert a + b == a;
    } else {
      var init := b[..|b| - 1];
      assert (a + b)[..|a + b| - 1] == a + init;
      OccurrencesConcat(a, init, k);
    }
  }

  predicate HasKey<K(==)>(t: seq<Entry<K>>, k: K) {
    exists i :: 0 <= i < |t| && t[i].key == k
  }

  predicate DistinctKeys<K(==)>(t: seq<Entry<K>>) {
    forall i, j :: 0 <= i < j < |t| ==> t[i].key != t[j].key
  }

  /** The count recorded for `k`, or 0 when there is no entry (`map.get(k) || 0`). */
  function CountOf<K(==)>(t: seq<Entry<K>>, k: K): nat {
    if |t| == 0 then 0 else if t[0].key == k then t[0].count else CountOf(t[1..], k)
  }

  function TotalCount<K>(t: seq<Entry<K>>): nat {
    if |t| == 0 then 0 else t[0].count + TotalCount(t[1..])
  }

  /** One `map.set(k, (map.get(k) || 0) + 1)`: an existing entry keeps its place. */
  function Bump<K(==)>(t: seq<Entry<K>>, k: K): (r: seq<Entry<K>>)
    ensures |r| == if HasKey(t, k) then |t| else |t| + 1
  {
    if |t| == 0 then [Entry(k, 1)]
    else if t[0].key == k then [Entry(k, t[0].count + 1)] + t[1..]
    else
      assert HasKey(t, k) <==> HasKey(t[1..], k) by {
        if HasKey(t, k) {
          var i :| 0 <= i < |t| && t[i].key == k;
          assert t[1..][i - 1].key == k;
        }
      }
      [t[0]] + Bump(t[1..], k)
  }

  /** Bumping `k` adds one to its count and leaves every other count alone. */
  lemma {:induction false} BumpCount<K>(t: seq<Entry<K>>, k: K, j: K)
    ensures CountOf(Bump(t, k), j) == CountOf(t, j) + (if j == k then 1 else 0)
  {
    if |t| > 0 && t[0].key != k {
      BumpCount(t[1..], k, j);
      assert Bump(t, k)[1..] == Bump(t[1..], k);
    } else if |t| > 0 {
      assert Bump(t, k)[1..] == t[1..];
    }
  }

  /** A key is present in a non-empty tally iff it is the head's or present in the tail. */
  lemma HasKeyCons<K>(t: seq<Entry<K>>, j: K)
    requires |t| > 0
    ensures HasKey(t, j) <==> t[0].key == j || HasKey(t[1..], j)
  {
    if HasKey(t, j) && t[0].key != j {
      var i :| 0 <= i < |t| && t[i].key == j;
      assert t[1..][i - 1].key == j;
    }
    if HasKey(t[1..], j) {
      var i :| 0 <= i < |t[1..]| && t[1..][i].key == j;
      assert t[i + 1].key == j;
    }
  }

  /** After bumping, the keys are the old keys plus `k`. */
  lemma {:induction false} BumpHasKey<K>(t: seq<Entry<K>>, k: K, j: K)
    ensures HasKey(Bump(t, k), j) <==> HasKey(t, j) || j == k
  {
    var r := Bump(t, k);
    if |t| == 0 {
      assert r[0].key == k;
    } else {
      HasKeyCons(t, j);
      HasKeyCons(r, j);
      if t[0].key == k {
        assert r[1..] == t[1..];
      } else {
        BumpHasKey(t[1..], k, j);
        assert r[1..] == Bump(t[1..], k);
      }
    }
  }

  /** Bumping keeps the keys pairwise distinct and adds one to the total. */
  lemma {:induction false} BumpDistinct<K>(t: seq<Entry<K>>, k: K)
    requires DistinctKeys(t)
    ensures DistinctKeys(Bump(t, k))
    ensures TotalCount(Bump(t, k)) == TotalCount(t) + 1
  {
    var r := Bump(t, k);
    if |t| > 0 && t[0].key == k {
      assert r[1..] == t[1..];
    } else if |t| > 0 {
      var rest := Bump(t[1..], k);
      assert r[1..] == rest;
      BumpDistinct(t[1..], k);
      forall b | 0 < b < |r| ensures r[0].key != r[b].key {
        BumpHasKey(t[1..], k, r[b].key);
        assert rest[b - 1] == r[b];
        assert HasKey(rest, r[b].key);
        if HasKey(t[1..], r[b].key) {
          var i :| 0 <= i < |t[1..]| && t[1..][i].key == r[b].key;
          assert t[i + 1].key == r[b].key;
        }
      }
      forall a, b | 0 < a < b < |r| ensures r[a].key != r[b].key {
        assert rest[a - 1] == r[a] && rest[b - 1] == r[b];
      }
    }
  }

  /** The entries of `new Map()` after counting every key in order. */
  function Count<K(==)>(keys: seq<K>): (r: seq<Entry<K>>)
    ensures |r| <= |keys|
  {
    if |keys| == 0 then []
    else Bump(Count(keys[..|keys| - 1]), keys[|keys| - 1])
  }

  /**
   * Counting yields one entry per distinct key, each with its number of
   * occurrences, and the counts add up to the number of keys.
   */
  lemma {:induction false} CountCorrect<K>(keys: seq<K>)
    ensures DistinctKeys(Count(keys))
    ensures forall j :: CountOf(Count(keys), j) == Occurrences(keys, j)
    ensures forall j :: HasKey(Count(keys), j) <==> j in keys
    ensures TotalCount(Count(keys)) == |keys|
  {
    if |keys| > 0 {
      var init := keys[..|keys| - 1];
      var last := keys[|keys| - 1];
      CountCorrect(init);
      BumpDistinct(Count(init), last);
      forall j ensures CountOf(Count(keys), j) == Occurrences(keys, j) {
        BumpCount(Count(init), last, j);
      }
      assert keys == init + [last];
      forall j ensures HasKey(Count(keys), j) <==> j in keys {
        BumpHasKey(Count(init), last, j);
        assert j in keys <==> j in init || j == last;
      }
    }
  }

  /** `Array.from(map.entries()).sort((a, b) => b.count - a.count).slice(0, k)`. */
  function Top<K>(t: seq<Entry<K>>, k: nat): (r: seq<Entry<K>>)
    ensures |r| == if k < |t| then k else |t|
  {
    Take(SortDesc(t, (e: Entry<K>) => e.count as real), k)
  }

  /**
   * The top entries are entries of the tally, by count descending, and they
   * account for no more than the tally's total.
   */
  lemma TopCorrect<K>(t: seq<Entry<K>>, k: nat)
    ensures SortedDesc(Top(t, k), (e: Entry<K>) => e.count as real)
    ensures forall i :: 0 <= i < |Top(t, k)| ==> Top(t, k)[i] in t
    ensures TotalCount(Top(t, k)) <= TotalCount(t)
  {
    var key := (e: Entry<K>) => e.count as real;
    var sorted := SortDesc(t, key);
    TopIsPrefix(sorted, k);
    TopMembers(t, k);
    SortPreservesTotal(t, Negated(key));
    TakeTotal(sorted, k);
  }

  /** An entry left out of the top `k` counts no more than any entry kept: the top entries are the most frequent. */
  lemma TopAreMostFrequent<K>(t: seq<Entry<K>>, k: nat, x: Entry<K>)
    requires x in t && x !in Top(t, k)
    ensures forall i :: 0 <= i < |Top(t, k)| ==> Top(t, k)[i].count >= x.count
  {
    var key := (e: Entry<K>) => e.count as real;
    assert Top(t, k) == Newest(t, key, k);
    NewestAreNewest(t, key, k, x);
  }

  lemma TopIsPrefix<K>(sorted: seq<Entry<K>>, k: nat)
    requires SortedDesc(sorted, (e: Entry<K>) => e.count as real)
    ensures SortedDesc(Take(sorted, k), (e: Entry<K>) => e.count as real)
  {
    var r := Take(sorted, k);
    forall i, j | 0 <= i < j < |r| ensures r[i].count >= r[j].count {
      assert r[i] == sorted[i] && r[j] == sorted[j];
    }
  }

  lemma TopMembers<K>(t: seq<Entry<K>>, k: nat)
    ensures forall i :: 0 <= i < |Top(t, k)| ==> Top(t, k)[i] in t
  {
    var sorted := SortDesc(t, (e: Entry<K>) => e.count as real);
    var r := Top(t, k);
    forall i | 0 <= i < |r| ensures r[i] in t {
      assert r[i] == sorted[i];
      assert sorted[i] in multiset(sorted);
    }
  }

  lemma {:induction false} InsertPreservesTotal<K>(x: Entry<K>, xs: seq<Entry<K>>, key: Entry<K> -> real)
    ensures TotalCount(Insert(x, xs, key)) == x.count + TotalCount(xs)
  {
    if |xs| > 0 && key(x) > key(xs[0]) {
      InsertPreservesTotal(x, xs[1..], key);
      assert Insert(x, xs, key)[1..] == Insert(x, xs[1..], key);
    } else if |xs| > 0 {
      assert Insert(x, xs, key)[1..] == xs;
    }
  }

  lemma {:induction false} SortPreservesTotal<K>(xs: seq<Entry<K>>, key: Entry<K> -> real)
    ensures TotalCount(SortAsc(xs, key)) == TotalCount(xs)
  {
    if |xs| > 0 {
      SortPreservesTotal(xs[1..], key);
      InsertPreservesTotal(xs[0], SortAsc(xs[1..], key), key);
    }
  }

  lemma {:induction false} TakeTotal<K>(xs: seq<Entry<K>>, n: nat)
    ensures TotalCount(Take(xs, n)) <= TotalCount(xs)
  {
    if n > 0 && |xs| > 0 {
      TakeTotal(xs[1..], n - 1);
      if n < |xs| {
        assert Take(xs, n)[1..] == Take(xs[1..], n - 1);
      }
    }
  }

  /** In a tally with distinct keys, an entry's recorded count is the count of its key. */
  lemma {:induction false} EntryCount<K>(t: seq<Entry<K>>, i: nat)
    requires DistinctKeys(t) && i < |t|
    ensures CountOf(t, t[i].key) == t[i].count
  {
    if i > 0 {
      assert t[0].key != t[i].key;
      assert t[1..][i - 1] == t[i];
      EntryCount(t[1..], i - 1);
    }
  }

  /** Every top entry carries a key that was counted, with its exact number of occurrences. */
  lemma TopCounts<K>(keys: seq<K>, k: nat)
    ensures forall e :: e in Top(Count(keys), k) ==> e.key in keys && e.count == Occurrences(keys, e.key)
  {
    var t := Count(keys);
    CountCorrect(keys);
    TopCorrect(t, k);
    forall e | e in Top(t, k) ensures e.key in keys && e.count == Occurrences(keys, e.key) {
      var j :| 0 <= j < |Top(t, k)| && Top(t, k)[j] == e;
      var i :| 0 <= i < |t| && t[i] == e;
      EntryCount(t, i);
      assert HasKey(t, e.key);
    }
  }

  /**
   * A counted key that did not make the top `k` occurs no more often than
   * any key that did.
   */
  lemma TopKeysMostFrequent<K>(keys: seq<K>, k: nat, j: K)
    requires j in keys
    requires forall e :: e in Top(Count(keys), k) ==> e.key != j
    ensures forall e :: e in Top(Count(keys), k) ==> e.count >= Occurrences(keys, j)
  {
    var t := Count(keys);
    CountCorrect(keys);
    assert HasKey(t, j);
    var i :| 0 <= i < |t| && t[i].key == j;
    EntryCount(t, i);
    assert t[i] !in Top(t, k);
    TopAreMostFrequent(t, k, t[i]);
  }

  /**
   * The top `k` of the counted keys: each with its exact number of
   * occurrences, and none outcounted by a key left out.
   */
  lemma TopKeysCorrect<K>(keys: seq<K>, k: nat)
    ensures var top := Top(Count(keys), k);
      (forall e :: e in top ==> e.key in keys && e.count == Occurrences(keys, e.key)) &&
      (forall j :: j in keys && (forall e :: e in top ==> e.key != j) ==> forall e :: e in top ==> e.count >= Occurrences(keys, j))
  {
    var top := Top(Count(keys), k);
    TopCounts(keys, k);
    forall j | j in keys && (forall e :: e in top ==> e.key != j)
      ensures forall e :: e in top ==> e.count >= Occurrences(keys, j)
    {
      TopKeysMostFrequent(keys, k, j);
    }
  }
}
