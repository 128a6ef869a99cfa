/**
 * Python's `sorted(xs, key=k, reverse=True)` and `xs.sort(key=k, reverse=True)`: a stable sort
 * into non-increasing key order, in which elements of equal key keep their original order.
 * An ascending sort on key k is the descending sort on -k, which keeps equal keys in the
 * same order as well.
 */
module Sorting {
  import opened Collect

  /** Keys do not increase from front to back. */
  predicate SortedDesc<T>(xs: seq<T>, key: T -> real)
  {
    forall i, j :: 0 <= i < j < |xs| ==> key(xs[i]) >= key(xs[j])
  }

  /** Puts x after every element whose key is at least x's, in front of the first smaller one. */
  function InsertDesc<T>(xs: seq<T>, x: T, key: T -> real): (r: seq<T>)
    ensures |r| == |xs| + 1
  {
    if xs == [] then [x]
    else if key(xs[0]) < key(x) then [x] + xs
    else [xs[0]] + InsertDesc(xs[1..], x, key)
  }

  lemma {:induction false} InsertDescPermutation<T>(xs: seq<T>, x: T, key: T -> real)
    ensures multiset(InsertDesc(xs, x, key)) == multiset(xs) + multiset{x}
  {
    if xs != [] && key(xs[0]) >= key(x) {
      InsertDescPermutation(xs[1..], x, key);
      assert xs == [xs[0]] + xs[1..];
    }
  }

  /** How many leading elements have a key at least x's: where `InsertDesc` puts x. */
  function InsertPoint<T>(xs: seq<T>, x: T, key: T -> real): (p: nat)
    ensures p <= |xs|
  {
    if xs == [] || key(xs[0]) < key(x) then 0 else 1 + InsertPoint(xs[1..], x, key)
  }

  lemma {:induction false} InsertDescAt<T>(xs: seq<T>, x: T, key: T -> real)
    ensures InsertDesc(xs, x, key) == xs[..InsertPoint(xs, x, key)] + [x] + xs[InsertPoint(xs, x, key)..]
    ensures forall i :: 0 <= i < InsertPoint(xs, x, key) ==> key(xs[i]) >= key(x)
  {
    if xs != [] && key(xs[0]) >= key(x) {
      var tail := xs[1..];
      InsertDescAt(tail, x, key);
      var p := InsertPoint(tail, x, key);
      assert xs[..p + 1] == [xs[0]] + tail[..p];
      assert xs[p + 1..] == tail[p..];
    }
  }

  lemma {:induction false} InsertPointStops<T>(xs: seq<T>, x: T, key: T -> real)
    requires InsertPoint(xs, x, key) < |xs|
    ensures key(xs[InsertPoint(xs, x, key)]) < key(x)
  {
    if xs != [] && key(xs[0]) >= key(x) {
      InsertPointStops(xs[1..], x, key);
    }
  }

  /** In a sorted list every element from the insertion point on has a key below x's. */
  lemma {:induction false} InsertPointAfter<T>(xs: seq<T>, x: T, key: T -> real)
    requires SortedDesc(xs, key)
    ensures forall i :: InsertPoint(xs, x, key) <= i < |xs| ==> key(xs[i]) < key(x)
  {
    var p := InsertPoint(xs, x, key);
    if p < |xs| {
      InsertPointStops(xs, x, key);
      assert forall i :: p <= i < |xs| ==> key(xs[i]) <= key(xs[p]);
    }
  }

  /** A sorted list stays sorted under a new head whose key is at least all of its keys. */
  lemma {:induction false} ConsSorted<T>(h: T, rest: seq<T>, key: T -> real)
    requires SortedDesc(rest, key)
    requires forall k :: 0 <= k < |rest| ==> key(h) >= key(rest[k])
    ensures SortedDesc([h] + rest, key)
  {
    var r := [h] + rest;
    forall i, j | 0 <= i < j < |r|
      ensures key(r[i]) >= key(r[j])
    {
      if i > 0 {
        assert r[i] == rest[i - 1] && r[j] == rest[j - 1];
      } else {
        assert r[j] == rest[j - 1];
      }
    }
  }

  lemma {:induction false} InsertDescSorted<T>(xs: seq<T>, x: T, key: T -> real)
    requires SortedDesc(xs, key)
    ensures SortedDesc(InsertDesc(xs, x, key), key)
  {
    if xs != [] {
      if key(xs[0]) < key(x) {
        ConsSorted(x, xs, key);
      } else {
        var tail := xs[1..];
        var rest := InsertDesc(tail, x, key);
        InsertDescSorted(tail, x, key);
        InsertDescPermutation(tail, x, key);
        forall k | 0 <= k < |rest|
          ensures key(xs[0]) >= key(rest[k])
        {
          assert rest[k] in multiset(rest);
          assert rest[k] in tail || rest[k] == x;
        }
        ConsSorted(xs[0], rest, key);
      }
    }
  }

  /**
   * Insertion splits a sorted list: everything in front of x has a key at least x's and
   * everything behind it a smaller key, and the result is sorted again.
   */
  lemma {:induction false} InsertDescSplit<T>(xs: seq<T>, x: T, key: T -> real)
    requires SortedDesc(xs, key)
    ensures var p := InsertPoint(xs, x, key);
      InsertDesc(xs, x, key) == xs[..p] + [x] + xs[p..] &&
      (forall i :: 0 <= i < p ==> key(xs[i]) >= key(x)) && (forall i :: p <= i < |xs| ==> key(xs[i]) < key(x))
    ensures SortedDesc(InsertDesc(xs, x, key), key)
  {
    InsertDescAt(xs, x, key);
    InsertPointAfter(xs, x, key);
    InsertDescSorted(xs, x, key);
  }

  /** The stable descending sort: insert the elements one after another, in input order. */
  function SortDesc<T>(xs: seq<T>, key: T -> real): (r: seq<T>)
    ensures |r| == |xs|
  {
    if xs == [] then [] else InsertDesc(SortDesc(xs[..|xs| - 1], key), xs[|xs| - 1], key)
  }

  /** The sort's result is sorted, is a permutation of its input, and has the same elements. */
  lemma {:induction false} SortDescSorted<T>(xs: seq<T>, key: T -> real)
    ensures SortedDesc(SortDesc(xs, key), key)
    ensures multiset(SortDesc(xs, key)) == multiset(xs)
    ensures forall v :: v in SortDesc(xs, key) <==> v in xs
  {
    if xs != [] {
      SortDescSorted(xs[..|xs| - 1], key);
      InsertDescSorted(SortDesc(xs[..|xs| - 1], key), xs[|xs| - 1], key);
      InsertDescPermutation(SortDesc(xs[..|xs| - 1], key), xs[|xs| - 1], key);
      assert xs == xs[..|xs| - 1] + [xs[|xs| - 1]];
    }
    forall v
      ensures v in SortDesc(xs, key) <==> v in xs
    {
      assert v in SortDesc(xs, key) <==> v in multiset(SortDesc(xs, key));
      assert v in xs <==> v in multiset(xs);
    }
  }

  /** The elements whose key is exactly v. */
  function KeyIs<T>(key: T -> real, v: real): T -> bool
  {
    (e: T) => key(e) == v
  }

  lemma {:induction false} InsertDescStable<T>(xs: seq<T>, x: T, key: T -> real, v: real)
    requires SortedDesc(xs, key)
    ensures Filter(InsertDesc(xs, x, key), KeyIs(key, v)) == Filter(xs, KeyIs(key, v)) + Filter([x], KeyIs(key, v))
  {
    var p := InsertPoint(xs, x, key);
    InsertDescAt(xs, x, key);
    InsertDescBack(xs, x, key);
    StableAround(xs[..p], x, xs[p..], key, v);
    assert xs == xs[..p] + xs[p..];
  }

  lemma {:induction false} InsertDescBack<T>(xs: seq<T>, x: T, key: T -> real)
    requires SortedDesc(xs, key)
    ensures var back := xs[InsertPoint(xs, x, key)..]; forall k :: 0 <= k < |back| ==> key(back[k]) < key(x)
  {
    InsertPointAfter(xs, x, key);
  }

  lemma {:induction false} StableAround<T>(front: seq<T>, x: T, back: seq<T>, key: T -> real, v: real)
    requires forall k :: 0 <= k < |back| ==> key(back[k]) < key(x)
    ensures Filter(front + [x] + back, KeyIs(key, v)) == Filter(front + back, KeyIs(key, v)) + Filter([x], KeyIs(key, v))
  {
    var f := KeyIs(key, v);
    FilterAppend(front, back, f);
    FilterAround(front, x, back, f);
    FilterSingle(x, f);
    if key(x) == v {
      FilterEmpty(back, f);
    }
  }

  lemma {:induction false} FilterAround<T>(front: seq<T>, x: T, back: seq<T>, f: T -> bool)
    ensures Filter(front + [x] + back, f) == Filter(front, f) + Filter([x], f) + Filter(back, f)
  {
    FilterAppend(front + [x], back, f);
    FilterAppend(front, [x], f);
  }

  /**
   * Stability: for every key value, the elements carrying it appear in the sorted list in exactly
   * the order they had in the input.
   */
  lemma {:induction false} SortDescStable<T>(xs: seq<T>, key: T -> real, v: real)
    ensures Filter(SortDesc(xs, key), KeyIs(key, v)) == Filter(xs, KeyIs(key, v))
  {
    if xs != [] {
      var init, last := xs[..|xs| - 1], xs[|xs| - 1];
      SortDescStable(init, key, v);
      SortDescSorted(init, key);
      InsertDescStable(SortDesc(init, key), last, key, v);
      assert xs == init + [last];
      FilterAppend(init, [last], KeyIs(key, v));
    }
  }

  /** An element whose key is below every key already present goes to the end. */
  lemma {:induction false} InsertDescSmallest<T>(xs: seq<T>, x: T, key: T -> real)
    requires forall i :: 0 <= i < |xs| ==> key(xs[i]) >= key(x)
    ensures InsertDesc(xs, x, key) == xs + [x]
  {
    if xs != [] {
      InsertDescSmallest(xs[1..], x, key);
      assert xs == [xs[0]] + xs[1..];
    }
  }

  /** Sorting a sorted list leaves it as it is. */
  lemma {:induction false} SortDescOfSorted<T>(xs: seq<T>, key: T -> real)
    requires SortedDesc(xs, key)
    ensures SortDesc(xs, key) == xs
  {
    if xs != [] {
      var init := xs[..|xs| - 1];
      assert SortedDesc(init, key);
      SortDescOfSorted(init, key);
      InsertDescSmallest(init, xs[|xs| - 1], key);
      assert init + [xs[|xs| - 1]] == xs;
    }
  }

  /** Appending to a sorted list and sorting again is insertion into that list. */
  lemma {:induction false} SortDescAppend<T>(xs: seq<T>, x: T, key: T -> real)
    requires SortedDesc(xs, key)
    ensures SortDesc(xs + [x], key) == InsertDesc(xs, x, key)
  {
    assert (xs + [x])[..|xs + [x]| - 1] == xs;
    SortDescOfSorted(xs, key);
  }

  /** Python's slice `xs[:n]`, which is the whole list when n exceeds its length. */
  function Take<T>(xs: seq<T>, n: nat): (r: seq<T>)
    ensures |r| <= n && |r| <= |xs|
    ensures |r| == n || r == xs
  {
    if n <= |xs| then xs[..n] else xs
  }

  /** Python's slice `xs[:n]` for any integer n: a negative n drops the last -n elements. */
  function SliceTo<T>(xs: seq<T>, n: int): (r: seq<T>)
    ensures |r| <= |xs| && r == xs[..|r|]
    ensures n >= 0 ==> r == Take(xs, n)
    ensures n < 0 ==> |r| == if |xs| + n >= 0 then |xs| + n else 0
  {
    if n >= 0 then Take(xs, n) else if |xs| + n >= 0 then xs[..|xs| + n] else []
  }

  /** A prefix of a sorted list is sorted. */
  lemma {:induction false} SortedPrefix<T>(xs: seq<T>, n: nat, key: T -> real)
    requires SortedDesc(xs, key) && n <= |xs|
    ensures SortedDesc(xs[..n], key)
  {
    forall i, j | 0 <= i < j < n
      ensures key(xs[..n][i]) >= key(xs[..n][j])
    {
      assert xs[..n][i] == xs[i] && xs[..n][j] == xs[j];
    }
  }

  /**
   * A prefix of a sorted list holds its largest keys: nothing left behind the prefix has a key
   * above one inside it.
   */
  lemma {:induction false} SortedPrefixTop<T>(xs: seq<T>, n: nat, key: T -> real)
    requires SortedDesc(xs, key) && n <= |xs|
    ensures multiset(xs[..n]) <= multiset(xs)
    ensures multiset(xs) - multiset(xs[..n]) == multiset(xs[n..])
    ensures forall x, y :: x in xs[..n] && y in multiset(xs) - multiset(xs[..n]) ==> key(x) >= key(y)
  {
    var front, back := xs[..n], xs[n..];
    assert xs == front + back;
    assert multiset(xs) == multiset(front) + multiset(back);
    assert multiset(xs) - multiset(front) == multiset(back);
    PrefixAboveSuffix(xs, n, key);
  }

  /** In a sorted list every key before position n is at least every key from n on. */
  lemma {:induction false} PrefixAboveSuffix<T>(xs: seq<T>, n: nat, key: T -> real)
    requires SortedDesc(xs, key) && n <= |xs|
    ensures forall x, y :: x in xs[..n] && y in xs[n..] ==> key(x) >= key(y)
  {
    forall x, y | x in xs[..n] && y in xs[n..]
      ensures key(x) >= key(y)
    {
      var i :| 0 <= i < n && xs[..n][i] == x;
      var j :| 0 <= j < |xs| - n && xs[n..][j] == y;
      assert xs[i] == x && xs[n + j] == y;
    }
  }

  /** Filtering a sorted list leaves it sorted. */
  lemma {:induction false} FilterSorted<T>(xs: seq<T>, p: T -> bool, key: T -> real)
    requires SortedDesc(xs, key)
    ensures SortedDesc(Filter(xs, p), key)
  {
    if xs != [] {
      var init, last := xs[..|xs| - 1], xs[|xs| - 1];
      SortedPrefix(xs, |xs| - 1, key);
      FilterSorted(init, p, key);
      if p(last) {
        var f := Filter(init, p);
        forall k | 0 <= k < |f|
          ensures key(f[k]) >= key(last)
        {
          FilterMember(init, p, f[k]);
          var i :| 0 <= i < |init| && init[i] == f[k];
          assert xs[i] == f[k];
        }
        assert SortedDesc(f + [last], key) by {
          forall i, j | 0 <= i < j < |f| + 1
            ensures key((f + [last])[i]) >= key((f + [last])[j])
          {
            if j == |f| {
              assert (f + [last])[i] == f[i];
            } else {
              assert (f + [last])[i] == f[i] && (f + [last])[j] == f[j];
            }
          }
        }
      }
    }
  }
}
