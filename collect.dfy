/**
 * What the engine's nested `for` loops collect: one loop over a list, two loops over the
 * ordered pairs `i < j` of one list, and two loops over the product of two lists. Each
 * collector is defined so that the entries of one more step are appended at the end,
 * which is the order a loop appends them in.
 */
module Collect {

  /** Sum of a list of numbers, as Python's `sum`. */
  function Sum(xs: seq<real>): (s: real)
  {
    if |xs| == 0 then 0.0 else Sum(xs[..|xs| - 1]) + xs[|xs| - 1]
  }

  lemma {:induction false} SumNonNegative(xs: seq<real>)
    requires forall k :: 0 <= k < |xs| ==> xs[k] >= 0.0
    ensures Sum(xs) >= 0.0
  {
    if |xs| > 0 {
      SumNonNegative(xs[..|xs| - 1]);
    }
  }

  lemma {:induction false} SumAppend(xs: seq<real>, ys: seq<real>)
    ensures Sum(xs + ys) == Sum(xs) + Sum(ys)
    decreases |ys|
  {
    if |ys| > 0 {
      assert (xs + ys)[..|xs + ys| - 1] == xs + ys[..|ys| - 1];
      SumAppend(xs, ys[..|ys| - 1]);
    } else {
      assert xs + ys == xs;
    }
  }

  lemma {:induction false} SumPositive(xs: seq<real>, k: nat)
    requires forall i :: 0 <= i < |xs| ==> xs[i] >= 0.0
    requires k < |xs| && xs[k] > 0.0
    ensures Sum(xs) > 0.0
  {
    if k == |xs| - 1 {
      SumNonNegative(xs[..|xs| - 1]);
    } else {
      SumPositive(xs[..|xs| - 1], k);
    }
  }

  lemma {:induction false} SumSingle(v: real)
    ensures Sum([v]) == v
  {
    assert [v][..0] == [];
  }

  /** A rate applied to a running total distributes over one more addend. */
  lemma {:induction false} Scale(rate: real, total: real, more: real)
    ensures rate * (total + more) == rate * total + rate * more
  {
  }

  lemma {:induction false} SumOfPositives(xs: seq<real>)
    requires forall v :: v in xs ==> v > 0.0
    ensures Sum(xs) >= 0.0
    ensures Sum(xs) == 0.0 <==> xs == []
  {
    assert forall k :: 0 <= k < |xs| ==> xs[k] in xs;
    SumNonNegative(xs);
    if xs != [] {
      SumPositive(xs, 0);
    }
  }

  /** No summand above hi: the sum is at most hi for every summand. */
  lemma {:induction false} SumAtMost(xs: seq<real>, hi: real)
    requires forall v :: v in xs ==> v <= hi
    ensures Sum(xs) <= hi * |xs| as real
  {
    if |xs| > 0 {
      var init := xs[..|xs| - 1];
      assert forall v :: v in init ==> v in xs;
      SumAtMost(init, hi);
      assert xs[|xs| - 1] in xs;
      assert hi * |init| as real + hi == hi * |xs| as real;
    }
  }

  /** No summand below lo: the sum is at least lo for every summand. */
  lemma {:induction false} SumAtLeast(xs: seq<real>, lo: real)
    requires forall v :: v in xs ==> v >= lo
    ensures Sum(xs) >= lo * |xs| as real
  {
    if |xs| > 0 {
      var init := xs[..|xs| - 1];
      assert forall v :: v in init ==> v in xs;
      SumAtLeast(init, lo);
      assert xs[|xs| - 1] in xs;
      assert lo * |init| as real + lo == lo * |xs| as real;
    }
  }

  /** Entries `f(xs[0]) + ... + f(xs[n - 1])`: one loop over the first n elements. */
  function Each<T, V>(xs: seq<T>, n: nat, f: T -> seq<V>): seq<V>
    requires n <= |xs|
  {
    if n == 0 then [] else Each(xs, n - 1, f) + f(xs[n - 1])
  }

  lemma {:induction false} EachMember<T, V>(xs: seq<T>, n: nat, f: T -> seq<V>, v: V)
    requires n <= |xs|
    ensures v in Each(xs, n, f) <==> exists k :: 0 <= k < n && v in f(xs[k])
  {
    if n > 0 {
      EachMember(xs, n - 1, f, v);
    }
  }

  /** The element an element of `Each` comes from. */
  lemma {:induction false} EachWitness<T, V>(xs: seq<T>, n: nat, f: T -> seq<V>, v: V) returns (k: nat)
    requires n <= |xs| && v in Each(xs, n, f)
    ensures k < n && v in f(xs[k])
  {
    EachMember(xs, n, f, v);
    k :| 0 <= k < n && v in f(xs[k]);
  }

  lemma {:induction false} EachEmpty<T, V>(xs: seq<T>, n: nat, f: T -> seq<V>)
    requires n <= |xs|
    ensures Each(xs, n, f) == [] <==> forall k :: 0 <= k < n ==> f(xs[k]) == []
  {
    if n > 0 {
      EachEmpty(xs, n - 1, f);
    }
  }

  /** `[f(x, k + 1) for k, x in enumerate(xs[:n])]`: one result per element, numbered from 1. */
  function Indexed<T, V>(xs: seq<T>, n: nat, f: (T, nat) -> V): seq<V>
    requires n <= |xs|
  {
    if n == 0 then [] else Indexed(xs, n - 1, f) + [f(xs[n - 1], n)]
  }

  lemma {:induction false} IndexedSpec<T, V>(xs: seq<T>, n: nat, f: (T, nat) -> V)
    requires n <= |xs|
    ensures |Indexed(xs, n, f)| == n
    ensures forall k :: 0 <= k < n ==> Indexed(xs, n, f)[k] == f(xs[k], k + 1)
  {
    if n > 0 {
      IndexedSpec(xs, n - 1, f);
    }
  }

  /** Entries `f(xs[i], xs[k])` for `i < k < j`: the inner loop `for rect2 in rects[i + 1:]` stopped before j. */
  function RowTo<T, V>(xs: seq<T>, i: nat, j: nat, f: (T, T) -> seq<V>): seq<V>
    requires i < |xs| && j <= |xs|
    decreases j
  {
    if j <= i + 1 then [] else RowTo(xs, i, j - 1, f) + f(xs[i], xs[j - 1])
  }

  /** Entries of the first n rows of the pair loop. */
  function Rows<T, V>(xs: seq<T>, n: nat, f: (T, T) -> seq<V>): seq<V>
    requires n <= |xs|
  {
    if n == 0 then [] else Rows(xs, n - 1, f) + RowTo(xs, n - 1, |xs|, f)
  }

  /** Entries of every unordered pair, in the order `for i ...: for j in range(i + 1, n)` visits them. */
  function Pairs<T, V>(xs: seq<T>, f: (T, T) -> seq<V>): seq<V>
  {
    Rows(xs, |xs|, f)
  }

  lemma {:induction false} RowToMember<T, V>(xs: seq<T>, i: nat, j: nat, f: (T, T) -> seq<V>, v: V)
    requires i < |xs| && j <= |xs|
    ensures v in RowTo(xs, i, j, f) <==> exists k :: i < k < j && v in f(xs[i], xs[k])
    decreases j
  {
    if j > i + 1 {
      RowToMember(xs, i, j - 1, f, v);
    }
  }

  lemma {:induction false} RowsMember<T, V>(xs: seq<T>, n: nat, f: (T, T) -> seq<V>, v: V)
    requires n <= |xs|
    ensures v in Rows(xs, n, f) <==> exists a, b :: 0 <= a < n && a < b < |xs| && v in f(xs[a], xs[b])
  {
    if n > 0 {
      RowsMember(xs, n - 1, f, v);
      RowToMember(xs, n - 1, |xs|, f, v);
      assert Rows(xs, n, f) == Rows(xs, n - 1, f) + RowTo(xs, n - 1, |xs|, f);
      if v in Rows(xs, n, f) {
        if v in Rows(xs, n - 1, f) {
          var a, b :| 0 <= a < n - 1 && a < b < |xs| && v in f(xs[a], xs[b]);
          assert 0 <= a < n && a < b < |xs| && v in f(xs[a], xs[b]);
        } else {
          var b :| n - 1 < b < |xs| && v in f(xs[n - 1], xs[b]);
          assert 0 <= n - 1 < n && n - 1 < b < |xs| && v in f(xs[n - 1], xs[b]);
        }
      }
      if exists a, b :: 0 <= a < n && a < b < |xs| && v in f(xs[a], xs[b]) {
        var a, b :| 0 <= a < n && a < b < |xs| && v in f(xs[a], xs[b]);
        if a < n - 1 {
          assert v in Rows(xs, n - 1, f);
        } else {
          assert v in RowTo(xs, n - 1, |xs|, f);
        }
      }
    }
  }

  /** An entry is collected iff some pair `a < b` produces it. */
  lemma {:induction false} PairsMember<T, V>(xs: seq<T>, f: (T, T) -> seq<V>, v: V)
    ensures v in Pairs(xs, f) <==> exists a, b :: 0 <= a < b < |xs| && v in f(xs[a], xs[b])
  {
    RowsMember(xs, |xs|, f, v);
  }

  lemma {:induction false} RowToEmpty<T, V>(xs: seq<T>, i: nat, j: nat, f: (T, T) -> seq<V>)
    requires i < |xs| && j <= |xs|
    ensures RowTo(xs, i, j, f) == [] <==> forall k :: i < k < j ==> f(xs[i], xs[k]) == []
    decreases j
  {
    if j > i + 1 {
      RowToEmpty(xs, i, j - 1, f);
    }
  }

  lemma {:induction false} RowsEmpty<T, V>(xs: seq<T>, n: nat, f: (T, T) -> seq<V>)
    requires n <= |xs|
    ensures Rows(xs, n, f) == [] <==> forall a, b :: 0 <= a < n && a < b < |xs| ==> f(xs[a], xs[b]) == []
  {
    if n > 0 {
      RowsEmpty(xs, n - 1, f);
      RowToEmpty(xs, n - 1, |xs|, f);
      var head, last := Rows(xs, n - 1, f), RowTo(xs, n - 1, |xs|, f);
      assert Rows(xs, n, f) == head + last;
      assert head + last == [] <==> head == [] && last == [];
    }
  }

  /** Nothing is collected iff no pair produces an entry. */
  lemma {:induction false} PairsEmpty<T, V>(xs: seq<T>, f: (T, T) -> seq<V>)
    ensures Pairs(xs, f) == [] <==> forall a, b :: 0 <= a < b < |xs| ==> f(xs[a], xs[b]) == []
  {
    RowsEmpty(xs, |xs|, f);
  }

  /** With one entry per pair, row i up to j holds one entry per k with i < k < j. */
  lemma {:induction false} RowToCount<T, V>(xs: seq<T>, i: nat, j: nat, f: (T, T) -> seq<V>)
    requires i < |xs| && j <= |xs|
    requires forall a, b :: |f(a, b)| == 1
    ensures |RowTo(xs, i, j, f)| == if j <= i + 1 then 0 else j - i - 1
    decreases j
  {
    if j > i + 1 {
      RowToCount(xs, i, j - 1, f);
    }
  }

  /** With one entry per pair, the first n rows hold n |xs| - n (n + 1) / 2 entries. */
  lemma {:induction false} RowsCount<T, V>(xs: seq<T>, n: nat, f: (T, T) -> seq<V>)
    requires n <= |xs|
    requires forall a, b :: |f(a, b)| == 1
    ensures 2 * |Rows(xs, n, f)| == n * (2 * |xs| - n - 1)
  {
    if n > 0 {
      RowsCount(xs, n - 1, f);
      RowToCount(xs, n - 1, |xs|, f);
      assert n * (2 * |xs| - n - 1) == (n - 1) * (2 * |xs| - (n - 1) - 1) + 2 * (|xs| - n);
    }
  }

  /** With one entry per pair, there is one entry for each of the n (n - 1) / 2 pairs. */
  lemma {:induction false} PairsCount<T, V>(xs: seq<T>, f: (T, T) -> seq<V>)
    requires forall a, b :: |f(a, b)| == 1
    ensures 2 * |Pairs(xs, f)| == |xs| * (|xs| - 1)
  {
    RowsCount(xs, |xs|, f);
  }

  /** Entries `f(x, ys[k])` for `k < j`: the inner loop over a second list. */
  function Across<T, U, V>(x: T, ys: seq<U>, j: nat, f: (T, U) -> seq<V>): seq<V>
    requires j <= |ys|
  {
    if j == 0 then [] else Across(x, ys, j - 1, f) + f(x, ys[j - 1])
  }

  /** Entries of the first n rows of `for x in xs: for y in ys`. */
  function ProductRows<T, U, V>(xs: seq<T>, ys: seq<U>, n: nat, f: (T, U) -> seq<V>): seq<V>
    requires n <= |xs|
  {
    if n == 0 then [] else ProductRows(xs, ys, n - 1, f) + Across(xs[n - 1], ys, |ys|, f)
  }

  function Product<T, U, V>(xs: seq<T>, ys: seq<U>, f: (T, U) -> seq<V>): seq<V>
  {
    ProductRows(xs, ys, |xs|, f)
  }

  /** Entry functions that agree on the list's elements give the same pair entries. */
  lemma {:induction false} RowToCongruent<T, V>(xs: seq<T>, i: nat, j: nat, f: (T, T) -> seq<V>, g: (T, T) -> seq<V>)
    requires i < |xs| && j <= |xs|
    requires forall a, b :: a in xs && b in xs ==> f(a, b) == g(a, b)
    ensures RowTo(xs, i, j, f) == RowTo(xs, i, j, g)
    decreases j
  {
    if j > i + 1 {
      RowToCongruent(xs, i, j - 1, f, g);
      assert xs[i] in xs && xs[j - 1] in xs;
    }
  }

  lemma {:induction false} RowsCongruent<T, V>(xs: seq<T>, n: nat, f: (T, T) -> seq<V>, g: (T, T) -> seq<V>)
    requires n <= |xs|
    requires forall a, b :: a in xs && b in xs ==> f(a, b) == g(a, b)
    ensures Rows(xs, n, f) == Rows(xs, n, g)
  {
    if n > 0 {
      RowsCongruent(xs, n - 1, f, g);
      RowToCongruent(xs, n - 1, |xs|, f, g);
    }
  }

  /** Entry functions that agree on the elements of both lists give the same product entries. */
  lemma {:induction false} AcrossCongruent<T, U, V>(x: T, ys: seq<U>, j: nat, f: (T, U) -> seq<V>, g: (T, U) -> seq<V>)
    requires j <= |ys|
    requires forall b :: b in ys ==> f(x, b) == g(x, b)
    ensures Across(x, ys, j, f) == Across(x, ys, j, g)
  {
    if j > 0 {
      AcrossCongruent(x, ys, j - 1, f, g);
      assert ys[j - 1] in ys;
    }
  }

  lemma {:induction false} ProductRowsCongruent<T, U, V>(xs: seq<T>, ys: seq<U>, n: nat, f: (T, U) -> seq<V>, g: (T, U) -> seq<V>)
    requires n <= |xs|
    requires forall a, b :: a in xs && b in ys ==> f(a, b) == g(a, b)
    ensures ProductRows(xs, ys, n, f) == ProductRows(xs, ys, n, g)
  {
    if n > 0 {
      ProductRowsCongruent(xs, ys, n - 1, f, g);
      assert xs[n - 1] in xs;
      AcrossCongruent(xs[n - 1], ys, |ys|, f, g);
    }
  }

  // One step of each loop, on sums: what the method that runs the loop adds is exactly this.

  lemma {:induction false} SumRowToStep<T>(xs: seq<T>, i: nat, j: nat, f: (T, T) -> seq<real>)
    requires i < j < |xs|
    ensures Sum(RowTo(xs, i, j + 1, f)) == Sum(RowTo(xs, i, j, f)) + Sum(f(xs[i], xs[j]))
  {
    SumAppend(RowTo(xs, i, j, f), f(xs[i], xs[j]));
  }

  lemma {:induction false} SumRowsStep<T>(xs: seq<T>, n: nat, f: (T, T) -> seq<real>)
    requires n < |xs|
    ensures Sum(Rows(xs, n + 1, f)) == Sum(Rows(xs, n, f)) + Sum(RowTo(xs, n, |xs|, f))
  {
    SumAppend(Rows(xs, n, f), RowTo(xs, n, |xs|, f));
  }

  lemma {:induction false} SumAcrossStep<T, U>(x: T, ys: seq<U>, j: nat, f: (T, U) -> seq<real>)
    requires j < |ys|
    ensures Sum(Across(x, ys, j + 1, f)) == Sum(Across(x, ys, j, f)) + Sum(f(x, ys[j]))
  {
    SumAppend(Across(x, ys, j, f), f(x, ys[j]));
  }

  lemma {:induction false} SumProductRowsStep<T, U>(xs: seq<T>, ys: seq<U>, n: nat, f: (T, U) -> seq<real>)
    requires n < |xs|
    ensures Sum(ProductRows(xs, ys, n + 1, f)) == Sum(ProductRows(xs, ys, n, f)) + Sum(Across(xs[n], ys, |ys|, f))
  {
    SumAppend(ProductRows(xs, ys, n, f), Across(xs[n], ys, |ys|, f));
  }

  lemma {:induction false} AcrossMember<T, U, V>(x: T, ys: seq<U>, j: nat, f: (T, U) -> seq<V>, v: V)
    requires j <= |ys|
    ensures v in Across(x, ys, j, f) <==> exists k :: 0 <= k < j && v in f(x, ys[k])
  {
    if j > 0 {
      AcrossMember(x, ys, j - 1, f, v);
    }
  }

  lemma {:induction false} ProductRowsMember<T, U, V>(xs: seq<T>, ys: seq<U>, n: nat, f: (T, U) -> seq<V>, v: V)
    requires n <= |xs|
    ensures v in ProductRows(xs, ys, n, f) <==> exists a, b :: 0 <= a < n && 0 <= b < |ys| && v in f(xs[a], ys[b])
  {
    if n > 0 {
      ProductRowsMember(xs, ys, n - 1, f, v);
      AcrossMember(xs[n - 1], ys, |ys|, f, v);
      assert ProductRows(xs, ys, n, f) == ProductRows(xs, ys, n - 1, f) + Across(xs[n - 1], ys, |ys|, f);
      if v in ProductRows(xs, ys, n, f) {
        if v in ProductRows(xs, ys, n - 1, f) {
          var a, b :| 0 <= a < n - 1 && 0 <= b < |ys| && v in f(xs[a], ys[b]);
          assert 0 <= a < n && 0 <= b < |ys| && v in f(xs[a], ys[b]);
        } else {
          var b :| 0 <= b < |ys| && v in f(xs[n - 1], ys[b]);
          assert 0 <= n - 1 < n && 0 <= b < |ys| && v in f(xs[n - 1], ys[b]);
        }
      }
      if exists a, b :: 0 <= a < n && 0 <= b < |ys| && v in f(xs[a], ys[b]) {
        var a, b :| 0 <= a < n && 0 <= b < |ys| && v in f(xs[a], ys[b]);
        if a < n - 1 {
          assert v in ProductRows(xs, ys, n - 1, f);
        } else {
          assert v in Across(xs[n - 1], ys, |ys|, f);
        }
      }
    }
  }

  /** An entry is collected iff some pair of the product produces it. */
  lemma {:induction false} ProductMember<T, U, V>(xs: seq<T>, ys: seq<U>, f: (T, U) -> seq<V>, v: V)
    ensures v in Product(xs, ys, f) <==> exists a, b :: 0 <= a < |xs| && 0 <= b < |ys| && v in f(xs[a], ys[b])
  {
    ProductRowsMember(xs, ys, |xs|, f, v);
  }

  /** The row and column an element of a product comes from. */
  lemma {:induction false} ProductWitness<T, U, V>(xs: seq<T>, ys: seq<U>, f: (T, U) -> seq<V>, v: V) returns (a: nat, b: nat)
    requires v in Product(xs, ys, f)
    ensures a < |xs| && b < |ys| && v in f(xs[a], ys[b])
  {
    ProductMember(xs, ys, f, v);
    a, b :| 0 <= a < |xs| && 0 <= b < |ys| && v in f(xs[a], ys[b]);
  }

  lemma {:induction false} AcrossEmpty<T, U, V>(x: T, ys: seq<U>, j: nat, f: (T, U) -> seq<V>)
    requires j <= |ys|
    ensures Across(x, ys, j, f) == [] <==> forall k :: 0 <= k < j ==> f(x, ys[k]) == []
  {
    if j > 0 {
      AcrossEmpty(x, ys, j - 1, f);
    }
  }

  lemma {:induction false} AcrossEntry<T, U, V>(x: T, ys: seq<U>, j: nat, f: (T, U) -> seq<V>, k: nat)
    requires k < j <= |ys|
    ensures |f(x, ys[k])| <= |Across(x, ys, j, f)|
  {
    if k < j - 1 {
      AcrossEntry(x, ys, j - 1, f, k);
    }
  }

  lemma {:induction false} ProductRowsEntry<T, U, V>(xs: seq<T>, ys: seq<U>, n: nat, f: (T, U) -> seq<V>, a: nat, b: nat)
    requires a < n <= |xs| && b < |ys|
    ensures |f(xs[a], ys[b])| <= |ProductRows(xs, ys, n, f)|
  {
    if a < n - 1 {
      ProductRowsEntry(xs, ys, n - 1, f, a, b);
    } else {
      AcrossEntry(xs[a], ys, |ys|, f, b);
    }
  }

  lemma {:induction false} ProductRowsNone<T, U, V>(xs: seq<T>, ys: seq<U>, n: nat, f: (T, U) -> seq<V>)
    requires n <= |xs|
    requires forall a, b :: 0 <= a < n && 0 <= b < |ys| ==> f(xs[a], ys[b]) == []
    ensures ProductRows(xs, ys, n, f) == []
  {
    if n > 0 {
      ProductRowsNone(xs, ys, n - 1, f);
      var x := xs[n - 1];
      forall k | 0 <= k < |ys| ensures f(x, ys[k]) == [] {
        assert 0 <= n - 1 < n;
      }
      AcrossEmpty(x, ys, |ys|, f);
      assert ProductRows(xs, ys, n, f) == ProductRows(xs, ys, n - 1, f) + Across(x, ys, |ys|, f);
    }
  }

  lemma {:induction false} ProductEmpty<T, U, V>(xs: seq<T>, ys: seq<U>, f: (T, U) -> seq<V>)
    ensures Product(xs, ys, f) == [] <==> forall a, b :: 0 <= a < |xs| && 0 <= b < |ys| ==> f(xs[a], ys[b]) == []
  {
    if Product(xs, ys, f) == [] {
      forall a, b | 0 <= a < |xs| && 0 <= b < |ys| ensures f(xs[a], ys[b]) == [] {
        ProductRowsEntry(xs, ys, |xs|, f, a, b);
      }
    }
    if forall a, b :: 0 <= a < |xs| && 0 <= b < |ys| ==> f(xs[a], ys[b]) == [] {
      ProductRowsNone(xs, ys, |xs|, f);
    }
  }

  /** The loop `for x in xs: out.extend(f(x))`. */
  method CollectEach<T, V>(xs: seq<T>, f: T -> seq<V>) returns (out: seq<V>)
    ensures out == Each(xs, |xs|, f)
  {
    out := [];
    for k := 0 to |xs|
      invariant out == Each(xs, k, f)
    {
      out := out + f(xs[k]);
    }
  }

  /** The loops `for i, a in enumerate(xs): for b in xs[i + 1:]: out.extend(f(a, b))`. */
  method CollectPairs<T, V>(xs: seq<T>, f: (T, T) -> seq<V>) returns (out: seq<V>)
    ensures out == Pairs(xs, f)
  {
    out := [];
    for i := 0 to |xs|
      invariant out == Rows(xs, i, f)
    {
      for j := i + 1 to |xs|
        invariant out == Rows(xs, i, f) + RowTo(xs, i, j, f)
      {
        out := out + f(xs[i], xs[j]);
      }
    }
  }

  /** The loops `for x in xs: for y in ys: out.extend(f(x, y))`. */
  method CollectProduct<T, U, V>(xs: seq<T>, ys: seq<U>, f: (T, U) -> seq<V>) returns (out: seq<V>)
    ensures out == Product(xs, ys, f)
  {
    out := [];
    for i := 0 to |xs|
      invariant out == ProductRows(xs, ys, i, f)
    {
      for j := 0 to |ys|
        invariant out == ProductRows(xs, ys, i, f) + Across(xs[i], ys, j, f)
      {
        out := out + f(xs[i], ys[j]);
      }
    }
  }

  // ---------------------------------------------------------------- filtering

  /** The elements of `xs` satisfying `p`, in order: `[x for x in xs if p(x)]`. */
  function Filter<T>(xs: seq<T>, p: T -> bool): seq<T>
  {
    if xs == [] then [] else Filter(xs[..|xs| - 1], p) + (if p(xs[|xs| - 1]) then [xs[|xs| - 1]] else [])
  }

  lemma {:induction false} FilterMember<T>(xs: seq<T>, p: T -> bool, v: T)
    ensures v in Filter(xs, p) <==> v in xs && p(v)
  {
    if xs != [] {
      FilterMember(xs[..|xs| - 1], p, v);
      assert xs == xs[..|xs| - 1] + [xs[|xs| - 1]];
    }
  }

  lemma {:induction false} FilterLength<T>(xs: seq<T>, p: T -> bool)
    ensures |Filter(xs, p)| <= |xs|
  {
    if xs != [] {
      FilterLength(xs[..|xs| - 1], p);
    }
  }

  lemma {:induction false} FilterSingle<T>(v: T, p: T -> bool)
    ensures Filter([v], p) == if p(v) then [v] else []
  {
    assert [v][..0] == [];
  }

  lemma {:induction false} FilterAppend<T>(xs: seq<T>, ys: seq<T>, p: T -> bool)
    ensures Filter(xs + ys, p) == Filter(xs, p) + Filter(ys, p)
    decreases |ys|
  {
    if ys == [] {
      assert xs + ys == xs;
    } else {
      assert (xs + ys)[..|xs + ys| - 1] == xs + ys[..|ys| - 1];
      FilterAppend(xs, ys[..|ys| - 1], p);
    }
  }

  /** Nothing is kept iff no element satisfies `p`. */
  lemma {:induction false} FilterEmpty<T>(xs: seq<T>, p: T -> bool)
    ensures Filter(xs, p) == [] <==> forall k :: 0 <= k < |xs| ==> !p(xs[k])
  {
    if Filter(xs, p) == [] {
      forall k | 0 <= k < |xs|
        ensures !p(xs[k])
      {
        FilterMember(xs, p, xs[k]);
      }
    } else {
      var v := Filter(xs, p)[0];
      FilterMember(xs, p, v);
    }
  }

  /** Filtering keeps every occurrence of an element that passes and none of one that fails. */
  lemma {:induction false} FilterMultiset<T>(xs: seq<T>, p: T -> bool)
    ensures forall v :: multiset(Filter(xs, p))[v] == if p(v) then multiset(xs)[v] else 0
  {
    if xs != [] {
      var init, last := xs[..|xs| - 1], xs[|xs| - 1];
      FilterMultiset(init, p);
      assert xs == init + [last];
    }
  }

  /** Two tests that agree on every element filter alike. */
  lemma {:induction false} FilterCongruent<T>(xs: seq<T>, p: T -> bool, q: T -> bool)
    requires forall k :: 0 <= k < |xs| ==> p(xs[k]) == q(xs[k])
    ensures Filter(xs, p) == Filter(xs, q)
  {
    if xs != [] {
      FilterCongruent(xs[..|xs| - 1], p, q);
    }
  }

  /** A filter every element passes keeps the whole list. */
  lemma {:induction false} FilterAll<T>(xs: seq<T>, p: T -> bool)
    requires forall k :: 0 <= k < |xs| ==> p(xs[k])
    ensures Filter(xs, p) == xs
  {
    if xs != [] {
      FilterAll(xs[..|xs| - 1], p);
    }
  }

  /** Three tests of which each element passes exactly one split the list's length among their filters. */
  lemma {:induction false} FilterPartition<T>(xs: seq<T>, p: T -> bool, q: T -> bool, r: T -> bool)
    requires forall k :: 0 <= k < |xs| ==> (if p(xs[k]) then 1 else 0) + (if q(xs[k]) then 1 else 0) + (if r(xs[k]) then 1 else 0) == 1
    ensures |Filter(xs, p)| + |Filter(xs, q)| + |Filter(xs, r)| == |xs|
  {
    if xs != [] {
      FilterPartition(xs[..|xs| - 1], p, q, r);
    }
  }

  /** The loop `out = []; for x in xs: if p(x): out.append(x)`. */
  method FilterLoop<T>(xs: seq<T>, p: T -> bool) returns (out: seq<T>)
    ensures out == Filter(xs, p)
  {
    out := [];
    for k := 0 to |xs|
      invariant out == Filter(xs[..k], p)
    {
      assert xs[..k + 1][..k] == xs[..k];
      if p(xs[k]) {
        out := out + [xs[k]];
      }
    }
    assert xs[..|xs|] == xs;
  }

  /** `kept if kept else xs` for `kept = [x for x in xs if p(x)]`: filter, falling back to everything. */
  function FilterOr<T>(xs: seq<T>, p: T -> bool): seq<T>
  {
    var kept := Filter(xs, p);
    if kept != [] then kept else xs
  }

  /**
   * The fallback filter keeps a non-empty list non-empty and only keeps elements of it; when some
   * element passes it keeps exactly those that pass, otherwise everything.
   */
  lemma {:induction false} FilterOrSpec<T>(xs: seq<T>, p: T -> bool)
    ensures xs != [] ==> FilterOr(xs, p) != []
    ensures forall v :: v in FilterOr(xs, p) ==> v in xs
    ensures (exists v :: v in xs && p(v)) ==> forall v :: v in FilterOr(xs, p) <==> v in xs && p(v)
    ensures (forall v :: v in xs ==> !p(v)) ==> FilterOr(xs, p) == xs
  {
    var kept := Filter(xs, p);
    forall v
      ensures v in kept <==> v in xs && p(v)
    {
      FilterMember(xs, p, v);
    }
    if kept != [] {
      assert kept[0] in kept;
    }
    forall v | v in FilterOr(xs, p)
      ensures v in xs
    {
      FilterMember(xs, p, v);
    }
  }

  // ---------------------------------------------------------------- distinct elements

  predicate Distinct<T(==)>(xs: seq<T>)
  {
    forall a, b :: 0 <= a < b < |xs| ==> xs[a] != xs[b]
  }

  lemma {:induction false} DistinctConcat<T>(xs: seq<T>, ys: seq<T>)
    requires Distinct(xs) && Distinct(ys)
    requires forall v :: v in xs ==> v !in ys
    ensures Distinct(xs + ys)
  {
    forall a, b | 0 <= a < b < |xs + ys|
      ensures (xs + ys)[a] != (xs + ys)[b]
    {
      if a < |xs| && b >= |xs| {
        assert (xs + ys)[a] in xs && (xs + ys)[b] == ys[b - |xs|];
      }
    }
  }

  /** A list with one element appended is without repetition iff the list is and lacks that element. */
  lemma {:induction false} DistinctSnoc<T>(xs: seq<T>, x: T)
    ensures Distinct(xs + [x]) <==> Distinct(xs) && x !in xs
  {
    var ys := xs + [x];
    if Distinct(ys) {
      forall a, b | 0 <= a < b < |xs|
        ensures xs[a] != xs[b]
      {
        assert ys[a] == xs[a] && ys[b] == xs[b];
      }
      forall a | 0 <= a < |xs|
        ensures xs[a] != x
      {
        assert ys[a] == xs[a] && ys[|xs|] == x;
      }
    } else if Distinct(xs) && x !in xs {
      DistinctConcat(xs, [x]);
    }
  }

  /** Keeping some of the elements of a list without repetition gives a list without repetition. */
  lemma {:induction false} FilterDistinct<T>(xs: seq<T>, p: T -> bool)
    requires Distinct(xs)
    ensures Distinct(Filter(xs, p))
  {
    if xs != [] {
      var init, last := xs[..|xs| - 1], xs[|xs| - 1];
      FilterDistinct(init, p);
      FilterMember(init, p, last);
      assert last !in init by {
        assert forall a :: 0 <= a < |init| ==> init[a] == xs[a];
      }
      if p(last) {
        DistinctConcat(Filter(init, p), [last]);
      }
    }
  }

  /** A list has no repeated element iff its multiset counts every element at most once. */
  lemma {:induction false} DistinctMultiset<T>(xs: seq<T>)
    ensures Distinct(xs) <==> forall v :: multiset(xs)[v] <= 1
  {
    if xs != [] {
      var init, last := xs[..|xs| - 1], xs[|xs| - 1];
      assert xs == init + [last];
      DistinctMultiset(init);
      if Distinct(xs) {
        assert Distinct(init);
        forall a | 0 <= a < |init|
          ensures init[a] != last
        {
          assert xs[a] == init[a];
        }
        assert last !in init;
      } else {
        var a, b :| 0 <= a < b < |xs| && xs[a] == xs[b];
        if b < |xs| - 1 {
          assert init[a] == init[b];
          assert !Distinct(init);
          var v :| multiset(init)[v] > 1;
          assert multiset(xs)[v] == multiset(init)[v] + multiset([last])[v];
        } else {
          assert init[a] == last;
          assert multiset(init)[last] >= 1;
          assert multiset(xs)[last] >= 2;
        }
      }
    }
  }

  /** Reordering keeps a list free of repetitions. */
  lemma {:induction false} DistinctPermutation<T>(xs: seq<T>, ys: seq<T>)
    requires multiset(xs) == multiset(ys)
    requires Distinct(xs)
    ensures Distinct(ys)
  {
    DistinctMultiset(xs);
    DistinctMultiset(ys);
  }

  lemma {:induction false} DistinctPrefix<T>(xs: seq<T>, n: nat)
    requires Distinct(xs) && n <= |xs|
    ensures Distinct(xs[..n])
  {
  }

  // ---------------------------------------------------------------- optional entries

  /** `[x]` when c holds, else nothing: one `if c: out.append(x)`. */
  function When<T>(c: bool, x: T): seq<T>
  {
    if c then [x] else []
  }

  // ---------------------------------------------------------------- joining

  /** `sep.join(parts)`: the parts in order with `sep` between neighbours. */
  function Join<T>(parts: seq<seq<T>>, sep: seq<T>): seq<T>
  {
    if parts == [] then []
    else if |parts| == 1 then parts[0]
    else Join(parts[..|parts| - 1], sep) + sep + parts[|parts| - 1]
  }

  /** A join begins with the first part. */
  lemma {:induction false} JoinStarts<T>(parts: seq<seq<T>>, sep: seq<T>)
    requires parts != []
    ensures |parts[0]| <= |Join(parts, sep)| && Join(parts, sep)[..|parts[0]|] == parts[0]
  {
    if |parts| > 1 {
      var init := parts[..|parts| - 1];
      JoinStarts(init, sep);
      assert init[0] == parts[0];
      var j := Join(init, sep);
      assert (j + sep + parts[|parts| - 1])[..|parts[0]|] == j[..|parts[0]|];
    }
  }

  /** A join ends with the last part. */
  lemma {:induction false} JoinFinishes<T>(parts: seq<seq<T>>, sep: seq<T>)
    requires parts != []
    ensures var r, last := Join(parts, sep), parts[|parts| - 1];
      |last| <= |r| && r[|r| - |last|..] == last
  {
    if |parts| > 1 {
      var j, last := Join(parts[..|parts| - 1], sep), parts[|parts| - 1];
      assert (j + sep + last)[|j + sep|..] == last;
    }
  }
}
