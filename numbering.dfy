/**
 * Main-process sequence numbers. Three parts of the engine (the constraint handler, the process
 * classifier and the configuration loader) sort the numbers and demand that they are exactly
 * 1, 2, ..., n; the constraint handler also lists the numbers that occur more than once.
 */
module Numbering {
  import opened Collect
  import opened Sorting

  /** Numbers do not decrease from front to back. */
  predicate Ascending(xs: seq<int>)
  {
    forall i, j :: 0 <= i < j < |xs| ==> xs[i] <= xs[j]
  }

  /** `list(range(1, n + 1))`. */
  function Iota(n: nat): (s: seq<int>)
    ensures |s| == n
    ensures forall k :: 0 <= k < n ==> s[k] == k + 1
  {
    seq(n, k => k + 1)
  }

  lemma {:induction false} IotaDistinct(n: nat)
    ensures Distinct(Iota(n))
  {
  }

  /** The key under which the descending sort puts numbers in ascending order. */
  function Negated(v: int): real
  {
    -(v as real)
  }

  /** `sorted(ns)` on integers (Python's ascending sort). */
  function SortedAsc(ns: seq<int>): (s: seq<int>)
    ensures |s| == |ns|
  {
    SortDesc(ns, Negated)
  }

  /** Sorting gives an ascending reordering of the numbers. */
  lemma {:induction false} SortedAscSpec(ns: seq<int>)
    ensures Ascending(SortedAsc(ns))
    ensures multiset(SortedAsc(ns)) == multiset(ns)
  {
    SortDescSorted(ns, Negated);
    var s := SortedAsc(ns);
    forall i, j | 0 <= i < j < |s|
      ensures s[i] <= s[j]
    {
      assert Negated(s[i]) >= Negated(s[j]);
    }
  }

  /** The smallest element of an ascending list comes first. */
  lemma {:induction false} AscendingHead(xs: seq<int>, v: int)
    requires Ascending(xs) && v in multiset(xs)
    ensures xs[0] <= v
  {
    var k :| 0 <= k < |xs| && xs[k] == v;
  }

  /** Two ascending lists holding the same numbers equally often are the same list. */
  lemma {:induction false} AscendingUnique(xs: seq<int>, ys: seq<int>)
    requires Ascending(xs) && Ascending(ys)
    requires multiset(xs) == multiset(ys)
    ensures xs == ys
    decreases |xs|
  {
    assert |xs| == |multiset(xs)| == |multiset(ys)| == |ys|;
    if xs != [] {
      assert xs[0] in multiset(ys) && ys[0] in multiset(xs);
      AscendingHead(ys, xs[0]);
      AscendingHead(xs, ys[0]);
      assert xs[0] == ys[0];
      assert xs == [xs[0]] + xs[1..] && ys == [ys[0]] + ys[1..];
      assert multiset(xs) == multiset{xs[0]} + multiset(xs[1..]);
      assert multiset(ys) == multiset{xs[0]} + multiset(ys[1..]);
      assert multiset(xs[1..]) == multiset(xs) - multiset{xs[0]} == multiset(ys) - multiset{xs[0]} == multiset(ys[1..]);
      AscendingUnique(xs[1..], ys[1..]);
    }
  }

  /**
   * The rule "the numbers are exactly 1..n": sorting gives `1, ..., n` iff every one of 1..n
   * occurs exactly once and nothing else occurs.
   */
  lemma {:induction false} OneToN(ns: seq<int>)
    ensures SortedAsc(ns) == Iota(|ns|) <==> multiset(ns) == multiset(Iota(|ns|))
  {
    SortedAscSpec(ns);
    if multiset(ns) == multiset(Iota(|ns|)) {
      AscendingUnique(SortedAsc(ns), Iota(|ns|));
    }
  }

  /** Numbers that are exactly 1..n hold no repetition. */
  lemma {:induction false} OneToNDistinct(ns: seq<int>)
    requires SortedAsc(ns) == Iota(|ns|)
    ensures Distinct(ns)
  {
    OneToN(ns);
    IotaDistinct(|ns|);
    DistinctPermutation(Iota(|ns|), ns);
  }

  // ---------------------------------------------------------------- numbering of records

  /** `[f(x) for x in xs]`. */
  function Numbers<T>(xs: seq<T>, f: T -> int): (ns: seq<int>)
    ensures |ns| == |xs|
    ensures forall k :: 0 <= k < |xs| ==> ns[k] == f(xs[k])
  {
    seq(|xs|, k requires 0 <= k < |xs| => f(xs[k]))
  }

  /** The key `lambda x: f(x)` of an ascending sort, as a key of the descending one. */
  function ByNumber<T>(f: T -> int): T -> real
  {
    (x: T) => Negated(f(x))
  }

  /** Inserting a record by its number and reading the numbers is inserting its number. */
  lemma {:induction false} NumbersInsert<T>(ys: seq<T>, x: T, f: T -> int)
    ensures Numbers(InsertDesc(ys, x, ByNumber(f)), f) == InsertDesc(Numbers(ys, f), f(x), Negated)
  {
    var ns := Numbers(ys, f);
    if ys == [] {
      assert Numbers([x], f) == [f(x)];
    } else if ByNumber(f)(ys[0]) < ByNumber(f)(x) {
      assert Numbers([x] + ys, f) == [f(x)] + ns;
    } else {
      NumbersInsert(ys[1..], x, f);
      assert ns[1..] == Numbers(ys[1..], f);
      var rest := InsertDesc(ys[1..], x, ByNumber(f));
      assert Numbers([ys[0]] + rest, f) == [f(ys[0])] + Numbers(rest, f);
    }
  }

  /**
   * Sorting records by their number and then reading the numbers gives the numbers sorted:
   * `[f(x) for x in sorted(xs, key=f)] == sorted([f(x) for x in xs])`.
   */
  lemma {:induction false} NumbersOfSorted<T>(xs: seq<T>, f: T -> int)
    ensures Numbers(SortDesc(xs, ByNumber(f)), f) == SortedAsc(Numbers(xs, f))
  {
    if xs != [] {
      var init, last := xs[..|xs| - 1], xs[|xs| - 1];
      NumbersOfSorted(init, f);
      NumbersInsert(SortDesc(init, ByNumber(f)), last, f);
      var ns := Numbers(xs, f);
      assert ns[..|ns| - 1] == Numbers(init, f);
    }
  }

  // ---------------------------------------------------------------- repeated numbers

  /** The distinct elements in order of first appearance: the key order of a dict filled from xs. */
  function FirstSeen(xs: seq<int>): seq<int>
  {
    if xs == [] then []
    else
      var init, last := xs[..|xs| - 1], xs[|xs| - 1];
      if last in init then FirstSeen(init) else FirstSeen(init) + [last]
  }

  lemma {:induction false} FirstSeenSpec(xs: seq<int>)
    ensures forall v :: v in FirstSeen(xs) <==> v in xs
    ensures Distinct(FirstSeen(xs))
  {
    if xs != [] {
      var init, last := xs[..|xs| - 1], xs[|xs| - 1];
      FirstSeenSpec(init);
      assert xs == init + [last];
      if last !in init {
        DistinctConcat(FirstSeen(init), [last]);
      }
    }
  }

  /** The numbers occurring more than once in xs. */
  function RepeatsIn(xs: seq<int>): int -> bool
  {
    (v: int) => multiset(xs)[v] > 1
  }

  /** `[v for v, c in counts.items() if c > 1]` for the counts of xs. */
  function Repeated(xs: seq<int>): seq<int>
  {
    Filter(FirstSeen(xs), RepeatsIn(xs))
  }

  /** The repeated numbers are listed once each, and a list has none iff it holds no repetition. */
  lemma {:induction false} RepeatedSpec(xs: seq<int>)
    ensures forall v :: v in Repeated(xs) <==> multiset(xs)[v] > 1
    ensures Distinct(Repeated(xs))
    ensures Repeated(xs) == [] <==> Distinct(xs)
  {
    FirstSeenSpec(xs);
    FilterDistinct(FirstSeen(xs), RepeatsIn(xs));
    forall v
      ensures v in Repeated(xs) <==> multiset(xs)[v] > 1
    {
      FilterMember(FirstSeen(xs), RepeatsIn(xs), v);
    }
    DistinctMultiset(xs);
    if Repeated(xs) != [] {
      assert Repeated(xs)[0] in Repeated(xs);
    }
  }

  /**
   * The counting loops of the sequence check: a dict of counts filled in list order, then the
   * numbers whose count exceeds 1, in the dict's order.
   */
  method RepeatedNumbers(xs: seq<int>) returns (dups: seq<int>)
    ensures dups == Repeated(xs)
  {
    var counts, order := CountNumbers(xs);
    FirstSeenSpec(xs);
    dups := KeepRepeated(xs, counts, order);
  }

  /** The first loop: each number's count, and the numbers in the order the dict receives them. */
  method CountNumbers(xs: seq<int>) returns (counts: map<int, nat>, order: seq<int>)
    ensures order == FirstSeen(xs)
    ensures forall v :: v in counts <==> v in xs
    ensures forall v :: v in counts ==> counts[v] == multiset(xs)[v]
  {
    counts, order := map[], [];
    for k := 0 to |xs|
      invariant order == FirstSeen(xs[..k])
      invariant forall v :: v in counts <==> v in xs[..k]
      invariant forall v :: v in counts ==> counts[v] == multiset(xs[..k])[v]
    {
      assert xs[..k + 1] == xs[..k] + [xs[k]];
      var v := xs[k];
      var c := if v in counts then counts[v] else 0;
      if v !in counts {
        order := order + [v];
      }
      counts := counts[v := c + 1];
    }
    assert xs[..|xs|] == xs;
  }

  /** The second loop: the numbers of `order` whose count exceeds 1. */
  method KeepRepeated(xs: seq<int>, counts: map<int, nat>, order: seq<int>) returns (dups: seq<int>)
    requires forall v :: v in order ==> v in counts && counts[v] == multiset(xs)[v]
    ensures dups == Filter(order, RepeatsIn(xs))
  {
    dups := [];
    for k := 0 to |order|
      invariant dups == Filter(order[..k], RepeatsIn(xs))
    {
      assert order[..k + 1][..k] == order[..k] && order[..k + 1][k] == order[k];
      assert order[k] in order;
      assert RepeatsIn(xs)(order[k]) == (counts[order[k]] > 1);
      if counts[order[k]] > 1 {
        dups := dups + [order[k]];
      }
    }
    assert order[..|order|] == order;
  }
}
