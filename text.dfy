/**
 * The string tests the engine applies to zone names and ids: Python's `s.lower()` and the
 * substring test `t in s`.
 */
module Text {
  import opened Collect

  /** `c.lower()` for ASCII letters; every other character is left as it is. */
  function LowerChar(c: char): (l: char)
    ensures 'A' <= c <= 'Z' ==> 'a' <= l <= 'z' && l as int - c as int == 32
    ensures !('A' <= c <= 'Z') ==> l == c
  {
    if 'A' <= c <= 'Z' then (c as int + 32) as char else c
  }

  /** `s.lower()`, character by character. */
  function Lower(s: string): (l: string)
    ensures |l| == |s|
    ensures forall i :: 0 <= i < |s| ==> l[i] == LowerChar(s[i])
  {
    if s == [] then [] else [LowerChar(s[0])] + Lower(s[1..])
  }

  /** Lowering twice is lowering once. */
  lemma {:induction false} LowerIdempotent(s: string)
    ensures Lower(Lower(s)) == Lower(s)
  {
    var l := Lower(s);
    assert forall i :: 0 <= i < |l| ==> LowerChar(l[i]) == l[i];
  }

  /** `t in s`: t occurs in s as a contiguous run; the empty string occurs in every string. */
  function Contains(s: string, t: string): bool
  {
    |t| <= |s| && (s[..|t|] == t || Contains(s[1..], t))
  }

  /** t occurs in s starting at position i. */
  predicate OccursAt(s: string, t: string, i: int)
  {
    0 <= i && i + |t| <= |s| && s[i..i + |t|] == t
  }

  /** The substring test finds t exactly when some window of s spells it. */
  lemma {:induction false} ContainsAt(s: string, t: string)
    ensures Contains(s, t) <==> exists i :: OccursAt(s, t, i)
  {
    if |t| <= |s| && s[..|t|] != t {
      ContainsAt(s[1..], t);
      if Contains(s[1..], t) {
        var i :| OccursAt(s[1..], t, i);
        assert s[i + 1..i + 1 + |t|] == s[1..][i..i + |t|];
        assert OccursAt(s, t, i + 1);
      } else if exists i :: OccursAt(s, t, i) {
        var i :| OccursAt(s, t, i);
        assert i != 0;
        assert s[1..][i - 1..i - 1 + |t|] == s[i..i + |t|];
        assert OccursAt(s[1..], t, i - 1);
        assert false;
      }
    } else if |t| <= |s| {
      assert OccursAt(s, t, 0);
    }
  }

  /** Any of several keywords occurs in s. */
  function ContainsAny(s: string, keywords: seq<string>): (b: bool)
    ensures b <==> exists k :: 0 <= k < |keywords| && Contains(s, keywords[k])
  {
    if keywords == [] then false
    else Contains(s, keywords[0]) || ContainsAny(s, keywords[1..])
  }

  /** `s.split(c)` for a one-character separator: the runs between occurrences of c. */
  function SplitOn(s: string, c: char): (parts: seq<string>)
    ensures |parts| >= 1
  {
    if s == [] then [""]
    else
      var rest := SplitOn(s[1..], c);
      if s[0] == c then [""] + rest else [[s[0]] + rest[0]] + rest[1..]
  }

  /** Splitting gives one part more than there are separators. */
  lemma {:induction false} SplitOnCount(s: string, c: char)
    ensures |SplitOn(s, c)| == multiset(s)[c] + 1
  {
    if s != [] {
      SplitOnCount(s[1..], c);
      assert s == [s[0]] + s[1..];
      assert multiset(s) == multiset{s[0]} + multiset(s[1..]);
    }
  }

  /** No part holds the separator. */
  lemma {:induction false} SplitOnParts(s: string, c: char)
    ensures forall k :: 0 <= k < |SplitOn(s, c)| ==> c !in SplitOn(s, c)[k]
  {
    if s != [] {
      var rest := SplitOn(s[1..], c);
      SplitOnParts(s[1..], c);
      if s[0] != c {
        var parts := SplitOn(s, c);
        forall k | 0 <= k < |parts|
          ensures c !in parts[k]
        {
          if k == 0 {
            assert c !in rest[0];
          } else {
            assert parts[k] == rest[k];
          }
        }
      }
    }
  }

  /** The parts, glued back with the separator, give the string. */
  lemma {:induction false} SplitOnJoins(s: string, c: char)
    ensures Join(SplitOn(s, c), [c]) == s
  {
    if s != [] {
      var rest := SplitOn(s[1..], c);
      SplitOnJoins(s[1..], c);
      if s[0] == c {
        JoinCons("", rest, [c]);
      } else {
        JoinHead(s[0], rest, [c]);
      }
      assert s == [s[0]] + s[1..];
    }
  }

  /** A part put in front of a non-empty list of parts goes in front of their join, before a separator. */
  lemma {:induction false} JoinCons(p: string, parts: seq<string>, sep: string)
    requires parts != []
    ensures Join([p] + parts, sep) == p + sep + Join(parts, sep)
    decreases |parts|
  {
    if |parts| == 1 {
      assert ([p] + parts)[..1] == [p];
    } else {
      var init := parts[..|parts| - 1];
      JoinCons(p, init, sep);
      assert ([p] + parts)[..|parts|] == [p] + init;
    }
  }

  /** A character put in front of the first part goes in front of the join. */
  lemma {:induction false} JoinHead(x: char, parts: seq<string>, sep: string)
    requires parts != []
    ensures Join([[x] + parts[0]] + parts[1..], sep) == [x] + Join(parts, sep)
    decreases |parts|
  {
    if |parts| > 1 {
      var init := parts[..|parts| - 1];
      JoinHead(x, init, sep);
      var q := [[x] + parts[0]] + parts[1..];
      assert q[..|q| - 1] == [[x] + init[0]] + init[1..];
    }
  }

  /**
   * `key.split('-')` has exactly two parts iff the key holds exactly one '-', and the parts are
   * what lies before and after it.
   */
  lemma {:induction false} SplitOnTwo(s: string, c: char)
    ensures |SplitOn(s, c)| == 2 <==> multiset(s)[c] == 1
    ensures |SplitOn(s, c)| == 2 ==>
      s == SplitOn(s, c)[0] + [c] + SplitOn(s, c)[1] && c !in SplitOn(s, c)[0] && c !in SplitOn(s, c)[1]
  {
    SplitOnCount(s, c);
    SplitOnParts(s, c);
    SplitOnJoins(s, c);
    var parts := SplitOn(s, c);
    if |parts| == 2 {
      assert parts[..1] == [parts[0]];
    }
  }

  /** The decimal digit d. */
  function Digit(d: nat): char
    requires d < 10
  {
    "0123456789"[d]
  }

  /** `str(n)` for a natural number: its decimal digits, most significant first, without leading zeros. */
  function NatText(n: nat): (t: string)
    ensures |t| >= 1
    ensures n >= 10 ==> |t| >= 2
  {
    if n < 10 then [Digit(n)] else NatText(n / 10) + [Digit(n % 10)]
  }

  /** Different numbers are written differently. */
  lemma {:induction false} NatTextInjective(a: nat, b: nat)
    requires NatText(a) == NatText(b)
    ensures a == b
  {
    var ds := "0123456789";
    assert forall i, j :: 0 <= i < j < 10 ==> ds[i] != ds[j];
    if a >= 10 && b >= 10 {
      var ta, tb := NatText(a), NatText(b);
      assert ta[|ta| - 1] == Digit(a % 10) && tb[|tb| - 1] == Digit(b % 10);
      assert a % 10 == b % 10;
      assert ta[..|ta| - 1] == NatText(a / 10) && tb[..|tb| - 1] == NatText(b / 10);
      NatTextInjective(a / 10, b / 10);
    }
  }
}
