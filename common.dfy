/** Building blocks shared by every screen: an option type, sums, the
    array `filter` of JavaScript, the string tests `startsWith`, `slice(0, 7)`
    and `includes`, case folding, and the "show the first n unless expanded"
    truncation used by two lists. */
module Common {

  datatype Option<T> = None | Some(value: T)

  // ---------------------------------------------------------------------
  // Sums (Array.prototype.reduce with `+` and a zero seed, a left fold)
  // ---------------------------------------------------------------------

  function Sum(s: seq<real>): real
  {
    if s == [] then 0.0 else Sum(s[..|s| - 1]) + s[|s| - 1]
  }

  lemma {:induction false} SumConcat(a: seq<real>, b: seq<real>)
    ensures Sum(a + b) == Sum(a) + Sum(b)
  {
    if b == [] {
      assert a + b == a;
    } else {
      assert (a + b)[..|a + b| - 1] == a + b[..|b| - 1];
      SumConcat(a, b[..|b| - 1]);
    }
  }

  /** `num / den > bound` for a non-negative bound, with JavaScript
      division: a positive numerator over a zero denominator is +Infinity,
      a zero one gives NaN, and no comparison with NaN holds. */
  predicate RatioAbove(num: real, den: real, bound: real)
  {
    if den == 0.0 then num > 0.0 else num / den > bound
  }

  lemma ProductPositive(a: real, b: real)
    requires a >= 0.0 && b > 0.0
    ensures a * b >= 0.0 && (a > 0.0 ==> a * b > 0.0)
  {
  }

  /** Over a positive denominator the ratio test needs no division. */
  lemma RatioAboveIff(num: real, den: real, bound: real)
    requires den > 0.0
    ensures RatioAbove(num, den, bound) <==> num > bound * den
  {
    var q := num / den;
    assert q * den == num;
    assert (q - bound) * den == num - bound * den;
    if q > bound {
      ProductPositive(q - bound, den);
    } else {
      ProductPositive(bound - q, den);
      assert (q - bound) * den == -((bound - q) * den);
    }
  }

  /** A prefix one element longer is the prefix with that element added. */
  lemma PrefixSnoc<T>(s: seq<T>, i: nat)
    requires i < |s|
    ensures s[..i + 1] == s[..i] + [s[i]]
  {
  }

  // ---------------------------------------------------------------------
  // Order-preserving selection (Array.prototype.filter)
  // ---------------------------------------------------------------------

  /** `r` can be obtained from `s` by deleting elements. */
  predicate Subsequence<T(==)>(r: seq<T>, s: seq<T>)
  {
    if r == [] then true
    else if s == [] then false
    else if r[0] == s[0] then Subsequence(r[1..], s[1..])
    else Subsequence(r, s[1..])
  }

  lemma {:induction false} SubsequenceRefl<T>(s: seq<T>)
    ensures Subsequence(s, s)
  {
    if s != [] { SubsequenceRefl(s[1..]); }
  }

  /** `filter`: the elements of `s` satisfying `p`, in their order. The
      lemmas below state what it keeps. */
  function Filter<T(==)>(s: seq<T>, p: T -> bool): (r: seq<T>)
    ensures |r| <= |s|
  {
    if s == [] then []
    else
      var rest := Filter(s[1..], p);
      if p(s[0]) then [s[0]] + rest else rest
  }

  /** The selection keeps the order of `s`. */
  lemma {:induction false} FilterSubsequence<T>(s: seq<T>, p: T -> bool)
    ensures Subsequence(Filter(s, p), s)
  {
    if s != [] {
      FilterSubsequence(s[1..], p);
      if !p(s[0]) {
        SubsequenceWiden(Filter(s, p), s);
      }
    }
  }

  /** Dropping the head of the smaller list keeps it a subsequence. */
  lemma {:induction false} SubsequenceDrop<T>(r: seq<T>, s: seq<T>)
    requires r != [] && Subsequence(r, s)
    ensures Subsequence(r[1..], s)
    decreases |r| + |s|
  {
    if r[0] != s[0] {
      SubsequenceDrop(r, s[1..]);
      SubsequenceWiden(r[1..], s);
    } else {
      SubsequenceWiden(r[1..], s);
    }
  }

  /** A subsequence of the tail is a subsequence of the whole list. */
  lemma {:induction false} SubsequenceWiden<T>(r: seq<T>, s: seq<T>)
    requires s != [] && Subsequence(r, s[1..])
    ensures Subsequence(r, s)
    decreases |r| + |s|
  {
    if r != [] && r[0] == s[0] {
      SubsequenceDrop(r, s[1..]);
    }
  }

  /** Every element satisfying `p` keeps its multiplicity; every other
      element is dropped. */
  lemma {:induction false} FilterCounts<T>(s: seq<T>, p: T -> bool)
    ensures forall x :: multiset(Filter(s, p))[x] == if p(x) then multiset(s)[x] else 0
  {
    if s != [] {
      FilterCounts(s[1..], p);
      assert s == [s[0]] + s[1..];
    }
  }

  /** The selected elements are elements of `s` satisfying `p`. */
  lemma FilterElements<T>(s: seq<T>, p: T -> bool)
    ensures forall x :: x in Filter(s, p) ==> x in s && p(x)
  {
    FilterCounts(s, p);
    forall x | x in Filter(s, p)
      ensures x in s && p(x)
    {
      assert multiset(Filter(s, p))[x] > 0;
    }
  }

  /** When every element satisfies `p`, nothing is dropped. */
  lemma {:induction false} FilterKeepsAll<T>(s: seq<T>, p: T -> bool)
    requires forall x :: x in s ==> p(x)
    ensures Filter(s, p) == s
  {
    if s != [] {
      FilterKeepsAll(s[1..], p);
      assert s == [s[0]] + s[1..];
    }
  }

  /** The properties of a filter that its callers state. */
  lemma FilterFacts<T>(s: seq<T>, p: T -> bool)
    ensures Subsequence(Filter(s, p), s)
    ensures forall x :: x in Filter(s, p) ==> x in s && p(x)
    ensures forall x :: x in s ==> multiset(Filter(s, p))[x] == if p(x) then multiset(s)[x] else 0
  {
    FilterSubsequence(s, p);
    FilterElements(s, p);
    FilterCounts(s, p);
  }

  lemma FilterIdempotent<T>(s: seq<T>, p: T -> bool)
    ensures Filter(Filter(s, p), p) == Filter(s, p)
  {
    FilterElements(s, p);
    FilterKeepsAll(Filter(s, p), p);
  }

  /** Two predicates that agree on the elements select the same ones. */
  lemma {:induction false} FilterExtensional<T>(s: seq<T>, p: T -> bool, q: T -> bool)
    requires forall x :: x in s ==> p(x) == q(x)
    ensures Filter(s, p) == Filter(s, q)
  {
    if s != [] {
      FilterExtensional(s[1..], p, q);
    }
  }

  /** A filter keeps exactly the elements satisfying its predicate: an
      element is selected iff it occurs in `s` and satisfies `p`. */
  lemma FilterMembership<T>(s: seq<T>, p: T -> bool, x: T)
    ensures x in Filter(s, p) <==> x in s && p(x)
  {
    FilterCounts(s, p);
    assert x in s <==> multiset(s)[x] > 0;
    assert x in Filter(s, p) <==> multiset(Filter(s, p))[x] > 0;
  }

  /** Filtering a list with one more element at the end. */
  lemma {:induction false} FilterSnoc<T>(s: seq<T>, x: T, p: T -> bool)
    ensures Filter(s + [x], p) == Filter(s, p) + (if p(x) then [x] else [])
  {
    var tail := if p(x) then [x] else [];
    if s == [] {
      assert [x][1..] == [];
      assert Filter([x], p) == tail + Filter([], p);
    } else {
      var h := if p(s[0]) then [s[0]] else [];
      assert (s + [x])[0] == s[0];
      assert (s + [x])[1..] == s[1..] + [x];
      calc {
        Filter(s + [x], p);
        h + Filter(s[1..] + [x], p);
        { FilterSnoc(s[1..], x, p); }
        h + (Filter(s[1..], p) + tail);
        (h + Filter(s[1..], p)) + tail;
        Filter(s, p) + tail;
      }
    }
  }

  /** The elements of `s` without repetitions, each at its first occurrence
      (`Array.from(new Set(s))`, and the key order of an object filled
      from `s`). */
  function Distinct<T(==)>(s: seq<T>): (r: seq<T>)
    ensures forall x :: x in r ==> x in s
    ensures forall x :: x in s ==> x in r
    ensures forall i, j :: 0 <= i < j < |r| ==> r[i] != r[j]
    ensures |r| <= |s|
  {
    if s == [] then []
    else
      var d := Distinct(s[..|s| - 1]);
      if s[|s| - 1] in d then d else d + [s[|s| - 1]]
  }

  /** `Distinct` keeps the first occurrences in order, so it is a
      subsequence of its input, and it changes nothing on a list without
      repetitions. */
  lemma {:induction false} DistinctOfDistinct<T>(s: seq<T>)
    requires forall i, j :: 0 <= i < j < |s| ==> s[i] != s[j]
    ensures Distinct(s) == s
  {
    if s != [] {
      var t := s[..|s| - 1];
      DistinctOfDistinct(t);
      assert s[|s| - 1] !in t;
      assert t + [s[|s| - 1]] == s;
    }
  }

  /** The order of `Distinct(s)` is the order of first occurrence: before
      any occurrence of a later element, an earlier element has already
      occurred. */
  lemma {:induction false} DistinctFirstOccurrence<T>(s: seq<T>)
    ensures forall i, j, k :: 0 <= i < j < |Distinct(s)| && 0 <= k < |s| && s[k] == Distinct(s)[j] ==>
      Distinct(s)[i] in s[..k]
  {
    if s != [] {
      var n := |s| - 1;
      var t := s[..n];
      var d := Distinct(s);
      DistinctFirstOccurrence(t);
      assert t + [s[n]] == s;
      DistinctSnoc(t, s[n]);
      forall i, j, k | 0 <= i < j < |d| && 0 <= k < |s| && s[k] == d[j]
        ensures d[i] in s[..k]
      {
        assert d[i] in Distinct(t);
        if k < n {
          assert t[k] == s[k] && t[..k] == s[..k];
        } else {
          assert s[..k] == t;
        }
      }
    }
  }

  lemma {:induction false} DistinctSnoc<T>(s: seq<T>, x: T)
    ensures Distinct(s + [x]) == if x in s then Distinct(s) else Distinct(s) + [x]
  {
    assert (s + [x])[..|s + [x]| - 1] == s;
  }

  // ---------------------------------------------------------------------
  // Strings
  // ---------------------------------------------------------------------

  /** String.prototype.startsWith */
  predicate StartsWith(s: string, prefix: string)
  {
    |prefix| <= |s| && s[..|prefix|] == prefix
  }

  /** String.prototype.slice(0, n): the first n characters, or the whole
      string when it is shorter. */
  function SliceTo(s: string, n: nat): (r: string)
    ensures |r| == if |s| < n then |s| else n
    ensures StartsWith(s, r)
  {
    if |s| < n then s else s[..n]
  }

  /** For a key of length n, `startsWith(key)` and `slice(0, n) == key` are
      the same test. */
  lemma {:induction false} StartsWithIffSlice(s: string, key: string)
    ensures StartsWith(s, key) <==> SliceTo(s, |key|) == key
  {
    if |s| < |key| {
      assert |SliceTo(s, |key|)| != |key|;
    }
  }

  /** String.prototype.includes, by the procedure "try every starting
      position". */
  predicate Contains(s: string, sub: string)
  {
    StartsWith(s, sub) || (|s| > 0 && Contains(s[1..], sub))
  }

  /** `sub` occurs in `s` at position `i`. */
  predicate OccursAt(s: string, sub: string, i: int)
  {
    0 <= i <= |s| - |sub| && s[i..i + |sub|] == sub
  }

  /** `sub` occurs at some position of `s`. */
  ghost predicate OccursSomewhere(s: string, sub: string)
  {
    exists i :: OccursAt(s, sub, i)
  }

  /** `Contains` holds iff `sub` occurs at some position of `s`. */
  lemma {:induction false} ContainsIffOccurs(s: string, sub: string)
    ensures Contains(s, sub) <==> OccursSomewhere(s, sub)
  {
    if StartsWith(s, sub) {
      assert OccursAt(s, sub, 0);
    } else if |s| == 0 {
      assert forall i :: !OccursAt(s, sub, i);
    } else {
      ContainsIffOccurs(s[1..], sub);
      OccursInTail(s, sub);
    }
  }

  /** Away from position 0, an occurrence in `s` is one in its tail. */
  lemma OccursInTail(s: string, sub: string)
    requires |s| > 0 && !StartsWith(s, sub)
    ensures OccursSomewhere(s, sub) <==> OccursSomewhere(s[1..], sub)
  {
    if OccursSomewhere(s, sub) {
      var i :| OccursAt(s, sub, i);
      assert i != 0;
      assert s[1..][i - 1..i - 1 + |sub|] == s[i..i + |sub|];
      assert OccursAt(s[1..], sub, i - 1);
    }
    if OccursSomewhere(s[1..], sub) {
      var j :| OccursAt(s[1..], sub, j);
      assert s[j + 1..j + 1 + |sub|] == s[1..][j..j + |sub|];
      assert OccursAt(s, sub, j + 1);
    }
  }

  /** Every string contains the empty string. */
  lemma ContainsEmpty(s: string)
    ensures Contains(s, "")
  {
  }

  // Case folding on the Basic Latin and Latin-1 letters: 'A'..'Z' and
  // U+00C0..U+00DE except U+00D7 have their lower-case letter 0x20 above.

  predicate IsUpperLetter(c: char)
  {
    ('A' <= c <= 'Z') || ('À' <= c <= 'Þ' && c != '×')
  }

  predicate IsLowerLetter(c: char)
  {
    ('a' <= c <= 'z') || ('à' <= c <= 'þ' && c != '÷')
  }

  function LowerChar(c: char): (r: char)
    ensures !IsUpperLetter(r)
    ensures IsUpperLetter(c) ==> IsLowerLetter(r)
    ensures !IsUpperLetter(c) ==> r == c
  {
    if IsUpperLetter(c) then (c as int + 32) as char else c
  }

  function UpperChar(c: char): (r: char)
    ensures !IsLowerLetter(r)
    ensures IsLowerLetter(c) ==> IsUpperLetter(r)
    ensures !IsLowerLetter(c) ==> r == c
  {
    if IsLowerLetter(c) then (c as int - 32) as char else c
  }

  /** String.prototype.toLowerCase on the letters above. */
  function Lower(s: string): (r: string)
    ensures |r| == |s|
    ensures forall i :: 0 <= i < |s| ==> r[i] == LowerChar(s[i])
  {
    if s == [] then [] else [LowerChar(s[0])] + Lower(s[1..])
  }

  /** String.prototype.toUpperCase on the letters above. */
  function Upper(s: string): (r: string)
    ensures |r| == |s|
    ensures forall i :: 0 <= i < |s| ==> r[i] == UpperChar(s[i])
  {
    if s == [] then [] else [UpperChar(s[0])] + Upper(s[1..])
  }

  /** Lower-casing first does not change the upper-cased form: a test on
      `Upper(s)` ignores the case of `s`. */
  lemma UpperOfLower(s: string)
    ensures Upper(Lower(s)) == Upper(s)
  {
    assert forall i :: 0 <= i < |s| ==> UpperChar(LowerChar(s[i])) == UpperChar(s[i]);
  }

  lemma UpperIdempotent(s: string)
    ensures Upper(Upper(s)) == Upper(s)
  {
    assert forall i :: 0 <= i < |s| ==> UpperChar(UpperChar(s[i])) == UpperChar(s[i]);
  }

  lemma LowerIdempotent(s: string)
    ensures Lower(Lower(s)) == Lower(s)
  {
    assert forall i :: 0 <= i < |s| ==> LowerChar(LowerChar(s[i])) == LowerChar(s[i]);
  }

  // ---------------------------------------------------------------------
  // "Voir plus / Voir moins": a list shown in full or cut after `limit`
  // ---------------------------------------------------------------------

  /** `showAll ? xs : xs.slice(0, limit)` */
  function Displayed<T>(xs: seq<T>, showAll: bool, limit: nat): (r: seq<T>)
    ensures showAll ==> r == xs
    ensures !showAll ==> |r| == (if |xs| < limit then |xs| else limit) && r == xs[..|r|]
  {
    if showAll || |xs| <= limit then xs else xs[..limit]
  }

  /** The toggle is rendered only when the list is longer than the limit. */
  predicate ShowToggle(n: nat, limit: nat)
  {
    n > limit
  }

  /** Without a toggle there is nothing hidden: the list is shown whole
      whatever the toggle state. */
  lemma NoToggleShowsAll<T>(xs: seq<T>, showAll: bool, limit: nat)
    ensures !ShowToggle(|xs|, limit) ==> Displayed(xs, showAll, limit) == xs
    ensures ShowToggle(|xs|, limit) && !showAll ==> |Displayed(xs, showAll, limit)| == limit < |xs|
  {
  }
}
