/** In-place sorting of a list by a string key, as `Array.prototype.sort`
    does with a comparator on dates. The dates are ISO strings ("yyyy-MM-dd"
    or "yyyy-MM"), for which comparing the instants they denote is comparing
    the strings character by character. */
module Sorting {

  /** Strict lexicographic order on strings. */
  predicate LexLess(a: string, b: string)
  {
    if a == [] then b != []
    else if b == [] then false
    else if a[0] < b[0] then true
    else if a[0] == b[0] then LexLess(a[1..], b[1..])
    else false
  }

  lemma {:induction false} LexIrreflexive(a: string)
    ensures !LexLess(a, a)
  {
    if a != [] { LexIrreflexive(a[1..]); }
  }

  lemma {:induction false} LexAsymmetric(a: string, b: string)
    ensures LexLess(a, b) ==> !LexLess(b, a)
  {
    if a != [] && b != [] && a[0] == b[0] { LexAsymmetric(a[1..], b[1..]); }
  }

  lemma {:induction false} LexTransitive(a: string, b: string, c: string)
    ensures LexLess(a, b) && LexLess(b, c) ==> LexLess(a, c)
  {
    if a != [] && b != [] && c != [] && a[0] == b[0] && b[0] == c[0] {
      LexTransitive(a[1..], b[1..], c[1..]);
    }
  }

  lemma {:induction false} LexTotal(a: string, b: string)
    ensures a == b || LexLess(a, b) || LexLess(b, a)
  {
    if a != [] && b != [] && a[0] == b[0] {
      LexTotal(a[1..], b[1..]);
      if a[1..] == b[1..] {
        assert a == [a[0]] + a[1..] && b == [b[0]] + b[1..];
      }
    }
  }

  /** An element with key `x` may stand before one with key `y`: in
      descending order unless `x < y`, in ascending order unless `y < x`. */
  predicate InOrder(x: string, y: string, descending: bool)
  {
    if descending then !LexLess(x, y) else !LexLess(y, x)
  }

  lemma InOrderTransitive(x: string, y: string, z: string, descending: bool)
    requires InOrder(x, y, descending) && InOrder(y, z, descending)
    ensures InOrder(x, z, descending)
  {
    LexTotal(x, y);
    LexTotal(y, z);
    LexTransitive(x, z, y);
    LexTransitive(z, x, y);
    LexTransitive(y, x, z);
    LexTransitive(z, y, x);
    LexTransitive(x, y, z);
    LexTransitive(y, z, x);
    LexIrreflexive(x);
    LexAsymmetric(x, z);
    LexAsymmetric(z, x);
  }

  /** Every pair of elements is in order. */
  predicate SortedBy<T>(s: seq<T>, key: T -> string, descending: bool)
  {
    forall i, j :: 0 <= i < j < |s| ==> InOrder(key(s[i]), key(s[j]), descending)
  }

  /** Every pair of neighbours is in order. */
  predicate AdjacentSortedBy<T>(s: seq<T>, key: T -> string, descending: bool)
  {
    forall k :: 0 < k < |s| ==> InOrder(key(s[k - 1]), key(s[k]), descending)
  }

  /** The order between neighbours extends to all pairs. */
  lemma {:induction false} AdjacentSortedIsSorted<T>(s: seq<T>, key: T -> string, descending: bool)
    requires AdjacentSortedBy(s, key, descending)
    ensures SortedBy(s, key, descending)
  {
    if |s| > 1 {
      var t := s[..|s| - 1];
      assert AdjacentSortedBy(t, key, descending);
      AdjacentSortedIsSorted(t, key, descending);
      forall i | 0 <= i < |s| - 1
        ensures InOrder(key(s[i]), key(s[|s| - 1]), descending)
      {
        if i < |s| - 2 {
          assert InOrder(key(t[i]), key(t[|s| - 2]), descending);
          InOrderTransitive(key(s[i]), key(s[|s| - 2]), key(s[|s| - 1]), descending);
        }
      }
    }
  }

  /** `s` with the neighbours at `j - 1` and `j` exchanged. */
  function Swap<T>(s: seq<T>, j: nat): (t: seq<T>)
    requires 0 < j < |s|
    ensures |t| == |s| && t[j - 1] == s[j] && t[j] == s[j - 1]
    ensures forall k :: 0 <= k < |s| && k != j - 1 && k != j ==> t[k] == s[k]
    ensures multiset(t) == multiset(s)
  {
    var t := s[j - 1 := s[j]][j := s[j - 1]];
    assert s == s[..j - 1] + [s[j - 1], s[j]] + s[j + 1..];
    assert t == s[..j - 1] + [s[j], s[j - 1]] + s[j + 1..];
    t
  }

  /** While `s[i]`'s element sinks to position `j`: every pair of
      neighbours in `s[..i + 1]` is in order except the one ending at `j`,
      and the neighbours around `j` are in order with each other. */
  predicate Sinking<T>(s: seq<T>, i: nat, j: nat, key: T -> string, descending: bool)
  {
    j <= i < |s| &&
    (forall k :: 0 < k <= i && k != j ==> InOrder(key(s[k - 1]), key(s[k]), descending)) &&
    (0 < j < i ==> InOrder(key(s[j - 1]), key(s[j + 1]), descending))
  }

  lemma SinkStart<T>(s: seq<T>, i: nat, key: T -> string, descending: bool)
    requires 0 < i < |s| && AdjacentSortedBy(s[..i], key, descending)
    ensures Sinking(s, i, i, key, descending)
  {
    forall k | 0 < k < i
      ensures InOrder(key(s[k - 1]), key(s[k]), descending)
    {
      assert s[..i][k - 1] == s[k - 1] && s[..i][k] == s[k];
    }
  }

  /** Swapping an out-of-order pair at `j` moves the gap to `j - 1`. */
  lemma SinkStep<T>(s: seq<T>, i: nat, j: nat, key: T -> string, descending: bool)
    requires 0 < j && Sinking(s, i, j, key, descending)
    requires !InOrder(key(s[j - 1]), key(s[j]), descending)
    ensures Sinking(Swap(s, j), i, j - 1, key, descending)
  {
    LexAsymmetric(key(s[j - 1]), key(s[j]));
    LexAsymmetric(key(s[j]), key(s[j - 1]));
  }

  /** Once the pair at `j` is in order (or `j` is 0), `s[..i + 1]` is. */
  lemma SinkDone<T>(s: seq<T>, i: nat, j: nat, key: T -> string, descending: bool)
    requires Sinking(s, i, j, key, descending)
    requires j == 0 || InOrder(key(s[j - 1]), key(s[j]), descending)
    ensures AdjacentSortedBy(s[..i + 1], key, descending)
  {
    var t := s[..i + 1];
    forall k | 0 < k < |t|
      ensures InOrder(key(t[k - 1]), key(t[k]), descending)
    {
      assert t[k - 1] == s[k - 1] && t[k] == s[k];
    }
  }

  /** One step of insertion sort: with `a[..i]` in order, moves `a[i]`
      left by adjacent swaps until `a[..i + 1]` is in order. */
  method SinkLast<T>(a: array<T>, i: nat, key: T -> string, descending: bool)
    requires 0 < i < a.Length
    requires AdjacentSortedBy(a[..i], key, descending)
    modifies a
    ensures AdjacentSortedBy(a[..i + 1], key, descending)
    ensures multiset(a[..]) == multiset(old(a[..]))
    ensures a[i + 1..] == old(a[i + 1..])
  {
    SinkStart(a[..], i, key, descending);
    var j := i;
    while j > 0 && !InOrder(key(a[j - 1]), key(a[j]), descending)
      invariant 0 <= j <= i
      invariant Sinking(a[..], i, j, key, descending)
      invariant multiset(a[..]) == multiset(old(a[..]))
      invariant a[i + 1..] == old(a[i + 1..])
    {
      ghost var before := a[..];
      SinkStep(before, i, j, key, descending);
      a[j - 1], a[j] := a[j], a[j - 1];
      assert a[..] == Swap(before, j);
      j := j - 1;
    }
    SinkDone(a[..], i, j, key, descending);
  }

  /** Insertion sort by adjacent swaps: afterwards the array is ordered by
      `key` and holds the same elements as before. */
  method SortBy<T>(a: array<T>, key: T -> string, descending: bool)
    modifies a
    ensures SortedBy(a[..], key, descending)
    ensures multiset(a[..]) == multiset(old(a[..]))
  {
    if a.Length == 0 { return; }
    var i := 1;
    while i < a.Length
      invariant 1 <= i <= a.Length
      invariant AdjacentSortedBy(a[..i], key, descending)
      invariant multiset(a[..]) == multiset(old(a[..]))
    {
      SinkLast(a, i, key, descending);
      i := i + 1;
    }
    assert a[..a.Length] == a[..];
    AdjacentSortedIsSorted(a[..], key, descending);
  }
}
