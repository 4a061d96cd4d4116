/** Lexicographic comparison of integer keys, and an in-place sort of an array by such a
    key: the shape in which the hands of day 7 are ordered. */
module Sorting {
  import opened Common

  function IntCmp(x: int, y: int): Ordering
  {
    if x < y then Less else if x > y then Greater else Equal
  }

  /** Lexicographic comparison, a shorter prefix first. */
  function LexCmp(a: seq<int>, b: seq<int>): Ordering
  {
    if a == [] && b == [] then Equal
    else if a == [] then Less
    else if b == [] then Greater
    else if a[0] != b[0] then IntCmp(a[0], b[0])
    else LexCmp(a[1..], b[1..])
  }

  predicate LexLess(a: seq<int>, b: seq<int>) { LexCmp(a, b) == Less }

  /** The comparison is a total order: equal only on equal keys, and the reverse seen from the
      other side. */
  lemma {:induction false} LexCmpOrder(a: seq<int>, b: seq<int>)
    ensures LexCmp(a, b) == Equal <==> a == b
    ensures LexCmp(b, a) == LexCmp(a, b).Reverse()
  {
    if a != [] && b != [] && a[0] == b[0] {
      LexCmpOrder(a[1..], b[1..]);
      if a[1..] == b[1..] {
        assert a == [a[0]] + a[1..] && b == [b[0]] + b[1..];
      }
    }
  }

  lemma {:induction false} LexLessTransitive(a: seq<int>, b: seq<int>, c: seq<int>)
    requires LexLess(a, b) && LexLess(b, c)
    ensures LexLess(a, c)
  {
    if a != [] && b != [] && c != [] && a[0] == b[0] && b[0] == c[0] {
      LexLessTransitive(a[1..], b[1..], c[1..]);
    }
  }

  /** "Not greater" is transitive, so it orders a sorted sequence. */
  lemma LexLeTransitive(a: seq<int>, b: seq<int>, c: seq<int>)
    requires !LexLess(b, a) && !LexLess(c, b)
    ensures !LexLess(c, a)
  {
    LexCmpOrder(a, b);
    LexCmpOrder(b, c);
    if a != b && b != c {
      LexLessTransitive(a, b, c);
      LexLessAsymmetric(a, c);
    }
  }

  lemma LexLessAsymmetric(a: seq<int>, b: seq<int>)
    requires LexLess(a, b)
    ensures !LexLess(b, a)
  {
    LexCmpOrder(a, b);
  }

  /** No element is followed by one with a smaller key. */
  predicate SortedBy<T>(s: seq<T>, key: T -> seq<int>)
  {
    forall p, q :: 0 <= p < q < |s| ==> !LexLess(key(s[q]), key(s[p]))
  }

  /** The inner loop's state: `a[..i + 1]` is sorted apart from the element at `j`, whose key is
      below that of everything after it. */
  predicate Hole<T>(s: seq<T>, key: T -> seq<int>, i: int, j: int)
    requires 0 <= j <= i < |s|
  {
    (forall p, q :: 0 <= p < q <= i && p != j && q != j ==> !LexLess(key(s[q]), key(s[p]))) &&
    (forall q :: j < q <= i ==> LexLess(key(s[j]), key(s[q])))
  }

  /** Swapping the element at the hole with its smaller-keyed left neighbour moves the hole left. */
  lemma HoleSwap<T>(s: seq<T>, key: T -> seq<int>, i: int, j: int)
    requires 0 < j <= i < |s| && Hole(s, key, i, j) && LexLess(key(s[j]), key(s[j - 1]))
    ensures Hole(s[j - 1 := s[j]][j := s[j - 1]], key, i, j - 1)
  {
    var t := s[j - 1 := s[j]][j := s[j - 1]];
    forall q | j - 1 < q <= i
      ensures LexLess(key(t[j - 1]), key(t[q]))
    {
    }
    forall p, q | 0 <= p < q <= i && p != j - 1 && q != j - 1
      ensures !LexLess(key(t[q]), key(t[p]))
    {
      if q == j {
        assert t[q] == s[j - 1] && t[p] == s[p];
      } else if p == j {
        assert t[q] == s[q] && t[p] == s[j - 1];
      }
    }
  }

  /** A hole that no longer has a smaller-keyed left neighbour closes: `a[..i + 1]` is sorted. */
  lemma HoleClosed<T>(s: seq<T>, key: T -> seq<int>, i: int, j: int)
    requires 0 <= j <= i < |s| && Hole(s, key, i, j)
    requires j == 0 || !LexLess(key(s[j]), key(s[j - 1]))
    ensures SortedBy(s[..i + 1], key)
  {
    forall p, q | 0 <= p < q <= i
      ensures !LexLess(key(s[q]), key(s[p]))
    {
      if p == j {
        LexLessAsymmetric(key(s[j]), key(s[q]));
      } else if q == j {
        if p < j - 1 {
          LexLeTransitive(key(s[p]), key(s[j - 1]), key(s[j]));
        }
      }
    }
  }

  /** The inner loop of insertion sort: the element at `i` moves left past the elements whose key
      is greater. */
  method Insert<T>(a: array<T>, key: T -> seq<int>, i: int)
    requires 0 < i < a.Length && SortedBy(a[..i], key)
    modifies a
    ensures SortedBy(a[..i + 1], key)
    ensures multiset(a[..]) == multiset(old(a[..]))
  {
    var j := i;
    assert Hole(a[..], key, i, j) by {
      forall p, q | 0 <= p < q <= i && p != j && q != j
        ensures !LexLess(key(a[..][q]), key(a[..][p]))
      {
        assert a[..][q] == a[..i][q] && a[..][p] == a[..i][p];
      }
    }
    while j > 0 && LexLess(key(a[j]), key(a[j - 1]))
      invariant 0 <= j <= i
      invariant Hole(a[..], key, i, j)
      invariant multiset(a[..]) == multiset(old(a[..]))
    {
      HoleSwap(a[..], key, i, j);
      ghost var before := a[..];
      a[j - 1], a[j] := a[j], a[j - 1];
      assert a[..] == before[j - 1 := before[j]][j := before[j - 1]];
      j := j - 1;
    }
    HoleClosed(a[..], key, i, j);
  }

  /** Insertion sort by key: the array ends sorted by key and holds the same elements. */
  method SortByKey<T>(a: array<T>, key: T -> seq<int>)
    modifies a
    ensures SortedBy(a[..], key)
    ensures multiset(a[..]) == multiset(old(a[..]))
  {
    if a.Length == 0 {
      return;
    }
    for i := 1 to a.Length
      invariant SortedBy(a[..i], key)
      invariant multiset(a[..]) == multiset(old(a[..]))
    {
      Insert(a, key, i);
    }
    assert a[..a.Length] == a[..];
  }
}
