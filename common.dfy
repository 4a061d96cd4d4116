/** Values shared by every puzzle module. */
module Common {

  /** Rust's `Option`: a lookup or a parse that can fail. */
  datatype Option<+T> = None | Some(value: T)

  /** Rust's `std::cmp::Ordering`, the result of a three-way comparison. */
  datatype Ordering = Less | Equal | Greater {
    /** The ordering seen from the other operand. */
    function Reverse(): (r: Ordering)
      ensures (r == Less) <==> (this == Greater)
      ensures (r == Greater) <==> (this == Less)
    {
      match this
      case Less => Greater
      case Equal => Equal
      case Greater => Less
    }
  }

  /** A grid with at least one row, every row as long as the first. */
  predicate Rectangular<T>(g: seq<seq<T>>)
  {
    |g| >= 1 && forall y :: 0 <= y < |g| ==> |g[y]| == |g[0]|
  }

  /** Two to the power `n`. */
  function Pow2(n: nat): (r: nat)
    ensures r >= 1
  {
    if n == 0 then 1 else 2 * Pow2(n - 1)
  }

  /** Sum of a sequence of integers, taken from the left. */
  function Sum(s: seq<int>): int
  {
    if s == [] then 0 else Sum(s[..|s| - 1]) + s[|s| - 1]
  }

  lemma {:induction false} SumNonNegative(s: seq<int>)
    requires forall i :: 0 <= i < |s| ==> s[i] >= 0
    ensures Sum(s) >= 0
  {
    if s != [] {
      SumNonNegative(s[..|s| - 1]);
    }
  }

  lemma {:induction false} SumAtLeastLength(s: seq<int>)
    requires forall i :: 0 <= i < |s| ==> s[i] >= 1
    ensures Sum(s) >= |s|
  {
    if s != [] {
      SumAtLeastLength(s[..|s| - 1]);
    }
  }

  /** The sum of two sequences one after the other. */
  lemma {:induction false} SumAppend(a: seq<int>, b: seq<int>)
    ensures Sum(a + b) == Sum(a) + Sum(b)
    decreases |b|
  {
    if b == [] {
      assert a + b == a;
    } else {
      assert (a + b)[..|a + b| - 1] == a + b[..|b| - 1];
      assert (a + b)[|a + b| - 1] == b[|b| - 1];
      SumAppend(a, b[..|b| - 1]);
    }
  }

  /** The sum split after its first element. */
  lemma SumFront(s: seq<int>)
    requires s != []
    ensures Sum(s) == s[0] + Sum(s[1..])
  {
    assert s == [s[0]] + s[1..];
    SumAppend([s[0]], s[1..]);
    assert [s[0]][..0] == [];
  }
}
