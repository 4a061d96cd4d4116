/** Day 9: mirage maintenance. A series is extrapolated one step to the right and one step to the
    left through its table of repeated differences. */
module Day9 {
  import opened Common
  import opened Text

  /** `Series::new` unwraps the parse of every non-empty trimmed token. */
  predicate SeriesLine(line: string)
  {
    forall t :: t in Split(line, ' ') ==> Trim(t) == [] || ParseInt(Trim(t)).Some?
  }

  /** `Series::new`: the integers among the space-separated tokens, empty tokens skipped. */
  function SeriesNew(line: string): seq<int>
    requires SeriesLine(line)
  {
    Numbers(line)
  }

  /** A series written with single spaces is read back. */
  lemma SeriesShown(xs: seq<int>)
    ensures SeriesLine(Join(ShowAll(xs), ' ')) && SeriesNew(Join(ShowAll(xs), ' ')) == xs
  {
    var line := Join(ShowAll(xs), ' ');
    if xs == [] {
      assert line == "";
      assert Split(line, ' ') == [""];
      assert Trim("") == "";
    } else {
      var parts := ShowAll(xs);
      forall k | 0 <= k < |parts|
        ensures ' ' !in parts[k]
      {
        ShowIntPlain(xs[k]);
      }
      SplitJoin(parts, ' ');
      forall t | t in Split(line, ' ')
        ensures Trim(t) == [] || ParseInt(Trim(t)).Some?
      {
        var k :| 0 <= k < |parts| && parts[k] == t;
        ShowIntPlain(xs[k]);
        ParseShowInt(xs[k]);
      }
    }
    NumbersShown(xs);
  }

  /** The row of pairwise differences, one shorter than the row (`windows(2)`). */
  function Diffs(s: seq<int>): (r: seq<int>)
    ensures |r| == if |s| == 0 then 0 else |s| - 1
  {
    if |s| < 2 then [] else Diffs(s[..|s| - 1]) + [s[|s| - 1] - s[|s| - 2]]
  }

  /** Each difference is that of two neighbours. */
  lemma {:induction false} DiffsAt(s: seq<int>, i: nat)
    requires i + 1 < |s|
    ensures Diffs(s)[i] == s[i + 1] - s[i]
  {
    if i + 2 < |s| {
      DiffsAt(s[..|s| - 1], i);
    }
  }

  predicate AllZero(s: seq<int>)
  {
    forall i :: 0 <= i < |s| ==> s[i] == 0
  }

  /** The stack of rows `next` builds: the series, then each row of differences in turn, up to
      the first row whose differences are all zero. */
  function Table(s: seq<int>): (t: seq<seq<int>>)
    ensures |t| >= 1 && t[0] == s
    decreases |s|
  {
    if AllZero(Diffs(s)) then [s] else [s] + Table(Diffs(s))
  }

  /** The table holds the series, each row's differences below it, none of them all zero, and
      ends with the row whose differences vanish. */
  lemma {:induction false} TableShape(s: seq<int>)
    ensures var t := Table(s);
      (forall k :: 0 <= k < |t| - 1 ==> t[k + 1] == Diffs(t[k])) &&
      (forall k :: 1 <= k < |t| ==> !AllZero(t[k])) &&
      AllZero(Diffs(t[|t| - 1]))
    decreases |s|
  {
    var t := Table(s);
    var d := Diffs(s);
    if !AllZero(d) {
      TableShape(d);
      assert t == [s] + Table(d);
      forall k | 0 <= k < |t| - 1
        ensures t[k + 1] == Diffs(t[k])
      {
        if k > 0 {
          assert t[k + 1] == Table(d)[k] && t[k] == Table(d)[k - 1];
        }
      }
      forall k | 1 <= k < |t|
        ensures !AllZero(t[k])
      {
        assert t[k] == Table(d)[k - 1];
      }
    }
  }

  predicate RowsNonEmpty(t: seq<seq<int>>)
  {
    forall k :: 0 <= k < |t| ==> |t[k]| >= 1
  }

  /** The fold of `right`: the last elements summed from the deepest row up. */
  function FoldRight(t: seq<seq<int>>): int
    requires RowsNonEmpty(t)
  {
    if t == [] then 0 else t[0][|t[0]| - 1] + FoldRight(t[1..])
  }

  /** The fold of `left`: from the deepest row up, each first element less the value below. */
  function FoldLeft(t: seq<seq<int>>): int
    requires RowsNonEmpty(t)
  {
    if t == [] then 0 else t[0][0] - FoldLeft(t[1..])
  }

  /** The value that follows the series: its last element plus the value that follows its
      differences, until these vanish. */
  function Forward(s: seq<int>): int
    requires |s| >= 1
    decreases |s|
  {
    if AllZero(Diffs(s)) then s[|s| - 1] else s[|s| - 1] + Forward(Diffs(s))
  }

  /** The value that precedes the series: its first element less the value that precedes its
      differences. */
  function Backward(s: seq<int>): int
    requires |s| >= 1
    decreases |s|
  {
    if AllZero(Diffs(s)) then s[0] else s[0] - Backward(Diffs(s))
  }

  /** The folds of `next` over the table are the two extrapolations. */
  lemma {:induction false} TableFolds(s: seq<int>)
    requires |s| >= 1
    ensures RowsNonEmpty(Table(s))
    ensures FoldRight(Table(s)) == Forward(s) && FoldLeft(Table(s)) == Backward(s)
    decreases |s|
  {
    var d := Diffs(s);
    if AllZero(d) {
      assert Table(s) == [s] && [s][1..] == [];
    } else {
      TableFolds(d);
      var t := Table(s);
      assert t == [s] + Table(d) && t[1..] == Table(d);
    }
  }

  lemma {:induction false} DiffsAppend(s: seq<int>, x: int)
    requires |s| >= 1
    ensures Diffs(s + [x]) == Diffs(s) + [x - s[|s| - 1]]
  {
    var e := s + [x];
    assert e[..|e| - 1] == s;
    assert e[|e| - 1] == x && e[|e| - 2] == s[|s| - 1];
  }

  lemma {:induction false} DiffsPrepend(x: int, s: seq<int>)
    requires |s| >= 1
    ensures Diffs([x] + s) == [s[0] - x] + Diffs(s)
  {
    if |s| >= 2 {
      var p := s[..|s| - 1];
      DiffsPrepend(x, p);
      assert ([x] + s)[..|s|] == [x] + p;
      assert [s[0] - x] + Diffs(s) == [s[0] - x] + Diffs(p) + [s[|s| - 1] - s[|s| - 2]];
    }
  }

  /** Every row extended by the value that follows it. */
  function ExtendRight(t: seq<seq<int>>): (r: seq<seq<int>>)
    requires RowsNonEmpty(t)
    ensures |r| == |t|
  {
    if t == [] then [] else [t[0] + [Forward(t[0])]] + ExtendRight(t[1..])
  }

  /** Every row extended by the value that precedes it. */
  function ExtendLeft(t: seq<seq<int>>): (r: seq<seq<int>>)
    requires RowsNonEmpty(t)
    ensures |r| == |t|
  {
    if t == [] then [] else [[Backward(t[0])] + t[0]] + ExtendLeft(t[1..])
  }

  /** A difference row is all zero exactly when it stays so extended by a zero. */
  lemma AllZeroExtended(d: seq<int>, x: int)
    ensures AllZero(d + [x]) <==> AllZero(d) && x == 0
    ensures AllZero([x] + d) <==> AllZero(d) && x == 0
  {
    if AllZero(d + [x]) {
      assert (d + [x])[|d|] == x;
      assert forall i :: 0 <= i < |d| ==> d[i] == (d + [x])[i];
    }
    if AllZero([x] + d) {
      assert ([x] + d)[0] == x;
      assert forall i :: 0 <= i < |d| ==> d[i] == ([x] + d)[i + 1];
    }
  }

  /** The value `next` puts after the series continues its whole table: the table of the
      extended series is the old table with every row extended by the value that follows it, and
      is no deeper. */
  lemma {:induction false} ForwardExtends(s: seq<int>)
    requires |s| >= 1
    ensures RowsNonEmpty(Table(s)) && Table(s + [Forward(s)]) == ExtendRight(Table(s))
    decreases |s|
  {
    TableFolds(s);
    var d := Diffs(s);
    var e := s + [Forward(s)];
    DiffsAppend(s, Forward(s));
    if AllZero(d) {
      AllZeroExtended(d, 0);
      assert Table(e) == [e];
      assert Table(s) == [s] && [s][1..] == [];
    } else {
      ForwardExtends(d);
      AllZeroExtended(d, Forward(d));
      assert Table(e) == [e] + Table(d + [Forward(d)]);
      assert Table(s) == [s] + Table(d) && Table(s)[1..] == Table(d);
    }
  }

  /** The value `next` puts before the series continues its whole table in the same way. */
  lemma {:induction false} BackwardExtends(s: seq<int>)
    requires |s| >= 1
    ensures RowsNonEmpty(Table(s)) && Table([Backward(s)] + s) == ExtendLeft(Table(s))
    decreases |s|
  {
    TableFolds(s);
    var d := Diffs(s);
    var e := [Backward(s)] + s;
    DiffsPrepend(Backward(s), s);
    if AllZero(d) {
      AllZeroExtended(d, 0);
      assert Table(e) == [e];
      assert Table(s) == [s] && [s][1..] == [];
    } else {
      BackwardExtends(d);
      AllZeroExtended(d, Backward(d));
      assert Table(e) == [e] + Table([Backward(d)] + d);
      assert Table(s) == [s] + Table(d) && Table(s)[1..] == Table(d);
    }
  }

  /** A constant series is continued by the same constant on both sides. */
  lemma ConstantSeries(s: seq<int>, c: int)
    requires |s| >= 1 && forall i :: 0 <= i < |s| ==> s[i] == c
    ensures Forward(s) == c && Backward(s) == c
  {
    forall i | 0 <= i < |Diffs(s)|
      ensures Diffs(s)[i] == 0
    {
      DiffsAt(s, i);
    }
  }

  lemma NextTerm(a: int, d: int, i: int)
    ensures a + d * (i + 1) == a + d * i + d
  {
  }

  /** An arithmetic progression of at least two terms is continued by its next and previous
      terms. */
  lemma LinearSeries(s: seq<int>, a: int, d: int)
    requires |s| >= 2 && forall i :: 0 <= i < |s| ==> s[i] == a + d * i
    ensures Forward(s) == a + d * |s| && Backward(s) == a - d
  {
    var n := |s|;
    var r := Diffs(s);
    LinearDiffs(s, a, d);
    assert s[0] == a + d * 0;
    assert s[n - 1] == a + d * (n - 1);
    NextTerm(a, d, n - 1);
    if AllZero(r) {
      assert r[0] == 0;
    } else {
      ConstantSeries(r, d);
    }
  }

  /** The differences of an arithmetic progression are its step. */
  lemma LinearDiffs(s: seq<int>, a: int, d: int)
    requires forall i :: 0 <= i < |s| ==> s[i] == a + d * i
    ensures forall i :: 0 <= i < |Diffs(s)| ==> Diffs(s)[i] == d
  {
    forall i | 0 <= i < |Diffs(s)|
      ensures Diffs(s)[i] == d
    {
      DiffsAt(s, i);
      NextTerm(a, d, i);
    }
  }

  /** The `windows(2)` loop: the pairwise differences of a row. */
  method Differences(row: seq<int>) returns (res: seq<int>)
    ensures res == Diffs(row)
  {
    res := [];
    var i := 0;
    while i + 1 < |row|
      invariant 0 <= i && (i + 1 <= |row| || i == 0)
      invariant |res| == i && forall k :: 0 <= k < i ==> res[k] == row[k + 1] - row[k]
    {
      res := res + [row[i + 1] - row[i]];
      i := i + 1;
    }
    forall k | 0 <= k < |res|
      ensures res[k] == Diffs(row)[k]
    {
      DiffsAt(row, k);
    }
  }

  lemma PushRow(stack: seq<seq<int>>, res: seq<int>, rest: seq<seq<int>>)
    requires |stack| >= 1
    ensures (stack + [res])[..|stack|] == stack
    ensures stack[..|stack| - 1] + ([stack[|stack| - 1]] + rest) == stack + rest
  {
    assert stack == stack[..|stack| - 1] + [stack[|stack| - 1]];
  }

  /** The first loop of `next`: rows of differences are pushed until one would be all zero. */
  method DifferenceTable(values: seq<int>) returns (stack: seq<seq<int>>)
    ensures stack == Table(values)
  {
    stack := [values];
    var current := values;
    while true
      invariant |stack| >= 1 && current == stack[|stack| - 1]
      invariant stack[..|stack| - 1] + Table(current) == Table(values)
      decreases |current|
    {
      var res := Differences(current);
      if AllZero(res) {
        break;
      }
      assert Table(current) == [current] + Table(res);
      PushRow(stack, res, Table(res));
      stack := stack + [res];
      current := res;
    }
    assert Table(current) == [current];
  }

  /** The `right` loop: the last elements, deepest row first, added up. */
  method SumLasts(stack: seq<seq<int>>) returns (right: int)
    requires RowsNonEmpty(stack)
    ensures right == FoldRight(stack)
  {
    right := 0;
    var i := |stack|;
    while i > 0
      invariant 0 <= i <= |stack| && right == FoldRight(stack[i..])
    {
      i := i - 1;
      assert stack[i..][1..] == stack[i + 1..];
      right := stack[i][|stack[i]| - 1] + right;
    }
    assert stack[0..] == stack;
  }

  /** The `left` loop: the first elements, deepest row first, each less the value so far. */
  method FoldFirsts(stack: seq<seq<int>>) returns (left: int)
    requires RowsNonEmpty(stack)
    ensures left == FoldLeft(stack)
  {
    left := 0;
    var i := |stack|;
    while i > 0
      invariant 0 <= i <= |stack| && left == FoldLeft(stack[i..])
    {
      i := i - 1;
      assert stack[i..][1..] == stack[i + 1..];
      left := stack[i][0] - left;
    }
    assert stack[0..] == stack;
  }

  /** `Series::next`: the values extrapolated to the left and to the right. */
  method Next(values: seq<int>) returns (left: int, right: int)
    requires |values| >= 1
    ensures left == Backward(values) && right == Forward(values)
  {
    var stack := DifferenceTable(values);
    TableFolds(values);
    right := SumLasts(stack);
    left := FoldFirsts(stack);
  }

  /** The sums `main` prints: the left extrapolations and the right extrapolations of all series. */
  function LeftTotal(series: seq<seq<int>>): int
    requires forall k :: 0 <= k < |series| ==> |series[k]| >= 1
  {
    if series == [] then 0 else Backward(series[0]) + LeftTotal(series[1..])
  }

  function RightTotal(series: seq<seq<int>>): int
    requires forall k :: 0 <= k < |series| ==> |series[k]| >= 1
  {
    if series == [] then 0 else Forward(series[0]) + RightTotal(series[1..])
  }

  /** Constant series add up their constants on both sides. */
  lemma {:induction false} ConstantTotals(series: seq<seq<int>>, cs: seq<int>)
    requires |series| == |cs|
    requires forall k :: 0 <= k < |series| ==> |series[k]| >= 1
    requires forall k, i :: 0 <= k < |series| && 0 <= i < |series[k]| ==> series[k][i] == cs[k]
    ensures LeftTotal(series) == RightTotal(series) == Sum(cs)
  {
    if series != [] {
      ConstantSeries(series[0], cs[0]);
      ConstantTotals(series[1..], cs[1..]);
      SumFront(cs);
    }
  }

}
