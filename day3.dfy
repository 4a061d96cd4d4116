/** Day 3: an engine schematic. Part numbers are the maximal digit runs next to a symbol;
    a gear is a `*` next to exactly two part numbers. */
module Day3 {
  import opened Common
  import opened Text
  import Arith

  datatype Pos = Pos(row: int, col: int)

  /** A number found in the schematic: its value, the cell of its first digit and its length. */
  datatype Number = Number(number: int, pos: Pos, len: int)

  datatype Gear = Gear(first: Number, second: Number)

  /** Every line is as wide as the first, so `at` never leaves a line that the first spans. An
      empty schematic counts: the scan then finds nothing. */
  predicate Rectangular(input: seq<string>)
  {
    forall r :: 0 <= r < |input| ==> |input[r]| == |input[0]|
  }

  function Width(input: seq<string>): nat
  {
    if |input| == 0 then 0 else |input[0]|
  }

  /** A symbol is anything but a digit and `.`. */
  predicate IsSymbol(c: char)
  {
    !IsDigit(c) && c != '.'
  }

  /** `Number::inside`: the cell lies in the number's row, within its columns. */
  function Inside(num: Number, row: int, col: int): (b: bool)
    ensures b <==> row == num.pos.row && num.pos.col <= col < num.pos.col + num.len
  {
    if num.pos.row != row then false
    else if col < num.pos.col then false
    else if col >= num.pos.col + num.len then false
    else true
  }

  /** `At` for a list of numbers: the first number that covers the cell. */
  function NumberAt(numbers: seq<Number>, row: int, col: int): Option<Number>
  {
    if numbers == [] then None
    else if Inside(numbers[0], row, col) then Some(numbers[0])
    else NumberAt(numbers[1..], row, col)
  }

  /** `NumberAt` finds nothing exactly when no number covers the cell, and otherwise the
      first number that does. */
  lemma {:induction false} NumberAtMeaning(numbers: seq<Number>, row: int, col: int)
    ensures NumberAt(numbers, row, col).None? <==>
      forall i :: 0 <= i < |numbers| ==> !Inside(numbers[i], row, col)
    ensures NumberAt(numbers, row, col).Some? ==>
      exists i :: (0 <= i < |numbers| && numbers[i] == NumberAt(numbers, row, col).value &&
        Inside(numbers[i], row, col) && (forall j :: 0 <= j < i ==> !Inside(numbers[j], row, col)))
  {
    if numbers != [] && !Inside(numbers[0], row, col) {
      var rest := numbers[1..];
      NumberAtMeaning(rest, row, col);
      assert forall i :: 0 <= i < |rest| ==> rest[i] == numbers[i + 1];
      if NumberAt(rest, row, col).Some? {
        var i :| 0 <= i < |rest| && rest[i] == NumberAt(rest, row, col).value &&
          Inside(rest[i], row, col) && (forall j :: 0 <= j < i ==> !Inside(rest[j], row, col));
        assert numbers[i + 1] == rest[i];
      }
    }
  }


  /** The length of the digit run that starts at `col`: up to the first non-digit, or to the
      end of the line. */
  function RunLength(line: string, col: nat): (n: nat)
    requires col <= |line|
    ensures col + n <= |line|
    ensures forall k :: col <= k < col + n ==> IsDigit(line[k])
    ensures col + n == |line| || !IsDigit(line[col + n])
    decreases |line| - col
  {
    if col == |line| || !IsDigit(line[col]) then 0 else 1 + RunLength(line, col + 1)
  }

  /** The number that the scan reads at a digit: the run from `col` to the next non-digit. */
  function RunAt(input: seq<string>, row: nat, col: nat): (num: Number)
    requires row < |input| && col < |input[row]| && IsDigit(input[row][col])
    ensures num.pos == Pos(row, col) && num.len >= 1 && col + num.len <= |input[row]|
    ensures AllDigits(input[row][col..col + num.len])
    ensures num.number == Decimal(input[row][col..col + num.len])
    ensures col + num.len == |input[row]| || !IsDigit(input[row][col + num.len])
  {
    var line := input[row];
    var length := RunLength(line, col);
    assert AllDigits(line[col..col + length]);
    Number(Decimal(line[col..col + length]), Pos(row, col), length)
  }

  /** A digit with no digit directly to its left. */
  predicate StartsRun(line: string, col: nat)
    requires col < |line|
  {
    IsDigit(line[col]) && (col == 0 || !IsDigit(line[col - 1]))
  }

  /** The first digit of the run that holds the digit at `col`. */
  function RunStart(line: string, col: nat): (c0: nat)
    requires col < |line| && IsDigit(line[col])
    ensures c0 <= col && StartsRun(line, c0)
    ensures forall k :: c0 <= k <= col ==> IsDigit(line[k])
  {
    if col == 0 || !IsDigit(line[col - 1]) then col else RunStart(line, col - 1)
  }

  /** Two digits of one run end the run at the same place. */
  lemma RunEnd(line: string, a: nat, b: nat)
    requires a <= b < |line|
    requires forall k :: a <= k <= b ==> IsDigit(line[k])
    ensures a + RunLength(line, a) == b + RunLength(line, b)
  {
    var ea, eb := a + RunLength(line, a), b + RunLength(line, b);
    assert ea > b;
  }

  /** The number lies inside the schematic. */
  predicate InGrid(input: seq<string>, num: Number)
  {
    0 <= num.pos.row < |input| && 0 <= num.pos.col && num.len >= 1 &&
    num.pos.col + num.len <= Width(input)
  }

  /** A cell of the ring around the number: the rows above, at and below it, from the column
      left of its first digit to the column right of its last, less its own digits. */
  predicate Neighbour(num: Number, r: int, c: int)
  {
    num.pos.row - 1 <= r <= num.pos.row + 1 &&
    num.pos.col - 1 <= c <= num.pos.col + num.len &&
    !(r == num.pos.row && num.pos.col <= c < num.pos.col + num.len)
  }

  /** Some cell of the ring, inside the schematic, holds a symbol. */
  predicate Adjacent(input: seq<string>, num: Number)
    requires Rectangular(input)
  {
    exists r, c :: 0 <= r < |input| && 0 <= c < Width(input) && Neighbour(num, r, c) &&
      IsSymbol(input[r][c])
  }

  /** Some cell of `line` in columns `lo .. hi - 1` holds a symbol. */
  predicate SymbolIn(line: string, lo: int, hi: int)
    requires 0 <= lo && hi <= |line|
  {
    exists idx :: lo <= idx < hi && IsSymbol(line[idx])
  }

  /** `has_adjacent_part` as written: the cell right of the number is looked at only when
      `col + len + 1 < width`, so a symbol in the last column is never seen there. */
  predicate AdjacentAsWritten(input: seq<string>, num: Number)
    requires Rectangular(input) && InGrid(input, num)
  {
    var row, col, width := num.pos.row, num.pos.col, Width(input);
    var lo := if col - 1 > 0 then col - 1 else 0;
    var hi := if col + num.len + 1 < width then col + num.len + 1 else width;
    (col > 0 && IsSymbol(input[row][col - 1])) ||
    (col + num.len + 1 < width && IsSymbol(input[row][col + num.len])) ||
    (row + 1 < |input| && SymbolIn(input[row + 1], lo, hi)) ||
    (row > 0 && SymbolIn(input[row - 1], lo, hi))
  }

  /** The check as written only ever misses the cell right of the number, and only when that
      cell is in the last column. */
  lemma AsWrittenMissesOnlyRightEdge(input: seq<string>, num: Number)
    requires Rectangular(input) && InGrid(input, num)
    ensures AdjacentAsWritten(input, num) ==> Adjacent(input, num)
    ensures Adjacent(input, num) && !AdjacentAsWritten(input, num) ==>
      num.pos.col + num.len == Width(input) - 1 &&
      IsSymbol(input[num.pos.row][num.pos.col + num.len])
  {
    var row, col, width := num.pos.row, num.pos.col, Width(input);
    var lo := if col - 1 > 0 then col - 1 else 0;
    var hi := if col + num.len + 1 < width then col + num.len + 1 else width;
    if AdjacentAsWritten(input, num) {
      if col > 0 && IsSymbol(input[row][col - 1]) {
        assert Neighbour(num, row, col - 1);
      } else if col + num.len + 1 < width && IsSymbol(input[row][col + num.len]) {
        assert Neighbour(num, row, col + num.len);
      } else if row + 1 < |input| && SymbolIn(input[row + 1], lo, hi) {
        var below := input[row + 1];
        var idx :| lo <= idx < hi && IsSymbol(below[idx]);
        assert Neighbour(num, row + 1, idx);
      } else {
        var above := input[row - 1];
        var idx :| lo <= idx < hi && IsSymbol(above[idx]);
        assert Neighbour(num, row - 1, idx);
      }
    }
    if Adjacent(input, num) && !AdjacentAsWritten(input, num) {
      var r, c :| 0 <= r < |input| && 0 <= c < width && Neighbour(num, r, c) && IsSymbol(input[r][c]);
    }
  }

  /** A `1` followed by `#` in the last column: the `#` touches the `1`, but the check as
      written does not look at it. */
  lemma RightEdgeMissed()
    ensures Rectangular(["1#"]) && InGrid(["1#"], Number(1, Pos(0, 0), 1))
    ensures Adjacent(["1#"], Number(1, Pos(0, 0), 1))
    ensures !AdjacentAsWritten(["1#"], Number(1, Pos(0, 0), 1))
  {
    var input := ["1#"];
    assert Neighbour(Number(1, Pos(0, 0), 1), 0, 1) && IsSymbol(input[0][1]);
  }

  /** `has_adjacent_part` as the program has it: the left and right cells of the number's
      row, then the row below and the row above from the column left of the number to the
      column right of it, clipped to the schematic. */
  method HasAdjacentPartAsWritten(input: seq<string>, num: Number) returns (b: bool)
    requires Rectangular(input) && InGrid(input, num)
    ensures b <==> AdjacentAsWritten(input, num)
  {
    var pos := num.pos;
    var width := Width(input);
    if pos.col > 0 {
      var ch := input[pos.row][pos.col - 1];
      if IsSymbol(ch) {
        return true;
      }
    }
    if pos.col + num.len + 1 < width {
      var ch := input[pos.row][pos.col + num.len];
      if IsSymbol(ch) {
        return true;
      }
    }
    var lo := if pos.col - 1 > 0 then pos.col - 1 else 0;
    var hi := if pos.col + num.len + 1 < width then pos.col + num.len + 1 else width;
    if pos.row + 1 < |input| {
      var below := input[pos.row + 1];
      for idx := lo to hi
        invariant forall c :: lo <= c < idx ==> !IsSymbol(below[c])
      {
        if IsSymbol(below[idx]) {
          return true;
        }
      }
    }
    if pos.row > 0 {
      var above := input[pos.row - 1];
      for idx := lo to hi
        invariant forall c :: lo <= c < idx ==> !IsSymbol(above[c])
      {
        if IsSymbol(above[idx]) {
          return true;
        }
      }
    }
    return false;
  }

  /** `has_adjacent_part`, with the right-hand check bounded by `col + len < width` so that the
      last column is looked at: true exactly when a cell of the ring holds a symbol. */
  method HasAdjacentPart(input: seq<string>, num: Number) returns (b: bool)
    requires Rectangular(input) && InGrid(input, num)
    ensures b <==> Adjacent(input, num)
  {
    var pos := num.pos;
    var width := Width(input);
    if pos.col > 0 {
      var ch := input[pos.row][pos.col - 1];
      if IsSymbol(ch) {
        assert Neighbour(num, pos.row, pos.col - 1);
        return true;
      }
    }
    if pos.col + num.len < width {
      var ch := input[pos.row][pos.col + num.len];
      if IsSymbol(ch) {
        assert Neighbour(num, pos.row, pos.col + num.len);
        return true;
      }
    }
    var lo := if pos.col - 1 > 0 then pos.col - 1 else 0;
    var hi := if pos.col + num.len + 1 < width then pos.col + num.len + 1 else width;
    if pos.row + 1 < |input| {
      var below := input[pos.row + 1];
      for idx := lo to hi
        invariant forall c :: lo <= c < idx ==> !IsSymbol(below[c])
      {
        if IsSymbol(below[idx]) {
          assert Neighbour(num, pos.row + 1, idx);
          return true;
        }
      }
    }
    if pos.row > 0 {
      var above := input[pos.row - 1];
      for idx := lo to hi
        invariant forall c :: lo <= c < idx ==> !IsSymbol(above[c])
      {
        if IsSymbol(above[idx]) {
          assert Neighbour(num, pos.row - 1, idx);
          return true;
        }
      }
    }
    forall r, c | 0 <= r < |input| && 0 <= c < width && Neighbour(num, r, c)
      ensures !IsSymbol(input[r][c])
    {
      if r == pos.row {
        assert c == pos.col - 1 || c == pos.col + num.len;
      } else {
        assert lo <= c < hi;
      }
    }
    return false;
  }

  /** The check used when a run is read: `AsWritten` is `has_adjacent_part` as the program
      has it, `Intended` the one that also looks right of a number ending next to the last
      column. `SchemaFrom`, and so both answers, use `AsWritten`. */
  datatype Bound = AsWritten | Intended

  /** The number touches a symbol, by the check that `bound` names. */
  predicate Touches(input: seq<string>, num: Number, bound: Bound)
    requires Rectangular(input) && InGrid(input, num)
  {
    match bound
    case AsWritten => AdjacentAsWritten(input, num)
    case Intended => Adjacent(input, num)
  }

  /** The run starting at `col` is a part number: it starts a run and touches a symbol. */
  predicate Kept(input: seq<string>, row: nat, col: nat, bound: Bound)
    requires Rectangular(input) && row < |input| && col < |input[row]|
  {
    StartsRun(input[row], col) && Touches(input, RunAt(input, row, col), bound)
  }

  /** The part numbers of row `row` whose first digit lies left of column `n`, left to right. */
  function RowParts(input: seq<string>, row: nat, n: nat, bound: Bound): seq<Number>
    requires Rectangular(input) && row < |input| && n <= |input[row]|
  {
    if n == 0 then []
    else RowParts(input, row, n - 1, bound) + (if Kept(input, row, n - 1, bound) then [RunAt(input, row, n - 1)] else [])
  }

  /** Each part number of a row is a kept run left of column `n`. */
  lemma {:induction false} RowPartsElem(input: seq<string>, row: nat, n: nat, i: nat, bound: Bound)
    requires Rectangular(input) && row < |input| && n <= |input[row]|
    requires i < |RowParts(input, row, n, bound)|
    ensures var p := RowParts(input, row, n, bound)[i];
      p.pos.row == row && 0 <= p.pos.col < n && Kept(input, row, p.pos.col, bound) && p == RunAt(input, row, p.pos.col)
  {
    if i < |RowParts(input, row, n - 1, bound)| {
      RowPartsElem(input, row, n - 1, i, bound);
    }
  }

  /** Every kept run of a row left of column `n` is among its part numbers. */
  lemma {:induction false} RowPartsHas(input: seq<string>, row: nat, n: nat, c: nat, bound: Bound)
    requires Rectangular(input) && row < |input| && c < n <= |input[row]|
    requires Kept(input, row, c, bound)
    ensures RunAt(input, row, c) in RowParts(input, row, n, bound)
  {
    if c < n - 1 {
      RowPartsHas(input, row, n - 1, c, bound);
    }
  }

  /** The part numbers of a row come left to right. */
  lemma {:induction false} RowPartsOrdered(input: seq<string>, row: nat, n: nat, i: nat, j: nat, bound: Bound)
    requires Rectangular(input) && row < |input| && n <= |input[row]|
    requires i < j < |RowParts(input, row, n, bound)|
    ensures RowParts(input, row, n, bound)[i].pos.col < RowParts(input, row, n, bound)[j].pos.col
  {
    var init := RowParts(input, row, n - 1, bound);
    if j < |init| {
      RowPartsOrdered(input, row, n - 1, i, j, bound);
    } else {
      RowPartsElem(input, row, n - 1, i, bound);
    }
  }

  /** The part numbers of the rows above `r`, in row-major order of their first digits. */
  function PartsBefore(input: seq<string>, r: nat, bound: Bound): seq<Number>
    requires Rectangular(input) && r <= |input|
  {
    if r == 0 then [] else PartsBefore(input, r - 1, bound) + RowParts(input, r - 1, |input[r - 1]|, bound)
  }

  /** Every maximal digit run that touches a symbol, in row-major order. */
  function Parts(input: seq<string>, bound: Bound): seq<Number>
    requires Rectangular(input)
  {
    PartsBefore(input, |input|, bound)
  }

  /** Each part number above row `r` is a kept run there. */
  lemma {:induction false} PartsBeforeElem(input: seq<string>, r: nat, i: nat, bound: Bound)
    requires Rectangular(input) && r <= |input|
    requires i < |PartsBefore(input, r, bound)|
    ensures var p := PartsBefore(input, r, bound)[i];
      0 <= p.pos.row < r && 0 <= p.pos.col < |input[p.pos.row]| && Kept(input, p.pos.row, p.pos.col, bound) &&
      p == RunAt(input, p.pos.row, p.pos.col)
  {
    var before := PartsBefore(input, r - 1, bound);
    if i < |before| {
      PartsBeforeElem(input, r - 1, i, bound);
    } else {
      RowPartsElem(input, r - 1, |input[r - 1]|, i - |before|, bound);
    }
  }

  /** Every kept run above row `r` is a part number. */
  lemma {:induction false} PartsBeforeHas(input: seq<string>, r: nat, row: nat, col: nat, bound: Bound)
    requires Rectangular(input) && row < r <= |input| && col < |input[row]|
    requires Kept(input, row, col, bound)
    ensures RunAt(input, row, col) in PartsBefore(input, r, bound)
  {
    if row < r - 1 {
      PartsBeforeHas(input, r - 1, row, col, bound);
    } else {
      RowPartsHas(input, row, |input[row]|, col, bound);
    }
  }

  /** The first digit of `p` comes before that of `q` in row-major order. */
  predicate Before(p: Number, q: Number)
  {
    p.pos.row < q.pos.row || (p.pos.row == q.pos.row && p.pos.col < q.pos.col)
  }

  predicate RowMajor(ps: seq<Number>)
  {
    forall i, j :: 0 <= i < j < |ps| ==> Before(ps[i], ps[j])
  }

  /** One pair of part numbers, at least one of them in row `r - 1`, comes in order. */
  lemma PartsPairOrdered(input: seq<string>, r: nat, i: nat, j: nat, bound: Bound)
    requires Rectangular(input) && 0 < r <= |input|
    requires var before := PartsBefore(input, r - 1, bound); |before| <= j && i < j < |before| + |RowParts(input, r - 1, |input[r - 1]|, bound)|
    ensures Before(PartsBefore(input, r, bound)[i], PartsBefore(input, r, bound)[j])
  {
    var before, inRow := PartsBefore(input, r - 1, bound), RowParts(input, r - 1, |input[r - 1]|, bound);
    var ps := before + inRow;
    assert PartsBefore(input, r, bound) == ps;
    var q := inRow[j - |before|];
    assert ps[j] == q;
    RowPartsElem(input, r - 1, |input[r - 1]|, j - |before|, bound);
    assert q.pos.row == r - 1;
    if i < |before| {
      assert ps[i] == before[i];
      PartsBeforeElem(input, r - 1, i, bound);
      assert before[i].pos.row < r - 1;
    } else {
      var p := inRow[i - |before|];
      assert ps[i] == p;
      RowPartsOrdered(input, r - 1, |input[r - 1]|, i - |before|, j - |before|, bound);
      RowPartsElem(input, r - 1, |input[r - 1]|, i - |before|, bound);
      assert p.pos.row == r - 1 && p.pos.col < q.pos.col;
    }
  }

  /** The part numbers come in row-major order of their first digits. */
  lemma {:induction false} PartsBeforeOrdered(input: seq<string>, r: nat, bound: Bound)
    requires Rectangular(input) && r <= |input|
    ensures RowMajor(PartsBefore(input, r, bound))
  {
    if r > 0 {
      PartsBeforeOrdered(input, r - 1, bound);
      var before, inRow := PartsBefore(input, r - 1, bound), RowParts(input, r - 1, |input[r - 1]|, bound);
      var ps := before + inRow;
      assert PartsBefore(input, r, bound) == ps;
      forall i, j | 0 <= i < j < |ps|
        ensures Before(ps[i], ps[j])
      {
        if j < |before| {
          assert ps[i] == before[i] && ps[j] == before[j];
        } else {
          PartsPairOrdered(input, r, i, j, bound);
        }
      }
    }
  }

  /** A run read from a later digit of a run touches a symbol only if the whole run does. */
  lemma SuffixAdjacent(input: seq<string>, row: nat, c0: nat, col: nat, bound: Bound)
    requires Rectangular(input) && row < |input| && c0 < col < |input[row]|
    requires forall k :: c0 <= k <= col ==> IsDigit(input[row][k])
    requires Touches(input, RunAt(input, row, col), bound)
    ensures Touches(input, RunAt(input, row, c0), bound)
  {
    var line := input[row];
    RunEnd(line, c0, col);
    var suffix, whole := RunAt(input, row, col), RunAt(input, row, c0);
    assert IsDigit(line[col - 1]);
    if bound == Intended {
      var r, c :| 0 <= r < |input| && 0 <= c < Width(input) && Neighbour(suffix, r, c) && IsSymbol(input[r][c]);
      assert Neighbour(whole, r, c);
    } else {
      SuffixAsWritten(input, suffix, whole);
    }
  }

  /** The check as written, on a run and a suffix of it: the cell left of the suffix is a digit,
      the right cell is the same, and the suffix's columns above and below lie within the run's. */
  lemma SuffixAsWritten(input: seq<string>, suffix: Number, whole: Number)
    requires Rectangular(input) && InGrid(input, suffix) && InGrid(input, whole)
    requires suffix.pos.row == whole.pos.row && whole.pos.col < suffix.pos.col
    requires suffix.pos.col + suffix.len == whole.pos.col + whole.len
    requires IsDigit(input[suffix.pos.row][suffix.pos.col - 1])
    requires AdjacentAsWritten(input, suffix)
    ensures AdjacentAsWritten(input, whole)
  {
    var row, col, c0 := suffix.pos.row, suffix.pos.col, whole.pos.col;
    var end, width := col + suffix.len, Width(input);
    var hi := if end + 1 < width then end + 1 else width;
    var lo, lo0 := if col - 1 > 0 then col - 1 else 0, if c0 - 1 > 0 then c0 - 1 else 0;
    if row + 1 < |input| && SymbolIn(input[row + 1], lo, hi) {
      var idx :| lo <= idx < hi && IsSymbol(input[row + 1][idx]);
      assert lo0 <= idx < hi;
    } else if row > 0 && SymbolIn(input[row - 1], lo, hi) {
      var idx :| lo <= idx < hi && IsSymbol(input[row - 1][idx]);
      assert lo0 <= idx < hi;
    }
  }

  /** The scan at one cell: the digit there starts a new part exactly when it starts a run
      that touches a symbol. A later digit of a run is covered when the run was kept, and
      its shorter run touches no symbol when the run was dropped. */
  lemma CellStep(input: seq<string>, row: nat, col: nat, numbers: seq<Number>, bound: Bound)
    requires Rectangular(input) && row < |input| && col < |input[row]|
    requires numbers == PartsBefore(input, row, bound) + RowParts(input, row, col, bound)
    ensures Kept(input, row, col, bound) ==> NumberAt(numbers, row, col).None?
    ensures IsDigit(input[row][col]) && NumberAt(numbers, row, col).None? ==>
      (Touches(input, RunAt(input, row, col), bound) <==> Kept(input, row, col, bound))
  {
    if StartsRun(input[row], col) {
      RunStartUncovered(input, row, col, numbers, bound);
    } else if IsDigit(input[row][col]) {
      LaterDigit(input, row, col, numbers, bound);
    }
  }

  /** No part number found so far covers the first digit of a run. */
  lemma RunStartUncovered(input: seq<string>, row: nat, col: nat, numbers: seq<Number>, bound: Bound)
    requires Rectangular(input) && row < |input| && col < |input[row]|
    requires numbers == PartsBefore(input, row, bound) + RowParts(input, row, col, bound)
    requires StartsRun(input[row], col)
    ensures NumberAt(numbers, row, col).None?
  {
    var line := input[row];
    var before, inRow := PartsBefore(input, row, bound), RowParts(input, row, col, bound);
    forall i | 0 <= i < |numbers|
      ensures !Inside(numbers[i], row, col)
    {
      if i >= |before| {
        RowPartsElem(input, row, col, i - |before|, bound);
        var e := inRow[i - |before|];
        assert numbers[i] == e;
        assert AllDigits(line[e.pos.col..e.pos.col + e.len]);
      } else {
        PartsBeforeElem(input, row, i, bound);
        assert numbers[i] == before[i];
      }
    }
    NumberAtMeaning(numbers, row, col);
  }

  /** A later digit of a run is covered when its run was kept, and otherwise the run read
      from it touches no symbol. */
  lemma LaterDigit(input: seq<string>, row: nat, col: nat, numbers: seq<Number>, bound: Bound)
    requires Rectangular(input) && row < |input| && col < |input[row]|
    requires numbers == PartsBefore(input, row, bound) + RowParts(input, row, col, bound)
    requires IsDigit(input[row][col]) && !StartsRun(input[row], col)
    ensures NumberAt(numbers, row, col).None? ==> !Touches(input, RunAt(input, row, col), bound)
  {
    var line := input[row];
    var before, inRow := PartsBefore(input, row, bound), RowParts(input, row, col, bound);
    var c0 := RunStart(line, col);
    RunEnd(line, c0, col);
    var whole := RunAt(input, row, c0);
    if Touches(input, whole, bound) {
      RowPartsHas(input, row, col, c0, bound);
      var k :| 0 <= k < |inRow| && inRow[k] == whole;
      assert numbers[|before| + k] == whole;
      assert Inside(whole, row, col);
      NumberAtMeaning(numbers, row, col);
    } else if Touches(input, RunAt(input, row, col), bound) {
      SuffixAdjacent(input, row, c0, col, bound);
    }
  }

  /** The body of the inner loop of `Schema::part_numbers`, at one cell: a digit that no kept
      number covers starts a candidate run, which is kept when a symbol touches it. */
  method ScanCell(input: seq<string>, row: nat, col: nat, numbers: seq<Number>, bound: Bound) returns (numbers': seq<Number>)
    requires Rectangular(input) && row < |input| && col < |input[row]|
    requires numbers == PartsBefore(input, row, bound) + RowParts(input, row, col, bound)
    ensures numbers' == PartsBefore(input, row, bound) + RowParts(input, row, col + 1, bound)
  {
    var line := input[row];
    CellStep(input, row, col, numbers, bound);
    numbers' := numbers;
    if IsDigit(line[col]) && NumberAt(numbers, row, col).None? {
      var length := RunLength(line, col);
      var num := Number(Decimal(line[col..col + length]), Pos(row, col), length);
      assert num == RunAt(input, row, col);
      var adjacent;
      match bound {
        case AsWritten => adjacent := HasAdjacentPartAsWritten(input, num);
        case Intended => adjacent := HasAdjacentPart(input, num);
      }
      if adjacent {
        numbers' := numbers + [num];
      }
    }
  }

  /** The inner loop of `Schema::part_numbers`, over the cells of one row. */
  method ScanRow(input: seq<string>, row: nat, numbers: seq<Number>, bound: Bound) returns (numbers': seq<Number>)
    requires Rectangular(input) && row < |input|
    requires numbers == PartsBefore(input, row, bound)
    ensures numbers' == PartsBefore(input, row + 1, bound)
  {
    numbers' := numbers;
    for col := 0 to |input[row]|
      invariant numbers' == PartsBefore(input, row, bound) + RowParts(input, row, col, bound)
    {
      numbers' := ScanCell(input, row, col, numbers', bound);
    }
  }

  /** `Schema::part_numbers`: every maximal digit run that touches a symbol, row by row, by
      the program's check under `AsWritten` and by the intended one under `Intended`. */
  method PartNumbers(input: seq<string>, bound: Bound) returns (numbers: seq<Number>)
    requires Rectangular(input)
    ensures numbers == Parts(input, bound)
  {
    numbers := [];
    for row := 0 to |input|
      invariant numbers == PartsBefore(input, row, bound)
    {
      numbers := ScanRow(input, row, numbers, bound);
    }
  }

  /** The nine cells around and at `(row, col)`, row by row. */
  function BlockCells(row: int, col: int): (cells: seq<Pos>)
    ensures |cells| == 9
    ensures forall k :: 0 <= k < 9 ==> cells[k] == Pos(row - 1 + k / 3, col - 1 + k % 3)
  {
    seq(9, k requires 0 <= k < 9 => Pos(row - 1 + k / 3, col - 1 + k % 3))
  }

  /** The numbers found at the cells, each the first time it is found. */
  function Collect(numbers: seq<Number>, cells: seq<Pos>): seq<Number>
  {
    if cells == [] then []
    else
      var last := cells[|cells| - 1];
      var acc := Collect(numbers, cells[..|cells| - 1]);
      match NumberAt(numbers, last.row, last.col)
      case None => acc
      case Some(i) => if i in acc then acc else acc + [i]
  }

  predicate Distinct(found: seq<Number>)
  {
    forall i, j :: 0 <= i < j < |found| ==> found[i] != found[j]
  }

  lemma DistinctAppend(acc: seq<Number>, m: Number)
    requires Distinct(acc) && m !in acc
    ensures Distinct(acc + [m])
  {
    var found := acc + [m];
    forall i, j | 0 <= i < j < |found|
      ensures found[i] != found[j]
    {
      assert found[i] == acc[i];
      if j < |acc| {
        assert found[j] == acc[j];
      }
    }
  }

  /** `Collect` finds each number once, and finds exactly the numbers at the cells. */
  lemma {:induction false} CollectMeaning(numbers: seq<Number>, cells: seq<Pos>)
    ensures Distinct(Collect(numbers, cells))
    ensures forall n :: n in Collect(numbers, cells) <==>
      exists k :: 0 <= k < |cells| && NumberAt(numbers, cells[k].row, cells[k].col) == Some(n)
  {
    if cells != [] {
      var init := cells[..|cells| - 1];
      var last := cells[|cells| - 1];
      CollectMeaning(numbers, init);
      assert forall k :: 0 <= k < |cells| - 1 ==> init[k] == cells[k];
      var acc := Collect(numbers, init);
      match NumberAt(numbers, last.row, last.col)
      case None =>
        assert Collect(numbers, cells) == acc;
      case Some(m) =>
        if m !in acc {
          assert Collect(numbers, cells) == acc + [m];
          DistinctAppend(acc, m);
        } else {
          assert Collect(numbers, cells) == acc;
        }
    }
  }

  /** The distinct numbers around `(row, col)`. */
  function BlockNumbers(numbers: seq<Number>, row: int, col: int): seq<Number>
  {
    Collect(numbers, BlockCells(row, col))
  }

  /** A number is around `(row, col)` exactly when it is the first number covering one of
      the nine cells there. */
  predicate AroundAt(numbers: seq<Number>, row: int, col: int, n: Number)
  {
    exists r, c :: row - 1 <= r <= row + 1 && col - 1 <= c <= col + 1 && NumberAt(numbers, r, c) == Some(n)
  }

  lemma CellOfBlock(row: int, col: int, r: int, c: int) returns (k: nat)
    requires row - 1 <= r <= row + 1 && col - 1 <= c <= col + 1
    ensures k < 9 && BlockCells(row, col)[k] == Pos(r, c)
  {
    k := 3 * (r - row + 1) + (c - col + 1);
    assert k / 3 == r - row + 1 && k % 3 == c - col + 1;
  }

  /** The numbers around `(row, col)` are distinct, and a number is among them exactly when it
      is the first number covering one of the nine cells there. */
  lemma BlockMembership(numbers: seq<Number>, row: int, col: int)
    ensures Distinct(BlockNumbers(numbers, row, col))
    ensures forall n :: n in BlockNumbers(numbers, row, col) <==> AroundAt(numbers, row, col, n)
  {
    var cells := BlockCells(row, col);
    CollectMeaning(numbers, cells);
    forall n
      ensures n in Collect(numbers, cells) <==> AroundAt(numbers, row, col, n)
    {
      if n in Collect(numbers, cells) {
        var k :| 0 <= k < |cells| && NumberAt(numbers, cells[k].row, cells[k].col) == Some(n);
        assert row - 1 <= cells[k].row <= row + 1 && col - 1 <= cells[k].col <= col + 1;
      }
      if AroundAt(numbers, row, col, n) {
        var r, c :| row - 1 <= r <= row + 1 && col - 1 <= c <= col + 1 && NumberAt(numbers, r, c) == Some(n);
        var k := CellOfBlock(row, col, r, c);
        assert NumberAt(numbers, cells[k].row, cells[k].col) == Some(n);
      }
    }
  }

  /** A gear sits at a `*` touched by exactly two distinct numbers, and holds those two. */
  function GearAt(input: seq<string>, numbers: seq<Number>, row: nat, col: nat): Option<Gear>
    requires row < |input| && col < |input[row]|
  {
    var adjacent := BlockNumbers(numbers, row, col);
    if input[row][col] == '*' && |adjacent| == 2 then Some(Gear(adjacent[0], adjacent[1])) else None
  }

  /** A gear is found exactly at a `*` with two distinct numbers around it; its two numbers
      are distinct and are the only numbers found in the nine cells around the `*`. */
  lemma GearAtMeaning(input: seq<string>, numbers: seq<Number>, row: nat, col: nat)
    requires row < |input| && col < |input[row]|
    ensures GearAt(input, numbers, row, col).Some? <==>
      input[row][col] == '*' && |BlockNumbers(numbers, row, col)| == 2
    ensures GearAt(input, numbers, row, col).Some? ==>
      var g := GearAt(input, numbers, row, col).value;
      g.first != g.second &&
      forall n :: (n == g.first || n == g.second) <==> AroundAt(numbers, row, col, n)
  {
    BlockMembership(numbers, row, col);
    var found := BlockNumbers(numbers, row, col);
    if GearAt(input, numbers, row, col).Some? {
      assert found == [found[0], found[1]];
    }
  }

  /** `Gear::ratio`. */
  function Ratio(g: Gear): int
  {
    g.first.number * g.second.number
  }

  /** The gears found in row `row` left of column `n`, left to right. */
  function RowGears(input: seq<string>, numbers: seq<Number>, row: nat, n: nat): seq<Gear>
    requires row < |input| && n <= |input[row]|
  {
    if n == 0 then []
    else
      RowGears(input, numbers, row, n - 1) +
      (match GearAt(input, numbers, row, n - 1) case None => [] case Some(g) => [g])
  }

  /** The gears of the rows above `r`, in row-major order. */
  function GearsBefore(input: seq<string>, numbers: seq<Number>, r: nat): seq<Gear>
    requires r <= |input|
  {
    if r == 0 then [] else GearsBefore(input, numbers, r - 1) + RowGears(input, numbers, r - 1, |input[r - 1]|)
  }

  lemma {:induction false} RowGearsElem(input: seq<string>, numbers: seq<Number>, row: nat, n: nat, i: nat)
    requires row < |input| && n <= |input[row]| && i < |RowGears(input, numbers, row, n)|
    ensures exists c :: 0 <= c < n && GearAt(input, numbers, row, c) == Some(RowGears(input, numbers, row, n)[i])
  {
    if i < |RowGears(input, numbers, row, n - 1)| {
      RowGearsElem(input, numbers, row, n - 1, i);
    }
  }

  /** Each gear found sits at some cell where `GearAt` finds it. */
  lemma {:induction false} GearsBeforeElem(input: seq<string>, numbers: seq<Number>, r: nat, i: nat)
    requires r <= |input| && i < |GearsBefore(input, numbers, r)|
    ensures exists row, c :: (0 <= row < r && 0 <= c < |input[row]| &&
      GearAt(input, numbers, row, c) == Some(GearsBefore(input, numbers, r)[i]))
  {
    var before := GearsBefore(input, numbers, r - 1);
    if i < |before| {
      GearsBeforeElem(input, numbers, r - 1, i);
    } else {
      RowGearsElem(input, numbers, r - 1, |input[r - 1]|, i - |before|);
    }
  }

  lemma {:induction false} RowGearsHas(input: seq<string>, numbers: seq<Number>, row: nat, n: nat, c: nat)
    requires row < |input| && c < n <= |input[row]| && GearAt(input, numbers, row, c).Some?
    ensures GearAt(input, numbers, row, c).value in RowGears(input, numbers, row, n)
  {
    if c < n - 1 {
      RowGearsHas(input, numbers, row, n - 1, c);
    }
  }

  /** Every cell where `GearAt` finds a gear contributes it. */
  lemma {:induction false} GearsBeforeHas(input: seq<string>, numbers: seq<Number>, r: nat, row: nat, c: nat)
    requires row < r <= |input| && c < |input[row]| && GearAt(input, numbers, row, c).Some?
    ensures GearAt(input, numbers, row, c).value in GearsBefore(input, numbers, r)
  {
    if row < r - 1 {
      GearsBeforeHas(input, numbers, r - 1, row, c);
    } else {
      RowGearsHas(input, numbers, row, |input[row]|, c);
    }
  }

  /** The loop over the nine cells around a `*`: the distinct numbers there, in scan order.
      The bounds `max(0, row - 1)` and `min(row + 1, height) + 1` are those of the source; a
      `*` in the first row or column would underflow them. */
  method AdjacentNumbers(input: seq<string>, numbers: seq<Number>, row: nat, col: nat) returns (adjacent: seq<Number>)
    requires row < |input| && col < |input[row]|
    requires row >= 1 && col >= 1
    ensures adjacent == BlockNumbers(numbers, row, col)
  {
    var line := input[row];
    var cells := BlockCells(row, col);
    var rlo := if 0 > row - 1 then 0 else row - 1;
    var rhi := (if row + 1 < |input| then row + 1 else |input|) + 1;
    var clo := if 0 > col - 1 then 0 else col - 1;
    var chi := (if col + 1 < |line| then col + 1 else |line|) + 1;
    assert rlo == row - 1 && rhi == row + 2 && clo == col - 1 && chi == col + 2;
    adjacent := [];
    for r := rlo to rhi
      invariant adjacent == Collect(numbers, cells[..3 * (r - rlo)])
    {
      for c := clo to chi
        invariant adjacent == Collect(numbers, cells[..3 * (r - rlo) + (c - clo)])
      {
        var k := 3 * (r - rlo) + (c - clo);
        assert cells[k] == Pos(r, c);
        assert cells[..k + 1][..k] == cells[..k];
        match NumberAt(numbers, r, c) {
          case Some(i) =>
            if i !in adjacent {
              adjacent := adjacent + [i];
            }
          case None =>
        }
      }
    }
    assert cells[..9] == cells;
  }

  /** No `*` in the first row or the first column. */
  predicate StarsInside(input: seq<string>)
  {
    forall r, c :: 0 <= r < |input| && 0 <= c < |input[r]| && input[r][c] == '*' ==> r >= 1 && c >= 1
  }

  /** The gear the inner loop of `Schema::gears` adds at one cell, if any. */
  method GearCell(input: seq<string>, numbers: seq<Number>, row: nat, col: nat) returns (found: seq<Gear>)
    requires StarsInside(input) && row < |input| && col < |input[row]|
    ensures found == match GearAt(input, numbers, row, col) case None => [] case Some(g) => [g]
    ensures RowGears(input, numbers, row, col + 1) == RowGears(input, numbers, row, col) + found
  {
    found := [];
    if input[row][col] == '*' {
      var adjacent := AdjacentNumbers(input, numbers, row, col);
      if |adjacent| == 2 {
        found := [Gear(adjacent[0], adjacent[1])];
      }
    }
  }

  lemma AppendAssoc(a: seq<Gear>, b: seq<Gear>, c: seq<Gear>)
    ensures a + (b + c) == (a + b) + c
  {
  }

  /** The inner loop of `Schema::gears`, over the cells of one row. */
  method GearsInRow(input: seq<string>, numbers: seq<Number>, row: nat, gears: seq<Gear>) returns (gears': seq<Gear>)
    requires StarsInside(input) && row < |input|
    requires gears == GearsBefore(input, numbers, row)
    ensures gears' == GearsBefore(input, numbers, row + 1)
  {
    gears' := gears;
    var line := input[row];
    for col := 0 to |line|
      invariant gears' == gears + RowGears(input, numbers, row, col)
    {
      var found := GearCell(input, numbers, row, col);
      AppendAssoc(gears, RowGears(input, numbers, row, col), found);
      gears' := gears' + found;
    }
    assert GearsBefore(input, numbers, row + 1) == gears + RowGears(input, numbers, row, |line|);
  }

  /** `Schema::gears`: every `*` touched by exactly two distinct numbers, in row-major order. */
  method Gears(input: seq<string>, numbers: seq<Number>) returns (gears: seq<Gear>)
    requires StarsInside(input)
    ensures gears == GearsBefore(input, numbers, |input|)
  {
    gears := [];
    for row := 0 to |input|
      invariant gears == GearsBefore(input, numbers, row)
    {
      gears := GearsInRow(input, numbers, row, gears);
    }
  }

  /** Every part number the program keeps is one the intended check keeps too. */
  lemma AsWrittenPartsAmongIntended(input: seq<string>, p: Number)
    requires Rectangular(input) && p in Parts(input, AsWritten)
    ensures p in Parts(input, Intended)
  {
    var ps := Parts(input, AsWritten);
    var i :| 0 <= i < |ps| && ps[i] == p;
    PartsBeforeElem(input, |input|, i, AsWritten);
    AsWrittenMissesOnlyRightEdge(input, p);
    PartsBeforeHas(input, |input|, p.pos.row, p.pos.col, Intended);
  }

  /** On the row "1#" the program keeps no part number, so it answers 0 where the intended
      scan keeps the `1`. */
  lemma RightEdgePartDropped()
    ensures Parts(["1#"], AsWritten) == []
    ensures Parts(["1#"], Intended) == [Number(1, Pos(0, 0), 1)]
  {
    var input := ["1#"];
    RightEdgeMissed();
    assert RunLength(input[0], 1) == 0;
    assert RunLength(input[0], 0) == 1;
    assert input[0][0..1] == "1" && Decimal("1") == 10 * Decimal("") + DigitValue('1');
    assert RunAt(input, 0, 0) == Number(1, Pos(0, 0), 1);
    assert !Kept(input, 0, 1, AsWritten) && !Kept(input, 0, 1, Intended);
  }

  /** `Schema::from`: the part numbers, and the gears among them. */
  method SchemaFrom(input: seq<string>) returns (numbers: seq<Number>, gears: seq<Gear>)
    requires Rectangular(input) && StarsInside(input)
    ensures numbers == Parts(input, AsWritten)
    ensures gears == GearsBefore(input, Parts(input, AsWritten), |input|)
  {
    numbers := PartNumbers(input, AsWritten);
    gears := Gears(input, numbers);
  }

  /** The first printed answer: the sum of the part numbers. */
  function PartSum(numbers: seq<Number>): int
  {
    Sum(seq(|numbers|, i requires 0 <= i < |numbers| => numbers[i].number))
  }

  /** The second printed answer: the sum of the gear ratios. */
  function RatioSum(gears: seq<Gear>): int
  {
    Sum(seq(|gears|, i requires 0 <= i < |gears| => Ratio(gears[i])))
  }

  /** Part numbers are read from digits only, so their sum is never negative. */
  lemma PartSumNonNegative(input: seq<string>, bound: Bound)
    requires Rectangular(input)
    ensures PartSum(Parts(input, bound)) >= 0
  {
    var ps := Parts(input, bound);
    var values := seq(|ps|, i requires 0 <= i < |ps| => ps[i].number);
    forall i | 0 <= i < |values|
      ensures values[i] >= 0
    {
      PartsBeforeElem(input, |input|, i, bound);
    }
    SumNonNegative(values);
  }

  /** A gear holds two of the numbers it was looked up among. */
  lemma GearFromNumbers(input: seq<string>, numbers: seq<Number>, i: nat)
    requires i < |GearsBefore(input, numbers, |input|)|
    ensures GearsBefore(input, numbers, |input|)[i].first in numbers
    ensures GearsBefore(input, numbers, |input|)[i].second in numbers
  {
    var g := GearsBefore(input, numbers, |input|)[i];
    GearsBeforeElem(input, numbers, |input|, i);
    var row, c :| 0 <= row < |input| && 0 <= c < |input[row]| && GearAt(input, numbers, row, c) == Some(g);
    GearAtMeaning(input, numbers, row, c);
    assert AroundAt(numbers, row, c, g.first) && AroundAt(numbers, row, c, g.second);
    var r1, c1 :| NumberAt(numbers, r1, c1) == Some(g.first);
    NumberAtMeaning(numbers, r1, c1);
    var r2, c2 :| NumberAt(numbers, r2, c2) == Some(g.second);
    NumberAtMeaning(numbers, r2, c2);
  }

  lemma PartNonNegative(input: seq<string>, p: Number, bound: Bound)
    requires Rectangular(input) && p in Parts(input, bound)
    ensures p.number >= 0
  {
    var ps := Parts(input, bound);
    var i :| 0 <= i < |ps| && ps[i] == p;
    PartsBeforeElem(input, |input|, i, bound);
  }

  /** The gears of the schematic pair part numbers, so their ratios sum to at least zero. */
  lemma RatioSumNonNegative(input: seq<string>, bound: Bound)
    requires Rectangular(input)
    ensures RatioSum(GearsBefore(input, Parts(input, bound), |input|)) >= 0
  {
    var ps := Parts(input, bound);
    var gears := GearsBefore(input, ps, |input|);
    var ratios := seq(|gears|, i requires 0 <= i < |gears| => Ratio(gears[i]));
    forall i | 0 <= i < |ratios|
      ensures ratios[i] >= 0
    {
      GearFromNumbers(input, ps, i);
      var g := gears[i];
      PartNonNegative(input, g.first, bound);
      PartNonNegative(input, g.second, bound);
      var a, b := g.first.number, g.second.number;
      Arith.ProductNonNegative(a, b);
      assert ratios[i] == a * b;
    }
    SumNonNegative(ratios);
  }
}
