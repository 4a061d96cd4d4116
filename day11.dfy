/** Day 11: cosmic expansion. Every row and column without a galaxy grows by a factor, and the
    answer is the sum of the Manhattan distances between all pairs of expanded galaxies. */
module Day11 {
  import opened Common
  import Arith

  datatype Tile = Empty | Galaxy

  /** `Tile::new`. */
  function TileNew(c: char): (t: Tile)
    requires c == '.' || c == '#'
    ensures t == Galaxy <==> c == '#'
  {
    if c == '.' then Empty else Galaxy
  }

  type Pos = (int, int)

  /** What `Image::new` unwraps: every character a tile. */
  predicate ImageLines(input: seq<string>)
  {
    forall y, x :: 0 <= y < |input| && 0 <= x < |input[y]| ==> input[y][x] == '.' || input[y][x] == '#'
  }

  datatype Image = Image(tiles: seq<seq<Tile>>, galaxies: seq<Pos>)

  /** The tiles of a line. */
  function TileRow(line: string): (r: seq<Tile>)
    requires forall x :: 0 <= x < |line| ==> line[x] == '.' || line[x] == '#'
    ensures |r| == |line| && forall x :: 0 <= x < |line| ==> r[x] == TileNew(line[x])
  {
    if line == [] then [] else TileRow(line[..|line| - 1]) + [TileNew(line[|line| - 1])]
  }

  /** The galaxies among the first `n` tiles of row `y`, left to right. */
  function RowGalaxies(row: seq<Tile>, y: int, n: nat): seq<Pos>
    requires n <= |row|
  {
    if n == 0 then [] else RowGalaxies(row, y, n - 1) + (if row[n - 1] == Galaxy then [(n - 1, y)] else [])
  }

  /** The galaxies of the first `n` rows in reading order. */
  function GalaxiesIn(g: seq<seq<Tile>>, n: nat): seq<Pos>
    requires n <= |g|
  {
    if n == 0 then [] else GalaxiesIn(g, n - 1) + RowGalaxies(g[n - 1], n - 1, |g[n - 1]|)
  }

  /** `Image::new`: the tiles of every line, and the galaxies in reading order. */
  method ImageNew(input: seq<string>) returns (img: Image)
    requires ImageLines(input)
    ensures |img.tiles| == |input| && forall y :: 0 <= y < |input| ==> img.tiles[y] == TileRow(input[y])
    ensures img.galaxies == GalaxiesIn(img.tiles, |img.tiles|)
  {
    var galaxies: seq<Pos> := [];
    var tiles: seq<seq<Tile>> := [];
    for y := 0 to |input|
      invariant |tiles| == y && forall k :: 0 <= k < y ==> tiles[k] == TileRow(input[k])
      invariant galaxies == GalaxiesIn(tiles, y)
    {
      var line, found := ReadLine(input[y], y);
      galaxies := galaxies + found;
      GalaxiesInPrefix(tiles, line, y);
      tiles := tiles + [line];
    }
    img := Image(tiles, galaxies);
  }

  /** The inner loop of `Image::new`: the tiles of line `y` and the galaxies on it. */
  method ReadLine(input: string, y: int) returns (line: seq<Tile>, galaxies: seq<Pos>)
    requires forall x :: 0 <= x < |input| ==> input[x] == '.' || input[x] == '#'
    ensures line == TileRow(input) && galaxies == RowGalaxies(line, y, |line|)
  {
    line := [];
    galaxies := [];
    for x := 0 to |input|
      invariant line == TileRow(input[..x])
      invariant galaxies == RowGalaxies(line, y, x)
    {
      var cur := TileNew(input[x]);
      if cur == Galaxy {
        galaxies := galaxies + [(x, y)];
      }
      assert input[..x + 1][..x] == input[..x];
      RowGalaxiesExtend(line, cur, y, x);
      line := line + [cur];
    }
    assert input[..|input|] == input;
  }

  lemma {:induction false} RowGalaxiesExtend(row: seq<Tile>, t: Tile, y: int, n: nat)
    requires n == |row|
    ensures RowGalaxies(row + [t], y, n + 1) == RowGalaxies(row, y, n) + (if t == Galaxy then [(n, y)] else [])
  {
    RowGalaxiesPrefix(row, [t], y, n);
  }

  lemma {:induction false} RowGalaxiesPrefix(row: seq<Tile>, more: seq<Tile>, y: int, n: nat)
    requires n <= |row|
    ensures RowGalaxies(row + more, y, n) == RowGalaxies(row, y, n)
  {
    if n > 0 {
      RowGalaxiesPrefix(row, more, y, n - 1);
    }
  }

  lemma {:induction false} GalaxiesInPrefix(g: seq<seq<Tile>>, row: seq<Tile>, n: nat)
    requires n == |g|
    ensures GalaxiesIn(g + [row], n + 1) == GalaxiesIn(g, n) + RowGalaxies(row, n, |row|)
  {
    GalaxiesInUnchanged(g, [row], n);
    assert (g + [row])[n] == row;
  }

  lemma {:induction false} GalaxiesInUnchanged(g: seq<seq<Tile>>, more: seq<seq<Tile>>, n: nat)
    requires n <= |g|
    ensures GalaxiesIn(g + more, n) == GalaxiesIn(g, n)
  {
    if n > 0 {
      GalaxiesInUnchanged(g, more, n - 1);
      assert (g + more)[n - 1] == g[n - 1];
    }
  }

  /** A position is listed in a row exactly when a galaxy stands there. */
  lemma {:induction false} RowGalaxiesExact(row: seq<Tile>, y: int, n: nat, p: Pos)
    requires n <= |row|
    ensures p in RowGalaxies(row, y, n) <==> p.1 == y && 0 <= p.0 < n && row[p.0] == Galaxy
  {
    if n > 0 {
      RowGalaxiesExact(row, y, n - 1, p);
    }
  }

  /** `Image::new` lists exactly the `#` cells. */
  lemma {:induction false} GalaxiesExact(g: seq<seq<Tile>>, n: nat, p: Pos)
    requires n <= |g|
    ensures p in GalaxiesIn(g, n) <==> 0 <= p.1 < n && 0 <= p.0 < |g[p.1]| && g[p.1][p.0] == Galaxy
  {
    if n > 0 {
      GalaxiesExact(g, n - 1, p);
      RowGalaxiesExact(g[n - 1], n - 1, |g[n - 1]|, p);
    }
  }

  /** Reading order: row first, then column. */
  predicate Before(p: Pos, q: Pos)
  {
    p.1 < q.1 || (p.1 == q.1 && p.0 < q.0)
  }

  predicate InReadingOrder(s: seq<Pos>)
  {
    forall i, j :: 0 <= i < j < |s| ==> Before(s[i], s[j])
  }

  lemma {:induction false} RowGalaxiesOrdered(row: seq<Tile>, y: int, n: nat)
    requires n <= |row|
    ensures InReadingOrder(RowGalaxies(row, y, n))
    ensures forall k :: 0 <= k < |RowGalaxies(row, y, n)| ==> RowGalaxies(row, y, n)[k].1 == y && RowGalaxies(row, y, n)[k].0 < n
  {
    if n > 0 {
      RowGalaxiesOrdered(row, y, n - 1);
    }
  }

  /** The galaxies are listed in strict reading order. */
  lemma {:induction false} GalaxiesOrdered(g: seq<seq<Tile>>, n: nat)
    requires n <= |g|
    ensures InReadingOrder(GalaxiesIn(g, n))
    ensures forall k :: 0 <= k < |GalaxiesIn(g, n)| ==> GalaxiesIn(g, n)[k].1 < n
  {
    if n > 0 {
      GalaxiesOrdered(g, n - 1);
      RowGalaxiesOrdered(g[n - 1], n - 1, |g[n - 1]|);
      OrderedAppend(GalaxiesIn(g, n - 1), RowGalaxies(g[n - 1], n - 1, |g[n - 1]|), n - 1);
    }
  }

  /** Positions above row `y` in reading order, then positions of row `y` in reading order, are
      in reading order. */
  lemma OrderedAppend(a: seq<Pos>, b: seq<Pos>, y: int)
    requires InReadingOrder(a) && InReadingOrder(b)
    requires forall k :: 0 <= k < |a| ==> a[k].1 < y
    requires forall k :: 0 <= k < |b| ==> b[k].1 == y
    ensures InReadingOrder(a + b)
    ensures forall k :: 0 <= k < |a + b| ==> (a + b)[k].1 < y + 1
  {
    var s := a + b;
    forall i, j | 0 <= i < j < |s|
      ensures Before(s[i], s[j])
    {
      if j < |a| {
        assert s[i] == a[i] && s[j] == a[j];
      } else if i < |a| {
        assert s[i] == a[i] && s[j] == b[j - |a|];
      } else {
        assert s[i] == b[i - |a|] && s[j] == b[j - |a|];
      }
    }
  }

  /** `Image::at`: the tile at a position, none outside the grid. */
  function At(g: seq<seq<Tile>>, p: Pos): (r: Option<Tile>)
    requires Rectangular(g)
    ensures r.None? <==> p.0 < 0 || p.1 < 0 || p.0 >= |g[0]| || p.1 >= |g|
    ensures r.Some? ==> r.value == g[p.1][p.0]
  {
    if p.0 < 0 || p.1 < 0 || p.0 >= |g[0]| || p.1 >= |g| then None else Some(g[p.1][p.0])
  }

  /** `Image::size`: the width and the height. */
  function Size(g: seq<seq<Tile>>): (r: (int, int))
    requires Rectangular(g)
    ensures r.0 >= 0 && r.1 >= 1
    ensures forall p: Pos :: At(g, p).Some? <==> 0 <= p.0 < r.0 && 0 <= p.1 < r.1
  {
    (|g[0]|, |g|)
  }

  predicate EmptyRow(g: seq<seq<Tile>>, y: int)
    requires Rectangular(g) && 0 <= y < |g|
  {
    forall x :: 0 <= x < |g[0]| ==> g[y][x] != Galaxy
  }

  predicate EmptyCol(g: seq<seq<Tile>>, x: int)
    requires Rectangular(g) && 0 <= x < |g[0]|
  {
    forall y :: 0 <= y < |g| ==> g[y][x] != Galaxy
  }

  /** The first loop of `expanded_galaxies`: the rows holding no galaxy. */
  method EmptyRows(g: seq<seq<Tile>>) returns (emptyRows: set<int>)
    requires Rectangular(g)
    ensures forall y :: y in emptyRows <==> 0 <= y < |g| && EmptyRow(g, y)
  {
    emptyRows := {};
    var size := Size(g);
    for y := 0 to size.1
      invariant forall r :: r in emptyRows <==> 0 <= r < y && EmptyRow(g, r)
    {
      var empty := true;
      var x := 0;
      while x < size.0
        invariant 0 <= x <= size.0
        invariant empty <==> forall c :: 0 <= c < x ==> g[y][c] != Galaxy
      {
        if At(g, (x, y)) == Some(Galaxy) {
          empty := false;
          break;
        }
        x := x + 1;
      }
      if empty {
        emptyRows := emptyRows + {y};
      }
    }
  }

  /** The second loop: the columns holding no galaxy. */
  method EmptyCols(g: seq<seq<Tile>>) returns (emptyCols: set<int>)
    requires Rectangular(g)
    ensures forall x :: x in emptyCols <==> 0 <= x < |g[0]| && EmptyCol(g, x)
  {
    emptyCols := {};
    var size := Size(g);
    for x := 0 to size.0
      invariant forall c :: c in emptyCols <==> 0 <= c < x && EmptyCol(g, c)
    {
      var empty := true;
      var y := 0;
      while y < size.1
        invariant 0 <= y <= size.1
        invariant empty <==> forall r :: 0 <= r < y ==> g[r][x] != Galaxy
      {
        if At(g, (x, y)) == Some(Galaxy) {
          empty := false;
          break;
        }
        y := y + 1;
      }
      if empty {
        emptyCols := emptyCols + {x};
      }
    }
  }

  /** The number of empty rows above row `n`. */
  function EmptyRowsBefore(g: seq<seq<Tile>>, n: int): nat
    requires Rectangular(g)
    decreases if n > |g| then |g| + 1 else n
  {
    if n <= 0 then 0 else if n > |g| then EmptyRowsBefore(g, |g|) else EmptyRowsBefore(g, n - 1) + (if EmptyRow(g, n - 1) then 1 else 0)
  }

  /** The number of empty columns left of column `n`. */
  function EmptyColsBefore(g: seq<seq<Tile>>, n: int): nat
    requires Rectangular(g)
    decreases if n > |g[0]| then |g[0]| + 1 else n
  {
    if n <= 0 then 0 else if n > |g[0]| then EmptyColsBefore(g, |g[0]|) else EmptyColsBefore(g, n - 1) + (if EmptyCol(g, n - 1) then 1 else 0)
  }

  /** Where a galaxy moves: right by `expansion - 1` for each empty column up to its own, down by
      `expansion - 1` for each empty row above it. */
  function Expand(g: seq<seq<Tile>>, expansion: int, p: Pos): Pos
    requires Rectangular(g)
  {
    (p.0 + EmptyColsBefore(g, p.0 + 1) * (expansion - 1), p.1 + EmptyRowsBefore(g, p.1) * (expansion - 1))
  }

  function ExpandAll(g: seq<seq<Tile>>, expansion: int, s: seq<Pos>): (r: seq<Pos>)
    requires Rectangular(g)
    ensures |r| == |s|
  {
    if s == [] then [] else ExpandAll(g, expansion, s[..|s| - 1]) + [Expand(g, expansion, s[|s| - 1])]
  }

  /** One entry per galaxy, in the same order: entry `k` is galaxy `k`, moved. */
  lemma {:induction false} ExpandAllAt(g: seq<seq<Tile>>, expansion: int, s: seq<Pos>, k: int)
    requires Rectangular(g) && 0 <= k < |s|
    ensures ExpandAll(g, expansion, s)[k] == Expand(g, expansion, s[k])
  {
    if k < |s| - 1 {
      ExpandAllAt(g, expansion, s[..|s| - 1], k);
    }
  }

  /** The galaxies of the whole grid, each moved by the expansion. */
  function ExpandedSpec(g: seq<seq<Tile>>, expansion: int): seq<Pos>
    requires Rectangular(g)
  {
    ExpandAll(g, expansion, GalaxiesIn(g, |g|))
  }

  /** `expanded_galaxies`: the galaxies in reading order, each moved by the expansion. */
  method ExpandedGalaxies(g: seq<seq<Tile>>, expansion: int) returns (res: seq<Pos>)
    requires Rectangular(g)
    ensures res == ExpandedSpec(g, expansion)
  {
    var emptyRows := EmptyRows(g);
    var emptyCols := EmptyCols(g);
    res := [];
    var expandedRows := 0;
    var size := Size(g);
    for y := 0 to size.1
      invariant expandedRows == EmptyRowsBefore(g, y)
      invariant res == ExpandAll(g, expansion, GalaxiesIn(g, y))
    {
      var moved := ExpandLine(g, expansion, emptyCols, y, expandedRows);
      ExpandAllAppend(g, expansion, GalaxiesIn(g, y), RowGalaxies(g[y], y, |g[y]|));
      res := res + moved;
      RowsBeforeStep(g, emptyRows, y);
      if y in emptyRows {
        expandedRows := expandedRows + 1;
      }
    }
  }

  /** The count of empty rows goes up by one at each row in `emptyRows`. */
  lemma RowsBeforeStep(g: seq<seq<Tile>>, emptyRows: set<int>, y: int)
    requires Rectangular(g) && 0 <= y < |g|
    requires forall y :: y in emptyRows <==> 0 <= y < |g| && EmptyRow(g, y)
    ensures EmptyRowsBefore(g, y + 1) == EmptyRowsBefore(g, y) + (if y in emptyRows then 1 else 0)
  {
  }

  /** The inner loop of `expanded_galaxies`: the galaxies of row `y`, moved. The column counter
      grows before the tile is looked at, so a galaxy counts the empty columns up to its own. */
  method ExpandLine(g: seq<seq<Tile>>, expansion: int, emptyCols: set<int>, y: int, expandedRows: int)
      returns (moved: seq<Pos>)
    requires Rectangular(g) && 0 <= y < |g|
    requires forall x :: x in emptyCols <==> 0 <= x < |g[0]| && EmptyCol(g, x)
    requires expandedRows == EmptyRowsBefore(g, y)
    ensures moved == ExpandAll(g, expansion, RowGalaxies(g[y], y, |g[y]|))
  {
    moved := [];
    var expandedCols := 0;
    for x := 0 to |g[0]|
      invariant expandedCols == EmptyColsBefore(g, x)
      invariant moved == ExpandAll(g, expansion, RowGalaxies(g[y], y, x))
    {
      if x in emptyCols {
        expandedCols := expandedCols + 1;
      }
      ColsBeforeStep(g, emptyCols, x);
      ExpandLineStep(g, expansion, y, x);
      var p := (x + expandedCols * (expansion - 1), y + expandedRows * (expansion - 1));
      ExpandAtCounters(g, expansion, x, y, expandedCols, expandedRows);
      if At(g, (x, y)) == Some(Galaxy) {
        moved := moved + [p];
      }
    }
  }

  /** The count of empty columns goes up by one at each column in `emptyCols`. */
  lemma ColsBeforeStep(g: seq<seq<Tile>>, emptyCols: set<int>, x: int)
    requires Rectangular(g) && 0 <= x < |g[0]|
    requires forall x :: x in emptyCols <==> 0 <= x < |g[0]| && EmptyCol(g, x)
    ensures EmptyColsBefore(g, x + 1) == EmptyColsBefore(g, x) + (if x in emptyCols then 1 else 0)
  {
  }

  lemma ExpandAtCounters(g: seq<seq<Tile>>, expansion: int, x: int, y: int, cols: int, rows: int)
    requires Rectangular(g) && cols == EmptyColsBefore(g, x + 1) && rows == EmptyRowsBefore(g, y)
    ensures Expand(g, expansion, (x, y)) == (x + cols * (expansion - 1), y + rows * (expansion - 1))
  {
  }

  lemma ExpandLineStep(g: seq<seq<Tile>>, expansion: int, y: int, x: int)
    requires Rectangular(g) && 0 <= y < |g| && 0 <= x < |g[0]|
    ensures ExpandAll(g, expansion, RowGalaxies(g[y], y, x + 1)) ==
      ExpandAll(g, expansion, RowGalaxies(g[y], y, x)) + (if g[y][x] == Galaxy then [Expand(g, expansion, (x, y))] else [])
  {
    var more := if g[y][x] == Galaxy then [(x, y)] else [];
    assert RowGalaxies(g[y], y, x + 1) == RowGalaxies(g[y], y, x) + more;
    ExpandAllAppend(g, expansion, RowGalaxies(g[y], y, x), more);
  }

  lemma ExpandAllAppend(g: seq<seq<Tile>>, expansion: int, a: seq<Pos>, b: seq<Pos>)
    requires Rectangular(g)
    ensures ExpandAll(g, expansion, a + b) == ExpandAll(g, expansion, a) + ExpandAll(g, expansion, b)
    decreases |b|
  {
    if b != [] {
      assert (a + b)[..|a + b| - 1] == a + b[..|b| - 1];
      ExpandAllAppend(g, expansion, a, b[..|b| - 1]);
    } else {
      assert a + b == a;
    }
  }

  /** With no expansion every galaxy stays where it is. */
  lemma ExpansionOne(g: seq<seq<Tile>>)
    requires Rectangular(g)
    ensures ExpandedSpec(g, 1) == GalaxiesIn(g, |g|)
  {
    ExpandOneAll(g, GalaxiesIn(g, |g|));
  }

  lemma {:induction false} ExpandOneAll(g: seq<seq<Tile>>, s: seq<Pos>)
    requires Rectangular(g)
    ensures ExpandAll(g, 1, s) == s
  {
    if s != [] {
      ExpandOneAll(g, s[..|s| - 1]);
    }
  }

  /** `distance`: the Manhattan distance. */
  function Distance(a: Pos, b: Pos): int
  {
    Arith.Abs(a.0 - b.0) + Arith.Abs(a.1 - b.1)
  }

  /** The distance is a metric: non-negative, zero exactly between equal points, symmetric, and
      never longer than a detour. */
  lemma DistanceMetric(a: Pos, b: Pos, c: Pos)
    ensures Distance(a, b) >= 0 && (Distance(a, b) == 0 <==> a == b)
    ensures Distance(a, b) == Distance(b, a)
    ensures Distance(a, c) <= Distance(a, b) + Distance(b, c)
  {
  }

  lemma {:induction false} EmptyColsMonotone(g: seq<seq<Tile>>, m: int, n: int)
    requires Rectangular(g) && m <= n <= |g[0]|
    ensures EmptyColsBefore(g, m) <= EmptyColsBefore(g, n)
    decreases n - m
  {
    if m < n {
      EmptyColsMonotone(g, m, n - 1);
    }
  }

  lemma {:induction false} EmptyRowsMonotone(g: seq<seq<Tile>>, m: int, n: int)
    requires Rectangular(g) && m <= n <= |g|
    ensures EmptyRowsBefore(g, m) <= EmptyRowsBefore(g, n)
    decreases n - m
  {
    if m < n {
      EmptyRowsMonotone(g, m, n - 1);
    }
  }

  /** The empty columns strictly between two columns, and the empty rows strictly between two
      rows. */
  function ColsBetween(g: seq<seq<Tile>>, a: int, b: int): int
    requires Rectangular(g) && 0 <= a < |g[0]| && 0 <= b < |g[0]|
  {
    if a < b then EmptyColsBefore(g, b) - EmptyColsBefore(g, a + 1)
    else if b < a then EmptyColsBefore(g, a) - EmptyColsBefore(g, b + 1)
    else 0
  }

  function RowsBetween(g: seq<seq<Tile>>, a: int, b: int): int
    requires Rectangular(g) && 0 <= a < |g| && 0 <= b < |g|
  {
    if a < b then EmptyRowsBefore(g, b) - EmptyRowsBefore(g, a + 1)
    else if b < a then EmptyRowsBefore(g, a) - EmptyRowsBefore(g, b + 1)
    else 0
  }

  lemma ScaledDifference(x: int, y: int, cx: int, cy: int, f: int)
    requires x <= y && cx <= cy && f >= 0
    ensures Arith.Abs((y + cy * f) - (x + cx * f)) == (y - x) + (cy - cx) * f
  {
    assert (cy - cx) * f >= 0;
    assert (y + cy * f) - (x + cx * f) == (y - x) + (cy - cx) * f;
  }

  /** Expansion stretches the one coordinate of two galaxies apart by `expansion - 1` for each
      empty column between them. */
  lemma ExpandedColumns(g: seq<seq<Tile>>, expansion: int, p: Pos, q: Pos)
    requires Rectangular(g) && expansion >= 1
    requires 0 <= p.0 < |g[0]| && 0 <= p.1 < |g| && g[p.1][p.0] == Galaxy
    requires 0 <= q.0 < |g[0]| && 0 <= q.1 < |g| && g[q.1][q.0] == Galaxy
    ensures Arith.Abs(Expand(g, expansion, p).0 - Expand(g, expansion, q).0) == Arith.Abs(p.0 - q.0) + ColsBetween(g, p.0, q.0) * (expansion - 1)
  {
    assert !EmptyCol(g, p.0) && !EmptyCol(g, q.0);
    if p.0 < q.0 {
      EmptyColsMonotone(g, p.0 + 1, q.0);
      ScaledDifference(p.0, q.0, EmptyColsBefore(g, p.0 + 1), EmptyColsBefore(g, q.0 + 1), expansion - 1);
    } else if q.0 < p.0 {
      EmptyColsMonotone(g, q.0 + 1, p.0);
      ScaledDifference(q.0, p.0, EmptyColsBefore(g, q.0 + 1), EmptyColsBefore(g, p.0 + 1), expansion - 1);
    }
  }

  /** And the other coordinate by `expansion - 1` for each empty row between them. */
  lemma ExpandedRows(g: seq<seq<Tile>>, expansion: int, p: Pos, q: Pos)
    requires Rectangular(g) && expansion >= 1
    requires 0 <= p.0 < |g[0]| && 0 <= p.1 < |g| && g[p.1][p.0] == Galaxy
    requires 0 <= q.0 < |g[0]| && 0 <= q.1 < |g| && g[q.1][q.0] == Galaxy
    ensures Arith.Abs(Expand(g, expansion, p).1 - Expand(g, expansion, q).1) == Arith.Abs(p.1 - q.1) + RowsBetween(g, p.1, q.1) * (expansion - 1)
  {
    assert !EmptyRow(g, p.1) && !EmptyRow(g, q.1);
    if p.1 < q.1 {
      EmptyRowsMonotone(g, p.1 + 1, q.1);
      ScaledDifference(p.1, q.1, EmptyRowsBefore(g, p.1), EmptyRowsBefore(g, q.1), expansion - 1);
    } else if q.1 < p.1 {
      EmptyRowsMonotone(g, q.1 + 1, p.1);
      ScaledDifference(q.1, p.1, EmptyRowsBefore(g, q.1), EmptyRowsBefore(g, p.1), expansion - 1);
    }
  }

  /** The distance between two expanded galaxies: the old distance plus `expansion - 1` for
      every empty row and every empty column between them. */
  lemma ExpandedDistance(g: seq<seq<Tile>>, expansion: int, p: Pos, q: Pos)
    requires Rectangular(g) && expansion >= 1
    requires 0 <= p.0 < |g[0]| && 0 <= p.1 < |g| && g[p.1][p.0] == Galaxy
    requires 0 <= q.0 < |g[0]| && 0 <= q.1 < |g| && g[q.1][q.0] == Galaxy
    ensures Distance(Expand(g, expansion, p), Expand(g, expansion, q)) ==
      Distance(p, q) + (ColsBetween(g, p.0, q.0) + RowsBetween(g, p.1, q.1)) * (expansion - 1)
  {
    ExpandedColumns(g, expansion, p, q);
    ExpandedRows(g, expansion, p, q);
  }

  /** The distances from galaxy `i` to the galaxies after it and before `j`. */
  function RowTo(s: seq<Pos>, i: nat, j: nat): int
    requires i < |s| && j <= |s|
  {
    if j <= i + 1 then 0 else RowTo(s, i, j - 1) + Distance(s[i], s[j - 1])
  }

  /** The sum `main` prints, over the pairs whose first galaxy comes before `n`. */
  function PairSum(s: seq<Pos>, n: nat): int
    requires n <= |s|
  {
    if n == 0 then 0 else PairSum(s, n - 1) + RowTo(s, n - 1, |s|)
  }

  /** The pairwise loops of `main`, adding each distance as it is pushed. */
  method PairwiseSum(galaxies: seq<Pos>) returns (total: int)
    ensures total == PairSum(galaxies, |galaxies|)
  {
    total := 0;
    for first := 0 to |galaxies|
      invariant total == PairSum(galaxies, first)
    {
      var row := 0;
      for second := first + 1 to |galaxies|
        invariant row == RowTo(galaxies, first, second)
      {
        row := row + Distance(galaxies[first], galaxies[second]);
      }
      total := total + row;
    }
  }

  /** The distances from a new galaxy to the ones before it. */
  function ToAll(s: seq<Pos>, p: Pos): int
  {
    if s == [] then 0 else ToAll(s[..|s| - 1], p) + Distance(s[|s| - 1], p)
  }

  /** An independent reading of the pairwise sum: each galaxy brings its distances to those
      listed before it. */
  function PairSumRef(s: seq<Pos>): int
  {
    if s == [] then 0 else PairSumRef(s[..|s| - 1]) + ToAll(s[..|s| - 1], s[|s| - 1])
  }

  lemma {:induction false} RowToUnchanged(s: seq<Pos>, p: Pos, i: nat, j: nat)
    requires i < |s| && j <= |s|
    ensures RowTo(s + [p], i, j) == RowTo(s, i, j)
  {
    if j > i + 1 {
      RowToUnchanged(s, p, i, j - 1);
      assert (s + [p])[j - 1] == s[j - 1] && (s + [p])[i] == s[i];
    }
  }

  lemma {:induction false} PairSumAppend(s: seq<Pos>, p: Pos, n: nat)
    requires n <= |s|
    ensures PairSum(s + [p], n) == PairSum(s, n) + ToAll(s[..n], p)
  {
    if n > 0 {
      PairSumAppend(s, p, n - 1);
      RowToUnchanged(s, p, n - 1, |s|);
      assert (s + [p])[|s|] == p && (s + [p])[n - 1] == s[n - 1];
      assert s[..n][..n - 1] == s[..n - 1];
    }
  }

  /** The sum of `main` over all pairs is the reference sum. */
  lemma {:induction false} PairSumMatches(s: seq<Pos>)
    ensures PairSum(s, |s|) == PairSumRef(s)
  {
    if s != [] {
      var t, p := s[..|s| - 1], s[|s| - 1];
      assert s == t + [p];
      PairSumMatches(t);
      PairSumAppend(t, p, |t|);
      assert t[..|t|] == t;
    }
  }

  /** Every pairwise sum is non-negative. */
  lemma {:induction false} PairSumRefNonNegative(s: seq<Pos>)
    ensures PairSumRef(s) >= 0
  {
    if s != [] {
      PairSumRefNonNegative(s[..|s| - 1]);
      ToAllNonNegative(s[..|s| - 1], s[|s| - 1]);
    }
  }

  lemma {:induction false} ToAllNonNegative(s: seq<Pos>, p: Pos)
    ensures ToAll(s, p) >= 0
  {
    if s != [] {
      ToAllNonNegative(s[..|s| - 1], p);
    }
  }
}
