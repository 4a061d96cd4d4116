/** Day 13: point of incidence. A pattern of ash and rocks mirrors itself between two rows or
    two columns; with one smudge repaired it mirrors somewhere else. */
module Day13 {
  import opened Common

  datatype Reflection = Horizontal(index: int) | Vertical(index: int)

  /** `Reflection::value`: a hundred per row above a horizontal mirror, one per column left of a
      vertical one. */
  function Value(r: Reflection): (v: int)
    ensures r.Horizontal? ==> v == 100 * r.index
    ensures r.Vertical? ==> v == r.index
  {
    match r
    case Horizontal(i) => i * 100
    case Vertical(i) => i * 1
  }

  datatype Tile = Ash | Rock

  /** `Tile::new`. */
  function TileNew(c: char): (t: Tile)
    requires c == '.' || c == '#'
    ensures t == Rock <==> c == '#'
  {
    if c == '.' then Ash else Rock
  }

  /** `Tile::flipped`: the other tile. */
  function Flipped(t: Tile): (r: Tile)
    ensures r != t
  {
    match t
    case Ash => Rock
    case Rock => Ash
  }

  /** Flipping twice changes nothing. */
  lemma FlippedInvolution(t: Tile)
    ensures Flipped(Flipped(t)) == t
  {
  }

  datatype Pattern = Pattern(rows: seq<seq<Tile>>)

  function TileRow(line: string): (r: seq<Tile>)
    requires forall k :: 0 <= k < |line| ==> line[k] == '.' || line[k] == '#'
    ensures |r| == |line| && forall k :: 0 <= k < |line| ==> r[k] == TileNew(line[k])
  {
    if line == [] then [] else TileRow(line[..|line| - 1]) + [TileNew(line[|line| - 1])]
  }

  predicate PatternLines(input: seq<string>)
  {
    forall y, k :: 0 <= y < |input| && 0 <= k < |input[y]| ==> input[y][k] == '.' || input[y][k] == '#'
  }

  /** `Pattern::new`: one row of tiles per line. */
  function PatternNew(input: seq<string>): (p: Pattern)
    requires PatternLines(input)
    ensures |p.rows| == |input| && forall y :: 0 <= y < |input| ==> p.rows[y] == TileRow(input[y])
  {
    if input == [] then Pattern([])
    else Pattern(PatternNew(input[..|input| - 1]).rows + [TileRow(input[|input| - 1])])
  }

  /** What `size` and `col` assume: at least one row, and every row as wide as the first. */
  predicate Rectangular(p: Pattern)
  {
    Common.Rectangular(p.rows)
  }

  function Width(p: Pattern): nat
    requires Rectangular(p)
  {
    |p.rows[0]|
  }

  function Height(p: Pattern): nat
  {
    |p.rows|
  }

  /** Lines counted from one, and none outside. */
  function Lookup(lines: seq<seq<Tile>>, i: int): (r: Option<seq<Tile>>)
    ensures r.None? <==> i < 1 || i > |lines|
    ensures r.Some? ==> r.value == lines[i - 1]
  {
    if i < 1 || i > |lines| then None else Some(lines[i - 1])
  }

  /** The columns of the pattern, left to right, each read top to bottom. */
  function Columns(p: Pattern): (c: seq<seq<Tile>>)
    requires Rectangular(p)
    ensures |c| == Width(p)
    ensures forall x :: 0 <= x < Width(p) ==> |c[x]| == Height(p)
    ensures forall x, y :: 0 <= x < Width(p) && 0 <= y < Height(p) ==> c[x][y] == p.rows[y][x]
  {
    seq(Width(p), x requires 0 <= x < Width(p) => seq(Height(p), y requires 0 <= y < Height(p) => p.rows[y][x]))
  }

  /** `Pattern::row`. */
  function RowAt(p: Pattern, i: int): Option<seq<Tile>>
  {
    Lookup(p.rows, i)
  }

  /** `Pattern::col` as the specification of its loop. */
  function ColAt(p: Pattern, i: int): Option<seq<Tile>>
    requires Rectangular(p)
  {
    Lookup(Columns(p), i)
  }

  /** `Pattern::col`: the tiles of column `index`, top to bottom. */
  method Col(p: Pattern, index: int) returns (r: Option<seq<Tile>>)
    requires Rectangular(p)
    ensures r == ColAt(p, index)
  {
    if index < 1 || index > Width(p) {
      return None;
    }
    var res: seq<Tile> := [];
    for idx := 0 to Height(p)
      invariant |res| == idx && forall y :: 0 <= y < idx ==> res[y] == p.rows[y][index - 1]
    {
      res := res + [p.rows[idx][index - 1]];
    }
    assert res == Columns(p)[index - 1];
    return Some(res);
  }

  /** `reflects`: a missing side always reflects; otherwise the first line's tiles must be the
      second's. */
  predicate ReflectsSpec(first: Option<seq<Tile>>, second: Option<seq<Tile>>)
    requires first.Some? && second.Some? ==> |first.value| <= |second.value|
  {
    first.None? || second.None? || forall k :: 0 <= k < |first.value| ==> first.value[k] == second.value[k]
  }

  method Reflects(first: Option<seq<Tile>>, second: Option<seq<Tile>>) returns (b: bool)
    requires first.Some? && second.Some? ==> |first.value| <= |second.value|
    ensures b == ReflectsSpec(first, second)
  {
    match first {
      case None => return true;
      case Some(f) =>
        match second {
          case None => return true;
          case Some(s) =>
            for idx := 0 to |f|
              invariant forall k :: 0 <= k < idx ==> f[k] == s[k]
            {
              if f[idx] != s[idx] {
                return false;
              }
            }
            return true;
        }
    }
  }

  /** All lines equally long, as the rows and the columns of a rectangular pattern are. */
  predicate Uniform(lines: seq<seq<Tile>>)
  {
    forall i, j :: 0 <= i < |lines| && 0 <= j < |lines| ==> |lines[i]| == |lines[j]|
  }

  /** The lines mirror between line `split` and line `split + 1`: each pair at the same
      distance reflects. */
  predicate MirrorAt(lines: seq<seq<Tile>>, split: int)
    requires Uniform(lines)
  {
    forall d :: 0 <= d < split ==> PairReflects(lines, split, d)
  }

  /** The lines at distance `d` on either side of the split reflect. */
  predicate PairReflects(lines: seq<seq<Tile>>, split: int, d: int)
    requires Uniform(lines)
  {
    ReflectsSpec(Lookup(lines, split - d), Lookup(lines, split + d + 1))
  }

  /** The mirrors among the splits `1..n`, ascending. */
  function Mirrors(lines: seq<seq<Tile>>, n: int): seq<int>
    requires Uniform(lines)
    decreases n
  {
    if n <= 1 then [] else Mirrors(lines, n - 1) + (if MirrorAt(lines, n - 1) then [n - 1] else [])
  }

  /** Exactly the splits in `1..n` at which the lines mirror are listed. */
  lemma {:induction false} MirrorsExact(lines: seq<seq<Tile>>, n: int, s: int)
    requires Uniform(lines)
    ensures s in Mirrors(lines, n) <==> 1 <= s < n && MirrorAt(lines, s)
    decreases n
  {
    if n > 1 {
      MirrorsExact(lines, n - 1, s);
    }
  }

  /** In ascending order. */
  lemma {:induction false} MirrorsAscending(lines: seq<seq<Tile>>, n: int)
    requires Uniform(lines)
    ensures forall i, j :: 0 <= i < j < |Mirrors(lines, n)| ==> Mirrors(lines, n)[i] < Mirrors(lines, n)[j]
    decreases n
  {
    if n > 1 {
      MirrorsAscending(lines, n - 1);
      var m := Mirrors(lines, n - 1);
      forall k | 0 <= k < |m|
        ensures m[k] < n - 1
      {
        MirrorsExact(lines, n - 1, m[k]);
      }
    }
  }

  /** A mirror means what it says: every line above it, as far as the other side reaches, equals
      the line as far below it (lines counted from zero here). */
  lemma MirrorMeaning(lines: seq<seq<Tile>>, s: int)
    requires Uniform(lines) && s >= 1
    ensures MirrorAt(lines, s) <==>
      forall i :: 0 <= i < s && 2 * s - 1 - i < |lines| ==> lines[i] == lines[2 * s - 1 - i]
  {
    if MirrorAt(lines, s) {
      forall i | 0 <= i < s && 2 * s - 1 - i < |lines|
        ensures lines[i] == lines[2 * s - 1 - i]
      {
        assert PairReflects(lines, s, s - 1 - i);
      }
    }
    if forall i :: 0 <= i < s && 2 * s - 1 - i < |lines| ==> lines[i] == lines[2 * s - 1 - i] {
      forall d | 0 <= d < s
        ensures PairReflects(lines, s, d)
      {
        if s + d + 1 <= |lines| {
          assert lines[s - d - 1] == lines[2 * s - 1 - (s - d - 1)];
        }
      }
    }
  }

  lemma RectangularUniform(p: Pattern)
    requires Rectangular(p)
    ensures Uniform(p.rows) && Uniform(Columns(p))
  {
  }

  function HorizontalSpec(p: Pattern): seq<int>
    requires Rectangular(p)
  {
    RectangularUniform(p);
    Mirrors(p.rows, Height(p))
  }

  function VerticalSpec(p: Pattern): seq<int>
    requires Rectangular(p)
  {
    RectangularUniform(p);
    Mirrors(Columns(p), Width(p))
  }

  /** The inner loop of `horizontal_reflections`: do the rows mirror at `split`? */
  method RowsMirror(p: Pattern, split: int) returns (matches: bool)
    requires Rectangular(p) && 1 <= split
    ensures Uniform(p.rows) && matches == MirrorAt(p.rows, split)
  {
    RectangularUniform(p);
    matches := true;
    var dist := 0;
    while dist < split
      invariant 0 <= dist <= split
      invariant forall d :: 0 <= d < dist ==> PairReflects(p.rows, split, d)
    {
      var top := RowAt(p, split - dist);
      var bot := RowAt(p, split + dist + 1);
      var ok := Reflects(top, bot);
      if !ok {
        assert !PairReflects(p.rows, split, dist);
        matches := false;
        return;
      }
      dist := dist + 1;
    }
  }

  /** `horizontal_reflections`: the splits between rows where the pattern mirrors. */
  method HorizontalReflections(p: Pattern) returns (res: seq<int>)
    requires Rectangular(p)
    ensures res == HorizontalSpec(p)
  {
    RectangularUniform(p);
    res := [];
    for split := 1 to Height(p)
      invariant res == Mirrors(p.rows, split)
    {
      var matches := RowsMirror(p, split);
      if matches {
        res := res + [split];
      }
    }
  }

  /** The inner loop of `vertical_reflections`: do the columns mirror at `split`? */
  method ColumnsMirror(p: Pattern, split: int) returns (matches: bool)
    requires Rectangular(p) && 1 <= split
    ensures Uniform(Columns(p)) && matches == MirrorAt(Columns(p), split)
  {
    RectangularUniform(p);
    ghost var cols := Columns(p);
    matches := true;
    var dist := 0;
    while dist < split
      invariant 0 <= dist <= split
      invariant forall d :: 0 <= d < dist ==> PairReflects(cols, split, d)
    {
      var left := Col(p, split - dist);
      var right := Col(p, split + dist + 1);
      var ok := Reflects(left, right);
      if !ok {
        assert !PairReflects(cols, split, dist);
        matches := false;
        return;
      }
      dist := dist + 1;
    }
  }

  /** `vertical_reflections`: the splits between columns where the pattern mirrors. */
  method VerticalReflections(p: Pattern) returns (res: seq<int>)
    requires Rectangular(p)
    ensures res == VerticalSpec(p)
  {
    RectangularUniform(p);
    res := [];
    var split := 1;
    while split < Width(p)
      invariant 1 <= split <= Width(p) || split == 1
      invariant res == Mirrors(Columns(p), split)
    {
      var matches := ColumnsMirror(p, split);
      if matches {
        res := res + [split];
      }
      split := split + 1;
    }
  }

  function AsHorizontal(s: seq<int>): (r: seq<Reflection>)
    ensures |r| == |s| && forall k :: 0 <= k < |s| ==> r[k] == Horizontal(s[k])
  {
    if s == [] then [] else AsHorizontal(s[..|s| - 1]) + [Horizontal(s[|s| - 1])]
  }

  function AsVertical(s: seq<int>): (r: seq<Reflection>)
    ensures |r| == |s| && forall k :: 0 <= k < |s| ==> r[k] == Vertical(s[k])
  {
    if s == [] then [] else AsVertical(s[..|s| - 1]) + [Vertical(s[|s| - 1])]
  }

  /** `reflections`: the horizontal mirrors, then the vertical ones. */
  function Reflections(p: Pattern): seq<Reflection>
    requires Rectangular(p)
  {
    AsHorizontal(HorizontalSpec(p)) + AsVertical(VerticalSpec(p))
  }

  method ReflectionsOf(p: Pattern) returns (r: seq<Reflection>)
    requires Rectangular(p)
    ensures r == Reflections(p)
  {
    var h := HorizontalReflections(p);
    var v := VerticalReflections(p);
    r := AsHorizontal(h) + AsVertical(v);
  }

  function Values(rs: seq<Reflection>): (v: seq<int>)
    ensures |v| == |rs| && forall k :: 0 <= k < |rs| ==> v[k] == Value(rs[k])
  {
    if rs == [] then [] else Values(rs[..|rs| - 1]) + [Value(rs[|rs| - 1])]
  }

  lemma {:induction false} ValuesAppend(a: seq<Reflection>, b: seq<Reflection>)
    ensures Values(a + b) == Values(a) + Values(b)
  {
  }

  lemma {:induction false} HorizontalValues(s: seq<int>)
    ensures Sum(Values(AsHorizontal(s))) == 100 * Sum(s)
  {
    if s != [] {
      HorizontalValues(s[..|s| - 1]);
      assert Values(AsHorizontal(s))[..|s| - 1] == Values(AsHorizontal(s[..|s| - 1]));
    }
  }

  lemma {:induction false} VerticalValues(s: seq<int>)
    ensures Sum(Values(AsVertical(s))) == Sum(s)
  {
    if s != [] {
      VerticalValues(s[..|s| - 1]);
      assert Values(AsVertical(s))[..|s| - 1] == Values(AsVertical(s[..|s| - 1]));
    }
  }

  /** The summary `main` prints for one pattern: a hundred times the rows above each horizontal
      mirror plus the columns left of each vertical one. */
  lemma ReflectionsValue(p: Pattern)
    requires Rectangular(p)
    ensures Sum(Values(Reflections(p))) == 100 * Sum(HorizontalSpec(p)) + Sum(VerticalSpec(p))
  {
    ValuesAppend(AsHorizontal(HorizontalSpec(p)), AsVertical(VerticalSpec(p)));
    SumAppend(Values(AsHorizontal(HorizontalSpec(p))), Values(AsVertical(VerticalSpec(p))));
    HorizontalValues(HorizontalSpec(p));
    VerticalValues(VerticalSpec(p));
  }

  /** `repaired_at`: a copy with tile `(x, y)`, counted from one, flipped. */
  function RepairedAt(p: Pattern, x: int, y: int): (q: Pattern)
    requires 1 <= y <= |p.rows| && 1 <= x <= |p.rows[y - 1]|
    ensures |q.rows| == |p.rows| && forall k :: 0 <= k < |p.rows| ==> |q.rows[k]| == |p.rows[k]|
    ensures q.rows[y - 1][x - 1] == Flipped(p.rows[y - 1][x - 1])
    ensures forall j, i :: 0 <= j < |p.rows| && 0 <= i < |p.rows[j]| && (j, i) != (y - 1, x - 1) ==>
      q.rows[j][i] == p.rows[j][i]
  {
    Pattern(p.rows[y - 1 := p.rows[y - 1][x - 1 := Flipped(p.rows[y - 1][x - 1])]])
  }

  /** The reflections of `rs` that `current` does not have, in order. */
  function NewOnes(rs: seq<Reflection>, current: seq<Reflection>): (r: seq<Reflection>)
    ensures forall k :: 0 <= k < |r| ==> r[k] in rs && r[k] !in current
    ensures (exists k :: 0 <= k < |rs| && rs[k] !in current) <==> r != []
  {
    if rs == [] then []
    else NewOnes(rs[..|rs| - 1], current) + (if rs[|rs| - 1] in current then [] else [rs[|rs| - 1]])
  }

  lemma RepairedRectangular(p: Pattern, x: int, y: int)
    requires Rectangular(p) && 1 <= y <= Height(p) && 1 <= x <= Width(p)
    ensures Rectangular(RepairedAt(p, x, y))
  {
  }

  /** The reflections the pattern gains when tile `(x, y)` is repaired, in order. */
  function Gained(p: Pattern, x: int, y: int): seq<Reflection>
    requires Rectangular(p) && 1 <= y <= Height(p) && 1 <= x <= Width(p)
  {
    RepairedRectangular(p, x, y);
    NewOnes(Reflections(RepairedAt(p, x, y)), Reflections(p))
  }

  /** One try of the search: repair the tile, find the reflections, keep the new ones. */
  method Attempt(p: Pattern, current: seq<Reflection>, x: int, y: int)
      returns (repaired: Pattern, reflections: seq<Reflection>, added: seq<Reflection>)
    requires Rectangular(p) && 1 <= y <= Height(p) && 1 <= x <= Width(p) && current == Reflections(p)
    ensures repaired == RepairedAt(p, x, y) && added == Gained(p, x, y)
    ensures added != [] ==> reflections != current
  {
    repaired := RepairedAt(p, x, y);
    RepairedRectangular(p, x, y);
    reflections := ReflectionsOf(repaired);
    added := NewOnes(reflections, current);
    NewOnesDiffer(reflections, current);
  }

  /** Repairing tile `(x, y)`, which is on the pattern, brings a new reflection. */
  ghost predicate Succeeds(p: Pattern, x: int, y: int)
    requires Rectangular(p)
  {
    1 <= y <= Height(p) && 1 <= x <= Width(p) && Gained(p, x, y) != []
  }

  /** What the search answers for such a tile: the repaired pattern and the last of the new
      reflections. */
  ghost function Alternate(p: Pattern, x: int, y: int): (Pattern, Reflection)
    requires Rectangular(p) && Succeeds(p, x, y)
  {
    (RepairedAt(p, x, y), Gained(p, x, y)[|Gained(p, x, y)| - 1])
  }

  /** Repairing tile `(x, y)`, if it is on the pattern, brings no new reflection. */
  ghost predicate Fails(p: Pattern, x: int, y: int)
    requires Rectangular(p)
  {
    1 <= y <= Height(p) && 1 <= x <= Width(p) ==> Gained(p, x, y) == []
  }

  /** No tile of row `y` left of column `x` brings a new reflection. */
  ghost predicate RowFailsBefore(p: Pattern, y: int, x: int)
    requires Rectangular(p)
  {
    forall x' :: 1 <= x' < x ==> Fails(p, x', y)
  }

  /** No tile before `(x, y)` in reading order brings a new reflection. */
  ghost predicate FailsBefore(p: Pattern, x: int, y: int)
    requires Rectangular(p)
  {
    forall y', x' :: 1 <= y' <= y && 1 <= x' && (y' < y || x' < x) ==> Fails(p, x', y')
  }

  lemma RowFailsStep(p: Pattern, y: int, x: int)
    requires Rectangular(p) && 1 <= y <= Height(p) && 1 <= x <= Width(p)
    requires RowFailsBefore(p, y, x) && Gained(p, x, y) == []
    ensures RowFailsBefore(p, y, x + 1)
  {
    forall x' | 1 <= x' < x + 1
      ensures Fails(p, x', y)
    {
      if x' < x {
        assert Fails(p, x', y);
      }
    }
  }

  /** The rows above `y` fail, and row `y` does left of `x`: so does everything before `(x, y)`. */
  lemma FailsBeforeStep(p: Pattern, x: int, y: int)
    requires Rectangular(p) && 1 <= y <= Height(p)
    requires FailsBefore(p, Width(p) + 1, y - 1) && RowFailsBefore(p, y, x)
    ensures FailsBefore(p, x, y)
  {
    forall y', x' | 1 <= y' <= y && 1 <= x' && (y' < y || x' < x)
      ensures Fails(p, x', y')
    {
      if y' < y {
        if x' <= Width(p) {
          assert Fails(p, x', y');
        }
      } else {
        assert Fails(p, x', y);
      }
    }
  }

  /** The inner loop of `with_alternate_reflection`: the first tile of row `y` whose repair
      brings a new reflection. */
  method SearchRow(p: Pattern, current: seq<Reflection>, y: int) returns (result: Option<(Pattern, Reflection)>, ghost gx: int)
    requires Rectangular(p) && 1 <= y <= Height(p) && current == Reflections(p)
    ensures result.Some? ==> Succeeds(p, gx, y) && RowFailsBefore(p, y, gx) && result.value == Alternate(p, gx, y)
    ensures result.None? ==> RowFailsBefore(p, y, Width(p) + 1)
  {
    gx := 0;
    for x := 1 to Width(p) + 1
      invariant RowFailsBefore(p, y, x)
    {
      var res, reflections, added := Attempt(p, current, x, y);
      if reflections != current && added != [] {
        gx := x;
        return Some((res, added[|added| - 1])), gx;
      }
      RowFailsStep(p, y, x);
    }
    return None, gx;
  }

  /** `with_alternate_reflection`: the first tile in reading order whose repair brings a new
      reflection, with the last such new reflection; none when no tile does. */
  method WithAlternateReflection(p: Pattern) returns (result: Option<(Pattern, Reflection)>, ghost gx: int, ghost gy: int)
    requires Rectangular(p)
    ensures result.Some? ==> Succeeds(p, gx, gy) && FailsBefore(p, gx, gy) && result.value == Alternate(p, gx, gy)
    ensures result.None? ==> FailsBefore(p, Width(p) + 1, Height(p))
  {
    var current := ReflectionsOf(p);
    gx, gy := 0, 0;
    for y := 1 to Height(p) + 1
      invariant FailsBefore(p, Width(p) + 1, y - 1)
    {
      result, gx := SearchRow(p, current, y);
      if result.Some? {
        gy := y;
        FailsBeforeStep(p, gx, gy);
        return;
      }
      FailsBeforeStep(p, Width(p) + 1, y);
    }
    return None, gx, gy;
  }

  /** Spelled out: no tile before the one found, and none at all when nothing is found. */
  lemma FailsBeforeMeaning(p: Pattern, x: int, y: int, x': int, y': int)
    requires Rectangular(p) && FailsBefore(p, x, y)
    requires 1 <= y' <= Height(p) && 1 <= x' <= Width(p) && (y' < y || (y' == y && x' < x))
    ensures Gained(p, x', y') == []
  {
    assert Fails(p, x', y');
  }

  /** A new reflection makes the lists differ, so the source's two tests are one. */
  lemma NewOnesDiffer(rs: seq<Reflection>, current: seq<Reflection>)
    ensures NewOnes(rs, current) != [] ==> rs != current
  {
    if NewOnes(rs, current) != [] {
      var k :| 0 <= k < |rs| && rs[k] !in current;
    }
  }

  /** The alternate reflection is one the repaired pattern has and the pattern had not. */
  lemma AlternateIsNew(p: Pattern, x: int, y: int)
    requires Rectangular(p) && 1 <= y <= Height(p) && 1 <= x <= Width(p) && Gained(p, x, y) != []
    ensures Rectangular(RepairedAt(p, x, y))
    ensures var added := Gained(p, x, y);
      added[|added| - 1] !in Reflections(p) && added[|added| - 1] in Reflections(RepairedAt(p, x, y))
  {
    RepairedRectangular(p, x, y);
  }
}
