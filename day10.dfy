/** Day 10: pipe maze. Pipes join neighbouring tiles; the loop through the start tile is found by
    a depth-first search over paths, and a tile lies inside the loop when a scan from the left
    edge of its row crosses the loop an odd number of times. */
module Day10 {
  import opened Common

  datatype Direction = North | South | East | West

  /** `Direction::opposite`. */
  function Opposite(d: Direction): Direction
  {
    match d
    case North => South
    case South => North
    case East => West
    case West => East
  }

  /** Turning round twice is the identity, and never faces the same way. */
  lemma OppositeInvolution(d: Direction)
    ensures Opposite(Opposite(d)) == d && Opposite(d) != d
  {
  }

  datatype Tile = Ground | Pipe(first: Direction, second: Direction) | Start

  /** The characters `Tile::new` accepts. */
  predicate TileChar(c: char)
  {
    c == '|' || c == '-' || c == 'F' || c == '7' || c == 'L' || c == 'J' || c == '.' || c == 'S'
  }

  /** `Tile::new`: each pipe letter names the two directions it joins. */
  function TileNew(c: char): (t: Tile)
    requires TileChar(c)
    ensures t.Pipe? ==> t.first != t.second
    ensures t == Ground <==> c == '.'
    ensures t == Start <==> c == 'S'
  {
    match c
    case '|' => Pipe(North, South)
    case '-' => Pipe(East, West)
    case 'F' => Pipe(South, East)
    case '7' => Pipe(West, South)
    case 'L' => Pipe(East, North)
    case 'J' => Pipe(West, North)
    case '.' => Ground
    case 'S' => Start
  }

  /** The tiles `Tile::new` produces: the pipes in the orientation it writes them. */
  predicate ValidTile(t: Tile)
  {
    t.Pipe? ==> t in {Pipe(North, South), Pipe(East, West), Pipe(South, East), Pipe(West, South), Pipe(East, North), Pipe(West, North)}
  }

  /** The letter of a tile. */
  function TileLetter(t: Tile): char
    requires ValidTile(t)
  {
    match t
    case Ground => '.'
    case Start => 'S'
    case Pipe(a, b) =>
      if t == Pipe(North, South) then '|'
      else if t == Pipe(East, West) then '-'
      else if t == Pipe(South, East) then 'F'
      else if t == Pipe(West, South) then '7'
      else if t == Pipe(East, North) then 'L'
      else 'J'
  }

  /** Reading a tile's letter gives the tile back, and the other way round. */
  lemma TileLetterRoundTrip(c: char, t: Tile)
    ensures TileChar(c) ==> ValidTile(TileNew(c)) && TileLetter(TileNew(c)) == c
    ensures ValidTile(t) ==> TileChar(TileLetter(t)) && TileNew(TileLetter(t)) == t
  {
  }

  /** `Tile::connects`: ground joins nothing, the start tile everything, a pipe its two
      directions. */
  function Connects(t: Tile, d: Direction): (r: bool)
    ensures r <==> t == Start || (t.Pipe? && (t.first == d || t.second == d))
  {
    match t
    case Ground => false
    case Start => true
    case Pipe(first, second) =>
      match d
      case North => first == North || second == North
      case South => first == South || second == South
      case East => first == East || second == East
      case West => first == West || second == West
  }

  type Pos = (int, int)

  /** The grid of a `Map`; every row as wide as the first, as `at` assumes. */
  datatype Map = Map(grid: seq<seq<Tile>>, start: Pos)

  predicate InBounds(g: seq<seq<Tile>>, p: Pos)
    requires |g| >= 1
  {
    0 <= p.0 < |g[0]| && 0 <= p.1 < |g|
  }

  /** `Map::at`: the tile at column `x` of row `y`, none outside the grid. */
  function At(g: seq<seq<Tile>>, p: Pos): (r: Option<Tile>)
    requires Rectangular(g)
    ensures r.None? <==> !InBounds(g, p)
    ensures r.Some? ==> r.value == g[p.1][p.0]
  {
    if p.0 < 0 || p.0 >= |g[0]| || p.1 < 0 || p.1 >= |g| then None else Some(g[p.1][p.0])
  }

  /** `Map::size`: the width and the height; `at` finds a tile exactly inside them. */
  function Size(g: seq<seq<Tile>>): (r: (int, int))
    requires Rectangular(g)
    ensures forall p: Pos :: At(g, p).Some? <==> 0 <= p.0 < r.0 && 0 <= p.1 < r.1
  {
    (|g[0]|, |g|)
  }

  /** The cell one step away. */
  function Step(p: Pos, d: Direction): Pos
  {
    match d
    case North => (p.0, p.1 - 1)
    case South => (p.0, p.1 + 1)
    case East => (p.0 + 1, p.1)
    case West => (p.0 - 1, p.1)
  }

  lemma StepBack(p: Pos, d: Direction)
    ensures Step(Step(p, d), Opposite(d)) == p && Step(p, d) != p
  {
  }

  /** `Map::connects_to`: the tile joins `d` and the neighbour that way exists and joins back. */
  function ConnectsTo(g: seq<seq<Tile>>, p: Pos, d: Direction): (r: bool)
    requires Rectangular(g) && InBounds(g, p)
    ensures r ==> InBounds(g, Step(p, d))
    ensures r <==> Connects(g[p.1][p.0], d) && InBounds(g, Step(p, d)) && Connects(At(g, Step(p, d)).value, Opposite(d))
  {
    var t := At(g, p).value;
    if Connects(t, d) then
      match At(g, Step(p, d))
      case None => false
      case Some(other) => Connects(other, Opposite(d))
    else false
  }

  /** A connection seen from the neighbour: it joins back the opposite way. */
  lemma ConnectsToSymmetric(g: seq<seq<Tile>>, p: Pos, d: Direction)
    requires Rectangular(g) && InBounds(g, p) && ConnectsTo(g, p, d)
    ensures InBounds(g, Step(p, d)) && ConnectsTo(g, Step(p, d), Opposite(d))
    ensures Step(Step(p, d), Opposite(d)) == p
  {
    StepBack(p, d);
    OppositeInvolution(d);
  }

  /** Row `line` read tile by tile. */
  function TileRow(line: string): (r: seq<Tile>)
    requires forall i :: 0 <= i < |line| ==> TileChar(line[i])
    ensures |r| == |line|
    ensures forall i :: 0 <= i < |line| ==> r[i] == TileNew(line[i])
  {
    if line == [] then [] else [TileNew(line[0])] + TileRow(line[1..])
  }

  function TileRows(lines: seq<string>): (r: seq<seq<Tile>>)
    requires forall y, i :: 0 <= y < |lines| && 0 <= i < |lines[y]| ==> TileChar(lines[y][i])
    ensures |r| == |lines|
    ensures forall y :: 0 <= y < |lines| ==> r[y] == TileRow(lines[y])
  {
    if lines == [] then [] else [TileRow(lines[0])] + TileRows(lines[1..])
  }

  /** The first place in a row holding the start tile. */
  function StartIn(row: seq<Tile>): (r: Option<nat>)
    ensures r.Some? ==> r.value < |row| && row[r.value] == Start && Start !in row[..r.value]
    ensures r.None? <==> Start !in row
  {
    if row == [] then None
    else if row[0] == Start then Some(0)
    else match StartIn(row[1..])
      case None => None
      case Some(i) => Some(i + 1)
  }

  /** The first row holding the start tile. */
  function StartRow(g: seq<seq<Tile>>): (r: Option<nat>)
    ensures r.Some? ==> r.value < |g| && Start in g[r.value] && forall y :: 0 <= y < r.value ==> Start !in g[y]
    ensures r.None? <==> forall y :: 0 <= y < |g| ==> Start !in g[y]
  {
    if g == [] then None
    else if Start in g[0] then Some(0)
    else match StartRow(g[1..])
      case None => None
      case Some(y) => assert g[1..][y] == g[y + 1]; Some(y + 1)
  }

  /** What `Map::new` unwraps: every character a tile, and some start tile. */
  predicate MapLines(lines: seq<string>)
  {
    (forall y, i :: 0 <= y < |lines| && 0 <= i < |lines[y]| ==> TileChar(lines[y][i])) &&
    exists y :: 0 <= y < |lines| && 'S' in lines[y]
  }

  /** `Map::new`: the tiles of the lines, and the first start tile in reading order. */
  function MapNew(lines: seq<string>): (m: Map)
    requires MapLines(lines)
    ensures |m.grid| == |lines| && forall y :: 0 <= y < |lines| ==> m.grid[y] == TileRow(lines[y])
    ensures 0 <= m.start.1 < |m.grid| && 0 <= m.start.0 < |m.grid[m.start.1]|
    ensures m.grid[m.start.1][m.start.0] == Start
    ensures forall y :: 0 <= y < m.start.1 ==> Start !in m.grid[y]
    ensures Start !in m.grid[m.start.1][..m.start.0]
  {
    var g := TileRows(lines);
    var y0 :| 0 <= y0 < |lines| && 'S' in lines[y0];
    var i0 :| 0 <= i0 < |lines[y0]| && lines[y0][i0] == 'S';
    assert g[y0][i0] == Start;
    var y := StartRow(g).value;
    var x := StartIn(g[y]).value;
    Map(g, (x, y))
  }

  /** Where the loop scan of a row stands: the crossings so far and the vertical half of an
      unmatched corner. */
  datatype Crossing = Crossing(count: nat, entry: Option<Direction>)

  /** One loop tile of the scan in `Map::inside`. */
  function ScanStep(st: Crossing, t: Tile): Crossing
  {
    match t
    case Pipe(first, second) =>
      if first == North && second == South then Crossing(st.count + 1, st.entry)
      else if first == North || first == South || second == North || second == South then
        var dir := if first == North || second == North then North else South;
        match st.entry
        case Some(previous) => if previous != dir then Crossing(st.count + 1, None) else Crossing(st.count, None)
        case None => Crossing(st.count, Some(dir))
      else st
    case _ => st
  }

  /** The loop tiles left of column `n` in row `y` lie on the grid, as `inside` unwraps them. */
  predicate ScanInBounds(g: seq<seq<Tile>>, path: set<Pos>, y: int, n: int)
    requires |g| >= 1
  {
    forall x :: 0 <= x < n && (x, y) in path ==> InBounds(g, (x, y))
  }

  /** The scan of row `y` over the columns left of `n`. */
  function Scan(g: seq<seq<Tile>>, path: set<Pos>, y: int, n: int): Crossing
    requires Rectangular(g) && ScanInBounds(g, path, y, n)
    decreases n
  {
    if n <= 0 then Crossing(0, None)
    else
      var before := Scan(g, path, y, n - 1);
      if (n - 1, y) in path then ScanStep(before, At(g, (n - 1, y)).value) else before
  }

  /** `Map::inside` as a value: an odd number of crossings. */
  predicate InsideSpec(g: seq<seq<Tile>>, path: set<Pos>, pos: Pos)
    requires Rectangular(g) && ScanInBounds(g, path, pos.1, pos.0)
  {
    Scan(g, path, pos.1, pos.0).count % 2 != 0
  }

  /** `Map::inside`: the scan from the left edge of the row up to `pos`. */
  method Inside(g: seq<seq<Tile>>, path: set<Pos>, pos: Pos) returns (r: bool)
    requires Rectangular(g) && ScanInBounds(g, path, pos.1, pos.0)
    ensures r == InsideSpec(g, path, pos)
  {
    var eastCount: nat := 0;
    var entryDirection: Option<Direction> := None;
    var x := 0;
    while x < pos.0
      invariant 0 <= x && (x <= pos.0 || x == 0)
      invariant ScanInBounds(g, path, pos.1, x)
      invariant Crossing(eastCount, entryDirection) == Scan(g, path, pos.1, x)
    {
      if (x, pos.1) in path {
        var t := At(g, (x, pos.1)).value;
        match t {
          case Pipe(first, second) =>
            if first == North && second == South {
              eastCount := eastCount + 1;
            } else if first == North || first == South || second == North || second == South {
              var dir;
              if first == North || second == North {
                dir := North;
              } else {
                dir := South;
              }
              match entryDirection {
                case Some(previous) =>
                  if previous != dir {
                    eastCount := eastCount + 1;
                  }
                  entryDirection := None;
                case None =>
                  entryDirection := Some(dir);
              }
            }
          case _ =>
        }
      }
      x := x + 1;
    }
    assert Scan(g, path, pos.1, x) == Scan(g, path, pos.1, pos.0);
    r := eastCount % 2 != 0;
  }

  /** Nothing lies left of the first column, so no tile there is inside. */
  lemma InsideFirstColumn(g: seq<seq<Tile>>, path: set<Pos>, pos: Pos)
    requires Rectangular(g) && pos.0 <= 0
    ensures ScanInBounds(g, path, pos.1, pos.0) && !InsideSpec(g, path, pos)
  {
  }

  /** The scan only sees the loop tiles of its own row left of where it stops. */
  lemma {:induction false} ScanLocal(g: seq<seq<Tile>>, p: set<Pos>, q: set<Pos>, y: int, n: int)
    requires Rectangular(g) && ScanInBounds(g, p, y, n)
    requires forall x :: 0 <= x < n ==> ((x, y) in p <==> (x, y) in q)
    ensures ScanInBounds(g, q, y, n) && Scan(g, p, y, n) == Scan(g, q, y, n)
    decreases n
  {
    if n > 0 {
      ScanLocal(g, p, q, y, n - 1);
    }
  }

  /** Whether a tile is inside depends only on the loop tiles left of it in its row. */
  lemma InsideLocal(g: seq<seq<Tile>>, p: set<Pos>, q: set<Pos>, pos: Pos)
    requires Rectangular(g) && ScanInBounds(g, p, pos.1, pos.0)
    requires forall x :: 0 <= x < pos.0 ==> ((x, pos.1) in p <==> (x, pos.1) in q)
    ensures ScanInBounds(g, q, pos.1, pos.0) && InsideSpec(g, p, pos) == InsideSpec(g, q, pos)
  {
    ScanLocal(g, p, q, pos.1, pos.0);
  }

  /** The crossing rules: a `|` crosses once, a `-` and the start tile not at all, and a pair of
      corners crosses once exactly when one turns north and the other south. */
  lemma CrossingRules(st: Crossing, a: Tile, b: Tile)
    requires a in {Pipe(East, North), Pipe(West, North), Pipe(South, East), Pipe(West, South)}
    requires b in {Pipe(East, North), Pipe(West, North), Pipe(South, East), Pipe(West, South)}
    ensures ScanStep(st, Pipe(North, South)) == Crossing(st.count + 1, st.entry)
    ensures ScanStep(st, Pipe(East, West)) == st && ScanStep(st, Start) == st && ScanStep(st, Ground) == st
    ensures var after := ScanStep(ScanStep(Crossing(st.count, None), a), b);
      after.entry == None &&
      (after.count == st.count + 1 <==> (North in {a.first, a.second}) != (North in {b.first, b.second})) &&
      (after.count == st.count <==> (North in {a.first, a.second}) == (North in {b.first, b.second}))
  {
  }

  /** A cell of the grid: the loop tiles left of it in its row are on the grid. */
  predicate RowPrefixInBounds(g: seq<seq<Tile>>, path: set<Pos>, p: Pos)
    requires Rectangular(g)
  {
    0 <= p.1 < |g| && 0 <= p.0 <= |g[0]| && ScanInBounds(g, path, p.1, p.0)
  }

  /** The cells of the grid not on the loop that the scan puts inside, in the rows above `y`
      and left of `x` in row `y`. */
  function InsideCells(g: seq<seq<Tile>>, path: set<Pos>, y: int, x: int): set<Pos>
    requires Rectangular(g)
  {
    set c, r | 0 <= r < |g| && 0 <= c < |g[0]| && (r < y || (r == y && c < x)) && (c, r) !in path &&
      RowPrefixInBounds(g, path, (c, r)) && InsideSpec(g, path, (c, r)) :: (c, r)
  }

  /** The next cell of a row joins the counted cells exactly when it is off the loop and
      inside. */
  lemma InsideCellsStep(g: seq<seq<Tile>>, path: set<Pos>, y: int, x: int)
    requires Rectangular(g) && 0 <= y < |g| && 0 <= x < |g[0]|
    ensures RowPrefixInBounds(g, path, (x, y))
    ensures |InsideCells(g, path, y, x + 1)| ==
      |InsideCells(g, path, y, x)| + (if (x, y) !in path && InsideSpec(g, path, (x, y)) then 1 else 0)
  {
    var a, b := InsideCells(g, path, y, x + 1), InsideCells(g, path, y, x);
    var extra := if (x, y) !in path && InsideSpec(g, path, (x, y)) then {(x, y)} else {};
    forall p | p in a
      ensures p in b + extra
    {
    }
    forall p | p in b + extra
      ensures p in a
    {
    }
    assert a == b + extra;
    assert (x, y) !in b;
  }

  /** The end of a row is the start of the next. */
  lemma InsideCellsRow(g: seq<seq<Tile>>, path: set<Pos>, y: int)
    requires Rectangular(g) && 0 <= y
    ensures InsideCells(g, path, y + 1, 0) == InsideCells(g, path, y, |g[0]|)
  {
    var a, b := InsideCells(g, path, y + 1, 0), InsideCells(g, path, y, |g[0]|);
    forall p | p in a
      ensures p in b
    {
    }
    forall p | p in b
      ensures p in a
    {
    }
  }

  /** The inner loop of `print_inside` over row `y`: the count grows by the cells of the row
      off the loop and inside it. */
  method CountRowInside(g: seq<seq<Tile>>, path: set<Pos>, y: int, res0: nat) returns (res: nat)
    requires Rectangular(g) && 0 <= y < |g| && res0 == |InsideCells(g, path, y, 0)|
    ensures res == |InsideCells(g, path, y + 1, 0)|
  {
    res := res0;
    var x := 0;
    while x < |g[0]|
      invariant 0 <= x <= |g[0]| && res == |InsideCells(g, path, y, x)|
    {
      InsideCellsStep(g, path, y, x);
      if (x, y) !in path {
        var inside := Inside(g, path, (x, y));
        if inside {
          res := res + 1;
        }
      }
      x := x + 1;
    }
    InsideCellsRow(g, path, y);
  }

  /** The count `print_inside` returns: the cells off the loop that are inside it. */
  method CountInside(g: seq<seq<Tile>>, path: set<Pos>) returns (res: nat)
    requires Rectangular(g)
    ensures res == |InsideCells(g, path, |g|, 0)|
  {
    res := 0;
    var size := Size(g);
    var y := 0;
    assert InsideCells(g, path, 0, 0) == {};
    while y < size.1
      invariant 0 <= y <= size.1 && res == |InsideCells(g, path, y, 0)|
    {
      res := CountRowInside(g, path, y, res);
      y := y + 1;
    }
  }

  /** One pipe step: `b` is the neighbour of `a` in a direction that `a` connects to. */
  predicate Linked(g: seq<seq<Tile>>, a: Pos, b: Pos)
    requires Rectangular(g) && InBounds(g, a)
  {
    (ConnectsTo(g, a, North) && b == Step(a, North)) || (ConnectsTo(g, a, South) && b == Step(a, South)) ||
    (ConnectsTo(g, a, East) && b == Step(a, East)) || (ConnectsTo(g, a, West) && b == Step(a, West))
  }

  /** A linked neighbour is on the grid and links back. */
  lemma LinkedSymmetric(g: seq<seq<Tile>>, a: Pos, b: Pos)
    requires Rectangular(g) && InBounds(g, a) && Linked(g, a, b)
    ensures InBounds(g, b) && Linked(g, b, a) && a != b
  {
    var d :| d in {North, South, East, West} && ConnectsTo(g, a, d) && b == Step(a, d);
    ConnectsToSymmetric(g, a, d);
    StepBack(a, d);
    assert Opposite(d) in {North, South, East, West};
  }

  /** A path of the search: it starts at `start`, each cell is linked to the one before, and it
      never turns straight back. */
  predicate SearchPath(g: seq<seq<Tile>>, start: Pos, p: seq<Pos>)
    requires Rectangular(g)
  {
    |p| >= 1 && p[0] == start &&
    (forall i :: 0 <= i < |p| ==> InBounds(g, p[i])) &&
    (forall i :: 0 <= i < |p| - 1 ==> Linked(g, p[i], p[i + 1])) &&
    (forall i :: 0 <= i < |p| - 2 ==> p[i + 2] != p[i])
  }

  /** The path closes the loop: its last cell links to a start tile that is not the cell it came
      from. */
  predicate Closes(g: seq<seq<Tile>>, p: seq<Pos>, next: Pos)
    requires Rectangular(g) && |p| >= 1 && InBounds(g, p[|p| - 1])
  {
    Linked(g, p[|p| - 1], next) && At(g, next) == Some(Start) && !(|p| > 1 && p[|p| - 2] == next)
  }

  function Cells(p: seq<Pos>): set<Pos>
  {
    set i | 0 <= i < |p| :: p[i]
  }

  /** Extending a search path by a linked cell that is not the one before keeps it a search
      path. */
  lemma SearchPathExtend(g: seq<seq<Tile>>, start: Pos, p: seq<Pos>, next: Pos)
    requires Rectangular(g) && SearchPath(g, start, p)
    requires Linked(g, p[|p| - 1], next) && !(|p| > 1 && p[|p| - 2] == next)
    ensures SearchPath(g, start, p + [next])
  {
    LinkedSymmetric(g, p[|p| - 1], next);
    var q := p + [next];
    forall i | 0 <= i < |q| - 1
      ensures Linked(g, q[i], q[i + 1])
    {
      if i < |p| - 1 {
        assert q[i] == p[i] && q[i + 1] == p[i + 1];
      }
    }
  }

  /** The cells the search may step to from `pos`, in the order of `main`. */
  method Neighbours(g: seq<seq<Tile>>, pos: Pos) returns (next: seq<Pos>)
    requires Rectangular(g) && InBounds(g, pos)
    ensures forall j :: 0 <= j < |next| ==> Linked(g, pos, next[j])
    ensures forall b :: Linked(g, pos, b) ==> b in next
  {
    next := [];
    if ConnectsTo(g, pos, North) {
      next := next + [Step(pos, North)];
    }
    if ConnectsTo(g, pos, South) {
      next := next + [Step(pos, South)];
    }
    if ConnectsTo(g, pos, East) {
      next := next + [Step(pos, East)];
    }
    if ConnectsTo(g, pos, West) {
      next := next + [Step(pos, West)];
    }
  }

  /** The loop search of `main`: a stack of paths from the start, each extended by the linked
      cells other than the one it came from, until one reaches a start tile; the cells of that
      path are the loop. At most `fuel` paths are popped; an empty result means none closed. */
  method FindLoop(g: seq<seq<Tile>>, start: Pos, fuel: nat) returns (result: set<Pos>)
    requires Rectangular(g) && InBounds(g, start)
    ensures result != {} ==> exists p, next :: SearchPath(g, start, p) && Closes(g, p, next) && result == Cells(p)
  {
    result := {};
    var options: seq<seq<Pos>> := [[start]];
    var f := fuel;
    while f > 0 && result == {}
      invariant forall k :: 0 <= k < |options| ==> SearchPath(g, start, options[k])
      invariant result != {} ==> exists p, next :: SearchPath(g, start, p) && Closes(g, p, next) && result == Cells(p)
    {
      if options == [] {
        break;
      }
      var current := options[|options| - 1];
      options := options[..|options| - 1];
      var pos := current[|current| - 1];
      var next := Neighbours(g, pos);
      var j := 0;
      while j < |next|
        invariant 0 <= j <= |next|
        invariant forall k :: 0 <= k < |options| ==> SearchPath(g, start, options[k])
        invariant result != {} ==> exists p, next :: SearchPath(g, start, p) && Closes(g, p, next) && result == Cells(p)
      {
        var n := next[j];
        if !(|current| > 1 && current[|current| - 2] == n) {
          LinkedSymmetric(g, pos, n);
          var t := At(g, n).value;
          if t == Start {
            assert Closes(g, current, n);
            result := Cells(current);
            assert current[0] in result;
          } else {
            SearchPathExtend(g, start, current, n);
            options := options + [current + [n]];
          }
        }
        j := j + 1;
      }
      f := f - 1;
    }
  }
}
