/** Day 14: round rocks rolling across a platform tilted north, south, east or west, the load
    they put on the north beams, and the extrapolation of a repeating spin cycle. */
module Day14 {
  import opened Common
  import Arith

  datatype Direction = North | South | East | West

  /** A position `(x, y)`, with `y` growing southwards. */
  type Pos = (int, int)

  /** `Direction::vector`: the unit step in a direction. */
  function Vector(d: Direction): (v: Pos)
    ensures (v.0 == 0) <==> (d == North || d == South)
    ensures (v.1 == -1 <==> d == North) && (v.1 == 1 <==> d == South)
    ensures (v.0 == 1 <==> d == East) && (v.0 == -1 <==> d == West)
  {
    match d
    case North => (0, -1)
    case South => (0, 1)
    case East => (1, 0)
    case West => (-1, 0)
  }

  /** The position `n` steps from `p` in direction `d`. */
  function Offset(p: Pos, d: Direction, n: int): Pos
  {
    match d
    case North => (p.0, p.1 - n)
    case South => (p.0, p.1 + n)
    case East => (p.0 + n, p.1)
    case West => (p.0 - n, p.1)
  }

  /** One more step is one more `vector`, and steps never come back to where they started. */
  lemma OffsetStep(p: Pos, d: Direction, n: int)
    ensures Offset(p, d, n + 1) == (Offset(p, d, n).0 + Vector(d).0, Offset(p, d, n).1 + Vector(d).1)
    ensures Offset(p, d, n) == p <==> n == 0
  {
  }

  datatype Tile = Round | Cube | Empty

  predicate IsTileChar(c: char)
  {
    c == 'O' || c == '#' || c == '.'
  }

  /** `Tile::from`; any other character panics. */
  function TileFrom(c: char): (t: Tile)
    requires IsTileChar(c)
    ensures t == Round <==> c == 'O'
    ensures t == Cube <==> c == '#'
    ensures t == Empty <==> c == '.'
  {
    match c
    case 'O' => Round
    case '#' => Cube
    case _ => Empty
  }

  /** The character `Debug` writes for a tile, which `Tile::from` reads back. */
  function TileChar(t: Tile): (c: char)
    ensures IsTileChar(c) && TileFrom(c) == t
  {
    match t
    case Round => 'O'
    case Cube => '#'
    case Empty => '.'
  }

  datatype Map = Map(tiles: seq<seq<Tile>>)

  predicate ValidLines(lines: seq<string>)
  {
    forall y, x :: 0 <= y < |lines| && 0 <= x < |lines[y]| ==> IsTileChar(lines[y][x])
  }

  /** `Map::from`: one row of tiles per line, one tile per character. */
  function MapFrom(lines: seq<string>): (m: Map)
    requires ValidLines(lines)
    ensures |m.tiles| == |lines| && forall y :: 0 <= y < |lines| ==> |m.tiles[y]| == |lines[y]|
    ensures forall y, x :: 0 <= y < |lines| && 0 <= x < |lines[y]| ==> m.tiles[y][x] == TileFrom(lines[y][x])
  {
    Map(seq(|lines|, y requires 0 <= y < |lines| =>
      seq(|lines[y]|, x requires 0 <= x < |lines[y]| => TileFrom(lines[y][x]))))
  }

  /** The rows `Debug` writes for a platform, one string per row. */
  function MapLines(m: Map): (lines: seq<string>)
    ensures |lines| == |m.tiles| && forall y :: 0 <= y < |lines| ==> |lines[y]| == |m.tiles[y]|
    ensures forall y, x :: 0 <= y < |lines| && 0 <= x < |lines[y]| ==> lines[y][x] == TileChar(m.tiles[y][x])
  {
    seq(|m.tiles|, y requires 0 <= y < |m.tiles| =>
      seq(|m.tiles[y]|, x requires 0 <= x < |m.tiles[y]| => TileChar(m.tiles[y][x])))
  }

  /** Reading back what `Debug` writes gives the same platform. */
  lemma MapFromLines(m: Map)
    ensures ValidLines(MapLines(m)) && MapFrom(MapLines(m)) == m
  {
    var lines := MapLines(m);
    var r := MapFrom(lines);
    forall y | 0 <= y < |m.tiles|
      ensures r.tiles[y] == m.tiles[y]
    {
    }
  }

  predicate InBounds(t: seq<seq<Tile>>, p: Pos)
    requires Rectangular(t)
  {
    0 <= p.0 < |t[0]| && 0 <= p.1 < |t|
  }

  /** `Size`: the width and the height. */
  function Size(t: seq<seq<Tile>>): (r: (int, int))
    requires Rectangular(t)
    ensures r.0 >= 0 && r.1 >= 1
    ensures forall p: Pos :: InBounds(t, p) <==> 0 <= p.0 < r.0 && 0 <= p.1 < r.1
  {
    (|t[0]|, |t|)
  }

  /** `At`: the tile at a position, none off the platform. */
  function At(t: seq<seq<Tile>>, p: Pos): (r: Option<Tile>)
    requires Rectangular(t)
    ensures r.None? <==> !InBounds(t, p)
    ensures r.Some? ==> r.value == t[p.1][p.0]
  {
    if p.0 < 0 || p.0 >= Size(t).0 || p.1 < 0 || p.1 >= Size(t).1 then None else Some(t[p.1][p.0])
  }

  /** The grid with one tile replaced: `tiles[y][x] = v`. */
  function Set(t: seq<seq<Tile>>, p: Pos, v: Tile): (r: seq<seq<Tile>>)
    requires Rectangular(t) && InBounds(t, p)
    ensures Rectangular(r) && |r| == |t| && |r[0]| == |t[0]|
    ensures forall y, x :: 0 <= y < |t| && 0 <= x < |t[0]| ==> r[y][x] == if (x, y) == p then v else t[y][x]
  {
    t[p.1 := t[p.1][p.0 := v]]
  }

  /** The number of round rocks among the first `n` tiles of a row. */
  function RowRounds(row: seq<Tile>, n: int): nat
    requires 0 <= n <= |row|
  {
    if n == 0 then 0 else RowRounds(row, n - 1) + (if row[n - 1] == Round then 1 else 0)
  }

  /** The number of round rocks in the first `n` rows. */
  function Rounds(t: seq<seq<Tile>>, n: int): nat
    requires 0 <= n <= |t|
  {
    if n == 0 then 0 else Rounds(t, n - 1) + RowRounds(t[n - 1], |t[n - 1]|)
  }

  function RoundCount(t: seq<seq<Tile>>): nat
  {
    Rounds(t, |t|)
  }

  /** Replacing one tile of a row changes its count by what left and what came. */
  lemma {:induction false} RowRoundsUpdate(row: seq<Tile>, n: int, i: int, v: Tile)
    requires 0 <= n <= |row| && 0 <= i < |row|
    ensures RowRounds(row[i := v], n) ==
      RowRounds(row, n) + (if i < n then (if v == Round then 1 else 0) - (if row[i] == Round then 1 else 0) else 0)
    decreases n
  {
    if n > 0 {
      RowRoundsUpdate(row, n - 1, i, v);
    }
  }

  lemma {:induction false} RoundsUpdate(t: seq<seq<Tile>>, n: int, y: int, row: seq<Tile>)
    requires 0 <= n <= |t| && 0 <= y < |t|
    ensures Rounds(t[y := row], n) ==
      Rounds(t, n) + (if y < n then RowRounds(row, |row|) - RowRounds(t[y], |t[y]|) else 0)
    decreases n
  {
    if n > 0 {
      RoundsUpdate(t, n - 1, y, row);
    }
  }

  /** Setting a tile changes the round-rock count by what left and what came. */
  lemma SetRounds(t: seq<seq<Tile>>, p: Pos, v: Tile)
    requires Rectangular(t) && InBounds(t, p)
    ensures RoundCount(Set(t, p, v)) ==
      RoundCount(t) + (if v == Round then 1 else 0) - (if t[p.1][p.0] == Round then 1 else 0)
  {
    RowRoundsUpdate(t[p.1], |t[p.1]|, p.0, v);
    RoundsUpdate(t, |t|, p.1, t[p.1][p.0 := v]);
  }

  /** `final_position`: roll from `start` in `d` across empty tiles until the next tile is off the
      platform or not empty. The ghost `steps` is how far it rolled. */
  method FinalPosition(t: seq<seq<Tile>>, start: Pos, d: Direction) returns (pos: Pos, ghost steps: nat)
    requires Rectangular(t) && InBounds(t, start)
    ensures pos == Offset(start, d, steps) && InBounds(t, pos)
    ensures forall j :: 1 <= j <= steps ==> At(t, Offset(start, d, j)) == Some(Empty)
    ensures At(t, Offset(start, d, steps + 1)) != Some(Empty)
  {
    var current := start;
    steps := 0;
    while true
      invariant current == Offset(start, d, steps) && InBounds(t, current)
      invariant forall j :: 1 <= j <= steps ==> At(t, Offset(start, d, j)) == Some(Empty)
      decreases Room(t, current, d)
    {
      var next := (current.0 + Vector(d).0, current.1 + Vector(d).1);
      OffsetStep(start, d, steps);
      match At(t, next) {
        case None => break;
        case Some(tile) =>
          if tile == Empty {
            current := next;
            steps := steps + 1;
          } else {
            break;
          }
      }
    }
    pos := current;
  }

  /** How many tiles lie between `p` and the edge in direction `d`. */
  function Room(t: seq<seq<Tile>>, p: Pos, d: Direction): int
    requires Rectangular(t)
  {
    match d
    case North => p.1
    case South => |t| - 1 - p.1
    case East => |t[0]| - 1 - p.0
    case West => p.0
  }

  /** The number of lines `tilted` sweeps for a direction (rows north and south, columns east and
      west), and how many tiles each holds. */
  function Lines(d: Direction, w: int, h: int): int
  {
    if d == North || d == South then h else w
  }

  function LineLength(d: Direction, w: int, h: int): int
  {
    if d == North || d == South then w else h
  }

  /** The tile `tilted` visits `i`-th in its `k`-th line: rows top down for north, bottom up for
      south, columns right to left for east and left to right for west. */
  function CellOf(d: Direction, w: int, h: int, k: int, i: int): Pos
  {
    match d
    case North => (i, k)
    case South => (i, h - 1 - k)
    case East => (w - 1 - k, i)
    case West => (k, i)
  }

  /** The line and the place in it at which `tilted` visits a tile. */
  function RankOf(d: Direction, w: int, h: int, p: Pos): (int, int)
  {
    match d
    case North => (p.1, p.0)
    case South => (h - 1 - p.1, p.0)
    case East => (w - 1 - p.0, p.1)
    case West => (p.0, p.1)
  }

  /** The `i`-th tile of line `k` is visited at that rank, and is on the platform when the line
      and the place are in range. */
  lemma RankCell(t: seq<seq<Tile>>, d: Direction, k: int, i: int)
    requires Rectangular(t)
    ensures RankOf(d, |t[0]|, |t|, CellOf(d, |t[0]|, |t|, k, i)) == (k, i)
    ensures 0 <= k < Lines(d, |t[0]|, |t|) && 0 <= i < LineLength(d, |t[0]|, |t|) ==>
      InBounds(t, CellOf(d, |t[0]|, |t|, k, i))
  {
  }

  /** Every tile of the platform has a rank in range. */
  lemma RankInRange(t: seq<seq<Tile>>, d: Direction, p: Pos)
    requires Rectangular(t) && InBounds(t, p)
    ensures 0 <= RankOf(d, |t[0]|, |t|, p).0 < Lines(d, |t[0]|, |t|)
    ensures 0 <= RankOf(d, |t[0]|, |t|, p).1 < LineLength(d, |t[0]|, |t|)
  {
  }

  /** No two tiles share a rank, and a roll of `n` steps goes back `n` lines and keeps the place
      in the line: the sweep reaches the lines nearer the edge rocks roll towards first. */
  lemma RankOffset(d: Direction, w: int, h: int, p: Pos, n: int, q: Pos)
    ensures RankOf(d, w, h, Offset(p, d, n)) == (RankOf(d, w, h, p).0 - n, RankOf(d, w, h, p).1)
    ensures RankOf(d, w, h, p) == RankOf(d, w, h, q) ==> p == q
  {
  }

  /** Tiles the sweep has visited before the `i`-th of line `k`. */
  predicate Visited(d: Direction, w: int, h: int, p: Pos, k: int, i: int)
  {
    var r := RankOf(d, w, h, p);
    r.0 < k || (r.0 == k && r.1 < i)
  }

  /** A round rock at `p` cannot roll further in `d`. */
  predicate Blocked(t: seq<seq<Tile>>, p: Pos, d: Direction)
    requires Rectangular(t)
  {
    At(t, Offset(p, d, 1)) != Some(Empty)
  }

  /** Every round rock is blocked: the platform is fully tilted in `d`. */
  ghost predicate Settled(t: seq<seq<Tile>>, d: Direction)
    requires Rectangular(t)
  {
    forall y, x :: 0 <= y < |t| && 0 <= x < |t[0]| && t[y][x] == Round ==> Blocked(t, (x, y), d)
  }

  /** For north: every round rock is in row 0 or right below a tile that is not empty. */
  lemma SettledNorth(t: seq<seq<Tile>>)
    requires Rectangular(t)
    ensures Settled(t, North) <==>
      forall y, x {:trigger t[y][x]} :: 0 <= y < |t| && 0 <= x < |t[0]| && t[y][x] == Round ==> y == 0 || t[y - 1][x] != Empty
  {
    if Settled(t, North) {
      forall y, x {:trigger t[y][x]} | 0 <= y < |t| && 0 <= x < |t[0]| && t[y][x] == Round
        ensures y == 0 || t[y - 1][x] != Empty
      {
        assert Blocked(t, (x, y), North);
      }
    }
  }

  ghost predicate SameShape(t: seq<seq<Tile>>, g: seq<seq<Tile>>)
  {
    Rectangular(t) && Rectangular(g) && |t| == |g| && |t[0]| == |g[0]|
  }

  /** The cube rocks are where they were. */
  ghost predicate SameCubes(t: seq<seq<Tile>>, g: seq<seq<Tile>>)
    requires SameShape(t, g)
  {
    forall y, x :: 0 <= y < |t| && 0 <= x < |t[0]| ==> (t[y][x] == Cube <==> g[y][x] == Cube)
  }

  /** The tiles the sweep has not visited are as they were. */
  ghost predicate Kept(g: seq<seq<Tile>>, t: seq<seq<Tile>>, d: Direction, k: int, i: int)
    requires SameShape(t, g)
  {
    forall y, x {:trigger Visited(d, |g[0]|, |g|, (x, y), k, i)} ::
      0 <= y < |g| && 0 <= x < |g[0]| && !Visited(d, |g[0]|, |g|, (x, y), k, i) ==> t[y][x] == g[y][x]
  }

  /** Every round rock on a tile the sweep has visited is blocked. */
  ghost predicate VisitedBlocked(g: seq<seq<Tile>>, t: seq<seq<Tile>>, d: Direction, k: int, i: int)
    requires SameShape(t, g)
  {
    forall y, x {:trigger Visited(d, |g[0]|, |g|, (x, y), k, i)} ::
      0 <= y < |g| && 0 <= x < |g[0]| && Visited(d, |g[0]|, |g|, (x, y), k, i) && t[y][x] == Round ==> Blocked(t, (x, y), d)
  }

  /** What the sweep of `tilted` keeps before it visits the `i`-th tile of line `k`: the shape, the
      cubes and the number of round rocks; the tiles not yet visited as they were; every round
      rock on a visited tile blocked; and a platform that was already settled untouched. */
  ghost predicate Sweep(g: seq<seq<Tile>>, t: seq<seq<Tile>>, d: Direction, k: int, i: int)
  {
    SameShape(t, g) && SameCubes(t, g) && RoundCount(t) == RoundCount(g) &&
    Kept(g, t, d, k, i) && VisitedBlocked(g, t, d, k, i) && (Settled(g, d) ==> t == g)
  }

  lemma SweepStart(g: seq<seq<Tile>>, d: Direction)
    requires Rectangular(g)
    ensures Sweep(g, g, d, 0, 0)
  {
    forall y, x | 0 <= y < |g| && 0 <= x < |g[0]|
      ensures !Visited(d, |g[0]|, |g|, (x, y), 0, 0)
    {
      RankInRange(g, d, (x, y));
    }
  }

  /** The end of a line is the start of the next. */
  lemma SweepNextLine(g: seq<seq<Tile>>, t: seq<seq<Tile>>, d: Direction, k: int)
    requires Rectangular(g) && Sweep(g, t, d, k, LineLength(d, |g[0]|, |g|))
    ensures Sweep(g, t, d, k + 1, 0)
  {
    KeptNextLine(g, t, d, k);
    BlockedNextLine(g, t, d, k);
  }

  lemma KeptNextLine(g: seq<seq<Tile>>, t: seq<seq<Tile>>, d: Direction, k: int)
    requires SameShape(t, g) && Kept(g, t, d, k, LineLength(d, |g[0]|, |g|))
    ensures Kept(g, t, d, k + 1, 0)
  {
    var w, h, n := |g[0]|, |g|, LineLength(d, |g[0]|, |g|);
    forall y, x | 0 <= y < h && 0 <= x < w && !Visited(d, w, h, (x, y), k + 1, 0)
      ensures t[y][x] == g[y][x]
    {
      RankInRange(g, d, (x, y));
      assert !Visited(d, w, h, (x, y), k, n);
    }
  }

  lemma BlockedNextLine(g: seq<seq<Tile>>, t: seq<seq<Tile>>, d: Direction, k: int)
    requires SameShape(t, g) && VisitedBlocked(g, t, d, k, LineLength(d, |g[0]|, |g|))
    ensures VisitedBlocked(g, t, d, k + 1, 0)
  {
    var w, h, n := |g[0]|, |g|, LineLength(d, |g[0]|, |g|);
    forall y, x | 0 <= y < h && 0 <= x < w && Visited(d, w, h, (x, y), k + 1, 0) && t[y][x] == Round
      ensures Blocked(t, (x, y), d)
    {
      RankInRange(g, d, (x, y));
      assert Visited(d, w, h, (x, y), k, n);
    }
  }

  /** After the last line every tile is visited, so the platform is settled. */
  lemma SweepDone(g: seq<seq<Tile>>, t: seq<seq<Tile>>, d: Direction)
    requires Rectangular(g) && Sweep(g, t, d, Lines(d, |g[0]|, |g|), 0)
    ensures Settled(t, d)
  {
    forall y, x | 0 <= y < |t| && 0 <= x < |t[0]| && t[y][x] == Round
      ensures Blocked(t, (x, y), d)
    {
      RankInRange(g, d, (x, y));
      assert Visited(d, |g[0]|, |g|, (x, y), Lines(d, |g[0]|, |g|), 0);
    }
  }

  /** The tile about to be visited is still as it was. */
  lemma CurrentKept(g: seq<seq<Tile>>, t: seq<seq<Tile>>, d: Direction, k: int, i: int, c: Pos)
    requires Rectangular(g) && Sweep(g, t, d, k, i)
    requires c == CellOf(d, |g[0]|, |g|, k, i) && InBounds(g, c)
    ensures t[c.1][c.0] == g[c.1][c.0]
  {
    RankCell(g, d, k, i);
    assert !Visited(d, |g[0]|, |g|, c, k, i);
  }

  /** The tiles visited once the current one is: those visited before, and the current one. */
  lemma VisitedNext(g: seq<seq<Tile>>, d: Direction, k: int, i: int, c: Pos, q: Pos)
    requires Rectangular(g) && c == CellOf(d, |g[0]|, |g|, k, i)
    ensures Visited(d, |g[0]|, |g|, q, k, i + 1) <==> Visited(d, |g[0]|, |g|, q, k, i) || q == c
  {
    RankCell(g, d, k, i);
    RankOffset(d, |g[0]|, |g|, q, 0, c);
  }

  /** A tile without a round rock on the original is skipped; visiting it keeps the sweep. */
  lemma VisitSkip(g: seq<seq<Tile>>, t: seq<seq<Tile>>, d: Direction, k: int, i: int, c: Pos)
    requires Rectangular(g) && Sweep(g, t, d, k, i)
    requires c == CellOf(d, |g[0]|, |g|, k, i) && InBounds(g, c) && g[c.1][c.0] != Round
    ensures Sweep(g, t, d, k, i + 1)
  {
    CurrentKept(g, t, d, k, i, c);
    forall y, x | 0 <= y < |g| && 0 <= x < |g[0]| && Visited(d, |g[0]|, |g|, (x, y), k, i + 1) && t[y][x] == Round
      ensures Blocked(t, (x, y), d)
    {
      VisitedNext(g, d, k, i, c, (x, y));
    }
    forall y, x | 0 <= y < |g| && 0 <= x < |g[0]| && !Visited(d, |g[0]|, |g|, (x, y), k, i + 1)
      ensures t[y][x] == g[y][x]
    {
      VisitedNext(g, d, k, i, c, (x, y));
    }
  }

  /** A round rock that cannot roll stays; visiting it keeps the sweep. */
  lemma VisitStay(g: seq<seq<Tile>>, t: seq<seq<Tile>>, d: Direction, k: int, i: int, c: Pos)
    requires Rectangular(g) && Sweep(g, t, d, k, i)
    requires c == CellOf(d, |g[0]|, |g|, k, i) && InBounds(g, c) && Blocked(t, c, d)
    ensures Sweep(g, t, d, k, i + 1)
  {
    forall y, x | 0 <= y < |g| && 0 <= x < |g[0]| && Visited(d, |g[0]|, |g|, (x, y), k, i + 1) && t[y][x] == Round
      ensures Blocked(t, (x, y), d)
    {
      VisitedNext(g, d, k, i, c, (x, y));
    }
    forall y, x | 0 <= y < |g| && 0 <= x < |g[0]| && !Visited(d, |g[0]|, |g|, (x, y), k, i + 1)
      ensures t[y][x] == g[y][x]
    {
      VisitedNext(g, d, k, i, c, (x, y));
    }
  }

  /** Setting a tile changes what `At` sees there and nowhere else. */
  lemma AtSet(t: seq<seq<Tile>>, p: Pos, v: Tile, r: Pos)
    requires Rectangular(t) && InBounds(t, p)
    ensures At(Set(t, p, v), r) == if r == p then Some(v) else At(t, r)
  {
  }

  /** The situation of a rock that rolls: the current tile `c` holds a round rock on the original,
      which rolls `n >= 1` steps across empty tiles to `pos` and is blocked there. */
  ghost predicate Rolls(g: seq<seq<Tile>>, t: seq<seq<Tile>>, d: Direction, k: int, i: int, c: Pos, pos: Pos, n: int)
  {
    Rectangular(g) && Sweep(g, t, d, k, i) &&
    c == CellOf(d, |g[0]|, |g|, k, i) && InBounds(g, c) && g[c.1][c.0] == Round &&
    n >= 1 && pos == Offset(c, d, n) && InBounds(g, pos) &&
    At(t, pos) == Some(Empty) && At(t, Offset(c, d, n + 1)) != Some(Empty)
  }

  /** The rock leaves a round tile and fills an empty one: shape, cubes and count stay. */
  lemma RollShape(g: seq<seq<Tile>>, t: seq<seq<Tile>>, d: Direction, k: int, i: int, c: Pos, pos: Pos, n: int)
    requires Rolls(g, t, d, k, i, c, pos, n)
    ensures var t2 := Set(Set(t, c, Empty), pos, Round);
      SameShape(t2, g) && SameCubes(t2, g) && RoundCount(t2) == RoundCount(g)
  {
    CurrentKept(g, t, d, k, i, c);
    OffsetStep(c, d, n);
    MoveRock(g, t, c, pos);
  }

  /** Moving a round rock to an empty tile keeps the shape, the cubes and the count. */
  lemma MoveRock(g: seq<seq<Tile>>, t: seq<seq<Tile>>, c: Pos, pos: Pos)
    requires SameShape(t, g) && SameCubes(t, g) && RoundCount(t) == RoundCount(g)
    requires InBounds(t, c) && InBounds(t, pos) && t[c.1][c.0] == Round && t[pos.1][pos.0] == Empty
    ensures var t2 := Set(Set(t, c, Empty), pos, Round);
      SameShape(t2, g) && SameCubes(t2, g) && RoundCount(t2) == RoundCount(g)
  {
    var t1 := Set(t, c, Empty);
    SetRounds(t, c, Empty);
    SetRounds(t1, pos, Round);
  }

  /** Both tiles that change are visited once the current one is. */
  lemma RollKept(g: seq<seq<Tile>>, t: seq<seq<Tile>>, d: Direction, k: int, i: int, c: Pos, pos: Pos, n: int)
    requires Rolls(g, t, d, k, i, c, pos, n)
    ensures var t2 := Set(Set(t, c, Empty), pos, Round);
      SameShape(t2, g) && Kept(g, t2, d, k, i + 1)
  {
    var t2 := Set(Set(t, c, Empty), pos, Round);
    RankCell(g, d, k, i);
    RankOffset(d, |g[0]|, |g|, c, n, c);
    forall y, x | 0 <= y < |g| && 0 <= x < |g[0]| && !Visited(d, |g[0]|, |g|, (x, y), k, i + 1)
      ensures t2[y][x] == g[y][x]
    {
      VisitedNext(g, d, k, i, c, (x, y));
    }
  }

  /** Emptying `c` and filling `pos` leaves a rock blocked unless the tile in front of it was `c`. */
  lemma BlockedKept(t: seq<seq<Tile>>, c: Pos, pos: Pos, q: Pos, d: Direction)
    requires Rectangular(t) && InBounds(t, c) && InBounds(t, pos)
    requires Blocked(t, q, d) && Offset(q, d, 1) != c
    ensures Blocked(Set(Set(t, c, Empty), pos, Round), q, d)
  {
    AtSet(t, c, Empty, Offset(q, d, 1));
    AtSet(Set(t, c, Empty), pos, Round, Offset(q, d, 1));
  }

  /** The rolling rock is blocked where it stops. */
  lemma RollStopBlocked(t: seq<seq<Tile>>, d: Direction, c: Pos, pos: Pos, n: int)
    requires Rectangular(t) && InBounds(t, c) && n >= 1 && pos == Offset(c, d, n) && InBounds(t, pos)
    requires At(t, Offset(c, d, n + 1)) != Some(Empty)
    ensures Blocked(Set(Set(t, c, Empty), pos, Round), pos, d)
  {
    OffsetStep(c, d, n + 1);
    assert Offset(pos, d, 1) == Offset(c, d, n + 1);
    BlockedKept(t, c, pos, pos, d);
  }

  /** No other rock on a visited tile loses its blocker: the tile in front of it is in an earlier
      line than the tile the rolling rock left. */
  lemma RollOtherBlocked(g: seq<seq<Tile>>, t: seq<seq<Tile>>, d: Direction, k: int, i: int, c: Pos, pos: Pos, q: Pos)
    requires Rectangular(g) && SameShape(t, g) && VisitedBlocked(g, t, d, k, i)
    requires c == CellOf(d, |g[0]|, |g|, k, i) && InBounds(g, c) && InBounds(g, pos) && c != pos
    requires InBounds(g, q) && Visited(d, |g[0]|, |g|, q, k, i + 1) && q != pos && q != c && t[q.1][q.0] == Round
    ensures Blocked(Set(Set(t, c, Empty), pos, Round), q, d)
  {
    RankCell(g, d, k, i);
    VisitedNext(g, d, k, i, c, q);
    RankOffset(d, |g[0]|, |g|, q, 1, c);
    assert Blocked(t, q, d);
    BlockedKept(t, c, pos, q, d);
  }

  lemma RollBlocked(g: seq<seq<Tile>>, t: seq<seq<Tile>>, d: Direction, k: int, i: int, c: Pos, pos: Pos, n: int)
    requires Rolls(g, t, d, k, i, c, pos, n)
    ensures var t2 := Set(Set(t, c, Empty), pos, Round);
      SameShape(t2, g) && VisitedBlocked(g, t2, d, k, i + 1)
  {
    var t2 := Set(Set(t, c, Empty), pos, Round);
    forall y, x | 0 <= y < |g| && 0 <= x < |g[0]| && Visited(d, |g[0]|, |g|, (x, y), k, i + 1) && t2[y][x] == Round
      ensures Blocked(t2, (x, y), d)
    {
      if (x, y) == pos {
        RollStopBlocked(t, d, c, pos, n);
      } else {
        OffsetStep(c, d, n);
        RollOtherBlocked(g, t, d, k, i, c, pos, (x, y));
      }
    }
  }

  /** A settled platform has no rock that rolls. */
  lemma RollUnsettled(g: seq<seq<Tile>>, t: seq<seq<Tile>>, d: Direction, k: int, i: int, c: Pos, pos: Pos, n: int)
    requires Rolls(g, t, d, k, i, c, pos, n)
    requires At(t, Offset(c, d, 1)) == Some(Empty)
    ensures !Settled(g, d)
  {
    if Settled(g, d) {
      assert false;
    }
  }

  /** One visit of the sweep in `tilted`: a round rock on the original platform rolls to its final
      position on the current one. */
  method Visit(g: seq<seq<Tile>>, t: seq<seq<Tile>>, d: Direction, k: int, i: int) returns (t': seq<seq<Tile>>)
    requires Rectangular(g) && 0 <= k < Lines(d, |g[0]|, |g|) && 0 <= i < LineLength(d, |g[0]|, |g|)
    requires Sweep(g, t, d, k, i)
    ensures Sweep(g, t', d, k, i + 1)
  {
    var c := CellOf(d, Size(g).0, Size(g).1, k, i);
    RankCell(g, d, k, i);
    if At(g, c) != Some(Round) {
      VisitSkip(g, t, d, k, i, c);
      return t;
    }
    var pos, steps := FinalPosition(t, c, d);
    OffsetStep(c, d, steps);
    if pos != c {
      assert At(t, Offset(c, d, 1)) == Some(Empty);
      RollShape(g, t, d, k, i, c, pos, steps);
      RollKept(g, t, d, k, i, c, pos, steps);
      RollBlocked(g, t, d, k, i, c, pos, steps);
      RollUnsettled(g, t, d, k, i, c, pos, steps);
      t' := Set(t, c, Empty);
      t' := Set(t', pos, Round);
    } else {
      VisitStay(g, t, d, k, i, c);
      t' := t;
    }
  }

  /** `Map::tilted`: every round rock rolls as far as it can in `d`. The result has the same size,
      the same cubes and as many round rocks, all of them blocked; a platform already tilted that
      way does not change. */
  method Tilted(m: Map, d: Direction) returns (r: Map)
    requires Rectangular(m.tiles)
    ensures SameShape(r.tiles, m.tiles) && SameCubes(r.tiles, m.tiles)
    ensures RoundCount(r.tiles) == RoundCount(m.tiles)
    ensures Settled(r.tiles, d)
    ensures Settled(m.tiles, d) ==> r == m
  {
    var g := m.tiles;
    var tiles := g;
    var (w, h) := Size(g);
    SweepStart(g, d);
    for k := 0 to Lines(d, w, h)
      invariant Sweep(g, tiles, d, k, 0)
    {
      for i := 0 to LineLength(d, w, h)
        invariant Sweep(g, tiles, d, k, i)
      {
        tiles := Visit(g, tiles, d, k, i);
      }
      SweepNextLine(g, tiles, d, k);
    }
    SweepDone(g, tiles, d);
    r := Map(tiles);
  }

  /** Tilting twice in the same direction comes to the same as tilting once. */
  method TiltedTwice(m: Map, d: Direction) returns (once: Map, twice: Map)
    requires Rectangular(m.tiles)
    ensures twice == once
  {
    once := Tilted(m, d);
    twice := Tilted(once, d);
  }

  /** What `Tilted` promises of `r` as the platform `m` tilted towards `d`. */
  ghost predicate TiltOf(m: Map, d: Direction, r: Map)
  {
    SameShape(r.tiles, m.tiles) && SameCubes(r.tiles, m.tiles) &&
    RoundCount(r.tiles) == RoundCount(m.tiles) && Settled(r.tiles, d) &&
    (Settled(m.tiles, d) ==> r == m)
  }

  /** `circle`: one spin cycle, tilting north, west, south and then east. The cubes stay, the
      round rocks are as many, and the platform ends tilted east. */
  method Circle(m: Map) returns (r: Map)
    requires Rectangular(m.tiles)
    ensures SameShape(r.tiles, m.tiles) && SameCubes(r.tiles, m.tiles)
    ensures RoundCount(r.tiles) == RoundCount(m.tiles)
    ensures Settled(r.tiles, East)
    ensures exists n, w, s :: TiltOf(m, North, n) && TiltOf(n, West, w) && TiltOf(w, South, s) && TiltOf(s, East, r)
  {
    var n := Tilted(m, North);
    var w := Tilted(n, West);
    var s := Tilted(w, South);
    r := Tilted(s, East);
    assert TiltOf(m, North, n) && TiltOf(n, West, w) && TiltOf(w, South, s) && TiltOf(s, East, r);
  }

  /** The load on the north beams of the first `n` rows: a round rock in row `y` weighs the
      number of rows from it to the south edge. */
  function Load(t: seq<seq<Tile>>, n: int): int
    requires 0 <= n <= |t|
  {
    if n == 0 then 0 else Load(t, n - 1) + (|t| - (n - 1)) * RowRounds(t[n - 1], |t[n - 1]|)
  }

  /** `score`: the total load. */
  method Score(m: Map) returns (res: int)
    requires Rectangular(m.tiles)
    ensures res == Load(m.tiles, |m.tiles|)
  {
    var t := m.tiles;
    res := 0;
    for y := 0 to Size(t).1
      invariant res == Load(t, y)
    {
      for x := 0 to Size(t).0
        invariant res == Load(t, y) + (|t| - y) * RowRounds(t[y], x)
      {
        match At(t, (x, y)) {
          case None =>
          case Some(tile) =>
            if tile == Round {
              res := res + (Size(t).1 - y);
            }
        }
      }
    }
  }

  /** A weight between one and `height` puts between `c` and `height * c` on `c` rocks. */
  lemma WeightBounds(weight: int, height: int, c: nat, before: nat)
    requires 1 <= weight <= height
    ensures c <= weight * c <= height * c
    ensures height * (before + c) == height * before + height * c
  {
    Arith.MulAtLeast(c, weight);
    Arith.ProductNonNegative(height - weight, c);
    assert (height - weight) * c == height * c - weight * c;
  }

  /** Each round rock weighs at least one and at most the height. */
  lemma {:induction false} LoadBounds(t: seq<seq<Tile>>, n: int)
    requires 0 <= n <= |t|
    ensures Rounds(t, n) <= Load(t, n) <= |t| * Rounds(t, n)
    decreases n
  {
    if n > 0 {
      LoadBounds(t, n - 1);
      WeightBounds(|t| - (n - 1), |t|, RowRounds(t[n - 1], |t[n - 1]|), Rounds(t, n - 1));
    }
  }

  /** The number of spin cycles asked for. */
  const Goal := 1_000_000_000

  /** The cycle extrapolation in `main`: states `start` and `count` are equal, so the goal's state
      is the one at the same place in the first repetition. */
  function Target(start: int, count: int): (target: int)
    requires start < count
    ensures start <= Goal ==> start <= target < count
    ensures start <= Goal ==> (Goal - target) % (count - start) == 0
  {
    var period := count - start;
    var r := Arith.Rem(Goal - start, period);
    RemLeavesMultiple(Goal - start, period);
    assert Goal - (r + start) == (Goal - start) - r;
    r + start
  }

  /** For a dividend that is not negative, the remainder is in range and what is left is a
      multiple of the divisor. */
  lemma RemLeavesMultiple(a: int, n: int)
    requires n > 0
    ensures a >= 0 ==> 0 <= Arith.Rem(a, n) < n && (a - Arith.Rem(a, n)) % n == 0
  {
    if a >= 0 {
      var q := a / n;
      assert a - Arith.Rem(a, n) == n * q;
      Arith.ModOfMultiple(n, q);
    }
  }

  /** `f` applied `n` times. */
  function Iterate<T>(f: T -> T, n: nat, x: T): T
  {
    if n == 0 then x else f(Iterate(f, n - 1, x))
  }

  lemma {:induction false} IterateAdd<T>(f: T -> T, a: nat, b: nat, x: T)
    ensures Iterate(f, a + b, x) == Iterate(f, b, Iterate(f, a, x))
    decreases b
  {
    if b > 0 {
      IterateAdd(f, a, b - 1, x);
    }
  }

  /** Once state `count` repeats state `start`, every later state is one from the first
      repetition, at the same place modulo the period. */
  lemma {:induction false} CycleRepeats<T>(f: T -> T, x: T, start: nat, count: nat, n: nat)
    requires start < count && Iterate(f, count, x) == Iterate(f, start, x) && n >= start
    ensures Iterate(f, n, x) == Iterate(f, start + (n - start) % (count - start), x)
    decreases n
  {
    var period := count - start;
    if n >= count {
      IterateAdd(f, count, n - count, x);
      IterateAdd(f, start, n - count, x);
      assert n - period == start + (n - count);
      CycleRepeats(f, x, start, count, n - period);
      var b := n - period - start;
      var q, r := b / period, b % period;
      assert b == period * q + r;
      assert n - start == period * (q + 1) + r;
      Arith.ModUnique(n - start, period, q + 1, r);
    } else {
      Arith.ModUnique(n - start, period, 0, n - start);
    }
  }

  /** The state `main` scores is the goal's: after `Goal` spin cycles the platform is the one
      after `Target` cycles. */
  lemma TargetIsGoal<T>(f: T -> T, x: T, start: nat, count: nat)
    requires start < count <= Goal && Iterate(f, count, x) == Iterate(f, start, x)
    ensures Target(start, count) >= 0 && Iterate(f, Goal, x) == Iterate(f, Target(start, count), x)
  {
    CycleRepeats(f, x, start, count, Goal);
    Arith.QuotRem(Goal - start, count - start);
  }
}
