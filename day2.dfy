/** Day 2: games of cubes drawn from a bag; which games fit a given bag, and the power of
    the smallest bag each game needs. */
module Day2 {
  import opened Common
  import opened Text

  /** One draw: how many cubes of each colour were shown. */
  datatype CubeSet = CubeSet(red: int, green: int, blue: int)

  datatype Game = Game(id: int, sets: seq<CubeSet>)

  /** A trimmed group "<count> <colour>": the count before the first space parses, and a
      colour letter `r`, `g` or `b` follows that space. */
  predicate WellFormedGroup(g: string)
  {
    match Find(g, ' ')
    case None => false
    case Some(sp) => ParseInt(g[..sp]).Some? && sp + 1 < |g| && g[sp + 1] in "rgb"
  }

  function GroupCount(g: string): int
    requires WellFormedGroup(g)
  {
    ParseInt(g[..Find(g, ' ').value]).value
  }

  /** The colour is decided by the first letter after the space alone. */
  function GroupColour(g: string): (c: char)
    requires WellFormedGroup(g)
    ensures c in "rgb"
  {
    g[Find(g, ' ').value + 1]
  }

  function TrimAll(parts: seq<string>): (r: seq<string>)
    ensures |r| == |parts|
    ensures forall i :: 0 <= i < |r| ==> r[i] == Trim(parts[i])
  {
    if parts == [] then [] else [Trim(parts[0])] + TrimAll(parts[1..])
  }

  /** The comma-separated groups of one draw, trimmed. */
  function Groups(input: string): seq<string>
  {
    TrimAll(Split(input, ','))
  }

  predicate WellFormedGroups(gs: seq<string>)
  {
    forall i :: 0 <= i < |gs| ==> WellFormedGroup(gs[i])
  }

  predicate WellFormedSet(input: string)
  {
    WellFormedGroups(Groups(input))
  }

  /** The count of the last group of colour `c`, or 0 when no group names `c`. */
  function LastCount(gs: seq<string>, c: char): int
    requires WellFormedGroups(gs)
  {
    if gs == [] then 0
    else if GroupColour(gs[|gs| - 1]) == c then GroupCount(gs[|gs| - 1])
    else LastCount(gs[..|gs| - 1], c)
  }

  /** An unmentioned colour counts 0. */
  lemma {:induction false} LastCountAbsent(gs: seq<string>, c: char)
    requires WellFormedGroups(gs)
    requires forall i :: 0 <= i < |gs| ==> GroupColour(gs[i]) != c
    ensures LastCount(gs, c) == 0
  {
    if gs != [] {
      LastCountAbsent(gs[..|gs| - 1], c);
    }
  }

  /** A repeated colour keeps the count of its last group. */
  lemma {:induction false} LastCountIsLast(gs: seq<string>, c: char, i: nat)
    requires WellFormedGroups(gs)
    requires i < |gs| && GroupColour(gs[i]) == c
    requires forall j :: i < j < |gs| ==> GroupColour(gs[j]) != c
    ensures LastCount(gs, c) == GroupCount(gs[i])
  {
    if i < |gs| - 1 {
      LastCountIsLast(gs[..|gs| - 1], c, i);
    }
  }

  /** The draw that a list of groups describes. */
  function Tally(gs: seq<string>): CubeSet
    requires WellFormedGroups(gs)
  {
    CubeSet(LastCount(gs, 'r'), LastCount(gs, 'g'), LastCount(gs, 'b'))
  }

  /** The draw a text such as "3 blue, 4 red" describes. */
  function SetOf(input: string): CubeSet
    requires WellFormedSet(input)
  {
    Tally(Groups(input))
  }

  /** The loop of `Set::from`: walks the groups and overwrites the count of the colour each
      one names. */
  method TallyGroups(groups: seq<string>) returns (s: CubeSet)
    requires WellFormedGroups(groups)
    ensures s == Tally(groups)
  {
    var red, green, blue := 0, 0, 0;
    for i := 0 to |groups|
      invariant red == LastCount(groups[..i], 'r')
      invariant green == LastCount(groups[..i], 'g')
      invariant blue == LastCount(groups[..i], 'b')
    {
      var group := groups[i];
      assert groups[..i + 1][..i] == groups[..i];
      var sp := Find(group, ' ').value;
      var count := ParseInt(group[..sp]).value;
      var colour := group[sp + 1];
      if colour == 'r' {
        red := count;
      } else if colour == 'b' {
        blue := count;
      } else {
        green := count;
      }
    }
    assert groups[..|groups|] == groups;
    s := CubeSet(red, green, blue);
  }

  /** `Set::from`: splits the text at commas, trims each group and tallies them. */
  method ParseSet(input: string) returns (s: CubeSet)
    requires WellFormedSet(input)
    ensures s == SetOf(input)
  {
    var groups := Groups(input);
    s := TallyGroups(groups);
  }

  /** A line "Game <id>: <set>; <set>; ...": the id between byte 5 and the first colon
      parses, and every `;`-separated draw after the colon is well formed. */
  predicate WellFormedGame(input: string)
  {
    match Find(input, ':')
    case None => false
    case Some(colon) =>
      5 <= colon && ParseInt(input[5..colon]).Some? &&
      var parts := Split(input[colon + 1..], ';');
      forall i :: 0 <= i < |parts| ==> WellFormedSet(parts[i])
  }

  function SetsOf(parts: seq<string>): (r: seq<CubeSet>)
    requires forall i :: 0 <= i < |parts| ==> WellFormedSet(parts[i])
  {
    seq(|parts|, i requires 0 <= i < |parts| => SetOf(parts[i]))
  }

  /** `Game::from`: the id, and one draw for each `;`-separated part after the colon. */
  function GameFrom(input: string): (g: Game)
    requires WellFormedGame(input)
    ensures var colon := Find(input, ':').value;
      ParseInt(input[5..colon]) == Some(g.id) &&
      |g.sets| == |Split(input[colon + 1..], ';')| &&
      forall i :: 0 <= i < |g.sets| ==> g.sets[i] == SetOf(Split(input[colon + 1..], ';')[i])
  {
    var colon := Find(input, ':').value;
    Game(ParseInt(input[5..colon]).value, SetsOf(Split(input[colon + 1..], ';')))
  }

  predicate Within(s: CubeSet, red: int, green: int, blue: int)
  {
    s.red <= red && s.green <= green && s.blue <= blue
  }

  /** No draw shows more cubes of a colour than the bag holds. */
  function AllWithin(sets: seq<CubeSet>, red: int, green: int, blue: int): (b: bool)
    ensures b <==> forall i :: 0 <= i < |sets| ==> Within(sets[i], red, green, blue)
  {
    if sets == [] then true
    else Within(sets[0], red, green, blue) && AllWithin(sets[1..], red, green, blue)
  }

  /** `Game::possible`: the game could be played from a bag with these counts. */
  function Possible(game: Game, red: int, green: int, blue: int): (b: bool)
    ensures b <==> forall i :: 0 <= i < |game.sets| ==> Within(game.sets[i], red, green, blue)
  {
    AllWithin(game.sets, red, green, blue)
  }

  /** A bigger bag never makes a game impossible. */
  lemma PossibleMonotone(game: Game, red: int, green: int, blue: int, red': int, green': int, blue': int)
    requires red <= red' && green <= green' && blue <= blue'
    ensures Possible(game, red, green, blue) ==> Possible(game, red', green', blue')
  {
  }

  function Max(s: seq<int>): (m: int)
    requires |s| > 0
    ensures m in s
    ensures forall i :: 0 <= i < |s| ==> s[i] <= m
  {
    if |s| == 1 then s[0]
    else
      var rest := Max(s[1..]);
      if s[0] >= rest then s[0] else rest
  }

  function Reds(sets: seq<CubeSet>): (r: seq<int>)
    ensures |r| == |sets| && forall i :: 0 <= i < |sets| ==> r[i] == sets[i].red
  {
    seq(|sets|, i requires 0 <= i < |sets| => sets[i].red)
  }

  function Greens(sets: seq<CubeSet>): (r: seq<int>)
    ensures |r| == |sets| && forall i :: 0 <= i < |sets| ==> r[i] == sets[i].green
  {
    seq(|sets|, i requires 0 <= i < |sets| => sets[i].green)
  }

  function Blues(sets: seq<CubeSet>): (r: seq<int>)
    ensures |r| == |sets| && forall i :: 0 <= i < |sets| ==> r[i] == sets[i].blue
  {
    seq(|sets|, i requires 0 <= i < |sets| => sets[i].blue)
  }

  /** The smallest bag the game fits in: the largest count of each colour over its draws. */
  function MinimalBag(game: Game): CubeSet
    requires |game.sets| > 0
  {
    CubeSet(Max(Reds(game.sets)), Max(Greens(game.sets)), Max(Blues(game.sets)))
  }

  /** `Game::power`: the product of the per-colour maxima. */
  function Power(game: Game): int
    requires |game.sets| > 0
  {
    var bag := MinimalBag(game);
    bag.red * bag.green * bag.blue
  }

  /** A game fits the bag made of its own per-colour maxima, and that bag is the least one:
      every bag it fits holds at least as many cubes of each colour. */
  lemma MinimalBagIsLeast(game: Game, red: int, green: int, blue: int)
    requires |game.sets| > 0
    ensures var bag := MinimalBag(game); Possible(game, bag.red, bag.green, bag.blue)
    ensures Possible(game, red, green, blue) ==>
      var bag := MinimalBag(game); bag.red <= red && bag.green <= green && bag.blue <= blue
  {
    var bag := MinimalBag(game);
    forall i | 0 <= i < |game.sets|
      ensures Within(game.sets[i], bag.red, bag.green, bag.blue)
    {
      assert Reds(game.sets)[i] == game.sets[i].red;
      assert Greens(game.sets)[i] == game.sets[i].green;
      assert Blues(game.sets)[i] == game.sets[i].blue;
    }
    if Possible(game, red, green, blue) {
      var ir :| 0 <= ir < |game.sets| && Reds(game.sets)[ir] == bag.red;
      var ig :| 0 <= ig < |game.sets| && Greens(game.sets)[ig] == bag.green;
      var ib :| 0 <= ib < |game.sets| && Blues(game.sets)[ib] == bag.blue;
      assert Within(game.sets[ir], red, green, blue);
      assert Within(game.sets[ig], red, green, blue);
      assert Within(game.sets[ib], red, green, blue);
    }
  }

  /** Part 1: the sum of the ids of the games a bag of 12 red, 13 green and 14 blue cubes allows. */
  function PossibleIdSum(games: seq<Game>): (total: int)
    ensures (forall i :: 0 <= i < |games| ==> Possible(games[i], 12, 13, 14)) ==>
      total == Sum(seq(|games|, i requires 0 <= i < |games| => games[i].id))
    ensures (forall i :: 0 <= i < |games| ==> !Possible(games[i], 12, 13, 14)) ==> total == 0
  {
    if games == [] then 0
    else
      var last := games[|games| - 1];
      var ids := seq(|games|, i requires 0 <= i < |games| => games[i].id);
      var rest := PossibleIdSum(games[..|games| - 1]);
      assert ids[..|games| - 1] == seq(|games| - 1, i requires 0 <= i < |games| - 1 => games[..|games| - 1][i].id);
      rest + (if Possible(last, 12, 13, 14) then last.id else 0)
  }

  /** The sum over two runs of games is the sum of their sums, so each possible game adds its id
      once and each impossible one adds nothing. */
  lemma {:induction false} PossibleIdSumAppend(a: seq<Game>, b: seq<Game>)
    ensures PossibleIdSum(a + b) == PossibleIdSum(a) + PossibleIdSum(b)
  {
    if b != [] {
      assert (a + b)[..|a + b| - 1] == a + b[..|b| - 1];
      PossibleIdSumAppend(a, b[..|b| - 1]);
    } else {
      assert a + b == a;
    }
  }
}
