/** Day 4: scratchcards. A card scores by how many of its numbers are winning numbers, and
    each match wins a copy of one of the following cards. */
module Day4 {
  import opened Common
  import opened Text

  datatype Card = Card(id: int, winning: seq<int>, numbers: seq<int>)

  /** The separators of a card line are there in order: a space, a colon and a bar. */
  predicate Separated(line: string)
  {
    Find(line, ' ').Some? && Find(line, ':').Some? && Find(line, '|').Some? &&
    Find(line, ' ').value + 1 <= Find(line, ':').value < Find(line, '|').value
  }

  /** The text between the first space and the colon. */
  function IdText(line: string): string
    requires Separated(line)
  {
    line[Find(line, ' ').value + 1..Find(line, ':').value]
  }

  /** The text between the colon and the bar. */
  function WinningText(line: string): string
    requires Separated(line)
  {
    line[Find(line, ':').value + 1..Find(line, '|').value]
  }

  /** The text after the bar. */
  function NumbersText(line: string): string
    requires Separated(line)
  {
    line[Find(line, '|').value + 1..]
  }

  /** A line "Card <id>: <winning> | <numbers>" whose id text parses. */
  predicate WellFormedCard(line: string)
  {
    Separated(line) && ParseInt(Trim(IdText(line))).Some?
  }

  /** `Card::from`: the id from between the first space and the colon, the winning numbers
      from between the colon and the bar, and the card's numbers from after the bar; empty
      tokens between runs of spaces are skipped. */
  function CardFrom(line: string): Card
    requires WellFormedCard(line)
  {
    Card(ParseInt(Trim(IdText(line))).value, Numbers(WinningText(line)), Numbers(NumbersText(line)))
  }

  /** How a card is written: "Card <id>:", then " <winning> ", then "| <numbers>". */
  function ShowCard(c: Card): string
  {
    Layout(ShowInt(c.id), Join(ShowAll(c.winning), ' '), Join(ShowAll(c.numbers), ' '))
  }

  /** "Card <id>: <w> | <n>", grouped as the texts `Card::from` cuts it into. */
  function Layout(id: string, w: string, n: string): string
  {
    ("Card " + id + ":") + (" " + w + " ") + ("| " + n)
  }

  /** Where `Card::from` finds the separators of a laid-out card when `id` and `w` hold no
      colon or bar. */
  lemma LayoutFinds(id: string, w: string, n: string)
    requires ':' !in id && '|' !in id && '|' !in w
    ensures var line := Layout(id, w, n);
      Find(line, ' ').Some? && Find(line, ' ').value == 4 &&
      Find(line, ':').Some? && Find(line, ':').value == 5 + |id| &&
      Find(line, '|').Some? && Find(line, '|').value == 8 + |id| + |w|
  {
    var line := Layout(id, w, n);
    var colon, bar := 5 + |id|, 8 + |id| + |w|;
    forall j | 0 <= j < bar
      ensures line[j] != '|' && (j < colon ==> line[j] != ':') && (j < 4 ==> line[j] != ' ')
    {
      if j < 5 {
        assert line[j] == "Card "[j];
      } else if j < colon {
        assert line[j] == id[j - 5];
      } else if j < colon + 2 {
        assert line[j] == ": "[j - colon];
      } else if j < bar - 1 {
        assert line[j] == w[j - colon - 2];
      } else {
        assert line[j] == ' ';
      }
    }
    assert line[4] == ' ' && line[colon] == ':' && line[bar] == '|';
    FindFirst(line, ' ', 4);
    FindFirst(line, ':', colon);
    FindFirst(line, '|', bar);
  }

  /** The id text of a laid-out card. */
  lemma LayoutId(id: string, w: string, n: string)
    requires ':' !in id && '|' !in id && '|' !in w
    ensures Separated(Layout(id, w, n)) && IdText(Layout(id, w, n)) == id
  {
    LayoutFinds(id, w, n);
    var a, b, c := "Card " + id + ":", " " + w + " ", "| " + n;
    SliceOfFront(a + b, c, 5, 5 + |id|);
    SliceOfFront(a, b, 5, 5 + |id|);
    assert a[5..5 + |id|] == id;
  }

  lemma SliceOfFront(x: string, c: string, i: int, j: int)
    requires 0 <= i <= j <= |x|
    ensures (x + c)[i..j] == x[i..j]
  {
  }

  /** The winning text of a laid-out card. */
  lemma LayoutWinning(id: string, w: string, n: string)
    requires ':' !in id && '|' !in id && '|' !in w
    ensures Separated(Layout(id, w, n)) && WinningText(Layout(id, w, n)) == " " + w + " "
  {
    LayoutFinds(id, w, n);
    var a, b, c := "Card " + id + ":", " " + w + " ", "| " + n;
    assert (a + b + c)[|a|..|a| + |b|] == b;
  }

  /** The numbers text of a laid-out card. */
  lemma LayoutNumbers(id: string, w: string, n: string)
    requires ':' !in id && '|' !in id && '|' !in w
    ensures Separated(Layout(id, w, n)) && NumbersText(Layout(id, w, n)) == " " + n
  {
    LayoutFinds(id, w, n);
    NumbersAfterBar(Layout(id, w, n), ("Card " + id + ":") + (" " + w + " "), "| " + n);
    AfterBar(n);
  }

  lemma AfterBar(n: string)
    ensures ("| " + n)[1..] == " " + n
  {
  }

  /** A line that is `x` followed by `c`, whose bar is the first character of `c`. */
  lemma NumbersAfterBar(line: string, x: string, c: string)
    requires line == x + c && |c| >= 1 && Separated(line) && Find(line, '|').value == |x|
    ensures NumbersText(line) == c[1..]
  {
    assert line[|x| + 1..] == c[1..];
  }

  /** Reading a written card gives the card back. */
  lemma CardFromShown(c: Card)
    ensures WellFormedCard(ShowCard(c))
    ensures CardFrom(ShowCard(c)) == c
  {
    var id, w, n := ShowInt(c.id), Join(ShowAll(c.winning), ' '), Join(ShowAll(c.numbers), ' ');
    ShowIntChars(c.id);
    JoinShowAllChars(c.winning, ' ');
    assert ':' !in id && '|' !in id && '|' !in w;
    ShowIntPlain(c.id);
    assert Trim(id) == id;
    ParseShowInt(c.id);
    LayoutId(id, w, n);
    LayoutWinning(id, w, n);
    LayoutNumbers(id, w, n);
    NumbersPadded(c.winning);
    NumbersPadded(c.numbers);
  }

  /** How many of the card's numbers appear among its winning numbers, counting repeats. */
  function MatchCount(winning: seq<int>, numbers: seq<int>): (m: nat)
    ensures m <= |numbers|
    ensures m == 0 <==> forall i :: 0 <= i < |numbers| ==> numbers[i] !in winning
    ensures m == |numbers| <==> forall i :: 0 <= i < |numbers| ==> numbers[i] in winning
  {
    if numbers == [] then 0
    else
      var rest := MatchCount(winning, numbers[..|numbers| - 1]);
      assert forall i :: 0 <= i < |numbers| - 1 ==> numbers[..|numbers| - 1][i] == numbers[i];
      rest + (if numbers[|numbers| - 1] in winning then 1 else 0)
  }

  /** `Card::matches`. */
  function Matches(c: Card): nat
  {
    MatchCount(c.winning, c.numbers)
  }

  /** The score of a card with `m` matches: nothing without a match, one point for the
      first match, and double for every further one. */
  function Points(m: nat): nat
  {
    if m == 0 then 0 else Pow2(m - 1)
  }

  /** `Card::value`. */
  function Value(c: Card): nat
  {
    Points(Matches(c))
  }

  /** A card scores exactly when it has a match; the first scores 1 and each further match
      doubles the score. */
  lemma PointsDouble(m: nat)
    ensures Points(m) > 0 <==> m > 0
    ensures Points(1) == 1
    ensures m >= 1 ==> Points(m + 1) == 2 * Points(m)
  {
  }

  /** A card whose numbers are all winning scores 2^(n-1) for its n numbers. */
  lemma {:induction false} AllWinningValue(c: Card)
    requires |c.numbers| > 0
    requires forall i :: 0 <= i < |c.numbers| ==> c.numbers[i] in c.winning
    ensures Value(c) == Pow2(|c.numbers| - 1)
  {
  }

  /** Part 1: the sum of the card values. */
  function TotalPoints(cards: seq<Card>): nat
  {
    if cards == [] then 0 else TotalPoints(cards[..|cards| - 1]) + Value(cards[|cards| - 1])
  }

  /** The sum over two runs of cards is the sum of their sums. */
  lemma {:induction false} TotalPointsAppend(a: seq<Card>, b: seq<Card>)
    ensures TotalPoints(a + b) == TotalPoints(a) + TotalPoints(b)
  {
    if b != [] {
      assert (a + b)[..|a + b| - 1] == a + b[..|b| - 1];
      TotalPointsAppend(a, b[..|b| - 1]);
    } else {
      assert a + b == a;
    }
  }

  /** The sum is zero exactly when no card has a match. */
  lemma {:induction false} TotalPointsZero(cards: seq<Card>)
    ensures TotalPoints(cards) == 0 <==> forall i :: 0 <= i < |cards| ==> Matches(cards[i]) == 0
  {
    if cards != [] {
      var init := cards[..|cards| - 1];
      TotalPointsZero(init);
      PointsDouble(Matches(cards[|cards| - 1]));
      assert forall i :: 0 <= i < |init| ==> init[i] == cards[i];
    }
  }

  /** Copies of card `j` held at the end: the original and one more for each copy of an
      earlier card `i` that wins card `j`, that is with `i < j <= i + m[i]`. */
  function Copies(m: seq<nat>, j: nat): int
    requires j < |m|
    decreases j, 1
  {
    1 + Won(m, j, j)
  }

  /** The copies of card `j` won by the cards before index `k`. */
  function Won(m: seq<nat>, j: nat, k: nat): int
    requires j < |m| && k <= j
    decreases k, 0
  {
    if k == 0 then 0
    else Won(m, j, k - 1) + (if j <= k - 1 + m[k - 1] then Copies(m, k - 1) else 0)
  }

  /** Every card is held at least once: the original plus its copies. */
  lemma {:induction false} CopiesAtLeastOne(m: seq<nat>, j: nat)
    requires j < |m|
    ensures Copies(m, j) >= 1
    decreases j, 1
  {
    WonNonNegative(m, j, j);
  }

  lemma {:induction false} WonNonNegative(m: seq<nat>, j: nat, k: nat)
    requires j < |m| && k <= j
    ensures Won(m, j, k) >= 0
    decreases k, 0
  {
    if k > 0 {
      WonNonNegative(m, j, k - 1);
      CopiesAtLeastOne(m, k - 1);
    }
  }

  /** The copies of card `j` won by the cards before index `k` of the table, where cards at
      or after `j` win nothing for `j`. */
  function WonBefore(m: seq<nat>, j: nat, k: nat): int
    requires j < |m|
  {
    if k <= j then Won(m, j, k) else Won(m, j, j)
  }

  /** The table the propagation loop fills: every card's number of copies. */
  function CopyTable(m: seq<nat>): (t: seq<int>)
    ensures |t| == |m|
  {
    seq(|m|, j requires 0 <= j < |m| => Copies(m, j))
  }

  /** One turn of the inner loop of the propagation in `main`: card `i` adds its own count
      to the card `i + num + 1` that its next match wins. */
  method CountsStep(m: seq<nat>, counts: seq<int>, i: nat, num: nat) returns (counts': seq<int>)
    requires |counts| == |m| && i < |m| && num < m[i] && i + m[i] < |m|
    requires counts[i] == Copies(m, i)
    requires forall j :: 0 <= j < |m| ==>
      counts[j] == 1 + WonBefore(m, j, i) + (if i < j <= i + num then Copies(m, i) else 0)
    ensures |counts'| == |m| && counts'[i] == Copies(m, i)
    ensures forall j :: 0 <= j < |m| ==>
      counts'[j] == 1 + WonBefore(m, j, i) + (if i < j <= i + num + 1 then Copies(m, i) else 0)
  {
    counts' := counts[i + num + 1 := counts[i + num + 1] + counts[i]];
  }

  /** The copy-count loop of `main`: every card starts with one copy, and card `i` adds its
      copies to each of the next `m[i]` cards. */
  method Counts(m: seq<nat>) returns (counts: seq<int>)
    requires forall i :: 0 <= i < |m| ==> i + m[i] < |m|
    ensures counts == CopyTable(m)
  {
    counts := seq(|m|, _ => 1);
    for i := 0 to |m|
      invariant |counts| == |m|
      invariant forall j :: 0 <= j < |m| ==> counts[j] == 1 + WonBefore(m, j, i)
    {
      assert counts[i] == Copies(m, i);
      for num := 0 to m[i]
        invariant |counts| == |m| && counts[i] == Copies(m, i)
        invariant forall j :: 0 <= j < |m| ==>
          counts[j] == 1 + WonBefore(m, j, i) + (if i < j <= i + num then Copies(m, i) else 0)
      {
        counts := CountsStep(m, counts, i, num);
      }
      forall j | 0 <= j < |m|
        ensures counts[j] == 1 + WonBefore(m, j, i + 1)
      {
        if j > i {
          assert WonBefore(m, j, i + 1) == WonBefore(m, j, i) + (if j <= i + m[i] then Copies(m, i) else 0);
        }
      }
    }
  }

  /** Every card ends with at least one copy, so the total is at least the number of cards. */
  lemma CopyTableBounds(m: seq<nat>)
    ensures forall j :: 0 <= j < |m| ==> CopyTable(m)[j] >= 1
    ensures Sum(CopyTable(m)) >= |m|
  {
    forall j | 0 <= j < |m|
      ensures CopyTable(m)[j] >= 1
    {
      CopiesAtLeastOne(m, j);
    }
    SumAtLeastLength(CopyTable(m));
  }

  /** The matches of every card, in order. */
  function MatchTable(cards: seq<Card>): (m: seq<nat>)
    ensures |m| == |cards| && forall i :: 0 <= i < |cards| ==> m[i] == Matches(cards[i])
  {
    seq(|cards|, i requires 0 <= i < |cards| => Matches(cards[i]))
  }

  /** Part 2: the total number of cards held, originals and copies. The source indexes the
      table at `i + num + 1`, so no card may win past the last card. */
  method TotalCards(cards: seq<Card>) returns (total: int)
    requires forall i :: 0 <= i < |cards| ==> i + Matches(cards[i]) < |cards|
    ensures total == Sum(CopyTable(MatchTable(cards)))
    ensures total >= |cards|
  {
    var counts := Counts(MatchTable(cards));
    total := Sum(counts);
    CopyTableBounds(MatchTable(cards));
  }
}
