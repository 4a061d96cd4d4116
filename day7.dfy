/** Day 7: Camel Cards. Hands of five cards are ranked by their type and then card by card; the
    winnings are the bids weighted by rank. Part 2 reads `J` as a joker. */
module Day7 {
  import opened Common
  import opened Text
  import opened Sorting

  datatype Card = Num(n: int) | J | Q | K | A

  /** The texts `Card::new` accepts: a face letter, `T`, or an integer. */
  predicate CardText(input: string)
  {
    input == "A" || input == "K" || input == "Q" || input == "J" || input == "T" || ParseInt(input).Some?
  }

  /** `Card::new`. */
  function CardNew(input: string): Card
    requires CardText(input)
  {
    if input == "A" then A
    else if input == "K" then K
    else if input == "Q" then Q
    else if input == "J" then J
    else if input == "T" then Num(10)
    else Num(ParseInt(input).value)
  }

  /** The cards a hand can hold: the faces and the numbers 0 to 10. */
  predicate ValidCard(c: Card) { c.Num? ==> 0 <= c.n <= 10 }

  /** A one-letter card text gives a card of a hand: a digit reads as its value, `T` as 10. */
  lemma CardNewLetter(input: string)
    requires |input| == 1 && CardText(input)
    ensures ValidCard(CardNew(input))
    ensures IsDigit(input[0]) ==> CardNew(input) == Num(DigitValue(input[0]))
    ensures input == "T" ==> CardNew(input) == Num(10)
  {
    if ParseInt(input).Some? && input != "T" {
      assert IsDigit(input[0]);
      assert input[..0] == [];
      assert Decimal(input) == DigitValue(input[0]);
    }
  }

  function Variant(c: Card): nat
  {
    match c
    case Num(_) => 0
    case J => 1
    case Q => 2
    case K => 3
    case A => 4
  }

  /** The derived order of `Card`: by variant, in declaration order, and numbers by value. */
  function CardCmp(a: Card, b: Card): Ordering
  {
    if Variant(a) != Variant(b) then IntCmp(Variant(a), Variant(b))
    else if a.Num? then IntCmp(a.n, b.n)
    else Equal
  }

  /** The strength of a card in part 1: 0 to 10 for numbers, then J, Q, K, A. */
  function Strength(c: Card): int
  {
    match c
    case Num(n) => n
    case J => 11
    case Q => 12
    case K => 13
    case A => 14
  }

  /** On the cards of a hand the derived order is the order of strengths. */
  lemma CardCmpStrength(a: Card, b: Card)
    requires ValidCard(a) && ValidCard(b)
    ensures CardCmp(a, b) == IntCmp(Strength(a), Strength(b))
  {
    match a
    case Num(x) =>
      match b {
        case Num(y) =>
        case _ =>
      }
    case _ =>
  }

  /** `Card::compare_joker`: equal cards are equal, otherwise `J` is below every card. */
  function CompareJoker(a: Card, b: Card): Ordering
  {
    var res := CardCmp(a, b);
    if res == Equal then Equal
    else if a == J then Less
    else if b == J then Greater
    else res
  }

  /** The strength of a card in part 2: the joker is below 0. */
  function JokerStrength(c: Card): int
  {
    if c == J then -1 else Strength(c)
  }

  /** On the cards of a hand the joker order is the order of joker strengths. */
  lemma CompareJokerStrength(a: Card, b: Card)
    requires ValidCard(a) && ValidCard(b)
    ensures CompareJoker(a, b) == IntCmp(JokerStrength(a), JokerStrength(b))
  {
    CardCmpStrength(a, b);
  }

  /** `Type`, in its derived order from the weakest to the strongest. */
  datatype Kind = HighCard | Pair | TwoPair | ThreeOfAKind | FullHouse | FourOfAKind | FiveOfAKind

  function KindRank(k: Kind): nat
  {
    match k
    case HighCard => 0
    case Pair => 1
    case TwoPair => 2
    case ThreeOfAKind => 3
    case FullHouse => 4
    case FourOfAKind => 5
    case FiveOfAKind => 6
  }

  /** The count table that `kind` fills: one (card, count) entry per card seen, in the order the
      cards are first seen. */
  type Tally = seq<(Card, nat)>

  /** `contains_key`. */
  predicate HasKey(t: Tally, c: Card)
  {
    t != [] && (t[0].0 == c || HasKey(t[1..], c))
  }

  /** The count stored for a card, 0 when it has none. */
  function CountIn(t: Tally, c: Card): nat
  {
    if t == [] then 0 else if t[0].0 == c then t[0].1 else CountIn(t[1..], c)
  }

  /** `insert`: replaces the count of a card already present, or adds the card at the end. */
  function Put(t: Tally, c: Card, v: nat): Tally
  {
    if t == [] then [(c, v)]
    else if t[0].0 == c then [(c, v)] + t[1..]
    else [t[0]] + Put(t[1..], c, v)
  }

  /** `remove`. */
  function Remove(t: Tally, c: Card): Tally
  {
    if t == [] then [] else if t[0].0 == c then Remove(t[1..], c) else [t[0]] + Remove(t[1..], c)
  }

  /** `values`, in the order of the table. */
  function Values(t: Tally): seq<int>
  {
    if t == [] then [] else [t[0].1 as int] + Values(t[1..])
  }

  /** No card has two entries. */
  predicate DistinctKeys(t: Tally)
  {
    t == [] || (!HasKey(t[1..], t[0].0) && DistinctKeys(t[1..]))
  }

  /** Every stored count is positive. */
  predicate PositiveCounts(t: Tally)
  {
    forall k :: 0 <= k < |t| ==> t[k].1 >= 1
  }

  /** The table after the cards in `cards`: each card adds one to its count. */
  function TallyOf(cards: seq<Card>): Tally
  {
    if cards == [] then []
    else
      var t := TallyOf(cards[..|cards| - 1]);
      var c := cards[|cards| - 1];
      if HasKey(t, c) then Put(t, c, CountIn(t, c) + 1) else Put(t, c, 1)
  }

  lemma {:induction false} CountInAbsent(t: Tally, c: Card)
    requires !HasKey(t, c)
    ensures CountIn(t, c) == 0
  {
    if t != [] {
      CountInAbsent(t[1..], c);
    }
  }

  /** `insert` sets the count of one card and leaves the others alone. */
  lemma {:induction false} PutCount(t: Tally, c: Card, v: nat, d: Card)
    ensures CountIn(Put(t, c, v), d) == if d == c then v else CountIn(t, d)
    ensures HasKey(Put(t, c, v), d) <==> d == c || HasKey(t, d)
  {
    if t != [] && t[0].0 != c {
      PutCount(t[1..], c, v, d);
      assert Put(t, c, v)[1..] == Put(t[1..], c, v);
    } else if t != [] {
      assert Put(t, c, v)[1..] == t[1..];
    }
  }

  /** `insert` keeps the keys distinct and replaces the old count in the sum of the counts. */
  lemma {:induction false} PutSum(t: Tally, c: Card, v: nat)
    requires DistinctKeys(t)
    ensures DistinctKeys(Put(t, c, v))
    ensures Sum(Values(Put(t, c, v))) == Sum(Values(t)) - CountIn(t, c) + v
  {
    var u := Put(t, c, v);
    if t == [] {
      assert Values(u) == [v as int] + Values([]);
      assert [v as int][..0] == [];
    } else if t[0].0 == c {
      assert u[1..] == t[1..];
      CountInAbsent(t[1..], c);
      SumAppend([v as int], Values(t[1..]));
      SumAppend([t[0].1 as int], Values(t[1..]));
      assert [v as int][..0] == [] && [t[0].1 as int][..0] == [];
    } else {
      PutSum(t[1..], c, v);
      PutCount(t[1..], c, v, t[0].0);
      assert u[1..] == Put(t[1..], c, v);
      SumAppend([t[0].1 as int], Values(Put(t[1..], c, v)));
      SumAppend([t[0].1 as int], Values(t[1..]));
      assert [t[0].1 as int][..0] == [];
    }
  }

  lemma {:induction false} PutPositive(t: Tally, c: Card, v: nat)
    requires PositiveCounts(t) && v >= 1
    ensures PositiveCounts(Put(t, c, v))
  {
    if t != [] && t[0].0 != c {
      PutPositive(t[1..], c, v);
      var u := Put(t, c, v);
      assert u == [t[0]] + Put(t[1..], c, v);
      forall k | 0 < k < |u|
        ensures u[k].1 >= 1
      {
        assert u[k] == Put(t[1..], c, v)[k - 1];
      }
    } else if t != [] {
      var u := Put(t, c, v);
      forall k | 0 < k < |u|
        ensures u[k].1 >= 1
      {
        assert u[k] == t[k];
      }
    }
  }

  /** After the loop of `kind` the table holds, for every card of the hand and no other, how many
      times it occurs. */
  lemma {:induction false} TallyCounts(cards: seq<Card>)
    ensures forall c :: CountIn(TallyOf(cards), c) == multiset(cards)[c]
    ensures forall c :: HasKey(TallyOf(cards), c) <==> c in cards
  {
    if cards != [] {
      var init := cards[..|cards| - 1];
      var c := cards[|cards| - 1];
      var t := TallyOf(init);
      TallyCounts(init);
      assert cards == init + [c];
      var v := if HasKey(t, c) then CountIn(t, c) + 1 else 1;
      if !HasKey(t, c) {
        CountInAbsent(t, c);
      }
      forall d
        ensures CountIn(TallyOf(cards), d) == multiset(cards)[d]
        ensures HasKey(TallyOf(cards), d) <==> d in cards
      {
        PutCount(t, c, v, d);
      }
    }
  }

  /** The table has one entry per card, with positive counts that add up to the number of cards. */
  lemma {:induction false} TallyShape(cards: seq<Card>)
    ensures DistinctKeys(TallyOf(cards)) && PositiveCounts(TallyOf(cards))
    ensures Sum(Values(TallyOf(cards))) == |cards|
  {
    if cards != [] {
      var init := cards[..|cards| - 1];
      var c := cards[|cards| - 1];
      var t := TallyOf(init);
      TallyShape(init);
      var v := if HasKey(t, c) then CountIn(t, c) + 1 else 1;
      if !HasKey(t, c) {
        CountInAbsent(t, c);
      }
      PutSum(t, c, v);
      PutPositive(t, c, v);
    }
  }

  lemma TallyMeaning(cards: seq<Card>)
    ensures forall c :: CountIn(TallyOf(cards), c) == multiset(cards)[c]
    ensures forall c :: HasKey(TallyOf(cards), c) <==> c in cards
    ensures DistinctKeys(TallyOf(cards)) && PositiveCounts(TallyOf(cards))
    ensures Sum(Values(TallyOf(cards))) == |cards|
  {
    TallyCounts(cards);
    TallyShape(cards);
  }

  /** In a table with distinct keys every entry holds the count of its card. */
  lemma {:induction false} CountInEntry(t: Tally, k: nat)
    requires DistinctKeys(t) && k < |t|
    ensures CountIn(t, t[k].0) == t[k].1 && HasKey(t, t[k].0)
  {
    if k > 0 {
      CountInEntry(t[1..], k - 1);
      assert t[1..][k - 1] == t[k];
    }
  }

  /** Each entry of the table after `kind`'s loop is a card of the hand with its multiplicity. */
  lemma TallyEntries(cards: seq<Card>)
    ensures forall k :: 0 <= k < |TallyOf(cards)| ==>
      TallyOf(cards)[k].0 in cards && TallyOf(cards)[k].1 == multiset(cards)[TallyOf(cards)[k].0]
  {
    var t := TallyOf(cards);
    TallyMeaning(cards);
    forall k | 0 <= k < |t|
      ensures t[k].0 in cards && t[k].1 == multiset(cards)[t[k].0]
    {
      CountInEntry(t, k);
    }
  }

  /** `remove` drops the entry of one card, keeps the others and takes its count off the sum. */
  lemma {:induction false} RemoveMeaning(t: Tally, c: Card)
    requires DistinctKeys(t) && PositiveCounts(t)
    ensures forall d :: d != c ==> CountIn(Remove(t, c), d) == CountIn(t, d)
    ensures !HasKey(Remove(t, c), c)
    ensures PositiveCounts(Remove(t, c))
    ensures Sum(Values(Remove(t, c))) == Sum(Values(t)) - CountIn(t, c)
  {
    if t != [] {
      var rest := t[1..];
      assert PositiveCounts(rest) by {
        forall k | 0 <= k < |rest|
          ensures rest[k].1 >= 1
        {
          assert rest[k] == t[k + 1];
        }
      }
      RemoveMeaning(rest, c);
      SumAppend([t[0].1 as int], Values(rest));
      assert [t[0].1 as int][..0] == [];
      if t[0].0 == c {
        CountInAbsent(rest, c);
      } else {
        var u := Remove(t, c);
        assert u == [t[0]] + Remove(rest, c);
        assert u[1..] == Remove(rest, c);
        SumAppend([t[0].1 as int], Values(Remove(rest, c)));
        forall k | 0 < k < |u|
          ensures u[k].1 >= 1
        {
          assert u[k] == Remove(rest, c)[k - 1];
        }
      }
    }
  }

  /** Every element is at least its successor. */
  predicate Descending(s: seq<int>)
  {
    forall p, q :: 0 <= p < q < |s| ==> s[p] >= s[q]
  }

  /** `sort` followed by `reverse`, as a function: the counts from the largest down. */
  function InsertDesc(x: int, s: seq<int>): seq<int>
  {
    if s == [] || x >= s[0] then [x] + s else [s[0]] + InsertDesc(x, s[1..])
  }

  function SortDesc(s: seq<int>): seq<int>
  {
    if s == [] then [] else InsertDesc(s[0], SortDesc(s[1..]))
  }

  lemma {:induction false} InsertDescPerm(x: int, s: seq<int>)
    ensures multiset(InsertDesc(x, s)) == multiset(s) + multiset{x}
    ensures Sum(InsertDesc(x, s)) == Sum(s) + x
  {
    if s == [] || x >= s[0] {
      SumFront([x] + s);
      assert ([x] + s)[1..] == s;
    } else {
      InsertDescPerm(x, s[1..]);
      assert s == [s[0]] + s[1..];
      var u := [s[0]] + InsertDesc(x, s[1..]);
      SumFront(u);
      SumFront(s);
      assert u[1..] == InsertDesc(x, s[1..]);
    }
  }

  lemma {:induction false} InsertDescSorted(x: int, s: seq<int>)
    requires Descending(s)
    ensures Descending(InsertDesc(x, s))
  {
    if s != [] && x < s[0] {
      var rest := InsertDesc(x, s[1..]);
      InsertDescSorted(x, s[1..]);
      InsertDescPerm(x, s[1..]);
      var u := [s[0]] + rest;
      forall q | 0 < q < |u|
        ensures u[0] >= u[q]
      {
        assert u[q] == rest[q - 1];
        assert u[q] in multiset(s[1..]) + multiset{x};
        if u[q] != x {
          assert u[q] in s[1..];
        }
      }
    }
  }

  /** The result of the sort is descending, a permutation of its input, with the same sum. */
  lemma {:induction false} SortDescMeaning(s: seq<int>)
    ensures Descending(SortDesc(s))
    ensures multiset(SortDesc(s)) == multiset(s)
    ensures Sum(SortDesc(s)) == Sum(s)
  {
    SortDescSorted(s);
    SortDescPerm(s);
  }

  lemma {:induction false} SortDescSorted(s: seq<int>)
    ensures Descending(SortDesc(s))
  {
    if s != [] {
      SortDescSorted(s[1..]);
      InsertDescSorted(s[0], SortDesc(s[1..]));
    }
  }

  lemma {:induction false} SortDescPerm(s: seq<int>)
    ensures multiset(SortDesc(s)) == multiset(s)
    ensures Sum(SortDesc(s)) == Sum(s)
  {
    if s != [] {
      var rest := SortDesc(s[1..]);
      SortDescPerm(s[1..]);
      InsertDescPerm(s[0], rest);
      assert SortDesc(s) == InsertDesc(s[0], rest);
      assert multiset(s) == multiset{s[0]} + multiset(s[1..]) by {
        assert s == [s[0]] + s[1..];
      }
      SumFront(s);
    }
  }

  /** The `match` of `kind` on the counts from the largest down. */
  function Classify(v: seq<int>): Kind
  {
    if |v| == 1 && v[0] == 5 then FiveOfAKind
    else if |v| == 2 && v[0] == 4 then FourOfAKind
    else if |v| == 2 && v[0] == 3 && v[1] == 2 then FullHouse
    else if |v| >= 2 && v[0] == 3 then ThreeOfAKind
    else if |v| >= 2 && v[0] == 2 && v[1] == 2 then TwoPair
    else if |v| >= 2 && v[0] == 2 then Pair
    else HighCard
  }

  /** The `match` of `joker_kind` on the counts of the other cards and the number of jokers. */
  function ClassifyJoker(v: seq<int>, jokers: int): Kind
  {
    if |v| >= 1 && v[0] + jokers >= 5 then FiveOfAKind
    else if |v| >= 1 && v[0] + jokers >= 4 then FourOfAKind
    else if |v| >= 2 && v[0] + jokers >= 3 && v[1] + jokers >= 2 && (3 - v[0]) + (2 - v[1]) <= jokers then FullHouse
    else if |v| >= 1 && v[0] + jokers >= 3 then ThreeOfAKind
    else if |v| >= 2 && v[0] + jokers >= 2 && v[1] + jokers >= 2 && (2 - v[0]) + (2 - v[1]) <= jokers then TwoPair
    else if |v| >= 1 && v[0] + jokers >= 2 then Pair
    else if jokers == 5 then FiveOfAKind
    else HighCard
  }

  /** The counts of the cards of a hand, from the largest down. */
  function Profile(cards: seq<Card>): seq<int>
  {
    SortDesc(Values(TallyOf(cards)))
  }

  /** The counts of the cards other than `J`, from the largest down. */
  function JokerProfile(cards: seq<Card>): seq<int>
  {
    SortDesc(Values(Remove(TallyOf(cards), J)))
  }

  /** `kind`. */
  function KindOf(cards: seq<Card>): Kind
  {
    Classify(Profile(cards))
  }

  /** `joker_kind`. */
  function JokerKindOf(cards: seq<Card>): Kind
  {
    ClassifyJoker(JokerProfile(cards), CountIn(TallyOf(cards), J))
  }

  lemma {:induction false} ValuesPositive(t: Tally)
    requires PositiveCounts(t)
    ensures forall k :: 0 <= k < |Values(t)| ==> Values(t)[k] >= 1
    ensures |Values(t)| == |t|
  {
    if t != [] {
      var rest := t[1..];
      assert PositiveCounts(rest) by {
        forall k | 0 <= k < |rest|
          ensures rest[k].1 >= 1
        {
          assert rest[k] == t[k + 1];
        }
      }
      ValuesPositive(rest);
      assert Values(t) == [t[0].1 as int] + Values(rest);
    }
  }

  /** A descending sequence of positive counts is positive everywhere if its elements came from
      a positive sequence. */
  lemma PositivePermutation(s: seq<int>, r: seq<int>)
    requires forall k :: 0 <= k < |s| ==> s[k] >= 1
    requires multiset(r) == multiset(s)
    ensures forall k :: 0 <= k < |r| ==> r[k] >= 1
  {
    forall k | 0 <= k < |r|
      ensures r[k] >= 1
    {
      assert r[k] in multiset(s);
    }
  }

  /** The profile of a hand: descending positive counts that add up to the number of cards, with
      exactly the per-card multiplicities as a multiset. */
  lemma ProfileMeaning(cards: seq<Card>)
    ensures Descending(Profile(cards))
    ensures multiset(Profile(cards)) == multiset(Values(TallyOf(cards)))
    ensures forall k :: 0 <= k < |Profile(cards)| ==> Profile(cards)[k] >= 1
    ensures Sum(Profile(cards)) == |cards|
  {
    var t := TallyOf(cards);
    TallyMeaning(cards);
    ValuesPositive(t);
    SortDescMeaning(Values(t));
    PositivePermutation(Values(t), Profile(cards));
  }

  /** The profile after the jokers are removed: descending positive counts that add up to the
      number of cards that are not jokers. */
  lemma JokerProfileMeaning(cards: seq<Card>)
    ensures Descending(JokerProfile(cards))
    ensures forall k :: 0 <= k < |JokerProfile(cards)| ==> JokerProfile(cards)[k] >= 1
    ensures Sum(JokerProfile(cards)) + CountIn(TallyOf(cards), J) == |cards|
    ensures CountIn(TallyOf(cards), J) == multiset(cards)[J]
  {
    var t := TallyOf(cards);
    TallyMeaning(cards);
    RemoveMeaning(t, J);
    ValuesPositive(Remove(t, J));
    SortDescMeaning(Values(Remove(t, J)));
    PositivePermutation(Values(Remove(t, J)), JokerProfile(cards));
  }

  /** The sum of a sequence of at most five elements, written out. */
  lemma SumUpToFive(v: seq<int>)
    requires |v| <= 5
    ensures |v| == 0 ==> Sum(v) == 0
    ensures |v| == 1 ==> Sum(v) == v[0]
    ensures |v| == 2 ==> Sum(v) == v[0] + v[1]
    ensures |v| == 3 ==> Sum(v) == v[0] + v[1] + v[2]
    ensures |v| == 4 ==> Sum(v) == v[0] + v[1] + v[2] + v[3]
    ensures |v| == 5 ==> Sum(v) == v[0] + v[1] + v[2] + v[3] + v[4]
  {
    if |v| > 0 {
      var init := v[..|v| - 1];
      SumUpToFive(init);
      assert forall k :: 0 <= k < |init| ==> init[k] == v[k];
    }
  }

  /** A descending sequence of positive numbers adding up to five is one of the seven partitions
      of five. */
  lemma PartitionsOfFive(v: seq<int>)
    requires Descending(v) && Sum(v) == 5
    requires forall k :: 0 <= k < |v| ==> v[k] >= 1
    ensures v == [5] || v == [4, 1] || v == [3, 2] || v == [3, 1, 1] || v == [2, 2, 1] ||
            v == [2, 1, 1, 1] || v == [1, 1, 1, 1, 1]
  {
    SumAtLeastLength(v);
    SumUpToFive(v);
    var n := |v|;
    assert 1 <= n <= 5;
    if n == 1 {
      assert v == [v[0]];
    } else if n == 2 {
      PartsOfTwo(v);
    } else if n == 3 {
      PartsOfThree(v);
    } else if n == 4 {
      PartsOfFour(v);
    } else {
      PartsOfFiveOnes(v);
    }
  }

  lemma PartsOfFiveOnes(v: seq<int>)
    requires |v| == 5 && forall k :: 0 <= k < 5 ==> v[k] >= 1
    requires v[0] + v[1] + v[2] + v[3] + v[4] == 5
    ensures v == [1, 1, 1, 1, 1]
  {
    assert v[0] >= 1 && v[1] >= 1 && v[2] >= 1 && v[3] >= 1 && v[4] >= 1;
    assert v == [v[0], v[1], v[2], v[3], v[4]];
  }

  lemma PartsOfTwo(v: seq<int>)
    requires |v| == 2 && Descending(v) && v[1] >= 1 && v[0] + v[1] == 5
    ensures v == [4, 1] || v == [3, 2]
  {
    assert v[0] >= v[1];
    TwoParts(v[0], v[1]);
    assert v == [v[0], v[1]];
  }

  lemma PartsOfThree(v: seq<int>)
    requires |v| == 3 && Descending(v) && v[2] >= 1 && v[0] + v[1] + v[2] == 5
    ensures v == [3, 1, 1] || v == [2, 2, 1]
  {
    assert v[0] >= v[1] >= v[2];
    ThreeParts(v[0], v[1], v[2]);
    assert v == [v[0], v[1], v[2]];
  }

  lemma PartsOfFour(v: seq<int>)
    requires |v| == 4 && Descending(v) && v[3] >= 1 && v[0] + v[1] + v[2] + v[3] == 5
    ensures v == [2, 1, 1, 1]
  {
    assert v[0] >= v[1] >= v[2] >= v[3];
    FourParts(v[0], v[1], v[2], v[3]);
    assert v == [v[0], v[1], v[2], v[3]];
  }

  lemma TwoParts(a: int, b: int)
    requires a >= b >= 1 && a + b == 5
    ensures (a, b) == (4, 1) || (a, b) == (3, 2)
  {
  }

  lemma ThreeParts(a: int, b: int, c: int)
    requires a >= b >= c >= 1 && a + b + c == 5
    ensures (a, b, c) == (3, 1, 1) || (a, b, c) == (2, 2, 1)
  {
  }

  lemma FourParts(a: int, b: int, c: int, d: int)
    requires a >= b >= c >= d >= 1 && a + b + c + d == 5
    ensures a == 2 && b == 1 && c == 1 && d == 1
  {
  }

  /** The type table of `kind`: each of the seven count profiles of a five-card hand has the type
      the game gives it. */
  lemma KindTable(cards: seq<Card>)
    requires |cards| == 5
    ensures var v := Profile(cards);
      (v == [5] && KindOf(cards) == FiveOfAKind) ||
      (v == [4, 1] && KindOf(cards) == FourOfAKind) ||
      (v == [3, 2] && KindOf(cards) == FullHouse) ||
      (v == [3, 1, 1] && KindOf(cards) == ThreeOfAKind) ||
      (v == [2, 2, 1] && KindOf(cards) == TwoPair) ||
      (v == [2, 1, 1, 1] && KindOf(cards) == Pair) ||
      (v == [1, 1, 1, 1, 1] && KindOf(cards) == HighCard)
  {
    ProfileMeaning(cards);
    PartitionsOfFive(Profile(cards));
    ClassifyPartitions(Profile(cards));
  }

  /** The two `match`es on the partitions of five, without jokers. */
  lemma ClassifyPartitions(v: seq<int>)
    requires v == [5] || v == [4, 1] || v == [3, 2] || v == [3, 1, 1] || v == [2, 2, 1] ||
             v == [2, 1, 1, 1] || v == [1, 1, 1, 1, 1]
    ensures v == [5] ==> Classify(v) == FiveOfAKind
    ensures v == [4, 1] ==> Classify(v) == FourOfAKind
    ensures v == [3, 2] ==> Classify(v) == FullHouse
    ensures v == [3, 1, 1] ==> Classify(v) == ThreeOfAKind
    ensures v == [2, 2, 1] ==> Classify(v) == TwoPair
    ensures v == [2, 1, 1, 1] ==> Classify(v) == Pair
    ensures v == [1, 1, 1, 1, 1] ==> Classify(v) == HighCard
    ensures ClassifyJoker(v, 0) == Classify(v)
  {
  }

  /** A hand without jokers gets the same type in both parts. */
  lemma JokerlessKind(cards: seq<Card>)
    requires |cards| == 5 && J !in cards
    ensures JokerKindOf(cards) == KindOf(cards)
  {
    var t := TallyOf(cards);
    TallyMeaning(cards);
    RemoveMeaning(t, J);
    CountInAbsent(t, J);
    RemoveNothing(t, J);
    ProfileMeaning(cards);
    PartitionsOfFive(Profile(cards));
    ClassifyPartitions(Profile(cards));
  }

  /** Removing a card without an entry changes nothing. */
  lemma {:induction false} RemoveNothing(t: Tally, c: Card)
    requires !HasKey(t, c)
    ensures Remove(t, c) == t
  {
    if t != [] {
      RemoveNothing(t[1..], c);
    }
  }

  /** Five jokers make five of a kind. */
  lemma FiveJokers(cards: seq<Card>)
    requires |cards| == 5 && forall k :: 0 <= k < 5 ==> cards[k] == J
    ensures JokerKindOf(cards) == FiveOfAKind
  {
    JokerProfileMeaning(cards);
    assert cards == [J, J, J, J, J];
    assert multiset(cards)[J] == 5;
    SumAtLeastLength(JokerProfile(cards));
  }

  /** The loop of `kind`: the count table filled one card at a time. */
  method TallyCards(cards: seq<Card>) returns (sorted: Tally)
    ensures sorted == TallyOf(cards)
    ensures forall c :: CountIn(sorted, c) == multiset(cards)[c]
  {
    sorted := [];
    for i := 0 to |cards|
      invariant sorted == TallyOf(cards[..i])
    {
      var card := cards[i];
      assert cards[..i + 1][..i] == cards[..i];
      if HasKey(sorted, card) {
        sorted := Put(sorted, card, CountIn(sorted, card) + 1);
      } else {
        sorted := Put(sorted, card, 1);
      }
    }
    assert cards[..|cards|] == cards;
    TallyMeaning(cards);
  }

  /** `Hand::kind`. */
  method HandKind(cards: seq<Card>) returns (k: Kind)
    ensures k == KindOf(cards)
  {
    var sorted := TallyCards(cards);
    var values := SortDesc(Values(sorted));
    k := Classify(values);
  }

  /** `Hand::joker_kind`. */
  method HandJokerKind(cards: seq<Card>) returns (k: Kind)
    ensures k == JokerKindOf(cards)
    ensures J !in cards && |cards| == 5 ==> k == KindOf(cards)
  {
    var sorted := TallyCards(cards);
    var jokers := 0;
    if HasKey(sorted, J) {
      jokers := CountIn(sorted, J);
    } else {
      CountInAbsent(sorted, J);
    }
    sorted := Remove(sorted, J);
    var values := SortDesc(Values(sorted));
    k := ClassifyJoker(values, jokers);
    if J !in cards && |cards| == 5 {
      JokerlessKind(cards);
    }
  }

  datatype Hand = Hand(cards: seq<Card>, bid: int)

  /** A hand holds five cards of the deck. */
  predicate ValidHand(h: Hand)
  {
    |h.cards| == 5 && forall k :: 0 <= k < 5 ==> ValidCard(h.cards[k])
  }

  /** The lines `Hand::new` accepts: five card letters, then a space and an integer bid. */
  predicate HandLine(line: string)
  {
    |line| >= 5 && CardsText(line, 5) && BidText(line)
  }

  /** Each of the first `n` letters is a card text. */
  predicate CardsText(line: string, n: nat)
    requires n <= |line|
  {
    n == 0 || (CardsText(line, n - 1) && CardText(line[n - 1..n]))
  }

  /** The cards of the first `n` letters, one `Card::new` per letter. */
  function CardsFrom(line: string, n: nat): (r: seq<Card>)
    requires n <= |line| && CardsText(line, n)
    ensures |r| == n
  {
    if n == 0 then [] else CardsFrom(line, n - 1) + [CardNew(line[n - 1..n])]
  }

  /** The bid of a line: the trimmed text after its first space, an integer. */
  predicate BidText(line: string)
  {
    Find(line, ' ').Some? && ParseInt(Trim(line[Find(line, ' ').value + 1..])).Some?
  }

  function Bid(line: string): int
    requires BidText(line)
  {
    ParseInt(Trim(line[Find(line, ' ').value + 1..])).value
  }

  /** `Hand::new`. */
  function HandFrom(line: string): Hand
    requires HandLine(line)
  {
    Hand(CardsFrom(line, 5), Bid(line))
  }

  lemma {:induction false} CardsFromValid(line: string, n: nat)
    requires n <= |line| && CardsText(line, n)
    ensures forall k :: 0 <= k < n ==> ValidCard(CardsFrom(line, n)[k])
  {
    if n > 0 {
      CardsFromValid(line, n - 1);
      CardNewLetter(line[n - 1..n]);
    }
  }

  /** Every line `Hand::new` accepts gives a hand of five cards of the deck. */
  lemma HandFromValid(line: string)
    requires HandLine(line)
    ensures ValidHand(HandFrom(line))
  {
    CardsFromValid(line, 5);
  }

  /** The letter of a card of the deck. */
  function CardLetter(c: Card): char
    requires ValidCard(c)
  {
    match c
    case Num(n) => if n == 10 then 'T' else DigitChar(n)
    case J => 'J'
    case Q => 'Q'
    case K => 'K'
    case A => 'A'
  }

  /** The line of a hand: its card letters, a space and its bid. */
  function ShowHand(h: Hand): string
    requires ValidHand(h)
  {
    [CardLetter(h.cards[0]), CardLetter(h.cards[1]), CardLetter(h.cards[2]), CardLetter(h.cards[3]),
     CardLetter(h.cards[4])] + " " + ShowInt(h.bid)
  }

  lemma CardLetterNew(c: Card, s: string)
    requires ValidCard(c) && s == [CardLetter(c)]
    ensures CardText(s) && CardNew(s) == c
  {
    if c.Num? && c.n < 10 {
      assert s[..0] == [];
      assert AllDigits(s) && Decimal(s) == c.n;
    }
  }

  /** Letters written from cards read back as those cards. */
  lemma {:induction false} CardsRead(line: string, cards: seq<Card>, n: nat)
    requires n <= |line| && n <= |cards|
    requires forall k :: 0 <= k < n ==> ValidCard(cards[k]) && line[k] == CardLetter(cards[k])
    ensures CardsText(line, n) && CardsFrom(line, n) == cards[..n]
  {
    if n > 0 {
      CardsRead(line, cards, n - 1);
      assert line[n - 1..n] == [line[n - 1]];
      CardLetterNew(cards[n - 1], line[n - 1..n]);
      assert cards[..n] == cards[..n - 1] + [cards[n - 1]];
    }
  }

  /** The bid after a word without spaces reads back. */
  lemma BidShown(word: string, bid: int)
    requires ' ' !in word
    ensures BidText(word + " " + ShowInt(bid)) && Bid(word + " " + ShowInt(bid)) == bid
  {
    var line := word + " " + ShowInt(bid);
    assert line == word + [' '] + ShowInt(bid);
    FindAfterPrefix(word, ' ', ShowInt(bid));
    assert line[|word| + 1..] == ShowInt(bid);
    ShowIntPlain(bid);
    ParseShowInt(bid);
  }

  /** Reading the line of a hand gives the hand back. */
  lemma HandFromShown(h: Hand)
    requires ValidHand(h)
    ensures HandLine(ShowHand(h)) && HandFrom(ShowHand(h)) == h
  {
    var line := ShowHand(h);
    var letters := line[..5];
    assert line == letters + " " + ShowInt(h.bid);
    CardsRead(line, h.cards, 5);
    assert h.cards[..5] == h.cards;
    BidShown(letters, h.bid);
  }

  /** Card order of a part: the derived one, or with the joker lowest. */
  function CardOrder(joker: bool, a: Card, b: Card): Ordering
  {
    if joker then CompareJoker(a, b) else CardCmp(a, b)
  }

  function StrengthIn(joker: bool, c: Card): int
  {
    if joker then JokerStrength(c) else Strength(c)
  }

  function KindIn(joker: bool, cards: seq<Card>): Kind
  {
    if joker then JokerKindOf(cards) else KindOf(cards)
  }

  /** The loop over the five positions: the first position whose cards differ decides. */
  function FirstDifference(joker: bool, a: seq<Card>, b: seq<Card>, idx: nat): Ordering
    decreases |a| - idx
  {
    if idx >= |a| || idx >= |b| then Equal
    else if CardOrder(joker, a[idx], b[idx]) != Equal then CardOrder(joker, a[idx], b[idx])
    else FirstDifference(joker, a, b, idx + 1)
  }

  /** `Hand::partial_cmp` (part 1) and `Hand::compare_joker` (part 2). */
  function HandCmp(joker: bool, a: Hand, b: Hand): Ordering
  {
    var ka := KindIn(joker, a.cards);
    var kb := KindIn(joker, b.cards);
    if ka != kb then IntCmp(KindRank(ka), KindRank(kb)) else FirstDifference(joker, a.cards, b.cards, 0)
  }

  /** The strengths of the cards, in order. */
  function Strengths(joker: bool, cards: seq<Card>): (r: seq<int>)
    ensures |r| == |cards|
    ensures forall k :: 0 <= k < |cards| ==> r[k] == StrengthIn(joker, cards[k])
  {
    if cards == [] then [] else [StrengthIn(joker, cards[0])] + Strengths(joker, cards[1..])
  }

  /** The sort key of a hand: its type, then the strengths of its cards. */
  function Key(h: Hand): seq<int>
  {
    [KindRank(KindOf(h.cards)) as int] + Strengths(false, h.cards)
  }

  function JokerKey(h: Hand): seq<int>
  {
    [KindRank(JokerKindOf(h.cards)) as int] + Strengths(true, h.cards)
  }

  function KeyIn(joker: bool, h: Hand): seq<int>
  {
    if joker then JokerKey(h) else Key(h)
  }

  lemma CardOrderStrength(joker: bool, a: Card, b: Card)
    requires ValidCard(a) && ValidCard(b)
    ensures CardOrder(joker, a, b) == IntCmp(StrengthIn(joker, a), StrengthIn(joker, b))
  {
    CardCmpStrength(a, b);
    CompareJokerStrength(a, b);
  }

  /** Comparing card by card from `idx` is comparing the remaining strengths lexicographically. */
  lemma {:induction false} FirstDifferenceLex(joker: bool, a: seq<Card>, b: seq<Card>, idx: nat)
    requires |a| == |b| && idx <= |a|
    requires forall k :: 0 <= k < |a| ==> ValidCard(a[k]) && ValidCard(b[k])
    ensures FirstDifference(joker, a, b, idx) == LexCmp(Strengths(joker, a)[idx..], Strengths(joker, b)[idx..])
    decreases |a| - idx
  {
    var sa := Strengths(joker, a)[idx..];
    var sb := Strengths(joker, b)[idx..];
    if idx < |a| {
      CardOrderStrength(joker, a[idx], b[idx]);
      FirstDifferenceLex(joker, a, b, idx + 1);
      assert sa[1..] == Strengths(joker, a)[idx + 1..];
      assert sb[1..] == Strengths(joker, b)[idx + 1..];
    }
  }

  /** Comparing two hands is comparing their keys: the type first, then the first card that
      differs. */
  lemma HandCmpKey(joker: bool, a: Hand, b: Hand)
    requires ValidHand(a) && ValidHand(b)
    ensures HandCmp(joker, a, b) == LexCmp(KeyIn(joker, a), KeyIn(joker, b))
  {
    var sa := Strengths(joker, a.cards);
    var sb := Strengths(joker, b.cards);
    FirstDifferenceLex(joker, a.cards, b.cards, 0);
    assert sa[0..] == sa && sb[0..] == sb;
    KeyInCons(joker, a);
    KeyInCons(joker, b);
    LexCmpCons(KindRank(KindIn(joker, a.cards)), sa, KindRank(KindIn(joker, b.cards)), sb);
  }

  lemma KeyInCons(joker: bool, h: Hand)
    ensures KeyIn(joker, h) == [KindRank(KindIn(joker, h.cards)) as int] + Strengths(joker, h.cards)
  {
  }

  /** Keys that start with different ranks compare by the rank; otherwise by the rest. */
  lemma LexCmpCons(x: int, s: seq<int>, y: int, t: seq<int>)
    ensures LexCmp([x] + s, [y] + t) == if x != y then IntCmp(x, y) else LexCmp(s, t)
  {
    assert ([x] + s)[1..] == s && ([y] + t)[1..] == t;
  }

  /** Strength tells the cards of the deck apart. */
  lemma StrengthInjective(joker: bool, a: Card, b: Card)
    requires ValidCard(a) && ValidCard(b) && StrengthIn(joker, a) == StrengthIn(joker, b)
    ensures a == b
  {
  }

  /** A comparison is `Equal` exactly when the hands hold the same cards, which is what `eq`
      compares. */
  lemma HandCmpEqual(joker: bool, a: Hand, b: Hand)
    requires ValidHand(a) && ValidHand(b)
    ensures HandCmp(joker, a, b) == Equal <==> a.cards == b.cards
  {
    HandCmpKey(joker, a, b);
    LexCmpOrder(KeyIn(joker, a), KeyIn(joker, b));
    if KeyIn(joker, a) == KeyIn(joker, b) {
      var sa := Strengths(joker, a.cards);
      var sb := Strengths(joker, b.cards);
      assert sa == KeyIn(joker, a)[1..] && sb == KeyIn(joker, b)[1..];
      forall k | 0 <= k < 5
        ensures a.cards[k] == b.cards[k]
      {
        StrengthInjective(joker, a.cards[k], b.cards[k]);
      }
    }
  }

  /** A sequence sorted by key is ordered by the comparison of hands. */
  lemma SortedByHandCmp(joker: bool, hs: seq<Hand>)
    requires forall k :: 0 <= k < |hs| ==> ValidHand(hs[k])
    requires SortedBy(hs, (h: Hand) => KeyIn(joker, h))
    ensures forall p, q :: 0 <= p < q < |hs| ==> HandCmp(joker, hs[q], hs[p]) != Less
  {
    forall p, q | 0 <= p < q < |hs|
      ensures HandCmp(joker, hs[q], hs[p]) != Less
    {
      HandCmpKey(joker, hs[q], hs[p]);
    }
  }

  /** The total winnings: each bid times the rank of its hand, counted from 1. */
  function Winnings(hs: seq<Hand>): int
  {
    if hs == [] then 0 else Winnings(hs[..|hs| - 1]) + hs[|hs| - 1].bid * |hs|
  }

  /** The loop that adds up the winnings of the sorted hands. */
  method TotalWinnings(hands: array<Hand>) returns (res: int)
    ensures res == Winnings(hands[..])
  {
    res := 0;
    for idx := 0 to hands.Length
      invariant res == Winnings(hands[..idx])
    {
      assert hands[..idx + 1][..idx] == hands[..idx];
      res := res + hands[idx].bid * (idx + 1);
    }
    assert hands[..hands.Length] == hands[..];
  }

  /** One part of `main`: the hands sorted in place by the part's order, then the winnings. */
  method RankedWinnings(hands: array<Hand>, joker: bool) returns (res: int)
    requires forall k :: 0 <= k < hands.Length ==> ValidHand(hands[k])
    modifies hands
    ensures multiset(hands[..]) == multiset(old(hands[..]))
    ensures forall p, q :: 0 <= p < q < hands.Length ==> HandCmp(joker, hands[q], hands[p]) != Less
    ensures res == Winnings(hands[..])
  {
    SortByKey(hands, (h: Hand) => KeyIn(joker, h));
    forall k | 0 <= k < hands.Length
      ensures ValidHand(hands[k])
    {
      assert hands[k] in multiset(old(hands[..]));
    }
    SortedByHandCmp(joker, hands[..]);
    res := TotalWinnings(hands);
  }
}
