/** Day 6: boat races. Holding the button for `charge` milliseconds of a race of `time`
    milliseconds makes the boat travel `(time - charge) * charge`; a charge wins when that beats
    the record distance. */
module Day6 {
  import opened Common
  import opened Arith
  import opened Text

  /** `distance_for_time`. */
  function Distance(charge: int, time: int): int
  {
    if time - charge < 0 then 0 else (time - charge) * charge
  }

  /** Holding the button for the whole race or not at all goes nowhere, and holding it for `c`
      goes as far as holding it for `time - c`. */
  lemma DistanceShape(charge: int, time: int)
    ensures Distance(0, time) == 0
    ensures 0 <= charge <= time ==> Distance(charge, time) == Distance(time - charge, time)
    ensures charge > time ==> Distance(charge, time) == 0
    ensures 0 <= charge ==> Distance(charge, time) >= 0
  {
    if 0 <= charge && time - charge >= 0 {
      ProductNonNegative(time - charge, charge);
    }
  }

  predicate Wins(charge: int, time: int, record: int)
  {
    Distance(charge, time) > record
  }

  /** The distance gained by a longer charge: `(b - a) * (time - a - b)`. */
  lemma DistanceDifference(a: int, b: int, time: int)
    requires a <= time && b <= time
    ensures Distance(b, time) - Distance(a, time) == (b - a) * (time - a - b)
  {
    assert (time - b) * b - (time - a) * a == (b - a) * (time - a - b);
  }

  /** A charge between two winning charges wins too: the distance rises and then falls. */
  lemma WinsBetween(a: int, b: int, c: int, time: int, record: int)
    requires 0 <= a <= b <= c <= time
    requires Wins(a, time, record) && Wins(c, time, record)
    ensures Wins(b, time, record)
  {
    DistanceDifference(a, b, time);
    DistanceDifference(b, c, time);
    if a + b <= time {
      ProductNonNegative(b - a, time - a - b);
    } else {
      ProductNonNegative(c - b, b + c - time);
      assert (c - b) * (time - b - c) == -((c - b) * (b + c - time));
    }
  }

  /** The number of winning charges among 0 .. n - 1. */
  function CountBelow(n: nat, time: int, record: int): nat
  {
    if n == 0 then 0 else CountBelow(n - 1, time, record) + (if Wins(n - 1, time, record) then 1 else 0)
  }

  /** The charges tried in a race: 0 .. time - 1, none when the race has no time. */
  function Tries(time: int): nat { if time > 0 then time else 0 }

  /** The part-1 count of one race. */
  function WinCount(time: int, record: int): nat
  {
    CountBelow(Tries(time), time, record)
  }

  /** The inner loop of part 1: counts the winning charges of one race. */
  method CountWins(time: int, record: int) returns (res: nat)
    ensures res == WinCount(time, record)
  {
    res := 0;
    var charge := 0;
    while charge < time
      invariant 0 <= charge <= Tries(time)
      invariant res == CountBelow(charge, time, record)
    {
      if Distance(charge, time) > record {
        res := res + 1;
      }
      charge := charge + 1;
    }
  }

  function Product(xs: seq<int>): int
  {
    if xs == [] then 1 else Product(xs[..|xs| - 1]) * xs[|xs| - 1]
  }

  function WinCounts(times: seq<int>, records: seq<int>): (counts: seq<int>)
    requires |times| <= |records|
    ensures |counts| == |times|
  {
    seq(|times|, i requires 0 <= i < |times| => WinCount(times[i], records[i]))
  }

  /** Part 1: the product over the races of their numbers of winning charges. */
  method Part1(times: seq<int>, records: seq<int>) returns (part1: int)
    requires |times| <= |records|
    ensures part1 == Product(WinCounts(times, records))
  {
    part1 := 1;
    for i := 0 to |times|
      invariant part1 == Product(WinCounts(times[..i], records))
    {
      var res := CountWins(times[i], records[i]);
      assert WinCounts(times[..i + 1], records)[..i] == WinCounts(times[..i], records);
      part1 := part1 * res;
    }
    assert times[..|times|] == times;
  }

  /** Some charge of the race wins. */
  predicate Winnable(time: int, record: int)
  {
    exists c :: 0 <= c < time && Wins(c, time, record)
  }

  /** The first loop of part 2: the least winning charge, or 0 when none wins. */
  method Lower(time: int, record: int) returns (lower: int)
    ensures Winnable(time, record) ==>
      0 <= lower < time && Wins(lower, time, record) &&
      forall c :: 0 <= c < lower ==> !Wins(c, time, record)
    ensures !Winnable(time, record) ==> lower == 0
  {
    lower := 0;
    var charge := 0;
    while charge < time
      invariant 0 <= charge <= Tries(time)
      invariant forall c :: 0 <= c < charge ==> !Wins(c, time, record)
    {
      if Distance(charge, time) > record {
        lower := charge;
        assert Wins(charge, time, record);
        return;
      }
      charge := charge + 1;
    }
  }

  /** The second loop of part 2: the greatest winning charge, or 0 when none wins. */
  method Upper(time: int, record: int) returns (upper: int)
    ensures Winnable(time, record) ==>
      0 <= upper < time && Wins(upper, time, record) &&
      forall c :: upper < c < time ==> !Wins(c, time, record)
    ensures !Winnable(time, record) ==> upper == 0
  {
    upper := 0;
    var charge := if time > 0 then time else 0;
    while charge > 0
      invariant charge >= 0 && (time <= 0 ==> charge == 0) && (time > 0 ==> charge <= time)
      invariant forall c :: charge <= c < time ==> !Wins(c, time, record)
    {
      charge := charge - 1;
      if Distance(charge, time) > record {
        upper := charge;
        assert Wins(charge, time, record);
        return;
      }
    }
  }

  /** With winners from `lower` to `upper` and no others, the charges below `n` that win are those
      from `lower` to `upper` below `n`. */
  lemma {:induction false} CountSpan(n: nat, time: int, record: int, lower: int, upper: int)
    requires 0 <= lower <= upper < time
    requires forall c :: 0 <= c < time ==> (Wins(c, time, record) <==> lower <= c <= upper)
    requires n <= time
    ensures CountBelow(n, time, record) ==
      if n <= lower then 0 else if n <= upper then n - lower else upper - lower + 1
  {
    if n > 0 {
      CountSpan(n - 1, time, record, lower, upper);
    }
  }

  /** The winning charges form one interval, so the part-2 answer `upper - lower + 1` is the
      number of winning charges whenever some charge wins. */
  lemma SpanIsCount(time: int, record: int, lower: int, upper: int)
    requires Winnable(time, record)
    requires 0 <= lower < time && Wins(lower, time, record)
    requires forall c :: 0 <= c < lower ==> !Wins(c, time, record)
    requires 0 <= upper < time && Wins(upper, time, record)
    requires forall c :: upper < c < time ==> !Wins(c, time, record)
    ensures lower <= upper && upper - lower + 1 == WinCount(time, record)
  {
    forall c | 0 <= c < time
      ensures Wins(c, time, record) <==> lower <= c <= upper
    {
      if lower <= c <= upper {
        WinsBetween(lower, c, upper, time, record);
      }
    }
    CountSpan(time, time, record, lower, upper);
  }

  /** Part 2 as written: `upper - lower + 1` from the two searches. */
  method Part2(time: int, record: int) returns (answer: int)
    ensures Winnable(time, record) ==> answer == WinCount(time, record)
    ensures !Winnable(time, record) ==> answer == 1
  {
    var lower := Lower(time, record);
    var upper := Upper(time, record);
    if Winnable(time, record) {
      SpanIsCount(time, record, lower, upper);
    }
    answer := upper - lower + 1;
  }

  /** As written, a race that cannot be won answers 1, where counting its winning charges gives 0:
      a race of 3 milliseconds against a record of 5. */
  lemma UnwinnableRace()
    ensures !Winnable(3, 5) && WinCount(3, 5) == 0
  {
    assert CountBelow(3, 3, 5) == 0;
  }

  /** Part 2 with the count the puzzle asks for: 0 when no charge wins. */
  method Part2Fixed(time: int, record: int) returns (answer: int)
    ensures answer == WinCount(time, record)
  {
    var lower := Lower(time, record);
    var upper := Upper(time, record);
    if Winnable(time, record) {
      SpanIsCount(time, record, lower, upper);
      answer := upper - lower + 1;
    } else {
      NoWinnerCount(Tries(time), time, record);
      answer := 0;
    }
  }

  lemma {:induction false} NoWinnerCount(n: nat, time: int, record: int)
    requires n <= Tries(time) && !Winnable(time, record)
    ensures CountBelow(n, time, record) == 0
  {
    if n > 0 {
      NoWinnerCount(n - 1, time, record);
    }
  }

  /** The integers after the colon of a line. */
  function ValuesOf(line: string): seq<int>
    requires Find(line, ':').Some?
  {
    Numbers(line[Find(line, ':').value + 1..])
  }

  /** A line written as a name, a colon and the values joined by spaces reads back as those
      values: the `times` and `distances` of part 1. */
  lemma ValuesOfShown(name: string, xs: seq<int>)
    requires ':' !in name
    ensures Find(name + ":" + Join(ShowAll(xs), ' '), ':') == Some(|name|)
    ensures ValuesOf(name + ":" + Join(ShowAll(xs), ' ')) == xs
  {
    var shown := Join(ShowAll(xs), ' ');
    var line := name + ":" + shown;
    assert line == name + [':'] + shown;
    FindAfterPrefix(name, ':', shown);
    assert line[|name| + 1..] == shown;
    NumbersShown(xs);
  }

  /** The text without its spaces. */
  function Squeeze(s: string): string
  {
    if s == [] then [] else (if s[0] == ' ' then [] else [s[0]]) + Squeeze(s[1..])
  }

  /** `map(|x| x.trim()).collect::<String>()`: the trimmed pieces, one after another. */
  function ConcatTrimmed(pieces: seq<string>): string
  {
    if pieces == [] then [] else Trim(pieces[0]) + ConcatTrimmed(pieces[1..])
  }

  /** Squeezing drops the first space and keeps what comes before it. */
  lemma {:induction false} SqueezeAt(s: string, i: nat)
    requires i < |s| && s[i] == ' ' && ' ' !in s[..i]
    ensures Squeeze(s) == s[..i] + Squeeze(s[i + 1..])
  {
    if i > 0 {
      assert s[0] == s[..i][0];
      assert s[1..][..i - 1] == s[1..i];
      assert s[1..][i - 1] == s[i];
      assert s[..i][1..] == s[1..i];
      SqueezeAt(s[1..], i - 1);
      assert s[1..][i..] == s[i + 1..];
      assert [s[0]] + s[1..i] == s[..i];
    }
  }

  lemma {:induction false} SqueezeNoSpace(s: string)
    requires ' ' !in s
    ensures Squeeze(s) == s
  {
    if s != [] {
      assert s[1..] == s[1..];
      assert forall k :: 0 <= k < |s[1..]| ==> s[1..][k] == s[k + 1];
      SqueezeNoSpace(s[1..]);
    }
  }

  /** Only the space separates the digits of a line. */
  predicate PlainSpaces(s: string)
  {
    forall k :: 0 <= k < |s| ==> s[k] == ' ' || !IsSpace(s[k])
  }

  /** A piece of a plain line before its first space holds no whitespace, so trimming keeps it. */
  lemma TrimPlainPiece(s: string, i: nat)
    requires PlainSpaces(s) && i <= |s| && ' ' !in s[..i]
    ensures Trim(s[..i]) == s[..i]
  {
    forall k | 0 <= k < i
      ensures !IsSpace(s[..i][k])
    {
      assert s[..i][k] == s[k];
    }
  }

  lemma PlainSuffix(s: string, i: nat)
    requires PlainSpaces(s) && i <= |s|
    ensures PlainSpaces(s[i..])
  {
    forall k | 0 <= k < |s[i..]|
      ensures s[i..][k] == ' ' || !IsSpace(s[i..][k])
    {
      assert s[i..][k] == s[i + k];
    }
  }

  lemma ConcatTrimmedPlain(s: string)
    requires PlainSpaces(s) && ' ' !in s
    ensures ConcatTrimmed([s]) == Squeeze(s)
  {
    SqueezeNoSpace(s);
    TrimPlainPiece(s, |s|);
    assert s[..|s|] == s;
    assert ConcatTrimmed([s]) == Trim(s) + ConcatTrimmed([]);
  }

  lemma ConcatTrimmedStep(s: string, i: nat, rest: seq<string>)
    requires PlainSpaces(s) && i < |s| && s[i] == ' ' && ' ' !in s[..i]
    requires ConcatTrimmed(rest) == Squeeze(s[i + 1..])
    ensures ConcatTrimmed([s[..i]] + rest) == Squeeze(s)
  {
    TrimPlainPiece(s, i);
    SqueezeAt(s, i);
    assert ([s[..i]] + rest)[1..] == rest;
  }

  /** Joining the trimmed space-separated tokens drops exactly the spaces: part 2 reads the digits
      of all the numbers of a line as a single number. */
  lemma {:induction false} ConcatTrimmedSplit(s: string)
    requires PlainSpaces(s)
    ensures ConcatTrimmed(Split(s, ' ')) == Squeeze(s)
    decreases |s|
  {
    match Find(s, ' ')
    case None =>
      ConcatTrimmedPlain(s);
    case Some(i) =>
      PlainSuffix(s, i + 1);
      ConcatTrimmedSplit(s[i + 1..]);
      ConcatTrimmedStep(s, i, Split(s[i + 1..], ' '));
  }

  /** The part-2 reading of a line: the digits after the colon with the spaces dropped. */
  function JoinedValue(line: string): int
    requires Find(line, ':').Some?
    requires ParseInt(ConcatTrimmed(Split(line[Find(line, ':').value + 1..], ' '))).Some?
  {
    ParseInt(ConcatTrimmed(Split(line[Find(line, ':').value + 1..], ' '))).value
  }

  /** For a line whose only whitespace is the space, the part-2 value is the text after the
      colon with its spaces dropped, read as one number. */
  lemma JoinedValueSqueezed(line: string)
    requires Find(line, ':').Some? && PlainSpaces(line)
    ensures var rest := line[Find(line, ':').value + 1..];
      ConcatTrimmed(Split(rest, ' ')) == Squeeze(rest)
    ensures var rest := line[Find(line, ':').value + 1..];
      ParseInt(Squeeze(rest)).Some? ==> JoinedValue(line) == ParseInt(Squeeze(rest)).value
  {
    var rest := line[Find(line, ':').value + 1..];
    assert forall k :: 0 <= k < |rest| ==> rest[k] == line[Find(line, ':').value + 1 + k];
    ConcatTrimmedSplit(rest);
  }
}
