/** Day 1: the calibration value of a line is its first and last digit, where a digit is
    an ASCII digit or one of the English words "one" to "nine". */
module Day1 {
  import opened Common
  import opened Text

  /** The words for 1 to 9; `Words[k]` spells k + 1. */
  const Words: seq<string> := ["one", "two", "three", "four", "five", "six", "seven", "eight", "nine"]

  predicate StartsWith(s: string, prefix: string)
  {
    |prefix| <= |s| && s[..|prefix|] == prefix
  }

  /** The guards of `read_digit` after the first: the first word `Words[j]`, j >= k, that
      `input` starts with, tried in the order "one" to "nine". */
  function WordFrom(input: string, k: nat): (r: Option<nat>)
    requires k <= 9
    ensures r.None? <==> forall j :: k <= j < 9 ==> !StartsWith(input, Words[j])
    ensures r.Some? ==> k + 1 <= r.value <= 9 && StartsWith(input, Words[r.value - 1])
    ensures r.Some? ==> forall j :: k <= j < r.value - 1 ==> !StartsWith(input, Words[j])
    decreases 9 - k
  {
    if k == 9 then None
    else if StartsWith(input, Words[k]) then Some(k + 1)
    else WordFrom(input, k + 1)
  }

  /** `read_digit`: the digit that `input` starts with, as a character or as a word. */
  function ReadDigit(input: string): (r: Option<nat>)
    requires |input| > 0
    ensures IsDigit(input[0]) ==> r == Some(DigitValue(input[0]))
    ensures !IsDigit(input[0]) ==>
      (r.Some? <==> exists k :: 0 <= k < 9 && StartsWith(input, Words[k]))
    ensures !IsDigit(input[0]) && r.Some? ==> 1 <= r.value <= 9 && StartsWith(input, Words[r.value - 1])
    ensures r.Some? ==> r.value <= 9
  {
    if IsDigit(input[0]) then Some(DigitValue(input[0])) else WordFrom(input, 0)
  }

  /** No digit word is a prefix of another, so the match of `ReadDigit` is the only one. */
  lemma WordMatchUnique(input: string, j: nat, k: nat)
    requires j < 9 && k < 9
    requires StartsWith(input, Words[j]) && StartsWith(input, Words[k])
    ensures j == k
  {
    assert input[0] == Words[j][0] && input[1] == Words[j][1];
    assert input[0] == Words[k][0] && input[1] == Words[k][1];
    assert j == 0 || j == 1 || j == 2 || j == 3 || j == 4 || j == 5 || j == 6 || j == 7 || j == 8;
    assert k == 0 || k == 1 || k == 2 || k == 3 || k == 4 || k == 5 || k == 6 || k == 7 || k == 8;
  }

  /** The digits read at start indices 0 .. n - 1, in that order. */
  function DigitsUpTo(line: string, n: nat): (ds: seq<nat>)
    requires n <= |line|
    ensures forall i :: 0 <= i < |ds| ==> ds[i] <= 9
    ensures |ds| <= n
  {
    if n == 0 then []
    else
      var before := DigitsUpTo(line, n - 1);
      match ReadDigit(line[n - 1..])
      case Some(d) => before + [d]
      case None => before
  }

  /** Every digit of the line, read from every start index, so that overlapping words count twice. */
  function Digits(line: string): seq<nat>
  {
    DigitsUpTo(line, |line|)
  }

  /** The calibration value: ten times the first digit plus the last digit. */
  function Calibration(line: string): (r: nat)
    requires Digits(line) != []
    ensures r <= 99
    ensures |Digits(line)| == 1 ==> r == 11 * Digits(line)[0]
  {
    var ds := Digits(line);
    10 * ds[0] + ds[|ds| - 1]
  }

  /** `number_from_line`: collects the digits at every index, then combines the first and the last. */
  method NumberFromLine(line: string) returns (r: nat)
    requires Digits(line) != []
    ensures r == Calibration(line)
    ensures r <= 99
  {
    var numbers: seq<nat> := [];
    for idx := 0 to |line|
      invariant numbers == DigitsUpTo(line, idx)
    {
      var d := ReadDigit(line[idx..]);
      match d {
        case Some(res) => numbers := numbers + [res];
        case None =>
      }
    }
    var first := numbers[0];
    var last := numbers[|numbers| - 1];
    r := first * 10 + last;
  }

  /** Every word is at least three letters long and starts with one of "otfsen". */
  lemma WordShapes(j: nat)
    requires j < 9
    ensures |Words[j]| >= 3 && Words[j][0] in "otfsen"
  {
    assert j == 0 || j == 1 || j == 2 || j == 3 || j == 4 || j == 5 || j == 6 || j == 7 || j == 8;
  }

  lemma NoWordAt(input: string)
    requires |input| > 0 && !IsDigit(input[0])
    requires |input| < 3 || input[0] !in "otfsen"
    ensures ReadDigit(input).None?
  {
    forall j | 0 <= j < 9
      ensures !StartsWith(input, Words[j])
    {
      WordShapes(j);
    }
  }

  /** Where `read_digit` finds a word in "eightwo". */
  lemma EightTwoWords()
    ensures ReadDigit("eightwo") == Some(8)
    ensures ReadDigit("eightwo"[4..]) == Some(2)
  {
    var line := "eightwo";
    assert StartsWith(line, Words[7]);
    var r0 := ReadDigit(line);
    WordMatchUnique(line, r0.value - 1, 7);
    assert StartsWith(line[4..], Words[1]);
    var r4 := ReadDigit(line[4..]);
    WordMatchUnique(line[4..], r4.value - 1, 1);
  }

  /** Where `read_digit` finds nothing in "eightwo". */
  lemma EightTwoGaps()
    ensures ReadDigit("eightwo"[1..]).None? && ReadDigit("eightwo"[2..]).None?
    ensures ReadDigit("eightwo"[3..]).None? && ReadDigit("eightwo"[5..]).None?
    ensures ReadDigit("eightwo"[6..]).None?
  {
    var line := "eightwo";
    NoWordAt(line[1..]);
    NoWordAt(line[2..]);
    NoWordAt(line[3..]);
    NoWordAt(line[5..]);
    NoWordAt(line[6..]);
  }

  /** Overlapping words both count: "eightwo" reads 8 and then 2. */
  lemma OverlappingWords()
    ensures Digits("eightwo") == [8, 2]
    ensures Calibration("eightwo") == 82
  {
    var line := "eightwo";
    EightTwoWords();
    EightTwoGaps();
    DigitsOfSeven(line, 8, 4, 2);
  }

  /** A seven-character line that reads digit `a` at index 0, digit `b` at index `k` and nothing
      elsewhere has the digits `a` and `b`. */
  lemma DigitsOfSeven(line: string, a: nat, k: nat, b: nat)
    requires |line| == 7 && 0 < k < 7
    requires line[0..] == line && ReadDigit(line) == Some(a) && ReadDigit(line[k..]) == Some(b)
    requires forall i :: 0 < i < 7 && i != k ==> ReadDigit(line[i..]).None?
    ensures Digits(line) == [a, b]
  {
    DigitsPrefix(line, a, k, b, 6);
  }

  lemma {:induction false} DigitsPrefix(line: string, a: nat, k: nat, b: nat, n: nat)
    requires |line| == 7 && 0 < k < 7 && n < 7
    requires line[0..] == line && ReadDigit(line) == Some(a) && ReadDigit(line[k..]) == Some(b)
    requires forall i :: 0 < i < 7 && i != k ==> ReadDigit(line[i..]).None?
    ensures DigitsUpTo(line, n + 1) == if n < k then [a] else [a, b]
  {
    DigitsStep(line, n);
    if n > 0 {
      DigitsPrefix(line, a, k, b, n - 1);
    }
  }

  /** Reading one more start index adds the digit read there, if any. */
  lemma DigitsStep(line: string, n: nat)
    requires n < |line|
    ensures ReadDigit(line[n..]).None? ==> DigitsUpTo(line, n + 1) == DigitsUpTo(line, n)
    ensures ReadDigit(line[n..]).Some? ==> DigitsUpTo(line, n + 1) == DigitsUpTo(line, n) + [ReadDigit(line[n..]).value]
  {
  }
}
