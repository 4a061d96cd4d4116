/** The string operations the solvers use (`find`, `split`, `trim`, `parse`), on ASCII text. */
module Text {
  import opened Common

  predicate IsDigit(c: char) { '0' <= c <= '9' }

  function DigitValue(c: char): (d: nat)
    requires IsDigit(c)
    ensures d <= 9
  {
    (c as int) - ('0' as int)
  }

  function DigitChar(d: nat): (c: char)
    requires d <= 9
    ensures IsDigit(c) && DigitValue(c) == d
  {
    (('0' as int) + d) as char
  }

  /** ASCII whitespace, what `str::trim` strips from ASCII text (space, \t, \n, \v, \f, \r). */
  predicate IsSpace(c: char) { c == ' ' || 9 <= c as int <= 13 }

  /** `str::find(c)`: the index of the first occurrence of `c`. */
  function Find(s: string, c: char): (r: Option<nat>)
    ensures r.Some? ==> r.value < |s| && s[r.value] == c && c !in s[..r.value]
    ensures r.None? <==> c !in s
  {
    if |s| == 0 then None
    else if s[0] == c then Some(0)
    else match Find(s[1..], c)
      case None => None
      case Some(i) => Some(i + 1)
  }

  /** `str::find` gives the first position that holds the character. */
  lemma {:induction false} FindFirst(s: string, c: char, k: nat)
    requires k < |s| && s[k] == c
    requires forall j :: 0 <= j < k ==> s[j] != c
    ensures Find(s, c).Some? && Find(s, c).value == k
  {
    if k > 0 {
      assert s[0] != c;
      FindFirst(s[1..], c, k - 1);
    }
  }

  /** The pieces joined back with the separator between neighbours. */
  function Join(parts: seq<string>, sep: char): string
  {
    if |parts| == 0 then ""
    else if |parts| == 1 then parts[0]
    else parts[0] + [sep] + Join(parts[1..], sep)
  }

  /** `str::split(sep)`: one more piece than separators; empty pieces are kept. */
  function Split(s: string, sep: char): (r: seq<string>)
    ensures |r| >= 1
    decreases |s|
  {
    match Find(s, sep)
    case None => [s]
    case Some(i) => [s[..i]] + Split(s[i + 1..], sep)
  }

  /** No piece holds the separator. */
  lemma {:induction false} SplitPieces(s: string, sep: char)
    ensures forall i :: 0 <= i < |Split(s, sep)| ==> sep !in Split(s, sep)[i]
    decreases |s|
  {
    match Find(s, sep)
    case None =>
    case Some(i) =>
      SplitPieces(s[i + 1..], sep);
      var r := Split(s, sep);
      forall k | 1 <= k < |r|
        ensures sep !in r[k]
      {
        assert r[k] == Split(s[i + 1..], sep)[k - 1];
      }
  }

  /** Joining the pieces with the separator gives back the text. */
  lemma {:induction false} JoinSplit(s: string, sep: char)
    ensures Join(Split(s, sep), sep) == s
    decreases |s|
  {
    match Find(s, sep)
    case None =>
    case Some(i) =>
      var rest := Split(s[i + 1..], sep);
      JoinSplit(s[i + 1..], sep);
      var parts := [s[..i]] + rest;
      assert parts[1..] == rest;
      calc {
        Join(Split(s, sep), sep);
        Join(parts, sep);
        s[..i] + [sep] + Join(rest, sep);
        s[..i] + [sep] + s[i + 1..];
        s;
      }
  }

  lemma FindAfterPrefix(p: string, sep: char, t: string)
    requires sep !in p
    ensures Find(p + [sep] + t, sep) == Some(|p|)
  {
    var s := p + [sep] + t;
    assert s[|p|] == sep;
    assert s[..|p|] == p;
  }

  /** Splitting undoes joining when no piece holds the separator. */
  lemma {:induction false} SplitJoin(parts: seq<string>, sep: char)
    requires |parts| >= 1
    requires forall i :: 0 <= i < |parts| ==> sep !in parts[i]
    ensures Split(Join(parts, sep), sep) == parts
  {
    if |parts| == 1 {
      assert Find(parts[0], sep).None?;
    } else {
      SplitAfterPiece(parts[0], sep, Join(parts[1..], sep));
      SplitJoin(parts[1..], sep);
      assert parts == [parts[0]] + parts[1..];
    }
  }

  /** A piece without the separator, then the separator, is split off first. */
  lemma SplitAfterPiece(p: string, sep: char, t: string)
    requires sep !in p
    ensures Split(p + [sep] + t, sep) == [p] + Split(t, sep)
  {
    var s := p + [sep] + t;
    FindAfterPrefix(p, sep, t);
    assert s[|p| + 1..] == t;
    assert s[..|p|] == p;
  }

  function TrimStart(s: string): (r: string)
    ensures |r| <= |s| && r == s[|s| - |r|..]
    ensures r == [] || !IsSpace(r[0])
    ensures forall i :: 0 <= i < |s| - |r| ==> IsSpace(s[i])
  {
    if |s| > 0 && IsSpace(s[0]) then TrimStart(s[1..]) else s
  }

  function TrimEnd(s: string): (r: string)
    ensures |r| <= |s| && r == s[..|r|]
    ensures r == [] || !IsSpace(r[|r| - 1])
    ensures forall i :: |r| <= i < |s| ==> IsSpace(s[i])
  {
    if |s| > 0 && IsSpace(s[|s| - 1]) then TrimEnd(s[..|s| - 1]) else s
  }

  /** `str::trim`: the text without leading and trailing whitespace. */
  function Trim(s: string): (r: string)
    ensures r == [] || (!IsSpace(r[0]) && !IsSpace(r[|r| - 1]))
    ensures (forall i :: 0 <= i < |s| ==> !IsSpace(s[i])) ==> r == s
  {
    TrimEnd(TrimStart(s))
  }

  predicate AllDigits(s: string) { forall i :: 0 <= i < |s| ==> IsDigit(s[i]) }

  /** The decimal value of a string of digits, most significant first. */
  function Decimal(s: string): nat
    requires AllDigits(s)
  {
    if s == [] then 0 else 10 * Decimal(s[..|s| - 1]) + DigitValue(s[|s| - 1])
  }

  /** The digits part of `parse::<i64>()`, with no sign and no width limit: some digits and
      nothing else. */
  function ParseNat(s: string): (r: Option<nat>)
    ensures r.Some? <==> |s| > 0 && AllDigits(s)
  {
    if |s| > 0 && AllDigits(s) then Some(Decimal(s)) else None
  }

  /** `parse::<i64>()` without the width limit: an optional `+` or `-` before the digits. */
  function ParseInt(s: string): (r: Option<int>)
    ensures r.Some? <==> (|s| > 0 && AllDigits(s)) || (|s| > 1 && (s[0] == '-' || s[0] == '+') && AllDigits(s[1..]))
    ensures r.Some? && |s| > 0 && s[0] == '-' ==> r.value <= 0
    ensures r.Some? && |s| > 0 && s[0] != '-' ==> r.value >= 0
  {
    if |s| > 0 && s[0] == '-' then
      match ParseNat(s[1..])
      case Some(n) => Some(0 - n as int)
      case None => None
    else if |s| > 0 && s[0] == '+' then
      match ParseNat(s[1..])
      case Some(n) => Some(n)
      case None => None
    else
      match ParseNat(s)
      case Some(n) => Some(n)
      case None => None
  }

  /** The shortest decimal spelling of a natural number. */
  function ShowNat(n: nat): (s: string)
    ensures |s| > 0 && AllDigits(s)
  {
    if n < 10 then [DigitChar(n)] else ShowNat(n / 10) + [DigitChar(n % 10)]
  }

  function ShowInt(i: int): (s: string)
  {
    if i < 0 then "-" + ShowNat(-i) else ShowNat(i)
  }

  lemma {:induction false} DecimalShowNat(n: nat)
    ensures Decimal(ShowNat(n)) == n
  {
    if n >= 10 {
      var s := ShowNat(n);
      assert s[..|s| - 1] == ShowNat(n / 10);
      DecimalShowNat(n / 10);
    }
  }

  /** Parsing reads back what showing wrote. */
  lemma ParseShowInt(i: int)
    ensures ParseInt(ShowInt(i)) == Some(i)
  {
    DecimalShowNat(if i < 0 then -i else i);
    if i < 0 {
      assert ShowInt(i)[1..] == ShowNat(-i);
    }
  }

  /** `split(' ').filter_map(|t| t.trim().parse().ok())`: the integers among the space-separated tokens. */
  function NumbersIn(tokens: seq<string>): (r: seq<int>)
    ensures |r| <= |tokens|
  {
    if tokens == [] then []
    else
      var rest := NumbersIn(tokens[1..]);
      match ParseInt(Trim(tokens[0]))
      case Some(v) => [v] + rest
      case None => rest
  }

  function Numbers(s: string): seq<int>
  {
    NumbersIn(Split(s, ' '))
  }

  function ShowAll(xs: seq<int>): (r: seq<string>)
    ensures |r| == |xs|
    ensures forall k :: 0 <= k < |r| ==> r[k] == ShowInt(xs[k])
  {
    if xs == [] then [] else [ShowInt(xs[0])] + ShowAll(xs[1..])
  }

  lemma ShowIntPlain(i: int)
    ensures |ShowInt(i)| > 0
    ensures forall k :: 0 <= k < |ShowInt(i)| ==> !IsSpace(ShowInt(i)[k])
  {
    var n := if i < 0 then -i else i;
    var s := ShowNat(n);
    assert forall k :: 0 <= k < |s| ==> IsDigit(s[k]);
  }

  lemma {:induction false} NumbersInShowAll(xs: seq<int>)
    ensures NumbersIn(ShowAll(xs)) == xs
  {
    if xs != [] {
      var t := ShowAll(xs);
      assert t[1..] == ShowAll(xs[1..]);
      ShowIntPlain(xs[0]);
      assert Trim(t[0]) == t[0];
      ParseShowInt(xs[0]);
      NumbersInShowAll(xs[1..]);
    }
  }

  /** Reading integers back from the text that lists them separated by single spaces. */
  lemma NumbersRoundTrip(xs: seq<int>)
    requires |xs| >= 1
    ensures Numbers(Join(ShowAll(xs), ' ')) == xs
  {
    var parts := ShowAll(xs);
    forall k | 0 <= k < |parts|
      ensures ' ' !in parts[k]
    {
      ShowIntPlain(xs[k]);
    }
    SplitJoin(parts, ' ');
    NumbersInShowAll(xs);
  }
  /** The characters of a shown integer are digits and perhaps a leading minus sign. */
  lemma ShowIntChars(i: int)
    ensures forall k :: 0 <= k < |ShowInt(i)| ==> IsDigit(ShowInt(i)[k]) || ShowInt(i)[k] == '-'
  {
    var n := if i < 0 then -i else i;
    var s := ShowNat(n);
    assert forall k :: 0 <= k < |s| ==> IsDigit(s[k]);
  }

  /** A list of integers shown and joined holds only digits, minus signs and the separator. */
  lemma {:induction false} JoinShowAllChars(xs: seq<int>, sep: char)
    ensures forall k :: 0 <= k < |Join(ShowAll(xs), sep)| ==>
      var ch := Join(ShowAll(xs), sep)[k]; ch == sep || ch == '-' || IsDigit(ch)
  {
    if |xs| == 1 {
      ShowIntChars(xs[0]);
    } else if |xs| > 1 {
      var t := ShowAll(xs);
      assert t[1..] == ShowAll(xs[1..]);
      ShowIntChars(xs[0]);
      JoinShowAllChars(xs[1..], sep);
      var head, rest := t[0], Join(t[1..], sep);
      assert Join(t, sep) == head + [sep] + rest;
      forall k | 0 <= k < |Join(t, sep)|
        ensures var ch := Join(t, sep)[k]; ch == sep || ch == '-' || IsDigit(ch)
      {
        if k < |head| {
          assert Join(t, sep)[k] == head[k];
        } else if k > |head| {
          assert Join(t, sep)[k] == rest[k - |head| - 1];
        }
      }
    }
  }

  lemma SplitLastPiece(s: string, sep: char)
    requires sep !in s
    ensures Split(s + [sep], sep) == [s, ""]
  {
    var t := s + [sep];
    FindAfterPrefix(s, sep, "");
    assert t[|s| + 1..] == "";
    assert t[..|s|] == s;
    assert Find("", sep).None?;
  }

  lemma FindAppend(s: string, sep: char, i: nat)
    requires Find(s, sep) == Some(i)
    ensures Find(s + [sep], sep) == Some(i)
  {
    var t := s + [sep];
    assert t == s[..i] + [sep] + t[i + 1..];
    FindAfterPrefix(s[..i], sep, t[i + 1..]);
  }

  /** A trailing separator adds one empty piece. */
  lemma {:induction false} SplitAppendSep(s: string, sep: char)
    ensures Split(s + [sep], sep) == Split(s, sep) + [""]
    decreases |s|, 1
  {
    match Find(s, sep)
    case None => SplitLastPiece(s, sep);
    case Some(i) => SplitAppendSepAt(s, sep, i);
  }

  lemma {:induction false} SplitAppendSepAt(s: string, sep: char, i: nat)
    requires Find(s, sep) == Some(i)
    ensures Split(s + [sep], sep) == Split(s, sep) + [""]
    decreases |s|, 0
  {
    var t := s + [sep];
    FindAppend(s, sep, i);
    assert t[..i] == s[..i];
    assert t[i + 1..] == s[i + 1..] + [sep];
    SplitAt(t, sep, i);
    SplitAt(s, sep, i);
    SplitAppendSep(s[i + 1..], sep);
    var head, rest := s[..i], Split(s[i + 1..], sep);
    assert [head] + (rest + [""]) == ([head] + rest) + [""];
  }

  /** Splitting at a found separator. */
  lemma SplitAt(s: string, sep: char, i: nat)
    requires Find(s, sep) == Some(i)
    ensures Split(s, sep) == [s[..i]] + Split(s[i + 1..], sep)
  {
  }

  /** A leading separator adds one empty piece. */
  lemma SplitLeadingSep(s: string, sep: char)
    ensures Split([sep] + s, sep) == [""] + Split(s, sep)
  {
    FindAfterPrefix("", sep, s);
    assert ([sep] + s)[1..] == s;
  }

  lemma {:induction false} NumbersInAppendEmpty(tokens: seq<string>)
    ensures NumbersIn(tokens + [""]) == NumbersIn(tokens)
  {
    if tokens == [] {
      assert Trim("") == "";
    } else {
      assert (tokens + [""])[1..] == tokens[1..] + [""];
      NumbersInAppendEmpty(tokens[1..]);
    }
  }

  /** A space in front adds an empty token, which is skipped. */
  lemma NumbersLeadingSpace(x: string)
    ensures Numbers(" " + x) == Numbers(x)
  {
    SplitLeadingSep(x, ' ');
    assert Trim("") == "";
    assert NumbersIn([""] + Split(x, ' '))[..] == NumbersIn(Split(x, ' '));
  }

  /** A space behind adds an empty token, which is skipped. */
  lemma NumbersTrailingSpace(x: string)
    ensures Numbers(x + " ") == Numbers(x)
  {
    SplitAppendSep(x, ' ');
    NumbersInAppendEmpty(Split(x, ' '));
  }

  /** Reading integers back from the text that lists them, the empty list included. */
  lemma NumbersShown(xs: seq<int>)
    ensures Numbers(Join(ShowAll(xs), ' ')) == xs
  {
    if xs == [] {
      assert Join(ShowAll(xs), ' ') == "";
      assert Trim("") == "";
    } else {
      NumbersRoundTrip(xs);
    }
  }

  /** Spaces around the list do not change the integers read from it: empty tokens are skipped. */
  lemma NumbersPadded(xs: seq<int>)
    ensures Numbers(" " + Join(ShowAll(xs), ' ')) == xs
    ensures Numbers(" " + Join(ShowAll(xs), ' ') + " ") == xs
  {
    NumbersShown(xs);
    NumbersSpaced(Join(ShowAll(xs), ' '));
  }

  lemma NumbersSpaced(x: string)
    ensures Numbers(" " + x) == Numbers(x)
    ensures Numbers(" " + x + " ") == Numbers(x)
  {
    NumbersLeadingSpace(x);
    NumbersTrailingSpace(x);
    NumbersLeadingSpace(x + " ");
    Padded(x);
  }

  lemma Padded(x: string)
    ensures " " + x + " " == " " + (x + " ")
  {
  }
}
