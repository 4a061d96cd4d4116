/** Day 12: hot springs. A row of springs, some of unknown condition, and the lengths of its
    damaged groups; the answer counts the ways the unknown springs can be filled in. */
module Day12 {
  import opened Common
  import opened Text

  datatype Condition = Operational | Damaged | Unknown

  predicate ConditionChar(c: char)
  {
    c == '.' || c == '#' || c == '?'
  }

  /** `Condition::new`. */
  function ConditionNew(c: char): (r: Condition)
    requires ConditionChar(c)
    ensures r == Operational <==> c == '.'
    ensures r == Damaged <==> c == '#'
    ensures r == Unknown <==> c == '?'
  {
    if c == '.' then Operational else if c == '#' then Damaged else Unknown
  }

  /** The character the `Debug` impl writes for a condition; `Condition::new` reads it back. */
  function ConditionSymbol(x: Condition): (c: char)
    ensures ConditionChar(c) && ConditionNew(c) == x
  {
    match x
    case Operational => '.'
    case Damaged => '#'
    case Unknown => '?'
  }

  datatype Row = Row(springs: seq<Condition>, groups: seq<int>)

  function Springs(s: string): (r: seq<Condition>)
    requires forall k :: 0 <= k < |s| ==> ConditionChar(s[k])
    ensures |r| == |s| && forall k :: 0 <= k < |s| ==> r[k] == ConditionNew(s[k])
  {
    if s == [] then [] else Springs(s[..|s| - 1]) + [ConditionNew(s[|s| - 1])]
  }

  /** `filter_map(|x| x.parse().ok())`: the pieces that are integers. */
  function GroupsIn(pieces: seq<string>): (r: seq<int>)
    ensures |r| <= |pieces|
  {
    if pieces == [] then []
    else
      match ParseInt(pieces[0])
      case Some(v) => [v] + GroupsIn(pieces[1..])
      case None => GroupsIn(pieces[1..])
  }

  /** What `Row::new` unwraps: a space, and only conditions before the first one. */
  predicate RowLine(input: string)
  {
    Find(input, ' ').Some? && forall k :: 0 <= k < Find(input, ' ').value ==> ConditionChar(input[k])
  }

  /** `Row::new`: the conditions before the first space, the comma-separated groups after it. */
  function RowNew(input: string): (r: Row)
    requires RowLine(input)
    ensures |r.springs| < |input| && input[|r.springs|] == ' ' && ' ' !in input[..|r.springs|]
  {
    var sp := Find(input, ' ').value;
    Row(Springs(input[..sp]), GroupsIn(Split(input[sp + 1..], ',')))
  }

  function Symbols(s: seq<Condition>): (r: string)
    ensures |r| == |s| && forall k :: 0 <= k < |s| ==> r[k] == ConditionSymbol(s[k])
  {
    if s == [] then [] else Symbols(s[..|s| - 1]) + [ConditionSymbol(s[|s| - 1])]
  }

  /** The `Debug` form of a row. */
  function ShowRow(r: Row): string
  {
    Symbols(r.springs) + [' '] + Join(ShowAll(r.groups), ',')
  }

  lemma {:induction false} GroupsInShowAll(xs: seq<int>)
    ensures GroupsIn(ShowAll(xs)) == xs
  {
    if xs != [] {
      ParseShowInt(xs[0]);
      assert ShowAll(xs)[1..] == ShowAll(xs[1..]);
      GroupsInShowAll(xs[1..]);
    }
  }

  lemma GroupsShown(xs: seq<int>)
    ensures GroupsIn(Split(Join(ShowAll(xs), ','), ',')) == xs
  {
    if xs == [] {
      assert Find("", ',').None?;
      assert GroupsIn([""]) == [];
    } else {
      forall k | 0 <= k < |xs|
        ensures ',' !in ShowAll(xs)[k]
      {
        ShowIntChars(xs[k]);
      }
      SplitJoin(ShowAll(xs), ',');
      GroupsInShowAll(xs);
    }
  }

  lemma {:induction false} SpringsSymbols(s: seq<Condition>)
    ensures Springs(Symbols(s)) == s
  {
  }

  /** `Row::new` reads back the `Debug` form of every row. */
  lemma RowNewShown(r: Row)
    ensures RowLine(ShowRow(r)) && RowNew(ShowRow(r)) == r
  {
    var p, t := Symbols(r.springs), Join(ShowAll(r.groups), ',');
    assert ' ' !in p;
    FindAfterPrefix(p, ' ', t);
    var s := ShowRow(r);
    assert s[..|p|] == p && s[|p| + 1..] == t;
    SpringsSymbols(r.springs);
    GroupsShown(r.groups);
  }

  /** The run of `counter` damaged springs, as it is pushed when it closes. */
  function Flush(counter: nat): seq<int>
  {
    if counter != 0 then [counter] else []
  }

  /** The damaged groups of `counter` damaged springs followed by `s`. */
  function Runs(s: seq<Condition>, counter: nat): seq<int>
    decreases |s|
  {
    if s == [] then Flush(counter)
    else if s[0] == Damaged then Runs(s[1..], counter + 1)
    else Flush(counter) + Runs(s[1..], 0)
  }

  function Groups(s: seq<Condition>): seq<int>
  {
    Runs(s, 0)
  }

  /** `contiguous_groups`: the lengths of the damaged runs, left to right. */
  method ContiguousGroups(row: Row) returns (res: seq<int>)
    ensures res == Groups(row.springs)
  {
    var s := row.springs;
    res := [];
    var counter: nat := 0;
    for i := 0 to |s|
      invariant res + Runs(s[i..], counter) == Groups(s)
    {
      assert s[i..][1..] == s[i + 1..];
      match s[i]
      case Damaged =>
        counter := counter + 1;
      case _ =>
        if counter != 0 {
          res := res + [counter];
          counter := 0;
        }
    }
    if counter != 0 {
      res := res + [counter];
    }
    assert s[|s|..] == [];
  }

  function Repeat(x: Condition, n: nat): (r: seq<Condition>)
    ensures |r| == n && forall k :: 0 <= k < n ==> r[k] == x
  {
    if n == 0 then [] else [x] + Repeat(x, n - 1)
  }

  /** Damaged springs in front only lengthen the open run. */
  lemma {:induction false} RunsDamagedFirst(n: nat, b: seq<Condition>, counter: nat)
    ensures Runs(Repeat(Damaged, n) + b, counter) == Runs(b, counter + n)
  {
    if n > 0 {
      assert (Repeat(Damaged, n) + b)[0] == Damaged;
      var x := Repeat(Damaged, n) + b;
      assert x[1..] == Repeat(Damaged, n - 1) + b;
      assert Runs(x, counter) == Runs(x[1..], counter + 1);
      RunsDamagedFirst(n - 1, b, counter + 1);
    } else {
      assert Repeat(Damaged, n) + b == b;
    }
  }

  /** A run of `n` damaged springs is one group of `n`. */
  lemma RunOfDamaged(n: nat)
    requires n > 0
    ensures Groups(Repeat(Damaged, n)) == [n]
  {
    RunsDamagedFirst(n, [], 0);
    assert Repeat(Damaged, n) + [] == Repeat(Damaged, n);
  }

  /** A spring that is not damaged separates the groups on its two sides. */
  lemma {:induction false} RunsSplit(a: seq<Condition>, x: Condition, b: seq<Condition>, counter: nat)
    requires x != Damaged
    ensures Runs(a + [x] + b, counter) == Runs(a, counter) + Runs(b, 0)
  {
    if a == [] {
      assert a + [x] + b == [x] + b;
      assert ([x] + b)[1..] == b;
    } else {
      assert (a + [x] + b)[1..] == a[1..] + [x] + b;
      RunsSplit(a[1..], x, b, if a[0] == Damaged then counter + 1 else 0);
    }
  }

  lemma GroupsSplit(a: seq<Condition>, x: Condition, b: seq<Condition>)
    requires x != Damaged
    ensures Groups(a + [x] + b) == Groups(a) + Groups(b)
  {
    RunsSplit(a, x, b, 0);
  }

  function DamagedCount(s: seq<Condition>): nat
  {
    if s == [] then 0 else (if s[0] == Damaged then 1 else 0) + DamagedCount(s[1..])
  }

  /** Every group is positive. */
  lemma {:induction false} RunsPositive(s: seq<Condition>, counter: nat)
    ensures forall k :: 0 <= k < |Runs(s, counter)| ==> Runs(s, counter)[k] > 0
    decreases |s|
  {
    if s != [] {
      RunsPositive(s[1..], if s[0] == Damaged then counter + 1 else 0);
    }
  }

  /** The groups add up to the open run plus the damaged springs. */
  lemma {:induction false} RunsSum(s: seq<Condition>, counter: nat)
    ensures Sum(Runs(s, counter)) == counter + DamagedCount(s)
    decreases |s|
  {
    if s != [] {
      if s[0] == Damaged {
        RunsSum(s[1..], counter + 1);
      } else {
        RunsSum(s[1..], 0);
        SumAppend(Flush(counter), Runs(s[1..], 0));
      }
    }
  }

  /** The groups of a row are positive and sum to its damaged springs. */
  lemma GroupsMeasure(s: seq<Condition>)
    ensures forall k :: 0 <= k < |Groups(s)| ==> Groups(s)[k] > 0
    ensures Sum(Groups(s)) == DamagedCount(s)
  {
    RunsPositive(s, 0);
    RunsSum(s, 0);
  }

  /** `collapsed`: no spring is unknown. */
  predicate Collapsed(row: Row)
  {
    Unknown !in row.springs
  }

  /** `valid`: collapsed and the groups are the ones asked for. */
  predicate Valid(row: Row)
  {
    Collapsed(row) && Groups(row.springs) == row.groups
  }

  /** How `possible` ends once the springs it looks at are used up. */
  function Settle(g: seq<int>, idx: nat, unknowns: bool): bool
  {
    if idx == |g| then true else if idx > |g| then false else unknowns
  }

  /** `possible` from spring `i` on, with the open run `counter` and the next group `idx`;
      `unknowns` says whether the row has an unknown spring at all. */
  function PossibleAt(s: seq<Condition>, g: seq<int>, i: nat, counter: nat, idx: nat, unknowns: bool): bool
    requires i <= |s|
    decreases |s| - i
  {
    if i == |s| then
      if counter != 0 then idx < |g| && counter == g[idx] && Settle(g, idx + 1, unknowns)
      else Settle(g, idx, unknowns)
    else
      match s[i]
      case Damaged => PossibleAt(s, g, i + 1, counter + 1, idx, unknowns)
      case Operational =>
        if counter != 0 then idx < |g| && counter == g[idx] && PossibleAt(s, g, i + 1, 0, idx + 1, unknowns)
        else PossibleAt(s, g, i + 1, 0, idx, unknowns)
      case Unknown => Settle(g, idx, unknowns)
  }

  predicate Possible(row: Row)
  {
    PossibleAt(row.springs, row.groups, 0, 0, 0, !Collapsed(row))
  }

  function UnknownCount(s: seq<Condition>): nat
  {
    if s == [] then 0 else (if s[0] == Unknown then 1 else 0) + UnknownCount(s[1..])
  }

  lemma {:induction false} UnknownCountZero(s: seq<Condition>)
    ensures UnknownCount(s) == 0 <==> Unknown !in s
  {
    if s != [] {
      UnknownCountZero(s[1..]);
      assert s == [s[0]] + s[1..];
    }
  }

  /** `possible`: a quick test that the row can still be completed. The runs it pushes are never
      read, so they are not kept here. */
  method PossibleCheck(row: Row) returns (b: bool)
    ensures b == Possible(row)
  {
    var s, g := row.springs, row.groups;
    ghost var u := !Collapsed(row);
    var counter: nat := 0;
    var idx: nat := 0;
    var i := 0;
    while i < |s|
      invariant i <= |s|
      invariant PossibleAt(s, g, i, counter, idx, u) == Possible(row)
      decreases |s| - i
    {
      match s[i] {
        case Damaged =>
          counter := counter + 1;
        case Operational =>
          if counter != 0 {
            if idx < |g| && counter == g[idx] {
              idx := idx + 1;
              counter := 0;
            } else {
              return false;
            }
          }
        case Unknown =>
          counter := 0;
          assert PossibleAt(s, g, |s|, 0, idx, u) == Possible(row);
          break;
      }
      i := i + 1;
    }
    if counter != 0 {
      if idx < |g| && counter == g[idx] {
        idx := idx + 1;
      } else {
        return false;
      }
    }
    var unknowns := UnknownCount(s);
    UnknownCountZero(s);
    if idx == |g| {
      return true;
    } else if idx > |g| {
      return false;
    } else {
      return unknowns != 0;
    }
  }

  /** On springs with no unknown, `possible` holds exactly when the groups still to come are
      the remaining groups. */
  lemma {:induction false} PossibleCollapsedAt(s: seq<Condition>, g: seq<int>, i: nat, counter: nat, idx: nat)
    requires i <= |s| && forall k :: i <= k < |s| ==> s[k] != Unknown
    ensures PossibleAt(s, g, i, counter, idx, false) <==> idx <= |g| && Runs(s[i..], counter) == g[idx..]
    decreases |s| - i
  {
    if i < |s| {
      assert s[i..][0] == s[i] && s[i..][1..] == s[i + 1..];
      if s[i] == Damaged {
        PossibleCollapsedAt(s, g, i + 1, counter + 1, idx);
      } else if counter != 0 {
        PossibleCollapsedAt(s, g, i + 1, 0, idx + 1);
        if idx < |g| {
          assert g[idx..] == [g[idx]] + g[idx + 1..];
        }
      } else {
        PossibleCollapsedAt(s, g, i + 1, 0, idx);
      }
    } else if idx < |g| {
      assert g[idx..] == [g[idx]] + g[idx + 1..];
    }
  }

  /** For a row with no unknown spring, `possible` and `valid` agree. */
  lemma PossibleCollapsed(row: Row)
    requires Collapsed(row)
    ensures Possible(row) <==> Valid(row)
  {
    PossibleCollapsedAt(row.springs, row.groups, 0, 0, 0);
    assert row.springs[0..] == row.springs && row.groups[0..] == row.groups;
  }

  /** `done` fills in the unknown springs of `s` and leaves the others alone. */
  predicate Completes(done: seq<Condition>, s: seq<Condition>)
  {
    |done| == |s| && Unknown !in done && forall k :: 0 <= k < |s| && s[k] != Unknown ==> done[k] == s[k]
  }

  lemma {:induction false} PossibleSoundAt(s: seq<Condition>, done: seq<Condition>, g: seq<int>, i: nat, counter: nat, idx: nat, u: bool)
    requires Completes(done, s) && i <= |s|
    requires idx <= |g| && Runs(done[i..], counter) == g[idx..]
    requires Unknown in s[i..] ==> u
    ensures PossibleAt(s, g, i, counter, idx, u)
    decreases |s| - i
  {
    if i < |s| {
      assert done[i..][0] == done[i] && done[i..][1..] == done[i + 1..];
      assert s[i..] == [s[i]] + s[i + 1..];
      if s[i] == Damaged {
        PossibleSoundAt(s, done, g, i + 1, counter + 1, idx, u);
      } else if s[i] == Operational {
        if counter != 0 {
          assert g[idx..] == [g[idx]] + g[idx + 1..];
          PossibleSoundAt(s, done, g, i + 1, 0, idx + 1, u);
        } else {
          PossibleSoundAt(s, done, g, i + 1, 0, idx, u);
        }
      }
    } else if idx < |g| {
      assert g[idx..] == [g[idx]] + g[idx + 1..];
    }
  }

  /** `possible` never rejects a row that some valid row completes: the pruning loses nothing. */
  lemma PossibleSound(row: Row, done: seq<Condition>)
    requires Completes(done, row.springs) && Valid(Row(done, row.groups))
    ensures Possible(row)
  {
    assert done[0..] == done && row.groups[0..] == row.groups && row.springs[0..] == row.springs;
    PossibleSoundAt(row.springs, done, row.groups, 0, 0, 0, !Collapsed(row));
  }

  /** The group indexes `remainder` reads are all in range. */
  predicate SafeAt(s: seq<Condition>, g: seq<int>, i: nat, counter: nat, taken: nat)
    requires i <= |s|
    decreases |s| - i
  {
    if i == |s| then counter != 0 ==> taken < |g|
    else
      match s[i]
      case Damaged => SafeAt(s, g, i + 1, counter + 1, taken)
      case Operational =>
        if counter != 0 then taken < |g| && (counter == g[taken] ==> SafeAt(s, g, i + 1, 0, taken + 1))
        else SafeAt(s, g, i + 1, 0, taken)
      case Unknown => true
  }

  predicate RemainderSafe(row: Row)
  {
    SafeAt(row.springs, row.groups, 0, 0, 0)
  }

  /** A row `possible` accepts never makes `remainder` read past its groups. */
  lemma {:induction false} PossibleSafeAt(s: seq<Condition>, g: seq<int>, i: nat, counter: nat, idx: nat, u: bool)
    requires i <= |s| && PossibleAt(s, g, i, counter, idx, u)
    ensures SafeAt(s, g, i, counter, idx)
    decreases |s| - i
  {
    if i < |s| {
      match s[i]
      case Damaged => PossibleSafeAt(s, g, i + 1, counter + 1, idx, u);
      case Operational =>
        if counter != 0 {
          PossibleSafeAt(s, g, i + 1, 0, idx + 1, u);
        } else {
          PossibleSafeAt(s, g, i + 1, 0, idx, u);
        }
      case Unknown =>
    }
  }

  lemma PossibleSafe(row: Row)
    requires Possible(row)
    ensures RemainderSafe(row)
  {
    PossibleSafeAt(row.springs, row.groups, 0, 0, 0, !Collapsed(row));
  }

  /** Where `remainder` cuts: the first spring kept and the number of groups dropped. */
  datatype Cut = Cut(start: nat, taken: nat)

  /** `remainder` from spring `i` on; the open run `counter` began at `i - counter`. */
  function CutAt(s: seq<Condition>, g: seq<int>, i: nat, counter: nat, taken: nat): Cut
    requires counter <= i <= |s| && SafeAt(s, g, i, counter, taken)
    decreases |s| - i
  {
    if i == |s| then
      if counter != 0 && counter == g[taken] then Cut(i, taken + 1) else Cut(i - counter, taken)
    else
      match s[i]
      case Damaged => CutAt(s, g, i + 1, counter + 1, taken)
      case Operational =>
        if counter != 0 then
          if counter == g[taken] then CutAt(s, g, i + 1, 0, taken + 1) else Cut(i - counter, taken)
        else CutAt(s, g, i + 1, 0, taken)
      case Unknown => Cut(i - counter, taken)
  }

  /** The cut lands inside the row and its groups. */
  lemma {:induction false} CutBounds(s: seq<Condition>, g: seq<int>, i: nat, counter: nat, taken: nat)
    requires counter <= i <= |s| && SafeAt(s, g, i, counter, taken) && taken <= |g|
    ensures CutAt(s, g, i, counter, taken).start <= |s| && CutAt(s, g, i, counter, taken).taken <= |g|
    decreases |s| - i
  {
    if i < |s| {
      match s[i]
      case Damaged => CutBounds(s, g, i + 1, counter + 1, taken);
      case Operational =>
        if counter != 0 {
          if counter == g[taken] {
            CutBounds(s, g, i + 1, 0, taken + 1);
          }
        } else {
          CutBounds(s, g, i + 1, 0, taken);
        }
      case Unknown =>
    }
  }

  function RemainderCut(row: Row): (c: Cut)
    requires RemainderSafe(row)
    ensures c.start <= |row.springs| && c.taken <= |row.groups|
  {
    CutBounds(row.springs, row.groups, 0, 0, 0);
    CutAt(row.springs, row.groups, 0, 0, 0)
  }

  /** `remainder`: the row with its settled front part dropped. */
  function Remainder(row: Row): Row
    requires RemainderSafe(row)
  {
    var c := RemainderCut(row);
    Row(row.springs[c.start..], row.groups[c.taken..])
  }

  /** `remainder` as the loop it is. */
  method RemainderOf(row: Row) returns (r: Row)
    requires RemainderSafe(row)
    ensures r == Remainder(row)
  {
    var s, g := row.springs, row.groups;
    var res: seq<int> := [];
    var counter: nat := 0;
    var start: nat := 0;
    var i := 0;
    while i < |s|
      invariant i <= |s| && start + counter == i
      invariant SafeAt(s, g, i, counter, |res|)
      invariant CutAt(s, g, i, counter, |res|) == RemainderCut(row)
      decreases |s| - i
    {
      match s[i] {
        case Damaged =>
          counter := counter + 1;
        case Operational =>
          if counter != 0 {
            if counter == g[|res|] {
              start := start + counter;
              res := res + [counter];
              counter := 0;
            } else {
              counter := 0;
              assert Cut(start, |res|) == RemainderCut(row);
              break;
            }
          }
          start := start + 1;
        case Unknown =>
          counter := 0;
          assert Cut(start, |res|) == RemainderCut(row);
          break;
      }
      i := i + 1;
    }
    if counter != 0 {
      if counter == g[|res|] {
        start := start + counter;
        res := res + [counter];
      }
    }
    r := Row(s[start..], g[|res|..]);
  }

  /** The springs `remainder` drops hold no unknown, end between groups, and their groups are
      exactly the groups it drops. */
  lemma {:induction false} CutPrefix(s: seq<Condition>, g: seq<int>, i: nat, counter: nat, taken: nat)
    requires counter <= i <= |s| && SafeAt(s, g, i, counter, taken) && taken <= |g|
    requires forall k :: i - counter <= k < i ==> s[k] == Damaged
    requires i - counter == 0 || s[i - counter - 1] != Damaged
    requires Unknown !in s[..i - counter] && Groups(s[..i - counter]) == g[..taken]
    ensures var c := CutAt(s, g, i, counter, taken);
      c.start <= |s| && c.taken <= |g| && Unknown !in s[..c.start] && Groups(s[..c.start]) == g[..c.taken]
    decreases |s| - i
  {
    CutBounds(s, g, i, counter, taken);
    var p := s[..i - counter];
    if i == |s| {
      if counter != 0 && counter == g[taken] {
        assert s[..i] == p + Repeat(Damaged, counter);
        ClosedRun(p, counter);
        assert g[..taken + 1] == g[..taken] + [counter];
      }
    } else {
      match s[i]
      case Damaged =>
        CutPrefix(s, g, i + 1, counter + 1, taken);
      case Operational =>
        if counter != 0 {
          if counter == g[taken] {
            PrefixThroughRun(s, i, counter);
            assert g[..taken + 1] == g[..taken] + [counter];
            CutPrefix(s, g, i + 1, 0, taken + 1);
          }
        } else {
          assert s[..i + 1] == p + [Operational] + [];
          GroupsSplit(p, Operational, []);
          CutPrefix(s, g, i + 1, 0, taken);
        }
      case Unknown =>
    }
  }

  /** Springs that end between groups, a run, and an operational spring: the run is one more
      group. */
  lemma PrefixThroughRun(s: seq<Condition>, i: nat, counter: nat)
    requires 0 < counter <= i < |s| && s[i] == Operational
    requires forall k :: i - counter <= k < i ==> s[k] == Damaged
    requires i - counter == 0 || s[i - counter - 1] != Damaged
    requires Unknown !in s[..i - counter]
    ensures Unknown !in s[..i + 1] && Groups(s[..i + 1]) == Groups(s[..i - counter]) + [counter]
  {
    var p := s[..i - counter];
    assert s[..i + 1] == p + Repeat(Damaged, counter) + [Operational];
    ClosedRun(p, counter);
    GroupsSplit(p + Repeat(Damaged, counter), Operational, []);
    assert p + Repeat(Damaged, counter) + [Operational] + [] == p + Repeat(Damaged, counter) + [Operational];
  }

  /** A run closed after springs that end between groups adds one group. */
  lemma ClosedRun(p: seq<Condition>, n: nat)
    requires n > 0 && (p == [] || p[|p| - 1] != Damaged)
    ensures Groups(p + Repeat(Damaged, n)) == Groups(p) + [n]
  {
    if p == [] {
      assert p + Repeat(Damaged, n) == Repeat(Damaged, n);
      RunOfDamaged(n);
    } else {
      var q := p[..|p| - 1];
      assert p == q + [p[|p| - 1]] + [];
      assert p + Repeat(Damaged, n) == q + [p[|p| - 1]] + Repeat(Damaged, n);
      GroupsSplit(q, p[|p| - 1], []);
      GroupsSplit(q, p[|p| - 1], Repeat(Damaged, n));
      RunOfDamaged(n);
    }
  }

  /** What `remainder` drops is settled: no unknown spring, and groups equal to the dropped
      groups. */
  lemma RemainderPrefix(row: Row)
    requires RemainderSafe(row)
    ensures var c := RemainderCut(row);
      Unknown !in row.springs[..c.start] && Groups(row.springs[..c.start]) == row.groups[..c.taken]
  {
    assert row.springs[..0] == [];
    CutPrefix(row.springs, row.groups, 0, 0, 0);
  }

  lemma {:induction false} UnknownCountAppend(a: seq<Condition>, b: seq<Condition>)
    ensures UnknownCount(a + b) == UnknownCount(a) + UnknownCount(b)
  {
    if a != [] {
      assert (a + b)[0] == a[0];
      assert (a + b)[1..] == a[1..] + b;
      assert UnknownCount(a + b) == (if a[0] == Unknown then 1 else 0) + UnknownCount((a + b)[1..]);
      UnknownCountAppend(a[1..], b);
    } else {
      assert a + b == b;
    }
  }

  /** `remainder` keeps every unknown spring. */
  lemma RemainderUnknowns(row: Row)
    requires RemainderSafe(row)
    ensures UnknownCount(Remainder(row).springs) == UnknownCount(row.springs)
  {
    var c := RemainderCut(row);
    RemainderPrefix(row);
    assert row.springs == row.springs[..c.start] + row.springs[c.start..];
    UnknownCountAppend(row.springs[..c.start], row.springs[c.start..]);
    UnknownCountZero(row.springs[..c.start]);
  }

  /** The first unknown spring. */
  function FirstUnknown(s: seq<Condition>): (i: nat)
    requires Unknown in s
    ensures i < |s| && s[i] == Unknown && Unknown !in s[..i]
  {
    if s[0] == Unknown then 0 else
      assert Unknown in s[1..] by { assert s == [s[0]] + s[1..]; }
      var j := FirstUnknown(s[1..]);
      assert s[..j + 1] == [s[0]] + s[1..][..j];
      j + 1
  }

  /** `variants`: a collapsed row alone; otherwise the row with its first unknown spring made
      damaged, then operational, each kept when `possible`. */
  function Variants(row: Row): seq<Row>
  {
    if Collapsed(row) then [row]
    else
      var i := FirstUnknown(row.springs);
      var damaged := row.(springs := row.springs[i := Damaged]);
      var operational := row.(springs := row.springs[i := Operational]);
      (if Possible(damaged) then [damaged] else []) + (if Possible(operational) then [operational] else [])
  }

  /** `variants` as the loop it is. */
  method VariantsOf(row: Row) returns (res: seq<Row>)
    ensures res == Variants(row)
  {
    if Collapsed(row) {
      return [row];
    }
    res := [];
    var index := 0;
    ghost var first := FirstUnknown(row.springs);
    while row.springs[index] != Unknown
      invariant index <= first
      decreases first - index
    {
      index := index + 1;
    }
    var variant1 := row.(springs := row.springs[index := Damaged]);
    var p1 := PossibleCheck(variant1);
    if p1 {
      res := res + [variant1];
    }
    var variant2 := row.(springs := row.springs[index := Operational]);
    var p2 := PossibleCheck(variant2);
    if p2 {
      res := res + [variant2];
    }
  }

  lemma {:induction false} UnknownCountUpdate(s: seq<Condition>, i: nat, x: Condition)
    requires i < |s| && s[i] == Unknown && x != Unknown
    ensures UnknownCount(s[i := x]) + 1 == UnknownCount(s)
  {
    if i > 0 {
      assert s[i := x][1..] == s[1..][i - 1 := x];
      UnknownCountUpdate(s[1..], i - 1, x);
    }
  }

  /** The variants of a row with an unknown spring: at most two, each `possible`, each the row
      with its first unknown spring settled, so each with one unknown fewer. */
  lemma VariantsShape(row: Row)
    requires !Collapsed(row)
    ensures |Variants(row)| <= 2
    ensures forall k :: 0 <= k < |Variants(row)| ==>
      var v := Variants(row)[k];
      var i := FirstUnknown(row.springs);
      Possible(v) && v.groups == row.groups && |v.springs| == |row.springs| &&
      (v.springs[i] == Damaged || v.springs[i] == Operational) &&
      (forall j :: 0 <= j < |v.springs| && j != i ==> v.springs[j] == row.springs[j]) &&
      UnknownCount(v.springs) + 1 == UnknownCount(row.springs)
  {
    var i := FirstUnknown(row.springs);
    UnknownCountUpdate(row.springs, i, Damaged);
    UnknownCountUpdate(row.springs, i, Operational);
  }

  /** Every valid completion of a row with an unknown spring completes one of its variants. */
  lemma VariantsComplete(row: Row, done: seq<Condition>)
    requires !Collapsed(row) && Completes(done, row.springs) && Valid(Row(done, row.groups))
    ensures exists k :: 0 <= k < |Variants(row)| && Completes(done, Variants(row)[k].springs)
  {
    var i := FirstUnknown(row.springs);
    var v := row.(springs := row.springs[i := done[i]]);
    assert Completes(done, v.springs);
    PossibleSound(v, done);
    if done[i] == Damaged {
      assert Variants(row)[0] == v;
    } else {
      assert Variants(row)[|Variants(row)| - 1] == v;
    }
  }

  /** The rows `possible_variants` can score without reading past the groups. */
  predicate Scorable(row: Row)
  {
    Collapsed(row) || RemainderSafe(row)
  }

  /** Each variant of the remainder of a row with an unknown spring is scorable and has one
      unknown fewer. */
  lemma NextRows(row: Row)
    requires !Collapsed(row) && RemainderSafe(row)
    ensures forall k :: 0 <= k < |Variants(Remainder(row))| ==>
      Scorable(Variants(Remainder(row))[k]) &&
      UnknownCount(Variants(Remainder(row))[k].springs) < UnknownCount(row.springs)
  {
    var rem := Remainder(row);
    RemainderUnknowns(row);
    UnknownCountZero(row.springs);
    UnknownCountZero(rem.springs);
    VariantsShape(rem);
    forall k | 0 <= k < |Variants(rem)|
      ensures Scorable(Variants(rem)[k])
    {
      PossibleSafe(Variants(rem)[k]);
    }
  }

  /** The memo score of `possible_variants`: one for a valid row, zero for another collapsed
      row, and otherwise the scores of the variants of its remainder added up. */
  function Score(row: Row): int
    requires Scorable(row)
    decreases UnknownCount(row.springs) + 1, 0
  {
    if Valid(row) then 1
    else if Collapsed(row) then 0
    else
      NextRows(row);
      ScoreAll(Variants(Remainder(row)), UnknownCount(row.springs))
  }

  function ScoreAll(rows: seq<Row>, n: nat): int
    requires forall k :: 0 <= k < |rows| ==> Scorable(rows[k]) && UnknownCount(rows[k].springs) < n
    decreases n, |rows|
  {
    if rows == [] then 0 else Score(rows[0]) + ScoreAll(rows[1..], n)
  }

  lemma {:induction false} Pow2Monotone(m: nat, n: nat)
    requires m <= n
    ensures Pow2(m) <= Pow2(n)
  {
    if m < n {
      Pow2Monotone(m, n - 1);
    }
  }

  /** A score never exceeds the number of ways to fill in the unknown springs. */
  lemma {:induction false} ScoreBound(row: Row)
    requires Scorable(row)
    ensures 0 <= Score(row) <= Pow2(UnknownCount(row.springs))
    decreases UnknownCount(row.springs) + 1, 0
  {
    if !Valid(row) && !Collapsed(row) {
      var n := UnknownCount(row.springs);
      var vs := Variants(Remainder(row));
      ScoreUnknown(row);
      ScoreAllBound(vs, n);
      assert Pow2(n) == 2 * Pow2(n - 1);
      AtMostTwice(Score(row), |vs|, Pow2(n - 1));
    }
  }

  /** The score of a row with an unknown spring, and what the bound on it needs. */
  lemma ScoreUnknown(row: Row)
    requires Scorable(row) && !Valid(row) && !Collapsed(row)
    ensures UnknownCount(row.springs) >= 1
    ensures |Variants(Remainder(row))| <= 2
    ensures forall k :: 0 <= k < |Variants(Remainder(row))| ==>
      Scorable(Variants(Remainder(row))[k]) &&
      UnknownCount(Variants(Remainder(row))[k].springs) < UnknownCount(row.springs)
    ensures Score(row) == ScoreAll(Variants(Remainder(row)), UnknownCount(row.springs))
  {
    NextRows(row);
    UnknownCountZero(row.springs);
    RemainderUnknowns(row);
    UnknownCountZero(Remainder(row).springs);
    VariantsShape(Remainder(row));
  }

  lemma AtMostTwice(score: int, m: int, p: int)
    requires 0 <= m <= 2 && 0 <= p && 0 <= score <= m * p
    ensures score <= 2 * p
  {
  }

  lemma {:induction false} ScoreAllBound(rows: seq<Row>, n: nat)
    requires n >= 1
    requires forall k :: 0 <= k < |rows| ==> Scorable(rows[k]) && UnknownCount(rows[k].springs) < n
    ensures 0 <= ScoreAll(rows, n) <= |rows| * Pow2(n - 1)
    decreases n, |rows|
  {
    if rows != [] {
      var p := Pow2(n - 1);
      ScoreBound(rows[0]);
      Pow2Monotone(UnknownCount(rows[0].springs), n - 1);
      ScoreAllBound(rows[1..], n);
      assert ScoreAll(rows, n) == Score(rows[0]) + ScoreAll(rows[1..], n);
      assert |rows| * p == (|rows| - 1) * p + p;
    }
  }

  /** `variants.iter().map(|row| visited[row]).sum()`. */
  function SumVisited(rows: seq<Row>, visited: map<Row, int>): int
    requires forall k :: 0 <= k < |rows| ==> rows[k] in visited
  {
    if rows == [] then 0 else visited[rows[0]] + SumVisited(rows[1..], visited)
  }

  /** Rows not yet in the memo, in order. */
  function Unvisited(rows: seq<Row>, visited: map<Row, int>): (r: seq<Row>)
    ensures forall k :: 0 <= k < |r| ==> r[k] in rows && r[k] !in visited
  {
    if rows == [] then []
    else (if rows[0] in visited then [] else [rows[0]]) + Unvisited(rows[1..], visited)
  }

  /** Every memo entry is the score of its row. */
  ghost predicate MemoCorrect(visited: map<Row, int>)
  {
    forall r :: r in visited ==> Scorable(r) && visited[r] == Score(r)
  }

  lemma {:induction false} SumVisitedScores(rows: seq<Row>, visited: map<Row, int>, n: nat)
    requires MemoCorrect(visited)
    requires forall k :: 0 <= k < |rows| ==> rows[k] in visited && UnknownCount(rows[k].springs) < n
    ensures SumVisited(rows, visited) == ScoreAll(rows, n)
  {
    if rows != [] {
      SumVisitedScores(rows[1..], visited, n);
    }
  }

  /** `possible_variants`: the explicit stack and memo, driven until the stack empties. The loop
      gets `fuel` rounds; when they run out no answer is given. */
  method PossibleVariants(row: Row, fuel: nat) returns (result: Option<int>)
    requires Scorable(row)
    ensures result.Some? ==> result.value == Score(row)
  {
    var stack: seq<Row> := [row];
    var visited: map<Row, int> := map[];
    var rounds := fuel;
    while rounds > 0
      invariant MemoCorrect(visited)
      invariant forall k :: 0 <= k < |stack| ==> Scorable(stack[k])
      invariant row in visited || row in stack
    {
      rounds := rounds - 1;
      if stack == [] {
        break;
      }
      var cur := stack[|stack| - 1];
      stack := stack[..|stack| - 1];
      if cur in visited {
        continue;
      }
      if Valid(cur) {
        visited := visited[cur := 1];
      } else if Collapsed(cur) {
        visited := visited[cur := 0];
      } else {
        var rem := RemainderOf(cur);
        var variants := VariantsOf(rem);
        NextRows(cur);
        if forall k :: 0 <= k < |variants| ==> variants[k] in visited {
          var score := SumVisited(variants, visited);
          SumVisitedScores(variants, visited, UnknownCount(cur.springs));
          visited := visited[cur := score];
        } else {
          var pending := Unvisited(variants, visited);
          stack := stack + [cur] + pending;
        }
      }
    }
    if stack == [] {
      return Some(visited[row]);
    }
    return None;
  }
}
