/** Day 5: an almanac of maps, each a list of rules that move an interval of ids by a fixed
    offset; ranges of seeds are pushed through every map in turn. */
module Day5 {
  import opened Common
  import opened Text

  /** A half-open interval [start, end) of ids, as Rust's `Range<i64>`. */
  datatype Range = Range(start: int, end: int)

  function Len(r: Range): int { r.end - r.start }

  predicate Proper(r: Range) { r.start <= r.end }

  predicate AllProper(rs: seq<Range>) { forall i :: 0 <= i < |rs| ==> Proper(rs[i]) }

  /** `r` lies inside `outer`. */
  predicate Within(r: Range, outer: Range) { outer.start <= r.start && r.end <= outer.end }

  function Shift(r: Range, d: int): Range { Range(r.start + d, r.end + d) }

  /** The total number of ids in a list of ranges, counted from the right. */
  function TotalLen(rs: seq<Range>): int
  {
    if rs == [] then 0 else TotalLen(rs[..|rs| - 1]) + Len(rs[|rs| - 1])
  }

  lemma {:induction false} TotalLenAppend(a: seq<Range>, b: seq<Range>)
    ensures TotalLen(a + b) == TotalLen(a) + TotalLen(b)
    decreases |b|
  {
    if b == [] {
      assert a + b == a;
    } else {
      assert (a + b)[..|a + b| - 1] == a + b[..|b| - 1];
      assert (a + b)[|a + b| - 1] == b[|b| - 1];
      TotalLenAppend(a, b[..|b| - 1]);
    }
  }

  lemma {:induction false} TotalLenNonNegative(rs: seq<Range>)
    requires AllProper(rs)
    ensures TotalLen(rs) >= 0
  {
    if rs != [] {
      TotalLenNonNegative(rs[..|rs| - 1]);
    }
  }

  lemma TotalLenSingle(r: Range)
    ensures TotalLen([r]) == Len(r)
  {
    assert [r][..0] == [];
  }

  lemma AllProperAppend(a: seq<Range>, b: seq<Range>)
    requires AllProper(a) && AllProper(b)
    ensures AllProper(a + b)
  {
    forall k | 0 <= k < |a + b|
      ensures Proper((a + b)[k])
    {
      if k >= |a| {
        assert (a + b)[k] == b[k - |a|];
      }
    }
  }

  function Max(a: int, b: int): int { if a >= b then a else b }

  function Min(a: int, b: int): int { if a <= b then a else b }

  /** One line of a map: ids `source .. source + range` go to `dest .. dest + range`. */
  datatype Rule = Rule(dest: int, source: int, range: int)

  function Delta(rule: Rule): int { rule.dest - rule.source }

  /** `Rule::new`: the first three integers among the space-separated tokens of the line. */
  function RuleFrom(line: string): Rule
    requires |Numbers(line)| >= 3
  {
    var nums := Numbers(line);
    Rule(nums[0], nums[1], nums[2])
  }

  function ShowRule(rule: Rule): string
  {
    Join(ShowAll([rule.dest, rule.source, rule.range]), ' ')
  }

  /** A rule line reads back as the rule it was written from. */
  lemma RuleFromShown(rule: Rule)
    ensures |Numbers(ShowRule(rule))| >= 3 && RuleFrom(ShowRule(rule)) == rule
  {
    NumbersShown([rule.dest, rule.source, rule.range]);
  }

  /** The guard of `Rule::apply_range`, as written. */
  predicate Overlaps(rule: Rule, r: Range)
  {
    r.end > rule.source && r.start <= rule.source + rule.range - 1
  }

  /** `Rule::apply_range`: the part of `r` the rule covers, and where the rule sends it. */
  function ApplyRange(rule: Rule, r: Range): Option<(Range, Range)>
  {
    if Overlaps(rule, r) then
      var start := Max(r.start, rule.source);
      var end := Min(r.end, rule.source + rule.range);
      Some((Range(start, end), Range(start + Delta(rule), end + Delta(rule))))
    else
      None
  }

  /** The ids a rule moves. */
  function SourceOf(rule: Rule): Range { Range(rule.source, rule.source + rule.range) }

  predicate Contains(r: Range, x: int) { r.start <= x < r.end }

  /** A rule applies exactly when the guard holds; it picks out the ids of `r` inside its source
      interval and sends them, as many as there are, `Delta` further on. */
  lemma ApplyRangeMeaning(rule: Rule, r: Range)
    ensures ApplyRange(rule, r).Some? <==> Overlaps(rule, r)
    ensures ApplyRange(rule, r).Some? ==>
      var (src, dst) := ApplyRange(rule, r).value;
      (forall x :: Contains(src, x) <==> Contains(r, x) && Contains(SourceOf(rule), x)) &&
      dst == Shift(src, Delta(rule)) && Len(dst) == Len(src)
  {
  }

  /** For a non-empty range and a rule that moves something, the guard says exactly that the two
      intervals share an id. */
  lemma OverlapsIntersect(rule: Rule, r: Range)
    requires rule.range > 0 && r.start < r.end
    ensures Overlaps(rule, r) <==> exists x :: Contains(r, x) && Contains(SourceOf(rule), x)
  {
    if Overlaps(rule, r) {
      var x := Max(r.start, rule.source);
      assert Contains(r, x) && Contains(SourceOf(rule), x);
    }
  }

  /** Every rule of every map moves at least one id. */
  predicate Positive(rules: seq<Rule>) { forall i :: 0 <= i < |rules| ==> rules[i].range > 0 }

  /** The first rule, from index `k` on, whose guard holds for `r`. */
  function FirstOverlapFrom(rules: seq<Rule>, r: Range, k: nat): (found: Option<nat>)
    ensures found.Some? ==> k <= found.value < |rules| && Overlaps(rules[found.value], r)
    decreases |rules| - k
  {
    if k >= |rules| then None
    else if Overlaps(rules[k], r) then Some(k)
    else FirstOverlapFrom(rules, r, k + 1)
  }

  function FirstOverlap(rules: seq<Rule>, r: Range): (found: Option<nat>)
    ensures found.Some? ==> found.value < |rules| && Overlaps(rules[found.value], r)
  {
    FirstOverlapFrom(rules, r, 0)
  }

  /** The rules tried before the one found do not overlap, and none does when nothing is found. */
  lemma {:induction false} FirstOverlapFromMeaning(rules: seq<Rule>, r: Range, k: nat)
    ensures FirstOverlapFrom(rules, r, k).None? <==> forall j :: k <= j < |rules| ==> !Overlaps(rules[j], r)
    ensures FirstOverlapFrom(rules, r, k).Some? ==>
      forall j :: k <= j < FirstOverlapFrom(rules, r, k).value ==> !Overlaps(rules[j], r)
    decreases |rules| - k
  {
    if k < |rules| && !Overlaps(rules[k], r) {
      FirstOverlapFromMeaning(rules, r, k + 1);
    }
  }

  /** What `r` leaves behind once `claimed` is taken out of it: the part below and the part above. */
  function Leftovers(r: Range, claimed: Range): seq<Range>
  {
    Side(r.start, claimed.start) + Side(claimed.end, r.end)
  }

  /** The part a positive rule claims from a proper range it overlaps is proper, the leftovers
      are proper parts of the range, and together they hold exactly the ids of the range; a
      non-empty range loses at least one id, and an empty one leaves nothing behind. */
  lemma ClaimSplits(rule: Rule, r: Range)
    requires rule.range > 0 && Proper(r) && Overlaps(rule, r)
    ensures var (src, _) := ApplyRange(rule, r).value;
      Proper(src) && Within(src, r) &&
      AllProper(Leftovers(r, src)) &&
      (forall k :: 0 <= k < |Leftovers(r, src)| ==> Within(Leftovers(r, src)[k], r)) &&
      TotalLen(Leftovers(r, src)) + Len(src) == Len(r) &&
      (Len(r) > 0 ==> Len(src) > 0) &&
      (Len(r) == 0 ==> Leftovers(r, src) == [])
  {
    var src := ApplyRange(rule, r).value.0;
    assert src == Range(Max(r.start, rule.source), Min(r.end, rule.source + rule.range));
    LeftoversSplit(r, src);
  }

  /** Taking a proper part out of a range leaves proper parts of it that hold the other ids. */
  lemma LeftoversSplit(r: Range, c: Range)
    requires Proper(c) && Within(c, r)
    ensures AllProper(Leftovers(r, c))
    ensures forall k :: 0 <= k < |Leftovers(r, c)| ==> Within(Leftovers(r, c)[k], r)
    ensures TotalLen(Leftovers(r, c)) + Len(c) == Len(r)
    ensures Len(r) == 0 ==> Leftovers(r, c) == []
  {
    var low := Side(r.start, c.start);
    var high := Side(c.end, r.end);
    SideParts(r.start, c.start, r);
    SideParts(c.end, r.end, r);
    TotalLenAppend(low, high);
    PartsAppend(low, high, r);
  }

  /** The range from `a` to `b` as a list: empty when it holds no id. */
  function Side(a: int, b: int): seq<Range>
  {
    if a < b then [Range(a, b)] else []
  }

  lemma SideParts(a: int, b: int, r: Range)
    requires r.start <= a && b <= r.end
    ensures AllProper(Side(a, b)) && TotalLen(Side(a, b)) == (if a < b then b - a else 0)
    ensures forall k :: 0 <= k < |Side(a, b)| ==> Within(Side(a, b)[k], r)
  {
    if a < b {
      assert TotalLen([Range(a, b)]) == TotalLen([]) + Len(Range(a, b));
    }
  }

  lemma PartsAppend(x: seq<Range>, y: seq<Range>, r: Range)
    requires AllProper(x) && AllProper(y)
    requires forall k :: 0 <= k < |x| ==> Within(x[k], r)
    requires forall k :: 0 <= k < |y| ==> Within(y[k], r)
    ensures AllProper(x + y) && forall k :: 0 <= k < |x + y| ==> Within((x + y)[k], r)
  {
    forall k | 0 <= k < |x + y|
      ensures Proper((x + y)[k]) && Within((x + y)[k], r)
    {
      if k < |x| {
        assert (x + y)[k] == x[k];
      } else {
        assert (x + y)[k] == y[k - |x|];
      }
    }
  }

  /** One turn of the worklist loop of `Map::apply_range`, from the state where `pending` is still
      to be done and `done` has been emitted: the last pending range is popped; the first rule
      that overlaps it claims the overlap, whose image is emitted and whose leftovers below and
      above are pushed back; a range no rule overlaps is emitted as it is. */
  function Next(rules: seq<Rule>, pending: seq<Range>, done: seq<Range>): (seq<Range>, seq<Range>)
    requires pending != []
  {
    var r := pending[|pending| - 1];
    var rest := pending[..|pending| - 1];
    match FirstOverlap(rules, r)
    case None => (rest, done + [r])
    case Some(i) =>
      var (src, dst) := ApplyRange(rules[i], r).value;
      (rest + Leftovers(r, src), done + [dst])
  }

  /** A turn keeps the pending ranges proper and takes ids off them, or, when it takes none, a
      range: the worklist loop ends. */
  lemma NextShrinks(rules: seq<Rule>, pending: seq<Range>, done: seq<Range>)
    requires Positive(rules) && AllProper(pending) && pending != []
    ensures AllProper(Next(rules, pending, done).0) && TotalLen(Next(rules, pending, done).0) >= 0
    ensures TotalLen(Next(rules, pending, done).0) < TotalLen(pending) ||
      (TotalLen(Next(rules, pending, done).0) == TotalLen(pending) && |Next(rules, pending, done).0| < |pending|)
  {
    var r := pending[|pending| - 1];
    var rest := pending[..|pending| - 1];
    match FirstOverlap(rules, r)
    case None =>
      TotalLenNonNegative(rest);
    case Some(i) =>
      var (src, dst) := ApplyRange(rules[i], r).value;
      ClaimSplits(rules[i], r);
      TotalLenAppend(rest, Leftovers(r, src));
      TotalLenNonNegative(rest + Leftovers(r, src));
  }

  /** The whole worklist loop: turns until nothing is pending; the emitted ranges. */
  function Drain(rules: seq<Rule>, pending: seq<Range>, done: seq<Range>): seq<Range>
    requires Positive(rules) && AllProper(pending)
    decreases TotalLen(pending), |pending|
  {
    if pending == [] then done
    else
      TotalLenNonNegative(pending);
      NextShrinks(rules, pending, done);
      var next := Next(rules, pending, done);
      Drain(rules, next.0, next.1)
  }

  /** The emitted ranges are proper, there is at least one for every pending range, and no id is
      lost or gained: they hold as many ids as the pending and the already emitted ranges. */
  lemma {:induction false} DrainShape(rules: seq<Rule>, pending: seq<Range>, done: seq<Range>)
    requires Positive(rules) && AllProper(pending) && AllProper(done)
    ensures AllProper(Drain(rules, pending, done))
    ensures |Drain(rules, pending, done)| >= |done| + (if pending == [] then 0 else 1)
    ensures TotalLen(Drain(rules, pending, done)) == TotalLen(pending) + TotalLen(done)
    decreases TotalLen(pending), |pending|
  {
    if pending != [] {
      TotalLenNonNegative(pending);
      var r := pending[|pending| - 1];
      var rest := pending[..|pending| - 1];
      match FirstOverlap(rules, r)
      case None =>
        DrainShape(rules, rest, done + [r]);
        assert (done + [r])[..|done|] == done;
      case Some(i) =>
        var (src, dst) := ApplyRange(rules[i], r).value;
        ClaimSplits(rules[i], r);
        TotalLenAppend(rest, Leftovers(r, src));
        assert (done + [dst])[..|done|] == done;
        DrainShape(rules, rest + Leftovers(r, src), done + [dst]);
    }
  }

  /** `out` is what the map makes of part of `input`: a part no rule overlaps, left where it is,
      or a part inside the source interval of rule `i` that no earlier rule overlaps, moved by
      rule `i`'s offset. */
  predicate FromRule(rules: seq<Rule>, i: nat, input: Range, out: Range)
    requires i < |rules|
  {
    var part := Shift(out, -Delta(rules[i]));
    Within(part, input) && Within(part, SourceOf(rules[i])) &&
    forall j :: 0 <= j < i ==> !Overlaps(rules[j], part)
  }

  predicate Image(rules: seq<Rule>, input: Range, out: Range)
  {
    (Within(out, input) && forall j :: 0 <= j < |rules| ==> !Overlaps(rules[j], out)) ||
    exists i :: 0 <= i < |rules| && FromRule(rules, i, input, out)
  }

  /** A rule that does not overlap a range does not overlap any part of it either. */
  lemma OverlapsPart(rule: Rule, part: Range, r: Range)
    requires Within(part, r) && Overlaps(rule, part)
    ensures Overlaps(rule, r)
  {
  }

  /** The ids emitted for a pending part of `input` that rule `i` claims come from that rule. */
  lemma ClaimIsImage(rules: seq<Rule>, i: nat, input: Range, r: Range)
    requires Positive(rules) && Proper(r) && Within(r, input)
    requires FirstOverlap(rules, r).Some? && FirstOverlap(rules, r).value == i
    ensures Image(rules, input, ApplyRange(rules[i], r).value.1)
  {
    var (src, dst) := ApplyRange(rules[i], r).value;
    ClaimSplits(rules[i], r);
    FirstOverlapFromMeaning(rules, r, 0);
    assert Shift(dst, -Delta(rules[i])) == src;
    forall j | 0 <= j < i
      ensures !Overlaps(rules[j], src)
    {
      if Overlaps(rules[j], src) {
        OverlapsPart(rules[j], src, r);
      }
    }
    assert FromRule(rules, i, input, dst);
  }

  /** Every emitted range is the image of a part of `input`, taken by the first rule that overlaps
      it or by no rule at all, as long as every pending range is a proper part of `input`. */
  lemma {:induction false} DrainImage(rules: seq<Rule>, input: Range, pending: seq<Range>, done: seq<Range>)
    requires Positive(rules) && AllProper(pending)
    requires forall k :: 0 <= k < |pending| ==> Within(pending[k], input)
    requires forall k :: 0 <= k < |done| ==> Image(rules, input, done[k])
    ensures forall k :: 0 <= k < |Drain(rules, pending, done)| ==> Image(rules, input, Drain(rules, pending, done)[k])
    decreases TotalLen(pending), |pending|
  {
    if pending != [] {
      TotalLenNonNegative(pending);
      var r := pending[|pending| - 1];
      var rest := pending[..|pending| - 1];
      match FirstOverlap(rules, r)
      case None =>
        FirstOverlapFromMeaning(rules, r, 0);
        assert Image(rules, input, r);
        DrainImage(rules, input, rest, done + [r]);
      case Some(i) =>
        var (src, dst) := ApplyRange(rules[i], r).value;
        ClaimSplits(rules[i], r);
        ClaimIsImage(rules, i, input, r);
        TotalLenAppend(rest, Leftovers(r, src));
        var next := rest + Leftovers(r, src);
        forall k | 0 <= k < |next|
          ensures Within(next[k], input)
        {
          if k >= |rest| {
            assert next[k] == Leftovers(r, src)[k - |rest|];
          }
        }
        DrainImage(rules, input, next, done + [dst]);
    }
  }

  /** A range that no rule overlaps comes out unchanged and alone. */
  lemma DrainUntouched(rules: seq<Rule>, r: Range)
    requires Positive(rules) && Proper(r)
    requires forall j :: 0 <= j < |rules| ==> !Overlaps(rules[j], r)
    ensures Drain(rules, [r], []) == [r]
  {
    FirstOverlapFromMeaning(rules, r, 0);
    assert [r][..0] == [];
  }

  /** Where the map sends a single id, from rule `k` on: the offset of the first rule whose
      source interval holds it, or nowhere else when none does. */
  function LookupFrom(rules: seq<Rule>, x: int, k: nat): int
    decreases |rules| - k
  {
    if k >= |rules| then x
    else if Contains(SourceOf(rules[k]), x) then x + Delta(rules[k])
    else LookupFrom(rules, x, k + 1)
  }

  function Lookup(rules: seq<Rule>, x: int): int { LookupFrom(rules, x, 0) }

  function Unit(x: int): Range { Range(x, x + 1) }

  /** For a range of one id, the guard of a rule holds exactly when its source holds the id. */
  lemma {:induction false} UnitOverlapFrom(rules: seq<Rule>, x: int, k: nat)
    ensures match FirstOverlapFrom(rules, Unit(x), k)
      case None => LookupFrom(rules, x, k) == x
      case Some(i) => LookupFrom(rules, x, k) == x + Delta(rules[i]) && Contains(SourceOf(rules[i]), x)
    decreases |rules| - k
  {
    if k < |rules| && !Overlaps(rules[k], Unit(x)) {
      UnitOverlapFrom(rules, x, k + 1);
    }
  }

  /** A range of one id comes out as the range of the one id its lookup gives. */
  lemma DrainUnit(rules: seq<Rule>, x: int)
    requires Positive(rules)
    ensures Drain(rules, [Unit(x)], []) == [Unit(Lookup(rules, x))]
  {
    UnitOverlapFrom(rules, x, 0);
    assert [Unit(x)][..0] == [];
    match FirstOverlap(rules, Unit(x))
    case None =>
    case Some(i) =>
      var (src, dst) := ApplyRange(rules[i], Unit(x)).value;
      assert src == Unit(x);
      assert Leftovers(Unit(x), src) == [];
  }

  /** As written, an empty range [s, s) starting at the first id of a rule's source interval is
      not moved by that rule: the guard asks for `end > source`. */
  lemma SourceSeedMissed()
    ensures Drain([Rule(50, 98, 2)], [Range(98, 98)], []) == [Range(98, 98)]
    ensures Lookup([Rule(50, 98, 2)], 98) == 50
  {
    DrainUntouched([Rule(50, 98, 2)], Range(98, 98));
  }

  datatype Map = Map(name: string, rules: seq<Rule>)

  predicate RuleLines(lines: seq<string>)
  {
    |lines| >= 1 && forall k :: 1 <= k < |lines| ==> |Numbers(lines[k])| >= 3
  }

  /** `Map::new`: the first line names the map, each further line is a rule. */
  function MapFrom(lines: seq<string>): (m: Map)
    requires RuleLines(lines)
  {
    Map(lines[0], seq(|lines| - 1, k requires 0 <= k < |lines| - 1 => RuleFrom(lines[k + 1])))
  }

  /** The loop of `Map::new`, pushing one rule per line after the first. */
  method NewMap(lines: seq<string>) returns (m: Map)
    requires RuleLines(lines)
    ensures m == MapFrom(lines)
    ensures m.name == lines[0] && |m.rules| == |lines| - 1
    ensures forall k :: 0 <= k < |m.rules| ==> m.rules[k] == RuleFrom(lines[k + 1])
  {
    var rules: seq<Rule> := [];
    for k := 1 to |lines|
      invariant |rules| == k - 1
      invariant forall j :: 0 <= j < k - 1 ==> rules[j] == RuleFrom(lines[j + 1])
    {
      rules := rules + [RuleFrom(lines[k])];
    }
    m := Map(lines[0], rules);
  }

  /** The inner loop of `Map::apply_range`: the result of the first rule that applies to `r`. */
  method ClaimFirst(rules: seq<Rule>, r: Range) returns (claim: Option<(Range, Range)>)
    ensures claim.None? <==> FirstOverlap(rules, r).None?
    ensures claim.Some? ==> claim == ApplyRange(rules[FirstOverlap(rules, r).value], r)
  {
    claim := None;
    var k := 0;
    while k < |rules|
      invariant 0 <= k <= |rules|
      invariant FirstOverlapFrom(rules, r, k) == FirstOverlap(rules, r)
    {
      var applied := ApplyRange(rules[k], r);
      if applied.Some? {
        claim := applied;
        return;
      }
      k := k + 1;
    }
  }

  /** The body of the worklist loop of `Map::apply_range`. */
  method Turn(m: Map, ranges: seq<Range>, res: seq<Range>) returns (ranges': seq<Range>, res': seq<Range>)
    requires ranges != []
    ensures (ranges', res') == Next(m.rules, ranges, res)
  {
    var r := ranges[|ranges| - 1];
    ranges' := ranges[..|ranges| - 1];
    var claim := ClaimFirst(m.rules, r);
    match claim {
      case Some((source, dest)) =>
        ghost var rest := ranges';
        res' := res + [dest];
        if r.start < source.start {
          ranges' := ranges' + [Range(r.start, source.start)];
        }
        if source.end < r.end {
          ranges' := ranges' + [Range(source.end, r.end)];
        }
        assert ranges' == rest + Leftovers(r, source);
      case None =>
        res' := res + [r];
    }
  }

  /** `Map::apply_range`: splits `range` over the rules with a worklist. */
  method MapApplyRange(m: Map, range: Range) returns (res: seq<Range>)
    requires Positive(m.rules) && Proper(range)
    ensures res == Drain(m.rules, [range], [])
  {
    res := [];
    var ranges := [range];
    TotalLenNonNegative(ranges);
    while ranges != []
      invariant AllProper(ranges) && TotalLen(ranges) >= 0
      invariant Drain(m.rules, ranges, res) == Drain(m.rules, [range], [])
      decreases TotalLen(ranges), |ranges|
    {
      NextShrinks(m.rules, ranges, res);
      ranges, res := Turn(m, ranges, res);
    }
  }

  predicate AllPositive(maps: seq<Map>) { forall k :: 0 <= k < |maps| ==> Positive(maps[k].rules) }

  /** One map applied to each current range in turn, the results concatenated. */
  function Stage(rules: seq<Rule>, current: seq<Range>): seq<Range>
    requires Positive(rules) && AllProper(current)
  {
    if current == [] then []
    else Stage(rules, current[..|current| - 1]) + Drain(rules, [current[|current| - 1]], [])
  }

  /** A stage keeps the ranges proper, gives at least one range per range and keeps every id. */
  lemma {:induction false} StageShape(rules: seq<Rule>, current: seq<Range>)
    requires Positive(rules) && AllProper(current)
    ensures AllProper(Stage(rules, current))
    ensures |Stage(rules, current)| >= |current|
    ensures TotalLen(Stage(rules, current)) == TotalLen(current)
  {
    if current != [] {
      var init := current[..|current| - 1];
      var last := current[|current| - 1];
      StageShape(rules, init);
      DrainShape(rules, [last], []);
      TotalLenSingle(last);
      AllProperAppend(Stage(rules, init), Drain(rules, [last], []));
      TotalLenAppend(Stage(rules, init), Drain(rules, [last], []));
    }
  }

  /** The `for map in &maps` loop: every map applied in order to the current ranges. */
  function Through(maps: seq<Map>, current: seq<Range>): seq<Range>
    requires AllPositive(maps) && AllProper(current)
    decreases |maps|, 0
  {
    if maps == [] then current
    else
      var before := Through(maps[..|maps| - 1], current);
      ThroughShape(maps[..|maps| - 1], current);
      Stage(maps[|maps| - 1].rules, before)
  }

  lemma {:induction false} ThroughShape(maps: seq<Map>, current: seq<Range>)
    requires AllPositive(maps) && AllProper(current)
    ensures AllProper(Through(maps, current))
    ensures |Through(maps, current)| >= |current|
    ensures TotalLen(Through(maps, current)) == TotalLen(current)
    decreases |maps|, 1
  {
    if maps != [] {
      ThroughShape(maps[..|maps| - 1], current);
      StageShape(maps[|maps| - 1].rules, Through(maps[..|maps| - 1], current));
    }
  }

  /** The ranges every seed range ends up as, seed range by seed range. */
  function Located(maps: seq<Map>, seeds: seq<Range>): seq<Range>
    requires AllPositive(maps) && AllProper(seeds)
  {
    if seeds == [] then []
    else Located(maps, seeds[..|seeds| - 1]) + Through(maps, [seeds[|seeds| - 1]])
  }

  /** No id is lost or gained on the way through the maps, and every seed range yields at least
      one location range. */
  lemma {:induction false} LocatedShape(maps: seq<Map>, seeds: seq<Range>)
    requires AllPositive(maps) && AllProper(seeds)
    ensures |Located(maps, seeds)| >= |seeds|
    ensures TotalLen(Located(maps, seeds)) == TotalLen(seeds)
  {
    if seeds != [] {
      var last := seeds[|seeds| - 1];
      LocatedShape(maps, seeds[..|seeds| - 1]);
      ThroughShape(maps, [last]);
      TotalLenSingle(last);
      TotalLenAppend(Located(maps, seeds[..|seeds| - 1]), Through(maps, [last]));
    }
  }

  /** The id a single seed ends up at: every map's lookup applied in order. */
  function Location(maps: seq<Map>, x: int): int
  {
    if maps == [] then x else Lookup(maps[|maps| - 1].rules, Location(maps[..|maps| - 1], x))
  }

  /** A range of one id goes through the maps as the range of its location. */
  lemma {:induction false} ThroughUnit(maps: seq<Map>, x: int)
    requires AllPositive(maps)
    ensures Through(maps, [Unit(x)]) == [Unit(Location(maps, x))]
  {
    if maps != [] {
      var init := maps[..|maps| - 1];
      var rules := maps[|maps| - 1].rules;
      ThroughUnit(init, x);
      var y := Location(init, x);
      DrainUnit(rules, y);
      assert [Unit(y)][..0] == [];
      assert Stage(rules, [Unit(y)]) == [] + Drain(rules, [Unit(y)], []);
    }
  }

  /** The lowest start among some ranges: the first one after `sort_by_key(start)`. */
  function MinStart(rs: seq<Range>): (m: int)
    requires |rs| > 0
  {
    if |rs| == 1 then rs[0].start else Min(MinStart(rs[..|rs| - 1]), rs[|rs| - 1].start)
  }

  lemma {:induction false} MinStartIsLeast(rs: seq<Range>)
    requires |rs| > 0
    ensures exists k :: 0 <= k < |rs| && rs[k].start == MinStart(rs)
    ensures forall k :: 0 <= k < |rs| ==> MinStart(rs) <= rs[k].start
  {
    if |rs| == 1 {
      assert rs[0].start == MinStart(rs);
    } else {
      var init := rs[..|rs| - 1];
      MinStartIsLeast(init);
      var k :| 0 <= k < |init| && init[k].start == MinStart(init);
      assert rs[k] == init[k];
      if MinStart(init) > rs[|rs| - 1].start {
        assert rs[|rs| - 1].start == MinStart(rs);
      } else {
        assert rs[k].start == MinStart(rs);
      }
      forall j | 0 <= j < |rs|
        ensures MinStart(rs) <= rs[j].start
      {
        if j < |rs| - 1 {
          assert rs[j] == init[j];
        }
      }
    }
  }

  /** `map.apply_range` for each current range, the results appended (the `for cur` loop). */
  method ApplyMap(m: Map, current: seq<Range>) returns (res: seq<Range>)
    requires Positive(m.rules) && AllProper(current)
    ensures res == Stage(m.rules, current)
  {
    res := [];
    for i := 0 to |current|
      invariant res == Stage(m.rules, current[..i])
    {
      assert current[..i + 1][..i] == current[..i];
      var mapped := MapApplyRange(m, current[i]);
      res := res + mapped;
    }
    assert current[..|current|] == current;
  }

  /** The `for map in &maps` loop for one seed range. */
  method ThroughMaps(maps: seq<Map>, seed: Range) returns (current: seq<Range>)
    requires AllPositive(maps) && Proper(seed)
    ensures current == Through(maps, [seed])
  {
    current := [seed];
    for j := 0 to |maps|
      invariant AllProper(current)
      invariant current == Through(maps[..j], [seed])
    {
      assert maps[..j + 1][..j] == maps[..j];
      current := ApplyMap(maps[j], current);
      StageShape(maps[j].rules, Through(maps[..j], [seed]));
    }
    assert maps[..|maps|] == maps;
  }

  /** The seed loops of `main`, then the lowest start after sorting. */
  method LowestLocation(maps: seq<Map>, seeds: seq<Range>) returns (lowest: int)
    requires AllPositive(maps) && AllProper(seeds) && |seeds| > 0
    ensures |Located(maps, seeds)| > 0 && lowest == MinStart(Located(maps, seeds))
  {
    var all: seq<Range> := [];
    for i := 0 to |seeds|
      invariant all == Located(maps, seeds[..i])
    {
      assert seeds[..i + 1][..i] == seeds[..i];
      var current := ThroughMaps(maps, seeds[i]);
      all := all + current;
    }
    assert seeds[..|seeds|] == seeds;
    LocatedShape(maps, seeds);
    lowest := MinStart(all);
  }

  /** Part 1 as written: each seed becomes the empty range [s, s). */
  function PointRanges(seeds: seq<int>): (rs: seq<Range>)
    ensures |rs| == |seeds| && AllProper(rs)
  {
    seq(|seeds|, k requires 0 <= k < |seeds| => Range(seeds[k], seeds[k]))
  }

  /** Part 1 as intended: each seed becomes the range [s, s + 1) of that one id. */
  function UnitRanges(seeds: seq<int>): (rs: seq<Range>)
    ensures |rs| == |seeds| && AllProper(rs)
  {
    seq(|seeds|, k requires 0 <= k < |seeds| => Unit(seeds[k]))
  }

  /** Part 2: the seeds are read in pairs, a start and a length. */
  function PairRanges(seeds: seq<int>): (rs: seq<Range>)
    requires |seeds| % 2 == 0
    ensures |rs| == |seeds| / 2
    ensures (forall k :: 0 <= k < |seeds| / 2 ==> seeds[2 * k + 1] >= 0) ==> AllProper(rs)
  {
    seq(|seeds| / 2, k requires 0 <= k < |seeds| / 2 => Range(seeds[2 * k], seeds[2 * k] + seeds[2 * k + 1]))
  }

  /** The locations of single seeds, seed by seed. */
  function Locations(maps: seq<Map>, seeds: seq<int>): seq<int>
  {
    seq(|seeds|, k requires 0 <= k < |seeds| => Location(maps, seeds[k]))
  }

  function MinOf(xs: seq<int>): int
    requires |xs| > 0
  {
    if |xs| == 1 then xs[0] else Min(MinOf(xs[..|xs| - 1]), xs[|xs| - 1])
  }

  lemma {:induction false} LocatedUnits(maps: seq<Map>, seeds: seq<int>)
    requires AllPositive(maps)
    ensures Located(maps, UnitRanges(seeds)) ==
      seq(|seeds|, k requires 0 <= k < |seeds| => Unit(Location(maps, seeds[k])))
  {
    if seeds != [] {
      var init := seeds[..|seeds| - 1];
      LocatedUnits(maps, init);
      assert UnitRanges(seeds)[..|seeds| - 1] == UnitRanges(init);
      ThroughUnit(maps, seeds[|seeds| - 1]);
    }
  }

  lemma {:induction false} MinStartUnits(xs: seq<int>)
    requires |xs| > 0
    ensures MinStart(seq(|xs|, k requires 0 <= k < |xs| => Unit(xs[k]))) == MinOf(xs)
  {
    if |xs| > 1 {
      var init := xs[..|xs| - 1];
      MinStartUnits(init);
      assert seq(|xs|, k requires 0 <= k < |xs| => Unit(xs[k]))[..|xs| - 1] ==
        seq(|init|, k requires 0 <= k < |init| => Unit(init[k]));
    }
  }

  /** With single-id seed ranges, the answer of part 1 is the lowest location of any seed. */
  lemma UnitSeedsLowest(maps: seq<Map>, seeds: seq<int>)
    requires AllPositive(maps) && |seeds| > 0
    ensures |Located(maps, UnitRanges(seeds))| > 0
    ensures MinStart(Located(maps, UnitRanges(seeds))) == MinOf(Locations(maps, seeds))
  {
    LocatedUnits(maps, seeds);
    var xs := Locations(maps, seeds);
    MinStartUnits(xs);
    assert seq(|xs|, k requires 0 <= k < |xs| => Unit(xs[k])) ==
      seq(|seeds|, k requires 0 <= k < |seeds| => Unit(Location(maps, seeds[k])));
  }

  /** As written, part 1 can miss a rule: the seed 98 under the rule "50 98 2" should end at 50
      but stays at 98. */
  lemma PointSeedMissed()
    ensures var maps := [Map("seed-to-soil map:", [Rule(50, 98, 2)])];
      Located(maps, PointRanges([98])) == [Range(98, 98)] &&
      Locations(maps, [98]) == [50]
  {
    var maps := [Map("seed-to-soil map:", [Rule(50, 98, 2)])];
    SourceSeedMissed();
    assert maps[..0] == [];
    assert Through(maps[..0], [Range(98, 98)]) == [Range(98, 98)];
    assert Stage(maps[0].rules, [Range(98, 98)]) == [] + Drain(maps[0].rules, [Range(98, 98)], []);
    assert Location(maps[..0], 98) == 98;
  }

  function Close(group: seq<string>): seq<seq<string>>
  {
    if group == [] then [] else [group]
  }

  /** `split(|line| line.is_empty())` on the lines after the first, with the empty groups
      dropped; `group` holds the lines of the group read so far. */
  function Blocks(lines: seq<string>, group: seq<string>): seq<seq<string>>
  {
    if lines == [] then Close(group)
    else if lines[0] == "" then Close(group) + Blocks(lines[1..], [])
    else Blocks(lines[1..], group + [lines[0]])
  }

  function NonEmptyLines(lines: seq<string>): seq<string>
  {
    if lines == [] then [] else (if lines[0] == "" then [] else [lines[0]]) + NonEmptyLines(lines[1..])
  }

  function Flatten(blocks: seq<seq<string>>): seq<string>
  {
    if blocks == [] then [] else blocks[0] + Flatten(blocks[1..])
  }

  predicate GoodBlock(block: seq<string>)
  {
    |block| > 0 && forall k :: 0 <= k < |block| ==> block[k] != ""
  }

  lemma {:induction false} FlattenAppend(a: seq<seq<string>>, b: seq<seq<string>>)
    ensures Flatten(a + b) == Flatten(a) + Flatten(b)
  {
    if a == [] {
      assert a + b == b;
    } else {
      assert (a + b)[0] == a[0];
      assert (a + b)[1..] == a[1..] + b;
      FlattenAppend(a[1..], b);
    }
  }

  /** Every block is non-empty and holds no empty line, and the blocks hold, in order, exactly
      the non-empty lines. */
  lemma BlocksMeaning(lines: seq<string>, group: seq<string>)
    requires forall k :: 0 <= k < |group| ==> group[k] != ""
    ensures forall b :: 0 <= b < |Blocks(lines, group)| ==> GoodBlock(Blocks(lines, group)[b])
    ensures Flatten(Blocks(lines, group)) == group + NonEmptyLines(lines)
  {
    BlocksGood(lines, group);
    BlocksFlatten(lines, group);
  }

  lemma {:induction false} BlocksGood(lines: seq<string>, group: seq<string>)
    requires forall k :: 0 <= k < |group| ==> group[k] != ""
    ensures forall b :: 0 <= b < |Blocks(lines, group)| ==> GoodBlock(Blocks(lines, group)[b])
  {
    if lines == [] {
    } else if lines[0] == "" {
      BlocksGood(lines[1..], []);
      var bs := Blocks(lines, group);
      forall b | 0 <= b < |bs|
        ensures GoodBlock(bs[b])
      {
        if b >= |Close(group)| {
          assert bs[b] == Blocks(lines[1..], [])[b - |Close(group)|];
        }
      }
    } else {
      BlocksGood(lines[1..], group + [lines[0]]);
    }
  }

  lemma {:induction false} BlocksFlatten(lines: seq<string>, group: seq<string>)
    ensures Flatten(Blocks(lines, group)) == group + NonEmptyLines(lines)
  {
    if lines == [] {
      FlattenClose(group);
      assert group + [] == group;
    } else if lines[0] == "" {
      var rest := NonEmptyLines(lines[1..]);
      BlocksFlatten(lines[1..], []);
      FlattenAppend(Close(group), Blocks(lines[1..], []));
      FlattenClose(group);
      assert [] + rest == rest;
    } else {
      var rest := NonEmptyLines(lines[1..]);
      BlocksFlatten(lines[1..], group + [lines[0]]);
      assert NonEmptyLines(lines) == [lines[0]] + rest;
      assert (group + [lines[0]]) + rest == group + ([lines[0]] + rest);
    }
  }

  lemma FlattenClose(group: seq<string>)
    ensures Flatten(Close(group)) == group
  {
    if group != [] {
      assert Flatten([group]) == group + Flatten([]);
    }
  }

  /** The seeds: the integers after the colon of the first line. */
  function SeedsOf(line: string): seq<int>
    requires Find(line, ':').Some?
  {
    Numbers(line[Find(line, ':').value + 1..])
  }

  predicate WellFormedAlmanac(lines: seq<string>)
  {
    |lines| >= 1 && Find(lines[0], ':').Some? &&
    var blocks := Blocks(lines[1..], []);
    forall b :: 0 <= b < |blocks| ==> RuleLines(blocks[b])
  }

  /** `Map::new` for each block of lines. */
  function MapsOf(lines: seq<string>): seq<Map>
    requires WellFormedAlmanac(lines)
  {
    var blocks := Blocks(lines[1..], []);
    seq(|blocks|, b requires 0 <= b < |blocks| => MapFrom(blocks[b]))
  }

  /** The answer of part 1 as written: the lowest start once every empty seed range has gone
      through the maps. */
  function Part1(lines: seq<string>): int
    requires WellFormedAlmanac(lines) && AllPositive(MapsOf(lines)) && |SeedsOf(lines[0])| > 0
  {
    var seeds := PointRanges(SeedsOf(lines[0]));
    LocatedShape(MapsOf(lines), seeds);
    MinStart(Located(MapsOf(lines), seeds))
  }

  /** Part 1 with the seed ranges the puzzle means, [s, s + 1). */
  function Part1Fixed(lines: seq<string>): int
    requires WellFormedAlmanac(lines) && AllPositive(MapsOf(lines)) && |SeedsOf(lines[0])| > 0
  {
    var seeds := UnitRanges(SeedsOf(lines[0]));
    LocatedShape(MapsOf(lines), seeds);
    MinStart(Located(MapsOf(lines), seeds))
  }

  /** The corrected part 1 is the lowest location of any seed. */
  lemma Part1FixedLowest(lines: seq<string>)
    requires WellFormedAlmanac(lines) && AllPositive(MapsOf(lines)) && |SeedsOf(lines[0])| > 0
    ensures Part1Fixed(lines) == MinOf(Locations(MapsOf(lines), SeedsOf(lines[0])))
  {
    UnitSeedsLowest(MapsOf(lines), SeedsOf(lines[0]));
  }

  predicate ProperPairs(seeds: seq<int>)
  {
    |seeds| % 2 == 0 && forall k :: 0 <= k < |seeds| / 2 ==> seeds[2 * k + 1] >= 0
  }

  /** The answer of part 2: the lowest start once every seed range given by a start and a length
      has gone through the maps. */
  function Part2(lines: seq<string>): int
    requires WellFormedAlmanac(lines) && AllPositive(MapsOf(lines))
    requires ProperPairs(SeedsOf(lines[0])) && |SeedsOf(lines[0])| > 0
  {
    var seeds := PairRanges(SeedsOf(lines[0]));
    LocatedShape(MapsOf(lines), seeds);
    MinStart(Located(MapsOf(lines), seeds))
  }
}
