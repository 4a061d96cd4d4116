/** Day 15: the HASH algorithm, the steps of the initialization sequence, and the HASHMAP
    procedure that arranges labelled lenses in 256 boxes. */
module Day15 {
  import opened Common
  import opened Text

  /** HASH as a fold from the left: for each character add its code, multiply by 17 and keep the
      remainder by 256. Labels are ASCII, so a character's code is its byte. */
  function HashOf(s: string): (h: int)
    ensures 0 <= h < 256
  {
    if s == [] then 0 else ((HashOf(s[..|s| - 1]) + s[|s| - 1] as int) * 17) % 256
  }

  /** The empty string hashes to zero, and one more character takes one more step of the fold. */
  lemma HashAppend(s: string, c: char)
    ensures HashOf([]) == 0
    ensures HashOf(s + [c]) == ((HashOf(s) + c as int) * 17) % 256
  {
    assert (s + [c])[..|s|] == s;
  }

  /** `hash`. */
  method Hash(input: string) returns (res: int)
    ensures res == HashOf(input) && 0 <= res < 256
  {
    res := 0;
    for i := 0 to |input|
      invariant res == HashOf(input[..i])
    {
      assert input[..i + 1][..i] == input[..i];
      res := ((res + input[i] as int) * 17) % 256;
    }
    assert input[..|input|] == input;
  }

  datatype Operation = Remove | Add

  predicate IsOpChar(c: char)
  {
    c == '=' || c == '-'
  }

  /** `Operation::from`; any other character panics. */
  function OperationFrom(c: char): (op: Operation)
    requires IsOpChar(c)
    ensures op == Add <==> c == '='
    ensures op == Remove <==> c == '-'
  {
    if c == '=' then Add else Remove
  }

  /** A step of the initialization sequence; `name` holds the step's label. */
  datatype Step = Step(name: string, op: Operation, length: Option<int>)

  /** The position of the first `=` or `-`. */
  function FindOp(s: string): (r: Option<nat>)
    ensures r.Some? ==> r.value < |s| && IsOpChar(s[r.value]) && forall j :: 0 <= j < r.value ==> !IsOpChar(s[j])
    ensures r.None? ==> forall j :: 0 <= j < |s| ==> !IsOpChar(s[j])
  {
    if s == [] then None
    else if IsOpChar(s[0]) then Some(0)
    else match FindOp(s[1..])
      case None => None
      case Some(i) => Some(i + 1)
  }

  /** What `Step::from` needs not to panic: an operation character, and after `=` a number. */
  predicate ValidStep(v: string)
  {
    FindOp(v).Some? && (v[FindOp(v).value] == '=' ==> ParseInt(v[FindOp(v).value + 1..]).Some?)
  }

  /** `Step::from`: the label is what comes before the first `=` or `-`, that character is the
      operation, and only an `Add` has a focal length, read from the rest. */
  function StepFrom(v: string): (s: Step)
    requires ValidStep(v)
    ensures var i := FindOp(v).value;
      s.name == v[..i] && (forall j :: 0 <= j < |s.name| ==> !IsOpChar(s.name[j])) &&
      s.op == OperationFrom(v[i]) && (s.length.Some? <==> s.op == Add) &&
      (s.op == Add ==> s.length == ParseInt(v[i + 1..]))
  {
    var i := FindOp(v).value;
    var op := OperationFrom(v[i]);
    Step(v[..i], op, match op { case Remove => None case Add => ParseInt(v[i + 1..]) })
  }

  /** A step as the initialization sequence spells it: the label, then `-`, or `=` and the focal
      length. */
  function ShowStep(s: Step): string
    requires s.op == Add ==> s.length.Some?
  {
    match s.op
    case Remove => s.name + "-"
    case Add => s.name + "=" + ShowInt(s.length.value)
  }

  lemma {:induction false} FindOpAfter(p: string, t: string)
    requires forall j :: 0 <= j < |p| ==> !IsOpChar(p[j])
    requires |t| > 0 && IsOpChar(t[0])
    ensures FindOp(p + t) == Some(|p|)
    decreases |p|
  {
    if p != [] {
      assert (p + t)[1..] == p[1..] + t;
      FindOpAfter(p[1..], t);
    } else {
      assert p + t == t;
    }
  }

  /** `Step::from` reads back every step it can produce. */
  lemma StepRoundTrip(s: Step)
    requires forall j :: 0 <= j < |s.name| ==> !IsOpChar(s.name[j])
    requires s.length.Some? <==> s.op == Add
    ensures ValidStep(ShowStep(s)) && StepFrom(ShowStep(s)) == s
  {
    match s.op {
      case Remove =>
        SplitAtOp(ShowStep(s), s.name, "-");
      case Add =>
        var n := ShowInt(s.length.value);
        SplitAtOp(ShowStep(s), s.name, "=" + n);
        assert ("=" + n)[1..] == n;
        ParseShowInt(s.length.value);
    }
  }

  /** A label without operation characters followed by a text that starts with one: the label is
      cut off at the operation character. */
  lemma SplitAtOp(v: string, p: string, t: string)
    requires v == p + t && forall j :: 0 <= j < |p| ==> !IsOpChar(p[j])
    requires |t| > 0 && IsOpChar(t[0])
    ensures FindOp(v) == Some(|p|) && v[..|p|] == p && v[|p|] == t[0] && v[|p| + 1..] == t[1..]
  {
    FindOpAfter(p, t);
  }

  /** `line.split(',').map(Step::from)`. */
  function StepsOf(line: string): (steps: seq<Step>)
    requires forall k :: 0 <= k < |Split(line, ',')| ==> ValidStep(Split(line, ',')[k])
    ensures |steps| == |Split(line, ',')|
    ensures forall k :: 0 <= k < |steps| ==> steps[k] == StepFrom(Split(line, ',')[k]) && Complete(steps[k])
  {
    var pieces := Split(line, ',');
    seq(|pieces|, k requires 0 <= k < |pieces| => StepFrom(pieces[k]))
  }

  /** An `Add` step carries its focal length, as every parsed step does. */
  predicate Complete(s: Step)
  {
    s.op == Add ==> s.length.Some?
  }

  /** A box: its lenses in order, and the slot of each label's lens. */
  datatype Box = Box(lenses: seq<int>, index: map<string, int>)

  const EmptyBox := Box([], map[])

  /** The index is a bijection from the box's labels onto its slots. */
  ghost predicate WellIndexed(b: Box)
  {
    (forall l :: l in b.index ==> 0 <= b.index[l] < |b.lenses|) &&
    (forall l, l' :: l in b.index && l' in b.index && b.index[l] == b.index[l'] ==> l == l') &&
    (forall p :: 0 <= p < |b.lenses| ==> Occupied(b, p))
  }

  /** Some label has its lens in slot `p`. */
  ghost predicate Occupied(b: Box, p: int)
  {
    exists l :: l in b.index && b.index[l] == p
  }

  /** What a lookup in the index needs for the lens access after it not to panic. */
  predicate SlotInRange(b: Box, name: string)
  {
    name in b.index ==> 0 <= b.index[name] < |b.lenses|
  }

  /** The focal length of the lens labelled `l`. */
  function Lens(b: Box, l: string): int
    requires l in b.index && 0 <= b.index[l] < |b.lenses|
  {
    b.lenses[b.index[l]]
  }

  /** The index rebuilt after the lens at slot `i` left: later slots move one down. */
  function Reindexed(index: map<string, int>, i: int): (r: map<string, int>)
    ensures r.Keys == index.Keys
    ensures forall l :: l in r ==> r[l] == if index[l] > i then index[l] - 1 else index[l]
  {
    map l | l in index :: if index[l] > i then index[l] - 1 else index[l]
  }

  /** The `Remove` arm: take out the labelled lens, if the box has one. */
  function Removed(b: Box, name: string): Box
    requires SlotInRange(b, name)
  {
    if name in b.index then
      var i := b.index[name];
      Box(b.lenses[..i] + b.lenses[i + 1..], Reindexed(b.index - {name}, i))
    else
      b
  }

  /** The `Add` arm: replace the labelled lens in its slot, or put a new one at the back. */
  function Added(b: Box, name: string, length: int): Box
    requires SlotInRange(b, name)
  {
    if name in b.index then
      Box(b.lenses[b.index[name] := length], b.index)
    else
      Box(b.lenses + [length], b.index[name := |b.lenses|])
  }

  /** Removing a present label deletes its lens and its entry, keeps every other lens with its
      label and in the same order, and moves the later slots down by one. */
  lemma RemovedPresent(b: Box, name: string)
    requires WellIndexed(b) && name in b.index
    ensures var r := Removed(b, name); var i := b.index[name];
      r.lenses == b.lenses[..i] + b.lenses[i + 1..] && r.index.Keys == b.index.Keys - {name} &&
      (forall l :: l in r.index ==> r.index[l] == if b.index[l] > i then b.index[l] - 1 else b.index[l]) &&
      (forall l :: l in r.index ==> 0 <= r.index[l] < |r.lenses| && Lens(r, l) == Lens(b, l)) &&
      (forall l, l' :: l in r.index && l' in r.index ==> (r.index[l] < r.index[l'] <==> b.index[l] < b.index[l']))
  {
    var r := Removed(b, name);
    var i := b.index[name];
    forall l | l in r.index
      ensures b.index[l] != i
      ensures 0 <= r.index[l] < |r.lenses| && Lens(r, l) == Lens(b, l)
    {
      RemovedSlot(b, name, l);
    }
  }

  /** A label other than the removed one keeps its lens, one slot lower when it was behind it. */
  lemma RemovedSlot(b: Box, name: string, l: string)
    requires WellIndexed(b) && name in b.index && l in b.index && l != name
    ensures var r := Removed(b, name);
      l in r.index && b.index[l] != b.index[name] &&
      0 <= r.index[l] < |r.lenses| && Lens(r, l) == Lens(b, l)
  {
    var i := b.index[name];
    var r := Removed(b, name);
    var p := b.index[l];
    assert r.lenses == b.lenses[..i] + b.lenses[i + 1..];
    if p > i {
      assert r.lenses[p - 1] == b.lenses[p];
    } else {
      assert p != i;
      assert r.lenses[p] == b.lenses[p];
    }
  }

  /** Removing an absent label changes nothing. */
  lemma RemovedAbsent(b: Box, name: string)
    requires name !in b.index
    ensures Removed(b, name) == b
  {
  }

  /** Adding a present label overwrites its lens in place: same slots, same other lenses. */
  lemma AddedPresent(b: Box, name: string, length: int)
    requires WellIndexed(b) && name in b.index
    ensures var r := Added(b, name, length);
      r.index == b.index && |r.lenses| == |b.lenses| && Lens(r, name) == length &&
      forall l :: l in b.index && l != name ==> Lens(r, l) == Lens(b, l)
  {
  }

  /** Adding a new label puts its lens at the back, in slot `len - 1` of the new box. */
  lemma AddedNew(b: Box, name: string, length: int)
    requires WellIndexed(b) && name !in b.index
    ensures var r := Added(b, name, length);
      r.lenses == b.lenses + [length] && r.index == b.index[name := |r.lenses| - 1] &&
      forall l :: l in b.index ==> Lens(r, l) == Lens(b, l)
  {
  }

  /** Removing keeps the index a bijection. */
  lemma RemovedWellIndexed(b: Box, name: string)
    requires WellIndexed(b)
    ensures WellIndexed(Removed(b, name))
  {
    if name in b.index {
      var i := b.index[name];
      var r := Removed(b, name);
      forall p | 0 <= p < |r.lenses|
        ensures Occupied(r, p)
      {
        var q := if p < i then p else p + 1;
        assert Occupied(b, q);
        var l :| l in b.index && b.index[l] == q;
        assert l in r.index && r.index[l] == p;
      }
    }
  }

  /** Adding keeps the index a bijection. */
  lemma AddedWellIndexed(b: Box, name: string, length: int)
    requires WellIndexed(b)
    ensures WellIndexed(Added(b, name, length))
  {
    var r := Added(b, name, length);
    forall p | 0 <= p < |r.lenses|
      ensures Occupied(r, p)
    {
      if p < |b.lenses| {
        assert Occupied(b, p);
        var l :| l in b.index && b.index[l] == p;
        assert l in r.index && r.index[l] == p;
      } else {
        assert name in r.index && r.index[name] == p;
      }
    }
  }

  /** One step on its box. */
  function StepBox(b: Box, s: Step): (r: Box)
    requires WellIndexed(b) && Complete(s)
    ensures WellIndexed(r)
  {
    match s.op
    case Remove =>
      RemovedWellIndexed(b, s.name);
      Removed(b, s.name)
    case Add =>
      AddedWellIndexed(b, s.name, s.length.value);
      Added(b, s.name, s.length.value)
  }

  const Slots := 256

  /** The boxes of a table, each one well indexed. */
  ghost predicate Valid(boxes: seq<Box>)
  {
    |boxes| == Slots && forall j :: 0 <= j < |boxes| ==> WellIndexed(boxes[j])
  }

  /** One step on the table: only box `hash(label)` changes. */
  function StepTable(boxes: seq<Box>, s: Step): (r: seq<Box>)
    requires Valid(boxes) && Complete(s)
    ensures Valid(r)
    ensures forall j :: 0 <= j < Slots && j != HashOf(s.name) ==> r[j] == boxes[j]
    ensures r[HashOf(s.name)] == StepBox(boxes[HashOf(s.name)], s)
  {
    boxes[HashOf(s.name) := StepBox(boxes[HashOf(s.name)], s)]
  }

  /** The table after the steps, one after the other, from 256 empty boxes. */
  function Run(steps: seq<Step>): (r: seq<Box>)
    requires forall k :: 0 <= k < |steps| ==> Complete(steps[k])
    ensures Valid(r)
  {
    if steps == [] then seq(Slots, _ => EmptyBox)
    else StepTable(Run(steps[..|steps| - 1]), steps[|steps| - 1])
  }

  /** The `Remove` and `Add` arms of the loop in `main`, on the box the label hashes to. */
  method ApplyStep(boxes: array<Box>, s: Step)
    requires Valid(boxes[..]) && Complete(s)
    modifies boxes
    ensures boxes[..] == StepTable(old(boxes[..]), s)
  {
    var target := Hash(s.name);
    match s.op {
      case Remove =>
        if s.name in boxes[target].index {
          var index := boxes[target].index[s.name];
          boxes[target] := boxes[target].(lenses := boxes[target].lenses[..index] + boxes[target].lenses[index + 1..]);
          boxes[target] := boxes[target].(index := boxes[target].index - {s.name});
          boxes[target] := boxes[target].(index := Reindexed(boxes[target].index, index));
        }
      case Add =>
        if s.name in boxes[target].index {
          var index := boxes[target].index[s.name];
          boxes[target] := boxes[target].(lenses := boxes[target].lenses[index := s.length.value]);
        } else {
          boxes[target] := boxes[target].(lenses := boxes[target].lenses + [s.length.value]);
          boxes[target] := boxes[target].(index := boxes[target].index[s.name := |boxes[target].lenses| - 1]);
        }
    }
  }

  /** One more step on the table after a prefix of the steps. */
  lemma RunPrefix(steps: seq<Step>, k: int)
    requires forall j :: 0 <= j < |steps| ==> Complete(steps[j])
    requires 0 <= k < |steps|
    ensures Run(steps[..k + 1]) == StepTable(Run(steps[..k]), steps[k])
  {
    assert steps[..k + 1][..k] == steps[..k];
  }

  /** The loop in `main`: 256 empty boxes, then every step in order. */
  method Arrange(steps: seq<Step>) returns (boxes: array<Box>)
    requires forall k :: 0 <= k < |steps| ==> Complete(steps[k])
    ensures boxes[..] == Run(steps)
  {
    boxes := new Box[Slots](_ => EmptyBox);
    assert boxes[..] == Run(steps[..0]);
    for k := 0 to |steps|
      invariant boxes.Length == Slots && boxes[..] == Run(steps[..k])
    {
      RunPrefix(steps, k);
      ApplyStep(boxes, steps[k]);
    }
    assert steps[..|steps|] == steps;
  }

  /** The focusing power of the first `n` lenses of box `b`: each lens's focal length times its
      slot number times the box number, both counted from one. */
  function BoxPower(lenses: seq<int>, b: int, n: int): int
    requires 0 <= n <= |lenses|
  {
    if n == 0 then 0 else BoxPower(lenses, b, n - 1) + lenses[n - 1] * n * (b + 1)
  }

  /** The focusing power of the first `n` boxes. */
  function Power(boxes: seq<Box>, n: int): int
    requires 0 <= n <= |boxes|
  {
    if n == 0 then 0 else Power(boxes, n - 1) + BoxPower(boxes[n - 1].lenses, n - 1, |boxes[n - 1].lenses|)
  }

  /** The sum in `main`. */
  function FocusingPower(boxes: seq<Box>): int
  {
    Power(boxes, |boxes|)
  }

  /** Changing one box changes the total by that box's change alone. */
  lemma {:induction false} PowerUpdate(boxes: seq<Box>, n: int, h: int, b: Box)
    requires 0 <= n <= |boxes| && 0 <= h < |boxes|
    ensures Power(boxes[h := b], n) ==
      Power(boxes, n) + (if h < n then BoxPower(b.lenses, h, |b.lenses|) - BoxPower(boxes[h].lenses, h, |boxes[h].lenses|) else 0)
    decreases n
  {
    if n > 0 {
      PowerUpdate(boxes, n - 1, h, b);
    }
  }

  /** A step changes the focusing power only by what it does to its own box. */
  lemma StepPower(boxes: seq<Box>, s: Step)
    requires Valid(boxes) && Complete(s)
    ensures var h := HashOf(s.name); var b := StepBox(boxes[h], s);
      FocusingPower(StepTable(boxes, s)) ==
        FocusingPower(boxes) + BoxPower(b.lenses, h, |b.lenses|) - BoxPower(boxes[h].lenses, h, |boxes[h].lenses|)
  {
    var h := HashOf(s.name);
    PowerUpdate(boxes, |boxes|, h, StepBox(boxes[h], s));
  }

  /** Empty boxes have no focusing power. */
  lemma {:induction false} PowerEmpty(boxes: seq<Box>, n: int)
    requires 0 <= n <= |boxes| && forall j :: 0 <= j < |boxes| ==> boxes[j].lenses == []
    ensures Power(boxes, n) == 0
    decreases n
  {
    if n > 0 {
      PowerEmpty(boxes, n - 1);
    }
  }

  /** Before any step the power is zero. */
  lemma NoStepsNoPower()
    ensures FocusingPower(Run([])) == 0
  {
    PowerEmpty(Run([]), Slots);
  }
}
