/** Day 8: Haunted Wasteland. A network of nodes with a left and a right neighbour is walked by
    a cyclic list of left/right instructions; part 2 combines the cycle lengths of all walks
    starting at a node ending in `A` with the least common multiple. */
module Day8 {
  import opened Common
  import opened Arith
  import opened Text

  datatype Instruction = Left | Right

  /** The letters `Instruction::new` accepts. */
  predicate InstructionChar(c: char) { c == 'L' || c == 'R' }

  /** `Instruction::new`. */
  function InstructionNew(c: char): Instruction
    requires InstructionChar(c)
  {
    if c == 'L' then Left else Right
  }

  function InstructionLetter(i: Instruction): char
  {
    match i
    case Left => 'L'
    case Right => 'R'
  }

  /** The first line of the input: one instruction per letter. */
  function Instructions(line: string): (r: seq<Instruction>)
    requires forall k :: 0 <= k < |line| ==> InstructionChar(line[k])
    ensures |r| == |line|
    ensures forall k :: 0 <= k < |line| ==> r[k] == InstructionNew(line[k])
  {
    if line == [] then [] else [InstructionNew(line[0])] + Instructions(line[1..])
  }

  function ShowInstructions(xs: seq<Instruction>): (r: string)
    ensures |r| == |xs|
    ensures forall k :: 0 <= k < |xs| ==> r[k] == InstructionLetter(xs[k])
  {
    if xs == [] then [] else [InstructionLetter(xs[0])] + ShowInstructions(xs[1..])
  }

  /** Reading the letters of instructions gives the instructions back. */
  lemma InstructionsShown(xs: seq<Instruction>)
    ensures forall k :: 0 <= k < |xs| ==> InstructionChar(ShowInstructions(xs)[k])
    ensures Instructions(ShowInstructions(xs)) == xs
  {
    var line := ShowInstructions(xs);
    forall k | 0 <= k < |xs|
      ensures InstructionChar(line[k]) && InstructionNew(line[k]) == xs[k]
    {
      assert line[k] == InstructionLetter(xs[k]);
    }
  }

  datatype Node = Node(id: string, left: string, right: string)

  /** The lines `Node::new` accepts: `=`, `(`, `,` and `)` all occur, the first `(` is before the
      first `,` and that before the first `)`. */
  predicate NodeLine(input: string)
  {
    var e, o, c, cl := Find(input, '='), Find(input, '('), Find(input, ','), Find(input, ')');
    e.Some? && o.Some? && c.Some? && cl.Some? && o.value + 1 <= c.value && c.value + 1 <= cl.value
  }

  /** The trimmed text between two offsets. */
  function Field(s: string, i: nat, j: nat): string
    requires i <= j <= |s|
  {
    Trim(s[i..j])
  }

  /** `Node::new`: the id is the trimmed text before `=`, the neighbours the trimmed texts between
      `(` and `,` and between `,` and `)`. */
  function NodeNew(input: string): Node
    requires NodeLine(input)
  {
    NodeAt(input, Find(input, '=').value, Find(input, '(').value, Find(input, ',').value, Find(input, ')').value)
  }

  /** The node read with the separators at the given offsets. */
  function NodeAt(s: string, e: nat, o: nat, c: nat, cl: nat): Node
    requires e <= |s| && o + 1 <= c && c + 1 <= cl <= |s|
  {
    Node(Field(s, 0, e), Field(s, o + 1, c), Field(s, c + 1, cl))
  }

  /** A node name: no separator of the node syntax and no space. */
  predicate PlainChar(ch: char)
  {
    ch != '=' && ch != '(' && ch != ',' && ch != ')' && !IsSpace(ch)
  }

  predicate Plain(s: string)
  {
    s == [] || (PlainChar(s[0]) && Plain(s[1..]))
  }

  lemma {:induction false} PlainChars(s: string)
    requires Plain(s)
    ensures forall k :: 0 <= k < |s| ==> PlainChar(s[k])
  {
    if s != [] {
      PlainChars(s[1..]);
      assert forall k :: 1 <= k < |s| ==> s[k] == s[1..][k - 1];
    }
  }

  function ShowNode(n: Node): string
  {
    n.id + ['=', '('] + n.left + [','] + n.right + [')']
  }

  /** Where `Node::new` finds the separators in the text of a node with plain names: `=` and
      `(` right after the id, `,` after the left neighbour and `)` after the right one. */
  lemma ShowNodeFinds(n: Node, a: nat, b: nat, cl: nat)
    requires Plain(n.id) && Plain(n.left) && Plain(n.right)
    requires a == |n.id| && b == a + 2 + |n.left| && cl == b + 1 + |n.right|
    ensures Find(ShowNode(n), '=').Some? && Find(ShowNode(n), '=').value == a
    ensures Find(ShowNode(n), '(').Some? && Find(ShowNode(n), '(').value == a + 1
    ensures Find(ShowNode(n), ',').Some? && Find(ShowNode(n), ',').value == b
    ensures Find(ShowNode(n), ')').Some? && Find(ShowNode(n), ')').value == cl
  {
    var s := ShowNode(n);
    PlainChars(n.id);
    PlainChars(n.left);
    PlainChars(n.right);
    forall j | 0 <= j < cl
      ensures s[j] != ')' && (j < b ==> s[j] != ',') && (j < a + 1 ==> s[j] != '(') && (j < a ==> s[j] != '=')
    {
      if j < a {
        assert s[j] == n.id[j];
      } else if j < a + 2 {
        assert s[j] == "=("[j - a];
      } else if j < b {
        assert s[j] == n.left[j - a - 2];
      } else if j == b {
        assert s[j] == ',';
      } else {
        assert s[j] == n.right[j - b - 1];
      }
    }
    assert s[a] == '=' && s[a + 1] == '(' && s[b] == ',' && s[cl] == ')';
    FindFirst(s, '=', a);
    FindFirst(s, '(', a + 1);
    FindFirst(s, ',', b);
    FindFirst(s, ')', cl);
  }

  /** The names of a node stand between the separators of its text. */
  lemma ShowNodeSlices(n: Node, a: nat, b: nat, cl: nat)
    requires a == |n.id| && b == a + 2 + |n.left| && cl == b + 1 + |n.right|
    ensures cl < |ShowNode(n)|
    ensures ShowNode(n)[0..a] == n.id && ShowNode(n)[a + 2..b] == n.left && ShowNode(n)[b + 1..cl] == n.right
  {
  }

  /** A slice holding a plain name is read as that name. */
  lemma FieldPlain(s: string, i: nat, j: nat, x: string)
    requires i <= j <= |s| && s[i..j] == x && Plain(x)
    ensures Field(s, i, j) == x
  {
    PlainChars(x);
  }

  /** A line with the separators of `Node::new` at `e`, `o`, `c` and `cl` is a node line, read at
      those separators. */
  lemma NodeNewAt(s: string, e: nat, o: nat, c: nat, cl: nat)
    requires Find(s, '=').Some? && Find(s, '=').value == e && Find(s, '(').Some? && Find(s, '(').value == o
    requires Find(s, ',').Some? && Find(s, ',').value == c && Find(s, ')').Some? && Find(s, ')').value == cl
    requires o + 1 <= c && c + 1 <= cl
    ensures NodeLine(s) && NodeNew(s) == NodeAt(s, e, o, c, cl)
  {
  }

  /** Plain names between the separators are read as themselves. */
  lemma NodeAtNames(s: string, n: Node, a: nat, b: nat, cl: nat)
    requires a + 2 <= b && b + 1 <= cl <= |s|
    requires s[0..a] == n.id && s[a + 2..b] == n.left && s[b + 1..cl] == n.right
    requires Plain(n.id) && Plain(n.left) && Plain(n.right)
    ensures NodeAt(s, a, a + 1, b, cl) == n
  {
    FieldPlain(s, 0, a, n.id);
    FieldPlain(s, a + 2, b, n.left);
    FieldPlain(s, b + 1, cl, n.right);
  }

  /** Reading the line of a node gives the node back. */
  lemma NodeFromShown(n: Node)
    requires Plain(n.id) && Plain(n.left) && Plain(n.right)
    ensures NodeLine(ShowNode(n)) && NodeNew(ShowNode(n)) == n
  {
    var a := |n.id|;
    var b := a + 2 + |n.left|;
    var cl := b + 1 + |n.right|;
    ShowNodeFinds(n, a, b, cl);
    NodeNewAt(ShowNode(n), a, a + 1, b, cl);
    ShowNodeSlices(n, a, b, cl);
    NodeAtNames(ShowNode(n), n, a, b, cl);
  }

  /** The network: `collect` into a `HashMap` keyed by id, a later line replacing an earlier one. */
  function NodeMap(nodes: seq<Node>): map<string, Node>
  {
    if nodes == [] then map[] else NodeMap(nodes[..|nodes| - 1])[nodes[|nodes| - 1].id := nodes[|nodes| - 1]]
  }

  /** The map holds exactly the ids of the lines. */
  lemma {:induction false} NodeMapKeys(nodes: seq<Node>)
    ensures forall id :: id in NodeMap(nodes) <==> exists i :: 0 <= i < |nodes| && nodes[i].id == id
  {
    if nodes != [] {
      var init := nodes[..|nodes| - 1];
      var last := nodes[|nodes| - 1];
      NodeMapKeys(init);
      forall id
        ensures id in NodeMap(nodes) <==> exists i :: 0 <= i < |nodes| && nodes[i].id == id
      {
        if id in NodeMap(nodes) && id != last.id {
          assert id in NodeMap(init);
          var i :| 0 <= i < |init| && init[i].id == id;
          assert nodes[i].id == id;
        }
        if id == last.id {
          assert nodes[|nodes| - 1].id == id;
        } else if exists i :: 0 <= i < |nodes| && nodes[i].id == id {
          var i :| 0 <= i < |nodes| && nodes[i].id == id;
          assert init[i].id == id;
        }
      }
    }
  }

  /** Each id maps to the last line with that id. */
  lemma {:induction false} NodeMapValues(nodes: seq<Node>, i: nat)
    requires i < |nodes| && forall j :: i < j < |nodes| ==> nodes[j].id != nodes[i].id
    ensures nodes[i].id in NodeMap(nodes) && NodeMap(nodes)[nodes[i].id] == nodes[i]
  {
    var init := nodes[..|nodes| - 1];
    if i < |init| {
      assert init[i] == nodes[i];
      NodeMapValues(init, i);
    }
  }

  /** Every neighbour named in the network is a node of it, so that no walk ever looks up a
      missing node. */
  predicate Closed(nodes: map<string, Node>)
  {
    forall k {:trigger Linked(nodes, k)} :: k in nodes ==> Linked(nodes, k)
  }

  predicate Linked(nodes: map<string, Node>, k: string)
    requires k in nodes
  {
    nodes[k].left in nodes && nodes[k].right in nodes
  }

  /** One step of a walk from a node of the network: the instruction at `steps` modulo the
      length picks one of its two neighbours, which need not be a node itself. */
  function Move(instructions: seq<Instruction>, nodes: map<string, Node>, current: string, steps: nat): (r: string)
    requires |instructions| > 0 && current in nodes
    ensures r == nodes[current].left || r == nodes[current].right
    ensures Closed(nodes) ==> r in nodes
  {
    assert Closed(nodes) ==> Linked(nodes, current);
    match instructions[steps % |instructions|]
    case Left => nodes[current].left
    case Right => nodes[current].right
  }

  /** Instructions repeat: the step after a whole round uses the same instruction. */
  lemma MovePeriodic(instructions: seq<Instruction>, nodes: map<string, Node>, current: string, steps: nat)
    requires |instructions| > 0 && current in nodes
    ensures Move(instructions, nodes, current, steps + |instructions|) == Move(instructions, nodes, current, steps)
  {
    var n := |instructions|;
    ModUnique(steps + n, n, steps / n + 1, steps % n);
  }

  /** The node reached after `k` steps, or `None` when an earlier step stands on a name that is
      not a node, where `nodes[&current]` panics. */
  function Position(instructions: seq<Instruction>, nodes: map<string, Node>, start: string, k: nat): (r: Option<string>)
    requires |instructions| > 0
    ensures k == 0 ==> r == Some(start)
  {
    if k == 0 then Some(start)
    else match Position(instructions, nodes, start, k - 1)
      case None => None
      case Some(current) => if current in nodes then Some(Move(instructions, nodes, current, k - 1)) else None
  }

  /** A walk that gets `k` steps far has stood on a node of the network at every earlier step. */
  lemma {:induction false} PositionPrefix(instructions: seq<Instruction>, nodes: map<string, Node>, start: string, k: nat, j: nat)
    requires |instructions| > 0 && j < k
    requires Position(instructions, nodes, start, k).Some?
    ensures Position(instructions, nodes, start, j).Some?
    ensures Position(instructions, nodes, start, j).value in nodes
  {
    if j < k - 1 {
      PositionPrefix(instructions, nodes, start, k - 1, j);
    }
  }

  /** In a closed network every walk from a node goes on for ever, and stays in the network. */
  lemma {:induction false} ClosedPosition(instructions: seq<Instruction>, nodes: map<string, Node>, start: string, k: nat)
    requires |instructions| > 0 && Closed(nodes) && start in nodes
    ensures Position(instructions, nodes, start, k).Some?
    ensures Position(instructions, nodes, start, k).value in nodes
  {
    if k > 0 {
      ClosedPosition(instructions, nodes, start, k - 1);
    }
  }

  /** What ends a walk: part 1 stops at `ZZZ`, part 2 at a node ending in `Z`. */
  datatype Target = Named(name: string) | EndsWith(last: char)

  predicate Hits(t: Target, id: string)
  {
    match t
    case Named(name) => id == name
    case EndsWith(c) => |id| > 0 && id[|id| - 1] == c
  }

  /** The walk gets `k` steps far and stands on the target there. */
  predicate HitAt(instructions: seq<Instruction>, nodes: map<string, Node>, start: string, target: Target, k: nat)
    requires |instructions| > 0
  {
    match Position(instructions, nodes, start, k)
    case None => false
    case Some(id) => Hits(target, id)
  }

  /** `k` is the least positive number of steps that ends on the target. */
  predicate FirstHit(instructions: seq<Instruction>, nodes: map<string, Node>, start: string, target: Target, k: int)
    requires |instructions| > 0
  {
    k >= 1 && HitAt(instructions, nodes, start, target, k) &&
    forall j :: 1 <= j < k ==> !HitAt(instructions, nodes, start, target, j)
  }

  /** The walks of `main`: step until the target is hit; the start node itself is never
      compared with the target. The answer is the least positive number of steps that ends on
      the target. Only the names stood on before then are looked up, so only they need to be
      nodes of the network. */
  method Walk(instructions: seq<Instruction>, nodes: map<string, Node>, start: string, target: Target)
    returns (steps: nat)
    requires |instructions| > 0
    requires exists n :: n >= 1 && HitAt(instructions, nodes, start, target, n)
    ensures steps >= 1 && HitAt(instructions, nodes, start, target, steps)
    ensures forall j :: 1 <= j < steps ==> !HitAt(instructions, nodes, start, target, j)
    ensures FirstHit(instructions, nodes, start, target, steps)
  {
    ghost var bound :| bound >= 1 && HitAt(instructions, nodes, start, target, bound);
    steps := 0;
    var current := start;
    while true
      invariant Position(instructions, nodes, start, steps) == Some(current)
      invariant steps < bound
      invariant forall j :: 1 <= j <= steps ==> !HitAt(instructions, nodes, start, target, j)
      decreases bound - steps
    {
      PositionPrefix(instructions, nodes, start, bound, steps);
      var instruction := instructions[steps % |instructions|];
      match instruction {
        case Left => current := nodes[current].left;
        case Right => current := nodes[current].right;
      }
      steps := steps + 1;
      if Hits(target, current) {
        break;
      }
    }
  }

  /** Part 1: the walk from `AAA` to `ZZZ`. */
  method Part1(instructions: seq<Instruction>, nodes: map<string, Node>) returns (steps: nat)
    requires |instructions| > 0
    requires exists n :: n >= 1 && Position(instructions, nodes, "AAA", n) == Some("ZZZ")
    ensures steps >= 1 && Position(instructions, nodes, "AAA", steps) == Some("ZZZ")
    ensures forall j :: 1 <= j < steps ==> Position(instructions, nodes, "AAA", j) != Some("ZZZ")
  {
    ghost var n :| n >= 1 && Position(instructions, nodes, "AAA", n) == Some("ZZZ");
    assert HitAt(instructions, nodes, "AAA", Named("ZZZ"), n);
    steps := Walk(instructions, nodes, "AAA", Named("ZZZ"));
    forall j | 1 <= j < steps
      ensures Position(instructions, nodes, "AAA", j) != Some("ZZZ")
    {
      assert !HitAt(instructions, nodes, "AAA", Named("ZZZ"), j);
    }
  }

  /** The network `AAA = (ZZZ, ZZZ)` without a `ZZZ` line is not closed, yet part 1 walks it:
      the one step lands on `ZZZ`, which is never looked up. */
  lemma OpenNetworkWalk()
    ensures !Closed(map["AAA" := Node("AAA", "ZZZ", "ZZZ")])
    ensures FirstHit([Left], map["AAA" := Node("AAA", "ZZZ", "ZZZ")], "AAA", Named("ZZZ"), 1)
  {
    var nodes := map["AAA" := Node("AAA", "ZZZ", "ZZZ")];
    assert !Linked(nodes, "AAA");
    assert Position([Left], nodes, "AAA", 1) == Some("ZZZ");
  }

  /** `gcd`, with Rust's remainder; it ends because the remainder is smaller than the divisor. */
  function Gcd(a: int, b: int): int
    decreases Abs(b)
  {
    if b == 0 then a
    else
      QuotRem(a, b);
      Gcd(b, Rem(a, b))
  }

  /** `gcd` divides both arguments, and every common divisor divides it. */
  lemma {:induction false} GcdDivides(a: int, b: int)
    ensures Divides(Gcd(a, b), a) && Divides(Gcd(a, b), b)
    decreases Abs(b)
  {
    if b == 0 {
      DividesMultiple(a, 1);
      DividesMultiple(a, 0);
    } else {
      QuotRem(a, b);
      GcdDivides(b, Rem(a, b));
      DividesCombination(Gcd(a, b), b, Quot(a, b), Rem(a, b));
    }
  }

  lemma {:induction false} GcdGreatest(a: int, b: int, d: int)
    requires Divides(d, a) && Divides(d, b)
    ensures Divides(d, Gcd(a, b))
    decreases Abs(b)
  {
    if b != 0 {
      QuotRem(a, b);
      assert Rem(a, b) == b * -Quot(a, b) + a;
      DividesCombination(d, b, -Quot(a, b), a);
      GcdGreatest(b, Rem(a, b), d);
    }
  }

  /** On non-negative arguments `gcd` is non-negative, and zero only when both are. */
  lemma {:induction false} GcdSign(a: int, b: int)
    requires a >= 0 && b >= 0
    ensures Gcd(a, b) >= 0
    ensures Gcd(a, b) == 0 <==> a == 0 && b == 0
    decreases b
  {
    if b != 0 {
      QuotRem(a, b);
      GcdSign(b, Rem(a, b));
    }
  }

  /** `lcm`; the division by `gcd` panics when both arguments are zero. */
  function Lcm(a: int, b: int): int
    requires Gcd(a, b) != 0
  {
    Quot(a, Gcd(a, b)) * b
  }

  /** `lcm` is a multiple of both arguments, and positive when they are. */
  lemma LcmMultiple(a: int, b: int)
    requires Gcd(a, b) != 0
    ensures Divides(a, Lcm(a, b)) && Divides(b, Lcm(a, b))
    ensures a > 0 && b > 0 ==> Lcm(a, b) > 0
  {
    var g := Gcd(a, b);
    GcdDivides(a, b);
    QuotExact(a, g);
    var q := Quot(a, g);
    DividesMultiple(b, q);
    QuotTimes(a, b, g);
    DividesMultiple(a, b / g);
    if a > 0 && b > 0 {
      GcdSign(a, b);
      PositiveCofactor(g, q);
      PositiveProduct(q, b);
    }
  }

  /** The fold of `lcm` over the cycle lengths, starting from 1. */
  function LcmFold(xs: seq<int>): (r: int)
    requires forall k :: 0 <= k < |xs| ==> xs[k] > 0
    ensures r > 0
  {
    if xs == [] then 1
    else
      var acc := LcmFold(xs[..|xs| - 1]);
      var x := xs[|xs| - 1];
      GcdSign(acc, x);
      LcmMultiple(acc, x);
      Lcm(acc, x)
  }

  /** The fold is a common multiple of all the cycle lengths. */
  lemma {:induction false} LcmFoldMultiple(xs: seq<int>)
    requires forall k :: 0 <= k < |xs| ==> xs[k] > 0
    ensures forall k :: 0 <= k < |xs| ==> Divides(xs[k], LcmFold(xs))
  {
    if xs != [] {
      var init := xs[..|xs| - 1];
      var acc := LcmFold(init);
      var x := xs[|xs| - 1];
      LcmFoldMultiple(init);
      GcdSign(acc, x);
      LcmMultiple(acc, x);
      forall k | 0 <= k < |xs|
        ensures Divides(xs[k], LcmFold(xs))
      {
        if k < |init| {
          assert xs[k] == init[k];
          DividesTransitive(xs[k], acc, Lcm(acc, x));
        }
      }
    }
  }

  /** The loop of part 2 that folds `lcm` into `acc`. */
  method FoldLcm(cycles: seq<int>) returns (acc: int)
    requires forall k :: 0 <= k < |cycles| ==> cycles[k] > 0
    ensures acc == LcmFold(cycles)
  {
    acc := 1;
    for i := 0 to |cycles|
      invariant acc == LcmFold(cycles[..i])
    {
      assert cycles[..i + 1][..i] == cycles[..i];
      GcdSign(acc, cycles[i]);
      acc := Lcm(acc, cycles[i]);
    }
    assert cycles[..|cycles|] == cycles;
  }

  /** Part 2: a walk from every node ending in `A` to a node ending in `Z`, then the `lcm` of the
      step counts. The starters are the network's keys ending in `A`, in any order. */
  method Part2(instructions: seq<Instruction>, nodes: map<string, Node>, starters: seq<string>)
    returns (cycles: seq<int>, acc: int)
    requires |instructions| > 0
    requires forall s :: s in starters <==> s in nodes && |s| > 0 && s[|s| - 1] == 'A'
    requires forall k :: 0 <= k < |starters| ==>
      exists n :: n >= 1 && HitAt(instructions, nodes, starters[k], EndsWith('Z'), n)
    ensures |cycles| == |starters|
    ensures forall k :: 0 <= k < |starters| ==> FirstHit(instructions, nodes, starters[k], EndsWith('Z'), cycles[k])
    ensures forall k :: 0 <= k < |cycles| ==> cycles[k] >= 1
    ensures acc == LcmFold(cycles)
    ensures forall k :: 0 <= k < |cycles| ==> Divides(cycles[k], acc)
  {
    cycles := [];
    for i := 0 to |starters|
      invariant |cycles| == i
      invariant forall k :: 0 <= k < i ==> FirstHit(instructions, nodes, starters[k], EndsWith('Z'), cycles[k])
    {
      var steps := Walk(instructions, nodes, starters[i], EndsWith('Z'));
      cycles := cycles + [steps];
    }
    acc := FoldLcm(cycles);
    LcmFoldMultiple(cycles);
  }
}
