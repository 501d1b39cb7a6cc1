/**
 * The light grid of src/bin/06.rs: a 1000 × 1000 grid of lights, where each
 * instruction changes every light of an inclusive rectangle. Part one treats
 * a light as on or off; part two treats it as a brightness.
 */
module Lights {
  import opened Wrappers
  import opened Text

  const SIZE: nat := 1000

  datatype InstructionKind = TurnOn | TurnOff | Toggle

  datatype Instruction = Instruction(kind: InstructionKind, from: (nat, nat), to: (nat, nat))
  {
    /** Light (i, j) lies in the inclusive rectangle `from..=to`. */
    predicate Covers(i: nat, j: nat) {
      from.0 <= i <= to.0 && from.1 <= j <= to.1
    }

    /** Every light the instruction touches is on the grid; indexing off the
        grid panics. An empty rectangle touches nothing. */
    predicate InBounds() {
      (from.0 <= to.0 && from.1 <= to.1) ==> (to.0 < SIZE && to.1 < SIZE)
    }
  }

  // ---------------------------------------------------------------------
  // What one instruction does to one light.

  /** Part one: on, off, or flipped between 0 and 1. */
  function SwitchLight(kind: InstructionKind, v: nat): nat {
    match kind
    case TurnOff => 0
    case TurnOn => 1
    case Toggle => if v == 0 then 1 else 0
  }

  /** Part two: down by one but not below zero, up by one, or up by two. */
  function Brighten(kind: InstructionKind, v: nat): nat {
    match kind
    case TurnOff => if v == 0 then 0 else v - 1
    case TurnOn => v + 1
    case Toggle => v + 2
  }

  /** Light (i, j) after part one's instructions, starting from dark. */
  function LightAfter(instructions: seq<Instruction>, i: nat, j: nat): (v: nat)
    ensures v <= 1
  {
    if instructions == [] then 0
    else
      var ins := instructions[|instructions| - 1];
      var v := LightAfter(instructions[..|instructions| - 1], i, j);
      if ins.Covers(i, j) then SwitchLight(ins.kind, v) else v
  }

  /** Light (i, j) after part two's instructions, starting from zero. */
  function BrightnessAfter(instructions: seq<Instruction>, i: nat, j: nat): (v: nat)
    ensures v <= 2 * |instructions|
  {
    if instructions == [] then 0
    else
      var ins := instructions[|instructions| - 1];
      var v := BrightnessAfter(instructions[..|instructions| - 1], i, j);
      if ins.Covers(i, j) then Brighten(ins.kind, v) else v
  }

  /** On a light that is on or off, toggling twice changes nothing. */
  lemma ToggleTwice(v: nat)
    requires v <= 1
    ensures SwitchLight(Toggle, SwitchLight(Toggle, v)) == v
    ensures SwitchLight(Toggle, v) != v
  {
  }

  /** The same toggle twice at the end of part one's instructions restores every light. */
  lemma ToggleTwiceRestores(instructions: seq<Instruction>, t: Instruction, i: nat, j: nat)
    requires t.kind == Toggle
    ensures LightAfter(instructions + [t, t], i, j) == LightAfter(instructions, i, j)
  {
    var once := instructions + [t];
    assert (instructions + [t, t])[..|once|] == once;
    assert once[..|instructions|] == instructions;
  }

  /** Part two's toggle twice is four steps brighter on the lights it covers. */
  lemma ToggleTwiceBrightens(instructions: seq<Instruction>, t: Instruction, i: nat, j: nat)
    requires t.kind == Toggle
    ensures BrightnessAfter(instructions + [t, t], i, j)
      == BrightnessAfter(instructions, i, j) + (if t.Covers(i, j) then 4 else 0)
  {
    var once := instructions + [t];
    assert (instructions + [t, t])[..|once|] == once;
    assert once[..|instructions|] == instructions;
  }

  /** Lights counted over the flattened grid (row by row) from position `n`. */
  ghost function LitCountFrom(instructions: seq<Instruction>, n: nat): (c: nat)
    requires n <= SIZE * SIZE
    ensures c <= SIZE * SIZE - n
    decreases SIZE * SIZE - n
  {
    if n == SIZE * SIZE then 0
    else (if LightAfter(instructions, n / SIZE, n % SIZE) > 0 then 1 else 0) + LitCountFrom(instructions, n + 1)
  }

  /** Brightness summed over the flattened grid from position `n`. */
  ghost function BrightnessSumFrom(instructions: seq<Instruction>, n: nat): nat
    requires n <= SIZE * SIZE
    decreases SIZE * SIZE - n
  {
    if n == SIZE * SIZE then 0
    else BrightnessAfter(instructions, n / SIZE, n % SIZE) + BrightnessSumFrom(instructions, n + 1)
  }

  // ---------------------------------------------------------------------
  // The grid.

  /** `Lights`: the grid, updated in place light by light. */
  class Lights {
    const lights: array2<nat>

    ghost predicate Valid()
      reads this
    {
      lights.Length0 == SIZE && lights.Length1 == SIZE
    }

    /** `Lights::new`: every light at zero. */
    constructor New()
      ensures Valid() && fresh(lights)
      ensures forall i, j :: 0 <= i < SIZE && 0 <= j < SIZE ==> lights[i, j] == 0
    {
      lights := new nat[SIZE, SIZE]((i, j) => 0);
    }

    /** `apply_instruction_p1`: the covered lights switch, the others keep their value. */
    method ApplyInstructionP1(instruction: Instruction)
      requires Valid() && instruction.InBounds()
      modifies lights
      ensures forall a, b :: 0 <= a < SIZE && 0 <= b < SIZE ==>
        lights[a, b] == if instruction.Covers(a, b) then SwitchLight(instruction.kind, old(lights[a, b])) else old(lights[a, b])
      ensures forall done :: old(ShowsLit(done)) ==> ShowsLit(done + [instruction])
    {
      var i := instruction.from.0;
      while i <= instruction.to.0
        invariant instruction.from.0 <= i
        invariant forall a, b :: 0 <= a < SIZE && 0 <= b < SIZE ==>
          lights[a, b] == if instruction.Covers(a, b) && a < i then SwitchLight(instruction.kind, old(lights[a, b])) else old(lights[a, b])
        decreases instruction.to.0 + 1 - i
      {
        var j := instruction.from.1;
        while j <= instruction.to.1
          invariant instruction.from.1 <= j
          invariant forall a, b :: 0 <= a < SIZE && 0 <= b < SIZE ==>
            lights[a, b] == if instruction.Covers(a, b) && (a < i || (a == i && b < j)) then SwitchLight(instruction.kind, old(lights[a, b])) else old(lights[a, b])
          decreases instruction.to.1 + 1 - j
        {
          match instruction.kind {
            case TurnOff => lights[i, j] := 0;
            case TurnOn => lights[i, j] := 1;
            case Toggle => lights[i, j] := if lights[i, j] == 0 then 1 else 0;
          }
          j := j + 1;
        }
        i := i + 1;
      }
      forall done | old(ShowsLit(done))
        ensures ShowsLit(done + [instruction])
      {
        var all := done + [instruction];
        assert all[..|all| - 1] == done && all[|all| - 1] == instruction;
      }
    }

    /** `apply_instruction_p2`: the covered lights change brightness, the others keep it. */
    method ApplyInstructionP2(instruction: Instruction)
      requires Valid() && instruction.InBounds()
      modifies lights
      ensures forall a, b :: 0 <= a < SIZE && 0 <= b < SIZE ==>
        lights[a, b] == if instruction.Covers(a, b) then Brighten(instruction.kind, old(lights[a, b])) else old(lights[a, b])
      ensures forall done :: old(ShowsBrightness(done)) ==> ShowsBrightness(done + [instruction])
    {
      var i := instruction.from.0;
      while i <= instruction.to.0
        invariant instruction.from.0 <= i
        invariant forall a, b :: 0 <= a < SIZE && 0 <= b < SIZE ==>
          lights[a, b] == if instruction.Covers(a, b) && a < i then Brighten(instruction.kind, old(lights[a, b])) else old(lights[a, b])
        decreases instruction.to.0 + 1 - i
      {
        var j := instruction.from.1;
        while j <= instruction.to.1
          invariant instruction.from.1 <= j
          invariant forall a, b :: 0 <= a < SIZE && 0 <= b < SIZE ==>
            lights[a, b] == if instruction.Covers(a, b) && (a < i || (a == i && b < j)) then Brighten(instruction.kind, old(lights[a, b])) else old(lights[a, b])
          decreases instruction.to.1 + 1 - j
        {
          match instruction.kind {
            case TurnOff => lights[i, j] := if lights[i, j] == 0 then 0 else lights[i, j] - 1;
            case TurnOn => lights[i, j] := lights[i, j] + 1;
            case Toggle => lights[i, j] := lights[i, j] + 2;
          }
          j := j + 1;
        }
        i := i + 1;
      }
      forall done | old(ShowsBrightness(done))
        ensures ShowsBrightness(done + [instruction])
      {
        var all := done + [instruction];
        assert all[..|all| - 1] == done && all[|all| - 1] == instruction;
      }
    }

    /** `count_on` from position `n` of the flattened grid. */
    function CountOnFrom(n: nat): (c: nat)
      reads this, lights
      requires Valid() && n <= SIZE * SIZE
      ensures c <= SIZE * SIZE - n
      decreases SIZE * SIZE - n
    {
      if n == SIZE * SIZE then 0
      else (if lights[n / SIZE, n % SIZE] > 0 then 1 else 0) + CountOnFrom(n + 1)
    }

    /** `count_on`: the lights above zero. */
    function CountOn(): (c: nat)
      reads this, lights
      requires Valid()
      ensures c <= SIZE * SIZE
    {
      CountOnFrom(0)
    }

    /** `total_brightness` from position `n` of the flattened grid. */
    function BrightnessFrom(n: nat): nat
      reads this, lights
      requires Valid() && n <= SIZE * SIZE
      decreases SIZE * SIZE - n
    {
      if n == SIZE * SIZE then 0
      else lights[n / SIZE, n % SIZE] + BrightnessFrom(n + 1)
    }

    /** `total_brightness`: the sum of all lights. Each light that is on
        adds at least one, so it is never below `count_on`, and on a grid of
        zeros and ones the two agree. */
    function TotalBrightness(): (b: nat)
      reads this, lights
      requires Valid()
      ensures CountOn() <= b
      ensures IsBinary() ==> b == CountOn()
    {
      CountAndBrightness();
      BrightnessFrom(0)
    }

    ghost predicate IsBinary()
      reads this, lights
      requires Valid()
    {
      forall i, j :: 0 <= i < SIZE && 0 <= j < SIZE ==> lights[i, j] <= 1
    }

    /** Each light that is on adds at least one to the total brightness. */
    lemma {:induction false} CountOnAtMostBrightness(n: nat)
      requires Valid() && n <= SIZE * SIZE
      ensures CountOnFrom(n) <= BrightnessFrom(n)
      decreases SIZE * SIZE - n
    {
      if n < SIZE * SIZE {
        CountOnAtMostBrightness(n + 1);
      }
    }

    /** On a grid of zeros and ones the count and the brightness agree. */
    lemma {:induction false} BinaryCountIsBrightness(n: nat)
      requires Valid() && n <= SIZE * SIZE && IsBinary()
      ensures CountOnFrom(n) == BrightnessFrom(n)
      decreases SIZE * SIZE - n
    {
      if n < SIZE * SIZE {
        BinaryCountIsBrightness(n + 1);
      }
    }

    /** The count and the sum over the whole grid. */
    lemma CountAndBrightness()
      requires Valid()
      ensures CountOnFrom(0) <= BrightnessFrom(0)
      ensures IsBinary() ==> CountOnFrom(0) == BrightnessFrom(0)
    {
      CountOnAtMostBrightness(0);
      if IsBinary() {
        BinaryCountIsBrightness(0);
      }
    }

    /** The grid holds every light as part one's instructions leave it. */
    ghost predicate ShowsLit(instructions: seq<Instruction>)
      reads this, lights
    {
      Valid() && forall i, j :: 0 <= i < SIZE && 0 <= j < SIZE ==> lights[i, j] == LightAfter(instructions, i, j)
    }

    /** The grid holds every brightness as part two's instructions leave it. */
    ghost predicate ShowsBrightness(instructions: seq<Instruction>)
      reads this, lights
    {
      Valid() && forall i, j :: 0 <= i < SIZE && 0 <= j < SIZE ==> lights[i, j] == BrightnessAfter(instructions, i, j)
    }

    lemma {:induction false} CountOnMatches(instructions: seq<Instruction>, n: nat)
      requires ShowsLit(instructions) && n <= SIZE * SIZE
      ensures CountOnFrom(n) == LitCountFrom(instructions, n)
      decreases SIZE * SIZE - n
    {
      if n < SIZE * SIZE {
        CountOnMatches(instructions, n + 1);
      }
    }

    /** A grid holding part two's brightness sums what the specification sums. */
    lemma {:induction false} BrightnessMatches(instructions: seq<Instruction>, n: nat)
      requires ShowsBrightness(instructions) && n <= SIZE * SIZE
      ensures BrightnessFrom(n) == BrightnessSumFrom(instructions, n)
      decreases SIZE * SIZE - n
    {
      if n < SIZE * SIZE {
        BrightnessMatches(instructions, n + 1);
      }
    }
  }

  // ---------------------------------------------------------------------
  // Parsing: `Instruction::from`. A `None` result stands for an `unwrap`
  // that panics.

  /** The words an instruction starts with, with the space after them. */
  function KindPrefix(kind: InstructionKind): string {
    match kind
    case TurnOn => "turn on "
    case TurnOff => "turn off "
    case Toggle => "toggle "
  }

  /** Which instruction a line gives: "turn on", else "turn off", else a toggle. */
  function KindOf(value: string): InstructionKind {
    if StartsWith(value, "turn on") then TurnOn
    else if StartsWith(value, "turn off") then TurnOff
    else Toggle
  }

  /** A corner "x,y" with both coordinates parsed as `usize`. */
  function ParseCorner(part: string): (r: Option<(nat, nat)>)
    ensures r.Some? ==> r.value.0 < USIZE_BOUND && r.value.1 < USIZE_BOUND
  {
    match SplitOnce(part, ",")
    case None => None
    case Some((x, y)) =>
      match (ParseUnsigned(x, USIZE_BOUND), ParseUnsigned(y, USIZE_BOUND))
      case (Some(a), Some(b)) => Some((a, b))
      case _ => None
  }

  /** `Instruction::from`: the kind, then the corners on either side of the
      first " through " (any later " through " and what follows it are ignored). */
  function ParseInstruction(value: string): (r: Option<Instruction>)
    ensures r.Some? ==> r.value.kind == KindOf(value) && StartsWith(value, KindPrefix(r.value.kind))
    ensures r.Some? ==> Contains(value, " through ")
  {
    var kind := KindOf(value);
    match StripPrefix(value, KindPrefix(kind))
    case None => None
    case Some(rangePart) =>
      var pieces := Split(rangePart, " through ");
      if |pieces| < 2 then None
      else
        match (ParseCorner(pieces[0]), ParseCorner(pieces[1]))
        case (Some(from), Some(to)) =>
          assert Contains(value, " through ") by {
            FoundInSuffix(value, KindPrefix(kind), rangePart, " through ");
          }
          Some(Instruction(kind, from, to))
        case _ => None
  }

  lemma FoundInSuffix(s: string, p: string, rest: string, q: string)
    requires s == p + rest && Contains(rest, q)
    ensures Contains(s, q)
  {
    ContainsIff(rest, q);
    var k: nat :| OccursAt(rest, q, k);
    assert s[|p| + k..|p| + k + |q|] == rest[k..k + |q|];
    assert OccursAt(s, q, |p| + k);
    ContainsIff(s, q);
  }

  /** "turn on" followed by anything but a space: `strip_prefix("turn on ")` panics. */
  lemma TurnOnWithoutSpace(value: string)
    requires StartsWith(value, "turn on") && !StartsWith(value, "turn on ")
    ensures ParseInstruction(value) == None
  {
  }

  /** A line that is not an instruction (no "turn on", "turn off" or "toggle ") does not parse. */
  lemma UnknownWordFails(value: string)
    requires !StartsWith(value, "turn on") && !StartsWith(value, "turn off") && !StartsWith(value, "toggle ")
    ensures ParseInstruction(value) == None
  {
  }

  // ---------------------------------------------------------------------
  // Printing, and the round trip through the parser.

  function ShowCorner(p: (nat, nat)): string {
    DecimalString(p.0) + "," + DecimalString(p.1)
  }

  /** The instruction as the puzzle writes it. */
  function ShowInstruction(ins: Instruction): string {
    KindPrefix(ins.kind) + ShowCorner(ins.from) + " through " + ShowCorner(ins.to)
  }

  predicate Printable(ins: Instruction) {
    ins.from.0 < USIZE_BOUND && ins.from.1 < USIZE_BOUND && ins.to.0 < USIZE_BOUND && ins.to.1 < USIZE_BOUND
  }

  lemma ParseCornerRoundTrip(p: (nat, nat))
    requires p.0 < USIZE_BOUND && p.1 < USIZE_BOUND
    ensures ParseCorner(ShowCorner(p)) == Some(p)
    ensures forall k :: 0 <= k < |ShowCorner(p)| ==> ShowCorner(p)[k] != ' '
  {
    var x, y := DecimalString(p.0), DecimalString(p.1);
    SplitOnceAfter(x, ",", y);
    DecimalStringParses(p.0, USIZE_BOUND);
    DecimalStringParses(p.1, USIZE_BOUND);
    assert ShowCorner(p) == x + "," + y;
  }

  lemma KindRoundTrip(kind: InstructionKind, rest: string)
    ensures KindOf(KindPrefix(kind) + rest) == kind
    ensures StripPrefix(KindPrefix(kind) + rest, KindPrefix(kind)) == Some(rest)
  {
    var s := KindPrefix(kind) + rest;
    assert s[..|KindPrefix(kind)|] == KindPrefix(kind);
    match kind
    case TurnOn =>
      assert s[..7] == "turn on";
    case TurnOff =>
      assert s[6] == 'f';
      assert s[..8] == "turn off";
    case Toggle =>
      assert s[1] == 'o';
  }

  /** Printing an instruction and parsing it back gives the instruction. */
  lemma ParseInstructionRoundTrip(ins: Instruction)
    requires Printable(ins)
    ensures ParseInstruction(ShowInstruction(ins)) == Some(ins)
  {
    var from, to := ShowCorner(ins.from), ShowCorner(ins.to);
    var rangePart := from + " through " + to;
    assert ShowInstruction(ins) == KindPrefix(ins.kind) + rangePart;
    KindRoundTrip(ins.kind, rangePart);
    ParseCornerRoundTrip(ins.from);
    ParseCornerRoundTrip(ins.to);
    SplitTwo(from, " through ", to);
  }

  // ---------------------------------------------------------------------
  // The puzzle answers.

  /** Every line parses to an instruction that stays on the grid. */
  predicate AllUsable(lines: seq<string>) {
    forall k :: 0 <= k < |lines| ==> ParseInstruction(lines[k]).Some? && ParseInstruction(lines[k]).value.InBounds()
  }

  function ParseAll(lines: seq<string>): (r: seq<Instruction>)
    requires AllUsable(lines)
    ensures |r| == |lines|
    ensures forall k :: 0 <= k < |lines| ==> r[k] == ParseInstruction(lines[k]).value && r[k].InBounds()
  {
    seq(|lines|, k requires 0 <= k < |lines| => ParseInstruction(lines[k]).value)
  }

  lemma WholePrefix<T>(s: seq<T>)
    ensures s[..|s|] == s
  {
  }

  /** The `for_each` of `part_one`: a fresh grid, each instruction applied
      with `apply_instruction_p1` in order, then `count_on`. */
  method CountOnAfter(instructions: seq<Instruction>) returns (count: nat)
    requires forall k :: 0 <= k < |instructions| ==> instructions[k].InBounds()
    ensures count == LitCountFrom(instructions, 0)
  {
    var grid := new Lights.New();
    var k := 0;
    while k < |instructions|
      invariant 0 <= k <= |instructions| && grid.ShowsLit(instructions[..k])
    {
      assert instructions[..k + 1] == instructions[..k] + [instructions[k]];
      grid.ApplyInstructionP1(instructions[k]);
      k := k + 1;
    }
    WholePrefix(instructions);
    grid.CountOnMatches(instructions, 0);
    count := grid.CountOn();
  }

  /** The `for_each` of `part_two`, with `apply_instruction_p2` and `total_brightness`. */
  method TotalBrightnessAfter(instructions: seq<Instruction>) returns (total: nat)
    requires forall k :: 0 <= k < |instructions| ==> instructions[k].InBounds()
    ensures total == BrightnessSumFrom(instructions, 0)
  {
    var grid := new Lights.New();
    var k := 0;
    while k < |instructions|
      invariant 0 <= k <= |instructions| && grid.ShowsBrightness(instructions[..k])
    {
      assert instructions[..k + 1] == instructions[..k] + [instructions[k]];
      grid.ApplyInstructionP2(instructions[k]);
      k := k + 1;
    }
    WholePrefix(instructions);
    grid.BrightnessMatches(instructions, 0);
    total := grid.TotalBrightness();
  }

  /** `part_one`: the lights on after every line, applied in order. */
  method PartOne(input: string) returns (r: Option<nat>)
    requires AllUsable(Lines(input))
    ensures r == Some(LitCountFrom(ParseAll(Lines(input)), 0))
  {
    var count := CountOnAfter(ParseAll(Lines(input)));
    r := Some(count);
  }

  /** `part_two`: the total brightness after every line, applied in order. */
  method PartTwo(input: string) returns (r: Option<nat>)
    requires AllUsable(Lines(input))
    ensures r == Some(BrightnessSumFrom(ParseAll(Lines(input)), 0))
  {
    var total := TotalBrightnessAfter(ParseAll(Lines(input)));
    r := Some(total);
  }
}
