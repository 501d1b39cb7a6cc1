/**
 * The logic-gate network of src/bin/07.rs.
 *
 * A board maps each wire name to the component that drives it. A wire's
 * signal is computed on demand by a recursive lookup that memoises every
 * wire it resolves in a cache mapping wire names to `Option<bv16>`. A
 * missing operand makes its gate yield 0; only a wire the board does not
 * define at all yields `None`, and that `None` is cached like any other
 * result. There is no cycle guard, so every operation that evaluates
 * requires a rank map under which each wire ranks strictly above every
 * wire it reads (`Ranked`).
 */
module Circuit {
  import opened Wrappers
  import opened Text

  type Wire = string

  /** `ComponentInput`: a literal signal or a reference to another wire. */
  datatype ComponentInput = Signal(value: bv16) | Component(wire: Wire)

  /** `CircuitComponent`: the gate that drives one wire. */
  datatype CircuitComponent =
    | Direct(input: ComponentInput)
    | AndGate(left: ComponentInput, right: ComponentInput)
    | OrGate(left: ComponentInput, right: ComponentInput)
    | LeftShifter(input: ComponentInput, amount: nat)
    | RightShifter(input: ComponentInput, amount: nat)
    | Not(input: ComponentInput)
  {
    predicate Binary() {
      AndGate? || OrGate?
    }

    /** The operands, in the order `resolve` evaluates them. */
    function Inputs(): seq<ComponentInput> {
      if Binary() then [left, right] else [input]
    }

    /** The wires this component reads. */
    function Refs(): set<Wire> {
      set i | i in Inputs() && i.Component? :: i.wire
    }

    /** A shift by 16 or more overflows (a panic in a debug build). */
    predicate ShiftInRange() {
      (LeftShifter? || RightShifter?) ==> amount < 16
    }

    /**
     * `CircuitComponent::resolve`: evaluate the operands left to right,
     * threading the cache, and apply the gate; a missing operand gives 0.
     */
    method Resolve(board: CircuitBoard, ghost rank: map<Wire, nat>, cache: ResCache)
      returns (r: bv16, cache': ResCache)
      requires WellFormed(board, rank) && ShiftInRange()
      requires CacheSound(board, rank, cache) && Closed(board, rank, cache)
      ensures r == GateOutput(board, rank, this)
      ensures Extends(cache, cache')
      ensures cache'.Keys == cache.Keys + ComponentDeps(board, rank, this)
      ensures CacheSound(board, rank, cache') && Closed(board, rank, cache')
      decreases ComponentHeight(board, rank, this), 3
    {
      if Binary() {
        var l, rv;
        l, rv, cache' := GetOperandValues(left, right, board, rank, cache);
        r := if l.Some? && rv.Some? then (if AndGate? then BitAnd(l.value, rv.value) else BitOr(l.value, rv.value)) else 0;
      } else {
        var v;
        v, cache' := GetComponentInputValue(input, board, rank, cache);
        r := match this
          case Direct(_) => v.GetOr(0)
          case LeftShifter(_, amount) => if v.Some? then ShiftLeft(v.value, amount) else 0
          case RightShifter(_, amount) => if v.Some? then ShiftRight(v.value, amount) else 0
          case Not(_) => if v.Some? then BitNot(v.value) else 0;
      }
    }
  }

  /** `ResCache`: what has been resolved so far, `None` for an undefined wire. */
  type ResCache = map<Wire, Option<bv16>>

  /** `CircuitBoard`: the components, keyed by the wire they drive. */
  datatype CircuitBoard = CircuitBoard(components: map<Wire, CircuitComponent>)
  {
    /**
     * `CircuitBoard::get_signal`: a cache hit returns the stored value and
     * leaves the cache alone; a miss resolves the wire's component (or
     * finds none) and records exactly that result for the wire.
     */
    method GetSignal(wireId: Wire, ghost rank: map<Wire, nat>, cache: ResCache)
      returns (r: Option<bv16>, cache': ResCache)
      requires WellFormed(this, rank)
      requires CacheSound(this, rank, cache) && Closed(this, rank, cache)
      ensures r == SignalOf(this, rank, wireId)
      ensures wireId in cache ==> r == cache[wireId] && cache' == cache
      ensures wireId in cache' && cache'[wireId] == r
      ensures Extends(cache, cache')
      ensures cache'.Keys == cache.Keys + Deps(this, rank, wireId)
      ensures CacheSound(this, rank, cache') && Closed(this, rank, cache')
      decreases Height(this, rank, wireId), 0
    {
      if wireId in cache {
        r, cache' := cache[wireId], cache;
      } else {
        var res: Option<bv16> := None;
        cache' := cache;
        if wireId in components {
          var v;
          ComponentBelowWire(this, rank, wireId);
          v, cache' := components[wireId].Resolve(this, rank, cache);
          res := Some(v);
          if wireId in cache' {
            ComponentDepsBelow(this, rank, components[wireId], wireId);
          }
        }
        cache' := cache'[wireId := res];
        r := res;
      }
    }
  }

  /** `get_component_input_value`: a literal is its own value and touches no
      cache entry; a reference is looked up with `GetSignal`. */
  method GetComponentInputValue(value: ComponentInput, board: CircuitBoard, ghost rank: map<Wire, nat>, cache: ResCache)
    returns (r: Option<bv16>, cache': ResCache)
    requires WellFormed(board, rank)
    requires CacheSound(board, rank, cache) && Closed(board, rank, cache)
    ensures r == InputSignal(board, rank, value)
    ensures value.Signal? ==> r == Some(value.value) && cache' == cache
    ensures Extends(cache, cache')
    ensures cache'.Keys == cache.Keys + InputDeps(board, rank, value)
    ensures CacheSound(board, rank, cache') && Closed(board, rank, cache')
    decreases InputHeight(board, rank, value), 1
  {
    match value
    case Signal(v) =>
      r, cache' := Some(v), cache;
    case Component(key) =>
      r, cache' := board.GetSignal(key, rank, cache);
  }

  /** The two operands of a binary gate, left first, the cache threaded through both. */
  method GetOperandValues(inputL: ComponentInput, inputR: ComponentInput, board: CircuitBoard, ghost rank: map<Wire, nat>, cache: ResCache)
    returns (l: Option<bv16>, r: Option<bv16>, cache': ResCache)
    requires WellFormed(board, rank)
    requires CacheSound(board, rank, cache) && Closed(board, rank, cache)
    ensures l == InputSignal(board, rank, inputL) && r == InputSignal(board, rank, inputR)
    ensures Extends(cache, cache')
    ensures cache'.Keys == cache.Keys + InputDeps(board, rank, inputL) + InputDeps(board, rank, inputR)
    ensures CacheSound(board, rank, cache') && Closed(board, rank, cache')
    decreases if InputHeight(board, rank, inputL) < InputHeight(board, rank, inputR)
              then InputHeight(board, rank, inputR) else InputHeight(board, rank, inputL), 2
  {
    var c1;
    l, c1 := GetComponentInputValue(inputL, board, rank, cache);
    r, cache' := GetComponentInputValue(inputR, board, rank, c1);
  }

  // ---------------------------------------------------------------------
  // Acyclicity, and the plain (uncached) recursive semantics.

  /** Every wire a defined wire reads, if it is itself defined, ranks lower. */
  ghost predicate Ranked(board: CircuitBoard, rank: map<Wire, nat>) {
    && board.components.Keys <= rank.Keys
    && forall w, v :: w in board.components && v in board.components[w].Refs() && v in board.components ==> rank[v] < rank[w]
  }

  ghost predicate WellFormed(board: CircuitBoard, rank: map<Wire, nat>) {
    && Ranked(board, rank)
    && forall w :: w in board.components ==> board.components[w].ShiftInRange()
  }

  function Height(board: CircuitBoard, rank: map<Wire, nat>, w: Wire): nat
    requires board.components.Keys <= rank.Keys
  {
    if w in board.components then rank[w] + 1 else 0
  }

  function InputHeight(board: CircuitBoard, rank: map<Wire, nat>, i: ComponentInput): nat
    requires board.components.Keys <= rank.Keys
  {
    match i
    case Signal(_) => 0
    case Component(w) => Height(board, rank, w)
  }

  function ComponentHeight(board: CircuitBoard, rank: map<Wire, nat>, c: CircuitComponent): nat
    requires board.components.Keys <= rank.Keys
  {
    if c.Binary() then
      var l, r := InputHeight(board, rank, c.left), InputHeight(board, rank, c.right);
      if l < r then r else l
    else InputHeight(board, rank, c.input)
  }

  /** The component driving a wire sits strictly below the wire. */
  lemma ComponentBelowWire(board: CircuitBoard, rank: map<Wire, nat>, w: Wire)
    requires Ranked(board, rank) && w in board.components
    ensures ComponentHeight(board, rank, board.components[w]) < Height(board, rank, w)
  {
    var c := board.components[w];
    forall i | i in c.Inputs() && i.Component? && i.wire in board.components
      ensures rank[i.wire] < rank[w]
    {
      assert i.wire in c.Refs();
    }
    if c.Binary() {
      assert c.left in c.Inputs() && c.right in c.Inputs();
    } else {
      assert c.input in c.Inputs();
    }
  }

  /** The signal on a wire: `None` exactly when no component drives it. */
  function SignalOf(board: CircuitBoard, rank: map<Wire, nat>, w: Wire): Option<bv16>
    requires WellFormed(board, rank)
    decreases Height(board, rank, w), 0
  {
    if w in board.components then
      ComponentBelowWire(board, rank, w);
      Some(GateOutput(board, rank, board.components[w]))
    else None
  }

  function InputSignal(board: CircuitBoard, rank: map<Wire, nat>, i: ComponentInput): Option<bv16>
    requires WellFormed(board, rank)
    decreases InputHeight(board, rank, i), 1
  {
    match i
    case Signal(v) => Some(v)
    case Component(w) => SignalOf(board, rank, w)
  }

  /** The output of a gate; any missing operand makes it 0. */
  function GateOutput(board: CircuitBoard, rank: map<Wire, nat>, c: CircuitComponent): bv16
    requires WellFormed(board, rank) && c.ShiftInRange()
    decreases ComponentHeight(board, rank, c), 2
  {
    match c
    case Direct(i) => InputSignal(board, rank, i).GetOr(0)
    case AndGate(l, r) =>
      var x, y := InputSignal(board, rank, l), InputSignal(board, rank, r);
      if x.Some? && y.Some? then BitAnd(x.value, y.value) else 0
    case OrGate(l, r) =>
      var x, y := InputSignal(board, rank, l), InputSignal(board, rank, r);
      if x.Some? && y.Some? then BitOr(x.value, y.value) else 0
    case LeftShifter(i, amount) =>
      var x := InputSignal(board, rank, i);
      if x.Some? then ShiftLeft(x.value, amount) else 0
    case RightShifter(i, amount) =>
      var x := InputSignal(board, rank, i);
      if x.Some? then ShiftRight(x.value, amount) else 0
    case Not(i) =>
      var x := InputSignal(board, rank, i);
      if x.Some? then BitNot(x.value) else 0
  }

  // The five bitwise operations of the gates, on 16-bit values.

  /** `u16 & u16` */
  function BitAnd(x: bv16, y: bv16): bv16 {
    x & y
  }

  /** `u16 | u16` */
  function BitOr(x: bv16, y: bv16): bv16 {
    x | y
  }

  /** `!u16`: every bit flipped. */
  function BitNot(x: bv16): bv16 {
    !x
  }

  /** `u16 << k`: the bits shifted out above bit 15 are lost. */
  function ShiftLeft(x: bv16, k: nat): bv16
    requires k < 16
  {
    x << k
  }

  /** `u16 >> k`: zeros are shifted in from the top. */
  function ShiftRight(x: bv16, k: nat): bv16
    requires k < 16
  {
    x >> k
  }

  // ---------------------------------------------------------------------
  // The cache and the wires a lookup visits.

  /** The wires that resolving `w` visits: `w` and everything it reads, transitively. */
  ghost function Deps(board: CircuitBoard, rank: map<Wire, nat>, w: Wire): set<Wire>
    requires WellFormed(board, rank)
    decreases Height(board, rank, w), 0
  {
    if w in board.components then
      ComponentBelowWire(board, rank, w);
      {w} + ComponentDeps(board, rank, board.components[w])
    else {w}
  }

  ghost function InputDeps(board: CircuitBoard, rank: map<Wire, nat>, i: ComponentInput): set<Wire>
    requires WellFormed(board, rank)
    decreases InputHeight(board, rank, i), 1
  {
    match i
    case Signal(_) => {}
    case Component(w) => Deps(board, rank, w)
  }

  ghost function ComponentDeps(board: CircuitBoard, rank: map<Wire, nat>, c: CircuitComponent): set<Wire>
    requires WellFormed(board, rank)
    decreases ComponentHeight(board, rank, c), 2
  {
    if c.Binary() then InputDeps(board, rank, c.left) + InputDeps(board, rank, c.right)
    else InputDeps(board, rank, c.input)
  }

  /** Every cached entry is the wire's true signal. */
  ghost predicate CacheSound(board: CircuitBoard, rank: map<Wire, nat>, cache: ResCache)
    requires WellFormed(board, rank)
  {
    forall w :: w in cache ==> cache[w] == SignalOf(board, rank, w)
  }

  /** A cached wire's dependencies are cached too (true of every cache that
      `GetSignal` builds from an empty one). */
  ghost predicate Closed(board: CircuitBoard, rank: map<Wire, nat>, cache: ResCache)
    requires WellFormed(board, rank)
  {
    forall w :: w in cache ==> Deps(board, rank, w) <= cache.Keys
  }

  /** Entries already in `cache` are still there, unaltered, in `cache'`. */
  ghost predicate Extends(cache: ResCache, cache': ResCache) {
    forall w :: w in cache ==> w in cache' && cache'[w] == cache[w]
  }

  lemma {:induction false} DepsBelow(board: CircuitBoard, rank: map<Wire, nat>, w: Wire, u: Wire)
    requires WellFormed(board, rank) && u in Deps(board, rank, w)
    ensures Height(board, rank, u) <= Height(board, rank, w)
    decreases Height(board, rank, w), 0
  {
    if u != w {
      ComponentBelowWire(board, rank, w);
      ComponentDepsBelow(board, rank, board.components[w], u);
    }
  }

  lemma {:induction false} ComponentDepsBelow(board: CircuitBoard, rank: map<Wire, nat>, c: CircuitComponent, u: Wire)
    requires WellFormed(board, rank) && u in ComponentDeps(board, rank, c)
    ensures Height(board, rank, u) <= ComponentHeight(board, rank, c)
    decreases ComponentHeight(board, rank, c), 1
  {
    var i := if c.Binary() && u !in InputDeps(board, rank, c.left) then c.right
             else if c.Binary() then c.left else c.input;
    assert u in InputDeps(board, rank, i);
    DepsBelow(board, rank, i.wire, u);
  }

  // ---------------------------------------------------------------------
  // What the semantics says about single wires and gates.

  /** A wire's signal is `None` exactly when the board does not define it. */
  lemma OnlyUndefinedWireIsNone(board: CircuitBoard, rank: map<Wire, nat>, w: Wire)
    requires WellFormed(board, rank)
    ensures SignalOf(board, rank, w).None? <==> w !in board.components
  {
  }

  /** A gate with an operand wire that the board does not define outputs 0. */
  lemma MissingOperandYieldsZero(board: CircuitBoard, rank: map<Wire, nat>, c: CircuitComponent, w: Wire)
    requires WellFormed(board, rank) && c.ShiftInRange()
    requires Component(w) in c.Inputs() && w !in board.components
    ensures GateOutput(board, rank, c) == 0
  {
    assert InputSignal(board, rank, Component(w)) == None;
  }

  /** NOT is the complement within 16 bits, and undoes itself. */
  lemma BitNotComplement(x: bv16)
    ensures BitNot(x) == 0xFFFF - x
    ensures BitNot(BitNot(x)) == x
  {
  }

  /** AND keeps only bits of both operands, OR keeps bits of either. */
  lemma AndOrBounds(x: bv16, y: bv16)
    ensures BitAnd(x, y) <= x && BitAnd(x, y) <= y
    ensures x <= BitOr(x, y) && y <= BitOr(x, y)
  {
  }

  /** LSHIFT is multiplication by a power of two, modulo 2^16. */
  lemma ShiftLeftWraps(x: bv16, k: nat)
    requires k < 16
    ensures ShiftLeft(x, k) == x * ((1 as bv16) << k)
  {
  }

  /** The top bits are lost, not carried. */
  lemma ShiftLeftTruncates()
    ensures ShiftLeft(0x8000, 1) == 0
    ensures ShiftLeft(0xFFFF, 4) == 0xFFF0
    ensures ShiftRight(0x0001, 1) == 0
  {
  }

  /** The signal does not depend on which ranking witnesses acyclicity. */
  lemma {:induction false} RankIndependent(board: CircuitBoard, r1: map<Wire, nat>, r2: map<Wire, nat>, w: Wire)
    requires WellFormed(board, r1) && WellFormed(board, r2)
    ensures SignalOf(board, r1, w) == SignalOf(board, r2, w)
    decreases Height(board, r1, w)
  {
    if w in board.components {
      var c := board.components[w];
      forall i | i in c.Inputs()
        ensures InputSignal(board, r1, i) == InputSignal(board, r2, i)
      {
        if i.Component? {
          assert i.wire in c.Refs();
          RankIndependent(board, r1, r2, i.wire);
        }
      }
      if c.Binary() {
        assert c.left in c.Inputs() && c.right in c.Inputs();
      } else {
        assert c.input in c.Inputs();
      }
    }
  }

  // ---------------------------------------------------------------------
  // Reading the instructions.

  /** `parse_source`: a `u16` literal, or else the name of a wire. */
  function ParseSource(sourceStr: string): (r: ComponentInput)
    ensures r.Signal? <==> ParseUnsigned(sourceStr, U16_BOUND).Some?
    ensures r.Component? ==> r.wire == sourceStr
  {
    match ParseUnsigned(sourceStr, U16_BOUND)
    case Some(n) => Signal(n as bv16)
    case None => Component(sourceStr)
  }

  /** The texts `parse_component` accepts without panicking: a shift amount
      must parse as a `usize`, and a "NOT " must open the text. */
  predicate ComponentParsable(componentStr: string) {
    if Contains(componentStr, " AND ") || Contains(componentStr, " OR ") then true
    else if Contains(componentStr, " LSHIFT ") then
      ParseUnsigned(SplitOnce(componentStr, " LSHIFT ").value.1, USIZE_BOUND).Some?
    else if Contains(componentStr, " RSHIFT ") then
      ParseUnsigned(SplitOnce(componentStr, " RSHIFT ").value.1, USIZE_BOUND).Some?
    else if Contains(componentStr, "NOT ") then StartsWith(componentStr, "NOT ")
    else true
  }

  /**
   * `parse_component`: the first of " AND ", " OR ", " LSHIFT ", " RSHIFT "
   * and "NOT " that the text contains decides the gate; a text with none of
   * them is a direct connection.
   */
  function ParseComponent(componentStr: string): (r: CircuitComponent)
    requires ComponentParsable(componentStr)
    ensures r.AndGate? <==> Contains(componentStr, " AND ")
    ensures r.OrGate? <==> !Contains(componentStr, " AND ") && Contains(componentStr, " OR ")
    ensures r.LeftShifter? <==>
      !Contains(componentStr, " AND ") && !Contains(componentStr, " OR ") && Contains(componentStr, " LSHIFT ")
    ensures r.RightShifter? <==>
      !Contains(componentStr, " AND ") && !Contains(componentStr, " OR ") && !Contains(componentStr, " LSHIFT ")
      && Contains(componentStr, " RSHIFT ")
    ensures r.Not? <==>
      !Contains(componentStr, " AND ") && !Contains(componentStr, " OR ") && !Contains(componentStr, " LSHIFT ")
      && !Contains(componentStr, " RSHIFT ") && Contains(componentStr, "NOT ")
    ensures r.Direct? ==> r.input == ParseSource(componentStr)
    ensures (r.LeftShifter? || r.RightShifter?) ==> r.amount < USIZE_BOUND
  {
    if Contains(componentStr, " AND ") then
      var (l, rt) := SplitOnce(componentStr, " AND ").value;
      AndGate(ParseSource(l), ParseSource(rt))
    else if Contains(componentStr, " OR ") then
      var (l, rt) := SplitOnce(componentStr, " OR ").value;
      OrGate(ParseSource(l), ParseSource(rt))
    else if Contains(componentStr, " LSHIFT ") then
      var (i, amountStr) := SplitOnce(componentStr, " LSHIFT ").value;
      LeftShifter(ParseSource(i), ParseUnsigned(amountStr, USIZE_BOUND).value)
    else if Contains(componentStr, " RSHIFT ") then
      var (i, amountStr) := SplitOnce(componentStr, " RSHIFT ").value;
      RightShifter(ParseSource(i), ParseUnsigned(amountStr, USIZE_BOUND).value)
    else if Contains(componentStr, "NOT ") then
      Not(ParseSource(StripPrefix(componentStr, "NOT ").value))
    else Direct(ParseSource(componentStr))
  }

  /** The lines `parse_instruction` accepts: a " -> " and a parsable left side. */
  predicate InstructionParsable(instruction: string) {
    && Contains(instruction, " -> ")
    && ComponentParsable(SplitOnce(instruction, " -> ").value.0)
  }

  /** `parse_instruction`: the target is the text after the first " -> ", the
      component is read from the text before it. */
  function ParseInstruction(instruction: string): (r: (Wire, CircuitComponent))
    requires InstructionParsable(instruction)
    ensures |r.0| + 4 <= |instruction|
    ensures var before := instruction[..|instruction| - |r.0| - 4];
      && instruction == before + " -> " + r.0
      && (forall k: nat :: k < |before| ==> !OccursAt(instruction, " -> ", k))
      && ComponentParsable(before) && r.1 == ParseComponent(before)
  {
    var (before, target) := SplitOnce(instruction, " -> ").value;
    assert instruction[..|instruction| - |target| - 4] == before;
    (target, ParseComponent(before))
  }

  predicate AllParsable(lines: seq<string>) {
    forall k :: 0 <= k < |lines| ==> InstructionParsable(lines[k])
  }

  /** `lines().map(parse_instruction)`: the parsed lines, in order. */
  function ParseAll(lines: seq<string>): (r: seq<(Wire, CircuitComponent)>)
    requires AllParsable(lines)
    ensures |r| == |lines|
    ensures forall k :: 0 <= k < |lines| ==> r[k] == ParseInstruction(lines[k])
  {
    if lines == [] then []
    else [ParseInstruction(lines[0])] + ParseAll(lines[1..])
  }

  /** `HashMap::from_iter`: insert the pairs in order into an empty map. */
  function Collect(pairs: seq<(Wire, CircuitComponent)>): (m: map<Wire, CircuitComponent>)
    ensures forall k :: 0 <= k < |pairs| ==> pairs[k].0 in m
    ensures forall w :: w in m ==> exists k :: 0 <= k < |pairs| && pairs[k].0 == w
  {
    if pairs == [] then map[]
    else
      var init := pairs[..|pairs| - 1];
      assert forall k :: 0 <= k < |init| ==> init[k] == pairs[k];
      Collect(init)[pairs[|pairs| - 1].0 := pairs[|pairs| - 1].1]
  }

  /** Pair `k` is for `w`, and no later pair is. */
  predicate LastFor(pairs: seq<(Wire, CircuitComponent)>, w: Wire, k: nat) {
    && k < |pairs|
    && pairs[k].0 == w
    && forall j :: k < j < |pairs| ==> pairs[j].0 != w
  }

  /** When several pairs are for the same wire, the last of them wins. */
  lemma {:induction false} LastPairWins(pairs: seq<(Wire, CircuitComponent)>, k: nat)
    requires k < |pairs| && LastFor(pairs, pairs[k].0, k)
    ensures Collect(pairs)[pairs[k].0] == pairs[k].1
  {
    if k < |pairs| - 1 {
      var init := pairs[..|pairs| - 1];
      assert forall j :: 0 <= j < |init| ==> init[j] == pairs[j];
      assert LastFor(init, init[k].0, k);
      LastPairWins(init, k);
    }
  }

  /** `CircuitBoard::from_instructions`: one instruction per line. */
  function FromInstructions(instructions: string): (board: CircuitBoard)
    requires AllParsable(Lines(instructions))
    ensures forall k :: 0 <= k < |Lines(instructions)| ==> ParseInstruction(Lines(instructions)[k]).0 in board.components
  {
    CircuitBoard(Collect(ParseAll(Lines(instructions))))
  }

  // ---------------------------------------------------------------------
  // Printing a component the way the puzzle input writes it, and reading it back.

  /** A wire name in the puzzle input: one or more lower-case letters. */
  predicate IsWireName(w: string) {
    w != [] && forall k :: 0 <= k < |w| ==> 'a' <= w[k] <= 'z'
  }

  predicate PrintableInput(i: ComponentInput) {
    i.Component? ==> IsWireName(i.wire)
  }

  predicate Printable(c: CircuitComponent) {
    && (forall i :: i in c.Inputs() ==> PrintableInput(i))
    && ((c.LeftShifter? || c.RightShifter?) ==> c.amount < USIZE_BOUND)
  }

  function ShowInput(i: ComponentInput): string {
    match i
    case Signal(v) => DecimalString(v as int)
    case Component(w) => w
  }

  function ShowComponent(c: CircuitComponent): string {
    match c
    case Direct(i) => ShowInput(i)
    case AndGate(l, r) => ShowInput(l) + " AND " + ShowInput(r)
    case OrGate(l, r) => ShowInput(l) + " OR " + ShowInput(r)
    case LeftShifter(i, k) => ShowInput(i) + " LSHIFT " + DecimalString(k)
    case RightShifter(i, k) => ShowInput(i) + " RSHIFT " + DecimalString(k)
    case Not(i) => "NOT " + ShowInput(i)
  }

  /** No space and no '-': true of every literal and wire name. */
  predicate Plain(s: string) {
    forall k :: 0 <= k < |s| ==> s[k] != ' ' && s[k] != '-'
  }

  lemma DigitsArePlain(s: string)
    requires AllDigits(s)
    ensures Plain(s)
  {
  }

  /** A `u16` read back from its `int` value is itself. */
  lemma CastRoundTrip(v: bv16)
    ensures v as int < U16_BOUND
    ensures (v as int) as bv16 == v
  {
  }

  lemma ShowInputParses(i: ComponentInput)
    requires PrintableInput(i)
    ensures ShowInput(i) != [] && Plain(ShowInput(i))
    ensures ParseSource(ShowInput(i)) == i
  {
    match i
    case Signal(v) => ShowSignalParses(v);
    case Component(w) => ShowWireParses(w);
  }

  /** A literal prints as its decimal digits and reads back as itself. */
  lemma ShowSignalParses(v: bv16)
    ensures DecimalString(v as int) != [] && Plain(DecimalString(v as int))
    ensures ParseSource(DecimalString(v as int)) == Signal(v)
  {
    CastRoundTrip(v);
    DigitsArePlain(DecimalString(v as int));
    DecimalStringParses(v as int, U16_BOUND);
  }

  /** A wire name prints as itself and, having no digit, reads back as a wire. */
  lemma ShowWireParses(w: Wire)
    requires IsWireName(w)
    ensures Plain(w)
    ensures ParseSource(w) == Component(w)
  {
    assert !IsDigit(w[0]) && w[0] != '+' && w[0] != '-';
    NonNumericDoesNotParse(w, 0, U16_BOUND);
  }

  /** A separator of the form " WORD ": spaces at both ends and none inside. */
  predicate Keyword(p: string) {
    && |p| >= 2 && p[0] == ' ' && p[|p| - 1] == ' '
    && forall k :: 0 < k < |p| - 1 ==> p[k] != ' '
  }

  /** In `a + sep + b` with no spaces inside `a` and `b`, a keyword `q` occurs
      exactly when it is `sep`, and splitting there gives back `a` and `b`. */
  lemma KeywordSplit(a: string, sep: string, b: string, q: string)
    requires Plain(a) && Plain(b) && Keyword(sep) && Keyword(q)
    ensures Contains(a + sep + b, q) <==> q == sep
    ensures SplitOnce(a + sep + b, sep) == Some((a, b))
  {
    var s := a + sep + b;
    assert forall j :: 0 <= j < |s| && s[j] == ' ' ==> j == |a| || j == |a| + |sep| - 1;
    forall q': string, k: nat | Keyword(q') && OccursAt(s, q', k)
      ensures k == |a| && q' == sep
    {
      assert s[k] == s[k..k + |q'|][0] == ' ';
      assert s[k + |q'| - 1] == s[k..k + |q'|][|q'| - 1] == ' ';
      assert k == |a| && k + |q'| - 1 == |a| + |sep| - 1;
      assert q' == s[k..k + |q'|] == sep;
    }
    assert OccursAt(s, sep, |a|);
    ContainsIff(s, q);
    var r := SplitOnce(s, sep);
    assert OccursAt(s, sep, |r.value.0|);
    assert r.value.0 == s[..|a|] == a;
  }

  /** A word without spaces contains no keyword. */
  lemma PlainHasNoKeyword(s: string, q: string)
    requires Plain(s) && Keyword(q)
    ensures !Contains(s, q)
  {
    ContainsIff(s, q);
    forall k: nat | k + |q| <= |s|
      ensures !OccursAt(s, q, k)
    {
      assert s[k..k + |q|][0] == s[k] != ' ';
    }
  }

  /** "NOT t" contains "NOT " but no keyword. */
  lemma NotHasNoKeyword(t: string, q: string)
    requires Plain(t) && Keyword(q)
    ensures !Contains("NOT " + t, q)
    ensures Contains("NOT " + t, "NOT ")
  {
    var s := "NOT " + t;
    ContainsIff(s, q);
    forall k: nat | k + |q| <= |s|
      ensures !OccursAt(s, q, k)
    {
      if k != 3 {
        assert s[k..k + |q|][0] == s[k] != ' ';
      } else {
        assert s[k..k + |q|][|q| - 1] == s[k + |q| - 1] == t[k + |q| - 5] != ' ';
      }
    }
    assert OccursAt(s, "NOT ", 0);
    ContainsIff(s, "NOT ");
  }

  /** Every printable component reads back as itself. */
  lemma ParseComponentRoundTrip(c: CircuitComponent)
    requires Printable(c)
    ensures ComponentParsable(ShowComponent(c))
    ensures ParseComponent(ShowComponent(c)) == c
  {
    if c.Binary() {
      assert c.left in c.Inputs() && c.right in c.Inputs();
      BinaryRoundTrip(c);
    } else {
      assert c.input in c.Inputs();
      match c
      case Direct(i) => DirectRoundTrip(i);
      case LeftShifter(i, k) => LeftShiftRoundTrip(i, k);
      case RightShifter(i, k) => RightShiftRoundTrip(i, k);
      case Not(i) => NotRoundTrip(i);
    }
  }

  lemma BinaryRoundTrip(c: CircuitComponent)
    requires c.Binary() && PrintableInput(c.left) && PrintableInput(c.right)
    ensures ComponentParsable(ShowComponent(c))
    ensures ParseComponent(ShowComponent(c)) == c
  {
    ShowInputParses(c.left);
    ShowInputParses(c.right);
    var a, b := ShowInput(c.left), ShowInput(c.right);
    if c.AndGate? {
      KeywordSplit(a, " AND ", b, " AND ");
    } else {
      KeywordSplit(a, " OR ", b, " AND ");
      KeywordSplit(a, " OR ", b, " OR ");
    }
  }

  lemma DirectRoundTrip(i: ComponentInput)
    requires PrintableInput(i)
    ensures ComponentParsable(ShowComponent(Direct(i)))
    ensures ParseComponent(ShowComponent(Direct(i))) == Direct(i)
  {
    var a := ShowInput(i);
    ShowInputParses(i);
    PlainHasNoKeyword(a, " AND ");
    PlainHasNoKeyword(a, " OR ");
    PlainHasNoKeyword(a, " LSHIFT ");
    PlainHasNoKeyword(a, " RSHIFT ");
    ContainsIff(a, "NOT ");
    forall k: nat | k + 4 <= |a|
      ensures !OccursAt(a, "NOT ", k)
    {
      assert a[k..k + 4][3] == a[k + 3] != ' ';
    }
  }

  lemma LeftShiftRoundTrip(i: ComponentInput, k: nat)
    requires PrintableInput(i) && k < USIZE_BOUND
    ensures ComponentParsable(ShowComponent(LeftShifter(i, k)))
    ensures ParseComponent(ShowComponent(LeftShifter(i, k))) == LeftShifter(i, k)
  {
    var a, b := ShowInput(i), DecimalString(k);
    ShowInputParses(i);
    DigitsArePlain(b);
    DecimalStringParses(k, USIZE_BOUND);
    KeywordSplit(a, " LSHIFT ", b, " AND ");
    KeywordSplit(a, " LSHIFT ", b, " OR ");
    KeywordSplit(a, " LSHIFT ", b, " LSHIFT ");
  }

  lemma RightShiftRoundTrip(i: ComponentInput, k: nat)
    requires PrintableInput(i) && k < USIZE_BOUND
    ensures ComponentParsable(ShowComponent(RightShifter(i, k)))
    ensures ParseComponent(ShowComponent(RightShifter(i, k))) == RightShifter(i, k)
  {
    var a, b := ShowInput(i), DecimalString(k);
    ShowInputParses(i);
    DigitsArePlain(b);
    DecimalStringParses(k, USIZE_BOUND);
    KeywordSplit(a, " RSHIFT ", b, " AND ");
    KeywordSplit(a, " RSHIFT ", b, " OR ");
    KeywordSplit(a, " RSHIFT ", b, " LSHIFT ");
    KeywordSplit(a, " RSHIFT ", b, " RSHIFT ");
  }

  lemma NotRoundTrip(i: ComponentInput)
    requires PrintableInput(i)
    ensures ComponentParsable(ShowComponent(Not(i)))
    ensures ParseComponent(ShowComponent(Not(i))) == Not(i)
  {
    var a := ShowInput(i);
    ShowInputParses(i);
    NotHasNoKeyword(a, " AND ");
    NotHasNoKeyword(a, " OR ");
    NotHasNoKeyword(a, " LSHIFT ");
    NotHasNoKeyword(a, " RSHIFT ");
  }

  predicate NoDash(s: string) {
    forall k :: 0 <= k < |s| ==> s[k] != '-'
  }

  lemma NoDashJoin(a: string, sep: string, b: string)
    requires NoDash(a) && NoDash(sep) && NoDash(b)
    ensures NoDash(a + sep + b)
  {
    var s := a + sep + b;
    forall k | 0 <= k < |s| ensures s[k] != '-' {
      if k < |a| {
        assert s[k] == a[k];
      } else if k < |a| + |sep| {
        assert s[k] == sep[k - |a|];
      } else {
        assert s[k] == b[k - |a| - |sep|];
      }
    }
  }

  lemma ShowComponentNoDash(c: CircuitComponent)
    requires Printable(c)
    ensures NoDash(ShowComponent(c))
  {
    if c.Binary() {
      assert c.left in c.Inputs() && c.right in c.Inputs();
      ShowInputParses(c.left);
      ShowInputParses(c.right);
      NoDashJoin(ShowInput(c.left), if c.AndGate? then " AND " else " OR ", ShowInput(c.right));
    } else {
      assert c.input in c.Inputs();
      ShowInputParses(c.input);
      match c
      case Direct(i) =>
      case LeftShifter(i, k) =>
        DigitsArePlain(DecimalString(k));
        NoDashJoin(ShowInput(i), " LSHIFT ", DecimalString(k));
      case RightShifter(i, k) =>
        DigitsArePlain(DecimalString(k));
        NoDashJoin(ShowInput(i), " RSHIFT ", DecimalString(k));
      case Not(i) =>
        NoDashJoin("NOT ", [], ShowInput(i));
        assert "NOT " + [] + ShowInput(i) == "NOT " + ShowInput(i);
    }
  }

  /** With no '-' on either side, " -> " is found exactly between them. */
  lemma ArrowSplit(a: string, b: string)
    requires NoDash(a) && NoDash(b)
    ensures SplitOnce(a + " -> " + b, " -> ") == Some((a, b))
  {
    var s := a + " -> " + b;
    assert OccursAt(s, " -> ", |a|);
    var r := SplitOnce(s, " -> ");
    var k := |r.value.0|;
    assert s[k + 1] == s[k..k + 4][1] == '-';
    assert k == |a|;
    assert r.value.0 == s[..|a|] == a;
  }

  /** A printed instruction reads back as the wire and the component it was printed from. */
  lemma ParseInstructionRoundTrip(c: CircuitComponent, target: Wire)
    requires Printable(c) && IsWireName(target)
    ensures InstructionParsable(ShowComponent(c) + " -> " + target)
    ensures ParseInstruction(ShowComponent(c) + " -> " + target) == (target, c)
  {
    ShowComponentNoDash(c);
    ArrowSplit(ShowComponent(c), target);
    ParseComponentRoundTrip(c);
  }

  // ---------------------------------------------------------------------
  // The two puzzle answers.

  /** `part_one`: the signal on wire "a", from an empty cache. */
  method PartOne(input: string, ghost rank: map<Wire, nat>) returns (r: Option<bv16>)
    requires AllParsable(Lines(input)) && WellFormed(FromInstructions(input), rank)
    ensures r == SignalOf(FromInstructions(input), rank, "a")
    ensures r.None? <==> "a" !in FromInstructions(input).components
  {
    var cache: ResCache := map[];
    r, cache := FromInstructions(input).GetSignal("a", rank, cache);
  }

  /** Drive `wire` with the literal `v`, whether or not it was driven before. */
  function Rewire(board: CircuitBoard, wire: Wire, v: bv16): (b: CircuitBoard)
    ensures b.components.Keys == board.components.Keys + {wire}
    ensures b.components[wire] == Direct(Signal(v))
    ensures forall w :: w in board.components && w != wire ==> b.components[w] == board.components[w]
  {
    CircuitBoard(board.components[wire := Direct(Signal(v))])
  }

  /** A ranking for the rewired board: `wire` reads nothing now, so it goes
      to the bottom and everything else moves up one. */
  function RewiredRank(rank: map<Wire, nat>, wire: Wire): (r: map<Wire, nat>)
    ensures r.Keys == rank.Keys + {wire} && r[wire] == 0
    ensures forall w :: w in rank && w != wire ==> r[w] == rank[w] + 1
  {
    (map w | w in rank :: rank[w] + 1)[wire := 0]
  }

  lemma RewirePreservesWellFormed(board: CircuitBoard, rank: map<Wire, nat>, wire: Wire, v: bv16)
    requires WellFormed(board, rank)
    ensures WellFormed(Rewire(board, wire, v), RewiredRank(rank, wire))
  {
    var b, r := Rewire(board, wire, v), RewiredRank(rank, wire);
    assert b.components[wire].Refs() == {} by {
      assert b.components[wire].Inputs() == [Signal(v)];
    }
    forall w | w in b.components
      ensures w in r && b.components[w].ShiftInRange()
    {
      if w != wire {
        assert b.components[w] == board.components[w];
      }
    }
    forall w, u | w in b.components && w != wire && u in b.components[w].Refs() && u in b.components
      ensures r[u] < r[w]
    {
      assert w in board.components && b.components[w] == board.components[w];
      assert r[w] == rank[w] + 1;
      if u != wire {
        assert u in board.components && rank[u] < rank[w];
        assert r[u] == rank[u] + 1;
      }
    }
    assert Ranked(b, r);
  }

  /** The rewired wire carries the literal. */
  lemma RewiredWireSignal(board: CircuitBoard, rank: map<Wire, nat>, wire: Wire, v: bv16)
    requires WellFormed(board, rank)
    ensures WellFormed(Rewire(board, wire, v), RewiredRank(rank, wire))
    ensures SignalOf(Rewire(board, wire, v), RewiredRank(rank, wire), wire) == Some(v)
  {
    RewirePreservesWellFormed(board, rank, wire, v);
    var b, r := Rewire(board, wire, v), RewiredRank(rank, wire);
    assert GateOutput(b, r, Direct(Signal(v))) == InputSignal(b, r, Signal(v)).GetOr(0) == v;
  }

  /** A wire whose lookup never visits the rewired wire keeps its signal,
      which is why only entries that depend on it go stale. */
  lemma {:induction false} RewireUnaffected(board: CircuitBoard, rank: map<Wire, nat>, wire: Wire, v: bv16, w: Wire)
    requires WellFormed(board, rank) && wire !in Deps(board, rank, w)
    ensures WellFormed(Rewire(board, wire, v), RewiredRank(rank, wire))
    ensures SignalOf(Rewire(board, wire, v), RewiredRank(rank, wire), w) == SignalOf(board, rank, w)
    decreases Height(board, rank, w)
  {
    RewirePreservesWellFormed(board, rank, wire, v);
    var b, r := Rewire(board, wire, v), RewiredRank(rank, wire);
    if w in board.components {
      var c := board.components[w];
      assert b.components[w] == c;
      ComponentBelowWire(board, rank, w);
      forall i | i in c.Inputs()
        ensures InputSignal(b, r, i) == InputSignal(board, rank, i)
      {
        if i.Component? {
          assert i.wire in c.Refs();
          assert InputDeps(board, rank, i) <= ComponentDeps(board, rank, c) by {
            if c.Binary() {
              assert i == c.left || i == c.right;
            }
          }
          RewireUnaffected(board, rank, wire, v, i.wire);
        }
      }
      if c.Binary() {
        assert c.left in c.Inputs() && c.right in c.Inputs();
      } else {
        assert c.input in c.Inputs();
      }
    }
  }

  /**
   * `part_two`: take the signal on "a", drive "b" with it, empty the cache
   * and evaluate "a" again. Unwrapping the first signal panics when "a" is
   * undefined, hence the precondition.
   */
  method PartTwo(input: string, ghost rank: map<Wire, nat>) returns (r: Option<bv16>)
    requires AllParsable(Lines(input)) && WellFormed(FromInstructions(input), rank)
    requires "a" in FromInstructions(input).components
    ensures var board := FromInstructions(input);
      var rewired := Rewire(board, "b", SignalOf(board, rank, "a").value);
      WellFormed(rewired, RewiredRank(rank, "b")) && r == SignalOf(rewired, RewiredRank(rank, "b"), "a")
    ensures r.Some?
  {
    var board := FromInstructions(input);
    var cache: ResCache := map[];
    var originalA;
    originalA, cache := board.GetSignal("a", rank, cache);
    RewirePreservesWellFormed(board, rank, "b", originalA.value);
    ghost var rank' := RewiredRank(rank, "b");
    board := Rewire(board, "b", originalA.value);
    cache := map[];
    r, cache := board.GetSignal("a", rank', cache);
  }

  // ---------------------------------------------------------------------
  // The board of the worked example.

  /** The eight lines below, joined with "\n". */
  const ExampleInstructions: string := JoinLines(ExampleLines)

  const ExampleLines: seq<string> :=
    ["123 -> x", "456 -> y", "x AND y -> d", "x OR y -> e", "x LSHIFT 2 -> f", "y RSHIFT 2 -> g", "NOT x -> h", "NOT y -> i"]

  const ExampleComponents: map<Wire, CircuitComponent> := map[
    "x" := Direct(Signal(123)),
    "y" := Direct(Signal(456)),
    "d" := AndGate(Component("x"), Component("y")),
    "e" := OrGate(Component("x"), Component("y")),
    "f" := LeftShifter(Component("x"), 2),
    "g" := RightShifter(Component("y"), 2),
    "h" := Not(Component("x")),
    "i" := Not(Component("y"))]

  const ExampleRank: map<Wire, nat> := map["x" := 0, "y" := 0, "d" := 1, "e" := 1, "f" := 1, "g" := 1, "h" := 1, "i" := 1]

  lemma ExampleSplitsIntoLines()
    ensures Lines(ExampleInstructions) == ExampleLines
  {
    LinesOfJoin(ExampleLines);
  }

  const ExamplePairs: seq<(Wire, CircuitComponent)> := [
    ("x", Direct(Signal(123))),
    ("y", Direct(Signal(456))),
    ("d", AndGate(Component("x"), Component("y"))),
    ("e", OrGate(Component("x"), Component("y"))),
    ("f", LeftShifter(Component("x"), 2)),
    ("g", RightShifter(Component("y"), 2)),
    ("h", Not(Component("x"))),
    ("i", Not(Component("y")))]

  /** The line that sets `target` from `c`, written as the puzzle input writes it. */
  function ShowInstruction(p: (Wire, CircuitComponent)): string {
    ShowComponent(p.1) + " -> " + p.0
  }

  function ShowInstructions(pairs: seq<(Wire, CircuitComponent)>): (r: seq<string>)
    ensures |r| == |pairs|
    ensures forall k :: 0 <= k < |pairs| ==> r[k] == ShowInstruction(pairs[k])
  {
    if pairs == [] then [] else [ShowInstruction(pairs[0])] + ShowInstructions(pairs[1..])
  }

  /** Printed instructions parse back to the pairs they were printed from. */
  lemma ParseAllRoundTrip(pairs: seq<(Wire, CircuitComponent)>)
    requires forall k :: 0 <= k < |pairs| ==> Printable(pairs[k].1) && IsWireName(pairs[k].0)
    ensures AllParsable(ShowInstructions(pairs))
    ensures ParseAll(ShowInstructions(pairs)) == pairs
  {
    var lines := ShowInstructions(pairs);
    forall k | 0 <= k < |pairs|
      ensures InstructionParsable(lines[k]) && ParseInstruction(lines[k]) == pairs[k]
    {
      ParseInstructionRoundTrip(pairs[k].1, pairs[k].0);
    }
  }

  lemma ExampleLiterals()
    ensures ShowInput(Signal(123)) == "123"
    ensures ShowInput(Signal(456)) == "456"
    ensures DecimalString(2) == "2"
  {
    CastRoundTrip(123);
    CastRoundTrip(456);
    assert DecimalString(12) == "12";
    assert DecimalString(45) == "45";
  }

  lemma ExampleLiteralPieces()
    ensures "123" + " -> " + "x" == "123 -> x"
    ensures "456" + " -> " + "y" == "456 -> y"
    ensures "x" + " AND " + "y" + " -> " + "d" == "x AND y -> d"
    ensures "x" + " OR " + "y" + " -> " + "e" == "x OR y -> e"
    ensures "x" + " LSHIFT " + "2" + " -> " + "f" == "x LSHIFT 2 -> f"
    ensures "y" + " RSHIFT " + "2" + " -> " + "g" == "y RSHIFT 2 -> g"
    ensures "NOT " + "x" + " -> " + "h" == "NOT x -> h"
    ensures "NOT " + "y" + " -> " + "i" == "NOT y -> i"
  {
  }

  lemma ExampleLineShown(k: nat)
    requires k < 8
    ensures ShowInstruction(ExamplePairs[k]) == ExampleLines[k]
  {
    ExampleLiterals();
    ExampleLiteralPieces();
    if k == 0 {
      assert ShowComponent(Direct(Signal(123))) == "123";
      assert ShowInstruction(ExamplePairs[k]) == "123" + " -> " + "x";
    } else if k == 1 {
      assert ShowComponent(Direct(Signal(456))) == "456";
      assert ShowInstruction(ExamplePairs[k]) == "456" + " -> " + "y";
    } else if k == 2 {
      assert ShowComponent(AndGate(Component("x"), Component("y"))) == "x" + " AND " + "y";
      assert ShowInstruction(ExamplePairs[k]) == "x" + " AND " + "y" + " -> " + "d";
    } else if k == 3 {
      assert ShowComponent(OrGate(Component("x"), Component("y"))) == "x" + " OR " + "y";
      assert ShowInstruction(ExamplePairs[k]) == "x" + " OR " + "y" + " -> " + "e";
    } else if k == 4 {
      assert ShowComponent(LeftShifter(Component("x"), 2)) == "x" + " LSHIFT " + "2";
      assert ShowInstruction(ExamplePairs[k]) == "x" + " LSHIFT " + "2" + " -> " + "f";
    } else if k == 5 {
      assert ShowComponent(RightShifter(Component("y"), 2)) == "y" + " RSHIFT " + "2";
      assert ShowInstruction(ExamplePairs[k]) == "y" + " RSHIFT " + "2" + " -> " + "g";
    } else if k == 6 {
      assert ShowComponent(Not(Component("x"))) == "NOT " + "x";
      assert ShowInstruction(ExamplePairs[k]) == "NOT " + "x" + " -> " + "h";
    } else {
      assert ShowComponent(Not(Component("y"))) == "NOT " + "y";
      assert ShowInstruction(ExamplePairs[k]) == "NOT " + "y" + " -> " + "i";
    }
  }

  lemma ExampleText()
    ensures ShowInstructions(ExamplePairs) == ExampleLines
  {
    forall k | 0 <= k < 8
      ensures ShowInstructions(ExamplePairs)[k] == ExampleLines[k]
    {
      ExampleLineShown(k);
    }
  }

  lemma ExampleCollectsLine(k: nat)
    requires k < |ExamplePairs|
    ensures ExamplePairs[k].0 in ExampleComponents
    ensures Collect(ExamplePairs)[ExamplePairs[k].0] == ExampleComponents[ExamplePairs[k].0]
  {
    ExampleNamesDistinct();
    ExampleLineDefines(k);
    assert LastFor(ExamplePairs, ExamplePairs[k].0, k);
    LastPairWins(ExamplePairs, k);
  }

  /** No wire of the example is set by two lines. */
  lemma ExampleNamesDistinct()
    ensures forall i, j :: 0 <= i < j < |ExamplePairs| ==> ExamplePairs[i].0 != ExamplePairs[j].0
  {
    forall i, j | 0 <= i < j < |ExamplePairs|
      ensures ExamplePairs[i].0 != ExamplePairs[j].0
    {
      assert ExamplePairs[i].0[0] != ExamplePairs[j].0[0] by {
        assert forall n :: 0 <= n < |ExamplePairs| ==> ExamplePairs[n].0 == ["xydefghi"[n]];
      }
    }
  }

  /** Each line of the example sets its wire to the component listed for it. */
  lemma ExampleLineDefines(k: nat)
    requires k < |ExamplePairs|
    ensures ExamplePairs[k].0 in ExampleComponents
    ensures ExampleComponents[ExamplePairs[k].0] == ExamplePairs[k].1
  {
  }

  /** Every wire the example defines has a line of its own. */
  lemma ExampleKeyLine(w: Wire) returns (k: nat)
    requires w in ExampleComponents
    ensures k < |ExamplePairs| && ExamplePairs[k].0 == w
  {
    k := if w == "x" then 0 else if w == "y" then 1 else if w == "d" then 2 else if w == "e" then 3
      else if w == "f" then 4 else if w == "g" then 5 else if w == "h" then 6 else 7;
  }

  /** Every wire some line names is defined by the collected map. */
  lemma CollectCovers(pairs: seq<(Wire, CircuitComponent)>, k: nat)
    requires k < |pairs|
    ensures pairs[k].0 in Collect(pairs)
  {
  }

  lemma ExampleKeysCollected()
    ensures ExampleComponents.Keys <= Collect(ExamplePairs).Keys
  {
    forall w | w in ExampleComponents
      ensures w in Collect(ExamplePairs)
    {
      var k := ExampleKeyLine(w);
      CollectCovers(ExamplePairs, k);
    }
  }

  lemma ExampleCollects()
    ensures Collect(ExamplePairs) == ExampleComponents
  {
    var m := Collect(ExamplePairs);
    forall w | w in m
      ensures w in ExampleComponents && m[w] == ExampleComponents[w]
    {
      var k :| 0 <= k < |ExamplePairs| && ExamplePairs[k].0 == w;
      ExampleCollectsLine(k);
    }
    ExampleKeysCollected();
    SameMap(m, ExampleComponents);
  }

  lemma SameMap<K, V>(m: map<K, V>, m': map<K, V>)
    requires forall k | k in m :: k in m' && m[k] == m'[k]
    requires m'.Keys <= m.Keys
    ensures m == m'
  {
  }

  /** The example text describes exactly the eight components listed above. */
  lemma ExampleBoard()
    ensures AllParsable(Lines(ExampleInstructions))
    ensures FromInstructions(ExampleInstructions) == CircuitBoard(ExampleComponents)
  {
    ExampleSplitsIntoLines();
    ExampleText();
    ExamplePrintable();
    ParseAllRoundTrip(ExamplePairs);
    ExampleCollects();
  }

  lemma ExamplePrintable()
    ensures forall k :: 0 <= k < |ExamplePairs| ==> Printable(ExamplePairs[k].1) && IsWireName(ExamplePairs[k].0)
  {
    forall k | 0 <= k < |ExamplePairs|
      ensures Printable(ExamplePairs[k].1) && IsWireName(ExamplePairs[k].0)
    {
      var (t, c) := ExamplePairs[k];
      assert |t| == 1 && 'a' <= t[0] <= 'z';
      assert forall i :: i in c.Inputs() ==> i.Signal? || i == Component("x") || i == Component("y");
    }
  }

  /** Each example component reads at most `x` and `y`, and only a rank-1 wire reads any. */
  lemma ExampleReads(w: Wire)
    requires w in ExampleComponents
    ensures w in ExampleRank && ExampleComponents[w].ShiftInRange()
    ensures forall v :: v in ExampleComponents[w].Refs() ==> v in ExampleRank && ExampleRank[v] < ExampleRank[w]
  {
    var c := ExampleComponents[w];
    if w == "x" || w == "y" {
      assert c.Inputs() == [c.input] && c.input.Signal?;
    } else {
      assert ExampleRank[w] == 1;
      assert forall i :: i in c.Inputs() ==> i == Component("x") || i == Component("y");
      assert ExampleRank["x"] == 0 && ExampleRank["y"] == 0;
    }
  }

  lemma ExampleWellFormed()
    ensures WellFormed(CircuitBoard(ExampleComponents), ExampleRank)
  {
    var comps := ExampleComponents;
    forall w | w in comps
      ensures w in ExampleRank && comps[w].ShiftInRange()
    {
      ExampleReads(w);
    }
    forall w, v | w in comps && v in comps[w].Refs() && v in comps
      ensures ExampleRank[v] < ExampleRank[w]
    {
      ExampleReads(w);
    }
  }

  /** The wires of the worked example and the signals it expects on them. */
  const ExampleExpected: seq<(Wire, bv16)> :=
    [("d", 72), ("e", 507), ("f", 492), ("g", 114), ("h", 65412), ("i", 65079), ("x", 123), ("y", 456)]

  /** The two literal wires of the example. */
  lemma ExampleInputs()
    ensures WellFormed(CircuitBoard(ExampleComponents), ExampleRank)
    ensures SignalOf(CircuitBoard(ExampleComponents), ExampleRank, "x") == Some(123)
    ensures SignalOf(CircuitBoard(ExampleComponents), ExampleRank, "y") == Some(456)
  {
    ExampleInput("x");
    ExampleInput("y");
  }

  /** A wire the example drives from a literal carries that literal. */
  lemma ExampleInput(w: Wire)
    requires w == "x" || w == "y"
    ensures WellFormed(CircuitBoard(ExampleComponents), ExampleRank)
    ensures SignalOf(CircuitBoard(ExampleComponents), ExampleRank, w) == Some(if w == "x" then 123 else 456)
  {
    ExampleWellFormed();
    assert ExampleComponents[w] == Direct(Signal(if w == "x" then 123 else 456));
  }

  // One lemma per gate of the example, each on its entry of `ExampleExpected`.

  lemma ExampleGateD()
    ensures WellFormed(CircuitBoard(ExampleComponents), ExampleRank)
    ensures SignalOf(CircuitBoard(ExampleComponents), ExampleRank, ExampleExpected[0].0) == Some(ExampleExpected[0].1)
  {
    assert ExampleExpected[0] == ("d", 72);
    ExampleInputs();
    var board := CircuitBoard(ExampleComponents);
    assert InputSignal(board, ExampleRank, Component("x")) == Some(123);
    assert InputSignal(board, ExampleRank, Component("y")) == Some(456);
    assert ExampleComponents["d"] == AndGate(Component("x"), Component("y"));
    assert BitAnd(123, 456) == 72;
  }

  lemma ExampleGateE()
    ensures WellFormed(CircuitBoard(ExampleComponents), ExampleRank)
    ensures SignalOf(CircuitBoard(ExampleComponents), ExampleRank, ExampleExpected[1].0) == Some(ExampleExpected[1].1)
  {
    assert ExampleExpected[1] == ("e", 507);
    ExampleInputs();
    var board := CircuitBoard(ExampleComponents);
    assert InputSignal(board, ExampleRank, Component("x")) == Some(123);
    assert InputSignal(board, ExampleRank, Component("y")) == Some(456);
    assert ExampleComponents["e"] == OrGate(Component("x"), Component("y"));
    assert BitOr(123, 456) == 507;
  }

  lemma ExampleGateF()
    ensures WellFormed(CircuitBoard(ExampleComponents), ExampleRank)
    ensures SignalOf(CircuitBoard(ExampleComponents), ExampleRank, ExampleExpected[2].0) == Some(ExampleExpected[2].1)
  {
    assert ExampleExpected[2] == ("f", 492);
    ExampleInputs();
    var board := CircuitBoard(ExampleComponents);
    assert InputSignal(board, ExampleRank, Component("x")) == Some(123);
    assert InputSignal(board, ExampleRank, Component("y")) == Some(456);
    assert ExampleComponents["f"] == LeftShifter(Component("x"), 2);
    assert ShiftLeft(123, 2) == 492;
  }

  lemma ExampleGateG()
    ensures WellFormed(CircuitBoard(ExampleComponents), ExampleRank)
    ensures SignalOf(CircuitBoard(ExampleComponents), ExampleRank, ExampleExpected[3].0) == Some(ExampleExpected[3].1)
  {
    assert ExampleExpected[3] == ("g", 114);
    ExampleInputs();
    var board := CircuitBoard(ExampleComponents);
    assert InputSignal(board, ExampleRank, Component("x")) == Some(123);
    assert InputSignal(board, ExampleRank, Component("y")) == Some(456);
    assert ExampleComponents["g"] == RightShifter(Component("y"), 2);
    assert ShiftRight(456, 2) == 114;
  }

  lemma ExampleGateH()
    ensures WellFormed(CircuitBoard(ExampleComponents), ExampleRank)
    ensures SignalOf(CircuitBoard(ExampleComponents), ExampleRank, ExampleExpected[4].0) == Some(ExampleExpected[4].1)
  {
    assert ExampleExpected[4] == ("h", 65412);
    ExampleInputs();
    var board := CircuitBoard(ExampleComponents);
    assert InputSignal(board, ExampleRank, Component("x")) == Some(123);
    assert InputSignal(board, ExampleRank, Component("y")) == Some(456);
    assert ExampleComponents["h"] == Not(Component("x"));
    assert BitNot(123) == 65412;
  }

  lemma ExampleGateI()
    ensures WellFormed(CircuitBoard(ExampleComponents), ExampleRank)
    ensures SignalOf(CircuitBoard(ExampleComponents), ExampleRank, ExampleExpected[5].0) == Some(ExampleExpected[5].1)
  {
    assert ExampleExpected[5] == ("i", 65079);
    ExampleInputs();
    var board := CircuitBoard(ExampleComponents);
    assert InputSignal(board, ExampleRank, Component("x")) == Some(123);
    assert InputSignal(board, ExampleRank, Component("y")) == Some(456);
    assert ExampleComponents["i"] == Not(Component("y"));
    assert BitNot(456) == 65079;
  }

  lemma ExampleSignal(k: nat)
    requires k < |ExampleExpected|
    ensures WellFormed(CircuitBoard(ExampleComponents), ExampleRank)
    ensures SignalOf(CircuitBoard(ExampleComponents), ExampleRank, ExampleExpected[k].0) == Some(ExampleExpected[k].1)
  {
    if k == 0 {
      ExampleGateD();
    } else if k == 1 {
      ExampleGateE();
    } else if k == 2 {
      ExampleGateF();
    } else if k == 3 {
      ExampleGateG();
    } else if k == 4 {
      ExampleGateH();
    } else if k == 5 {
      ExampleGateI();
    } else {
      ExampleInputs();
      assert ExampleExpected[6] == ("x", 123) && ExampleExpected[7] == ("y", 456);
    }
  }

  lemma ExampleSignals()
    ensures WellFormed(CircuitBoard(ExampleComponents), ExampleRank)
    ensures forall k :: 0 <= k < |ExampleExpected| ==>
      SignalOf(CircuitBoard(ExampleComponents), ExampleRank, ExampleExpected[k].0) == Some(ExampleExpected[k].1)
  {
    ExampleWellFormed();
    forall k | 0 <= k < |ExampleExpected|
      ensures SignalOf(CircuitBoard(ExampleComponents), ExampleRank, ExampleExpected[k].0) == Some(ExampleExpected[k].1)
    {
      ExampleSignal(k);
    }
  }
}
