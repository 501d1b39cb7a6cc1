/**
 * The house-delivery walk of src/bin/03.rs: each character of the input
 * moves Santa one house north, south, east or west (any other character is
 * a move by zero), and the answers count the houses visited at least once,
 * by Santa alone or by Santa and Robo-Santa taking turns.
 */
module Delivery {
  import opened Wrappers
  import opened Text

  datatype Coord = Coord(x: int, y: int)

  const ORIGIN: Coord := Coord(0, 0)

  predicate IsArrow(c: char) {
    c == '<' || c == '>' || c == '^' || c == 'v'
  }

  /** The move one instruction stands for: `From<char>`. An arrow moves one
      house, and anything else does not move. */
  function FromChar(c: char): (r: Coord)
    ensures r == ORIGIN <==> !IsArrow(c)
  {
    if c == '<' then Coord(-1, 0)
    else if c == '>' then Coord(1, 0)
    else if c == '^' then Coord(0, 1)
    else if c == 'v' then Coord(0, -1)
    else ORIGIN
  }

  /** `Add` and `AddAssign`: a house moved by a step. The house lands as
      far from where it was as the step is long. */
  function Add(a: Coord, b: Coord): (r: Coord)
    ensures Distance(r, a) == Distance(b, ORIGIN)
  {
    Coord(a.x + b.x, a.y + b.y)
  }

  /** Steps commute and associate, and the origin is no step. */
  lemma AddLaws(a: Coord, b: Coord, c: Coord)
    ensures Add(a, b) == Add(b, a)
    ensures Add(Add(a, b), c) == Add(a, Add(b, c))
    ensures Add(a, ORIGIN) == a && Add(ORIGIN, a) == a
  {
  }

  /** The sum of a list of steps. */
  function Total(steps: seq<Coord>): Coord {
    if steps == [] then ORIGIN else Add(steps[0], Total(steps[1..]))
  }

  /** Swapping two neighbouring steps does not change their sum. */
  lemma TotalSwap(a: seq<Coord>, p: Coord, q: Coord, b: seq<Coord>)
    ensures Total(a + [p, q] + b) == Total(a + [q, p] + b)
  {
    TotalAppend(a, [p, q] + b);
    TotalAppend(a, [q, p] + b);
    assert a + [p, q] + b == a + ([p, q] + b);
    assert a + [q, p] + b == a + ([q, p] + b);
    assert ([p, q] + b)[1..] == [q] + b && ([q] + b)[1..] == b;
    assert ([q, p] + b)[1..] == [p] + b && ([p] + b)[1..] == b;
  }

  lemma {:induction false} TotalAppend(a: seq<Coord>, b: seq<Coord>)
    ensures Total(a + b) == Add(Total(a), Total(b))
  {
    if a != [] {
      assert (a + b)[1..] == a[1..] + b;
      TotalAppend(a[1..], b);
    } else {
      assert a + b == b;
    }
  }

  function Abs(n: int): nat {
    if n < 0 then -n else n
  }

  /** The number of single moves between two houses. */
  function Distance(a: Coord, b: Coord): nat {
    Abs(a.x - b.x) + Abs(a.y - b.y)
  }

  lemma DistanceTriangle(a: Coord, b: Coord, c: Coord)
    ensures Distance(a, c) <= Distance(a, b) + Distance(b, c)
  {
  }

  /** An arrow moves exactly one house. */
  lemma FromCharSize(c: char)
    ensures Distance(FromChar(c), ORIGIN) == if IsArrow(c) then 1 else 0
  {
  }

  /** `chars().map(Coord::from)`. */
  function Steps(moves: string): (r: seq<Coord>)
    ensures |r| == |moves|
  {
    seq(|moves|, k requires 0 <= k < |moves| => FromChar(moves[k]))
  }

  /** The positions after each step, from `start`: the `scan` of `+=`.
      The sum is spelt out rather than written as `Add`, so that a walk over
      literal steps is unrolled only as far as a proof asks. */
  function Walk(steps: seq<Coord>, start: Coord): (r: seq<Coord>)
    ensures |r| == |steps|
  {
    if steps == [] then []
    else
      var next := Coord(start.x + steps[0].x, start.y + steps[0].y);
      [next] + Walk(steps[1..], next)
  }

  /** A walk that begins with `step` first moves there, then walks on. */
  lemma WalkCons(step: Coord, rest: seq<Coord>, start: Coord)
    ensures Walk([step] + rest, start) == [Add(start, step)] + Walk(rest, Add(start, step))
  {
    assert ([step] + rest)[1..] == rest;
  }

  /** Each position of a walk is the start moved by the sum of the steps
      taken so far. */
  lemma {:induction false} WalkPrefixSums(steps: seq<Coord>, start: Coord, k: nat)
    requires k < |steps|
    ensures Walk(steps, start)[k] == Add(start, Total(steps[..k + 1]))
  {
    var next := Add(start, steps[0]);
    assert steps[..k + 1][1..] == steps[1..][..k];
    if k == 0 {
      assert steps[..1][1..] == [];
      AddLaws(start, steps[0], ORIGIN);
    } else {
      WalkPrefixSums(steps[1..], next, k - 1);
      assert Walk(steps, start)[k] == Walk(steps[1..], next)[k - 1];
      AddLaws(start, steps[0], Total(steps[1..][..k]));
    }
  }

  /** After the whole walk Santa stands at the start moved by the sum of all
      the steps: where Santa ends does not depend on their order. */
  lemma WalkEnd(steps: seq<Coord>, start: Coord)
    requires steps != []
    ensures Walk(steps, start)[|steps| - 1] == Add(start, Total(steps))
  {
    WalkPrefixSums(steps, start, |steps| - 1);
    assert steps[..|steps|] == steps;
  }

  /** Steps of at most one house each never take Santa further than `k + 1`
      houses from the start in `k + 1` steps. */
  lemma {:induction false} WalkStaysNear(steps: seq<Coord>, start: Coord, k: nat)
    requires k < |steps| && forall i :: 0 <= i < |steps| ==> Distance(steps[i], ORIGIN) <= 1
    ensures Distance(Walk(steps, start)[k], start) <= k + 1
  {
    var next := Add(start, steps[0]);
    assert Distance(next, start) <= 1;
    if k > 0 {
      WalkStaysNear(steps[1..], next, k - 1);
      assert Walk(steps, start)[k] == Walk(steps[1..], next)[k - 1];
      DistanceTriangle(Walk(steps, start)[k], next, start);
    }
  }

  /** After `k + 1` instructions Santa is within `k + 1` houses of the first
      one, so every coordinate fits an `i32` while the input is shorter than
      2^31 characters. */
  lemma InputStaysNear(moves: string, k: nat)
    requires k < |moves|
    ensures Distance(Walk(Steps(moves), ORIGIN)[k], ORIGIN) <= k + 1
  {
    forall i | 0 <= i < |moves|
      ensures Distance(Steps(moves)[i], ORIGIN) <= 1
    {
      FromCharSize(moves[i]);
    }
    WalkStaysNear(Steps(moves), ORIGIN, k);
  }

  /** The walk through the whole input is the walk through its first part
      followed by the walk from there through the rest. */
  lemma {:induction false} WalkAppend(a: seq<Coord>, b: seq<Coord>, start: Coord)
    requires a != []
    ensures Walk(a + b, start) == Walk(a, start) + Walk(b, Walk(a, start)[|a| - 1])
  {
    var next := Add(start, a[0]);
    var rest := a[1..];
    assert (a + b)[1..] == rest + b;
    assert Walk(a + b, start) == [next] + Walk(rest + b, next);
    assert Walk(a, start) == [next] + Walk(rest, next);
    if rest != [] {
      WalkAppend(rest, b, next);
      assert Walk(a, start)[|a| - 1] == Walk(rest, next)[|rest| - 1];
    } else {
      assert rest + b == b;
    }
  }

  /** A character that is not an arrow leaves Santa where they are. */
  lemma StrayCharacterStays(c: char, start: Coord)
    requires !IsArrow(c)
    ensures Walk(Steps([c]), start) == [start]
  {
  }

  function Elements(w: seq<Coord>): set<Coord> {
    set p | p in w
  }

  lemma ElementsAppend(a: seq<Coord>, b: seq<Coord>)
    ensures Elements(a + b) == Elements(a) + Elements(b)
  {
    assert forall p :: p in a + b <==> p in a || p in b;
  }

  lemma {:induction false} ElementsBound(w: seq<Coord>)
    ensures |Elements(w)| <= |w|
  {
    if w != [] {
      ElementsBound(w[1..]);
      assert Elements(w) == {w[0]} + Elements(w[1..]);
    }
  }

  /** The houses a walk from the origin visits: the first house and every
      position reached. */
  function VisitedBy(steps: seq<Coord>): (r: set<Coord>)
    ensures ORIGIN in r
  {
    Elements(Walk(steps, ORIGIN)) + {ORIGIN}
  }

  /** At least the first house, and at most one more per step. */
  lemma VisitedBounds(steps: seq<Coord>)
    ensures 1 <= |VisitedBy(steps)| <= |steps| + 1
  {
    ElementsBound(Walk(steps, ORIGIN));
  }

  /** The houses Santa visits following the input. */
  function Visited(moves: string): set<Coord> {
    VisitedBy(Steps(moves))
  }

  /** `usize as u32`: the count modulo 2^32. */
  function AsU32(n: nat): (r: nat)
    ensures r < U32_BOUND && (n < U32_BOUND ==> r == n)
  {
    n % U32_BOUND
  }

  /** `part_one`: the number of houses Santa visits. */
  function PartOne(input: string): (r: Option<nat>)
    ensures r.Some? && r.value == AsU32(|Visited(input)|)
    ensures |input| + 1 < U32_BOUND ==> 1 <= r.value <= |input| + 1
  {
    VisitedBounds(Steps(input));
    Some(AsU32(|Visited(input)|))
  }

  // ---------------------------------------------------------------------
  // Part two: Santa takes the instructions at even byte offsets and
  // Robo-Santa those at odd ones.

  /** `char_indices().map(|(i, c)| (i, Coord::from(c)))`. */
  function IndexedSteps(input: string): (r: seq<(nat, Coord)>)
    ensures |r| == |input|
  {
    var indexed := CharIndices(input, 0);
    seq(|input|, k requires 0 <= k < |input| => (indexed[k].0, FromChar(indexed[k].1)))
  }

  /** Both positions after each step, flattened: the `scan` that moves
      Santa on an even offset and Robo-Santa on an odd one. */
  function TurnWalk(steps: seq<(nat, Coord)>, santa: Coord, robo: Coord): (r: seq<Coord>)
    ensures |r| == 2 * |steps|
  {
    if steps == [] then []
    else
      var step := steps[0].1;
      if steps[0].0 % 2 == 0 then
        var next := Add(santa, step);
        [next, robo] + TurnWalk(steps[1..], next, robo)
      else
        var next := Add(robo, step);
        [santa, next] + TurnWalk(steps[1..], santa, next)
  }

  /** The steps at offsets of the given parity, in order: Santa's turns for
      parity 0 and Robo-Santa's for parity 1. */
  function Turns(steps: seq<(nat, Coord)>, parity: nat): (r: seq<Coord>)
    requires parity < 2
    ensures |r| <= |steps|
  {
    if steps == [] then []
    else (if steps[0].0 % 2 == parity then [steps[0].1] else []) + Turns(steps[1..], parity)
  }

  /** Santa's move, at an even offset: Santa moves and Robo-Santa stays. */
  lemma SantaTurn(steps: seq<(nat, Coord)>, santa: Coord, robo: Coord)
    requires steps != [] && steps[0].0 % 2 == 0
    ensures var step := steps[0].1;
      var next := Add(santa, step);
      && TurnWalk(steps, santa, robo) == [next, robo] + TurnWalk(steps[1..], next, robo)
      && Walk(Turns(steps, 0), santa) == [next] + Walk(Turns(steps[1..], 0), next)
      && Turns(steps, 1) == Turns(steps[1..], 1)
  {
    var mine := Turns(steps[1..], 0);
    assert Turns(steps, 0) == [steps[0].1] + mine;
    WalkCons(steps[0].1, mine, santa);
  }

  /** Robo-Santa's move, at an odd offset: Robo-Santa moves and Santa stays. */
  lemma RoboTurn(steps: seq<(nat, Coord)>, santa: Coord, robo: Coord)
    requires steps != [] && steps[0].0 % 2 == 1
    ensures var step := steps[0].1;
      var next := Add(robo, step);
      && TurnWalk(steps, santa, robo) == [santa, next] + TurnWalk(steps[1..], santa, next)
      && Walk(Turns(steps, 1), robo) == [next] + Walk(Turns(steps[1..], 1), next)
      && Turns(steps, 0) == Turns(steps[1..], 0)
  {
    var mine := Turns(steps[1..], 1);
    assert Turns(steps, 1) == [steps[0].1] + mine;
    WalkCons(steps[0].1, mine, robo);
  }

  /** A house is visited in turns exactly when Santa visits it on Santa's
      turns or Robo-Santa on Robo-Santa's, counting the houses both start from. */
  predicate SplitsAt(steps: seq<(nat, Coord)>, santa: Coord, robo: Coord, p: Coord) {
    (p in TurnWalk(steps, santa, robo) || p == santa || p == robo)
    <==> (p in Walk(Turns(steps, 0), santa) || p == santa || p in Walk(Turns(steps, 1), robo) || p == robo)
  }

  lemma {:induction false} TurnWalkSplits(steps: seq<(nat, Coord)>, santa: Coord, robo: Coord, p: Coord)
    ensures SplitsAt(steps, santa, robo, p)
  {
    if steps != [] {
      var step := steps[0].1;
      if steps[0].0 % 2 == 0 {
        TurnWalkSplits(steps[1..], Add(santa, step), robo, p);
        SantaSplits(steps, santa, robo, p);
      } else {
        TurnWalkSplits(steps[1..], santa, Add(robo, step), p);
        RoboSplits(steps, santa, robo, p);
      }
    }
  }

  /** Santa's move keeps the split, given it for the steps after it. */
  lemma SantaSplits(steps: seq<(nat, Coord)>, santa: Coord, robo: Coord, p: Coord)
    requires steps != [] && steps[0].0 % 2 == 0
    requires SplitsAt(steps[1..], Add(santa, steps[0].1), robo, p)
    ensures SplitsAt(steps, santa, robo, p)
  {
    var next := Add(santa, steps[0].1);
    SantaTurn(steps, santa, robo);
    assert p in [next, robo] + TurnWalk(steps[1..], next, robo)
      <==> p == next || p == robo || p in TurnWalk(steps[1..], next, robo);
    assert p in [next] + Walk(Turns(steps[1..], 0), next)
      <==> p == next || p in Walk(Turns(steps[1..], 0), next);
  }

  /** Robo-Santa's move keeps the split, given it for the steps after it. */
  lemma RoboSplits(steps: seq<(nat, Coord)>, santa: Coord, robo: Coord, p: Coord)
    requires steps != [] && steps[0].0 % 2 == 1
    requires SplitsAt(steps[1..], santa, Add(robo, steps[0].1), p)
    ensures SplitsAt(steps, santa, robo, p)
  {
    var next := Add(robo, steps[0].1);
    RoboTurn(steps, santa, robo);
    assert p in [santa, next] + TurnWalk(steps[1..], santa, next)
      <==> p == santa || p == next || p in TurnWalk(steps[1..], santa, next);
    assert p in [next] + Walk(Turns(steps[1..], 1), next)
      <==> p == next || p in Walk(Turns(steps[1..], 1), next);
  }

  /** The houses visited in turns, from the origin. */
  function TurnVisited(input: string): (r: set<Coord>)
    ensures ORIGIN in r
  {
    Elements(TurnWalk(IndexedSteps(input), ORIGIN, ORIGIN)) + {ORIGIN}
  }

  /** The two walks' houses together, with the first house counted once. */
  lemma TurnVisitedSplits(input: string)
    ensures var steps := IndexedSteps(input);
      TurnVisited(input) == VisitedBy(Turns(steps, 0)) + VisitedBy(Turns(steps, 1))
  {
    var steps := IndexedSteps(input);
    forall p
      ensures p in TurnVisited(input) <==> p in VisitedBy(Turns(steps, 0)) + VisitedBy(Turns(steps, 1))
    {
      TurnWalkSplits(steps, ORIGIN, ORIGIN, p);
      assert SplitsAt(steps, ORIGIN, ORIGIN, p);
    }
  }

  /** `part_two`: the number of houses Santa or Robo-Santa visits. */
  function PartTwo(input: string): (r: Option<nat>)
    ensures var steps := IndexedSteps(input);
      r.Some? && r.value == AsU32(|VisitedBy(Turns(steps, 0)) + VisitedBy(Turns(steps, 1))|)
  {
    TurnVisitedSplits(input);
    Some(AsU32(|TurnVisited(input)|))
  }

  // ---------------------------------------------------------------------
  // On ASCII input every character is one byte, so the byte offsets are the
  // positions and the turns simply alternate.

  /** Every other element, starting with the first. */
  function EveryOther<T>(s: seq<T>): (r: seq<T>)
    ensures |r| == (|s| + 1) / 2
    ensures forall k :: 0 <= k < |r| ==> 2 * k < |s| && r[k] == s[2 * k]
  {
    if |s| <= 1 then s else [s[0]] + EveryOther(s[2..])
  }

  /** All but the first element, if there is one. */
  function Tail<T>(s: seq<T>): (r: seq<T>)
    ensures |r| == if s == [] then 0 else |s| - 1
    ensures forall k :: 0 <= k < |r| ==> r[k] == s[k + 1]
  {
    if s == [] then [] else s[1..]
  }

  /** The steps without their offsets. */
  function Unindexed(steps: seq<(nat, Coord)>): (r: seq<Coord>)
    ensures |r| == |steps| && forall k :: 0 <= k < |steps| ==> r[k] == steps[k].1
  {
    seq(|steps|, k requires 0 <= k < |steps| => steps[k].1)
  }

  /** Who moves on consecutive offsets: whoever's parity the first offset
      has takes every other step from the first, the other every other step
      from the second. */
  lemma {:induction false} ConsecutiveTurns(steps: seq<(nat, Coord)>, base: nat, parity: nat)
    requires parity < 2
    requires forall k :: 0 <= k < |steps| ==> steps[k].0 == base + k
    ensures Turns(steps, parity) == if base % 2 == parity then EveryOther(Unindexed(steps)) else EveryOther(Tail(Unindexed(steps)))
  {
    if steps != [] {
      var rest := steps[1..];
      ConsecutiveTurns(rest, base + 1, parity);
      var all, later := Unindexed(steps), Unindexed(rest);
      assert later == all[1..];
      if |steps| >= 2 {
        assert Tail(later) == all[2..];
        assert EveryOther(all) == [all[0]] + EveryOther(all[2..]);
      }
      if base % 2 == parity {
        assert (base + 1) % 2 != parity;
      } else {
        assert (base + 1) % 2 == parity;
      }
    }
  }

  lemma StepsEveryOther(s: string)
    ensures Steps(EveryOther(s)) == EveryOther(Steps(s))
    ensures Steps(Tail(s)) == Tail(Steps(s))
  {
  }

  /** On ASCII input Santa follows the characters at even positions and
      Robo-Santa those at odd positions. */
  lemma AsciiPartTwo(input: string)
    requires IsAscii(input)
    ensures PartTwo(input) == Some(AsU32(|Visited(EveryOther(input)) + Visited(EveryOther(Tail(input)))|))
  {
    var steps := IndexedSteps(input);
    AsciiOffsets(input, 0);
    ConsecutiveTurns(steps, 0, 0);
    ConsecutiveTurns(steps, 0, 1);
    assert Unindexed(steps) == Steps(input);
    StepsEveryOther(input);
    StepsEveryOther(Tail(input));
  }

  // ---------------------------------------------------------------------
  // The examples.

  lemma FourHouses(a: Coord, b: Coord, c: Coord, d: Coord)
    requires a != b && a != c && a != d && b != c && b != d && c != d
    ensures |{a, b, c, d}| == 4
  {
  }

  lemma PartOneEast()
    ensures PartOne(">") == Some(2)
  {
    assert Steps(">") == [Coord(1, 0)];
    assert Visited(">") == {Coord(1, 0), ORIGIN};
  }

  lemma PartOneSquare()
    ensures PartOne("^>v<") == Some(4)
  {
    var steps := [Coord(0, 1), Coord(1, 0), Coord(0, -1), Coord(-1, 0)];
    assert Steps("^>v<") == steps;
    assert Walk(steps, ORIGIN) == [Coord(0, 1), Coord(1, 1), Coord(1, 0), ORIGIN];
    assert Visited("^>v<") == {Coord(0, 1), Coord(1, 1), Coord(1, 0), ORIGIN};
    FourHouses(Coord(0, 1), Coord(1, 1), Coord(1, 0), ORIGIN);
  }

  function Repeat<T>(s: seq<T>, n: nat): (r: seq<T>)
    ensures |r| == n * |s|
  {
    if n == 0 then [] else s + Repeat(s, n - 1)
  }

  /** Up and back down, `n` times over, visits the first house and the one
      north of it, and no other. */
  lemma {:induction false} UpAndDown(n: nat, start: Coord)
    ensures forall p :: (p in Walk(Repeat([Coord(0, 1), Coord(0, -1)], n), start))
                        <==> n > 0 && (p == start || p == Coord(start.x, start.y + 1))
  {
    if n > 0 {
      var steps := Repeat([Coord(0, 1), Coord(0, -1)], n);
      var rest := Repeat([Coord(0, 1), Coord(0, -1)], n - 1);
      var north := Coord(start.x, start.y + 1);
      UpAndDown(n - 1, start);
      assert steps[1..] == [Coord(0, -1)] + rest;
      assert steps[1..][1..] == rest;
      assert Walk(steps, start) == [north] + Walk([Coord(0, -1)] + rest, north);
      assert Walk([Coord(0, -1)] + rest, north) == [start] + Walk(rest, start);
    }
  }

  /** A single instruction visits the first house and its neighbour. */
  lemma OneMove(c: char)
    ensures Visited([c]) == {FromChar(c), ORIGIN}
  {
    assert Steps([c]) == [FromChar(c)];
  }

  /** An instruction and its opposite visit the first house and one
      neighbour. */
  lemma ThereAndBack(c: char, d: char)
    requires FromChar(d) == Coord(-FromChar(c).x, -FromChar(c).y)
    ensures Visited([c, d]) == {FromChar(c), ORIGIN}
  {
    assert Steps([c, d]) == [FromChar(c), FromChar(d)];
    assert Walk(Steps([c, d]), ORIGIN) == [FromChar(c), ORIGIN];
  }

  /** Three distinct houses. */
  lemma ThreeHouses(a: Coord, b: Coord, c: Coord)
    requires a != b && a != c && b != c
    ensures |{a, b, c}| == 3
  {
  }

  /** The part-two answer on ASCII input, from the two walks' houses. */
  lemma PartTwoFrom(input: string, santa: string, robo: string, houses: set<Coord>)
    requires IsAscii(input)
    requires EveryOther(input) == santa && EveryOther(Tail(input)) == robo
    requires Visited(santa) + Visited(robo) == houses && |houses| < U32_BOUND
    ensures PartTwo(input) == Some(|houses|)
  {
    AsciiPartTwo(input);
  }

  lemma PartTwoEast()
    ensures PartTwo(">") == Some(2)
  {
    assert EveryOther(">") == ">" && EveryOther(Tail(">")) == [];
    OneMove('>');
    assert Visited([]) == {ORIGIN};
    assert |{Coord(1, 0), ORIGIN}| == 2;
    PartTwoFrom(">", ">", [], {Coord(1, 0), ORIGIN});
  }

  lemma PartTwoUpDown()
    ensures PartTwo("^v") == Some(3)
  {
    var input := "^v";
    assert EveryOther(input) == "^" && EveryOther(Tail(input)) == "v";
    OneMove('^');
    OneMove('v');
    ThreeHouses(Coord(0, 1), ORIGIN, Coord(0, -1));
    PartTwoFrom(input, "^", "v", {Coord(0, 1), ORIGIN, Coord(0, -1)});
  }

  lemma PartTwoSquare()
    ensures PartTwo("^>v<") == Some(3)
  {
    var input := "^>v<";
    assert EveryOther(input) == "^v" && EveryOther(Tail(input)) == "><";
    ThereAndBack('^', 'v');
    ThereAndBack('>', '<');
    ThreeHouses(Coord(0, 1), ORIGIN, Coord(1, 0));
    PartTwoFrom(input, "^v", "><", {Coord(0, 1), ORIGIN, Coord(1, 0)});
  }

  /** A column of houses from `(0, lo)` up to `(0, hi)`. */
  function Column(lo: int, hi: int): (r: set<Coord>)
    ensures forall p :: p in r <==> p.x == 0 && lo <= p.y <= hi
    decreases hi - lo
  {
    if hi < lo then {} else Column(lo, hi - 1) + {Coord(0, hi)}
  }

  lemma {:induction false} ColumnSize(lo: int, hi: int)
    requires lo <= hi + 1
    ensures |Column(lo, hi)| == hi - lo + 1
    decreases hi - lo
  {
    if lo <= hi {
      ColumnSize(lo, hi - 1);
    }
  }

  lemma ColumnJoin(lo: int, mid: int, hi: int)
    requires lo <= mid <= hi
    ensures Column(mid, hi) + Column(lo, mid) == Column(lo, hi)
  {
  }

  /** `n` equal moves straight north or south from `start.y`. */
  lemma {:induction false} Straight(n: nat, dy: int, c: char, start: int)
    requires FromChar(c) == Coord(0, dy)
    ensures forall p :: p in Walk(Steps(Repeat([c], n)), Coord(0, start))
                        <==> exists k :: 1 <= k <= n && p == Coord(0, start + k * dy)
  {
    if n > 0 {
      var rest := Repeat([c], n - 1);
      Straight(n - 1, dy, c, start + dy);
      assert Steps([c] + rest) == [Coord(0, dy)] + Steps(rest);
      assert Walk(Steps(Repeat([c], n)), Coord(0, start))
        == [Coord(0, start + dy)] + Walk(Steps(rest), Coord(0, start + dy));
      forall p | p in Walk(Steps(Repeat([c], n)), Coord(0, start))
        ensures exists k :: 1 <= k <= n && p == Coord(0, start + k * dy)
      {
        if p == Coord(0, start + dy) {
          assert p == Coord(0, start + 1 * dy);
        } else {
          assert p in Walk(Steps(rest), Coord(0, start + dy));
          var k :| 1 <= k <= n - 1 && p == Coord(0, start + dy + k * dy);
          assert p == Coord(0, start + (k + 1) * dy);
        }
      }
      forall k | 1 <= k <= n
        ensures Coord(0, start + k * dy) in Walk(Steps(Repeat([c], n)), Coord(0, start))
      {
        if k > 1 {
          assert Coord(0, start + k * dy) == Coord(0, start + dy + (k - 1) * dy);
        }
      }
    }
  }

  /** `n` moves north visit the column from the first house up to `(0, n)`. */
  lemma NorthColumn(n: nat)
    ensures Visited(Repeat("^", n)) == Column(0, n)
  {
    Straight(n, 1, '^', 0);
    forall p | p in Column(0, n) && p != ORIGIN
      ensures p in Walk(Steps(Repeat("^", n)), ORIGIN)
    {
      assert p == Coord(0, 0 + p.y * 1);
    }
  }

  /** `n` moves south visit the column from `(0, -n)` up to the first house. */
  lemma SouthColumn(n: nat)
    ensures Visited(Repeat("v", n)) == Column(-(n as int), 0)
  {
    Straight(n, -1, 'v', 0);
    forall p | p in Column(-(n as int), 0) && p != ORIGIN
      ensures p in Walk(Steps(Repeat("v", n)), ORIGIN)
    {
      assert p == Coord(0, 0 + (-p.y) * -1);
    }
  }

  lemma PartOneUpDown()
    ensures PartOne("^v^v^v^v^v") == Some(2)
  {
    var input := "^v^v^v^v^v";
    assert Steps(input) == Repeat([Coord(0, 1), Coord(0, -1)], 5);
    UpAndDown(5, ORIGIN);
    assert Visited(input) == {ORIGIN, Coord(0, 1)};
  }

  lemma AlternatingTurns()
    ensures EveryOther("^v^v^v^v^v") == Repeat("^", 5)
    ensures EveryOther(Tail("^v^v^v^v^v")) == Repeat("v", 5)
  {
  }

  lemma AlternatingAscii()
    ensures IsAscii("^v^v^v^v^v")
  {
    var input := "^v^v^v^v^v";
    forall k | 0 <= k < |input|
      ensures input[k] as int < 0x80
    {
      assert input[k] == '^' || input[k] == 'v';
    }
  }

  /** Santa's five moves north and Robo-Santa's five south cover eleven
      houses in one column. */
  lemma FiveEachWay()
    ensures Visited(Repeat("^", 5)) + Visited(Repeat("v", 5)) == Column(-5, 5)
  {
    NorthColumn(5);
    SouthColumn(5);
    ColumnJoin(-5, 0, 5);
  }

  lemma PartTwoUpDownFive()
    ensures PartTwo("^v^v^v^v^v") == Some(11)
  {
    AlternatingTurns();
    AlternatingAscii();
    FiveEachWay();
    ColumnSize(-5, 5);
    PartTwoFrom("^v^v^v^v^v", Repeat("^", 5), Repeat("v", 5), Column(-5, 5));
  }
}
