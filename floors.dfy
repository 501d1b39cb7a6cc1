/**
 * The bracket floors of src/bin/01.rs: `(` sends Santa up one floor, `)`
 * down one, and any other character is no move. Part one is the floor
 * reached at the end; part two is the position, counted from 1, of the
 * character that first goes below the ground floor.
 */
module Floors {
  import opened Wrappers
  import opened Text

  /** `bracket_value`. */
  function BracketValue(c: char): (r: int)
    ensures r == 1 <==> c == '('
    ensures r == -1 <==> c == ')'
    ensures r == 0 <==> c != '(' && c != ')'
  {
    match c
    case '(' => 1
    case ')' => -1
    case _ => 0
  }

  /** How many times `c` occurs in `s`. */
  function Count(s: string, c: char): nat {
    if s == [] then 0 else Count(s[..|s| - 1], c) + (if s[|s| - 1] == c then 1 else 0)
  }

  /** `Count` is the multiplicity of `c` in the multiset of `s`. */
  lemma {:induction false} CountOccurrences(s: string, c: char)
    ensures Count(s, c) == multiset(s)[c]
  {
    if s != [] {
      assert s == s[..|s| - 1] + [s[|s| - 1]];
      CountOccurrences(s[..|s| - 1], c);
    }
  }

  /** The floor reached after the given instructions, starting at 0: the
      `map(bracket_value).sum()`. It is the number of `(` less the number
      of `)`. */
  function Floor(s: string): (r: int)
    ensures r == Count(s, '(') - Count(s, ')')
  {
    if s == [] then 0 else Floor(s[..|s| - 1]) + BracketValue(s[|s| - 1])
  }

  /** `part_one`: the final floor. */
  function PartOne(input: string): (r: Option<int>)
    ensures r == Some(Count(input, '(') - Count(input, ')'))
  {
    Some(Floor(input))
  }

  /** Each instruction moves at most one floor. */
  lemma FloorStep(s: string, c: char)
    ensures Floor(s + [c]) - Floor(s) in {-1, 0, 1}
  {
    assert (s + [c])[..|s|] == s;
  }

  /** The `scan`/`find_map` of `part_two`: walk on from character `k` of `s`,
      at byte offset `offset`, on floor `floor`, and stop at the first
      character after which the floor is negative. The result is that
      character's position in `s`. */
  function FirstBelow(s: string, k: nat, floor: int): (r: Option<nat>)
    requires k <= |s| && floor == Floor(s[..k])
    ensures r.Some? ==> k <= r.value < |s| && Floor(s[..r.value + 1]) < 0
    ensures r.Some? ==> forall m :: k < m <= r.value ==> Floor(s[..m]) >= 0
    ensures r.None? ==> forall m :: k < m <= |s| ==> Floor(s[..m]) >= 0
    decreases |s| - k
  {
    if k == |s| then None
    else
      assert s[..k + 1][..k] == s[..k];
      var next := floor + BracketValue(s[k]);
      if next < 0 then Some(k) else FirstBelow(s, k + 1, next)
  }

  /** The first character that takes Santa below ground, if there is one. */
  function Basement(input: string): (r: Option<nat>)
    ensures r.Some? ==> r.value < |input| && Floor(input[..r.value + 1]) < 0
    ensures r.Some? ==> forall m :: 0 < m <= r.value ==> Floor(input[..m]) >= 0
    ensures r.None? <==> forall m :: 0 < m <= |input| ==> Floor(input[..m]) >= 0
  {
    assert input[..0] == [];
    FirstBelow(input, 0, 0)
  }

  /** The first floor below ground is exactly -1: the prefix before it is at
      0 or above, and one instruction moves at most one floor. */
  lemma BasementIsMinusOne(input: string)
    requires Basement(input).Some?
    ensures Floor(input[..Basement(input).value + 1]) == -1
  {
    var k := Basement(input).value;
    assert input[..0] == [];
    assert Floor(input[..k]) >= 0;
    assert input[..k + 1] == input[..k] + [input[k]];
    FloorStep(input[..k], input[k]);
  }

  /** `part_two`: the byte offset just after the first character that takes
      Santa below ground (`ind + 1`), or `None` if no character does. */
  function PartTwo(input: string): (r: Option<nat>)
    ensures r.None? <==> forall m :: 0 < m <= |input| ==> Floor(input[..m]) >= 0
  {
    match Basement(input)
    case None => None
    case Some(k) => Some(CharIndices(input, 0)[k].0 + 1)
  }

  /** On ASCII input the answer is the length of the shortest prefix that
      ends below ground, and that prefix ends on floor -1. */
  lemma AsciiPartTwo(input: string, n: nat)
    requires IsAscii(input)
    ensures PartTwo(input) == Some(n) <==>
      && 1 <= n <= |input| && Floor(input[..n]) < 0
      && forall m :: 1 <= m < n ==> Floor(input[..m]) >= 0
    ensures PartTwo(input) == Some(n) ==> Floor(input[..n]) == -1
  {
    AsciiOffsets(input, 0);
    if Basement(input).Some? {
      BasementIsMinusOne(input);
    }
  }

  // ---------------------------------------------------------------------
  // The examples.

  lemma PartOneBalanced()
    ensures PartOne("(())") == Some(0)
  {
    CountOccurrences("(())", '(');
    CountOccurrences("(())", ')');
    assert multiset("(())") == multiset{'(', '(', ')', ')'};
  }

  lemma PartOneUp()
    ensures PartOne("))(((((") == Some(3)
  {
    CountOccurrences("))(((((", '(');
    CountOccurrences("))(((((", ')');
    assert multiset("))(((((") == multiset{')', ')', '(', '(', '(', '(', '('};
  }

  lemma PartOneDown()
    ensures PartOne(")())())") == Some(-3)
  {
    CountOccurrences(")())())", '(');
    CountOccurrences(")())())", ')');
    assert multiset(")())())") == multiset{')', '(', ')', ')', '(', ')', ')'};
  }

  lemma PartTwoDown()
    ensures PartTwo(")") == Some(1)
  {
    assert Floor(")"[..1]) == -1;
  }

  lemma PartTwoFifth()
    ensures PartTwo("()())") == Some(5)
  {
    var input := "()())";
    assert IsAscii(input);
    assert input[..1] == "(" && input[..2] == "()" && input[..3] == "()(";
    assert input[..4] == "()()" && input[..5] == input;
    assert Floor("(") == 1 && Floor("()") == 0 && Floor("()(") == 1;
    assert Floor("()()") == 0 && Floor(input) == -1;
    AsciiPartTwo(input, 5);
  }

  lemma PartTwoNever()
    ensures PartTwo("()()") == None
    ensures PartTwo("(((") == None
  {
    var a, b := "()()", "(((";
    assert a[..1] == "(" && a[..2] == "()" && a[..3] == "()(" && a[..4] == a;
    assert b[..1] == "(" && b[..2] == "((" && b[..3] == b;
  }
}
