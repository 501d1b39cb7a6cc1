/**
 * The look-and-say sequence of src/bin/10.rs.
 *
 * A step reads the current string as runs of equal characters and writes,
 * for each run in order, the decimal length of the run followed by its
 * character: "1211" is one 1, one 2, two 1s, so it becomes "111221". The
 * generator keeps the latest string and replaces it at every step.
 */
module LookAndSay {
  import opened Wrappers
  import opened Text

  /** A `(char, usize)` group of the grouping fold. */
  datatype Run = Run(c: char, count: nat)

  /** `count` copies of `c`. */
  function Repeat(c: char, count: nat): (r: string)
    ensures |r| == count
  {
    if count == 0 then [] else Repeat(c, count - 1) + [c]
  }

  /** The text a list of runs stands for. */
  function Expand(runs: seq<Run>): string {
    if runs == [] then []
    else Expand(runs[..|runs| - 1]) + Repeat(runs[|runs| - 1].c, runs[|runs| - 1].count)
  }

  /** Run `i` has a different character from the run before it. */
  predicate NewCharAt(runs: seq<Run>, i: int) {
    0 < i < |runs| && runs[i - 1].c != runs[i].c
  }

  /** Every run is non-empty and no two neighbouring runs share a character. */
  predicate WellGrouped(runs: seq<Run>) {
    && (forall i :: 0 <= i < |runs| ==> runs[i].count >= 1)
    && (forall i :: 0 < i < |runs| ==> NewCharAt(runs, i))
  }

  /** One step of the grouping fold: pop the last group and either extend it
      with `c` or push it back followed by a new group of one `c`. */
  function Absorb(groups: seq<Run>, c: char): seq<Run> {
    if groups == [] then [Run(c, 1)]
    else
      var last := groups[|groups| - 1];
      if last.c == c then groups[..|groups| - 1] + [Run(c, last.count + 1)]
      else groups + [Run(c, 1)]
  }

  /** A step of the fold keeps the groups well grouped. */
  lemma AbsorbGrouped(groups: seq<Run>, c: char)
    requires WellGrouped(groups)
    ensures WellGrouped(Absorb(groups, c))
    ensures 1 <= |Absorb(groups, c)| <= |groups| + 1
  {
    var g := groups;
    if g != [] && g[|g| - 1].c == c {
      var next := g[..|g| - 1] + [Run(c, g[|g| - 1].count + 1)];
      forall i | 0 < i < |next| ensures NewCharAt(next, i) {
        assert NewCharAt(g, i);
      }
    } else {
      var next := g + [Run(c, 1)];
      forall i | 0 < i < |next| ensures NewCharAt(next, i) {
        if i < |g| {
          assert NewCharAt(g, i);
        }
      }
    }
  }

  /** A step of the fold spells one more character. */
  lemma AbsorbSpells(groups: seq<Run>, c: char)
    ensures Expand(Absorb(groups, c)) == Expand(groups) + [c]
  {
    var g := groups;
    if g != [] && g[|g| - 1].c == c {
      var n := g[|g| - 1].count;
      var front := g[..|g| - 1];
      var next := front + [Run(c, n + 1)];
      assert next[..|front|] == front;
      assert g == front + [Run(c, n)];
      assert Expand(g) == Expand(front) + Repeat(c, n);
      assert Expand(next) == Expand(front) + Repeat(c, n + 1);
    } else {
      var next := g + [Run(c, 1)];
      assert next[..|g|] == g;
      assert Expand(next) == Expand(g) + Repeat(c, 1);
    }
  }

  /** The grouping fold over the whole string: its runs are well grouped and
      spell the string back. */
  function Runs(s: string): (r: seq<Run>)
    ensures WellGrouped(r) && Expand(r) == s
    ensures |r| <= |s| && (r == [] <==> s == [])
  {
    if s == [] then []
    else
      var init := s[..|s| - 1];
      AbsorbGrouped(Runs(init), s[|s| - 1]);
      AbsorbSpells(Runs(init), s[|s| - 1]);
      assert s == init + [s[|s| - 1]];
      Absorb(Runs(init), s[|s| - 1])
  }

  /** `Runs` is the grouping fold, step by step. */
  lemma RunsAbsorb(s: string, c: char)
    ensures Runs(s + [c]) == Absorb(Runs(s), c)
  {
    assert (s + [c])[..|s|] == s;
  }

  /** The grouping fold over one more character of `s`. */
  lemma RunsPrefix(s: string, i: nat)
    requires i < |s|
    ensures Runs(s[..i + 1]) == Absorb(Runs(s[..i]), s[i])
  {
    assert s[..i + 1] == s[..i] + [s[i]];
    RunsAbsorb(s[..i], s[i]);
  }

  /** A list of non-empty runs spells a text that ends in its last run's
      character. */
  lemma ExpandLast(runs: seq<Run>)
    requires WellGrouped(runs) && runs != []
    ensures |Expand(runs)| >= runs[|runs| - 1].count >= 1
    ensures Expand(runs)[|Expand(runs)| - 1] == runs[|runs| - 1].c
  {
  }

  /** The text of a list of runs is the text of all but the last run,
      followed by the last run's characters. */
  lemma ExpandSplit(runs: seq<Run>)
    requires runs != []
    ensures var t, last := Expand(runs), runs[|runs| - 1];
      && |t| >= last.count
      && t[..|t| - last.count] == Expand(runs[..|runs| - 1])
  {
  }

  /** How many characters at the end of `s` equal `c`. */
  function Trailing(s: string, c: char): (n: nat)
    ensures n <= |s|
  {
    if s == [] || s[|s| - 1] != c then 0 else Trailing(s[..|s| - 1], c) + 1
  }

  /** Appending copies of `c` lengthens the trailing block of `c` by as many. */
  lemma {:induction false} TrailingRepeat(s: string, c: char, n: nat)
    ensures Trailing(s + Repeat(c, n), c) == Trailing(s, c) + n
  {
    if n == 0 {
      assert s + Repeat(c, n) == s;
    } else {
      TrailingRepeat(s, c, n - 1);
      var t := s + Repeat(c, n);
      assert t == (s + Repeat(c, n - 1)) + [c];
      assert t[..|t| - 1] == s + Repeat(c, n - 1);
    }
  }

  /** The last run of a well-grouped list is the whole trailing block of its
      character. */
  lemma LastRunIsTrailing(runs: seq<Run>)
    requires WellGrouped(runs) && runs != []
    ensures Trailing(Expand(runs), runs[|runs| - 1].c) == runs[|runs| - 1].count
  {
    var init, last := runs[..|runs| - 1], runs[|runs| - 1];
    TrailingRepeat(Expand(init), last.c, last.count);
    if init != [] {
      WellGroupedInit(runs);
      ExpandLast(init);
      assert NewCharAt(runs, |runs| - 1);
      assert init[|init| - 1] == runs[|runs| - 2];
    }
  }

  /** Two well-grouped cuts of one text end in the same run. */
  lemma LastRunsAgree(runs: seq<Run>, other: seq<Run>)
    requires WellGrouped(runs) && WellGrouped(other)
    requires runs != [] && other != [] && Expand(runs) == Expand(other)
    ensures runs[|runs| - 1] == other[|other| - 1]
    ensures Expand(runs[..|runs| - 1]) == Expand(other[..|other| - 1])
  {
    ExpandLast(runs);
    ExpandLast(other);
    LastRunIsTrailing(runs);
    LastRunIsTrailing(other);
    ExpandSplit(runs);
    ExpandSplit(other);
  }

  /** The runs before the last of a well-grouped list are well grouped. */
  lemma WellGroupedInit(runs: seq<Run>)
    requires WellGrouped(runs) && runs != []
    ensures WellGrouped(runs[..|runs| - 1])
  {
    var init := runs[..|runs| - 1];
    forall i | 0 < i < |init| ensures NewCharAt(init, i) {
      assert NewCharAt(runs, i);
    }
  }

  lemma SameInitAndLast(a: seq<Run>, b: seq<Run>)
    requires a != [] && b != []
    requires a[..|a| - 1] == b[..|b| - 1] && a[|a| - 1] == b[|b| - 1]
    ensures a == b
  {
    assert a == a[..|a| - 1] + [a[|a| - 1]];
    assert b == b[..|b| - 1] + [b[|b| - 1]];
  }

  /** There is only one way to cut a text into well-grouped runs: the
      grouping fold finds it. */
  lemma {:induction false} RunsUnique(runs: seq<Run>, other: seq<Run>)
    requires WellGrouped(runs) && WellGrouped(other) && Expand(runs) == Expand(other)
    ensures runs == other
    decreases |runs|
  {
    if runs != [] && other != [] {
      LastRunsAgree(runs, other);
      WellGroupedInit(runs);
      WellGroupedInit(other);
      RunsUnique(runs[..|runs| - 1], other[..|other| - 1]);
      SameInitAndLast(runs, other);
    } else if runs != [] {
      ExpandLast(runs);
    } else if other != [] {
      ExpandLast(other);
    }
  }

  /** The grouping fold is the only well-grouped cut of a text. */
  lemma RunsOnly(runs: seq<Run>, s: string)
    requires WellGrouped(runs) && Expand(runs) == s
    ensures runs == Runs(s)
  {
    RunsUnique(runs, Runs(s));
  }

  /** The emit fold: each run's length in decimal, then its character. */
  function Emit(runs: seq<Run>): (r: string)
    ensures |r| >= 2 * |runs|
  {
    if runs == [] then []
    else
      var last := runs[|runs| - 1];
      Emit(runs[..|runs| - 1]) + DecimalString(last.count) + [last.c]
  }

  /** The text that one step of the sequence produces from `s`. */
  function Say(s: string): (r: string)
    ensures r == [] <==> s == []
    ensures |r| >= 2 * |Runs(s)|
  {
    Emit(Runs(s))
  }

  /** Reading back a said text whose every run is shorter than ten: each
      digit-and-character pair stands for that many copies of the character. */
  function Unsay(t: string): string {
    if |t| < 2 then []
    else
      var d := t[|t| - 2];
      Unsay(t[..|t| - 2]) + Repeat(t[|t| - 1], if IsDigit(d) then DigitsValue([d]) else 0)
  }

  /** Saying runs of fewer than ten and reading back gives their text. */
  lemma {:induction false} UnsayEmit(runs: seq<Run>)
    requires forall i :: 0 <= i < |runs| ==> runs[i].count < 10
    ensures Unsay(Emit(runs)) == Expand(runs)
  {
    if runs != [] {
      var init, last := runs[..|runs| - 1], runs[|runs| - 1];
      UnsayEmit(init);
      var t := Emit(runs);
      var digit := DecimalString(last.count);
      assert |digit| == 1;
      DecimalStringValue(last.count);
      assert t == Emit(init) + [digit[0], last.c];
      assert t[..|t| - 2] == Emit(init);
    }
  }

  /** When no run of `s` is ten long, the step can be undone. */
  lemma SayRoundTrip(s: string)
    requires forall i :: 0 <= i < |Runs(s)| ==> Runs(s)[i].count < 10
    ensures Unsay(Say(s)) == s
  {
    UnsayEmit(Runs(s));
  }

  /** `k` steps of the sequence from `s`. The sequence reaches the empty
      string only from the empty start. */
  function Iterate(s: string, k: nat): (r: string)
    ensures r == [] <==> s == []
  {
    if k == 0 then s else Say(Iterate(s, k - 1))
  }

  /** Every run of an ASCII text has an ASCII character. */
  lemma {:induction false} ExpandAscii(runs: seq<Run>)
    requires WellGrouped(runs) && IsAscii(Expand(runs))
    ensures forall i :: 0 <= i < |runs| ==> runs[i].c as int < 0x80
  {
    if runs != [] {
      var init, last := runs[..|runs| - 1], runs[|runs| - 1];
      var e := Expand(init);
      assert Expand(runs) == e + Repeat(last.c, last.count);
      assert IsAscii(e) by {
        forall k | 0 <= k < |e| ensures e[k] as int < 0x80 {
          assert e[k] == Expand(runs)[k];
        }
      }
      assert WellGrouped(init) by {
        forall i | 0 < i < |init| ensures NewCharAt(init, i) {
          assert NewCharAt(runs, i);
        }
      }
      ExpandAscii(init);
      assert Repeat(last.c, last.count)[last.count - 1] == last.c;
      assert Expand(runs)[|e| + last.count - 1] == last.c;
    }
  }

  /** Runs of ASCII characters are written as ASCII text. */
  lemma {:induction false} EmitAscii(runs: seq<Run>)
    requires forall i :: 0 <= i < |runs| ==> runs[i].c as int < 0x80
    ensures IsAscii(Emit(runs))
  {
    if runs != [] {
      var init, last := runs[..|runs| - 1], runs[|runs| - 1];
      EmitAscii(init);
      var e, d := Emit(init), DecimalString(last.count);
      assert Emit(runs) == e + d + [last.c];
      forall k | 0 <= k < |Emit(runs)| ensures Emit(runs)[k] as int < 0x80 {
        if k < |e| {
          assert Emit(runs)[k] == e[k];
        } else if k < |e| + |d| {
          assert Emit(runs)[k] == d[k - |e|];
          assert IsDigit(d[k - |e|]);
        }
      }
    }
  }

  /** A step keeps ASCII text ASCII: it writes only digits and the
      characters it read. */
  lemma SayAscii(s: string)
    requires IsAscii(s)
    ensures IsAscii(Say(s))
  {
    ExpandAscii(Runs(s));
    EmitAscii(Runs(s));
  }

  /** Every step from ASCII text is ASCII text. */
  lemma {:induction false} IterateAscii(s: string, k: nat)
    requires IsAscii(s)
    ensures IsAscii(Iterate(s, k))
  {
    if k > 0 {
      IterateAscii(s, k - 1);
      SayAscii(Iterate(s, k - 1));
    }
  }

  // ---------------------------------------------------------------------
  // The generator.

  /** `LookAndSay`: the latest string of the sequence. */
  class LookAndSay {
    var value: string

    constructor (value: string)
      ensures this.value == value
    {
      this.value := value;
    }

    /** The closure of the grouping fold: pop the last group, then push it
        back extended by `c`, or push it back and a new group after it. */
    static method Push(groups: seq<Run>, c: char) returns (next: seq<Run>)
      ensures next == Absorb(groups, c)
    {
      next := groups;
      if |next| == 0 {
        next := next + [Run(c, 1)];
      } else {
        var last := next[|next| - 1];
        next := next[..|next| - 1];
        if last.c == c {
          next := next + [Run(c, last.count + 1)];
        } else {
          next := next + [last, Run(c, 1)];
          assert next == groups + [Run(c, 1)];
        }
      }
    }

    /** The grouping fold, character by character. */
    static method Group(s: string) returns (groups: seq<Run>)
      ensures groups == Runs(s)
    {
      groups := [];
      for i := 0 to |s|
        invariant groups == Runs(s[..i])
      {
        groups := Push(groups, s[i]);
        RunsPrefix(s, i);
      }
      assert s[..|s|] == s;
    }

    /** `Iterator::next`: one step, kept as the new value and returned. */
    method Next() returns (n: string)
      modifies this
      ensures n == Say(old(value)) && value == n
    {
      var groups := Group(value);
      n := Emit(groups);
      value := n;
    }

    /** `nth(k)`: take `k + 1` steps and return the last one. */
    method Nth(k: nat) returns (r: Option<string>)
      modifies this
      ensures value == Iterate(old(value), k + 1) && r == Some(value)
    {
      ghost var start := value;
      var n := Next();
      var i := 0;
      while i < k
        invariant i <= k && value == Iterate(start, i + 1) && n == value
      {
        n := Next();
        i := i + 1;
      }
      r := Some(n);
    }
  }

  /** `part_one`: the length in bytes after forty steps. */
  method PartOne(input: string) returns (r: Option<nat>)
    ensures r == Some(Utf8Length(Iterate(input, 40)))
    ensures IsAscii(input) ==> r == Some(|Iterate(input, 40)|)
  {
    var look := new LookAndSay(input);
    var v := look.Nth(39);
    r := Some(Utf8Length(v.value));
    if IsAscii(input) {
      IterateAscii(input, 40);
      AsciiLength(Iterate(input, 40));
    }
  }

  /** `part_two`: the length in bytes after fifty steps. */
  method PartTwo(input: string) returns (r: Option<nat>)
    ensures r == Some(Utf8Length(Iterate(input, 50)))
    ensures IsAscii(input) ==> r == Some(|Iterate(input, 50)|)
  {
    var look := new LookAndSay(input);
    var v := look.Nth(49);
    r := Some(Utf8Length(v.value));
    if IsAscii(input) {
      IterateAscii(input, 50);
      AsciiLength(Iterate(input, 50));
    }
  }

  // ---------------------------------------------------------------------
  // The sequence from "1".

  /** A string said through runs chosen by hand. */
  lemma SayBy(s: string, runs: seq<Run>)
    requires WellGrouped(runs) && Expand(runs) == s
    ensures Say(s) == Emit(runs)
  {
    RunsOnly(runs, s);
  }

  lemma ExpandSnoc(runs: seq<Run>, r: Run)
    ensures Expand(runs + [r]) == Expand(runs) + Repeat(r.c, r.count)
  {
    assert (runs + [r])[..|runs|] == runs;
  }

  lemma EmitSnoc(runs: seq<Run>, r: Run)
    ensures Emit(runs + [r]) == Emit(runs) + DecimalString(r.count) + [r.c]
  {
    assert (runs + [r])[..|runs|] == runs;
  }

  lemma SmallDecimals()
    ensures DecimalString(1) == "1" && DecimalString(2) == "2" && DecimalString(3) == "3"
  {
  }

  lemma SayOne()
    ensures Say("1") == "11"
  {
    var r1 := Run('1', 1);
    ExpandSnoc([], r1);
    EmitSnoc([], r1);
    assert Repeat('1', 1) == "1";
    SmallDecimals();
    assert [] + [r1] == [r1];
    SayBy("1", [r1]);
  }

  lemma SayOneOne()
    ensures Say("11") == "21"
  {
    var r1 := Run('1', 2);
    ExpandSnoc([], r1);
    EmitSnoc([], r1);
    assert Repeat('1', 2) == "11";
    SmallDecimals();
    assert [] + [r1] == [r1];
    SayBy("11", [r1]);
  }

  lemma SayTwoOne()
    ensures Say("21") == "1211"
  {
    var r1, r2 := Run('2', 1), Run('1', 1);
    ExpandSnoc([], r1);
    EmitSnoc([], r1);
    ExpandSnoc([r1], r2);
    EmitSnoc([r1], r2);
    assert Repeat('2', 1) == "2" && Repeat('1', 1) == "1";
    SmallDecimals();
    assert [] + [r1] == [r1];
    assert [r1] + [r2] == [r1, r2];
    SayBy("21", [r1, r2]);
  }

  lemma SayOneTwoOneOne()
    ensures Say("1211") == "111221"
  {
    var r1, r2, r3 := Run('1', 1), Run('2', 1), Run('1', 2);
    assert [r1, r2] == [r1] + [r2] && [r1, r2, r3] == [r1, r2] + [r3] && [r1] == [] + [r1];
    assert Expand([r1, r2, r3]) == "1211" by {
      ExpandSnoc([], r1);
      ExpandSnoc([r1], r2);
      ExpandSnoc([r1, r2], r3);
      assert Repeat('1', 1) == "1" && Repeat('2', 1) == "2" && Repeat('1', 2) == "11";
    }
    assert Emit([r1, r2, r3]) == "111221" by {
      EmitSnoc([], r1);
      EmitSnoc([r1], r2);
      EmitSnoc([r1, r2], r3);
      SmallDecimals();
    }
    SayBy("1211", [r1, r2, r3]);
  }

  lemma SayThreeOnes()
    ensures Say("111221") == "312211"
  {
    var r1, r2, r3 := Run('1', 3), Run('2', 2), Run('1', 1);
    assert [r1, r2] == [r1] + [r2] && [r1, r2, r3] == [r1, r2] + [r3] && [r1] == [] + [r1];
    assert Expand([r1, r2, r3]) == "111221" by {
      ExpandSnoc([], r1);
      ExpandSnoc([r1], r2);
      ExpandSnoc([r1, r2], r3);
      assert Repeat('1', 3) == "111" && Repeat('2', 2) == "22" && Repeat('1', 1) == "1";
    }
    assert Emit([r1, r2, r3]) == "312211" by {
      EmitSnoc([], r1);
      EmitSnoc([r1], r2);
      EmitSnoc([r1, r2], r3);
      SmallDecimals();
    }
    SayBy("111221", [r1, r2, r3]);
  }

  /** The first five steps from "1". */
  lemma FromOne()
    ensures Iterate("1", 1) == "11" && Iterate("1", 2) == "21"
    ensures Iterate("1", 3) == "1211" && Iterate("1", 4) == "111221"
    ensures Iterate("1", 5) == "312211"
  {
    SayOne();
    SayOneOne();
    SayTwoOne();
    SayOneTwoOneOne();
    SayThreeOnes();
  }

  /** The empty string says nothing, however often. */
  lemma {:induction false} FromEmpty(k: nat)
    ensures Iterate("", k) == ""
  {
    if k > 0 {
      FromEmpty(k - 1);
    }
  }
}
