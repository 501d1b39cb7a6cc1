/**
 * The string-literal lengths of src/bin/08.rs.
 *
 * Each input line is a double-quoted literal in which `\\` and `\"` stand
 * for one character and `\x` followed by two hexadecimal digits stands for
 * one character. Part one adds up, over all lines, how many more characters
 * the literal takes in code than the string it denotes; part two adds up
 * how many more characters each line takes once it is itself quoted and
 * escaped.
 */
module Escapes {
  import opened Wrappers
  import opened Text
  import opened Sums

  // ---------------------------------------------------------------------
  // Part one: the window fold.

  /** The fold's accumulator: the running sum and how many windows are still
      to be skipped. */
  datatype Acc = Acc(sum: nat, skip: nat)

  /** One step of the fold over the window `(a, b)`. */
  function Step(acc: Acc, a: char, b: char): (r: Acc)
    ensures r.sum >= acc.sum
  {
    if acc.skip > 0 then Acc(acc.sum, acc.skip - 1)
    else if a == '\\' then
      if b == 'x' then Acc(acc.sum + 3, 3) else Acc(acc.sum + 1, 1)
    else Acc(acc.sum, 0)
  }

  /** The fold of `Step` over the windows of two neighbouring characters of
      `w`, from the left; it never lowers the sum. */
  function FoldWindows(w: string, acc: Acc): (r: Acc)
    ensures r.sum >= acc.sum
    decreases |w|
  {
    if |w| < 2 then acc else FoldWindows(w[1..], Step(acc, w[0], w[1]))
  }

  /** The per-line value of `part_one`: the fold from `(2, 0)` over the windows
      of the line without its first character. */
  function LineOverhead(line: string): (r: nat)
    ensures r >= 2
  {
    FoldWindows(if line == [] then [] else line[1..], Acc(2, 0)).sum
  }

  predicate HasBackslash(s: string) {
    exists i :: 0 <= i < |s| && s[i] == '\\'
  }

  /** Without a backslash the fold only ever keeps its sum. */
  lemma {:induction false} FoldWithoutBackslash(w: string, acc: Acc)
    requires !HasBackslash(w)
    ensures FoldWindows(w, acc).sum == acc.sum
    decreases |w|
  {
    if |w| >= 2 {
      assert !HasBackslash(w[1..]) by {
        forall i | 0 <= i < |w[1..]| ensures w[1..][i] != '\\' {
          assert w[1..][i] == w[i + 1];
        }
      }
      FoldWithoutBackslash(w[1..], Step(acc, w[0], w[1]));
    }
  }

  /** A line without a backslash is two characters longer in code than in
      memory: its quotes. */
  lemma NoBackslashLine(line: string)
    requires !HasBackslash(line)
    ensures LineOverhead(line) == 2
  {
    if line != [] {
      assert !HasBackslash(line[1..]) by {
        forall i | 0 <= i < |line[1..]| ensures line[1..][i] != '\\' {
          assert line[1..][i] == line[i + 1];
        }
      }
      FoldWithoutBackslash(line[1..], Acc(2, 0));
    }
  }

  /** Skipping `k` windows is carrying on from the `k`-th character. */
  lemma {:induction false} SkipWindows(w: string, sum: nat, k: nat)
    requires k < |w|
    ensures FoldWindows(w, Acc(sum, k)) == FoldWindows(w[k..], Acc(sum, 0))
  {
    if k > 0 {
      SkipWindows(w[1..], sum, k - 1);
      assert w[1..][k - 1..] == w[k..];
    }
  }

  // ---------------------------------------------------------------------
  // What a literal denotes.

  function HexDigit(c: char): nat {
    if '0' <= c <= '9' then c as nat - '0' as nat
    else if 'a' <= c <= 'f' then c as nat - 'a' as nat + 10
    else if 'A' <= c <= 'F' then c as nat - 'A' as nat + 10
    else 0
  }

  /** The character `\x` followed by the two digits `h` and `l` stands for. */
  function HexChar(h: char, l: char): char {
    var code := 16 * HexDigit(h) + HexDigit(l);
    if code < 256 then code as char else 0 as char
  }

  /** Every backslash of a literal's body starts a complete escape: `\x` and
      two more characters, or a backslash and one more character. */
  predicate WellFormed(body: string)
    decreases |body|
  {
    if body == [] then true
    else if body[0] != '\\' then WellFormed(body[1..])
    else if |body| < 2 then false
    else if body[1] == 'x' then |body| >= 4 && WellFormed(body[4..])
    else WellFormed(body[2..])
  }

  /** The string a well-formed body stands for. */
  function Unescape(body: string): (r: string)
    requires WellFormed(body)
    ensures |r| <= |body|
    decreases |body|
  {
    if body == [] then []
    else if body[0] != '\\' then [body[0]] + Unescape(body[1..])
    else if body[1] == 'x' then [HexChar(body[2], body[3])] + Unescape(body[4..])
    else [body[1]] + Unescape(body[2..])
  }

  /** On the quoted literal of a well-formed body, the fold counts the extra
      characters of the escapes: the body's length less what it stands for. */
  lemma {:induction false} FoldOverBody(body: string, sum: nat)
    requires WellFormed(body)
    ensures FoldWindows(body + "\"", Acc(sum, 0)).sum == sum + |body| - |Unescape(body)|
    decreases |body|
  {
    var w := body + "\"";
    if body == [] {
    } else if body[0] != '\\' {
      assert w[1..] == body[1..] + "\"";
      FoldOverBody(body[1..], sum);
    } else if body[1] == 'x' {
      assert w[1..][3..] == w[4..] == body[4..] + "\"";
      SkipWindows(w[1..], sum + 3, 3);
      FoldOverBody(body[4..], sum + 3);
    } else {
      assert w[1..][1..] == w[2..] == body[2..] + "\"";
      SkipWindows(w[1..], sum + 1, 1);
      FoldOverBody(body[2..], sum + 1);
    }
  }

  /** A quoted well-formed literal: part one's value is how much longer it is
      in code than the string it denotes. */
  lemma LiteralOverhead(body: string)
    requires WellFormed(body)
    ensures LineOverhead("\"" + body + "\"") == |"\"" + body + "\""| - |Unescape(body)|
  {
    var line := "\"" + body + "\"";
    assert line[1..] == body + "\"";
    FoldOverBody(body, 2);
  }

  // ---------------------------------------------------------------------
  // Part two: quoting a line again.

  /** A character as it is written inside a literal. */
  function EscapeChar(c: char): string {
    if c == '"' || c == '\\' then ['\\', c] else [c]
  }

  function EscapeBody(s: string): (r: string)
    ensures |r| >= |s|
  {
    if s == [] then [] else EscapeChar(s[0]) + EscapeBody(s[1..])
  }

  /** The literal that denotes `s`. */
  function Encode(s: string): string {
    "\"" + EscapeBody(s) + "\""
  }

  /** Escaping gives a well-formed body that stands for the original string. */
  lemma {:induction false} UnescapeEscape(s: string)
    ensures WellFormed(EscapeBody(s)) && Unescape(EscapeBody(s)) == s
  {
    if s != [] {
      UnescapeEscape(s[1..]);
      var e := EscapeBody(s);
      var rest := EscapeBody(s[1..]);
      if s[0] == '"' || s[0] == '\\' {
        assert e[2..] == rest;
      } else {
        assert e[1..] == rest;
      }
    }
  }

  /** The fold of `part_two`: add one for each `"` and each `\`. */
  function QuoteFold(s: string, sum: nat): (r: nat)
    ensures r >= sum
  {
    if s == [] then sum
    else QuoteFold(s[1..], sum + (if s[0] == '"' || s[0] == '\\' then 1 else 0))
  }

  /** The per-line value of `part_two`. */
  function QuotedOverhead(line: string): (r: nat)
    ensures r >= 2
  {
    QuoteFold(line, 2)
  }

  /** The fold adds one per character that escaping doubles. */
  lemma {:induction false} QuoteFoldEscapes(s: string, sum: nat)
    ensures QuoteFold(s, sum) == sum + |EscapeBody(s)| - |s|
  {
    if s != [] {
      QuoteFoldEscapes(s[1..], sum + (if s[0] == '"' || s[0] == '\\' then 1 else 0));
    }
  }

  /** The fold counts the quotes and the backslashes. */
  lemma {:induction false} QuoteFoldCounts(s: string, sum: nat)
    ensures QuoteFold(s, sum) == sum + multiset(s)['"'] + multiset(s)['\\']
  {
    if s != [] {
      QuoteFoldCounts(s[1..], sum + (if s[0] == '"' || s[0] == '\\' then 1 else 0));
      assert s == [s[0]] + s[1..];
      assert multiset(s) == multiset{s[0]} + multiset(s[1..]);
    }
  }

  /** Part two's value is 2 plus the number of quotes and backslashes, which
      is how much longer the line becomes when it is quoted and escaped. */
  lemma QuotedOverheadMeaning(line: string)
    ensures QuotedOverhead(line) == 2 + multiset(line)['"'] + multiset(line)['\\']
    ensures QuotedOverhead(line) == |Encode(line)| - |line|
  {
    QuoteFoldCounts(line, 2);
    QuoteFoldEscapes(line, 2);
  }

  /** Part one undoes part two: on the encoding of a line it measures exactly
      the characters that part two added. */
  lemma OverheadOfEncoding(line: string)
    ensures LineOverhead(Encode(line)) == QuotedOverhead(line)
  {
    UnescapeEscape(line);
    LiteralOverhead(EscapeBody(line));
    QuotedOverheadMeaning(line);
  }

  // ---------------------------------------------------------------------
  // The totals.

  /** The value of each line. */
  function Each(f: string -> nat, lines: seq<string>): (r: seq<int>)
    ensures |r| == |lines| && forall i :: 0 <= i < |r| ==> r[i] == f(lines[i])
  {
    if lines == [] then [] else [f(lines[0])] + Each(f, lines[1..])
  }

  /** `part_one`: the sum of the per-line values over `lines()`. */
  function PartOne(input: string): (r: Option<int>)
    ensures r.Some? && r.value >= 2 * |Lines(input)|
  {
    SumAtLeastTwo(Each(LineOverhead, Lines(input)));
    Some(Sum(Each(LineOverhead, Lines(input))))
  }

  /** `part_two`: the sum of the per-line values over `lines()`. */
  function PartTwo(input: string): (r: Option<int>)
    ensures r.Some? && r.value >= 2 * |Lines(input)|
  {
    SumAtLeastTwo(Each(QuotedOverhead, Lines(input)));
    Some(Sum(Each(QuotedOverhead, Lines(input))))
  }

  /** A sum of values of at least two is at least twice their number. */
  lemma {:induction false} SumAtLeastTwo(xs: seq<int>)
    requires forall i :: 0 <= i < |xs| ==> xs[i] >= 2
    ensures Sum(xs) >= 2 * |xs|
  {
    if xs != [] {
      SumAtLeastTwo(xs[1..]);
    }
  }

  /** Part one over lines joined by line breaks is the sum over those lines. */
  lemma PartOneOfLines(lines: seq<string>)
    requires forall i :: 0 <= i < |lines| ==> IsLine(lines[i])
    requires lines == [] || lines[|lines| - 1] != []
    ensures PartOne(JoinLines(lines)) == Some(Sum(Each(LineOverhead, lines)))
    ensures PartTwo(JoinLines(lines)) == Some(Sum(Each(QuotedOverhead, lines)))
  {
    LinesOfJoin(lines);
  }

  /** Input without backslashes scores two per line in part one. */
  lemma {:induction false} PlainLines(lines: seq<string>)
    requires forall i :: 0 <= i < |lines| ==> !HasBackslash(lines[i])
    ensures Sum(Each(LineOverhead, lines)) == 2 * |lines|
  {
    if lines != [] {
      NoBackslashLine(lines[0]);
      PlainLines(lines[1..]);
    }
  }

  // ---------------------------------------------------------------------
  // The four literals of the puzzle's example.

  lemma EmptyLiteral()
    ensures LineOverhead("\"\"") == 2 && QuotedOverhead("\"\"") == 4
  {
    var line := "\"\"";
    assert line == "\"" + "" + "\"";
    assert WellFormed("");
    LiteralOverhead("");
    assert multiset(line) == multiset{'"', '"'};
    QuotedOverheadMeaning(line);
  }

  lemma EscapedQuoteLiteral()
    ensures LineOverhead("\"aaa\\\"aaa\"") == 3
  {
    var body := "aaa\\\"aaa";
    assert "\"aaa\\\"aaa\"" == "\"" + body + "\"";
    assert body[1..][1..][1..] == "\\\"aaa";
    assert "\\\"aaa"[2..] == "aaa";
    assert WellFormed("aaa");
    assert WellFormed(body);
    assert Unescape("aaa") == "aaa";
    assert Unescape(body) == "aaa\"aaa";
    LiteralOverhead(body);
  }

  lemma HexLiteral()
    ensures LineOverhead("\"\\x27\"") == 5
  {
    var body := "\\x27";
    assert "\"\\x27\"" == "\"" + body + "\"";
    assert body[4..] == "";
    assert WellFormed(body);
    assert |Unescape(body)| == 1;
    LiteralOverhead(body);
  }
}
