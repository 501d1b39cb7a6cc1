/**
 * The handful of Rust `str` operations the solvers' parsers rely on:
 * `find`/`contains`, `split_once`, `split`, `strip_prefix`, `strip_suffix`,
 * `lines`, `split_whitespace` and `trim` (on Unicode White_Space),
 * `char_indices` and `len` (in UTF-8 bytes), and `parse` for the integer
 * types, plus `to_string` on unsigned integers.
 */
module Text {
  import opened Wrappers

  /** `p` occurs in `s` starting at position `k`. */
  predicate OccursAt(s: string, p: string, k: nat) {
    k + |p| <= |s| && s[k..k + |p|] == p
  }

  /** Position of the first occurrence of `p` in `s` at or after `from`. */
  function FindFrom(s: string, p: string, from: nat): (r: Option<nat>)
    requires from <= |s|
    ensures r.Some? ==> from <= r.value && OccursAt(s, p, r.value)
    ensures r.Some? ==> forall k: nat :: from <= k < r.value ==> !OccursAt(s, p, k)
    ensures r.None? ==> forall k: nat :: from <= k ==> !OccursAt(s, p, k)
    decreases |s| - from
  {
    if from + |p| > |s| then None
    else if s[from..from + |p|] == p then Some(from)
    else FindFrom(s, p, from + 1)
  }

  /** `str::find`: the position of the first occurrence of `p` in `s`. */
  function Find(s: string, p: string): (r: Option<nat>)
    ensures r.Some? ==> OccursAt(s, p, r.value)
    ensures r.Some? ==> forall k: nat :: k < r.value ==> !OccursAt(s, p, k)
    ensures r.None? ==> forall k: nat :: !OccursAt(s, p, k)
  {
    FindFrom(s, p, 0)
  }

  predicate Contains(s: string, p: string) {
    Find(s, p).Some?
  }

  lemma ContainsIff(s: string, p: string)
    ensures Contains(s, p) <==> exists k: nat :: OccursAt(s, p, k)
  {
  }

  /** `split_once`: the text before and after the first occurrence of `sep`. */
  function SplitOnce(s: string, sep: string): (r: Option<(string, string)>)
    ensures r.Some? <==> Contains(s, sep)
    ensures r.Some? ==> s == r.value.0 + sep + r.value.1
    ensures r.Some? ==> forall k: nat :: k < |r.value.0| ==> !OccursAt(s, sep, k)
  {
    match Find(s, sep)
    case None => None
    case Some(k) =>
      var before, after := s[..k], s[k + |sep|..];
      assert s == before + sep + after by {
        assert s == s[..k] + s[k..k + |sep|] + s[k + |sep|..];
      }
      Some((before, after))
  }

  predicate StartsWith(s: string, p: string) {
    |p| <= |s| && s[..|p|] == p
  }

  function StripPrefix(s: string, p: string): (r: Option<string>)
    ensures r.Some? <==> StartsWith(s, p)
    ensures r.Some? ==> s == p + r.value
  {
    if StartsWith(s, p) then Some(s[|p|..]) else None
  }

  function StripSuffix(s: string, p: string): (r: Option<string>)
    ensures r.Some? <==> |p| <= |s| && s[|s| - |p|..] == p
    ensures r.Some? ==> s == r.value + p
  {
    if |p| <= |s| && s[|s| - |p|..] == p then Some(s[..|s| - |p|]) else None
  }

  /** `split` on a non-empty separator: every piece, in order, empty ones included. */
  function Split(s: string, sep: string): (r: seq<string>)
    requires sep != []
    ensures |r| >= 1
    ensures |r| == 1 <==> !Contains(s, sep)
    decreases |s|
  {
    match SplitOnce(s, sep)
    case None => [s]
    case Some((before, after)) => [before] + Split(after, sep)
  }

  /** `split` on a set of separator characters. */
  function SplitAny(s: string, seps: set<char>): (r: seq<string>)
    ensures |r| >= 1
    ensures forall i, k :: 0 <= i < |r| && 0 <= k < |r[i]| ==> r[i][k] !in seps
  {
    if s == [] then [[]]
    else
      var rest := SplitAny(s[1..], seps);
      if s[0] in seps then [[]] + rest
      else [[s[0]] + rest[0]] + rest[1..]
  }

  /** Position of the first `c` in `s`. */
  function IndexOf(s: string, c: char): (r: Option<nat>)
    ensures r.Some? ==> r.value < |s| && s[r.value] == c
    ensures r.Some? ==> forall k :: 0 <= k < r.value ==> s[k] != c
    ensures r.None? ==> forall k :: 0 <= k < |s| ==> s[k] != c
  {
    if s == [] then None
    else if s[0] == c then Some(0)
    else match IndexOf(s[1..], c)
      case None => None
      case Some(k) => Some(k + 1)
  }

  /** `lines`: split at each `\n`, drop a `\r` just before it, and produce no
      line after a final `\n`. */
  function Lines(s: string): (r: seq<string>)
    ensures forall i, k :: 0 <= i < |r| && 0 <= k < |r[i]| ==> r[i][k] != '\n'
    ensures s == [] <==> r == []
    decreases |s|
  {
    if s == [] then []
    else
      match IndexOf(s, '\n')
      case None => [s]
      case Some(k) => [StripCarriageReturn(s[..k])] + Lines(s[k + 1..])
  }

  function StripCarriageReturn(line: string): string {
    if |line| > 0 && line[|line| - 1] == '\r' then line[..|line| - 1] else line
  }

  /** `char::is_whitespace`: the Unicode White_Space property, that is tab,
      line feed, vertical tab, form feed, carriage return, space, next line,
      no-break space, ogham space mark, the spaces U+2000 to U+200A, line and
      paragraph separators, narrow no-break space, medium mathematical space
      and ideographic space. */
  predicate IsWhitespace(c: char) {
    ('\t' <= c <= '\r') || c == ' ' || c == '\U{85}' || c == '\U{A0}' || c == '\U{1680}'
    || ('\U{2000}' <= c <= '\U{200A}') || c == '\U{2028}' || c == '\U{2029}'
    || c == '\U{202F}' || c == '\U{205F}' || c == '\U{3000}'
  }

  /** `split_whitespace`: the maximal runs of non-whitespace characters. */
  function SplitWhitespace(s: string): (r: seq<string>)
    ensures forall i :: 0 <= i < |r| ==> r[i] != []
    ensures forall i, k :: 0 <= i < |r| && 0 <= k < |r[i]| ==> !IsWhitespace(r[i][k])
  {
    if s == [] then []
    else
      var rest := SplitWhitespace(s[1..]);
      if IsWhitespace(s[0]) then rest
      else if |s| > 1 && !IsWhitespace(s[1]) then [[s[0]] + rest[0]] + rest[1..]
      else [[s[0]]] + rest
  }

  predicate IsDigit(c: char) {
    '0' <= c <= '9'
  }

  predicate AllDigits(s: string) {
    forall i :: 0 <= i < |s| ==> IsDigit(s[i])
  }

  /** The value of a string of decimal digits, most significant first. */
  function DigitsValue(s: string): nat
    requires AllDigits(s)
  {
    if s == [] then 0 else DigitsValue(s[..|s| - 1]) * 10 + (s[|s| - 1] as int - '0' as int)
  }

  /** The digits accepted by Rust's unsigned and signed `parse`: at least one
      ASCII digit, nothing else. */
  function ParseDigits(s: string): Option<nat> {
    if s != [] && AllDigits(s) then Some(DigitsValue(s)) else None
  }

  /** `parse` for an unsigned type whose values lie below `bound`: an optional
      '+', then digits, and the value must fit. */
  function ParseUnsigned(s: string, bound: nat): (r: Option<nat>)
    ensures r.Some? ==> r.value < bound
  {
    var digits := if |s| > 0 && s[0] == '+' then s[1..] else s;
    match ParseDigits(digits)
    case Some(n) => if n < bound then Some(n) else None
    case None => None
  }

  /** `parse` for a signed type whose values lie in [-bound, bound). */
  function ParseSigned(s: string, bound: nat): (r: Option<int>)
    requires bound > 0
    ensures r.Some? ==> -(bound as int) <= r.value < bound
  {
    if |s| > 0 && s[0] == '-' then
      match ParseDigits(s[1..])
      case Some(n) => if n <= bound then Some(-(n as int)) else None
      case None => None
    else
      var digits := if |s| > 0 && s[0] == '+' then s[1..] else s;
      match ParseDigits(digits)
      case Some(n) => if n < bound then Some(n) else None
      case None => None
  }

  const U16_BOUND: nat := 0x1_0000
  const U32_BOUND: nat := 0x1_0000_0000
  const USIZE_BOUND: nat := 0x1_0000_0000_0000_0000
  const I32_BOUND: nat := 0x8000_0000

  /** `to_string` of an unsigned integer: its decimal digits without leading zeros. */
  function DecimalString(n: nat): (r: string)
    ensures r != [] && AllDigits(r)
    ensures (r[0] == '0') <==> n == 0
  {
    if n < 10 then ['0' + n as char]
    else DecimalString(n / 10) + ['0' + (n % 10) as char]
  }

  lemma {:induction false} DecimalStringValue(n: nat)
    ensures DigitsValue(DecimalString(n)) == n
  {
    if n >= 10 {
      DecimalStringValue(n / 10);
      var s := DecimalString(n);
      assert s[..|s| - 1] == DecimalString(n / 10);
    }
  }

  /** Parsing the decimal text of a value below the bound gives the value back. */
  lemma DecimalStringParses(n: nat, bound: nat)
    requires n < bound
    ensures ParseUnsigned(DecimalString(n), bound) == Some(n)
  {
    DecimalStringValue(n);
  }

  /** A string with a character that is neither a digit nor a sign does not parse. */
  lemma NonNumericDoesNotParse(s: string, k: nat, bound: nat)
    requires k < |s| && !IsDigit(s[k]) && s[k] != '+' && s[k] != '-'
    requires bound > 0
    ensures ParseUnsigned(s, bound) == None
    ensures ParseSigned(s, bound) == None
  {
    if |s| > 0 && (s[0] == '+' || s[0] == '-') {
      assert !IsDigit(s[1..][k - 1]);
    } else {
      assert !IsDigit(s[k]);
    }
  }

  /** A line without a line break, followed by "\n", is the first line. */
  lemma LinesCons(line: string, rest: string)
    requires forall k :: 0 <= k < |line| ==> line[k] != '\n'
    requires line == [] || line[|line| - 1] != '\r'
    ensures Lines(line + "\n" + rest) == [line] + Lines(rest)
  {
    var s := line + "\n" + rest;
    assert s[..|line|] == line;
    assert s[|line| + 1..] == rest;
    assert s[|line|] == '\n';
    assert forall k :: 0 <= k < |line| ==> s[k] == line[k];
    assert IndexOf(s, '\n') == Some(|line|);
  }

  /** Text without a line break is one line. */
  lemma SingleLine(line: string)
    requires line != [] && forall k :: 0 <= k < |line| ==> line[k] != '\n'
    ensures Lines(line) == [line]
  {
  }

  /** A line as `lines` yields it: no line break, no carriage return at the end. */
  predicate IsLine(line: string) {
    && (forall k :: 0 <= k < |line| ==> line[k] != '\n')
    && (line == [] || line[|line| - 1] != '\r')
  }

  /** The lines joined with "\n" between them. */
  function JoinLines(lines: seq<string>): string {
    if |lines| <= 1 then (if lines == [] then [] else lines[0])
    else lines[0] + "\n" + JoinLines(lines[1..])
  }

  /** `lines` takes joined lines apart again, as long as the last one is not empty. */
  lemma {:induction false} LinesOfJoin(lines: seq<string>)
    requires forall i :: 0 <= i < |lines| ==> IsLine(lines[i])
    requires lines == [] || lines[|lines| - 1] != []
    ensures Lines(JoinLines(lines)) == lines
  {
    if |lines| == 1 {
      assert IsLine(lines[0]);
      SingleLine(lines[0]);
    } else if |lines| > 1 {
      var first, rest := lines[0], lines[1..];
      assert IsLine(first);
      assert forall i :: 0 <= i < |rest| ==> rest[i] == lines[i + 1];
      LinesCons(first, JoinLines(rest));
      LinesOfJoin(rest);
      assert JoinLines(lines) == first + "\n" + JoinLines(rest);
      assert lines == [first] + rest;
    }
  }

  /** Every character of `s` from `lo` up to `hi` is white space. */
  predicate SpaceBetween(s: string, lo: int, hi: int) {
    forall k :: 0 <= lo <= k < hi <= |s| ==> IsWhitespace(s[k])
  }

  /** The number of whitespace characters `s` starts with. */
  function LeadingSpace(s: string): (n: nat)
    ensures n <= |s| && SpaceBetween(s, 0, n)
    ensures n < |s| ==> !IsWhitespace(s[n])
  {
    if s != [] && IsWhitespace(s[0]) then
      var n := LeadingSpace(s[1..]);
      assert forall k :: 1 <= k < n + 1 ==> s[k] == s[1..][k - 1];
      n + 1
    else 0
  }

  /** The number of whitespace characters `s` ends with. */
  function TrailingSpace(s: string): (n: nat)
    ensures n <= |s| && SpaceBetween(s, |s| - n, |s|)
    ensures n < |s| ==> !IsWhitespace(s[|s| - n - 1])
  {
    if s != [] && IsWhitespace(s[|s| - 1]) then
      var init := s[..|s| - 1];
      var n := TrailingSpace(init);
      assert forall k :: |s| - n - 1 <= k < |s| - 1 ==> s[k] == init[k];
      n + 1
    else 0
  }

  /** `trim`: drop leading and trailing whitespace, and nothing else. */
  function Trim(s: string): (r: string)
    ensures LeadingSpace(s) + |r| <= |s| && r == s[LeadingSpace(s)..LeadingSpace(s) + |r|]
    ensures SpaceBetween(s, 0, LeadingSpace(s)) && SpaceBetween(s, LeadingSpace(s) + |r|, |s|)
    ensures r == [] || (!IsWhitespace(r[0]) && !IsWhitespace(r[|r| - 1]))
  {
    var i := LeadingSpace(s);
    var rest := s[i..];
    var t := TrailingSpace(rest);
    var r := rest[..|rest| - t];
    assert SpaceBetween(s, i + |r|, |s|) by {
      forall k | i + |r| <= k < |s| ensures IsWhitespace(s[k]) {
        assert s[k] == rest[k - i];
      }
    }
    assert r != [] ==> !IsWhitespace(r[0]) && !IsWhitespace(r[|r| - 1]) by {
      if r != [] {
        assert r[0] == s[i];
        assert r[|r| - 1] == rest[|rest| - t - 1];
      }
    }
    r
  }

  /** A string without the first character of `sep` does not contain `sep`. */
  lemma LacksLead(s: string, sep: string)
    requires sep != [] && forall k :: 0 <= k < |s| ==> s[k] != sep[0]
    ensures !Contains(s, sep)
  {
    ContainsIff(s, sep);
    forall k: nat | k + |sep| <= |s|
      ensures !OccursAt(s, sep, k)
    {
      assert s[k..k + |sep|][0] == s[k];
    }
  }

  /** `split_once` stops right after a prefix without the first character of `sep`. */
  lemma SplitOnceAfter(a: string, sep: string, b: string)
    requires sep != [] && forall k :: 0 <= k < |a| ==> a[k] != sep[0]
    ensures SplitOnce(a + sep + b, sep) == Some((a, b))
  {
    var s := a + sep + b;
    assert OccursAt(s, sep, |a|) by {
      assert s[|a|..|a| + |sep|] == sep;
    }
    var r := SplitOnce(s, sep);
    var n := |r.value.0|;
    assert s[n] == sep[0] by {
      assert s == r.value.0 + sep + r.value.1;
    }
    assert r.value.0 == s[..n] == a;
    assert r.value.1 == s[n + |sep|..] == b;
  }

  /** `split` of two pieces, neither holding the first character of `sep`. */
  lemma SplitTwo(a: string, sep: string, b: string)
    requires sep != [] && forall k :: 0 <= k < |a| ==> a[k] != sep[0]
    requires forall k :: 0 <= k < |b| ==> b[k] != sep[0]
    ensures Split(a + sep + b, sep) == [a, b]
  {
    SplitOnceAfter(a, sep, b);
    LacksLead(b, sep);
  }

  /** `split_once` stops right after a prefix without the second character
      of `sep`, when that character differs from the first. */
  lemma SplitOnceAfterSecond(a: string, sep: string, b: string)
    requires |sep| >= 2 && sep[0] != sep[1]
    requires forall k :: 0 <= k < |a| ==> a[k] != sep[1]
    ensures SplitOnce(a + sep + b, sep) == Some((a, b))
  {
    var s := a + sep + b;
    assert OccursAt(s, sep, |a|) by {
      assert s[|a|..|a| + |sep|] == sep;
    }
    var r := SplitOnce(s, sep);
    var n := |r.value.0|;
    assert s[n + 1] == sep[1] by {
      assert s == r.value.0 + sep + r.value.1;
    }
    assert r.value.0 == s[..n] == a;
    assert r.value.1 == s[n + |sep|..] == b;
  }

  /** `split_once` stops right after a prefix in which `sep` does not start. */
  lemma SplitOnceFirst(a: string, sep: string, b: string)
    requires forall k: nat :: k < |a| ==> !OccursAt(a + sep + b, sep, k)
    ensures SplitOnce(a + sep + b, sep) == Some((a, b))
  {
    var s := a + sep + b;
    assert OccursAt(s, sep, |a|) by {
      assert s[|a|..|a| + |sep|] == sep;
    }
    var r := SplitOnce(s, sep);
    var n := |r.value.0|;
    assert OccursAt(s, sep, n) by {
      assert s == r.value.0 + sep + r.value.1;
      assert s[n..n + |sep|] == sep;
    }
    assert n == |a|;
    assert r.value.0 == s[..n] == a;
    assert r.value.1 == s[n + |sep|..] == b;
  }

  /** The UTF-8 length of a character. */
  function Utf8Width(c: char): (r: nat)
    ensures 1 <= r <= 4 && (r == 1 <==> c as int < 0x80)
  {
    if c as int < 0x80 then 1
    else if c as int < 0x800 then 2
    else if c as int < 0x1_0000 then 3
    else 4
  }

  /** `char_indices`, counting from byte offset `offset`: each character
      with the byte offset it starts at. */
  function CharIndices(s: string, offset: nat): (r: seq<(nat, char)>)
    ensures |r| == |s|
    ensures forall k :: 0 <= k < |s| ==> r[k].1 == s[k]
  {
    if s == [] then [] else [(offset, s[0])] + CharIndices(s[1..], offset + Utf8Width(s[0]))
  }

  /** `str::len`: the number of UTF-8 bytes of `s`. */
  function Utf8Length(s: string): (n: nat)
    ensures |s| <= n <= 4 * |s|
  {
    if s == [] then 0 else Utf8Width(s[0]) + Utf8Length(s[1..])
  }

  /** Every character is one UTF-8 byte. */
  predicate IsAscii(s: string) {
    forall k :: 0 <= k < |s| ==> s[k] as int < 0x80
  }

  lemma {:induction false} AsciiOffsets(s: string, offset: nat)
    requires IsAscii(s)
    ensures forall k :: 0 <= k < |s| ==> CharIndices(s, offset)[k].0 == offset + k
  {
    if s != [] {
      AsciiOffsets(s[1..], offset + 1);
      assert Utf8Width(s[0]) == 1;
      forall k | 0 < k < |s|
        ensures CharIndices(s, offset)[k].0 == offset + k
      {
        assert CharIndices(s, offset)[k] == CharIndices(s[1..], offset + 1)[k - 1];
      }
    }
  }

  /** On ASCII text, bytes and characters are counted alike. */
  lemma {:induction false} AsciiLength(s: string)
    requires IsAscii(s)
    ensures Utf8Length(s) == |s|
  {
    if s != [] {
      assert IsAscii(s[1..]) by {
        forall k | 0 <= k < |s[1..]| ensures s[1..][k] as int < 0x80 {
          assert s[1..][k] == s[k + 1];
        }
      }
      AsciiLength(s[1..]);
    }
  }

  /** A word without whitespace, followed by nothing or by whitespace, is
      the first piece of `split_whitespace`. */
  lemma {:induction false} WordThen(w: string, rest: string)
    requires w != [] && forall k :: 0 <= k < |w| ==> !IsWhitespace(w[k])
    requires rest == [] || IsWhitespace(rest[0])
    ensures SplitWhitespace(w + rest) == [w] + SplitWhitespace(rest)
  {
    var s := w + rest;
    assert s[1..] == w[1..] + rest;
    if |w| > 1 {
      WordThen(w[1..], rest);
      assert s[1] == w[1];
      assert [w[0]] + w[1..] == w;
    } else {
      assert w == [s[0]];
      assert |s| > 1 ==> s[1] == rest[0];
    }
  }

  /** Two words with whitespace between them split into those two words. */
  lemma WordsSplit(a: string, b: string)
    requires a != [] && forall k :: 0 <= k < |a| ==> !IsWhitespace(a[k])
    requires b != [] && forall k :: 0 <= k < |b| ==> !IsWhitespace(b[k])
    ensures SplitWhitespace(a + " " + b) == [a, b]
  {
    WordThen(a, " " + b);
    assert (" " + b)[1..] == b;
    WordThen(b, []);
    assert b + [] == b;
    assert a + " " + b == a + (" " + b);
  }
}
