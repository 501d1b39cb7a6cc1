/**
 * The naughty-or-nice strings of src/bin/05.rs: two sets of rules over the
 * characters of a word, and answers that count the nice words of the input.
 */
module Nice {
  import opened Wrappers
  import opened Text

  // ---------------------------------------------------------------------
  // `windows(width).find(p)`.

  /** The window of `width` characters at position `i` satisfies `p`. */
  predicate WindowAt(s: string, width: nat, p: string -> bool, i: nat) {
    i + width <= |s| && p(s[i..i + width])
  }

  /** The position of the first window of `width` characters, at or after
      `from`, that satisfies `p`. */
  function FindWindow(s: string, width: nat, p: string -> bool, from: nat): (r: Option<nat>)
    requires width > 0
    ensures r.Some? ==> from <= r.value && WindowAt(s, width, p, r.value)
    ensures r.Some? ==> forall i :: from <= i < r.value ==> !WindowAt(s, width, p, i)
    ensures r.None? <==> forall i :: from <= i ==> !WindowAt(s, width, p, i)
    decreases |s| - from
  {
    if from + width > |s| then None
    else if p(s[from..from + width]) then
      assert WindowAt(s, width, p, from);
      Some(from)
    else FindWindow(s, width, p, from + 1)
  }

  /** Some window of `width` characters satisfies `p`. */
  predicate AnyWindow(s: string, width: nat, p: string -> bool)
    requires width > 0
  {
    FindWindow(s, width, p, 0).Some?
  }

  // ---------------------------------------------------------------------
  // Part one.

  predicate IsVowel(c: char) {
    c in "aeiou"
  }

  /** `filter(|c| "aeiou".contains(c)).count()`. */
  function VowelCount(s: string): (n: nat)
    ensures n == multiset(s)['a'] + multiset(s)['e'] + multiset(s)['i'] + multiset(s)['o'] + multiset(s)['u']
  {
    if s == [] then 0
    else
      assert s == [s[0]] + s[1..];
      (if IsVowel(s[0]) then 1 else 0) + VowelCount(s[1..])
  }

  /** A window of two equal characters. */
  predicate IsDouble(w: string) {
    |w| == 2 && w[0] == w[1]
  }

  /** A window holding one of the four forbidden pairs. */
  predicate IsBanned(w: string) {
    w in ["ab", "cd", "pq", "xy"]
  }

  /** Two equal characters side by side at position `i`. */
  predicate DoubleAt(s: string, i: nat) {
    i + 1 < |s| && s[i] == s[i + 1]
  }

  /** A forbidden pair at position `i`. */
  predicate BannedAt(s: string, i: nat) {
    i + 1 < |s| && s[i..i + 2] in ["ab", "cd", "pq", "xy"]
  }

  /** `is_nice_p1`. A word is nice under the first rules exactly when it has
      three vowels, a doubled letter and none of `ab`, `cd`, `pq`, `xy`. */
  predicate IsNiceP1(s: string): (nice: bool)
    ensures nice <==>
      && multiset(s)['a'] + multiset(s)['e'] + multiset(s)['i'] + multiset(s)['o'] + multiset(s)['u'] >= 3
      && (exists i: nat :: DoubleAt(s, i))
      && !(exists i: nat :: BannedAt(s, i))
  {
    PairWindows(s);
    && VowelCount(s) >= 3
    && AnyWindow(s, 2, IsDouble)
    && !AnyWindow(s, 2, IsBanned)
  }

  /** The two window searches of part one find a doubled letter or a
      forbidden pair exactly when the word has one. */
  lemma PairWindows(s: string)
    ensures AnyWindow(s, 2, IsDouble) <==> exists i: nat :: DoubleAt(s, i)
    ensures AnyWindow(s, 2, IsBanned) <==> exists i: nat :: BannedAt(s, i)
  {
    var d := FindWindow(s, 2, IsDouble, 0);
    if d.Some? {
      assert DoubleAt(s, d.value) by {
        assert s[d.value..d.value + 2][0] == s[d.value];
      }
    } else {
      forall i: nat | i + 1 < |s| ensures !DoubleAt(s, i) {
        assert !WindowAt(s, 2, IsDouble, i);
        assert s[i..i + 2][0] == s[i] && s[i..i + 2][1] == s[i + 1];
      }
    }
    var b := FindWindow(s, 2, IsBanned, 0);
    if b.None? {
      forall i: nat | i + 1 < |s| ensures !BannedAt(s, i) {
        assert !WindowAt(s, 2, IsBanned, i);
      }
    } else {
      assert BannedAt(s, b.value);
    }
  }

  // ---------------------------------------------------------------------
  // Part two.

  /** The closure of `is_nice_p2`'s search: the pair at `index` is a window
      of `chars[index + 2..]`. */
  predicate PairRecurs(s: string, index: nat)
    requires index + 2 <= |s|
  {
    AnyWindow(s[index + 2..], 2, w => w == s[index..index + 2])
  }

  /** The search of `is_nice_p2` over positions `index` in `0..len - 3` for
      a pair that appears again later without overlapping. */
  function FindRepeat(s: string, index: nat): (r: Option<nat>)
    requires |s| >= 3 && index <= |s| - 3
    ensures r.Some? ==> index <= r.value < |s| - 3 && PairRecurs(s, r.value)
    ensures r.None? ==> forall i :: index <= i < |s| - 3 ==> !PairRecurs(s, i)
    decreases |s| - index
  {
    if index == |s| - 3 then None
    else if PairRecurs(s, index) then Some(index)
    else FindRepeat(s, index + 1)
  }

  /** A window whose first and last characters agree. */
  predicate IsSandwich(w: string) {
    |w| == 3 && w[0] == w[2]
  }

  /** The pair at `i` appears again at `j`, without overlapping it. */
  predicate RepeatsAt(s: string, i: nat, j: nat) {
    i + 2 <= j && j + 2 <= |s| && s[j..j + 2] == s[i..i + 2]
  }

  /** The same character one apart, at `i` and `i + 2`. */
  predicate SandwichAt(s: string, i: nat) {
    i + 2 < |s| && s[i] == s[i + 2]
  }

  /** `is_nice_p2`; the range `0..len - 3` underflows on shorter words. A word
      of three or more letters is nice under the second rules exactly when
      some pair of letters appears twice without overlapping and some letter
      repeats with one letter between. */
  predicate IsNiceP2(s: string): (nice: bool)
    requires |s| >= 3
    ensures nice <==> (exists i: nat, j: nat :: RepeatsAt(s, i, j)) && (exists i: nat :: SandwichAt(s, i))
  {
    RepeatAndSandwichWindows(s);
    FindRepeat(s, 0).Some? && AnyWindow(s, 3, IsSandwich)
  }

  /** The pair at `i` is found again in the rest exactly when it repeats. */
  lemma RepeatSearch(s: string, i: nat)
    requires i + 2 <= |s|
    ensures PairRecurs(s, i) <==> exists j: nat :: RepeatsAt(s, i, j)
  {
    var rest := s[i + 2..];
    var p := w => w == s[i..i + 2];
    var f := FindWindow(rest, 2, p, 0);
    if f.Some? {
      var k := f.value;
      assert rest[k..k + 2] == s[i + 2 + k..i + 2 + k + 2];
      assert RepeatsAt(s, i, i + 2 + k);
    } else {
      forall j: nat | i + 2 <= j && j + 2 <= |s| ensures !RepeatsAt(s, i, j) {
        assert !WindowAt(rest, 2, p, j - i - 2);
        assert rest[j - i - 2..j - i - 2 + 2] == s[j..j + 2];
      }
    }
  }

  /** The two searches of part two find a repeated pair or a letter repeated
      one apart exactly when the word has one. */
  lemma RepeatAndSandwichWindows(s: string)
    requires |s| >= 3
    ensures FindRepeat(s, 0).Some? <==> exists i: nat, j: nat :: RepeatsAt(s, i, j)
    ensures AnyWindow(s, 3, IsSandwich) <==> exists i: nat :: SandwichAt(s, i)
  {
    var r := FindRepeat(s, 0);
    if r.Some? {
      RepeatSearch(s, r.value);
    } else {
      forall i: nat, j: nat | i + 2 <= |s| ensures !RepeatsAt(s, i, j) {
        RepeatSearch(s, i);
      }
    }
    var t := FindWindow(s, 3, IsSandwich, 0);
    if t.Some? {
      assert SandwichAt(s, t.value) by {
        assert s[t.value..t.value + 3][2] == s[t.value + 2];
      }
    } else {
      forall i: nat | i + 2 < |s| ensures !SandwichAt(s, i) {
        assert !WindowAt(s, 3, IsSandwich, i);
        assert s[i..i + 3][0] == s[i] && s[i..i + 3][2] == s[i + 2];
      }
    }
  }

  // ---------------------------------------------------------------------
  // The answers.

  /** How many of the words satisfy `nice`: none exactly when no word is
      nice, and all of them exactly when every word is. */
  function CountNice(words: seq<string>, nice: string --> bool): (n: nat)
    requires forall i :: 0 <= i < |words| ==> nice.requires(words[i])
    ensures n <= |words|
    ensures n == 0 <==> forall i :: 0 <= i < |words| ==> !nice(words[i])
    ensures n == |words| <==> forall i :: 0 <= i < |words| ==> nice(words[i])
  {
    if words == [] then 0
    else
      assert forall i :: 1 <= i < |words| ==> words[i] == words[1..][i - 1];
      (if nice(words[0]) then 1 else 0) + CountNice(words[1..], nice)
  }

  /** A count of at most `total` things, taken as a `u32`, is no larger, and
      is the count itself while `total` fits. */
  lemma WrapCount(n: nat, total: nat)
    requires n <= total
    ensures n % U32_BOUND <= total
    ensures total < U32_BOUND ==> n % U32_BOUND == n
  {
  }

  /** `part_one`: the number of nice words, as a `u32`. The count is at most
      the number of words, and while that fits in a `u32` it is zero exactly
      when no word is nice. */
  function PartOne(input: string): (r: Option<nat>)
    ensures r.Some? && r.value <= |SplitWhitespace(input)|
    ensures var words := SplitWhitespace(input);
      |words| < U32_BOUND ==> (r.value == 0 <==> forall i :: 0 <= i < |words| ==> !IsNiceP1(words[i]))
  {
    var words := SplitWhitespace(input);
    var n := CountNice(words, IsNiceP1);
    WrapCount(n, |words|);
    Some(n % U32_BOUND)
  }

  /** Every word has the three letters that `is_nice_p2` needs. */
  predicate LongWords(words: seq<string>) {
    forall i :: 0 <= i < |words| ==> |words[i]| >= 3
  }

  /** `part_two`: the number of words nice under the second rules, as a
      `u32`. The count is at most the number of words, and while that fits in
      a `u32` it is zero exactly when no word is nice. */
  function PartTwo(input: string): (r: Option<nat>)
    requires LongWords(SplitWhitespace(input))
    ensures r.Some? && r.value <= |SplitWhitespace(input)|
    ensures var words := SplitWhitespace(input);
      |words| < U32_BOUND ==> (r.value == 0 <==> forall i :: 0 <= i < |words| ==> !IsNiceP2(words[i]))
  {
    var words := SplitWhitespace(input);
    var nice := s requires |s| >= 3 => IsNiceP2(s);
    var n := CountNice(words, nice);
    WrapCount(n, |words|);
    assert forall i :: 0 <= i < |words| ==> nice(words[i]) == IsNiceP2(words[i]);
    Some(n % U32_BOUND)
  }

  // ---------------------------------------------------------------------
  // The examples.

  lemma NiceP1Triple()
    ensures IsNiceP1("aaa")
  {
    var s := "aaa";
    assert DoubleAt(s, 0);
    assert multiset(s)['a'] == 3;
    forall i: nat
      ensures !BannedAt(s, i)
    {
      if i + 1 < |s| {
        assert s[i..i + 2] == "aa";
      }
    }
  }

  /** None of the forbidden pairs occurs in the first example. */
  lemma NoBannedInExample(i: nat)
    ensures !BannedAt("ugknbfddgicrmopn", i)
  {
    var s := "ugknbfddgicrmopn";
    if i + 1 < |s| {
      assert s[i..i + 2] == [s[i], s[i + 1]];
      assert i == 0 || i == 1 || i == 2 || i == 3 || i == 4 || i == 5 || i == 6 || i == 7
        || i == 8 || i == 9 || i == 10 || i == 11 || i == 12 || i == 13 || i == 14;
    }
  }

  /** A word holding the letters u, i and o has at least three vowels. */
  lemma VowelsPresent(s: string)
    requires 'u' in s && 'i' in s && 'o' in s
    ensures VowelCount(s) >= 3
  {
    assert multiset(s)['u'] >= 1 && multiset(s)['i'] >= 1 && multiset(s)['o'] >= 1;
  }

  /** The letters u, i and o, a doubled letter and no forbidden pair make
      a word nice under the first rules. */
  lemma NiceP1By(s: string, d: nat)
    requires 'u' in s && 'i' in s && 'o' in s && DoubleAt(s, d)
    requires forall i: nat :: !BannedAt(s, i)
    ensures IsNiceP1(s)
  {
    VowelsPresent(s);
  }

  lemma NoBannedExample()
    ensures forall i: nat :: !BannedAt("ugknbfddgicrmopn", i)
  {
    forall i: nat
      ensures !BannedAt("ugknbfddgicrmopn", i)
    {
      NoBannedInExample(i);
    }
  }

  lemma NiceP1Example()
    ensures IsNiceP1("ugknbfddgicrmopn")
  {
    var s := "ugknbfddgicrmopn";
    assert s[0] == 'u' && s[9] == 'i' && s[13] == 'o' && DoubleAt(s, 6);
    NoBannedExample();
    NiceP1By(s, 6);
  }

  /** A repeated pair and a letter repeating one apart make a word nice
      under the second rules. */
  lemma NiceP2By(s: string, i: nat, j: nat, k: nat)
    requires |s| >= 3 && RepeatsAt(s, i, j) && SandwichAt(s, k)
    ensures IsNiceP2(s)
  {
  }

  lemma NiceP2Example()
    ensures IsNiceP2("qjhvhtzxzqqjkmpb")
  {
    assert RepeatsAt("qjhvhtzxzqqjkmpb", 0, 10) by {
      assert "qjhvhtzxzqqjkmpb"[0..2] == "qj" == "qjhvhtzxzqqjkmpb"[10..12];
    }
    NiceP2By("qjhvhtzxzqqjkmpb", 0, 10, 6);
  }

  lemma NiceP2Short()
    ensures IsNiceP2("xxyxx")
  {
  }

  lemma NaughtyP2Triple()
    ensures !IsNiceP2("aaa")
  {
  }

  /** No letter appears twice in a row in the third example. */
  lemma NoDoubleInExample(i: nat)
    ensures !DoubleAt("jchzalrnumimnmhp", i)
  {
    var s := "jchzalrnumimnmhp";
    if i + 1 < |s| {
      assert i == 0 || i == 1 || i == 2 || i == 3 || i == 4 || i == 5 || i == 6 || i == 7
        || i == 8 || i == 9 || i == 10 || i == 11 || i == 12 || i == 13 || i == 14;
    }
  }

  /** A word without a doubled letter is naughty under the first rules. */
  lemma NoDoubleIsNaughty(s: string)
    requires forall i: nat :: !DoubleAt(s, i)
    ensures !IsNiceP1(s)
  {
  }

  lemma NaughtyP1NoDouble()
    ensures !IsNiceP1("jchzalrnumimnmhp")
  {
    forall i: nat ensures !DoubleAt("jchzalrnumimnmhp", i) {
      NoDoubleInExample(i);
    }
    NoDoubleIsNaughty("jchzalrnumimnmhp");
  }

  /** A word with a forbidden pair is naughty under the first rules. */
  lemma BannedIsNaughty(s: string, i: nat)
    requires BannedAt(s, i)
    ensures !IsNiceP1(s)
  {
  }

  lemma NaughtyP1Banned()
    ensures !IsNiceP1("haegwjzuvuyypxyu")
  {
    assert "haegwjzuvuyypxyu"[13..15] == "xy";
    BannedIsNaughty("haegwjzuvuyypxyu", 13);
  }

  /** The vowels of the concatenation are those of both parts. */
  lemma {:induction false} VowelCountAppend(a: string, b: string)
    ensures VowelCount(a + b) == VowelCount(a) + VowelCount(b)
  {
    assert multiset(a + b) == multiset(a) + multiset(b);
  }

  /** The fifth example's only vowel is its `a`. */
  lemma OneVowelInExample(i: nat)
    requires i < 16 && i != 6
    ensures !IsVowel("dvszwmarrgswjxmb"[i])
  {
    assert i == 0 || i == 1 || i == 2 || i == 3 || i == 4 || i == 5 || i == 7
      || i == 8 || i == 9 || i == 10 || i == 11 || i == 12 || i == 13 || i == 14 || i == 15;
  }

  /** A word without vowels counts none. */
  lemma {:induction false} NoVowels(s: string)
    requires forall i :: 0 <= i < |s| ==> !IsVowel(s[i])
    ensures VowelCount(s) == 0
  {
    if s != [] {
      NoVowels(s[1..]);
    }
  }

  /** A word whose only possible vowel sits at position `k` counts at most
      one vowel. */
  lemma {:induction false} SingleVowel(s: string, k: nat)
    requires k < |s|
    requires forall i :: 0 <= i < |s| && i != k ==> !IsVowel(s[i])
    ensures VowelCount(s) <= 1
  {
    var rest := s[1..];
    if k == 0 {
      assert forall i :: 0 <= i < |rest| ==> !IsVowel(rest[i]) by {
        forall i | 0 <= i < |rest| ensures !IsVowel(rest[i]) {
          assert rest[i] == s[i + 1];
        }
      }
      NoVowels(rest);
    } else {
      assert forall i :: 0 <= i < |rest| && i != k - 1 ==> !IsVowel(rest[i]) by {
        forall i | 0 <= i < |rest| && i != k - 1 ensures !IsVowel(rest[i]) {
          assert rest[i] == s[i + 1];
        }
      }
      SingleVowel(rest, k - 1);
      assert !IsVowel(s[0]);
    }
  }

  /** A word with at most one vowel is naughty under the first rules. */
  lemma OneVowelIsNaughty(s: string, k: nat)
    requires k < |s|
    requires forall i :: 0 <= i < |s| && i != k ==> !IsVowel(s[i])
    ensures !IsNiceP1(s)
  {
    SingleVowel(s, k);
    FewVowelsIsNaughty(s);
  }

  lemma NaughtyP1OneVowel()
    ensures !IsNiceP1("dvszwmarrgswjxmb")
  {
    forall i | 0 <= i < 16 && i != 6 ensures !IsVowel("dvszwmarrgswjxmb"[i]) {
      OneVowelInExample(i);
    }
    OneVowelIsNaughty("dvszwmarrgswjxmb", 6);
  }

  /** A word with fewer than three vowels is naughty under the first rules. */
  lemma FewVowelsIsNaughty(s: string)
    requires VowelCount(s) < 3
    ensures !IsNiceP1(s)
  {
  }

  /** No letter of the fourth example repeats with one between. */
  lemma NoSandwichInExample(i: nat)
    ensures !SandwichAt("uurcxstgmygtbstg", i)
  {
    var s := "uurcxstgmygtbstg";
    if i + 2 < |s| {
      assert i == 0 || i == 1 || i == 2 || i == 3 || i == 4 || i == 5 || i == 6
        || i == 7 || i == 8 || i == 9 || i == 10 || i == 11 || i == 12 || i == 13;
    }
  }

  /** A word without a letter repeating one apart is naughty under the
      second rules. */
  lemma NoSandwichIsNaughty(s: string)
    requires |s| >= 3 && forall i: nat :: !SandwichAt(s, i)
    ensures !IsNiceP2(s)
  {
  }

  /** No pair of letters of the fifth example appears twice: the letters
      that recur (o, m and u) are followed by different letters each time. */
  lemma NoRepeatInExample(i: nat, j: nat)
    ensures !RepeatsAt("ieodomkazucvgmuy", i, j)
  {
    var s := "ieodomkazucvgmuy";
    if i + 2 <= j && j + 2 <= |s| {
      assert s[j..j + 2] == [s[j], s[j + 1]] && s[i..i + 2] == [s[i], s[i + 1]];
    }
  }

  /** A word in which no pair of letters appears twice is naughty under the
      second rules. */
  lemma NoRepeatIsNaughty(s: string)
    requires |s| >= 3 && forall i: nat, j: nat :: !RepeatsAt(s, i, j)
    ensures !IsNiceP2(s)
  {
  }

  lemma NaughtyP2NoRepeat()
    ensures !IsNiceP2("ieodomkazucvgmuy")
  {
    forall i: nat, j: nat ensures !RepeatsAt("ieodomkazucvgmuy", i, j) {
      NoRepeatInExample(i, j);
    }
    NoRepeatIsNaughty("ieodomkazucvgmuy");
  }

  lemma NaughtyP2NoSandwich()
    ensures !IsNiceP2("uurcxstgmygtbstg")
  {
    forall i: nat ensures !SandwichAt("uurcxstgmygtbstg", i) {
      NoSandwichInExample(i);
    }
    NoSandwichIsNaughty("uurcxstgmygtbstg");
  }
}
