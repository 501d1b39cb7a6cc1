/**
 * The password generator of src/bin/11.rs.
 *
 * A password is eight lower-case letters, held as base-26 digits (a = 0 …
 * z = 25, most significant first). `increment` steps the digits like an
 * odometer, and `next` steps until the password meets three rules: a run of
 * three climbing letters, none of i, l and o, and two non-overlapping pairs
 * of equal letters.
 */
module Password {
  import opened Wrappers
  import opened Text

  const LOWERCASE_LETTERS: string := "abcdefghijklmnopqrstuvwxyz"
  const PASSWORD_LENGTH: nat := 8
  const BASE: nat := 26

  // ---------------------------------------------------------------------
  // Letters and digits.

  lemma LettersInOrder()
    ensures |LOWERCASE_LETTERS| == BASE
    ensures forall k :: 0 <= k < BASE ==> LOWERCASE_LETTERS[k] as int == 'a' as int + k
  {
  }

  /** `LOWERCASE_LETTERS.iter().position(..)`: where a letter sits in the alphabet. */
  function Position(c: char): (r: nat)
    requires 'a' <= c <= 'z'
    ensures r < BASE && LOWERCASE_LETTERS[r] == c
    ensures r == c as int - 'a' as int
  {
    LettersInOrder();
    assert LOWERCASE_LETTERS[c as int - 'a' as int] == c;
    IndexOf(LOWERCASE_LETTERS, c).value
  }

  predicate IsLowercase(s: string) {
    forall k :: 0 <= k < |s| ==> 'a' <= s[k] <= 'z'
  }

  /** What `from_initial_password` accepts without panicking: eight letters. */
  predicate IsPassword(s: string) {
    |s| == PASSWORD_LENGTH && IsLowercase(s)
  }

  predicate IsDigits(d: seq<nat>) {
    forall k :: 0 <= k < |d| ==> d[k] < BASE
  }

  /** The digits of a lower-case string. */
  function DigitsOf(s: string): (d: seq<nat>)
    requires IsLowercase(s)
    ensures |d| == |s| && IsDigits(d)
    ensures forall k :: 0 <= k < |s| ==> d[k] == s[k] as int - 'a' as int
  {
    if s == [] then []
    else
      var init := s[..|s| - 1];
      assert IsLowercase(init) by {
        forall k | 0 <= k < |init| ensures 'a' <= init[k] <= 'z' {
          assert init[k] == s[k];
        }
      }
      var d := DigitsOf(init) + [Position(s[|s| - 1])];
      assert forall k :: 0 <= k < |s| ==> d[k] == s[k] as int - 'a' as int by {
        forall k | 0 <= k < |s| ensures d[k] == s[k] as int - 'a' as int {
          if k < |init| {
            assert d[k] == DigitsOf(init)[k] && init[k] == s[k];
          }
        }
      }
      d
  }

  /** `as_string`: the letter of each digit, pushed in order. */
  function Show(d: seq<nat>): (s: string)
    requires IsDigits(d)
    ensures |s| == |d| && IsLowercase(s)
    ensures forall k :: 0 <= k < |d| ==> s[k] as int == 'a' as int + d[k]
  {
    LettersInOrder();
    if d == [] then []
    else
      var init := d[..|d| - 1];
      assert forall k :: 0 <= k < |init| ==> init[k] == d[k];
      Show(init) + [LOWERCASE_LETTERS[d[|d| - 1]]]
  }

  /** Letters to digits and back is the identity. */
  lemma ShowDigitsOf(s: string)
    requires IsLowercase(s)
    ensures Show(DigitsOf(s)) == s
  {
    var t := Show(DigitsOf(s));
    forall k | 0 <= k < |s|
      ensures t[k] == s[k]
    {
      assert t[k] as int == s[k] as int;
    }
  }

  /** Digits to letters and back is the identity. */
  lemma DigitsOfShow(d: seq<nat>)
    requires IsDigits(d)
    ensures DigitsOf(Show(d)) == d
  {
    var s := Show(d);
    var e := DigitsOf(s);
    forall k | 0 <= k < |d|
      ensures e[k] == d[k]
    {
    }
  }

  // ---------------------------------------------------------------------
  // The odometer.

  function Pow(n: nat): (r: nat)
    ensures r >= 1
  {
    if n == 0 then 1 else BASE * Pow(n - 1)
  }

  /** The number the digits spell, most significant first. */
  function Value(d: seq<nat>): nat {
    if d == [] then 0 else Value(d[..|d| - 1]) * BASE + d[|d| - 1]
  }

  lemma ValueSnoc(a: seq<nat>, x: nat)
    ensures Value(a + [x]) == Value(a) * BASE + x
  {
    assert (a + [x])[..|a|] == a;
  }

  lemma {:induction false} ValueBound(d: seq<nat>)
    requires IsDigits(d)
    ensures Value(d) < Pow(|d|)
  {
    if d != [] {
      ValueBound(d[..|d| - 1]);
    }
  }

  /** Equal values of equally long digit strings mean equal digits. */
  lemma {:induction false} ValueInjective(a: seq<nat>, b: seq<nat>)
    requires IsDigits(a) && IsDigits(b) && |a| == |b|
    requires Value(a) == Value(b)
    ensures a == b
  {
    if a != [] {
      var ia, ib := a[..|a| - 1], b[..|b| - 1];
      var x, y := a[|a| - 1], b[|b| - 1];
      assert Value(ia) * BASE + x == Value(ib) * BASE + y;
      assert Value(ia) == Value(ib) && x == y;
      ValueInjective(ia, ib);
      assert a == ia + [x] && b == ib + [y];
    }
  }

  function Zeros(n: nat): (r: seq<nat>)
    ensures |r| == n && forall k :: 0 <= k < n ==> r[k] == 0
  {
    seq(n, _ => 0)
  }

  /** The digits after one `increment`: the last digit steps up by one modulo
      26, and each digit that wraps to 0 carries into the one before it. */
  function Incremented(d: seq<nat>): (r: seq<nat>)
    ensures |r| == |d|
    ensures IsDigits(d) ==> IsDigits(r)
  {
    if d == [] then []
    else
      var last := (d[|d| - 1] + 1) % BASE;
      if last == 0 then Incremented(d[..|d| - 1]) + [0]
      else d[..|d| - 1] + [last]
  }

  /** `increment` adds one to the value, and past the largest value (all z's)
      wraps round to 0: addition modulo 26^8. */
  lemma {:induction false} IncrementedValue(d: seq<nat>)
    requires IsDigits(d)
    ensures Value(Incremented(d)) == if Value(d) + 1 == Pow(|d|) then 0 else Value(d) + 1
  {
    if d != [] {
      var init, x := d[..|d| - 1], d[|d| - 1];
      assert d == init + [x];
      ValueSnoc(init, x);
      ValueBound(init);
      var v, p := Value(init), Pow(|init|);
      assert Pow(|d|) == BASE * p;
      if x + 1 < BASE {
        ValueSnoc(init, x + 1);
        assert Incremented(d) == init + [x + 1];
        assert v * BASE + x + 1 < BASE * p by {
          assert (v + 1) * BASE <= p * BASE;
        }
      } else {
        IncrementedValue(init);
        ValueSnoc(Incremented(init), 0);
        assert Incremented(d) == Incremented(init) + [0];
        assert Value(d) + 1 == (v + 1) * BASE;
        if v + 1 != p {
          assert (v + 1) * BASE < p * BASE;
        }
      }
    }
  }

  /** Only the trailing run of z's and the digit before it change: that digit
      steps up and the run becomes a's. */
  lemma {:induction false} IncrementedShape(d: seq<nat>, j: nat)
    requires IsDigits(d) && j < |d| && d[j] < BASE - 1
    requires forall k :: j < k < |d| ==> d[k] == BASE - 1
    ensures Incremented(d) == d[..j] + [d[j] + 1] + Zeros(|d| - j - 1)
  {
    var init := d[..|d| - 1];
    if j < |d| - 1 {
      IncrementedShape(init, j);
      assert init[..j] == d[..j];
    }
  }

  /** A password of all z's wraps round to all a's. */
  lemma {:induction false} IncrementedWrapsAll(d: seq<nat>)
    requires forall k :: 0 <= k < |d| ==> d[k] == BASE - 1
    ensures Incremented(d) == Zeros(|d|)
  {
    if d != [] {
      IncrementedWrapsAll(d[..|d| - 1]);
    }
  }

  /** `n` increments. */
  function Iterate(d: seq<nat>, n: nat): (r: seq<nat>)
    ensures |r| == |d|
    ensures IsDigits(d) ==> IsDigits(r)
  {
    if n == 0 then d else Incremented(Iterate(d, n - 1))
  }

  // ---------------------------------------------------------------------
  // The three rules.

  /** Digits `i`, `i+1`, `i+2` climb in steps of one. */
  predicate Climbs(d: seq<nat>, i: nat)
    requires i + 2 < |d|
  {
    d[i] + 1 == d[i + 1] && d[i + 1] + 1 == d[i + 2]
  }

  /** `increase_condition`: `windows(3).any(..)`, window by window. It
      holds exactly when some three neighbouring digits climb by one each. */
  function HasIncreasingRun(d: seq<nat>): (r: bool)
    ensures r <==> exists i: nat :: i + 2 < |d| && Climbs(d, i)
  {
    if |d| < 3 then false
    else
      ClimbsShift(d);
      Climbs(d, 0) || HasIncreasingRun(d[1..])
  }

  /** A climb past the first digit is a climb of the rest. */
  lemma ClimbsShift(d: seq<nat>)
    requires |d| >= 3
    ensures (exists i: nat :: i + 2 < |d| && Climbs(d, i))
      <==> Climbs(d, 0) || exists i: nat :: i + 2 < |d[1..]| && Climbs(d[1..], i)
  {
    if exists i: nat :: i + 2 < |d[1..]| && Climbs(d[1..], i) {
      var i: nat :| i + 2 < |d[1..]| && Climbs(d[1..], i);
      assert Climbs(d, i + 1);
    }
    if exists i: nat :: i + 2 < |d| && Climbs(d, i) {
      var i: nat :| i + 2 < |d| && Climbs(d, i);
      if i > 0 {
        assert Climbs(d[1..], i - 1);
      }
    }
  }

  /** `valid_character_condition`: no digit 8, 11 or 14. Printed, the
      password then has no `i`, `l` or `o`. */
  predicate NoConfusingLetters(d: seq<nat>): (r: bool)
    ensures IsDigits(d) ==> (r <==> NoBannedLetters(Show(d)))
  {
    ConfusingLettersShown(d);
    forall k :: 0 <= k < |d| ==> d[k] != 8 && d[k] != 11 && d[k] != 14
  }

  /** Digits 8, 11 and 14 print as `i`, `l` and `o`. */
  lemma ConfusingLettersShown(d: seq<nat>)
    ensures IsDigits(d) ==>
      ((forall k :: 0 <= k < |d| ==> d[k] != 8 && d[k] != 11 && d[k] != 14) <==> NoBannedLetters(Show(d)))
  {
    if IsDigits(d) {
      var s := Show(d);
      forall k | 0 <= k < |d|
        ensures (d[k] != 8 && d[k] != 11 && d[k] != 14) <==> (s[k] != 'i' && s[k] != 'l' && s[k] != 'o')
      {
        BannedLetter(s[k], d[k]);
      }
    }
  }

  /** No letter i, l or o. */
  predicate NoBannedLetters(s: string) {
    forall k :: 0 <= k < |s| ==> s[k] != 'i' && s[k] != 'l' && s[k] != 'o'
  }

  /** The banned digits are the letters i, l and o. */
  lemma NoConfusingLettersIff(s: string)
    requires IsLowercase(s)
    ensures NoConfusingLetters(DigitsOf(s)) <==> NoBannedLetters(s)
  {
    var d := DigitsOf(s);
    if NoConfusingLetters(d) {
      forall k | 0 <= k < |s|
        ensures s[k] != 'i' && s[k] != 'l' && s[k] != 'o'
      {
        BannedLetter(s[k], d[k]);
      }
    } else {
      var k :| 0 <= k < |d| && !(d[k] != 8 && d[k] != 11 && d[k] != 14);
      BannedLetter(s[k], d[k]);
    }
  }

  lemma BannedLetter(c: char, n: nat)
    requires n == c as int - 'a' as int
    ensures (n != 8 && n != 11 && n != 14) <==> (c != 'i' && c != 'l' && c != 'o')
  {
  }

  /** Digits `i` and `i+1` are equal. */
  predicate IsPair(d: seq<nat>, i: nat)
    requires i + 1 < |d|
  {
    d[i] == d[i + 1]
  }

  /** The fold of `triple_double_condition` over the windows of two from
      window `k`: count an equal pair, then skip the window after it. */
  function PairFold(d: seq<nat>, k: nat, count: nat, skip: bool): nat
    decreases |d| - k
  {
    if k + 1 >= |d| then count
    else if skip then PairFold(d, k + 1, count, false)
    else if IsPair(d, k) then PairFold(d, k + 1, count + 1, true)
    else PairFold(d, k + 1, count, false)
  }

  /** `triple_double_condition`: the fold counts at least two pairs. The
      greedy count reaches two exactly when two non-overlapping pairs exist. */
  predicate HasTwoPairs(d: seq<nat>): (r: bool)
    ensures r <==> exists i: nat, j: nat :: i + 2 <= j && j + 1 < |d| && IsPair(d, i) && IsPair(d, j)
  {
    PairFoldTwoIff(d);
    PairFold(d, 0, 0, false) >= 2
  }

  lemma {:induction false} PairFoldGrows(d: seq<nat>, k: nat, count: nat, skip: bool)
    ensures PairFold(d, k, count, skip) >= count
    decreases |d| - k
  {
    if k + 1 < |d| {
      if skip || !IsPair(d, k) {
        PairFoldGrows(d, k + 1, count, false);
      } else {
        PairFoldGrows(d, k + 1, count + 1, true);
      }
    }
  }

  /** A pair at or after `k` is counted. */
  lemma {:induction false} PairFoldFindsOne(d: seq<nat>, k: nat, count: nat, i: nat)
    requires k <= i && i + 1 < |d| && IsPair(d, i)
    ensures PairFold(d, k, count, false) >= count + 1
    decreases i - k
  {
    if IsPair(d, k) {
      PairFoldGrows(d, k + 1, count + 1, true);
    } else {
      PairFoldFindsOne(d, k + 1, count, i);
    }
  }

  /** Two pairs that do not overlap, at or after `k`, are both counted. */
  lemma {:induction false} PairFoldFindsTwo(d: seq<nat>, k: nat, count: nat, i: nat, j: nat)
    requires k <= i && i + 2 <= j && j + 1 < |d| && IsPair(d, i) && IsPair(d, j)
    ensures PairFold(d, k, count, false) >= count + 2
    decreases i - k
  {
    if IsPair(d, k) {
      PairFoldFindsOne(d, k + 2, count + 1, j);
    } else {
      PairFoldFindsTwo(d, k + 1, count, i, j);
    }
  }

  /** Whatever the fold counts is a pair (after the skipped window, if any). */
  lemma {:induction false} PairFoldWitness(d: seq<nat>, k: nat, count: nat, skip: bool) returns (i: nat)
    requires PairFold(d, k, count, skip) > count
    ensures k + (if skip then 1 else 0) <= i && i + 1 < |d| && IsPair(d, i)
    decreases |d| - k
  {
    if skip || !IsPair(d, k) {
      i := PairFoldWitness(d, k + 1, count, false);
    } else {
      i := k;
    }
  }

  lemma {:induction false} PairFoldWitnessTwo(d: seq<nat>, k: nat, count: nat, skip: bool) returns (i: nat, j: nat)
    requires PairFold(d, k, count, skip) >= count + 2
    ensures k <= i && i + 2 <= j && j + 1 < |d| && IsPair(d, i) && IsPair(d, j)
    decreases |d| - k
  {
    if skip || !IsPair(d, k) {
      i, j := PairFoldWitnessTwo(d, k + 1, count, false);
    } else {
      i := k;
      j := PairFoldWitness(d, k + 1, count + 1, true);
    }
  }

  /** The fold from the start counts two exactly when two non-overlapping
      pairs exist. */
  lemma PairFoldTwoIff(d: seq<nat>)
    ensures PairFold(d, 0, 0, false) >= 2 <==>
      exists i: nat, j: nat :: i + 2 <= j && j + 1 < |d| && IsPair(d, i) && IsPair(d, j)
  {
    if PairFold(d, 0, 0, false) >= 2 {
      var i, j := PairFoldWitnessTwo(d, 0, 0, false);
    }
    forall i: nat, j: nat | i + 2 <= j && j + 1 < |d| && IsPair(d, i) && IsPair(d, j)
      ensures PairFold(d, 0, 0, false) >= 2
    {
      PairFoldFindsTwo(d, 0, 0, i, j);
    }
  }

  /** `valid`: all three rules: a climbing run of three, none of the banned
      digits, and two pairs that do not overlap. */
  predicate IsValidPassword(d: seq<nat>): (r: bool)
    ensures r <==>
      && (exists i: nat :: i + 2 < |d| && Climbs(d, i))
      && (forall k :: 0 <= k < |d| ==> d[k] != 8 && d[k] != 11 && d[k] != 14)
      && (exists i: nat, j: nat :: i + 2 <= j && j + 1 < |d| && IsPair(d, i) && IsPair(d, j))
  {
    HasIncreasingRun(d) && NoConfusingLetters(d) && HasTwoPairs(d)
  }

  /** `next` stops after `n` increments: the first valid password after `d`. */
  ghost predicate FirstValidAfter(d: seq<nat>, n: nat) {
    && n >= 1
    && IsValidPassword(Iterate(d, n))
    && forall m :: 1 <= m < n ==> !IsValidPassword(Iterate(d, m))
  }

  // ---------------------------------------------------------------------
  // Termination of `next`: "abcdffaa" is valid, and the odometer reaches it.

  const Target: seq<nat> := [0, 1, 2, 3, 5, 5, 0, 0]

  lemma TargetIsValid()
    ensures IsDigits(Target) && IsValidPassword(Target)
  {
    assert Climbs(Target, 0);
    assert IsPair(Target, 4) && IsPair(Target, 6);
  }

  /** How many increments `d` is from `Target`, going round past all z's. */
  ghost function Distance(d: seq<nat>): nat
    requires IsDigits(d) && |d| == PASSWORD_LENGTH
  {
    ValueBound(d);
    if Value(d) <= Value(Target) then Value(Target) - Value(d)
    else Value(Target) + Pow(PASSWORD_LENGTH) - Value(d)
  }

  /** An increment from an invalid password brings `Target` one step closer. */
  lemma DistanceShrinks(d: seq<nat>)
    requires IsDigits(d) && |d| == PASSWORD_LENGTH && !IsValidPassword(d)
    ensures Distance(Incremented(d)) < Distance(d)
  {
    TargetIsValid();
    IncrementedValue(d);
    ValueBound(d);
    ValueBound(Target);
    if Value(d) == Value(Target) {
      ValueInjective(d, Target);
    }
  }

  // ---------------------------------------------------------------------
  // The generator.

  /** `PasswordGenerator`: the password's digits, updated in place. */
  class PasswordGenerator {
    const state: array<nat>

    ghost predicate Valid()
      reads this, state
    {
      state.Length == PASSWORD_LENGTH && IsDigits(state[..])
    }

    /** `from_initial_password`: the digit of each letter. */
    constructor FromInitialPassword(password: string)
      requires IsPassword(password)
      ensures Valid() && fresh(state)
      ensures state[..] == DigitsOf(password)
      ensures AsString() == password
    {
      var digits := DigitsOf(password);
      state := new nat[PASSWORD_LENGTH](k requires 0 <= k < PASSWORD_LENGTH => digits[k]);
      new;
      assert state[..] == digits;
      ShowDigitsOf(password);
    }

    function AsString(): (s: string)
      reads this, state
      requires Valid()
      ensures IsPassword(s) && DigitsOf(s) == state[..]
    {
      DigitsOfShow(state[..]);
      Show(state[..])
    }

    /** `valid`, on the password held: it climbs somewhere, has no `i`, `l`
        or `o`, and holds two pairs that do not overlap. */
    function IsValid(): (r: bool)
      reads this, state
      requires Valid()
      ensures var d := state[..];
        r <==>
          && (exists i: nat :: i + 2 < |d| && Climbs(d, i))
          && NoBannedLetters(AsString())
          && (exists i: nat, j: nat :: i + 2 <= j && j + 1 < |d| && IsPair(d, i) && IsPair(d, j))
    {
      NoConfusingLettersIff(AsString());
      IsValidPassword(state[..])
    }

    /** `increment`: add one, from the last digit leftwards while digits wrap. */
    method Increment()
      requires Valid()
      modifies state
      ensures Valid()
      ensures state[..] == Incremented(old(state[..]))
    {
      ghost var d := state[..];
      assert d[..PASSWORD_LENGTH] == d;
      var index: int := PASSWORD_LENGTH - 1;
      var complete := false;
      while !complete
        invariant -1 <= index < PASSWORD_LENGTH
        invariant complete ==> state[..] == Incremented(d)
        invariant !complete ==> state[..] == d[..index + 1] + Zeros(PASSWORD_LENGTH - 1 - index)
        invariant !complete ==> Incremented(d) == Incremented(d[..index + 1]) + Zeros(PASSWORD_LENGTH - 1 - index)
        decreases index + 1, !complete
      {
        if index < 0 {
          forall k | 0 <= k < PASSWORD_LENGTH {
            state[k] := 0;
          }
          return;
        }
        ghost var prefix := d[..index + 1];
        assert prefix[..index] == d[..index];
        ghost var before := state[..];
        state[index] := (state[index] + 1) % BASE;
        assert state[..] == before[index := state[index]];
        if state[index] == 0 {
          assert state[..] == d[..index] + Zeros(PASSWORD_LENGTH - index) by {
            assert Zeros(PASSWORD_LENGTH - index) == [0] + Zeros(PASSWORD_LENGTH - 1 - index);
          }
          index := index - 1;
        } else {
          complete := true;
        }
      }
    }

    /** `Iterator::next`: increment, then keep incrementing until valid. */
    method Next() returns (password: string)
      requires Valid()
      modifies state
      ensures Valid()
      ensures exists n :: FirstValidAfter(old(state[..]), n) && state[..] == Iterate(old(state[..]), n)
      ensures password == Show(state[..])
    {
      ghost var start := state[..];
      ghost var n := 1;
      Increment();
      while !IsValid()
        invariant Valid()
        invariant 1 <= n && state[..] == Iterate(start, n)
        invariant forall m :: 1 <= m < n ==> !IsValidPassword(Iterate(start, m))
        decreases Distance(state[..])
      {
        ghost var before := state[..];
        assert !IsValidPassword(before);
        DistanceShrinks(before);
        Increment();
        assert state[..] == Iterate(start, n + 1);
        n := n + 1;
      }
      assert FirstValidAfter(start, n);
      password := AsString();
    }
  }

  /** `part_one`: the next valid password after the trimmed input. */
  method PartOne(input: string) returns (r: Option<string>)
    requires IsPassword(Trim(input))
    ensures r.Some?
    ensures exists n :: (FirstValidAfter(DigitsOf(Trim(input)), n)
      && r.value == Show(Iterate(DigitsOf(Trim(input)), n)))
  {
    var generator := new PasswordGenerator.FromInitialPassword(Trim(input));
    var password := generator.Next();
    r := Some(password);
  }

  /** `part_two`: `nth(1)`, the valid password after that one. */
  method PartTwo(input: string) returns (r: Option<string>)
    requires IsPassword(Trim(input))
    ensures r.Some?
    ensures exists n1, n2 :: (FirstValidAfter(DigitsOf(Trim(input)), n1)
      && FirstValidAfter(Iterate(DigitsOf(Trim(input)), n1), n2)
      && r.value == Show(Iterate(Iterate(DigitsOf(Trim(input)), n1), n2)))
  {
    var generator := new PasswordGenerator.FromInitialPassword(Trim(input));
    var _ := generator.Next();
    var password := generator.Next();
    r := Some(password);
  }

  // ---------------------------------------------------------------------
  // The worked examples.

  /** The digits of a string spelt out letter by letter. */
  lemma DigitsOfLetters(s: string, d: seq<nat>)
    requires IsDigits(d) && |s| == |d|
    requires forall k :: 0 <= k < |s| ==> s[k] as int == 'a' as int + d[k]
    ensures IsLowercase(s) && DigitsOf(s) == d
  {
    assert IsLowercase(s);
    var e := DigitsOf(s);
    forall k | 0 <= k < |s|
      ensures e[k] == d[k]
    {
    }
  }

  /** The letters of digits spelt out letter by letter. */
  lemma ShowLetters(d: seq<nat>, s: string)
    requires IsDigits(d) && |s| == |d|
    requires forall k :: 0 <= k < |s| ==> s[k] as int == 'a' as int + d[k]
    ensures Show(d) == s
  {
    DigitsOfLetters(s, d);
    ShowDigitsOf(s);
  }

  /** "hijklmmn" climbs (hij) but holds i and l. */
  lemma HijklmmnIsInvalid()
    ensures IsPassword("hijklmmn") && !IsValidPassword(DigitsOf("hijklmmn"))
  {
    var d: seq<nat> := [7, 8, 9, 10, 11, 12, 12, 13];
    DigitsOfLetters("hijklmmn", d);
    assert d[1] == 8;
  }

  /** "abbceffg" has two pairs but no climbing run. */
  lemma AbbceffgIsInvalid()
    ensures IsPassword("abbceffg") && !IsValidPassword(DigitsOf("abbceffg"))
  {
    DigitsOfLetters("abbceffg", [0, 1, 1, 2, 4, 5, 5, 6]);
    NoRunInAbbceffg();
  }

  lemma NoRunInAbbceffg()
    ensures !HasIncreasingRun([0, 1, 1, 2, 4, 5, 5, 6])
  {
  }

  /** "abbcegjk" has only one pair. */
  lemma AbbcegjkIsInvalid()
    ensures IsPassword("abbcegjk") && !IsValidPassword(DigitsOf("abbcegjk"))
  {
    var d: seq<nat> := [0, 1, 1, 2, 4, 6, 9, 10];
    DigitsOfLetters("abbcegjk", d);
  }

  /** "abcdefgh" has no pair. */
  lemma AbcdefghIsInvalid()
    ensures IsPassword("abcdefgh") && !IsValidPassword(DigitsOf("abcdefgh"))
  {
    var d: seq<nat> := [0, 1, 2, 3, 4, 5, 6, 7];
    DigitsOfLetters("abcdefgh", d);
    assert PairFold(d, 0, 0, false) == 0;
  }

  /** "abcdffaa" is valid. */
  lemma AbcdffaaIsValid()
    ensures IsPassword("abcdffaa") && IsValidPassword(DigitsOf("abcdffaa"))
  {
    DigitsOfLetters("abcdffaa", Target);
    TargetIsValid();
  }

  /** "ghijklmn" holds i and l. */
  lemma GhijklmnIsInvalid()
    ensures IsPassword("ghijklmn") && !IsValidPassword(DigitsOf("ghijklmn"))
  {
    var d: seq<nat> := [6, 7, 8, 9, 10, 11, 12, 13];
    DigitsOfLetters("ghijklmn", d);
    assert d[2] == 8;
  }

  /** "ghjaabcc" climbs (abc) and has the pairs aa and cc. */
  lemma GhjaabccIsValid()
    ensures IsPassword("ghjaabcc") && IsValidPassword(DigitsOf("ghjaabcc"))
  {
    DigitsOfLetters("ghjaabcc", [6, 7, 9, 0, 0, 1, 2, 2]);
    GhjaabccDigitsAreValid();
  }

  lemma GhjaabccDigitsAreValid()
    ensures IsValidPassword([6, 7, 9, 0, 0, 1, 2, 2])
  {
    var d: seq<nat> := [6, 7, 9, 0, 0, 1, 2, 2];
    assert Climbs(d, 4);
    assert IsPair(d, 3) && IsPair(d, 6);
  }

  /** A run of three equal letters holds only one pair. */
  lemma TripleIsOnePair()
    ensures PairFold([0, 0, 0], 0, 0, false) == 1
    ensures PairFold([0, 0, 0, 0], 0, 0, false) == 2
  {
  }

  /** "aaaaaaaa" becomes "aaaaaaab". */
  lemma IncrementFirstExample()
    ensures Show(Incremented(DigitsOf("aaaaaaaa"))) == "aaaaaaab"
  {
    var d: seq<nat> := [0, 0, 0, 0, 0, 0, 0, 0];
    var e: seq<nat> := [0, 0, 0, 0, 0, 0, 0, 1];
    SpellA8();
    SpellA7B();
    IncrementedShape(d, 7);
    assert Incremented(d) == e;
  }

  /** "azzzzzzz" carries into "baaaaaaa". */
  lemma IncrementCarryExample()
    ensures Show(Incremented(DigitsOf("azzzzzzz"))) == "baaaaaaa"
  {
    CarryDigits();
    SpellBA7();
    SpellAZ7();
  }

  lemma CarryDigits()
    ensures Incremented([0, 25, 25, 25, 25, 25, 25, 25]) == [1, 0, 0, 0, 0, 0, 0, 0]
  {
    IncrementedShape([0, 25, 25, 25, 25, 25, 25, 25], 0);
  }

  /** "zzzzzzzz" wraps round to "aaaaaaaa". */
  lemma IncrementWrapExample()
    ensures Show(Incremented(DigitsOf("zzzzzzzz"))) == "aaaaaaaa"
  {
    WrapDigits();
    SpellA8();
    SpellZ8();
  }

  // The spellings the increment examples need, one string each.

  lemma SpellA8()
    ensures IsLowercase("aaaaaaaa") && DigitsOf("aaaaaaaa") == [0, 0, 0, 0, 0, 0, 0, 0]
    ensures Show([0, 0, 0, 0, 0, 0, 0, 0]) == "aaaaaaaa"
  {
    ShowLetters([0, 0, 0, 0, 0, 0, 0, 0], "aaaaaaaa");
  }

  lemma SpellA7B()
    ensures Show([0, 0, 0, 0, 0, 0, 0, 1]) == "aaaaaaab"
  {
    ShowLetters([0, 0, 0, 0, 0, 0, 0, 1], "aaaaaaab");
  }

  lemma SpellBA7()
    ensures Show([1, 0, 0, 0, 0, 0, 0, 0]) == "baaaaaaa"
  {
    ShowLetters([1, 0, 0, 0, 0, 0, 0, 0], "baaaaaaa");
  }

  lemma SpellAZ7()
    ensures IsLowercase("azzzzzzz") && DigitsOf("azzzzzzz") == [0, 25, 25, 25, 25, 25, 25, 25]
  {
    DigitsOfLetters("azzzzzzz", [0, 25, 25, 25, 25, 25, 25, 25]);
  }

  lemma SpellZ8()
    ensures IsLowercase("zzzzzzzz") && DigitsOf("zzzzzzzz") == [25, 25, 25, 25, 25, 25, 25, 25]
  {
    DigitsOfLetters("zzzzzzzz", [25, 25, 25, 25, 25, 25, 25, 25]);
  }

  lemma WrapDigits()
    ensures Incremented([25, 25, 25, 25, 25, 25, 25, 25]) == [0, 0, 0, 0, 0, 0, 0, 0]
  {
    IncrementedWrapsAll([25, 25, 25, 25, 25, 25, 25, 25]);
  }
}
