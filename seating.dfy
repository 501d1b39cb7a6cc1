/**
 * The seating planner of src/bin/13.rs: how much each guest gains or loses
 * sitting next to each other guest, read from lines
 * "A would gain 54 happiness units by sitting next to B.", and the best
 * total over every way of seating the guests round a circular table.
 */
module Seating {
  import opened Wrappers
  import opened Text
  import opened Permutations
  import opened Sums

  /** (who, next to) to the change in `who`'s happiness. */
  type Matrix = map<(string, string), int>

  /** The name the solver gives itself in part two. */
  const ME: string := "~~~ME~~~"

  const NEXT_TO: string := " happiness units by sitting next to "

  /** One line: `who` gains `units` (negative for a loss) next to `nextTo`. */
  datatype Preference = Preference(who: string, nextTo: string, units: int)

  // ---------------------------------------------------------------------
  // Reading a line. `None` stands for an `unwrap` that panics, or for the
  // negation of the smallest `i32`, which overflows.

  /** The text before the long separator: who, and by how much. */
  function ParseChange(firstPart: string): (r: Option<(string, int)>)
    ensures r.Some? ==> -(I32_BOUND as int) <= r.value.1 < I32_BOUND
  {
    match SplitOnce(firstPart, " would ")
    case None => None
    case Some((who, changePart)) =>
      match SplitOnce(changePart, " ")
      case None => None
      case Some((change, byPart)) =>
        match ParseSigned(byPart, I32_BOUND)
        case None => None
        case Some(v) =>
          if change == "lose" && v == -(I32_BOUND as int) then None
          else Some((who, if change == "lose" then -v else v))
  }

  function ParsePreference(line: string): (r: Option<Preference>)
    ensures r.Some? ==> -(I32_BOUND as int) <= r.value.units < I32_BOUND
  {
    match SplitOnce(line, NEXT_TO)
    case None => None
    case Some((firstPart, nextToPart)) =>
      match ParseChange(firstPart)
      case None => None
      case Some((who, units)) =>
        match StripSuffix(nextToPart, ".")
        case None => None
        case Some(nextTo) => Some(Preference(who, nextTo, units))
  }

  predicate AllParsable(lines: seq<string>) {
    forall k :: 0 <= k < |lines| ==> ParsePreference(lines[k]).Some?
  }

  function ParsePreferences(lines: seq<string>): (r: seq<Preference>)
    requires AllParsable(lines)
    ensures |r| == |lines| && forall k :: 0 <= k < |lines| ==> Some(r[k]) == ParsePreference(lines[k])
  {
    seq(|lines|, k requires 0 <= k < |lines| => ParsePreference(lines[k]).value)
  }

  /** A name the line format can carry in the first position. */
  predicate IsName(x: string) {
    forall k :: 0 <= k < |x| ==> x[k] != ' '
  }

  /** How a line words the sign of a change. */
  function ChangeWord(p: Preference): string {
    if p.units < 0 then "lose" else "gain"
  }

  function Amount(p: Preference): nat {
    if p.units < 0 then -p.units else p.units
  }

  /** The text before the long separator. */
  function FirstPart(p: Preference): string {
    p.who + " would " + ChangeWord(p) + " " + DecimalString(Amount(p))
  }

  /** A line in the puzzle's own wording: "gain" for a gain, "lose" for a loss. */
  function ShowPreference(p: Preference): string {
    FirstPart(p) + NEXT_TO + p.nextTo + "."
  }

  /** No space in the first part of a line is followed by an `h`, so the
      long separator cannot start there. */
  lemma NoNextToBefore(who: string, change: string, digits: string, rest: string)
    requires IsName(who) && change in {"gain", "lose"} && digits != [] && AllDigits(digits)
    ensures forall k: nat :: k < |who + " would " + change + " " + digits| ==>
      !OccursAt(who + " would " + change + " " + digits + NEXT_TO + rest, NEXT_TO, k)
  {
    var first := who + " would " + change + " " + digits;
    var s := first + NEXT_TO + rest;
    forall k: nat | k < |first|
      ensures !OccursAt(s, NEXT_TO, k)
    {
      if k < |who| {
        assert s[k] == who[k];
      } else if k < |who| + 7 {
        assert s[k + 1] == (" would " + change)[k + 1 - |who|];
      } else if k < |who| + 7 + |change| {
        assert s[k] == change[k - |who| - 7];
      } else if k == |who| + 7 + |change| {
        assert s[k + 1] == digits[0];
      } else {
        assert s[k] == digits[k - |who| - 8 - |change|];
      }
      OccursAtStart(s, NEXT_TO, k);
    }
  }

  /** An occurrence of `p` starts with the first two characters of `p`. */
  lemma OccursAtStart(s: string, p: string, k: nat)
    requires |p| >= 2 && k + 1 < |s|
    ensures OccursAt(s, p, k) ==> s[k] == p[0] && s[k + 1] == p[1]
  {
    if OccursAt(s, p, k) {
      assert s[k..k + |p|][0] == s[k] && s[k..k + |p|][1] == s[k + 1];
    }
  }

  /** The first part splits at " would ", then at the space after the
      change word, and its amount reads back. */
  lemma ParseChangeRoundTrip(p: Preference)
    requires IsName(p.who) && -(I32_BOUND as int) < p.units < I32_BOUND
    ensures ParseChange(FirstPart(p)) == Some((p.who, p.units))
  {
    FirstPartSplits(p);
    var digits := DecimalString(Amount(p));
    DecimalStringParses(Amount(p), I32_BOUND);
    assert ParseSigned(digits, I32_BOUND) == Some(Amount(p)) by {
      DecimalStringValue(Amount(p));
      assert IsDigit(digits[0]);
    }
  }

  lemma FirstPartSplits(p: Preference)
    requires IsName(p.who)
    ensures SplitOnce(FirstPart(p), " would ") == Some((p.who, ChangeWord(p) + " " + DecimalString(Amount(p))))
    ensures SplitOnce(ChangeWord(p) + " " + DecimalString(Amount(p)), " ") == Some((ChangeWord(p), DecimalString(Amount(p))))
  {
    var digits := DecimalString(Amount(p));
    assert FirstPart(p) == p.who + " would " + (ChangeWord(p) + " " + digits);
    SplitOnceAfter(p.who, " would ", ChangeWord(p) + " " + digits);
    SplitOnceAfter(ChangeWord(p), " ", digits);
  }

  /** Printing a preference and reading it back gives it again. */
  lemma ParsePreferenceRoundTrip(p: Preference)
    requires IsName(p.who) && -(I32_BOUND as int) < p.units < I32_BOUND
    ensures ParsePreference(ShowPreference(p)) == Some(p)
  {
    var digits := DecimalString(Amount(p));
    DecimalStringValue(Amount(p));
    NoNextToBefore(p.who, ChangeWord(p), digits, p.nextTo + ".");
    assert ShowPreference(p) == FirstPart(p) + NEXT_TO + (p.nextTo + ".");
    SplitOnceFirst(FirstPart(p), NEXT_TO, p.nextTo + ".");
    ParseChangeRoundTrip(p);
    assert StripSuffix(p.nextTo + ".", ".") == Some(p.nextTo);
  }

  /** The matrix after the preferences, in order; a later line for the same
      pair replaces the earlier one. */
  function MatrixOf(prefs: seq<Preference>): Matrix {
    if prefs == [] then map[]
    else
      var p := prefs[|prefs| - 1];
      MatrixOf(prefs[..|prefs| - 1])[(p.who, p.nextTo) := p.units]
  }

  lemma {:induction false} LastPreferenceWins(prefs: seq<Preference>, k: nat)
    requires k < |prefs|
    requires forall j :: k < j < |prefs| ==> (prefs[j].who, prefs[j].nextTo) != (prefs[k].who, prefs[k].nextTo)
    ensures (prefs[k].who, prefs[k].nextTo) in MatrixOf(prefs)
    ensures MatrixOf(prefs)[(prefs[k].who, prefs[k].nextTo)] == prefs[k].units
  {
    if k < |prefs| - 1 {
      var init := prefs[..|prefs| - 1];
      assert init[k] == prefs[k];
      LastPreferenceWins(init, k);
    }
  }

  /** Exactly the pairs some line names are in the matrix. */
  lemma {:induction false} MatrixKeys(prefs: seq<Preference>, key: (string, string))
    ensures key in MatrixOf(prefs) <==> exists k :: 0 <= k < |prefs| && (prefs[k].who, prefs[k].nextTo) == key
  {
    if prefs != [] {
      var init := prefs[..|prefs| - 1];
      MatrixKeys(init, key);
      if key in MatrixOf(init) {
        var k :| 0 <= k < |init| && (init[k].who, init[k].nextTo) == key;
        assert prefs[k] == init[k];
      }
      forall k | 0 <= k < |init| && (prefs[k].who, prefs[k].nextTo) == key
        ensures key in MatrixOf(init)
      {
        assert init[k] == prefs[k];
      }
    }
  }

  /** `all_guests`: the first components of the keys. */
  function Guests(m: Matrix): set<string> {
    set k | k in m :: k.0
  }

  /** The pairs `add_myself` sets to 0. */
  function PairsWithMe(guests: set<string>): set<(string, string)> {
    (set g | g in guests :: (ME, g)) + (set g | g in guests :: (g, ME))
  }

  /** The matrix with a 0 both ways between me and each of `guests`. */
  function WithMeBeside(m: Matrix, guests: set<string>): (r: Matrix)
    ensures r.Keys == m.Keys + PairsWithMe(guests)
    ensures forall k :: k in r ==> r[k] == if k in PairsWithMe(guests) then 0 else m[k]
  {
    var pairs := PairsWithMe(guests);
    map k | k in m.Keys + pairs :: if k in pairs then 0 else m[k]
  }

  lemma WithMeBesideNobody(m: Matrix)
    ensures WithMeBeside(m, {}) == m
  {
    assert PairsWithMe({}) == {};
  }

  /** One more guest's two insertions. */
  lemma WithMeBesideOneMore(m: Matrix, guests: set<string>, g: string)
    ensures WithMeBeside(m, guests)[(ME, g) := 0][(g, ME) := 0] == WithMeBeside(m, guests + {g})
  {
    assert PairsWithMe(guests + {g}) == PairsWithMe(guests) + {(ME, g), (g, ME)};
  }

  /** The matrix after `add_myself`: every prior guest is indifferent to me,
      and I to them, and nothing else changes. */
  function WithMyself(m: Matrix): (r: Matrix)
    ensures r.Keys == m.Keys + PairsWithMe(Guests(m))
    ensures forall k :: k in m && k.0 != ME && k.1 != ME ==> r[k] == m[k]
    ensures forall g :: g in Guests(m) ==> r[(ME, g)] == 0 && r[(g, ME)] == 0
  {
    WithMeBeside(m, Guests(m))
  }

  /** Adding myself makes me a guest, unless there was nobody to sit by. */
  lemma WithMyselfGuests(m: Matrix)
    ensures Guests(WithMyself(m)) == if Guests(m) == {} then {} else Guests(m) + {ME}
  {
    var r := WithMyself(m);
    assert forall k :: k in m ==> k.0 in Guests(m);
    if Guests(m) != {} {
      var g :| g in Guests(m);
      assert (ME, g) in r;
      forall x | x in Guests(r)
        ensures x in Guests(m) + {ME}
      {
        var k :| k in r && k.0 == x;
      }
      forall x | x in Guests(m)
        ensures x in Guests(r)
      {
        var k :| k in m && k.0 == x;
        assert k in r;
      }
    }
  }

  // ---------------------------------------------------------------------
  // The total of one seating.

  /** The seat to the left of seat `i` of `n`, as `rem_euclid` gives it. */
  function LeftOf(n: nat, i: nat): (r: nat)
    requires i < n
    ensures r < n && r == if i == 0 then n - 1 else i - 1
  {
    (i as int - 1) % n
  }

  /** The seat to the right of seat `i` of `n`. */
  function RightOf(n: nat, i: nat): (r: nat)
    requires i < n
    ensures r < n && r == if i == n - 1 then 0 else i + 1
  {
    (i + 1) % n
  }

  /** Both neighbours of every seat have an entry; indexing panics otherwise. */
  ghost predicate Seated(m: Matrix, a: seq<string>) {
    forall i :: 0 <= i < |a| ==> (a[i], a[LeftOf(|a|, i)]) in m && (a[i], a[RightOf(|a|, i)]) in m
  }

  /** What the guest at seat `i` feels about both neighbours. */
  function SeatHappiness(m: Matrix, a: seq<string>, i: nat): int
    requires Seated(m, a) && i < |a|
  {
    m[(a[i], a[LeftOf(|a|, i)])] + m[(a[i], a[RightOf(|a|, i)])]
  }

  function SeatHappinesses(m: Matrix, a: seq<string>): (r: seq<int>)
    requires Seated(m, a)
    ensures |r| == |a| && forall i :: 0 <= i < |a| ==> r[i] == SeatHappiness(m, a, i)
  {
    seq(|a|, i requires 0 <= i < |a| => SeatHappiness(m, a, i))
  }

  /** `evaluate_total_happiness`: the sum over the seats. Round a table of
      one the guest sits beside themself on both sides, and round a table of
      two each guest sits beside the other on both sides. */
  function TotalHappiness(m: Matrix, a: seq<string>): (r: int)
    requires Seated(m, a)
    ensures a == [] ==> r == 0
    ensures |a| == 1 ==> (a[0], a[0]) in m && r == 2 * m[(a[0], a[0])]
    ensures |a| == 2 ==>
      (a[0], a[1]) in m && (a[1], a[0]) in m && r == 2 * (m[(a[0], a[1])] + m[(a[1], a[0])])
  {
    var h := SeatHappinesses(m, a);
    if 1 <= |a| <= 2 then
      SmallTable(m, a, h);
      Sum(h)
    else
      Sum(h)
  }

  /** The seats of a table of one or two. */
  lemma SmallTable(m: Matrix, a: seq<string>, h: seq<int>)
    requires Seated(m, a) && h == SeatHappinesses(m, a) && 1 <= |a| <= 2
    ensures |a| == 1 ==> (a[0], a[0]) in m && Sum(h) == 2 * m[(a[0], a[0])]
    ensures |a| == 2 ==>
      (a[0], a[1]) in m && (a[1], a[0]) in m && Sum(h) == 2 * (m[(a[0], a[1])] + m[(a[1], a[0])])
  {
    var n := |a|;
    assert (a[0], a[LeftOf(n, 0)]) in m && (a[0], a[RightOf(n, 0)]) in m;
    assert h[0] == m[(a[0], a[LeftOf(n, 0)])] + m[(a[0], a[RightOf(n, 0)])];
    if n == 1 {
      assert h[1..] == [];
    } else {
      assert (a[1], a[LeftOf(n, 1)]) in m && (a[1], a[RightOf(n, 1)]) in m;
      assert h[1] == m[(a[1], a[LeftOf(n, 1)])] + m[(a[1], a[RightOf(n, 1)])];
      assert h[1..][1..] == [];
      assert Sum(h[1..]) == h[1];
    }
  }

  /** The seating moved round by one place. */
  function RotateOne(a: seq<string>): (r: seq<string>)
    requires a != []
    ensures |r| == |a| && forall i :: 0 <= i < |a| ==> r[i] == a[RightOf(|a|, i)]
  {
    a[1..] + [a[0]]
  }

  /** After moving one seat round, seat `i` holds who sat at the seat to
      its right, and so do its neighbours. */
  lemma RotateOneNeighbours(a: seq<string>, i: nat)
    requires i < |a|
    ensures var n, b, j := |a|, RotateOne(a), RightOf(|a|, i);
      b[i] == a[j] && b[LeftOf(n, i)] == a[LeftOf(n, j)] && b[RightOf(n, i)] == a[RightOf(n, j)]
  {
  }

  lemma RotateOneSeated(m: Matrix, a: seq<string>)
    requires a != [] && Seated(m, a)
    ensures Seated(m, RotateOne(a))
  {
    var n, b := |a|, RotateOne(a);
    forall i | 0 <= i < n
      ensures (b[i], b[LeftOf(n, i)]) in m && (b[i], b[RightOf(n, i)]) in m
    {
      RotateOneNeighbours(a, i);
    }
  }

  /** Moving everyone one seat round keeps the table seated and the total. */
  lemma RotateOneTotal(m: Matrix, a: seq<string>)
    requires a != [] && Seated(m, a)
    ensures Seated(m, RotateOne(a))
    ensures TotalHappiness(m, RotateOne(a)) == TotalHappiness(m, a)
  {
    RotateOneSeated(m, a);
    var n, b := |a|, RotateOne(a);
    var sa := SeatHappinesses(m, a);
    var sb := SeatHappinesses(m, b);
    forall i | 0 <= i < n
      ensures sb[i] == sa[RightOf(n, i)]
    {
      RotateOneNeighbours(a, i);
    }
    assert sb == sa[1..] + [sa[0]];
    SumSnoc(sa[1..], sa[0]);
  }

  /** The seating moved round by `r` places. */
  function Rotate(a: seq<string>, r: nat): seq<string>
    requires r <= |a|
  {
    a[r..] + a[..r]
  }

  lemma RotateStep(a: seq<string>, r: nat)
    requires 0 < r <= |a|
    ensures RotateOne(Rotate(a, r - 1)) == Rotate(a, r)
  {
    var b := Rotate(a, r - 1);
    assert b[0] == a[r - 1];
    assert b[1..] == a[r..] + a[..r - 1];
    assert a[..r] == a[..r - 1] + [a[r - 1]];
  }

  /** The total does not depend on where round the table the seating starts. */
  lemma {:induction false} RotationInvariant(m: Matrix, a: seq<string>, r: nat)
    requires r <= |a| && Seated(m, a)
    ensures Seated(m, Rotate(a, r))
    ensures TotalHappiness(m, Rotate(a, r)) == TotalHappiness(m, a)
  {
    if r == 0 {
      assert Rotate(a, r) == a;
    } else {
      RotationInvariant(m, a, r - 1);
      RotateStep(a, r);
      RotateOneTotal(m, Rotate(a, r - 1));
    }
  }

  /** Every guest has an entry for every other guest, and a lone guest for
      themself (who is both their neighbours). */
  ghost predicate CoversNeighbours(m: Matrix, guests: set<string>) {
    forall a, b :: a in guests && b in guests && (a != b || |guests| == 1) ==> (a, b) in m
  }

  lemma ArrangementSeated(m: Matrix, guests: set<string>, a: seq<string>)
    requires CoversNeighbours(m, guests) && IsArrangement(a, guests)
    ensures Seated(m, a)
  {
    var n := |a|;
    if n == 1 {
      LoneGuest(guests, a);
    }
    forall i | 0 <= i < n
      ensures (a[i], a[LeftOf(n, i)]) in m && (a[i], a[RightOf(n, i)]) in m
    {
      var l, r := LeftOf(n, i), RightOf(n, i);
      assert a[i] in Elements(a) && a[l] in Elements(a) && a[r] in Elements(a);
    }
  }

  /** A seating of one is of one guest, who sits beside themself. */
  lemma LoneGuest(guests: set<string>, a: seq<string>)
    requires IsArrangement(a, guests) && |a| == 1
    ensures |guests| == 1
  {
    assert a == [a[0]];
    assert Elements(a) == {a[0]};
  }

  /** Adding myself keeps every needed neighbour entry. */
  lemma WithMyselfCovers(m: Matrix)
    requires CoversNeighbours(m, Guests(m))
    ensures CoversNeighbours(WithMyself(m), Guests(WithMyself(m)))
  {
    WithMyselfGuests(m);
    var g := Guests(m);
    if g != {} && ME !in g {
      NewcomerCovered(m);
    } else if g != {} {
      assert g + {ME} == g;
      assert m.Keys <= WithMyself(m).Keys;
    }
  }

  /** With at least one other guest, I make the table at least two. */
  lemma NewcomerCovered(m: Matrix)
    requires CoversNeighbours(m, Guests(m)) && Guests(m) != {} && ME !in Guests(m)
    ensures CoversNeighbours(WithMyself(m), Guests(m) + {ME})
  {
    var r := WithMyself(m);
    var g := Guests(m);
    var all := g + {ME};
    var x :| x in g;
    assert {x, ME} <= all;
    assert |all| != 1 by {
      assert |{x, ME}| == 2;
    }
    forall a, b | a in all && b in all && a != b
      ensures (a, b) in r
    {
      if a == ME {
        assert (ME, b) in PairsWithMe(g);
      } else if b == ME {
        assert (a, ME) in PairsWithMe(g);
      }
    }
  }

  /** The total of each ordering of the guests. */
  function PermutationTotals(m: Matrix, guests: seq<string>): (r: seq<int>)
    requires Distinct(guests) && CoversNeighbours(m, Elements(guests))
    ensures |r| == |AllPermutations(guests)|
    ensures forall k :: 0 <= k < |r| ==>
      && IsArrangement(AllPermutations(guests)[k], Elements(guests))
      && Seated(m, AllPermutations(guests)[k])
      && r[k] == TotalHappiness(m, AllPermutations(guests)[k])
  {
    var perms := AllPermutations(guests);
    PermutationsSeated(m, guests);
    seq(|perms|, k requires 0 <= k < |perms| => TotalHappiness(m, perms[k]))
  }

  lemma PermutationsSeated(m: Matrix, guests: seq<string>)
    requires Distinct(guests) && CoversNeighbours(m, Elements(guests))
    ensures forall k :: 0 <= k < |AllPermutations(guests)| ==>
      IsArrangement(AllPermutations(guests)[k], Elements(guests)) && Seated(m, AllPermutations(guests)[k])
  {
    var perms := AllPermutations(guests);
    forall k | 0 <= k < |perms|
      ensures IsArrangement(perms[k], Elements(guests)) && Seated(m, perms[k])
    {
      assert perms[k] in perms;
      ListedAreArrangements(guests, perms[k]);
      ArrangementSeated(m, Elements(guests), perms[k]);
    }
  }

  lemma PermutationTotalsCover(m: Matrix, guests: seq<string>, a: seq<string>)
    requires Distinct(guests) && CoversNeighbours(m, Elements(guests))
    requires IsArrangement(a, Elements(guests))
    ensures Seated(m, a)
    ensures TotalHappiness(m, a) in PermutationTotals(m, guests)
  {
    ArrangementSeated(m, Elements(guests), a);
    ArrangementsAreListed(guests, a);
    var perms := AllPermutations(guests);
    var k :| 0 <= k < |perms| && perms[k] == a;
    assert PermutationTotals(m, guests)[k] == TotalHappiness(m, a);
  }

  // ---------------------------------------------------------------------
  // The matrix object.

  /** `HappinessMatrix`: the preferences, which part two extends in place. */
  class HappinessMatrix {
    var neighbourHappiness: Matrix

    /** `from_input`: a fold of the lines into the matrix. */
    constructor FromInput(input: string)
      requires AllParsable(Lines(input))
      ensures neighbourHappiness == MatrixOf(ParsePreferences(Lines(input)))
    {
      neighbourHappiness := MatrixOf(ParsePreferences(Lines(input)));
    }

    /** `all_guests`: everyone who has a feeling about somebody. */
    function AllGuests(): (r: set<string>)
      reads this
      ensures forall k :: k in neighbourHappiness ==> k.0 in r
      ensures forall g :: g in r ==> exists k :: k in neighbourHappiness && k.0 == g
    {
      Guests(neighbourHappiness)
    }

    /** `add_myself`: a 0 both ways between me and every guest seen so far. */
    method AddMyself()
      modifies this
      ensures neighbourHappiness == WithMyself(old(neighbourHappiness))
    {
      ghost var m := neighbourHappiness;
      var guests := AllGuests();
      var rest := guests;
      WithMeBesideNobody(m);
      while rest != {}
        invariant rest <= guests
        invariant neighbourHappiness == WithMeBeside(m, guests - rest)
        decreases |rest|
      {
        var guest :| guest in rest;
        WithMeBesideOneMore(m, guests - rest, guest);
        neighbourHappiness := neighbourHappiness[(ME, guest) := 0];
        neighbourHappiness := neighbourHappiness[(guest, ME) := 0];
        assert guests - (rest - {guest}) == (guests - rest) + {guest};
        rest := rest - {guest};
      }
      assert guests - rest == guests;
    }

    /** The largest total over every ordering of the guests. */
    method BestTotal() returns (r: Option<int>)
      requires CoversNeighbours(neighbourHappiness, AllGuests())
      ensures r.Some?
      ensures exists a :: (IsArrangement(a, AllGuests()) && Seated(neighbourHappiness, a) &&
        r.value == TotalHappiness(neighbourHappiness, a))
      ensures forall a :: IsArrangement(a, AllGuests()) ==>
        Seated(neighbourHappiness, a) && TotalHappiness(neighbourHappiness, a) <= r.value
    {
      var guests := Enumerate(AllGuests());
      assert Elements(guests) == AllGuests();
      var totals := PermutationTotals(neighbourHappiness, guests);
      ghost var perms := AllPermutations(guests);
      assert |perms| > 0 by {
        AllPermutationsComplete(guests, guests);
      }
      r := MaxOf(totals);
      var k :| 0 <= k < |totals| && totals[k] == r.value;
      ArrangementSeated(neighbourHappiness, AllGuests(), perms[k]);
      forall a | IsArrangement(a, AllGuests())
        ensures Seated(neighbourHappiness, a) && TotalHappiness(neighbourHappiness, a) <= r.value
      {
        PermutationTotalsCover(neighbourHappiness, guests, a);
      }
    }
  }

  /** Part two can seat a table that part one cannot: after the one line
      "A would gain 1 happiness units by sitting next to B.", A is the only
      guest and `(A, A)` is missing, but A and I know each other. */
  lemma PartTwoNeedsLess()
    ensures var m := map[("A", "B") := 1];
      !CoversNeighbours(m, Guests(m)) && CoversNeighbours(WithMyself(m), Guests(WithMyself(m)))
  {
    var m := map[("A", "B") := 1];
    assert Guests(m) == {"A"} by {
      forall x | x in Guests(m) ensures x == "A" {
        var k :| k in m && k.0 == x;
      }
      assert ("A", "B") in m;
    }
    assert !CoversNeighbours(m, Guests(m)) by {
      assert |Guests(m)| == 1;
      assert ("A", "A") !in m;
    }
    var r := WithMyself(m);
    WithMyselfGuests(m);
    assert ME != "A";
    assert Guests(r) == {"A", ME};
    assert |Guests(r)| == 2;
    assert ("A", ME) in PairsWithMe({"A"}) && (ME, "A") in PairsWithMe({"A"});
    forall a, b | a in Guests(r) && b in Guests(r) && (a != b || |Guests(r)| == 1)
      ensures (a, b) in r
    {
      if a == ME {
        assert b == "A";
      } else {
        assert a == "A" && b == ME;
      }
    }
  }

  // ---------------------------------------------------------------------
  // The puzzle answers.

  /** `part_one`: the best seating of the guests named. */
  method PartOne(input: string) returns (r: Option<int>)
    requires AllParsable(Lines(input))
    requires CoversNeighbours(MatrixOf(ParsePreferences(Lines(input))), Guests(MatrixOf(ParsePreferences(Lines(input)))))
    ensures r.Some?
    ensures var m := MatrixOf(ParsePreferences(Lines(input)));
      forall a :: IsArrangement(a, Guests(m)) ==> Seated(m, a) && TotalHappiness(m, a) <= r.value
    ensures var m := MatrixOf(ParsePreferences(Lines(input)));
      exists a :: (IsArrangement(a, Guests(m)) && Seated(m, a) && r.value == TotalHappiness(m, a))
  {
    var happiness := new HappinessMatrix.FromInput(input);
    r := happiness.BestTotal();
  }

  /** `part_two`: the best seating once I sit down too. */
  method PartTwo(input: string) returns (r: Option<int>)
    requires AllParsable(Lines(input))
    requires var m := WithMyself(MatrixOf(ParsePreferences(Lines(input))));
      CoversNeighbours(m, Guests(m))
    ensures r.Some?
    ensures var m := WithMyself(MatrixOf(ParsePreferences(Lines(input))));
      forall a :: IsArrangement(a, Guests(m)) ==> Seated(m, a) && TotalHappiness(m, a) <= r.value
    ensures var m := WithMyself(MatrixOf(ParsePreferences(Lines(input))));
      exists a :: (IsArrangement(a, Guests(m)) && Seated(m, a) && r.value == TotalHappiness(m, a))
  {
    var happiness := new HappinessMatrix.FromInput(input);
    happiness.AddMyself();
    r := happiness.BestTotal();
  }
}
