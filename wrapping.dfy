/**
 * The present boxes of src/bin/02.rs: each box is given as "WxHxL", and
 * needs its surface area plus its smallest side in paper, and the shortest
 * perimeter around it plus its volume in ribbon.
 */
module Wrapping {
  import opened Wrappers
  import opened Text
  import opened Sums

  /** `BoxDims`: width, height and length. */
  datatype BoxDims = BoxDims(w: nat, h: nat, l: nat)

  function Min(a: nat, b: nat): nat {
    if a <= b then a else b
  }

  function Max(a: nat, b: nat): nat {
    if a <= b then b else a
  }

  /** The three numbers in ascending order: the in-place `sort` of the
      three-element array. */
  function Sort3(t: (nat, nat, nat)): (r: (nat, nat, nat))
    ensures r.0 <= r.1 <= r.2
    ensures multiset{r.0, r.1, r.2} == multiset{t.0, t.1, t.2}
  {
    var (a, b, c) := t;
    if a <= b then
      if b <= c then (a, b, c)
      else if a <= c then (a, c, b)
      else (c, a, b)
    else
      if a <= c then (b, a, c)
      else if b <= c then (b, c, a)
      else (c, b, a)
  }

  /** Two sorted triples with the same elements are equal. */
  lemma SortedUnique(r: (nat, nat, nat), s: (nat, nat, nat))
    requires r.0 <= r.1 <= r.2 && s.0 <= s.1 <= s.2
    requires multiset{r.0, r.1, r.2} == multiset{s.0, s.1, s.2}
    ensures r == s
  {
    var m := multiset{r.0, r.1, r.2};
    assert r.0 in m && r.2 in m && s.0 in m && s.2 in m;
    assert r.0 == s.0;
    assert r.2 == s.2;
    assert multiset{r.1} == m - multiset{r.0, r.2} == multiset{s.1};
    assert r.1 in multiset{s.1};
  }

  /** The sorted dimensions of a box. */
  function Sorted(b: BoxDims): (nat, nat, nat) {
    Sort3((b.w, b.h, b.l))
  }

  /** Every ordering of the three dimensions describes the same box. */
  predicate SameBox(b: BoxDims, c: BoxDims) {
    multiset{b.w, b.h, b.l} == multiset{c.w, c.h, c.l}
  }

  lemma SortedOfSameBox(b: BoxDims, c: BoxDims)
    requires SameBox(b, c)
    ensures Sorted(b) == Sorted(c)
  {
    SortedUnique(Sorted(b), Sorted(c));
  }

  /** Products of three ordered numbers: the two smallest give the
      smallest product of two, and the product of all three does not depend
      on the order. */
  lemma Products(a: nat, b: nat, c: nat)
    requires a <= b <= c
    ensures a * b <= a * c <= b * c
    ensures a * b == b * a && a * c == c * a && b * c == c * b
    ensures a * b * c == a * c * b == b * a * c == b * c * a == c * a * b == c * b * a
  {
    assert a * b <= a * c by { MulMono(a, b, c); }
    assert a * c <= b * c by { MulMono(c, a, b); }
  }

  /** The product of the two smallest dimensions is the smallest side, the
      product of all three is the volume, and the largest dimension is the
      last. */
  lemma SortedProducts(b: BoxDims)
    ensures var s := Sorted(b);
      && s.0 * s.1 == Min(b.w * b.h, Min(b.h * b.l, b.l * b.w))
      && s.0 * s.1 * s.2 == b.w * b.h * b.l
      && s.0 + s.1 + s.2 == b.w + b.h + b.l
      && s.2 == Max(b.w, Max(b.h, b.l))
  {
    var s := Sorted(b);
    Products(s.0, s.1, s.2);
    var (w, h, l) := (b.w, b.h, b.l);
    if w <= h {
      if h <= l {
        assert s == (w, h, l);
      } else if w <= l {
        assert s == (w, l, h);
      } else {
        assert s == (l, w, h);
      }
    } else {
      if w <= l {
        assert s == (h, w, l);
      } else if h <= l {
        assert s == (h, l, w);
      } else {
        assert s == (l, h, w);
      }
    }
  }

  lemma MulMono(a: nat, b: nat, c: nat)
    requires b <= c
    ensures a * b <= a * c
  {
  }

  /** `required_wrapping`: twice the three side areas plus the smallest one.
      The paper is the surface area plus the product of the two smallest
      dimensions. */
  function RequiredWrapping(b: BoxDims): (r: nat)
    ensures var s := Sorted(b);
      r == 2 * (b.w * b.h + b.h * b.l + b.l * b.w) + s.0 * s.1
  {
    SortedProducts(b);
    var sides := [b.w * b.h, b.h * b.l, b.l * b.w];
    2 * (sides[0] + sides[1] + sides[2]) + Min(sides[0], Min(sides[1], sides[2]))
  }

  /** `required_ribbon`: the perimeter of the two smallest dimensions plus the
      product of all three. The ribbon is twice the sum of all dimensions but
      the largest, plus the volume. */
  function RequiredRibbon(b: BoxDims): (r: nat)
    ensures r == 2 * (b.w + b.h + b.l - Max(b.w, Max(b.h, b.l))) + b.w * b.h * b.l
  {
    SortedProducts(b);
    var (a, b', c) := Sorted(b);
    2 * (a + b') + a * b' * c
  }

  /** Neither answer depends on the order in which the dimensions are given. */
  lemma OrderDoesNotMatter(b: BoxDims, c: BoxDims)
    requires SameBox(b, c)
    ensures RequiredWrapping(b) == RequiredWrapping(c)
    ensures RequiredRibbon(b) == RequiredRibbon(c)
  {
    SortedOfSameBox(b, c);
    var s := Sorted(b);
    Products(s.0, s.1, s.2);
    SortedPairSums(b);
    SortedPairSums(c);
  }

  /** The sum of the pairwise products is that of the sorted dimensions. */
  lemma SortedPairSums(b: BoxDims)
    ensures var s := Sorted(b);
      b.w * b.h + b.h * b.l + b.l * b.w == s.0 * s.1 + s.1 * s.2 + s.2 * s.0
  {
    var s := Sorted(b);
    Products(s.0, s.1, s.2);
    var (w, h, l) := (b.w, b.h, b.l);
    if w <= h {
      if h <= l {
        assert s == (w, h, l);
      } else if w <= l {
        assert s == (w, l, h);
      } else {
        assert s == (l, w, h);
      }
    } else {
      if w <= l {
        assert s == (h, w, l);
      } else if h <= l {
        assert s == (h, l, w);
      } else {
        assert s == (l, h, w);
      }
    }
  }

  // ---------------------------------------------------------------------
  // Parsing "WxHxL".

  /** The first three pieces between `x`s all parse as `u32`; anything after
      a third `x` is never looked at. */
  predicate DimsParsable(dims: string) {
    var parts := Split(dims, "x");
    && |parts| >= 3
    && ParseUnsigned(parts[0], U32_BOUND).Some?
    && ParseUnsigned(parts[1], U32_BOUND).Some?
    && ParseUnsigned(parts[2], U32_BOUND).Some?
  }

  /** `BoxDims::from_input`. */
  function FromInput(dims: string): (r: BoxDims)
    requires DimsParsable(dims)
    ensures r.w < U32_BOUND && r.h < U32_BOUND && r.l < U32_BOUND
  {
    var parts := Split(dims, "x");
    BoxDims(ParseUnsigned(parts[0], U32_BOUND).value,
            ParseUnsigned(parts[1], U32_BOUND).value,
            ParseUnsigned(parts[2], U32_BOUND).value)
  }

  /** The text of a box: "WxHxL". */
  function Show(b: BoxDims): string {
    DecimalString(b.w) + "x" + DecimalString(b.h) + "x" + DecimalString(b.l)
  }

  lemma DigitsHaveNoX(s: string)
    requires AllDigits(s)
    ensures forall k :: 0 <= k < |s| ==> s[k] != "x"[0]
  {
  }

  /** Reading the text of a box gives the box back, with the first number
      as the width, the second as the height and the third as the length. */
  lemma FromInputRoundTrip(b: BoxDims)
    requires b.w < U32_BOUND && b.h < U32_BOUND && b.l < U32_BOUND
    ensures DimsParsable(Show(b)) && FromInput(Show(b)) == b
  {
    var w, h, l := DecimalString(b.w), DecimalString(b.h), DecimalString(b.l);
    DigitsHaveNoX(w);
    DigitsHaveNoX(h);
    DigitsHaveNoX(l);
    assert Show(b) == w + "x" + (h + "x" + l);
    SplitOnceAfter(w, "x", h + "x" + l);
    SplitTwo(h, "x", l);
    assert Split(Show(b), "x") == [w] + Split(h + "x" + l, "x");
    DecimalStringParses(b.w, U32_BOUND);
    DecimalStringParses(b.h, U32_BOUND);
    DecimalStringParses(b.l, U32_BOUND);
  }

  // ---------------------------------------------------------------------
  // The answers: one box per whitespace-separated word.

  predicate AllParsable(tokens: seq<string>) {
    forall i :: 0 <= i < |tokens| ==> DimsParsable(tokens[i])
  }

  /** The box of every word. */
  function Boxes(tokens: seq<string>): (r: seq<BoxDims>)
    requires AllParsable(tokens)
    ensures |r| == |tokens| && forall i :: 0 <= i < |tokens| ==> r[i] == FromInput(tokens[i])
  {
    seq(|tokens|, i requires 0 <= i < |tokens| && AllParsable(tokens) => FromInput(tokens[i]))
  }

  /** `map`: the answer for each box, in order. */
  function Each(f: BoxDims -> nat, boxes: seq<BoxDims>): (r: seq<nat>)
    ensures |r| == |boxes| && forall i :: 0 <= i < |boxes| ==> r[i] == f(boxes[i])
  {
    seq(|boxes|, i requires 0 <= i < |boxes| => f(boxes[i]))
  }

  /** `part_one`: the paper for every box. The order needs at least the
      paper of each box, and nothing without boxes. */
  function PartOne(input: string): (r: Option<nat>)
    requires AllParsable(SplitWhitespace(input))
    ensures r.Some?
    ensures var words := SplitWhitespace(input);
      forall i :: 0 <= i < |words| ==> RequiredWrapping(FromInput(words[i])) <= r.value
    ensures SplitWhitespace(input) == [] ==> r == Some(0)
  {
    var papers := Each(RequiredWrapping, Boxes(SplitWhitespace(input)));
    SumAtLeastEach(papers);
    Some(Sum(papers))
  }

  /** `part_two`: the ribbon for every box. The order needs at least the
      ribbon of each box, and nothing without boxes. */
  function PartTwo(input: string): (r: Option<nat>)
    requires AllParsable(SplitWhitespace(input))
    ensures r.Some?
    ensures var words := SplitWhitespace(input);
      forall i :: 0 <= i < |words| ==> RequiredRibbon(FromInput(words[i])) <= r.value
    ensures SplitWhitespace(input) == [] ==> r == Some(0)
  {
    var ribbons := Each(RequiredRibbon, Boxes(SplitWhitespace(input)));
    SumAtLeastEach(ribbons);
    Some(Sum(ribbons))
  }

  lemma SumPair(a: int, b: int)
    ensures Sum([a, b]) == a + b
  {
    assert [a, b][1..] == [b];
    assert Sum([b]) == b + Sum([]);
  }

  // ---------------------------------------------------------------------
  // The examples.

  lemma FromInputFirstExample()
    ensures DimsParsable("2x3x4") && FromInput("2x3x4") == BoxDims(2, 3, 4)
  {
    var b := BoxDims(2, 3, 4);
    assert Show(b) == "2x3x4";
    FromInputRoundTrip(b);
  }

  lemma TenDigits()
    ensures DecimalString(10) == "10"
  {
  }

  lemma FromInputSecondExample()
    ensures DimsParsable("1x1x10") && FromInput("1x1x10") == BoxDims(1, 1, 10)
  {
    var b := BoxDims(1, 1, 10);
    TenDigits();
    assert Show(b) == "1x1x10";
    FromInputRoundTrip(b);
  }

  lemma BoxExamples()
    ensures RequiredWrapping(BoxDims(2, 3, 4)) == 58 && RequiredRibbon(BoxDims(2, 3, 4)) == 34
    ensures RequiredWrapping(BoxDims(1, 1, 10)) == 43 && RequiredRibbon(BoxDims(1, 1, 10)) == 14
  {
  }

  predicate IsWord(s: string) {
    s != [] && forall k :: 0 <= k < |s| ==> !IsWhitespace(s[k])
  }

  lemma BoxesPair(a: string, b: string)
    requires DimsParsable(a) && DimsParsable(b)
    ensures AllParsable([a, b]) && Boxes([a, b]) == [FromInput(a), FromInput(b)]
  {
    var t := [a, b];
    assert AllParsable(t) by {
      forall i | 0 <= i < |t|
        ensures DimsParsable(t[i])
      {
        assert t[i] == a || t[i] == b;
      }
    }
    var r, e := Boxes(t), [FromInput(a), FromInput(b)];
    assert |r| == |e| == 2;
    assert r[0] == e[0] by {
      assert t[0] == a;
    }
    assert r[1] == e[1] by {
      assert t[1] == b;
    }
  }

  lemma TotalsPair(f: BoxDims -> nat, x: BoxDims, y: BoxDims)
    ensures Sum(Each(f, [x, y])) == f(x) + f(y)
  {
    assert Each(f, [x, y]) == [f(x), f(y)];
    SumPair(f(x), f(y));
  }

  /** Two boxes on one line, separated by a space: the answers are the
      sums over the two boxes. */
  lemma TwoBoxes(a: string, b: string)
    requires IsWord(a) && IsWord(b) && DimsParsable(a) && DimsParsable(b)
    ensures AllParsable(SplitWhitespace(a + " " + b))
    ensures PartOne(a + " " + b) == Some(Sum(Each(RequiredWrapping, [FromInput(a), FromInput(b)])))
    ensures PartTwo(a + " " + b) == Some(Sum(Each(RequiredRibbon, [FromInput(a), FromInput(b)])))
  {
    WordsSplit(a, b);
    BoxesPair(a, b);
  }
}
