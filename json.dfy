/**
 * The JSON number sums of src/bin/12.rs.
 *
 * Part one works on the text: it cuts the document at every bracket, brace,
 * colon and comma and adds up the pieces that read as 32-bit integers. Part
 * two works on the parsed document: it adds up the numbers, except that an
 * object with the string "red" among its values counts nothing at all.
 */
module Json {
  import opened Wrappers
  import opened Text
  import opened Sums

  /** A JSON document with integer numbers. */
  datatype Json =
    | Null
    | Bool(b: bool)
    | Number(n: int)
    | Str(s: string)
    | Array(items: seq<Json>)
    | Object(members: seq<Member>)

  /** A key and its value inside an object. */
  datatype Member = Member(key: string, value: Json)

  // ---------------------------------------------------------------------
  // Part one: the pieces between separators.

  /** The characters `part_one` splits at. */
  const SEPARATORS: set<char> := {'[', ']', '{', '}', ':', ','}

  /** The `filter_map`: the values of the pieces that parse as `i32`. */
  function Parsed(pieces: seq<string>): (r: seq<int>)
    ensures |r| <= |pieces|
  {
    if pieces == [] then []
    else
      var rest := Parsed(pieces[1..]);
      match ParseSigned(pieces[0], I32_BOUND)
      case Some(n) => [n] + rest
      case None => rest
  }

  /** The sum of the numeric pieces of a text. */
  function TextSum(s: string): int {
    Sum(Parsed(SplitAny(s, SEPARATORS)))
  }

  /** `part_one`: when the input is the text of a plain document, the sum
      of every number in it. */
  function PartOne(input: string): (r: Option<int>)
    ensures r.Some?
    ensures forall j :: Plain(j) && Show(j) == input ==> r == Some(SumNumbers(j))
  {
    TextSumOfShow(input);
    Some(TextSum(input))
  }

  lemma {:induction false} ParsedAppend(a: seq<string>, b: seq<string>)
    ensures Parsed(a + b) == Parsed(a) + Parsed(b)
  {
    if a != [] {
      assert (a + b)[1..] == a[1..] + b;
      ParsedAppend(a[1..], b);
    } else {
      assert a + b == b;
    }
  }

  /** Cutting at a separator character splits the pieces in two. */
  lemma {:induction false} SplitAtSeparator(p: string, c: char, q: string, seps: set<char>)
    requires c in seps
    ensures SplitAny(p + [c] + q, seps) == SplitAny(p, seps) + SplitAny(q, seps)
  {
    if p != [] {
      assert (p + [c] + q)[1..] == p[1..] + [c] + q;
      SplitAtSeparator(p[1..], c, q, seps);
    } else {
      assert p + [c] + q == [c] + q;
      assert ([c] + q)[1..] == q;
    }
  }

  /** The numbers on either side of a separator add up. */
  lemma TextSumSplit(p: string, c: char, q: string)
    requires c in SEPARATORS
    ensures TextSum(p + [c] + q) == TextSum(p) + TextSum(q)
  {
    SplitAtSeparator(p, c, q, SEPARATORS);
    ParsedAppend(SplitAny(p, SEPARATORS), SplitAny(q, SEPARATORS));
    SumAppend(Parsed(SplitAny(p, SEPARATORS)), Parsed(SplitAny(q, SEPARATORS)));
  }

  predicate NoSeparator(s: string) {
    forall i :: 0 <= i < |s| ==> s[i] !in SEPARATORS
  }

  /** A text without separators is one piece. */
  lemma {:induction false} OnePiece(s: string)
    requires NoSeparator(s)
    ensures SplitAny(s, SEPARATORS) == [s]
  {
    if s != [] {
      assert NoSeparator(s[1..]) by {
        forall i | 0 <= i < |s[1..]| ensures s[1..][i] !in SEPARATORS {
          assert s[1..][i] == s[i + 1];
        }
      }
      OnePiece(s[1..]);
      assert [s[0]] + s[1..] == s;
    }
  }

  /** A piece without separators that does not start like a number adds
      nothing. */
  lemma NonNumericPiece(s: string)
    requires NoSeparator(s) && s != [] && !IsDigit(s[0]) && s[0] != '+' && s[0] != '-'
    ensures TextSum(s) == 0
  {
    OnePiece(s);
    NonNumericDoesNotParse(s, 0, I32_BOUND);
  }

  lemma EmptyText()
    ensures TextSum([]) == 0
  {
    assert SplitAny([], SEPARATORS) == [[]];
    assert ParseSigned([], I32_BOUND) == None;
  }

  // ---------------------------------------------------------------------
  // Writing a document out.

  /** The text of an integer, as JSON writes it. */
  function ShowNumber(n: int): (r: string)
    ensures r != []
  {
    if n < 0 then "-" + DecimalString(-n) else DecimalString(n)
  }

  /** A document written compactly, without white space or string escapes. */
  function Show(j: Json): (r: string)
    ensures r != []
    decreases j, 1
  {
    match j
    case Null => "null"
    case Bool(b) => if b then "true" else "false"
    case Number(n) => ShowNumber(n)
    case Str(s) => "\"" + s + "\""
    case Array(items) => "[" + ShowItems(items) + "]"
    case Object(members) => "{" + ShowMembers(members) + "}"
  }

  function ShowItems(items: seq<Json>): string
    decreases items, 0
  {
    if items == [] then []
    else if |items| == 1 then Show(items[0])
    else Show(items[0]) + "," + ShowItems(items[1..])
  }

  function ShowMember(m: Member): string
    decreases m, 0
  {
    "\"" + m.key + "\"" + ":" + Show(m.value)
  }

  function ShowMembers(members: seq<Member>): string
    decreases members, 1
  {
    if members == [] then []
    else if |members| == 1 then ShowMember(members[0])
    else ShowMember(members[0]) + "," + ShowMembers(members[1..])
  }

  // ---------------------------------------------------------------------
  // The numbers of a document.

  /** The sum of every number in the document. */
  function SumNumbers(j: Json): int
    decreases j, 1
  {
    match j
    case Number(n) => n
    case Array(items) => SumItems(items)
    case Object(members) => SumMembers(members)
    case _ => 0
  }

  function SumItems(items: seq<Json>): int
    decreases items, 0
  {
    if items == [] then 0 else SumNumbers(items[0]) + SumItems(items[1..])
  }

  function SumMembers(members: seq<Member>): int
    decreases members, 0
  {
    if members == [] then 0 else SumNumbers(members[0].value) + SumMembers(members[1..])
  }

  /** Every string and key is free of separators and every number fits in
      an `i32`: the documents whose text part one reads number by number. */
  predicate Plain(j: Json)
    decreases j, 1
  {
    match j
    case Number(n) => -(I32_BOUND as int) <= n < I32_BOUND
    case Str(s) => NoSeparator(s)
    case Array(items) => PlainItems(items)
    case Object(members) => PlainMembers(members)
    case _ => true
  }

  predicate PlainItems(items: seq<Json>)
    decreases items, 0
  {
    items == [] || (Plain(items[0]) && PlainItems(items[1..]))
  }

  predicate PlainMembers(members: seq<Member>)
    decreases members, 0
  {
    members == [] || (NoSeparator(members[0].key) && Plain(members[0].value) && PlainMembers(members[1..]))
  }

  /** An `i32` written out reads back as itself. */
  lemma NumberPiece(n: int)
    requires -(I32_BOUND as int) <= n < I32_BOUND
    ensures TextSum(ShowNumber(n)) == n
  {
    var t := ShowNumber(n);
    var digits := DecimalString(if n < 0 then -n else n);
    DecimalStringValue(if n < 0 then -n else n);
    assert NoSeparator(t) by {
      if n < 0 {
        assert t == "-" + digits;
        forall i | 0 <= i < |t| ensures t[i] !in SEPARATORS {
          if i > 0 {
            assert t[i] == digits[i - 1];
          }
        }
      }
    }
    OnePiece(t);
    assert ParseDigits(digits) == Some(if n < 0 then -n else n);
    if n < 0 {
      assert t[0] == '-' && t[1..] == digits;
    } else {
      assert IsDigit(t[0]);
    }
    assert ParseSigned(t, I32_BOUND) == Some(n);
    assert [t][1..] == [];
    assert Parsed([t]) == [n];
    assert [n][1..] == [];
    assert Sum([n]) == n + Sum([]);
  }

  /** A string written out in quotes adds nothing. */
  lemma QuotedPiece(s: string)
    requires NoSeparator(s)
    ensures TextSum("\"" + s + "\"") == 0
  {
    var t := "\"" + s + "\"";
    assert NoSeparator(t) by {
      forall i | 0 <= i < |t| ensures t[i] !in SEPARATORS {
        if 0 < i <= |s| {
          assert t[i] == s[i - 1];
        }
      }
    }
    NonNumericPiece(t);
  }

  /** Part one reads every number of a plain document's text and nothing
      else. */
  lemma {:induction false} ShowSums(j: Json)
    requires Plain(j)
    ensures TextSum(Show(j)) == SumNumbers(j)
    decreases j, 1
  {
    match j
    case Null =>
      NonNumericPiece("null");
    case Bool(b) =>
      NonNumericPiece(if b then "true" else "false");
    case Number(n) =>
      NumberPiece(n);
    case Str(s) =>
      QuotedPiece(s);
    case Array(items) =>
      ShowItemsSums(items);
      Bracketed('[', ShowItems(items), ']');
    case Object(members) =>
      ShowMembersSums(members);
      Bracketed('{', ShowMembers(members), '}');
  }

  /** Brackets around a text add nothing. */
  lemma Bracketed(open: char, t: string, close: char)
    requires open in SEPARATORS && close in SEPARATORS
    ensures TextSum([open] + t + [close]) == TextSum(t)
  {
    EmptyText();
    TextSumSplit([], open, t + [close]);
    assert [] + [open] + (t + [close]) == [open] + t + [close];
    TextSumSplit(t, close, []);
    assert t + [close] + [] == t + [close];
  }

  lemma {:induction false} ShowItemsSums(items: seq<Json>)
    requires PlainItems(items)
    ensures TextSum(ShowItems(items)) == SumItems(items)
    decreases items, 0
  {
    if items == [] {
      EmptyText();
    } else if |items| == 1 {
      ShowSums(items[0]);
      assert items[1..] == [];
    } else {
      ShowSums(items[0]);
      ShowItemsSums(items[1..]);
      TextSumSplit(Show(items[0]), ',', ShowItems(items[1..]));
    }
  }

  lemma ShowMemberSums(m: Member)
    requires NoSeparator(m.key) && Plain(m.value)
    ensures TextSum(ShowMember(m)) == SumNumbers(m.value)
    decreases m, 0
  {
    ShowSums(m.value);
    QuotedPiece(m.key);
    TextSumSplit("\"" + m.key + "\"", ':', Show(m.value));
  }

  lemma {:induction false} ShowMembersSums(members: seq<Member>)
    requires PlainMembers(members)
    ensures TextSum(ShowMembers(members)) == SumMembers(members)
    decreases members, 0
  {
    if members == [] {
      EmptyText();
    } else if |members| == 1 {
      ShowMemberSums(members[0]);
      assert members[1..] == [];
    } else {
      ShowMemberSums(members[0]);
      ShowMembersSums(members[1..]);
      TextSumSplit(ShowMember(members[0]), ',', ShowMembers(members[1..]));
    }
  }

  /** Whichever plain document a text prints, its text sum is that
      document's number sum. */
  lemma TextSumOfShow(input: string)
    ensures forall j :: Plain(j) && Show(j) == input ==> TextSum(input) == SumNumbers(j)
  {
    forall j | Plain(j) && Show(j) == input
      ensures TextSum(input) == SumNumbers(j)
    {
      ShowSums(j);
    }
  }

  /** Part one on the text of a plain document is the sum of its numbers. */
  lemma PartOneOfShow(j: Json)
    requires Plain(j)
    ensures PartOne(Show(j)) == Some(SumNumbers(j))
  {
    ShowSums(j);
  }

  // ---------------------------------------------------------------------
  // Part two: the score.

  /** Some value of the object, not key, is the string "red". */
  predicate HasRedValue(members: seq<Member>) {
    exists i :: 0 <= i < |members| && members[i].value == Str("red")
  }

  /** `score_content`. Without a "red" object the score is the sum of all
      numbers. */
  function Score(j: Json): (r: int)
    ensures NoRed(j) ==> r == SumNumbers(j)
    decreases j, 1
  {
    match j
    case Object(members) => if HasRedValue(members) then 0 else ScoreMembers(members)
    case Array(items) => ScoreItems(items)
    case Number(n) => n
    case _ => 0
  }

  function ScoreItems(items: seq<Json>): (r: int)
    ensures NoRedItems(items) ==> r == SumItems(items)
    decreases items, 0
  {
    if items == [] then 0 else Score(items[0]) + ScoreItems(items[1..])
  }

  function ScoreMembers(members: seq<Member>): (r: int)
    ensures NoRedMembers(members) ==> r == SumMembers(members)
    decreases members, 0
  {
    if members == [] then 0 else Score(members[0].value) + ScoreMembers(members[1..])
  }

  /** `part_two`, on the parsed document. */
  function PartTwo(document: Json): (r: Option<int>)
    ensures r.Some?
  {
    Some(Score(document))
  }

  /** No object anywhere in the document has a "red" value. */
  predicate NoRed(j: Json)
    decreases j, 1
  {
    match j
    case Array(items) => NoRedItems(items)
    case Object(members) => !HasRedValue(members) && NoRedMembers(members)
    case _ => true
  }

  predicate NoRedItems(items: seq<Json>)
    decreases items, 0
  {
    items == [] || (NoRed(items[0]) && NoRedItems(items[1..]))
  }

  predicate NoRedMembers(members: seq<Member>)
    decreases members, 0
  {
    members == [] || (NoRed(members[0].value) && NoRedMembers(members[1..]))
  }

  /** Every number in the document is at least zero. */
  predicate NonNegative(j: Json)
    decreases j, 1
  {
    match j
    case Number(n) => n >= 0
    case Array(items) => forall i :: 0 <= i < |items| ==> NonNegative(items[i])
    case Object(members) => forall i :: 0 <= i < |members| ==> NonNegative(members[i].value)
    case _ => true
  }

  /** Ignoring "red" objects only ever removes numbers: with no negative
      numbers the score lies between zero and the plain sum. */
  lemma {:induction false} ScoreBounded(j: Json)
    requires NonNegative(j)
    ensures 0 <= Score(j) <= SumNumbers(j)
    decreases j, 1
  {
    match j
    case Array(items) => ScoreBoundedItems(items);
    case Object(members) => ScoreBoundedMembers(members);
    case _ =>
  }

  lemma {:induction false} ScoreBoundedItems(items: seq<Json>)
    requires forall i :: 0 <= i < |items| ==> NonNegative(items[i])
    ensures 0 <= ScoreItems(items) <= SumItems(items)
    decreases items, 0
  {
    if items != [] {
      ScoreBounded(items[0]);
      ScoreBoundedItems(items[1..]);
    }
  }

  lemma {:induction false} ScoreBoundedMembers(members: seq<Member>)
    requires forall i :: 0 <= i < |members| ==> NonNegative(members[i].value)
    ensures 0 <= ScoreMembers(members) <= SumMembers(members)
    ensures 0 <= SumMembers(members)
    decreases members, 0
  {
    if members != [] {
      ScoreBounded(members[0].value);
      ScoreBoundedMembers(members[1..]);
    }
  }

  lemma {:induction false} ScoreItemsAppend(a: seq<Json>, b: seq<Json>)
    ensures ScoreItems(a + b) == ScoreItems(a) + ScoreItems(b)
  {
    if a != [] {
      assert (a + b)[1..] == a[1..] + b;
      ScoreItemsAppend(a[1..], b);
    } else {
      assert a + b == b;
    }
  }

  /** A "red" string inside an array changes nothing. */
  lemma RedInArray(items: seq<Json>, more: seq<Json>)
    ensures Score(Array(items + [Str("red")] + more)) == Score(Array(items + more))
  {
    ScoreItemsAppend(items + [Str("red")], more);
    ScoreItemsAppend(items, [Str("red")]);
    ScoreItemsAppend(items, more);
  }

  /** On a plain document without "red" objects the two parts agree. */
  lemma PartsAgree(j: Json)
    requires Plain(j) && NoRed(j)
    ensures PartOne(Show(j)) == PartTwo(j)
  {
    PartOneOfShow(j);
  }

  // ---------------------------------------------------------------------
  // The documents of the puzzle's examples.

  lemma ScoreExamples()
    ensures Score(Array([Number(1), Number(2), Number(3)])) == 6
    ensures Score(Object([Member("a", Number(2)), Member("b", Number(4))])) == 6
    ensures Score(Array([Array([Array([Number(3)])])])) == 3
    ensures Score(Object([Member("a", Object([Member("b", Number(4))])), Member("c", Number(-1))])) == 3
    ensures Score(Object([Member("a", Array([Number(-1), Number(1)]))])) == 0
    ensures Score(Array([Number(-1), Object([Member("a", Number(1))])])) == 0
    ensures Score(Array([])) == 0 && Score(Object([])) == 0
  {
    FlatExamples();
    NestedExamples();
  }

  lemma FlatExamples()
    ensures Score(Array([Number(1), Number(2), Number(3)])) == 6
    ensures Score(Object([Member("a", Number(2)), Member("b", Number(4))])) == 6
    ensures Score(Array([])) == 0 && Score(Object([])) == 0
  {
    assert !HasRedValue([Member("a", Number(2)), Member("b", Number(4))]);
  }

  lemma NestedExamples()
    ensures Score(Array([Array([Array([Number(3)])])])) == 3
    ensures Score(Object([Member("a", Object([Member("b", Number(4))])), Member("c", Number(-1))])) == 3
    ensures Score(Object([Member("a", Array([Number(-1), Number(1)]))])) == 0
    ensures Score(Array([Number(-1), Object([Member("a", Number(1))])])) == 0
  {
    assert !HasRedValue([Member("b", Number(4))]);
    assert !HasRedValue([Member("a", Object([Member("b", Number(4))])), Member("c", Number(-1))]);
    assert !HasRedValue([Member("a", Array([Number(-1), Number(1)]))]);
    assert !HasRedValue([Member("a", Number(1))]);
  }

  lemma RedExamples()
    ensures Score(Array([Number(1), Object([Member("c", Str("red")), Member("b", Number(2))]), Number(3)])) == 4
    ensures Score(Object([Member("d", Str("red")), Member("e", Array([Number(1), Number(2), Number(3), Number(4)])), Member("f", Number(5))])) == 0
    ensures Score(Array([Number(1), Str("red"), Number(5)])) == 6
  {
    assert [Member("c", Str("red")), Member("b", Number(2))][0].value == Str("red");
    assert [Member("d", Str("red")), Member("e", Array([Number(1), Number(2), Number(3), Number(4)])), Member("f", Number(5))][0].value == Str("red");
  }

  lemma PartOneExample()
    ensures PartOne("[1,2,3]") == Some(6)
  {
    var j := Array([Number(1), Number(2), Number(3)]);
    assert DecimalString(1) == "1" && DecimalString(2) == "2" && DecimalString(3) == "3";
    assert ShowItems(j.items[2..]) == "3";
    assert ShowItems(j.items[1..]) == "2,3";
    assert Show(j) == "[1,2,3]";
    assert Plain(j);
    PartOneOfShow(j);
  }
}
