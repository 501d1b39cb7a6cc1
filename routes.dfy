/**
 * The route planner of src/bin/09.rs: a symmetric table of distances between
 * places, read from lines "A to B = d", and the shortest and longest routes
 * that visit every place once.
 */
module Routes {
  import opened Wrappers
  import opened Text
  import opened Permutations

  type Table = map<(string, string), nat>

  /** Both directions of every entry carry the same distance. */
  ghost predicate Symmetric(t: Table) {
    forall k :: k in t ==> (k.1, k.0) in t && t[(k.1, k.0)] == t[k]
  }

  /** `add_distance` on the table: both directions get `distance`. */
  function WithDistance(t: Table, loc1: string, loc2: string, distance: nat): (r: Table)
    ensures r.Keys == t.Keys + {(loc1, loc2), (loc2, loc1)}
    ensures r[(loc1, loc2)] == distance && r[(loc2, loc1)] == distance
    ensures forall k :: k in t && k != (loc1, loc2) && k != (loc2, loc1) ==> r[k] == t[k]
  {
    t[(loc1, loc2) := distance][(loc2, loc1) := distance]
  }

  lemma WithDistanceSymmetric(t: Table, loc1: string, loc2: string, distance: nat)
    requires Symmetric(t)
    ensures Symmetric(WithDistance(t, loc1, loc2, distance))
  {
  }

  /** The places a table starts an entry from: `all_destinations`. */
  function Origins(t: Table): set<string> {
    set k | k in t :: k.0
  }

  // ---------------------------------------------------------------------
  // The lines.

  /** A route line "A to B = d". */
  datatype Route = Route(source: string, dest: string, distance: nat)

  /** What `from_input` unwraps: a " = ", a " to " before it, and a `u32` after it. */
  predicate RouteParsable(line: string) {
    && SplitOnce(line, " = ").Some?
    && SplitOnce(SplitOnce(line, " = ").value.0, " to ").Some?
    && ParseUnsigned(SplitOnce(line, " = ").value.1, U32_BOUND).Some?
  }

  function ParseRoute(line: string): (r: Route)
    requires RouteParsable(line)
    ensures r.distance < U32_BOUND
  {
    var (instructionPart, distancePart) := SplitOnce(line, " = ").value;
    var (source, dest) := SplitOnce(instructionPart, " to ").value;
    Route(source, dest, ParseUnsigned(distancePart, U32_BOUND).value)
  }

  predicate AllParsable(lines: seq<string>) {
    forall k :: 0 <= k < |lines| ==> RouteParsable(lines[k])
  }

  function ParseRoutes(lines: seq<string>): (r: seq<Route>)
    requires AllParsable(lines)
    ensures |r| == |lines| && forall k :: 0 <= k < |lines| ==> r[k] == ParseRoute(lines[k])
  {
    seq(|lines|, k requires 0 <= k < |lines| => ParseRoute(lines[k]))
  }

  /** The table after the routes, in order. */
  function TableOf(routes: seq<Route>): Table {
    if routes == [] then map[]
    else
      var r := routes[|routes| - 1];
      WithDistance(TableOf(routes[..|routes| - 1]), r.source, r.dest, r.distance)
  }

  /** One more route adds its distance to the table of the routes before it. */
  lemma TableOfPrefix(routes: seq<Route>, k: nat)
    requires k < |routes|
    ensures TableOf(routes[..k + 1]) == WithDistance(TableOf(routes[..k]), routes[k].source, routes[k].dest, routes[k].distance)
  {
    var p := routes[..k + 1];
    assert p[..k] == routes[..k] && p[k] == routes[k];
  }

  lemma {:induction false} TableOfSymmetric(routes: seq<Route>)
    ensures Symmetric(TableOf(routes))
  {
    if routes != [] {
      TableOfSymmetric(routes[..|routes| - 1]);
      var r := routes[|routes| - 1];
      WithDistanceSymmetric(TableOf(routes[..|routes| - 1]), r.source, r.dest, r.distance);
    }
  }

  /** The route joins `a` and `b`, in either direction. */
  predicate Joins(r: Route, a: string, b: string) {
    (r.source == a && r.dest == b) || (r.source == b && r.dest == a)
  }

  /** The last line joining two places decides their distance, both ways. */
  lemma {:induction false} LastRouteWins(routes: seq<Route>, k: nat)
    requires k < |routes|
    requires forall j :: k < j < |routes| ==> !Joins(routes[j], routes[k].source, routes[k].dest)
    ensures (routes[k].source, routes[k].dest) in TableOf(routes) && (routes[k].dest, routes[k].source) in TableOf(routes)
    ensures TableOf(routes)[(routes[k].source, routes[k].dest)] == routes[k].distance
    ensures TableOf(routes)[(routes[k].dest, routes[k].source)] == routes[k].distance
  {
    if k < |routes| - 1 {
      var init := routes[..|routes| - 1];
      assert init[k] == routes[k];
      LastRouteWins(init, k);
    }
  }

  /** Every place named on a line, and only those, starts an entry. */
  lemma {:induction false} OriginsAreNamedPlaces(routes: seq<Route>, x: string)
    ensures x in Origins(TableOf(routes)) <==> exists k :: 0 <= k < |routes| && (routes[k].source == x || routes[k].dest == x)
  {
    if routes != [] {
      var init := routes[..|routes| - 1];
      var r := routes[|routes| - 1];
      OriginsAreNamedPlaces(init, x);
      var t := TableOf(routes);
      if x in Origins(TableOf(init)) {
        var k :| 0 <= k < |init| && (init[k].source == x || init[k].dest == x);
        assert routes[k] == init[k];
        var y :| (x, y) in TableOf(init);
        assert (x, y) in t;
      }
      if r.source == x {
        assert (r.source, r.dest) in t;
      }
      if r.dest == x {
        assert (r.dest, r.source) in t;
      }
      if x in Origins(t) {
        var y :| (x, y) in t;
      }
      forall k | 0 <= k < |init| && (routes[k].source == x || routes[k].dest == x)
        ensures x in Origins(TableOf(init))
      {
        assert init[k] == routes[k];
      }
    }
  }

  // ---------------------------------------------------------------------
  // Route lengths.

  /** Every consecutive pair of the path has a distance; `unwrap` panics otherwise. */
  ghost predicate Linked(t: Table, path: seq<string>) {
    forall i :: 0 <= i < |path| - 1 ==> (path[i], path[i + 1]) in t
  }

  /** The sum over the windows of two of the path. */
  function RouteLength(t: Table, path: seq<string>): (r: nat)
    requires Linked(t, path)
    ensures forall i :: 0 <= i < |path| - 1 ==> t[(path[i], path[i + 1])] <= r
  {
    if |path| <= 1 then 0 else t[(path[0], path[1])] + RouteLength(t, path[1..])
  }

  lemma {:induction false} RouteLengthSnoc(t: Table, path: seq<string>, x: string)
    requires path != [] && Linked(t, path + [x])
    ensures Linked(t, path) && (path[|path| - 1], x) in t
    ensures RouteLength(t, path + [x]) == RouteLength(t, path) + t[(path[|path| - 1], x)]
  {
    var p := path + [x];
    assert forall i :: 0 <= i < |path| ==> p[i] == path[i];
    assert (p[|path| - 1], p[|path|]) in t;
    if |path| > 1 {
      assert p[1..] == path[1..] + [x];
      RouteLengthSnoc(t, path[1..], x);
    }
  }

  function Reverse(s: seq<string>): (r: seq<string>)
    ensures |r| == |s| && forall i :: 0 <= i < |s| ==> r[i] == s[|s| - 1 - i]
  {
    if s == [] then [] else Reverse(s[1..]) + [s[0]]
  }

  /** On a symmetric table, a route and its reverse have the same length. */
  lemma {:induction false} RouteLengthReversed(t: Table, path: seq<string>)
    requires Symmetric(t) && Linked(t, path)
    ensures Linked(t, Reverse(path))
    ensures RouteLength(t, Reverse(path)) == RouteLength(t, path)
  {
    var r := Reverse(path);
    forall i | 0 <= i < |r| - 1
      ensures (r[i], r[i + 1]) in t
    {
      var j := |path| - 2 - i;
      assert (path[j], path[j + 1]) in t;
    }
    if |path| > 1 {
      RouteLengthReversed(t, path[1..]);
      assert r == Reverse(path[1..]) + [path[0]];
      RouteLengthSnoc(t, Reverse(path[1..]), path[0]);
    }
  }

  /** Every two different places have a distance. */
  ghost predicate Connected(t: Table, places: set<string>) {
    forall a, b :: a in places && b in places && a != b ==> (a, b) in t
  }

  lemma ArrangementLinked(t: Table, places: set<string>, path: seq<string>)
    requires Connected(t, places) && IsArrangement(path, places)
    ensures Linked(t, path)
  {
    forall i | 0 <= i < |path| - 1
      ensures (path[i], path[i + 1]) in t
    {
      assert path[i] in Elements(path) && path[i + 1] in Elements(path);
    }
  }

  /** `permutation_distances`: the length of each ordering of the places. */
  function PermutationDistances(t: Table, places: seq<string>): (r: seq<int>)
    requires Distinct(places) && Connected(t, Elements(places))
    ensures |r| == |AllPermutations(places)|
    ensures forall k :: 0 <= k < |r| ==>
      IsArrangement(AllPermutations(places)[k], Elements(places)) && r[k] == RouteLength(t, AllPermutations(places)[k])
  {
    var perms := AllPermutations(places);
    assert forall k :: 0 <= k < |perms| ==> IsArrangement(perms[k], Elements(places)) && Linked(t, perms[k]) by {
      forall k | 0 <= k < |perms|
        ensures IsArrangement(perms[k], Elements(places)) && Linked(t, perms[k])
      {
        assert perms[k] in perms;
        ListedAreArrangements(places, perms[k]);
        ArrangementLinked(t, Elements(places), perms[k]);
      }
    }
    seq(|perms|, k requires 0 <= k < |perms| => RouteLength(t, perms[k]))
  }

  /** What the shortest or longest route promises: some route has that
      length, and it bounds every route's length. */
  lemma PermutationDistancesCover(t: Table, places: seq<string>, path: seq<string>)
    requires Distinct(places) && Connected(t, Elements(places))
    requires IsArrangement(path, Elements(places))
    ensures Linked(t, path)
    ensures RouteLength(t, path) in PermutationDistances(t, places)
  {
    ArrangementLinked(t, Elements(places), path);
    ArrangementsAreListed(places, path);
    var perms := AllPermutations(places);
    var k :| 0 <= k < |perms| && perms[k] == path;
    assert PermutationDistances(t, places)[k] == RouteLength(t, path);
  }

  // ---------------------------------------------------------------------
  // The table object.

  /** `Destinations`: the distance table, filled in place. */
  class Destinations {
    var distances: Table

    constructor New()
      ensures distances == map[]
    {
      distances := map[];
    }

    /** `add_distance`: both directions get `distance`. */
    method AddDistance(loc1: string, loc2: string, distance: nat)
      modifies this
      ensures distances == WithDistance(old(distances), loc1, loc2, distance)
    {
      distances := distances[(loc1, loc2) := distance];
      distances := distances[(loc2, loc1) := distance];
    }

    /** `from_input`: every line's distance added, in order. */
    static method FromInput(input: string) returns (d: Destinations)
      requires AllParsable(Lines(input))
      ensures fresh(d) && d.distances == TableOf(ParseRoutes(Lines(input)))
    {
      d := new Destinations.New();
      var lines := Lines(input);
      ghost var routes := ParseRoutes(lines);
      var k := 0;
      while k < |lines|
        invariant 0 <= k <= |lines|
        invariant d.distances == TableOf(routes[..k])
      {
        var route := ParseRoute(lines[k]);
        TableOfPrefix(routes, k);
        d.AddDistance(route.source, route.dest, route.distance);
        k := k + 1;
      }
      assert routes[..k] == routes;
    }

    /** `all_destinations`: every place a distance starts from; on a table
        filled both ways, that is every place a distance reaches too. */
    function AllDestinations(): (r: set<string>)
      reads this
      ensures forall k :: k in distances ==> k.0 in r
      ensures forall g :: g in r ==> exists k :: k in distances && k.0 == g
      ensures Symmetric(distances) ==> forall k :: k in distances ==> k.1 in r
    {
      Origins(distances)
    }

    /** `salesman_distance`: the shortest route through every place. */
    method SalesmanDistance() returns (r: Option<nat>)
      requires Connected(distances, AllDestinations())
      ensures r.Some?
      ensures exists path :: IsArrangement(path, AllDestinations()) && Linked(distances, path) && r.value == RouteLength(distances, path)
      ensures forall path :: IsArrangement(path, AllDestinations()) ==> Linked(distances, path) && r.value <= RouteLength(distances, path)
    {
      var places := Enumerate(AllDestinations());
      assert Elements(places) == AllDestinations();
      var lengths := PermutationDistances(distances, places);
      ghost var perms := AllPermutations(places);
      assert |perms| > 0 by {
        AllPermutationsComplete(places, places);
      }
      var m := MinOf(lengths);
      var k :| 0 <= k < |lengths| && lengths[k] == m.value;
      ArrangementLinked(distances, AllDestinations(), perms[k]);
      forall path | IsArrangement(path, AllDestinations())
        ensures Linked(distances, path) && m.value <= RouteLength(distances, path)
      {
        PermutationDistancesCover(distances, places, path);
      }
      r := Some(m.value);
    }

    /** `terrible_salesman_distance`: the longest route through every place. */
    method TerribleSalesmanDistance() returns (r: Option<nat>)
      requires Connected(distances, AllDestinations())
      ensures r.Some?
      ensures exists path :: IsArrangement(path, AllDestinations()) && Linked(distances, path) && r.value == RouteLength(distances, path)
      ensures forall path :: IsArrangement(path, AllDestinations()) ==> Linked(distances, path) && RouteLength(distances, path) <= r.value
    {
      var places := Enumerate(AllDestinations());
      assert Elements(places) == AllDestinations();
      var lengths := PermutationDistances(distances, places);
      ghost var perms := AllPermutations(places);
      assert |perms| > 0 by {
        AllPermutationsComplete(places, places);
      }
      var m := MaxOf(lengths);
      var k :| 0 <= k < |lengths| && lengths[k] == m.value;
      ArrangementLinked(distances, AllDestinations(), perms[k]);
      forall path | IsArrangement(path, AllDestinations())
        ensures Linked(distances, path) && RouteLength(distances, path) <= m.value
      {
        PermutationDistancesCover(distances, places, path);
      }
      r := Some(m.value);
    }
  }

  // ---------------------------------------------------------------------
  // Printing a line, and the round trip through the parser.

  /** A place name without spaces or equals signs. */
  predicate IsPlace(x: string) {
    forall k :: 0 <= k < |x| ==> x[k] != ' ' && x[k] != '='
  }

  function ShowRoute(r: Route): string {
    r.source + " to " + r.dest + " = " + DecimalString(r.distance)
  }

  lemma ParseRouteRoundTrip(r: Route)
    requires IsPlace(r.source) && IsPlace(r.dest) && r.distance < U32_BOUND
    ensures RouteParsable(ShowRoute(r)) && ParseRoute(ShowRoute(r)) == r
  {
    var instructionPart := r.source + " to " + r.dest;
    var digits := DecimalString(r.distance);
    assert forall k :: 0 <= k < |instructionPart| ==> instructionPart[k] != '=';
    SplitOnceAfterSecond(instructionPart, " = ", digits);
    assert ShowRoute(r) == instructionPart + " = " + digits;
    SplitOnceAfter(r.source, " to ", r.dest);
    DecimalStringParses(r.distance, U32_BOUND);
  }

  // ---------------------------------------------------------------------
  // The puzzle answers.

  /** `part_one`: the shortest route through every place named. */
  method PartOne(input: string) returns (r: Option<nat>)
    requires AllParsable(Lines(input))
    requires Connected(TableOf(ParseRoutes(Lines(input))), Origins(TableOf(ParseRoutes(Lines(input)))))
    ensures r.Some?
    ensures exists path :: (IsArrangement(path, Origins(TableOf(ParseRoutes(Lines(input))))) &&
      Linked(TableOf(ParseRoutes(Lines(input))), path) && r.value == RouteLength(TableOf(ParseRoutes(Lines(input))), path))
    ensures forall path :: IsArrangement(path, Origins(TableOf(ParseRoutes(Lines(input))))) ==>
      Linked(TableOf(ParseRoutes(Lines(input))), path) && r.value <= RouteLength(TableOf(ParseRoutes(Lines(input))), path)
  {
    var destinations := Destinations.FromInput(input);
    r := destinations.SalesmanDistance();
  }

  /** `part_two`: the longest route through every place named. */
  method PartTwo(input: string) returns (r: Option<nat>)
    requires AllParsable(Lines(input))
    requires Connected(TableOf(ParseRoutes(Lines(input))), Origins(TableOf(ParseRoutes(Lines(input)))))
    ensures r.Some?
    ensures exists path :: (IsArrangement(path, Origins(TableOf(ParseRoutes(Lines(input))))) &&
      Linked(TableOf(ParseRoutes(Lines(input))), path) && r.value == RouteLength(TableOf(ParseRoutes(Lines(input))), path))
    ensures forall path :: IsArrangement(path, Origins(TableOf(ParseRoutes(Lines(input))))) ==>
      Linked(TableOf(ParseRoutes(Lines(input))), path) && RouteLength(TableOf(ParseRoutes(Lines(input))), path) <= r.value
  {
    var destinations := Destinations.FromInput(input);
    r := destinations.TerribleSalesmanDistance();
  }
}
