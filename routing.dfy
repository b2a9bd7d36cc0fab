/**
 * The route a team follows to a call, from an OSRM-style routing service:
 * the request URL, and the thinning of the returned GeoJSON line to every
 * third position.
 */
module Routing {
  import opened Collections
  import opened Domain
  import opened Schemas

  /** A GeoJSON position: longitude first, then latitude (section 3.1.1 of RFC 7946). */
  type Position = seq<real>

  /** The record built from one position: `lon` is its first member, `lat` its second. */
  function ToCoordinates(p: Position): Coordinates
    requires |p| >= 2
  {
    Coordinates(p[1], p[0])
  }

  /** A position the comprehension can read and the coordinates schema accepts. */
  predicate Usable(p: Position)
  {
    |p| >= 2 && ValidCoordinates(ToCoordinates(p))
  }

  /** How many indices `range(0, n, 3)` yields. */
  function Thirds(n: nat): nat
  {
    (n + 2) / 3
  }

  /**
   * The comprehension over `range(0, len(route), 3)`: the positions at
   * indices 0, 3, 6, … in order, each turned into coordinates. A kept
   * position that is too short or out of the schema's bounds raises, and every
   * exception becomes RoutingFailed.
   */
  function Downsample(route: seq<Position>): (r: Result<seq<Coordinates>>)
    ensures r.Ok? <==> forall k :: 0 <= k < Thirds(|route|) ==> 3 * k < |route| && Usable(route[3 * k])
    ensures r.Err? ==> r.error == RoutingFailed
    ensures r.Ok? ==> |r.value| == Thirds(|route|)
    ensures r.Ok? ==> forall k :: 0 <= k < |r.value| ==> 3 * k < |route| && |route[3 * k]| >= 2 && r.value[k] == ToCoordinates(route[3 * k])
  {
    var n := Thirds(|route|);
    if forall k :: 0 <= k < n ==> Usable(route[3 * k]) then
      Ok(seq(n, (k: int) requires 0 <= k < n => ToCoordinates(route[3 * k])))
    else
      Err(RoutingFailed)
  }

  /**
   * The kept indices are exactly the multiples of 3 below the length: every
   * such position is kept, and a route is readable exactly when all of them are usable.
   */
  lemma DownsampleKeepsEveryThird(route: seq<Position>)
    ensures forall i :: 0 <= i < |route| && i % 3 == 0 ==> i / 3 < Thirds(|route|) && 3 * (i / 3) == i
    ensures Downsample(route).Ok? <==> forall i :: 0 <= i < |route| && i % 3 == 0 ==> Usable(route[i])
  {
    forall i | 0 <= i < |route| && i % 3 == 0
      ensures i / 3 < Thirds(|route|) && 3 * (i / 3) == i
    {
    }
    if forall i :: 0 <= i < |route| && i % 3 == 0 ==> Usable(route[i]) {
      forall k | 0 <= k < Thirds(|route|)
        ensures 3 * k < |route| && Usable(route[3 * k])
      {
        assert (3 * k) % 3 == 0;
      }
    }
  }

  /** An empty line gives an empty route; a non-empty one keeps its first position. */
  lemma DownsampleEnds(route: seq<Position>)
    ensures Downsample(route) == Ok([]) <==> route == []
    ensures route != [] && Downsample(route).Ok? ==>
      |Downsample(route).value| > 0 && |route[0]| >= 2 && Downsample(route).value[0] == ToCoordinates(route[0])
  {
    var d := Downsample(route);
    if route == [] {
      assert Thirds(|route|) == 0;
      assert d.Ok? && |d.value| == 0;
    } else {
      assert Thirds(|route|) >= 1;
      if d.Ok? {
        assert |d.value| >= 1 && 3 * 0 < |route|;
      }
    }
  }

  /** The fixed query the request ends with. */
  const Query: string := "?overview=full&steps=true&geometries=geojson"

  /** "lon,lat" with the number format `fmt`. */
  function Pair(c: Coordinates, fmt: real -> string): string
  {
    fmt(c.lon) + "," + fmt(c.lat)
  }

  /** The request: the service URL, "/", the team's and then the call's "lon,lat" joined by ";", and the query. */
  function Url(api: string, team: Coordinates, call: Coordinates, fmt: real -> string): (u: string)
    ensures |u| > |api| + |Query|
    ensures u[..|api| + 1] == api + "/"
    ensures u[|u| - |Query|..] == Query
  {
    api + "/" + Pair(team, fmt) + ";" + Pair(call, fmt) + Query
  }

  /** A number format that never writes the ';' the path is split at. */
  ghost predicate NoSemicolon(fmt: real -> string)
  {
    forall x: real :: ';' !in fmt(x)
  }

  /**
   * The path after the service URL reads back as the team's pair, up to the
   * first ';', then the call's pair: the team is the start of the route.
   */
  lemma UrlPathOrder(api: string, team: Coordinates, call: Coordinates, fmt: real -> string)
    requires NoSemicolon(fmt)
    ensures var path := Url(api, team, call, fmt)[|api| + 1..];
      var k := FirstIndex(path, (ch: char) => ch == ';');
      && k < |path|
      && path[..k] == Pair(team, fmt)
      && path[k + 1..|path| - |Query|] == Pair(call, fmt)
  {
    var u := Url(api, team, call, fmt);
    var path := u[|api| + 1..];
    var t := Pair(team, fmt);
    assert fmt(team.lon) + "," + fmt(team.lat) == t;
    assert ';' !in fmt(team.lon) && ';' !in fmt(team.lat);
    assert ';' !in t;
    assert path == t + ";" + Pair(call, fmt) + Query;
    var k := FirstIndex(path, (ch: char) => ch == ';');
    assert path[|t|] == ';';
    assert forall j :: 0 <= j < |t| ==> path[j] == t[j] && path[j] != ';';
    assert k == |t|;
  }

  /**
   * `Router.get_route`: the service is asked for `Url(…)`; a failed request
   * or an answer without a route (`None`) is RoutingFailed, as is a route the
   * thinning cannot read. The request is a parameter.
   */
  function GetRoute(api: string, team: Coordinates, call: Coordinates, fmt: real -> string,
                    fetch: string -> Option<seq<Position>>): (r: Result<seq<Coordinates>>)
    ensures fetch(Url(api, team, call, fmt)).None? ==> r == Err(RoutingFailed)
    ensures fetch(Url(api, team, call, fmt)).Some? ==> r == Downsample(fetch(Url(api, team, call, fmt)).value)
    ensures r.Err? ==> r.error == RoutingFailed && HttpStatus(r.error) == 400
  {
    match fetch(Url(api, team, call, fmt))
    case None => Err(RoutingFailed)
    case Some(route) => Downsample(route)
  }
}
