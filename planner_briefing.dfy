/**
 * The planner page's request side and its route map: the codes it submits
 * (trimmed, upper-cased, blanks dropped) and the coordinates it draws for
 * the route the server sends back, looked up in a fixed ten-airport table.
 */
module PlannerBriefing {
  import opened Wrappers
  import opened Text
  import opened RouteParsing

  // ---------------------------------------------------------------------
  // Code filtering in generateBriefing
  // ---------------------------------------------------------------------

  const NoCodeAlert := "Please enter at least one airport ICAO code"

  /** Every input value normalised, the empty results dropped, order kept. */
  function SubmittedCodes(values: seq<string>): seq<string> {
    if values == [] then []
    else
      var code := NormalizeCode(JavaScript, values[0]);
      (if code != "" then [code] else []) + SubmittedCodes(values[1..])
  }

  /** A code is submitted exactly when it is non-empty and normalises some input value. */
  lemma {:induction false} SubmittedCodesMembers(values: seq<string>, c: string)
    ensures c in SubmittedCodes(values) <==>
      c != "" && exists i :: 0 <= i < |values| && NormalizeCode(JavaScript, values[i]) == c
  {
    if values != [] {
      SubmittedCodesMembers(values[1..], c);
      if exists i :: 0 <= i < |values[1..]| && NormalizeCode(JavaScript, values[1..][i]) == c {
        var i :| 0 <= i < |values[1..]| && NormalizeCode(JavaScript, values[1..][i]) == c;
        assert NormalizeCode(JavaScript, values[i + 1]) == c;
      }
      if exists i :: 0 <= i < |values| && NormalizeCode(JavaScript, values[i]) == c {
        var i :| 0 <= i < |values| && NormalizeCode(JavaScript, values[i]) == c;
        if i > 0 {
          assert NormalizeCode(JavaScript, values[1..][i - 1]) == c;
        }
      }
    }
  }

  /** Filtering keeps order: the codes of two runs of inputs are the codes of each, in turn. */
  lemma {:induction false} SubmittedCodesConcat(a: seq<string>, b: seq<string>)
    ensures SubmittedCodes(a + b) == SubmittedCodes(a) + SubmittedCodes(b)
  {
    if a == [] {
      assert a + b == b;
    } else {
      var code := NormalizeCode(JavaScript, a[0]);
      var head := if code != "" then [code] else [];
      assert (a + b)[0] == a[0];
      assert (a + b)[1..] == a[1..] + b;
      assert SubmittedCodes(a + b) == head + SubmittedCodes(a[1..] + b);
      SubmittedCodesConcat(a[1..], b);
      assert head + (SubmittedCodes(a[1..]) + SubmittedCodes(b)) == head + SubmittedCodes(a[1..]) + SubmittedCodes(b);
    }
  }

  /** A value normalises to the empty code exactly when it is blank. */
  lemma NormalizeBlank(v: string)
    ensures NormalizeCode(JavaScript, v) == "" <==> Trim(JavaScript, v) == ""
  {
  }

  /** Normalising a normalised code changes nothing. */
  lemma NormalizeCodeIdempotent(v: string)
    ensures NormalizeCode(JavaScript, NormalizeCode(JavaScript, v)) == NormalizeCode(JavaScript, v)
  {
    var t := Trim(JavaScript, v);
    var u := Upper(t);
    if u != [] {
      assert u[0] == UpperChar(t[0]) && u[|u| - 1] == UpperChar(t[|t| - 1]);
    }
    TrimOfTrimmed(JavaScript, u);
    UpperNormal(t);
  }

  /** Submitting the submitted codes again gives the same codes. */
  lemma {:induction false} SubmittedCodesIdempotent(values: seq<string>)
    ensures SubmittedCodes(SubmittedCodes(values)) == SubmittedCodes(values)
  {
    if values != [] {
      var code := NormalizeCode(JavaScript, values[0]);
      var head := if code != "" then [code] else [];
      SubmittedCodesIdempotent(values[1..]);
      SubmittedCodesConcat(head, SubmittedCodes(values[1..]));
      if code != "" {
        NormalizeCodeIdempotent(values[0]);
        assert SubmittedCodes(head) == [code] by {
          assert head[1..] == [];
        }
      }
    }
  }

  datatype Submission =
    | NoCodes(alert: string)
    | PlannerRequest(airports: seq<string>, region: string, hazard: string)

  /** What the planner's `generateBriefing` does with the values of the code inputs. */
  function PlannerSubmit(values: seq<string>, region: string, hazard: string): (r: Submission)
    ensures r.NoCodes? <==> SubmittedCodes(values) == []
    ensures r.NoCodes? ==> r.alert == NoCodeAlert
    ensures r.PlannerRequest? ==>
      r.airports == SubmittedCodes(values) && r.region == region && r.hazard == hazard
    ensures r.PlannerRequest? ==> r.airports != [] && SubmittedCodes(r.airports) == r.airports
  {
    SubmittedCodesIdempotent(values);
    var validAirports := SubmittedCodes(values);
    if |validAirports| == 0 then NoCodes(NoCodeAlert)
    else PlannerRequest(validAirports, region, hazard)
  }

  /** Blank inputs submit no code. */
  lemma {:induction false} BlankSubmitsNothing(values: seq<string>)
    requires forall i :: 0 <= i < |values| ==> Trim(JavaScript, values[i]) == ""
    ensures SubmittedCodes(values) == []
  {
    if values != [] {
      NormalizeBlank(values[0]);
      BlankSubmitsNothing(values[1..]);
    }
  }

  /** The alert is shown, and nothing is requested, exactly when every input is blank. */
  lemma PlannerSubmitAlertIffBlank(values: seq<string>, region: string, hazard: string)
    ensures PlannerSubmit(values, region, hazard).NoCodes? <==>
      forall i :: 0 <= i < |values| ==> Trim(JavaScript, values[i]) == ""
    ensures PlannerSubmit(values, region, hazard).NoCodes? ==>
      PlannerSubmit(values, region, hazard).alert == NoCodeAlert
  {
    if forall i :: 0 <= i < |values| ==> Trim(JavaScript, values[i]) == "" {
      BlankSubmitsNothing(values);
    } else {
      var i :| 0 <= i < |values| && Trim(JavaScript, values[i]) != "";
      NormalizeBlank(values[i]);
      SubmittedCodesMembers(values, NormalizeCode(JavaScript, values[i]));
    }
  }

  // ---------------------------------------------------------------------
  // Route filtering in updateWeatherMap
  // ---------------------------------------------------------------------

  /** A position in ten-thousandths of a degree (every literal in the table is exact at this scale). */
  datatype Coord = Coord(lat: int, lon: int)

  const AirportCoordinates: map<string, Coord> := map[
    "KJFK" := Coord(406413, -737781),
    "KLAX" := Coord(339416, -1184085),
    "KORD" := Coord(419742, -879073),
    "KATL" := Coord(336407, -844277),
    "KDFW" := Coord(328998, -970403),
    "KLGA" := Coord(407769, -738740),
    "KBOS" := Coord(423656, -710096),
    "KSFO" := Coord(376213, -1223790),
    "KDEN" := Coord(398561, -1046737),
    "KMIA" := Coord(257932, -802906)
  ]

  /** The view the map falls back to when no route airport is known: 39.8, -98.5 at zoom 4. */
  const DefaultCenter := Coord(398000, -985000)
  const DefaultZoom := 4

  /** The coordinates of the route airports found in the table, in route order. */
  function FoundCoords(route: seq<string>): seq<Coord> {
    if route == [] then []
    else
      var last := route[|route| - 1];
      FoundCoords(route[..|route| - 1]) +
        (if last in AirportCoordinates then [AirportCoordinates[last]] else [])
  }

  datatype MapUpdate =
    | ResetView(center: Coord, zoom: nat)
    | DrawRoute(markers: seq<Coord>, polyline: Option<seq<Coord>>, bounds: seq<Coord>)

  /** The `data.route.forEach` loop that collects the coordinates. */
  method RouteCoordinates(route: seq<string>) returns (routeCoords: seq<Coord>, hasValidCoords: bool)
    ensures routeCoords == FoundCoords(route)
    ensures hasValidCoords <==> routeCoords != []
  {
    routeCoords, hasValidCoords := [], false;
    for k := 0 to |route|
      invariant routeCoords == FoundCoords(route[..k])
      invariant hasValidCoords <==> routeCoords != []
    {
      assert route[..k + 1][..k] == route[..k];
      if route[k] in AirportCoordinates {
        routeCoords := routeCoords + [AirportCoordinates[route[k]]];
        hasValidCoords := true;
      }
    }
    assert route[..|route|] == route;
  }

  /**
   * `updateWeatherMap` for a returned route: reset the view when no airport
   * is known; otherwise one marker per known airport, a polyline through
   * them when there are at least two, and bounds around them.
   */
  method UpdateWeatherMap(route: seq<string>) returns (u: MapUpdate)
    ensures u.ResetView? <==> FoundCoords(route) == []
    ensures u.ResetView? ==> u == ResetView(DefaultCenter, DefaultZoom)
    ensures u.DrawRoute? ==> u.markers == FoundCoords(route) && u.bounds == FoundCoords(route)
    ensures u.DrawRoute? ==> (u.polyline.Some? <==> |FoundCoords(route)| >= 2)
    ensures u.DrawRoute? && u.polyline.Some? ==> u.polyline.value == FoundCoords(route)
  {
    var routeCoords, hasValidCoords := RouteCoordinates(route);
    var bounds := routeCoords;
    if !hasValidCoords {
      return ResetView(DefaultCenter, DefaultZoom);
    }
    var markers := [];
    for k := 0 to |route|
      invariant markers == FoundCoords(route[..k])
    {
      assert route[..k + 1][..k] == route[..k];
      if route[k] in AirportCoordinates {
        markers := markers + [AirportCoordinates[route[k]]];
      }
    }
    assert route[..|route|] == route;
    var polyline := if |routeCoords| >= 2 then Some(routeCoords) else None;
    u := DrawRoute(markers, polyline, bounds);
  }

  /** The coordinates of a concatenated route are those of each part, in turn. */
  lemma {:induction false} FoundCoordsConcat(a: seq<string>, b: seq<string>)
    ensures FoundCoords(a + b) == FoundCoords(a) + FoundCoords(b)
    decreases |b|
  {
    if b == [] {
      assert a + b == a;
    } else {
      assert (a + b)[..|a + b| - 1] == a + b[..|b| - 1];
      FoundCoordsConcat(a, b[..|b| - 1]);
    }
  }

  /** At most one coordinate per route airport, and a coordinate is found exactly when some route airport has it. */
  lemma {:induction false} FoundCoordsMembers(route: seq<string>, c: Coord)
    ensures |FoundCoords(route)| <= |route|
    ensures c in FoundCoords(route) <==>
      exists i :: 0 <= i < |route| && route[i] in AirportCoordinates && AirportCoordinates[route[i]] == c
  {
    if route != [] {
      var init := route[..|route| - 1];
      FoundCoordsMembers(init, c);
      if exists i :: 0 <= i < |init| && init[i] in AirportCoordinates && AirportCoordinates[init[i]] == c {
        var i :| 0 <= i < |init| && init[i] in AirportCoordinates && AirportCoordinates[init[i]] == c;
        assert route[i] == init[i];
      }
      if exists i :: 0 <= i < |route| && route[i] in AirportCoordinates && AirportCoordinates[route[i]] == c {
        var i :| 0 <= i < |route| && route[i] in AirportCoordinates && AirportCoordinates[route[i]] == c;
        if i < |init| {
          assert init[i] == route[i];
        }
      }
    }
  }

  /** The view is reset exactly when no route airport is in the table. */
  lemma {:induction false} NothingFoundIffUnknown(route: seq<string>)
    ensures FoundCoords(route) == [] <==> forall i :: 0 <= i < |route| ==> route[i] !in AirportCoordinates
  {
    if exists i :: 0 <= i < |route| && route[i] in AirportCoordinates {
      var i :| 0 <= i < |route| && route[i] in AirportCoordinates;
      FoundCoordsMembers(route, AirportCoordinates[route[i]]);
    } else if FoundCoords(route) != [] {
      FoundCoordsMembers(route, FoundCoords(route)[0]);
    }
  }
}
