/**
 * The map page's mutable bookkeeping (PotholeMap.jsx): the Leaflet map
 * (present or not), the hazard markers and heat layer built from the reports,
 * the route markers kept in `routeMarkersRef.current` (at most one `start`
 * and one `end`), the routing control and the route-planner state.  Leaflet,
 * geocoding and geolocation are foreign calls: their results are parameters.
 * React state read inside a handler is the value of the render that created
 * the handler, so `calculateRoute` sees the coordinates from before the
 * update the same handler has just made.
 */
module RouteMap {
  import opened Wrappers
  import opened Reports

  datatype RouteType = Start | End

  /** A route marker with its `_routeType` tag. */
  datatype RouteMarker = RouteMarker(kind: RouteType, at: LatLng)

  /** A geocoding result, or the current position with display name "Current Location". */
  datatype Place = Place(lat: real, lng: real, displayName: string)

  /** The waypoints of the routing control. */
  datatype Route = Route(from: LatLng, to: LatLng)

  /** Distance and time reported by the router (their float conversion is not modelled). */
  datatype RouteInfo = RouteInfo(distanceKm: real, minutes: int)

  const CurrentLocationName: string := "Current Location"

  function PlaceAt(p: Place): LatLng
  {
    LatLng(p.lat, p.lng)
  }

  /** White space and line terminators as String.prototype.trim removes them (by code point). */
  predicate IsJsWhitespace(c: char)
  {
    var n := c as int;
    (0x09 <= n <= 0x0D) || n == 0x20 || n == 0xA0 || n == 0x1680 || (0x2000 <= n <= 0x200A) ||
    n == 0x2028 || n == 0x2029 || n == 0x202F || n == 0x205F || n == 0x3000 || n == 0xFEFF
  }

  predicate Blank(s: string)
  {
    forall i :: 0 <= i < |s| ==> IsJsWhitespace(s[i])
  }

  function TrimStart(s: string): (r: string)
    ensures |r| <= |s|
    ensures r != [] ==> !IsJsWhitespace(r[0])
  {
    if s != [] && IsJsWhitespace(s[0]) then TrimStart(s[1..]) else s
  }

  function TrimEnd(s: string): (r: string)
    ensures |r| <= |s| && r == s[..|r|]
    ensures r != [] ==> !IsJsWhitespace(r[|r| - 1])
  {
    if s != [] && IsJsWhitespace(s[|s| - 1]) then TrimEnd(s[..|s| - 1]) else s
  }

  /** String.prototype.trim: white space removed from both ends. */
  function Trim(s: string): (r: string)
    ensures |r| <= |s|
    ensures r != [] ==> !IsJsWhitespace(r[0]) && !IsJsWhitespace(r[|r| - 1])
  {
    TrimEnd(TrimStart(s))
  }

  /** TrimStart removes a white-space prefix and stops at the first other character. */
  lemma {:induction false} TrimStartSuffix(s: string)
    ensures |TrimStart(s)| <= |s| && TrimStart(s) == s[|s| - |TrimStart(s)|..]
    ensures forall i :: 0 <= i < |s| - |TrimStart(s)| ==> IsJsWhitespace(s[i])
    ensures TrimStart(s) != [] ==> !IsJsWhitespace(TrimStart(s)[0])
  {
    if s != [] && IsJsWhitespace(s[0]) {
      var t := s[1..];
      TrimStartSuffix(t);
      assert TrimStart(s) == TrimStart(t);
      assert t[|t| - |TrimStart(t)|..] == s[|s| - |TrimStart(t)|..];
      forall i | 0 <= i < |s| - |TrimStart(s)|
        ensures IsJsWhitespace(s[i])
      {
        if i > 0 {
          assert s[i] == t[i - 1];
        }
      }
    }
  }

  /** TrimEnd keeps what it is given unless that ends in white space, and never empties a string that does not. */
  lemma {:induction false} TrimEndKeepsNonBlank(s: string)
    requires s != [] && !IsJsWhitespace(s[0])
    ensures TrimEnd(s) != []
  {
    if IsJsWhitespace(s[|s| - 1]) {
      assert |s| > 1;
      TrimEndKeepsNonBlank(s[..|s| - 1]);
    }
  }

  /** `!s.trim()` holds exactly for strings made only of white space. */
  lemma TrimEmptyIffBlank(s: string)
    ensures Trim(s) == [] <==> Blank(s)
  {
    TrimStartSuffix(s);
    var t := TrimStart(s);
    if t != [] {
      TrimEndKeepsNonBlank(t);
      assert s[|s| - |t|] == t[0];
    } else {
      assert TrimEnd(t) == [];
    }
  }

  /** `routeMarkersRef.current.findIndex(m => m._routeType === kind)` */
  function FindIndex(ms: seq<RouteMarker>, kind: RouteType): (i: int)
    ensures -1 <= i < |ms|
  {
    if ms == [] then -1
    else if ms[0].kind == kind then 0
    else
      var j := FindIndex(ms[1..], kind);
      if j == -1 then -1 else j + 1
  }

  /** FindIndex finds the first marker of the kind, or reports -1 when there is none. */
  lemma {:induction false} FindIndexFirst(ms: seq<RouteMarker>, kind: RouteType)
    ensures FindIndex(ms, kind) >= 0 ==>
      ms[FindIndex(ms, kind)].kind == kind && forall k :: 0 <= k < FindIndex(ms, kind) ==> ms[k].kind != kind
    ensures FindIndex(ms, kind) == -1 ==> forall k :: 0 <= k < |ms| ==> ms[k].kind != kind
  {
    if ms != [] && ms[0].kind != kind {
      FindIndexFirst(ms[1..], kind);
      forall k | 1 <= k < |ms|
        ensures ms[k] == ms[1..][k - 1]
      {
      }
    }
  }

  /** The markers of one kind, in order. */
  function OfKind(ms: seq<RouteMarker>, kind: RouteType): (r: seq<RouteMarker>)
    ensures |r| <= |ms|
  {
    if ms == [] then []
    else (if ms[0].kind == kind then [ms[0]] else []) + OfKind(ms[1..], kind)
  }

  lemma {:induction false} OfKindAppend(a: seq<RouteMarker>, b: seq<RouteMarker>, kind: RouteType)
    ensures OfKind(a + b, kind) == OfKind(a, kind) + OfKind(b, kind)
  {
    if a == [] {
      assert a + b == b;
    } else {
      var h := if a[0].kind == kind then [a[0]] else [];
      assert (a + b)[0] == a[0] && (a + b)[1..] == a[1..] + b;
      OfKindAppend(a[1..], b, kind);
      calc {
        OfKind(a + b, kind);
        h + OfKind(a[1..] + b, kind);
        h + (OfKind(a[1..], kind) + OfKind(b, kind));
        (h + OfKind(a[1..], kind)) + OfKind(b, kind);
      }
    }
  }

  lemma {:induction false} OfKindNone(ms: seq<RouteMarker>, kind: RouteType)
    requires forall k :: 0 <= k < |ms| ==> ms[k].kind != kind
    ensures OfKind(ms, kind) == []
  {
    if ms != [] {
      OfKindNone(ms[1..], kind);
    }
  }

  /** The list after setting the `kind` marker: splice out the first one of that kind, push the new one. */
  function Replaced(ms: seq<RouteMarker>, kind: RouteType, at: LatLng): (r: seq<RouteMarker>)
    ensures |ms| <= |r| <= |ms| + 1
    ensures RouteMarker(kind, at) in r
  {
    var i := FindIndex(ms, kind);
    (if i >= 0 then ms[..i] + ms[i + 1..] else ms) + [RouteMarker(kind, at)]
  }

  lemma {:induction false} OfKindCons(x: RouteMarker, rest: seq<RouteMarker>, kind: RouteType)
    ensures OfKind([x] + rest, kind) == (if x.kind == kind then [x] else []) + OfKind(rest, kind)
  {
    assert ([x] + rest)[1..] == rest;
  }

  lemma OfKindSingle(m: RouteMarker, kind: RouteType)
    ensures OfKind([m], kind) == if m.kind == kind then [m] else []
  {
  }

  /** Splicing out the first marker of a kind drops the head of that kind's list. */
  lemma {:induction false} OfKindRemoveFirst(ms: seq<RouteMarker>, i: nat, kind: RouteType)
    requires i < |ms| && ms[i].kind == kind
    requires forall k :: 0 <= k < i ==> ms[k].kind != kind
    ensures OfKind(ms, kind) == [ms[i]] + OfKind(ms[..i] + ms[i + 1..], kind)
  {
    var before, after := ms[..i], ms[i + 1..];
    assert ms == before + ([ms[i]] + after);
    OfKindNone(before, kind);
    OfKindAppend(before, [ms[i]] + after, kind);
    OfKindAppend(before, after, kind);
    OfKindCons(ms[i], after, kind);
  }

  /** Splicing out a marker of one kind leaves the list of the other kind as it was. */
  lemma {:induction false} OfKindRemoveOther(ms: seq<RouteMarker>, i: nat, kind: RouteType, other: RouteType)
    requires other != kind && i < |ms| && ms[i].kind == kind
    ensures OfKind(ms, other) == OfKind(ms[..i] + ms[i + 1..], other)
  {
    var before, after := ms[..i], ms[i + 1..];
    assert ms == before + ([ms[i]] + after);
    OfKindAppend(before, [ms[i]] + after, other);
    OfKindAppend(before, after, other);
    OfKindCons(ms[i], after, other);
  }

  /**
   * Setting a route marker removes the first marker of its kind and appends the
   * new one; the markers of the other kind are untouched.
   */
  lemma {:induction false} ReplacedByKind(ms: seq<RouteMarker>, kind: RouteType, at: LatLng, other: RouteType)
    requires other != kind
    ensures OfKind(ms, kind) == [] ==> OfKind(Replaced(ms, kind, at), kind) == [RouteMarker(kind, at)]
    ensures OfKind(ms, kind) != [] ==>
      OfKind(Replaced(ms, kind, at), kind) == OfKind(ms, kind)[1..] + [RouteMarker(kind, at)]
    ensures OfKind(Replaced(ms, kind, at), other) == OfKind(ms, other)
  {
    var i := FindIndex(ms, kind);
    FindIndexFirst(ms, kind);
    var m := RouteMarker(kind, at);
    var rest := if i >= 0 then ms[..i] + ms[i + 1..] else ms;
    assert Replaced(ms, kind, at) == rest + [m];
    OfKindAppend(rest, [m], kind);
    OfKindAppend(rest, [m], other);
    OfKindSingle(m, kind);
    OfKindSingle(m, other);
    if i >= 0 {
      OfKindRemoveFirst(ms, i, kind);
      OfKindRemoveOther(ms, i, kind, other);
    } else {
      OfKindNone(ms, kind);
    }
  }

  /** With at most one marker of each kind there are at most two route markers. */
  lemma {:induction false} AtMostTwoRouteMarkers(ms: seq<RouteMarker>)
    ensures |ms| == |OfKind(ms, Start)| + |OfKind(ms, End)|
  {
    if ms != [] {
      AtMostTwoRouteMarkers(ms[1..]);
    }
  }

  /** The route planner's state: the two inputs, the two geocoded points, the route markers and the drawn route. */
  datatype Planner = Planner(
    startLocation: string, endLocation: string,
    startCoords: Option<Place>, endCoords: Option<Place>,
    markers: seq<RouteMarker>, route: Option<Route>)

  const EmptyPlanner := Planner("", "", None, None, [], None)

  /** The drawn route, if any, runs from the planner's start point to its end point. */
  predicate Follows(v: Planner)
  {
    v.route.Some? ==>
      (v.startCoords.Some? && v.endCoords.Some? &&
       v.route.value == Route(PlaceAt(v.startCoords.value), PlaceAt(v.endCoords.value)))
  }

  /**
   * The success branch shared by handleStartSearch, handleEndSearch and
   * handleUseCurrentLocation, as written.  `v` is the planner when the
   * geocoding or geolocation result arrives, `seen` the planner of the render
   * in which the user clicked (the two differ when another search resolved in
   * between).  The point, its input text and its marker are replaced in `v`;
   * calculateRoute then runs with the start and end points of `seen`.
   */
  function Placed(v: Planner, seen: Planner, hasMap: bool, kind: RouteType, p: Place): (r: Planner)
    // only the placed point and its input text change
    ensures kind == Start ==> (r.startCoords == Some(p) && r.startLocation == p.displayName &&
      r.endCoords == v.endCoords && r.endLocation == v.endLocation)
    ensures kind == End ==> (r.endCoords == Some(p) && r.endLocation == p.displayName &&
      r.startCoords == v.startCoords && r.startLocation == v.startLocation)
    // without a map no marker is set and no route drawn
    ensures !hasMap ==> r.markers == v.markers && r.route == v.route
    // a route drawn by the handler joins the two points of the click-time render
    ensures r.route != v.route ==> (seen.startCoords.Some? && seen.endCoords.Some? &&
      r.route == Some(Route(PlaceAt(seen.startCoords.value), PlaceAt(seen.endCoords.value))))
  {
    var markers := if hasMap then Replaced(v.markers, kind, PlaceAt(p)) else v.markers;
    var route :=
      if hasMap && seen.startCoords.Some? && seen.endCoords.Some?
      then Some(Route(PlaceAt(seen.startCoords.value), PlaceAt(seen.endCoords.value)))
      else v.route;
    if kind == Start
    then v.(startLocation := p.displayName, startCoords := Some(p), markers := markers, route := route)
    else v.(endLocation := p.displayName, endCoords := Some(p), markers := markers, route := route)
  }

  /** The same branch as evidently intended: the route is computed from the points just set. */
  function PlacedFresh(v: Planner, hasMap: bool, kind: RouteType, p: Place): (r: Planner)
    ensures hasMap && r.startCoords.Some? && r.endCoords.Some? ==>
      r.route == Some(Route(PlaceAt(r.startCoords.value), PlaceAt(r.endCoords.value)))
    ensures !(hasMap && r.startCoords.Some? && r.endCoords.Some?) ==> r.route == v.route
  {
    var r := Placed(v, v, hasMap, kind, p);
    if hasMap && r.startCoords.Some? && r.endCoords.Some?
    then r.(route := Some(Route(PlaceAt(r.startCoords.value), PlaceAt(r.endCoords.value))))
    else r
  }

  /**
   * Placing a point leaves exactly one marker of its kind, at the point, and
   * the markers of the other kind as they were.
   */
  lemma {:induction false} PlacedMarkers(v: Planner, seen: Planner, hasMap: bool, kind: RouteType, other: RouteType, p: Place)
    requires other != kind && |OfKind(v.markers, kind)| <= 1
    ensures hasMap ==> OfKind(Placed(v, seen, hasMap, kind, p).markers, kind) == [RouteMarker(kind, PlaceAt(p))]
    ensures OfKind(Placed(v, seen, hasMap, kind, p).markers, other) == OfKind(v.markers, other)
  {
    if hasMap {
      ReplacedByKind(v.markers, kind, PlaceAt(p), other);
      if OfKind(v.markers, kind) != [] {
        assert OfKind(v.markers, kind)[1..] == [];
      }
    }
  }

  /**
   * As written, the route can disagree with the planner even when searches do
   * not overlap: with the end set at b, placing the start at a draws nothing
   * although both points are set, and then placing it at c draws the route
   * from a to b.
   */
  lemma StaleRouteExample(a: Place, b: Place, c: Place)
    requires PlaceAt(a) != PlaceAt(c)
    ensures var v1 := Placed(EmptyPlanner, EmptyPlanner, true, End, b);
      var v2 := Placed(v1, v1, true, Start, a);
      v2.startCoords == Some(a) && v2.endCoords == Some(b) && v2.route.None?
    ensures var v1 := Placed(EmptyPlanner, EmptyPlanner, true, End, b);
      var v2 := Placed(v1, v1, true, Start, a);
      var v3 := Placed(v2, v2, true, Start, c);
      v3.route == Some(Route(PlaceAt(a), PlaceAt(b))) && v3.startCoords == Some(c) && !Follows(v3)
  {
  }

  /**
   * Overlapping searches: with start a and end b set, a start search (result
   * c) and an end search (result d) are both launched from the same render.
   * Whichever resolves second redraws the route between a and b, although the
   * planner now holds c and d.
   */
  lemma OverlappingSearchesExample(a: Place, b: Place, c: Place, d: Place)
    requires PlaceAt(a) != PlaceAt(c)
    ensures var clicked := EmptyPlanner.(startCoords := Some(a), endCoords := Some(b));
      var v1 := Placed(clicked, clicked, true, Start, c);
      var v2 := Placed(v1, clicked, true, End, d);
      v2.startCoords == Some(c) && v2.endCoords == Some(d) &&
      v2.route == Some(Route(PlaceAt(a), PlaceAt(b))) && !Follows(v2)
  {
  }

  /**
   * As intended, placing a point keeps the route on the planner's two points,
   * and draws it as soon as both are set on a map.
   */
  lemma PlacedFreshFollows(v: Planner, hasMap: bool, kind: RouteType, p: Place)
    requires Follows(v) && (!hasMap ==> v.route.None?)
    ensures Follows(PlacedFresh(v, hasMap, kind, p))
  {
  }

  /** The intended handlers agree with the written ones, for any click-time render, on everything but the route. */
  lemma PlacedFreshOnlyFixesRoute(v: Planner, seen: Planner, hasMap: bool, kind: RouteType, p: Place)
    ensures PlacedFresh(v, hasMap, kind, p).(route := v.route) == Placed(v, seen, hasMap, kind, p).(route := v.route)
  {
  }

  class PotholeMap {
    var hasMap: bool
    var hazardMarkers: seq<LatLng>
    var heat: Option<seq<HeatPoint>>
    var route: Option<Route>
    var routeInfo: Option<RouteInfo>
    var routeMarkers: seq<RouteMarker>
    var startLocation: string
    var endLocation: string
    var startCoords: Option<Place>
    var endCoords: Option<Place>

    ghost predicate Valid()
      reads this
    {
      && (!hasMap ==> routeMarkers == [] && hazardMarkers == [] && heat.None? && route.None?)
      && |OfKind(routeMarkers, Start)| <= 1
      && |OfKind(routeMarkers, End)| <= 1
    }

    function Plan(): Planner
      reads this
    {
      Planner(startLocation, endLocation, startCoords, endCoords, routeMarkers, route)
    }

    constructor ()
      ensures Valid() && !hasMap && routeInfo.None?
      ensures Plan() == EmptyPlanner
    {
      hasMap := false;
      hazardMarkers := [];
      heat := None;
      route := None;
      routeInfo := None;
      routeMarkers := [];
      startLocation := "";
      endLocation := "";
      startCoords := None;
      endCoords := None;
    }

    /** initMap and createMap: a fresh map, a marker per valid report, the heat layer if due. */
    method CreateMap(reports: seq<Report>, heatPluginLoaded: bool)
      requires Valid()
      modifies this`hasMap, this`hazardMarkers, this`heat
      ensures Valid() && hasMap
      ensures hazardMarkers == MarkerPositions(reports)
      ensures heat == HeatLayer(reports, heatPluginLoaded)
    {
      if hasMap {
        hasMap := false;
        hazardMarkers := [];
        heat := None;
      }
      hasMap := true;
      var i := 0;
      while i < |reports|
        invariant 0 <= i <= |reports| && hasMap
        invariant hazardMarkers == MarkerPositions(reports[..i])
      {
        var p := reports[i];
        assert reports[..i + 1] == reports[..i] + [p];
        MarkerPositionsSnoc(reports[..i], p);
        if p.location.Some? && Truthy(p.location.value.lat) && Truthy(p.location.value.lng) {
          hazardMarkers := hazardMarkers + [LatLng(p.location.value.lat.value, p.location.value.lng.value)];
        }
        i := i + 1;
      }
      assert reports[..i] == reports;
      heat := None;
      if |reports| > HeatThreshold && heatPluginLoaded {
        var points := HeatPoints(reports);
        if |points| > 0 {
          heat := Some(points);
        }
      }
    }

    /** The effect cleanup: drop the routing control, the route markers, the map and its markers. */
    method Cleanup()
      requires Valid()
      modifies this`hasMap, this`hazardMarkers, this`heat, this`route, this`routeMarkers
      ensures Valid() && !hasMap
      ensures hazardMarkers == [] && heat.None? && route.None? && routeMarkers == []
    {
      if route.Some? && hasMap {
        route := None;
      }
      if hasMap {
        hasMap := false;
        heat := None;
      }
      hazardMarkers := [];
      routeMarkers := [];
    }

    /** calculateRoute/createRoute with the coordinates its closure sees. */
    method CalculateRoute(from: Option<Place>, to: Option<Place>)
      requires Valid()
      modifies this`route
      ensures Valid()
      ensures from.Some? && to.Some? && hasMap ==> route == Some(Route(PlaceAt(from.value), PlaceAt(to.value)))
      ensures !(from.Some? && to.Some? && hasMap) ==> route == old(route)
    {
      if from.None? || to.None? || !hasMap {
        return;
      }
      route := Some(Route(PlaceAt(from.value), PlaceAt(to.value)));
    }

    /** The routesfound event of the current routing control. */
    method OnRoutesFound(info: RouteInfo)
      requires Valid() && route.Some?
      modifies this`routeInfo
      ensures Valid() && routeInfo == Some(info)
    {
      routeInfo := Some(info);
    }

    /** findIndex, splice and push on routeMarkersRef.current. */
    method SetRouteMarker(kind: RouteType, at: LatLng)
      requires Valid() && hasMap
      modifies this`routeMarkers
      ensures Valid()
      ensures routeMarkers == Replaced(old(routeMarkers), kind, at)
    {
      var other := if kind == Start then End else Start;
      ReplacedByKind(routeMarkers, kind, at, other);
      var i := FindIndex(routeMarkers, kind);
      if i != -1 {
        routeMarkers := routeMarkers[..i] + routeMarkers[i + 1..];
      }
      routeMarkers := routeMarkers + [RouteMarker(kind, at)];
    }

    /** The start input's onChange. */
    method EditStart(text: string)
      requires Valid()
      modifies this`startLocation
      ensures Valid() && Plan() == old(Plan()).(startLocation := text)
    {
      startLocation := text;
    }

    /** The end input's onChange. */
    method EditEnd(text: string)
      requires Valid()
      modifies this`endLocation
      ensures Valid() && Plan() == old(Plan()).(endLocation := text)
    {
      endLocation := text;
    }

    /**
     * The click on a search button, up to the geocoding await: the input of
     * that side is trimmed, and a blank one ends the handler.  `seen` is the
     * planner of this render, which the continuation reads after the await.
     */
    method BeginSearch(kind: RouteType) returns (proceed: bool, seen: Planner)
      ensures seen == Plan()
      ensures proceed <==> !Blank(if kind == Start then startLocation else endLocation)
    {
      var text := if kind == Start then startLocation else endLocation;
      TrimEmptyIffBlank(text);
      proceed := Trim(text) != [];
      seen := Plan();
    }

    /**
     * The success branch of the three handlers after their await: the setters
     * and the marker ref act on the current state; the test of the other
     * point and calculateRoute read `seen`, the planner of the click-time render.
     */
    method PlacePoint(seen: Planner, kind: RouteType, p: Place)
      requires Valid()
      modifies this`startCoords, this`startLocation, this`endCoords, this`endLocation
      modifies this`routeMarkers, this`route
      ensures Valid()
      ensures Plan() == Placed(old(Plan()), seen, hasMap, kind, p)
    {
      ghost var v := Plan();
      ghost var target := Placed(v, seen, hasMap, kind, p);
      if kind == Start {
        startCoords := Some(p);
        startLocation := p.displayName;
      } else {
        endCoords := Some(p);
        endLocation := p.displayName;
      }
      if hasMap {
        SetRouteMarker(kind, PlaceAt(p));
      }
      assert Plan() == target.(route := v.route);
      var other := if kind == Start then seen.endCoords else seen.startCoords;
      if other.Some? {
        CalculateRoute(seen.startCoords, seen.endCoords);
      }
    }

    /**
     * handleStartSearch after the await: `seen` is the planner returned by
     * BeginSearch(Start) at the click, `result` the geocoding result (None:
     * not found, only an alert follows).
     */
    method HandleStartSearch(seen: Planner, result: Option<Place>)
      requires Valid()
      modifies this`startCoords, this`startLocation, this`endCoords, this`endLocation
      modifies this`routeMarkers, this`route
      ensures Valid()
      ensures Plan() == if result.None? then old(Plan())
                        else Placed(old(Plan()), seen, hasMap, Start, result.value)
    {
      if result.Some? {
        PlacePoint(seen, Start, result.value);
      }
    }

    /** handleEndSearch after the await, as HandleStartSearch for the end point. */
    method HandleEndSearch(seen: Planner, result: Option<Place>)
      requires Valid()
      modifies this`startCoords, this`startLocation, this`endCoords, this`endLocation
      modifies this`routeMarkers, this`route
      ensures Valid()
      ensures Plan() == if result.None? then old(Plan())
                        else Placed(old(Plan()), seen, hasMap, End, result.value)
    {
      if result.Some? {
        PlacePoint(seen, End, result.value);
      }
    }

    /**
     * The geolocation callback of handleUseCurrentLocation: `seen` is the
     * planner of the render in which the button was clicked, `fix` is None
     * when geolocation is missing or fails.
     */
    method HandleUseCurrentLocation(seen: Planner, fix: Option<LatLng>)
      requires Valid()
      modifies this`startCoords, this`startLocation, this`endCoords, this`endLocation
      modifies this`routeMarkers, this`route
      ensures Valid()
      ensures Plan() == if fix.None? then old(Plan())
                        else Placed(old(Plan()), seen, hasMap, Start, Place(fix.value.lat, fix.value.lng, CurrentLocationName))
    {
      if fix.Some? {
        PlacePoint(seen, Start, Place(fix.value.lat, fix.value.lng, CurrentLocationName));
      }
    }

    /**
     * The success branch as evidently intended: the written branch without
     * its stale route, then the route drawn between the points just set.
     */
    method SetRoutePoint(kind: RouteType, p: Place)
      requires Valid()
      modifies this`startCoords, this`startLocation, this`endCoords, this`endLocation
      modifies this`routeMarkers, this`route
      ensures Valid()
      ensures Plan() == PlacedFresh(old(Plan()), hasMap, kind, p)
    {
      ghost var v := Plan();
      // with a click-time render that has no points the written branch draws nothing
      PlacedFreshOnlyFixesRoute(v, EmptyPlanner, hasMap, kind, p);
      PlacePoint(EmptyPlanner, kind, p);
      if startCoords.Some? && endCoords.Some? {
        CalculateRoute(startCoords, endCoords);
      }
    }

    /** clearRoute: no routing control, no route markers, an empty planner. */
    method ClearRoute()
      requires Valid()
      modifies this`route, this`routeMarkers, this`startLocation, this`endLocation
      modifies this`startCoords, this`endCoords, this`routeInfo
      ensures Valid()
      ensures Plan() == EmptyPlanner && routeInfo.None?
    {
      if route.Some? && hasMap {
        route := None;
      }
      if hasMap {
        routeMarkers := [];
      }
      startLocation := "";
      endLocation := "";
      startCoords := None;
      endCoords := None;
      routeInfo := None;
    }
  }
}
