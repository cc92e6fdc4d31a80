/**
 * The hazard-report filters of the map page (PotholeMap.jsx): which reports
 * get a marker or a heat point, and the counts and list of the stats cards.
 * Coordinates are JavaScript numbers, tested only for truthiness and copied,
 * so they are `real` here; a report's timestamp is the result of
 * `new Date(p.timestamp)`, None for an invalid date.
 */
module Reports {
  import opened Wrappers

  datatype Location = Location(lat: Option<real>, lng: Option<real>)

  datatype Report = Report(location: Option<Location>, status: Option<string>, timestamp: Option<int>)

  datatype LatLng = LatLng(lat: real, lng: real)

  /** `[lat, lng, weight]` as passed to the heat layer. */
  datatype HeatPoint = HeatPoint(lat: real, lng: real, weight: nat)

  /** More reports than this bring in the heat layer. */
  const HeatThreshold: nat := 10
  /** The list card shows at most this many reports. */
  const ListLimit: nat := 10
  /** Seven days in milliseconds. */
  const RecentWindow: nat := 7 * 24 * 60 * 60 * 1000
  const ReportedStatus: string := "reported"

  /** A coordinate is truthy when present and not 0. */
  predicate Truthy(x: Option<real>)
  {
    x.Some? && x.value != 0.0
  }

  /** `p.location && p.location.lat && p.location.lng` */
  predicate HasValidLocation(p: Report)
  {
    p.location.Some? && Truthy(p.location.value.lat) && Truthy(p.location.value.lng)
  }

  function Position(p: Report): LatLng
    requires HasValidLocation(p)
  {
    LatLng(p.location.value.lat.value, p.location.value.lng.value)
  }

  /**
   * The reports that get a marker, in their original order.  Together with
   * ValidReportsAppend, the single-report clause fixes the order;
   * ValidReportsMultiplicity gives the count of each report.
   */
  function ValidReports(rs: seq<Report>): (r: seq<Report>)
    ensures |r| <= |rs|
    ensures forall i :: 0 <= i < |r| ==> HasValidLocation(r[i]) && r[i] in rs
    ensures forall p :: p in rs && HasValidLocation(p) ==> p in r
    // each valid report as often as it occurs, each other report never
    ensures |rs| == 1 ==> r == if HasValidLocation(rs[0]) then rs else []
  {
    if rs == [] then []
    else
      assert rs == [rs[0]] + rs[1..];
      if HasValidLocation(rs[0]) then [rs[0]] + ValidReports(rs[1..])
      else ValidReports(rs[1..])
  }

  /** Each valid report gets a marker as often as it occurs, every other report none. */
  lemma {:induction false} ValidReportsMultiplicity(rs: seq<Report>)
    ensures forall p :: multiset(ValidReports(rs))[p] == if HasValidLocation(p) then multiset(rs)[p] else 0
  {
    if rs != [] {
      assert rs == [rs[0]] + rs[1..];
      ValidReportsMultiplicity(rs[1..]);
    }
  }

  /** Filtering distributes over concatenation. */
  lemma {:induction false} ValidReportsAppend(a: seq<Report>, b: seq<Report>)
    ensures ValidReports(a + b) == ValidReports(a) + ValidReports(b)
  {
    if a == [] {
      assert a + b == b;
    } else {
      assert (a + b)[1..] == a[1..] + b;
      ValidReportsAppend(a[1..], b);
    }
  }

  function Positions(rs: seq<Report>): (r: seq<LatLng>)
    requires forall i :: 0 <= i < |rs| ==> HasValidLocation(rs[i])
    ensures |r| == |rs|
    ensures forall i :: 0 <= i < |rs| ==> r[i] == Position(rs[i])
  {
    seq(|rs|, i requires 0 <= i < |rs| => Position(rs[i]))
  }

  /** The marker positions: one per report with a valid location, in order. */
  function MarkerPositions(rs: seq<Report>): (r: seq<LatLng>)
    ensures |r| <= |rs|
    // no marker is ever placed on a zero latitude or longitude
    ensures forall i :: 0 <= i < |r| ==> r[i].lat != 0.0 && r[i].lng != 0.0
  {
    Positions(ValidReports(rs))
  }

  /** Pushing the next report's marker extends the positions of the prefix (the forEach loop). */
  lemma MarkerPositionsSnoc(rs: seq<Report>, p: Report)
    ensures MarkerPositions(rs + [p]) ==
      MarkerPositions(rs) + (if HasValidLocation(p) then [Position(p)] else [])
  {
    ValidReportsAppend(rs, [p]);
    assert ValidReports([p]) == if HasValidLocation(p) then [p] else [];
  }

  /** `.filter(valid).map(p => [lat, lng, 1])`: the valid reports, in order, each of weight 1. */
  function HeatPoints(rs: seq<Report>): (r: seq<HeatPoint>)
    ensures |r| == |MarkerPositions(rs)|
    ensures forall i :: 0 <= i < |r| ==>
      r[i].weight == 1 && r[i].lat == MarkerPositions(rs)[i].lat && r[i].lng == MarkerPositions(rs)[i].lng
  {
    var v := ValidReports(rs);
    seq(|v|, i requires 0 <= i < |v| => HeatPoint(v[i].location.value.lat.value, v[i].location.value.lng.value, 1))
  }

  /** The heat layer is added only for more than 10 reports, with the plugin loaded and some point to show. */
  function HeatLayer(rs: seq<Report>, pluginLoaded: bool): (r: Option<seq<HeatPoint>>)
    ensures r.Some? <==> |rs| > HeatThreshold && pluginLoaded && HeatPoints(rs) != []
    ensures r.Some? ==> r.value == HeatPoints(rs)
  {
    if |rs| > HeatThreshold && pluginLoaded && |HeatPoints(rs)| > 0 then Some(HeatPoints(rs)) else None
  }

  /** A report whose latitude or longitude is exactly 0 gets neither marker nor heat point. */
  lemma ZeroCoordinateExcluded(rs: seq<Report>, p: Report)
    requires p.location.Some? && (p.location.value.lat == Some(0.0) || p.location.value.lng == Some(0.0))
    ensures p !in ValidReports(rs)
  {
  }

  /** The "Active Hazards" card: reports whose status is exactly "reported". */
  function ActiveCount(rs: seq<Report>): (n: nat)
    ensures n <= |rs|
  {
    if rs == [] then 0
    else (if rs[0].status == Some(ReportedStatus) then 1 else 0) + ActiveCount(rs[1..])
  }

  lemma {:induction false} ActiveCountAppend(a: seq<Report>, b: seq<Report>)
    ensures ActiveCount(a + b) == ActiveCount(a) + ActiveCount(b)
  {
    if a == [] {
      assert a + b == b;
    } else {
      assert (a + b)[1..] == a[1..] + b;
      ActiveCountAppend(a[1..], b);
    }
  }

  /** `new Date(p.timestamp) > new Date(now - 7 days)`; an invalid date compares false. */
  predicate IsRecent(p: Report, now: int)
  {
    p.timestamp.Some? && p.timestamp.value > now - RecentWindow
  }

  /** The "Recent (7 days)" card. */
  function RecentCount(rs: seq<Report>, now: int): (n: nat)
    ensures n <= |rs|
  {
    if rs == [] then 0
    else (if IsRecent(rs[0], now) then 1 else 0) + RecentCount(rs[1..], now)
  }

  /** As time passes the recent count can only shrink. */
  lemma {:induction false} RecentCountShrinks(rs: seq<Report>, now1: int, now2: int)
    requires now1 <= now2
    ensures RecentCount(rs, now2) <= RecentCount(rs, now1)
  {
    if rs != [] {
      RecentCountShrinks(rs[1..], now1, now2);
    }
  }

  /** The list card: the first ten reports. */
  function Listed(rs: seq<Report>): (r: seq<Report>)
    ensures |r| == if |rs| < ListLimit then |rs| else ListLimit
    ensures forall i :: 0 <= i < |r| ==> r[i] == rs[i]
  {
    if |rs| <= ListLimit then rs else rs[..ListLimit]
  }

  /** `pothole.status || 'reported'` */
  function DisplayStatus(p: Report): (s: string)
    ensures p.status.Some? && p.status.value != "" ==> s == p.status.value
    ensures p.status.None? || p.status == Some("") ==> s == ReportedStatus
  {
    if p.status.Some? && p.status.value != "" then p.status.value else ReportedStatus
  }

  /** A report without a status is listed as "reported" yet not counted as active. */
  lemma MissingStatusListedButNotActive(p: Report)
    requires p.status.None?
    ensures DisplayStatus(p) == ReportedStatus && ActiveCount([p]) == 0
  {
    assert [p][1..] == [];
  }
}
