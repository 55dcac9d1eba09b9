/**
  A docking bay of a modern station (src/SpaceStationType.cpp, Bay::fromSceneTag
  and the per-pad part of SpaceStationType::OnSetupComplete): a `pad_` tag
  parsed into the bay point, and the approach and departure routes its links
  resolve to in the waypoint registry.
*/
module Bays {
  import opened Wrappers
  import opened DockOperations
  import opened DockStages
  import opened TagGrammar
  import opened Routes

  datatype DockMethod = SURFACE | ORBITAL

  /** struct SpaceStationType::Bay */
  datatype Bay = Bay(
    minShipSize: int,
    maxShipSize: int,
    inUse: bool,
    point: WayPoint,
    stages: map<DockStage, Transform>,
    approach: seq<WayPoint>,
    departure: seq<WayPoint>)

  /** `Bay bay{}` and a bay std::map::operator[] creates. */
  const EMPTY_BAY: Bay := Bay(0, 0, false, EMPTY_WAYPOINT, map[], [], [])

  /** The offset of the default approach point above a bay. */
  const UP_OFFSET: real := 500.0

  // ---------------------------------------------------------------------------
  // Bay::fromSceneTag

  /** The bay a `pad_<name>_s<min>_<max>[:sections]` tag describes. */
  function PadSpec(tag: SceneTag): Result<Bay, SetupError> {
    var split := NextSection(tag.name, ':', SECTION_CAPACITY);
    if !split.fits then Err(SectionTooLong(tag.name))
    else
      var fields := Scan(PAD_FORMAT, split.section);
      if |fields| != 3 then Err(MalformedTag(tag.name))
      else
        var name :- ToName(TextAt(fields, 0));
        var start := EMPTY_WAYPOINT.(loc := Renormalized(tag.transform), radiusSqr := tag.scaleSqr, name := name);
        var point :- ApplySections(start, split.rest);
        Ok(EMPTY_BAY.(minShipSize := NumberAt(fields, 1), maxShipSize := NumberAt(fields, 2),
                      point := point.(flags := point.flags | BAY)))
  }

  /** Bay::fromSceneTag */
  method BayFromSceneTag(tag: SceneTag) returns (r: Result<Bay, SetupError>)
    ensures r == PadSpec(tag)
  {
    var split := NextSection(tag.name, ':', SECTION_CAPACITY);
    if !split.fits {
      return Err(SectionTooLong(tag.name));
    }
    var fields := Scan(PAD_FORMAT, split.section);
    if |fields| != 3 {
      return Err(MalformedTag(tag.name));
    }
    var name := ToName(TextAt(fields, 0));
    if name.Err? {
      return Err(name.error);
    }
    var point := ParseSections(EMPTY_WAYPOINT.(loc := Renormalized(tag.transform), radiusSqr := tag.scaleSqr, name := name.value), split.rest);
    if point.Err? {
      return Err(point.error);
    }
    var wp := point.value;
    wp := wp.(flags := wp.flags | BAY);
    return Ok(EMPTY_BAY.(minShipSize := NumberAt(fields, 1), maxShipSize := NumberAt(fields, 2), point := wp));
  }

  // ---------------------------------------------------------------------------
  // Routes of a modern bay

  /** snprintf into a buffer of n + 1 characters keeps at most n of them. */
  function Truncate(s: string, n: nat): (r: string)
    ensures |r| <= n
    ensures r <= s && |r| == (if |s| <= n then |s| else n)
  {
    if |s| <= n then s else s[..n]
  }

  /** The waypoint added "above" a bay whose `in` link is empty. */
  function UpWaypoint(point: WayPoint): WayPoint {
    EMPTY_WAYPOINT.(loc := TranslatedLocal(point.loc, 0.0, UP_OFFSET, 0.0), radiusSqr := 1.0,
                    name := Truncate(point.name + "-up", NAME_CAPACITY - 1))
  }

  /** The bay point and the waypoints its `in` links lead to, with the default point when there are none. */
  function ApproachWalk(point: WayPoint, chain: seq<WayPoint>): seq<WayPoint> {
    if chain == [] then [point, UpWaypoint(point)] else [point] + chain
  }

  function ApproachZoned(route: seq<WayPoint>): seq<WayPoint> {
    seq(|route|, i requires 0 <= i < |route| => route[i].(speed := ApproachSpeed(route, i)))
  }

  function DepartureZoned(route: seq<WayPoint>, bayIsGate: bool): seq<WayPoint> {
    seq(|route|, i requires 0 <= i < |route| => route[i].(speed := DepartureSpeed(route, bayIsGate, i)))
  }

  /** The approach route, outermost point first and the bay point last. */
  function ApproachRoute(point: WayPoint, wps: seq<WayPoint>): Result<seq<WayPoint>, SetupError> {
    var chain :- Chain(wps, Inbound, point.inLink, 1);
    Ok(Reverse(ApproachZoned(MarkLast(ApproachWalk(point, chain), APPROACH_START))))
  }

  /** The departure route, nearest point first; the bay point is not part of it. */
  function DepartureRoute(point: WayPoint, wps: seq<WayPoint>): Result<seq<WayPoint>, SetupError> {
    var chain :- Chain(wps, Outbound, point.outLink, 0);
    if chain == [] then Err(EmptyDeparture)
    else Ok(MarkLast(DepartureZoned(chain, HasFlag(point.flags, GATE)), ONLY_POS))
  }

  /** The bay one pad tag yields, against the registry of parsed waypoints. */
  function BaySpec(tag: SceneTag, wps: seq<WayPoint>): Result<Bay, SetupError> {
    var bay :- PadSpec(tag);
    var approach :- ApproachRoute(bay.point, wps);
    var departure :- DepartureRoute(bay.point, wps);
    Ok(bay.(stages := bay.stages[DOCKED := bay.point.loc], approach := approach, departure := departure))
  }

  /** The loop body of the modern path for one pad. */
  method BuildBay(tag: SceneTag, wps: seq<WayPoint>) returns (r: Result<Bay, SetupError>)
    ensures r == BaySpec(tag, wps)
  {
    var parsed := BayFromSceneTag(tag);
    if parsed.Err? {
      return Err(parsed.error);
    }
    var bay := parsed.value;
    var approach := BuildApproach(bay.point, wps);
    if approach.Err? {
      return Err(approach.error);
    }
    var departure := BuildDeparture(bay.point, wps);
    if departure.Err? {
      return Err(departure.error);
    }
    bay := bay.(stages := bay.stages[DOCKED := bay.point.loc], approach := approach.value, departure := departure.value);
    return Ok(bay);
  }

  /** Approach: walk the `in` links, add the default point if none resolved, mark the far end, zone, reverse. */
  method BuildApproach(point: WayPoint, wps: seq<WayPoint>) returns (r: Result<seq<WayPoint>, SetupError>)
    ensures r == ApproachRoute(point, wps)
  {
    var chain := ResolveChain(wps, Inbound, point.inLink, 1);
    if chain.Err? {
      return Err(chain.error);
    }
    var approach := [point] + chain.value;
    if |approach| == 1 {
      approach := approach + [UpWaypoint(point)];
    }
    assert approach == ApproachWalk(point, chain.value);
    approach := MarkLast(approach, APPROACH_START);
    var zoned := ZoneApproach(approach);
    assert zoned == ApproachZoned(approach);
    return Ok(Reverse(zoned));
  }

  /** Departure: walk the `out` links, zone, mark the far end. */
  method BuildDeparture(point: WayPoint, wps: seq<WayPoint>) returns (r: Result<seq<WayPoint>, SetupError>)
    ensures r == DepartureRoute(point, wps)
  {
    var chain := ResolveChain(wps, Outbound, point.outLink, 0);
    if chain.Err? {
      return Err(chain.error);
    }
    if chain.value == [] {
      return Err(EmptyDeparture);
    }
    var departure := ZoneDeparture(chain.value, HasFlag(point.flags, GATE));
    assert departure == DepartureZoned(chain.value, HasFlag(point.flags, GATE));
    return Ok(MarkLast(departure, ONLY_POS));
  }

  // ---------------------------------------------------------------------------
  // What a modern bay's routes look like

  /**
    The approach has at least two points; the first carries APPROACH_START and
    the last is the bay point. Read from the outside in, the speeds are
    EXTERNAL first and INTERNAL after, and they are the only two limits used.
    A bay without an `in` link gets the default point 500 units above it.
  */
  lemma ApproachRouteShape(point: WayPoint, wps: seq<WayPoint>)
    requires ApproachRoute(point, wps).Ok?
    ensures var a := ApproachRoute(point, wps).value;
      |a| >= 2 && HasFlag(a[0].flags, APPROACH_START) &&
      a[|a| - 1] == point.(speed := if HasFlag(point.flags, GATE) then EXTERNAL_SPEED_LIMIT else INTERNAL_SPEED_LIMIT) &&
      (forall i, j :: 0 <= i <= j < |a| && a[j].speed == EXTERNAL_SPEED_LIMIT ==> a[i].speed == EXTERNAL_SPEED_LIMIT) &&
      (forall i :: 0 <= i < |a| ==> a[i].speed == EXTERNAL_SPEED_LIMIT || a[i].speed == INTERNAL_SPEED_LIMIT)
    ensures point.inLink == "" ==> var a := ApproachRoute(point, wps).value;
      |a| == 2 && a[0].name == Truncate(point.name + "-up", NAME_CAPACITY - 1) && a[0].radiusSqr == 1.0 &&
      a[0].loc == TranslatedLocal(point.loc, 0.0, UP_OFFSET, 0.0)
  {
    ApproachRouteEnds(point, wps);
    ApproachRouteSpeeds(point, wps);
    if point.inLink == "" {
      ApproachRouteDefault(point, wps);
    }
  }

  /** The approach starts at a point flagged APPROACH_START and ends at the bay point with its speed. */
  lemma ApproachRouteEnds(point: WayPoint, wps: seq<WayPoint>)
    requires ApproachRoute(point, wps).Ok?
    ensures var a := ApproachRoute(point, wps).value;
      |a| >= 2 && HasFlag(a[0].flags, APPROACH_START) &&
      a[|a| - 1] == point.(speed := if HasFlag(point.flags, GATE) then EXTERNAL_SPEED_LIMIT else INTERNAL_SPEED_LIMIT)
  {
    var chain := Chain(wps, Inbound, point.inLink, 1).value;
    var walk := ApproachWalk(point, chain);
    var marked := MarkLast(walk, APPROACH_START);
    var z := ApproachZoned(marked);
    var a := Reverse(z);
    assert a[0] == z[|z| - 1];
    FlagsAreDistinctBits(APPROACH_START, APPROACH_START);
    assert HasFlag(a[0].flags, APPROACH_START);
    assert a[|a| - 1] == z[0] == marked[0].(speed := ApproachSpeed(marked, 0));
    assert marked[0] == point;
    assert GateAmong(marked, 1) <==> HasFlag(point.flags, GATE) by {
      if HasFlag(point.flags, GATE) {
        assert 0 <= 0 < 1 && HasFlag(marked[0].flags, GATE);
      }
    }
  }

  /** From the outside in, the approach speeds are EXTERNAL and then INTERNAL, and only those two. */
  lemma ApproachRouteSpeeds(point: WayPoint, wps: seq<WayPoint>)
    requires ApproachRoute(point, wps).Ok?
    ensures var a := ApproachRoute(point, wps).value;
      (forall i, j :: 0 <= i <= j < |a| && a[j].speed == EXTERNAL_SPEED_LIMIT ==> a[i].speed == EXTERNAL_SPEED_LIMIT) &&
      (forall i :: 0 <= i < |a| ==> a[i].speed == EXTERNAL_SPEED_LIMIT || a[i].speed == INTERNAL_SPEED_LIMIT)
  {
    var chain := Chain(wps, Inbound, point.inLink, 1).value;
    ZonedApproachSpeeds(MarkLast(ApproachWalk(point, chain), APPROACH_START));
  }

  /** Any zoned route, read backwards, has EXTERNAL speeds first and INTERNAL after, and only those two. */
  lemma ZonedApproachSpeeds(route: seq<WayPoint>)
    ensures var a := Reverse(ApproachZoned(route));
      (forall i, j :: 0 <= i <= j < |a| && a[j].speed == EXTERNAL_SPEED_LIMIT ==> a[i].speed == EXTERNAL_SPEED_LIMIT) &&
      (forall i :: 0 <= i < |a| ==> a[i].speed == EXTERNAL_SPEED_LIMIT || a[i].speed == INTERNAL_SPEED_LIMIT)
  {
    var a := Reverse(ApproachZoned(route));
    forall i, j | 0 <= i <= j < |a| && a[j].speed == EXTERNAL_SPEED_LIMIT
      ensures a[i].speed == EXTERNAL_SPEED_LIMIT
    {
      ApproachSpeedsSwitchOnce(route, |a| - 1 - j, |a| - 1 - i);
    }
  }

  /** Without an `in` link the approach is the default point 500 units above the bay, then the bay. */
  lemma ApproachRouteDefault(point: WayPoint, wps: seq<WayPoint>)
    requires ApproachRoute(point, wps).Ok? && point.inLink == ""
    ensures var a := ApproachRoute(point, wps).value;
      |a| == 2 && a[0].name == Truncate(point.name + "-up", NAME_CAPACITY - 1) && a[0].radiusSqr == 1.0 &&
      a[0].loc == TranslatedLocal(point.loc, 0.0, UP_OFFSET, 0.0)
  {
    var chain := Chain(wps, Inbound, point.inLink, 1).value;
    var marked := MarkLast(ApproachWalk(point, chain), APPROACH_START);
    var z := ApproachZoned(marked);
    assert Reverse(z)[0] == z[|z| - 1];
  }

  /**
    The departure is never empty and its last point carries ONLY_POS. Read from
    the bay outward, the speeds switch at most once, from INTERNAL to EXTERNAL,
    and they are all EXTERNAL when the bay point is a gate. Its points are the
    registered waypoints the `out` links lead to, in order.
  */
  lemma DepartureRouteShape(point: WayPoint, wps: seq<WayPoint>)
    requires DepartureRoute(point, wps).Ok?
    ensures var d := DepartureRoute(point, wps).value;
      d != [] && HasFlag(d[|d| - 1].flags, ONLY_POS) &&
      (forall i, j :: 0 <= i <= j < |d| && d[i].speed == EXTERNAL_SPEED_LIMIT ==> d[j].speed == EXTERNAL_SPEED_LIMIT) &&
      (HasFlag(point.flags, GATE) ==> forall i :: 0 <= i < |d| ==> d[i].speed == EXTERNAL_SPEED_LIMIT)
    ensures var d := DepartureRoute(point, wps).value;
      var chain := Chain(wps, Outbound, point.outLink, 0).value;
      |d| == |chain| && forall k :: 0 <= k < |d| ==> d[k].name == chain[k].name && d[k].loc == chain[k].loc
  {
    DepartureRouteSpeeds(point, wps);
    DepartureRoutePoints(point, wps);
  }

  /** The departure's last point carries ONLY_POS; its speeds switch at most once, and never from a gate. */
  lemma DepartureRouteSpeeds(point: WayPoint, wps: seq<WayPoint>)
    requires DepartureRoute(point, wps).Ok?
    ensures var d := DepartureRoute(point, wps).value;
      d != [] && HasFlag(d[|d| - 1].flags, ONLY_POS) &&
      (forall i, j :: 0 <= i <= j < |d| && d[i].speed == EXTERNAL_SPEED_LIMIT ==> d[j].speed == EXTERNAL_SPEED_LIMIT) &&
      (HasFlag(point.flags, GATE) ==> forall i :: 0 <= i < |d| ==> d[i].speed == EXTERNAL_SPEED_LIMIT)
  {
    var chain := Chain(wps, Outbound, point.outLink, 0).value;
    var gate := HasFlag(point.flags, GATE);
    var d := MarkLast(DepartureZoned(chain, gate), ONLY_POS);
    FlagsAreDistinctBits(ONLY_POS, ONLY_POS);
    forall i, j | 0 <= i <= j < |d| && d[i].speed == EXTERNAL_SPEED_LIMIT
      ensures d[j].speed == EXTERNAL_SPEED_LIMIT
    {
      DepartureSpeedsSwitchOnce(chain, gate, i, j);
    }
  }

  /** The departure's points are the registered waypoints the `out` links lead to, in order. */
  lemma DepartureRoutePoints(point: WayPoint, wps: seq<WayPoint>)
    requires DepartureRoute(point, wps).Ok?
    ensures var d := DepartureRoute(point, wps).value;
      var chain := Chain(wps, Outbound, point.outLink, 0).value;
      |d| == |chain| && forall k :: 0 <= k < |d| ==> d[k].name == chain[k].name && d[k].loc == chain[k].loc
  {
  }

  /** A modern bay is flagged BAY, has only the DOCKED stage, at the bay's own location, and ends its approach at its point. */
  lemma BaySpecShape(tag: SceneTag, wps: seq<WayPoint>)
    requires BaySpec(tag, wps).Ok?
    ensures var b := BaySpec(tag, wps).value;
      HasFlag(b.point.flags, BAY) && b.stages == map[DOCKED := b.point.loc] &&
      b.approach != [] && b.approach[|b.approach| - 1].loc == b.point.loc &&
      b.approach[|b.approach| - 1].name == b.point.name && b.departure != [] &&
      HasFlag(b.departure[|b.departure| - 1].flags, ONLY_POS)
  {
    var bay := PadSpec(tag).value;
    PadSpecIsBay(tag);
    ApproachRouteEnds(bay.point, wps);
    DepartureRouteSpeeds(bay.point, wps);
  }

  /** A pad tag's point carries the BAY flag, and the bay has no stages yet. */
  lemma PadSpecIsBay(tag: SceneTag)
    requires PadSpec(tag).Ok?
    ensures HasFlag(PadSpec(tag).value.point.flags, BAY) && PadSpec(tag).value.stages == map[]
  {
    var split := NextSection(tag.name, ':', SECTION_CAPACITY);
    var fields := Scan(PAD_FORMAT, split.section);
    var name := ToName(TextAt(fields, 0)).value;
    var start := EMPTY_WAYPOINT.(loc := Renormalized(tag.transform), radiusSqr := tag.scaleSqr, name := name);
    var point := ApplySections(start, split.rest).value;
    DisjointBitsIndependent(point.flags, BAY, 0);
  }

  /** A pad tag without sections gives the bay its name and both ship sizes. */
  lemma {:induction false} PadSpecReads(name: string, lo: string, hi: string, t: Transform, scaleSqr: real)
    requires name != [] && '_' !in name && ':' !in name && |name| < NAME_CAPACITY
    requires lo != [] && forall k :: 0 <= k < |lo| ==> IsDigit(lo[k])
    requires hi != [] && forall k :: 0 <= k < |hi| ==> IsDigit(hi[k])
    requires |name| + |lo| + |hi| + 7 < SECTION_CAPACITY
    ensures var r := PadSpec(SceneTag("pad_" + name + "_s" + lo + "_" + hi, t, scaleSqr));
      r.Ok? && r.value.point.name == name &&
      r.value.minShipSize == DigitsValue(lo) && r.value.maxShipSize == DigitsValue(hi)
  {
    PadTagFits(name, lo, hi);
    PadFormatReads(name, lo, hi);
  }

  /**
    The corrected parse of a pad tag refuses a name that does not fit the
    sixteen-character buffer.
  */
  lemma PadNameTooLong(name: string, lo: string, hi: string, t: Transform, scaleSqr: real)
    requires name != [] && '_' !in name && ':' !in name && |name| >= NAME_CAPACITY
    requires lo != [] && forall k :: 0 <= k < |lo| ==> IsDigit(lo[k])
    requires hi != [] && forall k :: 0 <= k < |hi| ==> IsDigit(hi[k])
    requires |name| + |lo| + |hi| + 7 < SECTION_CAPACITY
    ensures PadSpec(SceneTag("pad_" + name + "_s" + lo + "_" + hi, t, scaleSqr)) == Err(NameTooLong(name))
  {
    PadTagFits(name, lo, hi);
    PadFormatReads(name, lo, hi);
  }

  /** A pad tag without ':' is one whole section. */
  lemma PadTagFits(name: string, lo: string, hi: string)
    requires ':' !in name
    requires forall k :: 0 <= k < |lo| ==> IsDigit(lo[k])
    requires forall k :: 0 <= k < |hi| ==> IsDigit(hi[k])
    requires |name| + |lo| + |hi| + 7 < SECTION_CAPACITY
    ensures var tagName := "pad_" + name + "_s" + lo + "_" + hi;
      var split := NextSection(tagName, ':', SECTION_CAPACITY);
      split.fits && split.section == tagName && split.rest == []
  {
    var tagName := "pad_" + name + "_s" + lo + "_" + hi;
    assert ':' !in lo && ':' !in hi by {
      assert forall k :: 0 <= k < |lo| ==> lo[k] != ':';
      assert forall k :: 0 <= k < |hi| ==> hi[k] != ':';
    }
    assert ':' !in tagName;
    RunNotAt(tagName, ':', tagName, []);
    assert tagName + [] == tagName;
  }
}
