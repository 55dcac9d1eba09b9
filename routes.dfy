/**
  The link-chain resolver and the speed zoner of SpaceStationType::OnSetupComplete
  (src/SpaceStationType.cpp): following `in` links from a bay builds its approach
  route, following `out` links builds its departure route, and each route is then
  given a speed limit per waypoint.
*/
module Routes {
  import opened Wrappers
  import opened DockOperations
  import opened TagGrammar

  /** INTERNAL_SPEED_LIMIT and EXTERNAL_SPEED_LIMIT, in m/s. */
  const INTERNAL_SPEED_LIMIT: real := 30.0
  const EXTERNAL_SPEED_LIMIT: real := 300.0

  /** Which link a walk follows: `in` for the approach, `out` for the departure. */
  datatype Direction = Inbound | Outbound

  function LinkOf(wp: WayPoint, dir: Direction): Name {
    match dir
    case Inbound => wp.inLink
    case Outbound => wp.outLink
  }

  /** The first registered waypoint with this name (the strcmp scan of the inner for loop). */
  function FindFirst(wps: seq<WayPoint>, name: string): (r: Option<nat>)
    ensures r.Some? ==> r.value < |wps| && wps[r.value].name == name
    ensures r.Some? ==> forall k :: 0 <= k < r.value ==> wps[k].name != name
    ensures r.None? <==> forall k :: 0 <= k < |wps| ==> wps[k].name != name
  {
    if wps == [] then None
    else if wps[0].name == name then Some(0)
    else
      match FindFirst(wps[1..], name)
      case None => None
      case Some(i) => Some(i + 1)
  }

  /**
    The waypoints a walk appends, starting from link `link` when the route
    already holds `count` points (1 for the approach, which starts with the bay
    point; 0 for the departure). A name no waypoint has is a dangling link; a
    route longer than the registry is a loop. With an empty registry the source
    checks only the length: the approach then fails as a loop, and the departure
    never leaves its loop, which is reported here as the dangling link it is.
  */
  function Chain(wps: seq<WayPoint>, dir: Direction, link: string, count: nat): (r: Result<seq<WayPoint>, SetupError>)
    decreases |wps| - count
    ensures r.Ok? ==> r.value == [] || count + |r.value| <= |wps|
    ensures r.Ok? ==> (r.value == [] <==> link == "")
  {
    if link == "" then Ok([])
    else
      match FindFirst(wps, link)
      case None => if |wps| == 0 && count > 0 then Err(LinkLoop) else Err(DanglingLink(link))
      case Some(i) =>
        if count + 1 > |wps| then Err(LinkLoop)
        else
          var rest :- Chain(wps, dir, LinkOf(wps[i], dir), count + 1);
          Ok([wps[i]] + rest)
  }

  /** The resolver fails only with a loop or with a link that names no registered waypoint. */
  lemma {:induction false} ChainErrors(wps: seq<WayPoint>, dir: Direction, link: string, count: nat)
    requires Chain(wps, dir, link, count).Err?
    ensures var e := Chain(wps, dir, link, count).error;
      e == LinkLoop || (e.DanglingLink? && e.link != "" && forall k :: 0 <= k < |wps| ==> wps[k].name != e.link)
    decreases |wps| - count
  {
    match FindFirst(wps, link)
    case None =>
    case Some(i) =>
      if count + 1 <= |wps| {
        ChainErrors(wps, dir, LinkOf(wps[i], dir), count + 1);
      }
  }

  function Prepend(p: seq<WayPoint>, r: Result<seq<WayPoint>, SetupError>): Result<seq<WayPoint>, SetupError> {
    match r
    case Ok(s) => Ok(p + s)
    case Err(e) => Err(e)
  }

  /** The inner for loop: the position of the first registered waypoint with this name. */
  method FindWayPoint(wps: seq<WayPoint>, name: string) returns (r: Option<nat>)
    ensures r == FindFirst(wps, name)
  {
    for i := 0 to |wps|
      invariant forall k :: 0 <= k < i ==> wps[k].name != name
    {
      if wps[i].name == name {
        return Some(i);
      }
    }
    return None;
  }

  /** What the walk will produce from here: the route so far, then the rest of the chain. */
  function Resume(wps: seq<WayPoint>, dir: Direction, count: nat, route: seq<WayPoint>, link: string): Result<seq<WayPoint>, SetupError> {
    Prepend(route, Chain(wps, dir, link, count + |route|))
  }

  /** How the walk ends: at an empty link, at a missing link, or when the route is full. */
  lemma ResumeStops(wps: seq<WayPoint>, dir: Direction, count: nat, route: seq<WayPoint>, link: string)
    ensures link == "" ==> Resume(wps, dir, count, route, link) == Ok(route)
    ensures link != "" && FindFirst(wps, link).None? ==>
      Resume(wps, dir, count, route, link) == (if |wps| == 0 && count + |route| > 0 then Err(LinkLoop) else Err(DanglingLink(link)))
    ensures link != "" && FindFirst(wps, link).Some? && count + |route| + 1 > |wps| ==>
      Resume(wps, dir, count, route, link) == Err(LinkLoop)
  {
    assert route + [] == route;
  }

  /** A resolvable link contributes its waypoint, then the rest of the chain from that waypoint's link. */
  lemma ChainStep(wps: seq<WayPoint>, dir: Direction, link: string, n: nat, i: nat)
    requires link != "" && FindFirst(wps, link) == Some(i) && n + 1 <= |wps|
    ensures Chain(wps, dir, link, n) == Prepend([wps[i]], Chain(wps, dir, LinkOf(wps[i], dir), n + 1))
  {
  }

  /** A resolved non-empty link: its waypoint, then the resolved rest of the chain. */
  lemma ChainOkStep(wps: seq<WayPoint>, dir: Direction, link: string, count: nat) returns (i: nat)
    requires Chain(wps, dir, link, count).Ok? && link != ""
    ensures FindFirst(wps, link) == Some(i) && i < |wps| && count + 1 <= |wps|
    ensures Chain(wps, dir, LinkOf(wps[i], dir), count + 1).Ok?
    ensures Chain(wps, dir, link, count).value == [wps[i]] + Chain(wps, dir, LinkOf(wps[i], dir), count + 1).value
  {
    i := FindFirst(wps, link).value;
  }

  /** Prepending two prefixes in turn is prepending their concatenation. */
  lemma PrependTwice(p: seq<WayPoint>, q: seq<WayPoint>, r: Result<seq<WayPoint>, SetupError>)
    ensures Prepend(p, Prepend(q, r)) == Prepend(p + q, r)
  {
    if r.Ok? {
      assert p + (q + r.value) == (p + q) + r.value;
    }
  }

  /** One step of the walk, as the resolver takes it. */
  lemma ResumeStep(wps: seq<WayPoint>, dir: Direction, count: nat, route: seq<WayPoint>, link: string, i: nat)
    requires link != "" && FindFirst(wps, link) == Some(i) && count + |route| + 1 <= |wps|
    ensures Resume(wps, dir, count, route, link) == Resume(wps, dir, count, route + [wps[i]], LinkOf(wps[i], dir))
  {
    ChainStep(wps, dir, link, count + |route|, i);
    PrependTwice(route, [wps[i]], Chain(wps, dir, LinkOf(wps[i], dir), count + |route| + 1));
    assert count + |route + [wps[i]]| == count + |route| + 1;
  }

  /**
    The `while (prev[0])` / `while (next[0])` walk: look the link up, append a
    copy of the match, check the length, follow the match's own link. The
    registry is a value and is not changed.
  */
  method ResolveChain(wps: seq<WayPoint>, dir: Direction, start: string, count: nat) returns (r: Result<seq<WayPoint>, SetupError>)
    ensures r == Chain(wps, dir, start, count)
  {
    var route: seq<WayPoint> := [];
    var link := start;
    assert Resume(wps, dir, count, [], start) == Chain(wps, dir, start, count) by {
      if Chain(wps, dir, start, count).Ok? {
        assert [] + Chain(wps, dir, start, count).value == Chain(wps, dir, start, count).value;
      }
    }
    while link != ""
      invariant route == [] || count + |route| <= |wps|
      invariant Chain(wps, dir, start, count) == Resume(wps, dir, count, route, link)
      decreases |wps| - |route|
    {
      var found := FindWayPoint(wps, link);
      ResumeStops(wps, dir, count, route, link);
      if found.None? {
        // with an empty registry only the length assert can fire
        if |wps| == 0 && count + |route| > 0 {
          return Err(LinkLoop);
        }
        return Err(DanglingLink(link));
      }
      var i := found.value;
      if count + |route| + 1 > |wps| {
        return Err(LinkLoop);
      }
      ResumeStep(wps, dir, count, route, link, i);
      route := route + [wps[i]];
      link := LinkOf(wps[i], dir);
    }
    ResumeStops(wps, dir, count, route, link);
    return Ok(route);
  }

  // ---------------------------------------------------------------------------
  // What a resolved route is

  /** Each waypoint of `route` is the first registered waypoint named by the link before it. */
  predicate Walks(wps: seq<WayPoint>, dir: Direction, start: string, route: seq<WayPoint>)
    decreases |route|
  {
    route == [] ||
    (start != "" && FindFirst(wps, start).Some? && wps[FindFirst(wps, start).value] == route[0] &&
     Walks(wps, dir, LinkOf(route[0], dir), route[1..]))
  }

  /** The link that leads to position k of a route: the start link, then each waypoint's own link. */
  function Target(start: string, route: seq<WayPoint>, dir: Direction, k: nat): string
    requires k <= |route|
  {
    if k == 0 then start else LinkOf(route[k - 1], dir)
  }

  /** A walk that ends at a waypoint with no further link. */
  predicate FollowsLinks(wps: seq<WayPoint>, dir: Direction, start: string, route: seq<WayPoint>) {
    Walks(wps, dir, start, route) && Target(start, route, dir, |route|) == ""
  }

  /** The registry positions a walk visits. */
  function WalkIndices(wps: seq<WayPoint>, dir: Direction, start: string, route: seq<WayPoint>): (r: seq<nat>)
    requires Walks(wps, dir, start, route)
    ensures |r| == |route|
    ensures forall k :: 0 <= k < |r| ==> r[k] < |wps| && wps[r[k]] == route[k]
    decreases |route|
  {
    if route == [] then []
    else [FindFirst(wps, start).value] + WalkIndices(wps, dir, LinkOf(route[0], dir), route[1..])
  }

  /** Position k of a walk is the first waypoint named by the link before it, and the rest of the walk goes on from there. */
  lemma {:induction false} WalkAt(wps: seq<WayPoint>, dir: Direction, start: string, route: seq<WayPoint>, k: nat)
    requires Walks(wps, dir, start, route) && k <= |route|
    ensures Walks(wps, dir, Target(start, route, dir, k), route[k..])
    ensures k < |route| ==> route[k].name == Target(start, route, dir, k) != ""
    decreases k
  {
    if k > 0 {
      WalkAt(wps, dir, LinkOf(route[0], dir), route[1..], k - 1);
      assert route[1..][k - 1..] == route[k..];
      assert Target(LinkOf(route[0], dir), route[1..], dir, k - 1) == Target(start, route, dir, k) by {
        if k > 1 {
          assert route[1..][k - 2] == route[k - 1];
        }
      }
      if k < |route| {
        assert route[1..][k - 1] == route[k];
      }
    }
  }

  /** A resolved route follows the links from its start to a waypoint with no further link. */
  lemma {:induction false} ChainFollowsLinks(wps: seq<WayPoint>, dir: Direction, link: string, count: nat)
    requires Chain(wps, dir, link, count).Ok?
    ensures FollowsLinks(wps, dir, link, Chain(wps, dir, link, count).value)
    decreases |wps| - count
  {
    if link != "" {
      var i := ChainOkStep(wps, dir, link, count);
      var rest := Chain(wps, dir, LinkOf(wps[i], dir), count + 1).value;
      ChainFollowsLinks(wps, dir, LinkOf(wps[i], dir), count + 1);
      var route := [wps[i]] + rest;
      assert route[1..] == rest;
      assert Target(link, route, dir, |route|) == Target(LinkOf(wps[i], dir), rest, dir, |rest|);
    }
  }

  /** Conversely, a route that follows the links and fits the bound is what the resolver returns. */
  lemma {:induction false} FollowsLinksIsChain(wps: seq<WayPoint>, dir: Direction, link: string, count: nat, route: seq<WayPoint>)
    requires FollowsLinks(wps, dir, link, route)
    requires route == [] || count + |route| <= |wps|
    ensures Chain(wps, dir, link, count) == Ok(route)
    decreases |route|
  {
    if route != [] {
      var i := FollowsLinksTail(wps, dir, link, route);
      var rest := route[1..];
      FollowsLinksIsChain(wps, dir, LinkOf(route[0], dir), count + 1, rest);
      ChainStep(wps, dir, link, count, i);
      assert route == [wps[i]] + rest;
      assert Prepend([wps[i]], Ok(rest)) == Ok(route);
    }
  }

  /** A walk that follows the links starts at the first waypoint named by the link, and its tail follows that waypoint's link. */
  lemma FollowsLinksTail(wps: seq<WayPoint>, dir: Direction, link: string, route: seq<WayPoint>) returns (i: nat)
    requires FollowsLinks(wps, dir, link, route) && route != []
    ensures link != "" && FindFirst(wps, link) == Some(i) && i < |wps| && wps[i] == route[0]
    ensures FollowsLinks(wps, dir, LinkOf(route[0], dir), route[1..])
  {
    i := FindFirst(wps, link).value;
    assert Target(LinkOf(route[0], dir), route[1..], dir, |route| - 1) == Target(link, route, dir, |route|);
  }

  /** Links determine the walk: two routes that follow the links from one start are the same route. */
  lemma {:induction false} FollowsLinksUnique(wps: seq<WayPoint>, dir: Direction, link: string, x: seq<WayPoint>, y: seq<WayPoint>)
    requires FollowsLinks(wps, dir, link, x) && FollowsLinks(wps, dir, link, y)
    ensures x == y
    decreases |x|
  {
    if x != [] && y != [] {
      assert x[0] == y[0];
      assert Target(LinkOf(x[0], dir), x[1..], dir, |x| - 1) == Target(link, x, dir, |x|);
      assert Target(LinkOf(y[0], dir), y[1..], dir, |y| - 1) == Target(link, y, dir, |y|);
      FollowsLinksUnique(wps, dir, LinkOf(x[0], dir), x[1..], y[1..]);
      assert x == [x[0]] + x[1..] && y == [y[0]] + y[1..];
    }
  }

  /** A resolved route never visits a waypoint twice: its names are pairwise distinct. */
  lemma ChainNamesDistinct(wps: seq<WayPoint>, dir: Direction, link: string, count: nat)
    requires Chain(wps, dir, link, count).Ok?
    ensures var route := Chain(wps, dir, link, count).value;
      forall p, q :: 0 <= p < q < |route| ==> route[p].name != route[q].name
  {
    var route := Chain(wps, dir, link, count).value;
    ChainFollowsLinks(wps, dir, link, count);
    forall p, q | 0 <= p < q < |route|
      ensures route[p].name != route[q].name
    {
      NoRevisit(wps, dir, link, route, p, q);
    }
  }

  lemma NoRevisit(wps: seq<WayPoint>, dir: Direction, link: string, route: seq<WayPoint>, p: nat, q: nat)
    requires FollowsLinks(wps, dir, link, route) && p < q < |route|
    ensures route[p].name != route[q].name
  {
    FollowsLinksSuffix(wps, dir, link, route, p);
    FollowsLinksSuffix(wps, dir, link, route, q);
    assert |route[p..]| != |route[q..]|;
    if route[p].name == route[q].name {
      FollowsLinksUnique(wps, dir, route[p].name, route[p..], route[q..]);
      assert false;
    }
  }

  /** The walk from position k onwards follows the links from the name found there. */
  lemma FollowsLinksSuffix(wps: seq<WayPoint>, dir: Direction, link: string, route: seq<WayPoint>, k: nat)
    requires FollowsLinks(wps, dir, link, route) && k < |route|
    ensures FollowsLinks(wps, dir, route[k].name, route[k..])
  {
    WalkAt(wps, dir, link, route, k);
    var x := route[k..];
    assert x[|x| - 1] == route[|route| - 1];
  }

  /** The resolver reports a loop only after a walk one step longer than the bound allows. */
  lemma {:induction false} LoopMeansLongWalk(wps: seq<WayPoint>, dir: Direction, link: string, count: nat)
    requires Chain(wps, dir, link, count) == Err(LinkLoop) && count <= |wps|
    ensures exists route :: Walks(wps, dir, link, route) && |route| == |wps| + 1 - count
    decreases |wps| - count
  {
    var i := FindFirst(wps, link).value;
    var w := wps[i];
    if count == |wps| {
      assert [w][1..] == [];
      assert Walks(wps, dir, link, [w]);
    } else {
      LoopMeansLongWalk(wps, dir, LinkOf(w, dir), count + 1);
      var rest :| Walks(wps, dir, LinkOf(w, dir), rest) && |rest| == |wps| - count;
      assert ([w] + rest)[1..] == rest;
      assert Walks(wps, dir, link, [w] + rest);
    }
  }

  /**
    The departure's loop report is sound: the walk it stopped passed the same
    registered waypoint twice, so the links form a cycle.
  */
  lemma DepartureLoopRevisits(wps: seq<WayPoint>, link: string)
    requires Chain(wps, Outbound, link, 0) == Err(LinkLoop)
    ensures exists route, p, q :: Walks(wps, Outbound, link, route) && 0 <= p < q < |route| && route[p] == route[q]
  {
    LoopMeansLongWalk(wps, Outbound, link, 0);
    var route :| Walks(wps, Outbound, link, route) && |route| == |wps| + 1;
    var idx := WalkIndices(wps, Outbound, link, route);
    Pigeonhole(idx, |wps|);
    var p, q :| 0 <= p < q < |idx| && idx[p] == idx[q];
    assert route[p] == route[q];
  }

  /** Among n + 1 numbers below n, two are equal. */
  lemma {:induction false} Pigeonhole(s: seq<nat>, n: nat)
    requires n > 0 && |s| > n && forall k :: 0 <= k < |s| ==> s[k] < n
    ensures exists p, q :: 0 <= p < q < |s| && s[p] == s[q]
    decreases n
  {
    var last := s[|s| - 1];
    var t := s[..|s| - 1];
    if n == 1 {
      assert s[0] == s[1];
    } else if p :| 0 <= p < |t| && t[p] == last {
      assert s[p] == s[|s| - 1];
    } else if last == n - 1 {
      forall k | 0 <= k < |t| ensures t[k] < n - 1 {
        assert t[k] != last;
      }
      Pigeonhole(t, n - 1);
      var p, q :| 0 <= p < q < |t| && t[p] == t[q];
      assert s[p] == s[q];
    } else {
      var u := seq(|t|, k requires 0 <= k < |t| => if t[k] == n - 1 then last else t[k]);
      Pigeonhole(u, n - 1);
      var p, q :| 0 <= p < q < |u| && u[p] == u[q];
      assert t[p] != last && t[q] != last;
      assert s[p] == s[q];
    }
  }

  /**
    The approach bound counts the bay point: a chain through every registered
    waypoint is reported as a loop although it follows the links correctly.
  */
  lemma ApproachBoundCountsBayPoint(a: WayPoint)
    requires a.name != "" && a.inLink == ""
    ensures FollowsLinks([a], Inbound, a.name, [a])
    ensures Chain([a], Inbound, a.name, 1) == Err(LinkLoop)
  {
    assert [a][1..] == [];
  }

  /**
    The outer loop body as written, run once: scan for the link, append the
    match, then check the length. With an empty registry nothing is scanned, so
    nothing changes and the loop test repeats with the same link.
  */
  function WalkStepAsWritten(wps: seq<WayPoint>, dir: Direction, link: string, route: seq<WayPoint>, count: nat)
    : (r: Result<(string, seq<WayPoint>), SetupError>)
    requires link != ""
    ensures r.Ok? ==> |r.value.1| == |route| + 1 || (wps == [] && r.value == (link, route))
  {
    match FindFirst(wps, link)
    case None =>
      if |wps| > 0 then Err(DanglingLink(link))
      else if count + |route| > |wps| then Err(LinkLoop)
      else Ok((link, route))
    case Some(i) =>
      var route' := route + [wps[i]];
      if count + |route'| > |wps| then Err(LinkLoop) else Ok((LinkOf(wps[i], dir), route'))
  }

  /** A departure link into an empty registry: the step as written leaves the walk where it was, the resolver reports the dangling link. */
  lemma EmptyRegistryDepartureStalls(link: string)
    requires link != ""
    ensures WalkStepAsWritten([], Outbound, link, [], 0) == Ok((link, []))
    ensures Chain([], Outbound, link, 0) == Err(DanglingLink(link))
  {
  }

  // ---------------------------------------------------------------------------
  // Speed zoning

  /** Some waypoint among the first n carries GATE. */
  predicate GateAmong(route: seq<WayPoint>, n: nat)
    requires n <= |route|
  {
    exists j :: 0 <= j < n && HasFlag(route[j].flags, GATE)
  }

  function ApproachSpeed(route: seq<WayPoint>, i: nat): real
    requires i < |route|
  {
    if GateAmong(route, i + 1) then EXTERNAL_SPEED_LIMIT else INTERNAL_SPEED_LIMIT
  }

  function DepartureSpeed(route: seq<WayPoint>, bayIsGate: bool, i: nat): real
    requires i < |route|
  {
    if bayIsGate || GateAmong(route, i) then EXTERNAL_SPEED_LIMIT else INTERNAL_SPEED_LIMIT
  }

  /**
    Approach zoning, bay outward: the limit switches to EXTERNAL at a gate
    before it is assigned, so the gate itself and everything after it is
    EXTERNAL. Only the speeds change.
  */
  method ZoneApproach(route: seq<WayPoint>) returns (zoned: seq<WayPoint>)
    ensures |zoned| == |route|
    ensures forall i :: 0 <= i < |route| ==> zoned[i] == route[i].(speed := ApproachSpeed(route, i))
  {
    zoned := route;
    var speedLimit := INTERNAL_SPEED_LIMIT;
    for i := 0 to |route|
      invariant |zoned| == |route|
      invariant speedLimit == if GateAmong(route, i) then EXTERNAL_SPEED_LIMIT else INTERNAL_SPEED_LIMIT
      invariant forall k :: 0 <= k < i ==> zoned[k] == route[k].(speed := ApproachSpeed(route, k))
      invariant zoned[i..] == route[i..]
    {
      if HasFlag(route[i].flags, GATE) {
        speedLimit := EXTERNAL_SPEED_LIMIT;
      }
      assert zoned[i] == route[i] by {
        assert zoned[i..][0] == route[i..][0];
      }
      zoned := zoned[i := zoned[i].(speed := speedLimit)];
    }
  }

  /**
    Departure zoning, bay outward: the limit starts EXTERNAL when the bay
    point is a gate; each waypoint is assigned first and a gate switches the
    limit for the waypoints after it. Only the speeds change.
  */
  method ZoneDeparture(route: seq<WayPoint>, bayIsGate: bool) returns (zoned: seq<WayPoint>)
    ensures |zoned| == |route|
    ensures forall i :: 0 <= i < |route| ==> zoned[i] == route[i].(speed := DepartureSpeed(route, bayIsGate, i))
  {
    zoned := route;
    var speedLimit := if bayIsGate then EXTERNAL_SPEED_LIMIT else INTERNAL_SPEED_LIMIT;
    for i := 0 to |route|
      invariant |zoned| == |route|
      invariant speedLimit == if bayIsGate || GateAmong(route, i) then EXTERNAL_SPEED_LIMIT else INTERNAL_SPEED_LIMIT
      invariant forall k :: 0 <= k < i ==> zoned[k] == route[k].(speed := DepartureSpeed(route, bayIsGate, k))
      invariant zoned[i..] == route[i..]
    {
      assert zoned[i] == route[i] by {
        assert zoned[i..][0] == route[i..][0];
      }
      zoned := zoned[i := zoned[i].(speed := speedLimit)];
      if HasFlag(route[i].flags, GATE) {
        speedLimit := EXTERNAL_SPEED_LIMIT;
      }
    }
  }

  /**
    Approach speeds change at most once, from INTERNAL to EXTERNAL, and a gate
    waypoint is always EXTERNAL; before the first gate everything is INTERNAL.
  */
  lemma ApproachSpeedsSwitchOnce(route: seq<WayPoint>, i: nat, j: nat)
    requires i <= j < |route|
    ensures ApproachSpeed(route, i) == EXTERNAL_SPEED_LIMIT ==> ApproachSpeed(route, j) == EXTERNAL_SPEED_LIMIT
    ensures HasFlag(route[i].flags, GATE) ==> ApproachSpeed(route, i) == EXTERNAL_SPEED_LIMIT
    ensures (forall k :: 0 <= k <= i ==> !HasFlag(route[k].flags, GATE)) ==> ApproachSpeed(route, i) == INTERNAL_SPEED_LIMIT
  {
    if GateAmong(route, i + 1) {
      var g :| 0 <= g < i + 1 && HasFlag(route[g].flags, GATE);
      assert 0 <= g < j + 1;
    }
  }

  /**
    Departure speeds change at most once too, but a gate keeps the limit that
    was in force before it (unless the bay point itself is a gate).
  */
  lemma DepartureSpeedsSwitchOnce(route: seq<WayPoint>, bayIsGate: bool, i: nat, j: nat)
    requires i <= j < |route|
    ensures DepartureSpeed(route, bayIsGate, i) == EXTERNAL_SPEED_LIMIT ==> DepartureSpeed(route, bayIsGate, j) == EXTERNAL_SPEED_LIMIT
    ensures HasFlag(route[i].flags, GATE) && i < j ==> DepartureSpeed(route, bayIsGate, j) == EXTERNAL_SPEED_LIMIT
    ensures (forall k :: 0 <= k < i ==> !HasFlag(route[k].flags, GATE)) ==>
      DepartureSpeed(route, bayIsGate, i) == (if bayIsGate then EXTERNAL_SPEED_LIMIT else INTERNAL_SPEED_LIMIT)
  {
    if GateAmong(route, i) {
      var g :| 0 <= g < i && HasFlag(route[g].flags, GATE);
      assert 0 <= g < j;
    }
    if HasFlag(route[i].flags, GATE) && i < j {
      assert 0 <= i < j;
    }
  }

  // ---------------------------------------------------------------------------
  // Route post-processing

  /** std::reverse */
  function Reverse<T>(s: seq<T>): (r: seq<T>)
    ensures |r| == |s|
    ensures forall k :: 0 <= k < |s| ==> r[k] == s[|s| - 1 - k]
  {
    if s == [] then [] else Reverse(s[1..]) + [s[0]]
  }

  /** route.back().flags |= f */
  function MarkLast(route: seq<WayPoint>, f: bv64): (r: seq<WayPoint>)
    requires route != []
    ensures |r| == |route| && r[..|r| - 1] == route[..|route| - 1]
    ensures r[|r| - 1] == route[|route| - 1].(flags := route[|route| - 1].flags | f)
  {
    route[|route| - 1 := route[|route| - 1].(flags := route[|route| - 1].flags | f)]
  }
}
