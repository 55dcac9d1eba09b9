/**
  Station assembly (src/SpaceStationType.cpp, src/SpaceStationType.h): turning
  the model's marker tags into docking bays. Modern stations have `pad_` and
  `wp_` tags whose links are resolved into routes; legacy stations have
  `entrance_port`, `loc_` and `exit_port` tags from which fixed routes are
  derived. The station object keeps the bays in a map keyed from 1.
*/
module SpaceStationTypes {
  import opened Wrappers
  import opened DockOperations
  import opened DockStages
  import opened TagGrammar
  import opened Routes
  import opened Bays

  // ---------------------------------------------------------------------------
  // Tag collection and pad order

  /** Model::FindTagsByStartOfName: the tags whose names start with `prefix`, in model order. */
  function TagsWithPrefix(tags: seq<SceneTag>, prefix: string): (r: seq<SceneTag>)
    ensures forall t :: t in r <==> t in tags && prefix <= t.name
  {
    if tags == [] then []
    else (if prefix <= tags[0].name then [tags[0]] else []) + TagsWithPrefix(tags[1..], prefix)
  }

  /** Collecting over two runs of tags collects over each in turn: order and repeats are kept. */
  lemma {:induction false} TagsWithPrefixAppend(a: seq<SceneTag>, b: seq<SceneTag>, prefix: string)
    ensures TagsWithPrefix(a + b, prefix) == TagsWithPrefix(a, prefix) + TagsWithPrefix(b, prefix)
    decreases |a|
  {
    if a == [] {
      assert a + b == b;
    } else {
      assert (a + b)[0] == a[0] && (a + b)[1..] == a[1..] + b;
      TagsWithPrefixAppend(a[1..], b, prefix);
    }
  }

  /** One tag is kept exactly when its name starts with the prefix. */
  lemma TagsWithPrefixOne(t: SceneTag, prefix: string)
    ensures TagsWithPrefix([t], prefix) == if prefix <= t.name then [t] else []
  {
    assert [t][1..] == [];
  }

  /** std::string operator<=, character by character. */
  predicate NameLe(a: string, b: string)
    decreases |a|
  {
    a == [] || (b != [] && (a[0] < b[0] || (a[0] == b[0] && NameLe(a[1..], b[1..]))))
  }

  lemma {:induction false} NameLeTotal(a: string, b: string)
    ensures NameLe(a, b) || NameLe(b, a)
    decreases |a|
  {
    if a != [] && b != [] && a[0] == b[0] {
      NameLeTotal(a[1..], b[1..]);
    }
  }

  lemma {:induction false} NameLeTransitive(a: string, b: string, c: string)
    requires NameLe(a, b) && NameLe(b, c)
    ensures NameLe(a, c)
    decreases |a|
  {
    if a != [] && b != [] && c != [] && a[0] == b[0] && b[0] == c[0] {
      NameLeTransitive(a[1..], b[1..], c[1..]);
    }
  }

  predicate SortedByName(s: seq<SceneTag>) {
    forall i :: 0 <= i < |s| - 1 ==> NameLe(s[i].name, s[i + 1].name)
  }

  function InsertByName(x: SceneTag, s: seq<SceneTag>): (r: seq<SceneTag>)
    requires SortedByName(s)
    ensures SortedByName(r) && multiset(r) == multiset(s) + multiset{x} && |r| == |s| + 1
    ensures r[0] == x || (s != [] && r[0] == s[0])
  {
    if s == [] then [x]
    else if NameLe(x.name, s[0].name) then [x] + s
    else
      var rest := InsertByName(x, s[1..]);
      NameLeTotal(x.name, s[0].name);
      assert s == [s[0]] + s[1..];
      [s[0]] + rest
  }

  /** std::sort by name: a permutation of the pad tags in non-decreasing name order. */
  function SortByName(s: seq<SceneTag>): (r: seq<SceneTag>)
    ensures SortedByName(r) && multiset(r) == multiset(s) && |r| == |s|
  {
    if s == [] then []
    else
      assert s == [s[0]] + s[1..];
      InsertByName(s[0], SortByName(s[1..]))
  }

  /** Adjacent order is global order. */
  lemma {:induction false} SortedByNameAll(s: seq<SceneTag>, i: nat, j: nat)
    requires SortedByName(s) && i <= j < |s|
    ensures NameLe(s[i].name, s[j].name)
    decreases j - i
  {
    if i == j {
      NameLeReflexive(s[i].name);
    } else {
      SortedByNameAll(s, i + 1, j);
      NameLeTransitive(s[i].name, s[i + 1].name, s[j].name);
    }
  }

  lemma {:induction false} NameLeReflexive(a: string)
    ensures NameLe(a, a)
    decreases |a|
  {
    if a != [] {
      NameLeReflexive(a[1..]);
    }
  }

  // ---------------------------------------------------------------------------
  // The modern path

  /** The parse of each `wp_` tag, in tag order. */
  function Parses(tags: seq<SceneTag>): (r: seq<Result<WayPoint, SetupError>>)
    ensures |r| == |tags| && forall k :: 0 <= k < |tags| ==> r[k] == WaypointSpec(tags[k])
  {
    seq(|tags|, k requires 0 <= k < |tags| => WaypointSpec(tags[k]))
  }

  /** The values of `results` appended to `acc` in order; the first failure ends the fold. */
  function Collect<T>(results: seq<Result<T, SetupError>>, acc: seq<T>): Result<seq<T>, SetupError>
    decreases |results|
  {
    if results == [] then Ok(acc)
    else
      var x :- results[0];
      Collect(results[1..], acc + [x])
  }

  /** The waypoint registry: every `wp_` tag parsed, in model order, after those in `acc`. */
  function Registry(tags: seq<SceneTag>, acc: seq<WayPoint>): Result<seq<WayPoint>, SetupError> {
    Collect(Parses(tags), acc)
  }

  /** The registry holds one waypoint per `wp_` tag, each the parse of its tag, in tag order. */
  lemma RegistryParsesEachTag(tags: seq<SceneTag>, acc: seq<WayPoint>)
    requires Registry(tags, acc).Ok?
    ensures var r := Registry(tags, acc).value;
      |r| == |acc| + |tags| && r[..|acc|] == acc &&
      forall k :: 0 <= k < |tags| ==> WaypointSpec(tags[k]) == Ok(r[|acc| + k])
  {
    var results := Parses(tags);
    CollectKeepsAcc(results, acc);
    forall k | 0 <= k < |tags|
      ensures WaypointSpec(tags[k]) == Ok(Registry(tags, acc).value[|acc| + k])
    {
      CollectEntry(results, acc, k);
    }
  }

  /** The fold extends its accumulator by one value per result. */
  lemma {:induction false} CollectKeepsAcc<T>(results: seq<Result<T, SetupError>>, acc: seq<T>)
    requires Collect(results, acc).Ok?
    ensures var r := Collect(results, acc).value;
      |r| == |acc| + |results| && r[..|acc|] == acc
    decreases |results|
  {
    if results != [] {
      var acc' := acc + [results[0].value];
      CollectKeepsAcc(results[1..], acc');
      var r := Collect(results[1..], acc').value;
      assert r[..|acc|] == r[..|acc'|][..|acc|];
    }
  }

  /** Entry |acc| + k of a successful fold is the value of result k. */
  lemma {:induction false} CollectEntry<T>(results: seq<Result<T, SetupError>>, acc: seq<T>, k: nat)
    requires Collect(results, acc).Ok? && k < |results|
    ensures |Collect(results, acc).value| == |acc| + |results|
    ensures results[k] == Ok(Collect(results, acc).value[|acc| + k])
    decreases |results|
  {
    var acc' := acc + [results[0].value];
    CollectKeepsAcc(results[1..], acc');
    var r := Collect(results[1..], acc').value;
    if k == 0 {
      assert r[..|acc'|][|acc|] == r[|acc|];
    } else {
      CollectEntry(results[1..], acc', k - 1);
      assert results[1..][k - 1] == results[k];
    }
  }

  /** The result of parsing each pad against the registry, in pad order. */
  function BaySpecs(pads: seq<SceneTag>, wps: seq<WayPoint>): (r: seq<Result<Bay, SetupError>>)
    ensures |r| == |pads|
    decreases |pads|
  {
    if pads == [] then [] else [BaySpec(pads[0], wps)] + BaySpecs(pads[1..], wps)
  }

  /** Entry k of BaySpecs is the parse of pad k. */
  lemma {:induction false} BaySpecsAt(pads: seq<SceneTag>, wps: seq<WayPoint>, k: nat)
    requires k < |pads|
    ensures BaySpecs(pads, wps)[k] == BaySpec(pads[k], wps)
    decreases |pads|
  {
    if k > 0 {
      BaySpecsAt(pads[1..], wps, k - 1);
      assert pads[1..][k - 1] == pads[k];
    }
  }

  /** The loop body of the modern path for pad i, stated through BaySpecs. */
  method BuildBayAt(pads: seq<SceneTag>, wps: seq<WayPoint>, i: nat) returns (r: Result<Bay, SetupError>)
    requires i < |pads|
    ensures r == BaySpecs(pads, wps)[i]
  {
    r := BuildBay(pads[i], wps);
    BaySpecsAt(pads, wps, i);
  }

  /** Bays stored under consecutive ids from `nextId`; the first failure ends the fold. */
  function Numbered(specs: seq<Result<Bay, SetupError>>, bays: map<nat, Bay>, nextId: nat): Result<map<nat, Bay>, SetupError>
    decreases |specs|
  {
    if specs == [] then Ok(bays)
    else
      var bay :- specs[0];
      Numbered(specs[1..], bays[nextId := bay], nextId + 1)
  }

  /** The modern bays, numbered from `nextId` in pad order. */
  function ModernBays(pads: seq<SceneTag>, wps: seq<WayPoint>, bays: map<nat, Bay>, nextId: nat): Result<map<nat, Bay>, SetupError> {
    Numbered(BaySpecs(pads, wps), bays, nextId)
  }

  /** Numbering adds the keys nextId .. nextId + |specs| - 1 and changes no other key. */
  lemma {:induction false} NumberedKeys(specs: seq<Result<Bay, SetupError>>, bays: map<nat, Bay>, nextId: nat)
    requires Numbered(specs, bays, nextId).Ok?
    ensures var b := Numbered(specs, bays, nextId).value;
      (forall key :: key in b <==> key in bays || nextId <= key < nextId + |specs|) &&
      (forall key :: key in bays && !(nextId <= key < nextId + |specs|) ==> b[key] == bays[key])
    decreases |specs|
  {
    if specs != [] {
      NumberedKeys(specs[1..], bays[nextId := specs[0].value], nextId + 1);
    }
  }

  /** Entry k of the fold is stored under nextId + k. */
  lemma {:induction false} NumberedValues(specs: seq<Result<Bay, SetupError>>, bays: map<nat, Bay>, nextId: nat, k: nat)
    requires Numbered(specs, bays, nextId).Ok? && k < |specs|
    ensures var b := Numbered(specs, bays, nextId).value;
      specs[k].Ok? && nextId + k in b && b[nextId + k] == specs[k].value
    decreases |specs|
  {
    if k == 0 {
      NumberedKeys(specs[1..], bays[nextId := specs[0].value], nextId + 1);
    } else {
      NumberedValues(specs[1..], bays[nextId := specs[0].value], nextId + 1, k - 1);
      assert specs[1..][k - 1] == specs[k];
    }
  }

  /** Pad k (in the order given) becomes bay nextId + k; no other key changes. */
  lemma ModernBaysNumbering(pads: seq<SceneTag>, wps: seq<WayPoint>, bays: map<nat, Bay>, nextId: nat, k: nat)
    requires ModernBays(pads, wps, bays, nextId).Ok? && k < |pads|
    ensures var b := ModernBays(pads, wps, bays, nextId).value;
      BaySpec(pads[k], wps).Ok? && nextId + k in b && b[nextId + k] == BaySpec(pads[k], wps).value &&
      (forall key :: key in b <==> key in bays || nextId <= key < nextId + |pads|) &&
      (forall key :: key in bays && !(nextId <= key < nextId + |pads|) ==> b[key] == bays[key])
  {
    NumberedValues(BaySpecs(pads, wps), bays, nextId, k);
    NumberedKeys(BaySpecs(pads, wps), bays, nextId);
    BaySpecsAt(pads, wps, k);
  }

  /** The pad part of OnSetupComplete: nothing happens without pad tags. */
  function ModernPath(tags: seq<SceneTag>, bays: map<nat, Bay>): Result<map<nat, Bay>, SetupError> {
    var pads := SortByName(TagsWithPrefix(tags, "pad_"));
    if pads == [] then Ok(bays)
    else
      var wps :- Registry(TagsWithPrefix(tags, "wp_"), []);
      ModernBays(pads, wps, bays, 1)
  }

  // ---------------------------------------------------------------------------
  // The legacy path

  /** struct SPort: a port number and its two approach transforms. */
  datatype Port = Port(portId: int, approach1: Transform, approach2: Transform)

  /** An `entrance_port<N>` tag: the outer point 500 units up (surface) or 1500 units back (orbital). */
  function PortSpec(tag: SceneTag, dockMethod: DockMethod): (r: Result<Port, SetupError>)
    ensures r.Ok? <==> |Scan(ENTRANCE_FORMAT, tag.name)| == 1 && NumberAt(Scan(ENTRANCE_FORMAT, tag.name), 0) > 0
    ensures r.Ok? ==> r.value.portId > 0 && r.value.approach2 == Renormalized(tag.transform)
    ensures r.Ok? && dockMethod == SURFACE ==> r.value.approach1 == Renormalized(Offset(tag.transform, Up, 500.0))
    ensures r.Ok? && dockMethod == ORBITAL ==> r.value.approach1 == Renormalized(Offset(tag.transform, Back, 1500.0))
  {
    var fields := Scan(ENTRANCE_FORMAT, tag.name);
    if |fields| != 1 || NumberAt(fields, 0) <= 0 then Err(MalformedTag(tag.name))
    else
      var outer := if dockMethod == SURFACE then Offset(tag.transform, Up, 500.0) else Offset(tag.transform, Back, 1500.0);
      Ok(Port(NumberAt(fields, 0), Renormalized(outer), Renormalized(tag.transform)))
  }

  /** `entrance_port<N>` is a port exactly when N is positive, and then its id is N. */
  lemma {:induction false} PortSpecReads(tag: SceneTag, d: string, rest: string, dockMethod: DockMethod)
    requires tag.name == "entrance_port" + d + rest
    requires d != [] && forall k :: 0 <= k < |d| ==> IsDigit(d[k])
    requires rest == [] || !IsDigit(rest[0])
    ensures var r := PortSpec(tag, dockMethod);
      (r.Ok? <==> DigitsValue(d) > 0) && (r.Ok? ==> r.value.portId == DigitsValue(d))
  {
    EntranceFormatReadsPort(d, rest);
    var fields := Scan(ENTRANCE_FORMAT, tag.name);
    assert |fields| == 1 && fields[0] == Number(DigitsValue(d));
    assert NumberAt(fields, 0) == fields[0].value;
    PortSpecOfNumber(tag, dockMethod, DigitsValue(d));
  }

  lemma PortSpecOfNumber(tag: SceneTag, dockMethod: DockMethod, n: int)
    requires |Scan(ENTRANCE_FORMAT, tag.name)| == 1 && NumberAt(Scan(ENTRANCE_FORMAT, tag.name), 0) == n
    ensures var r := PortSpec(tag, dockMethod);
      (r.Ok? <==> n > 0) && (r.Ok? ==> r.value.portId == n)
  {
  }

  function Ports(tags: seq<SceneTag>, dockMethod: DockMethod, acc: seq<Port>): Result<seq<Port>, SetupError>
    decreases |tags|
  {
    if tags == [] then Ok(acc)
    else
      var port :- PortSpec(tags[0], dockMethod);
      Ports(tags[1..], dockMethod, acc + [port])
  }

  /** The first port with this number. */
  function FindPort(ports: seq<Port>, portId: int): (r: Option<Port>)
    ensures r.Some? ==> r.value in ports && r.value.portId == portId
    ensures r.Some? ==> exists i :: 0 <= i < |ports| && ports[i] == r.value &&
                                    (forall j :: 0 <= j < i ==> ports[j].portId != portId)
    ensures r.None? <==> forall p :: p in ports ==> p.portId != portId
  {
    if ports == [] then None
    else if ports[0].portId == portId then Some(ports[0])
    else FindPort(ports[1..], portId)
  }

  /**
    The exit scan: the first `exit_port<N>` tag whose N is the port gives the
    leaving orientation. Otherwise the value of the last tag scanned decides:
    0 falls back to the port's inner transform, anything else leaves a
    default-constructed matrix.
  */
  function ScanExits(exits: seq<SceneTag>, portId: int, exitport: int, approach2: Transform): Result<Transform, SetupError>
    decreases |exits|
  {
    if exits == [] then Ok(if exitport == 0 then approach2 else DefaultMatrix)
    else
      var fields := Scan(EXIT_FORMAT, exits[0].name);
      if |fields| != 1 then Err(MalformedTag(exits[0].name))
      else if NumberAt(fields, 0) == portId then Ok(exits[0].transform)
      else ScanExits(exits[1..], portId, NumberAt(fields, 0), approach2)
  }

  /** EndOrient: turned around from the docked orientation when the model has no exit tags. */
  function ExitOrient(exits: seq<SceneTag>, portId: int, loc: Transform, approach2: Transform): Result<Transform, SetupError> {
    if exits == [] then Ok(TurnedAround(loc, approach2)) else ScanExits(exits, portId, 0, approach2)
  }

  /**
    When every exit tag up to the first one naming the port parses, the
    orientation is the transform of that tag. ScanExitsFallsBack states the
    case where no tag names the port.
  */
  lemma {:induction false} ScanExitsFindsFirst(exits: seq<SceneTag>, portId: int, exitport: int, approach2: Transform, k: nat)
    requires k < |exits| && NumberAt(Scan(EXIT_FORMAT, exits[k].name), 0) == portId
    requires forall j :: 0 <= j <= k ==> |Scan(EXIT_FORMAT, exits[j].name)| == 1
    requires forall j :: 0 <= j < k ==> NumberAt(Scan(EXIT_FORMAT, exits[j].name), 0) != portId
    ensures ScanExits(exits, portId, exitport, approach2) == Ok(exits[k].transform)
    decreases k
  {
    if k > 0 {
      var fields := Scan(EXIT_FORMAT, exits[0].name);
      assert |fields| == 1 && NumberAt(fields, 0) != portId;
      forall j | 0 <= j <= k - 1
        ensures |Scan(EXIT_FORMAT, exits[1..][j].name)| == 1
      {
        assert exits[1..][j] == exits[j + 1];
      }
      forall j | 0 <= j < k - 1
        ensures NumberAt(Scan(EXIT_FORMAT, exits[1..][j].name), 0) != portId
      {
        assert exits[1..][j] == exits[j + 1];
      }
      assert exits[1..][k - 1] == exits[k];
      ScanExitsFindsFirst(exits[1..], portId, NumberAt(fields, 0), approach2, k - 1);
    }
  }

  /**
    When every exit tag parses and none names the port, the number scanned
    last decides: 0 gives the port's inner transform, anything else the
    default-constructed matrix.
  */
  lemma {:induction false} ScanExitsFallsBack(exits: seq<SceneTag>, portId: int, exitport: int, approach2: Transform)
    requires forall j :: 0 <= j < |exits| ==> |Scan(EXIT_FORMAT, exits[j].name)| == 1
    requires forall j :: 0 <= j < |exits| ==> NumberAt(Scan(EXIT_FORMAT, exits[j].name), 0) != portId
    ensures var last := if exits == [] then exitport else NumberAt(Scan(EXIT_FORMAT, exits[|exits| - 1].name), 0);
      ScanExits(exits, portId, exitport, approach2) == Ok(if last == 0 then approach2 else DefaultMatrix)
    decreases |exits|
  {
    if exits != [] {
      var tail := exits[1..];
      forall j | 0 <= j < |tail|
        ensures |Scan(EXIT_FORMAT, tail[j].name)| == 1 && NumberAt(Scan(EXIT_FORMAT, tail[j].name), 0) != portId
      {
        assert tail[j] == exits[j + 1];
      }
      ScanExitsFallsBack(tail, portId, NumberAt(Scan(EXIT_FORMAT, exits[0].name), 0), approach2);
      if tail != [] {
        assert tail[|tail| - 1] == exits[|exits| - 1];
      }
    }
  }

  /** An `exit_port<N>` tag for the port being set up gives the exit orientation. */
  lemma ExitTagMatches(d: string, rest: string, t: Transform, scaleSqr: real, exitport: int, approach2: Transform, more: seq<SceneTag>)
    requires d != [] && forall k :: 0 <= k < |d| ==> IsDigit(d[k])
    requires rest == [] || !IsDigit(rest[0])
    ensures ScanExits([SceneTag("exit_port" + d + rest, t, scaleSqr)] + more, DigitsValue(d), exitport, approach2) == Ok(t)
  {
    ExitFormatReadsPort(d, rest);
  }

  /** The `for (auto &exitIt : exit_mts)` loop. */
  method FindExitOrient(exits: seq<SceneTag>, portId: int, loc: Transform, approach2: Transform) returns (r: Result<Transform, SetupError>)
    ensures r == ExitOrient(exits, portId, loc, approach2)
  {
    if exits == [] {
      return Ok(TurnedAround(loc, approach2));
    }
    var exitport := 0;
    var i := 0;
    while i < |exits|
      invariant 0 <= i <= |exits|
      invariant ExitOrient(exits, portId, loc, approach2) == ScanExits(exits[i..], portId, exitport, approach2)
    {
      var fields := Scan(EXIT_FORMAT, exits[i].name);
      if |fields| != 1 {
        return Err(MalformedTag(exits[i].name));
      }
      exitport := NumberAt(fields, 0);
      if exitport == portId {
        return Ok(exits[i].transform);
      }
      assert exits[i..][1..] == exits[i + 1..];
      i := i + 1;
    }
    return Ok(if exitport == 0 then approach2 else DefaultMatrix);
  }

  /** A surface locator: the port's two points, the inner one re-flagged as the bay. */
  function SurfaceLocatorBay(b0: Bay, loc: Transform, port: Port, minSize: int, maxSize: int): Bay {
    b0.(minShipSize := minSize, maxShipSize := maxSize, stages := b0.stages[DOCKED := loc],
        approach := b0.approach + [
          BraceWayPoint(port.approach1, EXTERNAL_SPEED_LIMIT, 3.0, ONLY_POS | APPROACH_START),
          BraceWayPoint(port.approach2, EXTERNAL_SPEED_LIMIT, 3.0, BAY)])
  }

  /** An orbital locator: the port's two points, the point above the pad and the pad; two departure points. */
  function OrbitalLocatorBay(b0: Bay, loc: Transform, port: Port, endOrient: Transform, minSize: int, maxSize: int): Bay {
    var above := AbovePad(loc, port.approach1, port.approach2);
    b0.(minShipSize := minSize, maxShipSize := maxSize, stages := b0.stages[DOCKED := loc],
        approach := b0.approach + [
          BraceWayPoint(port.approach1, EXTERNAL_SPEED_LIMIT, 3.0, ONLY_POS | APPROACH_START),
          BraceWayPoint(port.approach2, EXTERNAL_SPEED_LIMIT, 3.0, GATE),
          BraceWayPoint(above, INTERNAL_SPEED_LIMIT, 0.1, BEFORE_BAY),
          BraceWayPoint(loc, INTERNAL_SPEED_LIMIT, 0.1, BAY)],
        departure := b0.departure + [
          BraceWayPoint(above, INTERNAL_SPEED_LIMIT, 0.1, 0),
          BraceWayPoint(endOrient, INTERNAL_SPEED_LIMIT, 0.1, ONLY_POS)])
  }

  /** The bay after one locator: only the orbital kind looks for an exit orientation. */
  function LocatorBay(b0: Bay, loc: Transform, port: Port, exits: seq<SceneTag>, minSize: int, maxSize: int, dockMethod: DockMethod)
    : Result<Bay, SetupError>
  {
    if dockMethod == SURFACE then Ok(SurfaceLocatorBay(b0, loc, port, minSize, maxSize))
    else
      var endOrient :- ExitOrient(exits, port.portId, loc, port.approach2);
      Ok(OrbitalLocatorBay(b0, loc, port, endOrient, minSize, maxSize))
  }

  /** The bay a `loc_<…>_p<port>_s<min>_<max>_b<bay>` locator updates (created empty if new). */
  function LocatorSpec(bays: map<nat, Bay>, tag: SceneTag, ports: seq<Port>, exits: seq<SceneTag>, dockMethod: DockMethod)
    : Result<map<nat, Bay>, SetupError>
  {
    var fields := Scan(LOCATOR_FORMAT, tag.name);
    if |fields| != 5 then Err(MalformedTag(tag.name))
    else
      var portId := NumberAt(fields, 1);
      var bayNum := NumberAt(fields, 4);
      if !(bayNum > 0 && portId > 0) then Err(MalformedTag(tag.name))
      else
        var loc := Renormalized(tag.transform);
        var b0 := if bayNum in bays then bays[bayNum] else EMPTY_BAY;
        match FindPort(ports, portId)
        case None => Err(PortNotFound(portId))
        case Some(port) =>
          var bay :- LocatorBay(b0, loc, port, exits, NumberAt(fields, 2), NumberAt(fields, 3), dockMethod);
          Ok(bays[bayNum := bay])
  }

  /**
    A locator touches one bay, numbered by its `b` field, and appends to its
    approach; the DOCKED stage becomes the locator's location.
  */
  lemma LocatorTouchesOneBay(bays: map<nat, Bay>, tag: SceneTag, ports: seq<Port>, exits: seq<SceneTag>, dockMethod: DockMethod)
    requires LocatorSpec(bays, tag, ports, exits, dockMethod).Ok?
    ensures var key := NumberAt(Scan(LOCATOR_FORMAT, tag.name), 4);
      var b := LocatorSpec(bays, tag, ports, exits, dockMethod).value;
      var b0 := if key in bays then bays[key] else EMPTY_BAY;
      key > 0 && b.Keys == bays.Keys + {key} &&
      (forall k :: k in bays && k != key ==> b[k] == bays[k]) &&
      b[key].stages == b0.stages[DOCKED := Renormalized(tag.transform)] &&
      |b[key].approach| > |b0.approach| && b[key].approach[..|b0.approach|] == b0.approach
  {
  }

  /**
    The surface approach ends with an ONLY_POS|APPROACH_START point and a BAY
    point, both at EXTERNAL speed, and the departure is left alone.
  */
  lemma SurfaceLocatorShape(b0: Bay, loc: Transform, port: Port, minSize: int, maxSize: int)
    ensures var b := SurfaceLocatorBay(b0, loc, port, minSize, maxSize);
      var n := |b0.approach|;
      |b.approach| == n + 2 && b.approach[..n] == b0.approach && b.departure == b0.departure &&
      b.approach[n].flags == ONLY_POS | APPROACH_START && b.approach[n].loc == port.approach1 &&
      b.approach[n + 1].flags == BAY && b.approach[n + 1].loc == port.approach2 &&
      b.approach[n].speed == EXTERNAL_SPEED_LIMIT && b.approach[n + 1].speed == EXTERNAL_SPEED_LIMIT
  {
  }

  /**
    The orbital approach adds, outermost first, an ONLY_POS|APPROACH_START and
    a GATE point at EXTERNAL speed, then a BEFORE_BAY point and the BAY point
    at the pad at INTERNAL speed; the departure adds two INTERNAL points, the
    last ONLY_POS at the exit orientation.
  */
  lemma OrbitalLocatorShape(b0: Bay, loc: Transform, port: Port, endOrient: Transform, minSize: int, maxSize: int)
    ensures var b := OrbitalLocatorBay(b0, loc, port, endOrient, minSize, maxSize);
      var n := |b0.approach|;
      var m := |b0.departure|;
      |b.approach| == n + 4 && b.approach[..n] == b0.approach &&
      b.approach[n].flags == ONLY_POS | APPROACH_START && b.approach[n + 1].flags == GATE &&
      b.approach[n + 2].flags == BEFORE_BAY && b.approach[n + 3].flags == BAY && b.approach[n + 3].loc == loc &&
      b.approach[n].speed == EXTERNAL_SPEED_LIMIT && b.approach[n + 1].speed == EXTERNAL_SPEED_LIMIT &&
      b.approach[n + 2].speed == INTERNAL_SPEED_LIMIT && b.approach[n + 3].speed == INTERNAL_SPEED_LIMIT &&
      |b.departure| == m + 2 && b.departure[..m] == b0.departure &&
      b.departure[m + 1].flags == ONLY_POS && b.departure[m + 1].loc == endOrient
  {
  }

  function LegacyBays(locators: seq<SceneTag>, ports: seq<Port>, exits: seq<SceneTag>, dockMethod: DockMethod, bays: map<nat, Bay>)
    : Result<map<nat, Bay>, SetupError>
    decreases |locators|
  {
    if locators == [] then Ok(bays)
    else
      var bays' :- LocatorSpec(bays, locators[0], ports, exits, dockMethod);
      LegacyBays(locators[1..], ports, exits, dockMethod, bays')
  }

  /** The legacy part of OnSetupComplete. */
  function LegacyPath(tags: seq<SceneTag>, dockMethod: DockMethod, bays: map<nat, Bay>): Result<map<nat, Bay>, SetupError> {
    var ports :- Ports(TagsWithPrefix(tags, "entrance_"), dockMethod, []);
    LegacyBays(TagsWithPrefix(tags, "loc_"), ports, TagsWithPrefix(tags, "exit_"), dockMethod, bays)
  }

  /** The legacy path never removes a bay. */
  lemma {:induction false} LegacyBaysKeepsKeys(locators: seq<SceneTag>, ports: seq<Port>, exits: seq<SceneTag>, dockMethod: DockMethod, bays: map<nat, Bay>)
    requires LegacyBays(locators, ports, exits, dockMethod, bays).Ok?
    ensures bays.Keys <= LegacyBays(locators, ports, exits, dockMethod, bays).value.Keys
    ensures locators != [] ==> LegacyBays(locators, ports, exits, dockMethod, bays).value != map[]
    decreases |locators|
  {
    if locators != [] {
      var bays' := LocatorSpec(bays, locators[0], ports, exits, dockMethod).value;
      LocatorTouchesOneBay(bays, locators[0], ports, exits, dockMethod);
      LegacyBaysKeepsKeys(locators[1..], ports, exits, dockMethod, bays');
    }
  }

  // ---------------------------------------------------------------------------
  // OnSetupComplete as a whole

  /** The bays a station ends up with, or the first failure the set-up asserts. */
  function SetupSpec(dockMethod: DockMethod, tags: seq<SceneTag>, bays0: map<nat, Bay>): Result<map<nat, Bay>, SetupError> {
    var bays1 :- ModernPath(tags, bays0);
    var bays2 :- LegacyPath(tags, dockMethod, bays1);
    if |bays2| == 0 then Err(NoBays) else Ok(bays2)
  }

  const UINT32_MODULUS: int := 0x1_0000_0000

  /** The map key `bayID + 1` as the Uint32 it is converted to. */
  function BayKey(bayID: int): (key: nat)
    ensures -1 <= bayID < UINT32_MODULUS - 1 ==> key == bayID + 1
    ensures bayID == UINT32_MODULUS - 1 ==> key == 0
  {
    (bayID + 1) % UINT32_MODULUS
  }

  /** m_bays.at(bayID + 1); None where `at` throws. */
  function BayLookup(bays: map<nat, Bay>, bayID: int): Option<Bay> {
    if BayKey(bayID) in bays then Some(bays[BayKey(bayID)]) else None
  }

  /**
    External bay indices are 0-based: on a station whose bays all come from pad
    tags (taken in name order, see ModernPath), bay i is the i-th pad, and
    there is no bay -1.
  */
  lemma ModernBayLookup(pads: seq<SceneTag>, wps: seq<WayPoint>, i: nat)
    requires ModernBays(pads, wps, map[], 1).Ok? && i < |pads| && i < UINT32_MODULUS - 1
    ensures var b := ModernBays(pads, wps, map[], 1).value;
      BaySpec(pads[i], wps).Ok? && BayLookup(b, i) == Some(BaySpec(pads[i], wps).value) && BayLookup(b, -1).None?
  {
    ModernBaysNumbering(pads, wps, map[], 1, i);
    assert BayKey(i) == 1 + i && BayKey(-1) == 0;
  }

  /** What GetShipApproachWaypoints reports. */
  datatype ApproachLookup = NoSuchBay | NoWaypoint | Waypoint(loc: Transform)

  class SpaceStationType {
    var dockMethod: DockMethod
    var numDockingPorts: nat
    var lastDockStage: DockStage
    var lastUndockStage: DockStage
    var bays: map<nat, Bay>

    /** Both set-up paths leave the stage bounds at "no animation". */
    predicate Valid()
      reads this
    {
      lastDockStage == DOCK_ANIMATION_NONE && lastUndockStage == UNDOCK_ANIMATION_NONE
    }

    /** The constructor's member initialisers; the station type comes from its definition file. */
    constructor(dockMethod: DockMethod)
      ensures this.dockMethod == dockMethod && numDockingPorts == 0 && bays == map[] && Valid()
    {
      this.dockMethod := dockMethod;
      numDockingPorts := 0;
      lastDockStage := DOCK_ANIMATION_NONE;
      lastUndockStage := UNDOCK_ANIMATION_NONE;
      bays := map[];
    }

    /** The waypoint-registry loop of the modern path. */
    static method BuildRegistry(tags: seq<SceneTag>) returns (r: Result<seq<WayPoint>, SetupError>)
      ensures r == Registry(tags, [])
    {
      var wps: seq<WayPoint> := [];
      ghost var results := Parses(tags);
      assert results[0..] == results;
      for i := 0 to |tags|
        invariant Registry(tags, []) == Collect(results[i..], wps)
      {
        var wp := WaypointFromSceneTag(tags[i]);
        assert results[i..][0] == wp;
        if wp.Err? {
          return Err(wp.error);
        }
        assert results[i..][1..] == results[i + 1..];
        wps := wps + [wp.value];
      }
      return Ok(wps);
    }

    /** The pad loop of the modern path: pad i (in name order) becomes bay i + 1. */
    method AddModernBays(pads: seq<SceneTag>, wps: seq<WayPoint>) returns (r: Outcome<SetupError>)
      modifies this
      ensures dockMethod == old(dockMethod) && numDockingPorts == old(numDockingPorts)
      ensures old(Valid()) ==> Valid()
      ensures match ModernBays(pads, wps, old(bays), 1)
        case Ok(b) => r == Pass && bays == b
        case Err(e) => r == Fail(e)
    {
      ghost var specs := BaySpecs(pads, wps);
      ghost var result := ModernBays(pads, wps, bays, 1);
      assert result == Numbered(specs[0..], bays, 1) by {
        assert specs[0..] == specs;
      }
      for i := 0 to |pads|
        invariant dockMethod == old(dockMethod) && numDockingPorts == old(numDockingPorts)
        invariant old(Valid()) ==> Valid()
        invariant result == Numbered(specs[i..], bays, i + 1)
      {
        var bay := BuildBayAt(pads, wps, i);
        assert specs[i..][0] == bay;
        if bay.Err? {
          return Fail(bay.error);
        }
        assert specs[i..][1..] == specs[i + 1..];
        bays := bays[i + 1 := bay.value];
      }
      return Pass;
    }

    /** The entrance-port loop of the legacy path. */
    static method BuildPorts(tags: seq<SceneTag>, dockMethod: DockMethod) returns (r: Result<seq<Port>, SetupError>)
      ensures r == Ports(tags, dockMethod, [])
    {
      var ports: seq<Port> := [];
      for i := 0 to |tags|
        invariant Ports(tags, dockMethod, []) == Ports(tags[i..], dockMethod, ports)
      {
        var port := PortSpec(tags[i], dockMethod);
        if port.Err? {
          return Err(port.error);
        }
        assert tags[i..][1..] == tags[i + 1..];
        ports := ports + [port.value];
      }
      return Ok(ports);
    }

    /** One iteration of the locator loop: updates m_bays[bay] in place. */
    method AddLocator(tag: SceneTag, ports: seq<Port>, exits: seq<SceneTag>) returns (r: Outcome<SetupError>)
      modifies this
      ensures dockMethod == old(dockMethod) && numDockingPorts == old(numDockingPorts) && Valid()
      ensures match LocatorSpec(old(bays), tag, ports, exits, dockMethod)
        case Ok(b) => r == Pass && bays == b
        case Err(e) => r == Fail(e) && bays == old(bays)
    {
      lastDockStage := DOCK_ANIMATION_NONE;
      lastUndockStage := UNDOCK_ANIMATION_NONE;
      var fields := Scan(LOCATOR_FORMAT, tag.name);
      if |fields| != 5 {
        return Fail(MalformedTag(tag.name));
      }
      var portId := NumberAt(fields, 1);
      var bayNum := NumberAt(fields, 4);
      if !(bayNum > 0 && portId > 0) {
        return Fail(MalformedTag(tag.name));
      }
      var loc := Renormalized(tag.transform);
      var bay := if bayNum in bays then bays[bayNum] else EMPTY_BAY;
      var port := FindPort(ports, portId);
      if port.None? {
        return Fail(PortNotFound(portId));
      }
      var updated := UpdateLocatorBay(bay, loc, port.value, exits, NumberAt(fields, 2), NumberAt(fields, 3), dockMethod);
      if updated.Err? {
        return Fail(updated.error);
      }
      bays := bays[bayNum := updated.value];
      return Pass;
    }

    /** The waypoints and stage one locator adds to the bay it names. */
    static method UpdateLocatorBay(b0: Bay, loc: Transform, port: Port, exits: seq<SceneTag>, minSize: int, maxSize: int, dockMethod: DockMethod)
      returns (r: Result<Bay, SetupError>)
      ensures r == LocatorBay(b0, loc, port, exits, minSize, maxSize, dockMethod)
    {
      var bay := b0.(minShipSize := minSize, maxShipSize := maxSize);
      bay := bay.(approach := bay.approach + [BraceWayPoint(port.approach1, EXTERNAL_SPEED_LIMIT, 3.0, ONLY_POS | APPROACH_START)]);
      bay := bay.(approach := bay.approach + [BraceWayPoint(port.approach2, EXTERNAL_SPEED_LIMIT, 3.0, GATE)]);
      if dockMethod == SURFACE {
        bay := bay.(stages := bay.stages[DOCKED := loc]);
        bay := bay.(approach := bay.approach[|bay.approach| - 1 := bay.approach[|bay.approach| - 1].(flags := BAY)]);
        assert bay.approach == SurfaceLocatorBay(b0, loc, port, minSize, maxSize).approach;
        return Ok(bay);
      }
      var above := AbovePad(loc, port.approach1, port.approach2);
      bay := bay.(approach := bay.approach + [BraceWayPoint(above, INTERNAL_SPEED_LIMIT, 0.1, BEFORE_BAY)]);
      bay := bay.(approach := bay.approach + [BraceWayPoint(loc, INTERNAL_SPEED_LIMIT, 0.1, BAY)]);
      bay := bay.(stages := bay.stages[DOCKED := loc]);
      var endOrient := FindExitOrient(exits, port.portId, loc, port.approach2);
      if endOrient.Err? {
        return Err(endOrient.error);
      }
      bay := bay.(departure := bay.departure + [BraceWayPoint(above, INTERNAL_SPEED_LIMIT, 0.1, 0)]);
      bay := bay.(departure := bay.departure + [BraceWayPoint(endOrient.value, INTERNAL_SPEED_LIMIT, 0.1, ONLY_POS)]);
      assert bay.approach == OrbitalLocatorBay(b0, loc, port, endOrient.value, minSize, maxSize).approach;
      assert bay.departure == OrbitalLocatorBay(b0, loc, port, endOrient.value, minSize, maxSize).departure;
      return Ok(bay);
    }

    /** The locator loop of the legacy path. */
    method AddLegacyBays(locators: seq<SceneTag>, ports: seq<Port>, exits: seq<SceneTag>) returns (r: Outcome<SetupError>)
      modifies this
      ensures dockMethod == old(dockMethod) && numDockingPorts == old(numDockingPorts)
      ensures old(Valid()) ==> Valid()
      ensures match LegacyBays(locators, ports, exits, dockMethod, old(bays))
        case Ok(b) => r == Pass && bays == b
        case Err(e) => r == Fail(e)
    {
      for i := 0 to |locators|
        invariant dockMethod == old(dockMethod) && numDockingPorts == old(numDockingPorts)
        invariant old(Valid()) ==> Valid()
        invariant LegacyBays(locators, ports, exits, dockMethod, old(bays))
               == LegacyBays(locators[i..], ports, exits, dockMethod, bays)
      {
        var added := AddLocator(locators[i], ports, exits);
        if added.Fail? {
          return added;
        }
        assert locators[i..][1..] == locators[i + 1..];
      }
      return Pass;
    }

    /** The modern path of OnSetupComplete: pads sorted by name, then the registry, then the bays. */
    method AddPadBays(tags: seq<SceneTag>) returns (r: Outcome<SetupError>)
      modifies this
      ensures dockMethod == old(dockMethod) && numDockingPorts == old(numDockingPorts)
      ensures old(Valid()) ==> Valid()
      ensures match ModernPath(tags, old(bays))
        case Ok(b) => r == Pass && bays == b
        case Err(e) => r == Fail(e)
    {
      var pads := TagsWithPrefix(tags, "pad_");
      var wpTags := TagsWithPrefix(tags, "wp_");
      pads := SortByName(pads);
      if |pads| > 0 {
        var wps := BuildRegistry(wpTags);
        if wps.Err? {
          return Fail(wps.error);
        }
        r := AddModernBays(pads, wps.value);
      } else {
        r := Pass;
      }
    }

    /**
      OnSetupComplete: the modern path when there are pad tags, then the
      legacy ports and locators, then the bay count. A failed assertion ends
      the set-up with its error; the station is then not usable.
    */
    method OnSetupComplete(tags: seq<SceneTag>) returns (r: Outcome<SetupError>)
      requires Valid()
      modifies this
      ensures dockMethod == old(dockMethod) && Valid()
      ensures match SetupSpec(dockMethod, tags, old(bays))
        case Ok(b) => r == Pass && bays == b && numDockingPorts == |b| && |b| > 0
        case Err(e) => r == Fail(e)
    {
      var modern := AddPadBays(tags);
      if modern.Fail? {
        return modern;
      }
      var legacy := AddLegacyPath(tags);
      if legacy.Fail? {
        return legacy;
      }
      numDockingPorts := |bays|;
      if |bays| == 0 {
        return Fail(NoBays);
      }
      return Pass;
    }

    /** The legacy part of OnSetupComplete: the entrance ports, then one locator at a time. */
    method AddLegacyPath(tags: seq<SceneTag>) returns (r: Outcome<SetupError>)
      modifies this
      ensures dockMethod == old(dockMethod) && numDockingPorts == old(numDockingPorts)
      ensures old(Valid()) ==> Valid()
      ensures match LegacyPath(tags, dockMethod, old(bays))
        case Ok(b) => r == Pass && bays == b
        case Err(e) => r == Fail(e)
    {
      var entrances := TagsWithPrefix(tags, "entrance_");
      var locators := TagsWithPrefix(tags, "loc_");
      var exits := TagsWithPrefix(tags, "exit_");
      var ports := BuildPorts(entrances, dockMethod);
      if ports.Err? {
        return Fail(ports.error);
      }
      r := AddLegacyBays(locators, ports.value, exits);
    }

    /** GetBay: m_bays.at(bayID + 1); None where `at` throws. */
    function GetBay(bayID: int): (r: Option<Bay>)
      reads this
      ensures r.Some? ==> BayKey(bayID) in bays && r.value == bays[BayKey(bayID)]
      ensures r.None? ==> BayKey(bayID) !in bays
    {
      BayLookup(bays, bayID)
    }

    /**
      GetShipApproachWaypoints: the location of approach point `stage` of bay
      `port`; NoWaypoint (false) exactly when the stage is past the end of the
      approach, NoSuchBay where GetBay throws.
    */
    function GetShipApproachWaypoints(port: nat, stage: nat): (r: ApproachLookup)
      requires port < UINT32_MODULUS && stage < UINT32_MODULUS
      reads this
      ensures r.NoSuchBay? <==> BayKey(port) !in bays
      ensures r.NoWaypoint? <==> BayKey(port) in bays && stage >= |bays[BayKey(port)].approach|
      ensures r.Waypoint? ==> r.loc == bays[BayKey(port)].approach[stage].loc
    {
      match GetBay(port)
      case None => NoSuchBay
      case Some(bay) => if stage >= |bay.approach| then NoWaypoint else Waypoint(bay.approach[stage].loc)
    }

    /** GetStageTransform: m_bays.at(bay + 1).stages.at(stage); None where either `at` throws. */
    function GetStageTransform(bay: int, stage: DockStage): (r: Option<Transform>)
      reads this
      ensures r.Some? <==> BayKey(bay) in bays && stage in bays[BayKey(bay)].stages
      ensures r.Some? ==> r.value == bays[BayKey(bay)].stages[stage]
    {
      match GetBay(bay)
      case None => None
      case Some(b) => if stage in b.stages then Some(b.stages[stage]) else None
    }

    function IsSurfaceStation(): bool
      reads this
    {
      dockMethod == SURFACE
    }

    /** A station is orbital exactly when it is not a surface station. */
    function IsOrbitalStation(): (r: bool)
      reads this
      ensures r != IsSurfaceStation()
    {
      dockMethod == ORBITAL
    }

    function NumDockingPorts(): nat
      reads this
    {
      numDockingPorts
    }

    /** The number of dock animation stages: none, once the station is set up. */
    function NumDockingStages(): (n: int)
      reads this
      ensures Valid() ==> n == 0
    {
      Ordinal(lastDockStage) - Ordinal(DOCK_ANIMATION_NONE)
    }

    /** The number of undock animation stages: none, once the station is set up. */
    function NumUndockStages(): (n: int)
      reads this
      ensures Valid() ==> n == 0
    {
      Ordinal(lastUndockStage) - Ordinal(UNDOCK_ANIMATION_NONE)
    }
  }
}
