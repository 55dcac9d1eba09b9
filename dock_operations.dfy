/**
  The plain data of a docking route (src/DockOperations.h): the waypoint flag
  bits, the bounded `Name` type, the `WayPoint` record and the flight
  controller's `Command`.

  `matrix4x4f` is kept opaque: a `Transform` is a symbolic term that records
  which scene-tag transform a location comes from and which geometric
  operation produced it, without computing any floating-point value.
*/
module DockOperations {
  import opened Wrappers

  // WayPoint::Flag (a uint64_t bit set)
  const BAY: bv64 := 0x01
  const BEFORE_BAY: bv64 := 0x02
  const ONLY_POS: bv64 := 0x04
  const GATE: bv64 := 0x08
  const EXTERNAL: bv64 := 0x10
  const APPROACH_START: bv64 := 0x20
  const INVALID: bv64 := 0x8000

  /** One of the seven flags WayPoint::Flag declares. */
  predicate IsFlag(f: bv64) {
    f == BAY || f == BEFORE_BAY || f == ONLY_POS || f == GATE || f == EXTERNAL || f == APPROACH_START || f == INVALID
  }

  /** `using Name = char[16]`: at most 15 characters plus the terminator. */
  const NAME_CAPACITY: nat := 16
  type Name = s: string | |s| < NAME_CAPACITY

  predicate HasFlag(flags: bv64, f: bv64) {
    flags & f != 0
  }

  /** Symbolic stand-in for matrix4x4f. */
  datatype Axis = Up | Back

  datatype Transform =
    | TagTransform(tag: nat)                          // GetGlobalTransform() of the model tag with this id
    | Renormalized(m: Transform)                      // m.Renormalize()
    | TranslatedLocal(m: Transform, dx: real, dy: real, dz: real)   // m.Translate(dx, dy, dz)
    | Offset(m: Transform, axis: Axis, distance: real)   // m moved `distance` along its normalised axis
    | AbovePad(loc: Transform, approach1: Transform, approach2: Transform)
        // loc with its translation set to the closest point of loc on the line approach1 -> approach2
    | TurnedAround(loc: Transform, approach2: Transform)
        // approach2 with loc's orientation rotated by pi about its X axis
    | DefaultMatrix                                   // a default-constructed matrix4x4f

  /** struct WayPoint, field order loc, speed, radiusSqr, flags, name, in, out (`in` and `out` are `inLink` and `outLink` here, `in` being a Dafny keyword). */
  datatype WayPoint = WayPoint(
    loc: Transform,
    speed: real,
    radiusSqr: real,
    flags: bv64,
    name: Name,
    inLink: Name,
    outLink: Name)

  /** `WayPoint wp{}`: everything zero, the location default-constructed. */
  const EMPTY_WAYPOINT: WayPoint := WayPoint(DefaultMatrix, 0.0, 0.0, 0, "", "", "")

  /**
    The brace initialisers `{ loc, speed, radiusSqr, flags }` of the legacy
    path: the members are filled in declaration order and the names stay empty.
  */
  function BraceWayPoint(loc: Transform, speed: real, radiusSqr: real, flags: bv64): (wp: WayPoint)
    ensures wp.loc == loc && wp.speed == speed && wp.radiusSqr == radiusSqr && wp.flags == flags
    ensures wp.name == "" && wp.inLink == "" && wp.outLink == ""
  {
    EMPTY_WAYPOINT.(loc := loc, speed := speed, radiusSqr := radiusSqr, flags := flags)
  }

  /** struct Command: what to do and which waypoints it refers to (None for a null pointer). */
  datatype CommandType = FLY_TO | BYE
  datatype Command = Command(kind: CommandType, waypoint: Option<WayPoint>, waypointAfter: Option<WayPoint>)

  /** Each flag is a single bit, and two different flags share no bit. */
  lemma FlagsAreDistinctBits(f: bv64, g: bv64)
    requires IsFlag(f) && IsFlag(g)
    ensures f != 0 && f & (f - 1) == 0
    ensures f != g ==> f & g == 0
  {
  }

  /** OR-ing one flag into a set leaves every other flag as it was. */
  lemma SetFlagKeepsOthers(flags: bv64, f: bv64, g: bv64)
    requires IsFlag(f) && IsFlag(g) && f != g
    ensures HasFlag(flags | f, f)
    ensures HasFlag(flags | f, g) == HasFlag(flags, g)
  {
    FlagsAreDistinctBits(f, g);
    DisjointBitsIndependent(flags, f, g);
  }

  lemma DisjointBitsIndependent(flags: bv64, f: bv64, g: bv64)
    requires f & g == 0
    ensures (flags | f) & g == flags & g
    ensures (flags | f) & f == f
  {
  }
}
