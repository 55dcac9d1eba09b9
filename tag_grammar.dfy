/**
  The tag-name grammar of src/SpaceStationType.cpp: `next_section`, the
  `sscanf` patterns that read the `wp_`, `pad_`, `loc_`, `entrance_port` and
  `exit_port` prefixes, and `waypoint_parse_sections` / `waypoint_from_scenetag`.

  Tag names are C strings; they are modelled as `string` values that hold no
  NUL character. A failed `assert` or `PiVerify` stops the station set-up, and
  is modelled as a `SetupError` result.
*/
module TagGrammar {
  import opened Wrappers
  import opened DockOperations

  /** Why a station type cannot be set up. */
  datatype SetupError =
    | SectionTooLong(text: string)  // assert(len < S) in next_section
    | MalformedTag(tag: string)     // PiVerify on an sscanf count or on the numbers it read
    | NameTooLong(text: string)     // a field longer than the 15 characters a Name holds
    | DanglingLink(link: string)    // "No waypoint with that name exists"
    | LinkLoop                      // "It looks like there is a loop in the links"
    | EmptyDeparture                // bay.departure.back() on an empty departure route
    | PortNotFound(portId: int)     // assert(bFoundPort)
    | NoBays                        // assert(!m_bays.empty())

  /** A SceneGraph::Tag as the model supplies it: its name, its global transform, and the
      squared length of the transform's first column (the waypoint's capture radius). */
  datatype SceneTag = SceneTag(name: string, transform: Transform, scaleSqr: real)

  /** char section[64], nameSection[64], baySection[64]. */
  const SECTION_CAPACITY: nat := 64

  // ---------------------------------------------------------------------------
  // next_section

  /** strchr: the position of the first c in s. */
  function IndexOf(s: string, c: char): (r: Option<nat>)
    ensures r.Some? ==> r.value < |s| && s[r.value] == c && c !in s[..r.value]
    ensures r.None? ==> c !in s
  {
    if s == [] then None
    else if s[0] == c then Some(0)
    else
      match IndexOf(s[1..], c)
      case None => None
      case Some(i) =>
        assert s[..i + 1] == [s[0]] + s[1..][..i];
        Some(i + 1)
  }

  /** The length of the text before the first c, or of the whole string. */
  function RunNot(s: string, c: char): (n: nat)
    ensures n <= |s| && c !in s[..n]
    ensures n < |s| ==> s[n] == c
  {
    match IndexOf(s, c)
    case Some(i) => i
    case None => |s|
  }

  /** What next_section leaves in `dest`, the tail it returns, and whether `assert(len < S)` holds. */
  datatype Split = Split(section: string, rest: string, fits: bool)

  /**
    next_section(dest, tail, sep) with a buffer of `capacity` characters: the
    text up to the first separator, and the text just past it. A section that
    does not fit is cut to capacity - 1 characters, and the returned tail is
    then computed from the cut length.
  */
  function NextSection(tail: string, sep: char, capacity: nat): (r: Split)
    requires capacity >= 1
    ensures |r.section| < capacity && r.section <= tail
    ensures r.fits <==> RunNot(tail, sep) < capacity
    ensures r.fits && sep in tail ==> tail == r.section + [sep] + r.rest && sep !in r.section
    ensures r.fits && sep !in tail ==> r.section == tail && r.rest == []
    ensures !r.fits ==> |r.section| == capacity - 1
    ensures !r.fits ==> r.rest == tail[capacity - 1 + (if sep in tail then 1 else 0)..]
  {
    var next := IndexOf(tail, sep);
    var len := if next.Some? then next.value else |tail|;
    var clamped := if len < capacity then len else capacity - 1;
    var r := Split(tail[..clamped], tail[clamped + (if next.Some? then 1 else 0)..], len < capacity);
    assert r.fits && next.Some? ==> tail == tail[..clamped] + [sep] + tail[clamped + 1..];
    r
  }

  // ---------------------------------------------------------------------------
  // The subset of sscanf the tag formats use

  /** isspace in the C locale. */
  predicate IsSpace(c: char) {
    c == ' ' || '\t' <= c <= '\r'
  }

  predicate IsDigit(c: char) {
    '0' <= c <= '9'
  }

  function SkipSpace(s: string): (r: string)
    ensures |r| <= |s| && r == s[|s| - |r|..]
    ensures r != [] ==> !IsSpace(r[0])
    ensures forall k :: 0 <= k < |s| - |r| ==> IsSpace(s[k])
  {
    if s != [] && IsSpace(s[0]) then SkipSpace(s[1..]) else s
  }

  /** How many non-space characters start s, at most `width` of them when width > 0. */
  function NonSpaceRun(s: string, width: nat): (n: nat)
    ensures n <= |s| && (width > 0 ==> n <= width)
    ensures forall k :: 0 <= k < n ==> !IsSpace(s[k])
    ensures n < |s| && (width == 0 || n < width) ==> IsSpace(s[n])
  {
    if s == [] || IsSpace(s[0]) || width == 1 then (if s != [] && !IsSpace(s[0]) then 1 else 0)
    else 1 + NonSpaceRun(s[1..], if width == 0 then 0 else width - 1)
  }

  function DigitRun(s: string): (n: nat)
    ensures n <= |s|
    ensures forall k :: 0 <= k < n ==> IsDigit(s[k])
    ensures n < |s| ==> !IsDigit(s[n])
  {
    if s != [] && IsDigit(s[0]) then 1 + DigitRun(s[1..]) else 0
  }

  /** The value of one decimal digit. */
  function DigitValue(c: char): (r: nat)
    ensures r < 10
  {
    if IsDigit(c) then c as int - '0' as int else 0
  }

  /** The value of a string of decimal digits. */
  function DigitsValue(d: string): nat
    decreases |d|
  {
    if d == [] then 0
    else 10 * DigitsValue(d[..|d| - 1]) + DigitValue(d[|d| - 1])
  }

  /** %d: optional white space, an optional sign and at least one digit. */
  function ScanDecimal(s: string): (r: Option<(int, string)>)
    ensures r.Some? ==> |r.value.1| < |s|
  {
    ReadSigned(SkipSpace(s))
  }

  /** An optional sign and at least one digit, the value negated after '-'. */
  function ReadSigned(t: string): (r: Option<(int, string)>)
    ensures r.Some? ==> |r.value.1| < |t|
  {
    var negative := t != [] && t[0] == '-';
    var body := if t != [] && (t[0] == '-' || t[0] == '+') then t[1..] else t;
    match ReadDigits(body)
    case None => None
    case Some((v, rest)) => Some((if negative then -v else v, rest))
  }

  /** The whole run of digits at the start and its value, if there is at least one digit. */
  function ReadDigits(body: string): (r: Option<(int, string)>)
    ensures r.Some? ==> |r.value.1| < |body|
  {
    var n := DigitRun(body);
    if n == 0 then None else Some((DigitsValue(body[..n]), body[n..]))
  }

  /** One element of a scanf format. */
  datatype Directive =
    | Lit(c: char)       // an ordinary character, which must match
    | Str(width: nat)    // %s, or %Ns when width = N > 0
    | NotChar(c: char)   // %[^c]
    | Dec                // %d

  datatype Field = Text(text: string) | Number(value: int)

  /**
    sscanf(input, fmt, ...): the values it assigns, in order. Scanning stops at
    the first directive that does not match, so the number of fields is what
    sscanf returns (an input failure before the first conversion, EOF, is
    counted as 0 here: every caller compares the count with a positive number).
  */
  function Scan(fmt: seq<Directive>, input: string): (r: seq<Field>)
    ensures |r| <= |fmt|
  {
    if fmt == [] then []
    else
      match fmt[0]
      case Lit(c) =>
        if input != [] && input[0] == c then Scan(fmt[1..], input[1..]) else []
      case Str(width) =>
        var t := SkipSpace(input);
        var n := NonSpaceRun(t, width);
        if n == 0 then [] else [Text(t[..n])] + Scan(fmt[1..], t[n..])
      case NotChar(c) =>
        var n := RunNot(input, c);
        if n == 0 then [] else [Text(input[..n])] + Scan(fmt[1..], input[n..])
      case Dec =>
        match ScanDecimal(input)
        case None => []
        case Some((v, rest)) => [Number(v)] + Scan(fmt[1..], rest)
  }

  function Lits(s: string): (r: seq<Directive>)
    ensures |r| == |s| && forall k :: 0 <= k < |s| ==> r[k] == Lit(s[k])
  {
    if s == [] then [] else [Lit(s[0])] + Lits(s[1..])
  }

  function TextAt(fields: seq<Field>, k: nat): string {
    if k < |fields| && fields[k].Text? then fields[k].text else ""
  }

  function NumberAt(fields: seq<Field>, k: nat): int {
    if k < |fields| && fields[k].Number? then fields[k].value else 0
  }

  /** "wp_%s" */
  const WAYPOINT_FORMAT: seq<Directive> := Lits("wp_") + [Str(0)]
  /** "pad_%[^_]_s%d_%d" */
  const PAD_FORMAT: seq<Directive> := Lits("pad_") + [NotChar('_')] + Lits("_s") + [Dec] + Lits("_") + [Dec]
  /** "%[^_]_%[^_]" */
  const LINK_FORMAT: seq<Directive> := [NotChar('_'), Lit('_'), NotChar('_')]
  /** "loc_%4s_p%d_s%d_%d_b%d" */
  const LOCATOR_FORMAT: seq<Directive> :=
    Lits("loc_") + [Str(4)] + Lits("_p") + [Dec] + Lits("_s") + [Dec] + Lits("_") + [Dec] + Lits("_b") + [Dec]
  /** "entrance_port%d" */
  const ENTRANCE_FORMAT: seq<Directive> := Lits("entrance_port") + [Dec]
  /** "exit_port%d" */
  const EXIT_FORMAT: seq<Directive> := Lits("exit_port") + [Dec]

  /** A field copied into a Name (char[16]); one that does not fit is an error. */
  function ToName(s: string): (r: Result<Name, SetupError>)
    ensures r.Ok? <==> |s| < NAME_CAPACITY
    ensures r.Ok? ==> r.value == s
  {
    if |s| < NAME_CAPACITY then Ok(s) else Err(NameTooLong(s))
  }

  // ---------------------------------------------------------------------------
  // waypoint_parse_sections

  /** After one section: go on with the next one, or stop (a `_out` section returns at once). */
  datatype SectionStep = Continue(wp: WayPoint) | Stop(wp: WayPoint)

  /** The effect of one link or flag section on the waypoint. */
  function ApplySection(wp: WayPoint, section: string): (r: Result<SectionStep, SetupError>)
    ensures r.Ok? ==> var w := r.value.wp;
      w.name == wp.name && w.loc == wp.loc && w.speed == wp.speed && w.radiusSqr == wp.radiusSqr &&
      w.flags == (if section == "pos" then wp.flags | ONLY_POS else if section == "gate" then wp.flags | GATE else wp.flags)
  {
    if section == "pos" then Ok(Continue(wp.(flags := wp.flags | ONLY_POS)))
    else if section == "gate" then Ok(Continue(wp.(flags := wp.flags | GATE)))
    else if section != [] && section[0] == '_' then
      var out :- ToName(section[1..]);
      Ok(Stop(wp.(outLink := out)))
    else
      // sscanf(section, "%[^_]_%[^_]", wp.in, wp.out) assigns what it matched, in order
      var fields := Scan(LINK_FORMAT, section);
      var inLink :- if |fields| >= 1 then ToName(TextAt(fields, 0)) else Ok(wp.inLink);
      var outLink :- if |fields| >= 2 then ToName(TextAt(fields, 1)) else Ok(wp.outLink);
      var outLink' := if |outLink| == 0 && |inLink| == |section| then inLink else outLink;
      Ok(Continue(wp.(inLink := inLink, outLink := outLink')))
  }

  /** The waypoint after waypoint_parse_sections(wp, sections). */
  function ApplySections(wp: WayPoint, sections: string): Result<WayPoint, SetupError>
    decreases |sections|
  {
    if sections == [] then Ok(wp)
    else
      var split := NextSection(sections, ':', SECTION_CAPACITY);
      if !split.fits then Err(SectionTooLong(sections))
      else
        match ApplySection(wp, split.section)
        case Err(e) => Err(e)
        case Ok(Stop(w)) => Ok(w)
        case Ok(Continue(w)) => ApplySections(w, split.rest)
  }

  /** waypoint_parse_sections: walks the colon-separated sections, updating the waypoint in place. */
  method ParseSections(wp0: WayPoint, sections: string) returns (r: Result<WayPoint, SetupError>)
    ensures r == ApplySections(wp0, sections)
  {
    var wp := wp0;
    var tail := sections;
    while tail != []
      invariant ApplySections(wp0, sections) == ApplySections(wp, tail)
      decreases |tail|
    {
      var split := NextSection(tail, ':', SECTION_CAPACITY);
      if !split.fits {
        return Err(SectionTooLong(tail));
      }
      tail := split.rest;
      var step := ApplySection(wp, split.section);
      if step.Err? {
        return Err(step.error);
      }
      wp := step.value.wp;
      if step.value.Stop? {
        return Ok(wp);
      }
    }
    return Ok(wp);
  }

  /** The waypoint waypoint_from_scenetag builds from a `wp_` tag. */
  function WaypointSpec(tag: SceneTag): Result<WayPoint, SetupError> {
    var split := NextSection(tag.name, ':', SECTION_CAPACITY);
    if !split.fits then Err(SectionTooLong(tag.name))
    else
      var fields := Scan(WAYPOINT_FORMAT, split.section);
      if |fields| != 1 then Err(MalformedTag(tag.name))
      else
        var name :- ToName(TextAt(fields, 0));
        var wp := EMPTY_WAYPOINT.(loc := Renormalized(tag.transform), radiusSqr := tag.scaleSqr, name := name);
        ApplySections(wp, split.rest)
  }

  /** waypoint_from_scenetag */
  method WaypointFromSceneTag(tag: SceneTag) returns (r: Result<WayPoint, SetupError>)
    ensures r == WaypointSpec(tag)
  {
    var split := NextSection(tag.name, ':', SECTION_CAPACITY);
    if !split.fits {
      return Err(SectionTooLong(tag.name));
    }
    var fields := Scan(WAYPOINT_FORMAT, split.section);
    if |fields| != 1 {
      return Err(MalformedTag(tag.name));
    }
    var name := ToName(TextAt(fields, 0));
    if name.Err? {
      return Err(name.error);
    }
    var wp := EMPTY_WAYPOINT.(loc := Renormalized(tag.transform), radiusSqr := tag.scaleSqr, name := name.value);
    r := ParseSections(wp, split.rest);
  }

  // ---------------------------------------------------------------------------
  // What the section grammar does

  /** When `a` holds no c and is followed by a c or by nothing, the first c (if any) is just after `a`. */
  lemma {:induction false} IndexOfAt(c: char, a: string, rest: string)
    requires c !in a && (rest == [] || rest[0] == c)
    ensures IndexOf(a + rest, c) == if rest == [] then None else Some(|a|)
    decreases |a|
  {
    if a != [] {
      assert (a + rest)[1..] == a[1..] + rest;
      IndexOfAt(c, a[1..], rest);
    } else {
      assert a + rest == rest;
    }
  }

  lemma RunNotAt(s: string, c: char, a: string, rest: string)
    requires c !in a && (rest == [] || rest[0] == c) && s == a + rest
    ensures RunNot(s, c) == |a|
  {
    IndexOfAt(c, a, rest);
  }

  /** Two splits at the first separator of the same text are the same split. */
  lemma SplitAtFirst(sep: char, a: string, rest: string, b: string, rest': string)
    requires sep !in a && sep !in b && a + [sep] + rest == b + [sep] + rest'
    ensures a == b && rest == rest'
  {
    var s := a + [sep] + rest;
    RunNotAt(s, sep, a, [sep] + rest);
    RunNotAt(s, sep, b, [sep] + rest');
    assert a == s[..|a|] == b;
    assert rest == s[|a| + 1..] == rest';
  }

  /** A section that fits and ends at a ':' is handled on its own, and the walk goes on after it. */
  lemma SectionsCons(wp: WayPoint, section: string, rest: string)
    requires ':' !in section && |section| < SECTION_CAPACITY
    ensures var step := ApplySection(wp, section);
      ApplySections(wp, section + [':'] + rest) ==
        if step.Err? then Err(step.error) else if step.value.Stop? then Ok(step.value.wp) else ApplySections(step.value.wp, rest)
  {
    var tail := section + [':'] + rest;
    RunNotAt(tail, ':', section, [':'] + rest);
    assert tail[|section|] == ':';
    var split := NextSection(tail, ':', SECTION_CAPACITY);
    SplitAtFirst(':', section, rest, split.section, split.rest);
  }

  /** The last section, with no ':' after it. */
  lemma SectionsLast(wp: WayPoint, section: string)
    requires section != [] && ':' !in section && |section| < SECTION_CAPACITY
    ensures var step := ApplySection(wp, section);
      ApplySections(wp, section) == if step.Err? then Err(step.error) else Ok(step.value.wp)
  {
    var split := NextSection(section, ':', SECTION_CAPACITY);
    assert split.section == section && split.rest == [];
  }

  /** `after` is `before` with, at most, ONLY_POS and GATE added. */
  predicate GainsOnlyPositionOrGate(before: bv64, after: bv64) {
    after == before | (after & (ONLY_POS | GATE))
  }

  lemma GainsByOr(f: bv64, g: bv64)
    requires g == ONLY_POS || g == GATE
    ensures GainsOnlyPositionOrGate(f, f | g)
  {
  }

  lemma GainsNothing(f: bv64)
    ensures GainsOnlyPositionOrGate(f, f)
  {
  }

  lemma GainsTransitive(f0: bv64, f1: bv64, f2: bv64)
    requires GainsOnlyPositionOrGate(f0, f1) && GainsOnlyPositionOrGate(f1, f2)
    ensures GainsOnlyPositionOrGate(f0, f2)
  {
  }

  /** What the predicate means flag by flag: nothing is cleared, and only ONLY_POS and GATE can appear. */
  lemma GainsKeepsOtherFlags(before: bv64, after: bv64, f: bv64)
    requires GainsOnlyPositionOrGate(before, after) && IsFlag(f)
    ensures HasFlag(before, f) ==> HasFlag(after, f)
    ensures f != ONLY_POS && f != GATE ==> HasFlag(after, f) == HasFlag(before, f)
  {
  }

  lemma PosSectionGains(wp: WayPoint, section: string)
    requires ApplySection(wp, section).Ok? && section == "pos"
    ensures GainsOnlyPositionOrGate(wp.flags, ApplySection(wp, section).value.wp.flags)
  {
    GainsByOr(wp.flags, ONLY_POS);
  }

  lemma GateSectionGains(wp: WayPoint, section: string)
    requires ApplySection(wp, section).Ok? && section == "gate"
    ensures GainsOnlyPositionOrGate(wp.flags, ApplySection(wp, section).value.wp.flags)
  {
    GainsByOr(wp.flags, GATE);
  }

  lemma LinkSectionGains(wp: WayPoint, section: string)
    requires ApplySection(wp, section).Ok? && section != "pos" && section != "gate"
    ensures GainsOnlyPositionOrGate(wp.flags, ApplySection(wp, section).value.wp.flags)
  {
    GainsNothing(wp.flags);
  }

  lemma SectionGains(wp: WayPoint, section: string)
    requires ApplySection(wp, section).Ok?
    ensures GainsOnlyPositionOrGate(wp.flags, ApplySection(wp, section).value.wp.flags)
  {
    if section == "pos" {
      PosSectionGains(wp, section);
    } else if section == "gate" {
      GateSectionGains(wp, section);
    } else {
      LinkSectionGains(wp, section);
    }
  }

  /**
    Sections only ever add ONLY_POS or GATE to the flags: every flag the
    waypoint had stays set and every other bit keeps its value.
  */
  lemma {:induction false} SectionsKeepOtherFlags(wp: WayPoint, sections: string)
    requires ApplySections(wp, sections).Ok?
    ensures GainsOnlyPositionOrGate(wp.flags, ApplySections(wp, sections).value.flags)
    decreases |sections|
  {
    if sections == [] {
      GainsNothing(wp.flags);
    } else {
      var split := NextSection(sections, ':', SECTION_CAPACITY);
      var step := ApplySection(wp, split.section).value;
      SectionGains(wp, split.section);
      if step.Continue? {
        SectionsKeepOtherFlags(step.wp, split.rest);
        GainsTransitive(wp.flags, step.wp.flags, ApplySections(step.wp, split.rest).value.flags);
      }
    }
  }

  /** Sections change only the flags and the links: name, location, speed and radius stay. */
  lemma {:induction false} SectionsKeepPlacement(wp: WayPoint, sections: string)
    requires ApplySections(wp, sections).Ok?
    ensures var r := ApplySections(wp, sections).value;
      r.name == wp.name && r.loc == wp.loc && r.speed == wp.speed && r.radiusSqr == wp.radiusSqr
    decreases |sections|
  {
    if sections != [] {
      var split := NextSection(sections, ':', SECTION_CAPACITY);
      var step := ApplySection(wp, split.section).value;
      if step.Continue? {
        SectionsKeepPlacement(step.wp, split.rest);
      }
    }
  }

  /** A `pos` section ORs in ONLY_POS and the walk goes on. */
  lemma PosSectionSetsOnlyPos(wp: WayPoint, rest: string)
    ensures ApplySections(wp, "pos" + [':'] + rest) == ApplySections(wp.(flags := wp.flags | ONLY_POS), rest)
  {
    assert ApplySection(wp, "pos") == Ok(Continue(wp.(flags := wp.flags | ONLY_POS)));
    SectionsCons(wp, "pos", rest);
  }

  /** A `gate` section ORs in GATE and the walk goes on. */
  lemma GateSectionSetsGate(wp: WayPoint, rest: string)
    ensures ApplySections(wp, "gate" + [':'] + rest) == ApplySections(wp.(flags := wp.flags | GATE), rest)
  {
    assert ApplySection(wp, "gate") == Ok(Continue(wp.(flags := wp.flags | GATE)));
    SectionsCons(wp, "gate", rest);
  }

  /** A section `_<out>` sets `out` and ends the walk: whatever follows it is ignored. */
  lemma UnderscoreStops(wp: WayPoint, out: string, rest: string)
    requires ':' !in out && |out| < NAME_CAPACITY
    ensures ApplySections(wp, ['_'] + out + [':'] + rest) == Ok(wp.(outLink := out))
    ensures ApplySections(wp, ['_'] + out) == Ok(wp.(outLink := out))
  {
    var section := ['_'] + out;
    assert section[0] == '_' && section[1..] == out;
    assert section != "pos" && section != "gate";
    SectionsCons(wp, section, rest);
    SectionsLast(wp, section);
  }

  /** %[^_] on `a` followed by the end of the input or by '_' reads exactly `a`. */
  lemma ScanLinkRun(a: string, rest: string, fmt: seq<Directive>)
    requires a != [] && '_' !in a && (rest == [] || rest[0] == '_')
    ensures Scan([NotChar('_')] + fmt, a + rest) == [Text(a)] + Scan(fmt, rest)
  {
    var input := a + rest;
    RunNotAt(input, '_', a, rest);
    assert input[..|a|] == a && input[|a|..] == rest;
    assert ([NotChar('_')] + fmt)[1..] == fmt;
  }

  /** A section `A_B` sets `in` to A and `out` to B. */
  lemma LinkPairSetsBoth(wp: WayPoint, a: string, b: string)
    requires a != [] && b != [] && '_' !in a && '_' !in b && |a| < NAME_CAPACITY && |b| < NAME_CAPACITY
    ensures ApplySection(wp, a + ['_'] + b) == Ok(Continue(wp.(inLink := a, outLink := b)))
  {
    var section := a + ['_'] + b;
    assert section[|a|] == '_' && section[0] == a[0];
    assert section != "pos" && section != "gate" by {
      assert '_' in section;
      assert '_' !in "pos" && '_' !in "gate";
    }
    LinkFormatReadsPair(a, b);
  }

  /** "%[^_]_%[^_]" on `A_B` reads A and B. */
  lemma {:induction false} LinkFormatReadsPair(a: string, b: string)
    requires a != [] && b != [] && '_' !in a && '_' !in b
    ensures Scan(LINK_FORMAT, a + ['_'] + b) == [Text(a), Text(b)]
  {
    assert LINK_FORMAT == [NotChar('_')] + [Lit('_'), NotChar('_')];
    assert a + ['_'] + b == a + (['_'] + b);
    ScanLinkRun(a, ['_'] + b, [Lit('_'), NotChar('_')]);
    assert [Lit('_'), NotChar('_')] == [Lit('_')] + [NotChar('_')];
    ScanLit('_', [NotChar('_')], b);
    assert [NotChar('_')] == [NotChar('_')] + [] && b == b + [];
    ScanLinkRun(b, [], []);
  }

  /** A section with no '_' sets `in`, and `out` too when `out` is still empty. */
  lemma SingleLinkSetsIn(wp: WayPoint, a: string)
    requires a != [] && '_' !in a && |a| < NAME_CAPACITY && a != "pos" && a != "gate"
    ensures ApplySection(wp, a) == Ok(Continue(wp.(inLink := a, outLink := if wp.outLink == "" then a else wp.outLink)))
  {
    ScanLinkRun(a, [], [Lit('_'), NotChar('_')]);
    assert a + [] == a;
    assert Scan(LINK_FORMAT, a) == [Text(a)];
  }

  /** Link sections overwrite the links earlier ones set. */
  lemma LaterLinksOverwrite(wp: WayPoint, a: string, b: string, c: string, d: string)
    requires a != [] && b != [] && c != [] && d != []
    requires '_' !in a && '_' !in b && '_' !in c && '_' !in d
    requires ':' !in a && ':' !in b && ':' !in c && ':' !in d
    requires |a| < NAME_CAPACITY && |b| < NAME_CAPACITY && |c| < NAME_CAPACITY && |d| < NAME_CAPACITY
    ensures ApplySections(wp, (a + ['_'] + b) + [':'] + (c + ['_'] + d)) == Ok(wp.(inLink := c, outLink := d))
  {
    LinkPairSetsBoth(wp, a, b);
    SectionsCons(wp, a + ['_'] + b, c + ['_'] + d);
    var w := wp.(inLink := a, outLink := b);
    LinkPairSetsBoth(w, c, d);
    SectionsLast(w, c + ['_'] + d);
  }

  lemma ScanLit(c: char, fmt: seq<Directive>, rest: string)
    ensures Scan([Lit(c)] + fmt, [c] + rest) == Scan(fmt, rest)
  {
    assert ([Lit(c)] + fmt)[1..] == fmt;
    assert ([c] + rest)[1..] == rest;
  }

  /** Literal characters of a format consume the same characters of the input. */
  lemma {:induction false} ScanLits(lits: string, fmt: seq<Directive>, rest: string)
    ensures Scan(Lits(lits) + fmt, lits + rest) == Scan(fmt, rest)
    decreases |lits|
  {
    if lits != [] {
      assert Lits(lits) == [Lit(lits[0])] + Lits(lits[1..]);
      assert Lits(lits) + fmt == [Lit(lits[0])] + (Lits(lits[1..]) + fmt);
      assert lits + rest == [lits[0]] + (lits[1..] + rest);
      ScanLit(lits[0], Lits(lits[1..]) + fmt, lits[1..] + rest);
      ScanLits(lits[1..], fmt, rest);
    } else {
      assert Lits(lits) + fmt == fmt && lits + rest == rest;
    }
  }

  /** An unbounded %s reads a whole string that holds no white space. */
  lemma {:induction false} NonSpaceRunAll(s: string)
    requires forall k :: 0 <= k < |s| ==> !IsSpace(s[k])
    ensures NonSpaceRun(s, 0) == |s|
    decreases |s|
  {
    if s != [] {
      NonSpaceRunAll(s[1..]);
    }
  }

  /** "wp_%s" reads the whole name after the prefix, however long, as long as it holds no white space. */
  lemma {:induction false} WaypointFormatReadsName(name: string)
    requires name != [] && forall k :: 0 <= k < |name| ==> !IsSpace(name[k])
    ensures Scan(WAYPOINT_FORMAT, "wp_" + name) == [Text(name)]
  {
    ScanLits("wp_", [Str(0)], name);
    NonSpaceRunAll(name);
    assert SkipSpace(name) == name;
    assert name[..|name|] == name && name[|name|..] == [];
  }

  /**
    "wp_%s" has no field width: sixteen name characters are read whole, one
    more than wp.name holds, so sscanf writes past the end of the buffer.
  */
  lemma WaypointNameOverflows()
    ensures var fields := Scan(WAYPOINT_FORMAT, "wp_" + "approach-outer-1");
      |fields| == 1 && |TextAt(fields, 0)| == NAME_CAPACITY
  {
    WaypointFormatReadsName("approach-outer-1");
  }

  /** The corrected parse refuses such a name instead of overflowing. */
  lemma WaypointNameTooLong(name: string, t: Transform, scaleSqr: real)
    requires |name| >= NAME_CAPACITY && |name| + 3 < SECTION_CAPACITY && ':' !in name
    requires forall k :: 0 <= k < |name| ==> !IsSpace(name[k])
    ensures WaypointSpec(SceneTag("wp_" + name, t, scaleSqr)) == Err(NameTooLong(name))
  {
    var tagName := "wp_" + name;
    assert ':' !in tagName by {
      assert forall k :: 0 <= k < |tagName| ==> tagName[k] == (if k < 3 then "wp_"[k] else name[k - 3]);
    }
    var split := NextSection(tagName, ':', SECTION_CAPACITY);
    assert split.section == tagName;
    WaypointFormatReadsName(name);
  }

  // ---------------------------------------------------------------------------
  // What the %d conversion reads

  /** Skipping white space drops exactly the white space in front. */
  lemma {:induction false} SkipSpaceDrops(w: string, t: string)
    requires forall k :: 0 <= k < |w| ==> IsSpace(w[k])
    requires t == [] || !IsSpace(t[0])
    ensures SkipSpace(w + t) == t
    decreases |w|
  {
    if w == [] {
      assert w + t == t;
    } else {
      assert (w + t)[0] == w[0] && (w + t)[1..] == w[1..] + t;
      SkipSpaceDrops(w[1..], t);
    }
  }

  /** The digit run of `d + rest` is `d` when rest does not start with a digit. */
  lemma {:induction false} DigitRunStops(d: string, rest: string)
    requires forall k :: 0 <= k < |d| ==> IsDigit(d[k])
    requires rest == [] || !IsDigit(rest[0])
    ensures DigitRun(d + rest) == |d|
    decreases |d|
  {
    if d == [] {
      assert d + rest == rest;
    } else {
      assert (d + rest)[0] == d[0] && (d + rest)[1..] == d[1..] + rest;
      DigitRunStops(d[1..], rest);
    }
  }

  /** The sign a %d conversion accepts in front of its digits. */
  datatype Sign = Unsigned | Minus | Plus

  function SignText(sign: Sign): (r: string)
    ensures |r| <= 1 && (r != [] ==> r[0] == '-' || r[0] == '+')
  {
    match sign
    case Unsigned => ""
    case Minus => "-"
    case Plus => "+"
  }

  /**
    %d reads leading white space, an optional sign and the whole run of
    digits d after it; it yields v, the value of d, negated after '-', and
    leaves the rest of the input.
  */
  lemma {:induction false} ScanDecimalReads(w: string, sign: Sign, d: string, v: nat, rest: string)
    requires forall k :: 0 <= k < |w| ==> IsSpace(w[k])
    requires d != [] && forall k :: 0 <= k < |d| ==> IsDigit(d[k])
    requires v == DigitsValue(d)
    requires rest == [] || !IsDigit(rest[0])
    ensures ScanDecimal(w + (SignText(sign) + (d + rest)))
      == Some((if sign == Minus then -(v as int) else v as int, rest))
  {
    ReadDigitsOf(d, rest);
    ScanSignedBody(w, sign, d + rest, v, rest);
  }

  /** White space, then a sign, then a body whose leading digits ReadDigits reads. */
  lemma {:induction false} ScanSignedBody(w: string, sign: Sign, body: string, v: int, rest: string)
    requires forall k :: 0 <= k < |w| ==> IsSpace(w[k])
    requires ReadDigits(body) == Some((v, rest))
    ensures ScanDecimal(w + (SignText(sign) + body)) == Some((if sign == Minus then -v else v, rest))
  {
    var t := SignText(sign) + body;
    assert body != [] && IsDigit(body[0]);
    assert t[0] == if sign == Unsigned then body[0] else SignText(sign)[0];
    SkipSpaceDrops(w, t);
    ReadSignedOf(sign, body, v, rest);
  }

  /** The sign decides the sign of the value; the digits after it are read whole. */
  lemma {:induction false} ReadSignedOf(sign: Sign, body: string, v: int, rest: string)
    requires ReadDigits(body) == Some((v, rest))
    ensures ReadSigned(SignText(sign) + body) == Some((if sign == Minus then -v else v, rest))
  {
    var t := SignText(sign) + body;
    match sign
    case Unsigned =>
      assert t == body;
      assert body != [] && IsDigit(body[0]);
    case Minus =>
      assert t[0] == '-' && t[1..] == body;
    case Plus =>
      assert t[0] == '+' && t[1..] == body;
  }

  /** A digit run followed by a non-digit is read as its value. */
  lemma {:induction false} ReadDigitsOf(d: string, rest: string)
    requires d != [] && forall k :: 0 <= k < |d| ==> IsDigit(d[k])
    requires rest == [] || !IsDigit(rest[0])
    ensures ReadDigits(d + rest) == Some((DigitsValue(d) as int, rest))
  {
    DigitRunStops(d, rest);
    assert (d + rest)[..|d|] == d && (d + rest)[|d|..] == rest;
  }

  /** %d fails when, after the white space and an optional sign, no digit follows. */
  lemma {:induction false} ScanDecimalNeedsDigit(w: string, sign: Sign, t: string)
    requires forall k :: 0 <= k < |w| ==> IsSpace(w[k])
    requires t == [] || !IsDigit(t[0])
    requires sign == Unsigned ==> t == [] || (!IsSpace(t[0]) && t[0] != '-' && t[0] != '+')
    ensures ScanDecimal(w + (SignText(sign) + t)) == None
  {
    if sign == Unsigned {
      assert SignText(sign) + t == t;
      SkipSpaceDrops(w, t);
    } else {
      SkipSpaceDrops(w, SignText(sign) + t);
      assert (SignText(sign) + t)[1..] == t;
    }
  }

  /** %d without white space or sign reads the digits and leaves the rest. */
  lemma {:induction false} ScanUnsigned(d: string, rest: string)
    requires d != [] && forall k :: 0 <= k < |d| ==> IsDigit(d[k])
    requires rest == [] || !IsDigit(rest[0])
    ensures ScanDecimal(d + rest) == Some((DigitsValue(d) as int, rest))
  {
    var s := d + rest;
    assert s[0] == d[0];
    SkipSpaceDrops([], s);
    assert [] + s == s;
    ReadDigitsOf(d, rest);
    ReadSignedOf(Unsigned, s, DigitsValue(d), rest);
    assert SignText(Unsigned) + s == s;
  }

  /** A %d directive reads the number ScanDecimal finds and goes on after it. */
  lemma {:induction false} ScanDec(fmt: seq<Directive>, input: string, v: int, rest: string)
    requires ScanDecimal(input) == Some((v, rest))
    ensures Scan([Dec] + fmt, input) == [Number(v)] + Scan(fmt, rest)
  {
    assert ([Dec] + fmt)[0] == Dec && ([Dec] + fmt)[1..] == fmt;
  }

  /** A final %d reads a whole string of digits. */
  lemma {:induction false} ScanLastDec(d: string)
    requires d != [] && forall k :: 0 <= k < |d| ==> IsDigit(d[k])
    ensures Scan([Dec], d) == [Number(DigitsValue(d))]
  {
    assert d + [] == d;
    ScanUnsigned(d, []);
    ScanDec([], d, DigitsValue(d), []);
    assert [Dec] + [] == [Dec];
  }

  /** "pad_%[^_]_s%d_%d" on `pad_<name>_s<min>_<max>` reads the name and both ship sizes. */
  lemma {:induction false} PadFormatReads(name: string, lo: string, hi: string)
    requires name != [] && '_' !in name
    requires lo != [] && forall k :: 0 <= k < |lo| ==> IsDigit(lo[k])
    requires hi != [] && forall k :: 0 <= k < |hi| ==> IsDigit(hi[k])
    ensures Scan(PAD_FORMAT, "pad_" + name + "_s" + lo + "_" + hi) ==
      [Text(name), Number(DigitsValue(lo)), Number(DigitsValue(hi))]
  {
    var sizes := [Dec] + (Lits("_") + [Dec]);
    var f1 := [NotChar('_')] + (Lits("_s") + sizes);
    PadFormatShape();
    var i2 := "_s" + (lo + ("_" + hi));
    PadTagShape(name, lo, hi);
    ScanLits("pad_", f1, name + i2);
    ScanLinkRun(name, i2, Lits("_s") + sizes);
    ScanLits("_s", sizes, lo + ("_" + hi));
    PadSizesRead(lo, hi);
  }

  lemma PadFormatShape()
    ensures PAD_FORMAT == Lits("pad_") + ([NotChar('_')] + (Lits("_s") + ([Dec] + (Lits("_") + [Dec]))))
  {
  }

  lemma PadTagShape(name: string, lo: string, hi: string)
    ensures "pad_" + name + "_s" + lo + "_" + hi == "pad_" + (name + ("_s" + (lo + ("_" + hi))))
  {
  }

  /** The "%d_%d" tail of the pad format reads both sizes. */
  lemma {:induction false} PadSizesRead(lo: string, hi: string)
    requires lo != [] && forall k :: 0 <= k < |lo| ==> IsDigit(lo[k])
    requires hi != [] && forall k :: 0 <= k < |hi| ==> IsDigit(hi[k])
    ensures Scan([Dec] + (Lits("_") + [Dec]), lo + ("_" + hi)) == [Number(DigitsValue(lo)), Number(DigitsValue(hi))]
  {
    ScanDecThenLits(lo, "_", [Dec], hi);
    ScanLastDec(hi);
  }

  /** `pad_A_s0_500` is the pad A for ships of size 0 to 500. */
  lemma PadFormatExample()
    ensures Scan(PAD_FORMAT, "pad_A_s0_500") == [Text("A"), Number(0), Number(500)]
  {
    PadFormatReads("A", "0", "500");
    assert "pad_" + "A" + "_s" + "0" + "_" + "500" == "pad_A_s0_500";
    assert DigitsValue("5") == 5;
    assert DigitsValue("50") == 50;
    assert DigitsValue("500") == 500;
  }

  /** "entrance_port%d" reads the port number after the prefix and ignores what follows it. */
  lemma {:induction false} EntranceFormatReadsPort(d: string, rest: string)
    requires d != [] && forall k :: 0 <= k < |d| ==> IsDigit(d[k])
    requires rest == [] || !IsDigit(rest[0])
    ensures Scan(ENTRANCE_FORMAT, "entrance_port" + d + rest) == [Number(DigitsValue(d))]
  {
    assert "entrance_port" + d + rest == "entrance_port" + (d + rest);
    ScanLits("entrance_port", [Dec], d + rest);
    ScanUnsigned(d, rest);
    ScanDec([], d + rest, DigitsValue(d), rest);
  }

  /** "exit_port%d" reads the port number after the prefix and ignores what follows it. */
  lemma {:induction false} ExitFormatReadsPort(d: string, rest: string)
    requires d != [] && forall k :: 0 <= k < |d| ==> IsDigit(d[k])
    requires rest == [] || !IsDigit(rest[0])
    ensures Scan(EXIT_FORMAT, "exit_port" + d + rest) == [Number(DigitsValue(d))]
  {
    assert "exit_port" + d + rest == "exit_port" + (d + rest);
    ScanLits("exit_port", [Dec], d + rest);
    ScanUnsigned(d, rest);
    ScanDec([], d + rest, DigitsValue(d), rest);
  }

  /** Two %d directives separated by literal text read both numbers. */
  lemma {:induction false} ScanDecThenLits(d: string, lits: string, fmt: seq<Directive>, rest: string)
    requires d != [] && forall k :: 0 <= k < |d| ==> IsDigit(d[k])
    requires lits != [] && !IsDigit(lits[0])
    ensures Scan([Dec] + (Lits(lits) + fmt), d + (lits + rest)) == [Number(DigitsValue(d))] + Scan(fmt, rest)
  {
    assert (lits + rest)[0] == lits[0];
    ScanUnsigned(d, lits + rest);
    ScanDec(Lits(lits) + fmt, d + (lits + rest), DigitsValue(d), lits + rest);
    ScanLits(lits, fmt, rest);
  }

  // ---------------------------------------------------------------------------
  // Names copied into char[16] without a bound

  /**
    `strcpy(wp.out, section + 1)` copies the whole rest of an `_out` section.
    A section `_approach-outer-1` passes next_section and leaves sixteen
    characters to copy, one more than wp.out holds with its terminator.
  */
  lemma OutSectionOverflows()
    ensures var split := NextSection("_approach-outer-1", ':', SECTION_CAPACITY);
      split.fits && split.section[0] == '_' && |split.section[1..]| == NAME_CAPACITY
  {
    var tail := "_approach-outer-1";
    assert ':' !in tail;
    RunNotAt(tail, ':', tail, []);
    assert tail + [] == tail;
  }

  /** The corrected parse refuses an `_out` name that does not fit. */
  lemma OutSectionTooLong(wp: WayPoint, out: string)
    requires |out| >= NAME_CAPACITY
    ensures ApplySection(wp, ['_'] + out) == Err(NameTooLong(out))
  {
    var section := ['_'] + out;
    assert section[0] == '_' && section[1..] == out;
    assert section != "pos" && section != "gate" by {
      assert |section| > 4;
    }
  }

  /**
    "%[^_]_%[^_]" has no field widths: `approach-outer-1_x` reads a sixteen-character
    in link, which sscanf writes past the end of wp.in.
  */
  lemma LinkNameOverflows()
    ensures var fields := Scan(LINK_FORMAT, "approach-outer-1" + "_" + "x");
      |fields| == 2 && |TextAt(fields, 0)| == NAME_CAPACITY
  {
    LinkFormatReadsPair("approach-outer-1", "x");
  }

  /** The corrected parse refuses a link section whose in or out name does not fit. */
  lemma LinkNameTooLong(wp: WayPoint, a: string, b: string)
    requires a != [] && b != [] && '_' !in a && '_' !in b
    requires |a| >= NAME_CAPACITY || |b| >= NAME_CAPACITY
    ensures |a| >= NAME_CAPACITY ==> ApplySection(wp, a + ['_'] + b) == Err(NameTooLong(a))
    ensures |a| < NAME_CAPACITY ==> ApplySection(wp, a + ['_'] + b) == Err(NameTooLong(b))
  {
    var section := a + ['_'] + b;
    assert section[0] == a[0] && section[0] != '_';
    assert section != "pos" && section != "gate" by {
      assert |section| > 4;
    }
    LinkFormatReadsPair(a, b);
  }

  /**
    "pad_%[^_]_s%d_%d" has no field width for the name: `pad_approach-outer-1_s0_500`
    reads a sixteen-character name, which sscanf writes past the end of bay.point.name.
  */
  lemma PadNameOverflows()
    ensures var fields := Scan(PAD_FORMAT, "pad_" + "approach-outer-1" + "_s" + "0" + "_" + "500");
      |fields| == 3 && |TextAt(fields, 0)| == NAME_CAPACITY
  {
    PadFormatReads("approach-outer-1", "0", "500");
  }
}
