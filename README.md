# Docking-route synthesis, DXT texture decoding and city-spot flood fill

This project models three parts of a space game, written in Dafny, and proves
properties of each.

**Docking routes of a space-station type.** These live in `src/SpaceStationType.cpp`,
`src/SpaceStationType.h` and `src/DockOperations.h`. When a station model has been loaded,
`OnSetupComplete` reads the model's scene tags and builds one *bay* per docking pad.
- A bay holds an approach route, a departure route and a transform for the DOCKED stage.
- Modern models name their waypoints with tags `wp_<name>[:pos][:gate][:<in>_<out>]`.
  They name their pads `pad_<name>_s<min>_<max>[:…]`.
- A route is found by following the `in` link (approach) or the `out` link (departure)
  from the pad through the waypoint registry. Following stops at an empty link. A name
  that is not registered is an error, and so is a walk longer than the registry.
- Each route is then zoned into internal and external speed limits. The approach is
  reversed and its first point is marked APPROACH_START. The last departure point is
  marked ONLY_POS.
- Legacy models use `entrance_port<N>`, `exit_port<N>` and `loc_…` tags. Each locator
  appends two approach points (surface stations) or four approach points and two
  departure points (orbital stations) to the bay it names.
- The station uses the bays through its queries: GetBay, GetShipApproachWaypoints and
  GetStageTransform.

**The PicoDDS DXT1–DXT5 decoder in `contrib/PicoDDS/decompress.h`.** It walks an ILimage
in 4x4 blocks.
- DXT1: two RGB565 endpoints and 2-bit selectors.
- DXT2/DXT3: 16 explicit 4-bit alphas followed by a DXT1-style colour block.
- DXT4/DXT5: two alpha endpoints, an alpha palette of 6 or 8 entries and 3-bit codes.
- The decoder writes every texel of the block that lies inside the image.
- DXT2 and DXT4 then undo premultiplied alpha.

**The city-spot bit grid in `src/CitySpotGenerator.h`.** One bit per cell, packed eight
cells to a byte, rows `pitch` bytes apart.
- `put_point` sets a bit and `check_point` reads one.
- `generate_blob` clears the grid and draws a closed contour. It then fills the inside
  with an explicit LIFO stack, starting from the centre cell.

## How the model is built

**Scene tags and the station build.** These are values: `SceneTag`, `WayPoint`, `Bay`,
`Port`. Parsing is a family of functions:
- `NextSection` is `next_section`.
- `Scan` is a small `sscanf` over directive lists.
- `ApplySections` is `waypoint_parse_sections`.
- `WaypointSpec` and `PadSpec` are `waypoint_from_scenetag` and `Bay::fromSceneTag`.

Each function is mirrored by a method with the source's loops, which is proved equal to
the function. The station type is a class: `bays` is a `map<nat, Bay>` keyed as the source
keys it (`bayID + 1`), and `OnSetupComplete` updates it in place. It is proved to end in
the state given by `SetupSpec`.

**Transforms.** Matrices are symbolic terms (`Renormalized`, `TranslatedLocal`,
`TurnedAround`, …). Which transform feeds which waypoint is exact. The floating-point
arithmetic inside the terms is not modelled.

**Assertions.** The source's `assert`s and `PiVerify`s become typed errors
(`SetupError`), which gives them their debug-build meaning: the setup stops there.

**Names.** Waypoint names and links are 16-byte buffers. The source copies names into
them without a bound: the `wp_%s`, `%[^_]_%[^_]` and `pad_%[^_]` conversions and the
`strcpy` of an `_<out>` section. The model refuses a name of 16 or more characters with
the typed error NameTooLong. The members that show each overflow as written are listed
under "## Findings".

**DXT decoding.** The buffer is an `Image` class over an `array<uint8>`. The decoders are
methods with the source's three nested loops. Each decoder is proved to leave the array
equal to `Decoded`, a function that gives every byte its value from its own block.
- For DXT3 and DXT5, the alpha pass writes channel 3 after the colour pass. The colour
  palette array and the DXT5 alpha array persist from block to block, as in the source.
- The model proves what each byte depends on: only the colour palette's alpha channel
  and DXT5's `alphas[3]` carry over from block to block.

**The city grid.** The grid is an `array<bv8>`; `PutPoint`, `Clear`, `Fill` and
`GenerateBlob` are methods on it. `Fill` keeps the stack as a sequence and is proved:
- to set exactly the cells it pushed;
- to push only cells that were clear;
- to stop only when every pushed cell has all four neighbours set;
- hence (`FillReachesComponent`) to mark the whole 4-connected clear region around the
  centre.

**Where the code wins.** Where the code and its documentation differ, the model follows
the code. Three cases:
- An orbital locator's departure orientation comes from the first `exit_port` tag that
  names the port. If no exit tag names the port, the number of the last exit tag
  scanned decides: 0 falls back to the port's inner transform, anything else leaves a
  default matrix. If there are no exit tags at all, the locator is turned around
  (`ExitOrient`, `ScanExitsFindsFirst`, `ScanExitsFallsBack`).
- The approach walk's loop bound counts the bay point itself. A registry of `n`
  waypoints therefore admits approach chains of at most `n - 1` points
  (`Routes.ApproachBoundCountsBayPoint`).
- Several quirks are reproduced as written:
  - `DxtcReadColor` takes its blue bits from the red field.
  - Un-premultiplying a full channel wraps to 0.
  - DXT5 keeps a stale `alphas[3]` when `a0 > a1`.
  - A single link section sets `in` and, when `out` is still empty, `out` as well.

## Model

| member | source | states |
|---|---|---|
| DockOperations.BraceWayPoint | src/DockOperations.h:29-37 | the WayPoint brace constructor stores location, speed, radius and flags as given and leaves name and both links empty |
| DockOperations.FlagsAreDistinctBits | src/DockOperations.h:18-27 | every waypoint flag is a single bit, and two different flags share no bit |
| DockOperations.SetFlagKeepsOthers | src/DockOperations.h:18-27 | or-ing a flag into a flag word sets that flag and leaves every other flag's state unchanged |
| DockStages.FromOrdinal | src/SpaceStationType.h:24-67 | the integer-to-DockStage conversion succeeds exactly for 0..26 and then yields the enumerator with that value |
| DockStages.OrdinalRoundTrip | src/SpaceStationType.h:24-67 | converting a stage to its integer and back gives the same stage |
| DockStages.NextAnimStage | src/SpaceStationType.h:129-131 | the next animation stage is the enumerator whose value is one higher |
| DockStages.DockStagesAre | src/SpaceStationType.h:117-121 | IsDockStage holds exactly for CLEARANCE_GRANTED through JUST_DOCK (both directions) |
| DockStages.UndockStagesAre | src/SpaceStationType.h:123-127 | IsUndockStage holds exactly for UNDOCK_BEGIN through LEAVE (both directions) |
| DockStages.DockAndUndockStagesDisjoint | src/SpaceStationType.h:117-127 | no stage is both a dock and an undock stage, and the range markers, NONE, MANUAL and DOCKED are neither |
| DockStages.NextAnimStageWithinDock | src/SpaceStationType.h:129-131 | stepping a dock stage other than JUST_DOCK stays inside the dock stages |
| DockStages.PivotStageIdempotent | src/SpaceStationType.cpp:501-518 | PivotStage maps the touchdown and repositioning stages to MANUAL, the clearance, approach and leaving stages to NONE, fixes every other stage, and is idempotent |
| TagGrammar.IndexOf | src/SpaceStationType.cpp:75 | strchr: the first position of the character, or none exactly when it does not occur |
| TagGrammar.RunNot | src/SpaceStationType.cpp:75-76 | the length of the longest prefix free of the separator; the separator follows it unless the string ends |
| TagGrammar.NextSection | src/SpaceStationType.cpp:72-82 | next_section copies at most capacity-1 characters up to the separator; it fits exactly when the run is shorter than the capacity, and then the tail is section, separator, rest |
| TagGrammar.NonSpaceRun | src/SpaceStationType.cpp:124 | the `%s` conversion reads the longest run of non-space characters, up to the width when one is given |
| TagGrammar.ScanDecimal | src/SpaceStationType.cpp:275 | a successful `%d` conversion consumes at least one character; what it reads is stated by ScanDecimalReads and ScanDecimalNeedsDigit |
| TagGrammar.ScanDecimalReads | src/SpaceStationType.cpp:275 | `%d` skips leading white space, takes an optional sign and the whole digit run, yields its value (negated after `-`) and leaves exactly the rest |
| TagGrammar.ScanDecimalNeedsDigit | src/SpaceStationType.cpp:275 | `%d` fails when no digit follows the white space and the optional sign |
| TagGrammar.ScanUnsigned | src/SpaceStationType.cpp:275 | a bare digit run is read as its value, leaving the rest |
| TagGrammar.ScanDec | src/SpaceStationType.cpp:275 | a `%d` directive yields the number ScanDecimal reads and the format goes on after it |
| TagGrammar.PadFormatReads | src/SpaceStationType.cpp:138 | `pad_%[^_]_s%d_%d` on `pad_<name>_s<min>_<max>` reads the name and both sizes as their decimal values |
| TagGrammar.PadFormatExample | src/SpaceStationType.cpp:138 | the tag `pad_A_s0_500` reads the name A and the sizes 0 and 500 |
| TagGrammar.PadSizesRead | src/SpaceStationType.cpp:138 | the `%d_%d` tail of the pad format reads both sizes |
| TagGrammar.EntranceFormatReadsPort | src/SpaceStationType.cpp:275 | `entrance_port%d` reads the port number after the prefix, whatever non-digit text follows |
| TagGrammar.ExitFormatReadsPort | src/SpaceStationType.cpp:407 | `exit_port%d` reads the port number after the prefix, whatever non-digit text follows |
| TagGrammar.Scan | src/SpaceStationType.cpp:124 | sscanf yields at most one field per directive; what each format reads is stated by WaypointFormatReadsName and LinkFormatReadsPair |
| TagGrammar.ToName | src/DockOperations.h:14 | a string fits a 16-byte Name exactly when it has at most 15 characters, and is then stored unchanged |
| TagGrammar.ApplySection | src/SpaceStationType.cpp:93-106 | one section changes only flags and links: `pos` adds ONLY_POS, `gate` adds GATE, any other section adds no flag |
| TagGrammar.ParseSections | src/SpaceStationType.cpp:86-109 | the section loop ends in the state given by ApplySections, the section-by-section definition |
| TagGrammar.WaypointFromSceneTag | src/SpaceStationType.cpp:118-130 | the method returns WaypointSpec: the `wp_` name, the renormalised transform, the squared scale as radius, then the sections applied |
| TagGrammar.SectionsCons | src/SpaceStationType.cpp:90-92 | parsing `section:rest` applies the section, stops on an error or an underscore section, and otherwise goes on with rest |
| TagGrammar.SectionsLast | src/SpaceStationType.cpp:90-92 | a final section without a colon is applied and ends the parse |
| TagGrammar.GainsKeepsOtherFlags | src/SpaceStationType.cpp:93-96 | if only ONLY_POS or GATE can be gained, every flag set before stays set and every other flag keeps its value |
| TagGrammar.SectionGains | src/SpaceStationType.cpp:93-107 | a successful section gains at most ONLY_POS and GATE |
| TagGrammar.SectionsKeepOtherFlags | src/SpaceStationType.cpp:90-108 | a successful parse of any section list gains at most ONLY_POS and GATE |
| TagGrammar.SectionsKeepPlacement | src/SpaceStationType.cpp:86-109 | a successful parse never changes the waypoint's name, location, speed or radius |
| TagGrammar.PosSectionSetsOnlyPos | src/SpaceStationType.cpp:93-94 | a `pos:` section is the same as or-ing ONLY_POS into the flags and parsing the rest |
| TagGrammar.GateSectionSetsGate | src/SpaceStationType.cpp:95-96 | a `gate:` section is the same as or-ing GATE into the flags and parsing the rest |
| TagGrammar.UnderscoreStops | src/SpaceStationType.cpp:99-102 | a section `_<out>` sets only the out link and ends the parse, ignoring every later section |
| TagGrammar.LinkPairSetsBoth | src/SpaceStationType.cpp:103 | a section `<a>_<b>` sets the in link to a and the out link to b and changes nothing else |
| TagGrammar.LinkFormatReadsPair | src/SpaceStationType.cpp:103 | the `%[^_]_%[^_]` format reads the two underscore-free names of `a_b` |
| TagGrammar.SingleLinkSetsIn | src/SpaceStationType.cpp:103-106 | a single name sets the in link and also the out link when the out link was empty |
| TagGrammar.LaterLinksOverwrite | src/SpaceStationType.cpp:90-107 | of two link sections the later one decides both links |
| TagGrammar.WaypointFormatReadsName | src/SpaceStationType.cpp:124 | `wp_%s` reads the whole name after `wp_` when it contains no space |
| TagGrammar.WaypointNameOverflows | src/SpaceStationType.cpp:124 | as written, `wp_%s` reads a 16-character name, which does not fit the 16-byte Name buffer |
| TagGrammar.WaypointNameTooLong | src/SpaceStationType.cpp:124 | the corrected parse refuses a waypoint name of 16 or more characters with NameTooLong |
| TagGrammar.OutSectionOverflows | src/SpaceStationType.cpp:99-100 | as written, the section `_approach-outer-1` fits the section buffer and leaves a 16-character out name for `strcpy`, which does not fit wp.out |
| TagGrammar.OutSectionTooLong | src/SpaceStationType.cpp:99-100 | the corrected parse refuses an `_<out>` section whose name has 16 or more characters with NameTooLong |
| TagGrammar.LinkNameOverflows | src/SpaceStationType.cpp:103 | as written, `%[^_]_%[^_]` on `approach-outer-1_x` reads a 16-character in link, which does not fit wp.in |
| TagGrammar.LinkNameTooLong | src/SpaceStationType.cpp:103 | the corrected parse refuses a link section `<a>_<b>`: with NameTooLong(a) when a is too long, otherwise with NameTooLong(b) when b is |
| TagGrammar.PadNameOverflows | src/SpaceStationType.cpp:138 | as written, `pad_%[^_]_s%d_%d` on `pad_approach-outer-1_s0_500` reads a 16-character name, which does not fit bay.point.name |
| Routes.FindFirst | src/SpaceStationType.cpp:203-211 | the index of the first registered waypoint with the name, or none exactly when no waypoint has it |
| Routes.Chain | src/SpaceStationType.cpp:200-214 | a successful walk is empty exactly when the start link is empty, and otherwise fits within the registry size |
| Routes.ChainErrors | src/SpaceStationType.cpp:210-213 | a walk fails only by a loop or by a non-empty link that no registered waypoint has |
| Routes.FindWayPoint | src/SpaceStationType.cpp:203-212 | the registry scan returns FindFirst |
| Routes.ResumeStops | src/SpaceStationType.cpp:202-213 | the walk ends at an empty link; a missing name is a dangling link (or a loop for an empty registry); a full route with a further link is a loop |
| Routes.ChainStep | src/SpaceStationType.cpp:203-208 | one step of the walk appends the found waypoint and continues from its link |
| Routes.ResumeStep | src/SpaceStationType.cpp:202-213 | the loop invariant: appending the found waypoint and following its link does not change what the walk returns |
| Routes.ResolveChain | src/SpaceStationType.cpp:200-214 | the walking loop returns Chain |
| Routes.WalkAt | src/SpaceStationType.cpp:203-208 | every point of a walk carries the name the previous link pointed at, and the walk continues from there |
| Routes.ChainFollowsLinks | src/SpaceStationType.cpp:200-214 | a successful walk is a sequence of registered waypoints, each named by the previous one's link and ending at an empty link |
| Routes.FollowsLinksIsChain | src/SpaceStationType.cpp:200-214 | conversely, every link-following route that fits the bound is what the walk returns |
| Routes.FollowsLinksUnique | src/SpaceStationType.cpp:203-208 | a start name determines at most one link-following route |
| Routes.ChainNamesDistinct | src/SpaceStationType.cpp:213 | a successful walk never visits a name twice |
| Routes.LoopMeansLongWalk | src/SpaceStationType.cpp:213 | a loop error means the links can be followed for more steps than the registry holds |
| Routes.DepartureLoopRevisits | src/SpaceStationType.cpp:251 | a departure loop error means a genuine cycle: some link-following walk revisits a waypoint |
| Routes.ApproachBoundCountsBayPoint | src/SpaceStationType.cpp:200-213 | because the bound counts the bay point, a one-waypoint registry whose waypoint ends the chain is still rejected as a loop |
| Routes.WalkStepAsWritten | src/SpaceStationType.cpp:240-252 | the as-written loop step either grows the route by one or, for an empty registry, leaves link and route unchanged |
| Routes.EmptyRegistryDepartureStalls | src/SpaceStationType.cpp:240-252 | with no `wp_` tags and a non-empty out link, the written step makes no progress, while the corrected walk reports the dangling link |
| Routes.ZoneApproach | src/SpaceStationType.cpp:229-234 | every approach point keeps its data and gets the internal limit until the first gate counted from the bay, the external limit from there on |
| Routes.ZoneDeparture | src/SpaceStationType.cpp:254-260 | every departure point keeps its data and gets the internal limit (external if the bay is a gate) until a gate is passed, external after it |
| Routes.ApproachSpeedsSwitchOnce | src/SpaceStationType.cpp:230-234 | along the approach zoning the speed switches from internal to external once and never back; a gate point is external |
| Routes.DepartureSpeedsSwitchOnce | src/SpaceStationType.cpp:256-260 | along the departure zoning the speed switches to external once and never back; everything after a gate is external |
| Routes.Reverse | src/SpaceStationType.cpp:236 | std::reverse: element k of the result is element n-1-k of the input |
| Routes.MarkLast | src/SpaceStationType.cpp:227 | only the last point changes, and it gains the flag |
| Bays.BayFromSceneTag | src/SpaceStationType.cpp:132-146 | Bay::fromSceneTag returns PadSpec: sizes and name from the pad format, sections applied, BAY flag added, no stages |
| Bays.PadSpecReads | src/SpaceStationType.cpp:136-138 | a pad tag `pad_<name>_s<min>_<max>` with a short name and no sections gives a bay named name with ship sizes min and max |
| Bays.PadNameTooLong | src/SpaceStationType.cpp:136-138 | the corrected parse refuses a pad tag whose name has 16 or more characters with NameTooLong |
| Bays.PadSpecIsBay | src/SpaceStationType.cpp:143 | a parsed pad point always carries the BAY flag and the bay has no stage transforms yet |
| Bays.Truncate | src/SpaceStationType.cpp:223 | the snprintf into the name buffer keeps exactly the first n characters of the formatted name, or all of it when it is shorter, so the default name is a prefix of `<bay>-up` |
| Bays.BuildBay | src/SpaceStationType.cpp:196-268 | the loop body for one pad returns BaySpec: the pad, both routes, and DOCKED at the pad's location |
| Bays.BuildApproach | src/SpaceStationType.cpp:199-236 | the approach code returns ApproachRoute |
| Bays.BuildDeparture | src/SpaceStationType.cpp:238-262 | the departure code returns DepartureRoute |
| Bays.ApproachRouteShape | src/SpaceStationType.cpp:199-236 | an approach has at least two points, starts with APPROACH_START, ends at the bay point with its zone speed, switches from external to internal once, and is the `-up` default when the pad has no in link |
| Bays.ApproachRouteEnds | src/SpaceStationType.cpp:217-236 | an approach starts with APPROACH_START and ends at the bay point |
| Bays.ApproachRouteSpeeds | src/SpaceStationType.cpp:229-236 | every approach speed is one of the two limits, and no internal point precedes an external one |
| Bays.ZonedApproachSpeeds | src/SpaceStationType.cpp:229-236 | zoning and then reversing any route gives that speed shape |
| Bays.ApproachRouteDefault | src/SpaceStationType.cpp:217-225 | without an in link the approach is the `<name>-up` point 500 units above the pad, radius 1, followed by the pad |
| Bays.DepartureRouteShape | src/SpaceStationType.cpp:238-262 | a departure is non-empty, ends ONLY_POS, never drops from external to internal, is all external from a gate bay, and visits the walked waypoints in order |
| Bays.DepartureRouteSpeeds | src/SpaceStationType.cpp:254-262 | the speed part of DepartureRouteShape |
| Bays.DepartureRoutePoints | src/SpaceStationType.cpp:239-252 | the departure points are the walked waypoints, by name and location, in order |
| Bays.BaySpecShape | src/SpaceStationType.cpp:196-268 | a modern bay is flagged BAY, has exactly the DOCKED stage at its pad, an approach ending at the pad and a departure ending ONLY_POS |
| SpaceStationTypes.TagsWithPrefix | src/SpaceStationType.cpp:168-172 | FindTagsByStartOfName keeps exactly the tags whose name starts with the prefix; order and repeats are stated by TagsWithPrefixAppend and TagsWithPrefixOne |
| SpaceStationTypes.TagsWithPrefixAppend | src/SpaceStationType.cpp:168-172 | collecting over two runs of tags is collecting over the first then over the second, so model order and repeated tags are kept |
| SpaceStationTypes.TagsWithPrefixOne | src/SpaceStationType.cpp:168-172 | a single tag is kept exactly when its name starts with the prefix |
| SpaceStationTypes.SortByName | src/SpaceStationType.cpp:184 | the pads are sorted by name and are a permutation of the input |
| SpaceStationTypes.SortedByNameAll | src/SpaceStationType.cpp:184 | in a sorted list every earlier name is at most every later one |
| SpaceStationTypes.RegistryParsesEachTag | src/SpaceStationType.cpp:190-193 | the registry holds one waypoint per `wp_` tag, each the parse of its tag, in tag order |
| SpaceStationTypes.NumberedKeys | src/SpaceStationType.cpp:195-268 | numbering adds exactly the keys next..next+n-1 and keeps every other bay |
| SpaceStationTypes.NumberedValues | src/SpaceStationType.cpp:268 | the k-th spec is stored under key next+k |
| SpaceStationTypes.ModernBaysNumbering | src/SpaceStationType.cpp:195-268 | the k-th sorted pad's bay is stored under key k+1, and no other key changes |
| SpaceStationTypes.PortSpec | src/SpaceStationType.cpp:273-296 | an entrance tag is accepted exactly when it names a positive port number; its inner point is the tag's transform |
| SpaceStationTypes.PortSpecReads | src/SpaceStationType.cpp:274-276 | a tag `entrance_port<N>` is a port exactly when N is positive, and its id is then N |
| SpaceStationTypes.PortSpecOfNumber | src/SpaceStationType.cpp:274-276 | a tag whose entrance format reads one number n is a port exactly when n is positive, with id n |
| SpaceStationTypes.FindPort | src/SpaceStationType.cpp:318-328 | the port lookup finds the first port with that id (no earlier port has it), or none exactly when no port has it |
| SpaceStationTypes.ScanExitsFindsFirst | src/SpaceStationType.cpp:405-415 | the exit orientation is the transform of the first exit tag naming the port |
| SpaceStationTypes.ScanExitsFallsBack | src/SpaceStationType.cpp:405-415 | when no exit tag names the port, the last number scanned decides: 0 gives approach2, anything else the default-constructed matrix |
| SpaceStationTypes.ExitTagMatches | src/SpaceStationType.cpp:406-410 | a first exit tag `exit_port<N>` for port N gives that tag's transform |
| SpaceStationTypes.FindExitOrient | src/SpaceStationType.cpp:396-416 | the exit scan returns ExitOrient |
| SpaceStationTypes.LocatorTouchesOneBay | src/SpaceStationType.cpp:298-389 | a locator adds its key (a positive number), changes no other bay, sets DOCKED to the locator's transform and extends the approach |
| SpaceStationTypes.SurfaceLocatorShape | src/SpaceStationType.cpp:330-339 | a surface locator appends the ONLY_POS/APPROACH_START port point and the BAY point, both external, and leaves departure alone |
| SpaceStationTypes.OrbitalLocatorShape | src/SpaceStationType.cpp:330-424 | an orbital locator appends start, gate, before-bay and bay points with their speeds and two departure points ending ONLY_POS at the exit orientation |
| SpaceStationTypes.LegacyBaysKeepsKeys | src/SpaceStationType.cpp:298-426 | the legacy path never removes a bay, and any locator leaves at least one bay |
| SpaceStationTypes.BayKey | src/SpaceStationType.h:141 | the key is bayID+1 as a Uint32, wrapping to 0 at the top |
| SpaceStationTypes.ModernBayLookup | src/SpaceStationType.h:141 | external bay i is the i-th pad in name order, and there is no bay -1 |
| SpaceStationTypes.SpaceStationType.constructor | src/SpaceStationType.cpp:27-38 | a new station type has its dock method, no bays and zero docking ports |
| SpaceStationTypes.SpaceStationType.BuildRegistry | src/SpaceStationType.cpp:189-193 | the registry loop returns Registry |
| SpaceStationTypes.SpaceStationType.AddModernBays | src/SpaceStationType.cpp:195-269 | on success the bays are ModernBays of the old bays; on failure the error is reported |
| SpaceStationTypes.SpaceStationType.BuildPorts | src/SpaceStationType.cpp:273-296 | the entrance-port loop returns Ports |
| SpaceStationTypes.SpaceStationType.AddLocator | src/SpaceStationType.cpp:298-426 | one locator tag updates the bays to LocatorSpec, or reports its error and changes nothing |
| SpaceStationTypes.SpaceStationType.UpdateLocatorBay | src/SpaceStationType.cpp:330-425 | the locator's bay update returns LocatorBay |
| SpaceStationTypes.SpaceStationType.AddLegacyBays | src/SpaceStationType.cpp:298-426 | on success the bays are LegacyBays of the old bays; on failure the error is reported |
| SpaceStationTypes.SpaceStationType.AddLegacyPath | src/SpaceStationType.cpp:272-426 | the legacy part (entrance ports, then the locators) ends in LegacyPath of the old bays, or reports its error |
| SpaceStationTypes.SpaceStationType.AddPadBays | src/SpaceStationType.cpp:184-270 | on success the bays are ModernPath of the old bays |
| SpaceStationTypes.SpaceStationType.OnSetupComplete | src/SpaceStationType.cpp:148-431 | on success the bays are SetupSpec, non-empty, and numDockingPorts is their number; otherwise the error is reported |
| SpaceStationTypes.SpaceStationType.GetBay | src/SpaceStationType.h:141 | the bay stored under bayID+1, or none exactly when there is no such key |
| SpaceStationTypes.SpaceStationType.GetShipApproachWaypoints | src/SpaceStationType.cpp:433-449 | no bay, no waypoint at that stage, or the location of approach point `stage`, each exactly in its case |
| SpaceStationTypes.SpaceStationType.GetStageTransform | src/SpaceStationType.cpp:524-527 | the stored transform of that stage, present exactly when both the bay and the stage entry exist |
| SpaceStationTypes.SpaceStationType.IsOrbitalStation | src/SpaceStationType.h:145-146 | a station is orbital exactly when it is not a surface station |
| SpaceStationTypes.SpaceStationType.NumDockingStages | src/SpaceStationType.h:148 | once the station is set up, the number of dock animation stages is zero |
| SpaceStationTypes.SpaceStationType.NumUndockStages | src/SpaceStationType.h:149 | once the station is set up, the number of undock animation stages is zero |
| Dxt.SwapUIntReversesBytes | contrib/PicoDDS/decompress.h:85 | iSwapUInt reverses the four bytes |
| Dxt.SwapUIntInvolution | contrib/PicoDDS/decompress.h:85 | swapping twice restores the word |
| Dxt.SwapUShortSwapsBytes | contrib/PicoDDS/decompress.h:104 | iSwapUShort exchanges the two bytes |
| Dxt.SwapUShortInvolution | contrib/PicoDDS/decompress.h:104 | swapping twice restores the short |
| Dxt.Expand5IsShiftOr | contrib/PicoDDS/decompress.h:152-158 | the shift-or expansion of a 5-bit channel equals 8*b + b/4 |
| Dxt.Expand6IsShiftOr | contrib/PicoDDS/decompress.h:153 | the shift-or expansion of a 6-bit channel equals 4*b + b/8, less 4 when the low bit and bit 5 are both set |
| Dxt.ExpandEnds | contrib/PicoDDS/decompress.h:152-158 | the expansions map 0 to 0 and the field maximum to 255 |
| Dxt.Expand5Recovers | contrib/PicoDDS/decompress.h:152 | the high 5 bits of an expanded 5-bit channel give the field back |
| Dxt.Expand6RecoversLowerHalf | contrib/PicoDDS/decompress.h:153 | for green fields below 32, the high 6 bits give the field back |
| Dxt.Expand6PairsUpperHalf | contrib/PicoDDS/decompress.h:153 | for green fields of 32 and up, an even field and the next odd one expand to the same byte |
| Dxt.Fields565 | contrib/PicoDDS/decompress.h:144-150 | blue, green and red are bits 0-4, 5-10 and 11-15 of the little-endian word |
| Dxt.DxtcReadColors | contrib/PicoDDS/decompress.h:140-159 | only entries 0 and 1 change, and their alpha is kept |
| Dxt.ReadColorsDecodes565 | contrib/PicoDDS/decompress.h:140-159 | entries 0 and 1 are the expanded 565 fields of the two endpoint words |
| Dxt.DxtcReadColor | contrib/PicoDDS/decompress.h:162-173 | alpha is kept, red and green are the expanded fields |
| Dxt.ReadColorBlueFromRed | contrib/PicoDDS/decompress.h:172 | the blue byte takes its low bits from the red field, so it equals the proper expansion exactly when the top three bits of the blue and red fields agree |
| Dxt.ReadColorAgainstReadColors | contrib/PicoDDS/decompress.h:140-173 | the single-colour reader agrees with the two-colour one except in the low three bits of blue |
| Dxt.ReadColorKeepsOnlyAlpha | contrib/PicoDDS/decompress.h:170-172 | the result depends on the previous colour only through its alpha |
| Dxt.Third | contrib/PicoDDS/decompress.h:203-210 | the 2:1 interpolation lies between the endpoints |
| Dxt.Half | contrib/PicoDDS/decompress.h:429-431 | the 1:1 interpolation lies between the endpoints |
| Dxt.InterpolationOfEqualEndpoints | contrib/PicoDDS/decompress.h:203-210 | interpolating between equal endpoints gives that endpoint |
| Dxt.FourColours | contrib/PicoDDS/decompress.h:203-210 | the four-colour palette keeps both endpoints and the old alphas of entries 2 and 3 |
| Dxt.ThreeColours | contrib/PicoDDS/decompress.h:429-437 | the three-colour palette keeps both endpoints, makes entry 3 transparent, and gives it the colour the four-colour branch would |
| Dxt.Dxt1Step | contrib/PicoDDS/decompress.h:398-438 | entries 0-2 keep their alpha; entry 3 is opaque when colour0 > colour1 and transparent otherwise |
| Dxt.Dxt1Palette | contrib/PicoDDS/decompress.h:391-438 | the DXT1 palette of a block has opaque entries 0-2 |
| Dxt.Dxt1StepForgetsHistory | contrib/PicoDDS/decompress.h:391-438 | once entries 0-2 are opaque, the palette a block yields does not depend on the previous block |
| Dxt.ColourStep | contrib/PicoDDS/decompress.h:194-210 | the DXT3/5 colour step leaves every alpha unchanged |
| Dxt.ColourStepForgetsHistory | contrib/PicoDDS/decompress.h:194-210 | the red, green and blue of every palette entry depend only on the block |
| Dxt.Selector | contrib/PicoDDS/decompress.h:216 | a texel's selector is a 2-bit index |
| Dxt.Word32 | contrib/PicoDDS/decompress.h:195 | the little-endian bitmask fits in 32 bits |
| Dxt.Nibble | contrib/PicoDDS/decompress.h:233-234 | the 4-bit alpha is replicated into both nibbles |
| Dxt.NibbleEnds | contrib/PicoDDS/decompress.h:233-234 | nibble 0 expands to 0 and nibble 15 to 255 |
| Dxt.Dxt5Alphas | contrib/PicoDDS/decompress.h:320-338 | entries 0 and 1 are the endpoints; with a0 > a1 entry 3 keeps its old value; otherwise entries 6 and 7 are 0 and 255 |
| Dxt.Sevenths | contrib/PicoDDS/decompress.h:323-327 | each 8-entry interpolant lies between the endpoints |
| Dxt.Fifths | contrib/PicoDDS/decompress.h:332-335 | each 6-entry interpolant lies between the endpoints |
| Dxt.Dxt5AlphasBetweenEndpoints | contrib/PicoDDS/decompress.h:320-338 | the computed interpolants run monotonically from a0 to a1 |
| Dxt.AlphaCode | contrib/PicoDDS/decompress.h:345-367 | a texel's alpha code is a 3-bit index |
| DxtDecompress.DecompressDxt1 | contrib/PicoDDS/decompress.h:379-459 | fails without data and changes nothing; otherwise every byte is Decoded for DXT1 |
| DxtDecompress.DecompressDxt3 | contrib/PicoDDS/decompress.h:176-245 | the same for DXT3 |
| DxtDecompress.DecompressDxt5 | contrib/PicoDDS/decompress.h:260-375 | the same for DXT5, starting from the given alphas array |
| DxtDecompress.DecompressDxt2 | contrib/PicoDDS/decompress.h:247-256 | DXT3 decoding followed by the premultiplied-alpha correction |
| DxtDecompress.DecompressDxt4 | contrib/PicoDDS/decompress.h:461-470 | DXT5 decoding and the correction are done, and the result is still reported as failure |
| DxtDecompress.CorrectStep | contrib/PicoDDS/decompress.h:129-135 | the loop invariant of CorrectPreMult: one more pixel is corrected and the rest are untouched |
| DxtDecompress.CorrectPreMult | contrib/PicoDDS/decompress.h:125-138 | the buffer becomes PremultCorrected of its old contents |
| DxtDecompress.PremultKeepsAlpha | contrib/PicoDDS/decompress.h:129-135 | the correction never changes an alpha byte or any channel of a fully transparent pixel |
| DxtDecompress.UnmultiplyBelowAlpha | contrib/PicoDDS/decompress.h:131-133 | for a channel below alpha the result is the floor of c*256/a, and at least c |
| DxtDecompress.UnmultiplyFullChannelWraps | contrib/PicoDDS/decompress.h:131 | a channel equal to its alpha wraps to 0 in the byte store |
| DxtDecompress.UnmultiplyOpaque | contrib/PicoDDS/decompress.h:131 | at alpha 255 a channel is kept, except that 255 becomes 0 |
| DxtDecompress.TexelValueOfBlock | contrib/PicoDDS/decompress.h:188-224 | each texel's value comes from its own block, its position in the block and the alphas carried to that block |
| DxtDecompress.Dxt1AlphaOpaqueOrClear | contrib/PicoDDS/decompress.h:391-450 | DXT1 alpha is 0 or 255, and 0 exactly for selector 3 in a three-colour block |
| DxtDecompress.Dxt3AlphaReplicatesNibble | contrib/PicoDDS/decompress.h:228-238 | DXT3 alpha is a nibble replicated into both halves, a multiple of 17 |
| DxtDecompress.Dxt5AlphaHistory | contrib/PicoDDS/decompress.h:320-328 | DXT5 alpha depends on the previous blocks only for code 3 with a0 > a1, and then it is the stale alphas[3] |
| DxtDecompress.Dxt5AlphasOnlyEntry3Remembers | contrib/PicoDDS/decompress.h:320-338 | of the alpha palette, only entry 3 with a0 > a1 depends on the previous palette |
| DxtDecompress.Dxt5AlphaEndpoints | contrib/PicoDDS/decompress.h:278-279 | codes 0 and 1 give the block's two alpha endpoints |
| DxtDecompress.Dxt3Dxt5ColoursAgree | contrib/PicoDDS/decompress.h:194-224 | DXT3 and DXT5 decode the colour channels of a block identically |
| DxtImage.Owner | contrib/PicoDDS/decompress.h:220 | a byte's owner is a texel inside the image whose offset plus channel is that byte |
| DxtImage.OwnerOfTexel | contrib/PicoDDS/decompress.h:219-220 | every texel's byte lies in the buffer and is owned by that texel alone |
| DxtImage.Image.constructor | contrib/PicoDDS/decompress.h:60-70 | the image has the given shape and buffer |
| DxtImage.BlockOfTexelBound | contrib/PicoDDS/decompress.h:189-197 | every texel's block is one of the image's blocks |
| DxtImage.PaintStep | contrib/PicoDDS/decompress.h:219-224 | painting one more texel of a block extends the painted prefix |
| DxtImage.SetChannel | contrib/PicoDDS/decompress.h:220-223 | exactly one channel byte of the texel is set |
| DxtImage.WritePixel | contrib/PicoDDS/decompress.h:446-450 | the first three or four channels of the pixel are set from the colour, and nothing else changes |
| DxtImage.PaintTexel | contrib/PicoDDS/decompress.h:214-225 | the clipped write of one block texel, when it lies inside the image |
| DxtImage.WriteColours | contrib/PicoDDS/decompress.h:213-226 | all 16 texels of a block get their palette colour, clipped to the image |
| DxtImage.WriteDxt3Alpha | contrib/PicoDDS/decompress.h:228-238 | all 16 alpha bytes of a block get their expanded nibble |
| DxtImage.WriteDxt5Alpha | contrib/PicoDDS/decompress.h:343-369 | all 16 alpha bytes of a block get their palette entry |
| DxtImage.Dxt5ValueAt | contrib/PicoDDS/decompress.h:345-353 | the alpha of a texel is the palette entry at its 3-bit field of the 24-bit half-mask |
| DxtImage.WriteAlphaRows | contrib/PicoDDS/decompress.h:345-355 | one 24-bit half-mask writes two rows of alphas |
| DxtImage.Dxt1BlockValues | contrib/PicoDDS/decompress.h:440-453 | the DXT1 writes produce that block's values |
| DxtImage.SplitBlockValues | contrib/PicoDDS/decompress.h:302-369 | a DXT3/5 block's value is the colour pass's for channels 0-2 and the alpha pass's for channel 3 |
| DxtImage.DecodeBlock | contrib/PicoDDS/decompress.h:397-453 | one block is painted with its values, and the carried palette and alphas are updated as the source does |
| DxtImage.DecodeAlphaBlock | contrib/PicoDDS/decompress.h:191-238 | the same for DXT3/5 blocks |
| DxtImage.TexelOfBlock | contrib/PicoDDS/decompress.h:189-224 | a texel inside the block at (x, y, z) has that block's value |
| DxtImage.DecodedStepTexel | contrib/PicoDDS/decompress.h:191-239 | one block step moves the per-texel invariant forward |
| DxtImage.DecodedStep | contrib/PicoDDS/decompress.h:191-239 | after painting a block, the decoded prefix includes it |
| DxtImage.RowDone | contrib/PicoDDS/decompress.h:191 | a finished row of blocks moves on to the next row |
| DxtImage.PlaneDone | contrib/PicoDDS/decompress.h:190 | a finished plane moves on to the next plane |
| DxtImage.AllDone | contrib/PicoDDS/decompress.h:189 | after the last plane the buffer is Decoded |
| DxtImage.DecodeBlocks | contrib/PicoDDS/decompress.h:188-242 | the three nested loops leave the buffer equal to Decoded |
| DxtImage.DecodePlane | contrib/PicoDDS/decompress.h:189-242 | one plane's loops extend the decoded prefix by the plane |
| DxtImage.AlphasStep | contrib/PicoDDS/decompress.h:278-279 | the carried DXT5 alphas after block n are the palette of block n from the alphas before it |
| DxtImage.DecodeRow | contrib/PicoDDS/decompress.h:191-240 | one row's loop extends the decoded prefix by the row |
| CitySpot.ByteInBuffer | src/CitySpotGenerator.h:90-92 | every cell's byte lies in the buffer |
| CitySpot.CellsDistinct | src/CitySpotGenerator.h:90-92 | two cells share byte and bit exactly when they are the same cell |
| CitySpot.MaskBits | src/CitySpotGenerator.h:91-93 | after or-ing a mask, bit b is set exactly when it was set or is the or-ed bit |
| CitySpot.PutPoint | src/CitySpotGenerator.h:88-94 | put_point leaves the grid equal to WithPoint |
| CitySpot.CheckAfterPut | src/CitySpotGenerator.h:88-103 | after put_point, check_point is true exactly at the put cell and where it was true before |
| CitySpot.CellAfterPut | src/CitySpotGenerator.h:88-103 | the same in terms of byte index and bit for cells inside the grid |
| CitySpot.PutPointSetsOneBit | src/CitySpotGenerator.h:88-94 | put_point sets one bit and changes no other bit of the buffer |
| CitySpot.PutPointIdempotent | src/CitySpotGenerator.h:93 | putting a point twice is putting it once |
| CitySpot.PutMarks | src/CitySpotGenerator.h:88-94 | the set of marked cells gains exactly the put cell |
| CitySpot.WithPointGrows | src/CitySpotGenerator.h:93 | put_point never clears a bit |
| CitySpot.GrowsKeepsMarks | src/CitySpotGenerator.h:96-103 | a marked cell stays marked as bits are only added |
| CitySpot.Clear | src/CitySpotGenerator.h:201 | the memset zeroes the first count bytes |
| CitySpot.ClearedIsEmpty | src/CitySpotGenerator.h:201 | after the memset no cell is marked |
| CitySpot.PutAllMarks | src/CitySpotGenerator.h:222-232 | putting a list of points marks exactly those points in addition |
| CitySpot.PutAllGrows | src/CitySpotGenerator.h:215-232 | putting points never clears a bit |
| CitySpot.NeighbourOfDelta | src/CitySpotGenerator.h:243 | each of the four deltas yields a 4-neighbour |
| CitySpot.Push | src/CitySpotGenerator.h:247-249 | pushing a clear neighbour keeps the fill invariant and strictly shrinks the unmarked set |
| CitySpot.Visit | src/CitySpotGenerator.h:245-250 | checking one neighbour keeps the invariant, leaves it marked, and only adds bits |
| CitySpot.Start | src/CitySpotGenerator.h:238-239 | marking and pushing the centre establishes the invariant |
| CitySpot.Pop | src/CitySpotGenerator.h:241-242 | popping keeps the invariant and the popped cell was pushed |
| CitySpot.Settle | src/CitySpotGenerator.h:244-251 | once all four neighbours are set, the popped cell is closed |
| CitySpot.VisitNeighbours | src/CitySpotGenerator.h:243-251 | the delta loop closes the popped cell and decreases the termination measure |
| CitySpot.Fill | src/CitySpotGenerator.h:236-252 | the fill sets exactly the pushed cells, which were clear and linked to the centre, and leaves every pushed cell closed |
| CitySpot.PutPoints | src/CitySpotGenerator.h:222-232 | drawing the contour leaves the grid equal to PutAll |
| CitySpot.GenerateBlob | src/CitySpotGenerator.h:198-253 | the grid is cleared, the contour drawn and then filled, with the Fill guarantees |
| CitySpot.BlobMarks | src/CitySpotGenerator.h:201-252 | the marked cells of the blob are exactly the contour and the pushed cells |
| CitySpot.Done | src/CitySpotGenerator.h:240 | an empty stack means every pushed cell is closed |
| CitySpot.SetCellWasPushed | src/CitySpotGenerator.h:247-249 | a cell clear before the fill and set after it was pushed |
| CitySpot.FillReachesComponent | src/CitySpotGenerator.h:236-252 | every cell reachable from the centre through clear 4-neighbours ends up pushed |
| CitySpot.PushedWasClear | src/CitySpotGenerator.h:247-249 | a cell still clear during the fill was clear initially and has not been pushed |

## Left out

- Floating-point geometry is symbolic. Renormalize, translations, rotations and
  ClosestPointOnLine appear as uninterpreted Transform terms built by total functions,
  and `radiusSqr` is the tag's squared scale taken as given.
- The blob's contour geometry is not modelled: random radial node placement, noise,
  pseudo_dist, the spline and lineBetween are float and RNG code.
  `CitySpot.GenerateBlob` takes the resulting list of contour cells as a parameter.
- Loading the station JSON in the constructor is not modelled, and neither are Init,
  RandomStationType, FindByName, DockStageName or the enum's string table. They are file
  and registry I/O. The accessors for fields outside routes and bays (model name,
  angular velocity, parking distances) are left out with them.
- Log output (`Output`) is not modelled.
- SpaceStationTypes.SortByName: the model sorts stably, so pads with equal names keep
  their model order and are numbered in that order. `std::sort` does not promise this
  order, so for duplicate pad names the source's numbering is one of several possible.
  Sortedness and the permutation property are proved; the order among equal names is
  the model's choice.
- The `loc_%4s_p%d_s%d_%d_b%d` format is not given a reading lemma of its own. Its `%d`
  fields follow ScanDecimalReads, and `LocatorSpec` is stated on the fields Scan returns.
- TagGrammar.ScanDecimal: the `%d` conversion reads an unbounded integer. The overflow
  of a C `int` is not modelled.
- The model is exact for a layout whose offsets fit in 32 bits. Wrap-around of
  `y * pitch`, `z * SizeOfPlane` and the other `ILuint` offsets is not modelled:
  `ValidLayout` and `Fits` require the buffer to hold the image.
- The inline-assembly and big-endian variants of iSwapUInt and iSwapUShort are not
  modelled, only their portable branches.
- Arrays the source leaves uninitialised are parameters of the model, so every result is
  stated for any initial contents: the DXT5 `alphas` array of DecompressDxt5 and
  DecompressDxt4, and the alpha of palette entries 2 and 3.
- The DXT5 guard at decompress.h:276-277 compares a counter that the loop condition
  already bounds. It cannot fire, so it has no counterpart.
- DxtDecompress.CorrectPreMult requires a buffer whose length is a multiple of 4,
  because the source reads the alpha byte of a partial last pixel out of bounds.
  DxtDecompress.DecompressDxt2 and DxtDecompress.DecompressDxt4 inherit that requirement.
- The source calls `back()` on an empty departure vector, which is undefined behaviour.
  The model reports the typed error EmptyDeparture there, so an empty departure route
  never becomes a bay.
- The source's `assert` and `PiVerify` checks are modelled with their debug-build meaning:
  a failure stops the setup with a typed SetupError. A release build would carry on with
  the bad state, and that is not modelled.
- SpaceStationTypes.SpaceStationType.AddModernBays: after a failure the contract does not
  say which bays were already stored, because earlier pads have been written by then.
- SpaceStationTypes.SpaceStationType.AddLegacyBays: after a failure the contract does not
  say which bays were already stored, because earlier locators have been applied by then.
- SpaceStationTypes.SpaceStationType.AddPadBays: after a failure of AddModernBays the
  contract does not say which bays were already stored.
- SpaceStationTypes.SpaceStationType.AddLegacyPath: after a failure of AddLegacyBays the
  contract does not say which bays were already stored.
- SpaceStationTypes.SpaceStationType.OnSetupComplete: after a failure the contract does not
  say which bays were already stored, for the reasons above.
- Strings are sequences of characters without an embedded NUL. C-string truncation at a
  NUL inside a tag name is not modelled.
- The `Command` records of DockOperations.h are data only: nothing in the core builds or
  reads them.

## Findings

| source | as written | input that shows it | evidently intended | confidence | as-written member | corrected member |
|---|---|---|---|---|---|---|
| src/SpaceStationType.cpp:240-252 | with an empty waypoint registry the inner search never runs, so the departure walk neither advances nor reports the missing link, and the loop never ends | a `pad_` tag with an out link and no `wp_` tags | report the out link as dangling | not executed | Routes.WalkStepAsWritten, Routes.EmptyRegistryDepartureStalls | Routes.Chain, Routes.ChainErrors |
| src/SpaceStationType.cpp:124 | `sscanf` with `wp_%s` and no field width copies the whole name into a 16-byte buffer | the tag `wp_approach-outer-1` (a 16-character name) | refuse names that do not fit the buffer | not executed | TagGrammar.WaypointNameOverflows | TagGrammar.WaypointNameTooLong |
| src/SpaceStationType.cpp:100 | `strcpy(wp.out, section + 1)` copies the whole out name of an `_<out>` section into a 16-byte buffer | the section `_approach-outer-1` (a 16-character out name) | refuse names that do not fit the buffer | not executed | TagGrammar.OutSectionOverflows | TagGrammar.OutSectionTooLong |
| src/SpaceStationType.cpp:103 | `sscanf` with `%[^_]_%[^_]` and no field widths copies either link name whole into a 16-byte buffer | the section `approach-outer-1_x` (a 16-character in link) | refuse names that do not fit the buffer | not executed | TagGrammar.LinkNameOverflows | TagGrammar.LinkNameTooLong |
| src/SpaceStationType.cpp:138 | `sscanf` with `pad_%[^_]_s%d_%d` and no field width copies the whole pad name into a 16-byte buffer | the tag `pad_approach-outer-1_s0_500` (a 16-character name) | refuse names that do not fit the buffer | not executed | TagGrammar.PadNameOverflows | Bays.PadNameTooLong |
