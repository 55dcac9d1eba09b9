/**
  The docking stage table (src/SpaceStationType.h, enum class DockStage, and
  the stage predicates of SpaceStationType). The enumerators keep their
  source names; `Ordinal` gives the integer value C++ assigns to each.
*/
module DockStages {
  import opened Wrappers

  datatype DockStage =
    | NONE
    | MANUAL
    | DOCK_STAGES_BEGIN
    | CLEARANCE_GRANTED
    | APPROACH
    | DOCK_ANIMATION_NONE
    | DOCK_ANIMATION_1
    | DOCK_ANIMATION_2
    | DOCK_ANIMATION_3
    | DOCK_ANIMATION_MAX
    | TOUCHDOWN
    | LEVELING
    | REPOSITION
    | JUST_DOCK
    | DOCK_STAGES_END
    | DOCKED
    | UNDOCK_STAGES_BEGIN
    | UNDOCK_BEGIN
    | UNDOCK_ANIMATION_NONE
    | UNDOCK_ANIMATION_1
    | UNDOCK_ANIMATION_2
    | UNDOCK_ANIMATION_3
    | UNDOCK_ANIMATION_MAX
    | UNDOCK_END
    | DEPARTURE
    | LEAVE
    | UNDOCK_STAGES_END

  /** The value of the enumerator: its position in the declaration, from 0. */
  function Ordinal(s: DockStage): nat {
    match s
    case NONE => 0
    case MANUAL => 1
    case DOCK_STAGES_BEGIN => 2
    case CLEARANCE_GRANTED => 3
    case APPROACH => 4
    case DOCK_ANIMATION_NONE => 5
    case DOCK_ANIMATION_1 => 6
    case DOCK_ANIMATION_2 => 7
    case DOCK_ANIMATION_3 => 8
    case DOCK_ANIMATION_MAX => 9
    case TOUCHDOWN => 10
    case LEVELING => 11
    case REPOSITION => 12
    case JUST_DOCK => 13
    case DOCK_STAGES_END => 14
    case DOCKED => 15
    case UNDOCK_STAGES_BEGIN => 16
    case UNDOCK_BEGIN => 17
    case UNDOCK_ANIMATION_NONE => 18
    case UNDOCK_ANIMATION_1 => 19
    case UNDOCK_ANIMATION_2 => 20
    case UNDOCK_ANIMATION_3 => 21
    case UNDOCK_ANIMATION_MAX => 22
    case UNDOCK_END => 23
    case DEPARTURE => 24
    case LEAVE => 25
    case UNDOCK_STAGES_END => 26
  }

  /** `DockStage(n)`: the enumerator whose value is n, if there is one. */
  function FromOrdinal(n: nat): (r: Option<DockStage>)
    ensures r.Some? <==> n <= Ordinal(UNDOCK_STAGES_END)
    ensures r.Some? ==> Ordinal(r.value) == n
  {
    if n < Ordinal(DOCKED) then Some(DockStageBelowDocked(n))
    else if n <= Ordinal(UNDOCK_STAGES_END) then Some(DockStageFromDocked(n))
    else None
  }

  function DockStageBelowDocked(n: nat): (r: DockStage)
    requires n < 15
    ensures Ordinal(r) == n
  {
    if n == 0 then NONE
    else if n == 1 then MANUAL
    else if n == 2 then DOCK_STAGES_BEGIN
    else if n == 3 then CLEARANCE_GRANTED
    else if n == 4 then APPROACH
    else if n == 5 then DOCK_ANIMATION_NONE
    else if n == 6 then DOCK_ANIMATION_1
    else if n == 7 then DOCK_ANIMATION_2
    else if n == 8 then DOCK_ANIMATION_3
    else if n == 9 then DOCK_ANIMATION_MAX
    else if n == 10 then TOUCHDOWN
    else if n == 11 then LEVELING
    else if n == 12 then REPOSITION
    else if n == 13 then JUST_DOCK
    else DOCK_STAGES_END
  }

  function DockStageFromDocked(n: nat): (r: DockStage)
    requires 15 <= n <= 26
    ensures Ordinal(r) == n
  {
    if n == 15 then DOCKED
    else if n == 16 then UNDOCK_STAGES_BEGIN
    else if n == 17 then UNDOCK_BEGIN
    else if n == 18 then UNDOCK_ANIMATION_NONE
    else if n == 19 then UNDOCK_ANIMATION_1
    else if n == 20 then UNDOCK_ANIMATION_2
    else if n == 21 then UNDOCK_ANIMATION_3
    else if n == 22 then UNDOCK_ANIMATION_MAX
    else if n == 23 then UNDOCK_END
    else if n == 24 then DEPARTURE
    else if n == 25 then LEAVE
    else UNDOCK_STAGES_END
  }

  /** Distinct enumerators have distinct values, and DockStage(int(s)) is s. */
  lemma OrdinalRoundTrip(s: DockStage)
    ensures FromOrdinal(Ordinal(s)) == Some(s)
  {
  }

  /** IsDockStage: strictly between DOCK_STAGES_BEGIN and DOCK_STAGES_END. */
  predicate IsDockStage(s: DockStage) {
    Ordinal(s) > Ordinal(DOCK_STAGES_BEGIN) && Ordinal(s) < Ordinal(DOCK_STAGES_END)
  }

  /** IsUndockStage: strictly between UNDOCK_STAGES_BEGIN and UNDOCK_STAGES_END. */
  predicate IsUndockStage(s: DockStage) {
    Ordinal(s) > Ordinal(UNDOCK_STAGES_BEGIN) && Ordinal(s) < Ordinal(UNDOCK_STAGES_END)
  }

  /** NextAnimStage: the enumerator after s (there is none after the last). */
  function NextAnimStage(s: DockStage): (r: DockStage)
    requires s != UNDOCK_STAGES_END
    ensures Ordinal(r) == Ordinal(s) + 1
  {
    match FromOrdinal(Ordinal(s) + 1)
    case Some(t) => t
  }

  /** PivotStage: who controls the ship's position at stage s. */
  function PivotStage(s: DockStage): DockStage {
    match s
    case TOUCHDOWN | JUST_DOCK | LEVELING | REPOSITION => MANUAL
    case CLEARANCE_GRANTED | APPROACH | LEAVE | DEPARTURE => NONE
    case _ => s
  }

  /** The dock stages are exactly CLEARANCE_GRANTED through JUST_DOCK. */
  lemma DockStagesAre(s: DockStage)
    ensures IsDockStage(s) <==>
      s in {CLEARANCE_GRANTED, APPROACH, DOCK_ANIMATION_NONE, DOCK_ANIMATION_1, DOCK_ANIMATION_2,
            DOCK_ANIMATION_3, DOCK_ANIMATION_MAX, TOUCHDOWN, LEVELING, REPOSITION, JUST_DOCK}
  {
  }

  /** The undock stages are exactly UNDOCK_BEGIN through LEAVE. */
  lemma UndockStagesAre(s: DockStage)
    ensures IsUndockStage(s) <==>
      s in {UNDOCK_BEGIN, UNDOCK_ANIMATION_NONE, UNDOCK_ANIMATION_1, UNDOCK_ANIMATION_2,
            UNDOCK_ANIMATION_3, UNDOCK_ANIMATION_MAX, UNDOCK_END, DEPARTURE, LEAVE}
  {
  }

  /** No stage is both; the pivot markers, DOCKED and the four sentinels are neither. */
  lemma DockAndUndockStagesDisjoint(s: DockStage)
    ensures !(IsDockStage(s) && IsUndockStage(s))
    ensures s in {NONE, MANUAL, DOCKED, DOCK_STAGES_BEGIN, DOCK_STAGES_END, UNDOCK_STAGES_BEGIN, UNDOCK_STAGES_END}
      ==> !IsDockStage(s) && !IsUndockStage(s)
  {
  }

  /** Stepping through the dock animation stays inside the dock range until its end. */
  lemma NextAnimStageWithinDock(s: DockStage)
    requires IsDockStage(s) && s != JUST_DOCK
    ensures IsDockStage(NextAnimStage(s))
  {
  }

  /** PivotStage only yields a control marker or a stage it leaves alone, and applying it twice changes nothing more. */
  lemma PivotStageIdempotent(s: DockStage)
    ensures PivotStage(PivotStage(s)) == PivotStage(s)
    ensures PivotStage(s) == MANUAL <==> s in {MANUAL, TOUCHDOWN, JUST_DOCK, LEVELING, REPOSITION}
    ensures PivotStage(s) == NONE <==> s in {NONE, CLEARANCE_GRANTED, APPROACH, LEAVE, DEPARTURE}
    ensures PivotStage(s) != MANUAL && PivotStage(s) != NONE ==> PivotStage(s) == s
  {
  }
}
