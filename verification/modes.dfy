/** The four modes, the persisted record and the restart rules: the transition table as functions, and the process as a
    step system that can crash between any two steps. */
module Modes {
  import opened Frames

  datatype Mode = Manual | Mapping | Autonomy | Pause

  datatype Transition = TR01 | TR02 | TR03 | TR04 | TR05 | TR06 | TR07 | TR08 | TR10 | TR11 | TR12

  /** The speed limit application states. */
  datatype Speed = NotLoaded | OutsideMask | OutsideBand | Applied | UnknownSpeed

  datatype Stop =
    | NoStop | HumanStop | PlanFailure | NodeFailure | GoalReached | EstimatorUnavailable | Blocked | ControllerFailure
    | Nav2Tf | Nav2NoCode | Nav2Other

  datatype Progress = Progress(runId: nat, remaining: int, section: int, speed: Speed, processing: string)

  datatype ModeState = ModeState(mode: Mode, previous: Option<Mode>, human: bool, poseRequired: bool, stop: Stop,
                                 progress: Progress, revision: int)

  /** The persisted record. Run 0 is the empty run id. */
  datatype Record = Record(mode: Mode, human: bool, runId: nat, revision: int)

  const NO_PROGRESS := Progress(0, 0, -1, UnknownSpeed, "idle")

  function DecideBoot(record: Option<Record>): (Transition, ModeState) {
    match record
    case None => (TR01, ModeState(Manual, None, false, false, NoStop, NO_PROGRESS, 1))
    case Some(r) =>
      if r.mode == Manual then (TR01, ModeState(Manual, Some(Manual), r.human, false, NoStop, NO_PROGRESS, r.revision + 1))
      else (TR02, ModeState(Pause, Some(r.mode), r.human, true, NoStop, NO_PROGRESS.(runId := r.runId), r.revision + 1))
  }

  function RecordOf(s: ModeState): Record {
    Record(s.mode, s.human, s.progress.runId, s.revision)
  }

  datatype HumanEvent = StartMapping | EndMapping | StartAutonomy | PauseDriving | Resume | EndAutonomy

  /** The (from, to, transition) rows of one event. */
  function Rows(e: HumanEvent): seq<(Mode, Mode, Transition)> {
    match e
    case StartMapping => [(Manual, Mapping, TR03)]
    case EndMapping => [(Mapping, Manual, TR04)]
    case StartAutonomy => [(Manual, Autonomy, TR05)]
    case PauseDriving => [(Autonomy, Pause, TR06)]
    case Resume => [(Pause, Autonomy, TR10)]
    case EndAutonomy => [(Autonomy, Manual, TR11), (Pause, Manual, TR12)]
  }

  function Match(rows: seq<(Mode, Mode, Transition)>, mode: Mode): Option<(Mode, Mode, Transition)> {
    if rows == [] then None else if rows[0].0 == mode then Some(rows[0]) else Match(rows[1..], mode)
  }

  datatype Answer = Accepted(tid: Transition, state: ModeState) | WrongMode(tid: Transition) | PoseRequired | NotImplemented(tid: Transition)

  function RequestTransition(e: HumanEvent, s: ModeState, implemented: set<Transition>): Answer {
    match Match(Rows(e), s.mode)
    case None => WrongMode(Rows(e)[0].2)
    case Some(row) =>
      if row.2 == TR10 && s.poseRequired then PoseRequired
      else if row.2 !in implemented then NotImplemented(row.2)
      else
        var moved := s.(mode := row.1, previous := Some(row.0), revision := s.revision + 1);
        var cleared := if row.1 == Mapping || row.1 == Autonomy then moved.(stop := NoStop) else moved;
        Accepted(row.2, AfterEvent(e, cleared))
  }

  /** The same table, event by mode: nothing else is ever accepted. */
  function Table(e: HumanEvent, mode: Mode): Option<(Mode, Transition)> {
    match (e, mode)
    case (StartMapping, Manual) => Some((Mapping, TR03))
    case (EndMapping, Mapping) => Some((Manual, TR04))
    case (StartAutonomy, Manual) => Some((Autonomy, TR05))
    case (PauseDriving, Autonomy) => Some((Pause, TR06))
    case (Resume, Pause) => Some((Autonomy, TR10))
    case (EndAutonomy, Autonomy) => Some((Manual, TR11))
    case (EndAutonomy, Pause) => Some((Manual, TR12))
    case _ => None
  }

  lemma MatchIsTable(e: HumanEvent, mode: Mode)
    ensures var m := Match(Rows(e), mode);
      if m.None? then Table(e, mode) == None else m.value.0 == mode && Table(e, mode) == Some((m.value.1, m.value.2))
  {
    var rows := Rows(e);
    if rows[0].0 != mode && e == EndAutonomy {
      assert rows[1..] == [(Pause, Manual, TR12)];
      assert Match(rows[1..], mode) == if mode == Pause then Some((Pause, Manual, TR12)) else None;
    }
  }

  function AfterEvent(e: HumanEvent, s: ModeState): ModeState {
    match e
    case PauseDriving => s.(human := true, stop := HumanStop)
    case StartAutonomy => s.(human := false, stop := NoStop)
    case Resume => s.(human := false, stop := NoStop)
    case EndAutonomy => s.(human := true, poseRequired := false, progress := s.progress.(runId := 0), stop := HumanStop)
    case _ => s
  }

  function AutomaticPause(s: ModeState, tid: Transition, stop: Stop, remaining: int): Option<ModeState> {
    if s.mode != Autonomy || (tid != TR07 && tid != TR08) then None
    else Some(s.(mode := Pause, previous := Some(Autonomy), stop := stop,
                 progress := s.progress.(remaining := remaining), revision := s.revision + 1))
  }

  // ----- the process with its record

  /** What every request gives: refused outside the table, or for a missing initial pose; otherwise the mode of the table, one
      revision more, and the flag, the stop reason, the pose and the run as the event says. */
  lemma RequestMeans(e: HumanEvent, s: ModeState)
    ensures var a, stops := RequestTransition(e, s, IMPLEMENTED), e == PauseDriving || e == EndAutonomy;
      match Table(e, s.mode)
      case None => a.WrongMode?
      case Some((mode, tid)) =>
        if e == Resume && s.poseRequired then a == PoseRequired
        else
          a == Accepted(tid, ModeState(mode, Some(s.mode),
                                       stops || (s.human && e != StartAutonomy && e != Resume),
                                       s.poseRequired && e != EndAutonomy,
                                       if stops then HumanStop else if e == EndMapping then s.stop else NoStop,
                                       if e == EndAutonomy then s.progress.(runId := 0) else s.progress,
                                       s.revision + 1))
  {
    MatchIsTable(e, s.mode);
    hide Match, Rows;
  }

  const IMPLEMENTED := {TR03, TR04, TR05, TR06, TR10, TR11, TR12}

  /** Where _set_state (or the boot) is: nothing pending, the record still to be saved, the state still to be published. */
  datatype Phase = Idle | ToSave | ToPublish

  /** memory is None while the process is down. */
  datatype System = System(memory: Option<ModeState>, disk: Option<Record>, phase: Phase, published: seq<ModeState>)

  datatype Event =
    | Boot
    | Request(event: HumanEvent, performed: bool, runId: nat, waypoints: nat)
    | Automatic(tid: Transition, stop: Stop, remaining: int)
    | Update(progress: Progress)
    | Save
    | Publish
    | Crash

  /** What the accepted transition's own actions add to the new state. */
  function Filled(tid: Transition, s: ModeState, runId: nat, waypoints: nat): ModeState {
    match tid
    case TR05 => s.(poseRequired := false,
                    progress := s.progress.(runId := runId, remaining := waypoints, section := 0, speed := NotLoaded))
    case TR10 => s.(progress := s.progress.(speed := UnknownSpeed))
    case _ => s
  }

  /** The request is accepted: by the table, and its actions were performed. */
  predicate Takes(sys: System, e: Event) {
    && e.Request? && e.performed && sys.memory.Some? && sys.phase == Idle
    && RequestTransition(e.event, sys.memory.value, IMPLEMENTED).Accepted?
  }

  function Next(sys: System, e: Event): System {
    match e
    case Boot =>
      if sys.memory.Some? then sys
      else sys.(memory := Some(DecideBoot(sys.disk).1), phase := ToSave)
    case Request(event, _, runId, waypoints) =>
      if !Takes(sys, e) then sys
      else
        var a := RequestTransition(event, sys.memory.value, IMPLEMENTED);
        sys.(memory := Some(Filled(a.tid, a.state, runId, waypoints)), phase := ToSave)
    case Automatic(tid, stop, remaining) =>
      if sys.memory.None? || sys.phase != Idle then sys
      else
        var paused := AutomaticPause(sys.memory.value, tid, stop, remaining);
        if paused.None? then sys else sys.(memory := paused, phase := ToSave)
    case Update(progress) =>
      if sys.memory.None? || sys.phase != Idle then sys
      else
        var s := sys.memory.value.(progress := progress.(runId := sys.memory.value.progress.runId),
                                   revision := sys.memory.value.revision + 1);
        sys.(memory := Some(s), published := sys.published + [s])
    case Save =>
      if sys.memory.None? || sys.phase != ToSave then sys
      else sys.(disk := Some(RecordOf(sys.memory.value)), phase := ToPublish)
    case Publish =>
      if sys.memory.None? || sys.phase != ToPublish then sys
      else sys.(phase := Idle, published := sys.published + [sys.memory.value])
    case Crash => sys.(memory := None, phase := Idle)
  }

  /** The process is down, with any record on the disk. */
  function Down(disk: Option<Record>): System {
    System(None, disk, Idle, [])
  }

  function From(sys: System, events: seq<Event>): System {
    if events == [] then sys else Next(From(sys, events[..|events| - 1]), events[|events| - 1])
  }

  /** Some event of the given kind is accepted on the way. */
  ghost predicate SomeAccepted(sys: System, events: seq<Event>, kind: HumanEvent) {
    exists i :: 0 <= i < |events| && AcceptedAt(sys, events, i, kind)
  }

  ghost predicate AcceptedAt(sys: System, events: seq<Event>, i: nat, kind: HumanEvent)
    requires i < |events|
  {
    events[i].Request? && events[i].event == kind && Takes(From(sys, events[..i]), events[i])
  }

  ghost predicate NoneAccepted(sys: System, events: seq<Event>, kind: HumanEvent) {
    forall i :: 0 <= i < |events| ==> !AcceptedAt(sys, events, i, kind)
  }

  lemma FromTwice(sys: System, x: seq<Event>, y: seq<Event>)
    ensures From(sys, x + y) == From(From(sys, x), y)
    decreases |y|
  {
    if y == [] {
      assert x + y == x;
    } else {
      var n := |y| - 1;
      assert (x + y)[..|x| + n] == x + y[..n];
      FromTwice(sys, x, y[..n]);
    }
  }

  /** Whatever the record says, a boot gives manual or a pause that asks for an initial pose. */
  lemma BootIsManualOrPause(record: Option<Record>)
    ensures var s := DecideBoot(record).1;
      && (s.mode == Manual <==> record.None? || record.value.mode == Manual)
      && (s.mode == Pause <==> record.Some? && record.value.mode != Manual) && (s.poseRequired <==> s.mode == Pause)
      && s.human == (record.Some? && record.value.human) && s.stop == NoStop
      && s.previous == (if record.None? then None else Some(record.value.mode))
      && s.progress == Progress(if s.mode == Pause then record.value.runId else 0, 0, -1, UnknownSpeed, "idle")
      && s.revision == (if record.None? then 1 else record.value.revision + 1)
  {
  }

  /** The process can reach autonomy only through a start. */
  predicate NeedsStart(sys: System) {
    sys.memory.Some? ==> sys.memory.value.mode != Autonomy && (sys.memory.value.mode == Pause ==> sys.memory.value.poseRequired)
  }

  lemma OnlyStartEntersAutonomy(sys: System, e: Event)
    requires NeedsStart(sys) && !(Takes(sys, e) && e.event == StartAutonomy)
    ensures NeedsStart(Next(sys, e))
  {
    if e.Request? && sys.memory.Some? {
      MatchIsTable(e.event, sys.memory.value.mode);
      hide Match, Rows;
    }
  }

  /** The record and the memory both hold a stop that only an end can leave. */
  predicate NeedsEnd(sys: System) {
    && sys.disk.Some? && sys.disk.value.mode != Manual
    && (sys.memory.Some? ==> sys.memory.value.mode == Pause && sys.memory.value.poseRequired)
  }

  lemma OnlyEndLeavesTheStop(sys: System, e: Event)
    requires NeedsEnd(sys) && !(Takes(sys, e) && e.event == EndAutonomy)
    ensures NeedsEnd(Next(sys, e))
  {
    if e.Request? && sys.memory.Some? {
      MatchIsTable(e.event, sys.memory.value.mode);
      hide Match, Rows;
    }
  }

  lemma NoneAcceptedBefore(sys: System, events: seq<Event>, kind: HumanEvent)
    requires events != [] && NoneAccepted(sys, events, kind)
    ensures NoneAccepted(sys, events[..|events| - 1], kind)
    ensures !AcceptedAt(sys, events, |events| - 1, kind)
  {
    var before := events[..|events| - 1];
    forall i | 0 <= i < |before|
      ensures AcceptedAt(sys, before, i, kind) == AcceptedAt(sys, events, i, kind)
    {
      assert events[..i] == before[..i];
    }
  }

  lemma {:induction false} NeedsStartUntilStart(sys: System, events: seq<Event>)
    requires NeedsStart(sys) && NoneAccepted(sys, events, StartAutonomy)
    ensures NeedsStart(From(sys, events))
  {
    if events != [] {
      var n := |events| - 1;
      NoneAcceptedBefore(sys, events, StartAutonomy);
      NeedsStartUntilStart(sys, events[..n]);
      OnlyStartEntersAutonomy(From(sys, events[..n]), events[n]);
      hide NeedsStart, Next;
    }
  }

  lemma {:induction false} NeedsEndUntilEnd(sys: System, events: seq<Event>)
    requires NeedsEnd(sys) && NoneAccepted(sys, events, EndAutonomy)
    ensures NeedsEnd(From(sys, events))
  {
    if events != [] {
      var n := |events| - 1;
      NoneAcceptedBefore(sys, events, EndAutonomy);
      NeedsEndUntilEnd(sys, events[..n]);
      OnlyEndLeavesTheStop(From(sys, events[..n]), events[n]);
      hide NeedsEnd, Next;
    }
  }

  lemma BootNeedsStart(sys: System)
    requires sys.memory.None?
    ensures NeedsStart(Next(sys, Boot)) && NeedsStart(sys)
    ensures Next(sys, Boot).memory.value.mode == Pause ==> NeedsEnd(Next(sys, Boot))
  {
  }

  /** From a boot on, through any number of further crashes and boots, autonomy is reached only by an accepted start. */
  lemma AutonomyNeedsStart(sys: System, events: seq<Event>)
    requires sys.memory.None?
    requires From(sys, events).memory.Some? && From(sys, events).memory.value.mode == Autonomy
    ensures SomeAccepted(sys, events, StartAutonomy)
  {
    BootNeedsStart(sys);
    if !SomeAccepted(sys, events, StartAutonomy) {
      NeedsStartUntilStart(sys, events);
    }
  }

  /** After a boot that gave a pause, whatever crashes follow, autonomy is reached only by an accepted end and, later, an
      accepted start: no resume is accepted in between. */
  lemma BootPauseNeedsEndAndStart(sys: System, events: seq<Event>)
    requires sys.memory.None? && Next(sys, Boot).memory.value.mode == Pause
    requires var end := From(Next(sys, Boot), events); end.memory.Some? && end.memory.value.mode == Autonomy
    ensures exists i, j :: 0 <= i < j < |events| && AcceptedAt(Next(sys, Boot), events, i, EndAutonomy)
                           && AcceptedAt(Next(sys, Boot), events, j, StartAutonomy)
  {
    BootNeedsStart(sys);
    var st := Next(sys, Boot);
    hide Next;
    if NoneAccepted(st, events, EndAutonomy) {
      NeedsEndUntilEnd(st, events);
    } else {
      var i :| 0 <= i < |events| && AcceptedAt(st, events, i, EndAutonomy);
      StartAfterEnd(st, events, i);
    }
  }

  lemma StartAfterEnd(st: System, events: seq<Event>, i: nat)
    requires i < |events| && AcceptedAt(st, events, i, EndAutonomy)
    requires From(st, events).memory.Some? && From(st, events).memory.value.mode == Autonomy
    ensures exists j :: i < j < |events| && AcceptedAt(st, events, j, StartAutonomy)
  {
    hide Next, Takes;
    var head, rest := events[..i + 1], events[i + 1..];
    assert events == head + rest && head[..i] == events[..i];
    FromTwice(st, head, rest);
    var mid := From(st, head);
    assert mid == Next(From(st, events[..i]), events[i]);
    EndGivesManual(From(st, events[..i]), events[i]);
    hide From;
    if NoneAccepted(mid, rest, StartAutonomy) {
      NeedsStartUntilStart(mid, rest);
    } else {
      var k :| 0 <= k < |rest| && AcceptedAt(mid, rest, k, StartAutonomy);
      assert events[..i + 1 + k] == head + rest[..k];
      FromTwice(st, head, rest[..k]);
      assert AcceptedAt(st, events, i + 1 + k, StartAutonomy);
    }
  }

  lemma EndGivesManual(sys: System, e: Event)
    requires Takes(sys, e) && e.event == EndAutonomy
    ensures Next(sys, e).memory.value.mode == Manual && NeedsStart(Next(sys, e))
  {
    if e.Request? && sys.memory.Some? {
      MatchIsTable(e.event, sys.memory.value.mode);
      hide Match, Rows;
    }
  }

  // ----- the human pause / end flag

  predicate FlagHeld(sys: System) {
    sys.disk.Some? && sys.disk.value.human && (sys.memory.Some? ==> sys.memory.value.human)
  }

  lemma OnlyDrivingClearsFlag(sys: System, e: Event)
    requires FlagHeld(sys) && !(Takes(sys, e) && (e.event == StartAutonomy || e.event == Resume))
    ensures FlagHeld(Next(sys, e))
  {
    if e.Request? && sys.memory.Some? {
      MatchIsTable(e.event, sys.memory.value.mode);
      hide Match, Rows;
    }
  }

  /** A persisted human pause or end stays recorded, through any number of crashes, until a start or resume is accepted. */
  lemma {:induction false} FlagStaysUntilDriving(sys: System, events: seq<Event>)
    requires FlagHeld(sys) && NoneAccepted(sys, events, StartAutonomy) && NoneAccepted(sys, events, Resume)
    ensures FlagHeld(From(sys, events))
  {
    if events != [] {
      var n := |events| - 1;
      NoneAcceptedBefore(sys, events, StartAutonomy);
      NoneAcceptedBefore(sys, events, Resume);
      FlagStaysUntilDriving(sys, events[..n]);
      OnlyDrivingClearsFlag(From(sys, events[..n]), events[n]);
      hide FlagHeld, Next;
    }
  }

  /** An accepted human pause or end is on the disk exactly when its record was saved before the crash: otherwise the crash
      leaves the record of the state before the operation. */
  lemma HumanStopIsKept(sys: System, e: Event)
    requires Takes(sys, e) && (e.event == PauseDriving || e.event == EndAutonomy)
    ensures FlagHeld(Next(Next(sys, e), Save)) && FlagHeld(Next(Next(Next(sys, e), Save), Crash))
    ensures Next(Next(sys, e), Crash).disk == sys.disk
  {
    if e.Request? && sys.memory.Some? {
      MatchIsTable(e.event, sys.memory.value.mode);
      hide Match, Rows;
    }
  }

  // ----- the run id

  /** Record and memory both belong to the run. */
  predicate RunHeld(sys: System, id: nat) {
    && sys.disk.Some? && sys.disk.value.mode != Manual && sys.disk.value.runId == id
    && (sys.memory.Some? ==> sys.memory.value.mode != Manual && sys.memory.value.progress.runId == id)
  }

  lemma OnlyEndDropsRun(sys: System, e: Event, id: nat)
    requires RunHeld(sys, id) && !(Takes(sys, e) && (e.event == EndAutonomy || e.event == EndMapping))
    ensures RunHeld(Next(sys, e), id)
  {
    if e.Request? && sys.memory.Some? {
      MatchIsTable(e.event, sys.memory.value.mode);
      hide Match, Rows;
    }
  }

  /** A saved run keeps its id through pauses, resumes, crashes and boots, until an end is accepted. */
  lemma {:induction false} RunStaysUntilEnd(sys: System, events: seq<Event>, id: nat)
    requires RunHeld(sys, id) && NoneAccepted(sys, events, EndAutonomy) && NoneAccepted(sys, events, EndMapping)
    ensures RunHeld(From(sys, events), id)
  {
    if events != [] {
      var n := |events| - 1;
      NoneAcceptedBefore(sys, events, EndAutonomy);
      NoneAcceptedBefore(sys, events, EndMapping);
      RunStaysUntilEnd(sys, events[..n], id);
      OnlyEndDropsRun(From(sys, events[..n]), events[n], id);
      hide RunHeld, Next;
    }
  }

  // ----- revisions

  /** Everything published so far is not newer than the record. */
  predicate PublishedUpTo(sys: System, r: int) {
    forall i :: 0 <= i < |sys.published| ==> sys.published[i].revision <= r
  }

  /** The revision a boot continues. */
  function RecordedRevision(sys: System): int {
    if sys.disk.None? then 0 else sys.disk.value.revision
  }

  lemma BootContinues(sys: System)
    ensures DecideBoot(sys.disk).1.revision == RecordedRevision(sys) + 1
  {
  }

  predicate Saves(sys: System, e: Event) {
    e.Save? && sys.memory.Some? && sys.phase == ToSave
  }

  predicate Updates(sys: System, e: Event) {
    e.Update? && sys.memory.Some? && sys.phase == Idle
  }

  /** How many field updates were published since the last save. */
  function UnsavedUpdates(sys: System, events: seq<Event>): nat {
    if events == [] then 0
    else
      var n := |events| - 1;
      var before, u := From(sys, events[..n]), UnsavedUpdates(sys, events[..n]);
      if Saves(before, events[n]) then 0 else if Updates(before, events[n]) then u + 1 else u
  }

  /** All that a step does to revisions: an accepted request or an automatic pause adds one to save, an update one that is
      published at once, a save records, a publication publishes, a boot continues the record. */
  predicate RevisionStep(a: System, b: System, e: Event) {
    var r := RecordedRevision(a);
    if Saves(a, e) then
      RecordedRevision(b) == a.memory.value.revision && b.memory == a.memory && b.phase == ToPublish && b.published == a.published
    else
      && RecordedRevision(b) == r
      && if Updates(a, e) then
           b.memory.Some? && b.memory.value.revision == a.memory.value.revision + 1 && b.phase == Idle
           && b.published == a.published + [b.memory.value]
         else if e.Publish? && a.memory.Some? && a.phase == ToPublish then
           b.memory == a.memory && b.phase == Idle && b.published == a.published + [a.memory.value]
         else
           b.published == a.published
           && (b == a || b.memory.None? || (a.memory.None? && b.memory.value.revision == r + 1 && b.phase == ToSave)
               || (a.memory.Some? && a.phase == Idle && b.memory.value.revision == a.memory.value.revision + 1 && b.phase == ToSave))
           && (b.memory.None? && a.memory.Some? ==> e.Crash?)
  }

  lemma RevisionStepOf(sys: System, e: Event)
    ensures RevisionStep(sys, Next(sys, e), e)
  {
    BootContinues(sys);
    hide DecideBoot, RequestTransition;
    if Takes(sys, e) {
      RequestAddsOne(e.event, sys.memory.value);
    }
  }

  lemma RequestAddsOne(e: HumanEvent, s: ModeState)
    requires RequestTransition(e, s, IMPLEMENTED).Accepted?
    ensures RequestTransition(e, s, IMPLEMENTED).state.revision == s.revision + 1
  {
    hide Match, Rows;
  }

  /** With u unsaved updates, none of them lost in a crash yet. */
  ghost predicate Revisions(sys: System, u: nat) {
    var r := RecordedRevision(sys);
    && PublishedUpTo(sys, r + u)
    && (u > 0 ==> sys.published != [] && sys.published[|sys.published| - 1].revision == r + u)
    && (sys.memory.None? ==> u == 0)
    && (sys.memory.Some? ==> sys.memory.value.revision == r + u + if sys.phase == ToSave then 1 else 0)
    && (sys.memory.Some? && sys.phase == ToPublish ==> u == 0)
  }

  lemma RevisionsStep(sys: System, e: Event, u: nat)
    requires Revisions(sys, u) && (e.Crash? ==> u == 0)
    ensures Revisions(Next(sys, e), if Saves(sys, e) then 0 else if Updates(sys, e) then u + 1 else u)
  {
    hide Next, RecordedRevision;
    RevisionStepOf(sys, e);
  }

  /** Before the i-th event, no field update is unsaved. */
  predicate SavedAt(disk: Option<Record>, events: seq<Event>, i: nat)
    requires i < |events|
  {
    UnsavedUpdates(Down(disk), events[..i]) == 0
  }

  /** If the i-th event is followed by a boot, the boot's revision is newer than everything published. */
  predicate NewAt(disk: Option<Record>, events: seq<Event>, i: nat)
    requires i < |events|
  {
    var down := From(Down(disk), events[..i + 1]);
    PublishedUpTo(down, DecideBoot(down.disk).1.revision - 1)
  }

  ghost predicate AllSaved(disk: Option<Record>, events: seq<Event>) {
    forall i :: 0 <= i < |events| && events[i].Crash? ==> SavedAt(disk, events, i)
  }

  ghost predicate AllNew(disk: Option<Record>, events: seq<Event>) {
    forall i :: 0 <= i < |events| && events[i].Crash? ==> NewAt(disk, events, i)
  }

  lemma AllOfLonger(disk: Option<Record>, events: seq<Event>)
    requires events != []
    ensures var n := |events| - 1;
      && (AllSaved(disk, events) <==> AllSaved(disk, events[..n]) && (events[n].Crash? ==> SavedAt(disk, events, n)))
      && (AllNew(disk, events) <==> AllNew(disk, events[..n]) && (events[n].Crash? ==> NewAt(disk, events, n)))
  {
    hide SavedAt, NewAt;
    var n := |events| - 1;
    forall i | 0 <= i < n
      ensures SavedAt(disk, events, i) == SavedAt(disk, events[..n], i) && NewAt(disk, events, i) == NewAt(disk, events[..n], i)
    {
      SameBefore(disk, events, i);
    }
  }

  lemma SameBefore(disk: Option<Record>, events: seq<Event>, i: nat)
    requires i < |events| - 1
    ensures SavedAt(disk, events, i) == SavedAt(disk, events[..|events| - 1], i)
    ensures NewAt(disk, events, i) == NewAt(disk, events[..|events| - 1], i)
  {
    var before := events[..|events| - 1];
    assert before[..i] == events[..i] && before[..i + 1] == events[..i + 1];
    hide From, UnsavedUpdates, PublishedUpTo, DecideBoot;
  }

  lemma {:induction false} RevisionsOfRun(disk: Option<Record>, events: seq<Event>)
    requires AllSaved(disk, events)
    ensures Revisions(From(Down(disk), events), UnsavedUpdates(Down(disk), events))
  {
    if events != [] {
      var n := |events| - 1;
      AllOfLonger(disk, events);
      RevisionsOfRun(disk, events[..n]);
      RevisionsStep(From(Down(disk), events[..n]), events[n], UnsavedUpdates(Down(disk), events[..n]));
      hide Revisions, Next, AllSaved, AllNew, NewAt;
    }
  }

  lemma CrashIsNewIff(sys: System, u: nat)
    requires Revisions(sys, u)
    ensures PublishedUpTo(Next(sys, Crash), DecideBoot(Next(sys, Crash).disk).1.revision - 1) <==> u == 0
  {
    BootContinues(sys);
    hide DecideBoot;
  }

  /** A boot continues the revision of the record.  In every run from any record, with any number of crashes, each crash is
      followed by a revision newer than everything published if and only if no crash comes while a field update is unsaved. */
  lemma {:induction false} RestartRevisionIsNewIff(disk: Option<Record>, events: seq<Event>)
    ensures AllNew(disk, events) <==> AllSaved(disk, events)
  {
    if events != [] {
      var n := |events| - 1;
      RestartRevisionIsNewIff(disk, events[..n]);
      AllOfLonger(disk, events);
      if events[n].Crash? && AllSaved(disk, events[..n]) {
        RevisionsOfRun(disk, events[..n]);
        CrashIsNewIff(From(Down(disk), events[..n]), UnsavedUpdates(Down(disk), events[..n]));
        assert events[..n + 1] == events && From(Down(disk), events) == Next(From(Down(disk), events[..n]), Crash);
      }
      hide Revisions, Next, AllSaved, AllNew;
    }
  }

  // ----- one restart among many

  function Larger(a: int, b: int): int {
    if a >= b then a else b
  }

  /** A published update is as far ahead of the record as the memory; a save catches up by what the memory is ahead. */
  function LeadAfter(sys: System, e: Event, lead: nat): nat {
    if sys.memory.None? then lead
    else
      var ahead := sys.memory.value.revision - RecordedRevision(sys);
      if Saves(sys, e) then Larger(lead - ahead, 0) else if Updates(sys, e) then Larger(lead, ahead + 1) else lead
  }

  /** How far the highest published revision is ahead of the record. */
  function Lead(sys: System, events: seq<Event>): nat {
    if events == [] then 0
    else
      var n := |events| - 1;
      LeadAfter(From(sys, events[..n]), events[n], Lead(sys, events[..n]))
  }

  ghost predicate Ahead(sys: System, lead: nat) {
    var r := RecordedRevision(sys);
    && PublishedUpTo(sys, r + lead)
    && (lead > 0 ==> exists i :: 0 <= i < |sys.published| && sys.published[i].revision == r + lead)
    && (sys.memory.Some? ==> match sys.phase
         case Idle => sys.memory.value.revision >= r
         case ToSave => sys.memory.value.revision > r
         case ToPublish => sys.memory.value.revision == r)
  }

  lemma AheadStep(sys: System, e: Event, lead: nat)
    requires Ahead(sys, lead)
    ensures Ahead(Next(sys, e), LeadAfter(sys, e, lead))
  {
    hide Next, RecordedRevision;
    RevisionStepOf(sys, e);
    var n := Next(sys, e);
    assert forall i :: 0 <= i < |sys.published| ==> n.published[i] == sys.published[i];
    if |n.published| > |sys.published| {
      assert n.published[|sys.published|] == n.memory.value;
    }
  }

  lemma {:induction false} AheadOfRun(disk: Option<Record>, events: seq<Event>)
    ensures Ahead(From(Down(disk), events), Lead(Down(disk), events))
  {
    if events != [] {
      var n := |events| - 1;
      AheadOfRun(disk, events[..n]);
      AheadStep(From(Down(disk), events[..n]), events[n], Lead(Down(disk), events[..n]));
      hide Ahead, Next, LeadAfter;
    }
  }

  /** One crash in any run, whatever was lost before: the boot after it is newer than everything published if and only if
      the record has caught up; otherwise as many more revisions as the lead were already published. */
  lemma OneRestartIsNewIff(disk: Option<Record>, events: seq<Event>)
    ensures var down := From(Down(disk), events + [Crash]); var lead := Lead(Down(disk), events);
      && (PublishedUpTo(down, DecideBoot(down.disk).1.revision - 1) <==> lead == 0)
      && PublishedUpTo(down, DecideBoot(down.disk).1.revision - 1 + lead)
  {
    AheadOfRun(disk, events);
    assert (events + [Crash])[..|events|] == events;
    var st := From(Down(disk), events);
    assert From(Down(disk), events + [Crash]) == Next(st, Crash);
    BootContinues(st);
    hide DecideBoot, Lead, From;
  }

  lemma FromThree(sys: System, a: Event, b: Event, c: Event)
    ensures From(sys, [a, b, c]) == Next(Next(Next(sys, a), b), c)
  {
    hide Next;
    assert [a, b, c][..2] == [a, b] && [a, b][..1] == [a];
    assert From(sys, [a]) == Next(From(sys, [a][..0]), a);
  }

  lemma BootCompletes(sys: System)
    requires sys.memory.None?
    ensures var m := DecideBoot(sys.disk).1;
      From(sys, [Boot, Save, Publish]) == System(Some(m), Some(RecordOf(m)), Idle, sys.published + [m])
  {
    FromThree(sys, Boot, Save, Publish);
    hide From, DecideBoot;
  }

  /** The revision published after a restart can be older than one published before it; and a crash with nothing unsaved can
      then be followed by a revision that was published already. */
  lemma RevisionCanGoBack(p: Progress)
    ensures var events := [Boot, Save, Publish] + [Update(p), Update(p), Crash] + [Boot, Save, Publish];
      var r := From(Down(None), events);
      && |r.published| == 4 && r.published[2].revision == 3 && r.published[3].revision == 2
      && UnsavedUpdates(Down(None), events) == 0 && DecideBoot(r.disk).1.revision == 3
  {
    hide From, UnsavedUpdates;
    var s0 := Down(None);
    var s1 := From(s0, [Boot, Save, Publish]);
    BootCompletes(s0);
    var s2 := From(s1, [Update(p), Update(p), Crash]);
    FromThree(s1, Update(p), Update(p), Crash);
    assert s2.disk == s1.disk && s2.memory.None? && |s2.published| == 3 && s2.published[2].revision == 3;
    BootCompletes(s2);
    var six := [Boot, Save, Publish] + [Update(p), Update(p), Crash];
    FromTwice(s0, [Boot, Save, Publish], [Update(p), Update(p), Crash]);
    FromTwice(s0, six, [Boot, Save, Publish]);
    NothingUnsaved(s0, six);
  }

  lemma NothingUnsaved(sys: System, events: seq<Event>)
    requires From(sys, events).memory.None?
    ensures UnsavedUpdates(sys, events + [Boot, Save, Publish]) == 0
  {
    var nine := events + [Boot, Save, Publish];
    assert nine[..|events| + 2] == events + [Boot, Save] && (events + [Boot, Save])[..|events| + 1] == events + [Boot];
    assert (events + [Boot])[..|events|] == events;
    hide DecideBoot;
    assert From(sys, events + [Boot]) == Next(From(sys, events), Boot);
    assert UnsavedUpdates(sys, events + [Boot, Save]) == 0;
    assert UnsavedUpdates(sys, nine) == UnsavedUpdates(sys, events + [Boot, Save]);
  }
}
