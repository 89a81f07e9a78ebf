/** The mode manager while it drives: human requests, start workers that a newer token abandons, Nav2, speed limit, keepout
    and localization callbacks, and the motion_hold that may be released only under all conditions.
    Each callback and each worker stage is one step; a run is any interleaving of them. */
module Hold {
  import opened Frames
  import opened Modes

  /** The hash and size of a keepout mask. */
  datatype MaskId = MaskId(sha: string, width: nat, height: nat)

  datatype Mission = Mission(keepout: MaskId, waypoints: nat)

  datatype MaskState = NotReceived | SameMask | OtherMask

  /** The fields of the autonomy client. */
  datatype Client = Client(token: nat, goal: Option<nat>, nav2: bool, localized: bool, expected: Option<MaskId>,
                           mask: MaskState, info: bool)

  /** The fields of the mode manager beside the published state. */
  datatype Drive = Drive(mission: Option<Mission>, released: bool, goalActive: bool, nextOffset: int)

  datatype Stage = Localizing | SettingParameters | StartingNav2 | SendingGoal | Finishing | Done | Gone

  /** A start worker: its token, the transition that started it, its mission, the stage it will do next, and
      keepout_expected at the moment it was started. */
  datatype Worker = Worker(token: nat, tid: Transition, mission: Mission, stage: Stage, known: Option<MaskId>)

  /** hold is the last published motion_hold, goals numbers the goal handles. */
  datatype State = State(s: ModeState, c: Client, d: Drive, workers: seq<Worker>, goals: nat, hold: bool)

  datatype Outcome = Succeeded | Cancelled | Failed(stop: Stop)

  datatype Event =
    | Human(event: HumanEvent, ok: bool, mission: Mission, runId: nat, localizationNormal: bool)
    | Stage(worker: nat)
    | StageFails(worker: nat, stop: Stop)
    | GoalEnds(handle: nat, outcome: Outcome)
    | Feedback(offset: nat, section: int)
    | SpeedReading(speed: Speed)
    | KeepoutMask(id: MaskId)
    | KeepoutInfo(valid: bool)
    | LocalizationBad
    | CancelGoal            // the job after a pause or an end
    | Nav2Reset(ok: bool)   // the job after an end
    | LocalizationStops     // the job after an end
    | Republish             // the periodic publication

  function HoldOf(st: State): bool {
    !(st.s.mode == Autonomy && st.d.released)
  }

  function Announce(st: State): State {
    st.(hold := HoldOf(st))
  }

  function SetState(st: State, s: ModeState): State {
    Announce(st.(s := s))
  }

  function NewToken(st: State): State {
    st.(c := st.c.(token := st.c.token + 1))
  }

  function Confirmed(c: Client): bool {
    c.mask == SameMask && c.info
  }

  function StartWorker(st: State, tid: Transition, m: Mission): State {
    st.(workers := st.workers + [Worker(st.c.token, tid, m, if tid == TR05 then Localizing else SendingGoal, st.c.expected)])
  }

  /** TR-10's guard. */
  predicate MayResume(st: State, localizationNormal: bool) {
    st.d.mission.Some? && !st.d.goalActive && st.c.goal.None? && st.c.nav2 && localizationNormal
  }

  function Perform(st: State, tid: Transition, s: ModeState, e: Event): State
    requires e.Human?
  {
    match tid
    case TR05 =>
      if !e.ok then st
      else
        var st1 := NewToken(st.(d := st.d.(mission := Some(e.mission), released := false, nextOffset := 0)));
        StartWorker(SetState(st1, Filled(TR05, s, e.runId, e.mission.waypoints)), TR05, e.mission)
    case TR06 => SetState(NewToken(st.(d := st.d.(released := false, goalActive := false))), s)
    case TR10 =>
      if !MayResume(st, e.localizationNormal) then st
      else
        var st1 := NewToken(st.(d := st.d.(released := false)));
        StartWorker(SetState(st1, Filled(TR10, s, 0, 0)), TR10, st.d.mission.value)
    case TR11 => SetState(NewToken(st.(d := st.d.(mission := None, released := false, goalActive := false))), s)
    case TR12 => SetState(NewToken(st.(d := st.d.(mission := None, released := false, goalActive := false))), s)
    case _ => if e.ok then SetState(st, s) else st
  }

  function HumanRequest(st: State, e: Event): State
    requires e.Human?
  {
    var a := RequestTransition(e.event, st.s, IMPLEMENTED);
    if a.Accepted? then Perform(st, a.tid, a.state, e) else st
  }

  function AutoPause(st: State, tid: Transition, stop: Stop, remaining: int): State {
    match AutomaticPause(st.s, tid, stop, remaining)
    case None => st
    case Some(s) => SetState(st.(d := st.d.(released := false, goalActive := false)), s)
  }

  function TryRelease(st: State): State {
    if st.s.mode == Autonomy && st.d.goalActive && !st.d.released && st.s.progress.speed == Applied && Confirmed(st.c)
    then Announce(st.(d := st.d.(released := true)))
    else st
  }

  function SetStage(st: State, i: nat, stage: Stage): State
    requires i < |st.workers|
  {
    st.(workers := st.workers[i := st.workers[i].(stage := stage)])
  }

  /** The next stage of a worker. A worker whose token is no longer the current one gives up at its next stage; only the
      last stage, which runs under the manager's lock, ends without an exception. */
  function WorkerStage(st: State, i: nat): State
    requires i < |st.workers|
  {
    var w := st.workers[i];
    if w.stage == Done || w.stage == Gone then st
    else if w.token != st.c.token then SetStage(st, i, Gone)
    else
      match w.stage
      case Localizing => SetStage(st.(c := st.c.(localized := true)), i, SettingParameters)
      case SettingParameters =>
        SetStage(st.(c := st.c.(expected := Some(w.mission.keepout), mask := NotReceived, info := false)), i, StartingNav2)
      case StartingNav2 => SetStage(st.(c := st.c.(nav2 := true)), i, SendingGoal)
      case SendingGoal => SetStage(st.(c := st.c.(goal := Some(st.goals)), goals := st.goals + 1), i, Finishing)
      case Finishing => SetStage(st.(d := st.d.(goalActive := true)), i, Done)
  }

  function WorkerFails(st: State, i: nat, stop: Stop): State
    requires i < |st.workers|
  {
    var w := st.workers[i];
    if w.stage == Finishing || w.stage == Done || w.stage == Gone then st
    else
      var st1 := SetStage(st, i, Gone);
      if w.token != st.c.token then st1 else AutoPause(st1, TR07, stop, st.s.progress.remaining)
  }

  function GoalEnd(st: State, handle: nat, outcome: Outcome): State {
    if st.c.goal != Some(handle) then st
    else
      var st1 := st.(c := st.c.(goal := None), d := st.d.(goalActive := false));
      match outcome
      case Succeeded =>
        var n := if st.d.mission.Some? then st.d.mission.value.waypoints - 1 else st.d.nextOffset;
        AutoPause(st1.(d := st1.d.(nextOffset := n)), TR08, GoalReached, 1)
      case Cancelled => st1
      case Failed(stop) => AutoPause(st1, TR07, stop, st.s.progress.remaining)
  }

  function UpdateProgress(st: State, p: Progress): State {
    Announce(st.(s := st.s.(progress := p, revision := st.s.revision + 1)))
  }

  function OnFeedback(st: State, offset: nat, section: int): State {
    if st.s.mode != Autonomy then st
    else
      var st1 := st.(d := st.d.(nextOffset := offset));
      var total := if st.d.mission.Some? then st.d.mission.value.waypoints else 0;
      if section == st.s.progress.section && total - offset == st.s.progress.remaining then st1
      else UpdateProgress(st1, st.s.progress.(section := section, remaining := total - offset))
  }

  function OnSpeed(st: State, speed: Speed): State {
    if st.s.mode != Autonomy then st
    else TryRelease(if speed == st.s.progress.speed then st else UpdateProgress(st, st.s.progress.(speed := speed)))
  }

  function OnKeepout(st: State): State {
    if st.s.mode != Autonomy then st else TryRelease(st)
  }

  function Step(st: State, e: Event): State {
    match e
    case Human(_, _, _, _, _) => HumanRequest(st, e)
    case Stage(i) => if i < |st.workers| then WorkerStage(st, i) else st
    case StageFails(i, stop) => if i < |st.workers| then WorkerFails(st, i, stop) else st
    case GoalEnds(handle, outcome) => GoalEnd(st, handle, outcome)
    case Feedback(offset, section) => OnFeedback(st, offset, section)
    case SpeedReading(speed) => OnSpeed(st, speed)
    case KeepoutMask(id) =>
      if st.c.expected.None? then st
      else OnKeepout(st.(c := st.c.(mask := if st.c.expected == Some(id) then SameMask else OtherMask)))
    case KeepoutInfo(valid) => if st.c.expected.None? then st else OnKeepout(st.(c := st.c.(info := valid)))
    case LocalizationBad =>
      if st.s.mode != Autonomy || !st.c.localized then st
      else AutoPause(NewToken(st), TR07, EstimatorUnavailable, st.s.progress.remaining)
    case CancelGoal => st.(c := st.c.(goal := None))
    case Nav2Reset(ok) => st.(c := st.c.(nav2 := st.c.nav2 && !ok))
    case LocalizationStops => st.(c := st.c.(localized := false))
    case Republish => Announce(st)
  }

  /** The process just after a boot. */
  function Booted(record: Option<Record>): State {
    State(DecideBoot(record).1, Client(0, None, false, false, None, NotReceived, false), Drive(None, false, false, 0), [], 0, true)
  }

  // ----- the two objects

  class AutonomyClient {
    var token: nat
    var goalHandle: Option<nat>
    var nav2Active: bool
    var localizationRunning: bool
    var keepoutExpected: Option<MaskId>
    var keepoutMaskState: MaskState
    var keepoutInfoReceived: bool

    constructor ()
      ensures View() == Client(0, None, false, false, None, NotReceived, false)
    {
      token, goalHandle, nav2Active, localizationRunning := 0, None, false, false;
      keepoutExpected, keepoutMaskState, keepoutInfoReceived := None, NotReceived, false;
    }

    ghost function View(): Client
      reads this
    {
      Client(token, goalHandle, nav2Active, localizationRunning, keepoutExpected, keepoutMaskState, keepoutInfoReceived)
    }

    method DoNewToken() returns (t: nat)
      modifies this`token
      ensures t == token == old(token) + 1
    {
      token := token + 1;
      t := token;
    }

    predicate KeepoutConfirmed()
      reads this
    {
      keepoutMaskState == SameMask && keepoutInfoReceived
    }

    /** Cancels the active goal, if there is one. */
    method Cancel()
      modifies this`goalHandle
      ensures goalHandle == None
    {
      goalHandle := None;
    }
  }

  class ModeManager {
    var state: ModeState
    const auto: AutonomyClient
    var mission: Option<Mission>
    var driveReleased: bool
    var goalActive: bool
    var nextOffset: int
    var workers: seq<Worker>
    var goals: nat
    var hold: bool

    constructor (record: Option<Record>)
      ensures fresh(auto) && View() == Booted(record)
    {
      state := DecideBoot(record).1;
      auto := new AutonomyClient();
      mission, driveReleased, goalActive, nextOffset := None, false, false, 0;
      workers, goals, hold := [], 0, true;
    }

    ghost function View(): State
      reads this, auto
    {
      State(state, auto.View(), Drive(mission, driveReleased, goalActive, nextOffset), workers, goals, hold)
    }

    method PublishState()
      modifies this`hold
      ensures View() == Announce(old(View()))
    {
      hold := !(state.mode == Autonomy && driveReleased);
    }

    method DoSetState(s: ModeState)
      modifies this`state, this`hold
      ensures View() == SetState(old(View()), s)
    {
      state := s;
      PublishState();
    }

    method Request(e: Event) returns (accepted: bool)
      requires e.Human?
      modifies this, auto
      ensures View() == Step(old(View()), e)
    {
      var a := RequestTransition(e.event, state, IMPLEMENTED);
      if !a.Accepted? {
        return false;
      }
      match a.tid {
        case TR05 => accepted := Start(a.state, e);
        case TR06 => accepted := PauseByHuman(a.state);
        case TR10 => accepted := ResumeDriving(a.state, e);
        case TR11 => accepted := End(a.state);
        case TR12 => accepted := End(a.state);
        case _ =>
          if e.ok {
            DoSetState(a.state);
          }
          accepted := e.ok;
      }
    }

    method Start(s: ModeState, e: Event) returns (ok: bool)
      requires e.Human?
      modifies this, auto
      ensures View() == Perform(old(View()), TR05, s, e)
    {
      if !e.ok {
        return false;
      }
      mission, nextOffset, driveReleased := Some(e.mission), 0, false;
      var token := auto.DoNewToken();
      DoSetState(Filled(TR05, s, e.runId, e.mission.waypoints));
      workers := workers + [Worker(token, TR05, e.mission, Localizing, auto.keepoutExpected)];
      return true;
    }

    method PauseByHuman(s: ModeState) returns (ok: bool)
      modifies this, auto
      ensures forall e: Event :: e.Human? ==> View() == Perform(old(View()), TR06, s, e)
    {
      driveReleased := false;
      var _ := auto.DoNewToken();
      goalActive := false;
      DoSetState(s);
      return true;
    }

    method ResumeDriving(s: ModeState, e: Event) returns (ok: bool)
      requires e.Human?
      modifies this, auto
      ensures View() == Perform(old(View()), TR10, s, e)
    {
      if mission.None? || goalActive || auto.goalHandle.Some? || !auto.nav2Active || !e.localizationNormal {
        return false;
      }
      driveReleased := false;
      var token := auto.DoNewToken();
      DoSetState(Filled(TR10, s, 0, 0));
      workers := workers + [Worker(token, TR10, mission.value, SendingGoal, auto.keepoutExpected)];
      return true;
    }

    method End(s: ModeState) returns (ok: bool)
      modifies this, auto
      ensures forall e: Event :: e.Human? ==> View() == Perform(old(View()), TR11, s, e) == Perform(old(View()), TR12, s, e)
    {
      hide HoldOf, Announce, StartWorker, Filled;
      driveReleased, goalActive, mission := false, false, None;
      var _ := auto.DoNewToken();
      DoSetState(s);
      return true;
    }

    method DoAutoPause(tid: Transition, stop: Stop, remaining: int)
      modifies this`state, this`hold, this`driveReleased, this`goalActive
      ensures View() == AutoPause(old(View()), tid, stop, remaining)
    {
      var paused := AutomaticPause(state, tid, stop, remaining);
      if paused.None? {
        return;
      }
      driveReleased, goalActive := false, false;
      DoSetState(paused.value);
    }

    method OnNavResult(handle: nat, outcome: Outcome)
      modifies this, auto
      ensures View() == Step(old(View()), GoalEnds(handle, outcome))
    {
      if auto.goalHandle != Some(handle) {
        return;
      }
      auto.goalHandle := None;
      goalActive := false;
      match outcome {
        case Succeeded =>
          if mission.Some? {
            nextOffset := mission.value.waypoints - 1;
          }
          DoAutoPause(TR08, GoalReached, 1);
        case Cancelled =>
        case Failed(stop) => DoAutoPause(TR07, stop, state.progress.remaining);
      }
    }

    method OnNavFeedback(offset: nat, section: int)
      modifies this
      ensures View() == Step(old(View()), Feedback(offset, section))
    {
      hide HumanRequest, WorkerStage, WorkerFails, GoalEnd, OnSpeed, OnKeepout, AutoPause, HoldOf;
      if state.mode != Autonomy {
        return;
      }
      nextOffset := offset;
      var total := if mission.Some? then mission.value.waypoints else 0;
      if section != state.progress.section || total - offset != state.progress.remaining {
        state := state.(progress := state.progress.(section := section, remaining := total - offset),
                        revision := state.revision + 1);
        PublishState();
      }
    }

    method DoTryRelease()
      modifies this`driveReleased, this`hold
      ensures View() == TryRelease(old(View()))
    {
      if state.mode != Autonomy || !goalActive || driveReleased {
        return;
      }
      if state.progress.speed != Applied || !auto.KeepoutConfirmed() {
        return;
      }
      driveReleased := true;
      PublishState();
    }

    method OnSpeedState(speed: Speed)
      modifies this
      ensures View() == Step(old(View()), SpeedReading(speed))
    {
      hide HumanRequest, WorkerStage, WorkerFails, GoalEnd, OnFeedback, OnKeepout, TryRelease, HoldOf;
      if state.mode != Autonomy {
        return;
      }
      if speed != state.progress.speed {
        state := state.(progress := state.progress.(speed := speed), revision := state.revision + 1);
        PublishState();
      }
      DoTryRelease();
    }

    method OnKeepoutMask(id: MaskId)
      modifies this, auto
      ensures View() == Step(old(View()), KeepoutMask(id))
    {
      if auto.keepoutExpected.None? {
        return;
      }
      auto.keepoutMaskState := if auto.keepoutExpected.value == id then SameMask else OtherMask;
      if state.mode == Autonomy {
        DoTryRelease();
      }
    }

    method OnKeepoutInfo(valid: bool)
      modifies this, auto
      ensures View() == Step(old(View()), KeepoutInfo(valid))
    {
      if auto.keepoutExpected.None? {
        return;
      }
      auto.keepoutInfoReceived := valid;
      if state.mode == Autonomy {
        DoTryRelease();
      }
    }

    method EstimatorPause()
      modifies this, auto
      ensures View() == Step(old(View()), LocalizationBad)
    {
      if state.mode != Autonomy || !auto.localizationRunning {
        return;
      }
      var _ := auto.DoNewToken();
      DoAutoPause(TR07, EstimatorUnavailable, state.progress.remaining);
    }

    /** The next stage of the i-th worker thread. */
    method RunStage(i: nat)
      requires i < |workers|
      modifies this, auto
      ensures View() == Step(old(View()), Stage(i))
    {
      var w := workers[i];
      if w.stage == Done || w.stage == Gone {
        return;
      }
      if w.token != auto.token {
        workers := workers[i := w.(stage := Gone)];
        return;
      }
      match w.stage {
        case Localizing =>
          auto.localizationRunning := true;
          workers := workers[i := w.(stage := SettingParameters)];
        case SettingParameters =>
          auto.keepoutExpected, auto.keepoutMaskState, auto.keepoutInfoReceived := Some(w.mission.keepout), NotReceived, false;
          workers := workers[i := w.(stage := StartingNav2)];
        case StartingNav2 =>
          auto.nav2Active := true;
          workers := workers[i := w.(stage := SendingGoal)];
        case SendingGoal =>
          auto.goalHandle := Some(goals);
          goals := goals + 1;
          workers := workers[i := w.(stage := Finishing)];
        case Finishing =>
          goalActive := true;
          workers := workers[i := w.(stage := Done)];
      }
    }

    /** A stage of the i-th worker thread raises StepFailed. */
    method FailStage(i: nat, stop: Stop)
      requires i < |workers|
      modifies this, auto
      ensures View() == Step(old(View()), StageFails(i, stop))
    {
      var w := workers[i];
      if w.stage == Finishing || w.stage == Done || w.stage == Gone {
        return;
      }
      workers := workers[i := w.(stage := Gone)];
      if w.token == auto.token {
        DoAutoPause(TR07, stop, state.progress.remaining);
      }
    }
  }

  function Run(record: Option<Record>, events: seq<Event>): State {
    if events == [] then Booted(record) else Step(Run(record, events[..|events| - 1]), events[|events| - 1])
  }

  // ----- what every step keeps

  predicate PastParameters(w: Worker) {
    w.stage == StartingNav2 || w.stage == SendingGoal || w.stage == Finishing || w.stage == Done
  }

  ghost predicate TokensInOrder(workers: seq<Worker>, token: nat) {
    && (forall i :: 0 <= i < |workers| ==> workers[i].token <= token)
    && (forall i, j :: 0 <= i < j < |workers| ==> workers[i].token < workers[j].token)
  }

  /** The worker that holds the current token: if there is one, it is the newest. */
  function Current(workers: seq<Worker>, token: nat): Option<Worker> {
    if workers != [] && workers[|workers| - 1].token == token then Some(workers[|workers| - 1]) else None
  }

  /** What the current worker says about the rest. */
  predicate Linked(mode: Mode, d: Drive, expected: Option<MaskId>, current: Option<Worker>) {
    && (d.goalActive ==> current.Some? && current.value.stage == Done)
    && (mode == Manual || mode == Mapping ==> current.None?)
    && (mode == Autonomy ==> current.Some? && d.mission == Some(current.value.mission))
    && (current.Some? ==> WorkerKnows(current.value, expected))
    && (d.released ==> mode == Autonomy)
  }

  /** A start that has passed its parameter stage has the expected mask set to its mission's; a resume leaves it alone. */
  predicate WorkerKnows(w: Worker, expected: Option<MaskId>) {
    && (w.tid == TR05 || w.tid == TR10)
    && (w.tid == TR05 && PastParameters(w) ==> expected == Some(w.mission.keepout))
    && (w.tid == TR10 ==> expected == w.known && w.stage != Localizing && w.stage != SettingParameters)
  }

  ghost predicate Inv(st: State) {
    && TokensInOrder(st.workers, st.c.token)
    && Linked(st.s.mode, st.d, st.c.expected, Current(st.workers, st.c.token))
    && st.hold == HoldOf(st)
  }

  lemma NewTokenCurrent(st: State)
    requires TokensInOrder(st.workers, st.c.token)
    ensures var n := NewToken(st); TokensInOrder(n.workers, n.c.token) && Current(n.workers, n.c.token) == None
  {
  }

  lemma StartWorkerCurrent(st: State, tid: Transition, m: Mission)
    requires TokensInOrder(st.workers, st.c.token) && Current(st.workers, st.c.token) == None
    ensures var n := StartWorker(st, tid, m);
      TokensInOrder(n.workers, n.c.token) && Current(n.workers, n.c.token) == Some(n.workers[|n.workers| - 1])
  {
  }

  lemma SetStageCurrent(st: State, i: nat, stage: Stage)
    requires TokensInOrder(st.workers, st.c.token) && i < |st.workers|
    ensures TokensInOrder(SetStage(st, i, stage).workers, st.c.token)
    ensures Current(SetStage(st, i, stage).workers, st.c.token) ==
      if st.workers[i].token == st.c.token then Some(st.workers[i].(stage := stage)) else Current(st.workers, st.c.token)
    ensures st.workers[i].token == st.c.token ==> Current(st.workers, st.c.token) == Some(st.workers[i])
  {
    var last := |st.workers| - 1;
    assert i < last ==> st.workers[i].token < st.workers[last].token;
  }

  lemma BootedKeeps(record: Option<Record>)
    ensures Inv(Booted(record))
  {
  }

  /** The modes of an accepted request. */
  lemma AcceptedModes(e: HumanEvent, s: ModeState)
    requires RequestTransition(e, s, IMPLEMENTED).Accepted?
    ensures var a := RequestTransition(e, s, IMPLEMENTED); Table(e, s.mode) == Some((a.state.mode, a.tid))
  {
    MatchIsTable(e, s.mode);
    hide Match, Rows;
  }

  lemma HumanKeeps(st: State, e: Event)
    requires Inv(st) && e.Human?
    ensures Inv(HumanRequest(st, e))
  {
    hide RequestTransition, TokensInOrder, Current;
    var a := RequestTransition(e.event, st.s, IMPLEMENTED);
    if a.Accepted? {
      AcceptedModes(e.event, st.s);
      NewTokenCurrent(st);
      if a.tid == TR05 || a.tid == TR10 {
        EnterKeeps(st, a.tid, a.state, e);
      }
    }
  }

  lemma EnterKeeps(st: State, tid: Transition, s: ModeState, e: Event)
    requires Inv(st) && e.Human? && (tid == TR05 || tid == TR10) && s.mode == Autonomy
    requires tid == TR05 ==> st.s.mode == Manual
    ensures Inv(Perform(st, tid, s, e))
  {
    hide TokensInOrder, Current;
    NewTokenCurrent(st);
    if tid == TR05 {
      var st1 := NewToken(st.(d := st.d.(mission := Some(e.mission), released := false, nextOffset := 0)));
      StartWorkerCurrent(SetState(st1, Filled(TR05, s, e.runId, e.mission.waypoints)), TR05, e.mission);
    } else if MayResume(st, e.localizationNormal) {
      var st1 := NewToken(st.(d := st.d.(released := false)));
      StartWorkerCurrent(SetState(st1, Filled(TR10, s, 0, 0)), TR10, st.d.mission.value);
    }
  }

  lemma StageKeeps(st: State, i: nat)
    requires Inv(st) && i < |st.workers|
    ensures Inv(WorkerStage(st, i))
  {
    hide TokensInOrder, Current;
    var w := st.workers[i];
    SetStageCurrent(st, i, Gone);
    SetStageCurrent(st, i, SettingParameters);
    SetStageCurrent(st, i, StartingNav2);
    SetStageCurrent(st, i, SendingGoal);
    SetStageCurrent(st, i, Finishing);
    SetStageCurrent(st, i, Done);
  }

  lemma AutoPauseKeeps(st: State, tid: Transition, stop: Stop, remaining: int)
    requires TokensInOrder(st.workers, st.c.token) && st.hold == HoldOf(st)
    requires st.d.released ==> st.s.mode == Autonomy
    requires st.s.mode == Autonomy || Linked(st.s.mode, st.d, st.c.expected, Current(st.workers, st.c.token))
    requires var c := Current(st.workers, st.c.token); c.None? || WorkerKnows(c.value, st.c.expected)
    requires tid == TR07 || tid == TR08
    ensures Inv(AutoPause(st, tid, stop, remaining))
  {
    hide TokensInOrder, Current, WorkerKnows;
  }

  lemma FailKeeps(st: State, i: nat, stop: Stop)
    requires Inv(st) && i < |st.workers|
    ensures Inv(WorkerFails(st, i, stop))
  {
    hide TokensInOrder, Current, AutoPause;
    var w := st.workers[i];
    SetStageCurrent(st, i, Gone);
    if w.stage != Finishing && w.stage != Done && w.stage != Gone && w.token == st.c.token {
      AutoPauseKeeps(SetStage(st, i, Gone), TR07, stop, st.s.progress.remaining);
    }
  }

  lemma GoalEndKeeps(st: State, handle: nat, outcome: Outcome)
    requires Inv(st)
    ensures Inv(GoalEnd(st, handle, outcome))
  {
    hide TokensInOrder, Current, AutoPause, WorkerKnows;
    if st.c.goal == Some(handle) {
      var st1 := st.(c := st.c.(goal := None), d := st.d.(goalActive := false));
      assert Inv(st1);
      match outcome
      case Succeeded =>
        var n := if st.d.mission.Some? then st.d.mission.value.waypoints - 1 else st.d.nextOffset;
        AutoPauseKeeps(st1.(d := st1.d.(nextOffset := n)), TR08, GoalReached, 1);
      case Cancelled =>
      case Failed(stop) => AutoPauseKeeps(st1, TR07, stop, st.s.progress.remaining);
    }
  }

  lemma LocalizationKeeps(st: State)
    requires Inv(st)
    ensures Inv(Step(st, LocalizationBad))
  {
    hide TokensInOrder, Current, AutoPause, WorkerKnows;
    NewTokenCurrent(st);
    if st.s.mode == Autonomy && st.c.localized {
      AutoPauseKeeps(NewToken(st), TR07, EstimatorUnavailable, st.s.progress.remaining);
    }
  }

  lemma TryReleaseKeeps(st: State)
    requires Inv(st)
    ensures Inv(TryRelease(st))
  {
    hide TokensInOrder, Current, WorkerKnows;
  }

  lemma ObservationKeeps(st: State, e: Event)
    requires Inv(st)
    requires e.Feedback? || e.SpeedReading? || e.KeepoutMask? || e.KeepoutInfo? || e.CancelGoal? || e.Nav2Reset?
             || e.LocalizationStops? || e.Republish?
    ensures Inv(Step(st, e))
  {
    hide TokensInOrder, Current, WorkerKnows, TryRelease;
    match e
    case SpeedReading(speed) =>
      TryReleaseKeeps(st);
      TryReleaseKeeps(UpdateProgress(st, st.s.progress.(speed := speed)));
    case KeepoutMask(id) => TryReleaseKeeps(st.(c := st.c.(mask := if st.c.expected == Some(id) then SameMask else OtherMask)));
    case KeepoutInfo(valid) => TryReleaseKeeps(st.(c := st.c.(info := valid)));
    case _ =>
  }

  lemma NextKeeps(st: State, e: Event)
    requires Inv(st)
    ensures Inv(Step(st, e))
  {
    hide Inv, HumanRequest, WorkerStage, WorkerFails, GoalEnd;
    match e
    case Human(_, _, _, _, _) => HumanKeeps(st, e);
    case Stage(i) => if i < |st.workers| { StageKeeps(st, i); }
    case StageFails(i, stop) => if i < |st.workers| { FailKeeps(st, i, stop); }
    case GoalEnds(handle, outcome) => GoalEndKeeps(st, handle, outcome);
    case LocalizationBad => LocalizationKeeps(st);
    case _ => ObservationKeeps(st, e);
  }

  lemma {:induction false} RunKeeps(record: Option<Record>, events: seq<Event>)
    ensures Inv(Run(record, events))
  {
    if events == [] {
      BootedKeeps(record);
    } else {
      hide Inv, Step;
      RunKeeps(record, events[..|events| - 1]);
      NextKeeps(Run(record, events[..|events| - 1]), events[|events| - 1]);
    }
  }

  // ----- releasing the hold

  predicate Releases(st: State, e: Event) {
    !st.d.released && Step(st, e).d.released
  }

  /** What must hold when the hold is released. */
  ghost predicate MayDrive(st: State) {
    && st.s.mode == Autonomy && st.d.goalActive && st.s.progress.speed == Applied && Confirmed(st.c) && !st.hold
    && Current(st.workers, st.c.token).Some?
    && var w := Current(st.workers, st.c.token).value;
       && w.stage == Done && st.d.mission == Some(w.mission)
       && (w.tid == TR05 ==> st.c.expected == Some(w.mission.keepout))
       && (w.tid == TR10 ==> st.c.expected == w.known)
       && (w.tid == TR05 || w.tid == TR10)
  }

  lemma OnlyTryReleaseReleases(st: State, e: Event)
    requires Releases(st, e) && Inv(st)
    ensures var n := Step(st, e); n.s.mode == Autonomy && n.d.goalActive && n.s.progress.speed == Applied && Confirmed(n.c)
  {
    hide RequestTransition, TokensInOrder, Current, Filled;
  }

  /** The hold is released only in autonomy, by the worker that holds the current token after its goal was accepted, with
      the speed limit applied and the keepout mask confirmed; after a start the confirmed mask is the mission's own. */
  lemma ReleaseNeedsEverything(st: State, e: Event)
    requires Inv(st) && Releases(st, e)
    ensures MayDrive(Step(st, e))
  {
    OnlyTryReleaseReleases(st, e);
    NextKeeps(st, e);
    hide Step, TokensInOrder;
  }

  /** A reading that reaches the release: a speed limit state, or a mask or its info once a mask is expected. */
  predicate Reads(st: State, e: Event) {
    st.s.mode == Autonomy && (e.SpeedReading? || ((e.KeepoutMask? || e.KeepoutInfo?) && st.c.expected.Some?))
  }

  /** What a reading leaves: the speed state as read, the comparison of the mask, the validity of the info, nothing else but the
      revision and the release. */
  lemma ReadingIsKept(st: State, e: Event)
    requires Reads(st, e)
    ensures var n := Step(st, e);
      && n.workers == st.workers && n.goals == st.goals && n.d == st.d.(released := n.d.released)
      && match e
         case SpeedReading(speed) =>
           && n.c == st.c && n.s.progress == st.s.progress.(speed := speed)
           && n.s == st.s.(progress := n.s.progress, revision := st.s.revision + if speed == st.s.progress.speed then 0 else 1)
         case KeepoutMask(id) =>
           n.s == st.s && n.c == st.c.(mask := if st.c.expected == Some(id) then SameMask else OtherMask)
         case KeepoutInfo(valid) => n.s == st.s && n.c == st.c.(info := valid)
         case _ => true
  {
  }

  /** The hold is released exactly by a reading after which every condition is met: a goal under way, the limit applied, the
      mask confirmed. */
  lemma ReleasesIff(st: State, e: Event)
    requires Inv(st) && !st.d.released
    ensures Releases(st, e)
            <==> Reads(st, e) && var n := Step(st, e);
                 n.d.goalActive && n.s.progress.speed == Applied && n.c.mask == SameMask && n.c.info
    ensures Releases(st, e) ==> !Step(st, e).hold
  {
    NextKeeps(st, e);
    HoldIsCurrent(Step(st, e));
    hide Inv;
    if Releases(st, e) {
      OnlyReadingsRelease(st, e);
    }
    hide RequestTransition;
  }

  lemma OnlyReadingsRelease(st: State, e: Event)
    requires Releases(st, e)
    ensures Reads(st, e)
  {
    hide RequestTransition, Filled;
  }

  /** Feedback moves the first waypoint not yet passed, and publishes section and remaining waypoints when they change. */
  lemma FeedbackIsKept(st: State, offset: nat, section: int)
    ensures var n := Step(st, Feedback(offset, section));
      if st.s.mode != Autonomy then n == st
      else
        var total := if st.d.mission.Some? then st.d.mission.value.waypoints else 0;
        && n.c == st.c && n.workers == st.workers && n.d == st.d.(nextOffset := offset)
        && n.s.progress == st.s.progress.(section := section, remaining := total - offset)
        && (n.s.progress != st.s.progress ==> n.s.revision == st.s.revision + 1)
  {
  }

  /** While the hold stays released, the mode, the token and the mission stay the same. */
  lemma DrivingKeepsMission(st: State, e: Event)
    requires Inv(st) && st.d.released && Step(st, e).d.released
    ensures var n := Step(st, e); n.s.mode == Autonomy && n.c.token == st.c.token && n.d.mission == st.d.mission
  {
    hide Inv, HumanRequest, WorkerStage, WorkerFails, GoalEnd, OnFeedback, OnSpeed, OnKeepout, AutoPause;
    NextKeeps(st, e);
    HoldIsCurrent(st);
    HoldIsCurrent(Step(st, e));
    match e
    case Human(_, _, _, _, _) => DrivingHuman(st, e);
    case Stage(i) => if i < |st.workers| { DrivingStage(st, i); }
    case StageFails(i, stop) => if i < |st.workers| { DrivingFails(st, i, stop); }
    case GoalEnds(handle, outcome) => GoalReading(st, handle, outcome);
    case Feedback(offset, section) => FeedbackReading(st, offset, section);
    case SpeedReading(speed) => SpeedKeeps(st, speed);
    case KeepoutMask(id) => KeepoutKeeps(st.(c := st.c.(mask := if st.c.expected == Some(id) then SameMask else OtherMask)));
    case KeepoutInfo(valid) => KeepoutKeeps(st.(c := st.c.(info := valid)));
    case LocalizationBad => PauseLeaves(NewToken(st), TR07, EstimatorUnavailable, st.s.progress.remaining);
    case _ =>
  }

  /** Every accepted request leaves autonomy. */
  lemma DrivingHuman(st: State, e: Event)
    requires e.Human? && st.s.mode == Autonomy && HumanRequest(st, e).s.mode == Autonomy
    ensures HumanRequest(st, e) == st
  {
    hide RequestTransition;
    if RequestTransition(e.event, st.s, IMPLEMENTED).Accepted? {
      AcceptedModes(e.event, st.s);
    }
  }

  lemma DrivingStage(st: State, i: nat)
    requires i < |st.workers|
    ensures WorkerStage(st, i).c.token == st.c.token && WorkerStage(st, i).d.mission == st.d.mission
  {
  }

  lemma DrivingFails(st: State, i: nat, stop: Stop)
    requires i < |st.workers|
    ensures WorkerFails(st, i, stop).c == st.c && WorkerFails(st, i, stop).d.mission == st.d.mission
  {
  }

  lemma FeedbackReading(st: State, offset: nat, section: int)
    ensures OnFeedback(st, offset, section).c == st.c && OnFeedback(st, offset, section).d.mission == st.d.mission
  {
  }

  lemma SpeedKeeps(st: State, speed: Speed)
    ensures OnSpeed(st, speed).c == st.c && OnSpeed(st, speed).d.mission == st.d.mission
  {
    hide TryRelease;
    ReleaseShows(st);
    ReleaseShows(UpdateProgress(st, st.s.progress.(speed := speed)));
  }

  lemma KeepoutKeeps(st: State)
    ensures OnKeepout(st).c == st.c && OnKeepout(st).d.mission == st.d.mission
  {
    hide TryRelease;
    ReleaseShows(st);
  }

  // ----- what was read since the last start or resume

  /** A speed limit in force, the matching mask of a start, its filter info. */
  datatype Reading = SpeedRead | MaskRead | InfoRead

  /** The worker of a start holds the token and has passed its parameter stage, which cleared mask and filter info. */
  predicate StartPast(st: State) {
    var w := Current(st.workers, st.c.token); w.Some? && w.value.tid == TR05 && PastParameters(w.value)
  }

  /** The state shows the reading. */
  predicate Shows(st: State, r: Reading) {
    match r
    case SpeedRead => st.s.progress.speed == Applied
    case MaskRead => StartPast(st) && st.c.mask == SameMask
    case InfoRead => StartPast(st) && st.c.info
  }

  /** The event is the reading, and comes at a time at which it counts. */
  predicate Brings(st: State, e: Event, r: Reading) {
    match r
    case SpeedRead => e == SpeedReading(Applied)
    case MaskRead => StartPast(st) && st.d.mission.Some? && e == KeepoutMask(st.d.mission.value.keepout)
    case InfoRead => StartPast(st) && e == KeepoutInfo(true)
  }

  /** Both states are in autonomy, with the same token and the same mission. */
  predicate SameDrive(a: State, b: State) {
    a.s.mode == Autonomy && b.s.mode == Autonomy && a.c.token == b.c.token && a.d.mission == b.d.mission
  }

  /** The i-th event brought the reading, and from then on to the end the run was in autonomy with the final token and
      mission: there was no start or resume in between. */
  ghost predicate ReadAt(record: Option<Record>, events: seq<Event>, i: nat, r: Reading)
    requires i < |events|
  {
    && Brings(Run(record, events[..i]), events[i], r)
    && forall j :: i <= j <= |events| ==> SameDrive(Run(record, events[..j]), Run(record, events))
  }

  lemma EntryIsNotPast(st: State, e: Event)
    requires Inv(st) && e.Human? && st.s.mode != Autonomy && HumanRequest(st, e).s.mode == Autonomy
    ensures !StartPast(HumanRequest(st, e)) && HumanRequest(st, e).s.progress.speed != Applied
  {
    hide RequestTransition, Inv, StartPast;
    AcceptedModes(e.event, st.s);
    var a := RequestTransition(e.event, st.s, IMPLEMENTED);
    if a.tid == TR05 {
      StartIsNotPast(st, a.state, e);
    } else {
      ResumeIsNotPast(st, a.state, e);
    }
  }

  lemma StartIsNotPast(st: State, s: ModeState, e: Event)
    requires Inv(st) && e.Human? && e.ok
    ensures var n := Perform(st, TR05, s, e); !StartPast(n) && n.s.progress.speed != Applied
  {
    hide TokensInOrder, Current, HoldOf;
    NewTokenCurrent(st);
    var st1 := NewToken(st.(d := st.d.(mission := Some(e.mission), released := false, nextOffset := 0)));
    StartWorkerCurrent(SetState(st1, Filled(TR05, s, e.runId, e.mission.waypoints)), TR05, e.mission);
  }

  lemma ResumeIsNotPast(st: State, s: ModeState, e: Event)
    requires Inv(st) && e.Human? && MayResume(st, e.localizationNormal)
    ensures var n := Perform(st, TR10, s, e); !StartPast(n) && n.s.progress.speed != Applied
  {
    hide TokensInOrder, Current, HoldOf;
    NewTokenCurrent(st);
    var st1 := NewToken(st.(d := st.d.(released := false)));
    StartWorkerCurrent(SetState(st1, Filled(TR10, s, 0, 0)), TR10, st.d.mission.value);
  }

  lemma EntryShowsNothing(st: State, e: Event, r: Reading)
    requires Inv(st) && e.Human? && st.s.mode != Autonomy && HumanRequest(st, e).s.mode == Autonomy
    ensures !Shows(HumanRequest(st, e), r)
  {
    hide HumanRequest, StartPast, Inv;
    EntryIsNotPast(st, e);
  }

  lemma StageShows(st: State, i: nat, r: Reading)
    requires Inv(st) && i < |st.workers| && st.s.mode == Autonomy && Shows(WorkerStage(st, i), r)
    ensures Shows(st, r) && SameDrive(st, WorkerStage(st, i))
  {
    hide TokensInOrder, Current;
    SetStageCurrent(st, i, Gone);
    SetStageCurrent(st, i, SettingParameters);
    SetStageCurrent(st, i, StartingNav2);
    SetStageCurrent(st, i, SendingGoal);
    SetStageCurrent(st, i, Finishing);
    SetStageCurrent(st, i, Done);
  }

  lemma FailShows(st: State, i: nat, stop: Stop, r: Reading)
    requires Inv(st) && i < |st.workers| && WorkerFails(st, i, stop).s.mode == Autonomy && Shows(WorkerFails(st, i, stop), r)
    ensures Shows(st, r) && SameDrive(st, WorkerFails(st, i, stop))
  {
    hide TokensInOrder, Current;
    SetStageCurrent(st, i, Gone);
  }

  lemma ReleaseShows(st: State)
    ensures TryRelease(st).c == st.c && TryRelease(st).s == st.s && TryRelease(st).workers == st.workers
    ensures TryRelease(st).d.mission == st.d.mission
  {
  }

  lemma PauseLeaves(st: State, tid: Transition, stop: Stop, remaining: int)
    requires tid == TR07 || tid == TR08
    ensures AutoPause(st, tid, stop, remaining).s.mode != Autonomy
  {
  }

  lemma GoalShows(st: State, handle: nat, outcome: Outcome, r: Reading)
    requires GoalEnd(st, handle, outcome).s.mode == Autonomy && Shows(GoalEnd(st, handle, outcome), r)
    ensures SameDrive(st, GoalEnd(st, handle, outcome)) && Shows(st, r)
  {
    hide Current, AutoPause;
    var st1 := st.(c := st.c.(goal := None), d := st.d.(goalActive := false));
    match outcome
    case Succeeded =>
      var n := if st.d.mission.Some? then st.d.mission.value.waypoints - 1 else st.d.nextOffset;
      PauseLeaves(st1.(d := st1.d.(nextOffset := n)), TR08, GoalReached, 1);
    case Cancelled =>
    case Failed(stop) => PauseLeaves(st1, TR07, stop, st.s.progress.remaining);
  }

  lemma SpeedShows(st: State, speed: Speed, r: Reading)
    requires OnSpeed(st, speed).s.mode == Autonomy && Shows(OnSpeed(st, speed), r)
    ensures SameDrive(st, OnSpeed(st, speed)) && (Shows(st, r) || Brings(st, SpeedReading(speed), r))
  {
    hide Current, TryRelease;
    ReleaseShows(st);
    ReleaseShows(UpdateProgress(st, st.s.progress.(speed := speed)));
  }

  lemma KeepoutShows(st: State, e: Event, r: Reading)
    requires Inv(st) && (e.KeepoutMask? || e.KeepoutInfo?) && Step(st, e).s.mode == Autonomy && Shows(Step(st, e), r)
    ensures SameDrive(st, Step(st, e)) && (Shows(st, r) || Brings(st, e, r))
  {
    hide TokensInOrder, Current, TryRelease, HumanRequest, WorkerStage, WorkerFails, GoalEnd, OnSpeed, OnFeedback, AutoPause;
    match e
    case KeepoutMask(id) => ReleaseShows(st.(c := st.c.(mask := if st.c.expected == Some(id) then SameMask else OtherMask)));
    case KeepoutInfo(valid) => ReleaseShows(st.(c := st.c.(info := valid)));
  }

  lemma ObservationShows(st: State, e: Event, r: Reading)
    requires Inv(st) && !e.Human? && !e.Stage? && !e.StageFails?
    requires Step(st, e).s.mode == Autonomy && Shows(Step(st, e), r)
    ensures SameDrive(st, Step(st, e)) && (Shows(st, r) || Brings(st, e, r))
  {
    hide Inv, Current, OnSpeed, GoalEnd, AutoPause, OnKeepout;
    match e
    case SpeedReading(speed) => SpeedShows(st, speed, r);
    case KeepoutMask(id) => KeepoutShows(st, e, r);
    case KeepoutInfo(valid) => KeepoutShows(st, e, r);
    case GoalEnds(handle, outcome) => GoalShows(st, handle, outcome, r);
    case LocalizationBad => PauseLeaves(NewToken(st), TR07, EstimatorUnavailable, st.s.progress.remaining);
    case _ =>
  }

  lemma HumanShows(st: State, e: Event, r: Reading)
    requires Inv(st) && e.Human? && HumanRequest(st, e).s.mode == Autonomy && Shows(HumanRequest(st, e), r)
    ensures Shows(st, r) && SameDrive(st, HumanRequest(st, e))
  {
    hide RequestTransition, Shows, Inv;
    if st.s.mode != Autonomy {
      EntryShowsNothing(st, e, r);
    } else if RequestTransition(e.event, st.s, IMPLEMENTED).Accepted? {
      AcceptedModes(e.event, st.s);
    }
  }

  /** A reading that shows in autonomy was shown before, in the same drive, or the event brought it. */
  lemma ReadingStep(st: State, e: Event, r: Reading)
    requires Inv(st) && Step(st, e).s.mode == Autonomy && Shows(Step(st, e), r)
    ensures SameDrive(st, Step(st, e)) && (Shows(st, r) || Brings(st, e, r))
  {
    hide Inv, HumanRequest, WorkerStage, WorkerFails, GoalEnd, Shows, Brings;
    match e
    case Human(_, _, _, _, _) => HumanShows(st, e, r);
    case Stage(i) =>
      if i < |st.workers| {
        StageMode(st, i);
        StageShows(st, i, r);
      }
    case StageFails(i, stop) => if i < |st.workers| { FailShows(st, i, stop, r); }
    case _ => ObservationShows(st, e, r);
  }

  lemma StageMode(st: State, i: nat)
    requires i < |st.workers|
    ensures WorkerStage(st, i).s == st.s && WorkerStage(st, i).d.released == st.d.released
  {
  }

  lemma ReadAtLonger(record: Option<Record>, events: seq<Event>, e: Event, i: nat, r: Reading)
    requires i < |events| && ReadAt(record, events, i, r) && SameDrive(Run(record, events), Run(record, events + [e]))
    ensures ReadAt(record, events + [e], i, r)
  {
    hide Step, Brings;
    var longer := events + [e];
    assert longer[..i] == events[..i] && longer[..|longer|] == longer;
    forall j | i <= j <= |longer|
      ensures SameDrive(Run(record, longer[..j]), Run(record, longer))
    {
      if j <= |events| {
        assert longer[..j] == events[..j];
      }
    }
  }

  /** In every run, in autonomy: an applied speed limit was read, and after a start the matching mask and a valid filter
      info were received behind the parameter stage, all of it since the last start or resume. */
  lemma {:induction false} ReadingsWereReceived(record: Option<Record>, events: seq<Event>, r: Reading)
    requires Run(record, events).s.mode == Autonomy && Shows(Run(record, events), r)
    ensures exists i :: 0 <= i < |events| && ReadAt(record, events, i, r)
  {
    hide Step, Inv, Shows, Brings, ReadAt;
    if events == [] {
      NotBootedInAutonomy(record);
    } else {
      var n := |events| - 1;
      var before, e := events[..n], events[n];
      assert events == before + [e];
      RunKeeps(record, before);
      ReadingStep(Run(record, before), e, r);
      if Shows(Run(record, before), r) {
        ReadingsWereReceived(record, before, r);
        var i :| 0 <= i < |before| && ReadAt(record, before, i, r);
        ReadAtLonger(record, before, e, i, r);
      } else {
        JustRead(record, before, e, r);
      }
    }
  }

  lemma NotBootedInAutonomy(record: Option<Record>)
    ensures Run(record, []).s.mode != Autonomy
  {
  }

  lemma JustRead(record: Option<Record>, before: seq<Event>, e: Event, r: Reading)
    requires Brings(Run(record, before), e, r) && SameDrive(Run(record, before), Run(record, before + [e]))
    ensures ReadAt(record, before + [e], |before|, r)
  {
    hide Step, Brings;
    var events := before + [e];
    assert events[..|before|] == before && events[..|events|] == events;
  }

  /** Everything the release depends on was read since the last start or resume; after a resume, mask and filter info
      count from before it. */
  ghost predicate AllRead(record: Option<Record>, events: seq<Event>) {
    && (exists i :: 0 <= i < |events| && ReadAt(record, events, i, SpeedRead))
    && (StartPast(Run(record, events)) ==>
          && (exists i :: 0 <= i < |events| && ReadAt(record, events, i, MaskRead))
          && (exists i :: 0 <= i < |events| && ReadAt(record, events, i, InfoRead)))
  }

  lemma DrivingShows(st: State)
    requires MayDrive(st)
    ensures st.s.mode == Autonomy && Shows(st, SpeedRead) && (StartPast(st) ==> Shows(st, MaskRead) && Shows(st, InfoRead))
  {
  }

  lemma DrivingIsRead(record: Option<Record>, events: seq<Event>)
    requires MayDrive(Run(record, events))
    ensures AllRead(record, events)
  {
    hide Run, ReadAt, Shows, StartPast, MayDrive;
    var st := Run(record, events);
    DrivingShows(st);
    ReadingsWereReceived(record, events, SpeedRead);
    if StartPast(st) {
      ReadingsWereReceived(record, events, MaskRead);
      ReadingsWereReceived(record, events, InfoRead);
    }
  }

  /** The i-th event released the hold after all readings since the last start or resume, and the run after it went on with
      the same mission and worker. */
  ghost predicate ReleasedAt(record: Option<Record>, events: seq<Event>, i: nat)
    requires i < |events|
  {
    && Releases(Run(record, events[..i]), events[i])
    && MayDrive(Run(record, events[..i + 1])) && AllRead(record, events[..i + 1])
    && Run(record, events).c.token == Run(record, events[..i + 1]).c.token
    && Run(record, events).d.mission == Run(record, events[..i + 1]).d.mission
    && forall j :: i < j <= |events| ==> Run(record, events[..j]).s.mode == Autonomy && Run(record, events[..j]).d.released
  }

  lemma ReleasedAtLonger(record: Option<Record>, events: seq<Event>, e: Event, i: nat)
    requires i < |events| && ReleasedAt(record, events, i) && Run(record, events + [e]).d.released
    ensures ReleasedAt(record, events + [e], i)
  {
    hide Step, Releases, MayDrive, AllRead;
    var longer := events + [e];
    assert longer[..|events|] == events && longer[..|longer|] == longer;
    RunKeeps(record, events);
    assert events[..|events|] == events;
    DrivingKeepsMission(Run(record, events), e);
    assert longer[..i] == events[..i] && longer[..i + 1] == events[..i + 1];
    forall j | i < j <= |longer|
      ensures Run(record, longer[..j]).s.mode == Autonomy && Run(record, longer[..j]).d.released
    {
      if j <= |events| {
        assert longer[..j] == events[..j];
      }
    }
  }

  /** In every run: whenever motion_hold is published false, some earlier step released it under all conditions, for the
      worker and mission that are still current, and since then the mode has been autonomy without interruption. */
  lemma {:induction false} HoldFalseMeansReleased(record: Option<Record>, events: seq<Event>)
    requires !Run(record, events).hold
    ensures exists i :: 0 <= i < |events| && ReleasedAt(record, events, i)
  {
    hide Step, Inv, MayDrive, ReleasedAt;
    RunKeeps(record, events);
    HoldIsCurrent(Run(record, events));
    if events != [] {
      var n := |events| - 1;
      var before := events[..n];
      assert events == before + [events[n]];
      RunKeeps(record, before);
      HoldIsCurrent(Run(record, before));
      hide Run;
      if Run(record, before).d.released {
        HoldFalseMeansReleased(record, before);
        var i :| 0 <= i < |before| && ReleasedAt(record, before, i);
        ReleasedAtLonger(record, before, events[n], i);
      } else {
        JustReleased(record, before, events[n]);
      }
    }
  }

  lemma JustReleased(record: Option<Record>, before: seq<Event>, e: Event)
    requires !Run(record, before).d.released && Run(record, before + [e]).d.released
    ensures ReleasedAt(record, before + [e], |before|)
  {
    hide Step, Inv, MayDrive, AllRead;
    var events := before + [e];
    RunKeeps(record, before);
    RunKeeps(record, events);
    assert events[..|before|] == before && events[..|events|] == events;
    ReleaseNeedsEverything(Run(record, before), e);
    DrivingIsRead(record, events);
    HoldIsCurrent(Run(record, events));
  }

  lemma HoldIsCurrent(st: State)
    requires Inv(st)
    ensures !st.hold <==> st.d.released
    ensures st.d.released ==> st.s.mode == Autonomy
  {
  }

  /** Every way out of autonomy publishes the hold at once. */
  lemma LeavingAutonomyHolds(st: State, e: Event)
    requires Inv(st) && Step(st, e).s.mode != Autonomy
    ensures Step(st, e).hold && !Step(st, e).d.released
  {
    NextKeeps(st, e);
    hide Step, Current, TokensInOrder;
  }

  // ----- what stops the drive

  /** What a pause leaves behind. */
  predicate PausedFor(st: State, n: State, stop: Stop) {
    && n.s.mode == Pause && n.s.previous == Some(Autonomy) && n.s.stop == stop && n.s.revision == st.s.revision + 1
    && n.s.human == st.s.human && n.hold && !n.d.released && !n.d.goalActive && n.d.mission == st.d.mission
  }

  /** A human pause: the pause is noted as the human's, the hold is published, and a start in progress is abandoned. */
  lemma HumanPausePauses(st: State, e: Event)
    requires st.s.mode == Autonomy && e.Human? && e.event == PauseDriving
    ensures var n := Step(st, e);
      && n.s.mode == Pause && n.s.human && n.s.stop == HumanStop && n.s.progress == st.s.progress
      && n.hold && !n.d.released && !n.d.goalActive && n.d.mission == st.d.mission
      && n.c == st.c.(token := st.c.token + 1) && n.workers == st.workers
  {
    MatchIsTable(PauseDriving, Autonomy);
    hide Match, Rows;
  }

  /** A human end, of a drive or of a pause: manual again, without a run and a mission. */
  lemma HumanEndEnds(st: State, e: Event)
    requires (st.s.mode == Autonomy || st.s.mode == Pause) && e.Human? && e.event == EndAutonomy
    ensures var n := Step(st, e);
      && n.s.mode == Manual && n.s.human && n.s.stop == HumanStop && n.s.progress.runId == 0 && !n.s.poseRequired
      && n.hold && !n.d.released && !n.d.goalActive && n.d.mission == None
      && n.c == st.c.(token := st.c.token + 1) && n.workers == st.workers
  {
    MatchIsTable(EndAutonomy, st.s.mode);
    hide Match, Rows;
  }

  /** Lost localization pauses, and abandons a start in progress. */
  lemma LostLocalizationPauses(st: State)
    requires st.s.mode == Autonomy && st.c.localized
    ensures var n := Step(st, LocalizationBad);
      PausedFor(st, n, EstimatorUnavailable) && n.c == st.c.(token := st.c.token + 1) && n.workers == st.workers
  {
  }

  /** The stages that can fail. */
  predicate CanFail(w: Worker) {
    w.stage == Localizing || w.stage == SettingParameters || w.stage == StartingNav2 || w.stage == SendingGoal
  }

  /** So does a failed stage of the worker with the current token; that of an abandoned worker changes nothing but the
      worker. */
  lemma FailedStagePauses(st: State, i: nat, stop: Stop)
    requires st.s.mode == Autonomy && i < |st.workers| && CanFail(st.workers[i])
    ensures var n := Step(st, StageFails(i, stop));
      && n.c == st.c && n.workers == st.workers[i := st.workers[i].(stage := Gone)]
      && if st.workers[i].token == st.c.token then PausedFor(st, n, stop) else n == st.(workers := n.workers)
  {
  }

  /** And the end of the current goal, unless it was cancelled. */
  lemma GoalEndPauses(st: State, handle: nat, outcome: Outcome)
    requires st.s.mode == Autonomy && st.c.goal == Some(handle)
    ensures var n := Step(st, GoalEnds(handle, outcome));
      && n.c == st.c.(goal := None) && n.workers == st.workers
      && match outcome
         case Succeeded => PausedFor(st, n, GoalReached) && n.s.progress.remaining == 1
         case Failed(stop) => PausedFor(st, n, stop) && n.s.progress == st.s.progress
         case Cancelled => n.s == st.s && n.d == st.d.(goalActive := false) && n.hold == st.hold
  {
  }

  /** The events that stop a drive. */
  predicate Stops(st: State, e: Event) {
    match e
    case Human(event, _, _, _, _) => event == PauseDriving || event == EndAutonomy
    case LocalizationBad => st.c.localized
    case StageFails(i, _) => i < |st.workers| && st.workers[i].token == st.c.token && CanFail(st.workers[i])
    case GoalEnds(handle, outcome) => st.c.goal == Some(handle) && outcome != Cancelled
    case _ => false
  }

  /** A drive goes on exactly until one of them. */
  lemma DriveGoesOnIff(st: State, e: Event)
    requires Inv(st) && st.s.mode == Autonomy
    ensures Stops(st, e) ==> Step(st, e).s.mode != Autonomy && Step(st, e).hold && !Step(st, e).d.released
    ensures !Stops(st, e) ==> Step(st, e).s.mode == Autonomy && (st.d.released ==> Step(st, e).d.released && !Step(st, e).hold)
  {
    hide Inv, HumanRequest, WorkerStage, WorkerFails, GoalEnd, OnFeedback, OnSpeed, OnKeepout, AutoPause, PausedFor, CanFail;
    NextKeeps(st, e);
    HoldIsCurrent(Step(st, e));
    match e
    case Human(event, _, _, _, _) =>
      if event == PauseDriving {
        HumanPausePauses(st, e);
      } else if event == EndAutonomy {
        HumanEndEnds(st, e);
      } else {
        OtherRequestsAreRefused(st, e);
      }
    case Stage(i) => if i < |st.workers| { StageMode(st, i); }
    case StageFails(i, stop) =>
      if i < |st.workers| {
        if CanFail(st.workers[i]) {
          FailedStagePauses(st, i, stop);
          PausedMode(st, Step(st, e), stop);
        } else {
          DoneCannotFail(st, i, stop);
        }
      }
    case GoalEnds(handle, outcome) => GoalDrive(st, handle, outcome);
    case Feedback(offset, section) => FeedbackDrive(st, offset, section);
    case SpeedReading(speed) => SpeedDrive(st, speed);
    case KeepoutMask(id) => KeepoutDrive(st.(c := st.c.(mask := if st.c.expected == Some(id) then SameMask else OtherMask)));
    case KeepoutInfo(valid) => KeepoutDrive(st.(c := st.c.(info := valid)));
    case LocalizationBad =>
      if st.c.localized {
        LostLocalizationPauses(st);
        PausedMode(st, Step(st, e), EstimatorUnavailable);
      }
    case _ =>
  }

  lemma PausedMode(st: State, n: State, stop: Stop)
    ensures PausedFor(st, n, stop) ==> n.s.mode == Pause && n.hold && !n.d.released
  {
  }

  lemma OtherRequestsAreRefused(st: State, e: Event)
    requires st.s.mode == Autonomy && e.Human? && e.event != PauseDriving && e.event != EndAutonomy
    ensures Step(st, e) == st
  {
    MatchIsTable(e.event, Autonomy);
    hide Match, Rows;
  }

  lemma DoneCannotFail(st: State, i: nat, stop: Stop)
    requires i < |st.workers| && !CanFail(st.workers[i])
    ensures Step(st, StageFails(i, stop)) == st
  {
  }

  lemma GoalDrive(st: State, handle: nat, outcome: Outcome)
    requires st.s.mode == Autonomy
    ensures var n := Step(st, GoalEnds(handle, outcome));
      if Stops(st, GoalEnds(handle, outcome)) then n.s.mode == Pause && n.hold && !n.d.released
      else n.s.mode == Autonomy && n.d.released == st.d.released && n.hold == st.hold
  {
    if st.c.goal == Some(handle) {
      GoalEndPauses(st, handle, outcome);
    }
    hide AutoPause;
  }

  lemma FeedbackDrive(st: State, offset: nat, section: int)
    requires st.s.mode == Autonomy
    ensures OnFeedback(st, offset, section).s.mode == Autonomy && OnFeedback(st, offset, section).d.released == st.d.released
  {
  }

  lemma SpeedDrive(st: State, speed: Speed)
    requires st.s.mode == Autonomy
    ensures OnSpeed(st, speed).s.mode == Autonomy && (st.d.released ==> OnSpeed(st, speed).d.released)
  {
  }

  lemma KeepoutDrive(st: State)
    requires st.s.mode == Autonomy
    ensures OnKeepout(st).s.mode == Autonomy && (st.d.released ==> OnKeepout(st).d.released)
  {
  }

  /** In every run that publishes hold=false: since the step that released it, no human asked for a pause or an end, no
      localization was lost, no stage of the current worker failed, and no current goal succeeded or failed. */
  lemma NothingStoppedTheDrive(record: Option<Record>, events: seq<Event>) returns (i: nat)
    requires !Run(record, events).hold
    ensures i < |events| && ReleasedAt(record, events, i)
    ensures forall j :: i < j < |events| ==> !Stops(Run(record, events[..j]), events[j])
  {
    hide Step, Inv, Stops, ReleasedAt, Run;
    HoldFalseMeansReleased(record, events);
    i :| 0 <= i < |events| && ReleasedAt(record, events, i);
    forall j | i < j < |events|
      ensures !Stops(Run(record, events[..j]), events[j])
    {
      ReleasedRuns(record, events, i, j);
      RunKeeps(record, events[..j]);
      DriveGoesOnIff(Run(record, events[..j]), events[j]);
      RunNext(record, events, j);
    }
  }

  lemma RunNext(record: Option<Record>, events: seq<Event>, j: nat)
    requires j < |events|
    ensures Run(record, events[..j + 1]) == Step(Run(record, events[..j]), events[j])
  {
    hide Step;
    assert events[..j + 1][..j] == events[..j];
  }

  lemma ReleasedRuns(record: Option<Record>, events: seq<Event>, i: nat, j: nat)
    requires i < |events| && ReleasedAt(record, events, i) && i < j < |events|
    ensures Run(record, events[..j]).s.mode == Autonomy && Run(record, events[..j]).d.released
    ensures Run(record, events[..j + 1]).s.mode == Autonomy
  {
    hide Run, MayDrive, AllRead, Releases;
  }

  /** An accepted start: autonomy with the hold on, the new mission, a new token, and a worker that holds it. */
  lemma StartStarts(st: State, e: Event)
    requires st.s.mode == Manual && e.Human? && e.event == StartAutonomy
    ensures var n := Step(st, e);
      if !e.ok then n == st
      else
        && n.s.mode == Autonomy && !n.s.human && n.s.stop == NoStop && !n.s.poseRequired && n.hold
        && n.s.progress == st.s.progress.(runId := e.runId, remaining := e.mission.waypoints, section := 0, speed := NotLoaded)
        && n.d == Drive(Some(e.mission), false, st.d.goalActive, 0) && n.c == st.c.(token := st.c.token + 1)
        && n.workers == st.workers + [Worker(n.c.token, TR05, e.mission, Localizing, st.c.expected)]
  {
    MatchIsTable(StartAutonomy, Manual);
    hide Match, Rows;
  }

  /** The remaining requests: a mapping begins or ends once its actions were performed, with the hold on; every other request is
      refused and changes nothing. */
  lemma MappingAndRefusals(st: State, e: Event)
    requires e.Human? && HoldOf(st)
    ensures var n, m := Step(st, e), st.s.mode;
      && ((e.event == StartMapping && m == Manual) || (e.event == EndMapping && m == Mapping) ==>
            if !e.ok then n == st
            else n == st.(s := n.s, hold := true) && n.s.mode == (if m == Manual then Mapping else Manual)
                 && n.s.revision == st.s.revision + 1)
      && (Table(e.event, m).None? || (e.event == Resume && st.s.poseRequired) ==> n == st)
  {
    RequestMeans(e.event, st.s);
    hide RequestTransition;
  }

  /** The state after the same worker has done its next n stages. */
  function Stages(st: State, i: nat, n: nat): State {
    if n == 0 then st else Step(Stages(st, i, n - 1), Stage(i))
  }

  predicate IsStart(st: State, e: Event) {
    st.s.mode == Manual && e.Human? && e.event == StartAutonomy && e.ok
  }

  /** A start that nothing disturbs: its five stages start the localization, expect the mission's mask and forget the old one,
      start Nav2, send a new goal, and mark it as under way; nothing else changes. */
  lemma StagesOfStart(st: State, e: Event)
    requires IsStart(st, e)
    ensures var i, m, n := |st.workers|, e.mission, Step(st, e); var w := Worker(n.c.token, TR05, m, Done, st.c.expected);
      Stages(n, i, 5)
      == n.(c := Client(n.c.token, Some(st.goals), true, true, Some(m.keepout), NotReceived, false),
            d := Drive(Some(m), false, true, 0), goals := st.goals + 1, workers := st.workers + [w])
  {
    StartStarts(st, e);
    var i, n := |st.workers|, Step(st, e);
    hide HumanRequest, OnSpeed, OnKeepout, OnFeedback, GoalEnd, WorkerFails;
    assert Stages(n, i, 1).workers == st.workers + [Worker(n.c.token, TR05, e.mission, SettingParameters, st.c.expected)];
    assert Stages(n, i, 2).workers == st.workers + [Worker(n.c.token, TR05, e.mission, StartingNav2, st.c.expected)];
    assert Stages(n, i, 3).workers == st.workers + [Worker(n.c.token, TR05, e.mission, SendingGoal, st.c.expected)];
    assert Stages(n, i, 4).workers == st.workers + [Worker(n.c.token, TR05, e.mission, Finishing, st.c.expected)];
    assert Stages(n, i, 5).workers == st.workers + [Worker(n.c.token, TR05, e.mission, Done, st.c.expected)];
  }

  /** And once its mask, a valid info and an applied limit are read, it drives. */
  lemma UndisturbedStartDrives(st: State, e: Event)
    requires IsStart(st, e)
    ensures var ready := Stages(Step(st, e), |st.workers|, 5);
      !Step(Step(Step(ready, KeepoutMask(e.mission.keepout)), KeepoutInfo(true)), SpeedReading(Applied)).hold
  {
    StartStarts(st, e);
    StagesOfStart(st, e);
    hide Stages, HumanRequest, WorkerStage, OnFeedback, GoalEnd, WorkerFails;
  }

  /** A resume that nothing disturbs: its two stages send a new goal and mark it as under way; nothing else changes. Once an
      applied limit is read, it drives if the mask and its info still stand. */
  lemma UndisturbedResumeDrives(st: State, e: Event)
    requires e.Human? && e.event == Resume && st.s.mode == Pause && !st.s.poseRequired && MayResume(st, e.localizationNormal)
    ensures var i, n := |st.workers|, Step(st, e); var w := Worker(n.c.token, TR10, st.d.mission.value, Done, st.c.expected);
      Stages(n, i, 2)
      == n.(c := n.c.(goal := Some(st.goals)), d := n.d.(goalActive := true), goals := st.goals + 1, workers := st.workers + [w])
    ensures Confirmed(st.c) ==> !Step(Stages(Step(st, e), |st.workers|, 2), SpeedReading(Applied)).hold
  {
    ResumeRemembers(st, e);
    var i, n := |st.workers|, Step(st, e);
    hide HumanRequest, OnKeepout, OnFeedback, GoalEnd, WorkerFails;
    assert Stages(n, i, 1).workers
        == st.workers + [Worker(n.c.token, TR10, st.d.mission.value, Finishing, st.c.expected)];
    assert Stages(n, i, 2).workers == st.workers + [Worker(n.c.token, TR10, st.d.mission.value, Done, st.c.expected)];
  }

  /** A worker whose token is no longer the current one gives up and changes nothing else, and one that ended stays so. */
  lemma AbandonedStageGivesUp(st: State, i: nat)
    requires i < |st.workers| && (st.workers[i].token != st.c.token || st.workers[i].stage == Done || st.workers[i].stage == Gone)
    ensures var w := st.workers[i];
      Step(st, Stage(i)) == if w.stage == Done || w.stage == Gone then st else st.(workers := st.workers[i := w.(stage := Gone)])
  {
  }

  /** The jobs after an end leave a client without a goal, Nav2 or localization, so that no resume is possible. */
  lemma EndLeavesNothing(st: State, e: Event, localizationNormal: bool)
    requires (st.s.mode == Autonomy || st.s.mode == Pause) && e.Human? && e.event == EndAutonomy
    ensures var left := Step(Step(Step(Step(st, e), CancelGoal), Nav2Reset(true)), LocalizationStops);
      && left.c == st.c.(token := st.c.token + 1, goal := None, nav2 := false, localized := false)
      && left.s.mode == Manual && left.d.mission.None? && left.hold && left.workers == st.workers
      && !MayResume(left, localizationNormal)
  {
    HumanEndEnds(st, e);
    hide HumanRequest, WorkerStage, OnFeedback, GoalEnd, WorkerFails, OnSpeed, OnKeepout;
  }

  // ----- a mask from before a resume

  /** Whatever the transition: a mask that counts as matching was received in the run. */
  lemma {:induction false} MatchingMaskWasReceived(record: Option<Record>, events: seq<Event>)
    ensures var c := Run(record, events).c;
      c.mask == SameMask ==> c.expected.Some? && KeepoutMask(c.expected.value) in events
  {
    if events != [] {
      var n := |events| - 1;
      MatchingMaskWasReceived(record, events[..n]);
      MaskReading(Run(record, events[..n]), events[n]);
      assert forall e :: e in events[..n] ==> e in events;
      hide Step;
    }
  }

  predicate MaskStep(a: Client, b: Client, e: Event) {
    b.mask == SameMask ==> b.expected.Some? && ((a.mask == SameMask && a.expected == b.expected) || e == KeepoutMask(b.expected.value))
  }

  lemma MaskReading(st: State, e: Event)
    requires st.c.mask == SameMask ==> st.c.expected.Some?
    ensures MaskStep(st.c, Step(st, e).c, e)
  {
    hide HumanRequest, WorkerStage, WorkerFails, GoalEnd, OnFeedback, OnSpeed, OnKeepout, AutoPause;
    match e {
      case Human(_, _, _, _, _) => RequestReading(st, e);
      case Stage(i) => if i < |st.workers| { StageReading(st, i); }
      case StageFails(i, stop) => if i < |st.workers| { DrivingFails(st, i, stop); }
      case GoalEnds(handle, outcome) => GoalReading(st, handle, outcome);
      case Feedback(offset, section) => FeedbackReading(st, offset, section);
      case SpeedReading(speed) => SpeedKeeps(st, speed);
      case KeepoutMask(id) => KeepoutKeeps(st.(c := st.c.(mask := if st.c.expected == Some(id) then SameMask else OtherMask)));
      case KeepoutInfo(valid) => KeepoutKeeps(st.(c := st.c.(info := valid)));
      case LocalizationBad => PauseReading(NewToken(st), TR07, EstimatorUnavailable, st.s.progress.remaining);
      case _ =>
    }
  }

  lemma PauseReading(st: State, tid: Transition, stop: Stop, remaining: int)
    ensures var n := AutoPause(st, tid, stop, remaining); n.c == st.c && n.d.mission == st.d.mission
  {
  }

  lemma GoalReading(st: State, handle: nat, outcome: Outcome)
    ensures GoalEnd(st, handle, outcome).c.(goal := st.c.goal) == st.c && GoalEnd(st, handle, outcome).d.mission == st.d.mission
  {
    hide AutoPause;
    var st1 := st.(c := st.c.(goal := None), d := st.d.(goalActive := false));
    match outcome
    case Succeeded =>
      var n := if st.d.mission.Some? then st.d.mission.value.waypoints - 1 else st.d.nextOffset;
      PauseReading(st1.(d := st1.d.(nextOffset := n)), TR08, GoalReached, 1);
    case Cancelled =>
    case Failed(stop) => PauseReading(st1, TR07, stop, st.s.progress.remaining);
  }

  lemma StageReading(st: State, i: nat)
    requires i < |st.workers|
    ensures WorkerStage(st, i).c.mask == SameMask ==> st.c.mask == SameMask && WorkerStage(st, i).c.expected == st.c.expected
  {
  }

  lemma RequestReading(st: State, e: Event)
    requires e.Human? && (st.c.mask == SameMask ==> st.c.expected.Some?)
    ensures MaskStep(st.c, HumanRequest(st, e).c, e)
  {
    hide RequestTransition, Perform;
    var a := RequestTransition(e.event, st.s, IMPLEMENTED);
    if a.Accepted? {
      PerformReading(st, a.tid, a.state, e);
    }
  }

  lemma PerformReading(st: State, tid: Transition, s: ModeState, e: Event)
    requires e.Human?
    ensures Perform(st, tid, s, e).c.mask == st.c.mask && Perform(st, tid, s, e).c.expected == st.c.expected
  {
    hide Filled, HoldOf;
  }

  // ----- the mask after a resume

  /** After a resume, the mask confirmed at the release is the mission's own exactly when keepout_expected was the
      mission's mask at the moment of the resume. */
  lemma ResumeReleasesOwnMaskIff(st: State, e: Event)
    requires Inv(st) && Releases(st, e)
    requires var w := Current(Step(st, e).workers, Step(st, e).c.token); w.Some? && w.value.tid == TR10
    ensures var n := Step(st, e); var w := Current(n.workers, n.c.token).value;
      n.d.mission == Some(w.mission) && (n.c.expected == Some(w.mission.keepout) <==> w.known == Some(w.mission.keepout))
  {
    ReleaseNeedsEverything(st, e);
    hide Step;
  }

  /** A resume is accepted exactly under its guard; it drives the same mission with the hold on, and its worker remembers
      keepout_expected of that moment. */
  lemma ResumeRemembers(st: State, e: Event)
    requires e.Human? && e.event == Resume && st.s.mode == Pause && !st.s.poseRequired
    ensures var n := Step(st, e);
      if MayResume(st, e.localizationNormal)
      then
        && n.s.mode == Autonomy && !n.s.human && n.s.stop == NoStop && n.hold
        && n.s.progress == st.s.progress.(speed := UnknownSpeed)
        && n.d == st.d.(released := false) && n.c == st.c.(token := st.c.token + 1)
        && n.workers == st.workers + [Worker(n.c.token, TR10, st.d.mission.value, SendingGoal, st.c.expected)]
      else n == st
  {
    MatchIsTable(Resume, Pause);
    hide Match, Rows;
  }

  ghost predicate Reachable(st: State) {
    exists record, events :: Run(record, events) == st
  }

  lemma ReachableNext(st: State, e: Event)
    requires Reachable(st)
    ensures Reachable(Step(st, e))
  {
    var record, events :| Run(record, events) == st;
    assert (events + [e])[..|events|] == events;
    assert Run(record, events + [e]) == Step(st, e);
  }

  /** The first mission was driven up to its accepted goal, its mask confirmed. */
  predicate FirstStarted(st: State, a: Mission) {
    && st.s.mode == Autonomy && st.d == Drive(Some(a), false, true, 0) && |st.workers| == 1
    && st.c == Client(1, Some(0), true, true, Some(a.keepout), SameMask, true)
  }

  lemma BootedReachable()
    ensures Reachable(Booted(None))
  {
    assert Run(None, []) == Booted(None);
  }

  lemma StartFirst(a: Mission) returns (st: State)
    ensures Reachable(st) && st.s.mode == Autonomy && st.d == Drive(Some(a), false, false, 0)
    ensures st.workers == [Worker(1, TR05, a, Localizing, None)] && st.s.progress.speed == NotLoaded && st.goals == 0
    ensures st.c == Client(1, None, false, false, None, NotReceived, false)
  {
    var e := Human(StartAutonomy, true, a, 1, true);
    BootedReachable();
    ReachableNext(Booted(None), e);
    hide Reachable;
    MatchIsTable(StartAutonomy, Manual);
    hide Match, Rows;
    st := Step(Booted(None), e);
  }

  lemma PrepareFirst(a: Mission) returns (st: State)
    ensures Reachable(st) && st.s.mode == Autonomy && st.d == Drive(Some(a), false, false, 0) && st.s.progress.speed == NotLoaded
    ensures st.workers == [Worker(1, TR05, a, SendingGoal, None)] && st.goals == 0
    ensures st.c == Client(1, None, true, true, Some(a.keepout), NotReceived, false)
  {
    hide Reachable;
    var s1 := StartFirst(a);
    var s2 := Step(s1, Stage(0));
    ReachableNext(s1, Stage(0));
    var s3 := Step(s2, Stage(0));
    ReachableNext(s2, Stage(0));
    st := Step(s3, Stage(0));
    ReachableNext(s3, Stage(0));
  }

  lemma FinishFirst(a: Mission) returns (st: State)
    ensures Reachable(st) && FirstStarted(st, a)
  {
    hide Reachable;
    var s4 := PrepareFirst(a);
    var s5 := Step(s4, Stage(0));
    ReachableNext(s4, Stage(0));
    var s6 := Step(s5, Stage(0));
    ReachableNext(s5, Stage(0));
    var s7 := Step(s6, KeepoutMask(a.keepout));
    ReachableNext(s6, KeepoutMask(a.keepout));
    st := Step(s7, KeepoutInfo(true));
    ReachableNext(s7, KeepoutInfo(true));
  }

  /** The first mission was ended, but the job that resets Nav2 was abandoned by the start of a second one, whose worker
      failed before it set its own mask. */
  predicate SecondFailed(st: State, a: Mission, b: Mission) {
    && st.s.mode == Pause && !st.s.poseRequired && st.d == Drive(Some(b), false, false, 0)
    && st.c == Client(3, None, true, true, Some(a.keepout), SameMask, true)
  }

  /** An end, then the jobs after it: the goal may still be there. */
  lemma EndFirst(st: State, a: Mission, cancelled: bool) returns (r: State)
    requires Reachable(st) && FirstStarted(st, a)
    ensures Reachable(r) && r.s.mode == Manual && r.d == Drive(None, false, false, 0) && r.workers == st.workers
    ensures r.c == Client(2, if cancelled then None else Some(0), true, true, Some(a.keepout), SameMask, true)
  {
    hide Reachable;
    var end := Human(EndAutonomy, true, a, 0, true);
    MatchIsTable(EndAutonomy, Autonomy);
    hide Match, Rows;
    r := Step(st, end);
    ReachableNext(st, end);
    if cancelled {
      ReachableNext(r, CancelGoal);
      r := Step(r, CancelGoal);
    }
  }

  lemma StartSecond(st: State, b: Mission) returns (r: State)
    requires Reachable(st) && st.s.mode == Manual && st.d == Drive(None, false, false, 0) && |st.workers| == 1
    ensures Reachable(r) && r.s.mode == Autonomy && !r.s.poseRequired && r.d == Drive(Some(b), false, false, 0)
    ensures r.c == st.c.(token := st.c.token + 1)
    ensures r.workers == st.workers + [Worker(st.c.token + 1, TR05, b, Localizing, st.c.expected)]
  {
    hide Reachable;
    var start := Human(StartAutonomy, true, b, 2, true);
    MatchIsTable(StartAutonomy, Manual);
    hide Match, Rows;
    r := Step(st, start);
    ReachableNext(st, start);
  }

  lemma FailSecond(st: State, a: Mission, b: Mission) returns (r: State)
    requires Reachable(st) && FirstStarted(st, a)
    ensures Reachable(r) && SecondFailed(r, a, b)
  {
    hide Reachable;
    var s2 := EndFirst(st, a, true);
    var s3 := StartSecond(s2, b);
    r := Step(s3, StageFails(1, NodeFailure));
    ReachableNext(s3, StageFails(1, NodeFailure));
  }

  /** The hold can be released after a resume while the confirmed mask is that of another mission. */
  lemma ResumeCanReleaseWithOldMask(a: Mission, b: Mission) returns (st: State, e: Event)
    requires a.keepout != b.keepout
    ensures Reachable(st) && Releases(st, e)
    ensures Step(st, e).d.mission == Some(b) && Step(st, e).c.expected == Some(a.keepout) != Some(b.keepout)
  {
    hide Reachable;
    var s0 := FinishFirst(a);
    var s1 := FailSecond(s0, a, b);
    var s4 := ResumeSecond(s1, a, b);
    st := s4;
    e := SpeedReading(Applied);
  }

  lemma ResumeSecond(st: State, a: Mission, b: Mission) returns (r: State)
    requires Reachable(st) && SecondFailed(st, a, b)
    ensures Reachable(r) && r.s.mode == Autonomy && r.d == Drive(Some(b), false, true, 0)
    ensures r.c.expected == Some(a.keepout) && Confirmed(r.c)
  {
    hide Reachable;
    var resume := Human(Resume, true, b, 0, true);
    MatchIsTable(Resume, Pause);
    hide Match, Rows;
    var s1 := Step(st, resume);
    ReachableNext(st, resume);
    var i := |st.workers|;
    assert s1.s.mode == Autonomy && s1.workers[i] == Worker(4, TR10, b, SendingGoal, Some(a.keepout)) && s1.c.token == 4;
    var s2 := Step(s1, Stage(i));
    ReachableNext(s1, Stage(i));
    r := Step(s2, Stage(i));
    ReachableNext(s2, Stage(i));
  }

  // ----- a result that comes before the worker's last stage

  /** Paused, without a goal, and still marked as driving one. */
  predicate Stuck(st: State) {
    st.s.mode == Pause && st.d.goalActive && st.c.goal.None?
  }

  /** A goal's end that pauses. */
  predicate Pauses(outcome: Outcome) {
    outcome != Cancelled
  }

  /** When the goal ends before the worker that sent it marks it active, the mark is set after the pause. */
  lemma ResultBeforeFinishSticks(st: State, handle: nat, outcome: Outcome)
    requires Inv(st) && st.s.mode == Autonomy && st.c.goal == Some(handle) && Pauses(outcome)
    requires Current(st.workers, st.c.token).value.stage == Finishing
    ensures Stuck(Step(Step(st, GoalEnds(handle, outcome)), Stage(|st.workers| - 1)))
  {
    GoalEndPauses(st, handle, outcome);
    LastIsCurrent(st);
    hide Step, Inv, Current;
    StageEffect(Step(st, GoalEnds(handle, outcome)), |st.workers| - 1);
  }

  lemma LastIsCurrent(st: State)
    requires Inv(st) && st.s.mode == Autonomy
    ensures st.workers != [] && Current(st.workers, st.c.token) == Some(st.workers[|st.workers| - 1])
    ensures st.workers[|st.workers| - 1].token == st.c.token
  {
    hide TokensInOrder, WorkerKnows;
  }

  /** What the next stage of the worker with the current token does. */
  lemma StageEffect(st: State, i: nat)
    requires i < |st.workers| && st.workers[i].token == st.c.token
    ensures var n := Step(st, Stage(i));
      match st.workers[i].stage
      case Localizing => n == SetStage(st.(c := st.c.(localized := true)), i, SettingParameters)
      case SettingParameters =>
        n == SetStage(st.(c := st.c.(expected := Some(st.workers[i].mission.keepout), mask := NotReceived, info := false)), i, StartingNav2)
      case StartingNav2 => n == SetStage(st.(c := st.c.(nav2 := true)), i, SendingGoal)
      case SendingGoal => n == SetStage(st.(c := st.c.(goal := Some(st.goals)), goals := st.goals + 1), i, Finishing)
      case Finishing => n == SetStage(st.(d := st.d.(goalActive := true)), i, Done)
      case _ => n == st
  {
    hide SetStage;
  }

  /** The last stage of the current worker, or the loss of a goal that is marked as driven. */
  predicate Sticks(st: State, e: Event) {
    st.s.mode == Pause
    && ((e.Stage? && st.c.goal.None? && e.worker < |st.workers| && st.workers[e.worker].token == st.c.token
         && st.workers[e.worker].stage == Finishing)
        || (e.CancelGoal? && st.d.goalActive))
  }

  /** A step leads into that pause exactly when, in a pause, the current worker takes its last stage without a goal or the
      goal is cancelled while it is marked as driven. */
  lemma StuckExactlyWhen(st: State, e: Event)
    requires Inv(st) && !Stuck(st)
    ensures Stuck(Step(st, e)) <==> Sticks(st, e)
  {
    hide TokensInOrder, Current, WorkerKnows, RequestTransition, HumanRequest, WorkerStage, WorkerFails, GoalEnd, TryRelease;
    match e
    case Human(_, _, _, _, _) => HumanDoesNotStick(st, e);
    case Stage(i) => if i < |st.workers| { StageSticks(st, i); }
    case StageFails(i, stop) => if i < |st.workers| { FailDoesNotStick(st, i, stop); }
    case GoalEnds(handle, outcome) => GoalDoesNotStick(st, handle, outcome);
    case SpeedReading(speed) =>
      ReleaseShows(st);
      ReleaseShows(UpdateProgress(st, st.s.progress.(speed := speed)));
    case KeepoutMask(id) => ReleaseShows(st.(c := st.c.(mask := if st.c.expected == Some(id) then SameMask else OtherMask)));
    case KeepoutInfo(valid) => ReleaseShows(st.(c := st.c.(info := valid)));
    case _ =>
  }

  lemma HumanDoesNotStick(st: State, e: Event)
    requires e.Human? && !Stuck(st)
    ensures !Stuck(HumanRequest(st, e))
  {
    hide RequestTransition;
    if RequestTransition(e.event, st.s, IMPLEMENTED).Accepted? {
      AcceptedModes(e.event, st.s);
    }
  }

  lemma StageSticks(st: State, i: nat)
    requires i < |st.workers| && !Stuck(st)
    ensures Stuck(WorkerStage(st, i)) <==> Sticks(st, Stage(i))
  {
  }

  lemma FailDoesNotStick(st: State, i: nat, stop: Stop)
    requires i < |st.workers| && !Stuck(st)
    ensures !Stuck(WorkerFails(st, i, stop))
  {
  }

  lemma GoalDoesNotStick(st: State, handle: nat, outcome: Outcome)
    requires !Stuck(st)
    ensures !Stuck(GoalEnd(st, handle, outcome))
  {
  }

  /** From there every resume is refused: only an end leaves the pause. */
  lemma StuckUntilEnd(st: State, e: Event)
    requires Inv(st) && Stuck(st) && !(e.Human? && e.event == EndAutonomy)
    ensures Stuck(Step(st, e))
  {
    if e.Human? && RequestTransition(e.event, st.s, IMPLEMENTED).Accepted? {
      AcceptedModes(e.event, st.s);
    } else if e.Stage? && e.worker < |st.workers| {
      SetStageCurrent(st, e.worker, Gone);
    } else if e.StageFails? && e.worker < |st.workers| {
      SetStageCurrent(st, e.worker, Gone);
    }
    hide RequestTransition, TokensInOrder, Current;
  }

  /** Such a pause can be reached, whatever the mission and whether its goal succeeds or fails. */
  lemma StuckIsReachable(a: Mission, outcome: Outcome) returns (st: State)
    requires Pauses(outcome)
    ensures Reachable(st) && Stuck(st) && st.d.mission == Some(a)
  {
    hide Reachable;
    var s4 := PrepareFirst(a);
    var s5 := Step(s4, Stage(0));
    ReachableNext(s4, Stage(0));
    var s6 := Step(s5, GoalEnds(0, outcome));
    ReachableNext(s5, GoalEnds(0, outcome));
    assert s6.s.mode == Pause && s6.c.goal == None && s6.workers[0].stage == Finishing;
    st := Step(s6, Stage(0));
    ReachableNext(s6, Stage(0));
  }

  /** The other step can lead there too: a late cancel, meant for the first mission's goal, takes the goal of a second start that a
      result of the first goal has paused. */
  lemma StuckByCancel(a: Mission, b: Mission, outcome: Outcome) returns (st: State)
    requires Pauses(outcome)
    ensures Reachable(st) && !Stuck(st) && Stuck(Step(st, CancelGoal)) && st.d.mission == Some(b)
  {
    hide Reachable;
    var s0 := FinishFirst(a);
    var s2 := EndFirst(s0, a, false);
    var s3 := StartSecond(s2, b);
    var s4 := Step(s3, GoalEnds(0, outcome));
    ReachableNext(s3, GoalEnds(0, outcome));
    assert s4.s.mode == Pause && s4.workers == s3.workers && s4.c.token == 3 && s4.d.mission == Some(b);
    st := StagesInPause(s4);
  }

  /** All stages of the newest worker, in a pause. */
  lemma StagesInPause(st: State) returns (r: State)
    requires Reachable(st) && st.s.mode == Pause && |st.workers| == 2
    requires st.workers[1].token == st.c.token && st.workers[1].stage == Localizing
    ensures Reachable(r) && r.s.mode == Pause && r.d == st.d.(goalActive := true) && r.c.goal.Some?
  {
    hide Reachable, Step;
    StageEffect(st, 1);
    var s1 := ReachableStage(st, 1);
    StageEffect(s1, 1);
    var s2 := ReachableStage(s1, 1);
    StageEffect(s2, 1);
    var s3 := ReachableStage(s2, 1);
    assert s3.s == st.s && s3.d == st.d && |s3.workers| == 2 && s3.workers[1].token == s3.c.token
        && s3.workers[1].stage == SendingGoal;
    StageEffect(s3, 1);
    var s4 := ReachableStage(s3, 1);
    StageEffect(s4, 1);
    r := ReachableStage(s4, 1);
  }

  lemma ReachableStage(st: State, i: nat) returns (r: State)
    requires Reachable(st) && i < |st.workers| && st.workers[i].token == st.c.token
    ensures Reachable(r) && r == Step(st, Stage(i))
  {
    hide Reachable, Step;
    ReachableNext(st, Stage(i));
    r := Step(st, Stage(i));
  }
}
