/** The inputs of the speed limit state, which the autonomy client keeps beside the mode manager: the filter mask, its info,
    the robot's position and the last speed limit. The parameter stage of a start forgets them all. */
module SpeedInputs {
  import opened Frames
  import opened Modes
  import opened Hold

  /** An OccupancyGrid, row-major. */
  datatype MaskGrid = MaskGrid(originX: real, originY: real, resolution: real, width: nat, height: nat, data: seq<int>)

  type FilterMask = m: MaskGrid | m.resolution > 0.0 && |m.data| == m.height * m.width
    witness MaskGrid(0.0, 0.0, 1.0, 0, 0, [])

  lemma InRow(i: nat, j: nat, width: nat, height: nat)
    requires i < width && j < height
    ensures j * width + i < height * width
  {
    assert (j + 1) * width <= height * width;
  }

  /** The value of the cell at a position, None outside the mask. */
  function CellAt(m: FilterMask, x: real, y: real): Option<int> {
    var i, j := ((x - m.originX) / m.resolution).Floor, ((y - m.originY) / m.resolution).Floor;
    if 0 <= i < m.width && 0 <= j < m.height then
      InRow(i, j, m.width, m.height);
      Some(m.data[j * m.width + i])
    else None
  }

  /** The cell in row j and column i covers one resolution from its corner on, the lower edges included. */
  predicate CellHolds(m: FilterMask, i: int, j: int, x: real, y: real) {
    && m.originX + i as real * m.resolution <= x < m.originX + (i + 1) as real * m.resolution
    && m.originY + j as real * m.resolution <= y < m.originY + (j + 1) as real * m.resolution
  }

  /** The value read at a position is that of the cell, in its row and column, that holds the position; it is None exactly when
      no cell of the mask does. */
  lemma CellAtHolds(m: FilterMask, x: real, y: real) returns (i: int, j: int)
    ensures CellHolds(m, i, j, x, y)
    ensures if 0 <= i < m.width && 0 <= j < m.height
            then j * m.width + i < |m.data| && CellAt(m, x, y) == Some(m.data[j * m.width + i])
            else CellAt(m, x, y) == None
  {
    i, j := ((x - m.originX) / m.resolution).Floor, ((y - m.originY) / m.resolution).Floor;
    FloorHolds(m.originX, x, m.resolution);
    FloorHolds(m.originY, y, m.resolution);
    if 0 <= i < m.width && 0 <= j < m.height {
      InRow(i, j, m.width, m.height);
    }
  }

  lemma FloorHolds(origin: real, v: real, r: real)
    requires r > 0.0
    ensures var i := ((v - origin) / r).Floor; origin + i as real * r <= v < origin + (i + 1) as real * r
  {
    var q := (v - origin) / r;
    assert q * r == v - origin;
    var i := q.Floor;
    Longer(i as real, q, r);
    var next := (i + 1) as real;
    assert q < next;
    StrictlyLonger(q, next, r);
    assert v < origin + next * r;
  }

  lemma Longer(a: real, b: real, r: real)
    requires a <= b && r > 0.0
    ensures a * r <= b * r
  {
  }

  lemma StrictlyLonger(a: real, b: real, r: real)
    requires a < b && r > 0.0
    ensures a * r < b * r
  {
  }

  /** Only one cell holds a position. */
  lemma OneCellHolds(m: FilterMask, i: int, j: int, k: int, l: int, x: real, y: real)
    requires CellHolds(m, i, j, x, y) && CellHolds(m, k, l, x, y)
    ensures i == k && j == l
  {
    SameColumn(m.originX, i, k, x, m.resolution);
    SameColumn(m.originY, j, l, y, m.resolution);
  }

  /** Where column i begins. */
  function Edge(origin: real, i: int, r: real): real {
    origin + i as real * r
  }

  lemma EdgesInOrder(origin: real, i: int, k: int, r: real)
    requires i <= k && r > 0.0
    ensures Edge(origin, i, r) <= Edge(origin, k, r)
  {
    Longer(i as real, k as real, r);
  }

  lemma SameColumn(origin: real, i: int, k: int, v: real, r: real)
    requires r > 0.0
    requires Edge(origin, i, r) <= v < Edge(origin, i + 1, r) && Edge(origin, k, r) <= v < Edge(origin, k + 1, r)
    ensures i == k
  {
    hide Edge;
    if i < k {
      EdgesInOrder(origin, i + 1, k, r);
    } else if k < i {
      EdgesInOrder(origin, k + 1, i, r);
    }
  }

  datatype Inputs = Inputs(mask: Option<FilterMask>, info: bool, at: Option<(real, real)>, limit: Option<real>)

  const EMPTY := Inputs(None, false, None, None)

  function SpeedLimitState(n: Inputs): Speed {
    if n.mask.None? || !n.info then NotLoaded
    else if n.at.None? then UnknownSpeed
    else
      var c := CellAt(n.mask.value, n.at.value.0, n.at.value.1);
      if c.None? then OutsideMask
      else if c.value <= 0 then OutsideBand
      else if n.limit.Some? && n.limit.value > 0.0 then Applied
      else UnknownSpeed
  }

  /** The cell that holds the robot, with its value. */
  ghost predicate RobotOn(n: Inputs, i: nat, j: nat, value: int)
    requires n.mask.Some? && n.at.Some?
  {
    var m := n.mask.value;
    && i < m.width && j < m.height && CellHolds(m, i, j, n.at.value.0, n.at.value.1)
    && j * m.width + i < |m.data| && value == m.data[j * m.width + i]
  }

  /** What the five states mean, in terms of the cell the robot stands on. */
  lemma SpeedLimitStateMeans(n: Inputs)
    ensures SpeedLimitState(n) == NotLoaded <==> n.mask.None? || !n.info
    ensures n.mask.Some? && n.info && n.at.None? ==> SpeedLimitState(n) == UnknownSpeed
    ensures n.mask.Some? && n.info && n.at.Some? ==>
      && (SpeedLimitState(n) == OutsideMask <==> forall i: nat, j: nat, v: int :: !RobotOn(n, i, j, v))
      && (SpeedLimitState(n) == OutsideBand <==> exists i: nat, j: nat, v: int :: RobotOn(n, i, j, v) && v <= 0)
      && (SpeedLimitState(n) == Applied
          <==> n.limit.Some? && n.limit.value > 0.0 && exists i: nat, j: nat, v: int :: RobotOn(n, i, j, v) && v > 0)
  {
    if n.mask.Some? && n.info && n.at.Some? {
      var m, x, y := n.mask.value, n.at.value.0, n.at.value.1;
      var i, j := CellAtHolds(m, x, y);
      forall k: nat, l: nat, v: int | RobotOn(n, k, l, v)
        ensures k == i && l == j && CellAt(m, x, y) == Some(v)
      {
        OneCellHolds(m, i, j, k, l, x, y);
      }
      if 0 <= i < m.width && 0 <= j < m.height {
        assert RobotOn(n, i, j, m.data[j * m.width + i]);
      }
      hide CellAt, CellHolds;
    }
  }

  /** The messages that carry inputs; every other event is one of the mode manager's. */
  datatype Message =
    | LimitReceived(limit: real)
    | MaskReceived(mask: FilterMask)
    | InfoReceived
    | FeedbackReceived(offset: nat, section: int, x: real, y: real)
    | Other(event: Hold.Event)

  datatype World = World(st: State, n: Inputs)

  /** _speed_state: the inputs give a reading. */
  function Observed(w: World, n: Inputs): World {
    World(Step(w.st, SpeedReading(SpeedLimitState(n))), n)
  }

  /** The parameter stage of the current worker. */
  predicate Resets(st: State, e: Hold.Event) {
    e.Stage? && e.worker < |st.workers| && st.workers[e.worker].token == st.c.token
    && st.workers[e.worker].stage == SettingParameters
  }

  /** Speed readings and feedback come only from messages. */
  function AfterMessage(w: World, m: Message): World {
    match m
    case LimitReceived(limit) => Observed(w, w.n.(limit := Some(limit)))
    case MaskReceived(mask) => Observed(w, w.n.(mask := Some(mask)))
    case InfoReceived => Observed(w, w.n.(info := true))
    case FeedbackReceived(offset, section, x, y) =>
      var w1 := World(Step(w.st, Feedback(offset, section)), w.n.(at := Some((x, y))));
      Observed(w1, w1.n)
    case Other(e) =>
      if e.SpeedReading? || e.Feedback? then w
      else World(Step(w.st, e), if Resets(w.st, e) then EMPTY else w.n)
  }

  function RunAll(record: Option<Record>, ms: seq<Message>): World {
    if ms == [] then World(Booted(record), EMPTY) else AfterMessage(RunAll(record, ms[..|ms| - 1]), ms[|ms| - 1])
  }

  // ----- the client's part

  class SpeedClient {
    const manager: ModeManager
    var mask: Option<FilterMask>
    var infoReceived: bool
    var robotXy: Option<(real, real)>
    var limitSinceStart: Option<real>

    constructor (manager: ModeManager)
      ensures this.manager == manager && ViewInputs() == EMPTY
    {
      this.manager := manager;
      mask, infoReceived, robotXy, limitSinceStart := None, false, None, None;
    }

    ghost function ViewInputs(): Inputs
      reads this
    {
      Inputs(mask, infoReceived, robotXy, limitSinceStart)
    }

    ghost function View(): World
      reads this, manager, manager.auto
    {
      World(manager.View(), ViewInputs())
    }

    method SpeedState()
      modifies manager
      ensures View() == Observed(old(View()), old(ViewInputs()))
    {
      hide Step, SpeedLimitState;
      manager.OnSpeedState(SpeedLimitState(Inputs(mask, infoReceived, robotXy, limitSinceStart)));
    }

    method OnSpeedLimit(limit: real)
      modifies this, manager
      ensures View() == AfterMessage(old(View()), LimitReceived(limit))
    {
      hide Step, SpeedLimitState;
      limitSinceStart := Some(limit);
      SpeedState();
    }

    method OnMask(m: FilterMask)
      modifies this, manager
      ensures View() == AfterMessage(old(View()), MaskReceived(m))
    {
      hide Step, SpeedLimitState;
      mask := Some(m);
      SpeedState();
    }

    method OnInfo()
      modifies this, manager
      ensures View() == AfterMessage(old(View()), InfoReceived)
    {
      hide Step, SpeedLimitState;
      infoReceived := true;
      SpeedState();
    }

    method OnFeedback(offset: nat, section: int, x: real, y: real)
      modifies this, manager
      ensures View() == AfterMessage(old(View()), FeedbackReceived(offset, section, x, y))
    {
      hide Step, SpeedLimitState;
      robotXy := Some((x, y));
      manager.OnNavFeedback(offset, section);
      SpeedState();
    }

    /** The next stage of a worker; the parameter stage forgets the inputs. */
    method RunStage(i: nat)
      requires i < |manager.workers|
      modifies this, manager, manager.auto
      ensures View() == AfterMessage(old(View()), Other(Stage(i)))
    {
      hide Step;
      var w := manager.workers[i];
      if w.token == manager.auto.token && w.stage == SettingParameters {
        mask, infoReceived, robotXy, limitSinceStart := None, false, None, None;
      }
      manager.RunStage(i);
    }
  }

  // ----- runs with inputs are runs of the mode manager

  lemma {:induction false} RunsAreRuns(record: Option<Record>, ms: seq<Message>)
    ensures Reachable(RunAll(record, ms).st)
  {
    hide Step, Reachable, SpeedLimitState;
    if ms == [] {
      StartsReachable(record);
    } else {
      var w := RunAll(record, ms[..|ms| - 1]);
      RunsAreRuns(record, ms[..|ms| - 1]);
      match ms[|ms| - 1]
      case LimitReceived(limit) => ReachableNext(w.st, SpeedReading(SpeedLimitState(w.n.(limit := Some(limit)))));
      case MaskReceived(mask) => ReachableNext(w.st, SpeedReading(SpeedLimitState(w.n.(mask := Some(mask)))));
      case InfoReceived => ReachableNext(w.st, SpeedReading(SpeedLimitState(w.n.(info := true))));
      case FeedbackReceived(offset, section, x, y) =>
        ReachableNext(w.st, Feedback(offset, section));
        ReachableNext(Step(w.st, Feedback(offset, section)), SpeedReading(SpeedLimitState(w.n.(at := Some((x, y))))));
      case Other(e) =>
        ReachableNext(w.st, e);
    }
  }

  lemma StartsReachable(record: Option<Record>)
    ensures Reachable(Booted(record))
  {
    assert Run(record, []) == Booted(record);
  }

  lemma ReachableInv(st: State)
    requires Reachable(st)
    ensures Inv(st)
  {
    hide Inv;
    var record, events :| Run(record, events) == st;
    Hold.RunKeeps(record, events);
  }

  // ----- how old the speed reading is at the release

  /** Some input was received and no parameter stage forgot it. */
  predicate InputSince(record: Option<Record>, ms: seq<Message>) {
    ms != [] &&
    var before, m := ms[..|ms| - 1], ms[|ms| - 1];
    !m.Other? || (InputSince(record, before) && !(Resets(RunAll(record, before).st, m.event)))
  }

  lemma {:induction false} InputSinceIff(record: Option<Record>, ms: seq<Message>)
    ensures InputSince(record, ms) <==> RunAll(record, ms).n != EMPTY
  {
    hide Step, SpeedLimitState, Resets;
    if ms != [] {
      InputSinceIff(record, ms[..|ms| - 1]);
      ResetsIsStage(RunAll(record, ms[..|ms| - 1]).st, ms[|ms| - 1]);
    }
  }

  lemma ResetsIsStage(st: State, m: Message)
    ensures m.Other? && Resets(st, m.event) ==> m.event.Stage?
  {
  }

  datatype Kind = LimitKind | MaskKind | InfoKind | PositionKind

  predicate IsKind(m: Message, kind: Kind) {
    match kind
    case LimitKind => m.LimitReceived?
    case MaskKind => m.MaskReceived?
    case InfoKind => m.InfoReceived?
    case PositionKind => m.FeedbackReceived?
  }

  predicate Has(n: Inputs, kind: Kind) {
    match kind
    case LimitKind => n.limit.Some?
    case MaskKind => n.mask.Some?
    case InfoKind => n.info
    case PositionKind => n.at.Some?
  }

  /** The input of this kind is what the message carries. */
  predicate Carries(m: Message, n: Inputs, kind: Kind)
    requires IsKind(m, kind)
  {
    match kind
    case LimitKind => n.limit == Some(m.limit)
    case MaskKind => n.mask == Some(m.mask)
    case InfoKind => n.info
    case PositionKind => n.at == Some((m.x, m.y))
  }

  /** The i-th message is the last of its kind, and no parameter stage came after it. */
  ghost predicate LastOf(record: Option<Record>, ms: seq<Message>, kind: Kind, i: nat) {
    && i < |ms| && IsKind(ms[i], kind)
    && forall j :: i < j < |ms| ==> !IsKind(ms[j], kind) && !ResetAt(record, ms, j)
  }

  predicate ResetAt(record: Option<Record>, ms: seq<Message>, j: nat)
    requires j < |ms|
  {
    ms[j].Other? && Resets(RunAll(record, ms[..j]).st, ms[j].event)
  }

  lemma KindStep(w: World, m: Message, kind: Kind)
    ensures var n := AfterMessage(w, m).n;
      && (IsKind(m, kind) ==> Carries(m, n, kind) && Has(n, kind))
      && (m.Other? && Resets(w.st, m.event) ==> !Has(n, kind))
      && (!IsKind(m, kind) && !(m.Other? && Resets(w.st, m.event)) ==>
            Has(n, kind) == Has(w.n, kind) && (kind == LimitKind ==> n.limit == w.n.limit) && (kind == MaskKind ==> n.mask == w.n.mask)
            && (kind == PositionKind ==> n.at == w.n.at))
  {
    hide Step, SpeedLimitState;
    if m.Other? {
      ResetsIsStage(w.st, m);
    }
    hide Resets;
  }

  /** In every run each input is what the last message of its kind since the last parameter stage carried. */
  lemma {:induction false} InputIsLast(record: Option<Record>, ms: seq<Message>, kind: Kind)
    ensures Has(RunAll(record, ms).n, kind) <==> exists i: nat :: LastOf(record, ms, kind, i)
    ensures forall i: nat :: LastOf(record, ms, kind, i) ==> Carries(ms[i], RunAll(record, ms).n, kind)
  {
    hide Step, SpeedLimitState, Resets, AfterMessage;
    if ms != [] {
      var k := |ms| - 1;
      var before := ms[..k];
      InputIsLast(record, before, kind);
      KindStep(RunAll(record, before), ms[k], kind);
      forall j: nat | j < k
        ensures ResetAt(record, ms, j) == ResetAt(record, before, j)
      {
        assert ms[..j] == before[..j];
      }
      hide Has, Carries, RunAll;
      if IsKind(ms[k], kind) {
        assert LastOf(record, ms, kind, k);
      } else if !ResetAt(record, ms, k) {
        forall i: nat ensures LastOf(record, ms, kind, i) <==> LastOf(record, before, kind, i) { LastOfLonger(record, ms, kind, i); }
      }
    }
  }

  lemma LastOfLonger(record: Option<Record>, ms: seq<Message>, kind: Kind, i: nat)
    requires ms != [] && !IsKind(ms[|ms| - 1], kind) && !ResetAt(record, ms, |ms| - 1)
    requires forall j: nat :: j < |ms| - 1 ==> ResetAt(record, ms, j) == ResetAt(record, ms[..|ms| - 1], j)
    ensures LastOf(record, ms, kind, i) <==> LastOf(record, ms[..|ms| - 1], kind, i)
  {
    hide ResetAt;
    var before := ms[..|ms| - 1];
    assert forall j :: 0 <= j < |before| ==> before[j] == ms[j];
  }

  /** In autonomy an applied reading is that of the present inputs, or it is from before the parameter stage of a start that
      forgot them. */
  ghost predicate Known(w: World) {
    w.st.s.mode == Autonomy && w.st.s.progress.speed == Applied ==>
      SpeedLimitState(w.n) == Applied || (StartPast(w.st) && w.n == EMPTY)
  }

  lemma PastStage(st: State, i: nat)
    requires Inv(st) && i < |st.workers|
    ensures StartPast(WorkerStage(st, i)) <==> StartPast(st) || Resets(st, Stage(i))
  {
    hide TokensInOrder, Current;
    SetStageCurrent(st, i, Gone);
    SetStageCurrent(st, i, SettingParameters);
    SetStageCurrent(st, i, StartingNav2);
    SetStageCurrent(st, i, SendingGoal);
    SetStageCurrent(st, i, Finishing);
    SetStageCurrent(st, i, Done);
  }

  lemma PastFail(st: State, i: nat, stop: Stop)
    requires Inv(st) && i < |st.workers| && WorkerFails(st, i, stop).s.mode == Autonomy
    ensures StartPast(WorkerFails(st, i, stop)) <==> StartPast(st)
  {
    hide TokensInOrder, Current, AutoPause;
    SetStageCurrent(st, i, Gone);
    PauseLeaves(SetStage(st, i, Gone), TR07, stop, st.s.progress.remaining);
  }

  lemma PastGoal(st: State, handle: nat, outcome: Hold.Outcome)
    requires GoalEnd(st, handle, outcome).s.mode == Autonomy
    ensures StartPast(GoalEnd(st, handle, outcome)) <==> StartPast(st)
  {
    hide Current, AutoPause;
    var st1 := st.(c := st.c.(goal := None), d := st.d.(goalActive := false));
    match outcome
    case Succeeded =>
      var n := if st.d.mission.Some? then st.d.mission.value.waypoints - 1 else st.d.nextOffset;
      PauseLeaves(st1.(d := st1.d.(nextOffset := n)), TR08, GoalReached, 1);
    case Cancelled =>
    case Failed(stop) => PauseLeaves(st1, TR07, stop, st.s.progress.remaining);
  }

  lemma PastStep(st: State, e: Hold.Event)
    requires Inv(st) && !e.SpeedReading? && !e.Feedback? && st.s.mode == Autonomy && Step(st, e).s.mode == Autonomy
    ensures StartPast(Step(st, e)) <==> StartPast(st) || Resets(st, e)
  {
    ResetsIsStage(st, Other(e));
    hide Inv, Current, TryRelease, HumanRequest, WorkerStage, WorkerFails, GoalEnd, AutoPause;
    match e
    case Human(_, _, _, _, _) => DrivingHuman(st, e);
    case Stage(i) => if i < |st.workers| { PastStage(st, i); }
    case StageFails(i, stop) => if i < |st.workers| { PastFail(st, i, stop); }
    case GoalEnds(handle, outcome) => PastGoal(st, handle, outcome);
    case KeepoutMask(id) => ReleaseShows(st.(c := st.c.(mask := if st.c.expected == Some(id) then SameMask else OtherMask)));
    case KeepoutInfo(valid) => ReleaseShows(st.(c := st.c.(info := valid)));
    case LocalizationBad => PauseLeaves(NewToken(st), TR07, EstimatorUnavailable, st.s.progress.remaining);
    case _ =>
  }

  lemma ObservedIsKnown(w: World, n: Inputs)
    ensures Known(Observed(w, n))
  {
    hide TryRelease, SpeedLimitState, StartPast;
    ReleaseShows(w.st);
    ReleaseShows(UpdateProgress(w.st, w.st.s.progress.(speed := SpeedLimitState(n))));
  }

  lemma OtherKeepsKnown(w: World, e: Hold.Event)
    requires Inv(w.st) && Known(w) && !e.SpeedReading? && !e.Feedback?
    ensures Known(AfterMessage(w, Other(e)))
  {
    hide Inv, Step, StartPast, Resets, SpeedLimitState, SameDrive;
    var n := Step(w.st, e);
    if n.s.mode == Autonomy && n.s.progress.speed == Applied {
      ReadingStep(w.st, e, SpeedRead);
      DriveInAutonomy(w.st, n);
      PastStep(w.st, e);
    }
  }

  lemma DriveInAutonomy(a: State, b: State)
    requires SameDrive(a, b)
    ensures a.s.mode == Autonomy
  {
  }

  lemma {:induction false} RunIsKnown(record: Option<Record>, ms: seq<Message>)
    ensures Known(RunAll(record, ms))
  {
    if ms == [] {
      NotBootedInAutonomy(record);
    } else {
      hide Inv, Step, Known, Observed, SpeedLimitState, Resets;
      var w := RunAll(record, ms[..|ms| - 1]);
      RunIsKnown(record, ms[..|ms| - 1]);
      RunsAreRuns(record, ms[..|ms| - 1]);
      ReachableInv(w.st);
      match ms[|ms| - 1]
      case LimitReceived(limit) => ObservedIsKnown(w, w.n.(limit := Some(limit)));
      case MaskReceived(mask) => ObservedIsKnown(w, w.n.(mask := Some(mask)));
      case InfoReceived => ObservedIsKnown(w, w.n.(info := true));
      case FeedbackReceived(offset, section, x, y) =>
        var w1 := World(Step(w.st, Feedback(offset, section)), w.n.(at := Some((x, y))));
        ObservedIsKnown(w1, w1.n);
      case Other(e) => if !e.SpeedReading? && !e.Feedback? { OtherKeepsKnown(w, e); }
    }
  }

  /** In every run in autonomy with the speed limit shown as applied, so whenever the hold is released: the inputs received
      since the last parameter stage give an applied limit exactly when some input was received since then, or no start has
      passed that stage. */
  lemma AppliedIsCurrentIff(record: Option<Record>, ms: seq<Message>)
    requires RunAll(record, ms).st.s.mode == Autonomy && RunAll(record, ms).st.s.progress.speed == Applied
    ensures SpeedLimitState(RunAll(record, ms).n) == Applied <==> (StartPast(RunAll(record, ms).st) ==> InputSince(record, ms))
  {
    RunIsKnown(record, ms);
    InputSinceIff(record, ms);
  }

  // ----- a start can release the hold on a reading from before its parameter stage

  ghost predicate Reached(w: World) {
    exists ms :: RunAll(None, ms) == w
  }

  lemma ReachedNext(w: World, m: Message) returns (r: World)
    requires Reached(w)
    ensures Reached(r) && r == AfterMessage(w, m)
  {
    var ms :| RunAll(None, ms) == w;
    r := AfterMessage(w, m);
    assert (ms + [m])[..|ms|] == ms;
    assert RunAll(None, ms + [m]) == r;
  }

  /** The newest worker has just been started. */
  predicate JustStarted(st: State, m: Mission) {
    && st.s.mode == Autonomy && st.d == Drive(Some(m), false, false, 0) && st.workers != []
    && var w := st.workers[|st.workers| - 1]; w.token == st.c.token && w.tid == TR05 && w.mission == m && w.stage == Localizing
  }

  /** The next stage of the worker with the current token. */
  lemma WorkerMoves(w: World, i: nat) returns (r: World)
    requires Reached(w) && i < |w.st.workers| && w.st.workers[i].token == w.st.c.token
    ensures Reached(r) && r.st == Step(w.st, Stage(i))
    ensures r.n == if w.st.workers[i].stage == SettingParameters then EMPTY else w.n
  {
    hide Reached, Step;
    r := ReachedNext(w, Other(Stage(i)));
  }

  /** Its first three stages, with no message in between; the second forgets the inputs. */
  lemma PrepareStages(w: World, m: Mission) returns (r: World)
    requires Reached(w) && JustStarted(w.st, m)
    ensures Reached(r) && r.n == EMPTY && r.st.s == w.st.s && r.st.d == w.st.d && r.st.c.token == w.st.c.token
    ensures r.st.c.expected == Some(m.keepout) && r.st.c.mask == NotReceived && !r.st.c.info
    ensures var i := |w.st.workers| - 1; r.st.workers == w.st.workers[i := w.st.workers[i].(stage := SendingGoal)]
  {
    hide Reached, Step;
    var i := |w.st.workers| - 1;
    StageEffect(w.st, i);
    var w1 := WorkerMoves(w, i);
    StageEffect(w1.st, i);
    var w2 := WorkerMoves(w1, i);
    StageEffect(w2.st, i);
    r := WorkerMoves(w2, i);
  }

  /** All five stages. */
  lemma RunStages(w: World, m: Mission) returns (r: World)
    requires Reached(w) && JustStarted(w.st, m)
    ensures Reached(r) && r.n == EMPTY && r.st.s == w.st.s && r.st.d == Drive(Some(m), false, true, 0) && StartPast(r.st)
    ensures r.st.c.expected == Some(m.keepout) && r.st.c.mask == NotReceived && !r.st.c.info
  {
    hide Reached, Step;
    var i := |w.st.workers| - 1;
    var w3 := PrepareStages(w, m);
    StageEffect(w3.st, i);
    var w4 := WorkerMoves(w3, i);
    StageEffect(w4.st, i);
    r := WorkerMoves(w4, i);
  }

  lemma BootAndStart(m: Mission) returns (r: World)
    ensures Reached(r) && JustStarted(r.st, m)
  {
    var w := World(Booted(None), EMPTY);
    assert RunAll(None, []) == w;
    hide Reached;
    MatchIsTable(StartAutonomy, Manual);
    hide Match, Rows;
    r := ReachedNext(w, Other(Human(StartAutonomy, true, m, 1, true)));
  }

  /** A mask of one cell with the robot on it, and a limit. */
  const ONE_CELL: FilterMask := MaskGrid(0.0, 0.0, 1.0, 1, 1, [50])
  const ALL_INPUTS := Inputs(Some(ONE_CELL), true, Some((0.0, 0.0)), Some(1.0))

  lemma AllInputsApply()
    ensures SpeedLimitState(ALL_INPUTS) == Applied
  {
    assert CellAt(ONE_CELL, 0.0, 0.0) == Some(50);
  }

  lemma ObservedMode(w: World, n: Inputs)
    ensures Observed(w, n).st.s.mode == w.st.s.mode
  {
  }

  lemma ReceiveInputs(w: World) returns (r: World)
    requires Reached(w) && w.st.s.mode == Autonomy
    ensures Reached(r) && r.st.s.mode == Autonomy && r.n == ALL_INPUTS
  {
    hide Reached, SpeedLimitState, TryRelease;
    var w1 := ReachedNext(w, FeedbackReceived(0, 0, 0.0, 0.0));
    var f := World(Step(w.st, Feedback(0, 0)), w.n.(at := Some((0.0, 0.0))));
    ObservedMode(f, f.n);
    hide Step;
    var w2 := ReachedNext(w1, MaskReceived(ONE_CELL));
    ObservedMode(w1, w2.n);
    var w3 := ReachedNext(w2, InfoReceived);
    ObservedMode(w2, w3.n);
    r := ReachedNext(w3, LimitReceived(1.0));
    ObservedMode(w3, r.n);
  }

  /** End and start again: the inputs stay. */
  lemma EndDrive(w: World, m: Mission) returns (r: World)
    requires Reached(w) && w.st.s.mode == Autonomy
    ensures Reached(r) && r.n == w.n && r.st.s.mode == Manual && !r.st.d.goalActive
  {
    hide Reached;
    MatchIsTable(EndAutonomy, Autonomy);
    hide Match, Rows;
    r := ReachedNext(w, Other(Human(EndAutonomy, true, m, 0, true)));
  }

  lemma StartAgain(w: World, m: Mission) returns (r: World)
    requires Reached(w) && w.st.s.mode == Manual && !w.st.d.goalActive
    ensures Reached(r) && r.n == w.n && JustStarted(r.st, m)
  {
    hide Reached;
    MatchIsTable(StartAutonomy, Manual);
    hide Match, Rows;
    r := ReachedNext(w, Other(Human(StartAutonomy, true, m, 2, true)));
  }

  lemma LimitAgain(w: World, m: Mission) returns (r: World)
    requires Reached(w) && w.n == ALL_INPUTS && JustStarted(w.st, m)
    ensures Reached(r) && JustStarted(r.st, m) && r.st.s.progress.speed == Applied
  {
    AllInputsApply();
    hide Reached, SpeedLimitState;
    r := ReachedNext(w, LimitReceived(1.0));
  }

  /** Whatever the two missions: the second start can release the hold without any input received since its parameter stage;
      the applied reading was made between the request and that stage, from the inputs of the first drive. */
  lemma StartCanReleaseOnOldInputs(a: Mission, b: Mission) returns (w: World, e: Hold.Event)
    ensures Reached(w) && Releases(w.st, e)
    ensures var r := AfterMessage(w, Other(e)); !r.st.hold && r.st.d.mission == Some(b) && StartPast(r.st) && r.n == EMPTY
  {
    hide Reached, JustStarted, StartPast;
    var w1 := BootAndStart(a);
    var w2 := RunStages(w1, a);
    StartedInAutonomy(w1.st, a);
    var w3 := ReceiveInputs(w2);
    var w4 := EndDrive(w3, b);
    var w5 := StartAgain(w4, b);
    var w6 := LimitAgain(w5, b);
    StartedInAutonomy(w6.st, b);
    var w7 := RunStages(w6, b);
    w := MaskArrives(w7, b);
    e := KeepoutInfo(true);
    InfoReleases(w, b);
  }

  lemma StartedInAutonomy(st: State, m: Mission)
    requires JustStarted(st, m)
    ensures st.s.mode == Autonomy
  {
  }

  /** Everything but the filter info is there. */
  predicate OnlyInfoMissing(w: World, m: Mission) {
    && w.n == EMPTY && w.st.s.mode == Autonomy && w.st.s.progress.speed == Applied && StartPast(w.st)
    && w.st.d == Drive(Some(m), false, true, 0) && w.st.c.expected.Some? && w.st.c.mask == SameMask && !w.st.c.info
  }

  lemma MaskArrives(w: World, m: Mission) returns (r: World)
    requires Reached(w) && w.n == EMPTY && w.st.s.mode == Autonomy && w.st.s.progress.speed == Applied && StartPast(w.st)
    requires w.st.d == Drive(Some(m), false, true, 0) && w.st.c.expected == Some(m.keepout) && !w.st.c.info
    ensures Reached(r) && OnlyInfoMissing(r, m)
  {
    hide Reached, Current;
    r := ReachedNext(w, Other(KeepoutMask(m.keepout)));
  }

  lemma InfoReleases(w: World, m: Mission)
    requires OnlyInfoMissing(w, m)
    ensures Releases(w.st, KeepoutInfo(true))
    ensures var r := AfterMessage(w, Other(KeepoutInfo(true)));
      !r.st.hold && r.st.d.mission == Some(m) && StartPast(r.st) && r.n == EMPTY
  {
    hide Current;
  }
}
