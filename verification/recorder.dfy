/** The recorder's log: sessions, writes that can fail, and the record of the gaps. The clock and the disk are oracles,
    read and written one call after another. */
module Recorder {
  import opened Frames

  datatype Trigger = Human | AutoMapStart | AutoAutonomyStart | OtherTrigger(name: string)

  datatype Kind = Stopped | Failure

  /** A gap range; end is None while it is open. */
  datatype Gap = Gap(start: int, end: Option<int>, kind: Kind)

  datatype Message = Message(kind: string, receivedAt: int, payload: string)

  /** clock(i) is the i-th reading of the clock; disk(i) and json(i) say whether the i-th write to the log files and the
      i-th write of session.json succeed. */
  datatype World = World(clock: nat -> int, disk: nat -> bool, json: nat -> bool)

  ghost predicate Steady(w: World) {
    forall i: nat, j: nat :: i <= j ==> w.clock(i) <= w.clock(j)
  }

  datatype Log = Log(active: bool, startedBy: Option<Trigger>, openGap: Option<Gap>, gaps: seq<Gap>, failures: nat)

  /** How often the world was asked. */
  datatype Asked = Asked(readings: nat, writes: nat, jsons: nat)

  datatype State = State(session: Option<Log>, lastGap: Option<Gap>, revision: nat, received: map<string, Message>, asked: Asked)

  const NO_SESSION := Log(false, None, None, [], 0)

  const INITIAL := State(None, None, 0, map[], Asked(0, 0, 0))

  predicate Permitted(trigger: Trigger) {
    trigger == Human || trigger == AutoMapStart || trigger == AutoAutonomyStart
  }

  // ----- the operations as functions

  function Read(st: State): State {
    st.(asked := st.asked.(readings := st.asked.readings + 1))
  }

  function SetLog(st: State, l: Log): State {
    st.(session := Some(l))
  }

  function OpenGap(w: World, st: State, kind: Kind): (r: State)
    requires st.session.Some?
    ensures r.session.Some?
  {
    if st.session.value.openGap.Some? then st
    else SetLog(Read(st), st.session.value.(openGap := Some(Gap(w.clock(st.asked.readings), None, kind))))
  }

  predicate FailureOpen(st: State) {
    st.session.Some? && st.session.value.openGap.Some? && st.session.value.openGap.value.kind == Failure
  }

  /** One line written to a log file. A success ends a failure gap, a failure opens one. */
  function Append(w: World, st: State): (r: State)
    requires st.session.Some?
    ensures r.session.Some?
    decreases if FailureOpen(st) then 2 else 0
  {
    var st1 := st.(asked := st.asked.(writes := st.asked.writes + 1));
    if w.disk(st.asked.writes) then
      if FailureOpen(st) then CloseGap(w, st1) else st1
    else
      var l := st.session.value;
      var st2 := OpenGap(w, SetLog(Read(st1), l.(failures := l.failures + 1)), Failure);
      st2.(revision := st2.revision + 1)
  }

  function CloseGap(w: World, st: State): (r: State)
    requires st.session.Some?
    ensures r.session.Some?
    decreases 1
  {
    var l := st.session.value;
    if l.openGap.None? then st
    else
      var g := l.openGap.value.(end := Some(w.clock(st.asked.readings)));
      Append(w, SetLog(Read(st), l.(openGap := None, gaps := l.gaps + [g])).(lastGap := Some(g)))
  }

  /** A line that carries the time at which it is written. */
  function Entry(w: World, st: State): (r: State)
    requires st.session.Some?
    ensures r.session.Some?
  {
    Append(w, Read(st))
  }

  function Json(w: World, st: State): (r: State)
    requires st.session.Some?
    ensures r.session.Some?
  {
    var st1 := Read(st).(asked := st.asked.(readings := st.asked.readings + 1, jsons := st.asked.jsons + 1));
    if w.json(st.asked.jsons) then st1
    else SetLog(Read(st1), st.session.value.(failures := st.session.value.failures + 1))
  }

  /** A new session takes its id from the clock. */
  function EnsureSession(w: World, st: State): (r: State)
    ensures r.session.Some?
  {
    if st.session.Some? then st else Json(w, SetLog(Read(st), NO_SESSION))
  }

  function Entries(w: World, st: State, n: nat): (r: State)
    requires st.session.Some?
    ensures r.session.Some?
  {
    if n == 0 then st else Entry(w, Entries(w, st, n - 1))
  }

  function StartLog(w: World, st: State, trigger: Trigger): State {
    if !Permitted(trigger) then st
    else
      var st1 := EnsureSession(w, st);
      if st1.session.value.active then st1
      else
        var st2 := CloseGap(w, SetLog(st1, st1.session.value.(active := true, startedBy := Some(trigger))));
        var st3 := Entry(w, Json(w, st2.(revision := st2.revision + 1)));
        Entries(w, st3, |st3.received|)
  }

  function StopLog(w: World, st: State, trigger: Trigger): State {
    if st.session.None? || !st.session.value.active then st
    else if trigger != Human && st.session.value.startedBy == Some(Human) then st
    else
      var st1 := Entry(w, st);
      var st2 := OpenGap(w, SetLog(st1, st1.session.value.(active := false, startedBy := None)), Stopped);
      Json(w, st2.(revision := st2.revision + 1))
  }

  function Record(w: World, st: State, topic: string, m: Message): State {
    var st1 := st.(received := st.received[topic := m]);
    if st1.session.None? || !st1.session.value.active then st1 else Append(w, st1)
  }

  function LogFailure(w: World, st: State): State {
    if st.session.None? || !st.session.value.active then st else Entry(w, st)
  }

  datatype Event =
    | Start(trigger: Trigger)
    | Stop(trigger: Trigger)
    | Receive(topic: string, message: Message)
    | FailureReport      // _log_failure of a rosbag operation
    | OpenSession        // a rosbag start before any log start
    | SaveSession        // session.json written by a rosbag operation
    | ClockRead          // a time a rosbag operation notes

  function Next(w: World, st: State, e: Event): State {
    match e
    case Start(trigger) => StartLog(w, st, trigger)
    case Stop(trigger) => StopLog(w, st, trigger)
    case Receive(topic, m) => Record(w, st, topic, m)
    case FailureReport => LogFailure(w, st)
    case OpenSession => EnsureSession(w, st)
    case SaveSession => if st.session.None? then st else Json(w, st)
    case ClockRead => Read(st)
  }

  function Run(w: World, events: seq<Event>): State {
    if events == [] then INITIAL else Next(w, Run(w, events[..|events| - 1]), events[|events| - 1])
  }

  // ----- the recorder object

  class Session {
    var active: bool
    var startedBy: Option<Trigger>
    var openGap: Option<Gap>
    var gaps: seq<Gap>
    var failures: nat

    constructor ()
      ensures View() == NO_SESSION
    {
      active := false;
      startedBy := None;
      openGap := None;
      gaps := [];
      failures := 0;
    }

    ghost function View(): Log
      reads this
    {
      Log(active, startedBy, openGap, gaps, failures)
    }
  }

  class RecorderCore {
    var session: Session?
    var lastGap: Option<Gap>
    var revision: nat
    var received: map<string, Message>
    var asked: Asked
    const w: World

    ghost function View(): State
      reads this, session
    {
      State(if session == null then None else Some(session.View()), lastGap, revision, received, asked)
    }

    constructor (w: World)
      ensures View() == INITIAL && this.w == w
    {
      this.w := w;
      session := null;
      lastGap := None;
      revision := 0;
      received := map[];
      asked := Asked(0, 0, 0);
    }

    method Clock() returns (t: int)
      modifies this`asked
      ensures t == w.clock(old(asked.readings)) && View() == Read(old(View()))
    {
      t := w.clock(asked.readings);
      asked := asked.(readings := asked.readings + 1);
    }

    method DoOpenGap(kind: Kind)
      requires session != null
      modifies this, session
      ensures session == old(session) && View() == OpenGap(w, old(View()), kind)
    {
      if session.openGap.Some? {
        return;
      }
      var t := Clock();
      session.openGap := Some(Gap(t, None, kind));
    }

    method DoAppend() returns (ok: bool)
      requires session != null
      modifies this, session
      ensures session == old(session) && View() == Append(w, old(View())) && ok == w.disk(old(asked.writes))
      decreases if session.openGap.Some? && session.openGap.value.kind == Failure then 2 else 0
    {
      ok := w.disk(asked.writes);
      asked := asked.(writes := asked.writes + 1);
      if ok {
        if session.openGap.Some? && session.openGap.value.kind == Failure {
          DoCloseGap();
        }
      } else {
        var _ := Clock();
        session.failures := session.failures + 1;
        DoOpenGap(Failure);
        revision := revision + 1;
      }
    }

    method DoCloseGap()
      requires session != null
      modifies this, session
      ensures session == old(session) && View() == CloseGap(w, old(View()))
      decreases 1
    {
      if session.openGap.None? {
        return;
      }
      var t := Clock();
      var g := session.openGap.value.(end := Some(t));
      session.gaps := session.gaps + [g];
      lastGap := Some(g);
      session.openGap := None;
      var _ := DoAppend();
    }

    method DoEntry()
      requires session != null
      modifies this, session
      ensures session == old(session) && View() == Entry(w, old(View()))
    {
      var _ := Clock();
      var _ := DoAppend();
    }

    method DoJson()
      requires session != null
      modifies this, session
      ensures session == old(session) && View() == Json(w, old(View()))
    {
      var _ := Clock();
      var ok := w.json(asked.jsons);
      asked := asked.(jsons := asked.jsons + 1);
      if !ok {
        var _ := Clock();
        session.failures := session.failures + 1;
      }
    }

    method DoEnsureSession()
      modifies this, session
      ensures session != null && (session == old(session) || fresh(session)) && View() == EnsureSession(w, old(View()))
    {
      if session == null {
        var _ := Clock();
        session := new Session();
        DoJson();
      }
    }

    method DoStartLog(trigger: Trigger) returns (ok: bool)
      modifies this, session
      ensures View() == Next(w, old(View()), Start(trigger)) && ok == Permitted(trigger)
    {
      hide Append, CloseGap, Json, Entry, EnsureSession, OpenGap;
      if !Permitted(trigger) {
        return false;
      }
      DoEnsureSession();
      if session.active {
        return true;
      }
      session.active := true;
      session.startedBy := Some(trigger);
      DoCloseGap();
      revision := revision + 1;
      DoJson();
      DoEntry();
      ghost var st := View();
      var n := |received|;
      var i := 0;
      while i < n
        invariant 0 <= i <= n && session != null && View() == Entries(w, st, i)
        invariant session == old(session) || fresh(session)
      {
        DoEntry();
        i := i + 1;
      }
      return true;
    }

    method DoStopLog(trigger: Trigger)
      modifies this, session
      ensures View() == Next(w, old(View()), Stop(trigger))
    {
      hide Append, Json, Entry, OpenGap;
      if session == null || !session.active {
        return;
      }
      if trigger != Human && session.startedBy == Some(Human) {
        return;
      }
      DoEntry();
      session.active := false;
      session.startedBy := None;
      DoOpenGap(Stopped);
      revision := revision + 1;
      DoJson();
    }

    method DoRecord(topic: string, m: Message) returns (ok: bool)
      modifies this, session
      ensures View() == Next(w, old(View()), Receive(topic, m))
      ensures ok <==> old(session != null && session.active) && w.disk(old(asked.writes))
    {
      received := received[topic := m];
      if session == null || !session.active {
        return false;
      }
      ok := DoAppend();
    }

    method DoLogFailure()
      modifies this, session
      ensures View() == Next(w, old(View()), FailureReport)
    {
      if session != null && session.active {
        DoEntry();
      }
    }
  }

  // ----- the gaps of one session, in order

  /** Closed gaps, then the open one. */
  function AllGaps(st: State): seq<Gap> {
    if st.session.None? then []
    else st.session.value.gaps + if st.session.value.openGap.Some? then [st.session.value.openGap.value] else []
  }

  /** t was read before the n-th reading. */
  ghost predicate Past(w: World, n: nat, t: int) {
    n > 0 && t <= w.clock(n - 1)
  }

  /** The gaps are in order and disjoint, all but the open one are closed, and their times have passed. */
  ghost predicate WellKept(w: World, st: State) {
    && (st.session.Some? ==>
          && (forall i :: 0 <= i < |st.session.value.gaps| ==> st.session.value.gaps[i].end.Some?)
          && (st.session.value.openGap.Some? ==> st.session.value.openGap.value.end.None?))
    && (forall i :: 0 <= i < |AllGaps(st)| ==> GapPast(w, st.asked.readings, AllGaps(st)[i]))
    && (forall i, j :: 0 <= i < j < |AllGaps(st)| ==> Before(AllGaps(st)[i], AllGaps(st)[j]))
  }

  ghost predicate GapPast(w: World, n: nat, g: Gap) {
    Past(w, n, g.start) && (g.end.Some? ==> g.start <= g.end.value && Past(w, n, g.end.value))
  }

  ghost predicate Before(g: Gap, h: Gap) {
    g.end.Some? && g.end.value <= h.start
  }

  /** What happens between two states: closed gaps stay, an open one may be closed with a later time, and new gaps start
      later. */
  ghost predicate Extends(w: World, a: State, b: State) {
    && a.asked.readings <= b.asked.readings
    && |AllGaps(a)| <= |AllGaps(b)|
    && (forall i :: 0 <= i < |AllGaps(a)| ==> SameGap(w, a.asked.readings, AllGaps(a)[i], AllGaps(b)[i]))
    && (forall i :: |AllGaps(a)| <= i < |AllGaps(b)| ==> AllGaps(b)[i].start >= w.clock(a.asked.readings))
  }

  ghost predicate SameGap(w: World, n: nat, g: Gap, h: Gap) {
    && g.start == h.start && g.kind == h.kind
    && (g.end.Some? ==> h.end == g.end)
    && (g.end.None? && h.end.Some? ==> h.end.value >= w.clock(n))
  }

  lemma ExtendsTrans(w: World, a: State, b: State, c: State)
    requires Steady(w) && Extends(w, a, b) && Extends(w, b, c)
    ensures Extends(w, a, c)
  {
    hide AllGaps;
    assert w.clock(a.asked.readings) <= w.clock(b.asked.readings);
  }

  lemma ExtendsSame(w: World, a: State, b: State)
    requires Steady(w) && WellKept(w, a) && AllGaps(b) == AllGaps(a) && a.asked.readings <= b.asked.readings
    requires b.session.Some? ==> a.session.Some? || b.session.value == NO_SESSION
    requires b.session.Some? && a.session.Some? ==>
               a.session.value.gaps == b.session.value.gaps && a.session.value.openGap == b.session.value.openGap
    ensures Extends(w, a, b) && WellKept(w, b)
  {
    hide AllGaps;
    forall i | 0 <= i < |AllGaps(a)|
      ensures GapPast(w, b.asked.readings, AllGaps(a)[i])
    {
      StillPast(w, a.asked.readings, b.asked.readings, AllGaps(a)[i]);
    }
  }

  lemma StillPast(w: World, m: nat, n: nat, g: Gap)
    requires Steady(w) && m <= n && GapPast(w, m, g)
    ensures GapPast(w, n, g)
  {
    assert m > 0 && w.clock(m - 1) <= w.clock(n - 1);
  }

  lemma OpenGapKeeps(w: World, st: State, kind: Kind)
    requires Steady(w) && WellKept(w, st) && st.session.Some?
    ensures WellKept(w, OpenGap(w, st, kind)) && Extends(w, st, OpenGap(w, st, kind))
  {
    var r, n := OpenGap(w, st, kind), st.asked.readings;
    if st.session.value.openGap.None? {
      var all := AllGaps(st);
      assert AllGaps(r) == all + [Gap(w.clock(n), None, kind)];
      forall i | 0 <= i < |all|
        ensures GapPast(w, n + 1, all[i]) && Before(all[i], Gap(w.clock(n), None, kind))
      {
        StillPast(w, n, n + 1, all[i]);
        assert w.clock(n - 1) <= w.clock(n);
      }
    }
  }

  function Closed(w: World, st: State): State
    requires st.session.Some? && st.session.value.openGap.Some?
  {
    var l := st.session.value;
    var g := l.openGap.value.(end := Some(w.clock(st.asked.readings)));
    SetLog(Read(st), l.(openGap := None, gaps := l.gaps + [g])).(lastGap := Some(g))
  }

  lemma ClosedKeeps(w: World, st: State)
    requires Steady(w) && WellKept(w, st) && st.session.Some? && st.session.value.openGap.Some?
    ensures WellKept(w, Closed(w, st)) && Extends(w, st, Closed(w, st))
  {
    var n := st.asked.readings;
    var all, last := AllGaps(st), |AllGaps(st)| - 1;
    var g := all[last].(end := Some(w.clock(n)));
    assert AllGaps(Closed(w, st)) == all[last := g];
    assert w.clock(n - 1) <= w.clock(n);
    forall i | 0 <= i < last
      ensures GapPast(w, n + 1, all[i]) && Before(all[i], g)
    {
      StillPast(w, n, n + 1, all[i]);
      assert Before(all[i], all[last]);
    }
    assert GapPast(w, n + 1, g);
  }

  /** A failed line: the failure is noted and a failure gap is open. */
  function Failed(w: World, st: State): State
    requires st.session.Some?
  {
    var l := st.session.value;
    OpenGap(w, SetLog(Read(st), l.(failures := l.failures + 1)), Failure)
  }

  lemma FailedKeeps(w: World, st: State)
    requires Steady(w) && WellKept(w, st) && st.session.Some?
    ensures WellKept(w, Failed(w, st)) && Extends(w, st, Failed(w, st))
  {
    var st1 := SetLog(Read(st), st.session.value.(failures := st.session.value.failures + 1));
    ExtendsSame(w, st, st1);
    OpenGapKeeps(w, st1, Failure);
    ExtendsTrans(w, st, st1, Failed(w, st));
  }

  ghost predicate Kept(w: World, a: State, b: State) {
    WellKept(w, b) && Extends(w, a, b)
  }

  lemma KeptTrans(w: World, a: State, b: State, c: State)
    requires Steady(w) && Kept(w, a, b) && Kept(w, b, c)
    ensures Kept(w, a, c)
  {
    ExtendsTrans(w, a, b, c);
  }

  /** Writing a line keeps the gap record in order, however the writes fail, and so does closing a gap. */
  lemma {:induction false} AppendKeeps(w: World, st: State)
    requires Steady(w) && WellKept(w, st) && st.session.Some?
    ensures Kept(w, st, Append(w, st))
    decreases if FailureOpen(st) then 2 else 0
  {
    hide WellKept, Extends, OpenGap;
    var st1 := st.(asked := st.asked.(writes := st.asked.writes + 1));
    ExtendsSame(w, st, st1);
    if w.disk(st.asked.writes) {
      if FailureOpen(st) {
        CloseGapKeeps(w, st1);
        KeptTrans(w, st, st1, Append(w, st));
      }
    } else {
      FailedKeeps(w, st1);
      KeptTrans(w, st, st1, Failed(w, st1));
      var f := Failed(w, st1);
      RevisionKeeps(w, f);
      KeptTrans(w, st, f, Append(w, st));
    }
  }

  lemma RevisionKeeps(w: World, st: State)
    requires Steady(w) && WellKept(w, st)
    ensures Kept(w, st, st.(revision := st.revision + 1))
  {
    ExtendsSame(w, st, st.(revision := st.revision + 1));
  }

  lemma {:induction false} CloseGapKeeps(w: World, st: State)
    requires Steady(w) && WellKept(w, st) && st.session.Some?
    ensures Kept(w, st, CloseGap(w, st))
    decreases 1
  {
    if st.session.value.openGap.None? {
      ExtendsSame(w, st, st);
    } else {
      ClosedKeeps(w, st);
      hide WellKept, Extends;
      AppendKeeps(w, Closed(w, st));
      KeptTrans(w, st, Closed(w, st), CloseGap(w, st));
    }
  }

  // ----- when a gap is open

  ghost predicate LastFailed(w: World, st: State) {
    st.asked.writes > 0 && !w.disk(st.asked.writes - 1)
  }

  /** While recording: a gap is open exactly when the latest write failed, and then it is a failure gap. */
  ghost predicate Tracks(w: World, st: State) {
    && st.session.Some?
    && (st.session.value.openGap.Some? <==> LastFailed(w, st))
    && (st.session.value.openGap.Some? ==> st.session.value.openGap.value.kind == Failure)
  }

  ghost predicate NotStopped(st: State) {
    st.session.Some? && (st.session.value.openGap.Some? ==> st.session.value.openGap.value.kind == Failure)
  }

  ghost predicate SameOrigin(a: State, b: State) {
    && a.session.Some? && b.session.Some? && a.session.value.active == b.session.value.active
    && a.session.value.startedBy == b.session.value.startedBy && a.received == b.received
  }

  /** After any line written while no stop gap is open, a gap is open exactly when the latest write failed. The line in
      gaps.jsonl that reports a gap counts as a write: when it fails, the next gap is opened at once. */
  lemma AppendTracks(w: World, st: State)
    requires NotStopped(st)
    ensures Tracks(w, Append(w, st)) && SameOrigin(st, Append(w, st))
  {
    var st1 := st.(asked := st.asked.(writes := st.asked.writes + 1));
    if w.disk(st.asked.writes) && FailureOpen(st) {
      var c := Closed(w, st1);
      assert Append(w, st) == Append(w, c);
      assert !FailureOpen(c);
    }
  }

  lemma CloseGapTracks(w: World, st: State)
    requires st.session.Some?
    ensures NotStopped(CloseGap(w, st)) && SameOrigin(st, CloseGap(w, st))
  {
    if st.session.value.openGap.Some? {
      AppendTracks(w, Closed(w, st));
      hide Append;
    }
  }

  lemma JsonKeeps(w: World, st: State)
    requires Steady(w) && WellKept(w, st) && st.session.Some?
    ensures Kept(w, st, Json(w, st)) && SameOrigin(st, Json(w, st))
    ensures Json(w, st).session.value.openGap == st.session.value.openGap && Json(w, st).asked.writes == st.asked.writes
    ensures Json(w, st).session.value.gaps == st.session.value.gaps
  {
    hide WellKept;
    ExtendsSame(w, st, Json(w, st));
  }

  lemma EntryKeeps(w: World, st: State)
    requires Steady(w) && WellKept(w, st) && NotStopped(st)
    ensures Kept(w, st, Entry(w, st)) && Tracks(w, Entry(w, st)) && SameOrigin(st, Entry(w, st))
  {
    hide WellKept, Append;
    ExtendsSame(w, st, Read(st));
    AppendKeeps(w, Read(st));
    AppendTracks(w, Read(st));
    KeptTrans(w, st, Read(st), Entry(w, st));
  }

  lemma {:induction false} EntriesKeep(w: World, st: State, n: nat)
    requires Steady(w) && WellKept(w, st) && Tracks(w, st)
    ensures Kept(w, st, Entries(w, st, n)) && Tracks(w, Entries(w, st, n)) && SameOrigin(st, Entries(w, st, n))
  {
    hide WellKept, Entry;
    if n == 0 {
      ExtendsSame(w, st, st);
    } else {
      EntriesKeep(w, st, n - 1);
      EntryKeeps(w, Entries(w, st, n - 1));
      KeptTrans(w, st, Entries(w, st, n - 1), Entries(w, st, n));
    }
  }

  // ----- whole runs

  /** Whether a log was started by some event so far. */
  predicate Started(events: seq<Event>) {
    events != [] && (Started(events[..|events| - 1]) || (events[|events| - 1].Start? && Permitted(events[|events| - 1].trigger)))
  }

  /** Between two operations: nothing before the first start; while recording a gap is open exactly when the latest write
      failed; while not recording a gap is open. */
  ghost predicate Quiet(w: World, st: State, started: bool) {
    && (started ==> st.session.Some?)
    && (st.session.Some? ==>
          var l := st.session.value;
          && (!started ==> !l.active && l.openGap.None? && l.gaps == [])
          && (started && l.active ==> Tracks(w, st))
          && (started && !l.active ==> l.openGap.Some?))
  }

  lemma EnsureSessionKeeps(w: World, st: State, started: bool)
    requires Steady(w) && WellKept(w, st) && Quiet(w, st, started)
    ensures Kept(w, st, EnsureSession(w, st)) && Quiet(w, EnsureSession(w, st), started)
    ensures WellKept(w, EnsureSession(w, st))
    ensures EnsureSession(w, st).session.value.active ==> started
  {
    if st.session.Some? {
      ExtendsSame(w, st, st);
    } else {
      ExtendsSame(w, st, SetLog(Read(st), NO_SESSION));
      JsonKeeps(w, SetLog(Read(st), NO_SESSION));
      hide Json;
      KeptTrans(w, st, SetLog(Read(st), NO_SESSION), EnsureSession(w, st));
    }
  }

  lemma StartLogKeeps(w: World, st: State, trigger: Trigger, started: bool)
    requires Steady(w) && WellKept(w, st) && Quiet(w, st, started)
    ensures var r := StartLog(w, st, trigger);
      && Kept(w, st, r) && Quiet(w, r, started || Permitted(trigger))
      && (Permitted(trigger) ==> r.session.Some? && r.session.value.active)
  {
    hide EnsureSession, CloseGap, Json, Entry, Entries, WellKept, Extends;
    if !Permitted(trigger) {
      ExtendsSame(w, st, st);
    } else {
      var st1 := EnsureSession(w, st);
      EnsureSessionKeeps(w, st, started);
      if !st1.session.value.active {
        var st1b := SetLog(st1, st1.session.value.(active := true, startedBy := Some(trigger)));
        StartingKeeps(w, st1, st1b);
        KeptTrans(w, st, st1, StartLog(w, st, trigger));
      }
    }
  }

  /** From the moment the log becomes active to just before its first line, record_start. */
  function Ready(w: World, st: State): (r: State)
    requires st.session.Some?
    ensures r.session.Some?
  {
    var st2 := CloseGap(w, st);
    Json(w, st2.(revision := st2.revision + 1))
  }

  function Opened(w: World, st: State): (r: State)
    requires st.session.Some?
    ensures r.session.Some?
  {
    Entry(w, Ready(w, st))
  }

  /** From the moment the log becomes active to the end of start_log. */
  function Starting(w: World, st: State): State
    requires st.session.Some?
  {
    Entries(w, Opened(w, st), |Opened(w, st).received|)
  }

  lemma ReadyKeeps(w: World, active: State)
    requires Steady(w) && WellKept(w, active) && active.session.Some?
    ensures Kept(w, active, CloseGap(w, active)) && Kept(w, CloseGap(w, active), Ready(w, active))
    ensures NotStopped(Ready(w, active)) && SameOrigin(active, Ready(w, active))
  {
    hide WellKept, Extends, Json, Append;
    var st2 := CloseGap(w, active);
    CloseGapKeeps(w, active);
    CloseGapTracks(w, active);
    hide CloseGap;
    var st2b := st2.(revision := st2.revision + 1);
    RevisionKeeps(w, st2);
    JsonKeeps(w, st2b);
    KeptTrans(w, st2, st2b, Ready(w, active));
  }

  lemma OpenedAfterClose(w: World, active: State)
    requires Steady(w) && WellKept(w, active) && active.session.Some?
    ensures Kept(w, active, CloseGap(w, active)) && Kept(w, CloseGap(w, active), Opened(w, active))
    ensures Tracks(w, Opened(w, active)) && SameOrigin(active, Opened(w, active))
  {
    hide WellKept, Extends, CloseGap, Ready, Entry, Tracks;
    ReadyKeeps(w, active);
    EntryKeeps(w, Ready(w, active));
    KeptTrans(w, CloseGap(w, active), Ready(w, active), Opened(w, active));
  }

  lemma OpenedKeeps(w: World, st: State, active: State)
    requires Steady(w) && WellKept(w, st) && st.session.Some?
    requires active.session.Some? && active == SetLog(st, active.session.value)
    requires active.session.value.gaps == st.session.value.gaps && active.session.value.openGap == st.session.value.openGap
    ensures Kept(w, st, Opened(w, active)) && Tracks(w, Opened(w, active)) && SameOrigin(active, Opened(w, active))
  {
    hide WellKept, Extends, CloseGap, Opened, Tracks;
    ExtendsSame(w, st, active);
    OpenedAfterClose(w, active);
    KeptTrans(w, st, active, CloseGap(w, active));
    KeptTrans(w, st, CloseGap(w, active), Opened(w, active));
  }

  lemma StartingKeeps(w: World, st: State, active: State)
    requires Steady(w) && WellKept(w, st) && st.session.Some?
    requires active.session.Some? && active == SetLog(st, active.session.value)
    requires active.session.value.gaps == st.session.value.gaps && active.session.value.openGap == st.session.value.openGap
    ensures Kept(w, st, Starting(w, active)) && Tracks(w, Starting(w, active)) && SameOrigin(active, Starting(w, active))
  {
    hide WellKept, Extends, Opened, Entries, Tracks;
    OpenedKeeps(w, st, active);
    var st3 := Opened(w, active);
    EntriesKeep(w, st3, |st3.received|);
    KeptTrans(w, st, st3, Starting(w, active));
  }

  /** stop_log after its line. */
  function Stopping(w: World, st1: State, trigger: Trigger): (r: State)
    requires st1.session.Some?
    ensures r.session.Some?
  {
    var st2 := OpenGap(w, SetLog(st1, st1.session.value.(active := false, startedBy := None)), Stopped);
    Json(w, st2.(revision := st2.revision + 1))
  }

  lemma StoppingKeeps(w: World, st1: State, trigger: Trigger)
    requires Steady(w) && WellKept(w, st1) && st1.session.Some?
    ensures var r := Stopping(w, st1, trigger); Kept(w, st1, r) && r.session.value.openGap.Some? && !r.session.value.active
  {
    hide WellKept, Extends, Json;
    var st1b := SetLog(st1, st1.session.value.(active := false, startedBy := None));
    ExtendsSame(w, st1, st1b);
    OpenGapKeeps(w, st1b, Stopped);
    var st2 := OpenGap(w, st1b, Stopped);
    assert st2.session.value.openGap.Some? && !st2.session.value.active;
    RevisionKeeps(w, st2);
    var st2b := st2.(revision := st2.revision + 1);
    JsonKeeps(w, st2b);
    KeptTrans(w, st1, st1b, st2);
    KeptTrans(w, st1, st2, st2b);
    KeptTrans(w, st1, st2b, Stopping(w, st1, trigger));
  }

  /** The stop is carried out. */
  predicate Stops(st: State, trigger: Trigger) {
    st.session.Some? && st.session.value.active && (trigger == Human || st.session.value.startedBy != Some(Human))
  }

  lemma StopLogKeeps(w: World, st: State, trigger: Trigger, started: bool)
    requires Steady(w) && WellKept(w, st) && Quiet(w, st, started)
    ensures Kept(w, st, StopLog(w, st, trigger)) && Quiet(w, StopLog(w, st, trigger), started)
  {
    hide WellKept, Extends, Entry, Json, Append, OpenGap;
    if !Stops(st, trigger) {
      ExtendsSame(w, st, st);
    } else {
      EntryKeeps(w, st);
      StoppingKeeps(w, Entry(w, st), trigger);
      KeptTrans(w, st, Entry(w, st), StopLog(w, st, trigger));
    }
  }

  lemma ReceiveKeeps(w: World, st: State, topic: string, m: Message, started: bool)
    requires Steady(w) && WellKept(w, st) && Quiet(w, st, started)
    ensures Kept(w, st, Record(w, st, topic, m)) && Quiet(w, Record(w, st, topic, m), started)
  {
    var st1 := st.(received := st.received[topic := m]);
    ExtendsSame(w, st, st1);
    if st1.session.Some? && st1.session.value.active {
      AppendKeeps(w, st1);
      AppendTracks(w, st1);
      hide WellKept, Extends, Append;
      KeptTrans(w, st, st1, Record(w, st, topic, m));
    }
  }

  lemma NextKeeps(w: World, st: State, e: Event, started: bool)
    requires Steady(w) && WellKept(w, st) && Quiet(w, st, started)
    ensures Kept(w, st, Next(w, st, e)) && Quiet(w, Next(w, st, e), started || (e.Start? && Permitted(e.trigger)))
  {
    hide WellKept, Extends, StartLog, StopLog, Record, Entry, Json, EnsureSession;
    match e
    case Start(trigger) => StartLogKeeps(w, st, trigger, started);
    case Stop(trigger) => StopLogKeeps(w, st, trigger, started);
    case Receive(topic, m) => ReceiveKeeps(w, st, topic, m, started);
    case FailureReport =>
      if st.session.None? || !st.session.value.active {
        ExtendsSame(w, st, st);
      } else {
        EntryKeeps(w, st);
      }
    case OpenSession => EnsureSessionKeeps(w, st, started);
    case SaveSession =>
      if st.session.None? {
        ExtendsSame(w, st, st);
      } else {
        JsonKeeps(w, st);
      }
    case ClockRead => ExtendsSame(w, st, Read(st));
  }

  /** In every run, under every pattern of write failures: the gaps are in order and disjoint, and between two operations a
      gap is open exactly when the log is not recording or its latest write failed (once a log was started). */
  lemma {:induction false} RunKeeps(w: World, events: seq<Event>)
    requires Steady(w)
    ensures WellKept(w, Run(w, events)) && Quiet(w, Run(w, events), Started(events))
  {
    if events != [] {
      var before := events[..|events| - 1];
      RunKeeps(w, before);
      NextKeeps(w, Run(w, before), events[|events| - 1], Started(before));
      hide WellKept, Quiet, Next;
    }
  }

  lemma {:induction false} RunExtends(w: World, events: seq<Event>, k: nat)
    requires Steady(w) && k <= |events|
    ensures Extends(w, Run(w, events[..k]), Run(w, events))
  {
    RunKeeps(w, events[..k]);
    if k == |events| {
      assert events[..k] == events;
      ExtendsSame(w, Run(w, events), Run(w, events));
    } else {
      var before := events[..|events| - 1];
      assert before[..k] == events[..k];
      RunExtends(w, before, k);
      RunKeeps(w, before);
      NextKeeps(w, Run(w, before), events[|events| - 1], Started(before));
      hide WellKept, Quiet, Next, Extends;
      ExtendsTrans(w, Run(w, events[..k]), Run(w, before), Run(w, events));
    }
  }

  /** Nothing was being recorded: a log was started before, and it is inactive or its latest write failed. */
  ghost predicate Missing(w: World, st: State) {
    st.session.Some? && (!st.session.value.active || LastFailed(w, st))
  }

  /** t lies between the last reading of the operations so far and the first reading of the next one. */
  ghost predicate AtRest(w: World, st: State, t: int) {
    (st.asked.readings > 0 ==> w.clock(st.asked.readings - 1) <= t) && t <= w.clock(st.asked.readings)
  }

  predicate Covers(g: Gap, t: int) {
    g.start <= t && (g.end.Some? ==> t <= g.end.value)
  }

  predicate StrictlyInside(g: Gap, t: int) {
    g.start < t && (g.end.Some? ==> t < g.end.value)
  }

  /** What a later record says of an instant at rest: it lies in a gap if one is open then, and otherwise strictly inside
      none. */
  lemma RecordedLater(w: World, a: State, b: State, t: int)
    requires Steady(w) && WellKept(w, a) && Extends(w, a, b) && AtRest(w, a, t)
    ensures var all := AllGaps(b);
      if a.session.Some? && a.session.value.openGap.Some?
      then exists i :: 0 <= i < |all| && Covers(all[i], t)
      else forall i :: 0 <= i < |all| ==> !StrictlyInside(all[i], t)
  {
    if a.session.Some? && a.session.value.openGap.Some? {
      var i := |AllGaps(a)| - 1;
      assert AllGaps(a)[i] == a.session.value.openGap.value;
      assert GapPast(w, a.asked.readings, AllGaps(a)[i]);
      assert Covers(AllGaps(b)[i], t);
    } else {
      forall i | 0 <= i < |AllGaps(b)|
        ensures !StrictlyInside(AllGaps(b)[i], t)
      {
        if i < |AllGaps(a)| {
          assert AllGaps(a)[i].end.Some? && GapPast(w, a.asked.readings, AllGaps(a)[i]);
          assert AllGaps(b)[i].end == AllGaps(a)[i].end;
        }
      }
    }
  }

  /** In the final record of any run: between any two operations, every instant after the first start at which nothing was
      being recorded lies in a gap, and no other instant lies strictly inside one. */
  lemma GapsCoverExactly(w: World, events: seq<Event>, k: nat, t: int)
    requires Steady(w) && k <= |events| && AtRest(w, Run(w, events[..k]), t)
    ensures var all := AllGaps(Run(w, events));
      if Started(events[..k]) && Missing(w, Run(w, events[..k]))
      then exists i :: 0 <= i < |all| && Covers(all[i], t)
      else forall i :: 0 <= i < |all| ==> !StrictlyInside(all[i], t)
  {
    hide Run, WellKept, Extends;
    RunKeeps(w, events[..k]);
    RunExtends(w, events, k);
    RecordedLater(w, Run(w, events[..k]), Run(w, events), t);
  }

  /** An accepted start once the log is active. */
  function Activated(w: World, st: State, trigger: Trigger): (r: State)
    ensures r.session.Some?
  {
    var st1 := EnsureSession(w, st);
    SetLog(st1, st1.session.value.(active := true, startedBy := Some(trigger)))
  }

  /** An accepted start after record_start and i of its snapshots. */
  function MidStart(w: World, st: State, trigger: Trigger, i: nat): (r: State)
    ensures r.session.Some?
  {
    Entries(w, Opened(w, Activated(w, st, trigger)), i)
  }

  lemma {:induction false} EntriesTwice(w: World, st: State, i: nat, j: nat)
    requires st.session.Some?
    ensures Entries(w, Entries(w, st, i), j) == Entries(w, st, i + j)
    decreases j
  {
    hide Entry;
    if j > 0 {
      EntriesTwice(w, st, i, j - 1);
    }
  }

  lemma MidStartKeeps(w: World, st: State, trigger: Trigger, started: bool, i: nat)
    requires Steady(w) && WellKept(w, st) && Quiet(w, st, started) && Permitted(trigger) && !Recording(st)
    requires i <= |st.received|
    ensures var mid := MidStart(w, st, trigger, i);
      WellKept(w, mid) && Tracks(w, mid) && Extends(w, mid, StartLog(w, st, trigger))
  {
    hide WellKept, Extends, Quiet, Tracks, EnsureSession, CloseGap, Opened, Json, Entry, Entries;
    ActivatedKeeps(w, st, trigger, started);
    var active := Activated(w, st, trigger);
    OpenedKeeps(w, active, active);
    var st3 := Opened(w, active);
    EntriesKeep(w, st3, i);
    SameTopics(w, st);
    EntriesKeep(w, Entries(w, st3, i), |st3.received| - i);
    EntriesTwice(w, st3, i, |st3.received| - i);
    StartLogIs(w, st, trigger);
  }

  lemma ActivatedKeeps(w: World, st: State, trigger: Trigger, started: bool)
    requires Steady(w) && WellKept(w, st) && Quiet(w, st, started) && !Recording(st)
    ensures WellKept(w, Activated(w, st, trigger)) && !Recording(EnsureSession(w, st))
  {
    hide WellKept, Extends, Quiet, EnsureSession;
    EnsureSessionKeeps(w, st, started);
    EnsureSessionOrigin(w, st);
    ExtendsSame(w, EnsureSession(w, st), Activated(w, st, trigger));
  }

  lemma SameTopics(w: World, st: State)
    ensures EnsureSession(w, st).received == st.received
  {
  }

  lemma StartLogIs(w: World, st: State, trigger: Trigger)
    requires Permitted(trigger) && !Recording(EnsureSession(w, st))
    ensures StartLog(w, st, trigger) == Starting(w, Activated(w, st, trigger))
  {
    hide EnsureSession, CloseGap, Json, Entry, Entries;
  }

  /** The same inside a start, between any two of the lines it writes: an instant lies in a gap of the final record if the
      latest line failed, and otherwise strictly inside none. */
  lemma GapsCoverStartLines(w: World, events: seq<Event>, k: nat, i: nat, t: int)
    requires Steady(w) && k < |events| && events[k].Start? && Permitted(events[k].trigger)
    requires !Recording(Run(w, events[..k])) && i <= |Run(w, events[..k]).received|
    requires AtRest(w, MidStart(w, Run(w, events[..k]), events[k].trigger, i), t)
    ensures var all := AllGaps(Run(w, events));
      if LastFailed(w, MidStart(w, Run(w, events[..k]), events[k].trigger, i))
      then exists j :: 0 <= j < |all| && Covers(all[j], t)
      else forall j :: 0 <= j < |all| ==> !StrictlyInside(all[j], t)
  {
    var st := Run(w, events[..k]);
    var mid := MidStart(w, st, events[k].trigger, i);
    assert events[..k + 1][..k] == events[..k];
    assert Run(w, events[..k + 1]) == StartLog(w, st, events[k].trigger);
    hide Run, WellKept, Extends, MidStart, StartLog;
    RunKeeps(w, events[..k]);
    MidStartKeeps(w, st, events[k].trigger, Started(events[..k]), i);
    RunExtends(w, events, k + 1);
    ExtendsTrans(w, mid, Run(w, events[..k + 1]), Run(w, events));
    RecordedLater(w, mid, Run(w, events), t);
  }

  // ----- the hole inside a failed line

  /** a is the state in which the event e, taken in st, writes one of its lines: the line of a message, a failure or a stop,
      or, in a start, the report of the gap it closes, record_start, or a snapshot. */
  ghost predicate OwnLine(w: World, st: State, e: Event, a: State) {
    match e
    case Receive(topic, m) => Recording(st) && a == st.(received := st.received[topic := m])
    case FailureReport => Recording(st) && a == Read(st)
    case Stop(trigger) => Stops(st, trigger) && a == Read(st)
    case Start(trigger) =>
      Permitted(trigger) && !Recording(st) &&
      ((Activated(w, st, trigger).session.value.openGap.Some? && a == Closed(w, Activated(w, st, trigger)))
       || a == Read(Ready(w, Activated(w, st, trigger)))
       || exists i: nat :: i < |st.received| && a == Read(MidStart(w, st, trigger, i)))
    case _ => false
  }

  /** A line that succeeds while a failure gap is open closes it; a is the state in which it writes the gap's report. */
  ghost predicate ReportOf(w: World, line: State, a: State) {
    FailureOpen(line) && w.disk(line.asked.writes)
    && a == Closed(w, line.(asked := line.asked.(writes := line.asked.writes + 1)))
  }

  /** Every line an event writes. */
  ghost predicate WritesLine(w: World, st: State, e: Event, a: State) {
    OwnLine(w, st, e, a) || exists line :: OwnLine(w, st, e, line) && ReportOf(w, line, a)
  }

  /** The state after a line, with the rest of the event to come. */
  ghost predicate LineOf(w: World, a: State, b: State) {
    a.session.Some? && WellKept(w, a) && Extends(w, Append(w, a), b)
  }

  lemma OwnLineExtends(w: World, st: State, e: Event, a: State, started: bool)
    requires Steady(w) && WellKept(w, st) && Quiet(w, st, started) && OwnLine(w, st, e, a)
    ensures LineOf(w, a, Next(w, st, e))
  {
    match e
    case Receive(topic, m) =>
      ExtendsSame(w, st, a);
      hide WellKept, Extends, Append;
      AppendKeeps(w, a);
      ExtendsSame(w, Append(w, a), Append(w, a));
    case FailureReport =>
      ExtendsSame(w, st, a);
      hide WellKept, Extends, Append;
      AppendKeeps(w, a);
      ExtendsSame(w, Append(w, a), Append(w, a));
    case Stop(trigger) =>
      ExtendsSame(w, st, a);
      hide WellKept, Extends, Append, Json, OpenGap;
      AppendKeeps(w, a);
      StoppingKeeps(w, Append(w, a), trigger);
    case Start(trigger) => StartLineExtends(w, st, trigger, a, started);
  }

  lemma StartLineExtends(w: World, st: State, trigger: Trigger, a: State, started: bool)
    requires Steady(w) && WellKept(w, st) && Quiet(w, st, started) && OwnLine(w, st, Start(trigger), a)
    ensures LineOf(w, a, StartLog(w, st, trigger))
  {
    hide WellKept, Extends, Quiet, Tracks, EnsureSession, Append, Json, Entries, StartLog;
    var active := Activated(w, st, trigger);
    ActivatedKeeps(w, st, trigger, started);
    OpenedAfterClose(w, active);
    MidStartKeeps(w, st, trigger, started, 0);
    NoEntries(w, Opened(w, active));
    if active.session.value.openGap.Some? && a == Closed(w, active) {
      ClosedKeeps(w, active);
      ExtendsTrans(w, CloseGap(w, active), Opened(w, active), StartLog(w, st, trigger));
    } else if a == Read(Ready(w, Activated(w, st, trigger))) {
      FirstLineKeeps(w, active);
    } else {
      var i: nat :| i < |st.received| && a == Read(MidStart(w, st, trigger, i));
      MidStartKeeps(w, st, trigger, started, i);
      MidStartKeeps(w, st, trigger, started, i + 1);
      NextEntry(w, Opened(w, active), i);
      ExtendsSame(w, MidStart(w, st, trigger, i), a);
    }
  }

  lemma NoEntries(w: World, st: State)
    requires st.session.Some?
    ensures Entries(w, st, 0) == st
  {
  }

  lemma NextEntry(w: World, st: State, i: nat)
    requires st.session.Some?
    ensures Entries(w, st, i + 1) == Append(w, Read(Entries(w, st, i)))
  {
    hide Append;
  }

  lemma FirstLineKeeps(w: World, active: State)
    requires Steady(w) && WellKept(w, active) && active.session.Some?
    ensures WellKept(w, Read(Ready(w, active))) && Append(w, Read(Ready(w, active))) == Opened(w, active)
  {
    hide WellKept, Extends, CloseGap, Ready, Append;
    ReadyKeeps(w, active);
    ExtendsSame(w, Ready(w, active), Read(Ready(w, active)));
  }

  lemma LineExtends(w: World, st: State, e: Event, a: State, started: bool)
    requires Steady(w) && WellKept(w, st) && Quiet(w, st, started) && WritesLine(w, st, e, a)
    ensures LineOf(w, a, Next(w, st, e))
  {
    hide WellKept, Extends, Quiet, OwnLine, Next;
    if OwnLine(w, st, e, a) {
      OwnLineExtends(w, st, e, a, started);
    } else {
      var line :| OwnLine(w, st, e, line) && ReportOf(w, line, a);
      OwnLineExtends(w, st, e, line, started);
      var written := line.(asked := line.asked.(writes := line.asked.writes + 1));
      ExtendsSame(w, line, written);
      ClosedKeeps(w, written);
      assert Append(w, line) == Append(w, a);
    }
  }

  /** A failed line without an open gap: its gap starts at the second reading after the write, the first being the time noted
      for the failure itself. */
  lemma FailedLineOpensGap(w: World, a: State)
    requires a.session.Some? && a.session.value.openGap.None? && !w.disk(a.asked.writes)
    ensures AllGaps(Append(w, a)) == AllGaps(a) + [Gap(w.clock(a.asked.readings + 1), None, Failure)]
    ensures Append(w, a).asked.readings == a.asked.readings + 2 && Append(w, a).session.value.openGap.Some?
  {
  }

  lemma HoleOfLine(w: World, a: State, b: State, t: int)
    requires Steady(w) && LineOf(w, a, b) && a.session.value.openGap.None? && !w.disk(a.asked.writes)
    requires (a.asked.readings > 0 ==> w.clock(a.asked.readings - 1) <= t) && t < w.clock(a.asked.readings + 1)
    ensures forall i :: 0 <= i < |AllGaps(b)| ==> !StrictlyInside(AllGaps(b)[i], t)
  {
    FailedLineOpensGap(w, a);
    hide Append;
    var mid := Append(w, a);
    forall i | 0 <= i < |AllGaps(b)|
      ensures !StrictlyInside(AllGaps(b)[i], t)
    {
      if i < |AllGaps(a)| {
        assert AllGaps(mid)[i] == AllGaps(a)[i] && AllGaps(a)[i].end.Some? && GapPast(w, a.asked.readings, AllGaps(a)[i]);
        assert AllGaps(b)[i].end == AllGaps(a)[i].end;
      } else if i == |AllGaps(a)| {
        assert AllGaps(b)[i].start == AllGaps(mid)[i].start;
      } else {
        assert w.clock(a.asked.readings + 1) <= w.clock(a.asked.readings + 2);
      }
    }
  }

  /** In the final record of any run, for every line that fails while no gap is open: from the last reading before the write
      up to the second reading after it no instant lies strictly inside a gap, and from there to the next reading every
      instant lies in one. */
  lemma FailedLineLeavesHole(w: World, events: seq<Event>, k: nat, a: State, t: int)
    requires Steady(w) && k < |events| && WritesLine(w, Run(w, events[..k]), events[k], a)
    requires a.session.Some? && a.session.value.openGap.None? && !w.disk(a.asked.writes)
    ensures (a.asked.readings > 0 ==> w.clock(a.asked.readings - 1) <= t) && t < w.clock(a.asked.readings + 1) ==>
      forall i :: 0 <= i < |AllGaps(Run(w, events))| ==> !StrictlyInside(AllGaps(Run(w, events))[i], t)
    ensures w.clock(a.asked.readings + 1) <= t <= w.clock(a.asked.readings + 2) ==>
      exists i :: 0 <= i < |AllGaps(Run(w, events))| && Covers(AllGaps(Run(w, events))[i], t)
  {
    var st := Run(w, events[..k]);
    assert events[..k + 1][..k] == events[..k];
    assert Run(w, events[..k + 1]) == Next(w, st, events[k]);
    hide Run, WellKept, Quiet, Next, WritesLine;
    RunKeeps(w, events[..k]);
    LineExtends(w, st, events[k], a, Started(events[..k]));
    RunExtends(w, events, k + 1);
    hide Extends, Append;
    var mid := Append(w, a);
    ExtendsTrans(w, mid, Run(w, events[..k + 1]), Run(w, events));
    AppendKeeps(w, a);
    FailedLineOpensGap(w, a);
    if (a.asked.readings > 0 ==> w.clock(a.asked.readings - 1) <= t) && t < w.clock(a.asked.readings + 1) {
      HoleOfLine(w, a, Run(w, events), t);
    }
    if w.clock(a.asked.readings + 1) <= t <= w.clock(a.asked.readings + 2) {
      RecordedLater(w, mid, Run(w, events), t);
    }
  }

  // ----- who starts and stops the log

  predicate Recording(st: State) {
    st.session.Some? && st.session.value.active
  }

  function Origin(st: State): Option<Trigger> {
    if Recording(st) then st.session.value.startedBy else None
  }

  /** How one event changes who started the running log. */
  function OriginAfter(origin: Option<Trigger>, recording: bool, e: Event): Option<Trigger> {
    match e
    case Start(trigger) =>
      if !recording && (trigger == Human || trigger == AutoMapStart || trigger == AutoAutonomyStart) then Some(trigger) else origin
    case Stop(trigger) => if recording && (trigger == Human || origin != Some(Human)) then None else origin
    case _ => origin
  }

  lemma JsonOrigin(w: World, st: State)
    requires st.session.Some?
    ensures Recording(Json(w, st)) == Recording(st) && Origin(Json(w, st)) == Origin(st)
  {
  }

  lemma EnsureSessionOrigin(w: World, st: State)
    ensures Recording(EnsureSession(w, st)) == Recording(st) && Origin(EnsureSession(w, st)) == Origin(st)
  {
    hide Json;
    JsonOrigin(w, SetLog(Read(st), NO_SESSION));
  }

  lemma StartOrigin(w: World, st: State, trigger: Trigger, started: bool)
    requires Steady(w) && WellKept(w, st) && Quiet(w, st, started)
    ensures Origin(StartLog(w, st, trigger)) == OriginAfter(Origin(st), Recording(st), Start(trigger))
  {
    hide WellKept, Extends, Quiet, Tracks, EnsureSession, CloseGap, Json, Entry, Entries;
    EnsureSessionOrigin(w, st);
    EnsureSessionKeeps(w, st, started);
    var st1 := EnsureSession(w, st);
    if Permitted(trigger) && !st1.session.value.active {
      StartingKeeps(w, st1, SetLog(st1, st1.session.value.(active := true, startedBy := Some(trigger))));
    }
  }

  lemma StopOrigin(w: World, st: State, trigger: Trigger, started: bool)
    requires Steady(w) && WellKept(w, st) && Quiet(w, st, started)
    ensures Origin(StopLog(w, st, trigger)) == OriginAfter(Origin(st), Recording(st), Stop(trigger))
  {
    if Recording(st) && (trigger == Human || Origin(st) != Some(Human)) {
      EntryKeeps(w, st);
      hide WellKept, Entry, Json;
      var st1 := Entry(w, st);
      var st2 := OpenGap(w, SetLog(st1, st1.session.value.(active := false, startedBy := None)), Stopped);
      JsonOrigin(w, st2.(revision := st2.revision + 1));
    }
  }

  /** A log starts only by a permitted trigger while none is running, and stops only by a human or, if no human started
      it, automatically; every other event leaves it alone. */
  lemma OriginOfNext(w: World, st: State, e: Event, started: bool)
    requires Steady(w) && WellKept(w, st) && Quiet(w, st, started)
    ensures Origin(Next(w, st, e)) == OriginAfter(Origin(st), Recording(st), e)
  {
    match e {
      case Start(trigger) => StartOrigin(w, st, trigger, started);
      case Stop(trigger) => StopOrigin(w, st, trigger, started);
      case Receive(topic, m) =>
        if Recording(st) {
          AppendTracks(w, st.(received := st.received[topic := m]));
        }
      case FailureReport =>
        if Recording(st) {
          EntryKeeps(w, st);
        }
      case OpenSession => EnsureSessionOrigin(w, st);
      case SaveSession =>
        if st.session.Some? {
          JsonOrigin(w, st);
        }
      case ClockRead =>
    }
    hide WellKept, Extends, StartLog, StopLog, Entry, Json, EnsureSession, Append;
  }

  /** A log that a human started keeps running, with its origin, until a human stops it. */
  lemma {:induction false} HumanLogStays(w: World, before: seq<Event>, after: seq<Event>)
    requires Steady(w) && Origin(Run(w, before)) == Some(Human) && Stop(Human) !in after
    ensures Origin(Run(w, before + after)) == Some(Human)
  {
    if after == [] {
      assert before + after == before;
    } else {
      var n := |after| - 1;
      assert (before + after)[..|before| + n] == before + after[..n];
      HumanLogStays(w, before, after[..n]);
      RunKeeps(w, before + after[..n]);
      hide WellKept, Quiet, Next;
      OriginOfNext(w, Run(w, before + after[..n]), after[n], Started(before + after[..n]));
    }
  }

  /** Without a permitted start there is never a recording. */
  lemma NeverStartsByItself(w: World, events: seq<Event>)
    requires Steady(w) && forall i :: 0 <= i < |events| && events[i].Start? ==> !Permitted(events[i].trigger)
    ensures !Recording(Run(w, events)) && AllGaps(Run(w, events)) == []
  {
    RunKeeps(w, events);
    NoStart(events);
    hide Run, WellKept;
  }

  lemma {:induction false} NoStart(events: seq<Event>)
    requires forall i :: 0 <= i < |events| && events[i].Start? ==> !Permitted(events[i].trigger)
    ensures !Started(events)
  {
    if events != [] {
      NoStart(events[..|events| - 1]);
    }
  }

  // ----- what is counted

  /** How many of the first n answers were failures. */
  function Lost(answer: nat -> bool, n: nat): nat {
    if n == 0 then 0 else Lost(answer, n - 1) + if answer(n - 1) then 0 else 1
  }

  function ClosedGaps(st: State): seq<Gap> {
    if st.session.None? then [] else st.session.value.gaps
  }

  function Failures(st: State): nat {
    if st.session.None? then 0 else st.session.value.failures
  }

  function Starter(st: State): Option<Trigger> {
    if st.session.None? then None else st.session.value.startedBy
  }

  /** What the events of a run write and read themselves. */
  datatype Sums = Sums(lines: int, saves: nat, switches: nat, readings: nat)

  /** Every write beyond the reports of the closed gaps is one of the lines, every write of session.json one of the saves; every
      failed write is a failure, and moves the revision, as a switch does. The clock is read beside that once for every gap opened
      or closed, every save and every failure. The gap shown last is the one closed last. */
  ghost predicate Balanced(w: World, st: State, t: Sums) {
    && st.asked.writes == |ClosedGaps(st)| + t.lines
    && st.asked.jsons == t.saves
    && Failures(st) == Lost(w.disk, st.asked.writes) + Lost(w.json, st.asked.jsons)
    && st.revision == Lost(w.disk, st.asked.writes) + t.switches
    && st.asked.readings == t.readings + |ClosedGaps(st)| + |AllGaps(st)| + Lost(w.disk, st.asked.writes)
                            + st.asked.jsons + Lost(w.json, st.asked.jsons)
    && st.lastGap == (if ClosedGaps(st) == [] then None else Some(ClosedGaps(st)[|ClosedGaps(st)| - 1]))
    && (Recording(st) <==> Starter(st).Some?)
  }

  /** st after a write to the log files. */
  function Written(st: State): State {
    st.(asked := st.asked.(writes := st.asked.writes + 1))
  }

  /** A line that is written; with a gap to close, the write is that of a report still to come. */
  lemma WrittenBalances(w: World, st: State, t: Sums)
    requires Balanced(w, st, t) && st.session.Some? && w.disk(st.asked.writes)
    ensures Balanced(w, Written(st), t.(lines := t.lines + 1))
    ensures st.session.value.openGap.Some? ==> Balanced(w, Closed(w, Written(st)), t)
  {
    assert Lost(w.disk, st.asked.writes + 1) == Lost(w.disk, st.asked.writes);
    hide Lost;
  }

  lemma FailedBalances(w: World, st: State, t: Sums)
    requires Balanced(w, st, t) && st.session.Some? && !w.disk(st.asked.writes)
    ensures var f := Failed(w, Written(st)); Balanced(w, f.(revision := f.revision + 1), t.(lines := t.lines + 1))
  {
    assert Lost(w.disk, st.asked.writes + 1) == Lost(w.disk, st.asked.writes) + 1;
    hide Lost;
  }

  lemma {:induction false} AppendBalances(w: World, st: State, t: Sums)
    requires Balanced(w, st, t) && st.session.Some?
    ensures Balanced(w, Append(w, st), t.(lines := t.lines + 1))
    ensures Append(w, st).received == st.received && Recording(Append(w, st)) == Recording(st)
    decreases if FailureOpen(st) then 2 else 0
  {
    hide Balanced;
    if !w.disk(st.asked.writes) {
      FailedBalances(w, st, t);
    } else {
      WrittenBalances(w, st, t);
      if FailureOpen(st) {
        assert Append(w, st) == Append(w, Closed(w, Written(st)));
        AppendBalances(w, Closed(w, Written(st)), t);
      }
    }
  }

  lemma ClosedBalances(w: World, st: State, t: Sums)
    requires Balanced(w, st, t) && st.session.Some? && st.session.value.openGap.Some?
    ensures Balanced(w, Closed(w, st), t.(lines := t.lines - 1))
  {
    hide Lost;
  }

  /** The line that reports a closed gap is a write of its own. */
  lemma CloseGapBalances(w: World, st: State, t: Sums)
    requires Balanced(w, st, t) && st.session.Some?
    ensures Balanced(w, CloseGap(w, st), t)
    ensures CloseGap(w, st).received == st.received && Recording(CloseGap(w, st)) == Recording(st)
  {
    hide Balanced;
    if st.session.value.openGap.Some? {
      ClosedBalances(w, st, t);
      AppendBalances(w, Closed(w, st), t.(lines := t.lines - 1));
      hide Append;
    }
  }

  lemma JsonBalances(w: World, st: State, t: Sums)
    requires Balanced(w, st, t) && st.session.Some?
    ensures Balanced(w, Json(w, st), t.(saves := t.saves + 1))
    ensures Json(w, st).received == st.received && Recording(Json(w, st)) == Recording(st)
  {
  }

  lemma EntryBalances(w: World, st: State, t: Sums)
    requires Balanced(w, st, t) && st.session.Some?
    ensures Balanced(w, Entry(w, st), t.(lines := t.lines + 1, readings := t.readings + 1))
    ensures Entry(w, st).received == st.received && Recording(Entry(w, st)) == Recording(st)
  {
    assert Balanced(w, Read(st), t.(readings := t.readings + 1));
    AppendBalances(w, Read(st), t.(readings := t.readings + 1));
    hide Append;
  }

  lemma {:induction false} EntriesBalance(w: World, st: State, n: nat, t: Sums)
    requires Balanced(w, st, t) && st.session.Some?
    ensures Balanced(w, Entries(w, st, n), t.(lines := t.lines + n, readings := t.readings + n))
    ensures Entries(w, st, n).received == st.received && Recording(Entries(w, st, n)) == Recording(st)
  {
    hide Balanced, Entry;
    if n > 0 {
      EntriesBalance(w, st, n - 1, t);
      EntryBalances(w, Entries(w, st, n - 1), t.(lines := t.lines + n - 1, readings := t.readings + n - 1));
    }
  }

  function Ensured(st: State, t: Sums): Sums {
    if st.session.Some? then t else t.(saves := t.saves + 1, readings := t.readings + 1)
  }

  function Opening(st: State, t: Sums): Sums {
    var n := 1 + |st.received|;
    Sums(t.lines + n, t.saves + 1, t.switches + 1, t.readings + n)
  }

  lemma ReadBalances(w: World, st: State, t: Sums)
    requires Balanced(w, st, t)
    ensures Balanced(w, Read(st), t.(readings := t.readings + 1))
  {
    hide Lost;
  }

  lemma EnsureSessionBalances(w: World, st: State, t: Sums)
    requires Balanced(w, st, t)
    ensures Balanced(w, EnsureSession(w, st), Ensured(st, t))
    ensures EnsureSession(w, st).received == st.received && Recording(EnsureSession(w, st)) == Recording(st)
  {
    if st.session.None? {
      JsonBalances(w, SetLog(Read(st), NO_SESSION), t.(readings := t.readings + 1));
      hide Json;
    }
  }

  /** The lines an event writes itself, besides the reports of the gaps it closes: a start writes record_start and a snapshot of
      every topic received so far. */
  function OwnLines(st: State, e: Event): nat {
    match e
    case Start(trigger) => if Permitted(trigger) && !Recording(st) then 1 + |st.received| else 0
    case Stop(trigger) => if Stops(st, trigger) then 1 else 0
    case Receive(_, _) => if Recording(st) then 1 else 0
    case FailureReport => if Recording(st) then 1 else 0
    case _ => 0
  }

  /** How often an event writes session.json. */
  function Saves(st: State, e: Event): nat {
    match e
    case Start(trigger) => if !Permitted(trigger) then 0 else (if st.session.None? then 1 else 0) + if Recording(st) then 0 else 1
    case Stop(trigger) => if Stops(st, trigger) then 1 else 0
    case OpenSession => if st.session.None? then 1 else 0
    case SaveSession => if st.session.None? then 0 else 1
    case _ => 0
  }

  /** The log is switched on or off. */
  function Switches(st: State, e: Event): nat {
    match e
    case Start(trigger) => if Permitted(trigger) && !Recording(st) then 1 else 0
    case Stop(trigger) => if Stops(st, trigger) then 1 else 0
    case _ => 0
  }

  /** How often an event reads the clock for itself: for a session id, for the time in a line, or for a rosbag. */
  function Readings(st: State, e: Event): nat {
    match e
    case Start(trigger) => (if Permitted(trigger) && st.session.None? then 1 else 0) + OwnLines(st, e)
    case Receive(_, _) => 0
    case OpenSession => if st.session.None? then 1 else 0
    case ClockRead => 1
    case _ => OwnLines(st, e)
  }

  function Plus(t: Sums, st: State, e: Event): Sums {
    Sums(t.lines + OwnLines(st, e), t.saves + Saves(st, e), t.switches + Switches(st, e), t.readings + Readings(st, e))
  }

  lemma StartBalances(w: World, st: State, trigger: Trigger, t: Sums)
    requires Balanced(w, st, t)
    ensures var e := Start(trigger);
      Balanced(w, StartLog(w, st, trigger), Plus(t, st, e))
    ensures StartLog(w, st, trigger).received == st.received
    ensures Recording(StartLog(w, st, trigger)) == (Recording(st) || Permitted(trigger))
  {
    hide EnsureSession, CloseGap, Json, Entry, Entries, Balanced, Starting;
    var st1 := EnsureSession(w, st);
    EnsureSessionBalances(w, st, t);
    if Permitted(trigger) && !Recording(st1) {
      StartLogIs(w, st, trigger);
      var active := Activated(w, st, trigger);
      ActiveBalances(w, st1, trigger, Ensured(st, t));
      StartingBalances(w, active, Ensured(st, t));
    }
  }

  lemma ActiveBalances(w: World, st: State, trigger: Trigger, t: Sums)
    requires Balanced(w, st, t) && st.session.Some?
    ensures Balanced(w, SetLog(st, st.session.value.(active := true, startedBy := Some(trigger))), t)
  {
    hide Lost;
  }

  lemma StartingBalances(w: World, active: State, t: Sums)
    requires Balanced(w, active, t) && Recording(active)
    ensures Balanced(w, Starting(w, active), Opening(active, t))
    ensures Starting(w, active).received == active.received && Recording(Starting(w, active))
  {
    hide CloseGap, Json, Entry, Entries, Balanced;
    CloseGapBalances(w, active, t);
    var st2 := CloseGap(w, active);
    Moves(w, st2, t);
    JsonBalances(w, st2.(revision := st2.revision + 1), t.(switches := t.switches + 1));
    EntryBalances(w, Ready(w, active), t.(switches := t.switches + 1, saves := t.saves + 1));
    EntriesBalance(w, Opened(w, active), |Opened(w, active).received|,
                   Sums(t.lines + 1, t.saves + 1, t.switches + 1, t.readings + 1));
  }

  lemma Moves(w: World, st: State, t: Sums)
    requires Balanced(w, st, t)
    ensures Balanced(w, st.(revision := st.revision + 1), t.(switches := t.switches + 1))
  {
    hide Lost;
  }

  lemma StopBalances(w: World, st: State, trigger: Trigger, t: Sums)
    requires Balanced(w, st, t)
    ensures var e := Stop(trigger);
      Balanced(w, StopLog(w, st, trigger), Plus(t, st, e))
    ensures StopLog(w, st, trigger).received == st.received
    ensures Recording(StopLog(w, st, trigger)) == (Recording(st) && !Stops(st, trigger))
  {
    hide Entry, Json, OpenGap, Balanced;
    if Stops(st, trigger) {
      EntryBalances(w, st, t);
      var st1 := Entry(w, st);
      var off := SetLog(st1, st1.session.value.(active := false, startedBy := None));
      SwitchedOffBalances(w, st1, t.(lines := t.lines + 1, readings := t.readings + 1));
      var st2 := OpenGap(w, off, Stopped);
      JsonBalances(w, st2.(revision := st2.revision + 1), Sums(t.lines + 1, t.saves, t.switches + 1, t.readings + 1));
    }
  }

  lemma SwitchedOffBalances(w: World, st: State, t: Sums)
    requires Balanced(w, st, t) && st.session.Some?
    ensures var off := OpenGap(w, SetLog(st, st.session.value.(active := false, startedBy := None)), Stopped);
      && Balanced(w, off.(revision := off.revision + 1), t.(switches := t.switches + 1))
      && off.received == st.received && !Recording(off)
  {
    hide Lost;
  }

  lemma NextBalances(w: World, st: State, e: Event, t: Sums)
    requires Balanced(w, st, t)
    ensures Balanced(w, Next(w, st, e), Plus(t, st, e))
    ensures Next(w, st, e).received == if e.Receive? then st.received[e.topic := e.message] else st.received
  {
    hide StartLog, StopLog, Entry, Json, EnsureSession, Append, Lost, Balanced, Stops;
    match e
    case Start(trigger) => StartBalances(w, st, trigger, t);
    case Stop(trigger) => StopBalances(w, st, trigger, t);
    case Receive(topic, m) =>
      var st1 := st.(received := st.received[topic := m]);
      SameCounts(w, st, st1, t);
      if Recording(st) {
        AppendBalances(w, st1, t);
      }
    case FailureReport =>
      if Recording(st) {
        EntryBalances(w, st, t);
      }
    case OpenSession => EnsureSessionBalances(w, st, t);
    case SaveSession =>
      if st.session.Some? {
        JsonBalances(w, st, t);
      }
    case ClockRead => ReadBalances(w, st, t);
  }

  lemma SameCounts(w: World, a: State, b: State, t: Sums)
    requires Balanced(w, a, t)
    requires b.session == a.session && b.lastGap == a.lastGap && b.revision == a.revision
    requires b.asked == a.asked
    ensures Balanced(w, b, t)
  {
    hide Lost;
  }

  function Total(w: World, events: seq<Event>): Sums {
    if events == [] then Sums(0, 0, 0, 0)
    else
      var before := events[..|events| - 1];
      Plus(Total(w, before), Run(w, before), events[|events| - 1])
  }

  /** In every run, under every pattern of write failures: each write to the log files is a line of an event or the report of a
      closed gap, each failed write is one failure, the revision counts the failed lines and the starts and stops, the gap shown
      last is the one closed last, and a log runs exactly while it has a starter. */
  lemma {:induction false} RunBalances(w: World, events: seq<Event>)
    ensures Balanced(w, Run(w, events), Total(w, events))
  {
    hide Next, Balanced, Plus;
    if events == [] {
      NothingBalances(w);
    } else {
      var before, e := events[..|events| - 1], events[|events| - 1];
      RunBalances(w, before);
      NextBalances(w, Run(w, before), e, Total(w, before));
    }
  }

  lemma NothingBalances(w: World)
    ensures Balanced(w, INITIAL, Sums(0, 0, 0, 0))
  {
  }

  ghost predicate LastReceived(events: seq<Event>, topic: string, i: nat) {
    && i < |events| && events[i].Receive? && events[i].topic == topic
    && forall j :: i < j < |events| ==> !(events[j].Receive? && events[j].topic == topic)
  }

  /** What a start will write as snapshot: of every topic the message that came last, whether it was recorded or not. */
  lemma {:induction false} SnapshotIsLast(w: World, events: seq<Event>, topic: string)
    ensures topic in Run(w, events).received <==> exists i: nat :: LastReceived(events, topic, i)
    ensures forall i: nat :: LastReceived(events, topic, i) ==> Run(w, events).received[topic] == events[i].message
  {
    hide Next, Balanced;
    if events != [] {
      var n := |events| - 1;
      var before, e := events[..n], events[n];
      SnapshotIsLast(w, before, topic);
      RunBalances(w, before);
      NextBalances(w, Run(w, before), e, Total(w, before));
      if e.Receive? && e.topic == topic {
        assert LastReceived(events, topic, n);
      } else {
        forall i: nat ensures LastReceived(events, topic, i) <==> LastReceived(before, topic, i) {}
      }
    }
  }
}
