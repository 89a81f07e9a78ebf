/** The ESP32 output arbitration (protocol v4): at every instant the gamepad, the PC or nobody drives the DAC.  The state
    is a value, Next is one atomic step, and the ownership theorems speak about every run from boot.  The square root
    behind math.hypot is an input of the step (root), tied to the stick by IsRoot. */
module Firmware {
  import opened Crc
  import opened Frames
  import Voltage

  // ----- configuration

  datatype Config = Config(neutral: int, dacMin: int, dacMax: int, fullScale: int, watchdog: int, btTimeout: int,
                           deadzone: int, release: int, statusPeriod: int)

  predicate ConfigValid(c: Config) {
    0 < c.dacMin < c.neutral < c.dacMax <= c.fullScale && c.watchdog > 0 && c.btTimeout > 0
    && 0 <= c.deadzone < AXIS_LIMIT
  }

  function DecodeConfig(b: Bytes): Config
    requires |b| == 24
  {
    Config(U2(b[4..6]), U2(b[6..8]), U2(b[8..10]), U2(b[10..12]), U2(b[12..14]), U2(b[14..16]), U2(b[16..18]),
           U2(b[18..20]), U2(b[20..22]))
  }

  // ----- the gamepad vector

  datatype Vector = Vector(x: real, y: real)

  const ZERO := Vector(0.0, 0.0)

  predicate IsRoot(r: real, square: real) {
    r >= 0.0 && r * r == square
  }

  function Axis(q: int): real {
    Clamp(q) as real / 10000.0
  }

  /** Ten thousand is full deflection, and nothing counts as more. */
  lemma AxisScale(q: int)
    ensures -10000 <= q <= 10000 ==> Axis(q) * 10000.0 == q as real
    ensures (q > 10000 ==> Axis(q) == 1.0) && (q < -10000 ==> Axis(q) == -1.0)
  {
  }

  function StickSquare(x: int, y: int): real {
    Axis(x) * Axis(x) + Axis(y) * Axis(y)
  }

  /** The length of the manual vector: zero at the edge of the deadzone, one at the edge of the circle. */
  function Magnitude(root: real, dz: real): real
    requires dz != 1.0
  {
    ((if root < 1.0 then root else 1.0) - dz) / (1.0 - dz)
  }

  function Scaled(a: real, b: real, m: real, root: real): Vector
    requires root != 0.0
  {
    Vector(a * m / root, b * m / root)
  }

  /** manual_vector; None is the ZeroDivisionError of a deadzone that fills the whole circle. */
  function ManualVector(x: int, y: int, root: real, deadzone: int): Option<Vector> {
    var dz := deadzone as real / 10000.0;
    if root <= dz then Some(ZERO)
    else if dz == 1.0 || root == 0.0 then None
    else Some(Scaled(Axis(x), Axis(y), Magnitude(root, dz), root))
  }

  // ----- state

  datatype Gamepad = Gamepad(connected: bool, haveReport: bool, last: int, centered: bool, manual: Vector, staleFlagged: bool)

  datatype PcLink = PcLink(enabled: bool, haveCmd: bool, last: int, x: int, y: int, haveSeq: bool, lastSeq: int)

  datatype State = State(token: int, config: Option<Config>, generation: nat, now: int, bt: Gamepad, pc: PcLink,
                         lastManualActive: Option<int>, manualActivePrev: bool)

  function Boot(token: int, config: Option<Config>): State {
    State(token, config, 0, 0, Gamepad(false, false, 0, false, ZERO, false), PcLink(false, false, 0, 0, 0, false, 0), None, false)
  }

  predicate ConfigOk(s: State) {
    s.config.Some? && ConfigValid(s.config.value)
  }

  predicate BtFresh(s: State) {
    ConfigOk(s) && s.bt.connected && s.bt.haveReport && s.now - s.bt.last < s.config.value.btTimeout
  }

  predicate PcFresh(s: State) {
    ConfigOk(s) && s.pc.haveCmd && s.now - s.pc.last < s.config.value.watchdog
  }

  predicate ManualActive(s: State) {
    BtFresh(s) && s.bt.centered && s.bt.manual != ZERO
  }

  predicate ReleaseOk(s: State)
    requires ConfigOk(s)
  {
    s.lastManualActive == None || s.now - s.lastManualActive.value >= s.config.value.release
  }

  // ----- arbitration

  datatype Source = NoSource | Manual | Pc

  datatype Reason = ConfigInvalid | BtDisconnected | BtStale | WaitingCenter | ManualOverride | PcDisabled | PcStale
                  | NeutralRecoveryWait | PcControl | ManualNeutral

  datatype Output = Output(source: Source, reason: Reason, x: real, y: real)

  function Applied(s: State): Output {
    if !ConfigOk(s) then Output(NoSource, ConfigInvalid, 0.0, 0.0)
    else if ManualActive(s) then Output(Manual, ManualOverride, s.bt.manual.x, s.bt.manual.y)
    else if s.pc.enabled && PcFresh(s) then
      if ReleaseOk(s) then Output(Pc, PcControl, s.pc.x as real / 10000.0, s.pc.y as real / 10000.0)
      else Output(NoSource, NeutralRecoveryWait, 0.0, 0.0)
    else
      var reason :=
        if s.bt.connected && s.bt.haveReport && !BtFresh(s) then BtStale
        else if s.bt.connected && BtFresh(s) && !s.bt.centered then WaitingCenter
        else if s.pc.haveCmd && !PcFresh(s) then PcStale
        else if BtFresh(s) && s.bt.centered then ManualNeutral
        else if !s.bt.connected && !s.pc.haveCmd then BtDisconnected
        else PcDisabled;
      Output(NoSource, reason, 0.0, 0.0)
  }

  lemma AppliedManual(s: State)
    ensures Applied(s).source == Manual <==> ManualActive(s)
  {
  }

  // ----- what is written to the DAC

  datatype Write = Write(x: int, y: int, codeX: int, codeY: int)

  /** length and root are the square roots map_voltage takes for the applied vector. */
  function AppliedStick(s: State, length: real, root: real): Voltage.Stick {
    Voltage.Stick(Applied(s).x, Applied(s).y, length, root)
  }

  predicate Measured(s: State, length: real, root: real)
    requires ConfigOk(s)
  {
    var c := s.config.value; Voltage.Measured(AppliedStick(s, length, root), c.neutral, c.dacMin, c.dacMax)
  }

  /** The targets and codes of applied(); None when the DAC is not written. */
  function Written(s: State, length: real, root: real): Option<Write> {
    if !ConfigOk(s) then None
    else
      var c := s.config.value;
      var (x, y) := Voltage.Target(AppliedStick(s, length, root), c.neutral, c.dacMin, c.dacMax);
      Some(Write(x, y, Voltage.DacCode(x, c.fullScale), Voltage.DacCode(y, c.fullScale)))
  }

  /** In every state, whoever drives: the DAC is written exactly under a valid configuration, both targets lie in
      [dac_min, dac_max], both codes lie in twelve bits between the codes of these ends, and when nobody drives both axes
      are exactly neutral. */
  lemma WrittenInRange(s: State, length: real, root: real)
    requires ConfigOk(s) ==> Measured(s, length, root)
    ensures Written(s, length, root).Some? <==> ConfigOk(s)
    ensures ConfigOk(s) ==>
      var c, w := s.config.value, Written(s, length, root).value;
      && c.dacMin <= w.x <= c.dacMax && c.dacMin <= w.y <= c.dacMax
      && 0 <= Voltage.DacCode(c.dacMin, c.fullScale) <= w.codeX <= Voltage.DacCode(c.dacMax, c.fullScale) <= 4095
      && 0 <= Voltage.DacCode(c.dacMin, c.fullScale) <= w.codeY <= Voltage.DacCode(c.dacMax, c.fullScale) <= 4095
      && (Applied(s).source == NoSource ==> w.x == c.neutral && w.y == c.neutral)
  {
    if ConfigOk(s) {
      NobodyIsNeutral(s);
      hide Applied, Voltage.Measured, Voltage.Target, Voltage.DacCode;
      var c, w := s.config.value, Written(s, length, root).value;
      Voltage.TargetInRange(AppliedStick(s, length, root), c.neutral, c.dacMin, c.dacMax);
      Voltage.DacCodeAccurate(c.dacMin, c.fullScale);
      Voltage.DacCodeAccurate(c.dacMax, c.fullScale);
      Voltage.DacCodeMonotone(c.dacMin, w.x, c.fullScale);
      Voltage.DacCodeMonotone(w.x, c.dacMax, c.fullScale);
      Voltage.DacCodeMonotone(c.dacMin, w.y, c.fullScale);
      Voltage.DacCodeMonotone(w.y, c.dacMax, c.fullScale);
    }
  }

  lemma NobodyIsNeutral(s: State)
    ensures Applied(s).source == NoSource ==> Applied(s).x == 0.0 && Applied(s).y == 0.0
  {
  }

  /** Whoever drives: the targets lie straight ahead of the applied vector, the same share of the way to the circle as the
      vector is long, up to rounding and two corrections, and each axis is written as its own code, half a code off at most. */
  lemma WrittenFollowsVector(s: State, length: real, root: real) returns (fx: real, fy: real)
    requires ConfigOk(s) && Measured(s, length, root) && length != 0.0
    requires var c := s.config.value; Voltage.InsideCircle(c.neutral, c.neutral, c.dacMin, c.dacMax)
    ensures var c, stick := s.config.value, AppliedStick(s, length, root);
      && stick.x == Applied(s).x && stick.y == Applied(s).y
      && Voltage.OnLine(fx, fy, stick) && Voltage.Facing(fx, fy, stick)
      && Voltage.OnTheCircle(c.neutral as real + fx, c.neutral as real + fy, c.dacMin, c.dacMax)
    ensures var c, w := s.config.value, Written(s, length, root).value;
      && Voltage.NearShare(w.x, w.y, c.neutral, Voltage.Deflection(AppliedStick(s, length, root)), fx, fy)
      && -c.fullScale <= 2 * (w.codeX * c.fullScale - w.x * 4095) <= c.fullScale
      && -c.fullScale <= 2 * (w.codeY * c.fullScale - w.y * 4095) <= c.fullScale
  {
    hide Applied, Voltage.Measured, Voltage.Target, Voltage.DacCode, Voltage.OnLine, Voltage.Facing, Voltage.OnTheCircle,
         Voltage.InsideCircle, Voltage.Deflection, Voltage.NearShare;
    var c, w := s.config.value, Written(s, length, root).value;
    fx, fy := Voltage.TargetFollowsStick(AppliedStick(s, length, root), c.neutral, c.dacMin, c.dacMax);
    Voltage.TargetInRange(AppliedStick(s, length, root), c.neutral, c.dacMin, c.dacMax);
    Voltage.DacCodeAccurate(w.x, c.fullScale);
    Voltage.DacCodeAccurate(w.y, c.fullScale);
  }

  // ----- steps

  /** One atomic step.  Clock is a read without a complete frame, Serial one frame delivered by the parser. */
  datatype Event =
    | Connect(now: int)
    | Disconnect(now: int)
    | Report(x: int, y: int, root: real, now: int)
    | Clock(now: int)
    | Serial(frame: Frame, now: int)
    | Tick(now: int)

  predicate Sound(e: Event) {
    e.Report? ==> IsRoot(e.root, StickSquare(e.x, e.y))
  }

  predicate ReportAfterGap(s: State, now: int) {
    ConfigOk(s) && s.bt.haveReport && now - s.bt.last >= s.config.value.btTimeout
  }

  function DeadzoneInForce(s: State): int {
    if ConfigOk(s) then s.config.value.deadzone else AXIS_LIMIT
  }

  /** bt_report.  When manual_vector raises (None), the fields assigned before it keep their new values. */
  function AfterReport(bt: Gamepad, gap: bool, now: int, v: Option<Vector>): Gamepad {
    if !bt.connected then bt
    else
      var centered := bt.centered && !gap;
      match v
      case None => Gamepad(true, true, now, centered, if gap then ZERO else bt.manual, false)
      case Some(v) =>
        var c := centered || v == ZERO;
        Gamepad(true, true, now, c, if c then v else ZERO, false)
  }

  const HELLO := 0x01
  const COMMAND := 0x02
  const SET_CONFIG := 0x03

  function NewerSequence(candidate: int, previous: int): bool {
    var delta := (candidate - previous) % U32;
    delta != 0 && delta < 0x8000_0000
  }

  function Token(f: Frame): int
    requires |f.payload| >= 4
  {
    U4(f.payload[..4])
  }

  /** The checks a COMMAND must pass: kind, size, boot token, sequence. */
  predicate Genuine(s: State, f: Frame) {
    f.kind == COMMAND && |f.payload| == 9 && Token(f) == s.token
    && (s.pc.haveSeq ==> NewerSequence(f.seqNo, s.pc.lastSeq))
  }

  predicate WantsPc(c: Command) {
    c.flags % 2 == 1
  }

  function AfterCommand(pc: PcLink, now: int, seqNo: int, c: Command): PcLink {
    var enabled := if WantsPc(c) then pc.enabled || (c.x == 0 && c.y == 0) else false;
    PcLink(enabled, true, now, c.x, c.y, true, seqNo)
  }

  predicate SetsConfig(s: State, f: Frame) {
    f.kind == SET_CONFIG && |f.payload| == 24 && Token(f) == s.token && ConfigValid(DecodeConfig(f.payload))
  }

  function AfterFrame(s: State, f: Frame): State {
    if Genuine(s, f) then s.(pc := AfterCommand(s.pc, s.now, f.seqNo, DecodeCommand(f.payload)))
    else if SetsConfig(s, f) then s.(config := Some(DecodeConfig(f.payload)), generation := (s.generation + 1) % 256)
    else s
  }

  predicate StaleDetected(s: State) {
    ConfigOk(s) && s.bt.connected && s.bt.haveReport && !BtFresh(s) && !s.bt.staleFlagged
  }

  /** tick() before it looks at the arbitration: staleness of both inputs. */
  function Expire(s: State): State {
    s.(bt := if StaleDetected(s) then s.bt.(centered := false, manual := ZERO, staleFlagged := true) else s.bt,
       pc := s.pc.(enabled := s.pc.enabled && PcFresh(s)))
  }

  function AfterTick(s: State): State {
    if !ConfigOk(s) then s
    else
      var t := Expire(s);
      var active := ManualActive(t);
      t.(lastManualActive := if active then Some(t.now) else t.lastManualActive, manualActivePrev := active)
  }

  function Next(s: State, e: Event): State {
    match e
    case Connect(now) => s.(now := now, bt := Gamepad(true, false, s.bt.last, false, ZERO, false))
    case Disconnect(now) => s.(now := now, bt := Gamepad(false, false, s.bt.last, false, ZERO, s.bt.staleFlagged))
    case Report(x, y, root, now) =>
      s.(now := now, bt := AfterReport(s.bt, ReportAfterGap(s, now), now, ManualVector(x, y, root, DeadzoneInForce(s))))
    case Clock(now) => s.(now := now)
    case Serial(f, now) => AfterFrame(s.(now := now), f)
    case Tick(now) => AfterTick(s.(now := now))
  }

  function AfterFrames(s: State, fs: seq<Frame>): State
    decreases |fs|
  {
    if fs == [] then s else AfterFrames(AfterFrame(s, fs[0]), fs[1..])
  }

  // ----- the firmware object

  class Esp32Sim {
    const token: int
    var config: Option<Config>
    var generation: nat
    var now: int
    var bt: Gamepad
    var pc: PcLink
    var lastManualActive: Option<int>
    var manualActivePrev: bool
    const parser: Parser

    function View(): State
      reads this
    {
      State(token, config, generation, now, bt, pc, lastManualActive, manualActivePrev)
    }

    constructor (token: int, config: Option<Config>)
      ensures View() == Boot(token, config) && fresh(parser) && parser.buf == []
    {
      this.token, this.config, generation, now := token, config, 0, 0;
      bt, pc := Gamepad(false, false, 0, false, ZERO, false), PcLink(false, false, 0, 0, 0, false, 0);
      lastManualActive, manualActivePrev := None, false;
      parser := new Parser();
    }

    method BtConnect(t: int)
      modifies this
      ensures View() == Next(old(View()), Connect(t))
    {
      now := t;
      bt := bt.(connected := true, haveReport := false, centered := false, manual := ZERO, staleFlagged := false);
    }

    method BtDisconnect(t: int)
      modifies this
      ensures View() == Next(old(View()), Disconnect(t))
    {
      now := t;
      bt := bt.(connected := false, haveReport := false, centered := false, manual := ZERO);
    }

    /** raised: the call ended in manual_vector's ZeroDivisionError. */
    method BtReport(x: int, y: int, root: real, t: int) returns (raised: bool)
      modifies this
      ensures View() == Next(old(View()), Report(x, y, root, t))
      ensures raised <==> old(bt.connected) && ManualVector(x, y, root, DeadzoneInForce(old(View()))).None?
    {
      hide ManualVector;
      now := t;
      if !bt.connected {
        return false;
      }
      var valid := ConfigOk(View());
      if valid && bt.haveReport && t - bt.last >= config.value.btTimeout {
        bt := bt.(centered := false, manual := ZERO);
      }
      bt := bt.(last := t, haveReport := true, staleFlagged := false);
      var dz := if valid then config.value.deadzone else AXIS_LIMIT;
      var v := ManualVector(x, y, root, dz);
      if v.None? {
        return true;
      }
      if !bt.centered && v.value == ZERO {
        bt := bt.(centered := true);
      }
      bt := bt.(manual := if bt.centered then v.value else ZERO);
      return false;
    }

    method Feed(data: Bytes, t: int)
      modifies this, parser
      ensures View() == AfterFrames(old(View()).(now := t), Parse(old(parser.buf) + data).frames)
      ensures parser.buf == Parse(old(parser.buf) + data).rest
    {
      hide Parse, AfterFrame;
      now := t;
      var frames := parser.Feed(data);
      for i := 0 to |frames|
        invariant AfterFrames(View(), frames[i..]) == AfterFrames(old(View()).(now := t), frames)
        invariant parser.buf == Parse(old(parser.buf) + data).rest
      {
        assert frames[i..][1..] == frames[i + 1..];
        Handle(frames[i]);
      }
    }

    method Handle(f: Frame)
      modifies this
      ensures View() == AfterFrame(old(View()), f)
    {
      hide U4, DecodeCommand, DecodeConfig, ConfigValid, NewerSequence;
      if f.kind == HELLO || |f.payload| < 4 || U4(f.payload[..4]) != token {
        return;
      }
      if f.kind == COMMAND {
        if |f.payload| != 9 || (pc.haveSeq && !NewerSequence(f.seqNo, pc.lastSeq)) {
          return;
        }
        var c := DecodeCommand(f.payload);
        pc := pc.(lastSeq := f.seqNo, haveSeq := true, x := c.x, y := c.y, haveCmd := true, last := now);
        var want := c.flags % 2 == 1;
        if want && !pc.enabled && c.x == 0 && c.y == 0 {
          pc := pc.(enabled := true);
        } else if !want && pc.enabled {
          pc := pc.(enabled := false);
        }
        return;
      }
      if f.kind == SET_CONFIG && |f.payload| == 24 {
        var cfg := DecodeConfig(f.payload);
        if ConfigValid(cfg) {
          config, generation := Some(cfg), (generation + 1) % 256;
        }
      }
    }

    method DoTick(t: int)
      modifies this
      ensures View() == Next(old(View()), Tick(t))
    {
      hide Applied, ConfigValid;
      now := t;
      if ConfigOk(View()) {
        if bt.connected && bt.haveReport && !BtFresh(View()) && !bt.staleFlagged {
          bt := bt.(centered := false, manual := ZERO, staleFlagged := true);
        }
        if pc.enabled && !PcFresh(View()) {
          pc := pc.(enabled := false);
        }
        AppliedManual(View());
        var active := Applied(View()).source == Manual;
        if active {
          lastManualActive := Some(t);
        }
        if active != manualActivePrev {
          manualActivePrev := active;
        }
      }
    }
  }

  // ----- runs

  /** A run from boot: ss[i + 1] is the state after es[i]. */
  ghost predicate Run(ss: seq<State>, es: seq<Event>) {
    && |ss| == |es| + 1
    && (exists token, config :: ss[0] == Boot(token, config))
    && (forall i :: 0 <= i < |es| ==> Sound(es[i]) && ss[i + 1] == Next(ss[i], es[i]))
  }

  /** A read is one Clock step and one Serial step for every frame: the steps of a run. */
  function ReadEvents(fs: seq<Frame>, now: int): seq<Event> {
    if fs == [] then [Clock(now)] else ReadEvents(fs[..|fs| - 1], now) + [Serial(fs[|fs| - 1], now)]
  }

  function After(s: State, es: seq<Event>): State {
    if es == [] then s else Next(After(s, es[..|es| - 1]), es[|es| - 1])
  }

  lemma {:induction false} AfterFramesSnoc(s: State, fs: seq<Frame>, f: Frame)
    ensures AfterFrames(s, fs + [f]) == AfterFrame(AfterFrames(s, fs), f)
    decreases |fs|
  {
    hide AfterFrame;
    if fs == [] {
      assert ([] + [f])[1..] == [] && [] + [f] == [f];
    } else {
      assert (fs + [f])[1..] == fs[1..] + [f];
      AfterFramesSnoc(AfterFrame(s, fs[0]), fs[1..], f);
    }
  }

  lemma {:induction false} FrameKeepsClock(s: State, fs: seq<Frame>)
    ensures AfterFrames(s, fs).now == s.now
    decreases |fs|
  {
    if fs != [] {
      FrameKeepsClock(AfterFrame(s, fs[0]), fs[1..]);
    }
  }

  /** What feed() does with the frames of one read is what the run's steps do. */
  lemma {:induction false} ReadIsSteps(s: State, fs: seq<Frame>, now: int)
    ensures After(s, ReadEvents(fs, now)) == AfterFrames(s.(now := now), fs)
  {
    hide AfterFrame;
    if fs != [] {
      var front, f := fs[..|fs| - 1], fs[|fs| - 1];
      ReadIsSteps(s, front, now);
      assert fs == front + [f];
      AfterFramesSnoc(s.(now := now), front, f);
      FrameKeepsClock(s.(now := now), front);
      var es := ReadEvents(fs, now);
      assert es[..|es| - 1] == ReadEvents(front, now);
    }
  }

  // ----- PC enable

  /** A COMMAND of the right size with the boot token, whose sequence number is up to 2^31 - 1 steps ahead of the last one. */
  predicate Accepted(s: State, e: Event) {
    && e.Serial? && e.frame.kind == 2 && |e.frame.payload| == 9 && Token(e.frame) == s.token
    && (s.pc.haveSeq ==> 0 < (e.frame.seqNo - s.pc.lastSeq) % 0x1_0000_0000 < 0x8000_0000)
  }

  lemma AcceptedIsGenuine(s: State, e: Event)
    ensures Accepted(s, e) <==> e.Serial? && Genuine(s, e.frame)
  {
    hide U4;
  }

  /** An accepted neutral COMMAND with bit 0. */
  predicate Grants(s: State, e: Event) {
    Accepted(s, e) && var c := DecodeCommand(e.frame.payload); c.flags % 2 == 1 && c.x == 0 && c.y == 0
  }

  /** An accepted COMMAND without bit 0, or a tick under a valid config that finds the last COMMAND at the watchdog. */
  predicate Revokes(s: State, e: Event) {
    || (Accepted(s, e) && DecodeCommand(e.frame.payload).flags % 2 == 0)
    || (e.Tick? && ConfigOk(s) && !(s.pc.haveCmd && e.now - s.pc.last < s.config.value.watchdog))
  }

  ghost predicate GrantStands(ss: seq<State>, es: seq<Event>, n: nat, i: nat)
    requires |ss| == |es| + 1 && n <= |es|
  {
    i < n && Grants(ss[i], es[i]) && forall j :: i < j < n ==> !Revokes(ss[j], es[j])
  }

  lemma EnableStep(s: State, e: Event)
    ensures Next(s, e).pc.enabled <==> Grants(s, e) || (s.pc.enabled && !Revokes(s, e))
  {
  }

  /** In every run the PC source is enabled exactly when some accepted neutral COMMAND asked for it and nothing has
      withdrawn it since. */
  lemma {:induction false} EnabledIff(ss: seq<State>, es: seq<Event>, n: nat)
    requires Run(ss, es) && n <= |es|
    ensures ss[n].pc.enabled <==> exists i :: GrantStands(ss, es, n, i)
  {
    hide Next, Grants, Revokes, Sound;
    if n > 0 {
      EnabledIff(ss, es, n - 1);
      EnableStep(ss[n - 1], es[n - 1]);
      if Grants(ss[n - 1], es[n - 1]) {
        assert GrantStands(ss, es, n, n - 1);
      } else if ss[n].pc.enabled {
        var i :| GrantStands(ss, es, n - 1, i);
        assert GrantStands(ss, es, n, i);
      }
      forall i: nat | GrantStands(ss, es, n, i) && i < n - 1 ensures GrantStands(ss, es, n - 1, i) {}
    }
  }

  // ----- the last accepted COMMAND

  ghost predicate LastAccepted(ss: seq<State>, es: seq<Event>, n: nat, k: nat)
    requires |ss| == |es| + 1 && n <= |es|
  {
    k < n && Accepted(ss[k], es[k]) && forall j :: k < j < n ==> !Accepted(ss[j], es[j])
  }

  /** No step but an accepted COMMAND touches what the firmware knows of the PC's commands, and it sets all of it. */
  lemma CommandStep(s: State, e: Event)
    ensures var t := Next(s, e);
      if Accepted(s, e) then
        t.pc.haveCmd && t.pc.last == e.now && t.pc.haveSeq && t.pc.lastSeq == e.frame.seqNo
        && t.pc.x == DecodeCommand(e.frame.payload).x && t.pc.y == DecodeCommand(e.frame.payload).y
      else
        t.pc.haveCmd == s.pc.haveCmd && t.pc.last == s.pc.last && t.pc.x == s.pc.x && t.pc.y == s.pc.y
        && t.pc.haveSeq == s.pc.haveSeq && t.pc.lastSeq == s.pc.lastSeq
  {
  }

  lemma {:induction false} CommandIsLast(ss: seq<State>, es: seq<Event>, n: nat) returns (k: nat)
    requires Run(ss, es) && n <= |es|
    ensures ss[n].pc.haveCmd == ss[n].pc.haveSeq
    ensures ss[n].pc.haveCmd ==>
              && LastAccepted(ss, es, n, k) && ss[n].pc.last == es[k].now && ss[n].pc.lastSeq == es[k].frame.seqNo
              && ss[n].pc.x == DecodeCommand(es[k].frame.payload).x && ss[n].pc.y == DecodeCommand(es[k].frame.payload).y
    ensures !ss[n].pc.haveCmd ==> forall j :: 0 <= j < n ==> !Accepted(ss[j], es[j])
  {
    hide Next, Accepted, Sound;
    k := 0;
    if n > 0 {
      k := CommandIsLast(ss, es, n - 1);
      CommandStep(ss[n - 1], es[n - 1]);
      if Accepted(ss[n - 1], es[n - 1]) {
        k := n - 1;
      }
    }
  }

  // ----- the release wait

  /** A tick that finds the gamepad in charge: its report younger than the timeout, the latch set, the stick out. */
  predicate ManualTick(s: State, e: Event) {
    && e.Tick? && ConfigOk(s) && s.bt.connected && s.bt.haveReport && e.now - s.bt.last < s.config.value.btTimeout
    && s.bt.centered && s.bt.manual != ZERO
  }

  ghost predicate LastManualTick(ss: seq<State>, es: seq<Event>, n: nat, k: nat)
    requires |ss| == |es| + 1 && n <= |es|
  {
    k < n && ManualTick(ss[k], es[k]) && forall j :: k < j < n ==> !ManualTick(ss[j], es[j])
  }

  lemma ManualTickStep(s: State, e: Event)
    ensures Next(s, e).lastManualActive == if ManualTick(s, e) then Some(e.now) else s.lastManualActive
  {
  }

  lemma {:induction false} LastManualRecorded(ss: seq<State>, es: seq<Event>, n: nat)
    requires Run(ss, es) && n <= |es|
    ensures forall k: nat :: LastManualTick(ss, es, n, k) ==> ss[n].lastManualActive == Some(es[k].now)
    ensures ss[n].lastManualActive.Some? ==> exists k: nat :: LastManualTick(ss, es, n, k)
  {
    hide Next, ManualTick, Sound;
    if n > 0 {
      LastManualRecorded(ss, es, n - 1);
      ManualTickStep(ss[n - 1], es[n - 1]);
      if ManualTick(ss[n - 1], es[n - 1]) {
        assert LastManualTick(ss, es, n, n - 1);
      } else {
        forall k: nat ensures LastManualTick(ss, es, n, k) <==> LastManualTick(ss, es, n - 1, k) {}
        if ss[n].lastManualActive.Some? {
          var k: nat :| LastManualTick(ss, es, n - 1, k);
          assert LastManualTick(ss, es, n, k);
        }
      }
    }
  }

  // ----- PC ownership

  /** Whenever the PC drives the output, in any run: the enable was granted by a neutral COMMAND and stands, the axes are
      those of the last accepted COMMAND and it is younger than the watchdog, and the release wait since the last tick
      that saw the gamepad in charge is over. */
  lemma PcOwnership(ss: seq<State>, es: seq<Event>, n: nat) returns (grant: nat, last: nat)
    requires Run(ss, es) && n <= |es|
    requires Applied(ss[n]).source == Pc
    ensures ConfigOk(ss[n]) && !ManualActive(ss[n])
    ensures GrantStands(ss, es, n, grant)
    ensures LastAccepted(ss, es, n, last) && ss[n].now - es[last].now < ss[n].config.value.watchdog
    ensures var c := DecodeCommand(es[last].frame.payload);
      Applied(ss[n]) == Output(Pc, PcControl, c.x as real / 10000.0, c.y as real / 10000.0)
    ensures forall k: nat :: LastManualTick(ss, es, n, k) ==> ss[n].now - es[k].now >= ss[n].config.value.release
  {
    EnabledIff(ss, es, n);
    grant :| GrantStands(ss, es, n, grant);
    last := CommandIsLast(ss, es, n);
    LastManualRecorded(ss, es, n);
    hide Next, Accepted, Sound;
  }

  /** What lets the PC drive, apart from the gamepad and the release wait: a standing grant, and a last accepted COMMAND younger
      than the watchdog. */
  ghost predicate PcReady(ss: seq<State>, es: seq<Event>, n: nat)
    requires |ss| == |es| + 1 && n <= |es|
  {
    && ConfigOk(ss[n]) && (exists i :: GrantStands(ss, es, n, i))
    && exists k :: CommandIsFresh(ss, es, n, k)
  }

  ghost predicate CommandIsFresh(ss: seq<State>, es: seq<Event>, n: nat, k: nat)
    requires |ss| == |es| + 1 && n <= |es|
  {
    LastAccepted(ss, es, n, k) && ConfigOk(ss[n]) && ss[n].now - es[k].now < ss[n].config.value.watchdog
  }

  /** The release wait since the last tick that saw the gamepad in charge is over. */
  ghost predicate WaitIsOver(ss: seq<State>, es: seq<Event>, n: nat)
    requires |ss| == |es| + 1 && n <= |es|
  {
    ConfigOk(ss[n]) && forall k: nat :: LastManualTick(ss, es, n, k) ==> ss[n].now - es[k].now >= ss[n].config.value.release
  }

  lemma FreshIff(ss: seq<State>, es: seq<Event>, n: nat)
    requires Run(ss, es) && n <= |es|
    ensures PcFresh(ss[n]) <==> exists k :: CommandIsFresh(ss, es, n, k)
  {
    hide Next, Accepted, Sound;
    var last := CommandIsLast(ss, es, n);
    if PcFresh(ss[n]) {
      assert CommandIsFresh(ss, es, n, last);
    }
    forall k: nat | CommandIsFresh(ss, es, n, k)
      ensures PcFresh(ss[n])
    {
      assert k == last;
    }
  }

  lemma WaitIff(ss: seq<State>, es: seq<Event>, n: nat)
    requires Run(ss, es) && n <= |es| && ConfigOk(ss[n])
    ensures ReleaseOk(ss[n]) <==> WaitIsOver(ss, es, n)
  {
    hide Next, ManualTick, Sound;
    LastManualRecorded(ss, es, n);
  }

  /** In every run: the PC drives exactly when it is ready, the gamepad is not in charge, and the release wait is over; and the
      output waits for the release exactly when only that wait keeps the PC from driving. */
  lemma PcDrivesIff(ss: seq<State>, es: seq<Event>, n: nat)
    requires Run(ss, es) && n <= |es|
    ensures Applied(ss[n]).source == Pc <==> PcReady(ss, es, n) && Applied(ss[n]).source != Manual && WaitIsOver(ss, es, n)
    ensures Applied(ss[n]).reason == NeutralRecoveryWait
            <==> PcReady(ss, es, n) && Applied(ss[n]).source != Manual && !WaitIsOver(ss, es, n)
  {
    var st := ss[n];
    hide Next, Sound, GrantStands, CommandIsFresh, WaitIsOver, Run;
    if ConfigOk(st) {
      EnabledIff(ss, es, n);
      FreshIff(ss, es, n);
      WaitIff(ss, es, n);
    }
  }

  // ----- gamepad ownership

  /** A report inside the deadzone, or without a valid configuration inside the circle. */
  predicate NeutralReport(s: State, e: Event) {
    e.Report? && s.bt.connected && e.root * 10000.0 <= (if ConfigOk(s) then s.config.value.deadzone else 10000) as real
  }

  /** A connect, a disconnect, or a tick or a report that finds the last report as old as the timeout. */
  predicate ClearsCenter(s: State, e: Event) {
    || e.Connect? || e.Disconnect?
    || ((e.Report? || e.Tick?) && ConfigOk(s) && s.bt.connected && s.bt.haveReport
        && e.now - s.bt.last >= s.config.value.btTimeout)
  }

  /** A gamepad flagged as stale has lost its latch and its vector. */
  predicate FlagInv(s: State) {
    s.bt.staleFlagged ==> !s.bt.centered && s.bt.manual == ZERO
  }

  lemma FlagStep(s: State, e: Event)
    requires FlagInv(s)
    ensures FlagInv(Next(s, e))
  {
    hide ManualVector;
  }

  lemma {:induction false} FlaggedIsCleared(ss: seq<State>, es: seq<Event>, n: nat)
    requires Run(ss, es) && n <= |es|
    ensures FlagInv(ss[n])
  {
    hide Next, Sound;
    if n > 0 {
      FlaggedIsCleared(ss, es, n - 1);
      FlagStep(ss[n - 1], es[n - 1]);
    }
  }

  lemma NeutralIsZero(x: int, y: int, root: real, deadzone: int)
    requires IsRoot(root, StickSquare(x, y)) && 0 <= deadzone <= AXIS_LIMIT
    ensures ManualVector(x, y, root, deadzone) == Some(ZERO) <==> root * 10000.0 <= deadzone as real
  {
    if deadzone < AXIS_LIMIT {
      var m := VectorLength(x, y, root, deadzone);
    }
    hide Axis, Scaled, Magnitude;
  }

  ghost predicate CenterStands(ss: seq<State>, es: seq<Event>, n: nat, i: nat)
    requires |ss| == |es| + 1 && n <= |es|
  {
    i < n && NeutralReport(ss[i], es[i]) && forall j :: i < j < n ==> !ClearsCenter(ss[j], es[j])
  }

  lemma CenterStep(s: State, e: Event)
    requires Sound(e) && FlagInv(s)
    ensures Next(s, e).bt.centered <==> NeutralReport(s, e) || (s.bt.centered && !ClearsCenter(s, e))
  {
    if e.Report? {
      NeutralIsZero(e.x, e.y, e.root, DeadzoneInForce(s));
    }
    hide ManualVector;
  }

  lemma {:induction false} CenteredIff(ss: seq<State>, es: seq<Event>, n: nat)
    requires Run(ss, es) && n <= |es|
    ensures ss[n].bt.centered <==> exists i :: CenterStands(ss, es, n, i)
  {
    hide Next, NeutralReport, ClearsCenter, Sound, FlagInv;
    if n > 0 {
      CenteredIff(ss, es, n - 1);
      FlaggedIsCleared(ss, es, n - 1);
      CenterStep(ss[n - 1], es[n - 1]);
      if NeutralReport(ss[n - 1], es[n - 1]) {
        assert CenterStands(ss, es, n, n - 1);
      } else if ss[n].bt.centered {
        var i :| CenterStands(ss, es, n - 1, i);
        assert CenterStands(ss, es, n, i);
      }
      forall i: nat | CenterStands(ss, es, n, i) && i < n - 1 ensures CenterStands(ss, es, n - 1, i) {}
    }
  }

  predicate TakesReport(s: State, e: Event) {
    e.Report? && s.bt.connected
  }

  function VectorOf(s: State, e: Event): Option<Vector>
    requires e.Report?
  {
    ManualVector(e.x, e.y, e.root, if ConfigOk(s) then s.config.value.deadzone else 10000)
  }

  /** Event k is the last report that was taken, and the gamepad was neither connected nor disconnected since. */
  ghost predicate LastReport(ss: seq<State>, es: seq<Event>, n: nat, k: nat)
    requires |ss| == |es| + 1 && n <= |es|
  {
    && k < n && TakesReport(ss[k], es[k])
    && forall j :: k < j < n ==> !TakesReport(ss[j], es[j]) && !es[j].Connect? && !es[j].Disconnect?
  }

  /** What the stored vector is worth: nothing, or the vector of the last report under a valid configuration. */
  ghost predicate ManualIsReported(ss: seq<State>, es: seq<Event>, n: nat, k: nat)
    requires |ss| == |es| + 1 && n <= |es|
  {
    var bt := ss[n].bt;
    && (bt.connected && bt.haveReport ==> LastReport(ss, es, n, k) && bt.last == es[k].now)
    && (bt.manual != ZERO ==> bt.connected && bt.haveReport && ConfigOk(ss[k]) && VectorOf(ss[k], es[k]) == Some(bt.manual))
  }

  /** A step that takes no report keeps the stored vector or clears it, and the last report with it. */
  lemma NoReportStep(s: State, e: Event)
    requires !TakesReport(s, e)
    ensures var t := Next(s, e);
      && (t.bt.manual == s.bt.manual || t.bt.manual == ZERO)
      && (e.Connect? || e.Disconnect? ==> t.bt.manual == ZERO && !t.bt.haveReport)
      && (!e.Connect? && !e.Disconnect? ==>
            t.bt.connected == s.bt.connected && t.bt.haveReport == s.bt.haveReport && t.bt.last == s.bt.last)
  {
  }

  /** A report sets the time; without a valid configuration it leaves no vector that was not there before. */
  lemma ReportStep(s: State, e: Event)
    requires TakesReport(s, e) && Sound(e)
    ensures var t := Next(s, e);
      && t.bt.connected && t.bt.haveReport && t.bt.last == e.now
      && (t.bt.manual != ZERO ==> if ConfigOk(s) then VectorOf(s, e) == Some(t.bt.manual) else t.bt.manual == s.bt.manual)
  {
    VectorRaisesIff(s, e.x, e.y, e.root);
    if !ConfigOk(s) {
      NoDeadzoneVector(e.x, e.y, e.root);
    }
    hide ManualVector;
  }

  lemma NoDeadzoneVector(x: int, y: int, root: real)
    ensures ManualVector(x, y, root, AXIS_LIMIT).Some? ==> ManualVector(x, y, root, AXIS_LIMIT).value == ZERO
  {
  }

  lemma {:induction false} VectorIsReported(ss: seq<State>, es: seq<Event>, n: nat) returns (k: nat)
    requires Run(ss, es) && n <= |es|
    ensures ManualIsReported(ss, es, n, k)
  {
    hide Next, Sound, ConfigOk, VectorOf, TakesReport;
    k := 0;
    if n > 0 {
      k := VectorIsReported(ss, es, n - 1);
      var s, e := ss[n - 1], es[n - 1];
      if TakesReport(s, e) {
        ReportStep(s, e);
        if s.bt.manual != ZERO {
          ConfigStaysValid(ss, es, k, n - 1);
        }
        k := n - 1;
      } else {
        NoReportStep(s, e);
      }
    }
  }

  /** Whenever the gamepad drives the output, in any run: the vector is that of the last report, which is younger than the
      timeout, and the stick has been seen inside the deadzone since the last connect or detected staleness. */
  lemma ManualOwnership(ss: seq<State>, es: seq<Event>, n: nat) returns (center: nat, last: nat)
    requires Run(ss, es) && n <= |es|
    requires Applied(ss[n]).source == Manual
    ensures ConfigOk(ss[n]) && CenterStands(ss, es, n, center)
    ensures LastReport(ss, es, n, last) && ss[n].now - es[last].now < ss[n].config.value.btTimeout
    ensures var v := VectorOf(ss[last], es[last]);
      v.Some? && v.value != ZERO && Applied(ss[n]) == Output(Manual, ManualOverride, v.value.x, v.value.y)
  {
    CenteredIff(ss, es, n);
    center :| CenterStands(ss, es, n, center);
    last := VectorIsReported(ss, es, n);
    hide Next, Sound, ManualVector, CenterStands;
  }

  /** The last report was taken with the centre latch standing, came from outside the deadzone, and is not stale. */
  ghost predicate StickIsOut(ss: seq<State>, es: seq<Event>, n: nat, k: nat)
    requires |ss| == |es| + 1 && n <= |es|
  {
    && LastReport(ss, es, n, k) && ConfigOk(ss[n]) && ss[n].now - es[k].now < ss[n].config.value.btTimeout
    && VectorOf(ss[k], es[k]).Some? && VectorOf(ss[k], es[k]).value != ZERO
  }

  lemma KeepsVector(s: State, e: Event)
    requires !TakesReport(s, e) && !ClearsCenter(s, e)
    ensures Next(s, e).bt.manual == s.bt.manual
  {
  }

  /** While the latch stands, the stored vector is that of the last report. */
  lemma {:induction false} VectorStays(ss: seq<State>, es: seq<Event>, k: nat, n: nat)
    requires Run(ss, es) && k < n <= |es| && TakesReport(ss[k], es[k])
    requires forall j :: k < j < n ==> !TakesReport(ss[j], es[j]) && !ClearsCenter(ss[j], es[j])
    requires ss[k + 1].bt.centered && VectorOf(ss[k], es[k]).Some?
    ensures ss[n].bt.manual == VectorOf(ss[k], es[k]).value
    decreases n - k
  {
    assert ss[n] == Next(ss[n - 1], es[n - 1]);
    if n == k + 1 {
      hide ManualVector;
    } else {
      hide Next, TakesReport, ClearsCenter, Sound;
      VectorStays(ss, es, k, n - 1);
      KeepsVector(ss[n - 1], es[n - 1]);
    }
  }

  lemma NeutralIsNotOut(s: State, e: Event)
    ensures NeutralReport(s, e) ==> TakesReport(s, e)
    ensures NeutralReport(s, e) && Sound(e) ==> VectorOf(s, e) == Some(ZERO)
  {
    if NeutralReport(s, e) && Sound(e) {
      NeutralIsZero(e.x, e.y, e.root, if ConfigOk(s) then s.config.value.deadzone else 10000);
    }
    hide ManualVector;
  }

  lemma LatchedAt(ss: seq<State>, es: seq<Event>, n: nat, i: nat, k: nat)
    requires Run(ss, es) && n <= |es| && CenterStands(ss, es, n, i) && StickIsOut(ss, es, n, k)
    ensures i < k && ss[k + 1].bt.centered && forall j :: k < j < n ==> !ClearsCenter(ss[j], es[j])
  {
    assert Sound(es[i]);
    NeutralIsNotOut(ss[i], es[i]);
    hide Next, ClearsCenter, Sound, VectorOf, NeutralReport;
    assert TakesReport(ss[i], es[i]) && i != k;
    CenteredIff(ss, es, k + 1);
    assert CenterStands(ss, es, k + 1, i);
  }

  /** In every run: the gamepad drives exactly when the centre latch stands and the last report is fresh and outside the
      deadzone then in force; and then the output is the vector of that report. */
  lemma ManualDrivesIff(ss: seq<State>, es: seq<Event>, n: nat)
    requires Run(ss, es) && n <= |es|
    ensures Applied(ss[n]).source == Manual
            <==> (exists i :: CenterStands(ss, es, n, i)) && exists k :: StickIsOut(ss, es, n, k)
  {
    if Applied(ss[n]).source == Manual {
      var i, k := ManualOwnership(ss, es, n);
      assert StickIsOut(ss, es, n, k);
    }
    forall i: nat, k: nat | CenterStands(ss, es, n, i) && StickIsOut(ss, es, n, k)
      ensures Applied(ss[n]).source == Manual
    {
      DrivesWhenOut(ss, es, n, i, k);
    }
  }

  lemma DrivesWhenOut(ss: seq<State>, es: seq<Event>, n: nat, i: nat, k: nat)
    requires Run(ss, es) && n <= |es| && CenterStands(ss, es, n, i) && StickIsOut(ss, es, n, k)
    ensures ManualActive(ss[n])
  {
    hide Next, Sound, ManualVector, NeutralReport, ClearsCenter;
    LatchedAt(ss, es, n, i, k);
    VectorStays(ss, es, k, n);
    CenteredIff(ss, es, n);
    ReportedSince(ss, es, k, n);
  }

  lemma {:induction false} ReportedSince(ss: seq<State>, es: seq<Event>, k: nat, n: nat)
    requires Run(ss, es) && n <= |es| && LastReport(ss, es, n, k)
    ensures ss[n].bt.connected && ss[n].bt.haveReport && ss[n].bt.last == es[k].now
    decreases n - k
  {
    assert ss[n] == Next(ss[n - 1], es[n - 1]);
    hide ManualVector;
    if n > k + 1 {
      ReportedSince(ss, es, k, n - 1);
      NoReportStep(ss[n - 1], es[n - 1]);
      hide Next;
    }
  }

  // ----- the other reasons

  /** The gamepad is connected: a connect without a disconnect since. */
  ghost predicate Attached(ss: seq<State>, es: seq<Event>, n: nat, i: nat)
    requires |ss| == |es| + 1 && n <= |es|
  {
    i < n && es[i].Connect? && forall j :: i < j < n ==> !es[j].Disconnect?
  }

  lemma ConnectStep(s: State, e: Event)
    ensures Next(s, e).now == e.now
    ensures Next(s, e).bt.connected <==> e.Connect? || (s.bt.connected && !e.Disconnect?)
  {
    hide ManualVector;
  }

  lemma {:induction false} AttachedIff(ss: seq<State>, es: seq<Event>, n: nat)
    requires Run(ss, es) && n <= |es|
    ensures ss[n].bt.connected <==> exists i :: Attached(ss, es, n, i)
    ensures n > 0 ==> ss[n].now == es[n - 1].now
  {
    hide Next, Sound;
    if n > 0 {
      AttachedIff(ss, es, n - 1);
      ConnectStep(ss[n - 1], es[n - 1]);
      if es[n - 1].Connect? {
        assert Attached(ss, es, n, n - 1);
      } else if ss[n].bt.connected {
        var i :| Attached(ss, es, n - 1, i);
        assert Attached(ss, es, n, i);
      }
      forall i: nat | Attached(ss, es, n, i) && i < n - 1 ensures Attached(ss, es, n - 1, i) {}
    }
  }

  ghost predicate ReportAgeAt(ss: seq<State>, es: seq<Event>, n: nat, aged: bool, k: nat)
    requires |ss| == |es| + 1 && n <= |es|
  {
    && ConfigOk(ss[n]) && LastReport(ss, es, n, k)
    && (if aged then ss[n].now - es[k].now >= ss[n].config.value.btTimeout
        else ss[n].now - es[k].now < ss[n].config.value.btTimeout)
  }

  ghost predicate CommandIsOldAt(ss: seq<State>, es: seq<Event>, n: nat, k: nat)
    requires |ss| == |es| + 1 && n <= |es|
  {
    ConfigOk(ss[n]) && LastAccepted(ss, es, n, k) && ss[n].now - es[k].now >= ss[n].config.value.watchdog
  }

  /** There is a last report, and it is as old as the timeout (aged) or younger. */
  ghost predicate ReportAge(ss: seq<State>, es: seq<Event>, n: nat, aged: bool)
    requires |ss| == |es| + 1 && n <= |es|
  {
    exists k: nat :: ReportAgeAt(ss, es, n, aged, k)
  }

  ghost predicate CommandIsOld(ss: seq<State>, es: seq<Event>, n: nat)
    requires |ss| == |es| + 1 && n <= |es|
  {
    exists k: nat :: CommandIsOldAt(ss, es, n, k)
  }

  ghost predicate Centered(ss: seq<State>, es: seq<Event>, n: nat)
    requires |ss| == |es| + 1 && n <= |es|
  {
    exists i :: CenterStands(ss, es, n, i)
  }

  lemma ReportAgeIff(ss: seq<State>, es: seq<Event>, n: nat, aged: bool)
    requires Run(ss, es) && n <= |es|
    ensures var st := ss[n];
      ReportAge(ss, es, n, aged)
      <==> ConfigOk(st) && st.bt.connected && st.bt.haveReport && aged == (st.now - st.bt.last >= st.config.value.btTimeout)
  {
    var st := ss[n];
    var last := VectorIsReported(ss, es, n);
    hide Next, Sound, ManualVector, ConfigOk;
    if ConfigOk(st) && st.bt.connected && st.bt.haveReport && aged == (st.now - st.bt.last >= st.config.value.btTimeout) {
      assert ReportAgeAt(ss, es, n, aged, last);
    }
    forall k: nat | ReportAgeAt(ss, es, n, aged, k)
      ensures st.bt.connected && st.bt.haveReport && st.bt.last == es[k].now
    {
      ReportedSince(ss, es, k, n);
    }
  }

  lemma CommandIsOldIff(ss: seq<State>, es: seq<Event>, n: nat)
    requires Run(ss, es) && n <= |es| && ConfigOk(ss[n])
    ensures CommandIsOld(ss, es, n) <==> ss[n].pc.haveCmd && !PcFresh(ss[n])
  {
    var last := CommandIsLast(ss, es, n);
    hide Next, Sound, Accepted;
    if ss[n].pc.haveCmd && !PcFresh(ss[n]) {
      assert CommandIsOldAt(ss, es, n, last);
    }
    forall k: nat | CommandIsOldAt(ss, es, n, k)
      ensures ss[n].pc.haveCmd && k == last
    {
    }
  }

  /** Nobody drives, and not because of the release wait. */
  ghost predicate Idle(ss: seq<State>, es: seq<Event>, n: nat)
    requires |ss| == |es| + 1 && n <= |es|
  {
    ConfigOk(ss[n]) && Applied(ss[n]).source != Manual && !PcReady(ss, es, n)
  }

  /** In every run the reason published for an idle output is the first that applies: a gamepad whose report is too old, one not
      centred yet, a command too old, a centred gamepad, nothing there at all, and otherwise a PC that may not drive. */
  lemma ReasonsMean(ss: seq<State>, es: seq<Event>, n: nat)
    requires Run(ss, es) && n <= |es|
    ensures var r := Applied(ss[n]).reason;
      var waits, silent := ReportAge(ss, es, n, false) && !Centered(ss, es, n), CommandIsOld(ss, es, n);
      && (r == ConfigInvalid <==> !ConfigOk(ss[n]))
      && (r == BtStale <==> Idle(ss, es, n) && ReportAge(ss, es, n, true))
      && (r == WaitingCenter <==> Idle(ss, es, n) && waits)
      && (r == PcStale <==> Idle(ss, es, n) && silent && !ReportAge(ss, es, n, true) && !waits)
      && (r == ManualNeutral <==> Idle(ss, es, n) && !silent && ReportAge(ss, es, n, false) && Centered(ss, es, n))
      && (r == BtDisconnected <==> Idle(ss, es, n) && (forall i: nat :: !Attached(ss, es, n, i))
                                   && forall j: nat :: j < n ==> !Accepted(ss[j], es[j]))
  {
    var st := ss[n];
    PcDrivesIff(ss, es, n);
    EnabledIff(ss, es, n);
    FreshIff(ss, es, n);
    AttachedIff(ss, es, n);
    CenteredIff(ss, es, n);
    ReportAgeIff(ss, es, n, true);
    ReportAgeIff(ss, es, n, false);
    var k := CommandIsLast(ss, es, n);
    if ConfigOk(st) {
      CommandIsOldIff(ss, es, n);
    }
    hide Next, Sound, ReportAge, CommandIsOld, GrantStands, CommandIsFresh, WaitIsOver, CenterStands, Attached, Accepted, Run,
         ConfigValid;
  }

  /** After a tick in any run, a gamepad whose last report is as old as the timeout has neither latch nor vector. */
  lemma StaleIsCleared(ss: seq<State>, es: seq<Event>, n: nat)
    requires Run(ss, es) && n < |es| && es[n].Tick? && ReportAge(ss, es, n + 1, true)
    ensures !ss[n + 1].bt.centered && ss[n + 1].bt.manual == ZERO && ss[n + 1].bt.staleFlagged
  {
    FlaggedIsCleared(ss, es, n);
    ReportAgeIff(ss, es, n + 1, true);
    assert ss[n + 1] == Next(ss[n], es[n]);
    hide Run, ReportAge;
  }

  /** A valid configuration never becomes invalid. */
  lemma {:induction false} ConfigStaysValid(ss: seq<State>, es: seq<Event>, m: nat, n: nat)
    requires Run(ss, es) && m <= n <= |es| && ConfigOk(ss[m])
    ensures ConfigOk(ss[n])
    decreases n - m
  {
    if m < n {
      assert ss[m + 1] == Next(ss[m], es[m]);
      ConfigStaysValid(ss, es, m + 1, n);
    }
  }

  // ----- the configuration in force

  predicate Configures(s: State, e: Event) {
    && e.Serial? && e.frame.kind == 3 && |e.frame.payload| == 24 && Token(e.frame) == s.token
    && var c := DecodeConfig(e.frame.payload);
       && 0 < c.dacMin < c.neutral && c.neutral < c.dacMax && c.dacMax <= c.fullScale
       && c.watchdog > 0 && c.btTimeout > 0 && 0 <= c.deadzone < 10000
  }

  /** How many configurations were taken in the first n steps. */
  function Configurations(ss: seq<State>, es: seq<Event>, n: nat): nat
    requires |ss| == |es| + 1 && n <= |es|
  {
    if n == 0 then 0 else Configurations(ss, es, n - 1) + if Configures(ss[n - 1], es[n - 1]) then 1 else 0
  }

  lemma ConfigStep(s: State, e: Event)
    ensures var t := Next(s, e);
      if Configures(s, e)
      then t.config == Some(DecodeConfig(e.frame.payload)) && ConfigValid(t.config.value) && t.generation == (s.generation + 1) % 256
      else t.config == s.config && t.generation == s.generation
  {
    hide DecodeConfig;
  }

  /** In every run the configuration in force is the last valid one that was sent with the boot token, or the stored one when
      none was, and the generation counts them. */
  lemma {:induction false} ConfigIsLast(ss: seq<State>, es: seq<Event>, n: nat) returns (k: nat)
    requires Run(ss, es) && n <= |es|
    ensures ss[n].generation == Configurations(ss, es, n) % 256
    ensures if Configurations(ss, es, n) == 0 then ss[n].config == ss[0].config
            else k < n && Configures(ss[k], es[k]) && ss[n].config == Some(DecodeConfig(es[k].frame.payload))
                 && forall j :: k < j < n ==> !Configures(ss[j], es[j])
    ensures Configurations(ss, es, n) == 0 ==> forall j :: 0 <= j < n ==> !Configures(ss[j], es[j])
  {
    hide Next, Configures, Sound, DecodeConfig;
    k := 0;
    if n > 0 {
      k := ConfigIsLast(ss, es, n - 1);
      ConfigStep(ss[n - 1], es[n - 1]);
      if Configures(ss[n - 1], es[n - 1]) {
        k := n - 1;
      }
    }
  }

  /** encode_set_config, for values that fit: boot token, the nine items in their order, and a reserved zero. */
  function EncodeConfig(token: int, c: Config): Bytes
    requires Fits(c)
  {
    LE4(token % U32) + LE2(c.neutral) + LE2(c.dacMin) + LE2(c.dacMax) + LE2(c.fullScale) + LE2(c.watchdog) + LE2(c.btTimeout)
    + LE2(c.deadzone) + LE2(c.release) + LE2(c.statusPeriod) + LE2(0)
  }

  predicate Fits(c: Config) {
    && 0 <= c.neutral < 65536 && 0 <= c.dacMin < 65536 && 0 <= c.dacMax < 65536 && 0 <= c.fullScale < 65536
    && 0 <= c.watchdog < 65536 && 0 <= c.btTimeout < 65536 && 0 <= c.deadzone < 65536 && 0 <= c.release < 65536
    && 0 <= c.statusPeriod < 65536
  }

  lemma ConfigRoundTrip(token: int, c: Config)
    requires Fits(c)
    ensures |EncodeConfig(token, c)| == 24 && DecodeConfig(EncodeConfig(token, c)) == c
    ensures U4(EncodeConfig(token, c)[..4]) == token % U32
  {
    var b := EncodeConfig(token, c);
    hide U2, LE2, U4, LE4;
    assert b[..4] == LE4(token % U32);
    assert b[4..6] == LE2(c.neutral) && b[6..8] == LE2(c.dacMin) && b[8..10] == LE2(c.dacMax) && b[10..12] == LE2(c.fullScale);
    assert b[12..14] == LE2(c.watchdog) && b[14..16] == LE2(c.btTimeout) && b[16..18] == LE2(c.deadzone);
    assert b[18..20] == LE2(c.release) && b[20..22] == LE2(c.statusPeriod);
    U4OfLE4(token % U32);
    U2OfLE2(c.neutral);
    U2OfLE2(c.dacMin);
    U2OfLE2(c.dacMax);
    U2OfLE2(c.fullScale);
    U2OfLE2(c.watchdog);
    U2OfLE2(c.btTimeout);
    U2OfLE2(c.deadzone);
    U2OfLE2(c.release);
    U2OfLE2(c.statusPeriod);
  }

  // ----- sequence numbers

  /** How far the accepted sequence numbers have moved forward in the steps i .. n - 1. */
  function Travel(ss: seq<State>, es: seq<Event>, i: nat, n: nat): nat
    requires |ss| == |es| + 1 && i <= n <= |es|
    decreases n - i
  {
    if i == n then 0
    else Travel(ss, es, i, n - 1)
         + if Accepted(ss[n - 1], es[n - 1]) then (es[n - 1].frame.seqNo - ss[n - 1].pc.lastSeq) % U32 else 0
  }

  lemma {:induction false} SequenceMovesByTravel(ss: seq<State>, es: seq<Event>, i: nat, n: nat)
    requires Run(ss, es) && i <= n <= |es| && ss[i].pc.haveSeq
    ensures ss[n].pc.haveSeq
    ensures (ss[i].pc.lastSeq + Travel(ss, es, i, n) - ss[n].pc.lastSeq) % U32 == 0
    ensures Travel(ss, es, i, n) > 0 || forall j :: i <= j < n ==> !Accepted(ss[j], es[j])
    decreases n - i
  {
    if i < n {
      SequenceMovesByTravel(ss, es, i, n - 1);
      CommandStep(ss[n - 1], es[n - 1]);
      hide Next;
      if Accepted(ss[n - 1], es[n - 1]) {
        assert NewerSequence(es[n - 1].frame.seqNo, ss[n - 1].pc.lastSeq);
      }
    }
  }

  lemma FullTurn(a: int, b: int, travel: nat)
    requires (a + travel - b) % U32 == 0 && a == b && travel > 0
    ensures travel >= U32
  {
  }

  /** The same sequence number is accepted a second time only after the forward steps have gone once around. */
  lemma SameSequenceNeedsFullTurn(ss: seq<State>, es: seq<Event>, i: nat, j: nat)
    requires Run(ss, es) && i < j < |es|
    requires Accepted(ss[i], es[i]) && Accepted(ss[j], es[j]) && es[i].frame.seqNo == es[j].frame.seqNo
    ensures Travel(ss, es, i + 1, j + 1) >= U32
  {
    hide Next, Travel, Sound, DecodeCommand, U4;
    CommandStep(ss[i], es[i]);
    CommandStep(ss[j], es[j]);
    SequenceMovesByTravel(ss, es, i + 1, j + 1);
    FullTurn(ss[i + 1].pc.lastSeq, ss[j + 1].pc.lastSeq, Travel(ss, es, i + 1, j + 1));
  }

  // ----- only genuine commands count, down to the bytes

  lemma {:induction false} SomeFrameIsGenuine(s: State, fs: seq<Frame>) returns (k: nat)
    ensures AfterFrames(s, fs).pc == s.pc || (k < |fs| && Genuine(AfterFrames(s, fs[..k]), fs[k]))
    decreases |fs|
  {
    k := 0;
    if fs != [] && !Genuine(s, fs[0]) {
      var t := AfterFrame(s, fs[0]);
      assert t.pc == s.pc;
      k := SomeFrameIsGenuine(t, fs[1..]);
      if k < |fs| - 1 {
        assert fs[..k + 1][1..] == fs[1..][..k];
      }
      k := k + 1;
    } else if fs != [] {
      assert fs[..0] == [];
    }
  }

  /** For every byte stream: if reading data changes the watchdog time, the stored command, the sequence or the enable,
      then the buffered bytes followed by data contain, byte for byte, the encoding of a COMMAND with the right size, the
      boot token and a sequence number newer than the one in force when the frame is handled. */
  lemma OnlyGenuineCommandsCount(s: State, buffered: Bytes, data: Bytes, now: int) returns (f: Frame, p: nat, k: nat)
    ensures var fs := Parse(buffered + data).frames; var start := s.(now := now);
      AfterFrames(start, fs).pc == s.pc
      || (k < |fs| && f == fs[k] && PieceAt(buffered + data, f, p) && Accepted(AfterFrames(start, fs[..k]), Serial(f, now))
          && Token(f) == s.token)
  {
    hide *;
    var input := buffered + data;
    var fs := Parse(input).frames;
    assert input[0..] == input;
    FramesArePieces(input, 0);
    k := GenuineFrame(s.(now := now), fs, now);
    f, p := Frame(0, 0, 0, []), 0;
    if k < |fs| {
      f := fs[k];
      p := PieceOf(input, fs, Positions(input, 0), k, |input| - |Parse(input).rest|);
    }
  }

  lemma PieceOf(input: Bytes, fs: seq<Frame>, ps: seq<nat>, k: nat, to: nat) returns (p: nat)
    requires k < |fs| && Pieces(input, fs, ps, 0, to)
    ensures PieceAt(input, fs[k], p)
  {
    p := ps[k];
  }

  lemma GenuineFrame(s: State, fs: seq<Frame>, now: int) returns (k: nat)
    ensures AfterFrames(s, fs).pc == s.pc
            || (k < |fs| && Accepted(AfterFrames(s, fs[..k]), Serial(fs[k], now)) && |fs[k].payload| == 9
                && Token(fs[k]) == s.token)
  {
    hide AfterFrame, AfterFrames, U4;
    k := SomeFrameIsGenuine(s, fs);
    if k < |fs| {
      FramesKeepToken(s, fs[..k]);
      AcceptedIsGenuine(AfterFrames(s, fs[..k]), Serial(fs[k], now));
    }
  }

  lemma {:induction false} FramesKeepToken(s: State, fs: seq<Frame>)
    ensures AfterFrames(s, fs).token == s.token
    decreases |fs|
  {
    if fs != [] {
      FramesKeepToken(AfterFrame(s, fs[0]), fs[1..]);
    }
  }

  // ----- the gamepad vector

  /** manual_vector raises exactly when no valid configuration limits the deadzone and the stick is outside the circle. */
  lemma VectorRaisesIff(s: State, x: int, y: int, root: real)
    requires IsRoot(root, StickSquare(x, y))
    ensures ManualVector(x, y, root, DeadzoneInForce(s)).None? <==> !ConfigOk(s) && StickSquare(x, y) > 1.0
  {
    SquareOrder(root);
  }

  /** Such a stick exists: after a boot without a configuration, the report (10000, 7500) raises. */
  lemma VectorCanRaise(token: int)
    ensures IsRoot(1.25, StickSquare(10000, 7500))
    ensures ManualVector(10000, 7500, 1.25, DeadzoneInForce(Boot(token, None))).None?
  {
    assert StickSquare(10000, 7500) == 1.0 * 1.0 + 0.75 * 0.75 == 1.25 * 1.25;
  }

  /** Inside the deadzone the vector is zero; outside it points where the stick points, and its length m grows linearly from
      zero at the edge of the deadzone to one at the edge of the circle. */
  lemma VectorLength(x: int, y: int, root: real, deadzone: int) returns (m: real)
    requires IsRoot(root, StickSquare(x, y)) && 0 <= deadzone < AXIS_LIMIT
    ensures ManualVector(x, y, root, deadzone).Some?
    ensures var v := ManualVector(x, y, root, deadzone).value; var dz := deadzone as real / 10000.0;
      && (v == ZERO <==> root <= dz)
      && v.x * v.x + v.y * v.y == m * m && 0.0 <= m <= 1.0
      && (root > dz ==> m * (1.0 - dz) == (if root < 1.0 then root else 1.0) - dz)
      && v.x * Axis(y) == v.y * Axis(x)
      && v.x * Axis(x) + v.y * Axis(y) >= 0.0
  {
    var dz := deadzone as real / 10000.0;
    m := 0.0;
    if root > dz {
      m := Magnitude(root, dz);
      VectorOutside(x, y, root, deadzone);
      hide *;
    } else {
      assert ManualVector(x, y, root, deadzone) == Some(ZERO);
      hide ManualVector, IsRoot, Axis;
    }
  }

  lemma VectorOutside(x: int, y: int, root: real, deadzone: int)
    requires IsRoot(root, StickSquare(x, y)) && 0 <= deadzone < AXIS_LIMIT && root > deadzone as real / 10000.0
    ensures ManualVector(x, y, root, deadzone).Some?
    ensures var v := ManualVector(x, y, root, deadzone).value; var dz := deadzone as real / 10000.0; var m := Magnitude(root, dz);
      && v != ZERO && v.x * v.x + v.y * v.y == m * m && 0.0 < m <= 1.0
      && m * (1.0 - dz) == (if root < 1.0 then root else 1.0) - dz
      && v.x * Axis(y) == v.y * Axis(x) && v.x * Axis(x) + v.y * Axis(y) >= 0.0
  {
    hide Axis, Clamp, Scaled, Magnitude;
    var dz := deadzone as real / 10000.0;
    ShrunkLength(root, dz);
    ScaledVector(Axis(x), Axis(y), root, Magnitude(root, dz));
  }

  lemma ScaledVector(a: real, b: real, root: real, m: real)
    requires root > 0.0 && a * a + b * b == root * root && 0.0 < m <= 1.0
    ensures var v := Scaled(a, b, m, root);
      v != ZERO && v.x * v.x + v.y * v.y == m * m && v.x * b == v.y * a && v.x * a + v.y * b >= 0.0
  {
    Reassociate(a, m, root);
    Reassociate(b, m, root);
    ScaledLength(a, b, m / root, root, m);
    SameSide(a, b, m / root, root, m);
  }

  lemma ShrunkLength(root: real, dz: real)
    requires 0.0 <= dz < root && dz < 1.0
    ensures 0.0 < Magnitude(root, dz) <= 1.0
    ensures Magnitude(root, dz) * (1.0 - dz) == (if root < 1.0 then root else 1.0) - dz
  {
    ProperQuotient((if root < 1.0 then root else 1.0) - dz, 1.0 - dz);
  }

  lemma ProperQuotient(p: real, q: real)
    requires 0.0 < p <= q
    ensures 0.0 < p / q <= 1.0
  {
    var k := p / q;
    assert k * q == p;
    assert k <= 0.0 ==> k * q <= 0.0 * q;
    assert k > 1.0 ==> k * q > 1.0 * q;
  }

  lemma Reassociate(a: real, m: real, r: real)
    requires r > 0.0
    ensures a * m / r == a * (m / r) && (m / r) * r == m
  {
  }

  lemma SquareOrder(r: real)
    requires r >= 0.0
    ensures r * r > 1.0 <==> r > 1.0
  {
    if r > 1.0 {
      assert r * r > r * 1.0;
    } else {
      assert r * r <= 1.0 * r;
    }
  }

  lemma SameSide(a: real, b: real, k: real, r: real, m: real)
    requires r > 0.0 && a * a + b * b == r * r && k * r == m && m > 0.0
    ensures (a * k) * a + (b * k) * b > 0.0
  {
    assert (a * k) * a + (b * k) * b == (a * a + b * b) * k == r * (k * r);
  }

  lemma ScaledLength(a: real, b: real, k: real, r: real, m: real)
    requires r > 0.0 && a * a + b * b == r * r && k * r == m && 0.0 < m <= 1.0
    ensures (a * k) * (a * k) + (b * k) * (b * k) == m * m <= 1.0
    ensures a * k != 0.0 || b * k != 0.0
    ensures (a * k) * b == (b * k) * a
  {
    assert (a * k) * (a * k) + (b * k) * (b * k) == (a * a + b * b) * (k * k);
    assert (r * r) * (k * k) == (k * r) * (k * r);
    assert 0.0 < m * m && m * m <= m * 1.0;
  }
}
