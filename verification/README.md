# Verified model of the robot's core logic

A Dafny model of the parts of an outdoor robot's software whose logic is hardest to get right, with proofs about every input,
every run or every interleaving. `dafny verify dfyconfig.toml` checks all of it.

| file | models |
|---|---|
| `crc.dfy`, `frames.dfy` | the framed serial protocol between the PC and the ESP32: checksum, frame layout, resynchronising parser, COMMAND payload |
| `firmware.dfy`, `voltage.dfy`, `rounding.dfy` | the firmware's arbitration between gamepad, PC and nobody, and the way from a stick vector to a DAC code |
| `modes.dfy`, `hold.dfy`, `speedinputs.dfy` | the mode manager: the transition table, the persisted record under crashes, the release of `motion_hold` over all interleavings of requests, start workers and callbacks, and the inputs its speed condition is computed from |
| `poses.dfy`, `estimator.dfy` | rigid transforms on quaternions, and the map->odom estimator with its two pruned buffers |
| `recorder.dfy` | the recorder's log, whose writes may fail, and its record of the gaps |
| `ground.dfy`, `segments.dfy`, `corridor.dfy`, `speedmask.dfy`, `keepout.dfy` | the grid algorithms: slope-limited ground, corridor, speed mask, keepout mask |
| `diff.dfy`, `lexer.dfy` | two design tools: the recorded text difference with its reconstruction, and the comment and string stripper |

How the program is represented:

- Objects whose methods update fields are classes (`Parser`, `Esp32Sim`, `OdomBuffer`, `MapOdomEstimator`, `Session`,
  `RecorderCore`, `AutonomyClient`, `ModeManager`, `SpeedClient`), loops over arrays are methods with invariants. Each such
  method is proved equal to a function of the old state; the lemmas below are about these functions and about whole runs of
  them.
- Exceptions are results: `None` for the `ValueError` of a frame or a gap, for the `ZeroDivisionError` of `manual_vector`.
- Clocks, disk writes, Nav2, the human, the network and crashes are inputs: oracles that may answer anything, or events that
  may come in any order. Callbacks and worker stages are atomic steps.
- Floating point is exact real arithmetic. Square roots are inputs tied to their square; distances are compared squared.

Where the code and its own texts differ, the code is modelled and the difference is a result:

- The parser's comment promises resynchronisation on any stream. When nothing is buffered that starts a frame, `feed` clears
  the buffer, and with it a lone `A5`. Every frame whose two sync bytes arrive in different reads is lost
  (`Frames.SplitLosesFrame`); `Frames.SplitSafeIff` says exactly when a cut is harmless.
- `decide_boot` says that an old revision is never published as newer. Field updates are published without being saved, so a
  restart can publish a smaller revision than before (`Modes.RevisionCanGoBack`). Every restart of a run is newer than all it
  published exactly when no crash of it comes while an update is unsaved (`Modes.RestartRevisionIsNewIff`); for a single
  restart after crashes that lost updates, `Modes.OneRestartIsNewIff` says when, and otherwise how far it falls behind.
- The hold is said to be released only for the mission's own drawn areas. After a resume the confirmed mask can be that of
  an earlier mission (`Hold.ResumeCanReleaseWithOldMask`); `Hold.ResumeReleasesOwnMaskIff` says exactly when it is the
  mission's own.
- The speed limit is said to be applied only after one was received since the Nav2 start. A start forgets the inputs of that
  state but not the state itself: a reading made earlier in the same start, from the inputs of the drive before it, can
  release the hold (`SpeedInputs.StartCanReleaseOnOldInputs`). `SpeedInputs.AppliedIsCurrentIff` says exactly when the state
  shown is that of the inputs.
- A paused run is meant to be resumable. When a goal ends before the worker that sent it takes its last step, or a late cancel
  takes the goal of a paused start, the pause refuses every resume until an end (`Hold.StuckIsReachable`,
  `Hold.StuckByCancel`, `Hold.StuckUntilEnd`); `Hold.StuckExactlyWhen` says which steps lead there.
- A gap is meant to cover every hole. The gap of a failed line starts only at the second clock reading after the write: in
  every run, no instant between the reading before the write and that one lies strictly inside a gap, and every instant from
  there to the next reading lies in one (`Recorder.FailedLineLeavesHole`). Between lines and between operations the cover is
  exact.
- The ground relaxation is said to run until nothing changes, but it stops after h + w + 1 rounds. On an allowed region that
  bends back it may not have settled by then (`Ground.BendDoesNotSettle`), and then the result is not the greatest surface
  (`Ground.EnvelopeIffSettled`); `Ground.SettlesIff` says how many rounds a region needs.
- Without a valid configuration `bt_report` uses the whole axis as deadzone and `manual_vector` divides by zero for a stick
  outside the unit circle (`Firmware.VectorRaisesIff`, `Firmware.VectorCanRaise`).

## Model

| member | source | states |
|---|---|---|
| Crc.RegisterInjective | gouda_core/gouda_core/esp32_protocol.py:53-55 | for any bytes, two registers that end equal started equal: each byte step is a bijection |
| Crc.TwoBytesInjective | gouda_core/gouda_core/esp32_protocol.py:53-55 | from a fixed register, two successive bytes are determined by the register they lead to |
| Crc.AdjacentChangeDetected | gouda_core/gouda_core/esp32_protocol.py:53-55 | any change confined to two adjacent bytes changes the CRC-16 |
| Crc.Crc16IsCcitt | gouda_core/gouda_core/esp32_protocol.py:53-55 | the checksum of any bytes is that of CRC-16/CCITT-FALSE on numbers: polynomial 0x1021, most significant bit first, started from 0xFFFF |
| Crc.CheckValue | gouda_core/gouda_core/esp32_protocol.py:53-55 | no bytes give 0xFFFF and the digits 1 to 9 the documented 0x29B1 |
| Frames.BytesOfImage | gouda_core/gouda_core/esp32_protocol.py:66-73 | the bytes of an encoded frame in their places: A5 5A, version 4, kind, length, sequence, time, payload and the CCITT checksum of all but the sync pair, low bytes first |
| Frames.EncodeFrame | gouda_core/gouda_core/esp32_protocol.py:66-73 | a frame is refused exactly when a field is out of range or its payload too long; otherwise its bytes parse back to exactly that frame |
| Frames.AcceptedIsImage | gouda_core/gouda_core/esp32_protocol.py:187-198 | whatever the parser accepts is, byte for byte, the encoding of the frame it returns |
| Frames.ExamineImage | gouda_core/gouda_core/esp32_protocol.py:66-73 | an encoded frame, whatever follows it, is accepted as that frame |
| Frames.Parser.Feed | gouda_core/gouda_core/esp32_protocol.py:176-199 | the loop over the buffer returns the frames, counts the rejections and keeps the bytes that parsing the whole buffer gives |
| Frames.StreamRoundTrip | gouda_core/gouda_core/esp32_protocol.py:176-199 | the concatenation of any encoded frames parses to exactly those frames, nothing rejected, nothing left |
| Frames.FramesArePieces | gouda_core/gouda_core/esp32_protocol.py:176-199 | for arbitrary bytes, the emitted frames re-encode to disjoint, ordered pieces of the input, and the rest is its end |
| Frames.RestIsShort | gouda_core/gouda_core/esp32_protocol.py:176-199 | the kept buffer is under 80 bytes and starts with the sync pair |
| Frames.SplitAgrees | gouda_core/gouda_core/esp32_protocol.py:180-184 | feeding x then y equals feeding x + y unless the cleared end of x is A5 and y starts with 5A |
| Frames.SplitSafeIff | gouda_core/gouda_core/esp32_protocol.py:180-184 | a stream may be cut after x, whatever follows, if and only if feed drops no sync byte at the end of x |
| Frames.SplitLosesFrame | gouda_core/gouda_core/esp32_protocol.py:180-184 | every frame cut between its two sync bytes is lost; nothing at all comes out when its other bytes hold no sync pair |
| Frames.SomeFrameHasNoSecondSync | gouda_core/gouda_core/esp32_protocol.py:66-73 | one of two given frames holds no other sync pair |
| Frames.ReadsAgree | gouda_core/gouda_core/esp32_protocol.py:176-199 | any number of reads, none starting with the second sync byte, give the frames, rejections and rest of the whole stream |
| Frames.AdjacentDamageRejected | gouda_core/gouda_core/esp32_protocol.py:187-196 | a frame damaged in two adjacent bytes of its sequence, time or payload is rejected: no frame is emitted at its offset, whatever follows |
| Frames.BytesOfCommand | gouda_core/gouda_core/esp32_protocol.py:80-81 | the nine bytes of an encoded COMMAND in their places: token, both axes in two's complement, flags |
| Frames.CommandRoundTrip | gouda_core/gouda_core/esp32_protocol.py:76-81 | decoding an encoded COMMAND gives token and flags modulo their width and the axes clamped |
| Firmware.Esp32Sim.BtConnect | gouda_core/gouda_core/esp32_sim.py:146-149 | the new state is the Connect step of the old one |
| Firmware.Esp32Sim.BtDisconnect | gouda_core/gouda_core/esp32_sim.py:151-154 | the new state is the Disconnect step of the old one |
| Firmware.Esp32Sim.BtReport | gouda_core/gouda_core/esp32_sim.py:156-168 | the new state is the Report step of the old one, and the call raises exactly when manual_vector divides by zero |
| Firmware.Esp32Sim.Feed | gouda_core/gouda_core/esp32_sim.py:171-175 | the new state is that of handling, in order, the frames the bytes parse to |
| Firmware.Esp32Sim.Handle | gouda_core/gouda_core/esp32_sim.py:180-215 | one frame changes command, sequence, enable and configuration as its step says |
| Firmware.Esp32Sim.DoTick | gouda_core/gouda_core/esp32_sim.py:218-234 | the new state is the Tick step of the old one: staleness, watchdog, last manual time |
| Firmware.ReadIsSteps | gouda_core/gouda_core/esp32_sim.py:171-175 | one read is a sequence of single-frame steps, so the run theorems speak about reads |
| Firmware.EnabledIff | gouda_core/gouda_core/esp32_sim.py:197-201 | in every run the PC is enabled if and only if some neutral COMMAND granted it and since then neither a COMMAND without bit 0 nor a watchdog tick revoked it |
| Firmware.CommandIsLast | gouda_core/gouda_core/esp32_sim.py:190-196 | the stored command, time and sequence are those of the last accepted COMMAND |
| Firmware.LastManualRecorded | gouda_core/gouda_core/esp32_sim.py:225-228 | the recorded manual time is that of the last tick that saw the gamepad in charge |
| Firmware.PcOwnership | gouda_core/gouda_core/esp32_sim.py:218-264 | whenever the PC drives: a standing grant, a last COMMAND younger than the watchdog whose axes are applied, and the release wait over since the last tick that saw manual |
| Firmware.PcDrivesIff | gouda_core/gouda_core/esp32_sim.py:240-256 | in every run the PC drives if and only if a grant stands, the last accepted COMMAND is fresh, the gamepad is not in charge and the release wait is over; the output waits if and only if only that wait is missing |
| Firmware.WrittenInRange | gouda_core/gouda_core/esp32_sim.py:240-264 | in every state the DAC is written exactly under a valid configuration, both targets lie in [dac_min, dac_max], both codes in twelve bits between the codes of these ends, and both axes are exactly neutral when nobody drives |
| Firmware.WrittenFollowsVector | gouda_core/gouda_core/esp32_sim.py:258-264 | with the neutral point inside the circle, both targets lie straight ahead of the applied vector, the same share of the way to the circle as the vector is long, up to rounding and two corrections, and each is written as its own code |
| Firmware.CenteredIff | gouda_core/gouda_core/esp32_sim.py:145-168 | the centre latch is set if and only if a report inside the deadzone then in force came since the last connect, disconnect, gap or detected staleness |
| Firmware.ManualOwnership | gouda_core/gouda_core/esp32_sim.py:240-247 | whenever the gamepad drives: the output is the nonzero vector of the last report taken since the last connect or disconnect, that report is younger than the timeout, and the centre latch stands |
| Firmware.ManualDrivesIff | gouda_core/gouda_core/esp32_sim.py:240-247 | in every run the gamepad drives if and only if the centre latch stands and the last report is fresh and outside the deadzone then in force |
| Firmware.AttachedIff | gouda_core/gouda_core/esp32_sim.py:146-154 | in every run the gamepad counts as connected if and only if a connect came and no disconnect since |
| Firmware.ReasonsMean | gouda_core/gouda_core/esp32_sim.py:247-262 | in every run the reason of an idle output is the first that applies, in terms of the events: a last report too old, no centre since, a last COMMAND too old, a centred gamepad, nothing connected and nothing received |
| Firmware.StaleIsCleared | gouda_core/gouda_core/esp32_sim.py:219-222 | after any tick that finds the last report as old as the timeout, latch and vector are gone |
| Firmware.VectorIsReported | gouda_core/gouda_core/esp32_sim.py:156-168 | in every run the stored vector is zero or that of the last report, taken under a valid configuration |
| Firmware.ConfigStaysValid | gouda_core/gouda_core/esp32_sim.py:203-209 | a valid configuration never becomes invalid in any run |
| Firmware.ConfigIsLast | gouda_core/gouda_core/esp32_sim.py:203-209 | in every run the configuration in force is the last valid one sent with the boot token, or the stored one, and the generation counts them modulo 256 |
| Firmware.ConfigRoundTrip | gouda_core/gouda_core/esp32_protocol.py:106-107 | decoding an encoded configuration gives its nine items and the token |
| Firmware.OnlyGenuineCommandsCount | gouda_core/gouda_core/esp32_sim.py:171-202 | for every byte stream, a changed PC link means that the stream contains the encoding of a COMMAND of the right size with the boot token and a sequence newer than the one in force when it is handled |
| Firmware.SequenceMovesByTravel | gouda_core/gouda_core/esp32_protocol.py:202-204 | accepted sequence numbers advance by forward steps of section 3.2 of RFC 1982 with 32 bits |
| Firmware.SameSequenceNeedsFullTurn | gouda_core/gouda_core/esp32_sim.py:192-195 | the same number is accepted twice only after forward steps that sum to at least 2^32 |
| Firmware.VectorRaisesIff | gouda_core/gouda_core/esp32_sim.py:75-81 | manual_vector divides by zero exactly without a valid configuration and with the stick outside the circle |
| Firmware.VectorCanRaise | gouda_core/gouda_core/esp32_sim.py:164-165 | after a boot without a configuration the report (10000, 7500) raises |
| Firmware.AxisScale | gouda_core/gouda_core/esp32_sim.py:76 | an axis of ten thousand is full deflection, and nothing counts as more |
| Firmware.VectorLength | gouda_core/gouda_core/esp32_sim.py:75-81 | the vector is zero exactly inside the deadzone; otherwise it points where the stick points, with a length m such that m * (1 - deadzone) is the stick's length, one at most, less the deadzone |
| Voltage.Correct | gouda_core/gouda_core/esp32_sim.py:64-68 | the correction loop ends, at the point the recursive description gives |
| Voltage.PullApproaches | gouda_core/gouda_core/esp32_sim.py:64-67 | outside the circle each correction lowers the distance sum by exactly two and never crosses the centre |
| Voltage.PullIsSteepest | gouda_core/gouda_core/esp32_sim.py:64-67 | a correction takes the axis farther from the centre by one millivolt, the first one when both are as far |
| Voltage.InsideCircleIff | gouda_core/gouda_core/esp32_sim.py:48-50 | the integer test is membership in the disc around the middle of dac_min and dac_max that touches both |
| Voltage.CorrectedLandsInside | gouda_core/gouda_core/esp32_sim.py:64-68 | from any integer start the loop ends inside the circle, so both targets lie in [dac_min, dac_max] |
| Voltage.NarrowCircleIsEmpty | gouda_core/gouda_core/esp32_sim.py:48-50 | a circle holds no grid point, so that the loop could not end, exactly when it is one millivolt wide |
| Voltage.ExactTargetInside | gouda_core/gouda_core/esp32_sim.py:58-63 | with the neutral point inside the circle, the exact target lies inside it |
| Voltage.RoundingCostsAtMostTwo | gouda_core/gouda_core/esp32_sim.py:63-68 | a point rounded from inside the circle needs at most two corrections |
| Voltage.MapVoltageNeedsFewCorrections | gouda_core/gouda_core/esp32_sim.py:53-68 | with the neutral point inside the circle, the whole mapping needs at most two corrections for every stick |
| Voltage.OutsideNeutralNeedsMore | gouda_core/gouda_core/esp32_sim.py:53-68 | with a valid neutral point outside the circle, a stick barely moved needs more than two |
| Voltage.TargetInRange | gouda_core/gouda_core/esp32_sim.py:53-68 | for every stick both targets lie in [dac_min, dac_max], and a centred stick gives exactly neutral |
| Voltage.MapVoltage | gouda_core/gouda_core/esp32_sim.py:53-68 | from the stick vector, its length and the square root, through rounding and the loop: both targets in [dac_min, dac_max], a centred stick exactly neutral |
| Voltage.StartFollowsStick | gouda_core/gouda_core/esp32_sim.py:55-63 | with the neutral point inside the circle, full deflection is the point of the circle straight ahead of the stick, and the start point is the share of the way that the stick is deflected, rounded on each axis |
| Voltage.StartIsOnLine | gouda_core/gouda_core/esp32_sim.py:55-63 | whatever the neutral point, the start point is moved along the line of the stick, rounded on each axis |
| Voltage.TargetFollowsStick | gouda_core/gouda_core/esp32_sim.py:53-68 | the target is at most two steps from that rounded point |
| Voltage.DacCodeAccurate | gouda_core/gouda_core/esp32_sim.py:71-72 | the code is within 0..4095 and within half a code of mv * 4095 / full_scale |
| Voltage.DacCodeMonotone | gouda_core/gouda_core/esp32_sim.py:71-72 | a higher target never gets a lower code |
| Ground.RelaxOnce | gouda_core/gouda_core/map_convert.py:208-211 | eight sequential minima over shifted grids equal one round over all neighbours |
| Ground.Relax | gouda_core/gouda_core/map_convert.py:207-212 | stopping early gives the grid of all rounds, and the loop stops early exactly when some round changed nothing |
| Ground.RoundsBelowWalk | gouda_core/gouda_core/map_convert.py:204-212 | after k rounds no cell is above the cost of any walk of at most k steps inside the allowed cells |
| Ground.RoundsAttained | gouda_core/gouda_core/map_convert.py:204-212 | after k rounds every finite cell holds the cost of such a walk |
| Ground.SettledIsEnvelope | gouda_core/gouda_core/map_convert.py:204-213 | a settled grid is the greatest surface below every lowest point and within the slope limit of every allowed neighbour |
| Ground.EnvelopeIffSettled | gouda_core/gouda_core/map_convert.py:204-213 | the grid after k rounds is that surface if and only if one more round changes nothing |
| Ground.SettlesIff | gouda_core/gouda_core/map_convert.py:207-212 | n rounds settle if and only if no cell needs a cheapest walk of more than n steps |
| Ground.AllAllowedSettles | gouda_core/gouda_core/map_convert.py:207-212 | with every cell allowed the loop settles within the longer side of the grid, well inside its bound h + w + 1 |
| Ground.BendDoesNotSettle | gouda_core/gouda_core/map_convert.py:203-212 | on a U-shaped region seven or more cells wide, for any step costs and without a fill radius, none of the h + w + 1 rounds leaves the grid alone and the result is not the greatest surface |
| Ground.DistanceDecidesReach | gouda_core/gouda_core/map_convert.py:196-203 | the truncated distance loop decides exactly which cells lie within the fill radius |
| Ground.AllowedCells | gouda_core/gouda_core/map_convert.py:196-203 | the allowed cells are those observed or within the fill radius by chamfer distance |
| Ground.EstimateGround | gouda_core/gouda_core/map_convert.py:185-214 | bad arguments and oversized grids are refused; otherwise the result is the grid after h + w + 1 rounds, the greatest surface whenever it settled, and it settles when every cell is allowed |
| Modes.MatchIsTable | gouda_core/gouda_core/mode_core.py:124-134 | looking up the rows of an event gives the transition table, event by mode |
| Modes.RequestMeans | gouda_core/gouda_core/mode_core.py:145-176 | every request is refused outside the table or for a missing pose; otherwise it gives the mode of the table, one revision more, and flag, stop reason, pose and run by its event |
| Modes.BootIsManualOrPause | gouda_core/gouda_core/mode_core.py:87-114 | any record boots to manual, or to a pause that asks for an initial pose; the human flag, the run of a pause and the next revision are kept, everything else starts afresh |
| Modes.AutonomyNeedsStart | gouda_core/gouda_core/mode_core.py:145-176 | from a boot on, through any crashes, autonomy is reached only by an accepted start |
| Modes.BootPauseNeedsEndAndStart | gouda_core/gouda_core/mode_core.py:159-160 | after a boot that gave a pause, autonomy needs an accepted end and, later, an accepted start, whatever crashes come between |
| Modes.FlagStaysUntilDriving | gouda_core/gouda_core/mode_manager_node.py:237-241 | a persisted human pause or end stays set, through any crashes, until an accepted start or resume |
| Modes.HumanStopIsKept | gouda_core/gouda_core/mode_manager_node.py:237-241 | an accepted human stop survives a crash after its save, and a crash before it leaves the old record |
| Modes.RunStaysUntilEnd | gouda_core/gouda_core/mode_core.py:104-114 | a saved run keeps its id through pauses, resumes, crashes and boots until an end is accepted |
| Modes.RestartRevisionIsNewIff | gouda_core/gouda_core/mode_manager_node.py:551-553 | in every run from any record, with any number of crashes, each crash is followed by a boot newer than everything published if and only if no crash comes while a field update is unsaved |
| Modes.OneRestartIsNewIff | gouda_core/gouda_core/mode_manager_node.py:551-553 | a single crash in any run is followed by a boot newer than everything published if and only if the published revisions lead the record by nothing, and otherwise as many more revisions as the lead were published before |
| Modes.RevisionCanGoBack | gouda_core/gouda_core/mode_core.py:87-96 | a run in which a restart publishes revision 2 after revision 3, and a crash after it, with nothing unsaved, is followed by revision 3 again |
| Hold.ModeManager.Request | gouda_core/gouda_core/mode_manager_node.py:212-251 | a human request does what its step says, refusals included |
| Hold.ModeManager.Start | gouda_core/gouda_core/mode_manager_node.py:344-364 | TR-05: mission, hold kept, new token, new worker |
| Hold.ModeManager.ResumeDriving | gouda_core/gouda_core/mode_manager_node.py:374-390 | TR-10: its guard, hold kept, new token, new worker |
| Hold.ModeManager.End | gouda_core/gouda_core/mode_manager_node.py:392-404 | TR-11 and TR-12: no mission, hold, new token |
| Hold.ModeManager.PauseByHuman | gouda_core/gouda_core/mode_manager_node.py:366-372 | TR-06: hold, new token, no active goal |
| Hold.ModeManager.RunStage | gouda_core/gouda_core/autonomy_client.py:274-301 | one worker stage does its effect only with the current token |
| Hold.ModeManager.FailStage | gouda_core/gouda_core/mode_manager_node.py:436-450 | a failed stage pauses only with the current token |
| Hold.ModeManager.OnNavResult | gouda_core/gouda_core/mode_manager_node.py:503-519 | the result of the current goal ends it and pauses on success or failure |
| Hold.ModeManager.OnNavFeedback | gouda_core/gouda_core/mode_manager_node.py:491-501 | feedback moves the first waypoint not yet passed and publishes a change |
| Hold.ModeManager.OnSpeedState | gouda_core/gouda_core/mode_manager_node.py:521-527 | a speed reading in autonomy is published and may release the hold |
| Hold.ModeManager.OnKeepoutMask | gouda_core/gouda_core/autonomy_client.py:129-138 | a received mask is compared with the expected one and may release the hold |
| Hold.ModeManager.OnKeepoutInfo | gouda_core/gouda_core/autonomy_client.py:140-145 | a received filter info is kept and may release the hold |
| Hold.ModeManager.EstimatorPause | gouda_core/gouda_core/mode_manager_node.py:474-481 | lost localization pauses while driving, with a new token |
| Hold.ReleaseNeedsEverything | gouda_core/gouda_core/mode_manager_node.py:529-537 | over all interleavings the hold is released only in autonomy, by the finished worker of the current token and mission, with the speed limit applied and the mask confirmed; after a start that mask is the mission's own |
| Hold.HoldFalseMeansReleased | gouda_core/gouda_core/mode_manager_node.py:654-658 | whenever hold=false is published, such a release happened earlier for the same token and mission, after all its readings, and the mode has been autonomy ever since |
| Hold.LeavingAutonomyHolds | gouda_core/gouda_core/mode_manager_node.py:452-459 | every way out of autonomy publishes hold=true at once |
| Hold.HumanPausePauses | gouda_core/gouda_core/mode_manager_node.py:366-372 | a human pause of a drive gives mode pause, the human flag and stop reason, hold=true, no active goal, a new token and the same mission |
| Hold.HumanEndEnds | gouda_core/gouda_core/mode_manager_node.py:392-404 | a human end of a drive or a pause gives manual, no run and no mission, hold=true and a new token |
| Hold.LostLocalizationPauses | gouda_core/gouda_core/mode_manager_node.py:474-481 | lost localization while driving gives a pause with its stop reason, hold=true and a new token |
| Hold.FailedStagePauses | gouda_core/gouda_core/mode_manager_node.py:436-450 | a failed stage of the worker with the current token gives a pause with hold=true; that of an abandoned worker changes only the worker |
| Hold.GoalEndPauses | gouda_core/gouda_core/mode_manager_node.py:503-519 | the end of the current goal gives a pause with its stop reason and hold=true, unless it was cancelled |
| Hold.DriveGoesOnIff | gouda_core/gouda_core/mode_manager_node.py:366-519 | in autonomy, those five events and no other step end the drive and publish hold=true |
| Hold.NothingStoppedTheDrive | gouda_core/gouda_core/mode_manager_node.py:654-658 | in every run that publishes hold=false, none of those events came since the step that released it |
| Hold.ReleasesIff | gouda_core/gouda_core/mode_manager_node.py:529-537 | a step releases the hold if and only if it brings a reading after which a goal is under way, the limit is applied and the mask and its info are confirmed |
| Hold.ReadingIsKept | gouda_core/gouda_core/mode_manager_node.py:521-527 | a reading changes the speed state, the comparison of the mask or the validity of the info as read, and nothing else but the revision and the release |
| Hold.FeedbackIsKept | gouda_core/gouda_core/mode_manager_node.py:491-501 | feedback in autonomy sets the offset, the section and the remaining waypoints, and is published when they change |
| Hold.StartStarts | gouda_core/gouda_core/mode_manager_node.py:344-364 | an accepted start gives autonomy with hold=true, the new mission, a new token and a worker that holds it |
| Hold.MappingAndRefusals | gouda_core/gouda_core/mode_manager_node.py:212-251 | a mapping begins or ends once its actions were performed, with the hold on; a refused request changes nothing |
| Hold.StagesOfStart | gouda_core/gouda_core/autonomy_client.py:274-301 | the five stages of a start that nothing disturbs start the localization, expect the mission's mask and forget the old one, start Nav2, send a new goal and mark it as under way, and change nothing else |
| Hold.UndisturbedStartDrives | gouda_core/gouda_core/mode_manager_node.py:521-537 | after them, the mission's mask, a valid info and an applied limit release the hold |
| Hold.UndisturbedResumeDrives | gouda_core/gouda_core/mode_manager_node.py:374-390 | a resume that nothing disturbs sends a new goal and marks it as under way; an applied limit then releases the hold if the mask still stands confirmed |
| Hold.AbandonedStageGivesUp | gouda_core/gouda_core/autonomy_client.py:274-301 | a worker without the current token gives up at its next stage and changes nothing else |
| Hold.EndLeavesNothing | gouda_core/gouda_core/mode_manager_node.py:392-404 | after an end and its jobs there is no goal, no Nav2, no localization and no possible resume |
| Hold.ReadingsWereReceived | gouda_core/gouda_core/mode_manager_node.py:521-527 | in autonomy an applied speed limit was read since the last TR-05 or TR-10, under the same token and mission; for a start the matching mask and a valid filter info were received under its token, behind the parameter stage that clears them |
| Hold.MatchingMaskWasReceived | gouda_core/gouda_core/autonomy_client.py:126-145 | whatever the transition, a mask that counts as matching was received in the run with the expected hash and size |
| Hold.ResumeRemembers | gouda_core/gouda_core/mode_manager_node.py:374-390 | a resume is accepted exactly under its guard; it drives the same mission with hold=true, a new token and a worker that remembers keepout_expected |
| Hold.ResumeReleasesOwnMaskIff | gouda_core/gouda_core/mode_manager_node.py:374-390 | after a resume the confirmed mask is the mission's own if and only if keepout_expected was the mission's at the resume |
| Hold.ResumeCanReleaseWithOldMask | gouda_core/gouda_core/mode_manager_node.py:374-390 | for any two missions with different masks, a reachable state releases the hold for one with the mask of the other |
| Hold.ResultBeforeFinishSticks | gouda_core/gouda_core/mode_manager_node.py:436-442 | a success or failure of the goal before the worker's last stage leaves a pause marked as driving without a goal |
| Hold.StuckExactlyWhen | gouda_core/gouda_core/mode_manager_node.py:436-442 | a step leads into that pause if and only if, in a pause, the current worker takes its last stage without a goal or the goal is cancelled while marked as driven |
| Hold.StuckIsReachable | gouda_core/gouda_core/mode_manager_node.py:503-519 | for any mission, a run with a goal that succeeds or fails reaches that pause |
| Hold.StuckByCancel | gouda_core/gouda_core/autonomy_client.py:326-330 | so does, for any two missions, a late cancel of the goal of a start that was paused |
| Hold.StuckUntilEnd | gouda_core/gouda_core/mode_manager_node.py:378-379 | from there every step but an accepted end keeps that pause |
| SpeedInputs.SpeedClient.OnSpeedLimit | gouda_core/gouda_core/autonomy_client.py:111-113 | the limit is kept and the inputs give a reading |
| SpeedInputs.SpeedClient.OnMask | gouda_core/gouda_core/autonomy_client.py:115-118 | the mask is kept and the inputs give a reading |
| SpeedInputs.SpeedClient.OnInfo | gouda_core/gouda_core/autonomy_client.py:120-122 | the filter info is noted and the inputs give a reading |
| SpeedInputs.SpeedClient.OnFeedback | gouda_core/gouda_core/autonomy_client.py:312-316 | the position is kept, the progress updated, and the inputs give a reading |
| SpeedInputs.SpeedClient.RunStage | gouda_core/gouda_core/autonomy_client.py:279-284 | the parameter stage of the current worker forgets the inputs, no other stage does |
| SpeedInputs.RunsAreRuns | gouda_core/gouda_core/mode_manager_node.py:521-527 | every run with inputs is a run of the mode manager, so what holds of its reachable states holds here |
| SpeedInputs.InputSinceIff | gouda_core/gouda_core/autonomy_client.py:279-284 | the inputs are empty if and only if none was received since the last parameter stage |
| SpeedInputs.AppliedIsCurrentIff | gouda_core/gouda_core/autonomy_core.py:184-196 | in every run in autonomy with the limit shown as applied, the inputs give an applied limit if and only if one was received since the parameter stage, or no start has passed that stage |
| SpeedInputs.CellAtHolds | gouda_core/gouda_core/autonomy_core.py:177-181 | the value read at a position is that of the one cell, in its row and column, that holds the position, and None exactly when no cell of the mask does |
| SpeedInputs.SpeedLimitStateMeans | gouda_core/gouda_core/autonomy_core.py:184-196 | the limit is applied exactly when mask, info, position and a positive limit are there and the robot stands on a cell with a positive value; the other states likewise |
| SpeedInputs.InputIsLast | gouda_core/gouda_core/autonomy_client.py:111-145 | in every run each input is what the last message of its kind since the last parameter stage carried, and absent without one |
| SpeedInputs.StartCanReleaseOnOldInputs | gouda_core/gouda_core/mode_manager_node.py:529-537 | for any two missions, the second start can release the hold with no input received since its parameter stage |
| Poses.MulAssociative | gouda_core/gouda_core/odometry_core.py:17-20 | the quaternion product is associative, for all quaternions |
| Poses.RotateTwice | gouda_core/gouda_core/odometry_core.py:23-26 | rotating by a product is rotating twice |
| Poses.RotateSandwich | gouda_core/gouda_core/odometry_core.py:23-26 | the scalar part that rotate drops is always zero |
| Poses.ComposeAssociative | gouda_core/gouda_core/odometry_core.py:29-33 | composition of poses is associative |
| Poses.MapOdomTimesOdom | gouda_core/gouda_core/localization_core.py:184-189 | map->odom composed with odom->base gives the EKF's position exactly and its rotation scaled by the squared length of the odometry's quaternion |
| Poses.PoseComesBackIff | gouda_core/gouda_core/localization_core.py:184-189 | the EKF's pose comes back exactly if and only if the odometry's quaternion is a unit one |
| Poses.MapOdomIsUnit | gouda_core/gouda_core/localization_core.py:184-189 | the published transform has a unit rotation |
| Poses.ChordIsLong | gouda_core/gouda_core/localization_core.py:114-122 | between unit quaternions on the short arc the squared length before normalising is at least one half |
| Poses.InterpolateIsUnit | gouda_core/gouda_core/localization_core.py:114-122 | interpolation of two unit poses never divides by zero and gives a unit rotation |
| Poses.InterpolateEnds | gouda_core/gouda_core/localization_core.py:114-122 | at the two ends interpolation gives the end poses, the second rotation negated exactly when the two point away from each other |
| Poses.InterpolateAtOnce | gouda_core/gouda_core/localization_core.py:116 | between poses of the same time it gives the first |
| Poses.InterpolateIsLinear | gouda_core/gouda_core/localization_core.py:114-122 | position and, up to normalising, rotation have moved from the first pose to the second by the share of the interval that has passed |
| Poses.NegatedRotatesAlike | gouda_core/gouda_core/localization_core.py:118-119 | the sign changed for the short arc does not change the rotation |
| Estimator.OdomBuffer.Add | gouda_core/gouda_core/localization_core.py:132-137 | the loop appends a newer sample and drops exactly what is behind the span |
| Estimator.OdomBuffer.PoseAt | gouda_core/gouda_core/localization_core.py:143-152 | the scan finds the pose at a time, or none outside the samples |
| Estimator.AtIsPiecewise | gouda_core/gouda_core/localization_core.py:143-152 | the scan is the piecewise interpolation between neighbouring samples, and none outside |
| Estimator.AtIsLinear | gouda_core/gouda_core/localization_core.py:143-152 | between two neighbouring samples with unit rotations the pose that is looked up is linear in the time, with a unit rotation |
| Estimator.MapOdomEstimator.OnOdometry | gouda_core/gouda_core/localization_core.py:168-173 | the new state is the odometry step of the old one |
| Estimator.MapOdomEstimator.OnEkfPose | gouda_core/gouda_core/localization_core.py:175-182 | the new state is the EKF step of the old one |
| Estimator.MapOdomEstimator.DoReset | gouda_core/gouda_core/localization_core.py:191-192 | a reset gives the empty state |
| Estimator.RecentOfAccept | gouda_core/gouda_core/localization_core.py:132-137 | a pruned buffer always holds what the whole history would leave of itself |
| Estimator.RunKeeps | gouda_core/gouda_core/localization_core.py:155-192 | in every run the published transform is that of an EKF pose and the odometry interpolated over the whole history, and every kept EKF pose the odometry has reached was served or is older than the kept odometry |
| Estimator.TimeMovesForward | gouda_core/gouda_core/localization_core.py:168-189 | between resets map_odom_time never decreases, and a new transform has a later time |
| Estimator.EkfPoseIsRestored | gouda_core/gouda_core/localization_core.py:184-189 | with unit quaternions and any interpolation that keeps them, the published transform carries the whole-history odometry of its time back to a received EKF pose |
| Estimator.InterpolateKeepsUnit | gouda_core/gouda_core/localization_core.py:114-122 | the code's interpolation, with an exact square root, keeps unit rotations and never divides by zero between them |
| Estimator.EkfPoseIsRestoredByInterpolate | gouda_core/gouda_core/localization_core.py:184-189 | the same restoration for the code's own interpolation |
| Recorder.RecorderCore.DoAppend | gouda_core/gouda_core/recorder_core.py:249-262 | the mutual recursion with closing a gap ends, with the state the function gives |
| Recorder.RecorderCore.DoCloseGap | gouda_core/gouda_core/recorder_core.py:269-273 | closing notes the gap and reports it in a line that may fail again |
| Recorder.RecorderCore.DoStartLog | gouda_core/gouda_core/recorder_core.py:102-117 | a start does what its step says, and answers yes exactly to a permitted trigger |
| Recorder.RecorderCore.DoStopLog | gouda_core/gouda_core/recorder_core.py:119-132 | a stop does what its step says |
| Recorder.RecorderCore.DoRecord | gouda_core/gouda_core/recorder_core.py:240-247 | a message is recorded exactly when the log runs and its write succeeds |
| Recorder.RecorderCore.DoLogFailure | gouda_core/gouda_core/recorder_core.py:233-237 | a failure is written to a running log only |
| Recorder.AppendTracks | gouda_core/gouda_core/recorder_core.py:249-273 | after any line a gap is open exactly when the latest write, the gap's own report included, failed |
| Recorder.RunKeeps | gouda_core/gouda_core/recorder_core.py:102-132 | in every run, under every pattern of failures, the gaps are ordered and disjoint, and once a log was started a gap is open exactly when it is inactive or its latest write failed |
| Recorder.GapsCoverExactly | gouda_core/gouda_core/recorder_core.py:264-273 | in the final record, every instant between two operations since the first start at which nothing was being recorded lies in a gap, and no other such instant lies strictly inside one |
| Recorder.GapsCoverStartLines | gouda_core/gouda_core/recorder_core.py:110-116 | the same between any two lines a start writes: an instant lies in a gap if the latest line failed, otherwise strictly inside none |
| Recorder.FailedLineLeavesHole | gouda_core/gouda_core/recorder_core.py:249-273 | in the final record of any run, for any line of a message, failure, start, stop or gap report that fails while no gap is open: no instant from the last reading before the write up to the second after it lies strictly inside a gap, and every instant from there to the next reading lies in one |
| Recorder.RunBalances | gouda_core/gouda_core/recorder_core.py:249-273 | in every run, under every pattern of failures, each write is a line of some event or the report of a closed gap, each failed write is counted once, the revision counts the failed lines and the starts and stops, the clock is read as often as these need it, the gap shown last is the one closed last, and a log runs exactly while it has a starter |
| Recorder.SnapshotIsLast | gouda_core/gouda_core/recorder_core.py:240-243 | in every run the snapshot holds of each topic the message received last, recorded or not |
| Recorder.OriginOfNext | gouda_core/gouda_core/recorder_core.py:102-132 | a log starts only by a permitted trigger and stops only by a human or, if no human started it, automatically |
| Recorder.HumanLogStays | gouda_core/gouda_core/recorder_core.py:125-126 | a log a human started keeps running until a human stops it |
| Recorder.NeverStartsByItself | gouda_core/gouda_core/recorder_core.py:102-104 | without a permitted start there is never a recording |
| Segments.ClosestPoint | gouda_core/gouda_core/map_convert.py:402-405 | the clipped projection is the closest point of the segment |
| Segments.NearIff | gouda_core/gouda_core/map_convert.py:402-405 | the test accepts a point if and only if it is within half_width of some point of the segment |
| Corridor.SplitIsPartition | gouda_core/gouda_core/map_convert.py:378-384 | the gap is refused exactly when it is not positive; otherwise the pieces partition the path in order, every step inside a piece is at most gap and every cut is longer |
| Corridor.FarIsLonger | gouda_core/gouda_core/map_convert.py:378-384 | for a positive gap a step counts as long if and only if its length is greater than the gap |
| Corridor.Mark | gouda_core/gouda_core/map_convert.py:397-406 | marking the clipped index box of a segment marks exactly the cells of the whole grid whose centre is near it |
| Corridor.CorridorGrid | gouda_core/gouda_core/map_convert.py:387-413 | the grid is refused exactly for its three errors, and otherwise free exactly near a marked segment |
| Corridor.CorridorIsPath | gouda_core/gouda_core/map_convert.py:378-413 | a centre is near a marked segment if and only if it is within half_width of a path point or of a step no longer than gap |
| Corridor.GeometryIsTight | gouda_core/gouda_core/map_convert.py:387-395 | the grid begins exactly half a corridor and one cell before the first point on each axis, and is not a cell longer than it has to be |
| Corridor.BandIsOnGrid | gouda_core/gouda_core/map_convert.py:392-393 | every point of the band lies on the grid, at least one cell from its border |
| SpeedMask.QuantiseIsMonotone | gouda_core/gouda_core/speed_mask.py:55-57 | a lower limit never gets a higher cell value |
| SpeedMask.QuantiseIsNearest | gouda_core/gouda_core/speed_mask.py:55-57 | a cell value stands for the limit up to half a step, and limits outside the range get the two ends |
| SpeedMask.PaintIsLowest | gouda_core/gouda_core/speed_mask.py:78-93 | painting in order leaves the least value of all covering sections, owned by the first section that has it, and 0 without one |
| SpeedMask.PaintIsLowestLimit | gouda_core/gouda_core/speed_mask.py:78-93 | each cell value is the quantised lowest limit of the sections whose band covers it |
| SpeedMask.CellIsLowestLimit | gouda_core/gouda_core/speed_mask.py:60-93 | in terms of the waypoints, a cell has the value of the lowest limit of the sections that pass its middle, and 0 exactly when none does |
| SpeedMask.Generate | gouda_core/gouda_core/speed_mask.py:60-101 | the loops give each cell its painted value and owner, and each pair of sections its number of conflicting cells |
| SpeedMask.ConflictIff | gouda_core/gouda_core/speed_mask.py:86-90 | a cell causes a conflict if and only if it lies in two bands with different values |
| SpeedMask.WarningIff | gouda_core/gouda_core/speed_mask.py:86-98 | some warning is given if and only if some cell lies in two bands with different values |
| SpeedMask.WarningCounts | gouda_core/gouda_core/speed_mask.py:83-98 | a pair of sections is warned about if and only if they meet on some cell (both cover it, the values differ, and the earlier one holds it), and the number given is that of those cells |
| Keepout.InsideLoop | gouda_core/gouda_core/keepout_mask.py:52-63 | the loop computes whether the ray crosses an odd number of edges |
| Keepout.CrossesIff | gouda_core/gouda_core/keepout_mask.py:58-62 | an edge is crossed if and only if it passes the height of the point with the point to its left, going up, or to its right, going down, by the sign of a cross product |
| Keepout.InsideIffLeftOfAll | gouda_core/gouda_core/keepout_mask.py:52-63 | in a strictly convex polygon that turns left, a point on no edge's line is inside if and only if it is to the left of every edge |
| Keepout.InsideOfParts | gouda_core/gouda_core/keepout_mask.py:52-63 | for any polygon cut along the line between two of its vertices, a point is inside if and only if it is inside exactly one part |
| Keepout.StartDoesNotMatter | gouda_core/gouda_core/keepout_mask.py:52-63 | inside is unchanged by the vertex at which the polygon starts |
| Keepout.DirectionDoesNotMatter | gouda_core/gouda_core/keepout_mask.py:52-63 | inside is unchanged by reversing the polygon |
| Keepout.OutsideBoxIsOutside | gouda_core/gouda_core/keepout_mask.py:52-63 | no point outside the bounding box is inside, for any polygon, crossing itself or not |
| Keepout.Rasterize | gouda_core/gouda_core/keepout_mask.py:66-76 | a cell is occupied in any keepout area, free in an allowed one only, otherwise unknown |
| Keepout.MaskValueMeans | gouda_core/gouda_core/keepout_mask.py:66-76 | 100 in some keepout area, 0 in an allowed one and no keepout area, -1 in none, each exactly then |
| Keepout.CentreIsMiddle | gouda_core/gouda_core/keepout_mask.py:66-76 | a cell is judged by the point in its middle |
| Keepout.PublishedPixel | gouda_core/gouda_core/keepout_mask.py:79-85 | each cell value is written as the pixel 0, 254 or 205 and published again as itself |
| Keepout.MapServerValues | gouda_core/gouda_core/keepout_mask.py:79-85 | the published cells are those of the pixels, rows reversed |
| Keepout.Write | gouda_core/gouda_core/keepout_mask.py:93-106 | the values read back from the written image are the grid, cell for cell, so the recorded hash is that of the grid |
| Diff.IntentDiff | design/tools/apply_revision.py:74-90 | the loop records the added and removed lines of every opcode |
| Diff.RecordedIff | design/tools/apply_revision.py:74-90 | exactly the lines that some opcode inserts, deletes or replaces are recorded, under their own numbers; a replaced line that stays first is not |
| Diff.Rebuild | design/tools/validate_model.py:234-241 | the loops check the recorded texts and rebuild the new lines |
| Diff.RebuildUndoesDiff | design/tools/validate_model.py:234-241 | for every valid opcode list the rebuilt text is the new text, every insert position is in range and the recorded texts match |
| Diff.ChangedIsRemoved | design/tools/validate_model.py:235-238 | a line recorded as changed is removed like any other |
| Diff.SortIsStable | design/tools/validate_model.py:239 | whatever was recorded, the lines are inserted by ascending number, and those with the same number in the order in which they were recorded |
| Diff.InsertAtMeans | design/tools/validate_model.py:239 | where a recorded line is inserted, its number in range or not |
| Lexer.CodeLines | design/tools/hardcode_scan.py:54-70 | the loops end for every text, with the lines of the stripped text |
| Lexer.LinesAreKept | design/tools/hardcode_scan.py:54-70 | for every text, terminated or not, as many lines come out as go in and each is its input line with characters left out |
| Lexer.StripIsReading | design/tools/hardcode_scan.py:54-70 | skipping from mark to mark equals a reader of single characters with five modes |

## Left out

- Outgoing frames of the firmware simulation (EVENT, ACK, STATUS, HELLO_REPLY, CONFIG), their payload layouts, and times past 32 bits.
- Floating-point rounding: everything is exact, the rounding of a target to whole millivolts apart.
- Voltage.TargetFollowsStick: requires the neutral point inside the circle, as Voltage.MapVoltageNeedsFewCorrections does; outside it Voltage.StartIsOnLine gives the line, but not the side.
- Voltage.Correct: requires a circle at least two millivolts wide; a valid configuration has one, because the neutral point lies strictly inside.
- Voltage.MapVoltageNeedsFewCorrections: requires the neutral point inside the circle, which a valid configuration need not have; the code promises no number of corrections, and Voltage.CorrectedLandsInside has no such condition.
- Firmware.Esp32Sim.Handle: the frames it answers with and the events it logs are not modelled, only the state.
- Firmware.Esp32Sim.DoTick: the override events and the periodic STATUS frame are not modelled, only the state.
- Ground.EstimateGround: starts from the lowest point per cell; binning the points is not modelled. It does not say for which allowed regions short of the whole grid the loop settles; Ground.SettlesIff does.
- Estimator: interpolation is a parameter of the buffers; where the code's own would divide by zero, between rotations that are not unit ones, the exception is not modelled.
- Recorder.GapsCoverExactly: says nothing about instants inside one operation; Recorder.GapsCoverStartLines does for the lines of a start, and Recorder.FailedLineLeavesHole for the instants inside a line that fails.
- Recorder: the contents of the log lines, session.json and status, the folders of rosbag outputs and the rosbag processes; rosbag operations appear through the lines and clock readings they cause. Creating the session folders cannot fail here.
- Hold.ModeManager.RunStage: a worker stage is one step; a callback that comes between the last token check of a stage and its effect is not modelled.
- Hold.ReadingsWereReceived: an applied speed reading counts from the start or resume on, also before the parameter stage; SpeedInputs.AppliedIsCurrentIff says when it is that of the inputs received behind it.
- SpeedInputs: the four input fields of the autonomy client are an object of their own beside the other fields; a mask message has as many cells as its size says and a positive resolution.
- Hold: the state of the vehicle output and odometry processes, the guards of the mapping transitions and the waypoint from which a resume continues; the jobs after a pause or an end may happen at any moment or not at all.
- Modes: fields that only the monitor shows beside mode, flags, stop reason, progress and revision; an unreadable record is the absent record.
- Corridor and SpeedMask: counts of free, painted and overlapping cells, the list of clipped sections, warning texts and file formats; squared distances stand for hypot.
- Keepout: validation of drawn areas, waypoints inside them, narrow gaps and the hash function itself.
- Diff: the choice of opcodes by difflib is any valid opcode list; the rest of a migration check is left out.
- Lexer: the Python and shell strippers and the search for numbers.
- ROS plumbing, HTTP, subprocesses, signals, motion planning, device configuration, GNSS and the report renderers: single-branch rules or input and output.
