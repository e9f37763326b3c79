# Alambic: a verified model of the module

Alambic is the firmware of a four-channel CV module: a fixed tick samples the jacks and the
front panel, runs one of two applets, drives four converter outputs and redraws a 128x64
panel.  The same engine runs inside a simulator that records what is done to it and replays
the recording from a text file, and an image gate decides what may be flashed.  This project
models that code in Dafny and proves what it is for.

The components whose methods change fields in the Rust code are classes here, with the same
fields and loops; each method is proved against a step function on plain values, and the
statements about whole histories are lemmas about those step functions.

- **Panel input.** `Debounce`, `Buttons`, `Encoder` and `Panel` give each stage its meaning
  over any history of raw samples: the debounced level is the value of the latest settled run,
  every hold of a chord button is resolved exactly once, the decoder's total is a sum over
  the maximal same-direction runs, and polling loses no detent.
- **The engine.** `Applets` and `Menu` hold the two applets, their host and the app picker;
  `Ticks` is one tick as a function, `Engine` the tick loop over the in-memory platform of
  `Testing`, `EngineRuns` and `AppletRuns` what every run keeps.  The central result is that a
  panel operated in any way that keeps the menu up cannot be told apart by the applets or at
  the outputs; `Outputs` says what the outputs, measurements, reports and pictures are, from the
  inputs alone.
- **Record and replay.** `Scenario` and `ScenarioText` are the event list and its text form;
  `Simulation` is the simulator as a function of its state, for any deterministic module,
  `Simulator` the class, and `Replay` the proof that a recording, saved as text or not,
  reproduces the session.  `ScenarioForms` says which texts read as which scenario, whatever
  their layout and comments.  `Sessions` is what a session leaves on the jacks and what that comes
  to at the outputs.  `Presses` follows a momentary press or chord from the keystroke through the
  debouncer to the one tick that reports it, and `Actions` on to what the report does to the
  applets, to the menu, or to nothing under the boot animation.
- **Converters.** `Calibration` proves the rounding, the error bounds and the exact round trip
  for calibrations of either sign; `Dac8565` says what a clear dirty flag means for the chip's
  outputs after any run of the driver, under any pattern of bus and pin failures, in the middle of
  a word too.
- **Pixels.** `FrameBuffer` and `Splash` relate packed bytes to a set of points and the boot
  border to a closed path around the screen.  `Ssd130x` is the panel driver on wires that fail
  at any point, and `Oled` the controllers: after any run of refreshes, each cut short anywhere,
  the next one to go through shows the framebuffer's points, on SH1106 always and on the others
  exactly under a condition on the cuts.
- **The image gate.** `ElfGate` is the hand-written ELF reader over arbitrary bytes; its verdict
  is proved equal to an independent statement of what a flashable image is, and `ElfReasons` says
  when each reason to refuse one is given.  `ElfRecords` lays the format's records out field by
  field and proves that the gate reads exactly those fields: System V ABI (gABI) chapter 4,
  sections "ELF Header", "Sections" and "String Table", and chapter 5, section "Program Header".
  `Utf8` is the check on section names, against RFC 3629.
- **Text.** `Fmt` is the truncating text buffer and signed volts; `Text` the decimal integers,
  tokens and lines that the scenario format relies on.

Integers that have a width in the source have it here: the workspace is built with overflow
checks, so an addition that would leave its type is a panic, and the subset types of `Ints`
make its absence a proof obligation.  Wrapping and saturating operations are written out, and
Rust's truncating `/` is `Ints.TruncDiv`.

Clocks, bus and pin failures, panel reads and the simulator's operator are parameters: every
statement holds for all of them.

## Where the code says less than its comments

- The tick that launches an app is not silenced (crates/oc-core/src/engine.rs:164-174), although
  crates/oc-core/src/apps/mod.rs:51-53 says the applet does not react to keys aimed at the menu.
  `EngineRuns.AppletSeesPanelUnlessMenuEndsUp` gives the exact ticks,
  `EngineRuns.LaunchingPressReachesTheApplet` the consequence.
- An encoder reversal discards the partial detent (crates/oc-core/src/encoder.rs:59-64), so the
  total is not net displacement: `Encoder.DisplacementKeptIff` says exactly when it is.
- `Simulator::reset` drops the holds of momentary presses and keeps the levels they hold
  (crates/oc-sim/src/simulator.rs:119-125), so it does leave presses half-completed:
  `Presses.ResetStrandsIff` says exactly when, for buttons and triggers.
- A press is not "certainly fired" after `SETTLE_TICKS` (crates/oc-sim/src/simulator.rs:32-37): on
  a simulator that has just been started it is lost for good, because the boot animation is still
  up on the tick it is reported and discards the report (crates/oc-core/src/engine.rs:156-162,
  218-220).  `Actions.PressFiresUnlessBooting` is the exact condition, in terms of the clock at the
  press, `Actions.FreshPressIsLost` the failing case.
- Recording is exact up to 2^64-1 ticks and no further: the tick counter wraps
  (crates/oc-sim/src/simulator.rs:101-105, 181), so a session of 2^64 steps records as an empty
  one: `Replay.WrappedSessionIsLost`.  By `Replay.RecoveredIffNumbered` there is no session beyond
  the bound that every module reproduces.
- A recording with an event after the last tick replays one tick longer than the session
  (crates/oc-sim/src/scenario.rs:202-206): the condition is part of `Replay.RecordThenReplay`.
- A `ticks` line may lower the run below its events (crates/oc-sim/src/scenario.rs:251-269):
  `ScenarioText.TicksLineCanLower`.  `ScenarioText.ParsedIsWellFormedIff` says for which texts the
  scenario that comes out survives being printed; `ScenarioText.RoundTrip` holds exactly for
  those.
- An image with program headers and no PT_LOAD segment is accepted without a configuration block
  (xtask/src/validate.rs:602-650): `ElfGate.NothingToLoadIsFlashable` exhibits one, and by
  `ElfGate.FlashableCarriesFcbIff` an accepted image carries a block exactly when it loads
  something.
- A converter can make the core panic, contrary to crates/oc-core/src/calibration.rs:11-12: the
  code minus the zero code may leave `i32`.  `Calibration.InputNeverPanicsIff` and
  `Calibration.OutputNeverPanicsIff` say for which calibrations it never does.
- A DAC commit that reports success may leave an output where it was
  (crates/oc-drivers/src/dac8565.rs:126-173): a chip select whose release failed still listens to
  an old word, and the next commit's first word runs into it.  `Dac8565.ClearFlagShowsIff` gives the
  exact condition over whole runs, `Dac8565.StuckNominalRun` a run that fails it, and by
  `Dac8565.ReleasedRunShows` nothing is lost as long as releases work.
- On SSD1306 and SSD1309 a refresh that reports success may show the wrong picture for good
  (crates/oc-drivers/src/ssd130x.rs:255-280): after one that was cut inside a command, the bytes
  of the next are taken for the missing arguments and for a scroll command, if the controller
  keeps a half-sent command while it is deselected.
  `Oled.PanelRecoversIff` is the exact condition, `Oled.CutCommandLosesThePanel` the failing
  family; SH1106 always recovers.
- Fed more than a screenful of time at once, the scope drops what does not fit
  (crates/oc-core/src/apps/scope.rs:79-84): `AppletRuns.TimeIsKeptIff`.
- `step_millivolts` is documented as rounded up and is not (crates/oc-core/src/calibration.rs:99-104,
  157-168): `Calibration.InputStepIsRoundedUpIff` and `Calibration.OutputStepIsRoundedUpIff` say
  when the two agree.
- A `TextBuf` that drops a wide character may still take a shorter one later
  (crates/oc-core/src/fmt.rs:55-68): `Fmt.BufferHoldsWhatFitsIff` is the exact condition.

## Model

| member | source | states |
|---|---|---|
| `Debounce.Debouncer.Update` | crates/oc-core/src/debounce.rs:43-64 | One sample moves the debouncer to its specified next state and reports an edge exactly when the stable level changes. |
| `Debounce.EdgeCounter.Update` | crates/oc-core/src/debounce.rs:97-105 | The counter is its debouncer plus a saturating count of rising edges. |
| `Debounce.LevelIsLastSettledRun` | crates/oc-core/src/debounce.rs:43-64 | After any history the level is high exactly if the latest settled run of at least the required length is a run of highs; low if none. |
| `Debounce.NoDepthIsOne` | crates/oc-core/src/debounce.rs:30-41 | A required run of zero counts as one, and with one the level is the latest sample. |
| `Debounce.EdgesAlternateAndCost` | crates/oc-core/src/debounce.rs:43-64 | Rising and falling edges alternate from low, and each edge costs its own run of samples. |
| `Debounce.RisingEdgesBounded` | crates/oc-core/src/debounce.rs:43-64 | k rising edges need at least (2k-1) times the required samples. |
| `Debounce.CounterCountsEdges` | crates/oc-core/src/debounce.rs:97-105 | Over any history the count is the number of debounced rising edges, saturating. |
| `Buttons.ButtonReader.Update` | crates/oc-core/src/buttons.rs:88-136 | One poll: four debouncers, the chord, and presses of up and down on release, as one state step and its events. |
| `Buttons.ReportsMean` | crates/oc-core/src/buttons.rs:88-136 | The chord fires exactly when both buttons come to be held together; up or down fires exactly on the fall of a hold that never saw both; the encoder switches fire on press. |
| `Buttons.HoldResolvesOnce` | crates/oc-core/src/buttons.rs:88-136 | Each hold is resolved once: a press at its end if no chord fired during it, nothing before. |
| `Buttons.ContactsAreDebouncers` | crates/oc-core/src/buttons.rs:92-98 | Each button's contact is its own raw history through one debouncer, untouched by the others. |
| `Buttons.ReaderArbitratesDebounced` | crates/oc-core/src/buttons.rs:88-136 | On any raw history the reader reports the arbitration of the debounced levels, so the two statements above hold of it. |
| `Encoder.QuadratureDecoder.Update` | crates/oc-core/src/encoder.rs:49-71 | One sample moves the decoder to its specified state and reports the whole detents completed, though the code divides and multiplies where the specification counts. |
| `Encoder.TableFollowsGrayCycle` | crates/oc-core/src/encoder.rs:21-29 | The sixteen-entry table is one place around the Gray cycle, and zero for no move and for a missed sample. |
| `Encoder.DecoderCountsRuns` | crates/oc-core/src/encoder.rs:49-71 | Over any samples the total is the sum over maximal runs of sign times floor(length/4), and the accumulator the signed rest of the last run. |
| `Encoder.RunsAreMaximal` | crates/oc-core/src/encoder.rs:49-71 | Neighbouring runs have opposite directions. |
| `Encoder.RunsExpand` | crates/oc-core/src/encoder.rs:49-71 | The runs are the non-zero movements, in order, and nothing else. |
| `Encoder.DisplacementIsAccountedFor` | crates/oc-core/src/encoder.rs:49-71 | Net displacement is what was reported, what is held and what reversals discarded. |
| `Encoder.DisplacementKeptIff` | crates/oc-core/src/encoder.rs:59-64 | A sample moves the reported-plus-held displacement by its own movement exactly when it does not reverse a partial detent; a reversal drops the partial detent. |
| `Encoder.ReversalForgets` | crates/oc-core/src/encoder.rs:59-64 | One step forward and one back leave the decoder one step behind. |
| `Encoder.TotalBounded` | crates/oc-core/src/encoder.rs:49-71 | At most one detent per four samples, in either direction. |
| `Encoder.TurnsAreReported` | crates/oc-core/src/encoder.rs:49-71 | Any number of whole turns with line A leading is reported as so many steps up, and with line B leading as so many down. |
| `Panel.Panel.Sample` | crates/oc-drivers/src/panel.rs:70-90 | Every encoder whose pins read is decoded into its pending detents, every button that reads is held at the level its polarity makes active, and failed reads are counted. |
| `Panel.Panel.Poll` | crates/oc-drivers/src/panel.rs:100-108 | A poll hands over the pending detents and the levels and clears only the former. |
| `Panel.PanelLosesNoDetent` | crates/oc-drivers/src/panel.rs:70-108 | If at most 508 samples separate polls, what the polls reported plus what is pending is what the decoder counted. |
| `Panel.TurnsArePending` | crates/oc-drivers/src/panel.rs:70-82 | A knob turned clockwise by up to 127 detents between two polls is pending as that many up, and the other way as that many down. |
| `Panel.FailuresAreCounted` | crates/oc-drivers/src/panel.rs:72-90 | One failure for every encoder with a line that could not be read and for every such button. |
| `Calibration.RoundsToNearest` | crates/oc-core/src/calibration.rs:172-180 | The signed division returns the nearest integer, ties away from zero, for either sign of the divisor. |
| `Calibration.InputRoundTripError` | crates/oc-core/src/calibration.rs:78-104 | For any non-zero slope of either sign, a level whose code does not clamp and can be read back without a panic is recovered within half a step plus half a millivolt, hence within `step_millivolts`. |
| `Calibration.NominalInputWithinStep` | crates/oc-core/src/calibration.rs:78-104 | Over the whole input range the nominal calibration and its inversion recover every level within two millivolts. |
| `Calibration.InputLevelIsNearest` | crates/oc-core/src/calibration.rs:78-86 | A code reads as (code - zero) x slope / 1,000,000, rounded to the nearest millivolt and held to 5 V either way; codes beyond twelve bits count as the last. |
| `Calibration.InputCodeIsNearest` | crates/oc-core/src/calibration.rs:90-97 | A level's code is zero plus the proportion the other way, rounded to the nearest and held to twelve bits. |
| `Calibration.NominalInputEnds` | crates/oc-core/src/calibration.rs:62-75 | The nominal calibration's numbers, and what it and its inversion make of the first, middle and last code. |
| `Calibration.InputLevelsMonotone` | crates/oc-core/src/calibration.rs:78-86 | Levels follow codes in the slope's direction. |
| `Calibration.InputCodesMonotone` | crates/oc-core/src/calibration.rs:90-97 | Codes follow levels in the slope's direction, clamping included. |
| `Calibration.InputStepIsRoundedUpIff` | crates/oc-core/src/calibration.rs:101-104 | The input step is the one documented exactly for the slopes named. |
| `Calibration.OutputRoundTripExact` | crates/oc-core/src/calibration.rs:139-155 | For any slope of at least one code per millivolt, level to code to level never panics and is the identity wherever the code does not clamp. |
| `Calibration.NominalOutputExact` | crates/oc-firmware/src/board.rs:139-142 | The nominal and the board's inverted calibration never clamp from -3 V to 6 V, so the identity holds for every driveable level. |
| `Calibration.OutputCodeIsNearest` | crates/oc-core/src/calibration.rs:139-145 | A level, held to -3 V to 6 V, has the code zero plus level x slope / 1,000,000, rounded to the nearest and held to sixteen bits. |
| `Calibration.NominalOutputEnds` | crates/oc-firmware/src/board.rs:139-142 | What the nominal calibration and the board's make of the ends of the range. |
| `Calibration.FlatCalibrations` | crates/oc-core/src/calibration.rs:90-168 | Without a slope everything is zero volts, and the steps are 1 and 6000. |
| `Calibration.OutputCodesMonotone` | crates/oc-core/src/calibration.rs:139-145 | Output codes follow levels in the slope's direction. |
| `Calibration.InputNeverPanicsIff` | crates/oc-core/src/calibration.rs:78-83 | Reading a code stays within `i32` for every code exactly when the zero code is at least the top code less `i32::MAX`. |
| `Calibration.OutputNeverPanicsIff` | crates/oc-core/src/calibration.rs:148-155 | The same for reading an output code back, where a flat calibration never subtracts. |
| `Calibration.OutputStepIsRoundedUpIff` | crates/oc-core/src/calibration.rs:159-168 | The output step is the one documented exactly for the slopes named. |
| `Dac8565.Dac8565.Commit` | crates/oc-drivers/src/dac8565.rs:126-140 | The words of a commit, in place, stopping at the first failure; success clears the flag and leaves nothing stale in the chip, whatever was there before. Into a fresh chip success means the target, and a failure after any number of words leaves exactly those outputs new and at most the next, in Simultaneous mode none before the last word; what a clear flag means is kept. |
| `Dac8565.Dac8565.Flush` | crates/oc-drivers/src/dac8565.rs:185-191 | A clean driver touches nothing; a dirty one commits and records the outcome, and without an error it is clean, with no stale word in the chip, and shows the target if there was none before; what a clear flag means is kept. |
| `Dac8565.Dac8565.WriteWord` | crates/oc-drivers/src/dac8565.rs:143-173 | Whatever fails, and at whatever bit, the chip select has been asked to rise, and a stale word is left only by a release that failed; success has clocked the whole word in behind whatever the chip held of an unreleased one. |
| `Dac8565.WordOutcome` | crates/oc-drivers/src/dac8565.rs:143-173 | The same of the step on plain values; into a fresh chip the word arrives whole or, on an error, perhaps not at all. |
| `Dac8565.FailuresAreNamed` | crates/oc-drivers/src/dac8565.rs:154-173 | The select's failure is reported first, then the transfer's, then the release's. |
| `Dac8565.FreshCommitOutcome` | crates/oc-drivers/src/dac8565.rs:126-140 | Wherever a commit into a fresh chip stopped, the outputs before the word counted are new, the one at it old or new, the others old; in Simultaneous mode all old, or all new and only if no more than the last word failed. |
| `Dac8565.CommitOutcome` | crates/oc-drivers/src/dac8565.rs:126-140 | Whatever the chip held before, a commit that succeeds leaves nothing stale, and its outputs are at the target exactly when the first word left its channel right. |
| `Dac8565.CommitKeepsAccount` | crates/oc-drivers/src/dac8565.rs:126-140 | A commit, successful or not, keeps the meaning of a clear flag, and one into a fresh chip never spoils outputs that are right. |
| `Dac8565.RunIsAccounted` | crates/oc-drivers/src/dac8565.rs:94-191 | So does any run of levels, recalibrations, mode changes, commits and flushes, over any failures. |
| `Dac8565.ClearFlagShowsIff` | crates/oc-drivers/src/dac8565.rs:94-191 | After any such run in which nobody commits on a clear flag, a clear flag means the outputs are at the staged levels exactly when the commit that cleared it did not lose its first word to a stale one. |
| `Dac8565.ReleasedRunShows` | crates/oc-drivers/src/dac8565.rs:94-191 | While every release works, whatever else fails, a clear flag always means that every output is at its level. |
| `Dac8565.ReleasedRunDrivesLast` | crates/oc-drivers/src/dac8565.rs:94-191 | Hence, from the list of operations alone: a clear flag means each output register holds the code of the last level written to its own channel under the last calibration set on it. |
| `Dac8565.ClearFlagDrivesLastIff` | crates/oc-drivers/src/dac8565.rs:94-191 | And when releases may fail too, exactly if the commit that cleared it left the first channel's code in the register that decides that output. |
| `Dac8565.StuckRunLosesALevel` | crates/oc-drivers/src/dac8565.rs:126-191 | One failed release and a changed level in between make the second of two flushes clear the flag without an error and leave an output where it was, for any calibration that tells the two levels apart. |
| `Dac8565.StuckNominalRun` | crates/oc-drivers/src/dac8565.rs:126-191 | A new driver on the nominal calibration, a failed release and any level but 0 V are such a run. |
| `Dac8565.Dac8565.WriteCv` | crates/oc-drivers/src/dac8565.rs:177-183 | A new level is staged and marks the cache dirty exactly when it differs; what a clear flag means is kept. |
| `Dac8565.Dac8565.SetCalibration` | crates/oc-drivers/src/dac8565.rs:111-114 | A recalibration marks the cache dirty; what a clear flag means is kept. |
| `Dac8565.Dac8565.SetUpdateMode` | crates/oc-drivers/src/dac8565.rs:96-99 | A change of mode marks the cache dirty; what a clear flag means is kept. |
| `Dac8565.WordArrives` | crates/oc-drivers/src/dac8565.rs:143-173 | A fresh chip acts on a word when its last bit is in and not before. |
| `Dac8565.WordDecodes` | crates/oc-drivers/src/dac8565.rs:143-152 | The three bytes sent are, to the chip, that mode, that channel and that code. |
| `Dac8565.SentShape` | crates/oc-drivers/src/dac8565.rs:126-140 | What the chip shows after each word of either sequence, whatever the first one did. |
| `Dac8565.StaleWordLosesTheFirst` | crates/oc-drivers/src/dac8565.rs:143-173 | With a whole stale word in the chip the first word of a commit is ignored, so its success means the target exactly when that output's register already held it. |
| `Dac8565.ModesAgree` | crates/oc-drivers/src/dac8565.rs:126-140 | Both update modes end with the same outputs. |
| `FrameBuffer.FrameBuffer.SetPixel` | crates/oc-core/src/framebuffer.rs:79-90 | Setting a pixel changes that point of the lit set and no other; off-screen points change nothing. |
| `FrameBuffer.FrameBuffer.Pixel` | crates/oc-core/src/framebuffer.rs:93-98 | A pixel reads as its membership in the lit set; off-screen points read dark. |
| `FrameBuffer.FrameBuffer.DrawIter` | crates/oc-core/src/framebuffer.rs:153-161 | Pixels drawn one after another light and darken their points in order, and those off the screen do nothing. |
| `FrameBuffer.FrameBuffer.LitPixels` | crates/oc-core/src/framebuffer.rs:113-115 | The count of one bits over the bytes is the number of lit points. |
| `FrameBuffer.PixelsAreIndependent` | crates/oc-core/src/framebuffer.rs:118-123 | No two points share a byte and bit. |
| `FrameBuffer.OneBitChanged` | crates/oc-core/src/framebuffer.rs:79-90 | Writing one bit of the packed form adds or removes one point of the grid. |
| `FrameBuffer.ByteAddsItsOnes` | crates/oc-core/src/framebuffer.rs:113-115 | A byte's one bits are the lit points of its own column of eight. |
| `Splash.DrawBorder` | crates/oc-core/src/splash.rs:105-136 | The countdown loops light exactly the first min(count, 380) points of the perimeter and nothing else. |
| `Splash.SplashScreen.Render` | crates/oc-core/src/splash.rs:76-93 | On a cleared frame the animation shows the banner's pixels and over them exactly the traced part of the border. |
| `Splash.PerimeterIsClosedPath` | crates/oc-core/src/splash.rs:105-136 | Each point of the perimeter is on the screen's edge and next to its successor, around to the first. |
| `Splash.PerimeterIsInjective` | crates/oc-core/src/splash.rs:105-136 | The perimeter never repeats a point. |
| `Splash.PerimeterIsClockwise` | crates/oc-core/src/splash.rs:102-136 | The path starts in the top left corner and takes the corners clockwise. |
| `Splash.LitIsProportional` | crates/oc-core/src/splash.rs:96-99 | The lit count is 380 times the share of the second and a half that has passed, rounded down. |
| `Splash.AnimationLights` | crates/oc-core/src/splash.rs:96-102 | As many points are lit as the animation asks for, and all of the screen's edge when it is done. |
| `Splash.BorderGrows` | crates/oc-core/src/splash.rs:70-102 | The lit count is monotone in time and reaches 380 exactly when the animation is done. |
| `Ssd130x.Ssd130x.Present` | crates/oc-drivers/src/ssd130x.rs:246-361 | Whatever refreshes failed before, and however far each got, one that ends with no error has sent the refresh stream and the points visible on the panel are those of the framebuffer: always on SH1106, on the others as long as the earlier cuts left them in step. |
| `Ssd130x.Ssd130x.FlushFrame` | crates/oc-drivers/src/ssd130x.rs:246-253 | The controller hears a beginning of the refresh, all of it when nothing fails; the stored frame is unchanged and an asserted chip select was asked to rise either way. |
| `Ssd130x.Ssd130x.SendBytes` | crates/oc-drivers/src/ssd130x.rs:323-342 | One transfer between select and release; on any failure a beginning of the bytes was heard and release was still attempted, and the bus is blamed if it failed, else the pin. |
| `Ssd130x.Ssd130x.WriteChunks` | crates/oc-drivers/src/ssd130x.rs:329-335 | The bytes go out in writes of at most 512, in order, and to the controller are one stream, cut short where a write fails. |
| `Ssd130x.FramesAreTwoWrites` | crates/oc-drivers/src/ssd130x.rs:329-335 | A frame goes out in two writes of 512 bytes, anything up to 512 in one. |
| `Oled.StreamFillsRam` | crates/oc-drivers/src/ssd130x.rs:255-280 | In horizontal addressing a full window's stream lands byte for byte in display memory. |
| `Oled.StreamFillsPage` | crates/oc-drivers/src/ssd130x.rs:283-303 | In page addressing a page's stream lands from the controller's column offset on. |
| `Oled.RefreshShowsFrame` | crates/oc-drivers/src/ssd130x.rs:246-303 | On all three controllers, between commands and not scrolled, a whole refresh makes the visible points those of the framebuffer. |
| `Oled.RefreshShowsIff` | crates/oc-drivers/src/ssd130x.rs:246-303 | From any state every refresh shows what it is given exactly when the controller is not scrolled and, where commands take arguments, is waiting for none. |
| `Oled.RunStaysAlignedIff` | crates/oc-drivers/src/ssd130x.rs:246-303 | After any run of refreshes, each cut short anywhere, SH1106 is in that state, and the others exactly under a condition on how many bytes of each were heard. |
| `Oled.PanelRecoversIff` | crates/oc-drivers/src/ssd130x.rs:246-303 | So the panel recovers from any such run exactly under that condition. |
| `Oled.CleanCutsAreIntact` | crates/oc-drivers/src/ssd130x.rs:255-280 | Refreshes cut between commands, or in their data, meet it. |
| `Oled.CutCommandLosesThePanel` | crates/oc-drivers/src/ssd130x.rs:255-280 | On SSD1306 and SSD1309, one refresh cut inside a command and one that then gets through its commands leave the panel scrolled, whatever refreshes follow. |
| `ElfGate.ValidateImage` | xtask/src/validate.rs:184-219 | For every byte string and word size: accepted exactly if the image is flashable; the accepted facts are its headers', the loadable size the PT_LOAD sum; a refusal is never empty. |
| `ElfGate.VerdictIsFlashable` | xtask/src/validate.rs:184-219 | No rejection is collected exactly when the independent statement of a flashable image holds. |
| `ElfGate.StructureIsSound` | xtask/src/validate.rs:483-650 | The header, program header and coverage checks together reject nothing exactly when header and segments are sound. |
| `ElfGate.WalkProgramHeaders` | xtask/src/validate.rs:483-556 | The walk collects each segment's rejections in order and the loadable sum, with no read out of range and no overflow for any word size. |
| `ElfGate.WalkRejectionsSound` | xtask/src/validate.rs:483-600 | The walk rejects nothing exactly when every program header is in the file and one at the flash base holds a genuine configuration block. |
| `ElfGate.CheckLoadableCoverage` | xtask/src/validate.rs:602-635 | The three conclusions, the missing block reported only when no other rejection mentions it. |
| `ElfGate.CoverageIsSound` | xtask/src/validate.rs:602-635 | On sound segments the conclusions are the flash budget and a configuration block for any image that loads something. |
| `ElfGate.LocateVectorTable` | xtask/src/validate.rs:806-905 | The vectors are those of the lowest-index readable section named `.vector_table`, or the reason there are none. |
| `ElfGate.FirstVectorTable` | xtask/src/validate.rs:806-905 | The section found is readable, has that name, and no earlier one has. |
| `ElfGate.ReadCString` | xtask/src/validate.rs:909-916 | The bytes from an offset up to the first zero, or to the end when there is none; nothing when the offset is outside or they are not UTF-8. |
| `ElfGate.NameIsReadIff` | xtask/src/validate.rs:871-876 | An ASCII name is read exactly where its bytes stand, ended by a zero or by the table's end. |
| `ElfReasons.EveryReasonIsListedIff` | xtask/src/validate.rs:184-706 | Whatever else is wrong, each of the reasons to refuse an image, by segment number where it has one, is listed exactly when its own condition holds. |
| `ElfRecords.HeaderIsRead` | xtask/src/validate.rs:290-408 | The file header is read field by field from an `Elf32_Ehdr` laid out least significant byte first, whatever follows it. |
| `ElfRecords.SegmentIsRead` | xtask/src/validate.rs:533-536 | A program header is read as the type, offset, physical address and file size of the `Elf32_Phdr` at its place in the table. |
| `ElfRecords.FlashableRecords` | xtask/src/validate.rs:184-650 | The verdict and the loadable size in terms of the records: the header's values, the file sizes of the loadable segments, and the FCFB tag where one maps the start of flash. |
| `ElfRecords.SectionNamesAreRead` | xtask/src/validate.rs:820-862 | The table of names is the extent of the section the header points at, if it is in the file. |
| `ElfRecords.NamesAreReadIff` | xtask/src/validate.rs:811-850 | And each reason for having none. |
| `ElfRecords.VectorsAreFound` | xtask/src/validate.rs:863-905 | The stack pointer and reset handler judged and reported are the first two words of the first section with that name. |
| `ElfRecords.NoVectorsAreFound` | xtask/src/validate.rs:863-905 | There are none when no section has it. |
| `ElfRecords.VectorsAreJudged` | xtask/src/validate.rs:654-769 | They pass exactly when both lie in one of the chip's memories, whatever the Thumb bit. |
| `ElfRecords.FlagsAreWarnedAbout` | xtask/src/validate.rs:447-468 | The warnings from the top byte and bit 10 of the flags. |
| `Utf8.Utf8Iff` | xtask/src/validate.rs:909-916 | A name is accepted as UTF-8 exactly when it is the encoding of some text. |
| `ElfGate.FlashableCarriesFcbIff` | xtask/src/validate.rs:602-635 | An accepted image has a genuine configuration block at the flash base exactly when it has a PT_LOAD segment. |
| `ElfGate.NothingToLoadIsFlashable` | xtask/src/validate.rs:602-650 | A concrete image with one program header of no kind is accepted and has no configuration block. |
| `Scenario.Scenario.Push` | crates/oc-sim/src/scenario.rs:202-206 | The event goes after every event no later than it, and the run covers it; the list stays sorted. |
| `Scenario.Scenario.PartitionPoint` | crates/oc-sim/src/scenario.rs:202-206 | The binary search finds how many leading events are no later than the tick. |
| `Scenario.Scenario.EventsAt` | crates/oc-sim/src/scenario.rs:209-214 | Exactly the events of one tick, in list order. |
| `Scenario.InsertAppendsAt` | crates/oc-sim/src/scenario.rs:202-206 | A push is appended to its own tick's events and changes no other tick's. |
| `Scenario.PushesSortStably` | crates/oc-sim/src/scenario.rs:202-214 | Any sequence of pushes leaves a sorted list whose events at each tick are the pushed ones in push order, and a length that is the maximum of the start and every tick plus one. |
| `Scenario.SortedListIsDetermined` | crates/oc-sim/src/scenario.rs:202-214 | Those facts leave one list, so it is the stable sort. |
| `ScenarioText.RoundTrip` | crates/oc-sim/src/scenario.rs:217-269 | Parsing the printed text returns the scenario, order among equal ticks included, exactly when the scenario is well formed. |
| `ScenarioText.EventRoundTrip` | crates/oc-sim/src/scenario.rs:112-179 | An event's printed words parse back to it when its channel exists, and to the out-of-range error when it does not. |
| `ScenarioText.PrintedTextRereads` | crates/oc-sim/src/scenario.rs:217-248 | The printed text of any scenario reads as its ticks line and then its events pushed in order. |
| `ScenarioText.ReadingIsOrdered` | crates/oc-sim/src/scenario.rs:233-269 | Whatever text is read, the resulting list is sorted and addresses only what the module has. |
| `ScenarioText.ReadingReaches` | crates/oc-sim/src/scenario.rs:233-269 | The length that comes out is the last ticks line's, stretched by the event lines after it; the events reach exactly as far as the farthest event line. |
| `ScenarioText.ParsedIsWellFormedIff` | crates/oc-sim/src/scenario.rs:233-269 | A text that parses gives ordered events in range, and a scenario that survives being printed exactly when the length its lines come to is no less than how far its event lines reach. |
| `ScenarioText.TicksLineCanLower` | crates/oc-sim/src/scenario.rs:251-269 | A ticks line after an event can leave a scenario that is not well formed. |
| `ScenarioText.FromStr` | crates/oc-sim/src/scenario.rs:233-248 | The line loop computes the reading of the text: the scenario, the first error with its line number, or the overflow panic. |
| `ScenarioForms.LayoutDoesNotMatter` | crates/oc-sim/src/scenario.rs:233-258 | A text reads as the words on its lines do: no whitespace around them and no comment behind them matters. |
| `ScenarioForms.OnlyWordsMatter` | crates/oc-sim/src/scenario.rs:233-248 | Two texts with the same words on the same lines, blank lines and comments left out, read as the same scenario or fail the same way but for the line number. |
| `ScenarioForms.ErrorNamesItsLine` | crates/oc-sim/src/scenario.rs:233-248 | The first wrong line is the one reported, by its number from one, and what follows is not looked at. |
| `ScenarioForms.TrailingCommentKeepsTheEvent` | crates/oc-sim/src/scenario.rs:237 | An event with any comment behind it reads as the event. |
| `ScenarioForms.StatesAreSpelt` | crates/oc-sim/src/scenario.rs:102-108 | The five spellings of each state, and no others. |
| `ScenarioForms.StatesAreInterchangeable` | crates/oc-sim/src/scenario.rs:142-179 | Any of them will do in any event that has a state. |
| `ScenarioForms.NumbersAreSpelt` | crates/oc-sim/src/scenario.rs:112-139 | The words level and encoder events are printed with. |
| `ScenarioForms.SwitchesAreSpelt` | crates/oc-sim/src/scenario.rs:112-139 | Those of patch and trigger events. |
| `ScenarioForms.PressesAreSpelt` | crates/oc-sim/src/scenario.rs:73-139 | Those of button events and the reset. |
| `ScenarioForms.EventsAreRead` | crates/oc-sim/src/scenario.rs:91-179 | What a level or encoder event with any words is read as, or refused for, the channel first. |
| `ScenarioForms.SwitchesAreRead` | crates/oc-sim/src/scenario.rs:91-179 | The same for patch and trigger events. |
| `ScenarioForms.LinesAreRead` | crates/oc-sim/src/scenario.rs:251-269 | What is wrong with a line's numbers is said, and what a ticks line sets. |
| `ScenarioForms.NothingElseIsRead` | crates/oc-sim/src/scenario.rs:142-179 | No other words are an event. |
| `ScenarioText.ParseLine` | crates/oc-sim/src/scenario.rs:251-269 | One line's effect on the scenario, in place, with its error cases. |
| `Text.DecimalRoundTrip` | crates/oc-sim/src/scenario.rs:112-139 | Printed decimals read back as the number. |
| `Text.SignedRoundTrip` | crates/oc-sim/src/scenario.rs:142-179 | Signed and explicitly signed numbers parse back within their type. |
| `Text.IntegerSpellings` | crates/oc-sim/src/scenario.rs:142-179 | Digits are read with or without a sign as far as the type goes, a minus only where it has negative numbers. |
| `Text.NotANumber` | crates/oc-sim/src/scenario.rs:142-179 | Nothing else is a number. |
| `Text.SpreadIsRead` | crates/oc-sim/src/scenario.rs:251-254 | However words are spread out with whitespace, the tokens are the words. |
| `Text.CommentIsCut` | crates/oc-sim/src/scenario.rs:237 | What stands before the first `#` is all that is left of a line. |
| `Text.TrimmedIs` | crates/oc-sim/src/scenario.rs:237 | Trimming takes the whitespace off both ends and nothing else. |
| `Text.ReturnIsDropped` | crates/oc-sim/src/scenario.rs:236 | A carriage return before a newline belongs to neither line. |
| `Applets.DiagnosticApp.Update` | crates/oc-core/src/apps/diagnostic.rs:133-217 | One update: detectors, trigger counters, controls in panel order, ramp, outputs. |
| `Applets.ScopeApp.Update` | crates/oc-core/src/apps/scope.rs:74-97 | One update: the due rows pushed into the ring, the rest of the time kept. |
| `Applets.AppHost.Update` | crates/oc-core/src/apps/mod.rs:159-164 | Only the current applet is run; the other's state is untouched. |
| `Applets.HostNext` | crates/oc-core/src/apps/mod.rs:154-164 | A host tick keeps the outputs in range, reports the running applet's, and leaves the other applet as it was. |
| `AppletRuns.PushSlides` | crates/oc-core/src/apps/scope.rs:93-111 | Pushing into a ring that shows the last rows of a history shows the last rows of the longer history. |
| `AppletRuns.ScopeShowsLastRows` | crates/oc-core/src/apps/scope.rs:74-97 | After any history the ring holds, in order, the last min(128, recorded) rows. |
| `AppletRuns.ScopeDrawsLastRows` | crates/oc-core/src/apps/scope.rs:100-111 | Column for column the plot is those rows, oldest first, and empty to their right. |
| `AppletRuns.ScopeKeepsTime` | crates/oc-core/src/apps/scope.rs:74-90 | Under the engine's one-second clamp, 8000 times the rows recorded plus the accumulator is the time fed. |
| `AppletRuns.TimeIsKeptIff` | crates/oc-core/src/apps/scope.rs:74-90 | Over any history at all, 8000 times the rows recorded plus the accumulator is at most the time fed, and equal to it exactly when no update ever had 129 rows or more due. |
| `AppletRuns.RowsFollowLevels` | crates/oc-core/src/apps/scope.rs:160-172 | Higher levels are drawn higher, and the range's ends at the plot's edges. |
| `AppletRuns.SelectionIsNetTurns` | crates/oc-core/src/apps/diagnostic.rs:150-158 | The selected channel is the net travel of the left encoder around the channels. |
| `AppletRuns.ModeIsNetPresses` | crates/oc-core/src/apps/diagnostic.rs:165-180 | The output mode is the presses of up less those of down, around the three modes. |
| `AppletRuns.PressesAreCounted` | crates/oc-core/src/apps/diagnostic.rs:165-169 | Each button's count is the number of its presses, saturating. |
| `AppletRuns.OffsetIsHeldBetweenEnds` | crates/oc-core/src/apps/diagnostic.rs:159-178 | Over any history the offset is 100 mV per net detent of the right encoder since its switch last zeroed it, clamped between where that history would have carried the two ends of the range. |
| `AppletRuns.OffsetIsDialled` | crates/oc-core/src/apps/diagnostic.rs:159-178 | So it is exactly that level while it has stayed in range since the switch last zeroed it. |
| `AppletRuns.TriggerCountsSinceReset` | crates/oc-core/src/apps/diagnostic.rs:139-177 | Each trigger's count is the rising edges of its own debounced history since the left encoder's switch was last pressed, saturating. |
| `AppletRuns.SilenceKeepsDials` | crates/oc-core/src/apps/mod.rs:54-60 | A silenced snapshot changes nothing that was dialled in. |
| `AppletRuns.RampIsShiftedSaw` | crates/oc-core/src/apps/diagnostic.rs:210-217 | Each channel's ramp is the first one's a quarter period on, rising through the output range. |
| `AppletRuns.TriggersAreDebounced` | crates/oc-core/src/apps/diagnostic.rs:139-141 | Each trigger's debounced level is that of its own raw history, whatever resets its count. |
| `Outputs.DrivesWhatIsDialled` | crates/oc-core/src/apps/diagnostic.rs:133-217 | Over any history each output is what net presses, net turns, the time and its own jack make of it: the held offset on the selected channel and the jacks, clamped, on the others; a ramp; or zero. |
| `Outputs.RampIsProportional` | crates/oc-core/src/apps/diagnostic.rs:210-217 | A ramp's level is -3 V plus 9 V times the share of its period that has passed, rounded down. |
| `Outputs.SpanIsOfLastBlock` | crates/oc-core/src/signal.rs:50-70 | A detector's span is the excursion of the last whole block of 256 samples, its level the latest. |
| `Outputs.DetectorsWatchTheirJacks` | crates/oc-core/src/apps/diagnostic.rs:133-138 | Each detector watches its own jack, and the patch indicators are the latest. |
| `Outputs.ScopeFollowsTheFirstJack` | crates/oc-core/src/apps/scope.rs:74-78 | The scope shows the first jack and drives it, clamped, on all four outputs. |
| `Outputs.RowIsProportional` | crates/oc-core/src/apps/scope.rs:160-172 | A level's row is its share of the output range from the top, times 47, rounded down. |
| `Menu.Menu.Update` | crates/oc-core/src/menu.rs:101-115 | The highlight moves by the net steps around the apps, and a launch names the highlighted one after the move. |
| `Engine.Engine.Tick` | crates/oc-core/src/engine.rs:150-209 | The whole tick, in place: the engine's and the platform's new state and the report are the specified ones. |
| `Engine.Engine.TickSplash` | crates/oc-core/src/engine.rs:218-245 | A splash tick drains the panel, drives zeros and always draws. |
| `Engine.Engine.RoutePanel` | crates/oc-core/src/engine.rs:282-303 | What a tick's panel input does to the screen, the highlight and the running app: a chord excludes navigating. |
| `Engine.Engine.Acquire` | crates/oc-core/src/engine.rs:306-327 | Every input is sampled once, movement is consumed, the buttons are read through the debouncers. |
| `Engine.Engine.Reset` | crates/oc-core/src/engine.rs:255-266 | Everything but the render interval and the platform returns to power-on. |
| `Engine.Engine.SetRenderInterval` | crates/oc-core/src/engine.rs:132-135 | The interval is at least one and counting restarts. |
| `Testing.MockPlatform.DriveOutputs` | crates/oc-core/src/engine.rs:178-183 | Staging channel by channel and flushing once commits all four levels together. |
| `EngineRuns.OutputsStayInRange` | crates/oc-core/src/engine.rs:150-245 | After every tick of every run the committed levels are within -3 V to 6 V and the flushes number the ticks, whatever the world does in between and however the engine is reset, re-timed or taken past its splash. |
| `EngineRuns.TickDrives` | crates/oc-core/src/engine.rs:150-245 | Every tick commits exactly the levels it reports, with one flush and times of at most a second. |
| `Outputs.DiagnosticTickDrives` | crates/oc-core/src/engine.rs:164-183 | On every tick of every run that runs it, the diagnostic applet drives what its dials, its running time and the jacks sensed then make of the outputs. |
| `Outputs.ScopeTickDrives` | crates/oc-core/src/engine.rs:164-183 | On every tick that runs the scope all four outputs are the first jack's level, clamped. |
| `Outputs.ReportsTellTheTime` | crates/oc-core/src/engine.rs:150-209 | Each report has its tick's start, its duration and the time since the tick before, up to a second, and its number. |
| `Outputs.PicturesAreOfTheScreen` | crates/oc-core/src/engine.rs:185-200 | What a tick draws: the animation, the menu, or the running app as the tick leaves it with the duration of the tick before. |
| `EngineRuns.SplashLastsItsTime` | crates/oc-core/src/engine.rs:156-162 | The splash is up exactly until the time told reaches 1.5 s, with frozen applets. |
| `EngineRuns.SplashDrivesNothing` | crates/oc-core/src/engine.rs:218-245 | Every splash tick drives zeros, the last one included, and leaves the applets as they were. |
| `EngineRuns.SplashEndsAsSkipped` | crates/oc-core/src/engine.rs:266-275 | The tick that brings the splash down leaves the screen, applets and menu that skipping it would have left. |
| `EngineRuns.MenuDisturbsNothing` | crates/oc-core/src/engine.rs:164-174 | Over any stretch of ticks that end with the menu up, applets and outputs are those of the same host with no panel. |
| `EngineRuns.MenuHidesThePanel` | crates/oc-core/src/engine.rs:164-174 | Two panels operated in any two ways that keep the menu up cannot be told apart by the applets or at the outputs. |
| `EngineRuns.HighlightIsNetSteps` | crates/oc-core/src/menu.rs:86-115 | While the menu stays up the highlight is the opening one moved by the net steps around the apps, and the running app stays. |
| `EngineRuns.OnlyALaunchChangesTheApp` | crates/oc-core/src/engine.rs:282-303 | A launch, and nothing else, changes the running app, to the highlighted one; which screen follows, in every case. |
| `EngineRuns.NoLaunchNoChange` | crates/oc-core/src/engine.rs:282-303 | Over any stretch without a launch the running app is the same. |
| `EngineRuns.AppletSeesPanelUnlessMenuEndsUp` | crates/oc-core/src/engine.rs:164-174 | The applet is shown the panel on exactly the ticks that end with the menu down, the closing tick included. |
| `EngineRuns.LaunchingPressReachesTheApplet` | crates/oc-core/src/apps/diagnostic.rs:178 | Launching the diagnostic applet with the right encoder's switch always zeroes its offset. |
| `EngineRuns.IdleAppletIsFrozen` | crates/oc-core/src/apps/mod.rs:154-164 | Over any run, an applet that is never the running one is left exactly as it was. |
| `EngineRuns.PhaseIsRunningTime` | crates/oc-core/src/apps/diagnostic.rs:184-187 | The ramp's phase is the time the diagnostic applet has run, modulo two seconds. |
| `EngineRuns.ScopeTimeIsRunningTime` | crates/oc-core/src/engine.rs:398-402 | In the engine the scope records one row per 8 ms it has run and never loses time to its cap. |
| `EngineRuns.RendersEveryInterval` | crates/oc-core/src/engine.rs:185-200 | From a zero counter, n ticks after the splash draw floor(n/interval) frames. |
| `Simulator.Simulator.Apply` | crates/oc-sim/src/simulator.rs:114-151 | One input change recorded at the current tick and applied; one that addresses nothing changes nothing; a reset also clears the holds. |
| `Simulator.Simulator.Press` | crates/oc-sim/src/simulator.rs:154-157 | The press is applied and its hold started. |
| `Simulator.Simulator.Chord` | crates/oc-sim/src/simulator.rs:163-166 | Up and down pressed in the same tick. |
| `Simulator.Simulator.Pulse` | crates/oc-sim/src/simulator.rs:169-175 | The trigger is raised and its hold started. |
| `Simulator.Simulator.Step` | crates/oc-sim/src/simulator.rs:178-185 | Time advances, the engine ticks, the counter moves, wrapping, and holds expire after it; the one panic is recording a release on the very last tick. |
| `Simulator.Simulator.ExpireHolds` | crates/oc-sim/src/simulator.rs:195-223 | Every hold counts down and the releases are applied, buttons before triggers, in order. |
| `Simulator.Simulator.StopRecording` | crates/oc-sim/src/simulator.rs:101-105 | The recording covers every tick run, and recording ends. |
| `Simulator.Simulator.Replay` | crates/oc-sim/src/simulator.rs:229-239 | Each tick's events in order, then the tick, for the scenario's length, by which the tick counter has then advanced; in a debug build the check at the end panics exactly when the tick it expects does not fit, and otherwise holds. |
| `Simulation.ShortSessionsComplete` | crates/oc-sim/src/simulator.rs:96-239 | No session panics without a recording, nor with one that ends before the counter's last tick. |
| `Sessions.SessionSetsTheInputs` | crates/oc-sim/src/simulator.rs:114-185 | After any session each jack's level and patch are those last set on it, and each encoder waits with the saturating sum of its turns since the last tick; nothing else touches them. |
| `Sessions.StartsFromNothing` | crates/oc-sim/src/simulator.rs:62-76 | A new simulator has nothing patched, held, waiting or recorded, every level zero, and draws every tick. |
| `Sessions.ResetIsPowerOn` | crates/oc-sim/src/simulator.rs:119-125 | A reset keeps all of that and returns the engine to power-on but for its render interval. |
| `Sessions.TickShowsTheJacks` | crates/oc-core/src/engine.rs:306-327 | A tick shows the running applet the module's own levels, patches and triggers, each in its place. |
| `Sessions.TickDrivesTheOutputs` | crates/oc-sim/src/simulator.rs:178-185 | And commits what its app makes of those levels, zeros under the splash. |
| `Sessions.JacksReachTheOutputs` | crates/oc-sim/src/simulator.rs:114-185 | At the end of any session an output that passes its jack on is at the level that jack was last given, clamped. |
| `Sessions.TickIsShown` | crates/oc-core/src/engine.rs:185-200 | A tick that draws puts its picture on the display and any other leaves it. |
| `Replay.RecordThenReplay` | crates/oc-sim/src/simulator.rs:96-239 | For any session of up to 2^64-1 ticks that does not panic: after its number of ticks and the events stamped with it, the replayed module is exactly the session's; the replay ends there or, exactly when an event followed the last tick, one tick later. |
| `Replay.FreshSessionReplays` | crates/oc-sim/src/simulator.rs:62-239 | The same for a freshly started simulator against another. |
| `Replay.RecordingKeepsOrder` | crates/oc-sim/src/simulator.rs:114-117 | The recording lists the session's changes in the order applied, and is well formed exactly when every event addressed something. |
| `Replay.SavedSessionReplays` | crates/oc-sim/src/scenario.rs:217-269 | Printed, parsed and replayed, such a recording still reproduces the session. |
| `Replay.WrappedSessionIsLost` | crates/oc-sim/src/simulator.rs:96-239 | The bound is tight: a session of 2^64 steps is recorded as an empty one and does not replay to where it ended. |
| `Replay.RecoveredIffNumbered` | crates/oc-sim/src/simulator.rs:96-239 | And it is one no session escapes: for a module that counts its ticks, the replay of a recording comes by where its session ended exactly when the session has at most 2^64-1 ticks. |
| `Presses.PressLastsItsTicks` | crates/oc-sim/src/simulator.rs:154-210 | A momentary press keeps its button down, and a pulse its trigger high, for exactly six ticks, recorded or not and whatever else is held. |
| `Presses.PressReportsOnce` | crates/oc-sim/src/simulator.rs:32-37 | From rest, the button reader reports a press on exactly one tick, the third for the encoder switches and the ninth for up and down, so within `SETTLE_TICKS`, and nothing else on any. |
| `Presses.ChordReportsOnce` | crates/oc-sim/src/simulator.rs:163-166 | From rest, the chord is reported on its third tick and no other, and never as a press of either button. |
| `Presses.ResetKeepsLevels` | crates/oc-sim/src/simulator.rs:119-125 | Any number of ticks after a reset, a button or trigger is where the reset found it. |
| `Presses.ResetStrandsIff` | crates/oc-sim/src/simulator.rs:119-125 | A reset `k` ticks after a press or pulse leaves it down for good exactly when `k` is less than six. |
| `Actions.TickActs` | crates/oc-core/src/engine.rs:150-174 | What one tick makes of movement, button actions and the chord: nothing under the splash, the running applet's controls, or the menu's highlight, launch and closing. |
| `Actions.SplashIsTimed` | crates/oc-core/src/engine.rs:156-162 | Any number of ticks after a press, the splash is up exactly when the time told by then, computed from the clock at the press, is under 1.5 s. |
| `Actions.PressFiresUnlessBooting` | crates/oc-sim/src/simulator.rs:32-37 | From rest and with the menu down, a press does its button's action to the diagnostic applet's controls once, on the tick it is reported, if that applet is running and the boot animation is over by then; otherwise it does nothing, and it never opens the menu or changes the app. |
| `Actions.PressCountsUnlessBooting` | crates/oc-sim/src/simulator.rs:32-37 | So after any number of ticks the press has been counted exactly when its tick has passed and found the animation over, and no other button's count moves. |
| `Actions.FreshPressIsLost` | crates/oc-sim/src/simulator.rs:62-76 | A press on a simulator that has just been started never does anything. |
| `Actions.BootingTakes` | crates/oc-sim/src/simulator.rs:62-76 | That simulator is through its boot animation after 1211 ticks. |
| `Actions.PressPicks` | crates/oc-core/src/engine.rs:282-303 | From rest and with the menu up, up and down move the highlight by one on their tick, an encoder switch runs the highlighted app and closes the menu, and only a diagnostic applet launched so sees the press. |
| `Actions.ChordTogglesTheMenu` | crates/oc-sim/src/simulator.rs:159-166 | From rest, the chord opens the menu on the running app, or closes it, on its third tick and once; under the boot animation it is lost. |
| `Fmt.TextBuf.WriteStr` | crates/oc-core/src/fmt.rs:55-68 | Characters are appended until the first that does not fit. |
| `Fmt.CharactersAreEncoded` | crates/oc-core/src/fmt.rs:55-68 | Every character's length is told by the first byte of its encoding. |
| `Fmt.BufferHoldsWhatFitsIff` | crates/oc-core/src/fmt.rs:55-68 | The buffer holds the first bytes of everything written, as many as fit, exactly when all of it fits or a character ends at the capacity. |
| `Fmt.AsciiIsNeverMisplaced` | crates/oc-core/src/fmt.rs:55-68 | ASCII writes always leave the first min(capacity, total) bytes. |
| `Fmt.DroppedCharacterIsSkipped` | crates/oc-core/src/fmt.rs:55-68 | A dropped wide character can be followed by a shorter one. |
| `Fmt.WriteVolts` | crates/oc-core/src/fmt.rs:80-92 | The pieces written one by one are the signed text. |
| `Fmt.VoltsReadBack` | crates/oc-core/src/fmt.rs:80-92 | Read back as a signed decimal of one to three places, as asked for, the text is within half a displayed unit of the level, and exact at three; its sign is the level's own. |

## Left out

- Text and shapes drawn through the graphics library: a picture is modelled as the values its drawing code reads (`Ticks.Picture`), and only the border and the pixel operations are modelled as pixels.
- Splash.SplashScreen.Render: the pixels of the banner are a parameter; which ones the name and version come to is the graphics library's.
- Dac8565.Dac8565.WriteWord: while a failed release leaves the chip selected, the display's traffic on the shared bus is not clocked into it.
- Dac8565.ClearFlagShowsIff: a `commit` called on a clear flag that fails leaves the flag clear; what the outputs then are is not stated unless releases work, where `Dac8565.ReleasedRunShows` covers it. `flush` never commits on a clear flag.
- Ssd130x.Ssd130x.Present: the driver takes over a controller set up as the initialisation leaves it; the initialisation sequence and its delays are not modelled, nor the DAC's traffic while a failed release leaves the panel selected. That a half-sent command survives the release of the chip select is an assumption; that 0x40 to 0x7F set the start line is from the SSD1306 data sheet, section 10.1.6. A write can stop only between bytes.
- Skipping the boot animation from the simulator, which a recording does not capture.
- The image's SHA-256 digest, the wording of rejections and the target path check.
- The signal detector's own update is modelled on values inside the diagnostic applet's state, not as an object.
- The four mock devices of the in-memory platform are one object, and each clock reading costs the same time.
- The firmware's register access, pins, USB, the 32-bit clock fold, the shared bus and the trigger inputs driver.
- The terminal interface, the braille renderer, the VCV Rack bindings, and the build, flash and size-check commands.
