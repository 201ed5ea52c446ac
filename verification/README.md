# Verification model of the Modbus telemetry gateway

The gateway polls Modbus devices, averages readings over wall-clock windows, publishes each
device's averages to an MQTT broker as a SenML pack, and keeps a small status file up to date.
It is made of tasks joined by bounded channels. This project models those tasks and proves what
they promise over whole runs.

| File | Part of the gateway | Form |
|---|---|---|
| `Types.dfy`, `Schema.dfy` | values passed between tasks, parsed config | datatypes |
| `Validate.dfy`, `ValidateOrder.dfy` | config validation | nested loops against the declarative `Acceptable`, and which defect is reported |
| `Decode.dfy`, `DecodeInverse.dfy` | register decoding | functions, with the register image as the inverse |
| `Backoff.dfy`, `Supervisor.dfy`, `Poller.dfy`, `PollMeaning.dfy` | connection tasks | a class, loops over scripts of outcomes, and what they put out in terms of the block results alone |
| `Aggregator.dfy`, `Wiring.dfy` | windowed averages | a class, refined to the list of readings of the window; pollers and aggregator name points alike |
| `Senml.dfy` | SenML packs | loops, with resolution by RFC 8428 as the inverse |
| `Status.dfy`, `StatusHistory.dfy`, `SelfCorrection.dfy` | state behind the status file | a class, and folds over event histories |
| `StatusText.dfy`, `StatusReader.dfy`, `Utf8.dfy` | text of the status file and its cap | loops, a reader as the inverse, and UTF-8 by RFC 3629 |
| `StatusWriter.dfy` | debounced and heartbeat-driven writes | a class, over all schedules |
| `Pipeline.dfy`, `Traffic.dfy`, `Shutdown.dfy` | all tasks and channels together | a transition system, one action per step between two awaits; an observer's account of its runs; how runs end |

`dafny verify dfyconfig.toml` checks everything.

Conventions. Time is in nanoseconds. In `StatusWriter.dfy` a timer that is due fires before time
passes it; in `Pipeline.dfy` window and reconnect timers may be late by any amount, and only the
grace timer of the shutdown is served in time. The wall clock is taken to keep its offset to the
monotonic clock (`Conf.offset`), so "on the wall clock" does not cover clock steps. `f64` is `real`; the 32 bits of a float register go through a function parameter about which nothing is
known. A hash map is a `map` whose entries are visited in arbitrary order. Widths that matter are
explicit: registers and offsets are 16-bit, the sample counter is 32-bit and wraps. What a network
peer, the clock or a full channel does is an input, quantified over. In `Pipeline.dfy` the field
`log` records what happened; no action depends on it. `Traffic.Notes` records it a second time, from
the actions and the states they are taken in alone, and `Traffic.RunTold` says that both agree.
Statements use the source's numbers (1024, 64, 100, 125, 2048 and so on), not the constants defined from them.

Where documentation and code differ, the model follows the code:

- `config.example.toml:171-173` says a maximum below the minimum caps every retry delay. The first
  delay is the uncapped minimum (`src/modbus/poller.rs:25-37`); `Backoffs.CappedExactlyWhenOrdered`
  says exactly when the capped form holds.
- `design.md:182` limits `start + count` to 125; `src/config/validate.rs:178` limits `count`, for
  the reason its comment gives.
- `design.md:115` calls the debounce the minimum gap between writes triggered by a state change.
  Writes the timer makes for a change do keep it (`StatusWriter.TimerCause`); the write at close does
  not wait for it. Counting heartbeat writes too, the debounce separates all timed writes iff it is
  no longer than the heartbeat (`StatusWriter.DebounceIsMinimumGap`).
- `config.example.toml:58` allows a debounce of zero, and `:63-64` notes that a heartbeat of zero is
  not rejected. Elapsed time bounds the number of writes iff neither is zero
  (`StatusWriter.RateBoundedExactly`).
- `src/aggregator.rs:135` drops a point whose count is zero, as its comment says, and `:138` divides
  by the count. The count has 32 bits and wraps in a release build (a debug build panics instead), so
  a point is also dropped after a multiple of 2^32 samples, and beyond 2^32 samples what is published
  is not their mean unless they add up to zero (`Aggregator.PublishedWhenSampled`,
  `Aggregator.PublishedMean`).
- `src/status.rs:20-22` says a dropped event is corrected on the next tick. That holds for device
  results and for a connection that is up and has devices (`SelfCorrection.OneTickCorrects`), though
  not for a device whose id an earlier one has (`SelfCorrection.AllCorrectExactly`). A lost
  ConnectionDown is repeated by the next failed attempt (`SelfCorrection.RefusalCorrects`), a lost
  MqttDisconnected too, but MqttConnected is reported once a connect (`src/mqtt.rs:176-179`), so
  losing it leaves the file wrong until the next MQTT event (`SelfCorrection.MqttFollowsLatest`).
- Validation accepts a config without connections (`src/config/validate.rs:120`), but the gateway
  then fails by itself, because nobody holds the reading channel open
  (`Shutdown.FailsOnlyWithoutConnections`).

## Model

| member | source | states |
|---|---|---|
| Validate.Validate | src/config/validate.rs:94-226 | the nested loops with early returns accept a config iff it meets the declarative predicate `Acceptable`, report the error the fixed order of checks puts first, and report only real defects |
| Validate.ValidateConnection | src/config/validate.rs:120-221 | one connection's checks, in order, with the map of serial ports seen so far |
| Validate.ValidateBlock | src/config/validate.rs:170-219 | count cap, then bounds point by point, then sort and compare neighbours; the 16-bit sum of offset and width does not overflow |
| Validate.AcceptsExactlyTheAcceptable | src/config/validate.rs:94-226 | no error iff every interval is nonzero, unit ids and serial ports are unique, serial settings are supported and all blocks are well laid out; an error always names a real defect |
| Validate.JustifiedMeansUnacceptable | src/config/validate.rs:20-92 | every kind of error describes a defect that no acceptable config has |
| Validate.BlockCheck | src/config/validate.rs:178-218 | a block passes iff count <= 125, all points are in bounds and pairwise disjoint |
| Validate.SortedCheckIsPairwise | src/config/validate.rs:205-218 | sorting by offset and comparing neighbours is the same as comparing every pair, and the pair reported is two different points that overlap |
| Validate.AdjacentIsPairwise | src/config/validate.rs:206-218 | on any sorted list, neighbours suffice, and the first failing neighbours are the ones reported |
| Validate.SortKeepsContents | src/config/validate.rs:205 | sorting permutes the points |
| Validate.SortSorts | src/config/validate.rs:205 | sorting orders them by offset |
| Validate.SortKeepsApart | src/config/validate.rs:205 | whether points are pairwise disjoint does not depend on their order |
| Validate.UnitIdsCheck | src/config/validate.rs:127-135 | the scan with a set of seen ids lets a device list pass iff all unit ids differ, and otherwise names an id that occurs twice |
| Validate.WidthsFit | src/config/validate.rs:178-202 | the points of an accepted block occupy at most `count`, so at most 125, registers |
| ValidateOrder.FirstDefectWins | src/config/validate.rs:94-226 | of several defects the first is reported: gateway settings, then connections in order, the CA certificate last |
| ValidateOrder.ConnectionFirst | src/config/validate.rs:121-219 | within a connection: interval, first repeated unit id, data bits, stop bits, serial port, then blocks |
| ValidateOrder.DevicesFirst | src/config/validate.rs:170-219 | the block reported is the first bad one, in the order of devices and blocks |
| ValidateOrder.UnitsFirst | src/config/validate.rs:127-135 | the unit id reported is that of the first device that repeats one |
| ValidateOrder.BlockFirst | src/config/validate.rs:178-218 | within a block: size over 125, then the first point out of bounds, and an overlap only if all points are in bounds |
| DecodeInverse.DecodeInvertsImage | src/modbus/decode.rs:3-38 | round trip on every accepted block: writing any in-range raw value at every point, over any background, gives for each point, in order, its name and its raw value times its scale, or that product's magnitude if it is flagged absolute |
| DecodeInverse.ScaledShows | src/modbus/decode.rs:9-12 | scale and absolute value, without the conditional that computes them |
| DecodeInverse.RawMeans | src/modbus/decode.rs:18-38 | what each type reads, from the registers: 16-bit types one, 32-bit types two, the first one high in big-endian order, signed types in two's complement |
| DecodeInverse.ImageHoldsEveryPoint | src/modbus/decode.rs:7-13 | writing later points never disturbs an earlier one |
| DecodeInverse.WriteThenExtract | src/modbus/decode.rs:18-38 | extraction inverts writing for every width, sign and word order |
| DecodeInverse.RegisterReachesAtMostOnePoint | src/modbus/decode.rs:3-38 | changing one register of an accepted block changes at most one point, one that covers it; an uncovered register changes none |
| DecodeInverse.DecodeReadsOnlyItsRegisters | src/modbus/decode.rs:18-38 | a point's value depends only on the registers it covers |
| DecodeInverse.AcceptedConfigDecodes | src/config/validate.rs:187-204 | on an accepted config a read that returns `count` words never indexes out of range |
| Decode.ShiftOrIsSum | src/modbus/decode.rs:32-38 | for any two registers and word order, the 16-bit shift in a 32-bit word and the bitwise or give the sum that `CombineU32` uses |
| Decode.OrOfShifted | src/modbus/decode.rs:37 | bitwise or of a shifted value and one below the shift is their sum, at any width that loses no bit |
| Backoffs.Backoff.constructor | src/modbus/poller.rs:25-31 | starts at the minimum, uncapped |
| Backoffs.Backoff.Wait | src/modbus/poller.rs:34-37 | returns the delay slept; the next one is double, at most the maximum |
| Backoffs.Backoff.Reset | src/modbus/poller.rs:39-41 | returns to the minimum |
| Backoffs.ClosedForm | src/modbus/poller.rs:24-46 | after any history of waits and resets the delay depends only on the number of waits since the last reset |
| Backoffs.CappedExactlyWhenOrdered | src/modbus/poller.rs:25-37 | every delay is min(min * 2^k, max) iff min <= max |
| Supervisor.Supervise | src/modbus/supervisor.rs:17-53 | the trace of spawns and ends is the one the exits call for: a respawn after each leading panic and nothing else, the running child aborted when the supervisor is dropped; delays in closed form, never reset |
| Supervisor.AtMostOneChild | src/modbus/supervisor.rs:22-53 | at every point of that trace at most one child is alive, none at its end, and there is one spawn more than there are leading panics |
| Supervisor.LastEvent | src/modbus/supervisor.rs:25-53 | the trace ends with an abort iff every run so far panicked, and else with the exit that ended supervision |
| Supervisor.RunAt | src/modbus/supervisor.rs:22-38 | each run that panicked is a spawn followed by its own exit |
| Poller.OfferBlock | src/modbus/poller.rs:220-235 | offers a block's readings in order; a full channel loses exactly that reading, a closed one stops the task at that reading |
| Poller.EndMeans | src/modbus/poller.rs:214-259 | how a device ends follows from its first read that is not words: fatal loses the connection, exception, protocol error and timeout skip it with their own reason, none is a success |
| Poller.EventMeans | src/modbus/poller.rs:252-275 | the event of a device names it and tells exactly that |
| Poller.PollDevice | src/modbus/poller.rs:206-260 | the inner loop offers the decode of the longest prefix of successful blocks, ends as the first failing read says, and resets the backoff iff the first read succeeds |
| Poller.PollAndReport | src/modbus/poller.rs:206-276 | one device's readings and its one event, which tells how its reads ended; the tick is lost iff the transport fails before anything else does |
| Poller.PollTick | src/modbus/poller.rs:204-277 | the nested loops with three exits equal the loop-free `TickOutput`, in events, readings offered and readings accepted, also when the channel closes midway; the task stops iff an offered reading finds the channel closed; the tick is lost iff some device's first failing read is a transport failure |
| Poller.EventsSayWhatHappened | src/modbus/poller.rs:206-276 | a device reports iff no device before it had a fatal first failure, exactly once, and its event tells how its own reads ended; ConnectionDown comes last and iff the tick was lost |
| Poller.ReachesVisited | src/modbus/poller.rs:204-258 | devices are visited up to and including the first whose first failing read is fatal |
| PollMeaning.ReadingAt | src/modbus/poller.rs:216-227 | the position, point id and value of every reading, from the block results and registers alone |
| PollMeaning.ReadingsCount | src/modbus/poller.rs:209-260 | a device offers one reading for each point of the blocks before its first failure, and no others |
| PollMeaning.TickReadingsInOrder | src/modbus/poller.rs:206-260 | a tick offers the readings of the devices it reaches, one after the other |
| PollMeaning.AcceptedExactly | src/modbus/poller.rs:228-234 | exactly the readings whose send succeeds get into the channel, in order |
| PollMeaning.OpenTick | src/modbus/poller.rs:228-232 | with the channel open all readings and events are put out |
| PollMeaning.ClosedTick | src/modbus/poller.rs:233 | the first send to find the channel closed ends the tick, and the device it belongs to reports nothing |
| PollMeaning.AttemptEvents | src/modbus/poller.rs:181-197 | an attempt first reports whether it connected; one that the task outlives ends with ConnectionDown |
| Poller.VisitedLoses | src/modbus/poller.rs:252-258 | stopping at the first fatal read hides no fatal read and invents none |
| Poller.DoneBefore | src/modbus/poller.rs:228-234 | when the channel closes, the devices that have reported are exactly those whose readings were all offered before |
| Poller.ReachedDevice | src/modbus/poller.rs:204-277 | a device that is reached contributes its own readings, right after those of the devices before it, and its event |
| Poller.FaultIsolation | src/modbus/poller.rs:204-277 | two ticks in which the device at one position answers the same, and which reach it, give the same readings and event at that position, whatever all other devices did and whatever ids they have |
| Poller.FaultIsolationById | src/modbus/poller.rs:220-227 | where device ids differ, the readings that carry the device's id are the same too |
| Poller.PollUntilLost | src/modbus/poller.rs:199-277 | events, readings offered and readings accepted of one connection are those of its ticks up to the first that is lost or cut short; whether any block was read in them |
| Poller.CounterMeans | src/modbus/poller.rs:216-219 | an attempt that loses its connection resets the backoff iff the first block of some device it reached was read, not by connecting |
| Poller.SurvivedMeans | src/modbus/poller.rs:180-233 | the task outlives an attempt iff the connect failed, or a tick lost the connection before any found the channel closed |
| Poller.RunAttempt | src/modbus/poller.rs:180-281 | one round of connect, poll and back off: its output, and a delay counted from zero iff a block was read |
| Poller.WaitsMean | src/modbus/poller.rs:180-281 | from the block results alone: wait i is the delay for the number of waits since the last attempt in which some block was read, or since the start |
| Poller.Reconnect | src/modbus/poller.rs:180-281 | over every script of connect attempts: those waits, and all events, readings offered and readings accepted of the attempts in order |
| Poller.RunConnection | src/modbus/poller.rs:167-282 | the same for the whole task from its start |
| Aggregator.NextBoundary | src/aggregator.rs:107-112 | the boundary is a multiple of the window, after a wait in (0, window] |
| Aggregator.BoundaryIsLeast | src/aggregator.rs:107-112 | no smaller multiple lies after now |
| Aggregator.Aggregator.constructor | src/aggregator.rs:73-78 | the first deadline is the first boundary |
| Aggregator.Aggregator.Record | src/aggregator.rs:114-121 | updates sum, count, min and max of a known point in place and ignores an unknown one |
| Aggregator.Aggregator.Flush | src/aggregator.rs:127-160 | for every map order: one nonempty batch per device with samples, each sampled point in it once with sum / count, every accumulator reset |
| Aggregator.Aggregator.Tick | src/aggregator.rs:88-99 | flushes the ending window and advances label and deadline by exactly one window |
| Aggregator.Group | src/aggregator.rs:134-148 | one point is added to its device's group iff it has samples, all others unchanged |
| Aggregator.ToBatches | src/aggregator.rs:151-159 | groups become batches, one per device |
| Aggregator.RecordRefines | src/aggregator.rs:114-121 | recording a reading keeps the accumulators equal to a summary of the list of readings received |
| Aggregator.ClearRefines | src/aggregator.rs:30-37 | resetting leaves the summary of no readings; key set and units are unchanged |
| Aggregator.SummaryCounts | src/aggregator.rs:114-121 | sum and count are those of the values received, the count modulo 2^32 |
| Aggregator.FlushIsGroupedMeans | src/aggregator.rs:127-160 | in terms of the window's readings alone: a configured point appears iff its 32-bit count is nonzero, once, in its device's batch, with its own unit and sum / count |
| Aggregator.PublishedWhenSampled | src/aggregator.rs:123-149 | a configured point is published iff its number of samples is not a multiple of 2^32 |
| Aggregator.PublishedMean | src/aggregator.rs:135-138 | a value published is the mean of its point's readings iff there are fewer than 2^32 of them or they add up to zero |
| Aggregator.MeanBetweenExtremes | src/aggregator.rs:114-121 | recorded min and max are values received, and the mean lies between them |
| Aggregator.Step | src/aggregator.rs:80-102 | one branch of the select keeps the refinement and keeps label minus deadline constant |
| Aggregator.RunSchedule | src/aggregator.rs:80-103 | for every sequence of readings and ticks: tick k emits the means of exactly window k's readings, windows and the live one partition the readings in order, labels tile time, the deadline never drifts from the label |
| Aggregator.InitDevice | src/aggregator.rs:45-57 | the keys gained are exactly (device id, point name) of the device's points, each zeroed with the unit of its last occurrence; those of other devices stay |
| Aggregator.FindInConnections | src/aggregator.rs:44-57 | the last point with an id, in config order, gives its unit |
| Aggregator.InitFromConfig | src/aggregator.rs:42-60 | from the config alone: an id has an accumulator iff some connection, device, block and point have it as (device id, point name); it is zeroed, with the unit of the last such point |
| Wiring.OfferedIsConfigured | src/modbus/poller.rs:221-227 | every reading a tick of a configured connection offers is of a configured point |
| Wiring.NothingPolledIsIgnored | src/aggregator.rs:114-121 | so the aggregator started from the same config counts it |
| Senml.MajorityUnit | src/senml.rs:46-56 | returns u iff u is the unit of a strict majority of points, whatever entry the map's order makes the maximum |
| Senml.PickMax | src/senml.rs:54 | some entry of maximal count, ties broken by iteration order |
| Senml.CountsAddUp | src/senml.rs:51-55 | two different units never both hold a strict majority |
| Senml.MajorityIsStrict | src/senml.rs:55 | a majority means that more points have the unit than have another |
| Senml.EncodeSenml | src/senml.rs:22-40 | resolving the pack (section 4.6 of RFC 8428) gives back prefix, device and name, window start, unit and mean of every point in order; the base name, time and unit, and only they, are in the first record alone |
| Senml.PackResolves | src/senml.rs:25-37 | the base unit, whatever it is, never changes what the pack means |
| Senml.RoundTripExactly | src/senml.rs:31 | a receiver reads back the batch iff its window start is an absolute time by section 4.5.3 of RFC 8428 (or there is nothing to read, or reception is at time zero) |
| Status.StatusState.constructor | src/status.rs:109-133 | all connections down and devices unknown, in config order |
| Status.StatusState.Connection | src/status.rs:191-193 | the first connection with the id |
| Status.StatusState.SetHealth | src/status.rs:195-214 | the whole new state and the change flag of a device update |
| Status.StatusState.ResetDevices | src/status.rs:162-165 | all devices of the connection unknown, nothing else changed |
| Status.StatusState.Apply | src/status.rs:150-189 | the new state, and true iff what the file shows (up flags, ok counts, ordered problems, MQTT flag) changed |
| Status.ViewChangesExactly | src/status.rs:148-189 | an event changes the state iff it changes what is shown |
| Status.HealthChangeShows | src/status.rs:241-258 | giving one device a new known health changes the ok count or the problem list |
| Status.DeviceUpdateChanges | src/status.rs:195-214 | a device event changes the state iff it raises its connection or changes that device's health |
| Status.ConnectionsAreIndependent | src/status.rs:150-215 | after any interleaved history a connection's state is the fold of the events that name it, in their order |
| Status.DifferentConnectionsCommute | src/status.rs:150-215 | events of different connections commute |
| StatusHistory.SinceIsFirstProblem | src/status.rs:154-187 | over every history: a device shows a problem iff some problem is not yet cleared, and `since` is the time of the first one after the last clearing event (its DeviceOk, or a ConnectionUp while down) |
| StatusHistory.ShownSince | src/status.rs:150-189 | the same for `since` and the reason in the whole state, through any history with events of other connections and of MQTT interleaved |
| StatusHistory.FirstProblemIsUnique | src/status.rs:180-187 | that event is unique |
| StatusHistory.ReasonIsLatest | src/status.rs:175-187 | the reason shown is that of the latest problem |
| StatusHistory.HealthStep | src/status.rs:150-215 | how any event moves one device's health; ConnectionDown and ConnectionUp while up never do |
| StatusHistory.UpFollowsLatest | src/status.rs:154-214 | over every history a connection is shown up unless the latest event that says so (its own, or a result of a device it has) is a ConnectionDown |
| StatusHistory.UnknownIdsIgnored | src/status.rs:148-170 | events with unknown ids change nothing |
| StatusHistory.CountIsNumberOk | src/status.rs:241-245 | the ok count is the number of devices whose health is Ok |
| StatusHistory.ProblemsAreListed | src/status.rs:246-258 | the problem list holds exactly the devices with a problem, in config order, each with its reason and time |
| SelfCorrection.OneTickCorrects | src/status.rs:20-22 | from any state and after any lost events, once one completed tick's reports are applied, interleaved with any events of others, the connection is up (if it has devices) and every device that updates by id can reach shows what the tick last reported under its id |
| SelfCorrection.OneTickCorrectsAll | src/status.rs:20-22 | where device ids differ, every device shows exactly what that tick saw of it |
| SelfCorrection.AllCorrectExactly | src/status.rs:204 | from unknown devices, a completed tick puts every device right iff the device ids differ |
| SelfCorrection.ShadowedStaysUnknown | src/status.rs:204 | a device whose id an earlier one has is never updated |
| SelfCorrection.RefusalCorrects | src/modbus/poller.rs:189-194 | once a failed attempt is reported the connection is shown down, whatever was lost before |
| SelfCorrection.MqttFollowsLatest | src/mqtt.rs:175-201 | the MQTT flag is what the latest MQTT event delivered says, and nothing else moves it |
| SelfCorrection.ReportsCorrect | src/modbus/poller.rs:261-275 | after the first n reports every reachable device shows the last of them that carries its id |
| StatusText.RenderLine | src/status.rs:236-269 | the loops and appends produce the line of the connection's view |
| StatusText.RenderStatus | src/status.rs:223-272 | the bytes written are the capped UTF-8 text of the shown state |
| StatusText.TextChangesExactly | src/status.rs:148-150 | for every state and event, the rendered text differs iff `apply` reports a change |
| StatusText.FileChangesExactly | src/status.rs:223-272 | and when both texts fit under the cap, iff the bytes of the file differ |
| StatusText.ConnectionChangeReads | src/status.rs:236-269 | a changed connection renders to a different line |
| StatusText.HealthChangeReadsDifferently | src/status.rs:241-268 | two rollups that differ in one device's health are different texts, although counts and list are concatenated |
| StatusReader.MqttIsReadBack | src/status.rs:224-234 | the head of the file, and that a reader gets the MQTT state back from it |
| StatusReader.LineIsReadBack | src/status.rs:236-269 | a reader gets back whether the connection is up, and how many of its devices are Ok out of how many |
| StatusReader.LinesInOrder | src/status.rs:236-269 | the lines follow the head, one for each connection, in config order |
| StatusReader.ProblemsEndTheLine | src/status.rs:265-268 | the problems end the line, in parentheses, separated by commas |
| StatusReader.ProblemIsReadBack | src/status.rs:250-255 | a problem's entry gives back its reason and the time of day it began |
| StatusReader.TimeIsReadBack | src/status.rs:274-278 | hours, minutes and seconds in that order |
| StatusReader.NumberIsReadBack | src/status.rs:259-264 | a count is read back from its digits |
| Utf8.Truncate | src/status.rs:282-295 | the result is valid UTF-8 and is the truncation: the input if it fits, else the longest prefix of complete lines, else the longest prefix of complete characters, of at least 2045 bytes |
| Utf8.TruncationIsUnique | src/status.rs:280-295 | that description has one solution |
| Utf8.BoundaryNearby | src/status.rs:286-289 | stepping back meets a character boundary within three bytes |
| Utf8.BoundaryPrefixIsValid | src/status.rs:287-293 | cutting valid UTF-8 at a boundary leaves valid UTF-8 |
| Utf8.LineEndIsBoundary | src/status.rs:290-292 | the position after a newline is a boundary |
| Utf8.EncodeIsValid | src/status.rs:223-272 | text encodes to valid UTF-8, so the cut's demand is met |
| StatusWriter.StatusWriter.constructor | src/status.rs:356-359 | the state of the loop after its first write |
| StatusWriter.StatusWriter.Step | src/status.rs:361-382 | one select branch: event, timer or closed channel |
| StatusWriter.StatusWriter.RunLoop | src/status.rs:346-384 | the loop over a whole schedule |
| StatusWriter.RunKeepsInv | src/status.rs:346-384 | the write policy's invariant holds after every run |
| StatusWriter.StateFollowsEvents | src/status.rs:364-368 | no event received is skipped or applied twice: the state is that after exactly the events so far, in order |
| StatusWriter.WritesExactly | src/status.rs:363-381 | the timer always writes the current state, the closed channel only if a change is pending, an event never |
| StatusWriter.FileIsFresh | src/status.rs:358-384 | in every run: nothing pending, or closed, means the last write shows the current state; a pending write is due exactly `debounce` after the first unwritten change and not overdue |
| StatusWriter.PendingIsFirstUnwritten | src/status.rs:366-368 | what armed the pending write is the first visible change since the last write |
| StatusWriter.WritesAreSpaced | src/status.rs:356-382 | for every event stream, writes follow one another, and a timed write starts exactly a heartbeat after the one before it ended, or earlier but at least the debounce after it; at most one more write at close |
| StatusWriter.TimerCause | src/status.rs:362-381 | why the timer fires: for a change that has waited the debounce, at least that long after the last write, or else exactly at the heartbeat |
| StatusWriter.DebounceIsMinimumGap | src/status.rs:358-382 | the debounce separates all timed writes of all runs iff it is no longer than the heartbeat |
| StatusWriter.WriteCountBounds | src/status.rs:356-382 | for every run, ended or not, with n timed writes after the first: the time not spent writing is at least n shorter periods and at most n + 1 heartbeats, whatever the events; one more write at close at most |
| StatusWriter.RateBoundedExactly | src/status.rs:356-382 | elapsed time bounds the number of writes of all runs iff neither period is zero, and then by a write a shorter period, one at the start and one at close |
| StatusWriter.Burst | src/status.rs:377-381 | with a heartbeat of zero, any number of writes at one instant without an event |
| StatusWriter.EventBurst | src/status.rs:364-381 | with a debounce of zero, as many writes at one instant as visible changes |
| StatusWriter.SpacedWritesSpan | src/status.rs:356-382 | n timed gaps take between n shorter periods and n heartbeats |
| Pipeline.StepCapacity | src/lib.rs:29-32 | no action overfills a channel or the client queue |
| Pipeline.StepRefined | src/aggregator.rs:80-103 | every action keeps the accumulators equal to the summary of the live window, and ignores a reading iff its point is unknown |
| Pipeline.StepReadings | src/modbus/poller.rs:220-235 | every action conserves readings (dropped, waiting, ignored, live or in a closed window) and drops one only by an offer that finds 1024 waiting |
| Pipeline.StepBatches | src/aggregator.rs:88-94 | every action conserves batches: being sent, waiting, requested or dropped |
| Pipeline.StepWindows | src/aggregator.rs:88-99 | every action keeps: flush k is the flush of exactly window k's readings under window k's label |
| Pipeline.StepAligned | src/aggregator.rs:95-99 | every action keeps the deadline on the boundary that labels the window, by the clock offset at start, however late ticks fire |
| Pipeline.RequestsGrow | src/mqtt.rs:133-158 | requests only grow at the end, by what the action requests; taking one moves it |
| Pipeline.PipeStep | src/mqtt.rs:133-147 | the ordered batches on their way change only by an appended flush or one dropped at the full queue |
| Pipeline.StepOrder | src/mqtt.rs:133-147 | per device, the batches on their way have strictly increasing window starts, drops included |
| Pipeline.StepFarewell | src/mqtt.rs:149-160 | the publisher's requests are its batches, then one "offline", then one disconnect |
| Pipeline.LoopEndsByDisconnect | src/mqtt.rs:174-196 | the event loop ends only by writing a disconnect |
| Pipeline.StepPhases | src/lib.rs:111-148 | tasks stop in order: the aggregator after all pollers with an empty channel, the publisher after the aggregator with an empty channel |
| Pipeline.StepPollers | src/modbus/supervisor.rs:47-53 | pollers run until shutdown, and then only finish what they are offering |
| Pipeline.NoEarlyExit | src/lib.rs:111-121 | while there is a poller and no shutdown, neither the aggregator nor the publisher has exited |
| Pipeline.StepKeepsInv | src/lib.rs:55-161 | every action of every task keeps all invariants together |
| Pipeline.RunKeepsInv | src/lib.rs:55-161 | all invariants hold in every state of every run |
| Traffic.RunTold | src/lib.rs:71-114 | in every run, from the actions alone: every reading decoded was offered, is still held by its task or was lost with a panic; channels keep their order; a window holds the known readings received since the tick before; batches pass the channel and queue in order; each connect asks for one "online" |
| Traffic.DroppedOnlyWhenFull | src/modbus/poller.rs:228-232 | in every run a reading is dropped exactly by an offer that finds 1024 waiting; with room it joins the back of the channel |
| Traffic.BatchDroppedOnlyWhenFull | src/mqtt.rs:136-146 | in every run a batch is dropped exactly by a publish that finds 100 requests queued; with room it joins the back of the queue |
| Traffic.TakenWhileConnected | src/mqtt.rs:163-175 | requests are handed over only while connected, oldest first |
| Traffic.ReconnectWaits | src/mqtt.rs:198-208 | a reconnect begins no sooner than 500 ms after the failure |
| Traffic.LoadStep | src/modbus/poller.rs:216-236 | every action keeps the account of readings decoded |
| Traffic.ReadingStep | src/modbus/poller.rs:228-232 | every action keeps the reading channel in order |
| Traffic.WindowStep | src/aggregator.rs:80-99 | every action keeps the windows as the ticks cut them |
| Traffic.BatchStep | src/aggregator.rs:90-94 | every action keeps the batch channel and the queue in order |
| Traffic.OnlineStep | src/mqtt.rs:184-190 | a connect asks for one "online", and only a finished task's request is no longer owed |
| Shutdown.NothingVanishes | src/lib.rs:71-157 | conservation in every run: each reading offered and each batch flushed is in exactly one place, also after a clean end and after giving up |
| Shutdown.HandedOverIsMeasured | src/aggregator.rs:80-160 | end to end: every value handed to the MQTT client is the sum, over the 32-bit count, of exactly the readings of that point received in the window of its label; it is their mean iff there are fewer than 2^32 or they add up to zero |
| Shutdown.HandedOverInOrder | src/mqtt.rs:133-147 | in every run, per device, the batches handed over are distinct and in window order |
| Shutdown.WindowLabels | src/aggregator.rs:88-99 | in every run, window w ends exactly w windows after the first, on a multiple of the window |
| Shutdown.NoEarlyTick | src/aggregator.rs:76-90 | no window is closed before its end on a wall clock that does not step |
| Shutdown.CleanExit | src/lib.rs:134-140 | at a clean end every reading was dropped, unknown, received in one flushed window or lost with the partial one; every flushed batch was handed over or dropped; "offline" then the disconnect came last; what was dropped is what the actions offered to a full channel or queue, and everything accepted was received, in order |
| Shutdown.DisconnectIsLast | src/mqtt.rs:149-160 | once the disconnect was handed over, so was everything the publisher ever requested |
| Shutdown.WithinGrace | src/lib.rs:134-148 | in every run, draining after a requested shutdown ends within the grace period, given that its timer is served in time, and is given up only when all of it has passed |
| Shutdown.SendNeverBlocks | src/aggregator.rs:90-94 | the aggregator's blocking send proceeds iff fewer than 64 batches wait, which at most one step of the publisher brings about |
| Shutdown.OwnStepEnabled | src/lib.rs:134-140 | while draining there is a step to take at once, unless the broker is waited for |
| Shutdown.StuckOnlyOnBroker | src/mqtt.rs:107-113 | while draining, the gateway's own tasks are all stuck iff everything upstream is done and the publisher needs the event loop to take requests |
| Shutdown.AlwaysAStep | src/lib.rs:134-148 | draining never deadlocks |
| Shutdown.StepProgresses | src/lib.rs:125-148 | every step while draining ends the run or decreases a lexicographic measure of grace, pollers, ticks due, channels and tasks |
| Shutdown.ShutdownEnds | src/lib.rs:125-148 | every schedule of enabled steps from a draining state reaches the end after finitely many, whatever broker and clock do |
| Shutdown.HealthyStepEnabled | src/mqtt.rs:133-159 | while draining with a connected event loop there is always a step that needs neither time nor luck |
| Shutdown.HealthyShutdownIsClean | src/mqtt.rs:107-113 | with a connected broker that keeps up, every schedule ends cleanly: nothing is abandoned, the queue ahead of the disconnect is written first |
| Shutdown.FailsOnlyWithoutConnections | src/lib.rs:111-131 | some run fails on an unexpected exit iff there are no connections |

## Left out

- I/O and the surroundings: TCP, serial and TLS connections, file writes and the atomic rename, environment variables, signals; CA certificate and log-level parsing are inputs of `Validate`.
- Internals of tokio, tokio-modbus and rumqttc: a read is one of five outcomes, a request once taken from the client queue counts as handed over (also when its write fails), and nothing is claimed about redelivery or broker state.
- Panics of the aggregator, the publisher and the event loop; panics of connection tasks are modelled, and what such a task had not yet offered is not counted as offered.
- Floating-point rounding, NaN and infinite readings; JSON text, TOML parsing, log messages, topic strings and the formatting of the `updated` time.
- Tick intervals, inter-frame delays and request timeouts: when a tick runs and how long a read takes is left open.
- The bounded status channel as a queue: events that reach the status writer are an arbitrary sequence, so any may be lost.
- Supervisor.Supervise: a supervisor dropped while it waits to respawn is covered as a prefix of its trace.
- The status writer's flush after draining, which can add one more second to a shutdown (`src/lib.rs:150-157`).
- Steps of the wall clock while the gateway runs.
- Overflow of 64-bit seconds and of `Duration` for astronomically large configured periods.
- The syslog sender, which repeats the backoff over a socket.
- Pipeline.StepKeepsInv: the tasks' concurrency is a transition system on values; update in place is shown task by task in the classes, which share `Recorded`, `Cleared` and `IsFlush` with it.
- Pipeline.StepReadings: what a connection task offers between two awaits is an arbitrary list; `Poller.PollTick` says which list it is.
- Poller.FaultIsolationById: requires distinct device ids in a tick, which validation does not check; `Poller.FaultIsolation` does not.
- Senml.EncodeSenml: the round trip needs a window start of at least 2^28; `Senml.RoundTripExactly` says this is exact.
