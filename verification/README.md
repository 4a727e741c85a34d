# Verified model of LP-700-Server

LP-700-Server owns an LP-500/LP-700 wattmeter over USB HID and fans its readings out to WebSocket
clients. This project models its four stateful or arithmetic parts and proves what they keep over whole
runs, for every input and every interleaving.

- **The meter link.** One loop polls the meter on a timer, takes client verbs off a bounded queue, and
  classifies every 64-byte IN frame by its shape alone: echo, telemetry or sample. From the samples it
  rebuilds 320-byte scope and spectrum buffers, although it keeps no record of which request a frame
  answers. `Router` is that loop (class `RunLoop`, in place) with its meaning as a function;
  `RouterHistory` states what it must send from the history of IN frames alone, without counter, buffer
  or sticky variable, and proves the two equal; `OwnerLoop` is the owner over its whole life as a
  transition system (queue, drain, ticks, back-off), `HidOwner` the classes that take its steps;
  `ClosedLoop` adds a meter that answers in order with any delay and any frames, and `ClosedLoopRuns` two
  runs in which a buffer is not one cycle.
- **The hub.** `Hub` is the fan-out loop with its clients as a transition system, one event per select
  arm and per step of a client's reader, so that a command's gate, submit and ack interleave with
  everything else. `HubLifecycle` proves capacity and channel life, `HubPanics` which clients can make the
  hub send on a closed channel, `HubDeparture` which disconnected clients stay in the map, `HubDelivery`
  sequence numbers, FIFO and the absence of drift, `HubHeartbeat` both bounds on silence, `HubCommands`
  what an ack promises; `HubServer` is the hub updated in place.
- **The two together.** `WholeServer` joins owner and hub: verbs from the ack to the meter, and telemetry from
  the meter to the clients, through the channel that drops when full.
- **The codec.** `Decoding` has the IN-report decoder, the shape tests, the status text extractor and the
  OUT reports; `Snapshots` the deadband; `SampleJson` the byte-array printer with a parser to match.
- **The update check.** `Versions` has the version parser and comparison, `VersionOrder` and
  `VersionRoundTrip` their laws, `SemVer` an independent statement of section 11 of Semantic Versioning
  2.0.0 and how far the comparison follows it, `SemVerExact` exactly for which versions; `ReleaseChecker`
  the checker that uses them and `ReleaseNotices` what it announces.

In the transition systems an event that is not enabled leaves the state unchanged, so every sequence of
events is a run, and `select` is any order of events. Imperative parts are classes and loops; each method
is proved to compute the specification function, or to take the step, that the theorems are about.

## Where the code and its promises part

Each of these is a theorem, with the exact condition where the code fails only sometimes.

- The hub can send on a closed channel, which panics and ends the program; a run panics if and only if it
  has such a send (`HubLifecycle.PanicsIffSendsToGone`). An ack does it exactly for a client that was turned
  away at capacity, or after the shutdown; acks to a client that was ever registered are safe while the hub
  lives (`HubPanics.AckPanicsExactly`, `HubPanics.AcksToMembersAreSafe`). The resync arm does it exactly for
  a client turned away, or one that disconnected and was unregistered before its queued resync was served
  (`HubPanics.ResyncPanicsExactly`). Both happen: `HubPanics.RejectedClientPanics`,
  `HubPanics.ResyncRaceIsReached`.
- A client that disconnects does not always leave: its one unregister request is dropped when the queue is
  full, and comes to nothing when it is served before the register request. Such a client, and no other,
  keeps its place until the shutdown (`HubDeparture.LeavesUnlessMissed`, `HubDeparture.MissedClientsStay`).
- "A newer release is logged once per release tag" (`internal/update/update.go:26`): notices are exactly the
  newer tags found without consecutive repeats, so they are distinct if and only if the occurrences of each
  tag are contiguous (`ReleaseNotices.OncePerTagIffContiguous`). A server at 1.0.0 that finds 2.0.0, 3.0.0
  and 2.0.0 again announces 2.0.0 twice (`ReleaseNotices.TagIsAnnouncedTwice`).
- Build metadata (`+...`) is not ignored as section 10 of Semantic Versioning 2.0.0 asks: a release with
  metadata has no numeric core for the parser and is never compared, and a pre-release with metadata never
  ties with the same version without it (`SemVer.BuildMetadataIsNotUnderstood`,
  `SemVer.PreReleaseMetadataCounts`).
- Printing and parsing a version is lossless exactly when the pre-release text does not itself end in
  space, `-dirty` or a describe tail (`VersionRoundTrip.RoundTrip`), and numbers compare as numbers
  exactly up to the saturation bound (`SemVer.SaturationIsExactBelowBound`).
- A valid version is ranked as the standard ranks it, against every version that is read back from its own
  text, if and only if it is itself read back (`SemVerExact.RankedRightIffKeeps`).
- A buffer can mix frames left over from before the device was opened with answers
  (`ClosedLoopRuns.MixedBufferOccurs`): exactly a buffer completed before frame |leftovers| + 4 does
  (`ClosedLoop.BufferSplits`), and at most one of a run (`ClosedLoop.AtMostOneMixedBuffer`).
- A buffer of answers is one cycle if and only if none of the five answers a poll or a verb
  (`ClosedLoop.ClosedLoopAssembly`). A meter can break that: telemetry with an SWR above 10 is sample-shaped
  (`ClosedLoopRuns.HighSwrIsASample`), and after an echo it becomes the first segment of a buffer
  (`ClosedLoopRuns.PollAnswerEntersABuffer`).
- The drain before a tick has no bound of its own: while verbs keep arriving the poll waits
  (`OwnerLoop.DrainCanLast`).
- The back-off doubles after every run and is never reset by a good one
  (`OwnerLoop.BacksOffStep`, from `internal/lpmeter/owner.go:91-112`).

## Model

| member | source | states |
|---|---|---|
| `ClosedLoop.ClosedLoopAssembly` | internal/lpmeter/owner.go:189-350 | in every run against a meter that answers each OUT report in order with any delay and any frame, under any page changes and interleaved verbs, a sent buffer without leftover frames is five consecutive answers in order; they answer the requests '1' to '5' of one cycle if and only if none answers a poll or a verb, and so whenever samples answer only sample requests |
| `ClosedLoop.CycleYieldsBuffer` | internal/lpmeter/owner.go:292-350 | from the first answers on, a buffer is sent if and only if five answers in a row are samples after an echo or telemetry frame, on an emitting page; with plausible answers, if and only if the five requests of a cycle went out back to back and each was answered by a sample, the very first ones after leftovers that end in no sample |
| `ClosedLoop.AtMostOneMixedBuffer` | internal/lpmeter/owner.go:189-197 | the loop corrects itself: at most one buffer of a run mixes frames from before the device was opened with answers |
| `ClosedLoop.BufferSplits` | internal/lpmeter/owner.go:189-210 | any sent buffer is leftovers followed by answers, five frames in all, and holds no leftover if and only if it completes at frame leftovers + 4 or later |
| `ClosedLoopRuns.MixedBufferOccurs` | internal/lpmeter/owner.go:189-197 | whatever the frames, a run that opens onto a waveform telemetry frame and one sample sends that sample and the answers to '1'..'4' as one buffer |
| `ClosedLoopRuns.PollAnswerEntersABuffer` | internal/lpmeter/owner.go:199-210 | whatever the frames, a run in which a verb's echo precedes a poll answered by a sample-shaped frame sends that frame and the answers to '1'..'4' as one buffer |
| `ClosedLoopRuns.HighSwrIsASample` | internal/lpmeter/owner.go:491-500 | a telemetry frame of SWR 10.24 decodes, yet is classified as a sample |
| `ClosedLoop.LinkInvariant` | internal/lpmeter/owner.go:134-159 | in every closed-loop run IN frames are the leftovers and then the answers in request order, back-to-back sample requests are successive, and the router's variables and offers are those of the history |
| `RouterHistory.RouterFollowsHistory` | internal/lpmeter/owner.go:229-323 | on every trace the router sends, frame by frame, exactly what a counter-free reading of the IN history calls for |
| `RouterHistory.BuffersAreFiveFreshFrames` | internal/lpmeter/owner.go:292-323 | a buffer goes out at a frame if and only if that frame completes five consecutive samples directly after an echo or telemetry frame on an emitting page; it is those five frames with no stale byte, labelled by the latest telemetry frame |
| `RouterHistory.OneBufferPerReset` | internal/lpmeter/owner.go:216-221 | between two buffers there is always a reset; no two share a frame |
| `RouterHistory.EmitIsLabelled` | internal/lpmeter/owner.go:504-565 | scope and spectrum sends are suppressed on auto or out-of-range channels and on nil outputs, and otherwise carry the label of the page |
| `RouterHistory.TelemetryIsSoundAndSticky` | internal/lpmeter/owner.go:240-291 | a snapshot goes out exactly on non-echo frames of telemetry shape; it has channel 1..4, avg ≤ peak, SWR in [1, 10], table names, every field of the decoded frame, and the latest nonempty status text |
| `RouterHistory.LastStatusIsLatest` | internal/lpmeter/owner.go:177-180 | the sticky status is the text of the last frame that carried one, and empty only if none did |
| `Router.RunLoop.constructor` | internal/lpmeter/owner.go:175-218 | the loop's variables and zeroed buffers when the device has been opened |
| `Router.RunLoop.OnReport` | internal/lpmeter/owner.go:136-158 | reports of another size change nothing; full-size ones are routed |
| `Router.RunLoop.OnFrame` | internal/lpmeter/owner.go:229-323 | routing one frame by shape, as the specification function; the branches for undecodable telemetry are dead |
| `Router.RunLoop.OnTelemetry` | internal/lpmeter/owner.go:254-290 | sticky status, segment reset and relabelling by a telemetry frame |
| `Router.RunLoop.OnSample` | internal/lpmeter/owner.go:292-323 | a sample is the next segment of its page's buffer, and the fifth completes it; others are dropped |
| `Router.RunLoop.CopySegment` | internal/lpmeter/owner.go:308-320 | one segment of the buffer is overwritten in place and the rest kept |
| `Router.RunLoop.OnTick` | internal/lpmeter/owner.go:328-345 | the report a tick sends, from its number and the page, leaving the router as it was; the range panic of `SampleReport` cannot happen |
| `Router.PhaseZeroPolls` | internal/lpmeter/owner.go:328-345 | every sixth tick asks for telemetry whatever the page |
| `Router.SampleTickByte` | internal/lpmeter/owner.go:331-338 | on a sample page a tick sends the command of its phase |
| `Router.SampleCycleIsComplete` | internal/lpmeter/owner.go:161-172 | six consecutive ticks on sample pages send each of '0'..'5' |
| `Router.SampleCycleHasNoRepeat` | internal/lpmeter/owner.go:161-172 | and none of them twice |
| `Router.StatusOnceInTen` | internal/lpmeter/owner.go:339-345 | on any ten other pages in a row, ten consecutive ticks send exactly one status request and otherwise polls |
| `OwnerLoop.OwnerInvariant` | internal/lpmeter/owner.go:77-375 | every reachable state: verbs conserved in order, writes are the taken verbs and one report per tick, delays double to the cap, ticks follow the schedule and see the latest page, sample requests are successive, routing follows the history |
| `OwnerLoop.ConservedStep` | internal/lpmeter/owner.go:77-87 | accepted verbs are, in order, those taken and then those queued (at most 16); all are encodable and at most one is lost per failed run |
| `OwnerLoop.WritesStep` | internal/lpmeter/owner.go:324-375 | what reached the meter since it was opened is the taken, not lost verbs in order, interleaved with one report per tick; a lost verb is the last and ended the run |
| `OwnerLoop.BacksOffStep` | internal/lpmeter/owner.go:91-112 | the k-th reopening waits min(2^k, 30) seconds |
| `OwnerLoop.TicksStep` | internal/lpmeter/owner.go:324-348 | ticks are numbered from 1 and each sends the report of its number and page |
| `OwnerLoop.TicksSeePagesStep` | internal/lpmeter/owner.go:267-331 | each tick was scheduled for the page of the latest telemetry frame received by then |
| `OwnerLoop.SampleTicksCycle` | internal/lpmeter/owner.go:161-172 | in every run, of six consecutive ticks while the latest telemetry showed sample pages, whichever, exactly one sends each of '0'..'5' |
| `OwnerLoop.OtherTicksPoll` | internal/lpmeter/owner.go:339-345 | in every run, ten consecutive ticks on other pages, or before any telemetry, are polls and exactly one is a status request |
| `OwnerLoop.SamplesStep` | internal/lpmeter/owner.go:324-349 | two sample requests with nothing between them ask for successive segments, across page changes and verbs |
| `OwnerLoop.FiveSamplesAreOneCycle` | internal/lpmeter/owner.go:324-349 | five sample requests back to back are '1'..'5' of one cycle |
| `OwnerLoop.RunsNeverStarvePolls` | internal/lpmeter/owner.go:324-348 | in every run, any six consecutive ticks include a telemetry request |
| `OwnerLoop.DrainCanLast` | internal/lpmeter/owner.go:356-375 | for every n there is a continuation in which one drain writes n verbs while no tick report goes out |
| `HidOwner.WriteReport` | internal/lpmeter/owner.go:377-387 | the 65-byte write delivers the 64-byte payload, or fails and delivers nothing |
| `HidOwner.HIDOwner.constructor` | internal/lpmeter/owner.go:62-73 | an owner with an empty queue |
| `HidOwner.HIDOwner.Submit` | internal/lpmeter/owner.go:77-87 | accepts exactly known verbs while the queue has room, at the end of the queue |
| `HidOwner.HIDOwner.OpenDevice` | internal/lpmeter/owner.go:114-221 | a run starts with fresh variables and keeps the queue |
| `HidOwner.HIDOwner.OnFrame` | internal/lpmeter/owner.go:229-323 | routing a frame is the owner's receive step and records the offer |
| `HidOwner.HIDOwner.SubmitAll` | internal/lpmeter/owner.go:77-87 | verbs arriving during a settle are submits, in order |
| `HidOwner.HIDOwner.TakeCommand` | internal/lpmeter/owner.go:360-370 | the oldest verb leaves the queue and its report is written, or is lost with the run |
| `HidOwner.HIDOwner.TakeAndSettle` | internal/lpmeter/owner.go:358-370 | one verb is taken and, if written, verbs that arrive while it settles are queued behind the others |
| `HidOwner.HIDOwner.DrainCommands` | internal/lpmeter/owner.go:353-375 | takes verbs, including those arriving meanwhile, until the queue is empty or a write fails, as a sequence of the owner's steps |
| `HidOwner.HIDOwner.DrainTick` | internal/lpmeter/owner.go:324-327 | the timer fires and the verbs are drained |
| `HidOwner.HIDOwner.WriteScheduled` | internal/lpmeter/owner.go:328-348 | after the drain the tick is counted and its report written |
| `HidOwner.HIDOwner.OnTick` | internal/lpmeter/owner.go:324-348 | a tick drains, counts and writes the scheduled report; a failed write ends the run |
| `Decoding.IsCommandEcho` | internal/lpmeter/owner.go:426-439 | true exactly for a command byte followed by zeros |
| `Decoding.Decode` | internal/lpmeter/decode.go:133-238 | the decoder, with its size, echo, channel and range outcomes, computes the meaning of the report |
| `Decoding.DecodeFields` | internal/lpmeter/decode.go:160-238 | the field-by-field part computes the same |
| `Decoding.SkippedIffEcho` | internal/lpmeter/decode.go:140-158 | `Decode` skips a full-size report exactly when the router's echo test holds |
| `Decoding.LikelyTelemetryDecodes` | internal/lpmeter/owner.go:441-502 | a non-echo frame that passes the shape test always decodes, to a sound snapshot |
| `Decoding.DecodeInvertsBuild` | internal/lpmeter/decode_test.go:10-53 | building a report from any canonical snapshot and decoding it gives the snapshot back, and the report is never echo-shaped |
| `Decoding.DecodedIsCanonical` | internal/lpmeter/decode.go:160-237 | conversely every telemetry-shaped frame decodes to a canonical snapshot plus a status text, and rebuilding it decodes the same |
| `Decoding.RebuiltBytes` | internal/lpmeter/decode.go:160-227 | exactly what decoding forgets: rebuilding a decoded frame restores every header and power byte, the SWR bytes if and only if the floor did not apply, and byte 5 if and only if it was read or zero |
| `Decoding.ExtractStatusMessage` | internal/lpmeter/decode.go:253-293 | the collecting and trimming loops compute the status text |
| `Decoding.FindLetterRun` | internal/lpmeter/decode.go:274-288 | true exactly when three consecutive letters occur |
| `Decoding.StatusTextShape` | internal/lpmeter/decode.go:240-293 | a nonempty status text is printable, at least 4 long, without trailing space, and has a space and three letters in a row |
| `Decoding.StatusTextFixedPoints` | internal/lpmeter/decode.go:253-293 | the fixed points of the extractor are exactly the texts of that shape and the empty one |
| `Decoding.StatusTextIdempotent` | internal/lpmeter/decode.go:253-293 | extracting twice is extracting once, for any slot |
| `Decoding.CloseEnoughInCounts` | internal/lpmeter/snapshot.go:136-166 | snapshots of two decoded frames, with any status texts, are close if and only if each of the three power counts differs by at most 2, the floored SWR is equal, and so is every other field |
| `Decoding.KnownVerbsEncode` | internal/lpmeter/decode.go:303-314 | the encoder knows exactly the known verbs, none as a poll, status or sample request |
| `Decoding.EncodedActionIsTheVerb` | internal/lpmeter/decode.go:33-42 | the encoder is the inverse of the table of front-panel actions by command byte, transcribed from the constants' comments |
| `Decoding.CommandsAreDistinct` | internal/lpmeter/decode.go:29-42 | two verbs never share a command byte |
| `Snapshots.CloseEnoughReflexive` | internal/lpmeter/snapshot.go:136-158 | a snapshot is close to itself |
| `Snapshots.ClosenessDoesNotChain` | internal/lpmeter/snapshot.go:136-166 | closeness is symmetric but not transitive, so the hub's choice of what to compare with matters |
| `Snapshots.NamesAreDistinct` | internal/lpmeter/snapshot.go:168-188 | a name in a table stands for one wire value |
| `SampleJson.MarshalJSON` | internal/lpmeter/snapshot.go:23-43 | the appending loop prints the JSON text and never exceeds the preallocated 4n + 2 bytes |
| `SampleJson.ParseOfPrinted` | internal/lpmeter/snapshot.go:16-43 | a parser for arrays of integers (sections 5 and 6 of RFC 8259) reads back exactly the buffer printed |
| `SampleJson.PrintedOfParse` | internal/lpmeter/snapshot.go:16-43 | and whatever it accepts is printed the same way |
| `SampleJson.PrintedIsInjective` | internal/lpmeter/snapshot.go:27-43 | different buffers, nil included, print differently |
| `HubDelivery.DeliveryInvariant` | internal/hub/hub.go:88-180 | every reachable state: per client, received and queued frames are the enqueued ones in order, and the broadcasts enqueued or dropped are the contiguous numbers issued since it joined |
| `HubDelivery.NoDrift` | internal/hub/hub.go:124-145 | in every run the broadcast snapshot is one of those received, close to the last valid one received, and what lastJSON encodes; there is none exactly if none was received |
| `HubDelivery.RemembersReceived` | internal/hub/hub.go:128-133 | the snapshot the gate looks at is the last valid one received |
| `HubDelivery.NoDriftInCounts` | internal/lpmeter/snapshot.go:136-166 | when both were decoded from frames, these agree to two counts of each power, in floored SWR and in status text |
| `HubDelivery.ClientsWereOfferedTheState` | internal/hub/hub.go:94-145 | the last telemetry frame offered to a registered client is the current one, whether it joined before or after it |
| `HubDelivery.BroadcastNumber` | internal/hub/hub.go:94-107 | a broadcast on a channel carries the number of its place in the client's stream |
| `HubDelivery.GapCountsDrops` | internal/hub/hub.go:182-190 | the numbers of consecutive broadcasts in a client's queue differ by one more than the frames dropped between them |
| `HubHeartbeat.HeartbeatsFillSilence` | internal/hub/hub.go:167-177 | on a monotone clock a heartbeat goes out only a full period after every earlier telemetry or heartbeat frame |
| `HubHeartbeat.SilenceIsBounded` | internal/hub/hub.go:167-177 | with ticks at most a period apart, at every telemetry or heartbeat event less than two periods have passed since one last went out |
| `HubHeartbeat.LastSentIsLastAir` | internal/hub/hub.go:137-177 | the remembered time is that of the last telemetry or heartbeat frame; scope and spectrum frames do not count |
| `HubLifecycle.LifecycleInvariant` | internal/hub/hub.go:82-114 | every reachable state: at most maxClients clients, each channel open exactly while its client waits or is registered |
| `HubLifecycle.ChannelsCloseOnce` | internal/hub/hub.go:82-114 | each send channel is closed at most once across rejection, unregistering and shutdown |
| `HubLifecycle.NoneClosed` | internal/hub/hub.go:182-190 | broadcast never targets a closed channel |
| `HubLifecycle.StepKeeps` | internal/hub/hub.go:88-180 | one step of any kind keeps this, and panics exactly when it sends to a client that is gone |
| `HubLifecycle.PanicsIffSendsToGone` | internal/hub/hub.go:116-122 | a run panics if and only if some resync or ack in it goes to a client that is neither waiting nor registered |
| `HubPanics.AckPanicsExactly` | internal/hub/hub.go:310-327 | an ack about to be sent panics if and only if the client does not wait to register and was never registered or the hub has shut down |
| `HubPanics.AcksToMembersAreSafe` | internal/hub/hub.go:242-262 | in every run of the live hub no ack to a client that was ever registered panics |
| `HubPanics.ResyncPanicsExactly` | internal/hub/hub.go:116-122 | the resync arm panics if and only if there is a frame and its client was turned away, or ended and was unregistered |
| `HubPanics.GoneForGood` | internal/hub/hub.go:94-122 | a client that is gone stays gone: in every continuation each ack or replay that reaches it panics |
| `HubPanics.TurnedAwayIsGone` | internal/hub/hub.go:94-99 | a rejection leaves the client gone and its reader where it was |
| `HubPanics.ReplyToGone` | internal/hub/hub.go:305-327 | any answered message of a gone client whose reader still waits panics |
| `HubPanics.RejectedClientPanics` | internal/hub/hub.go:94-99 | a concrete run: the second of two clients at capacity one |
| `HubPanics.LeavingRacesResync` | internal/hub/hub.go:109-122 | every member of a live hub with empty queues can panic it by asking for a resync and disconnecting |
| `HubPanics.ResyncRaceIsReached` | internal/hub/hub.go:109-122 | a concrete run that does |
| `HubDeparture.LeavesUnlessMissed` | internal/hub/hub.go:242-249 | in every run of the live hub a registered client that ended and does not wait to leave is still in the map if and only if its unregister request was dropped or served before its register request |
| `HubDeparture.MissedClientsStay` | internal/hub/hub.go:109-114 | such a client keeps its place in every continuation until the shutdown |
| `HubDeparture.EarlyUnregisterIsMissed` | internal/hub/hub.go:94-114 | a concrete run with one client |
| `HubCommands.AcksTellTheTruth` | internal/hub/hub.go:278-299 | in every run and interleaving a client's ok acks name exactly its requests whose verbs the source accepted, in order, and all accepted verbs are those taken and then the at most 16 queued |
| `HubCommands.OnlyAllowedVerbsAreSubmitted` | internal/lpmeter/decode.go:333-344 | in every run each accepted verb is known and came with a message of that client and request; control was on, and the last valid snapshot received before that very message did not lock the setting |
| `HubCommands.GateAnswers` | internal/hub/hub.go:278-294 | a command passes the gates if and only if control is on and the latest snapshot does not lock the setting; else the nack names the first rule that refused |
| `HubCommands.SubmitAnswers` | internal/hub/hub.go:295-299 | a gated command is queued and acked ok if and only if the verb is known and there is room, and else changes nothing |
| `WholeServer.AckedVerbsReachTheMeter` | internal/hub/hub.go:295-299 | in every run of hub and owner together, each client is acked ok for exactly its accepted requests in order, and all accepted verbs are, in order, those the owner took and those still queued; each taken one was written or lost by a failed write, at most one per failed run, and the meter got exactly the written ones in order |
| `WholeServer.BroadcastFollowsServed` | internal/hub/hub.go:124-145 | the broadcast snapshot is one of the telemetry readings the hub was served, those that found room less those that wait, and close to the last of them |
| `WholeServer.BroadcastIsNearTheMeter` | internal/lpmeter/owner.go:282-289 | once the channel is empty and had room for the last reading, the broadcast snapshot is close to the last telemetry frame received since the device was opened, with the latest status text |
| `WholeServer.BroadcastIsNearInCounts` | internal/lpmeter/snapshot.go:136-166 | and the frame it was decoded from agrees with the last one to two counts of each power, in floored SWR and in status text |
| `HubServer.Server.constructor` | internal/hub/hub.go:50-77 | the hub before any client |
| `HubServer.Server.Send` | internal/hub/hub.go:323-326 | a send that does not block: queued, dropped when full, a panic when closed |
| `HubServer.Server.BroadcastFrame` | internal/hub/hub.go:182-190 | in any order of the map, each registered client is offered the frame once and no other channel changes |
| `HubServer.Server.CloseAllChannels` | internal/hub/hub.go:82-86 | closes exactly the registered clients' channels, once each |
| `HubServer.Server.ServeWS` | internal/hub/hub.go:193-213 | a new client waits in the register queue, or is refused when that is full |
| `HubServer.Server.RunRegister` | internal/hub/hub.go:94-107 | the register arm: rejection at capacity, else membership and a replay |
| `HubServer.Server.RunUnregister` | internal/hub/hub.go:109-114 | the unregister arm, for members only |
| `HubServer.Server.RunResync` | internal/hub/hub.go:116-122 | the resync arm, and when exactly it panics |
| `HubServer.Server.RunSnapshot` | internal/hub/hub.go:124-145 | the snapshot arm: invalid ones ignored, latest stored, close ones suppressed, others numbered and broadcast |
| `HubServer.Server.PublishSnapshot` | internal/hub/hub.go:137-145 | its part past the deadband |
| `HubServer.Server.BroadcastNext` | internal/hub/hub.go:152-157 | the next number on a frame, offered to every client |
| `HubServer.Server.RunScope` | internal/hub/hub.go:147-157 | the scope arm: numbered and broadcast, without touching lastSent |
| `HubServer.Server.RunSpectrum` | internal/hub/hub.go:159-165 | the spectrum arm |
| `HubServer.Server.RunHeartbeat` | internal/hub/hub.go:167-177 | the heartbeat arm: nothing before a silent period, else numbered and broadcast |
| `HubServer.Server.RunShutdown` | internal/hub/hub.go:90-92 | the end of the loop closes every client's channel |
| `HubServer.Server.Submit` | internal/lpmeter/owner.go:77-87 | the source accepts a verb exactly when it is known and the queue has room |
| `HubServer.Server.GateMessage` | internal/hub/hub.go:271-294 | the first part of the message handler, up to the load of the latest snapshot |
| `HubServer.Server.GateCommand` | internal/hub/hub.go:278-294 | the gates of a command, in the source's order |
| `HubServer.Server.SubmitGated` | internal/hub/hub.go:295-299 | the submit, and what the ack will say |
| `HubServer.Server.SendAck` | internal/hub/hub.go:310-327 | the ack, and when exactly sending it panics |
| `HubServer.Server.FinishMessage` | internal/hub/hub.go:295-327 | what is left of a message after its gate: submit and ack |
| `HubServer.Server.HandleClientMsg` | internal/hub/hub.go:271-308 | a message handled without interruption takes the three steps, and when exactly it panics |
| `HubServer.Server.EndReader` | internal/hub/hub.go:242-249 | the end of a reader: one attempt to unregister |
| `Versions.Digits` | internal/update/update.go:208-223 | accepts exactly nonempty digit strings, saturating |
| `Versions.ParseCore` | internal/update/update.go:142-149 | the loop over the parts of the core |
| `Versions.ParseTag` | internal/update/update.go:142-153 | the parser past the describe tail |
| `Versions.ParseVersion` | internal/update/update.go:125-154 | the parser computes the reading the round-trip theorems are about |
| `Versions.DescribeTailIsTheMatch` | internal/update/update.go:121-123 | the describe tail matches at most once in a string, and there |
| `Versions.ComparePreID` | internal/update/update.go:194-206 | pre-release identifiers of either kind |
| `Versions.Compare` | internal/update/update.go:156-184 | the two loops compute the order the laws below are about |
| `Versions.IsNewer` | internal/update/update.go:225-234 | strictly newer, and false when either side has no numeric core |
| `VersionOrder.OrderFlips` | internal/update/update.go:163-206 | swapping the sides swaps the sign; a version equals itself |
| `VersionOrder.OrderChains` | internal/update/update.go:163-206 | transitivity of older, equal and newer over cores of any length, missing and present pre-releases, mixed identifiers and commit counts |
| `VersionOrder.NewerIsStrict` | internal/update/update.go:225-234 | "newer" is a strict partial order on version strings |
| `VersionOrder.TiesAreCongruent` | internal/update/update.go:163-206 | versions that tie compare alike with any third |
| `VersionRoundTrip.RoundTrip` | internal/update/update.go:104-154 | a well-formed version is read back from its printed form if and only if nothing at the end of its tag text reads as space, -dirty or a describe tail |
| `VersionRoundTrip.DecorationsChangeNothing` | internal/update/update.go:103-154 | surrounding space, one leading v or V and one trailing -dirty change nothing |
| `VersionRoundTrip.StrippedIsPrefix` | internal/update/update.go:135-141 | text that does not keep its end is read as the tag of a strict prefix of it |
| `SemVer.OrderIsSemVer` | internal/update/update.go:156-184 | on valid versions within the bound the comparison is the precedence of section 11 of Semantic Versioning 2.0.0, stated independently |
| `SemVer.SemVerParses` | internal/update/update.go:125-154 | the text of such a version parses to it if and only if it keeps its end, that is, does not itself end in -dirty or a describe tail |
| `SemVer.NewerIsSemVer` | internal/update/update.go:225-234 | so of two such version strings `IsNewer` picks the one the standard ranks higher |
| `SemVerExact.RankedRightIffKeeps` | internal/update/update.go:125-154 | a valid version is ranked as the standard does, in both directions and against every valid version that keeps its end, if and only if it keeps its own end |
| `SemVer.SaturationIsExactBelowBound` | internal/update/update.go:208-223 | saturated numbers compare right if and only if they are equal or one is below the bound |
| `SemVer.BuildMetadataIsNotUnderstood` | internal/update/update.go:142-149 | a release with build metadata, whatever it is, has no numeric core for the parser |
| `SemVer.PreReleaseMetadataCounts` | internal/update/update.go:142-152 | a valid pre-release with build metadata, whatever it is, never ties with the same version without it |
| `SemVer.DescribeBuildsSortBetweenTags` | internal/update/update.go:11-15 | a describe build n ≥ 1 commits past a release is newer than that tag and older than the next, through the parser and whatever the hash |
| `ReleaseChecker.Checker.constructor` | internal/update/update.go:343-371 | which version is compared and whether checks run at all |
| `ReleaseChecker.Checker.Record` | internal/update/update.go:432-465 | what a finished check changes, and whether a notice is logged |
| `ReleaseChecker.Checker.CheckIfDue` | internal/update/update.go:415-430 | a request goes out exactly when the rule allows it; a shutdown records nothing |
| `ReleaseChecker.Checker.RunLoop` | internal/update/update.go:385-413 | the loop over the timer's evaluations |
| `ReleaseChecker.Checker.Status` | internal/update/update.go:467-500 | the snapshot the web page gets |
| `ReleaseChecker.OffMakesNoRequest` | internal/update/update.go:388-397 | with the setting off or a build that is not compared, nothing ever happens |
| `ReleaseChecker.DevelopmentBuildsNeverCheck` | internal/update/update.go:29-31 | a development build, or one without a numeric core, never makes a request unless the test hook is set |
| `ReleaseChecker.RequestsAreSpaced` | internal/update/update.go:242-259 | on a monotone clock, in every run, each request starts at least 24 h after every earlier success and 1 h after every earlier failure |
| `ReleaseChecker.NextRequestIsSoon` | internal/update/update.go:402-441 | in every run on a monotone clock, with evaluations one interval apart after the latest result, the next request leaves less than 24 h plus one interval after a success and less than 1 h plus one interval after a failure, and not before the wait |
| `ReleaseChecker.NextRequestByDefault` | internal/update/update.go:78-83 | with the program's hourly re-evaluation the next request leaves less than 25 h after a success and 2 h after a failure |
| `ReleaseChecker.StatusTellsHistory` | internal/update/update.go:435-500 | in every run the page shows an update exactly when the latest successful check found a newer tag, with its release and time, and the notices are exactly the newer tags found without consecutive repeats |
| `ReleaseNotices.NoticesAreNewsworthy` | internal/update/update.go:443-452 | in every run each notice is for a newer tag and no two consecutive ones are for the same |
| `ReleaseNotices.OncePerTagIffContiguous` | internal/update/update.go:26-27 | in every run each tag is announced once if and only if the occurrences of each newer tag found are contiguous |
| `ReleaseNotices.ReturningTagIsAnnouncedAgain` | internal/update/update.go:448-452 | any two newer releases found as a, b, a by checks a day apart are announced as a, b, a |
| `ReleaseNotices.TagIsAnnouncedTwice` | internal/update/update.go:448-452 | a concrete run that does |

## Left out

- Floating point: watts and SWR are exact rationals; binary rounding of `float64` is not modelled.
- Integer widths: sequence numbers are unbounded (the 64-bit wrap is out of reach); the saturation bound is
  the 64-bit one, and no proof depends on its value, so 32-bit builds differ only in the constant.
- Time stamps inside snapshots and frames, and all log output other than the release notice.
- Router.RunLoop.OnFrame: what the router sends is an attempt; a full `out`, scope or spectrum channel drops
  it in the source, and cancellation of the context ends the run. Neither is part of the model.
- That the page of a buffer is the page it was sampled on: the label is that of the last telemetry frame, and
  the source keeps no more. Nor is the sticky status ever cleared within a run.
- A meter that answers an OUT report with no IN frame or more than one: the closed loop assumes one answer to
  each, in order, and nothing of what it is.
- WholeServer.AckedVerbsReachTheMeter: scope and spectrum frames reach the hub with any content, not through
  their own channels.
- Decoding.DecodeInvertsBuild: the status slot of a canonical snapshot is empty, as in the frame builder.
- HidOwner.HIDOwner.DrainCommands: verbs that arrive during the settle are a finite list given beforehand,
  so that the method terminates; that the source's drain need not return is `OwnerLoop.DrainCanLast`.
- HubServer.Server.HandleClientMsg: as a method it runs without interruption; the interleavings of its three
  parts with the hub and other clients are those of `Hub.Step`.
- JSON encoding of hub frames is abstract (a frame is what it encodes) and never fails; scope and spectrum
  messages carry their samples without the channel label.
- SampleJson.ParseOfPrinted: the parser reads arrays without white space, which the printer never writes.
- Versions.ParseVersion: strings are Unicode scalar values; invalid UTF-8 is not modelled.
- SemVer.NewerIsSemVer: for versions whose text keeps its end, which is exactly where it holds
  (`SemVerExact.RankedRightIffKeeps`), and whose numbers are within the saturation bound.
- ReleaseChecker.NextRequestIsSoon: the delay before the first evaluation and the real timer's jitter are not
  modelled; evaluations are exactly one interval apart.
- The release request itself, its JSON and HTTP status, the vetting of the release page link and the HTTP
  handler: a request ends with a tag and a vetted link, with an error, or cut short.
- The WebSocket upgrade, the read and write pumps, pings and deadlines: only the connect, message, receive and
  disconnect events they produce.
- Device enumeration and I/O, the simulator, the probe, configuration, the web UI and the main program.
