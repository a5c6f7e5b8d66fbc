# Verified models of the streaming server's core

This project models the parts of the server whose correctness rests on more than one function, and
proves what they are for. Every claim is for all inputs, all interleavings or all runs, unless its row
says otherwise. `dafny verify dfyconfig.toml` checks everything.

| modules | component |
|---|---|
| `PathSpec`, `PathEffects`, `PathActor` | one path: on-demand machines, timers, hooks, held requests, readers, recorder and forwarders; the step system with its theorems, what each event achieves, and the object that refines it |
| `Handoff`, `PathManager`, `PathConf`, `Lex` | the manager and its paths as communicating processes; resolution and reload of configurations |
| `Recorder`, `RecorderRuns`, `RecorderLaws`, `RecorderParts`, `RecorderTiming`, `RecorderRotation`, `RecorderWrites`, `RecorderActor`, `RecorderPlayback` | the fMP4 recorder: specification, what every run keeps, timing, rotation, what one more sample does, the objects, and what playback reads back |
| `Playback`, `PlaybackCuts`, `PlaybackMp4`, `PlaybackEnds`, `PlaybackFeed`, `PlaybackSeek`, `PlaybackRecorded`, `PlaybackMuxers` | the two playback muxers, where the incremental one cuts, what both write field by field, the loop that feeds them, several segments in a row, from recording to request, and the objects |
| `FastStart`, `FastStartMeaning` | the fast-start remuxer, compared with the meaning of the fragmented file |
| `Degrade`, `DegradeRuns`, `DegradeExact`, `DegradeActor` | the publish-degrade controller: one sample, whole runs of sessions and readings, when exactly it acts, and the objects |
| `HealthLog` | the lossy event collector under interleaving |
| `Wire`, `ControlCodec`, `ControlReaders` | the control messages on the wire, and what is read from them |
| `Cleaner` | the disk-space reclaimer |
| `GoArith`, `Wrappers` | Go's truncating arithmetic, conversions, and `Option` |

Each component is built the same way. Pure functions say what a step does; an invariant over those
steps is proved for every run; the objects and loops of the source are classes and methods whose
postconditions tie them to these functions.

The environment of a path is taken to behave: an armed timer may fire at any time, a static source
reports ready only between its start and stop and not-ready only after ready, hot reloads are those the
manager found compatible, and configurations have passed validation. Nothing is assumed about the order
in which requests, timers, reports, reloads and closes arrive.

## What turned out not to hold

Where the source does less than its comments or names suggest, the code is kept as it is, a lemma gives
the input that shows it, and another gives the exact condition.

- A request held on a `runOnDemand` path after its publisher dropped is bounded by no timer
  (`PathSpec.PublisherDropLeavesHoldUnbounded`); it is bounded exactly while the command has not
  produced a publisher (`PathSpec.PublisherHoldIsBoundedIff`).
- A publisher machine that is ready without a reader is not always about to close: exactly if its publisher is gone
  (`PathSpec.EveryRunClosesOnlyIdle`, and `PathSpec.PublisherDropLeavesHoldUnbounded` for a run).
- A path that nothing uses is not always noticed: a reload can make one, and no other event can
  (`Handoff.ReloadIsNotNoticed`, `Handoff.UnusedPathsAskToClose`).
- Two paths of one name can be alive at once: exactly when the manager creates a path while the old one of that
  name lingers, which a free manager lets happen only after the node began to shut down
  (`Handoff.ShutdownAdmitsTwo`, `Handoff.TwoPathsIff`, `Handoff.LingersOnlyAtShutdown`).
- A static path can be lost when an idle close overtakes the hot reload that made it static, and stays lost until
  the next request for it or the next reload (`PathManager.OvertakingCloseLosesStatic`,
  `PathManager.StaticCanBeLostIff`, `PathManager.LostStaticComesBackIff`).
- Two catch-all entries would make resolution depend on map iteration order
  (`PathConf.TwoCatchAllsAreAmbiguous`, `PathConf.ResolutionIsUniqueIff`); loading rejects them.
- A new segment starts within a second of the newest pending sample only if that sample is not more
  than a second before zero (`RecorderRotation.FarNegativeRun`, `RecorderRotation.StartIsWithinASecondIff`).
- A base time can be late for a negative decode time (`RecorderTiming.LateBaseRun`,
  `RecorderTiming.BaseTimeIsLateIff`, and for the sample a recording starts with
  `RecorderTiming.FirstBaseIsLateIff`).
- 32-bit durations lose gaps of 2^32 ticks or more, exactly those: in recordings (`RecorderTiming.WideGapIsLost`,
  `RecorderTiming.KeepsTimeIff`), in both playback formats (`Playback.WideGapIsLost`,
  `Playback.KeptDurationsAddUpIff`, `PlaybackCuts.FinishedPartsFollowIff`, `PlaybackMp4.WideGapIsLost`, `PlaybackMp4.Mp4TimelineIff`) and in remuxed files,
  where time running back is lost too (`FastStartMeaning.WideGapIsLost`, `FastStartMeaning.RunningBackIsLost`,
  `FastStartMeaning.KeepsTimeIff`).
- Playback does not always feed every sample before the requested end: once any track reached its end, nothing
  after the next media data is read (`PlaybackFeed.OtherTracksEndLosesSamples`, `PlaybackFeed.AllBeforeEndFedIff`).
- The whole-file muxer refuses a file because of the track fed last, whatever the others hold
  (`PlaybackMp4.Mp4RefusesOtherTrack`, `PlaybackMp4.Mp4FlushFailsIff`).
- A segment with a fragment of a track whose time scale is zero makes playback divide by zero, exactly if such a
  fragment is read before the walk stops (`PlaybackFeed.ZeroScaleDivides`, `PlaybackFeed.DividesByZeroIff`). A flush
  in mid-stream never reports "no segments" for any segment, window and time scales (`PlaybackFeed.EveryWalkRuns`);
  the muxer alone would, if and only if a time scale were zero (`Playback.MuxerNeverFailsIff`).
- The last sample of a remuxed track does not keep its declared duration if an empty fragment follows
  that claims another time (`FastStartMeaning.LastDurationCanBeLost`, `FastStartMeaning.LastDurationIsKeptIff`).
- An event can be stranded in the queue after the collector finished draining: exactly if some `Emit` call is then
  still before its last attempt to enter (`HealthLog.LateEmitIsStranded`, `HealthLog.StrandsIff`).

## Model

| member | source | states |
|---|---|---|
| `PathSpec.StepKeepsInv` | internal/core/path.go:272-356 | every handler keeps the invariant: each timer armed exactly in its state, un-demand hook set exactly while the publisher machine is not initial, on-demand source running exactly while its machine is not initial, no close timer while anyone reads, recorder and both forwarders exactly as configured while a stream is available, readers only with a stream and within the limit, requests held only without a stream, every accepted request held or answered exactly once, and no nil hook called |
| `PathSpec.RunKeepsInv` | internal/core/path.go:272-356 | the invariant holds in every state of every run the environment can produce |
| `PathSpec.TerminateIsClean` | internal/core/path.go:229-267 | terminating from any state of the invariant leaves nothing held, armed or running, and tells all who waited that it terminated |
| `PathSpec.EveryRunEndsClean` | internal/core/path.go:188-270 | from start to termination, whatever the mix of timeouts, readiness, overrides, reloads and closes: every accepted request got exactly one answer, every on-demand start exactly one stop, and nothing faulted |
| `PathSpec.WaitingReadersAreAnsweredFairly` | internal/core/path.go:1146-1180 | held readers are answered in order; one gets the stream exactly if it is a reader afterwards, and is refused only when the path is full |
| `PathSpec.EveryRunClosesOnlyIdle` | internal/core/path.go:1157-1171 | in every run an idle close finds nobody reading; an on-demand source or publisher that is there has its close timer running if and only if nobody reads it; a ready publisher machine has no reader if and only if its publisher is gone |
| `PathSpec.EveryRunKeepsReaders` | internal/core/path.go:272-356 | in every run an event costs someone the stream if and only if it is their own leaving, or the source or publisher goes: no timer, reload or other request does |
| `PathSpec.StaticHoldIsBounded` | internal/core/path.go:358-370 | on an on-demand static source a held request always has the start timeout running, and that timeout answers every accepted request |
| `PathSpec.PublisherHoldIsBoundedIff` | internal/core/path.go:380-396 | on an on-demand publisher path a held request has a timer that can still answer it if and only if the machine is waiting for its publisher |
| `PathSpec.PublisherDropLeavesHoldUnbounded` | internal/core/path.go:503-547 | a concrete run after which a request is held and no timer at all is armed |
| `PathEffects.StaticReadyEffect` | internal/core/path.go:445-482 | a ready source opens the stream and answers everything held, in order: describes with the stream, readers with the stream exactly if they read afterwards, refused only by a full path |
| `PathEffects.AddPublisherEffect` | internal/core/path.go:549-609 | a publisher is told it is refused, and why, and nothing changes; or it is the source, the stream is open, everything held was answered as a ready source answers it, and then the publisher |
| `PathEffects.AddReaderEffect` | internal/core/path.go:611-634 | with a stream a reader gets it and reads, or is refused, exactly if it is new and the path full; without one it is held while something is on its way, or told there is none |
| `PathEffects.DescribeEffect` | internal/core/path.go:503-540 | a describe is redirected, given the stream, held while something is on its way, sent to the fallback, or told there is no stream, in this order |
| `PathActor.Live` | internal/core/path.go:188-270 | the object with all its handlers, run over any possible events, keeps the invariant all along and ends clean |
| `PathActor.Path.Handle` | internal/core/path.go:272-356 | one turn of the event loop keeps the invariant and is one step of the specification |
| `PathActor.Path.ReplyToDescribes` | internal/core/path.go:359-362 | the loop over held describes answers each of them once, in order |
| `PathActor.Path.ReplyToReaders` | internal/core/path.go:364-367 | the loop over held readers answers each of them once, in order |
| `PathActor.Path.ConsumeOnHoldRequests` | internal/core/path.go:917-929 | the two loops over held requests answer each of them once |
| `PathActor.Path.SetNotAvailable` | internal/core/path.go:931-953 | closing a stream stops recorder and forwarders and drops the readers |
| `PathConf.CanBeUpdatedIsEquivalence` | internal/core/path_manager.go:21-62 | being hot-reloadable into each other is an equivalence, so late or reordered reloads still meet a compatible path |
| `PathConf.CanBeUpdatedIff` | internal/core/path_manager.go:21-62 | an entry can be hot-reloaded into another if and only if they agree in every field a path is built from |
| `PathConf.FindPathConf` | internal/conf/path.go:166-206 | gathering, sorting and scanning in any map order answers a resolution in the declarative sense: the entry of that name, else nothing for an invalid name, else the matching entry whose name is alphabetically least, a catch-all only if nothing else matches |
| `Lex.LessIff` | internal/conf/path.go:185-195 | a name comes before another if and only if it is a proper prefix or smaller at the first difference |
| `PathConf.ResolutionIsUniqueIff` | internal/conf/path.go:166-206 | the answer is independent of map iteration order if and only if no two matching catch-alls compete |
| `PathConf.LoadedIsNeverAmbiguous` | internal/conf/path.go:166-206 | with at most one catch-all no name is ambiguous |
| `PathConf.TwoCatchAllsAreAmbiguous` | internal/conf/path.go:166-206 | with two catch-alls both answers are possible |
| `Handoff.DoKeepsInv` | internal/core/path_manager.go:183-242 | every exchange between callers, manager and paths, and every creation of a static path at start or after a reload, keeps the invariant of the whole system |
| `Handoff.RunKeepsInv` | internal/core/path_manager.go:183-242 | hence every interleaving does |
| `Handoff.PendingIsExact` | internal/core/path_manager.go:395-502 | the pending counter of a served path is exactly the number of requests handed out for it and not yet taken |
| `Handoff.IdleCloseLosesNothing` | internal/core/path_manager.go:204-207 | an accepted idle close finds no outstanding request, publisher, reader or held request, and nobody is ever left talking to the closed path |
| `Handoff.IdleCloseIff` | internal/core/path_manager.go:204-207 | in every reachable state a path that asks is closed if and only if no caller is on its way to it; its name is then free and the manager waits for it, otherwise nothing changes |
| `Handoff.UnusedPathsAskToClose` | internal/core/path.go:272-356 | in every reachable state a turn that leaves a regular-expression path without source, readers and held requests makes it ask, unless the turn was a reload; and it asks only then |
| `Handoff.ReloadIsNotNoticed` | internal/core/path.go:299-300 | a reload that leaves a path unused without its asking |
| `Handoff.OneLivePathPerName` | internal/core/path_manager.go:308-312 | until shutdown at most one live path exists per name at every step |
| `Handoff.TwoPathsIff` | internal/core/path_manager.go:521-547 | from a state without rivals an act makes two live paths of one name if and only if it creates a path while the old one of that name is not gone and no longer known |
| `Handoff.LingersOnlyAtShutdown` | internal/core/path_manager.go:308-312 | and a free manager no longer knows a path that is not gone only after shutdown began |
| `Handoff.ShutdownAdmitsTwo` | internal/core/path_manager.go:199-202 | a concrete run in which shutdown admits two |
| `PathManager.SurvivalIff` | internal/core/path_manager.go:244-306 | a path survives a reload if and only if its name still resolves and its entries differ in hot-reloadable fields alone, and is sent the new entry exactly if anything changed |
| `PathManager.RecordsFollowResolution` | internal/core/path_manager.go:244-306 | after any requests, reloads, idle closes and deliveries each live path is recorded under the entry its name resolves to now |
| `PathManager.RequestMeetsItsEntry` | internal/core/path_manager.go:395-420 | after any run a request whose name resolves is handed a path recorded under that entry and running with it up to hot-reloadable fields |
| `PathManager.RequestMeetsItsVeryEntry` | internal/core/path_manager.go:395-420 | and with that very entry if reloads arrive in order and none is on its way |
| `PathManager.StaticCanBeLostIff` | internal/core/path_manager.go:204-207 | a static path can be lost if and only if one still runs with a regular-expression configuration |
| `PathManager.ExposedMeansOnTheWay` | internal/core/path_manager.go:275-275 | which, unless reloads were delivered out of order, means that the reload that made it static is on its way |
| `PathManager.LostStaticComesBackIff` | internal/core/path_manager.go:298-305 | a lost static path comes back with a request for it or a reload that keeps it static, and with nothing else |
| `PathManager.EveryOrderlyRunKeepsStatics` | internal/core/path_manager.go:130-165 | from the start on, in every run with reloads in order and before idle closes, every non-regexp entry has its live path, and every path is recorded under the entry its name resolves to |
| `PathManager.OrderlyRunsKeepStatics` | internal/core/path_manager.go:244-312 | if reloads arrive in order and before idle closes, every non-regexp entry always has its live path, running that very entry |
| `PathManager.OvertakingCloseLosesStatic` | internal/core/path_manager.go:275-275 | without that order the static path can be lost |
| `PathManager.Manager.DoReloadConf` | internal/core/path_manager.go:244-306 | the two loops and the creation of missing static paths compute the specified reload |
| `PathManager.Manager.ReconcilePaths` | internal/core/path_manager.go:260-294 | the loop over live paths closes, keeps or reloads each as decided |
| `PathManager.Manager.ChangedEntries` | internal/core/path_manager.go:245-258 | the first loop finds exactly the changed entries, split by whether they can be hot reloaded |
| `PathManager.Manager.DoRequest` | internal/core/path_manager.go:395-420 | a request resolves its name and creates the path if there is none |
| `PathManager.Manager.DoClosePath` | internal/core/path_manager.go:308-312 | closing removes the entry and nothing else |
| `GoArith.ScalingIsExact` | internal/recorder/format_mpegts.go:30-40 | divide-first scaling equals the exact product divided once and truncated toward zero, for every sign |
| `GoArith.ScalingDoesNotOverflow` | internal/recorder/format_mpegts.go:30-40 | no intermediate value leaves 64 bits if the result fits and scale times divisor does |
| `GoArith.ClockRatesDoNotOverflow` | internal/recorder/format_mpegts.go:30-44 | which holds for every clock rate, in both directions |
| `GoArith.TimestampMonotone` | internal/recorder/format_mpegts.go:42-44 | converting ticks to durations keeps their order |
| `GoArith.TickRoundTrip` | internal/playback/segment_fmp4.go:29-41 | ticks to nanoseconds and back loses at most one tick and gains none |
| `RecorderLaws.EverySampleIsAccountedFor` | internal/recorder/format_fmp4_track.go:67-141 | in every error-free run each received sample is pending, was discarded as late, or is in exactly the segment it met, once and in order of arrival; decode times are the running maximum of those received |
| `RecorderRuns.WriteKeepsTracks` | internal/recorder/format_fmp4_track.go:67-141 | one write keeps that account for all tracks |
| `RecorderRuns.WriteAppends` | internal/recorder/format_fmp4_segment.go:203-237 | writing to a segment appends to one track and leaves the others alone, across part boundaries |
| `RecorderParts.EveryRunIsWellCut` | internal/recorder/format_fmp4_segment.go:203-237 | in every error-free run all parts but the last of a segment reached the part duration, the end of a part is the latest end of its samples (or zero), its size is that of all its samples and within the limit, and the end of a segment is the latest end of its samples or its start |
| `RecorderParts.WriteKeepsMeasured` | internal/recorder/format_fmp4_part.go:59-84 | writing to a part appends one sample to one track and keeps end and size exact |
| `RecorderTiming.DiscardsPrecedeWrites` | internal/recorder/format_fmp4_track.go:108-111 | per track and segment all discards precede all writes |
| `RecorderTiming.SelectedIsRun` | internal/recorder/format_fmp4_track.go:67-141 | the samples of a track in a segment were received one right after the other |
| `RecorderTiming.SegmentsAreGapless` | internal/recorder/format_fmp4_track.go:78-84 | each stored sample lasts until the next one starts, even if input timestamps went backwards |
| `RecorderTiming.KeepsTimeIff` | internal/recorder/format_fmp4_track.go:84-84 | durations reproduce all decode times of a part if and only if every gap fits 32 bits |
| `RecorderTiming.WideGapIsLost` | internal/recorder/format_fmp4_track.go:84-84 | a run of three samples, the second 2^32 ticks after the first, in which the second plays where the first does |
| `RecorderTiming.EveryRunIsUndrifted` | internal/recorder/format_fmp4_track.go:88-97 | in every error-free run each settled sample is within five seconds of where the wall clock of the track's first sample puts it |
| `RecorderTiming.BaseTimeError` | internal/recorder/format_fmp4_part.go:66-74 | a base time is less than two ticks early and less than one late, and never late for a non-negative decode time |
| `RecorderTiming.BaseTimeIsLateIff` | internal/recorder/format_fmp4_part.go:66-74 | exactly when it is late |
| `RecorderTiming.NegativeTimeCanBeLate` | internal/recorder/format_fmp4_part.go:66-74 | an input for which it is |
| `RecorderTiming.FirstBaseIsLateIff` | internal/recorder/format_fmp4_part.go:66-74 | the sample a recording starts with is late if and only if its decode time is negative and not a whole number of nanoseconds |
| `RecorderTiming.LateBaseRun` | internal/recorder/format_fmp4_track.go:99-116 | a recording that stores such a base time |
| `RecorderTiming.PartTimeline` | internal/recorder/format_fmp4_part.go:59-84 | base times are non-negative, and every sample of a part is off by the same error as its first, however many there are |
| `RecorderRotation.StartIsWithinASecondIff` | internal/recorder/format_fmp4_track.go:19-44 | the new segment starts at most one second before the newest pending sample if and only if that sample is at or after minus one second |
| `RecorderRotation.FarNegativeTimesStartLate` | internal/recorder/format_fmp4_track.go:19-44 | an input for which it starts after everything pending |
| `RecorderRotation.FarNegativeRun` | internal/recorder/format_fmp4_track.go:118-138 | a recording in which the sample a segment was started for is too late for it |
| `RecorderRotation.OldestIsLeastInReach` | internal/recorder/format_fmp4_track.go:30-43 | the start is the least pending time in reach, with the wall-clock time of the sample that has it |
| `RecorderRotation.RotationStartsWithSync` | internal/recorder/format_fmp4_track.go:118-138 | if the track that caused a rotation is within reach, it waits with a sync sample that is in time for the new segment; which track that is says `RecorderWrites.RotatesIff` |
| `RecorderRotation.RunKeepsSync` | internal/recorder/format_fmp4_track.go:118-138 | and however the recording goes on, what that track has in that segment begins with a sync sample |
| `RecorderWrites.HasVideoIff` | internal/recorder/format_fmp4_track.go:68-71 | in every error-free run the recorder remembers exactly whether any video track has received anything |
| `RecorderWrites.RotatesIff` | internal/recorder/format_fmp4_track.go:118-138 | in every error-free run a write rotates the segment if and only if it stores a sample, no video track has received anything yet or this is one, and the sample received is sync and at least the segment duration after the segment's start |
| `RecorderWrites.VideoStartsWithSync` | internal/recorder/format_fmp4_track.go:118-138 | once video was received only a video track rotates, and if it is in reach, what it has in the new file begins with a sync sample, however the recording goes on |
| `RecorderWrites.SegmentStartsArePinned` | internal/recorder/format_fmp4_track.go:99-138 | in every error-free run the first segment starts with the first sample stored, each later one with the oldest pending sample within a second of the newest, with that sample's wall-clock time, and no start ever changes |
| `RecorderWrites.StoredSampleGoesWhere` | internal/recorder/format_fmp4_segment.go:203-237 | in every error-free run a stored sample goes to the last part of its segment while that has not reached the part duration, and starts a new one otherwise; a write that stores nothing changes no segment |
| `RecorderWrites.FailsIff` | internal/recorder/format_fmp4_track.go:88-116 | a run goes wrong with the next sample if and only if the one before it on its track strays by more than five seconds from the wall clock, counted from the first, or must be stored in a part it would make too big |
| `RecorderWrites.ClosingLosesOnlyPending` | internal/recorder/format_fmp4.go:965-969 | closing leaves a file for every segment that holds anything, with all it holds; only the one sample each track waits with is lost |
| `RecorderRotation.RotatedSegmentsHoldSamples` | internal/recorder/format_fmp4_segment.go:138-201 | every rotated-out segment holds a sample |
| `RecorderRotation.FilesJoinIff` | internal/playback/segment_fmp4.go:79-104 | all files of a recording are non-empty and playback joins two of them if and only if they follow each other |
| `RecorderActor.FormatFMP4.Write` | internal/recorder/format_fmp4_track.go:67-141 | the objects together do what the specification says, or report the same error and are left as it says |
| `RecorderRuns.ErrorKeepsSamples` | internal/recorder/format_fmp4_track.go:93-116 | an error costs the sample that caused it; no stored sample and no file changes |
| `RecorderActor.RecordAll` | internal/recorder/format_fmp4.go:965-969 | a whole recording, ended by an error or not: the files are those of the run up to there |
| `RecorderPlayback.RecordedSegmentPlaysInPlace` | internal/playback/segment_fmp4.go:474-512 | what the recorder wrote of a track into a segment playback reads back: every sample, in order, each within two ticks of its exact place, however long the segment |
| `RecorderPlayback.AdvancingIsReadInOrder` | internal/playback/segment_fmp4.go:474-512 | with advancing non-negative decode times it is read in order across parts, as the playback theorems ask |
| `RecorderActor.FormatFMP4.RotateIfDue` | internal/recorder/format_fmp4_track.go:118-138 | the object rotates as specified, and with what start; when that is says `RecorderWrites.RotatesIff` |
| `RecorderActor.FormatSegment.Write` | internal/recorder/format_fmp4_segment.go:203-237 | the segment opens, fills and closes parts as specified |
| `RecorderActor.FormatSegment.Close` | internal/recorder/format_fmp4_segment.go:138-166 | closing moves the open part into the file |
| `RecorderActor.FormatPart.Write` | internal/recorder/format_fmp4_part.go:59-84 | the size limit, the base time of a new track, the sample appended, the end moved |
| `RecorderActor.NextSegmentStartingPos` | internal/recorder/format_fmp4_track.go:19-44 | the two loops compute the specified start |
| `Playback.StartIsLatestSync` | internal/playback/muxer_fmp4.go:61-124 | the place the muxer starts from is the latest sync sample at or before the first visible one, or the beginning |
| `Playback.KeptDurationsAddUpIff` | internal/playback/muxer_fmp4.go:82-85 | kept durations never exceed the time they cover and add up to it if and only if every gap fits 32 bits |
| `Playback.WideGapIsLost` | internal/playback/muxer_fmp4.go:82-85 | two samples 2^32 ticks apart, whose parts do not follow each other |
| `Playback.EveryRunSelects` | internal/playback/muxer_fmp4.go:61-200 | over every interleaving of tracks and flushes in which visible samples go to tracks with a positive time scale, no call fails, parts written plus buffers are exactly the selected samples of each track in order, base times chain if gaps fit, part numbers are consecutive |
| `Playback.FinishedPartsFollow` | internal/playback/muxer_fmp4.go:133-200 | if every gap fits, the parts of a track in the finished file start at its first visible sample and each starts where the one before it ends; part numbers are consecutive |
| `PlaybackCuts.FinishedPartsFollowIff` | internal/playback/muxer_fmp4.go:82-101 | in every run the parts of a track in the finished file follow each other if and only if every gap between visible samples fits 32 bits |
| `PlaybackCuts.EveryRunIsCut` | internal/playback/muxer_fmp4.go:94-101 | in every run base times are decode times of samples, and a gap too wide for a duration always ends a part |
| `PlaybackCuts.PartIsWrittenIff` | internal/playback/muxer_fmp4.go:94-101 | in every run a sample makes the muxer write a part if and only if it is a second or more after the first visible sample of its track not yet written |
| `Playback.FinalFlushWritesSelection` | internal/playback/muxer_fmp4.go:202-204 | after the final flush the file holds exactly the selected samples |
| `Playback.FinalFlushFailsIff` | internal/playback/muxer_fmp4.go:160-167 | the final flush reports "no segments" if and only if no track has anything visible |
| `Playback.FullPartCanFlush` | internal/playback/muxer_fmp4.go:94-101 | a full part always has something to write |
| `Playback.MuxerNeverFailsIff` | internal/playback/muxer_fmp4.go:94-101 | the muxer alone succeeds on every in-order sequence of operations if and only if all time scales are positive |
| `PlaybackMp4.RestartsTogether` | internal/playback/muxer_mp4.go:57-60 | both muxers decide alike when to drop an earlier group of pictures |
| `PlaybackMp4.Mp4RunSelects` | internal/playback/muxer_mp4.go:50-90 | over every interleaving of tracks the whole-file muxer holds exactly the selected samples, with their distances as durations |
| `PlaybackMp4.Mp4TimelineIff` | internal/playback/muxer_mp4.go:62-67 | time offset plus durations reproduce all decode times if and only if the format can express them |
| `PlaybackMp4.WideGapIsLost` | internal/playback/muxer_mp4.go:62-67 | two samples 2^32 ticks apart, of which the second plays at once |
| `PlaybackMp4.Mp4FlushFailsIff` | internal/playback/muxer_mp4.go:92-95 | the file is refused if and only if the track fed last has nothing visible |
| `PlaybackMp4.Mp4RefusesOtherTrack` | internal/playback/muxer_mp4.go:92-95 | even if the incremental muxer has something to write |
| `PlaybackMp4.KeptAgree` | internal/playback/muxer_mp4.go:69-80 | kept samples agree in payload, sync flag, visible durations, and offset unless sync |
| `PlaybackMp4.MuxersSelectTheSame` | internal/playback/muxer_mp4.go:50-83 | fed the same calls, both muxers write the same samples of every visible track |
| `PlaybackEnds.FinalFlushInFull` | internal/playback/muxer_fmp4.go:61-204 | in every run the file of the incremental muxer in full: every selected sample with its own offset, sync flag and payload, lasting nothing before the requested start, else until the next one, and the last until the end told |
| `PlaybackEnds.Mp4RunInFull` | internal/playback/muxer_mp4.go:50-90 | the same for the whole-file muxer: sync samples presented when decoded, each sample lasting until the next one, and the last until the end told |
| `PlaybackEnds.FragmentTellsEnd` | internal/playback/segment_fmp4.go:507-512 | reading a fragment tells its track the end of the samples fed of it |
| `PlaybackFeed.FedIsPrefix` | internal/playback/segment_fmp4.go:474-512 | a muxer gets a prefix of what the segment holds of each track, nothing at or past the requested end, and everything if the end was not met |
| `PlaybackFeed.PlaybackSelects` | internal/playback/segment_fmp4.go:418-532 | from segment to file: both muxers write the recording from the latest sync sample at or before the first visible one up to the last sample fed; fed are the samples before the end among the boxes read until the walk stops |
| `PlaybackFeed.EveryWalkRuns` | internal/playback/segment_fmp4.go:474-512 | for every in-order segment, every window and all time scales no call of the walk on the incremental muxer reports "no segments" |
| `PlaybackFeed.DividesByZeroIff` | internal/playback/segment_fmp4.go:514-514 | the walk divides by zero if and only if it reads a fragment of a track with time scale zero before it stops, and otherwise makes the calls told |
| `PlaybackFeed.ZeroScaleDivides` | internal/playback/segment_fmp4.go:514-514 | one empty fragment of such a track is enough |
| `PlaybackFeed.SegmentDurationIsLongest` | internal/playback/segment_fmp4.go:514-518 | the segment duration is the longest time any fragment that was read reached, or zero |
| `PlaybackFeed.AllBeforeEndFedIff` | internal/playback/segment_fmp4.go:474-524 | everything before the end is fed if and only if no sample of the track before the end lies after the first media data that follows a fragment cut at the end of any track, or after an unknown track |
| `PlaybackFeed.OtherTracksEndLosesSamples` | internal/playback/segment_fmp4.go:474-524 | a segment in which another track's end costs a sample |
| `PlaybackFeed.MuxParts` | internal/playback/segment_fmp4.go:418-532 | the walk over the boxes makes exactly the specified calls, stops at the next media data after the end, rejects unknown tracks, and keeps the segment duration |
| `PlaybackFeed.MuxTrun` | internal/playback/segment_fmp4.go:474-512 | the sample loop |
| `PlaybackSeek.SeekAndMux` | internal/playback/on_get.go:66-112 | the loop over the segments: the first that does not join ends it, the first whose walk fails fails it, and otherwise the calls are those of all joined segments, one after the other; where in time they lie say the rows of `PlaybackRecorded` |
| `PlaybackSeek.SeekSelects` | internal/playback/on_get.go:66-117 | over all joined segments both muxers write what they feed of every visible track, from the latest sync sample at or before the first visible one, wherever among the segments that lies |
| `PlaybackSeek.RecordedFilesAllJoin` | internal/playback/on_get.go:91-93 | consecutive files of one recording are all joined |
| `PlaybackSeek.NothingPastTheEnd` | internal/playback/on_get.go:101-104 | no segment feeds anything at or past the requested end |
| `PlaybackRecorded.FedSamplesAreInPlace` | internal/playback/on_get.go:95-104 | of consecutive files of one recording every sample fed, from whichever file, was recorded and lies within three ticks of its recorded time, counted from the requested start |
| `PlaybackRecorded.DistancesAreKept` | internal/playback/on_get.go:95-104 | so samples of different files are as far apart as they were recorded, to within four ticks |
| `PlaybackRecorded.WholeFilesAreFed` | internal/playback/on_get.go:95-104 | a file all of whose samples lie three ticks or more before the requested end is fed whole, every sample in its place |
| `PlaybackRecorded.RecordedFilesNeverFail` | internal/playback/on_get.go:66-112 | consecutive files of one recording are all joined and none makes the request fail |
| `PlaybackRecorded.LegacyFilesGoByName` | internal/playback/on_get.go:98-100 | what is fed of files without a recorded position lies within a tick of where the time in the file's name puts it |
| `PlaybackMuxers.MuxerFMP4.WriteSample` | internal/playback/muxer_fmp4.go:61-124 | the object does what the specification says, with its state after a failure |
| `PlaybackMuxers.MuxerFMP4.WriteFinalDTS` | internal/playback/muxer_fmp4.go:126-131 | settles the last duration of a track that is visible |
| `PlaybackMuxers.MuxerFMP4.InnerFlush` | internal/playback/muxer_fmp4.go:133-200 | the flush as specified |
| `PlaybackMuxers.MuxerFMP4.CollectTracks` | internal/playback/muxer_fmp4.go:136-158 | the loop over the tracks takes out what each contributes |
| `PlaybackMuxers.MuxerMP4.WriteSample` | internal/playback/muxer_mp4.go:50-83 | the object does what the specification says |
| `PlaybackMuxers.MuxerMP4.WriteFinalDTS` | internal/playback/muxer_mp4.go:85-90 | settles the last duration |
| `PlaybackMuxers.PlayFMP4` | internal/playback/segment_fmp4.go:418-532 | the walk, the incremental muxer it drives and the final flush write the payloads that `PlaybackFeed.PlaybackSelects` tells |
| `PlaybackMuxers.MuxerMP4.Flush` | internal/playback/muxer_mp4.go:92-109 | refused, or the tracks that have samples, in order |
| `FastStart.ReadFragmentedMP4` | internal/recording/faststart.go:132-246 | the box walk, on any sequence of boxes, computes the specified tables or the first error |
| `FastStart.ReadRun` | internal/recording/faststart.go:197-224 | the loop over the entries of a run |
| `FastStart.FindIff` | internal/recording/faststart.go:97-104 | the lookup finds a track if and only if its identifier is there, and then the first that has it |
| `FastStartMeaning.ReadSucceedsIff` | internal/recording/faststart.go:170-243 | remuxing any fragment layout succeeds if and only if all its track identifiers are among the file's, its payload fits the 32-bit bound, and it has a sample; an error names a reason that is there |
| `FastStartMeaning.ReadPreserves` | internal/recording/faststart.go:150-246 | order, size, sync flag, composition offset and byte range of every sample are those the fragmented file means, and durations are the distances of its decode times, gaps between fragments included |
| `FastStartMeaning.KeepsTimeIff` | internal/recording/faststart.go:107-125 | time offset plus durations give every sample its input decode time if and only if time does not run back and the format can express it |
| `FastStartMeaning.WideGapIsLost` | internal/recording/faststart.go:107-117 | a file with a gap of 2^32 ticks, remuxed to none |
| `FastStartMeaning.RunningBackIsLost` | internal/recording/faststart.go:107-117 | a file whose time runs back, remuxed to standing still |
| `FastStartMeaning.LastDurationIsKeptIff` | internal/recording/faststart.go:119-125 | in the remuxed table the last sample has its declared duration if and only if its track ends with a fragment that has samples, or the empty one that follows claims a time that keeps it, clamping and 32-bit wrapping included |
| `FastStartMeaning.NearClaimsKeepIff` | internal/recording/faststart.go:119-125 | for claims less than 2^32 ticks away: the end of the sample, or any time not after its start if it lasts nothing |
| `FastStartMeaning.LastDurationCanBeLost` | internal/recording/faststart.go:119-125 | a file whose last sample of 5 ticks is remuxed to last 90 |
| `Degrade.ChainIsExactlyTheRungs` | internal/degrade/degrade.go:268-310 | the states on the ladder are exactly maxLayers + 2 rungs, one state each |
| `DegradeRuns.RunStaysOnChain` | internal/degrade/degrade.go:170-259 | every state of every run of sessions and readings is on the ladder |
| `Degrade.DegradeGoesDownOne` | internal/degrade/degrade.go:268-297 | a degrade goes down one rung, or stays if at the bottom or if the gate is shut |
| `Degrade.RecoverGoesUpOne` | internal/degrade/degrade.go:299-310 | a recovery goes up one rung or stays at the top |
| `Degrade.RecoverUndoesDegrade` | internal/degrade/degrade.go:268-310 | recovering exactly undoes a degrade that moved |
| `Degrade.CutIffRestart` | internal/degrade/degrade.go:207-259 | a layer is cut exactly when a restart is returned |
| `DegradeRuns.LayerIsLostIffRestart` | internal/degrade/degrade.go:207-297 | at every point of every run a layer is lost exactly if a restart is returned, which needs a bad sample above the gate |
| `DegradeRuns.GateHolds` | internal/degrade/degrade.go:207-259 | a run whose samples stay at or below a positive restart threshold never returns a restart and never loses a layer |
| `DegradeRuns.AlertOnlyAtBottom` | internal/degrade/degrade.go:207-259 | in every run an alert is raised only at the bottom rung, for a bad sample, and moves nothing |
| `DegradeRuns.AlertsAreApart` | internal/degrade/degrade.go:207-259 | two alerts of a run are at least 60 s apart |
| `DegradeRuns.DegradesAreApart` | internal/degrade/degrade.go:191-259 | in every run two degrade or restart actions without a compliant sample or stale gap between them are at least the observation period apart, whatever sessions and counter resets come between |
| `DegradeRuns.RecoveryClosesAWindow` | internal/degrade/degrade.go:191-259 | in every run each recover action closes a window of at least the observation period, opened by a compliant sample, without a bad sample, stale gap or other recovery; readings that feed nothing are no sign of life |
| `DegradeExact.RecoversIff` | internal/degrade/degrade.go:213-256 | in every chronological run a reading recovers if and only if it is compliant, not after a stale gap, and ends a window of at least the observation period without bad sample, stale gap or recovery |
| `DegradeExact.DegradesIff` | internal/degrade/degrade.go:213-244 | in every chronological run a reading degrades if and only if it is bad and no degrade less than the observation period before it, with neither a compliant sample nor a stale gap since, holds it back |
| `DegradeExact.AlertsIff` | internal/degrade/degrade.go:281-292 | in every chronological run a reading alerts if and only if it degrades on the lowest rung and none less than 60 s before it alerted |
| `DegradeExact.SamplesAreJudgedByCount` | internal/degrade/degrade.go:220-232 | bad, compliant and above the gate are comparisons of 100 times the lost packets with a percentage of all packets |
| `DegradeExact.RungFollowsAction` | internal/degrade/degrade.go:268-310 | what each action returned does to the ladder, and when a degrade does nothing to it |
| `DegradeExact.SessionsRaiseTheTop` | internal/degrade/degrade.go:170-183 | a session with more layers than any before starts over at the top; any other changes nothing |
| `DegradeExact.TopIsLargestSession` | internal/degrade/degrade.go:170-183 | in every run the full number of layers is the largest any session has had |
| `DegradeRuns.SustainedLossDescends` | internal/degrade/degrade.go:207-297 | each reading above the gate that degrades is one rung down, with any reconnects between them |
| `DegradeRuns.SustainedLossReachesBottom` | internal/degrade/degrade.go:207-297 | so maxLayers + 1 of them reach the bottom from anywhere |
| `DegradeRuns.ReconnectsAreNeutral` | internal/degrade/degrade.go:170-205 | any mix of sessions with no more layers than seen and of first or reset readings leaves ladder, timers and alerts as they were and returns no action |
| `DegradeRuns.DeltasTelescope` | internal/degrade/degrade.go:191-205 | from a first or reset reading until the next reset the deltas fed add up to last minus first reading, with sessions anywhere between, and none is negative |
| `DegradeRuns.StepOnTimers` | internal/degrade/degrade.go:207-259 | sessions and readings that feed nothing leave the timers alone, and the timers alone decide whether to degrade or recover |
| `DegradeActor.PathState.ObserveSessionLayerCount` | internal/degrade/degrade.go:170-183 | the object as specified |
| `DegradeActor.PathState.TakeSample` | internal/degrade/degrade.go:191-205 | reset detection and what follows from the delta, as one reading of the specification |
| `DegradeActor.PathState.RecordSample` | internal/degrade/degrade.go:207-259 | the controller's step; when it degrades and recovers say `DegradeExact.DegradesIff` and `DegradeExact.RecoversIff` |
| `DegradeActor.PathState.StepDown` | internal/degrade/degrade.go:268-297 | the ladder down |
| `DegradeActor.PathState.StepUp` | internal/degrade/degrade.go:299-310 | the ladder up |
| `DegradeActor.Registry.GetOrCreate` | internal/degrade/manager.go:30-39 | the same state for the same path, every time; a new one starts undegraded and disturbs no other |
| `DegradeActor.Registry.ObserveSessionLayers` | internal/degrade/manager.go:50-52 | a new session meets the state its path already has, or a new one |
| `HealthLog.EveryEventIsAccountedFor` | internal/healthlog/collector.go:83-177 | under every interleaving of producers, consumer and close: emits begun while open are in flight, queued, batched, sent, failed or dropped; queue and batches keep their bounds; the reporter sees a subsequence of entry order from which only then-oldest events are missing |
| `HealthLog.DoKeepsBalance` | internal/healthlog/collector.go:83-177 | every atomic step conserves events |
| `HealthLog.DoKeepsOrder` | internal/healthlog/collector.go:83-177 | every atomic step keeps the order |
| `HealthLog.ReportsIff` | internal/healthlog/collector.go:133-160 | in every run the consumer reports exactly when an event fills the batch, or on a tick or at the end of the drain with something to report, so only those two report less than a full batch |
| `HealthLog.StrandsIff` | internal/healthlog/collector.go:83-105 | after the consumer stopped an event can be stranded if and only if some call is before its last attempt to enter; a refused one only has its drop to count |
| `HealthLog.StoppedNeverReports` | internal/healthlog/collector.go:142-158 | a stopped consumer reports nothing more |
| `HealthLog.CleanShutdownLosesNothing` | internal/healthlog/collector.go:83-113 | if none is, nothing is ever queued again, and whenever nobody is inside an emit every event begun was sent, failed or dropped |
| `HealthLog.LateEmitIsStranded` | internal/healthlog/collector.go:83-105 | a run from the start that strands an event |
| `HealthLog.Collector.Emit` | internal/healthlog/collector.go:83-105 | without interference the newest event always gets in, at the price of at most the oldest, which is counted |
| `HealthLog.EmitAloneIsEmit` | internal/healthlog/collector.go:83-105 | the atomic steps of an emit with nothing in between add up to what the method promises |
| `HealthLog.Collector.Flush` | internal/healthlog/collector.go:125-131 | a non-empty batch is reported once and counted as sent or failed |
| `HealthLog.Collector.Drain` | internal/healthlog/collector.go:142-158 | the drain reports batch and queue in order, in batches of exactly the configured size but for the last, and counts them all |
| `Wire.VarintRoundTrip` | internal/mmxcontrol/client.go:404-405 | every 64-bit number is read back from its encoding, whatever follows |
| `Wire.BytesRoundTrip` | internal/mmxcontrol/client.go:524-527 | every string is read back from its encoding, whatever follows |
| `Wire.SkipsValue` | internal/mmxcontrol/client.go:438-443 | any field within the nesting limit, nested groups included, is skipped exactly |
| `Wire.RefusesValue` | internal/mmxcontrol/client.go:438-443 | any field beyond the limit is refused |
| `ControlCodec.DecodeNodeMsgReq` | internal/mmxcontrol/client.go:415-452 | the decoding loop ends on every byte string and answers the specified command or none |
| `ControlCodec.RecoversCommand` | internal/mmxcontrol/client.go:415-452 | any readable message gives exactly its type, argument and identifier, last value winning, with unknown fields anywhere between them, unless its type is one only nodes send |
| `ControlCodec.IsReadIff` | internal/mmxcontrol/client.go:415-444 | a well-formed message is read if and only if its unknown fields stay within the nesting limit |
| `ControlCodec.HeartbeatIsNoCommand` | internal/mmxcontrol/client.go:397-415 | no heartbeat, whatever its pipelines and capacity, reads as a command |
| `ControlCodec.RegistrationIsNoCommand` | internal/mmxcontrol/client.go:377-395 | no registration, whatever the identity, reads as a command |
| `ControlCodec.PipelinesAreStrictlySorted` | internal/mmxcontrol/client.go:397-400 | a heartbeat's pipelines are the distinct non-empty names, strictly sorted |
| `ControlCodec.HeartbeatIsCanonical` | internal/mmxcontrol/client.go:397-410 | a heartbeat depends only on which pipelines there are |
| `ControlCodec.BuildHeartbeat` | internal/mmxcontrol/client.go:397-410 | the bytes put together are those of the message |
| `ControlReaders.RegistrationSays` | internal/mmxcontrol/client.go:377-395 | from the bytes of a registration a reader gets every part of the node's identity under its own number, the last three only if given, and nothing else |
| `ControlReaders.HeartbeatSays` | internal/mmxcontrol/client.go:397-410 | from the bytes of a heartbeat a reader gets its type, the capacity as an unsigned 64-bit number, and the distinct non-empty pipelines in strict order |
| `ControlCodec.Deduplicate` | internal/mmxcontrol/client.go:529-538 | the loop that writes over the slice it reads |
| `Cleaner.CandidatesIff` | internal/recordcleaner/cleaner.go:235-263 | exactly the segments older than the protected age of whose path there is a newer one may go |
| `Cleaner.YoungAndLatestSurvive` | internal/recordcleaner/cleaner.go:229-263 | anything removed was past the protected age and leaves a newer segment of its path behind |
| `Cleaner.OldestGoFirst` | internal/recordcleaner/cleaner.go:268-280 | anything removed is at least as old as every candidate not reached |
| `Cleaner.FloorIsReachedIff` | internal/recordcleaner/cleaner.go:277-298 | with all sizes known, free space is accounted for exactly, the floor is reached if and only if removing every removable candidate would reach it, and no shorter oldest-first run would have |
| `Cleaner.FallsShortOnlyExhausted` | internal/recordcleaner/cleaner.go:277-298 | whatever the operating system answers, the loop falls short of the floor only after trying every candidate |
| `Cleaner.FreeSinceLastAnswer` | internal/recordcleaner/cleaner.go:289-297 | with unknown sizes, what it knows is the last answer it asked for plus the sizes removed since |
| `Cleaner.EnforceOnRoot` | internal/recordcleaner/cleaner.go:214-298 | for the floor of the root and some oldest-first order of the candidates: nothing without a floor, without known free space, or with enough of it; otherwise the specified deletions |
| `Cleaner.DeleteOldest` | internal/recordcleaner/cleaner.go:277-298 | the deleting loop, failing removals and unknown sizes included |
| `Cleaner.CollectCandidates` | internal/recordcleaner/cleaner.go:237-263 | the collecting loops |
| `Cleaner.MinFreeSpaceForRoot` | internal/recordcleaner/cleaner.go:200-212 | the floor is the strictest of the paths that resolve, or zero |
| `Cleaner.GroupByRoot` | internal/recordcleaner/cleaner.go:179-187 | paths grouped by root, in order |
| `Cleaner.GroupsPartition` | internal/recordcleaner/cleaner.go:179-187 | every path with a root is in exactly one group |

## Left out

- HTTP handlers, admin interface, metrics, authentication, signatures and logging: plumbing with per-field branches.
- Codec callbacks of the recorder and MP4 box marshalling: they call parsers and writers of other libraries; samples and boxes are given parsed.
- `conf.Validate` and reflection-based cloning: long field lists; what validation guarantees is stated where it is used.
- Initialisation of streams and sub-streams: it is taken to succeed; what a failed one leaves behind is not modelled.
- On-demand recording (`StartOnDemandRecording`, splitting) and its interplay with configured recording.
- The path query API, the HLS server registration, and the publish permission check of the manager.
- Real time: time is an explicit integer; the degrade controller's loss rate is an exact real number.
- `BindConn` of the degrade controller, whose read and write are two separate steps, and the pushed messages.
- `RecordSample` of the degrade manager: it only looks a state up and calls `Sample`.
- The legacy duration scan of segments without a duration header.
- Opening files, reading headers and HTTP output around `seekAndMux`; segments are given with their headers parsed.
- The manager's tables and the handing out of requests are two models; that a path handed out runs its entry is stated on the tables.
- Reading of payload bytes: a payload is a number or a byte range, and reading it succeeds.
- `PlaybackFeed.MuxParts`: gives the list of calls made on a muxer, which `PlaybackMuxers.DriveFMP4` then makes, since the two muxers share no class; a failing call ends both.
- `FastStart.ReadFragmentedMP4`: keeps its track tables as values in a local sequence instead of shared objects, so aliasing between the current track and the table is not modelled.
- `RecorderActor.FormatFMP4.Write`: tracks are values in a field, not objects.
- Wrap-around of the 64-bit segment number and of 64-bit decode times: `GoArith.ScalingDoesNotOverflow` says when intermediate values fit.
- Writing the duration into a segment's header (what it is computed from is covered by `RecorderParts.EveryRunIsWellCut`) and the deletion of empty directories.
- Responses and registration acknowledgements of the control protocol, the connection loop and its HTTP fallback.
- A health-log collector without a reporter, which forgets its batches uncounted.
- Age-based deletion of recordings (`deleteExpiredSegments`).
- The library's sort: any order it may leave ties in is covered by `Cleaner.IsOrderOf`; names have no ties.
