# Fleet's session relay, verified

Fleet's server sits between a daemon socket and browsers. Frames of a running agent session come in
over the socket, are checked, mapped, buffered and sent on as a server-sent event stream; the stored
session is shown as a tree next to a transcript. This project models the parts of that relay whose
correctness is not visible in any single function, and proves what they keep over every run.

The model follows the source in kind: objects and module state become classes whose methods change
fields, loops become loops with invariants, expression code becomes functions. A method is specified
by a function of the old state; the results are then lemmas about that function. Asynchronous code is
cut at its `await`s into atomic steps, and the lemmas quantify over every interleaving of the steps.
UUIDs are fresh numbers, timers and socket events are steps, and text whose size in bytes matters is
a sequence of UTF-8 bytes.

## What is modelled

- **From the socket.** `LineFraming` cuts chunks into lines. `CommandSettlement` is the client's
  request table: pending commands, the bounded table of unknown outcomes, acknowledgements, failures
  and reconnects. `SnapshotAssembly` puts a chunked snapshot together. `SequenceGap` is the gap
  tracker with the batching rule of the emitter it watches. `SessionDelivery` is the per-session
  adapter with its cursor, its disconnects and the frames it keeps aside while reattaching.
- **To the browser.** `RingReplay` and `StreamDelivery` are the replay buffer, the resume decision
  and the page that follows the stream, in a recovery and outside one, as one protocol.
- **Mapping events.** `BashPreview` is the bounded tail of command output. `EventMapper` holds the
  mapper's state and steps; `ReasoningEpisodes` proves what the browser sees of reasoning,
  `MessageScope` that the mapper keeps just that for the current message. `RunContents` reads tools,
  text and images off a run's events. `TerminalMessage` assembles the final message, `PartOrder`
  gives its order, and `TerminalConservation` proves that it holds the run's tools and text once,
  with the reasoning, images and errors of its newest message. `RlmForest` rebuilds the tree of
  recursive children breadth first.
- **Trees and positions.** `ParentChains` is the theory of parent chains. `SessionTree` builds the
  tree, `ActiveBranch` flattens it and finds the branch of a leaf, `TreePositions` gives entries
  their message index, `TranscriptHydrator` makes the messages, and `PositionAgreement` proves that
  the two agree. `SessionLineage` is the search for an ancestor over cyclic parent data.
- **Generations.** `CatalogCache` is the single-flight model catalog cache, `PlanWriteChain` the
  queue of plan writes with deletes that void queued writes.
- **Documents.** `HtmlScanner`, `ScanStability` and `HtmlNormalize` are the tag scanner and the
  insertion of the content security policy.

`Wrappers`, `Whitespace` and `TextLines` hold shared definitions.

## Where the code does less than one might expect

Each of these is stated in the project with the input that shows it and the condition under which
the expected property does hold.

- A bash preview folded over chunks can differ from the preview of the whole output when the cut
  falls inside a multi-byte character (`BashPreview.MultiByteStreamDiffers`). The preview is
  exact after every chunk if and only if no step is misaligned (`BashPreview.StreamExact`,
  `BashPreview.StepExact`); single-byte text never is.
- The adapter emits an event that its snapshot covers when a worker generation comes back
  (`SessionDelivery.ReusedGenerationRepeats`): exactly when such an event arrives just after one of
  another generation (`SessionDelivery.CoveredGetsThrough`). Numbers increase per generation under a
  condition of the same kind (`SessionDelivery.IncreasingExactly`). While no generation comes back,
  an event above the snapshot is lost exactly when first arrivals are out of order
  (`SessionDelivery.SnapshotThenEvents`).
- A resume without a generation can leave the page with frames of another buffer and without some
  of this one (`StreamDelivery.GenerationlessResumeMisses`). It is right if and only if the frames
  the page has are the buffer's first ones (`StreamDelivery.GenerationlessResume`).
- Answered questions that the first replay left out are shown after all by a reconnect
  (`StreamDelivery.AnsweredQuestionComesBack`): exactly those that no shown frame followed
  (`StreamDelivery.ReconnectShowsAnswered`).
- A lost frame is not always reported as a gap, although the rule at
  web/server/src/daemon-sequence-gap.ts:9-18 reads so: an update that is flushed first moves the
  position past the loss (`SequenceGap.FlushedUpdateHidesLoss`). `SequenceGap.LossIsReported` says
  exactly which losses are.
- A command whose acknowledgement throws while being written is never settled
  (`CommandSettlement.ThrowingAcknowledgementOrphans`). `CommandSettlement.OrphansComeFromThrows`
  says exactly when none is lost.
- The terminal message of a run does not have the reasoning that was streamed for earlier messages
  of the run (`TerminalConservation.EarlierReasoningIsDropped`), nor their images and errors
  (`MessageScope.ImagesAreNewest`); `TerminalConservation.StreamedReasoningIsScoped` says exactly
  which reasoning it has.
- A terminal message that names one tool call twice shows that part twice
  (`TerminalConservation.RepeatedCallRepeatsPart`), and exactly then
  (`TerminalConservation.ToolsAreConserved`).
- The second result for a call that nothing declared is given a position that the transcript does
  not have (`PositionAgreement.UndeclaredResultsDisagree`); `PositionAgreement.PositionIsHome` says
  exactly which results agree.
- A catalog refresh that throws before it returns a promise leaves the cache with a dead refresh for
  good (`CatalogCache.ThrowingRefreshSticks`, `CatalogCache.StuckForever`). The function the server
  passes is asynchronous and does not do that.
- A delete of plan presentations that fails leaves the old file and still voids the upserts queued
  before it (`PlanWriteChain.FailedDeleteKeepsFile`). `PlanWriteChain.FileIsExact` says when the file
  is exact all the same, `PlanWriteChain.VoidedExactly` which upserts are lost.

## Model

| member | source | states |
|---|---|---|
| `LineFraming.LineBuffer.constructor` | web/server/src/daemon-socket-client.ts:83-99 | the buffer starts empty |
| `LineFraming.LineBuffer.OnData` | web/server/src/daemon-socket-client.ts:387-396 | the completed lines and the kept rest are the buffer and the chunk split at newlines |
| `LineFraming.SplitContinues` | web/server/src/daemon-socket-client.ts:387-396 | more text changes only the last piece of a split |
| `LineFraming.ChunkingDoesNotMatter` | web/server/src/daemon-socket-client.ts:387-396 | any chunking yields the lines of the whole text |
| `LineFraming.FramesArrive` | web/server/src/daemon-socket-client.ts:387-396 | newline-terminated frames arrive exactly as written, with nothing left over |
| `CommandSettlement.DaemonSocketClient.constructor` | web/server/src/daemon-socket-client.ts:83-121 | a new client has issued nothing and is not connected |
| `CommandSettlement.DaemonSocketClient.RememberUnknownOutcome` | web/server/src/daemon-socket-client.ts:101-108 | the command is remembered, and the oldest ones beyond 256 are dropped |
| `CommandSettlement.DaemonSocketClient.Request` | web/server/src/daemon-socket-client.ts:251-295 | a command gets the next id and waits, or is refused, or is settled at once when its write throws |
| `CommandSettlement.DaemonSocketClient.OnTimeout` | web/server/src/daemon-socket-client.ts:264-272 | a timed-out command is rejected; a mutating one is remembered as unknown |
| `CommandSettlement.DaemonSocketClient.OnResponse` | web/server/src/daemon-socket-client.ts:398-429 | a response settles a pending command or clears an unknown one, acknowledging mutating ones first |
| `CommandSettlement.DaemonSocketClient.SendAcknowledgement` | web/server/src/daemon-socket-client.ts:432-439 | an acknowledgement goes out under its own id, if there is a socket |
| `CommandSettlement.DaemonSocketClient.OnFail` | web/server/src/daemon-socket-client.ts:441-463 | the first failure settles every pending command and remembers the mutating ones |
| `CommandSettlement.DaemonSocketClient.Reconnect` | web/server/src/daemon-socket-client.ts:191-211 | a new connection keeps the tables and the id counter |
| `CommandSettlement.StepKeeps` | web/server/src/daemon-socket-client.ts:251-463 | every step keeps the request table's invariant |
| `CommandSettlement.SettlementIsExact` | web/server/src/daemon-socket-client.ts:251-463 | over every run ids never repeat, each command is pending, settled or orphaned exactly once, acknowledgements follow responses of mutating commands once each, and at most 256 unknown outcomes are kept apart from the pending ones |
| `CommandSettlement.OldestDropFirst` | web/server/src/daemon-socket-client.ts:101-108 | over every run, late responses included: the table is, in order, the unanswered commands remembered from some point on, and one remembered before that point and never answered has at least 256 remembered after it |
| `CommandSettlement.OrphansComeFromThrows` | web/server/src/daemon-socket-client.ts:398-439 | over every run: every issued command is pending or settled, exactly once, if and only if no acknowledgement threw, with a socket, for a response to a pending mutating command |
| `CommandSettlement.ThrowingAcknowledgementOrphans` | web/server/src/daemon-socket-client.ts:407-414 | a throwing acknowledgement leaves the answered command unsettled |
| `CommandSettlement.SettledExactly` | web/server/src/daemon-socket-client.ts:251-463 | over every run a command is settled with an outcome if and only if some step gives it that one: an answer, a timeout, a failure, or a request that cannot be written |
| `CommandSettlement.OutcomesAreExact` | web/server/src/daemon-socket-client.ts:264-463 | over every run a mutating command is settled as answered or unknown only, as unknown exactly when it was remembered |
| `CommandSettlement.ResponseIsUsed` | web/server/src/daemon-socket-client.ts:398-439 | a response is used if its command waits or its outcome is unknown, and passed on otherwise; a used one to a mutating command is acknowledged while there is a socket |
| `CommandSettlement.ConnectionGates` | web/server/src/daemon-socket-client.ts:191-211 | only a connection opens the way for commands, only a lost socket or a failure closes it |
| `SnapshotAssembly.CollectSnapshotMessages` | web/server/src/fleet-daemon-connection.ts:121-184 | success exactly when the matching frames are complete, with the chunks joined by index |
| `SnapshotAssembly.IndexChunks` | web/server/src/fleet-daemon-connection.ts:148-165 | every chunk is filed under its index, or the first bad one is reported |
| `SnapshotAssembly.CollectChunks` | web/server/src/fleet-daemon-connection.ts:148-171 | the messages are the chunks in index order, or a chunk is missing or bad |
| `SnapshotAssembly.OrderDoesNotMatter` | web/server/src/fleet-daemon-connection.ts:99-184 | the outcome depends on which frames arrived, not on their order |
| `SnapshotAssembly.ChunkedComplete` | web/server/src/fleet-daemon-connection.ts:121-184 | what a sender chunks is complete |
| `SnapshotAssembly.ChunkThenCollect` | web/server/src/fleet-daemon-connection.ts:99-184 | chunking and collecting is the identity, in any order and between frames of other snapshots |
| `SequenceGap.Tracker.SetBaseline` | web/server/src/daemon-sequence-gap.ts:68-75 | a snapshot or attach response sets the position of its session and no other |
| `SequenceGap.Tracker.Observe` | web/server/src/daemon-sequence-gap.ts:78-143 | a frame moves the one session it belongs to, by that session's position alone |
| `SequenceGap.Tracker.Reset` | web/server/src/daemon-sequence-gap.ts:144-147 | one session's position is forgotten, or all of them |
| `SequenceGap.ObserveAll` | web/server/src/daemon-sequence-gap.ts:78-143 | observing frames one by one reports the gaps of the whole sequence |
| `SequenceGap.NonInterference` | web/server/src/daemon-sequence-gap.ts:68-151 | in any interleaving each session's position and gaps are those of its own frames alone |
| `SequenceGap.AdvanceIsAccounted` | web/server/src/daemon-sequence-gap.ts:9-22 | within a generation the advance is the advancing frames plus the reported missing ones plus what updates absorbed |
| `SequenceGap.CountsFromBaseline` | web/server/src/daemon-sequence-gap.ts:67-143 | whatever was known before, after a snapshot or an attach the next frame reports exactly the numbers between the two, if it is of the same generation and no update |
| `SequenceGap.Forgets` | web/server/src/daemon-sequence-gap.ts:82-84 | after a binding that replaces the session, or a close, the next frame reports nothing |
| `SequenceGap.LosslessHasNoGap` | web/server/src/daemon-sequence-gap.ts:9-22 | an emitter that follows the batching rule never triggers a gap, across flushes and restarts |
| `SequenceGap.LossIsReported` | web/server/src/daemon-sequence-gap.ts:78-143 | over every sequence of acts after a loss: it is reported, once and with its count, if and only if the next thing the emitter sends is a direct frame that is not an update, with no update flushed before it and no restart between; nothing else is reported |
| `SequenceGap.DroppedUpdatesAreReported` | web/server/src/daemon-sequence-gap.ts:19-22 | updates dropped when a turn closes are reported in that case, as many as were parked |
| `SequenceGap.FlushedUpdateHidesLoss` | web/server/src/daemon-sequence-gap.ts:136-139 | a frame lost while an update is parked is never reported: the update that the next frame flushes hides it |
| `SessionDelivery.Adapter.constructor` | web/server/src/fleet-daemon-connection.ts:241-265 | the cursor is the snapshot's and the frames buffered during the attach follow |
| `SessionDelivery.Adapter.OnFrame` | web/server/src/fleet-daemon-connection.ts:445-502 | an event is kept aside while recovering, dropped when the cursor covers it, else emitted |
| `SessionDelivery.Adapter.Emit` | web/server/src/fleet-daemon-connection.ts:576-591 | an emitted event is delivered, or waits for the first listener |
| `SessionDelivery.Adapter.Subscribe` | web/server/src/fleet-daemon-connection.ts:603-607 | the first listener receives everything emitted so far, in order |
| `SessionDelivery.Adapter.OnClose` | web/server/src/fleet-daemon-connection.ts:353-358 | a closed socket starts one recovery and keeps later frames aside |
| `SessionDelivery.Adapter.OnRecovered` | web/server/src/fleet-daemon-connection.ts:405-429 | a reattach sets the cursor from its snapshot and then replays the frames kept aside |
| `SessionDelivery.Adapter.Replay` | web/server/src/fleet-daemon-connection.ts:421-422 | the frames kept aside are processed in order as if they came in now |
| `SessionDelivery.Adapter.OnRecoveryFailed` | web/server/src/fleet-daemon-connection.ts:430-440 | a failed reattach closes the session and drops the frames kept aside |
| `SessionDelivery.AcceptIsRecords` | web/server/src/fleet-daemon-connection.ts:475-493 | with generations that never come back, exactly the events that exceed all before them are emitted |
| `SessionDelivery.SnapshotThenEvents` | web/server/src/fleet-daemon-connection.ts:241-265 | after a snapshot events increase per generation, none is covered by it, and none above it is lost exactly when first arrivals are in order |
| `SessionDelivery.ReusedGenerationRepeats` | web/server/src/fleet-daemon-connection.ts:475-493 | a generation that comes back lets an event through that the snapshot covers |
| `SessionDelivery.CoveredGetsThrough` | web/server/src/fleet-daemon-connection.ts:475-493 | with named cursors, whatever generations come back: an event the snapshot covers gets through if and only if one arrives just after an event of another generation |
| `SessionDelivery.IncreasingExactly` | web/server/src/fleet-daemon-connection.ts:475-493 | with named cursors events increase per generation if and only if no generation comes back with a number that it had reached before, above the snapshot or after another generation |
| `SessionDelivery.UnnamedSnapshotExactly` | web/server/src/fleet-daemon-connection.ts:276 | under a snapshot without a generation, the same two conditions from the first event past its number on; up to there it covers everything |
| `SessionDelivery.UnnamedEvents` | web/server/src/fleet-daemon-connection.ts:475-493 | events without a generation get through exactly when they exceed the cursor and all before them |
| `SessionDelivery.RunsAreConsistent` | web/server/src/fleet-daemon-connection.ts:353-502 | every step keeps what was emitted equal to what the cursor accepts of what arrived |
| `SessionDelivery.DeliveryAfterSnapshot` | web/server/src/fleet-daemon-connection.ts:353-502 | over attach, live frames, disconnects and recoveries the events since the last snapshot have that guarantee |
| `SessionDelivery.DeliveryUnderReuse` | web/server/src/fleet-daemon-connection.ts:353-502 | over the same runs with generations that come back, both exact conditions hold of the events since the last snapshot |
| `SessionDelivery.OutputIsTold` | web/server/src/fleet-daemon-connection.ts:353-440 | over every run a recovery is told as the snapshot notice, then exactly what the frames kept aside emit after that snapshot, then the connected notice; every other step adds its own notice or what its frame emits; no other snapshot notice follows before the next recovery |
| `RingReplay.RingBuffer.constructor` | web/server/src/ring-buffer.ts:14-26 | a new buffer is empty and holds at least one entry |
| `RingReplay.RingBuffer.Push` | web/server/src/ring-buffer.ts:28-38 | a frame gets the next number and the oldest entries beyond the capacity go |
| `RingReplay.RingBuffer.LatestSequence` | web/server/src/ring-buffer.ts:70-72 | the latest number is how many frames were pushed |
| `RingReplay.RingBuffer.ReplaySince` | web/server/src/ring-buffer.ts:47-64 | exactly the frames after the cursor, or an overflow when some of them are gone or the cursor is ahead |
| `RingReplay.RingBuffer.Clear` | web/server/src/ring-buffer.ts:74-78 | a cleared buffer is a new one under a new generation |
| `RingReplay.AboveSuffix` | web/server/src/ring-buffer.ts:60-63 | filtering by number gives the suffix after the cursor |
| `StreamDelivery.Bridge.RingBufferFor` | web/server/src/prime-bridge.ts:288-295 | a session's buffer is made on first use and the others stay |
| `StreamDelivery.Bridge.Dispatch` | web/server/src/prime-bridge.ts:275-286 | a frame is addressed, numbered and appended to its own session's buffer alone |
| `StreamDelivery.Bridge.OpenSessionStream` | web/server/src/prime-bridge.ts:309-328 | the resume decision and the point to replay from |
| `StreamDelivery.ResumeIsExact` | web/server/src/prime-bridge.ts:309-328 | a resume is accepted if and only if it names no generation or the buffer's, its number was given out by the buffer, and every later frame is still there; where the replay starts |
| `StreamDelivery.OpenedBringsUpToDate` | web/server/src/handlers/chat-events.ts:101-163 | a page in recovery that needs no snapshot gets exactly the frames after its cursor, or learns that it needs one; its replay leaves nothing out |
| `StreamDelivery.RecoveryGains` | web/server/src/prime-bridge.ts:309-328 | a page in recovery goes on with the next frame exactly when its cursor is of the buffer and at most a capacity behind, else it needs a snapshot |
| `StreamDelivery.FailedFrameStops` | web/app/src/components/chat/use-pi-chat-events.ts:227-237 | a frame that cannot be applied stops the recovery and is not counted |
| `StreamDelivery.OpenedShowsPage` | web/server/src/handlers/chat-events.ts:94-163 | a page outside a recovery: accepted, it is shown exactly what it missed; with nothing stored, every frame but answered questions, if nothing was evicted; otherwise it is told once to load the session and stands at the end |
| `StreamDelivery.ReconnectShowsAnswered` | web/server/src/sse-replay.ts:6-15 | such a first replay, once lost, is followed at the reconnect by just the answered questions that no shown frame followed |
| `StreamDelivery.AnsweredQuestionComesBack` | web/server/src/sse-replay.ts:6-15 | a reconnect shows the answered question that the first replay left out |
| `StreamDelivery.FirstReplayIs` | web/server/src/sse-replay.ts:6-15 | a first replay shows every frame but answered questions, in order |
| `StreamDelivery.ReconnectGains` | web/server/src/prime-bridge.ts:309-328 | a page that stood at the last frame and comes back after at most a capacity of dispatches loads nothing and gains exactly the frames dispatched meanwhile; otherwise it loads the session and gains none |
| `StreamDelivery.GenerationlessResume` | web/server/src/prime-bridge.ts:309-328 | a page outside a recovery that kept only the number n of frames it was shown and is accepted at a buffer is not told to load the session, and has that buffer's frames if and only if its first n are the buffer's first n |
| `StreamDelivery.GenerationlessResumeMisses` | web/app/src/components/chat/use-pi-chat-events.ts:137-152 | a buffer made anew accepts such a page and leaves it without a frame |
| `StreamDelivery.StepKeeps` | web/app/src/components/chat/use-pi-chat-events.ts:128-239 | every step of buffer, stream and page, recoveries that begin and end included, keeps the protocol's invariant |
| `StreamDelivery.DeliveryIsExact` | web/app/src/components/chat/use-pi-chat-events.ts:133-239 | over every run, from any page outside a recovery: a page in recovery has applied each frame since the recovery began once and in order, and a live stream leaves it at the last frame or needing a snapshot; on a live stream that a page outside a recovery opened and did not read during a turn of its own, the next event is the first frame after its stored number, save answered questions of the first replay, and with nothing on the wire only these are missing |
| `BashPreview.BashPreviewTail` | web/server/src/event-mapper.ts:81-103 | the walk over lines returns the preview that a search for the first fitting line start gives |
| `BashPreview.TailOfLine` | web/server/src/event-mapper.ts:91-96 | a line too long is cut to the bytes there is room for, at a character boundary |
| `BashPreview.UserBash.OnOutput` | web/server/src/event-mapper.ts:1263-1268 | a chunk leaves the preview of the kept output and the chunk |
| `BashPreview.PreviewBounds` | web/server/src/event-mapper.ts:80-103 | at most 50 KiB and 2000 lines, from the earliest line start that fits |
| `BashPreview.StreamIsBoundedSuffix` | web/server/src/event-mapper.ts:1263-1268 | however output was chunked, what is kept is a bounded suffix of it |
| `BashPreview.StepExact` | web/server/src/event-mapper.ts:1263-1268 | keeping only the preview between chunks is exact if and only if the step is not misaligned |
| `BashPreview.StreamEqualsBatch` | web/server/src/event-mapper.ts:1263-1268 | for single-byte text any chunking gives the preview of the whole |
| `BashPreview.StreamExact` | web/server/src/event-mapper.ts:1263-1268 | however output is chunked, what is kept is the preview of everything so far after every chunk if and only if no chunk is misaligned with what came before |
| `BashPreview.CharacterBoundary` | web/server/src/event-mapper.ts:93-94 | a byte that does not continue a character begins one |
| `BashPreview.PreviewKeepsCharacters` | web/server/src/event-mapper.ts:93-95 | the preview of a text is the UTF-8 of one of its suffixes |
| `BashPreview.MultiByteStreamDiffers` | web/server/src/event-mapper.ts:92-95 | a three-byte character for which streaming and batch differ |
| `EventMapper.State.ResetRun` | web/server/src/event-mapper.ts:265-287 | a run starts with no message, text, episode or tool part |
| `EventMapper.State.ClaimIndex` | web/server/src/event-mapper.ts:936-945 | the runtime's index if no episode of the run used it, else the first free one past all used |
| `EventMapper.State.BeginReasoningEpisode` | web/server/src/event-mapper.ts:935-946 | the claimed index becomes the open episode of its runtime index |
| `EventMapper.State.CloseActiveReasoningEpisodes` | web/server/src/event-mapper.ts:954-971 | every open episode gets an end frame with its text, in opening order |
| `EventMapper.State.MapThinkingStart` | web/server/src/event-mapper.ts:1038-1065 | an open episode of the same runtime index is ended before a new one starts with empty text |
| `EventMapper.State.MapThinkingDelta` | web/server/src/event-mapper.ts:1000-1029 | the delta joins the open episode's text, opening one first if there is none |
| `EventMapper.State.MapThinkingEnd` | web/server/src/event-mapper.ts:1066-1092 | the episode ends with the final text if there is one, else with what was streamed |
| `EventMapper.State.MapAssistantStreamEvent` | web/server/src/event-mapper.ts:973-1105 | the state and frames after each kind of stream event |
| `EventMapper.State.MapMessageStart` | web/server/src/event-mapper.ts:818-821 | a message that starts becomes the current one, under an id of the run |
| `EventMapper.State.MapMessageUpdate` | web/server/src/event-mapper.ts:824-838 | an update replaces the current message and its stream event is mapped |
| `EventMapper.State.MapToolExecutionStart` | web/server/src/event-mapper.ts:853-870 | open episodes are ended and the tool part is merged or added |
| `EventMapper.State.UpsertCurrentToolPart` | web/server/src/event-mapper.ts:660-681 | a part with a known call id is merged in place, keeping the first known input; others are appended |
| `EventMapper.State.RememberAssistantMessage` | web/server/src/event-mapper.ts:692-721 | the message's text, calls, images and errors are taken over |
| `ReasoningEpisodes.SearchIsIdle` | web/server/src/event-mapper.ts:936-940 | the search loop for a free index never runs a step, and the index is unused |
| `ReasoningEpisodes.CloseAllKeeps` | web/server/src/event-mapper.ts:954-971 | closing all episodes keeps the invariant and ends each with the deltas it streamed |
| `ReasoningEpisodes.StreamEventKeeps` | web/server/src/event-mapper.ts:973-1105 | every stream event keeps the invariant between indexes, texts and emitted frames |
| `ReasoningEpisodes.RunsKeep` | web/server/src/event-mapper.ts:807-1105 | the invariant holds after every run of events |
| `ReasoningEpisodes.EpisodesAreWellFormed` | web/server/src/event-mapper.ts:923-1105 | per index the frames are a prefix of start, deltas, end or a lone end; a new episode's index has no frame yet; an episode closed implicitly ends with exactly its deltas |
| `MessageScope.RunsAreScoped` | web/server/src/event-mapper.ts:973-1105 | over every run the texts kept are what the browser was told, of indexes claimed since the newest start alone, and every index streamed since then has one |
| `MessageScope.ImagesAreNewest` | web/server/src/event-mapper.ts:722-723 | images and errors are those of the newest message remembered |
| `MessageScope.NothingStaysOpen` | web/server/src/event-mapper.ts:954-998 | over every run, once text, a tool call or a tool begins, each thought of the message has been told its end |
| `MessageScope.UnnamedGoesToNewest` | web/server/src/event-mapper.ts:1000-1003 | a delta that names no index goes to the episode opened last |
| `RunContents.ToolsAreLatest` | web/server/src/event-mapper.ts:660-725 | over every run a call has one tool part exactly if something named it, with the state of the newest event or block for it (a recorded failure stays under a block), the newest result carried and the first input known |
| `RunContents.AnonymousAreKept` | web/server/src/event-mapper.ts:660-666 | parts without a call id are kept as given and in order |
| `RunContents.TextIsSpoken` | web/server/src/event-mapper.ts:683-690 | over every run the text is the deltas in order, and a remembered message's words unless they were said already |
| `RunContents.PicturesAre` | web/server/src/event-mapper.ts:722 | images are those of the message's blocks, in order |
| `RunContents.FramesNameOneMessage` | web/server/src/event-mapper.ts:692-694 | over every run all frames name one message, the one the run ends with |
| `TerminalMessage.FinalizeAssistantMessage` | web/server/src/event-mapper.ts:1352-1418 | blocks in message order, then remaining text, reasoning and tools, then images and errors |
| `TerminalMessage.PushStreamedReasoning` | web/server/src/event-mapper.ts:1375-1382 | streamed texts below a limit are added in index order unless they are there |
| `TerminalMessage.RemainingTools` | web/server/src/event-mapper.ts:1408-1410 | the tool parts that no block of the message called, in order |
| `TerminalConservation.OneText` | web/server/src/event-mapper.ts:1359-1362 | one text part at most: the accumulated text, else the first non-empty text block |
| `TerminalConservation.ToolsAreConserved` | web/server/src/event-mapper.ts:1391-1410 | no tool part is lost, and each appears exactly once if and only if no call repeats |
| `TerminalConservation.ReasoningIsConserved` | web/server/src/event-mapper.ts:1364-1407 | distinct indexes, every text that is kept under its index, every thinking block's text under its own, and nothing else |
| `TerminalConservation.StreamedReasoningIsScoped` | web/server/src/event-mapper.ts:975-983 | over every run an index with a start or a delta is shown, with the text the browser was told, if and only if it was claimed after the newest start of a message |
| `TerminalConservation.EarlierReasoningIsDropped` | web/server/src/event-mapper.ts:979-981 | a thought streamed for an earlier message of the run is not in the terminal message |
| `TerminalConservation.UpsertKeeps` | web/server/src/event-mapper.ts:660-681 | call ids stay distinct, and parts keep their place, id and first input |
| `TerminalConservation.FinalTextAppended` | web/server/src/event-mapper.ts:683-690 | the text only grows, ends with the final text, and appending it again changes nothing |
| `TerminalConservation.EventKeeps` | web/server/src/event-mapper.ts:807-1105 | every event of a run, starts and updates of messages included, keeps tool parts, text and the separation of indexes |
| `TerminalConservation.TerminalMessageIsComplete` | web/server/src/event-mapper.ts:1352-1418 | the message of any run: all of this, with the reasoning, images and errors of the newest message alone |
| `TerminalConservation.RepeatedCallRepeatsPart` | web/server/src/event-mapper.ts:1391-1397 | a run whose message names one call twice repeats its part |
| `PartOrder.PartsInOrder` | web/server/src/event-mapper.ts:1352-1410 | text and tool parts come in the order of the blocks that show them, then the run's text if no block showed it, then the tools that no block called |
| `PartOrder.ThinkingInOrder` | web/server/src/event-mapper.ts:1364-1390 | a thinking block's part stands before the text and tool parts of all later blocks |
| `ParentChains.RootOrCycle` | web/server/src/event-mapper.ts:359-365 | a chain of parents ends at a root if and only if it does not come back to itself |
| `ParentChains.DepthBound` | web/server/src/event-mapper.ts:367-382 | a chain that ends is no longer than the parent table |
| `RlmForest.ComputeRlmExecutionTree` | web/server/src/event-mapper.ts:343-390 | for any list, repeated ids and cycles included: children in list order, and each depth the least number of nodes on a way from the top, or 1 |
| `RlmForest.PlaceChildren` | web/server/src/event-mapper.ts:359-365 | each child is listed under its known parent, or at the top |
| `RlmForest.AssignDepths` | web/server/src/event-mapper.ts:367-382 | the breadth-first pass ends and gives least depths |
| `RlmForest.PlacedOnce` | web/server/src/event-mapper.ts:359-365 | with distinct ids a child is listed once, in one place |
| `RlmForest.DepthIsChain` | web/server/src/event-mapper.ts:367-382 | with distinct ids a way from the top is the chain of parents |
| `RlmForest.ForestIsExact` | web/server/src/event-mapper.ts:343-390 | every id exactly once, its depth its chain's length, and the unvisited ids exactly those whose chain runs into a cycle |
| `SessionTree.BuildSessionTree` | web/server/src/fleet-daemon-connection.ts:79-97 | a forest in which every node's children are exactly its entries, in time order |
| `SessionTree.IndexNodes` | web/server/src/fleet-daemon-connection.ts:82 | every entry is found by its id, with no children yet |
| `SessionTree.LinkNodes` | web/server/src/fleet-daemon-connection.ts:83-90 | every entry is linked under its known parent, or is a root |
| `SessionTree.SortSiblings` | web/server/src/fleet-daemon-connection.ts:91-95 | each list of siblings is sorted, all the way down |
| `SessionTree.SortByTimeSorts` | web/server/src/fleet-daemon-connection.ts:91-93 | siblings come out in time order |
| `SessionTree.SortByTimePermutes` | web/server/src/fleet-daemon-connection.ts:91-93 | sorting loses and adds nothing |
| `SessionTree.SortByTimeIsStable` | web/server/src/fleet-daemon-connection.ts:91-93 | entries of one moment keep their order |
| `ActiveBranch.TreeHoldsTheRooted` | web/server/src/fleet-daemon-connection.ts:79-97 | the flattened forest holds exactly the entries whose chain ends at a root, once each |
| `ActiveBranch.FlatteningIsPermutation` | web/server/src/fleet-daemon-connection.ts:79-97 | flattening is a permutation of the entries if and only if no chain runs into a cycle |
| `ActiveBranch.Walk` | web/server/src/session-tree-mapper.ts:79-91 | the search finds the leaf if it is there and pushes the way back |
| `ActiveBranch.FindActiveBranchEntries` | web/server/src/session-tree-mapper.ts:75-96 | the branch is the way to the leaf, from the top |
| `ActiveBranch.ActiveBranchIsParentChain` | web/server/src/session-tree-mapper.ts:75-96 | the branch is the leaf's chain of parents reversed, or empty when that runs into a cycle |
| `ActiveBranch.ActiveFlagsAreAncestors` | web/server/src/session-tree-mapper.ts:210-250 | for any leaf id: a node is in the snapshot exactly when its chain ends, and is flagged exactly when it is the leaf or an ancestor of it; with no such leaf, or one whose chain does not end, none is |
| `ActiveBranch.FindMapped` | web/server/src/session-tree-mapper.ts:255-270 | looking an id up in the snapshot gives that entry's node with its flags and index |
| `ActiveBranch.MappingKeepsShape` | web/server/src/session-tree-mapper.ts:210-232 | the snapshot has the tree's shape: ids, parents and children in order |
| `TreePositions.CollectContext` | web/server/src/session-tree-mapper.ts:116-177 | the context is the last compaction, what it kept, and what followed it, with at most the newest digest |
| `TreePositions.ContextIsExact` | web/server/src/session-tree-mapper.ts:116-177 | the context is the last compaction, then in branch order exactly the messages after it and those before it from the first one with the kept id on; of digests the newest alone, unless a later compaction carries its own |
| `TreePositions.KeepFromFirst` | web/server/src/session-tree-mapper.ts:155-164 | before a compaction only context entries from the first kept one on |
| `TreePositions.FindNewestDigest` | web/server/src/session-tree-mapper.ts:129-138 | the newest digest message of the branch |
| `TreePositions.ContextIsDistinct` | web/server/src/session-tree-mapper.ts:152-177 | different context entries are different entries of the branch |
| `TreePositions.NoteCalls` | web/server/src/session-tree-mapper.ts:98-109 | every call id of the message is owned by it, the others as before |
| `TreePositions.PlaceEntries` | web/server/src/session-tree-mapper.ts:179-205 | each entry is given its own position, a result that of the message owning its call |
| `TreePositions.BuildMessageIndexByEntryId` | web/server/src/session-tree-mapper.ts:116-208 | the positions of the branch's context entries |
| `TreePositions.PositionsAt` | web/server/src/session-tree-mapper.ts:179-205 | with distinct entries each one is found at its own position |
| `TranscriptHydrator.AttachResult` | web/server/src/transcript-hydrator.ts:586-630 | a result joins the newest message with a part for its call, else becomes a message |
| `TranscriptHydrator.ToChatMessagesFromAgentMessages` | web/server/src/transcript-hydrator.ts:549-633 | the chat messages of all agent messages, numbered by position |
| `TranscriptHydrator.HydratedVisible` | web/server/src/transcript-hydrator.ts:549-633 | a message is in the transcript exactly when it is not hidden and not an attached result |
| `TranscriptHydrator.HydratedHolders` | web/server/src/transcript-hydrator.ts:588-595 | the search from the end finds the newest message that carries the call |
| `TranscriptHydrator.HydratedResults` | web/server/src/transcript-hydrator.ts:596-611 | each message shows, for each call it carries, the last result that belongs there |
| `PositionAgreement.HolderIsOwner` | web/server/src/transcript-hydrator.ts:588-595 | with named calls results are held by the message that declared the call, failing that by the first result |
| `PositionAgreement.PositionIsHome` | web/server/src/session-tree-mapper.ts:198-203 | a result's position is the message that shows it if and only if its call was declared, it has none, or it is the first |
| `PositionAgreement.PositionsAgree` | web/server/src/session-tree-mapper.ts:179-205 | every position names a message that exists, only hidden entries have none, and a result's message shows the last result that belongs there |
| `PositionAgreement.LastResultIsShown` | web/server/src/transcript-hydrator.ts:596-611 | a result that no later one for its call replaces is the one shown |
| `PositionAgreement.UndeclaredResultsDisagree` | web/server/src/session-tree-mapper.ts:198-203 | two results for an undeclared call: the second one's position does not exist |
| `PositionAgreement.SnapshotPositions` | web/server/src/session-tree-mapper.ts:236-270 | from stored entries to snapshot: a context entry is found on the active branch with exactly its position |
| `SessionLineage.HasSessionLineage` | web/server/src/bridge-helpers.ts:383-408 | terminates on cyclic data and is true exactly when some chain of parents reaches a root identifier or path |
| `SessionLineage.ExpandKeys` | web/server/src/bridge-helpers.ts:396-400 | reports a key that is a root, else queues exactly the unvisited sessions the keys lead to |
| `SessionLineage.SearchIsComplete` | web/server/src/bridge-helpers.ts:383-408 | when nothing is pending every chain from the candidate has been visited |
| `CatalogCache.CacheState.ReadModelCatalogSnapshot` | web/server/src/model-catalog-cache.ts:49-53 | the snapshot while it is within its age |
| `CatalogCache.CacheState.LoadModelCatalog` | web/server/src/model-catalog-cache.ts:71-99 | an answer from the cache, the refresh in flight, or a new one |
| `CatalogCache.CacheState.RefreshSettled` | web/server/src/model-catalog-cache.ts:82-96 | a refresh is published unless an invalidation landed since it started; the slot is freed either way |
| `CatalogCache.CacheState.Resume` | web/server/src/model-catalog-cache.ts:99-109 | the delivered snapshot, one retry, then the last good snapshot or an error |
| `CatalogCache.CacheState.InvalidateModelCatalog` | web/server/src/model-catalog-cache.ts:113-117 | the snapshot is dropped and the generation raised |
| `CatalogCache.StepKeeps` | web/server/src/model-catalog-cache.ts:71-117 | every step keeps the invariant of cache, refreshes and calls |
| `CatalogCache.CallsReturnFreshCatalogs` | web/server/src/model-catalog-cache.ts:55-110 | in any interleaving, refreshes that throw included, one refresh runs at a time, a call waits for at most two, and what it returns was read by a refresh started after every invalidation before the call, unless two refreshes were discarded under it |
| `CatalogCache.AnsweredAtOnce` | web/server/src/model-catalog-cache.ts:49-80 | over every run a call is answered at once, by the newest refresh that landed since the last invalidation, if and only if that is no older than asked; otherwise it waits, and a refresh starts exactly when none is in flight |
| `CatalogCache.FallsBack` | web/server/src/model-catalog-cache.ts:99-110 | over every run a call whose second refresh was discarded falls back to the newest refresh that ever landed, and gives up only if none did |
| `CatalogCache.ThrowingRefreshSticks` | web/server/src/model-catalog-cache.ts:80-97 | the slot keeps a dead refresh exactly when it already did or a load that had to start one threw |
| `CatalogCache.ThrowingRetrySticks` | web/server/src/model-catalog-cache.ts:80-110 | the same at a retry: only when the refresh waited for was discarded, an attempt is left, and nothing is cached or in flight |
| `CatalogCache.StuckForever` | web/server/src/model-catalog-cache.ts:79-97 | from then on no refresh starts |
| `PlanWriteChain.PlanStore.UpsertManagedPlanPresentation` | web/server/src/managed-plan-presentations.ts:51-77 | an upsert is queued behind the chain with the generation it saw |
| `PlanWriteChain.PlanStore.DeleteManagedPlanPresentationsForSession` | web/server/src/managed-plan-presentations.ts:79-88 | a delete raises the generation and is queued behind the chain |
| `PlanWriteChain.PlanStore.StartOperation` | web/server/src/managed-plan-presentations.ts:57-60 | an upsert of an older generation is voided |
| `PlanWriteChain.PlanStore.ReadCurrent` | web/server/src/managed-plan-presentations.ts:61-66 | the record replaces the one of its message, or is added |
| `PlanWriteChain.PlanStore.FinishWrite` | web/server/src/managed-plan-presentations.ts:18-33 | the file is replaced as a whole, or stays when the write fails |
| `PlanWriteChain.PlanStore.CleanUpAfter` | web/server/src/managed-plan-presentations.ts:70-98 | the chain is dropped only by its newest operation, and the generation with it after a delete |
| `PlanWriteChain.StepKeeps` | web/server/src/managed-plan-presentations.ts:51-99 | every step keeps order, generations and file consistent |
| `PlanWriteChain.CleanUpKeeps` | web/server/src/managed-plan-presentations.ts:91-98 | the generation is dropped only when nothing is queued that captured one |
| `PlanWriteChain.QuiescentFile` | web/server/src/managed-plan-presentations.ts:51-99 | once settled, whatever became of the last delete: the file is what that delete left with the written upserts issued since put on top in issue order, and none of those was voided |
| `PlanWriteChain.FileIsExact` | web/server/src/managed-plan-presentations.ts:79-98 | the file holds exactly the records written since the last delete if and only if the delete succeeded, or every message with a record in the file it should have removed was written again |
| `PlanWriteChain.VoidedExactly` | web/server/src/managed-plan-presentations.ts:57-60 | over every run an upsert is voided if and only if it starts after a delete issued behind it, whether that delete succeeds or not |
| `PlanWriteChain.LatestRecordIsKept` | web/server/src/managed-plan-presentations.ts:61-67 | one record per message: the one written last since the last delete, else the one that was left |
| `PlanWriteChain.FailedDeleteKeepsFile` | web/server/src/managed-plan-presentations.ts:79-98 | a delete that fails leaves the old file, and an upsert queued before it is lost all the same |
| `HtmlScanner.ScanHtmlTags` | web/protocol/src/openui-artifact.ts:73-128 | the loop returns the tags of the step-by-step scan |
| `HtmlScanner.FindTagEnd` | web/protocol/src/openui-artifact.ts:96-110 | a tag ends at the first `>` outside quotes |
| `HtmlScanner.NameEndsAtBoundary` | web/protocol/src/openui-artifact.ts:113 | a name that begins with a letter always ends at a word boundary |
| `HtmlScanner.TagEndIsExact` | web/protocol/src/openui-artifact.ts:96-110 | a tag ends at the first `>` behind nothing but plain characters and closed quotations |
| `HtmlScanner.TagNameIsExact` | web/protocol/src/openui-artifact.ts:113-118 | a tag's name is what stands behind `<` and an optional slash, spaces aside, in lower case |
| `HtmlScanner.CommentsAreSkipped` | web/protocol/src/openui-artifact.ts:90-94 | a comment is passed over, up to the first end mark |
| `HtmlScanner.RawTextIsSkipped` | web/protocol/src/openui-artifact.ts:79-86 | after the tag of a script or style element nothing is found before the first place that closes it |
| `ScanStability.ScanAtStable` | web/protocol/src/openui-artifact.ts:90-120 | markup that ends by a point is the same whatever follows that point |
| `ScanStability.FindCloseStable` | web/protocol/src/openui-artifact.ts:79-86 | so is the end tag that closes raw text |
| `ScanStability.PrefixScansAlike` | web/protocol/src/openui-artifact.ts:73-128 | up to the end of a tag, documents with the same text before it scan alike |
| `HtmlNormalize.HasCanonicalCspMetaInHead` | web/protocol/src/openui-artifact.ts:282-293 | some canonical meta occurs while a head is open |
| `HtmlNormalize.CanonicalIsExact` | web/protocol/src/openui-artifact.ts:282-293 | a document has the policy if and only if one of its tags is exactly the policy's meta tag and stands where more heads were opened than ended |
| `HtmlNormalize.NormalizeIsExact` | web/protocol/src/openui-artifact.ts:295-308 | right behind the first head tag, else in a new head right behind the first html tag, else in a new document; a document that has the policy stays |
| `HtmlNormalize.NormalizeDocument` | web/protocol/src/openui-artifact.ts:295-308 | the trimmed document with the policy put after the head tag, in a new head after the html tag, or in a new document |
| `HtmlNormalize.NormalizedIsCanonical` | web/protocol/src/openui-artifact.ts:295-308 | every normalized document has the canonical meta inside an open head |
| `HtmlNormalize.NormalizeIsIdempotent` | web/protocol/src/openui-artifact.ts:295-308 | normalizing twice equals normalizing once |
| `HtmlNormalize.UndoRestores` | web/protocol/src/openui-artifact.ts:295-308 | deleting the inserted text gives the trimmed document back |

## Left out

- Replacement snapshots of a live connection: they reset the cursor after an await, so the cursor is not monotone across them (web/server/src/fleet-daemon-connection.ts:504-554).
- The freshness flag of the initial snapshot and session bindings that retarget a connection: no property here depends on them.
- Presentation, status and heartbeat frames: they do not carry cursors.
- StreamDelivery.DeliveryIsExact: how the page loads a session is not modelled; a malformed reasoning frame that a recovery skips counts as applied; the frames of a turn's own response only move the cursor, and while it runs what the page takes from the stream is left out.
- SessionDelivery.IncreasingExactly: streams that mix events with and without a generation.
- The wait for the end frame of a streamed snapshot and its timeout: the collector is modelled from the frames it then finds.
- CommandSettlement.SettlementIsExact: hello frames, listeners and what a listener does with a frame are left out.
- An exception that ends the framing loop early: the remaining lines of that chunk wait for the next one.
- EventMapper.State.MapAssistantStreamEvent: an event names its content index or falls back to the episode opened last; looking the index up in the partial message is done by the caller, and the presentation frames that announce a phase are omitted.
- EventMapper.State.RememberAssistantMessage: the returned chat message and its reasoning parts are not modelled, only what it leaves in the mapper's state.
- Tool identity, categories, durations and error envelopes of tool parts: fields that no step branches on.
- SessionTree.BuildSessionTree: requires distinct entry ids, because with a repeated id the source's recursive sort need not end; node objects that share children by reference are unfolded into a tree value, and timestamps are numbers.
- SessionTree.IndexNodes: requires distinct entry ids, for the same reason.
- ActiveBranch.ActiveFlagsAreAncestors: labels, previews, kinds and roles of nodes are left out.
- PositionAgreement.PositionsAgree: assumes one agent message per context entry, tool calls with names, and results whose calls were declared; content other than tool parts is left out.
- SessionLineage.HasSessionLineage: summaries with the same parents are one value, and resolving a path is a parameter.
- CatalogCache.CallsReturnFreshCatalogs: the clock is a parameter of each step and need not advance.
- PlanWriteChain.QuiescentFile: reading, writing and removing succeed or fail as whole steps, an unreadable file reads as no records, and copying records to a fork is left out.
- HtmlNormalize.NormalizeDocument: the checks for forbidden elements, handlers and network calls that precede it are left out; strings are sequences of characters, not UTF-16 units.
- Object keys such as `__proto__` in the table of recursive children.
- Process spawning, daemon probing, settings, provider catalogs, routes and the user interface.
