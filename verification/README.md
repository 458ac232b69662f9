# Clipboard hand-off daemons, in Dafny

The repository holds several daemons that hand text, images and files from one machine to another:
`mesh-rs` (peer to peer, in Rust, with a chat view), `room-go` (a room server and its daemon) and
the `experiments` (a shared Go daemon with a LAN transport). Each receives items, drops repeats, fans
them out to a clipboard, a folder and an append-file, and later undoes exactly what the session wrote.

This project models the state machines and the algorithms behind that and proves what they promise.
`dafny verify dfyconfig.toml` checks everything. One file is one component:

| file | component |
|---|---|
| `Watcher.dfy`, `WatcherEffects.dfy` | the clipboard watcher of mesh-rs on any number of devices, and its loop guard; what goes out, and what arrives on a clipboard |
| `SharedSinks.dfy` | folder and append-file with a baseline per path (shared-go), and their clearing |
| `AnchorSinks.dfy` | the same with one re-anchored offset (room-go, mesh-rs) |
| `SinkEvents.dfy` | what happens to the sinks in a session; shared by the two |
| `TextLog.dfy`, `SharedEffects.dfy`, `AnchorEffects.dfy` | the append-file as a log of entries; what both kinds of sink write, byte by byte |
| `DedupPath.dfy`, `FileSystem.dfy` | collision-free file names; files as a map from paths to bytes |
| `Iso8601.dfy` | the timestamp formatter of mesh-rs against plain calendar counting |
| `LanPeers.dfy`, `LanEffects.dfy` | peer table and dialer of the LAN transport; who gets connected by them |
| `Broker.dfy`, `BrokerFans.dfy`, `BrokerHistory.dfy` | the room server's fan-out; who is served by it and who is not; its state as its history |
| `Dedupe.dfy`, `Ingest.dfy`, `IngestEffects.dfy` | the window of processed ids; the receive pipeline of the room daemon; where every item goes |
| `RecvLatest.dfy`, `RecvRoom.dfy` | waiting for the next item: in mesh-rs without losing a wake-up, in room-go with exactly what is lost |
| `Chat.dfy`, `ChatEffects.dfy` | chat state of mesh-rs; what it shows, told by what happened |
| `WrapLine.dfy`, `WrapLaws.dfy`, `Layout.dfy`, `LayoutEffects.dfy` | word wrapping and scrollback layout of mesh-rs |
| `Frames.dfy`, `Globals.dfy`, `GlobalsFlags.dfy` | length-prefixed frames; global command-line flags |
| `Items.dfy`, `Util.dfy` | kinds of items; sequence facts |

Objects that update their fields are classes here and loops are loops. Their methods are tied to
functions on values (`Model() == Step(old(Model()))`), and the theorems are proved about those
functions, for all runs. Two components differ: the methods of `Broker.HubObject` state their effect on
rooms and queues directly, for a broadcast that is not interrupted, while the theorems about the hub are
about its step relation; and the waiting requests (`RecvLatest`, `RecvRoom`) are step relations only.
Interleaving is an arbitrary sequence of steps; a step that is not possible when its turn comes is skipped.

## What the proofs found

- **Thumbnails.** `render_messages` hands the scroll offset to the widget as a 16-bit number. A drawn
  thumbnail covers its own ten rows if and only if the offset is below 65536
  (`Layout.ThumbnailCoversItsRowsIff`; `Layout.LongChatMisplacesThumbnail` is a chat where it does not).
- **`clear --all` with one anchor.** The documentation promises truncation to the session-start offset
  (room-go/README.md:96). The code re-anchors whenever text_file changes, so a file left and
  configured again keeps what was appended before. It is never destructive, and it is exact if and only
  if the file has not grown or the anchor still is its original size (`AnchorSinks.ExactRevertIff`,
  `AnchorSinks.SwitchingForgets`). The current text_file returns to what it held when anchored, unless it
  was a non-empty file the session itself had saved, which the clear removes
  (`AnchorSinks.ClearRestoresAnchorIff`, `AnchorSinks.OwnFileIsNotRestored`).
- **Adopted files.** With a baseline per path (shared-go) pre-session files come back exactly. Something
  of a new file is left behind if and only if the file is there, is not among the saved ones and has a
  positive baseline (`SharedSinks.LeftoverIff`), and baselines of new files are all zero if and only if no non-empty file
  the session saved was made the text_file (`SharedSinks.NewBaselinesZeroIff`).
  `SharedSinks.LeftoverInsideSaveDir` is a session where that happens.
- **Image loops.** The recorded hash of an image never matches the watched one; only the grace window
  stops the loop. A watcher sends back what the daemon wrote if and only if it polls an image 2000 ms or
  more after the write, with an older baseline (`Watcher.EchoIffLatePoll`). Broadcasts never exceed user
  copies and such echoes, in any run (`Watcher.BroadcastsWithinCopiesAndEchoes`); with polls less than
  2000 ms apart there are none (`Watcher.BroadcastsWithinCopies`), and `Watcher.LatePollLoops` is a run
  with one.
- **A clean end of file in mid-frame.** `ReadFrame` returns what `io.ReadFull` returns, so a stream cut
  right after a frame's length looks like a clean end (`Frames.TruncatedStream`), and the relay's reader
  loop does not log it.
- **The append-file is ambiguous for texts of several lines.** A text can hold what looks like the header of
  another entry: wherever two entries stand, one entry with a longer text gives the same bytes
  (`TextLog.AnyTwoReadAsOne`). Entries of single lines are told apart, in order
  (`SharedEffects.FileTellsTexts`, `AnchorEffects.FileTellsTexts`).
- **Timestamps.** All timestamps before second n print in the order of their seconds if and only if n is at
  most the first second of the year 10000 (`Iso8601.OrderedExactlyBelow10000`).
- **Waiting.** The room daemon looks at its buffer before it subscribes. A waiting request misses a wanted
  buffered item if and only if it was pushed between the two, or found the request's channel full
  (`RecvRoom.MissedIff`, `RecvRoom.CheckFirstLosesWakeUp`). mesh-rs subscribes first and misses none.
- **Repeats in the buffer.** Ids are marked before blobs are verified, so failing messages make room for an
  item to be buffered twice. Every run with at most m failures keeps its buffered ids distinct if and only
  if m is at most 4033 (`Ingest.DistinctUpToIff`), and a run does so at all times if and only if it
  has no receipt that verifies while its id has left the dedupe window but stays on a buffered item
  (`Ingest.RepeatIff`, `Ingest.AlwaysDistinctIff`; `Ingest.FloodRepeatsIff` are runs at the bound).
- **Reused ids.** In the chat view a send result and a copy have the same effect in either order, unless the
  result moves its bubble in front of, or away from, an item with the copied id that waits to be copied
  (`Chat.SwapIff`, `Chat.ReusedIdMatters`).
- Some documentation still calls `broadcast_on_copy` planned (docs/implementation.md:107 and
  docs/implementation.md:386). mesh-rs implements it, and the model follows the code.

## Model

| member | source | states |
|---|---|---|
| Watcher.BroadcastsWithinCopies | mesh-rs/src/daemon.rs:735-789 | Over every run of any number of devices, modes, deliveries and polls, watcher broadcasts plus undelivered user copies never exceed user copies; devices given images by their daemon must be polled less than 2000 ms apart with readable clipboards |
| Watcher.TextNeverLoops | mesh-rs/src/proto.rs:387-397 | When daemons write only text and file paths the bound holds with no timing condition: the recorded hash alone stops the echo |
| Watcher.BroadcastIsUsersCopy | mesh-rs/src/daemon.rs:769-789 | In runs polled in time, what a watcher sends was put there by the user, not overwritten by the daemon since, and not sent before; `Watcher.EchoIffLatePoll` is the case without timing |
| Watcher.BroadcastIsAChange | mesh-rs/src/daemon.rs:749-768 | A broadcast has an earlier poll of the same device that saw other content, and the mode was on at it and at every poll since: enabling the mode never sends what was there |
| Watcher.BaselineHasPoll | mesh-rs/src/daemon.rs:749-768 | A baseline comes from an actual poll, with the mode on at every poll since |
| Watcher.StepKeepsGuard | mesh-rs/src/daemon.rs:1163-1185 | Every step keeps the guard: what is on a clipboard is the user's own unsent copy, or the watcher will not send it |
| Watcher.EchoIffLatePoll | mesh-rs/src/daemon.rs:758-771 | In every run, whatever its timing, a poll sends something other than the user's unsent copy if and only if it is a readable poll of an image, 2000 ms or more after the last daemon write, with a different baseline and recorded hash |
| Watcher.BroadcastsWithinCopiesAndEchoes | mesh-rs/src/daemon.rs:735-789 | In every run, whatever its timing, broadcasts plus undelivered user copies never exceed user copies plus echoes |
| Watcher.NoEchoIffNeverLate | mesh-rs/src/daemon.rs:735-771 | A run has no echo if and only if none of its polls is late |
| Watcher.NeverLateBound | mesh-rs/src/daemon.rs:735-789 | In such a run broadcasts stay within user copies |
| Watcher.TimedRunIsNeverLate | mesh-rs/src/daemon.rs:742-771 | Polls less than 2000 ms apart with readable clipboards are never late |
| Watcher.StepBudget | mesh-rs/src/daemon.rs:769-789 | Each step pays for what goes out with an owed copy, or it is an echo |
| Watcher.PollSendsOwed | mesh-rs/src/daemon.rs:741-789 | A poll that broadcasts sends exactly the copy still owed for that device |
| Watcher.LatePollLoops | mesh-rs/src/daemon.rs:743-771 | A concrete run with one copy and two broadcasts when a poll comes 2000 ms after the daemon wrote an image |
| WatcherEffects.OwedCopyGoesOutIff | mesh-rs/src/daemon.rs:735-789 | In every run, whatever its timing: a readable poll with the mode on of a device that still owes a copy puts that copy on the network once for every other device, and raises the broadcasts by one, if and only if the copy is not empty, its signature differs from an existing baseline and from the recorded write, and the daemon has not written for 2000 ms; otherwise nothing goes out |
| WatcherEffects.PollSendsIffDue | mesh-rs/src/daemon.rs:741-789 | The same for any contents, owed or not, in any world |
| WatcherEffects.PollSetsBaseline | mesh-rs/src/daemon.rs:749-768 | After a poll the baseline is what was read, is dropped when the mode is off, and stays when nothing could be read |
| WatcherEffects.SendReachesPeers | mesh-rs/src/daemon.rs:654-682 | An explicit send puts the item on the network once for every other device and for no one else |
| WatcherEffects.DeliveryPlacesIff | mesh-rs/src/daemon.rs:612-630 | A delivered item is on the device's clipboard if and only if auto_copy is on, text as text, an image as its pixels, a file as its path; with it off the device stays as it is |
| WatcherEffects.PastePlaces | mesh-rs/src/daemon.rs:1279-1306 | A paste leaves the text, the pixels or the path on that device's clipboard and touches no other device |
| WatcherEffects.ClipboardArrives | mesh-rs/src/daemon.rs:735-789 | From clipboard to clipboard: contents due at one device go out with its next poll, and once delivered to a device with auto_copy on they are on its clipboard, equal to the sender's, text and images alike |
| WatcherEffects.ModesAreLastSet | mesh-rs/src/daemon.rs:748-752 | Over every run both modes of a device are what was last set |
| Watcher.Daemon.PollOnce | mesh-rs/src/daemon.rs:741-789 | One turn of the watcher loop, its new baseline and what it sends |
| Watcher.Daemon.Write | mesh-rs/src/daemon.rs:1163-1185 | The write, the recorded hash and the recorded time for text, image and file path |
| SharedSinks.ExactRevert | experiments/shared-go/daemon/sinks.go:86-196 | After any receipts, sink changes and clears, `clear --all` gives back every pre-session file byte for byte; whatever else remains is a text_file at its baseline size; the blob directory is empty |
| SharedSinks.LeftoverIff | experiments/shared-go/daemon/sinks.go:173-196 | After any session, `clear --all` leaves something of a file that was absent at start if and only if the file is there, was not saved since the last clear, and has a positive baseline |
| SharedSinks.CompleteRevert | experiments/shared-go/daemon/sinks.go:127-196 | When no step made a non-empty session-saved file the text_file, nothing of the session survives but empty text_files that were absent at start |
| SharedSinks.RunKeeps | experiments/shared-go/daemon/sinks.go:19-100 | The invariant behind it, in every reachable state: pre-session bytes are a prefix, baselines are original sizes, saved files are new |
| SharedSinks.StepKeeps | experiments/shared-go/daemon/sinks.go:19-196 | Every operation keeps that invariant |
| SharedSinks.NewBaselinesZeroIff | experiments/shared-go/daemon/sinks.go:127-144 | Over every run, the baselines of all files absent at start are zero if and only if no step recorded one for a non-empty file the session had saved |
| SharedSinks.SeparateSinksNeverAdopt | experiments/shared-go/daemon/sinks.go:127-144 | Text_files outside the save directories never lead to that |
| SharedSinks.LeftoverInsideSaveDir | experiments/shared-go/daemon/sinks.go:127-196 | A session in which an adopted file leaves bytes behind |
| SharedSinks.SinkDaemon.RecordTextBaseline | experiments/shared-go/daemon/sinks.go:127-144 | The first observed size of a path is kept, later ones are ignored |
| SharedSinks.SinkDaemon.AppendTextFile | experiments/shared-go/daemon/sinks.go:61-84 | Baseline first, then the block appended, the file created when absent |
| SharedSinks.SinkDaemon.SaveFile | experiments/shared-go/daemon/sinks.go:86-100 | The first free name is written and remembered; no existing file changes |
| SharedSinks.SinkDaemon.Route | experiments/shared-go/daemon/sinks.go:19-60 | Which sink an item goes to, and under which name |
| SharedSinks.SinkDaemon.ConfigSetTextFile | experiments/shared-go/daemon/handlers.go:264-276 | Configuring a text_file records its baseline at once |
| SharedSinks.SinkDaemon.RevertSinks | experiments/shared-go/daemon/sinks.go:173-196 | Both loops: every baselined file truncated, every saved file removed, in any order |
| SharedSinks.SinkDaemon.ClearSession | experiments/shared-go/daemon/sinks.go:146-171 | The two scopes of a clear |
| SharedEffects.TextFileIsLog | experiments/shared-go/daemon/sinks.go:61-84 | Over every session without a full clear or another text_file, the text_file is its old content followed by one entry per text received, in order: separator, device name or shortened sender, space, stamp, newline, text, newline |
| SharedEffects.TextsShowInFile | experiments/shared-go/daemon/sinks.go:61-84 | Two such sessions that differ in one text leave different text_files |
| SharedEffects.FileTellsTexts | experiments/shared-go/daemon/sinks.go:61-84 | When names, stamps and texts are single lines, two text_files are equal if and only if the same texts were received in the same order |
| SharedEffects.ItemIsSaved | experiments/shared-go/daemon/sinks.go:19-58 | An image or file goes to the save directory with its bytes, under its file name or hash (an image with .png), made unique; no existing file changes |
| SharedEffects.SavedItemStays | experiments/shared-go/daemon/sinks.go:86-100 | It is there with its bytes until a full clear or another text_file |
| SharedEffects.OtherFilesStay | experiments/shared-go/daemon/sinks.go:19-100 | Until then every other file outside the blob directory keeps its bytes |
| SharedEffects.BlobsAreCache | experiments/shared-go/daemon/sinks.go:146-171 | In every session each file of the blob directory is the newest blob stored under its name since the last clear of either kind |
| SharedEffects.SaveDirIsLastSet | experiments/shared-go/daemon/sinks.go:19-60 | The save directory in force is the one last set |
| TextLog.OneTextDiffers | experiments/shared-go/daemon/sinks.go:61-71 | Two logs that differ in one text differ |
| TextLog.TextInLog | experiments/shared-go/daemon/sinks.go:61-71 | Each text is in the log whole, at its place |
| TextLog.OneLineLogsDecode | experiments/shared-go/daemon/sinks.go:61-71 | Entries of single lines are read back off the log: none missing, in order |
| TextLog.AnyTwoReadAsOne | experiments/shared-go/daemon/sinks.go:71 | Any two neighbouring entries read the same as one entry with a longer text |
| FileSystem.TruncateEach | experiments/shared-go/daemon/sinks.go:186-190 | Truncating file after file gives the simultaneous truncation, absent files staying absent |
| FileSystem.RemoveEach | experiments/shared-go/daemon/sinks.go:191-195 | Removing file after file removes exactly that set |
| DedupPath.DedupName | experiments/shared-go/daemon/sinks.go:102-120 | The unbounded search ends, and with the first free candidate |
| DedupPath.AttemptBound | experiments/shared-go/daemon/sinks.go:114-119 | Pigeonhole: no more attempts than taken names plus one |
| DedupPath.CandidatesDiffer | experiments/shared-go/daemon/sinks.go:112-118 | No two attempts try the same name |
| DedupPath.FirstFreeUnique | experiments/shared-go/daemon/sinks.go:102-120 | Whatever is taken, the rule settles on one name only |
| DedupPath.CandidatesKeepExtension | experiments/shared-go/daemon/sinks.go:112-118 | The i-th candidate of `stem.ext` is `stem (i).ext` |
| DedupPath.CandidatesWithoutExtension | experiments/shared-go/daemon/sinks.go:102-118 | The i-th candidate of a name without extension is the name and ` (i)`; an empty name counts as `file` |
| Util.DecimalInjective | experiments/shared-go/daemon/sinks.go:115 | Two numbers that print alike are equal |
| AnchorSinks.NonDestruction | room-go/internal/daemon/session.go:41-109 | In every reachable state, across switches and clears, each pre-session file outside the blob directory exists with its original bytes as a prefix |
| AnchorSinks.StepKeeps | room-go/internal/daemon/session.go:45-211 | Every operation keeps the invariant behind it |
| AnchorSinks.ExactRevertIff | room-go/internal/daemon/session.go:86-109 | `clear --all` restores a pre-session file exactly if and only if it has not grown, or it is the anchored text_file and the anchor is its original size |
| AnchorSinks.ClearRestoresAnchorIff | mesh-rs/src/daemon.rs:240-265 | In every reachable state `clear --all` returns the current text_file to what it held when last anchored if and only if that is still a prefix of it, or, for a file the session saved since the last clear, was nothing |
| AnchorSinks.ClearRestoresAnchor | mesh-rs/src/daemon.rs:240-265 | It does so unless the file, when last anchored, was a non-empty one the session had saved |
| AnchorSinks.OwnFileIsNotRestored | mesh-rs/src/daemon.rs:240-265 | A session that makes a saved file its text_file, and loses that file's byte |
| AnchorSinks.AnchorHolds | mesh-rs/src/daemon.rs:101-112 | Over every run the offset is the size at the last anchoring, and the content then stays a prefix unless the file was one the session had saved |
| AnchorSinks.SteadySinkRevertsExactly | room-go/internal/daemon/session.go:86-109 | A session that keeps its text_file reverts every pre-session file exactly |
| AnchorSinks.SwitchingForgets | room-go/internal/daemon/session.go:45-57 | Going from A to B and back to A keeps what was appended to A before |
| AnchorSinks.AnchorSession.SetAnchor | room-go/internal/daemon/session.go:45-57 | The offset is re-captured exactly on a change of path |
| AnchorSinks.AnchorSession.Route | room-go/internal/daemon/session.go:144-211 | Routing of an item: re-anchor and append, or write under a free name and remember it |
| AnchorSinks.AnchorSession.RevertSinks | room-go/internal/daemon/session.go:86-109 | Truncation only when grown past the offset, then the removal of the saved files |
| AnchorSinks.AnchorSession.ApplyClearScope | room-go/internal/daemon/session.go:70-135 | The scopes all, transient, never, and an unknown one |
| AnchorSinks.AnchorSession.ConfigSetTextFile | room-go/internal/daemon/handlers.go:246-257 | Configuring a text_file re-anchors at once |
| AnchorSinks.AnchorSession.constructor | room-go/internal/daemon/session.go:30-39 | A session starts anchored at the size of the configured text_file |
| AnchorEffects.TextFileIsLog | room-go/internal/daemon/session.go:182-211 | Over every session without a full clear or another text_file, the text_file is its old content followed by one entry per text received, in order |
| AnchorEffects.TextsShowInFile | room-go/internal/daemon/session.go:182-211 | Two such sessions that differ in one text leave different text_files |
| AnchorEffects.FileTellsTexts | room-go/internal/daemon/session.go:182-211 | When names, stamps and texts are single lines, two text_files are equal if and only if the same texts were received in the same order |
| AnchorEffects.ItemIsSaved | room-go/internal/daemon/session.go:146-180 | An image or file goes to the save directory with its bytes, under the last element of its file name, or its hash (an image with .png), made unique; no existing file changes |
| AnchorEffects.BaseIsLastElement | room-go/internal/daemon/session.go:240-254 | A file name that comes with directories is reduced to its last element |
| AnchorEffects.SavedItemStays | room-go/internal/daemon/session.go:166-180 | It is there with its bytes until a full clear or another text_file |
| AnchorEffects.OtherFilesStay | room-go/internal/daemon/session.go:146-211 | Until then every other file outside the blob directory keeps its bytes |
| AnchorEffects.BlobsAreCache | room-go/internal/daemon/session.go:67-84 | In every session each file of the blob directory is the newest blob stored under its name since the last clear of either kind |
| Iso8601.StampIsCalendarTime | mesh-rs/src/daemon.rs:268-287 | For every timestamp the fields are a valid date and time, the date's day count by summed year and month lengths is the number of whole days, and all fields recompose the seconds |
| Iso8601.CivilDateCounts | mesh-rs/src/daemon.rs:276-285 | For every day number the date is valid and counts back to it |
| Iso8601.YearOfEraBracket | mesh-rs/src/daemon.rs:277-280 | The closed formula picks the year of the 400-year era that holds the day |
| Iso8601.MarchMonths | mesh-rs/src/daemon.rs:281-285 | The month formula agrees with summed month lengths for every day of a March-based year |
| Iso8601.YearStartClosed | mesh-rs/src/daemon.rs:276-281 | Summed year lengths equal the closed form of the leap rule |
| Iso8601.PrintedOrderIsTimeOrder | mesh-rs/src/daemon.rs:286 | Up to the year 9999 two printed strings are in dictionary order exactly when their seconds are, and equal exactly when those are |
| Iso8601.OrderedExactlyBelow10000 | mesh-rs/src/daemon.rs:286 | All timestamps before second n print in the order of their seconds if and only if n is at most the first second of the year 10000 |
| Iso8601.OrderBreaksAtYear10000 | mesh-rs/src/daemon.rs:286 | The last second of 9999 prints after its successor |
| Iso8601.PrintedReadsBack | mesh-rs/src/daemon.rs:268-287 | Every printed timestamp reads back: the separators and the final Z are at their places, the six numbers between them are a valid date and time that recomposes the seconds, and the string has 20 characters exactly up to the year 9999 |
| LanPeers.TableIsLiveConnections | experiments/lan-go/internal/lantransport/lantransport.go:260-308 | Under every interleaving, Close included, `peers[fp] = c` if and only if c's handler is registered, not cleaned up and not swept, and its certificate has fingerprint fp |
| LanPeers.OneConnectionPerPeer | experiments/lan-go/internal/lantransport/lantransport.go:269-281 | At most one live connection per peer, and none to the node itself |
| LanPeers.CleanupIsOwn | experiments/lan-go/internal/lantransport/lantransport.go:291-296 | A cleanup, however late, removes its own entry or nothing |
| LanPeers.StepKeepsOwnership | experiments/lan-go/internal/lantransport/lantransport.go:262-308 | Every step keeps the ownership of table entries |
| LanPeers.DialerInvariant | experiments/lan-go/internal/lantransport/lantransport.go:207-258 | In every reachable state `dialing` is the set of targets of living dial routines, targets are larger and different, and a routine whose connection is still handled is alive |
| LanPeers.ReservedUntilReturn | experiments/lan-go/internal/lantransport/lantransport.go:241-258 | Between the end of a handler and its dial's clearDialing the target stays reserved and no discovery dials it |
| LanPeers.RoutineNeverStuck | experiments/lan-go/internal/lantransport/lantransport.go:241-308 | In every reachable state the one step a living dial routine waits for is possible |
| LanPeers.DialingMeansAlive | experiments/lan-go/internal/lantransport/lantransport.go:223-231 | `dialing[p]` is set exactly while one routine for p lives, and a discovery reserves p exactly when no routine and no entry is left |
| LanPeers.EndedDialCanBeRetried | experiments/lan-go/internal/lantransport/lantransport.go:241-258 | Whatever ends a routine, its target can be dialed again |
| LanPeers.OneDialPerPair | experiments/lan-go/internal/lantransport/lantransport.go:218-231 | In a network of nodes with distinct fingerprints each unordered pair has at most one dial routine alive |
| LanEffects.RegistersIff | experiments/lan-go/internal/lantransport/lantransport.go:262-283 | In every reachable state a connection that registers becomes live if and only if it shows a certificate, not the node's own, and no connection of that peer is live; otherwise it is refused and the table stays |
| LanEffects.DiscoveryConnects | experiments/lan-go/internal/lantransport/lantransport.go:212-283 | From every reachable state, discovering a larger peer that is neither connected nor being dialed leads, once that peer answers the dial, to its one live connection in the table |
| LanEffects.AcceptConnects | experiments/lan-go/internal/lantransport/lantransport.go:262-283 | So does accepting a connection of such a peer, whoever is larger |
| LanEffects.FailedDialLeavesNoTrace | experiments/lan-go/internal/lantransport/lantransport.go:241-258 | A dial without an address, or one that fails, leaves the node exactly as before the discovery |
| LanEffects.GonePeerIsUnknown | experiments/lan-go/internal/lantransport/lantransport.go:241-308 | After the exit of a dialed connection and the return of its routine the peer is unknown again and the next discovery dials it; other live connections stay |
| LanPeers.Transport.HandleEntry | experiments/lan-go/internal/lantransport/lantransport.go:212-231 | When a discovery dials, and the reservation it makes |
| LanPeers.Transport.Arrive | experiments/lan-go/internal/lantransport/lantransport.go:246-251 | A made or accepted connection changes neither locked map |
| LanPeers.Transport.RegisterPeer | experiments/lan-go/internal/lantransport/lantransport.go:262-283 | Refusals and the registration, on the locked maps |
| LanPeers.Transport.Cleanup | experiments/lan-go/internal/lantransport/lantransport.go:291-299 | The conditional removal |
| LanPeers.Transport.ClearDialing | experiments/lan-go/internal/lantransport/lantransport.go:254-258 | The end of a dial routine, for want of an address, by a failed dial, or after its handler |
| LanPeers.Transport.CloseAll | experiments/lan-go/internal/lantransport/lantransport.go:372-377 | The table is emptied and its connections are swept |
| Broker.DeliveryInOrder | room-go/internal/broker/broker.go:67-96 | Under every interleaving of snapshots, hand-overs, drains, joins and leaves: what a session got from one sender is an in-order subsequence of that sender's frames, each at most once, never its own, only from its room; queues stay within 256 |
| Broker.CountIsRecipients | room-go/internal/broker/broker.go:84-95 | The returned count is the number of sessions that were given the frame |
| BrokerFans.EveryTargetServed | room-go/internal/broker/broker.go:73-95 | Under every interleaving, a broadcast that has served its snapshot gave the frame to each of its members or found that queue full at its turn, never both, and the count is the snapshot less the full ones |
| BrokerFans.RunRecords | room-go/internal/broker/broker.go:73-95 | At every moment each member of a snapshot holds the frame, had a full queue, or is still to be served |
| BrokerFans.StepRecords | room-go/internal/broker/broker.go:84-95 | Every step of the hub keeps that |
| BrokerHistory.MembersAreInside | room-go/internal/broker/broker.go:42-65 | In every reachable state a room's members are those who joined it and have not left, and only rooms with members exist |
| BrokerHistory.SessionsAreHistory | room-go/internal/server/server.go:119-150 | In every reachable state a client has sent exactly the frames its broadcasts began with, in order, its writer has written as many as it took, and it is broadcasting exactly between the begin and the return |
| BrokerHistory.StepIsHistory | room-go/internal/broker/broker.go:67-96 | Every step keeps that |
| Broker.StepKeeps | room-go/internal/server/server.go:119-152 | Every step keeps the invariant behind both |
| Broker.Run | room-go/internal/broker/broker.go:42-96 | Every reachable hub state satisfies that invariant |
| Broker.DeliverEach | room-go/internal/broker/broker.go:84-95 | The delivery loop offers the frame to every target once, and counts those with space |
| Broker.Member.TrySend | room-go/internal/broker/broker.go:86-94 | A full queue drops the frame and says so |
| Broker.OpenCounts | room-go/internal/broker/broker.go:84-95 | The count of the loop is the number of different targets with space |
| Broker.HubObject.Snapshot | room-go/internal/broker/broker.go:73-82 | The snapshot is the room without the sender, each member once |
| Broker.HubObject.Broadcast | room-go/internal/broker/broker.go:72-96 | Every other member is offered the frame, nobody else is touched, and the count is how many took it |
| Broker.HubObject.Register | room-go/internal/broker/broker.go:42-51 | The room gains the session, other rooms stay |
| Broker.HubObject.Unregister | room-go/internal/broker/broker.go:54-65 | The room loses the session, an empty room disappears |
| Broker.HubObject.RoomCount | room-go/internal/broker/broker.go:100-104 | The number of members |
| Dedupe.IdSet.Seen | room-go/internal/daemon/dedupe.go:24-38 | Answers "seen" if and only if the id is among the last cap accepted ids; set and queue agree |
| Dedupe.IdSet.MarkSeen | mesh-rs/src/proto.rs:373-385 | The same for the eviction loop of mesh-rs |
| Dedupe.IdSet.Evict | mesh-rs/src/proto.rs:379-383 | The eviction loop drops the oldest id when there is one too many, from queue and set alike |
| Dedupe.CapOthersBetween | room-go/internal/daemon/dedupe.go:24-38 | Between two acceptances of an id lie at least cap acceptances of other, pairwise different ids |
| Dedupe.AcceptedSpaced | room-go/internal/daemon/dedupe.go:24-38 | Equal accepted ids are more than cap places apart, for every call sequence |
| Dedupe.AcceptedIds | mesh-rs/src/proto.rs:371-385 | Every offered id is accepted at some time, and nothing else is |
| Dedupe.WindowMoves | room-go/internal/daemon/dedupe.go:24-38 | Queue and history stay the same window after an acceptance with one eviction |
| Dedupe.WindowAfterCall | room-go/internal/daemon/dedupe.go:24-38 | The window after one more call, whether the id is new or not |
| Ingest.BufferRefinesHistory | room-go/internal/daemon/daemon.go:131-165 | After any run the buffer is the newest 64 verified items since the last clear, and every buffered image or file has cached bytes that hash to its address, through overwrites and clears |
| Ingest.SubscribersSeeHistory | room-go/internal/daemon/daemon.go:166-178 | What a subscriber took and has queued is an in-order subsequence of the items since it subscribed; its queue stays within 16 |
| Ingest.DistinctUpToIff | room-go/internal/daemon/daemon.go:133-165 | Every run with at most m messages that fail verification keeps its buffered ids distinct, if and only if m is at most 4033 |
| Ingest.FewFailuresDistinct | room-go/internal/daemon/daemon.go:133-165 | With fewer than 4034 failures, in any run, the buffer never holds one id twice |
| Ingest.BufferedIdsDistinct | room-go/internal/daemon/daemon.go:133-165 | When every blob verifies the buffer never holds one id twice |
| Ingest.RepeatIff | room-go/internal/daemon/daemon.go:133-165 | From any buffer of distinct ids: a receipt repeats one if and only if it verifies, its id has left the dedupe window, and an item that stays buffered has it |
| Ingest.AlwaysDistinctIff | room-go/internal/daemon/daemon.go:133-165 | A run keeps its buffered ids distinct at all times if and only if none of its receipts is such a one |
| Ingest.PlacesApart | room-go/internal/daemon/daemon.go:133-146 | Two verified items are no further apart among the accepted ids than by the items between them and all failures |
| Ingest.RepeatsAreFarApart | room-go/internal/daemon/daemon.go:133-146 | Without that condition equal ids are more than 4096 acceptances apart |
| Ingest.FloodRepeatsIff | room-go/internal/daemon/daemon.go:133-165 | After up to 63 texts and then failing files, the first text again is buffered twice if and only if more than 4096 messages came before; with 63 texts that is 4034 failures |
| Ingest.RunPlaced | room-go/internal/daemon/daemon.go:131-165 | Verified items lie in order among the accepted ids |
| Ingest.NameGivesAddress | room-go/internal/daemon/daemon.go:147-153 | Two items that share a cache file have the same address |
| IngestEffects.EveryItemAccounted | room-go/internal/daemon/daemon.go:161-178 | Over every run each item ingested since a subscription was given to the subscriber, or found 16 items queued at its turn, and never both; what it took and has queued is exactly what it was given, in order |
| IngestEffects.NeverFullGetsAll | room-go/internal/daemon/daemon.go:161-178 | A subscriber whose queue was never full has taken and queued everything since its subscription, in order |
| IngestEffects.SubscriptionStarts | room-go/internal/daemon/daemon.go:266-272 | A subscription starts empty, with the items to come |
| IngestEffects.ReceiptMakesItemIff | room-go/internal/daemon/daemon.go:131-165 | A message is accepted if and only if its id is not in the window, and becomes the newest buffered item if and only if it also is text or its bytes hash to its address; only then its bytes are cached, under hash and extension |
| IngestEffects.BufferSinceClear | room-go/internal/daemon/session.go:67-84 | A clear at any time of any run empties buffer and cache; afterwards the buffer is the newest 64 items that came since |
| IngestEffects.KindsSelect | room-go/internal/daemon/daemon.go:280-291 | Text and image requests are about their own kind, all others about every item |
| Ingest.Daemon.Receive | room-go/internal/daemon/daemon.go:131-178 | Dedupe, verify, materialize, buffer, notify: the whole new state |
| Ingest.Daemon.Process | room-go/internal/daemon/daemon.go:137-178 | The part after dedupe |
| Ingest.Daemon.Materialize | room-go/internal/daemon/daemon.go:142-159 | Verification, the cache file's name and its bytes; nothing is written when verification fails |
| Ingest.Daemon.Push | room-go/internal/daemon/daemon.go:162-165 | Appending and trimming the buffer |
| Ingest.Daemon.Notify | room-go/internal/daemon/daemon.go:172-178 | Every subscriber is offered the item; a full channel skips it |
| Ingest.Daemon.Latest | room-go/internal/daemon/daemon.go:233-243 | The newest buffered item of the kind, or nothing exactly when there is none |
| Ingest.Daemon.FindById | room-go/internal/daemon/daemon.go:254-264 | The newest buffered item with the id, or nothing exactly when there is none |
| Ingest.Daemon.Clear | room-go/internal/daemon/session.go:70-84 | The buffer and the blob cache are emptied |
| RecvLatest.NoLostWakeUp | mesh-rs/src/daemon.rs:847-873 | Under every interleaving, a waiting request without a matching event queued implies that the event of every matching ring item is still to be sent, behind the request's place |
| RecvLatest.RunKeeps | mesh-rs/src/daemon.rs:594-637 | The invariant behind it, in every reachable state |
| RecvLatest.QueueAnswers | mesh-rs/src/daemon.rs:857-869 | The receive loop stops at the first matching event of its queue |
| RecvLatest.RingAndLogAreHistory | mesh-rs/src/daemon.rs:594-637 | In every reachable state the ring is the newest 64 items pushed since the last clear, and the event log everything sent, in order |
| RecvLatest.AskedIsAnswered | mesh-rs/src/daemon.rs:847-856 | In every reachable state a new request is answered with the newest wanted item of the ring, and waits behind everything sent so far if and only if there is none |
| RecvLatest.ArrivalAnswersIff | mesh-rs/src/daemon.rs:857-869 | The next announced item answers a waiting request if and only if it is of the wanted kind |
| RecvRoom.MissedIff | room-go/internal/daemon/handlers.go:145-158 | Under every interleaving of ingest, channel sends, looks, subscriptions and receives: a wanted item in the buffer will not reach a waiting request if and only if it was pushed between the request's look and its subscription, or found its channel full |
| RecvRoom.SubscribeMissesIff | room-go/internal/daemon/handlers.go:148-153 | The request starts to wait with a wanted buffered item out of reach if and only if such an item was pushed between the two |
| RecvRoom.MissedForGood | room-go/internal/daemon/daemon.go:161-178 | What a waiting request misses no later step brings |
| RecvRoom.RunKeeps | room-go/internal/daemon/daemon.go:161-178 | The invariant behind it, in every reachable state: items from the subscription on are pending, queued or dropped, earlier ones are not |
| RecvRoom.CheckFirstLosesWakeUp | room-go/internal/daemon/handlers.go:148-154 | A run that leaves a request waiting while its item is buffered and was never meant for its channel |
| RecvRoom.DroppedIffFull | room-go/internal/daemon/daemon.go:172-178 | In every reachable state an item at its turn joins the end of a waiting request's channel, or is dropped if and only if 16 wait there |
| RecvRoom.BufferIsHistory | room-go/internal/daemon/daemon.go:161-165 | In every reachable state the buffer is the newest 64 items received since the last clear |
| RecvRoom.AskedIsAnswered | room-go/internal/daemon/handlers.go:145-152 | In every reachable state a new request is answered with the newest wanted buffered item, and goes on to subscribe if and only if there is none |
| RecvRoom.ArrivalAnswersIff | room-go/internal/daemon/handlers.go:153-158 | The next item answers a waiting request with an empty channel if and only if it is of the wanted kind, and else is passed over |
| Chat.ResultsFillIn | mesh-rs/src/tui.rs:284-301 | For every interleaving of keys, items, copies and late results: the final state is that of the run without results, with each result filled in at its own bubble |
| Chat.ResultOrderIsIrrelevant | mesh-rs/src/tui.rs:284-301 | Runs that differ only in when their results arrive end in the same state |
| Chat.ResultChangesOwnBubble | mesh-rs/src/tui.rs:284-301 | In every reachable state a result reaches exactly one bubble, its own, and nothing else changes |
| Chat.NumbersAlwaysDistinct | mesh-rs/src/tui.rs:259-282 | Own bubbles carry 1, 2, 3 and so on, in order, none twice and none missing |
| Chat.SelectionAlwaysOk | mesh-rs/src/tui.rs:340-363 | In every reachable state the view follows if and only if nothing is selected, and a selection is in range |
| Chat.QuittingAsksFirst | mesh-rs/src/tui.rs:395-427 | With foreign items shown no key quits but an answer to the prompt; while it is up no key changes the state |
| Chat.PromptAlwaysOk | mesh-rs/src/tui.rs:231-232 | Something counts as received if and only if a foreign item is shown |
| Chat.TrimCuts | mesh-rs/src/tui.rs:260-264 | Trimming cuts white space off both ends, nothing else, and all of it |
| Chat.CopyCommutes | mesh-rs/src/tui.rs:303-307 | Marking an item copied does not depend on which results are in, ids being apart |
| Chat.SwapIff | mesh-rs/src/tui.rs:284-307 | In every reachable state, for every unanswered submit: its result and a copy have the same effect in either order if and only if they do not clash |
| Chat.ResultAndCopyCommuteIff | mesh-rs/src/tui.rs:284-307 | On any list: they clash exactly when the answer gives the bubble the copied id or takes it away, nothing in front of it has that id, and the first item behind it that has it waits to be copied |
| Chat.ReusedIdMatters | mesh-rs/src/tui.rs:284-307 | Two runs that differ only in the order of a result and a copy end differently when a foreign item reuses the id of an own text |
| ChatEffects.ChatShowsWhatHappened | mesh-rs/src/tui.rs:204-336 | In every reachable state the chat shows exactly what happened, in order: each item with id, sender, time, body and note; each own text as typed, pending if and only if it has no result, noted as undelivered if and only if it reached nobody, as failed with the error if and only if it failed, and with the result's id if and only if it was sent |
| ChatEffects.BubbleTellsResult | mesh-rs/src/tui.rs:284-301 | For every submit, in every reachable state, there is such a bubble of its number |
| ChatEffects.ArrivalOffersIff | mesh-rs/src/tui.rs:204-254 | In every run an arriving item offers to be copied if and only if it is foreign and the mode last told is notify |
| ChatEffects.ModeIsLastStatus | mesh-rs/src/tui.rs:204-254 | The mode is the one last told |
| ChatEffects.CopyTakesOfferBack | mesh-rs/src/tui.rs:303-307 | A copy takes the offer back from the first message with the id and changes nothing else |
| ChatEffects.UpsSelect | mesh-rs/src/tui.rs:340-348 | From the end, n keys up select the n-th message from the end and stop at the first, in either focus |
| ChatEffects.DownsSelect | mesh-rs/src/tui.rs:350-363 | Keys down select the messages that follow, and past the last one the view follows again |
| ChatEffects.SecondEnterSendsNothing | mesh-rs/src/tui.rs:259-282 | After a submit the composer is empty, the view follows, and Enter again does nothing |
| Chat.App.PushIncomingItem | mesh-rs/src/tui.rs:204-254 | The bubble of an incoming item, the copy affordance, and the selection while following |
| Chat.App.Submit | mesh-rs/src/tui.rs:259-282 | Submitting: composer, number, bubble, selection; an empty text changes nothing |
| Chat.App.FindSeq | mesh-rs/src/tui.rs:286-288 | The scan stops at the first bubble with the number |
| Chat.App.OnSentResult | mesh-rs/src/tui.rs:285-301 | What each kind of result does to the bubble |
| Chat.App.MarkItemCopied | mesh-rs/src/tui.rs:303-307 | The first item with the id loses its affordance |
| Chat.App.PushOwnImage | mesh-rs/src/tui.rs:312-336 | The own bubble of a clipboard image, and following again |
| Chat.App.MoveUp | mesh-rs/src/tui.rs:340-348 | Selecting upwards, from the end while following |
| Chat.App.MoveDown | mesh-rs/src/tui.rs:350-363 | Selecting downwards, back to following past the last |
| Chat.App.AskToQuit | mesh-rs/src/tui.rs:395-404 | The prompt, or quitting at once |
| Chat.App.OnKey | mesh-rs/src/tui.rs:408-429 | Releases, the prompt and Ctrl-C come before the focus |
| Chat.App.OnComposeKey | mesh-rs/src/tui.rs:430-462 | Keys in the composer |
| Chat.App.OnBrowseKey | mesh-rs/src/tui.rs:463-482 | Keys while browsing |
| WrapLine.WrappedFits | mesh-rs/src/tui.rs:1268-1320 | For every text and width there is at least one line, and no line exceeds the width |
| WrapLine.WordsKept | mesh-rs/src/tui.rs:1286-1313 | The words of the lines are the words of the text in order, whole when they fit and in full-width pieces otherwise |
| WrapLine.InkKept | mesh-rs/src/tui.rs:1271-1315 | Every character but spaces and newlines is kept, in order |
| WrapLine.BreaksAreNeeded | mesh-rs/src/tui.rs:1297-1302 | A paragraph breaks only where the next word would not have fitted |
| WrapLine.SplitJoin | mesh-rs/src/tui.rs:1271-1286 | The pieces of a split hold no separator and join back to the text |
| WrapLaws.KeptIff | mesh-rs/src/tui.rs:1268-1320 | A text is left as one line as it is if and only if it fits, has no newline and does not start with a space |
| WrapLaws.ParagraphsApart | mesh-rs/src/tui.rs:1271-1315 | A newline always breaks: what stands before and behind it is wrapped on its own |
| WrapLaws.LinesAreFlush | mesh-rs/src/tui.rs:1286-1313 | No line starts with a space |
| WrapLine.PushChars | mesh-rs/src/tui.rs:1278-1295 | Pushing character after character cuts a word into full-width pieces |
| WrapLine.WrapWords | mesh-rs/src/tui.rs:1286-1313 | The loop over the words of a paragraph |
| WrapLine.WrapRaw | mesh-rs/src/tui.rs:1271-1314 | One paragraph, an empty one included |
| WrapLine.WrapAll | mesh-rs/src/tui.rs:1271-1315 | The loop over the paragraphs |
| WrapLine.WrapLine | mesh-rs/src/tui.rs:1268-1320 | The whole wrapping; a zero width counts as one |
| Layout.BlocksPartitionLines | mesh-rs/src/tui.rs:1117-1220 | Blocks start at the first line, follow each other and reach the total; each holds exactly its message's rows, highlighted iff the message is |
| Layout.OffsetShowsSelection | mesh-rs/src/tui.rs:1030-1044 | The offset never scrolls past the end; a selected block that fits is wholly visible, a larger one shows its first row on top; following shows the last row |
| Layout.ThumbnailCoversItsRowsIff | mesh-rs/src/tui.rs:1046-1074 | A drawn thumbnail covers exactly its own ten blank rows if and only if the offset is below 65536 |
| Layout.LongChatMisplacesThumbnail | mesh-rs/src/tui.rs:1046-1049 | A chat of 22001 messages whose thumbnail is drawn over foreign rows |
| Layout.FirstImageRowUnique | mesh-rs/src/tui.rs:1155-1180 | The first image row of a message is at one place of the scrollback only |
| LayoutEffects.TextIsShown | mesh-rs/src/tui.rs:1127-1216 | The wrapped lines of a text are the rows of its block, in order, between header and spacer; they are highlighted if and only if the view does not follow and the message is selected, or last with none selected |
| LayoutEffects.ImageIsShown | mesh-rs/src/tui.rs:1155-1206 | An image's block is header, caption, ten rows and spacer |
| LayoutEffects.FileIsShown | mesh-rs/src/tui.rs:1181-1206 | A file's block is header, card, its path if saved, and spacer |
| LayoutEffects.OffsetIsExact | mesh-rs/src/tui.rs:1030-1044 | A marked block that fits ends at the bottom of the viewport unless all before it fits too; following shows the end, or everything |
| LayoutEffects.ThumbnailDrawnIff | mesh-rs/src/tui.rs:1051-1060 | A thumbnail is drawn if and only if its block is an image's and its ten rows are wholly in the viewport, and then at its rows |
| Layout.BuildLines | mesh-rs/src/tui.rs:1117-1220 | Lines, blocks and total, with the placeholder of an empty chat |
| Layout.BuildBlocks | mesh-rs/src/tui.rs:1127-1216 | The loop over the messages |
| Layout.PushMessage | mesh-rs/src/tui.rs:1127-1216 | One turn of that loop: rows, highlight and block of a message |
| Layout.MessageRows | mesh-rs/src/tui.rs:1131-1206 | The rows of one message: header, body by kind, spacer |
| Frames.RoundTrip | room-go/internal/wire/wire.go:88-117 | Concatenated frames read back as exactly the payloads, then a clean end of file |
| Frames.StreamIsFramesAndTail | room-go/internal/wire/wire.go:102-117 | Any byte stream is the frames read from it and a tail that fails with the reported error |
| Frames.TruncatedStream | room-go/internal/wire/wire.go:102-117 | A stream cut anywhere yields exactly its whole frames, and exactly which error follows |
| Frames.DecodedWasFramed | room-go/internal/wire/wire.go:103-117 | Whatever is read was framed that way, and is within the limit |
| Frames.FramesThen | room-go/internal/wire/wire.go:89-117 | Frames in front of any tail are read first and unchanged |
| Frames.SizeOfHeader | room-go/internal/wire/wire.go:93-108 | The big-endian length survives the 32-bit cast for every permitted payload |
| Frames.HeaderIsBigEndian | room-go/internal/wire/wire.go:93-95 | The length is written with its lowest byte last, behind the bytes of what is above it |
| Frames.Writer.WriteFrame | room-go/internal/wire/wire.go:89-100 | An over-long payload is refused before a byte is written |
| Frames.Reader.ReadFull | room-go/internal/wire/wire.go:105-115 | Any chunking gives the same bytes and errors |
| Frames.Reader.ReadFrame | room-go/internal/wire/wire.go:103-117 | One frame, its error cases, and what is left of the stream |
| Frames.Reader.ReadAll | room-go/internal/server/server.go:141-150 | The relay's loop reads the frames of the stream in order until one fails |
| Globals.SpawnRoundTrip | experiments/shared-go/cli/cli.go:137-151 | A spawned daemon parses exactly the three values and its command, the flags standing before or behind it |
| Globals.SpawnedInside | experiments/shared-go/cli/cli.go:95-151 | The printed flags are recovered at any place where an argument may start, whatever the values look like, and all else is parsed as without them |
| Globals.ParseSpawned | experiments/shared-go/cli/cli.go:137-151 | The printed flags are used up entirely and override exactly the three values that are given |
| Globals.ParseConcat | experiments/shared-go/cli/cli.go:98-135 | Flags act where they stand: parsing composes at every such place |
| Globals.ReparseIsIdentity | experiments/shared-go/cli/cli.go:95-135 | Parsing the remainder again changes nothing |
| Globals.PlainIffUnchanged | experiments/shared-go/cli/cli.go:97-132 | The remainder is the whole list if and only if no argument names a global flag |
| GlobalsFlags.ConfigDirIsSet | experiments/shared-go/cli/cli.go:98-119 | `--config-dir` sets its own value and nothing else, from the next argument or inline, whatever the value looks like; a missing one is empty |
| GlobalsFlags.SocketIsSet | experiments/shared-go/cli/cli.go:98-121 | So does `--socket` |
| GlobalsFlags.RoomIsSet | experiments/shared-go/cli/cli.go:98-123 | So does `--room` |
| GlobalsFlags.JsonIsSet | experiments/shared-go/cli/cli.go:124-125 | `--json` sets its own field, takes no argument, and ignores an inline value |
| GlobalsFlags.QuietIsSet | experiments/shared-go/cli/cli.go:126-127 | `-q` and `--quiet` set theirs |
| GlobalsFlags.VerboseIsSet | experiments/shared-go/cli/cli.go:128-129 | `-v` and `--verbose` set theirs |
| GlobalsFlags.GlobalIff | experiments/shared-go/cli/cli.go:101-131 | An argument is a global flag if and only if it is the name of one, alone or followed by `=` |
| GlobalsFlags.OthersStay | experiments/shared-go/cli/cli.go:130-131 | Every other argument stays in the remainder, at its place |
| Globals.ParseGlobals | experiments/shared-go/cli/cli.go:98-135 | The loop with inline values, following values and missing values |
| Globals.SpawnArgs | experiments/shared-go/cli/cli.go:139-151 | The printer, empty values left out |

## Left out

- QUIC, SSH, mDNS, gossip, OS clipboard, PNG and JPEG, BLAKE3 and CBOR: libraries. Clipboard text is taken to read back unchanged; the hash is any function (of fixed length where a file name depends on it).
- Rendering styles, terminal graphics, printing of results, remote bootstrap, configuration files and the documentation site.
- I/O failures, writers other than the daemon, links and aliased paths: a path is a key of a map. `filepath.Join` is a pair of directory and name.
- Watcher.Daemon.Write: the OS write and the record of it are one step; in the code a poll can fall between them (mesh-rs/src/daemon.rs:1175-1183).
- WatcherEffects.ClipboardArrives: PNG encoding and decoding are taken to keep the pixels; a message that is lost is one that is never delivered.
- SharedEffects.SavedItemStays: the text_file lies in another directory than the save directory; otherwise texts may be appended to a saved file.
- AnchorEffects.SavedItemStays: the same.
- Watcher.Daemon.PollOnce: the wake-up by timer and stop signal are not modelled, nor is an image the PNG encoder refuses.
- Ingest.Daemon.Receive: one step, as on the daemon's single receive path; sinks and auto-copy are other components.
- Ingest.BufferedIdsDistinct: needs every blob to verify; `Ingest.DistinctUpToIff` is the exact bound without that.
- RecvLatest.NoLostWakeUp: assumes no lag of the broadcast channel and leaves out the 30 s timeout.
- Broker.Run: a session ends with its leave. In the code its queue is closed just before it is unregistered (room-go/internal/server/server.go:122-152), so nothing is claimed about sends to a closed queue.
- The peer table of mesh-rs, which overwrites and removes entries unconditionally; table ownership is the LAN transport's.
- Exact revert across text_file changes for room-go and mesh-rs: it does not hold, see `AnchorSinks.ExactRevertIff`.
- AnchorSinks.AnchorSession.Route: file names follow room-go; mesh-rs names its files by `sink_name`. Timestamps in appended entries are given bytes.
- AnchorSinks.AnchorSession.ApplyClearScope: the received-items buffer is the ingest component's and is not part of this state.
- SharedSinks.SinkDaemon.ClearSession: the received-items buffer is the ingest component's and is not part of this state.
- Chat.App.OnKey: what the text widget makes of a key is an input; toasts, peer counts and the key events of other kinds are left out, and the message counter does not wrap at 64 bits.
- Chat.ResultsFillIn: when items are marked copied, ids of foreign items must differ from the empty id and from the ids of own texts, which are ULIDs; without copies nothing is assumed, and `Chat.SwapIff` is the exact condition for one result and one copy.
- Chat.App.PushIncomingItem: the toast is left out.
- Chat.App.PushOwnImage: the toast is left out.
- RecvRoom.MissedIff: a client that disconnects while waiting is left out; the request itself waits without a timeout.
- Layout.MessageRows: rows are tags, without the text of headers, captions and cards.
- Layout.BuildLines: rows are abstract (header, text, caption, image, card, path, spacer), their styling and wording are not modelled.
- Frames.Writer.WriteFrame: the underlying writer does not fail.
- Sniffing, MIME and human-size tables, exit-policy mapping, kind matching of mesh-rs: single branches.
