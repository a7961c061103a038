# Telepair in Dafny

A model of the parts of Telepair that several tasks share or that hide an algorithm, with
proofs about all inputs, all interleavings and all runs. `dafny verify dfyconfig.toml`
checks everything.

- **Attaching.** `Retention` and `Scrollback` are the bounded ring of terminal output,
  `Broadcast` is a lossy channel as a log with receiver positions. `AttachProtocol` runs
  push-and-send and subscribe-and-snapshot as single steps under a lock holder, interleaved
  with any number of receivers, `AttachProgress` says what an attachment achieves, and
  `Attachments` applies the protocol to output and chat.
- **The session hub.** `Protocol` and `Presence` hold the messages and their fold.
  `SessionHub` is the hub as a class over its session map; `HubRuns` interleaves it with
  connection handlers, endpoints and the reaper on one clock. `Departures` says which
  departures give their connection back, `Reaper` which sessions are reaped, `ClientViews`
  what clients make of the broadcasts, `RecordedPresence` whom a running recording shows.
  `Reservations` is about the collection of pending entries, `RoleSync` about the role
  copy of a connection.
- **Recording.** `Utf8`, `Json` and `Asciicast` print events and read them back;
  `Recording` is the writer loop, `RecordingRuns` a slot with its taps, its queue, its
  writer and the database in any interleaving.
- **Invites.** `Invites` interleaves minting, revoking, closing, role changes and multi-step
  redemptions; `Memberships` relates uses to the table of participants, `RoleChanges` is
  about who has which role and who is left in closed sessions, `RedeemScenarios` holds runs.
- **Algorithms.** `EnvSubst` (placeholders), `CsvExport` (audit export), `Text`, `Calendar`,
  `Timestamps` and `TimestampReader` (normal forms, string order against time order), `Targets` and `TargetReload`
  (validation, difference, reload guard), `RateLimit`, `Otp`.

Code that updates state in place is a class or a method with loops, proved against
functions; the results are lemmas about those functions. Text is a Dafny `string` of
Unicode scalar values, as in the original; clocks, random numbers and outcomes of I/O are
parameters.

## Where the code falls short of its comments

Each point is a lemma with a concrete run or input, next to one that says exactly when the
promise holds.

- A client that goes away during the scrollback replay leaks its connection count, and so
  does a tab that registers after an eviction whose notice it still reads
  (`HubRuns.ReplayBailLeaks`, `HubRuns.StaleEvictionLeaks`). An evicted handler that exits
  before it reads its notice drops the count of a reconnect
  (`HubRuns.StrayExitDropsReconnect`). Exactly these break the counts
  (`Departures.PlainStepIff`, `Departures.PlainRunIff`), and a leak keeps its session from
  the reaper (`HubRuns.LeakPinsSession`).
- A reconnect beats the reaper by registering, not by attaching
  (`Reaper.AttachedButReaped`, `Reaper.ReapedIff`, `Reaper.AttachSurvivesIff`), and only
  while no stray exit takes its count: then it is reaped registered and running
  (`Reaper.StrayThenReaped`).
- A demotion between registering and the creation of `role_rx` is missed until the next
  change or lag (`RoleSync.DemotionBeforeSubscribeIsMissed`, `RoleSync.RoleSinceJoinIff`).
- A recording begun while somebody is present never shows that user, as its header names
  nobody, and one that a user joined goes on showing the user after an eviction, which taps
  no leave event (`RecordedPresence.StartedLateMissesUser`,
  `RecordedPresence.EvictedIsStillShown`, `RecordedPresence.ShownIff`,
  `RecordedPresence.RecordedArePresentIff`).
- A recording whose start was rolled back can be listed as completed
  (`RecordingRuns.RolledBackThenCompleted`, `RecordingRuns.CompletedIff`,
  `RecordingRuns.RefusedShowsCompletedIff`).
- Terminal output is recorded faithfully in chunks of whole characters and only so
  (`Utf8.SplitCharacterIsLost`, `Utf8.ChunksAreFaithfulIff`).
- Timestamps that their offset pushes into year 10000 sort before all others
  (`Timestamps.YearEndOverflows`, `Timestamps.StringOrderIsTimeOrderIff`).
- Sessions on user-owned targets make every reload fail while the preview shows nothing
  blocked (`TargetReload.OwnTargetBlocksReload`, `TargetReload.SameFileRefusedIff`).
- A reload can drop the target of a session that is just being spawned, once its
  reservation has expired (`TargetReload.DroppedDuringSpawn`,
  `TargetReload.AlwaysLaunchableIff`).
- A role change written after a close makes its user an active participant of the closed
  session (`RedeemScenarios.ReseatedAfterClose`, `RoleChanges.LingersIff`).
- At the instant of its expiry an invite is reported as invalid, not as expired, and a
  caller that lost a race is told the invite's role instead of its own
  (`RedeemScenarios.ExpiringNowIsToldInvalid`, `Invites.ReportedExpiredIff`;
  `RedeemScenarios.RaceLoserIsToldAnotherRole`, `Invites.ReportedRoleIff`).
- Rejection sampling accepts more than half of its draws for every limit but 2^31
  (`Otp.MostDrawsAccepted`).

## Model

| member | source | states |
|---|---|---|
| `Attachments.OutputExactlyOnce` | crates/telepair-gateway/src/session_hub.rs:413-450 | In every interleaving of PTY reads, attaches and receives, snapshot plus receiver is one gapless, duplicate-free piece of the output; the snapshot is the longest suffix fitting in 64 KiB, and a drained receiver has the last chunk. |
| `Attachments.ChatExactlyOnce` | crates/telepair-gateway/src/session_hub.rs:614-645 | The same for chat projected out of the mixed collaboration channel; the snapshot is exactly the last min(50, n) chats. |
| `AttachProtocol.ExactlyOnce` | crates/telepair-gateway/src/session_hub.rs:600-645 | The protocol theorem behind both, with each of lock, push, send, subscribe, snapshot and unlock as a step of its own and a lock holder, so that atomicity is proved. |
| `AttachProgress.FollowsOutput` | crates/telepair-gateway/src/session_hub.rs:600-645 | From any reachable state with the lock free, whoever attaches is given the ring and then every entry pushed afterwards, for any number of entries up to the length of the channel. |
| `AttachProgress.CatchesUp` | crates/telepair-gateway/src/ws.rs:528-537 | A streaming client at most a channel length behind gets, one receive at a time, everything that is there. |
| `Broadcast.ReceivesIff` | crates/telepair-gateway/src/ws.rs:528-563 | A receiver is told that it lagged exactly when it is further behind than the channel is long; otherwise it gets the next message in turn, and after a lag it is a channel length behind. |
| `AttachProtocol.StepKeepsInv` | crates/telepair-gateway/src/session_hub.rs:413-450 | Every single step keeps history, ring, log and all receivers in agreement, also halfway through a critical section. |
| `AttachProtocol.LaggedClosesForGood` | crates/telepair-gateway/src/ws.rs:538-563 | A lagged receiver is closed with nothing sent past the gap, whatever happens afterwards. |
| `AttachProtocol.SnapshotAtSubscribe` | crates/telepair-gateway/src/session_hub.rs:614-645 | The snapshot equals the ring of exactly those entries sent before the receiver was created. |
| `Scrollback.ScrollbackRing.Push` | crates/telepair-gateway/src/session_hub.rs:80-90 | After a push the ring is the longest suffix of all pushed chunks that fits in 64 KiB, `total` is its size, and neither saturation nor the empty-deque branch is reached. |
| `Scrollback.ScrollbackRing.Snapshot` | crates/telepair-gateway/src/session_hub.rs:91-93 | The snapshot is that suffix. |
| `Scrollback.ReplayIsNearlyFull` | crates/telepair-gateway/src/session_hub.rs:31 | With reads of 1 to 4096 bytes more than 60 KiB is retained once anything has been dropped, and never more than 64 KiB. |
| `Retention.RetainedIsLongest` | crates/telepair-gateway/src/session_hub.rs:80-90 | What the trimming keeps is a fitting suffix, and every longer suffix is too heavy. |
| `Retention.LongestIsRetained` | crates/telepair-gateway/src/session_hub.rs:80-90 | That description has only one solution. |
| `Retention.StartAfterDrop` | crates/telepair-gateway/src/session_hub.rs:83-88 | Dropping from the front one element at a time reaches the same suffix as recomputing it. |
| `Presence.ClientConverges` | web/src/pages/Session.tsx:203-336 | A client that subscribed at position j, takes its snapshot at a later k and folds every message from j on ends with the hub's own map of names, roles and colours. |
| `ClientViews.ClientFollows` | web/src/pages/Session.tsx:203-336 | Over every run of the hub: a client that subscribed when its handler attached, got the participant list at any later point and folded all broadcasts since it subscribed has the hub's own list at every moment, as long as the entry it attached to is there. |
| `ClientViews.ListedAsGiven` | crates/telepair-gateway/src/session_hub.rs:841-868 | Over every run a participant is listed under the name and role its first connection registered with, or the role it was given since. |
| `Presence.OverlapIsIdempotent` | web/src/pages/Session.tsx:225-313 | Folding a stretch of messages a second time changes nothing. |
| `Presence.ReplayIsEffect` | web/src/pages/Session.tsx:225-313 | Per user, a stretch of messages acts as a constant or as a pure role change, whatever it starts from. |
| `Presence.Alternation` | crates/telepair-gateway/src/session_hub.rs:894-935 | Joins and left-or-evicted broadcasts of each user strictly alternate, starting with a join, and the last one tells presence. |
| `HubRuns.RunKeepsValid` | crates/telepair-gateway/src/session_hub.rs:242-257 | In every reachable state of every session: same users in `participants` and `connections`, positive counts, idle clock set iff nobody is connected, participants equal the fold of the broadcasts, joins and departures alternate, colours dealt out in turn, chat backlog is the last 50 chats. |
| `HubRuns.RunCounts` | crates/telepair-gateway/src/ws.rs:596-608 | `connections[u]` equals the handlers of u that registered and have not given their count back, over any run without a stray exit. |
| `HubRuns.ExitCountsIff` | crates/telepair-gateway/src/ws.rs:866-875 | An exit keeps that equation exactly when it is not stray: not the exit, without an eviction notice, of a handler whose count is gone (evicted, or its entry dropped) while its user is connected again. |
| `Departures.PlainStepIff` | crates/telepair-gateway/src/ws.rs:866-875 | A step keeps every count equal to the running registered handlers exactly if it is not a stray exit and not a registered handler leaving by the early return of the replay or after reading an eviction notice. |
| `Departures.PlainRunIff` | crates/telepair-gateway/src/ws.rs:866-875 | Over whole runs: counts equal the running registered handlers at all times if and only if no step is such a departure. |
| `Departures.IdleIffNobodyRegistered` | crates/telepair-gateway/src/session_hub.rs:251-257 | In such a run the idle clock runs exactly while a session has no running registered handler. |
| `HubRuns.ReplayBailLeaks` | crates/telepair-gateway/src/ws.rs:486-492 | The early return in the scrollback replay leaks a connection: nobody is left, yet the count stays 1 and the session is not due an hour later. |
| `HubRuns.LeakPinsSession` | crates/telepair-gateway/src/ws.rs:486-492 | One leaked count keeps its session live with a stopped idle clock over every run without a stray exit, until eviction or removal. |
| `HubRuns.StrayExitDropsReconnect` | crates/telepair-gateway/src/ws.rs:513-524 | An evicted handler that exits before it saw its eviction takes away the connection of the reopened tab. |
| `HubRuns.StaleEvictionLeaks` | crates/telepair-gateway/src/ws.rs:579-608 | A tab that subscribed before and registered after an eviction reads the stale notice and leaks its count. |
| `RecordedPresence.RecordedArePresentIff` | crates/telepair-gateway/src/session_hub.rs:869-887 | In every reachable state a reader of the running recording sees exactly the participants if and only if everybody present joined since it began and nobody who joined since then was last evicted. |
| `RecordedPresence.ShownIff` | crates/telepair-gateway/src/session_hub.rs:869-935 | In every reachable state a running recording shows exactly those who joined since it began and are present or were last evicted. |
| `RecordedPresence.EvictionIsNotRecorded` | crates/telepair-gateway/src/session_hub.rs:668-699 | An eviction in any reachable state removes the user from the participants, and the running recording goes on showing it exactly if it had joined since the recording began. |
| `RecordedPresence.StartedLateMissesUser` | crates/telepair-gateway/src/http.rs:2173-2240 | A run in which the recording begins while a user is present: the user is never shown. |
| `RecordedPresence.EvictedIsStillShown` | crates/telepair-gateway/src/session_hub.rs:668-699 | A run in which a user joins a running recording, is evicted and is still shown. |
| `Reaper.ReapedIff` | crates/telepair-gateway/src/session_hub.rs:1208-1240 | A live session is removed at its re-check if and only if the scan named it and nobody has been connected since some point at least `idle_timeout` back. |
| `Reaper.NamedIff` | crates/telepair-gateway/src/session_hub.rs:1177-1189 | A scan names exactly the sessions in which nobody has been connected since some point at least `idle_timeout` back. |
| `Reaper.AttachSurvivesIff` | crates/telepair-gateway/src/session_hub.rs:836-839 | In a run without stray exits, an attach that has its receiver survives the re-check of a named session exactly if it has registered before it, or the session is not due. |
| `Reaper.StrayThenReaped` | crates/telepair-gateway/src/ws.rs:866-875 | After a stray exit the session is reaped two minutes later while a registered tab is running in it. |
| `Reaper.AttachedButReaped` | crates/telepair-gateway/src/session_hub.rs:1208-1240 | A tab that attaches between scan and re-check and registers after it: its session is reaped under it. |
| `Reaper.RegisteredInTime` | crates/telepair-gateway/src/session_hub.rs:1208-1240 | The same tab registering between scan and re-check keeps the session. |
| `Reaper.ReapedWasIdle` | crates/telepair-gateway/src/session_hub.rs:1208-1240 | A session is reaped only if nobody was connected at any moment of the last `idle_timeout`. |
| `Reaper.IdleThroughout` | crates/telepair-gateway/src/session_hub.rs:251-257 | If the idle clock shows t, nobody was connected at any later point of the run so far. |
| `SessionHub.Hub.TryJoin` | crates/telepair-gateway/src/session_hub.rs:350-364 | Joining a live session hands out the last 50 chats of its broadcasts and the current end of the channel. |
| `SessionHub.Hub.InsertOrJoin` | crates/telepair-gateway/src/session_hub.rs:380-595 | After the lock-free spawn a session made live meanwhile is joined; anything else is replaced by one for this target without participants, messages, chats or recording, idle from now. |
| `SessionHub.Hub.AddParticipantAndSnapshot` | crates/telepair-gateway/src/session_hub.rs:818-887 | A first connection lists the caller under its name and role with the next of eight colours, broadcasts just that and offers it to the recording; a further one only counts. Nobody else is touched, every session stays well formed, and the snapshot is the fold of all broadcasts. |
| `SessionHub.Hub.RemoveParticipant` | crates/telepair-gateway/src/session_hub.rs:894-935 | Gives back one connection; with the last the user leaves the list, one departure is broadcast and tapped, and the idle clock starts if nobody is left. Unknown users and sessions change nothing. |
| `SessionHub.Hub.EvictUser` | crates/telepair-gateway/src/session_hub.rs:668-699 | In exactly the live sessions where the user is connected it goes from list and counts, one eviction with the reason is broadcast and nothing tapped; the number returned is that of these sessions. |
| `SessionHub.Hub.UpdateParticipantRole` | crates/telepair-gateway/src/session_hub.rs:1104-1126 | True iff the role differed: then the user has the new role under the same name and colour, one role change is broadcast and nothing else happens. |
| `SessionHub.Hub.RecordChatEntry` | crates/telepair-gateway/src/session_hub.rs:954-986 | The chat is broadcast, tapped and last in the backlog, which stays the last 50 chats of the channel. |
| `SessionHub.Hub.BroadcastRecording` | crates/telepair-gateway/src/session_hub.rs:938-948 | A live session gets exactly this notice on its channel and nothing else changes. |
| `SessionHub.Hub.StopSession` | crates/telepair-gateway/src/session_hub.rs:705-711 | Afterwards the session is neither live nor counted for any target, and all others are counted as before. |
| `SessionHub.Hub.ReserveTarget` | crates/telepair-gateway/src/session_hub.rs:785-797 | A fresh reservation is counted for its target until its time is up and no longer; an entry that exists, reserved or live, and all others are left alone. |
| `SessionHub.Hub.ReleaseReservation` | crates/telepair-gateway/src/session_hub.rs:803-808 | Afterwards the id has an entry only if it was live before; live entries and all other ids are untouched. |
| `SessionHub.Hub.CountLiveSessionsPerTarget` | crates/telepair-gateway/src/session_hub.rs:738-766 | Sweeps expired reservations and counts exactly the remaining entries of each target. |
| `SessionHub.Hub.ScanIdle` | crates/telepair-gateway/src/session_hub.rs:1177-1189 | The candidates are exactly the sessions idle for the timeout. |
| `SessionHub.Hub.ReapCandidates` | crates/telepair-gateway/src/session_hub.rs:1210-1240 | Removes expired reservations and exactly those candidates that are idle for the timeout at their own clock reading. |
| `SessionHub.AddKeepsWellFormed` | crates/telepair-gateway/src/session_hub.rs:818-887 | Registering keeps the session invariant. |
| `SessionHub.RemoveKeepsWellFormed` | crates/telepair-gateway/src/session_hub.rs:894-935 | Unregistering keeps the session invariant. |
| `SessionHub.EvictKeepsWellFormed` | crates/telepair-gateway/src/session_hub.rs:668-699 | Eviction keeps the session invariant. |
| `SessionHub.BeginKeepsWellFormed` | crates/telepair-gateway/src/session_hub.rs:998-1015 | Installing a recording slot keeps the session invariant: a recording begins with nobody shown. |
| `SessionHub.Hub.StartRecording` | crates/telepair-gateway/src/session_hub.rs:998-1015 | True iff the session is live and has no slot: then one is installed that has been offered nothing, and nothing else changes. |
| `SessionHub.Hub.TakeRecording` | crates/telepair-gateway/src/session_hub.rs:1022-1060 | True iff there is a slot: then there is none, and nothing else changes. |
| `Reservations.SweepsAreInvisible` | crates/telepair-gateway/src/session_hub.rs:738-766 | Per-target counts after any schedule of lazy and background sweeps equal those of a never-collected map filtered by age. |
| `Reservations.ReservedOnceNeverRevives` | crates/telepair-gateway/src/session_hub.rs:785-797 | Reserving each id once suffices for that. |
| `Reservations.RevivalIsVisible` | crates/telepair-gateway/src/session_hub.rs:777-797 | Reserving an expired id again shows whether a sweep ran in between. |
| `RoleSync.NoMissedDemotion` | crates/telepair-gateway/src/ws.rs:784-832 | After any role changes, overflows of the 64-slot channel and re-fetches, a drained connection that started in step has the hub's role and forwards input exactly if that role may type in this mode. |
| `RoleSync.DrainedRoleIff` | crates/telepair-gateway/src/ws.rs:697-703 | For any start: a drained connection has the hub's role iff it started in step or a change or re-fetch came since. |
| `RoleSync.RoleSinceJoinIff` | crates/telepair-gateway/src/ws.rs:494-497 | Counting from the registration: a drained connection is in step exactly if the changes broadcast before its receiver existed led back to the role it registered with, or one came since. |
| `RoleSync.DemotionBeforeSubscribeIsMissed` | crates/telepair-gateway/src/ws.rs:494-497 | A demotion broadcast between registering and the creation of `role_rx` stays in effect unnoticed. |
| `RoleSync.InputGate.Serve` | crates/telepair-gateway/src/ws.rs:697-832 | The handler's loop over keystrokes, role messages and re-fetches, with its three variables, computes the fold of the gate steps. |
| `RoleSync.OneNoticePerRole` | crates/telepair-gateway/src/ws.rs:748-774 | Between two role changes every keystroke frame is forwarded, or every one is withheld and exactly the first answered with a notice. |
| `RoleSync.AnswersSinceJoining` | crates/telepair-gateway/src/ws.rs:697-774 | From joining until the role changes every keystroke of an owner, or of an operator in multiplexed mode, is forwarded; for everybody else the first is answered with the reason for the role and all others with nothing. |
| `RoleSync.AnswersSinceChange` | crates/telepair-gateway/src/ws.rs:784-832 | The same from every change of role on, heard or fetched, whatever was noticed before. |
| `RoleSync.RunKeepsInv` | crates/telepair-gateway/src/ws.rs:784-832 | Over every run the remaining messages lead the local role to the hub's, and the gate matches the local role. |
| `Recording.RunWriter` | crates/telepair-gateway/src/recording_writer.rs:121-293 | The writer loop aborts exactly if opening, the header, a line, a due flush or the shutdown fails, is finished exactly if its loop was ended and nothing failed, and then the file is the header and the events received before the end, with matching counts. |
| `Recording.WriterEnds` | crates/telepair-gateway/src/recording_writer.rs:121-293 | The same of the fold of the writer steps, with the bytes that are unflushed computed from the inputs. |
| `Recording.WriterRunKeeps` | crates/telepair-gateway/src/recording_writer.rs:174-234 | Throughout, the file is the header and the lines written, `event_count` counts them, `bytes_written` is its size in UTF-8 bytes, and less than 64 KiB is unflushed at each loop head. |
| `Recording.FileTextLines` | crates/telepair-gateway/src/recording_writer.rs:297-314 | The file text is the header and one line for each event, each ended by a line break. |
| `RecordingRuns.RecordingSlot.TryToSend` | crates/telepair-gateway/src/recording_writer.rs:51-61 | An event offered is queued if the writer lives and fewer than 1024 events wait, and otherwise counted as dropped. |
| `RecordingRuns.Conservation` | crates/telepair-gateway/src/recording_writer.rs:51-61 | Over every run of a slot, I/O errors included: tapped = written + still queued + dropped + at most one event lost, in order, the one being lost exactly if a write failed; and the stop signal is the last item of the queue. |
| `RecordingRuns.CompletedIsFaithful` | crates/telepair-gateway/src/recording_writer.rs:236-293 | A row is completed only if the file splits into the header and one line per event ever tapped, each decoding to its event with times that never decrease, and row count and size agree. |
| `RecordingRuns.GapsEndFailed` | crates/telepair-gateway/src/recording_writer.rs:263-281 | Any drop and any failed I/O, judged from the actions of the run: never completed, and failed in the end unless the database refuses the write. |
| `RecordingRuns.WriterGivesUpIff` | crates/telepair-gateway/src/recording_writer.rs:174-234 | Over every run, in terms of the actions alone: the writer aborts exactly if creating the file, the header, a line, a due flush or the shutdown failed, and is done exactly if none did and all stages were passed. |
| `RecordingRuns.UndisturbedCompletes` | crates/telepair-gateway/src/recording_writer.rs:121-293 | For any number of events, tapped and taken one by one without an error: the row ends completed with their number, and the file holds them all. |
| `RecordingRuns.AbandonedCompletes` | crates/telepair-gateway/src/recording_writer.rs:207 | The same for a slot that is dropped without a stop signal. |
| `RecordingRuns.CompletedIff` | crates/telepair-gateway/src/http.rs:2240-2283 | Over every run, whatever fails: the row reads completed if and only if the database took the verdict of a run that passed all stages without an I/O error and a drop, and no successful rollback came after it. |
| `RecordingRuns.RefusedShowsCompletedIff` | crates/telepair-gateway/src/http.rs:2240-2283 | For a start that the hub refuses, the writer's verdict reads completed exactly when its I/O and its database write succeed, despite the rollback. |
| `RecordingRuns.RolledBackThenCompleted` | crates/telepair-gateway/src/http.rs:2240-2283 | So a recording that never started can end up listed as completed. |
| `RecordingRuns.StepKeepsInv` | crates/telepair-gateway/src/session_hub.rs:1022-1068 | Taking the slot, sending the stop, clearing and every writer and database step keep all of this. |
| `Asciicast.LineRoundTrip` | crates/telepair-core/src/recording.rs:44-83 | Every line decodes to its time in microseconds and its event, strings read by section 7 of RFC 8259. |
| `Asciicast.LineDetermines` | crates/telepair-core/src/recording.rs:44-83 | Two events with one line are equal, but for output bytes that are not UTF-8. |
| `Asciicast.FileRoundTrip` | crates/telepair-gateway/src/recording_writer.rs:297-314 | Splitting the file at line breaks gives exactly one line more than events, each decoding to its event. |
| `Json.StringRoundTrip` | crates/telepair-core/src/recording.rs:46-50 | An escaped string is read back, whatever follows it. |
| `Json.ObjectRoundTrip` | crates/telepair-core/src/recording.rs:54-79 | So is an object of strings. |
| `Utf8.LossyIsFaithfulIff` | crates/telepair-core/src/recording.rs:47-48 | The lossy reading of terminal output keeps its bytes exactly if they are the encoding of some text. |
| `Utf8.LossyOfEncoded` | crates/telepair-core/src/recording.rs:47-48 | Encoded text is read back unharmed. |
| `Utf8.BrokenReads` | crates/telepair-core/src/recording.rs:47-48 | Bytes that begin with no encoded character read as one replacement character for the longest piece that begins one, or for one byte. |
| `Utf8.ChunksAreFaithfulIff` | crates/telepair-core/src/recording.rs:47-48 | Output that is valid as a whole reads chunk by chunk as it reads at once if and only if every chunk consists of whole characters. |
| `Utf8.PiecesReadAsWholeIff` | crates/telepair-core/src/recording.rs:47-48 | The same for a single split. |
| `Utf8.SplitCount` | crates/telepair-core/src/recording.rs:47-48 | For any bytes: a split keeps the text exactly at a boundary of its reading, and adds characters anywhere else. |
| `Utf8.SplitCharacterIsLost` | crates/telepair-core/src/recording.rs:47-48 | A character split between two reads is lost although the bytes together are valid. |
| `Memberships.UsedIsMembersMade` | crates/telepair-core/src/storage/sqlite.rs:1257-1472 | In every interleaving an invite's `used_count` is the number of distinct users it made members, within its limit of at most 100; while the session is open they are all in its participants. |
| `Memberships.MembersAreGrants` | crates/telepair-core/src/storage/sqlite.rs:1257-1472 | Every open session has its owner and exactly one participant for each grant, and no membership is ever granted twice. |
| `Invites.OneGrantPerCall` | crates/telepair-control/src/invite_service.rs:295-450 | A redeem call grants one membership if it reports a new one and none otherwise: members, failures and retries of guest names consume nothing. |
| `Invites.NothingAfterClose` | crates/telepair-core/src/storage/sqlite.rs:1263-1328 | No membership is granted once the session is closed, however far a call had come. |
| `Invites.StepEffect` | crates/telepair-core/src/storage.rs:163-195 | A step of a call changes nothing, or grants one membership to a user who was not a member, for one use of an invite with room in an open session. |
| `Invites.InviteService.Redeem` | crates/telepair-control/src/invite_service.rs:295-450 | Undisturbed, the method joins exactly if the caller is in scope and an attempt finds a usable invite and an admissible user, the earlier ones having met a taken name; then it adds one use and one participant with the role of the invite. It denies exactly callers out of scope, and names every other refusal. |
| `Invites.GrantsIff` | crates/telepair-core/src/storage/sqlite.rs:1257-1472 | The transaction grants if and only if the token exists with room and no expiry or one still to come, its session is open, and the caller is a known user not in it or the guest has a free id and name; then just that membership and one use are added, and otherwise nothing. |
| `Invites.RefusalIs` | crates/telepair-core/src/storage/sqlite.rs:1332-1402 | Every refusal of the transaction, by the first reason that applies. |
| `Invites.RedeemsAlone` | crates/telepair-control/src/invite_service.rs:295-450 | The same of the steps of a call run without interference. |
| `Invites.MintedIsHonouredIff` | crates/telepair-control/src/invite_service.rs:168-262 | A token just minted is honoured exactly if no ownership and 1 to 100 uses were asked for, its time, a week at most, is not up, its session is open and the caller admissible; then with the role asked for. |
| `Invites.InviteService.Attempt` | crates/telepair-control/src/invite_service.rs:372-404 | The retry loop runs the transaction at most five times, again only after a name collision. |
| `Invites.ResolveExpiry` | crates/telepair-control/src/invite_service.rs:213-247 | Absolute expiries are accepted exactly if in the future and within a week, and taken as given; relative ones exactly if positive, and clamped to a week. |
| `Invites.ReportedRoleIff` | crates/telepair-control/src/invite_service.rs:446-450 | The role reported is the role held; for a caller that lost a race it is the invite's role, right iff the two agree. |
| `Invites.ReportedExpiredIff` | crates/telepair-core/src/storage/sqlite.rs:643-661 | A merely expired invite is reported as such except at the very instant of expiry, when it is reported as invalid. |
| `RoleChanges.LingersIff` | crates/telepair-gateway/src/http.rs:895-945 | In every interleaving a user is an active participant of a closed session if and only if a change of its role, checked while the session was open, was written after the close. |
| `RoleChanges.OneOwner` | crates/telepair-gateway/src/http.rs:914-942 | However redemptions, role changes and closes interleave: an active participant has the owner's role exactly if it owns the session, and the owner of an open session is one. |
| `RoleChanges.RoleIsLastGiven` | crates/telepair-gateway/src/http.rs:895-945 | However everything interleaves: an active participant has the role it was given last, as the owner opening the session, by the invite that admitted it, or by a change of role. |
| `RoleChanges.OwnerAsked` | crates/telepair-gateway/src/http.rs:907-935 | Every role about to be written was asked for, while the session was open, by its owner for another active participant, and is another one than held and not the owner's. |
| `RoleChanges.LetThroughIff` | crates/telepair-gateway/src/http.rs:907-935 | A request is let through exactly if it is such a one. |
| `RoleChanges.NothingAfterRevoke` | crates/telepair-core/src/storage/sqlite.rs:1290-1300 | Once revoked, an invite admits nobody any more, however far a call had come. |
| `RedeemScenarios.ReseatedAfterClose` | crates/telepair-core/src/storage/sqlite.rs:1091-1105 | A run that ends with an active participant in a closed session. |
| `RedeemScenarios.RaceLoserIsToldAnotherRole` | crates/telepair-control/src/invite_service.rs:445-450 | A run of two racing calls in which the user is a viewer and the second call reports operator. |
| `RedeemScenarios.ExpiringNowIsToldInvalid` | crates/telepair-core/src/storage/sqlite.rs:643-661 | A run to an invite tried at the instant of its expiry: refused as invalid, and as expired a moment later. |
| `Timestamps.StringOrderIsTimeOrderIff` | crates/telepair-control/src/recording_service.rs:354-361 | For timestamps of years 0000-9999 with any offset and 0, 3, 6 or 9 fraction digits, normal forms compare as the instants exactly when both or neither were pushed into year 10000 by their offset. |
| `TimestampReader.NormaliseReads` | crates/telepair-control/src/recording_service.rs:354-361 | The normal form, read by a reader of RFC 3339 of its own, is a valid UTC date and time lying exactly the offset before the fields given, with the same nanoseconds and a leap second exactly if there was one. |
| `TimestampReader.UtcIsKept` | crates/telepair-control/src/recording_service.rs:354-361 | A timestamp written in UTC keeps all its fields. |
| `TimestampReader.PrintedReads` | crates/telepair-core/src/storage/sqlite.rs:418-424 | Every printed instant reads as its date, clock and nanoseconds, years of five digits and before 0 included. |
| `TimestampReader.AcceptedIff` | crates/telepair-control/src/recording_service.rs:374-390 | A share is accepted exactly if its instant, computed from the fields, is later than now, and stored in normal form. |
| `Calendar.DayAfterDay` | crates/telepair-control/src/recording_service.rs:354-361 | Day numbers follow the Gregorian calendar from each day to the next. |
| `Timestamps.InstantStringOrder` | crates/telepair-core/src/storage/sqlite.rs:418-424 | The same for instants printed by the storage layer. |
| `Timestamps.NormaliseInjective` | crates/telepair-control/src/recording_service.rs:354-361 | Different instants never share a normal form. |
| `Timestamps.MintedShareIsLiveIff` | crates/telepair-core/src/storage/sqlite.rs:2518-2526 | A share accepted as in the future passes the stored-string test when minted iff its instant is not in year 10000. |
| `Timestamps.YearEndOverflows` | crates/telepair-control/src/recording_service.rs:374-390 | 9999-12-31T23:59:59-01:00 is a timestamp for which it does not. |
| `EnvSubst.SubstituteEnvVars` | crates/telepair-core/src/target.rs:51-86 | The scanner terminates and computes the expansion, for every input and environment; the expansion is determined by the four rows below. |
| `EnvSubst.PlaceholderExpands` | crates/telepair-core/src/target.rs:69-80 | `${NAME}` in front of any text expands to the value of the variable, or to itself if there is none, followed by the expansion of the rest. |
| `EnvSubst.EscapeExpands` | crates/telepair-core/src/target.rs:61-68 | `$${NAME}` in front of any text expands to `${NAME}` under every environment. |
| `EnvSubst.CharacterExpands` | crates/telepair-core/src/target.rs:81-86 | Any other character stands for itself, and nothing expands to nothing. |
| `EnvSubst.ReadToken` | crates/telepair-core/src/target.rs:58-84 | Each turn of the scanner reads exactly the next token and appends its meaning. |
| `EnvSubst.TokensCoverInput` | crates/telepair-core/src/target.rs:51-86 | The tokens spell the input: nothing is lost or invented. |
| `EnvSubst.ReadingIsFixed` | crates/telepair-core/src/target.rs:51-86 | The reading is the same under every environment, so inserted values are never scanned again. |
| `EnvSubst.NoPlaceholderUnchanged` | crates/telepair-core/src/target.rs:45-50 | Text without a closed `${...}` is unchanged, `$$` included. |
| `EnvSubst.QuoteExpands` | crates/telepair-core/src/target.rs:45-50 | Every string has a spelling that expands to it under every environment. |
| `CsvExport.ExportRoundTrip` | crates/telepair-gateway/src/http.rs:2069-2112 | Reading the export by section 2 of RFC 4180 gives the header and one record of seven fields per row, equal to the originals up to the guard quote. |
| `CsvExport.FieldsRecovered` | crates/telepair-gateway/src/http.rs:2069-2112 | Read back, the export is the seven column names and, row for row, the id, timestamp, event and actor as given and actor name, session and detail as guarded, an absent one empty. |
| `CsvExport.GuardNeutralises` | crates/telepair-gateway/src/http.rs:2085-2096 | A text that starts with `=`, `+`, `-`, `@`, a tab or a return gets a quote in front, no other does; no guarded text starts with one of the six, and two share a guarded form only if one is the other behind a quote. |
| `CsvExport.ExportAudit` | crates/telepair-gateway/src/http.rs:2061-2112 | The export loop prints exactly that text and refuses more than 10,000 rows. |
| `CsvExport.WriteRow` | crates/telepair-gateway/src/http.rs:2098-2112 | Each row adds its seven comma-separated fields and a line break. |
| `Targets.ValidateTargets` | crates/telepair-agent/src/virtual_target.rs:132-168 | The loop reports the list of all problems. |
| `Targets.ProblemsAreThose` | crates/telepair-agent/src/virtual_target.rs:132-168 | That list holds exactly the empty, repeated and blank names, blank display names and missing or blank commands, entry by entry and none twice. |
| `Targets.NoProblemsIff` | crates/telepair-agent/src/virtual_target.rs:132-168 | No problem is reported iff every entry is complete and names are unique. |
| `Targets.FromConfig` | crates/telepair-agent/src/virtual_target.rs:13-27 | The engine built is the file plus the built-in shell if it has no local target, or the list of problems. |
| `Targets.FoundResolves` | crates/telepair-agent/src/virtual_target.rs:45-73 | In a validated engine a name is found iff it resolves, under any environment. |
| `Targets.LocalTargetLaunchesShell` | crates/telepair-agent/src/virtual_target.rs:45-73 | A local target launches its own shell, expanded, or the default one, without arguments and variables. |
| `Targets.VirtualTargetLaunches` | crates/telepair-agent/src/virtual_target.rs:49-73 | A virtual target launches its command and arguments and sets its variables, each text expanded, whatever else the engine holds. |
| `Targets.QuotedTargetIsVerbatim` | crates/telepair-agent/src/virtual_target.rs:49-73 | Resolution expands command, arguments and environment values exactly once each: quoted texts are launched verbatim. |
| `Targets.Diff` | crates/telepair-agent/src/virtual_target.rs:83-125 | The four lists are strictly sorted and contain exactly the added, removed, changed and unchanged names. |
| `Targets.DiffPartitionsOld` | crates/telepair-agent/src/virtual_target.rs:83-125 | Removed, changed and unchanged partition the old names, and their sizes add up. |
| `Targets.DiffPartitionsNew` | crates/telepair-agent/src/virtual_target.rs:83-125 | Added, changed and unchanged partition the new names, and their sizes add up. |
| `Targets.DiffSwaps` | crates/telepair-agent/src/virtual_target.rs:83-125 | Exchanging the engines exchanges added and removed and nothing else. |
| `TargetReload.AppState.Reload` | crates/telepair-gateway/src/http.rs:1444-1486 | Refuses exactly the referenced names missing from the new engine; accepted, it installs the engine and every live or reserved entry's target resolves. |
| `TargetReload.AppState.ValidateReload` | crates/telepair-gateway/src/http.rs:1568-1587 | The preview's diff and its sorted list of removed names still in use. |
| `TargetReload.BlockedIsRefusedIff` | crates/telepair-gateway/src/http.rs:1571-1587 | Blocked and refused agree exactly when every referenced name missing from the new engine is in the current one. |
| `TargetReload.SameFileRefusedIff` | crates/telepair-gateway/src/http.rs:1444-1448 | Reloading the unchanged file is refused exactly when some referenced name is not in the engine, which the preview never shows. |
| `TargetReload.OwnTargetBlocksReload` | crates/telepair-gateway/src/http.rs:645-698 | With one session on a user-owned target, for any engine that does not know its name: validating the unchanged file shows no change and nothing blocked, reloading it is refused. |
| `TargetReload.AlwaysLaunchableIff` | crates/telepair-gateway/src/http.rs:640-698 | Over any run of lookups, creations, attaches, expiries, releases, removals, counts and stores: all hub entries for engine targets, reserved or live, can be launched at every point if and only if no step acts on a lookup or count that no longer holds. |
| `TargetReload.StepServesIff` | crates/telepair-gateway/src/http.rs:1444-1486 | One step keeps all entries in the engine exactly if it is not such a step. |
| `TargetReload.ReservedInTime` | crates/telepair-gateway/src/http.rs:678-690 | While the reservation of a session lasts, attaching to it never acts on an outdated lookup. |
| `TargetReload.DroppedDuringSpawn` | crates/telepair-gateway/src/ws.rs:372-416 | For any engine, target and reload that drops it: the reservation expires after the attach has looked the target up, the reload lands during the spawn, and the session goes live on a target nobody can launch. |
| `RateLimit.RegisterRateLimiter.Check` | crates/telepair-gateway/src/rate_limit.rs:73-90 | An admitted attempt starts a cooldown of exactly `min_interval`; a throttled one is told exactly what is left and changes nothing; other addresses are unaffected. |
| `RateLimit.RegisterRateLimiter.PurgeExpired` | crates/telepair-gateway/src/rate_limit.rs:92-101 | No later answer for any address changes, and what is kept is still in its cooldown. |
| `RateLimit.AllowedAreSpaced` | crates/telepair-gateway/src/rate_limit.rs:73-101 | On a monotone clock two admitted attempts from one address are at least `min_interval` apart, purges included. |
| `RateLimit.CooldownIsExact` | crates/telepair-gateway/src/rate_limit.rs:73-101 | An attempt is throttled with exactly the time left and admitted from then on; retrying extends nothing, purging shortens nothing. |
| `RateLimit.PurgesAreInvisible` | crates/telepair-gateway/src/rate_limit.rs:92-101 | Every attempt gets the answer it would get from a map never purged. |
| `Otp.ResiduesAreUniform` | crates/telepair-control/src/auth_service.rs:655-666 | For every limit, every residue has exactly threshold/limit accepted candidates. |
| `Otp.ThresholdIsMultiple` | crates/telepair-control/src/auth_service.rs:655-658 | The threshold is a multiple of the limit. |
| `Otp.MostDrawsAccepted` | crates/telepair-control/src/auth_service.rs:655-664 | More than half of all draws are accepted, for every limit but 2^31, where it is exactly half. |
| `Otp.CodesAreUniform` | crates/telepair-control/src/auth_service.rs:655-666 | Every six-digit string is the code of exactly 4294 accepted candidates. |
| `Otp.GenerateOtp` | crates/telepair-control/src/auth_service.rs:655-666 | The draw loop prints the first accepted draw as six digits that parse back to it. |

## Left out

- Foreign calls: PTYs, the scheduler and its fairness, YAML and JSON parsing of requests, password hashing, mail, SQLite beyond its statements as atomic steps, and audit writes.
- HubRuns.Next: one clock reading per step; in the source `evict_user` reads the clock once per session, all under one lock.
- Reaper.ReapedIff: each candidate's re-check and removal is a step of its own; the whole pass under one lock, with a clock reading for each candidate, is `SessionHub.Hub.ReapCandidates`.
- HubRuns.Next: the shutdown broadcast, the database rows and the terminal size of a session are not modelled; a handler whose entry is dropped goes on without a count.
- SessionHub.Hub.AddParticipantAndSnapshot: counters are unbounded; overflow after 2^64 joins or connections is not modelled.
- RoleSync.NoMissedDemotion: the user stays a participant; what an eviction does to the connection is part of `HubRuns`.
- RoleSync.AnswersSinceJoining: a notice for which the private buffer of the connection is full is lost (crates/telepair-gateway/src/ws.rs:760-771); here it counts as sent.
- AttachProtocol.ExactlyOnce: the lock is a step holder, so fairness and poisoning are not modelled; nor are the 64 slots shared with the role receiver, which has its own position.
- ClientViews.ClientFollows: the client's list order, system chat lines and toasts; a client whose receiver lags is closed (crates/telepair-gateway/src/ws.rs:638-663), so it folds all messages or none further.
- RecordedPresence.RecordedArePresentIff: about the events offered to the slot; that the file of a completed recording holds them all is `RecordingRuns.CompletedIsFaithful`.
- RoleChanges.LingersIff: the checks of a role change are one read, as the last of them repeats the test for an open session; the sweep that closes abandoned sessions is a close of each.
- Scrollback.ScrollbackRing.Push: reads of the PTY are given as chunks of 1 to 4096 bytes (crates/telepair-agent/src/pty.rs:76-100); the reader itself is not modelled.
- Asciicast.LineRoundTrip: times are whole microseconds; the rounding of the floating-point seconds to six decimals is not modelled.
- Asciicast.FileRoundTrip: the header is any line without control characters; its own JSON fields are not modelled.
- Json.StringRoundTrip: the reader does not understand escaped surrogate pairs, which the printer never writes.
- RecordingRuns.CompletedIsFaithful: after a failed write the content of the file is unspecified; the size read from the file system is the number of bytes written.
- RecordingRuns.Conservation: what is still queued when an aborted writer returns is discarded with the channel, though it counts as queued here. One slot and its writer; that `clear_recording_slot` is not keyed by recording, so may clear a newer slot, appears as the slot being abandoned at any time.
- Memberships.UsedIsMembersMade: tokens and user ids are fresh numbers; a collision of a new user id counts as a name collision, as both are unique violations. Deleting users is not modelled.
- Invites.ResolveExpiry: whole seconds without the range limits of the duration type, which panics on relative lifetimes of some 10^15 seconds.
- Timestamps.StringOrderIsTimeOrderIff: the textual RFC 3339 parser; offsets are given in minutes and leap seconds as the second half of the fraction, as in the parsed value.
- EnvSubst.SubstituteEnvVars: the environment is a map; names that cannot be environment variables are those not in it.
- CsvExport.ExportRoundTrip: identifiers, timestamps and event names are given as texts without commas, quotes and line breaks; `detail` as its JSON text, so an absent value and an empty one read alike. The header line is written as the join of its names.
- TargetReload.AppState.Reload: counting and storing are one call here, although in the source no lock spans both; they are two steps in `TargetReload.AlwaysLaunchableIff`. The hash of the previewed file and the counts in the refusal are left out.
- RateLimit.AllowedAreSpaced: the clock is read before the lock is taken in the source; the runs assume readings in lock order.
- Otp.GenerateOtp: the loop is given a finite supply of draws and reports if it runs dry.
- Endpoints, permissions, recording shares beyond their expiry test, the command line and the web interface: plumbing, or settled by one branch each.
