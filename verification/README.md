# Verification of the session GUI, the TUI demos and the scripts

A Dafny model of the stateful parts of the repository, with proofs. `dafny verify dfyconfig.toml`
checks all of it. Each module models one component and can be read alone; the synchronization
modules build on one another (`TextOrder`, `Decimals`, `ClientState`, `EventService`, `SyncEffect`,
then `LossyRuns` and `OrderedRuns`, then `GoingBack`), and so do `Composer`, `ComposerRuns` and
`Transcript`, and `Discovery` and `Catalog`.

What the code updates in place is a class whose methods change fields (`SyncEffect`, `Controls`,
`ResyncEffect`, `NativeLiveClient`, `MockAppClient`, `ComposerDemo`, `TranscriptView`, `OrderEntry`,
`LargeDataGrid`, `ColumnGrid`, `ScenarioState`). Each such method is proved equal to a function on
values, and the properties of whole runs are proved about those functions: a run is any finite
sequence of steps from the initial state, and every theorem about runs is an induction over it.

## What is modelled

**Live view** (`gui/src/App.tsx`, `gui/src/client/`). A service owns one log of events; a client
subscribes, asks for a snapshot, holds back up to 2048 events meanwhile, installs the snapshot and
replays. `LossyRuns` puts a channel in between that may lose, repeat, reorder and delay events,
answer with any snapshot some service ever held, push others, and disconnect. `OrderedRuns` has an
orderly channel instead. `ResyncLatch` is the one-shot request for resynchronization, `CommandGate`
the gate in front of submit and interrupt, `NativeLive` the client that accepts numbered rounds from
the native process. Cursors stay text, as in the code, and are read as `BigInt` and the native
client's decimal functions read them (`Decimals`).

**Composer demo** (`examples/tui/29_composer_bottom_frame.py`). The streaming coroutine is cut at its
awaits, so that queueing, steering, taking back, aborting and submitting fall between any two of its
steps. `Transcript` is the renderer with its per-record cache.

**Session history** (`gui/src/useSessionHistory.ts`), **cursor report reader**
(`examples/tui/36_width_probe.py`), **order sheet** (`examples/tui/58_widgets_datagrid.py`), **paging**
(`examples/tui/60_widgets_datagrid_large_dataset.py`), **column moves** (`59_` and `61_` beside it),
all over `src/loushang/tui/ui_parts/widgets/data_grid.py`; the **control-flow scenarios**
(`scenarios/coding/control_flow_session.py`), the **weekly ledger**
(`examples/coding/23_kimi_weekly_usage_ledger.py`) and the **capability catalog**
(`scripts/generate_harness_capability_catalog.py`).

## What the proofs found

- Going to a page asks the grid to activate the page's first row, and the grid answers false when
  that row is active already, which the search takes for a refusal: the cursor moves down one row,
  and with one row a page it lands on the next page (`Paging.GoToMissesPage`). `Paging.GoToMakesCurrent`
  gives the exact condition. Jumping by pages is free of it (`Paging.JumpLands`).
- A page jump cut short by the first or last page is not undone by the opposite jump, unless it ran
  from one end to the other (`Paging.JumpUndone`, for instance `Paging.JumpNotUndone`); jumps by one page,
  the only ones the keys make, always are.
- The command gate reads its state from the last render. If a reply could be handled before the
  render that follows the click, a second submit would pass (`CommandGate.LaggingRenderSendsTwice`);
  `CommandGate.SecondSubmitNeedsStaleFace` says exactly when. React commits the updates of a click
  before a reply can be handled, and under that order the gate holds (`CommandGate.QuietUntilEvidence`).
- `rows[-max_height:]` keeps everything for a height of zero (`Transcript.LastOfLast`); render
  constraints refuse that height, so it cannot happen on screen.
- Steers can be pending when a run ends. A run that completes leaves none; one that is aborted leaves
  exactly those that were pending when it was (`ComposerRuns.FinishingAndStarting`), and they stay in
  the queue, in order, until some later run applies them (`ComposerRuns.QueuesConserved`).
- In the weekly ledger a record written at another UTC offset never falls into the week counted,
  even when its instant lies inside that week (`WeeklyLedger.OtherOffsetNeverCounts`; exactly when two
  times share a week: `WeeklyLedger.SameWeek`).
- `validate`'s second check of the controller generation, printing the parsed number again, can never
  fail after the pattern has passed (`Decimals.CounterPatternIsCanonical`).
- A Session's cursor can go back in the live view. A push is installed even while an answer is awaited,
  and an answer whatever is on screen, so an answer overtaken by a push takes the view back
  (`GoingBack.ViewGoesBack`, for every service). Nothing but a push or an answer ever does
  (`GoingBack.OnlySnapshotsGoBack`), and `GoingBack.PushGoesBack`, `GoingBack.OrderlyPushGoesBack` and
  `GoingBack.OrderlyAnswerGoesBack` say exactly when they do (`GoingBack.AnswerGoesBack` for an answer over
  the lossy channel, up to the events buffered). Agreement with the log holds all the same
  (`LossyRuns.AgreementOverEveryRun`).
- Catalog coverage compares references, not definitions. Discovery asks only that every definition
  constructed is the whole value of a module-level assignment; one assigned to attributes or patterns
  alone gives no reference (`Discovery.SilentDeclaration`, exactly when: `Discovery.AssignedCallRefs`), and
  of two assigned to one name the reference refers to the second (`Discovery.DeclaredTwice`). A definition
  is the one some reference refers to exactly when a plain-name target of its statement is bound by no
  later assignment (`Discovery.ReferredIff`).
- When two members of a live space share a Session, the cursor and the revision of the one on screen, the
  last, never go back, but the revision of an earlier one can (`NativeLive.EarlierMemberGoesBack`).

## Model

| member | source | states |
|---|---|---|
| LossyRuns.AgreementOverEveryRun | gui/src/App.tsx:121-206 | In every run over a lossy, repeating, reordering, delaying channel with refreshes, pushes, failures and new services, every Session on screen is the fold of the published log of the generation on screen up to that Session's own cursor, and so is everything buffered a published event |
| LossyRuns.SameCursorSameSession | gui/src/client/state.ts:357-403 | Two clients with different runs of one generation, one of whose logs may go on beyond the other, show the same Session whenever its cursors name the same number |
| LossyRuns.DisposedIsSilent | gui/src/App.tsx:199-205 | After the effect is disposed no event, snapshot, answer or notice ever changes the view |
| LossyRuns.ActiveUntilDisposed | gui/src/App.tsx:199-205 | In every run the effect is active exactly until it is disposed |
| LossyRuns.PendingIsLatched | gui/src/App.tsx:126-159 | In every run a refresh on its way holds the commands' latch, which is otherwise held only before the first refresh, and shows as synchronizing unless a push comes between |
| LossyRuns.SyncingSteps | gui/src/App.tsx:126-194 | Exactly which steps begin and end the sign of synchronizing, and nothing is held back once nothing is awaited |
| OrderedRuns.ReplayOverSnapshot | gui/src/App.tsx:137-140 | Replaying everything that arrived since the request over a snapshot taken at any moment after it gives the view at the later of the two points: covered events are skipped, the rest applied, no gap is seen |
| OrderedRuns.NoLostWindow | gui/src/App.tsx:126-169 | In any run, an answered refresh that saw at most 2048 events shows the later of its snapshot and the last delivered event; one that saw more installs nothing and freezes the view |
| OrderedRuns.WindowOpens | gui/src/App.tsx:195 | Whatever the service, the mounted effect's first request can be asked and its snapshot taken, so the window above is reachable |
| OrderedRuns.NoFalseGap | gui/src/client/state.ts:357-403 | In any orderly run the arrival of an event never freezes the view, and a live view that is not waiting has missed no delivered event |
| OrderedRuns.InvAlways | gui/src/App.tsx:121-206 | In every orderly run the buffer holds exactly what arrived since the request, up to the limit, overflow says whether more did, and an unfrozen view is the log's at some point |
| OrderedRuns.PendingIsLatched | gui/src/App.tsx:126-159 | The same latch over orderly runs |
| GoingBack.OnlySnapshotsGoBack | gui/src/App.tsx:126-206 | Over the lossy channel, in any state, a step that is neither a push nor an answer leaves every Session on screen as it was or one event further |
| GoingBack.OnlySnapshotsGoBackInOrder | gui/src/App.tsx:126-206 | The same for every step of the orderly channel |
| GoingBack.PushGoesBack | gui/src/App.tsx:170-172 | In every lossy run a push takes a Session back if and only if the pushed view has it at a lower number; one of the generation on screen, if and only if it holds fewer of the Session's own events than the screen has folded |
| GoingBack.AnswerGoesBack | gui/src/App.tsx:134-140 | In every lossy run an answer that overflowed takes nothing back; another takes a Session back only if its snapshot has it at a lower number, and does if the buffered events of that Session cannot make up the difference; if none is buffered the condition is exact |
| GoingBack.StandsSomewhere | gui/src/client/state.ts:275-403 | In every orderly run, frozen or not, the screen is empty or shows the service after some number of its events |
| GoingBack.OrderlyAnswerGoesBack | gui/src/App.tsx:134-140 | In every orderly run an answer moves the view to the later of its snapshot and the last delivered event; some Session goes back if and only if the view stood past both, a given one if and only if it has events in between |
| GoingBack.OrderlyPushGoesBack | gui/src/App.tsx:170-172 | A push moves the view to the pushed point; some Session goes back if and only if that is earlier, a given one if and only if it has events in between |
| GoingBack.ViewGoesBack | gui/src/App.tsx:170-172 | For every service and Session there is a run in which an answer overtaken by a push takes that Session back |
| SyncEffect.SyncEffect.Refresh | gui/src/App.tsx:126-134 | A request while one is on its way, or after disposal, does nothing; otherwise the buffer is emptied and everything is marked pending |
| SyncEffect.SyncEffect.Resume | gui/src/App.tsx:134-159 | The answer is ignored after disposal, refused after overflow, and otherwise installed with the buffer replayed on it in order; the closure is reset in every case |
| SyncEffect.SyncEffect.OnEvent | gui/src/App.tsx:162-169 | An event is buffered while the answer is awaited, marks the overflow at the limit, and is applied directly otherwise |
| SyncEffect.SyncEffect.OnSnapshot | gui/src/App.tsx:170-183 | A pushed snapshot is installed at once, awaited answer or not, and ignored after disposal |
| SyncEffect.SyncEffect.OnConnection | gui/src/App.tsx:184-194 | A lost connection is shown, freezes the view and leaves the Sessions as they are |
| EventService.PublishedView | gui/src/client/mockAppClient.ts:618-626 | Publishing an event changes the current snapshot by folding that event into its Session and leaves all earlier views as they were |
| EventService.ReplayedCursor | gui/src/client/mockAppClient.ts:612-616 | After k of its own events a Session's cursor is the starting cursor plus k |
| EventService.MockAppClient.constructor | gui/src/client/mockAppClient.ts:304-311 | A client opened on a snapshot of different, readable Sessions publishes from those cursors and has published nothing yet |
| EventService.MockAppClient.NextCursor | gui/src/client/mockAppClient.ts:612-616 | The next cursor counts one on, from zero for an id not met before |
| EventService.MockAppClient.Publish | gui/src/client/mockAppClient.ts:612-626 | Publishing takes the next cursor and keeps the stored Sessions the fold of the log; for a Session the client does not have it numbers the event and changes no Session |
| ClientState.StaysAtRest | gui/src/client/state.ts:406-521 | After a completion or an interruption nothing of the Session is shown as running over any later events, until one starts a run or sets a task or an agent running |
| ClientState.TerminalEventsStopTheRun | gui/src/client/state.ts:475-519 | The terminal event itself leaves no run, task or agent running and keeps the Session otherwise |
| ClientState.ReplayStreamsText | gui/src/client/state.ts:415-425 | Over any events every message keeps its place, id and author; its text is the old text followed by exactly the deltas sent to it, its phase what the last delta, completion or interruption of it says |
| ClientState.ReplayCountsMessages | gui/src/client/state.ts:408-415 | Over any events there are two more messages for each acceptance, and no others |
| ClientState.AcceptanceShows | gui/src/client/state.ts:408-415 | An acceptance at any position puts its user and then its assistant message behind all there are, where they stay, streamed to by what comes after |
| ClientState.ReplayKeepsStatus | gui/src/client/state.ts:406-521 | After any events the status is what the last acceptance, completion or interruption says, the cursor the last event's, id and title as before |
| ClientState.ReplayFollows | gui/src/client/state.ts:432-519 | Over events that announce no run, the run, each task and each agent become exactly what the events of that run that name them say, in order |
| ClientState.AcceptedRun | gui/src/client/state.ts:408-415 | The run shown is the one announced last, followed from there on |
| ClientState.FirstUpdateWins | gui/src/client/state.ts:455-458 | Of several updates of one task in one event the first applies |
| ClientState.ReplayKeepsPlaces | gui/src/client/state.ts:533-540 | Documents keep their places over any events; new ones go last |
| ClientState.ReplayKeepsIndex | gui/src/client/state.ts:432-446 | Over any events each task lists exactly the run's activities that name it, in order |
| ClientState.ReplayShowsLatest | gui/src/client/state.ts:533-540 | Over any events a Session shows under each id the last document published, else the one it had, and never two with one id |
| ResyncLatch.RequestsAtFirstChance | gui/src/App.tsx:208-223 | For every sequence of renders, a resynchronization is requested after exactly the first render of each stretch of need at which a client can be asked |
| ResyncLatch.OneRequestPerStretch | gui/src/App.tsx:208-223 | Between two requests some render did not need resynchronization |
| ResyncLatch.ResyncEffect.Rendered | gui/src/App.tsx:209-215 | The effect with its latched ref makes exactly the requests of the specification |
| CommandGate.OneInFlight | gui/src/App.tsx:291-352 | In every run of clicks, renders, replies and remote changes at most one command is in flight, and ref, state and flight agree |
| CommandGate.QuietUntilEvidence | gui/src/App.tsx:255-265 | After an accepted live submit no command is sent until a render has shown the Session at another cursor, or gone, or the connection lost |
| CommandGate.ActsOnTheLastRender | gui/src/App.tsx:262-265 | Until the next render the handlers act on the last one's guards and selection, and before any on closed ones |
| CommandGate.SendsFromAnOpenRender | gui/src/App.tsx:262-265 | In every run a step that sends acts on a last render that was neither synchronizing nor waiting, with the fixture offline or a live connection up, and sends for the Session selected there |
| CommandGate.OpenRenderSends | gui/src/App.tsx:291-341 | After such a render a submit click on a Session that is not running sends, and an interrupt click on a running one |
| CommandGate.RenderDropsTheWait | gui/src/App.tsx:255-261 | A render drops the wait exactly when the connection is not up, the Session is gone or its cursor is another |
| CommandGate.PlaybackNeverWaits | gui/src/App.tsx:312 | With the offline fixture nothing is ever awaited |
| CommandGate.MovedBeforeReply | gui/src/App.tsx:255-265 | If the Session moved before the reply came, the next render drops the wait and the one after opens the gate |
| CommandGate.SecondSubmitNeedsStaleFace | gui/src/App.tsx:291-323 | While a submit is awaited and renders may lag, a submit click sends a second command if and only if no render was committed since the first was sent and the guards read from refs and from that render pass; an interrupt click sends nothing |
| CommandGate.InterruptWaits | gui/src/App.tsx:336-341 | While a submit is awaited an interrupt click never sends, whether renders may lag or not |
| CommandGate.LaggingRenderSendsTwice | gui/src/App.tsx:291-323 | A run in which renders lag behind the reply and two commands are sent |
| CommandGate.Controls.SubmitClicked | gui/src/App.tsx:291-304 | A click on submit sends exactly when the last render's guards and the refs allow it, and latches the ref first |
| CommandGate.Controls.InterruptClicked | gui/src/App.tsx:336-341 | The same for interrupt, on a running Session |
| CommandGate.Controls.Answered | gui/src/App.tsx:305-322 | An accepted live submit starts the wait at the submitted cursor; every outcome releases the ref |
| CommandGate.Controls.CommitRender | gui/src/App.tsx:255-265 | A render closes over the guards as they are then, and its effect drops a wait whose Session moved, went or lost its connection |
| NativeLive.ScanIffInOrder | gui/src/client/nativeLiveClient.ts:346-368 | A member's events pass if and only if its content cursors and its execution revisions each run on without gap, repeat or swap |
| NativeLive.ScanEffect | gui/src/client/nativeLiveClient.ts:346-368 | After events that pass both counters have moved by exactly their number |
| NativeLive.WatermarkIff | gui/src/client/nativeLiveClient.ts:377-388 | A snapshot passes if and only if each of its Sessions is behind neither the one in its place before nor the last mark of its id, in cursor and in revision, repeated ids included |
| NativeLive.WatermarkAt | gui/src/client/nativeLiveClient.ts:377-388 | In a snapshot that passes no Session is behind the one in its place before nor behind the events of its id, in cursor and in revision |
| NativeLive.AcceptedIff | gui/src/client/nativeLiveClient.ts:317-390 | A round is accepted if and only if it is well formed, of the same epoch, instance and space, numbered next, its members match place by place, the events of each Session run on in order, its snapshot is valid, and each Session is behind neither the one on screen, nor an earlier one of its id, nor its events |
| NativeLive.ForeignRoundsAreRefused | gui/src/client/nativeLiveClient.ts:330-332 | Over any runs, rounds of another epoch, instance or space change nothing |
| NativeLive.OpeningIff | gui/src/client/nativeLiveClient.ts:254-315 | Exactly which openings are shown; any other changes nothing |
| NativeLive.AcceptedRound | gui/src/client/nativeLiveClient.ts:317-390 | In any reachable state an accepted round never moves a cursor back; the events of a Session, of all members that have it in member order, run on from its marks and its new cursor and revision cover them; the marks are the cursor and revision on screen |
| NativeLive.InvAlways | gui/src/client/nativeLiveClient.ts:79-121 | In every run the remembered cursors and revisions are those of the snapshot on screen and the sequence number is the count of rounds since it opened |
| NativeLive.NeverGoesBack | gui/src/client/nativeLiveClient.ts:99-121 | Over any rounds, accepted or refused, no cursor on screen goes back until a new snapshot opens |
| NativeLive.RevisionsNeverGoBack | gui/src/client/nativeLiveClient.ts:99-121 | Over any rounds the revision of a Session on screen, the last member's of its id, never goes back |
| NativeLive.EarlierMemberGoesBack | gui/src/client/nativeLiveClient.ts:377-388 | An opening and a round after which the revision of an earlier member of the same Session is lower |
| NativeLive.LostRoundIsFinal | gui/src/client/nativeLiveClient.ts:333-334 | Rounds numbered otherwise than the very next one are refused and change nothing until a snapshot opens |
| NativeLive.AfterALostRound | gui/src/client/nativeLiveClient.ts:333-334 | When rounds are numbered one after the other and one never arrives, all later ones change nothing |
| NativeLive.NativeLiveClient.AcceptInitial | gui/src/client/nativeLiveClient.ts:79-97 | A valid snapshot replaces everything and restarts the numbering, settles the promise of a first snapshot once or is pushed after that; an invalid one changes nothing |
| NativeLive.NativeLiveClient.Snapshot | gui/src/client/nativeLiveClient.ts:165-187 | The first snapshot handed out is the one accepted last, and from then on the one handed out last always is |
| NativeLive.NativeLiveClient.AcceptRound | gui/src/client/nativeLiveClient.ts:99-121 | A round is taken as a whole or not at all; a refused one asks for resynchronization |
| NativeLive.NativeLiveClient.ScanRound | gui/src/client/nativeLiveClient.ts:339-370 | The two nested loops over members and events compute the specified scan |
| NativeLive.NativeLiveClient.CheckWatermark | gui/src/client/nativeLiveClient.ts:377-388 | The loop over the new Sessions computes the specified comparison |
| Decimals.CounterPatternIsCanonical | gui/contracts/verify.ts:44-46 | On every string, the counter and the positive pattern accept exactly what `BigInt` reads as a natural or positive number that prints as the same string |
| Decimals.PrintInjective | gui/contracts/projection.ts:11-14 | Different numbers print differently, so accepted strings and numbers are in bijection |
| Decimals.BigIntOfPrint | gui/contracts/projection.ts:11-14 | Reading a printed number gives it back |
| Decimals.SignedDigits | gui/src/client/state.ts:373-374 | Any run of digits, signed or not, reads as its number; a sign alone or before a prefix does not read |
| Decimals.WhiteSpaceAround | gui/src/client/state.ts:373-374 | White space on either side does not count |
| Decimals.Prefixed | gui/src/client/state.ts:373-374 | Behind a prefix the digits are weighed by the radix it announces |
| Decimals.PrefixedDigits | gui/src/client/state.ts:373-374 | What such digits are worth, letters of either case included, and which do not read |
| Decimals.NoOtherPrefix | gui/src/client/state.ts:373-374 | Only a nought can begin a prefix |
| Decimals.Successor | gui/src/client/nativeLiveClient.ts:573-583 | The in-place carry over decimal digits refuses exactly the non-counters and otherwise gives the text of the next number |
| Decimals.CompareDecimalIsNumeric | gui/src/client/nativeLiveClient.ts:584-588 | Comparing counters by length and then as text is comparing the numbers |
| Composer.ConcatChunks | examples/tui/29_composer_bottom_frame.py:521-522 | The chunks of a text, in order, are the text |
| Composer.ChunksAreFull | examples/tui/29_composer_bottom_frame.py:521-522 | All chunks but the last are full, so their number is the least that reaches the length |
| Composer.SumConstant | examples/tui/29_composer_bottom_frame.py:525-528 | Equal delays add up to their number times the delay |
| Composer.ComposerDemo.Start | examples/tui/29_composer_bottom_frame.py:282-291 | Starting a prompt appends prompt and running tool, points the index at that tool and clears draft and interruption |
| Composer.ComposerDemo.Resume | examples/tui/29_composer_bottom_frame.py:326-375 | What the coroutine does between two awaits, with the tool record overwritten in place |
| Composer.ComposerDemo.AbortRun | examples/tui/29_composer_bottom_frame.py:309-324 | Aborting commits the draft, if any, closes the run and clears the index |
| Composer.ComposerDemo.ApplySteers | examples/tui/29_composer_bottom_frame.py:369-375 | All pending steers become records in order and none is left |
| Composer.ComposerDemo.StartNextFollowup | examples/tui/29_composer_bottom_frame.py:296-299 | The oldest follow-up starts, and only when idle |
| Composer.ComposerDemo.PopLastQueued | examples/tui/29_composer_bottom_frame.py:304-307 | The newest follow-up is taken back, or nothing |
| Composer.ComposerDemo.QueueFollowup | examples/tui/29_composer_bottom_frame.py:293-294 | A follow-up joins the end of its queue and nothing else changes |
| Composer.ComposerDemo.QueueSteer | examples/tui/29_composer_bottom_frame.py:301-302 | A steer joins the end of its queue and nothing else changes |
| ComposerRuns.InvAlways | examples/tui/29_composer_bottom_frame.py:282-375 | In every interleaving the transcript is the seeded records, one block per run that is over and the run that is on |
| ComposerRuns.DraftIsPrefix | examples/tui/29_composer_bottom_frame.py:347-361 | During a run the draft is the chunks sent so far, a prefix of the response, and the index points at this run's tool record right after its prompt |
| ComposerRuns.EveryBlock | examples/tui/29_composer_bottom_frame.py:326-345 | The transcript holds each ended run's records in one piece, spelled out; a finished run committed exactly the response as a stable message and slept exactly its planned duration, once more than it has pieces of 42 characters; an aborted one committed a prefix, or nothing before its first chunk |
| ComposerRuns.QueuesConserved | examples/tui/29_composer_bottom_frame.py:293-307 | Steers applied and steers pending are the steers queued, in order; follow-ups started and pending are those queued and not taken back |
| ComposerRuns.FinishingAndStarting | examples/tui/29_composer_bottom_frame.py:309-345 | Completing a run leaves no steer pending, aborting it leaves exactly those pending before; a follow-up starts from idle only, and does when a finished run is drained and one is queued |
| ComposerRuns.TimesAlways | examples/tui/29_composer_bottom_frame.py:199-202 | In every run a divider shows the time from its run's start to its end and a tool record that to its completion, the clock and plan are those of the run that is on, and a message of interruption stands from an abort to the next start |
| ComposerRuns.RunsToItsEnd | examples/tui/29_composer_bottom_frame.py:326-345 | Left alone, a run ends after as many resumptions as it has chunks and two more, idle and with its completed block in the transcript |
| Transcript.CacheNeverShows | examples/tui/29_composer_bottom_frame.py:411-443 | After any sequence of frames with any records, drafts and widths, the rows rendered through the cache are the uncached rows |
| Transcript.CacheRemembers | examples/tui/29_composer_bottom_frame.py:428-447 | Every committed record of every frame so far is in the cache at its width, and no streaming draft |
| Transcript.LastOfLast | examples/tui/29_composer_bottom_frame.py:384-393 | The last a rows and then the last b are the last min(a, b), if and only if b is positive or nothing is cut |
| Transcript.TranscriptView.RenderRecord | examples/tui/29_composer_bottom_frame.py:428-443 | Rendering a record through the cache gives its layout; a draft is never stored, anything else is |
| Transcript.TranscriptView.RenderTranscript | examples/tui/29_composer_bottom_frame.py:411-425 | The loop gives the end of all layouts with a blank row between neighbours, as much of it as the height takes |
| Transcript.TranscriptView.RenderRegion | examples/tui/29_composer_bottom_frame.py:384-393 | The region shows the end of the uncached transcript, as many rows as the smaller of 1,000,000 and the height takes |
| SessionHistory.CappedRefinesFull | gui/src/useSessionHistory.ts:5-13 | Over every run of selections and navigations the list is an aligned suffix of the unlimited one, has at most 100 entries, an index in range and no equal neighbours |
| SessionHistory.WithinTheLimit | gui/src/useSessionHistory.ts:10 | In every run that shows at most 100 selections the list is the unlimited one |
| SessionHistory.DroppedAtTheLimit | gui/src/useSessionHistory.ts:10 | An entry is dropped only from a list of 100 by one more selection, and one at a time |
| SessionHistory.SameTargets | gui/src/useSessionHistory.ts:14-20 | A target found is the one the unlimited history finds; the limit can only disable going back past what was dropped |
| SessionHistory.TargetIsNearest | gui/src/useSessionHistory.ts:14-20 | Back and forward land on the nearest available entry of their side and are disabled exactly when there is none |
| SessionHistory.BackThenForward | gui/src/useSessionHistory.ts:21-27 | The selection echo cuts nothing off, and back then forward returns to the start if and only if its Session is available |
| SessionHistory.FindTarget | gui/src/useSessionHistory.ts:14-20 | The scanning loop finds the specified target |
| CursorReport.SearchIsLeftmost | examples/tui/36_width_probe.py:46 | The search returns the leftmost match and none exactly when there is none |
| CursorReport.MatchIsFramed | examples/tui/36_width_probe.py:46 | A match is ESC, bracket, digits, semicolon, digits, R, with the numbers those digits name |
| CursorReport.FramedMatches | examples/tui/36_width_probe.py:46 | Every such text matches wherever it stands, whatever surrounds it |
| CursorReport.OneEscape | examples/tui/36_width_probe.py:46 | A match holds no second ESC, so two matches never overlap |
| CursorReport.FoundIsFinal | examples/tui/36_width_probe.py:205-208 | Whatever more bytes arrive, a match once found stays the first |
| CursorReport.QueryCursorPosition | examples/tui/36_width_probe.py:193-209 | The reader, searching after each chunk, answers what one search over the whole stream answers |
| CursorReport.QueryBothCuts | examples/tui/36_width_probe.py:193-209 | The reader run on any two cuts of the same bytes answers alike, with the first report in all of them |
| CursorReport.ReportRoundTrip | examples/tui/36_width_probe.py:205-208 | A report of any position is read back as that position, behind any noise without ESC |
| OrderSheet.SheetAlways | examples/tui/58_widgets_datagrid.py:201-227 | Over every sequence of edits, selections and deletions keys stay unique, the total row stays the only last one, a line remains, and every line and the total are up to date |
| OrderSheet.EditEffect | examples/tui/58_widgets_datagrid.py:201-208 | A committed edit changes the edited line as the catalog or the entry says and no other line; its total is its quantity times its price and the total cell moves by the difference; a quantity in the last line opens a blank line exactly when that line has a code |
| OrderSheet.DeleteEffect | examples/tui/58_widgets_datagrid.py:210-227 | Deleting removes the active line and no other and its total from the total cell, leaves a blank line one when it was the last, and moves the cursor to the line in its place or the last one |
| OrderSheet.EditKeepsSheet | examples/tui/58_widgets_datagrid.py:382-427 | One edit keeps the sheet invariant |
| OrderSheet.DeleteKeepsSheet | examples/tui/58_widgets_datagrid.py:210-227 | One deletion keeps the sheet invariant |
| OrderSheet.AppendedNumber | examples/tui/58_widgets_datagrid.py:410-413 | The new line's number is the least unused one and at most one more than the rows |
| OrderSheet.UsedBounded | examples/tui/58_widgets_datagrid.py:412-413 | Pigeonhole: the first n numbers are all in use only if there are n rows, so the counting loop ends |
| OrderSheet.InitialSheet | examples/tui/58_widgets_datagrid.py:305-309 | The rows the example starts with satisfy the sheet invariant |
| OrderSheet.OrderEntry.RefreshTotal | examples/tui/58_widgets_datagrid.py:382-395 | The loop brings every line cell and the total cell up to date in place and touches nothing else |
| OrderSheet.OrderEntry.AppendLine | examples/tui/58_widgets_datagrid.py:410-420 | A blank line with the least free key goes in front of the total and becomes active |
| OrderSheet.OrderEntry.ApplyEdit | examples/tui/58_widgets_datagrid.py:201-208 | The in-place edit does what the specification of one edit says |
| OrderSheet.OrderEntry.DeleteActiveRow | examples/tui/58_widgets_datagrid.py:210-227 | The in-place deletion does what the specification says and answers whether a line was deleted |
| ScenarioRunner.StepsGood | scenarios/coding/control_flow_session.py:148-257 | After every step sequence, in both modes, every counter and list agrees with the log, prompts are completions plus interruptions plus the open run, tools balance, and cancellations are none or 20 per interruption |
| ScenarioRunner.StepGood | scenarios/coding/control_flow_session.py:148-167 | One step of any kind keeps the books |
| ScenarioRunner.StepTraces | scenarios/coding/control_flow_session.py:148-257 | Whatever the step and the state: what it logs, event by event, exactly when it fails, and what it then complains of |
| ScenarioRunner.ListsAreLogged | scenarios/coding/control_flow_session.py:170-234 | After every step sequence the assistant's texts, the steers and the follow-ups are those logged, in order, and an open run is the one prompted last |
| ScenarioRunner.CountersByName | scenarios/coding/control_flow_session.py:253-256 | An expectation of a counter holds exactly when it gives the number of logged events of that counter's kind |
| ScenarioRunner.TextsAreFound | scenarios/coding/control_flow_session.py:247-250 | An expected text is found exactly when it is part of the assistant's texts, joined; every text it ended with is |
| ScenarioRunner.BugShows | scenarios/coding/control_flow_session.py:208-222 | The scenarios' expectation of no cancelled request holds after any steps if and only if the bug replay is off or nothing was interrupted |
| ScenarioRunner.FailedStepIsInert | scenarios/coding/control_flow_session.py:170-257 | A step that fails changes no counter, no list and no active run |
| ScenarioRunner.CancelTimesEffect | scenarios/coding/control_flow_session.py:213-217 | n repeated cancellations add n to the counter, the errors and the log and change nothing else |
| ScenarioRunner.StoppedEarly | scenarios/coding/control_flow_session.py:268-272 | After a failure no further step changes the outcome unless asked to keep going |
| ScenarioRunner.RunScenario | scenarios/coding/control_flow_session.py:260-289 | A case passes exactly when no step failed and no run is open; then every prompt was completed or interrupted |
| ScenarioRunner.ScenarioState.OnAbort | scenarios/coding/control_flow_session.py:208-222 | Aborting counts and logs the interruption, cancels twenty times in the bug replay and clears the run |
| ScenarioRunner.ScenarioState.Take | scenarios/coding/control_flow_session.py:148-167 | A step is dispatched on the first key present in the runner's order |
| Paging.FootersTile | examples/tui/60_widgets_datagrid_large_dataset.py:386-392 | The footer ranges of pages 1 to the last cut rows 1..n without gap or overlap, and page p shows exactly the rows whose page is p |
| Paging.FooterOfNone | examples/tui/60_widgets_datagrid_large_dataset.py:386-392 | With no rows in view the footer shows none, on page 1 of 1 |
| Paging.PageInRange | examples/tui/60_widgets_datagrid_large_dataset.py:431-436 | The current page lies in 1..total for every row count, page size and active row |
| Paging.GoToMakesCurrent | examples/tui/60_widgets_datagrid_large_dataset.py:277-283 | Going to a page makes it current if and only if it is not a single-row page, other than the last, whose row is active already; then the next page becomes current |
| Paging.JumpLands | examples/tui/60_widgets_datagrid_large_dataset.py:268-283 | A jump that moves lands on the first row of the page it names |
| Paging.GoToMissesPage | examples/tui/60_widgets_datagrid_large_dataset.py:277-283 | A grid in which going to the current page makes the next one current |
| Paging.JumpNotUndone | examples/tui/60_widgets_datagrid_large_dataset.py:268-275 | A jump cut short that the opposite one does not undo |
| Paging.JumpUndone | examples/tui/60_widgets_datagrid_large_dataset.py:268-275 | A jump that moved is undone by the opposite one if and only if it was not cut short or ran from end to end |
| Paging.LargeDataGrid.GoToPage | examples/tui/60_widgets_datagrid_large_dataset.py:277-283 | The search loop ends on the specified row |
| Paging.LargeDataGrid.JumpPages | examples/tui/60_widgets_datagrid_large_dataset.py:268-275 | A jump makes the clamped page current and answers whether it moved; one that did not changes nothing |
| Paging.LargeDataGrid.ApplyFilters | examples/tui/60_widgets_datagrid_large_dataset.py:233-257 | After both filter changes the page is in range, and an active row that stayed in view stays active |
| Paging.LargeDataGrid.Resize | examples/tui/60_widgets_datagrid_large_dataset.py:83-88 | Drawing at a positive height makes the page the rows left for the grid less its header, at least one |
| Paging.LargeDataGrid.ActivateRow | src/loushang/tui/ui_parts/widgets/data_grid.py:995-1010 | A row in view becomes active, and the answer is whether that changed anything |
| Columns.ColumnGrid.MoveVisible | examples/tui/59_widgets_datagrid_adapters.py:215-233 | The column moves by delta among the visible ones, stopping at the edges; hidden columns keep their order and no column is lost |
| Columns.VisibleRelocated | src/loushang/tui/ui_parts/widgets/data_grid.py:1456-1493 | Carrying a visible column past hidden ones is one relocation on screen and leaves the hidden order alone |
| Columns.MovedIsRelocated | src/loushang/tui/ui_parts/widgets/data_grid.py:1456-1493 | Moving before an earlier column or after a later one takes that column's place |
| Columns.AdjacentSwap | examples/tui/59_widgets_datagrid_adapters.py:221-231 | A move by one place is exactly one swap of neighbours |
| Columns.VisibleMoveUndone | examples/tui/59_widgets_datagrid_adapters.py:215-233 | A move by any delta is undone on screen by the opposite one if and only if it was not cut short or ran from edge to edge |
| Columns.ColumnGrid.MoveThereAndBack | examples/tui/59_widgets_datagrid_adapters.py:215-233 | Two moves of the grid, by delta and back, restore what was on screen if and only if the first was not cut short or ran from edge to edge |
| Columns.ColumnGrid.MoveAmongAll | examples/tui/61_widgets_datagrid_column_chooser.py:167-181 | One step among all columns is a swap with that neighbour, or false at the edge |
| Columns.StepUndone | examples/tui/61_widgets_datagrid_column_chooser.py:167-181 | A step that moved is undone on the full order by the opposite step |
| Columns.StepsToFront | examples/tui/61_widgets_datagrid_column_chooser.py:167-181 | n steps up put the column n places earlier; it is in front after exactly as many steps as its position, and no sooner |
| WeeklyLedger.WeekStartRounds | examples/coding/23_kimi_weekly_usage_ledger.py:123-127 | The week start is the time less the time modulo one week from Monday, within a week before it, and its own week start |
| WeeklyLedger.CountdownNeverOvershoots | examples/coding/23_kimi_weekly_usage_ledger.py:130-132 | The countdown lies in 0..168, is 168 only at the week start, and ends at the next Monday or less than an hour before |
| WeeklyLedger.SameWeek | examples/coding/23_kimi_weekly_usage_ledger.py:177-178 | Two times count into one week if and only if their offsets are equal and their wall clocks show the same week |
| WeeklyLedger.CountsInto | examples/coding/23_kimi_weekly_usage_ledger.py:168-178 | Which week a record counts into: its time's, at UTC if its stamp names no offset, none if it cannot be read |
| WeeklyLedger.OtherOffsetNeverCounts | examples/coding/23_kimi_weekly_usage_ledger.py:177-178 | A record whose instant lies inside the week counted and which does not count |
| WeeklyLedger.WeeksPartition | examples/coding/23_kimi_weekly_usage_ledger.py:161-181 | Over distinct weeks with a place for every readable record, at any mix of offsets, the weekly totals add up to the grand total |
| WeeklyLedger.WeekBucketTotal | examples/coding/23_kimi_weekly_usage_ledger.py:161-181 | The accumulating loop computes the total of one week |
| Discovery.UndeclaredIff | scripts/generate_harness_capability_catalog.py:575-606 | Comparing the calls walked with the values declared leaves none over if and only if every call in the module is the whole value of a top-level assignment, nested in nothing |
| Discovery.ConstructsIff | scripts/generate_harness_capability_catalog.py:566-573 | A call constructs a definition if and only if it calls the class by its own name or one a module-level import gives it |
| Discovery.ProperIff | scripts/generate_harness_capability_catalog.py:581-594 | What each kind of statement may hold of constructions |
| Discovery.RefsIff | scripts/generate_harness_capability_catalog.py:596-600 | The references of a statement are its plain-name targets, annotated or not |
| Discovery.MentionsIff | scripts/generate_harness_capability_catalog.py:648-651 | A symbol is mentioned if and only if some node of the tree is that name |
| Discovery.CallsWithIff | scripts/generate_harness_capability_catalog.py:516-521 | A callee is called with a symbol if and only if some call node of the tree does it |
| Discovery.AssignedCallRefs | scripts/generate_harness_capability_catalog.py:581-600 | In a module that passes every call is one statement's value, and gives a reference if and only if a target of that statement is a plain name |
| Discovery.SilentDeclaration | scripts/generate_harness_capability_catalog.py:596-600 | A module that passes and whose one definition gives no reference |
| Discovery.ReferredIff | scripts/generate_harness_capability_catalog.py:581-600 | A constructed definition is the one some reference refers to if and only if a plain-name target of its statement is bound by no later assignment |
| Discovery.DeclaredTwice | scripts/generate_harness_capability_catalog.py:596-600 | A module that passes with two definitions and one reference, to the second |
| Discovery.DiscoverFile | scripts/generate_harness_capability_catalog.py:563-606 | The walk over one module and the loop over its statements find its references, or refuse it when a call is not declared |
| Discovery.DiscoverDefinitionRefs | scripts/generate_harness_capability_catalog.py:561-607 | Discovery succeeds if and only if in every module each definition constructed is the whole value of a top-level assignment, and finds the plain names among their targets, in whatever order the files come |
| Catalog.LoadCatalog | scripts/generate_harness_capability_catalog.py:371-408 | From the source tree: loading succeeds if and only if every definition constructed is the whole value of a module-level assignment and the seams are loadable against the references found |
| Catalog.LoadCatalogEntries | scripts/generate_harness_capability_catalog.py:373-408 | Loading succeeds if and only if the seams cover exactly the references found, each resolves to a definition, its providers, consumers and mounts hold, and no contract repeats; the entries are strictly sorted, one a seam |
| Catalog.SoundIff | scripts/generate_harness_capability_catalog.py:499-558 | All that a seam needs, in terms of what its references import and what is in their modules |
| Catalog.PartsIff | scripts/generate_harness_capability_catalog.py:610-614 | A reference splits at its first colon, with something on either side |
| Catalog.InOrder | scripts/generate_harness_capability_catalog.py:400-408 | Of two entries the earlier has the smaller version of one capability, or the capability smaller at the first difference |
| Catalog.EveryDefinitionOnce | scripts/generate_harness_capability_catalog.py:371-379 | Entries and discovered definitions correspond one to one |
| Catalog.OrderIndependent | scripts/generate_harness_capability_catalog.py:371-408 | Reordering the declared seams succeeds or fails alike and gives the same list |
| Catalog.SortedOnce | scripts/generate_harness_capability_catalog.py:400-408 | A strictly sorted list of entries is settled by its contents |

## Left out

- Local GUI state: drafts, unread marks, docks, selected tasks and documents, scroll positions, notices.
- NativeLive.NativeLiveClient.AcceptInitial: identifiers, text lengths, enumerations, member positions, observations and execution states are one flag a value carries, not checked field by field.
- GoingBack.AnswerGoesBack: between the two bounds, which buffered events of the Session apply depends on the whole buffer, and has no shorter description than its replay.
- Projection of a native snapshot into messages and status, and the time-out of the first one.
- LossyRuns.AgreementOverEveryRun: services are assumed to publish a contiguous log per generation and to answer with views of it, which is proved of the offline client only.
- CommandGate.QuietUntilEvidence: takes from React that the updates of a click are committed before the reply to it is handled; without that, the exact condition is stated instead.
- SessionHistory.CappedRefinesFull: navigation acts on the history of the latest render.
- Composer.ComposerDemo.Resume: the response text and the clock are parameters, tasks are step order, and durations are reals without rounding.
- Composer.ComposerDemo.Start: is not called while a run is on, as at each of its call sites.
- Routing of input events, key bindings, the `/steer ` prefix and the exit command.
- Transcript.TranscriptView.RenderRecord: the layout of one record is any function of record and width; fitting lines to the width is not modelled.
- CursorReport.QueryCursorPosition: chunks that arrive in time are the input; the deadline and the terminal mode are not modelled, nor Python's limit of 4300 digits when converting text to a number.
- OrderSheet.OrderEntry.ApplyEdit: prices are reals, `str.upper` is a parameter, and the inline editor that parses a quantity is not modelled; an edit arrives parsed.
- OrderSheet.OrderEntry.DeleteActiveRow: of the grid's cursor only the row is kept.
- ScenarioRunner.ScenarioState.Take: expectations compare numbers or text; those on other attributes, trace output and the command line are not modelled.
- Paging.LargeDataGrid.ApplyFilters: which rows a filter keeps is a parameter; sorting is not modelled, and the page count is exact where the code divides as floating point.
- Columns.ColumnGrid.MoveVisible: takes the column as a parameter where the code always moves the price column; widths and formatters stay with the column.
- WeeklyLedger.WeekBucketTotal: records arrive with their stamps parsed and their counts as integers; file access is not modelled, nor the end of the calendar in year 9999.
- Catalog.LoadCatalogEntries: what importing a symbol yields is a parameter; rendering the table is not modelled.
- Discovery.ReferredIff: names are bound by module-level assignments to plain names; rebinding by patterns, imports, functions, classes and nested statements is not modelled.
- Discovery.DiscoverDefinitionRefs: files arrive parsed, as trees of names, attributes, calls and other nodes; the line numbers in the message of a refusal are not modelled.
- Catalog.OrderIndependent: which of several failures is reported first does depend on the order.
- DataGrid rendering, selection, pinned rows and inline editing; React rendering; file, network and subprocess examples.
