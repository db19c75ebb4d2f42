# Crewquarters: a verified model of its hard parts

Crewquarters runs agents for one owner. A web client follows each run live, agents review pull
requests, search documents and place calls, and release scripts inspect what ships. This project
models the parts of it with the most state, branching or arithmetic, and proves what they are for.
Every property below is stated for all inputs, all traces or all runs; there is no bound and no fuel.
`dafny verify dfyconfig.toml` checks everything. Every lemma carries `{:induction false}`, so each
proof is exactly the one that is written down.

- `RunLog`, `StreamClient`, `StreamProtocol`, `Timeline`: the run event log, its history and stream
  routes, the stream client with Last-Event-ID reconnects and fallback polling, and the cached
  timeline under many subscriptions
- `EventStream`, `EventBlocks`, `EventCuts`, `EventPieces`, `EventStandard`: the event-stream parser and
  the server's printer, what one cut or any list of chunks does to the events, and the parser against
  the HTML standard
- `ZipStore`: the stored zip writer of the diagnostics bundle, with a reader
- `Batching`, `Findings`, `DiffLines`: the pull-request reviewer, which packs files into prompts,
  chooses findings and numbers diff lines
- `Retrieval`, `PromptFill`: document search, what is retained over many rounds and how the prompt
  budget is shared
- `Closure`: the dependency closure of the license inventory
- `Notifications`: notifications for pending requests, over any number of tabs
- `Contacts`: who a calling campaign calls
- `ImageLayers`: the setuid and setgid files of a container image
- `Voicemail`: telling a recording from a person on the phone
- `Sorting`, `Options`: a stable sort as the library sorts promise it, and an option type

## How the model is built

Objects that the code updates in place are classes (`Subscription`, `RunRecord`,
`EventStreamResponse`, `Retrieved`, `InputRequestNotifier`, `VoicemailDetector`); buffers are arrays;
loops are loops with invariants. Each such method is proved equal to a function on values, and the
theorems are about those functions, so they speak about what the methods do. Concurrency is a state
machine whose steps may interleave in any order: server appends, flushes, drops, refusals, polls that
arrive late, reloads, tabs that open, messages that overtake one another.

Each main result compares the code with something defined without it: a slice of the log, the
event-stream reading of the HTML standard, a zip reader, the best of all possible splits,
reachability along paths, the last word of a layer on a path, the measured quiet time of a call.
Small functions that code and specification would otherwise share are pinned on their own: printed
numbers are read back from the text, names are normalised a second time as a pattern substitution,
ranks are spelled out in categories and severities, header fields by offset and value.

## Where the code does not keep a promise, and exactly when it does

- A subscription's items are a contiguous run of the log unless the log is gappy: it holds an event of
  a type the client does not listen to before one it does, and the last id moves past the unheard
  event. The condition is exact (`ContiguousExactlyWhenNotGappy`). It cannot arise today: the client
  listens to every type that the run-event contract allows, and a log of those types is never gappy
  (`ContractRunIsContiguous`). No caller passes an end test either, so no item ends a stream.
- Over a log that is not gappy, a run keeps the cached timeline a log prefix throughout if and only if
  every subscription that hands over items stands, at that moment, within the timeline as it then is
  (`TimelineIsLogPrefix`). Only a reload can break this. Invalidating the key of a run also reloads its
  events, because one key is a prefix of the other, so an older answer can land late; if the next step
  hands over items, it leaves a hole if and only if the answer does not reach the cursor
  (`ReloadMustCoverExactly`, and a run in `StaleReloadLeavesHole`). A short reload that another one
  follows in time does no harm (`LaterReloadHeals`). Reloads that reach every active cursor always fit
  (`CoveringReloadsFit`), and with those the timeline is a log prefix in all runs if and only if the log
  is not gappy (`TimelineExactlyWhenNotGappy`).
- Line endings are normalised chunk by chunk, so a cut between `\r` and `\n` inserts a blank line. Any
  number of chunks normalise like the whole text if and only if no cut does this (`CutsAreExact`).
  Beside chunks that stay as they are, one cut changes the events if and only if the line it inserts
  matters: it leaves them alone when only one of the blocks it parts holds data and the other takes no
  event name or id away (`CutMattersExactly`). A whole list of chunks yields the events of its text if
  and only if, of the pieces that all its cuts part each block into, at most one holds data and that one
  has the event name and id of the block (`CutsMatterExactly`). Otherwise one event can arrive as two
  (`SplitCrlfBreaksAnEvent`).
- The reader does not follow section 9.2.6 of the WHATWG HTML standard to the letter. It yields an
  unterminated last block, gives an event no earlier id, keeps an empty event name, accepts an id that
  holds NUL, and reads a CRLF pair that a cut splits as a blank line; an input for each is given
  (`UnterminatedDiffers`, `EarlierIdDiffers`, `EmptyNameDiffers`, `NulIdDiffers`, `SplitPairDiffers`).
  Chunks that split no pair are reported as the standard prescribes for their text if and only if every
  block with data names no empty event and has a NUL-free id of its own or none in force, and no data
  stands behind the last blank line (`AgreesWithStandardExactly`). For chunks of any kind the condition
  is on the pieces of each block: at most one holds data, and its event name and id are those the
  standard gives the whole block (`ReaderAgreesExactly`).
- Kept plus dropped findings equal the proposed ones if and only if the limit is not negative, since a
  negative Python slice cuts from the end (`SelectFindings`). The configuration bounds the limit below
  by 1, so the only caller there is cannot pass such a limit.
- The OCI image specification lets whiteouts hide lower layers only. On one layer the replay agrees with
  it if and only if no privileged file the layer puts is hidden by a later whiteout of its own
  (`LayerAgreesExactly`). On an image it agrees if and only if, for every path, the topmost layer that
  puts or hides it has no such clash there (`ImageAgreesExactly`). Layers that list their whiteouts
  first always agree.
- Rows of a patch are cut with `splitlines`, which ends lines at more than newlines and drops an empty
  last row. The rows come back if and only if none holds such a character and the last is not empty
  (`RowsComeBackExactly`). An added line that holds one, a form feed for instance, counts as two, and
  the number printed in front of the next line is then not that line's (`OtherLineEndShiftsNumbers`).
- A hunk that starts at line 0 shows its header only (`ZeroStartHidesBody`).
- The voicemail documentation says that once the far end has spoken the detector is disarmed for good.
  An answer arms it again, whatever came before (`AnswerArms`). That is the order of an ordinary call: the
  session attaches the far end's callbacks before it starts, waits for the callee's hello, greets, and
  only then reports the answer (agents/voice_caller/src/voice_caller/session.py:340-347 and 428), so the
  hello is forgotten and a callee who then listens is taken for a voicemail
  (`HelloBeforeAnswerIsForgotten`). Once disarmed, the detector stays silent if and only if no answer
  follows (`DisarmLastsExactly`); after any trace it is silent for good, short of another answer, if and
  only if the call is not answered or the far end has spoken and stopped since the last answer
  (`SilentForGoodExactly`).
- The documentation of `plain_name` rules out trailing separators; the code accepts `Ann-`
  (`TrailingHyphenIsAccepted`). It allows letters with their combining marks and one-letter initials,
  which is read here as: a mark stands behind a letter or another mark, and an initial is a letter with
  any marks of its own. An accepted name is documented if and only if it does not end in a hyphen or an
  apostrophe and has no mark behind a separator; a documented name is accepted if and only if no initial
  inside it carries a mark (`DocumentedExactly`, and `MarkedInitialIsRejected` for the latter).

## Model

| member | source | states |
|---|---|---|
| `RunLog.RunRecord.AppendEvent` | apps/web/mock/state.ts:517-533 | the event gets the number after the last one, joins the end, and the log stays numbered 1, 2, 3, … |
| `RunLog.RunRecord.SetRunState` | apps/web/mock/state.ts:535-545 | a real change is recorded as one event and the log still tells the current state; no change records nothing |
| `RunLog.HistoryIsSlice` | apps/web/mock/server.ts:648-653 | the history route serves exactly the next `limit` events after the cursor |
| `RunLog.UnsentIsSuffix` | apps/web/mock/server.ts:678-685 | what a flush writes past its moving cursor is exactly the rest of the log, and the cursor ends at its end |
| `RunLog.EventStreamResponse.constructor` | apps/web/mock/server.ts:655-665 | the cursor is the number in the last event id, else in the query; text that is no number, or neither, starts at 0 |
| `RunLog.EventStreamResponse.Flush` | apps/web/mock/server.ts:678-690 | an open stream writes exactly the unsent events and, for a terminal run, one end marker, after which it is closed and writes nothing |
| `StreamClient.Subscription.constructor` | apps/web/src/api/sse.ts:49-64 | a new subscription has opened one source at its initial cursor |
| `StreamClient.Subscription.DeliverItem` | apps/web/src/api/sse.ts:71-84 | an item passes once and only past the cursor, which moves to it; an end item finishes the stream |
| `StreamClient.Subscription.FinishWith` | apps/web/src/api/sse.ts:86-95 | the source and the timer are given up, once |
| `StreamClient.Subscription.HandleEvent` | apps/web/src/api/sse.ts:97-103 | a live message resets the errors and is delivered unless closed |
| `StreamClient.Subscription.SourceFailed` | apps/web/src/api/sse.ts:117-129 | a refused source or too many errors switch to polling, fewer leave the browser to reconnect |
| `StreamClient.Subscription.StartTick` | apps/web/src/api/sse.ts:133-138 | a tick asks for the events past the present cursor unless closed |
| `StreamClient.Subscription.DeliverItems` | apps/web/src/api/sse.ts:139-141 | the loop hands items over in order and stops at the first that is refused or ends the stream |
| `StreamClient.Subscription.ResumeTick` | apps/web/src/api/sse.ts:138-157 | what a poll's answer, late or lost, does to every field |
| `StreamClient.Subscription.ScheduleNext` | apps/web/src/api/sse.ts:148-157 | after a bounded number of polls the stream is tried again, else one timer is set |
| `StreamProtocol.StepOk` | apps/web/src/api/sse.ts:71-161 | every step of the stream protocol keeps its invariant: order, progress, bounded polls, a wire in log order, an honest last id |
| `StreamProtocol.RunOk` | apps/web/src/api/sse.ts:71-161 | the invariant holds after every interleaving of server and client steps |
| `StreamProtocol.EveryRunIsContiguous` | apps/web/src/api/sse.ts:71-161 | in every run the items handed over are exactly the log from the initial cursor to the present one: no gap, repeat or reorder, unless the log is gappy |
| `StreamProtocol.ContiguousExactlyWhenNotGappy` | apps/web/src/api/sse.ts:97-115 | for a log without end items, all runs stay contiguous if and only if no unheard event precedes a heard one |
| `StreamProtocol.ContractRunIsContiguous` | apps/web/src/api/streams.ts:13-25 | a client that listens to the types of the run-event contract gets a contiguous run of every log of those types, in every run |
| `StreamProtocol.ServerStaysInContract` | apps/web/mock/state.ts:535-545 | a state change is logged as `run.state_changed` with its target, so the log stays within the contract |
| `StreamProtocol.ResumeIsStartCursor` | apps/web/mock/server.ts:655-665 | the server starts a stream exactly where the EventSource resumes: behind its last id, else at the cursor of its URL |
| `StreamProtocol.GappyRunHasHole` | apps/web/src/api/sse.ts:97-115 | on any gappy log the plain run, connect and receive, leaves a hole |
| `StreamProtocol.PlainRunDelivers` | apps/web/src/api/sse.ts:105-116 | the plain run hands over exactly the heard events behind its start |
| `StreamProtocol.StreamEndsExactlyWhenOver` | apps/web/mock/server.ts:678-690 | behind the whole log the stream ends if and only if the run succeeded, failed, was cancelled or was interrupted |
| `StreamProtocol.EndedMeansComplete` | apps/web/mock/server.ts:678-690 | a stream that ended has delivered every heard event that was in the log when the end marker was written or the last poll answered |
| `StreamProtocol.PollingIsBounded` | apps/web/src/api/sse.ts:131-157 | in every run the polls sent are at most the retry budget times the number of sources opened |
| `StreamProtocol.PollHandsOver` | apps/web/src/api/sse.ts:136-147 | an answer that arrives hands over the events behind the cursor that the poll limit allows, up to and with the first end item, and moves the cursor behind them |
| `StreamProtocol.PollCatchesUp` | apps/web/src/api/streams.ts:131-136 | a poll that is answered and arrives brings the next 200 events of the log, or all that there are |
| `StreamProtocol.FallsBackExactly` | apps/web/src/api/sse.ts:117-129 | from a clean start the source survives every drop before the `maxErrors`-th in a row, and that one switches to polling from the cursor |
| `StreamProtocol.ContactStartsOver` | apps/web/src/api/sse.ts:97-111 | an opened connection and a heard message both start the count of errors anew |
| `StreamProtocol.RefusalFallsBack` | apps/web/src/api/sse.ts:117-129 | a refused source is given up at once |
| `StreamProtocol.RetriesExactly` | apps/web/src/api/sse.ts:148-157 | the `pollsBeforeRetry`-th poll is the last before a new source is opened; behind each earlier one a timer is set |
| `StreamProtocol.ClosingCloses` | apps/web/src/api/sse.ts:86-95 | closing gives up source and timer, once, and touches no item |
| `StreamProtocol.FinishedStaysQuiet` | apps/web/src/api/sse.ts:86-95 | once finished, no source, poll or timer is ever started again |
| `StreamProtocol.ReconnectBringsTheRest` | apps/web/mock/server.ts:655-685 | after a drop the reconnect carries everything behind the last dispatched event, and nothing else |
| `StreamProtocol.FlushWritesTheRest` | apps/web/mock/server.ts:678-690 | a flush leaves on the wire everything behind the last dispatched event |
| `Timeline.MergeEvents` | apps/web/src/api/streams.ts:60-73 | the loop and in-place sort compute the merge |
| `Timeline.MergedIsSortedUnion` | apps/web/src/api/streams.ts:60-73 | a merge is strictly sorted, holds exactly the union of the numbers, keeps every listed event and adds only incoming ones |
| `Timeline.MergedExtendsPrefix` | apps/web/src/api/streams.ts:60-73 | merging the next stretch of the log into a log prefix gives the longer prefix |
| `Timeline.MergeKeepsPrefixExactly` | apps/web/src/api/streams.ts:75-76 | one live item keeps a log prefix a log prefix if and only if it does not skip past its end |
| `Timeline.LoadHistory` | apps/web/src/api/streams.ts:44-58 | while the log grows under it, paging returns a prefix of the log at the last page asked for, 500 events a page, all of it unless 20 pages are full |
| `Timeline.ReloadMustCoverExactly` | apps/web/src/api/queries.ts:43-44 | over a log that is not gappy, a reload that lands before a subscription hands over items keeps the timeline a log prefix if and only if it reaches that subscription's cursor |
| `Timeline.JoinStartsAtTheEnd` | apps/web/src/api/streams.ts:117-128 | a subscription that joins starts behind the last cached event, with one source opened there |
| `Timeline.StaleReloadLeavesHole` | apps/web/src/api/streams.ts:117-151 | a run from nothing in which a reload lands late: the next live event leaves a hole exactly when the reload is older than the cursor, though every earlier reload covered |
| `Timeline.LaterReloadHeals` | apps/web/src/api/streams.ts:117-151 | a run in which a reload falls short, another lands before the next item, and the timeline is a log prefix all the same |
| `Timeline.WorldRunOk` | apps/web/src/api/streams.ts:117-151 | over a log that is not gappy, with subscriptions joining at the cached cursor, closing with polls in flight, and any reloads: the timeline is a log prefix after every step if and only if every hand-over starts within it |
| `Timeline.TimelineIsLogPrefix` | apps/web/src/api/streams.ts:117-151 | the same for every run from nothing, and the timeline of such a run is strictly sorted, gap-free and duplicate-free |
| `Timeline.CoveringReloadsFit` | apps/web/src/api/streams.ts:117-151 | if every reload reaches the cursors of the active subscriptions, every hand-over starts within the timeline |
| `Timeline.GappyTimelineHasHole` | apps/web/src/api/streams.ts:117-151 | on any gappy log without end items the plain run, subscribe and receive, ends in a timeline that is no log prefix |
| `Timeline.TimelineExactlyWhenNotGappy` | apps/web/src/api/streams.ts:117-151 | for a log without end items, all runs with covering reloads keep the timeline a log prefix if and only if the log is not gappy |
| `EventStream.ParseBlock` | apps/web/src/api/sse.ts:202-217 | the loop over a block's lines computes the frame the fields add up to |
| `EventStream.ReadEventStream` | apps/web/src/api/sse.ts:175-200 | the buffer loop yields exactly the frames of the normalised chunks put together |
| `EventStream.CutIsExact` | apps/web/src/api/sse.ts:185 | two chunks normalise like their text if and only if the cut does not split a CRLF pair |
| `EventStream.CutsAreExact` | apps/web/src/api/sse.ts:185 | the same for any number of chunks |
| `EventStream.ChunkInvariance` | apps/web/src/api/sse.ts:175-200 | every chunking that splits no CRLF pair, so every chunking of CR-free text, yields the frames of the text in one chunk |
| `EventStream.FramesLineByLine` | apps/web/src/api/sse.ts:186-217 | cutting at blank lines and parsing blocks is the same as reading line by line and sending off at each blank line |
| `EventStream.RoundTrip` | apps/web/mock/http.ts:104-107 | any printed events, comments and retry blocks, under any chunking, read back as exactly the events in order |
| `EventStream.SplitCrlfBreaksAnEvent` | apps/web/src/api/sse.ts:185 | a text and a cut inside a CRLF pair whose one event arrives as two |
| `EventBlocks.AddLinesSums` | apps/web/src/api/sse.ts:202-213 | the fields of a block are all values given to `data` and the last ones given to `event` and `id` |
| `EventCuts.BlankLineMattersExactly` | apps/web/src/api/sse.ts:186-197 | a blank line put between two texts changes the events unless, field by field, the blocks it parts give apart what they give together |
| `EventCuts.CutMattersExactly` | apps/web/src/api/sse.ts:185-197 | among any other chunks, one cut leaves the events alone if and only if it splits no CRLF pair or the blank line it inserts is harmless |
| `EventCuts.SplitBlankLineIsHarmless` | apps/web/src/api/sse.ts:185 | cutting a lone line end in two splits the pair and changes no event |
| `EventPieces.CutsMatterExactly` | apps/web/src/api/sse.ts:175-200 | any list of chunks yields the events of its text in one chunk if and only if, of the pieces its cuts part each block into, at most one holds data and that one has the block's event name and id |
| `EventPieces.PiecesMatterExactly` | apps/web/src/api/sse.ts:185-217 | the same for one block and its pieces, which never give fewer events than the block |
| `EventStandard.ReaderAgreesExactly` | apps/web/src/api/sse.ts:175-217 | any chunks are reported as the HTML standard prescribes for their text if and only if of the pieces of each block at most one holds data, with the event name and id that the standard gives the block, and no data is left unterminated |
| `EventStandard.AgreesWithStandardExactly` | apps/web/src/api/sse.ts:175-217 | chunks that split no CRLF pair are reported as the HTML standard prescribes if and only if every block with data names no empty event and has a NUL-free id of its own or none in force, and no data is left unterminated |
| `EventStandard.BlockAgreesExactly` | apps/web/src/api/sse.ts:202-217 | the same for one block, whatever id is carried into it |
| `EventStandard.FieldsAreStandard` | apps/web/src/api/sse.ts:206-210 | a line is taken apart as the standard prescribes: the name before the first colon, the value behind it less one space |
| `EventStandard.UnterminatedDiffers` | apps/web/src/api/sse.ts:195-196 | data without a blank line behind it is an event here and discarded by the standard |
| `EventStandard.EarlierIdDiffers` | apps/web/src/api/sse.ts:202-217 | an event after one with an id has no id here and that id in the standard |
| `EventStandard.EmptyNameDiffers` | apps/web/src/api/sse.ts:210 | an empty event name stays empty here and means `message` in the standard |
| `EventStandard.NulIdDiffers` | apps/web/src/api/sse.ts:212 | an id that holds NUL is reported here and ignored by the standard |
| `EventStandard.SplitPairDiffers` | apps/web/src/api/sse.ts:185 | two data lines cut inside the pair between them: two events here, one in the standard, although the text conforms |
| `ZipStore.MakeLocalHeader` | apps/web/mock/server.ts:421-428 | the writes into the buffer give the local header, or fail when a field does not fit |
| `ZipStore.MakeCentralHeader` | apps/web/mock/server.ts:429-438 | the same for a directory entry, with its offset |
| `ZipStore.MakeEndRecord` | apps/web/mock/server.ts:443-449 | the same for the end record |
| `ZipStore.LocalFields` | apps/web/mock/server.ts:421-428 | every field of a local header in an archive, at its offset and with its value |
| `ZipStore.CentralStartFields` | apps/web/mock/server.ts:429-437 | the same for the first half of a directory entry, both sizes included |
| `ZipStore.CentralRestFields` | apps/web/mock/server.ts:438 | the same for the second half |
| `ZipStore.EndFields` | apps/web/mock/server.ts:443-448 | the same for the end record |
| `ZipStore.WriteEntry` | apps/web/mock/server.ts:416-441 | the headers of one file, each followed by its name, or nothing if and only if a value does not fit its field |
| `ZipStore.Store` | apps/web/mock/server.ts:412-449 | an archive results if and only if every count, size and offset fits its field, and it is the locals, the directory and the end record |
| `ZipStore.RoundTrip` | apps/web/mock/server.ts:412-449 | a reader that starts at the end record, walks the directory and follows every offset, refusing entries that are not stored, have two different sizes or a wrong checksum, recovers exactly the names and bytes in order |
| `Batching.Batches` | agents/pr_reviewer/src/pr_reviewer/review.py:70-80 | the batches concatenate to the files, each fits or is one file, and no such split uses fewer batches or, with as many, a shorter last one |
| `Batching.AddFile` | agents/pr_reviewer/src/pr_reviewer/review.py:75-79 | one more file keeps the packing valid and best |
| `Batching.OpenIsBest` | agents/pr_reviewer/src/pr_reviewer/review.py:75-77 | opening a batch when the file does not fit loses nothing against any split |
| `Batching.ExtendIsBest` | agents/pr_reviewer/src/pr_reviewer/review.py:78-79 | neither does putting a file that fits into the last batch |
| `Findings.SelectFindings` | agents/pr_reviewer/src/pr_reviewer/review.py:131-163 | the loops return the cut of the ranked lines and the number dropped; kept plus dropped equal all proposals if and only if the limit is not negative |
| `Findings.VettedIsReal` | agents/pr_reviewer/src/pr_reviewer/review.py:141-156 | a candidate is a proposal of a reviewed file on a line its diff shows, with its category, severity, stripped comment, and stripped suggestion or none if nothing is left of it |
| `Findings.StripTrims` | agents/pr_reviewer/src/pr_reviewer/review.py:142 | a stripped text is the stretch between its outermost characters that are no white space |
| `Findings.ByRefIsLast` | agents/pr_reviewer/src/pr_reviewer/review.py:136 | a reference stands for the last file given under it |
| `Findings.VettingMissesNothing` | agents/pr_reviewer/src/pr_reviewer/review.py:141-156 | the line of every proposal that points at a shown line and says something is among the candidates |
| `Findings.RankedLinesAreBest` | agents/pr_reviewer/src/pr_reviewer/review.py:157-162 | one finding per path and line, every candidate line present; each is a bug if its line has one and, within the category, as severe as any; bugs come first, then by severity, path and line |
| `Findings.TiesGoToTheFirst` | agents/pr_reviewer/src/pr_reviewer/review.py:157-161 | among equally ranked candidates of a line the first proposed one is kept |
| `Findings.SelectionIsBest` | agents/pr_reviewer/src/pr_reviewer/review.py:162-163 | what is posted is in that order, one per line, best of its line; nothing on a line left out is a bug where it is style, or more severe within its category, and every finding cut by the limit comes behind it by category, severity, path and line |
| `DiffLines.HeaderReadsBack` | agents/pr_reviewer/src/pr_reviewer/diff.py:9 | a printed hunk header, with or without counts and section text, reads back as its new-side start |
| `DiffLines.HunkStartMatchesOnlyAt` | agents/pr_reviewer/src/pr_reviewer/diff.py:9 | only rows that start with `@` open a hunk, so no body row is taken for a header |
| `DiffLines.RowsComeBackExactly` | agents/pr_reviewer/src/pr_reviewer/diff.py:28 | rows joined by newlines are cut back into the same rows if and only if none holds another line end and the last is not empty |
| `DiffLines.CrlfRowsComeBack` | agents/pr_reviewer/src/pr_reviewer/diff.py:28 | a carriage return with a line feed ends one row, not two |
| `DiffLines.OtherLineEndShiftsNumbers` | agents/pr_reviewer/src/pr_reviewer/diff.py:28-43 | an added line that holds another line end is counted twice, and the number in front of the next line lies past the end of the file |
| `DiffLines.Annotate` | agents/pr_reviewer/src/pr_reviewer/diff.py:20-50 | of the patch text, the loop shows the longest prefix of the rendered rows that fits, with its text, its line set and whether anything was cut |
| `DiffLines.AnnotatedPatchIsTruthful` | agents/pr_reviewer/src/pr_reviewer/diff.py:20-50 | from the text of any hunks without other line ends: what is shown carries only true numbers, all within the hunks, and all of those lines when nothing is cut |
| `DiffLines.TextFits` | agents/pr_reviewer/src/pr_reviewer/diff.py:44-50 | the text never exceeds the budget |
| `DiffLines.TextReadsBack` | agents/pr_reviewer/src/pr_reviewer/diff.py:50 | the text cuts back into the rows shown |
| `DiffLines.PadReadsBack` | agents/pr_reviewer/src/pr_reviewer/diff.py:41 | a padded number is read back from the text, right-aligned in five columns |
| `DiffLines.SmallerBudgetShowsLess` | agents/pr_reviewer/src/pr_reviewer/diff.py:44-50 | a smaller budget shows a prefix of the rows and a subset of the lines |
| `DiffLines.PatchIsTruthful` | agents/pr_reviewer/src/pr_reviewer/diff.py:28-43 | over any hunks starting at line 1 or later every number, read back from the printed text, is the true line of the new file with its text behind it, and the lines are exactly the hunks' ranges |
| `DiffLines.ShownIsTruthful` | agents/pr_reviewer/src/pr_reviewer/diff.py:20-50 | the same truth for what any budget shows |
| `DiffLines.ZeroStartHidesBody` | agents/pr_reviewer/src/pr_reviewer/diff.py:34-35 | a hunk that starts at line 0 shows its header and none of its body |
| `Retrieval.Retrieved.Add` | agents/personal_space/src/personal_space/discovery.py:41-48 | the loop over found passages updates the kept ones and the seen citations |
| `Retrieval.Retrieved.Cap` | agents/personal_space/src/personal_space/discovery.py:50-52 | the best `limit` passages stay, best first |
| `Retrieval.Retrieved.Choose` | agents/personal_space/src/personal_space/discovery.py:143-152 | the first loop of a round picks the new queries |
| `Retrieval.Retrieved.RunQueries` | agents/personal_space/src/personal_space/discovery.py:139-163 | a round runs the chosen queries, adds their passages in order, caps, and has seen all their citations |
| `Retrieval.AddKeepsGathered` | agents/personal_space/src/personal_space/discovery.py:41-48 | adding a passage keeps every earlier sighting settled: listed with at least its score, or crowded out by a full list of rivals |
| `Retrieval.CapMakesTop` | agents/personal_space/src/personal_space/discovery.py:50-52 | capping a settled list gives a true top list of everything found |
| `Retrieval.CappedIsOrdered` | agents/personal_space/src/personal_space/discovery.py:50-52 | what is kept stands best first, equal scores in the order they were listed |
| `Retrieval.AddedKeepsPlaces` | agents/personal_space/src/personal_space/discovery.py:41-48 | a listed citation keeps its place, a new one goes to the end |
| `Retrieval.EarlyCappingIsSafe` | agents/personal_space/src/personal_space/discovery.py:159-163 | after any number of capped rounds every kept passage carries its best score over all rounds and nothing left out beats a kept one |
| `Retrieval.ChosenWithinBudget` | agents/personal_space/src/personal_space/discovery.py:143-152 | the query budget is never exceeded and no query is repeated in another case |
| `Retrieval.ChosenMissesNothing` | agents/personal_space/src/personal_space/discovery.py:143-152 | a wanted query is passed over only if it is blank, was run, or the budget is used up |
| `Retrieval.ChosenInOrder` | agents/personal_space/src/personal_space/discovery.py:143-152 | the queries run are among those wanted, in their order, and of two spellings the first |
| `PromptFill.MakeQueues` | agents/personal_space/src/personal_space/discovery.py:90-93 | the queues are the ranked passages grouped by document, and the final sort by best passage leaves them in order of first appearance |
| `PromptFill.SelectForPrompt` | agents/personal_space/src/personal_space/discovery.py:88-106 | it ends, and its passages are the prefix of the round-robin order over the ranked groups that the budget allows, the first passage always |
| `PromptFill.TurnIsExact` | agents/personal_space/src/personal_space/discovery.py:96-105 | the place of every passage in the round-robin order: behind what all documents give in earlier rounds and behind the better documents of its round |
| `PromptFill.ShareIsPrefix` | agents/personal_space/src/personal_space/discovery.py:96-105 | what a document contributes is a prefix of its queue, all of it when everything is taken |
| `PromptFill.SharesAreFair` | agents/personal_space/src/personal_space/discovery.py:96-105 | a document two picks ahead of another means the other is exhausted |
| `PromptFill.PromptIsFair` | agents/personal_space/src/personal_space/discovery.py:88-106 | of the prompt itself: only given passages, the excerpts shown within the budget once it holds two, each document its best-scored passages, none two ahead of another that has any left |
| `Closure.NormalizeIsIdempotent` | infra/scripts/license_inventory.py:264-265 | a normalised name is in normal form, and normal forms are their own |
| `Closure.NormalizeSubstitutes` | infra/scripts/license_inventory.py:264-265 | normalising is the pattern substitution, read from the left, in lower case |
| `Closure.PackagesAreLast` | infra/scripts/license_inventory.py:291 | a name stands for the last package of that name in the lock, and is missing only if none has it |
| `Closure.DepsFor` | infra/scripts/license_inventory.py:300-302 | the declared dependencies and those of the requested extras, nothing else |
| `Closure.Push` | infra/scripts/license_inventory.py:303-305 | exactly the nodes that a dependency without a marker, with an empty one or with one that holds asks for go on the stack, each with all its extras, above what was there |
| `Closure.Explore` | infra/scripts/license_inventory.py:292-305 | the worklist ends, cycles included, and visits a closed set within any closed set, or meets a missing name of it |
| `Closure.ReachIsClosed` | infra/scripts/license_inventory.py:290-306 | the nodes with a path from a root are finitely many, hold the roots and are closed under accepted dependencies |
| `Closure.LockClosure` | infra/scripts/license_inventory.py:290-306 | the result is exactly the names with a path from a root; it fails if and only if such a name is not in the lock |
| `Closure.ExtrasAreShipped` | infra/scripts/license_inventory.py:300-305 | if an accepted dependency of a reachable package asks for an extra, every accepted dependency under that extra is in the result |
| `Notifications.InputRequestNotifier.Update` | apps/web/src/lib/notifications.ts:203-243 | stale notifications are closed, then the first load is remembered or every request is looked at, with the ids shown and the messages posted |
| `Notifications.InputRequestNotifier.CloseStale` | apps/web/src/lib/notifications.ts:205-210 | exactly the notifications that are no longer pending are closed |
| `Notifications.InputRequestNotifier.Receive` | apps/web/src/lib/notifications.ts:246-249 | the id counts as handled from now on, nothing else changes |
| `Notifications.InputRequestNotifier.Click` | apps/web/src/lib/notifications.ts:232-237 | the clicked notification is no longer open |
| `Notifications.InputRequestNotifier.CloseAll` | apps/web/src/lib/notifications.ts:251-254 | nothing stays open |
| `Notifications.UpdateShowsExactlyTheDue` | apps/web/src/lib/notifications.ts:203-243 | an update shows exactly the requests that are new, untold and allowed at their first entry, once each; leaves open what was open and pending plus those; posts exactly about them and the ones watched in the foreground |
| `Notifications.EveryRunIsOk` | apps/web/src/lib/notifications.ts:203-254 | in every run of any number of tabs each tab shows a request at most once and never one pending at its first load |
| `Notifications.ToldIsHeard` | apps/web/src/lib/notifications.ts:222-249 | what one tab tells waits in, or has reached, every tab that keeps its channel |
| `Notifications.TwoTabsShowOnlyUnheard` | apps/web/src/lib/notifications.ts:219-249 | two linked tabs show the same request only while the first one's message is still on its way |
| `Notifications.HeardStaysSilent` | apps/web/src/lib/notifications.ts:219-249 | a tab that has received a message about a request never shows it from then on |
| `Notifications.OpenIsPending` | apps/web/src/lib/notifications.ts:203-210 | after every update the open notifications are a subset of the pending list |
| `Contacts.CollapseIsTidy` | agents/caller/src/caller_agent/rows.py:71 | a name keeps its characters in order, with single spaces inside and none at the ends |
| `Contacts.CollapseSpacesWords` | agents/caller/src/caller_agent/rows.py:71 | a collapsed name is its words with one space between them |
| `Contacts.ReadRows` | agents/caller/src/caller_agent/rows.py:65-74 | the loop returns the rows that are not blank, numbered from the start row |
| `Contacts.ContactsKeepRows` | agents/caller/src/caller_agent/rows.py:65-74 | no row is lost or invented, and the row numbers increase |
| `Contacts.ColumnsAreFields` | agents/caller/src/caller_agent/rows.py:65-73 | the columns are name, phone, consent and status, trimmed, empty when missing, the name with its white space collapsed |
| `Contacts.ExactlyThoseAreCalled` | agents/caller/src/caller_agent/rows.py:77-109 | only contacts of the list with consent, a valid number, a plain name and a ready status are called; such a contact is left out only if its phone is called for another row or the plan is full |
| `Contacts.ReasonsMean` | agents/caller/src/caller_agent/rows.py:77-91 | a row is turned away for the first thing wrong with it, in this order: consent, number, name, a done status, an unknown status |
| `Contacts.IsE164Means` | packages/python_sdk/src/crewquarters/telephony.py:16-21 | the numbers are a plus and 8 to 15 digits, the first not 0, perhaps with one line break behind them |
| `Contacts.DocumentedExactly` | agents/caller/src/caller_agent/rows.py:18-40 | an accepted name is documented if and only if it does not end in a hyphen or an apostrophe and has no mark behind a separator; a documented name is accepted if and only if no initial inside it carries a mark |
| `Contacts.MarkedInitialIsRejected` | agents/caller/src/caller_agent/rows.py:36-40 | a name whose initial is a letter with a combining mark is documented and not accepted |
| `Contacts.TrailingHyphenIsAccepted` | agents/caller/src/caller_agent/rows.py:18-40 | `Ann-` is accepted and not documented |
| `Contacts.GreedyDecides` | agents/caller/src/caller_agent/rows.py:77-109 | what the greedy pass decides about a contact is the verdict read off the whole list |
| `Contacts.Classify` | agents/caller/src/caller_agent/rows.py:98-109 | the plan is the first `max_calls` of the valid contacts, the first of each phone; eligible and skipped are the contacts in order, each with its verdict |
| `Contacts.PlanPartitions` | agents/caller/src/caller_agent/rows.py:98-109 | every contact sits in exactly one of the two lists, in its place among those before it, with its reason if it is skipped |
| `Contacts.CallsAreSafe` | agents/caller/src/caller_agent/rows.py:77-109 | no phone is called twice, no faulty row is called, the cap holds |
| `Contacts.OverCapMeansFull` | agents/caller/src/caller_agent/rows.py:93-94 | the cap turns a contact away only when the plan is full |
| `ImageLayers.PrivilegedFiles` | infra/scripts/check_image.py:77-98 | the tracked map is exactly the setuid and setgid files of the file system that replaying every entry builds |
| `ImageLayers.PrivilegedIsSetuidOrSetgid` | infra/scripts/check_image.py:95-97 | the tracked files are the regular ones with bit 0o4000 or bit 0o2000 |
| `ImageLayers.LayerTrackingProjects` | infra/scripts/check_image.py:81-97 | tracking only those files loses nothing over a layer |
| `ImageLayers.Drop` | infra/scripts/check_image.py:85-94 | deleting the hidden paths one by one leaves exactly the others |
| `ImageLayers.OpaqueHidesBelow` | infra/scripts/check_image.py:84-89 | an opaque marker hides exactly the paths below its directory, component by component |
| `ImageLayers.WhiteoutHidesBelow` | infra/scripts/check_image.py:90-94 | a whiteout hides exactly the path it names and what lies below it, and no path that only shares its text |
| `ImageLayers.LayerAgreesExactly` | infra/scripts/check_image.py:81-97 | over any lower layers the replay of a layer gives what the OCI image specification gives if and only if no privileged file it puts is hidden by a later whiteout of its own |
| `ImageLayers.ImageAgreesExactly` | infra/scripts/check_image.py:77-98 | over a whole image the tracked files are those of the specification's image if and only if, for every path, the topmost layer that puts or hides it does not itself hide a privileged file it put there |
| `ImageLayers.HigherLayerHealsClash` | infra/scripts/check_image.py:95-97 | a clash below does not show once a higher layer puts the path again |
| `ImageLayers.WhiteoutsFirstImageAgrees` | infra/scripts/check_image.py:77-98 | layers that list their whiteouts first make an image that agrees |
| `ImageLayers.LateWhiteoutDropsFile` | infra/scripts/check_image.py:90-97 | a privileged file whited out later in its own layer is dropped by the code and kept by the specification |
| `Voicemail.VoicemailDetector.OnAnswer` | agents/voice_caller/src/voice_caller/voicemail.py:64-70 | an answer starts over |
| `Voicemail.VoicemailDetector.OnAgentSpeechStart` | agents/voice_caller/src/voice_caller/voicemail.py:72-75 | a running utterance keeps its start |
| `Voicemail.VoicemailDetector.OnAgentSpeechEnd` | agents/voice_caller/src/voice_caller/voicemail.py:77-81 | the span is banked, never a negative one |
| `Voicemail.VoicemailDetector.OnRemoteSpeechStart` | agents/voice_caller/src/voice_caller/voicemail.py:83-85 | the far end's clock starts and it has spoken |
| `Voicemail.VoicemailDetector.OnRemoteSpeechEnd` | agents/voice_caller/src/voice_caller/voicemail.py:87-93 | the clock stops, and only after speech since the answer is the detector disarmed |
| `Voicemail.VoicemailDetector.Check` | agents/voice_caller/src/voice_caller/voicemail.py:95-125 | the branches report the verdict of the fields |
| `Voicemail.VoicemailExactly` | agents/voice_caller/src/voice_caller/voicemail.py:64-125 | over every ordered trace voicemail is reported if and only if the call is answered, the far end has not spoken since, the agent is silent, and the measured time in which the agent did not speak exceeds the limit |
| `Voicemail.IvrExactly` | agents/voice_caller/src/voice_caller/voicemail.py:107-111 | over every trace a menu is reported if and only if the far end, never having stopped since the answer, speaks past the limit while the agent is silent |
| `Voicemail.SpokenAndYieldedIsSilence` | agents/voice_caller/src/voice_caller/voicemail.py:87-102 | once the far end has spoken and stopped nothing is reported, whatever follows, until the next answer |
| `Voicemail.SilentExactly` | agents/voice_caller/src/voice_caller/voicemail.py:95-125 | after any trace nothing is reported at any time if and only if the call is not answered, the far end has spoken and stopped since the last answer, or the agent speaks |
| `Voicemail.SilentForGoodExactly` | agents/voice_caller/src/voice_caller/voicemail.py:20-24 | nothing is reported whatever follows short of another answer if and only if the call is not answered or the far end has spoken and stopped since the last answer |
| `Voicemail.AnswerArms` | agents/voice_caller/src/voice_caller/voicemail.py:64-70 | after any trace an answer alone leads to voicemail once the silence limit has passed, and to nothing before |
| `Voicemail.DisarmLastsExactly` | agents/voice_caller/src/voice_caller/voicemail.py:87-102 | a disarmed detector is silent at every moment of what follows if and only if no answer is among it |
| `Voicemail.HelloBeforeAnswerIsForgotten` | agents/voice_caller/src/voice_caller/session.py:340-428 | hello, pause, answer: the detector is disarmed, armed again, and reports voicemail |
| `Voicemail.TimesAreRight` | agents/voice_caller/src/voice_caller/voicemail.py:72-81 | since the answer every moment is agent speech or quiet time, and the detector's total is the former |

## Left out

- Items without a sequence number in `subscribe`: run events always carry one.
- Delays between polls, keepalive comments and the retry hint: only that a timer is set, not when it fires.
- React effects, query caching beyond the event list, components and page shell: user interface plumbing.
- A server that restarts and loses its log: the model's log only grows.
- `retry` of a finished run, which would reopen a log behind an end marker: a subscription is modelled up to its end.
- JSON encoding, UTF-8 decoding and HTTP routing: text and bytes are taken as decoded.
- CRC-32 values: the checksum is any function; the reader checks whatever it gives.
- ZipStore.Store: a field that does not fit makes the result empty, where the original throws.
- Search concurrency: the searches of a round are a function of the query, merged in the order the code merges them.
- `clean_query`, `prompt_refs` and `reviewable`: they would add only easy members.
- Marker evaluation: which markers hold is a parameter of the closure.
- Fractional Last-Event-ID headers: a number is a whole number.
- Unicode: case folding is ASCII, `\d` is ASCII digits; letter categories and white space are parameters of `Contacts`.
- Path normalisation and tar decoding: image entries start from their normalised path.
- A file that replaces a directory: neither the code nor the model of the specification hides what was below it.
- Rounding: scores and times are reals.
- Voice sessions, turn detection, the transcript signal for voicemail, speech synthesis: they rest on libraries that are not part of this model.
- Text passes made of regular expressions, prompt building, schedules and time zones: they would be claims about regex engines and zone tables.
- The scripted simulator of the mock server: demonstration behaviour.
