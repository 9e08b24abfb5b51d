# Verification of vigie

A Dafny model of vigie's hard parts, with proofs. vigie watches Claude Code sessions: a watcher on each
machine folds append-only transcripts into a status, a daemon merges those reports with reports from hooks
and keeps ledgers that are never recomputed, and dashboards follow over a stream of change notifications.

`dafny verify dfyconfig.toml` checks everything.

## What is modelled

**The transcript engine.** `History` holds decoded lines and the events they carry. `ParserRules` is the byte
layer (lines, offsets, partial tails) and the fold; `Parser` is the incremental parser as an object that is
mutated in place. `ToolRules` and `AgentRules` state how pending work opens and closes twice, as bookkeeping and
over the whole history, and prove the two equal; `PendingTools` and `PendingAgents` are the in-place objects.
`LineHistory` says over lines, blocks and notifications alone what each line opens and closes. `InfoHistory` and
`UsageCount` say what the rest of a snapshot means, `Scanner` proves that the parser cache cannot be told from a fresh
parse, `Dedupe` picks one report per session; `StatusRules` derives the status, and `StatusHistory` says when it is
which.

**Reconciliation and ledgers.** `Report` merges one report into a row; it and `ReportHistory` prove what any run of
reports leaves there; `Apply` interleaves concurrent reports under the mutex with pruning outside it. `LedgerRules` and
`Ledger` are token marks, daily buckets and the event log, and `LedgerBuckets` tells every bucket's figures over a run;
`Lease` and `Samples` are the usage lease and the token samples.
Every transaction takes the point at which it fails as an input.

**Notification.** `Notify` interleaves handlers, prunes, hub, streams and dashboards, and proves what every step keeps;
`NotifyHistory` says over whole runs which changes are announced and what a screen shows. `Hub` is the hub as objects,
and the report handler that ties rows, ledgers and nudges together.

**Codecs and loops.** `Shell` quotes and lexes, `Install` edits the hooks of a settings file and
`InstallHooks` says what that leaves in it, `Columns` fits and
orders table columns, `SecretEditor` is the masked prompt with the screen it draws.

Instants are whole nanoseconds and absent timestamps are `None`. What the file system, the process table, the clock
and the database answer are parameters.

## What turned out otherwise than promised

- A call is not active whenever it was raised and not cleared since: a second call without a timestamp silences the
  first (`Report.UndatedCallSilences`). `Report.CallIsTold` is the exact condition.
- Concurrent reports are the fold in lock order except when a prune of the session falls between a report's read and
  its write, which brings the pruned row back (`Apply.LinearUnlessUndone`, both directions; `Apply.APruneIsUndone` is
  such a run).
- A control sequence is swallowed by the token prompt only in its 7-bit form (`SecretEditor.SwallowedIffSevenBit`).
- Installing hooks panics on a settings file that is `null` (`Install.MergeOutcome`), and piles up when a production
  path or an event name holds a leg marker (`Install.IdempotentIffOwned`, `Install.BuiltIsOwned`).
- Not every change of the stored rows is announced. Exactly two are silent: a prune, and a report that puts back, as it
  had read it, a row pruned under it (`NotifyHistory.SilenceIsTold`). A quiet screen is current if and only if neither has
  come since it was served (`NotifyHistory.QuietIsCurrent`), and has every change by reports if and only if no row was
  put back (`NotifyHistory.QuietShowsReports`). `NotifyHistory.APruneIsSilent` and `NotifyHistory.ARestoreIsSilent` are
  runs in which it is not.
- Fetch generations order issue, not service, so a screen can step back to an older board
  (`NotifyHistory.AScreenStepsBack`); `NotifyHistory.StepsBackIff` is the exact condition.
- The hook command quotes its paths and not its event: it runs what was meant if and only if the event is a plain word
  (`Shell.CommandIsRead`).

## Model

| member | source | states |
|---|---|---|
| ParserRules.CutIsFaithful | internal/transcript/parser.go:37-51 | Cutting bytes at newlines loses nothing, makes only whole lines and leaves no newline in the partial tail, for every byte string |
| ParserRules.CutAppend | internal/transcript/parser.go:33-51 | Lines read up to a line boundary and then from there on are the lines of the whole |
| ParserRules.ChunkIndependence | internal/transcript/parser.go:31-51 | For any series of readings that resume from the offset, read errors included, what is consumed and the folded state are those of one pass over what the last reading delivered |
| ParserRules.GrowingResumes | internal/transcript/parser.go:33-51 | Readings of a file that only grows always meet the condition of chunk independence |
| ParserRules.FoldIsTheHistory | internal/transcript/parser.go:68-114 | The pending-work part of the fold over lines is the bookkeeping run over the event history of those lines |
| Parser.Reader.ReadBytes | internal/transcript/parser.go:38-50 | One buffered read: everything up to and including the next newline, or what is left with an end or an error |
| Parser.Parser.constructor | internal/transcript/parser.go:25-27 | A new parser has consumed nothing and owns its two bookkeeping objects |
| Parser.Parser.Advance | internal/transcript/parser.go:37-51 | In place: the offset ends one past the last newline delivered and the state is the fold of exactly the bytes before it, also when the read fails |
| Parser.Parser.AdvanceOne | internal/transcript/parser.go:40-49 | One turn of the read loop: a whole line is consumed, anything else ends the reading and changes nothing |
| Parser.Parser.ConsumeLine | internal/transcript/parser.go:40-44 | Offset and state move together by one whole line |
| Parser.Parser.FoldRawLine | internal/transcript/parser.go:58-66 | A malformed line changes nothing; any other is folded |
| Parser.Parser.FoldInfoLine | internal/transcript/parser.go:68-120 | The dispatch on the line type updates identity, titles, usage, interruption and compaction boundary |
| Parser.Parser.FoldPendingLine | internal/transcript/parser.go:76-114 | The pending calls and agents after a line are the bookkeeping stepped by exactly the events that line carries |
| Parser.Parser.FoldUserLine | internal/transcript/parser.go:84-100 | A user line answers, then notifies, and closes the turn only if it did neither and was not written by Claude Code itself |
| Parser.Parser.Snapshot | internal/transcript/parser.go:125-132 | The snapshot is the state with title, pending tool, background counts and agents resolved |
| InfoHistory.FoldSays | internal/transcript/transcript.go:159-215 | The told part of a fold is a fold of its own over the lines |
| InfoHistory.ReplyIsTold | internal/transcript/transcript.go:178-215 | Stop reason, API error and activity are those of the last assistant line, which ends on a thinking block exactly when thinking is set |
| InfoHistory.ActivityIsTheLastCall | internal/transcript/transcript.go:178-215 | The activity of a reply is that of its last tool call, and empty without one |
| InfoHistory.InterruptionIsTold | internal/transcript/transcript.go:249-275 | Interrupted exactly when the last user or assistant line is a user line with one of the two marker texts as a block |
| InfoHistory.ContextIsTold | internal/transcript/transcript.go:195-229 | Context size is the last measured main-chain prompt; the model is the last real one, never a bracketed marker |
| InfoHistory.CustomTitleIsTold | internal/transcript/transcript.go:348-367 | The last operator title wins over every generated one |
| InfoHistory.GeneratedTitleIsTold | internal/transcript/transcript.go:348-367 | Without an operator title the last generated one counts |
| InfoHistory.FieldIsKept | internal/transcript/transcript.go:159-176 | Session id, directory, branch, last activity, permission mode, effort and the last compaction boundary are each what the last line to give it said, and empty only if none did |
| InfoHistory.TurnsAreTold | internal/transcript/parser.go:69-72 | A transcript has turns exactly when it has a user or assistant line |
| LineHistory.LineMovesCalls | internal/transcript/parser.go:76-114 | After any transcript, one more line: the calls it makes are open, as their last blocks describe them; of the others a background launch is closed exactly by a terminal notification that names it on a user line or an attachment, a foreground call exactly by its result or a typed line, and either by a successful declared stop of the task it was given |
| LineHistory.LineMovesStops | internal/transcript/pending.go:48-309 | After any transcript, one more line: which stops are awaited, which launch each task names, and the launch count |
| LineHistory.LineMovesAgents | internal/transcript/parser.go:76-114 | After any transcript, one more line: the agents it launches are in flight under their last description; any other stays unless a terminal notification on a user line or an attachment names it, or the line was typed |
| LineHistory.CallsAreTold | internal/transcript/parser.go:68-114 | Over any transcript a call is open exactly when no line has closed it since the last line to make it, and is what that line said |
| LineHistory.AgentsAreTold | internal/transcript/parser.go:68-114 | Over any transcript an agent is in flight exactly when no line since its last launch notified it or was typed |
| ToolRules.BookkeepingIsTheHistory | internal/transcript/pending.go:48-309 | Over any history: a call is open exactly when nothing that closes its kind has come since its last declaration; task names and pending stops agree with the history; open background work never outnumbers launches |
| ToolRules.PendingToolIsTheLastOpened | internal/transcript/pending.go:222-235 | A pending tool is reported exactly when a foreground call is open, and it is the one whose opening came last |
| ToolRules.AnsweredCloses | internal/transcript/pending.go:86-126 | What a result closes: the foreground call it answers, and the launch that a successful declared stop names |
| ToolRules.PromptCloses | internal/transcript/pending.go:177-205 | What a prompt closes: every foreground call and no background launch |
| ToolRules.OnlyDeclarationsOpen | internal/transcript/pending.go:48-79 | Only a declaration opens a call or changes what an open one is; the launch count moves with declarations only |
| ToolRules.OrderedStep | internal/transcript/pending.go:48-220 | Every step keeps open calls listed in the order and open launches within those counted |
| PendingTools.PendingTools.AddToolUse | internal/transcript/pending.go:58-78 | One tool_use block, recorded in place |
| PendingTools.PendingTools.AddToolUses | internal/transcript/pending.go:48-79 | The loop over an assistant message is the bookkeeping stepped by its declarations |
| PendingTools.PendingTools.ClearToolResults | internal/transcript/pending.go:86-126 | The loop over a user message is the bookkeeping stepped by its answers, and reports whether there were any |
| PendingTools.PendingTools.NoteLaunchId | internal/transcript/pending.go:284-292 | Only a background launch gets a task id |
| PendingTools.PendingTools.CloseStoppedLaunch | internal/transcript/pending.go:296-309 | A declared stop is consumed, and closes its launch only on success with the same task |
| PendingTools.PendingTools.ClearBackgroundNotificationsIn | internal/transcript/pending.go:148-160 | Terminal notifications close the background launches they name, from either carrier |
| PendingTools.PendingTools.CloseTurnTools | internal/transcript/pending.go:177-205 | In place: the background launches are kept in order, all else is dropped |
| PendingTools.PendingTools.BackgroundCounts | internal/transcript/pending.go:213-220 | Launches made, and the number still open |
| PendingTools.PendingTools.Resolve | internal/transcript/pending.go:222-235 | The most recent foreground call by name, and whether any background launch is open |
| AgentRules.AgentsInFlight | internal/transcript/agents.go:27-152 | Over any history: a subagent is in flight, with the description of its last launch, exactly when neither a prompt nor its own terminal notification has come since |
| PendingAgents.PendingAgents.AddLaunches | internal/transcript/agents.go:27-51 | The loop records the Task and Agent calls of a message |
| PendingAgents.PendingAgents.ClearNotificationsIn | internal/transcript/agents.go:92-104 | Terminal notifications retire the agents they name; says whether there was any notification |
| PendingAgents.PendingAgents.CloseTurn | internal/transcript/agents.go:120-126 | A prompt retires every agent |
| AgentRules.AgentShownIsTheLastStarted | internal/transcript/agents.go:27-152 | Over any history: an agent is shown exactly when one is in flight; it is the one whose start came last of all in flight, under the description of its last launch |
| PendingAgents.PendingAgents.Resolve | internal/transcript/agents.go:131-152 | The number in flight, and the description of the agent shown, which the lemma above makes the one started last |
| UsageCount.UsageIsTheFirsts | internal/transcript/transcript.go:205-214 | Each token figure is the sum over distinct message ids of their first reply, plus the replies without an id |
| UsageCount.UsageGrows | internal/transcript/transcript.go:205-214 | With non-negative figures usage never decreases as lines are added |
| UsageCount.OutputGrows | internal/watch/scanner.go:253-276 | The parsed output total of a longer file is at least that of any prefix |
| UsageCount.ScansCountOnce | internal/store/token_mark.go:38-56 | Scans of a growing transcript, rolled up among any other calls, empty rollups of the session included: after the last scan rolled up the session has counted exactly its total, and before the first nothing |
| Scanner.ResumeIsExact | internal/watch/scanner.go:253-276 | Resuming from an offset equals a fresh parse if and only if the consumed bytes still begin the file |
| Scanner.TakeSnapshot | internal/transcript/parser.go:125-132 | A parser that read a content's complete lines reports what a new parser would |
| Scanner.ParseWhole | internal/transcript/transcript.go:146-157 | The one-shot parse of a whole file |
| Scanner.Scanner.ChooseParser | internal/watch/scanner.go:259-262 | The cached parser for a file that has grown, a new one otherwise; either can be read on to the whole file |
| Scanner.Scanner.ReadOn | internal/watch/scanner.go:263-274 | Opening, seeking and advancing: the information of the whole file, or nothing when opening or reading fails |
| Scanner.Scanner.ReadAmong | internal/watch/scanner.go:263-274 | Reading one file in place leaves the cached parsers of the others valid |
| Scanner.Scanner.ParseChanged | internal/watch/scanner.go:259-276 | A new or changed file: fresh information and a cache entry that shares no parser with another |
| Scanner.Scanner.ParseFile | internal/watch/scanner.go:253-276 | Hit, resume or restart: always what a new parser makes of the whole file |
| Scanner.Scanner.ScanFile | internal/watch/scanner.go:90-117 | A file is passed over or parsed, and the other entries keep |
| Scanner.Scanner.ReadAll | internal/watch/scanner.go:90-121 | The loop over the files: everything reported is fresh, everything kept is a valid, unshared entry |
| Scanner.Scanner.Scan | internal/watch/scanner.go:80-189 | One scan reports what a scan without a cache would, and remembers the files it reported and no others |
| Scanner.RememberedExactly | internal/watch/scanner.go:118-189 | What a scan remembers are exactly the files it reported on, each with its stat and content |
| Scanner.Watch | internal/watch/scanner.go:249-276 | Any number of scans of any files that grow, shrink, are rewritten or fail: each reports what one without a cache would |
| Dedupe.DedupeBySession | internal/watch/scanner.go:291-310 | Slots in first-seen order, each holding the first report of its session that carries the largest output total; reports without an id untouched |
| Dedupe.OnePerSession | internal/watch/scanner.go:278-310 | No session twice, none lost, and no other report of a session carries a larger total |
| StatusRules.RefinedStatus | internal/watch/status.go:80-143 | The refinements never change waiting, error or ended; they rest only what rested |
| StatusRules.SnapshotIsTheHistory | internal/transcript/pending.go:213-235 | The background and agent figures of a snapshot say exactly what the lines leave open |
| StatusHistory.FiguresAreTold | internal/transcript/pending.go:213-220 | The open count and the agent count are the numbers of launches and agents the lines leave open |
| StatusHistory.ShownIsTold | internal/transcript/parser.go:125-132 | The pending tool shown is the name of the foreground call opened last, the agent shown is described as the one started last; each is empty without one |
| StatusHistory.StatusIsTold | internal/watch/status.go:27-243 | Exactly when a session reads each of its seven statuses, in terms of record, process, ages, marker and pending work, and exactly when it is declared |
| StatusHistory.ActivityIsTold | internal/watch/status.go:80-143 | What stands beside the status, and what a working session that said nothing shows |
| StatusRules.OpenWorkNeverReadsIdle | internal/watch/status.go:27-60 | While a background launch is open, no registry record, presence answer or compaction marker makes the session read idle |
| StatusRules.ReadsIdle | internal/watch/status.go:27-243 | Exactly when a session reads idle, in terms of record, presence, ages and the transcript's history |
| Report.RejectReport | internal/server/report.go:537-584 | Whatever is accepted has a known event and status and a readable or absent timestamp, and a watch report carries a status |
| ReportHistory.AcceptedExactly | internal/server/report.go:537-606 | A report is accepted if and only if its event and status are among the names known, a watch report carries a status, and its timestamp is absent or an instant |
| ReportHistory.WatchMoves | internal/server/report.go:400-528 | A reported status takes effect unless it is inferred and no newer than a hook's waiting, or an inferred idle against a turn a hook opened; the watcher then owns exactly what it changed |
| ReportHistory.HookMoves | internal/server/report.go:381-402 | A hook owns the status after it, a call changes neither status nor owner nor detail, and neither touches the API error |
| ReportHistory.StatusIsTold | internal/server/report.go:381-528 | Over any run of hooks and watch reports the status is what the last report to settle it said |
| ReportHistory.OwnerIsTold | internal/server/report.go:486-528 | Over any run the owner is the sender of the last hook or of the last watch report that changed the status |
| ReportHistory.ApiErrorIsTold | internal/server/report.go:391-396 | The API error is that of the last report to carry a status |
| ReportHistory.ActivityIsTold | internal/server/report.go:403-419 | While active, the detail is the last one told since the status last changed, and empty if none was |
| ReportHistory.RestIsTold | internal/server/report.go:403-419 | At rest only `shell` or `interrupted` is shown, while the last report says so; after the end nothing is |
| ReportHistory.CallingIsTold | internal/server/report.go:299-314 | Message and time of a call are those of the last report to raise or clear one |
| Report.WaitingIsHeld | internal/server/report.go:467-528 | Over any run of calls and inferred watch reports a hook's waiting keeps status, owner and change time if and only if none is an error, an end, or another non-idle status dated strictly after it |
| Report.IdleYields | internal/server/report.go:508-528 | A watcher's idle takes effect unless inferred against a hook-owned open turn; a watcher-owned status always yields |
| Report.OpenWorkIsNeverShownIdle | internal/server/report.go:381-419 | A watch report of a transcript with open background work never leaves the row idle |
| Report.HookStatusIsTold | internal/server/report.go:608-642 | Over any run of hooks the last decisive one settles the status, but for an ended session that starts again |
| Report.FirstHookIsTold | internal/server/report.go:608-642 | Before any decisive hook the first hook settles it, and calls alone leave a session without one |
| Report.NextPhaseMoves | internal/server/report.go:368-419 | One report: the change time moves exactly with the status, the end time is set once and cleared on return, resting rows keep no stale detail |
| Report.ChangeTimeIsTold | internal/server/report.go:400-402 | Over any run the change time is the timestamp of the report that last changed the status |
| Report.ChangedOrNever | internal/server/report.go:381-402 | A row has either never changed status and has no times, or some report was the last to change it |
| Report.EndTimeIsTold | internal/server/report.go:368-377 | While ended, the end time is the first timestamp reported with or after the end; otherwise there is none |
| Report.CallIsTold | internal/server/report.go:306-314 | A call is active exactly when the last report to touch it is a dated call |
| Report.UndatedCallSilences | internal/server/report.go:306-314 | A second call without a timestamp silences the first: the exact condition above cannot be "raised and not cleared" |
| Report.RowsAreRuns | internal/server/report.go:244-297 | Every reachable row obeys those rules, rests quietly, and started when first reported |
| Report.FieldIsKept | internal/server/report.go:244-287 | Each of the nine descriptive fields is what the last report to give it said, and empty only if none did |
| Report.FiguresAreKept | internal/server/report.go:266-295 | A report without usage or context leaves the last known figures |
| Apply.MutexHolds | internal/store/sessions.go:99-113 | In every interleaving only the holder is between its lock and its write |
| Apply.RowIsTheFold | internal/store/sessions.go:99-113 | In every interleaving the stored row is the fold of the reports it reflects |
| Apply.WriteIsLinear | internal/store/sessions.go:99-113 | A write adds exactly its report, if and only if it does not write back a row pruned since it was read |
| Apply.LinearUnlessUndone | internal/store/sessions.go:77-113 | Over a whole run a row is always the fold, in lock order, of the reports written since its last prune, if and only if no prune of it fell between a writer's read and write |
| Apply.APruneIsUndone | internal/store/sessions.go:99-113 | It happens: any two reports of one session have a run in which a prune is undone, and the row then also holds the report from before the prune |
| Apply.Sessions.ApplySession | internal/store/sessions.go:99-113 | Read, merge, write: the row becomes the merge of itself and the report, which the Report and ReportHistory rows above describe field by field, or nothing changes |
| Ledger.Ledger.RollUpTokens | internal/store/token_mark.go:22-56 | Mark and bucket move together or not at all; returns the growth of the mark |
| Ledger.Ledger.RollUpReport | internal/server/report.go:95-124 | A report without an instant counts nothing; any other counts in the bucket that LedgerBuckets.BucketsAreConserved fixes, its own day and model |
| Ledger.Ledger.NoteSession | internal/store/sessions.go:34-75 | A written row can be logged against and pruned |
| Ledger.Ledger.LastEvent | internal/store/events.go:37-50 | The most recent row of the log for a session, if any, found from the end |
| Ledger.Ledger.AppendEventClosingInterval | internal/store/events.go:81-104 | The event is logged and its interval counted, or neither; it needs the session row |
| Ledger.Ledger.PruneSessions | internal/store/prune.go:30-55 | Stale sessions and their events go; marks and buckets stay |
| LedgerBuckets.PruneIsTold | internal/store/prune.go:9-55 | Exactly the sessions last heard of before the cutoff go, by last report or without one last activity, and exactly their events |
| Ledger.Ledger.MoveDailyBucket | internal/store/stats.go:183-216 | One bucket folded into another, or nothing; a bucket cannot be folded into itself |
| Ledger.Ledger.SetDailyTokens | internal/store/stats.go:128-146 | Only the output figure of that bucket changes, and the previous one is returned |
| Ledger.Ledger.DeleteDailyBucket | internal/store/stats.go:159-169 | Only that bucket goes, and what it held is returned |
| LedgerRules.CountsAreConserved | internal/store/stats.go:35-81 | Over any run the output column adds up to the marks and each seconds column to the intervals closed in its status, but for operator repairs |
| LedgerRules.NoRepairs | internal/store/stats.go:120-169 | With no repair in a run, columns and marks agree exactly |
| LedgerBuckets.BucketsAreConserved | internal/store/stats.go:35-81 | Over any run every figure of every (day, model) bucket is what was counted in it and what operators shifted: mark growth on the day and model of the rollup's own report, seconds on the day of the session's previous event, in the column of its status |
| LedgerBuckets.NothingShifts | internal/store/stats.go:120-216 | Without moves, corrections and deletions nothing is shifted |
| LedgerBuckets.PreviousEventIsTold | internal/store/events.go:37-50 | The event an interval starts from is the last one the run logged for the session, and there is none once a prune has taken the session |
| LedgerRules.MoveKeepsSums | internal/store/stats.go:183-216 | Moving a bucket keeps every column's sum |
| LedgerRules.MarkIsTheMaximum | internal/store/token_mark.go:31-45 | A mark is the largest total ever committed and dated for its session |
| LedgerRules.SecondsAreTheSpan | internal/server/report.go:134-195 | Exactly: seconds counted are the span of the session's dates, plus what they stepped back, less what was missed |
| LedgerRules.MissesNothingThroughout | internal/server/report.go:134-195 | Over a run nothing is missed if and only if every interval closed from a dated row still in the log, in a timed status, over whole seconds |
| LedgerRules.NoSecondTwice | internal/store/events.go:61-104 | With dates that never step back the seconds counted fit the span, and fill it if and only if every interval was closed completely; when every one was, the bound holds if and only if no date steps back |
| LedgerRules.EverySecondOnce | internal/store/events.go:61-104 | Events on whole seconds in timed statuses, and no prune of the session: the seconds counted are the span if and only if the dates never step back |
| LedgerRules.MissesNothing | internal/server/report.go:134-195 | A call of any kind misses nothing if and only if the interval it closes, if any, starts from a dated row still in the log, in a timed status, and is whole seconds |
| LedgerRules.AddedIsTimed | internal/store/stats.go:58-81 | Whatever is counted for a session is counted in one of the three columns |
| Lease.WriteNeedsTheLease | internal/store/lease.go:105-143 | A snapshot write succeeds if and only if the last grant is the writer's own, unreleased and unexpired |
| Lease.TenuresAreApart | internal/store/lease.go:15-52 | With a clock that never steps back, one machine's grant is over before another is granted: expired, released, or replaced by its own |
| Lease.OneHolder | internal/store/lease.go:57-78 | At any moment after any run, every machine but the holder has no grant left |
| Lease.LeaseStore.AcquireLease | internal/store/lease.go:15-52 | Granted unless another holds it unexpired; the expiry is to the second |
| Lease.LeaseStore.ReleaseLease | internal/store/lease.go:83-89 | A release by anyone but the holder changes nothing |
| Lease.LeaseStore.SetMetaIfLeaseHolder | internal/store/lease.go:105-143 | Writes exactly when the named caller holds the lease, and says who does |
| Samples.RetentionIsExact | internal/store/samples.go:15-29 | After any run a session's rows are the 30 greatest instants it ever sampled, each with its last value |
| Samples.KeepingIsEnough | internal/store/samples.go:22-27 | Trimming now and adding later keeps the same instants as adding and trimming once |
| Samples.RewriteKeepsMeaning | internal/store/samples.go:48-113 | For every table, bound and limit, whatever the database answers to each query, the windowed one gives each session the same rows in the same order |
| Samples.SampleStore.AddSample | internal/store/samples.go:15-29 | In place: the sample replaces one at the same instant and only the newest 30 stay, or nothing changes |
| Samples.SampleStore.ListSamples | internal/store/samples.go:48-72 | The rows copied out and reversed in place: oldest first |
| Samples.SampleStore.RecentSamples | internal/store/samples.go:85-113 | Every session is given the values of exactly its own rows of the answer, in order |
| Samples.ReadBothWays | internal/store/samples.go:74-113 | ListSamples and RecentSamples return the same list for a session, on every table and any answers the database may give |
| Notify.NoLostWakeUp | internal/server/events.go:21-98 | In every interleaving: no send on a closed channel and no second close; a live subscriber last nudged before the latest write that owed a publish has a token, an event being sent, or a publish still owed |
| Notify.RunsAreOk | internal/server/events.go:21-98 | Every step keeps the hub's channels and every subscriber's guarantees |
| Notify.ModelStep | internal/tui/model.go:345-365 | Issuing and applying fetches keeps the generations in order and the newest fetch covering |
| NotifyHistory.ReadsAreTold | internal/store/sessions.go:99-113 | While a report holds its mutex, its row is as it read it, unless a prune since has taken it |
| NotifyHistory.SilenceIsTold | internal/server/report.go:83-87 | In every run a step changes the stored rows without owing a publish if and only if it prunes a row that is there, or is a report putting back, as it had read it, a row pruned meanwhile; and every publish owed stands for a change |
| NotifyHistory.AnswersAreTold | internal/tui/model.go:345-365 | Every answer in flight or on a screen is the board, and the version, at the step that served it |
| NotifyHistory.QuietIsServed | internal/tui/model.go:175-180 | Once nothing is under way for a live subscriber whose last fetch succeeded, no change was announced after its answer was served |
| NotifyHistory.QuietIsCurrent | internal/tui/model.go:175-180 | Such a quiet screen has the current version if and only if, since it was served, no row was pruned and none pruned was put back |
| NotifyHistory.QuietShowsReports | internal/tui/model.go:175-180 | A quiet screen was served after every change reports made if and only if no report put back a pruned row since |
| NotifyHistory.QuietLooksRight | internal/tui/model.go:175-180 | Whatever is both on a quiet screen and on the board looks the same on both, so they are equal as soon as they hold the same sessions |
| NotifyHistory.StepsBackIff | internal/tui/model.go:345-352 | In every run an applied answer puts an older board on the screen if and only if its generation is newer, it was served before the one it replaces, and the board changed in between |
| NotifyHistory.AScreenStepsBack | internal/tui/model.go:345-352 | A run from the start in which a screen does step back |
| NotifyHistory.APruneIsSilent | internal/store/prune.go:30-55 | A run from the start that ends with a quiet screen showing a row that was pruned |
| NotifyHistory.ARestoreIsSilent | internal/server/report.go:83-87 | A run from the start that ends with a quiet screen lacking a row that a report put back |
| Hub.Chan.TrySend | internal/server/events.go:44-47 | One slot: a pending nudge absorbs another |
| Hub.Hub.Subscribe | internal/server/events.go:21-28 | A new subscriber has a channel of its own, open and empty |
| Hub.Hub.Unsubscribe | internal/server/events.go:30-38 | A subscribed channel is taken out and closed; one already out is left alone, so none is closed twice |
| Hub.Hub.Publish | internal/server/events.go:40-50 | Every subscriber ends with a nudge pending |
| Hub.VisibleIsTheBoard | internal/server/report.go:83-87 | Against the row that was read: a publish is only ever due for a change of the board, and is due for every one if and only if the write does not put back, unchanged, a row pruned since the read |
| Hub.VisibleExactly | internal/server/report.go:211-240 | A report is worth a publish if and only if its row changed in more than who owns the status, when it was seen and when it started |
| Hub.ReportIsLogged | internal/server/report.go:60-76 | The ledger calls of a report leave its row, a mark raised to the row's output if that is more, and a hook's event in the log |
| Hub.ReportIsCounted | internal/server/report.go:95-177 | And they count, in exactly two places, the mark's growth on the report's own day and the seconds since the previous event on that event's day, both under the row's model |
| Hub.Account | internal/server/report.go:63-76 | One report makes its ledger calls in order: row, rollup, then for a hook the closed interval, each committed or not |
| Hub.HandleReport | internal/server/report.go:48-91 | One report with nothing in between: row merged, ledgers called, and every subscriber nudged exactly when the row is new or changed in more than its heartbeats; a failed write leaves everything |
| Shell.QuoteRoundTrip | internal/install/install.go:52-54 | For every string the shell reads its quoted form as that one word |
| Shell.QuoteIsRead | internal/install/install.go:52-54 | The same from any point of a word, with nothing left open |
| Shell.CommandIsRead | internal/install/install.go:59-64 | For every binary, config path and event: the built command is read as exactly the intended assignment, binary and two arguments if and only if the event, spliced in unquoted, has no character that needs quoting |
| Shell.QuotedIsNoAssignment | internal/install/install.go:59-64 | A quoted binary is never taken for an assignment |
| Install.BuiltIsOwned | internal/install/install.go:74-95 | A leg recognizes its own command: always with a config path; production if and only if neither binary nor event holds a leg marker |
| Install.EscapeContains | internal/install/install.go:52-95 | Quoting neither hides a marker nor makes one |
| Install.StripLegFromMatcher | internal/install/install.go:337-369 | An entry loses exactly the leg's hooks, is dropped only if it held nothing else, and is untouched if it held none; InstallHooks.RemoveLeavesNone says it of the JSON written |
| Install.StripLeg | internal/install/install.go:313-323 | The same over an event's entries, in order |
| Install.MergeHooks | internal/install/install.go:201-221 | The loop computes `Merge`, the function the laws below are about: settings written, unreadable, or a panic |
| Install.RemoveHooks | internal/install/install.go:223-237 | The loop computes `Remove`, in whatever order the map is walked; the next row says what that writes |
| InstallHooks.RemoveLeavesNone | internal/install/install.go:223-280 | After a removal no hook of any entry of any event is the leg's, every event left has an entry, and `hooks` is gone if none is left |
| InstallHooks.MergeLeavesOne | internal/install/install.go:201-221 | After an installation an event named holds exactly one hook of the leg: a command of the built text under the timeout, alone in the last entry, for every tool; other events hold what they held |
| InstallHooks.HooksInstalled | internal/install/install.go:97-119 | A leg reads as installed if and only if some hook of some entry is its own |
| InstallHooks.MatcherHoldsLeg | internal/install/install.go:282-305 | An entry holds the leg exactly when one of its hooks is the leg's |
| InstallHooks.FormerIsOwned | internal/install/install.go:66-95 | A reporting command with the leg's path is its own under either variable, quoted or bare |
| InstallHooks.LegsAreApart | internal/install/install.go:74-95 | Production never owns another leg's command, nor another leg production's unless its binary or event holds a marker |
| Install.MergedSlot | internal/install/install.go:206-219 | After a merge an event holds its foreign part followed by exactly one entry of the leg, however often the event is named; other events are as they were |
| Install.MergeOutcome | internal/install/install.go:201-280 | A merge fails exactly on unreadable settings and panics exactly on settings that are null |
| Install.MergeIsIdempotent | internal/install/install.go:201-221 | Installing twice is installing once, on any settings |
| Install.IdempotentIffOwned | internal/install/install.go:201-221 | Installing is idempotent on every file if and only if the leg owns its built commands |
| Install.UnownedPilesUp | internal/install/install.go:201-221 | Otherwise a second install of a blank file adds entries |
| Install.RemoveUndoesMerge | internal/install/install.go:223-237 | Removing after installing leaves what removing alone leaves |
| Install.ForeignIsKept | internal/install/install.go:307-369 | Every foreign entry and hook survives both, in order, even inside a shared entry |
| Install.UntouchedIsSame | internal/install/install.go:325-369 | An entry holding none of the leg's hooks is handed back as it was |
| Install.OtherSettingsAreKept | internal/install/install.go:239-280 | Settings outside the hooks are unchanged |
| Columns.MeasureTable | internal/tui/render.go:358-367 | The loop computes the width |
| Columns.WidthAdds | internal/tui/render.go:358-367 | Two groups side by side take their widths and one separator; a row adds its gutter |
| Columns.MostDroppable | internal/tui/render.go:344-349 | The first column of the highest positive priority |
| Columns.VisibleColumns | internal/tui/render.go:338-356 | A subsequence: what is missing gives way before everything kept and overflowed at its turn; dropping stopped only because the row fits or nothing droppable is left |
| Columns.OneAnswer | internal/tui/render.go:338-356 | Base and width settle the answer: no other selection meets those terms |
| Columns.RestoringOverflows | internal/tui/render.go:338-356 | Restoring the last dropped column overflows, and every dropped priority is at least every kept one |
| Columns.OverflowColumns | internal/tui/columns.go:140-152 | Exactly the complement, in order |
| Columns.FullOrder | internal/tui/columns.go:66-83 | The saved keys that exist, once each in saved order, then every missing one in built-in order |
| Columns.FullIsPermutation | internal/tui/columns.go:63-83 | For any saved order every column appears exactly once |
| Columns.FullIsOrdered | internal/tui/columns.go:63-83 | Saved columns come in saved order before all others, and those keep the built-in order |
| Columns.FullIsSame | internal/tui/columns.go:63-83 | A complete order is taken as it is |
| Columns.MoveColumn | internal/tui/columns.go:157-172 | The key changes places with its neighbour in the full order; at an edge, or unknown, the saved order comes back as it was |
| Columns.MoveIsUndone | internal/tui/columns.go:154-172 | A move with room is undone by the opposite move |
| SecretEditor.ScreenIsFaithful | internal/client/secret.go:57-99 | After any bytes the echoes replay to exactly one star per buffered byte with the cursor after them |
| SecretEditor.SwallowedIffSevenBit | internal/client/secret.go:57-99 | A complete control sequence typed at rest leaves everything unchanged if and only if it is introduced in the 7-bit code; in the 8-bit code it lands in the token |
| SecretEditor.KeyMeans | internal/client/secret.go:57-99 | What each byte does outside an escape sequence: typed, taken back, cleared, accepted, canceled or ignored |
| SecretEditor.BackspacesTakeBack | internal/client/secret.go:57-99 | Backspaces take back exactly the last bytes typed, one each |
| SecretEditor.EndIsTold | internal/client/secret.go:117-149 | The prompt ends at the first Enter or Ctrl-C outside a sequence, with the secret as it stood, accepted or canceled |
| SecretEditor.Secret.TypeKey | internal/client/secret.go:57-99 | In place, `Key`: the rule for one byte that the screen and sequence lemmas are about |
| SecretEditor.ReadMasked | internal/client/secret.go:117-149 | Keys are taken until one ends the prompt; at the end of input a non-empty secret is kept only at an end of file; every echo is written |

## Left out

- Scanner: paths are numbers, since they are only compared; the window test, the registry lookup and the report built from a snapshot are inputs or absent, as is the test that drops sidecars without turns.
- Lineage: the model and effort a cleared session inherits from its process (`trackLineage`, `pruneLineage`) would add only easy members.
- JSON: transcript lines and settings arrive decoded; case-insensitive key matching, duplicate keys and the byte form of numbers and objects are not modelled, so an untouched entry is equal as a value, not as text.
- Notifications and sentences: the regular expressions that find terminal statuses, tool ids and task ids in text are inputs, already applied.
- Activity text: how a tool call or a set of agents is rendered and capped.
- Scanner.Watch: a file is taken to be determined by its modification time and size, and to have been appended to when it is larger; `Scanner.ResumeIsExact` says what holds without that.
- UsageCount.UsageGrows: token figures are taken to be non-negative.
- Integers are unbounded: 64-bit overflow of token totals and the saturation of durations after 292 years are not modelled.
- LedgerRules.SecondsAreTheSpan: the division of a span by a second is exact, whereas the source goes through a floating-point number that can round up a sub-second remainder of a span longer than about 194 days.
- Samples: the gate that takes at most one sample a minute (`maybeSample`); the last sample's instant is not read.
- Samples.Apply: pruning empties a session's samples here and its row and events in the ledger; in the store that is one transaction.
- Samples.SampleStore.AddSample: its two statements are one step that commits or does nothing.
- Shell: the expansions, operators and double quotes of the shell; a text that holds one of their characters unquoted is outside the lexer.
- Install: independence of one leg from another for config paths that contain each other is not true in general and is not stated.
- Columns: hiding, the picker and the renaming of saved keys would add only easy members; a column's cell and style are not modelled.
- Columns.OverflowColumns: columns have distinct keys, as the built-in ones do.
- SecretEditor: raw mode and its restoration.
- Notify: the keep-alive and the watchdog; a stream that dies ends, and its dashboard, which stays open, subscribes again with the model it had.
- NotifyHistory.QuietIsCurrent: the board is the stored rows, whose look does not change with time. Whenever the daemon serves them it also decides by age which sessions are stale or over (`internal/server/sessions.go:131-141`), and tells nobody when a row ages past that point, or when an otherwise unchanged report makes it fresh again (`internal/server/report.go:80-82`).
- Hub.IsVisible: compares what the signature is made of, field by field; the source joins the fields with `|`, so that two rows whose texts hold that character can have one signature, and the change between them goes unannounced (`internal/server/report.go:217-240`).
- Report: the version gate of watch reports, the fields' text cleaning, and the metrics.
- HTTP, SQLite, the file system, the process table, command dispatch, layout, colours, the web and GNOME clients.
