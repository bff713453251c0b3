# Verified model of the engine's queues, config editor, splitters and scheduler

This project models the parts of the repository whose correctness depends on more than one step:
a message queue that several threads race for, a text editor that keeps finding its place in a
file it is changing, two message splitters, a scheduler whose table must follow a store, and three
small pieces of state that summarise an unbounded history. It proves what those parts promise.

## What is modelled

**The turn queue of an interactive session** (`TurnState`, `QueueHistory`, `TurnProtocol`,
`QueueFates`, `TurnTimes`). Receivers of user messages race one turn owner. A receiver tries the
session lock, queues its message when that fails, and tries again; the owner runs turns, takes the
next message after each result, and gives the lock back only while it holds the state's mutex and
the queue is empty. `TurnState` is the state object, with its methods and the create-time
watermark. `TurnProtocol` is the race, one critical section or one lock attempt per step, with any
number of receivers and any interleaving. `QueueHistory` is the log against which it is judged:
every message that was ever queued has one fate, and the log's order is the order of queueing.
`QueueFates` says when a queued message gets its turn and when it is passed over, and `TurnTimes`
what a turn does to the judgement of other messages. The session's flag (`core/session.go:40-69`)
is one atomic bit.

**Closing agent sessions** (`AgentLifecycle`, `AgentClosing`). Cleanup, stop, recycle and shutdown
take a state out of the table and close its agent session in separate critical sections. No
session is closed twice, and none that was taken is left open.

**The config editor** (`Text`, `ConfigLines`, `LineForms`, `Quote`, `LineSearch`, `Upsert`,
`ConfigSpans`, `BlockFrame`, `Credentials`, `AgentOption`, `AgentTables`, `ConfigFormat`,
`ConfigSpacing`, `ConfigBlocks`, `ConfigReread`, `EditScript`, `ConfigText`). The editor changes a
TOML file as a list of lines: it finds the nested spans of projects and platforms, replaces or
inserts one line, finds the spans again, and finally formats the text. Which entry of the parsed
configuration is meant arrives as a pair of indices. `EditScript` reads a chain of edits as a
script over the lines, and `ConfigReread` says what the next reader of the formatted file finds
under the same indices.

**The two message splitters** (`FenceSplit`, `FenceBounds`, `FenceEnds`, `FenceContent`,
`FenceBalance`, `FenceFill`, `PlainSplit`), over lists of characters. A chunk of the fence-aware
splitter is modelled together with the origin of each of its lines: a whole line of the text, a
part of one, or a fence that was opened again. Most results ask that the text is `Spacious`:
behind the fence that is open at a line, opened again and closed, there is room for at least one
character of it, and every fence line fits in such a chunk whole. That is a walk over the lines;
it does not run the splitter.

**The streaming hold** (`SilentHold`) that keeps a preview back while an answer may still turn out
to be a bare `NO_REPLY`.

**The cron scheduler** (`CronStore`, `CronScheduler`, `CronFields`, `CronFires`, `CronRaces`,
`CronOverlap`): jobs as mutable objects in a store, the scheduler's table and the registrations of
the cron library, scheduled runs that interleave with changes to the store, and calls of the
scheduler that interleave with each other. Whether an expression parses is a predicate.

**Two indexes** (`Dedup`, `DirHistory`), each against the unbounded log it summarises.

Methods follow the loops and assignments of the code and are tied to specification functions; what
the repository promises is proved about those functions, or about every run of a step function.
`dafny verify dfyconfig.toml` checks the whole project.

## Where the code and its documentation differ

- The fence-aware splitter is documented to make chunks "no larger than maxLen"
  (core/markdown_html.go:442). The fit check for an opening fence line does not reserve room for
  the closing fence, so such a chunk can have maxLen + 3 characters. `FenceBounds.DocumentedBoundIff`
  says exactly when the documented bound holds, and `FenceBounds.DocumentedBoundFails` gives a text.
- A text whose open fence line leaves no room for a slice of a long line makes the splitter panic or
  never end. `FenceEnds.EndsIff` and `FenceEnds.EndsWithoutLimitIff` say exactly when, for every text
  and every limit; `FenceEnds.NoRoomFails` gives texts.
- A chunk boundary is documented to close the fence and re-open it, but a part cut from an over-long
  line can itself look like a fence, which the splitter does not see.
  `FenceBalance.ChunksBalancedIff` says for which texts; `FenceBalance.BalanceFails` gives one.
- A queued message is documented to be processed after the current turn (core/engine.go:2308-2309),
  but the watermark it is judged by includes the queue itself, so a timed message with a newer one
  behind it is dropped when it reaches the head. `QueueFates.SettledByTake` says over every run which
  of the two happens, and `QueueFates.QueuedButPassedOver` is a run in which a message is dropped.
- Cleanup without an expected state is documented to avoid races by deleting the table entry after
  the close (core/engine.go:3272-3274). A state that replaced the entry during the close is then
  deleted with it, and its agent session is then never closed.
  `AgentLifecycle.CleanupUnmapsOtherIff` says exactly when, `AgentLifecycle.OrphansStayOpen` what
  follows, and `AgentLifecycle.PlainCleanupUnmapsReplacement` is a run.
- The hold on previews is documented to last until it is known whether the answer is a bare marker
  (core/engine.go:14717-14719). It can last longer: `SilentHold.HeldNeedlesslyIff` says for which
  texts, `SilentHold.HeldNeedlessly` gives two.
- An agent option update is documented to preserve unknown fields and formatting, and the formatter
  behind every write to remove only empty sections (config/config.go:2422-2424, 1375-1380). It takes a
  `[[projects.platforms]]` header that is followed directly by its options table for one, so the
  platforms behind it move up by one. `ConfigText.WrittenIndicesIff` says exactly when
  the indices survive a write, and `ConfigText.IndicesCanBeLost` gives a file on which they do not.
- Values are written with Go's escapes (config/config.go:2826-2828), which are not all TOML's:
  `Quote.TomlReadsQuoted` says exactly which values a TOML reader gets back.
- Scheduled executions are documented to enforce the enabled flag (core/cron.go:662-663), and they
  do; but removing a job leaves its flag alone, so a run that looked the job up before still goes
  through: `CronFires.RemovedCanStillRun`, and exactly when: `CronFires.HolderOfRemovedRunsIff`.
- An update is documented to return an error "if job not found, field is read-only, or value is
  invalid" (core/cron.go:532-533). A string field under another spelling of its name, such as
  `CronExpr`, is set by reflection, past the checks and without a new registration:
  `CronFields.UpdateIsPut` says exactly which updates are applied, `CronFields.UpdateKeepsValidIff`
  which leave a valid job valid, and `CronScheduler.CronScheduler.UpdateJob` which leave the table out
  of step; `CronFields.SpelledExprStrays` is one.
- The scheduler's calls take its lock only around their sections on the table. Which two of them may
  overlap without leaving an entry for a removed or disabled job is `CronOverlap.PairAgreesIff`;
  `CronRaces.RemovedJobStaysRegistered` is such a run.

## Model

| member | source | states |
|---|---|---|
| TurnProtocol.StepKeepsInv | core/engine.go:2300-2321 | every step of any receiver or owner keeps: the lock is held exactly when one thread owns the session, an unlocked session with a queue has a receiver about to retry, the queue is within its cap and in order of create times, and the history accounts for every message |
| TurnProtocol.ReachableInv | core/engine.go:2806-2945 | the same for every reachable state, over runs with any number of receivers, aborts, recalls and clears |
| TurnProtocol.NoLostWakeup | core/engine.go:5059-5085 | whenever the session is unlocked and messages are queued, some receiver is between its append and its second lock attempt |
| TurnProtocol.QuiescentIsDrained | core/engine.go:2505-2537 | when all receivers have returned, the session is unlocked, the queue is empty and no message is without a fate |
| TurnProtocol.OneOwner | core/session.go:40-48 | two threads never own the session at the same time |
| TurnProtocol.TurnsInQueueOrder | core/engine.go:4747-4768 | the turns started from the queue are the messages with that fate in the order of queueing, none overtook one that still waits, and the queue never exceeds the cap |
| TurnProtocol.FatesAreFinal | core/engine.go:1961-1968 | along a run no message changes a final fate, no started turn is undone, and the completed time never decreases |
| TurnProtocol.QueueStep | core/engine.go:2417-2482 | enqueueing, popping, stale drops, notices, recalls and silent clears each keep the cap, the order of times and the accounting, and only extend the history |
| TurnProtocol.LockStep | core/engine.go:5063-5085 | no step leaves the lock without an owner, or leaves a queue behind without a receiver that will look at it |
| TurnProtocol.StepDecreases | core/engine.go:2505-2537 | every step but an arrival uses up work, so nothing can spin |
| TurnProtocol.RunsAreBounded | core/engine.go:2505-2537 | a run without arrivals is no longer than the work at its start |
| TurnProtocol.CanMove | core/engine.go:2300-2321 | as long as a receiver has not returned, some thread can take a step |
| TurnProtocol.EventuallyDrained | core/engine.go:5059-5085 | from any reachable state, every maximal run without arrivals is finite and ends unlocked with an empty queue |
| QueueHistory.EnqueueConsistent | core/engine.go:2437-2466 | appending a message keeps queue, started turns and history in agreement |
| QueueHistory.StartConsistent | core/engine.go:4759-4768 | taking the head as a turn keeps them in agreement, and no message overtakes another |
| QueueHistory.LeaveConsistent | core/engine.go:5049-5057 | dropping any number of messages from the head (stale, with notice or cleared) keeps them in agreement |
| QueueHistory.RecallConsistent | core/engine.go:1911-1946 | recalling an id removes exactly its waiting entries and keeps them in agreement |
| TurnState.InteractiveState.LatestUserMessageWatermark | core/engine.go:356-370 | the loop computes the watermark of completed, in-flight and queued messages |
| TurnState.InteractiveState.IsStaleUserMessage | core/engine.go:1951-1957 | stale means timed and strictly below a positive watermark |
| TurnState.InteractiveState.NoteUserTurnCompleted | core/engine.go:1961-1968 | the completed time takes over the in-flight time if that is larger, nothing else changes; what that is for: TurnTimes.FinishedMakesOlderStale |
| TurnState.InteractiveState.NoteUserMessageAccepted | core/engine.go:1974-1989 | the in-flight time only rises, nothing else changes |
| TurnState.InteractiveState.QueueMessage | core/engine.go:2436-2466 | a stale message is refused, then a full queue refuses, else the message is appended; the whole new state |
| TurnState.InteractiveState.RemoveQueuedMessageByID | core/engine.go:1920-1944 | for one session: exactly the messages with the id go, the order of the rest is kept, and the result says whether there was one |
| TurnState.RemoveQueuedMessage | core/engine.go:1911-1944 | over all sessions, in whatever order they are visited: the first that holds the id loses exactly its messages with it, and no other changes; none is missed |
| TurnState.InteractiveState.TakeNext | core/engine.go:4747-4768 | stale heads are dropped with the watermark taken anew each time, then the head becomes the turn in flight |
| TurnState.InteractiveState.TakeAllForNotice | core/engine.go:5049-5057 | the queue is emptied and handed over in order |
| TurnState.InteractiveState.AdoptPendingFrom | core/engine.go:3067-3077 | a non-empty queue moves from the placeholder to the new state whole and the placeholder's times stay; without a placeholder, or with the state itself, nothing changes |
| TurnState.WatermarkIsMax | core/engine.go:356-370 | the watermark is an upper bound of all completed, in-flight and queued times, and one of them |
| TurnState.StaleLoopUsesOneBound | core/engine.go:5072-5075 | the loop that recomputes the watermark drops exactly the longest prefix below the watermark it started with, and ends under the same watermark |
| TurnState.OfferKeepsAscending | core/engine.go:2437-2466 | positive create times in the queue stay non-decreasing and the cap is kept |
| TurnState.PopKeepsAscending | core/engine.go:4749-4767 | the same for popping |
| TurnState.WithoutKeepsAscending | core/engine.go:1929-1941 | the same for recalling |
| TurnState.WithoutIsFilter | core/engine.go:1929-1941 | recall keeps exactly the messages with another id |
| TurnState.PoppedIsNewest | core/engine.go:4749-4767 | a timed message that gets a turn is not older than the last completed, the in-flight or any queued message |
| TurnState.HeadPassedOverIff | core/engine.go:4749-4752 | a timed head is dropped if and only if a strictly newer message is completed, in flight or queued |
| TurnState.TimedRestShareTime | core/engine.go:4749-4767 | after a timed message is taken, the timed messages left behind have its very time |
| QueueFates.TakeFates | core/engine.go:4747-4768 | a take drops exactly the waiting messages in front of the one it starts, and leaves all behind it waiting |
| QueueFates.TakeSettles | core/engine.go:4747-4768 | it drops only messages that are stale as it begins, and starts only one that is not |
| QueueFates.OnlyTakesSettle | core/engine.go:4747-4768 | no other step of any thread starts a waiting message or drops it as stale |
| QueueFates.StaleIffNewer | core/engine.go:356-370 | a queued message is stale if and only if it has a time and a completed, in-flight or queued message has a later one |
| QueueFates.SettledByTake | core/engine.go:2437-2466 | in every run, a queued message that was started or dropped as stale was settled by one take, and was dropped if and only if it was stale as that take began |
| QueueFates.QueuedButPassedOver | core/engine.go:2308-2309 | a run in which a message that was queued is dropped without a turn, because a newer one waited behind it |
| QueueFates.JudgeIff | core/engine.go:2437-2466 | a message is told it is too old exactly if it is stale, and else that the queue is full exactly if it is |
| TurnTimes.TurnMakesOlderStale | core/engine.go:1974-1989 | in every run: from the step by which a thread accepts, sends or takes a message, and for as long as it deals with it, every older message is stale |
| TurnTimes.FinishedMakesOlderStale | core/engine.go:1961-1968 | in every run: once the turn for a message has got its result, the completed time is at least that message's, and every older message is stale for good |
| TurnTimes.StaleOnlyBehindNewer | core/engine.go:356-370 | in every run: a time is stale only if a message with a later one arrived |
| TurnTimes.StaleStays | core/engine.go:1974-1989 | a step that neither begins a turn nor shortens the queue leaves what is stale stale |
| TurnTimes.TurnWasFresh | core/engine.go:2300-2321 | in every run: a receiver that tries for a turn was not stale at its arrival check |
| TurnTimes.QueuedWasFresh | core/engine.go:2437-2466 | a message that begins to wait was not stale, and there was room |
| AgentLifecycle.StepKeepsInv | core/engine.go:3080-3264 | every step of spawn, recycle, cleanup, stop and shutdown keeps: each open agent session has one holder entitled to close it, and each closed one was closed once |
| AgentLifecycle.ClosedAtMostOnce | core/engine.go:1693-1725 | over every interleaving no agent session is closed twice |
| AgentLifecycle.ExpectedCleanupSparesOthers | core/engine.go:3275-3333 | a cleanup under way with an expected state closes no other state's session, unmaps no other state and maps nothing |
| AgentLifecycle.ExpectedCleanupStart | core/engine.go:3276-3295 | its first step touches no other state, and nothing at all when another state is mapped |
| AgentLifecycle.CleanupUnmapsOtherIff | core/engine.go:3275-3333 | in every reachable state, the last step of a cleanup removes an entry of a state other than the one it captured if and only if it has no expected state and the key is mapped to another one by then |
| AgentLifecycle.OrphansStayOpen | core/engine.go:3275-3333 | along every run, an open agent session whose state has lost its entry and that no actor holds is never closed |
| AgentLifecycle.PlainCleanupUnmapsReplacement | core/engine.go:3275-3333 | a run in which a replacement made during the close is unmapped while its session stays open |
| AgentClosing.TakenIsClosed | core/engine.go:8891-8922 | in every run: a mapped session that a stop, a cleanup or a shutdown takes has been closed exactly once when that actor has finished, and one that is recycled at once |
| AgentClosing.EverySessionAccounted | core/engine.go:3275-3333 | in every run: when no actor is under way, every session ever made has been closed exactly once, or is mapped, or was left behind by a step of the run |
| AgentClosing.OrphanedIff | core/engine.go:3275-3333 | a session held by a mapped state is orphaned by a step if and only if that is a spawn over it, or the end of a cleanup without an expected state that captured another one |
| AgentClosing.OrphanHasCause | core/engine.go:3275-3333 | every orphan of a run was left behind by one of its steps |
| AgentClosing.ActorCanMove | core/engine.go:1693-1725 | an actor that has not finished can take its next step |
| AgentClosing.SpawnMapsFresh | core/engine.go:3080-3264 | a spawn or recycling maps a state that was never mapped, with an open session of its own or none |
| AgentClosing.CleanupUnmapsOwn | core/engine.go:3319-3333 | the last step of a cleanup takes the state it captured out of the table, and touches no other key |
| AgentClosing.TakenIsStopped | core/engine.go:8891-8922 | a session is taken only by a step that marks its state stopped, or by a shutdown |
| AgentLifecycle.RecycleKeeps | core/engine.go:3085-3115 | recycling closes the old session once and gives the new one to the table |
| AgentLifecycle.StopStartKeeps | core/engine.go:8891-8930 | stop keeps that each open session has one holder entitled to close it; that it is closed: AgentClosing.TakenIsClosed |
| ConfigLines.ExtractLineComment | config/config.go:2841-2863 | the loop finds the comment of the escape-aware scanner |
| ConfigLines.ReplacedLineKeepsComment | config/config.go:2789-2797 | for every line and every value that the scanner leaves closed, the comment survives the replacement and the value reads back |
| ConfigLines.CommentKeptIff | config/config.go:2801-2824 | for any literal value, a comment survives if and only if the scanner finds no comment in the value and ends it outside quotes |
| ConfigLines.ReplacedLineMatches | config/config.go:2789-2797 | a replaced line keeps its indentation, carries its key, no other bare key, and is no table header |
| ConfigLines.BareKeyIsUnique | config/config.go:2743-2753 | a line matches at most one bare key |
| ConfigLines.KeyLineMatches | config/config.go:2743-2753 | a written key line matches its own key and no other bare key |
| LineForms.KeyLineIff | config/config.go:2743-2753 | a line carries a bare key if and only if it is the key and an equals sign, with space around the key or not |
| LineForms.HeaderLineIff | config/config.go:2726-2736 | a line is a table's header if and only if it is that header with space in front, and space or a comment behind |
| LineForms.AnyTableIff | config/config.go:2738-2741 | a line starts some table if and only if a bracket is its first visible character |
| LineForms.CommentIs | config/config.go:2841-2863 | the comment begins at the first number sign outside quotes; number signs inside a quoted value are none |
| Quote.QuotedIsClean | config/config.go:2826-2828 | for every value, the comment scanner never stops inside the quoted text and ends behind it outside quotes |
| Quote.QuotedHasNoNewline | config/config.go:2826-2828 | a quoted value is one line |
| Quote.UnquoteOfQuote | config/config.go:2826-2828 | reading Go's escapes back gives the value |
| Quote.PrintableIsKept | config/config.go:2826-2828 | printable text without quotes and backslashes is written as it is |
| Quote.TomlReadsQuoted | config/config.go:2826-2828 | a TOML reader, with or without the \x escape of TOML 1.1, gets every value back whose characters are all safe, and rejects the string of every other value |
| Upsert.UpsertTomlKey | config/config.go:2769-2787 | the loop with its in-place replacement computes the upsert; an insertion leaves the old slice alone |
| Upsert.InsertLinesArray | config/config.go:2755-2767 | a new list with the lines at the index, which is clamped at both ends |
| Upsert.UpsertChangesOneLine | config/config.go:2769-2787 | the first line of the range that carries the key is replaced by one that carries it, or else one is inserted behind the range; no other line changes |
| Upsert.PutGet | config/config.go:2769-2797 | looking up the key after an upsert gives the new value |
| Upsert.OtherKeysUnchanged | config/config.go:2743-2787 | every other bare key reads as before |
| Upsert.PutPut | config/config.go:2769-2797 | a second upsert leaves no trace of the first, comments and indentation included; so upserting twice is upserting once |
| ConfigSpans.BuildRawProjectSpans | config/config.go:2616-2724 | the nested loops compute the spans |
| ConfigSpans.ScanPlatform | config/config.go:2687-2718 | first type line of the main table, first options table and its end |
| ConfigSpans.ScanAgent | config/config.go:2642-2662 | last agent table and last agent options table with their ends |
| ConfigSpans.ProjectsTile | config/config.go:2616-2631 | one span per project header, and the spans tile the file from the first header to the end |
| ConfigSpans.EveryProjectHasSpan | config/config.go:2617-2622 | no project header is missed |
| ConfigSpans.PlatformsTile | config/config.go:2681-2691 | one span per platform header, tiling the project from its first platform to its end |
| ConfigSpans.EveryPlatformPlaced | config/config.go:2699-2717 | the type line is in the main table, the options range lies in its platform, starts with its header and holds no other header |
| ConfigSpans.ScanProvider | config/config.go:2663-2678 | a provider table's end and its first name line |
| ConfigSpans.EveryProviderPlaced | config/config.go:2663-2678 | there is one span per provider table of a project, in order; each starts with its header, holds no other header, and its name line is the first that carries the key |
| BlockFrame.ProjectsKeepIndex | config/config.go:1909-1912 | after an edit that touches no block header, every project is found under the same index, moved with the edit |
| BlockFrame.PlatformsKeepIndex | config/config.go:1909-1912 | the same for every platform of every project |
| BlockFrame.BlockTextKept | config/config.go:1909-1912 | a block that does not meet the edit keeps its text |
| Credentials.SaveFeishuPlatformCredentials | config/config.go:1900-1945 | the chain on the mutable line list computes the model's result, and changes nothing when an index is out of range |
| Credentials.CredentialsSaved | config/config.go:1900-1945 | the chain succeeds exactly for the platforms of the file; then only the body of that platform is edited, it is found again under the same indices and header, and all requested values read back |
| Credentials.OtherTextKept | config/config.go:1900-1945 | all text before and after the platform's body is unchanged, and the numbers of projects and of platforms in each are too |
| Credentials.OtherPlatformKept | config/config.go:1900-1945 | every other platform of every project is found under the same indices with the same text |
| Credentials.OptionStageKeeps | config/config.go:1938-1945 | a later upsert keeps what an earlier one set |
| Credentials.PlatformsApart | config/config.go:2681-2691 | different platforms occupy different lines |
| AgentOption.PatchProjectAgentOption | config/config.go:2451-2483 | the chain on the mutable line list computes the model's result |
| AgentOption.ScanInsertPoint | config/config.go:2460-2470 | in front of the first table of the project, or behind its agent table |
| AgentOption.AgentOptionSet | config/config.go:2451-2482 | the chain succeeds exactly for the projects of the file; then the agent options read the new value under the key, every project and platform keeps its index, and every other project its text |
| AgentOption.TableAdded | config/config.go:2458-2479 | a missing options table is added where the scanner then finds it |
| AgentOption.OtherAgentOptionKept | config/config.go:2481-2482 | every other option of an existing table reads as before |
| AgentTables.OnlyMissingTablesAdded | config/config.go:2458-2479 | the table headers of the project are those it had, with exactly the missing ones added together, behind the last agent table or else behind the project's own header; the agent's type then reads as before, or as the default if there was neither table |
| ConfigFormat.FormatTomlText | config/config.go:1381-1447 | the two passes with their flags compute the formatter |
| ConfigFormat.FirstPass | config/config.go:1384-1406 | a header is skipped exactly when no content line comes before the next header or the end |
| ConfigFormat.FormattedIsCanonical | config/config.go:1408-1446 | the result has no trailing blanks, no two blank lines in a row, a blank line before every header but a first one, and no empty section |
| ConfigFormat.FormatIsIdempotent | config/config.go:1381-1447 | formatting twice is formatting once, for every text |
| ConfigFormat.FormatKeepsContent | config/config.go:1377-1380 | every content line survives in order under the same header occurrence, trimmed only on the right, and none is added |
| ConfigSpacing.FormattedSpacing | config/config.go:1408-1446 | the output is exactly the visible lines without headers of empty sections, trimmed on the right, in order, with a blank line in front of those that had one and of headers, but for the first line |
| ConfigBlocks.FormattedCompact | config/config.go:1377-1447 | formatting leaves exactly the lines that are not blank and not an empty section's header, trimmed on the right, and spaces them |
| ConfigReread.OptionReread | config/config.go:1381-1447 | if every project and platform header has content before the next header, an option found under a pair of indices is found there after formatting |
| ConfigReread.TypeReread | config/config.go:1381-1447 | the same for the type of a platform |
| ConfigReread.AgentOptionReread | config/config.go:1381-1447 | the same for an option of a project's agent |
| ConfigReread.IndicesSurviveIff | config/config.go:1381-1447 | formatting keeps the numbers of projects and of platforms in each if and only if all their headers have content before the next header |
| EditScript.RestIsKept | config/config.go:2755-2797 | under any script of edits, every line that no edit replaced is in the result unchanged |
| EditScript.OrderIsKept | config/config.go:2755-2797 | and all lines keep their order |
| EditScript.ReplacedCarriesKey | config/config.go:2743-2753 | a line that was replaced carried the key of the edit that replaced it |
| EditScript.ScriptKeeps | config/config.go:2755-2797 | a script of one-line edits leaves no header without content that had some |
| ConfigText.ReadThenWrite | config/config.go:2596-2614 | reading a file and joining its lines adds at most the final newline |
| ConfigText.WriteThenReadIff | config/config.go:2596-2614 | joined lines are read back if and only if they are not a single empty line |
| ConfigText.WrittenContent | config/config.go:3174-3176 | what a write leaves in the file has the content of the lines, section by section |
| ConfigText.RereadIsFormatted | config/config.go:3174-3176 | the lines the next reader splits the file into are the formatted lines |
| ConfigText.WrittenIndicesIff | config/config.go:3174-3176 | every project and platform is found in the written file under its index if and only if all their headers have content before the next header |
| ConfigText.IndicesCanBeLost | config/config.go:3174-3176 | a file whose platform is not found again after a write |
| ConfigText.CredentialsScript | config/config.go:1900-1945 | the credentials chain is a script that replaces or inserts one line for each requested key, in order, and adds the options table, and no more, to a platform that has none |
| ConfigText.AgentOptionScript | config/config.go:2451-2482 | the agent option chain is a script of one line for its key and of the tables that are missing, with the default type in a new agent table |
| ConfigText.CredentialsWritten | config/config.go:1900-1948 | for every file text that has the platform the chain succeeds and the file keeps the content of the edited lines; and if all project and platform headers of the file have content before the next header, the next reader finds the platform under the same indices with every requested value |
| ConfigText.AgentOptionWritten | config/config.go:2426-2483 | the same end to end for the agent option chain: the next reader finds the new value among the options of the project's agent |
| FenceSplit.SplitMessageCodeFenceAware | core/markdown_html.go:447-560 | the loop with its shared flush computes the model's chunks, or panics or diverges exactly where the model says; what those chunks are: FenceBounds, FenceContent, FenceBalance and FenceFill |
| FenceSplit.CutLongLine | core/markdown_html.go:509-541 | the inner loop over one long line |
| FenceSplit.FlushChunk | core/markdown_html.go:476-491 | closing and re-opening the fence around a chunk boundary |
| FenceBounds.SplitBound | core/markdown_html.go:442-491 | for a spacious text the splitter ends, slices within bounds, and every chunk has at most maxLen characters, or at most maxLen + 3 if it ends on an opening fence line |
| FenceBounds.SplitMessageBound | core/markdown_html.go:447-560 | the same bound on the texts that are returned: over maxLen, and then by at most 3, only those whose last line of the text is an opening fence line |
| FenceBounds.DocumentedBoundIff | core/markdown_html.go:442-446 | every chunk has at most maxLen characters if and only if no opening fence line is placed with less than three characters of room behind it |
| FenceBounds.DocumentedBoundFails | core/markdown_html.go:442-446 | a text on which the documented bound fails |
| FenceBounds.RoomyIsSpacious | core/markdown_html.go:509-541 | a text whose fence lines all have at most maxLen/2 - 3 characters is spacious |
| FenceEnds.EndsIff | core/markdown_html.go:509-541 | for every text and every limit of at least one: the splitter ends if and only if no line that has to be cut meets a started chunk under an open fence line of maxLen - 5 characters or more; it panics if the first such fence line is longer than that, and never ends if it has just that length |
| FenceEnds.EndsWithoutLimitIff | core/markdown_html.go:509-541 | for limits below one: it ends on a text of empty lines only, with no chunk; else it never ends for limit zero and panics below |
| FenceEnds.NoRoomFails | core/markdown_html.go:509-541 | texts on which it panics and on which it never ends |
| FenceContent.SplitKeepsText | core/markdown_html.go:493-558 | whenever the splitter ends: without re-opened fences and appended closers, and with the parts of lines joined, the chunks are exactly the lines of the text in order, if and only if no line was lost to an empty chunk; else they are the others |
| FenceContent.SpaciousLosesNothing | core/markdown_html.go:476-491 | no line of a spacious text is lost |
| FenceContent.EndedBound | core/markdown_html.go:442-491 | whenever the splitter ends and loses no line, every chunk has at most maxLen + 4 characters |
| FenceContent.SplitLinked | core/markdown_html.go:476-491 | for a spacious text each chunk is closed exactly when an odd number of its whole and re-opened lines are fences, and only then does the next one begin by opening the last of them again |
| FenceBalance.AtMostOnePart | core/markdown_html.go:509-541 | whenever the splitter ends, no chunk holds two parts of over-long lines |
| FenceBalance.ChunksBalancedIff | core/markdown_html.go:543-558 | for every spacious text over maxLen, all chunks have balanced fences if and only if no slice of an over-long line looks like a fence, where the width of the slices follows from maxLen and the fence that is open at the line |
| FenceBalance.ChunksBalanced | core/markdown_html.go:543-558 | so for a spacious text in which no line with three backticks is over-long, every chunk has balanced fences |
| FenceBalance.TicksWholeSuffices | core/markdown_html.go:493-541 | lines with three backticks that all fit where they stand leave no slice that looks like a fence |
| FenceBalance.BalanceFails | core/markdown_html.go:509-541 | a text whose over-long line leaves a chunk that is nothing but an opening fence |
| FenceFill.ChunksAreFilled | core/markdown_html.go:493-541 | for a spacious text each chunk ends only where it has to: inside a line when it is full, in front of a whole line that does not fit behind it, in front of a cut line whose first part fills a chunk of its own |
| FenceFill.MessageCount | core/markdown_html.go:442-560 | so if every fence line leaves room for w characters, n messages take at least (n - 1) * w / 2 characters of the text; a text within the limit is one message |
| PlainSplit.SplitMessage | core/engine.go:13622-13652 | each chunk is cut behind the last newline of its window if that is in the window's second half, else at its end; and what happens for limits below one, the empty text included |
| PlainSplit.SplitIsFaithful | core/engine.go:13622-13652 | the chunks concatenate to the text, have at most maxLen characters, all but the last more than half of that, and so are few |
| PlainSplit.SplitIsUnique | core/engine.go:13636-13648 | there is only one such splitting |
| SilentHold.StreamSegment | core/engine.go:4219-4222 | after each chunk the preview is empty while the text could still be a marker and is the whole text otherwise; held text is released at most once |
| SilentHold.EllipsisIff | core/engine.go:14728-14731 | a chunk is left out if and only if it is three dots or one ellipsis with space around it |
| SilentHold.AccumulatedIsSaid | core/engine.go:4210-4219 | the segment is all other chunks, joined |
| SilentHold.SilentReplyIff | core/engine.go:14694-14704 | a silent reply is the marker, each letter in either case, between pattern space |
| SilentHold.ReleaseIsFinal | core/engine.go:14717-14726 | a text that cannot be a marker stays so whatever follows |
| SilentHold.ReleasedIsNeverSilent | core/engine.go:14694-14704 | a released segment never turns out to be a silent reply |
| SilentHold.SilentNeverPreviews | core/engine.go:4313-4318 | a segment that is a bare marker in the end never previewed anything |
| SilentHold.CanTurnSilentIff | core/engine.go:14694-14704 | for every text: something could still make it a silent reply if and only if it is pattern space, or a prefix of the marker in any case between pattern space, whole if space follows it |
| SilentHold.HeldNeedlesslyIff | core/engine.go:14720-14726 | exactly which held texts nothing can make a silent reply: those with other space in front, with space behind a partial marker, or with other space behind a whole one |
| SilentHold.HeldNeedlessly | core/engine.go:14720-14726 | two of them, whatever follows |
| CronStore.CronStore.Remove | core/cron.go:159-172 | the first job with the id goes, the others stay in order |
| CronStore.CronStore.SetEnabled | core/cron.go:174-187 | the flag of the first job with the id is set in place, nothing else changes |
| CronStore.CronStore.Get | core/cron.go:270-279 | the first job object with the id |
| CronStore.CronStore.Update | core/cron.go:283-304 | one field of the first job with the id is set in place, and read-only fields, missing jobs and mistyped values change nothing; which field reads what: CronFields.PutIsLens |
| CronStore.OnlyTwoFieldsMatter | core/cron.go:306-389 | no field but enabled and cron_expr, and other spellings of the latter, changes what is scheduled |
| CronStore.ToExportedFieldName | core/cron.go:391-409 | the loop computes the struct's name for a spelling |
| CronScheduler.CronScheduler.AddJob | core/cron.go:481-496 | errors in order; else the normalised job is stored and has an entry exactly if enabled; agreement is kept for an id that is not stored yet |
| CronScheduler.CronScheduler.RemoveJob | core/cron.go:498-506 | entry and job go; agreement is kept |
| CronScheduler.CronScheduler.EnableJob | core/cron.go:508-517 | the job is enabled, and has an entry exactly if its expression parses; agreement is kept |
| CronScheduler.CronScheduler.DisableJob | core/cron.go:519-532 | the job is disabled and its entry goes; agreement is kept |
| CronScheduler.CronScheduler.UpdateJob | core/cron.go:534-612 | outcome and new data of the job by field and value; agreement is kept on every path, failures included, but for an update that makes an enabled job due or not due under another spelling of cron_expr, and then it is lost |
| CronScheduler.CronScheduler.Start | core/cron.go:463-475 | afterwards exactly the stored jobs that are enabled and parse have entries |
| CronScheduler.CronScheduler.ScheduleJob | core/cron.go:634-652 | an old registration is replaced by a fresh one, and table and registrations stay in one-to-one correspondence; if the expression does not parse, the old registration is gone and its entry is left behind |
| CronScheduler.CronScheduler.EntryIffDue | core/cron.go:463-475 | after Start an id has an entry if and only if its job is stored, enabled and has a schedule that parses |
| CronScheduler.CronScheduler.OneRegistrationEach | core/cron.go:413-421 | an id with an entry has exactly one live registration, an id without one has none |
| CronScheduler.RescheduledAreSet | core/cron.go:572-599 | the checks before the entry is removed guarantee that the update behind it succeeds |
| CronFields.PutIsLens | core/cron.go:306-389 | an update is refused if it reaches no field; else the field it names, or spells otherwise, reads the given value, numbers without their fraction, and every other field reads as before |
| CronFields.UpdateIsPut | core/cron.go:534-612 | UpdateJob applies an update if and only if its field is named and the value good for it, or a string field is spelled otherwise; then the laws of PutIsLens hold of the stored job, else it is as it was |
| CronFields.RefusalIff | core/cron.go:542-587 | which mistake the caller is told about |
| CronFields.UpdateKeepsValidIff | core/cron.go:534-612 | an applied update leaves a valid job valid if and only if its value is no blank session key, negative timeout or unknown mode |
| CronFields.SpelledExprStrays | core/cron.go:380-409 | under the spelling CronExpr an enabled job gets a schedule that does not parse, and the update succeeds |
| CronFields.ExportedJoins | core/cron.go:391-409 | words joined by an underscore are joined without it |
| CronFields.ExportedWord | core/cron.go:391-409 | and each gets a capital |
| CronFields.NormalizeIff | core/cron.go:74-87 | exactly which texts mean which session mode; any other is kept without the space around it |
| CronFields.ValidateIff | core/cron.go:89-114 | a job is valid if it breaks no rule, else it is told the first rule it breaks |
| CronScheduler.CronScheduler.ExecuteJob | core/cron.go:654-686 | without interleaving a scheduled run goes through exactly if its job is stored and enabled |
| CronFires.RanWasStoredAndEnabled | core/cron.go:654-686 | in any interleaving, with triggers at any time, a run that went through found its job stored at its lookup and enabled at its check |
| CronFires.StepFires | core/cron.go:654-686 | only a run's own check can make it go through, and only its own lookup gives it a job |
| CronFires.DisabledNeverRuns | core/cron.go:680-686 | a disabled job is not run until it is enabled again, not even by a run that looked it up before |
| CronFires.RemovedIsSealed | core/cron.go:159-172 | a removed job object never changes again and no other run gets hold of it |
| CronFires.HolderOfRemovedRunsIff | core/cron.go:654-686 | a run that holds a removed job goes through at its check if and only if the job was enabled when it was removed |
| CronFires.RemovedCanStillRun | core/cron.go:654-686 | an interleaving in which a job runs after its removal |
| CronRaces.SeparatedCallsAgree | core/cron.go:481-612 | any number of calls for one id, one critical section per step: if none that removes or disables the job overlaps one that schedules it, then whenever all have returned the id has an entry if and only if its job is stored and enabled |
| CronOverlap.PairAgreesIff | core/cron.go:481-612 | two calls agree in every interleaving, from every state at rest, if and only if both turn the job off, neither does, or one adds a disabled job |
| CronRaces.RemovedJobStaysRegistered | core/cron.go:498-517 | a removal during an enabling call leaves a registration for the removed job |
| Dedup.MessageDedup.IsDuplicate | core/dedup.go:24-44 | a message is a duplicate exactly when its id is not empty and was accepted at most the TTL ago, and only entries that old are kept |
| Dedup.AcceptedApart | core/dedup.go:24-44 | two accepted calls for one id are more than the TTL apart |
| Dedup.EveryCallCovered | core/dedup.go:24-44 | every call with an id was accepted or follows an accepted one for that id within the TTL |
| DirHistory.DirHistory.Add | core/dir_history.go:37-65 | the directory is first, the list within the size, other projects unchanged, an empty one ignored; the list stays the start of the unbounded one |
| DirHistory.DirHistory.SetMaxSize | core/dir_history.go:115-123 | at least one; lists are not touched until the next addition |
| DirHistory.DirHistory.FixedSizeIsExact | core/dir_history.go:37-65 | with a size that never changed, the list is exactly the first maxSize directories of the unbounded list, despite eviction and later visits |
| DirHistory.RecentIsByLastVisit | core/dir_history.go:20 | the unbounded list holds each visited directory once, ordered by its last visit |
| DirHistory.DirHistory.Get | core/dir_history.go:85-95 | the directory at a 1-based index, or the empty one |
| DirHistory.DirHistory.Previous | core/dir_history.go:97-100 | the directory visited before the last one |
| DirHistory.DirHistory.Contains | core/dir_history.go:102-112 | exactly the listed directories |

## Left out

- Inline auto-compress and `runCompress` (core/engine.go:4718-4743): they release the lock and the caller drains and unlocks again, so ownership of the lock does not hold across them.
- Unlocks without a drain: a failed agent start, the drain's exit on a dead agent, idle session rotation and the heartbeat's lock probe. The death of an agent appears only as the step that clears the queue with a notice.
- The unsolicited reader, which is restarted after the unlock; permission prompts; hooks.
- Replacement of the state object while a receiver still holds the old pointer: adoption is one atomic step on two states.
- QueueStep: the cap is a fixed number per run; the configured value is not modelled.
- The quiet-mode separators and card throttling of streaming: one segment, with a preview that accepts every append.
- Which project and platform the parsed configuration selects; TOML decoding beyond the escapes of a string; and any claim that formatting keeps TOML's meaning, since an array row that starts with a bracket looks like a header to the line scanner.
- The table of printable characters behind `strconv.Quote` is a parameter, and strings have no invalid UTF-8.
- FenceBounds.SplitBound: asks for a spacious text; beyond that, FenceEnds.EndsIff says when the splitter ends and FenceContent.EndedBound bounds its chunks by maxLen + 4.
- FenceContent.SplitLinked: asks for a spacious text, since a fence line that is longer than a chunk is cut like any other line.
- FenceBalance.ChunksBalancedIff: asks for a spacious text, for the same reason.
- CronRaces.SeparatedCallsAgree: expressions parse; UpdateJob appears with the fields that reschedule.
- The spelling `ID` of a field in an update, which by reflection gives a stored job another id: the model refuses it.
- CronScheduler.CronScheduler.AddJob: agreement is promised only for an id that is not stored yet; ids are drawn at random (core/cron.go:736-742).
- Failures of saving the store or the history file, JSON, cron expression parsing, run timeouts and the bookkeeping of runs.
- Dedup.MessageDedup.IsDuplicate: the clock is monotonic, as Go's is within a process.
- Platform input and output, cards, previews, typing, speech, HTTP and WebSocket handling, shell execution, translation, and Markdown to HTML conversion: no protocol or arithmetic of their own to prove.
