# A verified model of the agent core's stateful parts

The agent keeps its durable state in append-only logs and small JSON files, and drives it from concurrent asynchronous
calls. This project states what those parts promise and proves it of a Dafny model of them:

- **The control plane.** Every approval, question and plan is an event in an append-only file. `Locks` gives the two
  promise-chain locks as step systems that refine one first-come-first-served queue; `Ledger` writes the file under such
  a lock one character at a time, with I/O errors and crashes anywhere, and `LedgerInputs` ties what it writes to what was
  asked; `Projection` and `ProjectionRecords` fold the events; `RequestStore` and `RequestOutcomes` interleave reads and
  appends of any number of resolving and cancelling calls, `RequestCreation` of creating ones; `SessionModes`,
  `PlanLifecycle`, `PlanContents`, `PlanOrder` and `PlanOrderExact` put the plan approval protocol and the session's
  permission mode on top.
- **Cron.** `CronParser` reads the five fields, whose grammar `CronGrammar` gives on its own; `CronSearch` runs the
  minute-by-minute search under its step bound over the proleptic Gregorian calendar of section 21.4.1 of ECMA-262
  (`Calendar`); `CronScheduler` fires, counts failures and keeps the index file, and `CronFiring` says what firing and
  patching do to a record. `DateRange` uses the same calendar.
- **Server-sent events.** `SseLines`, `AnthropicSse` and `GenericSse` hold the three incremental parsers, and relate
  them to the line and dispatch rules of section 9.2.6 of the WHATWG HTML Standard; `SseLimits` says where they part,
  `AnthropicPayloads` what odd payloads mean; `WebFrames` writes frames for the web parser and reads them back.
- **Migrations.** `Migrations` runs the version chain on a disk whose operations may fail or be cut off by a crash;
  `MigrationSteps` says what each step of the chain is.
- **The turn.** `TurnLoop` and `TurnCommit` hold the model-calling loop with its rewinding retries and the commit retries;
  `Conversation` the messages they send, `TurnPrompts` what each prompt continues, `TurnRecord` what a turn leaves behind.
- **Others.** `Tournament` (worker pool and ranking), `TelegramSplit` (message splitter), `Transcript` (log with a read cache).

Code that changes fields is a class or a method proved against a specification function; calls that interleave at `await`
points are step systems, with theorems about every run. An assumption about the outside (a codec, a hook, the tool
dispatcher, a clock) is a parameter with its law as a precondition. Each law assumed of a codec is met by some codec,
built of self-delimiting names (`Names`, `JsonCodec`, `LedgerCodec`, and one lemma each in `Transcript` and `Migrations`).

Some lemmas without a row say of one function, field by field and without its own parts, what it gives: what a fire or a
patch does to a cron (`CronFiring`), what a provider's payload makes (`AnthropicPayloads`), where the identity block goes
(`TurnPrompts`), what a child's run comes to (`Tournament`). They fix the meaning of what the theorems speak of.

Where the code and its own comments disagree, the model follows the code:

- src/cron/cronParser.ts:89-90 says the bound of four years is always enough. Two leap days are at least 1461 days apart
  and the search covers 1460, so a schedule for 29 February alone fails when asked again after its last fire of that day.
  `CronSearch.NoFireTimeExactlyWhen` states for every expression when the search fails, and
  `CronScheduler.LeapDayCronIsDisabled` what the scheduler then does.
- src/llm/sseUtils.ts:209 says the generic parser stops on `[DONE]`. It passes the line over and reads on.
- src/spawn/Tournament.ts:20-21 says scorer failures are absorbed. A scorer that throws rejects the tournament.
- src/storage/Transcript.ts:147-158 extends the cache by the entry appended, without looking at what else is in the file:
  `Transcript.CacheMissesOtherWriters` and `Transcript.TornTailKeepsEntryExactlyWhen` say exactly when that is right.
- src/cron/CronScheduler.ts:45 says a cron is shut down after five failures. A hydrated record without a count is not,
  until a restart brings its NaN back as null: `CronScheduler.ShutDownExactlyWhen`, `CronScheduler.HydrateAfterPersist`.
- src/Turn.ts:142 says the iteration limit is clamped to 5 to 1000. Outside it is 200: `TurnRecord.MaxIterationsIs`.
- src/Turn.ts:428-490 guards the loop of `execute` against a reply without text. The loop that samples again after a
  blocked commit has no such guard: `TurnCommit.CommittedTextExactlyWhen` says when a committed turn has text.

## Model

| member | source | states |
|---|---|---|
| Calendar.YearIsUnique | src/cron/cronParser.ts:104-112 | the year a day number falls in is the only one whose first day is at or before it and whose next year's is after it |
| Calendar.CivilRoundTrip | src/tools/DateRange.ts:81-103 | a civil date becomes a day number that reads back as that year, month and date |
| Calendar.DayRoundTrip | src/tools/DateRange.ts:81-103 | a day number reads as a civil date that becomes that day number again |
| Calendar.MakeDayInYear | src/tools/DateRange.ts:91-103 | a month and a date of any size, out of range included, land where counting from the first of the month leads |
| Calendar.NextDay | src/cron/cronParser.ts:97-100 | the next day number is the next date of the month, the first of the next month after the last, and 1 January after 31 December |
| Calendar.WeekDayAdvances | src/cron/cronParser.ts:110-112 | the weekday goes up by one a day, around the week |
| CronParser.ParseField | src/cron/cronParser.ts:58-84 | the loops over pieces build exactly the set of values that some piece selects, or give the leftmost piece's error |
| CronParser.FirstErrorAt | src/cron/cronParser.ts:60-82 | of several bad pieces the leftmost one's error is reported |
| CronParser.SteppedMembers | src/cron/cronParser.ts:63-66 | stepping from the low bound adds exactly the values in range that differ from it by a multiple of the step |
| CronParser.FieldIsInRange | src/cron/cronParser.ts:58-84 | an accepted field is a nonempty set of values within its range |
| CronParser.ParseCron | src/cron/cronParser.ts:42-56 | the five fields of the trimmed, lower-cased, expanded expression, or the first error; the names every object inherits throw |
| CronParser.ParsedFieldsAreAccepted | src/cron/cronParser.ts:24-56 | whatever parses is five nonempty sets within the five ranges |
| CronParser.EveryAcceptedSetIsWritable | src/cron/cronParser.ts:42-84 | every five such sets have an expression that parses to exactly them |
| CronGrammar.ListMeans | src/cron/cronParser.ts:58-84 | a comma list of `*`, `*/n`, `a-b` and numbers in range means the union of all, the multiples of n from the low bound, the values from a to b, and the numbers |
| CronGrammar.BadListMeans | src/cron/cronParser.ts:58-84 | with a zero step, a range out of order or out of bounds, or a number out of bounds the list is refused, with the message for the first such piece |
| CronGrammar.ExpressionMeans | src/cron/cronParser.ts:42-56 | five such lists, with any white space around and between them, mean their five unions, in the order of the fields |
| CronGrammar.ExpressionIsRefused | src/cron/cronParser.ts:42-84 | the first bad piece of the first bad field refuses the expression |
| CronGrammar.CountIsRefused | src/cron/cronParser.ts:45-48 | any other number of lists is refused |
| CronGrammar.ShorthandMeans | src/cron/cronParser.ts:32-44 | each shorthand, in any case and with white space around it, means its five sets |
| Text.ParseIntReads | src/cron/cronParser.ts:62-79 | white space in front, a sign and what follows the digits: the number read is that of the digits |
| CronSearch.SetSecondsRoundsDown | src/cron/cronParser.ts:95 | setting seconds and milliseconds to zero gives the whole minute at or before the time |
| CronSearch.SetMinutesAdvances | src/cron/cronParser.ts:99 | one minute past the hour's last carries into the hour, the day, the month and the year |
| CronSearch.SizeTellsRestriction | src/cron/cronParser.ts:109-110 | comparing set sizes tells a restricted field from an unrestricted one |
| CronSearch.MatchesIsFiring | src/cron/cronParser.ts:104-119 | the match on a Date is the `crontab` rule of the Shell and Utilities volume of POSIX.1-2017, day of month OR day of week when both are restricted |
| CronSearch.Search | src/cron/cronParser.ts:96-100 | the stepping loop finds the first matching minute among the next `maxSteps`, or finds that there is none |
| CronSearch.GetNextFireAt | src/cron/cronParser.ts:92-102 | returns the specified next fire time, a parse error, or that none was found |
| CronSearch.NextFireIsLeastMatch | src/cron/cronParser.ts:92-102 | a returned time is a whole local minute strictly after `after` that matches, and no earlier one does |
| CronSearch.OrdinaryPossibleIsExact | src/cron/cronParser.ts:104-119 | the condition on the fields by which they can match a date other than 29 February is exact |
| CronSearch.OnlyLeapDaysMatch | src/cron/cronParser.ts:104-119 | fields without such a date match exactly the leap days, or nothing |
| CronSearch.OrdinaryFoundWithin366Days | src/cron/cronParser.ts:96-100 | fields that can match an ordinary date are found within 366 days of any start |
| CronSearch.BoundOf366DaysIsTight | src/cron/cronParser.ts:96-100 | one minute less than 366 days is not enough for a certain schedule and start |
| CronSearch.SearchFailsExactlyWhen | src/cron/cronParser.ts:96-101 | for all accepted fields and starts the search fails exactly when no ordinary date can match and the next leap day's times lie beyond the 2,102,400 steps |
| CronSearch.NoFireTimeExactlyWhen | src/cron/cronParser.ts:86-102 | for every well-formed expression and time, when `getNextFireAt` throws for want of a fire time |
| CronSearch.LeapDayScheduleFailsAfterFiring | src/cron/cronParser.ts:89-101 | a 29 February schedule always fails when asked again after its last matching time on that day |
| CronSearch.LeapDayOf2024 | src/cron/cronParser.ts:89-101 | "0 0 29 2 *" fires at midnight of 29 February 2024, and asked again at that time it throws |
| CronScheduler.HydrateAfterPersist | src/cron/CronScheduler.ts:119-165 | hydrating what was persisted restores the durable crons that are not internal, in order, a NaN count having become null |
| CronScheduler.HydrateRestoresExactlyWhen | src/cron/CronScheduler.ts:119-165 | the restored crons are the same records exactly when none has a NaN failure count |
| CronScheduler.RestartKeepsCrons | src/cron/CronScheduler.ts:119-165 | after a restart the crons are sound, match the index, and would be written the same again |
| CronScheduler.NothingLeftDue | src/cron/CronScheduler.ts:209-238 | after a tick no enabled cron is due at the time the tick began; one that fired, or was below the failure maximum, is below it if enabled |
| CronScheduler.ShutDownExactlyWhen | src/cron/CronScheduler.ts:226-230 | after n failures in a row a cron is enabled exactly when its count is no number or stays below the maximum |
| CronScheduler.LeapDayCronIsDisabled | src/cron/CronScheduler.ts:234-238 | a cron for 29 February alone is disabled by the tick that fires it for the last time that day |
| CronScheduler.CronOf2024IsDisabled | src/cron/CronScheduler.ts:234-238 | a cron "0 0 29 2 *" that fires at midnight of 29 February 2024 is disabled, whether its handler fails or not |
| CronScheduler.FiredIsSound | src/cron/CronScheduler.ts:214-239 | whatever the record was, older versions' included, after one firing it is enabled only below the failure maximum |
| CronFiring.NextTimeIsFirstMatch | src/cron/CronScheduler.ts:214-239 | while a cron is enabled its next time is the first minute behind the end of its handler that its fields match |
| CronFiring.FiredMeans | src/cron/CronScheduler.ts:214-239 | what a fire does to each field, after a success, a failure, a last failure, and without a next time |
| CronFiring.CallIsInPlace | src/cron/CronScheduler.ts:208-222 | the handler of a due cron is called behind those of the due crons before it |
| CronFiring.CallIsOfDue | src/cron/CronScheduler.ts:208-222 | no other handler is called |
| CronScheduler.LegacyRecordsAreKept | src/cron/CronScheduler.ts:125-139 | an index written before there was a `durable` field gives the same crons, all durable |
| CronScheduler.Scheduler.constructor | src/cron/CronScheduler.ts:97-107 | a scheduler starts empty |
| CronScheduler.Scheduler.Hydrate | src/cron/CronScheduler.ts:119-143 | the crons are the index's records, later ones with the same id in the earlier one's place; a file that is not JSON is an error; any file leaves distinct ids, and soundness exactly when its records have it |
| CronScheduler.Scheduler.Persist | src/cron/CronScheduler.ts:158-165 | the index becomes the durable crons that are not internal, in order |
| CronScheduler.Scheduler.RegisterInternal | src/cron/CronScheduler.ts:175-199 | adds an internal cron with its next fire time once; keeps the index equal to the durable crons |
| CronScheduler.Scheduler.Tick | src/cron/CronScheduler.ts:204-245 | handlers of the due crons are called once each in map order, every record and the clock end as specified, nothing stays due, a changed tick writes the index; soundness is kept if it held; a nested tick changes nothing |
| CronScheduler.Scheduler.Create | src/cron/CronScheduler.ts:247-283 | adds the record, or fails and changes nothing; distinct ids are kept, a matching index and soundness too if they held |
| CronScheduler.Scheduler.Update | src/cron/CronScheduler.ts:301-326 | patches the record, re-enabling resets its failures, or fails and changes nothing; the index is the new snapshot; soundness is kept if it held |
| CronScheduler.Scheduler.Delete | src/cron/CronScheduler.ts:328-336 | removes the cron, refuses internal ones, reports missing ones; the index is the new snapshot; soundness is kept if it held |
| DateRange.AddDaysShifts | src/tools/DateRange.ts:81-85 | adding days on the UTC date moves the day number by that many, across months and years |
| DateRange.LastNDaysCoversN | src/tools/DateRange.ts:155-157 | `last_n_days` covers exactly n days ending with the anchor |
| DateRange.ExplicitCountsBothEnds | src/tools/DateRange.ts:114-122 | explicit dates are refused exactly when missing or out of order, and count both ends |
| DateRange.PreviousMonthIsWholeMonth | src/tools/DateRange.ts:99-103 | `previous_month` covers exactly the days of the month before the anchor's, January included |
| DateRange.MonthToDateIsMonthSoFar | src/tools/DateRange.ts:158-160 | `month_to_date` counts the day of the month and covers exactly the month so far |
| DateRange.YearToDateIsYearSoFar | src/tools/DateRange.ts:163-166 | `year_to_date` counts the day of the year and covers exactly the year so far |
| DateRange.ToDateCountsAreRightExactlyWhen | src/tools/DateRange.ts:91-97 | Date.UTC reads the years 0 to 99 as 1900 to 1999; the counts are right exactly outside them |
| DateRange.PreviousMonthIsRightExactlyWhen | src/tools/DateRange.ts:91-103 | `previous_month` covers exactly the month before the anchor's if and only if the year is not one of 0 to 99 |
| SseLines.LinesOfPieces | src/llm/sseUtils.ts:89-94 | the complete lines of a stream in two pieces are those of the first, then those of its remainder with the second |
| SseLines.LinesAgree | src/llm/sseUtils.ts:89-95 | on a stream whose CRs all precede LFs, splitting at LF gives the lines of section 9.2.6 of the WHATWG HTML Standard but for a CR at their end |
| SseLines.CleanStreamsFrameAsDispatched | src/llm/sseUtils.ts:94-107 | when a stream is plain (every CR precedes an LF; every block is finished and has at most one data line, no event line behind it, no bare `event` or `data` and no line of white space) and the names and data dispatched are clean (no white space around them, no data empty or `[DONE]`), the parser reads the events and data that section 9.2.6 dispatches |
| SseLimits.AgreementNeedsCleanValues | src/llm/sseUtils.ts:94-107 | on any stream: where the two agree, every name and data dispatched is clean |
| SseLimits.PlainStreamsAgreeExactlyWhen | src/llm/sseUtils.ts:89-107 | on plain streams the two agree exactly when all that is dispatched is clean |
| SseLimits.BlockAgreesExactlyWhen | src/llm/sseUtils.ts:94-107 | on a block of one event and one data line they agree exactly when its name and data are clean |
| SseLimits.EveryConditionIsNeeded | src/llm/sseUtils.ts:89-107 | seven streams, one for each condition of plain streams, with clean values, on which they part |
| AnthropicSse.ParseAnthropicSse | src/llm/sseUtils.ts:73-205 | for every stream and every way of cutting it the events are those of the uncut stream, early stops included |
| AnthropicSse.StopsEarly | src/llm/sseUtils.ts:184-196 | once a terminal frame is read, later chunks change nothing |
| AnthropicSse.ExactlyOneTerminalEvent | src/llm/sseUtils.ts:184-205 | every stream ends in exactly one `message_end` or `error`, last, unless the parser throws, and then it has none |
| AnthropicSse.ThrowsExactlyOnNull | src/llm/sseUtils.ts:109-199 | the parser throws exactly when it reads a payload that is JSON null under an event whose payload it looks into |
| AnthropicSse.NullPayloadThrows | src/llm/sseUtils.ts:109-199 | a stream that throws: `null` under any such event, behind any frames that do not stop the parser |
| AnthropicSse.CleanStreamsMeanWhatIsDispatched | src/llm/sseUtils.ts:89-205 | on plain streams with clean dispatches the parser acts on exactly what section 9.2.6 dispatches |
| AnthropicSse.StreamReadBack | src/llm/sseUtils.ts:61-72 | frames written one after the other are read back, in order |
| AnthropicSse.MessageReadBack | src/llm/sseUtils.ts:61-205 | a message written as a stream of the documented frames is read back as its events, stop reason and usage |
| AnthropicPayloads.ErrorReadBack | src/llm/sseUtils.ts:188-196 | a message that breaks off with an error is read back as its events and that error |
| JsonCodec.LawfulCodecExists | src/llm/sseUtils.ts:109-114 | some codec of JSON values meets the law that the round trip assumes |
| GenericSse.ParseGenericSse | src/llm/sseUtils.ts:211-234 | for every cutting of the stream the payloads are those of the uncut stream |
| GenericSse.PayloadsAreFrames | src/llm/sseUtils.ts:211-234 | the payloads are what the other parser's framing reads, whatever the event names |
| GenericSse.DoneDoesNotStop | src/llm/sseUtils.ts:207-226 | a `[DONE]` line is passed over and the lines after it are still read |
| GenericSse.FramesOfPieces | apps/web/app.js:244-249 | splitting at blank lines does not depend on where the stream is cut, between the two line feeds included |
| GenericSse.EventsOfConcat | apps/web/app.js:250-260 | the events of two runs of frames are those of the one, then those of the other |
| GenericSse.SseParser.Feed | apps/web/app.js:246-261 | a chunk completes the frames it ends and keeps the rest in the buffer |
| GenericSse.SseParser.EmitFrame | apps/web/app.js:250-260 | one frame: its last event name and its data lines joined, comments and dataless frames passed over |
| GenericSse.SseParser.FeedAll | apps/web/app.js:244-262 | fed chunk by chunk, the web parser reports the events of the uncut stream |
| WebFrames.FrameReads | apps/web/app.js:250-260 | a frame of comments, names, data and other lines is read as its last name and its data joined, or as nothing without data |
| WebFrames.StreamReads | apps/web/app.js:244-262 | such frames written one after the other are read back as their events, in order |
| AsyncMutex.StepRefinesQueue | src/Session.ts:203-218 | every step of the mutex is a step of the first-come-first-served queue |
| AsyncMutex.RunsInOrder | src/Session.ts:203-218 | over every interleaving: mutual exclusion and first come, first served |
| AsyncMutex.NoBodyIsForgotten | src/Session.ts:211-216 | once the event loop is idle a waiting body has a running one ahead of it; a throw releases too |
| AsyncMutex.OwnStepsEnd | src/Session.ts:203-218 | the event loop's own steps come to an end |
| AppendLock.StepRefinesQueue | src/control/ControlEventLedger.ts:95-106 | every step of the per-path lock is a step of the same queue, though its map entry comes and goes |
| AppendLock.RunsInOrder | src/control/ControlEventLedger.ts:95-106 | over every interleaving: mutual exclusion and first come, first served, failures included, and the map entry is gone only when every call on the path has ended |
| AppendLock.NoBodyIsForgotten | src/control/ControlEventLedger.ts:95-106 | once the event loop is idle a waiting append has a running one ahead of it |
| JsonLines.ReadLines | src/control/ControlEventLedger.ts:71-82 | the reading loop gives the records of the lines that parse, in order |
| JsonLines.PartlyWritten | src/control/ControlEventLedger.ts:46-47 | after a finished line a partly written record is invisible, and visible once its text is whole, with or without its line feed |
| JsonLines.LineFeedAddsNothing | src/control/ControlEventLedger.ts:108-118 | ending a torn line with a line feed changes nothing that is read |
| Ledger.ReadAll | src/control/ControlEventLedger.ts:62-83 | reads exactly the control events of the lines that parse |
| Ledger.LedgerGuarantees | src/control/ControlEventLedger.ts:32-125 | over any interleaving of appends by several instances, I/O errors, torn writes and crashes: reading gives exactly the logged events, with strictly increasing `seq` in lock order, and every append returned since the last crash is among them |
| Ledger.CompletedSurvives | src/control/ControlEventLedger.ts:32-60 | the event of an append that has returned is read ever after, exactly once and as logged then, whatever appends, I/O errors and crashes follow |
| LedgerInputs.AppendsWhatWasAsked | src/control/ControlEventLedger.ts:32-60 | over every run, what a call logs and returns are its own input's fields, with the ledger's session and the call's time where the input has none; a refused input logs and returns nothing |
| LedgerInputs.NumbersHaveNoGaps | src/control/ControlEventLedger.ts:36-42 | over every run the events logged are numbered one after the other, from 1 in an empty file, whatever fails |
| LedgerCodec.LawfulCodecExists | src/control/ControlEventLedger.ts:46-47 | some codec of control events meets the law the ledger assumes of JSON text |
| Projection.ProjectControlEvents | src/control/ControlProjection.ts:34-179 | the two loops compute the fold over the events and then its expiry |
| Projection.FoldIsIncremental | src/control/ControlProjection.ts:39-163 | folding a list in two parts is folding it at once |
| Projection.FoldIsDecided | src/control/ControlProjection.ts:47-90 | a request's record is its last creation, settled by the first terminal event after it |
| Projection.PendingIsLeftOnce | src/control/ControlProjection.ts:51-90 | a request that has left `pending` keeps its record until its id is created again |
| Projection.ProjectedRequest | src/control/ControlProjection.ts:165-174 | a reader finds the decided record, timed out if it was pending past its deadline |
| Projection.PendingRequestsAreExact | src/control/ControlProjection.ts:165-177 | `pendingRequests` holds exactly the undecided, unexpired requests |
| ProjectionRecords.PendingAreInOrderOfCreation | src/control/ControlProjection.ts:165-177 | each pending request is listed once, in the order in which their ids were first created |
| Projection.ActivePlanIsLatest | src/control/ControlProjection.ts:91-101 | the active plan is that of the latest plan event |
| Projection.SnapshotsAreLatest | src/control/ControlProjection.ts:102-113 | the task board, the verification and each turn's stop reason are those of the latest event of their kind |
| Projection.ChildStateIsLatest | src/control/ControlProjection.ts:114-159 | a child agent is in the state of its latest lifecycle event; activity alone adds none |
| ProjectionRecords.ChildRecordIsLatest | src/control/ControlProjection.ts:114-159 | a child's parent, error and summary are the latest since it was last started |
| ProjectionRecords.ChildSeqIsLatest | src/control/ControlProjection.ts:114-159 | its last sequence number is that of its latest event, activity included |
| Projection.TalliesAreExact | src/control/ControlProjection.ts:42-46 | retry counts are the numbers of retry events per turn |
| RequestStore.UncontestedCall | src/control/ControlRequestStore.ts:75-119 | a call nobody interrupts settles a pending request field by field as asked, or sees its deadline passed; a settled one it only returns |
| RequestStore.EveryAnswerIsTheOutcomeOrTheDeadline | src/control/ControlRequestStore.ts:75-119 | in every interleaving of resolving and cancelling calls each returns the record fixed by the first terminal event, or the timeout of a passed deadline |
| RequestStore.CallsBeforeTheDeadlineAgree | src/control/ControlRequestStore.ts:75-119 | calls that end before the deadline all return the record of the first terminal event |
| RequestStore.CallsAfterTheDeadlineAgree | src/control/ControlRequestStore.ts:75-119 | calls that begin at or after the deadline all return the same record |
| RequestStore.AgreementExactlyWhen | src/control/ControlRequestStore.ts:79-104 | on an undecided request all calls in every run always agree exactly when the deadline does not fall inside the run |
| RequestOutcomes.EverySettlementIsAsked | src/control/ControlRequestStore.ts:75-119 | in every run each event that settles the request is, field by field, what some call asked for, or the timeout of a passed deadline, under the request's turn |
| RequestOutcomes.ReadDecides | src/control/ControlRequestStore.ts:79-104 | what a call does with what it reads, the deadline being looked at a second time by a resolve only |
| RequestOutcomes.UnknownIdIsNotFound | src/control/ControlRequestStore.ts:81-83 | a call fails for an unknown id exactly when no event has created it |
| RequestCreation.CreateRetryIsIdempotent | src/control/ControlRequestStore.ts:36-50 | on any extension of a log that holds the key, creating again finds the first request and returns its record as decided, or timed out, by then |
| RequestCreation.OneRequestExactlyWhen | src/control/ControlRequestStore.ts:36-73 | in every run of any number of creations with one key and other events between: as many requests are logged as calls read before the first one was, and exactly one if and only if no second call did, and then all return it |
| RequestCreation.OverlappingCreatesDuplicate | src/control/ControlRequestStore.ts:36-73 | on every log without the key such a run makes two requests |
| SessionModes.Session.ExitPlanMode | src/Session.ts:649-654 | restores the captured mode, or the default one, and does nothing outside plan mode |
| SessionModes.ExitUndoesEntry | src/Session.ts:619-654 | leaving plan mode undoes entering it, however often plan mode was asked for in between |
| PlanLifecycle.LeavesOnlyOnApproval | src/plan/PlanLifecycle.ts:120-158 | over every run of interleaved enters, submits and resolves the session leaves plan mode only for a plan request that the ledger at that point decides as approved, and regains the mode plan mode was last entered from, or the default |
| PlanLifecycle.EachApprovalLeavesOnce | src/plan/PlanLifecycle.ts:120-158 | with each request resolved at most once, each leaving of plan mode has an approved request of its own |
| PlanLifecycle.DuplicateResolveLeavesAgain | src/plan/PlanLifecycle.ts:124-135 | resolving an approved request again leaves the present plan mode without any new event |
| PlanLifecycle.DecisionMovesMode | src/plan/PlanLifecycle.ts:130-135 | a denial ends in plan mode, an approval outside it, and a timeout or cancellation changes nothing |
| PlanContents.SubmittedPlanIsTold | src/plan/PlanLifecycle.ts:76-204 | in every run a submission asks for approval of exactly its trimmed plan, for its turn, for half an hour, and every event of that plan carries that text, a rejection also the feedback it was denied with |
| PlanContents.EnteredPlanIsTold | src/plan/PlanLifecycle.ts:64-74 | in every run the plan id drawn on entering plan mode stands for an entered plan without text, and for nothing else |
| PlanOrder.PlanEventsAreInOrder | src/plan/PlanLifecycle.ts:76-204 | with its request resolved once and after its submission returned, a plan's events are ready, awaiting approval, then approved and verification pending, or rejected, its request being decided so first |
| PlanOrder.EarlyResolveBreaksTheOrder | src/plan/PlanLifecycle.ts:88-109 | without that wait some run from every reachable state records approved before awaiting approval |
| PlanOrder.SecondResolveRecordsAgain | src/plan/PlanLifecycle.ts:120-179 | resolving twice, each call after the one before has returned, records a plan approved and verification pending twice, from every reachable state |
| PlanOrderExact.OrderIsKeptExactlyWhen | src/plan/PlanLifecycle.ts:76-204 | an approval that starts on an open request leaves the plan's events in order, whatever all calls do then, if and only if the submission has returned and no other call resolves it |
| Migrations.UpgradeResumes | src/migrations/applyMigrations.ts:101-106 | starting again from any object on the way comes to the same end through the same objects |
| Migrations.UpgradeReachesTheTop | src/migrations/applyMigrations.ts:85-90 | a finished upgrade is at the highest registered version, or the input's own when none applies |
| MigrationSteps.StageIsMigrated | src/migrations/applyMigrations.ts:103-178 | each stage is what the migration registered first for the next version returns for the stage before it, stamped with that version |
| MigrationSteps.UpgradeEnds | src/migrations/applyMigrations.ts:103-203 | an upgrade ends when nothing higher is registered, at a gap below the next version, or where that migration throws, with the error for it |
| Migrations.SortIsStable | src/migrations/applyMigrations.ts:101 | sorting orders the migrations, loses none, and does not change which one comes next, the first registered among equals |
| Migrations.BackUp | src/migrations/applyMigrations.ts:118-135 | the target's text is in its `.pre-vN` file, or nothing else was touched; a missing target needs none |
| Migrations.Restore | src/migrations/applyMigrations.ts:147-158 | however it ends, the target still holds the object from before the step |
| Migrations.ApplyStep | src/migrations/applyMigrations.ts:117-193 | one step with a failure or crash anywhere: the target holds the object before it or the stamped object after it, a throw leaves the one before, and success has its backup |
| Migrations.ApplyMigrations | src/migrations/applyMigrations.ts:91-203 | whatever fails, the disk is at a stage of the uninterrupted upgrade with the backups of all stages before it; a return or a chain error is that of the uninterrupted upgrade |
| Migrations.LoadUntilSettled | src/migrations/applyMigrations.ts:17-30 | loading again after every crash and I/O error ends as one uninterrupted upgrade ends, every backup holding the object one version lower |
| Migrations.LawfulCodecExists | src/migrations/applyMigrations.ts:160-173 | some codec meets the law those four assume, every object being one it can store |
| Migrations.LostFieldChangesTheEnd | src/migrations/applyMigrations.ts:160-173 | a migration that puts into its object what the file cannot hold does end differently after a crash |
| Tournament.RankIsTheOnlyRanking | src/spawn/Tournament.ts:99-106 | there is only one order of the variants by score down and index up |
| Tournament.RankIsRanked | src/spawn/Tournament.ts:99-106 | the ranking is in that order |
| Tournament.RankPermutes | src/spawn/Tournament.ts:99-106 | the ranking has exactly the variants given |
| Tournament.RankedFirstWins | src/spawn/Tournament.ts:189-190 | its first has the highest score and the lowest index among equals |
| Tournament.SelectsTheWinner | src/spawn/Tournament.ts:217-225 | the text selected is the winner's; -1 and no text exactly for no variants |
| Tournament.PoolIsBounded | src/spawn/Tournament.ts:128-186 | in every schedule at most min(5, max(1, concurrency)) variants are in flight, they start in index order, none is scored twice, and the pool ends within three steps a variant and one a worker |
| Tournament.PoolSize | src/spawn/Tournament.ts:128-131 | as many workers as asked for, or as there are variants, but at least one and at most five |
| Tournament.EverySlotIsFilled | src/spawn/Tournament.ts:151-180 | when the workers are done without a throw each variant was started and scored and its slot holds its own result |
| Tournament.FinishedTournament | src/spawn/Tournament.ts:126-210 | a finished tournament rejects exactly when some scoring throws, and otherwise decides for the winner over all results; with no variants there is none |
| Tournament.ScheduleDoesNotMatter | src/spawn/Tournament.ts:153-186 | however the workers interleave and however many there are, the outcome is the same |
| Conversation.IdentityKeepsAnswers | src/turn/MessageBuilder.ts:142-224 | replacing the model identity block never separates a tool use from its result |
| Conversation.NormalizeKeepsIds | src/Turn.ts:124-129 | moving tool uses last loses none and keeps their order |
| TurnLoop.CallsAreBounded | src/Turn.ts:331-551 | model calls never exceed the rounds of the counter and of the retries that rewind it; unneeded recoveries are left over |
| TurnLoop.BoundIsTight | src/Turn.ts:331-551 | MAX_ITERATIONS + 9 is never exceeded by a new turn, and reached by some |
| TurnLoop.ReturnsFromAFinalReply | src/Turn.ts:409-522 | a normal return comes from the round of its last model call, with a text block emitted in the turn, no injection pending at the check, and a last text that does not look cut off unless both retries are used |
| TurnLoop.EveryPromptIsAnswered | src/Turn.ts:331-546 | through all stops, retries and tools, every tool use in every prompt is answered by the very next message |
| TurnPrompts.PromptsContinue | src/Turn.ts:330-551 | with hooks that pass on what they are given, each prompt but for identity blocks is the one before and exactly what its round adds: the reply with its tool uses last and their results, or the reply's other blocks and the nudge due; thinking is off exactly behind an empty reply |
| TurnPrompts.PromptsKeepTheTurn | src/Turn.ts:330-551 | so every prompt begins with the turn's own messages |
| TurnPrompts.IdentityIsRemoved | src/turn/MessageBuilder.ts:142-224 | appending the identity block adds nothing else |
| TurnRecord.RoundIsJudged | src/Turn.ts:331-551 | which replies are gone on from, nudged, returned or thrown out of, in the order of the guards |
| TurnRecord.ReturnedRecord | src/Turn.ts:375-522 | a returned turn has emitted all its replies, the final ones without their tool uses and drafts taken back for waiting messages, and holds a canonical message for each |
| TurnRecord.StopReasons | src/Turn.ts:409-551 | a returned turn has the stop reason of its first final reply, and three kinds of failure have their own |
| TurnLoop.MaxIterations | src/Turn.ts:144-148 | the bound is always between 5 and 1000 |
| TurnRecord.MaxIterationsIs | src/Turn.ts:144-148 | it is the number the variable begins with if between 5 and 1000, and 200 otherwise |
| TurnLoop.Turn.Execute | src/Turn.ts:330-551 | the loop with its fields is the specified run, for every world it meets |
| TurnCommit.CommitCalls | src/Turn.ts:560-616 | each commit retry adds at most one more iteration limit of model calls; recoveries are shared |
| TurnCommit.WholeTurnIsBounded | src/Turn.ts:285-616 | a turn executed and committed with three attempts makes at most 3 * MAX_ITERATIONS + 9 model calls |
| TurnCommit.NeverExhausted | src/Turn.ts:560-616 | with an attempt allowed the loop never runs out: it commits with a committed result or aborts |
| TurnCommit.CommitsExactlyWhen | src/Turn.ts:560-616 | a turn is committed at an attempt exactly when that attempt commits and each one before is blocked, retryable, not the last or over the limit, recorded, and sampled anew without a throw |
| TurnCommit.CommitEndsAt | src/Turn.ts:560-616 | the loop ends at the first attempt that is not tried again, with that attempt's reason and stop reason and without another model call, or with the error of its retry |
| TurnCommit.CommittedTextExactlyWhen | src/Turn.ts:560-837 | a turn executed normally and then committed has a text block if and only if no commit retry was needed, or some reply of the last retry has one |
| TurnCommit.EmptyReplyIsCommitted | src/Turn.ts:730-837 | an empty reply to a blocked commit is accepted, and a turn without any block committed |
| TurnCommit.CommitKeepsAnswers | src/Turn.ts:730-837 | the prompts of the retries answer every tool use too |
| TurnPrompts.RetryPrompts | src/Turn.ts:730-837 | a retry's first prompt is what there is to retry from, or else the messages made anew and the failed draft, and the reason of the block; each later one is the one before and what was added |
| TurnPrompts.ReturnedBase | src/Turn.ts:515-522 | a returned turn is retried from its last prompt and the reply to it |
| TurnRecord.RetryIsJudged | src/Turn.ts:765-836 | in a retry every final reply is the end, and so is a hook that skips |
| TurnCommit.ResampleAfterBlockedCommit | src/Turn.ts:730-837 | the resampling loop with the turn's fields is the specified one, starting without the rejected draft |
| TurnCommit.CommitWithRetry | src/Turn.ts:560-616 | the commit loop with the turn's fields is the specified one |
| TelegramSplit.SafeSliceUtf16 | src/channels/TelegramPoller.ts:670-677 | a slice one unit shorter when it would end in a high surrogate, never splitting a pair |
| TelegramSplit.FindReadableCut | src/channels/TelegramPoller.ts:661-668 | the end of the last occurrence of the first separator that occurs at 1750 or later |
| TelegramSplit.SplitTelegramText | src/channels/TelegramPoller.ts:646-659 | ends, and cuts each time at the best place in reach |
| TelegramSplit.CutMeans | src/channels/TelegramPoller.ts:646-677 | a long text is cut after its last paragraph end at 1750 or later, else its last line end, sentence end or space there, else at 3500 units, or 3499 before half a pair |
| TelegramSplit.SplitKeepsText | src/channels/TelegramPoller.ts:646-677 | the chunks make up the text, have at most 3500 units, all but the last at least 1751, are not empty, split no surrogate pair, and are bounded in number |
| TelegramSplit.SplitIsUnique | src/channels/TelegramPoller.ts:646-677 | a text has only one such split |
| Transcript.Transcript.Append | src/storage/Transcript.ts:143-159 | appends the line and extends the cache; on a file without a torn line the file gains exactly the entry |
| Transcript.Transcript.ReadAll | src/storage/Transcript.ts:173-226 | over any appends and reads of one object on a file without a torn line the cached read is a fresh parse |
| Transcript.Transcript.ReadCommitted | src/storage/Transcript.ts:238-263 | the two scans give the specified committed part |
| Transcript.CommittedEndIs | src/storage/Transcript.ts:240-262 | the committed part ends after the last finished turn and the bookkeeping entries right behind it |
| Transcript.CommittedHolds | src/storage/Transcript.ts:238-263 | it is a prefix with everything up to the last finished turn and then bookkeeping entries only |
| Transcript.CommittedGrows | src/storage/Transcript.ts:238-263 | as entries are appended it grows only at its end |
| Transcript.CacheMissesOtherWriters | src/storage/Transcript.ts:147-157 | after other writers' appends and an own one, the cached read is a fresh parse exactly when they appended nothing |
| Transcript.TornTailKeepsEntryExactlyWhen | src/storage/Transcript.ts:143-159 | the cached read has the entry appended next; the file gives it back exactly when what is behind its last line feed is blank |
| Transcript.LostLineFeedLosesBoth | src/storage/Transcript.ts:143-159 | behind a whole entry that lost its line feed, the next append makes both unreadable |
| Transcript.LawfulCodecExists | src/storage/Transcript.ts:143-159 | some codec of entries meets the laws assumed of it |

## Left out

- CronSearch.GetNextFireAt: local time is UTC plus a fixed offset, so the jumps of daylight saving time are not modelled, and dates outside the range of Date are not either.
- CronParser.ParseCron: lower-casing is that of ASCII letters.
- DateRange.LastNDaysCoversN: days are whole numbers; the date texts, the time zone lookup that finds the anchor and the range of Date are parameters or absent.
- AnthropicSse.ParseAnthropicSse: chunks are cut at character boundaries (the code decodes each chunk on its own), a byte order mark and JSON text are left to a parse function, and numbers are the finite doubles by rank, minus zero being zero.
- GenericSse.ParseGenericSse: as above; a payload is whatever the parse function returns.
- Ledger.LedgerGuarantees: the file is characters, one `appendFile` extends it character by character, JSON is a codec with a stated law, and input validation is a predicate.
- RequestStore.AgreementExactlyWhen: an append is one atomic step, as the ledger's lock makes it; request ids are fresh; other callers append any event but a creation or a settlement of this request.
- RequestCreation.OneRequestExactlyWhen: one key, fresh request ids, an append in one step; the fields of the new record are given, and other callers append any event but a creation under the key.
- PlanLifecycle.LeavesOnlyOnApproval: the cached projection and events sent to the client are absent; other code may set the mode at any time and append any event that is not a plan event, but asks for no plan approvals itself.
- PlanLifecycle.RejectionRecords: the feedback is queued without the text put around it.
- Migrations.ApplyMigrations: a migration makes of an object JSON keeps another one, and is a function of its input alone; a failed rename leaves the target alone; the runner without a target path is not modelled, and a missing target only by `ApplyStep`.
- Tournament.FinishedTournament: each child and scoring has one outcome however often asked; scores are real numbers, never NaN; directories, audit events and the cleanup of losers are absent.
- TurnLoop.Turn.Execute: hooks, model replies, pending injections, tool results and interrupts are what a world function gives each round; the truncation heuristic is a parameter; nudges are given by their first words; routing, usage, audit events and the prompt are absent.
- TurnPrompts.PromptsContinue: assumes hooks that pass on the messages they are given, and identity text with its opening mark; nudges are compared by their first words.
- TurnLoop.EveryPromptIsAnswered: assumes hooks that pass on answered conversations and a dispatcher that answers each tool use once; sharing of message objects between arrays is not modelled.
- TurnCommit.CommitWithRetry: the commit pipeline is a result per attempt.
- CronScheduler.Scheduler.Tick: crons are values in insertion order, so a caller that keeps a record object does not see it change; index writes succeed and do not overlap.
- Transcript.Transcript.ReadAll: sizes are in characters, operations do not overlap, and the migration of entries is the identity it is today.
- Tournament.ScheduleDoesNotMatter: progress of the children themselves is assumed.
- Network, Telegram, Discord, web push, child processes, browser control and model streaming: outside effects.
- Policy patterns, shell and path safety, routing profiles, slash commands, personas, prompt blocks and the rest of the web application: single branches or interface code.
- The byte level of UTF-8, regular expressions, SHA-1, UUID and ULID generation: parameters or fresh values.
