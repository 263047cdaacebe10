# Verified model of the Tolmach analytics backend

The backend turns a structured analytics request into governed SQL, checks the SQL, runs it
through a result cache, assembles the results into an answer, and re-runs saved reports on a
schedule. This project models those parts in Dafny and proves what they promise.

| files | what they model |
|---|---|
| `Sql`, `Planner`, `CompilerCorrectness` | SQL of the compiler as syntax with a meaning over tables; planning and compiling a request; the compiled query means the request |
| `Literals`, `Periods` | filter values as SQL literals and back; a period and the one before it |
| `Calendar`, `NextRun` | the Gregorian calendar and when a schedule is next due |
| `SchedulerProtocol`, `SchedulerCycle`, `SchedulerGaps` | workers, row locks, API calls, crashes and the clock as a transition system; the loops of one worker's cycle as runs of its steps; what the protocol does not prevent |
| `RunStatus`, `ReportExecution`, `RunLives`, `Recipients` | one execution of a run, its retries and deliveries; whole lives of a run in the protocol; a report's recipients |
| `LimitText`, `SqlValidator`, `ColumnReads`, `ServedRows` | the LIMIT pattern at character level; the guardrail; which columns a passed statement can read, and how many rows it returns |
| `SqlText`, `QueryText`, `CompiledIsSafe` | words and LIMIT patterns in concatenated text; the text of a compiled query; that text under the guardrail |
| `Fingerprint`, `StatementTokens`, `QueryCache`, `GuardedExecution` | cache keys, what they forget of a statement's tokens, the cached executor, guardrail and executor together |
| `AnswerPlan`, `PlannedQueries`, `Payloads`, `Distribution`, `AnswerMeaning`, `TrendOrder`, `AnswerExamples` | the queries behind an answer and the workflow of a request; what each query asks for and gets; what is shown of their rows; what that means over the fact rows; answers that mislead |
| `CatalogAdmin` | administration of the semantic catalogue |
| `AsciiText`, `Wrappers` | character classes and trimming; optional values and results |

`dafny verify dfyconfig.toml` checks everything.

Code that works by changing things (the planner's loops, the validator, the cache tables, the
report rows, the answer loop, the request's workflow, the stored catalogue) is written as
methods and classes proved against specification functions; the main results are lemmas about
those functions and about whole runs.

## Where the code does less than one might assume

- The text of a statement is lower-cased and its spacing collapsed for its cache key, inside
  literals, quoted identifiers and comments too. A cached answer is right exactly when the two
  statements agree in their canonical form, which keeps those apart
  (`QueryCache.HitIsRightIffSameMeaning`, `StatementTokens.CanonicalIffSameTokens`);
  `GuardedExecution.WrongRowsPass` is a passed run where they do not.
- The time to live of a cache entry counts from its storing, not from the database's answer
  (`QueryCache.HitsCanBeOlderThanTtl`).
- The LIMIT pattern also matches inside quoted literals; `LimitText.RenderedLimitRead` says
  exactly when the compiler's own LIMIT is the one read (`LimitText.LiteralReadAsLimit`).
- A LIMIT over the cap is set to the cap wherever the pattern matches, inside literals too, which
  changes the query (`ServedRows.BodyKeptIff`).
- The guardrail skips any column whose name is also an output name, and looks an alias up in one
  flat map. So an unapproved column can be read; `ColumnReads.ReadsApprovedIffLookedUp` says when
  none can, and `ColumnReads.AliasedColumnPasses` is a statement that passes. Compiled queries
  are not affected (`CompiledIsSafe.CompiledReadsApproved`).
- Keys may be write words such as `call`; requests over them are always blocked
  (`CompiledIsSafe.WriteWordKeyIsBlocked`).
- A schedule can have two active runs. It comes to this in two steps only: a manual run is
  committed to be retried while another run is active, or the enqueued run is published while a
  manual one is active (`SchedulerGaps.OverlapBegins`). Two manual runs suffice
  (`SchedulerGaps.ManualRunsOverlap`).
- A run whose worker died stays `running` for ever, and its schedule is never enqueued again
  (`SchedulerGaps.OrphanForEver`, `SchedulerGaps.OrphanBlocksItsSchedule`).
- A monthly schedule with a negative day cannot be computed (`NextRun.NextRunAtIsFirstAfter`).
- A trend is sorted by time only if its time key is `day`, and by the figure otherwise
  (`TrendOrder.TrendInTimeIff`, `AnswerExamples.QuietMomentComesFirst`); by day it shows the
  earliest days and not the latest (`TrendOrder.DaysFromTheEarliest`).
- A table says that there is no more when a policy, the cap or a literal cut it to a page or less
  (`AnswerMeaning.PageIsHonestIff`, `AnswerExamples.PolicyHidesMore`).
- A ranking counts zero as missing, so losses come before zeros (`Payloads.RankingDescendsIff`).
- Over a negative baseline a rise is shown as a negative percentage (`Payloads.ChangeAddsUp`).
- The optional sections of a full report are mandatory at compile time
  (`AnswerPlan.PlannedIffAnswerable`).
- An error of plan building cannot be constructed from its text, so a trend without a time
  dimension, a comparison or distribution without a category, and a request or table without a
  known metric end in an unhandled exception and not in a blocked request
  (`AnswerPlan.Workflow.Run`, `AnswerPlan.TrendWithoutTimeEscapes`).
- Shares are of the rows fetched, not of all (`Distribution.TotalIsOfFetched`), and the rest is
  recognised by its label, which a category may have too (`Distribution.OtherMarkIsByLabel`).
- Deleting a dimension looks neither at filter terms nor at keys stored with spaces around them
  (`CatalogAdmin.DimensionDeletionDangles`).

## Model

| member | source | states |
|---|---|---|
| CompilerCorrectness.CompiledMeansDirect | backend/app/semantic/compiler.py:41-66 | for every built catalogue, governed request, metric computed by any function of fact columns, database with unique dimension keys and candidate answer: the compiled query can answer it if and only if it is a sorted, cut-off listing of the groups and figures of a direct fold over the fact rows |
| Sql.EveryQueryHasAnAnswer | backend/app/semantic/compiler.py:57-66 | every query of the fragment has an answer over every database, so what is said of all answers is never empty |
| CompilerCorrectness.OutputsAreResults | backend/app/semantic/planner.py:374-560 | before sorting, the compiled query yields exactly the groups, keys and metric values of the fold, in the same order |
| CompilerCorrectness.RowJoinsOnce | backend/app/semantic/planner.py:247-265 | a fact row joins to exactly one row binding every alias to its dimension row, or to none when an inner join finds no partner, however many times dimensions are repeated or also used as filters |
| CompilerCorrectness.PlanJoinsApart | backend/app/semantic/planner.py:508 | after deduplication no two joins share an alias and none takes the base alias |
| CompilerCorrectness.NoFanOutIffUnique | backend/alembic/versions/20260423_0004_data_layer_warehouse.py:188 | joining on a column never multiplies a row if and only if its non-null values are unique |
| CompilerCorrectness.EachFactInOneGroup | backend/app/semantic/compiler.py:48 | the groups hold exactly the fact rows given, each once |
| CompilerCorrectness.GroupsAreByKey | backend/app/semantic/compiler.py:48 | folding rows into groups gives one group for each key in order of first appearance, holding all rows of that key |
| CompilerCorrectness.FilterMeans | backend/app/semantic/planner.py:268-314 | the WHERE condition of a filter holds of a joined row exactly when the dimension's value equals the first value given, is one of those given, or lies between the first and the second, nulls and empty texts not counting as given |
| CompilerCorrectness.FactTableRead | backend/app/semantic/service.py:35-50 | a governed request reads the fact table of its metric's grain, and a dimension on it the column of its template, the time columns being that table's own |
| CompilerCorrectness.PeriodMeans | backend/app/semantic/planner.py:198-244 | the clauses of a period hold exactly of the moments in its half-open window; a null time fails any of them |
| CompilerCorrectness.PlanOrder | backend/app/semantic/planner.py:510-522 | the ORDER BY name denotes the day column when the request has one and otherwise the metric, in the direction asked for, and the limit is the asked one capped |
| Planner.PlanSqlQuery | backend/app/semantic/planner.py:374-560 | the planning loops compute the plan the catalogue prescribes or the first complaint in the order dimensions, filters, period, limit, sorting |
| Planner.PlannedIffGoverned | backend/app/semantic/planner.py:374-560 | a request is planned if and only if its metric, grain, dimensions, filters, operators, values, period, limit and direction are all governed; the planned limit exceeds neither the asked nor the global one |
| Planner.Dedupe | backend/app/semantic/planner.py:100-108 | the loop with a seen set keeps each join where it first occurs |
| Planner.ReadValuesSucceeds | backend/app/semantic/planner.py:300-302 | an IN list compiles if and only if every value is readable for the data type, and then value by value in order |
| Planner.ValuesInOrder | backend/app/semantic/planner.py:481 | the first and the second value of a filter are those at the first and the next place of the list that hold one |
| Literals.WrittenValueIsRead | backend/app/semantic/planner.py:133-189 | an integer, date or timestamp written with blanks around it is read as itself, a numeric value as the float it parses to, and a value of any other type as the text given |
| Literals.WrittenDateIsRead | backend/app/semantic/planner.py:133-142 | a date is read from a four-digit year and a month and day of one or two digits, if the calendar has it, and refused if not |
| Sql.TimestampsInOrder | backend/app/semantic/planner.py:143-164 | timestamps compare as their fields do, the second after 23:59:59 is the next midnight, and a timestamp lies in the day of its date |
| Sql.ValuesCompare | backend/app/semantic/planner.py:304-309 | BETWEEN and ORDER BY compare numbers, days and moments by size, texts by the first character in which they differ, and put nulls last |
| Sql.FirstOccurrences | backend/app/semantic/planner.py:100-108 | keeps exactly the items given, none twice |
| Literals.QuoteReadsBack | backend/app/semantic/planner.py:188-189 | a quoted text reads back as the original by the doubled-quote rule and reading stops exactly at its closing quote |
| Literals.LiteralReadsBack | backend/app/semantic/planner.py:133-189 | an accepted date, timestamp, integer or text prints as a literal that reads back as the very value, the reader stopping at its end, whatever follows it |
| Literals.IntReadsBack | backend/app/semantic/planner.py:170-173 | what Python prints for an integer it reads as the same integer |
| Literals.IntegerTexts | backend/app/semantic/planner.py:170-173 | an integer is accepted exactly as an optional sign and digits with single underscores between them, and is the number of those digits |
| Literals.ListReadsBack | backend/app/semantic/planner.py:300-302 | a printed IN list of dates, timestamps, integers or texts reads back as the same values in the same order, and reading stops at the end of the list |
| Literals.TimestampReadsBack | backend/app/semantic/planner.py:143-164 | the printed form of a timestamp parses back to the same date and time |
| Periods.PreviousIsAdjacent | backend/app/ai/answer_strategy.py:266-298 | a previous period exists exactly for positive rolling, ordered between and dated exact periods; its window ends where the current one starts and is exactly as many days long |
| Periods.EveryMomentOnce | backend/app/ai/answer_strategy.py:266-298 | no moment lies in both windows and together they cover the joint period without gap |
| Periods.BaselineAndCurrentSplit | backend/app/ai/answer_strategy.py:310-345 | the fact rows behind the baseline and the headline figure are disjoint and together exactly those of the joint period |
| NextRun.NextRunAtIsFirstAfter | backend/app/reports/scheduler.py:37-52 | the next run is the least instant strictly after now at the time of day, weekday or day of the month the schedule names, by default nine o'clock, Monday and the first; computing it fails exactly for a monthly schedule with a negative day |
| NextRun.FirstAfterIsUnique | backend/app/reports/scheduler.py:37-52 | there is only one first occurrence after an instant |
| NextRun.WeeklyIsFirst | backend/app/reports/scheduler.py:43-47 | the weekly rule finds the first target weekday, this week or the next |
| NextRun.MonthlyIsFirst | backend/app/reports/scheduler.py:48-52 | the monthly rule finds the first target day across month ends, leap years and December |
| Calendar.FirstPlus32Days | backend/app/reports/scheduler.py:51 | the first of a month plus 32 days always lies in the following month, on its 2nd to 5th day |
| Calendar.OrdinalInClosedForm | backend/app/reports/scheduler.py:45 | every date's day number in the closed form of the Gregorian calendar: a leap day in four years, none in a century, one again in four centuries, and each month's length |
| Calendar.WeekdayFromAnchor | backend/app/reports/scheduler.py:45 | 1 January 2024 is a Monday, as is the same day every 400 years on, and all weekdays go on from there in both directions |
| SchedulerProtocol.AtMostOneActiveRun | backend/app/reports/scheduler.py:341-385 | in every reachable state a schedule has at most one active run created by the enqueue step, counting open transactions too |
| SchedulerProtocol.ExecutedByOne | backend/app/reports/scheduler.py:388-438 | a run being executed is owned by one worker only, belongs to no request, and is committed as running so nobody can claim it |
| SchedulerProtocol.OwnedRunsAreDue | backend/app/reports/scheduler.py:388-411 | in every reachable state a run that a worker has claimed, has left to execute or is executing has no retry time or one that has come |
| SchedulerProtocol.OnlyDueAreEnqueued | backend/app/reports/scheduler.py:341-355 | no step of a reachable state enqueues a run for a schedule that is switched off or whose next run lies ahead |
| SchedulerProtocol.CommitAdvances | backend/app/reports/scheduler.py:373-383 | committing a cycle publishes its runs together with the schedules they are for: each of those has fired once more, for the occurrence that was due, and waits for the first one after; the others stay as they were |
| SchedulerProtocol.EditMeans | backend/app/api.py:1207-1276 | creating, patching or toggling a schedule stores the rule and switch asked for and the first occurrence after the edit, or none once switched off, and changes nothing else |
| SchedulerProtocol.FiringsWithinOccurrences | backend/app/reports/scheduler.py:341-385 | since a schedule's last edit at most as many runs were enqueued for it as occurrences of its rule have passed |
| SchedulerProtocol.MissedOccurrencesCollapse | backend/app/reports/scheduler.py:373-383 | enqueueing creates one run and moves the schedule to the first occurrence after the present, so missed occurrences share one run |
| SchedulerProtocol.StepKeepsInv | backend/app/reports/scheduler.py:341-438 | every step of workers, requests, edits, crashes and the clock keeps ownership, locks, one active run, the schedules' firing history, and that owned runs are due |
| SchedulerProtocol.CommitKeeps | backend/app/reports/scheduler.py:415-419 | committing a cycle publishes its runs and claims without giving a run two owners or a schedule two active enqueued runs |
| SchedulerProtocol.ClaimFits | backend/app/reports/scheduler.py:388-408 | claiming under SKIP LOCKED takes only runs nobody else owns |
| SchedulerCycle.Session.EnqueueDueSchedules | backend/app/reports/scheduler.py:341-385 | the loop over due schedules computes the specified state by protocol steps and, where the invariant holds, completes and keeps it; an exception would roll its transaction back |
| SchedulerCycle.Session.ClaimRunnableRuns | backend/app/reports/scheduler.py:388-408 | the loop marks exactly the rows returned and amounts to one claim step |
| SchedulerCycle.EnqueueAllIsSteps | backend/app/reports/scheduler.py:358-383 | the enqueue loop is a run of enqueue steps that changes nothing but its own transaction |
| SchedulerCycle.EnqueueAllGivesRuns | backend/app/reports/scheduler.py:358-383 | a schedule of the batch gets one new queued run, due now, and the first occurrence after now as its next run, exactly when none of its runs is queued or running at the start of the loop |
| SchedulerCycle.ReachedStatesKeepInv | backend/app/reports/scheduler.py:411-419 | whatever the loops reach keeps every invariant of the protocol |
| SchedulerCycle.EnqueueNeverRaises | backend/app/reports/scheduler.py:358-383 | in every state that satisfies the invariant the loop over due schedules completes: no edit stores a rule whose next run cannot be computed |
| SchedulerGaps.OverlapBegins | backend/app/api.py:1278-1297 | from a state without overlap a step brings a schedule to two active runs if and only if another of its runs is active and the step commits a manual run left to be retried, or publishes the enqueued run while a manual one is active |
| SchedulerGaps.ManualRunOverlaps | backend/app/api.py:1278-1297 | a concrete run of the system in which a manual and an enqueued run of one schedule are active together |
| SchedulerGaps.ManualRunsOverlap | backend/app/api.py:1278-1297 | a concrete run of the system with two manual runs of one schedule active together and none enqueued |
| SchedulerGaps.DeathOrphans | backend/app/reports/scheduler.py:421-432 | a worker that dies leaves every run it had claimed and not finished running with no owner, and a rolled back execution the run it executed |
| SchedulerGaps.OrphanForEver | backend/app/reports/scheduler.py:388-408 | over every further sequence of steps such a run stays exactly as it is |
| SchedulerGaps.OrphanBlocksItsSchedule | backend/app/reports/scheduler.py:355-372 | no further enqueue step ever creates a run for the schedule of such a run, nor moves its next time |
| SchedulerGaps.OrphanHappens | backend/app/reports/scheduler.py:411-432 | a concrete run of the system that ends with an enqueued run nobody owns |
| ReportExecution.ScheduleRun.constructor | backend/app/reports/service.py:167-197 | a new run is queued, due at once, without attempts or retries |
| ReportExecution.ScheduleRun.AppendAttempt | backend/app/reports/scheduler.py:92-103 | adds one attempt with the next number and keeps the earlier ones |
| ReportExecution.DeliverToTargets | backend/app/reports/scheduler.py:133-201 | deliveries made, their outcome, the summary on the run and the recipients' sent times are those the recipients and sendings determine |
| ReportExecution.RecordResult | backend/app/reports/scheduler.py:267-304 | a successful execution stores its result, is logged, delivers, and becomes delivery_failed if a sending failed |
| ReportExecution.ExecuteReportRun | backend/app/reports/scheduler.py:204-338 | one execution changes run, report, schedule and recipients exactly as specified for its outcome |
| ReportExecution.LifeSoFar | backend/app/reports/scheduler.py:92-103 | after i executions the log holds attempts 1 to i and a waiting run has used i retries |
| ReportExecution.ExecutionsBounded | backend/app/reports/scheduler.py:322-330 | a run is executed at most max_retries + 1 times and is then over; it is over earlier exactly after a result or a failure that is not retryable |
| RunLives.RunsLive | backend/app/reports/scheduler.py:388-438 | from the state in which a worker has enqueued a run, over any steps of workers, requests, edits and crashes: the executions finished in the run are in order a life of its row, each of a queued run whose retry time has come |
| RunLives.FinishedBounded | backend/app/reports/scheduler.py:318-332 | so at most max_retries + 1 executions of an enqueued run are ever finished, and after that many it is over |
| ReportExecution.BackoffDoubles | backend/app/reports/scheduler.py:322-328 | retry k is planned max(30, b) * 2^(k-1) seconds ahead, so retry n starts at least max(30, b) * (2^n - 1) seconds after the first execution |
| ReportExecution.OneDeliveryEach | backend/app/reports/scheduler.py:144-147 | each recipient that is active and reachable gets exactly one delivery, any other none |
| ReportExecution.DeliveredToDestination | backend/app/reports/scheduler.py:144-200 | an active recipient is delivered to at its destination, or at its e-mail address if there is none, blanks stripped, by its channel and with what the adapter answered; one without such a place gets no delivery |
| ReportExecution.SentIffDelivered | backend/app/reports/scheduler.py:180-186 | a recipient's last sending becomes now exactly if a delivery to it was sent |
| ReportExecution.EveryDeliveryHasItsRecipient | backend/app/reports/scheduler.py:148-156 | every delivery goes to a reachable recipient at its own destination |
| ReportExecution.DeliveredOnce | backend/app/reports/scheduler.py:277-311 | deliveries are made in the last execution only, and only of a result, whose SQL, row count, log entry and finish time are stored; a failure stores its message and no deliveries; the run is delivery_failed exactly when a sending to a reachable recipient failed |
| ReportExecution.FailedIffNotSent | backend/app/reports/scheduler.py:179-188 | a failed delivery exists exactly when a sending to a reachable recipient failed |
| Recipients.NormalizeDeliveryTargets | backend/app/reports/service.py:31-70 | the two loops keep the first target of each channel and destination and drop blank ones |
| Recipients.ReportRecipients.Append | backend/app/reports/service.py:103-132 | adds a row for each requested target whose key the report lacks, after the rows it has |
| Recipients.FirstsHaveAllKeys | backend/app/reports/service.py:31-70 | every non-blank place asked for is kept once |
| Recipients.FirstsComeFirst | backend/app/reports/service.py:31-70 | of several targets for one place, a channel and a destination up to letter case, the first is kept |
| Recipients.AddedAreAskedFor | backend/app/reports/service.py:103-132 | every recipient added is one an e-mail address or a target of the request asks for: its channel, its destination without blanks around it, its switch, and an e-mail field for e-mail only |
| Recipients.AppendOncePerPlace | backend/app/reports/service.py:103-132 | each place asked for ends up with one recipient, old rows stay, and asking again adds nothing |
| LimitText.ExtractLimitIsLeftmostMatch | backend/app/semantic/sql_validator.py:113-115 | the limit read is the number of the leftmost match of the pattern, none if there is no match |
| LimitText.ApplyLimitTokens | backend/app/semantic/sql_validator.py:118-121 | applying a limit sets every LIMIT clause, or adds one on a new line, and leaves all other text as it was |
| LimitText.ExtractAfterApply | backend/app/semantic/sql_validator.py:113-121 | the limit applied is the limit read back, for every text and number |
| LimitText.LastLimitWins | backend/app/semantic/sql_validator.py:118-121 | the last limit applied wins whatever was applied before; applying one twice changes nothing |
| LimitText.RenderedLimitRead | backend/app/semantic/compiler.py:65 | the number of a final LIMIT clause is the one read exactly when nothing before it, not even inside a literal, looks like a LIMIT clause with another number |
| LimitText.LiteralReadAsLimit | backend/app/semantic/sql_validator.py:113-115 | after a comparison with the literal 'limit 5' a final LIMIT 10 is read as five |
| SqlValidator.ValidateSql | backend/app/semantic/sql_validator.py:191-453 | the imperative validation decides every statement as specified, with the first failing check |
| SqlValidator.BuildAliasMap | backend/app/semantic/sql_validator.py:150-160 | the loop over tables builds the alias map |
| SqlValidator.CheckColumns | backend/app/semantic/sql_validator.py:305-332 | the loop over columns collects exactly the sensitive and the unapproved ones, in order |
| SqlValidator.AliasIsLastTable | backend/app/semantic/sql_validator.py:150-160 | a name stands for the last table that goes by it, as alias or bare name |
| SqlValidator.AliasResolves | backend/app/semantic/sql_validator.py:150-160 | an alias stands for its own table when no other table goes by it |
| SqlValidator.JudgedByItsTable | backend/app/semantic/sql_validator.py:313-333 | a column is ignored exactly if it is an output name, forbidden exactly if its name is, and unapproved exactly if no table it is taken to belong to allows it: the last one its qualifier names, else the only one of the statement |
| SqlValidator.UnqualifiedPass | backend/app/semantic/sql_validator.py:323-333 | the columns a statement over one table names without a qualifier are not objected to if its policy allows them and none is forbidden |
| SqlValidator.RowCap | backend/app/semantic/sql_validator.py:354-355 | the cap is the least of the policies' limits and the global maximum |
| SqlValidator.RowLimitHolds | backend/app/semantic/sql_validator.py:354-391 | after each of the three limit branches the text asks for exactly the recorded row limit, within the cap |
| SqlValidator.PassedMeans | backend/app/semantic/sql_validator.py:258-453 | a passed statement is a single read-only SELECT over whitelisted tables with policies, no column of which was objected to; its final text is the caller's, with a row limit that every policy allows and that reads back as recorded |
| SqlValidator.WriteWordsBlock | backend/app/semantic/sql_validator.py:20-24 | a statement with one of the thirteen write words as a whole word, in either letter case, is blocked for it |
| SqlValidator.AcceptablePasses | backend/app/semantic/sql_validator.py:258-453 | an acceptable statement passes exactly when its limited form parses and is cheap enough |
| ServedRows.PassedIsFinal | backend/app/semantic/sql_validator.py:354-391 | a passed text that ended with a LIMIT clause ends with it still, its number kept or set to the cap when the limit read was over it, and the recorded limit is that number or the one read |
| ServedRows.BodyKeptIff | backend/app/semantic/sql_validator.py:118-121 | the guardrail leaves the text before the last clause alone if and only if nothing in it looks like a LIMIT over the cap |
| ServedRows.LiteralIsRewritten | backend/app/semantic/sql_validator.py:118-121 | a literal 'limit 5' is rewritten under a cap of four |
| ColumnReads.ReadsApprovedIffLookedUp | backend/app/semantic/sql_validator.py:305-352 | the column checks keep every read of a forbidden or unapproved column out, for all settings and policies, if and only if each column read is looked up under its own table and not under a name that an output bears |
| ColumnReads.PassedReadsApproved | backend/app/semantic/sql_validator.py:305-352 | a passed statement whose columns are all looked up as themselves reads only columns its tables' policies approve, none of them forbidden |
| ColumnReads.AliasedColumnPasses | backend/app/semantic/sql_validator.py:317 | the statement SELECT fo.password AS password FROM fact.orders fo passes every check although the column is forbidden and unapproved |
| QueryText.TextShowsOnlyWhatIsGiven | backend/app/semantic/compiler.py:41-66 | the compiled text is read-only; it has a write word exactly when a key, an identifier, a literal or the metric's own SQL has one, and shows a LIMIT before its last clause exactly when one of those does |
| SqlText.PiecesShowOnlyWhatIsGiven | backend/app/semantic/sql_validator.py:211-243 | the same for every text of SELECT, keywords, symbols and given texts that ends with a LIMIT clause, as sqlglot renders the template |
| CompiledIsSafe.TemplateIsRendered | backend/app/semantic/compiler.py:57-66 | the compiler's template is such a text |
| CompiledIsSafe.CompiledQueryPasses | backend/app/semantic/compiler.py:88-141 | a governed request over a catalogue that keeps to policy columns, rendered as any such text, is blocked exactly when something given in it has a write word; otherwise it meets every check, reads approved columns only, and passes exactly when its final form parses and is cheap, under the least of the policy limits and the limit its text states |
| CompiledIsSafe.CompiledReadsApproved | backend/app/semantic/compiler.py:101-110 | no column a compiled query reads is forbidden or outside its table's policy, whether or not the guardrail looks it up |
| CompiledIsSafe.WriteWordKeyIsBlocked | backend/app/semantic/validators.py:78-82 | a metric whose key is a write word, which the key pattern admits, is blocked whatever is asked of it |
| Fingerprint.NormalizeKeepsLimit | backend/app/query_execution/fingerprint.py:11-13 | normalising a statement never changes the limit read from it |
| Fingerprint.KeyDeterminesParts | backend/app/query_execution/fingerprint.py:16-18 | two keys are equal exactly when the folded roles and the normal forms are, for roles without a bar |
| Fingerprint.KeyDeterminesLimit | backend/app/query_execution/fingerprint.py:16-18 | statements sharing a key carry the same limit |
| Fingerprint.CanonicalDeterminesNormalForm | backend/app/query_execution/fingerprint.py:11-13 | statements with the same canonical form, which keeps literals, quoted identifiers and the ends of line comments apart, share a normal form |
| StatementTokens.CanonicalIffSameTokens | backend/app/query_execution/fingerprint.py:11-13 | statements without comments have the same canonical form if and only if they have the same tokens: literals and quoted identifiers to the letter and in order, and between them the same code up to letter case and spacing |
| Fingerprint.NormalFormForgetsCase | backend/app/query_execution/fingerprint.py:11-13 | any two statements that differ in letter case only share a normal form, wherever the difference lies |
| Fingerprint.NormalFormForgetsSpacing | backend/app/query_execution/fingerprint.py:11-13 | any two statements that differ only in one stretch of spaces share a normal form, wherever it lies |
| Fingerprint.QuotedNamesKept | backend/app/query_execution/fingerprint.py:11-13 | quoted identifiers that differ in case share a normal form and not a canonical form |
| Fingerprint.CommentLinesKept | backend/app/query_execution/fingerprint.py:11-13 | a comment line followed by code and the same in one line share a normal form and not a canonical form |
| Fingerprint.NestedCommentsAreKept | backend/app/query_execution/fingerprint.py:11-13 | a block comment inside another must end first, as in PostgreSQL |
| Fingerprint.CommentsAreKept | backend/app/query_execution/fingerprint.py:11-13 | the canonical form, unlike the normal form, keeps comments to the letter: up to the line's end after two dashes, and between slash and star |
| Fingerprint.AskingCollides | backend/app/query_execution/fingerprint.py:11-13 | for any two plain values that differ in letter case only, the SELECT statements that filter by them share a normal form and not a canonical form |
| QueryCache.QueryStore.PruneExpiredCache | backend/app/query_execution/service.py:86-99 | deletes the first hundred expired entries, row by row |
| QueryCache.TouchedMeans | backend/app/query_execution/service.py:102-105 | a hit counts on the one entry of its key, at its time, and leaves every other entry as it was |
| QueryCache.UpsertedMeans | backend/app/query_execution/service.py:108-146 | storing leaves exactly one entry for the key, with the new rows, their number and a fresh expiry; a refreshed entry keeps its hits and creation time; entries of other keys stay |
| QueryCache.QueryStore.ExecuteSafeQuery | backend/app/query_execution/service.py:207-315 | one call prunes, looks up, touches or executes, stores and audits as specified, and answers with the database's rows up to the row limit |
| QueryCache.PruneKeepsLiveEntries | backend/app/query_execution/service.py:86-99 | pruning removes only expired entries |
| QueryCache.PruneDropsExpired | backend/app/query_execution/service.py:86-99 | pruning leaves no expired entry, or drops a hundred of them |
| QueryCache.RunConsistent | backend/app/query_execution/service.py:86-185 | over every sequence of calls: one entry per fingerprint, row_count equal to the stored rows, hit_count equal to the hits since creation |
| QueryCache.AnswersComeFromDatabase | backend/app/query_execution/service.py:207-315 | every successful answer is what the database gave, all of it or as many first rows as the limit allows: to this call, or to an earlier one with the same key stored no longer ago than the time to live |
| QueryCache.EachCallIsAnswered | backend/app/query_execution/service.py:216-280 | a call is served from the cache if and only if caching is on for it and a live entry of its key is there; otherwise it fails if and only if the database does, with its message |
| QueryCache.RepeatIsServed | backend/app/query_execution/service.py:224-256 | whatever calls run in between, a call with the key of one whose answer was stored is served from the cache as long as the time to live has not passed |
| QueryCache.AnswersWithinLimit | backend/app/query_execution/service.py:207-256 | no answer has more rows than the call's own validated limit, hit or not |
| QueryCache.CachedRefinesDirect | backend/app/query_execution/service.py:207-315 | if statements of one normal form have one answer, each answer is what the database gives for this very statement, all rows or the first up to the limit, at an instant no further back than the time to live plus the time storing took |
| QueryCache.HitsCanBeOlderThanTtl | backend/app/query_execution/service.py:108-146 | counted from the database's answer the time to live alone is no bound: a result stored late can be served that much older |
| QueryCache.HitIsRightIffSameMeaning | backend/app/query_execution/service.py:224-256 | over every sound sequence of calls, a cached answer is right for every exact database the calls were recorded from if and only if the statement that supplied it and the statement asked have the same canonical form |
| QueryCache.HitIsRightIffSameTokens | backend/app/query_execution/service.py:224-256 | so, for statements without comments, exactly when they have the same literals, the same quoted identifiers and, up to letter case and spacing, the same code |
| GuardedExecution.WrongRowsPass | backend/app/query_execution/fingerprint.py:16-18 | two SELECT statements that the guardrail passes and that differ in a literal's letter case: the second is served from the cache rows the database never gives for it |
| QueryCache.AuditsAreTheLog | backend/app/query_execution/service.py:149-185 | audits are exactly one row per connected call: hit, database success or error |
| QueryCache.HitCountsItsRows | backend/app/query_execution/service.py:229-256 | the row count reported is the number of rows served |
| GuardedExecution.PassedStatesItsLimit | backend/app/semantic/sql_validator.py:354-391 | a passed statement's text states a row limit every policy and the global maximum allow |
| GuardedExecution.EveryAnswerWithinPolicy | backend/app/query_execution/service.py:188-256 | through validator and cache together, nobody gets more rows than the policies of the tables asked now and the global maximum allow, whoever filled the cache |
| AnswerPlan.CategoryDimension | backend/app/ai/answer_strategy.py:236-245 | a category is a permitted dimension that is not a time, and one is found whenever the metric permits any |
| PlannedQueries.CategoryChosen | backend/app/ai/answer_strategy.py:207-248 | the category is the first permitted one the request names, else the first permitted preferred one, else the metric's first; there is none only if the metric has none |
| PlannedQueries.TimeChosen | backend/app/ai/answer_strategy.py:223-235 | the time key is the preferred one if permitted, else chosen in the same order |
| PlannedQueries.QueriesAskAsAsked | backend/app/ai/answer_strategy.py:301-504 | what each query of each plan asks for: the request's metric, filters and period or the period before, the chosen dimension, and a number of rows that is the one asked for or the nearest within the block's bounds |
| PlannedQueries.LargestGroupsListed | backend/app/ai/answer_strategy.py:348-379 | whatever the database may return to the query of a comparison, a distribution or a report's comparison: the largest groups asked about, in descending order, as many as the rows served allow, and no group left out larger than one listed |
| AnswerPlan.PlanShape | backend/app/ai/answer_strategy.py:520-546 | every plan has distinct block keys, one mandatory query and only optional others |
| AnswerPlan.ShapedIsPlanned | backend/app/ai/answer_strategy.py:248-263 | whatever limit and sorting a request came with, its shaped query compiles exactly when the chosen dimension and the rest are governed; the baseline compiles whenever the headline does |
| AnswerPlan.RecordsCompileIff | backend/app/ai/answer_strategy.py:568-685 | a record query compiles exactly when metric, grain, period and those dimensions and filters are governed that the metric lists and the catalogue knows, others being skipped; it ends in an exception exactly for an unknown metric or grain |
| AnswerMeaning.RecordsMean | backend/app/ai/answer_strategy.py:568-685 | the conditions of a record query hold of a row exactly if it matches every filter that the metric lists and the catalogue knows and lies in the period asked about; the query reads the fact table of the metric's grain and as many rows as asked, capped |
| AnswerPlan.PlannedIffAnswerable | backend/app/ai/answer_strategy.py:520-546 | the plan of a request exists and all its queries compile if and only if the request itself is governed, with the dimension its answer type needs; the optional sections of a report count too, and a preferred metric does not help a request that names none |
| AnswerPlan.CompileSpecs | backend/app/ai/orchestrator.py:518-521 | the loop compiles every query under its key, or stops at the first one refused |
| AnswerPlan.BuildEscapes | backend/app/semantic/errors.py:78-81 | every error of plan building is raised with a text where a reason is expected, so it escapes; the condition on the request for that is exact |
| AnswerPlan.OnlyTablesEscape | backend/app/ai/answer_strategy.py:568-572 | among a plan's queries the first one refused ends in an exception exactly for a table over an unknown metric or grain |
| AnswerPlan.TrendWithoutTimeEscapes | backend/app/ai/answer_strategy.py:384-387 | a trend of a metric that lists only the city ends in an unhandled exception |
| AnswerPlan.ExecuteAnswerPlan | backend/app/ai/answer_strategy.py:776-828 | the loop over specs runs them as specified and stops at the first mandatory failure |
| AnswerPlan.BlocksAndFailuresSplit | backend/app/ai/answer_strategy.py:776-828 | the queries tried are split into disjoint blocks and failures, none missing, and the total time is the sum over the blocks |
| AnswerPlan.OutcomesAreTold | backend/app/ai/answer_strategy.py:727-770 | each query tried and done leaves its rows and time under its key, each other one whether the guardrail or the database stopped it, and why |
| AnswerPlan.PrimaryBlock | backend/app/ai/answer_strategy.py:801-812 | the primary block exists exactly when the primary query was done; otherwise nothing else ran |
| AnswerPlan.Workflow.Run | backend/app/ai/orchestrator.py:261-814 | a request succeeds if and only if it is help, or gets past the gates, is governed, and its main query is let through and answered; it then carries the payload of its type, the rows and the time of all queries done; otherwise no payload, and the missing-payload error never occurs; past the gates it ends in an unhandled exception exactly when no metric is known, the metric lacks the kind of dimension its answer needs, or a table's own metric is unknown or of unknown grain |
| AnswerPlan.PayloadMeans | backend/app/ai/answer.py:864-927 | each payload shows the rows of its request's own queries under the requested metric and the chosen dimension; the baseline and each section of a report are there exactly when their optional query was planned and done |
| Payloads.ChangeAddsUp | backend/app/ai/answer.py:565-593 | baseline and change add up to the figure within rounding; the percentage is missing exactly over a zero baseline, and has the opposite sign of the change exactly when the baseline is negative and neither rounds to zero |
| Payloads.RiseShownAsFall | backend/app/ai/answer.py:588 | from -10 to -5 the change is +5 and the percentage -50 |
| Payloads.RankingDescendsIff | backend/app/ai/answer.py:596-624 | the ranking holds every row once, numbered in order; its figures descend if and only if the rows do not have both a zero and a negative figure |
| Payloads.RankedItemTells | backend/app/ai/answer.py:596-624 | each item of a ranking tells its place and the category of its row, a missing one by its number, and its figure to the nearest ten-thousandth |
| Payloads.SeriesTells | backend/app/ai/answer.py:627-656 | a series has a point for each row in order, by its time and its figure; its peak and low are a highest and a lowest point |
| Payloads.BreakdownTells | backend/app/ai/answer.py:659-691 | a breakdown with a positive total adds up the figures of all rows, and each of its at most seven items is a row's category with its figure, or the rest |
| Payloads.ReportInOrder | backend/app/ai/answer.py:716-860 | a report's sections and key figures come in a fixed order, none twice |
| Payloads.LossLeadsZero | backend/app/ai/answer.py:601 | a figure of -5 is ranked above a zero |
| Payloads.PeakOf | backend/app/ai/answer.py:640 | the peak is the first point with the largest value, missing exactly when no point has a value |
| Payloads.LowOf | backend/app/ai/answer.py:641 | the low is the first point with the smallest value, missing exactly when no point has a value |
| Payloads.ReportShowsAll | backend/app/ai/answer.py:716-852 | a report shows exactly the sections and key figures of the blocks it was given; the cap of four key figures cuts none off |
| AnswerMeaning.HeadlineIsTheFigure | backend/app/ai/answer.py:565-593 | whatever the database may answer and however few rows are served, the headline shows the metric over the fact rows of the period and its change since the metric over those of the period before, two disjoint sets that make up the joint period; a figure is missing only under a row limit of zero |
| AnswerMeaning.ServedIsReturned | backend/app/query_execution/service.py:188-204 | running with LIMIT k and cutting to r rows serves exactly what answers of the smaller of the two may be |
| TrendOrder.AlwaysInTimeIff | backend/app/semantic/planner.py:522 | rows sorted by figure and cut to n are in time order in every possible answer if and only if no later group may come before an earlier one: with a smaller figure and fewer than n groups below the earlier one, or an equal figure and fewer than n - 1 |
| TrendOrder.TrendInTimeIff | backend/app/semantic/planner.py:522 | a trend of which n rows are returned is sure to come in time order if and only if its time key is day or no two of its groups may come out of order |
| TrendOrder.PassedTrendInTimeIff | backend/app/semantic/sql_validator.py:354-391 | the same for the rows served once the guardrail has passed the trend's text, n being what its own limit, the policies', the global one and a literal that looks like a LIMIT make of it |
| TrendOrder.DaysFromTheEarliest | backend/app/semantic/planner.py:522 | a trend by day shows the earliest days in order and leaves out the latest |
| AnswerExamples.QuietMomentComesFirst | backend/app/ai/answer_strategy.py:377-402 | a count of distinct orders by a time key other than day: the plan is built, its query passes the guardrail for thirty rows, and over three orders it need not come in time order |
| AnswerExamples.PolicyHidesMore | backend/app/semantic/sql_validator.py:354-391 | a passed table query, a global cap of a thousand, a policy of twenty rows and thirty records: twenty are shown and none said to follow |
| AnswerMeaning.PageIsHonestIff | backend/app/ai/answer.py:694-713 | a passed table query shows at most 25 of the records its final text finds and tells rightly whether there are more if and only if it was served more than a page or all of them; what it is served is computed from its own limit, the policies', the global cap and a LIMIT read from a literal |
| Distribution.DistributionItems | backend/app/ai/answer.py:247-287 | the collecting, sorting and bucketing computes the specified breakdown |
| Distribution.RankedIsDescending | backend/app/ai/answer.py:261 | ranking permutes the items into descending order and keeps their sum |
| Distribution.TiesKeepOrder | backend/app/ai/answer.py:254-261 | ranking keeps exactly the rows that have a value, by their categories, a missing one being Unknown, and equal values in their order |
| Distribution.NothingIsLost | backend/app/ai/answer.py:659-691 | with a positive total the values shown add up to the total exactly, at most limit + 1 items are shown, and the rounded shares add up to 100 within 0.005 per item |
| Distribution.EachItemTells | backend/app/ai/answer.py:276-286 | each item tells its place and, with a positive total, its own share to within half a hundredth of a percent, and what is summed up is called Other |
| Distribution.LargestAreShown | backend/app/ai/answer.py:272-275 | the categories shown are the largest, in descending order, and the rest is the total minus what is shown |
| Distribution.NoSharesWithoutTotal | backend/app/ai/answer.py:263-271 | without a positive total nothing is bucketed or given a share |
| Distribution.OtherMarkIsByLabel | backend/app/ai/answer.py:276-286 | the mark singles out the summed-up rest exactly when no category shown is called Other |
| Distribution.OtherCategoryIsMarked | backend/app/ai/answer.py:283 | a single category called Other is marked as the rest although nothing was summed up |
| Distribution.TotalIsOfFetched | backend/app/ai/answer_strategy.py:405-430 | the total is that of the rows fetched, so shares are of the whole exactly when the rows the query's limit cut off add up to nothing |
| CatalogAdmin.StepKeepsReferences | backend/app/semantic/service.py:393-749 | every accepted step keeps references intact: grains, permitted dimensions and filters, examples, templates, and metric and dimension terms stored without surrounding spaces |
| CatalogAdmin.ReferencesAlwaysIntact | backend/app/semantic/service.py:393-749 | references are intact after any sequence of accepted and refused steps |
| CatalogAdmin.AcceptedStepStores | backend/app/semantic/service.py:417-749 | an accepted step leaves the row it was given under its key, or none after a deletion, and every other key and table as it was |
| CatalogAdmin.AcceptedIff | backend/app/semantic/service.py:393-749 | a step is accepted if and only if it creates what is not there or changes what is, what it is given is in order and names active rows only, no row looked at refers to what it deletes, and a term moves to no other's text |
| CatalogAdmin.SafeKeyMeans | backend/app/semantic/validators.py:10 | a key is a lower-case letter followed by lower-case letters, digits and underscores, and perhaps by a final newline |
| CatalogAdmin.DimensionDeletionDangles | backend/app/semantic/service.py:402-414 | an allowed dimension deletion leaves a term behind exactly when a filter term, or a dimension term stored with spaces, names the dimension |
| CatalogAdmin.MetricDeletionDangles | backend/app/semantic/service.py:393-399 | an allowed metric deletion leaves a term behind exactly when a metric term stored with spaces names the metric |
| CatalogAdmin.FilterTermLeftBehind | backend/app/semantic/service.py:407-408 | three accepted steps that end with a filter term naming no dimension |
| CatalogAdmin.BuildCatalog | backend/app/semantic/service.py:167-198 | the catalogue holds the active rows under their own keys, with filters equal to dimensions |
| CatalogAdmin.AdministeredCatalogPlans | backend/app/semantic/service.py:167-198 | on a catalogue only administration steps have touched no request fails for its metric's grain, and a permitted dimension is missing only when switched off |
| CatalogAdmin.UnknownKeys | backend/app/semantic/validators.py:144-176 | one issue for exactly the keys that name no active dimension |
| CatalogAdmin.ValidateMetricDefinition | backend/app/semantic/validators.py:144-176 | there is no issue exactly for a valid metric, and every unknown dimension or filter key is reported |
| CatalogAdmin.ValidateUseDefinition | backend/app/semantic/validators.py:236-284 | the same for an example or an approved template |
| CatalogAdmin.DimensionInUse | backend/app/semantic/service.py:402-414 | the loops over metrics, examples and templates find a use exactly when some row names the dimension |
| CatalogAdmin.Store.CreateMetricEntry | backend/app/semantic/service.py:417-432 | a metric is stored exactly when it has no issue and its key is new; then all its dimensions exist and intact references stay intact |
| CatalogAdmin.Store.DeleteDimensionEntry | backend/app/semantic/service.py:540-546 | a dimension goes exactly when it exists and no metric, term, example or template row names it; the others stay and intact references stay intact |
| CatalogAdmin.Store.CreateTemplateEntry | backend/app/semantic/service.py:675-690 | a template is stored exactly when its key is new and all it names is active; intact references stay intact |

## Left out

- CompilerCorrectness.CompiledMeansDirect: does not cover a metric whose key is also a requested dimension, because PostgreSQL rejects its ORDER BY as ambiguous.
- NextRun.NextRunAtIsFirstAfter: does not model the overflow after the year 9999, where Python's dates end.
- Fingerprint.CanonicalDeterminesNormalForm: a statement with a backslash, a dollar sign or a blank that PostgreSQL takes for none is a canonical form of its own, since escape strings and dollar quoting would need their own rules.
- QueryCache.HitIsRightIffSameMeaning: an exact database may answer two statements of different canonical form differently; that PostgreSQL answers statements of the same tokens alike is its lexical rule, not proved here.
- SchedulerProtocol.AtMostOneActiveRun: speaks of runs the enqueue step created; with manual runs it fails, exactly as OverlapBegins of `SchedulerGaps` says.
- SchedulerProtocol.FiringsWithinOccurrences: takes each edit of a schedule as one atomic write; two API edits of one schedule racing each other, and an edit whose computed time equals the stored one and is therefore not written, are not modelled.
- RunLives.RunsLive: takes the outcome of each finished execution as the one `ReportExecution` computes, whole executions at a time, and run ids, which are random UUIDs, as never used twice.
- ReportExecution.ExecuteReportRun: does not model failures of the platform database itself, nor the fields that only copy text (stack traces, validator summary, snapshots, artifacts).
- CompiledIsSafe.CompiledQueryPasses: takes as given the parse tree of the text, and that what sqlglot renders from the template (compiler.py:101) is again SELECT, keywords, symbols, given texts and the LIMIT clause; how it rewrites literals and the metric's own SQL is not modelled.
- AnswerPlan.Workflow.Run: takes the language model's drafts, the confidence score, the guardrail's verdicts and the databases' rows as inputs; the cards of a help answer are one constant payload.
- CatalogAdmin.StepKeepsReferences: takes the checks on a row's own text (expression fragments, join paths, chart and data types) as a given verdict.
- Literals.LiteralReadsBack: does not cover numeric values, because numeric literals go through Python's float and its printing, which are parameters of the model; nor values such as nan, which float accepts and PostgreSQL does not read as a number. Years below 1000 are printed with four digits, which Python leaves to the platform.
- Distribution.NothingIsLost: works on reals and rounds halves away from zero, where Python rounds the nearest binary fraction; the bound holds for any rounding to nearest.
- The batch sizes and ORDER BY of the enqueue and claim statements: any subset of the due rows may be taken, which only adds behaviours.
- SchedulerCycle.Session.EnqueueDueSchedules: runs its rounds without other transactions in between; the protocol lets them in between any two rounds.
- The lock an execution takes on its schedule row when it writes last_run_at: leaving it out only adds behaviours.
- Runs of a report without a schedule, and deletion of schedules and reports.
- Concurrent calls of the cached executor: calls follow one another, so races on the unique key of the cache table are not modelled.
- Join paths of several joins; a metric may be any function of columns of its fact table, but not read other aliases or subqueries.
- PostgreSQL's implicit casts between a column and a literal of another type.
- Malformed date texts in a period, which PostgreSQL rejects; the server's and the database's current day are taken to be the same.
- Booleans and other column types are compared as text; characters beyond ASCII belong to no character class and have no letter case.
- SHA-256 is taken as injective; sqlglot and PostgreSQL appear as a parse tree, an evaluator and an arbitrary EXPLAIN cost.
- The planner's notes, explanations, clarification reasons and chart types; switching between views; report version numbers.
- The columns a record query selects, the texts of insights and availability notes, column types, and the rounding of a breakdown's values to four places.
- Classification, retrieval, confidence scoring, the language model, mail and chat delivery, routing, authentication and the frontend.
- The create, update and delete methods of the catalogue that have no loop of their own; their checks are the branches of the administration step.
- Errors of sqlglot on the text of a record query, which is parsed without a check.
