# Sajni: verified core

Dafny models of the parts of Sajni whose correctness spans many calls: the
tool-calling conversation, the calendar schedules and the money posted on them,
the claim-and-lease protocols of the background jobs, and the ledger and task
graph. `dafny verify dfyconfig.toml` checks everything (Dafny 4.11).

| file | what it models |
|---|---|
| `Conversation.dfy`, `History.dfy` | turns, part cleaning, the greedy pairing of calls and responses, the validation pass, the alternating suffix, and what the repair of a stored history guarantees |
| `Sanitizer.dfy` | the same repair as the loops over turn objects that write repaired IDs in place, proved equal to those functions |
| `AgentLoop.dfy` | the agent loop: streams, deduplication, dispatch, tool rounds, the wrap-up round, and how its saved history meets the repair |
| `Calendar.dfy` | the Gregorian calendar (section 3.2.1 of ISO 8601:2004) and the anchored month step |
| `Deposits.dfy`, `DebitSchedule.dfy`, `InvestmentDebits.dfy`, `Billers.dfy` | deposit values, the first debit date, catch-up runs of auto-debit, and billers with cron and manual payments side by side |
| `Idempotency.dfy`, `Reminders.dfy`, `MediaReleases.dfy`, `AiLimiter.dfy` | keyed requests, reminder and release leases, the sliding usage window |
| `Statements.dfy`, `Transfers.dfy`, `TaskGraph.dfy`, `FreeSlots.dfy` | the statement chain, transfer pairs, the blocked-by graph, the free-slot sweep |

Protocols are transition systems: one SQL statement or transaction is one step,
an action that is not enabled does nothing, and a run is any sequence of actions.
The model, the tools, deliveries, clocks and faults are parameters, so every
statement is for every choice of them. Timing assumptions are hypotheses about the
run (`TimelyRun`, `CarefulRun`), and every protocol says when the property breaks
without them. Code that changes state is written as classes and loops whose contracts
give the whole new state as a function; the theorems are about that function, or about
a transition system of which an undisturbed pass is proved to be a run.
A nil turn is a turn with role `Other` and a nil part is an empty part: the source
drops both in the same branch.

Where the code does not keep what its own words say, the model follows the code and
says exactly when it does:

- The comments of `TrimHistory` and `SanitizeHistory` promise a history that never
  ends in a call. The final cut can leave one (`History.DanglingCallExample`) exactly
  in the case of `History.SanitizeEndsInCallIff`. For the same reason, and because
  stripped calls can leave neighbouring texts (`History.UntidyAreStripped`), repairing
  twice can differ from repairing once (`History.SanitizeIdempotentIff`).
- When the model is silent after its last tool, the saved history ends in a user turn
  and the repair leaves the call without its answer (`AgentLoop.SilentRoundLeavesCall`).
- The stored anchor of an auto-debit is the day of the first, possibly clamped date,
  not the start date's day (`DebitSchedule.StoredAnchorKeepsDayIff`).
- Without a usable anchor day the month step falls back to the current day and drifts
  (`Calendar.NoAnchorDriftsIff`); every caller passes a usable one.
- `ProcessReminderCron` is described as idempotent because of its stamp; a stamp that
  is lost after delivery lets the reminder go out again
  (`Reminders.LostStampDeliversAgainIff`).
- A task is not to be completed while subtasks are open, but a month goal that is
  finished through its last session can still have open work below a scratched one
  (`TaskGraph.GoalFinishesOverOpenWorkIff`).
- Deduplication keeps different calls apart for every tool name without a bar and other
  than `id` (`AgentLoop.SameKeyIff`), as all names here are; others can collide
  (`AgentLoop.OddNamesCollide`).
- Creating a transfer refuses two equal accounts; editing one leg does not
  (`Transfers.EditFoldsIff`).

## Model

| member | source | states |
|---|---|---|
| Conversation.CleanPartsFixedIff | internal/ai/sessions.go:142-186 | part cleaning changes nothing exactly when every part is valid and no two neighbouring texts can merge |
| Conversation.CleanPartsKeepsSayings | internal/ai/sessions.go:157-186 | cleaning keeps every call, response and visible text of the parts that are not thoughts, in order |
| Conversation.TextsMelt | internal/ai/sessions.go:166-172 | a run of texts becomes the one text of all of them |
| Conversation.GreedySound | internal/ai/sessions.go:232-251 | a passing match is one-to-one, agrees on non-empty names and, after repair, on the ID of every call that has one |
| Conversation.GreedyStable | internal/ai/sessions.go:232-251 | matching the repaired responses again gives the same match and repairs nothing more |
| Conversation.OrderedResponsesPass | internal/ai/sessions.go:212-253 | one response per call, in call order, with the calls' names and with IDs that are equal or missing, must pass; missing IDs are filled in from the calls and nothing else changes |
| Conversation.IdentifiedResponsesPass | internal/ai/sessions.go:232-251 | responses with the names and IDs of the calls must pass in any order, unrepaired |
| Conversation.PairMatchStable | internal/ai/sessions.go:215-253 | the second check of a response turn agrees with the first, which repaired it |
| Conversation.AnswersMeaning | internal/ai/sessions.go:215-253 | a turn that passes unrepaired has as many responses as calls, matched one-to-one by name and compatible ID |
| Conversation.PassStep | internal/ai/sessions.go:321-353 | one step of the validation loop keeps everything before paired; a kept call at the end is answered by the next turn |
| Conversation.ValidatePaired | internal/ai/sessions.go:321-353 | after the validation loop every response answers the turn before it and every call is answered, with no exception |
| History.SuffixLongest | internal/ai/sessions.go:261-286 | the suffix is the longest alternating segment up to the last model turn that opens with a question, and empty exactly when there is none |
| History.SanitizeWellFormed | internal/ai/sessions.go:296-356 | for every input the result is an even user/model alternation that opens with a question, responses answer the call right before them, and calls but possibly the last are answered |
| History.SanitizeFixedIff | internal/ai/sessions.go:296-356 | the repair leaves a history alone exactly when it is well formed, has nothing to clean and does not end in a call |
| History.LegacyExchangeIsKept | internal/ai/sessions.go:212-253 | a stored exchange whose responses lack IDs is kept whole, with the IDs filled in |
| History.UnansweredCallIsStripped | internal/ai/sessions.go:335-346 | a text with an unanswered call loses the call and keeps the text |
| History.UntidyAreStripped | internal/ai/sessions.go:335-346 | the validated turns a second cleaning would change are exactly what is left of unanswered call turns whose other parts can be merged |
| History.SanitizeIdempotentIff | internal/ai/sessions.go:296-356 | repairing twice equals repairing once exactly when every validated segment that may be returned is tidy, and none may be when the last surviving model turn is an answered call |
| History.OneRepairIsEnough | internal/ai/sessions.go:296-356 | one repair is enough unless it strips calls from between texts or cuts an answer off |
| History.SanitizeEndsInCallIff | internal/ai/sessions.go:262-265 | the result ends in an unanswered call exactly when the validated turns hold an alternation up to their last model turn and the last model turn that survives is an answered call |
| History.CutAnswer | internal/ai/sessions.go:262-265 | a good history followed by one more user turn is cut back to itself, even when that turn answered its last call |
| History.DanglingCallExample | internal/ai/sessions.go:124-138 | question, call and answer are repaired to question and call, and a second repair changes that again |
| History.TrimBounds | internal/ai/sessions.go:132-138 | what the model is given is well formed and at most 40 turns; it is the whole history exactly when that is short enough and needs no repair |
| History.TrimKeepsNewest | internal/ai/sessions.go:132-138 | of a longer history that needs no repair the forty newest turns are given, exactly when they do not open with a response |
| Sanitizer.SanitizeParts | internal/ai/sessions.go:157-186 | the merge loop computes the cleaned parts |
| Sanitizer.FunctionPairMatches | internal/ai/sessions.go:215-253 | verdict and in-place ID repair are those of the greedy match, repairs made before a failing match included |
| Sanitizer.MatchInPlace | internal/ai/sessions.go:231-252 | the nested loops with the used flags compute the greedy match and write its repaired responses into the turn |
| Sanitizer.AlternatingHistorySuffix | internal/ai/sessions.go:261-286 | the search returns the turns of the longest alternating suffix |
| Sanitizer.ValidateTurn | internal/ai/sessions.go:322-352 | one round keeps, drops or strips a turn as specified and writes to that turn and the next one only |
| Sanitizer.SanitizeHistory | internal/ai/sessions.go:296-356 | the whole repair on objects equals the specified repair and returns fresh turns only |
| Sanitizer.TrimHistory | internal/ai/sessions.go:132-138 | the bounded history on objects equals its specification |
| AgentLoop.StreamRound | internal/ai/service.go:365-416 | one stream read to its end or break yields its visible text, one delta per visible part, and the deduplicated call parts |
| AgentLoop.DedupeCorrect | internal/ai/service.go:31-40 | deduplication keeps only calls, no key twice, and no received key is lost |
| AgentLoop.SameKeyIff | internal/ai/service.go:31-40 | calls share a key exactly when they have the same ID, or no IDs and the same name and arguments (for names without a bar and other than `id`) |
| AgentLoop.OddNamesCollide | internal/ai/service.go:31-40 | a call of a tool named `id` can take the key of a call with an ID, which is then lost |
| AgentLoop.KeptCallStandsFor | internal/ai/service.go:31-40 | for any names: each received call has a kept one that agrees on the ID if both have one, and on the arguments if neither has one and the names are equal |
| AgentLoop.EachCallKeptOnce | internal/ai/service.go:378-416 | with such names each call of a stream has its own among the kept ones, and no two kept ones are the same call |
| AgentLoop.EveryKeptCallRuns | internal/ai/service.go:428-478 | a tool round reached by tools alone puts its text, its kept calls and what each tool returned on record: dispatched, told and saved, in order |
| AgentLoop.DifferentCallsBothRun | internal/ai/service.go:31-40 | two calls without IDs that differ in their arguments are both dispatched |
| AgentLoop.PayloadTells | internal/ai/service.go:449-477 | what a tool returned, data or error, can be read back from the response |
| AgentLoop.ThoughtsAreHidden | internal/ai/service.go:394-397 | what is shown is the text of every part that is no thought |
| AgentLoop.ReceivedUntilBreak | internal/ai/service.go:380-384 | everything before a break is received and nothing after it |
| AgentLoop.DispatchCalls | internal/ai/service.go:449-477 | each call is announced, dispatched and answered in order, with one response of the same name and ID |
| AgentLoop.ToolRound | internal/ai/service.go:428-478 | a round that asks for tools records its call turn and response turn and keeps the run paired |
| AgentLoop.Run | internal/ai/service.go:272-529 | every run ends in its one terminal event; the final text is the concatenation of the deltas; call results follow their calls; calls of a round have distinct keys; there are at most `rounds` tool rounds and one wrap-up call, after which nothing is asked or dispatched; the saved history is the prior one, the question, and answered calls |
| AgentLoop.MirrorAnswers | internal/ai/service.go:470-478 | the response turn the loop writes passes the repair's pair check for its call turn unchanged |
| AgentLoop.RunEnds | internal/ai/service.go:365-529 | read off the streams alone: in which round a run stops, whether it ends in an answer or an error, what it says, and how many turns it saves |
| AgentLoop.RunSurvivesRepair | internal/ai/service.go:272-529 | for a conversation that needs no repair and a model that names its calls: whatever the tools do, the repair leaves a run's history alone when it ends in a model turn, and otherwise cuts exactly its last turn |
| AgentLoop.SilentRoundLeavesCall | internal/ai/service.go:440-447 | a run's repaired history ends in a call exactly when some later round, reached by tools alone, neither breaks nor asks nor says anything |
| Calendar.DayNumberOrders | internal/api/recurrence.go:7-17 | day numbers order dates by month, then day, and tell them apart |
| Calendar.NewYearsDay | internal/api/recurrence.go:11-12 | month lengths, counted month by month, add up to the usual leap-year formula at every new year |
| Calendar.StepsAreOneJump | internal/api/recurrence.go:7-17 | with a stored anchor, k steps equal one jump of k times the months, clamped to that month alone |
| Calendar.NoAnchorDriftsIff | internal/api/recurrence.go:8-10 | without a usable anchor, steps equal one jump exactly when no month on the way is too short for the day the jump lands on |
| Calendar.StepIsLater | internal/api/recurrence.go:7-17 | a step of at least one month is strictly later |
| Calendar.StepIsMonotone | internal/api/recurrence.go:7-17 | a later date steps to a later or equal one |
| Calendar.QuarterAtMost92Days | internal/api/recurrence.go:7-17 | an anchored quarter has at most 92 days |
| Deposits.CompoundDeposit | internal/api/investment_values.go:80-100 | the loop computes quarterly compounding with simple interest over the broken period |
| Deposits.EffectiveInvestmentValue | internal/api/investment_values.go:34-75 | the value of any investment, rounded, in every branch |
| Deposits.RecurringDeposit | internal/api/investment_values.go:64-74 | the instalment loop values each instalment from its own date and keeps the rest at face value |
| Deposits.CompoundMonotone | internal/api/investment_values.go:80-100 | a deposit never loses value as the date advances and is never below its principal |
| Deposits.ValueNeverFalls | internal/api/investment_values.go:34-104 | the shown value never falls over time, across quarters, instalments and maturity, and a deposit is never shown below what was invested |
| Deposits.RecurringNeverBeatsFixed | internal/api/investment_values.go:57-74 | the same money at the same rate from the same day is worth at least as much as a fixed deposit |
| Deposits.FixedDepositValue | internal/api/investment_values.go:80-100 | in figures: invested times (1 + percent/400) to the number of quarters over, times 1 + percent * days since / 36500 |
| Deposits.RecurringDepositValue | internal/api/investment_values.go:60-74 | a running recurring deposit is worth what its due instalments are worth as fixed deposits of their own, and what is not paid in yet |
| Deposits.MaturityStops | internal/api/investment_values.go:46-50 | after maturity the value stands still; up to it the maturity date makes no difference |
| Deposits.ValueWithoutGrowth | internal/api/investment_values.go:34-54 | other kinds are shown at their stored value, a deposit without money, return or start, or not started, at what was invested |
| Deposits.RoundMoneyNearest | internal/api/investment_values.go:102-104 | whole cents, the nearest ones, halves away from zero |
| DebitSchedule.ProjectionsAgree | internal/ai/tools_investments.go:53-93 | the assistant's projection gives the same date as the API's for every input |
| DebitSchedule.LeastDateOnDay | internal/api/investments_cron.go:26-43 | for a past start it is the least date from today on that carries the start's day, clamped to its month |
| DebitSchedule.ProjectedDate | internal/api/investments_cron.go:38-41 | the projection of a past start is its day, clamped, in this month or the next |
| DebitSchedule.StoredAnchorKeepsDayIff | internal/ai/tools_investments.go:75-80 | for every start, today and frequency: the stored schedule keeps the start's day exactly when the start is not past, or the first month has that day, or the schedule is yearly and that month is no February of 28 days |
| InvestmentDebits.Investment.PostInvestmentDebit | internal/api/investments_cron.go:157-196 | one cycle: contribution and transfer together, or neither when the due date is already there |
| InvestmentDebits.Investment.ProcessInvestmentDebits | internal/api/investments_cron.go:103-150 | the catch-up loop equals the specified run, for any fault at any cycle |
| InvestmentDebits.FailedRunsDoNotMatter | internal/api/investments_cron.go:102-196 | any runs that fail or die anywhere, ended by one that does not, leave exactly what that run alone leaves |
| InvestmentDebits.FinalBook | internal/api/investments_cron.go:102-196 | a full run leaves one contribution per due schedule date and no other, moves amount times count, and stores the first date after today or switches off at maturity |
| InvestmentDebits.DebitedIff | internal/api/investments_cron.go:102-150 | a full run debits exactly the schedule dates up to today and before the maturity date, and does nothing without auto-debit, account, amount or date |
| InvestmentDebits.ScheduleDates | internal/api/investments_cron.go:46-60 | the schedule in dates: the anchor day, clamped, every third, twelfth or single month |
| Billers.Biller.PostBillerTxn | internal/api/billers.go:456-501 | payment row and expense together, nothing when the cycle is recorded |
| Billers.Biller.AttachBillerTxns | internal/api/billers.go:506-553 | the payment row without an expense, nothing when the cycle is recorded |
| Billers.Biller.PayBiller | internal/api/billers.go:416-441 | records or attaches the current cycle and rolls the stored date by one step, or refuses and changes nothing |
| Billers.Biller.ProcessBillerCron | internal/api/billers.go:739-771 | an undisturbed pass posts every cycle up to today and stores the next date |
| Billers.EveryRunIsSafe | internal/api/billers.go:416-553 | under any interleaving with deaths: no due date is paid or charged twice, each recorded payment has its expense, and every schedule date before the stored one is paid |
| Billers.SweepCatchesUp | internal/api/billers.go:739-771 | from any reachable state an undisturbed pass ends past today with everything before paid, and pays nothing later than today |
| Billers.ScheduleDates | internal/api/billers.go:72-85 | the schedule in dates: every 7 or 14 days, or the anchor day, clamped, every second, third or single month |
| Billers.SweepPays | internal/api/billers.go:739-771 | a sweep pays exactly the schedule dates from the stored one up to today, charges those not paid before, and stores the first one after today |
| Billers.SweepIsRun | internal/api/billers.go:739-771 | an undisturbed sweep is one of the runs the safety theorem is about |
| Billers.PayIsRun | internal/api/billers.go:416-441 | so is an undisturbed manual payment or attachment |
| Billers.AttachChargesNothing | internal/api/billers.go:506-553 | an attachment pays its cycle and posts no expense |
| Billers.StaleWriteMovesBack | internal/api/billers.go:433-436 | a late manual write can move the stored date back to a cycle that is already paid |
| Idempotency.RecordingWriter.WriteHeader | internal/api/idempotency.go:93-99 | the first final code is kept and equals what the client got |
| Idempotency.RecordingWriter.Write | internal/api/idempotency.go:101-105 | the kept body and status stay what the client got; under 204 and 304 nothing is sent |
| Idempotency.Keys.Claim | internal/api/idempotency.go:36-44 | a claim inserts, or takes over a claim older than two minutes, and touches no other key |
| Idempotency.Keys.Settle | internal/api/idempotency.go:69-77 | a 5xx deletes the row, any other reply is stored in it |
| Idempotency.Keys.WithIdempotency | internal/api/idempotency.go:24-80 | one undisturbed request: bypass, run and store, pending, or replay |
| Idempotency.EveryTimelyRunIsSafe | internal/api/idempotency.go:34-81 | with no handler outstaying two minutes: at most one runs at a time, nothing starts, is stored or dropped after a stored reply, and every repeat is that reply |
| Idempotency.StoredReplyStays | internal/api/idempotency.go:34-81 | a stored reply stays in the row for the rest of the run |
| Idempotency.ReadTells | internal/api/idempotency.go:46-66 | a later copy gets the stored reply if there is one, 409 while the change runs, and an error only when the row is gone |
| Idempotency.RequestIsRun | internal/api/idempotency.go:34-80 | an undisturbed request is a run of the steps the theorems are about |
| Idempotency.RerunsOnlyAfterFailure | internal/api/idempotency.go:21-23 | a change is run again only after the run before it died or answered with a 5xx |
| Idempotency.SecondStartIff | internal/api/idempotency.go:36-44 | while a request is live another one starts the change a second time exactly when the first has held its claim for over two minutes |
| Idempotency.LateHandlerRunsChangeAgain | internal/api/idempotency.go:69-73 | a late 5xx then deletes the other request's stored reply and the change runs once more |
| Reminders.Table.ClaimDue | internal/api/reminders.go:225-247 | a claimed row is due again exactly after its lease within its thirty minutes; nothing a sweep would claim is left, and no stamp, time or arming moves |
| Reminders.Table.ProcessReminderCron | internal/api/reminders.go:216-294 | an undisturbed sweep stamps every delivered due row, frees every failed one and moves no other |
| Reminders.Table.SendSingle | internal/api/reminders.go:314-376 | an undisturbed fire stamps, frees, or does nothing, and may leave a claim when owner or task are gone |
| Reminders.EachArmingDeliveredOnce | internal/api/reminders.go:222-376 | with everybody on time and no stamp lost, no arming is delivered twice, each delivery was claimed within thirty minutes of its time and went out within the lease |
| Reminders.OnlyFailedIsDueAgain | internal/api/reminders.go:279-291 | after its write a failed delivery is due again at once within its thirty minutes, a successful one never |
| Reminders.SweepIsRun | internal/api/reminders.go:222-294 | an undisturbed sweep is one of the runs the safety theorem is about, with the same table and as many deliveries |
| Reminders.SweptRow | internal/api/reminders.go:222-294 | what a sweep leaves of each row, on its fields |
| Reminders.FireIsRun | internal/api/reminders.go:314-376 | an undisturbed fire is a run; it delivers exactly a due row with its task and owner, and leaves a claim when they are gone |
| Reminders.RearmedIsDue | internal/api/task_reschedule.go:129-134 | a rescheduled reminder is due for half an hour from its new time, once no claim is on it |
| Reminders.LateWrite | internal/api/reminders.go:366-372 | a fire that writes late leaves a stamp alone, a sweep overwrites it |
| Reminders.TakeoverIff | internal/api/reminders.go:230-236 | a row somebody works on is due for another exactly after the lease and within the thirty minutes |
| Reminders.LostStampDeliversAgainIff | internal/api/reminders.go:288-291 | after any wait, a sweep delivers a reminder with a lost stamp again exactly when the lease is over, the thirty minutes are not, and task and owner are still there |
| Reminders.LateFireDeliversAgain | internal/api/reminders.go:276-294 | a fire that outstays its lease delivers next to the sweep that took the row over |
| MediaReleases.Library.GraduateReleasedMedia | internal/api/media_releases.go:95-123 | afterwards no upcoming title is out and a second call moves nothing; exactly the titles that were out leave, and dates and stamps stay |
| MediaReleases.Library.SendDueReminders | internal/api/media_releases.go:125-234 | an undisturbed sweep stamps the announced titles with tomorrow's date and frees the others |
| MediaReleases.StampMeansAnnounced | internal/api/media_releases.go:214-224 | in every run a title stamped for a date was announced with that date |
| MediaReleases.SweepIsRun | internal/api/media_releases.go:125-234 | an undisturbed sweep and a graduation are runs of the steps the theorems are about |
| MediaReleases.EachDateAnnouncedOnce | internal/api/media_releases.go:125-234 | while deliveries are undisturbed no date of a title is announced twice, even if moved away and back, and each goes out the day before |
| MediaReleases.EditDuringDeliveryIff | internal/api/media_releases.go:214-224 | after an edit during delivery, moving the title back lets the date be claimed again exactly when the edit changed what the stamp checks and the lease ends within the same quarter of an hour |
| MediaReleases.EditDuringDeliveryAnnouncesTwice | internal/api/media_releases.go:214-224 | for every day, a run in which that happens |
| AiLimiter.Limiter.Prune | internal/api/ailimit.go:73-85 | exactly the events before the window go; the log stays sorted; other users are untouched |
| AiLimiter.Limiter.Check | internal/api/ailimit.go:44-57 | allowed exactly when both budgets are open; a refusal never finds an empty log |
| AiLimiter.Limiter.Record | internal/api/ailimit.go:62-70 | the pruned log grows by one event, negative counts as zero |
| AiLimiter.WaitEndsWithOldest | internal/api/ailimit.go:52-55 | the wait of a refusal is within the hour, and just after it the oldest event is out |
| AiLimiter.NoHourExceedsLimit | internal/api/ailimit.go:42-85 | with at most k records per successful check, no hour ever holds more than 240 + k - 1 of all events recorded |
| AiLimiter.CheckLooksAtLastHour | internal/api/ailimit.go:44-57 | after any run a check is allowed exactly when the last hour of all recorded events holds fewer than 240 with fewer than 400 000 tokens |
| Statements.FindPrior | internal/api/finance.go:2314-2320 | the statement carried forward is a latest one before the date |
| Statements.Card.ComputeStatementTotals | internal/api/finance.go:2312-2386 | charges, payments, carried balance, each override and cashback; without overrides the amount due moves by what the cycle owes |
| Statements.Card.CreateStatement | internal/api/finance.go:2433-2483 | the new statement follows the latest one before its date |
| Statements.RowMoves | internal/api/finance.go:198-212 | how each kind of row moves the balance and what the card owes |
| Statements.CycleHolds | internal/api/finance.go:2322-2343 | a cycle holds exactly the rows dated after its start and up to its own date, each as often as the ledger does |
| Statements.CashbackLaw | internal/api/finance.go:2368-2380 | a percentage of positive new charges and of nothing else, or one fixed sum; more charges never earn less |
| Statements.ChainAgreesWithBalance | internal/api/finance.go:198-212 | with rows after 1970-01-01, every amount due is the running balance turned, plus an opening credit, less transfers out, for statements made in any order |
| Statements.ChainAgreesIff | internal/api/finance.go:2317-2320 | in general it agrees exactly when the rows up to 1970-01-01 cancel out |
| Statements.OnlyTheDateCounts | internal/api/finance.go:2312-2366 | two histories of one card give equal amounts for equal dates, whatever else was closed |
| Statements.ExtraStatementChangesNothing | internal/api/finance.go:2345-2355 | a statement put in anywhere changes none of those made afterwards |
| Transfers.Ledger.CreateTransaction | internal/api/finance.go:880-1042 | rows and status of every create: plain row, linked pair, or investment transfer |
| Transfers.Ledger.UpdateTransaction | internal/api/finance.go:1265-1356 | the edit reaches the row and its other leg, and the investment follows the amount |
| Transfers.Ledger.DeleteTransaction | internal/api/finance.go:1386-1450 | the row, its other leg and the invested amount go together |
| Transfers.CreateAcceptedIff | internal/api/finance.go:880-1004 | a create is accepted exactly with an own account, a usable slate, a positive amount, a kind it may have and, for a transfer, another own account; 404 only for what is not the user's |
| Transfers.CreateWrites | internal/api/finance.go:1005-1042 | the row, both legs, or the row and the invested amount, field by field |
| Transfers.ChangeAcceptedIff | internal/api/finance.go:1265-1285 | which edits and deletes are accepted, by kind and fields |
| Transfers.EditWrites | internal/api/finance.go:1286-1356 | every row after an edit, field by field: the named one, its other leg, and no other; the investment follows the amount |
| Transfers.DeleteWrites | internal/api/finance.go:1386-1450 | every row but the named one and its other leg stays, and its amount leaves its investment |
| Transfers.RunKeepsSound | internal/api/finance.go:880-1450 | over any run every amount is positive and every slate is the user's |
| Transfers.RunKeepsPairs | internal/api/finance.go:1005-1450 | over any run each leg has its one other leg with the same amount, time, slate and words and crossed accounts |
| Transfers.BalancesAreNet | internal/api/finance.go:198-212 | the sum of all account balances is the openings plus every row once |
| Transfers.StepMovesOnlyFromOutside | internal/api/finance.go:1005-1450 | no transfer operation changes the sum of balances, or of balances and invested amounts; everything else moves it by its row |
| Transfers.DeleteTakesBothLegs | internal/api/finance.go:1428-1438 | deleting one leg removes exactly both |
| Transfers.EditFoldsIff | internal/api/finance.go:1287-1290 | an accepted edit leaves both legs on one account exactly when the account it asks for, or else the one that stays, is the row's linked account |
| TaskGraph.Tasks.ChainHolds | internal/ai/tools.go:2337-2345 | the walk along blockers ends and finds a task exactly when the chain holds it |
| TaskGraph.Tasks.BlockTask | internal/ai/tools.go:2324-2355 | blocks when both tasks exist, the blocker is active and no chain closes; otherwise changes nothing |
| TaskGraph.Tasks.OpenSubtaskCount | internal/db/tasks.go:18-29 | counts the open tasks below one, at any depth |
| TaskGraph.Tasks.CompleteTask | internal/ai/tools.go:655-682 | done unless work is open below, dependents freed, and the month goal finished with its last session |
| TaskGraph.Tasks.ScratchTask | internal/ai/tools.go:2714-2738 | scratches and frees dependents, or restores to todo |
| TaskGraph.Tasks.DeleteTask | internal/ai/tools.go:715-728 | the task and its subtasks go, and whoever they blocked is freed |
| TaskGraph.BlockAcceptedIff | internal/ai/tools.go:2324-2348 | a block is accepted exactly when both tasks exist, the blocker is neither done nor scratched, and the graph with the new link stays acyclic |
| TaskGraph.BlockLinks | internal/ai/tools.go:2346-2350 | an accepted block leaves the task blocked by just this blocker, moves nothing else, and bars the reverse block |
| TaskGraph.ScratchFreesDependents | internal/ai/tools.go:2714-2738 | a scratched task waits for nobody, whoever waited for it is todo again, and nothing else moves |
| TaskGraph.UnscratchRestores | internal/ai/tools.go:2714-2738 | a restored task is todo and unblocked, and nothing else moves |
| TaskGraph.DeleteTakesTree | internal/ai/tools.go:2298-2322 | a delete takes the task and whoever leads up to it, frees who waited for them, and moves nothing else |
| TaskGraph.CompleteRefusedIff | internal/ai/tools.go:655-668 | a completion is refused exactly when no task is named or an open one lies below it |
| TaskGraph.GoalFinishesIff | internal/ai/tools.go:668-679 | completing a task makes a month goal done exactly when it was its last open session |
| TaskGraph.CompleteFreesDependents | internal/ai/tools.go:655-682 | a completed task is done, those it held up are todo again, and besides its own month goal nobody else is touched |
| TaskGraph.LeftAfterDelete | internal/ai/tools.go:2298-2322 | what is left after a delete is as before, except that it waits for nothing that is gone |
| TaskGraph.LinkKeepsAcyclic | internal/ai/tools.go:2337-2348 | a link whose blocker does not lead to the task keeps the graph acyclic |
| TaskGraph.RefusedLinkWouldClose | internal/ai/tools.go:2337-2345 | a link the cycle check refuses would have closed a chain |
| TaskGraph.EveryRunKeepsGraph | internal/ai/tools.go:2277-2355 | over every run: blocked exactly with a blocker, blockers exist and are active, no chain of blockers closes |
| TaskGraph.GoalFinishesOverOpenWorkIff | internal/ai/tools.go:668-679 | completing a task finishes a goal over open work exactly when it is the goal's last open session and other work below the goal is open; completing the goal itself is then refused |
| FreeSlots.FindFreeSlots | internal/ai/tools.go:2251-2271 | slots are free, long enough and bordered by blocks or the day; they follow one another unless a block runs backwards; with positive lengths every long enough free span of the day lies in one |

## Left out

- Sessions, titles, tool bodies, prompts and usage accounting of the assistant: not part of the repair or the loop.
- Thought signatures and argument maps: a call carries its arguments as one string, and signatures change no statement here.
- Cancellation of a request while the loop runs: every run here is read to its end.
- HTTP, JSON, SQL text, logging, push and email: inputs, outcomes and deliveries are parameters.
- Floating-point error and cents: money is real numbers, rounded only where the source rounds.
- Time zones and daylight saving: dates are local dates and times are seconds of one clock.
- Schedules without a stored anchor, edited schedules, and the assistant's own roll-forward of billers, which is a different schedule.
- Biller alerts and spawned bill tasks, and the notices of auto-debit: side effects that no statement here reads.
- The purge of idempotency keys after 30 days.
- Idempotency.RecordingWriter.WriteHeader: covers final codes only; an informational code below 200 would be kept although it does not end the reply.
- Reminders rescheduled, or tasks deleted, while a delivery is in flight.
- Standalone reminders and plan alerts: the same lease again.
- FreeSlots.FindFreeSlots: gives no upper bound by the end of the day, because a slot before a late block runs past it in the code as well.
- AiLimiter.NoHourExceedsLimit: bounds the number of events only, because one event may carry any number of tokens.
- Transfers.Ledger.DeleteTransaction: does not model the refusal of a bill that is still split, because splits are rows of the lending tables.
- Transfers.Ledger.UpdateTransaction: does not model edits of split bills and of adjustments, because both write to the lending tables.
- Transfers.Ledger.CreateTransaction: does not model refunds of a purchase, splits, settlements and the duplicate check of the same five minutes.
- Lends, settlements and deleted accounts: their rows and tables are not part of this model.
- Statement due dates, edits of stored statements and the card payment posted when one is marked paid.
- Transfers.RunKeepsPairs: assumes one handler at a time, because each runs in one database transaction.
- TaskGraph.EveryRunKeepsGraph: takes every tool call as one step, although a call is several statements; two calls at once are not modelled.
- Task events, reminders and files that go with a task.
- The assistant's transaction edit, which moves one leg of a transfer only.
