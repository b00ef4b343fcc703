# boabot: models and proofs

Dafny models of the concurrent and stateful core of the `boabot` runtime, with proofs. Each module
is one component; `dafny verify dfyconfig.toml` checks them all.

* **Relay** - the relay client's subscriptions: registering, attaching, pumping, reconnecting,
  removing and closing, as a step system over every interleaving, with numbered connections and
  channels of bounded capacity.
* **Calendar, Recurrence, Schedules, ScheduleRequest, Scheduler, Ticks** - recurrence arithmetic
  with month overflow and weekday masks, catch-up after missed runs, the request parser, the
  scheduler's claim, run and advance cycle, and ticks that overlap.
* **Text, NipOa, AuthTag** - the NIP-OA condition grammar, the signing preimage, and the stored
  auth-tag record.
* **TaskBridge, ChatTasks, Threads** - event deduplication with lazy eviction and roll-back, the
  prompt/confirm/cancel machine per thread, and thread roots along a conversation.
* **Pool, SessionFile, SubTeam, Acp, QueueRunner** - the lifecycle managers.
* **FileLock** - both PID file locks, step by step.

Components that update state are classes with the source's fields. Their methods are proved against
functions on a value of that state (`View`, `Reg`), and the theorems are about those functions. Where
several goroutines or processes share state, each section under a mutex is one step; a run is a
sequence of states linked by steps, and the theorems hold in every state of every run. A few
methods are single parts of one source method, split out to keep each proof small (`Register`,
`EvictExcess`, `EvictOldest` and `Splice` in `Acp`; `SpawnFor`, `Reuse`, `AppendStarted`,
`KeepStandby` and `StopAndRemove` in `Pool`).

An instant is an integer number of nanoseconds from local midnight of 1970-01-01 at a fixed offset.
Clocks, randomness, the network, cryptography and text services of Go's library are parameters.

## What the proofs found

* The comment on `pumpSub` says at most one generation ever forwards. The staleness check and the
  send are separate steps, so an older pump can deliver one more event, even after the newer one
  has (`Relay.OlderGenerationDelivers`): exactly when it is past its check
  (`Relay.SupersededDeliversIff`), and never more than one (`Relay.SupersededForwardsOnce`).
* A `Subscribe` that passed its closed check just before `Close` can register after the sweep; with
  no connection it then returns a channel that `Close` never closes (`Relay.LateSubscribeStaysOpen`,
  `Relay.ClosedBySweepIff`).
* A `Subscribe` that read the old connection can attach after the reconnect's own attach. It then
  supersedes the pump on the new connection, and the subscription goes silent
  (`Relay.SubscriptionGoesSilent`, `Relay.CurrentOnNewestIff`).
* A cancelled subscription that no one reads can keep its remover and a pump waiting until `Close`,
  exactly when its pumps hold more events than its channel has room for
  (`Relay.RemovalFinishesUnaidedIff`, `Relay.RemovalGetsStuck`).
* As wired, the scheduler sends nothing: `ClaimDue` sets a task to dispatching and the local
  dispatcher's `RunNow` returns early on that status (`Scheduler.DueTasksAreSentIff`,
  `Scheduler.ScheduledTasksAreNeverSent`).
* Overlapping ticks claim each task once (`Ticks.ConcurrentTicksClaimOnce`). One requeue can lead to
  two claims exactly when it falls between a recurring call's run and its read of the record it
  saves, while another tick's call is at the task (`Ticks.RequeueClaimedTwiceIff`). As wired no two
  ticks overlap, and each request gives one claim at most (`Ticks.WiredLoopClaimsPerRequest`).
* Two overlapping run-now calls on one task send it twice exactly when one reads the task while the
  other is at it (`Ticks.OperatorStepIff`, `Ticks.ReadsBusySendsTwice`).
* A weekly rule whose mask is bit 7 alone validates but never advances (`Recurrence.ValidRuleAdvancesIff`).
* Monthly rules on days 29 to 31 can skip an instant that overflowed into the next month, and then
  one call and the iteration differ (`Recurrence.MonthlyIsNextIff`, `Recurrence.CatchUpIff`).
* The lock's stale-file race is not benign: two processes that judged one stale file can both end
  up holding the lock (`FileLock.StaleFileTwoHolders`).
* `Reconcile` does not restore the pool's counter. Names stay unique exactly when no kept instance has
  the number of a later spawn (`Pool.NamesUniqueIff`). As wired nothing is kept
  (`Pool.WiredRestartStartsEmpty`); a liveness check that saw an earlier process's instances would
  let names repeat (`Pool.RestartReusesName`).
* Closing an ACP session leaves its prompts that still wait for the turn mutex beyond anyone's
  reach (`Acp.QueuedTurnOutlivesClose`); a negative session limit makes `NewSession` panic.
* A dispatch that fails after its own mark expired takes back the live mark of a later dispatch of
  the same event; this is the only step that lets two successes fall within the dedup TTL
  (`TaskBridge.StepKeepsSpacingIff`, `TaskBridge.TheftGivesCloseSuccesses`).
* Two personas can share thread keys exactly when one's name followed by '|' begins the other's
  (`TaskBridge.KeysCollideIff`), and then only over a thread identifier with '|' in it, which no hex
  event ID has (`TaskBridge.KnownThreadsArePerPersona`).

## Model

| member | source | states |
|---|---|---|
| `Relay.RelayClient.Register` | boabot/internal/infrastructure/buzz/relay_client.go:558-563 | Subscribe's registering section: the next ID, once, and the entry in the map |
| `Relay.RelayClient.Attach` | boabot/internal/infrastructure/buzz/relay_client.go:635-651 | the attach section refuses exactly when the client is closed or the entry is gone; otherwise generation and both WaitGroups go up by one and nothing else changes |
| `Relay.RelayClient.Forget` | boabot/internal/infrastructure/buzz/relay_client.go:571-573 | Subscribe's error path takes its entry off the map and closes nothing |
| `Relay.RelayClient.Remove` | boabot/internal/infrastructure/buzz/relay_client.go:699-706 | the removing section takes the entry off the map and says whether it was there |
| `Relay.RelayClient.Stale` | boabot/internal/infrastructure/buzz/relay_client.go:673-675 | the staleness check compares the pump's generation with the entry's current one |
| `Relay.RelayClient.BeginClose` | boabot/internal/infrastructure/buzz/relay_client.go:716-723 | only the first Close goes on |
| `Relay.RelayClient.Sweep` | boabot/internal/infrastructure/buzz/relay_client.go:734-739 | the sweep closes the channel of every registered entry once, of no other entry, and empties the map |
| `Relay.CountsKept` | boabot/internal/infrastructure/buzz/relay_client.go:648-654 | after every step each WaitGroup counter is the number of pumps that have not yet called its Done |
| `Relay.ClosingKept` | boabot/internal/infrastructure/buzz/relay_client.go:690-742 | every step of every goroutine keeps: a channel is closed at most once, only with no pump left to send, never while registered or while its remover waits |
| `Relay.NeverSendsOnClosed` | boabot/internal/infrastructure/buzz/relay_client.go:664-688 | in every interleaving no pump sends on a closed channel |
| `Relay.ClosedAtMostOnce` | boabot/internal/infrastructure/buzz/relay_client.go:698-742 | in every interleaving each channel is closed at most once and no WaitGroup counter goes below zero |
| `Relay.ChannelClosedIff` | boabot/internal/infrastructure/buzz/relay_client.go:690-742 | in every interleaving a subscription's channel is closed exactly when its removal has ended or the sweep met it registered |
| `Relay.NoPumpAfterClose` | boabot/internal/infrastructure/buzz/relay_client.go:715-742 | once Close has returned every pump is dead and no attach can succeed any more |
| `Relay.WaitingStep` | boabot/internal/infrastructure/buzz/relay_client.go:664-688 | while Close waits only a received event takes a pump further from its end; every other pump step brings it nearer |
| `Relay.CloseCanFinish` | boabot/internal/infrastructure/buzz/relay_client.go:725-732 | Close is never stuck on a pump: from any point of its wait at most five steps per pump, all the pumps' own, bring the counter to zero |
| `Relay.OvercommittedStays` | boabot/internal/infrastructure/buzz/relay_client.go:690-711 | unaided, a removal whose pumps hold more events than the channel has room for stays so at every step |
| `Relay.RemovalFinishesUnaidedIff` | boabot/internal/infrastructure/buzz/relay_client.go:690-711 | a waiting removal can still close its channel with no reader and no Close exactly when the events its pumps are about to send fit into the channel |
| `Relay.RemovalGetsStuck` | boabot/internal/infrastructure/buzz/relay_client.go:690-711 | a run to a removal that cannot: 64 unread events, one more past its check, and the context ended |
| `Relay.ClosedBySweepIff` | boabot/internal/infrastructure/buzz/relay_client.go:525-529 | after Close returned, a subscription whose context still runs has its channel closed exactly when it was registered before the sweep |
| `Relay.LateRegistersWereChecked` | boabot/internal/infrastructure/buzz/relay_client.go:549-563 | once the client is closed every new subscription uses up a closed check that was passed before |
| `Relay.LateSubscribeStaysOpen` | boabot/internal/infrastructure/buzz/relay_client.go:549-563 | a run in which Close does not close a subscription: it passed the closed check before Close and registered after the sweep |
| `Relay.GenerationsKept` | boabot/internal/infrastructure/buzz/relay_client.go:646-648 | pumps of one entry get strictly growing generations, none above the entry's own |
| `Relay.GenerationsDiffer` | boabot/internal/infrastructure/buzz/relay_client.go:646-653 | in every run two pumps of one subscription have different generations |
| `Relay.DeliveredKept` | boabot/internal/infrastructure/buzz/relay_client.go:664-688 | every step keeps: an entry's channel holds, pump by pump, exactly what that pump forwarded |
| `Relay.ForwardsAPrefix` | boabot/internal/infrastructure/buzz/relay_client.go:664-688 | in every run the channel's events from one pump are a prefix of what its inner channel gave it, all of it when the pump is back in its select |
| `Relay.TrafficKept` | boabot/internal/infrastructure/buzz/relay_client.go:673-684 | every step keeps: a pump loses at most one event, and one that is superseded forwards at most one |
| `Relay.SupersededForwardsOnce` | boabot/internal/infrastructure/buzz/relay_client.go:657-688 | from the moment a newer generation is attached, for any number of reconnects, the older pump forwards at most one event, and none unless one was already past its check |
| `Relay.SupersededDeliversIff` | boabot/internal/infrastructure/buzz/relay_client.go:657-688 | a superseded pump has a continuation in which it still delivers exactly when it is past its staleness check |
| `Relay.SupersededSends` | boabot/internal/infrastructure/buzz/relay_client.go:673-684 | that event is delivered late by the very next step, or after one read when the channel is full |
| `Relay.StepKeepsNewestIff` | boabot/internal/infrastructure/buzz/relay_client.go:618-655 | every step keeps a subscription's current pump on the newest connection it was attached to, except exactly an attach that comes behind one on a newer connection |
| `Relay.CurrentOnNewestIff` | boabot/internal/infrastructure/buzz/relay_client.go:618-655 | a run has every current pump on the newest connection throughout exactly when each entry's attaches reach their section in connection order |
| `Relay.SubscriptionGoesSilent` | boabot/internal/infrastructure/buzz/relay_client.go:657-663 | a run against "leaving delivery to the newer generation's own pump": a Subscribe that read the old connection attaches behind the reconnect, and the open subscription is left with no pump |
| `Relay.OlderGenerationDelivers` | boabot/internal/infrastructure/buzz/relay_client.go:657-663 | a run against "at most one generation ever forwards": the older pump delivers after the newer one has |
| `Calendar.FirstDayClosedForm` | boabot/internal/domain/schedule.go:53-55 | counting days by centuries and leap years agrees with laying the month lengths end to end, in both directions from 1970 |
| `Calendar.MonthUnique` | boabot/internal/domain/schedule.go:88-96 | a day lies in exactly one month |
| `Calendar.DateOverflow` | boabot/internal/domain/schedule.go:88-96 | a built date reads back in the next month exactly when its day is past the month's length |
| `Calendar.WeekdayFromAMonday` | boabot/internal/domain/schedule.go:65-78 | weekdays counted from 1 January 2024, a Monday, in steps of seven days |
| `Recurrence.DailyIsNext` | boabot/internal/domain/schedule.go:57-63 | daily (and unknown) rules: the answer is the least fire time after the argument |
| `Recurrence.WeeklyIsNext` | boabot/internal/domain/schedule.go:65-86 | weekly rules with some bit 0..6: the answer is the least instant after the argument with the rule's time on a day whose weekday's bit, counted from Sunday, is set |
| `Recurrence.WeeklyOnlyTodayPassed` | boabot/internal/domain/schedule.go:77-85 | only today's weekday set and its time passed: the answer is seven days on |
| `Recurrence.MonthlyStep` | boabot/internal/domain/schedule.go:88-96 | monthly, days 1..31: strictly later, and at most 31 days later |
| `Recurrence.MonthlyMonotone` | boabot/internal/domain/schedule.go:88-96 | monthly, days 1..31: monotone in the argument despite overflow |
| `Recurrence.MonthlyFireTimes` | boabot/internal/domain/schedule.go:88-96 | a monthly rule's instants are exactly the instants with its time of day on the monthDay-th day of some month, counted from the month's first day |
| `Recurrence.MonthlyInstantReadsBack` | boabot/internal/domain/schedule.go:88-96 | in a month that has the day the instant reads back as that time on that day of that month; otherwise as the excess day of the next one |
| `Recurrence.MonthlyIsNextIff` | boabot/internal/domain/schedule.go:88-96 | monthly: the answer is the least instant after the argument with the rule's time on the monthDay-th day of a month, exactly when no overflowed instant of last month is still to come |
| `Recurrence.OverflowPendingCalendar` | boabot/internal/domain/schedule.go:88-96 | when an overflowed instant can be pending, in calendar terms; never for days 1..28 |
| `Recurrence.MonthlyShortDayIsNext` | boabot/internal/domain/schedule.go:88-96 | days 1..28: the answer is the least such instant after the argument, always |
| `Recurrence.MonthlySkipsOverflow` | boabot/internal/domain/schedule.go:88-96 | day 31 asked on 1 March of a common year skips 3 March |
| `Recurrence.ValidRuleAdvancesIff` | boabot/internal/domain/schedule.go:37-115 | a valid rule answers a later instant unless it is the weekly rule with bit 7 alone, which answers its argument |
| `Recurrence.WeeklyWithoutDaysIff` | boabot/internal/domain/schedule.go:65-86 | a weekly rule answers its own argument exactly when its mask names no weekday |
| `Recurrence.Monotone` | boabot/internal/domain/schedule.go:40-51 | every rule that advances is monotone |
| `Recurrence.StepKeepsOrder` | boabot/internal/domain/schedule.go:88-96 | while an overflowed instant is pending, a catch-up step that stays before now starts and ends in an earlier month |
| `Recurrence.CatchUpIff` | boabot/internal/application/scheduling/scheduler_service.go:119-129 | stepping NextAfter from any missed run past now ends at NextAfter(now), exactly when no overflowed instant is pending at now with the start in an earlier month |
| `Recurrence.CatchUpCollapses` | boabot/internal/application/scheduling/scheduler_service.go:119-129 | one call equals the iteration for daily, weekly and monthly rules on days 1..28 |
| `Schedules.ValidScheduleRuns` | boabot/internal/domain/schedule.go:127-157 | a schedule that validates has a next run exactly when its mode waits; what is refused is exactly what is missing or names no run |
| `Schedules.MissedRunsCollapseIff` | boabot/internal/application/scheduling/scheduler_service.go:119-129 | the catch-up call of a schedule lands after now, and where stepping through the missed runs lands, exactly when no overflowed instant is missed; none is up to day 28 |
| `ScheduleRequest.ParseHHMMClock` | boabot/internal/infrastructure/http/notifications.go:229-243 | a time is accepted exactly on a 24-hour clock, and reads back |
| `ScheduleRequest.ParseRecurrenceRequest` | boabot/internal/infrastructure/http/notifications.go:202-227 | accepted exactly when every day is known and the time is; the mask's bits are exactly the named weekdays; otherwise the first unknown day, or the time, is the error |
| `ScheduleRequest.ParsedRuleAdvances` | boabot/internal/infrastructure/http/notifications.go:184-195 | a parsed rule that validates fires strictly after every instant |
| `ScheduleRequest.RunsAsAskedIff` | boabot/internal/infrastructure/http/notifications.go:166-243 | end to end, in the request's words (its day names on the real calendar, its hh:mm, its day of the month): the next run is the first later instant asked for, exactly when no overflowed one is pending |
| `ScheduleRequest.ParseScheduleRequest` | boabot/internal/infrastructure/http/notifications.go:166-199 | all modes and every error; from every now an accepted recurring schedule runs next at a later instant the request's own words ask for, the first such one unless its day is past the 28th |
| `Scheduler.TaskStore.ListDue` | boabot/internal/infrastructure/local/orchestrator/direct_task_store.go:244-259 | every pending task whose time has come, once, and no other |
| `Scheduler.DueListMeans` | boabot/internal/infrastructure/local/orchestrator/direct_task_store.go:244-259 | a task is on the due list exactly when it is pending and its next run has come, and it is there once |
| `Scheduler.TaskStore.Claim` | boabot/internal/infrastructure/local/orchestrator/direct_task_store.go:264-280 | a claim succeeds only on a pending task and leaves it dispatching |
| `Scheduler.TaskStore.Run` | boabot/internal/infrastructure/local/orchestrator/task_dispatcher.go:132-163 | RunNow: an already dispatched task is left alone, an unreachable bot fails it, otherwise one message is sent |
| `Scheduler.OperatorRuns` | boabot/internal/infrastructure/local/orchestrator/task_dispatcher.go:132-163 | a call on a task in any status not taken for already dispatched: a reachable bot gets exactly one message and the task is Running, an unreachable one fails it; nothing repeats |
| `Scheduler.LocalCallSendsIff` | boabot/internal/infrastructure/local/orchestrator/task_dispatcher.go:154-163 | as wired, a call sends exactly for a reachable task that is neither running nor being dispatched, and leaves those two as they are |
| `Scheduler.SchedulerService.Process` | boabot/internal/application/scheduling/scheduler_service.go:79-117 | claim, run, and for a recurring task advance the next run past now |
| `Scheduler.SchedulerService.ProcessAllDue` | boabot/internal/application/scheduling/scheduler_service.go:44-53 | the due list processed in order |
| `Scheduler.TickEffect` | boabot/internal/application/scheduling/scheduler_service.go:44-117 | a tick leaves every due task processed and every other task as it was |
| `Scheduler.TickSendsNothing` | boabot/internal/infrastructure/local/orchestrator/task_dispatcher.go:154-163 | a dispatcher that takes the claim's own status for already dispatched sends nothing |
| `Scheduler.TickSendsAll` | boabot/internal/application/scheduling/scheduler_service.go:44-117 | any other dispatcher sends each due task once, in list order |
| `Scheduler.DueTasksAreSentIff` | boabot/internal/application/scheduling/scheduler_service.go:26-32 | "checks for due tasks and dispatches them" holds of a tick exactly when nothing is due or the dispatcher does not count Dispatching as already dispatched |
| `Scheduler.ScheduledTasksAreNeverSent` | boabot/internal/application/team/team_manager.go:992-993 | as wired with the local dispatcher: over any number of ticks no message is sent and a due task stays dispatching for good |
| `Scheduler.MissedSlotsCollapseIff` | boabot/internal/application/scheduling/scheduler_service.go:79-129 | a processed recurring task's next slot is after the tick, and is the one stepping from the missed slot reaches exactly when no overflowed instant is missed |
| `Ticks.StepKeepsInv` | boabot/internal/application/scheduling/scheduler_service.go:79-117 | with no requeue or operator in between, every store call and send of overlapping ticks keeps: a claimed task is pending neither in the store nor in any record about to be written back |
| `Ticks.StoreEffect` | boabot/internal/application/scheduling/scheduler_service.go:79-117 | all that one step can do to a stored task and to the messages sent |
| `Ticks.RequeuesAreChecked` | boabot/internal/application/notifications/notification_service.go:131-156 | in every run a requeue past its check saw its task stored and not running |
| `Ticks.ConcurrentTicksClaimOnce` | boabot/internal/application/scheduling/scheduler_service.go:26-32 | safe to call concurrently: however the steps of any number of ticks fall, each task is claimed at most once, and its message sent at most once and only after its claim |
| `Ticks.ClaimsAreOneStep` | boabot/internal/infrastructure/local/orchestrator/direct_task_store.go:264-280 | a second claim of a claimed task fails, whatever happened in between |
| `Ticks.ClaimsPerRequest` | boabot/internal/application/scheduling/scheduler_service.go:26-32 | with requeues and operators in between, each task is claimed at most once for every request, as long as no requeue falls on a task with a recurring call between its run and its read of the record it saves while another tick's call is at the task |
| `Ticks.RequeueClaimedTwiceIff` | boabot/internal/application/scheduling/scheduler_service.go:79-117 | one requeue can lead to two claims, however the steps fall after it, exactly when it does fall so |
| `Ticks.RequeueIsReached` | boabot/internal/application/notifications/notification_service.go:131-156 | a run to such a requeue, from one due recurring task that two ticks have listed |
| `Ticks.WiredLoopClaimsPerRequest` | boabot/internal/application/scheduling/scheduler_service.go:57-75 | as wired, with one loop and no overlap, each task is claimed at most once for every request, with no condition on requeues or operators |
| `Ticks.OperatorStepIff` | boabot/internal/infrastructure/local/orchestrator/task_dispatcher.go:132-163 | overlapping run-now calls keep each task to one call at it and one send, except exactly when one reads the task while another is at it |
| `Ticks.OperatorsSendOnce` | boabot/internal/infrastructure/local/orchestrator/task_dispatcher.go:132-163 | with no such read every task is sent at most once, whatever sends fail |
| `Ticks.ReadsBusySendsTwice` | boabot/internal/infrastructure/local/orchestrator/task_dispatcher.go:132-163 | from any such read the task can be sent twice |
| `NipOa.PrintedClauseAccepted` | boabot/internal/infrastructure/buzz/nipoa.go:158-188 | a clause in range prints to an accepted clause that parses back to it |
| `NipOa.AcceptedClausePrints` | boabot/internal/infrastructure/buzz/nipoa.go:158-188 | an accepted clause is the print of its parse, in range |
| `NipOa.PrintedIsAccepted` | boabot/internal/infrastructure/buzz/nipoa.go:124-148 | every list of clauses in range prints to an accepted string that parses back to the list |
| `NipOa.AcceptedIsPrinted` | boabot/internal/infrastructure/buzz/nipoa.go:124-148 | every accepted string is the print of its parse |
| `NipOa.AcceptsExactlyTheGrammar` | boabot/internal/infrastructure/buzz/nipoa.go:114-148 | accepted exactly when empty or an '&'-join of kind=k (k <= 65535), created_at<n, created_at>n (n < 2^64) in canonical decimal |
| `NipOa.ClauseListUnique` | boabot/internal/infrastructure/buzz/nipoa.go:114-148 | a string stands for one clause list only |
| `NipOa.AcceptedChars` | boabot/internal/infrastructure/buzz/nipoa.go:124-156 | an accepted string has only clause characters and '&' in it |
| `NipOa.PreimageInjective` | boabot/internal/infrastructure/buzz/nipoa.go:94-102 | equal preimages come from equal requests, when no pubkey has a ':', and also whenever both conditions are accepted |
| `NipOa.PreimageCollisionIff` | boabot/internal/infrastructure/buzz/nipoa.go:94-102 | as a function of any two strings the preimage collides exactly when one request moves a piece of the pubkey behind a ':' into the conditions |
| `AuthTag.HashedRequestsNeverCollide` | boabot/internal/infrastructure/buzz/nipoa.go:205-273 | requests that reach the hash, signing or validating, never share a preimage, whatever the pubkeys: both callers check the conditions first |
| `AuthTag.TagAcceptedIff` | boabot/internal/infrastructure/buzz/nipoa.go:232-273 | a tag is accepted exactly with four elements, the name, an owner other than the agent, conditions in the grammar, a valid key, a well-formed signature, and that verifying over "nostr:agent-auth:", agent, ':' and conditions; otherwise the first failure is the error |
| `AuthTag.SignedTagAccepted` | boabot/internal/infrastructure/buzz/nipoa.go:200-273 | signing refuses exactly an owner who is the agent and conditions outside the grammar; what it builds is accepted exactly when its key and signature are good |
| `Text.DecimalIsCanonical` | boabot/internal/infrastructure/buzz/nipoa.go:193-198 | every number prints to a canonical decimal with its own value |
| `Text.CanonicalIsDecimal` | boabot/internal/infrastructure/buzz/nipoa.go:193-198 | every canonical decimal is the print of its value |
| `Text.SplitJoin` | boabot/internal/infrastructure/buzz/nipoa.go:139-147 | splitting a join gives the parts back |
| `Text.TrimmedExactly` | boabot/internal/infrastructure/buzz/token.go:110-113 | trimming takes the longest run of spaces off either end, and nothing else |
| `AuthTag.FindAuthTag` | boabot/internal/infrastructure/buzz/nipoa.go:279-292 | an auth tag is found exactly when there is exactly one |
| `AuthTag.RecordSplitsBack` | boabot/internal/infrastructure/buzz/token.go:100-126 | owner, conditions and signature joined by '|' split back, for every hex owner, hex signature and accepted conditions |
| `AuthTag.SignedTagLoads` | boabot/internal/infrastructure/buzz/nipoa.go:200-273 | what SignAuthTag builds, stored as a record, is what LoadAuthTag returns when the signature verifies |
| `AuthTag.LoadedTagIsTheSecret` | boabot/internal/infrastructure/buzz/token.go:100-126 | a loaded tag is valid, has four elements, and stores back to the trimmed secret |
| `AuthTag.LoadedIff` | boabot/internal/infrastructure/buzz/token.go:100-126 | a secret loads as a tag exactly when the tag is accepted and is the trimmed secret cut at its two '|'; absent exactly when missing or blank |
| `TaskBridge.BuzzTaskBridge.CheckAndMarkSeen` | boabot/internal/application/orchestrator/buzz_task_bridge.go:329-347 | the sweep and the check together: expired marks go, a live mark answers seen and is kept, otherwise the event is marked now |
| `TaskBridge.BuzzTaskBridge.UnmarkEvent` | boabot/internal/application/orchestrator/buzz_task_bridge.go:352-359 | takes one mark back |
| `TaskBridge.BuzzTaskBridge.MarkDispatchedThread` | boabot/internal/application/orchestrator/buzz_task_bridge.go:191-199 | records the persona's thread |
| `TaskBridge.BuzzTaskBridge.Dispatch` | boabot/internal/application/orchestrator/buzz_task_bridge.go:104-172 | duplicate exactly on a mark no older than the TTL; otherwise failed exactly when detection fails, or the chat manager leaves it to a dispatcher that refuses; a failed event is no duplicate when it comes again; the marks are those of the steps Begin, then Fail or Succeed by that condition |
| `TaskBridge.EvictionInvisible` | boabot/internal/application/orchestrator/buzz_task_bridge.go:329-347 | under a clock that never goes back the evicted map answers every check as the full log of marks and unmarks does |
| `TaskBridge.DuplicateWithinTTL` | boabot/internal/application/orchestrator/buzz_task_bridge.go:329-347 | an event let through is a duplicate for as long as its age is at most the TTL, whatever is checked and unmarked of the others in between |
| `TaskBridge.EvictionShowsIff` | boabot/internal/application/orchestrator/buzz_task_bridge.go:329-347 | whatever instants the sections carry: the cache answers a check otherwise than the log exactly when the mark is live and a sweep since it was made found it expired |
| `TaskBridge.LateSectionShows` | boabot/internal/application/orchestrator/buzz_task_bridge.go:330-332 | such a history: a check reads the clock, and another one sweeps before it gets the mutex |
| `TaskBridge.StepKeepsSpacingIff` | boabot/internal/application/orchestrator/buzz_task_bridge.go:104-172 | every step of overlapping dispatches keeps one event's marks more than the TTL apart, except exactly a failure that takes back a live mark which is not its own |
| `TaskBridge.TheftGivesCloseSuccesses` | boabot/internal/application/orchestrator/buzz_task_bridge.go:104-172 | from any such failure a replay and at most two successes give two successes marked within the TTL |
| `TaskBridge.SuccessesOfOneEventApart` | boabot/internal/application/orchestrator/buzz_task_bridge.go:104-172 | in every interleaving without such a failure, however long dispatches take, two successes of one event are marked more than the TTL apart |
| `TaskBridge.TimelyFailuresKeepSpacing` | boabot/internal/application/orchestrator/buzz_task_bridge.go:104-172 | no such failure happens when every failing dispatch fails within the TTL of its own mark |
| `TaskBridge.FailedDispatchIsRetried` | boabot/internal/application/orchestrator/buzz_task_bridge.go:352-359 | after a failure and any later steps, the cache holds the event only if a later dispatch marked it: until then a replay is not a duplicate |
| `TaskBridge.AloneMarks` | boabot/internal/application/orchestrator/buzz_task_bridge.go:104-172 | an uninterrupted dispatch in any state of the step system leaves the event marked exactly when it is a duplicate or does not fail |
| `TaskBridge.SlowDispatchBreaksDedup` | boabot/internal/application/orchestrator/buzz_task_bridge.go:352-359 | a run that meets the bad failure: a dispatch outlives its mark and fails after a second one has marked |
| `TaskBridge.KnownByKey` | boabot/internal/application/orchestrator/buzz_task_bridge.go:174-199 | after any marks the bridge knows a thread exactly when some marked pair has its key |
| `TaskBridge.KeysCollideIff` | boabot/internal/application/orchestrator/buzz_task_bridge.go:177-199 | two personas can share a thread key exactly when one's name and '|' begin the other's name |
| `TaskBridge.KnownThreadsArePerPersonaIff` | boabot/internal/application/orchestrator/buzz_task_bridge.go:174-199 | a set of personas keeps its threads apart, after any marks, exactly when no name and '|' begin another's |
| `TaskBridge.KnownThreadsArePerPersona` | boabot/internal/application/orchestrator/buzz_task_bridge.go:174-199 | and whatever the names, when no thread identifier has '|' in it |
| `ChatTasks.ChatTaskManager.Load` | boabot/internal/application/orchestrator/chat_task_manager.go:100-115 | the pending intent of a thread, deleted when expired |
| `ChatTasks.ChatTaskManager.DetectAndHandle` | boabot/internal/application/orchestrator/chat_task_manager.go:62-96 | the prompt/confirm/cancel step of one message |
| `ChatTasks.HandleEffect` | boabot/internal/application/orchestrator/chat_task_manager.go:62-96 | what one message does to any thread's pending intent |
| `ChatTasks.DispatchIff` | boabot/internal/application/orchestrator/chat_task_manager.go:62-96 | over every history: a dispatch happens exactly on a confirmation while the thread's latest unanswered prompt is within the TTL |
| `ChatTasks.DispatchCarriesPrompt` | boabot/internal/application/orchestrator/chat_task_manager.go:70-84 | the dispatch carries exactly that prompt's bot, instruction and schedule |
| `ChatTasks.OneDispatchPerPrompt` | boabot/internal/application/orchestrator/chat_task_manager.go:70-84 | no prompt is dispatched twice |
| `ChatTasks.AnswersFollow` | boabot/internal/application/orchestrator/chat_task_manager.go:62-115 | over every history each answer follows from the messages alone: a yes word to a live request dispatches it, a no word cancels it, another request is prompted for, the rest is not handled |
| `ChatTasks.AnsweredOnce` | boabot/internal/application/orchestrator/chat_task_manager.go:68-88 | after a dispatch, a refused dispatch or a cancellation no later message of the thread is taken for an answer until one reads as a new request |
| `ChatTasks.ThreadsIndependent` | boabot/internal/application/orchestrator/chat_task_manager.go:62-115 | a response is the one the thread's own messages give |
| `Threads.CandidateList.AddId` | boabot/internal/infrastructure/buzz/trigger.go:133-140 | adds an identifier unless it is empty or already there |
| `Threads.CandidateList.AddMarked` | boabot/internal/infrastructure/buzz/trigger.go:142-151 | one loop over the e tags adds the marked ones in order |
| `Threads.CollectETags` | boabot/internal/infrastructure/buzz/trigger.go:122-131 | the e tags with a value, in order |
| `Threads.ThreadReplyCandidates` | boabot/internal/infrastructure/buzz/trigger.go:122-158 | root-marked, reply-marked, first and last e tag, without duplicates |
| `Threads.CandidatesExact` | boabot/internal/infrastructure/buzz/trigger.go:107-158 | candidates are distinct, not empty, and exactly the events of those tags |
| `Threads.CandidatesFromETags` | boabot/internal/infrastructure/buzz/trigger.go:107-158 | every candidate is the event of some e tag |
| `Threads.CandidateOrder` | boabot/internal/infrastructure/buzz/trigger.go:107-158 | root-marked candidates come before all others, then the reply-marked ones, then the first e tag's |
| `Threads.RootIsFirstCandidate` | boabot/internal/infrastructure/buzz/trigger.go:98-158 | the root a mention would use is the first candidate |
| `Threads.RootIsFirstMarked` | boabot/internal/infrastructure/buzz/trigger.go:98-105 | a mention's root is the event the first root-marked e tag names, and without one the event itself |
| `Threads.PublishReply` | boabot/internal/infrastructure/buzz/monitor.go:669-691 | the reply's tags, in order |
| `Threads.ReplyNamesRoot` | boabot/internal/infrastructure/buzz/monitor.go:669-691 | a reply's root is the root, its first candidate is the root, its only other candidate the parent |
| `Threads.ReplyAddressing` | boabot/internal/infrastructure/buzz/monitor.go:669-691 | a reply mentions its author and names its channel, and no others |
| `Threads.Monitor.Match` | boabot/internal/infrastructure/buzz/monitor.go:466-476 | the first candidate thread among those known; which are known, and when nothing matches, over every run: `KnownMeansSpokenIn`, `UnmentionedDispatchIff` |
| `Threads.Monitor.Dispatch` | boabot/internal/infrastructure/buzz/monitor.go:510-541 | an admitted dispatch records its thread |
| `Threads.Monitor.HandleChannelEvent` | boabot/internal/infrastructure/buzz/monitor.go:422-459 | whether the event is handed on, with which root, and what is known after; what that means over every run: `UnmentionedDispatchIff`, `RootIsFirstMarked` |
| `Threads.KnownMeansSpokenIn` | boabot/internal/infrastructure/buzz/monitor.go:422-476 | in every run the threads known are exactly those in which an earlier event, not a duplicate, was dispatched over a bridge |
| `Threads.UnmentionedDispatchIff` | boabot/internal/infrastructure/buzz/monitor.go:422-541 | in every run an event that does not mention the persona is dispatched exactly when there is a bridge, it is an admitted channel message, and some candidate of it is a thread spoken in before; it goes to the first such candidate, and otherwise nowhere |
| `Threads.MarkedRepliesKeepRoot` | boabot/internal/infrastructure/buzz/monitor.go:422-476 | once a thread was dispatched, every later admitted event with that root mark is dispatched under the same root, mentioned or not; without a bridge exactly the mentioned ones |
| `Threads.ConversationRoot` | boabot/internal/infrastructure/buzz/trigger.go:98-105 | along a conversation of any length in which every reply carries the root mark, the root is the first message |
| `Threads.ConversationKeepsItsRoot` | boabot/internal/infrastructure/buzz/monitor.go:422-476 | every later admitted message of such a conversation, mentioned or bridged, is dispatched under the first message's root |
| `Pool.TechLeadPool.AllocateItem` | boabot/internal/application/pool/pool.go:92-141 | duplicate item, idle entry, failed spawn, new entry: the whole new state; the entry handed out is in the pool, allocated to the item, now |
| `Pool.TechLeadPool.DeallocateItem` | boabot/internal/application/pool/pool.go:146-181 | the last entry stays as standby, any other is removed and stopped |
| `Pool.AllocationAnswers` | boabot/internal/application/pool/pool.go:92-141 | from any pool: refused exactly when the item has an entry, or no instance is idle and none starts; otherwise the answer is in the pool and carries the item: the first idle entry with its name and bus, or a new last one under the next number |
| `Pool.ReleaseAnswers` | boabot/internal/application/pool/pool.go:146-181 | from any pool: refused exactly without an entry; otherwise the item's first entry becomes the standby when it is the last one, or is taken out and its instance stopped |
| `Pool.TechLeadPool.ReconcileWith` | boabot/internal/application/pool/pool.go:185-210 | keeps the saved entries whose instances run, in order |
| `Pool.StepRefines` | boabot/internal/application/pool/pool.go:92-181 | each operation does to the pool what it does to the set of active items, and succeeds exactly when that one does |
| `Pool.HistoryRefines` | boabot/internal/application/pool/pool.go:85-181 | from an empty pool, every history of non-empty items: unique items and names, an idle entry only as the sole entry |
| `Pool.PoolSize` | boabot/internal/application/pool/pool.go:85-181 | size is max(1, active) once an allocation succeeded, 0 before; spawned minus stopped equals size |
| `Pool.HeldEntryStays` | boabot/internal/application/pool/pool.go:92-181 | over every history the entry an item was given stays in the pool unchanged until that item is released |
| `Pool.HoldersHaveTheirOwn` | boabot/internal/application/pool/pool.go:92-181 | over every history two items at work at the same time were handed entries of different names and different buses |
| `Pool.ReconcileIdentity` | boabot/internal/application/pool/pool.go:185-210 | reconciling with every saved instance running changes nothing, after any history |
| `Pool.StillRunningParts` | boabot/internal/application/pool/pool.go:195-207 | what reconciling keeps of any saved list: each record exactly when its instance runs, in the list's order |
| `Pool.NamesUniqueIff` | boabot/internal/application/pool/pool.go:85-88 | names stay unique through any allocations exactly when no entry of the start has the number of one of the spawns made; after a restart the counter is 0 again |
| `Pool.HistoryKeepsNamesUnique` | boabot/internal/application/pool/pool.go:85-181 | under the same condition any history, releases and empty items included, keeps names unique |
| `Pool.WiredRestartStartsEmpty` | boabot/internal/application/team/team_manager.go:585-588 | as wired the liveness check sees no instance at start-up: the pool starts empty and names stay unique over any later history |
| `Pool.RestartReusesName` | boabot/internal/application/pool/pool.go:185-210 | with a liveness check that sees an earlier process's instances, one kept instance and one allocation repeat a name |
| `Pool.EmptyItemRefinesIff` | boabot/internal/application/pool/pool.go:92-181 | with the empty item the pool departs from the set of items exactly when there is a standby, or when the allocation starts an instance |
| `Pool.EmptyItemBlocked` | boabot/internal/application/pool/pool.go:146-181 | such a history: the standby's empty item ID blocks an empty allocation |
| `SessionFile.FilterInPlace` | boabot/internal/infrastructure/session_file.go:79-84 | the in-place filter leaves exactly the other records at the front, in order |
| `SessionFile.File.Remove` | boabot/internal/infrastructure/session_file.go:74-86 | the file's records without the name |
| `SessionFile.WithoutKeepsExactly` | boabot/internal/infrastructure/session_file.go:74-86 | exactly the records of other names stay, none more often than before |
| `SessionFile.WithoutParts` | boabot/internal/infrastructure/session_file.go:79-84 | and in the order they had |
| `SubTeam.Manager.SpawnAgent` | boabot/internal/application/subteam/manager.go:94-153 | an active name is refused; otherwise a new agent replaces the name and gets a record |
| `SubTeam.Manager.MarkTerminated` | boabot/internal/application/subteam/manager.go:199-210 | marks whatever agent the name has now and drops the name's records |
| `SubTeam.Manager.FinishMark` | boabot/internal/application/subteam/manager.go:158-210 | a goroutine's mark, by its agent's name |
| `SubTeam.Manager.FinishDone` | boabot/internal/application/subteam/manager.go:158-164 | closing done is a later step |
| `SubTeam.Manager.BeginTermination` | boabot/internal/application/subteam/manager.go:214-228 | Terminate's section: unknown and terminated names are refused |
| `SubTeam.Manager.BeginTearingDown` | boabot/internal/application/subteam/manager.go:289-305 | TearDownAll's section: every agent not terminated is set terminating |
| `SubTeam.StepKeepsInv` | boabot/internal/application/subteam/manager.go:94-328 | every step keeps: a goroutine not yet marked owns its name, records are the agents not terminated |
| `SubTeam.StepKeepsTerminated` | boabot/internal/application/subteam/manager.go:199-210 | terminated is final for a spawn |
| `SubTeam.OnlyOwnGoroutineTerminates` | boabot/internal/application/subteam/manager.go:155-210 | an earlier goroutine never marks a later spawn, however names are reused |
| `SubTeam.OneLiveGoroutinePerName` | boabot/internal/application/subteam/manager.go:94-195 | in every run at most one live goroutine per name |
| `SubTeam.NameReusedBeforeDone` | boabot/internal/application/subteam/manager.go:94-195 | a run in which an agent leaves without being cancelled and its name is spawned again before its done is closed |
| `SubTeam.TerminateNilMeansTerminated` | boabot/internal/application/subteam/manager.go:214-244 | a nil return means the agent the call took is terminated, then and ever after |
| `SubTeam.TearDownNilMeansAllTerminated` | boabot/internal/application/subteam/manager.go:289-328 | a nil return of TearDownAll means every agent the manager had at the call is terminated, then and ever after |
| `SubTeam.RecordsAreNonTerminated` | boabot/internal/application/subteam/manager.go:94-210 | whenever the mutex is free the records are exactly the agents not terminated, each once |
| `FileLock.StepKeepsClean` | boabot/internal/infrastructure/local/filelock/filelock.go:73-193 | without exits every step keeps: a holder is named by the file, and no one has judged a file stale |
| `FileLock.StepEffect` | boabot/internal/infrastructure/local/filelock/filelock.go:73-193 | the lock is gained exactly by a link that finds no file and lost exactly by its holder's release or exit; the file goes with a release, a remove, or a reclaim of a PID whose process is gone |
| `FileLock.MutualExclusionWithoutExits` | boabot/internal/infrastructure/local/filelock/filelock.go:144-193 | no file at the start and no exit: at most one holder, at any interleaving of the separate steps, both variants |
| `FileLock.StepKeepsHolderNamedIff` | boabot/internal/infrastructure/buzz/lock.go:84-117 | crashes included, only a remove can lose the holder's name, and does exactly when the file names a holder at that instant |
| `FileLock.BadRemoveGivesTwoHolders` | boabot/internal/infrastructure/buzz/lock.go:84-117 | after such a remove the next link gives a second holder |
| `FileLock.MutualExclusionUnderCrashes` | boabot/internal/infrastructure/local/filelock/filelock.go:154-193 | from any file, under crashes: at most one live holder when no remove hits a holder's file |
| `FileLock.AtomicReclaimIsSafe` | boabot/internal/infrastructure/local/filelock/filelock.go:154-193 | in particular when read, check and remove are one step, even if PIDs are used again |
| `FileLock.StaleFileTwoHolders` | boabot/internal/infrastructure/local/filelock/filelock.go:144-193 | the two-holder run that the separate read and remove allow from a stale file, against the "benign race" comment |
| `FileLock.AcquireWait` | boabot/internal/infrastructure/local/filelock/filelock.go:154-193 | the waiting loop: stops at the first link or the deadline, never sleeps after a reclaim, sleeps 2, 4, 8, 16, 32, then 50 ms |
| `FileLock.SleepSchedule` | boabot/internal/infrastructure/local/filelock/filelock.go:157-190 | the sleeps are 2, 4, 8, 16 and 32 ms, then 50 ms for good |
| `FileLock.FailFastOutcome` | boabot/internal/infrastructure/buzz/lock.go:84-117 | one pass holds, refuses at once, or goes round again exactly after a reclaim or a vanished file |
| `FileLock.AcquireLock` | boabot/internal/infrastructure/buzz/lock.go:84-117 | the fail-fast loop stops at the first pass that holds or refuses; every earlier one reclaimed or found the file vanished |
| `QueueRunner.Board.List` | boabot/internal/application/orchestrator/queue_runner.go:62-76 | every item of a status once, in some order |
| `QueueRunner.Runner.Reconcile` | boabot/internal/application/orchestrator/queue_runner.go:107-144 | every in-progress item with a finished task gets its final status, result and time; all else stays |
| `QueueRunner.Runner.LaunchOne` | boabot/internal/application/orchestrator/queue_runner.go:187-204 | in progress with the queue settings cleared; a failed dispatch does not count as failure |
| `QueueRunner.Runner.LaunchInOrder` | boabot/internal/application/orchestrator/queue_runner.go:92-103 | launches the first slots items of the order that are ready and whose update is taken |
| `QueueRunner.Runner.RunTick` | boabot/internal/application/orchestrator/queue_runner.go:57-103 | the whole tick as a function of the board and the listing; what it promises over every run: `TickLaunchesIff`, `NeverLaunchedEarly` |
| `QueueRunner.SortPermutes` | boabot/internal/application/orchestrator/queue_runner.go:78-89 | the sort is a permutation of the listing |
| `QueueRunner.SortOrders` | boabot/internal/application/orchestrator/queue_runner.go:78-89 | the sort is in priority order with the listing as tie-break |
| `QueueRunner.ReadyUnaffected` | boabot/internal/application/orchestrator/queue_runner.go:147-184 | a launch earlier in the loop changes no later item's readiness |
| `QueueRunner.LaunchedIff` | boabot/internal/application/orchestrator/queue_runner.go:57-103 | one tick from any board: an item is launched exactly when it is eligible and fewer than slots eligible items come before it; what eligible and before mean: `TickLaunchesIff`, `PrecedesMeans` |
| `QueueRunner.OthersUntouched` | boabot/internal/application/orchestrator/queue_runner.go:57-103 | items not queued after reconciling are left alone |
| `QueueRunner.TickBounded` | boabot/internal/application/orchestrator/queue_runner.go:57-103 | one tick never takes the in-progress count past the larger of the limit and what it was |
| `QueueRunner.LimitHolds` | boabot/internal/application/orchestrator/queue_runner.go:50-103 | over any number of ticks with only the runner promoting: at most max(limit, starting count) in progress |
| `QueueRunner.TickLaunchesIff` | boabot/internal/application/orchestrator/queue_runner.go:50-204 | over every run, in the board's own terms: a queued item is launched exactly when its mode is known, its run time reached and its predecessor settled as far as the mode asks, its update taken, and fewer than the limit (three by default) are in progress or startable before it |
| `QueueRunner.NeverLaunchedEarly` | boabot/internal/application/orchestrator/queue_runner.go:147-184 | over every run no item is launched before its run time, nor before what it waits for is done, or errored where success is not required; an unknown mode never is |
| `QueueRunner.PrecedesMeans` | boabot/internal/application/orchestrator/queue_runner.go:78-89 | the order: asap before the rest, then by queue time or else creation time, then as the board lists them |
| `QueueRunner.ReconciledMeans` | boabot/internal/application/orchestrator/queue_runner.go:107-144 | what a finished task makes of its item: succeeded gives done, failed and errored give errored, blocked gives blocked, with output, time and the task let go; anything else changes nothing |
| `QueueRunner.CircleNeverLaunches` | boabot/internal/application/orchestrator/queue_runner.go:147-184 | queued items whose predecessors all lie in the set never launch, over any number of ticks |
| `Acp.Agent.NewSession` | boabot/internal/infrastructure/acp/agent.go:233-254 | panics exactly when maxSessions is negative; otherwise registers, drops the oldest beyond the limit and returns their cancel functions |
| `Acp.Agent.Cancel` | boabot/internal/infrastructure/acp/agent.go:258-264 | reads the session's cancel function; none for an unknown session |
| `Acp.Agent.CloseSession` | boabot/internal/infrastructure/acp/agent.go:300-313 | takes the cancel function, deletes the session, splices it out of the order |
| `Acp.Agent.Lookup` | boabot/internal/infrastructure/acp/turn.go:45-50 | an unknown session is an error |
| `Acp.Agent.Store` | boabot/internal/infrastructure/acp/turn.go:58-67 | storing and clearing the session object's cancel, evicted or not |
| `Acp.EvictOldestNIs` | boabot/internal/infrastructure/acp/agent.go:239-248 | evicting one by one drops exactly the n oldest and takes exactly their cancel functions |
| `Acp.NewSessionOrderIff` | boabot/internal/infrastructure/acp/agent.go:233-250 | the order stays duplicate-free, equal to the map's keys, oldest first and within the limit exactly when the new ID is fresh |
| `Acp.OldestGoFirst` | boabot/internal/infrastructure/acp/agent.go:230-250 | every evicted session is older than every session kept |
| `Acp.CloseOrder` | boabot/internal/infrastructure/acp/agent.go:300-313 | closing keeps the order |
| `Acp.OrderHolds` | boabot/internal/infrastructure/acp/agent.go:109-114 | in every run with fresh IDs the order holds |
| `Acp.MutexKept` | boabot/internal/infrastructure/acp/turn.go:52-67 | every step keeps: a session object has a cancel function exactly while its turn runs under the turn mutex |
| `Acp.OneCancelAtATime` | boabot/internal/infrastructure/acp/turn.go:52-67 | in every interleaving at most one session object, evicted ones included, has a cancel function |
| `Acp.CancelledForAReason` | boabot/internal/infrastructure/acp/agent.go:230-318 | a turn's context is cancelled only by its own end, or by a cancel function taken while it ran by a cancel, a close or the eviction of its own session |
| `Acp.CapturedIff` | boabot/internal/infrastructure/acp/agent.go:233-318 | every step: the cancel functions waiting to be called are those that were, save one just called, and exactly those that a cancel, a close or an eviction took from sessions holding them |
| `Acp.CancelledIff` | boabot/internal/infrastructure/acp/agent.go:230-318 | in every run a turn's context is cancelled exactly when the turn has ended or one of its cancel functions has been called |
| `Acp.CancelTakesEffect` | boabot/internal/infrastructure/acp/agent.go:230-318 | a cancel, a close or an eviction of a session with a running turn takes effect: from then on the turn is cancelled, or the call that cancels it can be made |
| `Acp.TakesRunningTurnIff` | boabot/internal/infrastructure/acp/agent.go:258-269 | cancel reaches a turn exactly when it is running; one waiting for the turn mutex is not reached |
| `Acp.QueuedTurnOutlivesSession` | boabot/internal/infrastructure/acp/agent.go:230-318 | a prompt still waiting when its session object leaves the map, for whatever reason, can only run to its own end |
| `Acp.QueuedTurnOutlivesClose` | boabot/internal/infrastructure/acp/agent.go:295-318 | in particular when its session is closed |
| `Acp.QueuedTurnOutlivesEviction` | boabot/internal/infrastructure/acp/agent.go:233-254 | or evicted by a new one |
| `Acp.ClosedWhileQueued` | boabot/internal/infrastructure/acp/agent.go:295-318 | such a run: opened, prompted, closed, and only then the prompt begins its turn |

## Left out

- Relay: dialling, authentication, profile publishing and the backoff delays; any attach attempt may reach its locked section at any time, which covers every schedule of the reconnect loop. A second Close returns at once and may return before the first one; "Close returned" is the first one.
- Recurrence.NextAfter: time zones with daylight saving; the offset is fixed.
- Recurrence.CatchUpIff: rules that do not advance have no catch-up to compare with; `Recurrence.ValidRuleAdvancesIff` says which they are.
- ScheduleRequest.ParseHHMM: lower-casing and the scan of a time are parameters for Go's `strings.ToLower` and `fmt.Sscanf`.
- Ticks.ClaimsPerRequest: tasks are not deleted, and nothing but a requeue makes one pending. Sends are bounded for ticks alone and for operators alone, not for the two together.
- Scheduler.SchedulerService.Process: errors of the store's own saves, logging and the timer loop; reachability of a bot's queue is an input of each tick.
- NipOa.ValidateConditions: the clause pattern is written out as its three alternatives; a string is a sequence of characters, not of bytes.
- AuthTag.SignedTagLoads: keys, signatures and hashing are predicates and functions given as parameters.
- TaskBridge.BuzzTaskBridge.Dispatch: recording the message, replaying history and creating the board item; the clock read and the locked section are one step, except in `EvictionShowsIff`.
- ChatTasks.DispatchIff: intent detection, text normalisation and the reply texts are parameters; histories are sequential, since two confirmations racing on one thread get no stronger guarantee from the code.
- Threads.Monitor.HandleChannelEvent: the shutdown command's own handling, the content screener, direct messages, typing notices, and the pending table that matches results to replies.
- Pool.TechLeadPool.DeallocateItem: a failed stop call is only logged; saving the state file succeeds. `ListEntries` and `GetByItemID` only copy.
- SubTeam.Manager.SpawnAgent: timers, heartbeats and channel waits; a goroutine may leave its loop at any time, which covers timeout, cancellation and panic. Saving the session file succeeds.
- SubTeam.OneLiveGoroutinePerName: a goroutine is live until it has marked its agent; one that has marked it may still be about to close done.
- FileLock.MutualExclusionUnderCrashes: one acquirer per process; publishing a lock file by link is one step, and errors other than "exists" and "not found" are not modelled. Liveness across PID namespaces is not modelled.
- FileLock.AcquireWait: the loop runs over the passes it is given, so it need not end; the deadline is an input of each pass.
- QueueRunner.Runner.RunTick: one tick is one step with one `now`; list errors, which end a tick early, are left out. The board's other users act between ticks.
- Acp.Agent.NewSession: the ID is a parameter; what a turn does between storing and clearing its cancel, and the message traffic, are left out.
- Natural-language schedules, keyword scoring, bot-name extraction: heuristics with nothing bounded to prove.
- Persistence formats, HTTP handlers, Slack, provider adapters, SQL stores, backup, cost tracking and the command-line programs: input and output plumbing.
