# Verified models of the recruiting platform's stateful core

The platform schedules WhatsApp reminders and digests for recruiters, sends them through a
provider, mirrors mailboxes over IMAP, carries a chat with unread counts, runs an assistant with
tools, and fires recurring notifications. This project models the parts of it that hold state,
arithmetic or protocols, and proves what they are relied on for.

Each module follows one part of the program:

| module | part of the program |
|---|---|
| `ClawbackRules`, `FiringDays`, `RuleTable` | which reminder rule a clawback is due on a day, what a rule's fields come to in dates, and the overlap guard of the rule table |
| `IdempotencyKey`, `ReminderRun`, `ReminderPlan`, `ReminderOnce`, `ReminderDue`, `ReminderTwice` | the reminder pass that is re-run every 15 minutes, and exactly when a candidate gets at most one message a day |
| `CheckRefresh` | what a changed clawback does to health checks already created, and to the day's reminders |
| `MessageLifecycle`, `SendLock` | the life of one message log, and the Redis lock around sending it |
| `DigestPeriods`, `DigestAssignment`, `DigestAggregate` | the team digest: its calendar, its recipients, its figures |
| `MailWatermark`, `MailStore`, `MailSync` | incremental IMAP sync: UID watermark, local store with rules and cached counts, the account pass |
| `ToolDispatch` | the assistant's tool rounds, serial and fanned out |
| `ChatPaging`, `ChatUnread` | keyset pagination, read watermarks and unread counts |
| `Recurrence` | daily, weekly and one-off notification schedules |
| `UserInfoCache` | the three-tier cache of user names |
| `Options`, `StableSort`, `Counting` | optional values, `list.sort` by a key, SQL's `COUNT` |

Dates are day numbers, with the weekday of day `d` a function of `d`; times are seconds. Code that
updates rows or fields in place is a class whose methods are proved equal to a function of the old
state; the theorems are about those functions and about whole runs of them. Where several workers
interleave, the worlds of `SendLock` and `UserInfoCache` take one atomic step of one worker at a
time.

## What the code does differently from what it says

* The header of the clawback engine says doj rules never fire on or after the completion date
  (`app/whatsapp_layer/clawback_engine.py:11`). That holds for the rule matched on its own date. A
  match carried over a non-working day can be handed out on or after completion:
  `CarryCanBreakCompletion` is an instance, `DojAfterCompletionExactly` the exact condition for some
  rule table to do so, `DojDueAfterCompletionExactly` for a given one.
* The user-info cache promises display data at most 10 minutes stale
  (`app/chat_layer/user_info_cache.py:8-13`). A process can refill its own five-minute memo from a
  Redis entry that is about to expire. An answer can be that old exactly when its row was read
  that long before (`StaleExactly`), which, with lookups that take no time, means exactly when it
  is a memo hit served once the Redis entry it was copied from has expired (`TenMinutesExactly`).
  `StaleBeyondTenMinutes` is an instance, 898 seconds old; `AnswersAreRecent` bounds the age by 15
  minutes plus twice the duration of a lookup.
* A report naming `submitted`, which the adapter passes through
  (`app/whatsapp_layer/providers/omnichannel.py:489`), makes a queued log submitted without a
  submitted time or reference, so that no poll asks about it: `ReportSubmitsUnstamped`. Such a
  report is the only way to it: `SubmissionsStampedExactly`.
* A refresh after a change of dates looks up a check's due date in the schedule itself, while the
  check may stand for a match carried over from a non-working day. It is then cancelled and the
  candidate drops out of the day's reminders, although the code's comment says the next run
  recreates the right check (`app/whatsapp_layer/clawback_engine.py:811-813`):
  `CarriedCheckIsDropped`, with the exact condition in `StillEntryExactly`.
* A run is meant to drop candidates already handled that day
  (`app/whatsapp_layer/clawback_engine.py:636-645`), but it recognises them by the key of the entry
  they make now, and the items are read again for every run
  (`app/whatsapp_layer/clawback_engine.py:754-766`). When dates or rules move during the day the key
  changes, and the candidate is messaged again unless the recruiter has a
  list: `MovedDatesMessageTwice`. The same happens to a candidate whose cooling period drops to
  none after a list: its skipped message is logged without looking at the list
  (`app/whatsapp_layer/clawback_engine.py:621-633`).
  `SecondMessageExactly` says exactly when a run does it, `AtMostOneMessageExactly` when a day of
  runs does; it never happens while each candidate's entry stays the same
  (`SteadyCandidatesAtMostOnce`).
* A match carried over is lost when the last matched date carried to the same day has another
  rule: `EveryMatchIsCovered`. And a candidate whose send time comes after the recruiter's list has
  gone out gets no message that day: `RunCoversExactly`.
* An IMAP search for `n:*` always names the highest UID, so a UID can be reported below the
  watermark without ever having been stored: `ReportedNeedNotBeHanded`.
  `ReportedIsHandedExactly` says when a reported UID was stored, `EveryUidAccountedFor` what
  happens to each UID, `PassLeavesNothingBehindExactly` when a pass loses nothing, and
  `PendingIsStoredWhenReached` that a message above the watermark is stored when it is reached.
* Mutual exclusion of senders rests on a holder finishing within the lock's TTL:
  `OverdueHolderSendsTwice` shows what happens otherwise,
  `SecondWorkerEntersExactlyWhenOverdue` that this is the only way in.
* A folder's cached unread count goes wrong when rules leave a message marked read outside the
  synced folder with no move afterwards, of this or a later message (`RulesKeepUnreadExactly`,
  `PassKeepsUnreadExactly`), and a pass over that folder that finds nothing new leaves it wrong
  (`PassKeepsStoreSound`).
* A read mark that names a message still to come would hide that message from the unread count:
  `MarkAheadHidesMessage`. The callers look the message up first.
* A schedule whose repeat type the scheduler does not know never ends:
  `UnknownTypeFiresEveryTick`.
* The serial tool round passes an execution's exception on, the fanned-out one turns it into an
  error payload; the two are equal exactly when no execution raises: `FanOutEqualsSerial`.

## Model

| member | source | states |
|---|---|---|
| ClawbackRules.RuleCadence | app/whatsapp_layer/clawback_engine.py:139-155 | A repeating rule is due on its start day and every step after it within its window, and a once-rule on its start day alone; `FiringDays.RuleFiresExactly` covers every frequency |
| ClawbackRules.MatchRuleIsBest | app/whatsapp_layer/clawback_engine.py:158-166 | A rule is matched exactly when an active one is due, and no other due rule has a higher priority or, at equal priority, a lower id |
| ClawbackRules.MatchRuleIgnoresOrder | app/whatsapp_layer/clawback_engine.py:158-166 | With distinct ids the matched rule is the same for every order of the rule table |
| ClawbackRules.AnchorProgress | app/whatsapp_layer/clawback_engine.py:267-285 | An anchored clawback stays anchored and its day number grows by one a day until completion resets it |
| ClawbackRules.OwnDateMatchRespectsCompletion | app/whatsapp_layer/clawback_engine.py:8-12 | A rule matched on its own date is a doj rule only before completion |
| ClawbackRules.FirstWorkingDay | app/whatsapp_layer/clawback_engine.py:309-311 | With a working weekday, each date has a working day less than a week later that it is carried to |
| ClawbackRules.WindowIsCarry | app/whatsapp_layer/clawback_engine.py:174-184 | The seven dates looked back over are exactly those carried to today, for every set of working weekdays |
| ClawbackRules.RuleDue | app/whatsapp_layer/clawback_engine.py:169-184 | The backward loop computes the match on the latest date of its window, and nothing on a non-working day |
| ClawbackRules.DueRuleExactly | app/whatsapp_layer/clawback_engine.py:169-184 | What is due on a day is the match on the latest matching date carried to it; there is none exactly when no carried date matches |
| ClawbackRules.EveryMatchIsCovered | app/whatsapp_layer/clawback_engine.py:171-172 | Every matched date leads to a firing on the first working day at or after it, by the rule of the last matched date carried there; the date's own rule fires if and only if that last match is the same rule |
| ClawbackRules.FiringImpliesAnchored | app/whatsapp_layer/clawback_engine.py:174-178 | A clawback that fires has an anchor and day number on the day it fires |
| ClawbackRules.CarryCanBreakCompletion | app/whatsapp_layer/clawback_engine.py:11-12 | A concrete clawback is handed a doj rule on its completion date |
| ClawbackRules.DojAfterCompletionExactly | app/whatsapp_layer/clawback_engine.py:11-12 | Some rule table gives a doj rule on a working day at or after completion if and only if the day before completion is a joined day carried to it |
| ClawbackRules.DojDueAfterCompletionExactly | app/whatsapp_layer/clawback_engine.py:169-184 | For a given rule table a doj rule is due on such a day if and only if some joined date before completion carried to it matches and no date from completion on does |
| ClawbackRules.ProjectSchedule | app/whatsapp_layer/clawback_engine.py:369-384 | The projection lists exactly the firings of the next days asked for, 400 at most, in increasing date order: the carried ones if working days are given, else the matches of the dates themselves |
| FiringDays.RuleFiresExactly | app/whatsapp_layer/clawback_engine.py:135-155 | With every weekday working a table of one rule fires on a date if and only if the rule is active, the clawback is on its anchor, the day is in its window, and its frequency names the day: multiples of n or 7 from the start, the days or weekdays listed, the start day, or none for an unknown frequency |
| FiringDays.WeekdayRuleFiresOnItsDays | app/whatsapp_layer/clawback_engine.py:151-152 | Of any seven days inside its window a weekday rule fires on exactly the weekdays it names |
| FiringDays.FiringMeans | app/whatsapp_layer/clawback_engine.py:158-184 | Whatever the table and working days, the rule handed out is an active one of the table that names, on its own anchor, a date carried to today |
| FiringDays.AnchorExactly | app/whatsapp_layer/clawback_engine.py:267-285 | A clawback is on the accepted offer until joined, then on the joining date until its cooling period is over, then past its end; on nothing before those dates or once closed |
| FiringDays.FirstDayNumber | app/whatsapp_layer/clawback_engine.py:8-11 | Day 1 is the anchor date, day 0 the first date on which the cooling period is over |
| FiringDays.ClosedNeverFires | app/whatsapp_layer/clawback_engine.py:272-273 | A closed clawback is never reminded of |
| FiringDays.WorkingDaysExactly | app/whatsapp_layer/clawback_engine.py:309-311 | Without configured working days Sunday alone is free; otherwise exactly the days configured are worked |
| RuleTable.OverlapIsSharedDay | app/whatsapp_layer/clawback_engine.py:187-192 | For valid windows, open-ended ones included, the endpoint test says that some day lies in both on one anchor |
| RuleTable.ValidWindowHasDays | app/whatsapp_layer/clawback_engine.py:206-217 | A window passes validation exactly if it holds some day |
| RuleTable.ClashMeans | app/whatsapp_layer/clawback_engine.py:195-204 | For valid windows the check objects exactly to another active rule that shares a day with an active candidate |
| RuleTable.FindOverlap | app/whatsapp_layer/clawback_engine.py:195-203 | Returns the first clashing active rule, and none exactly when there is none |
| RuleTable.Table.CheckOverlap | app/whatsapp_layer/api/rules_api.py:229-233 | The write is allowed exactly when no live rule other than the one written shares a day with it |
| RuleTable.Table.Create | app/whatsapp_layer/api/rules_api.py:271-285 | A rule is added exactly when valid and sharing no day with a live rule; no two live rules ever share a day |
| RuleTable.Table.Update | app/whatsapp_layer/api/rules_api.py:288-301 | A rule is replaced exactly when the new one is valid and shares no day with another live rule |
| RuleTable.Table.Toggle | app/whatsapp_layer/api/rules_api.py:304-317 | Switching on succeeds exactly when the rule was already on or shares no day with another live rule; switching off always does |
| RuleTable.Table.Delete | app/whatsapp_layer/api/rules_api.py:320-329 | A deleted rule is inactive for good and the table stays consistent |
| RuleTable.AtMostOneInWindow | app/whatsapp_layer/clawback_engine.py:195-203 | A guarded table has at most one active rule in window for an anchor and day |
| RuleTable.DueRuleIsMatched | app/whatsapp_layer/clawback_engine.py:158-166 | In a guarded table the rule that is due is the one matched, so priorities never decide |
| IdempotencyKey.DecimalReadsBack | app/whatsapp_layer/clawback_engine.py:322-327 | A number printed into a key reads back as itself |
| IdempotencyKey.RawIsInjective | app/whatsapp_layer/clawback_engine.py:322-327 | Two keys with the same text have the same kind, rule, subject, recipient and date |
| IdempotencyKey.BatchKeysDistinct | app/whatsapp_layer/clawback_engine.py:330-334 | List parts of one day have equal keys only for the same recruiter and part |
| ReminderRun.GroupByRecruiter | app/whatsapp_layer/clawback_engine.py:344-363 | Groups hold each recruiter's entries in their order, recruiters in order of first appearance |
| ReminderRun.PlanRecruiterMessages | app/whatsapp_layer/clawback_engine.py:344-363 | The planning loops compute the plan whose properties `PlanConservesEntries` and `ListsExactlyAboveThreshold` state |
| ReminderRun.ReminderStore.CreateLog | app/whatsapp_layer/sender.py:62-80 | A log is created exactly when its key is new; an existing one is left alone |
| ReminderRun.ReminderStore.CollectEntries | app/whatsapp_layer/clawback_engine.py:584-613 | The first loop collects the entries due now, with and without a cooling period, and creates their checks |
| ReminderRun.ReminderStore.LogPlannedMessage | app/whatsapp_layer/clawback_engine.py:650-712 | A single message is logged under its own key, a list as its parts under the day's batch keys |
| ReminderRun.ReminderStore.EvaluateOrgReminders | app/whatsapp_layer/clawback_engine.py:564-715 | One run changes logs and health checks as its specification over the old ones says |
| ReminderPlan.PlanConservesEntries | app/whatsapp_layer/clawback_engine.py:344-363 | Planning neither loses, repeats nor invents an entry, and makes at most one list for a recruiter |
| ReminderPlan.ListsExactlyAboveThreshold | app/whatsapp_layer/clawback_engine.py:344-363 | A recruiter gets a list exactly when lists are on and more entries than the threshold are due; it holds all of that recruiter's entries in order |
| ReminderOnce.RunAddsExactly | app/whatsapp_layer/clawback_engine.py:619-712 | A run adds exactly one message for each entry that passes its guard and none for anyone else: the entry's current key is not logged and, for an entry to be messaged, its recruiter's list is not out, for one to be skipped, it has a recruiter |
| ReminderOnce.SecondMessageExactly | app/whatsapp_layer/clawback_engine.py:619-712 | A run gives a candidate a second message of the day if and only if it may send and an entry of a candidate who has one passes the guard |
| ReminderOnce.RunCoversExactly | app/whatsapp_layer/clawback_engine.py:636-712 | After a run that may send, a due candidate is without a message if and only if there was none before and the recruiter's list was already out |
| ReminderDue.NewlyCoveredIsDue | app/whatsapp_layer/clawback_engine.py:584-650 | Whoever a run newly covers has an item in it whose rule is due and whose send time has come, no cancelled check if there is a cooling period, else a recruiter; the message has that candidate's own key or belongs to a list to that recruiter |
| ReminderDue.DueIsCovered | app/whatsapp_layer/clawback_engine.py:584-712 | Conversely each such item of a run that may send is covered by a new message unless its own key or its recruiter's list was logged; with lists off, or without a cooling period, under its own key |
| ReminderDue.NewListMeans | app/whatsapp_layer/clawback_engine.py:453-464 | A list is logged only with lists on and to somebody, never without its first part, whose key bears no number, and that of a short template in no other |
| ReminderDue.NewMessageIsOfItsKind | app/whatsapp_layer/clawback_engine.py:665-699 | Each message a run logs is of the kind its key names |
| ReminderDue.ChecksExactly | app/whatsapp_layer/clawback_engine.py:601-604 | A run adds a pending check of today for exactly the cooling candidates due now by a rule that creates checks, and changes no other check |
| ReminderOnce.AtMostOneMessageExactly | app/whatsapp_layer/clawback_engine.py:754-766 | Over any sequence of runs, each with the rules, items, threshold, combine switch and splitting of its moment, mixed with other log writes and starting from a table in which no later part of a list stands without its first, every candidate has at most one message of the day if and only if that was so at the start and no run lets a candidate who has one pass the guard |
| ReminderOnce.SteadyCandidatesAtMostOnce | app/whatsapp_layer/clawback_engine.py:322-363 | From a day with no reminders, no candidate gets two messages in any runs in which each candidate makes the same entry whenever it makes one |
| ReminderOnce.EachCandidateAtMostOnce | app/whatsapp_layer/clawback_engine.py:322-363 | In particular in any runs that see the same rules and, for each candidate, the same item with its dates and recruiter |
| ReminderTwice.MovedDatesMessageTwice | app/whatsapp_layer/clawback_engine.py:636-645 | Two runs between which a joining date is entered log two reminders of one candidate on one day |
| CheckRefresh.HandleStateChanged | app/whatsapp_layer/clawback_engine.py:807-864 | An ended clawback cancels all its pending checks, a moved one those from today on whose due date the schedule no longer names; the count returned is that of the checks cancelled |
| CheckRefresh.ChangeMeans | app/whatsapp_layer/clawback_engine.py:832-859 | An ended clawback loses every pending check, a moved one those from today on whose due date its schedule names no check-creating rule, any other change none; checks of others or no longer pending stay |
| CheckRefresh.StillEntryExactly | app/whatsapp_layer/clawback_engine.py:843-857 | After a refresh a candidate is still among the entries of a pass, whatever is logged already, if and only if it has a cooling period, its rule is due and its send time has come, today's check was not cancelled before and, if it was pending, the schedule names today itself by a rule that creates checks |
| CheckRefresh.RefreshedIsMessagedExactly | app/whatsapp_layer/clawback_engine.py:843-857 | And a pass then logs a message for a due candidate if and only if, besides, it may send and neither its own message nor its recruiter's list is logged |
| CheckRefresh.CarriedCheckIsDropped | app/whatsapp_layer/clawback_engine.py:848-857 | A candidate whose rule was carried to today drops out of the day's reminders when refreshed while today's check is pending |
| MessageLifecycle.MessageLog.SendLog | app/whatsapp_layer/sender.py:136-226 | A send changes the log as the provider's answer says and leaves a log that is not queued alone |
| MessageLifecycle.MessageLog.PollBatch | app/whatsapp_layer/sender.py:260-298 | A poll moves a submitted log to sent or failed |
| MessageLifecycle.MessageLog.AdvanceStatus | app/whatsapp_layer/sender.py:301-321 | A report moves a log forward only, and says whether it did |
| MessageLifecycle.MessageLog.ApplyEvents | app/whatsapp_layer/webhooks.py:98-108 | A batch of reports acts as the run of its events |
| MessageLifecycle.MessageLog.RetryFailed | app/whatsapp_layer/api/logs_api.py:83-94 | Only a failed log is queued again; its attempts keep counting |
| MessageLifecycle.ProviderCallsBounded | app/whatsapp_layer/sender.py:147-226 | In every run there are at most four provider calls, plus one for each manual retry |
| MessageLifecycle.RunMovesForward | app/whatsapp_layer/sender.py:147-321 | Without manual retries a run never re-enters queued, never leaves read, failed or skipped, and sets each timestamp at most once |
| MessageLifecycle.LifecycleTheorem | app/whatsapp_layer/sender.py:147-321 | At every moment of a fresh log's run a sent, delivered, read or failed log carries the times of the statuses it passed, and all that follows moves forward from there |
| MessageLifecycle.StepStampsSubmissionExactly | app/whatsapp_layer/sender.py:301-321 | A step leaves a submitted log without its time if and only if it is a report naming submitted for a queued log no provider accepted |
| MessageLifecycle.SubmissionsStampedExactly | app/whatsapp_layer/sender.py:147-321 | In a run every submitted log carries its time if and only if no such report occurs |
| MessageLifecycle.SubmittedAtExactly | app/whatsapp_layer/sender.py:205-210 | In every run the submitted time is set if and only if a provider accepted the log |
| MessageLifecycle.ReportSubmitsUnstamped | app/whatsapp_layer/sender.py:301-321 | One report makes a fresh log submitted without time or reference, and no poll ever asks about it |
| MessageLifecycle.BackoffSchedule | app/whatsapp_layer/sender.py:202-224 | Retryable refusals are retried after 1, 5 and 15 minutes and the fourth is final |
| MessageLifecycle.FailedExactly | app/whatsapp_layer/sender.py:147-321 | A log never retried by hand ends failed if and only if its token could not be read, a refusal was final, a poll answered failed while news was awaited, or a failure was reported before delivery |
| MessageLifecycle.SkippedExactly | app/whatsapp_layer/sender.py:83-85 | A log ends skipped if and only if a check stopped its send or the provider had it already |
| MessageLifecycle.PollMeans | app/whatsapp_layer/sender.py:260-298 | A poll answered sent or failed makes a log submitted between two minutes and three days ago sent, at the time known before or now, or failed; any other poll changes nothing |
| MessageLifecycle.AcceptanceMeans | app/whatsapp_layer/sender.py:202-215 | An accepted send is submitted now under the provider's reference, a duplicate skipped under it, one attempt further; a stopped one is skipped without an attempt |
| MessageLifecycle.RetryMeans | app/whatsapp_layer/api/logs_api.py:83-94 | A retry queues a failed log without its failure and retry times, and changes no other |
| MessageLifecycle.AttemptsExactly | app/whatsapp_layer/sender.py:147-202 | In every run attempts count exactly the sends of a queued log that no check stopped |
| MessageLifecycle.TimesAreEventTimes | app/whatsapp_layer/sender.py:128-321 | Every timestamp is the time of an event of the run that can set it: a send, a poll or report, or a report |
| MessageLifecycle.RetryTimeLeftBehind | app/whatsapp_layer/sender.py:136-226 | A log leaves queued with its retry time set exactly when a check, a duplicate answer or a webhook moved it |
| MessageLifecycle.ReportsReachTheMaximum | app/whatsapp_layer/sender.py:301-321 | Any list of delivery reports leaves the log at the highest of its own status and theirs |
| MessageLifecycle.WebhookOrderIrrelevant | app/whatsapp_layer/webhooks.py:98-108 | Two batches naming the same statuses, in any order and number, leave the same status |
| SendLock.RedisLocks.Acquire | app/notification_layer/redis_manager.py:281-288 | The lock is taken exactly when the server answers and the key is absent or expired; it then lasts its TTL |
| SendLock.NextKeepsSafe | app/whatsapp_layer/tasks.py:181-199 | Each step of any worker keeps exclusion, lock ownership and the single recorded acceptance |
| SendLock.SendersExcludeEachOther | app/whatsapp_layer/tasks.py:181-199 | In every interleaving in which holders leave within the TTL, one worker at most is inside and the provider's acceptance is recorded at most once |
| SendLock.SecondWorkerEntersExactlyWhenOverdue | app/notification_layer/redis_manager.py:281-294 | While one worker is inside, another can enter if and only if the first has outstayed its lock |
| SendLock.OverdueHolderSendsTwice | app/whatsapp_layer/tasks.py:181-199 | A provider call longer than the TTL lets two acceptances be recorded |
| SendLock.SoloSendIsSend | app/whatsapp_layer/tasks.py:181-199 | A worker that meets nobody does to the log what the send alone does, and leaves the lock free |
| SendLock.UndeletedLockHolds | app/whatsapp_layer/tasks.py:187-199 | A worker whose lock is not deleted when it leaves keeps everybody out until exactly 120 seconds after it took it |
| SendLock.RunLocked | app/whatsapp_layer/tasks.py:47-62 | Starts of a job are at least its TTL apart and an attempt that did not start lies within a TTL of one that did |
| SendLock.StartsPerSpan | app/whatsapp_layer/tasks.py:47-62 | `n` starts later at least `n` TTLs have passed |
| SendLock.StartsAreApart | app/whatsapp_layer/tasks.py:47-53 | Two starts of a job are at least 30 seconds apart, and its interval less 30 seconds |
| SendLock.SkippedAttemptIsEarly | app/whatsapp_layer/tasks.py:47-53 | An attempt that did not start came less than 30 seconds, or than the interval less 30 seconds, after a start |
| SendLock.RegularAttemptsStart | app/whatsapp_layer/tasks.py:47-53 | A job attempted once an interval of at least 30 seconds starts every time |
| DigestPeriods.DigestPeriod | app/whatsapp_layer/digest_engine.py:107-117 | The look-back loop finds the day after the previous scheduled date |
| DigestPeriods.DueDates | app/whatsapp_layer/digest_engine.py:96-104 | A digest is due every day, on its weekday of each week, on its weekdays, or never |
| DigestPeriods.PeriodMeans | app/whatsapp_layer/digest_engine.py:107-117 | A weekly digest reports on seven days, one on weekdays on the days after the last of them before, up to a week back, any other on today |
| DigestPeriods.PeriodFollowsPrevious | app/whatsapp_layer/digest_engine.py:96-117 | Of two consecutive scheduled dates, the period of the second starts the day after the first |
| DigestPeriods.PeriodsTileTheCalendar | app/whatsapp_layer/digest_engine.py:96-117 | Every date is reported on by exactly one digest of a rule, less than a week later |
| DigestAssignment.LedUnderOthers | app/whatsapp_layer/digest_engine.py:134-142 | Collects exactly the people who lead a team under somebody else |
| DigestAssignment.AssignRecipients | app/whatsapp_layer/digest_engine.py:145-162 | Everyone in an audience gets one rule: the highest priority, lowest id one that offers itself to them, admins' rules not being offered to team leads |
| DigestAssignment.EveryoneIsOffered | app/whatsapp_layer/digest_engine.py:145-162 | Withholding admins' rules from team leads leaves nobody without a digest |
| DigestAssignment.RuleIgnoresOrder | app/whatsapp_layer/digest_engine.py:145-162 | With distinct rule ids the chosen rule does not depend on the order of the audiences |
| DigestAggregate.Aggregate | app/whatsapp_layer/digest_engine.py:182-236 | Every figure of the report is the number of items or checks in scope that it stands for |
| DigestAggregate.CountItem | app/whatsapp_layer/digest_engine.py:190-215 | One more item keeps every item figure exact |
| DigestAggregate.CountCheck | app/whatsapp_layer/digest_engine.py:201-213 | One more check keeps every check figure exact, for the recruiter too |
| DigestAggregate.ItemFiguresMean | app/whatsapp_layer/digest_engine.py:187-215 | The item figures are the numbers of items of recruiters in scope, of those whose cooling period ends within seven days or has ended, and of those in each stage |
| DigestAggregate.CheckFiguresMean | app/whatsapp_layer/digest_engine.py:201-230 | The check figures are the numbers of checks in scope that fell due in the period and were not cancelled, of those done or missed, and of those with each outcome |
| DigestAggregate.RecruiterFiguresMean | app/whatsapp_layer/digest_engine.py:206-213 | A recruiter's figures are the numbers of that recruiter's checks among those |
| DigestAggregate.AtRiskIdsAre | app/whatsapp_layer/digest_engine.py:233-234 | The at-risk list names exactly the period's checks with a troubled outcome |
| DigestAggregate.ReportsAdd | app/whatsapp_layer/digest_engine.py:182-236 | For disjoint scopes every total, every stage count and every due, done and missed count of a recruiter of the union is the sum of the two |
| DigestAggregate.ReportBalances | app/whatsapp_layer/digest_engine.py:182-236 | Stage counts sum to active, due is pending plus done plus missed, and recruiters' due counts with the unassigned sum to due |
| MailWatermark.BatchIsLowest | app/mail_layer/imap_sync.py:240-245 | A batch ascends, has at most 200 UIDs and takes the lowest of those above the watermark |
| MailWatermark.PassHandsExactly | app/mail_layer/imap_sync.py:240-264 | Of the UIDs the watermark moves over, a pass stores exactly those listed and returned with a body, in ascending order |
| MailWatermark.BodylessIsLostExactly | app/mail_layer/imap_sync.py:252-262 | A UID of the batch without a body is skipped for good if and only if a higher one of the batch has a body |
| MailWatermark.EveryUidAccountedFor | app/mail_layer/imap_sync.py:232-264 | In every run of deliveries, expunges and passes UIDs are stored in strictly ascending order, the watermark is the last of them, and a UID at or below it was stored unless gone, without a body, or left out by the backfill when passed |
| MailWatermark.RunKeepsInv | app/mail_layer/imap_sync.py:232-264 | The watermark never falls over any run |
| MailWatermark.PassLeavesNothingBehindExactly | app/mail_layer/imap_sync.py:232-264 | A pass leaves every existing message at or below the watermark stored if and only if the server listed and returned each message below the highest UID of the batch that has a body |
| MailWatermark.FullAnswersAreComplete | app/mail_layer/imap_sync.py:232-264 | An incremental pass, or one that lists everything, with a body for each UID of its batch does |
| MailWatermark.RunLeavesNothingBehind | app/mail_layer/imap_sync.py:232-264 | Once that holds it holds after every run whose backfill lists everything and whose fetches return all bodies |
| MailWatermark.FullBackfillLosesNothing | app/mail_layer/imap_sync.py:229-264 | In particular from the very first pass of a folder that backfills everything |
| MailWatermark.PendingIsStoredWhenReached | app/mail_layer/imap_sync.py:232-264 | Over any run with all bodies, a message above the watermark that is not expunged is stored exactly when the watermark reaches it |
| MailWatermark.ReportedNeedNotBeHanded | app/mail_layer/imap_sync.py:229-243 | A run in which a search reports a UID below the watermark that was never stored |
| MailWatermark.ReportedIsHandedExactly | app/mail_layer/imap_sync.py:232-264 | In every run a reported UID at or below the watermark was stored if and only if the pass that moved the watermark over it found it listed and got its body |
| MailWatermark.CutOffIsStoredLater | app/mail_layer/imap_sync.py:229-264 | A UID cut off by the cap stays above the watermark, and after any later run it is stored exactly when the watermark has reached it |
| MailWatermark.QuietFolderDrains | app/mail_layer/imap_sync.py:240-264 | In a folder nothing changes in, from the initial backfill on, each pass takes 200 pending UIDs until none is left |
| MailStore.MailDb.RefreshFolderCounts | app/mail_layer/store.py:100-109 | Sets a folder's cached total and unread counts to a recount of its live rows |
| MailStore.MailDb.MoveMessage | app/mail_layer/store.py:113-124 | Moves a row, clears its UID and recounts both folders; a move to its own folder does nothing |
| MailStore.MailDb.ApplyAction | app/mail_layer/rules_engine.py:127-158 | Marks read, or moves to the folder of a role or id or to trash if there is one |
| MailStore.MailDb.ApplyActions | app/mail_layer/rules_engine.py:92-94 | Runs a rule's actions up to the first that raises |
| MailStore.MailDb.ApplyUserRules | app/mail_layer/rules_engine.py:60-98 | Sender lists first, then the matching rules in order until one stops or fails |
| MailStore.MailDb.UpsertMessage | app/mail_layer/imap_sync.py:141-197 | Stores a fetched message unless its UID or a live copy is there, which adopts the UID if it has none |
| MailStore.MailDb.FileMessage | app/mail_layer/imap_sync.py:257-262 | Stores a message and applies rules to new mail of the inbox |
| MailStore.MovedMeans | app/mail_layer/store.py:113-124 | A move changes nothing of the row but its folder and its UID, and makes all four counts of the two folders right even if they were wrong |
| MailStore.RefreshMeans | app/mail_layer/store.py:100-109 | A refresh sets a folder's counts to the numbers of its live rows and of its live unread rows |
| MailStore.ActMeans | app/mail_layer/rules_engine.py:127-158 | An action leaves the message read in place, in the folder of a role or id if there is one, in trash if there is one, or as it was; changing folder costs it its UID |
| MailStore.OneActionMeans | app/mail_layer/rules_engine.py:92-94 | A list of one action is that action, unless it raises |
| MailStore.SenderListsMean | app/mail_layer/rules_engine.py:60-77 | Mail of a safe sender stays and of a blocked one goes to junk if there is one, and no rule runs on either |
| MailStore.RulesKeepStoreSound | app/mail_layer/rules_engine.py:80-98 | Whatever rules do, only the message's own row changes, UIDs stay unique and the totals of all folders but the one being synced stay right |
| MailStore.RulesActAsOneList | app/mail_layer/rules_engine.py:89-98 | Rules act as one list of actions cut at the first failure; nothing after a stop rule or failure, and no rule that does not match, has an effect |
| MailStore.ActKeepsUnreadExactly | app/mail_layer/rules_engine.py:131-132 | The unread counts of the other folders stay right unless, and only unless, the action marks read an unread message that has already left the synced folder |
| MailStore.RulesKeepUnreadExactly | app/mail_layer/rules_engine.py:80-98 | Over a whole rule list the folders left with a wrong unread count are exactly those wrong before or in which the message was marked read, less those a later move recounted |
| MailStore.FiledKeepsUnreadExactly | app/mail_layer/imap_sync.py:257-261 | Storing a message changes which folders are wrong exactly as its rules do if it is new mail of the inbox, and not otherwise |
| MailStore.UpsertKeepsUids | app/mail_layer/imap_sync.py:143-168 | A (folder, UID) pair stays on at most one row |
| MailStore.UpsertExactly | app/mail_layer/imap_sync.py:143-168 | A row is added exactly when the folder knows neither the UID nor a live copy of the Message-ID, and afterwards it has the UID unless a live copy goes by another one |
| MailStore.FiledStores | app/mail_layer/imap_sync.py:143-261 | Every message handed on is stored, in every folder: one new row with its Message-ID exactly if the folder did not know it, all other rows kept but for an adopted UID |
| MailStore.FiledKeeps | app/mail_layer/imap_sync.py:257-262 | Storing a message, rules included, gives the folder no second live copy of a Message-ID |
| MailSync.FetchBatch | app/mail_layer/imap_sync.py:247-262 | The fetch loop stores the readable UIDs in order and returns the last of them as the new watermark |
| MailSync.SyncOneFolder | app/mail_layer/imap_sync.py:215-267 | A folder pass is its specification of the old store, and returns how many rows it added |
| MailSync.SyncAccount | app/mail_layer/imap_sync.py:270-305 | Either every folder is synced or, when one breaks off, nothing changes at all |
| MailSync.PassKeepsStoreSound | app/mail_layer/imap_sync.py:250-266 | After a pass UIDs are unique, every folder's total equals a recount, no second live copy of a Message-ID has appeared, and the synced folder's unread count is right exactly when it was before or there was anything to fetch |
| MailSync.PassStoresExactly | app/mail_layer/imap_sync.py:240-267 | A pass goes from table to table storing each UID of its batch that has a body, and the rows it adds number exactly those it did not know when it reached them |
| MailSync.PassLeavesMessageStored | app/mail_layer/imap_sync.py:240-267 | In a folder other than the inbox each such message is in the store after the pass: the folder has its UID, or a live row with its Message-ID and a UID |
| MailSync.FailedPassStoresNothing | app/mail_layer/imap_sync.py:217-238 | A pass that cannot select or search leaves all rows as they are |
| MailSync.PassKeepsUnreadExactly | app/mail_layer/imap_sync.py:250-266 | Over a whole folder pass another folder's unread count stays right if and only if no rule marked a message read in it that no later move, of any message, recounted |
| MailSync.PassMovesOnlyItsMark | app/mail_layer/imap_sync.py:225-264 | A pass moves the watermark to the highest UID handed on, counted from zero again after a change of UIDVALIDITY, which it records; never back while that stays; and no other folder's |
| MailSync.AccountPassesInTurn | app/mail_layer/imap_sync.py:289-293 | An account pass is one pass over each folder, in order, each from the store the one before left |
| MailSync.AccountPassMovesEachMark | app/mail_layer/imap_sync.py:282-296 | Each listed folder's watermark ends as after a pass over that folder alone, whatever rules do for the others; a folder not synced keeps its own |
| MailSync.AccountPassKeepsSound | app/mail_layer/imap_sync.py:282-296 | An account pass keeps UIDs unique and all totals right |
| MailSync.AccountStaysSound | app/mail_layer/store.py:113-124 | So does any mixture of account passes and moves |
| ToolDispatch.ToolContext.AddOutputRef | app/ai_chat_layer/tools/context.py:68-74 | Appends a card unless one of its kind and id is there |
| ToolDispatch.ToolContext.MergeSubContext | app/ai_chat_layer/agent.py:312-324 | Appends an execution's trace, new cards and artifacts |
| ToolDispatch.ToolContext.DispatchSerially | app/ai_chat_layer/agent.py:266-273 | Results and merged context in call order; an exception leaves the earlier calls merged |
| ToolDispatch.ToolContext.DispatchInParallel | app/ai_chat_layer/agent.py:275-309 | The same results and context for every order of completion |
| ToolDispatch.ToolContext.Dispatch | app/ai_chat_layer/agent.py:220-309 | A batch raises exactly when it runs serially and an execution does; cards are only ever added, none twice |
| ToolDispatch.FanOutEqualsSerial | app/ai_chat_layer/agent.py:266-309 | From equal contexts both ways give equal results, trace, cards and artifacts, exactly when nothing raises |
| ToolDispatch.AddingMeans | app/ai_chat_layer/tools/context.py:68-74 | Adding cards keeps those there in place, has every card added, none twice, and keeps the first of equal ones |
| ToolDispatch.MergingMeans | app/ai_chat_layer/agent.py:312-324 | Merging a batch appends every execution's trace and artifacts, and adds its cards, in call order |
| ToolDispatch.RunTurn | app/ai_chat_layer/agent.py:449-574 | The conversation holds the calls of each completed round and after them, one by one, the call's id or name with its own execution's payload or error text, then the answer or the failing round; the context all that was collected; the slices given to the client concatenate to its cards; the turn ends within its rounds |
| ChatPaging.ConversationIsSorted | app/chat_layer/store.py:819-823 | The listing order is strictly newest first by time, then id, and has each row of the conversation once |
| ChatPaging.OnePage | app/chat_layer/store.py:817-839 | A page read after the first `c` messages holds the next ones up to the limit, says whether there are more, and gives the cursor of its last row, whatever newer messages have come |
| ChatPaging.PagesTileTheConversation | app/chat_layer/store.py:817-839 | Following the cursor gives the first `n * limit` messages once each and in order, and the cursor ends exactly when all have been given |
| ChatPaging.FollowingCursorsReadsEverything | app/chat_layer/store.py:817-839 | A reader has the whole conversation exactly when the cursor has ended, with no page more than needed |
| ChatPaging.ZeroLimitStops | app/chat_layer/store.py:834-838 | With a limit of zero a page has no rows and no cursor even where it says there is more |
| ChatPaging.GarbledCursorStartsOver | app/chat_layer/store.py:824-832 | A cursor that cannot be read starts from the newest message again |
| ChatUnread.ChatStore.SoftDeleteMessage | app/chat_layer/store.py:787-793 | Marks the message of that id deleted and changes nothing else |
| ChatUnread.ChatStore.UpdateLastRead | app/chat_layer/store.py:704-718 | Moves a member's watermark forward only |
| ChatUnread.RunKeepsInv | app/chat_layer/store.py:704-718 | No run of sends, deletes, marks and joins moves a watermark back or loses a member |
| ChatUnread.WatermarkIsHighestMark | app/chat_layer/store.py:704-718 | After any run a watermark is the greatest id ever marked, so order and repetition of marks do not matter |
| ChatUnread.HighestIsMaximum | app/chat_layer/store.py:704-718 | That greatest id is one of the marks, and no mark exceeds it |
| ChatUnread.QueriesAgreeExactly | app/chat_layer/store.py:396-401 | The inbox query and the single query differ if and only if nothing has been read and somebody else's live message has an id below one |
| ChatUnread.QueriesAgree | app/chat_layer/store.py:721-735 | In every run both queries give every member the same number |
| ChatUnread.SendAddsOneExactly | app/chat_layer/store.py:396-401 | A send adds one unread message exactly for members of its conversation other than the sender whose watermark is behind its id |
| ChatUnread.SendReachesEveryMember | app/chat_layer/store.py:740-780 | After any run whose marks name existing messages, that is every member but the sender |
| ChatUnread.MarkAheadHidesMessage | app/chat_layer/store.py:704-718 | A mark on a message to come makes the next send add nothing |
| ChatUnread.DeleteTakesOneExactly | app/chat_layer/store.py:787-793 | A deletion takes one from a member's count exactly when the message was unread there |
| ChatUnread.MarkingNewestClears | app/chat_layer/store.py:704-718 | Marking the newest message leaves nothing unread |
| Recurrence.ScheduleRow.Fire | app/notification_layer/scheduler.py:126-137 | Firing stamps the schedule and moves it a period on, ends it past its end or after a one-off |
| Recurrence.ScheduleRow.Cancel | app/notification_layer/store.py:1043-1052 | Cancels a pending schedule and no other |
| Recurrence.FireScheduled | app/notification_layer/celery_tasks.py:31-105 | A pass fires each due schedule once, leaves failing ones as they were, and counts the firings |
| Recurrence.Occurrences | app/notification_layer/scheduler.py:129-136 | The number of occurrences is the first `n` of at least one whose next slot lies past the end |
| Recurrence.FiringsFollowTheCalendar | app/notification_layer/scheduler.py:126-137 | The i-th firing is for start plus i periods, never early, after the first never past the end, and the schedule is done exactly when it has fired as often as it occurs |
| Recurrence.LateTicksCatchUp | app/notification_layer/store.py:1072-1080 | A schedule that fell behind fires once a tick until all occurrences have fired, and is then done |
| Recurrence.OnceFiresOnce | app/notification_layer/celery_tasks.py:88-89 | A one-off fires at most once and is done exactly when it has |
| Recurrence.OnceFires | app/notification_layer/scheduler.py:127-128 | It does fire at the first tick at or after its time that does not fail |
| Recurrence.UnknownTypeFiresEveryTick | app/notification_layer/scheduler.py:126-137 | A schedule of an unknown repeat type stays pending and fires on every tick from its time on |
| Recurrence.CancelledStaysSilent | app/notification_layer/store.py:1072-1080 | Nothing fires once a schedule is cancelled or done |
| UserInfoCache.UserInfoMemo.MemoGet | app/chat_layer/user_info_cache.py:46-56 | Answers an unexpired entry, removes an expired one |
| UserInfoCache.UserInfoMemo.MemoPut | app/chat_layer/user_info_cache.py:59-65 | Stores an entry for five minutes, emptying a full memo first |
| UserInfoCache.MemoStaysBounded | app/chat_layer/user_info_cache.py:59-65 | Every memo operation keeps at most 4096 entries, each with an expiry |
| UserInfoCache.MemoMeans | app/chat_layer/user_info_cache.py:46-65 | The memo remembers an entry for exactly 300 seconds, and the others with it unless it held 4096 users |
| UserInfoCache.StepsKeepSourced | app/chat_layer/user_info_cache.py:114-139 | In every run each value held or answered is the row as it was when it was read, since only database reads fill the caches |
| UserInfoCache.StepsKeepTimed | app/chat_layer/user_info_cache.py:114-139 | In every run of lookups that take at most a given time, each tier holds a value no longer than its lifetime plus that time |
| UserInfoCache.StepsKeepAlike | app/chat_layer/user_info_cache.py:114-139 | The values in the users table steer no lookup, only who exists does |
| UserInfoCache.StaleExactly | app/chat_layer/user_info_cache.py:8-13 | For every run and age, an answer can be that old for some history of the users' names if and only if its row was read that long before |
| UserInfoCache.TenMinutesExactly | app/chat_layer/user_info_cache.py:8-13 | With lookups that take no time an answer can be ten minutes old if and only if it is a memo hit served once the Redis entry it was copied from has expired |
| UserInfoCache.LateHitCanBeStale | app/chat_layer/user_info_cache.py:8-13 | However long lookups take, such a hit can be that old |
| UserInfoCache.AnswersAreRecent | app/chat_layer/user_info_cache.py:114-139 | In every interleaving of processes each answer was the database row less than 900 seconds plus twice a lookup's duration before |
| UserInfoCache.InvalidationForcesRead | app/chat_layer/user_info_cache.py:142-151 | After an invalidation a lookup in that process finds neither tier and goes to the database |
| UserInfoCache.LookupWithoutRedis | app/chat_layer/user_info_cache.py:68-138 | With Redis unreachable a lookup that misses the memo answers with the row as it is and remembers it in the memo alone |
| UserInfoCache.StaleBeyondTenMinutes | app/chat_layer/user_info_cache.py:8-13 | A run whose last answer is a row replaced 898 seconds before |

## Left out

- SHA-1 over the key text is taken to be injective; the text itself is proved injective.
- Splitting a candidate list into message parts is any partition into consecutive chunks; the character limits that drive it are not modelled.
- Crashes between separate commits, and lost updates between a slow send and a webhook beyond the columns a send writes: each modelled step is atomic.
- `apply_prechecks`, opt-outs, quiet hours and the dispatch queue's limit of 500: they only decide whether a send is tried; the outcome is an input.
- A send that falls back to running inline, outside the per-log lock.
- Time zones and the conversion of local to UTC times: local dates and minutes are inputs.
- Fields of a kept health check that a refresh rewrites (rule, anchor, day number, label).
- Field checks of a rule other than its window, such as the least start day of an anchor.
- Status and run statistics of a reminder pass beyond logs and health checks, and the wording of every message.
- Digest stage labels and the list of most missed recruiters: the label is an arbitrary function of an item; the ordering of the lists is not modelled.
- UID epochs: `MailWatermark` stays within one UIDVALIDITY; `MailSync` models the restart of the watermark but claims nothing about mail renumbered by it.
- MIME parsing, attachments, conversation threading, flags other than read, and categories: no effect on UIDs, copies or counts.
- Rule conditions: whether a rule matches a message is an input, since no action changes a field a condition reads.
- MailStore.MailDb.UpsertMessage: of several live copies the one with the lowest id adopts the UID; the query names no order.
- Folder discovery, connecting, and the account's status text.
- Tool executions are inputs: what a tool answers does not depend on the calls merged before it in the batch, as each runs in its own sub-context. Progress messages to the client are not modelled.
- Cursor text: encoding and decoding a cursor is taken to be lossless, and an undecodable one is ignored, as the code does.
- Mentions, receipts, reactions and edits in the chat: they do not enter the queries modelled.
- What a failing schedule leaves in its database session: the Celery task rolls back, the in-process scheduler does not; both are modelled as leaving the schedule as it was.
- Two schedulers firing the same tick: the scheduler lock is the one modelled in `SendLock`, and a tick is one atomic step; editing a schedule is not modelled.
- Invalidation in the cache's other tiers is modelled only as far as its own process and Redis; other processes keep their memo until it expires.
