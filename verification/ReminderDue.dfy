/**
 Who a run messages, said by the calendar and the clock alone: the rule that is due, its send
 time, the health check, and the log table the run finds.
 */
module ReminderDue {
  import opened Options
  import opened ClawbackRules
  import opened IdempotencyKey
  import opened ReminderRun
  import opened ReminderPlan
  import opened ReminderOnce

  /** The item's rule of the day is `r`, and its send time has come. */
  predicate DueNow(day: Day, minute: nat, item: Item, r: RuleSpec) {
    DueRule(day.rules, item.clawback, day.today, day.workingDays) == Some(r) && r.sendTime <= minute
  }

  predicate CheckCancelled(checks: Checks, job: nat, date: int) {
    (job, date) in checks && checks[(job, date)] == Cancelled
  }

  /** The key of a candidate's own message: past completion a cooling candidate gets the final
      validation. */
  function OwnKey(day: Day, item: Item, r: RuleSpec): Key {
    var past := AnchorAndDay(item.clawback, day.today).Some?
                && AnchorAndDay(item.clawback, day.today).value.0 == CoolingEnd;
    Key(if item.clawback.coolingDays > 0 && past then "final_validation" else "reminder",
        r.id.GetOr(0), item.job, item.recruiter, day.today)
  }

  lemma EntryIsDue(day: Day, minute: nat, item: Item)
    ensures var e := EntryAt(day, minute, item);
            && (e.Some? ==> DueNow(day, minute, item, e.value.rule)
                            && KeyOf(e.value, day.today) == OwnKey(day, item, e.value.rule)
                            && e.value.cooling == (item.clawback.coolingDays > 0)
                            && e.value.recruiter == item.recruiter && e.value.job == item.job)
            && forall r :: DueNow(day, minute, item, r) ==> e.Some? && e.value.rule == r
  {
    if DueRule(day.rules, item.clawback, day.today, day.workingDays).Some? {
      FiringImpliesAnchored(day.rules, item.clawback, day.today, day.workingDays);
    }
  }

  // ----- health checks -----

  /** Some item of the run is due now, for this job, by a rule that creates checks. */
  ghost predicate ChecksJob(day: Day, minute: nat, items: seq<Item>, job: nat) {
    exists i, r :: 0 <= i < |items| && items[i].job == job && items[i].clawback.coolingDays > 0
                   && DueNow(day, minute, items[i], r) && r.createsHealthCheck
  }

  ghost predicate ItemChecks(day: Day, minute: nat, item: Item) {
    item.clawback.coolingDays > 0 && exists r :: DueNow(day, minute, item, r) && r.createsHealthCheck
  }

  lemma WantsExactly(day: Day, minute: nat, item: Item)
    ensures WantsCheck(day, minute, item) <==> ItemChecks(day, minute, item)
  {
    EntryIsDue(day, minute, item);
  }

  lemma ChecksJobSplits(day: Day, minute: nat, items: seq<Item>, job: nat)
    requires items != []
    ensures var n := |items| - 1;
            ChecksJob(day, minute, items, job) <==>
            ChecksJob(day, minute, items[..n], job) || (items[n].job == job && ItemChecks(day, minute, items[n]))
  {
    var n := |items| - 1;
    if ChecksJob(day, minute, items[..n], job) {
      var i, r :| 0 <= i < n && items[..n][i].job == job && items[..n][i].clawback.coolingDays > 0
                  && DueNow(day, minute, items[..n][i], r) && r.createsHealthCheck;
      assert DueNow(day, minute, items[i], r);
    }
    if ChecksJob(day, minute, items, job) {
      var i, r :| 0 <= i < |items| && items[i].job == job && items[i].clawback.coolingDays > 0
                  && DueNow(day, minute, items[i], r) && r.createsHealthCheck;
      assert i < n ==> DueNow(day, minute, items[..n][i], r);
    }
  }

  /** A run adds a pending check of today for exactly those candidates, and changes no check. */
  lemma {:induction false} ChecksExactly(checks: Checks, day: Day, minute: nat, items: seq<Item>, job: nat, date: int)
    ensures var after := ChecksAfter(checks, day, minute, items);
            && ((job, date) in after <==>
                  (job, date) in checks || (date == day.today && ChecksJob(day, minute, items, job)))
            && ((job, date) in after ==>
                  after[(job, date)] == if (job, date) in checks then checks[(job, date)] else Pending)
  {
    if items != [] {
      var n := |items| - 1;
      ChecksExactly(checks, day, minute, items[..n], job, date);
      WantsExactly(day, minute, items[n]);
      ChecksJobSplits(day, minute, items, job);
    }
  }

  // ----- lists -----

  /** A part of a list to somebody: the first part bears no number, a short template has no other. */
  predicate ListKey(k: Key, shortTemplate: bool, today: int) {
    && k == Key("batch_reminder", k.ruleId, 0, k.recipientId, today) && k.recipientId != 0 && k.ruleId != 1
    && (shortTemplate ==> k.ruleId == 0)
  }

  ghost predicate ListsFrom(before: Logs, after: Logs, plan: seq<Planned>, run: Run, today: int) {
    forall k :: k in after && k !in before && k.kind == BATCH_REMINDER ==>
      && ListKey(k, run.shortTemplate, today)
      && (exists i :: 0 <= i < |plan| && plan[i].Batch? && plan[i].recruiter == k.recipientId)
  }

  lemma {:induction false} PartsAre(logs: Logs, r: nat, parts: seq<seq<Entry>>, today: int)
    ensures forall k :: k in LogParts(logs, r, parts, today) && k !in logs ==>
              exists n :: 1 <= n <= |parts| && k == BatchKey(r, today, n)
  {
    if parts != [] {
      var m := |parts| - 1;
      PartsAre(logs, r, parts[..m], today);
      forall k | k in LogParts(logs, r, parts, today) && k !in logs
        ensures exists n :: 1 <= n <= |parts| && k == BatchKey(r, today, n)
      {
        if k in LogParts(logs, r, parts[..m], today) {
          var n :| 1 <= n <= m && k == BatchKey(r, today, n);
        } else {
          assert k == BatchKey(r, today, |parts|);
        }
      }
    }
  }

  lemma {:induction false} SinglesAre(logs: Logs, entries: seq<Entry>, today: int)
    requires forall e :: e in entries ==> e.kind != BATCH_REMINDER
    ensures forall k :: k in LogEach(logs, entries, today) && k !in logs ==> k.kind != BATCH_REMINDER
  {
    if entries != [] {
      SinglesAre(logs, entries[..|entries| - 1], today);
      assert entries[|entries| - 1] in entries;
    }
  }

  lemma PlannedLists(logs: Logs, p: Planned, run: Run, today: int)
    requires forall e :: e in EntriesOf(p) ==> e.kind != BATCH_REMINDER
    ensures ListsFrom(logs, LogPlanned(logs, p, run, today), [p], run, today)
  {
    var after := LogPlanned(logs, p, run, today);
    if p.Batch? && p.recruiter != 0 {
      var parts := MessageParts(p.entries, run.split, run.shortTemplate);
      PartsAre(logs, p.recruiter, parts, today);
      assert run.shortTemplate ==> |parts| <= 1;
      forall k | k in after && k !in logs && k.kind == BATCH_REMINDER
        ensures k.recipientId == p.recruiter && ListKey(k, run.shortTemplate, today)
      {
        var n :| 1 <= n <= |parts| && k == BatchKey(p.recruiter, today, n);
      }
      assert [p][0].Batch?;
    } else {
      SinglesAre(logs, EntriesOf(p), today);
    }
  }

  lemma {:induction false} PlanListsFrom(logs: Logs, plan: seq<Planned>, run: Run, today: int)
    requires forall e :: e in Flat(plan) ==> e.kind != BATCH_REMINDER
    ensures ListsFrom(logs, LogPlan(logs, plan, run, today), plan, run, today)
  {
    if plan != [] {
      var n := |plan| - 1;
      assert Flat(plan) == Flat(plan[..n]) + EntriesOf(plan[n]);
      PlanListsFrom(logs, plan[..n], run, today);
      var before, after := LogPlan(logs, plan[..n], run, today), LogPlan(logs, plan, run, today);
      PlannedLists(before, plan[n], run, today);
      forall k | k in after && k !in logs && k.kind == BATCH_REMINDER
        ensures ListKey(k, run.shortTemplate, today)
        ensures exists i :: 0 <= i < |plan| && plan[i].Batch? && plan[i].recruiter == k.recipientId
      {
        if k in before {
          var i :| 0 <= i < n && plan[..n][i].Batch? && plan[..n][i].recruiter == k.recipientId;
          assert plan[i].Batch? && plan[i].recruiter == k.recipientId;
        } else {
          var i :| 0 <= i < 1 && [plan[n]][i].Batch? && [plan[n]][i].recruiter == k.recipientId;
          assert plan[n].Batch? && plan[n].recruiter == k.recipientId;
        }
      }
    }
  }

  lemma SentListMeans(existing: Logs, due: seq<Entry>, run: Run, today: int, k: Key)
    requires Proper(due) && k !in existing && k.kind == BATCH_REMINDER
    requires k in LogPlan(existing, Plan(Unhandled(existing, due, today), run.threshold, run.combine), run, today)
    ensures run.combine && ListKey(k, run.shortTemplate, today)
  {
    var unhandled := Unhandled(existing, due, today);
    var plan := Plan(unhandled, run.threshold, run.combine);
    UnhandledAre(existing, due, today);
    PlanConservesEntries(unhandled, run.threshold, run.combine);
    PermutedJobsDiffer(unhandled, Flat(plan));
    PlanListsFrom(existing, plan, run, today);
    var i :| 0 <= i < |plan| && plan[i].Batch? && plan[i].recruiter == k.recipientId;
    ListsExactlyAboveThreshold(unhandled, run.threshold, run.combine, k.recipientId);
    assert plan[i] in plan;
  }

  /** A list is logged only with lists on and to somebody, never without its first part, and a
      short template's in no other. */
  lemma NewListMeans(logs: Logs, checks: Checks, day: Day, run: Run, k: Key)
    requires DistinctJobs(run.items) && PartsStartAtOne(logs, day.today)
    requires k in LogsAfter(logs, checks, day, run) && k !in logs && k.kind == BATCH_REMINDER
    ensures run.canSend && run.combine && ListKey(k, run.shortTemplate, day.today)
    ensures Key("batch_reminder", 0, 0, k.recipientId, day.today) in LogsAfter(logs, checks, day, run)
  {
    var skipped, due := RunEntries(checks, day, run, false), RunEntries(checks, day, run, true);
    SkippedAndDueDiffer(checks, day, run);
    SkipsAdd(logs, skipped, day.today);
    SentListMeans(LogEach(logs, Assigned(skipped), day.today), due, run, day.today, k);
    RunAddsExactly(logs, checks, day, run);
    assert k == BatchKey(k.recipientId, day.today, if k.ruleId == 0 then 1 else k.ruleId);
  }

  // ----- the kind of a message -----

  /** Messages are added, each of the kind its key names. */
  ghost predicate KindsAgree(before: Logs, after: Logs) {
    Kept(before, after) && forall k :: k in after && k !in before ==> after[k].kind == k.kind
  }

  lemma {:induction false} EachKindAgrees(logs: Logs, entries: seq<Entry>, today: int)
    ensures KindsAgree(logs, LogEach(logs, entries, today))
  {
    if entries != [] {
      EachKindAgrees(logs, entries[..|entries| - 1], today);
    }
  }

  lemma {:induction false} PartKindsAgree(logs: Logs, r: nat, parts: seq<seq<Entry>>, today: int)
    ensures KindsAgree(logs, LogParts(logs, r, parts, today))
  {
    if parts != [] {
      PartKindsAgree(logs, r, parts[..|parts| - 1], today);
    }
  }

  lemma {:induction false} PlanKindsAgree(logs: Logs, plan: seq<Planned>, run: Run, today: int)
    ensures KindsAgree(logs, LogPlan(logs, plan, run, today))
  {
    if plan != [] {
      var p := plan[|plan| - 1];
      PlanKindsAgree(logs, plan[..|plan| - 1], run, today);
      var before := LogPlan(logs, plan[..|plan| - 1], run, today);
      if p.Batch? && p.recruiter != 0 {
        PartKindsAgree(before, p.recruiter, MessageParts(p.entries, run.split, run.shortTemplate), today);
      } else {
        EachKindAgrees(before, EntriesOf(p), today);
      }
      assert LogPlan(logs, plan, run, today) == LogPlanned(before, p, run, today);
    }
  }

  /** A run logs each message with the kind its key names. */
  lemma NewMessageIsOfItsKind(logs: Logs, checks: Checks, day: Day, run: Run, k: Key)
    requires k in LogsAfter(logs, checks, day, run) && k !in logs
    ensures LogsAfter(logs, checks, day, run)[k].kind == k.kind
  {
    SentKindsAgree(logs, RunEntries(checks, day, run, false), RunEntries(checks, day, run, true), run, day.today);
  }

  lemma SentKindsAgree(logs: Logs, skipped: seq<Entry>, due: seq<Entry>, run: Run, today: int)
    ensures var existing := LogEach(logs, Assigned(skipped), today);
            var unhandled := Unhandled(existing, due, today);
            KindsAgree(logs, LogPlan(existing, Plan(unhandled, run.threshold, run.combine), run, today))
  {
    EachKindAgrees(logs, Assigned(skipped), today);
    var existing := LogEach(logs, Assigned(skipped), today);
    PlanKindsAgree(existing, Plan(Unhandled(existing, due, today), run.threshold, run.combine), run, today);
  }

  // ----- who is messaged -----

  /** What the run knows of an item that it messages, or logs as skipped. */
  ghost predicate Reminded(checks: Checks, day: Day, run: Run, item: Item, r: RuleSpec) {
    && run.canSend && DueNow(day, run.minute, item, r)
    && (if item.clawback.coolingDays > 0 then !CheckCancelled(checks, item.job, day.today) else item.recruiter != 0)
  }

  /** Whoever a run newly covers has an item in it whose rule is due and whose send time has come,
      and the message is that candidate's own or part of a list to that recruiter. */
  lemma NewlyCoveredIsDue(logs: Logs, checks: Checks, day: Day, run: Run, k: Key, job: nat)
    returns (item: Item, r: RuleSpec)
    requires DistinctJobs(run.items) && PartsStartAtOne(logs, day.today)
    requires k !in logs && Covers(LogsAfter(logs, checks, day, run), k, job, day.today)
    ensures item in run.items && item.job == job && Reminded(checks, day, run, item, r)
    ensures k == OwnKey(day, item, r)
            || (run.combine && item.clawback.coolingDays > 0 && k.kind == BATCH_REMINDER
                && k.recipientId == item.recruiter && item.recruiter != 0)
  {
    var after := LogsAfter(logs, checks, day, run);
    RunAddsExactly(logs, checks, day, run);
    assert New(logs, after, k, job, day.today);
    var e :| e in Messaged(logs, checks, day, run) && e.job == job && MessageOf(after, k, e, day.today);
    item := ItemOfEntry(checks, day, run, e);
    r := e.rule;
    EntryIsDue(day, run.minute, item);
    ChecksStayCancelledAt(checks, day, run, item.job);
    if k != OwnKey(day, item, r) {
      NewListMeans(logs, checks, day, run, k);
    }
  }

  lemma ChecksStayCancelledAt(checks: Checks, day: Day, run: Run, job: nat)
    ensures IsCancelled(ChecksAfter(checks, day, run.minute, run.items), job, day.today) <==>
            CheckCancelled(checks, job, day.today)
  {
    ChecksExactly(checks, day, run.minute, run.items, job, day.today);
  }

  lemma ItemOfEntry(checks: Checks, day: Day, run: Run, e: Entry) returns (item: Item)
    requires e in RunEntries(checks, day, run, false) || e in RunEntries(checks, day, run, true)
    ensures item in run.items && item.job == e.job && EntryAt(day, run.minute, item) == Some(e)
    ensures e.cooling ==> !IsCancelled(ChecksAfter(checks, day, run.minute, run.items), item.job, day.today)
  {
    var made := ChecksAfter(checks, day, run.minute, run.items);
    EntriesComeFrom(made, day, run.minute, run.items, false);
    EntriesComeFrom(made, day, run.minute, run.items, true);
    var i :| 0 <= i < |run.items| && run.items[i].job == e.job && EntryAt(day, run.minute, run.items[i]) == Some(e);
    item := run.items[i];
    if e.cooling {
      EntriesNotCancelled(made, day, run.minute, run.items);
    }
  }

  lemma {:induction false} EntriesNotCancelled(checks: Checks, day: Day, minute: nat, items: seq<Item>)
    ensures forall e :: e in Entries(checks, day, minute, items, true) ==> !IsCancelled(checks, e.job, day.today)
  {
    if items != [] {
      EntriesNotCancelled(checks, day, minute, items[..|items| - 1]);
    }
  }

  lemma {:induction false} ItemMakesEntry(checks: Checks, day: Day, minute: nat, items: seq<Item>, item: Item, e: Entry)
    requires item in items && EntryAt(day, minute, item) == Some(e)
    requires e.cooling ==> !IsCancelled(checks, item.job, day.today)
    ensures e in Entries(checks, day, minute, items, e.cooling)
  {
    var n := |items| - 1;
    assert items == items[..n] + [items[n]];
    if item != items[n] {
      ItemMakesEntry(checks, day, minute, items[..n], item, e);
    }
  }

  /** And every item of a run that may send, whose rule is due and whose send time has come, is
      covered afterwards by a new message, unless its own message or its recruiter's list was
      logged. With lists off, and for a candidate without a cooling period, that message is the
      candidate's own. */
  lemma DueIsCovered(logs: Logs, checks: Checks, day: Day, run: Run, item: Item, r: RuleSpec) returns (k: Key)
    requires DistinctJobs(run.items) && PartsStartAtOne(logs, day.today)
    requires item in run.items && Reminded(checks, day, run, item, r)
    requires OwnKey(day, item, r) !in logs
    requires item.clawback.coolingDays > 0 ==> Key("batch_reminder", 0, 0, item.recruiter, day.today) !in logs
    ensures k !in logs && Covers(LogsAfter(logs, checks, day, run), k, item.job, day.today)
    ensures !run.combine || item.clawback.coolingDays == 0 ==> k == OwnKey(day, item, r)
  {
    var after := LogsAfter(logs, checks, day, run);
    EntryIsDue(day, run.minute, item);
    var e := EntryAt(day, run.minute, item).value;
    ChecksStayCancelledAt(checks, day, run, item.job);
    ItemMakesEntry(ChecksAfter(checks, day, run.minute, run.items), day, run.minute, run.items, item, e);
    RunAddsExactly(logs, checks, day, run);
    var all := RunEntries(checks, day, run, false) + RunEntries(checks, day, run, true);
    assert e in all && Passes(logs, e, day.today);
    assert e in Messaged(logs, checks, day, run);
    k :| New(logs, after, k, e.job, day.today);
    var other, rule := NewlyCoveredIsDue(logs, checks, day, run, k, item.job);
    SameItem(run.items, item, other);
  }

  lemma SameItem(items: seq<Item>, a: Item, b: Item)
    requires DistinctJobs(items) && a in items && b in items && a.job == b.job
    ensures a == b
  {
  }
}
