/**
 One org's recruiter-reminder pass, re-run every 15 minutes through the day: due candidates
 become health checks and logged messages, deduplicated by idempotency key.
 */
module ReminderRun {
  import opened Options
  import opened ClawbackRules
  import opened IdempotencyKey

  // ----- what is due -----

  /** `recruiter` is 0 when nobody is responsible. */
  datatype Item = Item(job: nat, clawback: Clawback, recruiter: nat)

  datatype Day = Day(rules: seq<RuleSpec>, today: int, workingDays: seq<int>)

  datatype Entry = Entry(job: nat, kind: string, rule: RuleSpec, recruiter: nat, cooling: bool)

  const REMINDER := "reminder"
  const FINAL_VALIDATION := "final_validation"
  const BATCH_REMINDER := "batch_reminder"

  /** The entry an item makes on a day, before its send time is looked at. */
  function EntryOf(day: Day, item: Item): Option<Entry> {
    var ad := AnchorAndDay(item.clawback, day.today);
    if ad.None? then None
    else
      var due := DueRule(day.rules, item.clawback, day.today, day.workingDays);
      if due.None? then None
      else
        var cooling := item.clawback.coolingDays > 0;
        Some(Entry(item.job, if cooling && ad.value.0 == CoolingEnd then FINAL_VALIDATION else REMINDER,
                   due.value, item.recruiter, cooling))
  }

  function KeyOf(e: Entry, today: int): Key {
    Key(e.kind, e.rule.id.GetOr(0), e.job, e.recruiter, today)
  }

  datatype CheckStatus = Pending | Done | Missed | Cancelled

  type Checks = map<(nat, int), CheckStatus>

  /** Insert-or-ignore on (candidate job, due date). */
  function Ensured(checks: Checks, job: nat, date: int): Checks {
    if (job, date) in checks then checks else checks[(job, date) := Pending]
  }

  /** The item's entry once its rule's send time has come. */
  function EntryAt(day: Day, minute: nat, item: Item): Option<Entry> {
    match EntryOf(day, item)
    case None => None
    case Some(e) => if e.rule.sendTime <= minute then Some(e) else None
  }

  function WantsCheck(day: Day, minute: nat, item: Item): bool {
    var e := EntryAt(day, minute, item);
    e.Some? && e.value.cooling && e.value.rule.createsHealthCheck
  }

  function ChecksAfter(checks: Checks, day: Day, minute: nat, items: seq<Item>): Checks {
    if items == [] then checks
    else
      var before := ChecksAfter(checks, day, minute, items[..|items| - 1]);
      var item := items[|items| - 1];
      if WantsCheck(day, minute, item) then Ensured(before, item.job, day.today) else before
  }

  predicate IsCancelled(checks: Checks, job: nat, date: int) {
    (job, date) in checks && checks[(job, date)] == Cancelled
  }

  /** The entries to message (`cooling`) or to log as skipped (not). */
  function Entries(checks: Checks, day: Day, minute: nat, items: seq<Item>, cooling: bool): seq<Entry> {
    if items == [] then []
    else
      var item := items[|items| - 1];
      var e := EntryAt(day, minute, item);
      var made := e.Some? && e.value.cooling == cooling && !(cooling && IsCancelled(checks, item.job, day.today));
      Entries(checks, day, minute, items[..|items| - 1], cooling) + if made then [e.value] else []
  }

  // ----- grouping -----

  datatype Planned = Batch(recruiter: nat, entries: seq<Entry>) | Single(entry: Entry)

  function Recruiters(entries: seq<Entry>): seq<nat> {
    if entries == [] then []
    else
      var before := Recruiters(entries[..|entries| - 1]);
      var r := entries[|entries| - 1].recruiter;
      if r in before then before else before + [r]
  }

  function Of(entries: seq<Entry>, recruiter: nat): seq<Entry> {
    if entries == [] then []
    else Of(entries[..|entries| - 1], recruiter)
         + if entries[|entries| - 1].recruiter == recruiter then [entries[|entries| - 1]] else []
  }

  function Singles(entries: seq<Entry>): seq<Planned> {
    seq(|entries|, i requires 0 <= i < |entries| => Single(entries[i]))
  }

  function PlanFor(recruiter: nat, es: seq<Entry>, limit: nat, combine: bool): seq<Planned> {
    if combine && |es| > limit then [Batch(recruiter, es)] else Singles(es)
  }

  function PlanOver(recruiters: seq<nat>, entries: seq<Entry>, limit: nat, combine: bool): seq<Planned> {
    if recruiters == [] then []
    else PlanOver(recruiters[..|recruiters| - 1], entries, limit, combine)
         + PlanFor(recruiters[|recruiters| - 1], Of(entries, recruiters[|recruiters| - 1]), limit, combine)
  }

  function Plan(entries: seq<Entry>, threshold: int, combine: bool): seq<Planned> {
    PlanOver(Recruiters(entries), entries, if threshold < 0 then 0 else threshold, combine)
  }

  function EntriesOf(p: Planned): seq<Entry> {
    if p.Batch? then p.entries else [p.entry]
  }

  type Groups = map<nat, seq<Entry>>

  function Group(groups: Groups, r: nat): seq<Entry> {
    if r in groups then groups[r] else []
  }

  ghost predicate GroupsAre(groups: Groups, order: seq<nat>, entries: seq<Entry>) {
    && order == Recruiters(entries)
    && (forall r :: r in order <==> r in groups)
    && (forall r :: Group(groups, r) == Of(entries, r))
  }

  lemma GroupStep(groups: Groups, order: seq<nat>, entries: seq<Entry>, i: nat)
    requires i < |entries| && GroupsAre(groups, order, entries[..i])
    ensures var r := entries[i].recruiter;
      var next := if r in groups then order else order + [r];
      GroupsAre(groups[r := Group(groups, r) + [entries[i]]], next, entries[..i + 1])
  {
    var next, r := entries[..i + 1], entries[i].recruiter;
    assert next[..|next| - 1] == entries[..i] && next[|next| - 1] == entries[i];
    var more := groups[r := Group(groups, r) + [entries[i]]];
    forall x ensures Group(more, x) == Of(next, x) {
      assert Group(groups, x) == Of(entries[..i], x);
      assert x != r ==> Group(more, x) == Group(groups, x) + [];
    }
  }

  method GroupByRecruiter(entries: seq<Entry>) returns (order: seq<nat>, groups: Groups)
    ensures GroupsAre(groups, order, entries)
  {
    order, groups := [], map[];
    for i := 0 to |entries|
      invariant GroupsAre(groups, order, entries[..i])
    {
      GroupStep(groups, order, entries, i);
      var r := entries[i].recruiter;
      if r !in groups {
        order := order + [r];
      }
      groups := groups[r := Group(groups, r) + [entries[i]]];
    }
    assert entries[..|entries|] == entries;
  }

  lemma PlanStep(entries: seq<Entry>, order: seq<nat>, i: nat, limit: nat, combine: bool)
    requires i < |order|
    ensures PlanOver(order[..i + 1], entries, limit, combine) ==
            PlanOver(order[..i], entries, limit, combine) + PlanFor(order[i], Of(entries, order[i]), limit, combine)
  {
    assert order[..i + 1][..i] == order[..i];
  }

  method PlanRecruiterMessages(entries: seq<Entry>, threshold: int, combine: bool) returns (out: seq<Planned>)
    ensures out == Plan(entries, threshold, combine)
  {
    var order, groups := GroupByRecruiter(entries);
    var limit: nat := if threshold < 0 then 0 else threshold;
    out := [];
    for i := 0 to |order|
      invariant out == PlanOver(order[..i], entries, limit, combine)
    {
      PlanStep(entries, order, i, limit, combine);
      var es := Group(groups, order[i]);
      if combine && |es| > limit {
        out := out + [Batch(order[i], es)];
      } else {
        out := out + Singles(es);
      }
    }
    assert order[..|order|] == order;
  }

  // ----- splitting a list into parts -----

  function Sum(sizes: seq<nat>): nat {
    if sizes == [] then 0 else Sum(sizes[..|sizes| - 1]) + sizes[|sizes| - 1]
  }

  /** How many entries go into each part; every entry goes into one. */
  type Splitter = f: seq<Entry> -> seq<nat> | forall es :: Sum(f(es)) == |es| witness (es: seq<Entry>) => [|es|]

  /** Consecutive chunks of the given sizes. */
  function Chunks(entries: seq<Entry>, sizes: seq<nat>): (parts: seq<seq<Entry>>)
    requires Sum(sizes) == |entries|
    decreases |sizes|
  {
    if sizes == [] then []
    else
      var cut := |entries| - sizes[|sizes| - 1];
      Chunks(entries[..cut], sizes[..|sizes| - 1]) + [entries[cut..]]
  }

  /** A short template goes out once for everybody; a list template once per part. */
  function MessageParts(entries: seq<Entry>, split: Splitter, shortTemplate: bool): seq<seq<Entry>> {
    var parts := Chunks(entries, split(entries));
    if shortTemplate && parts != [] then [entries] else parts
  }

  // ----- the log table -----

  datatype Log = Log(kind: string, covers: seq<nat>)

  type Logs = map<Key, Log>

  /** Insert-or-ignore on the idempotency key. */
  function Created(logs: Logs, key: Key, log: Log): Logs {
    if key in logs then logs else logs[key := log]
  }

  function Jobs(entries: seq<Entry>): seq<nat> {
    seq(|entries|, i requires 0 <= i < |entries| => entries[i].job)
  }

  function OwnLog(e: Entry): Log { Log(e.kind, [e.job]) }

  function LogEach(logs: Logs, entries: seq<Entry>, today: int): Logs {
    if entries == [] then logs
    else
      var e := entries[|entries| - 1];
      Created(LogEach(logs, entries[..|entries| - 1], today), KeyOf(e, today), OwnLog(e))
  }

  function LogParts(logs: Logs, recruiter: nat, parts: seq<seq<Entry>>, today: int): Logs {
    if parts == [] then logs
    else Created(LogParts(logs, recruiter, parts[..|parts| - 1], today),
                 BatchKey(recruiter, today, |parts|), Log(BATCH_REMINDER, Jobs(parts[|parts| - 1])))
  }

  function LogPlanned(logs: Logs, p: Planned, run: Run, today: int): Logs {
    if p.Batch? && p.recruiter != 0 then
      LogParts(logs, p.recruiter, MessageParts(p.entries, run.split, run.shortTemplate), today)
    else LogEach(logs, EntriesOf(p), today)
  }

  function LogPlan(logs: Logs, plan: seq<Planned>, run: Run, today: int): Logs {
    if plan == [] then logs
    else LogPlanned(LogPlan(logs, plan[..|plan| - 1], run, today), plan[|plan| - 1], run, today)
  }

  predicate Handled(existing: Logs, e: Entry, today: int) {
    KeyOf(e, today) in existing || BatchKey(e.recruiter, today, 1) in existing
  }

  function Unhandled(existing: Logs, entries: seq<Entry>, today: int): seq<Entry> {
    if entries == [] then []
    else Unhandled(existing, entries[..|entries| - 1], today)
         + if Handled(existing, entries[|entries| - 1], today) then [] else [entries[|entries| - 1]]
  }

  /** Entries of somebody. */
  function Assigned(entries: seq<Entry>): seq<Entry> {
    if entries == [] then []
    else
      var e := entries[|entries| - 1];
      Assigned(entries[..|entries| - 1]) + if e.recruiter != 0 then [e] else []
  }

  /** What one run is given besides the day: the items the job service lists, the minute, and
      the settings that may be edited between runs. `canSend` is a working day outside
      quiet hours. */
  datatype Run = Run(items: seq<Item>, minute: nat, canSend: bool, threshold: int, combine: bool,
                     split: Splitter, shortTemplate: bool)

  function LogsAfter(logs: Logs, checks: Checks, day: Day, run: Run): Logs {
    if !run.canSend then logs
    else
      var made := ChecksAfter(checks, day, run.minute, run.items);
      var existing := LogEach(logs, Assigned(Entries(made, day, run.minute, run.items, false)), day.today);
      var unhandled := Unhandled(existing, Entries(made, day, run.minute, run.items, true), day.today);
      LogPlan(existing, Plan(unhandled, run.threshold, run.combine), run, day.today)
  }

  /** Each candidate job appears once in the run's items. */
  ghost predicate DistinctJobs(items: seq<Item>) {
    forall i, j :: 0 <= i < j < |items| ==> items[i].job != items[j].job
  }

  class ReminderStore {
    var logs: Logs
    var checks: Checks

    method CreateLog(key: Key, log: Log) returns (created: bool)
      modifies this`logs
      ensures created <==> key !in old(logs)
      ensures logs == Created(old(logs), key, log)
    {
      created := key !in logs;
      if created {
        logs := logs[key := log];
      }
    }

    method EnsureHealthCheck(job: nat, due: int)
      modifies this`checks
      ensures checks == Ensured(old(checks), job, due)
    {
      if (job, due) !in checks {
        checks := checks[(job, due) := Pending];
      }
    }

    /** The first loop of a run: health checks, and who is to be messaged or skipped. */
    method CollectEntries(day: Day, run: Run) returns (entries: seq<Entry>, noCooling: seq<Entry>)
      requires DistinctJobs(run.items)
      modifies this`checks
      ensures checks == ChecksAfter(old(checks), day, run.minute, run.items)
      ensures entries == Entries(checks, day, run.minute, run.items, true)
      ensures noCooling == Entries(checks, day, run.minute, run.items, false)
    {
      var items := run.items;
      entries, noCooling := [], [];
      for i := 0 to |items|
        invariant CollectedFrom(old(checks), day, run.minute, items[..i], checks, entries, noCooling)
      {
        CollectStep(old(checks), day, run.minute, items, i, checks, entries, noCooling);
        var item := items[i];
        var e := EntryAt(day, run.minute, item);
        if e.Some? && e.value.cooling && e.value.rule.createsHealthCheck {
          EnsureHealthCheck(item.job, day.today);
        }
        if e.Some? && !e.value.cooling {
          noCooling := noCooling + [e.value];
        } else if e.Some? && !IsCancelled(checks, item.job, day.today) {
          entries := entries + [e.value];
        }
      }
      assert items[..|items|] == items;
    }

    method LogAll(entries: seq<Entry>, today: int)
      modifies this`logs
      ensures logs == LogEach(old(logs), entries, today)
    {
      for i := 0 to |entries|
        invariant logs == LogEach(old(logs), entries[..i], today)
      {
        assert entries[..i + 1][..i] == entries[..i];
        var _ := CreateLog(KeyOf(entries[i], today), OwnLog(entries[i]));
      }
      assert entries[..|entries|] == entries;
    }

    method LogPlannedMessage(p: Planned, run: Run, today: int)
      modifies this`logs
      ensures logs == LogPlanned(old(logs), p, run, today)
    {
      if p.Single? || p.recruiter == 0 {
        LogAll(EntriesOf(p), today);
        return;
      }
      var parts := MessageParts(p.entries, run.split, run.shortTemplate);
      for n := 0 to |parts|
        invariant logs == LogParts(old(logs), p.recruiter, parts[..n], today)
      {
        assert parts[..n + 1][..n] == parts[..n];
        var _ := CreateLog(BatchKey(p.recruiter, today, n + 1), Log(BATCH_REMINDER, Jobs(parts[n])));
      }
      assert parts[..|parts|] == parts;
    }

    method LogPlanMessages(plan: seq<Planned>, run: Run, today: int)
      modifies this`logs
      ensures logs == LogPlan(old(logs), plan, run, today)
    {
      for i := 0 to |plan|
        invariant logs == LogPlan(old(logs), plan[..i], run, today)
      {
        assert plan[..i + 1][..i] == plan[..i];
        LogPlannedMessage(plan[i], run, today);
      }
      assert plan[..|plan|] == plan;
    }

    method EvaluateOrgReminders(day: Day, run: Run)
      requires DistinctJobs(run.items)
      modifies this
      ensures checks == ChecksAfter(old(checks), day, run.minute, run.items)
      ensures logs == LogsAfter(old(logs), old(checks), day, run)
    {
      var entries, noCooling := CollectEntries(day, run);
      if run.canSend {
        LogAll(Assigned(noCooling), day.today);
        var plan := PlanRecruiterMessages(Unhandled(logs, entries, day.today), run.threshold, run.combine);
        LogPlanMessages(plan, run, day.today);
      }
    }
  }

  /** What the first loop of a run has done with the items seen so far. */
  ghost predicate CollectedFrom(start: Checks, day: Day, minute: nat, items: seq<Item>,
                                checks: Checks, entries: seq<Entry>, noCooling: seq<Entry>)
  {
    && checks == ChecksAfter(start, day, minute, items)
    && entries == Entries(checks, day, minute, items, true)
    && noCooling == Entries(checks, day, minute, items, false)
  }

  /** The next item's check and entry. Its check concerns no earlier item. */
  lemma CollectStep(start: Checks, day: Day, minute: nat, items: seq<Item>, i: nat,
                    checks: Checks, entries: seq<Entry>, noCooling: seq<Entry>)
    requires i < |items| && DistinctJobs(items)
    requires CollectedFrom(start, day, minute, items[..i], checks, entries, noCooling)
    ensures var e := EntryAt(day, minute, items[i]);
      var made := if WantsCheck(day, minute, items[i]) then Ensured(checks, items[i].job, day.today) else checks;
      var due := e.Some? && e.value.cooling && !IsCancelled(made, items[i].job, day.today);
      CollectedFrom(start, day, minute, items[..i + 1], made, if due then entries + [e.value] else entries,
                    if e.Some? && !e.value.cooling then noCooling + [e.value] else noCooling)
  {
    var item := items[i];
    var made := if WantsCheck(day, minute, item) then Ensured(checks, item.job, day.today) else checks;
    OtherJobsUnaffected(checks, made, day, minute, items[..i], item.job, true);
    OtherJobsUnaffected(checks, made, day, minute, items[..i], item.job, false);
    assert items[..i + 1][..i] == items[..i];
    assert entries + [] == entries && noCooling + [] == noCooling;
  }

  lemma {:induction false} OtherJobsUnaffected(before: Checks, after: Checks, day: Day, minute: nat, items: seq<Item>,
                                               job: nat, cooling: bool)
    requires forall k :: k !in {(job, day.today)} ==>
               (k in before <==> k in after) && (k in before ==> before[k] == after[k])
    requires forall i :: 0 <= i < |items| ==> items[i].job != job
    ensures Entries(before, day, minute, items, cooling) == Entries(after, day, minute, items, cooling)
  {
    if items != [] {
      OtherJobsUnaffected(before, after, day, minute, items[..|items| - 1], job, cooling);
      assert (items[|items| - 1].job, day.today) !in {(job, day.today)};
    }
  }
}
