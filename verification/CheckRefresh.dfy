/**
 What a change of a candidate's clawback does to the health checks already created, and through
 them to the reminders still to come on the same day.
 */
module CheckRefresh {
  import opened Options
  import opened ClawbackRules
  import opened IdempotencyKey
  import opened ReminderRun
  import opened ReminderOnce
  import opened ReminderDue

  /** `Ended` covers completed, rejected and dropped; `Moved` covers joined and joined_updated. */
  datatype Change = Ended | Moved | OtherChange

  /** The refresh's question about a pending check: does the schedule name its own due date, with
      a rule that creates checks? `item` is None when the job service cannot be asked. */
  predicate Keeps(rules: seq<RuleSpec>, item: Option<Clawback>, due: int) {
    item.Some? &&
    var rule := MatchOn(rules, item.value, due);
    rule.Some? && rule.value.createsHealthCheck
  }

  predicate Cancels(change: Change, rules: seq<RuleSpec>, item: Option<Clawback>, today: int, due: int) {
    match change
    case Ended => true
    case Moved => due >= today && !Keeps(rules, item, due)
    case OtherChange => false
  }

  /** A pending check of the job that the change cancels. */
  predicate Hit(checks: Checks, k: (nat, int), job: nat, change: Change, rules: seq<RuleSpec>, item: Option<Clawback>,
                today: int)
  {
    k in checks && k.0 == job && checks[k] == Pending && Cancels(change, rules, item, today, k.1)
  }

  function Changed(checks: Checks, job: nat, change: Change, rules: seq<RuleSpec>, item: Option<Clawback>, today: int):
    Checks
  {
    map k | k in checks :: if Hit(checks, k, job, change, rules, item, today) then Cancelled else checks[k]
  }

  /** What a change does, check by check: an ended clawback loses every pending check; a moved one
      those of today or later on whose due date its schedule names no rule that creates checks,
      all of them when its dates cannot be read; any other change none. Nothing else changes. */
  lemma ChangeMeans(checks: Checks, job: nat, change: Change, rules: seq<RuleSpec>, item: Option<Clawback>, today: int,
                    k: (nat, int))
    requires k in checks
    ensures var after := Changed(checks, job, change, rules, item, today);
            && after.Keys == checks.Keys
            && (k.0 != job || checks[k] != Pending ==> after[k] == checks[k])
            && (k.0 == job && checks[k] == Pending ==>
                  after[k] == match change
                    case Ended => Cancelled
                    case OtherChange => Pending
                    case Moved =>
                      if k.1 < today then Pending
                      else if item.None? then Cancelled
                      else
                        var rule := MatchOn(rules, item.value, k.1);
                        if rule.Some? && rule.value.createsHealthCheck then Pending else Cancelled)
  {
  }

  /** The checks once the cancellations `hits` are made. */
  ghost predicate CancelledSoFar(before: Checks, now: Checks, hits: set<(nat, int)>) {
    && now.Keys == before.Keys
    && forall k :: k in before ==> now[k] == if k in hits then Cancelled else before[k]
  }

  lemma CancelOne(before: Checks, now: Checks, hits: set<(nat, int)>, k: (nat, int))
    requires CancelledSoFar(before, now, hits) && k in before
    ensures CancelledSoFar(before, now[k := Cancelled], hits + {k})
  {
  }

  lemma AllCancelled(before: Checks, now: Checks, hits: set<(nat, int)>, job: nat, change: Change, rules: seq<RuleSpec>,
                     item: Option<Clawback>, today: int)
    requires CancelledSoFar(before, now, hits)
    requires forall k :: k in before ==> (k in hits <==> Hit(before, k, job, change, rules, item, today))
    ensures now == Changed(before, job, change, rules, item, today)
  {
  }

  /** Goes over the job's pending checks in no particular order; returns how many it cancelled. */
  method HandleStateChanged(store: ReminderStore, job: nat, change: Change, rules: seq<RuleSpec>,
                            item: Option<Clawback>, today: int) returns (cancelled: nat)
    modifies store`checks
    ensures store.checks == Changed(old(store.checks), job, change, rules, item, today)
    ensures cancelled == |set k | k in old(store.checks) && Hit(old(store.checks), k, job, change, rules, item, today)|
  {
    var before := store.checks;
    var pending := set k | k in before && k.0 == job && before[k] == Pending;
    var rest, hits := pending, {};
    while rest != {}
      invariant rest <= pending && hits <= pending - rest
      invariant forall k :: k in pending - rest ==> (k in hits <==> Cancels(change, rules, item, today, k.1))
      invariant CancelledSoFar(before, store.checks, hits)
      decreases rest
    {
      var k :| k in rest;
      rest := rest - {k};
      if Cancels(change, rules, item, today, k.1) {
        CancelOne(before, store.checks, hits, k);
        hits := hits + {k};
        store.checks := store.checks[k := Cancelled];
      }
    }
    AllCancelled(before, store.checks, hits, job, change, rules, item, today);
    assert hits == set k | k in before && Hit(before, k, job, change, rules, item, today);
    cancelled := |hits|;
  }

  // ----- who is still reminded today -----

  lemma {:induction false} ChecksStayCancelled(checks: Checks, day: Day, minute: nat, items: seq<Item>, job: nat)
    ensures IsCancelled(ChecksAfter(checks, day, minute, items), job, day.today) <==>
            IsCancelled(checks, job, day.today)
  {
    if items != [] {
      ChecksStayCancelled(checks, day, minute, items[..|items| - 1], job);
    }
  }

  predicate MakesEntry(checks: Checks, day: Day, minute: nat, item: Item) {
    var e := EntryAt(day, minute, item);
    e.Some? && e.value.cooling && !IsCancelled(checks, item.job, day.today)
  }

  lemma {:induction false} EntriesAre(checks: Checks, day: Day, minute: nat, items: seq<Item>, item: Item)
    requires item in items && DistinctJobs(items)
    ensures (exists e :: e in Entries(checks, day, minute, items, true) && e.job == item.job) <==>
            MakesEntry(checks, day, minute, item)
  {
    var n := |items| - 1;
    var head := Entries(checks, day, minute, items[..n], true);
    assert items == items[..n] + [items[n]];
    if item == items[n] {
      NoEntryOfOthers(checks, day, minute, items[..n], item.job);
    } else {
      EntriesAre(checks, day, minute, items[..n], item);
      OtherJob(items, item);
    }
  }

  lemma OtherJob(items: seq<Item>, item: Item)
    requires item in items && DistinctJobs(items) && item != items[|items| - 1]
    ensures item in items[..|items| - 1] && items[|items| - 1].job != item.job
  {
    var i :| 0 <= i < |items| && items[i] == item;
    assert items[..|items| - 1][i] == item;
  }

  lemma {:induction false} NoEntryOfOthers(checks: Checks, day: Day, minute: nat, items: seq<Item>, job: nat)
    requires forall i :: 0 <= i < |items| ==> items[i].job != job
    ensures forall e :: e in Entries(checks, day, minute, items, true) ==> e.job != job
  {
    if items != [] {
      NoEntryOfOthers(checks, day, minute, items[..|items| - 1], job);
    }
  }

  /** Today's check outlives a refresh: it is not cancelled and, if pending, the schedule names
      today itself by a rule that creates checks. */
  predicate SurvivesRefresh(checks: Checks, day: Day, item: Item) {
    var rule := MatchOn(day.rules, item.clawback, day.today);
    && !CheckCancelled(checks, item.job, day.today)
    && ((item.job, day.today) in checks && checks[(item.job, day.today)] == Pending ==>
          rule.Some? && rule.value.createsHealthCheck)
  }

  /** After a refresh a candidate is still among the entries of a pass, whatever is logged already,
      if and only if it has a cooling period, its rule is due and its send time has come, and
      today's check outlives the refresh. A match carried over from a non-working day does not
      let it: its check is cancelled, and the pass that finds the cancelled check creates no
      other. */
  lemma StillEntryExactly(checks: Checks, day: Day, minute: nat, items: seq<Item>, item: Item)
    requires item in items && DistinctJobs(items)
    ensures var refreshed := Changed(checks, item.job, Moved, day.rules, Some(item.clawback), day.today);
            (exists x :: x in Entries(ChecksAfter(refreshed, day, minute, items), day, minute, items, true)
                         && x.job == item.job) <==>
            && (exists r :: DueNow(day, minute, item, r)) && item.clawback.coolingDays > 0
            && SurvivesRefresh(checks, day, item)
  {
    var refreshed := Changed(checks, item.job, Moved, day.rules, Some(item.clawback), day.today);
    EntriesAre(ChecksAfter(refreshed, day, minute, items), day, minute, items, item);
    ChecksStayCancelled(refreshed, day, minute, items, item.job);
    EntryIsDue(day, minute, item);
  }

  /** So a candidate whose rule was carried to today drops out of the day's reminders when the
      dates are refreshed while today's check is pending. */
  lemma CarriedCheckIsDropped(checks: Checks, day: Day, minute: nat, items: seq<Item>, item: Item, r: RuleSpec)
    requires item in items && DistinctJobs(items) && item.clawback.coolingDays > 0
    requires DueNow(day, minute, item, r) && MatchOn(day.rules, item.clawback, day.today).None?
    requires (item.job, day.today) in checks && checks[(item.job, day.today)] == Pending
    ensures exists x ::
              x in Entries(ChecksAfter(checks, day, minute, items), day, minute, items, true) && x.job == item.job
    ensures var refreshed := Changed(checks, item.job, Moved, day.rules, Some(item.clawback), day.today);
            forall x :: x in Entries(ChecksAfter(refreshed, day, minute, items), day, minute, items, true) ==>
              x.job != item.job
  {
    EntriesAre(ChecksAfter(checks, day, minute, items), day, minute, items, item);
    ChecksStayCancelled(checks, day, minute, items, item.job);
    EntryIsDue(day, minute, item);
    StillEntryExactly(checks, day, minute, items, item);
  }

  /** And a pass logs a message for a due candidate then if and only if, besides, it may send and
      neither the entry's own message nor its recruiter's list is logged. */
  lemma RefreshedIsMessagedExactly(logs: Logs, checks: Checks, day: Day, run: Run, item: Item, r: RuleSpec)
    requires item in run.items && DistinctJobs(run.items)
    requires DueNow(day, run.minute, item, r) && item.clawback.coolingDays > 0
    ensures var refreshed := Changed(checks, item.job, Moved, day.rules, Some(item.clawback), day.today);
            item.job in Jobs(Messaged(logs, refreshed, day, run)) <==>
            && run.canSend && OwnKey(day, item, r) !in logs && BatchKey(item.recruiter, day.today, 1) !in logs
            && SurvivesRefresh(checks, day, item)
  {
    var refreshed := Changed(checks, item.job, Moved, day.rules, Some(item.clawback), day.today);
    EntryIsDue(day, run.minute, item);
    var e := EntryAt(day, run.minute, item).value;
    StillEntryExactly(checks, day, run.minute, run.items, item);
    OnlyEntryOfJob(logs, refreshed, day, run, item, e);
    if run.canSend && e in RunEntries(refreshed, day, run, true) {
      DueMessagedExactly(logs, refreshed, day, run, e);
    }
  }

  lemma OnlyEntryOfJob(logs: Logs, checks: Checks, day: Day, run: Run, item: Item, e: Entry)
    requires item in run.items && DistinctJobs(run.items)
    requires EntryAt(day, run.minute, item) == Some(e) && e.cooling
    ensures e.job == item.job
    ensures (exists x :: x in RunEntries(checks, day, run, true) && x.job == item.job) <==>
            e in RunEntries(checks, day, run, true)
    ensures item.job in Jobs(Messaged(logs, checks, day, run)) ==>
              run.canSend && e in RunEntries(checks, day, run, true)
  {
    var made := ChecksAfter(checks, day, run.minute, run.items);
    var i :| 0 <= i < |run.items| && run.items[i] == item;
    assert From(day, run.minute, run.items, e);
    EntriesComeFrom(made, day, run.minute, run.items, false);
    EntriesComeFrom(made, day, run.minute, run.items, true);
    forall x | From(day, run.minute, run.items, x) && x.job == e.job ensures x == e {
      SameJobSameEntry(day, run.minute, run.items, x, e);
    }
    if item.job in Jobs(Messaged(logs, checks, day, run)) {
      var x := MemberOfJob(Messaged(logs, checks, day, run), item.job);
      assert x in RunEntries(checks, day, run, false) || x in RunEntries(checks, day, run, true);
    }
  }
}
