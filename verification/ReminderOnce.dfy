/**
 How often a candidate is messaged in one day of passes. Rules, items and settings may change
 between two passes: the theorems say exactly when a pass messages a candidate again, and that
 it never does while each candidate's entry stays the same.
 */
module ReminderOnce {
  import opened Options
  import opened ClawbackRules
  import opened IdempotencyKey
  import opened ReminderRun
  import opened ReminderPlan

  // ----- the day's messages -----

  predicate Relevant(k: Key, today: int) {
    k.date == today && k.kind in {REMINDER, FINAL_VALIDATION, BATCH_REMINDER}
  }

  ghost predicate Covers(logs: Logs, k: Key, job: nat, today: int) {
    k in logs && Relevant(k, today) && job in logs[k].covers
  }

  ghost predicate Uncovered(logs: Logs, job: nat, today: int) {
    forall k :: !Covers(logs, k, job, today)
  }

  ghost predicate AtMostOnce(logs: Logs, today: int) {
    forall job, k, l :: Covers(logs, k, job, today) && Covers(logs, l, job, today) ==> k == l
  }

  /** A later part of a list never stands without its part 1. */
  ghost predicate PartsStartAtOne(logs: Logs, today: int) {
    forall r, n :: n >= 1 && BatchKey(r, today, n) in logs ==> BatchKey(r, today, 1) in logs
  }

  /** A candidate's own message covers that candidate. */
  ghost predicate OwnMessagesCover(logs: Logs, today: int) {
    forall k :: k in logs && Relevant(k, today) && k.kind != BATCH_REMINDER ==> logs[k].covers == [k.subjectId]
  }

  // ----- what a change of the log table adds -----

  ghost predicate Kept(before: Logs, after: Logs) {
    forall k :: k in before ==> k in after && after[k] == before[k]
  }

  ghost predicate New(before: Logs, after: Logs, k: Key, job: nat, today: int) {
    k !in before && Covers(after, k, job, today)
  }

  /** `k` is the entry's own message, or part of a list of the entry's recruiter. */
  predicate MessageOf(logs: Logs, k: Key, e: Entry, today: int) {
    || k == KeyOf(e, today)
    || (e.cooling && k.kind == BATCH_REMINDER && k.recipientId == e.recruiter
        && BatchKey(e.recruiter, today, 1) in logs)
  }

  /** `after` is `before` with exactly one more message for each of these entries. */
  ghost predicate Adds(before: Logs, after: Logs, entries: seq<Entry>, today: int) {
    && Kept(before, after)
    && (forall k, job :: New(before, after, k, job, today) ==>
          exists e :: e in entries && e.job == job && MessageOf(after, k, e, today))
    && (forall e :: e in entries ==> exists k :: New(before, after, k, e.job, today))
    && (forall job, k, l :: New(before, after, k, job, today) && New(before, after, l, job, today) ==> k == l)
    && (forall k :: k in after && k !in before && k.kind != BATCH_REMINDER ==>
          k.subjectId in Jobs(entries) && after[k].covers == [k.subjectId])
  }

  /** The lists that are new go to these recruiters. */
  ghost predicate ListsGoTo(before: Logs, after: Logs, recruiters: seq<nat>) {
    forall k :: k in after && k !in before && k.kind == BATCH_REMINDER ==> k.recipientId in recruiters
  }

  lemma JobOfMember(entries: seq<Entry>, e: Entry)
    requires e in entries
    ensures e.job in Jobs(entries)
  {
    var i :| 0 <= i < |entries| && entries[i] == e;
    assert Jobs(entries)[i] == e.job;
  }

  lemma MemberOfJob(entries: seq<Entry>, job: nat) returns (e: Entry)
    requires job in Jobs(entries)
    ensures e in entries && e.job == job
  {
    var i :| 0 <= i < |entries| && Jobs(entries)[i] == job;
    e := entries[i];
  }

  /** What comes first stays new, and what is new afterwards came in one of the two steps. */
  lemma NewInSteps(a: Logs, b: Logs, c: Logs, k: Key, job: nat, today: int)
    requires Kept(a, b) && Kept(b, c)
    ensures Kept(a, c)
    ensures New(a, c, k, job, today) <==> New(a, b, k, job, today) || New(b, c, k, job, today)
  {
  }

  lemma AddsMore(a: Logs, b: Logs, c: Logs, first: seq<Entry>, more: seq<Entry>, today: int)
    requires Adds(a, b, first, today) && Adds(b, c, more, today)
    requires forall e :: e in more ==> e.job !in Jobs(first)
    ensures Adds(a, c, first + more, today)
  {
    var all := first + more;
    JobsConcat(first, more);
    forall k, job | New(a, c, k, job, today)
      ensures exists e :: e in all && e.job == job && MessageOf(c, k, e, today)
    {
      NewInSteps(a, b, c, k, job, today);
      if New(a, b, k, job, today) {
        var e :| e in first && e.job == job && MessageOf(b, k, e, today);
        assert e in all && MessageOf(c, k, e, today);
      } else {
        var e :| e in more && e.job == job && MessageOf(c, k, e, today);
        assert e in all;
      }
    }
    forall e | e in all ensures exists k :: New(a, c, k, e.job, today) {
      if e in first {
        var k :| New(a, b, k, e.job, today);
        NewInSteps(a, b, c, k, e.job, today);
      } else {
        var k :| New(b, c, k, e.job, today);
        NewInSteps(a, b, c, k, e.job, today);
      }
    }
    forall job, k, l | New(a, c, k, job, today) && New(a, c, l, job, today) ensures k == l {
      OneStepOnly(a, b, c, first, more, job, k, l, today);
    }
  }

  lemma OneStepOnly(a: Logs, b: Logs, c: Logs, first: seq<Entry>, more: seq<Entry>, job: nat, k: Key, l: Key,
                    today: int)
    requires Adds(a, b, first, today) && Adds(b, c, more, today)
    requires forall e :: e in more ==> e.job !in Jobs(first)
    requires New(a, c, k, job, today) && New(a, c, l, job, today)
    ensures k == l
  {
    NewInSteps(a, b, c, k, job, today);
    NewInSteps(a, b, c, l, job, today);
    var early := New(a, b, k, job, today) || New(a, b, l, job, today);
    var late := New(b, c, k, job, today) || New(b, c, l, job, today);
    assert early ==> job in Jobs(first) by {
      if early {
        var e :| e in first && e.job == job;
        JobOfMember(first, e);
      }
    }
    assert late ==> job !in Jobs(first);
  }

  lemma AddsSame(before: Logs, after: Logs, entries: seq<Entry>, same: seq<Entry>, today: int)
    requires Adds(before, after, entries, today) && forall e :: e in entries <==> e in same
    ensures Adds(before, after, same, today)
  {
    forall job | job in Jobs(entries) ensures job in Jobs(same) {
      var e := MemberOfJob(entries, job);
      JobOfMember(same, e);
    }
  }

  /** Entries as passes make them. */
  ghost predicate Proper(entries: seq<Entry>) {
    JobsDiffer(entries) && forall e :: e in entries ==> e.kind in {REMINDER, FINAL_VALIDATION}
  }

  lemma ProperConcat(a: seq<Entry>, b: seq<Entry>)
    requires Proper(a + b)
    ensures Proper(a) && Proper(b) && forall e :: e in b ==> e.job !in Jobs(a)
  {
    ConcatDiffers(a, b);
  }

  // ----- single messages -----

  lemma OwnMessageAdds(logs: Logs, e: Entry, today: int)
    requires KeyOf(e, today) !in logs && e.kind in {REMINDER, FINAL_VALIDATION}
    ensures Adds(logs, Created(logs, KeyOf(e, today), OwnLog(e)), [e], today)
    ensures ListsGoTo(logs, Created(logs, KeyOf(e, today), OwnLog(e)), [])
  {
    var k := KeyOf(e, today);
    var after := Created(logs, k, OwnLog(e));
    assert New(logs, after, k, e.job, today);
    assert Jobs([e]) == [e.job] && e in [e];
  }

  /** The entries whose own message is not logged. */
  function NotLogged(logs: Logs, entries: seq<Entry>, today: int): (r: seq<Entry>)
    ensures forall e :: e in r <==> e in entries && KeyOf(e, today) !in logs
  {
    if entries == [] then []
    else
      var n := |entries| - 1;
      assert entries == entries[..n] + [entries[n]];
      NotLogged(logs, entries[..n], today) + if KeyOf(entries[n], today) in logs then [] else [entries[n]]
  }

  /** Other jobs' messages are not this entry's. */
  lemma OwnKeyStaysFree(before: Logs, after: Logs, entries: seq<Entry>, e: Entry, today: int)
    requires Adds(before, after, entries, today) && e.job !in Jobs(entries) && e.kind != BATCH_REMINDER
    ensures KeyOf(e, today) in after <==> KeyOf(e, today) in before
  {
  }

  lemma NotLoggedJobs(logs: Logs, entries: seq<Entry>, today: int)
    ensures forall job :: job in Jobs(NotLogged(logs, entries, today)) ==> job in Jobs(entries)
  {
    forall job | job in Jobs(NotLogged(logs, entries, today)) ensures job in Jobs(entries) {
      var e := MemberOfJob(NotLogged(logs, entries, today), job);
      JobOfMember(entries, e);
    }
  }

  lemma {:induction false} LogEachAdds(logs: Logs, entries: seq<Entry>, today: int)
    requires Proper(entries)
    ensures Adds(logs, LogEach(logs, entries, today), NotLogged(logs, entries, today), today)
    ensures ListsGoTo(logs, LogEach(logs, entries, today), [])
  {
    if entries != [] {
      var n := |entries| - 1;
      var head, e := entries[..n], entries[n];
      assert entries == head + [e] && e in [e];
      ProperConcat(head, [e]);
      LogEachAdds(logs, head, today);
      var before, new_ := LogEach(logs, head, today), NotLogged(logs, head, today);
      NotLoggedJobs(logs, head, today);
      assert e.job !in Jobs(head);
      assert e in entries;
      OwnKeyStaysFree(logs, before, new_, e, today);
      if KeyOf(e, today) in logs {
        assert new_ + [] == new_;
      } else {
        OwnMessageAdds(before, e, today);
        AddsMore(logs, before, LogEach(logs, entries, today), new_, [e], today);
      }
    }
  }

  // ----- lists -----

  ghost predicate OfRecruiter(entries: seq<Entry>, r: nat) {
    forall e :: e in entries ==> e.recruiter == r && e.cooling
  }

  /** After the first `n` parts of recruiter `r`'s list, holding these entries. */
  ghost predicate Listed(logs: Logs, after: Logs, r: nat, entries: seq<Entry>, n: nat, today: int) {
    && Adds(logs, after, entries, today) && ListsGoTo(logs, after, [r])
    && PartsStartAtOne(after, today)
    && (n >= 1 ==> BatchKey(r, today, 1) in after)
    && (forall m :: m > n ==> BatchKey(r, today, m) !in after)
  }

  lemma PartAdds(before: Logs, r: nat, n: nat, part: seq<Entry>, today: int)
    requires BatchKey(r, today, n + 1) !in before && OfRecruiter(part, r)
    requires n >= 1 ==> BatchKey(r, today, 1) in before
    ensures Adds(before, Created(before, BatchKey(r, today, n + 1), Log(BATCH_REMINDER, Jobs(part))), part, today)
  {
    var k := BatchKey(r, today, n + 1);
    var after := Created(before, k, Log(BATCH_REMINDER, Jobs(part)));
    forall e | e in part ensures exists l :: New(before, after, l, e.job, today) {
      JobOfMember(part, e);
      assert New(before, after, k, e.job, today);
    }
    forall l, job | New(before, after, l, job, today)
      ensures exists e :: e in part && e.job == job && MessageOf(after, l, e, today)
    {
      var e := MemberOfJob(part, job);
      assert MessageOf(after, l, e, today);
    }
  }

  lemma NextPart(logs: Logs, before: Logs, r: nat, head: seq<Entry>, part: seq<Entry>, n: nat, today: int)
    requires Listed(logs, before, r, head, n, today) && Proper(head + part) && OfRecruiter(part, r)
    ensures var after := Created(before, BatchKey(r, today, n + 1), Log(BATCH_REMINDER, Jobs(part)));
            Listed(logs, after, r, head + part, n + 1, today)
  {
    var k := BatchKey(r, today, n + 1);
    var after := Created(before, k, Log(BATCH_REMINDER, Jobs(part)));
    PartAdds(before, r, n, part, today);
    ProperConcat(head, part);
    AddsMore(logs, before, after, head, part, today);
  }

  lemma {:induction false} LogPartsAdd(logs: Logs, r: nat, entries: seq<Entry>, sizes: seq<nat>, today: int)
    requires Proper(entries) && OfRecruiter(entries, r) && Sum(sizes) == |entries|
    requires PartsStartAtOne(logs, today) && BatchKey(r, today, 1) !in logs
    ensures |Chunks(entries, sizes)| == |sizes|
    ensures Listed(logs, LogParts(logs, r, Chunks(entries, sizes), today), r, entries, |sizes|, today)
    decreases |sizes|
  {
    if sizes != [] {
      var n := |sizes| - 1;
      var cut := |entries| - sizes[n];
      var head, part := entries[..cut], entries[cut..];
      assert head + part == entries;
      ProperConcat(head, part);
      LogPartsAdd(logs, r, head, sizes[..n], today);
      assert Chunks(entries, sizes)[..n] == Chunks(head, sizes[..n]);
      NextPart(logs, LogParts(logs, r, Chunks(head, sizes[..n]), today), r, head, part, n, today);
    }
  }

  // ----- the plan -----

  function ListRecruiters(plan: seq<Planned>): seq<nat> {
    if plan == [] then []
    else
      var p := plan[|plan| - 1];
      ListRecruiters(plan[..|plan| - 1]) + if p.Batch? then [p.recruiter] else []
  }

  ghost predicate MayLog(logs: Logs, p: Planned, today: int) {
    && Proper(EntriesOf(p)) && (forall e :: e in EntriesOf(p) ==> KeyOf(e, today) !in logs)
    && (p.Batch? ==> OfRecruiter(p.entries, p.recruiter) && BatchKey(p.recruiter, today, 1) !in logs)
  }

  ghost predicate Logged(logs: Logs, after: Logs, entries: seq<Entry>, recruiters: seq<nat>, today: int) {
    Adds(logs, after, entries, today) && PartsStartAtOne(after, today) && ListsGoTo(logs, after, recruiters)
  }

  lemma SinglesKeepParts(logs: Logs, after: Logs, today: int)
    requires PartsStartAtOne(logs, today) && Kept(logs, after) && ListsGoTo(logs, after, [])
    ensures PartsStartAtOne(after, today)
  {
    forall r, n | n >= 1 && BatchKey(r, today, n) in after ensures BatchKey(r, today, 1) in after {
      assert BatchKey(r, today, n) in logs;
    }
  }

  lemma LogPlannedAdds(logs: Logs, p: Planned, run: Run, today: int)
    requires MayLog(logs, p, today) && PartsStartAtOne(logs, today)
    ensures Logged(logs, LogPlanned(logs, p, run, today), EntriesOf(p), if p.Batch? then [p.recruiter] else [], today)
  {
    if p.Batch? && p.recruiter != 0 {
      var split := run.split(p.entries);
      LogPartsAdd(logs, p.recruiter, p.entries, split, today);
      if run.shortTemplate && Chunks(p.entries, split) != [] {
        var sizes := [|p.entries|];
        assert sizes[..0] == [];
        assert p.entries[0..] == p.entries && Chunks(p.entries[..0], []) == [];
        assert Chunks(p.entries, sizes) == [p.entries];
        LogPartsAdd(logs, p.recruiter, p.entries, sizes, today);
      }
    } else {
      var after := LogEach(logs, EntriesOf(p), today);
      LogEachAdds(logs, EntriesOf(p), today);
      SinglesKeepParts(logs, after, today);
      AddsSame(logs, after, NotLogged(logs, EntriesOf(p), today), EntriesOf(p), today);
    }
  }

  ghost predicate MayLogAll(logs: Logs, plan: seq<Planned>, today: int) {
    && Proper(Flat(plan)) && (forall e :: e in Flat(plan) ==> KeyOf(e, today) !in logs)
    && (forall i :: 0 <= i < |plan| && plan[i].Batch? ==>
          OfRecruiter(plan[i].entries, plan[i].recruiter) && BatchKey(plan[i].recruiter, today, 1) !in logs)
    && (forall i, j :: 0 <= i < j < |plan| && plan[i].Batch? && plan[j].Batch? ==>
          plan[i].recruiter != plan[j].recruiter)
  }

  lemma {:induction false} ListRecruitersAre(plan: seq<Planned>, r: nat)
    requires r in ListRecruiters(plan)
    ensures exists i :: 0 <= i < |plan| && plan[i].Batch? && plan[i].recruiter == r
  {
    var n := |plan| - 1;
    if r in ListRecruiters(plan[..n]) {
      ListRecruitersAre(plan[..n], r);
      var i :| 0 <= i < n && plan[..n][i].Batch? && plan[..n][i].recruiter == r;
      assert plan[i].Batch?;
    }
  }

  lemma NextMayLog(logs: Logs, before: Logs, plan: seq<Planned>, today: int)
    requires plan != [] && MayLogAll(logs, plan, today)
    requires var head := plan[..|plan| - 1]; Logged(logs, before, Flat(head), ListRecruiters(head), today)
    ensures MayLog(before, plan[|plan| - 1], today)
    ensures forall e :: e in EntriesOf(plan[|plan| - 1]) ==> e.job !in Jobs(Flat(plan[..|plan| - 1]))
  {
    var n := |plan| - 1;
    var head, p := plan[..n], plan[n];
    assert Flat(plan) == Flat(head) + EntriesOf(p);
    ProperConcat(Flat(head), EntriesOf(p));
    forall e | e in EntriesOf(p) ensures KeyOf(e, today) !in before {
      assert e in Flat(plan);
      OwnKeyStaysFree(logs, before, Flat(head), e, today);
    }
    if p.Batch? && p.recruiter in ListRecruiters(head) {
      ListRecruitersAre(head, p.recruiter);
      assert false;
    }
  }

  lemma LoggedMore(logs: Logs, before: Logs, after: Logs, first: seq<Entry>, more: seq<Entry>,
                   a: seq<nat>, b: seq<nat>, today: int)
    requires Logged(logs, before, first, a, today) && Logged(before, after, more, b, today)
    requires forall e :: e in more ==> e.job !in Jobs(first)
    ensures Logged(logs, after, first + more, a + b, today)
  {
    AddsMore(logs, before, after, first, more, today);
  }

  lemma HeadMayLog(logs: Logs, plan: seq<Planned>, today: int)
    requires plan != [] && MayLogAll(logs, plan, today)
    ensures MayLogAll(logs, plan[..|plan| - 1], today)
  {
    var head, p := plan[..|plan| - 1], plan[|plan| - 1];
    ProperConcat(Flat(head), EntriesOf(p));
    assert forall e :: e in Flat(head) ==> e in Flat(plan);
  }

  lemma {:induction false} LogPlanAdds(logs: Logs, plan: seq<Planned>, run: Run, today: int)
    requires MayLogAll(logs, plan, today) && PartsStartAtOne(logs, today)
    ensures Logged(logs, LogPlan(logs, plan, run, today), Flat(plan), ListRecruiters(plan), today)
  {
    if plan != [] {
      var head, p := plan[..|plan| - 1], plan[|plan| - 1];
      HeadMayLog(logs, plan, today);
      LogPlanAdds(logs, head, run, today);
      var before := LogPlan(logs, head, run, today);
      NextMayLog(logs, before, plan, today);
      LogPlannedAdds(before, p, run, today);
      LoggedMore(logs, before, LogPlan(logs, plan, run, today), Flat(head), EntriesOf(p), ListRecruiters(head),
                 if p.Batch? then [p.recruiter] else [], today);
    }
  }

  // ----- the entries of a run -----

  function RunEntries(checks: Checks, day: Day, run: Run, cooling: bool): seq<Entry> {
    Entries(ChecksAfter(checks, day, run.minute, run.items), day, run.minute, run.items, cooling)
  }

  /** The entry is the one some item makes. */
  ghost predicate From(day: Day, minute: nat, items: seq<Item>, e: Entry) {
    exists i :: 0 <= i < |items| && items[i].job == e.job && EntryAt(day, minute, items[i]) == Some(e)
  }

  lemma {:induction false} EntriesComeFrom(checks: Checks, day: Day, minute: nat, items: seq<Item>, cooling: bool)
    ensures forall e :: e in Entries(checks, day, minute, items, cooling) ==>
              From(day, minute, items, e) && e.cooling == cooling
  {
    if items != [] {
      var n := |items| - 1;
      EntriesComeFrom(checks, day, minute, items[..n], cooling);
      forall e | e in Entries(checks, day, minute, items, cooling)
        ensures From(day, minute, items, e) && e.cooling == cooling
      {
        if e in Entries(checks, day, minute, items[..n], cooling) {
          var i :| 0 <= i < n && items[..n][i].job == e.job && EntryAt(day, minute, items[..n][i]) == Some(e);
          assert items[i].job == e.job && EntryAt(day, minute, items[i]) == Some(e);
        } else {
          assert EntryAt(day, minute, items[n]) == Some(e) && items[n].job == e.job;
        }
      }
    }
  }

  lemma SameJobSameEntry(day: Day, minute: nat, items: seq<Item>, e: Entry, f: Entry)
    requires DistinctJobs(items) && From(day, minute, items, e) && From(day, minute, items, f) && e.job == f.job
    ensures e == f
  {
  }

  lemma {:induction false} EntriesDiffer(checks: Checks, day: Day, minute: nat, items: seq<Item>, cooling: bool)
    requires DistinctJobs(items)
    ensures Proper(Entries(checks, day, minute, items, cooling))
  {
    if items != [] {
      var n := |items| - 1;
      EntriesDiffer(checks, day, minute, items[..n], cooling);
      EntriesComeFrom(checks, day, minute, items[..n], cooling);
      var head := Entries(checks, day, minute, items[..n], cooling);
      assert head + [] == head;
      forall e | e in head ensures e.job != items[n].job {
        var i :| 0 <= i < n && items[..n][i].job == e.job;
        assert items[i].job != items[n].job;
      }
    }
  }

  /** The guard of a pass: what is not logged yet under the entry's current key and, for an entry
      to be messaged, whose recruiter has no list yet. */
  predicate Passes(logs: Logs, e: Entry, today: int) {
    KeyOf(e, today) !in logs && if e.cooling then BatchKey(e.recruiter, today, 1) !in logs else e.recruiter != 0
  }

  function Passing(logs: Logs, entries: seq<Entry>, today: int): (r: seq<Entry>)
    ensures forall e :: e in r <==> e in entries && Passes(logs, e, today)
  {
    if entries == [] then []
    else
      var n := |entries| - 1;
      assert entries == entries[..n] + [entries[n]];
      Passing(logs, entries[..n], today) + if Passes(logs, entries[n], today) then [entries[n]] else []
  }

  /** The entries a run logs a message for. */
  function Messaged(logs: Logs, checks: Checks, day: Day, run: Run): seq<Entry> {
    if !run.canSend then []
    else Passing(logs, RunEntries(checks, day, run, false) + RunEntries(checks, day, run, true), day.today)
  }

  lemma SkippedAndDueDiffer(checks: Checks, day: Day, run: Run)
    requires DistinctJobs(run.items)
    ensures var skipped, due := RunEntries(checks, day, run, false), RunEntries(checks, day, run, true);
            && Proper(skipped) && Proper(due)
            && (forall e :: e in skipped ==> !e.cooling) && (forall e :: e in due ==> e.cooling)
            && (forall e :: e in due ==> e.job !in Jobs(skipped))
  {
    var made := ChecksAfter(checks, day, run.minute, run.items);
    var skipped, due := RunEntries(checks, day, run, false), RunEntries(checks, day, run, true);
    EntriesDiffer(made, day, run.minute, run.items, false);
    EntriesDiffer(made, day, run.minute, run.items, true);
    EntriesComeFrom(made, day, run.minute, run.items, false);
    EntriesComeFrom(made, day, run.minute, run.items, true);
    forall e | e in due ensures e.job !in Jobs(skipped) {
      if e.job in Jobs(skipped) {
        var s := MemberOfJob(skipped, e.job);
        SameJobSameEntry(day, run.minute, run.items, e, s);
      }
    }
  }

  lemma SkipsAdd(logs: Logs, skipped: seq<Entry>, today: int)
    requires Proper(skipped) && PartsStartAtOne(logs, today)
    ensures var existing := LogEach(logs, Assigned(skipped), today);
            && Adds(logs, existing, NotLogged(logs, Assigned(skipped), today), today)
            && ListsGoTo(logs, existing, []) && PartsStartAtOne(existing, today)
            && (forall job :: job in Jobs(NotLogged(logs, Assigned(skipped), today)) ==> job in Jobs(skipped))
  {
    AssignedAre(skipped);
    LogEachAdds(logs, Assigned(skipped), today);
    SinglesKeepParts(logs, LogEach(logs, Assigned(skipped), today), today);
    var new_ := NotLogged(logs, Assigned(skipped), today);
    forall job | job in Jobs(new_) ensures job in Jobs(skipped) {
      var e := MemberOfJob(new_, job);
      JobOfMember(skipped, e);
    }
  }

  lemma SendsAdd(existing: Logs, due: seq<Entry>, run: Run, today: int)
    requires Proper(due) && (forall e :: e in due ==> e.cooling) && PartsStartAtOne(existing, today)
    ensures var unhandled := Unhandled(existing, due, today);
            var after := LogPlan(existing, Plan(unhandled, run.threshold, run.combine), run, today);
            Adds(existing, after, unhandled, today) && PartsStartAtOne(after, today)
  {
    var unhandled := Unhandled(existing, due, today);
    var plan := Plan(unhandled, run.threshold, run.combine);
    UnhandledAre(existing, due, today);
    PlanConservesEntries(unhandled, run.threshold, run.combine);
    PermutedJobsDiffer(unhandled, Flat(plan));
    RecruitersComeFrom(unhandled);
    PlanListsAreOf(unhandled, run.threshold, run.combine);
    LogPlanAdds(existing, plan, run, today);
    AddsSame(existing, LogPlan(existing, plan, run, today), Flat(plan), unhandled, today);
  }

  lemma PlanListsAreOf(entries: seq<Entry>, threshold: int, combine: bool)
    requires forall e :: e in entries ==> e.cooling
    ensures var plan := Plan(entries, threshold, combine);
            forall i :: 0 <= i < |plan| && plan[i].Batch? ==> OfRecruiter(plan[i].entries, plan[i].recruiter)
  {
    var plan := Plan(entries, threshold, combine);
    forall i | 0 <= i < |plan| && plan[i].Batch? ensures OfRecruiter(plan[i].entries, plan[i].recruiter) {
      ListsExactlyAboveThreshold(entries, threshold, combine, plan[i].recruiter);
      assert plan[i] in plan && plan[i].entries == Of(entries, plan[i].recruiter);
      forall e | e in plan[i].entries ensures e.recruiter == plan[i].recruiter && e.cooling {
        OfCounts(entries, plan[i].recruiter, e);
        assert e in multiset(Of(entries, plan[i].recruiter));
        assert e in multiset(entries);
      }
    }
  }

  /** A run adds exactly one message for each of its entries that passes the guard. */
  lemma RunAddsExactly(logs: Logs, checks: Checks, day: Day, run: Run)
    requires DistinctJobs(run.items) && PartsStartAtOne(logs, day.today)
    ensures var after := LogsAfter(logs, checks, day, run);
            Adds(logs, after, Messaged(logs, checks, day, run), day.today) && PartsStartAtOne(after, day.today)
  {
    if run.canSend {
      var today := day.today;
      var skipped, due := RunEntries(checks, day, run, false), RunEntries(checks, day, run, true);
      SkippedAndDueDiffer(checks, day, run);
      SkipsAdd(logs, skipped, today);
      var existing := LogEach(logs, Assigned(skipped), today);
      SendsAdd(existing, due, run, today);
      var after := LogsAfter(logs, checks, day, run);
      var new_, unhandled := NotLogged(logs, Assigned(skipped), today), Unhandled(existing, due, today);
      RunCombines(logs, existing, after, skipped, due, today);
      MessagedAre(logs, existing, skipped, due, today);
      AddsSame(logs, after, new_ + unhandled, Passing(logs, skipped + due, today), today);
    }
  }

  lemma RunCombines(logs: Logs, existing: Logs, after: Logs, skipped: seq<Entry>, due: seq<Entry>, today: int)
    requires Proper(due) && forall e :: e in due ==> e.job !in Jobs(skipped)
    requires Adds(logs, existing, NotLogged(logs, Assigned(skipped), today), today)
    requires Adds(existing, after, Unhandled(existing, due, today), today)
    requires forall job :: job in Jobs(NotLogged(logs, Assigned(skipped), today)) ==> job in Jobs(skipped)
    ensures Adds(logs, after, NotLogged(logs, Assigned(skipped), today) + Unhandled(existing, due, today), today)
  {
    UnhandledAre(existing, due, today);
    AddsMore(logs, existing, after, NotLogged(logs, Assigned(skipped), today), Unhandled(existing, due, today), today);
  }

  lemma SkipsPass(logs: Logs, skipped: seq<Entry>, today: int)
    requires Proper(skipped) && forall e :: e in skipped ==> !e.cooling
    ensures forall e :: e in NotLogged(logs, Assigned(skipped), today) <==> e in skipped && Passes(logs, e, today)
  {
    AssignedAre(skipped);
  }

  lemma DuePass(logs: Logs, existing: Logs, added: seq<Entry>, due: seq<Entry>, today: int)
    requires Proper(due) && forall e :: e in due ==> e.cooling && e.job !in Jobs(added)
    requires Adds(logs, existing, added, today) && ListsGoTo(logs, existing, [])
    ensures forall e :: e in Unhandled(existing, due, today) <==> e in due && Passes(logs, e, today)
  {
    UnhandledAre(existing, due, today);
    forall e | e in due ensures Handled(existing, e, today) <==> !Passes(logs, e, today) {
      OwnKeyStaysFree(logs, existing, added, e, today);
    }
  }

  lemma MessagedAre(logs: Logs, existing: Logs, skipped: seq<Entry>, due: seq<Entry>, today: int)
    requires Proper(due) && (forall e :: e in due ==> e.cooling && e.job !in Jobs(skipped))
    requires Proper(skipped) && forall e :: e in skipped ==> !e.cooling
    requires Adds(logs, existing, NotLogged(logs, Assigned(skipped), today), today) && ListsGoTo(logs, existing, [])
    requires forall job :: job in Jobs(NotLogged(logs, Assigned(skipped), today)) ==> job in Jobs(skipped)
    ensures forall e :: e in NotLogged(logs, Assigned(skipped), today) + Unhandled(existing, due, today) <==>
              e in Passing(logs, skipped + due, today)
  {
    SkipsPass(logs, skipped, today);
    DuePass(logs, existing, NotLogged(logs, Assigned(skipped), today), due, today);
    InEither(NotLogged(logs, Assigned(skipped), today), Unhandled(existing, due, today));
    InEither(skipped, due);
  }

  lemma InEither(a: seq<Entry>, b: seq<Entry>)
    ensures forall e :: e in a + b <==> e in a || e in b
  {
  }

  // ----- who has a message, and who has two -----

  lemma OldOrAdded(before: Logs, after: Logs, entries: seq<Entry>, k: Key, job: nat, today: int)
    requires Adds(before, after, entries, today) && Covers(after, k, job, today)
    ensures if k in before then Covers(before, k, job, today) else job in Jobs(entries)
  {
    if k !in before {
      assert New(before, after, k, job, today);
      var e :| e in entries && e.job == job;
      JobOfMember(entries, e);
    }
  }

  lemma AddedIsCovered(before: Logs, after: Logs, entries: seq<Entry>, job: nat, today: int) returns (k: Key)
    requires Adds(before, after, entries, today) && job in Jobs(entries)
    ensures k !in before && Covers(after, k, job, today)
  {
    var e := MemberOfJob(entries, job);
    k :| New(before, after, k, e.job, today);
  }

  lemma CoveredAfter(before: Logs, after: Logs, entries: seq<Entry>, job: nat, today: int)
    requires Adds(before, after, entries, today)
    ensures Uncovered(after, job, today) <==> Uncovered(before, job, today) && job !in Jobs(entries)
  {
    if job in Jobs(entries) {
      var _ := AddedIsCovered(before, after, entries, job, today);
    }
    forall k ensures Covers(before, k, job, today) ==> Covers(after, k, job, today) {
    }
    forall k ensures Covers(after, k, job, today) ==> Covers(before, k, job, today) || job in Jobs(entries) {
      if Covers(after, k, job, today) {
        OldOrAdded(before, after, entries, k, job, today);
      }
    }
  }

  lemma AddedTwice(before: Logs, after: Logs, entries: seq<Entry>, job: nat, k: Key, today: int)
    requires Adds(before, after, entries, today) && job in Jobs(entries) && Covers(before, k, job, today)
    ensures !AtMostOnce(after, today)
  {
    var l := AddedIsCovered(before, after, entries, job, today);
    assert Covers(after, k, job, today) && Covers(after, l, job, today) && k != l;
  }

  lemma OnceAfterExactly(before: Logs, after: Logs, entries: seq<Entry>, today: int)
    requires Adds(before, after, entries, today)
    ensures AtMostOnce(after, today) <==>
            AtMostOnce(before, today) && forall e :: e in entries ==> Uncovered(before, e.job, today)
  {
    if AtMostOnce(after, today) {
      forall job, k, l | Covers(before, k, job, today) && Covers(before, l, job, today) ensures k == l {
        assert Covers(after, k, job, today) && Covers(after, l, job, today);
      }
    }
    if e, k :| e in entries && Covers(before, k, e.job, today) {
      JobOfMember(entries, e);
      AddedTwice(before, after, entries, e.job, k, today);
    } else if AtMostOnce(before, today) {
      forall job ensures job in Jobs(entries) ==> Uncovered(before, job, today) {
        if job in Jobs(entries) {
          var e := MemberOfJob(entries, job);
        }
      }
      forall job, k, l | Covers(after, k, job, today) && Covers(after, l, job, today) ensures k == l {
        OnlyOne(before, after, entries, job, k, l, today);
      }
    }
  }

  lemma OnlyOne(before: Logs, after: Logs, entries: seq<Entry>, job: nat, k: Key, l: Key, today: int)
    requires Adds(before, after, entries, today) && AtMostOnce(before, today)
    requires job in Jobs(entries) ==> Uncovered(before, job, today)
    requires Covers(after, k, job, today) && Covers(after, l, job, today)
    ensures k == l
  {
    OldOrAdded(before, after, entries, k, job, today);
    OldOrAdded(before, after, entries, l, job, today);
    assert New(before, after, k, job, today) <==> k !in before;
    assert New(before, after, l, job, today) <==> l !in before;
  }

  /** A run gives some candidate a second message of the day if and only if it may send and one
      of its entries, about a candidate who has one, passes the guard. */
  lemma SecondMessageExactly(logs: Logs, checks: Checks, day: Day, run: Run)
    requires DistinctJobs(run.items) && PartsStartAtOne(logs, day.today) && AtMostOnce(logs, day.today)
    ensures !AtMostOnce(LogsAfter(logs, checks, day, run), day.today) <==>
            run.canSend && exists e ::
              && (e in RunEntries(checks, day, run, false) || e in RunEntries(checks, day, run, true))
              && !Uncovered(logs, e.job, day.today) && Passes(logs, e, day.today)
  {
    RunAddsExactly(logs, checks, day, run);
    OnceAfterExactly(logs, LogsAfter(logs, checks, day, run), Messaged(logs, checks, day, run), day.today);
    var all := RunEntries(checks, day, run, false) + RunEntries(checks, day, run, true);
    assert run.canSend ==> Messaged(logs, checks, day, run) == Passing(logs, all, day.today);
  }

  /** After a run that may send, a due candidate is without a message if and only if there was
      none before and the recruiter's list was already out. */
  lemma RunCoversExactly(logs: Logs, checks: Checks, day: Day, run: Run)
    requires DistinctJobs(run.items) && PartsStartAtOne(logs, day.today) && OwnMessagesCover(logs, day.today)
    ensures OwnMessagesCover(LogsAfter(logs, checks, day, run), day.today)
    ensures run.canSend ==> forall e :: e in RunEntries(checks, day, run, true) ==>
              (Uncovered(LogsAfter(logs, checks, day, run), e.job, day.today) <==>
               Uncovered(logs, e.job, day.today) && BatchKey(e.recruiter, day.today, 1) in logs)
  {
    var today, after, sent := day.today, LogsAfter(logs, checks, day, run), Messaged(logs, checks, day, run);
    RunAddsExactly(logs, checks, day, run);
    SkippedAndDueDiffer(checks, day, run);
    if run.canSend {
      forall e | e in RunEntries(checks, day, run, true)
        ensures Uncovered(after, e.job, today) <==>
                Uncovered(logs, e.job, today) && BatchKey(e.recruiter, today, 1) in logs
      {
        CoveredAfter(logs, after, sent, e.job, today);
        DueMessagedExactly(logs, checks, day, run, e);
        assert KeyOf(e, today) in logs ==> Covers(logs, KeyOf(e, today), e.job, today);
      }
    }
  }

  lemma DueMessagedExactly(logs: Logs, checks: Checks, day: Day, run: Run, e: Entry)
    requires DistinctJobs(run.items) && run.canSend && e in RunEntries(checks, day, run, true)
    ensures e.job in Jobs(Messaged(logs, checks, day, run)) <==> Passes(logs, e, day.today)
  {
    var skipped, due := RunEntries(checks, day, run, false), RunEntries(checks, day, run, true);
    var sent := Messaged(logs, checks, day, run);
    SkippedAndDueDiffer(checks, day, run);
    if e.job in Jobs(sent) {
      var f := MemberOfJob(sent, e.job);
      if f in skipped {
        JobOfMember(skipped, f);
      } else {
        var i :| 0 <= i < |due| && due[i] == e;
        var j :| 0 <= j < |due| && due[j] == f;
      }
    }
    if Passes(logs, e, day.today) {
      assert e in skipped + due;
      JobOfMember(sent, e);
    }
  }

  // ----- any sequence of runs -----

  /** What can happen to the tables during the day: a pass, with the rules, items and settings of
      its moment; other code writing a message of another kind or date; or other code writing
      health checks. */
  datatype Op = Pass(day: Day, run: Run) | Other(key: Key, log: Log) | CheckWrite(checks: Checks)

  ghost predicate Allowed(today: int, op: Op) {
    match op
    case Pass(day, run) => day.today == today && DistinctJobs(run.items)
    case Other(key, _) => !Relevant(key, today)
    case CheckWrite(_) => true
  }

  function After(logs: Logs, checks: Checks, op: Op): (Logs, Checks) {
    match op
    case Pass(day, run) =>
      (LogsAfter(logs, checks, day, run), ChecksAfter(checks, day, run.minute, run.items))
    case Other(key, log) => (logs[key := log], checks)
    case CheckWrite(written) => (logs, written)
  }

  function DayAfter(logs: Logs, checks: Checks, ops: seq<Op>): (Logs, Checks)
    decreases |ops|
  {
    if ops == [] then (logs, checks)
    else
      var (l, c) := After(logs, checks, ops[0]);
      DayAfter(l, c, ops[1..])
  }

  /** No pass ever lets through an entry of a candidate who has a message. */
  ghost predicate NeverPassedTwice(today: int, logs: Logs, checks: Checks, ops: seq<Op>)
    decreases |ops|
  {
    ops != [] ==>
      && (ops[0].Pass? ==>
            forall e :: e in Messaged(logs, checks, ops[0].day, ops[0].run) ==> Uncovered(logs, e.job, today))
      && NeverPassedTwice(today, After(logs, checks, ops[0]).0, After(logs, checks, ops[0]).1, ops[1..])
  }

  lemma OtherChangesNothing(logs: Logs, key: Key, log: Log, today: int)
    requires !Relevant(key, today)
    ensures AtMostOnce(logs[key := log], today) <==> AtMostOnce(logs, today)
    ensures PartsStartAtOne(logs, today) ==> PartsStartAtOne(logs[key := log], today)
  {
    var after := logs[key := log];
    assert forall k, job :: Covers(after, k, job, today) <==> Covers(logs, k, job, today);
    forall r, n ensures BatchKey(r, today, n) in after <==> BatchKey(r, today, n) in logs {
      assert Relevant(BatchKey(r, today, n), today);
    }
  }

  /** After any operation: still at most one message each if and only if it was so before and
      the operation is not a pass that lets a messaged candidate through. */
  lemma StepKeepsOnceExactly(today: int, logs: Logs, checks: Checks, op: Op)
    requires Allowed(today, op) && PartsStartAtOne(logs, today)
    ensures PartsStartAtOne(After(logs, checks, op).0, today)
    ensures AtMostOnce(After(logs, checks, op).0, today) <==>
            && AtMostOnce(logs, today)
            && (op.Pass? ==> forall e :: e in Messaged(logs, checks, op.day, op.run) ==> Uncovered(logs, e.job, today))
  {
    match op
    case Pass(day, run) =>
      RunAddsExactly(logs, checks, day, run);
      OnceAfterExactly(logs, LogsAfter(logs, checks, day, run), Messaged(logs, checks, day, run), today);
    case Other(key, log) => OtherChangesNothing(logs, key, log, today);
    case CheckWrite(_) =>
  }

  /** Over any sequence of passes, whatever rules, items and settings each of them sees, and of
      other writes: every candidate has at most one message of the day if and only if that was
      so at the start and no pass lets a messaged candidate through. */
  lemma {:induction false} AtMostOneMessageExactly(today: int, logs: Logs, checks: Checks, ops: seq<Op>)
    requires PartsStartAtOne(logs, today) && forall op :: op in ops ==> Allowed(today, op)
    ensures AtMostOnce(DayAfter(logs, checks, ops).0, today) <==>
            AtMostOnce(logs, today) && NeverPassedTwice(today, logs, checks, ops)
    decreases |ops|
  {
    if ops != [] {
      assert ops[0] in ops;
      StepKeepsOnceExactly(today, logs, checks, ops[0]);
      AtMostOneMessageExactly(today, After(logs, checks, ops[0]).0, After(logs, checks, ops[0]).1, ops[1..]);
    }
  }

  // ----- candidates whose entry stays the same -----

  /** The entry each candidate makes whenever it makes one. */
  type Own = map<nat, Entry>

  ghost predicate Agree(own: Own, entries: seq<Entry>) {
    forall e :: e in entries ==> e.job in own && own[e.job] == e
  }

  ghost predicate Steady(own: Own, checks: Checks, day: Day, run: Run) {
    Agree(own, RunEntries(checks, day, run, false)) && Agree(own, RunEntries(checks, day, run, true))
  }

  ghost predicate AlwaysSteady(own: Own, logs: Logs, checks: Checks, ops: seq<Op>)
    decreases |ops|
  {
    ops != [] ==>
      && (ops[0].Pass? ==> Steady(own, checks, ops[0].day, ops[0].run))
      && AlwaysSteady(own, After(logs, checks, ops[0]).0, After(logs, checks, ops[0]).1, ops[1..])
  }

  /** Every message so far is the candidate's own or goes with a list of its recruiter. */
  ghost predicate Accounted(own: Own, logs: Logs, today: int) {
    forall k, job :: Covers(logs, k, job, today) ==> job in own && MessageOf(logs, k, own[job], today)
  }

  lemma AddingKeepsAccounted(own: Own, before: Logs, after: Logs, entries: seq<Entry>, today: int)
    requires Accounted(own, before, today) && Adds(before, after, entries, today) && Agree(own, entries)
    ensures Accounted(own, after, today)
    ensures (forall e :: e in entries ==> Passes(before, e, today)) ==>
              forall e :: e in entries ==> Uncovered(before, e.job, today)
  {
    forall k, job | Covers(after, k, job, today) ensures job in own && MessageOf(after, k, own[job], today) {
      if k in before {
        assert Covers(before, k, job, today) && MessageOf(before, k, own[job], today);
      } else {
        assert New(before, after, k, job, today);
        var e :| e in entries && e.job == job && MessageOf(after, k, e, today);
      }
    }
  }

  lemma OtherKeepsAccounted(own: Own, logs: Logs, key: Key, log: Log, today: int)
    requires Accounted(own, logs, today) && !Relevant(key, today)
    ensures Accounted(own, logs[key := log], today)
  {
    var after := logs[key := log];
    forall k, job | Covers(after, k, job, today) ensures job in own && MessageOf(after, k, own[job], today) {
      assert Covers(logs, k, job, today) && MessageOf(logs, k, own[job], today);
    }
  }

  /** While every candidate's entry stays the same, no pass lets a messaged candidate through. */
  lemma {:induction false} SteadyNeverPassesTwice(own: Own, today: int, logs: Logs, checks: Checks, ops: seq<Op>)
    requires PartsStartAtOne(logs, today) && Accounted(own, logs, today)
    requires (forall op :: op in ops ==> Allowed(today, op)) && AlwaysSteady(own, logs, checks, ops)
    ensures NeverPassedTwice(today, logs, checks, ops)
    decreases |ops|
  {
    if ops != [] {
      var op := ops[0];
      assert op in ops;
      StepKeepsOnceExactly(today, logs, checks, op);
      if op.Pass? {
        RunAddsExactly(logs, checks, op.day, op.run);
        AddingKeepsAccounted(own, logs, LogsAfter(logs, checks, op.day, op.run),
                             Messaged(logs, checks, op.day, op.run), today);
      } else if op.Other? {
        OtherKeepsAccounted(own, logs, op.key, op.log, today);
      }
      SteadyNeverPassesTwice(own, today, After(logs, checks, op).0, After(logs, checks, op).1, ops[1..]);
    }
  }

  ghost predicate NothingSent(logs: Logs, today: int) {
    forall k :: k in logs ==> !Relevant(k, today)
  }

  /** So from a day with none of its messages logged, after any passes in which each candidate
      makes the same entry whenever it makes one, no candidate has two messages. */
  lemma SteadyCandidatesAtMostOnce(own: Own, today: int, logs: Logs, checks: Checks, ops: seq<Op>)
    requires NothingSent(logs, today)
    requires (forall op :: op in ops ==> Allowed(today, op)) && AlwaysSteady(own, logs, checks, ops)
    ensures AtMostOnce(DayAfter(logs, checks, ops).0, today)
  {
    forall r, n ensures BatchKey(r, today, n) !in logs {
      assert Relevant(BatchKey(r, today, n), today);
    }
    SteadyNeverPassesTwice(own, today, logs, checks, ops);
    AtMostOneMessageExactly(today, logs, checks, ops);
  }

  /** The rules of the day and each candidate's item. */
  datatype Fixed = Fixed(day: Day, table: map<nat, Item>)

  ghost predicate Drawn(fixed: Fixed, items: seq<Item>) {
    && DistinctJobs(items)
    && forall i :: 0 <= i < |items| ==> items[i].job in fixed.table && fixed.table[items[i].job] == items[i]
  }

  ghost predicate SeesFixed(fixed: Fixed, op: Op) {
    match op
    case Pass(day, run) => day == fixed.day && Drawn(fixed, run.items)
    case Other(key, _) => !Relevant(key, fixed.day.today)
    case CheckWrite(_) => true
  }

  function OwnEntries(fixed: Fixed): Own {
    map job | job in fixed.table && EntryOf(fixed.day, fixed.table[job]).Some? ::
      EntryOf(fixed.day, fixed.table[job]).value
  }

  lemma FixedEntryIsOwn(fixed: Fixed, minute: nat, items: seq<Item>, e: Entry)
    requires Drawn(fixed, items) && From(fixed.day, minute, items, e)
    ensures e.job in OwnEntries(fixed) && OwnEntries(fixed)[e.job] == e
  {
    var i :| 0 <= i < |items| && items[i].job == e.job && EntryAt(fixed.day, minute, items[i]) == Some(e);
    assert EntryOf(fixed.day, fixed.table[e.job]) == Some(e);
  }

  lemma FixedItemsAreSteady(fixed: Fixed, checks: Checks, run: Run)
    requires Drawn(fixed, run.items)
    ensures Steady(OwnEntries(fixed), checks, fixed.day, run)
  {
    FixedEntriesAgree(fixed, checks, run, false);
    FixedEntriesAgree(fixed, checks, run, true);
  }

  lemma FixedEntriesAgree(fixed: Fixed, checks: Checks, run: Run, cooling: bool)
    requires Drawn(fixed, run.items)
    ensures Agree(OwnEntries(fixed), RunEntries(checks, fixed.day, run, cooling))
  {
    var made := ChecksAfter(checks, fixed.day, run.minute, run.items);
    EntriesComeFrom(made, fixed.day, run.minute, run.items, cooling);
    forall e | e in RunEntries(checks, fixed.day, run, cooling)
      ensures e.job in OwnEntries(fixed) && OwnEntries(fixed)[e.job] == e
    {
      FixedEntryIsOwn(fixed, run.minute, run.items, e);
    }
  }

  lemma {:induction false} FixedRunsAreSteady(fixed: Fixed, logs: Logs, checks: Checks, ops: seq<Op>)
    requires forall op :: op in ops ==> SeesFixed(fixed, op)
    ensures AlwaysSteady(OwnEntries(fixed), logs, checks, ops)
    ensures forall op :: op in ops ==> Allowed(fixed.day.today, op)
    decreases |ops|
  {
    if ops != [] {
      assert ops[0] in ops && SeesFixed(fixed, ops[0]);
      if ops[0].Pass? {
        FixedItemsAreSteady(fixed, checks, ops[0].run);
      }
      FixedRunsAreSteady(fixed, After(logs, checks, ops[0]).0, After(logs, checks, ops[0]).1, ops[1..]);
    }
  }

  /** In particular when rules, items and recruiters stay as they are for the day. */
  lemma EachCandidateAtMostOnce(fixed: Fixed, logs: Logs, checks: Checks, ops: seq<Op>)
    requires NothingSent(logs, fixed.day.today)
    requires forall op :: op in ops ==> SeesFixed(fixed, op)
    ensures AtMostOnce(DayAfter(logs, checks, ops).0, fixed.day.today)
  {
    FixedRunsAreSteady(fixed, logs, checks, ops);
    SteadyCandidatesAtMostOnce(OwnEntries(fixed), fixed.day.today, logs, checks, ops);
  }
}
