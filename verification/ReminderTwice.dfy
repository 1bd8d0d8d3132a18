/**
 A day in which a candidate is messaged twice: the joining date is entered between two passes.
 */
module ReminderTwice {
  import opened Options
  import opened ClawbackRules
  import opened IdempotencyKey
  import opened ReminderRun
  import opened ReminderOnce

  /** A pass over one candidate, lists off, logs that candidate's own message. */
  lemma SingleRun(logs: Logs, checks: Checks, day: Day, run: Run, item: Item, e: Entry)
    requires run.items == [item] && run.canSend && !run.combine
    requires EntryAt(day, run.minute, item) == Some(e) && e.cooling && !e.rule.createsHealthCheck
    requires !IsCancelled(checks, item.job, day.today) && Passes(logs, e, day.today)
    ensures ChecksAfter(checks, day, run.minute, run.items) == checks
    ensures LogsAfter(logs, checks, day, run) == Created(logs, KeyOf(e, day.today), OwnLog(e))
  {
    var none: seq<Item> := [];
    assert [item][..0] == none;
    assert ChecksAfter(checks, day, run.minute, [item]) == checks;
    var nobody := Entries(checks, day, run.minute, none, true);
    assert nobody == [] && Entries(checks, day, run.minute, none, false) == [];
    assert RunEntries(checks, day, run, true) == nobody + [e] && nobody + [e] == [e];
    assert RunEntries(checks, day, run, false) == [];
    SingleIsUnhandled(logs, e, day.today);
    SingleIsPlanned(e, run.threshold);
    SingleIsLogged(logs, run, e, day.today);
  }

  lemma SingleGroup(e: Entry)
    ensures Recruiters([e]) == [e.recruiter] && Of([e], e.recruiter) == [e]
  {
    var none: seq<Entry> := [];
    assert [e][..0] == none;
    assert Recruiters(none) == [] && Of(none, e.recruiter) == none;
    assert none + [e] == [e];
  }

  lemma SingleIsUnhandled(logs: Logs, e: Entry, today: int)
    requires e.cooling && Passes(logs, e, today)
    ensures Unhandled(logs, [e], today) == [e]
  {
    var none: seq<Entry> := [];
    assert [e][..0] == none && Unhandled(logs, none, today) == none;
    assert none + [e] == [e];
  }

  lemma SingleIsPlanned(e: Entry, threshold: int)
    ensures Plan([e], threshold, false) == [Single(e)]
  {
    SingleGroup(e);
    var limit: nat := if threshold < 0 then 0 else threshold;
    assert [e.recruiter][..0] == [];
    var before := PlanOver([e.recruiter][..0], [e], limit, false);
    assert Plan([e], threshold, false) == before + Singles([e]);
    assert before + Singles([e]) == [Single(e)];
  }

  lemma SingleIsLogged(logs: Logs, run: Run, e: Entry, today: int)
    ensures LogPlan(logs, [Single(e)], run, today) == Created(logs, KeyOf(e, today), OwnLog(e))
  {
    var none: seq<Entry>, empty: seq<Planned> := [], [];
    assert [Single(e)][..0] == empty && LogPlan(logs, empty, run, today) == logs;
    assert [e][..0] == none && LogEach(logs, none, today) == logs;
  }

  const BeforeJoining := RuleSpec(Some(1), OfferAccepted, 1, None, EveryNDays(1), 0, true, 600, false)
  const AfterJoining := RuleSpec(Some(2), Doj, 1, None, EveryNDays(1), 0, true, 600, false)
  const Monday := Day([BeforeJoining, AfterJoining], 1, [0, 1, 2, 3, 4])

  /** The same candidate and recruiter, before and after the joining date is entered. */
  const Offered := Item(7, Clawback(false, true, Some(1), None, None, 30), 5)
  const JoinedToday := Item(7, Clawback(false, false, Some(1), Some(1), None, 30), 5)

  lemma EntryOnMonday(item: Item, anchor: Anchor, rule: RuleSpec)
    requires item.clawback.coolingDays > 0 && rule in Monday.rules && rule.anchor == anchor
    requires AnchorAndDay(item.clawback, 1) == Some((anchor, 1)) && anchor != CoolingEnd
    ensures EntryAt(Monday, 600, item) == Some(Entry(item.job, REMINDER, rule, item.recruiter, true))
  {
    MatchRuleIsBest(Monday.rules, anchor, 1, Weekday(1));
    assert Due(rule, anchor, 1, Weekday(1));
    assert MatchOn(Monday.rules, item.clawback, 1) == Some(rule);
    assert Schedule(Monday.rules, item.clawback)(1) == Some(rule);
    assert DueRule(Monday.rules, item.clawback, 1, Monday.workingDays) == Some(rule);
  }

  /** A candidate whose dates move between two passes can be messaged twice: the entry then has
      another rule, so another key, and without a list nothing stops it. */
  lemma MovedDatesMessageTwice(split: Splitter)
    ensures var first := Run([Offered], 600, true, 0, false, split, false);
            var second := Run([JoinedToday], 600, true, 0, false, split, false);
            var logs := DayAfter(map[], map[], [Pass(Monday, first), Pass(Monday, second)]).0;
            && Covers(logs, Key(REMINDER, 1, 7, 5, 1), 7, 1) && Covers(logs, Key(REMINDER, 2, 7, 5, 1), 7, 1)
            && !AtMostOnce(logs, 1)
  {
    var first := Run([Offered], 600, true, 0, false, split, false);
    var second := Run([JoinedToday], 600, true, 0, false, split, false);
    var logs := PassesOneByOne(split, first, second);
    var k, l := Key(REMINDER, 1, 7, 5, 1), Key(REMINDER, 2, 7, 5, 1);
    assert 7 in logs[k].covers && 7 in logs[l].covers;
    assert Covers(logs, k, 7, 1) && Covers(logs, l, 7, 1) && k != l;
  }

  lemma PassesOneByOne(split: Splitter, first: Run, second: Run) returns (logs: Logs)
    requires first == Run([Offered], 600, true, 0, false, split, false)
    requires second == Run([JoinedToday], 600, true, 0, false, split, false)
    ensures logs == DayAfter(map[], map[], [Pass(Monday, first), Pass(Monday, second)]).0
    ensures logs ==
            map[Key(REMINDER, 1, 7, 5, 1) := Log(REMINDER, [7]), Key(REMINDER, 2, 7, 5, 1) := Log(REMINDER, [7])]
  {
    var e, f := Entry(7, REMINDER, BeforeJoining, 5, true), Entry(7, REMINDER, AfterJoining, 5, true);
    EntryOnMonday(Offered, OfferAccepted, BeforeJoining);
    EntryOnMonday(JoinedToday, Doj, AfterJoining);
    SingleRun(map[], map[], Monday, first, Offered, e);
    var after := Created(map[], KeyOf(e, 1), OwnLog(e));
    SingleRun(after, map[], Monday, second, JoinedToday, f);
    TwoPasses(map[], map[], Monday, first, second);
    logs := Created(after, KeyOf(f, 1), OwnLog(f));
  }

  lemma TwoPasses(logs: Logs, checks: Checks, day: Day, first: Run, second: Run)
    requires ChecksAfter(checks, day, first.minute, first.items) == checks
    ensures DayAfter(logs, checks, [Pass(day, first), Pass(day, second)]).0 ==
            LogsAfter(LogsAfter(logs, checks, day, first), checks, day, second)
  {
    var ops, last := [Pass(day, first), Pass(day, second)], [Pass(day, second)];
    var none: seq<Op> := [];
    assert ops[1..] == last && last[1..] == none;
    var between := LogsAfter(logs, checks, day, first);
    assert DayAfter(logs, checks, ops) == DayAfter(between, checks, last);
    var end := After(between, checks, last[0]);
    assert DayAfter(between, checks, last) == DayAfter(end.0, end.1, none);
  }
}
