/**
 Scheduled notifications that repeat: what a run of scheduler ticks, some of them failing, and
 cancellations does to one schedule. Times are seconds.
 */
module Recurrence {
  import opened Options

  const DAY := 86400
  const WEEK := 604800

  /** `Unknown` is any repeat type the scheduler has no branch for. */
  datatype Repeat = Once | Daily | Weekly | Unknown

  datatype Status = Pending | Done | Cancelled

  datatype Schedule = Schedule(repeat: Repeat, at: int, until: Option<int>, status: Status, lastSentAt: Option<int>)

  /** One notification sent: the time it was due, and when it went out. */
  datatype Firing = Firing(slot: int, now: int)

  predicate Due(s: Schedule, now: int) { s.status == Pending && s.at <= now }

  predicate Past(at: int, until: Option<int>) { until.Some? && at > until.value }

  function Moved(s: Schedule, period: nat): Schedule {
    s.(at := s.at + period, status := if Past(s.at + period, s.until) then Done else s.status)
  }

  function Fired(s: Schedule, now: int): Schedule {
    var sent := s.(lastSentAt := Some(now));
    match s.repeat
    case Once => sent.(status := Done)
    case Daily => Moved(sent, DAY)
    case Weekly => Moved(sent, WEEK)
    case Unknown => sent
  }

  class ScheduleRow {
    const repeat: Repeat
    const until: Option<int>
    var at: int
    var status: Status
    var lastSentAt: Option<int>

    constructor (repeat: Repeat, at: int, until: Option<int>)
      ensures View() == Schedule(repeat, at, until, Pending, None)
    {
      this.repeat, this.at, this.until := repeat, at, until;
      status, lastSentAt := Pending, None;
    }

    function View(): Schedule
      reads this
    {
      Schedule(repeat, at, until, status, lastSentAt)
    }

    /** The recurrence step. The in-process scheduler and the Celery task take the same one; they
        differ when it fails, where only the task rolls its session back. */
    method Fire(now: int)
      requires status == Pending
      modifies this
      ensures View() == Fired(old(View()), now)
    {
      lastSentAt := Some(now);
      if repeat == Once {
        status := Done;
      } else if repeat == Daily {
        at := at + DAY;
        if until.Some? && at > until.value {
          status := Done;
        }
      } else if repeat == Weekly {
        at := at + WEEK;
        if until.Some? && at > until.value {
          status := Done;
        }
      }
    }

    /** A schedule that is no longer pending cannot be cancelled. */
    method Cancel() returns (ok: bool)
      modifies this
      ensures ok <==> old(status) == Pending
      ensures View() == old(View()).(status := if ok then Cancelled else old(status))
    {
      ok := status == Pending;
      if ok {
        status := Cancelled;
      }
    }
  }

  ghost function Among(rows: seq<ScheduleRow>, due: set<ScheduleRow>): nat {
    if rows == [] then 0 else Among(rows[..|rows| - 1], due) + if rows[|rows| - 1] in due then 1 else 0
  }

  lemma {:induction false} AmongIsSize(rows: seq<ScheduleRow>, due: set<ScheduleRow>)
    requires forall i, j :: 0 <= i < j < |rows| ==> rows[i] != rows[j]
    requires forall r :: r in due ==> r in rows
    ensures Among(rows, due) == |due|
  {
    if rows != [] {
      var n := |rows| - 1;
      assert rows[n] !in rows[..n];
      AmongIsSize(rows[..n], due - {rows[n]});
      AmongWithout(rows[..n], due, rows[n]);
    }
  }

  lemma {:induction false} AmongWithout(rows: seq<ScheduleRow>, due: set<ScheduleRow>, r: ScheduleRow)
    requires r !in rows
    ensures Among(rows, due) == Among(rows, due - {r})
  {
    if rows != [] {
      AmongWithout(rows[..|rows| - 1], due, r);
    }
  }

  /** One pass over the schedules: each that is due fires once, however late it is, unless
      sending its notification fails, which leaves it as it was. */
  method FireScheduled(rows: seq<ScheduleRow>, now: int, fails: set<ScheduleRow>) returns (count: nat)
    requires forall i, j :: 0 <= i < j < |rows| ==> rows[i] != rows[j]
    modifies set r | r in rows
    ensures forall i :: 0 <= i < |rows| ==> rows[i].View() == After(old(rows[i].View()), Tick(now, rows[i] in fails)).0
    ensures count == |old(set r | r in rows && Due(r.View(), now) && r !in fails)|
  {
    count := 0;
    ghost var due := set r | r in rows && Due(r.View(), now) && r !in fails;
    for i := 0 to |rows|
      invariant forall j :: 0 <= j < i ==> rows[j].View() == After(old(rows[j].View()), Tick(now, rows[j] in fails)).0
      invariant forall j :: i <= j < |rows| ==> rows[j].View() == old(rows[j].View())
      invariant count == Among(rows[..i], due)
    {
      assert rows[..i + 1][..i] == rows[..i];
      if Due(rows[i].View(), now) && rows[i] !in fails {
        rows[i].Fire(now);
        count := count + 1;
      }
    }
    assert rows[..|rows|] == rows;
    AmongIsSize(rows, due);
  }

  // ----- runs -----

  datatype Event =
    | Tick(now: int, fails: bool)
    | Cancel

  function After(s: Schedule, e: Event): (Schedule, seq<Firing>) {
    match e
    case Tick(now, fails) => if Due(s, now) && !fails then (Fired(s, now), [Firing(s.at, now)]) else (s, [])
    case Cancel => (if s.status == Pending then s.(status := Cancelled) else s, [])
  }

  function Run(s: Schedule, events: seq<Event>): (Schedule, seq<Firing>) {
    if events == [] then (s, [])
    else
      var n := |events| - 1;
      var (before, firings) := Run(s, events[..n]);
      var (after, more) := After(before, events[n]);
      (after, firings + more)
  }

  function Period(repeat: Repeat): (seconds: nat)
    requires repeat.Daily? || repeat.Weekly?
    ensures seconds == if repeat.Daily? then 24 * 60 * 60 else 7 * 24 * 60 * 60
  {
    if repeat.Daily? then DAY else WEEK
  }

  /** How many times a daily or weekly schedule fires in all: at its start, whenever that is,
      and at each later occurrence no later than `until`. */
  function Occurrences(s: Schedule): (n: nat)
    requires (s.repeat.Daily? || s.repeat.Weekly?) && s.until.Some?
    ensures n >= 1
    ensures n == 1 || s.at + (n - 1) * Period(s.repeat) <= s.until.value
    ensures s.at + n * Period(s.repeat) > s.until.value
  {
    var whole := (s.until.value - s.at) / Period(s.repeat) + 1;
    if whole < 1 then 1 else whole
  }

  ghost predicate OnCalendar(s: Schedule, firings: seq<Firing>) {
    forall i :: 0 <= i < |firings| ==> SlotRight(s, i, firings[i])
  }

  /** The `i`-th firing is for the `i`-th occurrence, never early, and after the first never
      for one past the end. */
  ghost predicate SlotRight(s: Schedule, i: nat, f: Firing) {
    && f.slot <= f.now
    && ((s.repeat.Daily? || s.repeat.Weekly?) ==> f.slot == s.at + i * Period(s.repeat))
    && (i > 0 ==> !Past(f.slot, s.until) || s.repeat.Unknown?)
    && ((s.repeat.Once? || s.repeat.Unknown?) ==> f.slot == s.at)
  }

  /** The status after `n` firings without cancellation. */
  function StatusAfter(s: Schedule, n: nat): Status {
    match s.repeat
    case Once => if n > 0 then Done else Pending
    case Unknown => Pending
    case _ => if n > 0 && Past(s.at + n * Period(s.repeat), s.until) then Done else Pending
  }

  function SlotAfter(s: Schedule, n: nat): int {
    if s.repeat.Daily? || s.repeat.Weekly? then s.at + n * Period(s.repeat) else s.at
  }

  /** `now` is the schedule `s` after `firings`, cancelled or not. */
  ghost predicate Follows(s: Schedule, now: Schedule, firings: seq<Firing>) {
    && OnCalendar(s, firings)
    && now.repeat == s.repeat && now.until == s.until
    && now.at == SlotAfter(s, |firings|)
    && (now.status == StatusAfter(s, |firings|) || (now.status == Cancelled && StatusAfter(s, |firings|) == Pending))
    && now.lastSentAt == if firings == [] then s.lastSentAt else Some(firings[|firings| - 1].now)
  }

  lemma AfterFollows(s: Schedule, now: Schedule, firings: seq<Firing>, e: Event)
    requires s.status == Pending && Follows(s, now, firings)
    ensures Follows(s, After(now, e).0, firings + After(now, e).1)
  {
    var n := |firings|;
    if e.Tick? && Due(now, e.now) && !e.fails {
      var f := Firing(now.at, e.now);
      assert (firings + [f])[n] == f;
      assert SlotRight(s, n, f);
    }
    assert firings + [] == firings;
  }

  lemma {:induction false} RunFollows(s: Schedule, events: seq<Event>)
    requires s.status == Pending
    ensures Follows(s, Run(s, events).0, Run(s, events).1)
  {
    if events != [] {
      var n := |events| - 1;
      RunFollows(s, events[..n]);
      AfterFollows(s, Run(s, events[..n]).0, Run(s, events[..n]).1, events[n]);
    }
  }

  /** Over any run of ticks, failures and cancellations: the `i`-th firing of a daily or weekly
      schedule is for `start + i * period` and never early, each after the first is no later
      than `until`, and the schedule is done exactly when it has fired as often as it occurs. */
  lemma FiringsFollowTheCalendar(s: Schedule, events: seq<Event>)
    requires s.status == Pending && (s.repeat.Daily? || s.repeat.Weekly?)
    ensures var (end, firings) := Run(s, events);
            && (forall i :: 0 <= i < |firings| ==>
                  && firings[i].slot == s.at + i * Period(s.repeat)
                  && firings[i].slot <= firings[i].now
                  && (i > 0 && s.until.Some? ==> firings[i].slot <= s.until.value))
            && (s.until.Some? ==> |firings| <= Occurrences(s) && (end.status == Done <==> |firings| == Occurrences(s)))
            && (s.until.None? ==> end.status != Done)
  {
    RunFollows(s, events);
    var (end, firings) := Run(s, events);
    forall i | 0 <= i < |firings|
      ensures firings[i].slot == s.at + i * Period(s.repeat) && firings[i].slot <= firings[i].now
              && (i > 0 && s.until.Some? ==> firings[i].slot <= s.until.value)
    {
      assert SlotRight(s, i, firings[i]);
    }
    if s.until.Some? {
      if |firings| > 1 {
        assert SlotRight(s, |firings| - 1, firings[|firings| - 1]);
        DoneWhenExhausted(s, |firings| - 1);
      }
      DoneWhenExhausted(s, |firings|);
    }
  }

  lemma DoneWhenExhausted(s: Schedule, n: nat)
    requires (s.repeat.Daily? || s.repeat.Weekly?) && s.until.Some?
    ensures StatusAfter(s, n) == Done <==> n >= Occurrences(s)
    ensures n > 0 ==> (Past(SlotAfter(s, n), s.until) <==> n >= Occurrences(s))
  {
    var all, period := Occurrences(s), Period(s.repeat);
    if n >= all {
      MulMonotone(all, n, period);
    } else {
      MulMonotone(n, all - 1, period);
    }
  }

  lemma MulMonotone(a: nat, b: nat, period: nat)
    requires a <= b
    ensures a * period <= b * period
  {
  }

  ghost predicate GoodTicks(events: seq<Event>, from: int) {
    forall e :: e in events ==> e.Tick? && !e.fails && e.now >= from
  }

  /** A schedule that has fallen behind catches up one occurrence a tick, until all have been
      fired: `k` late ticks fire `min(k, occurrences)` times. */
  lemma {:induction false} LateTicksCatchUp(s: Schedule, events: seq<Event>)
    requires s.status == Pending && (s.repeat.Daily? || s.repeat.Weekly?) && s.until.Some?
    requires GoodTicks(events, s.at) && GoodTicks(events, s.until.value)
    ensures |Run(s, events).1| == if |events| <= Occurrences(s) then |events| else Occurrences(s)
    ensures Run(s, events).0.status == if |events| < Occurrences(s) then Pending else Done
  {
    FiringsFollowTheCalendar(s, events);
    RunFollows(s, events);
    if events != [] {
      var n := |events| - 1;
      var e := events[n];
      assert e in events && forall x :: x in events[..n] ==> x in events;
      LateTicksCatchUp(s, events[..n]);
      RunFollows(s, events[..n]);
      var before := Run(s, events[..n]).0;
      if n < Occurrences(s) {
        assert before.at == s.at + n * Period(s.repeat);
        assert n > 0 ==> before.at <= s.until.value;
        assert Due(before, e.now);
      }
    }
  }

  /** A one-off fires at most once, and is done exactly when it has. */
  lemma OnceFiresOnce(s: Schedule, events: seq<Event>)
    requires s.status == Pending && s.repeat.Once?
    ensures |Run(s, events).1| <= 1
    ensures Run(s, events).0.status == Done <==> |Run(s, events).1| == 1
  {
    RunFollows(s, events);
    OnceAtMost(s, events);
  }

  lemma {:induction false} OnceAtMost(s: Schedule, events: seq<Event>)
    requires s.status == Pending && s.repeat.Once?
    ensures |Run(s, events).1| <= 1
  {
    if events != [] {
      OnceAtMost(s, events[..|events| - 1]);
      RunFollows(s, events[..|events| - 1]);
    }
  }

  /** And it does fire: at the first tick at or after its time that does not fail. */
  lemma {:induction false} OnceFires(s: Schedule, events: seq<Event>)
    requires s.status == Pending && s.repeat.Once? && GoodTicks(events, s.at) && events != []
    ensures Run(s, events).0.status == Done && Run(s, events).1 == [Firing(s.at, events[0].now)]
  {
    var n := |events| - 1;
    assert events[n] in events && forall x :: x in events[..n] ==> x in events;
    var none: seq<Firing> := [];
    if n == 0 {
      assert Run(s, events[..0]) == (s, none);
      assert none + [Firing(s.at, events[0].now)] == [Firing(s.at, events[0].now)];
    } else {
      OnceFires(s, events[..n]);
      assert Run(s, events).1 == Run(s, events[..n]).1 + none;
    }
  }

  /** A schedule of an unknown repeat type never ends by itself: it fires on every tick that
      comes at or after its time. */
  lemma {:induction false} UnknownTypeFiresEveryTick(s: Schedule, events: seq<Event>)
    requires s.status == Pending && s.repeat.Unknown?
    requires GoodTicks(events, s.at)
    ensures |Run(s, events).1| == |events| && Run(s, events).0.status == Pending && Run(s, events).0.at == s.at
  {
    if events != [] {
      var n := |events| - 1;
      assert events[n] in events && forall x :: x in events[..n] ==> x in events;
      UnknownTypeFiresEveryTick(s, events[..n]);
      RunFollows(s, events[..n]);
      assert Due(Run(s, events[..n]).0, events[n].now);
      assert Run(s, events).0 == Fired(Run(s, events[..n]).0, events[n].now);
    }
  }

  /** Nothing fires after a cancellation. */
  lemma {:induction false} CancelledStaysSilent(s: Schedule, events: seq<Event>)
    requires s.status != Pending
    ensures Run(s, events) == (s, [])
  {
    var none: seq<Firing> := [];
    assert none + none == none;
    if events != [] {
      CancelledStaysSilent(s, events[..|events| - 1]);
    }
  }
}
