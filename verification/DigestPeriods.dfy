/**
 When a team digest is scheduled and which dates it reports on.
 */
module DigestPeriods {
  import opened ClawbackRules

  datatype DigestFrequency =
    | Daily
    | WeeklyOn(weekday: int)
    | OnWeekdays(weekdays: set<int>)
    | OtherFrequency

  predicate IsDigestDue(f: DigestFrequency, d: int) {
    match f
    case Daily => true
    case WeeklyOn(w) => Weekday(d) == w
    case OnWeekdays(ws) => Weekday(d) in ws
    case OtherFrequency => false
  }

  /** The first date a digest sent on `today` reports on. */
  method DigestPeriod(f: DigestFrequency, today: int) returns (start: int)
    ensures start == PeriodStart(f, today)
  {
    if f.WeeklyOn? {
      return today - 6;
    }
    if f.OnWeekdays? {
      for k := 1 to 8
        invariant PeriodStart(f, today) == Since(f, today, k)
      {
        if IsDigestDue(f, today - k) {
          return today - (k - 1);
        }
      }
    }
    return today;
  }

  /** The day after the latest scheduled date among today - k .. today - 7, else today. */
  function Since(f: DigestFrequency, today: int, k: nat): int
    decreases 8 - k
  {
    if k >= 8 then today
    else if IsDigestDue(f, today - k) then today - k + 1
    else Since(f, today, k + 1)
  }

  function PeriodStart(f: DigestFrequency, today: int): int {
    match f
    case WeeklyOn(_) => today - 6
    case OnWeekdays(_) => Since(f, today, 1)
    case _ => today
  }

  /** `d1` is the scheduled date just before `d2`. */
  ghost predicate Consecutive(f: DigestFrequency, d1: int, d2: int) {
    d1 < d2 && IsDigestDue(f, d1) && IsDigestDue(f, d2) && forall x :: d1 < x < d2 ==> !IsDigestDue(f, x)
  }

  /** Which dates a digest is scheduled on: every one, the one of each week on its weekday, those
      on its weekdays, or none. Day 1 is a Monday, weekday 0. */
  lemma DueDates(f: DigestFrequency, d: int)
    ensures f.Daily? ==> IsDigestDue(f, d)
    ensures f.WeeklyOn? && 0 <= f.weekday < 7 ==> (IsDigestDue(f, d) <==> exists k: int :: d == 7 * k + f.weekday + 1)
    ensures f.OnWeekdays? ==> (IsDigestDue(f, d) <==> (d - 1) % 7 in f.weekdays)
    ensures f.OtherFrequency? ==> !IsDigestDue(f, d)
  {
    assert Weekday(d) == (d - 1) % 7;
    if f.WeeklyOn? && 0 <= f.weekday < 7 && IsDigestDue(f, d) {
      assert d == 7 * ((d - 1) / 7) + f.weekday + 1;
    }
  }

  /** What a digest reports on: the seven days to today for a weekly one; for one on weekdays the
      days after the last of them before today, up to a week back; otherwise today alone. */
  lemma PeriodMeans(f: DigestFrequency, today: int)
    ensures f.WeeklyOn? ==> PeriodStart(f, today) == today - 6
    ensures f.OnWeekdays? ==>
              var start := PeriodStart(f, today);
              && today - 6 <= start <= today
              && (Weekday(start - 1) in f.weekdays || (start == today && forall x :: today - 7 <= x < today ==>
                                                         Weekday(x) !in f.weekdays))
              && forall x :: start <= x < today ==> Weekday(x) !in f.weekdays
    ensures f.Daily? || f.OtherFrequency? ==> PeriodStart(f, today) == today
  {
    if f.OnWeekdays? {
      SinceMeans(f, today, 1);
    }
  }

  lemma {:induction false} SinceMeans(f: DigestFrequency, today: int, k: nat)
    requires f.OnWeekdays? && 1 <= k <= 8
    ensures var start := Since(f, today, k);
            || (today - 6 <= start <= today - k + 1 && Weekday(start - 1) in f.weekdays
                && forall x :: start <= x < today - k + 1 ==> Weekday(x) !in f.weekdays)
            || (start == today && forall x :: today - 7 <= x < today - k + 1 ==> Weekday(x) !in f.weekdays)
    decreases 8 - k
  {
    if k < 8 && !IsDigestDue(f, today - k) {
      SinceMeans(f, today, k + 1);
    }
  }

  lemma WeekLater(f: DigestFrequency, d: int)
    ensures IsDigestDue(f, d) <==> IsDigestDue(f, d + 7)
  {
    assert Weekday(d + 7) == Weekday(d);
  }

  lemma {:induction false} SinceFindsPrevious(f: DigestFrequency, d1: int, d2: int, k: nat)
    requires 1 <= k <= d2 - d1 <= 7 && IsDigestDue(f, d1)
    requires forall x :: d1 < x < d2 ==> !IsDigestDue(f, x)
    ensures Since(f, d2, k) == d1 + 1
    decreases 8 - k
  {
    if k < d2 - d1 {
      assert !IsDigestDue(f, d2 - k);
      SinceFindsPrevious(f, d1, d2, k + 1);
    }
  }

  /** Each period starts the day after the previous digest. */
  lemma PeriodFollowsPrevious(f: DigestFrequency, d1: int, d2: int)
    requires Consecutive(f, d1, d2)
    ensures PeriodStart(f, d2) == d1 + 1
  {
    WeekLater(f, d1);
    WeekLater(f, d2 - 7);
    assert IsDigestDue(f, d1 + 7);
    assert d2 - d1 <= 7;
    match f
    case Daily =>
      assert d2 > d1 + 1 ==> !IsDigestDue(f, d1 + 1);
    case WeeklyOn(w) =>
      assert Weekday(d1) == Weekday(d2);
    case OnWeekdays(_) =>
      SinceFindsPrevious(f, d1, d2, 1);
    case OtherFrequency =>
  }

  ghost predicate Reports(f: DigestFrequency, d: int, x: int) {
    IsDigestDue(f, d) && PeriodStart(f, d) <= x <= d
  }

  lemma PreviousDigest(f: DigestFrequency, d: int) returns (p: int)
    requires IsDigestDue(f, d)
    ensures Consecutive(f, p, d) && d - 7 <= p
  {
    WeekLater(f, d - 7);
    p := d - 1;
    while !IsDigestDue(f, p)
      invariant d - 7 <= p < d
      invariant forall x :: p < x < d ==> !IsDigestDue(f, x)
      decreases p - (d - 7)
    {
      p := p - 1;
    }
  }

  lemma NextDigest(f: DigestFrequency, x: int, due: int) returns (d: int)
    requires IsDigestDue(f, due)
    ensures IsDigestDue(f, d) && x <= d < x + 7 && forall y :: x <= y < d ==> !IsDigestDue(f, y)
  {
    var bound := x + (due - x) % 7;
    assert Weekday(bound) == Weekday(due);
    d := x;
    while !IsDigestDue(f, d)
      invariant x <= d <= bound < x + 7
      invariant forall y :: x <= y < d ==> !IsDigestDue(f, y)
      decreases bound - d
    {
      d := d + 1;
    }
  }

  /** The periods of a rule that is ever scheduled tile the calendar: each date is reported
      by exactly one digest, less than a week after it. */
  lemma PeriodsTileTheCalendar(f: DigestFrequency, due: int, x: int) returns (d: int)
    requires IsDigestDue(f, due)
    ensures Reports(f, d, x) && d < x + 7
    ensures forall e :: Reports(f, e, x) ==> e == d
  {
    d := NextDigest(f, x, due);
    var p := PreviousDigest(f, d);
    PeriodFollowsPrevious(f, p, d);
    forall e | Reports(f, e, x) ensures e == d {
      var q := PreviousDigest(f, e);
      PeriodFollowsPrevious(f, q, e);
    }
  }
}
