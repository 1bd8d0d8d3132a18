/**
 The clawback reminder calendar: which rule a clawback is due on, on a given local date.

 Dates are proleptic day ordinals (day 1 is a Monday). A day name is its index in
 MON, TUE, .., SUN; any other number stands for a name the engine does not recognise.
 */
module ClawbackRules {
  import opened Options
  import opened StableSort

  datatype Anchor = OfferAccepted | Doj | CoolingEnd

  datatype Frequency =
    | EveryNDays(n: int)
    | SpecificDays(days: set<int>)
    | Weekly
    | Weekdays(weekdays: set<int>)
    | Once
    | UnknownFrequency

  /** `sendTime` is a minute of the day. */
  datatype RuleSpec = RuleSpec(
    id: Option<nat>, anchor: Anchor, startDay: int, endDay: Option<int>,
    frequency: Frequency, priority: int, isActive: bool,
    sendTime: nat, createsHealthCheck: bool)

  /** The fields of a job-service clawback item that decide its anchor. */
  datatype Clawback = Clawback(
    closed: bool, preJoining: bool, offerAcceptedAt: Option<int>, joinedAt: Option<int>,
    explicitCompletion: Option<int>, coolingDays: nat)

  const SIMULATE_MAX_DAYS := 400
  const DEFAULT_WORKING_DAYS := [0, 1, 2, 3, 4, 5]

  // ----- calendar -----

  function Weekday(d: int): (w: nat)
    ensures w < 7
  {
    (d + 6) % 7
  }

  /** An empty list falls back to the default week, MON to SAT. */
  function EffectiveWorkingDays(workingDays: seq<int>): seq<int> {
    if workingDays != [] then workingDays else DEFAULT_WORKING_DAYS
  }

  predicate IsWorkingDay(d: int, workingDays: seq<int>) {
    Weekday(d) in EffectiveWorkingDays(workingDays)
  }

  /** At least one configured working day is a real weekday. */
  ghost predicate HasWorkingWeekday(workingDays: seq<int>) {
    exists w :: 0 <= w < 7 && w in EffectiveWorkingDays(workingDays)
  }

  // ----- rules -----

  predicate InWindow(rule: RuleSpec, day: int) {
    rule.startDay <= day && (rule.endDay.None? || day <= rule.endDay.value)
  }

  predicate IsRuleDue(rule: RuleSpec, day: int, weekday: int) {
    InWindow(rule, day) &&
    match rule.frequency
    case EveryNDays(n) =>
      var step := if n <= 1 then 1 else n;
      (day - rule.startDay) % step == 0
    case SpecificDays(days) => day in days
    case Weekly => (day - rule.startDay) % 7 == 0
    case Weekdays(weekdays) => weekday in weekdays
    case Once => day == rule.startDay
    case UnknownFrequency => false
  }

  /** The days between two firings of a repeating rule. */
  function Step(f: Frequency): (n: int)
    requires f.EveryNDays? || f.Weekly?
    ensures n >= 1
  {
    if f.Weekly? then 7 else if f.n <= 1 then 1 else f.n
  }

  /** A repeating rule is due on its start day and every `Step` days after it, until its
      window closes; the start day always is, and once-rules are due on it alone. */
  lemma RuleCadence(rule: RuleSpec, day: int, weekday: int)
    ensures rule.frequency.EveryNDays? || rule.frequency.Weekly? ==>
      (IsRuleDue(rule, day, weekday) <==>
        (rule.endDay.None? || day <= rule.endDay.value)
        && exists k: nat :: day == rule.startDay + k * Step(rule.frequency))
    ensures rule.frequency.Once? ==>
      (IsRuleDue(rule, day, weekday) <==> day == rule.startDay && (rule.endDay.None? || day <= rule.endDay.value))
    ensures IsRuleDue(rule, day, weekday) ==> rule.startDay <= day
  {
    if rule.frequency.EveryNDays? || rule.frequency.Weekly? {
      var n := Step(rule.frequency);
      if rule.startDay <= day && (day - rule.startDay) % n == 0 {
        var k: nat := (day - rule.startDay) / n;
        assert day == rule.startDay + k * n;
      }
      if k: nat :| day == rule.startDay + k * n {
        MultipleHasNoRemainder(k, n);
      }
    }
  }

  lemma MultipleHasNoRemainder(k: nat, n: int)
    requires n >= 1
    ensures k * n >= 0 && (k * n) % n == 0
  {
    var q, r := (k * n) / n, (k * n) % n;
    assert k * n == q * n + r;
    assert (k - q) * n == r;
    assert k - q >= 1 ==> (k - q) * n >= n;
    assert k - q <= -1 ==> (k - q) * n <= -n;
  }

  predicate Due(rule: RuleSpec, anchor: Anchor, day: int, weekday: int) {
    rule.isActive && rule.anchor == anchor && IsRuleDue(rule, day, weekday)
  }

  function DueRules(rules: seq<RuleSpec>, anchor: Anchor, day: int, weekday: int): seq<RuleSpec> {
    if rules == [] then []
    else (if Due(rules[0], anchor, day, weekday) then [rules[0]] else []) + DueRules(rules[1..], anchor, day, weekday)
  }

  /** Highest priority first, then lowest id. */
  function RuleKey(r: RuleSpec): Key {
    Key(-r.priority, r.id.GetOr(0))
  }

  function MatchRule(rules: seq<RuleSpec>, anchor: Anchor, day: int, weekday: int): Option<RuleSpec> {
    var due := DueRules(rules, anchor, day, weekday);
    if due == [] then None else Some(Sort(RuleKey, due)[0])
  }

  lemma {:induction false} DueRulesCount(rules: seq<RuleSpec>, anchor: Anchor, day: int, weekday: int, r: RuleSpec)
    ensures multiset(DueRules(rules, anchor, day, weekday))[r] ==
            if Due(r, anchor, day, weekday) then multiset(rules)[r] else 0
  {
    if rules != [] {
      assert rules == [rules[0]] + rules[1..];
      DueRulesCount(rules[1..], anchor, day, weekday, r);
    }
  }

  lemma DueRulesMembers(rules: seq<RuleSpec>, anchor: Anchor, day: int, weekday: int)
    ensures forall r :: r in DueRules(rules, anchor, day, weekday) <==> r in rules && Due(r, anchor, day, weekday)
  {
    var due := DueRules(rules, anchor, day, weekday);
    forall r ensures r in due <==> r in rules && Due(r, anchor, day, weekday) {
      DueRulesCount(rules, anchor, day, weekday, r);
      assert r in due <==> r in multiset(due);
      assert r in rules <==> r in multiset(rules);
    }
  }

  /** Higher priority, and among equals the lower id. */
  predicate Beats(r: RuleSpec, other: RuleSpec) {
    r.priority > other.priority || (r.priority == other.priority && r.id.GetOr(0) <= other.id.GetOr(0))
  }

  /** `MatchRule` answers exactly when a rule is due, with a due rule no other due rule beats. */
  lemma MatchRuleIsBest(rules: seq<RuleSpec>, anchor: Anchor, day: int, weekday: int)
    ensures var m := MatchRule(rules, anchor, day, weekday);
      && (m.Some? <==> exists r :: r in rules && Due(r, anchor, day, weekday))
      && (m.Some? ==> m.value in rules && Due(m.value, anchor, day, weekday)
                      && forall r :: r in rules && Due(r, anchor, day, weekday) ==> Beats(m.value, r))
  {
    DueRulesMembers(rules, anchor, day, weekday);
    var due := DueRules(rules, anchor, day, weekday);
    if due != [] {
      SortIsSorted(RuleKey, due);
      var sorted := Sort(RuleKey, due);
      SameMembers(sorted, due);
      assert due[0] in due;
      assert |multiset(sorted)| == |multiset(due)|;
      assert sorted[0] in due;
      forall r | r in rules && Due(r, anchor, day, weekday) ensures Beats(sorted[0], r) {
        assert r in sorted;
        assert Leq(RuleKey(sorted[0]), RuleKey(r));
      }
    }
  }

  /** Rules are told apart by their ids. */
  ghost predicate DistinctIds(rules: seq<RuleSpec>) {
    forall r, s :: r in rules && s in rules && r.id.GetOr(0) == s.id.GetOr(0) ==> r == s
  }

  /** The matched rule does not depend on the order the rules were loaded in. */
  lemma MatchRuleIgnoresOrder(rules: seq<RuleSpec>, shuffled: seq<RuleSpec>, anchor: Anchor, day: int, weekday: int)
    requires DistinctIds(rules) && multiset(rules) == multiset(shuffled)
    ensures MatchRule(rules, anchor, day, weekday) == MatchRule(shuffled, anchor, day, weekday)
  {
    var due, due' := DueRules(rules, anchor, day, weekday), DueRules(shuffled, anchor, day, weekday);
    forall r ensures multiset(due)[r] == multiset(due')[r] {
      DueRulesCount(rules, anchor, day, weekday, r);
      DueRulesCount(shuffled, anchor, day, weekday, r);
    }
    assert multiset(due) == multiset(due');
    assert |due| == |multiset(due)| == |due'|;
    DueRulesMembers(rules, anchor, day, weekday);
    SortIgnoresInputOrder(RuleKey, due, due');
  }

  // ----- item to anchor and day -----

  function CompletionDate(item: Clawback): Option<int> {
    if item.explicitCompletion.Some? then item.explicitCompletion
    else if item.joinedAt.Some? && item.coolingDays > 0 then Some(item.joinedAt.value + item.coolingDays)
    else None
  }

  function AnchorAndDay(item: Clawback, today: int): Option<(Anchor, int)> {
    if item.closed then None
    else if item.preJoining || item.joinedAt.None? then
      if item.offerAcceptedAt.None? || today < item.offerAcceptedAt.value then None
      else Some((OfferAccepted, today - item.offerAcceptedAt.value + 1))
    else if today < item.joinedAt.value then None
    else
      var comp := CompletionDate(item);
      if comp.Some? && today >= comp.value then Some((CoolingEnd, today - comp.value))
      else Some((Doj, today - item.joinedAt.value + 1))
  }

  /** An anchored item stays anchored, and its day number starts at 1, or at 0 on the
      completion date, and grows by one each day until completion resets it to 0. */
  lemma AnchorProgress(item: Clawback, d: int)
    ensures AnchorAndDay(item, d).Some? ==> AnchorAndDay(item, d + 1).Some?
    ensures AnchorAndDay(item, d).Some? && AnchorAndDay(item, d).value.0 == AnchorAndDay(item, d + 1).value.0
            ==> AnchorAndDay(item, d + 1).value.1 == AnchorAndDay(item, d).value.1 + 1
    ensures AnchorAndDay(item, d).Some? && AnchorAndDay(item, d).value.0 != AnchorAndDay(item, d + 1).value.0
            ==> CompletionDate(item) == Some(d + 1) && AnchorAndDay(item, d + 1).value == (CoolingEnd, 0)
    ensures AnchorAndDay(item, d).None? && AnchorAndDay(item, d + 1).Some?
            && AnchorAndDay(item, d + 1).value.0 != CoolingEnd
            ==> AnchorAndDay(item, d + 1).value.1 == 1
  {
  }

  lemma {:induction false} AnchoredFromThenOn(item: Clawback, d: int, e: int)
    requires d <= e && AnchorAndDay(item, d).Some?
    ensures AnchorAndDay(item, e).Some?
    decreases e - d
  {
    if d < e {
      AnchorProgress(item, d);
      AnchoredFromThenOn(item, d + 1, e);
    }
  }

  /** The rule whose schedule names date `d` itself, before any move off a non-working day. */
  function MatchOn(rules: seq<RuleSpec>, item: Clawback, d: int): Option<RuleSpec> {
    match AnchorAndDay(item, d)
    case None => None
    case Some(ad) => MatchRule(rules, ad.0, ad.1, Weekday(d))
  }

  /** On its own date a doj rule never fires on or after the completion date, and only
      cooling_end rules do. */
  lemma OwnDateMatchRespectsCompletion(rules: seq<RuleSpec>, item: Clawback, d: int)
    requires MatchOn(rules, item, d).Some?
    ensures MatchOn(rules, item, d).value.anchor == Doj ==>
              CompletionDate(item).None? || d < CompletionDate(item).value
    ensures MatchOn(rules, item, d).value.anchor == CoolingEnd ==>
              CompletionDate(item).Some? && d >= CompletionDate(item).value
  {
    var ad := AnchorAndDay(item, d).value;
    MatchRuleIsBest(rules, ad.0, ad.1, Weekday(d));
  }

  // ----- moving off non-working days -----

  /** `t` is the first working day at or after `d`. */
  ghost predicate CarriesTo(d: int, t: int, workingDays: seq<int>) {
    IsWorkingDay(t, workingDays) && d <= t && forall x :: d <= x < t ==> !IsWorkingDay(x, workingDays)
  }

  /** With a working weekday, every date is carried to a working day less than a week later. */
  lemma FirstWorkingDay(d: int, workingDays: seq<int>) returns (t: int)
    requires HasWorkingWeekday(workingDays)
    ensures CarriesTo(d, t, workingDays) && t < d + 7
  {
    var w :| 0 <= w < 7 && w in EffectiveWorkingDays(workingDays);
    var bound := d + (w - Weekday(d)) % 7;
    assert Weekday(bound) == w;
    t := d;
    while !IsWorkingDay(t, workingDays)
      invariant d <= t <= bound < d + 7
      invariant forall x :: d <= x < t ==> !IsWorkingDay(x, workingDays)
      decreases bound - t
    {
      t := t + 1;
    }
  }

  /** The earliest date carried to `t`, looking back at most `k` days. */
  function WindowStart(t: int, k: nat, workingDays: seq<int>): (d: int)
    ensures t - k <= d <= t
    ensures forall x :: d <= x < t ==> !IsWorkingDay(x, workingDays)
    ensures d == t - k || IsWorkingDay(d - 1, workingDays)
    decreases k
  {
    if k == 0 || IsWorkingDay(t - 1, workingDays) then t else WindowStart(t - 1, k - 1, workingDays)
  }

  /** Seven dates are enough for every set of working weekdays. */
  lemma WindowIsCarry(t: int, d: int, workingDays: seq<int>)
    requires IsWorkingDay(t, workingDays)
    ensures WindowStart(t, 6, workingDays) <= d <= t <==> CarriesTo(d, t, workingDays)
  {
    var s := WindowStart(t, 6, workingDays);
    if d < s {
      assert Weekday(t - 7) == Weekday(t);
      assert IsWorkingDay(s - 1, workingDays);
    }
  }

  /** The answer on the latest date in lo..hi that has one. */
  function Latest<T>(f: int -> Option<T>, lo: int, hi: int): Option<T>
    decreases hi - lo
  {
    if hi < lo then None
    else if f(hi).Some? then f(hi)
    else Latest(f, lo, hi - 1)
  }

  lemma {:induction false} LatestIs<T>(f: int -> Option<T>, lo: int, hi: int) returns (d: int)
    ensures Latest(f, lo, hi).None? ==> forall e :: lo <= e <= hi ==> f(e).None?
    ensures Latest(f, lo, hi).Some? ==>
              lo <= d <= hi && f(d) == Latest(f, lo, hi) && forall e :: d < e <= hi ==> f(e).None?
    decreases hi - lo
  {
    d := hi;
    if lo <= hi && f(hi).None? {
      d := LatestIs(f, lo, hi - 1);
    }
  }

  /** The schedule of an item: the rule matched on each date. */
  function Schedule(rules: seq<RuleSpec>, item: Clawback): int -> Option<RuleSpec> {
    d => MatchOn(rules, item, d)
  }

  function DueRule(rules: seq<RuleSpec>, item: Clawback, today: int, workingDays: seq<int>): Option<RuleSpec> {
    if !IsWorkingDay(today, workingDays) then None
    else Latest(Schedule(rules, item), WindowStart(today, 6, workingDays), today)
  }

  /** Stepping back, a working day is met just before the earliest date carried to today. */
  lemma StepBack(today: int, d: int, workingDays: seq<int>)
    requires IsWorkingDay(today, workingDays) && WindowStart(today, 6, workingDays) <= d <= today
    ensures IsWorkingDay(d - 1, workingDays) <==> d == WindowStart(today, 6, workingDays)
  {
    assert Weekday(today - 7) == Weekday(today);
  }

  /** Steps back from today over the non-working days just before it. */
  method RuleDue(rules: seq<RuleSpec>, item: Clawback, today: int, workingDays: seq<int>)
    returns (due: Option<RuleSpec>)
    ensures due == DueRule(rules, item, today, workingDays)
  {
    if !IsWorkingDay(today, workingDays) {
      return None;
    }
    ghost var start := WindowStart(today, 6, workingDays);
    var d := today;
    for k := 0 to 7
      invariant d == today - k
      invariant k < 7 ==> start <= d
      invariant k == 7 ==> start == d + 1
      invariant DueRule(rules, item, today, workingDays) == Latest(Schedule(rules, item), start, d)
    {
      due := MatchOn(rules, item, d);
      assert Schedule(rules, item)(d) == due;
      if due.Some? {
        return;
      }
      StepBack(today, d, workingDays);
      d := d - 1;
      if IsWorkingDay(d, workingDays) {
        return None;
      }
    }
    return None;
  }

  /** On a working day the due rule is the match on the latest date carried to that day;
      on any other day there is none. */
  lemma DueRuleExactly(rules: seq<RuleSpec>, item: Clawback, t: int, workingDays: seq<int>) returns (d: int)
    ensures var due := DueRule(rules, item, t, workingDays);
      && (due.None? <==> forall e :: CarriesTo(e, t, workingDays) ==> MatchOn(rules, item, e).None?)
      && (due.Some? ==> CarriesTo(d, t, workingDays) && MatchOn(rules, item, d) == due
                        && forall e :: d < e <= t ==> MatchOn(rules, item, e).None?)
  {
    d := t;
    if IsWorkingDay(t, workingDays) {
      forall e ensures WindowStart(t, 6, workingDays) <= e <= t <==> CarriesTo(e, t, workingDays) {
        WindowIsCarry(t, e, workingDays);
      }
      d := LatestIs(Schedule(rules, item), WindowStart(t, 6, workingDays), t);
    }
    assert forall e :: Schedule(rules, item)(e) == MatchOn(rules, item, e);
  }

  /** Each matched date leads to a firing on the first working day at or after it, within the
      week. Of several matched dates carried to one day the last one's rule fires; so the rule
      matched on `d` does exactly when the last of them matches that same rule. */
  lemma EveryMatchIsCovered(rules: seq<RuleSpec>, item: Clawback, d: int, workingDays: seq<int>)
    returns (t: int, last: int)
    requires HasWorkingWeekday(workingDays) && MatchOn(rules, item, d).Some?
    ensures CarriesTo(d, t, workingDays) && t < d + 7
    ensures DueRule(rules, item, t, workingDays).Some?
    ensures d <= last && CarriesTo(last, t, workingDays)
    ensures DueRule(rules, item, t, workingDays) == MatchOn(rules, item, last)
    ensures last == d <==> forall e :: d < e && CarriesTo(e, t, workingDays) ==> MatchOn(rules, item, e).None?
    ensures forall e :: last < e && CarriesTo(e, t, workingDays) ==> MatchOn(rules, item, e).None?
    ensures DueRule(rules, item, t, workingDays) == MatchOn(rules, item, d) <==>
            last == d || MatchOn(rules, item, last) == MatchOn(rules, item, d)
  {
    t := FirstWorkingDay(d, workingDays);
    last := DueRuleExactly(rules, item, t, workingDays);
  }

  lemma FiringImpliesAnchored(rules: seq<RuleSpec>, item: Clawback, t: int, workingDays: seq<int>)
    requires DueRule(rules, item, t, workingDays).Some?
    ensures AnchorAndDay(item, t).Some?
  {
    var d := DueRuleExactly(rules, item, t, workingDays);
    AnchoredFromThenOn(item, d, t);
  }

  // ----- doj rules after completion -----

  const EveryDojDay := RuleSpec(Some(1), Doj, 1, None, EveryNDays(1), 0, true, 600, true)

  /** The moved schedule can hand out a doj rule on or after completion: completion on a
      Monday, the Sunday before it carried to that Monday. */
  lemma CarryCanBreakCompletion()
    ensures var item := Clawback(false, false, None, Some(1), Some(8), 0);
            Weekday(8) == 0 && !IsWorkingDay(7, [0]) && IsWorkingDay(8, [0])
            && CompletionDate(item) == Some(8)
            && DueRule([EveryDojDay.(frequency := SpecificDays({7}))], item, 8, [0]) ==
               Some(EveryDojDay.(frequency := SpecificDays({7})))
  {
    var rule := EveryDojDay.(frequency := SpecificDays({7}));
    var item := Clawback(false, false, None, Some(1), Some(8), 0);
    MatchRuleIsBest([rule], CoolingEnd, 0, 0);
    MatchRuleIsBest([rule], Doj, 7, 6);
    assert Due(rule, Doj, 7, 6);
    assert MatchOn([rule], item, 8).None?;
    assert rule in [rule];
    assert MatchOn([rule], item, 7) == Some(rule);
    var schedule := Schedule([rule], item);
    assert schedule(8) == None && schedule(7) == Some(rule);
    assert Latest(schedule, WindowStart(8, 6, [0]), 8) == Latest(schedule, WindowStart(8, 6, [0]), 7);
  }

  /** A working day on or after completion is safe from doj rules, whatever the rule table,
      exactly when the day before completion is not a joined day carried to it. */
  lemma DojAfterCompletionExactly(item: Clawback, t: int, workingDays: seq<int>)
    requires !item.closed && !item.preJoining && item.joinedAt.Some? && CompletionDate(item).Some?
    requires IsWorkingDay(t, workingDays) && CompletionDate(item).value <= t
    ensures (exists rules :: DueRule(rules, item, t, workingDays).Some?
                             && DueRule(rules, item, t, workingDays).value.anchor == Doj)
            <==> item.joinedAt.value < CompletionDate(item).value
                 && CarriesTo(CompletionDate(item).value - 1, t, workingDays)
  {
    var comp, joined := CompletionDate(item).value, item.joinedAt.value;
    if rules :| DueRule(rules, item, t, workingDays).Some? && DueRule(rules, item, t, workingDays).value.anchor == Doj {
      var due := DueRule(rules, item, t, workingDays);
      var d := DueRuleExactly(rules, item, t, workingDays);
      OwnDateMatchRespectsCompletion(rules, item, d);
      assert joined <= d <= comp - 1;
    }
    if joined < comp && CarriesTo(comp - 1, t, workingDays) {
      var rules := [EveryDojDay];
      DojTableMatches(item, comp, t);
      var d := DueRuleExactly(rules, item, t, workingDays);
      assert MatchOn(rules, item, comp - 1).Some?;
      assert MatchOn(rules, item, d).Some?;
    }
  }

  lemma MatchKeepsAnchor(rules: seq<RuleSpec>, item: Clawback, d: int)
    requires MatchOn(rules, item, d).Some?
    ensures AnchorAndDay(item, d).Some? && MatchOn(rules, item, d).value.anchor == AnchorAndDay(item, d).value.0
  {
    var ad := AnchorAndDay(item, d).value;
    MatchRuleIsBest(rules, ad.0, ad.1, Weekday(d));
  }

  /** For a given rule table a doj rule is due then exactly when some joined date before
      completion that is carried to `t` matches and no date from completion on does. */
  lemma DojDueAfterCompletionExactly(rules: seq<RuleSpec>, item: Clawback, t: int, workingDays: seq<int>)
    requires !item.closed && !item.preJoining && item.joinedAt.Some? && CompletionDate(item).Some?
    requires IsWorkingDay(t, workingDays) && CompletionDate(item).value <= t
    ensures (DueRule(rules, item, t, workingDays).Some?
             && DueRule(rules, item, t, workingDays).value.anchor == Doj) <==>
            && (exists d :: item.joinedAt.value <= d < CompletionDate(item).value
                            && CarriesTo(d, t, workingDays) && MatchOn(rules, item, d).Some?)
            && (forall d :: CompletionDate(item).value <= d <= t ==> MatchOn(rules, item, d).None?)
  {
    var comp := CompletionDate(item).value;
    var due := DueRule(rules, item, t, workingDays);
    var last := DueRuleExactly(rules, item, t, workingDays);
    if due.Some? {
      MatchKeepsAnchor(rules, item, last);
      assert due.value.anchor == Doj <==> last < comp;
      assert last >= comp ==> MatchOn(rules, item, last).Some?;
    }
  }

  lemma DojTableMatches(item: Clawback, comp: int, t: int)
    requires !item.closed && !item.preJoining && item.joinedAt.Some? && CompletionDate(item) == Some(comp)
    requires item.joinedAt.value < comp
    ensures MatchOn([EveryDojDay], item, comp - 1) == Some(EveryDojDay)
    ensures forall d :: MatchOn([EveryDojDay], item, d).Some? ==> MatchOn([EveryDojDay], item, d) == Some(EveryDojDay)
  {
    assert EveryDojDay in [EveryDojDay];
    var day := comp - 1 - item.joinedAt.value + 1;
    MatchRuleIsBest([EveryDojDay], Doj, day, Weekday(comp - 1));
    assert Due(EveryDojDay, Doj, day, Weekday(comp - 1));
    forall d | MatchOn([EveryDojDay], item, d).Some? ensures MatchOn([EveryDojDay], item, d) == Some(EveryDojDay) {
      var ad := AnchorAndDay(item, d).value;
      MatchRuleIsBest([EveryDojDay], ad.0, ad.1, Weekday(d));
    }
  }

  // ----- projection -----

  datatype Event = Event(date: int, anchor: Anchor, dayNumber: int, rule: RuleSpec)

  /** What the projection asks on one date: the carried rule, or with no working days given
      the rule of the date itself. */
  function Fires(rules: seq<RuleSpec>, item: Clawback, d: int, workingDays: seq<int>): Option<RuleSpec> {
    if workingDays != [] then DueRule(rules, item, d, workingDays) else MatchOn(rules, item, d)
  }

  function Horizon(days: int): nat {
    if days < 0 then 0 else if days < SIMULATE_MAX_DAYS then days else SIMULATE_MAX_DAYS
  }

  /** The event of each date, if there is one. */
  function EventOn(rules: seq<RuleSpec>, item: Clawback, workingDays: seq<int>): int -> Option<Event> {
    (d: int) =>
      var ad, rule := AnchorAndDay(item, d), Fires(rules, item, d, workingDays);
      if ad.Some? && rule.Some? then Some(Event(d, ad.value.0, ad.value.1, rule.value)) else None
  }

  /** `events` are those of the first `n` dates, in order. */
  ghost predicate Projected(on: int -> Option<Event>, start: int, n: nat, events: seq<Event>) {
    && (forall i, j :: 0 <= i < j < |events| ==> events[i].date < events[j].date)
    && (forall e :: e in events ==> start <= e.date < start + n && on(e.date) == Some(e))
    && (forall d :: start <= d < start + n && on(d).Some? ==> on(d).value in events)
  }

  lemma ProjectStep(on: int -> Option<Event>, start: int, n: nat, events: seq<Event>)
    requires Projected(on, start, n, events)
    requires on(start + n).Some? ==> on(start + n).value.date == start + n
    ensures Projected(on, start, n + 1, if on(start + n).Some? then events + [on(start + n).value] else events)
  {
  }

  lemma EventOnAnchored(rules: seq<RuleSpec>, item: Clawback, d: int, workingDays: seq<int>)
    ensures Fires(rules, item, d, workingDays).Some? ==> EventOn(rules, item, workingDays)(d).Some?
  {
    if workingDays != [] && Fires(rules, item, d, workingDays).Some? {
      FiringImpliesAnchored(rules, item, d, workingDays);
    }
  }

  /** Lists exactly the firings of the next `days` days, 400 at most, in increasing date order:
      with working days given those the engine carries, without the rules' own dates. */
  method ProjectSchedule(rules: seq<RuleSpec>, item: Clawback, start: int, days: int, workingDays: seq<int>)
    returns (events: seq<Event>)
    ensures forall i, j :: 0 <= i < j < |events| ==> events[i].date < events[j].date
    ensures forall e :: e in events ==> start <= e.date < start + days && e.date < start + 400
    ensures forall e :: e in events ==>
              && AnchorAndDay(item, e.date) == Some((e.anchor, e.dayNumber))
              && Some(e.rule) == if workingDays == [] then MatchOn(rules, item, e.date)
                                 else DueRule(rules, item, e.date, workingDays)
    ensures forall d :: start <= d < start + days && d < start + 400
                        && (if workingDays == [] then MatchOn(rules, item, d).Some?
                            else DueRule(rules, item, d, workingDays).Some?) ==>
              exists e :: e in events && e.date == d
  {
    events := ListEvents(rules, item, start, Horizon(days), workingDays);
    ProjectedExactly(rules, item, start, days, workingDays, events);
  }

  method ListEvents(rules: seq<RuleSpec>, item: Clawback, start: int, n: nat, workingDays: seq<int>)
    returns (events: seq<Event>)
    ensures Projected(EventOn(rules, item, workingDays), start, n, events)
  {
    events := [];
    for i := 0 to n
      invariant Projected(EventOn(rules, item, workingDays), start, i, events)
    {
      var event := FiringOn(rules, item, start + i, workingDays);
      ListStep(rules, item, start, i, workingDays, events, event);
      if event.Some? {
        events := events + [event.value];
      }
    }
  }

  lemma ListStep(rules: seq<RuleSpec>, item: Clawback, start: int, n: nat, workingDays: seq<int>, events: seq<Event>,
                 event: Option<Event>)
    requires Projected(EventOn(rules, item, workingDays), start, n, events)
    requires event == EventOn(rules, item, workingDays)(start + n)
    ensures Projected(EventOn(rules, item, workingDays), start, n + 1,
                      if event.Some? then events + [event.value] else events)
  {
    EventOnItsDate(rules, item, start + n, workingDays);
    ProjectStep(EventOn(rules, item, workingDays), start, n, events);
  }

  lemma EventOnItsDate(rules: seq<RuleSpec>, item: Clawback, d: int, workingDays: seq<int>)
    ensures EventOn(rules, item, workingDays)(d).Some? ==> EventOn(rules, item, workingDays)(d).value.date == d
  {
  }

  /** One date of the projection. */
  method FiringOn(rules: seq<RuleSpec>, item: Clawback, d: int, workingDays: seq<int>) returns (event: Option<Event>)
    ensures event == EventOn(rules, item, workingDays)(d)
  {
    var ad := AnchorAndDay(item, d);
    if ad.None? {
      return None;
    }
    var rule;
    if workingDays != [] {
      rule := RuleDue(rules, item, d, workingDays);
    } else {
      rule := MatchRule(rules, ad.value.0, ad.value.1, Weekday(d));
    }
    event := if rule.Some? then Some(Event(d, ad.value.0, ad.value.1, rule.value)) else None;
  }

  lemma ProjectedExactly(rules: seq<RuleSpec>, item: Clawback, start: int, days: int, workingDays: seq<int>,
                         events: seq<Event>)
    requires Projected(EventOn(rules, item, workingDays), start, Horizon(days), events)
    ensures forall e :: e in events ==> start <= e.date < start + days && e.date < start + 400
    ensures forall e :: e in events ==>
              && AnchorAndDay(item, e.date) == Some((e.anchor, e.dayNumber))
              && Some(e.rule) == if workingDays == [] then MatchOn(rules, item, e.date)
                                 else DueRule(rules, item, e.date, workingDays)
    ensures forall d :: start <= d < start + days && d < start + 400
                        && (if workingDays == [] then MatchOn(rules, item, d).Some?
                            else DueRule(rules, item, d, workingDays).Some?) ==>
              exists e :: e in events && e.date == d
  {
    var on := EventOn(rules, item, workingDays);
    forall d | start <= d < start + days && d < start + 400
               && (if workingDays == [] then MatchOn(rules, item, d).Some?
                   else DueRule(rules, item, d, workingDays).Some?)
      ensures exists e :: e in events && e.date == d
    {
      EventOnAnchored(rules, item, d, workingDays);
      EventOnItsDate(rules, item, d, workingDays);
      assert d < start + Horizon(days);
      assert on(d).value in events;
    }
  }
}
