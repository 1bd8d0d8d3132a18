/**
 What the calendar comes to for one rule and one clawback: on which dates a rule fires, which
 clawbacks are anchored, and where their day numbers start.
 */
module FiringDays {
  import opened Options
  import opened StableSort
  import opened ClawbackRules

  const EveryDay := [0, 1, 2, 3, 4, 5, 6]

  ghost predicate Multiple(m: int, n: int) { exists k: nat :: m == k * n }

  /** The days a rule's own fields name: `day` is counted from the anchor, `d` is the date. */
  ghost predicate NamesDay(rule: RuleSpec, day: int, d: int) {
    && rule.startDay <= day && (rule.endDay.Some? ==> day <= rule.endDay.value)
    && match rule.frequency
       case EveryNDays(n) => Multiple(day - rule.startDay, if n > 1 then n else 1)
       case Weekly => Multiple(day - rule.startDay, 7)
       case SpecificDays(days) => day in days
       case Weekdays(weekdays) => Weekday(d) in weekdays
       case Once => day == rule.startDay
       case UnknownFrequency => false
  }

  lemma DueIsNamed(rule: RuleSpec, day: int, d: int)
    ensures IsRuleDue(rule, day, Weekday(d)) <==> NamesDay(rule, day, d)
  {
    RuleCadence(rule, day, Weekday(d));
    if rule.frequency.EveryNDays? || rule.frequency.Weekly? {
      var n := Step(rule.frequency);
      if k: nat :| day == rule.startDay + k * n {
        assert day - rule.startDay == k * n;
      }
      if k: nat :| day - rule.startDay == k * n {
        assert day == rule.startDay + k * n;
      }
    }
  }

  /** The clawback is on the rule's anchor and the rule, if active, names that day of it. */
  ghost predicate NamesDate(rule: RuleSpec, item: Clawback, d: int) {
    var ad := AnchorAndDay(item, d);
    ad.Some? && ad.value.0 == rule.anchor && rule.isActive && NamesDay(rule, ad.value.1, d)
  }

  lemma MatchIsNamed(rule: RuleSpec, item: Clawback, d: int)
    ensures MatchOn([rule], item, d) ==
            if NamesDate(rule, item, d) then Some(rule) else None
  {
    var ad := AnchorAndDay(item, d);
    if ad.Some? {
      MatchRuleIsBest([rule], ad.value.0, ad.value.1, Weekday(d));
      DueIsNamed(rule, ad.value.1, d);
      assert rule in [rule];
    }
  }

  lemma EveryDayIsOwnDay(rules: seq<RuleSpec>, item: Clawback, t: int)
    ensures DueRule(rules, item, t, EveryDay) == MatchOn(rules, item, t)
  {
    assert IsWorkingDay(t, EveryDay) && IsWorkingDay(t - 1, EveryDay);
    var d := DueRuleExactly(rules, item, t, EveryDay);
    assert CarriesTo(t, t, EveryDay);
    assert forall e :: CarriesTo(e, t, EveryDay) && e < t ==> !IsWorkingDay(t - 1, EveryDay);
  }

  /** With every weekday working, a table of one rule fires on a date if and only if the rule is
      active, the clawback is on the rule's anchor, and the rule names that day of it. */
  lemma RuleFiresExactly(rule: RuleSpec, item: Clawback, t: int)
    ensures DueRule([rule], item, t, EveryDay) ==
            if NamesDate(rule, item, t) then Some(rule) else None
  {
    EveryDayIsOwnDay([rule], item, t);
    MatchIsNamed(rule, item, t);
  }

  /** The clawback is on the rule's anchor and inside its window for the seven days from `t`. */
  ghost predicate WeekInside(rule: RuleSpec, item: Clawback, t: int) {
    forall d :: t <= d < t + 7 ==> InsideOn(rule, item, d)
  }

  predicate InsideOn(rule: RuleSpec, item: Clawback, d: int) {
    var ad := AnchorAndDay(item, d);
    ad.Some? && ad.value.0 == rule.anchor && rule.startDay <= ad.value.1
    && (rule.endDay.Some? ==> ad.value.1 <= rule.endDay.value)
  }

  /** Of any seven days inside its window a weekday rule fires on exactly the weekdays it names. */
  lemma WeekdayRuleFiresOnItsDays(rule: RuleSpec, weekdays: set<int>, item: Clawback, t: int, w: int)
    requires rule.frequency == Weekdays(weekdays) && rule.isActive && WeekInside(rule, item, t) && 0 <= w < 7
    ensures w in weekdays <==>
            exists d :: t <= d < t + 7 && Weekday(d) == w && DueRule([rule], item, d, EveryDay) == Some(rule)
  {
    var d := t + (w - Weekday(t)) % 7;
    assert Weekday(d) == w;
    forall x | t <= x < t + 7
      ensures DueRule([rule], item, x, EveryDay) == Some(rule) <==> Weekday(x) in weekdays
    {
      RuleFiresExactly(rule, item, x);
      assert InsideOn(rule, item, x);
      var ad := AnchorAndDay(item, x).value;
      assert NamesDay(rule, ad.1, x) <==> Weekday(x) in weekdays;
    }
  }

  /** Whatever the table and the working days: the rule handed out belongs to the table, is
      active, and names a date carried to today on its own anchor. */
  lemma FiringMeans(rules: seq<RuleSpec>, item: Clawback, t: int, workingDays: seq<int>) returns (d: int)
    requires DueRule(rules, item, t, workingDays).Some?
    ensures var r := DueRule(rules, item, t, workingDays).value;
            && r in rules && r.isActive && r.frequency != UnknownFrequency
            && CarriesTo(d, t, workingDays) && AnchorAndDay(item, d).Some? && AnchorAndDay(item, d).value.0 == r.anchor
            && NamesDay(r, AnchorAndDay(item, d).value.1, d)
  {
    d := DueRuleExactly(rules, item, t, workingDays);
    var ad := AnchorAndDay(item, d).value;
    MatchRuleIsBest(rules, ad.0, ad.1, Weekday(d));
    DueIsNamed(DueRule(rules, item, t, workingDays).value, ad.1, d);
  }

  // ----- anchors -----

  /** The date from which a clawback's cooling period is over. */
  predicate CoolingOverOn(item: Clawback, d: int) {
    if item.explicitCompletion.Some? then item.explicitCompletion.value <= d
    else item.joinedAt.Some? && item.coolingDays > 0 && item.joinedAt.value + item.coolingDays <= d
  }

  /** Which anchor a clawback is on: none once closed; the accepted offer before joining; then the
      joining date, until the cooling period is over. */
  lemma AnchorExactly(item: Clawback, d: int)
    ensures var before := item.preJoining || item.joinedAt.None?;
            var ad := AnchorAndDay(item, d);
            && (ad.Some? && ad.value.0 == OfferAccepted <==>
                  !item.closed && before && item.offerAcceptedAt.Some? && item.offerAcceptedAt.value <= d)
            && (ad.Some? && ad.value.0 == Doj <==>
                  !item.closed && !before && item.joinedAt.value <= d && !CoolingOverOn(item, d))
            && (ad.Some? && ad.value.0 == CoolingEnd <==>
                  !item.closed && !before && item.joinedAt.value <= d && CoolingOverOn(item, d))
  {
  }

  /** Day 1 is the anchor date itself, day 0 the first date of a cooling period that is over. */
  lemma FirstDayNumber(item: Clawback, d: int)
    requires AnchorAndDay(item, d).Some?
    ensures var (anchor, day) := AnchorAndDay(item, d).value;
            match anchor
            case OfferAccepted => item.offerAcceptedAt == Some(d - day + 1)
            case Doj => item.joinedAt == Some(d - day + 1)
            case CoolingEnd => CoolingOverOn(item, d - day) && !CoolingOverOn(item, d - day - 1)
  {
  }

  /** A closed clawback is never reminded of, whatever the table. */
  lemma ClosedNeverFires(rules: seq<RuleSpec>, item: Clawback, t: int, workingDays: seq<int>)
    requires item.closed
    ensures DueRule(rules, item, t, workingDays).None?
  {
    if DueRule(rules, item, t, workingDays).Some? {
      FiringImpliesAnchored(rules, item, t, workingDays);
    }
  }

  /** With no working days configured only Sunday, the day before a day that is 1 modulo 7, is
      free; otherwise exactly the days configured are worked. */
  lemma WorkingDaysExactly(d: int, workingDays: seq<int>)
    ensures workingDays == [] ==> (IsWorkingDay(d, workingDays) <==> (d + 1) % 7 != 1)
    ensures workingDays != [] ==> (IsWorkingDay(d, workingDays) <==> Weekday(d) in workingDays)
  {
    assert forall x: int :: 0 <= x < 6 ==> DEFAULT_WORKING_DAYS[x] == x;
    assert Weekday(d) < 6 ==> DEFAULT_WORKING_DAYS[Weekday(d)] in DEFAULT_WORKING_DAYS;
  }
}
