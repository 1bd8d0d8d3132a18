/**
 The totals a digest reports for a scope of recruiters.
 */
module DigestAggregate {
  import opened Options
  import opened ClawbackRules
  import opened ReminderRun
  import opened FiringDays

  const ENDING_SOON_DAYS := 7

  datatype Outcome = Engaged | AtRisk | NotReachable | Dropped

  datatype Check = Check(id: nat, recruiter: Option<nat>, dueDate: int, status: CheckStatus, outcome: Option<Outcome>)

  /** What the report is about. `scope` is None for everyone; labels enter as a
      function of the item. */
  datatype Query = Query(scope: Option<set<nat>>, today: int, periodStart: int, stageOf: Item -> string)

  predicate InScope(scope: Option<set<nat>>, uid: Option<nat>) {
    scope.None? || (uid.Some? && uid.value in scope.value)
  }

  function RecruiterOf(i: Item): Option<nat> {
    if i.recruiter == 0 then None else Some(i.recruiter)
  }

  // ----- what is counted -----

  datatype ItemTally = Active | EndingSoon | FinalPending | InStage(stage: string)

  predicate ItemCounts(q: Query, k: ItemTally, i: Item) {
    var comp := CompletionDate(i.clawback);
    var ends := comp.Some? && i.clawback.joinedAt.Some?;
    && InScope(q.scope, RecruiterOf(i))
    && match k
       case Active => true
       case EndingSoon => ends && q.today < comp.value <= q.today + ENDING_SOON_DAYS
       case FinalPending => ends && comp.value <= q.today
       case InStage(stage) => q.stageOf(i) == stage
  }

  datatype CheckTally =
    | AllDue
    | WithStatus(status: CheckStatus)
    | WithOutcome(outcome: Outcome)
    | Unassigned
    | OfRecruiter(uid: nat)
    | OfRecruiterWith(uid: nat, status: CheckStatus)

  /** Checks due in the period and not cancelled. */
  predicate InPeriod(q: Query, c: Check) {
    InScope(q.scope, c.recruiter) && q.periodStart <= c.dueDate <= q.today && c.status != Cancelled
  }

  predicate CheckCounts(q: Query, k: CheckTally, c: Check) {
    && InPeriod(q, c)
    && match k
       case AllDue => true
       case WithStatus(st) => c.status == st
       case WithOutcome(o) => c.outcome == Some(o)
       case Unassigned => c.recruiter.None?
       case OfRecruiter(uid) => c.recruiter == Some(uid)
       case OfRecruiterWith(uid, st) => c.recruiter == Some(uid) && c.status == st
  }

  function CountItems(q: Query, k: ItemTally, items: seq<Item>): nat {
    if items == [] then 0
    else CountItems(q, k, items[..|items| - 1]) + if ItemCounts(q, k, items[|items| - 1]) then 1 else 0
  }

  function CountChecks(q: Query, k: CheckTally, checks: seq<Check>): nat {
    if checks == [] then 0
    else CountChecks(q, k, checks[..|checks| - 1]) + if CheckCounts(q, k, checks[|checks| - 1]) then 1 else 0
  }

  // ----- the report -----

  datatype PerRecruiter = PerRecruiter(due: nat, done: nat, missed: nat)

  datatype Report = Report(
    active: nat, endingSoon: nat, finalPending: nat, byStage: map<string, nat>,
    due: nat, done: nat, missed: nat, atRisk: nat, notReachable: nat, dropped: nat,
    recruiters: map<nat, PerRecruiter>, atRiskCheckIds: seq<nat>)

  const EMPTY := Report(0, 0, 0, map[], 0, 0, 0, 0, 0, 0, map[], [])

  function StageCount(r: Report, stage: string): nat {
    if stage in r.byStage then r.byStage[stage] else 0
  }

  function RecruiterCounts(r: Report, uid: nat): PerRecruiter {
    if uid in r.recruiters then r.recruiters[uid] else PerRecruiter(0, 0, 0)
  }

  predicate IsAtRisk(c: Check) { c.outcome in {Some(AtRisk), Some(NotReachable), Some(Dropped)} }

  function AtRiskIds(q: Query, checks: seq<Check>): seq<nat> {
    if checks == [] then []
    else
      var c := checks[|checks| - 1];
      AtRiskIds(q, checks[..|checks| - 1]) + if InPeriod(q, c) && IsAtRisk(c) then [c.id] else []
  }

  ghost predicate ItemsTallied(q: Query, items: seq<Item>, r: Report) {
    && r.active == CountItems(q, Active, items)
    && r.endingSoon == CountItems(q, EndingSoon, items)
    && r.finalPending == CountItems(q, FinalPending, items)
    && (forall stage :: StageCount(r, stage) == CountItems(q, InStage(stage), items))
    && (forall stage :: stage in r.byStage ==> r.byStage[stage] > 0)
  }

  ghost predicate TotalsTallied(q: Query, checks: seq<Check>, r: Report) {
    && r.due == CountChecks(q, AllDue, checks)
    && r.done == CountChecks(q, WithStatus(Done), checks)
    && r.missed == CountChecks(q, WithStatus(Missed), checks)
    && r.atRisk == CountChecks(q, WithOutcome(AtRisk), checks)
    && r.notReachable == CountChecks(q, WithOutcome(NotReachable), checks)
    && r.dropped == CountChecks(q, WithOutcome(Dropped), checks)
    && r.atRiskCheckIds == AtRiskIds(q, checks)
  }

  function RecruiterTally(q: Query, checks: seq<Check>, uid: nat): PerRecruiter {
    PerRecruiter(CountChecks(q, OfRecruiter(uid), checks),
                 CountChecks(q, OfRecruiterWith(uid, Done), checks),
                 CountChecks(q, OfRecruiterWith(uid, Missed), checks))
  }

  ghost predicate ChecksTallied(q: Query, checks: seq<Check>, r: Report) {
    TotalsTallied(q, checks, r) && forall uid :: RecruiterCounts(r, uid) == RecruiterTally(q, checks, uid)
  }

  /** Every figure of the report is the count of its items or checks in scope. */
  method Aggregate(q: Query, items: seq<Item>, checks: seq<Check>) returns (r: Report)
    ensures ItemsTallied(q, items, r) && ChecksTallied(q, checks, r)
  {
    r := EMPTY;
    for n := 0 to |items|
      invariant ItemsTallied(q, items[..n], r)
      invariant ChecksTallied(q, [], r)
    {
      r := CountItem(q, items[..n], items[n], r);
      assert items[..n + 1] == items[..n] + [items[n]];
    }
    assert items[..|items|] == items;
    for n := 0 to |checks|
      invariant ItemsTallied(q, items, r)
      invariant ChecksTallied(q, checks[..n], r)
    {
      r := CountCheck(q, items, checks[..n], checks[n], r);
      assert checks[..n + 1] == checks[..n] + [checks[n]];
    }
    assert checks[..|checks|] == checks;
  }

  lemma CountItemStep(q: Query, k: ItemTally, head: seq<Item>, i: Item)
    ensures CountItems(q, k, head + [i]) == CountItems(q, k, head) + if ItemCounts(q, k, i) then 1 else 0
  {
    assert (head + [i])[..|head|] == head;
  }

  lemma CountCheckStep(q: Query, k: CheckTally, head: seq<Check>, c: Check)
    ensures CountChecks(q, k, head + [c]) == CountChecks(q, k, head) + if CheckCounts(q, k, c) then 1 else 0
  {
    assert (head + [c])[..|head|] == head;
  }

  method CountItem(q: Query, ghost head: seq<Item>, i: Item, before: Report) returns (r: Report)
    requires ItemsTallied(q, head, before) && ChecksTallied(q, [], before)
    ensures ItemsTallied(q, head + [i], r) && ChecksTallied(q, [], r)
  {
    forall k ensures CountItems(q, k, head + [i]) == CountItems(q, k, head) + if ItemCounts(q, k, i) then 1 else 0 {
      CountItemStep(q, k, head, i);
    }
    r := before;
    if InScope(q.scope, RecruiterOf(i)) {
      var stage := q.stageOf(i);
      r := r.(active := r.active + 1, byStage := r.byStage[stage := StageCount(r, stage) + 1]);
      var comp := CompletionDate(i.clawback);
      if comp.Some? && i.clawback.joinedAt.Some? {
        if q.today >= comp.value {
          r := r.(finalPending := r.finalPending + 1);
        } else if comp.value <= q.today + ENDING_SOON_DAYS {
          r := r.(endingSoon := r.endingSoon + 1);
        }
      }
      assert forall l :: StageCount(r, l) == StageCount(before, l) + if l == stage then 1 else 0;
    }
    assert forall uid :: RecruiterCounts(r, uid) == RecruiterCounts(before, uid);
  }

  method CountTotals(q: Query, ghost head: seq<Check>, c: Check, before: Report) returns (r: Report)
    requires TotalsTallied(q, head, before)
    ensures TotalsTallied(q, head + [c], r)
    ensures r.recruiters == before.recruiters && r.byStage == before.byStage
    ensures r.active == before.active && r.endingSoon == before.endingSoon && r.finalPending == before.finalPending
  {
    forall k ensures CountChecks(q, k, head + [c]) == CountChecks(q, k, head) + if CheckCounts(q, k, c) then 1 else 0 {
      CountCheckStep(q, k, head, c);
    }
    assert (head + [c])[..|head|] == head;
    r := before;
    if InPeriod(q, c) {
      r := r.(due := r.due + 1,
              done := r.done + (if c.status == Done then 1 else 0),
              missed := r.missed + (if c.status == Missed then 1 else 0),
              atRisk := r.atRisk + (if c.outcome == Some(AtRisk) then 1 else 0),
              notReachable := r.notReachable + (if c.outcome == Some(NotReachable) then 1 else 0),
              dropped := r.dropped + (if c.outcome == Some(Dropped) then 1 else 0),
              atRiskCheckIds := r.atRiskCheckIds + if IsAtRisk(c) then [c.id] else []);
    }
  }

  method CountRecruiter(q: Query, ghost head: seq<Check>, c: Check, before: map<nat, PerRecruiter>)
    returns (after: map<nat, PerRecruiter>)
    requires forall uid ::
               (if uid in before then before[uid] else PerRecruiter(0, 0, 0)) == RecruiterTally(q, head, uid)
    ensures forall uid ::
              (if uid in after then after[uid] else PerRecruiter(0, 0, 0)) == RecruiterTally(q, head + [c], uid)
  {
    forall k ensures CountChecks(q, k, head + [c]) == CountChecks(q, k, head) + if CheckCounts(q, k, c) then 1 else 0 {
      CountCheckStep(q, k, head, c);
    }
    after := before;
    if InPeriod(q, c) && c.recruiter.Some? {
      var uid := c.recruiter.value;
      var p := if uid in before then before[uid] else PerRecruiter(0, 0, 0);
      after := before[uid := PerRecruiter(p.due + 1, p.done + (if c.status == Done then 1 else 0),
                                          p.missed + (if c.status == Missed then 1 else 0))];
    }
  }

  method CountCheck(q: Query, ghost items: seq<Item>, ghost head: seq<Check>, c: Check, before: Report)
    returns (r: Report)
    requires ItemsTallied(q, items, before) && ChecksTallied(q, head, before)
    ensures ItemsTallied(q, items, r) && ChecksTallied(q, head + [c], r)
  {
    r := CountTotals(q, head, c, before);
    var known := before.recruiters;
    assert forall uid ::
      RecruiterCounts(before, uid) == if uid in known then known[uid] else PerRecruiter(0, 0, 0);
    var recruiters := CountRecruiter(q, head, c, known);
    r := r.(recruiters := recruiters);
    assert forall uid ::
      RecruiterCounts(r, uid) == if uid in recruiters then recruiters[uid] else PerRecruiter(0, 0, 0);
    assert forall l :: StageCount(r, l) == StageCount(before, l);
  }

  // ----- what the figures mean together -----

  function For(q: Query, scope: set<nat>): Query { q.(scope := Some(scope)) }

  lemma {:induction false} ItemsAdd(q: Query, a: set<nat>, b: set<nat>, k: ItemTally, items: seq<Item>)
    requires a !! b
    ensures CountItems(For(q, a + b), k, items) == CountItems(For(q, a), k, items) + CountItems(For(q, b), k, items)
  {
    if items != [] {
      ItemsAdd(q, a, b, k, items[..|items| - 1]);
    }
  }

  lemma {:induction false} ChecksAdd(q: Query, a: set<nat>, b: set<nat>, k: CheckTally, checks: seq<Check>)
    requires a !! b
    ensures CountChecks(For(q, a + b), k, checks) ==
            CountChecks(For(q, a), k, checks) + CountChecks(For(q, b), k, checks)
  {
    if checks != [] {
      ChecksAdd(q, a, b, k, checks[..|checks| - 1]);
    }
  }

  /** For disjoint scopes every total, stage count and recruiter count of the union is the sum
      of the two. */
  lemma ReportsAdd(q: Query, a: set<nat>, b: set<nat>, items: seq<Item>, checks: seq<Check>,
                   ra: Report, rb: Report, r: Report)
    requires a !! b
    requires ItemsTallied(For(q, a), items, ra) && ChecksTallied(For(q, a), checks, ra)
    requires ItemsTallied(For(q, b), items, rb) && ChecksTallied(For(q, b), checks, rb)
    requires ItemsTallied(For(q, a + b), items, r) && ChecksTallied(For(q, a + b), checks, r)
    ensures r.active == ra.active + rb.active && r.endingSoon == ra.endingSoon + rb.endingSoon
    ensures r.finalPending == ra.finalPending + rb.finalPending
    ensures r.due == ra.due + rb.due && r.done == ra.done + rb.done && r.missed == ra.missed + rb.missed
    ensures r.atRisk == ra.atRisk + rb.atRisk && r.notReachable == ra.notReachable + rb.notReachable
    ensures r.dropped == ra.dropped + rb.dropped
    ensures forall stage :: StageCount(r, stage) == StageCount(ra, stage) + StageCount(rb, stage)
    ensures forall uid :: RecruiterCounts(r, uid).due == RecruiterCounts(ra, uid).due + RecruiterCounts(rb, uid).due
    ensures forall uid :: RecruiterCounts(r, uid).done == RecruiterCounts(ra, uid).done + RecruiterCounts(rb, uid).done
    ensures forall uid ::
              RecruiterCounts(r, uid).missed == RecruiterCounts(ra, uid).missed + RecruiterCounts(rb, uid).missed
  {
    forall k
      ensures CountItems(For(q, a + b), k, items) ==
              CountItems(For(q, a), k, items) + CountItems(For(q, b), k, items)
    {
      ItemsAdd(q, a, b, k, items);
    }
    forall k
      ensures CountChecks(For(q, a + b), k, checks) ==
              CountChecks(For(q, a), k, checks) + CountChecks(For(q, b), k, checks)
    {
      ChecksAdd(q, a, b, k, checks);
    }
  }

  /** Each check due is pending, done or missed. */
  lemma {:induction false} DueSplitsByStatus(q: Query, checks: seq<Check>)
    ensures CountChecks(q, AllDue, checks) ==
            CountChecks(q, WithStatus(Pending), checks) + CountChecks(q, WithStatus(Done), checks)
            + CountChecks(q, WithStatus(Missed), checks)
  {
    if checks != [] {
      DueSplitsByStatus(q, checks[..|checks| - 1]);
    }
  }

  ghost function MapSum<K(!new)>(m: map<K, nat>): nat
    decreases |m|
  {
    if m == map[] then 0
    else
      var k :| k in m;
      m[k] + MapSum(m - {k})
  }

  lemma {:induction false} SumWithout<K(!new)>(m: map<K, nat>, k: K)
    requires k in m
    ensures MapSum(m) == m[k] + MapSum(m - {k})
    decreases |m|
  {
    var j :| j in m && MapSum(m) == m[j] + MapSum(m - {j});
    if j != k {
      SumWithout(m - {j}, k);
      SumWithout(m - {k}, j);
      assert m - {j} - {k} == m - {k} - {j};
    }
  }

  lemma SumAfterUpdate<K(!new)>(m: map<K, nat>, k: K, v: nat)
    ensures MapSum(m[k := v]) == MapSum(m) + v - if k in m then m[k] else 0
  {
    SumWithout(m[k := v], k);
    assert m[k := v] - {k} == m - {k};
    if k in m {
      SumWithout(m, k);
    } else {
      assert m - {k} == m;
    }
  }

  lemma {:induction false} SumIgnoresZeros<K(!new)>(m: map<K, nat>, n: map<K, nat>)
    requires forall k :: (if k in m then m[k] else 0) == (if k in n then n[k] else 0)
    ensures MapSum(m) == MapSum(n)
    decreases |m| + |n|
  {
    if k :| k in m {
      SumWithout(m, k);
      if k in n {
        SumWithout(n, k);
        SumIgnoresZeros(m - {k}, n - {k});
      } else {
        SumIgnoresZeros(m - {k}, n);
      }
    } else if k :| k in n {
      SumWithout(n, k);
      SumIgnoresZeros(m, n - {k});
    }
  }

  /** Stage counts sum to the active total. */
  lemma {:induction false} StagesSumToActive(q: Query, items: seq<Item>, stages: map<string, nat>)
    requires forall stage :: (if stage in stages then stages[stage] else 0) == CountItems(q, InStage(stage), items)
    ensures MapSum(stages) == CountItems(q, Active, items)
  {
    if items == [] {
      SumIgnoresZeros(stages, map[]);
    } else {
      var head, i := items[..|items| - 1], items[|items| - 1];
      if InScope(q.scope, RecruiterOf(i)) {
        var stage := q.stageOf(i);
        var fewer := stages[stage := CountItems(q, InStage(stage), head)];
        StagesSumToActive(q, head, fewer);
        SumAfterUpdate(stages, stage, CountItems(q, InStage(stage), head));
      } else {
        StagesSumToActive(q, head, stages);
      }
    }
  }

  /** The due counts of the recruiters, with the unassigned checks, sum to the due total. */
  lemma {:induction false} RecruitersSumToDue(q: Query, checks: seq<Check>, due: map<nat, nat>)
    requires forall uid :: (if uid in due then due[uid] else 0) == CountChecks(q, OfRecruiter(uid), checks)
    ensures MapSum(due) + CountChecks(q, Unassigned, checks) == CountChecks(q, AllDue, checks)
  {
    if checks == [] {
      SumIgnoresZeros(due, map[]);
    } else {
      var head, c := checks[..|checks| - 1], checks[|checks| - 1];
      if InPeriod(q, c) && c.recruiter.Some? {
        var uid := c.recruiter.value;
        var fewer := due[uid := CountChecks(q, OfRecruiter(uid), head)];
        RecruitersSumToDue(q, head, fewer);
        SumAfterUpdate(due, uid, CountChecks(q, OfRecruiter(uid), head));
      } else {
        RecruitersSumToDue(q, head, due);
      }
    }
  }

  function DueOf(r: Report): map<nat, nat> { map uid | uid in r.recruiters :: r.recruiters[uid].due }

  lemma DueOfCounts(q: Query, checks: seq<Check>, r: Report, uid: nat)
    requires ChecksTallied(q, checks, r)
    ensures (if uid in DueOf(r) then DueOf(r)[uid] else 0) == CountChecks(q, OfRecruiter(uid), checks)
  {
    assert RecruiterCounts(r, uid) == RecruiterTally(q, checks, uid);
  }

  /** The figures of one report agree with each other. */
  lemma ReportBalances(q: Query, items: seq<Item>, checks: seq<Check>, r: Report)
    requires ItemsTallied(q, items, r) && ChecksTallied(q, checks, r)
    ensures MapSum(r.byStage) == r.active
    ensures r.due == CountChecks(q, WithStatus(Pending), checks) + r.done + r.missed
    ensures MapSum(DueOf(r)) + CountChecks(q, Unassigned, checks) == r.due
    ensures q.scope.Some? ==> CountChecks(q, Unassigned, checks) == 0
  {
    assert forall stage :: StageCount(r, stage) == if stage in r.byStage then r.byStage[stage] else 0;
    StagesSumToActive(q, items, r.byStage);
    DueSplitsByStatus(q, checks);
    var due := DueOf(r);
    forall uid ensures (if uid in due then due[uid] else 0) == CountChecks(q, OfRecruiter(uid), checks) {
      DueOfCounts(q, checks, r, uid);
    }
    RecruitersSumToDue(q, checks, due);
    NoneUnassigned(q, checks);
  }

  lemma {:induction false} NoneUnassigned(q: Query, checks: seq<Check>)
    ensures q.scope.Some? ==> CountChecks(q, Unassigned, checks) == 0
  {
    if checks != [] {
      NoneUnassigned(q, checks[..|checks| - 1]);
    }
  }

  // ----- what the figures count -----

  /** The item belongs to a recruiter in scope. */
  predicate ItemBelongs(q: Query, i: Item) { q.scope.Some? ==> i.recruiter != 0 && i.recruiter in q.scope.value }

  /** The check belongs to a recruiter in scope, fell due in the period, and was not cancelled. */
  predicate CheckBelongs(q: Query, c: Check) {
    && (q.scope.Some? ==> c.recruiter.Some? && c.recruiter.value in q.scope.value)
    && q.periodStart <= c.dueDate && c.dueDate <= q.today && c.status != Cancelled
  }

  /** The candidate's cooling period ends within the week, or has ended. */
  predicate EndsSoon(q: Query, i: Item) {
    i.clawback.joinedAt.Some? && !CoolingOverOn(i.clawback, q.today) && CoolingOverOn(i.clawback, q.today + 7)
  }

  predicate Ended(q: Query, i: Item) { i.clawback.joinedAt.Some? && CoolingOverOn(i.clawback, q.today) }

  function ItemsIn(q: Query, k: ItemTally, items: seq<Item>): (at: set<int>)
    ensures forall n :: n in at <==> 0 <= n < |items| && ItemCounts(q, k, items[n])
    ensures |at| == CountItems(q, k, items)
  {
    if items == [] then {}
    else
      var n := |items| - 1;
      ItemsIn(q, k, items[..n]) + if ItemCounts(q, k, items[n]) then {n} else {}
  }

  function ChecksIn(q: Query, k: CheckTally, checks: seq<Check>): (at: set<int>)
    ensures forall n :: n in at <==> 0 <= n < |checks| && CheckCounts(q, k, checks[n])
    ensures |at| == CountChecks(q, k, checks)
  {
    if checks == [] then {}
    else
      var n := |checks| - 1;
      ChecksIn(q, k, checks[..n]) + if CheckCounts(q, k, checks[n]) then {n} else {}
  }

  /** The item figures are the numbers of items in scope, of those whose cooling period ends within
      seven days, and of those whose cooling period has ended; a stage's, of those in the stage. */
  lemma ItemFiguresMean(q: Query, items: seq<Item>, r: Report)
    requires ItemsTallied(q, items, r)
    ensures r.active == |set n | 0 <= n < |items| && ItemBelongs(q, items[n])|
    ensures r.endingSoon == |set n | 0 <= n < |items| && ItemBelongs(q, items[n]) && EndsSoon(q, items[n])|
    ensures r.finalPending == |set n | 0 <= n < |items| && ItemBelongs(q, items[n]) && Ended(q, items[n])|
    ensures forall stage :: StageCount(r, stage) ==
              |set n | 0 <= n < |items| && ItemBelongs(q, items[n]) && q.stageOf(items[n]) == stage|
  {
    assert ItemsIn(q, Active, items) == set n | 0 <= n < |items| && ItemBelongs(q, items[n]);
    EndingFigure(q, items);
    EndedFigure(q, items);
    forall stage ensures StageCount(r, stage) ==
                         |set n | 0 <= n < |items| && ItemBelongs(q, items[n]) && q.stageOf(items[n]) == stage|
    {
      StageFigure(q, items, stage);
    }
  }

  lemma EndingFigure(q: Query, items: seq<Item>)
    ensures CountItems(q, EndingSoon, items) ==
            |set n | 0 <= n < |items| && ItemBelongs(q, items[n]) && EndsSoon(q, items[n])|
  {
    assert ItemsIn(q, EndingSoon, items) ==
           set n | 0 <= n < |items| && ItemBelongs(q, items[n]) && EndsSoon(q, items[n]);
  }

  lemma EndedFigure(q: Query, items: seq<Item>)
    ensures CountItems(q, FinalPending, items) ==
            |set n | 0 <= n < |items| && ItemBelongs(q, items[n]) && Ended(q, items[n])|
  {
    assert ItemsIn(q, FinalPending, items) ==
           set n | 0 <= n < |items| && ItemBelongs(q, items[n]) && Ended(q, items[n]);
  }

  lemma StageFigure(q: Query, items: seq<Item>, stage: string)
    ensures CountItems(q, InStage(stage), items) ==
            |set n | 0 <= n < |items| && ItemBelongs(q, items[n]) && q.stageOf(items[n]) == stage|
  {
    assert ItemsIn(q, InStage(stage), items) ==
           set n | 0 <= n < |items| && ItemBelongs(q, items[n]) && q.stageOf(items[n]) == stage;
  }

  /** The check figures are the numbers of the period's checks in scope, of those done and missed,
      and of those with each outcome. */
  lemma CheckFiguresMean(q: Query, checks: seq<Check>, r: Report)
    requires TotalsTallied(q, checks, r)
    ensures r.due == |set n | 0 <= n < |checks| && CheckBelongs(q, checks[n])|
    ensures r.done == |set n | 0 <= n < |checks| && CheckBelongs(q, checks[n]) && checks[n].status == Done|
    ensures r.missed == |set n | 0 <= n < |checks| && CheckBelongs(q, checks[n]) && checks[n].status == Missed|
    ensures r.atRisk == |set n | 0 <= n < |checks| && CheckBelongs(q, checks[n]) && checks[n].outcome == Some(AtRisk)|
    ensures r.dropped == |set n | 0 <= n < |checks| && CheckBelongs(q, checks[n]) && checks[n].outcome == Some(Dropped)|
    ensures r.notReachable ==
            |set n | 0 <= n < |checks| && CheckBelongs(q, checks[n]) && checks[n].outcome == Some(NotReachable)|
  {
    assert ChecksIn(q, AllDue, checks) == set n | 0 <= n < |checks| && CheckBelongs(q, checks[n]);
    StatusFigure(q, checks, Done);
    StatusFigure(q, checks, Missed);
    OutcomeFigure(q, checks, AtRisk);
    OutcomeFigure(q, checks, Dropped);
    OutcomeFigure(q, checks, NotReachable);
  }

  lemma StatusFigure(q: Query, checks: seq<Check>, status: CheckStatus)
    ensures CountChecks(q, WithStatus(status), checks) ==
            |set n | 0 <= n < |checks| && CheckBelongs(q, checks[n]) && checks[n].status == status|
  {
    assert ChecksIn(q, WithStatus(status), checks) ==
           set n | 0 <= n < |checks| && CheckBelongs(q, checks[n]) && checks[n].status == status;
  }

  lemma OutcomeFigure(q: Query, checks: seq<Check>, outcome: Outcome)
    ensures CountChecks(q, WithOutcome(outcome), checks) ==
            |set n | 0 <= n < |checks| && CheckBelongs(q, checks[n]) && checks[n].outcome == Some(outcome)|
  {
    assert ChecksIn(q, WithOutcome(outcome), checks) ==
           set n | 0 <= n < |checks| && CheckBelongs(q, checks[n]) && checks[n].outcome == Some(outcome);
  }

  /** A recruiter's figures are the numbers of that recruiter's checks among those. */
  lemma RecruiterFiguresMean(q: Query, checks: seq<Check>, r: Report, uid: nat)
    requires ChecksTallied(q, checks, r)
    ensures RecruiterCounts(r, uid).due ==
            |set n | 0 <= n < |checks| && CheckBelongs(q, checks[n]) && checks[n].recruiter == Some(uid)|
    ensures RecruiterCounts(r, uid).done ==
            |set n | 0 <= n < |checks| && CheckBelongs(q, checks[n]) && checks[n].recruiter == Some(uid)
                     && checks[n].status == Done|
    ensures RecruiterCounts(r, uid).missed ==
            |set n | 0 <= n < |checks| && CheckBelongs(q, checks[n]) && checks[n].recruiter == Some(uid)
                     && checks[n].status == Missed|
  {
    RecruiterFigure(q, checks, uid);
    RecruiterStatusFigure(q, checks, uid, Done);
    RecruiterStatusFigure(q, checks, uid, Missed);
  }

  lemma RecruiterFigure(q: Query, checks: seq<Check>, uid: nat)
    ensures CountChecks(q, OfRecruiter(uid), checks) ==
            |set n | 0 <= n < |checks| && CheckBelongs(q, checks[n]) && checks[n].recruiter == Some(uid)|
  {
    assert ChecksIn(q, OfRecruiter(uid), checks) ==
           set n | 0 <= n < |checks| && CheckBelongs(q, checks[n]) && checks[n].recruiter == Some(uid);
  }

  lemma RecruiterStatusFigure(q: Query, checks: seq<Check>, uid: nat, status: CheckStatus)
    ensures CountChecks(q, OfRecruiterWith(uid, status), checks) ==
            |set n | 0 <= n < |checks| && CheckBelongs(q, checks[n]) && checks[n].recruiter == Some(uid)
                     && checks[n].status == status|
  {
    assert ChecksIn(q, OfRecruiterWith(uid, status), checks) ==
           set n | 0 <= n < |checks| && CheckBelongs(q, checks[n]) && checks[n].recruiter == Some(uid)
                   && checks[n].status == status;
  }

  /** The at-risk list names exactly the checks of the period with a troubled outcome. */
  lemma {:induction false} AtRiskIdsAre(q: Query, checks: seq<Check>)
    ensures forall id :: id in AtRiskIds(q, checks) <==>
              exists c :: c in checks && c.id == id && CheckBelongs(q, c)
                          && c.outcome in {Some(AtRisk), Some(NotReachable), Some(Dropped)}
  {
    if checks != [] {
      var n := |checks| - 1;
      AtRiskIdsAre(q, checks[..n]);
      assert checks == checks[..n] + [checks[n]];
    }
  }
}
