/**
 The recruiter rule table and the overlap check that guards every change to it.
 */
module RuleTable {
  import opened Options
  import opened ClawbackRules

  /** Both windows reach the other's start; a missing end never closes. */
  predicate WindowsOverlap(a: RuleSpec, b: RuleSpec) {
    && a.anchor == b.anchor
    && (b.endDay.None? || a.startDay <= b.endDay.value)
    && (a.endDay.None? || b.startDay <= a.endDay.value)
  }

  /** What field validation accepts: a window that does not end before it starts. */
  predicate ValidWindow(r: RuleSpec) {
    r.endDay.None? || r.startDay <= r.endDay.value
  }

  /** A window is valid exactly if it holds some day at all. */
  lemma ValidWindowHasDays(r: RuleSpec)
    ensures ValidWindow(r) <==> exists day :: InWindow(r, day)
  {
    assert ValidWindow(r) ==> InWindow(r, r.startDay);
  }

  ghost predicate ShareADay(a: RuleSpec, b: RuleSpec) {
    a.anchor == b.anchor && exists day :: InWindow(a, day) && InWindow(b, day)
  }

  /** For valid windows the endpoint test says exactly that some day is in both. */
  lemma OverlapIsSharedDay(a: RuleSpec, b: RuleSpec)
    requires ValidWindow(a) && ValidWindow(b)
    ensures WindowsOverlap(a, b) <==> ShareADay(a, b)
  {
    var later := if a.startDay >= b.startDay then a.startDay else b.startDay;
    if WindowsOverlap(a, b) {
      assert InWindow(a, later) && InWindow(b, later);
    }
  }

  /** An active rule of another id that shares a day with an active candidate. */
  predicate Clashes(candidate: RuleSpec, o: RuleSpec) {
    candidate.isActive && o.isActive && Another(candidate, o) && WindowsOverlap(candidate, o)
  }

  /** A rule other than the one being written. */
  predicate Another(spec: RuleSpec, o: RuleSpec) { spec.id.None? || o.id != spec.id }

  /** For valid windows a clash is a day shared by two active rules, one of them not the one written. */
  lemma ClashMeans(candidate: RuleSpec, o: RuleSpec)
    requires ValidWindow(candidate) && ValidWindow(o)
    ensures Clashes(candidate, o) <==>
            candidate.isActive && o.isActive && (candidate.id.None? || o.id != candidate.id) && ShareADay(candidate, o)
  {
    OverlapIsSharedDay(candidate, o);
  }

  /** The first clashing rule, if any. */
  method FindOverlap(candidate: RuleSpec, others: seq<RuleSpec>) returns (clash: Option<RuleSpec>)
    ensures clash.None? <==> forall o :: o in others ==> !Clashes(candidate, o)
    ensures clash.Some? ==> exists i :: 0 <= i < |others| && clash.value == others[i] && Clashes(candidate, others[i])
                                        && forall j :: 0 <= j < i ==> !Clashes(candidate, others[j])
  {
    if !candidate.isActive {
      return None;
    }
    for i := 0 to |others|
      invariant forall j :: 0 <= j < i ==> !Clashes(candidate, others[j])
    {
      if others[i].isActive && Another(candidate, others[i]) && WindowsOverlap(candidate, others[i]) {
        assert others[i] in others;
        return Some(others[i]);
      }
    }
    return None;
  }

  datatype Row = Row(spec: RuleSpec, deleted: bool)

  /** The active rules the engine loads, in table order. */
  function ActiveRules(rows: seq<Row>): seq<RuleSpec> {
    if rows == [] then []
    else (if rows[0].spec.isActive && !rows[0].deleted then [rows[0].spec] else []) + ActiveRules(rows[1..])
  }

  lemma {:induction false} ActiveRulesAre(rows: seq<Row>)
    ensures forall r :: r in ActiveRules(rows) <==>
              exists i :: 0 <= i < |rows| && rows[i].spec == r && r.isActive && !rows[i].deleted
  {
    if rows != [] {
      ActiveRulesAre(rows[1..]);
      forall r ensures r in ActiveRules(rows) <==>
        exists i :: 0 <= i < |rows| && rows[i].spec == r && r.isActive && !rows[i].deleted
      {
        if i :| 0 <= i < |rows| && rows[i].spec == r && r.isActive && !rows[i].deleted {
          if i > 0 { assert rows[1..][i - 1] == rows[i]; }
        }
        if r in ActiveRules(rows[1..]) {
          var i :| 0 <= i < |rows[1..]| && rows[1..][i].spec == r && r.isActive && !rows[1..][i].deleted;
          assert rows[i + 1].spec == r;
        }
      }
    }
  }

  predicate Live(row: Row) { row.spec.isActive && !row.deleted }

  /** Row i has id i + 1, windows are valid, and no two live rules share a day. */
  ghost predicate Consistent(rows: seq<Row>) {
    && (forall i :: 0 <= i < |rows| ==> rows[i].spec.id == Some(i + 1) && ValidWindow(rows[i].spec))
    && (forall i, j :: 0 <= i < |rows| && 0 <= j < |rows| && i != j && Live(rows[i]) && Live(rows[j]) ==>
          !ShareADay(rows[i].spec, rows[j].spec))
  }

  class Table {
    var rows: seq<Row>

    constructor ()
      ensures rows == []
    {
      rows := [];
    }

    /** The overlap check before a write. */
    method CheckOverlap(spec: RuleSpec) returns (ok: bool)
      requires Consistent(rows) && ValidWindow(spec)
      ensures ok <==> forall i :: 0 <= i < |rows| && Live(rows[i]) && Another(spec, rows[i].spec) && spec.isActive ==>
                        !ShareADay(spec, rows[i].spec)
    {
      var clash := FindOverlap(spec, ActiveRules(rows));
      ok := clash.None?;
      ActiveRulesAre(rows);
      forall i | 0 <= i < |rows| ensures WindowsOverlap(spec, rows[i].spec) <==> ShareADay(spec, rows[i].spec) {
        OverlapIsSharedDay(spec, rows[i].spec);
      }
      if ok {
        forall i | 0 <= i < |rows| && Live(rows[i]) && Another(spec, rows[i].spec) && spec.isActive
          ensures !ShareADay(spec, rows[i].spec)
        {
          assert rows[i].spec in ActiveRules(rows);
        }
      } else {
        var o :| o in ActiveRules(rows) && Clashes(spec, o);
        var i :| 0 <= i < |rows| && rows[i].spec == o && o.isActive && !rows[i].deleted;
        assert Live(rows[i]);
      }
    }

    method Create(spec: RuleSpec) returns (ok: bool)
      requires Consistent(rows) && spec.id.None?
      modifies this
      ensures Consistent(rows)
      ensures ok ==> rows == old(rows) + [Row(spec.(id := Some(|old(rows)| + 1)), false)]
      ensures !ok ==> rows == old(rows)
      ensures ok <==> ValidWindow(spec) &&
                      (spec.isActive ==> forall i :: 0 <= i < |old(rows)| && Live(old(rows)[i]) ==>
                         !ShareADay(spec, old(rows)[i].spec))
    {
      if !ValidWindow(spec) {
        return false;
      }
      ok := CheckOverlap(spec);
      if ok {
        ghost var before := rows;
        var stored := spec.(id := Some(|rows| + 1));
        assert forall o :: ShareADay(stored, o) <==> ShareADay(spec, o);
        assert forall o :: ShareADay(o, stored) <==> ShareADay(spec, o);
        rows := rows + [Row(stored, false)];
      }
    }

    method Update(index: nat, spec: RuleSpec) returns (ok: bool)
      requires Consistent(rows) && index < |rows| && !rows[index].deleted && spec.id == rows[index].spec.id
      modifies this
      ensures Consistent(rows)
      ensures rows == if ok then old(rows)[index := Row(spec, false)] else old(rows)
      ensures ok <==> ValidWindow(spec) &&
                      (spec.isActive ==> forall i :: 0 <= i < |old(rows)| && i != index && Live(old(rows)[i]) ==>
                         !ShareADay(spec, old(rows)[i].spec))
    {
      if !ValidWindow(spec) {
        return false;
      }
      ok := CheckOverlap(spec);
      if ok {
        assert forall a, b :: ShareADay(a, b) <==> ShareADay(b, a);
        rows := rows[index := Row(spec, false)];
      }
    }

    /** Switching an inactive rule on is checked like a write; switching a rule off never is. */
    method Toggle(index: nat, active: bool) returns (ok: bool)
      requires Consistent(rows) && index < |rows| && !rows[index].deleted
      modifies this
      ensures Consistent(rows)
      ensures ok ==> rows == old(rows)[index := Row(old(rows)[index].spec.(isActive := active), false)]
      ensures !ok ==> rows == old(rows)
      ensures ok <==> !active || old(rows)[index].spec.isActive ||
                      forall i :: 0 <= i < |old(rows)| && i != index && Live(old(rows)[i]) ==>
                        !ShareADay(old(rows)[index].spec, old(rows)[i].spec)
    {
      var spec := rows[index].spec.(isActive := active);
      ok := true;
      if active && !rows[index].spec.isActive {
        ok := CheckOverlap(spec);
      }
      if ok {
        assert forall o :: ShareADay(spec, o) <==> ShareADay(rows[index].spec, o);
        assert forall o :: ShareADay(o, spec) <==> ShareADay(spec, o);
        rows := rows[index := Row(spec, false)];
      }
    }

    method Delete(index: nat)
      requires Consistent(rows) && index < |rows| && !rows[index].deleted
      modifies this
      ensures Consistent(rows)
      ensures rows == old(rows)[index := Row(old(rows)[index].spec.(isActive := false), true)]
    {
      rows := rows[index := Row(rows[index].spec.(isActive := false), true)];
    }
  }

  /** In a guarded table at most one active rule is in window for an anchor and day. */
  lemma AtMostOneInWindow(rows: seq<Row>, anchor: Anchor, day: int, r: RuleSpec, s: RuleSpec)
    requires Consistent(rows) && r in ActiveRules(rows) && s in ActiveRules(rows)
    requires r.anchor == anchor && s.anchor == anchor && InWindow(r, day) && InWindow(s, day)
    ensures r == s
  {
    ActiveRulesAre(rows);
    var i :| 0 <= i < |rows| && rows[i].spec == r && !rows[i].deleted;
    var j :| 0 <= j < |rows| && rows[j].spec == s && !rows[j].deleted;
    assert ShareADay(rows[i].spec, rows[j].spec);
  }

  /** So priorities never decide in a guarded table: the rule that is due is the one matched. */
  lemma DueRuleIsMatched(rows: seq<Row>, anchor: Anchor, day: int, weekday: int, r: RuleSpec)
    requires Consistent(rows) && r in ActiveRules(rows) && Due(r, anchor, day, weekday)
    ensures MatchRule(ActiveRules(rows), anchor, day, weekday) == Some(r)
  {
    MatchRuleIsBest(ActiveRules(rows), anchor, day, weekday);
    var m := MatchRule(ActiveRules(rows), anchor, day, weekday).value;
    AtMostOneInWindow(rows, anchor, day, r, m);
  }
}
