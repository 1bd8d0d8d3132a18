/**
 What the plan of a pass carries: every entry once, one list at most for a recruiter.
 */
module ReminderPlan {
  import opened Options
  import opened ClawbackRules
  import opened IdempotencyKey
  import opened ReminderRun

  // ----- lists of entries about different jobs -----

  ghost predicate JobsDiffer(entries: seq<Entry>) {
    forall i, j :: 0 <= i < j < |entries| ==> entries[i].job != entries[j].job
  }

  lemma JobsConcat(a: seq<Entry>, b: seq<Entry>)
    ensures Jobs(a + b) == Jobs(a) + Jobs(b)
  {
  }

  lemma ConcatDiffers(a: seq<Entry>, b: seq<Entry>)
    requires JobsDiffer(a + b)
    ensures JobsDiffer(a) && JobsDiffer(b)
    ensures forall e :: e in b ==> e.job !in Jobs(a)
    ensures forall e :: e in a || e in b ==> e in a + b
  {
    var s := a + b;
    assert forall i :: 0 <= i < |a| ==> s[i] == a[i];
    forall i, j | 0 <= i < j < |b| ensures b[i].job != b[j].job {
      assert s[|a| + i] == b[i] && s[|a| + j] == b[j];
    }
    forall e | e in b ensures e.job !in Jobs(a) {
      var j :| 0 <= j < |b| && b[j] == e;
      assert s[|a| + j] == e;
      assert forall i :: 0 <= i < |a| ==> s[i].job != s[|a| + j].job;
    }
  }

  lemma {:induction false} AssignedAre(entries: seq<Entry>)
    requires JobsDiffer(entries)
    ensures JobsDiffer(Assigned(entries)) && forall e :: e in Assigned(entries) <==> e in entries && e.recruiter != 0
  {
    if entries != [] {
      var n := |entries| - 1;
      assert entries == entries[..n] + [entries[n]];
      AssignedAre(entries[..n]);
      LastDiffers(entries);
    }
  }

  lemma LastDiffers(entries: seq<Entry>)
    requires JobsDiffer(entries) && entries != []
    ensures var n := |entries| - 1; forall e :: e in entries[..n] ==> e.job != entries[n].job
  {
  }

  lemma {:induction false} UnhandledAre(existing: Logs, entries: seq<Entry>, today: int)
    requires JobsDiffer(entries)
    ensures JobsDiffer(Unhandled(existing, entries, today))
    ensures forall e :: e in Unhandled(existing, entries, today) <==> e in entries && !Handled(existing, e, today)
  {
    if entries != [] {
      var n := |entries| - 1;
      assert entries == entries[..n] + [entries[n]];
      UnhandledAre(existing, entries[..n], today);
      LastDiffers(entries);
    }
  }

  lemma {:induction false} RecruitersComeFrom(entries: seq<Entry>)
    ensures forall r :: r in Recruiters(entries) ==> exists e :: e in entries && e.recruiter == r
  {
    if entries != [] {
      var n := |entries| - 1;
      RecruitersComeFrom(entries[..n]);
      forall r | r in Recruiters(entries) ensures exists e :: e in entries && e.recruiter == r {
        if r in Recruiters(entries[..n]) {
          var e :| e in entries[..n] && e.recruiter == r;
          assert e in entries;
        } else {
          assert entries[n] in entries && entries[n].recruiter == r;
        }
      }
    }
  }

  // ----- the plan carries every entry once -----

  function Flat(plan: seq<Planned>): seq<Entry> {
    if plan == [] then [] else Flat(plan[..|plan| - 1]) + EntriesOf(plan[|plan| - 1])
  }

  lemma {:induction false} FlatConcat(a: seq<Planned>, b: seq<Planned>)
    ensures Flat(a + b) == Flat(a) + Flat(b)
  {
    if b == [] {
      assert a + b == a;
    } else {
      assert (a + b)[..|a + b| - 1] == a + b[..|b| - 1];
      FlatConcat(a, b[..|b| - 1]);
    }
  }

  lemma {:induction false} FlatSingles(es: seq<Entry>)
    ensures Flat(Singles(es)) == es
  {
    if es != [] {
      var n := |es| - 1;
      assert Singles(es)[..n] == Singles(es[..n]);
      FlatSingles(es[..n]);
    }
  }

  lemma FlatPlanFor(r: nat, es: seq<Entry>, limit: nat, combine: bool)
    ensures Flat(PlanFor(r, es, limit, combine)) == es
  {
    if combine && |es| > limit {
      assert [Batch(r, es)][..0] == [];
    } else {
      FlatSingles(es);
    }
  }

  lemma {:induction false} OfCounts(entries: seq<Entry>, r: nat, e: Entry)
    ensures multiset(Of(entries, r))[e] == if e.recruiter == r then multiset(entries)[e] else 0
  {
    if entries != [] {
      assert entries == entries[..|entries| - 1] + [entries[|entries| - 1]];
      OfCounts(entries[..|entries| - 1], r, e);
    }
  }

  ghost predicate NoRepeats(s: seq<nat>) {
    forall i, j :: 0 <= i < j < |s| ==> s[i] != s[j]
  }

  lemma {:induction false} RecruitersAre(entries: seq<Entry>)
    ensures NoRepeats(Recruiters(entries))
    ensures forall e :: e in entries ==> e.recruiter in Recruiters(entries)
  {
    if entries != [] {
      RecruitersAre(entries[..|entries| - 1]);
      assert entries == entries[..|entries| - 1] + [entries[|entries| - 1]];
    }
  }

  /** Lists go to one recruiter each, and no recruiter gets two. */
  ghost predicate OneListEach(plan: seq<Planned>, recruiters: seq<nat>) {
    && (forall i :: 0 <= i < |plan| && plan[i].Batch? ==> plan[i].recruiter in recruiters)
    && (forall i, j :: 0 <= i < j < |plan| && plan[i].Batch? && plan[j].Batch? ==>
          plan[i].recruiter != plan[j].recruiter)
    && (forall i :: 0 <= i < |plan| && plan[i].Batch? ==>
          forall e :: e in plan[i].entries ==> e.recruiter == plan[i].recruiter)
  }

  lemma {:induction false} PlanOverCounts(recruiters: seq<nat>, entries: seq<Entry>, limit: nat, combine: bool,
                                          e: Entry)
    requires NoRepeats(recruiters)
    ensures multiset(Flat(PlanOver(recruiters, entries, limit, combine)))[e] ==
            if e.recruiter in recruiters then multiset(entries)[e] else 0
  {
    if recruiters != [] {
      var n := |recruiters| - 1;
      var r := recruiters[n];
      PlanOverCounts(recruiters[..n], entries, limit, combine, e);
      AddPlanFor(PlanOver(recruiters[..n], entries, limit, combine), r, Of(entries, r), limit, combine, e);
      OfCounts(entries, r, e);
      assert recruiters == recruiters[..n] + [r];
    }
  }

  lemma AddPlanFor(plan: seq<Planned>, r: nat, es: seq<Entry>, limit: nat, combine: bool, e: Entry)
    ensures multiset(Flat(plan + PlanFor(r, es, limit, combine)))[e] == multiset(Flat(plan))[e] + multiset(es)[e]
  {
    FlatConcat(plan, PlanFor(r, es, limit, combine));
    FlatPlanFor(r, es, limit, combine);
  }

  lemma {:induction false} PlanOverLists(recruiters: seq<nat>, entries: seq<Entry>, limit: nat, combine: bool)
    requires NoRepeats(recruiters)
    ensures OneListEach(PlanOver(recruiters, entries, limit, combine), recruiters)
  {
    if recruiters != [] {
      var n := |recruiters| - 1;
      var r := recruiters[n];
      PlanOverLists(recruiters[..n], entries, limit, combine);
      OfIsOf(entries, r);
      assert recruiters == recruiters[..n] + [r];
      AddLists(PlanOver(recruiters[..n], entries, limit, combine), recruiters[..n], r, Of(entries, r), limit, combine);
    }
  }

  lemma OfIsOf(entries: seq<Entry>, r: nat)
    ensures forall e :: e in Of(entries, r) ==> e.recruiter == r
  {
    forall e | e in Of(entries, r) ensures e.recruiter == r {
      OfCounts(entries, r, e);
      assert e in multiset(Of(entries, r));
    }
  }

  lemma AddLists(plan: seq<Planned>, recruiters: seq<nat>, r: nat, es: seq<Entry>, limit: nat, combine: bool)
    requires OneListEach(plan, recruiters) && r !in recruiters && forall e :: e in es ==> e.recruiter == r
    ensures OneListEach(plan + PlanFor(r, es, limit, combine), recruiters + [r])
  {
  }

  /** Planning neither loses, repeats nor invents an entry, and a recruiter's list holds only
      that recruiter's entries. */
  lemma PlanConservesEntries(entries: seq<Entry>, threshold: int, combine: bool)
    ensures multiset(Flat(Plan(entries, threshold, combine))) == multiset(entries)
    ensures OneListEach(Plan(entries, threshold, combine), Recruiters(entries))
  {
    RecruitersAre(entries);
    var limit := if threshold < 0 then 0 else threshold;
    forall e ensures multiset(Flat(Plan(entries, threshold, combine)))[e] == multiset(entries)[e] {
      PlanOverCounts(Recruiters(entries), entries, limit, combine, e);
      if e !in entries { assert e !in multiset(entries); }
    }
    PlanOverLists(Recruiters(entries), entries, limit, combine);
  }

  lemma {:induction false} OfNobody(entries: seq<Entry>, r: nat)
    requires r !in Recruiters(entries)
    ensures Of(entries, r) == []
  {
    if entries != [] {
      OfNobody(entries[..|entries| - 1], r);
    }
  }

  lemma {:induction false} PlanOverThreshold(recruiters: seq<nat>, entries: seq<Entry>, limit: nat, combine: bool)
    ensures forall p :: p in PlanOver(recruiters, entries, limit, combine) && p.Batch? ==>
              p == Batch(p.recruiter, Of(entries, p.recruiter)) && combine && |p.entries| > limit
    ensures forall r :: r in recruiters && combine && |Of(entries, r)| > limit ==>
              Batch(r, Of(entries, r)) in PlanOver(recruiters, entries, limit, combine)
  {
    if recruiters != [] {
      var n := |recruiters| - 1;
      PlanOverThreshold(recruiters[..n], entries, limit, combine);
      assert recruiters == recruiters[..n] + [recruiters[n]];
      var last := PlanFor(recruiters[n], Of(entries, recruiters[n]), limit, combine);
      assert combine && |Of(entries, recruiters[n])| > limit ==> last[0] in last;
    }
  }

  /** A recruiter gets a list exactly when lists are on and more entries than the threshold
      are due; the list is all of the recruiter's entries, in order. */
  lemma ListsExactlyAboveThreshold(entries: seq<Entry>, threshold: int, combine: bool, r: nat)
    ensures forall p :: p in Plan(entries, threshold, combine) && p.Batch? && p.recruiter == r ==>
              p.entries == Of(entries, r)
    ensures (exists p :: p in Plan(entries, threshold, combine) && p.Batch? && p.recruiter == r) <==>
            combine && Of(entries, r) != [] && |Of(entries, r)| > threshold
  {
    var limit: nat := if threshold < 0 then 0 else threshold;
    PlanOverThreshold(Recruiters(entries), entries, limit, combine);
    if combine && |Of(entries, r)| > limit {
      if r !in Recruiters(entries) {
        OfNobody(entries, r);
      }
      assert Batch(r, Of(entries, r)) in Plan(entries, threshold, combine);
    }
  }

  lemma {:induction false} TwoPositions(s: seq<Entry>, x: Entry) returns (i: nat, j: nat)
    requires multiset(s)[x] >= 2
    ensures i < j < |s| && s[i] == x && s[j] == x
  {
    var n := |s| - 1;
    assert s == s[..n] + [s[n]];
    if s[n] == x {
      assert x in multiset(s[..n]);
      i :| 0 <= i < n && s[i] == x;
      j := n;
    } else {
      i, j := TwoPositions(s[..n], x);
    }
  }

  lemma TwoCopies(s: seq<Entry>, i: nat, j: nat)
    requires i < j < |s| && s[i] == s[j]
    ensures multiset(s)[s[i]] >= 2
  {
    assert s == s[..j] + [s[j]] + s[j + 1..];
    assert s[i] in s[..j];
    assert s[i] in multiset(s[..j]);
  }

  lemma PermutedJobsDiffer(a: seq<Entry>, b: seq<Entry>)
    requires JobsDiffer(a) && multiset(a) == multiset(b)
    ensures JobsDiffer(b) && forall e :: e in b <==> e in a
  {
    forall e ensures e in b <==> e in a {
      assert e in a <==> e in multiset(a);
      assert e in b <==> e in multiset(b);
    }
    forall i, j | 0 <= i < j < |b| ensures b[i].job != b[j].job {
      assert b[i] in a && b[j] in a;
      if b[i] == b[j] {
        TwoCopies(b, i, j);
        var x, y := TwoPositions(a, b[i]);
        assert false;
      }
    }
  }
}
