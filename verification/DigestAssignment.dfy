/**
 Which digest rule each person's digest comes from.
 */
module DigestAssignment {
  import opened Options
  import opened StableSort

  datatype DigestRule = DigestRule(id: Option<nat>, admins: bool, priority: int)

  /** One person of an audience; user id 0 stands for a record without an id. */
  datatype Person = Person(userId: nat, subordinates: set<nat>)

  datatype Audience = Audience(rule: DigestRule, users: seq<Person>)

  datatype Assigned = Assigned(rule: DigestRule, person: Person)

  function AudienceKey(a: Audience): Key {
    Key(-a.rule.priority, a.rule.id.GetOr(0))
  }

  // ----- who leads a team under somebody else -----

  ghost predicate LeadsUnderOther(records: seq<Person>, uid: nat) {
    && uid != 0
    && (exists r :: r in records && r.userId == uid && r.subordinates != {})
    && (exists r :: r in records && uid in r.subordinates && r.userId != uid)
  }

  method LedUnderOthers(records: seq<Person>) returns (leads: set<nat>)
    ensures forall uid :: uid in leads <==> LeadsUnderOther(records, uid)
  {
    var below: set<nat> := {};
    for i := 0 to |records|
      invariant forall uid ::
        uid in below <==> exists j :: 0 <= j < i && uid in records[j].subordinates && records[j].userId != uid
    {
      below := below + (records[i].subordinates - {records[i].userId});
    }
    leads := {};
    for i := 0 to |records|
      invariant forall uid :: uid in leads <==>
        uid != 0 && uid in below && exists j :: 0 <= j < i && records[j].userId == uid && records[j].subordinates != {}
    {
      var r := records[i];
      if r.userId != 0 && r.subordinates != {} && r.userId in below {
        leads := leads + {r.userId};
      }
    }
    forall uid ensures uid in leads <==> LeadsUnderOther(records, uid) {
      if uid in leads {
        var j :| 0 <= j < |records| && records[j].userId == uid && records[j].subordinates != {};
        assert records[j] in records;
        var k :| 0 <= k < |records| && uid in records[k].subordinates && records[k].userId != uid;
        assert records[k] in records;
      }
    }
  }

  /** The people of every audience but the admins'. */
  function TeamRecords(audiences: seq<Audience>): seq<Person> {
    if audiences == [] then []
    else TeamRecords(audiences[..|audiences| - 1])
         + if audiences[|audiences| - 1].rule.admins then [] else audiences[|audiences| - 1].users
  }

  lemma {:induction false} TeamRecordsAre(audiences: seq<Audience>)
    ensures forall p :: p in TeamRecords(audiences) <==> exists a :: a in audiences && !a.rule.admins && p in a.users
  {
    if audiences != [] {
      var n := |audiences| - 1;
      TeamRecordsAre(audiences[..n]);
      assert audiences == audiences[..n] + [audiences[n]];
      forall p ensures p in TeamRecords(audiences) <==> exists a :: a in audiences && !a.rule.admins && p in a.users {
        if a :| a in audiences && !a.rule.admins && p in a.users {
          assert a == audiences[n] || a in audiences[..n];
        }
      }
    }
  }

  // ----- assignment -----

  ghost predicate TeamLead(audiences: seq<Audience>, uid: nat) {
    LeadsUnderOther(TeamRecords(audiences), uid)
  }

  /** The audience includes the person and its rule is not withheld from them. */
  ghost predicate Offers(audiences: seq<Audience>, a: Audience, uid: nat) {
    && a in audiences && uid != 0 && (exists p :: p in a.users && p.userId == uid)
    && !(a.rule.admins && TeamLead(audiences, uid))
  }

  /** Higher priority, and among equals the lower id. */
  predicate Beats(r: DigestRule, other: DigestRule) {
    r.priority > other.priority || (r.priority == other.priority && r.id.GetOr(0) <= other.id.GetOr(0))
  }

  ghost predicate BestOffer(audiences: seq<Audience>, uid: nat, got: Assigned) {
    && (exists a ::
          Offers(audiences, a, uid) && a.rule == got.rule && got.person in a.users && got.person.userId == uid)
    && forall b :: Offers(audiences, b, uid) ==> Beats(got.rule, b.rule)
  }

  /** The person got what the i-th audience in priority order offers, and none before offers anything. */
  ghost predicate FirstOffer(audiences: seq<Audience>, ordered: seq<Audience>, i: nat, uid: nat, got: Assigned)
    requires i < |ordered|
  {
    && Offers(audiences, ordered[i], uid)
    && got.rule == ordered[i].rule && got.person in ordered[i].users && got.person.userId == uid
    && forall j :: 0 <= j < i ==> !Offers(audiences, ordered[j], uid)
  }

  /** Whom the first `n` audiences in priority order have served, and with what. */
  ghost predicate Served(audiences: seq<Audience>, ordered: seq<Audience>, n: nat, out: map<nat, Assigned>)
    requires n <= |ordered|
  {
    && (forall uid :: uid in out ==> exists i :: 0 <= i < n && FirstOffer(audiences, ordered, i, uid, out[uid]))
    && (forall uid, i :: 0 <= i < n && Offers(audiences, ordered[i], uid) ==> uid in out)
  }

  method AssignRecipients(audiences: seq<Audience>) returns (out: map<nat, Assigned>)
    ensures forall uid :: uid in out ==> BestOffer(audiences, uid, out[uid])
    ensures forall uid, a :: Offers(audiences, a, uid) ==> uid in out
    ensures forall a, p :: a in audiences && p in a.users && p.userId != 0 ==> p.userId in out
  {
    var leads := LedUnderOthers(TeamRecords(audiences));
    var ordered := Sort(AudienceKey, audiences);
    SameMembers(ordered, audiences);
    out := map[];
    for i := 0 to |ordered|
      invariant Served(audiences, ordered, i, out)
    {
      out := ServeAudience(audiences, ordered, i, leads, out);
    }
    ServedIsBest(audiences, ordered, out);
    forall a, p | a in audiences && p in a.users && p.userId != 0 ensures p.userId in out {
      EveryoneIsOffered(audiences, a, p);
    }
  }

  /** Adds the people one audience serves who have no digest yet. */
  method ServeAudience(ghost audiences: seq<Audience>, ordered: seq<Audience>, i: nat, leads: set<nat>,
                       before: map<nat, Assigned>)
    returns (out: map<nat, Assigned>)
    requires i < |ordered| && ordered[i] in audiences && Served(audiences, ordered, i, before)
    requires forall uid :: uid in leads <==> TeamLead(audiences, uid)
    ensures Served(audiences, ordered, i + 1, out)
  {
    var a := ordered[i];
    out := before;
    for k := 0 to |a.users|
      invariant forall uid :: uid in before ==> uid in out && out[uid] == before[uid]
      invariant forall uid :: uid in out && uid !in before ==>
        && Offers(audiences, a, uid) && out[uid].rule == a.rule
        && out[uid].person in a.users && out[uid].person.userId == uid
      invariant forall j :: 0 <= j < k && Offers(audiences, a, a.users[j].userId) ==> a.users[j].userId in out
    {
      var u := a.users[k];
      if a.rule.admins && u.userId in leads {
        continue;
      }
      if u.userId != 0 && u.userId !in out {
        assert u in a.users;
        out := out[u.userId := Assigned(a.rule, u)];
      }
    }
    ServedGrows(audiences, ordered, i, before, out);
  }

  lemma ServedGrows(audiences: seq<Audience>, ordered: seq<Audience>, i: nat,
                    before: map<nat, Assigned>, out: map<nat, Assigned>)
    requires i < |ordered| && Served(audiences, ordered, i, before)
    requires forall uid :: uid in before ==> uid in out && out[uid] == before[uid]
    requires forall uid :: uid in out && uid !in before ==>
        Offers(audiences, ordered[i], uid) && out[uid].rule == ordered[i].rule && out[uid].person in ordered[i].users
        && out[uid].person.userId == uid
    requires forall j :: 0 <= j < |ordered[i].users| && Offers(audiences, ordered[i], ordered[i].users[j].userId) ==>
        ordered[i].users[j].userId in out
    ensures Served(audiences, ordered, i + 1, out)
  {
    forall uid | uid in out ensures exists k :: 0 <= k < i + 1 && FirstOffer(audiences, ordered, k, uid, out[uid]) {
      if uid in before {
        var k :| 0 <= k < i && FirstOffer(audiences, ordered, k, uid, before[uid]);
        assert FirstOffer(audiences, ordered, k, uid, out[uid]);
      } else {
        assert FirstOffer(audiences, ordered, i, uid, out[uid]);
      }
    }
    forall uid, k | 0 <= k < i + 1 && Offers(audiences, ordered[k], uid) ensures uid in out {
      if k == i {
        var p :| p in ordered[i].users && p.userId == uid;
        var j :| 0 <= j < |ordered[i].users| && ordered[i].users[j] == p;
      }
    }
  }

  lemma FirstOfferIsBest(audiences: seq<Audience>, ordered: seq<Audience>, i: nat, uid: nat, got: Assigned)
    requires ordered == Sort(AudienceKey, audiences) && i < |ordered| && FirstOffer(audiences, ordered, i, uid, got)
    ensures BestOffer(audiences, uid, got)
  {
    SortIsSorted(AudienceKey, audiences);
    SameMembers(ordered, audiences);
    forall b | Offers(audiences, b, uid) ensures Beats(got.rule, b.rule) {
      assert b in ordered;
      var j :| 0 <= j < |ordered| && ordered[j] == b;
      assert i < j ==> Leq(AudienceKey(ordered[i]), AudienceKey(ordered[j]));
    }
  }

  lemma ServedIsBest(audiences: seq<Audience>, ordered: seq<Audience>, out: map<nat, Assigned>)
    requires ordered == Sort(AudienceKey, audiences) && Served(audiences, ordered, |ordered|, out)
    ensures forall uid :: uid in out ==> BestOffer(audiences, uid, out[uid])
    ensures forall uid, a :: Offers(audiences, a, uid) ==> uid in out
  {
    SameMembers(ordered, audiences);
    forall uid, a | Offers(audiences, a, uid) ensures uid in out {
      assert a in ordered;
    }
    forall uid | uid in out ensures BestOffer(audiences, uid, out[uid]) {
      var i :| 0 <= i < |ordered| && FirstOffer(audiences, ordered, i, uid, out[uid]);
      FirstOfferIsBest(audiences, ordered, i, uid, out[uid]);
    }
  }

  /** Withholding the admins' rules from team leads leaves nobody without a digest: whoever is
      in some audience is offered one. */
  lemma EveryoneIsOffered(audiences: seq<Audience>, a: Audience, p: Person)
    requires a in audiences && p in a.users && p.userId != 0
    ensures exists b :: Offers(audiences, b, p.userId)
  {
    if a.rule.admins && TeamLead(audiences, p.userId) {
      TeamRecordsAre(audiences);
      var r :| r in TeamRecords(audiences) && r.userId == p.userId && r.subordinates != {};
      var b :| b in audiences && !b.rule.admins && r in b.users;
      assert Offers(audiences, b, p.userId);
    } else {
      assert Offers(audiences, a, p.userId);
    }
  }

  /** Rules are told apart by their ids. */
  ghost predicate DistinctRuleIds(audiences: seq<Audience>) {
    forall a, b :: a in audiences && b in audiences && a.rule.id.GetOr(0) == b.rule.id.GetOr(0) ==> a.rule == b.rule
  }

  lemma {:induction false} TeamRecordsSame(a: seq<Audience>, b: seq<Audience>, uid: nat)
    requires multiset(a) == multiset(b)
    ensures TeamLead(a, uid) <==> TeamLead(b, uid)
  {
    TeamRecordsAre(a);
    TeamRecordsAre(b);
    SameMembers(a, b);
  }

  /** The rule a person's digest comes from does not depend on the order of the audiences. */
  lemma RuleIgnoresOrder(a: seq<Audience>, b: seq<Audience>, uid: nat, got: Assigned, other: Assigned)
    requires DistinctRuleIds(a) && multiset(a) == multiset(b)
    requires BestOffer(a, uid, got) && BestOffer(b, uid, other)
    ensures got.rule == other.rule
  {
    SameMembers(a, b);
    TeamRecordsSame(a, b, uid);
    forall x ensures Offers(a, x, uid) <==> Offers(b, x, uid) {
    }
    var x :| Offers(a, x, uid) && x.rule == got.rule;
    var y :| Offers(b, y, uid) && y.rule == other.rule;
    assert Beats(x.rule, y.rule) && Beats(y.rule, x.rule);
  }
}
