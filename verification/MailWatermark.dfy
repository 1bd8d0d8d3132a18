/**
 The UID watermark of incremental IMAP sync, within one UIDVALIDITY epoch: which UIDs a
 folder pass hands on for storing, and what becomes of every UID over a whole run of
 deliveries, expunges and passes (sections 2.3.1.1 and 6.4.8 of RFC 3501).
 */
module MailWatermark {
  import opened StableSort

  const MAX_PER_PASS := 200

  function UidKey(u: nat): Key { Key(u, 0) }

  /** The listed UIDs above the watermark, and all of them before the first watermark. */
  function Above(last: nat, listed: seq<nat>): (r: seq<nat>)
    ensures forall u :: u in r <==> u in listed && (last == 0 || u > last)
  {
    if listed == [] then []
    else
      assert listed == [listed[0]] + listed[1..];
      (if last == 0 || listed[0] > last then [listed[0]] else []) + Above(last, listed[1..])
  }

  /** The UIDs one pass fetches: the lowest ones, up to the cap, in ascending order. */
  function Batch(last: nat, listed: seq<nat>): seq<nat> {
    var ascending := Sort(UidKey, Above(last, listed));
    if |ascending| <= MAX_PER_PASS then ascending else ascending[..MAX_PER_PASS]
  }

  /** The UIDs of a batch the server returned a body for. */
  function Readable(batch: seq<nat>, bodies: set<nat>): (r: seq<nat>)
    ensures forall u :: u in r <==> u in batch && u in bodies
  {
    if batch == [] then []
    else
      var n := |batch| - 1;
      assert batch == batch[..n] + [batch[n]];
      Readable(batch[..n], bodies) + if batch[n] in bodies then [batch[n]] else []
  }

  function Last(last: nat, handed: seq<nat>): nat {
    if handed == [] then last else handed[|handed| - 1]
  }

  ghost predicate Ascending(s: seq<nat>) {
    forall i, j :: 0 <= i < j < |s| ==> s[i] < s[j]
  }

  ghost predicate Distinct(s: seq<nat>) {
    forall i, j :: 0 <= i < j < |s| ==> s[i] != s[j]
  }

  // ----- one pass -----

  lemma {:induction false} AboveIsDistinct(last: nat, listed: seq<nat>)
    requires Distinct(listed)
    ensures Distinct(Above(last, listed))
  {
    if listed != [] {
      assert listed[0] !in listed[1..];
      AboveIsDistinct(last, listed[1..]);
    }
  }

  lemma CountSplit(s: seq<nat>, i: nat, u: nat)
    requires i < |s|
    ensures multiset(s)[u] == multiset(s[..i])[u] + multiset(s[i + 1..])[u] + if s[i] == u then 1 else 0
  {
    assert s == s[..i] + [s[i]] + s[i + 1..];
  }

  lemma DistinctCountsOne(s: seq<nat>, u: nat)
    requires Distinct(s)
    ensures multiset(s)[u] <= 1
  {
    if u in s {
      var i :| 0 <= i < |s| && s[i] == u;
      CountSplit(s, i, u);
      assert u !in s[..i] && u !in s[i + 1..];
    }
  }

  lemma CountsOneDistinct(s: seq<nat>)
    requires forall u :: multiset(s)[u] <= 1
    ensures Distinct(s)
  {
    forall i, j | 0 <= i < j < |s| ensures s[i] != s[j] {
      CountSplit(s, j, s[i]);
      assert s[i] == s[..j][i];
      assert s[i] in s[..j];
    }
  }

  lemma PermutedDistinct(a: seq<nat>, b: seq<nat>)
    requires Distinct(a) && multiset(a) == multiset(b)
    ensures Distinct(b) && |a| == |b|
  {
    forall u ensures multiset(b)[u] <= 1 {
      DistinctCountsOne(a, u);
    }
    CountsOneDistinct(b);
    assert |multiset(a)| == |multiset(b)|;
  }

  /** A batch ascends, and holds every UID above the watermark that is no higher than its top. */
  lemma BatchIsLowest(last: nat, listed: seq<nat>)
    requires Distinct(listed)
    ensures Ascending(Batch(last, listed))
    ensures forall u :: u in Batch(last, listed) ==> u in Above(last, listed)
    ensures forall u, top :: u in Above(last, listed) && top in Batch(last, listed) && u <= top ==>
              u in Batch(last, listed)
    ensures |Batch(last, listed)| ==
            if |Above(last, listed)| <= 200 then |Above(last, listed)| else 200
  {
    var above := Above(last, listed);
    var s := Sort(UidKey, above);
    SortIsSorted(UidKey, above);
    SameMembers(s, above);
    AboveIsDistinct(last, listed);
    PermutedDistinct(above, s);
    forall i, j | 0 <= i < j < |s| ensures s[i] < s[j] {
      assert Leq(UidKey(s[i]), UidKey(s[j]));
    }
  }

  lemma {:induction false} ReadableAscends(batch: seq<nat>, bodies: set<nat>)
    requires Ascending(batch)
    ensures Ascending(Readable(batch, bodies))
  {
    if batch != [] {
      var n := |batch| - 1;
      ReadableAscends(batch[..n], bodies);
      assert batch[n] in bodies ==> Readable(batch, bodies) == Readable(batch[..n], bodies) + [batch[n]];
      forall i | 0 <= i < |Readable(batch[..n], bodies)| ensures Readable(batch[..n], bodies)[i] < batch[n] {
        assert Readable(batch[..n], bodies)[i] in batch[..n];
      }
    }
  }

  function HandedBy(last: nat, listed: seq<nat>, bodies: set<nat>): seq<nat> {
    Readable(Batch(last, listed), bodies)
  }

  /** `got` is what a pass hands on: of the UIDs the watermark moves over, exactly those the
      server listed and returned a body for, in ascending order. */
  ghost predicate Took(last: nat, listed: seq<nat>, bodies: set<nat>, got: seq<nat>) {
    && Ascending(got)
    && last <= Last(last, got)
    && (forall u :: u in got ==> last < u)
    && (forall u :: last < u <= Last(last, got) ==> (u in got <==> u in listed && u in bodies))
    && (forall u :: u in got ==> u <= Last(last, got))
  }

  lemma TookFrom(last: nat, listed: seq<nat>, bodies: set<nat>, batch: seq<nat>, got: seq<nat>)
    requires 0 !in listed
    requires forall u :: u in batch ==> u in listed && (last == 0 || u > last)
    requires forall u, top :: u in listed && u > last && top in batch && u <= top ==> u in batch
    requires Ascending(got) && forall u :: u in got <==> u in batch && u in bodies
    ensures Took(last, listed, bodies, got)
  {
    var top := Last(last, got);
    if got != [] {
      assert top in got && top in batch;
    }
  }

  /** What one pass does to every UID the watermark moves over: it is handed on exactly when
      the server listed it and returned its body. */
  lemma PassHandsExactly(last: nat, listed: seq<nat>, bodies: set<nat>)
    requires Distinct(listed) && 0 !in listed
    ensures Took(last, listed, bodies, HandedBy(last, listed, bodies))
    ensures forall u :: u in HandedBy(last, listed, bodies) <==> u in Batch(last, listed) && u in bodies
  {
    var batch, got := Batch(last, listed), HandedBy(last, listed, bodies);
    BatchIsLowest(last, listed);
    ReadableAscends(batch, bodies);
    TookFrom(last, listed, bodies, batch, got);
  }

  /** So a UID of a batch whose body is missing is lost for good if and only if a higher UID of
      the same batch has a body. */
  lemma BodylessIsLostExactly(last: nat, listed: seq<nat>, bodies: set<nat>, u: nat)
    requires Distinct(listed) && 0 !in listed
    requires u in Batch(last, listed) && u !in bodies && u > last
    ensures u <= Last(last, HandedBy(last, listed, bodies)) <==>
            exists v :: v in Batch(last, listed) && v > u && v in bodies
  {
    PassHandsExactly(last, listed, bodies);
    BatchIsLowest(last, listed);
    LostBelowTop(last, Batch(last, listed), bodies, HandedBy(last, listed, bodies), u);
  }

  lemma LostBelowTop(last: nat, batch: seq<nat>, bodies: set<nat>, got: seq<nat>, u: nat)
    requires forall v :: v in got <==> v in batch && v in bodies
    requires forall v :: v in got ==> v <= Last(last, got)
    requires u !in got && u > last
    ensures u <= Last(last, got) <==> exists v :: v in batch && v > u && v in bodies
  {
    assert got != [] ==> Last(last, got) in got;
    if v :| v in batch && v > u && v in bodies {
      assert v in got;
    }
  }

  // ----- runs -----

  /** What happened to a UID when the watermark moved over it. */
  datatype Fate = Handed | Bodyless | Unlisted | Absent

  /** `next` is the server's UIDNEXT; `base` is the first watermark ever set, the end of the
      backfill; `reported` and `fate` record the past. */
  datatype World = World(mailbox: set<nat>, next: nat, last: nat, base: nat,
                         reported: set<nat>, handed: seq<nat>, fate: map<nat, Fate>)

  const Start := World({}, 1, 0, 0, {}, [], map[])

  datatype Event =
    | Deliver(gap: nat)
    | Expunge(u: nat)
    | Pass(listed: seq<nat>, bodies: set<nat>)

  function Classify(w: World, listed: seq<nat>, bodies: set<nat>, u: nat): Fate {
    if u !in w.mailbox then Absent
    else if u !in listed then Unlisted
    else if u !in bodies then Bodyless
    else Handed
  }

  function Advance(w: World, listed: seq<nat>, bodies: set<nat>, got: seq<nat>): World {
    var last := Last(w.last, got);
    w.(last := last,
       base := if w.base == 0 then last else w.base,
       reported := w.reported + (set u | u in listed),
       handed := w.handed + got,
       fate := w.fate + map u | w.last < u <= last :: Classify(w, listed, bodies, u))
  }

  function AfterPass(w: World, listed: seq<nat>, bodies: set<nat>): World {
    Advance(w, listed, bodies, HandedBy(w.last, listed, bodies))
  }

  function Next(w: World, e: Event): World {
    match e
    case Deliver(gap) => w.(mailbox := w.mailbox + {w.next + gap}, next := w.next + gap + 1)
    case Expunge(u) => w.(mailbox := w.mailbox - {u})
    case Pass(listed, bodies) => AfterPass(w, listed, bodies)
  }

  function Run(w: World, events: seq<Event>): World
    decreases |events|
  {
    if events == [] then w else Run(Next(w, events[0]), events[1..])
  }

  ghost predicate IsHighest(mailbox: set<nat>, u: nat) {
    u in mailbox && forall v :: v in mailbox ==> v <= u
  }

  /** The server's answer to a search: any existing UIDs for the backfill's date search; for
      `UID n:*` those from `n` on and always the highest one, in any order. */
  ghost predicate Answers(w: World, listed: seq<nat>) {
    && Distinct(listed)
    && (forall u :: u in listed ==> u in w.mailbox)
    && (w.last > 0 ==>
          forall u :: u in w.mailbox ==> (u in listed <==> u > w.last || IsHighest(w.mailbox, u)))
  }

  ghost predicate Possible(w: World, events: seq<Event>)
    decreases |events|
  {
    events != [] ==>
      (events[0].Pass? ==> Answers(w, events[0].listed)) && Possible(Next(w, events[0]), events[1..])
  }

  ghost predicate InBounds(w: World) {
    && (forall u :: u in w.mailbox ==> 1 <= u < w.next)
    && w.last < w.next
    && (w.base == 0 <==> w.last == 0) && w.base <= w.last
  }

  ghost predicate HandedInOrder(w: World) {
    && Ascending(w.handed) && Last(0, w.handed) == w.last
    && forall u :: u in w.handed ==> 1 <= u <= w.last
  }

  ghost predicate FatesRecorded(w: World) {
    && (forall u :: u in w.fate <==> 1 <= u <= w.last)
    && (forall u :: u in w.handed ==> u in w.fate)
    && (forall u :: u in w.fate ==> (u in w.handed <==> w.fate[u] == Handed))
  }

  ghost predicate FatesExplained(w: World) {
    && (forall u :: u in w.fate && u in w.mailbox ==> w.fate[u] != Absent)
    && (forall u :: u in w.fate && w.fate[u] == Unlisted ==> u < w.base)
  }

  ghost predicate Inv(w: World) {
    InBounds(w) && HandedInOrder(w) && FatesRecorded(w) && FatesExplained(w)
  }

  lemma AscendingConcat(a: seq<nat>, b: seq<nat>, mid: nat)
    requires Ascending(a) && Ascending(b)
    requires (forall u :: u in a ==> u <= mid) && (forall u :: u in b ==> mid < u)
    ensures Ascending(a + b)
  {
    forall i, j | 0 <= i < |a| && 0 <= j < |b| ensures a[i] < b[j] {
      assert a[i] in a && b[j] in b;
    }
  }

  /** A pass keeps the invariant and never lowers the watermark. */
  lemma PassKeepsInv(w: World, listed: seq<nat>, bodies: set<nat>)
    requires Inv(w) && Answers(w, listed)
    ensures Inv(AfterPass(w, listed, bodies))
    ensures AfterPass(w, listed, bodies).last >= w.last
  {
    PassHandsExactly(w.last, listed, bodies);
    AdvanceKeepsInv(w, listed, bodies, HandedBy(w.last, listed, bodies));
  }

  lemma AdvanceKeepsInv(w: World, listed: seq<nat>, bodies: set<nat>, got: seq<nat>)
    requires Inv(w) && Answers(w, listed) && Took(w.last, listed, bodies, got)
    ensures Inv(Advance(w, listed, bodies, got))
  {
    AdvanceStaysInBounds(w, listed, bodies, got);
    AdvanceKeepsOrder(w, listed, bodies, got);
    AdvanceRecordsFates(w, listed, bodies, got);
    AdvanceExplainsFates(w, listed, bodies, got);
  }

  lemma TakenExist(w: World, listed: seq<nat>, bodies: set<nat>, got: seq<nat>)
    requires Answers(w, listed) && Took(w.last, listed, bodies, got)
    ensures forall u :: u in got ==> u in w.mailbox
    ensures got != [] ==> Last(w.last, got) in got
  {
  }

  lemma AdvanceStaysInBounds(w: World, listed: seq<nat>, bodies: set<nat>, got: seq<nat>)
    requires Inv(w) && Answers(w, listed) && Took(w.last, listed, bodies, got)
    ensures InBounds(Advance(w, listed, bodies, got))
  {
    TakenExist(w, listed, bodies, got);
  }

  lemma AdvanceKeepsOrder(w: World, listed: seq<nat>, bodies: set<nat>, got: seq<nat>)
    requires HandedInOrder(w) && Took(w.last, listed, bodies, got)
    ensures HandedInOrder(Advance(w, listed, bodies, got))
  {
    AscendingConcat(w.handed, got, w.last);
    assert forall u :: u in w.handed + got <==> u in w.handed || u in got;
  }

  lemma AdvanceRecordsFates(w: World, listed: seq<nat>, bodies: set<nat>, got: seq<nat>)
    requires HandedInOrder(w) && FatesRecorded(w) && Answers(w, listed) && Took(w.last, listed, bodies, got)
    ensures FatesRecorded(Advance(w, listed, bodies, got))
  {
    TakenExist(w, listed, bodies, got);
    FatesAgree(w, Advance(w, listed, bodies, got), got);
  }

  lemma AdvanceExplainsFates(w: World, listed: seq<nat>, bodies: set<nat>, got: seq<nat>)
    requires InBounds(w) && FatesRecorded(w) && FatesExplained(w)
    requires Answers(w, listed) && Took(w.last, listed, bodies, got)
    ensures FatesExplained(Advance(w, listed, bodies, got))
  {
    TakenExist(w, listed, bodies, got);
    var v := Advance(w, listed, bodies, got);
    forall u | w.last < u <= v.last && Classify(w, listed, bodies, u) == Unlisted ensures u < v.base {
      assert got != [] && v.last in listed;
    }
  }

  lemma FatesAgree(w: World, v: World, got: seq<nat>)
    requires FatesRecorded(w) && v.handed == w.handed + got && w.last <= v.last
    requires forall u :: u in v.fate <==> 1 <= u <= v.last
    requires forall u :: u in w.fate ==> v.fate[u] == w.fate[u]
    requires forall u :: u in got ==> w.last < u <= v.last
    requires forall u :: w.last < u <= v.last ==> (u in got <==> v.fate[u] == Handed)
    ensures FatesRecorded(v)
  {
    forall u ensures u in v.handed <==> u in v.fate && v.fate[u] == Handed {
      assert u in v.handed <==> u in w.handed || u in got;
    }
  }

  lemma {:induction false} RunKeepsInv(w: World, events: seq<Event>)
    requires Inv(w) && Possible(w, events)
    ensures Inv(Run(w, events)) && Run(w, events).last >= w.last
    decreases |events|
  {
    if events != [] {
      if events[0].Pass? {
        PassKeepsInv(w, events[0].listed, events[0].bodies);
      }
      RunKeepsInv(Next(w, events[0]), events[1..]);
    }
  }

  /** Over every run: the UIDs handed on strictly ascend, so none is handed twice; the
      watermark is the last of them and never falls; and each UID up to it was handed on
      unless, when the watermark passed it, it no longer existed, its body was missing, or
      the backfill's date search had left it out. */
  lemma EveryUidAccountedFor(events: seq<Event>)
    requires Possible(Start, events)
    ensures var w := Run(Start, events);
            && Ascending(w.handed) && Last(0, w.handed) == w.last
            && (forall u :: u in w.fate <==> 1 <= u <= w.last)
            && (forall u :: 1 <= u <= w.last ==> (u in w.handed <==> w.fate[u] == Handed))
            && (forall u :: 1 <= u <= w.last && w.fate[u] == Unlisted ==> u < w.base)
            && (forall u :: 1 <= u <= w.last && u in w.mailbox ==> w.fate[u] != Absent)
  {
    RunKeepsInv(Start, events);
  }

  /** Some pass of the run moved the watermark over `u` while the server listed it and returned
      its body. */
  ghost predicate PassedWithBody(w: World, events: seq<Event>, u: nat)
    decreases |events|
  {
    events != [] &&
    ((events[0].Pass? && w.last < u <= Next(w, events[0]).last && u in events[0].listed && u in events[0].bodies)
     || PassedWithBody(Next(w, events[0]), events[1..], u))
  }

  lemma {:induction false} HandedExactly(w: World, events: seq<Event>, u: nat)
    requires Inv(w) && Possible(w, events)
    ensures u in Run(w, events).handed <==> u in w.handed || PassedWithBody(w, events, u)
    decreases |events|
  {
    if events != [] {
      var e := events[0];
      if e.Pass? {
        PassKeepsInv(w, e.listed, e.bodies);
        PassHandsExactly(w.last, e.listed, e.bodies);
        assert u in Next(w, e).handed <==> u in w.handed || u in HandedBy(w.last, e.listed, e.bodies);
      }
      HandedExactly(Next(w, e), events[1..], u);
    }
  }

  /** So a UID a search reported is handed on, once the watermark has reached it, if and only if
      the pass that moved the watermark over it found it listed and got its body; that a search
      has reported it counts for nothing. */
  lemma ReportedIsHandedExactly(events: seq<Event>, u: nat)
    requires Possible(Start, events)
    requires u in Run(Start, events).reported && u <= Run(Start, events).last
    ensures u in Run(Start, events).handed <==> PassedWithBody(Start, events, u)
  {
    HandedExactly(Start, events, u);
  }

  // ----- no mail left behind -----

  /** Every message still on the server at or below the watermark was handed on. */
  ghost predicate NothingLeftBehind(w: World) {
    forall u :: u in w.mailbox && u <= w.last ==> u in w.handed
  }

  /** Below the highest UID of the batch that has a body, the server listed every existing
      message above the watermark and returned its body. */
  ghost predicate Complete(w: World, listed: seq<nat>, bodies: set<nat>) {
    CompleteUpTo(w, listed, bodies, Batch(w.last, listed))
  }

  ghost predicate CompleteUpTo(w: World, listed: seq<nat>, bodies: set<nat>, batch: seq<nat>) {
    forall u, top :: u in w.mailbox && w.last < u <= top && top in batch && top in bodies ==>
      u in listed && u in bodies
  }

  /** A pass keeps that property exactly when its answers are complete. */
  lemma PassLeavesNothingBehindExactly(w: World, listed: seq<nat>, bodies: set<nat>)
    requires Inv(w) && Answers(w, listed) && NothingLeftBehind(w)
    ensures NothingLeftBehind(AfterPass(w, listed, bodies)) <==> Complete(w, listed, bodies)
  {
    PassHandsExactly(w.last, listed, bodies);
    AdvanceLeavesNothingBehind(w, listed, bodies, Batch(w.last, listed), HandedBy(w.last, listed, bodies));
  }

  /** An incremental pass, or one that lists everything, with a body for each UID of its batch
      is complete. */
  lemma FullAnswersAreComplete(w: World, listed: seq<nat>, bodies: set<nat>)
    requires Inv(w) && Answers(w, listed) && (w.last > 0 || ListsAll(w, listed))
    requires forall u :: u in Batch(w.last, listed) ==> u in bodies
    ensures Complete(w, listed, bodies)
  {
    BatchIsLowest(w.last, listed);
    forall u, top | u in w.mailbox && w.last < u <= top && top in Batch(w.last, listed) && top in bodies
      ensures u in listed && u in bodies
    {
      assert u in Above(w.last, listed);
    }
  }

  lemma AdvanceLeavesNothingBehind(w: World, listed: seq<nat>, bodies: set<nat>, batch: seq<nat>, got: seq<nat>)
    requires Inv(w) && NothingLeftBehind(w) && Took(w.last, listed, bodies, got)
    requires forall u :: u in got <==> u in batch && u in bodies
    ensures NothingLeftBehind(Advance(w, listed, bodies, got)) <==> CompleteUpTo(w, listed, bodies, batch)
  {
    var v := Advance(w, listed, bodies, got);
    assert got != [] ==> v.last in got;
    forall u | u in w.mailbox && w.last < u <= v.last
      ensures u in v.handed <==> u in listed && u in bodies
    {
      assert u in w.handed ==> u in w.fate;
      assert u in v.handed <==> u in w.handed || u in got;
    }
    forall u | u in w.mailbox && u <= w.last ensures u in v.handed {
      assert u in w.handed;
    }
  }

  /** The server listed all there is, as a search for `ALL` does. */
  ghost predicate ListsAll(w: World, listed: seq<nat>) {
    forall u :: u in w.mailbox ==> u in listed
  }

  /** Every pass made before there is a watermark lists the whole mailbox. */
  ghost predicate BackfillsAll(w: World, events: seq<Event>)
    decreases |events|
  {
    events != [] ==>
      && (events[0].Pass? && w.last == 0 ==> ListsAll(w, events[0].listed))
      && BackfillsAll(Next(w, events[0]), events[1..])
  }

  /** Once there is a watermark no pass is a backfill. */
  lemma {:induction false} BackfillIsOver(w: World, events: seq<Event>)
    requires Inv(w) && w.last > 0 && Possible(w, events)
    ensures BackfillsAll(w, events)
    decreases |events|
  {
    if events != [] {
      if events[0].Pass? {
        PassKeepsInv(w, events[0].listed, events[0].bodies);
      }
      BackfillIsOver(Next(w, events[0]), events[1..]);
    }
  }

  ghost predicate AllBodiesServed(w: World, events: seq<Event>)
    decreases |events|
  {
    events != [] ==>
      && (events[0].Pass? ==> forall u :: u in Batch(w.last, events[0].listed) ==> u in events[0].bodies)
      && AllBodiesServed(Next(w, events[0]), events[1..])
  }

  /** From any such world, every run whose backfill is complete and whose fetches return all
      bodies leaves nothing behind. */
  lemma {:induction false} RunLeavesNothingBehind(w: World, events: seq<Event>)
    requires Inv(w) && NothingLeftBehind(w)
    requires Possible(w, events) && BackfillsAll(w, events) && AllBodiesServed(w, events)
    ensures NothingLeftBehind(Run(w, events))
    decreases |events|
  {
    if events != [] {
      var e := events[0];
      if e.Pass? {
        PassKeepsInv(w, e.listed, e.bodies);
        FullAnswersAreComplete(w, e.listed, e.bodies);
        PassLeavesNothingBehindExactly(w, e.listed, e.bodies);
      }
      RunLeavesNothingBehind(Next(w, e), events[1..]);
    }
  }

  /** In particular every run of an account that backfills everything, from its first pass on. */
  lemma FullBackfillLosesNothing(events: seq<Event>)
    requires Possible(Start, events) && BackfillsAll(Start, events) && AllBodiesServed(Start, events)
    ensures NothingLeftBehind(Run(Start, events))
  {
    RunLeavesNothingBehind(Start, events);
  }

  /** A message above the watermark that stays on the server is handed on exactly when the
      watermark reaches it, whatever was left behind below. */
  ghost predicate StoredWhenReached(w: World, u: nat) {
    u in w.mailbox && (u <= w.last <==> u in w.handed)
  }

  lemma PassStoresWhatItReaches(w: World, listed: seq<nat>, bodies: set<nat>, u: nat)
    requires Inv(w) && Answers(w, listed) && StoredWhenReached(w, u)
    requires w.last == 0 ==> ListsAll(w, listed)
    requires forall v :: v in Batch(w.last, listed) ==> v in bodies
    ensures StoredWhenReached(AfterPass(w, listed, bodies), u)
  {
    var got := HandedBy(w.last, listed, bodies);
    PassHandsExactly(w.last, listed, bodies);
    BatchIsLowest(w.last, listed);
    assert got != [] ==> Last(w.last, got) in got;
    assert u in w.handed + got <==> u in w.handed || u in got;
    assert u > w.last ==> u in Above(w.last, listed);
  }

  /** So a UID cut off by the cap stays above the watermark, and over any later run with all
      bodies, until it is expunged, it is handed on exactly when the watermark reaches it. */
  lemma {:induction false} PendingIsStoredWhenReached(w: World, u: nat, events: seq<Event>)
    requires Inv(w) && StoredWhenReached(w, u) && Expunge(u) !in events
    requires Possible(w, events) && BackfillsAll(w, events) && AllBodiesServed(w, events)
    ensures StoredWhenReached(Run(w, events), u)
    decreases |events|
  {
    if events != [] {
      var e := events[0];
      assert e in events;
      if e.Pass? {
        PassKeepsInv(w, e.listed, e.bodies);
        PassStoresWhatItReaches(w, e.listed, e.bodies, u);
      }
      PendingIsStoredWhenReached(Next(w, e), u, events[1..]);
    }
  }

  /** What a search reported is not, for that alone, handed on once the watermark is past it:
      `UID n:*` answers with the highest UID even below `n`. Here the date search leaves out
      UID 1, UID 2 is taken and then expunged, and the next search reports UID 1. */
  lemma ReportedNeedNotBeHanded() returns (events: seq<Event>)
    ensures Possible(Start, events)
    ensures var w := Run(Start, events); 1 in w.reported && 1 <= w.last && 1 !in w.handed
  {
    var e, w := Extend([], Start, Deliver(0));
    e, w := Extend(e, w, Deliver(0));
    e, w := ExtendByUidTwo(e, w);
    e, w := Extend(e, w, Expunge(2));
    events := ExtendByHighest(e, w);
  }

  lemma ExtendByUidTwo(events: seq<Event>, w: World) returns (longer: seq<Event>, v: World)
    requires Possible(Start, events) && Run(Start, events) == w
    requires w.mailbox == {1, 2} && w.last == 0 && w.handed == []
    ensures Possible(Start, longer) && Run(Start, longer) == v
    ensures v.mailbox == {1, 2} && v.last == 2 && v.handed == [2]
  {
    PassOverOne(0, 2);
    TakingOne(w, 2);
    longer, v := Extend(events, w, Pass([2], {2}));
  }

  lemma TakingOne(w: World, u: nat)
    requires u in w.mailbox && w.last == 0 && w.handed == []
    ensures Answers(w, [u])
    ensures var v := Advance(w, [u], {u}, [u]); v.mailbox == w.mailbox && v.last == u && v.handed == [u]
  {
  }

  lemma ExtendByHighest(events: seq<Event>, w: World) returns (longer: seq<Event>)
    requires Possible(Start, events) && Run(Start, events) == w
    requires w.mailbox == {1} && w.last == 2 && w.handed == [2]
    ensures Possible(Start, longer)
    ensures var v := Run(Start, longer); 1 in v.reported && 1 <= v.last && 1 !in v.handed
  {
    PassOverOne(2, 1);
    assert IsHighest(w.mailbox, 1) && 1 in [1];
    var e, v := Extend(events, w, Pass([1], {1}));
    longer := e;
  }

  lemma PassOverOne(last: nat, u: nat)
    ensures HandedBy(last, [u], {u}) == if last == 0 || u > last then [u] else []
  {
    var above := Above(last, [u]);
    assert Above(last, [u][1..]) == [];
    assert above == (if last == 0 || u > last then [u] else []) + [];
    assert above != [] ==> Sort(UidKey, above[1..]) == [];
    assert Batch(last, [u]) == above;
    assert Readable([u][..0], {u}) == [];
    assert Readable([u], {u}) == [] + [u];
  }

  /** Appends one event to a possible run. */
  lemma Extend(events: seq<Event>, w: World, e: Event) returns (longer: seq<Event>, v: World)
    requires Possible(Start, events) && Run(Start, events) == w
    requires e.Pass? ==> Answers(w, e.listed)
    ensures v == Next(w, e)
    ensures Possible(Start, longer) && Run(Start, longer) == v
  {
    RunAppend(Start, events, e);
    longer, v := events + [e], Next(w, e);
  }

  lemma {:induction false} RunAppend(w: World, events: seq<Event>, e: Event)
    requires Possible(w, events)
    requires e.Pass? ==> Answers(Run(w, events), e.listed)
    ensures Possible(w, events + [e]) && Run(w, events + [e]) == Next(Run(w, events), e)
    decreases |events|
  {
    if events == [] {
      assert ([] + [e])[1..] == [];
    } else {
      assert (events + [e])[1..] == events[1..] + [e];
      RunAppend(Next(w, events[0]), events[1..], e);
    }
  }

  /** A UID cut off by the cap is above the watermark after the pass and after any later run is
      handed on exactly when the watermark has reached it, as long as it exists. */
  lemma CutOffIsStoredLater(w: World, listed: seq<nat>, bodies: set<nat>, u: nat, events: seq<Event>)
    requires Inv(w) && Answers(w, listed)
    requires u in Above(w.last, listed) && u !in Batch(w.last, listed)
    requires var v := AfterPass(w, listed, bodies);
             Possible(v, events) && BackfillsAll(v, events) && AllBodiesServed(v, events) && Expunge(u) !in events
    ensures AfterPass(w, listed, bodies).last < u
    ensures StoredWhenReached(Run(AfterPass(w, listed, bodies), events), u)
  {
    PassKeepsInv(w, listed, bodies);
    PassHandsExactly(w.last, listed, bodies);
    BatchIsLowest(w.last, listed);
    var got := HandedBy(w.last, listed, bodies);
    var v := AfterPass(w, listed, bodies);
    assert got != [] ==> v.last in got && v.last in Batch(w.last, listed);
    assert u in listed && u in w.mailbox;
    assert u in v.handed ==> u in v.fate;
    PendingIsStoredWhenReached(v, u, events);
  }

  // ----- draining a quiet folder -----

  function Pending(w: World): set<nat> {
    set u | u in w.mailbox && u > w.last
  }

  function SetOf(s: seq<nat>): set<nat> { set u | u in s }

  lemma {:induction false} DistinctSize(s: seq<nat>)
    requires Distinct(s)
    ensures |SetOf(s)| == |s|
  {
    if s != [] {
      var n := |s| - 1;
      DistinctSize(s[..n]);
      assert s[n] !in s[..n];
      assert s == s[..n] + [s[n]];
      assert SetOf(s) == SetOf(s[..n]) + {s[n]};
    }
  }

  /** Each pass over a folder nothing changes in takes the 200 lowest pending UIDs. */
  lemma PassDrains(w: World, listed: seq<nat>, bodies: set<nat>)
    requires Inv(w) && Answers(w, listed)
    requires forall u :: u in Pending(w) ==> u in listed
    requires forall u :: u in Batch(w.last, listed) ==> u in bodies
    ensures |Pending(AfterPass(w, listed, bodies))| ==
            if |Pending(w)| <= 200 then 0 else |Pending(w)| - 200
  {
    var above, batch := Above(w.last, listed), Batch(w.last, listed);
    var v := AfterPass(w, listed, bodies);
    PassTakesBatch(w, listed, bodies);
    BatchIsLowest(w.last, listed);
    AboveIsDistinct(w.last, listed);
    DistinctSize(above);
    DistinctSize(batch);
    assert |Pending(w) - SetOf(batch)| == |Pending(w)| - |SetOf(batch)|;
  }

  lemma PassTakesBatch(w: World, listed: seq<nat>, bodies: set<nat>)
    requires Inv(w) && Answers(w, listed)
    requires forall u :: u in Pending(w) ==> u in listed
    requires forall u :: u in Batch(w.last, listed) ==> u in bodies
    ensures SetOf(Above(w.last, listed)) == Pending(w)
    ensures SetOf(Batch(w.last, listed)) <= Pending(w)
    ensures Pending(AfterPass(w, listed, bodies)) == Pending(w) - SetOf(Batch(w.last, listed))
  {
    var batch, got := Batch(w.last, listed), HandedBy(w.last, listed, bodies);
    BatchIsLowest(w.last, listed);
    PassHandsExactly(w.last, listed, bodies);
    TakingAll(w, Above(w.last, listed), batch, got);
  }

  lemma TakingAll(w: World, above: seq<nat>, batch: seq<nat>, got: seq<nat>)
    requires forall u :: u in above <==> u in Pending(w)
    requires forall u :: u in batch ==> u in above
    requires forall u, top :: u in above && top in batch && u <= top ==> u in batch
    requires forall u :: u in batch <==> u in got
    requires forall u :: u in got ==> u <= Last(w.last, got)
    ensures SetOf(above) == Pending(w)
    ensures SetOf(batch) <= Pending(w)
    ensures Pending(w.(last := Last(w.last, got))) == Pending(w) - SetOf(batch)
  {
    assert got != [] ==> Last(w.last, got) in got;
  }

  /** A pass that hands on nothing found nothing pending. */
  lemma NothingPendingUnlessMarked(w: World, listed: seq<nat>, bodies: set<nat>)
    requires Inv(w) && Answers(w, listed)
    requires forall u :: u in Pending(w) ==> u in listed
    requires forall u :: u in Batch(w.last, listed) ==> u in bodies
    ensures AfterPass(w, listed, bodies).last > 0 || Pending(AfterPass(w, listed, bodies)) == {}
  {
    PassTakesBatch(w, listed, bodies);
    PassHandsExactly(w.last, listed, bodies);
    BatchIsLowest(w.last, listed);
    var got := HandedBy(w.last, listed, bodies);
    NoneHandedNoneBatched(Batch(w.last, listed), bodies, got);
    assert got != [] ==> Last(w.last, got) in got;
  }

  lemma NoneHandedNoneBatched(batch: seq<nat>, bodies: set<nat>, got: seq<nat>)
    requires forall u :: u in batch ==> u in bodies
    requires forall u :: u in got <==> u in batch && u in bodies
    ensures got == [] ==> batch == []
  {
    if batch != [] {
      assert batch[0] in got;
    }
  }

  ghost predicate QuietPasses(events: seq<Event>) {
    forall e :: e in events ==> e.Pass?
  }

  /** The first pass lists what is pending; later ones do so by themselves. */
  ghost predicate FirstListsPending(w: World, passes: seq<Event>) {
    passes != [] && passes[0].Pass? ==> forall u :: u in Pending(w) ==> u in passes[0].listed
  }

  /** In a quiet folder, initial backfill included, `n` pending UIDs drain in exactly the number
      of passes that `n` needs at 200 a pass, whatever order the server lists them in. */
  lemma {:induction false} QuietFolderDrains(w: World, passes: seq<Event>)
    requires Inv(w) && QuietPasses(passes) && Possible(w, passes) && AllBodiesServed(w, passes)
    requires w.last > 0 || FirstListsPending(w, passes)
    ensures |Pending(Run(w, passes))| ==
            if |Pending(w)| <= 200 * |passes| then 0 else |Pending(w)| - 200 * |passes|
    decreases |passes|
  {
    if passes != [] {
      var e := passes[0];
      assert e in passes;
      PassDrains(w, e.listed, e.bodies);
      PassKeepsInv(w, e.listed, e.bodies);
      NothingPendingUnlessMarked(w, e.listed, e.bodies);
      QuietFolderDrains(Next(w, e), passes[1..]);
      assert 200 * |passes| == 200 + 200 * |passes[1..]|;
    }
  }
}
