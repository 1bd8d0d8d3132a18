/**
 The local mail store that sync writes to: message rows, folders with cached counts, moves,
 the reconciliation of arriving messages with rows already there, and the user's rules.
 */
module MailStore {
  import opened Options
  import opened Counting

  datatype Row = Row(folder: nat, uid: Option<nat>, mid: Option<string>, deleted: bool, read: bool)

  datatype Folder = Folder(role: string, validity: Option<int>, last: nat, total: nat, unread: nat)

  /** A row's id is its index; `roles` is the live folder found for each role. */
  datatype Db = Db(rows: seq<Row>, folders: map<nat, Folder>, roles: map<string, nat>)

  function LiveIn(f: nat): Row -> bool { (r: Row) => r.folder == f && !r.deleted }
  function UnreadIn(f: nat): Row -> bool { (r: Row) => r.folder == f && !r.deleted && !r.read }
  function CopyIn(f: nat, mid: string): Row -> bool { (r: Row) => r.folder == f && !r.deleted && r.mid == Some(mid) }

  /** The lowest id whose row satisfies `p`. */
  function FirstRow(rows: seq<Row>, p: Row -> bool): (id: Option<nat>)
    ensures id.None? ==> forall r :: r in rows ==> !p(r)
    ensures id.Some? ==> id.value < |rows| && p(rows[id.value])
  {
    if rows == [] then None
    else
      var n := |rows| - 1;
      assert rows == rows[..n] + [rows[n]];
      var before := FirstRow(rows[..n], p);
      if before.Some? then before else if p(rows[n]) then Some(n) else None
  }

  // ----- the operations, on values -----

  /** The cached counts of one folder, recounted. */
  function Refreshed(db: Db, f: nat): (after: Db)
    ensures after.folders.Keys == db.folders.Keys
  {
    if f in db.folders then
      var total, unread := Count(db.rows, LiveIn(f)), Count(db.rows, UnreadIn(f));
      db.(folders := db.folders[f := db.folders[f].(total := total, unread := unread)])
    else db
  }

  function Moved(db: Db, i: nat, target: nat): (after: Db)
    requires i < |db.rows|
    ensures after.folders.Keys == db.folders.Keys
  {
    var row := db.rows[i];
    if row.folder == target then db
    else Refreshed(Refreshed(db.(rows := db.rows[i := row.(folder := target, uid := None)]), row.folder), target)
  }

  /** What a rule does to a message. `Harmless` stands for flagging, filing under a category,
      forwarding, and every unknown or incomplete action; `Raises` for a value that is not
      the number it should be. */
  datatype Action =
    | MarkRead
    | MoveToRole(role: string)
    | MoveToFolder(id: nat)
    | Delete
    | Harmless
    | Raises

  function TargetOf(db: Db, a: Action): Option<nat> {
    match a
    case MoveToRole(role) => if role in db.roles then Some(db.roles[role]) else None
    case MoveToFolder(id) => if id in db.folders then Some(id) else None
    case Delete => if "trash" in db.roles then Some(db.roles["trash"]) else None
    case _ => None
  }

  function Act(db: Db, i: nat, a: Action): (after: Db)
    requires i < |db.rows|
    ensures |after.rows| == |db.rows| && after.folders.Keys == db.folders.Keys
  {
    var target := TargetOf(db, a);
    if a.MarkRead? then db.(rows := db.rows[i := db.rows[i].(read := true)])
    else if target.Some? then Moved(db, i, target.value)
    else db
  }

  /** The database after a list of actions, and whether one raised. */
  function ActAll(db: Db, i: nat, actions: seq<Action>): (r: (Db, bool))
    requires i < |db.rows|
    ensures |r.0.rows| == |db.rows| && r.0.folders.Keys == db.folders.Keys
    decreases |actions|
  {
    if actions == [] then (db, false)
    else if actions[0].Raises? then (db, true)
    else ActAll(Act(db, i, actions[0]), i, actions[1..])
  }

  /** An enabled rule, with the answer of its conditions about the message at hand. */
  datatype Rule = Rule(matches: bool, actions: seq<Action>, stop: bool)

  function RunRules(db: Db, i: nat, rules: seq<Rule>): (after: Db)
    requires i < |db.rows|
    ensures |after.rows| == |db.rows| && after.folders.Keys == db.folders.Keys
    decreases |rules|
  {
    if rules == [] then db
    else if !rules[0].matches then RunRules(db, i, rules[1..])
    else
      var (acted, raised) := ActAll(db, i, rules[0].actions);
      if raised || rules[0].stop then acted else RunRules(acted, i, rules[1..])
  }

  /** Which of the account's sender lists the sender is on; `Safe` wins. */
  datatype Sender = Safe | Blocked | OnNeither

  function ApplyRules(db: Db, i: nat, sender: Sender, rules: seq<Rule>): (after: Db)
    requires i < |db.rows|
    ensures |after.rows| == |db.rows| && after.folders.Keys == db.folders.Keys
  {
    match sender
    case Safe => db
    case Blocked => if "junk" in db.roles then Moved(db, i, db.roles["junk"]) else db
    case OnNeither => RunRules(db, i, rules)
  }

  /** A fetched message; the rules are in priority order. */
  datatype Incoming = Incoming(header: string, seen: bool, sender: Sender, rules: seq<Rule>)

  function MessageId(m: Incoming): Option<string> { if m.header == "" then None else Some(m.header) }

  function HoldsUid(f: nat, uid: nat): Row -> bool { (r: Row) => r.folder == f && r.uid == Some(uid) }

  /** Stores a fetched message unless the folder already has its UID, even on a deleted row, or
      a live copy with its Message-ID, which then adopts the UID if it has none. */
  function Upserted(db: Db, f: nat, uid: nat, m: Incoming): (after: Db)
    ensures |after.rows| == |db.rows| || |after.rows| == |db.rows| + 1
  {
    var mid := MessageId(m);
    if FirstRow(db.rows, HoldsUid(f, uid)).Some? then db
    else
      var dupe := if mid.None? then None else FirstRow(db.rows, CopyIn(f, mid.value));
      if dupe.None? then db.(rows := db.rows + [Row(f, Some(uid), mid, false, m.seen)])
      else if db.rows[dupe.value].uid.None? then
        db.(rows := db.rows[dupe.value := db.rows[dupe.value].(uid := Some(uid))])
      else db
  }

  /** One turn of the sync loop: rules run on new mail of the inbox only. */
  function Filed(db: Db, f: nat, uid: nat, m: Incoming): (after: Db)
    ensures after.folders.Keys == db.folders.Keys
  {
    var after := Upserted(db, f, uid, m);
    if |after.rows| > |db.rows| && f in db.folders && db.folders[f].role == "inbox" then
      ApplyRules(after, |db.rows|, m.sender, m.rules)
    else after
  }

  // ----- the operations, in place -----

  class MailDb {
    var rows: seq<Row>
    var folders: map<nat, Folder>
    const roles: map<string, nat>

    constructor (roles: map<string, nat>)
      ensures View() == Db([], map[], roles)
    {
      rows, folders, this.roles := [], map[], roles;
    }

    function View(): Db
      reads this
    {
      Db(rows, folders, roles)
    }

    method RefreshFolderCounts(f: nat)
      modifies this
      ensures View() == Refreshed(old(View()), f)
    {
      if f in folders {
        folders := folders[f := folders[f].(total := Count(rows, LiveIn(f)), unread := Count(rows, UnreadIn(f)))];
      }
    }

    method MoveMessage(i: nat, target: nat)
      requires i < |rows|
      modifies this
      ensures View() == Moved(old(View()), i, target)
    {
      var origin := rows[i].folder;
      if origin == target {
        return;
      }
      rows := rows[i := rows[i].(folder := target, uid := None)];
      RefreshFolderCounts(origin);
      RefreshFolderCounts(target);
    }

    method ApplyAction(i: nat, a: Action)
      requires i < |rows|
      modifies this
      ensures View() == Act(old(View()), i, a)
    {
      var target := TargetOf(View(), a);
      if a.MarkRead? {
        rows := rows[i := rows[i].(read := true)];
      } else if target.Some? {
        MoveMessage(i, target.value);
      }
    }

    method ApplyActions(i: nat, actions: seq<Action>) returns (raised: bool)
      requires i < |rows|
      modifies this
      ensures (View(), raised) == ActAll(old(View()), i, actions)
    {
      var k := 0;
      while k < |actions| && !actions[k].Raises?
        invariant k <= |actions| && i < |rows|
        invariant ActAll(View(), i, actions[k..]) == ActAll(old(View()), i, actions)
      {
        ApplyAction(i, actions[k]);
        assert actions[k..][1..] == actions[k + 1..];
        k := k + 1;
      }
      return k < |actions|;
    }

    method ApplyUserRules(i: nat, sender: Sender, rules: seq<Rule>)
      requires i < |rows|
      modifies this
      ensures View() == ApplyRules(old(View()), i, sender, rules)
    {
      if sender == Blocked && "junk" in roles {
        MoveMessage(i, roles["junk"]);
      }
      if sender != OnNeither {
        return;
      }
      var k := 0;
      while k < |rules|
        invariant k <= |rules| && i < |this.rows|
        invariant RunRules(View(), i, rules[k..]) == RunRules(old(View()), i, rules)
      {
        assert rules[k..][1..] == rules[k + 1..];
        if rules[k].matches {
          var raised := ApplyActions(i, rules[k].actions);
          if raised || rules[k].stop {
            return;
          }
        }
        k := k + 1;
      }
    }

    /** Returns the id of the row it inserted, if it did. */
    method UpsertMessage(f: nat, uid: nat, m: Incoming) returns (inserted: Option<nat>)
      modifies this
      ensures View() == Upserted(old(View()), f, uid, m)
      ensures inserted == if |rows| > old(|rows|) then Some(old(|rows|)) else None
    {
      inserted := None;
      if FirstRow(rows, HoldsUid(f, uid)).Some? {
        return;
      }
      var mid := MessageId(m);
      if mid.Some? {
        var dupe := FirstRow(rows, CopyIn(f, mid.value));
        if dupe.Some? {
          if rows[dupe.value].uid.None? {
            rows := rows[dupe.value := rows[dupe.value].(uid := Some(uid))];
          }
          return;
        }
      }
      inserted := Some(|rows|);
      rows := rows + [Row(f, Some(uid), mid, false, m.seen)];
    }

    method FileMessage(f: nat, uid: nat, m: Incoming) returns (isNew: bool)
      modifies this
      ensures View() == Filed(old(View()), f, uid, m)
      ensures isNew <==> |rows| > old(|rows|)
    {
      var inserted := UpsertMessage(f, uid, m);
      isNew := inserted.Some?;
      if isNew && f in folders && folders[f].role == "inbox" {
        ApplyUserRules(inserted.value, m.sender, m.rules);
      }
    }
  }

  // ----- what every operation keeps -----

  /** A (folder, UID) pair is held by at most one row, deleted rows included. */
  ghost predicate UidsUnique(rows: seq<Row>) {
    forall i, j :: 0 <= i < j < |rows| && rows[i].folder == rows[j].folder && rows[i].uid.Some?
                   ==> rows[i].uid != rows[j].uid
  }

  ghost predicate TotalRight(db: Db, f: nat) {
    f in db.folders ==> db.folders[f].total == Count(db.rows, LiveIn(f))
  }

  ghost predicate UnreadRight(db: Db, f: nat) {
    f in db.folders ==> db.folders[f].unread == Count(db.rows, UnreadIn(f))
  }

  /** Sound, except perhaps for the counts of the folder being synced. */
  ghost predicate SoundBut(db: Db, synced: nat) {
    UidsUnique(db.rows) && forall f :: f != synced ==> TotalRight(db, f)
  }

  ghost predicate Sound(db: Db) {
    UidsUnique(db.rows) && forall f :: TotalRight(db, f)
  }

  lemma MovedKeepsTotals(db: Db, i: nat, target: nat, f: nat)
    requires i < |db.rows|
    ensures TotalRight(db, f) ==> TotalRight(Moved(db, i, target), f)
  {
    CountUpdate(db.rows, i, db.rows[i].(folder := target, uid := None), LiveIn(f));
  }

  /** A move to another folder recounts both folders whatever their counts were, and leaves
      the row without a UID and otherwise as it was. */
  lemma MovedMeans(db: Db, i: nat, target: nat)
    requires i < |db.rows| && target != db.rows[i].folder
    ensures var after := Moved(db, i, target);
            && after.rows == db.rows[i := Row(target, None, db.rows[i].mid, db.rows[i].deleted, db.rows[i].read)]
            && TotalRight(after, target) && UnreadRight(after, target)
            && TotalRight(after, db.rows[i].folder) && UnreadRight(after, db.rows[i].folder)
            && (target in db.folders && TotalRight(db, target) ==>
                  after.folders[target].total == db.folders[target].total + Bit(!db.rows[i].deleted))
  {
    CountUpdate(db.rows, i, db.rows[i].(folder := target, uid := None), LiveIn(target));
  }

  lemma MovedKeepsSound(db: Db, synced: nat, i: nat, target: nat)
    requires i < |db.rows|
    ensures SoundBut(db, synced) ==> SoundBut(Moved(db, i, target), synced)
    ensures Sound(db) ==> Sound(Moved(db, i, target))
  {
    forall f ensures TotalRight(db, f) ==> TotalRight(Moved(db, i, target), f) {
      MovedKeepsTotals(db, i, target, f);
    }
  }

  /** No folder's role, UIDVALIDITY or watermark differs. */
  ghost predicate SameMarks(before: Db, after: Db) {
    && after.folders.Keys == before.folders.Keys && after.roles == before.roles
    && forall f :: f in before.folders ==>
         after.folders[f].(total := 0, unread := 0) == before.folders[f].(total := 0, unread := 0)
  }

  /** A refresh sets the folder's counts to the numbers of its live and of its live unread rows
      and changes nothing else. */
  lemma RefreshMeans(db: Db, f: nat)
    ensures var after := Refreshed(db, f);
            && after.rows == db.rows && after.folders.Keys == db.folders.Keys
            && (forall g :: g in db.folders && g != f ==> after.folders[g] == db.folders[g])
            && (f in db.folders ==>
                  && after.folders[f].total ==
                     |set i | 0 <= i < |db.rows| && db.rows[i].folder == f && !db.rows[i].deleted|
                  && after.folders[f].unread ==
                     |set i | 0 <= i < |db.rows| && db.rows[i].folder == f && !db.rows[i].deleted && !db.rows[i].read|)
  {
    LiveRows(db.rows, f);
    UnreadRows(db.rows, f);
  }

  lemma LiveRows(rows: seq<Row>, f: nat)
    ensures Count(rows, LiveIn(f)) == |set i | 0 <= i < |rows| && rows[i].folder == f && !rows[i].deleted|
  {
    CountIsSize(rows, LiveIn(f));
    assert Positions(rows, LiveIn(f)) == set i | 0 <= i < |rows| && rows[i].folder == f && !rows[i].deleted;
  }

  lemma UnreadRows(rows: seq<Row>, f: nat)
    ensures Count(rows, UnreadIn(f)) ==
            |set i | 0 <= i < |rows| && rows[i].folder == f && !rows[i].deleted && !rows[i].read|
  {
    CountIsSize(rows, UnreadIn(f));
    assert Positions(rows, UnreadIn(f)) ==
           set i | 0 <= i < |rows| && rows[i].folder == f && !rows[i].deleted && !rows[i].read;
  }

  /** Where an action leaves the message: marked read in place; in the folder of a role or id if
      there is one; in trash if there is one; or as it was. A message that changes folder loses
      its UID and keeps its read mark. */
  lemma ActMeans(db: Db, i: nat, a: Action)
    requires i < |db.rows|
    ensures var row, after := db.rows[i], Act(db, i, a).rows[i];
            && (a.MarkRead? ==> after == row.(read := true))
            && (a.Harmless? || a.Raises? ==> Act(db, i, a) == db)
            && (!a.MarkRead? ==>
                  && after.folder == (match a
                       case MoveToRole(role) => if role in db.roles then db.roles[role] else row.folder
                       case MoveToFolder(id) => if id in db.folders then id else row.folder
                       case Delete => if "trash" in db.roles then db.roles["trash"] else row.folder
                       case _ => row.folder)
                  && after == if after.folder == row.folder then row else row.(folder := after.folder, uid := None))
  {
  }

  /** One action is that action, unless it raises. */
  lemma OneActionMeans(db: Db, i: nat, a: Action)
    requires i < |db.rows|
    ensures ActAll(db, i, [a]) == if a.Raises? then (db, true) else (Act(db, i, a), false)
  {
    assert [a][1..] == [];
  }

  /** The sender lists: mail from a safe sender stays and runs no rule, mail from a blocked one
      goes to junk, if there is one, and runs none. */
  lemma SenderListsMean(db: Db, i: nat, rules: seq<Rule>)
    requires i < |db.rows|
    ensures ApplyRules(db, i, Safe, rules) == db
    ensures ApplyRules(db, i, Blocked, rules) == ApplyRules(db, i, Blocked, [])
    ensures ApplyRules(db, i, Blocked, rules).rows[i].folder ==
            if "junk" in db.roles then db.roles["junk"] else db.rows[i].folder
  {
  }

  /** Between two states of handling message `i` nothing else changes but folder records, and
      the message keeps its Message-ID and its life. */
  ghost predicate OnlyTouches(before: Db, after: Db, i: nat) {
    && |after.rows| == |before.rows| && i < |before.rows|
    && after.rows == before.rows[i := after.rows[i]]
    && after.rows[i].mid == before.rows[i].mid && after.rows[i].deleted == before.rows[i].deleted
    && SameMarks(before, after)
  }

  lemma MarkReadKeeps(db: Db, synced: nat, i: nat)
    requires i < |db.rows| && SoundBut(db, synced)
    ensures SoundBut(Act(db, i, MarkRead), synced)
  {
    forall f ensures TotalRight(db, f) ==> TotalRight(Act(db, i, MarkRead), f) {
      CountUpdate(db.rows, i, db.rows[i].(read := true), LiveIn(f));
    }
  }

  lemma ActTouchesOneRow(db: Db, i: nat, a: Action)
    requires i < |db.rows|
    ensures OnlyTouches(db, Act(db, i, a), i)
  {
  }

  lemma ActKeeps(db: Db, synced: nat, i: nat, a: Action)
    requires i < |db.rows| && SoundBut(db, synced)
    ensures SoundBut(Act(db, i, a), synced) && OnlyTouches(db, Act(db, i, a), i)
  {
    ActTouchesOneRow(db, i, a);
    var target := TargetOf(db, a);
    if a.MarkRead? {
      MarkReadKeeps(db, synced, i);
    } else if target.Some? {
      MovedKeepsSound(db, synced, i, target.value);
    }
  }

  lemma {:induction false} ActAllKeeps(db: Db, synced: nat, i: nat, actions: seq<Action>)
    requires i < |db.rows| && SoundBut(db, synced)
    ensures SoundBut(ActAll(db, i, actions).0, synced) && OnlyTouches(db, ActAll(db, i, actions).0, i)
    decreases |actions|
  {
    if actions != [] && !actions[0].Raises? {
      ActKeeps(db, synced, i, actions[0]);
      ActAllKeeps(Act(db, i, actions[0]), synced, i, actions[1..]);
    }
  }

  lemma {:induction false} RunRulesKeeps(db: Db, synced: nat, i: nat, rules: seq<Rule>)
    requires i < |db.rows| && SoundBut(db, synced)
    ensures SoundBut(RunRules(db, i, rules), synced) && OnlyTouches(db, RunRules(db, i, rules), i)
    decreases |rules|
  {
    if rules != [] {
      if rules[0].matches {
        ActAllKeeps(db, synced, i, rules[0].actions);
        RunRulesKeeps(ActAll(db, i, rules[0].actions).0, synced, i, rules[1..]);
      } else {
        RunRulesKeeps(db, synced, i, rules[1..]);
      }
    }
  }

  /** Whatever rules do to a new message, only its own row changes, UIDs stay unique, and the
      total of every folder but the one being synced stays right. */
  lemma RulesKeepStoreSound(db: Db, synced: nat, i: nat, sender: Sender, rules: seq<Rule>)
    requires i < |db.rows| && SoundBut(db, synced)
    ensures SoundBut(ApplyRules(db, i, sender, rules), synced)
    ensures OnlyTouches(db, ApplyRules(db, i, sender, rules), i)
  {
    match sender
    case Safe =>
    case Blocked =>
      if "junk" in db.roles {
        MovedKeepsSound(db, synced, i, db.roles["junk"]);
      }
    case OnNeither => RunRulesKeeps(db, synced, i, rules);
  }

  /** The actions of the matching rules, up to and including the first that ends evaluation. */
  function Executed(rules: seq<Rule>): seq<Action>
    decreases |rules|
  {
    if rules == [] then []
    else if !rules[0].matches then Executed(rules[1..])
    else rules[0].actions + if rules[0].stop then [] else Executed(rules[1..])
  }

  lemma {:induction false} ActAllConcat(db: Db, i: nat, a: seq<Action>, b: seq<Action>)
    requires i < |db.rows|
    ensures ActAll(db, i, a + b) == if ActAll(db, i, a).1 then ActAll(db, i, a) else ActAll(ActAll(db, i, a).0, i, b)
    decreases |a|
  {
    if a == [] {
      assert a + b == b;
    } else if !a[0].Raises? {
      assert (a + b)[1..] == a[1..] + b;
      ActAllConcat(Act(db, i, a[0]), i, a[1..], b);
    }
  }

  /** Rules act as one list of actions, cut at the first action that raises: a rule that does
      not match, or comes after a matching stop rule or a failure, changes nothing. */
  lemma {:induction false} RulesActAsOneList(db: Db, i: nat, rules: seq<Rule>)
    requires i < |db.rows|
    ensures RunRules(db, i, rules) == ActAll(db, i, Executed(rules)).0
    decreases |rules|
  {
    if rules != [] {
      var r := rules[0];
      if r.matches {
        var rest := if r.stop then [] else Executed(rules[1..]);
        ActAllConcat(db, i, r.actions, rest);
        RulesActAsOneList(ActAll(db, i, r.actions).0, i, rules[1..]);
      } else {
        RulesActAsOneList(db, i, rules[1..]);
      }
    }
  }

  /** A folder's unread count goes wrong in exactly one way: a rule marks a message read after
      moving it out of the synced folder. */
  lemma ActKeepsUnreadExactly(db: Db, synced: nat, i: nat, a: Action)
    requires i < |db.rows| && forall f :: f != synced ==> UnreadRight(db, f)
    ensures (forall f :: f != synced ==> UnreadRight(Act(db, i, a), f)) <==>
            !(a.MarkRead? && UnreadIn(db.rows[i].folder)(db.rows[i])
              && db.rows[i].folder != synced && db.rows[i].folder in db.folders)
  {
    var after := Act(db, i, a);
    forall f ensures UnreadRight(db, f) && f != synced ==>
                       (UnreadRight(after, f) <==> !(a.MarkRead? && UnreadIn(f)(db.rows[i]) && f in db.folders)) {
      CountUpdate(db.rows, i, after.rows[i], UnreadIn(f));
    }
    var home := db.rows[i].folder;
    assert home != synced ==> UnreadRight(db, home);
  }

  /** The cached unread counts of all folders but the one being synced are right. */
  ghost predicate OthersUnreadRight(db: Db, synced: nat) {
    forall f :: f != synced ==> UnreadRight(db, f)
  }

  /** A read mark on the message now would escape the cached count of its folder. */
  predicate Miscounts(db: Db, synced: nat, i: nat)
    requires i < |db.rows|
  {
    db.rows[i].folder != synced && db.rows[i].folder in db.folders && !db.rows[i].deleted && !db.rows[i].read
  }

  /** The folders whose cached unread count is wrong after an action: a read mark outside the
      synced folder adds the message's folder, and a move recounts both of its folders. */
  function StaleAfterAct(db: Db, synced: nat, i: nat, a: Action, stale: set<nat>): set<nat>
    requires i < |db.rows|
  {
    var home, moved := db.rows[i].folder, Act(db, i, a).rows[i].folder;
    if a.MarkRead? then (if Miscounts(db, synced, i) then stale + {home} else stale)
    else if moved != home then stale - {home, moved}
    else stale
  }

  function StaleAfterActions(db: Db, synced: nat, i: nat, actions: seq<Action>, stale: set<nat>): set<nat>
    requires i < |db.rows|
    decreases |actions|
  {
    if actions == [] || actions[0].Raises? then stale
    else
      var next := Act(db, i, actions[0]);
      StaleAfterActions(next, synced, i, actions[1..], StaleAfterAct(db, synced, i, actions[0], stale))
  }

  /** A blocked sender's message is moved to junk. */
  function StaleAfterRules(db: Db, synced: nat, i: nat, sender: Sender, rules: seq<Rule>, stale: set<nat>): set<nat>
    requires i < |db.rows|
  {
    match sender
    case Safe => stale
    case Blocked => StaleAfterAct(db, synced, i, MoveToRole("junk"), stale)
    case OnNeither => StaleAfterActions(db, synced, i, Executed(rules), stale)
  }

  function StaleAfterFiled(db: Db, f: nat, uid: nat, m: Incoming, stale: set<nat>): set<nat> {
    var after := Upserted(db, f, uid, m);
    if |after.rows| > |db.rows| && f in db.folders && db.folders[f].role == "inbox" then
      StaleAfterRules(after, f, |db.rows|, m.sender, m.rules, stale)
    else stale
  }

  /** Of the folders other than the one being synced, exactly these count too many unread. */
  ghost predicate StaleAre(db: Db, synced: nat, stale: set<nat>) {
    forall g :: g != synced && g in db.folders ==>
      if g in stale then db.folders[g].unread > Count(db.rows, UnreadIn(g))
      else db.folders[g].unread == Count(db.rows, UnreadIn(g))
  }

  lemma MarkReadTracksStale(db: Db, synced: nat, i: nat, stale: set<nat>)
    requires i < |db.rows| && StaleAre(db, synced, stale)
    ensures StaleAre(Act(db, i, MarkRead), synced, StaleAfterAct(db, synced, i, MarkRead, stale))
  {
    var after := Act(db, i, MarkRead);
    forall g ensures Count(after.rows, UnreadIn(g)) + Bit(UnreadIn(g)(db.rows[i])) == Count(db.rows, UnreadIn(g)) {
      CountUpdate(db.rows, i, after.rows[i], UnreadIn(g));
    }
  }

  lemma MoveTracksStale(db: Db, synced: nat, i: nat, target: nat, stale: set<nat>)
    requires i < |db.rows| && StaleAre(db, synced, stale) && target != db.rows[i].folder
    ensures StaleAre(Moved(db, i, target), synced, stale - {db.rows[i].folder, target})
  {
    MovedMeans(db, i, target);
    var after := Moved(db, i, target);
    forall g | g != target && g != db.rows[i].folder
      ensures Count(after.rows, UnreadIn(g)) == Count(db.rows, UnreadIn(g))
    {
      CountUpdate(db.rows, i, after.rows[i], UnreadIn(g));
    }
  }

  lemma ActTracksStale(db: Db, synced: nat, i: nat, a: Action, stale: set<nat>)
    requires i < |db.rows| && StaleAre(db, synced, stale)
    ensures StaleAre(Act(db, i, a), synced, StaleAfterAct(db, synced, i, a, stale))
  {
    var target := TargetOf(db, a);
    if a.MarkRead? {
      MarkReadTracksStale(db, synced, i, stale);
    } else if target.Some? && target.value != db.rows[i].folder {
      MoveTracksStale(db, synced, i, target.value, stale);
    }
  }

  lemma {:induction false} ActionsTrackStale(db: Db, synced: nat, i: nat, actions: seq<Action>, stale: set<nat>)
    requires i < |db.rows| && StaleAre(db, synced, stale)
    ensures StaleAre(ActAll(db, i, actions).0, synced, StaleAfterActions(db, synced, i, actions, stale))
    decreases |actions|
  {
    if actions != [] && !actions[0].Raises? {
      ActTracksStale(db, synced, i, actions[0], stale);
      ActionsTrackStale(Act(db, i, actions[0]), synced, i, actions[1..],
                        StaleAfterAct(db, synced, i, actions[0], stale));
    }
  }

  /** Over a whole rule list: which folders count wrongly afterwards, exactly. */
  lemma RulesKeepUnreadExactly(db: Db, synced: nat, i: nat, sender: Sender, rules: seq<Rule>, stale: set<nat>)
    requires i < |db.rows| && StaleAre(db, synced, stale)
    ensures StaleAre(ApplyRules(db, i, sender, rules), synced, StaleAfterRules(db, synced, i, sender, rules, stale))
  {
    match sender
    case Safe =>
    case Blocked => ActTracksStale(db, synced, i, MoveToRole("junk"), stale);
    case OnNeither =>
      RulesActAsOneList(db, i, rules);
      ActionsTrackStale(db, synced, i, Executed(rules), stale);
  }

  // ----- arriving messages -----

  lemma UpsertKeepsUids(db: Db, f: nat, uid: nat, m: Incoming)
    requires UidsUnique(db.rows)
    ensures UidsUnique(Upserted(db, f, uid, m).rows)
  {
    var holder := FirstRow(db.rows, HoldsUid(f, uid));
    if holder.None? {
      forall i | 0 <= i < |db.rows| && db.rows[i].folder == f ensures db.rows[i].uid != Some(uid) {
        assert db.rows[i] in db.rows && !HoldsUid(f, uid)(db.rows[i]);
      }
    }
  }

  lemma UpsertKeepsSound(db: Db, f: nat, uid: nat, m: Incoming)
    requires SoundBut(db, f)
    ensures SoundBut(Upserted(db, f, uid, m), f)
  {
    UpsertKeepsUids(db, f, uid, m);
    var after := Upserted(db, f, uid, m);
    forall g | g != f ensures TotalRight(after, g) {
      assert TotalRight(db, g);
      UpsertCounts(db, f, uid, m, LiveIn(g));
    }
  }

  /** Storing a message adds to a count by at most its own new row. */
  lemma UpsertCounts(db: Db, f: nat, uid: nat, m: Incoming, p: Row -> bool)
    requires forall r: Row, u :: p(r) == p(r.(uid := u))
    ensures Count(Upserted(db, f, uid, m).rows, p) ==
            Count(db.rows, p)
            + Bit(|Upserted(db, f, uid, m).rows| > |db.rows| && p(Row(f, Some(uid), MessageId(m), false, m.seen)))
  {
    var after := Upserted(db, f, uid, m);
    if |after.rows| > |db.rows| {
      CountAppend(db.rows, Row(f, Some(uid), MessageId(m), false, m.seen), p);
    } else if after != db {
      var dupe := FirstRow(db.rows, CopyIn(f, MessageId(m).value));
      CountUpdate(db.rows, dupe.value, after.rows[dupe.value], p);
    }
  }

  /** The folder gains a row exactly when it knew neither the UID nor a live copy. Afterwards
      it has the UID, unless a live copy already goes by another one. */
  lemma UpsertExactly(db: Db, f: nat, uid: nat, m: Incoming)
    ensures var after := Upserted(db, f, uid, m);
            var known := exists r :: r in db.rows && r.folder == f &&
                           (r.uid == Some(uid) || (!r.deleted && m.header != "" && r.mid == Some(m.header)));
            && (|after.rows| > |db.rows| <==> !known)
            && (exists r :: r in after.rows && r.folder == f &&
                            (r.uid == Some(uid) || (!r.deleted && r.mid == Some(m.header) && r.uid.Some?)))
  {
    var after := Upserted(db, f, uid, m);
    var holder := FirstRow(db.rows, HoldsUid(f, uid));
    if holder.Some? {
      assert db.rows[holder.value] in db.rows;
    } else {
      assert forall r :: r in db.rows ==> !HoldsUid(f, uid)(r);
      var dupe := if m.header == "" then None else FirstRow(db.rows, CopyIn(f, m.header));
      if dupe.Some? {
        assert db.rows[dupe.value] in db.rows && after.rows[dupe.value] in after.rows;
      } else {
        assert m.header != "" ==> forall r :: r in db.rows ==> !CopyIn(f, m.header)(r);
        assert after.rows[|db.rows|] in after.rows;
      }
    }
  }

  function AtLeastOne(n: nat): nat { if n > 1 then n else 1 }

  ghost predicate CopiesBounded(before: seq<Row>, after: seq<Row>, f: nat) {
    forall mid :: Count(after, CopyIn(f, mid)) <= AtLeastOne(Count(before, CopyIn(f, mid)))
  }

  /** Storing a message, rules included, never leaves the synced folder with a second live copy
      of a Message-ID; it changes no folder's name, place or watermark. */
  lemma FiledKeeps(db: Db, f: nat, uid: nat, m: Incoming)
    requires SoundBut(db, f)
    ensures SoundBut(Filed(db, f, uid, m), f)
    ensures CopiesBounded(db.rows, Filed(db, f, uid, m).rows, f) && SameMarks(db, Filed(db, f, uid, m))
  {
    var after := Upserted(db, f, uid, m);
    UpsertKeepsSound(db, f, uid, m);
    var done := Filed(db, f, uid, m);
    if done != after {
      RulesKeepStoreSound(after, f, |db.rows|, m.sender, m.rules);
    }
    forall mid ensures Count(done.rows, CopyIn(f, mid)) <= AtLeastOne(Count(db.rows, CopyIn(f, mid))) {
      FiledCopies(db, f, uid, m, done, mid);
    }
  }

  lemma FiledCopies(db: Db, f: nat, uid: nat, m: Incoming, done: Db, mid: string)
    requires var after := Upserted(db, f, uid, m);
             done == after || (|after.rows| > |db.rows| && OnlyTouches(after, done, |db.rows|))
    ensures Count(done.rows, CopyIn(f, mid)) <= AtLeastOne(Count(db.rows, CopyIn(f, mid)))
  {
    var after, p := Upserted(db, f, uid, m), CopyIn(f, mid);
    UpsertCounts(db, f, uid, m, p);
    if |after.rows| > |db.rows| {
      if MessageId(m) == Some(mid) {
        CountZero(db.rows, p);
      }
      if done != after {
        CountUpdate(after.rows, |db.rows|, done.rows[|db.rows|], p);
      }
    }
  }

  // ----- what storing a message does to the rows -----

  /** The folder has the UID, or a live row with the Message-ID. */
  ghost predicate Knows(rows: seq<Row>, f: nat, uid: nat, header: string) {
    exists r :: r in rows && r.folder == f &&
                (r.uid == Some(uid) || (!r.deleted && header != "" && r.mid == Some(header)))
  }

  /** The folder has the UID, or a live row with the Message-ID and another UID. */
  ghost predicate Has(rows: seq<Row>, f: nat, uid: nat, header: string) {
    exists r :: r in rows && r.folder == f &&
                (r.uid == Some(uid) || (!r.deleted && header != "" && r.mid == Some(header) && r.uid.Some?))
  }

  /** The row is kept, or is the copy of the message that adopts its UID. */
  predicate KeptOrAdopts(row: Row, after: Row, f: nat, uid: nat, header: string) {
    || after == row
    || (row.folder == f && !row.deleted && row.uid.None? && header != "" && row.mid == Some(header)
        && after == row.(uid := Some(uid)))
  }

  /** A fetched message has been stored: one new row exactly if the folder did not know it, the
      other rows as they were but for the adopted UID. Unless rules ran on it, the new row is in
      the folder under its UID. */
  ghost predicate Stored(before: seq<Row>, after: seq<Row>, f: nat, uid: nat, m: Incoming, ruled: bool) {
    && |after| == |before| + (if Knows(before, f, uid, m.header) then 0 else 1)
    && (forall i :: 0 <= i < |before| ==> KeptOrAdopts(before[i], after[i], f, uid, m.header))
    && (!Knows(before, f, uid, m.header) ==>
          var row := after[|before|];
          && row.mid == (if m.header == "" then None else Some(m.header)) && !row.deleted
          && (!ruled ==> row == Row(f, Some(uid), row.mid, false, m.seen)))
    && (!ruled || Knows(before, f, uid, m.header) ==> Has(after, f, uid, m.header))
  }

  lemma UpsertStores(db: Db, f: nat, uid: nat, m: Incoming)
    ensures Stored(db.rows, Upserted(db, f, uid, m).rows, f, uid, m, false)
  {
    UpsertExactly(db, f, uid, m);
    var after := Upserted(db, f, uid, m);
    assert Knows(db.rows, f, uid, m.header) <==> |after.rows| == |db.rows|;
    if |after.rows| > |db.rows| {
      assert after.rows[|db.rows|] in after.rows;
    }
  }

  /** Every message handed on is stored so, in every folder; rules run on new mail of the inbox. */
  lemma FiledStores(db: Db, f: nat, uid: nat, m: Incoming)
    requires f in db.folders
    ensures Stored(db.rows, Filed(db, f, uid, m).rows, f, uid, m, db.folders[f].role == "inbox")
  {
    UpsertStores(db, f, uid, m);
    var after, done := Upserted(db, f, uid, m), Filed(db, f, uid, m);
    if |after.rows| > |db.rows| && db.folders[f].role == "inbox" {
      RulesTouchOneRow(after, |db.rows|, m.sender, m.rules);
    }
  }

  lemma {:induction false} ActionsTouchOneRow(db: Db, i: nat, actions: seq<Action>)
    requires i < |db.rows|
    ensures OnlyTouches(db, ActAll(db, i, actions).0, i)
    decreases |actions|
  {
    if actions != [] && !actions[0].Raises? {
      ActTouchesOneRow(db, i, actions[0]);
      ActionsTouchOneRow(Act(db, i, actions[0]), i, actions[1..]);
    }
  }

  lemma RulesTouchOneRow(db: Db, i: nat, sender: Sender, rules: seq<Rule>)
    requires i < |db.rows|
    ensures OnlyTouches(db, ApplyRules(db, i, sender, rules), i)
  {
    match sender
    case Safe =>
    case Blocked => ActTouchesOneRow(db, i, MoveToRole("junk"));
    case OnNeither =>
      RulesActAsOneList(db, i, rules);
      ActionsTouchOneRow(db, i, Executed(rules));
  }

  /** Over the storing of one message, rules included: which folders count wrongly, exactly. */
  lemma FiledKeepsUnreadExactly(db: Db, f: nat, uid: nat, m: Incoming, stale: set<nat>)
    requires StaleAre(db, f, stale)
    ensures StaleAre(Filed(db, f, uid, m), f, StaleAfterFiled(db, f, uid, m, stale))
  {
    var after := Upserted(db, f, uid, m);
    forall g | g != f ensures Count(after.rows, UnreadIn(g)) == Count(db.rows, UnreadIn(g)) {
      UpsertCounts(db, f, uid, m, UnreadIn(g));
    }
    if |after.rows| > |db.rows| {
      RulesKeepUnreadExactly(after, f, |db.rows|, m.sender, m.rules, stale);
    }
  }
}
