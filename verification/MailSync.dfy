/**
 One account's sync: each folder's new mail from the server goes through the UID watermark
 into the store, all folders in one transaction.
 */
module MailSync {
  import opened Options
  import opened Counting
  import opened MailStore
  import opened MailWatermark

  /** What the server does when one folder is synced: the folder has no path or selecting or
      searching it fails; it lists UIDs, then returns bodies; or the pass breaks off with an
      error. */
  datatype Reply =
    | NotSelected
    | SearchFails(validity: Option<int>)
    | Listed(validity: Option<int>, uids: seq<nat>, mail: map<nat, Incoming>)
    | Breaks

  /** A changed UIDVALIDITY restarts the watermark. */
  function Renumbered(db: Db, f: nat, validity: Option<int>): (after: Db)
    requires f in db.folders
    ensures after.folders.Keys == db.folders.Keys
  {
    if validity.Some? && db.folders[f].validity != validity then
      db.(folders := db.folders[f := db.folders[f].(validity := validity, last := 0)])
    else db
  }

  function FiledAll(db: Db, f: nat, uids: seq<nat>, mail: map<nat, Incoming>): (after: Db)
    requires forall u :: u in uids ==> u in mail
    ensures after.folders.Keys == db.folders.Keys
  {
    if uids == [] then db
    else
      var n := |uids| - 1;
      assert uids[n] in mail;
      assert forall u :: u in uids[..n] ==> u in uids;
      Filed(FiledAll(db, f, uids[..n], mail), f, uids[n], mail[uids[n]])
  }

  function Marked(db: Db, f: nat, last: nat): Db
    requires f in db.folders
  {
    db.(folders := db.folders[f := db.folders[f].(last := last)])
  }

  /** A folder pass. One that finds nothing new does not recount. */
  function Synced(db: Db, f: nat, reply: Reply): (after: Db)
    requires f in db.folders
    ensures after.folders.Keys == db.folders.Keys
  {
    match reply
    case NotSelected => db
    case SearchFails(validity) => Renumbered(db, f, validity)
    case Listed(validity, uids, mail) =>
      var start := Renumbered(db, f, validity);
      var last := start.folders[f].last;
      var got := HandedBy(last, uids, mail.Keys);
      if Batch(last, uids) == [] then start
      else Refreshed(Marked(FiledAll(start, f, got, mail), f, Last(last, got)), f)
    case Breaks => db
  }

  /** What the sync loop has done after the first `k` UIDs of a batch. */
  ghost predicate Fetched(start: Db, now: Db, f: nat, batch: seq<nat>, k: nat, mail: map<nat, Incoming>,
                          last: nat, top: nat)
    requires k <= |batch|
  {
    var got := Readable(batch[..k], mail.Keys);
    now == FiledAll(start, f, got, mail) && top == Last(last, got)
  }

  lemma FetchedStep(start: Db, now: Db, f: nat, batch: seq<nat>, k: nat, mail: map<nat, Incoming>, last: nat, top: nat)
    requires k < |batch| && Ascending(batch) && last < batch[k]
    requires Fetched(start, now, f, batch, k, mail, last, top)
    ensures top < batch[k]
    ensures batch[k] !in mail ==> Fetched(start, now, f, batch, k + 1, mail, last, top)
    ensures batch[k] in mail ==>
              Fetched(start, Filed(now, f, batch[k], mail[batch[k]]), f, batch, k + 1, mail, last, batch[k])
  {
    ReadableStep(batch, k, mail.Keys, last, top);
    var got := Readable(batch[..k], mail.Keys);
    if batch[k] in mail {
      FiledAllStep(start, f, got, batch[k], mail);
    } else {
      assert got + [] == got;
    }
  }

  lemma ReadableStep(batch: seq<nat>, k: nat, bodies: set<nat>, last: nat, top: nat)
    requires k < |batch| && Ascending(batch) && last < batch[k]
    requires top == Last(last, Readable(batch[..k], bodies))
    ensures top < batch[k]
    ensures Readable(batch[..k + 1], bodies) ==
            Readable(batch[..k], bodies) + if batch[k] in bodies then [batch[k]] else []
  {
    assert batch[..k + 1][..k] == batch[..k];
    var got := Readable(batch[..k], bodies);
    if got != [] {
      assert top in got && top in batch[..k];
    }
  }

  lemma FiledAllStep(db: Db, f: nat, uids: seq<nat>, u: nat, mail: map<nat, Incoming>)
    requires u in mail && forall v :: v in uids ==> v in mail
    ensures forall v :: v in uids + [u] ==> v in mail
    ensures FiledAll(db, f, uids + [u], mail) == Filed(FiledAll(db, f, uids, mail), f, u, mail[u])
  {
    assert (uids + [u])[..|uids|] == uids;
  }

  lemma BatchIsAboveMark(last: nat, uids: seq<nat>)
    requires Distinct(uids) && 0 !in uids
    ensures Ascending(Batch(last, uids))
    ensures forall j :: 0 <= j < |Batch(last, uids)| ==> last < Batch(last, uids)[j]
  {
    BatchIsLowest(last, uids);
    var batch := Batch(last, uids);
    forall j | 0 <= j < |batch| ensures last < batch[j] {
      assert batch[j] in batch && batch[j] in uids;
    }
  }

  function Max(a: nat, b: nat): nat { if a < b then b else a }

  /** Fetches a batch; returns the new watermark and how many messages are new. */
  method FetchBatch(store: MailDb, f: nat, batch: seq<nat>, mail: map<nat, Incoming>, last: nat)
    returns (top: nat, newCount: nat)
    requires Ascending(batch) && forall j :: 0 <= j < |batch| ==> last < batch[j]
    modifies store
    ensures store.folders.Keys == old(store.folders.Keys)
    ensures Fetched(old(store.View()), store.View(), f, batch, |batch|, mail, last, top)
    ensures |store.rows| == old(|store.rows|) + newCount
  {
    ghost var start := store.View();
    top, newCount := last, 0;
    for k := 0 to |batch|
      invariant Fetched(start, store.View(), f, batch, k, mail, last, top)
      invariant |store.rows| == |start.rows| + newCount && store.folders.Keys == start.folders.Keys
    {
      var u := batch[k];
      FetchedStep(start, store.View(), f, batch, k, mail, last, top);
      if u in mail {
        var isNew := store.FileMessage(f, u, mail[u]);
        newCount := newCount + if isNew then 1 else 0;
        top := Max(top, u);
      }
    }
  }

  /** Returns how many messages are new. */
  method SyncOneFolder(store: MailDb, f: nat, reply: Reply) returns (newCount: nat)
    requires f in store.folders && !reply.Breaks?
    requires reply.Listed? ==> Distinct(reply.uids) && 0 !in reply.uids
    modifies store
    ensures store.View() == Synced(old(store.View()), f, reply)
    ensures |store.rows| == old(|store.rows|) + newCount
  {
    newCount := 0;
    if reply.NotSelected? {
      return;
    }
    if reply.validity.Some? && store.folders[f].validity != reply.validity {
      store.folders := store.folders[f := store.folders[f].(validity := reply.validity, last := 0)];
    }
    if reply.SearchFails? {
      return;
    }
    var last := store.folders[f].last;
    var batch := Batch(last, reply.uids);
    if batch == [] {
      return;
    }
    BatchIsAboveMark(last, reply.uids);
    assert batch[..|batch|] == batch;
    var top;
    top, newCount := FetchBatch(store, f, batch, reply.mail, last);
    store.folders := store.folders[f := store.folders[f].(last := top)];
    store.RefreshFolderCounts(f);
  }

  // ----- what a folder pass keeps -----

  lemma {:induction false} FiledAllKeeps(db: Db, f: nat, uids: seq<nat>, mail: map<nat, Incoming>)
    requires SoundBut(db, f) && forall u :: u in uids ==> u in mail
    ensures SoundBut(FiledAll(db, f, uids, mail), f)
    ensures CopiesBounded(db.rows, FiledAll(db, f, uids, mail).rows, f)
    ensures SameMarks(db, FiledAll(db, f, uids, mail))
  {
    if uids != [] {
      var n := |uids| - 1;
      FiledAllKeeps(db, f, uids[..n], mail);
      FiledKeeps(FiledAll(db, f, uids[..n], mail), f, uids[n], mail[uids[n]]);
    }
  }

  lemma RefreshRestoresSound(db: Db, f: nat, last: nat)
    requires SoundBut(db, f) && f in db.folders
    ensures Sound(Refreshed(Marked(db, f, last), f))
    ensures UnreadRight(Refreshed(Marked(db, f, last), f), f)
  {
    var after := Refreshed(Marked(db, f, last), f);
    forall g ensures TotalRight(after, g) {
      assert g != f ==> TotalRight(db, g);
    }
  }

  lemma RenumberedKeepsSound(db: Db, f: nat, validity: Option<int>)
    requires Sound(db) && f in db.folders
    ensures Sound(Renumbered(db, f, validity))
  {
    forall g ensures TotalRight(Renumbered(db, f, validity), g) {
      assert TotalRight(db, g);
    }
  }

  /** The server lists something above the watermark. */
  predicate Fetches(db: Db, f: nat, reply: Reply)
    requires f in db.folders
  {
    reply.Listed? && Batch(Renumbered(db, f, reply.validity).folders[f].last, reply.uids) != []
  }

  /** A folder pass, whatever the server answers and whatever the rules do, keeps each UID on
      one row and every folder's total equal to a recount, gives the folder no second live
      copy of a Message-ID, and leaves its unread count right exactly when it was or there was
      anything to fetch. */
  lemma PassKeepsStoreSound(db: Db, f: nat, reply: Reply)
    requires Sound(db) && f in db.folders
    ensures Sound(Synced(db, f, reply))
    ensures CopiesBounded(db.rows, Synced(db, f, reply).rows, f)
    ensures UnreadRight(Synced(db, f, reply), f) <==> Fetches(db, f, reply) || UnreadRight(db, f)
  {
    if reply.SearchFails? || reply.Listed? {
      var start := Renumbered(db, f, reply.validity);
      RenumberedKeepsSound(db, f, reply.validity);
      if reply.Listed? {
        var got := HandedBy(start.folders[f].last, reply.uids, reply.mail.Keys);
        FiledAllKeeps(start, f, got, reply.mail);
        RefreshRestoresSound(FiledAll(start, f, got, reply.mail), f, Last(start.folders[f].last, got));
      }
    }
  }

  function StaleAfterAll(db: Db, f: nat, uids: seq<nat>, mail: map<nat, Incoming>, stale: set<nat>): set<nat>
    requires forall u :: u in uids ==> u in mail
  {
    if uids == [] then stale
    else
      var n := |uids| - 1;
      assert uids[n] in mail;
      assert forall u :: u in uids[..n] ==> u in uids;
      StaleAfterFiled(FiledAll(db, f, uids[..n], mail), f, uids[n], mail[uids[n]],
                      StaleAfterAll(db, f, uids[..n], mail, stale))
  }

  /** The other folders left with a wrong unread count by a pass: those in which a rule marked a
      message read and no later move of any message recounted. */
  function StaleAfterPass(db: Db, f: nat, reply: Reply, stale: set<nat>): set<nat>
    requires f in db.folders
  {
    if !Fetches(db, f, reply) then stale
    else
      var start := Renumbered(db, f, reply.validity);
      StaleAfterAll(start, f, HandedBy(start.folders[f].last, reply.uids, reply.mail.Keys), reply.mail, stale)
  }

  lemma {:induction false} FiledAllKeepsUnreadExactly(db: Db, f: nat, uids: seq<nat>, mail: map<nat, Incoming>,
                                                      stale: set<nat>)
    requires StaleAre(db, f, stale) && forall u :: u in uids ==> u in mail
    ensures StaleAre(FiledAll(db, f, uids, mail), f, StaleAfterAll(db, f, uids, mail, stale))
  {
    if uids != [] {
      var n := |uids| - 1;
      assert forall u :: u in uids[..n] ==> u in uids;
      FiledAllKeepsUnreadExactly(db, f, uids[..n], mail, stale);
      FiledKeepsUnreadExactly(FiledAll(db, f, uids[..n], mail), f, uids[n], mail[uids[n]],
                              StaleAfterAll(db, f, uids[..n], mail, stale));
    }
  }

  /** Over a whole folder pass the unread count of another folder is right if and only if no
      rule of the pass marked a message read in it that no later move recounted. */
  lemma PassKeepsUnreadExactly(db: Db, f: nat, reply: Reply, g: nat)
    requires f in db.folders && g in db.folders && g != f && OthersUnreadRight(db, f)
    ensures UnreadRight(Synced(db, f, reply), g) <==> g !in StaleAfterPass(db, f, reply, {})
  {
    if reply.SearchFails? || reply.Listed? {
      var start := Renumbered(db, f, reply.validity);
      forall h | h != f && h in start.folders ensures start.folders[h].unread == Count(start.rows, UnreadIn(h)) {
        assert UnreadRight(db, h);
      }
      if Fetches(db, f, reply) {
        var got := HandedBy(start.folders[f].last, reply.uids, reply.mail.Keys);
        FiledAllKeepsUnreadExactly(start, f, got, reply.mail, {});
      }
    } else {
      assert UnreadRight(db, g);
    }
  }

  /** The row tables a pass goes through, one message handed on after the other. */
  ghost predicate Storing(states: seq<seq<Row>>, f: nat, uids: seq<nat>, mail: map<nat, Incoming>, ruled: bool) {
    && |states| == |uids| + 1
    && forall k :: 0 <= k < |uids| ==>
         uids[k] in mail && Stored(states[k], NextState(states, k), f, uids[k], mail[uids[k]], ruled)
  }

  function NextState(states: seq<seq<Row>>, k: nat): seq<Row>
    requires k + 1 < |states|
  {
    states[k + 1]
  }

  lemma RoleStays(db: Db, f: nat, uids: seq<nat>, mail: map<nat, Incoming>)
    requires f in db.folders && SoundBut(db, f) && forall u :: u in uids ==> u in mail
    ensures FiledAll(db, f, uids, mail).folders[f].role == db.folders[f].role
  {
    FiledAllKeeps(db, f, uids, mail);
  }

  lemma LastIsStored(db: Db, f: nat, uids: seq<nat>, mail: map<nat, Incoming>)
    requires f in db.folders && SoundBut(db, f) && uids != [] && forall u :: u in uids ==> u in mail
    ensures var n := |uids| - 1;
            && uids[n] in mail && (forall u :: u in uids[..n] ==> u in mail)
            && Stored(FiledAll(db, f, uids[..n], mail).rows, FiledAll(db, f, uids, mail).rows, f, uids[n],
                      mail[uids[n]], db.folders[f].role == "inbox")
  {
    var n := |uids| - 1;
    assert uids[n] in uids && forall u :: u in uids[..n] ==> u in uids;
    RoleStays(db, f, uids[..n], mail);
    FiledStores(FiledAll(db, f, uids[..n], mail), f, uids[n], mail[uids[n]]);
  }

  /** The rows after the first `k` messages. */
  function RowsAfter(db: Db, f: nat, uids: seq<nat>, mail: map<nat, Incoming>, k: nat): seq<Row>
    requires k <= |uids| && forall u :: u in uids ==> u in mail
  {
    assert forall u :: u in uids[..k] ==> u in uids;
    FiledAll(db, f, uids[..k], mail).rows
  }

  lemma StepStored(db: Db, f: nat, uids: seq<nat>, mail: map<nat, Incoming>, k: nat)
    requires f in db.folders && SoundBut(db, f) && k < |uids| && forall u :: u in uids ==> u in mail
    ensures uids[k] in mail
    ensures Stored(RowsAfter(db, f, uids, mail, k), RowsAfter(db, f, uids, mail, k + 1), f, uids[k], mail[uids[k]],
                   db.folders[f].role == "inbox")
  {
    assert uids[k] in uids && forall u :: u in uids[..k + 1] ==> u in uids;
    LastIsStored(db, f, uids[..k + 1], mail);
    assert uids[..k + 1][..k] == uids[..k];
  }

  lemma FiledAllStores(db: Db, f: nat, uids: seq<nat>, mail: map<nat, Incoming>) returns (states: seq<seq<Row>>)
    requires f in db.folders && SoundBut(db, f) && forall u :: u in uids ==> u in mail
    ensures Storing(states, f, uids, mail, db.folders[f].role == "inbox")
    ensures states[0] == db.rows && states[|uids|] == FiledAll(db, f, uids, mail).rows
  {
    states := seq(|uids| + 1, k requires 0 <= k <= |uids| => RowsAfter(db, f, uids, mail, k));
    forall k | 0 <= k < |uids|
      ensures uids[k] in mail
      ensures Stored(states[k], NextState(states, k), f, uids[k], mail[uids[k]], db.folders[f].role == "inbox")
    {
      StepStored(db, f, uids, mail, k);
    }
    assert uids[..|uids|] == uids && uids[..0] == [];
  }

  /** The messages the folder did not know when the pass reached them. */
  ghost function Unknown(states: seq<seq<Row>>, f: nat, uids: seq<nat>, mail: map<nat, Incoming>): nat
    requires |states| == |uids| + 1 && forall u :: u in uids ==> u in mail
  {
    if uids == [] then 0
    else
      var n := |uids| - 1;
      assert uids[n] in uids && forall u :: u in uids[..n] ==> u in uids;
      Unknown(states[..|uids|], f, uids[..n], mail)
      + if Knows(states[n], f, uids[n], mail[uids[n]].header) then 0 else 1
  }

  lemma {:induction false} StoringAdds(states: seq<seq<Row>>, f: nat, uids: seq<nat>, mail: map<nat, Incoming>,
                                       ruled: bool)
    requires Storing(states, f, uids, mail, ruled) && forall u :: u in uids ==> u in mail
    ensures |states[|uids|]| == |states[0]| + Unknown(states, f, uids, mail)
  {
    if uids != [] {
      var n := |uids| - 1;
      assert forall u :: u in uids[..n] ==> u in uids;
      var head := states[..|uids|];
      forall k | 0 <= k < n
        ensures uids[..n][k] in mail && Stored(head[k], NextState(head, k), f, uids[..n][k], mail[uids[..n][k]], ruled)
      {
        assert NextState(head, k) == NextState(states, k);
      }
      StoringAdds(head, f, uids[..n], mail, ruled);
      assert NextState(states, n) == states[|uids|];
      assert Stored(states[n], NextState(states, n), f, uids[n], mail[uids[n]], ruled);
    }
  }

  /** A pass stores every message it hands on: going from table to table, each adds one row with
      its Message-ID exactly if the folder knew neither its UID nor a live copy of it, and so the
      rows added number exactly those messages. */
  lemma PassStoresExactly(db: Db, f: nat, reply: Reply) returns (got: seq<nat>, states: seq<seq<Row>>)
    requires Sound(db) && f in db.folders && reply.Listed? && Distinct(reply.uids) && 0 !in reply.uids
    ensures var last := if reply.validity.Some? && reply.validity != db.folders[f].validity then 0
                        else db.folders[f].last;
            Took(last, reply.uids, reply.mail.Keys, got)
            && forall u :: u in got <==> u in Batch(last, reply.uids) && u in reply.mail
    ensures Storing(states, f, got, reply.mail, db.folders[f].role == "inbox")
    ensures states[0] == db.rows && states[|got|] == Synced(db, f, reply).rows
    ensures |Synced(db, f, reply).rows| == |db.rows| + Unknown(states, f, got, reply.mail)
  {
    var start := Renumbered(db, f, reply.validity);
    var last := start.folders[f].last;
    RenumberedKeepsSound(db, f, reply.validity);
    PassHandsExactly(last, reply.uids, reply.mail.Keys);
    got := HandedBy(last, reply.uids, reply.mail.Keys);
    states := FiledAllStores(start, f, got, reply.mail);
    StoringAdds(states, f, got, reply.mail, db.folders[f].role == "inbox");
    if Batch(last, reply.uids) == [] {
      assert got == [];
    }
  }

  lemma HasStays(before: seq<Row>, after: seq<Row>, f: nat, uid: nat, header: string,
                 other: nat, m: Incoming, ruled: bool)
    requires Stored(before, after, f, other, m, ruled) && Has(before, f, uid, header)
    ensures Has(after, f, uid, header)
  {
    var r :| r in before && r.folder == f &&
             (r.uid == Some(uid) || (!r.deleted && header != "" && r.mid == Some(header) && r.uid.Some?));
    var i :| 0 <= i < |before| && before[i] == r;
    assert KeptOrAdopts(before[i], after[i], f, other, m.header);
    assert after[i] in after && after[i] == r;
  }

  lemma {:induction false} StoringLeavesAll(states: seq<seq<Row>>, f: nat, uids: seq<nat>, mail: map<nat, Incoming>,
                                            k: nat, n: nat)
    requires Storing(states, f, uids, mail, false) && k < n <= |uids|
    ensures uids[k] in mail && Has(states[n], f, uids[k], mail[uids[k]].header)
    decreases n
  {
    assert Stored(states[n - 1], NextState(states, n - 1), f, uids[n - 1], mail[uids[n - 1]], false);
    if k < n - 1 {
      StoringLeavesAll(states, f, uids, mail, k, n - 1);
      HasStays(states[n - 1], states[n], f, uids[k], mail[uids[k]].header, uids[n - 1], mail[uids[n - 1]], false);
    }
  }

  /** In a folder other than the inbox every message of the batch that has a body is in the store
      after the pass: the folder has its UID, or a live row with its Message-ID and a UID. */
  lemma PassLeavesMessageStored(db: Db, f: nat, reply: Reply, u: nat)
    requires Sound(db) && f in db.folders && reply.Listed? && Distinct(reply.uids) && 0 !in reply.uids
    requires db.folders[f].role != "inbox" && u in reply.mail
    requires u in Batch(if reply.validity.Some? && reply.validity != db.folders[f].validity then 0
                        else db.folders[f].last, reply.uids)
    ensures Has(Synced(db, f, reply).rows, f, u, reply.mail[u].header)
  {
    var got, states := PassStoresExactly(db, f, reply);
    var k :| 0 <= k < |got| && got[k] == u;
    StoringLeavesAll(states, f, got, reply.mail, k, |got|);
  }

  /** A pass that cannot select or search leaves all rows as they are. */
  lemma FailedPassStoresNothing(db: Db, f: nat, reply: Reply)
    requires f in db.folders && !reply.Listed?
    ensures Synced(db, f, reply).rows == db.rows
    ensures reply.NotSelected? ==> Synced(db, f, reply) == db
  {
  }

  /** The watermarks after a pass: the synced folder's is the highest UID handed on, counted from
      the start again when UIDVALIDITY has changed; it never falls while UIDVALIDITY stays; and
      no other folder's moves. */
  lemma PassMovesOnlyItsMark(db: Db, f: nat, reply: Reply, g: nat)
    requires Sound(db) && f in db.folders && g in db.folders
    requires reply.Listed? && Distinct(reply.uids) && 0 !in reply.uids
    ensures var changed := reply.validity.Some? && reply.validity != db.folders[f].validity;
            var before := if changed then 0 else db.folders[f].last;
            && Synced(db, f, reply).folders[f].last == Last(before, HandedBy(before, reply.uids, reply.mail.Keys))
            && Synced(db, f, reply).folders[f].validity == (if changed then reply.validity else db.folders[f].validity)
            && (!changed ==> Synced(db, f, reply).folders[f].last >= db.folders[f].last)
    ensures g != f ==> Synced(db, f, reply).folders[g].last == db.folders[g].last
  {
    var start := Renumbered(db, f, reply.validity);
    var got := HandedBy(start.folders[f].last, reply.uids, reply.mail.Keys);
    RenumberedKeepsSound(db, f, reply.validity);
    PassHandsExactly(start.folders[f].last, reply.uids, reply.mail.Keys);
    FiledAllKeeps(start, f, got, reply.mail);
  }

  // ----- the account -----

  function SyncedAll(db: Db, folders: seq<nat>, replies: map<nat, Reply>): (after: Db)
    requires forall f :: f in folders ==> f in db.folders && f in replies
    ensures after.folders.Keys == db.folders.Keys
  {
    if folders == [] then db
    else
      var n := |folders| - 1;
      assert folders[n] in folders && forall f :: f in folders[..n] ==> f in folders;
      Synced(SyncedAll(db, folders[..n], replies), folders[n], replies[folders[n]])
  }

  /** Syncs the folders in turn and commits, or rolls everything back when one of them breaks
      off. The count it reports is not rolled back. */
  method SyncAccount(store: MailDb, folders: seq<nat>, replies: map<nat, Reply>, connected: bool)
    returns (ok: bool, newCount: nat)
    requires forall f :: f in folders ==> f in store.folders && f in replies
    requires forall f :: f in replies && replies[f].Listed? ==> Distinct(replies[f].uids) && 0 !in replies[f].uids
    modifies store
    ensures ok <==> connected && forall f :: f in folders ==> !replies[f].Breaks?
    ensures store.View() == if ok then SyncedAll(old(store.View()), folders, replies) else old(store.View())
    ensures ok ==> |store.rows| == old(|store.rows|) + newCount
  {
    ok, newCount := connected, 0;
    if !connected {
      return;
    }
    var savedRows, savedFolders := store.rows, store.folders;
    for k := 0 to |folders|
      invariant forall f :: f in folders ==> f in store.folders
      invariant forall j :: 0 <= j < k ==> !replies[folders[j]].Breaks?
      invariant store.View() == SyncedAll(old(store.View()), folders[..k], replies)
      invariant |store.rows| == old(|store.rows|) + newCount
    {
      assert folders[k] in folders && folders[..k + 1][..k] == folders[..k];
      var reply := replies[folders[k]];
      if reply.Breaks? {
        store.rows, store.folders := savedRows, savedFolders;
        return false, newCount;
      }
      var n := SyncOneFolder(store, folders[k], reply);
      newCount := newCount + n;
    }
    assert folders[..|folders|] == folders;
  }

  /** Each store but the first is left by a pass over the next folder. */
  ghost predicate InTurn(stores: seq<Db>, folders: seq<nat>, replies: map<nat, Reply>) {
    && |stores| == |folders| + 1
    && forall k :: 0 <= k < |folders| ==>
         folders[k] in stores[k].folders && folders[k] in replies
         && stores[k + 1] == Synced(stores[k], folders[k], replies[folders[k]])
  }

  lemma NextInTurn(stores: seq<Db>, folders: seq<nat>, replies: map<nat, Reply>, f: nat)
    requires InTurn(stores, folders, replies) && f in stores[|folders|].folders && f in replies
    ensures InTurn(stores + [Synced(stores[|folders|], f, replies[f])], folders + [f], replies)
  {
    var n := |folders|;
    var more := stores + [Synced(stores[n], f, replies[f])];
    forall k | 0 <= k < n + 1
      ensures (folders + [f])[k] in more[k].folders && (folders + [f])[k] in replies
      ensures more[k + 1] == Synced(more[k], (folders + [f])[k], replies[(folders + [f])[k]])
    {
      assert more[k] == stores[k];
    }
  }

  /** An account pass goes from store to store, one folder pass at a time, in the order given. */
  lemma {:induction false} AccountPassesInTurn(db: Db, folders: seq<nat>, replies: map<nat, Reply>)
    returns (stores: seq<Db>)
    requires forall f :: f in folders ==> f in db.folders && f in replies
    ensures InTurn(stores, folders, replies)
    ensures stores[0] == db && stores[|folders|] == SyncedAll(db, folders, replies)
  {
    if folders == [] {
      return [db];
    }
    var n := |folders| - 1;
    assert folders[n] in folders && forall f :: f in folders[..n] ==> f in folders;
    var before := AccountPassesInTurn(db, folders[..n], replies);
    NextInTurn(before, folders[..n], replies, folders[n]);
    assert folders[..n] + [folders[n]] == folders;
    return before + [SyncedAll(db, folders, replies)];
  }

  ghost predicate Listable(replies: map<nat, Reply>) {
    forall f :: f in replies && replies[f].Listed? ==> Distinct(replies[f].uids) && 0 !in replies[f].uids
  }

  lemma PassLeavesOtherMarks(db: Db, f: nat, reply: Reply, g: nat)
    requires Sound(db) && f in db.folders && g in db.folders && g != f
    requires reply.Listed? ==> Distinct(reply.uids) && 0 !in reply.uids
    ensures Synced(db, f, reply).folders[g].last == db.folders[g].last
    ensures Synced(db, f, reply).folders[g].validity == db.folders[g].validity
  {
    if reply.Listed? {
      var start := Renumbered(db, f, reply.validity);
      RenumberedKeepsSound(db, f, reply.validity);
      PassHandsExactly(start.folders[f].last, reply.uids, reply.mail.Keys);
      FiledAllKeeps(start, f, HandedBy(start.folders[f].last, reply.uids, reply.mail.Keys), reply.mail);
    }
  }

  /** In an account pass each listed folder's mark moves as in a pass over that folder alone, whatever
      the rules run for other folders do, and a folder not synced keeps its mark. */
  lemma {:induction false} AccountPassMovesEachMark(db: Db, folders: seq<nat>, replies: map<nat, Reply>, g: nat)
    requires forall f :: f in folders ==> f in db.folders && f in replies
    requires Sound(db) && Listable(replies) && g in db.folders
    requires forall i, j :: 0 <= i < j < |folders| ==> folders[i] != folders[j]
    ensures var mark := SyncedAll(db, folders, replies).folders[g];
            if g !in folders then mark.last == db.folders[g].last && mark.validity == db.folders[g].validity
            else if replies[g].Listed? then
              var changed := replies[g].validity.Some? && replies[g].validity != db.folders[g].validity;
              var before := if changed then 0 else db.folders[g].last;
              && mark.last == Last(before, HandedBy(before, replies[g].uids, replies[g].mail.Keys))
              && mark.validity == (if changed then replies[g].validity else db.folders[g].validity)
            else replies[g].NotSelected? || replies[g].Breaks? ==> mark.last == db.folders[g].last
  {
    if folders != [] {
      var n := |folders| - 1;
      var f := folders[n];
      assert f in folders && folders == folders[..n] + [f] && forall h :: h in folders[..n] ==> h in folders;
      AccountPassMovesEachMark(db, folders[..n], replies, g);
      AccountPassKeepsSound(db, folders[..n], replies);
      var before := SyncedAll(db, folders[..n], replies);
      if g != f {
        PassLeavesOtherMarks(before, f, replies[f], g);
      } else if replies[f].Listed? {
        PassMovesOnlyItsMark(before, f, replies[f], f);
      }
    }
  }

  datatype Change =
    | Sync(folders: seq<nat>, replies: map<nat, Reply>)
    | Move(i: nat, target: nat)

  predicate Applies(db: Db, c: Change) {
    match c
    case Sync(folders, replies) => forall f :: f in folders ==> f in db.folders && f in replies
    case Move(i, target) => i < |db.rows|
  }

  function After(db: Db, changes: seq<Change>): Db
    decreases |changes|
  {
    if changes == [] then db
    else if !Applies(db, changes[0]) then After(db, changes[1..])
    else
      var next := match changes[0]
        case Sync(folders, replies) => SyncedAll(db, folders, replies)
        case Move(i, target) => Moved(db, i, target);
      After(next, changes[1..])
  }

  lemma {:induction false} AccountPassKeepsSound(db: Db, folders: seq<nat>, replies: map<nat, Reply>)
    requires forall f :: f in folders ==> f in db.folders && f in replies
    requires Sound(db)
    ensures Sound(SyncedAll(db, folders, replies))
  {
    if folders != [] {
      var n := |folders| - 1;
      assert folders[n] in folders && forall f :: f in folders[..n] ==> f in folders;
      AccountPassKeepsSound(db, folders[..n], replies);
      PassKeepsStoreSound(SyncedAll(db, folders[..n], replies), folders[n], replies[folders[n]]);
    }
  }

  /** Any mixture of account passes and moves keeps UIDs unique and all totals right. */
  lemma {:induction false} AccountStaysSound(db: Db, changes: seq<Change>)
    requires Sound(db)
    ensures Sound(After(db, changes))
    decreases |changes|
  {
    if changes != [] {
      var c := changes[0];
      if Applies(db, c) {
        match c
        case Sync(folders, replies) =>
          AccountPassKeepsSound(db, folders, replies);
          AccountStaysSound(SyncedAll(db, folders, replies), changes[1..]);
        case Move(i, target) =>
          MovedKeepsSound(db, 0, i, target);
          AccountStaysSound(Moved(db, i, target), changes[1..]);
      } else {
        AccountStaysSound(db, changes[1..]);
      }
    }
  }
}
