/**
 Read watermarks and unread counts: two queries that must agree, over any run of sends, soft
 deletes, read marks and joins.
 */
module ChatUnread {
  import opened Options
  import opened Counting

  datatype Message = Message(id: int, conversation: int, sender: int, deleted: bool)

  /** A member's place in a conversation. */
  datatype Seat = Seat(conversation: int, user: int)

  /** `lastRead` has an entry for each member, `None` before anything was read. */
  datatype State = State(messages: seq<Message>, lastRead: map<Seat, Option<int>>, nextId: int)

  // ----- the two queries -----

  /** The inbox query: `NULL` or greater. */
  function UnreadByNull(seat: Seat, mark: Option<int>): Message -> bool {
    (m: Message) => m.conversation == seat.conversation && !m.deleted && m.sender != seat.user
                    && (mark.None? || m.id > mark.value)
  }

  /** The single query: greater than `COALESCE(mark, 0)`. */
  function UnreadByCoalesce(seat: Seat, mark: Option<int>): Message -> bool {
    (m: Message) => m.conversation == seat.conversation && !m.deleted && m.sender != seat.user
                    && m.id > mark.GetOr(0)
  }

  function MarkOf(s: State, seat: Seat): Option<int> {
    if seat in s.lastRead then s.lastRead[seat] else None
  }

  function InboxUnread(s: State, seat: Seat): nat
    requires seat in s.lastRead
  {
    Count(s.messages, UnreadByNull(seat, s.lastRead[seat]))
  }

  function UnreadCount(s: State, seat: Seat): nat {
    Count(s.messages, UnreadByCoalesce(seat, MarkOf(s, seat)))
  }

  // ----- the operations -----

  function Sent(s: State, conversation: int, sender: int): State {
    s.(messages := s.messages + [Message(s.nextId, conversation, sender, false)], nextId := s.nextId + 1)
  }

  function SoftDeleted(s: State, id: int): State {
    s.(messages := seq(|s.messages|, i requires 0 <= i < |s.messages| =>
      if s.messages[i].id == id then s.messages[i].(deleted := true) else s.messages[i]))
  }

  /** Forward only, and only for members. */
  function Marked(s: State, seat: Seat, id: int): State {
    if seat in s.lastRead && (s.lastRead[seat].None? || s.lastRead[seat].value < id) then
      s.(lastRead := s.lastRead[seat := Some(id)])
    else s
  }

  function Joined(s: State, seat: Seat): State {
    if seat in s.lastRead then s else s.(lastRead := s.lastRead[seat := None])
  }

  class ChatStore {
    var messages: seq<Message>
    var lastRead: map<Seat, Option<int>>
    var nextId: int

    constructor ()
      ensures View() == Empty
    {
      messages, lastRead, nextId := [], map[], 1;
    }

    function View(): State
      reads this
    {
      State(messages, lastRead, nextId)
    }

    method CreateMessage(conversation: int, sender: int) returns (id: int)
      modifies this
      ensures View() == Sent(old(View()), conversation, sender) && id == old(nextId)
    {
      id := nextId;
      messages := messages + [Message(id, conversation, sender, false)];
      nextId := nextId + 1;
    }

    method SoftDeleteMessage(id: int)
      requires Inv(View())
      modifies this
      ensures View() == SoftDeleted(old(View()), id)
    {
      var was := messages;
      for i := 0 to |was|
        invariant messages == was && View() == old(View())
        invariant forall j :: 0 <= j < i ==> was[j].id != id
      {
        if was[i].id == id {
          messages := was[i := was[i].(deleted := true)];
          assert messages == SoftDeleted(old(View()), id).messages;
          return;
        }
      }
      assert messages == SoftDeleted(old(View()), id).messages;
    }

    method UpdateLastRead(seat: Seat, id: int)
      modifies this
      ensures View() == Marked(old(View()), seat, id)
    {
      if seat in lastRead && (lastRead[seat].None? || lastRead[seat].value < id) {
        lastRead := lastRead[seat := Some(id)];
      }
    }
  }

  // ----- runs -----

  datatype Event =
    | Send(conversation: int, sender: int)
    | Delete(id: int)
    | Mark(seat: Seat, id: int)
    | Join(seat: Seat)

  const Empty := State([], map[], 1)

  function After(s: State, e: Event): State {
    match e
    case Send(conversation, sender) => Sent(s, conversation, sender)
    case Delete(id) => SoftDeleted(s, id)
    case Mark(seat, id) => Marked(s, seat, id)
    case Join(seat) => Joined(s, seat)
  }

  function Run(s: State, events: seq<Event>): State
    decreases |events|
  {
    if events == [] then s else Run(After(s, events[0]), events[1..])
  }

  /** Read marks name messages that exist. */
  predicate Proper(s: State, events: seq<Event>)
    decreases |events|
  {
    events != [] ==>
      && (events[0].Mark? ==> exists i :: 0 <= i < |s.messages| && s.messages[i].id == events[0].id)
      && Proper(After(s, events[0]), events[1..])
  }

  /** Ids count up from one, in the order of the table, and lie below the next one. */
  ghost predicate Inv(s: State) {
    && s.nextId >= 1
    && (forall i :: 0 <= i < |s.messages| ==> 1 <= s.messages[i].id < s.nextId)
    && (forall i, j :: 0 <= i < j < |s.messages| ==> s.messages[i].id < s.messages[j].id)
  }

  ghost predicate MarksBehind(s: State) {
    forall seat :: seat in s.lastRead && s.lastRead[seat].Some? ==> s.lastRead[seat].value < s.nextId
  }

  lemma AfterKeepsInv(s: State, e: Event)
    requires Inv(s)
    ensures Inv(After(s, e))
    ensures MarksBehind(s) && Proper(s, [e]) ==> MarksBehind(After(s, e))
  {
    if e.Delete? {
      assert forall i :: 0 <= i < |s.messages| ==> After(s, e).messages[i].id == s.messages[i].id;
    }
  }

  predicate NotBefore(a: Option<int>, b: Option<int>) {
    a.Some? ==> b.Some? && a.value <= b.value
  }

  /** No run moves a watermark back, whatever its marks name; and for every member the two
      queries give the same number. */
  lemma {:induction false} RunKeepsInv(s: State, events: seq<Event>)
    requires Inv(s)
    ensures Inv(Run(s, events))
    ensures forall seat :: seat in s.lastRead ==>
              seat in Run(s, events).lastRead && NotBefore(s.lastRead[seat], Run(s, events).lastRead[seat])
    ensures MarksBehind(s) && Proper(s, events) ==> MarksBehind(Run(s, events))
    decreases |events|
  {
    if events != [] {
      AfterKeepsInv(s, events[0]);
      assert Proper(s, events) ==> Proper(s, [events[0]]);
      RunKeepsInv(After(s, events[0]), events[1..]);
    }
  }

  /** The two queries differ exactly when a member has read nothing and has a live message from
      someone else with an id below one. */
  lemma QueriesAgreeExactly(s: State, seat: Seat)
    requires seat in s.lastRead
    ensures InboxUnread(s, seat) == UnreadCount(s, seat) <==>
            !(s.lastRead[seat].None? && exists m :: m in s.messages && UnreadByNull(seat, None)(m) && m.id <= 0)
  {
    var mark := s.lastRead[seat];
    var p, q := UnreadByNull(seat, mark), UnreadByCoalesce(seat, mark);
    if mark.None? {
      SplitCount(s.messages, p, q);
      if forall m :: m in s.messages ==> p(m) == q(m) {
        CountSame(s.messages, p, q);
      }
    } else {
      CountSame(s.messages, p, q);
    }
  }

  lemma {:induction false} SplitCount<T(!new)>(rows: seq<T>, p: T -> bool, q: T -> bool)
    requires forall r :: q(r) ==> p(r)
    ensures Count(rows, q) <= Count(rows, p)
    ensures Count(rows, q) == Count(rows, p) ==> forall r :: r in rows ==> p(r) == q(r)
  {
    if rows != [] {
      var n := |rows| - 1;
      SplitCount(rows[..n], p, q);
      assert forall r :: r in rows ==> r in rows[..n] || r == rows[n];
    }
  }

  /** In every run from an empty store both queries agree for every member. */
  lemma QueriesAgree(events: seq<Event>, seat: Seat)
    requires seat in Run(Empty, events).lastRead
    ensures InboxUnread(Run(Empty, events), seat) == UnreadCount(Run(Empty, events), seat)
  {
    RunKeepsInv(Empty, events);
    QueriesAgreeExactly(Run(Empty, events), seat);
  }

  /** A send adds one unread message to a member exactly when the member is in the conversation
      sent to, is not the sender, and has not marked the new id or a later one as read. */
  lemma SendAddsOneExactly(s: State, conversation: int, sender: int, seat: Seat)
    requires Inv(s) && seat in s.lastRead
    ensures InboxUnread(Sent(s, conversation, sender), seat) == InboxUnread(s, seat) +
            Bit(seat.conversation == conversation && seat.user != sender
                && (s.lastRead[seat].None? || s.lastRead[seat].value < s.nextId))
  {
    CountAppend(s.messages, Message(s.nextId, conversation, sender, false), UnreadByNull(seat, s.lastRead[seat]));
  }

  /** So after any run whose marks name existing messages, a send adds exactly one unread
      message to every member but the sender. */
  lemma SendReachesEveryMember(events: seq<Event>, conversation: int, sender: int, seat: Seat)
    requires Proper(Empty, events)
    requires seat in Run(Empty, events).lastRead
    ensures var s := Run(Empty, events);
            InboxUnread(Sent(s, conversation, sender), seat) ==
            InboxUnread(s, seat) + Bit(seat.conversation == conversation && seat.user != sender)
  {
    RunKeepsInv(Empty, events);
    SendAddsOneExactly(Run(Empty, events), conversation, sender, seat);
  }

  /** A mark on a message yet to come hides that message from the unread count. */
  lemma MarkAheadHidesMessage() returns (events: seq<Event>, seat: Seat)
    ensures var s := Run(Empty, events);
            seat in s.lastRead && seat == Seat(1, 7) && InboxUnread(Sent(s, 1, 8), seat) == InboxUnread(s, seat)
  {
    seat := Seat(1, 7);
    RunSplit(Empty, [], Join(seat));
    RunSplit(Empty, [] + [Join(seat)], Mark(seat, 5));
    events := [] + [Join(seat)] + [Mark(seat, 5)];
    var s := State([], map[seat := Some(5)], 1);
    assert Run(Empty, events) == s;
    SendAddsOneExactly(s, 1, 8, seat);
  }

  /** Deleting a message takes one from a member's count exactly when it was unread there. */
  lemma DeleteTakesOneExactly(s: State, i: nat, seat: Seat)
    requires Inv(s) && seat in s.lastRead && i < |s.messages|
    ensures InboxUnread(SoftDeleted(s, s.messages[i].id), seat)
            + Bit(UnreadByNull(seat, s.lastRead[seat])(s.messages[i]))
            == InboxUnread(s, seat)
  {
    var m := s.messages[i];
    assert SoftDeleted(s, m.id).messages == s.messages[i := m.(deleted := true)];
    CountUpdate(s.messages, i, m.(deleted := true), UnreadByNull(seat, s.lastRead[seat]));
  }

  /** Marking the newest message read leaves nothing unread. */
  lemma MarkingNewestClears(s: State, seat: Seat)
    requires Inv(s) && seat in s.lastRead && s.messages != []
    ensures InboxUnread(Marked(s, seat, s.messages[|s.messages| - 1].id), seat) == 0
  {
    var newest := s.messages[|s.messages| - 1].id;
    var v := Marked(s, seat, newest);
    CountZero(s.messages, UnreadByNull(seat, v.lastRead[seat]));
  }

  /** Everything a seat was marked with, as the greatest id. */
  function Highest(events: seq<Event>, seat: Seat): Option<int> {
    if events == [] then None
    else
      var n := |events| - 1;
      var before := Highest(events[..n], seat);
      var e := events[n];
      if e.Mark? && e.seat == seat && (before.None? || before.value < e.id) then Some(e.id) else before
  }

  lemma {:induction false} HighestIsMaximum(events: seq<Event>, seat: Seat)
    ensures Highest(events, seat).None? <==> forall e :: e in events && e.Mark? ==> e.seat != seat
    ensures Highest(events, seat).Some? ==> Mark(seat, Highest(events, seat).value) in events
    ensures forall e :: e in events && e.Mark? && e.seat == seat ==> NotBefore(Some(e.id), Highest(events, seat))
  {
    if events != [] {
      HighestIsMaximum(events[..|events| - 1], seat);
      assert forall e :: e in events ==> e in events[..|events| - 1] || e == events[|events| - 1];
    }
  }

  lemma {:induction false} RunSplit(s: State, events: seq<Event>, e: Event)
    ensures Run(s, events + [e]) == After(Run(s, events), e)
    decreases |events|
  {
    if events == [] {
      assert ([] + [e])[1..] == [];
    } else {
      assert (events + [e])[1..] == events[1..] + [e];
      RunSplit(After(s, events[0]), events[1..], e);
    }
  }

  /** A member's watermark is the greatest id ever marked, so the order and repetition of read
      marks do not matter. */
  lemma {:induction false} WatermarkIsHighestMark(s: State, seat: Seat, events: seq<Event>)
    requires seat in s.lastRead && s.lastRead[seat].None?
    ensures seat in Run(s, events).lastRead && Run(s, events).lastRead[seat] == Highest(events, seat)
    decreases |events|
  {
    if events != [] {
      var n := |events| - 1;
      WatermarkIsHighestMark(s, seat, events[..n]);
      assert events == events[..n] + [events[n]];
      RunSplit(s, events[..n], events[n]);
    }
  }
}
