/**
 Keyset pagination of a conversation's messages, newest first: each page continues strictly
 after the last row of the page before it.
 */
module ChatPaging {
  import opened StableSort

  datatype Message = Message(id: int, conversation: int, createdAt: int)

  /** A cursor text either decodes to the row it was made from or is ignored. */
  datatype Cursor = NoCursor | Garbled | At(createdAt: int, id: int)

  /** Newest first; the id breaks ties between equal times. */
  function NewestFirst(): Message -> Key { (m: Message) => Key(-m.createdAt, -m.id) }

  predicate Older(m: Message, createdAt: int, id: int) {
    m.createdAt < createdAt || (m.createdAt == createdAt && m.id < id)
  }

  function Wanted(conversation: int, cursor: Cursor): Message -> bool {
    (m: Message) => m.conversation == conversation && (cursor.At? ==> Older(m, cursor.createdAt, cursor.id))
  }

  function Filter<T>(p: T -> bool, s: seq<T>): (r: seq<T>)
    ensures forall x :: x in r ==> x in s && p(x)
  {
    if s == [] then [] else (if p(s[0]) then [s[0]] else []) + Filter(p, s[1..])
  }

  datatype Page = Page(rows: seq<Message>, hasMore: bool, next: Cursor)

  function Take<T>(s: seq<T>, n: nat): seq<T> { if |s| <= n then s else s[..n] }

  /** One row more than the limit is read, to know whether there are more. */
  function ListMessages(table: seq<Message>, conversation: int, cursor: Cursor, limit: nat): Page {
    PageOf(Sort(NewestFirst(), Filter(Wanted(conversation, cursor), table)), limit)
  }

  function PageOf(matching: seq<Message>, limit: nat): Page {
    var read := Take(matching, limit + 1);
    var hasMore := |read| > limit;
    var rows := if hasMore then read[..limit] else read;
    var next := if rows != [] && hasMore then At(rows[|rows| - 1].createdAt, rows[|rows| - 1].id) else NoCursor;
    Page(rows, hasMore, next)
  }

  /** The reference: the whole conversation in order. */
  function Conversation(table: seq<Message>, conversation: int): seq<Message> {
    Sort(NewestFirst(), Filter(Wanted(conversation, NoCursor), table))
  }

  ghost predicate DistinctIds(table: seq<Message>) {
    forall i, j :: 0 <= i < j < |table| ==> table[i].id != table[j].id
  }

  // ----- filtering and sorting -----

  lemma {:induction false} FilterCounts<T(!new)>(p: T -> bool, s: seq<T>, x: T)
    ensures multiset(Filter(p, s))[x] == if p(x) then multiset(s)[x] else 0
  {
    if s != [] {
      FilterCounts(p, s[1..], x);
      assert s == [s[0]] + s[1..];
    }
  }

  /** Sorting what is left of a set of rows depends only on which rows are left. */
  lemma SortFiltered(p: Message -> bool, table: seq<Message>, rest: seq<Message>)
    requires Sorted(NewestFirst(), rest) && IdsIdentify(rest)
    requires forall x :: multiset(rest)[x] == if p(x) then multiset(table)[x] else 0
    ensures Sort(NewestFirst(), Filter(p, table)) == rest
  {
    var kept := Filter(p, table);
    forall x ensures multiset(kept)[x] == multiset(rest)[x] {
      FilterCounts(p, table, x);
    }
    assert multiset(kept) == multiset(rest);
    SortIsSorted(NewestFirst(), kept);
    SortedIsUnique(NewestFirst(), rest, Sort(NewestFirst(), kept));
  }

  ghost predicate IdsIdentify(rows: seq<Message>) {
    forall x, y :: x in rows && y in rows && x.id == y.id ==> x == y
  }

  /** `s` lists the conversation's rows, each as often as the table has it, strictly newest first. */
  ghost predicate IsOrder(s: seq<Message>, table: seq<Message>, conversation: int) {
    && (forall i, j :: 0 <= i < j < |s| ==> Older(s[j], s[i].createdAt, s[i].id))
    && (forall x: Message :: multiset(s)[x] == if x.conversation == conversation then multiset(table)[x] else 0)
  }

  /** The reference order: no row twice, newest first, and exactly the conversation's rows. */
  lemma ConversationIsSorted(table: seq<Message>, conversation: int)
    requires DistinctIds(table)
    ensures IsOrder(Conversation(table, conversation), table, conversation)
    ensures forall m :: m in Conversation(table, conversation) <==> m in table && m.conversation == conversation
  {
    var p := Wanted(conversation, NoCursor);
    var s := Conversation(table, conversation);
    SortIsSorted(NewestFirst(), Filter(p, table));
    forall x: Message ensures multiset(s)[x] == if x.conversation == conversation then multiset(table)[x] else 0 {
      FilterCounts(p, table, x);
    }
    forall m ensures m in s <==> m in table && m.conversation == conversation {
      assert m in s <==> m in multiset(s);
      assert m in table <==> m in multiset(table);
    }
    SortedStrictly(s, table);
  }

  lemma SortedStrictly(s: seq<Message>, table: seq<Message>)
    requires Sorted(NewestFirst(), s) && DistinctIds(table)
    requires forall x :: multiset(s)[x] <= multiset(table)[x]
    ensures forall i, j :: 0 <= i < j < |s| ==> Older(s[j], s[i].createdAt, s[i].id)
  {
    forall i, j | 0 <= i < j < |s| ensures Older(s[j], s[i].createdAt, s[i].id) {
      assert Leq(NewestFirst()(s[i]), NewestFirst()(s[j]));
      if s[i].id == s[j].id {
        assert s[i] in multiset(table) && s[j] in multiset(table);
        assert s[i] == s[j];
        CountTwo(s, i, j);
        DistinctIdsOnce(table, s[i]);
      }
    }
  }

  lemma CountTwo<T>(s: seq<T>, i: nat, j: nat)
    requires i < j < |s| && s[i] == s[j]
    ensures multiset(s)[s[i]] >= 2
  {
    assert s == s[..j] + [s[j]] + s[j + 1..];
    assert s[..j][i] == s[i];
    assert s[i] in s[..j];
  }

  lemma {:induction false} DistinctIdsOnce(table: seq<Message>, x: Message)
    requires DistinctIds(table)
    ensures multiset(table)[x] <= 1
  {
    if table != [] {
      DistinctIdsOnce(table[1..], x);
      assert table == [table[0]] + table[1..];
      assert forall k :: 1 <= k < |table| ==> table[k] != table[0];
      assert table[0] !in table[1..];
    }
  }

  // ----- following the cursor -----

  /** `later` is the table some time after `table`: messages have been added, all newer than
      every message of the conversation then. */
  ghost predicate GrewByNewer(table: seq<Message>, later: seq<Message>, added: seq<Message>, conversation: int) {
    && multiset(later) == multiset(table) + multiset(added)
    && forall a, m :: a in added && m in table && m.conversation == conversation && a.conversation == conversation
                      ==> Older(m, a.createdAt, a.id)
  }

  /** The cursor after the first `c` messages of the order `s`. */
  function CursorAt(s: seq<Message>, c: nat): Cursor
    requires c <= |s|
  {
    if c == 0 then NoCursor else At(s[c - 1].createdAt, s[c - 1].id)
  }

  lemma RestCounts(s: seq<Message>, table: seq<Message>, later: seq<Message>, added: seq<Message>,
                   conversation: int, c: nat, x: Message)
    requires IsOrder(s, table, conversation) && c <= |s|
    requires c > 0 || added == []
    requires GrewByNewer(table, later, added, conversation)
    ensures multiset(s[c..])[x] == if Wanted(conversation, CursorAt(s, c))(x) then multiset(later)[x] else 0
  {
    assert s == s[..c] + s[c..];
    assert multiset(s)[x] == multiset(s[..c])[x] + multiset(s[c..])[x];
    if c > 0 {
      var last := s[c - 1];
      assert multiset(s)[last] > 0;
      assert last in table && last.conversation == conversation;
      BeforeAndAfter(s, c);
      assert x in s[..c] <==> multiset(s[..c])[x] > 0;
      assert x in s[c..] <==> multiset(s[c..])[x] > 0;
      assert x in added <==> multiset(added)[x] > 0;
    }
  }

  lemma BeforeAndAfter(s: seq<Message>, c: nat)
    requires 0 < c <= |s|
    requires forall i, j :: 0 <= i < j < |s| ==> Older(s[j], s[i].createdAt, s[i].id)
    ensures forall x :: x in s[..c] ==> !Older(x, s[c - 1].createdAt, s[c - 1].id)
    ensures forall x :: x in s[c..] ==> Older(x, s[c - 1].createdAt, s[c - 1].id)
  {
  }

  /** Rows wanted after the first `c` messages of the order are the remaining ones. */
  lemma RestAfter(s: seq<Message>, table: seq<Message>, later: seq<Message>, added: seq<Message>,
                  conversation: int, c: nat)
    requires IsOrder(s, table, conversation) && c <= |s|
    requires c > 0 || added == []
    requires GrewByNewer(table, later, added, conversation)
    requires IdsIdentify(s)
    ensures Sort(NewestFirst(), Filter(Wanted(conversation, CursorAt(s, c)), later)) == s[c..]
  {
    forall x ensures multiset(s[c..])[x] == if Wanted(conversation, CursorAt(s, c))(x) then multiset(later)[x] else 0 {
      RestCounts(s, table, later, added, conversation, c, x);
    }
    assert IdsIdentify(s[c..]) by {
      assert forall x :: x in s[c..] ==> x in s;
    }
    SortFiltered(Wanted(conversation, CursorAt(s, c)), later, s[c..]);
  }

  lemma IdsIdentifyOrder(s: seq<Message>, table: seq<Message>, conversation: int)
    requires IsOrder(s, table, conversation) && DistinctIds(table)
    ensures IdsIdentify(s)
  {
    forall x, y | x in s && y in s && x.id == y.id ensures x == y {
      assert multiset(s)[x] > 0 && multiset(s)[y] > 0;
      assert x in table && y in table;
    }
  }

  /** The pages a reader gets by following the cursor: page `k` is read from `tables[k]`. */
  ghost predicate Follows(tables: seq<seq<Message>>, conversation: int, limit: nat, pages: seq<Page>) {
    && |tables| == |pages|
    && forall k :: 0 <= k < |pages| ==>
         && pages[k] == ListMessages(tables[k], conversation, CursorBefore(pages, k), limit)
         && (k > 0 ==> CursorBefore(pages, k) != NoCursor)
  }

  function CursorBefore(pages: seq<Page>, k: nat): Cursor
    requires k <= |pages|
  {
    if k == 0 then NoCursor else pages[k - 1].next
  }

  function Rows(pages: seq<Page>): seq<Message> {
    if pages == [] then [] else Rows(pages[..|pages| - 1]) + pages[|pages| - 1].rows
  }

  ghost predicate GrowsByNewer(tables: seq<seq<Message>>, added: seq<seq<Message>>, conversation: int) {
    && |tables| == |added| > 0 && added[0] == []
    && forall k :: 0 <= k < |tables| ==> GrewByNewer(tables[0], tables[k], added[k], conversation)
  }

  /** A page read at position `c` of the order, whatever newer messages have come since. */
  lemma OnePage(s: seq<Message>, table: seq<Message>, later: seq<Message>, added: seq<Message>,
                conversation: int, c: nat, limit: nat)
    requires limit > 0 && DistinctIds(table) && IsOrder(s, table, conversation) && c <= |s|
    requires c > 0 || added == []
    requires GrewByNewer(table, later, added, conversation)
    ensures var page := ListMessages(later, conversation, CursorAt(s, c), limit);
            PageAt(s, c, limit, page)
  {
    IdsIdentifyOrder(s, table, conversation);
    RestAfter(s, table, later, added, conversation, c);
    PageOfRest(s, c, limit);
  }

  ghost predicate PageAt(s: seq<Message>, c: nat, limit: nat, page: Page)
    requires c <= |s| && limit > 0
  {
    && page.rows == Take(s[c..], limit) && page.hasMore == (|s| - c > limit)
    && page.next == if |s| - c > limit then CursorAt(s, c + limit) else NoCursor
  }

  lemma PageOfRest(s: seq<Message>, c: nat, limit: nat)
    requires limit > 0 && c <= |s|
    ensures PageAt(s, c, limit, PageOf(s[c..], limit))
  {
    if |s[c..]| > limit {
      assert Take(s[c..], limit + 1)[..limit] == s[c..][..limit];
      assert s[c..][limit - 1] == s[c + limit - 1];
    }
  }

  /** After `n` pages of a conversation of `size` messages. */
  function Position(n: nat, limit: nat, size: nat): (c: nat)
    ensures c <= size
  {
    if n * limit <= size then n * limit else size
  }

  /** The pages are the first messages of `s`, and the cursor tells whether any remain. */
  ghost predicate TiledBy(s: seq<Message>, limit: nat, pages: seq<Page>)
    requires pages != []
  {
    var c := Position(|pages|, limit, |s|);
    && Rows(pages) == s[..c]
    && pages[|pages| - 1].next == if |pages| * limit >= |s| then NoCursor else CursorAt(s, c)
  }

  /** However many newer messages arrive between pages, and with any ties between times, the
      pages so far are the first `n * limit` messages of the conversation as it stood at the
      first page, each once and in order; the cursor ends exactly when all have been given. */
  lemma PagesTileTheConversation(tables: seq<seq<Message>>, added: seq<seq<Message>>,
                                 conversation: int, limit: nat, pages: seq<Page>)
    requires limit > 0 && pages != []
    requires Follows(tables, conversation, limit, pages)
    requires GrowsByNewer(tables, added, conversation) && DistinctIds(tables[0])
    ensures TiledBy(Conversation(tables[0], conversation), limit, pages)
    ensures |pages| > 1 ==> (|pages| - 1) * limit < |Conversation(tables[0], conversation)|
  {
    ConversationIsSorted(tables[0], conversation);
    PagesTileOrder(Conversation(tables[0], conversation), tables, added, conversation, limit, pages);
  }

  lemma {:induction false} PagesTileOrder(s: seq<Message>, tables: seq<seq<Message>>, added: seq<seq<Message>>,
                                          conversation: int, limit: nat, pages: seq<Page>)
    requires limit > 0 && pages != []
    requires Follows(tables, conversation, limit, pages)
    requires GrowsByNewer(tables, added, conversation) && DistinctIds(tables[0]) && IsOrder(s, tables[0], conversation)
    ensures TiledBy(s, limit, pages) && (|pages| > 1 ==> (|pages| - 1) * limit < |s|)
    decreases |pages|
  {
    var n := |pages| - 1;
    if n > 0 {
      EarlierPages(tables, added, conversation, limit, pages);
      PagesTileOrder(s, tables[..n], added[..n], conversation, limit, pages[..n]);
    }
    LastFollows(tables, added, conversation, limit, pages);
    TiledSoFar(s, limit, pages, n);
    OnePage(s, tables[0], tables[n], added[n], conversation, n * limit, limit);
    NextTile(s, n, limit, pages);
  }

  lemma LastFollows(tables: seq<seq<Message>>, added: seq<seq<Message>>,
                    conversation: int, limit: nat, pages: seq<Page>)
    requires pages != []
    requires Follows(tables, conversation, limit, pages) && GrowsByNewer(tables, added, conversation)
    ensures var n := |pages| - 1;
            && pages[n] == ListMessages(tables[n], conversation, CursorBefore(pages, n), limit)
            && (n > 0 ==> CursorBefore(pages, n) != NoCursor)
            && GrewByNewer(tables[0], tables[n], added[n], conversation)
            && (n == 0 ==> added[n] == [])
  {
  }

  lemma TiledSoFar(s: seq<Message>, limit: nat, pages: seq<Page>, n: nat)
    requires limit > 0 && |pages| == n + 1
    requires n > 0 ==> TiledBy(s, limit, pages[..n]) && CursorBefore(pages, n) != NoCursor
    ensures n * limit <= |s| && Rows(pages[..n]) == s[..n * limit] && CursorBefore(pages, n) == CursorAt(s, n * limit)
    ensures n > 0 ==> 0 < n * limit < |s|
  {
    if n > 0 {
      assert pages[n - 1] == pages[..n][n - 1];
      assert n * limit == (n - 1) * limit + limit;
      assert (n - 1) * limit >= 0;
    }
  }

  lemma NextTile(s: seq<Message>, n: nat, limit: nat, pages: seq<Page>)
    requires limit > 0 && |pages| == n + 1 && n * limit <= |s|
    requires Rows(pages[..n]) == s[..n * limit] && PageAt(s, n * limit, limit, pages[n])
    ensures TiledBy(s, limit, pages)
  {
    var c := n * limit;
    assert (n + 1) * limit == c + limit;
    assert s[..c] + Take(s[c..], limit) == s[..Position(n + 1, limit, |s|)];
  }

  lemma EarlierPages(tables: seq<seq<Message>>, added: seq<seq<Message>>,
                     conversation: int, limit: nat, pages: seq<Page>)
    requires |pages| > 1
    requires Follows(tables, conversation, limit, pages) && GrowsByNewer(tables, added, conversation)
    ensures var n := |pages| - 1;
            Follows(tables[..n], conversation, limit, pages[..n]) && GrowsByNewer(tables[..n], added[..n], conversation)
  {
    var n := |pages| - 1;
    forall k | 0 <= k < n
      ensures pages[..n][k] == ListMessages(tables[..n][k], conversation, CursorBefore(pages[..n], k), limit)
              && (k > 0 ==> CursorBefore(pages[..n], k) != NoCursor)
    {
      assert pages[k] == ListMessages(tables[k], conversation, CursorBefore(pages, k), limit);
      assert CursorBefore(pages[..n], k) == CursorBefore(pages, k);
    }
    forall k | 0 <= k < n ensures GrewByNewer(tables[..n][0], tables[..n][k], added[..n][k], conversation) {
      assert GrewByNewer(tables[0], tables[k], added[k], conversation);
    }
  }

  /** A reader who stops at the first missing cursor has the whole conversation, and got there
      in the fewest pages that hold it. */
  lemma FollowingCursorsReadsEverything(tables: seq<seq<Message>>, added: seq<seq<Message>>,
                                        conversation: int, limit: nat, pages: seq<Page>)
    requires limit > 0 && pages != []
    requires Follows(tables, conversation, limit, pages)
    requires GrowsByNewer(tables, added, conversation) && DistinctIds(tables[0])
    ensures pages[|pages| - 1].next == NoCursor <==> Rows(pages) == Conversation(tables[0], conversation)
    ensures |pages| > 1 ==> (|pages| - 1) * limit < |Conversation(tables[0], conversation)|
  {
    PagesTileTheConversation(tables, added, conversation, limit, pages);
    WholeWhenDone(Conversation(tables[0], conversation), limit, pages);
  }

  lemma WholeWhenDone(s: seq<Message>, limit: nat, pages: seq<Page>)
    requires limit > 0 && pages != [] && TiledBy(s, limit, pages)
    ensures pages[|pages| - 1].next == NoCursor <==> Rows(pages) == s
  {
    var size := |pages| * limit;
    PositiveProduct(|pages|, limit);
    assert s[..|s|] == s;
    assert size < |s| ==> |s[..size]| < |s| && CursorAt(s, size) != NoCursor;
  }

  lemma PositiveProduct(a: nat, b: nat)
    requires a > 0 && b > 0
    ensures a * b > 0
  {
  }

  /** A limit of zero gives no row and no cursor, even where it says there is more. */
  lemma ZeroLimitStops(table: seq<Message>, conversation: int, cursor: Cursor)
    ensures var page := ListMessages(table, conversation, cursor, 0);
            page.rows == [] && page.next == NoCursor
            && (page.hasMore <==> exists m :: m in table && Wanted(conversation, cursor)(m))
  {
    var kept := Filter(Wanted(conversation, cursor), table);
    assert |multiset(Sort(NewestFirst(), kept))| == |multiset(kept)|;
    if kept != [] {
      assert kept[0] in kept;
    }
    if m :| m in table && Wanted(conversation, cursor)(m) {
      FilterCounts(Wanted(conversation, cursor), table, m);
      assert m in multiset(table);
      assert m in multiset(kept);
    }
  }

  /** A cursor that cannot be read starts from the newest message again. */
  lemma GarbledCursorStartsOver(table: seq<Message>, conversation: int, limit: nat)
    ensures ListMessages(table, conversation, Garbled, limit) == ListMessages(table, conversation, NoCursor, limit)
  {
    SameFilter(Wanted(conversation, Garbled), Wanted(conversation, NoCursor), table);
  }

  lemma {:induction false} SameFilter<T>(p: T -> bool, q: T -> bool, s: seq<T>)
    requires forall x :: x in s ==> p(x) == q(x)
    ensures Filter(p, s) == Filter(q, s)
  {
    if s != [] {
      SameFilter(p, q, s[1..]);
    }
  }
}
