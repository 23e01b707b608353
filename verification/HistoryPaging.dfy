/** What a client gets that follows nextCursor through the history of a chat, page by page. */
module HistoryPaging {
  import opened Wrappers
  import opened Text
  import opened Sorting
  import opened MessageStore
  import opened ChatId
  import opened Pagination
  import opened History

  /** The pages fetched from the cursor on, each with the cursor of the one before, down to the one without more. */
  ghost predicate Follows(fetch: string -> Page, before: string, pages: seq<Page>)
    decreases |pages|
  {
    && pages != [] && pages[0] == fetch(before)
    && (pages[0].hasMore <==> pages[1..] != [])
    && (pages[0].hasMore ==>
          pages[0].nextCursor.Some? && Follows(fetch, pages[0].nextCursor.value, pages[1..]))
  }

  function AllRows(pages: seq<Page>): seq<Row> {
    if pages == [] then [] else pages[0].messages + AllRows(pages[1..])
  }

  /** Every page but the last is full. */
  ghost predicate FullPages(pages: seq<Page>, limit: nat) {
    forall i | 0 <= i < |pages| ::
      if i < |pages| - 1 then |pages[i].messages| == limit else |pages[i].messages| <= limit
  }

  /** The calls page through the list. */
  ghost predicate Pages(fetch: string -> Page, mode: Mode, list: seq<Row>, limit: nat) {
    forall c :: fetch(c) == PageAfter(mode, list, c, limit)
  }

  lemma {:induction false} FollowedRows(fetch: string -> Page, mode: Mode, list: seq<Row>, limit: nat, before: string,
                                        pages: seq<Page>)
    requires Pages(fetch, mode, list, limit) && Sound(mode, list) && limit >= 1 && Follows(fetch, before, pages)
    ensures AllRows(pages) == list[StartIndex(mode, list, before)..] && FullPages(pages, limit)
    decreases |pages|
  {
    var start := StartIndex(mode, list, before);
    assert pages[0] == PageAfter(mode, list, before, limit) == PageAt(mode, list, start, limit);
    if pages[0].hasMore {
      NextStart(mode, list, start, limit);
      FollowedRows(fetch, mode, list, limit, pages[0].nextCursor.value, pages[1..]);
      assert list[start..] == pages[0].messages + list[start + limit..];
      forall i | 0 < i < |pages|
        ensures if i < |pages| - 1 then |pages[i].messages| == limit else |pages[i].messages| <= limit
      {
        assert pages[i] == pages[1..][i - 1];
      }
    } else {
      assert AllRows(pages[1..]) == [];
    }
  }

  /** Following the cursors ends. */
  lemma {:induction false} FollowingEnds(fetch: string -> Page, mode: Mode, list: seq<Row>, limit: nat, before: string)
    returns (pages: seq<Page>)
    requires Pages(fetch, mode, list, limit) && Sound(mode, list) && limit >= 1
    ensures Follows(fetch, before, pages)
    decreases |list| - StartIndex(mode, list, before)
  {
    var start := StartIndex(mode, list, before);
    var page := fetch(before);
    assert page == PageAt(mode, list, start, limit);
    if page.hasMore {
      NextStart(mode, list, start, limit);
      var rest := FollowingEnds(fetch, mode, list, limit, page.nextCursor.value);
      pages := [page] + rest;
      assert pages[1..] == rest;
    } else {
      pages := [page];
    }
  }

  function OwnId(r: Row): string {
    r.messageId
  }

  /** By time, and by descending id within one instant. */
  ghost predicate NewestFirst(list: seq<Row>, id: Row -> string) {
    forall i, j | 0 <= i < j < |list| ::
      list[i].timestamp > list[j].timestamp
      || (list[i].timestamp == list[j].timestamp && Less(id(list[j]), id(list[i])))
  }

  lemma DescendsInTime(mode: Mode, list: seq<Row>)
    requires Ascending(Newest(mode), list)
    ensures NewestFirst(list, if mode == RecipientLog then OwnId else Rid)
    ensures forall i, j | 0 <= i < j < |list| :: list[i] != list[j]
  {
    NewestIsStrictOrder(mode);
    var newer := Newest(mode);
    forall i, j | 0 <= i < j < |list| ensures NewerThan(mode, list[i], list[j]) && list[i] != list[j] {
      assert newer(list[i], list[j]) && !newer(list[i], list[i]);
    }
  }

  // ----- Rooms -----

  /** The row stands for a message of the room: no earlier row of the room belongs to the same room message. */
  ghost predicate FirstOfMessage(rows: seq<Row>, id: string, r: Row) {
    exists i :: 0 <= i < |rows| && rows[i] == r && r.roomId == id
      && forall j | 0 <= j < i && rows[j].roomId == id :: Rid(rows[j]) != Rid(r)
  }

  /** One row for each message of the room, newest first. */
  ghost predicate IsRoomHistory(rows: seq<Row>, id: string, list: seq<Row>) {
    && NewestFirst(list, Rid)
    && (forall i, j | 0 <= i < j < |list| :: Rid(list[i]) != Rid(list[j]))
    && (forall r :: r in list <==> FirstOfMessage(rows, id, r))
  }

  lemma {:induction false} FirstPerRidFirst(rows: seq<Row>, r: Row)
    ensures r in FirstPerRid(rows) <==> IsFirst(rows, r)
  {
    if rows != [] {
      var front, last := rows[..|rows| - 1], rows[|rows| - 1];
      assert rows == front + [last];
      FirstPerRidFirst(front, r);
      FirstPerRidIs(front);
      FirstMore(front, last, r);
    }
  }

  ghost predicate IsFirst(rows: seq<Row>, r: Row) {
    exists i :: 0 <= i < |rows| && rows[i] == r && forall j | 0 <= j < i :: Rid(rows[j]) != Rid(r)
  }

  lemma FirstMore(front: seq<Row>, last: Row, r: Row)
    ensures IsFirst(front + [last], r) <==> IsFirst(front, r) || (r == last && !HasRid(front, Rid(last)))
  {
    var rows := front + [last];
    if IsFirst(front, r) {
      var i :| 0 <= i < |front| && front[i] == r && forall j | 0 <= j < i :: Rid(front[j]) != Rid(r);
      assert rows[i] == r && forall j | 0 <= j < i :: rows[j] == front[j];
    }
    if r == last && !HasRid(front, Rid(last)) {
      assert rows[|front|] == last;
      forall j | 0 <= j < |front| ensures Rid(rows[j]) != Rid(r) {
        assert rows[j] == front[j] && front[j] in front;
      }
    }
    if IsFirst(rows, r) {
      var i :| 0 <= i < |rows| && rows[i] == r && forall j | 0 <= j < i :: Rid(rows[j]) != Rid(r);
      if i < |front| {
        assert front[i] == r && forall j | 0 <= j < i :: rows[j] == front[j];
      } else {
        forall x | x in front ensures Rid(x) != Rid(last) {
          var j :| 0 <= j < |front| && front[j] == x;
          assert rows[j] == x;
        }
      }
    }
  }

  ghost predicate MessageSeen(rows: seq<Row>, id: string, rid: string) {
    exists x :: x in rows && x.roomId == id && Rid(x) == rid
  }

  lemma FirstOfMore(front: seq<Row>, last: Row, id: string, r: Row)
    ensures FirstOfMessage(front + [last], id, r) <==>
            FirstOfMessage(front, id, r) || (r == last && last.roomId == id && !MessageSeen(front, id, Rid(last)))
  {
    var rows := front + [last];
    if FirstOfMessage(front, id, r) {
      var i :| 0 <= i < |front| && front[i] == r && r.roomId == id
        && forall j | 0 <= j < i && front[j].roomId == id :: Rid(front[j]) != Rid(r);
      assert rows[i] == r && forall j | 0 <= j < i :: rows[j] == front[j];
    }
    if r == last && last.roomId == id && !MessageSeen(front, id, Rid(last)) {
      assert rows[|front|] == last;
      forall j | 0 <= j < |front| && rows[j].roomId == id ensures Rid(rows[j]) != Rid(r) {
        assert rows[j] == front[j] && front[j] in front;
      }
    }
    if FirstOfMessage(rows, id, r) {
      var i :| 0 <= i < |rows| && rows[i] == r && r.roomId == id
        && forall j | 0 <= j < i && rows[j].roomId == id :: Rid(rows[j]) != Rid(r);
      if i < |front| {
        assert front[i] == r && forall j | 0 <= j < i :: rows[j] == front[j];
      } else {
        forall x | x in front && x.roomId == id ensures Rid(x) != Rid(last) {
          var j :| 0 <= j < |front| && front[j] == x;
          assert rows[j] == x;
        }
      }
    }
  }

  lemma {:induction false} FirstInRoom(rows: seq<Row>, id: string, r: Row)
    ensures IsFirst(Filter((x: Row) => x.roomId == id, rows), r) <==> FirstOfMessage(rows, id, r)
  {
    var inRoom := (x: Row) => x.roomId == id;
    if rows != [] {
      var front, last := rows[..|rows| - 1], rows[|rows| - 1];
      assert rows == front + [last];
      FirstInRoom(front, id, r);
      FirstOfMore(front, last, id, r);
      FilterAppend(inRoom, front, [last]);
      assert [last][1..] == [];
      var before := Filter(inRoom, front);
      assert Filter(inRoom, rows) == before + if last.roomId == id then [last] else [];
      assert HasRid(before, Rid(last)) <==> MessageSeen(front, id, Rid(last));
      if last.roomId == id {
        FirstMore(before, last, r);
      } else {
        assert before + [] == before;
      }
    }
  }

  /** The listing of a room is its history. */
  lemma ListingIsRoomHistory(rows: seq<Row>, id: string, mode: Mode)
    requires id != "" && mode != RecipientLog
    ensures IsRoomHistory(rows, id, RoomListing(rows, id, mode))
  {
    var inRoom := (r: Row) => r.roomId == id;
    var list := RoomListing(rows, id, mode);
    RoomListingIs(rows, id, mode);
    DescendsInTime(mode, list);
    forall i, j | 0 <= i < j < |list| ensures Rid(list[i]) != Rid(list[j]) {
      assert list[i] in list && list[j] in list && list[i] != list[j];
    }
    forall r ensures r in list <==> FirstOfMessage(rows, id, r) {
      FirstInRoom(rows, id, r);
      FirstPerRidFirst(Filter(inRoom, rows), r);
      ListedIffKept(rows, id, mode, r);
    }
  }

  lemma ListedIffKept(rows: seq<Row>, id: string, mode: Mode, r: Row)
    requires id != ""
    ensures r in RoomListing(rows, id, mode) <==> r in FirstPerRid(Filter((x: Row) => x.roomId == id, rows))
  {
    var inRoom := (x: Row) => x.roomId == id;
    var firsts := FirstPerRid(Filter(inRoom, rows));
    SameElements(ByRoom(rows, id), firsts, r);
    SameElements(RoomListing(rows, id, mode), Filter(inRoom, ByRoom(rows, id)), r);
    FirstPerRidIs(Filter(inRoom, rows));
  }

  // ----- The names of a room -----

  predicate CleanId(id: string) {
    id != "" && Trim(id) == id
  }

  /** The chat ids that stand for the room: its id behind the prefix or alone, and the known typo of either. */
  predicate NamesRoom(chatId: string, id: string) {
    || (!StartsWith(id, "oom_") && (chatId == "room:" + id || (chatId == id && IsBare(id))))
    || (StartsWith(id, "room_") && (chatId == "room:" + id[1..] || (chatId == id[1..] && IsBare(id[1..]))))
  }

  predicate IsBare(id: string) {
    !StartsWith(id, "room:") && !StartsWith(id, "direct:")
  }

  lemma CleanSides(id: string)
    requires Trim(id) == id
    ensures TrimLeft(id) == id && TrimRight(id) == id
  {
    TrimRightCuts(TrimLeft(id));
    TrimLeftShorter(id);
  }

  lemma {:induction false} TrimLeftShorter(s: string)
    ensures |TrimLeft(s)| <= |s| && (|TrimLeft(s)| == |s| ==> TrimLeft(s) == s)
  {
    if s != "" && IsSpace(s[0]) {
      TrimLeftShorter(s[1..]);
    }
  }

  lemma PrefixedTrim(prefix: string, id: string)
    requires prefix != "" && !IsSpace(prefix[0]) && !IsSpace(prefix[|prefix| - 1]) && TrimRight(id) == id
    ensures Trim(prefix + id) == prefix + id
  {
    assert (prefix + id)[0] == prefix[0];
    TrimRightAppend(prefix, id);
  }

  /** A tail of a clean id that starts with a letter of its own is clean. */
  lemma TailClean(id: string)
    requires Trim(id) == id && StartsWith(id, "room_")
    ensures Trim(id[1..]) == id[1..] && StartsWith(id[1..], "oom_") && "room_" + id[1..][4..] == id && id[1..] != ""
  {
    CleanSides(id);
    assert id[1..][0] == 'o' && id[1..][..4] == "oom_";
    assert !IsSpace(id[|id| - 1]) by { TrimRightEnds(id); }
    assert id[1..][|id[1..]| - 1] == id[|id| - 1];
    assert id == "room_" + id[5..] && id[1..][4..] == id[5..];
  }

  lemma BehindPrefix(id: string)
    requires Trim(id) == id && id != ""
    ensures ToRoomId("room:" + id) == Some(NormalizeRoomId(id))
  {
    CleanSides(id);
    PrefixedTrim("room:", id);
    assert ("room:" + id)[|"room:"|..] == id;
  }

  lemma Bare(id: string)
    requires Trim(id) == id && id != "" && IsBare(id)
    ensures ToRoomId(id) == Some(NormalizeRoomId(id))
  {}

  lemma NamedRoom(chatId: string, id: string)
    requires CleanId(id) && NamesRoom(chatId, id)
    ensures ToRoomId(chatId) == Some(id) && !StartsWith(chatId, "direct:") && chatId != ""
  {
    if chatId == "room:" + id || chatId == id {
      assert StartsWith(id, "room_") ==> id[0] == 'r';
      assert !StartsWith(id, "oom_");
      if chatId == "room:" + id { BehindPrefix(id); } else { Bare(id); }
    } else {
      TailClean(id);
      if chatId == "room:" + id[1..] { BehindPrefix(id[1..]); } else { Bare(id[1..]); }
    }
    if chatId == "room:" + id || chatId == "room:" + id[1..] {
      assert chatId[0] == 'r' && "direct:"[0] == 'd';
    }
  }

  // ----- Histories as a client gets them -----

  /** The history calls of a client for one chat with one limit. */
  function Fetch(rows: seq<Row>, member: bool, user: string, chatId: string, limit: Option<int>): string -> Page {
    (cursor: string) => GetHistory(rows, member, user, chatId, cursor, limit)
  }

  /** All pages from the top give this, and following the cursors ends. */
  ghost predicate Gives(fetch: string -> Page, limit: nat, list: seq<Row>) {
    && (forall pages | Follows(fetch, "", pages) :: AllRows(pages) == list && FullPages(pages, limit))
    && exists pages :: Follows(fetch, "", pages)
  }

  lemma PagingGives(fetch: string -> Page, mode: Mode, list: seq<Row>, limit: nat)
    requires Pages(fetch, mode, list, limit) && Sound(mode, list) && limit >= 1
    ensures Gives(fetch, limit, list)
  {
    forall pages | Follows(fetch, "", pages) ensures AllRows(pages) == list && FullPages(pages, limit) {
      FollowedRows(fetch, mode, list, limit, "", pages);
    }
    var pages := FollowingEnds(fetch, mode, list, limit, "");
  }

  lemma RoomSound(rows: seq<Row>, id: string, mode: Mode)
    requires DistinctIds(rows) && IdsApart(rows) && id != "" && mode != RecipientLog
    ensures Sound(mode, RoomListing(rows, id, mode))
  {
    var list := RoomListing(rows, id, mode);
    RoomListingIs(rows, id, mode);
    if mode == RoomChat { RoomCursorsWork(list); } else { PlainCursorsWork(mode, list); }
  }

  /**
    A member who follows the cursors of a room, under any of its names, gets one row for each message of the
    room, newest first, in full pages.
   */
  lemma RoomHistory(rows: seq<Row>, user: string, chatId: string, id: string, limit: Option<int>)
    requires DistinctIds(rows) && IdsApart(rows) && user != "" && CleanId(id) && NamesRoom(chatId, id)
    ensures exists list ::
              IsRoomHistory(rows, id, list) && Gives(Fetch(rows, true, user, chatId, limit), Limit(limit), list)
  {
    var mode := ChatMode(chatId);
    var list := RoomListing(rows, id, mode);
    NamedRoom(chatId, id);
    ListingIsRoomHistory(rows, id, mode);
    RoomSound(rows, id, mode);
    forall c ensures Fetch(rows, true, user, chatId, limit)(c) == PageAfter(mode, list, c, Limit(limit)) {}
    PagingGives(Fetch(rows, true, user, chatId, limit), mode, list, Limit(limit));
  }

  /** Every message between the two users and nothing else, newest first. */
  ghost predicate IsDirectHistory(rows: seq<Row>, a: string, b: string, list: seq<Row>) {
    && NewestFirst(list, Rid) && (forall i, j | 0 <= i < j < |list| :: list[i] != list[j])
    && forall r :: r in list <==>
         r in rows && r.roomId == ""
         && ((r.senderId == a && r.recipientId == b) || (r.senderId == b && r.recipientId == a))
  }

  /** Whatever the room manager says, which nobody asks for a direct chat. */
  ghost predicate GivesDirect(rows: seq<Row>, user: string, chatId: string, limit: Option<int>, list: seq<Row>) {
    forall member :: Gives(Fetch(rows, member, user, chatId, limit), Limit(limit), list)
  }

  lemma DirectGives(rows: seq<Row>, user: string, other: string, chatId: string, limit: Option<int>)
    requires StartsWith(chatId, DIRECT_PREFIX) && OtherParticipant(chatId, user) == Some(other)
    requires OwnsChat(false, chatId, user) && Sound(PlainChat, DirectListing(rows, user, other))
    ensures GivesDirect(rows, user, chatId, limit, DirectListing(rows, user, other))
  {
    var list := DirectListing(rows, user, other);
    forall member ensures Gives(Fetch(rows, member, user, chatId, limit), Limit(limit), list) {
      DirectPages(rows, member, user, other, chatId, limit);
      PagingGives(Fetch(rows, member, user, chatId, limit), PlainChat, list, Limit(limit));
    }
  }

  lemma ListingIsDirectHistory(rows: seq<Row>, a: string, b: string)
    requires DistinctIds(rows) && NoRoomIds(rows) && a != b
    ensures IsDirectHistory(rows, a, b, DirectListing(rows, a, b))
  {
    DirectListingIs(rows, a, b);
    DescendsInTime(PlainChat, DirectListing(rows, a, b));
  }

  /** Both users of a direct chat who follow its cursors get all their messages and nothing else. */
  lemma DirectHistory(rows: seq<Row>, a: string, b: string, limit: Option<int>)
    requires DistinctIds(rows) && NoRoomIds(rows) && (forall r | r in rows :: CleanIds(r))
    requires a != "" && b != "" && a != b && ':' !in a && ':' !in b
    ensures exists list ::
              && IsDirectHistory(rows, a, b, list)
              && GivesDirect(rows, a, ToDirectChatId(a, b), limit, list)
              && GivesDirect(rows, b, ToDirectChatId(a, b), limit, list)
  {
    DirectChatParts(a, b);
    ListingIsDirectHistory(rows, a, b);
    SameDirectListing(rows, a, b);
    DirectWalk(rows, a, b, limit);
    DirectWalk(rows, b, a, limit);
    DirectGives(rows, a, b, ToDirectChatId(a, b), limit);
    DirectGives(rows, b, a, ToDirectChatId(a, b), limit);
    assert IsDirectHistory(rows, a, b, DirectListing(rows, a, b));
  }

  lemma DirectPages(rows: seq<Row>, member: bool, user: string, other: string, chatId: string, limit: Option<int>)
    requires StartsWith(chatId, DIRECT_PREFIX) && OtherParticipant(chatId, user) == Some(other)
    requires OwnsChat(false, chatId, user)
    ensures Pages(Fetch(rows, member, user, chatId, limit), PlainChat, DirectListing(rows, user, other), Limit(limit))
  {
    assert chatId[0] == 'd' && ROOM_PREFIX[0] == 'r';
    forall c ensures Fetch(rows, member, user, chatId, limit)(c)
                     == PageAfter(PlainChat, DirectListing(rows, user, other), c, Limit(limit)) {}
  }

  /** A page that has more ends in the row its cursor names, by room message id under the room prefix. */
  lemma NextCursorNames(rows: seq<Row>, member: bool, user: string, chatId: string, before: string, limit: Option<int>)
    ensures var page := GetHistory(rows, member, user, chatId, before, limit);
            && (page.hasMore <==> page.nextCursor.Some?)
            && (page.hasMore ==>
                  && page.messages != []
                  && var last := page.messages[|page.messages| - 1];
                     page.nextCursor == Some(if StartsWith(chatId, "room:") && last.roomMessageId != ""
                                             then last.roomMessageId else last.messageId))
  {
    forall mode: Mode, list ensures PageNames(mode, PageAfter(mode, list, before, Limit(limit))) {
      PageNamed(mode, list, before, Limit(limit));
    }
  }

  predicate PageNames(mode: Mode, page: Page) {
    && (page.hasMore <==> page.nextCursor.Some?)
    && (page.hasMore ==>
          page.messages != [] && page.nextCursor == Some(CursorOf(mode, page.messages[|page.messages| - 1])))
  }

  lemma PageNamed(mode: Mode, list: seq<Row>, before: string, limit: nat)
    requires limit >= 1
    ensures PageNames(mode, PageAfter(mode, list, before, limit))
  {}

  /** Who is not in a room, or names no room, gets nothing of it. */
  lemma RoomOutsiders(rows: seq<Row>, member: bool, user: string, chatId: string, before: string, limit: Option<int>)
    requires user == "" || chatId == "" || (!StartsWith(chatId, "direct:") && (!member || ToRoomId(chatId).None?))
    ensures GetHistory(rows, member, user, chatId, before, limit) == Page([], None, false)
  {}

  /** Who is not one of the two users of a direct chat gets nothing of it. */
  lemma DirectOutsiders(rows: seq<Row>, member: bool, user: string, chatId: string, before: string, limit: Option<int>)
    requires StartsWith(chatId, "direct:")
    requires var pair := ParseDirectChatId(chatId);
             pair.None? || (user != pair.value.0 && user != pair.value.1
                            && Trim(user) != pair.value.0 && Trim(user) != pair.value.1)
    ensures GetHistory(rows, member, user, chatId, before, limit) == Page([], None, false)
  {}

  function FetchLog(rows: seq<Row>, user: string, limit: Option<int>): string -> Page {
    (cursor: string) => GetHistoryPaginated(rows, user, cursor, limit)
  }

  /** Everything one recipient received, newest first. */
  lemma ReceivedHistory(rows: seq<Row>, user: string, limit: Option<int>)
    requires DistinctIds(rows) && forall r | r in rows :: CleanIds(r)
    ensures exists list ::
              && NewestFirst(list, OwnId) && (forall i, j | 0 <= i < j < |list| :: list[i] != list[j])
              && (forall r :: r in list <==> r in rows && r.recipientId == user)
              && Gives(FetchLog(rows, user, limit), Limit(limit), list)
  {
    var list := RecipientListing(rows, user);
    RecipientListingIs(rows, user);
    DescendsInTime(RecipientLog, list);
    forall c ensures FetchLog(rows, user, limit)(c) == PageAfter(RecipientLog, list, c, Limit(limit)) {}
    PagingGives(FetchLog(rows, user, limit), RecipientLog, list, Limit(limit));
  }
}
