/** Chat history (services/history.service.js) over the file store's queries (storage/message.store.js). */
module History {
  import opened Wrappers
  import opened Text
  import opened Sorting
  import opened MessageStore
  import opened ChatId
  import opened Pagination

  const ROOM_PREFIX := "room:"

  // ----- Store queries -----

  predicate ByTime(a: Row, b: Row) {
    a.timestamp < b.timestamp
  }

  function ForRecipient(rows: seq<Row>, user: string): seq<Row> {
    Sort(ByTime, Filter((r: Row) => r.recipientId == user, rows))
  }

  predicate HasRid(rows: seq<Row>, rid: string) {
    exists r :: r in rows && Rid(r) == rid
  }

  /** One row for each room message id: the first in map order. */
  function FirstPerRid(rows: seq<Row>): seq<Row> {
    if rows == [] then []
    else
      var kept := FirstPerRid(rows[..|rows| - 1]);
      if HasRid(kept, Rid(rows[|rows| - 1])) then kept else kept + [rows[|rows| - 1]]
  }

  function ByRoom(rows: seq<Row>, roomId: string): seq<Row> {
    if roomId == "" then [] else Sort(ByTime, FirstPerRid(Filter((r: Row) => r.roomId == roomId, rows)))
  }

  // ----- Chat ids -----

  /** The known client typo is corrected. */
  function NormalizeRoomId(roomId: string): string {
    var t := Trim(roomId);
    if StartsWith(t, "oom_") then "room_" + t[4..] else t
  }

  function ToRoomId(chatId: string): Option<string> {
    var t := Trim(chatId);
    var parsed := if StartsWith(t, ROOM_PREFIX) then t[|ROOM_PREFIX|..] else "";
    var raw := if parsed != "" then parsed else if StartsWith(chatId, DIRECT_PREFIX) then "" else t;
    if raw == "" then None else Some(NormalizeRoomId(raw))
  }

  /** `roomMember` is the room manager's answer for the resolved room. */
  predicate OwnsChat(roomMember: bool, chatId: string, user: string) {
    chatId != "" && user != ""
    && if StartsWith(chatId, DIRECT_PREFIX) then
         var pair := ParseDirectChatId(chatId);
         pair.Some? && (Trim(user) in [pair.value.0, pair.value.1] || user in [pair.value.0, pair.value.1])
       else ToRoomId(chatId).Some? && roomMember
  }

  /** The first participant that is not the user, when the user takes part. */
  function OtherParticipant(chatId: string, user: string): Option<string> {
    var pair := ParseDirectChatId(chatId);
    if pair.None? || user !in [pair.value.0, pair.value.1] then None
    else
      var other := if pair.value.0 != user then pair.value.0 else pair.value.1;
      if other == user || other == "" then None else Some(other)
  }

  // ----- Listings -----

  predicate DirectRow(user: string, other: string, r: Row) {
    r.roomId == "" && ((r.senderId == other && r.recipientId == user) || (r.senderId == user && r.recipientId == other))
  }

  /** What the user received and what the other one received from the user, then only the rows of this chat. */
  function DirectListing(rows: seq<Row>, user: string, other: string): seq<Row> {
    var received := ForRecipient(rows, user);
    var sent := Filter((r: Row) => r.senderId == user && r.recipientId == other, ForRecipient(rows, other));
    Sort(Newest(PlainChat), Filter((r: Row) => DirectRow(user, other, r), received + sent))
  }

  function RoomListing(rows: seq<Row>, roomId: string, mode: Mode): seq<Row> {
    Sort(Newest(mode), Filter((r: Row) => r.roomId == roomId, ByRoom(rows, roomId)))
  }

  function ChatMode(chatId: string): Mode {
    if StartsWith(chatId, ROOM_PREFIX) then RoomChat else PlainChat
  }

  function Listing(rows: seq<Row>, user: string, chatId: string): seq<Row> {
    if StartsWith(chatId, DIRECT_PREFIX) then
      var other := OtherParticipant(chatId, user);
      if other.None? then [] else DirectListing(rows, user, other.value)
    else
      var roomId := ToRoomId(chatId);
      if roomId.None? then [] else RoomListing(rows, roomId.value, ChatMode(chatId))
  }

  function GetHistory(rows: seq<Row>, roomMember: bool, user: string, chatId: string, before: string,
                      limit: Option<int>): Page {
    if !OwnsChat(roomMember, chatId, user) then Page([], None, false)
    else PageAfter(ChatMode(chatId), Listing(rows, user, chatId), before, Limit(limit))
  }

  /** getHistoryPaginatedSync: everything one recipient received. */
  function RecipientListing(rows: seq<Row>, user: string): seq<Row> {
    Sort(Newest(RecipientLog), Filter((r: Row) => r.recipientId == user, rows))
  }

  function GetHistoryPaginated(rows: seq<Row>, user: string, before: string, limit: Option<int>): Page {
    PageAfter(RecipientLog, RecipientListing(rows, user), before, Limit(limit))
  }

  // ----- Sorted without ties -----

  /** Rows that differ in their sort key never tie. */
  lemma KeysNeverTie(mode: Mode, s: seq<Row>)
    requires Once(s) && forall x, y | x in s && y in s && SortKey(mode, x) == SortKey(mode, y) :: x == y
    ensures TieFree(Newest(mode), s)
  {
    var newer := Newest(mode);
    forall i, j | 0 <= i < j < |s| ensures newer(s[i], s[j]) || newer(s[j], s[i]) {
      OnceDiffer(s, i, j);
      LessTotal(SortKey(mode, s[i]), SortKey(mode, s[j]));
    }
  }

  /** Sorting such rows gives a strictly descending list of the same rows. */
  lemma ListingSorted(mode: Mode, s: seq<Row>)
    requires Once(s) && forall x, y | x in s && y in s && SortKey(mode, x) == SortKey(mode, y) :: x == y
    ensures Ascending(Newest(mode), Sort(Newest(mode), s))
    ensures forall r :: r in Sort(Newest(mode), s) <==> r in s
  {
    KeysNeverTie(mode, s);
    NewestIsStrictOrder(mode);
    SortAscending(Newest(mode), s);
    forall r ensures r in Sort(Newest(mode), s) <==> r in s {
      SameElements(Sort(Newest(mode), s), s, r);
    }
  }

  /** The rows of a store: no id twice. */
  ghost predicate DistinctIds(rows: seq<Row>) {
    Once(rows) && forall x, y | x in rows && y in rows && x.messageId == y.messageId :: x == y
  }

  lemma StoredIdsDistinct(db: Db)
    requires RowsWellFormed(db)
    ensures DistinctIds(RowsOf(db))
  {
    var rows := RowsOf(db);
    forall x, y | x in rows && y in rows && x.messageId == y.messageId ensures x == y {
      RowsOfElements(db, x);
      RowsOfElements(db, y);
    }
    forall i, j | 0 <= i < j < |rows| ensures rows[i] != rows[j] {
      assert db.order[i] in db.order && db.order[j] in db.order && db.order[i] != db.order[j];
    }
    DifferOnce(rows);
  }

  // ----- Direct chats -----

  lemma ForRecipientIs(rows: seq<Row>, user: string)
    requires Once(rows)
    ensures Once(ForRecipient(rows, user))
    ensures forall r :: r in ForRecipient(rows, user) <==> r in rows && r.recipientId == user
  {
    var picked := Filter((r: Row) => r.recipientId == user, rows);
    OnceFilter((r: Row) => r.recipientId == user, rows);
    forall r ensures r in ForRecipient(rows, user) <==> r in rows && r.recipientId == user {
      SameElements(ForRecipient(rows, user), picked, r);
    }
  }

  /** A direct listing is newest first and holds each stored row between the two users once, and no room row. */
  lemma DirectListingIs(rows: seq<Row>, user: string, other: string)
    requires DistinctIds(rows) && user != other && NoRoomIds(rows)
    ensures Ascending(Newest(PlainChat), DirectListing(rows, user, other))
    ensures forall r :: r in DirectListing(rows, user, other) <==> r in rows && DirectRow(user, other, r)
  {
    var received := ForRecipient(rows, user);
    var bySender := (r: Row) => r.senderId == user && r.recipientId == other;
    var sent := Filter(bySender, ForRecipient(rows, other));
    ForRecipientIs(rows, user);
    ForRecipientIs(rows, other);
    OnceFilter(bySender, ForRecipient(rows, other));
    OnceAppend(received, sent);
    var direct := (r: Row) => DirectRow(user, other, r);
    OnceFilter(direct, received + sent);
    forall r ensures r in Filter(direct, received + sent) <==> r in rows && DirectRow(user, other, r) {
      assert r in received + sent <==> r in received || r in sent;
    }
    ListingSorted(PlainChat, Filter(direct, received + sent));
  }

  /** Rows outside rooms carry no room message id. */
  ghost predicate NoRoomIds(rows: seq<Row>) {
    forall r | r in rows && r.roomId == "" :: r.roomMessageId == ""
  }

  lemma SameDirectListing(rows: seq<Row>, a: string, b: string)
    requires DistinctIds(rows) && a != b && NoRoomIds(rows)
    ensures DirectListing(rows, a, b) == DirectListing(rows, b, a)
  {
    DirectListingIs(rows, a, b);
    DirectListingIs(rows, b, a);
    NewestIsStrictOrder(PlainChat);
    AscendingUnique(Newest(PlainChat), DirectListing(rows, a, b), DirectListing(rows, b, a));
  }

  lemma DirectChatParts(a: string, b: string)
    requires a != "" && b != "" && a != b && ':' !in a && ':' !in b
    ensures StartsWith(ToDirectChatId(a, b), DIRECT_PREFIX)
    ensures OtherParticipant(ToDirectChatId(a, b), a) == Some(b) && OtherParticipant(ToDirectChatId(a, b), b) == Some(a)
    ensures OwnsChat(false, ToDirectChatId(a, b), a) && OwnsChat(false, ToDirectChatId(a, b), b)
  {
    ParseRecoversPair(a, b);
  }

  /** Both participants of a direct chat page through the identical sequence, whichever queries feed it. */
  lemma BothSeeTheSame(rows: seq<Row>, a: string, b: string, before: string, limit: Option<int>)
    requires DistinctIds(rows) && NoRoomIds(rows)
    requires a != "" && b != "" && a != b && ':' !in a && ':' !in b
    ensures var chatId := ToDirectChatId(a, b);
            && GetHistory(rows, false, a, chatId, before, limit) == GetHistory(rows, false, b, chatId, before, limit)
            && (forall r :: r in Listing(rows, a, chatId) <==> r in rows && DirectRow(a, b, r))
  {
    DirectChatParts(a, b);
    SameDirectListing(rows, a, b);
    DirectListingIs(rows, a, b);
  }

  // ----- Rooms -----

  /** `kept` has one row of each room message in `rows`. */
  ghost predicate Represents(kept: seq<Row>, rows: seq<Row>) {
    && Once(kept) && (forall r | r in kept :: r in rows) && (forall r | r in rows :: HasRid(kept, Rid(r)))
    && (forall x, y | x in kept && y in kept && Rid(x) == Rid(y) :: x == y)
  }

  lemma KnownRid(kept: seq<Row>, front: seq<Row>, last: Row)
    requires Represents(kept, front) && HasRid(kept, Rid(last))
    ensures Represents(kept, front + [last])
  {}

  lemma NewRid(kept: seq<Row>, front: seq<Row>, last: Row)
    requires Represents(kept, front) && !HasRid(kept, Rid(last))
    ensures Represents(kept + [last], front + [last])
  {
    var more := kept + [last];
    OnceAppend(kept, [last]);
    forall r | r in front + [last] ensures HasRid(more, Rid(r)) {
      if r in front {
        var m :| m in kept && Rid(m) == Rid(r);
        assert m in more;
      } else {
        assert last in more;
      }
    }
  }

  lemma {:induction false} FirstPerRidIs(rows: seq<Row>)
    ensures Represents(FirstPerRid(rows), rows)
  {
    if rows != [] {
      var front, last := rows[..|rows| - 1], rows[|rows| - 1];
      FirstPerRidIs(front);
      assert rows == front + [last];
      if HasRid(FirstPerRid(front), Rid(last)) {
        KnownRid(FirstPerRid(front), front, last);
      } else {
        NewRid(FirstPerRid(front), front, last);
      }
    }
  }

  /** A room listing is newest first, with exactly one row for each room message of the room. */
  lemma RoomListingIs(rows: seq<Row>, roomId: string, mode: Mode)
    requires roomId != "" && mode != RecipientLog
    ensures var list := RoomListing(rows, roomId, mode);
            && Ascending(Newest(mode), list)
            && (forall r | r in list :: r in rows && r.roomId == roomId)
            && (forall r | r in rows && r.roomId == roomId :: HasRid(list, Rid(r)))
            && (forall x, y | x in list && y in list && Rid(x) == Rid(y) :: x == y)
  {
    var inRoom := (r: Row) => r.roomId == roomId;
    var picked := Filter(inRoom, rows);
    FirstPerRidIs(picked);
    var firsts := FirstPerRid(picked);
    var sorted := Sort(ByTime, firsts);
    var list := RoomListing(rows, roomId, mode);
    forall r ensures r in sorted <==> r in firsts {
      SameElements(sorted, firsts, r);
    }
    OnceFilter(inRoom, sorted);
    ListingSorted(mode, Filter(inRoom, sorted));
    forall r | r in rows && r.roomId == roomId ensures HasRid(list, Rid(r)) {
      assert r in picked;
      var m :| m in firsts && Rid(m) == Rid(r);
      assert m in list;
    }
  }

  // ----- Following the cursors -----

  /** A row whose id is some room message id is a row of that room message. */
  ghost predicate IdsOwned(rows: seq<Row>) {
    forall x, y | x in rows && y in rows && y.roomMessageId != "" && x.messageId == y.roomMessageId ::
      x.roomMessageId == y.roomMessageId
  }

  /** Ids have no white space at their edges, and none is the room message id of another room message. */
  ghost predicate IdsApart(rows: seq<Row>) {
    (forall r | r in rows :: CleanIds(r)) && IdsOwned(rows)
  }

  /** With one row for each room message, such an id is the very row's own. */
  lemma OwnIds(list: seq<Row>)
    requires IdsOwned(list) && forall x, y | x in list && y in list && Rid(x) == Rid(y) :: x == y
    ensures forall x, y | x in list && y in list && y.roomMessageId != "" && x.messageId == y.roomMessageId :: x == y
  {
    forall x, y | x in list && y in list && y.roomMessageId != "" && x.messageId == y.roomMessageId ensures x == y {
      assert Rid(x) == Rid(y);
    }
  }

  /** The rows stored for one message: all carry its room message id, under ids not in use before. */
  ghost predicate FreshPart(rows: seq<Row>, part: seq<Row>, roomMessageId: string) {
    && (forall r | r in part :: r.roomMessageId == roomMessageId)
    && (forall r | r in rows ::
       roomMessageId == "" || (r.messageId != roomMessageId && r.roomMessageId != roomMessageId))
    && (forall x, y | x in part && y in rows && y.roomMessageId != "" :: x.messageId != y.roomMessageId)
  }

  /** Storing a room message, its canonical row under the room message id and a row for each member, keeps ids owned. */
  lemma RoomMessageKeepsOwned(rows: seq<Row>, part: seq<Row>, roomMessageId: string)
    requires IdsOwned(rows) && FreshPart(rows, part, roomMessageId)
    ensures IdsOwned(rows + part)
  {}

  lemma PlainCursorsWork(mode: Mode, list: seq<Row>)
    requires mode != RoomChat && Ascending(Newest(mode), list) && IdsApart(list)
    requires forall x, y | x in list && y in list && x.messageId == y.messageId :: x == y
    requires mode == PlainChat ==> forall x, y | x in list && y in list && Rid(x) == Rid(y) :: x == y
    ensures Sound(mode, list)
  {
    NewestIsStrictOrder(mode);
    if mode == PlainChat { OwnIds(list); }
    var newer := Newest(mode);
    forall i: nat, j: nat | i < |list| && j < |list| && Matches(mode, list[j], CursorOf(mode, list[i])) ensures i == j {
      assert list[i] in list && list[j] in list && list[i] == list[j];
      SamePlace(newer, list, i, j);
    }
    CleanIdsSound(mode, list);
  }

  lemma SamePlace(newer: (Row, Row) -> bool, list: seq<Row>, i: nat, j: nat)
    requires StrictOrder(newer) && Ascending(newer, list) && i < |list| && j < |list| && list[i] == list[j]
    ensures i == j
  {}

  lemma RoomCursorsWork(list: seq<Row>)
    requires Ascending(Newest(RoomChat), list) && IdsApart(list)
    requires forall x, y | x in list && y in list && x.messageId == y.messageId :: x == y
    requires forall x, y | x in list && y in list && Rid(x) == Rid(y) :: x == y
    ensures Sound(RoomChat, list)
  {
    NewestIsStrictOrder(RoomChat);
    OwnIds(list);
    var newer := Newest(RoomChat);
    forall i: nat, j: nat | i < |list| && j < |list| && Matches(RoomChat, list[j], CursorOf(RoomChat, list[i]))
      ensures i == j {
      assert list[i] in list && list[j] in list && list[i] == list[j];
      SamePlace(newer, list, i, j);
    }
    CleanIdsSound(RoomChat, list);
  }

  /** Following nextCursor through a direct chat gives exactly its listing. */
  lemma DirectWalk(rows: seq<Row>, user: string, other: string, limit: Option<int>)
    requires DistinctIds(rows) && NoRoomIds(rows) && user != other && forall r | r in rows :: CleanIds(r)
    ensures Sound(PlainChat, DirectListing(rows, user, other))
    ensures Walk(PlainChat, DirectListing(rows, user, other), "", Limit(limit)) == DirectListing(rows, user, other)
  {
    DirectListingIs(rows, user, other);
    PlainCursorsWork(PlainChat, DirectListing(rows, user, other));
    FullWalk(PlainChat, DirectListing(rows, user, other), Limit(limit));
  }

  /** Following nextCursor through a room gives exactly its listing. */
  lemma RoomWalk(rows: seq<Row>, roomId: string, limit: Option<int>)
    requires DistinctIds(rows) && IdsApart(rows) && roomId != ""
    ensures Sound(RoomChat, RoomListing(rows, roomId, RoomChat))
    ensures Walk(RoomChat, RoomListing(rows, roomId, RoomChat), "", Limit(limit)) == RoomListing(rows, roomId, RoomChat)
  {
    RoomListingIs(rows, roomId, RoomChat);
    RoomCursorsWork(RoomListing(rows, roomId, RoomChat));
    FullWalk(RoomChat, RoomListing(rows, roomId, RoomChat), Limit(limit));
  }

  /** One recipient's log: newest first, exactly what the recipient received, and its cursors work. */
  lemma RecipientListingIs(rows: seq<Row>, user: string)
    requires DistinctIds(rows) && forall r | r in rows :: CleanIds(r)
    ensures var list := RecipientListing(rows, user);
            && Sound(RecipientLog, list) && Ascending(Newest(RecipientLog), list)
            && (forall r :: r in list <==> r in rows && r.recipientId == user)
  {
    var list := RecipientListing(rows, user);
    var mine := (r: Row) => r.recipientId == user;
    OnceFilter(mine, rows);
    ListingSorted(RecipientLog, Filter(mine, rows));
    NewestIsStrictOrder(RecipientLog);
    var newer := Newest(RecipientLog);
    forall i: nat, j: nat | i < |list| && j < |list| && Matches(RecipientLog, list[j], CursorOf(RecipientLog, list[i]))
      ensures i == j
    {
      assert list[i] in list && list[j] in list && list[i] == list[j];
      SamePlace(newer, list, i, j);
    }
    CleanIdsSound(RecipientLog, list);
  }

  /** Following nextCursor through one recipient's log gives exactly what that recipient received, newest first. */
  lemma RecipientWalk(rows: seq<Row>, user: string, limit: Option<int>)
    requires DistinctIds(rows) && forall r | r in rows :: CleanIds(r)
    ensures var list := RecipientListing(rows, user);
            && Sound(RecipientLog, list) && (forall r :: r in list <==> r in rows && r.recipientId == user)
            && Walk(RecipientLog, list, "", Limit(limit)) == list
  {
    RecipientListingIs(rows, user);
    FullWalk(RecipientLog, RecipientListing(rows, user), Limit(limit));
  }

  /** The same for the rows of a stored database, where ids are distinct. */
  lemma StoredWalks(db: Db, a: string, b: string, roomId: string, limit: Option<int>)
    requires RowsWellFormed(db) && NoRoomIds(RowsOf(db)) && IdsApart(RowsOf(db)) && a != b && roomId != ""
    ensures var rows, n := RowsOf(db), Limit(limit);
            var direct, room := DirectListing(rows, a, b), RoomListing(rows, roomId, RoomChat);
            && DistinctIds(rows)
            && direct == DirectListing(rows, b, a)
            && Sound(PlainChat, direct) && Walk(PlainChat, direct, "", n) == direct
            && Sound(RoomChat, room) && Walk(RoomChat, room, "", n) == room
  {
    StoredIdsDistinct(db);
    SameDirectListing(RowsOf(db), a, b);
    DirectWalk(RowsOf(db), a, b, limit);
    RoomWalk(RowsOf(db), roomId, limit);
  }

  // ----- Rows stored between fetches -----

  /** New rows of a chat above the cursor row change no page fetched with that cursor. */
  lemma NewRowsAbove(rows: seq<Row>, later: seq<Row>, a: string, b: string, c: Row, limit: Option<int>)
    requires DistinctIds(rows) && DistinctIds(later) && NoRoomIds(rows) && NoRoomIds(later) && a != b
    requires forall r | r in rows || r in later :: CleanIds(r)
    requires c in rows && DirectRow(a, b, c) && forall r | r in rows :: r in later
    requires forall r | r in later && r !in rows && DirectRow(a, b, r) :: NewerThan(PlainChat, r, c)
    ensures PageAfter(PlainChat, DirectListing(rows, a, b), c.messageId, Limit(limit))
         == PageAfter(PlainChat, DirectListing(later, a, b), c.messageId, Limit(limit))
  {
    DirectListingIs(rows, a, b);
    DirectListingIs(later, a, b);
    DirectWalk(rows, a, b, limit);
    DirectWalk(later, a, b, limit);
    NewestIsStrictOrder(PlainChat);
    var newer := Newest(PlainChat);
    forall r | NewerThan(PlainChat, c, r) ensures r in DirectListing(rows, a, b) <==> r in DirectListing(later, a, b) {
      assert newer(c, r) && !newer(c, c);
      assert r !in rows && r in later && DirectRow(a, b, r) ==> newer(r, c);
    }
    PageDependsOnlyBelow(PlainChat, DirectListing(rows, a, b), DirectListing(later, a, b), c, Limit(limit));
  }

  /** New rows of a recipient above the cursor row change no page of the log fetched with that cursor. */
  lemma NewReceivedAbove(rows: seq<Row>, later: seq<Row>, user: string, c: Row, limit: Option<int>)
    requires DistinctIds(rows) && DistinctIds(later) && forall r | r in rows || r in later :: CleanIds(r)
    requires c in rows && c.recipientId == user && forall r | r in rows :: r in later
    requires forall r | r in later && r !in rows && r.recipientId == user :: NewerThan(RecipientLog, r, c)
    ensures GetHistoryPaginated(rows, user, c.messageId, limit) == GetHistoryPaginated(later, user, c.messageId, limit)
  {
    var a, b := RecipientListing(rows, user), RecipientListing(later, user);
    RecipientListingIs(rows, user);
    RecipientListingIs(later, user);
    NewestIsStrictOrder(RecipientLog);
    var newer := Newest(RecipientLog);
    forall r | NewerThan(RecipientLog, c, r) ensures r in a <==> r in b {
      assert newer(c, r) && !newer(c, c);
      assert r !in rows && r in later && r.recipientId == user ==> newer(r, c);
    }
    PageDependsOnlyBelow(RecipientLog, a, b, c, Limit(limit));
  }

  /** Rows added behind leave the kept rows in place; only a room message seen for the first time adds one. */
  lemma {:induction false} FirstsGrow(a: seq<Row>, b: seq<Row>)
    ensures FirstPerRid(a) <= FirstPerRid(a + b)
    ensures forall r | r in FirstPerRid(a + b) && r !in FirstPerRid(a) :: r in b && !HasRid(a, Rid(r))
  {
    if b == [] {
      assert a + b == a;
    } else {
      var front, last := b[..|b| - 1], b[|b| - 1];
      FirstsGrow(a, front);
      assert (a + b)[..|a + b| - 1] == a + front;
      FirstPerRidIs(a);
      forall r | r in FirstPerRid(a + b) && r !in FirstPerRid(a) ensures r in b && !HasRid(a, Rid(r)) {
        if r !in FirstPerRid(a + front) {
          assert r == last && !HasRid(FirstPerRid(a + front), Rid(r));
          NoneKept(FirstPerRid(a), FirstPerRid(a + front), a, Rid(r));
        }
      }
    }
  }

  lemma NoneKept(kept: seq<Row>, more: seq<Row>, a: seq<Row>, rid: string)
    requires kept <= more && !HasRid(more, rid) && forall r | r in a :: HasRid(kept, Rid(r))
    ensures !HasRid(a, rid)
  {
    forall r | r in a ensures Rid(r) != rid {
      var m :| m in kept && Rid(m) == Rid(r);
      assert m in more;
    }
  }

  /** What a room listing holds: the first row of each room message of the room. */
  lemma RoomListingHolds(rows: seq<Row>, roomId: string, mode: Mode, r: Row)
    requires roomId != "" && mode != RecipientLog
    ensures r in RoomListing(rows, roomId, mode) <==> r in FirstPerRid(Filter((x: Row) => x.roomId == roomId, rows))
  {
    var inRoom := (x: Row) => x.roomId == roomId;
    var firsts := FirstPerRid(Filter(inRoom, rows));
    FirstPerRidIs(Filter(inRoom, rows));
    SameElements(Sort(ByTime, firsts), firsts, r);
    SameElements(RoomListing(rows, roomId, mode), Filter(inRoom, Sort(ByTime, firsts)), r);
  }

  /** Rows stored later in a room: newer room messages, or further member rows of room messages already there. */
  ghost predicate AddsAbove(rows: seq<Row>, more: seq<Row>, roomId: string, c: Row) {
    forall r | r in more && r.roomId == roomId ::
      NewerThan(RoomChat, r, c) || exists x :: x in rows && x.roomId == roomId && Rid(x) == Rid(r)
  }

  lemma RoomSameBelow(rows: seq<Row>, more: seq<Row>, roomId: string, c: Row)
    requires roomId != "" && c in RoomListing(rows, roomId, RoomChat) && AddsAbove(rows, more, roomId, c)
    ensures SameBelow(RoomChat, RoomListing(rows, roomId, RoomChat), RoomListing(rows + more, roomId, RoomChat), c)
  {
    var a, b := RoomListing(rows, roomId, RoomChat), RoomListing(rows + more, roomId, RoomChat);
    RoomRowsKept(rows, more, roomId, c);
    NewestIsStrictOrder(RoomChat);
    var newer := Newest(RoomChat);
    forall r | NewerThan(RoomChat, c, r) ensures r in a <==> r in b {
      RoomRowsKept(rows, more, roomId, r);
      assert newer(c, r) && !newer(c, c);
      if NewerThan(RoomChat, r, c) {
        assert newer(r, c);
      }
    }
  }

  /** Such rows change no page of the room fetched with the cursor row's cursor. */
  lemma NewRoomRowsAbove(rows: seq<Row>, more: seq<Row>, roomId: string, c: Row, limit: Option<int>)
    requires DistinctIds(rows + more) && IdsApart(rows + more) && DistinctIds(rows) && IdsApart(rows) && roomId != ""
    requires c in RoomListing(rows, roomId, RoomChat) && AddsAbove(rows, more, roomId, c)
    ensures PageAfter(RoomChat, RoomListing(rows, roomId, RoomChat), CursorOf(RoomChat, c), Limit(limit))
         == PageAfter(RoomChat, RoomListing(rows + more, roomId, RoomChat), CursorOf(RoomChat, c), Limit(limit))
  {
    RoomListingIs(rows, roomId, RoomChat);
    RoomListingIs(rows + more, roomId, RoomChat);
    RoomWalk(rows, roomId, limit);
    RoomWalk(rows + more, roomId, limit);
    RoomSameBelow(rows, more, roomId, c);
    PageDependsOnlyBelow(RoomChat, RoomListing(rows, roomId, RoomChat), RoomListing(rows + more, roomId, RoomChat),
                         c, Limit(limit));
  }

  /** A listed row stays listed; a row listed in addition is a later one of a room message not seen before. */
  lemma RoomRowsKept(rows: seq<Row>, more: seq<Row>, roomId: string, r: Row)
    requires roomId != ""
    ensures r in RoomListing(rows, roomId, RoomChat) ==> r in RoomListing(rows + more, roomId, RoomChat)
    ensures r in RoomListing(rows + more, roomId, RoomChat) && r !in RoomListing(rows, roomId, RoomChat) ==>
              r in more && r.roomId == roomId && !exists x :: x in rows && x.roomId == roomId && Rid(x) == Rid(r)
  {
    var inRoom := (x: Row) => x.roomId == roomId;
    var old1, new1 := Filter(inRoom, rows), Filter(inRoom, more);
    FilterAppend(inRoom, rows, more);
    FirstsGrow(old1, new1);
    RoomListingHolds(rows, roomId, RoomChat, r);
    RoomListingHolds(rows + more, roomId, RoomChat, r);
    if x :| x in rows && x.roomId == roomId && Rid(x) == Rid(r) {
      assert x in old1 && HasRid(old1, Rid(r));
    }
  }
}
