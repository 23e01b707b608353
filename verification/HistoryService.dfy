/** The history queries as the service runs them: loops over the rows, then one sort and one cut. */
module HistoryService {
  import opened Wrappers
  import opened Text
  import opened Sorting
  import opened MessageStore
  import opened ChatId
  import opened Pagination
  import opened History

  method GetMessagesForRecipientSync(rows: seq<Row>, user: string) returns (messages: seq<Row>)
    ensures messages == ForRecipient(rows, user)
  {
    var mine := (r: Row) => r.recipientId == user;
    messages := [];
    for i := 0 to |rows|
      invariant messages == Filter(mine, rows[..i])
    {
      FilterStep(mine, rows, i);
      if rows[i].recipientId == user { messages := messages + [rows[i]]; }
    }
    assert rows[..|rows|] == rows;
    messages := Sort(ByTime, messages);
  }

  /** The map by room message id is kept as the list of its values: a row goes in unless its id is taken. */
  method GetMessagesByRoomIdSync(rows: seq<Row>, roomId: string) returns (messages: seq<Row>)
    ensures messages == ByRoom(rows, roomId)
  {
    if roomId == "" { return []; }
    var inRoom := (r: Row) => r.roomId == roomId;
    messages := [];
    for i := 0 to |rows|
      invariant messages == FirstPerRid(Filter(inRoom, rows[..i]))
    {
      FilterStep(inRoom, rows, i);
      if rows[i].roomId == roomId {
        FirstPerRidStep(Filter(inRoom, rows[..i]), rows[i]);
        if !HasRid(messages, Rid(rows[i])) {
          messages := messages + [rows[i]];
        }
      }
    }
    assert rows[..|rows|] == rows;
    messages := Sort(ByTime, messages);
  }

  lemma FirstPerRidStep(picked: seq<Row>, r: Row)
    ensures var kept := FirstPerRid(picked);
            FirstPerRid(picked + [r]) == if HasRid(kept, Rid(r)) then kept else kept + [r]
  {
    assert (picked + [r])[..|picked|] == picked;
  }

  method FindStart(mode: Mode, list: seq<Row>, before: string) returns (start: nat)
    ensures start == StartIndex(mode, list, before)
  {
    start := 0;
    if before == "" { return; }
    var id := Trim(before);
    FindsFirst(mode, list, id);
    var i := 0;
    while i < |list| && !Matches(mode, list[i], id)
      invariant 0 <= i <= |list|
      invariant forall k | 0 <= k < i :: !Matches(mode, list[k], id)
    {
      i := i + 1;
    }
    if i < |list| { start := i + 1; }
  }

  method CutPage(mode: Mode, list: seq<Row>, before: string, limit: nat) returns (page: Page)
    ensures page == PageAfter(mode, list, before, limit)
  {
    var start := FindStart(mode, list, before);
    var messages := Take(list[start..], limit);
    var hasMore := start + limit < |list|;
    var nextCursor := None;
    if hasMore && messages != [] {
      nextCursor := Some(CursorOf(mode, messages[|messages| - 1]));
    }
    page := Page(messages, nextCursor, hasMore);
  }

  /** `rows` are the stored rows in map order; `roomMember` is the room manager's answer. */
  method GetHistoryPage(rows: seq<Row>, roomMember: bool, user: string, chatId: string, before: string,
                        limit: Option<int>)
    returns (page: Page)
    ensures page == GetHistory(rows, roomMember, user, chatId, before, limit)
  {
    if !OwnsChat(roomMember, chatId, user) { return Page([], None, false); }
    var chatMessages: seq<Row> := [];
    if StartsWith(chatId, DIRECT_PREFIX) {
      var received := GetMessagesForRecipientSync(rows, user);
      var other := OtherParticipant(chatId, user);
      if other.Some? {
        var sent := GetMessagesForRecipientSync(rows, other.value);
        sent := Filter((r: Row) => r.senderId == user && r.recipientId == other.value, sent);
        chatMessages := Filter((r: Row) => DirectRow(user, other.value, r), received + sent);
      }
    } else {
      var roomId := ToRoomId(chatId);
      if roomId.Some? {
        var inRoom := GetMessagesByRoomIdSync(rows, roomId.value);
        chatMessages := Filter((r: Row) => r.roomId == roomId.value, inRoom);
      }
    }
    chatMessages := Sort(Newest(ChatMode(chatId)), chatMessages);
    assert StartsWith(chatId, DIRECT_PREFIX) ==> ChatMode(chatId) == PlainChat;
    page := CutPage(ChatMode(chatId), chatMessages, before, Limit(limit));
  }

  method GetHistoryPaginatedSync(rows: seq<Row>, user: string, before: string, limit: Option<int>) returns (page: Page)
    ensures page == GetHistoryPaginated(rows, user, before, limit)
  {
    var mine := (r: Row) => r.recipientId == user;
    var messages: seq<Row> := [];
    for i := 0 to |rows|
      invariant messages == Filter(mine, rows[..i])
    {
      FilterStep(mine, rows, i);
      if rows[i].recipientId == user { messages := messages + [rows[i]]; }
    }
    assert rows[..|rows|] == rows;
    page := CutPage(RecipientLog, Sort(Newest(RecipientLog), messages), before, Limit(limit));
  }
}
