/**
  Read cursors of direct chats (services/message.service.js, chat/readCursorStore.mongo.js) and the unread
  count they give.
 */
module ReadCursor {
  import opened Wrappers
  import opened Text
  import opened Sorting
  import opened MessageStore
  import opened ChatId
  import opened History
  import HistoryPaging

  datatype Cursor = Cursor(lastReadMessageId: Option<string>, lastReadAt: Option<int>)

  type Cursors = map<(string, string), Cursor>

  function KeyFor(user: string, chatId: string): (string, string) {
    (Trim(user), Trim(chatId))
  }

  function GetCursor(cs: Cursors, user: string, chatId: string): Option<Cursor> {
    if user == "" || chatId == "" || KeyFor(user, chatId) !in cs then None else Some(cs[KeyFor(user, chatId)])
  }

  function UpsertCursor(cs: Cursors, user: string, chatId: string, messageId: Option<string>, at: Option<int>,
                        now: int): Cursors {
    if user == "" || chatId == "" then cs
    else cs[KeyFor(user, chatId) := Cursor(messageId, if at.Some? then at else Some(now))]
  }

  /** The chat a read confirmation moves the cursor of; rooms move none. */
  function CursorChat(row: Row): string {
    if row.senderId == "" || row.recipientId == "" || row.roomId != "" || row.isRoom then ""
    else ToDirectChatId(row.senderId, row.recipientId)
  }

  /** Whether a confirmation that sees this cursor goes on to write. */
  predicate Moves(seen: Option<Cursor>, row: Row) {
    && !(seen.Some? && seen.value.lastReadAt.Some? && seen.value.lastReadAt.value >= row.timestamp)
    && !(seen.Some? && seen.value.lastReadMessageId == Some(row.messageId))
  }

  function PersistReadCursor(cs: Cursors, reader: string, row: Row, now: int): Cursors {
    var chatId := CursorChat(row);
    if chatId == "" || !Moves(GetCursor(cs, reader, chatId), row) then cs
    else UpsertCursor(cs, reader, chatId, Some(row.messageId), Some(row.timestamp), now)
  }

  // ----- Runs -----

  datatype Confirm = Confirm(reader: string, row: Row, now: int)

  function Execute(run: seq<Confirm>): Cursors {
    if run == [] then map[]
    else
      var c := run[|run| - 1];
      PersistReadCursor(Execute(run[..|run| - 1]), c.reader, c.row, c.now)
  }

  /** The confirmation is by this reader and about a direct message of this chat. */
  predicate Concerns(c: Confirm, key: (string, string)) {
    c.reader != "" && CursorChat(c.row) != "" && KeyFor(c.reader, CursorChat(c.row)) == key
  }

  /** The largest timestamp confirmed for the key. */
  function MaxConfirmed(run: seq<Confirm>, key: (string, string)): Option<int> {
    if run == [] then None
    else
      var before, c := MaxConfirmed(run[..|run| - 1], key), run[|run| - 1];
      if !Concerns(c, key) then before
      else if before.Some? && before.value >= c.row.timestamp then before
      else Some(c.row.timestamp)
  }

  /** MaxConfirmed is reached by some confirmation of the key. */
  lemma {:induction false} MaxIsConfirmed(run: seq<Confirm>, key: (string, string)) returns (i: nat)
    requires MaxConfirmed(run, key).Some?
    ensures i < |run| && Concerns(run[i], key) && Some(run[i].row.timestamp) == MaxConfirmed(run, key)
  {
    var front, c := run[..|run| - 1], run[|run| - 1];
    if Concerns(c, key) && MaxConfirmed(run, key) == Some(c.row.timestamp) {
      i := |run| - 1;
    } else {
      i := MaxIsConfirmed(front, key);
      assert run[i] == front[i];
    }
  }

  /** And no confirmation of the key exceeds it. */
  lemma {:induction false} MaxIsMax(run: seq<Confirm>, key: (string, string), i: nat)
    requires i < |run| && Concerns(run[i], key)
    ensures MaxConfirmed(run, key).Some? && run[i].row.timestamp <= MaxConfirmed(run, key).value
  {
    if i < |run| - 1 {
      MaxIsMax(run[..|run| - 1], key, i);
    }
  }

  /** A message keeps its timestamp: two confirmations of one id agree on it. */
  ghost predicate SameStamps(run: seq<Confirm>) {
    forall i, j | 0 <= i < |run| && 0 <= j < |run| && run[i].row.messageId == run[j].row.messageId ::
      run[i].row.timestamp == run[j].row.timestamp
  }

  /** The cursor names a confirmed message and carries that message's timestamp, the largest confirmed. */
  ghost predicate Reflects(cs: Cursors, run: seq<Confirm>, key: (string, string)) {
    var m := MaxConfirmed(run, key);
    if m.None? then key !in cs
    else key in cs && cs[key].lastReadAt == m
         && exists i ::
              && 0 <= i < |run|
              && cs[key].lastReadMessageId == Some(run[i].row.messageId) && run[i].row.timestamp == m.value
  }

  /** After any serial run of read confirmations every cursor stands at the largest timestamp confirmed for it. */
  lemma {:induction false} CursorIsMax(run: seq<Confirm>, key: (string, string))
    requires SameStamps(run)
    ensures Reflects(Execute(run), run, key)
  {
    if run != [] {
      var front, c := run[..|run| - 1], run[|run| - 1];
      CursorIsMax(front, key);
      assert forall i | 0 <= i < |front| :: front[i] == run[i];
      if MaxConfirmed(front, key).Some? {
        var i :| 0 <= i < |front| && Execute(front)[key].lastReadMessageId == Some(front[i].row.messageId)
          && front[i].row.timestamp == MaxConfirmed(front, key).value;
        assert run[i] == front[i];
      }
      assert run[|run| - 1].row.timestamp == c.row.timestamp;
    }
  }

  /** Between the look and the write another confirmation can run; the later write then moves the cursor back. */
  lemma InterleavedWritesMoveBack(cs: Cursors, reader: string, newer: Row, older: Row, now: int)
    requires reader != "" && CursorChat(newer) == CursorChat(older) != "" && older.timestamp < newer.timestamp
    requires GetCursor(cs, reader, CursorChat(newer)).None?
    ensures var chatId := CursorChat(newer);
            var seen := GetCursor(cs, reader, chatId);
            var first := UpsertCursor(cs, reader, chatId, Some(newer.messageId), Some(newer.timestamp), now);
            var second := UpsertCursor(first, reader, chatId, Some(older.messageId), Some(older.timestamp), now);
            && Moves(seen, newer) && Moves(seen, older)
            && GetCursor(second, reader, chatId).value.lastReadAt == Some(older.timestamp)
            && GetCursor(PersistReadCursor(first, reader, older, now), reader, chatId).value.lastReadAt
               == Some(newer.timestamp)
  {}

  // ----- Unread counts -----

  /** The timestamp of the message the cursor names, or the cursor's own when that message is gone. */
  function LastReadTs(db: Db, cursor: Option<Cursor>): int {
    var id :=
      if cursor.Some? && cursor.value.lastReadMessageId.Some? then Trim(cursor.value.lastReadMessageId.value) else "";
    var ts := if id != "" && id in db.rows then db.rows[id].timestamp else 0;
    if ts == 0 && cursor.Some? && cursor.value.lastReadAt.Some? then cursor.value.lastReadAt.value else ts
  }

  predicate Unread(other: string, since: int, r: Row) {
    r.senderId == other && r.timestamp > since
  }

  function UnreadCount(db: Db, chatId: string, user: string, cursor: Option<Cursor>, received: seq<Row>): nat {
    var other := OtherParticipant(chatId, user);
    if !StartsWith(chatId, DIRECT_PREFIX) || other.None? then 0
    else |Filter((r: Row) => Unread(other.value, LastReadTs(db, cursor), r), received)|
  }

  method GetUnreadCountWithCursor(db: Db, chatId: string, user: string, cursor: Option<Cursor>, received: seq<Row>)
    returns (unreadCount: nat)
    ensures unreadCount == UnreadCount(db, chatId, user, cursor, received)
  {
    if !StartsWith(chatId, DIRECT_PREFIX) { return 0; }
    var other := OtherParticipant(chatId, user);
    if other.None? { return 0; }
    var since := LastReadTs(db, cursor);
    var p := (r: Row) => Unread(other.value, since, r);
    unreadCount := 0;
    for i := 0 to |received|
      invariant unreadCount == |Filter(p, received[..i])|
    {
      FilterStep(p, received, i);
      if received[i].senderId == other.value && received[i].timestamp > since {
        unreadCount := unreadCount + 1;
      }
    }
    assert received[..|received|] == received;
  }

  predicate StoredRow(db: Db, r: Row) {
    r.messageId in db.rows && db.rows[r.messageId].timestamp == r.timestamp
  }

  /** The ids of the confirmed rows are the stored ones, without white space at their edges. */
  ghost predicate FromStore(db: Db, run: seq<Confirm>) {
    forall i | 0 <= i < |run| ::
      StoredRow(db, run[i].row) && run[i].row.messageId != "" && Trim(run[i].row.messageId) == run[i].row.messageId
  }

  lemma SameStampsFromStore(db: Db, run: seq<Confirm>)
    requires FromStore(db, run)
    ensures SameStamps(run)
  {
    forall i, j | 0 <= i < |run| && 0 <= j < |run| && run[i].row.messageId == run[j].row.messageId
      ensures run[i].row.timestamp == run[j].row.timestamp
    {
      assert StoredRow(db, run[i].row) && StoredRow(db, run[j].row);
    }
  }

  /** The count starts from the largest timestamp the reader confirmed in the chat, or from zero. */
  lemma CountsFromMax(db: Db, run: seq<Confirm>, reader: string, chatId: string)
    requires FromStore(db, run) && reader != "" && chatId != ""
    ensures var m := MaxConfirmed(run, KeyFor(reader, chatId));
            LastReadTs(db, GetCursor(Execute(run), reader, chatId)) == if m.Some? then m.value else 0
  {
    var key := KeyFor(reader, chatId);
    SameStampsFromStore(db, run);
    CursorIsMax(run, key);
    var m := MaxConfirmed(run, key);
    if m.Some? {
      var i :| 0 <= i < |run| && Execute(run)[key].lastReadMessageId == Some(run[i].row.messageId)
        && run[i].row.timestamp == m.value;
      assert StoredRow(db, run[i].row);
    }
  }

  lemma {:induction false} CountSplits(p: Row -> bool, q: Row -> bool, s: seq<Row>)
    ensures |Filter(p, s)| == |Filter((r: Row) => p(r) && q(r), s)| + |Filter((r: Row) => p(r) && !q(r), s)|
  {
    if s != [] {
      CountSplits(p, q, s[1..]);
    }
  }

  lemma {:induction false} NoneCounted(p: Row -> bool, s: seq<Row>)
    ensures |Filter(p, s)| == 0 <==> forall r | r in s :: !p(r)
  {
    SomeElement(Filter(p, s));
  }

  /**
    The unread count is the number of direct messages from the other user newer than anything confirmed,
    exactly when no room row from that user is newer.
   */
  lemma UnreadExactIff(db: Db, run: seq<Confirm>, a: string, b: string, received: seq<Row>)
    requires FromStore(db, run) && a != "" && b != "" && a != b && ':' !in a && ':' !in b
    ensures var chatId := ToDirectChatId(a, b);
            var m := MaxConfirmed(run, KeyFor(a, chatId));
            var since := if m.Some? then m.value else 0;
            var count := UnreadCount(db, chatId, a, GetCursor(Execute(run), a, chatId), received);
            var direct := |Filter((r: Row) => Unread(b, since, r) && r.roomId == "", received)|;
            count == direct <==> forall r | r in received && r.roomId != "" :: !Unread(b, since, r)
  {
    var chatId := ToDirectChatId(a, b);
    DirectChatParts(a, b);
    CountsFromMax(db, run, a, chatId);
    var m := MaxConfirmed(run, KeyFor(a, chatId));
    var since := if m.Some? then m.value else 0;
    var p := (r: Row) => Unread(b, since, r);
    var q := (r: Row) => r.roomId == "";
    CountSplits(p, q, received);
    FilterSame((r: Row) => p(r) && q(r), (r: Row) => Unread(b, since, r) && r.roomId == "", received);
    FilterSame(p, (r: Row) => Unread(b, LastReadTs(db, GetCursor(Execute(run), a, chatId)), r), received);
    NoneCounted((r: Row) => p(r) && !q(r), received);
  }

  // ----- Told by the confirmations -----

  predicate PlainUser(u: string) {
    u != "" && ':' !in u && Trim(u) == u
  }

  ghost predicate PlainUsers(run: seq<Confirm>) {
    forall i | 0 <= i < |run| && DirectMessage(run[i].row) ::
      PlainUser(run[i].row.senderId) && PlainUser(run[i].row.recipientId)
  }

  predicate DirectMessage(r: Row) {
    r.senderId != "" && r.recipientId != "" && r.roomId == "" && !r.isRoom
  }

  /** The confirmation is by the first user, about a direct message between the two. */
  predicate ReadsBetween(c: Confirm, a: string, b: string) {
    && c.reader != "" && Trim(c.reader) == a && DirectMessage(c.row)
    && ((c.row.senderId == a && c.row.recipientId == b) || (c.row.senderId == b && c.row.recipientId == a))
  }

  lemma ChatIdTrimmed(a: string, b: string)
    requires PlainUser(a) && PlainUser(b)
    ensures Trim(ToDirectChatId(a, b)) == ToDirectChatId(a, b)
  {
    var x, y := if Less(b, a) then b else a, if Less(b, a) then a else b;
    HistoryPaging.CleanSides(y);
    HistoryPaging.PrefixedTrim(DIRECT_PREFIX + x + ":", y);
  }

  lemma ConcernsIff(c: Confirm, a: string, b: string)
    requires PlainUser(a) && PlainUser(b) && a != b
    requires DirectMessage(c.row) ==> PlainUser(c.row.senderId) && PlainUser(c.row.recipientId)
    ensures Concerns(c, KeyFor(a, ToDirectChatId(a, b))) <==> ReadsBetween(c, a, b)
  {
    if c.reader != "" && DirectMessage(c.row) {
      var s, r := c.row.senderId, c.row.recipientId;
      ChatIdTrimmed(a, b);
      ChatIdTrimmed(s, r);
      ParseRecoversPair(a, b);
      ParseRecoversPair(s, r);
      DirectChatIdSymmetric(a, b);
    }
  }

  /** The cursor is at a message the user confirmed in the chat, and none confirmed there is newer. */
  ghost predicate AtNewest(cursor: Option<Cursor>, run: seq<Confirm>, a: string, b: string) {
    && (cursor.Some? <==> exists i :: 0 <= i < |run| && ReadsBetween(run[i], a, b))
    && (cursor.Some? ==>
          && cursor.value.lastReadAt.Some?
          && (forall i | 0 <= i < |run| && ReadsBetween(run[i], a, b) ::
                run[i].row.timestamp <= cursor.value.lastReadAt.value)
          && (exists i :: 0 <= i < |run| && ReadsBetween(run[i], a, b)
                          && run[i].row.timestamp == cursor.value.lastReadAt.value))
  }

  lemma CursorAtNewest(run: seq<Confirm>, a: string, b: string)
    requires SameStamps(run) && PlainUsers(run) && PlainUser(a) && PlainUser(b) && a != b
    ensures AtNewest(GetCursor(Execute(run), a, ToDirectChatId(a, b)), run, a, b)
  {
    var key := KeyFor(a, ToDirectChatId(a, b));
    CursorIsMax(run, key);
    forall i | 0 <= i < |run| ensures Concerns(run[i], key) <==> ReadsBetween(run[i], a, b) {
      ConcernsIff(run[i], a, b);
    }
    forall i | 0 <= i < |run| && Concerns(run[i], key)
      ensures MaxConfirmed(run, key).Some? && run[i].row.timestamp <= MaxConfirmed(run, key).value
    {
      MaxIsMax(run, key, i);
    }
    if MaxConfirmed(run, key).Some? {
      var i := MaxIsConfirmed(run, key);
    }
  }

  /** The row is from the other user and newer than all the user confirmed in the chat. */
  ghost predicate Unseen(run: seq<Confirm>, a: string, b: string, r: Row) {
    && r.senderId == b
    && (forall i | 0 <= i < |run| && ReadsBetween(run[i], a, b) :: run[i].row.timestamp < r.timestamp)
    && ((forall i | 0 <= i < |run| :: !ReadsBetween(run[i], a, b)) ==> r.timestamp > 0)
  }

  /** The unread count is the number of those rows. */
  lemma CountsUnseen(db: Db, run: seq<Confirm>, a: string, b: string, received: seq<Row>)
    requires FromStore(db, run) && PlainUsers(run) && PlainUser(a) && PlainUser(b) && a != b
    ensures var chatId := ToDirectChatId(a, b);
            UnreadCount(db, chatId, a, GetCursor(Execute(run), a, chatId), received)
            == |Filter((r: Row) => Unseen(run, a, b, r), received)|
  {
    var chatId := ToDirectChatId(a, b);
    var cursor := GetCursor(Execute(run), a, chatId);
    DirectChatParts(a, b);
    CountsFromMax(db, run, a, chatId);
    SameStampsFromStore(db, run);
    CursorIsMax(run, KeyFor(a, chatId));
    CursorAtNewest(run, a, b);
    forall r ensures Unread(b, LastReadTs(db, cursor), r) <==> Unseen(run, a, b, r) {}
    FilterSame((r: Row) => Unread(b, LastReadTs(db, cursor), r), (r: Row) => Unseen(run, a, b, r), received);
  }

  // ----- The store object -----

  class ReadCursorStore {
    var cursors: Cursors

    constructor ()
      ensures cursors == Execute([])
    {
      cursors := map[];
    }

    method Upsert(user: string, chatId: string, messageId: Option<string>, at: Option<int>, now: int) returns (ok: bool)
      modifies this
      ensures cursors == UpsertCursor(old(cursors), user, chatId, messageId, at, now)
      ensures ok == (user != "" && chatId != "")
    {
      if user == "" || chatId == "" { return false; }
      cursors := cursors[KeyFor(user, chatId) := Cursor(messageId, Some(if at.Some? then at.value else now))];
      ok := true;
    }

    /** The cursor never moves back when nothing runs between the look and the write. */
    method PersistReadCursorForDm(reader: string, row: Row, now: int)
      modifies this
      ensures cursors == PersistReadCursor(old(cursors), reader, row, now)
      ensures forall k | k in old(cursors) && old(cursors)[k].lastReadAt.Some? ::
                k in cursors && cursors[k].lastReadAt.Some?
                  && cursors[k].lastReadAt.value >= old(cursors)[k].lastReadAt.value
    {
      if row.senderId == "" || row.recipientId == "" || row.roomId != "" || row.isRoom { return; }
      var chatId := ToDirectChatId(row.senderId, row.recipientId);
      if chatId == "" { return; }
      var cursor := GetCursor(cursors, reader, chatId);
      if cursor.Some? && cursor.value.lastReadAt.Some? && cursor.value.lastReadAt.value >= row.timestamp { return; }
      if cursor.Some? && cursor.value.lastReadMessageId == Some(row.messageId) { return; }
      var _ := Upsert(reader, chatId, Some(row.messageId), Some(row.timestamp), now);
    }
  }
}
