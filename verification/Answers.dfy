/**
  What each call answers and leaves behind: sends, confirmations, live delivery and replays, told by the rows
  stored, the marks set and the records moved.
 */
module Answers {
  import opened Wrappers
  import opened Text
  import opened MessageStore
  import opened Services
  import opened ServiceRuns
  import Delivery
  import ChatId
  import ReplayDrain
  import Sorting

  // ----- Confirmations -----

  /** Nothing but one row's state and marks differs. */
  ghost predicate OnlyRow(a: Db, b: Db, id: string) {
    && b.order == a.order && b.index == a.index && b.rows.Keys == a.rows.Keys
    && forall i | i != id ::
         (i in a.rows ==> b.rows[i] == a.rows[i]) && DeliveredTo(b, i) == DeliveredTo(a, i)
  }

  /** The row moved to the state for its recipient; nothing else of it changed. */
  ghost predicate MovedTo(a: Db, b: Db, id: string, user: string, s: MessageState, now: int) {
    && OnlyRow(a, b, id) && id in a.rows && id in b.rows
    && b.rows[id] == a.rows[id].(state := s, updatedAt := now)
    && DeliveredTo(b, id) == DeliveredTo(a, id) + {user}
  }

  predicate IsRecipient(db: Db, id: string, user: string) {
    user != "" && id in db.rows && db.rows[id].recipientId == user
  }

  ghost predicate OnlyRecord(a: Delivery.Deliveries, b: Delivery.Deliveries, k: Delivery.Key) {
    forall j | j != k :: (j in a.records <==> j in b.records) && (j in a.records ==> b.records[j] == a.records[j])
  }

  /**
    A delivery confirmation is accepted exactly from the stored recipient. It then reports the state the row has
    afterwards; the first one moves the row from sent to delivered, marks the recipient and moves the record.
   */
  lemma ConfirmDeliveredAnswers(w: World, id: string, user: string, now: int)
    requires Inv(w)
    ensures var (v, r) := ConfirmDelivered(w, id, user, now);
            && (r.Ok? <==> IsRecipient(w.db, id, user))
            && (r.Ok? ==>
                  && (r.value.alreadyInState <==> IsDeliveredOrRead(w.db.rows[id].state))
                  && id in v.db.rows && v.db.rows[id].state == r.value.state && IsDeliveredOrRead(r.value.state)
                  && IsMessageDelivered(v.db, id, user)
                  && (DeliveryKey(id, user) in w.mem.deliveries.records ==>
                        !Delivery.IsPendingReplay(v.mem.deliveries, DeliveryKey(id, user))))
            && (r.Ok? && !r.value.alreadyInState ==>
                  && r.value.state == Delivered && MovedTo(w.db, v.db, id, user, Delivered, now)
                  && OnlyRecord(w.mem.deliveries, v.mem.deliveries, DeliveryKey(id, user)))
            && (r.Err? || r.value.alreadyInState ==> v == w)
  {
    assert Coupled(w.db, id) && RecordKeepsUp(w, id);
  }

  lemma ConfirmDeliveredRefusals(w: World, id: string, user: string, now: int)
    ensures var r := ConfirmDelivered(w, id, user, now).1;
            r.Err? ==>
              && (r.error == INVALID_PAYLOAD <==> id == "" || user == "")
              && (r.error == MESSAGE_NOT_FOUND <==> id != "" && user != "" && id !in w.db.rows)
              && (r.error == NOT_AUTHORIZED <==>
                 id != "" && user != "" && id in w.db.rows && !IsRecipient(w.db, id, user))
              && (r.error == INVALID_TRANSITION <==> id != "" && IsRecipient(w.db, id, user))
  {}

  predicate Direct(r: Row) {
    r.roomId == "" && !r.isRoom
  }

  lemma ReadMoves(w: World, id: string, user: string, now: int)
    requires IsRecipient(w.db, id, user) && id != ""
    ensures var v := FinishRead(SetState(w, id, Read, now), id, user, now);
            var k := DeliveryKey(id, user);
            && MovedTo(w.db, v.db, id, user, Read, now)
            && k in v.mem.deliveries.records && v.mem.deliveries.records[k].state == Delivery.READ
            && OnlyRecord(w.mem.deliveries, v.mem.deliveries, k)
  {}

  /**
    A read confirmation is accepted exactly from the recipient of a direct message that is delivered or read.
    Afterwards the row is read and marked, and its record, made if it was missing, is at READ.
   */
  lemma ConfirmReadAnswers(w: World, id: string, user: string, now: int)
    requires Inv(w)
    ensures var (v, r) := ConfirmRead(w, id, user, now);
            var k := DeliveryKey(id, user);
            && (r.Ok? <==>
               IsRecipient(w.db, id, user) && Direct(w.db.rows[id]) && IsDeliveredOrRead(w.db.rows[id].state))
            && (r.Ok? ==>
                  && (r.value.alreadyInState <==> w.db.rows[id].state == Read)
                  && r.value.state == Read && id in v.db.rows && v.db.rows[id].state == Read
                  && IsMessageDelivered(v.db, id, user)
                  && (k in v.mem.deliveries.records ==> v.mem.deliveries.records[k].state == Delivery.READ))
            && (r.Ok? && !r.value.alreadyInState ==>
                  && MovedTo(w.db, v.db, id, user, Read, now) && k in v.mem.deliveries.records
                  && OnlyRecord(w.mem.deliveries, v.mem.deliveries, k))
            && (r.Err? || r.value.alreadyInState ==> v == w)
  {
    assert Coupled(w.db, id) && RecordKeepsUp(w, id);
    if ReadEarly(w, id, user).None? { ReadMoves(w, id, user, now); }
  }

  lemma ConfirmReadRefusals(w: World, id: string, user: string, now: int)
    ensures var r := ConfirmRead(w, id, user, now).1;
            r.Err? ==>
              && (r.error == INVALID_PAYLOAD <==> id == "" || user == "")
              && (r.error == MESSAGE_NOT_FOUND <==> id != "" && user != "" && id !in w.db.rows)
              && (r.error == ROOM_READ_NOT_SUPPORTED <==>
                    id != "" && user != "" && id in w.db.rows && !Direct(w.db.rows[id]))
              && (r.error == NOT_AUTHORIZED <==>
                    id != "" && user != "" && id in w.db.rows && Direct(w.db.rows[id]) && !IsRecipient(w.db, id, user))
              && (r.error == INVALID_TRANSITION <==>
                    id != "" && IsRecipient(w.db, id, user) && Direct(w.db.rows[id]))
  {}

  /** The accepted message in memory moves along when it is exactly one state behind. */
  lemma ConfirmedInMemory(w: World, id: string, user: string, now: int)
    ensures var (v, r) := ConfirmDelivered(w, id, user, now);
            r.Ok? && !r.value.alreadyInState && id in w.mem.intake && w.mem.intake[id].state == Sent ==>
              id in v.mem.intake && v.mem.intake[id] == w.mem.intake[id].(state := Delivered)
    ensures var (v, r) := ConfirmRead(w, id, user, now);
            r.Ok? && !r.value.alreadyInState && id in w.mem.intake && w.mem.intake[id].state == Delivered ==>
              id in v.mem.intake && v.mem.intake[id] == w.mem.intake[id].(state := Read)
  {}

  // ----- Sends -----

  /** The row holds the message as it was sent. */
  predicate HoldsSent(r: Row, id: string, sender: string, receiver: string, clientId: string, content: string,
                      at: int) {
    && r.messageId == id && r.senderId == sender && r.recipientId == receiver && r.clientMessageId == clientId
    && r.content == content && r.timestamp == at && r.state == Sent && Direct(r) && r.roomMessageId == ""
    && r.chatId == ChatId.ToDirectChatId(sender, receiver)
  }

  predicate GoodRequest(sender: string, receiver: string, content: string) {
    !Blank(sender) && !Blank(receiver) && sender != receiver && !Blank(content) && |content| <= 10000
  }

  predicate InMemory(w: World, sender: string, clientId: string) {
    !Blank(clientId) && IntakeKey(sender, clientId) in w.mem.clientIds
  }

  lemma SendRefusals(w: World, sender: string, receiver: string, clientId: string, content: string,
                     freshId: string, now: int)
    requires !GoodRequest(sender, receiver, content)
    ensures var (v, r) := Send(w, sender, receiver, clientId, content, freshId, now);
            && v == w && r.Err?
            && (r.error == CONTENT_TOO_LONG <==>
                  !Blank(sender) && !Blank(receiver) && sender != receiver && !Blank(content))
            && (r.error != CONTENT_TOO_LONG ==> r.error == INVALID_PAYLOAD)
  {}

  /** Exactly one row is new, and it has no mark. */
  ghost predicate OnlyNewRow(a: Db, b: Db, row: Row) {
    && row.messageId !in a.rows && b.rows == a.rows[row.messageId := row]
    && b.order == a.order + [row.messageId] && b.tracking == a.tracking[row.messageId := {}]
  }

  /**
    A send that memory does not know is acknowledged exactly when its client id has no stored row. The
    acknowledgement names the new row, which holds the message as sent, and the delivery record starts.
   */
  lemma SendStores(w: World, sender: string, receiver: string, clientId: string, content: string,
                   freshId: string, now: int)
    requires Inv(w) && Fresh(w, freshId) && GoodRequest(sender, receiver, content) && !InMemory(w, sender, clientId)
    ensures var (v, r) := Send(w, sender, receiver, clientId, content, freshId, now);
            var k := DeliveryKey(freshId, receiver);
            && (r.Ok? <==> Blank(clientId) || IntakeKey(sender, clientId) !in w.db.index)
            && (r.Err? ==> r.error == PERSISTENCE_ERROR && v.db == w.db)
            && (r.Ok? ==>
                  && r.value == Ack(freshId, clientId, now, false)
                  && freshId in v.db.rows
                  && HoldsSent(v.db.rows[freshId], freshId, sender, receiver, clientId, content, now)
                  && OnlyNewRow(w.db, v.db, v.db.rows[freshId])
                  && k in v.mem.deliveries.records
                  && v.mem.deliveries.records[k] == Delivery.Record(Delivery.PERSISTED, now, None, None, None)
                  && OnlyRecord(w.mem.deliveries, v.mem.deliveries, k))
  {
    var m := Message(freshId, sender, receiver, content, now, Sending, clientId);
    var (w1, r1) := Accept(w, sender, receiver, clientId, content, freshId, now);
    NotBlankNotEmpty(sender);
    NotBlankNotEmpty(receiver);
    NotBlankNotEmpty(content);
    NotBlankNotEmpty(freshId);
    assert r1 == Ok(Intake(false, m)) && w1.db == w.db;
    PersistStores(w1, m, now);
  }

  lemma NotBlankNotEmpty(s: string)
    requires !Blank(s)
    ensures s != ""
  {}

  lemma PersistStores(w: World, m: Message, now: int)
    requires WellFormed(w.db) && ValidShape(m) && m.content != "" && m.messageId !in w.db.rows && m.messageId != ""
    requires m.senderId != "" && m.recipientId != "" && !AlreadySent(w, m.messageId)
    requires DeliveryKey(m.messageId, m.recipientId) !in w.mem.deliveries.records
    requires m.messageId in w.mem.intake && w.mem.intake[m.messageId] == m
    ensures var (v, r) := PersistAndReturnAck(w, m, now);
            var k := DeliveryKey(m.messageId, m.recipientId);
            && (r.Ok? <==> Blank(m.clientMessageId) || IntakeKey(m.senderId, m.clientMessageId) !in w.db.index)
            && (r.Err? ==> r.error == PERSISTENCE_ERROR && v.db == w.db)
            && (r.Ok? ==>
                  && r.value == Ack(m.messageId, m.clientMessageId, m.timestamp, false)
                  && m.messageId in v.db.rows
                  && HoldsSent(v.db.rows[m.messageId], m.messageId, m.senderId, m.recipientId, m.clientMessageId,
                               m.content, m.timestamp)
                  && OnlyNewRow(w.db, v.db, v.db.rows[m.messageId])
                  && k in v.mem.deliveries.records
                  && v.mem.deliveries.records[k] == Delivery.Record(Delivery.PERSISTED, now, None, None, None)
                  && OnlyRecord(w.mem.deliveries, v.mem.deliveries, k))
  {
    assert ClientKey(RowFor(m)) == IntakeKey(m.senderId, m.clientMessageId);
    if Blank(m.clientMessageId) || IntakeKey(m.senderId, m.clientMessageId) !in w.db.index {
      RowStored(w, m, now);
    } else {
      assert w.db.index[ClientKey(RowFor(m))] in w.db.rows;
    }
  }

  lemma RowStored(w: World, m: Message, now: int)
    requires RowsWellFormed(w.db) && m.content != "" && m.messageId !in w.db.rows && m.messageId != ""
    requires m.senderId != "" && m.recipientId != ""
    requires Blank(m.clientMessageId) || IntakeKey(m.senderId, m.clientMessageId) !in w.db.index
    ensures var p := PersistWrite(w, m, now);
            && p.Ok?
            && var (v, r) := PersistAck(p.value, m, now);
               && r == Ok(Ack(m.messageId, m.clientMessageId, m.timestamp, false))
               && m.messageId in v.db.rows
               && HoldsSent(v.db.rows[m.messageId], m.messageId, m.senderId, m.recipientId, m.clientMessageId,
                            m.content, m.timestamp)
               && OnlyNewRow(w.db, v.db, v.db.rows[m.messageId])
               && v.mem.deliveries == Delivery.Create(w.mem.deliveries, DeliveryKey(m.messageId, m.recipientId), now)
  {
    var row := RowFor(m).(createdAt := now, updatedAt := now);
    var p := PersistMessage(w.db, RowFor(m), now);
    assert p.Ok? && p.value.0.rows == w.db.rows[m.messageId := row];
    var u := UpdateMessageState(p.value.0, m.messageId, Sent, now);
    assert u.Ok? && u.value.rows == w.db.rows[m.messageId := row];
  }

  /** A room row is stored as given, as a sent room row; its record starts when one is asked for. */
  lemma RoomRowStored(w: World, data: Row, withRecord: bool, now: int)
    requires WellFormed(w.db) && Fresh(w, data.messageId)
    requires data.senderId != "" && data.recipientId != "" && data.content != "" && Blank(data.clientMessageId)
    ensures var v := PersistRoomRow(w, data, withRecord, now);
            var row := data.(isRoom := true, state := Sent, createdAt := now, updatedAt := now);
            var k := DeliveryKey(data.messageId, data.recipientId);
            && OnlyNewRow(w.db, v.db, row) && v.mem.intake == w.mem.intake
            && OnlyRecord(w.mem.deliveries, v.mem.deliveries, k)
            && (k in v.mem.deliveries.records <==> withRecord)
            && (withRecord ==>
                  v.mem.deliveries.records[k] == Delivery.Record(Delivery.PERSISTED, now, None, None, None))
  {
    NotBlankNotEmpty(data.messageId);
    PersistAnswers(w.db, data.(isRoom := true, state := Sent), now);
  }

  // ----- Live delivery -----

  /** The record moved to SENT with its stamp and its timer. */
  ghost predicate MovedToSent(d: Delivery.Deliveries, e: Delivery.Deliveries, k: Delivery.Key, now: int)
    requires k in d.records
  {
    && k in e.records && e.records[k] == d.records[k].(state := Delivery.SENT, sentAt := Some(now))
    && e.timers == d.timers + {k} && e.failures == d.failures && e.deliveredTotal == d.deliveredTotal
  }

  /**
    What an attempt does for the stored recipient. A marked message is left alone; no socket means a logged
    failure; a taken message moves a PERSISTED record to SENT and arms its timer, and no other record.
   */
  lemma AttemptAnswers(w: World, id: string, queued: bool, now: int)
    requires id in w.db.rows && id != "" && w.db.rows[id].recipientId != ""
    ensures var user := w.db.rows[id].recipientId;
            var k := DeliveryKey(id, user);
            var v := AttemptDelivery(w, id, queued, now);
            var d, e := w.mem.deliveries, v.mem.deliveries;
            var persisted := k in d.records && d.records[k].state == Delivery.PERSISTED;
            && v.db == w.db && v.mem.intake == w.mem.intake && OnlyRecord(d, e, k)
            && v.mem.cache == (if id in w.mem.cache then w.mem.cache else w.mem.cache[id := w.db.rows[id].state])
            && (IsMessageDelivered(w.db, id, user) || (queued && !persisted) ==> e == d)
            && (!IsMessageDelivered(w.db, id, user) && queued && persisted ==> MovedToSent(d, e, k, now))
            && (!IsMessageDelivered(w.db, id, user) && !queued ==>
                  e.records == d.records && e.timers == d.timers
                  && Delivery.FailuresOf(e, k) == Delivery.FailuresOf(d, k) + [Delivery.OTHER])
  {}

  // ----- Replay -----

  /** The payload shows the row to the user. */
  predicate Shows(x: Payload, r: Row, user: string) {
    && x.messageId == r.messageId && x.senderId == r.senderId && x.content == r.content && x.timestamp == r.timestamp
    && x.isRoom == r.isRoom && x.roomId == r.roomId && x.roomMessageId == r.roomMessageId
    && x.recipientId == if r.isRoom then "" else user
  }

  /** The row is the user's, above the cursor, not marked for the user and neither delivered nor read. */
  predicate Awaits(db: Db, user: string, after: string, r: Row) {
    && r.recipientId == user && (after == "" || Less(after, r.messageId))
    && user !in DeliveredTo(db, r.messageId) && r.state in {Sending, Sent}
  }

  lemma AwaitsIff(db: Db, user: string, after: string, r: Row)
    ensures Awaiting(db, user, after, r) <==> Awaits(db, user, after, r)
  {}

  /** An answer lists stored rows of the user that awaited, shown as they are, in ascending order. */
  ghost predicate ShowsAwaiting(db: Db, user: string, after: string, out: seq<Payload>) {
    && (forall i, j | 0 <= i < j < |out| :: Less(out[i].messageId, out[j].messageId))
    && forall x | x in out ::
         && x.messageId in db.rows && Shows(x, db.rows[x.messageId], user)
         && Awaits(db, user, after, db.rows[x.messageId])
  }

  ghost predicate ShownAs(out: seq<Payload>, r: Row, user: string) {
    exists x :: x in out && Shows(x, r, user)
  }

  lemma {:induction false} EmitShows(w: World, user: string, after: string, page: seq<Row>)
    requires ReplayDrain.IdsAscend(page)
    requires forall r | r in page ::
               r.messageId in w.db.rows && w.db.rows[r.messageId] == r && Awaits(w.db, user, after, r)
    ensures ShowsAwaiting(w.db, user, after, ReplayDrain.Emit(w, user, page))
    ensures forall r | r in page && ReplayGuards(w, r.messageId, user) ::
              ShownAs(ReplayDrain.Emit(w, user, page), r, user)
    ensures FromPage(ReplayDrain.Emit(w, user, page), page)
  {
    if page != [] {
      var front, last := page[..|page| - 1], page[|page| - 1];
      assert page == front + [last] && last in page;
      EmitShows(w, user, after, front);
      EmitOneMore(w, user, after, front, last);
    }
  }

  ghost predicate FromPage(out: seq<Payload>, page: seq<Row>) {
    forall x | x in out :: exists r :: r in page && r.messageId == x.messageId
  }

  /** One more payload at the end, above all before it. */
  lemma ShowsOneMore(db: Db, user: string, after: string, before: seq<Payload>, x: Payload)
    requires ShowsAwaiting(db, user, after, before) && x.messageId in db.rows && Shows(x, db.rows[x.messageId], user)
    requires Awaits(db, user, after, db.rows[x.messageId])
    requires forall y | y in before :: Less(y.messageId, x.messageId)
    ensures ShowsAwaiting(db, user, after, before + [x])
  {
    var out := before + [x];
    forall i, j | 0 <= i < j < |out| ensures Less(out[i].messageId, out[j].messageId) {
      if j == |before| { assert before[i] in before; }
    }
  }

  lemma BelowLast(out: seq<Payload>, front: seq<Row>, last: Row)
    requires ReplayDrain.IdsAscend(front + [last]) && FromPage(out, front)
    ensures forall x | x in out :: Less(x.messageId, last.messageId)
  {
    var page := front + [last];
    forall x | x in out ensures Less(x.messageId, last.messageId) {
      var r :| r in front && r.messageId == x.messageId;
      var i :| 0 <= i < |front| && front[i] == r;
      assert ById(page[i], page[|front|]);
    }
  }

  lemma FromMore(before: seq<Payload>, more: seq<Payload>, front: seq<Row>, last: Row)
    requires FromPage(before, front) && forall x | x in more :: x.messageId == last.messageId
    ensures FromPage(before + more, front + [last])
  {
    forall x | x in before + more ensures exists r :: r in front + [last] && r.messageId == x.messageId {
      if x in before {
        var r :| r in front && r.messageId == x.messageId;
        assert r in front + [last];
      } else {
        assert last in front + [last];
      }
    }
  }

  lemma ShownMore(before: seq<Payload>, more: seq<Payload>, r: Row, user: string)
    requires ShownAs(before, r, user) || ShownAs(more, r, user)
    ensures ShownAs(before + more, r, user)
  {
    if ShownAs(before, r, user) {
      var x :| x in before && Shows(x, r, user);
      assert x in before + more;
    } else {
      var x :| x in more && Shows(x, r, user);
      assert x in before + more;
    }
  }

  lemma EmitOneMore(w: World, user: string, after: string, front: seq<Row>, last: Row)
    requires ReplayDrain.IdsAscend(front + [last])
    requires last.messageId in w.db.rows && w.db.rows[last.messageId] == last && Awaits(w.db, user, after, last)
    requires ShowsAwaiting(w.db, user, after, ReplayDrain.Emit(w, user, front))
    requires forall r | r in front && ReplayGuards(w, r.messageId, user) ::
               ShownAs(ReplayDrain.Emit(w, user, front), r, user)
    requires FromPage(ReplayDrain.Emit(w, user, front), front)
    ensures var out := ReplayDrain.Emit(w, user, front + [last]);
            && ShowsAwaiting(w.db, user, after, out) && FromPage(out, front + [last])
            && (forall r | r in front + [last] && ReplayGuards(w, r.messageId, user) :: ShownAs(out, r, user))
  {
    var page, before := front + [last], ReplayDrain.Emit(w, user, front);
    assert page[..|page| - 1] == front && page[|page| - 1] == last;
    var more := if ReplayGuards(w, last.messageId, user) then [PayloadFor(last)] else [];
    var out := before + more;
    assert out == ReplayDrain.Emit(w, user, page);
    BelowLast(before, front, last);
    FromMore(before, more, front, last);
    if more == [] {
      assert out == before;
    } else {
      ShowsOneMore(w.db, user, after, before, PayloadFor(last));
      assert PayloadFor(last) in more;
    }
    forall r | r in page && ReplayGuards(w, r.messageId, user) ensures ShownAs(out, r, user) {
      ShownMore(before, more, r, user);
    }
  }

  /** How many rows one call looks at. */
  const REPLAY_PAGE := 100

  lemma PageLength(all: seq<Row>, limit: int)
    requires limit >= 0
    ensures |Sorting.Take(all, EffectiveLimit(limit))|
            == var n := if limit == 0 then REPLAY_PAGE else limit; if n < |all| then n else |all|
  {}

  lemma PrefixAscends(all: seq<Row>, n: nat)
    requires ReplayDrain.IdsAscend(all) && n <= |all|
    ensures ReplayDrain.IdsAscend(all[..n])
  {}

  lemma PageRows(db: Db, user: string, after: string, limit: int)
    requires RowsWellFormed(db)
    ensures var all := AllAwaiting(db, user, after);
            var page := GetUndelivered(db, user, after, EffectiveLimit(limit));
            && page <= all && ReplayDrain.IdsAscend(page) && ReplayDrain.AllStored(db, page) && Align(db, page) == page
            && (forall r | r in page ::
                  r.messageId in db.rows && db.rows[r.messageId] == r && Awaits(db, user, after, r))
  {
    var all, page := AllAwaiting(db, user, after), GetUndelivered(db, user, after, EffectiveLimit(limit));
    AwaitingListing(db, user, after);
    assert page == all[..|page|];
    PrefixAscends(all, |page|);
    assert forall r | r in page :: r in all;
    forall r | r in page ensures r.messageId in db.rows && db.rows[r.messageId] == r && Awaits(db, user, after, r) {
      AwaitsIff(db, user, after, r);
    }
    ReplayDrain.AlignIsIdentity(db, page);
  }

  /**
    A replay refuses a missing user and an unknown cursor. Otherwise it answers with awaiting rows of the user
    above the cursor, each shown as stored, in ascending order, and leaves each of them delivered and marked.
   */
  lemma ReplayAnswers(w: World, user: string, after: string, limit: int, now: int)
    requires RowsWellFormed(w.db)
    ensures var (v, r) := Replay(w, user, after, limit, now);
            && (r.Err? <==> user == "" || (after != "" && after !in w.db.rows))
            && (r.Err? ==> v == w && r.error == if user == "" then AUTH_REQUIRED else INVALID_LAST_MESSAGE_ID)
            && (r.Ok? ==>
                  var out := r.value.messages;
                  && ShowsAwaiting(w.db, user, after, out)
                  && r.value.requestedAfter == after
                  && r.value.lastMessageId == (if out == [] then after else out[|out| - 1].messageId)
                  && (forall x | x in out :: Replayed(v, x.messageId, user)))
  {
    if user != "" && (after == "" || after in w.db.rows) {
      var page := GetUndelivered(w.db, user, after, EffectiveLimit(limit));
      PageRows(w.db, user, after, limit);
      EmitShows(w, user, after, page);
      ReplayDrain.ReplayLoopIs(w, user, page, now);
      EmittedReplayed(w, user, page, now);
    }
  }

  /** Stored as delivered, marked, and known as delivered to memory. */
  predicate Replayed(w: World, id: string, user: string) {
    && id in w.db.rows && w.db.rows[id].state == Delivered && IsMessageDelivered(w.db, id, user)
    && id in w.mem.cache && w.mem.cache[id] == Delivered
    && (DeliveryKey(id, user) in w.mem.deliveries.records && id != "" && user != "" ==>
          w.mem.deliveries.records[DeliveryKey(id, user)].state == Delivery.DELIVERED)
  }

  /** Memory knows the message as delivered or read, by its record or by its loaded state. */
  predicate KnownReceived(mem: Memory, id: string, user: string) {
    var k := DeliveryKey(id, user);
    || (k in mem.deliveries.records
        && (mem.deliveries.records[k].state == Delivery.DELIVERED || mem.deliveries.records[k].state == Delivery.READ))
    || (id in mem.cache && (mem.cache[id] == Delivered || mem.cache[id] == Read))
  }

  /** And it answers with exactly the rows of its page that memory does not know as received. */
  lemma ReplayAnswersAll(w: World, user: string, after: string, limit: int, now: int, i: nat)
    requires RowsWellFormed(w.db) && user != "" && limit >= 0 && (after == "" || after in w.db.rows)
    requires i < |AllAwaiting(w.db, user, after)| && i < if limit == 0 then REPLAY_PAGE else limit
    ensures var row := AllAwaiting(w.db, user, after)[i];
            var r := Replay(w, user, after, limit, now).1;
            r.Ok? && (ShownAs(r.value.messages, row, user) <==> !KnownReceived(w.mem, row.messageId, user))
  {
    var all, page := AllAwaiting(w.db, user, after), GetUndelivered(w.db, user, after, EffectiveLimit(limit));
    var row := all[i];
    PageRows(w.db, user, after, limit);
    PageLength(all, limit);
    assert page[i] == row && row in page;
    EmitShows(w, user, after, page);
    ReplayDrain.ReplayLoopIs(w, user, page, now);
    EmittedPasses(w, user, page);
  }

  lemma {:induction false} EmittedPasses(w: World, user: string, page: seq<Row>)
    ensures forall x | x in ReplayDrain.Emit(w, user, page) :: ReplayGuards(w, x.messageId, user)
  {
    if page != [] {
      EmittedPasses(w, user, page[..|page| - 1]);
    }
  }

  lemma {:induction false} EmittedReplayed(w: World, user: string, page: seq<Row>, now: int)
    requires ReplayDrain.AllStored(w.db, page)
    ensures var (v, out) := ReplayLoop(w, user, page, now);
            && v.db.rows.Keys == w.db.rows.Keys
            && forall x | x in out :: Replayed(v, x.messageId, user)
  {
    if page != [] {
      var front, last := page[..|page| - 1], page[|page| - 1];
      assert last in page;
      EmittedReplayed(w, user, front, now);
      var (w1, out) := ReplayLoop(w, user, front, now);
      OneReplayed(w1, user, last, now, out);
    }
  }

  lemma OneReplayed(w: World, user: string, msg: Row, now: int, out: seq<Payload>)
    requires msg.messageId in w.db.rows && forall x | x in out :: Replayed(w, x.messageId, user)
    ensures var (v, more) := ReplayOne(w, user, msg, now);
            && v.db.rows.Keys == w.db.rows.Keys && forall x | x in out + more :: Replayed(v, x.messageId, user)
  {}

  // ----- Sent, repeated, replayed: along every run -----

  /** What memory holds of an accepted message is what its row holds. */
  ghost predicate AgreesAt(w: World, id: string) {
    id in w.mem.intake && id in w.db.rows ==>
      var m, r := w.mem.intake[id], w.db.rows[id];
      && r.senderId == m.senderId && r.recipientId == m.recipientId && r.content == m.content
      && r.timestamp == m.timestamp && r.clientMessageId == m.clientMessageId && Direct(r)
  }

  ghost predicate Agrees(w: World) {
    forall id :: AgreesAt(w, id)
  }

  /** Accepted messages change in their state only; one that is new has no row, or one that agrees. */
  ghost predicate IntakeKept(w: World, v: World) {
    forall id | id in v.mem.intake ::
      || (id in w.mem.intake && v.mem.intake[id] == w.mem.intake[id].(state := v.mem.intake[id].state)
          && (id in v.db.rows && id !in w.db.rows ==> AgreesAt(v, id)))
      || AgreesAt(v, id)
  }

  lemma AgreesKept(w: World, v: World)
    requires Agrees(w) && Grows(w.db, v.db) && IntakeKept(w, v)
    ensures Agrees(v)
  {
    forall id ensures AgreesAt(v, id) {
      assert AgreesAt(w, id);
      if id in w.db.rows { assert RowGrows(w.db, v.db, id); }
    }
  }

  lemma AcceptKept(w: World, sender: string, receiver: string, clientId: string, content: string,
                   freshId: string, now: int)
    requires Fresh(w, freshId)
    ensures IntakeKept(w, Accept(w, sender, receiver, clientId, content, freshId, now).0)
  {}

  lemma PersistKept(w: World, m: Message, now: int)
    requires Inv(w) && Agrees(w) && m.messageId in w.mem.intake && m == w.mem.intake[m.messageId]
    ensures Agrees(PersistAndReturnAck(w, m, now).0)
  {
    var v := PersistAndReturnAck(w, m, now).0;
    PersistKeeps(w, m, now);
    assert IntakeMatches(w, m.messageId);
    PersistShape(w, m, now);
    AgreesKept(w, v);
  }

  lemma PersistShape(w: World, m: Message, now: int)
    requires m.messageId in w.mem.intake && m == w.mem.intake[m.messageId]
    ensures IntakeKept(w, PersistAndReturnAck(w, m, now).0)
  {
    var p := PersistMessage(w.db, RowFor(m), now);
    if p.Ok? && p.value.0 != w.db {
      var row := RowFor(m).(createdAt := now, updatedAt := now);
      assert p.value.0.rows == w.db.rows[m.messageId := row];
    }
  }

  lemma SendAgrees(w: World, sender: string, receiver: string, clientId: string, content: string,
                   freshId: string, now: int)
    requires Inv(w) && Agrees(w) && Fresh(w, freshId)
    ensures Agrees(Send(w, sender, receiver, clientId, content, freshId, now).0)
  {
    var (w1, r) := Accept(w, sender, receiver, clientId, content, freshId, now);
    AcceptKeeps(w, sender, receiver, clientId, content, freshId, now);
    AcceptKept(w, sender, receiver, clientId, content, freshId, now);
    assert Grows(w.db, w1.db);
    AgreesKept(w, w1);
    if r.Ok? { PersistKept(w1, r.value.message, now); }
  }

  lemma {:induction false} LoopIntake(w: World, user: string, msgs: seq<Row>, now: int)
    ensures ReplayLoop(w, user, msgs, now).0.mem.intake == w.mem.intake
    ensures ReplayLoop(w, user, msgs, now).0.db.rows.Keys == w.db.rows.Keys
  {
    if msgs != [] {
      LoopIntake(w, user, msgs[..|msgs| - 1], now);
    }
  }

  lemma RoomRowKept(w: World, data: Row, withRecord: bool, now: int)
    requires Fresh(w, data.messageId)
    ensures IntakeKept(w, PersistRoomRow(w, data, withRecord, now))
  {}

  lemma ConfirmsKept(w: World, id: string, user: string, now: int)
    ensures IntakeKept(w, ConfirmDelivered(w, id, user, now).0) && IntakeKept(w, ConfirmRead(w, id, user, now).0)
  {}

  lemma ReplayIntake(w: World, user: string, after: string, limit: int, now: int)
    requires RowsWellFormed(w.db)
    ensures var v := Replay(w, user, after, limit, now).0;
            v.mem.intake == w.mem.intake && v.db.rows.Keys == w.db.rows.Keys
  {
    if user != "" && (after == "" || after in w.db.rows) {
      LoopIntake(w, user, Align(w.db, GetUndelivered(w.db, user, after, EffectiveLimit(limit))), now);
    }
  }

  lemma SameIntake(w: World, v: World)
    requires Agrees(w) && Grows(w.db, v.db) && v.mem.intake == w.mem.intake && v.db.rows.Keys == w.db.rows.Keys
    ensures Agrees(v)
  {
    AgreesKept(w, v);
  }

  lemma ConfirmsAgree(w: World, id: string, user: string, now: int)
    requires Inv(w) && Agrees(w)
    ensures Agrees(ConfirmDelivered(w, id, user, now).0) && Agrees(ConfirmRead(w, id, user, now).0)
  {
    ConfirmsKept(w, id, user, now);
    ConfirmDeliveredKeeps(w, id, user, now);
    ConfirmReadKeeps(w, id, user, now);
    AgreesKept(w, ConfirmDelivered(w, id, user, now).0);
    AgreesKept(w, ConfirmRead(w, id, user, now).0);
  }

  lemma RoomRowAgrees(w: World, data: Row, withRecord: bool, now: int)
    requires Inv(w) && Agrees(w) && Fresh(w, data.messageId)
    ensures Agrees(PersistRoomRow(w, data, withRecord, now))
  {
    RoomRowKept(w, data, withRecord, now);
    PersistRoomRowKeeps(w, data, withRecord, now);
    AgreesKept(w, PersistRoomRow(w, data, withRecord, now));
  }

  lemma ReplayAgrees(w: World, user: string, after: string, limit: int, now: int)
    requires Inv(w) && Agrees(w)
    ensures Agrees(Replay(w, user, after, limit, now).0)
  {
    ReplayIntake(w, user, after, limit, now);
    ReplayKeeps(w, user, after, limit, now);
    SameIntake(w, Replay(w, user, after, limit, now).0);
  }

  predicate MemoryOp(op: Op) {
    op.OpAttempt? || op.OpLoad? || op.OpTimer? || op.OpDisconnect? || op.OpMarkReadOverHttp?
  }

  lemma MemoryAgrees(h: History, op: Op, now: int)
    requires RowsWellFormed(h.w.db) && Agrees(h.w) && MemoryOp(op)
    ensures Agrees(Step(h, op, now).w)
  {
    var w, v := h.w, Step(h, op, now).w;
    assert v.db == w.db && v.mem.intake == w.mem.intake;
    forall id ensures AgreesAt(v, id) {
      assert AgreesAt(w, id);
    }
  }

  lemma CrashAgrees(w: World)
    requires RowsWellFormed(w.db)
    ensures Agrees(Crash(w))
  {}

  lemma StepAgrees(h: History, op: Op, now: int)
    requires Inv(h.w) && Agrees(h.w)
    ensures Agrees(Step(h, op, now).w)
  {
    var w := h.w;
    match op {
      case OpSend(sender, receiver, clientId, content, freshId) =>
        if Fresh(w, freshId) { SendAgrees(w, sender, receiver, clientId, content, freshId, now); }
      case OpPersistRoom(data, withRecord) =>
        if Fresh(w, data.messageId) { RoomRowAgrees(w, data, withRecord, now); }
      case OpConfirmDelivered(id, user) => ConfirmsAgree(w, id, user, now);
      case OpConfirmRead(id, user) => ConfirmsAgree(w, id, user, now);
      case OpReplay(user, after, limit) => ReplayAgrees(w, user, after, limit, now);
      case OpCrash => CrashAgrees(w);
      case _ => MemoryAgrees(h, op, now);
    }
  }

  lemma {:induction false} EveryRunAgrees(ops: seq<(Op, int)>)
    ensures Agrees(Execute(ops).w)
  {
    if ops != [] {
      EveryRunAgrees(ops[..|ops| - 1]);
      StepAgrees(Execute(ops[..|ops| - 1]), ops[|ops| - 1].0, ops[|ops| - 1].1);
    }
  }

  /**
    A repeat that this process remembers is acknowledged with the id and the time of the stored message;
    nothing changes.
   */
  lemma RepeatAnswers(ops: seq<(Op, int)>, sender: string, receiver: string, clientId: string, content: string,
                      freshId: string, now: int)
    requires GoodRequest(sender, receiver, content) && InMemory(Execute(ops).w, sender, clientId)
    requires Execute(ops).w.mem.clientIds[IntakeKey(sender, clientId)] in Execute(ops).w.db.rows
    ensures var w := Execute(ops).w;
            var (v, r) := Send(w, sender, receiver, clientId, content, freshId, now);
            var id := w.mem.clientIds[IntakeKey(sender, clientId)];
            && v == w && r.Ok? && r.value.duplicate && r.value.messageId == id
            && r.value.timestamp == w.db.rows[id].timestamp && r.value.clientMessageId == w.db.rows[id].clientMessageId
            && ClientKey(w.db.rows[id]) == IntakeKey(sender, clientId)
  {
    var w := Execute(ops).w;
    var id := w.mem.clientIds[IntakeKey(sender, clientId)];
    EveryRunAgrees(ops);
    assert IntakeMatches(w, id) && AgreesAt(w, id);
  }

  // ----- Repeats in one process -----

  /** Memory holds the message as it was accepted, under its client id. */
  ghost predicate Remembers(w: World, id: string, sender: string, receiver: string, clientId: string, content: string,
                            at: int) {
    && id in w.mem.intake && w.mem.intake[id].state != Sending
    && w.mem.intake[id] == Message(id, sender, receiver, content, at, w.mem.intake[id].state, clientId)
    && (!Blank(clientId) ==>
          IntakeKey(sender, clientId) in w.mem.clientIds && w.mem.clientIds[IntakeKey(sender, clientId)] == id)
  }

  /** What a first send leaves in memory when it is acknowledged. */
  lemma SendRemembers(w: World, sender: string, receiver: string, clientId: string, content: string,
                      freshId: string, now: int)
    requires Fresh(w, freshId) && GoodRequest(sender, receiver, content) && !InMemory(w, sender, clientId)
    ensures var (v, r) := Send(w, sender, receiver, clientId, content, freshId, now);
            r.Ok? ==> Remembers(v, freshId, sender, receiver, clientId, content, now)
  {
    NotBlankNotEmpty(freshId);
  }

  /** A repeat of a remembered message is acknowledged with its id and time, and nothing changes. */
  lemma RememberedRepeat(w: World, id: string, sender: string, receiver: string, clientId: string, content: string,
                         at: int, receiver2: string, content2: string, freshId: string, now: int)
    requires Remembers(w, id, sender, receiver, clientId, content, at) && !Blank(clientId) && !Blank(id)
    requires GoodRequest(sender, receiver, content) && GoodRequest(sender, receiver2, content2)
    ensures Send(w, sender, receiver2, clientId, content2, freshId, now) == (w, Ok(Ack(id, clientId, at, true)))
  {}

  /** Memory keeps its client ids, and its accepted messages but for a state that only leaves Sending. */
  ghost predicate MemoryKept(w: World, v: World) {
    && (forall key | key in w.mem.clientIds && w.mem.clientIds[key] in w.mem.intake ::
          key in v.mem.clientIds && v.mem.clientIds[key] == w.mem.clientIds[key])
    && w.mem.intake.Keys <= v.mem.intake.Keys
    && (forall id | id in w.mem.intake && w.mem.intake[id].state != Sending ::
          id in v.mem.intake && v.mem.intake[id].state != Sending
          && v.mem.intake[id] == w.mem.intake[id].(state := v.mem.intake[id].state))
  }

  lemma SendKeepsMemory(w: World, sender: string, receiver: string, clientId: string, content: string,
                        freshId: string, now: int)
    requires Fresh(w, freshId)
    ensures MemoryKept(w, Send(w, sender, receiver, clientId, content, freshId, now).0)
  {
    var (w1, r) := Accept(w, sender, receiver, clientId, content, freshId, now);
    AcceptKeepsMemory(w, sender, receiver, clientId, content, freshId, now);
    if r.Ok? {
      PersistKeepsMemory(w1, r.value.message, now);
      MemoryKeptTransitive(w, w1, PersistAndReturnAck(w1, r.value.message, now).0);
    }
  }

  lemma AcceptKeepsMemory(w: World, sender: string, receiver: string, clientId: string, content: string,
                          freshId: string, now: int)
    requires Fresh(w, freshId)
    ensures MemoryKept(w, Accept(w, sender, receiver, clientId, content, freshId, now).0)
  {}

  lemma PersistKeepsMemory(w: World, m: Message, now: int)
    ensures MemoryKept(w, PersistAndReturnAck(w, m, now).0)
  {}

  lemma {:induction false} LoopKeepsMemory(w: World, user: string, msgs: seq<Row>, now: int)
    ensures var v := ReplayLoop(w, user, msgs, now).0;
            v.mem.intake == w.mem.intake && v.mem.clientIds == w.mem.clientIds
  {
    if msgs != [] {
      LoopKeepsMemory(w, user, msgs[..|msgs| - 1], now);
    }
  }

  lemma StepKeepsMemory(h: History, op: Op, now: int)
    requires RowsWellFormed(h.w.db) && !op.OpCrash?
    ensures MemoryKept(h.w, Step(h, op, now).w)
  {
    var w := h.w;
    match op {
      case OpSend(sender, receiver, clientId, content, freshId) =>
        if Fresh(w, freshId) { SendKeepsMemory(w, sender, receiver, clientId, content, freshId, now); }
      case OpReplay(user, after, limit) =>
        if user != "" && (after == "" || after in w.db.rows) {
          LoopKeepsMemory(w, user, Align(w.db, GetUndelivered(w.db, user, after, EffectiveLimit(limit))), now);
        }
      case OpConfirmDelivered(id, user) => DeliveredKeepsMemory(w, id, user, now);
      case OpConfirmRead(id, user) => ReadKeepsMemory(w, id, user, now);
      case OpPersistRoom(data, withRecord) =>
      case OpCrash =>
      case _ => OtherKeepsMemory(h, op, now);
    }
  }

  lemma AdvanceKeepsMemory(w: World, u: World, id: string, s: MessageState)
    requires u.mem.intake == w.mem.intake && u.mem.clientIds == w.mem.clientIds
    ensures MemoryKept(w, AdvanceIntake(u, id, s))
  {}

  lemma DeliveredKeepsMemory(w: World, id: string, user: string, now: int)
    ensures MemoryKept(w, ConfirmDelivered(w, id, user, now).0)
  {
    if DeliveredEarly(w, id, user).None? {
      var u := SetState(w, id, Delivered, now);
      var v := u.(db := MarkMessageDelivered(u.db, id, user));
      var d := Delivery.Transition(v.mem.deliveries, DeliveryKey(id, user), Delivery.DELIVERED, now).0;
      AdvanceKeepsMemory(w, SetDeliveries(v, d), id, Delivered);
    }
  }

  lemma ReadKeepsMemory(w: World, id: string, user: string, now: int)
    ensures MemoryKept(w, ConfirmRead(w, id, user, now).0)
  {}

  lemma OtherKeepsMemory(h: History, op: Op, now: int)
    requires RowsWellFormed(h.w.db) && MemoryOp(op)
    ensures MemoryKept(h.w, Step(h, op, now).w)
  {}

  lemma MemoryKeptTransitive(a: World, b: World, c: World)
    requires MemoryKept(a, b) && MemoryKept(b, c)
    ensures MemoryKept(a, c)
  {}

  ghost predicate NoCrash(ops: seq<(Op, int)>, n: nat) {
    forall i | n <= i < |ops| :: !ops[i].0.OpCrash?
  }

  lemma {:induction false} MemoryKeptBetweenCrashes(ops: seq<(Op, int)>, n: nat)
    requires n <= |ops| && NoCrash(ops, n)
    ensures MemoryKept(Execute(ops[..n]).w, Execute(ops).w)
  {
    if n == |ops| {
      assert ops[..n] == ops;
    } else {
      var front := ops[..|ops| - 1];
      MemoryKeptBetweenCrashes(front, n);
      assert front[..n] == ops[..n];
      StepKeepsMemory(Execute(front), ops[|ops| - 1].0, ops[|ops| - 1].1);
      MemoryKeptTransitive(Execute(ops[..n]).w, Execute(front).w, Execute(ops).w);
    }
  }

  lemma StillRemembers(w: World, v: World, id: string, sender: string, receiver: string, clientId: string,
                       content: string, at: int)
    requires Remembers(w, id, sender, receiver, clientId, content, at) && MemoryKept(w, v)
    ensures Remembers(v, id, sender, receiver, clientId, content, at)
  {}

  /**
    Until the process crashes, a keyed message that was acknowledged is acknowledged again to whoever repeats it:
    same id, same time, nothing stored.
   */
  lemma RepeatsAcknowledged(ops: seq<(Op, int)>, n: nat, id: string, sender: string, receiver: string, clientId: string,
                            content: string, at: int, receiver2: string, content2: string, freshId: string, now: int)
    requires n <= |ops| && NoCrash(ops, n) && !Blank(clientId) && !Blank(id)
    requires Remembers(Execute(ops[..n]).w, id, sender, receiver, clientId, content, at)
    requires GoodRequest(sender, receiver, content) && GoodRequest(sender, receiver2, content2)
    ensures var w := Execute(ops).w;
            Send(w, sender, receiver2, clientId, content2, freshId, now) == (w, Ok(Ack(id, clientId, at, true)))
  {
    MemoryKeptBetweenCrashes(ops, n);
    StillRemembers(Execute(ops[..n]).w, Execute(ops).w, id, sender, receiver, clientId, content, at);
    RememberedRepeat(Execute(ops).w, id, sender, receiver, clientId, content, at, receiver2, content2, freshId, now);
  }

  /** The stored message is the one that was sent, in whatever state by now. */
  predicate StillSent(db: Db, id: string, sender: string, receiver: string, clientId: string, content: string,
                      at: int) {
    id in db.rows && HoldsSent(db.rows[id].(state := Sent), id, sender, receiver, clientId, content, at)
  }

  /** A row shows what was sent for ever after. */
  lemma SentStaysSent(ops: seq<(Op, int)>, n: nat, sender: string, receiver: string, clientId: string, content: string,
                      freshId: string, now: int)
    requires n < |ops| && ops[n] == (OpSend(sender, receiver, clientId, content, freshId), now)
    requires Fresh(Execute(ops[..n]).w, freshId) && GoodRequest(sender, receiver, content)
    requires !InMemory(Execute(ops[..n]).w, sender, clientId)
    requires Blank(clientId) || IntakeKey(sender, clientId) !in Execute(ops[..n]).w.db.index
    ensures StillSent(Execute(ops).w.db, freshId, sender, receiver, clientId, content, now)
  {
    SentAt(ops, n, sender, receiver, clientId, content, freshId, now);
    StaysSent(ops, n + 1, freshId, sender, receiver, clientId, content, now);
  }

  lemma StaysSent(ops: seq<(Op, int)>, k: nat, id: string, sender: string, receiver: string, clientId: string,
                  content: string, at: int)
    requires k <= |ops| && StillSent(Execute(ops[..k]).w.db, id, sender, receiver, clientId, content, at)
    ensures StillSent(Execute(ops).w.db, id, sender, receiver, clientId, content, at)
  {
    EveryRunGrows(ops, k);
    StillHolds(Execute(ops[..k]).w.db, Execute(ops).w.db, id, sender, receiver, clientId, content, at);
  }

  lemma StillHolds(a: Db, b: Db, id: string, sender: string, receiver: string, clientId: string,
                   content: string, at: int)
    requires Grows(a, b) && StillSent(a, id, sender, receiver, clientId, content, at)
    ensures StillSent(b, id, sender, receiver, clientId, content, at)
  {
    assert RowGrows(a, b, id);
  }

  lemma SentAt(ops: seq<(Op, int)>, n: nat, sender: string, receiver: string, clientId: string, content: string,
               freshId: string, now: int)
    requires n < |ops| && ops[n] == (OpSend(sender, receiver, clientId, content, freshId), now)
    requires Fresh(Execute(ops[..n]).w, freshId) && GoodRequest(sender, receiver, content)
    requires !InMemory(Execute(ops[..n]).w, sender, clientId)
    requires Blank(clientId) || IntakeKey(sender, clientId) !in Execute(ops[..n]).w.db.index
    ensures var h := Execute(ops[..n + 1]);
            freshId in h.acked && StillSent(h.w.db, freshId, sender, receiver, clientId, content, now)
  {
    assert ops[..n + 1][..n] == ops[..n];
    assert Execute(ops[..n + 1]) == Step(Execute(ops[..n]), ops[n].0, now);
    SendStores(Execute(ops[..n]).w, sender, receiver, clientId, content, freshId, now);
  }

  /** End to end: what a replay returns of a sent message is what was sent, and only its recipient gets it. */
  lemma ReplayReturnsWhatWasSent(ops: seq<(Op, int)>, n: nat, sender: string, receiver: string, clientId: string,
                                 content: string, freshId: string, at: int,
                                 user: string, cursor: string, limit: int, now: int)
    requires n < |ops| && ops[n] == (OpSend(sender, receiver, clientId, content, freshId), at)
    requires Fresh(Execute(ops[..n]).w, freshId) && GoodRequest(sender, receiver, content)
    requires !InMemory(Execute(ops[..n]).w, sender, clientId)
    requires Blank(clientId) || IntakeKey(sender, clientId) !in Execute(ops[..n]).w.db.index
    ensures var r := Replay(Execute(ops).w, user, cursor, limit, now).1;
            r.Ok? ==> forall x | x in r.value.messages && x.messageId == freshId ::
              x.senderId == sender && x.recipientId == receiver == user && x.content == content && x.timestamp == at
              && !x.isRoom
  {
    SentStaysSent(ops, n, sender, receiver, clientId, content, freshId, at);
    ReplayShowsSent(Execute(ops).w, user, cursor, limit, now, freshId, sender, receiver, clientId, content, at);
  }

  lemma ReplayShowsSent(w: World, user: string, cursor: string, limit: int, now: int, id: string, sender: string,
                        receiver: string, clientId: string, content: string, at: int)
    requires RowsWellFormed(w.db) && StillSent(w.db, id, sender, receiver, clientId, content, at)
    ensures var r := Replay(w, user, cursor, limit, now).1;
            r.Ok? ==> forall x | x in r.value.messages && x.messageId == id ::
              x.senderId == sender && x.recipientId == receiver == user && x.content == content && x.timestamp == at
              && !x.isRoom
  {
    ReplayAnswers(w, user, cursor, limit, now);
  }
}
