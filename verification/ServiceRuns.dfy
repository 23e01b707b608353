/** What every run of complete operations keeps, with crashes between them. */
module ServiceRuns {
  import opened Wrappers
  import opened Text
  import opened MessageStore
  import opened Services
  import Delivery

  // ----- Invariants, one stored message at a time -----

  /** Durable state and tracking agree: delivered or read exactly when the recipient is marked, and nobody else is. */
  ghost predicate Coupled(db: Db, id: string) {
    id in db.rows ==>
      && (IsMessageDelivered(db, id, db.rows[id].recipientId) <==> IsDeliveredOrRead(db.rows[id].state))
      && DeliveredTo(db, id) <= {db.rows[id].recipientId}
      && db.rows[id].state != Sending
  }

  /** The recipient's delivery record, if there is one, is never behind the durable state. */
  ghost predicate RecordKeepsUp(w: World, id: string) {
    id in w.db.rows ==>
      var k := DeliveryKey(id, w.db.rows[id].recipientId);
      k in w.mem.deliveries.records ==>
        && (w.db.rows[id].state == Delivered ==> Delivery.Final(w.mem.deliveries.records[k].state))
        && (w.db.rows[id].state == Read ==> w.mem.deliveries.records[k].state == Delivery.READ)
  }

  /** An accepted message is past `sending` in memory exactly when its row is stored. */
  ghost predicate IntakeMatches(w: World, id: string) {
    id in w.mem.intake ==>
      && w.mem.intake[id].messageId == id && ValidShape(w.mem.intake[id]) && w.mem.intake[id].content != ""
      && (w.mem.intake[id].state != Sending <==> id in w.db.rows)
  }

  /** Every remembered client id names an accepted message that carries it. */
  ghost predicate ClientIdsMatch(mem: Memory) {
    forall key | key in mem.clientIds ::
      && mem.clientIds[key] in mem.intake
      && var m := mem.intake[mem.clientIds[key]];
         !Blank(m.clientMessageId) && IntakeKey(m.senderId, m.clientMessageId) == key
  }

  ghost predicate Inv(w: World) {
    WellFormed(w.db) && Live(w)
  }

  ghost predicate Live(w: World) {
    && ClientIdsMatch(w.mem)
    && (forall id :: Coupled(w.db, id))
    && (forall id :: RecordKeepsUp(w, id))
    && (forall id :: IntakeMatches(w, id))
  }

  /** Rows are never lost, marks never removed, durable states never move back. */
  ghost predicate Grows(a: Db, b: Db) {
    forall id | id in a.rows :: RowGrows(a, b, id)
  }

  ghost predicate RowGrows(a: Db, b: Db, id: string)
    requires id in a.rows
  {
    && id in b.rows
    && b.rows[id] == a.rows[id].(state := b.rows[id].state, updatedAt := b.rows[id].updatedAt)
    && Rank(a.rows[id].state) <= Rank(b.rows[id].state)
    && DeliveredTo(a, id) <= DeliveredTo(b, id)
  }

  lemma GrowsTransitive(a: Db, b: Db, c: Db)
    requires Grows(a, b) && Grows(b, c)
    ensures Grows(a, c)
  {
    forall id | id in a.rows ensures RowGrows(a, c, id) {
      assert RowGrows(a, b, id);
      assert RowGrows(b, c, id);
    }
  }

  // ----- Marking a message delivered or read -----

  /** The database after the two durable writes of a confirmation. */
  function Confirmation(db: Db, id: string, user: string, s: MessageState, now: int): Db
    requires id in db.rows
  {
    MarkMessageDelivered(UpdateMessageState(db, id, s, now).value, id, user)
  }

  lemma ConfirmationKeepsWellFormed(db: Db, id: string, user: string, s: MessageState, now: int)
    requires WellFormed(db) && id in db.rows
    ensures WellFormed(Confirmation(db, id, user, s, now))
  {
    UpdateKeepsWellFormed(db, id, s, now);
    MarkKeepsWellFormed(UpdateMessageState(db, id, s, now).value, id, user);
  }

  lemma ConfirmationKeeps(db: Db, id: string, s: MessageState, now: int)
    requires id in db.rows && (forall i :: Coupled(db, i))
    requires IsDeliveredOrRead(s) && Rank(db.rows[id].state) <= Rank(s)
    ensures var d := Confirmation(db, id, db.rows[id].recipientId, s, now);
            (forall i :: Coupled(d, i)) && Grows(db, d)
  {
    var d := Confirmation(db, id, db.rows[id].recipientId, s, now);
    forall i ensures Coupled(d, i) {
      assert Coupled(db, i);
    }
  }

  /** Memory keeps up when only one message's row moved to `s` and its record moved with it. */
  ghost predicate MemoryFollows(w: World, v: World, id: string) {
    && (forall i | i != id :: (i in w.db.rows <==> i in v.db.rows) && (i in w.db.rows ==> v.db.rows[i] == w.db.rows[i]))
    && (forall k: Delivery.Key | k.messageId != id ::
          && (k in w.mem.deliveries.records <==> k in v.mem.deliveries.records)
          && (k in w.mem.deliveries.records ==> v.mem.deliveries.records[k] == w.mem.deliveries.records[k]))
    && (forall i | i != id ::
          && (i in w.mem.intake <==> i in v.mem.intake)
          && (i in w.mem.intake ==> v.mem.intake[i] == w.mem.intake[i]))
  }

  lemma FollowsKeeps(w: World, v: World, id: string)
    requires Live(w) && MemoryFollows(w, v, id)
    requires RecordKeepsUp(v, id) && IntakeMatches(v, id)
    ensures forall i :: RecordKeepsUp(v, i) && IntakeMatches(v, i)
  {
    forall i ensures RecordKeepsUp(v, i) && IntakeMatches(v, i) {
      assert RecordKeepsUp(w, i) && IntakeMatches(w, i);
    }
  }

  /** What a delivery confirmation does to its own message, and to nothing else. */
  lemma DeliveredFollows(w: World, id: string, user: string, now: int)
    requires id in w.db.rows && w.db.rows[id].recipientId == user && id != "" && user != ""
    requires w.db.rows[id].state == Sent && RecordKeepsUp(w, id) && IntakeMatches(w, id)
    ensures var v := FinishDelivered(SetState(w, id, Delivered, now), id, user, now);
            && v.db == Confirmation(w.db, id, user, Delivered, now)
            && MemoryFollows(w, v, id) && RecordKeepsUp(v, id) && IntakeMatches(v, id)
  {}

  lemma DeliveredLive(w: World, id: string, user: string, now: int)
    requires Live(w) && id in w.db.rows && w.db.rows[id].state == Sent
    requires w.db.rows[id].recipientId == user && id != "" && user != ""
    ensures var v := FinishDelivered(SetState(w, id, Delivered, now), id, user, now);
            Live(v) && v.db == Confirmation(w.db, id, user, Delivered, now)
  {
    assert RecordKeepsUp(w, id) && IntakeMatches(w, id);
    DeliveredFollows(w, id, user, now);
    ConfirmationKeeps(w.db, id, Delivered, now);
    FollowsKeeps(w, FinishDelivered(SetState(w, id, Delivered, now), id, user, now), id);
  }

  lemma ReadLive(w: World, id: string, user: string, now: int)
    requires Live(w) && id in w.db.rows && w.db.rows[id].state == Delivered
    requires w.db.rows[id].recipientId == user && id != "" && user != ""
    ensures var v := FinishRead(SetState(w, id, Read, now), id, user, now);
            Live(v) && v.db == Confirmation(w.db, id, user, Read, now)
  {
    var v := FinishRead(SetState(w, id, Read, now), id, user, now);
    assert Coupled(w.db, id) && RecordKeepsUp(w, id) && IntakeMatches(w, id);
    ConfirmationKeeps(w.db, id, Read, now);
    FollowsKeeps(w, v, id);
  }

  lemma ConfirmDeliveredKeeps(w: World, id: string, user: string, now: int)
    requires Inv(w)
    ensures var v := ConfirmDelivered(w, id, user, now).0; Inv(v) && Grows(w.db, v.db)
  {
    if DeliveredEarly(w, id, user).None? {
      assert Coupled(w.db, id);
      DeliveredLive(w, id, user, now);
      ConfirmationKeepsWellFormed(w.db, id, user, Delivered, now);
      ConfirmationKeeps(w.db, id, Delivered, now);
    }
  }

  lemma ConfirmReadKeeps(w: World, id: string, user: string, now: int)
    requires Inv(w)
    ensures var v := ConfirmRead(w, id, user, now).0; Inv(v) && Grows(w.db, v.db)
  {
    if ReadEarly(w, id, user).None? {
      ReadLive(w, id, user, now);
      ConfirmationKeepsWellFormed(w.db, id, user, Read, now);
      ConfirmationKeeps(w.db, id, Read, now);
    }
  }

  // ----- Replay -----

  lemma ReplayedLive(w: World, id: string, user: string, now: int)
    requires Live(w) && id in w.db.rows && w.db.rows[id].state == Sent
    requires w.db.rows[id].recipientId == user && id != "" && user != ""
    ensures var v := FinishReplayed(SetState(w, id, Delivered, now), id, user, now);
            Live(v) && v.db == Confirmation(w.db, id, user, Delivered, now)
  {
    var v := FinishReplayed(SetState(w, id, Delivered, now), id, user, now);
    assert Coupled(w.db, id) && RecordKeepsUp(w, id) && IntakeMatches(w, id);
    ConfirmationKeeps(w.db, id, Delivered, now);
    FollowsKeeps(w, v, id);
  }

  lemma CacheStepLive(w: World, v: World)
    requires Live(w) && v.db == w.db && v.mem == w.mem.(cache := v.mem.cache)
    ensures Live(v)
  {
    forall i ensures RecordKeepsUp(v, i) && IntakeMatches(v, i) {
      assert RecordKeepsUp(w, i) && IntakeMatches(w, i);
    }
  }

  lemma ReplayOneKeeps(w: World, user: string, msg: Row, now: int)
    requires Inv(w) && msg.messageId in w.db.rows && w.db.rows[msg.messageId].recipientId == user
    ensures var v := ReplayOne(w, user, msg, now).0; Inv(v) && Grows(w.db, v.db)
  {
    var id := msg.messageId;
    if ReplayGuards(w, id, user) {
      assert Coupled(w.db, id);
      CacheStepLive(w, SyncMemory(w, msg));
      ReplayedLive(SyncMemory(w, msg), id, user, now);
      ConfirmationKeepsWellFormed(w.db, id, user, Delivered, now);
      ConfirmationKeeps(w.db, id, Delivered, now);
    }
  }

  /** Every message of the list is a stored one addressed to the user. */
  ghost predicate AddressedTo(db: Db, user: string, msgs: seq<Row>) {
    forall m | m in msgs :: m.messageId in db.rows && db.rows[m.messageId].recipientId == user
  }

  lemma AddressedGrows(a: Db, b: Db, user: string, msgs: seq<Row>)
    requires AddressedTo(a, user, msgs) && Grows(a, b)
    ensures AddressedTo(b, user, msgs)
  {
    forall m | m in msgs ensures m.messageId in b.rows && b.rows[m.messageId].recipientId == user {
      assert RowGrows(a, b, m.messageId);
    }
  }

  lemma {:induction false} ReplayLoopKeeps(w: World, user: string, msgs: seq<Row>, now: int)
    requires Inv(w) && AddressedTo(w.db, user, msgs)
    ensures var v := ReplayLoop(w, user, msgs, now).0; Inv(v) && Grows(w.db, v.db)
  {
    if msgs != [] {
      var front, m := msgs[..|msgs| - 1], msgs[|msgs| - 1];
      ReplayLoopKeeps(w, user, front, now);
      var w1 := ReplayLoop(w, user, front, now).0;
      AddressedGrows(w.db, w1.db, user, [m]);
      assert m in [m];
      ReplayOneKeeps(w1, user, m, now);
      GrowsTransitive(w.db, w1.db, ReplayOne(w1, user, m, now).0.db);
    }
  }

  lemma PageAddressed(db: Db, user: string, after: string, limit: int)
    requires RowsWellFormed(db)
    ensures AddressedTo(db, user, Align(db, GetUndelivered(db, user, after, limit)))
  {
    AwaitingListing(db, user, after);
    var page := GetUndelivered(db, user, after, limit);
    assert forall m | m in page :: m in AllAwaiting(db, user, after);
    AlignAddressed(db, user, page);
  }

  lemma {:induction false} AlignAddressed(db: Db, user: string, msgs: seq<Row>)
    requires AddressedTo(db, user, msgs)
    ensures AddressedTo(db, user, Align(db, msgs))
  {
    if msgs != [] {
      AlignAddressed(db, user, msgs[..|msgs| - 1]);
    }
  }

  lemma ReplayKeeps(w: World, user: string, after: string, limit: int, now: int)
    requires Inv(w)
    ensures var v := Replay(w, user, after, limit, now).0; Inv(v) && Grows(w.db, v.db)
  {
    if user != "" && (after == "" || after in w.db.rows) {
      PageAddressed(w.db, user, after, EffectiveLimit(limit));
      ReplayLoopKeeps(w, user, Align(w.db, GetUndelivered(w.db, user, after, EffectiveLimit(limit))), now);
    }
  }

  // ----- Sending -----

  /** A generated id meets nothing the server knows. */
  ghost predicate Fresh(w: World, id: string) {
    !Blank(id) && id !in w.db.rows && id !in w.mem.intake && id !in w.mem.cache
      && forall user :: DeliveryKey(id, user) !in w.mem.deliveries.records
  }

  lemma AcceptKeeps(w: World, sender: string, receiver: string, clientId: string, content: string,
                    freshId: string, now: int)
    requires Inv(w) && Fresh(w, freshId)
    ensures var (v, r) := Accept(w, sender, receiver, clientId, content, freshId, now);
            && Inv(v) && v.db == w.db
            && (r.Ok? ==> && r.value.message.messageId in v.mem.intake
                          && r.value.message == v.mem.intake[r.value.message.messageId])
  {
    var (v, r) := Accept(w, sender, receiver, clientId, content, freshId, now);
    forall i ensures RecordKeepsUp(v, i) && IntakeMatches(v, i) {
      assert RecordKeepsUp(w, i) && IntakeMatches(w, i);
    }
    if r.Ok? && r.value.duplicate {
      assert IntakeMatches(w, w.mem.clientIds[IntakeKey(sender, clientId)]);
    }
  }

  /** What persisting may leave: the invariant, a stored row with the acknowledgement, no new row with an error. */
  ghost predicate PersistOk(w: World, m: Message, v: World, r: Result<Ack, Code>) {
    && Inv(v) && Grows(w.db, v.db)
    && (r.Ok? ==> r.value.messageId == m.messageId && m.messageId in v.db.rows)
    && (r.Err? ==> v.db == w.db)
  }

  lemma PersistNew(w: World, m: Message, now: int)
    requires Inv(w) && m.messageId in w.mem.intake && m == w.mem.intake[m.messageId] && m.messageId !in w.db.rows
    requires PersistMessage(w.db, RowFor(m), now).Ok? && PersistMessage(w.db, RowFor(m), now).value.0 != w.db
    ensures var (v, r) := PersistAck(PersistWrite(w, m, now).value, m, now); PersistOk(w, m, v, r)
  {
    PersistKeepsWellFormed(w.db, RowFor(m), now);
    NewRowKeeps(w, m, now);
    NewRowStored(w, m, now);
  }

  lemma PersistTaken(w: World, m: Message, now: int)
    requires Inv(w) && m.messageId in w.mem.intake && m == w.mem.intake[m.messageId] && m.messageId !in w.db.rows
    requires PersistMessage(w.db, RowFor(m), now).Ok? && PersistMessage(w.db, RowFor(m), now).value.0 == w.db
    ensures var (v, r) := PersistAck(PersistWrite(w, m, now).value, m, now); PersistOk(w, m, v, r)
  {
    RecordOnlyKeeps(w, PersistAck(PersistWrite(w, m, now).value, m, now).0, m.messageId);
  }

  /** Persisting a message that is still `sending` in memory stores its row, or stores nothing and answers an error. */
  lemma PersistKeeps(w: World, m: Message, now: int)
    requires Inv(w) && m.messageId in w.mem.intake && m == w.mem.intake[m.messageId]
    ensures var (v, r) := PersistAndReturnAck(w, m, now); PersistOk(w, m, v, r)
  {
    assert IntakeMatches(w, m.messageId);
    if !AlreadySent(w, m.messageId) && PersistMessage(w.db, RowFor(m), now).Ok? {
      if PersistMessage(w.db, RowFor(m), now).value.0 == w.db {
        PersistTaken(w, m, now);
      } else {
        PersistNew(w, m, now);
      }
    }
  }

  /** The key was taken: nothing is stored and the acknowledgement write fails. */
  lemma RecordOnlyKeeps(w: World, v: World, id: string)
    requires Inv(w) && id !in w.db.rows && v.db == w.db && MemoryFollows(w, v, id)
    requires v.mem.intake == w.mem.intake && v.mem.clientIds == w.mem.clientIds
    ensures Inv(v)
  {
    assert IntakeMatches(w, id);
    FollowsKeeps(w, v, id);
  }

  /** What persisting a new direct message leaves behind. */
  ghost predicate Stored(w: World, v: World, m: Message, row: Row) {
    && row.state == Sent && row.messageId == m.messageId
    && v.db.rows == w.db.rows[m.messageId := row] && v.db.tracking == w.db.tracking[m.messageId := {}]
    && v.mem.intake == w.mem.intake[m.messageId := m.(state := Sent)] && v.mem.clientIds == w.mem.clientIds
    && forall k: Delivery.Key | k.messageId != m.messageId ::
         && (k in w.mem.deliveries.records <==> k in v.mem.deliveries.records)
         && (k in w.mem.deliveries.records ==> v.mem.deliveries.records[k] == w.mem.deliveries.records[k])
  }

  lemma NewRowStored(w: World, m: Message, now: int)
    requires m.messageId in w.mem.intake && m == w.mem.intake[m.messageId]
    requires PersistMessage(w.db, RowFor(m), now).Ok? && PersistMessage(w.db, RowFor(m), now).value.0 != w.db
    ensures var (v, r) := PersistAck(PersistWrite(w, m, now).value, m, now);
            r.Ok? && Stored(w, v, m, RowFor(m).(createdAt := now, updatedAt := now))
  {}

  lemma NewRowKeeps(w: World, m: Message, now: int)
    requires Live(w) && m.messageId in w.mem.intake && m == w.mem.intake[m.messageId] && m.messageId !in w.db.rows
    requires PersistMessage(w.db, RowFor(m), now).Ok? && PersistMessage(w.db, RowFor(m), now).value.0 != w.db
    requires WellFormed(PersistMessage(w.db, RowFor(m), now).value.0)
    ensures var (v, r) := PersistAck(PersistWrite(w, m, now).value, m, now);
            Inv(v) && Grows(w.db, v.db) && r.Ok? && m.messageId in v.db.rows
  {
    NewRowStored(w, m, now);
    UpdateKeepsWellFormed(PersistMessage(w.db, RowFor(m), now).value.0, m.messageId, Sent, now);
    NewRowWorld(w, PersistAck(PersistWrite(w, m, now).value, m, now).0, m,
      RowFor(m).(createdAt := now, updatedAt := now));
  }

  lemma NewRowWorld(w: World, v: World, m: Message, row: Row)
    requires Live(w) && m.messageId in w.mem.intake && m == w.mem.intake[m.messageId] && m.messageId !in w.db.rows
    requires Stored(w, v, m, row)
    ensures Live(v) && Grows(w.db, v.db)
  {
    NewRowCoupled(w.db, v.db, row);
    assert IntakeMatches(w, m.messageId);
    assert IntakeMatches(v, m.messageId) && RecordKeepsUp(v, m.messageId);
    FollowsKeeps(w, v, m.messageId);
  }

  lemma NewRowCoupled(a: Db, b: Db, row: Row)
    requires row.messageId !in a.rows && row.state == Sent && forall i :: Coupled(a, i)
    requires b.rows == a.rows[row.messageId := row] && b.tracking == a.tracking[row.messageId := {}]
    ensures Grows(a, b) && forall i :: Coupled(b, i)
  {
    forall i ensures Coupled(b, i) {
      assert Coupled(a, i);
    }
  }

  /** An acknowledgement is only ever returned for a stored message, duplicates included. */
  lemma SendKeeps(w: World, sender: string, receiver: string, clientId: string, content: string,
                  freshId: string, now: int)
    requires Inv(w) && Fresh(w, freshId)
    ensures var (v, r) := Send(w, sender, receiver, clientId, content, freshId, now);
            Inv(v) && Grows(w.db, v.db) && (r.Ok? ==> r.value.messageId in v.db.rows)
  {
    AcceptKeeps(w, sender, receiver, clientId, content, freshId, now);
    var (w1, r) := Accept(w, sender, receiver, clientId, content, freshId, now);
    if r.Ok? {
      PersistKeeps(w1, r.value.message, now);
    }
  }

  /**
    A send whose client id already has a stored row is acknowledged exactly when this process remembers
    the stored message. After a restart it does not: the store answers with the old row, the state write
    then targets the new id and fails, and every later retry meets the same refusal.
   */
  lemma ResendAcknowledgedIff(w: World, sender: string, receiver: string, clientId: string, content: string,
                              freshId: string, now: int)
    requires Inv(w) && Fresh(w, freshId)
    requires !Blank(sender) && !Blank(receiver) && sender != receiver && !Blank(content)
      && |content| <= MAX_CONTENT_LENGTH
    requires !Blank(clientId) && IntakeKey(sender, clientId) in w.db.index
    ensures var (v, r) := Send(w, sender, receiver, clientId, content, freshId, now);
            && (r.Ok? <==> Remembered(w, IntakeKey(sender, clientId)))
            && v.db == w.db
            && Remembered(v, IntakeKey(sender, clientId)) == Remembered(w, IntakeKey(sender, clientId))
  {
    AcceptKeeps(w, sender, receiver, clientId, content, freshId, now);
    var (w1, r) := Accept(w, sender, receiver, clientId, content, freshId, now);
    assert IntakeMatches(w1, r.value.message.messageId);
    assert IntakeKey(sender, clientId) in w.mem.clientIds ==>
      IntakeMatches(w, w.mem.clientIds[IntakeKey(sender, clientId)]);
    assert IntakeKey(r.value.message.senderId, r.value.message.clientMessageId) == IntakeKey(sender, clientId);
    ResendPersist(w1, r.value.message, now);
  }

  lemma ResendPersist(w: World, m: Message, now: int)
    requires Inv(w) && m.messageId in w.mem.intake && m == w.mem.intake[m.messageId]
    requires !Blank(m.clientMessageId) && IntakeKey(m.senderId, m.clientMessageId) in w.db.index
    ensures var (v, r) := PersistAndReturnAck(w, m, now);
            && (r.Ok? <==> m.messageId in w.db.rows) && v.db == w.db && v.mem.clientIds == w.mem.clientIds
  {
    assert ClientKey(RowFor(m)) == IntakeKey(m.senderId, m.clientMessageId);
    assert IntakeMatches(w, m.messageId);
  }

  ghost predicate Remembered(w: World, key: string) {
    key in w.mem.clientIds && w.mem.clientIds[key] in w.db.rows
  }

  // ----- Steps that touch memory only -----

  /** Records only move forward, or jump to READ. */
  ghost predicate RecordsForward(a: Delivery.Deliveries, b: Delivery.Deliveries) {
    forall k | k in b.records ::
      b.records[k].state == Delivery.READ
      || (k in a.records && Delivery.Rank(a.records[k].state) <= Delivery.Rank(b.records[k].state))
  }

  lemma MemoryStepKeeps(w: World, v: World)
    requires Inv(w) && v.db == w.db && v.mem.intake == w.mem.intake && v.mem.clientIds == w.mem.clientIds
    requires RecordsForward(w.mem.deliveries, v.mem.deliveries)
    ensures Inv(v) && Grows(w.db, v.db)
  {
    forall i ensures RecordKeepsUp(v, i) && IntakeMatches(v, i) {
      assert RecordKeepsUp(w, i) && IntakeMatches(w, i);
    }
  }

  lemma AttemptKeeps(w: World, id: string, queued: bool, now: int)
    requires Inv(w)
    ensures var v := AttemptDelivery(w, id, queued, now); Inv(v) && Grows(w.db, v.db)
  {
    MemoryStepKeeps(w, AttemptDelivery(w, id, queued, now));
  }

  // ----- Room rows and crashes -----

  function PersistRoomRow(w: World, data: Row, withRecord: bool, now: int): World {
    match PersistMessage(w.db, data.(isRoom := true, state := Sent), now)
    case Err(_) => w
    case Ok((db, _)) =>
      var d := w.mem.deliveries;
      World(db, w.mem.(deliveries :=
        if withRecord then Delivery.Create(d, DeliveryKey(data.messageId, data.recipientId), now) else d))
  }

  lemma PersistRoomRowKeeps(w: World, data: Row, withRecord: bool, now: int)
    requires Inv(w) && Fresh(w, data.messageId)
    ensures var v := PersistRoomRow(w, data, withRecord, now); Inv(v) && Grows(w.db, v.db)
  {
    var row := data.(isRoom := true, state := Sent);
    var v := PersistRoomRow(w, data, withRecord, now);
    if PersistMessage(w.db, row, now).Ok? {
      PersistKeepsWellFormed(w.db, row, now);
      assert !(data.messageId in w.mem.intake);
      if v.db == w.db {
        RecordOnlyKeeps(w, v, data.messageId);
      } else {
        NewRowCoupled(w.db, v.db, row.(createdAt := now, updatedAt := now));
        FollowsKeeps(w, v, data.messageId);
      }
    }
  }

  lemma CrashKeeps(w: World)
    requires Inv(w)
    ensures Inv(Crash(w)) && Grows(w.db, Crash(w).db)
  {
    HydrateRestores(w.db);
    HydrateKeepsWellFormed(w.db);
    var d := Crash(w).db;
    assert forall i | i in w.db.rows :: DeliveredTo(d, i) == DeliveredTo(w.db, i);
    forall i ensures Coupled(d, i) {
      assert Coupled(w.db, i);
    }
  }

  // ----- Every run -----

  datatype Op =
    | OpSend(sender: string, receiver: string, clientId: string, content: string, freshId: string)
    | OpPersistRoom(data: Row, withRecord: bool)
    | OpConfirmDelivered(id: string, user: string)
    | OpConfirmRead(id: string, user: string)
    | OpAttempt(id: string, queued: bool)
    | OpLoad(id: string)
    | OpReplay(user: string, after: string, limit: int)
    | OpTimer(k: Delivery.Key)
    | OpDisconnect(user: string)
    | OpMarkReadOverHttp(id: string, user: string)
    | OpCrash

  /** The ids acknowledged so far are kept beside the world. */
  datatype History = History(w: World, acked: set<string>)

  ghost function Step(h: History, op: Op, now: int): History
    requires RowsWellFormed(h.w.db)
  {
    var w := h.w;
    match op
    case OpSend(sender, receiver, clientId, content, freshId) =>
      if !Fresh(w, freshId) then h
      else
        var (v, r) := Send(w, sender, receiver, clientId, content, freshId, now);
        History(v, if r.Ok? then h.acked + {r.value.messageId} else h.acked)
    case OpPersistRoom(data, withRecord) =>
      if !Fresh(w, data.messageId) then h else h.(w := PersistRoomRow(w, data, withRecord, now))
    case OpConfirmDelivered(id, user) => h.(w := ConfirmDelivered(w, id, user, now).0)
    case OpConfirmRead(id, user) => h.(w := ConfirmRead(w, id, user, now).0)
    case OpAttempt(id, queued) => h.(w := AttemptDelivery(w, id, queued, now))
    case OpLoad(id) => h.(w := LoadMessage(w, id))
    case OpReplay(user, after, limit) => h.(w := Replay(w, user, after, limit, now).0)
    case OpTimer(k) => h.(w := SetDeliveries(w, Delivery.TimerFires(w.mem.deliveries, k)))
    case OpDisconnect(user) => h.(w := SetDeliveries(w, Delivery.Disconnect(w.mem.deliveries, user)))
    case OpMarkReadOverHttp(id, user) =>
      h.(w := SetDeliveries(w, Delivery.ForceRead(w.mem.deliveries, DeliveryKey(id, user), now)))
    case OpCrash => h.(w := Crash(w))
  }

  ghost predicate HistoryInv(h: History) {
    Inv(h.w) && forall id | id in h.acked :: id in h.w.db.rows
  }

  lemma StepKeeps(h: History, op: Op, now: int)
    requires HistoryInv(h)
    ensures HistoryInv(Step(h, op, now)) && Grows(h.w.db, Step(h, op, now).w.db)
    ensures h.acked <= Step(h, op, now).acked
  {
    var w := h.w;
    var v := Step(h, op, now).w;
    assert Grows(w.db, v.db) && Inv(v) by {
      match op {
        case OpSend(sender, receiver, clientId, content, freshId) =>
          if Fresh(w, freshId) { SendKeeps(w, sender, receiver, clientId, content, freshId, now); }
        case OpPersistRoom(data, withRecord) =>
          if Fresh(w, data.messageId) { PersistRoomRowKeeps(w, data, withRecord, now); }
        case OpConfirmDelivered(id, user) => ConfirmDeliveredKeeps(w, id, user, now);
        case OpConfirmRead(id, user) => ConfirmReadKeeps(w, id, user, now);
        case OpAttempt(id, queued) => AttemptKeeps(w, id, queued, now);
        case OpReplay(user, after, limit) => ReplayKeeps(w, user, after, limit, now);
        case OpCrash => CrashKeeps(w);
        case _ => MemoryStepKeeps(w, v);
      }
    }
    forall id | id in h.acked ensures id in v.db.rows {
      assert RowGrows(w.db, v.db, id);
    }
    if op.OpSend? && Fresh(w, op.freshId) {
      SendKeeps(w, op.sender, op.receiver, op.clientId, op.content, op.freshId, now);
    }
  }

  ghost function Execute(ops: seq<(Op, int)>): (h: History)
    ensures HistoryInv(h)
  {
    if ops == [] then History(World(MessageStore.EMPTY, BLANK_MEMORY), {})
    else
      var h := Execute(ops[..|ops| - 1]);
      var (op, now) := ops[|ops| - 1];
      StepKeeps(h, op, now);
      Step(h, op, now)
  }

  /** Along every run rows stay, marks stay and durable states only move forward, across any number of crashes. */
  lemma {:induction false} EveryRunGrows(ops: seq<(Op, int)>, n: nat)
    requires n <= |ops|
    ensures Grows(Execute(ops[..n]).w.db, Execute(ops).w.db)
    ensures Execute(ops[..n]).acked <= Execute(ops).acked
  {
    if n == |ops| {
      assert ops[..n] == ops;
    } else {
      var front := ops[..|ops| - 1];
      EveryRunGrows(front, n);
      assert front[..n] == ops[..n];
      var (op, now) := ops[|ops| - 1];
      StepKeeps(Execute(front), op, now);
      GrowsTransitive(Execute(ops[..n]).w.db, Execute(front).w.db, Execute(ops).w.db);
    }
  }

  /** In every run, for every message: received exactly when tracked, and the delivery record is never behind. */
  lemma DurableStateCoupled(ops: seq<(Op, int)>, id: string)
    ensures Coupled(Execute(ops).w.db, id) && RecordKeepsUp(Execute(ops).w, id)
  {
    assert HistoryInv(Execute(ops));
  }

  /** DB-first: an acknowledged id is stored from then on, and no two keyed rows share sender and client id. */
  lemma AcknowledgedIsStored(ops: seq<(Op, int)>, n: nat, id: string)
    requires n <= |ops|
    ensures id in Execute(ops[..n]).acked ==> id in Execute(ops).w.db.rows
    ensures forall a, b | KeyedRow(Execute(ops).w.db, a) && KeyedRow(Execute(ops).w.db, b) && a != b ::
              var rows := Execute(ops).w.db.rows;
              !(rows[a].senderId == rows[b].senderId && rows[a].clientMessageId == rows[b].clientMessageId)
  {
    EveryRunGrows(ops, n);
    var db := Execute(ops).w.db;
    forall a, b | KeyedRow(db, a) && KeyedRow(db, b) && a != b
      ensures !(db.rows[a].senderId == db.rows[b].senderId && db.rows[a].clientMessageId == db.rows[b].clientMessageId)
    {
      assert ClientKey(db.rows[a]) != ClientKey(db.rows[b]);
    }
  }
}
