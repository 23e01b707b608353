/**
  The message life cycle over the store and the memory of one process: intake, persistence,
  confirmation (services/message.service.js), live delivery (websocket/services/message.service.js)
  and reconnect replay (services/replay.service.js).
 */
module Services {
  import opened Wrappers
  import opened Text
  import opened MessageStore
  import Delivery
  import ChatId

  const MAX_CONTENT_LENGTH := 10000
  const DEFAULT_REPLAY_LIMIT := 100

  /** The domain object of message.service; the recipient of every such message is one user. */
  datatype Message = Message(
    messageId: string, senderId: string, recipientId: string, content: string, timestamp: int,
    state: MessageState, clientMessageId: string)

  /** Everything a restart wipes. */
  datatype Memory = Memory(
    intake: map<string, Message>, clientIds: map<string, string>, cache: map<string, MessageState>,
    deliveries: Delivery.Deliveries)

  datatype World = World(db: Db, mem: Memory)

  const BLANK_MEMORY := Memory(map[], map[], map[], Delivery.EMPTY)

  datatype Code =
    | INVALID_PAYLOAD | CONTENT_TOO_LONG | INVALID_SHAPE | PERSISTENCE_ERROR | MESSAGE_NOT_FOUND
    | NOT_AUTHORIZED | INVALID_TRANSITION | ROOM_READ_NOT_SUPPORTED | AUTH_REQUIRED | INVALID_LAST_MESSAGE_ID

  datatype Intake = Intake(duplicate: bool, message: Message)
  datatype Ack = Ack(messageId: string, clientMessageId: string, timestamp: int, duplicate: bool)
  datatype Confirmed = Confirmed(state: MessageState, alreadyInState: bool)

  function DeliveryKey(id: string, user: string): Delivery.Key {
    Delivery.Key(id, user)
  }

  function SetDeliveries(w: World, d: Delivery.Deliveries): World {
    w.(mem := w.mem.(deliveries := d))
  }

  function SetCache(w: World, id: string, s: MessageState): World {
    w.(mem := w.mem.(cache := w.mem.cache[id := s]))
  }

  /** Moves the domain object on when the state machine allows it. */
  function AdvanceIntake(w: World, id: string, s: MessageState): World {
    if id in w.mem.intake && IsValidTransition(w.mem.intake[id].state, s) then
      w.(mem := w.mem.(intake := w.mem.intake[id := w.mem.intake[id].(state := s)]))
    else w
  }

  // ----- Sending -----

  function IntakeKey(sender: string, clientId: string): string {
    sender + ":" + clientId
  }

  function Accept(w: World, sender: string, receiver: string, clientId: string, content: string,
                  freshId: string, now: int): (World, Result<Intake, Code>)
  {
    if Blank(sender) || Blank(receiver) || sender == receiver || Blank(content) then (w, Err(INVALID_PAYLOAD))
    else if |content| > MAX_CONTENT_LENGTH then (w, Err(CONTENT_TOO_LONG))
    else
      var key := IntakeKey(sender, clientId);
      if !Blank(clientId) && key in w.mem.clientIds && w.mem.clientIds[key] in w.mem.intake then
        (w, Ok(Intake(true, w.mem.intake[w.mem.clientIds[key]])))
      else
        var m := Message(freshId, sender, receiver, content, now, Sending, clientId);
        (w.(mem := w.mem.(intake := w.mem.intake[freshId := m],
                          clientIds := if Blank(clientId) then w.mem.clientIds else w.mem.clientIds[key := freshId])),
         Ok(Intake(false, m)))
  }

  predicate ValidShape(m: Message) {
    !Blank(m.messageId) && !Blank(m.senderId) && !Blank(m.recipientId) && m.senderId != m.recipientId
  }

  function RowFor(m: Message): Row {
    Row(m.messageId, m.senderId, m.recipientId, m.content, m.timestamp, Sent, false, "", "",
        ChatId.ToDirectChatId(m.senderId, m.recipientId), m.clientMessageId, 0, 0)
  }

  /** Already acknowledged in this process: the idempotent shortcut. */
  predicate AlreadySent(w: World, id: string) {
    id in w.mem.intake && w.mem.intake[id].state != Sending
  }

  /** The first durable write of the send path, with the delivery record made beside it. */
  function PersistWrite(w: World, m: Message, now: int): Result<World, Code> {
    match PersistMessage(w.db, RowFor(m), now)
    case Err(_) => Err(PERSISTENCE_ERROR)
    case Ok((db, _)) =>
      Ok(World(db,
        w.mem.(deliveries := Delivery.Create(w.mem.deliveries, DeliveryKey(m.messageId, m.recipientId), now))))
  }

  /** The second durable write, the memory update and the acknowledgement. */
  function PersistAck(w: World, m: Message, now: int): (World, Result<Ack, Code>) {
    match UpdateMessageState(w.db, m.messageId, Sent, now)
    case Err(_) => (w, Err(PERSISTENCE_ERROR))
    case Ok(db) =>
      var stored := if m.messageId in w.mem.intake then w.mem.intake[m.messageId] else m;
      (World(db, w.mem.(intake := w.mem.intake[m.messageId := stored.(state := Sent)])),
       Ok(Ack(m.messageId, m.clientMessageId, m.timestamp, false)))
  }

  function PersistAndReturnAck(w: World, m: Message, now: int): (World, Result<Ack, Code>) {
    if !ValidShape(m) then (w, Err(INVALID_SHAPE))
    else if AlreadySent(w, m.messageId) then
      (w, Ok(Ack(m.messageId, m.clientMessageId, w.mem.intake[m.messageId].timestamp, true)))
    else
      match PersistWrite(w, m, now)
      case Err(e) => (w, Err(e))
      case Ok(w1) => PersistAck(w1, m, now)
  }

  /** What both send handlers do: accept, then persist the accepted (or duplicate) message. */
  function Send(w: World, sender: string, receiver: string, clientId: string, content: string,
                freshId: string, now: int): (World, Result<Ack, Code>)
  {
    var (w1, r) := Accept(w, sender, receiver, clientId, content, freshId, now);
    match r
    case Err(e) => (w1, Err(e))
    case Ok(i) => PersistAndReturnAck(w1, i.message, now)
  }

  // ----- Confirmations -----

  function SetState(w: World, id: string, s: MessageState, now: int): World
    requires id in w.db.rows
  {
    w.(db := UpdateMessageState(w.db, id, s, now).value)
  }

  /** The tracking write and the memory updates that follow a durable `delivered`. */
  function FinishDelivered(w: World, id: string, user: string, now: int): World {
    var w1 := w.(db := MarkMessageDelivered(w.db, id, user));
    var d := Delivery.Transition(w1.mem.deliveries, DeliveryKey(id, user), Delivery.DELIVERED, now).0;
    AdvanceIntake(SetDeliveries(w1, d), id, Delivered)
  }

  function FinishRead(w: World, id: string, user: string, now: int): World {
    var w1 := w.(db := MarkMessageDelivered(w.db, id, user));
    var (d, outcome) := Delivery.Transition(w1.mem.deliveries, DeliveryKey(id, user), Delivery.READ, now);
    var d1 := if outcome == Delivery.Done then d else Delivery.ForceRead(d, DeliveryKey(id, user), now);
    AdvanceIntake(SetDeliveries(w1, d1), id, Read)
  }

  /** The checks before the durable writes: an answer without a write, or None to go on. */
  function DeliveredEarly(w: World, id: string, user: string): Option<Result<Confirmed, Code>> {
    if id == "" || user == "" then Some(Err(INVALID_PAYLOAD))
    else if id !in w.db.rows then Some(Err(MESSAGE_NOT_FOUND))
    else if w.db.rows[id].recipientId != user then Some(Err(NOT_AUTHORIZED))
    else if IsDeliveredOrRead(w.db.rows[id].state) then Some(Ok(Confirmed(w.db.rows[id].state, true)))
    else if !IsValidTransition(w.db.rows[id].state, Delivered) then Some(Err(INVALID_TRANSITION))
    else None
  }

  function ConfirmDelivered(w: World, id: string, user: string, now: int): (World, Result<Confirmed, Code>) {
    match DeliveredEarly(w, id, user)
    case Some(answer) => (w, answer)
    case None => (FinishDelivered(SetState(w, id, Delivered, now), id, user, now), Ok(Confirmed(Delivered, false)))
  }

  function ReadEarly(w: World, id: string, user: string): Option<Result<Confirmed, Code>> {
    if id == "" || user == "" then Some(Err(INVALID_PAYLOAD))
    else if id !in w.db.rows then Some(Err(MESSAGE_NOT_FOUND))
    else if w.db.rows[id].roomId != "" || w.db.rows[id].isRoom then Some(Err(ROOM_READ_NOT_SUPPORTED))
    else if w.db.rows[id].recipientId != user then Some(Err(NOT_AUTHORIZED))
    else if w.db.rows[id].state == Read then Some(Ok(Confirmed(Read, true)))
    else if !IsValidTransition(w.db.rows[id].state, Read) then Some(Err(INVALID_TRANSITION))
    else None
  }

  function ConfirmRead(w: World, id: string, user: string, now: int): (World, Result<Confirmed, Code>) {
    match ReadEarly(w, id, user)
    case Some(answer) => (w, answer)
    case None => (FinishRead(SetState(w, id, Read, now), id, user, now), Ok(Confirmed(Read, false)))
  }

  // ----- Live delivery -----

  function LoadMessage(w: World, id: string): World {
    if id in w.mem.cache || id !in w.db.rows then w else SetCache(w, id, w.db.rows[id].state)
  }

  /** `queued` says whether some open socket of the recipient took the message. */
  function AttemptDelivery(w: World, id: string, queued: bool, now: int): World {
    var w1 := LoadMessage(w, id);
    if id !in w1.db.rows then w1
    else
      var user := w1.db.rows[id].recipientId;
      if IsMessageDelivered(w1.db, id, user) then w1
      else
        var d := w1.mem.deliveries;
        SetDeliveries(w1,
          if queued then Delivery.Transition(d, DeliveryKey(id, user), Delivery.SENT, now).0
          else Delivery.RecordFailure(d, DeliveryKey(id, user), Delivery.OTHER))
  }

  // ----- Replay -----

  datatype Payload = Payload(
    isRoom: bool, messageId: string, senderId: string, recipientId: string, content: string, timestamp: int,
    roomId: string, roomMessageId: string)

  datatype ReplayResult = ReplayResult(messages: seq<Payload>, lastMessageId: string, requestedAfter: string)

  function PayloadFor(r: Row): Payload {
    Payload(r.isRoom, r.messageId, r.senderId, if r.isRoom then "" else r.recipientId, r.content, r.timestamp,
            r.roomId, r.roomMessageId)
  }

  /** Memory says the message has already reached the user: replay skips it. */
  predicate BlockedInMemory(mem: Memory, id: string, user: string) {
    || !Delivery.IsPendingReplay(mem.deliveries, DeliveryKey(id, user))
    || (id in mem.cache && IsDeliveredOrRead(mem.cache[id]))
  }

  predicate ReplayGuards(w: World, id: string, user: string) {
    !BlockedInMemory(w.mem, id, user) && !IsMessageDelivered(w.db, id, user)
  }

  function SyncMemory(w: World, msg: Row): World {
    if msg.messageId in w.mem.cache then w else SetCache(w, msg.messageId, msg.state)
  }

  function FinishReplayed(w: World, id: string, user: string, now: int): World {
    var w1 := w.(db := MarkMessageDelivered(w.db, id, user));
    var d := Delivery.Transition(w1.mem.deliveries, DeliveryKey(id, user), Delivery.DELIVERED, now).0;
    var w2 := SetDeliveries(w1, d);
    if id in w2.mem.cache then SetCache(w2, id, Delivered) else w2
  }

  function ReplayOne(w: World, user: string, msg: Row, now: int): (World, seq<Payload>) {
    if !ReplayGuards(w, msg.messageId, user) then (w, [])
    else
      var w1 := SyncMemory(w, msg);
      if msg.messageId !in w1.db.rows then
        (SetDeliveries(w1,
          Delivery.RecordFailure(w1.mem.deliveries, DeliveryKey(msg.messageId, user), Delivery.OTHER)), [])
      else
        (FinishReplayed(SetState(w1, msg.messageId, Delivered, now), msg.messageId, user, now), [PayloadFor(msg)])
  }

  function ReplayLoop(w: World, user: string, msgs: seq<Row>, now: int): (World, seq<Payload>) {
    if msgs == [] then (w, [])
    else
      var (w1, out) := ReplayLoop(w, user, msgs[..|msgs| - 1], now);
      var (w2, last) := ReplayOne(w1, user, msgs[|msgs| - 1], now);
      (w2, out + last)
  }

  /** Re-reads each fetched row: a missing one is dropped, and the stored state wins. */
  function Align(db: Db, msgs: seq<Row>): seq<Row> {
    if msgs == [] then []
    else
      var rest, m := Align(db, msgs[..|msgs| - 1]), msgs[|msgs| - 1];
      if m.messageId in db.rows then rest + [m.(state := db.rows[m.messageId].state)] else rest
  }

  function EffectiveLimit(limit: int): int {
    if limit == 0 then DEFAULT_REPLAY_LIMIT else limit
  }

  function Replay(w: World, user: string, after: string, limit: int, now: int): (World, Result<ReplayResult, Code>)
    requires RowsWellFormed(w.db)
  {
    if user == "" then (w, Err(AUTH_REQUIRED))
    else if after != "" && after !in w.db.rows then (w, Err(INVALID_LAST_MESSAGE_ID))
    else
      var page := GetUndelivered(w.db, user, after, EffectiveLimit(limit));
      var (w1, out) := ReplayLoop(w, user, Align(w.db, page), now);
      (w1, Ok(ReplayResult(out, if out == [] then after else out[|out| - 1].messageId, after)))
  }

  // ----- Crash -----

  /** The process dies and restarts: memory is blank and the store is rebuilt from its file. */
  function Crash(w: World): World
    requires RowsWellFormed(w.db)
  {
    World(Hydrate(Snapshot(w.db)), BLANK_MEMORY)
  }
}
