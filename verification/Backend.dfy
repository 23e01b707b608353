/** The services as one object over the store file and the delivery store, in their imperative form. */
module Backend {
  import opened Wrappers
  import opened Text
  import opened MessageStore
  import opened Services
  import Delivery
  import FileStore
  import DeliveryService

  class MessageBackend {
    const store: FileStore.MessageFile
    const delivery: DeliveryService.DeliveryStore
    var intake: map<string, Message>
    var clientIds: map<string, string>
    var cache: map<string, MessageState>

    function Value(): World
      reads this, store, delivery
    {
      World(store.Value(), Memory(intake, clientIds, cache, delivery.Value()))
    }

    /** A process start: blank memory over whatever the file holds. */
    constructor (saved: File)
      ensures Value() == World(Hydrate(saved), BLANK_MEMORY) && store.file == saved
      ensures FileStore.Written(saved) ==> store.Valid()
      ensures fresh(store) && fresh(delivery)
    {
      store := new FileStore.MessageFile(saved);
      delivery := new DeliveryService.DeliveryStore();
      intake, clientIds, cache := map[], map[], map[];
    }

    method AcceptIncomingMessage(sender: string, receiver: string, clientId: string, content: string,
                                 freshId: string, now: int)
      returns (r: Result<Intake, Code>)
      modifies this
      ensures (Value(), r) == Accept(old(Value()), sender, receiver, clientId, content, freshId, now)
    {
      if Blank(sender) { return Err(INVALID_PAYLOAD); }
      if Blank(receiver) { return Err(INVALID_PAYLOAD); }
      if sender == receiver { return Err(INVALID_PAYLOAD); }
      if Blank(content) { return Err(INVALID_PAYLOAD); }
      if |content| > MAX_CONTENT_LENGTH { return Err(CONTENT_TOO_LONG); }
      var key := IntakeKey(sender, clientId);
      if !Blank(clientId) {
        if key in clientIds && clientIds[key] in intake {
          return Ok(Intake(true, intake[clientIds[key]]));
        }
      }
      var message := Message(freshId, sender, receiver, content, now, Sending, clientId);
      intake := intake[freshId := message];
      if !Blank(clientId) { clientIds := clientIds[key := freshId]; }
      r := Ok(Intake(false, message));
    }

    method PersistAndReturnAck(m: Message, now: int) returns (r: Result<Ack, Code>)
      requires store.Valid()
      modifies this, store, delivery
      ensures store.Valid()
      ensures (Value(), r) == Services.PersistAndReturnAck(old(Value()), m, now)
    {
      if !ValidShape(m) { return Err(INVALID_SHAPE); }
      if m.messageId in intake && intake[m.messageId].state != Sending {
        return Ok(Ack(m.messageId, m.clientMessageId, intake[m.messageId].timestamp, true));
      }
      var persisted := store.PersistMessage(RowFor(m), now);
      if persisted.Err? { return Err(PERSISTENCE_ERROR); }
      delivery.CreateDelivery(DeliveryKey(m.messageId, m.recipientId), now);
      var updated := store.UpdateMessageState(m.messageId, Sent, now);
      if updated.Err? { return Err(PERSISTENCE_ERROR); }
      var stored := if m.messageId in intake then intake[m.messageId] else m;
      intake := intake[m.messageId := stored.(state := Sent)];
      r := Ok(Ack(m.messageId, m.clientMessageId, m.timestamp, false));
    }

    method Advance(id: string, s: MessageState)
      modifies this`intake
      ensures Value() == AdvanceIntake(old(Value()), id, s)
    {
      if id in intake && IsValidTransition(intake[id].state, s) {
        intake := intake[id := intake[id].(state := s)];
      }
    }

    method ConfirmDeliveredAndReturnAck(id: string, user: string, now: int) returns (r: Result<Confirmed, Code>)
      requires store.Valid()
      modifies this, store, delivery
      ensures store.Valid()
      ensures (Value(), r) == ConfirmDelivered(old(Value()), id, user, now)
    {
      if id == "" || user == "" { return Err(INVALID_PAYLOAD); }
      if id !in store.messageById { return Err(MESSAGE_NOT_FOUND); }
      var dbMessage := store.messageById[id];
      if dbMessage.recipientId != user { return Err(NOT_AUTHORIZED); }
      if IsDeliveredOrRead(dbMessage.state) { return Ok(Confirmed(dbMessage.state, true)); }
      if !IsValidTransition(dbMessage.state, Delivered) { return Err(INVALID_TRANSITION); }
      var _ := store.UpdateMessageState(id, Delivered, now);
      store.MarkMessageDelivered(id, user);
      var _ := delivery.TransitionState(DeliveryKey(id, user), Delivery.DELIVERED, now);
      Advance(id, Delivered);
      r := Ok(Confirmed(Delivered, false));
    }

    method ConfirmReadAndReturnAck(id: string, user: string, now: int) returns (r: Result<Confirmed, Code>)
      requires store.Valid()
      modifies this, store, delivery
      ensures store.Valid()
      ensures (Value(), r) == ConfirmRead(old(Value()), id, user, now)
    {
      if id == "" || user == "" { return Err(INVALID_PAYLOAD); }
      if id !in store.messageById { return Err(MESSAGE_NOT_FOUND); }
      var dbMessage := store.messageById[id];
      if dbMessage.roomId != "" || dbMessage.isRoom { return Err(ROOM_READ_NOT_SUPPORTED); }
      if dbMessage.recipientId != user { return Err(NOT_AUTHORIZED); }
      if dbMessage.state == Read { return Ok(Confirmed(Read, true)); }
      if !IsValidTransition(dbMessage.state, Read) { return Err(INVALID_TRANSITION); }
      var _ := store.UpdateMessageState(id, Read, now);
      store.MarkMessageDelivered(id, user);
      var outcome := delivery.TransitionState(DeliveryKey(id, user), Delivery.READ, now);
      if outcome != Delivery.Done { delivery.ForceMarkAsRead(DeliveryKey(id, user), now); }
      Advance(id, Read);
      r := Ok(Confirmed(Read, false));
    }

    method SyncMessage(id: string, s: MessageState)
      modifies this`cache
      ensures Value() == SetCache(old(Value()), id, s)
    {
      cache := cache[id := s];
    }

    /** The body of the replay loop: two guards, two durable writes, then memory and output. */
    method ReplayMessage(user: string, msg: Row, now: int) returns (out: seq<Payload>)
      requires store.Valid()
      modifies this, store, delivery
      ensures store.Valid()
      ensures (Value(), out) == ReplayOne(old(Value()), user, msg, now)
    {
      var id := msg.messageId;
      if !delivery.IsPendingReplay(DeliveryKey(id, user)) { return []; }
      if IsMessageDelivered(store.Value(), id, user) { return []; }
      if id in cache && IsDeliveredOrRead(cache[id]) { return []; }
      if id !in cache { SyncMessage(id, msg.state); }
      var updated := store.UpdateMessageState(id, Delivered, now);
      if updated.Err? {
        delivery.RecordDeliveryFailure(DeliveryKey(id, user), Delivery.OTHER);
        return [];
      }
      store.MarkMessageDelivered(id, user);
      var _ := delivery.TransitionState(DeliveryKey(id, user), Delivery.DELIVERED, now);
      if id in cache { SyncMessage(id, Delivered); }
      out := [PayloadFor(msg)];
    }

    /** Re-reads each fetched message from the database. */
    method AlignWithDb(undelivered: seq<Row>) returns (validMessages: seq<Row>)
      ensures validMessages == Align(store.Value(), undelivered)
    {
      validMessages := [];
      for i := 0 to |undelivered|
        invariant validMessages == Align(store.Value(), undelivered[..i])
      {
        assert undelivered[..i + 1][..i] == undelivered[..i];
        var msg := undelivered[i];
        if msg.messageId !in store.messageById { continue; }
        validMessages := validMessages + [msg.(state := store.messageById[msg.messageId].state)];
      }
      assert undelivered[..|undelivered|] == undelivered;
    }

    method ReplayAll(user: string, validMessages: seq<Row>, now: int)
      returns (messagesToEmit: seq<Payload>, lastReplayedId: string)
      requires store.Valid()
      modifies this, store, delivery
      ensures store.Valid()
      ensures (Value(), messagesToEmit) == ReplayLoop(old(Value()), user, validMessages, now)
      ensures messagesToEmit != [] ==> lastReplayedId == messagesToEmit[|messagesToEmit| - 1].messageId
    {
      ghost var w := Value();
      messagesToEmit, lastReplayedId := [], "";
      for i := 0 to |validMessages|
        invariant store.Valid()
        invariant (Value(), messagesToEmit) == ReplayLoop(w, user, validMessages[..i], now)
        invariant messagesToEmit != [] ==> lastReplayedId == messagesToEmit[|messagesToEmit| - 1].messageId
      {
        assert validMessages[..i + 1][..i] == validMessages[..i];
        var out := ReplayMessage(user, validMessages[i], now);
        messagesToEmit := messagesToEmit + out;
        if out != [] { lastReplayedId := validMessages[i].messageId; }
      }
      assert validMessages[..|validMessages|] == validMessages;
    }

    method ReplayMessages(user: string, after: string, limit: int, now: int) returns (r: Result<ReplayResult, Code>)
      requires store.Valid()
      modifies this, store, delivery
      ensures store.Valid()
      ensures RowsWellFormed(old(store.Value())) && (Value(), r) == Replay(old(Value()), user, after, limit, now)
    {
      if user == "" { return Err(AUTH_REQUIRED); }
      if after != "" && after !in store.messageById { return Err(INVALID_LAST_MESSAGE_ID); }
      var undelivered := store.GetUndelivered(user, after, if limit == 0 then DEFAULT_REPLAY_LIMIT else limit);
      var validMessages := AlignWithDb(undelivered);
      assert Value() == old(Value());
      var messagesToEmit, lastReplayedId := ReplayAll(user, validMessages, now);
      r := Ok(ReplayResult(messagesToEmit, if messagesToEmit == [] then after else lastReplayedId, after));
    }

    method GetOrLoadMessage(id: string)
      modifies this`cache
      ensures Value() == LoadMessage(old(Value()), id)
    {
      if id in cache { return; }
      if id !in store.messageById { return; }
      SyncMessage(id, store.messageById[id].state);
    }

    /** `queued` is the answer of the socket layer: some open socket of the recipient took the message. */
    method AttemptDelivery(id: string, queued: bool, now: int)
      modifies this`cache, delivery
      ensures Value() == Services.AttemptDelivery(old(Value()), id, queued, now)
    {
      GetOrLoadMessage(id);
      if id !in store.messageById { return; }
      var user := store.messageById[id].recipientId;
      if IsMessageDelivered(store.Value(), id, user) { return; }
      if queued {
        var _ := delivery.TransitionState(DeliveryKey(id, user), Delivery.SENT, now);
      } else {
        delivery.RecordDeliveryFailure(DeliveryKey(id, user), Delivery.OTHER);
      }
    }

    /** The process dies and starts again over the saved file. */
    method Restart()
      requires store.Valid()
      modifies this, store, delivery
      ensures store.Valid()
      ensures RowsWellFormed(old(store.Value())) && Value() == Crash(old(Value()))
    {
      FileStore.HydrateSaved(store.file, store.Value());
      HydrateKeepsWellFormed(store.Value());
      store.Hydrate();
      delivery.records, delivery.sentTimeouts, delivery.deliveredTotal, delivery.failures := map[], {}, 0, map[];
      intake, clientIds, cache := map[], map[], map[];
    }
  }
}
