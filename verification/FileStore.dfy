/** The store object itself: module-level maps changed in place and saved after each change. */
module FileStore {
  import opened Wrappers
  import opened Sorting
  import opened MessageStore

  /** The file lists every stored row, in map order, with its delivered users. */
  ghost predicate Holds(f: File, db: Db)
    requires RowsWellFormed(db)
  {
    && f.messages == RowsOf(db)
    && forall id | id in db.rows :: id in f.delivered && f.delivered[id] == db.tracking[id]
  }

  /** A file that some well-formed store saved; the empty file is one. */
  ghost predicate Written(f: File) {
    exists db :: WellFormed(db) && Holds(f, db)
  }

  class MessageFile {
    var order: seq<string>
    var messageById: map<string, Row>
    var clientMessageIdIndex: map<string, string>
    var deliveryTracking: map<string, set<string>>
    var file: File

    function Value(): Db
      reads this
    {
      Db(order, messageById, clientMessageIdIndex, deliveryTracking)
    }

    ghost predicate Valid()
      reads this
    {
      WellFormed(Value()) && Holds(file, Value())
    }

    constructor (saved: File)
      ensures Value() == MessageStore.Hydrate(saved) && file == saved
      ensures Written(saved) ==> Valid()
    {
      order, messageById, clientMessageIdIndex, deliveryTracking := [], map[], map[], map[];
      file := saved;
      new;
      Hydrate();
      if Written(saved) { HydrateWritten(saved); }
    }

    /** Clears the maps and rebuilds them from the file: what a restart does. */
    method Hydrate()
      modifies this
      ensures Value() == MessageStore.Hydrate(file) && file == old(file)
    {
      order, messageById, clientMessageIdIndex, deliveryTracking := [], map[], map[], map[];
      for i := 0 to |file.messages|
        invariant file == old(file)
        invariant Value() == HydratePrefix(file, i)
      {
        var record := file.messages[i];
        if record.messageId == "" { continue; }
        if record.messageId !in messageById { order := order + [record.messageId]; }
        messageById := messageById[record.messageId := record];
        if record.clientMessageId != "" && record.senderId != "" {
          clientMessageIdIndex := clientMessageIdIndex[ClientKey(record) := record.messageId];
        }
        var users := if record.messageId in file.delivered then file.delivered[record.messageId] else {};
        deliveryTracking := deliveryTracking[record.messageId := users];
      }
    }

    method Persist()
      requires RowsWellFormed(Value())
      modifies this`file
      ensures file == Snapshot(Value()) && Holds(file, Value())
    {
      var messages: seq<Row> := [];
      for i := 0 to |order|
        invariant messages == RowsOf(Value())[..i]
      {
        assert order[i] in order;
        messages := messages + [messageById[order[i]]];
      }
      file := File(messages, deliveryTracking);
    }

    method PersistMessage(data: Row, now: int) returns (r: Result<Row, StoreError>)
      requires Valid()
      modifies this
      ensures Valid()
      ensures var spec := MessageStore.PersistMessage(old(Value()), data, now);
              && r.Ok? == spec.Ok?
              && (r.Ok? ==> Value() == spec.value.0 && r.value == spec.value.1)
              && (r.Err? ==> Value() == old(Value()) && r.error == spec.error)
    {
      if data.messageId == "" || data.senderId == "" || data.recipientId == "" || data.content == "" {
        return Err(MissingFields);
      }
      if data.messageId in messageById {
        return Ok(messageById[data.messageId]);
      }
      var key := ClientKey(data);
      if Keyed(data) {
        if key in clientMessageIdIndex && clientMessageIdIndex[key] in messageById {
          return Ok(messageById[clientMessageIdIndex[key]]);
        }
      }
      PersistKeepsWellFormed(Value(), data, now);
      var row := data.(createdAt := now, updatedAt := now);
      order := order + [row.messageId];
      messageById := messageById[row.messageId := row];
      deliveryTracking := deliveryTracking[row.messageId := {}];
      if Keyed(data) { clientMessageIdIndex := clientMessageIdIndex[key := row.messageId]; }
      Persist();
      r := Ok(row);
    }

    method UpdateMessageState(id: string, s: MessageState, now: int) returns (r: Result<(), StoreError>)
      requires Valid()
      modifies this
      ensures Valid()
      ensures var spec := MessageStore.UpdateMessageState(old(Value()), id, s, now);
              && r.Ok? == spec.Ok?
              && Value() == (if r.Ok? then spec.value else old(Value()))
    {
      if id !in messageById { return Err(NotFound); }
      UpdateKeepsWellFormed(Value(), id, s, now);
      messageById := messageById[id := messageById[id].(state := s, updatedAt := now)];
      Persist();
      r := Ok(());
    }

    method MarkMessageDelivered(id: string, user: string)
      requires Valid()
      modifies this
      ensures Valid()
      ensures Value() == MessageStore.MarkMessageDelivered(old(Value()), id, user)
    {
      MarkKeepsWellFormed(Value(), id, user);
      if id !in deliveryTracking { deliveryTracking := deliveryTracking[id := {}]; }
      deliveryTracking := deliveryTracking[id := deliveryTracking[id] + {user}];
      assert Value() == MessageStore.MarkMessageDelivered(old(Value()), id, user);
      Persist();
    }

    method GetUndelivered(user: string, after: string, limit: int) returns (page: seq<Row>)
      requires Valid()
      ensures page == MessageStore.GetUndelivered(Value(), user, after, limit)
    {
      var db := Value();
      var p := (r: Row) => Awaiting(db, user, after, r);
      var all := RowsOf(db);
      var messages: seq<Row> := [];
      for i := 0 to |order|
        invariant messages == Filter(p, all[..i])
      {
        assert order[i] in order;
        var message := messageById[order[i]];
        assert all[..i + 1] == all[..i] + [message];
        FilterAppend(p, all[..i], [message]);
        if message.recipientId != user { continue; }
        if after != "" && !Text.Less(after, order[i]) { continue; }
        if !IsMessageDelivered(db, order[i], user) && !IsDeliveredOrRead(message.state) {
          messages := messages + [message];
        }
      }
      assert all[..|order|] == all;
      page := Take(Sort(ById, messages), limit);
    }

    /** Scans the index and stops at the first entry for the id; there is never a second one. */
    method DropIndexEntry(id: string, ghost db: Db)
      requires IndexWellFormed(db) && clientMessageIdIndex == db.index
      modifies this`clientMessageIdIndex
      ensures clientMessageIdIndex == MessageStore.DeleteMessage(db, id).index
    {
      var left := clientMessageIdIndex.Keys;
      while left != {}
        invariant left <= db.index.Keys && clientMessageIdIndex == db.index
        invariant forall k | k in db.index && k !in left :: db.index[k] != id
        decreases |left|
      {
        var key :| key in left;
        if clientMessageIdIndex[key] == id {
          forall k | k in db.index && k != key ensures db.index[k] != id {
            if db.index[k] == id { OneEntryPerRow(db, k, key); }
          }
          clientMessageIdIndex := clientMessageIdIndex - {key};
          break;
        }
        left := left - {key};
      }
    }

    /** Removes the row, its tracking set and its index entry. */
    method DeleteMessage(id: string) returns (existed: bool)
      requires Valid()
      modifies this
      ensures RowsWellFormed(Value()) && Holds(file, Value())
      ensures Valid() <==> forall a :: !EntryTaken(old(Value()), id, a)
      ensures existed == (id in old(messageById))
      ensures Value() == MessageStore.DeleteMessage(old(Value()), id)
    {
      ghost var before := Value();
      DeleteLeavesLive(before, id);
      DeleteKeepsWellFormedIff(before, id);
      existed := id in messageById;
      order := Filter((x: string) => x != id, order);
      messageById := messageById - {id};
      deliveryTracking := deliveryTracking - {id};
      DropIndexEntry(id, before);
      assert Value() == MessageStore.DeleteMessage(before, id);
      if existed {
        Persist();
      } else {
        UnknownDelete(before, id);
        assert RowsOf(Value()) == RowsOf(before);
      }
    }
  }

  /** The saved file rebuilds the same maps as a fresh snapshot, which may list fewer untracked leftovers. */
  lemma HydrateSaved(f: File, db: Db)
    requires WellFormed(db) && Holds(f, db)
    ensures Hydrate(f) == Hydrate(Snapshot(db)) && WellFormed(Hydrate(f)) && Holds(f, Hydrate(f))
  {
    forall r | r in f.messages ensures r.messageId in db.rows {
      RowsOfElements(db, r);
    }
    SameHydration(f, Snapshot(db), |f.messages|);
    HydrateKeepsWellFormed(db);
    HydrateRestores(db);
    assert RowsOf(Hydrate(f)) == RowsOf(db);
  }

  lemma HydrateWritten(f: File)
    requires Written(f)
    ensures WellFormed(Hydrate(f)) && Holds(f, Hydrate(f))
  {
    var db :| WellFormed(db) && Holds(f, db);
    HydrateSaved(f, db);
  }

  /** A first start, with nothing on disk. */
  lemma EmptyFileWritten()
    ensures Written(File([], map[]))
  {
    assert WellFormed(MessageStore.EMPTY) && Holds(File([], map[]), MessageStore.EMPTY);
  }

  lemma {:induction false} SameHydration(f: File, g: File, n: nat)
    requires f.messages == g.messages && n <= |f.messages|
    requires forall r | r in f.messages ::
               r.messageId in f.delivered && r.messageId in g.delivered
                 && f.delivered[r.messageId] == g.delivered[r.messageId]
    ensures HydratePrefix(f, n) == HydratePrefix(g, n)
  {
    if n > 0 {
      SameHydration(f, g, n - 1);
      assert f.messages[n - 1] in f.messages;
    }
  }

  lemma UnknownDelete(db: Db, id: string)
    requires RowsWellFormed(db) && id !in db.rows
    ensures DeleteMessage(db, id).order == db.order && DeleteMessage(db, id).rows == db.rows
  {
    FilterAll((x: string) => x != id, db.order);
  }

  lemma FilterAll<T(!new)>(p: T -> bool, s: seq<T>)
    requires forall x | x in s :: p(x)
    ensures Filter(p, s) == s
  {
    if s != [] {
      assert s == [s[0]] + s[1..];
    }
  }
}
