/** The file-backed message store (storage/message.store.js) and the message states (models/message.state.js). */
module MessageStore {
  import opened Wrappers
  import opened Text
  import opened Sorting

  // ----- Message states -----

  datatype MessageState = Sending | Sent | Delivered | Read

  function NextStates(s: MessageState): set<MessageState> {
    match s
    case Sending => {Sent}
    case Sent => {Delivered}
    case Delivered => {Read}
    case Read => {}
  }

  predicate IsValidTransition(current: MessageState, next: MessageState) {
    next in NextStates(current)
  }

  predicate IsDeliveredOrRead(s: MessageState) {
    s == Delivered || s == Read
  }

  function Rank(s: MessageState): nat {
    match s
    case Sending => 0
    case Sent => 1
    case Delivered => 2
    case Read => 3
  }

  // ----- Rows and the three maps -----

  /** One stored message. The empty string stands for an absent optional field. */
  datatype Row = Row(
    messageId: string, senderId: string, recipientId: string, content: string, timestamp: int,
    state: MessageState, isRoom: bool, roomId: string, roomMessageId: string, chatId: string,
    clientMessageId: string, createdAt: int, updatedAt: int)

  /** The maps in memory; `order` is the insertion order of messageById. */
  datatype Db = Db(
    order: seq<string>, rows: map<string, Row>, index: map<string, string>, tracking: map<string, set<string>>)

  /** What persist() writes: the rows in map order and the delivered users of each tracked id. */
  datatype File = File(messages: seq<Row>, delivered: map<string, set<string>>)

  datatype StoreError = MissingFields | NotFound

  const EMPTY := Db([], map[], map[], map[])

  function ClientKey(r: Row): string {
    r.senderId + ":" + r.clientMessageId
  }

  /** Rows with a non-blank client id are the ones the uniqueness rule is about. */
  predicate Keyed(r: Row) {
    !Blank(r.clientMessageId)
  }

  /** Hydration indexes every row with a non-empty client id, white space included. */
  predicate Indexable(r: Row) {
    r.clientMessageId != "" && r.senderId != ""
  }

  predicate KeyedRow(db: Db, id: string) {
    id in db.rows && Keyed(db.rows[id])
  }

  predicate Distinct(s: seq<string>) {
    forall i, j | 0 <= i < j < |s| :: s[i] != s[j]
  }

  ghost predicate RowsWellFormed(db: Db) {
    && Distinct(db.order)
    && (forall id :: id in db.order <==> id in db.rows)
    && (forall id | id in db.rows :: 
          db.rows[id].messageId == id && id != "" && db.rows[id].senderId != "" && db.rows[id].recipientId != "")
    && db.rows.Keys <= db.tracking.Keys
  }

  /** Every index entry points at a stored row that has its key. */
  ghost predicate EntriesLive(db: Db) {
    forall k | k in db.index ::
      db.index[k] in db.rows && ClientKey(db.rows[db.index[k]]) == k && Indexable(db.rows[db.index[k]])
  }

  ghost predicate IndexWellFormed(db: Db) {
    && EntriesLive(db)
    && (forall id | KeyedRow(db, id) :: ClientKey(db.rows[id]) in db.index)
  }

  /** At most one stored row for each idempotency key among rows with a non-blank client id. */
  ghost predicate KeysUnique(db: Db) {
    forall a, b | KeyedRow(db, a) && KeyedRow(db, b) && ClientKey(db.rows[a]) == ClientKey(db.rows[b]) :: a == b
  }

  ghost predicate WellFormed(db: Db) {
    RowsWellFormed(db) && IndexWellFormed(db) && KeysUnique(db)
  }

  // ----- Operations on the maps -----

  function PersistMessage(db: Db, data: Row, now: int): Result<(Db, Row), StoreError> {
    if data.messageId == "" || data.senderId == "" || data.recipientId == "" || data.content == "" then
      Err(MissingFields)
    else if data.messageId in db.rows then
      Ok((db, db.rows[data.messageId]))
    else
      var key := ClientKey(data);
      if Keyed(data) && key in db.index && db.index[key] in db.rows then
        Ok((db, db.rows[db.index[key]]))
      else
        var row := data.(createdAt := now, updatedAt := now);
        Ok((Db(db.order + [row.messageId],
               db.rows[row.messageId := row],
               if Keyed(data) then db.index[key := row.messageId] else db.index,
               db.tracking[row.messageId := {}]), row))
  }

  function UpdateMessageState(db: Db, id: string, s: MessageState, now: int): Result<Db, StoreError> {
    if id !in db.rows then Err(NotFound)
    else Ok(db.(rows := db.rows[id := db.rows[id].(state := s, updatedAt := now)]))
  }

  function DeliveredTo(db: Db, id: string): set<string> {
    if id in db.tracking then db.tracking[id] else {}
  }

  predicate IsMessageDelivered(db: Db, id: string, user: string) {
    user in DeliveredTo(db, id)
  }

  function MarkMessageDelivered(db: Db, id: string, user: string): Db {
    db.(tracking := db.tracking[id := DeliveredTo(db, id) + {user}])
  }

  function DeleteMessage(db: Db, id: string): Db {
    Db(Filter((x: string) => x != id, db.order),
       db.rows - {id},
       map k | k in db.index && db.index[k] != id :: db.index[k],
       db.tracking - {id})
  }

  /** The rows in the iteration order of messageById. */
  function RowsOf(db: Db): seq<Row>
    requires forall id | id in db.order :: id in db.rows
  {
    seq(|db.order|, i requires 0 <= i < |db.order| => db.rows[db.order[i]])
  }

  predicate ById(a: Row, b: Row) {
    Less(a.messageId, b.messageId)
  }

  /** Addressed to the user, above the cursor, not tracked as delivered, not in a delivered state. */
  predicate Awaiting(db: Db, user: string, after: string, r: Row) {
    && r.recipientId == user
    && (after == "" || Less(after, r.messageId))
    && !IsMessageDelivered(db, r.messageId, user)
    && !IsDeliveredOrRead(r.state)
  }

  function AllAwaiting(db: Db, user: string, after: string): seq<Row>
    requires forall id | id in db.order :: id in db.rows
  {
    Sort(ById, Filter((r: Row) => Awaiting(db, user, after, r), RowsOf(db)))
  }

  function GetUndelivered(db: Db, user: string, after: string, limit: int): seq<Row>
    requires forall id | id in db.order :: id in db.rows
  {
    Take(AllAwaiting(db, user, after), limit)
  }

  // ----- Saving and reading back -----

  function Snapshot(db: Db): File
    requires forall id | id in db.order :: id in db.rows
  {
    File(RowsOf(db), db.tracking)
  }

  function AddRow(db: Db, r: Row, delivered: map<string, set<string>>): Db {
    if r.messageId == "" then db
    else Db(if r.messageId in db.rows then db.order else db.order + [r.messageId],
            db.rows[r.messageId := r],
            if Indexable(r) then db.index[ClientKey(r) := r.messageId] else db.index,
            db.tracking[r.messageId := if r.messageId in delivered then delivered[r.messageId] else {}])
  }

  function HydratePrefix(f: File, n: nat): Db
    requires n <= |f.messages|
  {
    if n == 0 then EMPTY else AddRow(HydratePrefix(f, n - 1), f.messages[n - 1], f.delivered)
  }

  function Hydrate(f: File): Db {
    HydratePrefix(f, |f.messages|)
  }

  // ----- What each operation keeps -----

  lemma PersistKeepsRows(db: Db, data: Row, now: int)
    requires RowsWellFormed(db)
    ensures var r := PersistMessage(db, data, now); r.Ok? ==> RowsWellFormed(r.value.0)
  {
    var r := PersistMessage(db, data, now);
    if r.Ok? && r.value.0 != db {
      var d := r.value.0;
      var id := r.value.1.messageId;
      assert id !in db.order;
      assert d.order == db.order + [id];
      assert d.rows.Keys == db.rows.Keys + {id};
    }
  }

  lemma PersistKeepsWellFormed(db: Db, data: Row, now: int)
    requires WellFormed(db)
    ensures var r := PersistMessage(db, data, now); r.Ok? ==> WellFormed(r.value.0)
  {
    var r := PersistMessage(db, data, now);
    PersistKeepsRows(db, data, now);
    if r.Ok? && r.value.0 != db {
      var d, row := r.value.0, r.value.1;
      var id := row.messageId;
      forall k | k in d.index
        ensures d.index[k] in d.rows && ClientKey(d.rows[d.index[k]]) == k && Indexable(d.rows[d.index[k]])
      {
        assert k in db.index ==> db.index[k] in db.rows;
      }
      forall a | KeyedRow(d, a) ensures ClientKey(d.rows[a]) in d.index {
        assert a != id ==> KeyedRow(db, a);
      }
      forall a, b | KeyedRow(d, a) && KeyedRow(d, b) && ClientKey(d.rows[a]) == ClientKey(d.rows[b]) ensures a == b {
        assert a != id ==> KeyedRow(db, a);
        assert b != id ==> KeyedRow(db, b);
      }
    }
  }

  /**
    What a persist answers: an incomplete row is refused; a known id, or a keyed row whose key is taken, answers
    with the stored row and changes nothing; anything else is stored last, as given, without a mark.
   */
  lemma PersistAnswers(db: Db, data: Row, now: int)
    requires WellFormed(db)
    ensures var r := PersistMessage(db, data, now);
            var key := data.senderId + ":" + data.clientMessageId;
            var taken := !Blank(data.clientMessageId) && key in db.index;
            && (r.Err? <==> data.messageId == "" || data.senderId == "" || data.recipientId == "" || data.content == "")
            && (r.Err? ==> r.error == MissingFields)
            && (r.Ok? && data.messageId in db.rows ==> r.value == (db, db.rows[data.messageId]))
            && (r.Ok? && data.messageId !in db.rows && taken ==>
                  r.value == (db, db.rows[db.index[key]]))
            && (r.Ok? && data.messageId !in db.rows && !taken ==>
                  var row := data.(createdAt := now, updatedAt := now);
                  && r.value.1 == row && r.value.0.rows == db.rows[data.messageId := row]
                  && r.value.0.order == db.order + [data.messageId]
                  && r.value.0.tracking == db.tracking[data.messageId := {}])
  {}

  /** A successful persist changes no row or mark that was there. */
  lemma PersistExtends(db: Db, data: Row, now: int)
    requires RowsWellFormed(db)
    ensures var r := PersistMessage(db, data, now);
            r.Ok? ==> forall id | id in db.rows ::
              id in r.value.0.rows && r.value.0.rows[id] == db.rows[id] && r.value.0.tracking[id] == db.tracking[id]
  {}

  lemma UpdateKeepsKeys(db: Db, d: Db, id: string, s: MessageState, now: int)
    requires id in db.rows && d == UpdateMessageState(db, id, s, now).value
    ensures d.rows.Keys == db.rows.Keys && d.order == db.order && d.index == db.index && d.tracking == db.tracking
    ensures forall a | a in d.rows ::
              d.rows[a].messageId == db.rows[a].messageId && d.rows[a].senderId == db.rows[a].senderId
              && d.rows[a].recipientId == db.rows[a].recipientId
              && d.rows[a].clientMessageId == db.rows[a].clientMessageId
    ensures forall a :: KeyedRow(d, a) == KeyedRow(db, a)
  {}

  lemma UpdateKeepsRows(db: Db, d: Db, id: string, s: MessageState, now: int)
    requires RowsWellFormed(db) && id in db.rows && d == UpdateMessageState(db, id, s, now).value
    ensures RowsWellFormed(d)
  {
    UpdateKeepsKeys(db, d, id, s, now);
  }

  lemma UpdateKeepsIndex(db: Db, d: Db, id: string, s: MessageState, now: int)
    requires IndexWellFormed(db) && KeysUnique(db) && id in db.rows && d == UpdateMessageState(db, id, s, now).value
    ensures IndexWellFormed(d) && KeysUnique(d)
  {
    UpdateKeepsKeys(db, d, id, s, now);
  }

  lemma UpdateKeepsWellFormed(db: Db, id: string, s: MessageState, now: int)
    requires WellFormed(db) && id in db.rows
    ensures WellFormed(UpdateMessageState(db, id, s, now).value)
  {
    var d := UpdateMessageState(db, id, s, now).value;
    UpdateKeepsRows(db, d, id, s, now);
    UpdateKeepsIndex(db, d, id, s, now);
  }

  lemma MarkKeepsWellFormed(db: Db, id: string, user: string)
    requires WellFormed(db)
    ensures WellFormed(MarkMessageDelivered(db, id, user))
  {
    var d := MarkMessageDelivered(db, id, user);
    assert forall a :: KeyedRow(d, a) == KeyedRow(db, a);
  }

  /** Rows never share an index entry's key by accident when no sender id contains a colon. */
  lemma ClientKeyInjective(a: Row, b: Row)
    requires ':' !in a.senderId && ':' !in b.senderId && ClientKey(a) == ClientKey(b)
    ensures a.senderId == b.senderId && a.clientMessageId == b.clientMessageId
  {
    var s, t := ClientKey(a), ClientKey(b);
    var n, m := |a.senderId|, |b.senderId|;
    assert s[n] == ':' && t[m] == ':';
    assert forall i | 0 <= i < n :: s[i] == a.senderId[i];
    assert forall i | 0 <= i < m :: t[i] == b.senderId[i];
    assert n == m;
    assert a.senderId == s[..n] && b.senderId == t[..n];
    assert a.clientMessageId == s[n + 1..] && b.clientMessageId == t[n + 1..];
  }

  // ----- Hydration -----

  /** The last of the first n rows, in map order, that hydration indexes under the key. */
  function LastWithKey(db: Db, key: string, n: nat): Option<string>
    requires n <= |db.order| && forall id | id in db.order :: id in db.rows
  {
    if n == 0 then None
    else
      var r := db.rows[db.order[n - 1]];
      if Indexable(r) && ClientKey(r) == key then Some(r.messageId) else LastWithKey(db, key, n - 1)
  }

  lemma PrefixStep(order: seq<string>, n: nat)
    requires Distinct(order) && 0 < n <= |order|
    ensures order[..n] == order[..n - 1] + [order[n - 1]] && order[n - 1] !in order[..n - 1]
  {}

  function RestrictTo<V>(ids: seq<string>, m: map<string, V>): map<string, V>
    requires forall id | id in ids :: id in m
  {
    map id | id in ids :: m[id]
  }

  lemma RestrictStep<V>(ids: seq<string>, id: string, m: map<string, V>)
    requires (forall i | i in ids :: i in m) && id in m
    ensures RestrictTo(ids + [id], m) == RestrictTo(ids, m)[id := m[id]]
  {}

  /** The database holding only the rows with the given ids. */
  ghost predicate HoldsOnly(h: Db, db: Db, ids: seq<string>)
    requires forall id | id in ids :: id in db.rows && id in db.tracking
  {
    h.order == ids && h.rows == RestrictTo(ids, db.rows) && h.tracking == RestrictTo(ids, db.tracking)
  }

  lemma AddRowStep(h: Db, db: Db, ids: seq<string>, id: string)
    requires forall i | i in ids :: i in db.rows && i in db.tracking
    requires id in db.rows && id in db.tracking && id !in ids && id != "" && db.rows[id].messageId == id
    requires HoldsOnly(h, db, ids)
    ensures HoldsOnly(AddRow(h, db.rows[id], db.tracking), db, ids + [id])
  {
    RestrictStep(ids, id, db.rows);
    RestrictStep(ids, id, db.tracking);
  }

  lemma {:induction false} HydratePrefixIs(db: Db, n: nat)
    requires RowsWellFormed(db) && n <= |db.order|
    ensures HoldsOnly(HydratePrefix(Snapshot(db), n), db, db.order[..n])
  {
    if n == 0 {
      assert db.order[..0] == [];
    } else {
      HydratePrefixIs(db, n - 1);
      PrefixStep(db.order, n);
      var id := db.order[n - 1];
      assert id in db.order;
      AddRowStep(HydratePrefix(Snapshot(db), n - 1), db, db.order[..n - 1], id);
    }
  }

  lemma IndexStep(h: Db, r: Row, delivered: map<string, set<string>>, key: string)
    requires r.messageId != ""
    ensures var index := AddRow(h, r, delivered).index;
            (if key in index then Some(index[key]) else None)
            == if Indexable(r) && ClientKey(r) == key then Some(r.messageId)
              else if key in h.index then Some(h.index[key]) else None
  {}

  lemma {:induction false} HydratePrefixIndex(db: Db, n: nat, key: string)
    requires RowsWellFormed(db) && n <= |db.order|
    ensures var h := HydratePrefix(Snapshot(db), n);
            LastWithKey(db, key, n) == if key in h.index then Some(h.index[key]) else None
  {
    if n > 0 {
      HydratePrefixIndex(db, n - 1, key);
      assert db.order[n - 1] in db.order;
      IndexStep(HydratePrefix(Snapshot(db), n - 1), db.rows[db.order[n - 1]], db.tracking, key);
    }
  }

  lemma RestrictAll<V>(ids: seq<string>, m: map<string, V>)
    requires forall id :: id in ids <==> id in m
    ensures RestrictTo(ids, m) == m
  {}

  /** Rehydrating what persist wrote restores order, rows and the tracking sets of stored messages exactly. */
  lemma HydrateRestores(db: Db)
    requires RowsWellFormed(db)
    ensures var h := Hydrate(Snapshot(db));
            h.order == db.order && h.rows == db.rows && h.tracking == RestrictTo(db.order, db.tracking)
  {
    HydratePrefixIs(db, |db.order|);
    assert db.order[..|db.order|] == db.order;
    RestrictAll(db.order, db.rows);
  }

  lemma HydrateIndexIs(db: Db)
    requires RowsWellFormed(db)
    ensures var index := Hydrate(Snapshot(db)).index;
            forall k :: LastWithKey(db, k, |db.order|) == if k in index then Some(index[k]) else None
  {
    forall k {
      HydratePrefixIndex(db, |db.order|, k);
    }
  }

  predicate HasKey(db: Db, key: string, i: nat)
    requires i < |db.order| && forall id | id in db.order :: id in db.rows
  {
    Indexable(db.rows[db.order[i]]) && ClientKey(db.rows[db.order[i]]) == key
  }

  predicate IsLastWithKey(db: Db, key: string, n: nat, i: nat)
    requires i < n <= |db.order| && forall id | id in db.order :: id in db.rows
  {
    HasKey(db, key, i) && forall j | i < j < n :: !HasKey(db, key, j)
  }

  lemma {:induction false} LastWithKeyIs(db: Db, key: string, n: nat)
    requires RowsWellFormed(db) && n <= |db.order|
    ensures match LastWithKey(db, key, n)
            case None => forall i: nat | i < n :: !HasKey(db, key, i)
            case Some(id) => exists i: nat :: i < n && IsLastWithKey(db, key, n, i) && db.order[i] == id
  {
    if n > 0 {
      LastWithKeyIs(db, key, n - 1);
    }
  }

  /** A later row whose client id is white space only and whose key text equals that of a keyed row. */
  ghost predicate Shadowed(db: Db, i: nat, j: nat)
    requires RowsWellFormed(db) && i < |db.order| && j < |db.order|
  {
    && i < j
    && Keyed(db.rows[db.order[i]])
    && Indexable(db.rows[db.order[j]]) && !Keyed(db.rows[db.order[j]])
    && ClientKey(db.rows[db.order[i]]) == ClientKey(db.rows[db.order[j]])
  }

  ghost predicate IndexExact(db: Db, index: map<string, string>) {
    forall id | KeyedRow(db, id) :: ClientKey(db.rows[id]) in index && index[ClientKey(db.rows[id])] == id
  }

  lemma KeyedIsIndexable(db: Db, id: string)
    requires RowsWellFormed(db) && KeyedRow(db, id)
    ensures Indexable(db.rows[id])
  {}

  /** Rehydration gives every keyed row its own index entry exactly when no white-space row shadows it. */
  lemma HydrateIndexExactIff(db: Db)
    requires WellFormed(db)
    ensures IndexExact(db, Hydrate(Snapshot(db)).index)
            <==> !exists i: nat, j: nat :: i < |db.order| && j < |db.order| && Shadowed(db, i, j)
  {
    var n := |db.order|;
    HydrateIndexIs(db);
    forall i: nat, j: nat | i < n && j < n && Shadowed(db, i, j) ensures !IndexExact(db, Hydrate(Snapshot(db)).index) {
      ShadowHides(db, i, j);
    }
    if !exists i: nat, j: nat :: i < n && j < n && Shadowed(db, i, j) {
      forall id | KeyedRow(db, id)
        ensures LastWithKey(db, ClientKey(db.rows[id]), n) == Some(id)
      {
        UnshadowedIsLast(db, id);
      }
    }
  }

  lemma ShadowHides(db: Db, i: nat, j: nat)
    requires WellFormed(db) && i < |db.order| && j < |db.order| && Shadowed(db, i, j)
    ensures LastWithKey(db, ClientKey(db.rows[db.order[i]]), |db.order|) != Some(db.order[i])
    ensures KeyedRow(db, db.order[i])
  {
    var key := ClientKey(db.rows[db.order[i]]);
    LastWithKeyIs(db, key, |db.order|);
    assert HasKey(db, key, j);
  }

  /** A row with the key at or after the keyed row is that row itself, unless it shadows it. */
  lemma OnlyShadowsFollow(db: Db, i: nat, k: nat)
    requires RowsWellFormed(db) && KeysUnique(db) && i <= k < |db.order| && KeyedRow(db, db.order[i])
    requires HasKey(db, ClientKey(db.rows[db.order[i]]), k) && !Shadowed(db, i, k)
    ensures k == i
  {
    if i < k {
      assert KeyedRow(db, db.order[k]);
    }
  }

  lemma UnshadowedIsLast(db: Db, id: string)
    requires WellFormed(db) && KeyedRow(db, id)
    requires !exists i: nat, j: nat :: i < |db.order| && j < |db.order| && Shadowed(db, i, j)
    ensures LastWithKey(db, ClientKey(db.rows[id]), |db.order|) == Some(id)
  {
    var key, n := ClientKey(db.rows[id]), |db.order|;
    assert id in db.order;
    var i: nat :| i < n && db.order[i] == id;
    KeyedIsIndexable(db, id);
    assert HasKey(db, key, i);
    LastWithKeyIs(db, key, n);
    var k: nat :| k < n && IsLastWithKey(db, key, n, k);
    assert i <= k && !Shadowed(db, i, k);
    OnlyShadowsFollow(db, i, k);
  }

  /** Colon-free sender ids rule shadowing out. */
  lemma NoShadowWithoutColons(db: Db, i: nat, j: nat)
    requires RowsWellFormed(db) && i < |db.order| && j < |db.order|
    requires forall id | id in db.rows :: ':' !in db.rows[id].senderId
    ensures !Shadowed(db, i, j)
  {
    if Shadowed(db, i, j) {
      ClientKeyInjective(db.rows[db.order[i]], db.rows[db.order[j]]);
      assert false;
    }
  }

  /** Restart keeps every store invariant, for any sender ids. */
  lemma HydrateKeepsWellFormed(db: Db)
    requires WellFormed(db)
    ensures WellFormed(Hydrate(Snapshot(db)))
  {
    var h := Hydrate(Snapshot(db));
    var n := |db.order|;
    HydrateRestores(db);
    HydrateIndexIs(db);
    forall k | k in h.index
      ensures h.index[k] in h.rows && ClientKey(h.rows[h.index[k]]) == k && Indexable(h.rows[h.index[k]])
    {
      LastWithKeyIs(db, k, n);
      assert Some(h.index[k]) == LastWithKey(db, k, n);
    }
    forall id | KeyedRow(h, id) ensures ClientKey(h.rows[id]) in h.index {
      var key := ClientKey(h.rows[id]);
      assert id in db.order;
      var i: nat :| i < n && db.order[i] == id;
      KeyedIsIndexable(db, id);
      LastWithKeyIs(db, key, n);
      assert HasKey(db, key, i);
    }
    assert forall a :: KeyedRow(h, a) == KeyedRow(db, a);
  }

  /** After a restart every intake request gets the same answer and leaves the same rows. */
  lemma HydrateSameIntake(db: Db, data: Row, now: int)
    requires WellFormed(db)
    requires ':' !in data.senderId && forall id | id in db.rows :: ':' !in db.rows[id].senderId
    ensures var before, after := PersistMessage(db, data, now), PersistMessage(Hydrate(Snapshot(db)), data, now);
            && before.Ok? == after.Ok?
            && (before.Ok? ==> before.value.1 == after.value.1 && before.value.0.rows == after.value.0.rows
                               && before.value.0.order == after.value.0.order)
  {
    var h := Hydrate(Snapshot(db));
    HydrateRestores(db);
    HydrateKeepsWellFormed(db);
    if Keyed(data) {
      SameEntry(db, h, data);
    }
    SameAnswer(db, h, data, now);
  }

  lemma SameAnswer(db: Db, h: Db, data: Row, now: int)
    requires h.rows == db.rows && h.order == db.order
    requires Keyed(data) ==> (ClientKey(data) in db.index <==> ClientKey(data) in h.index)
    requires Keyed(data) && ClientKey(data) in db.index ==> db.index[ClientKey(data)] == h.index[ClientKey(data)]
    ensures var before, after := PersistMessage(db, data, now), PersistMessage(h, data, now);
            && before.Ok? == after.Ok?
            && (before.Ok? ==> before.value.1 == after.value.1 && before.value.0.rows == after.value.0.rows
                               && before.value.0.order == after.value.0.order)
  {}

  lemma SameEntry(db: Db, h: Db, data: Row)
    requires WellFormed(db) && WellFormed(h) && h.rows == db.rows && Keyed(data)
    requires ':' !in data.senderId && forall id | id in db.rows :: ':' !in db.rows[id].senderId
    ensures ClientKey(data) in db.index <==> ClientKey(data) in h.index
    ensures ClientKey(data) in db.index ==> db.index[ClientKey(data)] == h.index[ClientKey(data)]
  {
    var key := ClientKey(data);
    KeyedEntries(db, data);
    KeyedEntries(h, data);
    if key in db.index {
      assert KeyedRow(h, db.index[key]);
    }
    if key in h.index {
      assert KeyedRow(db, h.index[key]);
    }
  }

  /** Without colons in sender ids, a keyed request can only meet the entry of a keyed row. */
  lemma KeyedEntries(db: Db, data: Row)
    requires WellFormed(db) && Keyed(data)
    requires ':' !in data.senderId && forall id | id in db.rows :: ':' !in db.rows[id].senderId
    ensures ClientKey(data) in db.index ==> KeyedRow(db, db.index[ClientKey(data)])
  {
    var key := ClientKey(data);
    if key in db.index {
      ClientKeyInjective(data, db.rows[db.index[key]]);
    }
  }

  // ----- Deletion -----

  /** No row has two index entries, so deletion may stop at the first match. */
  lemma OneEntryPerRow(db: Db, k1: string, k2: string)
    requires IndexWellFormed(db) && k1 in db.index && k2 in db.index && db.index[k1] == db.index[k2]
    ensures k1 == k2
  {
    var id := db.index[k1];
    assert ClientKey(db.rows[id]) == k1;
    assert ClientKey(db.rows[id]) == k2;
  }

  lemma FilterDistinct(order: seq<string>, id: string)
    requires Distinct(order)
    ensures Distinct(Filter((x: string) => x != id, order))
  {
    var p := (x: string) => x != id;
    if order != [] {
      FilterDistinct(order[1..], id);
      assert forall x | x in Filter(p, order[1..]) :: x in order[1..] && x != order[0];
    }
  }

  lemma {:induction false} FilterDrops(order: seq<string>, id: string)
    ensures forall x :: x in Filter((y: string) => y != id, order) <==> x in order && x != id
  {}

  /** A deleted row is gone from the listing order, the rows, the marks and the index; every other row is as before. */
  lemma DeleteRemoves(db: Db, id: string, other: string)
    requires other != id
    ensures var d := DeleteMessage(db, id);
            && id !in d.rows && id !in d.order && id !in d.tracking && (forall k | k in d.index :: d.index[k] != id)
            && (other in d.rows <==> other in db.rows) && (other in db.rows ==> d.rows[other] == db.rows[other])
            && (other in d.order <==> other in db.order) && DeliveredTo(d, other) == DeliveredTo(db, other)
  {
    FilterDrops(db.order, id);
  }

  /** Deleting a row leaves nothing dangling, whatever a restart has done to the index. */
  lemma DeleteLeavesLive(db: Db, id: string)
    requires WellFormed(db)
    ensures var d := DeleteMessage(db, id); RowsWellFormed(d) && EntriesLive(d) && KeysUnique(d)
  {
    var d := DeleteMessage(db, id);
    FilterDistinct(db.order, id);
    forall k | k in d.index
      ensures d.index[k] in d.rows && ClientKey(d.rows[d.index[k]]) == k && Indexable(d.rows[d.index[k]])
    {
      assert k in db.index;
    }
    assert forall a | KeyedRow(d, a) :: KeyedRow(db, a);
  }

  /** A keyed row whose entry a deletion of `id` takes along: the entry names `id`, which shares its key text. */
  predicate EntryTaken(db: Db, id: string, a: string) {
    a != id && KeyedRow(db, a) && ClientKey(db.rows[a]) in db.index && db.index[ClientKey(db.rows[a])] == id
  }

  /** Deletion keeps the store invariants exactly when it takes no other keyed row's entry along. */
  lemma DeleteKeepsWellFormedIff(db: Db, id: string)
    requires WellFormed(db)
    ensures WellFormed(DeleteMessage(db, id)) <==> forall a :: !EntryTaken(db, id, a)
  {
    var d := DeleteMessage(db, id);
    DeleteLeavesLive(db, id);
    forall a | KeyedRow(db, a) && a != id
      ensures KeyedRow(d, a) && (ClientKey(d.rows[a]) !in d.index <==> EntryTaken(db, id, a)) {}
    assert forall a | KeyedRow(d, a) :: KeyedRow(db, a) && a != id;
  }

  /** Only a row with a client id of white space can take an entry along, one with the same key text. */
  lemma OnlySpacedTakes(db: Db, id: string, a: string)
    requires WellFormed(db) && EntryTaken(db, id, a)
    ensures id in db.rows && !Keyed(db.rows[id]) && Indexable(db.rows[id])
    ensures ClientKey(db.rows[id]) == ClientKey(db.rows[a])
  {
    var key := ClientKey(db.rows[a]);
    assert ClientKey(db.rows[db.index[key]]) == key;
    assert Keyed(db.rows[id]) ==> KeyedRow(db, id);
  }

  /** After a restart that is the row which comes last, in map order, among those with the key text. */
  lemma TakenAfterRestartIff(db: Db, id: string, a: string)
    requires WellFormed(db) && KeyedRow(db, a) && a != id
    ensures EntryTaken(Hydrate(Snapshot(db)), id, a) <==>
            exists j: nat ::
              j < |db.order| && db.order[j] == id && IsLastWithKey(db, ClientKey(db.rows[a]), |db.order|, j)
  {
    var key, n := ClientKey(db.rows[a]), |db.order|;
    HydrateRestores(db);
    HydrateIndexIs(db);
    LastWithKeyIs(db, key, n);
    if j: nat :| j < n && db.order[j] == id && IsLastWithKey(db, key, n, j) {
      OneLast(db, key, n, j);
    }
  }

  lemma OneLast(db: Db, key: string, n: nat, j: nat)
    requires RowsWellFormed(db) && j < n == |db.order| && IsLastWithKey(db, key, n, j)
    ensures LastWithKey(db, key, n) == Some(db.order[j])
  {
    LastWithKeyIs(db, key, n);
    var i: nat :| i < n && IsLastWithKey(db, key, n, i) && LastWithKey(db, key, n) == Some(db.order[i]);
    assert HasKey(db, key, i) && HasKey(db, key, j);
  }

  /** The damage: a repeat of a message whose entry is gone is stored a second time, and only then. */
  lemma SecondRowIff(db: Db, id: string, a: string, data: Row, now: int)
    requires WellFormed(db) && KeyedRow(db, a) && a != id
    requires data.messageId !in db.rows && data.messageId != "" && data.recipientId != "" && data.content != ""
    requires data.senderId == db.rows[a].senderId && data.clientMessageId == db.rows[a].clientMessageId
    ensures var r := PersistMessage(DeleteMessage(db, id), data, now);
            && r.Ok?
            && (data.messageId in r.value.0.rows <==> EntryTaken(db, id, a))
            && (EntryTaken(db, id, a) ==> !KeysUnique(r.value.0))
  {
    var d := DeleteMessage(db, id);
    DeleteLeavesLive(db, id);
    assert KeyedRow(d, a) && ClientKey(data) == ClientKey(db.rows[a]);
    KeyDecides(d, data, now);
    if EntryTaken(db, id, a) {
      TwoKeyed(d, a, data, now);
    }
  }

  /** A new keyed row is stored exactly when its key has no entry. */
  lemma KeyDecides(db: Db, data: Row, now: int)
    requires EntriesLive(db) && Keyed(data) && data.messageId !in db.rows
    requires data.messageId != "" && data.senderId != "" && data.recipientId != "" && data.content != ""
    ensures var r := PersistMessage(db, data, now);
            r.Ok? && (data.messageId in r.value.0.rows <==> ClientKey(data) !in db.index)
  {}

  lemma TwoKeyed(db: Db, a: string, data: Row, now: int)
    requires KeyedRow(db, a) && data.messageId !in db.rows && ClientKey(data) == ClientKey(db.rows[a]) && Keyed(data)
    requires var r := PersistMessage(db, data, now); r.Ok? && data.messageId in r.value.0.rows
    ensures !KeysUnique(PersistMessage(db, data, now).value.0)
  {
    var d := PersistMessage(db, data, now).value.0;
    assert KeyedRow(d, a) && KeyedRow(d, data.messageId);
  }

  /** While every keyed row has its own entry, deletion keeps it so. */
  lemma DeleteKeepsWellFormed(db: Db, id: string)
    requires WellFormed(db) && IndexExact(db, db.index)
    ensures var d := DeleteMessage(db, id); WellFormed(d) && IndexExact(d, d.index)
  {
    var d := DeleteMessage(db, id);
    DeleteKeepsWellFormedIff(db, id);
    forall a | KeyedRow(d, a) ensures ClientKey(d.rows[a]) in d.index && d.index[ClientKey(d.rows[a])] == a {
      assert KeyedRow(db, a);
    }
  }

  // ----- The undelivered listing -----

  lemma ByIdIsStrictOrder()
    ensures StrictOrder(ById)
  {
    forall x: Row ensures !ById(x, x) {
      LessIrreflexive(x.messageId);
    }
    forall x: Row, y: Row, z: Row | ById(x, y) && ById(y, z) ensures ById(x, z) {
      LessTransitive(x.messageId, y.messageId, z.messageId);
    }
  }

  lemma RowsTieFree(db: Db)
    requires RowsWellFormed(db)
    ensures TieFree(ById, RowsOf(db))
  {
    var s := RowsOf(db);
    forall i, j | 0 <= i < j < |s| ensures ById(s[i], s[j]) || ById(s[j], s[i]) {
      LessTotal(db.order[i], db.order[j]);
      assert db.order[i] != db.order[j];
      assert db.order[i] in db.order && db.order[j] in db.order;
    }
  }

  lemma FilterTieFree(lt: (Row, Row) -> bool, p: Row -> bool, s: seq<Row>)
    requires TieFree(lt, s)
    ensures TieFree(lt, Filter(p, s))
  {
    if s != [] {
      FilterTieFree(lt, p, s[1..]);
      forall x | x in s[1..] ensures lt(s[0], x) || lt(x, s[0]) {}
    }
  }

  /** The listing is in strictly ascending id order and holds exactly the awaiting stored rows. */
  lemma AwaitingListing(db: Db, user: string, after: string)
    requires RowsWellFormed(db)
    ensures Ascending(ById, AllAwaiting(db, user, after))
    ensures forall r :: r in AllAwaiting(db, user, after)
              <==> r.messageId in db.rows && db.rows[r.messageId] == r && Awaiting(db, user, after, r)
  {
    var p := (r: Row) => Awaiting(db, user, after, r);
    var picked := Filter(p, RowsOf(db));
    ByIdIsStrictOrder();
    RowsTieFree(db);
    FilterTieFree(ById, p, RowsOf(db));
    SortAscending(ById, picked);
    forall r ensures r in AllAwaiting(db, user, after)
              <==> r.messageId in db.rows && db.rows[r.messageId] == r && Awaiting(db, user, after, r)
    {
      SameElements(AllAwaiting(db, user, after), picked, r);
      RowsOfElements(db, r);
    }
  }

  lemma RowsOfElements(db: Db, r: Row)
    requires RowsWellFormed(db)
    ensures r in RowsOf(db) <==> r.messageId in db.rows && db.rows[r.messageId] == r
  {
    var s := RowsOf(db);
    if r in s {
      var i :| 0 <= i < |s| && s[i] == r;
      assert db.order[i] in db.order;
    }
    if r.messageId in db.rows && db.rows[r.messageId] == r {
      assert r.messageId in db.order;
      var i :| 0 <= i < |db.order| && db.order[i] == r.messageId;
      assert s[i] == r;
    }
  }
}
