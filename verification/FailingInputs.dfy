/** Runs from the start, and stored rows, on which the conditions proved elsewhere fail. */
module FailingInputs {
  import opened Wrappers
  import opened Sorting
  import opened MessageStore
  import opened Services
  import opened ServiceRuns
  import opened ReplayDrain
  import MongoPage
  import Text
  import ChatId
  import ReadCursor
  import Losses
  import Listings = History

  lemma ExecuteMore(ops: seq<(Op, int)>, op: Op, now: int)
    ensures Execute(ops + [(op, now)]) == Step(Execute(ops), op, now)
  {
    assert (ops + [(op, now)])[..|ops|] == ops;
  }

  lemma ExecuteFirst(op: Op, now: int)
    ensures Execute([(op, now)]) == Step(History(World(MessageStore.EMPTY, BLANK_MEMORY), {}), op, now)
  {
    assert [] + [(op, now)] == [(op, now)];
    ExecuteMore([], op, now);
  }

  // ----- Sent, acknowledged, crashed, refused -----

  lemma KeyStaysIndexed(db: Db, id: string)
    requires WellFormed(db) && KeyedRow(db, id)
    ensures var h := Hydrate(Snapshot(db));
            h.rows == db.rows && IntakeKey(db.rows[id].senderId, db.rows[id].clientMessageId) in h.index
  {
    HydrateRestores(db);
    HydrateKeepsWellFormed(db);
    assert KeyedRow(Hydrate(Snapshot(db)), id);
    assert ClientKey(db.rows[id]) == IntakeKey(db.rows[id].senderId, db.rows[id].clientMessageId);
  }

  lemma FreshAfterCrash(w: World, id: string)
    requires Inv(w) && Fresh(w, id)
    ensures Fresh(Crash(w), id)
  {
    HydrateRestores(w.db);
  }

  /** After a restart the retry of any keyed message that was stored is refused. */
  lemma RetryAfterCrashRefused(w: World, id: string, receiver: string, content: string, freshId: string, now: int)
    requires Inv(w) && KeyedRow(w.db, id) && Fresh(w, freshId)
    requires !Text.Blank(w.db.rows[id].senderId) && !Text.Blank(receiver) && w.db.rows[id].senderId != receiver
    requires !Text.Blank(content) && |content| <= MAX_CONTENT_LENGTH
    ensures var row := w.db.rows[id];
            Send(Crash(w), row.senderId, receiver, row.clientMessageId, content, freshId, now).1.Err?
  {
    var row := w.db.rows[id];
    CrashKeeps(w);
    KeyStaysIndexed(w.db, id);
    FreshAfterCrash(w, freshId);
    ResendAcknowledgedIff(Crash(w), row.senderId, receiver, row.clientMessageId, content, freshId, now);
  }

  const FIRST := OpSend("a", "b", "k", "x", "m")

  const BLANK_WORLD := World(MessageStore.EMPTY, BLANK_MEMORY)

  lemma NotBlank(c: char)
    requires !Text.IsSpace(c)
    ensures !Text.Blank([c])
  {
    assert [c][0] == c;
  }

  lemma LettersNotBlank()
    ensures !Text.Blank("a") && !Text.Blank("b") && !Text.Blank("k") && !Text.Blank("x") && !Text.Blank("m")
      && !Text.Blank("n")
  {
    NotBlank('a');
    NotBlank('b');
    NotBlank('k');
    NotBlank('x');
    NotBlank('m');
    NotBlank('n');
  }

  lemma FirstSendWrites()
    ensures var (v, r) := Send(BLANK_WORLD, "a", "b", "k", "x", "m", 0);
            && r.Ok? && r.value.messageId == "m"
            && v.db.order == ["m"] && v.db.rows == map["m" := Losses.STORED] && v.db.tracking == map["m" := {}]
            && v.mem.cache == map[] && v.mem.intake.Keys == {"m"}
            && v.mem.deliveries.records.Keys == {DeliveryKey("m", "b")}
  {
    LettersNotBlank();
    var m := Message("m", "a", "b", "x", 0, Sending, "k");
    assert Accept(BLANK_WORLD, "a", "b", "k", "x", "m", 0).1 == Ok(Intake(false, m));
    var w1 := Accept(BLANK_WORLD, "a", "b", "k", "x", "m", 0).0;
    var w2 := PersistWrite(w1, m, 0);
    assert w2.Ok? && w2.value.db.rows == map["m" := Losses.STORED];
  }

  lemma FirstSend()
    ensures var h := Execute([(FIRST, 0)]);
            && h.acked == {"m"} && h.w.db.rows == map["m" := Losses.STORED] && h.w.db.tracking == map["m" := {}]
            && Fresh(h.w, "n")
  {
    LettersNotBlank();
    ExecuteFirst(FIRST, 0);
    FirstSendWrites();
    assert Fresh(BLANK_WORLD, "m");
    assert "n" != "m";
  }

  /** The message is acknowledged; after a crash the same client id gets an error. */
  lemma AcknowledgedThenRefused()
    ensures var h := Execute([(FIRST, 0)]);
            h.acked == {"m"} && Send(Crash(h.w), "a", "b", "k", "x", "n", 1).1.Err?
  {
    FirstSend();
    LettersNotBlank();
    RetryAfterCrashRefused(Execute([(FIRST, 0)]).w, "m", "b", "x", "n", 1);
  }

  // ----- Stored, marked read over HTTP, never drained -----

  const MARKED := [(FIRST, 0), (OpMarkReadOverHttp("m", "b"), 1)]

  lemma MarkBlocks(h: History)
    requires RowsWellFormed(h.w.db)
    ensures var n := Step(h, OpMarkReadOverHttp("m", "b"), 1); n.w.db == h.w.db && BlockedInMemory(n.w.mem, "m", "b")
  {}

  lemma MarkedWorld()
    ensures var w := Execute(MARKED).w;
            && w.db.rows == map["m" := Losses.STORED] && w.db.tracking == map["m" := {}]
            && BlockedInMemory(w.mem, "m", "b")
  {
    FirstSend();
    assert MARKED == [(FIRST, 0)] + [(OpMarkReadOverHttp("m", "b"), 1)];
    ExecuteMore([(FIRST, 0)], OpMarkReadOverHttp("m", "b"), 1);
    MarkBlocks(Execute([(FIRST, 0)]));
  }

  lemma StoredAwaits(db: Db)
    requires RowsWellFormed(db) && db.rows == map["m" := Losses.STORED] && db.tracking == map["m" := {}]
    ensures Losses.STORED in AllAwaiting(db, "b", "")
  {
    AwaitingListing(db, "b", "");
  }

  /** The HTTP route marks the message read in memory; the drain then passes it over, and it still awaits. */
  lemma MarkedReadStillAwaits()
    ensures var w := Execute(MARKED).w;
            GoodCursor(w, "b", "", 10) && !NothingAwaits(Drain(w, "b", "", 10, 2).0.db, "b", "")
  {
    MarkedWorld();
    var w := Execute(MARKED).w;
    StoredAwaits(w.db);
    DrainCompleteIff(w, "b", "", 10, 2);
  }

  // ----- Two rows with one key text -----

  const KEYED := Row("m1", "a", "c", "x", 0, Sent, false, "", "", "direct:a:c", "b: ", 0, 0)
  const SPACED := Row("m2", "a:b", "c", "x", 0, Sent, false, "", "", "direct:a:b:c", " ", 0, 0)

  /** The store after both were persisted. */
  function BothStored(): Db {
    PersistMessage(PersistMessage(MessageStore.EMPTY, KEYED, 0).value.0, SPACED, 0).value.0
  }

  lemma SameKeyText()
    ensures ClientKey(KEYED) == ClientKey(SPACED) && Keyed(KEYED) && !Keyed(SPACED)
  {
    assert "a" + ":" + "b: " == "a:b" + ":" + " ";
    assert KEYED.clientMessageId[0] == 'b';
  }

  lemma BothAre()
    ensures var db := BothStored();
            WellFormed(db) && db.order == ["m1", "m2"] && db.rows == map["m1" := KEYED, "m2" := SPACED]
            && db.index == map[ClientKey(KEYED) := "m1"]
  {
    SameKeyText();
    assert WellFormed(MessageStore.EMPTY);
    PersistKeepsWellFormed(MessageStore.EMPTY, KEYED, 0);
    PersistKeepsWellFormed(PersistMessage(MessageStore.EMPTY, KEYED, 0).value.0, SPACED, 0);
    assert "m1" != "m2";
  }

  lemma IsShadowed(db: Db)
    requires RowsWellFormed(db) && db.order == ["m1", "m2"] && db.rows == map["m1" := KEYED, "m2" := SPACED]
    ensures Shadowed(db, 0, 1)
  {
    SameKeyText();
  }

  /** Exact while running, not exact after a restart: the white-space row takes the keyed row's entry. */
  lemma RestartLosesEntry()
    ensures var db := BothStored();
            RowsWellFormed(db) && IndexExact(db, db.index) && !IndexExact(db, Hydrate(Snapshot(db)).index)
  {
    BothAre();
    SameKeyText();
    IsShadowed(BothStored());
    HydrateIndexExactIff(BothStored());
  }

  const REPEATED := KEYED.(messageId := "m3")

  /** The store after the restart and the deletion of the white-space row. */
  function Deleted(): Db
    requires RowsWellFormed(BothStored())
  {
    DeleteMessage(Hydrate(Snapshot(BothStored())), "m2")
  }

  /** Deleting the white-space row after a restart drops the keyed row's entry; a repeat is stored a second time. */
  lemma DeletionStoresTwice()
    ensures RowsWellFormed(BothStored()) && "m1" in Deleted().rows && ClientKey(KEYED) !in Deleted().index
    ensures var r := PersistMessage(Deleted(), REPEATED, 1);
            && r.Ok? && "m1" in r.value.0.rows && "m3" in r.value.0.rows && r.value.0.rows["m1"] == KEYED
            && r.value.0.rows["m3"].senderId == KEYED.senderId
            && r.value.0.rows["m3"].clientMessageId == KEYED.clientMessageId && !KeysUnique(r.value.0)
  {
    BothAre();
    RestartTakes(BothStored());
    StoresTwice(Hydrate(Snapshot(BothStored())));
  }

  lemma RestartTakes(db: Db)
    requires WellFormed(db) && db.order == ["m1", "m2"] && db.rows == map["m1" := KEYED, "m2" := SPACED]
    ensures var h := Hydrate(Snapshot(db)); WellFormed(h) && h.rows == db.rows && EntryTaken(h, "m2", "m1")
  {
    HydrateRestores(db);
    HydrateKeepsWellFormed(db);
    SpacedIsLast(db);
    TakenAfterRestartIff(db, "m2", "m1");
  }

  lemma StoresTwice(h: Db)
    requires WellFormed(h) && h.rows == map["m1" := KEYED, "m2" := SPACED] && EntryTaken(h, "m2", "m1")
    ensures var d := DeleteMessage(h, "m2");
            var r := PersistMessage(d, REPEATED, 1);
            && "m1" in d.rows && ClientKey(KEYED) !in d.index
            && r.Ok? && "m1" in r.value.0.rows && "m3" in r.value.0.rows && r.value.0.rows["m1"] == KEYED
            && r.value.0.rows["m3"].senderId == KEYED.senderId
            && r.value.0.rows["m3"].clientMessageId == KEYED.clientMessageId && !KeysUnique(r.value.0)
  {
    assert "m3" != "m1" && "m3" != "m2" && "m1" != "m2";
    SecondRowIff(h, "m2", "m1", REPEATED, 1);
  }

  lemma SpacedIsLast(db: Db)
    requires RowsWellFormed(db) && db.order == ["m1", "m2"] && db.rows == map["m1" := KEYED, "m2" := SPACED]
    ensures IsLastWithKey(db, ClientKey(KEYED), 2, 1) && KeyedRow(db, "m1")
  {
    SameKeyText();
  }

  // ----- A page of settled rows -----

  const SETTLED := Row("m1", "a", "b", "x", 0, Delivered, false, "", "", "direct:a:b", "", 0, 0)
  const WAITING := Row("m2", "a", "b", "x", 0, Sent, false, "", "", "direct:a:b", "", 0, 0)

  function OneSettled(): Db {
    var first := PersistMessage(MessageStore.EMPTY, SETTLED.(state := Sent), 0).value.0;
    MongoPage.SettleOne(PersistMessage(first, WAITING, 0).value.0, "b", "m1", 0)
  }

  lemma OneSettledIs()
    ensures var db := OneSettled();
            RowsWellFormed(db) && db.rows == map["m1" := SETTLED, "m2" := WAITING]
              && db.tracking == map["m1" := {"b"}, "m2" := {}]
  {
    assert "m1" != "m2";
    var first := PersistMessage(MessageStore.EMPTY, SETTLED.(state := Sent), 0).value.0;
    assert first.rows == map["m1" := SETTLED.(state := Sent)];
    var second := PersistMessage(first, WAITING, 0).value.0;
    assert second.rows == map["m1" := SETTLED.(state := Sent), "m2" := WAITING] && second.order == ["m1", "m2"];
    assert second.tracking == map["m1" := {}, "m2" := {}];
    var third := UpdateMessageState(second, "m1", Delivered, 0).value;
    assert third.rows == map["m1" := SETTLED, "m2" := WAITING];
    assert third.tracking == map["m1" := {}, "m2" := {}] && DeliveredTo(third, "m1") == {};
    assert DeliveredTo(third, "m1") + {"b"} == {"b"};
    assert MarkMessageDelivered(third, "m1", "b").tracking == map["m1" := {"b"}, "m2" := {}];
  }

  lemma SecondAwaits(db: Db)
    requires RowsWellFormed(db) && db.rows == map["m1" := SETTLED, "m2" := WAITING]
    requires db.tracking == map["m1" := {"b"}, "m2" := {}]
    ensures WAITING in AllAwaiting(db, "b", "")
  {
    AwaitingListing(db, "b", "");
  }

  lemma Stalled(db: Db)
    requires RowsWellFormed(db) && db.rows == map["m1" := SETTLED, "m2" := WAITING]
    requires db.tracking == map["m1" := {"b"}, "m2" := {}]
    ensures MongoPage.GetUndeliveredMongo(db, "b", "", 1) == []
  {
    TwoCandidates(db);
    assert MongoPage.First([SETTLED, WAITING], 1) == [SETTLED];
    assert !MongoPage.Unsettled(db, "b", SETTLED);
    MongoPage.FilterEmptyIff((r: Row) => MongoPage.Unsettled(db, "b", r), [SETTLED]);
  }

  /** One message was received and a second one waits: a Mongo page of one is empty, and so is the whole drain. */
  lemma SettledPageStalls()
    ensures var db := OneSettled();
            && RowsWellFormed(db) && WAITING in AllAwaiting(db, "b", "")
            && MongoPage.GetUndeliveredMongo(db, "b", "", 1) == [] && MongoPage.MongoDrain(db, "b", "", 1, 0) == []
  {
    OneSettledIs();
    SecondAwaits(OneSettled());
    Stalled(OneSettled());
  }

  lemma InOrder()
    ensures Text.Less("m1", "m2")
  {
    assert "m1"[1..] == "1" && "m2"[1..] == "2";
  }

  lemma TwoCandidates(db: Db)
    requires RowsWellFormed(db) && db.rows == map["m1" := SETTLED, "m2" := WAITING]
    ensures MongoPage.Candidates(db, "b", "") == [SETTLED, WAITING]
  {
    var all := MongoPage.Candidates(db, "b", "");
    MongoPage.CandidatesListing(db, "b", "");
    ByIdIsStrictOrder();
    InOrder();
    forall r ensures r in all <==> r in [SETTLED, WAITING] {
      assert r.messageId in db.rows && db.rows[r.messageId] == r ==> r == SETTLED || r == WAITING;
    }
    AscendingUnique(ById, all, [SETTLED, WAITING]);
  }

  // ----- A room message counted as unread in the direct chat -----

  const ROOMROW := Row("r", "b", "a", "x", 5, Sent, true, "lobby", "g", "room:lobby", "", 0, 0)

  /** With no direct message at all the chat shows one unread. */
  lemma RoomRowCounted()
    ensures var db := PersistMessage(MessageStore.EMPTY, ROOMROW, 0).value.0;
            && db.rows == map["r" := ROOMROW]
            && ReadCursor.UnreadCount(db, ChatId.ToDirectChatId("a", "b"), "a", None, [ROOMROW]) == 1
  {
    var db := PersistMessage(MessageStore.EMPTY, ROOMROW, 0).value.0;
    var p := (r: Row) => ReadCursor.Unread("b", ReadCursor.LastReadTs(db, None), r);
    Listings.DirectChatParts("a", "b");
    assert p(ROOMROW);
    assert Filter(p, [ROOMROW]) == [ROOMROW] + Filter(p, []);
  }
}
