/** Repeating replay from its own cursor: what it emits, when it stops, what it leaves. */
module ReplayDrain {
  import opened Wrappers
  import opened Text
  import opened Sorting
  import opened MessageStore
  import opened Services
  import opened ServiceRuns

  // ----- One call -----

  /** Nothing replay looks at changed for this message and user. */
  ghost predicate SameFor(w: World, v: World, id: string, user: string) {
    && (id in w.db.rows <==> id in v.db.rows)
    && (id in w.db.rows ==> v.db.rows[id] == w.db.rows[id])
    && DeliveredTo(w.db, id) == DeliveredTo(v.db, id)
    && BlockedInMemory(w.mem, id, user) == BlockedInMemory(v.mem, id, user)
  }

  ghost predicate IdsAscend(msgs: seq<Row>) {
    Ascending(ById, msgs)
  }

  ghost predicate AllStored(db: Db, msgs: seq<Row>) {
    forall m | m in msgs :: m.messageId in db.rows
  }

  ghost predicate HasId(msgs: seq<Row>, id: string) {
    exists m :: m in msgs && m.messageId == id
  }

  /** The payloads of the messages that pass both guards, in list order. */
  ghost function Emit(w: World, user: string, msgs: seq<Row>): seq<Payload> {
    if msgs == [] then []
    else
      Emit(w, user, msgs[..|msgs| - 1])
      + (if ReplayGuards(w, msgs[|msgs| - 1].messageId, user) then [PayloadFor(msgs[|msgs| - 1])] else [])
  }

  lemma ReplayOneLocal(w: World, user: string, msg: Row, now: int, id: string)
    requires id != msg.messageId || !ReplayGuards(w, id, user)
    ensures SameFor(w, ReplayOne(w, user, msg, now).0, id, user)
  {}

  lemma ReplayOneMarks(w: World, user: string, msg: Row, now: int)
    requires msg.messageId in w.db.rows && ReplayGuards(w, msg.messageId, user)
    ensures IsMessageDelivered(ReplayOne(w, user, msg, now).0.db, msg.messageId, user)
  {}

  /**
    A loop over distinct stored messages emits those that pass the guards at the start, marks them, and touches
    no other.
   */
  lemma {:induction false} ReplayLoopIs(w: World, user: string, msgs: seq<Row>, now: int)
    requires IdsAscend(msgs) && AllStored(w.db, msgs)
    ensures var (v, out) := ReplayLoop(w, user, msgs, now);
            && out == Emit(w, user, msgs)
            && (forall id | !HasId(msgs, id) || !ReplayGuards(w, id, user) :: SameFor(w, v, id, user))
            && (forall m | m in msgs && ReplayGuards(w, m.messageId, user) ::
               IsMessageDelivered(v.db, m.messageId, user))
  {
    if msgs != [] {
      var front, m := msgs[..|msgs| - 1], msgs[|msgs| - 1];
      assert msgs == front + [m];
      ReplayLoopIs(w, user, front, now);
      var w1 := ReplayLoop(w, user, front, now).0;
      var v := ReplayOne(w1, user, m, now).0;
      LastIdIsNew(msgs);
      assert SameFor(w, w1, m.messageId, user);
      assert m in msgs;
      forall id | !HasId(msgs, id) || !ReplayGuards(w, id, user) ensures SameFor(w, v, id, user) {
        assert HasId(front, id) ==> HasId(msgs, id);
        assert id == m.messageId ==> HasId(msgs, id);
        ReplayOneLocal(w1, user, m, now, id);
      }
      forall x | x in msgs && ReplayGuards(w, x.messageId, user) ensures IsMessageDelivered(v.db, x.messageId, user) {
        if x in front {
          assert HasId(front, x.messageId);
          ReplayOneLocal(w1, user, m, now, x.messageId);
        } else {
          ReplayOneMarks(w1, user, m, now);
        }
      }
    }
  }

  lemma LastIdIsNew(msgs: seq<Row>)
    requires IdsAscend(msgs) && msgs != []
    ensures !HasId(msgs[..|msgs| - 1], msgs[|msgs| - 1].messageId)
  {
    var front, last := msgs[..|msgs| - 1], msgs[|msgs| - 1];
    forall m | m in front ensures m.messageId != last.messageId {
      assert ById(m, last);
      LessIrreflexive(m.messageId);
    }
  }

  lemma {:induction false} AlignIsIdentity(db: Db, msgs: seq<Row>)
    requires forall m | m in msgs :: m.messageId in db.rows && db.rows[m.messageId] == m
    ensures Align(db, msgs) == msgs
  {
    if msgs != [] {
      AlignIsIdentity(db, msgs[..|msgs| - 1]);
      assert msgs[|msgs| - 1] in msgs;
      assert msgs == msgs[..|msgs| - 1] + [msgs[|msgs| - 1]];
    }
  }

  /** The fetched page: the first rows of the awaiting listing. */
  ghost function Page(w: World, user: string, after: string, limit: int): seq<Row>
    requires Inv(w)
  {
    GetUndelivered(w.db, user, after, EffectiveLimit(limit))
  }

  predicate GoodCursor(w: World, user: string, after: string, limit: int) {
    user != "" && limit >= 0 && (after == "" || after in w.db.rows)
  }

  lemma ReplayIs(w: World, user: string, after: string, limit: int, now: int)
    requires Inv(w) && GoodCursor(w, user, after, limit)
    ensures var page := Page(w, user, after, limit);
            var (v, r) := Replay(w, user, after, limit, now);
            && (v, r.value.messages) == ReplayLoop(w, user, page, now)
            && IdsAscend(page) && AllStored(w.db, page)
            && page <= AllAwaiting(w.db, user, after)
            && (page == [] ==> AllAwaiting(w.db, user, after) == [])
            && Inv(v) && Grows(w.db, v.db)
  {
    var all, page := AllAwaiting(w.db, user, after), Page(w, user, after, limit);
    AwaitingListing(w.db, user, after);
    assert page == all[..|page|];
    AlignIsIdentity(w.db, page);
    ReplayKeeps(w, user, after, limit, now);
  }

  // ----- The listing after a call -----

  /** The position of the last message that passes the guards, or -1. */
  ghost function LastEmitted(w: World, user: string, msgs: seq<Row>): (k: int)
    ensures -1 <= k < |msgs|
    ensures k >= 0 ==> ReplayGuards(w, msgs[k].messageId, user)
    ensures forall i | k < i < |msgs| :: !ReplayGuards(w, msgs[i].messageId, user)
    ensures k == -1 <==> Emit(w, user, msgs) == []
    ensures k >= 0 ==> Emit(w, user, msgs)[|Emit(w, user, msgs)| - 1] == PayloadFor(msgs[k])
  {
    if msgs == [] then -1
    else if ReplayGuards(w, msgs[|msgs| - 1].messageId, user) then |msgs| - 1
    else LastEmitted(w, user, msgs[..|msgs| - 1])
  }

  /** After a call that emitted something, what awaits above the new cursor is exactly the rest of the old listing. */
  lemma ListingAfterCall(w: World, user: string, after: string, limit: int, now: int, k: nat)
    requires Inv(w) && GoodCursor(w, user, after, limit)
    requires k == LastEmitted(w, user, Page(w, user, after, limit))
    ensures var all := AllAwaiting(w.db, user, after);
            var (v, r) := Replay(w, user, after, limit, now);
            && k < |all| && Inv(v)
            && r.value.lastMessageId == all[k].messageId
            && AllAwaiting(v.db, user, all[k].messageId) == all[k + 1..]
  {
    var all, page := AllAwaiting(w.db, user, after), Page(w, user, after, limit);
    var (v, r) := Replay(w, user, after, limit, now);
    ReplayIs(w, user, after, limit, now);
    ReplayLoopIs(w, user, page, now);
    AwaitingListing(w.db, user, after);
    assert page[k] == all[k] && all[k] in all;
    assert Awaiting(w.db, user, after, all[k]);
    RestAwaits(w, v, user, after, page, all, k);
  }

  lemma RestAwaits(w: World, v: World, user: string, after: string, page: seq<Row>, all: seq<Row>, k: nat)
    requires RowsWellFormed(w.db) && RowsWellFormed(v.db) && all == AllAwaiting(w.db, user, after)
    requires page <= all && k < |page| && IdsAscend(page)
    requires all[k].messageId != "" && Awaiting(w.db, user, after, all[k])
    requires forall i | k < i < |page| :: !ReplayGuards(w, page[i].messageId, user)
    requires forall i | !HasId(page, i) || !ReplayGuards(w, i, user) :: SameFor(w, v, i, user)
    ensures AllAwaiting(v.db, user, all[k].messageId) == all[k + 1..]
  {
    var later := AllAwaiting(v.db, user, all[k].messageId);
    AwaitingListing(w.db, user, after);
    AwaitingListing(v.db, user, all[k].messageId);
    TailAscends(ById, all, k + 1);
    ByIdIsStrictOrder();
    forall x ensures x in later <==> x in all[k + 1..] {
      TailElements(ById, all, k, x);
      RestUntouched(w, v, user, after, page, all, k, x);
    }
    AscendingUnique(ById, later, all[k + 1..]);
  }

  /** Nothing above the last emitted id was touched by the call. */
  lemma AboveUntouched(w: World, v: World, user: string, page: seq<Row>, k: nat, id: string)
    requires IdsAscend(page) && k < |page| && Less(page[k].messageId, id)
    requires forall i | k < i < |page| :: !ReplayGuards(w, page[i].messageId, user)
    requires forall i | !HasId(page, i) || !ReplayGuards(w, i, user) :: SameFor(w, v, i, user)
    ensures SameFor(w, v, id, user)
  {
    if HasId(page, id) {
      var m :| m in page && m.messageId == id;
      var i :| 0 <= i < |page| && page[i] == m;
      ByIdIsStrictOrder();
      LaterIndex(ById, page, k, i);
    }
  }

  lemma RestUntouched(w: World, v: World, user: string, after: string, page: seq<Row>, all: seq<Row>, k: nat, x: Row)
    requires page <= all && k < |page| && IdsAscend(page)
    requires all[k].messageId != "" && Awaiting(w.db, user, after, all[k])
    requires x in all <==> x.messageId in w.db.rows && w.db.rows[x.messageId] == x && Awaiting(w.db, user, after, x)
    requires forall i | k < i < |page| :: !ReplayGuards(w, page[i].messageId, user)
    requires forall i | !HasId(page, i) || !ReplayGuards(w, i, user) :: SameFor(w, v, i, user)
    ensures (x.messageId in v.db.rows && v.db.rows[x.messageId] == x && Awaiting(v.db, user, all[k].messageId, x))
            <==> x in all && ById(all[k], x)
  {
    var id := x.messageId;
    if Less(all[k].messageId, id) {
      AboveUntouched(w, v, user, page, k, id);
      if after != "" { LessTransitive(after, all[k].messageId, id); }
    }
  }

  // ----- Draining -----

  lemma CursorStored(db: Db, user: string, after: string, k: nat)
    requires RowsWellFormed(db) && k < |AllAwaiting(db, user, after)|
    ensures AllAwaiting(db, user, after)[k].messageId in db.rows
  {
    AwaitingListing(db, user, after);
    assert AllAwaiting(db, user, after)[k] in AllAwaiting(db, user, after);
  }

  /** A call that emitted something leads to a good cursor with a shorter listing above it. */
  lemma NextCall(w: World, user: string, after: string, limit: int, now: int, k: int)
    requires Inv(w) && GoodCursor(w, user, after, limit)
    requires k == LastEmitted(w, user, Page(w, user, after, limit))
    ensures var all, (v, r) := AllAwaiting(w.db, user, after), Replay(w, user, after, limit, now);
            && Inv(v) && Grows(w.db, v.db)
            && r.Ok? && r.value.messages == Emit(w, user, Page(w, user, after, limit))
            && (k >= 0 ==> k < |all| && r.value.lastMessageId == all[k].messageId
                           && GoodCursor(v, user, r.value.lastMessageId, limit)
                           && AllAwaiting(v.db, user, r.value.lastMessageId) == all[k + 1..])
  {
    ReplayIs(w, user, after, limit, now);
    ReplayLoopIs(w, user, Page(w, user, after, limit), now);
    if k >= 0 {
      ListingAfterCall(w, user, after, limit, now, k);
      CursorStored(w.db, user, after, k);
      var (v, r) := Replay(w, user, after, limit, now);
      assert RowGrows(w.db, v.db, r.value.lastMessageId);
    }
  }

  /** Call replay again from the cursor it returned until it returns nothing. */
  ghost function Drain(w: World, user: string, after: string, limit: int, now: int): (World, seq<Payload>)
    requires Inv(w) && GoodCursor(w, user, after, limit)
    decreases |AllAwaiting(w.db, user, after)|
  {
    var (v, r) := Replay(w, user, after, limit, now);
    NextCall(w, user, after, limit, now, LastEmitted(w, user, Page(w, user, after, limit)));
    if r.value.messages == [] then (v, [])
    else
      var (u, rest) := Drain(v, user, r.value.lastMessageId, limit, now);
      (u, r.value.messages + rest)
  }

  function Payloads(rows: seq<Row>): seq<Payload> {
    if rows == [] then [] else Payloads(rows[..|rows| - 1]) + [PayloadFor(rows[|rows| - 1])]
  }

  lemma PayloadsAppend(a: seq<Row>, b: seq<Row>)
    ensures Payloads(a + b) == Payloads(a) + Payloads(b)
  {
    if b == [] {
      assert a + b == a;
    } else {
      assert (a + b)[..|a + b| - 1] == a + b[..|b| - 1];
      PayloadsAppend(a, b[..|b| - 1]);
    }
  }

  /** No message awaiting above the cursor is already marked as received in memory. */
  ghost predicate NoneBlocked(w: World, user: string, after: string)
    requires RowsWellFormed(w.db)
  {
    forall m | m in AllAwaiting(w.db, user, after) :: !BlockedInMemory(w.mem, m.messageId, user)
  }

  lemma EmitAll(w: World, user: string, msgs: seq<Row>)
    requires forall m | m in msgs :: ReplayGuards(w, m.messageId, user)
    ensures Emit(w, user, msgs) == Payloads(msgs)
    ensures LastEmitted(w, user, msgs) == |msgs| - 1
  {
    if msgs != [] {
      assert msgs[|msgs| - 1] in msgs;
      EmitAll(w, user, msgs[..|msgs| - 1]);
    }
  }

  /** With nothing blocked a call emits its whole page, marks it, and blocks nothing further up. */
  lemma FullPage(w: World, user: string, after: string, limit: int, now: int)
    requires Inv(w) && GoodCursor(w, user, after, limit) && NoneBlocked(w, user, after)
    ensures var all, page := AllAwaiting(w.db, user, after), Page(w, user, after, limit);
            var v := Replay(w, user, after, limit, now).0;
            && page <= all && (page == [] ==> all == [])
            && Emit(w, user, page) == Payloads(page) && LastEmitted(w, user, page) == |page| - 1
            && (forall m | m in page :: IsMessageDelivered(v.db, m.messageId, user))
            && (page != [] ==> forall m | m in all[|page|..] :: !BlockedInMemory(v.mem, m.messageId, user))
  {
    var page := Page(w, user, after, limit);
    ReplayIs(w, user, after, limit, now);
    ReplayLoopIs(w, user, page, now);
    AwaitingListing(w.db, user, after);
    assert forall m | m in page :: m in AllAwaiting(w.db, user, after);
    EmitAll(w, user, page);
    if page != [] {
      RestUnblocked(w, Replay(w, user, after, limit, now).0, user, after, page, now);
    }
  }

  lemma MarksStay(a: Db, b: Db, user: string, msgs: seq<Row>)
    requires Grows(a, b) && AllStored(a, msgs) && forall m | m in msgs :: IsMessageDelivered(a, m.messageId, user)
    ensures forall m | m in msgs :: IsMessageDelivered(b, m.messageId, user)
  {
    forall m | m in msgs ensures IsMessageDelivered(b, m.messageId, user) {
      assert RowGrows(a, b, m.messageId);
    }
  }

  lemma PageStored(w: World, v: World, user: string, after: string, limit: int)
    requires Inv(w) && Grows(w.db, v.db)
    ensures AllStored(v.db, Page(w, user, after, limit))
  {
    var page := Page(w, user, after, limit);
    AwaitingListing(w.db, user, after);
    forall m | m in page ensures m.messageId in v.db.rows {
      assert m in AllAwaiting(w.db, user, after);
      assert RowGrows(w.db, v.db, m.messageId);
    }
  }

  /** The call that drains one page, and the drain that follows it. */
  lemma DrainStep(w: World, user: string, after: string, limit: int, now: int)
    requires Inv(w) && GoodCursor(w, user, after, limit) && NoneBlocked(w, user, after)
    ensures var all, page := AllAwaiting(w.db, user, after), Page(w, user, after, limit);
            var (v, r) := Replay(w, user, after, limit, now);
            && Inv(v) && Grows(w.db, v.db) && AllStored(v.db, page) && r.Ok? && r.value.messages == Payloads(page)
            && (forall m | m in page :: IsMessageDelivered(v.db, m.messageId, user))
            && (page == [] ==> all == [])
            && (page != [] ==>
                  && page <= all && GoodCursor(v, user, r.value.lastMessageId, limit)
                  && AllAwaiting(v.db, user, r.value.lastMessageId) == all[|page|..]
                  && NoneBlocked(v, user, r.value.lastMessageId))
  {
    var page := Page(w, user, after, limit);
    FullPage(w, user, after, limit, now);
    NextCall(w, user, after, limit, now, |page| - 1);
    PageStored(w, Replay(w, user, after, limit, now).0, user, after, limit);
  }

  lemma NoPayloads(page: seq<Row>)
    ensures Payloads(page) == [] <==> page == []
  {}

  lemma MarksJoin(a: Db, b: Db, user: string, page: seq<Row>, rest: seq<Row>, all: seq<Row>)
    requires Grows(a, b) && AllStored(a, page) && all == page + rest
    requires forall m | m in page :: IsMessageDelivered(a, m.messageId, user)
    requires forall m | m in rest :: IsMessageDelivered(b, m.messageId, user)
    ensures forall m | m in all :: IsMessageDelivered(b, m.messageId, user)
  {
    MarksStay(a, b, user, page);
  }

  /** One page and what a drain of the rest gives make up the whole. */
  lemma PageThenRest(a: Db, b: Db, c: Db, user: string, page: seq<Row>, rest: seq<Row>, all: seq<Row>)
    requires Grows(a, b) && Grows(b, c) && AllStored(b, page) && all == page + rest
    requires forall m | m in page :: IsMessageDelivered(b, m.messageId, user)
    requires forall m | m in rest :: IsMessageDelivered(c, m.messageId, user)
    ensures Grows(a, c) && Payloads(all) == Payloads(page) + Payloads(rest)
    ensures forall m | m in all :: IsMessageDelivered(c, m.messageId, user)
  {
    GrowsTransitive(a, b, c);
    MarksJoin(b, c, user, page, rest, all);
    PayloadsAppend(page, rest);
  }

  /** What a drain of some starting point amounts to. */
  ghost predicate DrainsAll(w: World, user: string, after: string, limit: int, now: int)
    requires Inv(w) && GoodCursor(w, user, after, limit)
  {
    var all := AllAwaiting(w.db, user, after);
    var (v, out) := Drain(w, user, after, limit, now);
    && out == Payloads(all) && Grows(w.db, v.db)
    && forall m | m in all :: IsMessageDelivered(v.db, m.messageId, user)
  }

  lemma DrainUnfolds(w: World, user: string, after: string, limit: int, now: int)
    requires Inv(w) && GoodCursor(w, user, after, limit)
    requires var (v, r) := Replay(w, user, after, limit, now);
             r.Ok? && r.value.messages != [] && Inv(v) && GoodCursor(v, user, r.value.lastMessageId, limit)
    ensures var (v, r) := Replay(w, user, after, limit, now);
            Drain(w, user, after, limit, now)
            == (Drain(v, user, r.value.lastMessageId, limit, now).0,
                r.value.messages + Drain(v, user, r.value.lastMessageId, limit, now).1)
  {}

  lemma DrainJoins(w: World, v: World, user: string, after: string, cursor: string, limit: int, now: int,
                   page: seq<Row>, all: seq<Row>)
    requires Inv(w) && GoodCursor(w, user, after, limit) && all == AllAwaiting(w.db, user, after)
    requires Inv(v) && GoodCursor(v, user, cursor, limit) && DrainsAll(v, user, cursor, limit, now)
    requires page <= all && AllAwaiting(v.db, user, cursor) == all[|page|..] && AllStored(v.db, page)
    requires Grows(w.db, v.db) && forall m | m in page :: IsMessageDelivered(v.db, m.messageId, user)
    requires Drain(w, user, after, limit, now)
             == (Drain(v, user, cursor, limit, now).0, Payloads(page) + Drain(v, user, cursor, limit, now).1)
    ensures DrainsAll(w, user, after, limit, now)
  {
    assert all == page + all[|page|..];
    PageThenRest(w.db, v.db, Drain(v, user, cursor, limit, now).0.db, user, page, all[|page|..], all);
  }

  /** Draining emits the whole listing once, in ascending id order, and marks all of it. */
  lemma {:induction false} DrainEmitsAll(w: World, user: string, after: string, limit: int, now: int)
    requires Inv(w) && GoodCursor(w, user, after, limit) && NoneBlocked(w, user, after)
    ensures DrainsAll(w, user, after, limit, now)
    decreases |AllAwaiting(w.db, user, after)|
  {
    var page := Page(w, user, after, limit);
    var (v, r) := Replay(w, user, after, limit, now);
    DrainStep(w, user, after, limit, now);
    if page != [] {
      NoPayloads(page);
      DrainEmitsAll(v, user, r.value.lastMessageId, limit, now);
      DrainUnfolds(w, user, after, limit, now);
      DrainJoins(w, v, user, after, r.value.lastMessageId, limit, now, page, AllAwaiting(w.db, user, after));
    }
  }

  /** The rest of the listing is not blocked either: the call did not touch it. */
  lemma RestUnblocked(w: World, v: World, user: string, after: string, page: seq<Row>, now: int)
    requires RowsWellFormed(w.db) && NoneBlocked(w, user, after) && page != []
    requires page <= AllAwaiting(w.db, user, after) && v == ReplayLoop(w, user, page, now).0
    requires IdsAscend(page) && AllStored(w.db, page)
    ensures forall m | m in AllAwaiting(w.db, user, after)[|page|..] :: !BlockedInMemory(v.mem, m.messageId, user)
  {
    var all := AllAwaiting(w.db, user, after);
    AwaitingListing(w.db, user, after);
    ReplayLoopIs(w, user, page, now);
    forall m | m in all[|page|..] ensures !BlockedInMemory(v.mem, m.messageId, user) {
      NotInPage(page, all, m);
      assert m in all;
      assert SameFor(w, v, m.messageId, user);
    }
  }

  lemma NotInPage(page: seq<Row>, all: seq<Row>, m: Row)
    requires IdsAscend(all) && page <= all && m in all[|page|..]
    ensures !HasId(page, m.messageId)
  {
    var i :| 0 <= i < |all| - |page| && all[|page|..][i] == m;
    assert all[|page| + i] == m;
    forall x | x in page ensures x.messageId != m.messageId {
      var j :| 0 <= j < |page| && page[j] == x;
      assert page[j] == all[j] && ById(all[j], all[|page| + i]);
      LessIrreflexive(x.messageId);
    }
  }

  /** A message memory takes for received is passed over for good, whatever the drain does around it. */
  lemma {:induction false} DrainSkipsBlocked(w: World, user: string, after: string, limit: int, now: int, id: string)
    requires Inv(w) && GoodCursor(w, user, after, limit) && BlockedInMemory(w.mem, id, user)
    ensures SameFor(w, Drain(w, user, after, limit, now).0, id, user)
    decreases |AllAwaiting(w.db, user, after)|
  {
    var page := Page(w, user, after, limit);
    var (v, r) := Replay(w, user, after, limit, now);
    ReplayIs(w, user, after, limit, now);
    ReplayLoopIs(w, user, page, now);
    assert SameFor(w, v, id, user);
    NextCall(w, user, after, limit, now, LastEmitted(w, user, page));
    if r.value.messages != [] {
      DrainSkipsBlocked(v, user, r.value.lastMessageId, limit, now, id);
    }
  }

  lemma {:induction false} DrainStoresNothing(w: World, user: string, after: string, limit: int, now: int)
    requires Inv(w) && GoodCursor(w, user, after, limit)
    ensures Drain(w, user, after, limit, now).0.db.rows.Keys == w.db.rows.Keys
    decreases |AllAwaiting(w.db, user, after)|
  {
    var (v, r) := Replay(w, user, after, limit, now);
    ReplayIs(w, user, after, limit, now);
    LoopStoresNothing(w, user, Page(w, user, after, limit), now);
    NextCall(w, user, after, limit, now, LastEmitted(w, user, Page(w, user, after, limit)));
    if r.value.messages != [] {
      DrainStoresNothing(v, user, r.value.lastMessageId, limit, now);
    }
  }

  lemma {:induction false} LoopStoresNothing(w: World, user: string, msgs: seq<Row>, now: int)
    ensures ReplayLoop(w, user, msgs, now).0.db.rows.Keys == w.db.rows.Keys
  {
    if msgs != [] {
      LoopStoresNothing(w, user, msgs[..|msgs| - 1], now);
    }
  }

  ghost predicate NothingAwaits(db: Db, user: string, after: string) {
    forall id | id in db.rows :: !Awaiting(db, user, after, db.rows[id])
  }

  lemma AllMarkedNothingAwaits(a: Db, b: Db, user: string, after: string)
    requires RowsWellFormed(a) && Grows(a, b) && a.rows.Keys == b.rows.Keys
    requires forall m | m in AllAwaiting(a, user, after) :: IsMessageDelivered(b, m.messageId, user)
    ensures NothingAwaits(b, user, after)
  {
    AwaitingListing(a, user, after);
    forall id | id in b.rows ensures !Awaiting(b, user, after, b.rows[id]) {
      assert id in a.rows && RowGrows(a, b, id);
      assert a.rows[id].messageId == id;
      assert a.rows[id] in AllAwaiting(a, user, after) || !Awaiting(a, user, after, a.rows[id]);
    }
  }

  /** Draining leaves nothing above the starting cursor exactly when memory blocked nothing there. */
  lemma DrainCompleteIff(w: World, user: string, after: string, limit: int, now: int)
    requires Inv(w) && GoodCursor(w, user, after, limit)
    ensures NothingAwaits(Drain(w, user, after, limit, now).0.db, user, after) <==> NoneBlocked(w, user, after)
  {
    var v := Drain(w, user, after, limit, now).0;
    if NoneBlocked(w, user, after) {
      DrainEmitsAll(w, user, after, limit, now);
      DrainStoresNothing(w, user, after, limit, now);
      AllMarkedNothingAwaits(w.db, v.db, user, after);
    } else {
      var m :| m in AllAwaiting(w.db, user, after) && BlockedInMemory(w.mem, m.messageId, user);
      BlockedStillAwaits(w, user, after, limit, now, m);
    }
  }

  lemma BlockedStillAwaits(w: World, user: string, after: string, limit: int, now: int, m: Row)
    requires Inv(w) && GoodCursor(w, user, after, limit)
    requires m in AllAwaiting(w.db, user, after) && BlockedInMemory(w.mem, m.messageId, user)
    ensures !NothingAwaits(Drain(w, user, after, limit, now).0.db, user, after)
  {
    var v := Drain(w, user, after, limit, now).0;
    AwaitingListing(w.db, user, after);
    DrainSkipsBlocked(w, user, after, limit, now, m.messageId);
    assert SameFor(w, v, m.messageId, user);
    assert Awaiting(v.db, user, after, v.db.rows[m.messageId]);
  }

  // ----- Memory never runs ahead on its own -----

  /** Durably delivered or read. */
  predicate Received(db: Db, id: string) {
    id in db.rows && IsDeliveredOrRead(db.rows[id].state)
  }

  /** Whatever memory takes for received is durably delivered or read. */
  ghost predicate NotAhead(w: World) {
    forall id, user | BlockedInMemory(w.mem, id, user) :: Received(w.db, id)
  }

  lemma NotAheadStep(w: World, v: World)
    requires NotAhead(w) && Grows(w.db, v.db)
    requires forall id, user | BlockedInMemory(v.mem, id, user) ::
               BlockedInMemory(w.mem, id, user) || Received(v.db, id)
    ensures NotAhead(v)
  {
    forall id, user | BlockedInMemory(v.mem, id, user) ensures Received(v.db, id) {
      if BlockedInMemory(w.mem, id, user) {
        assert RowGrows(w.db, v.db, id);
      }
    }
  }

  lemma {:induction false} ReplayLoopNotAhead(w: World, user: string, msgs: seq<Row>, now: int)
    requires NotAhead(w) && Inv(w) && AddressedTo(w.db, user, msgs)
    ensures NotAhead(ReplayLoop(w, user, msgs, now).0)
  {
    if msgs != [] {
      var front, m := msgs[..|msgs| - 1], msgs[|msgs| - 1];
      ReplayLoopNotAhead(w, user, front, now);
      ReplayLoopKeeps(w, user, front, now);
      var w1 := ReplayLoop(w, user, front, now).0;
      AddressedGrows(w.db, w1.db, user, [m]);
      assert m in [m];
      ReplayOneKeeps(w1, user, m, now);
      ReplayOneNotAhead(w1, user, m, now);
    }
  }

  lemma ReplayOneNotAhead(w: World, user: string, m: Row, now: int)
    requires NotAhead(w) && m.messageId in w.db.rows && Grows(w.db, ReplayOne(w, user, m, now).0.db)
    ensures NotAhead(ReplayOne(w, user, m, now).0)
  {
    var v := ReplayOne(w, user, m, now).0;
    forall id, u | BlockedInMemory(v.mem, id, u) ensures BlockedInMemory(w.mem, id, u) || Received(v.db, id) {
      if id != m.messageId {
        assert BlockedInMemory(v.mem, id, u) == BlockedInMemory(w.mem, id, u);
      }
    }
    NotAheadStep(w, v);
  }

  /** Only the records and cached states of messages already settled may say `received`. */
  ghost predicate MarksOnly(w: World, v: World, id: string) {
    forall i, user | i != id && BlockedInMemory(v.mem, i, user) :: BlockedInMemory(w.mem, i, user)
  }

  lemma SendNotAhead(w: World, sender: string, receiver: string, clientId: string, content: string,
                     freshId: string, now: int)
    requires NotAhead(w)
    ensures var v := Send(w, sender, receiver, clientId, content, freshId, now).0;
            forall id, user | BlockedInMemory(v.mem, id, user) :: BlockedInMemory(w.mem, id, user)
  {
    var (w1, r) := Accept(w, sender, receiver, clientId, content, freshId, now);
    assert w1.mem.deliveries == w.mem.deliveries && w1.mem.cache == w.mem.cache;
  }

  lemma ConfirmDeliveredNotAhead(w: World, id: string, user: string, now: int)
    ensures var v := ConfirmDelivered(w, id, user, now).0;
            v == w || (MarksOnly(w, v, id) && Received(v.db, id))
  {}

  lemma ConfirmReadNotAhead(w: World, id: string, user: string, now: int)
    ensures var v := ConfirmRead(w, id, user, now).0;
            v == w || (MarksOnly(w, v, id) && Received(v.db, id))
  {}

  lemma AttemptNotAhead(w: World, id: string, queued: bool, now: int)
    requires NotAhead(w)
    ensures var v := AttemptDelivery(w, id, queued, now);
            forall i, user | BlockedInMemory(v.mem, i, user) :: BlockedInMemory(w.mem, i, user) || Received(v.db, i)
  {}

  /** No operation but the HTTP mark-read route lets memory run ahead of the database. */
  lemma StepNotAhead(h: History, op: Op, now: int)
    requires HistoryInv(h) && NotAhead(h.w) && !op.OpMarkReadOverHttp?
    ensures NotAhead(Step(h, op, now).w)
  {
    var w, v := h.w, Step(h, op, now).w;
    StepKeeps(h, op, now);
    match op {
      case OpReplay(user, after, limit) =>
        if user != "" && (after == "" || after in w.db.rows) {
          PageAddressed(w.db, user, after, EffectiveLimit(limit));
          ReplayLoopNotAhead(w, user, Align(w.db, GetUndelivered(w.db, user, after, EffectiveLimit(limit))), now);
        }
      case OpSend(sender, receiver, clientId, content, freshId) =>
        SendNotAhead(w, sender, receiver, clientId, content, freshId, now);
        NotAheadStep(w, v);
      case OpConfirmDelivered(id, user) =>
        ConfirmDeliveredNotAhead(w, id, user, now);
        NotAheadStep(w, v);
      case OpConfirmRead(id, user) =>
        ConfirmReadNotAhead(w, id, user, now);
        NotAheadStep(w, v);
      case OpAttempt(id, queued) =>
        AttemptNotAhead(w, id, queued, now);
        NotAheadStep(w, v);
      case OpLoad(id) => LoadNotAhead(w, id);
      case OpPersistRoom(data, withRecord) => NotAheadStep(w, v);
      case _ => NotAheadStep(w, v);
    }
  }

  lemma LoadNotAhead(w: World, id: string)
    requires NotAhead(w)
    ensures NotAhead(LoadMessage(w, id))
  {
    var v := LoadMessage(w, id);
    forall i, user | BlockedInMemory(v.mem, i, user) ensures Received(v.db, i) {
      assert BlockedInMemory(w.mem, i, user) || Received(v.db, i);
    }
  }

  lemma {:induction false} RunNotAhead(ops: seq<(Op, int)>)
    requires forall i | 0 <= i < |ops| :: !ops[i].0.OpMarkReadOverHttp?
    ensures NotAhead(Execute(ops).w)
  {
    if ops != [] {
      RunNotAhead(ops[..|ops| - 1]);
      StepNotAhead(Execute(ops[..|ops| - 1]), ops[|ops| - 1].0, ops[|ops| - 1].1);
    }
  }

  /** After any run without that route, and any number of crashes, draining delivers everything that awaits. */
  lemma EveryRunDrains(ops: seq<(Op, int)>, user: string, after: string, limit: int, now: int)
    requires forall i | 0 <= i < |ops| :: !ops[i].0.OpMarkReadOverHttp?
    requires GoodCursor(Execute(ops).w, user, after, limit)
    ensures var w := Execute(ops).w;
            && NothingAwaits(Drain(w, user, after, limit, now).0.db, user, after)
            && Drain(w, user, after, limit, now).1 == Payloads(AllAwaiting(w.db, user, after))
  {
    var w := Execute(ops).w;
    RunNotAhead(ops);
    AwaitingListing(w.db, user, after);
    forall m | m in AllAwaiting(w.db, user, after) ensures !BlockedInMemory(w.mem, m.messageId, user) {
      assert Coupled(w.db, m.messageId);
      assert !Received(w.db, m.messageId);
      assert !BlockedInMemory(w.mem, m.messageId, user);
    }
    DrainEmitsAll(w, user, after, limit, now);
    DrainCompleteIff(w, user, after, limit, now);
  }
}
