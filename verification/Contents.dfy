/** What stored messages and replayed payloads hold while handlers interleave and the process crashes. */
module Contents {
  import opened Wrappers
  import opened Text
  import opened MessageStore
  import opened Services
  import opened Protocol
  import opened Answers
  import Accounts
  import ServiceRuns

  /** The same message, perhaps in another state. */
  predicate SameMessage(a: Row, b: Row) {
    b == a.(state := b.state, updatedAt := b.updatedAt)
  }

  ghost predicate RowsKeep(a: Db, b: Db) {
    forall id | id in a.rows :: id in b.rows && SameMessage(a.rows[id], b.rows[id])
  }

  lemma PersistRows(a: Db, data: Row, now: int)
    requires PersistMessage(a, data, now).Ok?
    ensures RowsKeep(a, PersistMessage(a, data, now).value.0)
  {}

  lemma UpdateRows(a: Db, id: string, s: MessageState, now: int)
    requires UpdateMessageState(a, id, s, now).Ok?
    ensures RowsKeep(a, UpdateMessageState(a, id, s, now).value)
  {}

  lemma OneWriteRows(a: Db, b: Db)
    requires OneWrite(a, b)
    ensures RowsKeep(a, b)
  {
    if data, now :| PersistMessage(a, data, now).Ok? && b == PersistMessage(a, data, now).value.0 {
      PersistRows(a, data, now);
    } else if id, s, now :| UpdateMessageState(a, id, s, now) == Ok(b) {
      UpdateRows(a, id, s, now);
    }
  }

  lemma CrashRows(db: Db)
    requires RowsWellFormed(db)
    ensures RowsKeep(db, Hydrate(Snapshot(db)))
  {
    HydrateRestores(db);
  }

  lemma RowsKeepTransitive(a: Db, b: Db, c: Db)
    requires RowsKeep(a, b) && RowsKeep(b, c)
    ensures RowsKeep(a, c)
  {}

  /** A stored message of the user, shown as it is stored. */
  predicate ShowsOwn(db: Db, user: string, x: Payload) {
    && x.messageId in db.rows && db.rows[x.messageId].recipientId == user
    && Shows(x, db.rows[x.messageId], user)
  }

  /** What a user's replay has fetched are stored rows of the user, what it has put out shows them. */
  ghost predicate TaskShows(db: Db, user: string, t: ReplayTask) {
    && (forall r | r in t.queue ::
          r.recipientId == user && r.messageId in db.rows && SameMessage(r, db.rows[r.messageId]))
    && (forall x | x in t.out :: ShowsOwn(db, user, x))
  }

  ghost predicate AllShow(m: Machine) {
    forall user | user in m.replays :: TaskShows(m.w.db, user, m.replays[user])
  }

  lemma TaskStillShows(a: Db, b: Db, user: string, t: ReplayTask)
    requires RowsKeep(a, b) && TaskShows(a, user, t)
    ensures TaskShows(b, user, t)
  {}

  lemma PopShows(db: Db, user: string, t: ReplayTask, out: seq<Payload>)
    requires TaskShows(db, user, t) && t.queue != []
    requires out == [] || out == [PayloadFor(t.queue[0])]
    ensures TaskShows(db, user, ReplayTask(t.queue[1..], Next, t.out + out))
  {
    assert t.queue[0] in t.queue;
    assert forall r | r in t.queue[1..] :: r in t.queue;
    forall x | x in t.out + out ensures ShowsOwn(db, user, x) {
      if x !in t.out { assert x == PayloadFor(t.queue[0]); }
    }
  }

  /** A segment of a user's replay: one write at most, and that user's task still shows. */
  lemma SegmentShows(m: Machine, n: Machine, user: string)
    requires AllShow(m) && OneWrite(m.w.db, n.w.db) && user in n.replays
      && n.replays == m.replays[user := n.replays[user]]
    requires RowsKeep(m.w.db, n.w.db) ==> TaskShows(n.w.db, user, n.replays[user])
    ensures AllShow(n)
  {
    OneWriteRows(m.w.db, n.w.db);
    forall u | u in n.replays ensures TaskShows(n.w.db, u, n.replays[u]) {
      if u != user { TaskStillShows(m.w.db, n.w.db, u, m.replays[u]); }
    }
  }

  lemma ReadShows(m: Machine, user: string)
    requires AllShow(m)
    ensures AllShow(ReplayRead(m, user))
  {
    if At(m, user, Next) {
      PopShows(m.w.db, user, m.replays[user], []);
      SegmentShows(m, ReplayRead(m, user), user);
    }
  }

  lemma UpdateShows(m: Machine, user: string, now: int)
    requires AllShow(m)
    ensures AllShow(ReplayUpdate(m, user, now))
  {
    if At(m, user, Passed) {
      var n := ReplayUpdate(m, user, now);
      if RowsKeep(m.w.db, n.w.db) {
        TaskStillShows(m.w.db, n.w.db, user, m.replays[user]);
        PopShows(n.w.db, user, m.replays[user], []);
      }
      SegmentShows(m, n, user);
    }
  }

  lemma TrackShows(m: Machine, user: string)
    requires AllShow(m)
    ensures AllShow(ReplayTrack(m, user))
  {
    if At(m, user, Updated) {
      var n := ReplayTrack(m, user);
      if RowsKeep(m.w.db, n.w.db) { TaskStillShows(m.w.db, n.w.db, user, m.replays[user]); }
      SegmentShows(m, n, user);
    }
  }

  lemma EmitShowsRow(m: Machine, user: string, now: int)
    requires AllShow(m)
    ensures AllShow(ReplayEmit(m, user, now))
  {
    if At(m, user, Tracked) {
      PopShows(m.w.db, user, m.replays[user], [PayloadFor(Head(m, user))]);
      SegmentShows(m, ReplayEmit(m, user, now), user);
    }
  }

  lemma {:induction false} AlignShows(db: Db, user: string, msgs: seq<Row>)
    requires forall r | r in msgs ::
              r.recipientId == user && r.messageId in db.rows && SameMessage(r, db.rows[r.messageId])
    ensures forall r | r in Align(db, msgs) ::
              r.recipientId == user && r.messageId in db.rows && SameMessage(r, db.rows[r.messageId])
  {
    if msgs != [] {
      assert msgs[|msgs| - 1] in msgs;
      AlignShows(db, user, msgs[..|msgs| - 1]);
    }
  }

  lemma PageShows(db: Db, user: string, after: string, limit: int)
    requires RowsWellFormed(db)
    ensures TaskShows(db, user, ReplayTask(Align(db, GetUndelivered(db, user, after, limit)), Next, []))
  {
    var page := GetUndelivered(db, user, after, limit);
    AwaitingListing(db, user, after);
    assert forall r | r in page :: r in AllAwaiting(db, user, after);
    AlignShows(db, user, page);
  }

  lemma BeginShows(m: Machine, user: string, after: string, limit: int)
    requires RowsWellFormed(m.w.db) && AllShow(m)
    ensures AllShow(ReplayBegin(m, user, after, limit))
  {
    PageShows(m.w.db, user, after, EffectiveLimit(limit));
  }

  lemma ReplayEventShows(m: Machine, e: Event, now: int)
    requires RowsWellFormed(m.w.db) && AllShow(m) && Accounts.InReplay(e)
    ensures AllShow(Step(m, e, now))
  {
    match e {
      case EvReplayBegin(user, after, limit) => BeginShows(m, user, after, limit);
      case EvReplayRead(user) => ReadShows(m, user);
      case EvReplayUpdate(user) => UpdateShows(m, user, now);
      case EvReplayTrack(user) => TrackShows(m, user);
      case EvReplayEmit(user) => EmitShowsRow(m, user, now);
      case EvReplayReturn(user) =>
      case EvCrash =>
    }
  }

  lemma StepShows(m: Machine, e: Event, now: int)
    requires RowsWellFormed(m.w.db) && AllShow(m)
    ensures AllShow(Step(m, e, now))
  {
    if Accounts.InReplay(e) {
      ReplayEventShows(m, e, now);
    } else {
      var n := Step(m, e, now);
      Accounts.OtherEventOutside(m, e, now);
      OneWriteRows(m.w.db, n.w.db);
      forall u | u in n.replays ensures TaskShows(n.w.db, u, n.replays[u]) {
        TaskStillShows(m.w.db, n.w.db, u, m.replays[u]);
      }
    }
  }

  lemma {:induction false} EveryRunShows(events: seq<(Event, int)>)
    ensures AllShow(Execute(events))
  {
    if events != [] {
      var front := events[..|events| - 1];
      EveryRunShows(front);
      StepShows(Execute(front), events[|events| - 1].0, events[|events| - 1].1);
    }
  }

  lemma ReplayUpdateRows(m: Machine, user: string, now: int)
    ensures RowsKeep(m.w.db, ReplayUpdate(m, user, now).w.db)
  {
    if At(m, user, Passed) && Head(m, user).messageId in m.w.db.rows {
      UpdateRows(m.w.db, Head(m, user).messageId, Delivered, now);
    }
  }

  lemma SameRows(a: Db, b: Db)
    requires b.rows == a.rows
    ensures RowsKeep(a, b)
  {}

  lemma SegmentEventRows(m: Machine, e: Event, now: int)
    requires RowsWellFormed(m.w.db) && (e.EvReplayUpdate? || e.EvReplayTrack? || e.EvReplayEmit?)
    ensures RowsKeep(m.w.db, Step(m, e, now).w.db)
  {
    match e {
      case EvReplayUpdate(user) => ReplayUpdateRows(m, user, now);
      case EvReplayTrack(user) => SameRows(m.w.db, ReplayTrack(m, user).w.db);
      case EvReplayEmit(user) => SameRows(m.w.db, ReplayEmit(m, user, now).w.db);
    }
  }

  lemma ReplayEventRows(m: Machine, e: Event, now: int)
    requires RowsWellFormed(m.w.db) && Accounts.InReplay(e)
    ensures RowsKeep(m.w.db, Step(m, e, now).w.db)
  {
    match e {
      case EvReplayBegin(user, after, limit) => SameRows(m.w.db, ReplayBegin(m, user, after, limit).w.db);
      case EvReplayRead(user) => SameRows(m.w.db, ReplayRead(m, user).w.db);
      case EvReplayReturn(user) => SameRows(m.w.db, ReplayReturn(m, user).w.db);
      case EvCrash => CrashRows(m.w.db);
      case _ => SegmentEventRows(m, e, now);
    }
  }

  lemma StepRows(m: Machine, e: Event, now: int)
    requires RowsWellFormed(m.w.db)
    ensures RowsKeep(m.w.db, Step(m, e, now).w.db)
  {
    if Accounts.InReplay(e) {
      ReplayEventRows(m, e, now);
    } else {
      Accounts.OtherEventOutside(m, e, now);
      OneWriteRows(m.w.db, Step(m, e, now).w.db);
    }
  }

  /** A stored message never changes but for its state, over any interleaving and any crash. */
  lemma {:induction false} MessagesNeverChange(events: seq<(Event, int)>, n: nat)
    requires n <= |events|
    ensures RowsKeep(Execute(events[..n]).w.db, Execute(events).w.db)
  {
    if n == |events| {
      assert events[..n] == events;
    } else {
      var front := events[..|events| - 1];
      var (e, now) := events[|events| - 1];
      MessagesNeverChange(front, n);
      assert front[..n] == events[..n];
      StepRows(Execute(front), e, now);
      RowsKeepTransitive(Execute(events[..n]).w.db, Execute(front).w.db, Execute(events).w.db);
    }
  }

  /** Whatever a replay has put out at any point of any run shows a stored message of its user. */
  lemma PutOutShowsStored(events: seq<(Event, int)>, user: string, x: Payload)
    requires user in Execute(events).replays && x in Execute(events).replays[user].out
    ensures ShowsOwn(Execute(events).w.db, user, x)
  {
    EveryRunShows(events);
    assert TaskShows(Execute(events).w.db, user, Execute(events).replays[user]);
  }

  // ----- From the send to the replay -----

  /** A valid send under a fresh id whose client id neither memory nor the store knows. */
  ghost predicate Unmet(m: Machine, task: nat, sender: string, receiver: string, clientId: string, content: string,
                        freshId: string)
  {
    && task !in m.sends && ServiceRuns.Fresh(m.w, freshId) && GoodRequest(sender, receiver, content)
    && !InMemory(m.w, sender, clientId)
    && (Blank(clientId) || IntakeKey(sender, clientId) !in m.w.db.index)
  }

  /** The first segment of a send that meets no earlier one stores the message as sent. */
  lemma SendBeginStores(m: Machine, task: nat, sender: string, receiver: string, clientId: string, content: string,
                        freshId: string, now: int)
    requires Unmet(m, task, sender, receiver, clientId, content, freshId)
    ensures var n := SendBegin(m, task, sender, receiver, clientId, content, freshId, now);
            && StillSent(n.w.db, freshId, sender, receiver, clientId, content, now)
            && n.w.db.rows[freshId].state == Sent && task in n.sends
  {
    NotBlankNotEmpty(sender);
    NotBlankNotEmpty(receiver);
    NotBlankNotEmpty(content);
    NotBlankNotEmpty(freshId);
    var msg := Message(freshId, sender, receiver, content, now, Sending, clientId);
    var (w1, r) := Accept(m.w, sender, receiver, clientId, content, freshId, now);
    assert r == Ok(Intake(false, msg)) && w1.db == m.w.db;
    var row := RowFor(msg).(createdAt := now, updatedAt := now);
    var p := PersistMessage(w1.db, RowFor(msg), now);
    assert p.Ok? && p.value.0.rows == m.w.db.rows[freshId := row];
  }

  /**
    However handlers interleave and the process crashes after that, what any replay puts out of it is what was
    sent.
   */
  lemma PutOutIsWhatWasSent(events: seq<(Event, int)>, n: nat, sender: string, receiver: string, clientId: string,
                            content: string, id: string, at: int, user: string, x: Payload)
    requires n <= |events| && StillSent(Execute(events[..n]).w.db, id, sender, receiver, clientId, content, at)
    requires user in Execute(events).replays && x in Execute(events).replays[user].out && x.messageId == id
    ensures x.senderId == sender && x.recipientId == receiver == user && x.content == content && x.timestamp == at
    ensures !x.isRoom
  {
    StaysSent(events, n, id, sender, receiver, clientId, content, at);
    ShownAsSent(events, sender, receiver, clientId, content, id, at, user, x);
  }

  lemma ShownAsSent(events: seq<(Event, int)>, sender: string, receiver: string, clientId: string, content: string,
                    id: string, at: int, user: string, x: Payload)
    requires StillSent(Execute(events).w.db, id, sender, receiver, clientId, content, at) && x.messageId == id
    requires user in Execute(events).replays && x in Execute(events).replays[user].out
    ensures x.senderId == sender && x.recipientId == receiver == user && x.content == content && x.timestamp == at
    ensures !x.isRoom
  {
    PutOutShowsStored(events, user, x);
  }

  lemma KeepsSent(a: Db, b: Db, id: string, sender: string, receiver: string, clientId: string, content: string,
                  at: int)
    requires StillSent(a, id, sender, receiver, clientId, content, at) && RowsKeep(a, b)
    ensures StillSent(b, id, sender, receiver, clientId, content, at)
  {}

  lemma StaysSent(events: seq<(Event, int)>, k: nat, id: string, sender: string, receiver: string, clientId: string,
                  content: string, at: int)
    requires k <= |events| && StillSent(Execute(events[..k]).w.db, id, sender, receiver, clientId, content, at)
    ensures StillSent(Execute(events).w.db, id, sender, receiver, clientId, content, at)
  {
    MessagesNeverChange(events, k);
    KeepsSent(Execute(events[..k]).w.db, Execute(events).w.db, id, sender, receiver, clientId, content, at);
  }
}
