/**
  Where every settled message is: returned by a replay, confirmed by its recipient, carried by a replay in
  flight, or lost to a crash. The books kept here balance along every run.
 */
module Accounts {
  import opened Wrappers
  import opened MessageStore
  import opened Services
  import opened Protocol
  import ServiceRuns

  /** The store no longer lists the message for the user: marked, or in a delivered state. */
  predicate Settled(db: Db, p: Pair) {
    p.id in db.rows && (IsMessageDelivered(db, p.id, p.user) || IsDeliveredOrRead(db.rows[p.id].state))
  }

  predicate Owns(db: Db, p: Pair) {
    p.id in db.rows && db.rows[p.id].recipientId == p.user
  }

  predicate InOut(t: ReplayTask, id: string) {
    exists x :: x in t.out && x.messageId == id
  }

  /** The head of the queue, once its first durable write is done. */
  predicate InHand(t: ReplayTask, id: string) {
    t.queue != [] && (t.stage == Updated || t.stage == Tracked) && t.queue[0].messageId == id
  }

  /** A replay of the user has settled the message and not returned yet. */
  predicate Carried(replays: map<string, ReplayTask>, p: Pair) {
    p.user in replays && (InOut(replays[p.user], p.id) || InHand(replays[p.user], p.id))
  }

  /**
    Ghost books beside the machine: the pairs a confirmation settled before any replay did, and the pairs
    that were carried when the process died.
   */
  datatype Books = Books(confirmed: iset<Pair>, lost: iset<Pair>)

  ghost function EnterConfirm(m: Machine, b: Books, t: ConfirmTask): Books {
    var p := Pair(t.user, t.id);
    if t.stage != Checked || t.id !in m.w.db.rows || p in m.emitted || Carried(m.replays, p) || p in b.lost then b
    else b.(confirmed := b.confirmed + iset{p})
  }

  ghost function Enter(m: Machine, b: Books, e: Event, n: Machine): Books {
    match e
    case EvConfirmStep(task) => if task in m.confirms then EnterConfirm(m, b, m.confirms[task]) else b
    case EvReplayUpdate(_) => b.(confirmed := iset p | p in b.confirmed && !Carried(n.replays, p))
    case EvCrash => b.(lost := b.lost + iset p: Pair | Carried(m.replays, p) && Settled(m.w.db, p))
    case _ => b
  }

  ghost function Account(events: seq<(Event, int)>): Books {
    if events == [] then Books(iset{}, iset{})
    else
      var front := events[..|events| - 1];
      Enter(Execute(front), Account(front), events[|events| - 1].0, Execute(events))
  }

  // ----- A message that is over -----

  ghost predicate Absent(t: ReplayTask, id: string) {
    !InOut(t, id) && forall r | r in t.queue :: r.messageId != id
  }

  /** Settled, with no send of it in flight or still to come, and in no replay of the user. */
  ghost predicate Over(m: Machine, p: Pair) {
    && Settled(m.w.db, p)
    && (p.id in m.w.mem.intake ==> m.w.mem.intake[p.id].state != Sending)
    && NoSend(m, p.id)
    && (p.user in m.replays ==> Absent(m.replays[p.user], p.id))
  }

  ghost predicate NoSend(m: Machine, id: string) {
    forall task | task in m.sends :: m.sends[task].message.messageId != id
  }

  lemma PersistStays(a: Db, data: Row, now: int, p: Pair)
    requires Settled(a, p) && PersistMessage(a, data, now).Ok?
    ensures Settled(PersistMessage(a, data, now).value.0, p)
  {}

  lemma UpdateStays(a: Db, id: string, s: MessageState, now: int, p: Pair)
    requires Settled(a, p) && UpdateMessageState(a, id, s, now).Ok? && (id == p.id ==> IsDeliveredOrRead(s))
    ensures Settled(UpdateMessageState(a, id, s, now).value, p)
  {}

  lemma MarkStays(a: Db, id: string, user: string, p: Pair)
    requires Settled(a, p)
    ensures Settled(MarkMessageDelivered(a, id, user), p)
  {}

  lemma AcceptOver(m: Machine, task: nat, msg: Message, now: int, p: Pair)
    requires Over(m, p) && (msg.messageId == p.id ==> AlreadySent(m.w, p.id))
    ensures Over(SendAccepted(m, task, msg, now), p)
  {
    if PersistMessage(m.w.db, RowFor(msg), now).Ok? {
      PersistStays(m.w.db, RowFor(msg), now, p);
    }
  }

  lemma SendBeginOver(m: Machine, task: nat, sender: string, receiver: string, clientId: string, content: string,
                      freshId: string, now: int, p: Pair)
    requires Over(m, p) && SendsOk(m)
    ensures Over(SendBegin(m, task, sender, receiver, clientId, content, freshId, now), p)
  {
    var (w1, r) := Accept(m.w, sender, receiver, clientId, content, freshId, now);
    if task !in m.sends && ServiceRuns.Fresh(m.w, freshId) {
      assert freshId != p.id;
      assert Over(m.(w := w1), p);
      if r.Ok? {
        AcceptOver(m.(w := w1), task, r.value.message, now, p);
      }
    }
  }

  lemma SendStampOver(m: Machine, task: nat, now: int, p: Pair)
    requires Over(m, p)
    ensures Over(SendStamp(m, task, now), p)
  {
    if task in m.sends {
      var id := m.sends[task].message.messageId;
      if UpdateMessageState(m.w.db, id, Sent, now).Ok? {
        UpdateStays(m.w.db, id, Sent, now, p);
      }
    }
  }

  lemma SendReturnOver(m: Machine, task: nat, p: Pair)
    requires Over(m, p)
    ensures Over(SendReturn(m, task), p)
  {}

  lemma ConfirmStepOver(m: Machine, task: nat, now: int, p: Pair)
    requires Over(m, p)
    ensures Over(ConfirmStep(m, task, now), p)
  {
    if task in m.confirms {
      var t := m.confirms[task];
      MarkStays(m.w.db, t.id, t.user, p);
      if UpdateMessageState(m.w.db, t.id, t.Target(), now).Ok? {
        UpdateStays(m.w.db, t.id, t.Target(), now, p);
      }
    }
  }

  lemma RoomRowOver(m: Machine, data: Row, withRecord: bool, now: int, p: Pair)
    requires Over(m, p)
    ensures Over(m.(w := ServiceRuns.PersistRoomRow(m.w, data, withRecord, now)), p)
  {
    var row := data.(isRoom := true, state := Sent);
    if PersistMessage(m.w.db, row, now).Ok? {
      PersistStays(m.w.db, row, now, p);
    }
  }

  lemma MemoryOver(m: Machine, v: World, p: Pair)
    requires Over(m, p) && v.db == m.w.db && v.mem.intake == m.w.mem.intake
    ensures Over(m.(w := v), p)
  {}

  /** A fetched page holds nothing settled. */
  lemma PageUnsettled(db: Db, user: string, after: string, limit: int, p: Pair)
    requires RowsWellFormed(db) && Settled(db, p) && p.user == user
    ensures Absent(ReplayTask(Align(db, GetUndelivered(db, user, after, limit)), Next, []), p.id)
  {
    var page := GetUndelivered(db, user, after, limit);
    NotListed(db, user, after, limit, p.id);
    PageAscends(db, user, after, limit);
    AlignSameIds(db, page);
    forall r | r in Align(db, page) ensures r.messageId != p.id {
      var i :| 0 <= i < |page| && Align(db, page)[i] == r;
      assert page[i] in page;
    }
  }

  lemma BeginOver(m: Machine, user: string, after: string, limit: int, p: Pair)
    requires RowsWellFormed(m.w.db) && Over(m, p)
    ensures Over(ReplayBegin(m, user, after, limit), p)
  {
    if p.user == user {
      PageUnsettled(m.w.db, user, after, EffectiveLimit(limit), p);
    }
  }

  /** What one segment of a replay loop may do to a message that is over: nothing. */
  lemma SegmentOver(m: Machine, n: Machine, user: string, p: Pair)
    requires Over(m, p) && Inside(m, n, user) && Settled(n.w.db, p)
    requires Absent(m.replays[user], p.id) ==> Absent(n.replays[user], p.id)
    ensures Over(n, p)
  {}

  lemma PopAbsent(t: ReplayTask, id: string, out: seq<Payload>)
    requires Absent(t, id) && t.queue != [] && (out == [] || out == [PayloadFor(t.queue[0])])
    ensures Absent(ReplayTask(t.queue[1..], Next, t.out + out), id)
  {
    assert t.queue[0] in t.queue;
    forall r | r in t.queue[1..] ensures r.messageId != id {
      assert r in t.queue;
    }
    forall x | x in t.out + out ensures x.messageId != id {
      if x !in t.out { assert x == PayloadFor(t.queue[0]); }
    }
  }

  lemma ReadOver(m: Machine, user: string, p: Pair)
    requires Inv(m) && Over(m, p)
    ensures Over(ReplayRead(m, user), p)
  {
    if At(m, user, Next) {
      ReadInside(m, user);
      if Absent(m.replays[user], p.id) { PopAbsent(m.replays[user], p.id, []); }
      SegmentOver(m, ReplayRead(m, user), user, p);
    }
  }

  lemma UpdateOver(m: Machine, user: string, now: int, p: Pair)
    requires Inv(m) && Over(m, p)
    ensures Over(ReplayUpdate(m, user, now), p)
  {
    if At(m, user, Passed) {
      var id := Head(m, user).messageId;
      UpdateInside(m, user, now);
      if id in m.w.db.rows { UpdateStays(m.w.db, id, Delivered, now, p); }
      if Absent(m.replays[user], p.id) { PopAbsent(m.replays[user], p.id, []); }
      SegmentOver(m, ReplayUpdate(m, user, now), user, p);
    }
  }

  lemma TrackOver(m: Machine, user: string, p: Pair)
    requires Inv(m) && Over(m, p)
    ensures Over(ReplayTrack(m, user), p)
  {
    if At(m, user, Updated) {
      TrackInside(m, user);
      MarkStays(m.w.db, Head(m, user).messageId, user, p);
      SegmentOver(m, ReplayTrack(m, user), user, p);
    }
  }

  lemma EmitOver(m: Machine, user: string, now: int, p: Pair)
    requires Inv(m) && Over(m, p)
    ensures Over(ReplayEmit(m, user, now), p)
  {
    if At(m, user, Tracked) {
      EmitInside(m, user, now);
      if Absent(m.replays[user], p.id) { PopAbsent(m.replays[user], p.id, [PayloadFor(Head(m, user))]); }
      SegmentOver(m, ReplayEmit(m, user, now), user, p);
    }
  }

  predicate InReplay(e: Event) {
    || e.EvReplayBegin? || e.EvReplayRead? || e.EvReplayUpdate? || e.EvReplayTrack? || e.EvReplayEmit?
    || e.EvReplayReturn? || e.EvCrash?
  }

  lemma ReturnOver(m: Machine, user: string, p: Pair)
    requires Over(m, p)
    ensures Over(ReplayReturn(m, user), p) && (p in ReplayReturn(m, user).emitted <==> p in m.emitted)
  {
    if user in m.replays && m.replays[user].queue == [] {
      var out := m.replays[user].out;
      forall i | 0 <= i < |out| ensures PairsOf(user, out)[i] != p {
        assert out[i] in out;
      }
    }
  }

  lemma CrashOver(m: Machine, p: Pair)
    requires RowsWellFormed(m.w.db) && Settled(m.w.db, p)
    ensures Over(CrashAll(m), p)
  {
    HydrateRestores(m.w.db);
    assert p.id in m.w.db.order;
  }

  lemma SegmentEventOver(m: Machine, e: Event, now: int, p: Pair)
    requires Inv(m) && Over(m, p)
    requires e.EvReplayRead? || e.EvReplayUpdate? || e.EvReplayTrack? || e.EvReplayEmit?
    ensures Over(Step(m, e, now), p)
  {
    match e {
      case EvReplayRead(user) => ReadOver(m, user, p);
      case EvReplayUpdate(user) => UpdateOver(m, user, now, p);
      case EvReplayTrack(user) => TrackOver(m, user, p);
      case EvReplayEmit(user) => EmitOver(m, user, now, p);
    }
  }

  lemma ReplayEventOver(m: Machine, e: Event, now: int, p: Pair)
    requires Inv(m) && Over(m, p) && InReplay(e) && !e.EvReplayReturn?
    ensures Over(Step(m, e, now), p)
  {
    match e {
      case EvReplayBegin(user, after, limit) => BeginOver(m, user, after, limit, p);
      case EvCrash => CrashOver(m, p);
      case _ => SegmentEventOver(m, e, now, p);
    }
  }

  lemma OtherEventOver(m: Machine, e: Event, now: int, p: Pair)
    requires SendsOk(m) && RowsWellFormed(m.w.db) && Over(m, p) && !InReplay(e)
    ensures Over(Step(m, e, now), p)
  {
    var v := Step(m, e, now).w;
    match e {
      case EvSendBegin(task, sender, receiver, clientId, content, freshId) =>
        SendBeginOver(m, task, sender, receiver, clientId, content, freshId, now, p);
      case EvSendStamp(task) => SendStampOver(m, task, now, p);
      case EvSendReturn(task) => SendReturnOver(m, task, p);
      case EvRoomRow(data, withRecord) => RoomRowOver(m, data, withRecord, now, p);
      case EvConfirmBegin(task, id, user, read) =>
      case EvConfirmStep(task) => ConfirmStepOver(m, task, now, p);
      case _ => MemoryOver(m, v, p);
    }
  }

  /** Events of sends, confirmations and the environment make one durable write at most and move no replay. */
  lemma OtherEventOutside(m: Machine, e: Event, now: int)
    requires RowsWellFormed(m.w.db) && !InReplay(e)
    ensures Outside(m, Step(m, e, now))
  {
    var n := Step(m, e, now);
    match e {
      case EvSendBegin(task, sender, receiver, clientId, content, freshId) =>
        SendBeginOutside(m, task, sender, receiver, clientId, content, freshId, now);
      case EvSendStamp(task) => SendStampOutside(m, task, now);
      case EvSendReturn(task) => SendReturnOutside(m, task);
      case EvRoomRow(data, withRecord) => RoomRowOutside(m, data, withRecord, now);
      case EvConfirmBegin(task, id, user, read) => ConfirmBeginOutside(m, task, id, user, read);
      case EvConfirmStep(task) => ConfirmStepOutside(m, task, now);
      case _ => MemoryOutside(m, n.w);
    }
  }

  lemma OnlyReturnEmits(m: Machine, e: Event, now: int)
    requires RowsWellFormed(m.w.db) && !e.EvReplayReturn?
    ensures Step(m, e, now).emitted == m.emitted
  {}

  /** What is over stays over, and is never returned again. */
  lemma OverStays(m: Machine, e: Event, now: int, p: Pair)
    requires Inv(m) && Over(m, p)
    ensures var n := Step(m, e, now); Over(n, p) && (p in n.emitted <==> p in m.emitted)
  {
    if e.EvReplayReturn? {
      ReturnOver(m, e.user, p);
    } else {
      if InReplay(e) { ReplayEventOver(m, e, now, p); } else { OtherEventOver(m, e, now, p); }
      OnlyReturnEmits(m, e, now);
    }
  }

  // ----- Whose messages they are -----

  ghost predicate Addressed(db: Db, replays: map<string, ReplayTask>) {
    forall u, r | u in replays && r in replays[u].queue :: Owns(db, Pair(u, r.messageId))
  }

  ghost predicate ConfirmsOwn(db: Db, confirms: map<nat, ConfirmTask>) {
    forall task | task in confirms :: Owns(db, Pair(confirms[task].user, confirms[task].id))
  }

  ghost predicate OwnersStay(a: Db, b: Db) {
    forall p | Owns(a, p) :: Owns(b, p)
  }

  lemma OneWriteOwners(a: Db, b: Db)
    requires OneWrite(a, b)
    ensures OwnersStay(a, b)
  {}

  lemma CrashOwners(db: Db)
    requires RowsWellFormed(db)
    ensures OwnersStay(db, Hydrate(Snapshot(db)))
  {
    HydrateRestores(db);
  }

  lemma PageAddressed(db: Db, user: string, after: string, limit: int)
    requires RowsWellFormed(db)
    ensures forall r | r in Align(db, GetUndelivered(db, user, after, limit)) :: Owns(db, Pair(user, r.messageId))
  {
    ServiceRuns.PageAddressed(db, user, after, limit);
  }

  lemma ConfirmBeginOwn(m: Machine, task: nat, id: string, user: string, read: bool)
    requires ConfirmsOwn(m.w.db, m.confirms)
    ensures ConfirmsOwn(m.w.db, ConfirmBegin(m, task, id, user, read).confirms)
  {}

  ghost predicate Owners(m: Machine) {
    Addressed(m.w.db, m.replays) && ConfirmsOwn(m.w.db, m.confirms)
  }

  lemma OwnersKept(m: Machine, n: Machine)
    requires Owners(m) && OwnersStay(m.w.db, n.w.db) && n.replays == m.replays
    requires forall task | task in n.confirms :: task in m.confirms && n.confirms[task].id == m.confirms[task].id
                                                 && n.confirms[task].user == m.confirms[task].user
    ensures Owners(n)
  {}

  ghost predicate QueuesShrink(a: map<string, ReplayTask>, b: map<string, ReplayTask>) {
    forall u, r | u in b && r in b[u].queue :: u in a && r in a[u].queue
  }

  lemma ShrinkOwners(m: Machine, n: Machine)
    requires Owners(m) && OwnersStay(m.w.db, n.w.db) && n.confirms == m.confirms && QueuesShrink(m.replays, n.replays)
    ensures Owners(n)
  {}

  lemma ReadOwners(m: Machine, user: string)
    requires Owners(m)
    ensures Owners(ReplayRead(m, user))
  {
    ShrinkOwners(m, ReplayRead(m, user));
  }

  lemma StateOwners(db: Db, id: string, s: MessageState, now: int)
    requires id in db.rows
    ensures OwnersStay(db, UpdateMessageState(db, id, s, now).value)
  {}

  lemma UpdateShrinks(m: Machine, user: string, now: int)
    ensures QueuesShrink(m.replays, ReplayUpdate(m, user, now).replays)
  {}

  lemma UpdateOwners(m: Machine, user: string, now: int)
    requires Owners(m)
    ensures Owners(ReplayUpdate(m, user, now))
  {
    UpdateShrinks(m, user, now);
    if At(m, user, Passed) && Head(m, user).messageId in m.w.db.rows {
      StateOwners(m.w.db, Head(m, user).messageId, Delivered, now);
    }
    ShrinkOwners(m, ReplayUpdate(m, user, now));
  }

  lemma TrackOwners(m: Machine, user: string)
    requires Owners(m)
    ensures Owners(ReplayTrack(m, user))
  {
    ShrinkOwners(m, ReplayTrack(m, user));
  }

  lemma EmitOwners(m: Machine, user: string, now: int)
    requires Owners(m)
    ensures Owners(ReplayEmit(m, user, now))
  {
    ShrinkOwners(m, ReplayEmit(m, user, now));
  }

  lemma SegmentEventOwners(m: Machine, e: Event, now: int)
    requires RowsWellFormed(m.w.db) && Owners(m)
    requires e.EvReplayRead? || e.EvReplayUpdate? || e.EvReplayTrack? || e.EvReplayEmit?
    ensures Owners(Step(m, e, now))
  {
    match e {
      case EvReplayRead(user) => ReadOwners(m, user);
      case EvReplayUpdate(user) => UpdateOwners(m, user, now);
      case EvReplayTrack(user) => TrackOwners(m, user);
      case EvReplayEmit(user) => EmitOwners(m, user, now);
    }
  }

  lemma BeginOwners(m: Machine, user: string, after: string, limit: int)
    requires RowsWellFormed(m.w.db) && Owners(m)
    ensures Owners(ReplayBegin(m, user, after, limit))
  {
    PageAddressed(m.w.db, user, after, EffectiveLimit(limit));
  }

  lemma ReplayEventOwners(m: Machine, e: Event, now: int)
    requires RowsWellFormed(m.w.db) && Owners(m) && InReplay(e)
    ensures Owners(Step(m, e, now))
  {
    match e {
      case EvReplayBegin(user, after, limit) => BeginOwners(m, user, after, limit);
      case EvReplayReturn(user) =>
      case EvCrash => CrashOwners(m.w.db);
      case _ => SegmentEventOwners(m, e, now);
    }
  }

  lemma ConfirmsUntouched(m: Machine, e: Event, now: int)
    requires RowsWellFormed(m.w.db) && !InReplay(e) && !e.EvConfirmBegin? && !e.EvConfirmStep?
    ensures Step(m, e, now).confirms == m.confirms
  {}

  lemma ConfirmStepOwners(m: Machine, task: nat, now: int)
    requires Owners(m)
    ensures Owners(ConfirmStep(m, task, now))
  {
    ConfirmStepOutside(m, task, now);
    OneWriteOwners(m.w.db, ConfirmStep(m, task, now).w.db);
    OwnersKept(m, ConfirmStep(m, task, now));
  }

  lemma OwnersStep(m: Machine, e: Event, now: int)
    requires RowsWellFormed(m.w.db) && Owners(m)
    ensures Owners(Step(m, e, now))
  {
    if InReplay(e) {
      ReplayEventOwners(m, e, now);
    } else if e.EvConfirmBegin? {
      ConfirmBeginOwn(m, e.task, e.id, e.user, e.read);
    } else if e.EvConfirmStep? {
      ConfirmStepOwners(m, e.task, now);
    } else {
      var n := Step(m, e, now);
      OtherEventOutside(m, e, now);
      OneWriteOwners(m.w.db, n.w.db);
      ConfirmsUntouched(m, e, now);
      OwnersKept(m, n);
    }
  }

  // ----- A message still `sending` in memory but stored has its handler in flight -----

  ghost predicate InFlight(m: Machine) {
    forall id | id in m.w.mem.intake && m.w.mem.intake[id].state == Sending && id in m.w.db.rows :: !NoSend(m, id)
  }

  lemma SameSends(m: Machine, n: Machine)
    requires InFlight(m) && NoNewSending(m, n)
    ensures InFlight(n)
  {}

  /** Adding a task, or keeping its message, hides no send. */
  lemma SendsGrow(m: Machine, n: Machine, id: string)
    requires !NoSend(m, id)
    requires forall task | task in m.sends :: task in n.sends && n.sends[task].message == m.sends[task].message
    ensures !NoSend(n, id)
  {
    var task :| task in m.sends && m.sends[task].message.messageId == id;
    assert n.sends[task].message.messageId == id;
  }

  lemma SendAcceptedInFlight(m: Machine, task: nat, msg: Message, now: int)
    requires InFlight(m) && task !in m.sends
    ensures InFlight(SendAccepted(m, task, msg, now))
  {
    var n := SendAccepted(m, task, msg, now);
    forall id | id in n.w.mem.intake && n.w.mem.intake[id].state == Sending && id in n.w.db.rows
      ensures !NoSend(n, id) {
      if id in m.w.db.rows {
        SendsGrow(m, n, id);
      } else {
        assert n.sends[task].message.messageId == id;
      }
    }
  }

  lemma SendBeginInFlight(m: Machine, task: nat, sender: string, receiver: string, clientId: string, content: string,
                          freshId: string, now: int)
    requires InFlight(m)
    ensures InFlight(SendBegin(m, task, sender, receiver, clientId, content, freshId, now))
  {
    if task !in m.sends && ServiceRuns.Fresh(m.w, freshId) {
      var (w1, r) := Accept(m.w, sender, receiver, clientId, content, freshId, now);
      var v := m.(w := w1);
      forall id | id in w1.mem.intake && w1.mem.intake[id].state == Sending && id in w1.db.rows ensures !NoSend(v, id) {
        SendsGrow(m, v, id);
      }
      if r.Ok? { SendAcceptedInFlight(v, task, r.value.message, now); }
    }
  }

  lemma SendStampInFlight(m: Machine, task: nat, now: int)
    requires InFlight(m)
    ensures InFlight(SendStamp(m, task, now))
  {
    var n := SendStamp(m, task, now);
    forall id | id in n.w.mem.intake && n.w.mem.intake[id].state == Sending && id in n.w.db.rows
      ensures !NoSend(n, id) {
      var other :| other in m.sends && m.sends[other].message.messageId == id;
      assert other in n.sends && n.sends[other].message.messageId == id;
    }
  }

  lemma SendReturnInFlight(m: Machine, task: nat)
    requires InFlight(m)
    ensures InFlight(SendReturn(m, task))
  {
    var n := SendReturn(m, task);
    forall id | id in n.w.mem.intake && n.w.mem.intake[id].state == Sending && id in n.w.db.rows
      ensures !NoSend(n, id) {
      var other :| other in m.sends && m.sends[other].message.messageId == id;
      assert other in n.sends && n.sends[other].message.messageId == id;
    }
  }

  lemma RoomRowInFlight(m: Machine, data: Row, withRecord: bool, now: int)
    requires InFlight(m) && ServiceRuns.Fresh(m.w, data.messageId)
    ensures InFlight(m.(w := ServiceRuns.PersistRoomRow(m.w, data, withRecord, now)))
  {
    var n := m.(w := ServiceRuns.PersistRoomRow(m.w, data, withRecord, now));
    forall id | id in n.w.mem.intake && n.w.mem.intake[id].state == Sending && id in n.w.db.rows
      ensures !NoSend(n, id) {
      SendsGrow(m, n, id);
    }
  }

  lemma CrashInFlight(m: Machine)
    requires RowsWellFormed(m.w.db)
    ensures InFlight(CrashAll(m))
  {}

  predicate SendEvent(e: Event) {
    e.EvSendBegin? || e.EvSendStamp? || e.EvSendReturn? || e.EvRoomRow?
  }

  ghost predicate SendsUntouched(m: Machine, n: Machine) {
    n.sends == m.sends && n.w.db.rows.Keys == m.w.db.rows.Keys && n.w.mem.intake == m.w.mem.intake
  }

  lemma UpdateSends(m: Machine, user: string, now: int)
    ensures SendsUntouched(m, ReplayUpdate(m, user, now))
  {
    if At(m, user, Passed) {
      assert UpdateMessageState(m.w.db, Head(m, user).messageId, Delivered, now).Ok? ==>
               UpdateMessageState(m.w.db, Head(m, user).messageId, Delivered, now).value.rows.Keys == m.w.db.rows.Keys;
    }
  }

  lemma EmitSends(m: Machine, user: string, now: int)
    ensures SendsUntouched(m, ReplayEmit(m, user, now))
  {}

  lemma ReplayEventSends(m: Machine, e: Event, now: int)
    requires RowsWellFormed(m.w.db) && InReplay(e) && !e.EvCrash?
    ensures SendsUntouched(m, Step(m, e, now))
  {
    match e {
      case EvReplayUpdate(user) => UpdateSends(m, user, now);
      case EvReplayEmit(user) => EmitSends(m, user, now);
      case _ =>
    }
  }

  ghost predicate NoNewSending(m: Machine, n: Machine) {
    && n.sends == m.sends && n.w.db.rows.Keys == m.w.db.rows.Keys
    && forall id | id in n.w.mem.intake && n.w.mem.intake[id].state == Sending ::
         id in m.w.mem.intake && m.w.mem.intake[id].state == Sending
  }

  lemma ConfirmStepSends(m: Machine, task: nat, now: int)
    ensures NoNewSending(m, ConfirmStep(m, task, now))
  {}

  lemma OtherEventSends(m: Machine, e: Event, now: int)
    requires RowsWellFormed(m.w.db) && !InReplay(e) && !SendEvent(e)
    ensures NoNewSending(m, Step(m, e, now))
  {
    if e.EvConfirmStep? { ConfirmStepSends(m, e.task, now); }
  }

  lemma InFlightStep(m: Machine, e: Event, now: int)
    requires RowsWellFormed(m.w.db) && InFlight(m)
    ensures InFlight(Step(m, e, now))
  {
    match e {
      case EvSendBegin(task, sender, receiver, clientId, content, freshId) =>
        SendBeginInFlight(m, task, sender, receiver, clientId, content, freshId, now);
      case EvSendStamp(task) => SendStampInFlight(m, task, now);
      case EvSendReturn(task) => SendReturnInFlight(m, task);
      case EvRoomRow(data, withRecord) =>
        if ServiceRuns.Fresh(m.w, data.messageId) { RoomRowInFlight(m, data, withRecord, now); }
      case EvCrash => CrashInFlight(m);
      case _ =>
        if InReplay(e) { ReplayEventSends(m, e, now); } else { OtherEventSends(m, e, now); }
        SameSends(m, Step(m, e, now));
    }
  }

  // ----- What a step does to what the replays carry -----

  lemma PopCarries(t: ReplayTask, id: string, out: seq<Payload>)
    requires t.queue != []
    requires if t.stage == Tracked then out == [PayloadFor(t.queue[0])] else out == [] && t.stage != Updated
    ensures var u := ReplayTask(t.queue[1..], Next, t.out + out);
            InOut(u, id) || InHand(u, id) <==> InOut(t, id) || InHand(t, id)
  {
    var u := ReplayTask(t.queue[1..], Next, t.out + out);
    if InOut(t, id) {
      var x :| x in t.out && x.messageId == id;
      assert x in u.out;
    }
    if InHand(t, id) {
      assert PayloadFor(t.queue[0]) in u.out;
    }
  }

  ghost predicate SameCarried(a: map<string, ReplayTask>, b: map<string, ReplayTask>) {
    forall p :: Carried(a, p) <==> Carried(b, p)
  }

  lemma PopSameCarried(m: Machine, user: string, out: seq<Payload>)
    requires user in m.replays && m.replays[user].queue != []
    requires var t := m.replays[user];
             if t.stage == Tracked then out == [PayloadFor(t.queue[0])] else out == [] && t.stage != Updated
    ensures SameCarried(m.replays, Pop(m, user, out).replays)
  {
    forall p ensures Carried(m.replays, p) <==> Carried(Pop(m, user, out).replays, p) {
      PopCarries(m.replays[user], p.id, out);
    }
  }

  lemma ReadCarries(m: Machine, user: string)
    ensures SameCarried(m.replays, ReplayRead(m, user).replays)
  {
    if At(m, user, Next) { PopSameCarried(m, user, []); }
  }

  lemma TrackCarries(m: Machine, user: string)
    ensures SameCarried(m.replays, ReplayTrack(m, user).replays)
  {}

  lemma EmitCarries(m: Machine, user: string, now: int)
    ensures SameCarried(m.replays, ReplayEmit(m, user, now).replays)
  {
    if At(m, user, Tracked) { PopSameCarried(m, user, [PayloadFor(Head(m, user))]); }
  }

  /** The first durable write takes the head in hand. */
  lemma UpdateCarries(m: Machine, user: string, now: int)
    ensures var n := ReplayUpdate(m, user, now);
            || (n.w.db == m.w.db && SameCarried(m.replays, n.replays))
            || (&& At(m, user, Passed)
                && UpdateMessageState(m.w.db, Head(m, user).messageId, Delivered, now) == Ok(n.w.db)
                && forall p ::
                   Carried(n.replays, p) <==> Carried(m.replays, p) || p == Pair(user, Head(m, user).messageId))
  {
    if At(m, user, Passed) { PopSameCarried(m, user, []); }
  }

  lemma ReturnCarries(m: Machine, user: string)
    ensures var n := ReplayReturn(m, user);
            && (forall p :: Carried(m.replays, p) ==> Carried(n.replays, p) || p in n.emitted)
            && (forall p :: Carried(n.replays, p) ==> Carried(m.replays, p))
            && (forall p :: p in n.emitted ==> p in m.emitted || Carried(m.replays, p))
            && (forall p :: p in m.emitted ==> p in n.emitted)
  {
    if user in m.replays && m.replays[user].queue == [] {
      var out := m.replays[user].out;
      forall x | x in out ensures Pair(user, x.messageId) in PairsOf(user, out) {
        var i :| 0 <= i < |out| && out[i] == x;
        assert PairsOf(user, out)[i] == Pair(user, x.messageId);
      }
      forall p | p in PairsOf(user, out) ensures Carried(m.replays, p) {
        var i :| 0 <= i < |out| && PairsOf(user, out)[i] == p;
        assert out[i] in out;
      }
    }
  }

  lemma BeginCarries(m: Machine, user: string, after: string, limit: int)
    requires RowsWellFormed(m.w.db)
    ensures SameCarried(m.replays, ReplayBegin(m, user, after, limit).replays)
  {}

  lemma CarriedNotReturned(m: Machine, p: Pair)
    requires TasksOk(m) && Carried(m.replays, p)
    ensures p !in m.emitted
  {
    var t := m.replays[p.user];
    assert TaskOk(m.w.db, m.emitted, p.user, t);
    if InOut(t, p.id) {
      var x :| x in t.out && x.messageId == p.id;
      var i :| 0 <= i < |t.out| && t.out[i] == x;
      assert Pair(p.user, t.out[i].messageId) == p;
    }
  }

  // ----- The accounts balance -----

  function Own(db: Db, id: string): Pair
    requires id in db.rows
  {
    Pair(db.rows[id].recipientId, id)
  }

  ghost predicate Accounted(emitted: seq<Pair>, replays: map<string, ReplayTask>, b: Books, p: Pair) {
    p in emitted || p in b.confirmed || Carried(replays, p) || p in b.lost
  }

  ghost predicate CoveredAt(m: Machine, b: Books, id: string) {
    id in m.w.db.rows && Settled(m.w.db, Own(m.w.db, id)) ==> Accounted(m.emitted, m.replays, b, Own(m.w.db, id))
  }

  ghost predicate Covered(m: Machine, b: Books) {
    forall id :: CoveredAt(m, b, id)
  }

  ghost predicate ConfirmsCovered(m: Machine, b: Books) {
    forall task | task in m.confirms && m.confirms[task].stage != Checked ::
      Accounted(m.emitted, m.replays, b, Pair(m.confirms[task].user, m.confirms[task].id))
  }

  ghost predicate Apart(m: Machine, b: Books) {
    forall p | p in b.confirmed :: p !in m.emitted && !Carried(m.replays, p) && p !in b.lost
  }

  ghost predicate Gone(m: Machine, b: Books) {
    forall p | p in b.lost :: Over(m, p) && p !in m.emitted
  }

  /** Every newly settled row is the one named. */
  ghost predicate SettlesOnly(a: Db, b: Db, q: Option<Pair>) {
    forall id | id in b.rows && Settled(b, Own(b, id)) ::
      q == Some(Own(b, id)) || (id in a.rows && Own(a, id) == Own(b, id) && Settled(a, Own(a, id)))
  }

  ghost predicate AccountsKept(m: Machine, b: Books, n: Machine, c: Books) {
    forall p | Accounted(m.emitted, m.replays, b, p) && Settled(m.w.db, p) :: Accounted(n.emitted, n.replays, c, p)
  }

  lemma CoverageKept(m: Machine, b: Books, n: Machine, c: Books, q: Option<Pair>)
    requires Covered(m, b) && SettlesOnly(m.w.db, n.w.db, q) && AccountsKept(m, b, n, c)
    requires q.Some? ==> Accounted(n.emitted, n.replays, c, q.value)
    ensures Covered(n, c)
  {
    forall id ensures CoveredAt(n, c, id) {
      assert CoveredAt(m, b, id);
    }
  }

  lemma PersistSettles(a: Db, data: Row, now: int)
    requires PersistMessage(a, data, now).Ok? && !IsDeliveredOrRead(data.state)
    ensures SettlesOnly(a, PersistMessage(a, data, now).value.0, None)
  {}

  lemma UpdateSettles(a: Db, id: string, s: MessageState, now: int)
    requires id in a.rows
    ensures SettlesOnly(a, UpdateMessageState(a, id, s, now).value,
                        if IsDeliveredOrRead(s) then Some(Own(a, id)) else None)
  {}

  lemma MarkSettles(a: Db, id: string, user: string)
    ensures SettlesOnly(a, MarkMessageDelivered(a, id, user), Some(Pair(user, id)))
  {}

  lemma CrashSettles(a: Db)
    requires RowsWellFormed(a)
    ensures SettlesOnly(a, Hydrate(Snapshot(a)), None)
  {
    HydrateRestores(a);
  }

  lemma SendAcceptedSettles(m: Machine, task: nat, msg: Message, now: int)
    ensures SettlesOnly(m.w.db, SendAccepted(m, task, msg, now).w.db, None)
  {
    if PersistMessage(m.w.db, RowFor(msg), now).Ok? {
      PersistSettles(m.w.db, RowFor(msg), now);
    }
  }

  lemma SendBeginSettles(m: Machine, task: nat, sender: string, receiver: string, clientId: string, content: string,
                         freshId: string, now: int)
    ensures SettlesOnly(m.w.db, SendBegin(m, task, sender, receiver, clientId, content, freshId, now).w.db, None)
  {
    var (w1, r) := Accept(m.w, sender, receiver, clientId, content, freshId, now);
    if r.Ok? {
      SendAcceptedSettles(m.(w := w1), task, r.value.message, now);
    }
  }

  lemma SendStampSettles(m: Machine, task: nat, now: int)
    ensures SettlesOnly(m.w.db, SendStamp(m, task, now).w.db, None)
  {
    if task in m.sends && m.sends[task].message.messageId in m.w.db.rows {
      UpdateSettles(m.w.db, m.sends[task].message.messageId, Sent, now);
    }
  }

  lemma RoomRowSettles(m: Machine, data: Row, withRecord: bool, now: int)
    ensures SettlesOnly(m.w.db, ServiceRuns.PersistRoomRow(m.w, data, withRecord, now).db, None)
  {
    var row := data.(isRoom := true, state := Sent);
    if PersistMessage(m.w.db, row, now).Ok? { PersistSettles(m.w.db, row, now); }
  }

  lemma OtherEventSettles(m: Machine, e: Event, now: int)
    requires RowsWellFormed(m.w.db) && !InReplay(e) && !e.EvConfirmStep?
    ensures SettlesOnly(m.w.db, Step(m, e, now).w.db, None)
  {
    match e {
      case EvSendBegin(task, sender, receiver, clientId, content, freshId) =>
        SendBeginSettles(m, task, sender, receiver, clientId, content, freshId, now);
      case EvSendStamp(task) => SendStampSettles(m, task, now);
      case EvRoomRow(data, withRecord) => RoomRowSettles(m, data, withRecord, now);
      case _ =>
    }
  }

  ghost predicate Balanced(m: Machine, b: Books) {
    Covered(m, b) && ConfirmsCovered(m, b) && Apart(m, b)
  }

  lemma ConfirmBeginTasks(m: Machine, task: nat, id: string, user: string, read: bool)
    ensures forall t | t in ConfirmBegin(m, task, id, user, read).confirms ::
              (t in m.confirms && ConfirmBegin(m, task, id, user, read).confirms[t] == m.confirms[t])
              || ConfirmBegin(m, task, id, user, read).confirms[t].stage == Checked
  {}

  /** Events that neither confirm nor replay leave the books alone. */
  lemma OtherEventBalanced(m: Machine, b: Books, e: Event, now: int)
    requires RowsWellFormed(m.w.db) && Balanced(m, b) && !InReplay(e) && !e.EvConfirmStep?
    ensures Balanced(Step(m, e, now), b)
  {
    var n := Step(m, e, now);
    OtherEventOutside(m, e, now);
    OtherEventSettles(m, e, now);
    if e.EvConfirmBegin? {
      ConfirmBeginTasks(m, e.task, e.id, e.user, e.read);
    } else {
      ConfirmsUntouched(m, e, now);
    }
    CoverageKept(m, b, n, b, None);
  }

  lemma ConfirmStepBalanced(m: Machine, b: Books, task: nat, now: int)
    requires Balanced(m, b) && ConfirmsOwn(m.w.db, m.confirms) && task in m.confirms
    ensures Balanced(ConfirmStep(m, task, now), EnterConfirm(m, b, m.confirms[task]))
  {
    var t := m.confirms[task];
    var n, c, p := ConfirmStep(m, task, now), EnterConfirm(m, b, t), Pair(t.user, t.id);
    assert Owns(m.w.db, p);
    match t.stage {
      case Checked =>
        UpdateSettles(m.w.db, t.id, t.Target(), now);
        CoverageKept(m, b, n, c, Some(p));
      case Written =>
        MarkSettles(m.w.db, t.id, t.user);
        CoverageKept(m, b, n, c, Some(p));
      case Marked => CoverageKept(m, b, n, c, None);
    }
  }

  /** A segment that settles at most `q`, which it carries afterwards, and drops nothing it carried. */
  lemma SegmentBalanced(m: Machine, b: Books, n: Machine, c: Books, q: Option<Pair>)
    requires Balanced(m, b) && n.emitted == m.emitted && n.confirms == m.confirms && c.lost == b.lost
    requires SettlesOnly(m.w.db, n.w.db, q) && (q.Some? ==> Carried(n.replays, q.value))
    requires forall p :: Carried(m.replays, p) ==> Carried(n.replays, p)
    requires forall p :: p in c.confirmed <==> p in b.confirmed && !Carried(n.replays, p)
    ensures Balanced(n, c)
  {
    assert AccountsKept(m, b, n, c);
    CoverageKept(m, b, n, c, q);
    assert ConfirmsCovered(n, c);
  }

  lemma ReadBalanced(m: Machine, b: Books, user: string)
    requires Balanced(m, b)
    ensures Balanced(ReplayRead(m, user), b)
  {
    ReadCarries(m, user);
    SegmentBalanced(m, b, ReplayRead(m, user), b, None);
  }

  /** The first durable write settles the head, which from then on is in hand. */
  lemma WriteBalanced(m: Machine, b: Books, n: Machine, c: Books, user: string, id: string, now: int)
    requires Balanced(m, b) && n.emitted == m.emitted && n.confirms == m.confirms && c.lost == b.lost
    requires Owns(m.w.db, Pair(user, id)) && UpdateMessageState(m.w.db, id, Delivered, now) == Ok(n.w.db)
    requires forall p :: Carried(n.replays, p) <==> Carried(m.replays, p) || p == Pair(user, id)
    requires forall p :: p in c.confirmed <==> p in b.confirmed && !Carried(n.replays, p)
    ensures Balanced(n, c)
  {
    UpdateSettles(m.w.db, id, Delivered, now);
    SegmentBalanced(m, b, n, c, Some(Pair(user, id)));
  }

  lemma UpdateBalanced(m: Machine, b: Books, user: string, now: int)
    requires Balanced(m, b) && Addressed(m.w.db, m.replays)
    ensures var n := ReplayUpdate(m, user, now);
            Balanced(n, b.(confirmed := iset p | p in b.confirmed && !Carried(n.replays, p)))
  {
    var n := ReplayUpdate(m, user, now);
    var c := b.(confirmed := iset p | p in b.confirmed && !Carried(n.replays, p));
    UpdateCarries(m, user, now);
    if n.w.db == m.w.db && SameCarried(m.replays, n.replays) {
      SegmentBalanced(m, b, n, c, None);
    } else {
      assert Head(m, user) in m.replays[user].queue && Owns(m.w.db, Pair(user, Head(m, user).messageId));
      WriteBalanced(m, b, n, c, user, Head(m, user).messageId, now);
    }
  }

  lemma TrackBalanced(m: Machine, b: Books, user: string)
    requires Balanced(m, b)
    ensures Balanced(ReplayTrack(m, user), b)
  {
    TrackCarries(m, user);
    if At(m, user, Updated) {
      MarkSettles(m.w.db, Head(m, user).messageId, user);
      SegmentBalanced(m, b, ReplayTrack(m, user), b, Some(Pair(user, Head(m, user).messageId)));
    }
  }

  lemma EmitBalanced(m: Machine, b: Books, user: string, now: int)
    requires Balanced(m, b)
    ensures Balanced(ReplayEmit(m, user, now), b)
  {
    EmitCarries(m, user, now);
    SegmentBalanced(m, b, ReplayEmit(m, user, now), b, None);
  }

  lemma BeginBalanced(m: Machine, b: Books, user: string, after: string, limit: int)
    requires RowsWellFormed(m.w.db) && Balanced(m, b)
    ensures Balanced(ReplayBegin(m, user, after, limit), b)
  {
    BeginCarries(m, user, after, limit);
    SegmentBalanced(m, b, ReplayBegin(m, user, after, limit), b, None);
  }

  lemma ReturnBalanced(m: Machine, b: Books, user: string)
    requires Balanced(m, b)
    ensures Balanced(ReplayReturn(m, user), b)
  {
    var n := ReplayReturn(m, user);
    ReturnCarries(m, user);
    assert AccountsKept(m, b, n, b);
    CoverageKept(m, b, n, b, None);
  }

  lemma CrashBalanced(m: Machine, b: Books)
    requires RowsWellFormed(m.w.db) && Balanced(m, b)
    ensures Balanced(CrashAll(m), Enter(m, b, EvCrash, CrashAll(m)))
  {
    var n, c := CrashAll(m), Enter(m, b, EvCrash, CrashAll(m));
    CrashSettles(m.w.db);
    assert AccountsKept(m, b, n, c);
    CoverageKept(m, b, n, c, None);
  }

  lemma BalancedStep(m: Machine, b: Books, e: Event, now: int)
    requires RowsWellFormed(m.w.db) && Owners(m) && Balanced(m, b)
    ensures Balanced(Step(m, e, now), Enter(m, b, e, Step(m, e, now)))
  {
    match e {
      case EvConfirmStep(task) => if task in m.confirms { ConfirmStepBalanced(m, b, task, now); }
      case EvReplayBegin(user, after, limit) => BeginBalanced(m, b, user, after, limit);
      case EvReplayRead(user) => ReadBalanced(m, b, user);
      case EvReplayUpdate(user) => UpdateBalanced(m, b, user, now);
      case EvReplayTrack(user) => TrackBalanced(m, b, user);
      case EvReplayEmit(user) => EmitBalanced(m, b, user, now);
      case EvReplayReturn(user) => ReturnBalanced(m, b, user);
      case EvCrash => CrashBalanced(m, b);
      case _ => OtherEventBalanced(m, b, e, now);
    }
  }

  lemma GoneStep(m: Machine, b: Books, e: Event, now: int)
    requires Inv(m) && Gone(m, b)
    ensures Gone(Step(m, e, now), Enter(m, b, e, Step(m, e, now)))
  {
    var n := Step(m, e, now);
    var c := Enter(m, b, e, n);
    forall p | p in c.lost ensures Over(n, p) && p !in n.emitted {
      if p in b.lost {
        OverStays(m, e, now, p);
      } else {
        CrashOver(m, p);
        CarriedNotReturned(m, p);
      }
    }
  }

  /** All that every run keeps. */
  ghost predicate BooksKept(m: Machine, b: Books) {
    Owners(m) && InFlight(m) && Balanced(m, b) && Gone(m, b)
  }

  lemma BooksStep(m: Machine, b: Books, e: Event, now: int)
    requires Inv(m) && BooksKept(m, b)
    ensures BooksKept(Step(m, e, now), Enter(m, b, e, Step(m, e, now)))
  {
    OwnersStep(m, e, now);
    InFlightStep(m, e, now);
    BalancedStep(m, b, e, now);
    GoneStep(m, b, e, now);
  }

  lemma {:induction false} EveryRunKeepsBooks(events: seq<(Event, int)>)
    ensures BooksKept(Execute(events), Account(events))
  {
    if events != [] {
      var front := events[..|events| - 1];
      var (e, now) := events[|events| - 1];
      EveryRunKeepsBooks(front);
      BooksStep(Execute(front), Account(front), e, now);
    }
  }

  /** In how many of the four places a pair is. */
  ghost function Places(m: Machine, b: Books, p: Pair): nat {
    (if p in m.emitted then 1 else 0) + (if p in b.confirmed then 1 else 0)
    + (if Carried(m.replays, p) then 1 else 0) + (if p in b.lost then 1 else 0)
  }

  /** Along every run a stored message its recipient's replays pass over is in exactly one of the four places. */
  lemma SettledInOnePlace(events: seq<(Event, int)>, p: Pair)
    ensures var m, b := Execute(events), Account(events);
            && Places(m, b, p) <= 1
            && (Owns(m.w.db, p) && Settled(m.w.db, p) ==> Places(m, b, p) == 1)
  {
    var m, b := Execute(events), Account(events);
    EveryRunKeepsBooks(events);
    if Carried(m.replays, p) { CarriedNotReturned(m, p); }
    assert CoveredAt(m, b, p.id);
  }
}
