/**
  The same operations cut at every await, so that handlers of all users interleave and the process may
  die between any two durable writes. Replays of one user are serial; everything else may overlap.
 */
module Protocol {
  import opened Wrappers
  import opened Text
  import opened MessageStore
  import opened Services
  import ServiceRuns
  import Delivery

  datatype SendStage = Persisted | Stamped
  datatype SendTask = SendTask(message: Message, stage: SendStage)

  datatype ConfirmStage = Checked | Written | Marked
  datatype ConfirmTask = ConfirmTask(id: string, user: string, read: bool, stage: ConfirmStage) {
    function Target(): MessageState {
      if read then Read else Delivered
    }
  }


  /** Where the loop stands with the first message of its queue. */
  datatype ReplayStage = Next | Passed | Updated | Tracked
  datatype ReplayTask = ReplayTask(queue: seq<Row>, stage: ReplayStage, out: seq<Payload>)

  datatype Pair = Pair(user: string, id: string)

  /** `emitted` lists the pairs of all returned replay results in order; `acked` the acknowledged ids. */
  datatype Machine = Machine(
    w: World, sends: map<nat, SendTask>, confirms: map<nat, ConfirmTask>, replays: map<string, ReplayTask>,
    emitted: seq<Pair>, acked: set<string>)

  const START := Machine(World(MessageStore.EMPTY, BLANK_MEMORY), map[], map[], map[], [], {})

  // ----- Sending -----

  /** Each handler in flight has its own task number. */
  ghost function SendBegin(m: Machine, task: nat, sender: string, receiver: string, clientId: string, content: string,
                           freshId: string, now: int): Machine
  {
    if task in m.sends || !ServiceRuns.Fresh(m.w, freshId) then m
    else
      var (w1, r) := Accept(m.w, sender, receiver, clientId, content, freshId, now);
      if r.Err? || !ValidShape(r.value.message) then m.(w := w1)
      else SendAccepted(m.(w := w1), task, r.value.message, now)
  }

  /** Past intake: acknowledge at once if memory knows the message as sent, else write its row. */
  function SendAccepted(m: Machine, task: nat, msg: Message, now: int): Machine {
    if AlreadySent(m.w, msg.messageId) then m.(acked := m.acked + {msg.messageId})
    else
      match PersistMessage(m.w.db, RowFor(msg), now)
      case Err(_) => m
      case Ok((db, _)) => m.(w := m.w.(db := db), sends := m.sends[task := SendTask(msg, Persisted)])
  }

  function SendStamp(m: Machine, task: nat, now: int): Machine {
    if task !in m.sends || m.sends[task].stage != Persisted then m
    else
      var msg := m.sends[task].message;
      var k := DeliveryKey(msg.messageId, msg.recipientId);
      var w1 := SetDeliveries(m.w, Delivery.Create(m.w.mem.deliveries, k, now));
      match UpdateMessageState(w1.db, msg.messageId, Sent, now)
      case Err(_) => m.(w := w1, sends := m.sends - {task})
      case Ok(db) => m.(w := w1.(db := db), sends := m.sends[task := SendTask(msg, Stamped)])
  }

  function SendReturn(m: Machine, task: nat): Machine {
    if task !in m.sends || m.sends[task].stage != Stamped then m
    else
      var intake, msg := m.w.mem.intake, m.sends[task].message;
      var stored := if msg.messageId in intake then intake[msg.messageId] else msg;
      m.(w := m.w.(mem := m.w.mem.(intake := intake[msg.messageId := stored.(state := Sent)])),
         sends := m.sends - {task}, acked := m.acked + {msg.messageId})
  }

  // ----- Confirming -----

  function ConfirmBegin(m: Machine, task: nat, id: string, user: string, read: bool): Machine {
    var early := if read then ReadEarly(m.w, id, user) else DeliveredEarly(m.w, id, user);
    if task in m.confirms || early.Some? then m
    else m.(confirms := m.confirms[task := ConfirmTask(id, user, read, Checked)])
  }

  function ConfirmStep(m: Machine, task: nat, now: int): Machine {
    if task !in m.confirms then m
    else
      var t := m.confirms[task];
      match t.stage
      case Checked =>
        (match UpdateMessageState(m.w.db, t.id, t.Target(), now)
         case Err(_) => m.(confirms := m.confirms - {task})
         case Ok(db) => m.(w := m.w.(db := db), confirms := m.confirms[task := t.(stage := Written)]))
      case Written =>
        m.(w := m.w.(db := MarkMessageDelivered(m.w.db, t.id, t.user)),
          confirms := m.confirms[task := t.(stage := Marked)])
      case Marked =>
        var k, d := DeliveryKey(t.id, t.user), m.w.mem.deliveries;
        var (d1, outcome) := Delivery.Transition(d, k, if t.read then Delivery.READ else Delivery.DELIVERED, now);
        var d2 := if t.read && outcome != Delivery.Done then Delivery.ForceRead(d1, k, now) else d1;
        m.(w := AdvanceIntake(SetDeliveries(m.w, d2), t.id, t.Target()), confirms := m.confirms - {task})
  }

  // ----- Replaying -----

  function ReplayBegin(m: Machine, user: string, after: string, limit: int): Machine
    requires RowsWellFormed(m.w.db)
  {
    if user == "" || user in m.replays || (after != "" && after !in m.w.db.rows) then m
    else
      var page := Align(m.w.db, GetUndelivered(m.w.db, user, after, EffectiveLimit(limit)));
      m.(replays := m.replays[user := ReplayTask(page, Next, [])])
  }

  predicate At(m: Machine, user: string, stage: ReplayStage) {
    user in m.replays && m.replays[user].queue != [] && m.replays[user].stage == stage
  }

  function Head(m: Machine, user: string): Row
    requires user in m.replays && m.replays[user].queue != []
  {
    m.replays[user].queue[0]
  }

  function SetStage(m: Machine, user: string, stage: ReplayStage): Machine
    requires user in m.replays
  {
    m.(replays := m.replays[user := m.replays[user].(stage := stage)])
  }

  function Pop(m: Machine, user: string, out: seq<Payload>): Machine
    requires user in m.replays && m.replays[user].queue != []
  {
    m.(replays := m.replays[user := ReplayTask(m.replays[user].queue[1..], Next, m.replays[user].out + out)])
  }

  /** First guards: the delivery record, then the tracking set in the database. */
  function ReplayRead(m: Machine, user: string): Machine {
    if !At(m, user, Next) then m
    else
      var id := Head(m, user).messageId;
      if !Delivery.IsPendingReplay(m.w.mem.deliveries, DeliveryKey(id, user)) || IsMessageDelivered(m.w.db, id, user)
      then Pop(m, user, [])
      else SetStage(m, user, Passed)
  }

  /** Memory guard, memory sync, and the first durable write. */
  function ReplayUpdate(m: Machine, user: string, now: int): Machine {
    if !At(m, user, Passed) then m
    else
      var msg := Head(m, user);
      var id := msg.messageId;
      if id in m.w.mem.cache && IsDeliveredOrRead(m.w.mem.cache[id]) then Pop(m, user, [])
      else
        var w1 := SyncMemory(m.w, msg);
        match UpdateMessageState(w1.db, id, Delivered, now)
        case Err(_) =>
          var d := Delivery.RecordFailure(w1.mem.deliveries, DeliveryKey(id, user), Delivery.OTHER);
          Pop(m.(w := SetDeliveries(w1, d)), user, [])
        case Ok(db) => SetStage(m.(w := w1.(db := db)), user, Updated)
  }

  function ReplayTrack(m: Machine, user: string): Machine {
    if !At(m, user, Updated) then m
    else SetStage(m.(w := m.w.(db := MarkMessageDelivered(m.w.db, Head(m, user).messageId, user))), user, Tracked)
  }

  function ReplayEmit(m: Machine, user: string, now: int): Machine {
    if !At(m, user, Tracked) then m
    else
      var msg := Head(m, user);
      var id := msg.messageId;
      var d := Delivery.Transition(m.w.mem.deliveries, DeliveryKey(id, user), Delivery.DELIVERED, now).0;
      var w1 := SetDeliveries(m.w, d);
      Pop(m.(w := if id in w1.mem.cache then SetCache(w1, id, Delivered) else w1), user, [PayloadFor(msg)])
  }

  function PairsOf(user: string, out: seq<Payload>): seq<Pair> {
    seq(|out|, i requires 0 <= i < |out| => Pair(user, out[i].messageId))
  }

  function ReplayReturn(m: Machine, user: string): Machine {
    if user !in m.replays || m.replays[user].queue != [] then m
    else m.(replays := m.replays - {user}, emitted := m.emitted + PairsOf(user, m.replays[user].out))
  }

  // ----- Crash and the whole step relation -----

  function CrashAll(m: Machine): Machine
    requires RowsWellFormed(m.w.db)
  {
    Machine(Crash(m.w), map[], map[], map[], m.emitted, m.acked)
  }

  datatype Event =
    | EvSendBegin(task: nat, sender: string, receiver: string, clientId: string, content: string, freshId: string)
    | EvSendStamp(task: nat)
    | EvSendReturn(task: nat)
    | EvRoomRow(data: Row, withRecord: bool)
    | EvConfirmBegin(task: nat, id: string, user: string, read: bool)
    | EvConfirmStep(task: nat)
    | EvReplayBegin(user: string, after: string, limit: int)
    | EvReplayRead(user: string)
    | EvReplayUpdate(user: string)
    | EvReplayTrack(user: string)
    | EvReplayEmit(user: string)
    | EvReplayReturn(user: string)
    | EvAttempt(id: string, queued: bool)
    | EvTimer(k: Delivery.Key)
    | EvDisconnect(user: string)
    | EvMarkReadOverHttp(id: string, user: string)
    | EvCrash

  ghost function Step(m: Machine, e: Event, now: int): Machine
    requires RowsWellFormed(m.w.db)
  {
    match e
    case EvSendBegin(task, sender, receiver, clientId, content, freshId) =>
      SendBegin(m, task, sender, receiver, clientId, content, freshId, now)
    case EvSendStamp(task) => SendStamp(m, task, now)
    case EvSendReturn(task) => SendReturn(m, task)
    case EvRoomRow(data, withRecord) =>
      if ServiceRuns.Fresh(m.w, data.messageId) then m.(w := ServiceRuns.PersistRoomRow(m.w, data, withRecord, now))
        else m
    case EvConfirmBegin(task, id, user, read) => ConfirmBegin(m, task, id, user, read)
    case EvConfirmStep(task) => ConfirmStep(m, task, now)
    case EvReplayBegin(user, after, limit) => ReplayBegin(m, user, after, limit)
    case EvReplayRead(user) => ReplayRead(m, user)
    case EvReplayUpdate(user) => ReplayUpdate(m, user, now)
    case EvReplayTrack(user) => ReplayTrack(m, user)
    case EvReplayEmit(user) => ReplayEmit(m, user, now)
    case EvReplayReturn(user) => ReplayReturn(m, user)
    case EvAttempt(id, queued) => m.(w := AttemptDelivery(m.w, id, queued, now))
    case EvTimer(k) => m.(w := SetDeliveries(m.w, Delivery.TimerFires(m.w.mem.deliveries, k)))
    case EvDisconnect(user) => m.(w := SetDeliveries(m.w, Delivery.Disconnect(m.w.mem.deliveries, user)))
    case EvMarkReadOverHttp(id, user) =>
      m.(w := SetDeliveries(m.w, Delivery.ForceRead(m.w.mem.deliveries, DeliveryKey(id, user), now)))
    case EvCrash => CrashAll(m)
  }

  // ----- The invariant -----

  /** What every step, crashes included, leaves of the database: rows stay and marks stay. */
  ghost predicate Keeps(a: Db, b: Db) {
    forall id | id in a.rows :: id in b.rows && DeliveredTo(a, id) <= DeliveredTo(b, id)
  }

  predicate Done(db: Db, p: Pair) {
    p.id in db.rows && IsMessageDelivered(db, p.id, p.user)
  }

  ghost predicate NoRepeats(s: seq<Pair>) {
    forall i, j | 0 <= i < j < |s| :: s[i] != s[j]
  }

  /** The ids a replay has put out followed by those it still has to look at. */
  function IdsOf(t: ReplayTask): seq<string> {
    seq(|t.out|, i requires 0 <= i < |t.out| => t.out[i].messageId)
    + seq(|t.queue|, i requires 0 <= i < |t.queue| => t.queue[i].messageId)
  }

  ghost predicate IdsAscend(s: seq<string>) {
    forall i, j | 0 <= i < j < |s| :: Less(s[i], s[j])
  }

  ghost predicate TaskOk(db: Db, emitted: seq<Pair>, user: string, t: ReplayTask) {
    && IdsAscend(IdsOf(t))
    && (forall i | 0 <= i < |t.out| ::
       Done(db, Pair(user, t.out[i].messageId)) && Pair(user, t.out[i].messageId) !in emitted)
    && (forall i | 0 <= i < |t.queue| :: t.queue[i].messageId in db.rows)
    && (t.stage != Next ==> t.queue != [] && Pair(user, t.queue[0].messageId) !in emitted)
    && (t.stage == Tracked ==> Done(db, Pair(user, t.queue[0].messageId)))
  }

  ghost predicate LogOk(db: Db, emitted: seq<Pair>) {
    NoRepeats(emitted) && forall p | p in emitted :: Done(db, p)
  }

  ghost predicate SendsOk(m: Machine) {
    && (forall id | id in m.acked :: id in m.w.db.rows)
    && (forall task | task in m.sends && m.sends[task].stage == Stamped ::
       m.sends[task].message.messageId in m.w.db.rows)
    && (forall id | id in m.w.mem.intake ::
          m.w.mem.intake[id].messageId == id && (m.w.mem.intake[id].state != Sending ==> id in m.w.db.rows))
  }

  ghost predicate ReplaysOk(db: Db, emitted: seq<Pair>, replays: map<string, ReplayTask>) {
    forall user | user in replays :: TaskOk(db, emitted, user, replays[user])
  }

  ghost predicate TasksOk(m: Machine) {
    LogOk(m.w.db, m.emitted) && ReplaysOk(m.w.db, m.emitted, m.replays)
  }

  ghost predicate Inv(m: Machine) {
    WellFormed(m.w.db) && TasksOk(m) && SendsOk(m)
  }

  // ----- The database along a step -----

  lemma UpdateKept(db: Db, id: string, s: MessageState, now: int)
    requires WellFormed(db)
    ensures var d := UpdateMessageState(db, id, s, now); d.Ok? ==> WellFormed(d.value) && Keeps(db, d.value)
  {
    if id in db.rows {
      UpdateKeepsWellFormed(db, id, s, now);
    }
  }

  lemma MarkKept(db: Db, id: string, user: string)
    requires WellFormed(db)
    ensures var d := MarkMessageDelivered(db, id, user); WellFormed(d) && Keeps(db, d)
  {
    MarkKeepsWellFormed(db, id, user);
  }

  lemma PersistKept(db: Db, data: Row, now: int)
    requires WellFormed(db)
    ensures var d := PersistMessage(db, data, now); d.Ok? ==> WellFormed(d.value.0) && Keeps(db, d.value.0)
  {
    PersistKeepsWellFormed(db, data, now);
    PersistExtends(db, data, now);
  }

  lemma CrashKept(w: World)
    requires WellFormed(w.db)
    ensures WellFormed(Crash(w).db) && Keeps(w.db, Crash(w).db)
  {
    HydrateRestores(w.db);
    HydrateKeepsWellFormed(w.db);
  }

  /** What a step does to the database is at most one of the durable writes, or a rebuild from the file. */
  ghost predicate OneWrite(a: Db, b: Db) {
    || b == a
    || (exists data, now :: PersistMessage(a, data, now).Ok? && b == PersistMessage(a, data, now).value.0)
    || (exists id, s, now :: UpdateMessageState(a, id, s, now) == Ok(b))
    || (exists id, user :: b == MarkMessageDelivered(a, id, user))
  }

  lemma OneWriteKept(a: Db, b: Db)
    requires WellFormed(a) && OneWrite(a, b)
    ensures WellFormed(b) && Keeps(a, b)
  {
    if data, now :| PersistMessage(a, data, now).Ok? && b == PersistMessage(a, data, now).value.0 {
      PersistKept(a, data, now);
    } else if id, s, now :| UpdateMessageState(a, id, s, now) == Ok(b) {
      UpdateKept(a, id, s, now);
    } else if id, user :| b == MarkMessageDelivered(a, id, user) {
      MarkKept(a, id, user);
    }
  }

  /** A step of a send, a confirmation or the environment: one write at most, and no replay moves. */
  ghost predicate Outside(m: Machine, n: Machine) {
    && n.replays == m.replays && n.emitted == m.emitted
    && OneWrite(m.w.db, n.w.db)
    && (SendsOk(m) && Keeps(m.w.db, n.w.db) ==> SendsOk(n))
  }

  lemma AcceptOutside(w: World, sender: string, receiver: string, clientId: string, content: string,
                      freshId: string, now: int)
    ensures var (v, r) := Accept(w, sender, receiver, clientId, content, freshId, now);
            && v.db == w.db
            && (forall id | id in v.mem.intake ::
                  || (id in w.mem.intake && v.mem.intake[id] == w.mem.intake[id])
                  || (v.mem.intake[id].messageId == id && v.mem.intake[id].state == Sending))
            && (r.Ok? ==> exists id :: id in v.mem.intake && r.value.message == v.mem.intake[id])
  {
    var (v, r) := Accept(w, sender, receiver, clientId, content, freshId, now);
    if r.Ok? {
      var id := if r.value.duplicate then w.mem.clientIds[IntakeKey(sender, clientId)] else freshId;
      assert id in v.mem.intake && r.value.message == v.mem.intake[id];
    }
  }

  lemma SendAcceptedOutside(m: Machine, task: nat, msg: Message, now: int)
    ensures Outside(m, SendAccepted(m, task, msg, now))
  {}

  lemma SendBeginOutside(m: Machine, task: nat, sender: string, receiver: string, clientId: string, content: string,
                         freshId: string, now: int)
    ensures Outside(m, SendBegin(m, task, sender, receiver, clientId, content, freshId, now))
  {
    AcceptOutside(m.w, sender, receiver, clientId, content, freshId, now);
    var (w1, r) := Accept(m.w, sender, receiver, clientId, content, freshId, now);
    assert Outside(m, m.(w := w1));
    if r.Ok? {
      SendAcceptedOutside(m.(w := w1), task, r.value.message, now);
    }
  }

  lemma SendStampOutside(m: Machine, task: nat, now: int)
    ensures Outside(m, SendStamp(m, task, now))
  {}

  lemma SendReturnOutside(m: Machine, task: nat)
    ensures Outside(m, SendReturn(m, task))
  {}

  lemma ConfirmBeginOutside(m: Machine, task: nat, id: string, user: string, read: bool)
    ensures Outside(m, ConfirmBegin(m, task, id, user, read))
  {}

  lemma ConfirmStepOutside(m: Machine, task: nat, now: int)
    ensures Outside(m, ConfirmStep(m, task, now))
  {}

  lemma RoomRowOutside(m: Machine, data: Row, withRecord: bool, now: int)
    ensures Outside(m, m.(w := ServiceRuns.PersistRoomRow(m.w, data, withRecord, now)))
  {}

  lemma MemoryOutside(m: Machine, v: World)
    requires v.db == m.w.db && v.mem.intake == m.w.mem.intake
    ensures Outside(m, m.(w := v))
  {}

  // ----- Replays and their log along a step -----

  lemma KeptTask(a: Db, b: Db, emitted: seq<Pair>, user: string, t: ReplayTask)
    requires Keeps(a, b) && TaskOk(a, emitted, user, t)
    ensures TaskOk(b, emitted, user, t)
  {}

  lemma KeptTasks(a: Db, b: Db, emitted: seq<Pair>, replays: map<string, ReplayTask>)
    requires Keeps(a, b) && LogOk(a, emitted) && ReplaysOk(a, emitted, replays)
    ensures LogOk(b, emitted) && ReplaysOk(b, emitted, replays)
  {
    forall user | user in replays ensures TaskOk(b, emitted, user, replays[user]) {
      KeptTask(a, b, emitted, user, replays[user]);
    }
  }

  lemma {:induction false} AlignSameIds(db: Db, msgs: seq<Row>)
    requires forall r | r in msgs :: r.messageId in db.rows
    ensures |Align(db, msgs)| == |msgs|
    ensures forall i | 0 <= i < |msgs| :: Align(db, msgs)[i].messageId == msgs[i].messageId
  {
    if msgs != [] {
      AlignSameIds(db, msgs[..|msgs| - 1]);
      assert msgs[|msgs| - 1] in msgs;
    }
  }

  /** The page a replay starts from: stored rows in ascending id order. */
  lemma PageAscends(db: Db, user: string, after: string, limit: int)
    requires RowsWellFormed(db)
    ensures var page := GetUndelivered(db, user, after, limit);
            && (forall i | 0 <= i < |page| :: page[i].messageId in db.rows)
            && (forall i, j | 0 <= i < j < |page| :: Less(page[i].messageId, page[j].messageId))
  {
    var all, page := AllAwaiting(db, user, after), GetUndelivered(db, user, after, limit);
    AwaitingListing(db, user, after);
    forall i | 0 <= i < |page| ensures page[i] == all[i] && page[i] in all {}
    forall i, j | 0 <= i < j < |page| ensures Less(page[i].messageId, page[j].messageId) {
      assert ById(all[i], all[j]);
    }
  }

  lemma FreshTaskOk(db: Db, emitted: seq<Pair>, user: string, page: seq<Row>, queue: seq<Row>)
    requires forall i | 0 <= i < |page| :: page[i].messageId in db.rows
    requires forall i, j | 0 <= i < j < |page| :: Less(page[i].messageId, page[j].messageId)
    requires |queue| == |page| && forall i | 0 <= i < |page| :: queue[i].messageId == page[i].messageId
    ensures TaskOk(db, emitted, user, ReplayTask(queue, Next, []))
  {
    var t := ReplayTask(queue, Next, []);
    assert |IdsOf(t)| == |page| && forall i | 0 <= i < |page| :: IdsOf(t)[i] == page[i].messageId;
  }

  lemma PageOk(db: Db, emitted: seq<Pair>, user: string, after: string, limit: int)
    requires RowsWellFormed(db)
    ensures TaskOk(db, emitted, user, ReplayTask(Align(db, GetUndelivered(db, user, after, limit)), Next, []))
  {
    var page := GetUndelivered(db, user, after, limit);
    PageAscends(db, user, after, limit);
    AlignSameIds(db, page);
    FreshTaskOk(db, emitted, user, page, Align(db, page));
  }

  /** Dropping the head, with or without putting it out, keeps the ids ascending. */
  lemma PopOk(db: Db, emitted: seq<Pair>, user: string, t: ReplayTask, out: seq<Payload>)
    requires TaskOk(db, emitted, user, t) && t.queue != []
    requires out == [] || (t.stage == Tracked && out == [PayloadFor(t.queue[0])])
    ensures TaskOk(db, emitted, user, ReplayTask(t.queue[1..], Next, t.out + out))
  {
    var u := ReplayTask(t.queue[1..], Next, t.out + out);
    var n := |t.out|;
    if out == [] {
      assert IdsOf(u) == IdsOf(t)[..n] + IdsOf(t)[n + 1..];
    } else {
      assert IdsOf(u) == IdsOf(t);
    }
  }

  lemma StageOk(db: Db, emitted: seq<Pair>, user: string, t: ReplayTask, stage: ReplayStage)
    requires TaskOk(db, emitted, user, t) && t.queue != []
    requires Pair(user, t.queue[0].messageId) !in emitted
    requires stage == Tracked ==> Done(db, Pair(user, t.queue[0].messageId))
    ensures TaskOk(db, emitted, user, t.(stage := stage))
  {
    assert IdsOf(t.(stage := stage)) == IdsOf(t);
  }

  /** A segment of one user's replay loop: one write at most, and only that user's task changes. */
  ghost predicate Inside(m: Machine, n: Machine, user: string) {
    && n.emitted == m.emitted && n.sends == m.sends && n.acked == m.acked && n.w.mem.intake == m.w.mem.intake
    && OneWrite(m.w.db, n.w.db)
    && user in m.replays && user in n.replays && n.replays == m.replays[user := n.replays[user]]
  }

  lemma ReadInside(m: Machine, user: string)
    requires At(m, user, Next) && TaskOk(m.w.db, m.emitted, user, m.replays[user])
    requires LogOk(m.w.db, m.emitted)
    ensures var n := ReplayRead(m, user); Inside(m, n, user) && TaskOk(n.w.db, m.emitted, user, n.replays[user])
  {
    var t := m.replays[user];
    PopOk(m.w.db, m.emitted, user, t, []);
    if !IsMessageDelivered(m.w.db, t.queue[0].messageId, user) {
      assert !Done(m.w.db, Pair(user, t.queue[0].messageId));
      StageOk(m.w.db, m.emitted, user, t, Passed);
    }
  }

  lemma UpdateInside(m: Machine, user: string, now: int)
    requires At(m, user, Passed) && TaskOk(m.w.db, m.emitted, user, m.replays[user])
    ensures var n := ReplayUpdate(m, user, now);
            Inside(m, n, user) && (Keeps(m.w.db, n.w.db) ==> TaskOk(n.w.db, m.emitted, user, n.replays[user]))
  {
    var t, n := m.replays[user], ReplayUpdate(m, user, now);
    if Keeps(m.w.db, n.w.db) {
      KeptTask(m.w.db, n.w.db, m.emitted, user, t);
      PopOk(n.w.db, m.emitted, user, t, []);
      StageOk(n.w.db, m.emitted, user, t, Updated);
    }
  }

  lemma TrackInside(m: Machine, user: string)
    requires At(m, user, Updated) && TaskOk(m.w.db, m.emitted, user, m.replays[user])
    ensures var n := ReplayTrack(m, user);
            Inside(m, n, user) && (Keeps(m.w.db, n.w.db) ==> TaskOk(n.w.db, m.emitted, user, n.replays[user]))
  {
    var t, n := m.replays[user], ReplayTrack(m, user);
    if Keeps(m.w.db, n.w.db) {
      KeptTask(m.w.db, n.w.db, m.emitted, user, t);
      StageOk(n.w.db, m.emitted, user, t, Tracked);
    }
  }

  lemma EmitInside(m: Machine, user: string, now: int)
    requires At(m, user, Tracked) && TaskOk(m.w.db, m.emitted, user, m.replays[user])
    ensures var n := ReplayEmit(m, user, now); Inside(m, n, user) && TaskOk(n.w.db, m.emitted, user, n.replays[user])
  {
    PopOk(m.w.db, m.emitted, user, m.replays[user], [PayloadFor(m.replays[user].queue[0])]);
  }

  lemma PairsDistinct(user: string, t: ReplayTask)
    requires IdsAscend(IdsOf(t))
    ensures NoRepeats(PairsOf(user, t.out))
  {
    var pairs := PairsOf(user, t.out);
    forall i, j | 0 <= i < j < |pairs| ensures pairs[i] != pairs[j] {
      assert IdsOf(t)[i] == t.out[i].messageId && IdsOf(t)[j] == t.out[j].messageId;
      LessIrreflexive(t.out[i].messageId);
    }
  }

  lemma ReturnOk(m: Machine, user: string)
    requires TasksOk(m)
    ensures TasksOk(ReplayReturn(m, user))
  {
    if user in m.replays && m.replays[user].queue == [] {
      var t, n := m.replays[user], ReplayReturn(m, user);
      var pairs := PairsOf(user, t.out);
      assert TaskOk(m.w.db, m.emitted, user, t);
      PairsDistinct(user, t);
      forall i, j | 0 <= i < j < |n.emitted| ensures n.emitted[i] != n.emitted[j] {
        if i < |m.emitted| <= j {
          assert n.emitted[i] in m.emitted;
          assert n.emitted[j] == pairs[j - |m.emitted|];
        }
      }
      forall u | u in n.replays ensures TaskOk(m.w.db, n.emitted, u, n.replays[u]) {
        assert TaskOk(m.w.db, m.emitted, u, m.replays[u]);
      }
    }
  }

  lemma OutsideKeeps(m: Machine, n: Machine)
    requires Inv(m) && Outside(m, n)
    ensures Inv(n) && Keeps(m.w.db, n.w.db)
  {
    OneWriteKept(m.w.db, n.w.db);
    KeptTasks(m.w.db, n.w.db, m.emitted, m.replays);
  }

  lemma InsideKeeps(m: Machine, n: Machine, user: string)
    requires Inv(m) && Inside(m, n, user)
    ensures Keeps(m.w.db, n.w.db)
    ensures TaskOk(n.w.db, m.emitted, user, n.replays[user]) ==> Inv(n)
  {
    OneWriteKept(m.w.db, n.w.db);
    KeptTasks(m.w.db, n.w.db, m.emitted, m.replays);
  }

  lemma BeginKeeps(m: Machine, user: string, after: string, limit: int)
    requires Inv(m)
    ensures Inv(ReplayBegin(m, user, after, limit))
  {
    PageOk(m.w.db, m.emitted, user, after, EffectiveLimit(limit));
  }

  lemma CrashKeeps(m: Machine)
    requires Inv(m)
    ensures Inv(CrashAll(m)) && Keeps(m.w.db, CrashAll(m).w.db)
  {
    CrashKept(m.w);
    KeptTasks(m.w.db, CrashAll(m).w.db, m.emitted, map[]);
  }

  // ----- Every run -----

  lemma ReplayStepKeeps(m: Machine, e: Event, now: int, user: string)
    requires Inv(m)
    requires e == EvReplayRead(user) || e == EvReplayUpdate(user) || e == EvReplayTrack(user) || e == EvReplayEmit(user)
    ensures var n := Step(m, e, now); Inv(n) && Keeps(m.w.db, n.w.db)
  {
    var n := Step(m, e, now);
    if n != m {
      match e {
        case EvReplayRead(_) => ReadInside(m, user);
        case EvReplayUpdate(_) => UpdateInside(m, user, now);
        case EvReplayTrack(_) => TrackInside(m, user);
        case EvReplayEmit(_) => EmitInside(m, user, now);
      }
      InsideKeeps(m, n, user);
    }
  }

  lemma OutsideStepKeeps(m: Machine, e: Event, now: int)
    requires Inv(m)
    requires !e.EvReplayBegin? && !e.EvReplayRead? && !e.EvReplayUpdate? && !e.EvReplayTrack? && !e.EvReplayEmit?
    requires !e.EvReplayReturn? && !e.EvCrash?
    ensures var n := Step(m, e, now); Inv(n) && Keeps(m.w.db, n.w.db)
  {
    var n := Step(m, e, now);
    match e {
      case EvSendBegin(task, sender, receiver, clientId, content, freshId) =>
        SendBeginOutside(m, task, sender, receiver, clientId, content, freshId, now);
      case EvSendStamp(task) => SendStampOutside(m, task, now);
      case EvSendReturn(task) => SendReturnOutside(m, task);
      case EvConfirmBegin(task, id, user, read) => ConfirmBeginOutside(m, task, id, user, read);
      case EvConfirmStep(task) => ConfirmStepOutside(m, task, now);
      case EvRoomRow(data, withRecord) => RoomRowOutside(m, data, withRecord, now);
      case _ => MemoryOutside(m, n.w);
    }
    if n != m { OutsideKeeps(m, n); }
  }

  lemma StepKeeps(m: Machine, e: Event, now: int)
    requires Inv(m)
    ensures var n := Step(m, e, now); Inv(n) && Keeps(m.w.db, n.w.db)
  {
    match e {
      case EvReplayBegin(user, after, limit) => BeginKeeps(m, user, after, limit);
      case EvReplayRead(user) => ReplayStepKeeps(m, e, now, user);
      case EvReplayUpdate(user) => ReplayStepKeeps(m, e, now, user);
      case EvReplayTrack(user) => ReplayStepKeeps(m, e, now, user);
      case EvReplayEmit(user) => ReplayStepKeeps(m, e, now, user);
      case EvReplayReturn(user) => ReturnOk(m, user);
      case EvCrash => CrashKeeps(m);
      case _ => OutsideStepKeeps(m, e, now);
    }
  }

  ghost function Execute(events: seq<(Event, int)>): (m: Machine)
    ensures Inv(m)
  {
    if events == [] then START
    else
      var m := Execute(events[..|events| - 1]);
      var (e, now) := events[|events| - 1];
      StepKeeps(m, e, now);
      Step(m, e, now)
  }

  lemma StepOnlyAdds(m: Machine, e: Event, now: int)
    requires RowsWellFormed(m.w.db)
    ensures m.emitted <= Step(m, e, now).emitted && m.acked <= Step(m, e, now).acked
  {}

  lemma KeepsTransitive(a: Db, b: Db, c: Db)
    requires Keeps(a, b) && Keeps(b, c)
    ensures Keeps(a, c)
  {}

  lemma {:induction false} RunKeeps(events: seq<(Event, int)>, n: nat)
    requires n <= |events|
    ensures var m, f := Execute(events[..n]), Execute(events);
            Keeps(m.w.db, f.w.db) && m.emitted <= f.emitted && m.acked <= f.acked
  {
    if n == |events| {
      assert events[..n] == events;
    } else {
      var front := events[..|events| - 1];
      var (e, now) := events[|events| - 1];
      RunKeeps(front, n);
      assert front[..n] == events[..n];
      StepKeeps(Execute(front), e, now);
      StepOnlyAdds(Execute(front), e, now);
      KeepsTransitive(Execute(events[..n]).w.db, Execute(front).w.db, Execute(events).w.db);
    }
  }

  /**
    At most once: over every interleaving of handlers and every crash, no pair of user and message is ever
    returned twice, each returned pair was durably marked when it was returned, and stays so.
   */
  lemma ReplayedAtMostOnce(events: seq<(Event, int)>, n: nat)
    requires n <= |events|
    ensures var m, f := Execute(events[..n]), Execute(events);
            && m.emitted <= f.emitted && NoRepeats(f.emitted)
            && forall p | p in m.emitted :: Done(m.w.db, p) && Done(f.w.db, p)
  {
    RunKeeps(events, n);
  }

  /** A returned pair is never fetched again, whatever the cursor. */
  lemma NeverFetchedAgain(events: seq<(Event, int)>, n: nat, p: Pair, after: string, limit: int)
    requires n <= |events|
    ensures p in Execute(events[..n]).emitted ==>
              forall r | r in GetUndelivered(Execute(events).w.db, p.user, after, limit) :: r.messageId != p.id
  {
    if p in Execute(events[..n]).emitted {
      ReplayedAtMostOnce(events, n);
      NotListed(Execute(events).w.db, p.user, after, limit, p.id);
    }
  }

  lemma NotListed(db: Db, user: string, after: string, limit: int, id: string)
    requires RowsWellFormed(db)
    requires IsMessageDelivered(db, id, user) || (id in db.rows && IsDeliveredOrRead(db.rows[id].state))
    ensures forall r | r in GetUndelivered(db, user, after, limit) :: r.messageId != id
  {
    AwaitingListing(db, user, after);
    forall r | r in GetUndelivered(db, user, after, limit) ensures r.messageId != id {
      assert r in AllAwaiting(db, user, after);
    }
  }

  /** DB-first under interleaving: an id acknowledged at any point has a stored row from then on. */
  lemma AcknowledgedStaysStored(events: seq<(Event, int)>, n: nat, id: string)
    requires n <= |events|
    ensures id in Execute(events[..n]).acked ==> id in Execute(events).w.db.rows
  {
    RunKeeps(events, n);
    if id in Execute(events[..n]).acked {
      assert id in Execute(events).acked;
    }
  }

  /**
    Why the guarantee is not exactly once: a crash between a replay's two durable writes leaves the
    message in state `delivered` and unmarked, and no replay ever returns it.
   */
  lemma CrashBetweenWritesStrands(m: Machine, user: string, after: string, limit: int, now: int)
    requires WellFormed(m.w.db) && At(m, user, Passed) && TaskOk(m.w.db, m.emitted, user, m.replays[user])
    requires var id := Head(m, user).messageId; !(id in m.w.mem.cache && IsDeliveredOrRead(m.w.mem.cache[id]))
    requires !IsMessageDelivered(m.w.db, Head(m, user).messageId, user)
    ensures RowsWellFormed(ReplayUpdate(m, user, now).w.db) &&
            var db, id := CrashAll(ReplayUpdate(m, user, now)).w.db, Head(m, user).messageId;
            && RowsWellFormed(db) && id in db.rows && db.rows[id].state == Delivered
            && !IsMessageDelivered(db, id, user)
            && forall r | r in GetUndelivered(db, user, after, limit) :: r.messageId != id
  {
    var id := Head(m, user).messageId;
    StrandedRow(m.w.db, user, after, limit, id, now);
  }

  lemma StrandedRow(db: Db, user: string, after: string, limit: int, id: string, now: int)
    requires WellFormed(db) && id in db.rows && !IsMessageDelivered(db, id, user)
    ensures var u := UpdateMessageState(db, id, Delivered, now).value;
            WellFormed(u) &&
            var h := Hydrate(Snapshot(u));
            && RowsWellFormed(h) && id in h.rows && h.rows[id].state == Delivered && !IsMessageDelivered(h, id, user)
            && forall r | r in GetUndelivered(h, user, after, limit) :: r.messageId != id
  {
    UpdateKeepsWellFormed(db, id, Delivered, now);
    var u := UpdateMessageState(db, id, Delivered, now).value;
    HydrateRestores(u);
    HydrateKeepsWellFormed(u);
    NotListed(Hydrate(Snapshot(u)), user, after, limit, id);
  }

  // ----- The complete operation is an uninterrupted run of its segments -----

  function ReplayHead(m: Machine, user: string, now: int): Machine {
    ReplayEmit(ReplayTrack(ReplayUpdate(ReplayRead(m, user), user, now), user), user, now)
  }

  /** The machine with only its world and one user's task replaced. */
  function With(m: Machine, w: World, user: string, t: ReplayTask): Machine {
    m.(w := w, replays := m.replays[user := t])
  }

  lemma WithTwice(m: Machine, w1: World, w2: World, user: string, t1: ReplayTask, t2: ReplayTask)
    ensures With(With(m, w1, user, t1), w2, user, t2) == With(m, w2, user, t2)
  {
    assert m.replays[user := t1][user := t2] == m.replays[user := t2];
  }

  /** Segments two to four for a message that passed the first guards. */
  lemma PassedHead(m: Machine, w: World, user: string, t: ReplayTask, now: int)
    requires t.queue != [] && t.stage == Passed
    ensures var msg := t.queue[0];
            var n := ReplayEmit(ReplayTrack(ReplayUpdate(With(m, w, user, t), user, now), user), user, now);
            var blocked := msg.messageId in w.mem.cache && IsDeliveredOrRead(w.mem.cache[msg.messageId]);
            var w1 := SyncMemory(w, msg);
            var done := ReplayTask(t.queue[1..], Next, t.out);
            n == if blocked then With(m, w, user, done)
                 else if msg.messageId !in w.db.rows then
                   With(m, SetDeliveries(w1,
                     Delivery.RecordFailure(w1.mem.deliveries, DeliveryKey(msg.messageId, user), Delivery.OTHER)),
                        user, done)
                 else With(m, FinishReplayed(SetState(w1, msg.messageId, Delivered, now), msg.messageId, user, now),
                   user,
                           done.(out := t.out + [PayloadFor(msg)]))
  {
    var msg := t.queue[0];
    var id, w1 := msg.messageId, SyncMemory(w, msg);
    var a := With(m, w, user, t);
    assert t.out + [] == t.out;
    var b := ReplayUpdate(a, user, now);
    if id in w.mem.cache && IsDeliveredOrRead(w.mem.cache[id]) {
      WithTwice(m, w, w, user, t, ReplayTask(t.queue[1..], Next, t.out));
    } else if id !in w.db.rows {
      var w2 := SetDeliveries(w1, Delivery.RecordFailure(w1.mem.deliveries, DeliveryKey(id, user), Delivery.OTHER));
      WithTwice(m, w, w2, user, t, ReplayTask(t.queue[1..], Next, t.out));
    } else {
      var w2 := SetState(w1, id, Delivered, now);
      WithTwice(m, w, w2, user, t, t.(stage := Updated));
      assert b == With(m, w2, user, t.(stage := Updated));
      UpdatedHead(m, w2, user, t.(stage := Updated), now);
    }
  }

  lemma UpdatedHead(m: Machine, w: World, user: string, t: ReplayTask, now: int)
    requires t.queue != [] && t.stage == Updated
    ensures ReplayEmit(ReplayTrack(With(m, w, user, t), user), user, now)
            == With(m, FinishReplayed(w, t.queue[0].messageId, user, now), user,
                    ReplayTask(t.queue[1..], Next, t.out + [PayloadFor(t.queue[0])]))
  {
    var w3 := w.(db := MarkMessageDelivered(w.db, t.queue[0].messageId, user));
    WithTwice(m, w, w3, user, t, t.(stage := Tracked));
    assert ReplayTrack(With(m, w, user, t), user) == With(m, w3, user, t.(stage := Tracked));
    WithTwice(m, w3, FinishReplayed(w, t.queue[0].messageId, user, now), user, t.(stage := Tracked),
              ReplayTask(t.queue[1..], Next, t.out + [PayloadFor(t.queue[0])]));
  }

  /** All segments for one message amount to the loop body of the complete operation. */
  lemma HeadIsReplayOne(m: Machine, w: World, user: string, t: ReplayTask, now: int)
    requires t.queue != [] && t.stage == Next
    ensures var (w1, out) := ReplayOne(w, user, t.queue[0], now);
            ReplayHead(With(m, w, user, t), user, now) == With(m, w1, user, ReplayTask(t.queue[1..], Next, t.out + out))
  {
    var id := t.queue[0].messageId;
    var a := With(m, w, user, t);
    assert t.out + [] == t.out;
    if !Delivery.IsPendingReplay(w.mem.deliveries, DeliveryKey(id, user)) || IsMessageDelivered(w.db, id, user) {
      WithTwice(m, w, w, user, t, ReplayTask(t.queue[1..], Next, t.out));
    } else {
      WithTwice(m, w, w, user, t, t.(stage := Passed));
      assert ReplayRead(a, user) == With(m, w, user, t.(stage := Passed));
      PassedHead(m, w, user, t.(stage := Passed), now);
    }
  }

  function RunReplay(m: Machine, user: string, now: int, k: nat): Machine {
    if k == 0 then m else ReplayHead(RunReplay(m, user, now, k - 1), user, now)
  }

  lemma {:induction false} RunReplayIs(m: Machine, w: World, user: string, queue: seq<Row>, now: int, k: nat)
    requires k <= |queue|
    ensures var (w1, out) := ReplayLoop(w, user, queue[..k], now);
            RunReplay(With(m, w, user, ReplayTask(queue, Next, [])), user, now, k)
            == With(m, w1, user, ReplayTask(queue[k..], Next, out))
  {
    if k == 0 {
      assert queue[0..] == queue;
    } else {
      RunReplayIs(m, w, user, queue, now, k - 1);
      var (w1, out) := ReplayLoop(w, user, queue[..k - 1], now);
      HeadIsReplayOne(m, w1, user, ReplayTask(queue[k - 1..], Next, out), now);
      assert queue[..k][..k - 1] == queue[..k - 1];
      assert queue[k - 1..][1..] == queue[k..];
    }
  }

  lemma ReturnIs(m: Machine, w: World, user: string, out: seq<Payload>)
    requires user !in m.replays
    ensures ReplayReturn(With(m, w, user, ReplayTask([], Next, out)), user)
            == m.(w := w, emitted := m.emitted + PairsOf(user, out))
  {
    assert m.replays[user := ReplayTask([], Next, out)] - {user} == m.replays;
  }

  /** Run without interruption, the segments compute exactly what the complete replay computes. */
  lemma UninterruptedReplay(m: Machine, user: string, after: string, limit: int, now: int)
    requires RowsWellFormed(m.w.db) && user != "" && user !in m.replays && (after == "" || after in m.w.db.rows)
    ensures var b := ReplayBegin(m, user, after, limit);
            var n := ReplayReturn(RunReplay(b, user, now, |b.replays[user].queue|), user);
            var (w1, r) := Replay(m.w, user, after, limit, now);
            r.Ok? && n == m.(w := w1, emitted := m.emitted + PairsOf(user, r.value.messages))
  {
    var page := GetUndelivered(m.w.db, user, after, EffectiveLimit(limit));
    UninterruptedLoop(m, user, Align(m.w.db, page), now);
  }

  lemma UninterruptedLoop(m: Machine, user: string, queue: seq<Row>, now: int)
    requires user !in m.replays
    ensures var b := With(m, m.w, user, ReplayTask(queue, Next, []));
            var (w1, out) := ReplayLoop(m.w, user, queue, now);
            ReplayReturn(RunReplay(b, user, now, |queue|), user)
              == m.(w := w1, emitted := m.emitted + PairsOf(user, out))
  {
    RunReplayIs(m, m.w, user, queue, now, |queue|);
    assert queue[..|queue|] == queue && queue[|queue|..] == [];
    var (w1, out) := ReplayLoop(m.w, user, queue, now);
    ReturnIs(m, w1, user, out);
  }

  // ----- And so for confirmations and sends -----

  /**
    Run without interruption, the segments of a confirmation compute exactly what the complete confirmation
    computes.
   */
  lemma UninterruptedConfirm(m: Machine, task: nat, id: string, user: string, read: bool, now: int)
    requires task !in m.confirms
    ensures var b := ConfirmBegin(m, task, id, user, read);
            var n := ConfirmStep(ConfirmStep(ConfirmStep(b, task, now), task, now), task, now);
            n == m.(w := if read then ConfirmRead(m.w, id, user, now).0 else ConfirmDelivered(m.w, id, user, now).0)
  {
    var early := if read then ReadEarly(m.w, id, user) else DeliveredEarly(m.w, id, user);
    if early.None? {
      var s := if read then Read else Delivered;
      var t := ConfirmTask(id, user, read, Checked);
      var w1 := SetState(m.w, id, s, now);
      var w2 := w1.(db := MarkMessageDelivered(w1.db, id, user));
      assert ConfirmStep(m.(confirms := m.confirms[task := t]), task, now)
             == m.(w := w1, confirms := m.confirms[task := t][task := t.(stage := Written)]);
      var b := m.(w := w1, confirms := m.confirms[task := t][task := t.(stage := Written)]);
      assert ConfirmStep(b, task, now) == b.(w := w2, confirms := b.confirms[task := t.(stage := Marked)]);
      assert b.confirms[task := t.(stage := Marked)] - {task} == m.confirms;
    }
  }

  /** So do the segments of a send, acknowledging exactly what the complete send acknowledges. */
  lemma UninterruptedSend(m: Machine, task: nat, sender: string, receiver: string, clientId: string, content: string,
                          freshId: string, now: int)
    requires task !in m.sends && ServiceRuns.Fresh(m.w, freshId)
    ensures var b := SendBegin(m, task, sender, receiver, clientId, content, freshId, now);
            var n := SendReturn(SendStamp(b, task, now), task);
            var (v, r) := Send(m.w, sender, receiver, clientId, content, freshId, now);
            n == m.(w := v, acked := if r.Ok? then m.acked + {r.value.messageId} else m.acked)
  {
    var (w1, r) := Accept(m.w, sender, receiver, clientId, content, freshId, now);
    if r.Ok? && ValidShape(r.value.message) {
      AcceptedSend(m.(w := w1), task, r.value.message, now);
    }
  }

  lemma AcceptedSend(m: Machine, task: nat, msg: Message, now: int)
    requires task !in m.sends && ValidShape(msg)
    ensures var n := SendReturn(SendStamp(SendAccepted(m, task, msg, now), task, now), task);
            var (v, r) := PersistAndReturnAck(m.w, msg, now);
            n == m.(w := v, acked := if r.Ok? then m.acked + {r.value.messageId} else m.acked)
  {
    var p := PersistMessage(m.w.db, RowFor(msg), now);
    if !AlreadySent(m.w, msg.messageId) && p.Ok? {
      var a := SendAccepted(m, task, msg, now);
      assert a == m.(w := m.w.(db := p.value.0), sends := m.sends[task := SendTask(msg, Persisted)]);
      assert a.sends - {task} == m.sends && a.sends[task := SendTask(msg, Stamped)] - {task} == m.sends;
    }
  }
}
