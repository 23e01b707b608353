/** Per-recipient delivery records, ACK timers and failure log (services/delivery.service.js). */
module Delivery {
  import opened Wrappers

  datatype State = PERSISTED | SENT | DELIVERED | READ

  function Allowed(s: State): set<State> {
    match s
    case PERSISTED => {SENT, DELIVERED}
    case SENT => {DELIVERED}
    case DELIVERED => {READ}
    case READ => {}
  }

  predicate Final(s: State) {
    s == DELIVERED || s == READ
  }

  function Rank(s: State): nat {
    match s
    case PERSISTED => 0
    case SENT => 1
    case DELIVERED => 2
    case READ => 3
  }

  datatype Key = Key(messageId: string, recipientId: string)

  datatype Record = Record(
    state: State, persistedAt: int, sentAt: Option<int>, deliveredAt: Option<int>, readAt: Option<int>)

  datatype Reason = ACK_TIMEOUT | SOCKET_CLOSED | OTHER

  /** `failures` keeps, per delivery, the reasons recorded for it in order. */
  datatype Deliveries = Deliveries(
    records: map<Key, Record>, timers: set<Key>, deliveredTotal: nat, failures: map<Key, seq<Reason>>)

  datatype Outcome = Done | InvalidPayload | NotFound | Refused

  const EMPTY := Deliveries(map[], {}, 0, map[])

  // ----- Operations -----

  function FailuresOf(d: Deliveries, k: Key): seq<Reason> {
    if k in d.failures then d.failures[k] else []
  }

  function RecordFailure(d: Deliveries, k: Key, why: Reason): Deliveries {
    d.(failures := d.failures[k := FailuresOf(d, k) + [why]])
  }

  function Create(d: Deliveries, k: Key, now: int): Deliveries {
    if k.messageId == "" || k.recipientId == "" || k in d.records then d
    else d.(records := d.records[k := Record(PERSISTED, now, None, None, None)])
  }

  function Moved(r: Record, next: State, now: int): Record {
    r.(state := next,
       sentAt := if next == SENT then Some(now) else r.sentAt,
       deliveredAt := if next == DELIVERED then Some(now) else r.deliveredAt,
       readAt := if next == READ then Some(now) else r.readAt)
  }

  function Transition(d: Deliveries, k: Key, next: State, now: int): (Deliveries, Outcome) {
    if k.messageId == "" || k.recipientId == "" then (d, InvalidPayload)
    else if k !in d.records then (d, NotFound)
    else if next !in Allowed(d.records[k].state) then (d, Refused)
    else
      var timers := if d.records[k].state == SENT then d.timers - {k} else d.timers;
         (Deliveries(d.records[k := Moved(d.records[k], next, now)],
                     if next == SENT then timers + {k} else timers,
                     d.deliveredTotal + (if next == DELIVERED then 1 else 0),
                     d.failures), Done)
  }

  function ForceRead(d: Deliveries, k: Key, now: int): Deliveries {
    if k.messageId == "" || k.recipientId == "" then d
    else
      var r := Create(d, k, now).records[k];
      Deliveries(d.records[k := r.(state := READ, readAt := Some(now),
                                   deliveredAt := if r.deliveredAt.None? then Some(now) else r.deliveredAt)],
                 if r.state == SENT then d.timers - {k} else d.timers,
                 d.deliveredTotal, d.failures)
  }

  /** The timer callback; the runtime only calls it for a timer that was armed and not cleared. */
  function TimerFires(d: Deliveries, k: Key): Deliveries {
    if k !in d.timers then d
    else
      var e := d.(timers := d.timers - {k});
      if k in d.records && d.records[k].state == SENT then RecordFailure(e, k, ACK_TIMEOUT) else e
  }

  predicate WaitingFor(d: Deliveries, user: string, k: Key) {
    k in d.records && k.recipientId == user && d.records[k].state == SENT
  }

  function Disconnect(d: Deliveries, user: string): Deliveries {
    if user == "" then d
    else
      var hit := set k | k in d.records && WaitingFor(d, user, k);
      d.(timers := d.timers - hit, failures := WithClosed(d, hit))
  }

  function WithClosed(d: Deliveries, hit: set<Key>): map<Key, seq<Reason>> {
    d.failures + map k | k in hit :: FailuresOf(d, k) + [SOCKET_CLOSED]
  }

  lemma WithClosedStep(d: Deliveries, hit: set<Key>, k: Key)
    requires k !in hit
    ensures WithClosed(d, hit + {k}) == WithClosed(d, hit)[k := FailuresOf(d, k) + [SOCKET_CLOSED]]
    ensures FailuresOf(d.(failures := WithClosed(d, hit)), k) == FailuresOf(d, k)
  {}

  predicate IsPendingReplay(d: Deliveries, k: Key) {
    k in d.records ==> !Final(d.records[k].state)
  }

  // ----- Runs of one process -----

  datatype Op =
    | OpCreate(k: Key)
    | OpTransition(k: Key, next: State)
    | OpForceRead(k: Key)
    | OpTimer(k: Key)
    | OpDisconnect(user: string)
    | OpOtherFailure(k: Key)

  /** `dt` is the time since the previous operation: the clock never runs backwards. */
  datatype Event = Event(dt: nat, op: Op)

  /** `forced` counts the forced reads that finished a delivery the counter had not seen. */
  datatype Run = Run(d: Deliveries, forced: nat, clock: nat)

  predicate ForcesUncounted(d: Deliveries, k: Key) {
    k.messageId != "" && k.recipientId != "" && IsPendingReplay(d, k)
  }

  function Apply(d: Deliveries, op: Op, now: int): Deliveries {
    match op
    case OpCreate(k) => Create(d, k, now)
    case OpTransition(k, next) => Transition(d, k, next, now).0
    case OpForceRead(k) => ForceRead(d, k, now)
    case OpTimer(k) => TimerFires(d, k)
    case OpDisconnect(user) => Disconnect(d, user)
    case OpOtherFailure(k) => RecordFailure(d, k, OTHER)
  }

  function Step(r: Run, e: Event): Run {
    var now := r.clock + e.dt;
    Run(Apply(r.d, e.op, now),
        r.forced + (if e.op.OpForceRead? && ForcesUncounted(r.d, e.op.k) then 1 else 0),
        now)
  }

  function Execute(events: seq<Event>): Run {
    if events == [] then Run(EMPTY, 0, 0)
    else Step(Execute(events[..|events| - 1]), events[|events| - 1])
  }

  // ----- Timers and failures -----

  predicate SentBefore(d: Deliveries, k: Key) {
    k in d.records && d.records[k].state != PERSISTED
  }

  /** Nothing may follow the entry that ends a wait except another closed-socket report or an unrelated one. */
  ghost predicate TimeoutOnceAndFirst(log: seq<Reason>) {
    forall i, j :: 0 <= i < j < |log| && log[j] == ACK_TIMEOUT ==> log[i] == OTHER
  }

  ghost predicate Waits(d: Deliveries) {
    && (forall k | k in d.timers :: k in d.records && d.records[k].state == SENT)
    && (forall k | k in d.failures && (ACK_TIMEOUT in d.failures[k] || SOCKET_CLOSED in d.failures[k]) ::
          SentBefore(d, k) && k !in d.timers)
    && (forall k | k in d.failures :: TimeoutOnceAndFirst(d.failures[k]))
  }

  lemma LogAdded(log: seq<Reason>, why: Reason)
    requires TimeoutOnceAndFirst(log) && (why == ACK_TIMEOUT ==> forall x | x in log :: x == OTHER)
    ensures TimeoutOnceAndFirst(log + [why])
    ensures forall x :: x in log + [why] <==> x in log || x == why
  {
    var more := log + [why];
    assert more[|log|] == why;
    forall i, j | 0 <= i < j < |more| && more[j] == ACK_TIMEOUT ensures more[i] == OTHER {
      assert more[i] == log[i] && log[i] in log;
    }
  }

  /** Operations that record no failure and never put a delivery back to PERSISTED. */
  lemma RecordsKeepWaits(d: Deliveries, e: Deliveries)
    requires Waits(d) && e.failures == d.failures
    requires forall k | k in e.timers :: k in e.records && e.records[k].state == SENT
    requires forall k | k in e.timers && SentBefore(d, k) :: k in d.timers
    requires forall k | SentBefore(d, k) :: SentBefore(e, k)
    ensures Waits(e)
  {}

  /** One reason recorded for a delivery whose timer, if it was waiting, goes. */
  lemma FailureKeepsWaits(d: Deliveries, k: Key, why: Reason, timers: set<Key>)
    requires Waits(d) && timers <= d.timers
    requires why != OTHER ==> SentBefore(d, k) && k !in timers
    requires why == ACK_TIMEOUT ==> k in d.timers
    ensures Waits(RecordFailure(d.(timers := timers), k, why))
  {
    var log := FailuresOf(d, k);
    LogAdded(log, why);
    assert RecordFailure(d.(timers := timers), k, why).failures[k] == log + [why];
  }

  lemma DisconnectKeepsWaits(d: Deliveries, user: string)
    requires Waits(d)
    ensures Waits(Disconnect(d, user))
  {
    var e := Disconnect(d, user);
    if user != "" {
      forall k | WaitingFor(d, user, k)
        ensures k !in e.timers && e.failures[k] == FailuresOf(d, k) + [SOCKET_CLOSED]
          && TimeoutOnceAndFirst(e.failures[k])
      {
        LogAdded(FailuresOf(d, k), SOCKET_CLOSED);
      }
      forall k | k in e.failures && !WaitingFor(d, user, k) ensures k in d.failures && e.failures[k] == d.failures[k] {}
    }
  }

  lemma ApplyKeepsWaits(d: Deliveries, op: Op, now: int)
    requires Waits(d)
    ensures Waits(Apply(d, op, now))
  {
    match op {
      case OpTimer(k) => if k in d.timers { FailureKeepsWaits(d, k, ACK_TIMEOUT, d.timers - {k}); }
      case OpDisconnect(user) => DisconnectKeepsWaits(d, user);
      case OpOtherFailure(k) => FailureKeepsWaits(d, k, OTHER, d.timers);
      case _ => RecordsKeepWaits(d, Apply(d, op, now));
    }
  }

  /** A delivery never loses its record and its state never moves back. */
  lemma ApplyMovesForward(d: Deliveries, op: Op, now: int, k: Key)
    requires k in d.records
    ensures k in Apply(d, op, now).records
    ensures Rank(d.records[k].state) <= Rank(Apply(d, op, now).records[k].state)
  {}

  // ----- What each operation does -----

  /** Only the one delivery is touched. */
  ghost predicate OnlyKey(d: Deliveries, e: Deliveries, k: Key) {
    forall j | j != k ::
      && (j in d.records <==> j in e.records) && (j in d.records ==> e.records[j] == d.records[j])
      && (j in d.timers <==> j in e.timers) && FailuresOf(d, j) == FailuresOf(e, j)
  }

  predicate GoodKey(k: Key) {
    k.messageId != "" && k.recipientId != ""
  }

  /** The steps the life of a delivery may take. */
  predicate MayFollow(s: State, next: State) {
    || (s == PERSISTED && next == SENT) || (s == PERSISTED && next == DELIVERED)
    || (s == SENT && next == DELIVERED) || (s == DELIVERED && next == READ)
  }

  /**
    A transition succeeds exactly along one of these steps of an existing record. It then sets the state and its
    stamp and nothing else, arms the timer exactly for SENT, and counts exactly a DELIVERED; else nothing changes.
   */
  lemma TransitionEffect(d: Deliveries, k: Key, next: State, now: int)
    requires k in d.timers ==> k in d.records && d.records[k].state == SENT
    ensures var (e, o) := Transition(d, k, next, now);
            && (o == Done <==> GoodKey(k) && k in d.records && MayFollow(d.records[k].state, next))
            && (o == InvalidPayload <==> !GoodKey(k)) && (o == NotFound <==> GoodKey(k) && k !in d.records)
            && (o != Done ==> e == d)
            && (o == Done ==>
                  && OnlyKey(d, e, k) && e.failures == d.failures && k in e.records
                  && e.records[k].state == next && e.records[k].persistedAt == d.records[k].persistedAt
                  && e.records[k].sentAt == (if next == SENT then Some(now) else d.records[k].sentAt)
                  && e.records[k].deliveredAt == (if next == DELIVERED then Some(now) else d.records[k].deliveredAt)
                  && e.records[k].readAt == (if next == READ then Some(now) else d.records[k].readAt)
                  && (k in e.timers <==> next == SENT)
                  && e.deliveredTotal == d.deliveredTotal + (if next == DELIVERED then 1 else 0))
  {}

  /** A forced read reaches READ from any state, keeps the stamps there are, and clears the timer. */
  lemma ForceReadEffect(d: Deliveries, k: Key, now: int)
    requires GoodKey(k) && (k in d.timers ==> k in d.records && d.records[k].state == SENT)
    ensures var e := ForceRead(d, k, now);
            && OnlyKey(d, e, k) && e.failures == d.failures && k in e.records && k !in e.timers
            && e.records[k].state == READ && e.records[k].readAt == Some(now)
            && (k in d.records ==>
                  && e.records[k].persistedAt == d.records[k].persistedAt && e.records[k].sentAt == d.records[k].sentAt
                  && e.records[k].deliveredAt
                     == if d.records[k].deliveredAt.Some? then d.records[k].deliveredAt else Some(now))
            && (k !in d.records ==> e.records[k] == Record(READ, now, None, Some(now), Some(now)))
            && e.deliveredTotal == d.deliveredTotal
  {}

  /** A user's disconnect logs one closed socket for each of the user's SENT deliveries and stops their timers. */
  lemma DisconnectEffect(d: Deliveries, user: string, k: Key)
    ensures var e := Disconnect(d, user);
            && e.records == d.records && e.deliveredTotal == d.deliveredTotal
            && if user != "" && k in d.records && k.recipientId == user && d.records[k].state == SENT
               then FailuresOf(e, k) == FailuresOf(d, k) + [SOCKET_CLOSED] && k !in e.timers
               else FailuresOf(e, k) == FailuresOf(d, k) && (k in e.timers <==> k in d.timers)
  {}

  /** A timer that fires is gone, and a delivery still SENT has timed out. */
  lemma TimerEffect(d: Deliveries, k: Key)
    requires k in d.timers
    ensures var e := TimerFires(d, k);
            && OnlyKey(d, e, k) && e.records == d.records && k !in e.timers && e.deliveredTotal == d.deliveredTotal
            && FailuresOf(e, k)
               == FailuresOf(d, k) + if k in d.records && d.records[k].state == SENT then [ACK_TIMEOUT] else []
  {}

  /** Every delivery that is SENT has its timer armed, or the end of the wait on its log. */
  ghost predicate Watched(d: Deliveries, k: Key) {
    k in d.records && d.records[k].state == SENT ==>
      k in d.timers || ACK_TIMEOUT in FailuresOf(d, k) || SOCKET_CLOSED in FailuresOf(d, k)
  }

  lemma ApplyWatches(d: Deliveries, op: Op, now: int, k: Key)
    requires Watched(d, k)
    ensures Watched(Apply(d, op, now), k)
  {
    var e := Apply(d, op, now);
    match op {
      case OpDisconnect(user) => DisconnectEffect(d, user, k);
      case OpTimer(j) =>
        if j in d.timers {
          TimerEffect(d, j);
          assert j == k && k in d.records && d.records[k].state == SENT ==>
                   FailuresOf(e, k)[|FailuresOf(d, k)|] == ACK_TIMEOUT;
        }
      case OpOtherFailure(j) => assert j == k ==> FailuresOf(e, k) == FailuresOf(d, k) + [OTHER];
      case _ =>
    }
  }

  /** In every run a message sent and not confirmed is waited for until its wait has ended in the log. */
  lemma {:induction false} SentIsWatched(events: seq<Event>, k: Key)
    ensures Watched(Execute(events).d, k)
  {
    if events != [] {
      var r, e := Execute(events[..|events| - 1]), events[|events| - 1];
      SentIsWatched(events[..|events| - 1], k);
      ApplyWatches(r.d, e.op, r.clock + e.dt, k);
    }
  }

  // ----- Conservation -----

  ghost function Finished(d: Deliveries): set<Key> {
    set k | k in d.records && Final(d.records[k].state)
  }

  ghost predicate Conserved(r: Run) {
    r.d.deliveredTotal + r.forced == |Finished(r.d)|
  }

  /** Replacing one record adds its key to the finished ones, drops it, or changes nothing. */
  lemma FinishedAfterUpdate(d: Deliveries, e: Deliveries, k: Key, r: Record)
    requires e.records == d.records[k := r]
    ensures Final(r.state) ==> Finished(e) == Finished(d) + {k}
    ensures !Final(r.state) ==> Finished(e) == Finished(d) - {k}
  {}

  lemma SameFinished(d: Deliveries, e: Deliveries)
    requires e.records == d.records
    ensures Finished(e) == Finished(d)
  {}

  lemma TransitionConserves(d: Deliveries, k: Key, next: State, now: int)
    ensures var f := Transition(d, k, next, now).0;
            |Finished(f)| - |Finished(d)| == f.deliveredTotal - d.deliveredTotal
  {
    var (f, outcome) := Transition(d, k, next, now);
    if outcome == Done {
      FinishedAfterUpdate(d, f, k, f.records[k]);
      if next == READ {
        assert k in Finished(d) && Finished(d) + {k} == Finished(d);
      } else {
        assert k !in Finished(d) && Finished(d) - {k} == Finished(d);
      }
    }
  }

  lemma ForceConserves(d: Deliveries, k: Key, now: int)
    ensures |Finished(ForceRead(d, k, now))| - |Finished(d)| == if ForcesUncounted(d, k) then 1 else 0
  {
    var f := ForceRead(d, k, now);
    if k.messageId != "" && k.recipientId != "" {
      FinishedAfterUpdate(d, f, k, f.records[k]);
      if k in Finished(d) {
        assert Finished(d) + {k} == Finished(d);
      }
    }
  }

  lemma CreateConserves(d: Deliveries, k: Key, now: int)
    ensures |Finished(Create(d, k, now))| == |Finished(d)|
  {
    var f := Create(d, k, now);
    if f.records == d.records {
      SameFinished(d, f);
    } else {
      FinishedAfterUpdate(d, f, k, f.records[k]);
    }
  }

  lemma StepConserves(r: Run, e: Event)
    requires Conserved(r)
    ensures Conserved(Step(r, e))
  {
    var now := r.clock + e.dt;
    match e.op {
      case OpCreate(k) => CreateConserves(r.d, k, now);
      case OpTransition(k, next) => TransitionConserves(r.d, k, next, now);
      case OpForceRead(k) => ForceConserves(r.d, k, now);
      case _ => SameFinished(r.d, Apply(r.d, e.op, now));
    }
  }

  // ----- Timestamps -----

  predicate OrderedIfSet(a: Option<int>, b: Option<int>) {
    a.Some? && b.Some? ==> a.value <= b.value
  }

  /** persistedAt <= sentAt <= deliveredAt <= readAt wherever they are set, and each state has its own stamp. */
  predicate Coherent(r: Record) {
    && OrderedIfSet(Some(r.persistedAt), r.sentAt) && OrderedIfSet(Some(r.persistedAt), r.deliveredAt)
    && OrderedIfSet(Some(r.persistedAt), r.readAt)
    && OrderedIfSet(r.sentAt, r.deliveredAt) && OrderedIfSet(r.sentAt, r.readAt)
    && OrderedIfSet(r.deliveredAt, r.readAt)
    && (r.state == SENT ==> r.sentAt.Some?)
    && (r.deliveredAt.Some? <==> Final(r.state))
    && (r.readAt.Some? <==> r.state == READ)
  }

  predicate NotAfter(r: Record, clock: int) {
    && r.persistedAt <= clock
    && OrderedIfSet(r.sentAt, Some(clock)) && OrderedIfSet(r.deliveredAt, Some(clock))
    && OrderedIfSet(r.readAt, Some(clock))
  }

  predicate GoodStamp(r: Record, clock: int) {
    Coherent(r) && NotAfter(r, clock)
  }

  lemma MovedGoodStamp(r: Record, next: State, clock: int, now: int)
    requires GoodStamp(r, clock) && clock <= now && next in Allowed(r.state)
    ensures GoodStamp(Moved(r, next, now), now)
  {}

  predicate GoodAt(records: map<Key, Record>, k: Key, clock: int) {
    k in records ==> GoodStamp(records[k], clock)
  }

  ghost predicate AllGood(records: map<Key, Record>, clock: int) {
    forall k :: GoodAt(records, k, clock)
  }

  ghost predicate StampedBy(d: Deliveries, clock: int) {
    AllGood(d.records, clock)
  }

  ghost predicate Stamped(r: Run) {
    StampedBy(r.d, r.clock)
  }

  /** What held at an earlier time holds later, also with one record replaced by a good one. */
  lemma GoodLater(records: map<Key, Record>, clock: int, now: int)
    requires AllGood(records, clock) && clock <= now
    ensures AllGood(records, now)
  {
    forall k ensures GoodAt(records, k, now) {
      assert GoodAt(records, k, clock);
    }
  }

  lemma OneReplaced(records: map<Key, Record>, k: Key, r: Record, now: int)
    requires AllGood(records, now) && GoodStamp(r, now)
    ensures AllGood(records[k := r], now)
  {
    var more := records[k := r];
    forall j ensures GoodAt(more, j, now) {
      assert GoodAt(records, j, now);
    }
  }

  lemma TransitionKeepsStamps(d: Deliveries, k: Key, next: State, clock: int, now: int)
    requires AllGood(d.records, clock) && clock <= now
    ensures AllGood(Transition(d, k, next, now).0.records, now)
  {
    GoodLater(d.records, clock, now);
    if Transition(d, k, next, now).1 == Done {
      assert GoodAt(d.records, k, clock);
      MovedGoodStamp(d.records[k], next, clock, now);
      OneReplaced(d.records, k, Moved(d.records[k], next, now), now);
    }
  }

  lemma ForceKeepsStamps(d: Deliveries, k: Key, clock: int, now: int)
    requires AllGood(d.records, clock) && clock <= now
    ensures AllGood(ForceRead(d, k, now).records, now)
  {
    GoodLater(d.records, clock, now);
    var f := ForceRead(d, k, now);
    if k.messageId != "" && k.recipientId != "" {
      assert GoodAt(d.records, k, clock);
      OneReplaced(d.records, k, f.records[k], now);
    }
  }

  lemma ApplyKeepsStamps(d: Deliveries, op: Op, clock: int, now: int)
    requires StampedBy(d, clock) && clock <= now
    ensures StampedBy(Apply(d, op, now), now)
  {
    GoodLater(d.records, clock, now);
    match op {
      case OpCreate(k) => OneReplaced(d.records, k, Record(PERSISTED, now, None, None, None), now);
      case OpTransition(k, next) => TransitionKeepsStamps(d, k, next, clock, now);
      case OpForceRead(k) => ForceKeepsStamps(d, k, clock, now);
      case _ => assert Apply(d, op, now).records == d.records;
    }
  }

  // ----- Results for every run -----

  lemma StepKeepsWaits(r: Run, e: Event)
    requires Waits(r.d)
    ensures Waits(Step(r, e).d)
  {
    ApplyKeepsWaits(r.d, e.op, r.clock + e.dt);
  }

  lemma StepKeepsStamps(r: Run, e: Event)
    requires Stamped(r)
    ensures Stamped(Step(r, e))
  {
    ApplyKeepsStamps(r.d, e.op, r.clock, r.clock + e.dt);
  }

  lemma {:induction false} WaitsInEveryRun(events: seq<Event>)
    ensures Waits(Execute(events).d)
  {
    if events != [] {
      WaitsInEveryRun(events[..|events| - 1]);
      StepKeepsWaits(Execute(events[..|events| - 1]), events[|events| - 1]);
    }
  }

  lemma {:induction false} StampedInEveryRun(events: seq<Event>)
    ensures Stamped(Execute(events))
  {
    if events != [] {
      StampedInEveryRun(events[..|events| - 1]);
      StepKeepsStamps(Execute(events[..|events| - 1]), events[|events| - 1]);
    }
  }

  lemma {:induction false} ConservedInEveryRun(events: seq<Event>)
    ensures Conserved(Execute(events))
  {
    if events == [] {
      assert Finished(EMPTY) == {};
    } else {
      ConservedInEveryRun(events[..|events| - 1]);
      StepConserves(Execute(events[..|events| - 1]), events[|events| - 1]);
    }
  }

  lemma EveryRun(events: seq<Event>)
    ensures Waits(Execute(events).d) && Conserved(Execute(events)) && Stamped(Execute(events))
  {
    WaitsInEveryRun(events);
    ConservedInEveryRun(events);
    StampedInEveryRun(events);
  }

  /** ACK_TIMEOUT is recorded at most once per delivery, and never once SOCKET_CLOSED has been. */
  lemma TimeoutAtMostOnce(events: seq<Event>, k: Key, i: nat, j: nat)
    requires i < j < |FailuresOf(Execute(events).d, k)|
    requires FailuresOf(Execute(events).d, k)[i] != OTHER
    ensures FailuresOf(Execute(events).d, k)[j] != ACK_TIMEOUT
  {
    EveryRun(events);
  }

  /** A timer that fires always finds its delivery SENT, so it always records the timeout. */
  lemma FiringTimerFindsSent(events: seq<Event>, k: Key)
    requires k in Execute(events).d.timers
    ensures var d := Execute(events).d;
            k in d.records && d.records[k].state == SENT
            && FailuresOf(TimerFires(d, k), k) == FailuresOf(d, k) + [ACK_TIMEOUT]
            && forall why | why in FailuresOf(d, k) :: why == OTHER
  {
    EveryRun(events);
  }
}
