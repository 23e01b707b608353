/**
  Which messages no replay ever returns: exactly the settled ones that a crash took out of a replay's hands
  or their recipient confirmed. With a run that acknowledges a message and loses it, in three ways.
 */
module Losses {
  import opened Sorting
  import opened MessageStore
  import opened Services
  import opened Protocol
  import opened Accounts
  import Text
  import ReplayDrain
  import Delivery
  import ChatId

  // ----- Continuations -----

  /** Every reachable machine has well-formed rows, so the second branch only makes the function total. */
  ghost function After(m: Machine, x: (Event, int)): Machine {
    if RowsWellFormed(m.w.db) then Step(m, x.0, x.1) else m
  }

  /** The machine after some more events. */
  ghost function Run(m: Machine, more: seq<(Event, int)>): Machine
    decreases |more|
  {
    if more == [] then m else Run(After(m, more[0]), more[1..])
  }

  lemma {:induction false} RunAppend(m: Machine, a: seq<(Event, int)>, b: seq<(Event, int)>)
    ensures Run(m, a + b) == Run(Run(m, a), b)
    decreases |a|
  {
    if a == [] {
      assert a + b == b;
    } else {
      assert (a + b)[1..] == a[1..] + b;
      RunAppend(After(m, a[0]), a[1..], b);
    }
  }

  lemma RunOne(m: Machine, x: (Event, int))
    ensures Run(m, [x]) == After(m, x)
  {}

  lemma {:induction false} ExecuteIsRun(events: seq<(Event, int)>)
    ensures Execute(events) == Run(START, events)
  {
    if events != [] {
      var front, x := events[..|events| - 1], events[|events| - 1];
      ExecuteIsRun(front);
      RunAppend(START, front, [x]);
      RunOne(Run(START, front), x);
      assert events == front + [x];
    }
  }

  /** Continuing a run from the start is a run from the start. */
  lemma RunContinues(events: seq<(Event, int)>, more: seq<(Event, int)>)
    ensures Run(Execute(events), more) == Execute(events + more)
  {
    ExecuteIsRun(events);
    ExecuteIsRun(events + more);
    RunAppend(START, events, more);
  }

  lemma OverAfter(m: Machine, x: (Event, int), p: Pair)
    requires Inv(m) && Over(m, p)
    ensures var n := After(m, x); Inv(n) && Over(n, p) && (p in n.emitted <==> p in m.emitted)
  {
    StepKeeps(m, x.0, x.1);
    OverStays(m, x.0, x.1, p);
  }

  lemma {:induction false} OverForever(m: Machine, more: seq<(Event, int)>, p: Pair)
    requires Inv(m) && Over(m, p)
    ensures p in Run(m, more).emitted <==> p in m.emitted
    decreases |more|
  {
    if more != [] {
      OverAfter(m, more[0], p);
      OverForever(After(m, more[0]), more[1..], p);
    }
  }

  // ----- Finishing a replay -----

  function Round(user: string): seq<(Event, int)> {
    [(EvReplayRead(user), 0), (EvReplayUpdate(user), 0), (EvReplayTrack(user), 0), (EvReplayEmit(user), 0)]
  }

  function Rounds(user: string, k: nat): seq<(Event, int)> {
    if k == 0 then [] else Rounds(user, k - 1) + Round(user)
  }

  lemma RunTwo(m: Machine, x: (Event, int), y: (Event, int))
    ensures Run(m, [x, y]) == After(After(m, x), y)
  {
    assert [x, y][1..] == [y];
    RunOne(After(m, x), y);
  }

  lemma RunFour(m: Machine, x: (Event, int), y: (Event, int), z: (Event, int), u: (Event, int))
    ensures Run(m, [x, y, z, u]) == After(After(After(After(m, x), y), z), u)
  {
    assert [x, y, z, u] == [x, y] + [z, u];
    RunAppend(m, [x, y], [z, u]);
    RunTwo(m, x, y);
    RunTwo(After(After(m, x), y), z, u);
  }

  lemma AfterKeeps(m: Machine, e: Event, now: int)
    requires Inv(m)
    ensures After(m, (e, now)) == Step(m, e, now) && Inv(Step(m, e, now))
  {
    StepKeeps(m, e, now);
  }

  lemma AfterBegin(m: Machine, user: string, after: string, limit: int)
    requires Inv(m)
    ensures var n := ReplayBegin(m, user, after, limit);
            After(m, (EvReplayBegin(user, after, limit), 0)) == n && Inv(n)
  {
    AfterKeeps(m, EvReplayBegin(user, after, limit), 0);
  }

  lemma AfterRead(m: Machine, user: string)
    requires Inv(m)
    ensures After(m, (EvReplayRead(user), 0)) == ReplayRead(m, user) && Inv(ReplayRead(m, user))
  {
    AfterKeeps(m, EvReplayRead(user), 0);
  }

  lemma AfterUpdate(m: Machine, user: string)
    requires Inv(m)
    ensures After(m, (EvReplayUpdate(user), 0)) == ReplayUpdate(m, user, 0) && Inv(ReplayUpdate(m, user, 0))
  {
    AfterKeeps(m, EvReplayUpdate(user), 0);
  }

  lemma AfterTrack(m: Machine, user: string)
    requires Inv(m)
    ensures After(m, (EvReplayTrack(user), 0)) == ReplayTrack(m, user) && Inv(ReplayTrack(m, user))
  {
    AfterKeeps(m, EvReplayTrack(user), 0);
  }

  lemma AfterEmit(m: Machine, user: string)
    requires Inv(m)
    ensures After(m, (EvReplayEmit(user), 0)) == ReplayEmit(m, user, 0) && Inv(ReplayEmit(m, user, 0))
  {
    AfterKeeps(m, EvReplayEmit(user), 0);
  }

  lemma RunRound(m: Machine, user: string)
    requires Inv(m)
    ensures Run(m, Round(user)) == ReplayHead(m, user, 0) && Inv(ReplayHead(m, user, 0))
  {
    var a := ReplayRead(m, user);
    var b := ReplayUpdate(a, user, 0);
    AfterRead(m, user);
    AfterUpdate(a, user);
    AfterTrack(b, user);
    AfterEmit(ReplayTrack(b, user), user);
    RunFour(m, (EvReplayRead(user), 0), (EvReplayUpdate(user), 0), (EvReplayTrack(user), 0), (EvReplayEmit(user), 0));
  }

  /** What a segment leaves of one user's task: it drops nothing carried. */
  ghost predicate Carries(m: Machine, n: Machine) {
    forall p :: Carried(m.replays, p) ==> Carried(n.replays, p)
  }

  lemma RoundCarries(m: Machine, user: string, now: int)
    ensures Carries(m, ReplayHead(m, user, now))
  {
    var a := ReplayRead(m, user);
    var b := ReplayUpdate(a, user, now);
    var c := ReplayTrack(b, user);
    ReadCarries(m, user);
    UpdateCarries(a, user, now);
    TrackCarries(b, user);
    EmitCarries(c, user, now);
  }

  ghost predicate Popped(m: Machine, n: Machine, user: string)
    requires user in m.replays && m.replays[user].queue != []
  {
    user in n.replays && n.replays[user].queue == m.replays[user].queue[1..] && n.replays[user].stage == Next
  }

  ghost predicate Moved(m: Machine, n: Machine, user: string, stage: ReplayStage)
    requires user in m.replays && m.replays[user].queue != []
  {
    user in n.replays && n.replays[user].queue == m.replays[user].queue && n.replays[user].stage == stage
  }

  lemma ReadMoves(m: Machine, user: string)
    requires At(m, user, Next)
    ensures Popped(m, ReplayRead(m, user), user) || Moved(m, ReplayRead(m, user), user, Passed)
  {}

  lemma UpdateMoves(m: Machine, user: string, now: int)
    requires At(m, user, Passed)
    ensures Popped(m, ReplayUpdate(m, user, now), user) || Moved(m, ReplayUpdate(m, user, now), user, Updated)
  {}

  lemma TrackMoves(m: Machine, user: string)
    requires At(m, user, Updated)
    ensures Moved(m, ReplayTrack(m, user), user, Tracked)
  {}

  lemma EmitMoves(m: Machine, user: string, now: int)
    requires At(m, user, Tracked)
    ensures Popped(m, ReplayEmit(m, user, now), user)
  {}

  /** One round pops the head, from whatever stage it stands at. */
  lemma RoundPops(m: Machine, user: string, now: int)
    requires user in m.replays && m.replays[user].queue != []
    ensures var n := ReplayHead(m, user, now);
            user in n.replays && n.replays[user].queue == m.replays[user].queue[1..]
  {
    var a := ReplayRead(m, user);
    if At(m, user, Next) { ReadMoves(m, user); }
    var b := ReplayUpdate(a, user, now);
    if At(a, user, Passed) { UpdateMoves(a, user, now); }
    var c := ReplayTrack(b, user);
    if At(b, user, Updated) { TrackMoves(b, user); }
    if At(c, user, Tracked) { EmitMoves(c, user, now); }
  }

  /** A round, as a continuation. */
  lemma OneRound(m: Machine, user: string)
    requires Inv(m) && user in m.replays && m.replays[user].queue != []
    ensures var n := Run(m, Round(user));
            && Inv(n) && Carries(m, n)
            && user in n.replays && n.replays[user].queue == m.replays[user].queue[1..]
  {
    RunRound(m, user);
    RoundPops(m, user, 0);
    RoundCarries(m, user, 0);
  }

  lemma MoreRounds(m: Machine, user: string, k: nat)
    ensures Run(m, Rounds(user, k + 1)) == Run(Run(m, Rounds(user, k)), Round(user))
  {
    RunAppend(m, Rounds(user, k), Round(user));
  }

  /** The machine k heads further on, with nothing dropped. */
  ghost predicate Advanced(m: Machine, n: Machine, user: string, queue: seq<Row>, k: nat) {
    Inv(n) && Carries(m, n) && user in n.replays && k <= |queue| && n.replays[user].queue == queue[k..]
  }

  lemma RoundsStep(m: Machine, v: Machine, user: string, queue: seq<Row>, k: nat)
    requires Advanced(m, v, user, queue, k) && k < |queue|
    ensures Advanced(m, Run(v, Round(user)), user, queue, k + 1)
  {
    OneRound(v, user);
  }

  lemma NoRounds(m: Machine, user: string)
    ensures Run(m, Rounds(user, 0)) == m
  {}

  lemma RoundsPopStep(m: Machine, user: string, queue: seq<Row>, k: nat)
    requires Advanced(m, Run(m, Rounds(user, k)), user, queue, k) && k < |queue|
    ensures Advanced(m, Run(m, Rounds(user, k + 1)), user, queue, k + 1)
  {
    RoundsStep(m, Run(m, Rounds(user, k)), user, queue, k);
    MoreRounds(m, user, k);
  }

  lemma RoundsPopZero(m: Machine, user: string, queue: seq<Row>)
    requires Advanced(m, m, user, queue, 0)
    ensures Advanced(m, Run(m, Rounds(user, 0)), user, queue, 0)
  {
    NoRounds(m, user);
  }

  lemma {:induction false} RoundsPop(m: Machine, user: string, queue: seq<Row>, k: nat)
    requires Advanced(m, m, user, queue, 0) && k <= |queue|
    ensures Advanced(m, Run(m, Rounds(user, k)), user, queue, k)
  {
    if k == 0 {
      RoundsPopZero(m, user, queue);
    } else {
      RoundsPop(m, user, queue, k - 1);
      RoundsPopStep(m, user, queue, k - 1);
    }
  }

  /** The rest of a replay in flight, without interruption. */
  function Finish(user: string, k: nat): seq<(Event, int)> {
    Rounds(user, k) + [(EvReplayReturn(user), 0)]
  }

  lemma FinishIs(m: Machine, user: string, k: nat)
    requires Inv(Run(m, Rounds(user, k)))
    ensures Run(m, Finish(user, k)) == ReplayReturn(Run(m, Rounds(user, k)), user)
  {
    RunAppend(m, Rounds(user, k), [(EvReplayReturn(user), 0)]);
    RunOne(Run(m, Rounds(user, k)), (EvReplayReturn(user), 0));
  }

  /** What a replay carries is returned if the replay is left alone. */
  lemma CarriedIsReturned(m: Machine, p: Pair)
    requires Inv(m) && Carried(m.replays, p)
    ensures p in Run(m, Finish(p.user, |m.replays[p.user].queue|)).emitted
  {
    var k := |m.replays[p.user].queue|;
    RoundsPop(m, p.user, m.replays[p.user].queue, k);
    FinishIs(m, p.user, k);
    ReturnCarries(Run(m, Rounds(p.user, k)), p.user);
  }

  // ----- What is not settled can still be returned -----

  /** Nothing in the queue is marked, or blocked in memory. */
  ghost predicate Open(m: Machine, user: string) {
    && user in m.replays && m.replays[user].stage == Next
    && forall r | r in m.replays[user].queue :: r.messageId in m.w.db.rows && ReplayGuards(m.w, r.messageId, user)
  }

  lemma OthersDiffer(t: ReplayTask)
    requires IdsAscend(IdsOf(t)) && t.queue != []
    ensures forall r | r in t.queue[1..] :: r.messageId != t.queue[0].messageId
  {
    forall r | r in t.queue[1..] ensures r.messageId != t.queue[0].messageId {
      var i :| 0 <= i < |t.queue| - 1 && t.queue[1..][i] == r;
      var n := |t.out|;
      assert IdsOf(t)[n] == t.queue[0].messageId && IdsOf(t)[n + 1 + i] == r.messageId;
      Text.LessIrreflexive(r.messageId);
    }
  }

  lemma OpenHead(w: World, user: string, queue: seq<Row>)
    requires queue != [] && forall r | r in queue :: r.messageId in w.db.rows && ReplayGuards(w, r.messageId, user)
    requires forall r | r in queue[1..] :: r.messageId != queue[0].messageId
    ensures var (v, out) := ReplayOne(w, user, queue[0], 0);
            && out == [PayloadFor(queue[0])]
            && forall r | r in queue[1..] :: r.messageId in v.db.rows && ReplayGuards(v, r.messageId, user)
  {
    assert queue[0] in queue;
    forall r | r in queue[1..]
      ensures var v := ReplayOne(w, user, queue[0], 0).0; r.messageId in v.db.rows && ReplayGuards(v, r.messageId, user)
    {
      assert r in queue;
      ReplayDrain.ReplayOneLocal(w, user, queue[0], 0, r.messageId);
    }
  }

  lemma OpenRound(m: Machine, user: string)
    requires Open(m, user) && m.replays[user].queue != [] && IdsAscend(IdsOf(m.replays[user]))
    ensures var n := ReplayHead(m, user, 0);
            Open(n, user) && Carried(n.replays, Pair(user, m.replays[user].queue[0].messageId))
  {
    var t := m.replays[user];
    assert With(m, m.w, user, t) == m by {
      assert m.replays[user := t] == m.replays;
    }
    HeadIsReplayOne(m, m.w, user, t, 0);
    OthersDiffer(t);
    OpenHead(m.w, user, t.queue);
    var u := ReplayTask(t.queue[1..], Next, t.out + [PayloadFor(t.queue[0])]);
    assert ReplayHead(m, user, 0).replays[user] == u;
    assert PayloadFor(t.queue[0]) in u.out;
  }

  lemma OneOpenRound(m: Machine, user: string)
    requires Inv(m) && Open(m, user) && m.replays[user].queue != []
    ensures var n := Run(m, Round(user));
            Open(n, user) && Carried(n.replays, Pair(user, m.replays[user].queue[0].messageId))
  {
    assert TaskOk(m.w.db, m.emitted, user, m.replays[user]);
    RunRound(m, user);
    OpenRound(m, user);
  }

  ghost predicate FirstCarried(n: Machine, user: string, queue: seq<Row>, k: nat)
    requires k <= |queue|
  {
    forall i | 0 <= i < k :: Carried(n.replays, Pair(user, queue[i].messageId))
  }

  lemma OneMoreCarried(v: Machine, n: Machine, user: string, queue: seq<Row>, k: nat)
    requires k < |queue| && FirstCarried(v, user, queue, k) && Carries(v, n)
    requires Carried(n.replays, Pair(user, queue[k].messageId))
    ensures FirstCarried(n, user, queue, k + 1)
  {}

  lemma OpenStep(v: Machine, user: string, queue: seq<Row>, k: nat)
    requires Inv(v) && Open(v, user) && k < |queue| && v.replays[user].queue == queue[k..]
    requires FirstCarried(v, user, queue, k)
    ensures var n := Run(v, Round(user));
            Open(n, user) && FirstCarried(n, user, queue, k + 1) && Inv(n) && n.replays[user].queue == queue[k + 1..]
  {
    OneRound(v, user);
    OneOpenRound(v, user);
    OneMoreCarried(v, Run(v, Round(user)), user, queue, k);
  }

  ghost predicate AllOpen(n: Machine, user: string, queue: seq<Row>, k: nat) {
    && k <= |queue| && Inv(n) && Open(n, user) && n.replays[user].queue == queue[k..]
    && FirstCarried(n, user, queue, k)
  }

  lemma OpenRoundsStep(m: Machine, user: string, queue: seq<Row>, k: nat)
    requires AllOpen(Run(m, Rounds(user, k)), user, queue, k) && k < |queue|
    ensures AllOpen(Run(m, Rounds(user, k + 1)), user, queue, k + 1)
  {
    OpenStep(Run(m, Rounds(user, k)), user, queue, k);
    MoreRounds(m, user, k);
  }

  lemma {:induction false} OpenRounds(m: Machine, user: string, queue: seq<Row>, k: nat)
    requires AllOpen(m, user, queue, 0) && k <= |queue|
    ensures AllOpen(Run(m, Rounds(user, k)), user, queue, k)
  {
    if k == 0 {
      NoRounds(m, user);
    } else {
      OpenRounds(m, user, queue, k - 1);
      OpenRoundsStep(m, user, queue, k - 1);
    }
  }

  lemma OpenFinish(m: Machine, user: string, r: Row)
    requires Inv(m) && Open(m, user) && r in m.replays[user].queue
    ensures Pair(user, r.messageId) in Run(m, Finish(user, |m.replays[user].queue|)).emitted
  {
    var queue := m.replays[user].queue;
    OpenRounds(m, user, queue, |queue|);
    FinishIs(m, user, |queue|);
    AllReturned(Run(m, Rounds(user, |queue|)), user, queue, r);
  }

  lemma AllReturned(n: Machine, user: string, queue: seq<Row>, r: Row)
    requires user in n.replays && n.replays[user].queue == [] && FirstCarried(n, user, queue, |queue|) && r in queue
    ensures Pair(user, r.messageId) in ReplayReturn(n, user).emitted
  {
    var i :| 0 <= i < |queue| && queue[i] == r;
    assert Carried(n.replays, Pair(user, queue[i].messageId));
    ReturnCarries(n, user);
  }

  lemma WholePage(db: Db, user: string, limit: int)
    requires RowsWellFormed(db) && limit == |AllAwaiting(db, user, "")| + 1
    ensures Align(db, GetUndelivered(db, user, "", EffectiveLimit(limit))) == AllAwaiting(db, user, "")
  {
    var all := AllAwaiting(db, user, "");
    AwaitingListing(db, user, "");
    ReplayDrain.AlignIsIdentity(db, all);
  }

  lemma ListingOpen(w: World, p: Pair)
    requires RowsWellFormed(w.db) && w.mem == BLANK_MEMORY && Owns(w.db, p) && !Settled(w.db, p)
    ensures var all := AllAwaiting(w.db, p.user, "");
            && (forall r | r in all :: r.messageId in w.db.rows && ReplayGuards(w, r.messageId, p.user))
            && w.db.rows[p.id] in all && w.db.rows[p.id].messageId == p.id
  {
    AwaitingListing(w.db, p.user, "");
    assert w.db.rows[p.id] in AllAwaiting(w.db, p.user, "");
  }

  /** With blank memory a replay from the beginning fetches everything that awaits the user, and nothing blocks it. */
  lemma BeginOpen(m: Machine, p: Pair, limit: int)
    requires RowsWellFormed(m.w.db) && m.w.mem == BLANK_MEMORY && p.user !in m.replays && Owns(m.w.db, p)
    requires !Settled(m.w.db, p) && limit == |AllAwaiting(m.w.db, p.user, "")| + 1
    ensures var n := ReplayBegin(m, p.user, "", limit);
            Open(n, p.user) && m.w.db.rows[p.id] in n.replays[p.user].queue && m.w.db.rows[p.id].messageId == p.id
  {
    WholePage(m.w.db, p.user, limit);
    ListingOpen(m.w, p);
  }

  function Recover(user: string, limit: int, k: nat): seq<(Event, int)> {
    [(EvCrash, 0), (EvReplayBegin(user, "", limit), 0)] + Finish(user, k)
  }

  lemma CrashUnsettled(m: Machine, p: Pair)
    requires RowsWellFormed(m.w.db) && Owns(m.w.db, p) && !Settled(m.w.db, p)
    ensures var n := CrashAll(m); Owns(n.w.db, p) && !Settled(n.w.db, p)
  {
    HydrateRestores(m.w.db);
  }

  lemma RecoverIs(m: Machine, user: string, limit: int, k: nat)
    ensures Run(m, Recover(user, limit, k))
            == Run(After(After(m, (EvCrash, 0)), (EvReplayBegin(user, "", limit), 0)), Finish(user, k))
  {
    RunTwo(m, (EvCrash, 0), (EvReplayBegin(user, "", limit), 0));
    RunAppend(m, [(EvCrash, 0), (EvReplayBegin(user, "", limit), 0)], Finish(user, k));
  }

  lemma BeginReturns(a: Machine, p: Pair, limit: int)
    requires Inv(a) && a.w.mem == BLANK_MEMORY && p.user !in a.replays && Owns(a.w.db, p)
    requires !Settled(a.w.db, p) && limit == |AllAwaiting(a.w.db, p.user, "")| + 1
    ensures exists k :: p in Run(After(a, (EvReplayBegin(p.user, "", limit), 0)), Finish(p.user, k)).emitted
  {
    var n := ReplayBegin(a, p.user, "", limit);
    BeginOpen(a, p, limit);
    AfterBegin(a, p.user, "", limit);
    OpenFinish(n, p.user, a.w.db.rows[p.id]);
    assert p in Run(n, Finish(p.user, |n.replays[p.user].queue|)).emitted;
  }

  lemma AfterCrash(m: Machine)
    requires Inv(m)
    ensures var a := After(m, (EvCrash, 0));
            a == CrashAll(m) && Inv(a) && a.w.mem == BLANK_MEMORY && a.replays == map[]
  {
    AfterKeeps(m, EvCrash, 0);
  }

  lemma CrashReturns(m: Machine, p: Pair)
    requires Inv(m) && Owns(m.w.db, p) && !Settled(m.w.db, p)
    ensures exists limit, k ::
              p in Run(After(After(m, (EvCrash, 0)), (EvReplayBegin(p.user, "", limit), 0)), Finish(p.user, k)).emitted
  {
    var a := CrashAll(m);
    AfterCrash(m);
    CrashUnsettled(m, p);
    BeginReturns(a, p, |AllAwaiting(a.w.db, p.user, "")| + 1);
  }

  /** Whatever is stored and not settled is returned by a complete replay after a restart. */
  lemma UnsettledIsReturned(m: Machine, p: Pair)
    requires Inv(m) && Owns(m.w.db, p) && !Settled(m.w.db, p)
    ensures exists limit, k :: p in Run(m, Recover(p.user, limit, k)).emitted
  {
    CrashReturns(m, p);
    var limit, k :|
      p in Run(After(After(m, (EvCrash, 0)), (EvReplayBegin(p.user, "", limit), 0)), Finish(p.user, k)).emitted;
    RecoverIs(m, p.user, limit, k);
  }

  // ----- Exactly which messages are never returned -----

  predicate Waiting(t: ReplayTask, id: string) {
    !InHand(t, id) && exists r :: r in t.queue && r.messageId == id
  }

  /** Stored for the user, with no send of it in flight and not waiting in a page already fetched. */
  ghost predicate AtRest(m: Machine, p: Pair) {
    Owns(m.w.db, p) && NoSend(m, p.id) && (p.user in m.replays ==> !Waiting(m.replays[p.user], p.id))
  }

  lemma RestIsOver(m: Machine, p: Pair)
    requires InFlight(m) && AtRest(m, p) && Settled(m.w.db, p) && !Carried(m.replays, p)
    ensures Over(m, p)
  {}

  /** No run that goes on from here has returned the pair or returns it. */
  ghost predicate NeverReturned(m: Machine, p: Pair) {
    forall more :: p !in Run(m, more).emitted
  }

  lemma OverReturnedIff(m: Machine, p: Pair)
    requires Inv(m) && Over(m, p)
    ensures NeverReturned(m, p) <==> p !in m.emitted
  {
    assert Run(m, []) == m;
    forall more ensures p in Run(m, more).emitted <==> p in m.emitted {
      OverForever(m, more, p);
    }
  }

  lemma RestReturnedIff(m: Machine, b: Books, p: Pair)
    requires Inv(m) && BooksKept(m, b) && AtRest(m, p)
    ensures NeverReturned(m, p) <==> Settled(m.w.db, p) && (p in b.lost || p in b.confirmed)
  {
    assert CoveredAt(m, b, p.id);
    if !Settled(m.w.db, p) {
      UnsettledIsReturned(m, p);
    } else if Carried(m.replays, p) {
      CarriedIsReturned(m, p);
    } else {
      RestIsOver(m, p);
      OverReturnedIff(m, p);
    }
  }

  /**
    Exactly once, exactly when: of the stored messages at rest, those that no replay has returned or ever
    will return are the settled ones that a crash took out of a replay's hands or their recipient confirmed.
   */
  lemma NeverReturnedIff(events: seq<(Event, int)>, p: Pair)
    requires AtRest(Execute(events), p)
    ensures NeverReturned(Execute(events), p)
            <==> Settled(Execute(events).w.db, p) && (p in Account(events).lost || p in Account(events).confirmed)
  {
    EveryRunKeepsBooks(events);
    RestReturnedIff(Execute(events), Account(events), p);
  }

  /** Once lost, lost for good: out of every continuation, at rest or not. */
  lemma LostForever(events: seq<(Event, int)>, more: seq<(Event, int)>, p: Pair)
    requires p in Account(events).lost
    ensures p !in Execute(events + more).emitted
  {
    EveryRunKeepsBooks(events);
    OverForever(Execute(events), more, p);
    RunContinues(events, more);
  }

  lemma CrashRests(m: Machine, p: Pair)
    requires RowsWellFormed(m.w.db) && Owns(CrashAll(m).w.db, p)
    ensures AtRest(CrashAll(m), p)
  {}

  lemma ExecuteCrash(events: seq<(Event, int)>)
    ensures Execute(events + [(EvCrash, 0)]) == CrashAll(Execute(events))
  {
    RunContinues(events, [(EvCrash, 0)]);
    RunOne(Execute(events), (EvCrash, 0));
    AfterCrash(Execute(events));
  }

  /** Right after a crash every stored message is at rest, so the condition decides them all. */
  lemma AfterCrashNeverReturnedIff(events: seq<(Event, int)>, p: Pair)
    requires Owns(Execute(events + [(EvCrash, 0)]).w.db, p)
    ensures var run := events + [(EvCrash, 0)];
            NeverReturned(Execute(run), p)
            <==> Settled(Execute(run).w.db, p) && (p in Account(run).lost || p in Account(run).confirmed)
  {
    ExecuteCrash(events);
    CrashRests(Execute(events), p);
    NeverReturnedIff(events + [(EvCrash, 0)], p);
  }

  // ----- A run that loses an acknowledged message -----

  lemma AccountSnoc(events: seq<(Event, int)>, x: (Event, int))
    ensures Account(events + [x]) == Enter(Execute(events), Account(events), x.0, Execute(events + [x]))
  {
    var all := events + [x];
    assert all[..|all| - 1] == events && all[|all| - 1] == x;
  }

  lemma CrashEnters(m: Machine, b: Books, n: Machine, p: Pair)
    requires Carried(m.replays, p) && Settled(m.w.db, p)
    ensures p in Enter(m, b, EvCrash, n).lost
  {}

  /** What a replay has in hand or has put out when the process dies is lost. */
  lemma CrashLoses(events: seq<(Event, int)>, now: int, p: Pair)
    requires Carried(Execute(events).replays, p) && Settled(Execute(events).w.db, p)
    ensures p in Account(events + [(EvCrash, now)]).lost
  {
    var x := (EvCrash, now);
    AccountSnoc(events, x);
    CrashEnters(Execute(events), Account(events), Execute(events + [x]), p);
  }

  const STORED := Row("m", "a", "b", "x", 0, Sent, false, "", "", ChatId.ToDirectChatId("a", "b"), "k", 0, 0)

  /** One acknowledged message, and nothing else. */
  ghost predicate OneAcknowledged(m: Machine) {
    && m.w.db.order == ["m"] && m.w.db.rows == map["m" := STORED] && m.w.db.tracking == map["m" := {}]
    && m.acked == {"m"} && m.replays == map[] && m.w.mem.cache == map[]
    && Delivery.IsPendingReplay(m.w.mem.deliveries, DeliveryKey("m", "b"))
  }

  const SENDING: seq<(Event, int)> :=
    [(EvSendBegin(0, "a", "b", "k", "x", "m"), 0), (EvSendStamp(0), 0), (EvSendReturn(0), 0)]

  /** The segments of a replay by "b", as far as some stage. */
  const REPLAYING: seq<(Event, int)> :=
    [(EvReplayBegin("b", "", 1), 0), (EvReplayRead("b"), 0), (EvReplayUpdate("b"), 0),
     (EvReplayTrack("b"), 0), (EvReplayEmit("b"), 0)]

  const MESSAGE := Message("m", "a", "b", "x", 0, Sending, "k")

  /** The row is written, the handler has not stamped it yet. */
  ghost predicate JustPersisted(m: Machine) {
    && m.w.db.order == ["m"] && m.w.db.rows == map["m" := STORED] && m.w.db.tracking == map["m" := {}]
    && m.sends == map[0 := SendTask(MESSAGE, Persisted)] && m.acked == {} && m.replays == map[]
    && m.w.mem.intake == map["m" := MESSAGE] && m.w.mem.cache == map[] && m.w.mem.deliveries == Delivery.EMPTY
  }

  lemma SendingPersists()
    ensures JustPersisted(SendBegin(START, 0, "a", "b", "k", "x", "m", 0))
  {
    assert "k"[0] == 'k' && "a"[0] == 'a' && "b"[0] == 'b' && "x"[0] == 'x' && "m"[0] == 'm';
    var a := SendBegin(START, 0, "a", "b", "k", "x", "m", 0);
    assert a.w.db.rows == map["m" := STORED];
  }

  lemma PersistedReturns(a: Machine)
    requires JustPersisted(a)
    ensures OneAcknowledged(SendReturn(SendStamp(a, 0, 0), 0))
  {
    var b := SendStamp(a, 0, 0);
    assert b.w.db.rows == map["m" := STORED];
  }

  lemma SendingStores()
    ensures OneAcknowledged(SendReturn(SendStamp(SendBegin(START, 0, "a", "b", "k", "x", "m", 0), 0, 0), 0))
  {
    SendingPersists();
    PersistedReturns(SendBegin(START, 0, "a", "b", "k", "x", "m", 0));
  }

  lemma SingleListing(db: Db)
    requires RowsWellFormed(db) && db.rows == map["m" := STORED] && db.tracking == map["m" := {}]
    ensures AllAwaiting(db, "b", "") == [STORED]
  {
    AwaitingListing(db, "b", "");
    ByIdIsStrictOrder();
    forall r ensures r in AllAwaiting(db, "b", "") <==> r in [STORED] {
      assert r.messageId in db.rows && db.rows[r.messageId] == r ==> r == STORED;
    }
    AscendingUnique(ById, AllAwaiting(db, "b", ""), [STORED]);
  }

  lemma BeginFetches(m: Machine)
    requires RowsWellFormed(m.w.db) && OneAcknowledged(m)
    ensures ReplayBegin(m, "b", "", 1) == m.(replays := map["b" := ReplayTask([STORED], Next, [])])
  {
    SingleListing(m.w.db);
    ReplayDrain.AlignIsIdentity(m.w.db, [STORED]);
  }

  ghost predicate Losing(m: Machine) {
    && Carried(m.replays, Pair("b", "m")) && Settled(m.w.db, Pair("b", "m")) && m.acked == {"m"}
  }

  /** In hand after the first write, in hand after the second, put out before the return: three times in danger. */
  lemma ThreeWindows(m: Machine)
    requires RowsWellFormed(m.w.db) && OneAcknowledged(m)
    ensures var a := ReplayUpdate(ReplayRead(ReplayBegin(m, "b", "", 1), "b"), "b", 0);
            var b := ReplayTrack(a, "b");
            Losing(a) && Losing(b) && Losing(ReplayEmit(b, "b", 0))
  {
    BeginFetches(m);
    var n := ReplayRead(ReplayBegin(m, "b", "", 1), "b");
    assert n.replays["b"] == ReplayTask([STORED], Passed, []) && n.w == m.w && n.acked == m.acked;
    var a := ReplayUpdate(n, "b", 0);
    assert a.replays["b"] == ReplayTask([STORED], Updated, []);
    assert a.w.db.rows["m"].state == Delivered;
    var b := ReplayTrack(a, "b");
    assert b.replays["b"] == ReplayTask([STORED], Tracked, []);
    var c := ReplayEmit(b, "b", 0);
    assert c.replays["b"].out == [PayloadFor(STORED)];
    assert PayloadFor(STORED) in c.replays["b"].out;
  }

  lemma RunMore(m: Machine, s: seq<(Event, int)>, k: nat)
    requires k < |s|
    ensures Run(m, s[..k + 1]) == After(Run(m, s[..k]), s[k])
  {
    assert s[..k + 1] == s[..k] + [s[k]];
    RunAppend(m, s[..k], [s[k]]);
    RunOne(Run(m, s[..k]), s[k]);
  }

  lemma SentIs(m: Machine)
    requires Inv(m)
    ensures var a := SendBegin(m, 0, "a", "b", "k", "x", "m", 0); Run(m, SENDING[..1]) == a && Inv(a)
  {
    AfterKeeps(m, SENDING[0].0, 0);
    RunMore(m, SENDING, 0);
  }

  lemma StampedIs(m: Machine, a: Machine)
    requires Run(m, SENDING[..1]) == a && Inv(a)
    ensures Run(m, SENDING[..2]) == SendStamp(a, 0, 0) && Inv(SendStamp(a, 0, 0))
  {
    AfterKeeps(a, SENDING[1].0, 0);
    RunMore(m, SENDING, 1);
  }

  lemma AcknowledgedIs(m: Machine, b: Machine)
    requires Run(m, SENDING[..2]) == b && Inv(b)
    ensures Run(m, SENDING) == SendReturn(b, 0) && Inv(SendReturn(b, 0))
  {
    AfterKeeps(b, SENDING[2].0, 0);
    RunMore(m, SENDING, 2);
    assert SENDING[..3] == SENDING;
  }

  lemma SendingRuns()
    ensures OneAcknowledged(Run(START, SENDING)) && Inv(Run(START, SENDING))
  {
    assert Inv(START);
    var a := SendBegin(START, 0, "a", "b", "k", "x", "m", 0);
    SendingStores();
    SentIs(START);
    StampedIs(START, a);
    AcknowledgedIs(START, SendStamp(a, 0, 0));
  }

  lemma FirstBegins(m: Machine)
    requires Inv(m)
    ensures Run(m, REPLAYING[..1]) == ReplayBegin(m, "b", "", 1) && Inv(ReplayBegin(m, "b", "", 1))
  {
    AfterBegin(m, "b", "", 1);
    RunMore(m, REPLAYING, 0);
  }

  lemma SecondReads(m: Machine, a: Machine)
    requires Run(m, REPLAYING[..1]) == a && Inv(a)
    ensures Run(m, REPLAYING[..2]) == ReplayRead(a, "b") && Inv(ReplayRead(a, "b"))
  {
    AfterRead(a, "b");
    RunMore(m, REPLAYING, 1);
  }

  lemma ThirdUpdates(m: Machine, b: Machine)
    requires Run(m, REPLAYING[..2]) == b && Inv(b)
    ensures Run(m, REPLAYING[..3]) == ReplayUpdate(b, "b", 0) && Inv(ReplayUpdate(b, "b", 0))
  {
    AfterUpdate(b, "b");
    RunMore(m, REPLAYING, 2);
  }

  lemma LastTwo(m: Machine, c: Machine)
    requires Run(m, REPLAYING[..3]) == c && Inv(c)
    ensures Run(m, REPLAYING[..4]) == ReplayTrack(c, "b")
    ensures Run(m, REPLAYING[..5]) == ReplayEmit(ReplayTrack(c, "b"), "b", 0)
  {
    AfterTrack(c, "b");
    AfterEmit(ReplayTrack(c, "b"), "b");
    RunMore(m, REPLAYING, 3);
    RunMore(m, REPLAYING, 4);
  }

  lemma AnyOfThree(m: Machine, c: Machine, k: nat)
    requires 3 <= k <= 5 && Run(m, REPLAYING[..3]) == c && Run(m, REPLAYING[..4]) == ReplayTrack(c, "b")
    requires Run(m, REPLAYING[..5]) == ReplayEmit(ReplayTrack(c, "b"), "b", 0)
    requires Losing(c) && Losing(ReplayTrack(c, "b")) && Losing(ReplayEmit(ReplayTrack(c, "b"), "b", 0))
    ensures Losing(Run(m, REPLAYING[..k]))
  {}

  lemma ReplayingRuns(m: Machine, k: nat)
    requires Inv(m) && OneAcknowledged(m) && 3 <= k <= 5
    ensures Losing(Run(m, REPLAYING[..k]))
  {
    var a := ReplayBegin(m, "b", "", 1);
    var b := ReplayRead(a, "b");
    ThreeWindows(m);
    FirstBegins(m);
    SecondReads(m, a);
    ThirdUpdates(m, b);
    LastTwo(m, ReplayUpdate(b, "b", 0));
    AnyOfThree(m, ReplayUpdate(b, "b", 0), k);
  }

  /** A message is acknowledged to its sender, and then lost in any of the three windows. */
  lemma AcknowledgedAndLost(k: nat, more: seq<(Event, int)>)
    requires 3 <= k <= 5
    ensures var events := SENDING + REPLAYING[..k] + [(EvCrash, 0)];
            && "m" in Execute(events).acked && Pair("b", "m") in Account(events).lost
            && Pair("b", "m") !in Execute(events + more).emitted
  {
    var run := SENDING + REPLAYING[..k];
    SendingRuns();
    ReplayingRuns(Run(START, SENDING), k);
    RunAppend(START, SENDING, REPLAYING[..k]);
    ExecuteIsRun(run);
    CrashLoses(run, 0, Pair("b", "m"));
    ExecuteCrash(run);
    LostForever(run + [(EvCrash, 0)], more, Pair("b", "m"));
  }
}
