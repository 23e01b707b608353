/**
  What the presence operations do: who goes online or offline, which sockets are closed, what stays as it was.
 */
module PresenceEffects {
  import opened Presence

  predicate IsOnline(st: State, user: string) {
    user in st.presence && st.presence[user] == Online
  }

  predicate IsOffline(st: State, user: string) {
    user in st.presence && st.presence[user] == Offline
  }

  /** Everybody else's presence and timer are as before. */
  ghost predicate OthersSame(a: State, b: State, user: string) {
    forall u | u != user ::
      && (u in a.presence <==> u in b.presence) && (u in a.presence ==> b.presence[u] == a.presence[u])
      && (u in a.timers <==> u in b.timers)
  }

  /** Sockets, sessions and listeners are as before. */
  predicate SameSockets(a: State, b: State) {
    && b.ready == a.ready && b.sessions == a.sessions && b.socketUser == a.socketUser
    && b.socketSession == a.socketSession && b.handlers == a.handlers
  }

  // ----- The grace timer -----

  /**
    A pending timer that fires is gone. Without an open socket its user is offline afterwards, with one OFFLINE
    notice if that is news; with an open socket nothing else happens.
   */
  lemma TimerEndsGrace(st: State, user: string)
    requires user in st.timers && user != ""
    ensures var n := TimerFires(st, user);
            && user !in n.timers && SameSockets(st, n) && OthersSame(st, n, user)
            && (HasOpen(st, user) ==> n.presence == st.presence && n.notices == st.notices)
            && (!HasOpen(st, user) ==>
                  && IsOffline(n, user)
                  && n.notices == if IsOffline(st, user) then st.notices else st.notices + [Notice(user, Offline)])
  {
    SameOpen(st, st.(timers := st.timers - {user}), user);
  }

  /** In a reachable state a pending timer never finds an open socket: it always ends the presence. */
  lemma FiringTimerEndsPresence(events: seq<Event>, user: string)
    requires user in Execute(events).timers
    ensures var st, n := Execute(events), Execute(events + [EvTimer(user)]);
            && !HasOpen(st, user) && IsOffline(n, user) && user !in n.timers
            && n.notices == if IsOnline(st, user) then st.notices + [Notice(user, Offline)] else st.notices
  {
    EveryRun(events);
    var st := Execute(events);
    assert UserOk(st, user);
    assert (events + [EvTimer(user)])[..|events|] == events;
    TimerEndsGrace(st, user);
  }

  /** What a forced end says: the user is offline, announced if that is news. */
  ghost predicate Ended(a: State, b: State, user: string) {
    && IsOffline(b, user)
    && b.notices == if IsOffline(a, user) then a.notices else a.notices + [Notice(user, Offline)]
  }

  lemma EndNow(st: State, user: string)
    requires !HasOpen(st, user) && user != ""
    ensures var n := OnDisconnect(st, user);
            SameSockets(st, n) && n.timers == st.timers && OthersSame(st, n, user) && Ended(st, n, user)
  {}

  lemma ForcedEnd(s1: State, user: string)
    requires user != ""
    ensures var n := if HasOpen(s1, user) then s1 else OnDisconnect(s1, user);
            && SameSockets(s1, n) && n.timers == s1.timers && OthersSame(s1, n, user)
            && (!HasOpen(s1, user) ==> Ended(s1, n, user))
  {
    if !HasOpen(s1, user) { EndNow(s1, user); }
  }

  /** A forced cleanup takes the socket out; without another open socket the user is offline at once. */
  lemma ForcedCleanup(st: State, user: string, sid: string, ws: Socket)
    requires user != ""
    ensures var s1, n := Forget(Detach(st, sid, ws), ws), Cleanup(st, user, sid, ws, true);
            && SameSockets(s1, n) && n.timers == s1.timers && OthersSame(s1, n, user)
            && (HasOpen(s1, user) ==> n == s1) && (!HasOpen(s1, user) ==> Ended(s1, n, user))
            && HasOpen(n, user) == HasOpen(s1, user)
  {
    var s1 := Forget(Detach(st, sid, ws), ws);
    ForcedEnd(s1, user);
    SameOpen(s1, Cleanup(st, user, sid, ws, true), user);
  }

  // ----- Listeners -----

  /** Nobody is announced, no socket opens, and only entries of the given socket go. */
  ghost predicate OnlyLeaves(a: State, b: State, ws: Socket) {
    && b.ready == a.ready && b.presence == a.presence && b.notices == a.notices && a.timers <= b.timers
    && (forall s, w | Member(b.sessions, s, w) :: Member(a.sessions, s, w))
    && (forall s, w | Member(a.sessions, s, w) && w != ws :: Member(b.sessions, s, w))
    && b.sessions.Keys == a.sessions.Keys
    && (forall s | s in a.sessions :: b.sessions[s].userId == a.sessions[s].userId)
    && (forall w | w != ws :: HandlersOf(b.handlers, w) == HandlersOf(a.handlers, w))
  }

  lemma LeavesOpen(a: State, b: State, ws: Socket, user: string)
    requires OnlyLeaves(a, b, ws) && !IsOpen(a.ready, ws)
    ensures HasOpen(b, user) == HasOpen(a, user)
  {
    if HasOpen(a, user) {
      var s, w :| OpenAt(a.sessions, a.ready, user, s, w);
      assert OpenAt(b.sessions, b.ready, user, s, w);
    }
    if HasOpen(b, user) {
      var s, w :| OpenAt(b.sessions, b.ready, user, s, w);
      assert OpenAt(a.sessions, a.ready, user, s, w);
    }
  }

  lemma LeavesTransitive(a: State, b: State, c: State, ws: Socket)
    requires OnlyLeaves(a, b, ws) && OnlyLeaves(b, c, ws)
    ensures OnlyLeaves(a, c, ws)
  {}

  /** The listener's work for a socket that is no longer open. */
  lemma ListenerEffect(st: State, ws: Socket)
    requires HandlersOf(st.handlers, ws) != [] && !IsOpen(st.ready, ws)
    ensures var h := HandlersOf(st.handlers, ws)[0];
            var n :=
              Cleanup(st.(handlers := st.handlers[ws := st.handlers[ws][1..]]), h.userId, h.sessionId, ws, false);
            && OnlyLeaves(st, n, ws) && !Member(n.sessions, h.sessionId, ws)
            && HandlersOf(n.handlers, ws) == HandlersOf(st.handlers, ws)[1..]
            && n.timers == if h.userId != "" && !HasOpen(st, h.userId) then st.timers + {h.userId} else st.timers
  {
    var h := HandlersOf(st.handlers, ws)[0];
    var p := st.(handlers := st.handlers[ws := st.handlers[ws][1..]]);
    var d := Detach(p, h.sessionId, ws);
    var s1 := Forget(d, ws);
    DetachMembers(p, h.sessionId, ws);
    DetachOpen(p, h.sessionId, ws, h.userId);
    SameOpen(st, p, h.userId);
    SameOpen(d, s1, h.userId);
  }

  ghost predicate Armed(a: State, b: State, hs: seq<Handler>) {
    forall u :: u in b.timers <==> u in a.timers || (u != "" && !HasOpen(a, u) && exists h :: h in hs && h.userId == u)
  }

  lemma ArmedMore(a: State, b: State, c: State, h: Handler, rest: seq<Handler>)
    requires Armed(b, c, rest) && forall u :: HasOpen(b, u) == HasOpen(a, u)
    requires b.timers == if h.userId != "" && !HasOpen(a, h.userId) then a.timers + {h.userId} else a.timers
    ensures Armed(a, c, [h] + rest)
  {
    forall u ensures u in c.timers <==>
                     u in a.timers || (u != "" && !HasOpen(a, u) && exists x :: x in [h] + rest && x.userId == u)
    {
      assert h in [h] + rest;
      assert forall x | x in rest :: x in [h] + rest;
      assert forall x | x in [h] + rest :: x == h || x in rest;
    }
  }

  /**
    Running the listeners of a socket that is no longer open takes it out of all their sessions, leaves none, and
    arms a timer for exactly the users it leaves without an open socket.
   */
  lemma {:induction false} ListenersRun(st: State, ws: Socket)
    requires !IsOpen(st.ready, ws)
    ensures var n := RunHandlers(st, ws);
            && OnlyLeaves(st, n, ws) && HandlersOf(n.handlers, ws) == []
            && (forall h | h in HandlersOf(st.handlers, ws) :: !Member(n.sessions, h.sessionId, ws))
            && Armed(st, n, HandlersOf(st.handlers, ws))
    decreases |HandlersOf(st.handlers, ws)|
  {
    var hs := HandlersOf(st.handlers, ws);
    if hs != [] {
      var h := hs[0];
      var m := Cleanup(st.(handlers := st.handlers[ws := st.handlers[ws][1..]]), h.userId, h.sessionId, ws, false);
      ListenerEffect(st, ws);
      ListenersRun(m, ws);
      var n := RunHandlers(m, ws);
      LeavesTransitive(st, m, n, ws);
      forall u ensures HasOpen(m, u) == HasOpen(st, u) {
        LeavesOpen(st, m, ws, u);
      }
      ArmedMore(st, m, n, h, hs[1..]);
      assert hs == [h] + hs[1..];
    }
  }

  // ----- Close events -----

  /**
    The close event of a registered socket: it is CLOSED, in no session, without listeners, and its users
    without another open socket have a timer. Nobody is announced.
   */
  lemma CloseEventEffect(st: State, ws: Socket)
    requires Inv(st) && ws in st.ready
    ensures var n := CloseEvent(st, ws);
            && n.ready == st.ready[ws := Closed] && n.presence == st.presence && n.notices == st.notices
            && (forall s :: !Member(n.sessions, s, ws)) && HandlersOf(n.handlers, ws) == []
            && (forall s, w | w != ws :: Member(n.sessions, s, w) <==> Member(st.sessions, s, w))
            && (forall u :: u in n.timers <==>
                  u in st.timers
                  || (!HasOpen(n, u) && exists h :: h in HandlersOf(st.handlers, ws) && h.userId == u))
  {
    var c := MoveReady(st, ws, Closed);
    var n := CloseEvent(st, ws);
    ListenersRun(c, ws);
    forall s ensures !Member(n.sessions, s, ws) {
      if Member(st.sessions, s, ws) {
        assert Handler(st.sessions[s].userId, s) in HandlersOf(c.handlers, ws);
      }
    }
    forall u ensures HasOpen(n, u) == HasOpen(c, u) {
      LeavesOpen(c, n, ws, u);
    }
    assert forall h | h in HandlersOf(st.handlers, ws) :: h.userId != "";
  }

  /** Only sockets the process has seen have listeners. */
  ghost predicate ListenersSeen(st: State) {
    forall ws | HandlersOf(st.handlers, ws) != [] :: ws in st.ready
  }

  lemma {:induction false} KicksKeepListeners(st: State, user: string, entries: seq<(string, Socket)>)
    ensures var n := KickAll(st, user, entries); n.handlers == st.handlers && n.ready.Keys == st.ready.Keys
  {
    if entries != [] {
      KicksKeepListeners(st, user, entries[..|entries| - 1]);
    }
  }

  lemma CloseKeepsSeen(st: State, ws: Socket)
    requires ListenersSeen(st)
    ensures ListenersSeen(CloseEvent(st, ws))
  {
    if ws in st.ready {
      ListenersRun(MoveReady(st, ws, Closed), ws);
    }
  }

  lemma EvictKeepsListeners(st: State, user: string, sid: string)
    requires sid in st.sessions && user != ""
    ensures var n := Evict(st, user, sid); n.handlers == st.handlers && n.ready.Keys == st.ready.Keys
  {
    var sockets := st.sessions[sid].sockets;
    if |sockets| > MAX_SOCKETS_PER_SESSION {
      ForcedCleanup(StartClose(Detach(st, sid, sockets[0]), sockets[0]), user, sid, sockets[0]);
    }
  }

  lemma RegisterKeepsSeen(st: State, user: string, ws: Socket, sid: string)
    requires ListenersSeen(st)
    ensures ListenersSeen(Register(st, user, ws, sid))
  {
    if Registers(st, user, ws, sid) {
      EvictKeepsListeners(Attach(st, user, ws, sid), user, sid);
    }
  }

  lemma StepKeepsSeen(st: State, e: Event)
    requires ListenersSeen(st)
    ensures ListenersSeen(Step(st, e))
  {
    match e {
      case EvRegister(user, ws, sid) => RegisterKeepsSeen(st, user, ws, sid);
      case EvCloseEvent(ws) => CloseKeepsSeen(st, ws);
      case EvRemove(user, entries) => KicksKeepListeners(st, user, entries);
      case EvRemoveSession(sid) =>
        if sid in st.sessions { KicksKeepListeners(st, st.sessions[sid].userId, SessionEntries(st, sid)); }
      case _ =>
    }
  }

  lemma {:induction false} EveryRunSeen(events: seq<Event>)
    ensures ListenersSeen(Execute(events))
  {
    if events != [] {
      EveryRunSeen(events[..|events| - 1]);
      StepKeepsSeen(Execute(events[..|events| - 1]), events[|events| - 1]);
    }
  }

  /** After these events the user is offline, with one notice of it. */
  ghost predicate EndsOffline(events: seq<Event>, more: seq<Event>, user: string) {
    && IsOffline(Execute(events + more), user)
    && Execute(events + more).notices == Execute(events).notices + [Notice(user, Offline)]
  }

  /**
    The grace ends: an online user without open sockets goes offline by a close event, if one is due, and the
    timer.
   */
  lemma GraceEnds(events: seq<Event>, user: string)
    requires IsOnline(Execute(events), user) && !HasOpen(Execute(events), user)
    ensures EndsOffline(events, [EvTimer(user)], user)
            || exists ws :: EndsOffline(events, [EvCloseEvent(ws), EvTimer(user)], user)
  {
    EveryRun(events);
    EveryRunSeen(events);
    var st := Execute(events);
    assert UserOk(st, user);
    if user in st.timers {
      FiringTimerEndsPresence(events, user);
    } else {
      var ws, h :| h in HandlersOf(st.handlers, ws) && h.userId == user;
      CloseThenTimer(events, user, ws, h);
      assert EndsOffline(events, [EvCloseEvent(ws), EvTimer(user)], user);
    }
  }

  lemma CloseThenTimer(events: seq<Event>, user: string, ws: Socket, h: Handler)
    requires IsOnline(Execute(events), user) && !HasOpen(Execute(events), user)
    requires h in HandlersOf(Execute(events).handlers, ws) && h.userId == user && ws in Execute(events).ready
    ensures EndsOffline(events, [EvCloseEvent(ws), EvTimer(user)], user)
  {
    EveryRun(events);
    var st := Execute(events);
    var closing := events + [EvCloseEvent(ws)];
    assert closing[..|events|] == events;
    CloseEventEffect(st, ws);
    StillClosed(st, ws, user);
    FiringTimerEndsPresence(closing, user);
    assert events + [EvCloseEvent(ws), EvTimer(user)] == closing + [EvTimer(user)];
  }

  lemma StillClosed(st: State, ws: Socket, user: string)
    requires Inv(st) && ws in st.ready && !HasOpen(st, user)
    ensures !HasOpen(CloseEvent(st, ws), user)
  {
    CloseEventEffect(st, ws);
    var c := MoveReady(st, ws, Closed);
    var n := CloseEvent(st, ws);
    ListenersRun(c, ws);
    forall s, w ensures !OpenAt(n.sessions, n.ready, user, s, w) {
      assert !OpenAt(st.sessions, st.ready, user, s, w);
    }
  }

  // ----- Registering -----

  predicate Different(sockets: seq<Socket>) {
    forall i, j | 0 <= i < j < |sockets| :: sockets[i] != sockets[j]
  }

  lemma {:induction false} WithoutAbsent(sockets: seq<Socket>, ws: Socket)
    requires ws !in sockets
    ensures Without(sockets, ws) == sockets
  {
    if sockets != [] {
      WithoutAbsent(sockets[1..], ws);
      assert sockets == [sockets[0]] + sockets[1..];
    }
  }

  lemma WithoutFirst(sockets: seq<Socket>)
    requires sockets != [] && Different(sockets)
    ensures Without(sockets, sockets[0]) == sockets[1..]
  {
    assert sockets[0] !in sockets[1..];
    WithoutAbsent(sockets[1..], sockets[0]);
  }

  lemma {:induction false} WithoutStaysDifferent(sockets: seq<Socket>, ws: Socket)
    requires Different(sockets)
    ensures Different(Without(sockets, ws)) && |Without(sockets, ws)| <= |sockets|
  {
    if sockets != [] {
      WithoutStaysDifferent(sockets[1..], ws);
      var rest := Without(sockets[1..], ws);
      forall x | x in rest ensures x != sockets[0] {}
    }
  }

  /** The sockets of the session after a registration: the new one last, the oldest gone over the cap. */
  function SocketsAfter(sockets: seq<Socket>, ws: Socket): seq<Socket> {
    if |sockets| < 3 then sockets + [ws] else sockets[1..] + [ws]
  }

  function SocketsOf(st: State, sid: string): seq<Socket> {
    if sid in st.sessions then st.sessions[sid].sockets else []
  }

  lemma DetachFirst(st: State, sid: string)
    requires sid in st.sessions && st.sessions[sid].sockets != [] && Different(st.sessions[sid].sockets)
    ensures var s := st.sessions[sid];
            && Detach(st, sid, s.sockets[0]).sessions == st.sessions[sid := Session(s.userId, s.sockets[1..])]
            && Detach(Detach(st, sid, s.sockets[0]), sid, s.sockets[0]) == Detach(st, sid, s.sockets[0])
  {
    var s := st.sessions[sid];
    assert s.sockets[0] in s.sockets;
    WithoutFirst(s.sockets);
    assert s.sockets[0] !in s.sockets[1..];
  }

  lemma EvictedSockets(st: State, user: string, sid: string)
    requires user != "" && sid in st.sessions && |st.sessions[sid].sockets| <= 4 && Different(st.sessions[sid].sockets)
    ensures var s, n := st.sessions[sid], Evict(st, user, sid);
            && n.sessions == (if |s.sockets| <= 3 then st.sessions
                           else st.sessions[sid := Session(s.userId, s.sockets[1..])])
            && n.ready == (if |s.sockets| <= 3 then st.ready else StartClose(st, s.sockets[0]).ready)
            && n.handlers == st.handlers && n.timers == st.timers
            && (HasOpen(n, user) ==> n.presence == st.presence && n.notices == st.notices)
            && (forall w | |s.sockets| <= 3 || w != s.sockets[0] ::
                  && (w in st.socketUser ==> w in n.socketUser && n.socketUser[w] == st.socketUser[w])
                  && (w in st.socketSession ==> w in n.socketSession && n.socketSession[w] == st.socketSession[w]))
  {
    var sockets := st.sessions[sid].sockets;
    if |sockets| > 3 {
      DetachFirst(st, sid);
      ForcedCleanup(StartClose(Detach(st, sid, sockets[0]), sockets[0]), user, sid, sockets[0]);
    }
  }

  lemma DifferentMore(sockets: seq<Socket>, ws: Socket)
    requires Different(sockets) && ws !in sockets
    ensures Different(sockets + [ws])
  {
    forall i | 0 <= i < |sockets| ensures sockets[i] != ws {
      assert sockets[i] in sockets;
    }
  }

  lemma AttachedSockets(st: State, user: string, ws: Socket, sid: string)
    requires Registers(st, user, ws, sid) && |SocketsOf(st, sid)| <= 3 && Different(SocketsOf(st, sid))
    ensures var a, had := Attach(st, user, ws, sid), SocketsOf(st, sid);
            && a.sessions == st.sessions[sid := Session(user, had + [ws])] && Different(had + [ws])
            && a.socketUser == st.socketUser[ws := user] && a.socketSession == st.socketSession[ws := sid]
            && Handler(user, sid) in HandlersOf(a.handlers, ws) && a.ready == st.ready
            && (|had| == 3 ==> had[0] != ws && (had + [ws])[0] == had[0] && (had + [ws])[1..] == SocketsAfter(had, ws))
            && (|had| < 3 ==> had + [ws] == SocketsAfter(had, ws))
  {
    var had := SocketsOf(st, sid);
    assert ws !in had;
    DifferentMore(had, ws);
    AttachListeners(st, user, ws, sid);
    if |had| == 3 { assert had[0] in had; }
  }

  /** The sessions, sockets and listeners after a registration that goes through. */
  lemma RegisterPlaces(st: State, user: string, ws: Socket, sid: string)
    requires Registers(st, user, ws, sid) && |SocketsOf(st, sid)| <= 3 && Different(SocketsOf(st, sid))
    ensures var had, n := SocketsOf(st, sid), Register(st, user, ws, sid);
            && n.sessions == st.sessions[sid := Session(user, SocketsAfter(had, ws))]
            && n.ready == (if |had| == 3 then StartClose(st, had[0]).ready else st.ready)
            && Handler(user, sid) in HandlersOf(n.handlers, ws)
            && ws in n.socketUser && n.socketUser[ws] == user && ws in n.socketSession && n.socketSession[ws] == sid
  {
    var a, had := Attach(st, user, ws, sid), SocketsOf(st, sid);
    AttachedSockets(st, user, ws, sid);
    EvictedSockets(a, user, sid);
    var e := Evict(a, user, sid);
    assert Register(st, user, ws, sid) == OnConnect(e, user);
    EvictedPlaces(st, a, e, user, ws, sid);
  }

  lemma EvictedPlaces(st: State, a: State, e: State, user: string, ws: Socket, sid: string)
    requires var had := SocketsOf(st, sid);
             && a.sessions == st.sessions[sid := Session(user, had + [ws])] && a.ready == st.ready && |had| <= 3
             && (|had| == 3 ==> had[0] != ws && (had + [ws])[0] == had[0] && (had + [ws])[1..] == SocketsAfter(had, ws))
             && (|had| < 3 ==> had + [ws] == SocketsAfter(had, ws))
             && e.sessions == (if |had| < 3 then a.sessions else a.sessions[sid := Session(user, (had + [ws])[1..])])
             && e.ready == (if |had| < 3 then a.ready else StartClose(a, had[0]).ready)
    ensures var had := SocketsOf(st, sid);
            && e.sessions == st.sessions[sid := Session(user, SocketsAfter(had, ws))]
            && e.ready == (if |had| == 3 then StartClose(st, had[0]).ready else st.ready)
  {}

  /**
    A registration that goes through: the socket is the newest of its session, which keeps at most three, the
    one it pushes out is no longer open, and the user is online without a timer, announced once.
   */
  lemma RegisterEffect(st: State, user: string, ws: Socket, sid: string)
    requires Inv(st) && Registers(st, user, ws, sid)
    requires |SocketsOf(st, sid)| <= 3 && Different(SocketsOf(st, sid))
    ensures var had, n := SocketsOf(st, sid), Register(st, user, ws, sid);
            && n.sessions == st.sessions[sid := Session(user, SocketsAfter(had, ws))] && IsOpen(n.ready, ws)
            && (|had| == 3 ==> !IsOpen(n.ready, had[0]))
            && (forall w | w in st.ready && !(|had| == 3 && w == had[0]) :: w in n.ready && n.ready[w] == st.ready[w])
            && Handler(user, sid) in HandlersOf(n.handlers, ws)
            && ws in n.socketUser && n.socketUser[ws] == user && ws in n.socketSession && n.socketSession[ws] == sid
            && IsOnline(n, user) && user !in n.timers && n.notices == st.notices + [Notice(user, Online)]
            && OthersSame(st, n, user)
  {
    RegisterPlaces(st, user, ws, sid);
    AttachedSockets(st, user, ws, sid);
    RegisterAnnounces(st, user, ws, sid);
  }

  lemma EvictKeepsOpen(st: State, user: string, ws: Socket, sid: string)
    requires Inv(st) && Registers(st, user, ws, sid)
    ensures HasOpen(Evict(Attach(st, user, ws, sid), user, sid), user)
  {
    AttachKeeps(st, user, ws, sid);
    EvictKeeps(Attach(st, user, ws, sid), user, sid, ws);
  }

  lemma ConnectAnnounces(st: State, e: State, user: string)
    requires e.presence == st.presence && e.timers == st.timers && e.notices == st.notices
    ensures var n := OnConnect(e, user);
            IsOnline(n, user) && user !in n.timers && n.notices == st.notices + [Notice(user, Online)]
            && OthersSame(st, n, user)
  {}

  lemma RegisterAnnounces(st: State, user: string, ws: Socket, sid: string)
    requires Inv(st) && Registers(st, user, ws, sid)
    requires |SocketsOf(st, sid)| <= 3 && Different(SocketsOf(st, sid))
    ensures var n := Register(st, user, ws, sid);
            IsOnline(n, user) && user !in n.timers && n.notices == st.notices + [Notice(user, Online)]
            && OthersSame(st, n, user)
  {
    var a := Attach(st, user, ws, sid);
    EvictKeepsOpen(st, user, ws, sid);
    AttachedSockets(st, user, ws, sid);
    EvictedSockets(a, user, sid);
    ConnectAnnounces(st, Evict(a, user, sid), user);
  }

  /** Every other register call changes nothing. */
  lemma RegisterRefused(st: State, user: string, ws: Socket, sid: string)
    requires user == "" || !IsOpen(st.ready, ws) || (ws in st.socketUser && st.socketUser[ws] != user)
             || Member(st.sessions, sid, ws)
    ensures Register(st, user, ws, sid) == st
  {}

  /** No session holds a socket twice, or more than three sockets. */
  ghost predicate Capped(sessions: Sessions) {
    forall s | s in sessions :: |sessions[s].sockets| <= 3 && Different(sessions[s].sockets)
  }

  lemma DetachCapped(st: State, sid: string, ws: Socket)
    requires Capped(st.sessions)
    ensures Capped(Detach(st, sid, ws).sessions)
  {
    if sid in st.sessions { WithoutStaysDifferent(st.sessions[sid].sockets, ws); }
  }

  lemma CleanupSessions(st: State, user: string, sid: string, ws: Socket, forced: bool)
    ensures var n := Cleanup(st, user, sid, ws, forced);
            n.sessions == Detach(st, sid, ws).sessions && n.ready == st.ready
  {}

  lemma {:induction false} ListenersCapped(st: State, ws: Socket)
    requires Capped(st.sessions)
    ensures Capped(RunHandlers(st, ws).sessions)
    decreases |HandlersOf(st.handlers, ws)|
  {
    if HandlersOf(st.handlers, ws) != [] {
      var h := HandlersOf(st.handlers, ws)[0];
      var p := st.(handlers := st.handlers[ws := st.handlers[ws][1..]]);
      DetachCapped(p, h.sessionId, ws);
      CleanupSessions(p, h.userId, h.sessionId, ws, false);
      ListenersCapped(Cleanup(p, h.userId, h.sessionId, ws, false), ws);
    }
  }

  lemma {:induction false} KicksCapped(st: State, user: string, entries: seq<(string, Socket)>)
    requires Capped(st.sessions)
    ensures Capped(KickAll(st, user, entries).sessions)
  {
    if entries != [] {
      var (sid, ws) := entries[|entries| - 1];
      var m := KickAll(st, user, entries[..|entries| - 1]);
      KicksCapped(st, user, entries[..|entries| - 1]);
      DetachCapped(StartClose(m, ws), sid, ws);
      CleanupSessions(StartClose(m, ws), user, sid, ws, true);
    }
  }

  lemma RegisterCapped(st: State, user: string, ws: Socket, sid: string)
    requires Capped(st.sessions)
    ensures Capped(Register(st, user, ws, sid).sessions)
  {
    if Registers(st, user, ws, sid) {
      var had := SocketsOf(st, sid);
      RegisterPlaces(st, user, ws, sid);
      assert ws !in had;
      DifferentMore(had, ws);
      if |had| == 3 { DifferentMore(had[1..], ws); }
    }
  }

  lemma StepCapped(st: State, e: Event)
    requires Capped(st.sessions)
    ensures Capped(Step(st, e).sessions)
  {
    match e {
      case EvRegister(user, ws, sid) => RegisterCapped(st, user, ws, sid);
      case EvCloseEvent(ws) => if ws in st.ready { ListenersCapped(MoveReady(st, ws, Closed), ws); }
      case EvRemove(user, entries) => KicksCapped(st, user, entries);
      case EvRemoveSession(sid) =>
        if sid in st.sessions { KicksCapped(st, st.sessions[sid].userId, SessionEntries(st, sid)); }
      case EvRemoveConnection(ws) =>
        if ws in st.socketUser && ws in st.socketSession {
          DetachCapped(st, st.socketSession[ws], ws);
          CleanupSessions(st, st.socketUser[ws], st.socketSession[ws], ws, true);
        }
      case EvLazyCleanup(sid, ws) => DetachCapped(st, sid, ws);
      case _ =>
    }
  }

  /** In every run a session has at most three sockets, all different, so registrations have the effect above. */
  lemma {:induction false} SessionsStayCapped(events: seq<Event>)
    ensures Capped(Execute(events).sessions)
  {
    if events != [] {
      SessionsStayCapped(events[..|events| - 1]);
      StepCapped(Execute(events[..|events| - 1]), events[|events| - 1]);
    }
  }

  // ----- Removals -----

  predicate Named(entries: seq<(string, Socket)>, ws: Socket) {
    exists e :: e in entries && e.1 == ws
  }

  lemma NamedMore(front: seq<(string, Socket)>, e: (string, Socket), ws: Socket)
    ensures Named(front + [e], ws) <==> Named(front, ws) || ws == e.1
  {
    assert e in front + [e];
    if Named(front, ws) {
      var x :| x in front && x.1 == ws;
      assert x in front + [e];
    }
  }

  predicate ClosedAt(a: map<Socket, Ready>, b: map<Socket, Ready>, entries: seq<(string, Socket)>, w: Socket) {
    && (w in a <==> w in b) && (IsOpen(b, w) ==> IsOpen(a, w))
    && if Named(entries, w) then !IsOpen(b, w) else w in a ==> b[w] == a[w]
  }

  /** Sockets of the list are not open, the others are as before. */
  ghost predicate OnlyClosed(a: State, b: State, entries: seq<(string, Socket)>) {
    forall w :: ClosedAt(a.ready, b.ready, entries, w)
  }

  /** The user's presence ends exactly when no open socket is left. */
  ghost predicate EndsWith(a: State, b: State, user: string) {
    && b.timers == a.timers && OthersSame(a, b, user)
    && (HasOpen(b, user) ==> b.presence == a.presence && b.notices == a.notices)
    && (!HasOpen(b, user) ==> Ended(a, b, user))
  }

  lemma KickOpens(st: State, user: string, sid: string, ws: Socket)
    ensures var n := Kick(st, user, sid, ws);
            && n.ready == StartClose(st, ws).ready && HasOpen(n, user) ==> HasOpen(st, user)
  {
    var n := Kick(st, user, sid, ws);
    CleanupSessions(StartClose(st, ws), user, sid, ws, true);
    DetachMembers(StartClose(st, ws), sid, ws);
    if HasOpen(n, user) {
      var s, w :| OpenAt(n.sessions, n.ready, user, s, w);
      assert OpenAt(st.sessions, st.ready, user, s, w);
    }
  }

  lemma KickEnds(st: State, user: string, sid: string, ws: Socket)
    requires user != ""
    ensures EndsWith(st, Kick(st, user, sid, ws), user)
  {
    ForcedCleanup(StartClose(st, ws), user, sid, ws);
  }

  lemma EndsTwice(a: State, b: State, c: State, user: string)
    requires EndsWith(a, b, user) && EndsWith(b, c, user) && (HasOpen(c, user) ==> HasOpen(b, user))
    ensures EndsWith(a, c, user)
  {}

  lemma {:induction false} KicksClose(st: State, user: string, entries: seq<(string, Socket)>)
    ensures OnlyClosed(st, KickAll(st, user, entries), entries)
  {
    if entries != [] {
      var front, e := entries[..|entries| - 1], entries[|entries| - 1];
      assert entries == front + [e];
      var m := KickAll(st, user, front);
      KicksClose(st, user, front);
      CleanupSessions(StartClose(m, e.1), user, e.0, e.1, true);
      ClosedMore(st, m, Kick(m, user, e.0, e.1), front, e);
    }
  }

  lemma {:induction false} KicksEnd(st: State, user: string, entries: seq<(string, Socket)>)
    requires user != "" && entries != []
    ensures EndsWith(st, KickAll(st, user, entries), user)
  {
    var front, e := entries[..|entries| - 1], entries[|entries| - 1];
    var m := KickAll(st, user, front);
    KickEnds(m, user, e.0, e.1);
    if front == [] {
      assert m == st;
    } else {
      KicksEnd(st, user, front);
      KickOpens(m, user, e.0, e.1);
      EndsTwice(st, m, Kick(m, user, e.0, e.1), user);
    }
  }

  lemma ClosedMore(a: State, b: State, c: State, front: seq<(string, Socket)>, e: (string, Socket))
    requires OnlyClosed(a, b, front) && c.ready == StartClose(b, e.1).ready
    ensures OnlyClosed(a, c, front + [e])
  {
    forall w ensures ClosedAt(a.ready, c.ready, front + [e], w) {
      assert ClosedAt(a.ready, b.ready, front, w);
      NamedMore(front, e, w);
    }
  }

  lemma {:induction false} KicksLeaveOthers(st: State, user: string, entries: seq<(string, Socket)>)
    ensures var n := KickAll(st, user, entries);
            forall s | s in st.sessions && !exists e :: e in entries && e.0 == s ::
              s in n.sessions && n.sessions[s] == st.sessions[s]
  {
    if entries != [] {
      var front, e := entries[..|entries| - 1], entries[|entries| - 1];
      assert entries == front + [e] && e in entries;
      KicksLeaveOthers(st, user, front);
      CleanupSessions(StartClose(KickAll(st, user, front), e.1), user, e.0, e.1, true);
    }
  }

  /**
    Removing a user with sockets: none of them is open any more, no session of the user holds one, the user is
    offline, announced once, and other users' sessions are as before.
   */
  lemma RemoveEffect(st: State, user: string, entries: seq<(string, Socket)>)
    requires Inv(st) && Lists(st, user, entries) && entries != []
    ensures var n := Remove(st, user, entries);
            && OnlyClosed(st, n, entries) && !HasOpen(n, user) && Ended(st, n, user)
            && n.timers == st.timers && OthersSame(st, n, user)
            && (forall s, w | Member(n.sessions, s, w) :: Member(st.sessions, s, w) && st.sessions[s].userId != user)
            && (forall s | s in st.sessions && st.sessions[s].userId == user && st.sessions[s].sockets != [] ::
                  s !in n.sessions)
            && (forall s | s in st.sessions && st.sessions[s].userId != user ::
                  s in n.sessions && n.sessions[s] == st.sessions[s])
  {
    var k, n := KickAll(st, user, entries), Remove(st, user, entries);
    forall i | 0 <= i < |entries|
      ensures Member(st.sessions, entries[i].0, entries[i].1) && st.sessions[entries[i].0].userId == user
    {
      var (sid, ws) := entries[i];
      assert (sid, ws) in entries;
    }
    UserOfSessionKnown(st, entries[0].0, entries[0].1);
    KickAllKeeps(st, user, entries);
    KicksClose(st, user, entries);
    KicksEnd(st, user, entries);
    KicksLeaveOthers(st, user, entries);
    NobodyLeft(st, k, user, entries);
    AllDropped(st, k, n, user, entries);
  }

  lemma NobodyLeft(st: State, k: State, user: string, entries: seq<(string, Socket)>)
    requires Lists(st, user, entries) && (forall s | s in k.sessions :: s in st.sessions)
    requires forall s | s in k.sessions :: k.sessions[s].userId == st.sessions[s].userId
    requires forall s: string, w: Socket | Member(k.sessions, s, w) :: Member(st.sessions, s, w) && (s, w) !in entries
    ensures !HasOpen(k, user)
    ensures forall s, w | Member(k.sessions, s, w) :: st.sessions[s].userId != user
  {
    forall s: string, w: Socket | Member(k.sessions, s, w) ensures st.sessions[s].userId != user {
      assert (s, w) !in entries;
    }
  }

  lemma AllDropped(st: State, k: State, n: State, user: string, entries: seq<(string, Socket)>)
    requires Lists(st, user, entries) && k.sessions.Keys == st.sessions.Keys
    requires forall s | s in st.sessions :: k.sessions[s].userId == st.sessions[s].userId
    requires forall s, w | Member(k.sessions, s, w) :: st.sessions[s].userId != user
    requires forall s | s in st.sessions && !exists e :: e in entries && e.0 == s :: k.sessions[s] == st.sessions[s]
    requires n == DropEmpty(k, set e | e in entries :: e.0) && !HasOpen(k, user)
    ensures forall s | s in st.sessions && st.sessions[s].userId == user && st.sessions[s].sockets != [] ::
              s !in n.sessions
    ensures forall s | s in st.sessions && st.sessions[s].userId != user ::
              s in n.sessions && n.sessions[s] == st.sessions[s]
    ensures !HasOpen(n, user)
  {
    forall s | s in st.sessions && st.sessions[s].userId == user && st.sessions[s].sockets != []
      ensures s !in n.sessions {
      var w := st.sessions[s].sockets[0];
      assert Member(st.sessions, s, w);
      assert (s, w) in entries;
      NoMembersLeft(k, s);
    }
    forall s | s in st.sessions && st.sessions[s].userId != user
      ensures s in n.sessions && n.sessions[s] == st.sessions[s] {
      forall e | e in entries ensures e.0 != s {
        assert (e.0, e.1) in entries;
      }
    }
    forall s, w ensures !OpenAt(n.sessions, n.ready, user, s, w) {
      assert !OpenAt(k.sessions, k.ready, user, s, w);
    }
  }

  lemma NoMembersLeft(k: State, s: string)
    requires s in k.sessions && forall w :: !Member(k.sessions, s, w)
    ensures k.sessions[s].sockets == []
  {
    NoMembers(k.sessions, s);
  }

  lemma KickedSession(st: State, sid: string)
    requires Inv(st) && sid in st.sessions && st.sessions[sid].sockets != []
    ensures var user, entries := st.sessions[sid].userId, SessionEntries(st, sid);
            var k := KickAll(st, user, entries);
            && user != "" && user in st.presence && EntriesOf(st, user, entries)
            && (forall w :: !Member(k.sessions, sid, w))
            && k.sessions.Keys == st.sessions.Keys
            && (forall s | s in st.sessions && s != sid :: k.sessions[s] == st.sessions[s])
  {
    var user, entries := st.sessions[sid].userId, SessionEntries(st, sid);
    UserOfSessionKnown(st, sid, st.sessions[sid].sockets[0]);
    KickAllKeeps(st, user, entries);
    KicksLeaveOthers(st, user, entries);
    assert forall e | e in entries :: e.0 == sid;
    forall w ensures !Member(KickAll(st, user, entries).sessions, sid, w) {
      if Member(st.sessions, sid, w) {
        var i :| 0 <= i < |st.sessions[sid].sockets| && st.sessions[sid].sockets[i] == w;
        assert entries[i] == (sid, w);
      }
    }
  }

  /** Removing a session: it is gone, its sockets are not open, and its user goes offline if nothing else is open. */
  lemma RemoveSessionEffect(st: State, sid: string)
    requires Inv(st) && sid in st.sessions && st.sessions[sid].sockets != []
    ensures var user, n := st.sessions[sid].userId, RemoveSession(st, sid);
            && n.sessions == st.sessions - {sid}
            && OnlyClosed(st, n, SessionEntries(st, sid)) && EndsWith(st, n, user)
  {
    var user, entries := st.sessions[sid].userId, SessionEntries(st, sid);
    var k, n := KickAll(st, user, entries), RemoveSession(st, sid);
    KickedSession(st, sid);
    KicksClose(st, user, entries);
    KicksEnd(st, user, entries);
    assert k.sessions - {sid} == st.sessions - {sid};
    SessionGone(k, n, sid, user);
    SameEnd(st, k, n, user);
  }

  lemma SameEnd(a: State, b: State, c: State, user: string)
    requires EndsWith(a, b, user) && HasOpen(c, user) == HasOpen(b, user)
    requires c.timers == b.timers && c.presence == b.presence && c.notices == b.notices
    ensures EndsWith(a, c, user)
  {}

  lemma SessionGone(k: State, n: State, sid: string, user: string)
    requires n == k.(sessions := k.sessions - {sid}) && forall w :: !Member(k.sessions, sid, w)
    ensures HasOpen(n, user) == HasOpen(k, user)
  {
    if HasOpen(k, user) {
      var s, w :| OpenAt(k.sessions, k.ready, user, s, w);
      assert OpenAt(n.sessions, n.ready, user, s, w);
    }
    if HasOpen(n, user) {
      var s, w :| OpenAt(n.sessions, n.ready, user, s, w);
      assert OpenAt(k.sessions, k.ready, user, s, w);
    }
  }

  /** Removing one connection ends its user's presence at once if it was the last open one; the socket is not closed. */
  lemma RemoveConnectionEffect(st: State, ws: Socket)
    requires Inv(st) && ws in st.socketUser
    ensures var user, sid, n := st.socketUser[ws], st.socketSession[ws], RemoveConnection(st, ws);
            && EndsWith(st, n, user) && n.ready == st.ready && ws !in n.socketUser && ws !in n.socketSession
            && (forall s, w :: Member(n.sessions, s, w) <==> Member(st.sessions, s, w) && !(s == sid && w == ws))
  {
    var user, sid := st.socketUser[ws], st.socketSession[ws];
    UserOfSessionKnown(st, sid, ws);
    ForcedCleanup(st, user, sid, ws);
    DetachMembers(st, sid, ws);
  }

  /** The lazy cleanup drops only a CLOSED socket from the session and changes nobody's presence. */
  lemma LazyCleanupEffect(st: State, sid: string, ws: Socket)
    ensures var n := LazyCleanup(st, sid, ws);
            && n.presence == st.presence && n.timers == st.timers && n.notices == st.notices && n.ready == st.ready
            && (forall s, w :: Member(n.sessions, s, w) <==>
                  Member(st.sessions, s, w) && !(s == sid && w == ws && ws in st.ready && st.ready[ws] == Closed))
  {
    DetachMembers(st, sid, ws);
  }
}
