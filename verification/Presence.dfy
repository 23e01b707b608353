/**
  Sockets, sessions and presence: the connection manager with its close handlers
  (websocket/connection/connectionManager.js) and the grace timer (websocket/connection/lifecycle.js).
 */
module Presence {
  import opened Wrappers
  import opened Sorting

  const MAX_SOCKETS_PER_SESSION: nat := 3

  type Socket = nat

  datatype Ready = Open | Closing | Closed
  datatype Status = Online | Offline

  /** `sockets` is the session's socket set in the order the sockets were attached. */
  datatype Session = Session(userId: string, sockets: seq<Socket>)

  /** One close listener, with the user and session it was registered for. */
  datatype Handler = Handler(userId: string, sessionId: string)

  datatype Notice = Notice(userId: string, status: Status)

  datatype State = State(
    ready: map<Socket, Ready>,
    sessions: map<string, Session>,
    socketUser: map<Socket, string>,
    socketSession: map<Socket, string>,
    handlers: map<Socket, seq<Handler>>,
    presence: map<string, Status>,
    timers: set<string>,
    notices: seq<Notice>)

  const START := State(map[], map[], map[], map[], map[], map[], {}, [])

  type Sessions = map<string, Session>

  predicate IsOpen(ready: map<Socket, Ready>, ws: Socket) {
    ws in ready && ready[ws] == Open
  }

  predicate Member(sessions: Sessions, sid: string, ws: Socket) {
    sid in sessions && ws in sessions[sid].sockets
  }

  ghost predicate OpenAt(sessions: Sessions, ready: map<Socket, Ready>, user: string, sid: string, ws: Socket) {
    Member(sessions, sid, ws) && sessions[sid].userId == user && IsOpen(ready, ws)
  }

  /** getSockets(user) is non-empty. */
  ghost predicate AnyOpen(sessions: Sessions, ready: map<Socket, Ready>, user: string) {
    exists sid, ws :: OpenAt(sessions, ready, user, sid, ws)
  }

  ghost predicate HasOpen(st: State, user: string) {
    AnyOpen(st.sessions, st.ready, user)
  }

  function HandlersOf(handlers: map<Socket, seq<Handler>>, ws: Socket): seq<Handler> {
    if ws in handlers then handlers[ws] else []
  }

  // ----- Stores -----

  function Without(sockets: seq<Socket>, ws: Socket): seq<Socket> {
    Filter((x: Socket) => x != ws, sockets)
  }

  /** markOffline: takes one socket out of one session. */
  function Detach(st: State, sid: string, ws: Socket): State {
    if !Member(st.sessions, sid, ws) then st
    else st.(sessions := st.sessions[sid := Session(st.sessions[sid].userId, Without(st.sessions[sid].sockets, ws))])
  }

  function Forget(st: State, ws: Socket): State {
    st.(socketUser := st.socketUser - {ws}, socketSession := st.socketSession - {ws})
  }

  function MoveReady(st: State, ws: Socket, r: Ready): State {
    st.(ready := st.ready[ws := r])
  }

  /** close(): starts the closing handshake of an open socket; the close event comes later. */
  function StartClose(st: State, ws: Socket): State {
    if IsOpen(st.ready, ws) then MoveReady(st, ws, Closing) else st
  }

  // ----- Lifecycle -----

  function OnConnect(st: State, user: string): State {
    st.(timers := st.timers - {user}, presence := st.presence[user := Online],
        notices := st.notices + [Notice(user, Online)])
  }

  function RequestDisconnect(st: State, user: string): State {
    if user == "" then st else st.(timers := st.timers + {user})
  }

  ghost function OnDisconnect(st: State, user: string): State {
    if user == "" || (!HasOpen(st, user) && user in st.presence && st.presence[user] == Offline) then st
    else st.(presence := st.presence[user := Offline], notices := st.notices + [Notice(user, Offline)])
  }

  ghost function TimerFires(st: State, user: string): State {
    if user !in st.timers then st
    else
      var s1 := st.(timers := st.timers - {user});
      if HasOpen(s1, user) then s1 else OnDisconnect(s1, user)
  }

  // ----- Connection manager -----

  /** Take the socket out of its session; the user's last open socket ends presence now (forced) or after the grace. */
  ghost function Cleanup(st: State, user: string, sid: string, ws: Socket, forced: bool): State {
    var s1 := Forget(Detach(st, sid, ws), ws);
    if HasOpen(s1, user) then s1
    else if forced then OnDisconnect(s1, user)
    else RequestDisconnect(s1, user)
  }

  /** Runs the remaining close listeners of a socket in order. */
  ghost function RunHandlers(st: State, ws: Socket): State
    decreases |HandlersOf(st.handlers, ws)|
  {
    if HandlersOf(st.handlers, ws) == [] then st
    else
      var h := HandlersOf(st.handlers, ws)[0];
      RunHandlers(Cleanup(st.(handlers := st.handlers[ws := st.handlers[ws][1..]]), h.userId, h.sessionId, ws, false),
        ws)
  }

  ghost function CloseEvent(st: State, ws: Socket): State {
    if ws !in st.ready then st else RunHandlers(MoveReady(st, ws, Closed), ws)
  }

  /** Adds the socket to the session, creating it if needed, and attaches the close listener. */
  function Attach(st: State, user: string, ws: Socket, sid: string): State {
    var sockets := if sid in st.sessions then st.sessions[sid].sockets else [];
    st.(sessions := st.sessions[sid := Session(user, sockets + [ws])],
        socketUser := st.socketUser[ws := user],
        socketSession := st.socketSession[ws := sid],
        handlers := st.handlers[ws := HandlersOf(st.handlers, ws) + [Handler(user, sid)]])
  }

  /** Over the cap, the longest-attached socket goes: closed if open, then cleaned up as forced. */
  ghost function Evict(st: State, user: string, sid: string): State
    requires sid in st.sessions
  {
    if |st.sessions[sid].sockets| <= MAX_SOCKETS_PER_SESSION then st
    else
      var oldest := st.sessions[sid].sockets[0];
      Cleanup(StartClose(Detach(st, sid, oldest), oldest), user, sid, oldest, true)
  }

  /** A register call that goes through; a session id belongs to one user. */
  predicate Registers(st: State, user: string, ws: Socket, sid: string) {
    && user != "" && IsOpen(st.ready, ws)
    && (ws in st.socketUser ==> st.socketUser[ws] == user)
    && !Member(st.sessions, sid, ws)
    && (sid in st.sessions ==> st.sessions[sid].userId == user)
  }

  ghost function Register(st: State, user: string, ws: Socket, sid: string): State {
    if !Registers(st, user, ws, sid) then st
    else OnConnect(Evict(Attach(st, user, ws, sid), user, sid), user)
  }

  ghost function Kick(st: State, user: string, sid: string, ws: Socket): State {
    Cleanup(StartClose(st, ws), user, sid, ws, true)
  }

  ghost function KickAll(st: State, user: string, entries: seq<(string, Socket)>): State {
    if entries == [] then st
    else
      var (sid, ws) := entries[|entries| - 1];
      Kick(KickAll(st, user, entries[..|entries| - 1]), user, sid, ws)
  }

  function DropEmpty(st: State, sids: set<string>): State {
    st.(sessions := map sid | sid in st.sessions && !(sid in sids && st.sessions[sid].sockets == []) ::
      st.sessions[sid])
  }

  /** The entries are the user's sockets, session by session, as listed when the call starts. */
  ghost predicate Lists(st: State, user: string, entries: seq<(string, Socket)>) {
    forall sid: string, ws: Socket ::
      (sid, ws) in entries <==> Member(st.sessions, sid, ws) && st.sessions[sid].userId == user
  }

  ghost function Remove(st: State, user: string, entries: seq<(string, Socket)>): State {
    DropEmpty(KickAll(st, user, entries), set e | e in entries :: e.0)
  }

  function SessionEntries(st: State, sid: string): seq<(string, Socket)>
    requires sid in st.sessions
  {
    var sockets := st.sessions[sid].sockets;
    seq(|sockets|, i requires 0 <= i < |sockets| => (sid, sockets[i]))
  }

  ghost function RemoveSession(st: State, sid: string): State {
    if sid !in st.sessions then st
    else
      var s1 := KickAll(st, st.sessions[sid].userId, SessionEntries(st, sid));
      s1.(sessions := s1.sessions - {sid})
  }

  ghost function RemoveConnection(st: State, ws: Socket): State {
    if ws in st.socketUser && ws in st.socketSession then
      Cleanup(st, st.socketUser[ws], st.socketSession[ws], ws, true)
    else st
  }

  /** getSocket drops sockets that are already CLOSED from the session, without touching presence. */
  function LazyCleanup(st: State, sid: string, ws: Socket): State {
    if Member(st.sessions, sid, ws) && ws in st.ready && st.ready[ws] == Closed then Forget(Detach(st, sid, ws), ws)
      else st
  }

  // ----- Invariants -----

  /** Every registered socket still has its close listener waiting, and its metadata names a session it is in. */
  ghost predicate Wired(st: State) {
    && (forall sid, ws | Member(st.sessions, sid, ws) ::
          ws in st.ready && Handler(st.sessions[sid].userId, sid) in HandlersOf(st.handlers, ws))
    && (forall ws | ws in st.socketSession ::
          ws in st.socketUser && Member(st.sessions, st.socketSession[ws], ws)
          && st.sessions[st.socketSession[ws]].userId == st.socketUser[ws])
    && (forall ws | ws in st.socketUser :: ws in st.socketSession)
  }

  ghost predicate CloseWaits(handlers: map<Socket, seq<Handler>>, user: string) {
    exists ws, h :: h in HandlersOf(handlers, ws) && h.userId == user
  }

  /** An open registered socket means online without a timer; online without one means an end is on its way. */
  ghost predicate UserOk(st: State, user: string) {
    && (HasOpen(st, user) ==> user in st.presence && st.presence[user] == Online && user !in st.timers)
    && (user in st.presence && st.presence[user] == Online && !HasOpen(st, user) ==>
       user in st.timers || CloseWaits(st.handlers, user))
  }

  /** Everyone with a timer or a waiting listener has been announced before. */
  ghost predicate Known(st: State) {
    KnownBut(st, "")
  }

  ghost predicate KnownBut(st: State, user: string) {
    && (forall u | u in st.timers :: u != "" && u in st.presence)
    && (forall ws, h | h in HandlersOf(st.handlers, ws) ::
       h.userId != "" && (h.userId == user || h.userId in st.presence))
  }

  function LastStatus(notices: seq<Notice>, user: string): Option<Status> {
    if notices == [] then None
    else if notices[|notices| - 1].userId == user then Some(notices[|notices| - 1].status)
    else LastStatus(notices[..|notices| - 1], user)
  }

  /** Each OFFLINE notice follows an ONLINE one as that user's previous notice. */
  predicate Alternates(notices: seq<Notice>) {
    notices == []
    || (Alternates(notices[..|notices| - 1])
        && var n := notices[|notices| - 1];
           n.status == Offline ==> LastStatus(notices[..|notices| - 1], n.userId) == Some(Online))
  }

  ghost predicate NoticesOk(st: State) {
    && Alternates(st.notices)
    && forall user :: LastStatus(st.notices, user) == if user in st.presence then Some(st.presence[user]) else None
  }

  /** The invariant but for one user, as it is in the middle of a call for that user. */
  ghost predicate InvBut(st: State, user: string) {
    Wired(st) && KnownBut(st, user) && NoticesOk(st) && forall u | u != user :: UserOk(st, u)
  }

  ghost predicate Inv(st: State) {
    Wired(st) && Known(st) && NoticesOk(st) && forall u :: UserOk(st, u)
  }

  // ----- Stores -----

  lemma DetachMembers(st: State, sid: string, ws: Socket)
    ensures var n := Detach(st, sid, ws);
            && (forall s, w :: Member(n.sessions, s, w) <==> Member(st.sessions, s, w) && !(s == sid && w == ws))
            && n == st.(sessions := n.sessions)
            && n.sessions.Keys == st.sessions.Keys
            && (forall s | s in st.sessions :: n.sessions[s].userId == st.sessions[s].userId)
  {}

  /** Detaching keeps every other entry, so only the session's own user can lose an open socket. */
  lemma DetachOpen(st: State, sid: string, ws: Socket, user: string)
    requires !IsOpen(st.ready, ws) || (sid in st.sessions ==> st.sessions[sid].userId != user)
    ensures HasOpen(Detach(st, sid, ws), user) == HasOpen(st, user)
  {
    var n := Detach(st, sid, ws);
    DetachMembers(st, sid, ws);
    if HasOpen(st, user) {
      var s, w :| OpenAt(st.sessions, st.ready, user, s, w);
      assert OpenAt(n.sessions, n.ready, user, s, w);
    }
    if HasOpen(n, user) {
      var s, w :| OpenAt(n.sessions, n.ready, user, s, w);
      assert OpenAt(st.sessions, st.ready, user, s, w);
    }
  }

  lemma SameOpen(st: State, n: State, user: string)
    requires n.sessions == st.sessions && n.ready == st.ready
    ensures HasOpen(n, user) == HasOpen(st, user)
  {
    if HasOpen(st, user) {
      var s, w :| OpenAt(st.sessions, st.ready, user, s, w);
      assert OpenAt(n.sessions, n.ready, user, s, w);
    }
    if HasOpen(n, user) {
      var s, w :| OpenAt(n.sessions, n.ready, user, s, w);
      assert OpenAt(st.sessions, st.ready, user, s, w);
    }
  }

  /** Users whose open sockets, presence, timer and listeners are the same stay fine. */
  lemma UserCarries(st: State, n: State, user: string)
    requires UserOk(st, user) && HasOpen(n, user) == HasOpen(st, user)
    requires (user in n.presence) == (user in st.presence)
    requires user in st.presence ==> n.presence[user] == st.presence[user]
    requires (user in n.timers) == (user in st.timers)
    requires CloseWaits(st.handlers, user) ==> CloseWaits(n.handlers, user)
    ensures UserOk(n, user)
  {}

  // ----- Notices -----

  lemma NoticeAdded(st: State, n: State, user: string, status: Status)
    requires NoticesOk(st) && n.notices == st.notices + [Notice(user, status)]
      && n.presence == st.presence[user := status]
    requires status == Offline ==> user in st.presence && st.presence[user] == Online
    ensures NoticesOk(n)
  {
    assert n.notices[..|n.notices| - 1] == st.notices;
  }

  // ----- Ends of presence -----

  /** Once the user has no open socket, a forced end leaves the user offline. */
  lemma OnDisconnectKeeps(st: State, user: string)
    requires InvBut(st, user) && !HasOpen(st, user) && user in st.presence && user != ""
    ensures Inv(OnDisconnect(st, user))
  {
    var n := OnDisconnect(st, user);
    if n != st {
      NoticeAdded(st, n, user, Offline);
    }
    forall u ensures UserOk(n, u) {
      SameOpen(st, n, u);
      if u != user { UserCarries(st, n, u); }
    }
  }

  lemma RequestDisconnectKeeps(st: State, user: string)
    requires InvBut(st, user) && !HasOpen(st, user) && user in st.presence && user != ""
    ensures Inv(RequestDisconnect(st, user))
  {
    var n := RequestDisconnect(st, user);
    forall u ensures UserOk(n, u) {
      SameOpen(st, n, u);
      if u != user { UserCarries(st, n, u); }
    }
  }

  lemma OnConnectKeeps(st: State, user: string)
    requires InvBut(st, user) && HasOpen(st, user) && user != ""
    ensures Inv(OnConnect(st, user))
  {
    var n := OnConnect(st, user);
    NoticeAdded(st, n, user, Online);
    forall u ensures UserOk(n, u) {
      SameOpen(st, n, u);
      if u != user { UserCarries(st, n, u); }
    }
  }

  // ----- Sockets changing state -----

  /** A socket that stops being open still has its close listener, so its users have an end on its way. */
  lemma MoveReadyKeeps(st: State, ws: Socket, r: Ready, user: string)
    requires InvBut(st, user) && ws in st.ready && r != Open
    ensures InvBut(MoveReady(st, ws, r), user)
    ensures UserOk(st, user) ==> UserOk(MoveReady(st, ws, r), user)
  {
    var n := MoveReady(st, ws, r);
    assert Wired(n) by {
      assert forall s, w :: Member(n.sessions, s, w) == Member(st.sessions, s, w);
      assert forall w :: HandlersOf(n.handlers, w) == HandlersOf(st.handlers, w);
    }
    forall u | UserOk(st, u) ensures UserOk(n, u) {
      if HasOpen(n, u) {
        var s, w :| OpenAt(n.sessions, n.ready, u, s, w);
        assert OpenAt(st.sessions, st.ready, u, s, w);
      } else if HasOpen(st, u) {
        var s, w :| OpenAt(st.sessions, st.ready, u, s, w);
        assert w == ws || OpenAt(n.sessions, n.ready, u, s, w);
        assert Handler(u, s) in HandlersOf(n.handlers, ws);
      } else if CloseWaits(st.handlers, u) {
        var w, h :| h in HandlersOf(st.handlers, w) && h.userId == u;
        assert h in HandlersOf(n.handlers, w);
      }
    }
  }

  // ----- Cleanup -----

  /** Taking a socket out of a session of its user keeps the wiring; only that user's presence needs a decision. */
  lemma ForgetKeeps(st: State, user: string, sid: string, ws: Socket)
    requires InvBut(st, user)
    requires !IsOpen(st.ready, ws) || (sid in st.sessions ==> st.sessions[sid].userId == user)
    ensures var n := Forget(Detach(st, sid, ws), ws);
            && InvBut(n, user) && n.presence == st.presence && n.timers == st.timers && n.handlers == st.handlers
  {
    var d := Detach(st, sid, ws);
    var n := Forget(d, ws);
    DetachMembers(st, sid, ws);
    assert forall s, w :: Member(n.sessions, s, w) == Member(d.sessions, s, w);
    assert forall w :: HandlersOf(n.handlers, w) == HandlersOf(st.handlers, w);
    forall u | u != user ensures UserOk(n, u) {
      DetachOpen(st, sid, ws, u);
      SameOpen(d, n, u);
      if CloseWaits(st.handlers, u) {
        var w, h :| h in HandlersOf(st.handlers, w) && h.userId == u;
        assert h in HandlersOf(n.handlers, w);
      }
      UserCarries(st, n, u);
    }
  }

  lemma CleanupKeeps(st: State, user: string, sid: string, ws: Socket, forced: bool)
    requires InvBut(st, user) && user in st.presence && user != ""
    requires !IsOpen(st.ready, ws) || (sid in st.sessions ==> st.sessions[sid].userId == user)
    requires HasOpen(st, user) ==> st.presence[user] == Online && user !in st.timers
    ensures Inv(Cleanup(st, user, sid, ws, forced))
  {
    ForgetKeeps(st, user, sid, ws);
    var n := Forget(Detach(st, sid, ws), ws);
    if HasOpen(n, user) {
      var s, w :| OpenAt(n.sessions, n.ready, user, s, w);
      DetachMembers(st, sid, ws);
      assert OpenAt(st.sessions, st.ready, user, s, w);
    } else if forced {
      OnDisconnectKeeps(n, user);
    } else {
      RequestDisconnectKeeps(n, user);
    }
  }

  // ----- Close events -----

  /** `p` is the state with the listener `h` of the socket taken off. */
  ghost predicate Popped(st: State, p: State, ws: Socket, h: Handler) {
    && p == st.(handlers := p.handlers)
    && (forall w, x | x in HandlersOf(p.handlers, w) :: x in HandlersOf(st.handlers, w))
    && (forall w, x | x in HandlersOf(st.handlers, w) && !(w == ws && x == h) :: x in HandlersOf(p.handlers, w))
  }

  lemma PopIsPopped(st: State, ws: Socket)
    requires HandlersOf(st.handlers, ws) != []
    ensures Popped(st, st.(handlers := st.handlers[ws := st.handlers[ws][1..]]), ws, st.handlers[ws][0])
  {
    var p := st.(handlers := st.handlers[ws := st.handlers[ws][1..]]);
    assert st.handlers[ws] == [st.handlers[ws][0]] + st.handlers[ws][1..];
    assert forall w | w != ws :: HandlersOf(p.handlers, w) == HandlersOf(st.handlers, w);
  }

  /** With its socket out of its session, the wiring no longer needs the listener that was taken off. */
  lemma ListenerWired(st: State, p: State, n: State, ws: Socket, h: Handler)
    requires Inv(st) && Popped(st, p, ws, h) && n == Forget(Detach(p, h.sessionId, ws), ws)
    ensures Wired(n) && Known(n)
  {
    DetachMembers(p, h.sessionId, ws);
    forall s, w | Member(n.sessions, s, w)
      ensures w in n.ready && Handler(n.sessions[s].userId, s) in HandlersOf(n.handlers, w)
    {
      assert Member(st.sessions, s, w);
      assert Handler(st.sessions[s].userId, s) in HandlersOf(st.handlers, w);
    }
  }

  lemma ListenerOthers(st: State, p: State, n: State, ws: Socket, h: Handler, u: string)
    requires UserOk(st, u) && Popped(st, p, ws, h) && n == Forget(Detach(p, h.sessionId, ws), ws)
    requires !IsOpen(st.ready, ws) && u != h.userId
    ensures UserOk(n, u)
  {
    var d := Detach(p, h.sessionId, ws);
    DetachOpen(p, h.sessionId, ws, u);
    SameOpen(st, p, u);
    SameOpen(d, n, u);
    if CloseWaits(st.handlers, u) {
      var w, x :| x in HandlersOf(st.handlers, w) && x.userId == u;
      assert x in HandlersOf(n.handlers, w);
    }
    UserCarries(st, n, u);
  }

  /** Dropping the first listener of a closed socket leaves only its user's presence open, which cleanup settles. */
  lemma ListenerRuns(st: State, ws: Socket)
    requires Inv(st) && HandlersOf(st.handlers, ws) != [] && !IsOpen(st.ready, ws)
    ensures var h := HandlersOf(st.handlers, ws)[0];
            Inv(Cleanup(st.(handlers := st.handlers[ws := st.handlers[ws][1..]]), h.userId, h.sessionId, ws, false))
  {
    PopIsPopped(st, ws);
    PoppedRuns(st, st.(handlers := st.handlers[ws := st.handlers[ws][1..]]), ws, st.handlers[ws][0]);
  }

  lemma PoppedRuns(st: State, p: State, ws: Socket, h: Handler)
    requires Inv(st) && Popped(st, p, ws, h) && h in HandlersOf(st.handlers, ws) && !IsOpen(st.ready, ws)
    ensures Inv(Cleanup(p, h.userId, h.sessionId, ws, false))
  {
    var d := Detach(p, h.sessionId, ws);
    var n := Forget(d, ws);
    ListenerWired(st, p, n, ws, h);
    forall u | u != h.userId ensures UserOk(n, u) {
      ListenerOthers(st, p, n, ws, h, u);
    }
    DetachOpen(p, h.sessionId, ws, h.userId);
    SameOpen(st, p, h.userId);
    SameOpen(d, n, h.userId);
    assert UserOk(st, h.userId);
    if !HasOpen(n, h.userId) {
      RequestDisconnectKeeps(n, h.userId);
    } else {
      assert UserOk(n, h.userId);
    }
  }

  lemma {:induction false} RunHandlersKeeps(st: State, ws: Socket)
    requires Inv(st) && !IsOpen(st.ready, ws)
    ensures Inv(RunHandlers(st, ws))
    decreases |HandlersOf(st.handlers, ws)|
  {
    if HandlersOf(st.handlers, ws) != [] {
      var h := HandlersOf(st.handlers, ws)[0];
      var s1 := st.(handlers := st.handlers[ws := st.handlers[ws][1..]]);
      ListenerRuns(st, ws);
      DetachMembers(s1, h.sessionId, ws);
      RunHandlersKeeps(Cleanup(s1, h.userId, h.sessionId, ws, false), ws);
    }
  }

  lemma CloseEventKeeps(st: State, ws: Socket)
    requires Inv(st)
    ensures Inv(CloseEvent(st, ws))
  {
    if ws in st.ready {
      MoveReadyKeeps(st, ws, Closed, "");
      assert UserOk(st, "");
      RunHandlersKeeps(MoveReady(st, ws, Closed), ws);
    }
  }

  // ----- Registering -----

  lemma AttachMembers(st: State, user: string, ws: Socket, sid: string)
    requires Registers(st, user, ws, sid)
    ensures var n := Attach(st, user, ws, sid);
            && (forall s, w :: Member(n.sessions, s, w) <==> Member(st.sessions, s, w) || (s == sid && w == ws))
            && (forall s | s in st.sessions :: s in n.sessions && n.sessions[s].userId == st.sessions[s].userId)
            && Member(n.sessions, sid, ws) && n.sessions[sid].userId == user
  {}

  lemma AttachListeners(st: State, user: string, ws: Socket, sid: string)
    ensures var n := Attach(st, user, ws, sid);
            forall w, h :: h in HandlersOf(n.handlers, w) <==>
              h in HandlersOf(st.handlers, w) || (w == ws && h == Handler(user, sid))
  {
    var n := Attach(st, user, ws, sid);
    assert forall w | w != ws :: HandlersOf(n.handlers, w) == HandlersOf(st.handlers, w);
  }

  lemma AttachWired(st: State, user: string, ws: Socket, sid: string)
    requires Wired(st) && Registers(st, user, ws, sid)
    ensures Wired(Attach(st, user, ws, sid))
  {
    var n := Attach(st, user, ws, sid);
    AttachMembers(st, user, ws, sid);
    AttachListeners(st, user, ws, sid);
    assert n.ready == st.ready && n.socketUser == st.socketUser[ws := user]
      && n.socketSession == st.socketSession[ws := sid];
    AttachedWired(st, n, user, ws, sid);
  }

  lemma AttachedWired(st: State, n: State, user: string, ws: Socket, sid: string)
    requires Wired(st) && ws in st.ready && (sid in st.sessions ==> st.sessions[sid].userId == user)
    requires n.ready == st.ready && n.socketUser == st.socketUser[ws := user]
      && n.socketSession == st.socketSession[ws := sid]
    requires forall s, w :: Member(n.sessions, s, w) <==> Member(st.sessions, s, w) || (s == sid && w == ws)
    requires forall s | s in st.sessions :: s in n.sessions && n.sessions[s].userId == st.sessions[s].userId
    requires sid in n.sessions && n.sessions[sid].userId == user
    requires forall w, h ::
      h in HandlersOf(n.handlers, w) <==> h in HandlersOf(st.handlers, w) || (w == ws && h == Handler(user, sid))
    ensures Wired(n)
  {
    forall s, w | Member(n.sessions, s, w)
      ensures w in n.ready && Handler(n.sessions[s].userId, s) in HandlersOf(n.handlers, w)
    {
      if Member(st.sessions, s, w) {
        assert Handler(st.sessions[s].userId, s) in HandlersOf(st.handlers, w);
      }
    }
  }

  lemma AttachOpen(st: State, n: State, user: string, ws: Socket, sid: string, u: string)
    requires Registers(st, user, ws, sid) && n == Attach(st, user, ws, sid) && u != user
    ensures HasOpen(n, u) == HasOpen(st, u)
  {
    AttachMembers(st, user, ws, sid);
    if HasOpen(st, u) {
      var s, w :| OpenAt(st.sessions, st.ready, u, s, w);
      assert OpenAt(n.sessions, n.ready, u, s, w);
    }
    if HasOpen(n, u) {
      var s, w :| OpenAt(n.sessions, n.ready, u, s, w);
      assert OpenAt(st.sessions, st.ready, u, s, w);
    }
  }

  lemma AttachKeeps(st: State, user: string, ws: Socket, sid: string)
    requires Inv(st) && Registers(st, user, ws, sid)
    ensures InvBut(Attach(st, user, ws, sid), user)
  {
    var n := Attach(st, user, ws, sid);
    AttachWired(st, user, ws, sid);
    AttachListeners(st, user, ws, sid);
    forall u | u != user ensures UserOk(n, u) {
      AttachOpen(st, n, user, ws, sid, u);
      if CloseWaits(st.handlers, u) {
        var w, h :| h in HandlersOf(st.handlers, w) && h.userId == u;
        assert h in HandlersOf(n.handlers, w);
      }
      UserCarries(st, n, u);
    }
  }

  /** Eviction never takes the socket just attached, which is last and open, so the user keeps an open socket. */
  lemma EvictKeeps(st: State, user: string, sid: string, ws: Socket)
    requires InvBut(st, user) && user != "" && IsOpen(st.ready, ws)
    requires sid in st.sessions && st.sessions[sid].userId == user
    requires st.sessions[sid].sockets != [] && st.sessions[sid].sockets[|st.sessions[sid].sockets| - 1] == ws
    requires ws !in st.sessions[sid].sockets[..|st.sessions[sid].sockets| - 1]
    ensures InvBut(Evict(st, user, sid), user) && HasOpen(Evict(st, user, sid), user)
  {
    var sockets := st.sessions[sid].sockets;
    assert Member(st.sessions, sid, ws);
    if |sockets| <= MAX_SOCKETS_PER_SESSION {
      assert OpenAt(st.sessions, st.ready, user, sid, ws);
    } else {
      var oldest := sockets[0];
      assert oldest in sockets[..|sockets| - 1];
      var d := Detach(st, sid, oldest);
      var c := StartClose(d, oldest);
      var n := Forget(Detach(c, sid, oldest), oldest);
      DetachMembers(st, sid, oldest);
      DetachMembers(c, sid, oldest);
      assert Detach(c, sid, oldest) == c;
      assert n == StartClose(Forget(d, oldest), oldest);
      ForgetKeeps(st, user, sid, oldest);
      if IsOpen(d.ready, oldest) {
        MoveReadyKeeps(Forget(d, oldest), oldest, Closing, user);
      }
      assert OpenAt(n.sessions, n.ready, user, sid, ws);
      assert Evict(st, user, sid) == n;
    }
  }

  lemma RegisterKeeps(st: State, user: string, ws: Socket, sid: string)
    requires Inv(st)
    ensures Inv(Register(st, user, ws, sid))
  {
    if Registers(st, user, ws, sid) {
      AttachKeeps(st, user, ws, sid);
      var a := Attach(st, user, ws, sid);
      EvictKeeps(a, user, sid, ws);
      OnConnectKeeps(Evict(a, user, sid), user);
    }
  }

  // ----- Kicks -----

  lemma KickKeeps(st: State, user: string, sid: string, ws: Socket)
    requires Inv(st) && user != "" && user in st.presence
    requires sid in st.sessions ==> st.sessions[sid].userId == user
    ensures Inv(Kick(st, user, sid, ws))
  {
    var c := StartClose(st, ws);
    if IsOpen(st.ready, ws) {
      MoveReadyKeeps(st, ws, Closing, user);
    }
    assert UserOk(st, user);
    CleanupKeeps(c, user, sid, ws, true);
  }

  lemma CleanupFrame(st: State, user: string, sid: string, ws: Socket, forced: bool)
    ensures var n := Cleanup(st, user, sid, ws, forced);
            n.sessions == Detach(st, sid, ws).sessions && st.presence.Keys <= n.presence.Keys
  {}

  /** What a kick leaves for the next one: sessions keep their users and the presence stays known. */
  lemma KickFrame(st: State, user: string, sid: string, ws: Socket)
    ensures var n := Kick(st, user, sid, ws);
            && n.sessions.Keys == st.sessions.Keys
            && (forall s | s in st.sessions :: n.sessions[s].userId == st.sessions[s].userId)
            && (forall s, w :: Member(n.sessions, s, w) <==> Member(st.sessions, s, w) && !(s == sid && w == ws))
            && st.presence.Keys <= n.presence.Keys
  {
    var c := StartClose(st, ws);
    CleanupFrame(c, user, sid, ws, true);
    DetachMembers(st, sid, ws);
    assert Detach(c, sid, ws).sessions == Detach(st, sid, ws).sessions;
  }

  ghost predicate EntriesOf(st: State, user: string, entries: seq<(string, Socket)>) {
    forall i | 0 <= i < |entries| :: entries[i].0 in st.sessions && st.sessions[entries[i].0].userId == user
  }

  lemma {:induction false} KickAllKeeps(st: State, user: string, entries: seq<(string, Socket)>)
    requires Inv(st) && user != "" && user in st.presence && EntriesOf(st, user, entries)
    ensures var n := KickAll(st, user, entries);
            && Inv(n)
            && n.sessions.Keys == st.sessions.Keys
            && (forall s | s in st.sessions :: n.sessions[s].userId == st.sessions[s].userId)
            && (forall s: string, w: Socket | Member(n.sessions, s, w) ::
               Member(st.sessions, s, w) && (s, w) !in entries)
            && st.presence.Keys <= n.presence.Keys
  {
    if entries != [] {
      var front, e := entries[..|entries| - 1], entries[|entries| - 1];
      KickAllKeeps(st, user, front);
      var m := KickAll(st, user, front);
      assert entries == front + [e];
      assert e.0 in st.sessions;
      KickKeeps(m, user, e.0, e.1);
      KickFrame(m, user, e.0, e.1);
    }
  }

  /** Dropping sessions without sockets changes nobody's sockets. */
  lemma DropKeeps(st: State, n: State)
    requires Inv(st) && n == st.(sessions := n.sessions)
    requires forall s | s in n.sessions :: s in st.sessions && n.sessions[s] == st.sessions[s]
    requires forall s | s in st.sessions && s !in n.sessions :: st.sessions[s].sockets == []
    ensures Inv(n)
  {
    assert forall s, w :: Member(n.sessions, s, w) == Member(st.sessions, s, w);
    forall u ensures UserOk(n, u) {
      if HasOpen(st, u) {
        var s, w :| OpenAt(st.sessions, st.ready, u, s, w);
        assert OpenAt(n.sessions, n.ready, u, s, w);
      }
      if HasOpen(n, u) {
        var s, w :| OpenAt(n.sessions, n.ready, u, s, w);
        assert OpenAt(st.sessions, st.ready, u, s, w);
      }
      UserCarries(st, n, u);
    }
  }

  lemma UserOfSessionKnown(st: State, sid: string, ws: Socket)
    requires Inv(st) && Member(st.sessions, sid, ws)
    ensures st.sessions[sid].userId != "" && st.sessions[sid].userId in st.presence
  {
    assert Handler(st.sessions[sid].userId, sid) in HandlersOf(st.handlers, ws);
  }

  lemma RemoveKeeps(st: State, user: string, entries: seq<(string, Socket)>)
    requires Inv(st) && Lists(st, user, entries)
    ensures Inv(Remove(st, user, entries))
  {
    forall i | 0 <= i < |entries|
      ensures Member(st.sessions, entries[i].0, entries[i].1) && st.sessions[entries[i].0].userId == user
    {
      var (sid, ws) := entries[i];
      assert (sid, ws) in entries;
    }
    if entries != [] {
      UserOfSessionKnown(st, entries[0].0, entries[0].1);
      KickAllKeeps(st, user, entries);
    }
    DropKeeps(KickAll(st, user, entries), Remove(st, user, entries));
  }

  lemma RemoveSessionKeeps(st: State, sid: string)
    requires Inv(st)
    ensures Inv(RemoveSession(st, sid))
  {
    if sid in st.sessions {
      var user, entries := st.sessions[sid].userId, SessionEntries(st, sid);
      if entries != [] {
        UserOfSessionKnown(st, sid, st.sessions[sid].sockets[0]);
        KickAllKeeps(st, user, entries);
      }
      var m := KickAll(st, user, entries);
      forall w ensures !Member(m.sessions, sid, w) {
        if Member(st.sessions, sid, w) {
          var i :| 0 <= i < |st.sessions[sid].sockets| && st.sessions[sid].sockets[i] == w;
          assert entries[i] == (sid, w);
        }
      }
      NoMembers(m.sessions, sid);
      DropKeeps(m, RemoveSession(st, sid));
    }
  }

  lemma NoMembers(sessions: Sessions, sid: string)
    requires sid in sessions && forall w :: !Member(sessions, sid, w)
    ensures sessions[sid].sockets == []
  {
    SomeElement(sessions[sid].sockets);
    assert forall w :: w in sessions[sid].sockets ==> Member(sessions, sid, w);
  }

  lemma RemoveConnectionKeeps(st: State, ws: Socket)
    requires Inv(st)
    ensures Inv(RemoveConnection(st, ws))
  {
    if ws in st.socketUser && ws in st.socketSession {
      UserOfSessionKnown(st, st.socketSession[ws], ws);
      assert UserOk(st, st.socketUser[ws]);
      CleanupKeeps(st, st.socketUser[ws], st.socketSession[ws], ws, true);
    }
  }

  lemma LazyCleanupKeeps(st: State, sid: string, ws: Socket)
    requires Inv(st)
    ensures Inv(LazyCleanup(st, sid, ws))
  {
    var n := LazyCleanup(st, sid, ws);
    if n != st {
      var user := st.sessions[sid].userId;
      ForgetKeeps(st, user, sid, ws);
      DetachOpen(st, sid, ws, user);
      assert UserOk(st, user);
      UserCarries(st, n, user);
    }
  }

  lemma TimerKeeps(st: State, user: string)
    requires Inv(st)
    ensures Inv(TimerFires(st, user))
  {
    if user in st.timers {
      var s1 := st.(timers := st.timers - {user});
      forall u | u != user ensures UserOk(s1, u) {
        UserCarries(st, s1, u);
      }
      assert UserOk(st, user);
      OnDisconnectKeeps(s1, user);
    }
  }

  // ----- Every run -----

  datatype Event =
    | EvNewSocket(ws: Socket)
    | EvRegister(user: string, ws: Socket, sid: string)
    | EvReady(ws: Socket, r: Ready)
    | EvCloseEvent(ws: Socket)
    | EvTimer(user: string)
    | EvRemove(user: string, entries: seq<(string, Socket)>)
    | EvRemoveSession(sid: string)
    | EvRemoveConnection(ws: Socket)
    | EvLazyCleanup(sid: string, ws: Socket)

  /** A socket only ever moves away from OPEN; a removal works on the list of the user's sockets. */
  ghost function Step(st: State, e: Event): State {
    match e
    case EvNewSocket(ws) => if ws in st.ready then st else MoveReady(st, ws, Open)
    case EvRegister(user, ws, sid) => Register(st, user, ws, sid)
    case EvReady(ws, r) => if ws in st.ready && r != Open then MoveReady(st, ws, r) else st
    case EvCloseEvent(ws) => CloseEvent(st, ws)
    case EvTimer(user) => TimerFires(st, user)
    case EvRemove(user, entries) => if Lists(st, user, entries) then Remove(st, user, entries) else st
    case EvRemoveSession(sid) => RemoveSession(st, sid)
    case EvRemoveConnection(ws) => RemoveConnection(st, ws)
    case EvLazyCleanup(sid, ws) => LazyCleanup(st, sid, ws)
  }

  lemma NewSocketKeeps(st: State, ws: Socket)
    requires Inv(st) && ws !in st.ready
    ensures Inv(MoveReady(st, ws, Open))
  {
    var n := MoveReady(st, ws, Open);
    forall u ensures UserOk(n, u) {
      if HasOpen(st, u) {
        var s, w :| OpenAt(st.sessions, st.ready, u, s, w);
        assert OpenAt(n.sessions, n.ready, u, s, w);
      }
      if HasOpen(n, u) {
        var s, w :| OpenAt(n.sessions, n.ready, u, s, w);
        assert OpenAt(st.sessions, st.ready, u, s, w);
      }
      UserCarries(st, n, u);
    }
  }

  lemma StepKeeps(st: State, e: Event)
    requires Inv(st)
    ensures Inv(Step(st, e))
  {
    match e {
      case EvNewSocket(ws) => if ws !in st.ready { NewSocketKeeps(st, ws); }
      case EvRegister(user, ws, sid) => RegisterKeeps(st, user, ws, sid);
      case EvReady(ws, r) =>
        if ws in st.ready && r != Open {
          MoveReadyKeeps(st, ws, r, "");
          assert UserOk(st, "");
        }
      case EvCloseEvent(ws) => CloseEventKeeps(st, ws);
      case EvTimer(user) => TimerKeeps(st, user);
      case EvRemove(user, entries) => if Lists(st, user, entries) { RemoveKeeps(st, user, entries); }
      case EvRemoveSession(sid) => RemoveSessionKeeps(st, sid);
      case EvRemoveConnection(ws) => RemoveConnectionKeeps(st, ws);
      case EvLazyCleanup(sid, ws) => LazyCleanupKeeps(st, sid, ws);
    }
  }

  ghost function Execute(events: seq<Event>): State {
    if events == [] then START else Step(Execute(events[..|events| - 1]), events[|events| - 1])
  }

  lemma {:induction false} EveryRun(events: seq<Event>)
    ensures Inv(Execute(events))
  {
    if events == [] {
      assert forall u :: UserOk(START, u);
    } else {
      EveryRun(events[..|events| - 1]);
      StepKeeps(Execute(events[..|events| - 1]), events[|events| - 1]);
    }
  }

  /** In every reachable state, open sockets and presence agree, up to an end that is on its way. */
  lemma PresenceTracksSockets(events: seq<Event>, user: string)
    ensures var st := Execute(events);
            var online := user in st.presence && st.presence[user] == Online;
            && (HasOpen(st, user) ==> online && user !in st.timers)
            && (online && !HasOpen(st, user) ==> user in st.timers || CloseWaits(st.handlers, user))
  {
    EveryRun(events);
    assert UserOk(Execute(events), user);
  }

  /** Between two OFFLINE notices of a user there is an ONLINE one, and the first notice is never OFFLINE. */
  lemma OfflineOnceUntilOnline(events: seq<Event>, user: string, j: nat)
    requires j < |Execute(events).notices| && Execute(events).notices[j] == Notice(user, Offline)
    ensures var ns := Execute(events).notices;
            exists i :: 0 <= i < j && ns[i] == Notice(user, Online)
              && forall k | i < k < j :: ns[k].userId != user
  {
    EveryRun(events);
    PreviousIsOnline(Execute(events).notices, user, j);
  }

  lemma {:induction false} PreviousIsOnline(ns: seq<Notice>, user: string, j: nat)
    requires Alternates(ns) && j < |ns| && ns[j] == Notice(user, Offline)
    ensures exists i :: 0 <= i < j && ns[i] == Notice(user, Online) && forall k | i < k < j :: ns[k].userId != user
  {
    var front := ns[..|ns| - 1];
    if j < |ns| - 1 {
      PreviousIsOnline(front, user, j);
      var i :| 0 <= i < j && front[i] == Notice(user, Online) && forall k | i < k < j :: front[k].userId != user;
      assert ns[i] == front[i] && forall k | i < k < j :: ns[k] == front[k];
    } else {
      var i := LastStatusAt(front, user);
      assert ns[i] == front[i] && forall k | i < k < j :: ns[k] == front[k];
    }
  }

  lemma {:induction false} LastStatusAt(ns: seq<Notice>, user: string) returns (i: nat)
    requires LastStatus(ns, user).Some?
    ensures i < |ns| && ns[i] == Notice(user, LastStatus(ns, user).value)
    ensures forall k | i < k < |ns| :: ns[k].userId != user
  {
    if ns[|ns| - 1].userId == user {
      i := |ns| - 1;
    } else {
      i := LastStatusAt(ns[..|ns| - 1], user);
    }
  }
}
