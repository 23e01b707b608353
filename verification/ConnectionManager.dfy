/** The connection manager object: session, connection and presence stores updated in place. */
module ConnectionManagers {
  import opened Wrappers
  import opened Sorting
  import opened Presence

  /** Sockets in the order they were attached, none attached after one that follows it. */
  ghost predicate Aged(at: map<Socket, int>, sockets: seq<Socket>) {
    Ascending((x: Socket, y: Socket) => x in at && y in at && x != y && at[x] <= at[y], sockets)
    && forall ws | ws in sockets :: ws in at
  }

  lemma AgedWithout(at: map<Socket, int>, sockets: seq<Socket>, ws: Socket)
    requires Aged(at, sockets)
    ensures Aged(at - {ws}, Without(sockets, ws))
  {
    var older := (x: Socket, y: Socket) => x in at && y in at && x != y && at[x] <= at[y];
    FilterAscending(older, (x: Socket) => x != ws, sockets);
    var rest := Without(sockets, ws);
    forall i, j | 0 <= i < j < |rest| ensures older(rest[i], rest[j]) && rest[i] != ws && rest[j] != ws {
      assert rest[i] in rest && rest[j] in rest;
    }
  }

  /** The user index lists exactly the sessions of each user that has some. */
  ghost predicate Indexed(index: map<string, seq<string>>, sessions: Sessions) {
    && (forall user, sid :: user in index && sid in index[user] <==> sid in sessions && sessions[sid].userId == user)
    && (forall user | user in index :: index[user] != [])
  }

  lemma IndexedWithout(index: map<string, seq<string>>, sessions: Sessions, sid: string)
    requires Indexed(index, sessions) && sid in sessions
    ensures var user := sessions[sid].userId;
            user in index &&
            var ids := Filter((x: string) => x != sid, index[user]);
            Indexed(if ids == [] then index - {user} else index[user := ids], sessions - {sid})
  {
    var ids := Filter((x: string) => x != sid, index[sessions[sid].userId]);
    SomeElement(ids);
  }

  lemma IndexedWith(index: map<string, seq<string>>, sessions: Sessions, sid: string, s: Session)
    requires Indexed(index, sessions) && sid !in sessions
    ensures Indexed(index[s.userId := (if s.userId in index then index[s.userId] else []) + [sid]], sessions[sid := s])
  {}

  /** The sockets of each session of the user, session by session. */
  function Entries(sessions: Sessions, sids: seq<string>): seq<(string, Socket)> {
    if sids == [] then []
    else Entries(sessions, sids[..|sids| - 1]) + EntriesIn(sessions, sids[|sids| - 1])
  }

  function EntriesIn(sessions: Sessions, sid: string): seq<(string, Socket)> {
    if sid !in sessions then []
    else
      var sockets := sessions[sid].sockets;
      seq(|sockets|, i requires 0 <= i < |sockets| => (sid, sockets[i]))
  }

  lemma EntriesInAre(sessions: Sessions, sid: string, s: string, ws: Socket)
    ensures (s, ws) in EntriesIn(sessions, sid) <==> s == sid && Member(sessions, s, ws)
  {
    if s == sid && Member(sessions, s, ws) {
      var i :| 0 <= i < |sessions[sid].sockets| && sessions[sid].sockets[i] == ws;
      assert EntriesIn(sessions, sid)[i] == (s, ws);
    }
  }

  lemma {:induction false} EntriesAre(sessions: Sessions, sids: seq<string>, s: string, ws: Socket)
    ensures (s, ws) in Entries(sessions, sids) <==> s in sids && Member(sessions, s, ws)
  {
    if sids != [] {
      var front, last := sids[..|sids| - 1], sids[|sids| - 1];
      assert sids == front + [last];
      EntriesAre(sessions, front, s, ws);
      EntriesInAre(sessions, last, s, ws);
    }
  }

  lemma DetachedSessions(attached: State, sid: string, ws: Socket, before: Sessions, after: Sessions)
    requires Member(attached.sessions, sid, ws) && attached.sessions == before[sid := attached.sessions[sid]]
    requires after == before[sid := Session(attached.sessions[sid].userId, Without(attached.sessions[sid].sockets, ws))]
    ensures after == Detach(attached, sid, ws).sessions
  {}

  function SidsOf(entries: seq<(string, Socket)>): set<string> {
    if entries == [] then {} else SidsOf(entries[..|entries| - 1]) + {entries[|entries| - 1].0}
  }

  lemma {:induction false} SidsAre(entries: seq<(string, Socket)>)
    ensures SidsOf(entries) == set e | e in entries :: e.0
  {
    if entries != [] {
      var front, last := entries[..|entries| - 1], entries[|entries| - 1];
      SidsAre(front);
      assert entries == front + [last];
      forall sid ensures sid in SidsOf(entries) <==> sid in set e | e in entries :: e.0 {
        if sid == last.0 { assert last in entries; }
      }
    }
  }

  lemma EntriesStep(st: State, user: string, entries: seq<(string, Socket)>, i: nat)
    requires i < |entries|
    ensures KickAll(st, user, entries[..i + 1])
      == Kick(KickAll(st, user, entries[..i]), user, entries[i].0, entries[i].1)
    ensures SidsOf(entries[..i + 1]) == SidsOf(entries[..i]) + {entries[i].0}
  {
    assert entries[..i + 1][..i] == entries[..i];
  }

  /** Attaching over the cap takes the oldest socket out, and then kicks it. */
  lemma EvictIs(st: State, user: string, sid: string)
    requires sid in st.sessions
    ensures var sockets := st.sessions[sid].sockets;
            Evict(st, user, sid) ==
              if |sockets| <= MAX_SOCKETS_PER_SESSION then st
                else Kick(Detach(st, sid, sockets[0]), user, sid, sockets[0])
  {}

  function SetOf(sids: seq<string>): set<string> {
    set sid | sid in sids
  }

  lemma DropStep(st: State, sids: seq<string>, i: nat)
    requires i < |sids|
    ensures var before, after := DropEmpty(st, SetOf(sids[..i])).sessions, DropEmpty(st, SetOf(sids[..i + 1])).sessions;
            after == if sids[i] in before && before[sids[i]].sockets == [] then before - {sids[i]} else before
  {
    assert sids[..i + 1] == sids[..i] + [sids[i]];
  }

  class ConnectionManager {
    var readyState: map<Socket, Ready>
    var bySessionId: map<string, Session>
    var createdAt: map<string, map<Socket, int>>
    var byUserId: map<string, seq<string>>
    var socketToUser: map<Socket, string>
    var socketToSessionId: map<Socket, string>
    var closeListeners: map<Socket, seq<Handler>>
    var presence: map<string, Status>
    var pendingOfflineTimers: set<string>
    var notices: seq<Notice>

    /** The latest time a registration was given; no attach time lies beyond it. */
    ghost var clock: int

    function Value(): State
      reads this
    {
      State(readyState, bySessionId, socketToUser, socketToSessionId, closeListeners, presence, pendingOfflineTimers,
        notices)
    }

    /** The user index lists exactly the user's sessions, and every session knows when its sockets came. */
    ghost predicate Valid()
      reads this`bySessionId, this`createdAt, this`byUserId, this`clock
    {
      && Indexed(byUserId, bySessionId)
      && (forall sid | sid in bySessionId :: sid in createdAt && Aged(createdAt[sid], bySessionId[sid].sockets))
      && NoneAfter(clock)
    }

    ghost predicate NoneAfter(now: int)
      reads this`createdAt
    {
      forall sid, ws | sid in createdAt && ws in createdAt[sid] :: createdAt[sid][ws] <= now
    }

    constructor ()
      ensures Valid() && Value() == START && clock == 0
    {
      readyState, bySessionId, createdAt, byUserId := map[], map[], map[], map[];
      socketToUser, socketToSessionId, closeListeners := map[], map[], map[];
      presence, pendingOfflineTimers, notices, clock := map[], {}, [], 0;
    }

    // ----- Session store -----

    method SocketsOfSession(sid: string) returns (out: seq<(string, Socket)>)
      ensures out == EntriesIn(bySessionId, sid)
    {
      out := [];
      if sid !in bySessionId { return; }
      var sockets := bySessionId[sid].sockets;
      for j := 0 to |sockets|
        invariant out == EntriesIn(bySessionId, sid)[..j]
      {
        out := out + [(sid, sockets[j])];
      }
    }

    method GetSessionsByUserId(user: string) returns (out: seq<(string, Socket)>)
      requires Valid()
      ensures Lists(Value(), user, out)
    {
      out := [];
      if user !in byUserId {
        assert forall sid | sid in bySessionId :: bySessionId[sid].userId != user;
        return;
      }
      var ids := byUserId[user];
      for i := 0 to |ids|
        invariant out == Entries(bySessionId, ids[..i])
      {
        assert ids[..i + 1][..i] == ids[..i];
        var more := SocketsOfSession(ids[i]);
        out := out + more;
      }
      assert ids[..|ids|] == ids;
      forall s: string, w: Socket
        ensures (s, w) in out <==> Member(bySessionId, s, w) && bySessionId[s].userId == user
      {
        EntriesAre(bySessionId, ids, s, w);
      }
    }

    method GetSockets(user: string) returns (out: seq<Socket>)
      requires Valid()
      ensures forall ws :: ws in out <==> exists sid :: OpenAt(bySessionId, readyState, user, sid, ws)
      ensures out != [] <==> HasOpen(Value(), user)
    {
      var entries := GetSessionsByUserId(user);
      out := [];
      for i := 0 to |entries|
        invariant forall ws | ws in out :: exists sid :: (sid, ws) in entries && IsOpen(readyState, ws)
        invariant forall k | 0 <= k < i && IsOpen(readyState, entries[k].1) :: entries[k].1 in out
      {
        var ws := entries[i].1;
        if IsOpen(readyState, ws) {
          assert (entries[i].0, ws) in entries;
          out := out + [ws];
        }
      }
      forall ws | ws in out ensures exists sid :: OpenAt(bySessionId, readyState, user, sid, ws) {
        var sid :| (sid, ws) in entries && IsOpen(readyState, ws);
        assert OpenAt(bySessionId, readyState, user, sid, ws);
      }
      forall sid, ws | OpenAt(bySessionId, readyState, user, sid, ws) ensures ws in out {
        assert (sid, ws) in entries;
        var k :| 0 <= k < |entries| && entries[k] == (sid, ws);
      }
      SomeElement(out);
      if HasOpen(Value(), user) {
        var sid, ws :| OpenAt(bySessionId, readyState, user, sid, ws);
        assert ws in out;
      }
    }

    method CreateSession(user: string, sid: string, ws: Socket, now: int)
      requires Valid() && sid !in bySessionId && clock <= now
      modifies this`bySessionId, this`createdAt, this`byUserId, this`clock
      ensures clock == now
      ensures Valid() && bySessionId == old(bySessionId)[sid := Session(user, [ws])]
    {
      IndexedWith(byUserId, bySessionId, sid, Session(user, [ws]));
      bySessionId := bySessionId[sid := Session(user, [ws])];
      createdAt, clock := createdAt[sid := map[ws := now]], now;
      byUserId := byUserId[user := (if user in byUserId then byUserId[user] else []) + [sid]];
    }

    /** Adds the socket; over the cap, scans for the smallest attach time and takes that socket out. */
    method AttachSocket(sid: string, ws: Socket, now: int) returns (evicted: Option<Socket>)
      requires Valid() && sid in bySessionId && ws !in bySessionId[sid].sockets && clock <= now
      modifies this`bySessionId, this`createdAt, this`clock
      ensures Valid() && clock == now
      ensures var before := old(bySessionId)[sid];
              var sockets := before.sockets + [ws];
              if |sockets| <= MAX_SOCKETS_PER_SESSION then
                evicted == None && bySessionId == old(bySessionId)[sid := Session(before.userId, sockets)]
              else
                evicted == Some(sockets[0])
                && bySessionId == old(bySessionId)[sid := Session(before.userId, Without(sockets, sockets[0]))]
    {
      var session := bySessionId[sid];
      var at := createdAt[sid][ws := now];
      var sockets := session.sockets + [ws];
      assert Aged(at, sockets);
      evicted := None;
      if |sockets| > MAX_SOCKETS_PER_SESSION {
        var oldest := 0;
        for i := 1 to |sockets|
          invariant oldest == 0
        {
          if at[sockets[i]] < at[sockets[oldest]] { oldest := i; }
        }
        evicted := Some(sockets[oldest]);
        AgedWithout(at, sockets, sockets[0]);
        sockets, at := Without(sockets, sockets[0]), at - {sockets[0]};
      }
      bySessionId := bySessionId[sid := Session(session.userId, sockets)];
      createdAt, clock := createdAt[sid := at], now;
    }

    method MarkOffline(sid: string, ws: Socket)
      requires Valid()
      modifies this`bySessionId, this`createdAt
      ensures Valid() && Value() == Detach(old(Value()), sid, ws)
    {
      if sid !in bySessionId || ws !in bySessionId[sid].sockets { return; }
      var session := bySessionId[sid];
      AgedWithout(createdAt[sid], session.sockets, ws);
      bySessionId := bySessionId[sid := Session(session.userId, Without(session.sockets, ws))];
      createdAt := createdAt[sid := createdAt[sid] - {ws}];
    }

    method DeleteSession(sid: string)
      requires Valid()
      modifies this`bySessionId, this`createdAt, this`byUserId
      ensures Valid() && bySessionId == old(bySessionId) - {sid}
    {
      if sid !in bySessionId { return; }
      var user := bySessionId[sid].userId;
      IndexedWithout(byUserId, bySessionId, sid);
      var ids := Filter((x: string) => x != sid, byUserId[user]);
      bySessionId := bySessionId - {sid};
      createdAt := createdAt - {sid};
      byUserId := if ids == [] then byUserId - {user} else byUserId[user := ids];
    }

    // ----- Connection store -----

    method DeleteSocketUser(ws: Socket)
      modifies this`socketToUser, this`socketToSessionId
      ensures Value() == Forget(old(Value()), ws)
    {
      socketToUser := socketToUser - {ws};
      socketToSessionId := socketToSessionId - {ws};
    }

    method Close(ws: Socket)
      modifies this`readyState
      ensures Value() == StartClose(old(Value()), ws)
    {
      if IsOpen(readyState, ws) { readyState := readyState[ws := Closing]; }
    }

    // ----- Presence lifecycle -----

    method ConnectUser(user: string)
      modifies this`presence, this`pendingOfflineTimers, this`notices
      ensures Value() == if user == "" then old(Value()) else OnConnect(old(Value()), user)
    {
      if user == "" { return; }
      pendingOfflineTimers := pendingOfflineTimers - {user};
      presence := presence[user := Online];
      notices := notices + [Notice(user, Online)];
    }

    method RequestDisconnectUser(user: string)
      modifies this`pendingOfflineTimers
      ensures Value() == RequestDisconnect(old(Value()), user)
    {
      if user == "" { return; }
      if user in pendingOfflineTimers {
        assert pendingOfflineTimers + {user} == pendingOfflineTimers;
        return;
      }
      pendingOfflineTimers := pendingOfflineTimers + {user};
    }

    method DisconnectUser(user: string)
      requires Valid()
      modifies this`presence, this`notices
      ensures Valid() && Value() == OnDisconnect(old(Value()), user)
    {
      if user == "" { return; }
      var active := GetSockets(user);
      if active == [] && user in presence && presence[user] == Offline { return; }
      presence := presence[user := Offline];
      notices := notices + [Notice(user, Offline)];
    }

    /** The callback of a pending timer; a timer that was cleared never calls it. */
    method OfflineTimerFires(user: string)
      requires Valid()
      modifies this`presence, this`notices, this`pendingOfflineTimers
      ensures Valid() && Value() == TimerFires(old(Value()), user)
    {
      if user !in pendingOfflineTimers { return; }
      pendingOfflineTimers := pendingOfflineTimers - {user};
      var active := GetSockets(user);
      if active == [] { DisconnectUser(user); }
    }

    // ----- Connection manager -----

    method CleanupSocket(user: string, sid: string, ws: Socket, forced: bool)
      requires Valid()
      modifies this
      ensures clock == old(clock)
      ensures Valid() && Value() == Cleanup(old(Value()), user, sid, ws, forced) && byUserId == old(byUserId)
    {
      MarkOffline(sid, ws);
      DeleteSocketUser(ws);
      assert Value() == Forget(Detach(old(Value()), sid, ws), ws);
      var active := GetSockets(user);
      if active == [] {
        if forced { DisconnectUser(user); } else { RequestDisconnectUser(user); }
      }
    }

    /** Takes the socket's next close listener off the list and runs it. */
    method RunListener(ws: Socket)
      requires Valid() && HandlersOf(closeListeners, ws) != []
      modifies this
      ensures Valid() && clock == old(clock) && RunHandlers(Value(), ws) == RunHandlers(old(Value()), ws)
      ensures HandlersOf(closeListeners, ws) == HandlersOf(old(closeListeners), ws)[1..]
    {
      var h := closeListeners[ws][0];
      closeListeners := closeListeners[ws := closeListeners[ws][1..]];
      ghost var popped := Value();
      CleanupSocket(h.userId, h.sessionId, ws, false);
      assert Value().handlers == popped.handlers;
    }

    /** The close event: the socket is closed, then its listeners run, each once. */
    method HandleClose(ws: Socket)
      requires Valid()
      modifies this
      ensures clock == old(clock)
      ensures Valid() && Value() == CloseEvent(old(Value()), ws)
    {
      if ws !in readyState { return; }
      readyState := readyState[ws := Closed];
      ghost var start := Value();
      while HandlersOf(closeListeners, ws) != []
        invariant Valid() && clock == old(clock) && RunHandlers(Value(), ws) == RunHandlers(start, ws)
        decreases |HandlersOf(closeListeners, ws)|
      {
        RunListener(ws);
      }
    }

    method StoreSocket(user: string, ws: Socket, sid: string, now: int) returns (evicted: Option<Socket>)
      requires Valid() && clock <= now && Registers(Value(), user, ws, sid)
      modifies this`bySessionId, this`createdAt, this`byUserId, this`clock
      ensures Valid() && clock == now
      ensures var attached := Attach(old(Value()), user, ws, sid);
              var sockets := attached.sessions[sid].sockets;
              if |sockets| <= MAX_SOCKETS_PER_SESSION then evicted == None && bySessionId == attached.sessions
              else evicted == Some(sockets[0]) && bySessionId == Detach(attached, sid, sockets[0]).sessions
    {
      ghost var attached := Attach(Value(), user, ws, sid);
      ghost var before := bySessionId;
      evicted := None;
      if sid in bySessionId {
        evicted := AttachSocket(sid, ws, now);
        if evicted.Some? {
          DetachedSessions(attached, sid, evicted.value, before, bySessionId);
        }
      } else {
        CreateSession(user, sid, ws, now);
        assert attached.sessions[sid].sockets == [ws];
      }
    }

    /** Stores the socket with its metadata and close listener. */
    method AddSocket(user: string, ws: Socket, sid: string, now: int) returns (evicted: Option<Socket>)
      requires Valid() && clock <= now && Registers(Value(), user, ws, sid)
      modifies this`bySessionId, this`createdAt, this`byUserId, this`clock
      modifies this`socketToUser, this`socketToSessionId, this`closeListeners
      ensures Valid() && clock == now
      ensures var attached := Attach(old(Value()), user, ws, sid);
              if |attached.sessions[sid].sockets| <= MAX_SOCKETS_PER_SESSION then evicted == None && Value() == attached
              else
                evicted == Some(attached.sessions[sid].sockets[0])
                && Value() == Detach(attached, sid, attached.sessions[sid].sockets[0])
    {
      evicted := StoreSocket(user, ws, sid, now);
      socketToUser := socketToUser[ws := user];
      socketToSessionId := socketToSessionId[ws := sid];
      closeListeners := closeListeners[ws := HandlersOf(closeListeners, ws) + [Handler(user, sid)]];
    }

    /** Attaches the socket and kicks the one that falls out over the cap. */
    method AttachAndEvict(user: string, ws: Socket, sid: string, now: int)
      requires Valid() && clock <= now && Registers(Value(), user, ws, sid)
      modifies this
      ensures Valid() && clock == now && Value() == Evict(Attach(old(Value()), user, ws, sid), user, sid)
    {
      ghost var attached := Attach(Value(), user, ws, sid);
      var evicted := AddSocket(user, ws, sid, now);
      EvictIs(attached, user, sid);
      if evicted.Some? {
        KickSocket(user, sid, evicted.value);
      }
    }

    /** False when the source throws: a user is required. A session id belongs to one user. */
    method Register(user: string, ws: Socket, sessionId: string, now: int) returns (ok: bool)
      requires Valid() && clock <= now
      requires var sid := if sessionId == "" then "bypass_" + user else sessionId;
               sid in bySessionId ==> bySessionId[sid].userId == user
      modifies this
      ensures var sid := if sessionId == "" then "bypass_" + user else sessionId;
              Valid() && ok == (user != "") && Value() == Presence.Register(old(Value()), user, ws, sid)
      ensures old(clock) <= clock <= now
    {
      if user == "" { return false; }
      ok := true;
      var sid := if sessionId == "" then "bypass_" + user else sessionId;
      if !IsOpen(readyState, ws) { return; }
      if ws in socketToUser && socketToUser[ws] != user { return; }
      if sid in bySessionId && ws in bySessionId[sid].sockets { return; }
      AttachAndEvict(user, ws, sid, now);
      ConnectUser(user);
    }

    method DropEmptySessions(sids: seq<string>)
      requires Valid()
      modifies this`bySessionId, this`createdAt, this`byUserId
      ensures Valid() && Value() == DropEmpty(old(Value()), SetOf(sids))
    {
      for i := 0 to |sids|
        invariant Valid() && bySessionId == DropEmpty(old(Value()), SetOf(sids[..i])).sessions
      {
        DropStep(old(Value()), sids, i);
        if sids[i] in bySessionId && bySessionId[sids[i]].sockets == [] {
          DeleteSession(sids[i]);
        }
      }
      assert sids[..|sids|] == sids;
    }

    method KickSocket(user: string, sid: string, ws: Socket)
      requires Valid()
      modifies this
      ensures clock == old(clock)
      ensures Valid() && Value() == Kick(old(Value()), user, sid, ws)
    {
      Close(ws);
      CleanupSocket(user, sid, ws, true);
    }

    method KickEach(user: string, entries: seq<(string, Socket)>) returns (seen: seq<string>)
      requires Valid()
      modifies this
      ensures clock == old(clock)
      ensures Valid() && Value() == KickAll(old(Value()), user, entries)
      ensures SetOf(seen) == SidsOf(entries)
    {
      seen := [];
      ghost var start := Value();
      for i := 0 to |entries|
        invariant Valid() && clock == old(clock) && Value() == KickAll(start, user, entries[..i])
        invariant SetOf(seen) == SidsOf(entries[..i])
      {
        EntriesStep(start, user, entries, i);
        KickSocket(user, entries[i].0, entries[i].1);
        if entries[i].0 !in seen { seen := seen + [entries[i].0]; }
      }
      assert entries[..|entries|] == entries;
    }

    /** Kicks every socket of the user, then drops the sessions this emptied. */
    method Remove(user: string)
      requires Valid()
      modifies this
      ensures clock == old(clock)
      ensures Valid()
      ensures exists entries ::
                Lists(old(Value()), user, entries) && Value() == Presence.Remove(old(Value()), user, entries)
    {
      var entries := GetSessionsByUserId(user);
      ghost var start := Value();
      var seen := KickEach(user, entries);
      DropEmptySessions(seen);
      SidsAre(entries);
      assert Value() == Presence.Remove(start, user, entries);
    }

    method RemoveSession(sid: string) returns (found: bool)
      requires Valid()
      modifies this
      ensures clock == old(clock)
      ensures Valid() && found == (sid in old(bySessionId)) && Value() == Presence.RemoveSession(old(Value()), sid)
    {
      if sid !in bySessionId { return false; }
      var user, sockets := bySessionId[sid].userId, bySessionId[sid].sockets;
      ghost var start := Value();
      ghost var entries := SessionEntries(start, sid);
      for i := 0 to |sockets|
        invariant Valid() && clock == old(clock) && Value() == KickAll(start, user, entries[..i])
      {
        assert entries[..i + 1][..i] == entries[..i];
        KickSocket(user, sid, sockets[i]);
      }
      assert entries[..|sockets|] == entries;
      DeleteSession(sid);
      found := true;
    }

    method RemoveConnection(ws: Socket) returns (user: Option<string>)
      requires Valid()
      modifies this
      ensures clock == old(clock)
      ensures Valid() && Value() == Presence.RemoveConnection(old(Value()), ws)
      ensures user == if ws in old(socketToUser) then Some(old(socketToUser)[ws]) else None
    {
      user := if ws in socketToUser then Some(socketToUser[ws]) else None;
      if ws in socketToUser && ws in socketToSessionId {
        CleanupSocket(socketToUser[ws], socketToSessionId[ws], ws, true);
      }
    }
  }
}
