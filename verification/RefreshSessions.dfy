/** Refresh-token rotation as a read and a compare-and-set (auth/sessionStore.mongo.js), interleaved with revocation. */
module RefreshSessions {
  import opened Wrappers
  import opened Text

  datatype Session = Session(
    userId: string, revokedAt: Option<int>, refreshHash: Option<string>, refreshExpiresAt: Option<int>, lastSeenAt: int)

  type Store = map<string, Session>

  /** What a rotation carries from its read to its write. */
  datatype Rotation = Rotation(sessionId: string, readHash: string, newHash: string, newExpiresAt: int)

  // ----- Comparing hashes -----

  function HexDigit(c: char): Option<nat> {
    if '0' <= c <= '9' then Some((c - '0') as nat)
    else if 'a' <= c <= 'f' then Some((c - 'a') as nat + 10)
    else if 'A' <= c <= 'F' then Some((c - 'A') as nat + 10)
    else None
  }

  /** Buffer.from(s, 'hex'): pairs of digits up to the first pair that is not hexadecimal. */
  function HexDecode(s: string): seq<nat> {
    if |s| < 2 || HexDigit(s[0]).None? || HexDigit(s[1]).None? then []
    else [HexDigit(s[0]).value * 16 + HexDigit(s[1]).value] + HexDecode(s[2..])
  }

  predicate SameHash(stored: string, given: string) {
    |stored| == |given| && HexDecode(stored) == HexDecode(given)
  }

  predicate LowerHex(c: char) {
    '0' <= c <= '9' || 'a' <= c <= 'f'
  }

  predicate IsDigest(s: string) {
    |s| % 2 == 0 && forall i | 0 <= i < |s| :: LowerHex(s[i])
  }

  /** Between digests written in lower-case hexadecimal the comparison is equality. */
  lemma {:induction false} SameHashIff(a: string, b: string)
    requires IsDigest(a) && IsDigest(b)
    ensures SameHash(a, b) <==> a == b
  {
    if |a| == |b| && |a| >= 2 {
      assert LowerHex(a[0]) && LowerHex(a[1]) && LowerHex(b[0]) && LowerHex(b[1]);
      SameHashIff(a[2..], b[2..]);
      assert a == [a[0], a[1]] + a[2..] && b == [b[0], b[1]] + b[2..];
      if SameHash(a, b) {
        assert HexDecode(a)[0] == HexDecode(b)[0] && HexDecode(a)[1..] == HexDecode(b)[1..];
      }
    }
  }

  // ----- Operations -----

  function CreateSession(s: Store, sid: string, user: string, now: int): Store {
    s[sid := Session(user, None, None, None, now)]
  }

  function StoreRefreshHash(s: Store, sid: string, hash: string, expiresAt: int): Store {
    if sid in s then s[sid := s[sid].(refreshHash := Some(hash), refreshExpiresAt := Some(expiresAt))] else s
  }

  /** getSession trims the id; the writes do not. */
  function GetSession(s: Store, sid: string): Option<Session> {
    if sid != "" && Trim(sid) in s then Some(s[Trim(sid)]) else None
  }

  function VerifyRefreshHash(s: Store, sid: string, hash: string, now: int): bool {
    var found := GetSession(s, sid);
    && found.Some? && found.value.revokedAt.None?
    && found.value.refreshHash.Some? && found.value.refreshHash.value != "" && found.value.refreshExpiresAt.Some?
    && now <= found.value.refreshExpiresAt.value
    && SameHash(found.value.refreshHash.value, hash)
  }

  /** The first half: the session must be there, unrevoked and hold the given hash. Expiry is not looked at. */
  function RotateRead(s: Store, sid: string, oldHash: string, newHash: string, newExpiresAt: int): Option<Rotation> {
    var found := GetSession(s, sid);
    if found.None? || found.value.revokedAt.Some? then None
    else if found.value.refreshHash.None? || found.value.refreshHash.value == "" then None
    else if !SameHash(found.value.refreshHash.value, oldHash) then None
    else Some(Rotation(sid, found.value.refreshHash.value, newHash, newExpiresAt))
  }

  /** The second half writes only while the session still holds the hash that was read. */
  predicate CasMatches(s: Store, r: Rotation) {
    r.sessionId in s && s[r.sessionId].refreshHash == Some(r.readHash)
  }

  function Rotated(s: Store, r: Rotation, now: int): Session
    requires r.sessionId in s
  {
    s[r.sessionId].(refreshHash := Some(r.newHash), refreshExpiresAt := Some(r.newExpiresAt), lastSeenAt := now)
  }

  function RotateCas(s: Store, r: Rotation, now: int): Store {
    if CasMatches(s, r) then s[r.sessionId := Rotated(s, r, now)] else s
  }

  /** One document matched and it changed. */
  predicate CasSucceeds(s: Store, r: Rotation, now: int) {
    CasMatches(s, r) && Rotated(s, r, now) != s[r.sessionId]
  }

  function Ended(session: Session, now: int): Session {
    session.(revokedAt := Some(now), refreshHash := None, refreshExpiresAt := None)
  }

  function Revoke(s: Store, sid: string, now: int): Store {
    if sid in s then s[sid := Ended(s[sid], now)] else s
  }

  function RevokeAll(s: Store, user: string, now: int): Store {
    if user == "" then s
    else map sid | sid in s :: if s[sid].userId == user && s[sid].revokedAt.None? then Ended(s[sid], now) else s[sid]
  }

  /** The sessions a refresh hash finds. */
  predicate Finds(s: Store, hash: string, now: int, sid: string) {
    && hash != "" && sid in s && s[sid].refreshHash == Some(hash) && s[sid].revokedAt.None?
    && (s[sid].refreshExpiresAt.None? || s[sid].refreshExpiresAt.value > now)
  }

  // ----- Interleaved runs -----

  /**
    A hash that became current for a session: stored outright (`consumed` is None) or by a rotation that took
    `consumed`.
   */
  datatype Entry = Entry(sid: string, consumed: Option<string>, hash: string)

  datatype State = State(store: Store, pending: map<nat, Rotation>, issued: set<string>, log: seq<Entry>)

  const START := State(map[], map[], {}, [])

  datatype Event =
    | Create(sid: string, user: string, now: int)
    | Issue(sid: string, hash: string, expiresAt: int)
    | Begin(id: nat, sid: string, oldHash: string, newHash: string, newExpiresAt: int)
    | Finish(id: nat, now: int)
    | RevokeOne(sid: string, now: int)
    | RevokeUser(user: string, now: int)

  /** Session ids, rotation numbers and new hashes are fresh; everything else happens in any order. */
  function Step(st: State, e: Event): State {
    match e
    case Create(sid, user, now) =>
      if sid in st.store then st else st.(store := CreateSession(st.store, sid, user, now))
    case Issue(sid, hash, expiresAt) =>
      if hash in st.issued then st
      else State(StoreRefreshHash(st.store, sid, hash, expiresAt), st.pending, st.issued + {hash},
                 if sid in st.store then st.log + [Entry(sid, None, hash)] else st.log)
    case Begin(id, sid, oldHash, newHash, newExpiresAt) =>
      if newHash in st.issued || id in st.pending then st
      else
        var read := RotateRead(st.store, sid, oldHash, newHash, newExpiresAt);
        st.(issued := st.issued + {newHash}, pending := if read.Some? then st.pending[id := read.value] else st.pending)
    case Finish(id, now) =>
      if id !in st.pending then st
      else
        var r := st.pending[id];
        State(RotateCas(st.store, r, now), st.pending - {id}, st.issued,
              if CasMatches(st.store, r) then st.log + [Entry(r.sessionId, Some(r.readHash), r.newHash)] else st.log)
    case RevokeOne(sid, now) => st.(store := Revoke(st.store, sid, now))
    case RevokeUser(user, now) => st.(store := RevokeAll(st.store, user, now))
  }

  function LastHash(log: seq<Entry>, sid: string): Option<string> {
    if log == [] then None
    else if log[|log| - 1].sid == sid then Some(log[|log| - 1].hash)
    else LastHash(log[..|log| - 1], sid)
  }

  /** Each rotation consumed the hash its session held just before. */
  ghost predicate Chained(log: seq<Entry>) {
    log == []
    || (Chained(log[..|log| - 1])
        && (log[|log| - 1].consumed.Some? ==>
           LastHash(log[..|log| - 1], log[|log| - 1].sid) == log[|log| - 1].consumed))
  }

  ghost predicate Introduced(log: seq<Entry>, hash: string) {
    exists i :: 0 <= i < |log| && log[i].hash == hash
  }

  ghost predicate HashesOnce(log: seq<Entry>) {
    forall i, j | 0 <= i < j < |log| :: log[i].hash != log[j].hash
  }

  ghost predicate Current(store: Store, log: seq<Entry>) {
    forall sid | sid in store && store[sid].refreshHash.Some? :: LastHash(log, sid) == store[sid].refreshHash
  }

  /** A new hash on its way is nobody's yet, and no two rotations carry the same one. */
  ghost predicate PendingFresh(st: State) {
    && (forall id | id in st.pending ::
       st.pending[id].newHash in st.issued && !Introduced(st.log, st.pending[id].newHash))
    && (forall id | id in st.pending :: Introduced(st.log, st.pending[id].readHash))
    && (forall a, b | a in st.pending && b in st.pending && st.pending[a].newHash == st.pending[b].newHash :: a == b)
  }

  ghost predicate Inv(st: State) {
    && Current(st.store, st.log) && Chained(st.log) && HashesOnce(st.log)
    && (forall i | 0 <= i < |st.log| :: st.log[i].hash in st.issued)
    && PendingFresh(st)
  }

  lemma {:induction false} LastIntroduced(log: seq<Entry>, sid: string) returns (i: nat)
    requires LastHash(log, sid).Some?
    ensures i < |log| && log[i].sid == sid && log[i].hash == LastHash(log, sid).value
    ensures forall k | i < k < |log| :: log[k].sid != sid
  {
    if log[|log| - 1].sid == sid {
      i := |log| - 1;
    } else {
      i := LastIntroduced(log[..|log| - 1], sid);
    }
  }

  lemma IntroducedMore(log: seq<Entry>, e: Entry)
    ensures forall h :: Introduced(log + [e], h) <==> Introduced(log, h) || h == e.hash
  {
    forall h ensures Introduced(log + [e], h) <==> Introduced(log, h) || h == e.hash {
      if Introduced(log, h) {
        var i :| 0 <= i < |log| && log[i].hash == h;
        assert (log + [e])[i].hash == h;
      }
      assert (log + [e])[|log|].hash == e.hash;
    }
  }

  /** A hash becoming current for a session, with the old one consumed when it is a rotation. */
  lemma Becomes(st: State, n: State, e: Entry)
    requires Inv(st) && n.log == st.log + [e] && n.issued == st.issued + {e.hash} && !Introduced(st.log, e.hash)
    requires e.sid in n.store && n.store == st.store[e.sid := n.store[e.sid]]
      && n.store[e.sid].refreshHash == Some(e.hash)
    requires e.consumed.Some? ==> LastHash(st.log, e.sid) == e.consumed
    requires forall id | id in n.pending ::
              id in st.pending && n.pending[id] == st.pending[id] && n.pending[id].newHash != e.hash
    ensures Inv(n)
  {
    IntroducedMore(st.log, e);
    assert n.log[..|n.log| - 1] == st.log;
    assert Current(n.store, n.log);
    forall i | 0 <= i < |st.log| ensures st.log[i].hash != e.hash {}
  }

  lemma IssueKeeps(st: State, sid: string, hash: string, expiresAt: int)
    requires Inv(st)
    ensures Inv(Step(st, Issue(sid, hash, expiresAt)))
  {
    if hash !in st.issued && sid in st.store {
      Becomes(st, Step(st, Issue(sid, hash, expiresAt)), Entry(sid, None, hash));
    }
  }

  lemma BeginKeeps(st: State, id: nat, sid: string, oldHash: string, newHash: string, newExpiresAt: int)
    requires Inv(st)
    ensures Inv(Step(st, Begin(id, sid, oldHash, newHash, newExpiresAt)))
  {
    var read := RotateRead(st.store, sid, oldHash, newHash, newExpiresAt);
    if newHash !in st.issued && id !in st.pending && read.Some? {
      var i := LastIntroduced(st.log, Trim(sid));
      assert Introduced(st.log, read.value.readHash);
    }
  }

  lemma FinishKeeps(st: State, id: nat, now: int)
    requires Inv(st)
    ensures Inv(Step(st, Finish(id, now)))
  {
    if id in st.pending && CasMatches(st.store, st.pending[id]) {
      var r := st.pending[id];
      var n := Step(st, Finish(id, now));
      assert st.issued + {r.newHash} == st.issued;
      Becomes(st, n, Entry(r.sessionId, Some(r.readHash), r.newHash));
    }
  }

  lemma StepKeeps(st: State, e: Event)
    requires Inv(st)
    ensures Inv(Step(st, e))
  {
    match e {
      case Create(sid, user, now) =>
      case Issue(sid, hash, expiresAt) => IssueKeeps(st, sid, hash, expiresAt);
      case Begin(id, sid, oldHash, newHash, newExpiresAt) => BeginKeeps(st, id, sid, oldHash, newHash, newExpiresAt);
      case Finish(id, now) => FinishKeeps(st, id, now);
      case RevokeOne(sid, now) =>
      case RevokeUser(user, now) =>
    }
  }

  function Execute(st: State, events: seq<Event>): State {
    if events == [] then st else Step(Execute(st, events[..|events| - 1]), events[|events| - 1])
  }

  lemma {:induction false} EveryRun(events: seq<Event>)
    ensures Inv(Execute(START, events))
  {
    if events != [] {
      EveryRun(events[..|events| - 1]);
      StepKeeps(Execute(START, events[..|events| - 1]), events[|events| - 1]);
    }
  }

  // ----- One chain, nothing consumed twice -----

  lemma {:induction false} ChainedAt(log: seq<Entry>, j: nat)
    requires Chained(log) && j < |log| && log[j].consumed.Some?
    ensures LastHash(log[..j], log[j].sid) == log[j].consumed
  {
    if j < |log| - 1 {
      ChainedAt(log[..|log| - 1], j);
      assert log[..|log| - 1][..j] == log[..j];
    }
  }

  /** A rotation took the hash most recently introduced for its session; nothing happened to the session between. */
  lemma RotationsChain(events: seq<Event>, j: nat)
    requires j < |Execute(START, events).log| && Execute(START, events).log[j].consumed.Some?
    ensures var log := Execute(START, events).log;
            exists i :: 0 <= i < j && log[i].sid == log[j].sid && Some(log[i].hash) == log[j].consumed
              && forall k | i < k < j :: log[k].sid != log[j].sid
  {
    EveryRun(events);
    var log := Execute(START, events).log;
    ChainedAt(log, j);
    var i := LastIntroduced(log[..j], log[j].sid);
    assert log[i] == log[..j][i] && forall k | i < k < j :: log[k] == log[..j][k];
  }

  /** No stored hash is consumed twice, by the same session or another. */
  lemma ConsumedOnce(events: seq<Event>, j: nat, k: nat)
    requires j < k < |Execute(START, events).log|
    requires Execute(START, events).log[j].consumed.Some? && Execute(START, events).log[k].consumed.Some?
    ensures Execute(START, events).log[j].consumed != Execute(START, events).log[k].consumed
  {
    EveryRun(events);
    var log := Execute(START, events).log;
    RotationsChain(events, j);
    RotationsChain(events, k);
    var i :| 0 <= i < j && log[i].sid == log[j].sid && Some(log[i].hash) == log[j].consumed;
    var m :| 0 <= m < k && log[m].sid == log[k].sid && Some(log[m].hash) == log[k].consumed
      && forall x | m < x < k :: log[x].sid != log[k].sid;
  }

  /** At most one session holds a hash, so a lookup has at most one answer. */
  lemma HashFindsOne(events: seq<Event>, hash: string, a: string, b: string)
    requires var s := Execute(START, events).store;
             a in s && b in s && s[a].refreshHash == Some(hash) && s[b].refreshHash == Some(hash)
    ensures a == b
  {
    EveryRun(events);
    var log := Execute(START, events).log;
    var i := LastIntroduced(log, a);
    var j := LastIntroduced(log, b);
  }

  /** A consumed hash is never held by any session again, so it is neither found nor rotated. */
  lemma ConsumedIsGone(events: seq<Event>, j: nat, sid: string)
    requires j < |Execute(START, events).log| && Execute(START, events).log[j].consumed.Some?
    requires sid in Execute(START, events).store
    ensures Execute(START, events).store[sid].refreshHash != Execute(START, events).log[j].consumed
  {
    EveryRun(events);
    var st := Execute(START, events);
    RotationsChain(events, j);
    var i :| 0 <= i < j && st.log[i].sid == st.log[j].sid && Some(st.log[i].hash) == st.log[j].consumed;
    if st.store[sid].refreshHash == st.log[j].consumed {
      var m := LastIntroduced(st.log, sid);
    }
  }

  // ----- A revoked session -----

  /** The hash was held once, the session no longer holds it, and no rotation on its way carries it. */
  ghost predicate Spent(st: State, sid: string, hash: string) {
    Introduced(st.log, hash) && (sid in st.store ==> st.store[sid].refreshHash != Some(hash))
  }

  lemma SpentStays(st: State, e: Event, sid: string, hash: string)
    requires Inv(st) && Spent(st, sid, hash)
    ensures Spent(Step(st, e), sid, hash)
  {
    var i :| 0 <= i < |st.log| && st.log[i].hash == hash;
    assert Step(st, e).log[i].hash == hash;
  }

  lemma {:induction false} SpentForever(st: State, events: seq<Event>, sid: string, hash: string)
    requires Inv(st) && Spent(st, sid, hash)
    ensures Inv(Execute(st, events)) && Spent(Execute(st, events), sid, hash)
  {
    if events != [] {
      var front := events[..|events| - 1];
      SpentForever(st, front, sid, hash);
      StepKeeps(Execute(st, front), events[|events| - 1]);
      SpentStays(Execute(st, front), events[|events| - 1], sid, hash);
    }
  }

  /** The session stopped holding the hash the rotation read, by revocation of it or of all the user's sessions. */
  predicate Revokes(st: State, e: Event, sid: string) {
    match e
    case RevokeOne(s, _) => s == sid
    case RevokeUser(user, _) => user != "" && sid in st.store && st.store[sid].userId == user
      && st.store[sid].revokedAt.None?
    case _ => false
  }

  /** A rotation in flight when its session is revoked never succeeds, whatever happens before it finishes. */
  lemma RevokedInFlightNeverSucceeds(before: seq<Event>, revoke: Event, after: seq<Event>, id: nat)
    requires id in Execute(START, before).pending
    requires Revokes(Execute(START, before), revoke, Execute(START, before).pending[id].sessionId)
    ensures var r := Execute(START, before).pending[id];
            !CasMatches(Execute(Step(Execute(START, before), revoke), after).store, r)
  {
    EveryRun(before);
    var st := Execute(START, before);
    var r := st.pending[id];
    StepKeeps(st, revoke);
    assert Spent(Step(st, revoke), r.sessionId, r.readHash);
    SpentForever(Step(st, revoke), after, r.sessionId, r.readHash);
  }

  /** Of several rotations that read the same hash of a session at most one succeeds. */
  lemma FirstFinishWins(before: seq<Event>, a: nat, now: int, after: seq<Event>, b: nat)
    requires var st := Execute(START, before);
             && a in st.pending && b in st.pending && a != b
             && st.pending[a].sessionId == st.pending[b].sessionId && st.pending[a].readHash == st.pending[b].readHash
             && CasMatches(st.store, st.pending[a])
    ensures var st := Execute(START, before);
            && CasSucceeds(st.store, st.pending[a], now)
            && !CasMatches(Execute(Step(st, Finish(a, now)), after).store, st.pending[b])
  {
    EveryRun(before);
    var st := Execute(START, before);
    var r := st.pending[b];
    assert st.pending[a].newHash != r.readHash;
    StepKeeps(st, Finish(a, now));
    TakenIsSpent(st, a, now);
    SpentForever(Step(st, Finish(a, now)), after, r.sessionId, r.readHash);
  }

  lemma TakenIsSpent(st: State, a: nat, now: int)
    requires Inv(st) && a in st.pending && CasMatches(st.store, st.pending[a])
    ensures Spent(Step(st, Finish(a, now)), st.pending[a].sessionId, st.pending[a].readHash)
  {
    IntroducedMore(st.log, Entry(st.pending[a].sessionId, Some(st.pending[a].readHash), st.pending[a].newHash));
  }

  /**
    A rotation starts from a hash that verification refuses exactly when it starts at all and the hash has no
    expiry or is past it: nothing else tells the two apart.
   */
  lemma ExpiredStillRotatesIff(s: Store, sid: string, hash: string, newHash: string, newExpiresAt: int, now: int)
    ensures var read := RotateRead(s, sid, hash, newHash, newExpiresAt);
            && (VerifyRefreshHash(s, sid, hash, now) ==> read.Some?)
            && (read.Some? ==>
                  var expiry := GetSession(s, sid).value.refreshExpiresAt;
                  !VerifyRefreshHash(s, sid, hash, now) <==> expiry.None? || now > expiry.value)
  {}

  /** A session is created, gets a hash, and the hash expires. */
  function Expiring(sid: string, user: string, hash: string, expiresAt: int): seq<Event> {
    [Create(sid, user, 0), Issue(sid, hash, expiresAt)]
  }

  lemma ExecuteMore(st: State, events: seq<Event>, e: Event)
    ensures Execute(st, events + [e]) == Step(Execute(st, events), e)
  {
    assert (events + [e])[..|events|] == events;
  }

  lemma ExpiringStore(sid: string, user: string, hash: string, expiresAt: int)
    ensures var st := Execute(START, Expiring(sid, user, hash, expiresAt));
            && st.store == map[sid := Session(user, None, Some(hash), Some(expiresAt), 0)]
            && st.issued == {hash} && st.pending == map[] && st.log == [Entry(sid, None, hash)]
  {
    var a, b := Create(sid, user, 0), Issue(sid, hash, expiresAt);
    assert Execute(START, []) == START && [] + [a] == [a];
    ExecuteMore(START, [], a);
    var created := Step(START, a);
    assert created.store == map[sid := Session(user, None, None, None, 0)];
    assert [a] + [b] == Expiring(sid, user, hash, expiresAt);
    ExecuteMore(START, [a], b);
    assert Step(created, b).store == map[sid := Session(user, None, Some(hash), Some(expiresAt), 0)];
  }

  /** Past the expiry verification refuses the hash, and a rotation replaces it by a new one. */
  lemma ExpiredHashRotates(sid: string, user: string, hash: string, newHash: string, expiresAt: int,
                           newExpiresAt: int, now: int)
    requires sid != "" && Trim(sid) == sid && hash != "" && newHash != hash && now > expiresAt
    ensures var run := Expiring(sid, user, hash, expiresAt);
            var n := Execute(START, run + [Begin(0, sid, hash, newHash, newExpiresAt)] + [Finish(0, now)]);
            && !VerifyRefreshHash(Execute(START, run).store, sid, hash, now)
            && sid in n.store && n.store[sid].refreshHash == Some(newHash)
            && n.log == [Entry(sid, None, hash), Entry(sid, Some(hash), newHash)]
  {
    var run, begin := Expiring(sid, user, hash, expiresAt), Begin(0, sid, hash, newHash, newExpiresAt);
    ExpiringStore(sid, user, hash, expiresAt);
    ExecuteMore(START, run, begin);
    ExecuteMore(START, run + [begin], Finish(0, now));
  }

  // ----- What issuing, rotating and revoking do -----

  /** Nothing but one session differs. */
  ghost predicate OnlySession(a: Store, b: Store, sid: string) {
    forall s | s != sid :: (s in a <==> s in b) && (s in a ==> b[s] == a[s])
  }

  /**
    A hash stored for an unrevoked session verifies up to its expiry and is found before it, and no other digest.
   */
  lemma IssuedHashVerifies(s: Store, sid: string, hash: string, expiresAt: int, given: string, now: int)
    requires sid in s && sid != "" && Trim(sid) == sid && hash != "" && IsDigest(hash) && IsDigest(given)
    ensures var n := StoreRefreshHash(s, sid, hash, expiresAt);
            && OnlySession(s, n, sid) && n.Keys == s.Keys
            && (VerifyRefreshHash(n, sid, given, now) <==>
                  s[sid].revokedAt.None? && given == hash && now <= expiresAt)
            && (Finds(n, given, now, sid) <==> s[sid].revokedAt.None? && given == hash && now < expiresAt)
  {
    SameHashIff(hash, given);
  }

  /** A rotation replaces the presented hash by the new one, and from then on only the new one verifies. */
  lemma RotationSwitches(s: Store, sid: string, hash: string, newHash: string, newExpiresAt: int, now: int,
                         given: string, later: int)
    requires sid in s && sid != "" && Trim(sid) == sid && s[sid].refreshHash.Some?
    requires hash != "" && newHash != "" && newHash != hash
    requires IsDigest(s[sid].refreshHash.value) && IsDigest(hash) && IsDigest(newHash) && IsDigest(given)
    ensures var read := RotateRead(s, sid, hash, newHash, newExpiresAt);
            && (read.Some? <==> s[sid].revokedAt.None? && s[sid].refreshHash == Some(hash))
            && (read.Some? ==>
                  var n := RotateCas(s, read.value, now);
                  && OnlySession(s, n, sid) && n.Keys == s.Keys && n[sid].userId == s[sid].userId
                  && (VerifyRefreshHash(n, sid, given, later) <==> given == newHash && later <= newExpiresAt))
  {
    SameHashIff(s[sid].refreshHash.value, hash);
    SameHashIff(newHash, given);
  }

  /** The session is revoked: nothing verifies for it, nothing rotates it, no hash finds it. */
  ghost predicate IsEnded(s: Store, sid: string) {
    sid in s && s[sid].revokedAt.Some?
  }

  lemma EndedIsUseless(s: Store, sid: string, hash: string, newHash: string, newExpiresAt: int, now: int)
    requires IsEnded(s, Trim(sid))
    ensures !VerifyRefreshHash(s, sid, hash, now) && RotateRead(s, sid, hash, newHash, newExpiresAt).None?
    ensures !Finds(s, hash, now, Trim(sid))
  {}

  /** Revoking ends exactly the one session, revoking all exactly the user's, and takes their hashes. */
  lemma RevokingEnds(s: Store, sid: string, user: string, now: int, t: string)
    ensures var n := Revoke(s, sid, now);
            n.Keys == s.Keys && (t in s ==>
              n[t] == if t == sid then s[t].(revokedAt := Some(now), refreshHash := None, refreshExpiresAt := None)
                      else s[t])
    ensures var n := RevokeAll(s, user, now);
            n.Keys == s.Keys && (t in s ==>
              n[t] == if user != "" && s[t].userId == user && s[t].revokedAt.None?
                      then s[t].(revokedAt := Some(now), refreshHash := None, refreshExpiresAt := None) else s[t])
  {}

  lemma StepKeepsEnded(st: State, e: Event, sid: string)
    requires IsEnded(st.store, sid)
    ensures IsEnded(Step(st, e).store, sid)
  {}

  /** Once revoked a session stays so, whatever is issued or finished for it later. */
  lemma {:induction false} EndedForever(st: State, events: seq<Event>, sid: string)
    requires IsEnded(st.store, sid)
    ensures IsEnded(Execute(st, events).store, sid)
  {
    if events != [] {
      EndedForever(st, events[..|events| - 1], sid);
      StepKeepsEnded(Execute(st, events[..|events| - 1]), events[|events| - 1], sid);
    }
  }
}
