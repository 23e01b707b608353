/** The refresh-session store object: session documents updated in place. */
module SessionStores {
  import opened Wrappers
  import opened Text
  import opened RefreshSessions

  /** The session's hash, if it has one, is a lower-case hexadecimal digest. */
  predicate Digests(s: Store, sid: string) {
    sid in s && s[sid].refreshHash.Some? ==> IsDigest(s[sid].refreshHash.value)
  }

  predicate Holds(s: Store, sid: string, hash: string) {
    sid in s && s[sid].revokedAt.None? && s[sid].refreshHash == Some(hash)
  }

  class SessionStore {
    var sessions: Store

    constructor ()
      ensures sessions == map[]
    {
      sessions := map[];
    }

    /** `sid` is a fresh random id. */
    method CreateDeviceSession(sid: string, user: string, now: int)
      requires sid !in sessions
      modifies this
      ensures sessions == CreateSession(old(sessions), sid, user, now)
    {
      sessions := sessions[sid := Session(user, None, None, None, now)];
    }

    method StoreHash(sid: string, hash: string, expiresAt: int)
      modifies this
      ensures sessions == StoreRefreshHash(old(sessions), sid, hash, expiresAt)
    {
      if sid !in sessions { return; }
      sessions := sessions[sid := sessions[sid].(refreshHash := Some(hash), refreshExpiresAt := Some(expiresAt))];
    }

    method VerifyHash(sid: string, hash: string, now: int) returns (ok: bool)
      ensures ok == VerifyRefreshHash(sessions, sid, hash, now)
    {
      var session := GetSession(sessions, sid);
      if session.None? || session.value.revokedAt.Some? { return false; }
      if session.value.refreshHash.None? || session.value.refreshHash.value == "" { return false; }
      if session.value.refreshExpiresAt.None? || now > session.value.refreshExpiresAt.value { return false; }
      ok := SameHash(session.value.refreshHash.value, hash);
    }

    /** The rotation up to its write; other calls may run before FinishRotation. */
    method BeginRotation(sid: string, oldHash: string, newHash: string, newExpiresAt: int) returns (r: Option<Rotation>)
      ensures r == RotateRead(sessions, sid, oldHash, newHash, newExpiresAt)
    {
      r := None;
      var session := GetSession(sessions, sid);
      if session.None? || session.value.revokedAt.Some? { return; }
      if session.value.refreshHash.None? || session.value.refreshHash.value == "" { return; }
      if !SameHash(session.value.refreshHash.value, oldHash) { return; }
      r := Some(Rotation(sid, session.value.refreshHash.value, newHash, newExpiresAt));
    }

    method FinishRotation(r: Rotation, now: int) returns (ok: bool)
      modifies this
      ensures sessions == RotateCas(old(sessions), r, now) && ok == CasSucceeds(old(sessions), r, now)
    {
      if r.sessionId !in sessions || sessions[r.sessionId].refreshHash != Some(r.readHash) { return false; }
      var before := sessions[r.sessionId];
      var after := before.(refreshHash := Some(r.newHash), refreshExpiresAt := Some(r.newExpiresAt), lastSeenAt := now);
      sessions := sessions[r.sessionId := after];
      ok := after != before;
    }

    /**
      Nothing between the halves: the write follows the read at once. Where digests are written in lower-case
      hexadecimal, a new hash replaces exactly the presented one of an unrevoked session.
     */
    method RotateRefreshHash(sid: string, oldHash: string, newHash: string, newExpiresAt: int,
                             now: int) returns (ok: bool)
      modifies this
      ensures var read := RotateRead(old(sessions), sid, oldHash, newHash, newExpiresAt);
              && ok == (read.Some? && CasSucceeds(old(sessions), read.value, now))
              && sessions == if read.Some? then RotateCas(old(sessions), read.value, now) else old(sessions)
      ensures Digests(old(sessions), sid) && IsDigest(oldHash) && oldHash != "" && oldHash != newHash
              && sid != "" && Trim(sid) == sid ==>
                && (ok <==> Holds(old(sessions), sid, oldHash))
                && (ok ==> Holds(sessions, sid, newHash) && sessions == old(sessions)[sid := sessions[sid]])
                && (!ok ==> sessions == old(sessions))
    {
      if sid in sessions && sessions[sid].refreshHash.Some? && IsDigest(oldHash) && Digests(sessions, sid) {
        SameHashIff(sessions[sid].refreshHash.value, oldHash);
      }
      var r := BeginRotation(sid, oldHash, newHash, newExpiresAt);
      if r.None? { return false; }
      ok := FinishRotation(r.value, now);
    }

    method RevokeSession(sid: string, now: int) returns (found: bool)
      modifies this
      ensures sessions == Revoke(old(sessions), sid, now) && found == (sid in old(sessions))
    {
      if sid !in sessions { return false; }
      sessions := sessions[sid := Ended(sessions[sid], now)];
      found := true;
    }

    method RevokeAllSessions(user: string, now: int) returns (count: nat)
      modifies this
      ensures sessions == RevokeAll(old(sessions), user, now)
      ensures var live := set sid | sid in old(sessions) && old(sessions)[sid].userId == user
                                    && old(sessions)[sid].revokedAt.None?;
              count == if user == "" then 0 else |live|
    {
      if user == "" { return 0; }
      var hit := set sid | sid in sessions && sessions[sid].userId == user && sessions[sid].revokedAt.None?;
      sessions := map sid | sid in sessions :: if sid in hit then Ended(sessions[sid], now) else sessions[sid];
      count := |hit|;
    }

    /** Some session found by the hash, if there is one. */
    method GetSessionIdByRefreshHash(hash: string, now: int) returns (sid: Option<string>)
      ensures sid.Some? ==> Finds(sessions, hash, now, sid.value)
      ensures sid.None? ==> forall s :: !Finds(sessions, hash, now, s)
    {
      sid := None;
      if hash == "" { return; }
      var found := set s | s in sessions && Finds(sessions, hash, now, s);
      if found != {} {
        var s :| s in found;
        sid := Some(s);
      } else {
        forall s | s in sessions ensures !Finds(sessions, hash, now, s) {
          assert s !in found;
        }
      }
    }
  }
}
