/**
  Read confirmations whose look at the cursor and write of it are apart, in any interleaving
  (services/message.service.js).
 */
module ReadRaces {
  import opened Wrappers
  import opened MessageStore
  import opened ReadCursor

  type Key = (string, string)

  /** A confirmation past its look; `since` is the number of writes made when it looked. */
  datatype Pending = Pending(reader: string, chatId: string, messageId: string, at: int, since: nat)

  datatype Mark = Mark(key: Key, at: int)

  /** `writes` lists the cursor writes, `looks` the confirmations, each with the timestamp it carries. */
  datatype State = State(cursors: Cursors, pending: map<nat, Pending>, writes: seq<Mark>, looks: seq<Mark>)

  const START := State(map[], map[], [], [])

  datatype Event =
    | Look(task: nat, reader: string, row: Row)
    | Write(task: nat, now: int)

  function KeyOf(p: Pending): Key {
    KeyFor(p.reader, p.chatId)
  }

  function Step(st: State, e: Event): State {
    match e
    case Look(task, reader, row) =>
      var chatId := CursorChat(row);
      if task in st.pending || reader == "" || chatId == "" then st
      else
        var looked := st.(looks := st.looks + [Mark(KeyFor(reader, chatId), row.timestamp)]);
        if !Moves(GetCursor(st.cursors, reader, chatId), row) then looked
        else looked.(pending := st.pending[task := Pending(reader, chatId, row.messageId, row.timestamp, |st.writes|)])
    case Write(task, now) =>
      if task !in st.pending then st
      else
        var p := st.pending[task];
        State(UpsertCursor(st.cursors, p.reader, p.chatId, Some(p.messageId), Some(p.at), now), st.pending - {task},
              st.writes + [Mark(KeyOf(p), p.at)], st.looks)
  }

  function Execute(events: seq<Event>): State {
    if events == [] then START else Step(Execute(events[..|events| - 1]), events[|events| - 1])
  }

  function Last(marks: seq<Mark>, key: Key): Option<int> {
    if marks == [] then None
    else if marks[|marks| - 1].key == key then Some(marks[|marks| - 1].at)
    else Last(marks[..|marks| - 1], key)
  }

  function Max(marks: seq<Mark>, key: Key): Option<int> {
    if marks == [] then None
    else
      var before, m := Max(marks[..|marks| - 1], key), marks[|marks| - 1];
      if m.key != key || (before.Some? && before.value >= m.at) then before else Some(m.at)
  }

  predicate AtMost(a: Option<int>, b: Option<int>) {
    a.Some? ==> b.Some? && a.value <= b.value
  }

  // ----- Moving back -----

  /** The cursor carries the last write; a pending confirmation saw less than it carries. */
  ghost predicate Inv(st: State) {
    && (forall k :: Last(st.writes, k) == if k in st.cursors then st.cursors[k].lastReadAt else None)
    && (forall k | k in st.cursors :: st.cursors[k].lastReadAt.Some?)
    && (forall t | t in st.pending :: PendingOk(st.pending[t], st.writes))
  }

  ghost predicate PendingOk(p: Pending, writes: seq<Mark>) {
    && p.reader != "" && p.chatId != "" && p.since <= |writes|
    && var seen := Last(writes[..p.since], KeyOf(p)); seen.None? || seen.value < p.at
  }

  lemma StillOk(p: Pending, writes: seq<Mark>, m: Mark)
    requires PendingOk(p, writes)
    ensures PendingOk(p, writes + [m])
  {
    assert (writes + [m])[..p.since] == writes[..p.since];
  }

  lemma WriteKeeps(st: State, task: nat, now: int)
    requires Inv(st) && task in st.pending
    ensures Inv(Step(st, Write(task, now)))
  {
    var p, n := st.pending[task], Step(st, Write(task, now));
    assert PendingOk(p, st.writes);
    assert n.writes[..|n.writes| - 1] == st.writes;
    forall t | t in n.pending ensures PendingOk(n.pending[t], n.writes) {
      StillOk(st.pending[t], st.writes, Mark(KeyOf(p), p.at));
    }
  }

  lemma LookKeeps(st: State, task: nat, reader: string, row: Row)
    requires Inv(st)
    ensures Inv(Step(st, Look(task, reader, row)))
  {
    var n := Step(st, Look(task, reader, row));
    assert st.writes[..|st.writes|] == st.writes;
    forall t | t in n.pending ensures PendingOk(n.pending[t], n.writes) {
      if t != task || task in st.pending {
        assert PendingOk(st.pending[t], st.writes);
      }
    }
  }

  lemma {:induction false} EveryRun(events: seq<Event>)
    ensures Inv(Execute(events))
  {
    if events != [] {
      var st, e := Execute(events[..|events| - 1]), events[|events| - 1];
      EveryRun(events[..|events| - 1]);
      match e {
        case Look(task, reader, row) => LookKeeps(st, task, reader, row);
        case Write(task, now) => if task in st.pending { WriteKeeps(st, task, now); }
      }
    }
  }

  lemma {:induction false} LastAt(marks: seq<Mark>, key: Key) returns (i: nat)
    requires Last(marks, key).Some?
    ensures i < |marks| && marks[i].key == key && Some(marks[i].at) == Last(marks, key)
    ensures forall j | i < j < |marks| :: marks[j].key != key
  {
    if marks[|marks| - 1].key == key {
      i := |marks| - 1;
    } else {
      i := LastAt(marks[..|marks| - 1], key);
    }
  }

  lemma {:induction false} LastIs(marks: seq<Mark>, key: Key, i: nat)
    requires i < |marks| && marks[i].key == key && forall j | i < j < |marks| :: marks[j].key != key
    ensures Last(marks, key) == Some(marks[i].at)
  {
    if i < |marks| - 1 {
      LastIs(marks[..|marks| - 1], key, i);
    }
  }

  /** The write in question lowers the cursor. */
  predicate MovesBack(st: State, task: nat)
    requires task in st.pending
  {
    var p := st.pending[task];
    var seen := GetCursor(st.cursors, p.reader, p.chatId);
    seen.Some? && seen.value.lastReadAt.Some? && seen.value.lastReadAt.value > p.at
  }

  /** The i-th write was for the key, and none after it. */
  predicate IsLastWrite(writes: seq<Mark>, key: Key, i: nat) {
    i < |writes| && writes[i].key == key && forall j | i < j < |writes| :: writes[j].key != key
  }

  /** A write moves the cursor back exactly when the last write of that cursor came after its look and carries more. */
  lemma MovesBackIff(events: seq<Event>, task: nat)
    requires task in Execute(events).pending
    ensures var st := Execute(events);
            var p := st.pending[task];
            MovesBack(st, task) <==> exists i ::
              p.since <= i && IsLastWrite(st.writes, KeyOf(p), i) && st.writes[i].at > p.at
  {
    EveryRun(events);
    var st := Execute(events);
    var p := st.pending[task];
    var key := KeyOf(p);
    assert PendingOk(p, st.writes);
    if Last(st.writes, key).Some? {
      var i := LastAt(st.writes, key);
      assert IsLastWrite(st.writes, key, i);
      if i < p.since {
        LastIs(st.writes[..p.since], key, i);
      }
      forall k | IsLastWrite(st.writes, key, k) ensures k == i {}
    } else {
      forall k | IsLastWrite(st.writes, key, k) ensures false {
        LastIs(st.writes, key, k);
      }
    }
  }

  // ----- The final cursor -----

  /** A message keeps its timestamp. */
  ghost predicate Stamped(events: seq<Event>, stamp: string -> int) {
    forall i | 0 <= i < |events| && events[i].Look? :: events[i].row.timestamp == stamp(events[i].row.messageId)
  }

  ghost predicate Covered(st: State, m: Mark) {
    AtMost(Some(m.at), Max(st.writes, m.key))
    || exists t :: t in st.pending && KeyOf(st.pending[t]) == m.key && st.pending[t].at == m.at
  }

  predicate CursorTracks(c: Cursor, stamp: string -> int) {
    c.lastReadMessageId.Some? && c.lastReadAt == Some(stamp(c.lastReadMessageId.value))
  }

  predicate PendingTracks(p: Pending, looks: seq<Mark>, stamp: string -> int) {
    p.at == stamp(p.messageId) && AtMost(Some(p.at), Max(looks, KeyOf(p)))
  }

  /** Every confirmation was written, outdone by one that was, or is still on its way; only confirmations write. */
  ghost predicate Tracks(st: State, stamp: string -> int) {
    && Inv(st)
    && (forall k | k in st.cursors :: CursorTracks(st.cursors[k], stamp))
    && (forall t | t in st.pending :: PendingTracks(st.pending[t], st.looks, stamp))
    && (forall i | 0 <= i < |st.looks| :: Covered(st, st.looks[i]))
    && (forall k :: AtMost(Max(st.writes, k), Max(st.looks, k)))
  }

  lemma {:induction false} LastAtMostMax(marks: seq<Mark>, key: Key)
    ensures AtMost(Last(marks, key), Max(marks, key))
  {
    if marks != [] {
      LastAtMostMax(marks[..|marks| - 1], key);
    }
  }

  lemma MaxStep(marks: seq<Mark>, m: Mark, key: Key)
    ensures var before := Max(marks, key);
            Max(marks + [m], key) ==
              if m.key != key || (before.Some? && before.value >= m.at) then before else Some(m.at)
  {
    assert (marks + [m])[..|marks|] == marks;
  }

  lemma MaxGrows(marks: seq<Mark>, m: Mark, key: Key)
    ensures AtMost(Max(marks, key), Max(marks + [m], key))
    ensures m.key == key ==> AtMost(Some(m.at), Max(marks + [m], key))
  {
    MaxStep(marks, m, key);
  }

  /** A confirmation that finds nothing to write is outdone by the last write. */
  lemma SkippedIsCovered(st: State, stamp: string -> int, reader: string, row: Row)
    requires Tracks(st, stamp) && reader != "" && CursorChat(row) != "" && row.timestamp == stamp(row.messageId)
    requires !Moves(GetCursor(st.cursors, reader, CursorChat(row)), row)
    ensures AtMost(Some(row.timestamp), Max(st.writes, KeyFor(reader, CursorChat(row))))
  {
    var key := KeyFor(reader, CursorChat(row));
    LastAtMostMax(st.writes, key);
    assert key in st.cursors && Last(st.writes, key) == st.cursors[key].lastReadAt;
  }

  lemma LookCovers(st: State, stamp: string -> int, task: nat, reader: string, row: Row)
    requires Tracks(st, stamp) && row.timestamp == stamp(row.messageId)
    ensures var n := Step(st, Look(task, reader, row)); forall i | 0 <= i < |n.looks| :: Covered(n, n.looks[i])
  {
    var n := Step(st, Look(task, reader, row));
    if n != st {
      forall i | 0 <= i < |n.looks| ensures Covered(n, n.looks[i]) {
        if i < |st.looks| {
          assert Covered(st, st.looks[i]);
          if t :| t in st.pending && KeyOf(st.pending[t]) == st.looks[i].key && st.pending[t].at == st.looks[i].at {
            assert t in n.pending && n.pending[t] == st.pending[t];
          }
        } else if Moves(GetCursor(st.cursors, reader, CursorChat(row)), row) {
          assert task in n.pending && KeyOf(n.pending[task]) == n.looks[i].key;
        } else {
          SkippedIsCovered(st, stamp, reader, row);
        }
      }
    }
  }

  lemma LookedPending(st: State, n: State, m: Mark, task: nat, stamp: string -> int)
    requires forall t | t in st.pending :: PendingTracks(st.pending[t], st.looks, stamp)
    requires n.looks == st.looks + [m] && forall t | t in n.pending && t != task ::
              t in st.pending && n.pending[t] == st.pending[t]
    requires task in n.pending ==>
               KeyOf(n.pending[task]) == m.key && n.pending[task].at == m.at == stamp(n.pending[task].messageId)
    ensures forall t | t in n.pending :: PendingTracks(n.pending[t], n.looks, stamp)
  {
    forall t | t in n.pending ensures PendingTracks(n.pending[t], n.looks, stamp) {
      MaxGrows(st.looks, m, KeyOf(n.pending[t]));
      assert t == task || PendingTracks(st.pending[t], st.looks, stamp);
    }
  }

  lemma LookedMax(writes: seq<Mark>, looks: seq<Mark>, m: Mark)
    requires forall k :: AtMost(Max(writes, k), Max(looks, k))
    ensures forall k :: AtMost(Max(writes, k), Max(looks + [m], k))
  {
    forall k ensures AtMost(Max(writes, k), Max(looks + [m], k)) {
      MaxGrows(looks, m, k);
    }
  }

  lemma LookTracks(st: State, stamp: string -> int, task: nat, reader: string, row: Row)
    requires Tracks(st, stamp) && row.timestamp == stamp(row.messageId)
    ensures Tracks(Step(st, Look(task, reader, row)), stamp)
  {
    var n := Step(st, Look(task, reader, row));
    LookKeeps(st, task, reader, row);
    LookCovers(st, stamp, task, reader, row);
    if n != st {
      var m := Mark(KeyFor(reader, CursorChat(row)), row.timestamp);
      LookedPending(st, n, m, task, stamp);
      LookedMax(st.writes, st.looks, m);
    }
  }

  lemma WriteTracks(st: State, stamp: string -> int, task: nat, now: int)
    requires Tracks(st, stamp) && task in st.pending
    ensures Tracks(Step(st, Write(task, now)), stamp)
  {
    var p, n := st.pending[task], Step(st, Write(task, now));
    var m := Mark(KeyOf(p), p.at);
    WriteKeeps(st, task, now);
    forall k ensures AtMost(Max(st.writes, k), Max(n.writes, k)) && AtMost(Max(n.writes, k), Max(n.looks, k)) {
      MaxGrows(st.writes, m, k);
      MaxStep(st.writes, m, k);
    }
    MaxGrows(st.writes, m, m.key);
    forall i | 0 <= i < |n.looks| ensures Covered(n, n.looks[i]) {
      assert Covered(st, st.looks[i]);
      if !AtMost(Some(st.looks[i].at), Max(st.writes, st.looks[i].key)) {
        var t :| t in st.pending && KeyOf(st.pending[t]) == st.looks[i].key && st.pending[t].at == st.looks[i].at;
        assert t == task || (t in n.pending && n.pending[t] == st.pending[t]);
      }
    }
    assert PendingOk(p, st.writes);
  }

  lemma {:induction false} EveryRunTracks(events: seq<Event>, stamp: string -> int)
    requires Stamped(events, stamp)
    ensures Tracks(Execute(events), stamp)
  {
    if events != [] {
      var front, e := events[..|events| - 1], events[|events| - 1];
      assert forall i | 0 <= i < |front| :: front[i] == events[i];
      EveryRunTracks(front, stamp);
      match e {
        case Look(task, reader, row) => LookTracks(Execute(front), stamp, task, reader, row);
        case Write(task, now) => if task in Execute(front).pending { WriteTracks(Execute(front), stamp, task, now); }
      }
    }
  }

  function LastReadAt(cs: Cursors, key: Key): Option<int> {
    if key in cs then cs[key].lastReadAt else None
  }

  /**
    Once no confirmation for the cursor is under way, the largest confirmed timestamp has been written, and
    the cursor stands at it exactly when the last write was that one or one with the same timestamp.
   */
  lemma FinalIsMaxIff(events: seq<Event>, stamp: string -> int, key: Key)
    requires Stamped(events, stamp)
    ensures var st := Execute(events);
            (forall t | t in st.pending :: KeyOf(st.pending[t]) != key) ==>
              && Max(st.writes, key) == Max(st.looks, key)
              && (LastReadAt(st.cursors, key) == Max(st.looks, key) <==> Last(st.writes, key) == Max(st.writes, key))
  {
    EveryRunTracks(events, stamp);
    var st := Execute(events);
    if forall t | t in st.pending :: KeyOf(st.pending[t]) != key {
      if Max(st.looks, key).Some? {
        var i := MaxAt(st.looks, key);
        assert Covered(st, st.looks[i]);
      }
    }
  }

  lemma {:induction false} MaxAt(marks: seq<Mark>, key: Key) returns (i: nat)
    requires Max(marks, key).Some?
    ensures i < |marks| && marks[i].key == key && Some(marks[i].at) == Max(marks, key)
  {
    var m := marks[|marks| - 1];
    if m.key == key && Max(marks, key) == Some(m.at) {
      i := |marks| - 1;
    } else {
      i := MaxAt(marks[..|marks| - 1], key);
    }
  }

  // ----- One confirmation of a cursor at a time -----

  /** No write of the same cursor since the confirmation looked. */
  predicate Undisturbed(st: State, task: nat)
    requires task in st.pending
  {
    forall i | 0 <= i < |st.writes| && st.writes[i].key == KeyOf(st.pending[task]) :: i < st.pending[task].since
  }

  /** Such a confirmation never moves the cursor back. */
  lemma UndisturbedMovesForward(events: seq<Event>, task: nat)
    requires task in Execute(events).pending && Undisturbed(Execute(events), task)
    ensures !MovesBack(Execute(events), task)
  {
    MovesBackIff(events, task);
  }

  predicate UndisturbedAt(events: seq<Event>, key: Key, n: nat)
    requires n < |events|
  {
    events[n].Write? ==>
      var st, task := Execute(events[..n]), events[n].task;
      task in st.pending && KeyOf(st.pending[task]) == key ==> Undisturbed(st, task)
  }

  /** Every confirmation of the cursor writes without another one having written it since its look. */
  ghost predicate OneAtATime(events: seq<Event>, key: Key) {
    forall n: nat | n < |events| :: UndisturbedAt(events, key, n)
  }

  lemma {:induction false} NoneSince(marks: seq<Mark>, key: Key, since: nat)
    requires since <= |marks| && forall i | since <= i < |marks| :: marks[i].key != key
    ensures Last(marks, key) == Last(marks[..since], key)
  {
    if since < |marks| {
      NoneSince(marks[..|marks| - 1], key, since);
      assert marks[..|marks| - 1][..since] == marks[..since];
    } else {
      assert marks[..since] == marks;
    }
  }

  lemma LastStep(marks: seq<Mark>, m: Mark, key: Key)
    ensures Last(marks + [m], key) == if m.key == key then Some(m.at) else Last(marks, key)
  {
    assert (marks + [m])[..|marks|] == marks;
  }

  lemma UndisturbedWrite(st: State, task: nat, now: int, key: Key)
    requires Inv(st) && Last(st.writes, key) == Max(st.writes, key) && task in st.pending
    requires KeyOf(st.pending[task]) == key ==> Undisturbed(st, task)
    ensures var n := Step(st, Write(task, now)); Last(n.writes, key) == Max(n.writes, key)
  {
    var p := st.pending[task];
    assert PendingOk(p, st.writes);
    MaxStep(st.writes, Mark(KeyOf(p), p.at), key);
    LastStep(st.writes, Mark(KeyOf(p), p.at), key);
    if KeyOf(p) == key {
      NoneSince(st.writes, key, p.since);
    }
  }

  lemma {:induction false} LastStaysMax(events: seq<Event>, key: Key)
    requires OneAtATime(events, key)
    ensures Last(Execute(events).writes, key) == Max(Execute(events).writes, key)
  {
    if events != [] {
      var n := |events| - 1;
      var front := events[..n];
      forall k: nat | k < |front| ensures UndisturbedAt(front, key, k) {
        assert UndisturbedAt(events, key, k) && front[..k] == events[..k];
      }
      LastStaysMax(front, key);
      assert UndisturbedAt(events, key, n);
      if events[n].Write? && events[n].task in Execute(front).pending {
        EveryRun(front);
        UndisturbedWrite(Execute(front), events[n].task, events[n].now, key);
      }
    }
  }

  /** In such a run the cursor ends at the largest timestamp confirmed for it. */
  lemma OneAtATimeEndsAtMax(events: seq<Event>, stamp: string -> int, key: Key)
    requires Stamped(events, stamp) && OneAtATime(events, key)
    requires forall t | t in Execute(events).pending :: KeyOf(Execute(events).pending[t]) != key
    ensures LastReadAt(Execute(events).cursors, key) == Max(Execute(events).looks, key)
  {
    FinalIsMaxIff(events, stamp, key);
    LastStaysMax(events, key);
  }

  /** A look and its write with nothing between are the serial confirmation. */
  lemma UninterruptedConfirmation(st: State, task: nat, reader: string, row: Row, now: int)
    requires task !in st.pending && reader != ""
    ensures var n := Step(Step(st, Look(task, reader, row)), Write(task, now));
            n.cursors == PersistReadCursor(st.cursors, reader, row, now) && n.pending == st.pending
  {
    var looked := Step(st, Look(task, reader, row));
    if task in looked.pending {
      assert looked.pending == st.pending[task := looked.pending[task]];
      assert st.pending[task := looked.pending[task]] - {task} == st.pending;
    }
  }

  // ----- Two runs -----

  /** A confirmation of a chat's message by one reader. */
  predicate Confirms(reader: string, chatId: string, row: Row) {
    reader != "" && chatId != "" && CursorChat(row) == chatId
  }

  lemma {:induction false} Extend(events: seq<Event>, e: Event)
    ensures Execute(events + [e]) == Step(Execute(events), e)
  {
    assert (events + [e])[..|events|] == events;
  }

  /** Both look, the newer is written, then the older: the second write moves the cursor back. */
  lemma OlderWriteMovesBack(reader: string, chatId: string, older: Row, newer: Row, now: int)
    requires Confirms(reader, chatId, older) && Confirms(reader, chatId, newer) && older.timestamp < newer.timestamp
    ensures var st := Execute([Look(0, reader, older), Look(1, reader, newer), Write(1, now)]);
            0 in st.pending && MovesBack(st, 0)
  {
    var a, b, c := Look(0, reader, older), Look(1, reader, newer), Write(1, now);
    Extend([], a);
    Extend([a], b);
    Extend([a, b], c);
    assert [] + [a] == [a] && [a] + [b] == [a, b] && [a, b] + [c] == [a, b, c];
  }

  lemma ThreeLooks(reader: string, chatId: string, x: Row, y: Row, z: Row)
    requires Confirms(reader, chatId, x) && Confirms(reader, chatId, y) && Confirms(reader, chatId, z)
    ensures var st := Execute([Look(0, reader, x), Look(1, reader, y), Look(2, reader, z)]);
            && st.cursors == map[] && st.writes == [] && 0 in st.pending && 1 in st.pending && 2 in st.pending
            && st.pending[0] == Pending(reader, chatId, x.messageId, x.timestamp, 0)
            && st.pending[1] == Pending(reader, chatId, y.messageId, y.timestamp, 0)
            && st.pending[2] == Pending(reader, chatId, z.messageId, z.timestamp, 0)
  {
    var a, b, c := Look(0, reader, x), Look(1, reader, y), Look(2, reader, z);
    Extend([], a);
    Extend([a], b);
    Extend([a, b], c);
    assert [] + [a] == [a] && [a] + [b] == [a, b] && [a, b] + [c] == [a, b, c];
  }

  /** A larger write between look and write is not enough: a smaller one may have followed it. */
  lemma LargerWriteBetweenNotEnough(reader: string, chatId: string, low: Row, mid: Row, high: Row, now: int)
    requires Confirms(reader, chatId, low) && Confirms(reader, chatId, mid) && Confirms(reader, chatId, high)
    requires low.timestamp < mid.timestamp < high.timestamp
    ensures var looks := [Look(0, reader, mid), Look(1, reader, low), Look(2, reader, high)];
            var st := Execute(looks + [Write(2, now)] + [Write(1, now)]);
            && 0 in st.pending && st.pending[0].since == 0 && st.pending[0].at == mid.timestamp && !MovesBack(st, 0)
            && st.writes == [Mark(KeyOf(st.pending[0]), high.timestamp), Mark(KeyOf(st.pending[0]), low.timestamp)]
  {
    var looks := [Look(0, reader, mid), Look(1, reader, low), Look(2, reader, high)];
    ThreeLooks(reader, chatId, mid, low, high);
    Extend(looks, Write(2, now));
    Extend(looks + [Write(2, now)], Write(1, now));
  }
}
