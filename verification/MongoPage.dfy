/** The Mongo backend's undelivered page (storage/message.mongo.js), which limits before it filters. */
module MongoPage {
  import opened Text
  import opened Sorting
  import opened MessageStore
  import opened Wrappers

  predicate Candidate(user: string, after: string, r: Row) {
    r.recipientId == user && (after == "" || Less(after, r.messageId))
  }

  predicate Unsettled(db: Db, user: string, r: Row) {
    !IsMessageDelivered(db, r.messageId, user) && !IsDeliveredOrRead(r.state)
  }

  /** The query result before the limit: everything addressed to the user above the cursor, by id. */
  function Candidates(db: Db, user: string, after: string): seq<Row>
    requires forall id | id in db.order :: id in db.rows
  {
    Sort(ById, Filter((r: Row) => Candidate(user, after, r), RowsOf(db)))
  }

  /** The driver's limit: zero means no limit. */
  function First<T>(s: seq<T>, limit: nat): seq<T> {
    if limit == 0 || limit >= |s| then s else s[..limit]
  }

  function GetUndeliveredMongo(db: Db, user: string, after: string, limit: nat): seq<Row>
    requires forall id | id in db.order :: id in db.rows
  {
    Filter((r: Row) => Unsettled(db, user, r), First(Candidates(db, user, after), limit))
  }

  lemma CandidatesListing(db: Db, user: string, after: string)
    requires RowsWellFormed(db)
    ensures Ascending(ById, Candidates(db, user, after))
    ensures forall r :: r in Candidates(db, user, after)
              <==> r.messageId in db.rows && db.rows[r.messageId] == r && Candidate(user, after, r)
  {
    var p := (r: Row) => Candidate(user, after, r);
    ByIdIsStrictOrder();
    RowsTieFree(db);
    FilterTieFree(ById, p, RowsOf(db));
    SortAscending(ById, Filter(p, RowsOf(db)));
    forall r ensures r in Candidates(db, user, after)
              <==> r.messageId in db.rows && db.rows[r.messageId] == r && Candidate(user, after, r)
    {
      SameElements(Candidates(db, user, after), Filter(p, RowsOf(db)), r);
      RowsOfElements(db, r);
    }
  }

  /** The file store's full listing is the query result with the settled rows filtered out. */
  lemma AwaitingIsFiltered(db: Db, user: string, after: string)
    requires RowsWellFormed(db)
    ensures AllAwaiting(db, user, after) == Filter((r: Row) => Unsettled(db, user, r), Candidates(db, user, after))
  {
    var p := (r: Row) => Unsettled(db, user, r);
    var all := Candidates(db, user, after);
    CandidatesListing(db, user, after);
    AwaitingListing(db, user, after);
    ByIdIsStrictOrder();
    FilterAscending(ById, p, all);
    AscendingUnique(ById, AllAwaiting(db, user, after), Filter(p, all));
  }

  lemma FilterOfPrefix(p: Row -> bool, s: seq<Row>, n: nat)
    requires n <= |s|
    ensures Filter(p, s) == Filter(p, s[..n]) + Filter(p, s[n..])
    ensures |Filter(p, s[..n])| <= n
  {
    assert s == s[..n] + s[n..];
    FilterAppend(p, s[..n], s[n..]);
    FilterLength(p, s[..n]);
  }

  lemma FilterLength(p: Row -> bool, s: seq<Row>)
    ensures |Filter(p, s)| <= |s|
  {}

  /** For the same data, cursor and limit the Mongo page is a prefix of the file-store page. */
  lemma MongoPageIsPrefix(db: Db, user: string, after: string, limit: nat)
    requires RowsWellFormed(db) && limit >= 1
    ensures GetUndeliveredMongo(db, user, after, limit) <= GetUndelivered(db, user, after, limit)
  {
    var p := (r: Row) => Unsettled(db, user, r);
    var all := Candidates(db, user, after);
    AwaitingIsFiltered(db, user, after);
    if limit < |all| {
      FilterOfPrefix(p, all, limit);
    } else {
      FilterLength(p, all);
    }
  }

  /**
    The Mongo page is empty although messages still await exactly when the first `limit` candidates are
    all settled and a later one is not: a client that stops on an empty page then never gets it.
   */
  lemma MongoStallsIff(db: Db, user: string, after: string, limit: nat)
    requires RowsWellFormed(db)
    ensures var all := Candidates(db, user, after);
            GetUndeliveredMongo(db, user, after, limit) == [] && AllAwaiting(db, user, after) != []
            <==> 0 < limit < |all|
                 && (forall i | 0 <= i < limit :: !Unsettled(db, user, all[i]))
                 && exists i :: limit <= i < |all| && Unsettled(db, user, all[i])
  {
    AwaitingIsFiltered(db, user, after);
    StallsAt((r: Row) => Unsettled(db, user, r), Candidates(db, user, after), limit);
  }

  lemma StallsAt(p: Row -> bool, s: seq<Row>, limit: nat)
    ensures Filter(p, First(s, limit)) == [] && Filter(p, s) != []
            <==> 0 < limit < |s| && (forall i | 0 <= i < limit :: !p(s[i])) && exists i :: limit <= i < |s| && p(s[i])
  {
    FilterEmptyIff(p, s);
    FilterEmptyIff(p, First(s, limit));
    if 0 < limit < |s| {
      assert forall i | 0 <= i < limit :: First(s, limit)[i] == s[i];
    }
  }

  lemma FilterEmptyIff(p: Row -> bool, s: seq<Row>)
    ensures Filter(p, s) == [] <==> forall i | 0 <= i < |s| :: !p(s[i])
  {
    if s != [] {
      FilterEmptyIff(p, s[1..]);
      assert forall i | 0 < i < |s| :: s[i] == s[1..][i - 1];
    }
  }

  // ----- Draining such pages, on the list of candidates -----

  /** Position of the last entry with p, or -1. */
  function LastWith(p: Row -> bool, s: seq<Row>): (k: int)
    ensures -1 <= k < |s|
    ensures k >= 0 ==> p(s[k])
    ensures forall i | k < i < |s| :: !p(s[i])
  {
    if s == [] then -1 else if p(s[|s| - 1]) then |s| - 1 else LastWith(p, s[..|s| - 1])
  }

  lemma NothingAfterLast(p: Row -> bool, s: seq<Row>)
    ensures Filter(p, s) == Filter(p, s[..LastWith(p, s) + 1])
  {
    var k := LastWith(p, s);
    FilterOfPrefix(p, s, k + 1);
    FilterEmptyIff(p, s[k + 1..]);
  }

  lemma LastOfFilter(p: Row -> bool, s: seq<Row>)
    ensures var k, found := LastWith(p, s), Filter(p, s);
            (found == [] <==> k == -1) && (k >= 0 ==> found[|found| - 1] == s[k])
  {
    var k := LastWith(p, s);
    if k == -1 {
      FilterEmptyIff(p, s);
    } else {
      NothingAfterLast(p, s);
      FilterStep(p, s, k);
      assert Filter(p, s) == Filter(p, s[..k]) + [s[k]];
    }
  }

  /** Page after page, each from just behind the last row the page before it gave, until a page is empty. */
  function Drained(p: Row -> bool, s: seq<Row>, limit: nat): seq<Row>
    decreases |s|
  {
    var k := LastWith(p, First(s, limit));
    if k == -1 then [] else Filter(p, First(s, limit)) + Drained(p, s[k + 1..], limit)
  }

  /** A row with p directly behind `limit` rows without. */
  predicate Behind(p: Row -> bool, s: seq<Row>, limit: nat, i: nat)
    requires i < |s|
  {
    limit <= i && p(s[i]) && forall j | i - limit <= j < i :: !p(s[j])
  }

  ghost predicate NoneBehind(p: Row -> bool, s: seq<Row>, limit: nat) {
    forall i: nat | i < |s| :: !Behind(p, s, limit, i)
  }

  lemma RestBehind(p: Row -> bool, s: seq<Row>, limit: nat, k: nat)
    requires limit >= 1 && k < |s| && k < limit && p(s[k])
    ensures NoneBehind(p, s, limit) <==> NoneBehind(p, s[k + 1..], limit)
  {
    var rest := s[k + 1..];
    forall i: nat | i < |s| && Behind(p, s, limit, i) ensures !NoneBehind(p, rest, limit) {
      assert i - limit > k;
      assert forall j | i - k - 1 - limit <= j < i - k - 1 :: rest[j] == s[j + k + 1];
      assert Behind(p, rest, limit, i - k - 1);
    }
    forall i: nat | i < |rest| && Behind(p, rest, limit, i) ensures !NoneBehind(p, s, limit) {
      assert forall j | i + k + 1 - limit <= j < i + k + 1 :: s[j] == rest[j - k - 1];
      assert Behind(p, s, limit, i + k + 1);
    }
  }

  /** An empty page with rows still to come stops in front of a row that has `limit` settled ones before it. */
  lemma EmptyPageBehind(p: Row -> bool, s: seq<Row>, limit: nat)
    requires limit >= 1 && LastWith(p, First(s, limit)) == -1
    ensures Filter(p, s) == [] <==> NoneBehind(p, s, limit)
  {
    FilterEmptyIff(p, s);
    if Filter(p, s) != [] {
      var i := FirstWith(p, s);
      assert forall j | 0 <= j < |First(s, limit)| :: First(s, limit)[j] == s[j];
      assert limit <= i;
      assert Behind(p, s, limit, i);
    }
  }

  lemma FirstWith(p: Row -> bool, s: seq<Row>) returns (i: nat)
    requires exists j :: 0 <= j < |s| && p(s[j])
    ensures i < |s| && p(s[i]) && forall j | 0 <= j < i :: !p(s[j])
  {
    i := 0;
    while !p(s[i])
      invariant i < |s| && forall j | 0 <= j < i :: !p(s[j])
      invariant exists j :: i <= j < |s| && p(s[j])
      decreases |s| - i
    {
      i := i + 1;
    }
  }

  lemma FirstPosition(p: Row -> bool, s: seq<Row>, limit: nat)
    requires limit >= 1 && LastWith(p, First(s, limit)) >= 0
    ensures var k := LastWith(p, First(s, limit));
            k < |s| && k < limit && p(s[k]) && Filter(p, First(s, limit)) == Filter(p, s[..k + 1])
  {
    var k := LastWith(p, First(s, limit));
    NothingAfterLast(p, First(s, limit));
    assert First(s, limit)[..k + 1] == s[..k + 1];
    assert First(s, limit)[k] == s[k];
  }

  lemma SameFront(a: seq<Row>, x: seq<Row>, y: seq<Row>)
    ensures a + x == a + y <==> x == y
  {
    assert (a + x)[|a|..] == x && (a + y)[|a|..] == y;
  }

  lemma DrainedStep(p: Row -> bool, s: seq<Row>, limit: nat, k: nat)
    requires limit >= 1 && LastWith(p, First(s, limit)) == k
    ensures k < |s| && k < limit && p(s[k])
    ensures Drained(p, s, limit) == Filter(p, s[..k + 1]) + Drained(p, s[k + 1..], limit)
  {
    FirstPosition(p, s, limit);
    assert Drained(p, s, limit) == Filter(p, First(s, limit)) + Drained(p, s[k + 1..], limit);
  }

  /** Draining misses nothing exactly when no row with p stands directly behind `limit` rows without. */
  lemma {:induction false} DrainedAllIff(p: Row -> bool, s: seq<Row>, limit: nat)
    requires limit >= 1
    ensures Drained(p, s, limit) == Filter(p, s) <==> NoneBehind(p, s, limit)
    decreases |s|
  {
    var k := LastWith(p, First(s, limit));
    if k == -1 {
      EmptyPageBehind(p, s, limit);
    } else {
      DrainedStep(p, s, limit, k);
      RestBehind(p, s, limit, k);
      DrainedAllIff(p, s[k + 1..], limit);
      FilterOfPrefix(p, s, k + 1);
      SameFront(Filter(p, s[..k + 1]), Drained(p, s[k + 1..], limit), Filter(p, s[k + 1..]));
    }
  }

  lemma {:induction false} LastWithSame(p: Row -> bool, q: Row -> bool, s: seq<Row>)
    requires forall r | r in s :: p(r) == q(r)
    ensures LastWith(p, s) == LastWith(q, s)
  {
    if s != [] {
      assert s[|s| - 1] in s;
      LastWithSame(p, q, s[..|s| - 1]);
    }
  }

  lemma SamePage(p: Row -> bool, q: Row -> bool, s: seq<Row>, limit: nat)
    requires forall r | r in s :: p(r) == q(r)
    ensures LastWith(p, First(s, limit)) == LastWith(q, First(s, limit))
    ensures Filter(p, First(s, limit)) == Filter(q, First(s, limit))
  {
    assert forall r | r in First(s, limit) :: r in s;
    LastWithSame(p, q, First(s, limit));
    FilterSame(p, q, First(s, limit));
  }

  lemma DrainedSameStep(p: Row -> bool, q: Row -> bool, s: seq<Row>, limit: nat, k: int)
    requires k == LastWith(p, First(s, limit)) == LastWith(q, First(s, limit))
    requires Filter(p, First(s, limit)) == Filter(q, First(s, limit))
    requires k >= 0 ==> Drained(p, s[k + 1..], limit) == Drained(q, s[k + 1..], limit)
    ensures Drained(p, s, limit) == Drained(q, s, limit)
  {}

  lemma {:induction false} DrainedSame(p: Row -> bool, q: Row -> bool, s: seq<Row>, limit: nat)
    requires forall r | r in s :: p(r) == q(r)
    ensures Drained(p, s, limit) == Drained(q, s, limit)
    decreases |s|
  {
    SamePage(p, q, s, limit);
    var k := LastWith(p, First(s, limit));
    if k >= 0 {
      assert forall r | r in s[k + 1..] :: r in s;
      DrainedSame(p, q, s[k + 1..], limit);
    }
    DrainedSameStep(p, q, s, limit, k);
  }

  // ----- Draining against the database -----

  /** The two durable writes for a replayed message. */
  function SettleOne(db: Db, user: string, id: string, now: int): Db {
    MarkMessageDelivered(match UpdateMessageState(db, id, Delivered, now) case Ok(d) => d case Err(_) => db, id, user)
  }

  function Settle(db: Db, user: string, page: seq<Row>, now: int): Db {
    if page == [] then db
      else SettleOne(Settle(db, user, page[..|page| - 1], now), user, page[|page| - 1].messageId, now)
  }

  /** Settling touches only the rows of the page. */
  ghost predicate OnlyThese(db: Db, d: Db, page: seq<Row>) {
    && d.order == db.order && d.rows.Keys == db.rows.Keys
    && forall id | id in db.rows && forall r | r in page :: r.messageId != id ::
         d.rows[id] == db.rows[id] && DeliveredTo(d, id) == DeliveredTo(db, id)
  }

  lemma SettleOneKeeps(db: Db, user: string, r: Row, now: int)
    requires RowsWellFormed(db) && r.messageId in db.rows
    ensures var d := SettleOne(db, user, r.messageId, now); RowsWellFormed(d) && OnlyThese(db, d, [r])
  {
    UpdateKeepsRows(db, UpdateMessageState(db, r.messageId, Delivered, now).value, r.messageId, Delivered, now);
    assert r in [r];
  }

  lemma OnlyTheseJoin(db: Db, c: Db, d: Db, front: seq<Row>, r: Row)
    requires OnlyThese(db, c, front) && OnlyThese(c, d, [r])
    ensures OnlyThese(db, d, front + [r])
  {
    var page := front + [r];
    forall id | id in db.rows && forall x | x in page :: x.messageId != id
      ensures d.rows[id] == db.rows[id] && DeliveredTo(d, id) == DeliveredTo(db, id)
    {
      assert r in page && forall x | x in front :: x in page;
      assert forall x | x in [r] :: x == r;
    }
  }

  lemma {:induction false} SettleKeeps(db: Db, user: string, page: seq<Row>, now: int)
    requires RowsWellFormed(db) && forall r | r in page :: r.messageId in db.rows
    ensures var d := Settle(db, user, page, now); RowsWellFormed(d) && OnlyThese(db, d, page)
  {
    if page != [] {
      var front, r := page[..|page| - 1], page[|page| - 1];
      assert page == front + [r] && r in page;
      SettleKeeps(db, user, front, now);
      var c := Settle(db, user, front, now);
      SettleOneKeeps(c, user, r, now);
      OnlyTheseJoin(db, c, SettleOne(c, user, r.messageId, now), front, r);
    }
  }

  ghost function UnsettledIn(db: Db, user: string): Row -> bool {
    (r: Row) => Unsettled(db, user, r)
  }

  /** Nothing of a page lies above its last row. */
  lemma PageBelow(p: Row -> bool, all: seq<Row>, limit: nat, r: Row)
    requires Ascending(ById, all) && LastWith(p, First(all, limit)) >= 0 && r in Filter(p, First(all, limit))
    ensures r == all[LastWith(p, First(all, limit))] || ById(r, all[LastWith(p, First(all, limit))])
  {
    var i :| 0 <= i < |First(all, limit)| && First(all, limit)[i] == r;
    assert First(all, limit)[i] == all[i];
  }

  lemma AboveIsUntouched(db: Db, d: Db, page: seq<Row>, last: Row, id: string)
    requires OnlyThese(db, d, page) && Less(last.messageId, id)
    requires forall r | r in page :: r == last || ById(r, last)
    ensures id in db.rows <==> id in d.rows
    ensures id in db.rows ==> d.rows[id] == db.rows[id] && DeliveredTo(d, id) == DeliveredTo(db, id)
  {
    forall r | r in page ensures r.messageId != id {
      LessIrreflexive(id);
      if ById(r, last) { LessTransitive(r.messageId, last.messageId, id); }
    }
  }

  lemma WholePageBelow(p: Row -> bool, all: seq<Row>, limit: nat, k: nat)
    requires Ascending(ById, all) && LastWith(p, First(all, limit)) == k
    ensures var page := Filter(p, First(all, limit));
            && k < |all| && page != [] && page[|page| - 1] == all[k]
            && forall r | r in page :: r in all && (r == all[k] || ById(r, all[k]))
  {
    LastOfFilter(p, First(all, limit));
    assert First(all, limit)[k] == all[k];
    forall r | r in Filter(p, First(all, limit)) ensures r in all && (r == all[k] || ById(r, all[k])) {
      PageBelow(p, all, limit, r);
    }
  }

  /** What one page leaves: the same candidates above its last row, as settled as before. */
  lemma NextPage(db: Db, user: string, after: string, limit: nat, now: int, k: nat)
    requires RowsWellFormed(db) && LastWith(UnsettledIn(db, user), First(Candidates(db, user, after), limit)) == k
    ensures var all, page := Candidates(db, user, after), GetUndeliveredMongo(db, user, after, limit);
            var d := Settle(db, user, page, now);
            && k < |all| && page != [] && page[|page| - 1] == all[k]
            && RowsWellFormed(d) && Candidates(d, user, all[k].messageId) == all[k + 1..]
            && forall r | r in all[k + 1..] :: UnsettledIn(d, user)(r) == UnsettledIn(db, user)(r)
  {
    var all, page := Candidates(db, user, after), GetUndeliveredMongo(db, user, after, limit);
    CandidatesListing(db, user, after);
    WholePageBelow(UnsettledIn(db, user), all, limit, k);
    SettleKeeps(db, user, page, now);
    RestCandidates(db, Settle(db, user, page, now), user, after, page, all, k);
  }

  lemma RestCandidates(db: Db, d: Db, user: string, after: string, page: seq<Row>, all: seq<Row>, k: nat)
    requires RowsWellFormed(db) && RowsWellFormed(d) && OnlyThese(db, d, page) && all == Candidates(db, user, after)
    requires k < |all| && forall r | r in page :: r == all[k] || ById(r, all[k])
    ensures Candidates(d, user, all[k].messageId) == all[k + 1..]
    ensures forall r | r in all[k + 1..] :: UnsettledIn(d, user)(r) == UnsettledIn(db, user)(r)
  {
    var rest := all[k + 1..];
    var next := Candidates(d, user, all[k].messageId);
    CandidatesListing(db, user, after);
    CandidatesListing(d, user, all[k].messageId);
    TailAscends(ById, all, k + 1);
    assert all[k] in all;
    ByIdIsStrictOrder();
    forall x ensures x in next <==> x in rest
      ensures x in rest ==> UnsettledIn(d, user)(x) == UnsettledIn(db, user)(x)
    {
      TailElements(ById, all, k, x);
      if Less(all[k].messageId, x.messageId) {
        AboveIsUntouched(db, d, page, all[k], x.messageId);
        if after != "" { LessTransitive(after, all[k].messageId, x.messageId); }
      }
    }
    AscendingUnique(ById, next, rest);
  }

  /** Ask, settle what came, ask again from the last id, until a page is empty. */
  ghost function MongoDrain(db: Db, user: string, after: string, limit: nat, now: int): seq<Row>
    requires RowsWellFormed(db)
    decreases |Candidates(db, user, after)|
  {
    var page := GetUndeliveredMongo(db, user, after, limit);
    LastOfFilter(UnsettledIn(db, user), First(Candidates(db, user, after), limit));
    if page == [] then []
    else
      NextPage(db, user, after, limit, now, LastWith(UnsettledIn(db, user), First(Candidates(db, user, after), limit)));
      page + MongoDrain(Settle(db, user, page, now), user, page[|page| - 1].messageId, limit, now)
  }

  lemma {:induction false} MongoDrainIs(db: Db, user: string, after: string, limit: nat, now: int)
    requires RowsWellFormed(db)
    ensures MongoDrain(db, user, after, limit, now)
      == Drained(UnsettledIn(db, user), Candidates(db, user, after), limit)
    decreases |Candidates(db, user, after)|
  {
    var p, all := UnsettledIn(db, user), Candidates(db, user, after);
    var page := GetUndeliveredMongo(db, user, after, limit);
    var k := LastWith(p, First(all, limit));
    LastOfFilter(p, First(all, limit));
    if page != [] {
      var d := Settle(db, user, page, now);
      NextPage(db, user, after, limit, now, k);
      MongoDrainIs(d, user, all[k].messageId, limit, now);
      DrainedSame(UnsettledIn(d, user), p, all[k + 1..], limit);
    }
  }

  /**
    A client that drains Mongo pages gets everything that awaits exactly when no unsettled message stands
    directly behind `limit` settled ones.
   */
  lemma MongoDrainCompleteIff(db: Db, user: string, after: string, limit: nat, now: int)
    requires RowsWellFormed(db) && limit >= 1
    ensures MongoDrain(db, user, after, limit, now) == AllAwaiting(db, user, after)
            <==> NoneBehind(UnsettledIn(db, user), Candidates(db, user, after), limit)
  {
    MongoDrainIs(db, user, after, limit, now);
    AwaitingIsFiltered(db, user, after);
    DrainedAllIff(UnsettledIn(db, user), Candidates(db, user, after), limit);
  }
}
