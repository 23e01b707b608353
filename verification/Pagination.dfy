/** Cursor pagination over a newest-first list (services/history.service.js, storage/message.store.js). */
module Pagination {
  import opened Wrappers
  import opened Text
  import opened Sorting
  import opened MessageStore

  const MAX_PAGE_SIZE: int := 100
  const DEFAULT_PAGE_SIZE: int := 50
  const MIN_PAGE_SIZE: int := 1

  /** Which listing is paged: a room asked for by its room id, any other chat, or one recipient's whole log. */
  datatype Mode = RoomChat | PlainChat | RecipientLog

  datatype Page = Page(messages: seq<Row>, nextCursor: Option<string>, hasMore: bool)

  /** `requested` is None when the given limit is not a number. */
  function Limit(requested: Option<int>): (n: nat)
    ensures MIN_PAGE_SIZE <= n <= MAX_PAGE_SIZE
    ensures requested.Some? && MIN_PAGE_SIZE <= requested.value <= MAX_PAGE_SIZE ==> n == requested.value
    ensures requested.None? || requested.value == 0 ==> n == 50
    ensures requested.Some? && requested.value > 100 ==> n == 100
  {
    var wanted := if requested.None? || requested.value == 0 then DEFAULT_PAGE_SIZE else requested.value;
    if wanted < MIN_PAGE_SIZE then MIN_PAGE_SIZE else if wanted > MAX_PAGE_SIZE then MAX_PAGE_SIZE else wanted
  }

  function Rid(r: Row): string {
    if r.roomMessageId != "" then r.roomMessageId else r.messageId
  }

  function SortKey(mode: Mode, r: Row): string {
    if mode == RecipientLog then r.messageId else Rid(r)
  }

  predicate NewerThan(mode: Mode, a: Row, b: Row) {
    a.timestamp > b.timestamp || (a.timestamp == b.timestamp && Less(SortKey(mode, b), SortKey(mode, a)))
  }

  function Newest(mode: Mode): (Row, Row) -> bool {
    (a: Row, b: Row) => NewerThan(mode, a, b)
  }

  predicate Matches(mode: Mode, r: Row, id: string) {
    r.messageId == id || (mode != RecipientLog && r.roomMessageId != "" && r.roomMessageId == id)
  }

  function CursorOf(mode: Mode, r: Row): string {
    if mode == RoomChat && r.roomMessageId != "" then r.roomMessageId else r.messageId
  }

  /** findIndex. */
  function FindIndex(mode: Mode, list: seq<Row>, id: string): Option<nat> {
    if list == [] then None
    else if Matches(mode, list[0], id) then Some(0)
    else
      var rest := FindIndex(mode, list[1..], id);
      if rest.None? then None else Some(rest.value + 1)
  }

  lemma {:induction false} FindsFirst(mode: Mode, list: seq<Row>, id: string)
    ensures var found := FindIndex(mode, list, id);
            && (found.None? <==> forall i | 0 <= i < |list| :: !Matches(mode, list[i], id))
            && (found.Some? ==> found.value < |list| && Matches(mode, list[found.value], id))
            && (found.Some? ==> forall i | 0 <= i < found.value :: !Matches(mode, list[i], id))
  {
    if list != [] && !Matches(mode, list[0], id) {
      FindsFirst(mode, list[1..], id);
      assert forall i | 0 < i < |list| :: list[i] == list[1..][i - 1];
    }
  }

  /** Where the page after the cursor starts; a cursor that is not found starts from the top. */
  function StartIndex(mode: Mode, list: seq<Row>, before: string): (n: nat)
    ensures n <= |list|
  {
    FindsFirst(mode, list, Trim(before));
    var found := FindIndex(mode, list, Trim(before));
    if before == "" || found.None? then 0 else found.value + 1
  }

  function PageAt(mode: Mode, list: seq<Row>, start: nat, limit: nat): Page
    requires start <= |list|
  {
    var messages := Take(list[start..], limit);
    var hasMore := start + limit < |list|;
    Page(messages, if hasMore && messages != [] then Some(CursorOf(mode, messages[|messages| - 1])) else None, hasMore)
  }

  function PageAfter(mode: Mode, list: seq<Row>, before: string, limit: nat): Page {
    PageAt(mode, list, StartIndex(mode, list, before), limit)
  }

  // ----- Which cursors work -----

  ghost predicate SoundAt(mode: Mode, list: seq<Row>, i: nat) {
    i < |list| ==> StartIndex(mode, list, CursorOf(mode, list[i])) == i + 1
  }

  /** Every row's own cursor leads to the place right below it. */
  ghost predicate Sound(mode: Mode, list: seq<Row>) {
    forall i: nat :: SoundAt(mode, list, i)
  }

  /** Ids without white space at their edges. */
  predicate CleanIds(r: Row) {
    r.messageId != "" && Trim(r.messageId) == r.messageId && Trim(r.roomMessageId) == r.roomMessageId
  }

  /** No id is shared, and an id equal to some room message id is that row's own. */
  ghost predicate NoCross(mode: Mode, list: seq<Row>) {
    forall i: nat, j: nat | i < |list| && j < |list| && Matches(mode, list[j], CursorOf(mode, list[i])) :: i == j
  }

  lemma CleanIdsSound(mode: Mode, list: seq<Row>)
    requires NoCross(mode, list) && forall r | r in list :: CleanIds(r)
    ensures Sound(mode, list)
  {
    forall i: nat | i < |list| ensures SoundAt(mode, list, i) {
      assert CleanIds(list[i]);
      var cursor := CursorOf(mode, list[i]);
      FindsFirst(mode, list, cursor);
      assert Matches(mode, list[i], cursor);
    }
  }

  predicate MatchesFirst(mode: Mode, list: seq<Row>, i: nat)
    requires i < |list|
  {
    && Matches(mode, list[i], Trim(CursorOf(mode, list[i])))
    && forall j | 0 <= j < i :: !Matches(mode, list[j], Trim(CursorOf(mode, list[i])))
  }

  /** Cursors work exactly when each one, trimmed, matches its row and no row above it. */
  lemma SoundIff(mode: Mode, list: seq<Row>)
    requires forall r | r in list :: CursorOf(mode, r) != ""
    ensures Sound(mode, list) <==> forall i: nat | i < |list| :: MatchesFirst(mode, list, i)
  {
    forall i: nat | i < |list| ensures SoundAt(mode, list, i) <==> MatchesFirst(mode, list, i) {
      FindsFirst(mode, list, Trim(CursorOf(mode, list[i])));
      assert list[i] in list;
    }
    forall i: nat ensures |list| <= i ==> SoundAt(mode, list, i) {}
  }

  // ----- Following the cursors -----

  lemma NextStart(mode: Mode, list: seq<Row>, start: nat, limit: nat)
    requires Sound(mode, list) && start <= |list| && limit >= 1 && PageAt(mode, list, start, limit).hasMore
    ensures PageAt(mode, list, start, limit).nextCursor.Some?
    ensures StartIndex(mode, list, PageAt(mode, list, start, limit).nextCursor.value) == start + limit
  {
    assert PageAt(mode, list, start, limit).messages[limit - 1] == list[start + limit - 1];
    assert SoundAt(mode, list, start + limit - 1);
  }

  /** All pages from a cursor on, each fetched with the cursor of the one before, until there is no more. */
  function Walk(mode: Mode, list: seq<Row>, before: string, limit: nat): seq<Row>
    requires Sound(mode, list) && limit >= 1
    decreases |list| - StartIndex(mode, list, before)
  {
    var page := PageAfter(mode, list, before, limit);
    if !page.hasMore then page.messages
    else
      NextStart(mode, list, StartIndex(mode, list, before), limit);
      page.messages + Walk(mode, list, page.nextCursor.value, limit)
  }

  /** The walk ends, and its pages together are exactly the rows below the cursor, without gap or repeat. */
  lemma {:induction false} WalkRebuilds(mode: Mode, list: seq<Row>, before: string, limit: nat)
    requires Sound(mode, list) && limit >= 1
    ensures Walk(mode, list, before, limit) == list[StartIndex(mode, list, before)..]
    decreases |list| - StartIndex(mode, list, before)
  {
    var start := StartIndex(mode, list, before);
    var page := PageAfter(mode, list, before, limit);
    if page.hasMore {
      NextStart(mode, list, start, limit);
      WalkRebuilds(mode, list, page.nextCursor.value, limit);
      assert list[start..] == page.messages + list[start + limit..];
    }
  }

  lemma FullWalk(mode: Mode, list: seq<Row>, limit: nat)
    requires Sound(mode, list) && limit >= 1
    ensures Walk(mode, list, "", limit) == list
  {
    WalkRebuilds(mode, list, "", limit);
  }

  // ----- Inserts between fetches -----

  lemma NewestIsStrictOrder(mode: Mode)
    ensures StrictOrder(Newest(mode))
  {
    var newer := Newest(mode);
    forall x: Row ensures !newer(x, x) {
      LessIrreflexive(SortKey(mode, x));
    }
    forall x: Row, y: Row, z: Row | newer(x, y) && newer(y, z) ensures newer(x, z) {
      if x.timestamp == y.timestamp == z.timestamp {
        LessTransitive(SortKey(mode, z), SortKey(mode, y), SortKey(mode, x));
      }
    }
  }

  lemma NotNewer(newer: (Row, Row) -> bool, list: seq<Row>, i: nat)
    requires StrictOrder(newer) && Ascending(newer, list) && i < |list|
    ensures forall k | 0 <= k <= i :: !newer(list[i], list[k])
  {
    forall k | 0 <= k <= i ensures !newer(list[i], list[k]) {
      assert k == i || newer(list[k], list[i]);
    }
  }

  /** Below a row of a sorted list is everything the row is newer than. */
  lemma BelowRow(mode: Mode, list: seq<Row>, i: nat)
    requires Ascending(Newest(mode), list) && i < |list|
    ensures Ascending(Newest(mode), list[i + 1..])
    ensures forall r :: r in list[i + 1..] <==> r in list && NewerThan(mode, list[i], r)
  {
    NewestIsStrictOrder(mode);
    var newer := Newest(mode);
    forall r ensures r in list[i + 1..] <==> r in list && NewerThan(mode, list[i], r) {
      if r in list[i + 1..] {
        var k :| 0 <= k < |list| - i - 1 && list[i + 1..][k] == r;
        assert list[i + 1 + k] == r && newer(list[i], r);
      }
      if r in list && NewerThan(mode, list[i], r) {
        var k :| 0 <= k < |list| && list[k] == r;
        NotNewer(newer, list, i);
        assert list[i + 1..][k - i - 1] == r;
      }
    }
  }

  /** Both lists hold the cursor row and the same rows below it; above it they may differ. */
  ghost predicate SameBelow(mode: Mode, a: seq<Row>, b: seq<Row>, c: Row) {
    c in a && c in b && forall r | NewerThan(mode, c, r) :: r in a <==> r in b
  }

  lemma SameRest(mode: Mode, a: seq<Row>, b: seq<Row>, i: nat, j: nat)
    requires Ascending(Newest(mode), a) && Ascending(Newest(mode), b)
    requires i < |a| && j < |b| && a[i] == b[j] && SameBelow(mode, a, b, a[i])
    ensures a[i + 1..] == b[j + 1..]
  {
    BelowRow(mode, a, i);
    BelowRow(mode, b, j);
    NewestIsStrictOrder(mode);
    AscendingUnique(Newest(mode), a[i + 1..], b[j + 1..]);
  }

  lemma SamePage(mode: Mode, a: seq<Row>, b: seq<Row>, i: nat, j: nat, limit: nat)
    requires i <= |a| && j <= |b| && a[i..] == b[j..]
    ensures PageAt(mode, a, i, limit) == PageAt(mode, b, j, limit)
  {
    assert |a| - i == |a[i..]| == |b[j..]| == |b| - j;
  }

  lemma CursorPlace(mode: Mode, list: seq<Row>, c: Row) returns (i: nat)
    requires Sound(mode, list) && c in list
    ensures i < |list| && list[i] == c && StartIndex(mode, list, CursorOf(mode, c)) == i + 1
  {
    i :| i < |list| && list[i] == c;
    assert SoundAt(mode, list, i);
  }

  /** A page is a function of the cursor row and the rows below it. */
  lemma PageDependsOnlyBelow(mode: Mode, a: seq<Row>, b: seq<Row>, c: Row, limit: nat)
    requires Ascending(Newest(mode), a) && Ascending(Newest(mode), b) && Sound(mode, a) && Sound(mode, b)
    requires SameBelow(mode, a, b, c)
    ensures PageAfter(mode, a, CursorOf(mode, c), limit) == PageAfter(mode, b, CursorOf(mode, c), limit)
  {
    var i := CursorPlace(mode, a, c);
    var j := CursorPlace(mode, b, c);
    SameRest(mode, a, b, i, j);
    SamePage(mode, a, b, i + 1, j + 1, limit);
  }

  lemma SameFurtherBelow(mode: Mode, a: seq<Row>, b: seq<Row>, c: Row, d: Row)
    requires SameBelow(mode, a, b, c) && d in a && NewerThan(mode, c, d)
    ensures SameBelow(mode, a, b, d)
  {
    NewestIsStrictOrder(mode);
    var newer := Newest(mode);
    forall r | NewerThan(mode, d, r) ensures r in a <==> r in b {
      assert newer(c, d) && newer(d, r);
    }
  }

  /** Fetches the k-th page from the k-th list, following the cursors; the lists may change between fetches. */
  function WalkOver(mode: Mode, lists: seq<seq<Row>>, before: string, limit: nat): seq<Row>
    requires limit >= 1
  {
    if lists == [] then []
    else
      var page := PageAfter(mode, lists[0], before, limit);
      if page.hasMore then page.messages + WalkOver(mode, lists[1..], page.nextCursor.value, limit) else page.messages
  }

  ghost predicate Follows(mode: Mode, list: seq<Row>, lists: seq<seq<Row>>, c: Row) {
    forall l | l in lists :: Ascending(Newest(mode), l) && Sound(mode, l) && SameBelow(mode, list, l, c)
  }

  /** A page that is not the last one. */
  lemma PageEnd(mode: Mode, list: seq<Row>, i: nat, limit: nat)
    requires limit >= 1 && i + 1 + limit < |list|
    ensures PageAt(mode, list, i + 1, limit)
      == Page(list[i + 1..i + 1 + limit], Some(CursorOf(mode, list[i + limit])), true)
  {
    assert list[i + 1..][..limit] == list[i + 1..i + 1 + limit];
  }

  function Times(pages: nat, limit: nat): (n: nat)
    ensures n == pages * limit
  {
    if pages == 0 then 0 else limit + Times(pages - 1, limit)
  }

  /** `got` is the first `pages` full pages of `rest`, or all of it. */
  predicate FirstPages(got: seq<Row>, rest: seq<Row>, pages: nat, limit: nat) {
    got == rest || (|got| == Times(pages, limit) && |got| <= |rest| && got == rest[..|got|])
  }

  lemma OnePageMore(page: seq<Row>, got: seq<Row>, rest: seq<Row>, pages: nat, limit: nat)
    requires FirstPages(got, rest, pages, limit) && |page| == limit
    ensures FirstPages(page + got, page + rest, pages + 1, limit)
  {}

  lemma NoPages(rest: seq<Row>, limit: nat)
    ensures FirstPages([], rest, 0, limit)
  {}

  lemma SamePageFrom(mode: Mode, list: seq<Row>, other: seq<Row>, i: nat, limit: nat)
    requires i < |list| && Ascending(Newest(mode), list) && Ascending(Newest(mode), other) && Sound(mode, list)
      && Sound(mode, other)
    requires SameBelow(mode, list, other, list[i])
    ensures PageAfter(mode, other, CursorOf(mode, list[i]), limit) == PageAt(mode, list, i + 1, limit)
  {
    PageDependsOnlyBelow(mode, list, other, list[i], limit);
    assert SoundAt(mode, list, i);
  }

  lemma LastPage(mode: Mode, list: seq<Row>, start: nat, limit: nat)
    requires start <= |list| <= start + limit
    ensures PageAt(mode, list, start, limit) == Page(list[start..], None, false)
  {}

  lemma LaterFetches(mode: Mode, lists: seq<seq<Row>>, before: string, limit: nat, page: seq<Row>, next: string)
    requires limit >= 1 && lists != [] && PageAfter(mode, lists[0], before, limit) == Page(page, Some(next), true)
    ensures WalkOver(mode, lists, before, limit) == page + WalkOver(mode, lists[1..], next, limit)
  {}

  lemma OnlyFetch(mode: Mode, lists: seq<seq<Row>>, before: string, limit: nat, page: seq<Row>)
    requires limit >= 1 && lists != [] && PageAfter(mode, lists[0], before, limit) == Page(page, None, false)
    ensures WalkOver(mode, lists, before, limit) == page
  {}

  /** The other list gives the page below row j that this list gives. */
  ghost predicate Agrees(mode: Mode, list: seq<Row>, other: seq<Row>, j: nat, limit: nat) {
    j < |list| ==> PageAfter(mode, other, CursorOf(mode, list[j]), limit) == PageAt(mode, list, j + 1, limit)
  }

  /** Fetch after fetch, following the cursors down from row i. */
  ghost predicate AgreeDown(mode: Mode, list: seq<Row>, lists: seq<seq<Row>>, i: nat, limit: nat)
    decreases |lists|
  {
    lists == [] || (Agrees(mode, list, lists[0], i, limit) && AgreeDown(mode, list, lists[1..], i + limit, limit))
  }

  lemma FollowerAgrees(mode: Mode, list: seq<Row>, other: seq<Row>, i: nat, j: nat, limit: nat)
    requires Ascending(Newest(mode), list) && Sound(mode, list) && Ascending(Newest(mode), other) && Sound(mode, other)
    requires i <= j && i < |list| && SameBelow(mode, list, other, list[i])
    ensures Agrees(mode, list, other, j, limit)
  {
    var newer := Newest(mode);
    if j < |list| {
      if i < j {
        assert newer(list[i], list[j]);
        SameFurtherBelow(mode, list, other, list[i], list[j]);
      }
      SamePageFrom(mode, list, other, j, limit);
    }
  }

  lemma {:induction false} FollowersAgree(mode: Mode, list: seq<Row>, lists: seq<seq<Row>>, i: nat, j: nat, limit: nat)
    requires Ascending(Newest(mode), list) && Sound(mode, list) && i <= j && i < |list|
      && Follows(mode, list, lists, list[i])
    ensures AgreeDown(mode, list, lists, j, limit)
    decreases |lists|
  {
    if lists != [] {
      assert lists[0] in lists;
      FollowerAgrees(mode, list, lists[0], i, j, limit);
      forall l | l in lists[1..] ensures l in lists {}
      FollowersAgree(mode, list, lists[1..], i, j + limit, limit);
    }
  }

  ghost predicate Delivers(mode: Mode, list: seq<Row>, lists: seq<seq<Row>>, i: nat, limit: nat)
    requires limit >= 1 && i < |list|
  {
    FirstPages(WalkOver(mode, lists, CursorOf(mode, list[i]), limit), list[i + 1..], |lists|, limit)
  }

  lemma DeliversMore(mode: Mode, list: seq<Row>, lists: seq<seq<Row>>, i: nat, limit: nat)
    requires limit >= 1 && i + 1 + limit < |list| && lists != []
    requires Agrees(mode, list, lists[0], i, limit) && Delivers(mode, list, lists[1..], i + limit, limit)
    ensures Delivers(mode, list, lists, i, limit)
  {
    var page, next := list[i + 1..i + 1 + limit], list[i + limit + 1..];
    PageEnd(mode, list, i, limit);
    LaterFetches(mode, lists, CursorOf(mode, list[i]), limit, page, CursorOf(mode, list[i + limit]));
    OnePageMore(page, WalkOver(mode, lists[1..], CursorOf(mode, list[i + limit]), limit), next, |lists| - 1, limit);
    assert list[i + 1..] == page + next;
  }

  lemma DeliversLast(mode: Mode, list: seq<Row>, lists: seq<seq<Row>>, i: nat, limit: nat)
    requires limit >= 1 && i < |list| <= i + 1 + limit && lists != [] && Agrees(mode, list, lists[0], i, limit)
    ensures Delivers(mode, list, lists, i, limit)
  {
    LastPage(mode, list, i + 1, limit);
    OnlyFetch(mode, lists, CursorOf(mode, list[i]), limit, list[i + 1..]);
  }

  lemma DeliversNone(mode: Mode, list: seq<Row>, i: nat, limit: nat)
    requires limit >= 1 && i < |list|
    ensures Delivers(mode, list, [], i, limit)
  {
    NoPages(list[i + 1..], limit);
  }

  lemma {:induction false} PagesBelow(mode: Mode, list: seq<Row>, lists: seq<seq<Row>>, i: nat, limit: nat)
    requires limit >= 1 && i < |list| && AgreeDown(mode, list, lists, i, limit)
    ensures Delivers(mode, list, lists, i, limit)
    decreases |lists|
  {
    if lists == [] {
      DeliversNone(mode, list, i, limit);
    } else if i + 1 + limit < |list| {
      PagesBelow(mode, list, lists[1..], i + limit, limit);
      DeliversMore(mode, list, lists, i, limit);
    } else {
      DeliversLast(mode, list, lists, i, limit);
    }
  }

  /** Once a cursor is held, later changes above it neither skip nor repeat a row. */
  lemma InsertsChangeNothing(mode: Mode, list: seq<Row>, lists: seq<seq<Row>>, c: Row, limit: nat)
    requires limit >= 1 && c in list && Ascending(Newest(mode), list) && Sound(mode, list)
      && Follows(mode, list, lists, c)
    ensures FirstPages(WalkOver(mode, lists, CursorOf(mode, c), limit),
                       list[StartIndex(mode, list, CursorOf(mode, c))..], |lists|, limit)
  {
    var i := CursorPlace(mode, list, c);
    FollowersAgree(mode, list, lists, i, i, limit);
    PagesBelow(mode, list, lists, i, limit);
  }
}
