/** The stable comparison sort the services call, and the facts every ordered listing needs. */
module Sorting {

  ghost predicate StrictOrder<T(!new)>(lt: (T, T) -> bool) {
    && (forall x :: !lt(x, x))
    && (forall x, y, z :: lt(x, y) && lt(y, z) ==> lt(x, z))
  }

  /** Any two entries at different positions are comparable: no two entries tie. */
  ghost predicate TieFree<T(!new)>(lt: (T, T) -> bool, s: seq<T>) {
    forall i, j :: 0 <= i < j < |s| ==> lt(s[i], s[j]) || lt(s[j], s[i])
  }

  ghost predicate Ascending<T(!new)>(lt: (T, T) -> bool, s: seq<T>) {
    forall i, j :: 0 <= i < j < |s| ==> lt(s[i], s[j])
  }

  /** Insert before the first entry that `x` precedes. */
  function Insert<T>(lt: (T, T) -> bool, x: T, s: seq<T>): (r: seq<T>)
    ensures multiset(r) == multiset{x} + multiset(s)
    ensures |r| == |s| + 1
  {
    if s == [] then [x]
    else if lt(x, s[0]) then
      [x] + s
    else
      assert s == [s[0]] + s[1..];
      [s[0]] + Insert(lt, x, s[1..])
  }

  function Sort<T>(lt: (T, T) -> bool, s: seq<T>): (r: seq<T>)
    ensures multiset(r) == multiset(s)
    ensures |r| == |s|
  {
    if s == [] then []
    else
      assert s == s[..|s| - 1] + [s[|s| - 1]];
      Insert(lt, s[|s| - 1], Sort(lt, s[..|s| - 1]))
  }

  lemma SameElements<T>(a: seq<T>, b: seq<T>, x: T)
    requires multiset(a) == multiset(b)
    ensures x in a <==> x in b
  {
    assert x in a <==> x in multiset(a);
    assert x in b <==> x in multiset(b);
  }

  lemma InsertAscending<T(!new)>(lt: (T, T) -> bool, x: T, s: seq<T>)
    requires StrictOrder(lt) && Ascending(lt, s)
    requires forall y | y in s :: lt(x, y) || lt(y, x)
    ensures Ascending(lt, Insert(lt, x, s))
  {
    if s != [] && !lt(x, s[0]) {
      var rest := s[1..];
      InsertAscending(lt, x, rest);
      var r := Insert(lt, x, rest);
      forall y | y in r ensures lt(s[0], y) {
        assert y in multiset(r);
        assert y == x || y in rest;
      }
    } else if s != [] {
      forall k | 0 <= k < |s| ensures lt(x, s[k]) {
        assert k > 0 ==> lt(s[0], s[k]);
      }
    }
  }

  lemma SortAscending<T(!new)>(lt: (T, T) -> bool, s: seq<T>)
    requires StrictOrder(lt) && TieFree(lt, s)
    ensures Ascending(lt, Sort(lt, s))
  {
    if s != [] {
      var front, x := s[..|s| - 1], s[|s| - 1];
      SortAscending(lt, front);
      forall y | y in Sort(lt, front) ensures lt(x, y) || lt(y, x) {
        SameElements(Sort(lt, front), front, y);
        var k :| 0 <= k < |front| && front[k] == y;
        assert s[k] == y;
      }
      InsertAscending(lt, x, Sort(lt, front));
    }
  }

  lemma HeadIsLeast<T(!new)>(lt: (T, T) -> bool, s: seq<T>, x: T)
    requires Ascending(lt, s) && x in s
    ensures x == s[0] || lt(s[0], x)
  {}

  lemma SomeElement<T(!new)>(s: seq<T>)
    ensures s == [] || exists x :: x in s
  {
    if s != [] {
      assert s[0] in s;
    }
  }

  /** An ascending listing is determined by its elements. */
  lemma {:induction false} AscendingUnique<T(!new)>(lt: (T, T) -> bool, a: seq<T>, b: seq<T>)
    requires StrictOrder(lt) && Ascending(lt, a) && Ascending(lt, b)
    requires forall x :: x in a <==> x in b
    ensures a == b
  {
    if a == [] {
      SomeElement(b);
    } else if b == [] {
      SomeElement(a);
    } else {
      var x, y := a[0], b[0];
      assert x in a && y in b;
      HeadIsLeast(lt, b, x);
      HeadIsLeast(lt, a, y);
      forall z ensures z in a[1..] <==> z in b[1..] {
        TailElements(lt, a, 0, z);
        TailElements(lt, b, 0, z);
      }
      AscendingUnique(lt, a[1..], b[1..]);
      assert a == [x] + a[1..] && b == [y] + b[1..];
    }
  }

  lemma TailAscends<T(!new)>(lt: (T, T) -> bool, s: seq<T>, k: nat)
    requires Ascending(lt, s) && k <= |s|
    ensures Ascending(lt, s[k..])
  {}

  lemma LaterIndex<T(!new)>(lt: (T, T) -> bool, s: seq<T>, k: nat, i: nat)
    requires StrictOrder(lt) && Ascending(lt, s) && k < |s| && i < |s| && lt(s[k], s[i])
    ensures k < i
  {}

  /** What follows the k-th entry is what it precedes. */
  lemma TailElements<T(!new)>(lt: (T, T) -> bool, s: seq<T>, k: nat, x: T)
    requires StrictOrder(lt) && Ascending(lt, s) && k < |s|
    ensures x in s[k + 1..] <==> x in s && lt(s[k], x)
  {
    if x in s && lt(s[k], x) {
      var i :| 0 <= i < |s| && s[i] == x;
      LaterIndex(lt, s, k, i);
      assert s[k + 1..][i - k - 1] == x;
    }
    if x in s[k + 1..] {
      var i :| 0 <= i < |s[k + 1..]| && s[k + 1..][i] == x;
      assert s[k + 1 + i] == x;
    }
  }

  /** JavaScript's slice(0, limit): a negative limit counts from the end. */
  function Take<T>(s: seq<T>, limit: int): seq<T> {
    if limit >= |s| then s
    else if limit >= 0 then s[..limit]
    else if |s| + limit > 0 then s[..|s| + limit]
    else []
  }

  function Filter<T(!new)>(p: T -> bool, s: seq<T>): (r: seq<T>)
    ensures forall x :: x in r <==> x in s && p(x)
  {
    if s == [] then []
    else
      assert s == [s[0]] + s[1..];
      if p(s[0]) then [s[0]] + Filter(p, s[1..]) else Filter(p, s[1..])
  }

  lemma FilterAppend<T(!new)>(p: T -> bool, a: seq<T>, b: seq<T>)
    ensures Filter(p, a + b) == Filter(p, a) + Filter(p, b)
  {
    if a == [] {
      assert a + b == b;
    } else {
      assert (a + b)[1..] == a[1..] + b;
    }
  }

  lemma FilterStep<T(!new)>(p: T -> bool, s: seq<T>, i: nat)
    requires i < |s|
    ensures Filter(p, s[..i + 1]) == if p(s[i]) then Filter(p, s[..i]) + [s[i]] else Filter(p, s[..i])
  {
    assert s[..i + 1] == s[..i] + [s[i]];
    FilterAppend(p, s[..i], [s[i]]);
  }

  lemma {:induction false} FilterSame<T(!new)>(p: T -> bool, q: T -> bool, s: seq<T>)
    requires forall x | x in s :: p(x) == q(x)
    ensures Filter(p, s) == Filter(q, s)
  {
    if s != [] {
      FilterSame(p, q, s[1..]);
    }
  }

  lemma FilterAscending<T(!new)>(lt: (T, T) -> bool, p: T -> bool, s: seq<T>)
    requires Ascending(lt, s)
    ensures Ascending(lt, Filter(p, s))
  {
    if s != [] {
      FilterAscending(lt, p, s[1..]);
      forall x | x in s[1..] ensures lt(s[0], x) {}
    }
  }

  // ----- No entry twice -----

  ghost predicate Once<T(!new)>(s: seq<T>) {
    forall x :: multiset(s)[x] <= 1
  }

  lemma OnceDiffer<T(!new)>(s: seq<T>, i: nat, j: nat)
    requires Once(s) && i < j < |s|
    ensures s[i] != s[j]
  {
    assert s == s[..j] + s[j..] && s[i] == s[..j][i] && s[j] == s[j..][0];
    assert s[..j][i] in multiset(s[..j]) && s[j..][0] in multiset(s[j..]);
    assert multiset(s)[s[i]] == multiset(s[..j])[s[i]] + multiset(s[j..])[s[i]];
  }

  lemma {:induction false} OnceAppend<T(!new)>(a: seq<T>, b: seq<T>)
    requires Once(a) && Once(b) && forall x | x in a :: x !in b
    ensures Once(a + b)
  {
    forall x ensures multiset(a + b)[x] <= 1 {
      assert multiset(a + b)[x] == multiset(a)[x] + multiset(b)[x];
      assert x in a <==> x in multiset(a);
      assert x in b <==> x in multiset(b);
    }
  }

  lemma {:induction false} OnceFilter<T(!new)>(p: T -> bool, s: seq<T>)
    requires Once(s)
    ensures Once(Filter(p, s))
  {
    FilterIsPart(p, s);
  }

  lemma {:induction false} FilterIsPart<T(!new)>(p: T -> bool, s: seq<T>)
    ensures multiset(Filter(p, s)) <= multiset(s)
  {
    if s != [] {
      FilterIsPart(p, s[1..]);
      assert s == [s[0]] + s[1..];
    }
  }

  lemma {:induction false} DifferOnce<T(!new)>(s: seq<T>)
    requires forall i, j | 0 <= i < j < |s| :: s[i] != s[j]
    ensures Once(s)
  {
    if s == [] {
    } else {
      var rest := s[1..];
      DifferOnce(rest);
      assert s == [s[0]] + rest;
      assert s[0] !in rest;
      OnceAppend([s[0]], rest);
    }
  }
}
