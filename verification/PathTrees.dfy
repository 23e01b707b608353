/**
  Trees of update fields, compared key by key: which leaves they name, and when two of them name the same
  leaf or one above another. Keys may be dotted and may have white space at their ends.
 */
module PathTrees {
  import opened Text
  import opened UpdateGuard

  type Segments = seq<string>

  /** A field of an object leads on with its whole key; a leaf's name ends without white space. */
  function NameOf(key: string, v: Value): Segments {
    Split(if v.Scalar? then TrimRight(key) else key, '.')
  }

  predicate Comparable(s: Segments, t: Segments) {
    s <= t || t <= s
  }

  /** Some field of the object, at any depth, holds something other than an object. */
  predicate AnyLeaf(f: Fields) {
    f.Field? && (HasLeaf(f.value) || AnyLeaf(f.rest))
  }

  predicate HasLeaf(v: Value) {
    v.Obj? ==> AnyLeaf(v.fields)
  }

  function Size(f: Fields): nat {
    match f
    case Nil => 0
    case Field(_, value, rest) => 1 + SizeOf(value) + Size(rest)
  }

  function SizeOf(v: Value): nat {
    if v.Obj? then Size(v.fields) else 0
  }

  function Single(key: string, v: Value): (f: Fields)
    ensures Size(f) == 1 + SizeOf(v)
  {
    Field(key, v, Nil)
  }

  /**
    Two fields overlap. With one key the objects below them must overlap, or one is a leaf and the other has
    leaves. Where one key goes on below the other, the rest of it is followed through the shorter one's value:
    through an object, field by field, until it reaches a leaf or ends inside an object that has one.
   */
  predicate FieldsOverlap(k: string, v: Value, l: string, w: Value)
    decreases 2 + SizeOf(v) + SizeOf(w), 0
  {
    var a, b := NameOf(k, v), NameOf(l, w);
    if v.Obj? && w.Obj? && a == b then Overlap(v.fields, w.fields)
    else if v.Obj? && a < b then Overlap(v.fields, Single(Join(b[|a|..], '.'), w))
    else if w.Obj? && b < a then Overlap(Single(Join(a[|b|..], '.'), v), w.fields)
    else Comparable(a, b) && HasLeaf(v) && HasLeaf(w)
  }

  predicate OverlapsSome(k: string, v: Value, g: Fields)
    decreases 1 + SizeOf(v) + Size(g), 1
  {
    g.Field? && (FieldsOverlap(k, v, g.key, g.value) || OverlapsSome(k, v, g.rest))
  }

  predicate Overlap(f: Fields, g: Fields)
    decreases Size(f) + Size(g), 2
  {
    f.Field? && (OverlapsSome(f.key, f.value, g) || Overlap(f.rest, g))
  }

  /** No field overlaps another one of its object. */
  predicate NoneTwice(f: Fields) {
    f.Field? ==>
      && !OverlapsSome(f.key, f.value, f.rest)
      && (f.value.Obj? ==> NoneTwice(f.value.fields))
      && NoneTwice(f.rest)
  }

  // ----- The names of the leaves -----

  function Prefixed(a: Segments, ss: seq<Segments>): seq<Segments> {
    seq(|ss|, i requires 0 <= i < |ss| => a + ss[i])
  }

  function Names(f: Fields): seq<Segments>
    decreases f
  {
    match f
    case Nil => []
    case Field(key, value, rest) => NamesAt(key, value) + Names(rest)
  }

  function NamesAt(key: string, v: Value): seq<Segments>
    decreases v
  {
    if v.Scalar? then [NameOf(key, v)] else Prefixed(NameOf(key, v), Names(v.fields))
  }

  /** No name of one list is a name of the other, nor above or below one. */
  ghost predicate Cross(ss: seq<Segments>, tt: seq<Segments>) {
    forall s, t | s in ss && t in tt :: !Comparable(s, t)
  }

  ghost predicate Apart(ss: seq<Segments>) {
    forall i, j | 0 <= i < j < |ss| :: !Comparable(ss[i], ss[j])
  }

  lemma CrossAppend(ss: seq<Segments>, tt: seq<Segments>, uu: seq<Segments>)
    ensures Cross(ss, tt + uu) <==> Cross(ss, tt) && Cross(ss, uu)
    ensures Cross(tt + uu, ss) <==> Cross(tt, ss) && Cross(uu, ss)
  {
    assert forall t | t in tt :: t in tt + uu;
    assert forall t | t in uu :: t in tt + uu;
  }

  lemma ApartAppend(ss: seq<Segments>, tt: seq<Segments>)
    ensures Apart(ss + tt) <==> Apart(ss) && Apart(tt) && Cross(ss, tt)
  {
    var all := ss + tt;
    if Apart(all) {
      forall i, j | 0 <= i < j < |ss| ensures !Comparable(ss[i], ss[j]) {
        assert all[i] == ss[i] && all[j] == ss[j];
      }
      forall i, j | 0 <= i < j < |tt| ensures !Comparable(tt[i], tt[j]) {
        assert all[|ss| + i] == tt[i] && all[|ss| + j] == tt[j];
      }
      forall s, t | s in ss && t in tt ensures !Comparable(s, t) {
        var i :| 0 <= i < |ss| && ss[i] == s;
        var j :| 0 <= j < |tt| && tt[j] == t;
        assert all[i] == s && all[|ss| + j] == t;
      }
    }
  }

  lemma SameFrontComparable(a: Segments, s: Segments, t: Segments)
    ensures Comparable(a + s, a + t) <==> Comparable(s, t)
  {
    assert (a + s)[|a|..] == s && (a + t)[|a|..] == t;
  }

  lemma PrefixedApart(a: Segments, ss: seq<Segments>)
    ensures Apart(Prefixed(a, ss)) <==> Apart(ss)
  {
    forall i, j | 0 <= i < j < |ss| ensures Comparable(a + ss[i], a + ss[j]) <==> Comparable(ss[i], ss[j]) {
      SameFrontComparable(a, ss[i], ss[j]);
    }
    if Apart(Prefixed(a, ss)) {
      forall i, j | 0 <= i < j < |ss| ensures !Comparable(ss[i], ss[j]) {
        assert Prefixed(a, ss)[i] == a + ss[i] && Prefixed(a, ss)[j] == a + ss[j];
      }
    }
  }

  lemma PrefixedHas(a: Segments, ss: seq<Segments>, s: Segments)
    ensures a + s in Prefixed(a, ss) <==> s in ss
    ensures forall t | t in Prefixed(a, ss) :: a <= t && t[|a|..] in ss
  {
    forall t | t in Prefixed(a, ss) ensures a <= t && t[|a|..] in ss {
      var i :| 0 <= i < |ss| && Prefixed(a, ss)[i] == t;
      assert t[|a|..] == ss[i];
    }
    if s in ss {
      var i :| 0 <= i < |ss| && ss[i] == s;
      assert Prefixed(a, ss)[i] == a + s;
    }
    assert (a + s)[|a|..] == s;
  }

  lemma PrefixedCross(a: Segments, ss: seq<Segments>, tt: seq<Segments>)
    ensures Cross(Prefixed(a, ss), Prefixed(a, tt)) <==> Cross(ss, tt)
  {
    forall s, t | s in ss && t in tt
      ensures a + s in Prefixed(a, ss) && a + t in Prefixed(a, tt) && (Comparable(a + s, a + t) <==> Comparable(s, t))
    {
      PrefixedHas(a, ss, s);
      PrefixedHas(a, tt, t);
      SameFrontComparable(a, s, t);
    }
    if Cross(ss, tt) {
      forall s, t | s in Prefixed(a, ss) && t in Prefixed(a, tt) ensures !Comparable(s, t) {
        PrefixedHas(a, ss, s);
        PrefixedHas(a, tt, t);
        assert s == a + s[|a|..] && t == a + t[|a|..];
        SameFrontComparable(a, s[|a|..], t[|a|..]);
      }
    }
  }

  lemma {:induction false} SomeName(f: Fields)
    ensures Names(f) != [] <==> AnyLeaf(f)
    decreases f
  {
    if f.Field? {
      SomeName(f.rest);
      if f.value.Obj? { SomeName(f.value.fields); }
    }
  }

  lemma SomeNameAt(key: string, v: Value)
    ensures NamesAt(key, v) != [] <==> HasLeaf(v)
    ensures forall s | s in NamesAt(key, v) :: NameOf(key, v) <= s
  {
    if v.Obj? {
      SomeName(v.fields);
      PrefixedHas(NameOf(key, v), Names(v.fields), []);
    }
  }

  // ----- Overlapping is having comparable names -----

  /** The rest of a key behind some of its segments has the remaining segments as its name. */
  lemma RestName(key: string, v: Value, n: nat)
    requires 0 < n < |NameOf(key, v)|
    ensures NameOf(Join(NameOf(key, v)[n..], '.'), v) == NameOf(key, v)[n..]
  {
    var whole := if v.Scalar? then TrimRight(key) else key;
    var b := NameOf(key, v);
    var rest := Join(b[n..], '.');
    JoinSplit(whole, '.');
    JoinAppend(b[..n], b[n..], '.');
    assert b == b[..n] + b[n..];
    assert whole == Join(b[..n], '.') + "." + rest;
    if v.Scalar? {
      TrimRightEnds(key);
      assert rest != "" ==> rest[|rest| - 1] == whole[|whole| - 1];
      assert TrimRight(rest) == rest;
    }
    assert forall p | p in b[n..] :: p in b;
    SplitJoin(b[n..], '.');
  }

  lemma RestNames(key: string, v: Value, n: nat)
    requires 0 < n < |NameOf(key, v)|
    ensures NamesAt(key, v) == Prefixed(NameOf(key, v)[..n], Names(Single(Join(NameOf(key, v)[n..], '.'), v)))
  {
    var b := NameOf(key, v);
    var rest := Join(b[n..], '.');
    RestName(key, v, n);
    assert Names(Single(rest, v)) == NamesAt(rest, v) + Names(Nil);
    assert b[..n] + b[n..] == b;
    if v.Obj? {
      PrefixedTwice(b[..n], b[n..], Names(v.fields));
    }
  }

  lemma PrefixedTwice(a: Segments, b: Segments, ss: seq<Segments>)
    ensures Prefixed(a, Prefixed(b, ss)) == Prefixed(a + b, ss)
  {
    forall i | 0 <= i < |ss| ensures Prefixed(a, Prefixed(b, ss))[i] == Prefixed(a + b, ss)[i] {
      assert a + (b + ss[i]) == (a + b) + ss[i];
    }
  }

  lemma StillCross(k: string, v: Value, l: string, w: Value)
    requires !Comparable(NameOf(k, v), NameOf(l, w))
    ensures Cross(NamesAt(k, v), NamesAt(l, w))
  {
    var a, b := NameOf(k, v), NameOf(l, w);
    SomeNameAt(k, v);
    SomeNameAt(l, w);
    forall s, t | s in NamesAt(k, v) && t in NamesAt(l, w) ensures !Comparable(s, t) {
      var n := if |a| < |b| then |a| else |b|;
      assert s[..n] == a[..n] && t[..n] == b[..n];
    }
  }

  /** A leaf at or above everything the other field names. */
  lemma LeafAbove(k: string, v: Value, l: string, w: Value)
    requires v.Scalar? && NameOf(k, v) <= NameOf(l, w)
    ensures Cross(NamesAt(k, v), NamesAt(l, w)) <==> !HasLeaf(w)
    ensures Cross(NamesAt(l, w), NamesAt(k, v)) <==> !HasLeaf(w)
  {
    SomeNameAt(l, w);
    assert NamesAt(k, v) == [NameOf(k, v)];
    assert NameOf(k, v) in NamesAt(k, v);
    if HasLeaf(w) { assert NamesAt(l, w)[0] in NamesAt(l, w); }
  }

  lemma {:induction false} FieldsOverlapIff(k: string, v: Value, l: string, w: Value)
    ensures FieldsOverlap(k, v, l, w) <==> !Cross(NamesAt(k, v), NamesAt(l, w))
    decreases 2 + SizeOf(v) + SizeOf(w), 0
  {
    var a, b := NameOf(k, v), NameOf(l, w);
    if v.Obj? && w.Obj? && a == b {
      OverlapIff(v.fields, w.fields);
      PrefixedCross(a, Names(v.fields), Names(w.fields));
    } else if v.Obj? && a < b {
      var rest := Single(Join(b[|a|..], '.'), w);
      OverlapIff(v.fields, rest);
      RestNames(l, w, |a|);
      assert b[..|a|] == a;
      PrefixedCross(a, Names(v.fields), Names(rest));
    } else if w.Obj? && b < a {
      var rest := Single(Join(a[|b|..], '.'), v);
      OverlapIff(rest, w.fields);
      RestNames(k, v, |b|);
      assert a[..|b|] == b;
      PrefixedCross(b, Names(rest), Names(w.fields));
    } else if !Comparable(a, b) {
      StillCross(k, v, l, w);
    } else if v.Scalar? && a <= b {
      LeafAbove(k, v, l, w);
    } else {
      LeafAbove(l, w, k, v);
    }
  }

  lemma {:induction false} OverlapsSomeIff(k: string, v: Value, g: Fields)
    ensures OverlapsSome(k, v, g) <==> !Cross(NamesAt(k, v), Names(g))
    decreases 1 + SizeOf(v) + Size(g), 1
  {
    if g.Field? {
      FieldsOverlapIff(k, v, g.key, g.value);
      OverlapsSomeIff(k, v, g.rest);
      CrossAppend(NamesAt(k, v), NamesAt(g.key, g.value), Names(g.rest));
    }
  }

  /** Two trees overlap exactly when a leaf of one has the name of a leaf of the other, or one above or below it. */
  lemma {:induction false} OverlapIff(f: Fields, g: Fields)
    ensures Overlap(f, g) <==> !Cross(Names(f), Names(g))
    decreases Size(f) + Size(g), 2
  {
    if f.Field? {
      OverlapsSomeIff(f.key, f.value, g);
      OverlapIff(f.rest, g);
      CrossAppend(Names(g), NamesAt(f.key, f.value), Names(f.rest));
    }
  }

  /** No field overlaps another exactly when all leaf names are apart. */
  lemma {:induction false} NoneTwiceIff(f: Fields)
    ensures NoneTwice(f) <==> Apart(Names(f))
    decreases f
  {
    if f.Field? {
      OverlapsSomeIff(f.key, f.value, f.rest);
      NoneTwiceIff(f.rest);
      ApartAppend(NamesAt(f.key, f.value), Names(f.rest));
      if f.value.Obj? {
        NoneTwiceIff(f.value.fields);
        PrefixedApart(NameOf(f.key, f.value), Names(f.value.fields));
      }
    }
  }

  // ----- The tree the guard's walk sees -----

  function Append(f: Fields, g: Fields): Fields {
    match f
    case Nil => g
    case Field(key, value, rest) => Field(key, value, Append(rest, g))
  }

  /**
    A tree as it stands at the top of a document: leading white space goes, an object under the empty key opens
    into its surroundings, and a leaf whose key is blank is passed over.
   */
  function Opened(f: Fields): Fields {
    match f
    case Nil => Nil
    case Field(key, value, rest) =>
      if value.Obj? && key == "" then Append(Opened(value.fields), Opened(rest))
      else if value.Scalar? && Blank(key) then Opened(rest)
      else Field(TrimLeft(key), value, Opened(rest))
  }

  lemma {:induction false} NamesAppend(f: Fields, g: Fields)
    ensures Names(Append(f, g)) == Names(f) + Names(g)
    decreases f
  {
    if f.Field? {
      NamesAppend(f.rest, g);
      assert NamesAt(f.key, f.value) + (Names(f.rest) + Names(g)) == NamesAt(f.key, f.value) + Names(f.rest) + Names(g);
    }
  }

  /** The segments of a collected list. */
  function Parts(c: seq<PathOp>): seq<Segments> {
    seq(|c|, i requires 0 <= i < |c| => Split(c[i].0, '.'))
  }

  lemma PartsAppend(c: seq<PathOp>, d: seq<PathOp>)
    ensures Parts(c + d) == Parts(c) + Parts(d)
  {}

  lemma {:induction false} NormalizedAppend(a: seq<string>, b: seq<string>, op: string)
    ensures Normalized(a + b, op) == Normalized(a, op) + Normalized(b, op)
  {
    if b == [] {
      assert a + b == a;
    } else {
      assert (a + b)[..|a + b| - 1] == a + b[..|b| - 1];
      NormalizedAppend(a, b[..|b| - 1], op);
    }
  }

  lemma PartsOfOne(p: string, op: string)
    ensures Parts(Normalized([p], op)) == if Trim(p) == "" then [] else [Split(Trim(p), '.')]
  {
    assert [p][..0] == [] && Normalized([], op) == [];
  }

  lemma PrefixedAppend(a: Segments, ss: seq<Segments>, tt: seq<Segments>)
    ensures Prefixed(a, ss + tt) == Prefixed(a, ss) + Prefixed(a, tt)
  {}

  /** Below a path the trimmed leaves are the path's segments, without white space in front, followed by the names. */
  lemma {:induction false} PartsBelow(f: Fields, prefix: string, op: string)
    requires prefix != ""
    ensures Parts(Normalized(CollectFields(f, prefix), op)) == Prefixed(Split(TrimLeft(prefix), '.'), Names(f))
    decreases f
  {
    if f.Field? {
      var path, a := prefix + "." + f.key, Split(TrimLeft(prefix), '.');
      var here := if f.value.Obj? then CollectPaths(f.value, path) else [path];
      PartsBelow(f.rest, prefix, op);
      NormalizedAppend(here, CollectFields(f.rest, prefix), op);
      PartsAppend(Normalized(here, op), Normalized(CollectFields(f.rest, prefix), op));
      PrefixedAppend(a, NamesAt(f.key, f.value), Names(f.rest));
      TrimLeftDotted(prefix, f.key);
      if f.value.Obj? {
        PartsBelow(f.value.fields, path, op);
        SplitAround(TrimLeft(prefix), f.key, '.');
        PrefixedTwice(a, Split(f.key, '.'), Names(f.value.fields));
      } else {
        PartsOfOne(path, op);
        TrimRightDotted(TrimLeft(prefix), f.key);
        assert TrimLeft(prefix) + "." + f.key == TrimLeft(prefix) + ("." + f.key);
        SplitAround(TrimLeft(prefix), TrimRight(f.key), '.');
      }
    }
  }

  /** At the top they are the names of the opened tree. */
  lemma {:induction false} PartsAtTop(f: Fields, op: string)
    ensures Parts(Normalized(CollectFields(f, ""), op)) == Names(Opened(f))
    decreases f
  {
    if f.Field? {
      var here := if f.value.Obj? then CollectPaths(f.value, f.key) else [f.key];
      PartsAtTop(f.rest, op);
      NormalizedAppend(here, CollectFields(f.rest, ""), op);
      PartsAppend(Normalized(here, op), Normalized(CollectFields(f.rest, ""), op));
      if f.value.Obj? && f.key == "" {
        PartsAtTop(f.value.fields, op);
        NamesAppend(Opened(f.value.fields), Opened(f.rest));
      } else if f.value.Obj? {
        PartsBelow(f.value.fields, f.key, op);
      } else {
        PartsOfOne(f.key, op);
        BlankIffTrimEmpty(f.key);
      }
    }
  }

  lemma SplitInjective(a: string, b: string)
    requires Split(a, '.') == Split(b, '.')
    ensures a == b
  {
    JoinSplit(a, '.');
    JoinSplit(b, '.');
  }

  /** A collected list has no duplicates and no ancestors exactly when its segments are apart. */
  lemma PartsApartIff(c: seq<PathOp>)
    ensures NoDuplicates(c) && NoAncestors(c) <==> Apart(Parts(c))
  {
    var ss := Parts(c);
    if NoDuplicates(c) && NoAncestors(c) {
      forall i, j | 0 <= i < j < |ss| ensures !Comparable(ss[i], ss[j]) {
        assert Differs(c, i, j) && !Ancestor(c[i].0, c[j].0) && !Ancestor(c[j].0, c[i].0);
        if ss[i] == ss[j] { SplitInjective(c[i].0, c[j].0); }
      }
    }
    if Apart(ss) {
      forall i, j ensures Differs(c, i, j) {
        if 0 <= i < j < |c| { assert !Comparable(ss[i], ss[j]); }
      }
      forall i, j | 0 <= i < |c| && 0 <= j < |c| && i != j ensures !Ancestor(c[j].0, c[i].0) {
        assert if i < j then !Comparable(ss[i], ss[j]) else !Comparable(ss[j], ss[i]);
      }
    }
  }
}
