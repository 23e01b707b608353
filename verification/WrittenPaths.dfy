/**
  What the update guard's verdict says about the paths the operators write: their keys as given, and rename
  targets.
 */
module WrittenPaths {
  import opened Text
  import opened UpdateGuard
  import opened PathTrees
  import LeafWrites

  /** One written path with the value given for it; removals and renames write plain leaves. */
  datatype Written = Written(path: string, value: Value, op: string)

  const LEAF := Scalar(false, "")

  function FieldsWritten(f: Fields, op: string): seq<Written> {
    match f
    case Nil => []
    case Field(key, value, rest) => [Written(key, value, op)] + FieldsWritten(rest, op)
  }

  function PathsWritten(paths: seq<string>, op: string): seq<Written> {
    seq(|paths|, i requires 0 <= i < |paths| => Written(paths[i], LEAF, op))
  }

  function WrittenBy(op: string, v: Value): seq<Written> {
    if v.Scalar? then []
    else if op == "$unset" then PathsWritten(Keys(v.fields), op)
    else if op == "$rename" then PathsWritten(Keys(v.fields) + StringValues(v.fields), op)
    else FieldsWritten(v.fields, op)
  }

  function AllWritten(doc: UpdateDoc, ops: seq<string>): seq<Written> {
    if ops == [] then []
    else
      var op := ops[|ops| - 1];
      AllWritten(doc, ops[..|ops| - 1]) + if op in doc then WrittenBy(op, doc[op]) else []
  }

  /** The paths a written path adds to the guard's list, before trimming. */
  function Leaves(w: Written): seq<string> {
    if w.value.Obj? then CollectPaths(w.value, w.path) else [w.path]
  }

  function Flatten(ws: seq<Written>): seq<PathOp> {
    if ws == [] then [] else Flatten(ws[..|ws| - 1]) + Normalized(Leaves(ws[|ws| - 1]), ws[|ws| - 1].op)
  }

  // ----- The guard's list, written path by written path -----

  lemma {:induction false} FlattenAppend(a: seq<Written>, b: seq<Written>)
    ensures Flatten(a + b) == Flatten(a) + Flatten(b)
  {
    if b == [] {
      assert a + b == a;
    } else {
      assert (a + b)[..|a + b| - 1] == a + b[..|b| - 1];
      FlattenAppend(a, b[..|b| - 1]);
    }
  }

  lemma FlattenOne(w: Written)
    ensures Flatten([w]) == Normalized(Leaves(w), w.op)
  {
    assert [w][..0] == [] && Flatten([]) == [];
  }

  lemma {:induction false} FlattenPaths(paths: seq<string>, op: string)
    ensures Flatten(PathsWritten(paths, op)) == Normalized(paths, op)
  {
    if paths != [] {
      var front, last := paths[..|paths| - 1], paths[|paths| - 1];
      FlattenPaths(front, op);
      assert PathsWritten(paths, op)[..|paths| - 1] == PathsWritten(front, op);
      NormalizedAppend(front, [last], op);
      assert paths == front + [last];
    }
  }

  lemma {:induction false} FlattenFields(f: Fields, op: string)
    ensures Flatten(FieldsWritten(f, op)) == Normalized(CollectFields(f, ""), op)
  {
    if f.Field? {
      var w := Written(f.key, f.value, op);
      FlattenFields(f.rest, op);
      FlattenAppend([w], FieldsWritten(f.rest, op));
      FlattenOne(w);
      NormalizedAppend(Leaves(w), CollectFields(f.rest, ""), op);
    }
  }

  lemma FlattenOperator(op: string, v: Value)
    ensures Flatten(WrittenBy(op, v)) == Normalized(OperatorPaths(op, v), op)
  {
    if v.Obj? {
      if op == "$unset" {
        FlattenPaths(Keys(v.fields), op);
      } else if op == "$rename" {
        FlattenPaths(Keys(v.fields) + StringValues(v.fields), op);
      } else {
        FlattenFields(v.fields, op);
      }
    }
  }

  lemma {:induction false} CollectedIsFlatten(doc: UpdateDoc, ops: seq<string>)
    ensures CollectedBy(doc, ops) == Flatten(AllWritten(doc, ops))
  {
    if ops != [] {
      var front, op := ops[..|ops| - 1], ops[|ops| - 1];
      CollectedIsFlatten(doc, front);
      if op in doc {
        FlattenAppend(AllWritten(doc, front), WrittenBy(op, doc[op]));
        FlattenOperator(op, doc[op]);
      } else {
        assert AllWritten(doc, ops) == AllWritten(doc, front);
      }
    }
  }

  // ----- Conflicts -----

  predicate Clash(a: string, b: string) {
    a == b || Ancestor(a, b) || Ancestor(b, a)
  }

  /** The guard finds a conflict between two collected paths. */
  predicate Meets(p: string, q: string) {
    Trim(p) != "" && Trim(q) != "" && Clash(Trim(p), Trim(q))
  }

  ghost predicate Seen(f: Written, g: Written) {
    exists p, q :: p in Leaves(f) && q in Leaves(g) && Meets(p, q)
  }

  ghost predicate Free(ws: seq<Written>) {
    forall i, j | 0 <= i < j < |ws| :: !Clash(ws[i].path, ws[j].path)
  }

  ghost predicate Accepted(c: seq<PathOp>) {
    NoDuplicates(c) && NoAncestors(c)
  }

  lemma {:induction false} NormalizedHas(paths: seq<string>, op: string, p: string) returns (k: nat)
    requires p in paths && Trim(p) != ""
    ensures k < |Normalized(paths, op)| && Normalized(paths, op)[k] == (Trim(p), op)
  {
    if p == paths[|paths| - 1] {
      k := |Normalized(paths, op)| - 1;
    } else {
      k := NormalizedHas(paths[..|paths| - 1], op, p);
    }
  }

  /** Where the paths of written path i stand in the list. */
  lemma Place(ws: seq<Written>, i: nat)
    requires i < |ws|
    ensures var n := Normalized(Leaves(ws[i]), ws[i].op);
            && Flatten(ws) == Flatten(ws[..i]) + n + Flatten(ws[i + 1..])
            && |Flatten(ws[..i + 1])| == |Flatten(ws[..i])| + |n|
  {
    FlattenOne(ws[i]);
    FlattenAppend(ws[..i], [ws[i]]);
    assert ws[..i + 1] == ws[..i] + [ws[i]];
    FlattenAppend(ws[..i + 1], ws[i + 1..]);
    assert ws == ws[..i + 1] + ws[i + 1..];
  }

  lemma AtMiddle<T>(x: seq<T>, n: seq<T>, y: seq<T>, k: nat) returns (a: nat)
    requires k < |n|
    ensures a == |x| + k && a < |x + n + y| && (x + n + y)[a] == n[k]
  {
    a := |x| + k;
  }

  lemma PlaceOf(ws: seq<Written>, i: nat, p: string) returns (a: nat)
    requires i < |ws| && p in Leaves(ws[i]) && Trim(p) != ""
    ensures |Flatten(ws[..i])| <= a < |Flatten(ws[..i + 1])| && a < |Flatten(ws)| && Flatten(ws)[a].0 == Trim(p)
  {
    var n := Normalized(Leaves(ws[i]), ws[i].op);
    var k := NormalizedHas(Leaves(ws[i]), ws[i].op, p);
    Place(ws, i);
    a := AtMiddle(Flatten(ws[..i]), n, Flatten(ws[i + 1..]), k);
  }

  lemma Before(ws: seq<Written>, i: nat, j: nat)
    requires i <= j <= |ws|
    ensures |Flatten(ws[..i])| <= |Flatten(ws[..j])|
  {
    FlattenAppend(ws[..i], ws[i..j]);
    assert ws[..j] == ws[..i] + ws[i..j];
  }

  /** Two paths of different written paths stand at different places of the list. */
  lemma Places(ws: seq<Written>, i: nat, j: nat, p: string, q: string) returns (a: nat, b: nat)
    requires i < j < |ws| && p in Leaves(ws[i]) && q in Leaves(ws[j]) && Trim(p) != "" && Trim(q) != ""
    ensures a < b < |Flatten(ws)| && Flatten(ws)[a].0 == Trim(p) && Flatten(ws)[b].0 == Trim(q)
  {
    a := PlaceOf(ws, i, p);
    b := PlaceOf(ws, j, q);
    Before(ws, i + 1, j);
  }

  lemma UnseenInOrder(ws: seq<Written>, i: nat, j: nat, p: string, q: string)
    requires Accepted(Flatten(ws)) && i < j < |ws| && p in Leaves(ws[i]) && q in Leaves(ws[j])
    ensures !Meets(p, q)
  {
    if Trim(p) != "" && Trim(q) != "" {
      var c := Flatten(ws);
      var a, b := Places(ws, i, j, p, q);
      assert Differs(c, a, b);
    }
  }

  /** Nothing the guard sees between two written paths survives acceptance. */
  lemma AcceptedUnseen(ws: seq<Written>, i: nat, j: nat)
    requires Accepted(Flatten(ws)) && i < |ws| && j < |ws| && i != j
    ensures !Seen(ws[i], ws[j])
  {
    forall p, q | p in Leaves(ws[i]) && q in Leaves(ws[j]) ensures !Meets(p, q) {
      if i < j { UnseenInOrder(ws, i, j, p, q); } else { UnseenInOrder(ws, j, i, q, p); }
    }
  }

  // ----- White space at the edges -----

  /** No character of its own in front of a following dot: empty, or white space last. */
  predicate EndsInSpace(s: string) {
    s == "" || IsSpace(s[|s| - 1])
  }

  /** An ancestor that does not end in white space is still one after trimming. */
  lemma SharpEdge(p: string, c: string)
    requires !EndsInSpace(p)
    ensures Meets(p, p + "." + c)
  {
    var head := TrimLeft(p);
    TrimLeftKeepsEnd(p);
    TrimLeftAppend(p, "." + c);
    assert p + "." + c == p + ("." + c);
    TrimRightAppend(head, "");
    assert head + "" == head;
    TrimRightDotted(head, c);
    assert StringTest(Trim(p + "." + c), Trim(p));
    StringTestIsSegmentTest(Trim(p + "." + c), Trim(p));
  }

  /** One that does is none, nor equal, nor below. */
  lemma BlurredEdge(p: string, c: string)
    requires EndsInSpace(p)
    ensures !Meets(p, p + "." + c)
  {
    BlankIffTrimEmpty(p);
    if !Blank(p) {
      var head, t := TrimLeft(p), Trim(p);
      TrimLeftAppend(p, "." + c);
      TrimLeftEnds(p);
      TrimRightCuts(head);
      assert p + "." + c == p + ("." + c);
      var q := Trim(p + "." + c);
      assert t <= head && t != "" && t != head by { TrimRightEnds(head); }
      assert q == head + "." + TrimRight(c) by { TrimRightDotted(head, c); }
      assert |t| < |head| && q[|t|] == head[|t|];
      StringTestIsSegmentTest(q, t);
      StringTestIsSegmentTest(t, q);
    }
  }

  lemma {:induction false} TrimLeftEnds(a: string)
    requires !Blank(a)
    ensures TrimLeft(a) != "" && TrimLeft(a)[|TrimLeft(a)| - 1] == a[|a| - 1]
  {
    if IsSpace(a[0]) {
      assert forall i | 0 < i < |a| :: a[i] == a[1..][i - 1];
      TrimLeftEnds(a[1..]);
    }
  }

  /** Trimming hides an ancestor exactly when its path ends in white space. */
  lemma AncestorSeenIff(p: string, q: string)
    requires Ancestor(p, q)
    ensures Meets(p, q) <==> !EndsInSpace(p)
  {
    StringTestIsSegmentTest(q, p);
    assert q == p + "." + q[|p| + 1..];
    if EndsInSpace(p) {
      BlurredEdge(p, q[|p| + 1..]);
    } else {
      SharpEdge(p, q[|p| + 1..]);
    }
  }

  // ----- Object values -----

  predicate NoLeaves(w: Written) {
    w.value.Obj? && !AnyLeaf(w.value.fields)
  }

  lemma {:induction false} LeavesOfFields(f: Fields, prefix: string)
    ensures CollectFields(f, prefix) != [] <==> AnyLeaf(f)
    ensures prefix != "" ==> forall q | q in CollectFields(f, prefix) :: Ancestor(prefix, q)
    decreases f
  {
    if f.Field? {
      var path := Under(prefix, f.key);
      LeavesOfFields(f.rest, prefix);
      if f.value.Obj? {
        LeavesOfFields(f.value.fields, path);
      }
      if prefix != "" {
        assert path == prefix + "." + f.key && StringTest(path, prefix);
        StringTestIsSegmentTest(path, prefix);
      }
    }
  }

  lemma LeavesOf(w: Written)
    ensures Leaves(w) == [] <==> NoLeaves(w)
    ensures w.value.Obj? && w.path != "" ==> forall q | q in Leaves(w) :: Ancestor(w.path, q)
  {
    if w.value.Obj? {
      LeavesOfFields(w.value.fields, w.path);
    }
  }

  // ----- The guard's list as a tree -----

  /** What a written path adds to the tree the guard's walk sees. */
  function Root(w: Written): Fields {
    Opened(Single(w.path, w.value))
  }

  function DocTree(ws: seq<Written>): Fields {
    if ws == [] then Nil else Append(DocTree(ws[..|ws| - 1]), Root(ws[|ws| - 1]))
  }

  lemma PartsOfRoot(w: Written, op: string)
    ensures Parts(Normalized(Leaves(w), op)) == Names(Root(w))
  {
    assert CollectFields(Nil, "") == [];
    assert Leaves(w) == CollectFields(Single(w.path, w.value), "");
    PartsAtTop(Single(w.path, w.value), op);
  }

  lemma {:induction false} PartsOfAll(ws: seq<Written>)
    ensures Parts(Flatten(ws)) == Names(DocTree(ws))
  {
    if ws != [] {
      var front, w := ws[..|ws| - 1], ws[|ws| - 1];
      PartsOfAll(front);
      PartsOfRoot(w, w.op);
      PartsAppend(Flatten(front), Normalized(Leaves(w), w.op));
      NamesAppend(DocTree(front), Root(w));
    }
  }

  lemma {:induction false} NormalizedFrom(paths: seq<string>, op: string, k: nat) returns (p: string)
    requires k < |Normalized(paths, op)|
    ensures p in paths && Trim(p) != "" && Normalized(paths, op)[k] == (Trim(p), op)
  {
    if k < |Normalized(paths[..|paths| - 1], op)| {
      p := NormalizedFrom(paths[..|paths| - 1], op, k);
    } else {
      p := paths[|paths| - 1];
    }
  }

  /** A leaf counts exactly when it is a name of the tree. */
  lemma NameFrom(w: Written, s: Segments) returns (p: string)
    requires s in Names(Root(w))
    ensures p in Leaves(w) && Trim(p) != "" && Split(Trim(p), '.') == s
  {
    var c := Normalized(Leaves(w), w.op);
    PartsOfRoot(w, w.op);
    var k :| 0 <= k < |Parts(c)| && Parts(c)[k] == s;
    p := NormalizedFrom(Leaves(w), w.op, k);
  }

  lemma NameOfLeaf(w: Written, p: string)
    requires p in Leaves(w) && Trim(p) != ""
    ensures Split(Trim(p), '.') in Names(Root(w))
  {
    var c := Normalized(Leaves(w), w.op);
    PartsOfRoot(w, w.op);
    var k := NormalizedHas(Leaves(w), w.op, p);
    assert Parts(c)[k] == Split(Trim(p), '.');
  }

  lemma ClashIff(a: string, b: string)
    ensures Clash(a, b) <==> Comparable(Split(a, '.'), Split(b, '.'))
  {
    if Split(a, '.') == Split(b, '.') { SplitInjective(a, b); }
  }

  /** The guard finds a conflict between two written paths exactly when their trees overlap. */
  lemma SeenIff(f: Written, g: Written)
    ensures Seen(f, g) <==> Overlap(Root(f), Root(g))
  {
    OverlapIff(Root(f), Root(g));
    if Seen(f, g) {
      var p, q :| p in Leaves(f) && q in Leaves(g) && Meets(p, q);
      NameOfLeaf(f, p);
      NameOfLeaf(g, q);
      ClashIff(Trim(p), Trim(q));
    }
    if Overlap(Root(f), Root(g)) {
      var s, t :| s in Names(Root(f)) && t in Names(Root(g)) && Comparable(s, t);
      var p := NameFrom(f, s);
      var q := NameFrom(g, t);
      ClashIff(Trim(p), Trim(q));
      assert Meets(p, q);
    }
  }

  // ----- What hides a conflict -----

  predicate AtOrAbove(f: Written, g: Written) {
    f.path == g.path || Ancestor(f.path, g.path)
  }

  /** What g writes, seen from f's path: inside the same object, or at the rest of g's path. */
  function Below(f: Written, g: Written): Fields
    requires AtOrAbove(f, g) && f.value.Obj?
  {
    if f.path != g.path then
      StringTestIsSegmentTest(g.path, f.path);
      Single(g.path[|f.path| + 1..], g.value)
    else if g.value.Obj? then g.value.fields
    else Nil
  }

  /** Following the rest of g's path through the object f writes, and then what g writes there, meets a leaf. */
  predicate Reaches(f: Written, g: Written)
    requires AtOrAbove(f, g) && f.value.Obj?
  {
    if f.path == "" then Overlap(Root(f), Root(g)) else Overlap(f.value.fields, Below(f, g))
  }

  /**
    How the guard misses that f's path is g's or an ancestor of it. A leaf f goes unseen when its path is
    blank, or ends in white space above what g writes, or when g is an object without leaves. An object f goes
    unseen by a leaf at its own path for the same reasons, and by anything else when the walk through f misses.
   */
  predicate Hides(f: Written, g: Written)
    requires AtOrAbove(f, g)
  {
    if !f.value.Obj? && !g.value.Obj? && f.path == g.path then Blank(f.path)
    else if !f.value.Obj? then EndsInSpace(f.path) || NoLeaves(g)
    else if !g.value.Obj? && f.path == g.path then EndsInSpace(f.path) || NoLeaves(f)
    else !Reaches(f, g)
  }

  lemma AboveLeaves(path: string, g: Written)
    requires g.value.Obj? && (path == g.path || Ancestor(path, g.path))
    ensures forall q | q in Leaves(g) :: Meets(path, q) <==> !EndsInSpace(path)
  {
    LeavesOf(g);
    BlankIffTrimEmpty(path);
    forall q | q in Leaves(g) ensures Meets(path, q) <==> !EndsInSpace(path) {
      if path != "" {
        assert g.path != "";
        assert Ancestor(path, q);
        AncestorSeenIff(path, q);
      }
    }
  }

  /** The walk decides for objects: below a non-empty path both names start with its segments. */
  lemma ReachesIff(f: Written, g: Written)
    requires AtOrAbove(f, g) && f.value.Obj? && (g.value.Obj? || f.path != g.path)
    ensures Reaches(f, g) <==> Seen(f, g)
  {
    SeenIff(f, g);
    OverlapIff(Root(f), Root(g));
    if f.path != "" {
      var a := Split(TrimLeft(f.path), '.');
      OverlapIff(f.value.fields, Below(f, g));
      BelowNames(f, g);
      PrefixedCross(a, Names(f.value.fields), Names(Below(f, g)));
    }
  }

  lemma SingleNames(key: string, v: Value)
    ensures Names(Single(key, v)) == NamesAt(key, v)
  {
    assert Names(Nil) == [];
  }

  lemma RootIs(w: Written)
    requires w.path != "" && (w.value.Obj? || !Blank(w.path))
    ensures Root(w) == Single(TrimLeft(w.path), w.value)
  {
    assert Opened(Nil) == Nil;
  }

  lemma BelowNames(f: Written, g: Written)
    requires AtOrAbove(f, g) && f.value.Obj? && (g.value.Obj? || f.path != g.path) && f.path != ""
    ensures Names(Root(f)) == Prefixed(Split(TrimLeft(f.path), '.'), Names(f.value.fields))
    ensures Names(Root(g)) == Prefixed(Split(TrimLeft(f.path), '.'), Names(Below(f, g)))
  {
    RootIs(f);
    SingleNames(TrimLeft(f.path), f.value);
    if f.path == g.path {
      RootIs(g);
      SingleNames(TrimLeft(g.path), g.value);
    } else {
      StringTestIsSegmentTest(g.path, f.path);
      DeeperNames(f.path, g.path[|f.path| + 1..], g);
    }
  }

  lemma DeeperNames(path: string, rest: string, g: Written)
    requires g.path == path + "." + rest
    ensures Names(Root(g)) == Prefixed(Split(TrimLeft(path), '.'), Names(Single(rest, g.value)))
  {
    var head := TrimLeft(path);
    TrimLeftDotted(path, rest);
    assert g.path[|path|] == '.' && !IsSpace('.');
    RootIs(g);
    SingleNames(TrimLeft(g.path), g.value);
    SingleNames(rest, g.value);
    if g.value.Obj? {
      SplitAround(head, rest, '.');
      PrefixedTwice(Split(head, '.'), Split(rest, '.'), Names(g.value.fields));
    } else {
      assert head + "." + rest == head + ("." + rest);
      TrimRightDotted(head, rest);
      SplitAround(head, TrimRight(rest), '.');
    }
  }

  /** The conditions are exact: the guard sees nothing between f and g if and only if one of them holds. */
  lemma HidesIff(f: Written, g: Written)
    requires AtOrAbove(f, g)
    ensures Hides(f, g) <==> !Seen(f, g)
  {
    LeavesOf(f);
    LeavesOf(g);
    BlankIffTrimEmpty(f.path);
    if f.value.Obj? {
      if !g.value.Obj? && f.path == g.path {
        AboveLeaves(g.path, f);
        LeafSeenIff(g, f);
      } else {
        ReachesIff(f, g);
      }
    } else if g.value.Obj? {
      AboveLeaves(f.path, g);
      LeafSeenIff(f, g);
    } else {
      assert Seen(f, g) <==> Meets(f.path, g.path) by {
        assert f.path in Leaves(f) && g.path in Leaves(g);
      }
      if f.path != g.path { AncestorSeenIff(f.path, g.path); }
    }
  }

  lemma LeafSeenIff(f: Written, g: Written)
    requires !f.value.Obj? && g.value.Obj?
    requires forall q | q in Leaves(g) :: Meets(f.path, q) <==> !EndsInSpace(f.path)
    ensures Seen(f, g) <==> !EndsInSpace(f.path) && Leaves(g) != []
    ensures Seen(g, f) <==> Seen(f, g)
  {
    assert f.path in Leaves(f);
    if Leaves(g) != [] { assert Leaves(g)[0] in Leaves(g); }
  }

  // ----- Whole documents -----

  /** The document is accepted exactly when no field of its tree overlaps another. */
  lemma AcceptedIff(doc: UpdateDoc)
    ensures Accepted(Collected(doc)) <==> NoneTwice(DocTree(AllWritten(doc, UPDATE_PATH_OPERATORS)))
  {
    var ws := AllWritten(doc, UPDATE_PATH_OPERATORS);
    CollectedIsFlatten(doc, UPDATE_PATH_OPERATORS);
    PartsOfAll(ws);
    PartsApartIff(Collected(doc));
    NoneTwiceIff(DocTree(ws));
  }

  ghost predicate Pair(ws: seq<Written>, i: nat, j: nat) {
    i < |ws| && j < |ws| && i != j && AtOrAbove(ws[i], ws[j])
  }

  lemma FreeIff(ws: seq<Written>)
    ensures Free(ws) <==> forall i: nat, j: nat :: !Pair(ws, i, j)
  {
    if !Free(ws) {
      var i, j :| 0 <= i < j < |ws| && Clash(ws[i].path, ws[j].path);
      assert Pair(ws, i, j) || Pair(ws, j, i);
    }
    if i: nat, j: nat :| Pair(ws, i, j) {
      assert Clash(ws[i].path, ws[j].path) && Clash(ws[j].path, ws[i].path);
    }
  }

  /**
    For any document: it is accepted with conflicting written paths exactly when its tree names no leaf twice
    and some pair is hidden.
   */
  lemma MissedConflictIff(doc: UpdateDoc)
    ensures var ws := AllWritten(doc, UPDATE_PATH_OPERATORS);
            Accepted(Collected(doc)) && !Free(ws)
            <==> NoneTwice(DocTree(ws)) && exists i: nat, j: nat :: Pair(ws, i, j) && Hides(ws[i], ws[j])
  {
    var ws := AllWritten(doc, UPDATE_PATH_OPERATORS);
    AcceptedIff(doc);
    FreeIff(ws);
    CollectedIsFlatten(doc, UPDATE_PATH_OPERATORS);
    if Accepted(Collected(doc)) && !Free(ws) {
      var i: nat, j: nat :| Pair(ws, i, j);
      AcceptedUnseen(ws, i, j);
      HidesIff(ws[i], ws[j]);
    }
  }

  /** What to look for in a document: white space at the end of a path, an object without leaves, a walk that misses. */
  predicate Cause(f: Written, g: Written)
    requires AtOrAbove(f, g)
  {
    || EndsInSpace(f.path) || NoLeaves(f) || NoLeaves(g)
    || (f.value.Obj? && (g.value.Obj? || f.path != g.path) && !Reaches(f, g))
  }

  /** In an accepted document each conflicting pair has a cause: it is free exactly when no pair has one. */
  lemma AcceptedFreeIff(doc: UpdateDoc)
    requires Accepted(Collected(doc))
    ensures var ws := AllWritten(doc, UPDATE_PATH_OPERATORS);
            && (forall i: nat, j: nat | Pair(ws, i, j) :: Cause(ws[i], ws[j]))
            && (Free(ws) <==> forall i: nat, j: nat | Pair(ws, i, j) :: !Cause(ws[i], ws[j]))
  {
    var ws := AllWritten(doc, UPDATE_PATH_OPERATORS);
    FreeIff(ws);
    CollectedIsFlatten(doc, UPDATE_PATH_OPERATORS);
    forall i: nat, j: nat | Pair(ws, i, j) ensures Cause(ws[i], ws[j]) {
      AcceptedUnseen(ws, i, j);
      HidesIff(ws[i], ws[j]);
    }
  }

  lemma {:induction false} WrittenHas(doc: UpdateDoc, ops: seq<string>, op: string, w: Written)
    requires op in ops && op in doc && w in WrittenBy(op, doc[op])
    ensures w in AllWritten(doc, ops)
  {
    if op != ops[|ops| - 1] {
      WrittenHas(doc, ops[..|ops| - 1], op, w);
    }
  }

  lemma TwoSegments()
    ensures Split("a.b", '.') == ["a", "b"] && Split("a.c", '.') == ["a", "c"] && Split("a", '.') == ["a"]
    ensures Trim("a.b") == "a.b" && Trim("a.c") == "a.c"
  {
    SplitAround("a", "b", '.');
    SplitAround("a", "c", '.');
    SplitFree("a", '.');
    SplitFree("b", '.');
    SplitFree("c", '.');
    assert "a" + "." + "b" == "a.b" && "a" + "." + "c" == "a.c";
    assert !IsSpace('a') && !IsSpace('b') && !IsSpace('c');
  }

  lemma SiblingsAccepted(c: seq<PathOp>)
    requires c == [("a.b", "$set"), ("a.c", "$inc")]
    ensures Accepted(c)
  {
    TwoSegments();
    assert ["a", "b"][1] != ["a", "c"][1] by {
      assert "b"[0] != "c"[0];
    }
    LeafWrites.TwoApart(c);
  }

  /** An object whose walk misses: `$set` writes all of "a", `$inc` writes "a.c", and the guard accepts. */
  lemma AbsentKeyUnseen(v: Value)
    requires v.Scalar?
    ensures var doc := map["$set" := LeafWrites.One("a", LeafWrites.One("b", v)), "$inc" := LeafWrites.One("a.c", v)];
            && Accepted(Collected(doc)) && Ancestor("a", "a.c") && !Free(AllWritten(doc, UPDATE_PATH_OPERATORS))
            && Written("a", LeafWrites.One("b", v), "$set") in AllWritten(doc, UPDATE_PATH_OPERATORS)
            && Written("a.c", v, "$inc") in AllWritten(doc, UPDATE_PATH_OPERATORS)
  {
    var a, b := LeafWrites.One("a", LeafWrites.One("b", v)), LeafWrites.One("a.c", v);
    var doc := map["$set" := a, "$inc" := b];
    TwoSegments();
    LeafWrites.TwoOperators(doc, "a", LeafWrites.One("b", v), "a.c", v);
    BelowOne(v);
    LeafWrites.OneLeaf("a.c", v);
    LeafWrites.OneNormalized("a.b", "a.b", "$set");
    LeafWrites.OneNormalized("a.c", "a.c", "$inc");
    assert Collected(doc) == [("a.b", "$set"), ("a.c", "$inc")];
    SiblingsAccepted(Collected(doc));
    ConflictWritten(doc, Written("a", LeafWrites.One("b", v), "$set"), Written("a.c", v, "$inc"));
  }

  lemma BelowOne(v: Value)
    requires v.Scalar?
    ensures CollectPaths(LeafWrites.One("a", LeafWrites.One("b", v)), "") == ["a.b"]
  {
    assert CollectFields(Nil, "") == [] && CollectFields(Nil, "a") == [];
    assert "a" + "." + "b" == "a.b";
    assert CollectPaths(LeafWrites.One("b", v), "a") == ["a.b"];
  }

  lemma ConflictWritten(doc: UpdateDoc, f: Written, g: Written)
    requires "$set" in doc && "$inc" in doc && Ancestor(f.path, g.path)
    requires doc["$set"] == LeafWrites.One(f.path, f.value) && f.op == "$set"
    requires doc["$inc"] == LeafWrites.One(g.path, g.value) && g.op == "$inc"
    ensures var ws := AllWritten(doc, UPDATE_PATH_OPERATORS); f in ws && g in ws && !Free(ws)
  {
    var ws := AllWritten(doc, UPDATE_PATH_OPERATORS);
    assert UPDATE_PATH_OPERATORS[0] == "$set" && UPDATE_PATH_OPERATORS[3] == "$inc";
    OneWritten("$set", f);
    OneWritten("$inc", g);
    WrittenHas(doc, UPDATE_PATH_OPERATORS, "$set", f);
    WrittenHas(doc, UPDATE_PATH_OPERATORS, "$inc", g);
    var i: nat :| i < |ws| && ws[i] == f;
    var j: nat :| j < |ws| && ws[j] == g;
    assert Pair(ws, i, j);
    FreeIff(ws);
  }

  lemma OneWritten(op: string, w: Written)
    requires w.op == op && (op == "$set" || op == "$inc")
    ensures w in WrittenBy(op, LeafWrites.One(w.path, w.value))
  {
    assert "$set"[1] == 's' && "$inc"[1] == 'i' && "$unset"[1] == 'u' && "$rename"[1] == 'r';
    assert FieldsWritten(Field(w.path, w.value, Nil), op) == [w] + FieldsWritten(Nil, op);
  }

  // ----- Plain keys: the walk goes by single keys -----

  /** Keys are single segments, and leaf keys do not end in white space. */
  predicate PlainKeys(f: Fields) {
    f.Field? ==>
      && '.' !in f.key && PlainKeys(f.rest)
      && if f.value.Obj? then PlainKeys(f.value.fields) else TrimRight(f.key) == f.key
  }

  /** Reaches a leaf, or ends inside an object that has one. */
  predicate Walk(v: Value, segs: Segments)
    decreases v
  {
    if v.Scalar? then true else if segs == [] then AnyLeaf(v.fields) else WalkFields(v.fields, segs)
  }

  /** A key that is absent ends the walk. */
  predicate WalkFields(f: Fields, segs: Segments)
    requires segs != []
    decreases f
  {
    f.Field? && ((f.key == segs[0] && Walk(f.value, segs[1..])) || WalkFields(f.rest, segs))
  }

  lemma {:induction false} WalkDecides(f: Fields, key: string, w: Value)
    requires PlainKeys(f) && w.Scalar?
    ensures Overlap(f, Single(key, w)) <==> WalkFields(f, NameOf(key, w))
    decreases f
  {
    if f.Field? {
      WalkDecides(f.rest, key, w);
      var a, b := NameOf(f.key, f.value), NameOf(key, w);
      SplitFree(f.key, '.');
      assert a == [f.key];
      assert OverlapsSome(f.key, f.value, Single(key, w)) <==> FieldsOverlap(f.key, f.value, key, w);
      if f.value.Obj? && a < b {
        RestName(key, w, 1);
        WalkDecides(f.value.fields, Join(b[1..], '.'), w);
      }
    }
  }

  /** Only leaves are written, at paths without white space at their ends. */
  ghost predicate Plain(ws: seq<Written>) {
    forall w | w in ws :: !w.value.Obj? && w.path != "" && Trim(w.path) == w.path
  }

  lemma {:induction false} PlainList(ws: seq<Written>)
    requires Plain(ws)
    ensures |Flatten(ws)| == |ws| && forall i | 0 <= i < |ws| :: Flatten(ws)[i].0 == ws[i].path
  {
    if ws != [] {
      var front, w := ws[..|ws| - 1], ws[|ws| - 1];
      assert ws == front + [w] && w in ws;
      PlainList(front);
      assert [w.path][..0] == [] && Normalized([w.path], w.op) == [(w.path, w.op)];
    }
  }

  /** On such documents the guard is exact in both directions. */
  lemma PlainGuardExact(doc: UpdateDoc)
    requires Plain(AllWritten(doc, UPDATE_PATH_OPERATORS))
    ensures Accepted(Collected(doc)) <==> Free(AllWritten(doc, UPDATE_PATH_OPERATORS))
  {
    var ws, c := AllWritten(doc, UPDATE_PATH_OPERATORS), Collected(doc);
    CollectedIsFlatten(doc, UPDATE_PATH_OPERATORS);
    PlainList(ws);
    if Free(ws) {
      forall i, j ensures Differs(c, i, j) {}
      forall i, j | 0 <= i < |c| && 0 <= j < |c| && i != j ensures !Ancestor(c[j].0, c[i].0) {
        assert !Clash(ws[if i < j then i else j].path, ws[if i < j then j else i].path);
      }
    }
    if Accepted(c) {
      forall i, j | 0 <= i < j < |ws| ensures !Clash(ws[i].path, ws[j].path) {
        assert Differs(c, i, j) && c[i].0 == ws[i].path && c[j].0 == ws[j].path;
      }
    }
  }
}
