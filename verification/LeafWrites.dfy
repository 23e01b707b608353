/** The leaf writes of an update document on a document tree: those of an accepted one commute. */
module LeafWrites {
  import opened Wrappers
  import opened Text
  import opened Sorting
  import opened UpdateGuard

  datatype Tree = Leaf(text: string) | Node(children: map<string, Tree>)

  /** One write: the segments of its path and the operator it came from. */
  datatype LeafWrite = LeafWrite(path: seq<string>, op: string)

  function Children(t: Option<Tree>): map<string, Tree> {
    if t.Some? && t.value.Node? then t.value.children else map[]
  }

  function Child(t: Option<Tree>, key: string): Option<Tree> {
    if key in Children(t) then Some(Children(t)[key]) else None
  }

  /** Sets or removes one field; removing from what is no object leaves it as it is. */
  function Put(t: Option<Tree>, key: string, v: Option<Tree>): Option<Tree> {
    if v.Some? then Some(Node(Children(t)[key := v.value]))
    else if t.Some? && t.value.Node? then Some(Node(Children(t) - {key}))
    else t
  }

  /** Replaces what is at the path by a function of it; None means nothing is there, before or after. */
  function WriteAt(t: Option<Tree>, path: seq<string>, f: Option<Tree> -> Option<Tree>): Option<Tree>
    decreases |path|
  {
    if path == [] then f(t) else Put(t, path[0], WriteAt(Child(t, path[0]), path[1..], f))
  }

  /** What an operator makes of the old value is left open: a new value, or no value as for a removal. */
  type Effect = (LeafWrite, Option<Tree>) -> Option<Tree>

  function Apply(effect: Effect, t: Option<Tree>, w: LeafWrite): Option<Tree> {
    WriteAt(t, w.path, (before: Option<Tree>) => effect(w, before))
  }

  function ApplyAll(effect: Effect, t: Option<Tree>, ws: seq<LeafWrite>): Option<Tree>
    decreases |ws|
  {
    if ws == [] then t else ApplyAll(effect, Apply(effect, t, ws[0]), ws[1..])
  }

  lemma PutChild(t: Option<Tree>, k: string, v: Option<Tree>, l: string)
    ensures Child(Put(t, k, v), l) == if l == k && (v.Some? || (t.Some? && t.value.Node?)) then v else Child(t, l)
  {}

  /** Writes to two fields of one object commute, removals included. */
  lemma PutsCommute(t: Option<Tree>, k: string, x: Option<Tree>, l: string, y: Option<Tree>)
    requires k != l
    ensures Put(Put(t, k, x), l, y) == Put(Put(t, l, y), k, x)
  {
    var c := Children(t);
    if x.Some? && y.Some? {
      assert c[k := x.value][l := y.value] == c[l := y.value][k := x.value];
    } else if x.Some? {
      assert c[k := x.value] - {l} == (c - {l})[k := x.value];
      assert l !in c ==> c - {l} == c;
    } else if y.Some? {
      assert c[l := y.value] - {k} == (c - {k})[l := y.value];
      assert k !in c ==> c - {k} == c;
    } else {
      assert c - {k} - {l} == c - {l} - {k};
    }
  }

  /** A second write to a field replaces the first. */
  lemma PutTwice(t: Option<Tree>, k: string, x: Option<Tree>, y: Option<Tree>)
    requires y.None? ==> x.None?
    ensures Put(Put(t, k, x), k, y) == Put(t, k, y)
  {
    var c := Children(t);
    if x.Some? && y.Some? {
      assert c[k := x.value][k := y.value] == c[k := y.value];
    } else if y.Some? {
      assert (c - {k})[k := y.value] == c[k := y.value];
    } else {
      assert c - {k} - {k} == c - {k};
    }
  }

  /** A write below a field never makes the field disappear. */
  lemma StaysThere(t: Option<Tree>, path: seq<string>, f: Option<Tree> -> Option<Tree>)
    requires path != [] && t.Some?
    ensures WriteAt(t, path, f).Some?
  {}

  lemma {:induction false} WritesCommute(t: Option<Tree>, p: seq<string>, q: seq<string>,
                                         f: Option<Tree> -> Option<Tree>, g: Option<Tree> -> Option<Tree>)
    requires !(p <= q) && !(q <= p)
    ensures WriteAt(WriteAt(t, p, f), q, g) == WriteAt(WriteAt(t, q, g), p, f)
    decreases |p|
  {
    var k, l := p[0], q[0];
    var x, y := WriteAt(Child(t, k), p[1..], f), WriteAt(Child(t, l), q[1..], g);
    PutChild(t, k, x, l);
    PutChild(t, l, y, k);
    if k == l {
      assert p == [k] + p[1..] && q == [l] + q[1..];
      WritesCommute(Child(t, k), p[1..], q[1..], f, g);
      if Child(t, k).Some? {
        StaysThere(Child(t, k), p[1..], f);
        StaysThere(Child(t, k), q[1..], g);
      }
      SameField(t, k, x, q[1..], g);
      SameField(t, k, y, p[1..], f);
    } else {
      PutsCommute(t, k, x, l, y);
    }
  }

  /** Writing below a field that has just been written. */
  lemma SameField(t: Option<Tree>, k: string, x: Option<Tree>, rest: seq<string>, g: Option<Tree> -> Option<Tree>)
    requires rest != [] && (Child(t, k).Some? ==> x.Some?)
    ensures WriteAt(Put(t, k, x), [k] + rest, g) == Put(t, k, WriteAt(x, rest, g))
  {
    PutChild(t, k, x, k);
    assert ([k] + rest)[1..] == rest;
    if x.Some? {
      StaysThere(x, rest, g);
    } else {
      assert Children(t) - {k} == Children(t);
    }
    PutTwice(t, k, x, WriteAt(x, rest, g));
  }

  /** No write at or above another one, and none twice. */
  ghost predicate Independent(ws: seq<LeafWrite>) {
    Once(ws) && forall a, b | a in ws && b in ws && a != b :: !(a.path <= b.path)
  }

  lemma {:induction false} ToFront(effect: Effect, t: Option<Tree>, ws: seq<LeafWrite>, k: nat)
    requires k < |ws| && Independent(ws)
    ensures ApplyAll(effect, t, ws) == ApplyAll(effect, Apply(effect, t, ws[k]), ws[..k] + ws[k + 1..])
    decreases k
  {
    if k == 0 {
      assert ws[..0] + ws[1..] == ws[1..];
    } else {
      var a, b := ws[0], ws[k];
      OnceDiffer(ws, 0, k);
      TailIndependent(ws);
      ToFront(effect, Apply(effect, t, a), ws[1..], k - 1);
      WritesCommute(t, a.path, b.path, (before: Option<Tree>) => effect(a, before),
        (before: Option<Tree>) => effect(b, before));
      var rest := ws[..k] + ws[k + 1..];
      assert rest[0] == a && rest[1..] == ws[1..][..k - 1] + ws[1..][k..];
    }
  }

  lemma TailIndependent(ws: seq<LeafWrite>)
    requires Independent(ws) && ws != []
    ensures Independent(ws[1..])
  {
    assert ws == [ws[0]] + ws[1..];
    forall x ensures multiset(ws[1..])[x] <= 1 {
      assert multiset(ws)[x] == multiset([ws[0]])[x] + multiset(ws[1..])[x];
    }
  }

  lemma SameIndependent(a: seq<LeafWrite>, b: seq<LeafWrite>)
    requires Independent(a) && multiset(a) == multiset(b)
    ensures Independent(b)
  {
    forall x ensures x in b <==> x in a {
      SameElements(a, b, x);
    }
  }

  lemma TakenOut(a: seq<LeafWrite>, b: seq<LeafWrite>, k: nat)
    requires a != [] && k < |b| && b[k] == a[0] && multiset(a) == multiset(b)
    ensures multiset(a[1..]) == multiset(b[..k] + b[k + 1..])
  {
    assert a == [a[0]] + a[1..] && b == b[..k] + [b[k]] + b[k + 1..];
    assert multiset(a[1..]) == multiset(a) - multiset{a[0]};
    assert multiset(b[..k] + b[k + 1..]) == multiset(b) - multiset{b[k]};
  }

  /** Independent writes give the same document in whatever order they are made. */
  lemma {:induction false} OrderIrrelevant(effect: Effect, t: Option<Tree>, a: seq<LeafWrite>, b: seq<LeafWrite>)
    requires Independent(a) && multiset(a) == multiset(b)
    ensures ApplyAll(effect, t, a) == ApplyAll(effect, t, b)
    decreases |a|
  {
    if a == [] {
      assert |multiset(b)| == 0;
    } else {
      SameElements(a, b, a[0]);
      var k :| 0 <= k < |b| && b[k] == a[0];
      SameIndependent(a, b);
      ToFront(effect, t, b, k);
      TailIndependent(a);
      TakenOut(a, b, k);
      OrderIrrelevant(effect, Apply(effect, t, a[0]), a[1..], b[..k] + b[k + 1..]);
    }
  }

  // ----- Accepted documents -----

  function Writes(c: seq<PathOp>): seq<LeafWrite> {
    seq(|c|, i requires 0 <= i < |c| => LeafWrite(Split(c[i].0, '.'), c[i].1))
  }

  lemma PrefixCases(a: seq<string>, b: seq<string>)
    ensures a <= b <==> a == b || a < b
  {}

  lemma AcceptedIndependent(c: seq<PathOp>)
    requires NoDuplicates(c) && NoAncestors(c)
    ensures Independent(Writes(c))
  {
    var ws := Writes(c);
    forall i, j | 0 <= i < j < |ws| ensures ws[i] != ws[j] {
      assert Differs(c, i, j);
      JoinSplit(c[i].0, '.');
      JoinSplit(c[j].0, '.');
    }
    DifferOnce(ws);
    forall a, b | a in ws && b in ws && a != b ensures !(a.path <= b.path) {
      var i :| 0 <= i < |ws| && ws[i] == a;
      var j :| 0 <= j < |ws| && ws[j] == b;
      assert Differs(c, i, j) && Differs(c, j, i);
      assert !Ancestor(c[i].0, c[j].0);
      JoinSplit(c[i].0, '.');
      JoinSplit(c[j].0, '.');
      PrefixCases(a.path, b.path);
    }
  }

  /** The leaf writes of a document the guard accepts commute: every order of them gives the same result. */
  lemma AcceptedWritesCommute(doc: UpdateDoc, effect: Effect, t: Option<Tree>, order: seq<LeafWrite>)
    requires NoDuplicates(Collected(doc)) && NoAncestors(Collected(doc))
    requires multiset(order) == multiset(Writes(Collected(doc)))
    ensures ApplyAll(effect, t, order) == ApplyAll(effect, t, Writes(Collected(doc)))
  {
    AcceptedIndependent(Collected(doc));
    OrderIrrelevant(effect, t, Writes(Collected(doc)), order);
  }

  // ----- What the guard does not see -----

  /** Paths as they are written, before trimming. */
  function RawBy(doc: UpdateDoc, ops: seq<string>): seq<PathOp> {
    if ops == [] then []
    else
      var op := ops[|ops| - 1];
      RawBy(doc, ops[..|ops| - 1]) + if op in doc then Tagged(OperatorPaths(op, doc[op]), op) else []
  }

  function Tagged(paths: seq<string>, op: string): seq<PathOp> {
    seq(|paths|, i requires 0 <= i < |paths| => (paths[i], op))
  }

  predicate Clean(p: string) {
    p != "" && Trim(p) == p
  }

  ghost predicate CleanPaths(doc: UpdateDoc) {
    forall op, p | op in doc && p in OperatorPaths(op, doc[op]) :: Clean(p)
  }

  lemma {:induction false} CleanNormalized(paths: seq<string>, op: string)
    requires forall p | p in paths :: Clean(p)
    ensures Normalized(paths, op) == Tagged(paths, op)
  {
    if paths != [] {
      assert paths == paths[..|paths| - 1] + [paths[|paths| - 1]] && Clean(paths[|paths| - 1]);
      CleanNormalized(paths[..|paths| - 1], op);
    }
  }

  /** Without white space at the ends of paths, what the guard compares is what is written. */
  lemma {:induction false} CleanIsRaw(doc: UpdateDoc, ops: seq<string>)
    requires CleanPaths(doc)
    ensures CollectedBy(doc, ops) == RawBy(doc, ops)
  {
    if ops != [] {
      var op := ops[|ops| - 1];
      CleanIsRaw(doc, ops[..|ops| - 1]);
      if op in doc {
        CleanNormalized(OperatorPaths(op, doc[op]), op);
      }
    }
  }

  function One(key: string, v: Value): Value {
    Obj(Field(key, v, Nil))
  }

  lemma SpaceSegments()
    ensures Ancestor("x ", "x .y") && !Ancestor("x", "x .y") && !Ancestor("x .y", "x")
  {
    SplitAround("x ", "y", '.');
    SplitFree("x ", '.');
    SplitFree("x", '.');
    SplitFree("y", '.');
    assert "x " + "." + "y" == "x .y";
    assert Split("x .y", '.') == ["x ", "y"] && Split("x", '.') == ["x"];
    assert ["x ", "y"][0] != ["x"][0] by {
      assert |"x"| != |"x "|;
    }
  }

  lemma SpaceTrims()
    ensures Trim("x ") == "x" && Trim("x .y") == "x .y"
  {
    assert "x "[..1] == "x" && IsSpace(' ') && !IsSpace('x') && !IsSpace('y');
    assert TrimLeft("x ") == "x " && TrimRight("x ") == TrimRight("x") == "x";
  }

  lemma OneNormalized(raw: string, p: string, op: string)
    requires p == Trim(raw) && p != ""
    ensures Normalized([raw], op) == [(p, op)] && Tagged([raw], op) == [(raw, op)]
  {
    assert [raw][..0] == [] && Normalized([], op) == [];
  }

  lemma TwoApart(c: seq<PathOp>)
    requires |c| == 2 && c[0].0 != c[1].0 && !Ancestor(c[0].0, c[1].0) && !Ancestor(c[1].0, c[0].0)
    ensures NoDuplicates(c) && NoAncestors(c)
  {}

  /** A path ending in white space hides that it is an ancestor: the guard accepts, the writes conflict. */
  lemma TrailingSpaceUnseen(v: Value)
    requires v.Scalar?
    ensures var doc := map["$set" := One("x ", v), "$inc" := One("x .y", v)];
            && NoDuplicates(Collected(doc)) && NoAncestors(Collected(doc))
            && RawBy(doc, UPDATE_PATH_OPERATORS) == [("x ", "$set"), ("x .y", "$inc")]
            && Ancestor("x ", "x .y")
  {
    var doc := map["$set" := One("x ", v), "$inc" := One("x .y", v)];
    TwoOperators(doc, "x ", v, "x .y", v);
    OneLeaf("x ", v);
    OneLeaf("x .y", v);
    SpaceTrims();
    SpaceSegments();
    OneNormalized("x ", "x", "$set");
    OneNormalized("x .y", "x .y", "$inc");
    assert |"x"| != |"x .y"|;
    TwoApart([("x", "$set"), ("x .y", "$inc")]);
    assert Collected(doc) == [("x", "$set"), ("x .y", "$inc")];
  }

  lemma OtherOperators()
    ensures forall i | 0 <= i < 10 && i != 0 && i != 3 ::
              UPDATE_PATH_OPERATORS[i] != "$set" && UPDATE_PATH_OPERATORS[i] != "$inc"
  {
    var ops := UPDATE_PATH_OPERATORS;
    assert ops[7][1] == 'm' && ops[8][1] == 'm' && "$set"[1] == 's' && "$inc"[1] == 'i';
    assert |ops[1]| == 12 && |ops[2]| == 6 && |ops[4]| == 9 && |ops[5]| == 5 && |ops[6]| == 5 && |ops[9]| == 7;
  }

  lemma OneLeaf(key: string, v: Value)
    requires v.Scalar?
    ensures CollectPaths(One(key, v), "") == [key]
  {
    assert CollectFields(Nil, "") == [];
  }

  lemma StepBy(doc: UpdateDoc, ops: seq<string>, n: nat)
    requires n < |ops|
    ensures CollectedBy(doc, ops[..n + 1]) ==
              CollectedBy(doc, ops[..n]) + if ops[n] in doc then Normalized(OperatorPaths(ops[n], doc[ops[n]]), ops[n])
                else []
    ensures RawBy(doc, ops[..n + 1]) ==
              RawBy(doc, ops[..n]) + if ops[n] in doc then Tagged(OperatorPaths(ops[n], doc[ops[n]]), ops[n]) else []
  {
    assert ops[..n + 1][..n] == ops[..n];
  }

  lemma OthersUnused(doc: UpdateDoc, a: Value, b: Value)
    requires doc == map["$set" := a, "$inc" := b]
    ensures forall i | 0 <= i < 10 && i != 0 && i != 3 :: UPDATE_PATH_OPERATORS[i] !in doc
  {
    OtherOperators();
  }

  /** A document of two operators collects the paths of the first, then those of the second. */
  lemma TwoOperators(doc: UpdateDoc, a: string, v: Value, b: string, w: Value)
    requires doc == map["$set" := One(a, v), "$inc" := One(b, w)]
    ensures Collected(doc)
      == Normalized(CollectPaths(One(a, v), ""), "$set") + Normalized(CollectPaths(One(b, w), ""), "$inc")
    ensures RawBy(doc, UPDATE_PATH_OPERATORS)
      == Tagged(CollectPaths(One(a, v), ""), "$set") + Tagged(CollectPaths(One(b, w), ""), "$inc")
  {
    OthersUnused(doc, One(a, v), One(b, w));
    TwoSteps(doc, UPDATE_PATH_OPERATORS, "$set", "$inc");
    assert OperatorPaths("$set", doc["$set"]) == CollectPaths(One(a, v), "");
    assert OperatorPaths("$inc", doc["$inc"]) == CollectPaths(One(b, w), "");
  }

  lemma UsedAt(doc: UpdateDoc, ops: seq<string>, n: nat)
    requires n < |ops| && ops[n] in doc
    ensures CollectedBy(doc, ops[..n + 1])
      == CollectedBy(doc, ops[..n]) + Normalized(OperatorPaths(ops[n], doc[ops[n]]), ops[n])
    ensures RawBy(doc, ops[..n + 1]) == RawBy(doc, ops[..n]) + Tagged(OperatorPaths(ops[n], doc[ops[n]]), ops[n])
  {
    StepBy(doc, ops, n);
  }

  lemma TwoSteps(doc: UpdateDoc, ops: seq<string>, first: string, second: string)
    requires |ops| == 10 && ops[0] == first && ops[3] == second && first in doc && second in doc
    requires forall i | 0 <= i < 10 && i != 0 && i != 3 :: ops[i] !in doc
    ensures CollectedBy(doc, ops) ==
              Normalized(OperatorPaths(first, doc[first]), first)
                + Normalized(OperatorPaths(second, doc[second]), second)
    ensures RawBy(doc, ops)
      == Tagged(OperatorPaths(first, doc[first]), first) + Tagged(OperatorPaths(second, doc[second]), second)
  {
    assert ops[..10] == ops;
    Unused(doc, ops, 4, 10);
    UsedAt(doc, ops, 3);
    Unused(doc, ops, 1, 3);
    UsedAt(doc, ops, 0);
    var n, m := CollectedBy(doc, ops[..0]), RawBy(doc, ops[..0]);
    assert ops[..0] == [] && n == [] && m == [];
    assert n + Normalized(OperatorPaths(first, doc[first]), first)
           == Normalized(OperatorPaths(first, doc[first]), first);
    assert m + Tagged(OperatorPaths(first, doc[first]), first) == Tagged(OperatorPaths(first, doc[first]), first);
  }

  /** Operators the document does not use add nothing. */
  lemma {:induction false} Unused(doc: UpdateDoc, ops: seq<string>, m: nat, n: nat)
    requires m <= n <= |ops| && forall i | m <= i < n :: ops[i] !in doc
    ensures CollectedBy(doc, ops[..n]) == CollectedBy(doc, ops[..m]) && RawBy(doc, ops[..n]) == RawBy(doc, ops[..m])
    decreases n
  {
    if m < n {
      Unused(doc, ops, m, n - 1);
      assert ops[..n][..n - 1] == ops[..n - 1];
    }
  }

  /** An empty object adds no path, so a write below it is accepted beside it. */
  lemma EmptyObjectUnseen(key: string, v: Value)
    requires v.Scalar? && key != "" && Trim(key + ".n") == key + ".n"
    ensures var doc := map["$set" := One(key, Obj(Nil)), "$inc" := One(key + ".n", v)];
            && Collected(doc) == [(key + ".n", "$inc")]
            && NoDuplicates(Collected(doc)) && NoAncestors(Collected(doc))
            && Ancestor(key, key + ".n")
  {
    var doc := map["$set" := One(key, Obj(Nil)), "$inc" := One(key + ".n", v)];
    TwoOperators(doc, key, Obj(Nil), key + ".n", v);
    assert CollectPaths(Obj(Nil), key) == [];
    OneLeaf(key + ".n", v);
    StringTestIsSegmentTest(key + ".n", key);
  }
}
