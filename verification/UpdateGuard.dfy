/** The update-path conflict guard (storage/user.mongo.js, collectPathsFromValue to assertNoConflictingUpdatePaths). */
module UpdateGuard {
  import opened Wrappers
  import opened Text

  /** A scalar stands for everything that is not a plain object: text, numbers, dates, arrays, null. */
  datatype Value = Scalar(isString: bool, text: string) | Obj(fields: Fields)

  /** Fields in key order. */
  datatype Fields = Nil | Field(key: string, value: Value, rest: Fields)

  type UpdateDoc = map<string, Value>

  type PathOp = (string, string)

  datatype Conflict =
    | Duplicate(path: string, first: string, second: string)
    | Prefix(longer: PathOp, shorter: PathOp)

  const UPDATE_PATH_OPERATORS :=
    ["$set", "$setOnInsert", "$unset", "$inc", "$addToSet", "$push", "$pull", "$min", "$max", "$rename"]

  // ----- Collecting paths -----

  function Under(prefix: string, key: string): string {
    if prefix != "" then prefix + "." + key else key
  }

  function CollectPaths(v: Value, prefix: string): seq<string> {
    match v
    case Scalar(_, _) => if prefix != "" then [prefix] else []
    case Obj(fields) => CollectFields(fields, prefix)
  }

  function CollectFields(f: Fields, prefix: string): seq<string> {
    match f
    case Nil => []
    case Field(key, value, rest) =>
      (if value.Obj? then CollectPaths(value, Under(prefix, key)) else [Under(prefix, key)])
        + CollectFields(rest, prefix)
  }

  function Keys(f: Fields): seq<string> {
    match f
    case Nil => []
    case Field(key, _, rest) => [key] + Keys(rest)
  }

  function StringValues(f: Fields): seq<string> {
    match f
    case Nil => []
    case Field(_, value, rest) => (if value.Scalar? && value.isString then [value.text] else []) + StringValues(rest)
  }

  function OperatorPaths(op: string, v: Value): seq<string> {
    if v.Scalar? then []
    else if op == "$unset" then Keys(v.fields)
    else if op == "$rename" then Keys(v.fields) + StringValues(v.fields)
    else CollectPaths(v, "")
  }

  /** Trimmed, blank ones left out, each with its operator. */
  function Normalized(paths: seq<string>, op: string): seq<PathOp> {
    if paths == [] then []
    else
      var p := Trim(paths[|paths| - 1]);
      Normalized(paths[..|paths| - 1], op) + if p == "" then [] else [(p, op)]
  }

  function CollectedBy(doc: UpdateDoc, ops: seq<string>): seq<PathOp> {
    if ops == [] then []
    else
      var op := ops[|ops| - 1];
      CollectedBy(doc, ops[..|ops| - 1]) + if op in doc then Normalized(OperatorPaths(op, doc[op]), op) else []
  }

  function Collected(doc: UpdateDoc): seq<PathOp> {
    CollectedBy(doc, UPDATE_PATH_OPERATORS)
  }

  // ----- What the guard is for -----

  predicate Differs(c: seq<PathOp>, i: int, j: int) {
    0 <= i < j < |c| ==> c[i].0 != c[j].0
  }

  ghost predicate NoDuplicates(c: seq<PathOp>) {
    forall i, j :: Differs(c, i, j)
  }

  /** `b` names an ancestor of what `a` names. */
  predicate Ancestor(b: string, a: string) {
    Split(b, '.') < Split(a, '.')
  }

  predicate StringTest(a: string, b: string) {
    StartsWith(a, b + ".")
  }

  ghost predicate NoAncestors(c: seq<PathOp>) {
    forall i, j | 0 <= i < |c| && 0 <= j < |c| && i != j :: !Ancestor(c[j].0, c[i].0)
  }

  /** The string test with a trailing dot is exactly the test on dotted segments. */
  lemma StringTestIsSegmentTest(a: string, b: string)
    ensures StringTest(a, b) <==> Ancestor(b, a)
  {
    if StringTest(a, b) {
      assert a == b + "." + a[|b| + 1..];
      SplitAround(b, a[|b| + 1..], '.');
      assert Split(b, '.') <= Split(b, '.') + Split(a[|b| + 1..], '.');
    }
    if Ancestor(b, a) {
      var rest := Split(a, '.')[|Split(b, '.')|..];
      assert Split(a, '.') == Split(b, '.') + rest;
      JoinAppend(Split(b, '.'), rest, '.');
      JoinSplit(a, '.');
      JoinSplit(b, '.');
      assert a == b + "." + Join(rest, '.');
    }
  }

  // ----- The guard -----

  lemma OneMore(c: seq<PathOp>, p: PathOp)
    requires NoDuplicates(c) && forall i | 0 <= i < |c| :: c[i].0 != p.0
    ensures NoDuplicates(c + [p])
  {
    forall i, j ensures Differs(c + [p], i, j) {
      assert Differs(c, i, j);
    }
  }

  /** What the rest of the operators adds comes after what has been collected. */
  lemma {:induction false} CollectedGrows(doc: UpdateDoc, ops: seq<string>, n: nat)
    requires n <= |ops|
    ensures CollectedBy(doc, ops[..n]) <= CollectedBy(doc, ops)
    decreases |ops|
  {
    if n < |ops| {
      CollectedGrows(doc, ops[..|ops| - 1], n);
      assert ops[..|ops| - 1][..n] == ops[..n];
    } else {
      assert ops[..n] == ops;
    }
  }

  lemma {:induction false} NormalizedGrows(paths: seq<string>, op: string, n: nat)
    requires n <= |paths|
    ensures Normalized(paths[..n], op) <= Normalized(paths, op)
    decreases |paths|
  {
    if n < |paths| {
      NormalizedGrows(paths[..|paths| - 1], op, n);
      assert paths[..|paths| - 1][..n] == paths[..n];
    } else {
      assert paths[..n] == paths;
    }
  }

  /** One path given twice, by the operators named. */
  ghost predicate IsDuplicate(c: seq<PathOp>, e: Conflict) {
    e.Duplicate? && exists i, j :: 0 <= i < j < |c| && c[i] == (e.path, e.first) && c[j] == (e.path, e.second)
  }

  ghost predicate IsPrefix(c: seq<PathOp>, e: Conflict) {
    e.Prefix? && e.longer in c && e.shorter in c && Ancestor(e.shorter.0, e.longer.0)
  }

  /** pathToOp as the loop fills it: its entries in order, and the operator of each path. */
  ghost predicate Filled(pathToOp: map<string, string>, c: seq<PathOp>) {
    && (forall i | 0 <= i < |c| :: c[i].0 in pathToOp && pathToOp[c[i].0] == c[i].1)
    && (forall p | p in pathToOp :: (p, pathToOp[p]) in c)
  }

  lemma NormalizedStep(paths: seq<string>, op: string, i: nat)
    requires i < |paths|
    ensures var p := Trim(paths[i]);
            Normalized(paths[..i + 1], op) ==
              if p == "" then Normalized(paths[..i], op) else Normalized(paths[..i], op) + [(p, op)]
  {
    assert paths[..i + 1][..i] == paths[..i];
  }

  lemma FoundTwice(c: seq<PathOp>, paths: seq<string>, op: string, i: nat, first: string)
    requires i < |paths| && Trim(paths[i]) != "" && (Trim(paths[i]), first) in c + Normalized(paths[..i], op)
    ensures IsDuplicate(c + Normalized(paths, op), Duplicate(Trim(paths[i]), first, op))
  {
    var p := Trim(paths[i]);
    var before, all := c + Normalized(paths[..i], op), c + Normalized(paths, op);
    var k :| 0 <= k < |before| && before[k] == (p, first);
    NormalizedStep(paths, op, i);
    NormalizedGrows(paths, op, i + 1);
    assert before + [(p, op)] == c + Normalized(paths[..i + 1], op);
    assert before + [(p, op)] <= all;
    assert all[k] == (p, first) && all[|before|] == (p, op);
  }

  lemma FilledStep(pathToOp: map<string, string>, c: seq<PathOp>, p: PathOp)
    requires Filled(pathToOp, c) && p.0 !in pathToOp
    ensures Filled(pathToOp[p.0 := p.1], c + [p])
  {
    forall q | q in pathToOp ensures (q, pathToOp[q]) in c + [p] {}
  }

  method AddPaths(paths: seq<string>, op: string, c: seq<PathOp>, pathToOp: map<string, string>)
    returns (r: Result<seq<PathOp>, Conflict>, filled: map<string, string>)
    requires NoDuplicates(c) && Filled(pathToOp, c)
    ensures r.Ok? ==> r.value == c + Normalized(paths, op) && NoDuplicates(r.value) && Filled(filled, r.value)
    ensures r.Err? ==> IsDuplicate(c + Normalized(paths, op), r.error)
  {
    var collected := c;
    filled := pathToOp;
    for i := 0 to |paths|
      invariant collected == c + Normalized(paths[..i], op)
      invariant NoDuplicates(collected) && Filled(filled, collected)
    {
      var normalized := Trim(paths[i]);
      NormalizedStep(paths, op, i);
      if normalized != "" {
        if normalized in filled {
          var first := filled[normalized];
          FoundTwice(c, paths, op, i, first);
          return Err(Duplicate(normalized, first, op)), filled;
        }
        OneMore(collected, (normalized, op));
        FilledStep(filled, collected, (normalized, op));
        filled := filled[normalized := op];
        collected := collected + [(normalized, op)];
      }
    }
    assert paths[..|paths|] == paths;
    r := Ok(collected);
  }

  lemma DuplicateCarries(c: seq<PathOp>, all: seq<PathOp>, e: Conflict)
    requires c <= all && IsDuplicate(c, e)
    ensures IsDuplicate(all, e)
  {
    var i, j :| 0 <= i < j < |c| && c[i] == (e.path, e.first) && c[j] == (e.path, e.second);
    assert all[i] == c[i] && all[j] == c[j];
  }

  method CollectUpdatePathsByOperator(doc: UpdateDoc) returns (r: Result<seq<PathOp>, Conflict>)
    ensures r.Ok? ==> r.value == Collected(doc) && NoDuplicates(r.value)
    ensures r.Err? ==> IsDuplicate(Collected(doc), r.error)
  {
    var ops := UPDATE_PATH_OPERATORS;
    var collected: seq<PathOp>, pathToOp: map<string, string> := [], map[];
    for i := 0 to |ops|
      invariant collected == CollectedBy(doc, ops[..i])
      invariant NoDuplicates(collected) && Filled(pathToOp, collected)
    {
      assert ops[..i + 1][..i] == ops[..i];
      if ops[i] in doc && doc[ops[i]].Obj? {
        var added, filled := AddPaths(OperatorPaths(ops[i], doc[ops[i]]), ops[i], collected, pathToOp);
        if added.Err? {
          CollectedGrows(doc, ops, i + 1);
          DuplicateCarries(CollectedBy(doc, ops[..i + 1]), Collected(doc), added.error);
          return added;
        }
        collected, pathToOp := added.value, filled;
      }
    }
    assert ops[..|ops|] == ops;
    r := Ok(collected);
  }

  method AssertNoPrefixConflicts(paths: seq<PathOp>) returns (r: Result<(), Conflict>)
    ensures r.Ok? ==> NoAncestors(paths)
    ensures r.Err? ==> IsPrefix(paths, r.error)
  {
    for i := 0 to |paths|
      invariant forall k, l | 0 <= k < i && 0 <= l < |paths| && k != l :: !Ancestor(paths[l].0, paths[k].0)
    {
      for j := 0 to |paths|
        invariant forall l | 0 <= l < j && l != i :: !Ancestor(paths[l].0, paths[i].0)
      {
        if i != j {
          StringTestIsSegmentTest(paths[i].0, paths[j].0);
          if StringTest(paths[i].0, paths[j].0) {
            return Err(Prefix(paths[i], paths[j]));
          }
        }
      }
    }
    r := Ok(());
  }

  /**
    Accepts exactly the documents whose paths are all different and none an ancestor of another; names a real
    conflict otherwise.
   */
  method AssertNoConflictingUpdatePaths(doc: UpdateDoc) returns (r: Result<(), Conflict>)
    ensures r.Ok? <==> NoDuplicates(Collected(doc)) && NoAncestors(Collected(doc))
    ensures r.Err? ==> IsDuplicate(Collected(doc), r.error) || IsPrefix(Collected(doc), r.error)
  {
    var collected := CollectUpdatePathsByOperator(doc);
    if collected.Err? {
      DuplicateIsConflict(Collected(doc), collected.error);
      return Err(collected.error);
    }
    r := AssertNoPrefixConflicts(collected.value);
    if r.Err? {
      PrefixIsConflict(Collected(doc), r.error);
    }
  }

  lemma DuplicateIsConflict(c: seq<PathOp>, e: Conflict)
    requires IsDuplicate(c, e)
    ensures !NoDuplicates(c)
  {
    var i, j :| 0 <= i < j < |c| && c[i] == (e.path, e.first) && c[j] == (e.path, e.second);
    assert !Differs(c, i, j);
  }

  lemma PrefixIsConflict(c: seq<PathOp>, e: Conflict)
    requires IsPrefix(c, e)
    ensures !NoAncestors(c)
  {
    var i :| 0 <= i < |c| && c[i] == e.longer;
    var j :| 0 <= j < |c| && c[j] == e.shorter;
    assert i != j && Ancestor(c[j].0, c[i].0);
  }

  // ----- The tree walk -----

  predicate HasField(f: Fields, key: string, v: Value) {
    f.Field? && ((f.key == key && f.value == v) || HasField(f.rest, key, v))
  }

  /** The keys lead, field by field, from the value to a leaf. */
  ghost predicate Leads(v: Value, keys: seq<string>)
    decreases |keys|
  {
    if keys == [] then v.Scalar?
    else v.Obj? && exists w :: HasField(v.fields, keys[0], w) && Leads(w, keys[1..])
  }

  function PathOf(prefix: string, keys: seq<string>): string
    decreases |keys|
  {
    if keys == [] then prefix else PathOf(Under(prefix, keys[0]), keys[1..])
  }

  lemma {:induction false} CollectedLead(v: Value, prefix: string, p: string) returns (keys: seq<string>)
    requires v.Obj? && p in CollectPaths(v, prefix)
    ensures Leads(v, keys) && p == PathOf(prefix, keys)
  {
    keys := FieldsLead(v.fields, prefix, p);
    var w :| HasField(v.fields, keys[0], w) && Leads(w, keys[1..]);
  }

  lemma {:induction false} FieldsLead(f: Fields, prefix: string, p: string) returns (keys: seq<string>)
    requires p in CollectFields(f, prefix)
    ensures keys != [] && (exists w :: HasField(f, keys[0], w) && Leads(w, keys[1..])) && p == PathOf(prefix, keys)
  {
    var path := Under(prefix, f.key);
    if f.value.Obj? && p in CollectPaths(f.value, path) {
      var rest := CollectedLead(f.value, path, p);
      keys := [f.key] + rest;
      assert keys[1..] == rest && HasField(f, f.key, f.value);
    } else if f.value.Scalar? && p == path {
      keys := [f.key];
      assert keys[1..] == [] && HasField(f, f.key, f.value) && Leads(f.value, []);
    } else {
      keys := FieldsLead(f.rest, prefix, p);
      var w :| HasField(f.rest, keys[0], w) && Leads(w, keys[1..]);
      assert HasField(f, keys[0], w);
    }
  }

  lemma {:induction false} LeadsCollected(v: Value, prefix: string, keys: seq<string>)
    requires v.Obj? && Leads(v, keys)
    ensures PathOf(prefix, keys) in CollectPaths(v, prefix)
    decreases |keys|, 0, v
  {
    var w :| HasField(v.fields, keys[0], w) && Leads(w, keys[1..]);
    LeadsFields(v.fields, prefix, keys, w);
  }

  lemma {:induction false} LeadsFields(f: Fields, prefix: string, keys: seq<string>, w: Value)
    requires keys != [] && HasField(f, keys[0], w) && Leads(w, keys[1..])
    ensures PathOf(prefix, keys) in CollectFields(f, prefix)
    decreases |keys| - 1, 1, f
  {
    if f.key == keys[0] && f.value == w {
      if w.Obj? {
        LeadsCollected(w, Under(prefix, f.key), keys[1..]);
      }
    } else {
      LeadsFields(f.rest, prefix, keys, w);
    }
  }

  /** The walk yields exactly the root-to-leaf paths of the object. */
  lemma WalkYieldsLeaves(v: Value, p: string)
    requires v.Obj?
    ensures p in CollectPaths(v, "") <==> exists keys :: Leads(v, keys) && p == PathOf("", keys)
  {
    if p in CollectPaths(v, "") {
      var keys := CollectedLead(v, "", p);
    }
    if exists keys :: Leads(v, keys) && p == PathOf("", keys) {
      var keys :| Leads(v, keys) && p == PathOf("", keys);
      LeadsCollected(v, "", keys);
    }
  }
}
