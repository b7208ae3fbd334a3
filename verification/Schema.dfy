/** Canonical tool schemas (`tools/schema.py`): `$ref` inlining and the removal of
    null from optional properties. */
module Schema {
  import opened Strings
  import opened Wrappers
  import opened JsonValue

  // ---------- references ----------

  const LOCAL_PREFIX := "#/$defs/"

  // `ref.split("/")[-1]`
  function LastSegment(ref: string): string {
    Split(ref)[|Split(ref)| - 1]
  }

  // A node the inliner replaces by its target, whatever stands beside `$ref`.
  predicate IsLocalRef(node: Json) {
    && node.Object? && "$ref" in node.fields
    && node.fields["$ref"].String? && LOCAL_PREFIX <= node.fields["$ref"].text
  }

  function RefText(node: Json): string
    requires IsLocalRef(node)
  {
    node.fields["$ref"].text
  }

  function TargetName(node: Json): string
    requires IsLocalRef(node)
  {
    LastSegment(RefText(node))
  }

  // Definitions are schema objects.
  type Defs = d: map<string, Json> | forall n :: n in d ==> d[n].Object? witness map[]

  // The inliner, started at `node`, is done within `depth` expansions on every branch.
  ghost predicate Unfolds(defs: Defs, node: Json, depth: nat)
    decreases depth, node
  {
    if IsLocalRef(node) then
      TargetName(node) in defs ==> depth > 0 && Unfolds(defs, defs[TargetName(node)], depth - 1)
    else
      match node
      case Object(fields) => forall k :: k in fields ==> Unfolds(defs, fields[k], depth)
      case Array(items) => forall i :: 0 <= i < |items| ==> Unfolds(defs, items[i], depth)
      case _ => true
  }

  // `resolve`: a dangling reference becomes the empty schema.
  function Resolve(defs: Defs, node: Json, ghost depth: nat): Json
    requires Unfolds(defs, node, depth)
    decreases depth, node
  {
    if IsLocalRef(node) then
      var name := TargetName(node);
      if name in defs then Resolve(defs, defs[name], depth - 1) else Object(map[])
    else
      match node
      case Object(fields) => Object(map k | k in fields :: Resolve(defs, fields[k], depth))
      case Array(items) => Array(seq(|items|, i requires 0 <= i < |items| => Resolve(defs, items[i], depth)))
      case _ => node
  }

  function DefsOf(schema: map<string, Json>): map<string, Json> {
    if "$defs" in schema && schema["$defs"].Object? then schema["$defs"].fields else map[]
  }

  // The root without its definitions.
  function Root(schema: map<string, Json>): Json {
    Object(schema - {"$defs"})
  }

  ghost predicate SchemaObjects(m: map<string, Json>) {
    forall n :: n in m ==> m[n].Object?
  }

  // `_inline_refs`: without definitions the schema is left alone, references included.
  function InlineRefs(schema: map<string, Json>, ghost depth: nat): Json
    requires SchemaObjects(DefsOf(schema))
    requires DefsOf(schema) != map[] ==> Unfolds(DefsOf(schema), Root(schema), depth)
  {
    if DefsOf(schema) == map[] then Root(schema)
    else Resolve(DefsOf(schema), Root(schema), depth)
  }

  // Nothing anywhere inside that the inliner would replace.
  ghost predicate RefFree(node: Json) {
    && !IsLocalRef(node)
    && match node
       case Object(fields) => forall k :: k in fields ==> RefFree(fields[k])
       case Array(items) => forall i :: 0 <= i < |items| ==> RefFree(items[i])
       case _ => true
  }

  lemma {:induction false} ResolveShape(defs: Defs, node: Json, depth: nat)
    requires Unfolds(defs, node, depth)
    ensures var r := Resolve(defs, node, depth);
      && (node.Object? <==> r.Object?) && (node.Array? <==> r.Array?)
      && (node.Array? ==> |r.items| == |node.items|)
      && (!node.Object? && !node.Array? ==> r == node)
      && (node.Object? && !IsLocalRef(node) ==> r.fields.Keys == node.fields.Keys)
    decreases depth
  {
    if IsLocalRef(node) && TargetName(node) in defs {
      ResolveShape(defs, defs[TargetName(node)], depth - 1);
    }
  }

  // Inlining leaves nothing to inline, in subschemas and in data.
  lemma {:induction false} ResolveLeavesNoRefs(defs: Defs, node: Json, depth: nat)
    requires Unfolds(defs, node, depth)
    ensures RefFree(Resolve(defs, node, depth))
    decreases depth, node
  {
    if IsLocalRef(node) {
      if TargetName(node) in defs {
        ResolveLeavesNoRefs(defs, defs[TargetName(node)], depth - 1);
      }
    } else {
      match node {
        case Object(fields) =>
          forall k | k in fields ensures RefFree(Resolve(defs, fields[k], depth)) {
            ResolveLeavesNoRefs(defs, fields[k], depth);
          }
          NotARefAfterResolve(defs, node, depth);
        case Array(items) =>
          forall i | 0 <= i < |items| ensures RefFree(Resolve(defs, items[i], depth)) {
            ResolveLeavesNoRefs(defs, items[i], depth);
          }
        case _ =>
      }
    }
  }

  lemma NotARefAfterResolve(defs: Defs, node: Json, depth: nat)
    requires Unfolds(defs, node, depth) && !IsLocalRef(node)
    ensures !IsLocalRef(Resolve(defs, node, depth))
  {
    if node.Object? && "$ref" in node.fields {
      ResolveShape(defs, node.fields["$ref"], depth);
    }
  }

  lemma {:induction false} RefFreeUnfolds(defs: Defs, node: Json, depth: nat)
    requires RefFree(node)
    ensures Unfolds(defs, node, depth)
    decreases node
  {
    match node {
      case Object(fields) =>
        forall k | k in fields ensures Unfolds(defs, fields[k], depth) {
          RefFreeUnfolds(defs, fields[k], depth);
        }
      case Array(items) =>
        forall i | 0 <= i < |items| ensures Unfolds(defs, items[i], depth) {
          RefFreeUnfolds(defs, items[i], depth);
        }
      case _ =>
    }
  }

  // What has nothing to inline passes through unchanged.
  lemma {:induction false} ResolveRefFree(defs: Defs, node: Json, depth: nat)
    requires RefFree(node)
    ensures Unfolds(defs, node, depth) && Resolve(defs, node, depth) == node
    decreases node
  {
    RefFreeUnfolds(defs, node, depth);
    match node {
      case Object(fields) =>
        forall k | k in fields ensures Resolve(defs, fields[k], depth) == fields[k] {
          ResolveRefFree(defs, fields[k], depth);
        }
        assert Resolve(defs, node, depth).fields == fields;
      case Array(items) =>
        forall i | 0 <= i < |items| ensures Resolve(defs, items[i], depth) == items[i] {
          ResolveRefFree(defs, items[i], depth);
        }
        assert Resolve(defs, node, depth).items == items;
      case _ =>
    }
  }

  // The bound is only a bound: more of it changes nothing.
  lemma {:induction false} DepthIrrelevant(defs: Defs, node: Json, d: nat, e: nat)
    requires d <= e && Unfolds(defs, node, d)
    ensures Unfolds(defs, node, e) && Resolve(defs, node, e) == Resolve(defs, node, d)
    decreases d, node
  {
    if IsLocalRef(node) {
      if TargetName(node) in defs {
        DepthIrrelevant(defs, defs[TargetName(node)], d - 1, e - 1);
      }
    } else {
      match node {
        case Object(fields) =>
          forall k | k in fields
            ensures Unfolds(defs, fields[k], e) && Resolve(defs, fields[k], e) == Resolve(defs, fields[k], d) {
            DepthIrrelevant(defs, fields[k], d, e);
          }
          assert Resolve(defs, node, e).fields == Resolve(defs, node, d).fields;
        case Array(items) =>
          forall i | 0 <= i < |items|
            ensures Unfolds(defs, items[i], e) && Resolve(defs, items[i], e) == Resolve(defs, items[i], d) {
            DepthIrrelevant(defs, items[i], d, e);
          }
          assert Resolve(defs, node, e).items == Resolve(defs, node, d).items;
        case _ =>
      }
    }
  }

  // ---------- when inlining terminates ----------

  // The definitions a node refers to; siblings of a reference do not count.
  function RefNames(node: Json): set<string> {
    if IsLocalRef(node) then {TargetName(node)} else
    match node
    case Object(fields) => set k, n | k in fields && n in RefNames(fields[k]) :: n
    case Array(items) => set i, n | 0 <= i < |items| && n in RefNames(items[i]) :: n
    case _ => {}
  }

  // A walk through the definitions, each referring to the next.
  ghost predicate RefPath(defs: Defs, path: seq<string>) {
    && (forall i :: 0 <= i < |path| ==> path[i] in defs)
    && (forall i :: 0 <= i < |path| - 1 ==> path[i] in defs && path[i + 1] in RefNames(defs[path[i]]))
  }

  ghost predicate RefCycle(defs: Defs, path: seq<string>) {
    2 <= |path| && RefPath(defs, path) && path[0] == path[|path| - 1]
  }

  // Running out of depth exhibits a walk that long.
  lemma {:induction false} StuckMeansLongPath(defs: Defs, node: Json, depth: nat) returns (path: seq<string>)
    requires !Unfolds(defs, node, depth)
    ensures |path| == depth + 1 && RefPath(defs, path) && path[0] in RefNames(node)
    decreases depth, node
  {
    if IsLocalRef(node) {
      var name := TargetName(node);
      if depth == 0 {
        path := [name];
      } else {
        var rest := StuckMeansLongPath(defs, defs[name], depth - 1);
        path := [name] + rest;
      }
    } else {
      match node {
        case Object(fields) =>
          var k :| k in fields && !Unfolds(defs, fields[k], depth);
          path := StuckMeansLongPath(defs, fields[k], depth);
        case Array(items) =>
          var i :| 0 <= i < |items| && !Unfolds(defs, items[i], depth);
          path := StuckMeansLongPath(defs, items[i], depth);
      }
    }
  }

  // Unfolding a node unfolds whatever it refers to, one expansion deeper.
  lemma {:induction false} UnfoldsReaches(defs: Defs, node: Json, depth: nat, name: string)
    requires Unfolds(defs, node, depth) && name in RefNames(node) && name in defs
    ensures depth > 0 && Unfolds(defs, defs[name], depth - 1)
    decreases node
  {
    if !IsLocalRef(node) {
      match node {
        case Object(fields) =>
          var k :| k in fields && name in RefNames(fields[k]);
          UnfoldsReaches(defs, fields[k], depth, name);
        case Array(items) =>
          var i :| 0 <= i < |items| && name in RefNames(items[i]);
          UnfoldsReaches(defs, items[i], depth, name);
      }
    }
  }

  lemma {:induction false} LongPathMeansStuck(defs: Defs, path: seq<string>, depth: nat)
    requires path != [] && RefPath(defs, path) && Unfolds(defs, defs[path[0]], depth)
    ensures |path| <= depth + 1
    decreases |path|
  {
    if 2 <= |path| {
      UnfoldsReaches(defs, defs[path[0]], depth, path[1]);
      var rest := path[1..];
      assert forall i :: 0 <= i < |rest| ==> rest[i] == path[i + 1];
      LongPathMeansStuck(defs, rest, depth - 1);
    }
  }

  lemma {:induction false} Pigeonhole(names: set<string>, path: seq<string>) returns (i: nat, j: nat)
    requires forall k :: 0 <= k < |path| ==> path[k] in names
    requires |path| > |names|
    ensures i < j < |path| && path[i] == path[j]
    decreases |names|
  {
    var last := |path| - 1;
    if k :| 0 <= k < last && path[k] == path[last] {
      i, j := k, last;
    } else {
      i, j := Pigeonhole(names - {path[last]}, path[..last]);
    }
  }

  // A cycle can be walked as long as one likes.
  lemma {:induction false} WalkCycle(defs: Defs, cycle: seq<string>, length: nat) returns (path: seq<string>)
    requires RefCycle(defs, cycle)
    ensures |path| > length && RefPath(defs, path) && path[0] == path[|path| - 1] == cycle[0]
    decreases length
  {
    if length == 0 {
      path := cycle;
    } else {
      var shorter := WalkCycle(defs, cycle, length - 1);
      path := shorter + cycle[1..];
      forall i | 0 <= i < |path| - 1
        ensures path[i] in defs && path[i + 1] in RefNames(defs[path[i]])
      {
        if |shorter| <= i + 1 {
          assert path[i + 1] == cycle[i + 2 - |shorter|];
          assert path[i] == cycle[i + 1 - |shorter|];
        }
      }
    }
  }

  // A walk that starts at a reference of `node` and comes back to a definition it has
  // been through.
  ghost predicate Recurs(defs: Defs, node: Json, path: seq<string>) {
    && path != [] && RefPath(defs, path) && path[0] in RefNames(node)
    && exists i :: 0 <= i < |path| - 1 && path[i] == path[|path| - 1]
  }

  // The part of a recurring walk that comes back can be walked again and again.
  lemma WalkOn(defs: Defs, node: Json, path: seq<string>, length: nat) returns (longer: seq<string>)
    requires Recurs(defs, node, path)
    ensures |longer| > length && RefPath(defs, longer) && longer[0] in RefNames(node)
  {
    var i :| 0 <= i < |path| - 1 && path[i] == path[|path| - 1];
    assert RefCycle(defs, path[i..]);
    var round := WalkCycle(defs, path[i..], length);
    longer := path[..i] + round;
    forall m | 0 <= m < |longer| - 1
      ensures longer[m] in defs && longer[m + 1] in RefNames(defs[longer[m]])
    {
      if m < i {
        assert longer[m] == path[m] && longer[m + 1] == path[m + 1];
      } else {
        assert longer[m] == round[m - i] && longer[m + 1] == round[m + 1 - i];
      }
    }
    assert forall m :: 0 <= m < |longer| ==> longer[m] in defs;
  }

  lemma RecurringWalkNeverEnds(defs: Defs, node: Json, path: seq<string>, depth: nat)
    requires Recurs(defs, node, path)
    ensures !Unfolds(defs, node, depth)
  {
    var walk := WalkOn(defs, node, path, depth);
    if Unfolds(defs, node, depth) {
      UnfoldsReaches(defs, node, depth, walk[0]);
      LongPathMeansStuck(defs, walk, depth - 1);
    }
  }

  // Not done after as many expansions as there are definitions: some walk has come back.
  lemma StuckMeansRecurring(defs: Defs, node: Json) returns (path: seq<string>)
    requires !Unfolds(defs, node, |defs|)
    ensures Recurs(defs, node, path)
  {
    path := StuckMeansLongPath(defs, node, |defs|);
    var i, j := Pigeonhole(defs.Keys, path);
    path := path[..j + 1];
    assert path[i] == path[j];
  }

  // Where no walk comes back, the number of definitions is depth enough.
  lemma AcyclicUnfolds(defs: Defs, node: Json)
    requires !(exists path :: Recurs(defs, node, path))
    ensures Unfolds(defs, node, |defs|)
  {
    hide Unfolds, Recurs;
    if !Unfolds(defs, node, |defs|) {
      var path := StuckMeansRecurring(defs, node);
    }
  }

  // Resolving a schema terminates exactly when no walk along the references it reaches
  // comes back to a definition it has been through. Cycles it does not reach are harmless.
  lemma InliningTerminatesIffAcyclic(defs: Defs, node: Json)
    ensures (exists depth: nat :: Unfolds(defs, node, depth)) <==> !(exists path :: Recurs(defs, node, path))
  {
    hide Unfolds, Recurs;
    if path :| Recurs(defs, node, path) {
      forall depth: nat ensures !Unfolds(defs, node, depth) {
        RecurringWalkNeverEnds(defs, node, path, depth);
      }
    } else {
      AcyclicUnfolds(defs, node);
    }
  }

  // A definition that refers to itself, and a schema that refers to nothing: the cycle
  // is never entered.
  const SELF := Object(map["$ref" := String("#/$defs/B")])
  const UNTOUCHED := Object(map["type" := String("string")])

  lemma UnreachedCycleIsHarmless()
    ensures Unfolds(map["B" := SELF], UNTOUCHED, 0)
    ensures RefCycle(map["B" := SELF], ["B", "B"])
  {
    assert !IsLocalRef(UNTOUCHED) && RefFree(UNTOUCHED.fields["type"]);
    assert RefFree(UNTOUCHED);
    RefFreeUnfolds(map["B" := SELF], UNTOUCHED, 0);
    SelfRefersToB();
  }

  lemma SelfRefersToB()
    ensures RefNames(SELF) == {"B"}
  {
    LocalName("B");
    assert LOCAL_PREFIX + "B" == "#/$defs/B";
  }

  // What follows the prefix of a local reference decides its last segment.
  lemma LocalName(rest: string)
    ensures LastSegment(LOCAL_PREFIX + rest) == LastSegment(rest)
    ensures '/' !in rest ==> LastSegment(LOCAL_PREFIX + rest) == rest
  {
    assert LOCAL_PREFIX + rest == "#/$defs" + "/" + rest;
    SplitConcat("#/$defs", rest);
    SplitPlain(rest);
  }
}
