/** What inlining keeps (`tools/schema.py`): which references it leaves, and exactly when a
    schema accepts the same after it. */
module SchemaInlining {
  import opened Wrappers
  import opened JsonValue
  import opened Schema
  import opened SchemaMeaning
  import opened SchemaPointers

  // ---------- what inlining asks for ----------

  // No plain data met on the way looks like a reference: the inliner would rewrite it.
  ghost predicate DataRefFree(reading: Reading, node: Json, depth: nat)
    decreases depth, node
  {
    if IsRef(node) then
      var target := reading(node.fields);
      target.Some? && depth > 0 ==> DataRefFree(reading, target.value, depth - 1)
    else
      node.Object? ==>
        && (forall k :: k in node.fields && HoldsData(k, node.fields[k]) ==> RefFree(node.fields[k]))
        && forall k, s | k in node.fields && s in Subschemas(k, node.fields[k]) ::
             (SubschemaIsSmaller(node, k, s); DataRefFree(reading, s, depth))
  }

  // Every reference met is plain and names a definition, with nothing beside it that
  // asserts anything.
  ghost predicate RefsName(defs: Defs, idle: iset<string>, node: Json, depth: nat)
    decreases depth, node
  {
    if IsRef(node) then
      var ref := node.fields["$ref"].text;
      && PlainRef(ref) && Alone(node.fields, idle)
      && LastSegment(ref) in defs
      && depth > 0 && RefsName(defs, idle, defs[LastSegment(ref)], depth - 1)
    else
      node.Object? ==>
        forall k, s | k in node.fields && s in Subschemas(k, node.fields[k]) ::
          (SubschemaIsSmaller(node, k, s); RefsName(defs, idle, s, depth))
  }

  // Such a reference is inlined, and denotes what the inliner puts in its place.
  lemma NamingRef(doc: Document, node: Json)
    requires SchemaObjects(DefsOf(doc.root)) && IsRef(node)
    requires PlainRef(node.fields["$ref"].text) && Alone(node.fields, doc.idle)
    requires LastSegment(node.fields["$ref"].text) in DefsOf(doc.root)
    ensures IsLocalRef(node) && TargetName(node) == LastSegment(node.fields["$ref"].text)
    ensures ByDocument(doc)(node.fields) == Some(DefsOf(doc.root)[TargetName(node)])
  {
    hide LastSegment, PointerKeys, Walk;
    PlainRefsName(doc, node.fields["$ref"].text);
    assert node == Object(node.fields);
  }

  lemma {:induction false} RefsNameGround(doc: Document, node: Json, depth: nat)
    requires SchemaObjects(DefsOf(doc.root)) && RefsName(DefsOf(doc.root), doc.idle, node, depth)
    ensures Grounded(ByDocument(doc), node, depth)
    decreases depth, node
  {
    hide ByDocument, PlainRef, LastSegment;
    if IsRef(node) {
      NamingRef(doc, node);
      RefsNameGround(doc, DefsOf(doc.root)[TargetName(node)], depth - 1);
    } else if node.Object? {
      forall k, s | k in node.fields && s in Subschemas(k, node.fields[k])
        ensures Grounded(ByDocument(doc), s, depth)
      {
        SubschemaIsSmaller(node, k, s);
        RefsNameGround(doc, s, depth);
      }
    }
  }

  // Resolving keeps what a value holds: a list, a mapping, or data; and resolves its
  // subschemas.
  lemma ResolveHolds(defs: Defs, keyword: string, value: Json, depth: nat)
    requires Unfolds(defs, value, depth) && (HoldsData(keyword, value) ==> RefFree(value))
    ensures var r := Resolve(defs, value, depth);
      && (HoldsList(keyword, r) <==> HoldsList(keyword, value))
      && (HoldsMap(keyword, r) <==> HoldsMap(keyword, value))
      && (HoldsData(keyword, value) ==> r == value)
  {
    hide PositionOf, RefFree;
    ResolveShape(defs, value, depth);
    if HoldsData(keyword, value) {
      ResolveRefFree(defs, value, depth);
    } else if HoldsMap(keyword, value) {
      SchemaMapKept(defs, value, depth);
    }
  }

  lemma SchemaMapKept(defs: Defs, value: Json, depth: nat)
    requires Unfolds(defs, value, depth) && IsSchemaMap(value)
    ensures IsSchemaMap(Resolve(defs, value, depth))
  {
    NotARefAfterResolve(defs, value, depth);
    forall n | n in value.fields ensures !Resolve(defs, value.fields[n], depth).Array? {
      ResolveShape(defs, value.fields[n], depth);
    }
  }

  // A subschema of what was resolved is a resolved subschema.
  lemma ResolvedSubschema(defs: Defs, keyword: string, value: Json, depth: nat, s: Json) returns (origin: Json)
    requires Unfolds(defs, value, depth) && (HoldsData(keyword, value) ==> RefFree(value))
    requires s in Subschemas(keyword, Resolve(defs, value, depth))
    ensures origin in Subschemas(keyword, value)
    ensures Unfolds(defs, origin, depth) && s == Resolve(defs, origin, depth)
  {
    hide PositionOf, RefFree;
    var r := Resolve(defs, value, depth);
    ResolveHolds(defs, keyword, value, depth);
    if HoldsList(keyword, value) {
      var i :| 0 <= i < |r.items| && r.items[i] == s;
      origin := value.items[i];
    } else if PositionOf(keyword).Single? {
      origin := value;
    } else {
      var n :| n in r.fields && r.fields[n] == s;
      origin := value.fields[n];
    }
  }

  lemma ResolvedIsRef(defs: Defs, node: Json, depth: nat)
    requires Unfolds(defs, node, depth) && !IsLocalRef(node)
    ensures IsRef(Resolve(defs, node, depth)) <==> IsRef(node)
  {
    if node.Object? && "$ref" in node.fields {
      ResolveShape(defs, node.fields["$ref"], depth);
    }
  }

  // The views of resolved values.
  lemma ResolvedView(judge: Judge, reading: Reading, defs: Defs, keyword: string, value: Json, depth: nat, v: Json)
    requires Unfolds(defs, value, depth) && (HoldsData(keyword, value) ==> RefFree(value))
    requires forall s :: s in Subschemas(keyword, value) ==>
               && Unfolds(defs, s, depth)
               && AcceptedParts(judge, NOTHING_DEFINED, Resolve(defs, s, depth), 0, v)
                  == AcceptedParts(judge, reading, s, depth, v)
    ensures ViewOf(judge, NOTHING_DEFINED, keyword, Resolve(defs, value, depth), 0, v)
         == ViewOf(judge, reading, keyword, value, depth, v)
  {
    hide AcceptedParts, RefFree, PositionOf;
    var r := Resolve(defs, value, depth);
    ResolveHolds(defs, keyword, value, depth);
    ResolveShape(defs, value, depth);
    var x, y := ViewOf(judge, NOTHING_DEFINED, keyword, r, 0, v), ViewOf(judge, reading, keyword, value, depth, v);
    if HoldsList(keyword, value) {
      assert forall i :: 0 <= i < |value.items| ==> value.items[i] in Subschemas(keyword, value);
      assert x.each == y.each;
    } else if PositionOf(keyword).Single? {
      assert value in Subschemas(keyword, value);
    } else if HoldsMap(keyword, value) {
      assert forall n :: n in value.fields ==> value.fields[n] in Subschemas(keyword, value);
      assert x.byName == y.byName;
    }
  }

  lemma SubschemasUnfold(defs: Defs, node: Json, keyword: string, s: Json, depth: nat)
    requires Unfolds(defs, node, depth) && node.Object? && !IsLocalRef(node)
    requires keyword in node.fields && s in Subschemas(keyword, node.fields[keyword])
    ensures Unfolds(defs, s, depth)
  {
    var value := node.fields[keyword];
    if HoldsMap(keyword, value) {
      var n :| n in value.fields && value.fields[n] == s;
    }
  }

  // The resolved schema accepts, on its own, exactly what the original accepts in its
  // document.
  lemma {:induction false} ResolveKeepsMeaning(judge: Judge, doc: Document, node: Json, depth: nat, v: Json)
    requires SchemaObjects(DefsOf(doc.root)) && Unfolds(DefsOf(doc.root), node, depth)
    requires RefsName(DefsOf(doc.root), doc.idle, node, depth) && DataRefFree(ByDocument(doc), node, depth)
    ensures var r := Resolve(DefsOf(doc.root), node, depth);
      Accepts(judge, NOTHING_DEFINED, r, 0, v) == Accepts(judge, ByDocument(doc), node, depth, v)
    decreases depth, node
  {
    hide ByDocument, PlainRef, LastSegment, DefsOf;
    var defs: Defs := DefsOf(doc.root);
    var r := Resolve(defs, node, depth);
    if IsRef(node) {
      NamingRef(doc, node);
      ResolveKeepsMeaning(judge, doc, defs[TargetName(node)], depth - 1, v);
    } else if node.Object? {
      var fields := node.fields;
      forall k | k in fields
        ensures ViewOf(judge, NOTHING_DEFINED, k, r.fields[k], 0, v)
             == ViewOf(judge, ByDocument(doc), k, fields[k], depth, v)
      {
        forall s | s in Subschemas(k, fields[k])
          ensures Unfolds(defs, s, depth)
          ensures AcceptedParts(judge, NOTHING_DEFINED, Resolve(defs, s, depth), 0, v)
               == AcceptedParts(judge, ByDocument(doc), s, depth, v)
        {
          SubschemaIsSmaller(node, k, s);
          SubschemasUnfold(defs, node, k, s, depth);
          forall u | u in PartsOfInstance(v)
            ensures Accepts(judge, NOTHING_DEFINED, Resolve(defs, s, depth), 0, u)
                 == Accepts(judge, ByDocument(doc), s, depth, u)
          {
            ResolveKeepsMeaning(judge, doc, s, depth, u);
          }
        }
        ResolvedView(judge, ByDocument(doc), defs, k, fields[k], depth, v);
      }
      ResolvedIsRef(defs, node, depth);
      SameVerdict(judge, NOTHING_DEFINED, r.fields, 0, ByDocument(doc), fields, depth, v);
    }
  }

  // ---------- what is left ----------

  // Every reference the inliner meets starts as it expects.
  ghost predicate RefsLocal(defs: Defs, node: Json, depth: nat)
    decreases depth, node
  {
    if IsRef(node) then
      && IsLocalRef(node)
      && (TargetName(node) in defs && depth > 0 ==> RefsLocal(defs, defs[TargetName(node)], depth - 1))
    else
      node.Object? ==>
        forall k, s | k in node.fields && s in Subschemas(k, node.fields[k]) ::
          (SubschemaIsSmaller(node, k, s); RefsLocal(defs, s, depth))
  }

  // Inlining leaves no reference where a schema stands exactly when every reference it
  // meets starts with `#/$defs/`: any other spelling is left, and dangles.
  lemma {:induction false} ClosedExactlyWhenRefsLocal(defs: Defs, node: Json, depth: nat)
    requires Unfolds(defs, node, depth) && DataRefFree(ByName(defs), node, depth)
    ensures Closed(Resolve(defs, node, depth)) <==> RefsLocal(defs, node, depth)
    decreases depth, node
  {
    hide LastSegment;
    if IsLocalRef(node) {
      if TargetName(node) in defs {
        ClosedExactlyWhenRefsLocal(defs, defs[TargetName(node)], depth - 1);
      }
    } else {
      ResolvedIsRef(defs, node, depth);
      if node.Object? && !IsRef(node) {
        forall k, s | k in node.fields && s in Subschemas(k, node.fields[k])
          ensures Unfolds(defs, s, depth)
          ensures Closed(Resolve(defs, s, depth)) <==> RefsLocal(defs, s, depth)
        {
          SubschemaIsSmaller(node, k, s);
          SubschemasUnfold(defs, node, k, s, depth);
          ClosedExactlyWhenRefsLocal(defs, s, depth);
        }
        if Closed(Resolve(defs, node, depth)) {
          ClosedHasLocalRefs(defs, node, depth);
        }
        if RefsLocal(defs, node, depth) {
          LocalRefsClose(defs, node, depth);
        }
      }
    }
  }

  lemma ClosedHasLocalRefs(defs: Defs, node: Json, depth: nat)
    requires Unfolds(defs, node, depth) && DataRefFree(ByName(defs), node, depth)
    requires node.Object? && !IsRef(node) && Closed(Resolve(defs, node, depth))
    requires forall k, s :: k in node.fields && s in Subschemas(k, node.fields[k]) ==>
               Unfolds(defs, s, depth) && (Closed(Resolve(defs, s, depth)) <==> RefsLocal(defs, s, depth))
    ensures RefsLocal(defs, node, depth)
  {
    hide Subschemas, Closed;
    var fields, r := node.fields, Resolve(defs, node, depth);
    forall k, s | k in fields && s in Subschemas(k, fields[k]) ensures RefsLocal(defs, s, depth) {
      SubschemaResolved(defs, k, fields[k], depth, s);
      ClosedPart(r, k, Resolve(defs, s, depth));
    }
  }

  lemma LocalRefsClose(defs: Defs, node: Json, depth: nat)
    requires Unfolds(defs, node, depth) && DataRefFree(ByName(defs), node, depth)
    requires node.Object? && !IsRef(node) && !IsRef(Resolve(defs, node, depth)) && RefsLocal(defs, node, depth)
    requires forall k, s :: k in node.fields && s in Subschemas(k, node.fields[k]) ==>
               Unfolds(defs, s, depth) && (Closed(Resolve(defs, s, depth)) <==> RefsLocal(defs, s, depth))
    ensures Closed(Resolve(defs, node, depth))
  {
    hide Subschemas, Closed;
    var fields, r := node.fields, Resolve(defs, node, depth);
    forall k, s | k in r.fields && s in Subschemas(k, r.fields[k]) ensures Closed(s) {
      var origin := ResolvedSubschema(defs, k, fields[k], depth, s);
    }
    ClosedWhole(r);
  }

  lemma SubschemaResolved(defs: Defs, keyword: string, value: Json, depth: nat, s: Json)
    requires Unfolds(defs, value, depth) && (HoldsData(keyword, value) ==> RefFree(value))
    requires s in Subschemas(keyword, value) && Unfolds(defs, s, depth)
    ensures Resolve(defs, s, depth) in Subschemas(keyword, Resolve(defs, value, depth))
  {
    hide PositionOf, RefFree;
    var r := Resolve(defs, value, depth);
    ResolveHolds(defs, keyword, value, depth);
    if HoldsList(keyword, value) {
      var i :| 0 <= i < |value.items| && value.items[i] == s;
      assert r.items[i] in r.items;
    } else if HoldsMap(keyword, value) {
      var n :| n in value.fields && value.fields[n] == s;
      assert r.fields[n] in r.fields.Values;
    }
  }

  // References that name definitions are read alike, and all of them are inlined.
  lemma {:induction false} NamesReadAlike(doc: Document, node: Json, depth: nat)
    requires SchemaObjects(DefsOf(doc.root)) && RefsName(DefsOf(doc.root), doc.idle, node, depth)
    requires DataRefFree(ByDocument(doc), node, depth)
    ensures ReadAlike(ByDocument(doc), ByName(DefsOf(doc.root)), node, depth)
    ensures RefsLocal(DefsOf(doc.root), node, depth) && DataRefFree(ByName(DefsOf(doc.root)), node, depth)
    decreases depth, node
  {
    hide ByDocument, PlainRef, LastSegment;
    if IsRef(node) {
      NamingRef(doc, node);
      NamesReadAlike(doc, DefsOf(doc.root)[TargetName(node)], depth - 1);
    } else if node.Object? {
      forall k, s | k in node.fields && s in Subschemas(k, node.fields[k])
        ensures ReadAlike(ByDocument(doc), ByName(DefsOf(doc.root)), s, depth)
        ensures RefsLocal(DefsOf(doc.root), s, depth) && DataRefFree(ByName(DefsOf(doc.root)), s, depth)
      {
        SubschemaIsSmaller(node, k, s);
        NamesReadAlike(doc, s, depth);
      }
    }
  }

  // `_inline_refs` as a whole: no reference is left where a schema stands, and the result
  // accepts on its own exactly what the schema accepts in its document.
  lemma InliningKeepsMeaning(judge: Judge, doc: Document, depth: nat, v: Json)
    requires SchemaObjects(DefsOf(doc.root)) && Unfolds(DefsOf(doc.root), Root(doc.root), depth)
    requires RefsName(DefsOf(doc.root), doc.idle, Root(doc.root), depth)
    requires DataRefFree(ByDocument(doc), Root(doc.root), depth)
    ensures Grounded(ByDocument(doc), Root(doc.root), depth)
    ensures var r := InlineRefs(doc.root, depth);
      && r.Object? && Closed(r)
      && Accepts(judge, NOTHING_DEFINED, r, 0, v) == Accepts(judge, ByDocument(doc), Root(doc.root), depth, v)
  {
    hide ByDocument, RefsName, RefsLocal, DataRefFree, Accepts, Closed, Unfolds, Grounded;
    var defs, root := DefsOf(doc.root), Root(doc.root);
    RefsNameGround(doc, root, depth);
    NamesReadAlike(doc, root, depth);
    if defs == map[] {
      ClosedWithoutDefs(doc.idle, root, depth);
      ClosedReadsAlike(ByDocument(doc), NOTHING_DEFINED, root, depth);
      AcceptsAlike(judge, ByDocument(doc), NOTHING_DEFINED, root, depth, v);
      ClosedNeedsNoDepth(judge, root, depth, v);
    } else {
      ResolveKeepsMeaning(judge, doc, root, depth, v);
      ClosedExactlyWhenRefsLocal(defs, root, depth);
      ResolveShape(defs, root, depth);
    }
  }

  // With no definitions, naming one means having no reference.
  lemma {:induction false} ClosedWithoutDefs(idle: iset<string>, node: Json, depth: nat)
    requires RefsName(map[], idle, node, depth)
    ensures Closed(node)
    decreases node
  {
    if node.Object? {
      forall k, s | k in node.fields && s in Subschemas(k, node.fields[k]) ensures Closed(s) {
        SubschemaIsSmaller(node, k, s);
        ClosedWithoutDefs(idle, s, depth);
      }
    }
  }

  // ---------- the condition on data is exact ----------

  // An instance and an interpretation that together detect reference-like data anywhere
  // in a schema: a subschema passes the alarm on by accepting PROBE but not its item.
  const PROBE := Array([Null])

  ghost predicate PassesOn(accepted: set<Json>) {
    PROBE in accepted && Null !in accepted
  }

  ghost predicate Alarmed(view: View) {
    match view
    case Plain(value) => !RefFree(value)
    case One(accepted) => PassesOn(accepted)
    case Many(each) => exists i :: 0 <= i < |each| && PassesOn(each[i])
    case Named(byName) => exists n :: n in byName && PassesOn(byName[n])
  }

  ghost predicate Alarm(k: map<string, View>, v: Json) {
    v == PROBE && exists keyword :: keyword in k && Alarmed(k[keyword])
  }

  ghost function Detector(): Judge {
    (k: map<string, View>, v: Json) => Alarm(k, v)
  }

  // The alarm as the enclosing schema sees it.
  ghost predicate Rings(reading: Reading, node: Json, depth: nat) {
    Accepts(Detector(), reading, node, depth, PROBE) && !Accepts(Detector(), reading, node, depth, Null)
  }

  lemma RingsInside(reading: Reading, node: Json, depth: nat)
    ensures PassesOn(AcceptedParts(Detector(), reading, node, depth, PROBE)) <==> Rings(reading, node, depth)
  {
    hide Accepts;
    assert PROBE.items == [Null];
    assert PROBE in PartsOfInstance(PROBE) && Null in PartsOfInstance(PROBE);
  }

  lemma {:induction false} DetectorRings(reading: Reading, node: Json, depth: nat)
    ensures Rings(reading, node, depth) <==> !DataRefFree(reading, node, depth)
    decreases depth, node
  {
    if IsRef(node) {
      var target := reading(node.fields);
      if target.Some? && depth > 0 {
        DetectorRings(reading, target.value, depth - 1);
      }
    } else if node.Object? {
      var fields := node.fields;
      forall k, s | k in fields && s in Subschemas(k, fields[k])
        ensures Rings(reading, s, depth) <==> !DataRefFree(reading, s, depth)
      {
        SubschemaIsSmaller(node, k, s);
        DetectorRings(reading, s, depth);
      }
      if DataRefFree(reading, node, depth) {
        CleanIsQuiet(reading, fields, depth);
      } else {
        LookalikeRings(reading, fields, depth);
      }
    }
  }

  lemma CleanIsQuiet(reading: Reading, fields: map<string, Json>, depth: nat)
    requires !IsRef(Object(fields)) && DataRefFree(reading, Object(fields), depth)
    requires forall k, s :: k in fields && s in Subschemas(k, fields[k]) ==>
               (Rings(reading, s, depth) <==> !DataRefFree(reading, s, depth))
    ensures !Rings(reading, Object(fields), depth)
  {
    ObjectRings(reading, fields, depth);
    hide Rings, ViewOf, Alarmed, Subschemas, HoldsData, RefFree;
    forall k | k in fields ensures !Alarmed(ViewOf(Detector(), reading, k, fields[k], depth, PROBE)) {
      ViewAlarms(reading, k, fields[k], depth);
      assert fields[k] == Object(fields).fields[k];
    }
  }

  lemma LookalikeRings(reading: Reading, fields: map<string, Json>, depth: nat)
    requires !IsRef(Object(fields)) && !DataRefFree(reading, Object(fields), depth)
    requires forall k, s :: k in fields && s in Subschemas(k, fields[k]) ==>
               (Rings(reading, s, depth) <==> !DataRefFree(reading, s, depth))
    ensures Rings(reading, Object(fields), depth)
  {
    ObjectRings(reading, fields, depth);
    hide Rings, ViewOf, Alarmed, Subschemas, HoldsData, RefFree;
    if k :| k in fields && HoldsData(k, fields[k]) && !RefFree(fields[k]) {
      ViewAlarms(reading, k, fields[k], depth);
    } else {
      var k, s :| k in fields && s in Subschemas(k, fields[k]) && !DataRefFree(reading, s, depth);
      ViewAlarms(reading, k, fields[k], depth);
    }
  }

  lemma ObjectRings(reading: Reading, fields: map<string, Json>, depth: nat)
    requires !IsRef(Object(fields))
    ensures Rings(reading, Object(fields), depth) <==>
      exists k :: k in fields && Alarmed(ViewOf(Detector(), reading, k, fields[k], depth, PROBE))
  {
    hide ViewOf, Alarmed, IsRef;
    var views := map k | k in fields :: ViewOf(Detector(), reading, k, fields[k], depth, PROBE);
    assert Accepts(Detector(), reading, Object(fields), depth, PROBE) == Alarm(views, PROBE);
    assert !Accepts(Detector(), reading, Object(fields), depth, Null);
    if k :| k in fields && Alarmed(ViewOf(Detector(), reading, k, fields[k], depth, PROBE)) {
      assert views[k] == ViewOf(Detector(), reading, k, fields[k], depth, PROBE);
    }
  }

  lemma ViewAlarms(reading: Reading, keyword: string, value: Json, depth: nat)
    ensures Alarmed(ViewOf(Detector(), reading, keyword, value, depth, PROBE)) <==>
              (HoldsData(keyword, value) && !RefFree(value))
              || exists s :: s in Subschemas(keyword, value) && Rings(reading, s, depth)
  {
    hide Rings, PassesOn, RefFree, AcceptedParts;
    var view := ViewOf(Detector(), reading, keyword, value, depth, PROBE);
    forall s ensures PassesOn(AcceptedParts(Detector(), reading, s, depth, PROBE)) <==> Rings(reading, s, depth) {
      RingsInside(reading, s, depth);
    }
    if HoldsList(keyword, value) {
      assert forall i :: 0 <= i < |value.items| ==>
          view.each[i] == AcceptedParts(Detector(), reading, value.items[i], depth, PROBE);
    } else if PositionOf(keyword).Single? {
      assert value in Subschemas(keyword, value);
    } else if HoldsMap(keyword, value) {
      assert forall n :: n in value.fields ==> value.fields[n] in Subschemas(keyword, value);
      assert forall n :: n in value.fields ==>
          view.byName[n] == AcceptedParts(Detector(), reading, value.fields[n], depth, PROBE);
    }
  }

  lemma {:induction false} RefFreeIsClean(node: Json)
    requires RefFree(node)
    ensures DataRefFree(NOTHING_DEFINED, node, 0)
    decreases node
  {
    if node.Object? && !IsRef(node) {
      forall k, s | k in node.fields && s in Subschemas(k, node.fields[k])
        ensures DataRefFree(NOTHING_DEFINED, s, 0)
      {
        SubschemaIsSmaller(node, k, s);
        SubschemaRefFree(node.fields[k], k, s);
        RefFreeIsClean(s);
      }
    }
  }

  lemma SubschemaRefFree(value: Json, keyword: string, s: Json)
    requires RefFree(value) && s in Subschemas(keyword, value)
    ensures RefFree(s)
  {
    if HoldsMap(keyword, value) {
      var n :| n in value.fields && value.fields[n] == s;
    }
  }

  // When every reference names a definition, inlining keeps the meaning under every
  // interpretation exactly when no data on the way looks like a reference: otherwise the
  // inliner rewrites that data too.
  lemma InliningExactlyWhenDataRefFree(doc: Document, node: Json, depth: nat)
    requires SchemaObjects(DefsOf(doc.root)) && Unfolds(DefsOf(doc.root), node, depth)
    requires RefsName(DefsOf(doc.root), doc.idle, node, depth)
    ensures Grounded(ByDocument(doc), node, depth)
    ensures var r := Resolve(DefsOf(doc.root), node, depth);
      (forall judge: Judge, v: Json ::
         Accepts(judge, NOTHING_DEFINED, r, 0, v) == Accepts(judge, ByDocument(doc), node, depth, v))
      <==> DataRefFree(ByDocument(doc), node, depth)
  {
    var r := Resolve(DefsOf(doc.root), node, depth);
    hide Accepts, DataRefFree, Resolve, Unfolds, RefsName, Grounded;
    RefsNameGround(doc, node, depth);
    if DataRefFree(ByDocument(doc), node, depth) {
      forall judge: Judge, v: Json
        ensures Accepts(judge, NOTHING_DEFINED, r, 0, v) == Accepts(judge, ByDocument(doc), node, depth, v)
      {
        ResolveKeepsMeaning(judge, doc, node, depth, v);
      }
    } else {
      ResolveLeavesNoRefs(DefsOf(doc.root), node, depth);
      RefFreeIsClean(r);
      DetectorRings(ByDocument(doc), node, depth);
      DetectorRings(NOTHING_DEFINED, r, 0);
      var v := if Accepts(Detector(), NOTHING_DEFINED, r, 0, PROBE) then Null else PROBE;
      assert Accepts(Detector(), NOTHING_DEFINED, r, 0, v) != Accepts(Detector(), ByDocument(doc), node, depth, v);
    }
  }

  // Such a schema: a `const` whose value is an object with a `$ref` member.
  const LOOKALIKE := Object(map["$ref" := String("#/$defs/A")])
  const DEFINITION := Object(map["type" := String("string")])
  const DEFS: Defs := map["A" := DEFINITION]
  const CONSTANT := Object(map["const" := LOOKALIKE])

  lemma ReferenceLikeConstIsRewritten(idle: iset<string>)
    ensures Unfolds(DEFS, CONSTANT, 1) && RefsName(DEFS, idle, CONSTANT, 1)
    ensures !DataRefFree(ByDocument(Defining(DEFS)), CONSTANT, 1)
    ensures Resolve(DEFS, CONSTANT, 1) == Object(map["const" := DEFINITION])
  {
    hide LastSegment, ByDocument;
    LookalikeResolves();
    assert CONSTANT.fields["const"] == LOOKALIKE;
    ConstIsData();
    assert !RefFree(LOOKALIKE);
  }

  lemma ConstIsData()
    ensures HoldsData("const", LOOKALIKE) && Subschemas("const", LOOKALIKE) == {}
  {
  }

  lemma LookalikeResolves()
    ensures Unfolds(DEFS, LOOKALIKE, 1) && Resolve(DEFS, LOOKALIKE, 1) == DEFINITION && IsLocalRef(LOOKALIKE)
  {
    hide LastSegment;
    LocalName("A");
    assert LOCAL_PREFIX + "A" == "#/$defs/A";
    assert IsLocalRef(LOOKALIKE) && TargetName(LOOKALIKE) == "A";
    assert RefFree(DEFINITION.fields["type"]);
    ResolveRefFree(DEFS, DEFINITION, 0);
  }
}
