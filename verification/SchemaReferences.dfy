/** When the inliner's way of reading a reference is the right one (`tools/schema.py`). */
module SchemaReferences {
  import opened JsonValue
  import opened Schema
  import opened SchemaInlining
  import opened SchemaMeaning
  import opened SchemaPointers
  import opened Strings
  import opened Wrappers

  function Referring(ref: string): Json {
    Object(map["$ref" := String(ref)])
  }

  // Under these definitions inlining the reference keeps its meaning: what the inliner
  // makes of it accepts, on its own, what the reference denotes accepts.
  ghost predicate ReadRight(ref: string, defs: Defs)
    requires Unfolds(defs, Referring(ref), 1)
  {
    forall judge: Judge, v: Json ::
      Accepts(judge, NOTHING_DEFINED, Resolve(defs, Referring(ref), 1), 0, v)
      == Accepts(judge, ByDocument(Defining(defs)), Referring(ref), 1, v)
  }

  // No reference of any spelling inside, and nothing to inline.
  ghost predicate Plain(node: Json) {
    RefFree(node) && Closed(node)
  }

  // Definitions without references of their own, in which this one denotes a schema, and
  // the inliner finds one if it looks.
  ghost predicate Settles(ref: string, defs: Defs) {
    && (forall n :: n in defs ==> Plain(defs[n]))
    && Denoted(Defining(defs), ref).Some? && Plain(Denoted(Defining(defs), ref).value)
    && LastSegment(ref) in defs
  }

  lemma ReferringMeans(ref: string)
    ensures IsRef(Referring(ref)) && Alone(Referring(ref).fields, iset{})
    ensures IsLocalRef(Referring(ref)) <==> LOCAL_PREFIX <= ref
    ensures IsLocalRef(Referring(ref)) ==> TargetName(Referring(ref)) == LastSegment(ref)
  {
  }

  // What the inliner makes of a reference: the definition named last, or, when it does
  // not start as expected, the reference itself.
  lemma SettledResolves(ref: string, defs: Defs)
    requires Settles(ref, defs)
    ensures Unfolds(defs, Referring(ref), 1)
    ensures Resolve(defs, Referring(ref), 1) == if LOCAL_PREFIX <= ref then defs[LastSegment(ref)] else Referring(ref)
  {
    hide LastSegment, Denoted, Closed, RefFree;
    ReferringMeans(ref);
    ResolveRefFree(defs, defs[LastSegment(ref)], 0);
    if !(LOCAL_PREFIX <= ref) {
      assert Resolve(defs, Referring(ref), 1).fields == Referring(ref).fields;
    }
  }

  // A reference means what its target means on its own.
  lemma ReferenceMeaning(judge: Judge, ref: string, defs: Defs, v: Json)
    requires Settles(ref, defs)
    ensures Accepts(judge, ByDocument(Defining(defs)), Referring(ref), 1, v)
         == Accepts(judge, NOTHING_DEFINED, Denoted(Defining(defs), ref).value, 0, v)
  {
    hide LastSegment, PointerKeys, Walk, Closed, Denoted;
    ReferringMeans(ref);
    var reading, target := ByDocument(Defining(defs)), Denoted(Defining(defs), ref).value;
    assert reading(Referring(ref).fields) == Some(target);
    ClosedReadsAlike(reading, NOTHING_DEFINED, target, 0);
    AcceptsAlike(judge, reading, NOTHING_DEFINED, target, 0, v);
  }

  // Which interpretation notices: the one that accepts the empty schema only.
  const ONLY_EMPTY: Judge := (k: map<string, View>, v: Json) => |k| == 0

  lemma OnlyEmptyTells(node: Json, v: Json)
    requires node.Object? && !IsRef(node)
    ensures Accepts(ONLY_EMPTY, NOTHING_DEFINED, node, 0, v) <==> node.fields == map[]
  {
    hide ViewOf;
    var fields := node.fields;
    var views := map k | k in fields :: ViewOf(ONLY_EMPTY, NOTHING_DEFINED, k, fields[k], 0, v);
    assert views.Keys == fields.Keys;
    assert Accepts(ONLY_EMPTY, NOTHING_DEFINED, node, 0, v) == ONLY_EMPTY(views, v);
    assert |views| == |views.Keys| && |fields| == |fields.Keys|;
  }

  // A reference into the definitions, however it is spelled, is read right under all
  // definitions in which it resolves exactly when it is plain: it starts with `#/$defs/`
  // and goes on with one key and nothing to unescape.
  lemma ReadRightExactlyWhenPlain(ref: string)
    requires IntoDefs(ref)
    ensures (forall defs: Defs | Settles(ref, defs) :: Unfolds(defs, Referring(ref), 1) && ReadRight(ref, defs))
            <==> PlainRef(ref)
  {
    hide Settles, PlainRef, ReadRight, Unfolds, LastSegment, IntoDefs;
    if PlainRef(ref) {
      forall defs: Defs | Settles(ref, defs) ensures Unfolds(defs, Referring(ref), 1) && ReadRight(ref, defs) {
        SettledResolves(ref, defs);
        PlainIsReadRight(ref, defs);
      }
    } else {
      NotPlainIsMisread(ref);
    }
  }

  lemma PlainIsReadRight(ref: string, defs: Defs)
    requires PlainRef(ref) && Settles(ref, defs)
    ensures Unfolds(defs, Referring(ref), 1) && ReadRight(ref, defs)
  {
    hide RefFree, Closed, LastSegment, PointerKeys, Walk, Accepts, Unfolds, Resolve, ByDocument;
    SettledResolves(ref, defs);
    PlainRefsName(Defining(defs), ref);
    forall judge: Judge, v: Json
      ensures Accepts(judge, NOTHING_DEFINED, Resolve(defs, Referring(ref), 1), 0, v)
           == Accepts(judge, ByDocument(Defining(defs)), Referring(ref), 1, v)
    {
      ReferenceMeaning(judge, ref, defs, v);
    }
  }

  lemma NotPlainIsMisread(ref: string)
    requires IntoDefs(ref) && !PlainRef(ref)
    ensures var defs := TellingDefs(ref);
            Settles(ref, defs) && Unfolds(defs, Referring(ref), 1) && !ReadRight(ref, defs)
  {
    hide PlainRef, LastSegment, TellingDefs, Unfolds, Resolve, PointerKeys, ByDocument, IntoDefs, Denoted;
    var defs := TellingDefs(ref);
    TellingDefsTell(ref);
    TellingDefsArePlain(ref);
    SettledResolves(ref, defs);
    ReferenceMeaning(ONLY_EMPTY, ref, defs, Null);
    OnlyEmptyTells(EMPTY_SCHEMA, Null);
    ReferringMeans(ref);
    if LOCAL_PREFIX <= ref {
      OnlyEmptyTells(defs[LastSegment(ref)], Null);
    }
    assert Accepts(ONLY_EMPTY, NOTHING_DEFINED, Resolve(defs, Referring(ref), 1), 0, Null)
        != Accepts(ONLY_EMPTY, ByDocument(Defining(defs)), Referring(ref), 1, Null);
  }

  lemma {:induction false} NestedIsClosed(keys: seq<string>)
    ensures Closed(Nested(keys))
    decreases |keys|
  {
    var node := Nested(keys);
    if keys != [] {
      var rest := keys[1..];
      NestedIsClosed(rest);
      if rest != [] {
        NestedIsClosed(rest[1..]);
      }
      forall k, s | k in node.fields && s in Subschemas(k, node.fields[k]) ensures Closed(s) {
        assert node.fields[k] == Nested(rest);
        NestedInside(rest, k, s);
      }
    }
    ClosedWhole(node);
  }

  lemma NestedInside(keys: seq<string>, keyword: string, s: Json)
    requires s in Subschemas(keyword, Nested(keys))
    ensures s == Nested(keys) || (keys != [] && s == Nested(keys[1..]))
  {
  }

  lemma TellingDefsArePlain(ref: string)
    requires IntoDefs(ref) && !PlainRef(ref)
    ensures (forall n :: n in TellingDefs(ref) ==> Plain(TellingDefs(ref)[n])) && Plain(EMPTY_SCHEMA)
  {
    hide PlainRef, LastSegment, PointerKeys, RefFree, Closed;
    TellingDefsTell(ref);
    NestedIsClosed(PointerKeys(ref).value[1..][1..]);
    NestedIsClosed([]);
    NestedIsPlainData([]);
    assert Subschemas("x", Bool(true)) == {};
    ClosedWhole(OTHER_SCHEMA);
  }

  // ---------- references the inliner gets wrong ----------

  const INTEGER := Object(map["type" := String("integer")])
  const TEXT := Object(map["type" := String("string")])

  lemma TypeIsPlain(name: string)
    ensures Plain(Object(map["type" := String(name)]))
  {
    var node := Object(map["type" := String(name)]);
    assert RefFree(node.fields["type"]);
    assert Subschemas("type", String(name)) == {};
    ClosedWhole(node);
  }

  // Another spelling of a reference to A: it is left as it stands, and dangles once the
  // definitions are gone, so that nothing is accepted where A's instances were.
  lemma OtherSpellingDangles(judge: Judge, v: Json)
    ensures var defs: Defs := map["A" := INTEGER];
      && Denoted(Defining(defs), ENCODED) == Some(INTEGER)
      && Unfolds(defs, Referring(ENCODED), 1) && Resolve(defs, Referring(ENCODED), 1) == Referring(ENCODED)
      && !Closed(Referring(ENCODED))
      && !Accepts(judge, NOTHING_DEFINED, Referring(ENCODED), 0, v)
      && Accepts(judge, ByDocument(Defining(defs)), Referring(ENCODED), 1, v)
         == Accepts(judge, NOTHING_DEFINED, INTEGER, 0, v)
  {
    hide PointerKeys, Walk, ByDocument, Plain, Resolve, Unfolds;
    var defs: Defs := map["A" := INTEGER];
    EncodedIntoDefs();
    LastOfEncoded();
    TypeIsPlain("integer");
    WalkTwo(Defining(defs).root, "$defs", "A");
    SettledResolves(ENCODED, defs);
    ReferenceMeaning(judge, ENCODED, defs, v);
  }

  lemma LastOfEncoded()
    ensures LastSegment(ENCODED) == "A"
  {
    hide Split;
    assert ENCODED == "#" + "/" + ("%24defs" + "/" + "A");
    SplitConcat("#", "%24defs" + "/" + "A");
    SplitConcat("%24defs", "A");
    SplitPlain("A");
  }

  // A reference that starts otherwise, to an anchor or another document, is left as it
  // stands whatever it denotes.
  lemma ForeignReferenceIsLeft(defs: Defs, ref: string, judge: Judge, v: Json)
    requires !(LOCAL_PREFIX <= ref)
    ensures Unfolds(defs, Referring(ref), 0) && Resolve(defs, Referring(ref), 0) == Referring(ref)
    ensures !Closed(Referring(ref)) && !Accepts(judge, NOTHING_DEFINED, Referring(ref), 0, v)
  {
    hide LastSegment;
    assert Resolve(defs, Referring(ref), 0).fields == Referring(ref).fields;
  }

  // `#/$defs/A/properties/x`: the pointer leads into the definition A, the inliner takes
  // the definition x.
  const RECORD := Object(map["properties" := Object(map["x" := INTEGER])])
  const INNER: Defs := map["A" := RECORD, "x" := TEXT]
  const KEYS := ["$defs", "A", "properties", "x"]
  const INTO_A := "#/" + Joined(KEYS)

  lemma PointerIntoADefinitionIsMisread()
    ensures Denoted(Defining(INNER), INTO_A) == Some(INTEGER)
    ensures Unfolds(INNER, Referring(INTO_A), 1) && Resolve(INNER, Referring(INTO_A), 1) == TEXT
  {
    hide PointerKeys, Joined, Walk, Plain, Unfolds, Resolve, LastSegment;
    SimplePath(KEYS);
    DenotedInDefs(INNER, INTO_A);
    WalkIntoA();
    LastOfIntoA();
    TypeIsPlain("integer");
    TypeIsPlain("string");
    RecordIsPlain();
    SettledResolves(INTO_A, INNER);
  }

  lemma WalkIntoA()
    ensures Walk(Object(INNER), KEYS[1..]) == Some(INTEGER)
  {
    var keys := ["A", "properties", "x"];
    assert KEYS[1..] == keys && keys[1..] == ["properties", "x"];
    assert ["properties", "x"][1..] == ["x"] && ["x"][1..] == [];
    assert Walk(Object(INNER), keys) == Walk(RECORD, keys[1..]);
    assert Walk(RECORD, ["properties", "x"]) == Walk(RECORD.fields["properties"], ["x"]);
    assert Walk(RECORD.fields["properties"], ["x"]) == Walk(INTEGER, []);
  }

  lemma LastOfIntoA()
    ensures LastSegment(INTO_A) == "x" && LOCAL_PREFIX <= INTO_A
  {
    hide Split, Joined;
    var rest := ["A", "properties", "x"];
    assert KEYS[1..] == rest;
    JoinedCons("$defs", rest);
    assert KEYS == ["$defs"] + rest;
    assert "#/" + ("$defs" + "/" + Joined(rest)) == "#/$defs/" + Joined(rest);
    LocalName(Joined(rest));
    SplitJoined(rest);
  }

  lemma JoinedCons(first: string, rest: seq<string>)
    requires rest != []
    ensures Joined([first] + rest) == first + "/" + Joined(rest)
  {
    assert ([first] + rest)[1..] == rest;
  }

  lemma RecordIsPlain()
    ensures Plain(RECORD)
  {
    TypeIsPlain("integer");
    var props := RECORD.fields["properties"];
    assert RefFree(props) by { assert RefFree(props.fields["x"]); }
    forall s | s in Subschemas("properties", props) ensures Closed(s) {
      assert s == INTEGER;
    }
    ClosedWhole(RECORD);
  }
}
