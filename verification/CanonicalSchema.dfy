/** The canonical schema of a tool (`tools/schema.py`): inlining, then null removal,
    with a concrete reading of the common draft-07 keywords. */
module CanonicalSchema {
  import opened Wrappers
  import opened JsonValue
  import opened Schema
  import opened SchemaInlining
  import opened SchemaMeaning
  import opened SchemaNulls
  import opened SchemaPointers

  // The post-processing at the end of `build_canonical_schema`.
  method Canonicalize(raw: map<string, Json>, ghost depth: nat) returns (r: map<string, Json>)
    requires SchemaObjects(DefsOf(raw)) && Unfolds(DefsOf(raw), Root(raw), depth)
    requires InlineRefs(raw, depth).Object? ==> ObjectProperties(InlineRefs(raw, depth).fields)
    ensures InlineRefs(raw, depth).Object? && r == Stripped(InlineRefs(raw, depth).fields)
  {
    ResolveShape(DefsOf(raw), Root(raw), depth);
    var inlined := InlineRefs(raw, depth);
    r := StripNullFromOptional(inlined.fields);
  }

  // The canonical schema has no reference left where a schema stands and, on instances
  // without nulls in optional properties, accepts exactly what the raw schema accepts as
  // a document.
  lemma CanonicalKeepsMeaning(judge: Judge, annotations: set<string>, doc: Document, depth: nat, v: Json)
    requires Lawful(judge, annotations)
    requires SchemaObjects(DefsOf(doc.root)) && Unfolds(DefsOf(doc.root), Root(doc.root), depth)
    requires RefsName(DefsOf(doc.root), doc.idle, Root(doc.root), depth)
    requires DataRefFree(ByDocument(doc), Root(doc.root), depth)
    requires InlineRefs(doc.root, depth).Object?
    requires var inlined := InlineRefs(doc.root, depth).fields;
      ObjectProperties(inlined) && HarmlessMerges(inlined, annotations) && NoOptionalNull(inlined, v)
    ensures Grounded(ByDocument(doc), Root(doc.root), depth)
    ensures var canonical := Object(Stripped(InlineRefs(doc.root, depth).fields));
      && Closed(canonical)
      && (Simple(judge, canonical, v) <==> Accepts(judge, ByDocument(doc), Root(doc.root), depth, v))
  {
    hide Lawful, ObjectProperties, HarmlessMerges, NoOptionalNull, Stripped, DataRefFree, DefsOf, ByDocument, Closed;
    hide RefsName, Unfolds, Grounded;
    InliningKeepsMeaning(judge, doc, depth, v);
    var inlined := InlineRefs(doc.root, depth);
    assert inlined == Object(inlined.fields);
    StrippedClosed(inlined.fields);
    StripKeepsMeaning(judge, annotations, inlined.fields, v);
  }

  // A reference to a definition that is missing accepts every instance once inlined.
  lemma MissingDefinitionAcceptsAll(
      judge: Judge, annotations: set<string>, defs: Defs, ref: string, depth: nat, v: Json)
    requires Lawful(judge, annotations) && "#/$defs/" <= ref && LastSegment(ref) !in defs
    ensures var node := Object(map["$ref" := String(ref)]);
      Unfolds(defs, node, depth) && Simple(judge, Resolve(defs, node, depth), v)
  {
    AnnotationsAccept(judge, annotations, map[], v);
  }

  // ---------- a reading of draft-07 ----------

  predicate HasType(name: string, v: Json) {
    match name
    case "null" => v.Null?
    case "boolean" => v.Bool?
    case "number" => v.Number?
    case "integer" => v.Number? && v.num.Floor as real == v.num
    case "string" => v.String?
    case "array" => v.Array?
    case "object" => v.Object?
    case _ => false
  }

  predicate TypeAllows(k: map<string, View>, v: Json) {
    "type" in k && k["type"].Plain? ==>
      match k["type"].value
      case String(name) => HasType(name, v)
      case Array(names) => exists i :: 0 <= i < |names| && names[i].String? && HasType(names[i].text, v)
      case _ => false
  }

  predicate ValueAllows(k: map<string, View>, v: Json) {
    && ("const" in k ==> k["const"] == Plain(v))
    && ("enum" in k && k["enum"].Plain? && k["enum"].value.Array? ==> v in k["enum"].value.items)
  }

  predicate BoundsAllow(k: map<string, View>, v: Json) {
    && ("minimum" in k && k["minimum"].Plain? && k["minimum"].value.Number? && v.Number? ==>
          k["minimum"].value.num <= v.num)
    && ("maximum" in k && k["maximum"].Plain? && k["maximum"].value.Number? && v.Number? ==>
          v.num <= k["maximum"].value.num)
    && ("minLength" in k && k["minLength"].Plain? && k["minLength"].value.Number? && v.String? ==>
          k["minLength"].value.num <= |v.text| as real)
    && ("maxLength" in k && k["maxLength"].Plain? && k["maxLength"].value.Number? && v.String? ==>
          |v.text| as real <= k["maxLength"].value.num)
  }

  predicate RequiredAllows(k: map<string, View>, v: Json) {
    "required" in k && k["required"].Plain? && k["required"].value.Array? && v.Object? ==>
      forall j :: j in k["required"].value.items && j.String? ==> j.text in v.fields
  }

  predicate PropertiesAllow(k: map<string, View>, v: Json) {
    "properties" in k && k["properties"].Named? && v.Object? ==>
      forall n :: n in k["properties"].byName && n in v.fields ==> v.fields[n] in k["properties"].byName[n]
  }

  function PropertyNames(k: map<string, View>): set<string> {
    if "properties" in k && k["properties"].Named? then k["properties"].byName.Keys else {}
  }

  predicate AdditionalAllow(k: map<string, View>, v: Json) {
    "additionalProperties" in k && k["additionalProperties"].One? && v.Object? ==>
      forall n :: n in v.fields && n !in PropertyNames(k) ==> v.fields[n] in k["additionalProperties"].accepted
  }

  predicate ItemsAllow(k: map<string, View>, v: Json) {
    "items" in k && v.Array? ==>
      match k["items"]
      case One(accepted) => forall i :: 0 <= i < |v.items| ==> v.items[i] in accepted
      case Many(each) => forall i :: 0 <= i < |v.items| && i < |each| ==> v.items[i] in each[i]
      case _ => true
  }

  predicate ChoiceAllows(k: map<string, View>, v: Json) {
    && ("allOf" in k && k["allOf"].Many? ==> forall i :: 0 <= i < |k["allOf"].each| ==> v in k["allOf"].each[i])
    && ("oneOf" in k && k["oneOf"].Many? ==>
          exists i :: 0 <= i < |k["oneOf"].each| && v in k["oneOf"].each[i]
            && forall j :: 0 <= j < |k["oneOf"].each| && j != i ==> v !in k["oneOf"].each[j])
    && ("not" in k && k["not"].One? ==> v !in k["not"].accepted)
  }

  predicate AnyOfAllows(k: map<string, View>, v: Json) {
    "anyOf" in k && k["anyOf"].Many? ==> exists i :: 0 <= i < |k["anyOf"].each| && v in k["anyOf"].each[i]
  }

  predicate Draft7(k: map<string, View>, v: Json) {
    && TypeAllows(k, v) && ValueAllows(k, v) && BoundsAllow(k, v) && RequiredAllows(k, v)
    && PropertiesAllow(k, v) && AdditionalAllow(k, v) && ItemsAllow(k, v) && ChoiceAllows(k, v) && AnyOfAllows(k, v)
  }

  const ANNOTATIONS := {"title", "description", "default", "examples"}

  // The draft-07 reading obeys every law the null-stripping theorem asks for.
  lemma Draft7IsLawful()
    ensures Lawful(Draft7, ANNOTATIONS)
  {
    forall k: map<string, View>, v: Json
      ensures Draft7(k, v) == Draft7(k - ANNOTATIONS, v)
    {
    }
    forall k: map<string, View>, v: Json | "anyOf" in k && k["anyOf"].Many?
      ensures Draft7(k, v)
          <==> Draft7(k - {"anyOf"}, v) && exists i :: 0 <= i < |k["anyOf"].each| && v in k["anyOf"].each[i]
    {
    }
    forall k: map<string, View>, v: Json | "type" in k && k["type"] == Plain(String("null")) && Draft7(k, v)
      ensures v == Null
    {
      assert TypeAllows(k, v);
    }
    forall v: Json
      ensures Draft7(map[], v)
    {
    }
    forall k: map<string, View>, m1, m2, v: Json
        {:trigger Draft7(k["properties" := Named(m1)], v), Draft7(k["properties" := Named(m2)], v)}
        | SameOnMembers(m1, m2, v)
      ensures Draft7(k["properties" := Named(m1)], v) == Draft7(k["properties" := Named(m2)], v)
    {
      Draft7IsLocal(k, m1, m2, v);
    }
  }

  lemma Draft7IsLocal(k: map<string, View>, m1: map<string, set<Json>>, m2: map<string, set<Json>>, v: Json)
    requires SameOnMembers(m1, m2, v)
    ensures Draft7(k["properties" := Named(m1)], v) == Draft7(k["properties" := Named(m2)], v)
  {
    var k1, k2 := k["properties" := Named(m1)], k["properties" := Named(m2)];
    assert PropertiesAllow(k1, v) == PropertiesAllow(k2, v);
    assert AdditionalAllow(k1, v) == AdditionalAllow(k2, v) by {
      assert PropertyNames(k1) == PropertyNames(k2);
    }
    assert TypeAllows(k1, v) == TypeAllows(k2, v);
    assert ValueAllows(k1, v) == ValueAllows(k2, v);
    assert BoundsAllow(k1, v) == BoundsAllow(k2, v);
    assert RequiredAllows(k1, v) == RequiredAllows(k2, v);
    assert ItemsAllow(k1, v) == ItemsAllow(k2, v);
    assert ChoiceAllows(k1, v) == ChoiceAllows(k2, v);
    assert AnyOfAllows(k1, v) == AnyOfAllows(k2, v);
  }

  // ---------- where null removal changes the meaning ----------

  // `{"anyOf": [{"type": "string", "minLength": 5}, {"type": "null"}], "minLength": 1}`:
  // the sibling of `anyOf` is a constraint, and the merge lets it replace the variant's own.
  const LONG := Object(map["type" := String("string"), "minLength" := Number(5.0)])
  const NULL_VARIANT := Object(map["type" := String("null")])
  const CONSTRAINED := Object(map["anyOf" := Array([LONG, NULL_VARIANT]), "minLength" := Number(1.0)])
  const SHORT := String("abc")

  lemma FewKeywords(k: map<string, View>, v: Json)
    requires k.Keys <= {"type", "minLength", "anyOf"}
    ensures Draft7(k, v) <==> TypeAllows(k, v) && BoundsAllow(k, v) && AnyOfAllows(k, v)
  {
  }

  lemma Positions()
    ensures PositionOf("type").Data? && PositionOf("minLength").Data? && PositionOf("anyOf").Listed?
  {
  }

  lemma LeafAccepts(fields: map<string, Json>, v: Json)
    requires fields.Keys <= {"type", "minLength"}
    requires "type" in fields && fields["type"].String?
    requires "minLength" in fields ==> fields["minLength"].Number?
    ensures Closed(Object(fields))
    ensures Simple(Draft7, Object(fields), v) <==>
              && HasType(fields["type"].text, v)
              && ("minLength" in fields && v.String? ==> fields["minLength"].num <= |v.text| as real)
  {
    Positions();
    hide Draft7, HasType, PositionOf;
    assert "$ref" !in fields;
    assert forall k :: k in fields ==> k == "type" || k == "minLength";
    assert Closed(Object(fields));
    ObjectAccepts(Draft7, fields, v);
    var k := Views(Draft7, fields, v);
    FewKeywords(k, v);
    LeafViews(k, fields, v);
  }

  lemma LeafViews(k: map<string, View>, fields: map<string, Json>, v: Json)
    requires k.Keys == fields.Keys <= {"type", "minLength"}
    requires "type" in fields && fields["type"].String? && k["type"] == Plain(fields["type"])
    requires "minLength" in fields ==> fields["minLength"].Number? && k["minLength"] == Plain(fields["minLength"])
    ensures TypeAllows(k, v) && BoundsAllow(k, v) && AnyOfAllows(k, v) <==>
              && HasType(fields["type"].text, v)
              && ("minLength" in fields && v.String? ==> fields["minLength"].num <= |v.text| as real)
  {
    hide HasType;
  }

  // A constraint beside `anyOf` can be lost: the rewritten property accepts a string the
  // original rejects.
  lemma ConstraintBesideAnyOfIsLost()
    ensures Simple(Draft7, StripProperty(CONSTRAINED), SHORT)
    ensures Closed(CONSTRAINED) && !Simple(Draft7, CONSTRAINED, SHORT)
  {
    MergedAccepts();
    OriginalRejects();
  }

  lemma MergedAccepts()
    ensures Simple(Draft7, StripProperty(CONSTRAINED), SHORT)
  {
    hide Draft7;
    NonNullOfTwo();
    var merged := map["type" := String("string"), "minLength" := Number(1.0)];
    assert LONG.fields + Beside(CONSTRAINED) == merged;
    assert StripProperty(CONSTRAINED) == Object(merged);
    LeafAccepts(merged, SHORT);
  }

  lemma OriginalRejects()
    ensures Closed(CONSTRAINED) && !Simple(Draft7, CONSTRAINED, SHORT)
  {
    hide Draft7, Simple, PositionOf;
    LeafAccepts(LONG.fields, SHORT);
    LeafAccepts(NULL_VARIANT.fields, SHORT);
    var fields, variants := CONSTRAINED.fields, [LONG, NULL_VARIANT];
    Positions();
    forall k, s | k in fields && s in Subschemas(k, fields[k]) ensures Closed(s) {
      assert s in variants;
    }
    ClosedWhole(CONSTRAINED);
    Draft7IsLawful();
    AnyOfMeaning(Draft7, ANNOTATIONS, fields, SHORT);
  }

  lemma NonNullOfTwo()
    ensures NonNull([LONG, NULL_VARIANT]) == [LONG]
  {
    var two := [LONG, NULL_VARIANT];
    assert two[..1] == [LONG] && [LONG][..0] == [];
    assert NonNull([LONG]) == NonNull([LONG][..0]) + [LONG];
    assert IsNullVariant(NULL_VARIANT) && !IsNullVariant(LONG);
  }
}
