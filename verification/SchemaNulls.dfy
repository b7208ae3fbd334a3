/** Dropping null from optional properties (`tools/schema.py`): the rewrite, what it
    preserves, and where it does not. */
module SchemaNulls {
  import opened Wrappers
  import opened JsonValue
  import opened Schema
  import opened SchemaMeaning

  // ---------- the rewrite ----------

  // `variant.get("type") != "null"`
  predicate IsNullVariant(variant: Json) {
    variant.Object? && "type" in variant.fields && variant.fields["type"] == String("null")
  }

  function NonNull(variants: seq<Json>): seq<Json> {
    if variants == [] then [] else
    var last := variants[|variants| - 1];
    NonNull(variants[..|variants| - 1]) + (if IsNullVariant(last) then [] else [last])
  }

  // The variants of a property the rewrite looks at; none when there is no `anyOf`.
  function Variants(prop: Json): seq<Json> {
    if prop.Object? && "anyOf" in prop.fields && prop.fields["anyOf"].Array? then prop.fields["anyOf"].items else []
  }

  // What stands beside `anyOf`.
  function Beside(prop: Json): map<string, Json>
    requires prop.Object?
  {
    prop.fields - {"anyOf"}
  }

  function StripProperty(prop: Json): Json {
    var variants := Variants(prop);
    var nonNull := NonNull(variants);
    if variants == [] || |nonNull| == |variants| then prop
    else if |nonNull| == 1 && nonNull[0].Object? then Object(nonNull[0].fields + Beside(prop))
    else Object(prop.fields["anyOf" := Array(nonNull)])
  }

  function Properties(schema: map<string, Json>): map<string, Json> {
    if "properties" in schema && schema["properties"].Object? then schema["properties"].fields else map[]
  }

  function Required(schema: map<string, Json>): set<string> {
    if "required" in schema && schema["required"].Array?
    then set j | j in schema["required"].items && j.String? :: j.text else {}
  }

  function StrippedProperties(schema: map<string, Json>): map<string, Json> {
    map n | n in Properties(schema) ::
      if n in Required(schema) then Properties(schema)[n] else StripProperty(Properties(schema)[n])
  }

  function Stripped(schema: map<string, Json>): map<string, Json> {
    if "properties" in schema && schema["properties"].Object?
    then schema["properties" := Object(StrippedProperties(schema))] else schema
  }

  // Every property and every variant is an object schema: the rewrite calls `.get` on them.
  ghost predicate ObjectProperties(schema: map<string, Json>) {
    forall n :: n in Properties(schema) ==>
      Properties(schema)[n].Object?
      && forall variant :: variant in Variants(Properties(schema)[n]) ==> variant.Object?
  }

  lemma {:induction false} NonNullKeeps(variants: seq<Json>)
    ensures |NonNull(variants)| <= |variants|
    ensures forall j :: j in NonNull(variants) <==> j in variants && !IsNullVariant(j)
    ensures |NonNull(variants)| == |variants| ==> NonNull(variants) == variants
  {
    if variants != [] {
      NonNullKeeps(variants[..|variants| - 1]);
      assert variants == variants[..|variants| - 1] + [variants[|variants| - 1]];
    }
  }

  method NonNullVariants(variants: seq<Json>) returns (nonNull: seq<Json>)
    ensures nonNull == NonNull(variants)
  {
    nonNull := [];
    for i := 0 to |variants|
      invariant nonNull == NonNull(variants[..i])
    {
      assert variants[..i + 1][..i] == variants[..i];
      if !IsNullVariant(variants[i]) {
        nonNull := nonNull + [variants[i]];
      }
    }
    assert variants[..|variants|] == variants;
  }

  // `_strip_null_from_optional`: overwrites the entries of `properties` one by one, in
  // whatever order they come.
  method StripNullFromOptional(schema: map<string, Json>) returns (r: map<string, Json>)
    requires ObjectProperties(schema)
    ensures r == Stripped(schema)
  {
    var properties := Properties(schema);
    var required := Required(schema);
    var pending := properties.Keys;
    while pending != {}
      invariant pending <= Properties(schema).Keys == properties.Keys
      invariant forall n :: n in pending ==> properties[n] == Properties(schema)[n]
      invariant forall n :: n in properties.Keys - pending ==> properties[n] == StrippedProperties(schema)[n]
      decreases |pending|
    {
      var name :| name in pending;
      pending := pending - {name};
      if name in required {
        continue;
      }
      var prop := properties[name];
      var anyOf := Variants(prop);
      if anyOf == [] {
        continue;
      }
      var nonNull := NonNullVariants(anyOf);
      NonNullKeeps(anyOf);
      if |nonNull| == |anyOf| {
        continue;
      }
      if |nonNull| == 1 {
        assert nonNull[0] in anyOf;
        var preserved := prop.fields - {"anyOf"};
        properties := properties[name := Object(nonNull[0].fields + preserved)];
      } else {
        properties := properties[name := Object(prop.fields["anyOf" := Array(nonNull)])];
      }
    }
    if "properties" in schema && schema["properties"].Object? {
      assert properties == StrippedProperties(schema);
      r := schema["properties" := Object(properties)];
    } else {
      r := schema;
    }
  }

  // ---------- what an interpretation must respect ----------

  ghost predicate SameOnMembers(m1: map<string, set<Json>>, m2: map<string, set<Json>>, v: Json) {
    && m1.Keys == m2.Keys
    && (v.Object? ==> forall n :: n in m1 && n in v.fields ==> (v.fields[n] in m1[n] <==> v.fields[n] in m2[n]))
  }

  // Annotations never matter; `anyOf` asks for one accepting variant and nothing else;
  // `properties` looks only at the members it names; type null accepts only null.
  ghost predicate Lawful(judge: Judge, annotations: set<string>) {
    && annotations !! {"$ref", "anyOf", "type", "properties"}
    && (forall k: map<string, View>, v: Json {:trigger judge(k - annotations, v)} ::
          judge(k, v) == judge(k - annotations, v))
    && (forall k: map<string, View>, v: Json {:trigger judge(k - {"anyOf"}, v)} ::
          "anyOf" in k && k["anyOf"].Many? ==>
            (judge(k, v) <==>
               judge(k - {"anyOf"}, v) && exists i :: 0 <= i < |k["anyOf"].each| && v in k["anyOf"].each[i]))
    && (forall k: map<string, View>, v: Json {:trigger judge(k, v)} ::
          "type" in k && k["type"] == Plain(String("null")) && judge(k, v) ==> v == Null)
    && (forall k: map<string, View>, m1, m2, v: Json
          {:trigger judge(k["properties" := Named(m1)], v), judge(k["properties" := Named(m2)], v)} ::
          SameOnMembers(m1, m2, v) ==>
            judge(k["properties" := Named(m1)], v) == judge(k["properties" := Named(m2)], v))
    && (forall v: Json :: judge(map[], v))
  }

  // ---------- meaning of one property ----------

  // What a schema accepts on its own.
  predicate Simple(judge: Judge, node: Json, v: Json) {
    Accepts(judge, NOTHING_DEFINED, node, 0, v)
  }

  function Views(judge: Judge, fields: map<string, Json>, v: Json): map<string, View> {
    map k | k in fields :: ViewOf(judge, NOTHING_DEFINED, k, fields[k], 0, v)
  }

  lemma ObjectAccepts(judge: Judge, fields: map<string, Json>, v: Json)
    requires !IsRef(Object(fields))
    ensures Simple(judge, Object(fields), v) == judge(Views(judge, fields, v), v)
  {
    hide ViewOf;
    var views := map k | k in fields :: ViewOf(judge, NOTHING_DEFINED, k, fields[k], 0, v);
    assert Accepts(judge, NOTHING_DEFINED, Object(fields), 0, v) == judge(views, v);
    assert views == Views(judge, fields, v);
  }

  // The views of an object, keyword by keyword: dropping keywords drops their views.
  lemma ViewsMinus(judge: Judge, fields: map<string, Json>, gone: set<string>, v: Json)
    ensures Views(judge, fields - gone, v) == Views(judge, fields, v) - gone
  {
    hide ViewOf;
    assert Views(judge, fields - gone, v).Keys == (Views(judge, fields, v) - gone).Keys;
  }

  lemma AnnotationLaw(judge: Judge, annotations: set<string>, k: map<string, View>, v: Json)
    requires Lawful(judge, annotations)
    ensures judge(k, v) == judge(k - annotations, v)
  {
  }

  lemma AnyOfLaw(judge: Judge, annotations: set<string>, k: map<string, View>, v: Json)
    requires Lawful(judge, annotations)
    requires "anyOf" in k && k["anyOf"].Many?
    ensures judge(k, v)
        <==> judge(k - {"anyOf"}, v) && exists i :: 0 <= i < |k["anyOf"].each| && v in k["anyOf"].each[i]
  {
    var base := judge(k - {"anyOf"}, v);
    assert base == judge(k - {"anyOf"}, v);
  }

  // A schema accepts what its keywords besides `anyOf` and some variant accept.
  lemma AnyOfMeaning(judge: Judge, annotations: set<string>, fields: map<string, Json>, v: Json)
    requires Lawful(judge, annotations) && !IsRef(Object(fields))
    requires "anyOf" in fields && fields["anyOf"].Array?
    ensures Simple(judge, Object(fields), v) <==>
              Simple(judge, Object(fields - {"anyOf"}), v)
              && exists variant :: variant in fields["anyOf"].items && Simple(judge, variant, v)
  {
    hide Lawful;
    var variants := fields["anyOf"].items;
    ObjectAccepts(judge, fields, v);
    ViewsMinus(judge, fields, {"anyOf"}, v);
    ObjectAccepts(judge, fields - {"anyOf"}, v);
    var k := Views(judge, fields, v);
    assert k["anyOf"] == ViewOf(judge, NOTHING_DEFINED, "anyOf", fields["anyOf"], 0, v);
    forall i | 0 <= i < |variants| ensures v in k["anyOf"].each[i] <==> Simple(judge, variants[i], v) {
      assert k["anyOf"].each[i] == AcceptedParts(judge, NOTHING_DEFINED, variants[i], 0, v);
      assert v in PartsOfInstance(v);
    }
    AnyOfLaw(judge, annotations, k, v);
  }

  // Annotations alone accept everything.
  lemma AnnotationsAccept(judge: Judge, annotations: set<string>, fields: map<string, Json>, v: Json)
    requires Lawful(judge, annotations) && fields.Keys <= annotations
    ensures Simple(judge, Object(fields), v)
  {
    NoRefAmong(annotations, judge, fields);
    hide Lawful;
    ObjectAccepts(judge, fields, v);
    var k := Views(judge, fields, v);
    AnnotationLaw(judge, annotations, k, v);
    assert k - annotations == map[];
    EmptyAccepts(judge, annotations, v);
  }

  lemma NoRefAmong(annotations: set<string>, judge: Judge, fields: map<string, Json>)
    requires Lawful(judge, annotations) && fields.Keys <= annotations
    ensures !IsRef(Object(fields))
  {
  }

  lemma EmptyAccepts(judge: Judge, annotations: set<string>, v: Json)
    requires Lawful(judge, annotations)
    ensures judge(map[], v)
  {
  }

  lemma SameWithoutAnnotations(
      judge: Judge, annotations: set<string>, f: map<string, Json>, g: map<string, Json>, v: Json)
    requires Lawful(judge, annotations) && !IsRef(Object(f)) && !IsRef(Object(g))
    requires f - annotations == g - annotations
    ensures Simple(judge, Object(f), v) <==> Simple(judge, Object(g), v)
  {
    ObjectAccepts(judge, f, v);
    ObjectAccepts(judge, g, v);
    ViewsMinus(judge, f, annotations, v);
    ViewsMinus(judge, g, annotations, v);
    AnnotationLaw(judge, annotations, Views(judge, f, v), v);
    AnnotationLaw(judge, annotations, Views(judge, g, v), v);
  }

  lemma NullVariantAcceptsNull(judge: Judge, annotations: set<string>, variant: Json, v: Json)
    requires Lawful(judge, annotations) && IsNullVariant(variant) && Simple(judge, variant, v)
    ensures v == Null
  {
    assert variant == Object(variant.fields) && !IsRef(variant);
    ObjectAccepts(judge, variant.fields, v);
    var k := Views(judge, variant.fields, v);
    assert k["type"] == Plain(String("null"));
  }

  // Dropping null variants loses no accepting variant for a non-null instance.
  lemma NonNullSuffices(judge: Judge, annotations: set<string>, variants: seq<Json>, v: Json)
    requires Lawful(judge, annotations) && v != Null
    ensures (exists j :: j in variants && Simple(judge, j, v))
        <==> (exists j :: j in NonNull(variants) && Simple(judge, j, v))
  {
    NonNullKeeps(variants);
    forall j | j in variants && Simple(judge, j, v) ensures j in NonNull(variants) {
      if IsNullVariant(j) { NullVariantAcceptsNull(judge, annotations, j, v); }
    }
  }

  lemma VariantsClosed(prop: Json)
    requires Closed(prop) && prop.Object?
    ensures forall j :: j in Variants(prop) ==> Closed(j)
  {
    if Variants(prop) != [] {
      assert forall j :: j in Variants(prop) ==> j in Subschemas("anyOf", prop.fields["anyOf"]);
    }
  }

  // The rewrite leaves exactly one variant and merges it with what stands beside it.
  predicate Merges(prop: Json) {
    && prop.Object? && StripProperty(prop) != prop
    && |NonNull(Variants(prop))| == 1 && NonNull(Variants(prop))[0].Object?
  }

  // What a merge puts together, annotations aside: the one variant left, and what stands
  // beside it.
  function Left(prop: Json): map<string, Json>
    requires Merges(prop)
  {
    NonNull(Variants(prop))[0].fields
  }

  function SaysNull(fields: map<string, Json>): bool {
    "type" in fields && fields["type"] == String("null")
  }

  // What a side of the merge asserts: neither annotations nor a list of variants.
  function Asserted(fields: map<string, Json>, annotations: set<string>): map<string, Json> {
    fields - annotations - (if "anyOf" in fields && fields["anyOf"].Array? then {"anyOf"} else {})
  }

  // The merge puts nothing but annotations on one side, or the same on both, or what
  // stands beside rejects every value but null anyhow. The variant's own variants do not
  // matter.
  predicate Harmless(prop: Json, annotations: set<string>)
    requires Merges(prop)
  {
    var variant, beside := Asserted(Left(prop), annotations), Asserted(Beside(prop), annotations);
    beside == map[] || variant == map[] || variant == beside || SaysNull(beside)
  }

  // A merging property accepts a non-null instance when the variant left and the
  // keywords beside both do.
  lemma MergingMeaning(judge: Judge, annotations: set<string>, prop: Json, v: Json)
    requires Lawful(judge, annotations) && Closed(prop) && v != Null
    requires Merges(prop)
    ensures !IsRef(Object(Left(prop))) && !IsRef(Object(Beside(prop))) && "anyOf" !in Beside(prop)
    ensures StripProperty(prop) == Object(Left(prop) + Beside(prop)) && !IsRef(StripProperty(prop))
    ensures Simple(judge, prop, v) <==> Simple(judge, Object(Left(prop)), v) && Simple(judge, Object(Beside(prop)), v)
  {
    hide Lawful, Simple, NonNull, Closed;
    var nonNull := NonNull(Variants(prop));
    VariantsClosed(prop);
    NonNullKeeps(Variants(prop));
    assert nonNull == [nonNull[0]] && nonNull[0] in nonNull && nonNull[0] == Object(Left(prop));
    ClosedIsNoRef(prop);
    ClosedIsNoRef(nonNull[0]);
    AnyOfMeaning(judge, annotations, prop.fields, v);
    assert prop == Object(prop.fields);
    NonNullSuffices(judge, annotations, Variants(prop), v);
  }

  lemma ClosedIsNoRef(node: Json)
    requires Closed(node)
    ensures !IsRef(node)
  {
  }

  lemma OneVariantLeft(judge: Judge, annotations: set<string>, prop: Json, v: Json)
    requires Lawful(judge, annotations) && Closed(prop) && v != Null
    requires Merges(prop) && Harmless(prop, annotations)
    ensures Simple(judge, StripProperty(prop), v) <==> Simple(judge, prop, v)
  {
    hide Lawful, Simple, Closed, StripProperty;
    MergingMeaning(judge, annotations, prop, v);
    SidesMerge(judge, annotations, Left(prop), Beside(prop), v);
  }

  // Two sides that can be merged, whatever variants the first one has.
  lemma SidesMerge(
      judge: Judge, annotations: set<string>, variant: map<string, Json>, beside: map<string, Json>, v: Json)
    requires Lawful(judge, annotations) && "anyOf" !in beside
    requires !IsRef(Object(variant)) && !IsRef(Object(beside))
    requires var a, b := Asserted(variant, annotations), Asserted(beside, annotations);
             b == map[] || a == map[] || a == b || (SaysNull(b) && v != Null)
    ensures Simple(judge, Object(variant + beside), v)
            <==> Simple(judge, Object(variant), v) && Simple(judge, Object(beside), v)
  {
    hide Lawful, Simple;
    var inner := if "anyOf" in variant && variant["anyOf"].Array? then {"anyOf"} else {};
    var bare := variant - inner;
    assert variant - annotations - inner == bare - annotations;
    assert beside - annotations - {} == beside - annotations;
    HarmlessMerge(judge, annotations, bare, beside, v);
    if inner != {} {
      AnyOfMeaning(judge, annotations, variant, v);
      AnyOfMeaning(judge, annotations, variant + beside, v);
      assert variant + beside - {"anyOf"} == bare + beside;
      assert (variant + beside)["anyOf"] == variant["anyOf"];
    } else {
      assert bare == variant;
    }
  }

  // The same without variants.
  lemma HarmlessMerge(
      judge: Judge, annotations: set<string>, variant: map<string, Json>, beside: map<string, Json>, v: Json)
    requires Lawful(judge, annotations)
    requires !IsRef(Object(variant)) && !IsRef(Object(beside))
    requires var a, b := variant - annotations, beside - annotations;
             b == map[] || a == map[] || a == b || (SaysNull(b) && v != Null)
    ensures Simple(judge, Object(variant + beside), v)
            <==> Simple(judge, Object(variant), v) && Simple(judge, Object(beside), v)
  {
    hide Lawful, Simple;
    var merged, a, b := variant + beside, variant - annotations, beside - annotations;
    assert !IsRef(Object(merged));
    if b == map[] {
      SideIsAnnotations(beside, annotations);
      AnnotationsAccept(judge, annotations, beside, v);
      assert merged - annotations == a;
      SameWithoutAnnotations(judge, annotations, merged, variant, v);
    } else if a == map[] {
      SideIsAnnotations(variant, annotations);
      AnnotationsAccept(judge, annotations, variant, v);
      assert merged - annotations == b;
      SameWithoutAnnotations(judge, annotations, merged, beside, v);
    } else if a == b {
      SameSides(variant, beside, annotations);
      SameWithoutAnnotations(judge, annotations, merged, beside, v);
      SameWithoutAnnotations(judge, annotations, variant, beside, v);
    } else {
      assert SaysNull(beside) && SaysNull(merged);
      NullRejects(judge, annotations, beside, v);
      NullRejects(judge, annotations, merged, v);
    }
  }

  lemma SideIsAnnotations(side: map<string, Json>, annotations: set<string>)
    requires side - annotations == map[]
    ensures side.Keys <= annotations
  {
    assert forall k :: k in side && k !in annotations ==> k in side - annotations;
  }

  lemma SameSides(variant: map<string, Json>, beside: map<string, Json>, annotations: set<string>)
    requires variant - annotations == beside - annotations
    ensures variant + beside - annotations == beside - annotations
  {
    var merged := variant + beside - annotations;
    forall k | k in merged ensures k in beside - annotations && merged[k] == (beside - annotations)[k] {
      assert k in variant && k !in annotations ==> k in variant - annotations;
    }
    assert forall k :: k in beside - annotations ==> k in merged;
  }

  lemma NullRejects(judge: Judge, annotations: set<string>, fields: map<string, Json>, v: Json)
    requires Lawful(judge, annotations) && SaysNull(fields) && v != Null
    ensures !Simple(judge, Object(fields), v)
  {
    if Simple(judge, Object(fields), v) {
      NullVariantAcceptsNull(judge, annotations, Object(fields), v);
    }
  }

  lemma OtherCountLeft(judge: Judge, annotations: set<string>, prop: Json, v: Json)
    requires Lawful(judge, annotations) && !IsRef(prop) && prop.Object? && v != Null
    requires Variants(prop) != []
    ensures var fewer := Object(prop.fields["anyOf" := Array(NonNull(Variants(prop)))]);
      Simple(judge, fewer, v) <==> Simple(judge, prop, v)
  {
    hide Lawful, Simple, NonNull;
    var fields := prop.fields["anyOf" := Array(NonNull(Variants(prop)))];
    assert prop == Object(prop.fields);
    assert fields - {"anyOf"} == Beside(prop);
    AnyOfMeaning(judge, annotations, prop.fields, v);
    AnyOfMeaning(judge, annotations, fields, v);
    NonNullSuffices(judge, annotations, Variants(prop), v);
  }

  // One rewritten property accepts every non-null instance exactly when the original
  // does: with several variants left or none, whatever stands beside `anyOf`; with one
  // left, when its merge with its siblings is harmless.
  lemma StripPropertyMeaning(judge: Judge, annotations: set<string>, prop: Json, v: Json)
    requires Lawful(judge, annotations) && Closed(prop) && prop.Object?
    requires forall variant :: variant in Variants(prop) ==> variant.Object?
    requires Merges(prop) ==> Harmless(prop, annotations)
    requires v != Null
    ensures Simple(judge, StripProperty(prop), v) <==> Simple(judge, prop, v)
  {
    hide Lawful, Simple, Closed, NonNull;
    if StripProperty(prop) != prop {
      NonNullKeeps(Variants(prop));
      if |NonNull(Variants(prop))| == 1 {
        assert NonNull(Variants(prop))[0] in NonNull(Variants(prop));
        OneVariantLeft(judge, annotations, prop, v);
      } else {
        ClosedIsNoRef(prop);
        OtherCountLeft(judge, annotations, prop, v);
      }
    }
  }

  // ---------- meaning of the whole schema ----------

  // Every merge in the rewritten schema is harmless.
  ghost predicate HarmlessMerges(schema: map<string, Json>, annotations: set<string>)
  {
    forall n :: n in Properties(schema) && n !in Required(schema) && Merges(Properties(schema)[n]) ==>
      Harmless(Properties(schema)[n], annotations)
  }

  // No optional property of the instance is null.
  ghost predicate NoOptionalNull(schema: map<string, Json>, v: Json) {
    v.Object? ==> forall n :: n in Properties(schema) && n !in Required(schema) && n in v.fields ==> v.fields[n] != Null
  }

  // The rewrite of a closed property is closed.
  lemma StripsClosed(prop: Json)
    requires Closed(prop) && prop.Object?
    requires forall variant :: variant in Variants(prop) ==> variant.Object?
    ensures Closed(StripProperty(prop)) && StripProperty(prop).Object?
  {
    hide NonNull, Subschemas, Closed;
    var nonNull := NonNull(Variants(prop));
    NonNullKeeps(Variants(prop));
    if StripProperty(prop) != prop {
      VariantsClosed(prop);
      ClosedIsNoRef(prop);
      if |nonNull| == 1 {
        assert nonNull[0] in nonNull;
        ClosedIsNoRef(nonNull[0]);
        MergedClosed(nonNull[0], prop);
      } else {
        var fewer := Object(prop.fields["anyOf" := Array(nonNull)]);
        forall k, s | k in fewer.fields && s in Subschemas(k, fewer.fields[k]) ensures Closed(s) {
          if k == "anyOf" {
            ListHolds(nonNull, s);
          } else {
            ClosedPart(prop, k, s);
          }
        }
        ClosedWhole(fewer);
      }
    }
  }

  lemma ListHolds(items: seq<Json>, s: Json)
    requires s in Subschemas("anyOf", Array(items))
    ensures s in items
  {
  }

  lemma MergedClosed(variant: Json, prop: Json)
    requires Closed(variant) && variant.Object? && Closed(prop) && prop.Object?
    requires !IsRef(variant) && !IsRef(prop)
    ensures Closed(Object(variant.fields + Beside(prop)))
  {
    hide Subschemas, Closed;
    var merged := Object(variant.fields + Beside(prop));
    forall k, s | k in merged.fields && s in Subschemas(k, merged.fields[k]) ensures Closed(s) {
      if k in Beside(prop) {
        ClosedPart(prop, k, s);
      } else {
        ClosedPart(variant, k, s);
      }
    }
    ClosedWhole(merged);
  }

  lemma PropertiesClosed(schema: map<string, Json>)
    requires Closed(Object(schema)) && ObjectProperties(schema) && "properties" in schema
    requires schema["properties"].Object?
    ensures var before, after := Properties(schema), StrippedProperties(schema);
      && (forall n :: n in before ==> Closed(before[n]) && Closed(after[n]))
      && (forall n :: n in before ==> before[n].Object? && after[n].Object?)
  {
    hide StripProperty, Closed;
    var before, after := Properties(schema), StrippedProperties(schema);
    forall n | n in before ensures Closed(before[n]) && Closed(after[n]) && after[n].Object? {
      assert before[n] in Subschemas("properties", schema["properties"]);
      ClosedPart(Object(schema), "properties", before[n]);
      if n !in Required(schema) {
        StripsClosed(before[n]);
      }
    }
  }

  lemma StrippedClosed(schema: map<string, Json>)
    requires Closed(Object(schema)) && ObjectProperties(schema)
    ensures Closed(Object(Stripped(schema)))
  {
    hide Subschemas, StrippedProperties, Closed;
    if "properties" in schema && schema["properties"].Object? {
      PropertiesClosed(schema);
      ClosedIsNoRef(Object(schema));
      var after := Stripped(schema);
      forall k, s | k in after && s in Subschemas(k, after[k]) ensures Closed(s) {
        if k == "properties" {
          PropertyOf(StrippedProperties(schema), s);
          SameNames(schema);
        } else {
          ClosedPart(Object(schema), k, s);
        }
      }
      ClosedWhole(Object(after));
    }
  }

  lemma PropertyOf(props: map<string, Json>, s: Json)
    requires s in Subschemas("properties", Object(props))
    ensures s in props.Values
  {
  }

  // On every member an instance may carry, the rewritten properties accept what the
  // original ones accept.
  lemma PropertiesKept(judge: Judge, annotations: set<string>, schema: map<string, Json>, v: Json)
    requires Lawful(judge, annotations) && Closed(Object(schema))
    requires ObjectProperties(schema) && HarmlessMerges(schema, annotations) && NoOptionalNull(schema, v)
    requires v.Object?
    ensures var before, after := Properties(schema), StrippedProperties(schema);
      forall n :: n in before && n in v.fields ==>
        (Simple(judge, after[n], v.fields[n]) <==> Simple(judge, before[n], v.fields[n]))
  {
    hide Lawful, StripProperty, Closed, Simple;
    var before, after := Properties(schema), StrippedProperties(schema);
    if before != map[] {
      PropertiesClosed(schema);
    }
    forall n | n in before && n in v.fields
      ensures Simple(judge, after[n], v.fields[n]) <==> Simple(judge, before[n], v.fields[n])
    {
      if n !in Required(schema) {
        StripPropertyMeaning(judge, annotations, before[n], v.fields[n]);
      }
    }
  }

  function NamedView(judge: Judge, props: map<string, Json>, v: Json): (m: map<string, set<Json>>)
    ensures m.Keys == props.Keys
  {
    map n | n in props :: AcceptedParts(judge, NOTHING_DEFINED, props[n], 0, v)
  }

  lemma NamedViewSays(judge: Judge, props: map<string, Json>, v: Json)
    requires v.Object?
    ensures var m := NamedView(judge, props, v);
      forall n :: n in props && n in v.fields ==> (v.fields[n] in m[n] <==> Simple(judge, props[n], v.fields[n]))
  {
    hide Accepts;
    forall n | n in props && n in v.fields
      ensures v.fields[n] in NamedView(judge, props, v)[n] <==> Simple(judge, props[n], v.fields[n])
    {
      assert v.fields[n] in v.fields.Values;
      assert v.fields[n] in PartsOfInstance(v);
    }
  }

  lemma PropertiesLaw(judge: Judge, annotations: set<string>, k: map<string, View>,
                      m1: map<string, set<Json>>, m2: map<string, set<Json>>, v: Json)
    requires Lawful(judge, annotations) && SameOnMembers(m1, m2, v)
    ensures judge(k["properties" := Named(m1)], v) == judge(k["properties" := Named(m2)], v)
  {
  }

  // An instance without nulls in its optional properties is accepted by the rewritten
  // schema exactly when the original accepts it.
  lemma StripKeepsMeaning(judge: Judge, annotations: set<string>, schema: map<string, Json>, v: Json)
    requires Lawful(judge, annotations) && Closed(Object(schema))
    requires ObjectProperties(schema) && HarmlessMerges(schema, annotations) && NoOptionalNull(schema, v)
    ensures Simple(judge, Object(Stripped(schema)), v) <==> Simple(judge, Object(schema), v)
  {
    hide Lawful, HarmlessMerges, NoOptionalNull, StrippedProperties, Simple, Views, NamedView;
    hide StripProperty, Closed;
    if "properties" in schema && schema["properties"].Object? {
      var before, after := Properties(schema), StrippedProperties(schema);
      ClosedIsNoRef(Object(schema));
      PropertiesClosed(schema);
      var m1, m2 := NamedView(judge, before, v), NamedView(judge, after, v);
      assert m1.Keys == m2.Keys by { SameNames(schema); }
      if v.Object? {
        PropertiesKept(judge, annotations, schema, v);
        NamedViewSays(judge, before, v);
        NamedViewSays(judge, after, v);
        assert SameOnMembers(m1, m2, v) by { SameNames(schema); }
      }
      SameNames(schema);
      WholeView(judge, schema, before, v);
      WholeView(judge, Stripped(schema), after, v);
      SameElsewhere(judge, schema, v);
      PropertiesLaw(judge, annotations, Views(judge, schema, v), m1, m2, v);
    } else {
      assert Stripped(schema) == schema;
    }
  }

  lemma SameNames(schema: map<string, Json>)
    ensures Properties(schema).Keys == StrippedProperties(schema).Keys
  {
  }

  lemma WholeView(judge: Judge, schema: map<string, Json>, props: map<string, Json>, v: Json)
    requires !IsRef(Object(schema)) && "properties" in schema && schema["properties"] == Object(props)
    requires forall n :: n in props ==> props[n].Object?
    ensures Views(judge, schema, v)["properties" := Named(NamedView(judge, props, v))] == Views(judge, schema, v)
    ensures Simple(judge, Object(schema), v) <==> judge(Views(judge, schema, v), v)
  {
    ObjectAccepts(judge, schema, v);
    assert ViewOf(judge, NOTHING_DEFINED, "properties", schema["properties"], 0, v)
        == Named(NamedView(judge, props, v));
  }

  lemma ViewsUpdate(judge: Judge, fields: map<string, Json>, key: string, value: Json, v: Json)
    ensures Views(judge, fields[key := value], v)
         == Views(judge, fields, v)[key := ViewOf(judge, NOTHING_DEFINED, key, value, 0, v)]
  {
    hide ViewOf;
  }

  lemma SameElsewhere(judge: Judge, schema: map<string, Json>, v: Json)
    requires !IsRef(Object(schema)) && "properties" in schema && schema["properties"].Object?
    requires forall n :: n in StrippedProperties(schema) ==> StrippedProperties(schema)[n].Object?
    ensures Views(judge, schema, v)["properties" := Named(NamedView(judge, StrippedProperties(schema), v))]
         == Views(judge, Stripped(schema), v)
  {
    WholeView(judge, Stripped(schema), StrippedProperties(schema), v);
    hide StrippedProperties, ViewOf, NamedView;
    ViewsUpdate(judge, schema, "properties", Object(StrippedProperties(schema)), v);
    var b := Views(judge, Stripped(schema), v);
    assert b["properties"] == Named(NamedView(judge, StrippedProperties(schema), v));
  }
}
