/** When null removal may merge a variant with what stands beside `anyOf`
    (`tools/schema.py`): exactly when the merge is harmless, under every lawful
    interpretation and, more leniently, under those that read each keyword on its own. */
module SchemaMerges {
  import opened JsonValue
  import opened Schema
  import opened SchemaMeaning
  import opened SchemaNulls

  // ---------- interpretations that tell a merge from its parts ----------

  // The instance the picky interpretation is picky about.
  const PICKED := Bool(true)

  // What a picky interpretation objects to: exactly these keywords, annotations and
  // `anyOf` aside, and if a pin is given, that plain value under that keyword.
  datatype Objection = Objection(keys: set<string>, pinned: bool, key: string, value: Json)

  ghost predicate Objects(o: Objection, annotations: set<string>, k: map<string, View>) {
    && k.Keys - annotations - {"anyOf"} == o.keys
    && (o.pinned ==> o.key in k && k[o.key] == Plain(o.value))
  }

  ghost predicate NullOnly(k: map<string, View>, v: Json) {
    "type" in k && k["type"] == Plain(String("null")) ==> v == Null
  }

  ghost predicate SomeVariant(k: map<string, View>, v: Json) {
    "anyOf" in k && k["anyOf"].Many? ==> exists i :: 0 <= i < |k["anyOf"].each| && v in k["anyOf"].each[i]
  }

  ghost predicate MembersAllowed(k: map<string, View>, v: Json) {
    "properties" in k && k["properties"].Named? && v.Object? ==>
      forall n :: n in k["properties"].byName && n in v.fields ==> v.fields[n] in k["properties"].byName[n]
  }

  ghost predicate Picks(o: Objection, annotations: set<string>, k: map<string, View>, v: Json) {
    && NullOnly(k, v) && SomeVariant(k, v) && MembersAllowed(k, v)
    && (v == PICKED ==> !Objects(o, annotations, k))
  }

  ghost function Picky(o: Objection, annotations: set<string>): Judge {
    (k: map<string, View>, v: Json) => Picks(o, annotations, k, v)
  }

  predicate Usable(annotations: set<string>) {
    annotations !! {"$ref", "anyOf", "type", "properties"}
  }

  // An objection that annotations, `anyOf` and member schemas cannot trigger.
  ghost predicate Sensible(o: Objection, annotations: set<string>) {
    && o.keys != {} && o.keys !! annotations && "anyOf" !in o.keys
    && (o.pinned ==> o.key in o.keys && o.key != "properties")
  }

  lemma PickyIsLawful(o: Objection, annotations: set<string>)
    requires Usable(annotations) && Sensible(o, annotations)
    ensures Lawful(Picky(o, annotations), annotations)
  {
    var judge := Picky(o, annotations);
    forall k: map<string, View>, v: Json ensures judge(k, v) == judge(k - annotations, v) {
      PickyIgnoresAnnotations(o, annotations, k, v);
    }
    forall k: map<string, View>, v: Json | "anyOf" in k && k["anyOf"].Many?
      ensures judge(k, v) <==>
                judge(k - {"anyOf"}, v) && exists i :: 0 <= i < |k["anyOf"].each| && v in k["anyOf"].each[i]
    {
      PickyAsksForAVariant(o, annotations, k, v);
    }
    forall k: map<string, View>, m1, m2, v: Json
      {:trigger judge(k["properties" := Named(m1)], v), judge(k["properties" := Named(m2)], v)}
      | SameOnMembers(m1, m2, v)
      ensures judge(k["properties" := Named(m1)], v) == judge(k["properties" := Named(m2)], v)
    {
      PickyIsLocal(o, annotations, k, m1, m2, v);
    }
  }

  lemma PickyIgnoresAnnotations(o: Objection, annotations: set<string>, k: map<string, View>, v: Json)
    requires Usable(annotations) && Sensible(o, annotations)
    ensures Picks(o, annotations, k, v) == Picks(o, annotations, k - annotations, v)
  {
    var less := k - annotations;
    assert less.Keys - annotations - {"anyOf"} == k.Keys - annotations - {"anyOf"};
    assert forall key :: key in {"anyOf", "type", "properties"} ==>
        (key in less <==> key in k) && (key in k ==> less[key] == k[key]);
    assert o.pinned ==> (o.key in less <==> o.key in k) && (o.key in k ==> less[o.key] == k[o.key]);
  }

  lemma PickyAsksForAVariant(o: Objection, annotations: set<string>, k: map<string, View>, v: Json)
    requires Usable(annotations) && Sensible(o, annotations) && "anyOf" in k && k["anyOf"].Many?
    ensures Picks(o, annotations, k, v) <==>
              Picks(o, annotations, k - {"anyOf"}, v)
              && exists i :: 0 <= i < |k["anyOf"].each| && v in k["anyOf"].each[i]
  {
    var less := k - {"anyOf"};
    assert less.Keys - annotations - {"anyOf"} == k.Keys - annotations - {"anyOf"};
    assert forall key :: key in {"type", "properties"} ==>
        (key in less <==> key in k) && (key in k ==> less[key] == k[key]);
    assert o.pinned ==> (o.key in less <==> o.key in k) && (o.key in k ==> less[o.key] == k[o.key]);
  }

  lemma PickyIsLocal(o: Objection, annotations: set<string>, k: map<string, View>,
                     m1: map<string, set<Json>>, m2: map<string, set<Json>>, v: Json)
    requires Sensible(o, annotations) && SameOnMembers(m1, m2, v)
    ensures Picks(o, annotations, k["properties" := Named(m1)], v)
         == Picks(o, annotations, k["properties" := Named(m2)], v)
  {
    var a, b := k["properties" := Named(m1)], k["properties" := Named(m2)];
    assert a.Keys == b.Keys;
    assert forall key :: key in a && key != "properties" ==> a[key] == b[key];
  }

  // ---------- one property ----------

  // Nothing but plain data stands under these keywords.
  predicate PlainKeywords(fields: map<string, Json>) {
    forall k :: k in fields ==> PositionOf(k).Data?
  }

  // A merge a keyword-by-keyword comparison can judge: the variant has no `anyOf` of its
  // own, and if both sides use the same keywords, these hold plain data.
  predicate Comparable(prop: Json, annotations: set<string>)
    requires Merges(prop)
  {
    var variant, beside := Left(prop) - annotations, Beside(prop) - annotations;
    "anyOf" !in Left(prop) && (variant.Keys == beside.Keys ==> PlainKeywords(variant))
  }

  // What to object to when a merge is not harmless: the part that is lost in the merge,
  // or the merge itself when it looks like neither part.
  ghost function ObjectionTo(variant: map<string, Json>, beside: map<string, Json>): (o: Objection)
    requires variant != map[] && beside != map[] && variant != beside
  {
    var together := variant.Keys + beside.Keys;
    if variant.Keys == beside.Keys then
      var k := Differing(variant, beside);
      Objection(variant.Keys, true, k, variant[k])
    else if together == beside.Keys then Objection(variant.Keys, false, "", Null)
    else if together == variant.Keys then Objection(beside.Keys, false, "", Null)
    else Objection(together, false, "", Null)
  }

  ghost function Differing(a: map<string, Json>, b: map<string, Json>): (k: string)
    requires a.Keys == b.Keys && a != b
    ensures k in a && k in b && a[k] != b[k]
  {
    var k :| k in a && a[k] != b[k];
    k
  }

  // How the picky interpretation sees an object: by its keywords, and by
  // the plain value under the pin.
  lemma PickyVerdict(o: Objection, annotations: set<string>, fields: map<string, Json>)
    requires Usable(annotations) && Sensible(o, annotations)
    requires !IsRef(Object(fields)) && "anyOf" !in fields && !SaysNull(fields)
    requires o.pinned ==> PositionOf(o.key).Data?
    ensures var rest := fields - annotations;
            Simple(Picky(o, annotations), Object(fields), PICKED)
            <==> !(rest.Keys == o.keys && (o.pinned ==> o.key in rest && rest[o.key] == o.value))
  {
    hide Picks, PositionOf;
    var judge := Picky(o, annotations);
    ObjectAccepts(judge, fields, PICKED);
    var k := Views(judge, fields, PICKED);
    ViewsShow(judge, fields, o);
    assert k.Keys - annotations - {"anyOf"} == (fields - annotations).Keys;
    PickedVerdict(o, annotations, k);
  }

  lemma ViewsShow(judge: Judge, fields: map<string, Json>, o: Objection)
    ensures var k := Views(judge, fields, PICKED);
            && k.Keys == fields.Keys
            && ("type" in k ==> k["type"] == Plain(fields["type"]))
            && (o.pinned && PositionOf(o.key).Data? && o.key in fields ==> k[o.key] == Plain(fields[o.key]))
  {
  }

  lemma PickedVerdict(o: Objection, annotations: set<string>, k: map<string, View>)
    requires "anyOf" !in k && !("type" in k && k["type"] == Plain(String("null")))
    ensures Picks(o, annotations, k, PICKED) <==> !Objects(o, annotations, k)
  {
  }

  lemma SensibleObjection(variant: map<string, Json>, beside: map<string, Json>, annotations: set<string>)
    requires variant != map[] && beside != map[] && variant != beside
    requires variant.Keys !! annotations && beside.Keys !! annotations
    requires "anyOf" !in variant && "anyOf" !in beside
    requires variant.Keys == beside.Keys ==> PlainKeywords(variant)
    ensures var o := ObjectionTo(variant, beside);
            Sensible(o, annotations) && (o.pinned ==> PositionOf(o.key).Data?)
  {
    SomeKey(variant);
    SomeKey(beside);
  }

  lemma SomeKey(m: map<string, Json>)
    requires m != map[]
    ensures m.Keys != {}
  {
    assert m.Keys == {} ==> m == map[];
  }

  ghost function ObjectionToMerge(prop: Json, annotations: set<string>): Objection
    requires Merges(prop) && !Harmless(prop, annotations)
  {
    ObjectionTo(Left(prop) - annotations, Beside(prop) - annotations)
  }

  // A comparable merge that is not harmless is told apart.
  lemma MergeToldApart(prop: Json, annotations: set<string>)
    requires Usable(annotations) && Closed(prop) && Merges(prop) && Comparable(prop, annotations)
    requires !Harmless(prop, annotations)
    ensures var judge := Picky(ObjectionToMerge(prop, annotations), annotations);
            Lawful(judge, annotations) && Simple(judge, StripProperty(prop), PICKED) != Simple(judge, prop, PICKED)
  {
    hide Simple, Closed, StripProperty, NonNull, Lawful, PositionOf;
    var variant, beside := Left(prop), Beside(prop);
    var a, b := variant - annotations, beside - annotations;
    AssertedHere(prop, annotations);
    LeftIsNotNull(prop);
    SensibleObjection(a, b, annotations);
    var o := ObjectionTo(a, b);
    var judge := Picky(o, annotations);
    PickyIsLawful(o, annotations);
    MergingMeaning(judge, annotations, prop, PICKED);
    assert !SaysNull(beside);
    var merged := variant + beside;
    assert merged - annotations == a + b;
    assert !SaysNull(merged);
    PickyVerdict(o, annotations, variant);
    PickyVerdict(o, annotations, beside);
    PickyVerdict(o, annotations, merged);
    assert (a + b).Keys == a.Keys + b.Keys;
    if a.Keys == b.Keys {
      assert a + b == b;
    }
  }

  lemma AssertedHere(prop: Json, annotations: set<string>)
    requires Merges(prop) && "anyOf" !in Left(prop)
    ensures Asserted(Left(prop), annotations) == Left(prop) - annotations
    ensures Asserted(Beside(prop), annotations) == Beside(prop) - annotations
  {
    assert Left(prop) - annotations - {} == Left(prop) - annotations;
    assert Beside(prop) - annotations - {} == Beside(prop) - annotations;
  }

  lemma LeftIsNotNull(prop: Json)
    requires Merges(prop)
    ensures !SaysNull(Left(prop))
  {
    NonNullKeeps(Variants(prop));
    assert NonNull(Variants(prop))[0] in NonNull(Variants(prop));
  }

  // A merge keeps the meaning on non-null instances, under every lawful interpretation,
  // exactly when it is harmless.
  lemma MergeExactlyWhenHarmless(prop: Json, annotations: set<string>)
    requires Usable(annotations) && Closed(prop) && prop.Object? && Merges(prop) && Comparable(prop, annotations)
    requires forall variant :: variant in Variants(prop) ==> variant.Object?
    ensures (forall judge: Judge, v: Json :: Lawful(judge, annotations) && v != Null ==>
               (Simple(judge, StripProperty(prop), v) <==> Simple(judge, prop, v)))
            <==> Harmless(prop, annotations)
  {
    hide Simple, Closed, StripProperty, NonNull, Lawful, Harmless, Comparable, Merges;
    if Harmless(prop, annotations) {
      forall judge: Judge, v: Json | Lawful(judge, annotations) && v != Null
        ensures Simple(judge, StripProperty(prop), v) <==> Simple(judge, prop, v)
      {
        StripPropertyMeaning(judge, annotations, prop, v);
      }
    } else {
      MergeToldApart(prop, annotations);
    }
  }

  // ---------- the whole schema ----------

  // An instance with one member, under the picky interpretation: the schema's verdict is
  // that of the member's property.
  lemma OneMemberVerdict(o: Objection, annotations: set<string>, schema: map<string, Json>,
                         props: map<string, Json>, n: string)
    requires !IsRef(Object(schema)) && "properties" in schema && schema["properties"] == Object(props)
    requires "anyOf" !in schema && !SaysNull(schema)
    requires n in props && forall name :: name in props ==> props[name].Object?
    ensures var judge := Picky(o, annotations);
            Simple(judge, Object(schema), Object(map[n := PICKED])) <==> Simple(judge, props[n], PICKED)
  {
    hide PositionOf, Simple, Objects;
    var judge, v := Picky(o, annotations), Object(map[n := PICKED]);
    WholeView(judge, schema, props, v);
    NamedViewSays(judge, props, v);
    TypeView(judge, schema, v);
    var k := Views(judge, schema, v);
    assert k["properties"] == Named(NamedView(judge, props, v));
    assert v != PICKED;
  }

  lemma TypeView(judge: Judge, fields: map<string, Json>, v: Json)
    ensures Views(judge, fields, v).Keys == fields.Keys
    ensures "type" in fields ==> Views(judge, fields, v)["type"] == Plain(fields["type"])
  {
  }

  lemma HarmfulMergeShows(schema: map<string, Json>, annotations: set<string>, n: string)
    requires Usable(annotations) && Closed(Object(schema)) && ObjectProperties(schema)
    requires "anyOf" !in schema && !SaysNull(schema)
    requires n in Properties(schema) && n !in Required(schema) && Merges(Properties(schema)[n])
    requires Comparable(Properties(schema)[n], annotations) && !Harmless(Properties(schema)[n], annotations)
    ensures exists judge: Judge, v: Json ::
              Lawful(judge, annotations) && NoOptionalNull(schema, v)
              && Simple(judge, Object(Stripped(schema)), v) != Simple(judge, Object(schema), v)
  {
    hide Closed, Simple, Lawful, Merges, Comparable, Harmless, StripProperty, ObjectionToMerge, Picky, SaysNull;
    var before, after := Properties(schema), StrippedProperties(schema);
    PropertiesClosed(schema);
    ClosedIsNoRef(Object(schema));
    SameNames(schema);
    MergeToldApart(before[n], annotations);
    var o := ObjectionToMerge(before[n], annotations);
    var v := Object(map[n := PICKED]);
    StillNotNull(schema);
    OneMemberVerdict(o, annotations, schema, before, n);
    OneMemberVerdict(o, annotations, Stripped(schema), after, n);
    assert NoOptionalNull(schema, v);
    assert Simple(Picky(o, annotations), Object(Stripped(schema)), v)
        != Simple(Picky(o, annotations), Object(schema), v);
  }

  lemma StillNotNull(schema: map<string, Json>)
    requires "anyOf" !in schema && !SaysNull(schema) && "properties" in schema && schema["properties"].Object?
    ensures "anyOf" !in Stripped(schema) && !SaysNull(Stripped(schema))
  {
  }

  ghost predicate ComparableMerges(schema: map<string, Json>, annotations: set<string>) {
    forall n :: n in Properties(schema) && n !in Required(schema) && Merges(Properties(schema)[n]) ==>
      Comparable(Properties(schema)[n], annotations)
  }

  // Null removal keeps the meaning of an object schema, on instances without nulls in
  // optional properties and under every lawful interpretation, exactly when all of its
  // merges are harmless, or it accepts nothing but null anyhow.
  lemma StripExactlyWhenHarmless(schema: map<string, Json>, annotations: set<string>)
    requires Usable(annotations) && Closed(Object(schema)) && ObjectProperties(schema)
    requires "anyOf" !in schema && ComparableMerges(schema, annotations)
    ensures (forall judge: Judge, v: Json :: Lawful(judge, annotations) && NoOptionalNull(schema, v) ==>
               (Simple(judge, Object(Stripped(schema)), v) <==> Simple(judge, Object(schema), v)))
            <==> HarmlessMerges(schema, annotations) || SaysNull(schema)
  {
    hide Closed, Simple, Lawful, Merges, Comparable, Harmless, NoOptionalNull, Stripped, ObjectProperties;
    if HarmlessMerges(schema, annotations) {
      forall judge: Judge, v: Json | Lawful(judge, annotations) && NoOptionalNull(schema, v)
        ensures Simple(judge, Object(Stripped(schema)), v) <==> Simple(judge, Object(schema), v)
      {
        StripKeepsMeaning(judge, annotations, schema, v);
      }
    } else if SaysNull(schema) {
      forall judge: Judge, v: Json | Lawful(judge, annotations) && NoOptionalNull(schema, v)
        ensures Simple(judge, Object(Stripped(schema)), v) <==> Simple(judge, Object(schema), v)
      {
        NullSchemaKept(judge, annotations, schema, v);
      }
    } else {
      var n :| n in Properties(schema) && n !in Required(schema) && Merges(Properties(schema)[n])
               && !Harmless(Properties(schema)[n], annotations);
      HarmfulMergeShows(schema, annotations, n);
    }
  }

  // A schema of type null accepts at most null, which has no members to look at.
  lemma NullSchemaKept(judge: Judge, annotations: set<string>, schema: map<string, Json>, v: Json)
    requires Lawful(judge, annotations) && Closed(Object(schema)) && ObjectProperties(schema) && SaysNull(schema)
    ensures Simple(judge, Object(Stripped(schema)), v) <==> Simple(judge, Object(schema), v)
  {
    hide Lawful, Simple, Closed, StrippedProperties, Views, NamedView;
    if v != Null {
      assert SaysNull(Stripped(schema));
      NullRejects(judge, annotations, schema, v);
      NullRejects(judge, annotations, Stripped(schema), v);
    } else if "properties" in schema && schema["properties"].Object? {
      var before, after := Properties(schema), StrippedProperties(schema);
      ClosedIsNoRef(Object(schema));
      PropertiesClosed(schema);
      SameNames(schema);
      WholeView(judge, schema, before, v);
      WholeView(judge, Stripped(schema), after, v);
      SameElsewhere(judge, schema, v);
      PropertiesLaw(judge, annotations, Views(judge, schema, v), NamedView(judge, before, v),
        NamedView(judge, after, v), v);
    }
  }

  // ---------- keywords read one by one ----------

  // Most keywords of JSON Schema assert on their own, whatever stands beside them.
  type Test = (string, View, Json) -> bool

  ghost function EachOnItsOwn(test: Test): Judge {
    (k: map<string, View>, v: Json) => forall key :: key in k ==> test(key, k[key], v)
  }

  // The keywords on both sides of a merge say the same.
  predicate Agree(a: map<string, Json>, b: map<string, Json>) {
    forall k :: k in a && k in b ==> a[k] == b[k]
  }

  lemma TogetherOnTheirOwn(test: Test, a: map<string, Json>, b: map<string, Json>, v: Json)
    requires !IsRef(Object(a)) && !IsRef(Object(b)) && Agree(a, b)
    ensures var judge := EachOnItsOwn(test);
            Simple(judge, Object(a + b), v) <==> Simple(judge, Object(a), v) && Simple(judge, Object(b), v)
  {
    var judge := EachOnItsOwn(test);
    assert !IsRef(Object(a + b));
    ObjectAccepts(judge, a, v);
    ObjectAccepts(judge, b, v);
    ObjectAccepts(judge, a + b, v);
    ViewsOfUnion(judge, a, b, v);
  }

  lemma ViewsOfUnion(judge: Judge, a: map<string, Json>, b: map<string, Json>, v: Json)
    ensures Views(judge, a + b, v) == Views(judge, a, v) + Views(judge, b, v)
    ensures Agree(a, b) ==> forall k :: k in a && k in b ==> Views(judge, a, v)[k] == Views(judge, b, v)[k]
  {
    hide ViewOf;
  }

  lemma WithoutAnnotations(judge: Judge, annotations: set<string>, fields: map<string, Json>, v: Json)
    requires Lawful(judge, annotations) && !IsRef(Object(fields))
    ensures !IsRef(Object(fields - annotations))
    ensures Simple(judge, Object(fields - annotations), v) <==> Simple(judge, Object(fields), v)
  {
    assert fields - annotations - annotations == fields - annotations;
    SameWithoutAnnotations(judge, annotations, fields - annotations, fields, v);
  }

  // One keyword's say: null alone under type null, some variant under `anyOf`, allowed
  // members, and no PICKED instance under this plain keyword.
  ghost predicate Passes(key: string, value: Json, k: string, view: View, v: Json) {
    && (k == "type" && view == Plain(String("null")) ==> v == Null)
    && (k == "anyOf" && view.Many? ==> exists i :: 0 <= i < |view.each| && v in view.each[i])
    && (k == "properties" && view.Named? && v.Object? ==>
          forall n :: n in view.byName && n in v.fields ==> v.fields[n] in view.byName[n])
    && !(v == PICKED && k == key && view == Plain(value))
  }

  ghost function FindsFault(key: string, value: Json): Test {
    (k: string, view: View, v: Json) => Passes(key, value, k, view, v)
  }

  lemma FaultFindingIsLawful(key: string, value: Json, annotations: set<string>)
    requires Usable(annotations) && key !in annotations && key !in {"anyOf", "properties"}
    ensures Lawful(EachOnItsOwn(FindsFault(key, value)), annotations)
  {
    hide Passes;
    var test := FindsFault(key, value);
    var judge := EachOnItsOwn(test);
    forall k: map<string, View>, v: Json ensures judge(k, v) == judge(k - annotations, v) {
      forall name, view: View | name in annotations ensures test(name, view, v) {
        NoSay(key, value, name, view, v);
      }
      Dropping(test, k, annotations, v);
    }
    forall k: map<string, View>, v: Json | "anyOf" in k && k["anyOf"].Many?
      ensures judge(k, v) <==>
                judge(k - {"anyOf"}, v) && exists i :: 0 <= i < |k["anyOf"].each| && v in k["anyOf"].each[i]
    {
      AnyOfSays(key, value, k["anyOf"], v);
      DroppingOne(test, k, "anyOf", v);
    }
    forall k: map<string, View>, v: Json | "type" in k && k["type"] == Plain(String("null")) && judge(k, v)
      ensures v == Null
    {
      assert test("type", k["type"], v);
      NullTypeSays(key, value, v);
    }
    forall k: map<string, View>, m1, m2, v: Json
      {:trigger judge(k["properties" := Named(m1)], v), judge(k["properties" := Named(m2)], v)}
      | SameOnMembers(m1, m2, v)
      ensures judge(k["properties" := Named(m1)], v) == judge(k["properties" := Named(m2)], v)
    {
      MembersSay(key, value, m1, m2, v);
      FaultsAreLocal(test, k, m1, m2, v);
    }
  }

  lemma NoSay(key: string, value: Json, name: string, view: View, v: Json)
    requires name != key && name !in {"anyOf", "properties", "type"}
    ensures Passes(key, value, name, view, v)
  {
  }

  lemma AnyOfSays(key: string, value: Json, view: View, v: Json)
    requires key != "anyOf" && view.Many?
    ensures Passes(key, value, "anyOf", view, v) <==> exists i :: 0 <= i < |view.each| && v in view.each[i]
  {
  }

  lemma NullTypeSays(key: string, value: Json, v: Json)
    requires Passes(key, value, "type", Plain(String("null")), v)
    ensures v == Null
  {
  }

  lemma MembersSay(key: string, value: Json, m1: map<string, set<Json>>, m2: map<string, set<Json>>, v: Json)
    requires SameOnMembers(m1, m2, v)
    ensures Passes(key, value, "properties", Named(m1), v) == Passes(key, value, "properties", Named(m2), v)
  {
  }

  // Keywords with nothing to say can be dropped.
  lemma Dropping(test: Test, k: map<string, View>, gone: set<string>, v: Json)
    requires forall name, view: View :: name in gone ==> test(name, view, v)
    ensures EachOnItsOwn(test)(k, v) == EachOnItsOwn(test)(k - gone, v)
  {
    assert forall name :: name in k && name in gone ==> test(name, k[name], v);
    assert forall name :: name in k && name !in gone ==> name in k - gone && (k - gone)[name] == k[name];
  }

  lemma DroppingOne(test: Test, k: map<string, View>, name: string, v: Json)
    requires name in k
    ensures EachOnItsOwn(test)(k, v) <==> EachOnItsOwn(test)(k - {name}, v) && test(name, k[name], v)
  {
    assert forall key :: key in k && key != name ==> key in k - {name} && (k - {name})[key] == k[key];
  }

  lemma FaultsAreLocal(test: Test, k: map<string, View>, m1: map<string, set<Json>>, m2: map<string, set<Json>>,
                       v: Json)
    requires test("properties", Named(m1), v) == test("properties", Named(m2), v)
    ensures EachOnItsOwn(test)(k["properties" := Named(m1)], v) == EachOnItsOwn(test)(k["properties" := Named(m2)], v)
  {
    var a, b := k["properties" := Named(m1)], k["properties" := Named(m2)];
    assert a.Keys == b.Keys;
    assert forall name :: name in a && name != "properties" ==> a[name] == b[name];
  }

  lemma FaultVerdict(key: string, value: Json, fields: map<string, Json>)
    requires !IsRef(Object(fields)) && "anyOf" !in fields && !SaysNull(fields) && PositionOf(key).Data?
    ensures Simple(EachOnItsOwn(FindsFault(key, value)), Object(fields), PICKED)
            <==> !(key in fields && fields[key] == value)
  {
    hide PositionOf, Passes;
    var test := FindsFault(key, value);
    var judge := EachOnItsOwn(test);
    ObjectAccepts(judge, fields, PICKED);
    ViewsShow(judge, fields, Objection({}, true, key, value));
    var k := Views(judge, fields, PICKED);
    forall name | name in k ensures test(name, k[name], PICKED) <==> !(name == key && fields[key] == value) {
      assert name == "type" ==> k[name] == Plain(fields["type"]);
      assert name == key ==> k[name] == Plain(fields[key]);
      Objecting(key, value, name, k[name]);
    }
    assert judge(k, PICKED) <==> forall name :: name in k ==> test(name, k[name], PICKED);
    assert key in fields ==> key in k;
  }

  lemma Objecting(key: string, value: Json, name: string, view: View)
    requires name != "anyOf" && !(name == "type" && view == Plain(String("null")))
    ensures Passes(key, value, name, view, PICKED) <==> !(name == key && view == Plain(value))
  {
  }

  // Under interpretations that read each keyword on its own a merge keeps the meaning
  // exactly when the keywords on both sides agree, or what stands beside rejects
  // everything but null. A string with a length bound beside `anyOf` is such a merge.
  lemma MergeOfIndependentKeywords(prop: Json, annotations: set<string>)
    requires Usable(annotations) && Closed(prop) && prop.Object? && Merges(prop) && "anyOf" !in Left(prop)
    requires forall k :: k in Left(prop) && k in Beside(prop) ==> PositionOf(k).Data?
    ensures (forall test: Test, v: Json :: Lawful(EachOnItsOwn(test), annotations) && v != Null ==>
               (Simple(EachOnItsOwn(test), StripProperty(prop), v) <==> Simple(EachOnItsOwn(test), prop, v)))
            <==> (Agree(Left(prop) - annotations, Beside(prop) - annotations) || SaysNull(Beside(prop)))
  {
    hide Simple, Closed, StripProperty, NonNull, Lawful, PositionOf, Merges, FindsFault, EachOnItsOwn;
    var a, b := Left(prop) - annotations, Beside(prop) - annotations;
    if Agree(a, b) || SaysNull(Beside(prop)) {
      forall test: Test, v: Json | Lawful(EachOnItsOwn(test), annotations) && v != Null
        ensures Simple(EachOnItsOwn(test), StripProperty(prop), v) <==> Simple(EachOnItsOwn(test), prop, v)
      {
        AgreeingMerge(test, annotations, prop, v);
      }
    } else {
      var key :| key in a && key in b && a[key] != b[key];
      DisagreeingMerge(prop, annotations, key);
      assert !(Simple(EachOnItsOwn(FindsFault(key, a[key])), StripProperty(prop), PICKED)
               <==> Simple(EachOnItsOwn(FindsFault(key, a[key])), prop, PICKED));
    }
  }

  lemma AgreeingMerge(test: Test, annotations: set<string>, prop: Json, v: Json)
    requires Lawful(EachOnItsOwn(test), annotations) && v != Null && Closed(prop) && prop.Object? && Merges(prop)
    requires Agree(Left(prop) - annotations, Beside(prop) - annotations) || SaysNull(Beside(prop))
    ensures Simple(EachOnItsOwn(test), StripProperty(prop), v) <==> Simple(EachOnItsOwn(test), prop, v)
  {
    hide Simple, Closed, StripProperty, NonNull, Lawful, EachOnItsOwn, Merges;
    var judge, variant, beside := EachOnItsOwn(test), Left(prop), Beside(prop);
    MergingMeaning(judge, annotations, prop, v);
    if SaysNull(beside) {
      NullRejects(judge, annotations, beside, v);
      assert SaysNull(variant + beside);
      NullRejects(judge, annotations, variant + beside, v);
    } else {
      WithoutAnnotations(judge, annotations, variant, v);
      WithoutAnnotations(judge, annotations, beside, v);
      WithoutAnnotations(judge, annotations, variant + beside, v);
      assert variant + beside - annotations == (variant - annotations) + (beside - annotations);
      TogetherOnTheirOwn(test, variant - annotations, beside - annotations, v);
    }
  }

  lemma DisagreeingMerge(prop: Json, annotations: set<string>, key: string)
    requires Usable(annotations) && Closed(prop) && prop.Object? && Merges(prop) && "anyOf" !in Left(prop)
    requires !SaysNull(Beside(prop)) && key !in annotations && PositionOf(key).Data?
    requires key in Left(prop) && key in Beside(prop) && Left(prop)[key] != Beside(prop)[key]
    ensures var judge := EachOnItsOwn(FindsFault(key, Left(prop)[key]));
            Lawful(judge, annotations) && Simple(judge, StripProperty(prop), PICKED) && !Simple(judge, prop, PICKED)
  {
    hide Simple, Closed, StripProperty, NonNull, Lawful, FindsFault, EachOnItsOwn, Merges;
    var variant, beside, value := Left(prop), Beside(prop), Left(prop)[key];
    var judge := EachOnItsOwn(FindsFault(key, value));
    FaultFindingIsLawful(key, value, annotations);
    LeftIsNotNull(prop);
    MergingMeaning(judge, annotations, prop, PICKED);
    FaultVerdict(key, value, variant);
    FaultVerdict(key, value, variant + beside);
  }
}
