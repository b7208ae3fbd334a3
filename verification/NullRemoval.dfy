/** That null is removed (`tools/schema.py`): which properties are rewritten, to what, and
    what is left for null to be accepted by. */
module NullRemoval {
  import opened Wrappers
  import opened JsonValue
  import opened Lists
  import opened Schema
  import opened SchemaMeaning
  import opened SchemaNulls

  predicate NullTyped(variant: Json) {
    variant.Object? && "type" in variant.fields && variant.fields["type"] == String("null")
  }

  predicate HasVariants(prop: Json) {
    prop.Object? && "anyOf" in prop.fields && prop.fields["anyOf"].Array?
  }

  ghost predicate OffersNull(prop: Json) {
    HasVariants(prop) && exists variant :: variant in prop.fields["anyOf"].items && NullTyped(variant)
  }

  predicate NotNullTyped(variant: Json) {
    !NullTyped(variant)
  }

  // With any other number of variants left than one, `anyOf` lists them and every other
  // keyword is as it was.
  ghost predicate Narrowed(before: map<string, Json>, rest: seq<Json>, after: Json) {
    && after.Object? && after.fields.Keys == before.Keys
    && forall k :: k in before ==> after.fields[k] == if k == "anyOf" then Array(rest) else before[k]
  }

  // With one left, its keywords take the place of `anyOf`, under what stood beside it.
  ghost predicate Collapsed(before: map<string, Json>, only: map<string, Json>, after: Json) {
    && after.Object? && after.fields.Keys == only.Keys + (before.Keys - {"anyOf"})
    && forall k :: k in after.fields ==>
         after.fields[k] == if k in before && k != "anyOf" then before[k] else only[k]
  }

  ghost predicate NullRemoved(before: Json, after: Json) {
    && HasVariants(before)
    && exists rest :: NullRemovedTo(before, after, rest)
  }

  ghost predicate NullRemovedTo(before: Json, after: Json, rest: seq<Json>)
    requires HasVariants(before)
  {
    && Selects(before.fields["anyOf"].items, rest, NotNullTyped)
    && (|rest| != 1 ==> Narrowed(before.fields, rest, after))
    && (|rest| == 1 ==> rest[0].Object? && Collapsed(before.fields, rest[0].fields, after))
  }

  lemma {:induction false} NonNullSelects(variants: seq<Json>)
    ensures Selects(variants, NonNull(variants), NotNullTyped)
  {
    hide Selects;
    if variants == [] {
      SelectsNothing(variants, NonNull(variants), NotNullTyped);
    } else {
      var n := |variants| - 1;
      var front, last := variants[..n], variants[n];
      NonNullSelects(front);
      SelectsOneMore(front, NonNull(front), NotNullTyped, last);
      assert variants == front + [last];
      assert NonNull(front) + [] == NonNull(front);
      assert NonNull(variants) == if NotNullTyped(last) then NonNull(front) + [last] else NonNull(front);
    }
  }

  lemma AllKept(variants: seq<Json>)
    ensures |NonNull(variants)| == |variants| <==> forall variant :: variant in variants ==> !NullTyped(variant)
  {
    NonNullKeeps(variants);
    if forall variant :: variant in variants ==> !NullTyped(variant) {
      NoneDropped(variants);
    } else {
      hide NonNull;
      var variant :| variant in variants && NullTyped(variant);
      assert variant !in NonNull(variants);
    }
  }

  lemma {:induction false} NoneDropped(variants: seq<Json>)
    requires forall variant :: variant in variants ==> !NullTyped(variant)
    ensures NonNull(variants) == variants
  {
    if variants != [] {
      var front, last := variants[..|variants| - 1], variants[|variants| - 1];
      assert variants == front + [last] && last in variants;
      NoneDropped(front);
      assert NonNull(variants) == NonNull(front) + [last];
    }
  }

  // A property that offers null loses it; every other one is left alone.
  lemma PropertyLosesNull(prop: Json)
    requires prop.Object? && forall variant :: variant in Variants(prop) ==> variant.Object?
    ensures OffersNull(prop) ==> NullRemoved(prop, StripProperty(prop))
    ensures !OffersNull(prop) ==> StripProperty(prop) == prop
  {
    hide NonNull;
    var variants := Variants(prop);
    AllKept(variants);
    NonNullKeeps(variants);
    if OffersNull(prop) {
      NonNullSelects(variants);
      if |NonNull(variants)| == 1 {
        assert NonNull(variants)[0] in NonNull(variants);
      }
      assert NullRemovedTo(prop, StripProperty(prop), NonNull(variants));
    }
  }

  // The whole schema: everything but the properties is left alone, and of those exactly
  // the optional ones that offer null are rewritten.
  lemma NullIsRemoved(schema: map<string, Json>)
    requires ObjectProperties(schema)
    ensures Stripped(schema).Keys == schema.Keys
    ensures forall k :: k in schema && k != "properties" ==> Stripped(schema)[k] == schema[k]
    ensures Properties(Stripped(schema)).Keys == Properties(schema).Keys
    ensures forall n :: n in Properties(schema) ==>
              var before, after := Properties(schema)[n], Properties(Stripped(schema))[n];
              if n !in Required(schema) && OffersNull(before) then NullRemoved(before, after) else after == before
  {
    hide StripProperty, NullRemoved, OffersNull;
    forall n | n in Properties(schema)
      ensures var prop := Properties(schema)[n];
              if OffersNull(prop) then NullRemoved(prop, StripProperty(prop)) else StripProperty(prop) == prop
    {
      PropertyLosesNull(Properties(schema)[n]);
    }
  }

  // The properties are what stands under that keyword, the required ones those listed.
  lemma PropertiesAreListed(schema: map<string, Json>, name: string)
    ensures name in Properties(schema)
            <==> "properties" in schema && schema["properties"].Object? && name in schema["properties"].fields
    ensures name in Properties(schema) ==> Properties(schema)[name] == schema["properties"].fields[name]
    ensures name in Required(schema)
            <==> "required" in schema && schema["required"].Array? && String(name) in schema["required"].items
  {
  }

  // ---------- in meaning ----------

  // What stands beside `anyOf` does not force null, and merges harmlessly if it merges.
  ghost predicate LeavesNullToVariants(prop: Json, annotations: set<string>) {
    Merges(prop) ==> Harmless(prop, annotations) && !SaysNull(Beside(prop))
  }

  // No variant holds the list it is in.
  lemma MergeIsNew(prop: Json, only: Json)
    requires HasVariants(prop) && only.Object? && only in prop.fields["anyOf"].items
    ensures Object(only.fields + Beside(prop)) != prop
  {
  }

  // Null is accepted by a rewritten property exactly when what stands beside `anyOf`
  // accepts it and a variant that is not null-typed does.
  lemma NullNeedsAVariant(judge: Judge, annotations: set<string>, prop: Json)
    requires Lawful(judge, annotations) && Closed(prop) && prop.Object? && OffersNull(prop)
    requires forall variant :: variant in Variants(prop) ==> variant.Object?
    requires LeavesNullToVariants(prop, annotations)
    ensures Simple(judge, StripProperty(prop), Null)
            <==> Simple(judge, Object(prop.fields - {"anyOf"}), Null)
                 && exists variant :: variant in prop.fields["anyOf"].items && !NullTyped(variant)
                                      && Simple(judge, variant, Null)
  {
    hide Lawful, Simple, NonNull, Closed;
    var variants := Variants(prop);
    var rest := NonNull(variants);
    AllKept(variants);
    NonNullKeeps(variants);
    ClosedIsNoRef(prop);
    VariantsClosed(prop);
    assert forall variant :: variant in rest <==> variant in variants && !NullTyped(variant);
    if |rest| == 1 {
      assert rest[0] in rest;
      assert rest == [rest[0]] && rest[0] == Object(rest[0].fields);
      MergeIsNew(prop, rest[0]);
      ClosedIsNoRef(rest[0]);
      SidesMerge(judge, annotations, rest[0].fields, Beside(prop), Null);
    } else {
      var fewer := prop.fields["anyOf" := Array(rest)];
      assert StripProperty(prop) == Object(fewer) && fewer - {"anyOf"} == prop.fields - {"anyOf"};
      AnyOfMeaning(judge, annotations, fewer, Null);
    }
  }
}
