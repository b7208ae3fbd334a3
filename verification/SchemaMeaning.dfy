/** What a schema accepts, for every interpretation of the keywords that treats subschemas
    as the sets of instances they accept and every reading of references. */
module SchemaMeaning {
  import opened Wrappers
  import opened JsonValue
  import opened Schema
  import opened SchemaPointers

  // ---------- where schemas are ----------

  // Where JSON Schema, draft-07 and later, puts subschemas: directly under a keyword,
  // in a list, in a mapping, or nowhere (plain data).
  datatype Position = Single | Listed | Mapped | Data

  function PositionOf(keyword: string): Position {
    if keyword in {"not", "items", "additionalItems", "additionalProperties", "contains", "propertyNames",
                   "if", "then", "else", "unevaluatedItems", "unevaluatedProperties"} then Single
    else if keyword in {"anyOf", "allOf", "oneOf", "prefixItems"} then Listed
    else if keyword in {"properties", "patternProperties", "dependencies", "dependentSchemas"} then Mapped
    else Data
  }

  // A mapping from names to schemas; draft-07's `dependencies` may also map to lists of
  // names, and then counts as data.
  predicate IsSchemaMap(value: Json) {
    value.Object? && !IsLocalRef(value) && forall n :: n in value.fields ==> !value.fields[n].Array?
  }

  predicate HoldsList(keyword: string, value: Json) {
    value.Array? && (PositionOf(keyword).Single? || PositionOf(keyword).Listed?)
  }

  predicate HoldsMap(keyword: string, value: Json) {
    PositionOf(keyword).Mapped? && IsSchemaMap(value)
  }

  predicate HoldsData(keyword: string, value: Json) {
    !HoldsList(keyword, value) && !PositionOf(keyword).Single? && !HoldsMap(keyword, value)
  }

  // The subschemas a keyword's value holds.
  function Subschemas(keyword: string, value: Json): set<Json> {
    if HoldsList(keyword, value) then set s | s in value.items
    else if PositionOf(keyword).Single? then {value}
    else if HoldsMap(keyword, value) then value.fields.Values
    else {}
  }

  lemma SubschemaIsSmaller(node: Json, keyword: string, s: Json)
    requires node.Object? && keyword in node.fields && s in Subschemas(keyword, node.fields[keyword])
    ensures node decreases to s
  {
    var value := node.fields[keyword];
    if HoldsMap(keyword, value) {
      var n :| n in value.fields && value.fields[n] == s;
    }
  }

  // ---------- references ----------

  // An object with a `$ref` stands for another schema, however the reference is spelled.
  predicate IsRef(node: Json) {
    node.Object? && "$ref" in node.fields && node.fields["$ref"].String?
  }

  // A reading of references: what an object with a `$ref` stands for, if anything.
  type Reading = map<string, Json> -> Option<Json>

  const NOTHING_DEFINED: Reading := (fields: map<string, Json>) => None

  predicate Alone(fields: map<string, Json>, idle: iset<string>) {
    forall k :: k in fields ==> k == "$ref" || k in idle
  }

  // In a document: what the reference denotes, and also what stands beside it unless
  // that asserts nothing.
  ghost function ByDocument(doc: Document): Reading {
    (fields: map<string, Json>) =>
      if !IsRef(Object(fields)) || Denoted(doc, fields["$ref"].text).None? then None
      else if Alone(fields, doc.idle) then Denoted(doc, fields["$ref"].text)
      else Some(Object(map["allOf" := Array([Denoted(doc, fields["$ref"].text).value, Object(fields - {"$ref"})])]))
  }

  // As the inliner reads them.
  function ByName(defs: Defs): Reading {
    (fields: map<string, Json>) => if IsRef(Object(fields)) then PutInPlace(defs, fields["$ref"].text) else None
  }

  // ---------- the meaning of a schema ----------

  // A keyword's value with each subschema replaced by the part of the instance, whole
  // or immediate, that it accepts.
  datatype View =
    | One(accepted: set<Json>)
    | Many(each: seq<set<Json>>)
    | Named(byName: map<string, set<Json>>)
    | Plain(value: Json)

  // An interpretation of the keywords: does this object schema accept this instance?
  type Judge = (map<string, View>, Json) -> bool

  // The instance and what its keywords can apply to: its items, members and names.
  function PartsOfInstance(v: Json): set<Json> {
    {v} +
    match v
    case Array(items) => set u | u in items
    case Object(fields) => fields.Values + set k | k in fields :: String(k)
    case _ => {}
  }

  // Following at most `depth` references; what a dangling one stands for accepts nothing.
  function Accepts(judge: Judge, reading: Reading, node: Json, depth: nat, v: Json): bool
    decreases depth, node, 0
  {
    if IsRef(node) then
      var target := reading(node.fields);
      target.Some? && depth > 0 && Accepts(judge, reading, target.value, depth - 1, v)
    else
      match node
      case Bool(flag) => flag
      case Object(fields) => judge(map k | k in fields :: ViewOf(judge, reading, k, fields[k], depth, v), v)
      case _ => false
  }

  function AcceptedParts(judge: Judge, reading: Reading, node: Json, depth: nat, v: Json): set<Json>
    decreases depth, node, 1
  {
    set u | u in PartsOfInstance(v) && Accepts(judge, reading, node, depth, u)
  }

  function ViewOf(judge: Judge, reading: Reading, keyword: string, value: Json, depth: nat, v: Json): View
    decreases depth, value, 2
  {
    if HoldsList(keyword, value) then
      Many(seq(|value.items|, i requires 0 <= i < |value.items| =>
                 AcceptedParts(judge, reading, value.items[i], depth, v)))
    else if PositionOf(keyword).Single? then One(AcceptedParts(judge, reading, value, depth, v))
    else if HoldsMap(keyword, value) then
      Named(map n | n in value.fields :: AcceptedParts(judge, reading, value.fields[n], depth, v))
    else Plain(value)
  }

  // Following references from `node` ends within `depth` of them on every branch.
  ghost predicate Grounded(reading: Reading, node: Json, depth: nat)
    decreases depth, node
  {
    if IsRef(node) then
      var target := reading(node.fields);
      target.Some? ==> depth > 0 && Grounded(reading, target.value, depth - 1)
    else
      node.Object? ==>
        forall k, s | k in node.fields && s in Subschemas(k, node.fields[k]) ::
          (SubschemaIsSmaller(node, k, s); Grounded(reading, s, depth))
  }

  // No reference is left where a schema stands.
  ghost predicate Closed(node: Json) {
    && !IsRef(node)
    && (node.Object? ==>
          forall k, s | k in node.fields && s in Subschemas(k, node.fields[k]) ::
            (SubschemaIsSmaller(node, k, s); Closed(s)))
  }

  // Views depend on reading and depth only through the subschemas.
  lemma SameViews(judge: Judge, a: Reading, d: nat, b: Reading, e: nat, keyword: string, value: Json, v: Json)
    requires forall s :: s in Subschemas(keyword, value) ==>
               AcceptedParts(judge, a, s, d, v) == AcceptedParts(judge, b, s, e, v)
    ensures ViewOf(judge, a, keyword, value, d, v) == ViewOf(judge, b, keyword, value, e, v)
  {
    hide AcceptedParts;
    var x, y := ViewOf(judge, a, keyword, value, d, v), ViewOf(judge, b, keyword, value, e, v);
    if HoldsList(keyword, value) {
      assert forall i :: 0 <= i < |value.items| ==> value.items[i] in Subschemas(keyword, value);
      assert x.each == y.each;
    } else if HoldsMap(keyword, value) {
      assert forall n :: n in value.fields ==> value.fields[n] in Subschemas(keyword, value);
      assert !PositionOf(keyword).Single? ==> x.byName == y.byName;
    }
  }

  // The two readings agree on every reference met.
  ghost predicate ReadAlike(a: Reading, b: Reading, node: Json, depth: nat)
    decreases depth, node
  {
    if IsRef(node) then
      var target := a(node.fields);
      && target == b(node.fields)
      && (target.Some? && depth > 0 ==> ReadAlike(a, b, target.value, depth - 1))
    else
      node.Object? ==>
        forall k, s | k in node.fields && s in Subschemas(k, node.fields[k]) ::
          (SubschemaIsSmaller(node, k, s); ReadAlike(a, b, s, depth))
  }

  // Readings that agree on every reference met give a schema the same meaning.
  lemma {:induction false} AcceptsAlike(judge: Judge, a: Reading, b: Reading, node: Json, depth: nat, v: Json)
    requires ReadAlike(a, b, node, depth)
    ensures Accepts(judge, a, node, depth, v) == Accepts(judge, b, node, depth, v)
    decreases depth, node
  {
    if IsRef(node) {
      var target := a(node.fields);
      if target.Some? && depth > 0 {
        AcceptsAlike(judge, a, b, target.value, depth - 1, v);
      }
    } else if node.Object? {
      var fields := node.fields;
      forall k | k in fields
        ensures ViewOf(judge, a, k, fields[k], depth, v) == ViewOf(judge, b, k, fields[k], depth, v)
      {
        forall s | s in Subschemas(k, fields[k])
          ensures AcceptedParts(judge, a, s, depth, v) == AcceptedParts(judge, b, s, depth, v)
        {
          SubschemaIsSmaller(node, k, s);
          forall u | u in PartsOfInstance(v) ensures Accepts(judge, a, s, depth, u) == Accepts(judge, b, s, depth, u) {
            AcceptsAlike(judge, a, b, s, depth, u);
          }
        }
        SameViews(judge, a, depth, b, depth, k, fields[k], v);
      }
      hide ViewOf, ReadAlike;
      assert (map k | k in fields :: ViewOf(judge, a, k, fields[k], depth, v))
          == (map k | k in fields :: ViewOf(judge, b, k, fields[k], depth, v));
    }
  }

  // A closed schema means the same under any reading.
  lemma {:induction false} ClosedReadsAlike(a: Reading, b: Reading, node: Json, depth: nat)
    requires Closed(node)
    ensures ReadAlike(a, b, node, depth) && Grounded(a, node, depth)
    decreases node
  {
    if node.Object? {
      forall k, s | k in node.fields && s in Subschemas(k, node.fields[k])
        ensures ReadAlike(a, b, s, depth) && Grounded(a, s, depth)
      {
        SubschemaIsSmaller(node, k, s);
        ClosedReadsAlike(a, b, s, depth);
      }
    }
  }

  lemma SameVerdict(
      judge: Judge, a: Reading, f: map<string, Json>, d: nat, b: Reading, g: map<string, Json>, e: nat, v: Json)
    requires !IsRef(Object(f)) && !IsRef(Object(g)) && f.Keys == g.Keys
    requires forall k :: k in f ==> ViewOf(judge, a, k, f[k], d, v) == ViewOf(judge, b, k, g[k], e, v)
    ensures Accepts(judge, a, Object(f), d, v) == Accepts(judge, b, Object(g), e, v)
  {
    hide ViewOf;
    assert (map k | k in f :: ViewOf(judge, a, k, f[k], d, v)) == (map k | k in g :: ViewOf(judge, b, k, g[k], e, v));
  }

  lemma {:induction false} ClosedNeedsNoDepth(judge: Judge, node: Json, depth: nat, v: Json)
    requires Closed(node)
    ensures Accepts(judge, NOTHING_DEFINED, node, depth, v) == Accepts(judge, NOTHING_DEFINED, node, 0, v)
    decreases node
  {
    if node.Object? {
      var fields := node.fields;
      forall k | k in fields
        ensures ViewOf(judge, NOTHING_DEFINED, k, fields[k], depth, v)
             == ViewOf(judge, NOTHING_DEFINED, k, fields[k], 0, v)
      {
        forall s | s in Subschemas(k, fields[k])
          ensures AcceptedParts(judge, NOTHING_DEFINED, s, depth, v) == AcceptedParts(judge, NOTHING_DEFINED, s, 0, v)
        {
          SubschemaIsSmaller(node, k, s);
          forall u | u in PartsOfInstance(v)
            ensures Accepts(judge, NOTHING_DEFINED, s, depth, u) == Accepts(judge, NOTHING_DEFINED, s, 0, u)
          {
            ClosedNeedsNoDepth(judge, s, depth, u);
          }
        }
        SameViews(judge, NOTHING_DEFINED, depth, NOTHING_DEFINED, 0, k, fields[k], v);
      }
      SameVerdict(judge, NOTHING_DEFINED, fields, depth, NOTHING_DEFINED, fields, 0, v);
    }
  }

  lemma ClosedPart(node: Json, keyword: string, s: Json)
    requires Closed(node) && node.Object? && keyword in node.fields && s in Subschemas(keyword, node.fields[keyword])
    ensures Closed(s)
  {
    hide Subschemas;
  }

  lemma ClosedWhole(node: Json)
    requires !IsRef(node)
    requires node.Object? ==> forall k, s :: k in node.fields && s in Subschemas(k, node.fields[k]) ==> Closed(s)
    ensures Closed(node)
  {
    hide Subschemas;
  }
}
