/** What a reference denotes in its document: a JSON pointer in the fragment of a URI (RFC
    6901, section 6), walked segment by segment, against the inliner's reading by the text
    after the last slash. */
module SchemaPointers {
  import opened JsonValue
  import opened Schema
  import opened Strings
  import opened Wrappers

  function HexDigit(c: char): Option<nat> {
    if '0' <= c <= '9' then Some((c - '0') as nat)
    else if 'a' <= c <= 'f' then Some((c - 'a') as nat + 10)
    else if 'A' <= c <= 'F' then Some((c - 'A') as nat + 10)
    else None
  }

  // A percent-encoded ASCII character at the start of `s`.
  function EncodedHead(s: string): Option<char> {
    if |s| < 3 || s[0] != '%' || HexDigit(s[1]).None? || HexDigit(s[2]).None? then None
    else
      var code := 16 * HexDigit(s[1]).value + HexDigit(s[2]).value;
      if code < 128 then Some(code as char) else None
  }

  function PercentDecoded(s: string): string {
    if s == "" then ""
    else if EncodedHead(s).Some? then [EncodedHead(s).value] + PercentDecoded(s[3..])
    else [s[0]] + PercentDecoded(s[1..])
  }

  // `~1` stands for a slash and `~0` for a tilde.
  function Unescaped(s: string): string {
    if s == "" then ""
    else if "~1" <= s then "/" + Unescaped(s[2..])
    else if "~0" <= s then "~" + Unescaped(s[2..])
    else [s[0]] + Unescaped(s[1..])
  }

  function UnescapeAll(parts: seq<string>): (keys: seq<string>)
    ensures |keys| == |parts|
    ensures forall i :: 0 <= i < |parts| ==> keys[i] == Unescaped(parts[i])
  {
    if parts == [] then [] else [Unescaped(parts[0])] + UnescapeAll(parts[1..])
  }

  // The keys a fragment goes through from the root of its document; None when the
  // reference is not a fragment or its fragment is not a pointer.
  function PointerKeys(ref: string): Option<seq<string>> {
    if ref == "" || ref[0] != '#' then None
    else
      var parts := Split(PercentDecoded(ref[1..]));
      if parts[0] == "" then Some(UnescapeAll(parts[1..])) else None
  }

  function Decimal(s: string): Option<nat> {
    if s == "" then Some(0)
    else
      var front, c := Decimal(s[..|s| - 1]), s[|s| - 1];
      if front.Some? && '0' <= c <= '9' then Some(10 * front.value + (c - '0') as nat) else None
  }

  // An array index has no leading zero.
  function ArrayIndex(s: string): Option<nat> {
    if s == "" || (|s| > 1 && s[0] == '0') then None else Decimal(s)
  }

  function Walk(node: Json, keys: seq<string>): Option<Json> {
    if keys == [] then Some(node)
    else
      match node
      case Object(fields) => if keys[0] in fields then Walk(fields[keys[0]], keys[1..]) else None
      case Array(items) =>
        var i := ArrayIndex(keys[0]);
        if i.Some? && i.value < |items| then Walk(items[i.value], keys[1..]) else None
      case _ => None
  }

  // A document with references: `elsewhere` is what references denote that are not
  // pointers into it (anchors, other documents), and `idle` the keywords that assert
  // nothing beside a reference: all of them in draft-07 (section 8.3), annotations later.
  datatype Document = Document(root: map<string, Json>, elsewhere: string -> Option<Json>, idle: iset<string>)

  function Denoted(doc: Document, ref: string): Option<Json> {
    if PointerKeys(ref).Some? then Walk(Object(doc.root), PointerKeys(ref).value) else doc.elsewhere(ref)
  }

  // The reference names a definition, by the text after its last slash as it stands.
  predicate PlainRef(ref: string) {
    LOCAL_PREFIX <= ref && PointerKeys(ref) == Some(["$defs", LastSegment(ref)])
  }

  // It leads to a definition or into one, however it is spelled.
  predicate IntoDefs(ref: string) {
    PointerKeys(ref).Some? && |PointerKeys(ref).value| >= 2 && PointerKeys(ref).value[0] == "$defs"
  }

  lemma {:induction false} NothingToDecode(s: string)
    requires '%' !in s && '~' !in s
    ensures PercentDecoded(s) == s && Unescaped(s) == s
  {
    if s != "" {
      assert s == [s[0]] + s[1..];
      assert s[0] != '%' && s[0] != '~';
      NothingToDecode(s[1..]);
    }
  }

  // Nothing in the name stands for something else.
  predicate SimpleName(name: string) {
    '/' !in name && '%' !in name && '~' !in name
  }

  // Simple names with slashes between them are a pointer through those names.
  lemma SimplePath(names: seq<string>)
    requires names != [] && forall name :: name in names ==> SimpleName(name)
    ensures PointerKeys("#/" + Joined(names)) == Some(names)
  {
    hide PercentDecoded, Unescaped, Joined, UnescapeAll;
    var rest := "/" + Joined(names);
    JoinedChars(names, '%');
    JoinedChars(names, '~');
    NothingToDecode(rest);
    SplitJoined(names);
    assert rest == "" + "/" + Joined(names);
    SplitConcat("", Joined(names));
    SplitPlain("");
    assert ("#/" + Joined(names))[1..] == rest;
    assert Split(rest)[1..] == names;
    SimpleNamesStand(names);
  }

  lemma LastOf(s: string)
    ensures LastSegment(s) == Split(s)[|Split(s)| - 1]
  {
  }

  lemma SimpleNamesStand(names: seq<string>)
    requires forall name :: name in names ==> SimpleName(name)
    ensures UnescapeAll(names) == names
  {
    hide UnescapeAll;
    forall i | 0 <= i < |names| ensures Unescaped(names[i]) == names[i] {
      assert SimpleName(names[i]);
      NothingToDecode(names[i]);
    }
  }

  // A simple name makes a plain reference.
  lemma SimpleNamesArePlain(name: string)
    requires SimpleName(name)
    ensures PlainRef(LOCAL_PREFIX + name) && LastSegment(LOCAL_PREFIX + name) == name
  {
    hide PointerKeys;
    var names := ["$defs", name];
    SimplePath(names);
    assert names[1..] == [name];
    assert Joined(names) == "$defs" + "/" + Joined([name]);
    assert "#/" + Joined(names) == LOCAL_PREFIX + name;
    LocalName(name);
  }

  lemma PlainIntoDefs(ref: string)
    requires PlainRef(ref)
    ensures IntoDefs(ref)
  {
  }

  // What the inliner puts in the place of a reference, if anything: the definition named
  // by whatever follows the last slash.
  function PutInPlace(defs: Defs, ref: string): Option<Json> {
    if LOCAL_PREFIX <= ref && LastSegment(ref) in defs then Some(defs[LastSegment(ref)]) else None
  }

  // A plain reference denotes the definition the inliner puts in its place.
  lemma PlainRefsName(doc: Document, ref: string)
    requires PlainRef(ref) && LastSegment(ref) in DefsOf(doc.root)
    ensures Denoted(doc, ref) == Some(DefsOf(doc.root)[LastSegment(ref)])
  {
    hide PointerKeys, LastSegment;
    WalkTwo(doc.root, "$defs", LastSegment(ref));
  }

  lemma WalkTwo(root: map<string, Json>, a: string, b: string)
    requires a in root && root[a].Object?
    ensures Walk(Object(root), [a, b]) == if b in root[a].fields then Some(root[a].fields[b]) else None
  {
    assert [a, b][1..] == [b] && [b][1..] == [];
    assert Walk(Object(root), [a, b]) == Walk(root[a], [b]);
    assert b in root[a].fields ==> Walk(root[a], [b]) == Walk(root[a].fields[b], []);
  }

  // A document that consists of definitions.
  function Defining(defs: Defs): Document {
    Document(map["$defs" := Object(defs)], (ref: string) => None, iset{})
  }

  lemma DenotedInDefs(defs: Defs, ref: string)
    requires IntoDefs(ref)
    ensures Denoted(Defining(defs), ref) == Walk(Object(defs), PointerKeys(ref).value[1..])
    ensures DefsOf(Defining(defs).root) == defs
  {
    var keys := PointerKeys(ref).value;
    assert Walk(Object(Defining(defs).root), keys) == Walk(Object(defs), keys[1..]);
  }

  // ---------- references that are not plain ----------

  const EMPTY_SCHEMA := Object(map[])
  const OTHER_SCHEMA := Object(map["x" := Bool(true)])

  // Objects inside objects, one for each key, around the empty schema.
  function Nested(keys: seq<string>): Json {
    if keys == [] then EMPTY_SCHEMA else Object(map[keys[0] := Nested(keys[1..])])
  }

  lemma {:induction false} NestedIsPlainData(keys: seq<string>)
    ensures Nested(keys).Object? && RefFree(Nested(keys))
    ensures Walk(Nested(keys), keys) == Some(EMPTY_SCHEMA)
  {
    if keys != [] {
      NestedIsPlainData(keys[1..]);
    }
  }

  // Definitions in which the pointer leads to the empty schema and the last segment
  // names another one.
  function TellingDefs(ref: string): Defs
    requires IntoDefs(ref)
  {
    var keys := PointerKeys(ref).value[1..];
    NestedIsPlainData(keys[1..]);
    map[LastSegment(ref) := OTHER_SCHEMA][keys[0] := Nested(keys[1..])]
  }

  lemma OtherSchemaIsPlainData()
    ensures RefFree(OTHER_SCHEMA) && OTHER_SCHEMA.fields != map[]
  {
    assert RefFree(OTHER_SCHEMA.fields["x"]);
    assert "x" in OTHER_SCHEMA.fields;
  }

  lemma TellingDefsTell(ref: string)
    requires IntoDefs(ref) && !PlainRef(ref)
    ensures var defs := TellingDefs(ref);
            && (forall n :: n in defs ==> RefFree(defs[n]))
            && Denoted(Defining(defs), ref) == Some(EMPTY_SCHEMA)
            && LastSegment(ref) in defs
            && (LOCAL_PREFIX <= ref ==> defs[LastSegment(ref)].fields != map[])
  {
    hide RefFree, PointerKeys, LastSegment, Walk;
    var all, keys := PointerKeys(ref).value, PointerKeys(ref).value[1..];
    DenotedInDefs(TellingDefs(ref), ref);
    assert all == [all[0]] + keys && keys == [keys[0]] + keys[1..];
    NestedIsPlainData(keys[1..]);
    WalkOne(TellingDefs(ref), keys);
    OtherSchemaIsPlainData();
    if keys[0] == LastSegment(ref) && LOCAL_PREFIX <= ref {
      assert keys[1..] == [] ==> all == ["$defs", LastSegment(ref)];
      NestedHasAKey(keys[1..]);
    }
  }

  lemma WalkOne(defs: Defs, keys: seq<string>)
    requires keys != [] && keys[0] in defs
    ensures Walk(Object(defs), keys) == Walk(defs[keys[0]], keys[1..])
  {
  }

  lemma NestedHasAKey(keys: seq<string>)
    requires keys != []
    ensures Nested(keys).Object? && Nested(keys).fields != map[]
  {
    assert keys[0] in Nested(keys).fields;
  }

  // A reference into the definitions denotes what the inliner puts in its place, whatever
  // the definitions, exactly when it is plain.
  lemma ReadingsAgreeExactlyOnPlainRefs(ref: string)
    requires IntoDefs(ref)
    ensures (forall defs: Defs :: Denoted(Defining(defs), ref) == PutInPlace(defs, ref)) <==> PlainRef(ref)
  {
    hide PointerKeys, LastSegment, Walk;
    if PlainRef(ref) {
      forall defs: Defs ensures Denoted(Defining(defs), ref) == PutInPlace(defs, ref) {
        WalkTwo(Defining(defs).root, "$defs", LastSegment(ref));
      }
    } else {
      TellingDefsTell(ref);
      assert Denoted(Defining(TellingDefs(ref)), ref) != PutInPlace(TellingDefs(ref), ref);
    }
  }

  // ---------- another spelling ----------

  lemma {:induction false} DecodeAfter(front: string, back: string)
    requires '%' !in front
    ensures PercentDecoded(front + back) == front + PercentDecoded(back)
  {
    if front == "" {
      assert front + back == back;
    } else {
      assert (front + back)[0] == front[0] != '%' && (front + back)[1..] == front[1..] + back;
      DecodeAfter(front[1..], back);
    }
  }

  // `#/%24defs/A` leads to the definition A and does not start as the inliner expects.
  const ENCODED := "#" + ("/" + ("%24" + "defs/A"))

  lemma EncodedDecodes()
    ensures PercentDecoded("/" + ("%24" + "defs/A")) == "/" + Joined(["$defs", "A"])
  {
    hide PercentDecoded, Joined;
    DecodeAfter("/", "%24" + "defs/A");
    DollarDecodes("defs/A");
    NothingToDecode("defs/A");
    TwoNames("$defs", "A");
  }

  lemma TwoNames(a: string, b: string)
    ensures Joined([a, b]) == a + "/" + b
  {
    assert [a, b][1..] == [b];
  }

  lemma DollarDecodes(rest: string)
    ensures PercentDecoded("%24" + rest) == "$" + PercentDecoded(rest)
  {
    var s := "%24" + rest;
    assert s[0] == '%' && s[1] == '2' && s[2] == '4' && s[3..] == rest;
    assert EncodedHead(s) == Some('$');
  }

  lemma EncodedIntoDefs()
    ensures PointerKeys(ENCODED) == Some(["$defs", "A"]) && !(LOCAL_PREFIX <= ENCODED)
  {
    hide PercentDecoded, UnescapeAll, Split, Joined;
    var names := ["$defs", "A"];
    EncodedDecodes();
    assert ENCODED[1..] == "/" + ("%24" + "defs/A");
    assert "/" + Joined(names) == "" + "/" + Joined(names);
    SplitPlain("");
    SplitConcat("", Joined(names));
    SplitJoined(names);
    assert ([""] + names)[1..] == names;
    SimpleNamesStand(names);
    assert ENCODED[2] == '%' && LOCAL_PREFIX[2] == '$';
  }
}
