/** The part of Python's `pathlib` the filesystem stores name their files with: parsing a
    POSIX path and the `/` operator. */
module Paths {
  import opened Strings

  // The anchor is empty for a relative path, one slash for an absolute one, and two for
  // a path that starts with exactly two.
  datatype Path = Path(anchor: string, parts: seq<string>)

  function Anchor(s: string): string {
    if s == "" || s[0] != '/' then ""
    else if |s| > 1 && s[1] == '/' && (|s| == 2 || s[2] != '/') then "//"
    else "/"
  }

  predicate Dropped(part: string) {
    part == "" || part == "."
  }

  // Empty components and single dots are dropped.
  function Proper(parts: seq<string>): seq<string> {
    if parts == [] then [] else (if Dropped(parts[0]) then [] else [parts[0]]) + Proper(parts[1..])
  }

  function Parsed(s: string): Path {
    Path(Anchor(s), Proper(Split(s)))
  }

  // `base / s`: an absolute `s` starts over.
  function Over(base: Path, s: string): Path {
    if "/" <= s then Parsed(s) else Path(base.anchor, base.parts + Proper(Split(s)))
  }

  // A directory on the way to `q`.
  predicate Above(p: Path, q: Path) {
    p.anchor == q.anchor && p.parts < q.parts
  }

  lemma {:induction false} ProperConcat(a: seq<string>, b: seq<string>)
    ensures Proper(a + b) == Proper(a) + Proper(b)
  {
    if a == [] {
      assert a + b == b;
    } else {
      assert (a + b)[1..] == a[1..] + b;
      ProperConcat(a[1..], b);
    }
  }

  // The components of a file name, the last of which an extension keeps from being
  // dropped.
  function Tail(name: string): (parts: seq<string>)
    ensures parts != []
  {
    var parts := Split(name);
    Proper(parts[..|parts| - 1]) + [parts[|parts| - 1]]
  }

  // A name without slashes is one component.
  lemma OverOne(base: Path, name: string)
    requires '/' !in name && !Dropped(name)
    ensures Over(base, name) == Path(base.anchor, base.parts + [name])
  {
    hide Split;
    assert name[0] in name;
    SplitPlain(name);
    ProperOne(name);
  }

  predicate Extension(extension: string) {
    |extension| > 1 && '/' !in extension
  }

  lemma ProperWithExtension(name: string, extension: string)
    requires Extension(extension)
    ensures Proper(Split(name + extension)) == Extended(Tail(name), extension)
  {
    hide Split, Proper;
    var parts := Split(name);
    var front, last := parts[..|parts| - 1], parts[|parts| - 1];
    SplitSuffix(name, extension);
    ProperConcat(front, [last + extension]);
    ProperOne(last + extension);
  }

  lemma ProperOne(part: string)
    requires !Dropped(part)
    ensures Proper([part]) == [part]
  {
    assert [part][1..] == [];
    assert Proper([part]) == [part] + Proper([part][1..]);
  }

  lemma AnchorWithExtension(name: string, extension: string)
    requires Extension(extension)
    ensures Anchor(name + extension) == Anchor(name)
  {
    var s := name + extension;
    assert forall i :: 0 <= i < |extension| ==> extension[i] in extension;
    assert forall i :: 0 <= i < |s| ==> s[i] == if i < |name| then name[i] else extension[i - |name|];
  }

  lemma ExtendedOnce(a: seq<string>, b: seq<string>, extension: string)
    requires a != [] && b != []
    ensures Extended(a, extension) == Extended(b, extension) <==> a == b
  {
    if Extended(a, extension) == Extended(b, extension) {
      var m, n := |a| - 1, |b| - 1;
      assert m == n;
      assert Extended(a, extension)[..m] == a[..m] && Extended(b, extension)[..m] == b[..m];
      assert Extended(a, extension)[m] == a[m] + extension && Extended(b, extension)[m] == b[m] + extension;
      assert a[m] == (a[m] + extension)[..|a[m]|] && b[m] == (b[m] + extension)[..|b[m]|];
      assert a == a[..m] + [a[m]] && b == b[..m] + [b[m]];
    }
  }
}
