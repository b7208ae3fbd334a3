/** The namespaces of the memory layer (`memory/scope.py`) and the file each one is
    stored in by the filesystem backends. */
module MemoryScopes {
  import opened Paths
  import opened Strings

  // The global level, or a level and an id.
  datatype Scope = Global | Agent(id: string) | Session(id: string) | RunScope(id: string) | PipelineRun(id: string)

  function Level(scope: Scope): string {
    match scope
    case Global => "global"
    case Agent(_) => "agent"
    case Session(_) => "session"
    case RunScope(_) => "run"
    case PipelineRun(_) => "pipeline_run"
  }

  // The extension is `.json` for key-value stores and `.jsonl` for vectors.
  function PathFor(root: Path, scope: Scope, extension: string): Path {
    if scope.Global? then Over(root, "global" + extension)
    else Over(Over(root, Level(scope)), scope.id + extension)
  }

  predicate Absolute(scope: Scope) {
    !scope.Global? && "/" <= scope.id
  }

  // The file below the root, without its extension.
  function Within(scope: Scope): (parts: seq<string>)
    ensures parts != []
  {
    if scope.Global? then ["global"] else [Level(scope)] + Tail(scope.id)
  }

  function Location(root: Path, scope: Scope): (p: Path)
    ensures p.parts != []
  {
    if Absolute(scope) then Path(Anchor(scope.id), Tail(scope.id))
    else Path(root.anchor, root.parts + Within(scope))
  }

  lemma PlainLevel(scope: Scope)
    ensures '/' !in Level(scope) && !Dropped(Level(scope))
  {
  }

  lemma PathIsLocation(root: Path, scope: Scope, extension: string)
    requires Extension(extension)
    ensures var at := Location(root, scope);
            PathFor(root, scope, extension) == Path(at.anchor, Extended(at.parts, extension))
  {
    hide Split, Proper, Tail, Anchor;
    PlainLevel(scope);
    if scope.Global? {
      OverOne(root, "global" + extension);
      assert Extended(root.parts + ["global"], extension) == root.parts + ["global" + extension];
    } else {
      var id := scope.id;
      ProperWithExtension(id, extension);
      AnchorWithExtension(id, extension);
      assert "/" <= id + extension <==> "/" <= id by {
        assert (id + extension)[0] == if id == "" then extension[0] else id[0];
      }
      var level := Over(root, Level(scope));
      OverOne(root, Level(scope));
      assert level == Path(root.anchor, root.parts + [Level(scope)]);
      ExtendedAfter(level.parts, Tail(id), extension);
      assert level.parts + Tail(id) == root.parts + Within(scope);
    }
  }

  lemma ExtendedAfter(front: seq<string>, parts: seq<string>, extension: string)
    requires parts != []
    ensures front + Extended(parts, extension) == Extended(front + parts, extension)
  {
  }

  // Where the scopes with plain ids are stored.
  lemma PlainScopesFile(root: Path, id: string, extension: string)
    requires Extension(extension) && '/' !in id
    ensures PathFor(root, Global, extension) == Path(root.anchor, root.parts + ["global" + extension])
    ensures PathFor(root, Agent(id), extension) == Path(root.anchor, root.parts + ["agent", id + extension])
    ensures PathFor(root, Session(id), extension) == Path(root.anchor, root.parts + ["session", id + extension])
    ensures PathFor(root, RunScope(id), extension) == Path(root.anchor, root.parts + ["run", id + extension])
    ensures PathFor(root, PipelineRun(id), extension)
         == Path(root.anchor, root.parts + ["pipeline_run", id + extension])
  {
    hide Split, Proper;
    var name := id + extension;
    assert '/' !in name && !Dropped(name);
    OverOne(root, "global" + extension);
    forall level | level in {"agent", "session", "run", "pipeline_run"}
      ensures Over(Over(root, level), name) == Path(root.anchor, root.parts + [level, name])
    {
      OverOne(root, level);
      OverOne(Over(root, level), name);
      assert root.parts + [level] + [name] == root.parts + [level, name];
    }
  }

  predicate ShareFile(root: Path, a: Scope, b: Scope, extension: string) {
    PathFor(root, a, extension) == PathFor(root, b, extension)
  }

  lemma SharedExactlyByLocation(root: Path, a: Scope, b: Scope, extension: string)
    requires Extension(extension)
    ensures ShareFile(root, a, b, extension) <==> Location(root, a) == Location(root, b)
  {
    hide PathFor, Location;
    PathIsLocation(root, a, extension);
    PathIsLocation(root, b, extension);
    ExtendedOnce(Location(root, a).parts, Location(root, b).parts, extension);
  }

  // Two scopes are stored in one file exactly when their ids are relative, their levels
  // equal and their ids equal up to components pathlib drops; or both ids are absolute
  // and equal in that sense, whatever their levels; or one is absolute and leads into
  // the root, to the other one's file.
  lemma SharedExactly(root: Path, a: Scope, b: Scope, extension: string)
    requires Extension(extension)
    ensures !Absolute(a) && !Absolute(b) ==>
              (ShareFile(root, a, b, extension)
               <==> Level(a) == Level(b) && (a.Global? || Tail(a.id) == Tail(b.id)))
    ensures Absolute(a) && Absolute(b) ==>
              (ShareFile(root, a, b, extension)
               <==> Anchor(a.id) == Anchor(b.id) && Tail(a.id) == Tail(b.id))
    ensures Absolute(a) && !Absolute(b) ==>
              (ShareFile(root, a, b, extension)
               <==> Anchor(a.id) == root.anchor && Tail(a.id) == root.parts + Within(b))
  {
    hide PathFor, Tail, Anchor;
    SharedExactlyByLocation(root, a, b, extension);
    if !Absolute(a) && !Absolute(b) {
      SamePrefix(root.parts, Within(a), Within(b));
      assert !a.Global? ==> Within(a)[0] == Level(a) && Within(a)[1..] == Tail(a.id);
      assert !b.Global? ==> Within(b)[0] == Level(b) && Within(b)[1..] == Tail(b.id);
    }
  }

  lemma SamePrefix(p: seq<string>, a: seq<string>, b: seq<string>)
    ensures p + a == p + b <==> a == b
  {
    if p + a == p + b {
      assert a == (p + a)[|p|..] && b == (p + b)[|p|..];
    }
  }

  // The file of `a` would have to be a directory for `b` to be stored.
  predicate InTheWay(root: Path, a: Scope, b: Scope, extension: string) {
    Above(PathFor(root, a, extension), PathFor(root, b, extension))
  }

  // Among relative ids that takes two of one level, one of which continues below the
  // file name of the other.
  lemma InTheWayExactly(root: Path, a: Scope, b: Scope, extension: string)
    requires Extension(extension) && !Absolute(a) && !Absolute(b)
    ensures InTheWay(root, a, b, extension)
            <==> && !a.Global? && Level(a) == Level(b)
                 && Extended(Tail(a.id), extension) <= Tail(b.id)[..|Tail(b.id)| - 1]
  {
    hide PathFor, Tail;
    PathIsLocation(root, a, extension);
    PathIsLocation(root, b, extension);
    var x, y := Within(a), Within(b);
    ExtendedAfter(root.parts, x, extension);
    ExtendedAfter(root.parts, y, extension);
    PrefixAfter(root.parts, Extended(x, extension), Extended(y, extension));
    ExtendedPrefix(x, y, extension);
    BelowLevel(a, b, extension);
  }

  lemma BelowLevel(a: Scope, b: Scope, extension: string)
    requires Extension(extension)
    ensures Extended(Within(a), extension) <= Within(b)[..|Within(b)| - 1]
            <==> && !a.Global? && Level(a) == Level(b)
                 && Extended(Tail(a.id), extension) <= Tail(b.id)[..|Tail(b.id)| - 1]
  {
    hide Tail;
    if b.Global? {
      assert Within(b)[..0] == [];
      assert |Level(b)| == 6 && (!a.Global? ==> |Level(a)| != 6);
    } else {
      assert Within(b)[..|Within(b)| - 1] == [Level(b)] + Tail(b.id)[..|Tail(b.id)| - 1];
      if a.Global? {
        GlobalIsNoLevel(b, extension);
        assert Extended(Within(a), extension) == ["global" + extension] + [];
        FirstPart("global" + extension, [], Level(b), Tail(b.id)[..|Tail(b.id)| - 1]);
      } else {
        ExtendedAfter([Level(a)], Tail(a.id), extension);
        FirstPart(Level(a), Extended(Tail(a.id), extension), Level(b), Tail(b.id)[..|Tail(b.id)| - 1]);
      }
    }
  }

  lemma PrefixAfter(p: seq<string>, a: seq<string>, b: seq<string>)
    ensures p + a < p + b <==> a < b
  {
    if p + a < p + b {
      assert a == (p + a)[|p|..] && (p + a)[|p|..] == (p + b)[|p|..][..|a|] && (p + b)[|p|..] == b;
    }
    if a < b {
      assert p + b == p + a + b[|a|..];
    }
  }

  lemma ExtendedPrefix(a: seq<string>, b: seq<string>, extension: string)
    requires a != [] && b != []
    ensures Extended(a, extension) < Extended(b, extension) <==> Extended(a, extension) <= b[..|b| - 1]
  {
    var x, y := Extended(a, extension), Extended(b, extension);
    assert y[..|b| - 1] == b[..|b| - 1];
    if x < y {
      assert x == y[..|x|] && y[..|b| - 1][..|x|] == y[..|x|];
    }
  }

  lemma FirstPart(x: string, a: seq<string>, y: string, b: seq<string>)
    ensures [x] + a <= [y] + b <==> x == y && a <= b
  {
    if [x] + a <= [y] + b {
      assert ([x] + a)[0] == ([y] + b)[0];
      assert ([x] + a)[1..] == a && ([y] + b)[1..] == b;
      assert forall i :: 0 <= i < |a| ==> a[i] == ([x] + a)[i + 1] == ([y] + b)[i + 1] == b[i];
    }
    if x == y && a <= b {
      assert [y] + b == [x] + a + b[|a|..];
    }
  }

  lemma GlobalIsNoLevel(b: Scope, extension: string)
    requires Extension(extension) && !b.Global?
    ensures "global" + extension != Level(b)
  {
    assert ("global" + extension)[0] == 'g';
  }

  predicate SlashFree(scope: Scope) {
    scope.Global? || '/' !in scope.id
  }

  // Ids without slashes never share a file, nor are their files in each other's way.
  lemma SlashFreeScopesAreSeparate(root: Path, a: Scope, b: Scope, extension: string)
    requires Extension(extension) && SlashFree(a) && SlashFree(b)
    ensures ShareFile(root, a, b, extension) ==> a == b
    ensures !InTheWay(root, a, b, extension)
  {
    hide PathFor, Tail, Split;
    SharedExactly(root, a, b, extension);
    SlashFreeTail(a);
    SlashFreeTail(b);
    InTheWayExactly(root, a, b, extension);
  }

  lemma SlashFreeTail(scope: Scope)
    requires SlashFree(scope)
    ensures !Absolute(scope) && (!scope.Global? ==> Tail(scope.id) == [scope.id])
  {
    if !scope.Global? {
      var id := scope.id;
      SplitPlain(id);
      assert [id][..0] == [];
      assert "/" <= id ==> '/' in id;
    }
  }

  // Ids with slashes can: an absolute id discards its level, a double slash counts as
  // one, and so does one around a single dot.
  lemma SlashesMergeScopes(root: Path, extension: string)
    requires Extension(extension)
    ensures ShareFile(root, Agent("/x"), Session("/x"), extension)
    ensures ShareFile(root, Agent("a//b"), Agent("a/b"), extension)
    ensures ShareFile(root, Agent("a/./b"), Agent("a/b"), extension)
  {
    hide Split, Proper, PathFor, Within;
    SharedExactly(root, Agent("/x"), Session("/x"), extension);
    SharedExactly(root, Agent("a//b"), Agent("a/b"), extension);
    SharedExactly(root, Agent("a/./b"), Agent("a/b"), extension);
    SplitPlain("a");
    SplitPlain("");
    SplitPlain(".");
    SplitPlain("b");
    assert "a/b" == "a" + "/" + "b" && "a//b" == "a" + "/" + "/b" && "/b" == "" + "/" + "b";
    SplitConcat("a", "b");
    SplitConcat("", "b");
    SplitConcat("a", "/b");
    assert "a/./b" == "a" + "/" + "./b" && "./b" == "." + "/" + "b";
    SplitConcat(".", "b");
    SplitConcat("a", "./b");
    assert Split("a/b")[..1] == ["a"] && Split("a//b")[..2] == ["a", ""] && Split("a/./b")[..2] == ["a", "."];
    DroppedInside("a", "");
    DroppedInside("a", ".");
  }

  lemma DroppedInside(first: string, idle: string)
    requires !Dropped(first) && Dropped(idle)
    ensures Proper([first]) == Proper([first, idle]) == [first]
  {
    ProperConcat([first], [idle]);
    ProperOne(first);
    assert [first] + [idle] == [first, idle];
    assert [idle][1..] == [];
    assert Proper([idle]) == Proper([idle][1..]);
  }

  // And an id can continue below the file of another: the file name of `a` is a directory
  // of the one of `a.json/b`.
  lemma FileWhereADirectoryIsNeeded(root: Path, extension: string)
    requires Extension(extension)
    ensures InTheWay(root, Agent("a"), Agent("a" + extension + "/b"), extension)
    ensures !ShareFile(root, Agent("a"), Agent("a" + extension + "/b"), extension)
  {
    hide Split, Proper, PathFor, Within, Tail;
    var file := "a" + extension;
    var id := file + "/b";
    assert !Absolute(Agent("a")) && !Absolute(Agent(id)) by { assert id[0] == 'a'; }
    SharedExactly(root, Agent("a"), Agent(id), extension);
    InTheWayExactly(root, Agent("a"), Agent(id), extension);
    TwoParts(extension);
  }

  lemma TwoParts(extension: string)
    requires Extension(extension)
    ensures Tail("a") == ["a"] && Tail("a" + extension + "/b") == ["a" + extension, "b"]
  {
    hide Split;
    var file := "a" + extension;
    SplitPlain("a");
    SplitPlain("b");
    SplitPlain(file);
    assert file + "/b" == file + "/" + "b";
    SplitConcat(file, "b");
    assert Split("a")[..0] == [] && [file, "b"][..1] == [file];
    assert Proper([]) == [];
    assert !Dropped(file) by { assert |file| > 1; }
    ProperOne(file);
  }

  // No two of these scopes share a file, and none of their files is in another's way.
  ghost predicate Separate(root: Path, scopes: set<Scope>, extension: string) {
    forall a, b :: a in scopes && b in scopes ==>
      (ShareFile(root, a, b, extension) ==> a == b) && !InTheWay(root, a, b, extension)
  }

  lemma SlashFreeSeparate(root: Path, scopes: set<Scope>, extension: string)
    requires Extension(extension) && forall scope :: scope in scopes ==> SlashFree(scope)
    ensures Separate(root, scopes, extension)
  {
    forall a, b | a in scopes && b in scopes
      ensures (ShareFile(root, a, b, extension) ==> a == b) && !InTheWay(root, a, b, extension)
    {
      SlashFreeScopesAreSeparate(root, a, b, extension);
    }
  }
}
