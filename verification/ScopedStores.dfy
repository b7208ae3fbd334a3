/** What the stores of the memory layer (`memory/kv`, `memory/vector`) have in common: one
    bucket per scope, in a dictionary in memory and in a file each on disk; when the disk
    refuses a call; and exactly when callers can tell the two apart. */
module ScopedStores {
  import opened MemoryScopes
  import opened Paths
  import opened Wrappers

  // What a call does to the bucket of its scope: what it leaves there, what it answers,
  // whether it looks at the bucket at all, and whether it saves the bucket even when it
  // changed nothing.
  datatype Protocol<!B, !Op, !A> = Protocol(
    empty: B,
    after: (B, Op) -> B,
    answer: (B, Op) -> A,
    loads: Op -> bool,
    saves: (B, Op) -> bool
  )

  // `at` names the bucket a call works on: its scope, or the file of its scope.
  datatype Event<K, Op> = Event(at: K, op: Op)

  function At<K(==), B>(store: map<K, B>, at: K, empty: B): B {
    if at in store then store[at] else empty
  }

  // Only the bucket of `at` changed.
  ghost predicate Moved<K(!new), B>(before: map<K, B>, after: map<K, B>, at: K, bucket: B, empty: B) {
    forall k :: At(after, k, empty) == if k == at then bucket else At(before, k, empty)
  }

  ghost function Answers<K, B, Op, A>(
      p: Protocol<B, Op, A>, store: map<K, B>, trace: seq<Event<K, Op>>): (r: seq<A>)
    ensures |r| == |trace|
    decreases |trace|
  {
    if trace == [] then []
    else
      var e := trace[0];
      var b := At(store, e.at, p.empty);
      [p.answer(b, e.op)] + Answers(p, store[e.at := p.after(b, e.op)], trace[1..])
  }

  // Absent buckets and empty ones cannot be told apart.
  lemma {:induction false} SameBucketsSameAnswers<K(!new), B, Op, A>(
      p: Protocol<B, Op, A>, x: map<K, B>, y: map<K, B>, trace: seq<Event<K, Op>>)
    requires forall k :: At(x, k, p.empty) == At(y, k, p.empty)
    ensures Answers(p, x, trace) == Answers(p, y, trace)
    decreases |trace|
  {
    if trace != [] {
      var e := trace[0];
      var bucket := p.after(At(x, e.at, p.empty), e.op);
      var x', y' := x[e.at := bucket], y[e.at := bucket];
      forall k ensures At(x', k, p.empty) == At(y', k, p.empty) {
        assert At(x, k, p.empty) == At(y, k, p.empty);
      }
      SameBucketsSameAnswers(p, x', y', trace[1..]);
    }
  }

  // ---------- files ----------

  // The paths of regular files never lie on the way to one another.
  ghost predicate Tree<B>(files: map<Path, B>) {
    forall p, q :: p in files && q in files ==> !Above(p, q)
  }

  // Directories are made on the way to files and never removed.
  predicate IsDirectory<B>(files: map<Path, B>, path: Path) {
    exists q :: q in files && Above(path, q)
  }

  // A file stands where a directory is needed.
  predicate Blocked<B>(files: map<Path, B>, path: Path) {
    exists q :: q in files && Above(q, path)
  }

  // Opening a directory to read it fails, and so does making a directory where a file is.
  datatype DiskError = Unreadable | Unwritable

  datatype Outcome<B, A> = Outcome(files: map<Path, B>, answer: Result<A, DiskError>)

  function DiskStep<B(==), Op, A>(p: Protocol<B, Op, A>, files: map<Path, B>, path: Path, op: Op): Outcome<B, A> {
    var b := At(files, path, p.empty);
    var saving := p.saves(b, op) || p.after(b, op) != b;
    if p.loads(op) && IsDirectory(files, path) then Outcome(files, Err(Unreadable))
    else if saving && (Blocked(files, path) || IsDirectory(files, path)) then Outcome(files, Err(Unwritable))
    else Outcome(if saving then files[path := p.after(b, op)] else files, Ok(p.answer(b, op)))
  }

  lemma StaysTree<B, Op, A>(p: Protocol<B, Op, A>, files: map<Path, B>, path: Path, op: Op)
    requires Tree(files)
    ensures Tree(DiskStep(p, files, path, op).files)
  {
  }

  // The calls of a trace, each on the file of its scope.
  ghost function DiskAnswers<B, Op, A>(
      p: Protocol<B, Op, A>, root: Path, extension: string, files: map<Path, B>, trace: seq<Event<Scope, Op>>)
    : (r: seq<Result<A, DiskError>>)
    ensures |r| == |trace|
    decreases |trace|
  {
    if trace == [] then []
    else
      var s := DiskStep(p, files, PathFor(root, trace[0].at, extension), trace[0].op);
      [s.answer] + DiskAnswers(p, root, extension, s.files, trace[1..])
  }

  // The calls the disk does not refuse, each in the place of its file.
  ghost function Admitted<B, Op, A>(
      p: Protocol<B, Op, A>, root: Path, extension: string, files: map<Path, B>, trace: seq<Event<Scope, Op>>)
    : seq<Event<Path, Op>>
    decreases |trace|
  {
    if trace == [] then []
    else
      var path := PathFor(root, trace[0].at, extension);
      var s := DiskStep(p, files, path, trace[0].op);
      (if s.answer.Ok? then [Event(path, trace[0].op)] else []) + Admitted(p, root, extension, s.files, trace[1..])
  }

  function NotRefused<A>(answers: seq<Result<A, DiskError>>): seq<A> {
    if answers == [] then []
    else (if answers[0].Ok? then [answers[0].value] else []) + NotRefused(answers[1..])
  }

  // A refused call leaves no trace: the others are answered as if it had not been made.
  lemma {:induction false} RefusedCallsChangeNothing<B, Op, A>(
      p: Protocol<B, Op, A>, root: Path, extension: string, files: map<Path, B>, trace: seq<Event<Scope, Op>>)
    ensures NotRefused(DiskAnswers(p, root, extension, files, trace))
         == Answers(p, files, Admitted(p, root, extension, files, trace))
    decreases |trace|
  {
    hide PathFor, IsDirectory, Blocked;
    if trace != [] {
      var path, op := PathFor(root, trace[0].at, extension), trace[0].op;
      var s := DiskStep(p, files, path, op);
      var rest := Admitted(p, root, extension, s.files, trace[1..]);
      RefusedCallsChangeNothing(p, root, extension, s.files, trace[1..]);
      var answers := DiskAnswers(p, root, extension, files, trace);
      assert answers[1..] == DiskAnswers(p, root, extension, s.files, trace[1..]);
      if s.answer.Ok? {
        var admitted := [Event(path, op)] + rest;
        assert admitted[0] == Event(path, op) && admitted[1..] == rest;
        var b := At(files, path, p.empty);
        SameBucketsSameAnswers(p, s.files, files[path := p.after(b, op)], rest);
        assert Answers(p, files, admitted) == [p.answer(b, op)] + Answers(p, s.files, rest);
      } else {
        assert Admitted(p, root, extension, files, trace) == [] + rest == rest;
        assert NotRefused(answers) == [] + NotRefused(answers[1..]) == NotRefused(answers[1..]);
      }
    }
  }

  // ---------- memory and disk ----------

  ghost function ScopesOf<Op>(trace: seq<Event<Scope, Op>>): set<Scope> {
    set e | e in trace :: e.at
  }

  function AllGiven<A>(answers: seq<A>): (r: seq<Result<A, DiskError>>)
    ensures |r| == |answers|
  {
    seq(|answers|, i requires 0 <= i < |answers| => Ok(answers[i]))
  }

  ghost predicate Below<B>(root: Path, extension: string, scopes: set<Scope>, files: map<Path, B>) {
    forall path :: path in files ==> exists s :: s in scopes && path == PathFor(root, s, extension)
  }

  lemma NothingRefused<B>(root: Path, extension: string, scopes: set<Scope>, files: map<Path, B>, scope: Scope)
    requires Separate(root, scopes, extension) && Below(root, extension, scopes, files) && scope in scopes
    ensures var path := PathFor(root, scope, extension); !IsDirectory(files, path) && !Blocked(files, path)
  {
    hide PathFor, Above;
    var path := PathFor(root, scope, extension);
    forall q | q in files ensures !Above(path, q) && !Above(q, path) {
      var s :| s in scopes && q == PathFor(root, s, extension);
      assert !InTheWay(root, s, scope, extension) && !InTheWay(root, scope, s, extension);
    }
  }

  // Working on files instead of scopes changes no answer when no two scopes share a file
  // and no file is in another's way.
  lemma {:induction false} DiskIsInvisible<B, Op, A>(
      p: Protocol<B, Op, A>, root: Path, extension: string, scopes: set<Scope>,
      store: map<Scope, B>, files: map<Path, B>, trace: seq<Event<Scope, Op>>)
    requires Separate(root, scopes, extension) && ScopesOf(trace) <= scopes
    requires Below(root, extension, scopes, files)
    requires forall s :: s in scopes ==> At(files, PathFor(root, s, extension), p.empty) == At(store, s, p.empty)
    ensures DiskAnswers(p, root, extension, files, trace) == AllGiven(Answers(p, store, trace))
    decreases |trace|
  {
    hide PathFor, IsDirectory, Blocked, InTheWay;
    if trace != [] {
      var e := trace[0];
      assert e.at in ScopesOf(trace);
      var path := PathFor(root, e.at, extension);
      NothingRefused(root, extension, scopes, files, e.at);
      var s := DiskStep(p, files, path, e.op);
      var store' := store[e.at := p.after(At(store, e.at, p.empty), e.op)];
      forall s' | s' in scopes
        ensures At(s.files, PathFor(root, s', extension), p.empty) == At(store', s', p.empty)
      {
        assert ShareFile(root, s', e.at, extension) ==> s' == e.at;
      }
      assert ScopesOf(trace[1..]) <= scopes by {
        assert forall x :: x in trace[1..] ==> x in trace;
      }
      DiskIsInvisible(p, root, extension, scopes, store', s.files, trace[1..]);
    }
  }

  // What is saved for one scope is seen by another one stored in the same file.
  function Leak<Op>(a: Scope, b: Scope, write: Op, look: Op): seq<Event<Scope, Op>> {
    [Event(a, write), Event(b, look)]
  }

  lemma FirstTwo<K, B, Op, A>(p: Protocol<B, Op, A>, store: map<K, B>, a: K, b: K, write: Op, look: Op)
    ensures var x := At(store, a, p.empty);
            Answers(p, store, [Event(a, write), Event(b, look)])
            == [p.answer(x, write), p.answer(At(store[a := p.after(x, write)], b, p.empty), look)]
  {
    var trace := [Event(a, write), Event(b, look)];
    assert trace[1..] == [Event(b, look)] && trace[1..][1..] == [];
  }

  lemma FirstTwoOnDisk<B, Op, A>(
      p: Protocol<B, Op, A>, root: Path, extension: string, a: Scope, b: Scope, write: Op, look: Op)
    ensures var s := DiskStep(p, map[], PathFor(root, a, extension), write);
            DiskAnswers(p, root, extension, map[], Leak(a, b, write, look))
            == [s.answer, DiskStep(p, s.files, PathFor(root, b, extension), look).answer]
  {
    hide PathFor, DiskStep;
    var trace := Leak(a, b, write, look);
    assert trace[1..] == [Event(b, look)] && trace[1..][1..] == [];
  }

  // A call that saves something where nothing was, and one that can tell.
  ghost predicate Telling<B, Op, A>(p: Protocol<B, Op, A>, write: Op, look: Op) {
    && (p.saves(p.empty, write) || p.after(p.empty, write) != p.empty)
    && p.answer(p.after(p.empty, write), look) != p.answer(p.empty, look)
  }

  lemma SharedFileLeaks<B, Op, A>(
      p: Protocol<B, Op, A>, root: Path, extension: string, a: Scope, b: Scope, write: Op, look: Op)
    requires Telling(p, write, look) && a != b && ShareFile(root, a, b, extension)
    ensures var trace := Leak(a, b, write, look);
            DiskAnswers(p, root, extension, map[], trace) != AllGiven(Answers(p, map[], trace))
  {
    hide PathFor;
    var trace, path := Leak(a, b, write, look), PathFor(root, a, extension);
    FirstTwo(p, map[], a, b, write, look);
    FirstTwoOnDisk(p, root, extension, a, b, write, look);
    var s := DiskStep(p, map[], path, write);
    assert !IsDirectory(s.files, path) && !Blocked(s.files, path);
    assert AllGiven(Answers(p, map[], trace))[1] == Ok(p.answer(p.empty, look));
  }

  lemma FileInTheWayRefuses<B, Op, A>(
      p: Protocol<B, Op, A>, root: Path, extension: string, a: Scope, b: Scope, write: Op, look: Op)
    requires Telling(p, write, look) && InTheWay(root, a, b, extension)
    ensures var trace := Leak(a, b, write, write);
            && DiskAnswers(p, root, extension, map[], trace) == [Ok(p.answer(p.empty, write)), Err(Unwritable)]
            && DiskAnswers(p, root, extension, map[], trace) != AllGiven(Answers(p, map[], trace))
  {
    hide PathFor;
    var trace, path := Leak(a, b, write, write), PathFor(root, a, extension);
    FirstTwoOnDisk(p, root, extension, a, b, write, write);
    var s := DiskStep(p, map[], path, write);
    assert s.files.Keys == {path};
    assert path in s.files && Above(path, PathFor(root, b, extension));
    assert AllGiven(Answers(p, map[], trace))[1].Ok?;
  }

  // Such scopes: the second write fails on disk and not in memory.
  lemma RefusedWrite<B, Op, A>(p: Protocol<B, Op, A>, root: Path, extension: string, write: Op, look: Op)
    requires Telling(p, write, look) && Extension(extension)
    ensures var trace := Leak(Agent("a"), Agent("a" + extension + "/b"), write, write);
            && Answers(p, map[], trace) == [p.answer(p.empty, write), p.answer(p.empty, write)]
            && DiskAnswers(p, root, extension, map[], trace) == [Ok(p.answer(p.empty, write)), Err(Unwritable)]
  {
    hide PathFor, Telling;
    var a, b := Agent("a"), Agent("a" + extension + "/b");
    FileWhereADirectoryIsNeeded(root, extension);
    FileInTheWayRefuses(p, root, extension, a, b, write, look);
    FirstTwo(p, map[], a, b, write, write);
  }

  // Started empty, memory and disk give the same answers on all traces over these scopes.
  ghost predicate DiskIsLikeMemory<B, Op(!new), A>(
      p: Protocol<B, Op, A>, root: Path, extension: string, scopes: set<Scope>)
  {
    forall trace: seq<Event<Scope, Op>> | ScopesOf(trace) <= scopes ::
      DiskAnswers(p, root, extension, map[], trace) == AllGiven(Answers(p, map[], trace))
  }

  // They do exactly when no two of these scopes are stored in one file and none of their
  // files is in another's way.
  lemma AgreeExactly<B, Op(!new), A>(
      p: Protocol<B, Op, A>, root: Path, extension: string, scopes: set<Scope>, write: Op, look: Op)
    requires Telling(p, write, look)
    ensures DiskIsLikeMemory(p, root, extension, scopes) <==> Separate(root, scopes, extension)
  {
    hide PathFor, Answers, DiskAnswers, ShareFile, InTheWay, Telling;
    if Separate(root, scopes, extension) {
      forall trace: seq<Event<Scope, Op>> | ScopesOf(trace) <= scopes
        ensures DiskAnswers(p, root, extension, map[], trace) == AllGiven(Answers(p, map[], trace))
      {
        DiskIsInvisible(p, root, extension, scopes, map[], map[], trace);
      }
    } else if a, b :| a in scopes && b in scopes && ShareFile(root, a, b, extension) && a != b {
      SharedFileLeaks(p, root, extension, a, b, write, look);
      assert ScopesOf(Leak(a, b, write, look)) == {a, b};
    } else {
      var a, b :| a in scopes && b in scopes && InTheWay(root, a, b, extension);
      FileInTheWayRefuses(p, root, extension, a, b, write, look);
      assert ScopesOf(Leak(a, b, write, write)) == {a, b};
    }
  }
}
