/** The two vector backends, `memory/vector/in_memory.py` and
    `memory/vector/filesystem.py`, each proved to take the step of one specification; on
    disk a call can also fail, where a file stands in the way of a directory or the other
    way round.

    A JSONL file is the sequence of its records; a record loads back as it was. */
module VectorStores {
  import opened MemoryScopes
  import opened Paths
  import opened Ranking
  import opened ScopedStores
  import opened Vectors
  import opened Wrappers

  datatype Op =
    | Upsert(items: seq<VectorItem>)
    | Delete(ids: seq<string>)
    | Search(query: Vector, k: int, minScore: real)
    | Count

  datatype Answer =
    | Done
    | Removed(count: nat)
    | Found(hits: seq<Scored<VectorItem>>)
    | Counted(count: nat)

  // A dictionary by id: the items in insertion order, no id twice.
  type Records = b: Bucket | Keyed(b)

  function RecordsAfter(b: Records, op: Op): Records {
    match op
    case Upsert(items) => UpsertMeaning(b, items, ""); PutAll(b, items)
    case Delete(ids) => DeleteMeaning(b, ids, ""); PopAll(b, ids)
    case _ => b
  }

  ghost function AnswerTo(sqrt: real -> real, b: Records, op: Op): Answer
    requires IsSqrt(sqrt)
  {
    match op
    case Upsert(_) => Done
    case Delete(ids) => DeleteMeaning(b, ids, ""); Removed(|b| - |PopAll(b, ids)|)
    case Search(query, k, minScore) => Found(Hits(sqrt, b, query, k, minScore))
    case Count => Counted(|b|)
  }

  // A delete answers how many distinct ids it names were there, a count how many there are.
  lemma DeleteAnswers(sqrt: real -> real, b: Records, ids: seq<string>)
    requires IsSqrt(sqrt)
    ensures AnswerTo(sqrt, b, Delete(ids)) == Removed(|set id | id in ids && id in Ids(b)|)
    ensures AnswerTo(sqrt, b, Count) == Counted(|Ids(b)|)
  {
    DeleteMeaning(b, ids, "");
    DeleteCountsOnce(b, ids);
  }

  // A search for no hits does not look at its bucket; an upsert always saves it.
  ghost function VectorProtocol(sqrt: real -> real): Protocol<Records, Op, Answer>
    requires IsSqrt(sqrt)
  {
    Protocol(
      [],
      (b: Records, op: Op) => RecordsAfter(b, op),
      (b: Records, op: Op) => AnswerTo(sqrt, b, op),
      (op: Op) => op.Search? ==> op.k > 0,
      (b: Records, op: Op) => op.Upsert?
    )
  }

  // The deletion loop of both backends.
  method PopEach(start: Records, ids: seq<string>) returns (bucket: Records, removed: nat)
    ensures bucket == PopAll(start, ids)
    ensures removed == |start| - |bucket|
  {
    bucket, removed := start, 0;
    for i := 0 to |ids|
      invariant bucket == PopAll(start, ids[..i])
      invariant removed == |start| - |bucket|
    {
      assert ids[..i + 1][..i] == ids[..i];
      PopMeaning(bucket, ids[i], "");
      LookupIsMembership(bucket, ids[i]);
      var popped := Lookup(bucket, ids[i]);
      bucket := Pop(bucket, ids[i]);
      if popped.Some? {
        removed := removed + 1;
      }
    }
    assert ids[..|ids|] == ids;
  }

  method PutEach(start: Records, items: seq<VectorItem>) returns (bucket: Records)
    ensures bucket == PutAll(start, items)
  {
    bucket := start;
    for i := 0 to |items|
      invariant bucket == PutAll(start, items[..i])
    {
      assert items[..i + 1][..i] == items[..i];
      PutMeaning(bucket, items[i], "");
      bucket := Put(bucket, items[i]);
    }
    assert items[..|items|] == items;
  }

  class InMemoryVectorStore {
    var data: map<Scope, Records>
    const sqrt: real -> real

    ghost predicate Valid()
      reads this
    {
      IsSqrt(sqrt)
    }

    constructor (sqrt: real -> real)
      requires IsSqrt(sqrt)
      ensures Valid() && data == map[] && this.sqrt == sqrt
    {
      this.sqrt := sqrt;
      data := map[];
    }

    method Upsert(scope: Scope, items: seq<VectorItem>)
      modifies this
      ensures Moved(old(data), data, scope, RecordsAfter(At(old(data), scope, []), Op.Upsert(items)), [])
    {
      var bucket := PutEach(At(data, scope, []), items);
      data := data[scope := bucket];
    }

    method Search(scope: Scope, query: Vector, k: int, minScore: real) returns (hits: seq<Scored<VectorItem>>)
      requires Valid()
      ensures hits == Hits(sqrt, At(data, scope, []), query, k, minScore)
    {
      if k <= 0 {
        return [];
      }
      hits := SearchBucket(sqrt, At(data, scope, []), query, k, minScore);
    }

    method Delete(scope: Scope, ids: seq<string>) returns (removed: nat)
      modifies this
      ensures Moved(old(data), data, scope, RecordsAfter(At(old(data), scope, []), Op.Delete(ids)), [])
      ensures removed == |At(old(data), scope, [])| - |PopAll(At(old(data), scope, []), ids)|
    {
      if scope !in data || data[scope] == [] {
        PopFromNothing(ids);
        return 0;
      }
      var bucket;
      bucket, removed := PopEach(data[scope], ids);
      data := data[scope := bucket];
    }

    method Count(scope: Scope) returns (count: nat)
      ensures count == |At(data, scope, [])|
    {
      count := |At(data, scope, [])|;
    }

    method Perform(e: Event<Scope, Op>) returns (a: Answer)
      requires Valid()
      modifies this
      ensures Valid() && a == AnswerTo(sqrt, At(old(data), e.at, []), e.op)
      ensures Moved(old(data), data, e.at, RecordsAfter(At(old(data), e.at, []), e.op), [])
    {
      match e.op
      case Upsert(items) =>
        Upsert(e.at, items);
        a := Done;
      case Delete(ids) =>
        var removed := Delete(e.at, ids);
        a := Removed(removed);
      case Search(query, k, minScore) =>
        var hits := Search(e.at, query, k, minScore);
        a := Found(hits);
      case Count =>
        var count := Count(e.at);
        a := Counted(count);
    }

    method Replay(trace: seq<Event<Scope, Op>>) returns (answers: seq<Answer>)
      requires Valid()
      modifies this
      ensures answers == Answers(VectorProtocol(sqrt), old(data), trace)
    {
      hide AnswerTo, RecordsAfter;
      answers := [];
      ghost var p, model: map<Scope, Records> := VectorProtocol(sqrt), data;
      assert trace[0..] == trace;
      for i := 0 to |trace|
        invariant Valid()
        invariant forall s :: At(data, s, []) == At(model, s, [])
        invariant Answers(p, old(data), trace) == answers + Answers(p, model, trace[i..])
      {
        var e := trace[i];
        assert trace[i..][0] == e && trace[i..][1..] == trace[i + 1..];
        ghost var next: map<Scope, Records> := model[e.at := RecordsAfter(At(model, e.at, []), e.op)];
        var a := Perform(e);
        assert answers + ([a] + Answers(p, next, trace[i + 1..])) == answers + [a] + Answers(p, next, trace[i + 1..]);
        answers := answers + [a];
        model := next;
      }
      assert trace[|trace|..] == [];
    }
  }

  lemma {:induction false} PopFromNothing(ids: seq<string>)
    ensures PopAll([], ids) == []
  {
    if ids != [] {
      PopFromNothing(ids[..|ids| - 1]);
    }
  }

  // ---------- one JSONL file per scope ----------

  // Loading what a dump wrote gives back the same dictionary, in the same order.
  lemma {:induction false} LoadAfterDump(b: Bucket, n: nat)
    requires Keyed(b) && n <= |b|
    ensures PutAll([], b[..n]) == b[..n]
  {
    hide Put, Keyed, Ids;
    if n > 0 {
      LoadAfterDump(b, n - 1);
      assert b[..n][..n - 1] == b[..n - 1] && b[..n][n - 1] == b[n - 1];
      PrefixLacks(b, n - 1);
      PutNew(b[..n - 1], b[n - 1]);
      assert b[..n - 1] + [b[n - 1]] == b[..n];
    }
  }

  lemma {:induction false} PrefixLacks(b: Bucket, i: nat)
    requires Keyed(b) && i < |b|
    ensures b[i].id !in Ids(b[..i])
  {
    if i > 0 {
      PrefixLacks(b[1..], i - 1);
      assert b[..i][1..] == b[1..][..i - 1];
      assert Ids(b[1..])[i - 1] == b[i].id;
    }
  }

  lemma {:induction false} PutNew(b: Bucket, item: VectorItem)
    requires item.id !in Ids(b)
    ensures Put(b, item) == b + [item]
  {
    if b != [] {
      assert Ids(b)[0] == b[0].id;
      PutNew(b[1..], item);
      assert b == [b[0]] + b[1..];
    }
  }

  // Removing no item leaves the bucket as it was.
  lemma {:induction false} PopNothing(b: Bucket, ids: seq<string>)
    requires Keyed(b) && |PopAll(b, ids)| == |b|
    ensures PopAll(b, ids) == b
  {
    if ids != [] {
      var front, gone := ids[..|ids| - 1], ids[|ids| - 1];
      DeleteMeaning(b, front, "");
      PopMeaning(PopAll(b, front), gone, "");
      PopNothing(b, front);
      PopAbsent(b, gone);
    }
  }

  lemma {:induction false} PopAbsent(b: Bucket, id: string)
    requires id !in Ids(b)
    ensures Pop(b, id) == b
  {
    if b != [] {
      assert Ids(b)[0] == b[0].id;
      PopAbsent(b[1..], id);
      assert b == [b[0]] + b[1..];
    }
  }

  const JSONL := ".jsonl"

  class FilesystemJSONVectorStore {
    const root: Path
    const sqrt: real -> real
    var files: map<Path, Records>

    ghost predicate Valid()
      reads this
    {
      IsSqrt(sqrt) && Tree(files)
    }

    constructor (root: string, sqrt: real -> real)
      requires IsSqrt(sqrt)
      ensures Valid() && files == map[] && this.root == Parsed(root) && this.sqrt == sqrt
    {
      this.root := Parsed(root);
      this.sqrt := sqrt;
      files := map[];
    }

    // What the specification says of a call, from these files on.
    ghost function Step(scope: Scope, op: Op): Outcome<Records, Answer>
      requires Valid()
      reads this
    {
      DiskStep(VectorProtocol(sqrt), files, PathFor(root, scope, JSONL), op)
    }

    // Reads the records in file order into a dictionary keyed by id.
    method Load(scope: Scope) returns (items: Result<Records, DiskError>)
      ensures var path := PathFor(root, scope, JSONL);
              items == if IsDirectory(files, path) then Err(Unreadable) else Ok(At(files, path, []))
    {
      hide PathFor;
      var path := PathFor(root, scope, JSONL);
      var there := path in files || IsDirectory(files, path);
      if !there {
        return Ok([]);
      }
      if IsDirectory(files, path) {
        return Err(Unreadable);
      }
      var lines := files[path];
      var loaded := PutEach([], lines);
      LoadAfterDump(lines, |lines|);
      assert lines[..|lines|] == lines;
      items := Ok(loaded);
    }

    // Makes the directory, then replaces the file; neither happens where the other stands.
    method Dump(scope: Scope, items: Records) returns (done: Result<(), DiskError>)
      requires Valid()
      modifies this
      ensures Valid()
      ensures var path := PathFor(root, scope, JSONL);
              if Blocked(old(files), path) || IsDirectory(old(files), path)
              then done == Err(Unwritable) && files == old(files)
              else done == Ok(()) && files == old(files)[path := items]
    {
      hide PathFor;
      var path := PathFor(root, scope, JSONL);
      if Blocked(files, path) || IsDirectory(files, path) {
        return Err(Unwritable);
      }
      files := files[path := items];
      done := Ok(());
    }

    method Upsert(scope: Scope, items: seq<VectorItem>) returns (done: Result<(), DiskError>)
      requires Valid()
      modifies this
      ensures Valid() && old(Step(scope, Op.Upsert(items)))
                         == Outcome(files, if done.Ok? then Ok(Done) else Err(done.error))
    {
      hide PathFor, IsDirectory, Blocked;
      var current :- Load(scope);
      current := PutEach(current, items);
      done := Dump(scope, current);
    }

    method Search(scope: Scope, query: Vector, k: int, minScore: real)
      returns (hits: Result<seq<Scored<VectorItem>>, DiskError>)
      requires Valid()
      ensures Step(scope, Op.Search(query, k, minScore))
              == Outcome(files, if hits.Ok? then Ok(Found(hits.value)) else Err(hits.error))
    {
      hide PathFor, IsDirectory, Blocked;
      if k <= 0 {
        return Ok([]);
      }
      var current :- Load(scope);
      var found := SearchBucket(sqrt, current, query, k, minScore);
      hits := Ok(found);
    }

    method Delete(scope: Scope, ids: seq<string>) returns (removed: Result<nat, DiskError>)
      requires Valid()
      modifies this
      ensures Valid() && old(Step(scope, Op.Delete(ids)))
                         == Outcome(files, if removed.Ok? then Ok(Removed(removed.value)) else Err(removed.error))
    {
      hide PathFor, IsDirectory, Blocked;
      var start :- Load(scope);
      var current, count := PopEach(start, ids);
      if count > 0 {
        var _ :- Dump(scope, current);
      } else {
        PopNothing(start, ids);
      }
      removed := Ok(count);
    }

    method Count(scope: Scope) returns (count: Result<nat, DiskError>)
      requires Valid()
      ensures Step(scope, Op.Count)
              == Outcome(files, if count.Ok? then Ok(Counted(count.value)) else Err(count.error))
    {
      hide PathFor, IsDirectory, Blocked;
      var current :- Load(scope);
      count := Ok(|current|);
    }

    method Perform(e: Event<Scope, Op>) returns (a: Result<Answer, DiskError>)
      requires Valid()
      modifies this
      ensures Valid() && old(Step(e.at, e.op)) == Outcome(files, a)
    {
      hide Step;
      match e.op
      case Upsert(items) =>
        var _ :- Upsert(e.at, items);
        a := Ok(Done);
      case Delete(ids) =>
        var removed :- Delete(e.at, ids);
        a := Ok(Removed(removed));
      case Search(query, k, minScore) =>
        var hits :- Search(e.at, query, k, minScore);
        a := Ok(Found(hits));
      case Count =>
        var count :- Count(e.at);
        a := Ok(Counted(count));
    }

    // Every trace of calls answers as the specification says.
    method Replay(trace: seq<Event<Scope, Op>>) returns (answers: seq<Result<Answer, DiskError>>)
      requires Valid()
      modifies this
      ensures Valid() && answers == DiskAnswers(VectorProtocol(sqrt), root, JSONL, old(files), trace)
    {
      hide DiskStep, PathFor, VectorProtocol;
      answers := [];
      ghost var p := VectorProtocol(sqrt);
      assert trace[0..] == trace;
      for i := 0 to |trace|
        invariant Valid()
        invariant DiskAnswers(p, root, JSONL, old(files), trace)
               == answers + DiskAnswers(p, root, JSONL, files, trace[i..])
      {
        var e := trace[i];
        assert trace[i..][0] == e && trace[i..][1..] == trace[i + 1..];
        var a := Perform(e);
        assert answers + ([a] + DiskAnswers(p, root, JSONL, files, trace[i + 1..]))
            == answers + [a] + DiskAnswers(p, root, JSONL, files, trace[i + 1..]);
        answers := answers + [a];
      }
      assert trace[|trace|..] == [];
    }
  }

  // ---------- both backends ----------

  const WRITE := Upsert([VectorItem("x", "", [])])

  lemma TellingCalls(sqrt: real -> real)
    requires IsSqrt(sqrt)
    ensures Telling(VectorProtocol(sqrt), WRITE, Count)
  {
    PutOne();
    var p := VectorProtocol(sqrt);
    assert p.answer(p.after([], WRITE), Count) == Counted(1);
    assert p.answer([], Count) == Counted(0);
  }

  lemma PutOne()
    ensures |RecordsAfter([], WRITE)| == 1
  {
    var items := [VectorItem("x", "", [])];
    assert items[..0] == [];
    assert PutAll([], items) == Put(PutAll([], items[..0]), items[0]);
  }

  // The backends agree exactly when no two of the scopes are stored in one file and no
  // file is in another's way.
  lemma BackendsAgreeExactly(sqrt: real -> real, root: Path, scopes: set<Scope>)
    requires IsSqrt(sqrt)
    ensures DiskIsLikeMemory(VectorProtocol(sqrt), root, JSONL, scopes) <==> Separate(root, scopes, JSONL)
  {
    hide Separate, DiskIsLikeMemory;
    TellingCalls(sqrt);
    AgreeExactly(VectorProtocol(sqrt), root, JSONL, scopes, WRITE, Count);
  }

  // Started empty, the backends give the same answers when no two scopes share a file and
  // no file is in another's way, which ids without slashes ensure; and the filesystem one
  // answers what the disk does not refuse as a store of files would.
  method ReplayBoth(root: string, sqrt: real -> real, trace: seq<Event<Scope, Op>>)
    returns (memory: seq<Answer>, disk: seq<Result<Answer, DiskError>>)
    requires IsSqrt(sqrt)
    ensures Separate(Parsed(root), ScopesOf(trace), JSONL) ==> disk == AllGiven(memory)
    ensures (forall e :: e in trace ==> SlashFree(e.at)) ==> disk == AllGiven(memory)
    ensures memory == Answers(VectorProtocol(sqrt), map[], trace)
    ensures var admitted := Admitted(VectorProtocol(sqrt), Parsed(root), JSONL, map[], trace);
            NotRefused(disk) == Answers(VectorProtocol(sqrt), map[], admitted)
  {
    hide PathFor, Parsed, SlashFree, Answers, DiskAnswers, Admitted, NotRefused;
    var inMemory := new InMemoryVectorStore(sqrt);
    memory := inMemory.Replay(trace);
    var filesystem := new FilesystemJSONVectorStore(root, sqrt);
    disk := filesystem.Replay(trace);
    ghost var p, path := VectorProtocol(sqrt), Parsed(root);
    if forall e :: e in trace ==> SlashFree(e.at) {
      SlashFreeSeparate(path, ScopesOf(trace), JSONL);
    }
    if Separate(path, ScopesOf(trace), JSONL) {
      DiskIsInvisible(p, path, JSONL, ScopesOf(trace), map[], map[], trace);
    }
    RefusedCallsChangeNothing(p, path, JSONL, map[], trace);
  }
}
