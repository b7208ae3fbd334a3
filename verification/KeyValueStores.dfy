/** The two key-value backends, `memory/kv/in_memory.py` and `memory/kv/filesystem.py`,
    each proved to take the lazy step of `KeyValue` on the dictionary it is called with
    and to leave every other one alone; on disk a call can also fail, where a file stands
    in the way of a directory or the other way round.

    A file's contents are the dictionary that was dumped: JSON values load back as
    they were. */
module KeyValueStores {
  import opened KeyValue
  import opened MemoryScopes
  import opened Paths
  import opened ScopedStores
  import opened StringOrder
  import opened Wrappers

  function StepAt(store: map<Scope, Bucket>, scope: Scope, now: real, op: Op): Stepped {
    LazyStep(At(store, scope, map[]), now, op)
  }

  // The state after a call: its step on the dictionary of its scope, nothing else.
  ghost predicate Took(before: map<Scope, Bucket>, scope: Scope, now: real, op: Op,
                       after: map<Scope, Bucket>, answer: Answer) {
    && StepAt(before, scope, now, op).answer == answer
    && Moved(before, after, scope, StepAt(before, scope, now, op).bucket, map[])
  }

  // ---------- one dictionary per scope ----------

  class InMemoryKeyValueStore {
    var data: map<Scope, Bucket>

    constructor ()
      ensures data == map[]
    {
      data := map[];
    }

    method Get(scope: Scope, key: string, now: real) returns (value: Value)
      modifies this
      ensures Took(old(data), scope, now, KeyValue.Get(key), data, Found(value))
    {
      if scope !in data || data[scope] == map[] {
        return Null;
      }
      var bucket := data[scope];
      if key !in bucket {
        return Null;
      }
      if !Alive(bucket[key], now) {
        data := data[scope := bucket - {key}];
        return Null;
      }
      value := bucket[key].value;
    }

    method Set(scope: Scope, key: string, value: Value, ttl: Option<real>, now: real)
      modifies this
      ensures Took(old(data), scope, now, KeyValue.Set(key, value, ttl), data, Done)
    {
      var expiresAt := if ttl.Some? then Some(now + ttl.value) else None;
      data := data[scope := At(data, scope, map[])[key := Entry(value, expiresAt)]];
    }

    method Delete(scope: Scope, key: string, now: real) returns (existed: bool)
      modifies this
      ensures Took(old(data), scope, now, KeyValue.Delete(key), data, Existed(existed))
    {
      if scope !in data || data[scope] == map[] || key !in data[scope] {
        return false;
      }
      data := data[scope := data[scope] - {key}];
      existed := true;
    }

    method ListKeys(scope: Scope, prefix: string, now: real) returns (keys: seq<string>)
      modifies this
      ensures Took(old(data), scope, now, KeyValue.ListKeys(prefix), data, Keys(keys))
    {
      var start := At(data, scope, map[]);
      var dead := set k | k in start && !Alive(start[k], now);
      var bucket := start;
      while dead != {}
        invariant forall k :: k in dead ==> k in start && !Alive(start[k], now)
        invariant bucket == map k | k in start && (Alive(start[k], now) || k in dead) :: start[k]
        decreases |dead|
      {
        var k :| k in dead;
        bucket := bucket - {k};
        dead := dead - {k};
      }
      assert bucket == Sweep(start, now);
      if scope in data {
        data := data[scope := bucket];
      }
      keys := Listed(bucket, prefix);
    }

    method CompareAndSwap(scope: Scope, key: string, expected: Value, replacement: Value, now: real)
      returns (swapped: bool)
      modifies this
      ensures Took(old(data), scope, now, KeyValue.CompareAndSwap(key, expected, replacement), data, Swapped(swapped))
    {
      var bucket := At(data, scope, map[]);
      data := data[scope := bucket];
      var current := if key in bucket && Alive(bucket[key], now) then bucket[key].value else Null;
      if !PyEq(current, expected) {
        return false;
      }
      data := data[scope := bucket[key := Entry(replacement, None)]];
      swapped := true;
    }

    // False is the TypeError.
    method Append(scope: Scope, key: string, value: Value, now: real) returns (ok: bool)
      modifies this
      ensures Took(old(data), scope, now, KeyValue.Append(key, value), data, if ok then Done else WrongType)
    {
      var bucket := At(data, scope, map[]);
      data := data[scope := bucket];
      if key !in bucket || !Alive(bucket[key], now) {
        data := data[scope := bucket[key := Entry(List([value]), None)]];
        return true;
      }
      var entry := bucket[key];
      if !entry.value.List? {
        return false;
      }
      data := data[scope := bucket[key := entry.(value := List(entry.value.items + [value]))]];
      ok := true;
    }

    // None is the TypeError.
    method Increment(scope: Scope, key: string, delta: int, now: real) returns (total: Option<int>)
      modifies this
      ensures Took(old(data), scope, now, KeyValue.Increment(key, delta), data,
                   if total.Some? then Total(total.value) else WrongType)
    {
      var bucket := At(data, scope, map[]);
      data := data[scope := bucket];
      var current := if key in bucket && Alive(bucket[key], now) then bucket[key].value else Int(0);
      if IntOf(current).None? {
        return None;
      }
      var newValue := IntOf(current).value + delta;
      data := data[scope := bucket[key := Entry(Int(newValue), None)]];
      total := Some(newValue);
    }

    method Perform(e: Event<Scope, Call>) returns (a: Answer)
      modifies this
      ensures Took(old(data), e.at, e.op.now, e.op.op, data, a)
    {
      hide Took;
      var now := e.op.now;
      match e.op.op
      case Get(key) =>
        var value := Get(e.at, key, now);
        a := Found(value);
      case Set(key, value, ttl) =>
        Set(e.at, key, value, ttl, now);
        a := Done;
      case Delete(key) =>
        var existed := Delete(e.at, key, now);
        a := Existed(existed);
      case ListKeys(prefix) =>
        var keys := ListKeys(e.at, prefix, now);
        a := Keys(keys);
      case CompareAndSwap(key, expected, replacement) =>
        var swapped := CompareAndSwap(e.at, key, expected, replacement, now);
        a := Swapped(swapped);
      case Append(key, value) =>
        var ok := Append(e.at, key, value, now);
        a := if ok then Done else WrongType;
      case Increment(key, delta) =>
        var total := Increment(e.at, key, delta, now);
        a := if total.Some? then Total(total.value) else WrongType;
    }

    // Every trace of calls answers as the specification says.
    method Replay(trace: seq<Event<Scope, Call>>) returns (answers: seq<Answer>)
      modifies this
      ensures answers == Answers(LAZY, old(data), trace)
    {
      hide LazyStep;
      answers := [];
      ghost var model := data;
      assert trace[0..] == trace;
      for i := 0 to |trace|
        invariant forall s :: At(data, s, map[]) == At(model, s, map[])
        invariant Answers(LAZY, old(data), trace) == answers + Answers(LAZY, model, trace[i..])
      {
        var e := trace[i];
        assert trace[i..][0] == e && trace[i..][1..] == trace[i + 1..];
        ghost var next := model[e.at := StepAt(model, e.at, e.op.now, e.op.op).bucket];
        var a := Perform(e);
        assert answers + ([a] + Answers(LAZY, next, trace[i + 1..]))
            == answers + [a] + Answers(LAZY, next, trace[i + 1..]);
        answers := answers + [a];
        model := next;
      }
      assert trace[|trace|..] == [];
    }
  }

  // ---------- one JSON file per scope ----------

  const JSON := ".json"

  class FilesystemJSONKeyValueStore {
    const root: Path
    var files: map<Path, Bucket>

    ghost predicate Valid()
      reads this
    {
      Tree(files)
    }

    constructor (root: string)
      ensures Valid() && this.root == Parsed(root) && files == map[]
    {
      this.root := Parsed(root);
      files := map[];
    }

    // What the specification says of a call, from these files on.
    ghost function Step(scope: Scope, now: real, op: Op): Outcome<Bucket, Answer>
      reads this
    {
      DiskStep(LAZY, files, PathFor(root, scope, JSON), Call(now, op))
    }

    method Load(scope: Scope) returns (data: Result<Bucket, DiskError>)
      ensures var path := PathFor(root, scope, JSON);
              data == if IsDirectory(files, path) then Err(Unreadable) else Ok(At(files, path, map[]))
    {
      hide PathFor;
      var path := PathFor(root, scope, JSON);
      var there := path in files || IsDirectory(files, path);
      if !there {
        return Ok(map[]);
      }
      if IsDirectory(files, path) {
        return Err(Unreadable);
      }
      data := Ok(files[path]);
    }

    // Makes the directory, then replaces the file; neither happens where the other stands.
    method Dump(scope: Scope, data: Bucket) returns (done: Result<(), DiskError>)
      requires Valid()
      modifies this
      ensures Valid()
      ensures var path := PathFor(root, scope, JSON);
              if Blocked(old(files), path) || IsDirectory(old(files), path)
              then done == Err(Unwritable) && files == old(files)
              else done == Ok(()) && files == old(files)[path := data]
    {
      hide PathFor;
      var path := PathFor(root, scope, JSON);
      if Blocked(files, path) || IsDirectory(files, path) {
        return Err(Unwritable);
      }
      files := files[path := data];
      done := Ok(());
    }

    method Get(scope: Scope, key: string, now: real) returns (value: Result<Value, DiskError>)
      requires Valid()
      modifies this
      ensures Valid() && old(Step(scope, now, KeyValue.Get(key)))
                         == Outcome(files, if value.Ok? then Ok(Found(value.value)) else Err(value.error))
    {
      hide PathFor, IsDirectory, Blocked;
      var data :- Load(scope);
      if key !in data {
        return Ok(Null);
      }
      var entry := data[key];
      if !Alive(entry, now) {
        data := data - {key};
        var _ :- Dump(scope, data);
        return Ok(Null);
      }
      value := Ok(entry.value);
    }

    method Set(scope: Scope, key: string, value: Value, ttl: Option<real>, now: real)
      returns (done: Result<(), DiskError>)
      requires Valid()
      modifies this
      ensures Valid() && old(Step(scope, now, KeyValue.Set(key, value, ttl)))
                         == Outcome(files, if done.Ok? then Ok(Done) else Err(done.error))
    {
      hide PathFor, IsDirectory, Blocked;
      var expiresAt := if ttl.Some? then Some(now + ttl.value) else None;
      var data :- Load(scope);
      data := data[key := Entry(value, expiresAt)];
      done := Dump(scope, data);
    }

    method Delete(scope: Scope, key: string, now: real) returns (existed: Result<bool, DiskError>)
      requires Valid()
      modifies this
      ensures Valid() && old(Step(scope, now, KeyValue.Delete(key)))
                         == Outcome(files, if existed.Ok? then Ok(Existed(existed.value)) else Err(existed.error))
    {
      hide PathFor, IsDirectory, Blocked;
      var data :- Load(scope);
      if key !in data {
        return Ok(false);
      }
      data := data - {key};
      var _ :- Dump(scope, data);
      existed := Ok(true);
    }

    method ListKeys(scope: Scope, prefix: string, now: real) returns (keys: Result<seq<string>, DiskError>)
      requires Valid()
      modifies this
      ensures Valid() && old(Step(scope, now, KeyValue.ListKeys(prefix)))
                         == Outcome(files, if keys.Ok? then Ok(Keys(keys.value)) else Err(keys.error))
    {
      hide PathFor, IsDirectory, Blocked;
      var data :- Load(scope);
      var survived, alive := Survivors(data, prefix, now);
      if |survived| != |data| {
        var _ :- Dump(scope, survived);
      } else {
        SameSizeSweep(data, now);
      }
      keys := Ok(InOrder(alive));
    }

    method CompareAndSwap(scope: Scope, key: string, expected: Value, replacement: Value, now: real)
      returns (swapped: Result<bool, DiskError>)
      requires Valid()
      modifies this
      ensures Valid() && old(Step(scope, now, KeyValue.CompareAndSwap(key, expected, replacement)))
                         == Outcome(files, if swapped.Ok? then Ok(Swapped(swapped.value)) else Err(swapped.error))
    {
      hide PathFor, IsDirectory, Blocked;
      var data :- Load(scope);
      var current := if key in data && Alive(data[key], now) then data[key].value else Null;
      if !PyEq(current, expected) {
        return Ok(false);
      }
      data := data[key := Entry(replacement, None)];
      var _ :- Dump(scope, data);
      swapped := Ok(true);
    }

    // False is the TypeError.
    method Append(scope: Scope, key: string, value: Value, now: real) returns (ok: Result<bool, DiskError>)
      requires Valid()
      modifies this
      ensures Valid() && old(Step(scope, now, KeyValue.Append(key, value)))
                         == Outcome(files, if ok.Ok? then Ok(if ok.value then Done else WrongType) else Err(ok.error))
    {
      hide PathFor, IsDirectory, Blocked;
      var data :- Load(scope);
      if key !in data || !Alive(data[key], now) {
        data := data[key := Entry(List([value]), None)];
        var _ :- Dump(scope, data);
        return Ok(true);
      }
      var entry := data[key];
      if !entry.value.List? {
        return Ok(false);
      }
      data := data[key := entry.(value := List(entry.value.items + [value]))];
      var _ :- Dump(scope, data);
      ok := Ok(true);
    }

    // None is the TypeError.
    method Increment(scope: Scope, key: string, delta: int, now: real)
      returns (total: Result<Option<int>, DiskError>)
      requires Valid()
      modifies this
      ensures Valid() && old(Step(scope, now, KeyValue.Increment(key, delta)))
                         == Outcome(files, if total.Err? then Err(total.error)
                                           else Ok(if total.value.Some? then Total(total.value.value) else WrongType))
    {
      hide PathFor, IsDirectory, Blocked;
      var data :- Load(scope);
      var current := if key in data && Alive(data[key], now) then data[key].value else Int(0);
      if IntOf(current).None? {
        return Ok(None);
      }
      var newValue := IntOf(current).value + delta;
      data := data[key := Entry(Int(newValue), None)];
      var _ :- Dump(scope, data);
      total := Ok(Some(newValue));
    }

    method Perform(e: Event<Scope, Call>) returns (a: Result<Answer, DiskError>)
      requires Valid()
      modifies this
      ensures Valid() && old(Step(e.at, e.op.now, e.op.op)) == Outcome(files, a)
    {
      hide Step, Valid;
      var now := e.op.now;
      match e.op.op
      case Get(key) =>
        var value :- Get(e.at, key, now);
        a := Ok(Found(value));
      case Set(key, value, ttl) =>
        var _ :- Set(e.at, key, value, ttl, now);
        a := Ok(Done);
      case Delete(key) =>
        var existed :- Delete(e.at, key, now);
        a := Ok(Existed(existed));
      case ListKeys(prefix) =>
        var keys :- ListKeys(e.at, prefix, now);
        a := Ok(Keys(keys));
      case CompareAndSwap(key, expected, replacement) =>
        var swapped :- CompareAndSwap(e.at, key, expected, replacement, now);
        a := Ok(Swapped(swapped));
      case Append(key, value) =>
        var ok :- Append(e.at, key, value, now);
        a := Ok(if ok then Done else WrongType);
      case Increment(key, delta) =>
        var total :- Increment(e.at, key, delta, now);
        a := Ok(if total.Some? then Total(total.value) else WrongType);
    }

    // Every trace of calls answers as the specification says.
    method Replay(trace: seq<Event<Scope, Call>>) returns (answers: seq<Result<Answer, DiskError>>)
      requires Valid()
      modifies this
      ensures Valid() && answers == DiskAnswers(LAZY, root, JSON, old(files), trace)
    {
      hide DiskStep, PathFor, Valid;
      answers := [];
      assert trace[0..] == trace;
      for i := 0 to |trace|
        invariant Valid()
        invariant DiskAnswers(LAZY, root, JSON, old(files), trace)
               == answers + DiskAnswers(LAZY, root, JSON, files, trace[i..])
      {
        var e := trace[i];
        assert trace[i..][0] == e && trace[i..][1..] == trace[i + 1..];
        var a := Perform(e);
        assert answers + ([a] + DiskAnswers(LAZY, root, JSON, files, trace[i + 1..]))
            == answers + [a] + DiskAnswers(LAZY, root, JSON, files, trace[i + 1..]);
        answers := answers + [a];
      }
      assert trace[|trace|..] == [];
    }
  }

  // The loop of `list_keys` over the loaded entries.
  method Survivors(data: Bucket, prefix: string, now: real) returns (survived: Bucket, alive: set<string>)
    ensures survived == Sweep(data, now)
    ensures alive == set k | k in survived && prefix <= k
  {
    survived, alive := map[], {};
    var pending := data.Keys;
    while pending != {}
      invariant pending <= data.Keys
      invariant survived == map k | k in data && k !in pending && Alive(data[k], now) :: data[k]
      invariant alive == set k | k in data && k !in pending && Alive(data[k], now) && prefix <= k
      decreases |pending|
    {
      var k :| k in pending;
      pending := pending - {k};
      if Alive(data[k], now) {
        survived := survived[k := data[k]];
        if prefix <= k {
          alive := alive + {k};
        }
      }
    }
  }

  lemma SameSizeSweep(data: Bucket, now: real)
    requires |Sweep(data, now)| == |data|
    ensures Sweep(data, now) == data
  {
    var swept := Sweep(data, now);
    assert swept.Keys <= data.Keys;
    if exists k :: k in data && k !in swept {
      var k :| k in data && k !in swept;
      SmallerKeys(swept.Keys, data.Keys, k);
    }
  }

  lemma SmallerKeys(a: set<string>, b: set<string>, k: string)
    requires a <= b && k in b && k !in a
    ensures |a| < |b|
  {
    assert a <= b - {k};
    SubsetSize(a, b - {k});
  }

  lemma {:induction false} SubsetSize(a: set<string>, b: set<string>)
    requires a <= b
    ensures |a| <= |b|
  {
    if a != {} {
      var k :| k in a;
      SubsetSize(a - {k}, b - {k});
    }
  }

  // ---------- both backends ----------

  const WRITE := Call(0.0, Set("k", Int(1), None))
  const LOOK := Call(0.0, Get("k"))

  lemma TellingCalls()
    ensures Telling(LAZY, WRITE, LOOK)
  {
    assert LAZY.after(map[], WRITE) == map["k" := Entry(Int(1), None)];
    assert LAZY.answer(LAZY.after(map[], WRITE), LOOK) == Found(Int(1)) != Found(Null) == LAZY.answer(map[], LOOK);
  }

  // The backends agree exactly when no two of the scopes are stored in one file and no
  // file is in another's way.
  lemma BackendsAgreeExactly(root: Path, scopes: set<Scope>)
    ensures DiskIsLikeMemory(LAZY, root, JSON, scopes) <==> Separate(root, scopes, JSON)
  {
    hide Separate, DiskIsLikeMemory;
    TellingCalls();
    AgreeExactly(LAZY, root, JSON, scopes, WRITE, LOOK);
  }

  lemma {:induction false} AdmittedClock(
      root: Path, files: map<Path, Bucket>, trace: seq<Event<Scope, Call>>, since: real)
    requires Clocked(trace, since)
    ensures Clocked(Admitted(LAZY, root, JSON, files, trace), since)
    decreases |trace|
  {
    hide PathFor, DiskStep;
    if trace != [] {
      var now := trace[0].op.now;
      var s := DiskStep(LAZY, files, PathFor(root, trace[0].at, JSON), trace[0].op);
      var rest := Admitted(LAZY, root, JSON, s.files, trace[1..]);
      AdmittedClock(root, s.files, trace[1..], now);
      var admitted := Admitted(LAZY, root, JSON, files, trace);
      if s.answer.Ok? {
        assert admitted[1..] == rest;
      } else {
        assert admitted == rest;
      }
    }
  }

  // Started empty, the in-memory backend answers as the eager maps do, up to delete's
  // leftovers; so does the filesystem one on the calls the disk does not refuse, each
  // scope in the place of its file; and both give the same answers when no two scopes
  // share a file and no file is in another's way, which ids without slashes ensure.
  method ReplayBoth(root: string, trace: seq<Event<Scope, Call>>, since: real)
    returns (memory: seq<Answer>, disk: seq<Result<Answer, DiskError>>)
    requires Clocked(trace, since)
    ensures |memory| == |disk| == |trace|
    ensures Separate(Parsed(root), ScopesOf(trace), JSON) ==> disk == AllGiven(memory)
    ensures (forall e :: e in trace ==> SlashFree(e.at)) ==> disk == AllGiven(memory)
    ensures SameAnswers(trace, memory, Answers(EAGER, map[], trace))
    ensures var admitted := Admitted(LAZY, Parsed(root), JSON, map[], trace);
            SameAnswers(admitted, NotRefused(disk), Answers(EAGER, map[], admitted))
  {
    hide LazyStep, EagerStep, PathFor, Parsed, SlashFree, Answers, DiskAnswers, Admitted, NotRefused;
    var inMemory := new InMemoryKeyValueStore();
    memory := inMemory.Replay(trace);
    var filesystem := new FilesystemJSONKeyValueStore(root);
    disk := filesystem.Replay(trace);
    ghost var path := Parsed(root);
    if forall e :: e in trace ==> SlashFree(e.at) {
      SlashFreeSeparate(path, ScopesOf(trace), JSON);
    }
    if Separate(path, ScopesOf(trace), JSON) {
      DiskIsInvisible(LAZY, path, JSON, ScopesOf(trace), map[], map[], trace);
    }
    LazyExpiryIsEager(trace, since);
    AdmittedClock(path, map[], trace, since);
    RefusedCallsChangeNothing(LAZY, path, JSON, map[], trace);
    LazyExpiryIsEager(Admitted(LAZY, path, JSON, map[], trace), since);
  }
}
