/** The key-value contract of the memory layer (`memory/kv`): what one operation of a
    store with lazy expiry does, the map it stands for, in which entries vanish at
    their expiry instant, and the proof that no caller can tell them apart, except
    through the boolean of `delete`. */
module KeyValue {
  import opened ScopedStores
  import opened StringOrder
  import opened Wrappers

  datatype Value =
    | Null
    | Bool(flag: bool)
    | Int(number: int)
    | Float(amount: real)
    | Text(text: string)
    | List(items: seq<Value>)
    | Dict(fields: map<string, Value>)

  // Python's `==`: numbers compare by value across bool, int and float.
  function Numeric(v: Value): Option<real> {
    match v
    case Bool(flag) => Some(if flag then 1.0 else 0.0)
    case Int(number) => Some(number as real)
    case Float(amount) => Some(amount)
    case _ => None
  }

  predicate PyEq(a: Value, b: Value)
    decreases a
  {
    match a
    case List(items) =>
      b.List? && |items| == |b.items| && forall i :: 0 <= i < |items| ==> PyEq(items[i], b.items[i])
    case Dict(fields) =>
      b.Dict? && fields.Keys == b.fields.Keys && forall k :: k in fields ==> PyEq(fields[k], b.fields[k])
    case _ => if Numeric(a).Some? then Numeric(a) == Numeric(b) else a == b
  }

  // `isinstance(v, int)`, which a bool also is.
  function IntOf(v: Value): Option<int> {
    match v
    case Bool(flag) => Some(if flag then 1 else 0)
    case Int(number) => Some(number)
    case _ => None
  }

  datatype Entry = Entry(value: Value, expiresAt: Option<real>)

  type Bucket = map<string, Entry>

  predicate Alive(e: Entry, now: real) {
    e.expiresAt.None? || e.expiresAt.value > now
  }

  // Each operation reads the clock once, at `now`.
  datatype Op =
    | Get(key: string)
    | Set(key: string, value: Value, ttl: Option<real>)
    | Delete(key: string)
    | ListKeys(prefix: string)
    | CompareAndSwap(key: string, expected: Value, replacement: Value)
    | Append(key: string, value: Value)
    | Increment(key: string, delta: int)

  datatype Answer =
    | Found(value: Value)
    | Done
    | Existed(existed: bool)
    | Keys(keys: seq<string>)
    | Swapped(swapped: bool)
    | Total(total: int)
    | WrongType

  datatype Stepped = Stepped(bucket: Bucket, answer: Answer)

  function Expiry(now: real, ttl: Option<real>): Option<real> {
    if ttl.Some? then Some(now + ttl.value) else None
  }

  // ---------- lazy expiry: what the backends do ----------

  function Current(b: Bucket, key: string, now: real): Option<Entry> {
    if key in b && Alive(b[key], now) then Some(b[key]) else None
  }

  function Sweep(b: Bucket, now: real): Bucket {
    map k | k in b && Alive(b[k], now) :: b[k]
  }

  // The sorted tuple of the keys that start with `prefix`.
  function Listed(b: Bucket, prefix: string): seq<string> {
    InOrder(set k | k in b && prefix <= k)
  }

  function LazyStep(b: Bucket, now: real, op: Op): Stepped {
    match op
    case Get(key) =>
      if key !in b then Stepped(b, Found(Null))
      else if !Alive(b[key], now) then Stepped(b - {key}, Found(Null))
      else Stepped(b, Found(b[key].value))
    case Set(key, value, ttl) => Stepped(b[key := Entry(value, Expiry(now, ttl))], Done)
    case Delete(key) => if key in b then Stepped(b - {key}, Existed(true)) else Stepped(b, Existed(false))
    case ListKeys(prefix) => Stepped(Sweep(b, now), Keys(Listed(Sweep(b, now), prefix)))
    case CompareAndSwap(key, expected, replacement) =>
      var live := Current(b, key, now);
      var current := if live.Some? then live.value.value else Null;
      if PyEq(current, expected) then Stepped(b[key := Entry(replacement, None)], Swapped(true))
      else Stepped(b, Swapped(false))
    case Append(key, value) =>
      var live := Current(b, key, now);
      if live.None? then Stepped(b[key := Entry(List([value]), None)], Done)
      else if !live.value.value.List? then Stepped(b, WrongType)
      else Stepped(b[key := Entry(List(live.value.value.items + [value]), live.value.expiresAt)], Done)
    case Increment(key, delta) =>
      var live := Current(b, key, now);
      var current := if live.Some? then IntOf(live.value.value) else Some(0);
      if current.None? then Stepped(b, WrongType)
      else Stepped(b[key := Entry(Int(current.value + delta), None)], Total(current.value + delta))
  }

  // ---------- eager expiry: the map the store stands for ----------

  // A plain map operation on a map that holds no expired entry: it never looks at an
  // expiry time except to carry it along.
  function PlainStep(m: Bucket, now: real, op: Op): Stepped {
    match op
    case Get(key) => Stepped(m, Found(if key in m then m[key].value else Null))
    case Set(key, value, ttl) => Stepped(m[key := Entry(value, Expiry(now, ttl))], Done)
    case Delete(key) => Stepped(m - {key}, Existed(key in m))
    case ListKeys(prefix) => Stepped(m, Keys(Listed(m, prefix)))
    case CompareAndSwap(key, expected, replacement) =>
      if PyEq(if key in m then m[key].value else Null, expected)
      then Stepped(m[key := Entry(replacement, None)], Swapped(true))
      else Stepped(m, Swapped(false))
    case Append(key, value) =>
      if key !in m then Stepped(m[key := Entry(List([value]), None)], Done)
      else if m[key].value.List?
      then Stepped(m[key := m[key].(value := List(m[key].value.items + [value]))], Done)
      else Stepped(m, WrongType)
    case Increment(key, delta) =>
      var current := if key in m then IntOf(m[key].value) else Some(0);
      if current.None? then Stepped(m, WrongType)
      else Stepped(m[key := Entry(Int(current.value + delta), None)], Total(current.value + delta))
  }

  function EagerStep(m: Bucket, now: real, op: Op): Stepped {
    PlainStep(Sweep(m, now), now, op)
  }

  // ---------- one step ----------

  // What is alive later is determined by what is alive now.
  lemma SweepLater(a: Bucket, b: Bucket, now: real, later: real)
    requires Sweep(a, now) == Sweep(b, now) && now <= later
    ensures Sweep(a, later) == Sweep(b, later)
  {
    assert Sweep(Sweep(a, now), later) == Sweep(a, later);
    assert Sweep(Sweep(b, now), later) == Sweep(b, later);
  }

  // Sweeping before an operation cannot be observed after it.
  lemma StepSimulates(b: Bucket, m: Bucket, now: real, op: Op)
    requires Sweep(b, now) == Sweep(m, now)
    ensures !op.Delete? ==> LazyStep(b, now, op).answer == EagerStep(m, now, op).answer
    ensures Sweep(LazyStep(b, now, op).bucket, now) == Sweep(EagerStep(m, now, op).bucket, now)
  {
    hide PyEq;
    var live := Sweep(m, now);
    assert forall k :: k in live <==> k in b && Alive(b[k], now);
    match op
    case ListKeys(prefix) => assert Sweep(live, now) == live;
    case Get(key) => assert Current(b, key, now).Some? <==> key in live;
    case Set(_, _, _) =>
    case Delete(key) =>
    case CompareAndSwap(key, expected, replacement) => assert Current(b, key, now).Some? <==> key in live;
    case Append(key, value) => assert Current(b, key, now).Some? <==> key in live;
    case Increment(key, delta) => assert Current(b, key, now).Some? <==> key in live;
  }

  // `delete` agrees with the eager map exactly when the key is not a dead leftover.
  lemma DeleteReportsLeftovers(b: Bucket, m: Bucket, now: real, key: string)
    requires Sweep(b, now) == Sweep(m, now)
    ensures LazyStep(b, now, Delete(key)).answer == EagerStep(m, now, Delete(key)).answer
            <==> !(key in b && !Alive(b[key], now))
    ensures EagerStep(m, now, Delete(key)).answer == Existed(true) ==>
              LazyStep(b, now, Delete(key)).answer == Existed(true)
  {
    assert key in Sweep(m, now) <==> key in Sweep(b, now);
  }

  // ---------- whole traces ----------

  datatype Call = Call(now: real, op: Op)

  // A set, a swap and an increment save what they leave even when it is what was there.
  predicate Saves(answer: Answer, op: Op) {
    op.Set? || answer == Swapped(true) || answer.Total?
  }

  const LAZY: Protocol<Bucket, Call, Answer> := Protocol(
    map[],
    (b: Bucket, c: Call) => LazyStep(b, c.now, c.op).bucket,
    (b: Bucket, c: Call) => LazyStep(b, c.now, c.op).answer,
    (c: Call) => true,
    (b: Bucket, c: Call) => Saves(LazyStep(b, c.now, c.op).answer, c.op)
  )

  const EAGER: Protocol<Bucket, Call, Answer> := Protocol(
    map[],
    (b: Bucket, c: Call) => EagerStep(b, c.now, c.op).bucket,
    (b: Bucket, c: Call) => EagerStep(b, c.now, c.op).answer,
    (c: Call) => true,
    (b: Bucket, c: Call) => Saves(EagerStep(b, c.now, c.op).answer, c.op)
  )

  // The clock never goes back.
  ghost predicate Clocked<K>(trace: seq<Event<K, Call>>, since: real) {
    trace == [] || (since <= trace[0].op.now && Clocked(trace[1..], trace[0].op.now))
  }

  ghost predicate SameLive<K(!new)>(a: map<K, Bucket>, b: map<K, Bucket>, now: real) {
    forall at :: Sweep(At(a, at, map[]), now) == Sweep(At(b, at, map[]), now)
  }

  // Equal answers, except that a lazy delete may say yes where the eager one says no.
  predicate SameAnswer(op: Op, lazyAnswer: Answer, eagerAnswer: Answer) {
    lazyAnswer == eagerAnswer || (op.Delete? && lazyAnswer == Existed(true) && eagerAnswer == Existed(false))
  }

  // Answer by answer.
  ghost predicate SameAnswers<K>(trace: seq<Event<K, Call>>, lazyAnswers: seq<Answer>, eagerAnswers: seq<Answer>) {
    && |lazyAnswers| == |eagerAnswers| == |trace|
    && forall i :: 0 <= i < |trace| ==> SameAnswer(trace[i].op.op, lazyAnswers[i], eagerAnswers[i])
  }

  lemma {:induction false} RunsAgree<K(!new)>(
      x: map<K, Bucket>, y: map<K, Bucket>, trace: seq<Event<K, Call>>, since: real)
    requires Clocked(trace, since) && SameLive(x, y, since)
    ensures SameAnswers(trace, Answers(LAZY, x, trace), Answers(EAGER, y, trace))
    decreases |trace|
  {
    hide LazyStep, EagerStep, Sweep, SameAnswer;
    if trace != [] {
      var at, now, op := trace[0].at, trace[0].op.now, trace[0].op.op;
      var b, m := At(x, at, map[]), At(y, at, map[]);
      forall k ensures Sweep(At(x, k, map[]), now) == Sweep(At(y, k, map[]), now) {
        SweepLater(At(x, k, map[]), At(y, k, map[]), since, now);
      }
      StepSimulates(b, m, now, op);
      StepAnswers(b, m, now, op);
      var x', y' := x[at := LazyStep(b, now, op).bucket], y[at := EagerStep(m, now, op).bucket];
      forall k ensures Sweep(At(x', k, map[]), now) == Sweep(At(y', k, map[]), now) {
        assert k != at ==> At(x', k, map[]) == At(x, k, map[]) && At(y', k, map[]) == At(y, k, map[]);
      }
      RunsAgree(x', y', trace[1..], now);
    }
  }

  lemma StepAnswers(b: Bucket, m: Bucket, now: real, op: Op)
    requires Sweep(b, now) == Sweep(m, now)
    ensures SameAnswer(op, LazyStep(b, now, op).answer, EagerStep(m, now, op).answer)
  {
    hide Sweep, PyEq;
    StepSimulates(b, m, now, op);
    if op.Delete? {
      DeleteReportsLeftovers(b, m, now, op.key);
    }
  }

  // Lazy expiry is eager expiry: from the empty store, over any trace whose clock
  // does not go back.
  lemma LazyExpiryIsEager<K(!new)>(trace: seq<Event<K, Call>>, since: real)
    requires Clocked(trace, since)
    ensures SameAnswers(trace, Answers(LAZY, map[], trace), Answers(EAGER, map[], trace))
  {
    RunsAgree(map[], map[], trace, since);
  }
}
