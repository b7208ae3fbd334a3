/** What a caller of a key-value store sees (`memory/kv`): which values count as equal,
    what a key holds and until when, when a swap happens, and who wins a race for one. */
module KeyValueLaws {
  import opened KeyValue
  import opened StringOrder
  import opened Wrappers

  // ---------- equality ----------

  // The number a value stands for: True and 1 and 1.0 stand for the same one.
  predicate Denotes(v: Value, x: real) {
    || (v == Bool(true) && x == 1.0)
    || (v == Bool(false) && x == 0.0)
    || (v.Int? && x == v.number as real)
    || (v.Float? && x == v.amount)
  }

  ghost predicate NumberFree(v: Value) {
    match v
    case List(items) => forall i :: 0 <= i < |items| ==> NumberFree(items[i])
    case Dict(fields) => forall k :: k in fields ==> NumberFree(fields[k])
    case _ => forall x :: !Denotes(v, x)
  }

  // A number equals exactly the values that stand for it, a list and a dictionary what
  // has equal elements in the same places, and anything else only itself.
  lemma EqualityByKind(a: Value, b: Value)
    ensures forall x :: Denotes(a, x) ==> (PyEq(a, b) <==> Denotes(b, x))
    ensures a.List? ==>
              (PyEq(a, b) <==> b.List? && |a.items| == |b.items|
                               && forall i :: 0 <= i < |a.items| ==> PyEq(a.items[i], b.items[i]))
    ensures a.Dict? ==>
              (PyEq(a, b) <==> b.Dict? && a.fields.Keys == b.fields.Keys
                               && forall k :: k in a.fields ==> PyEq(a.fields[k], b.fields[k]))
    ensures a.Null? || a.Text? ==> (PyEq(a, b) <==> a == b)
  {
  }

  lemma {:induction false} EqualityIsReflexive(a: Value)
    ensures PyEq(a, a)
  {
    match a {
      case List(items) =>
        forall i | 0 <= i < |items| ensures PyEq(items[i], items[i]) {
          EqualityIsReflexive(items[i]);
        }
      case Dict(fields) =>
        forall k | k in fields ensures PyEq(fields[k], fields[k]) {
          EqualityIsReflexive(fields[k]);
        }
      case _ =>
    }
  }

  lemma {:induction false} EqualityIsSymmetric(a: Value, b: Value)
    requires PyEq(a, b)
    ensures PyEq(b, a)
    decreases a
  {
    match a {
      case List(items) =>
        forall i | 0 <= i < |items| ensures PyEq(b.items[i], items[i]) {
          EqualityIsSymmetric(items[i], b.items[i]);
        }
      case Dict(fields) =>
        forall k | k in fields ensures PyEq(b.fields[k], fields[k]) {
          EqualityIsSymmetric(fields[k], b.fields[k]);
        }
      case _ =>
    }
  }

  lemma {:induction false} EqualityIsTransitive(a: Value, b: Value, c: Value)
    requires PyEq(a, b) && PyEq(b, c)
    ensures PyEq(a, c)
    decreases a
  {
    match a {
      case List(items) =>
        forall i | 0 <= i < |items| ensures PyEq(items[i], c.items[i]) {
          EqualityIsTransitive(items[i], b.items[i], c.items[i]);
        }
      case Dict(fields) =>
        forall k | k in fields ensures PyEq(fields[k], c.fields[k]) {
          EqualityIsTransitive(fields[k], b.fields[k], c.fields[k]);
        }
      case _ =>
    }
  }

  // Only numbers make equal what is not the same.
  lemma {:induction false} NumberFreeEquality(a: Value, b: Value)
    requires NumberFree(a) && NumberFree(b)
    ensures PyEq(a, b) <==> a == b
    decreases a
  {
    match a {
      case List(items) =>
        if PyEq(a, b) {
          forall i | 0 <= i < |items| ensures items[i] == b.items[i] {
            NumberFreeEquality(items[i], b.items[i]);
          }
          assert items == b.items;
        } else if a == b {
          EqualityIsReflexive(a);
        }
      case Dict(fields) =>
        if PyEq(a, b) {
          forall k | k in fields ensures fields[k] == b.fields[k] {
            NumberFreeEquality(fields[k], b.fields[k]);
          }
          assert fields == b.fields;
        } else if a == b {
          EqualityIsReflexive(a);
        }
      case _ =>
        NumbersDenote(a);
    }
  }

  lemma NumbersDenote(a: Value)
    ensures (exists x :: Denotes(a, x)) <==> a.Bool? || a.Int? || a.Float?
  {
    match a {
      case Bool(flag) => assert Denotes(a, if flag then 1.0 else 0.0);
      case Int(number) => assert Denotes(a, number as real);
      case Float(amount) => assert Denotes(a, amount);
      case _ =>
    }
  }

  // ---------- what a key holds ----------

  // What a caller finds under a key at a moment: an entry is there up to, and not at,
  // its instant.
  function Holds(b: Bucket, at: real, key: string): Option<Value> {
    if key !in b then None
    else
      match b[key].expiresAt
      case None => Some(b[key].value)
      case Some(instant) => if at < instant then Some(b[key].value) else None
  }

  function OrNull(held: Option<Value>): Value {
    match held
    case None => Null
    case Some(value) => value
  }

  // What an increment starts from: nothing counts as zero, a bool as zero or one.
  function CountFrom(held: Option<Value>): Option<int> {
    match held
    case None => Some(0)
    case Some(Int(number)) => Some(number)
    case Some(Bool(flag)) => if flag then Some(1) else Some(0)
    case Some(_) => None
  }

  // Dictionary order: a proper prefix first, else by the first character that differs.
  ghost predicate Before(a: string, b: string) {
    exists n :: PartsAt(a, b, n)
  }

  ghost predicate PartsAt(a: string, b: string, n: int) {
    0 <= n <= |a| && n < |b| && a[..n] == b[..n] && (n == |a| || a[n] < b[n])
  }

  lemma {:induction false} AtMostIsBefore(a: string, b: string)
    requires AtMost(a, b) && a != b
    ensures Before(a, b)
  {
    if a == "" || a[0] < b[0] {
      assert PartsAt(a, b, 0);
    } else {
      assert a == [a[0]] + a[1..] && b == [b[0]] + b[1..];
      AtMostIsBefore(a[1..], b[1..]);
      var n :| PartsAt(a[1..], b[1..], n);
      assert a[..n + 1] == [a[0]] + a[1..][..n] && b[..n + 1] == [b[0]] + b[1..][..n];
      assert PartsAt(a, b, n + 1);
    }
  }

  // What an operation made at `now` leaves under a key at any later moment.
  function Leaves(b: Bucket, now: real, op: Op, later: real, key: string): Option<Value> {
    var untouched := Holds(b, later, key);
    match op
    case Set(k, value, ttl) =>
      if k != key then untouched
      else if ttl == None || later < now + ttl.value then Some(value) else None
    case Delete(k) => if k == key then None else untouched
    case CompareAndSwap(k, expected, replacement) =>
      if k == key && PyEq(OrNull(Holds(b, now, key)), expected) then Some(replacement) else untouched
    case Append(k, value) =>
      if k != key then untouched
      else
        (match Holds(b, now, key)
         case None => Some(List([value]))
         case Some(List(items)) => if untouched == None then None else Some(List(items + [value]))
         case Some(_) => untouched)
    case Increment(k, delta) =>
      if k == key && CountFrom(Holds(b, now, key)).Some?
      then Some(Int(CountFrom(Holds(b, now, key)).value + delta)) else untouched
    case _ => untouched
  }

  // The whole effect of one operation, on every key and at every later moment.
  lemma StepLeaves(b: Bucket, now: real, op: Op, later: real, key: string)
    requires now <= later
    ensures Holds(LazyStep(b, now, op).bucket, later, key) == Leaves(b, now, op, later, key)
  {
    hide PyEq, InOrder;
  }

  // And what it answers. A delete may also find an entry past its instant.
  lemma StepTells(b: Bucket, now: real, op: Op)
    ensures var answer := LazyStep(b, now, op).answer;
            match op
            case Get(key) => answer == Found(OrNull(Holds(b, now, key)))
            case Set(_, _, _) => answer == Done
            case Delete(key) => answer.Existed? && (Holds(b, now, key).Some? ==> answer.existed)
                                && (key !in b ==> !answer.existed)
            case ListKeys(prefix) =>
              answer.Keys?
              && (forall i, j :: 0 <= i < j < |answer.keys| ==> Before(answer.keys[i], answer.keys[j]))
              && forall k :: k in answer.keys <==> prefix <= k && Holds(b, now, k).Some?
            case CompareAndSwap(key, expected, _) => answer == Swapped(PyEq(OrNull(Holds(b, now, key)), expected))
            case Append(key, _) =>
              answer == if Holds(b, now, key).None? || Holds(b, now, key).value.List? then Done else WrongType
            case Increment(key, delta) =>
              answer == match CountFrom(Holds(b, now, key))
                        case None => WrongType
                        case Some(count) => Total(count + delta)
  {
    hide PyEq, AtMost, Before;
    if op.ListKeys? {
      var keys := LazyStep(b, now, op).answer.keys;
      forall i, j | 0 <= i < j < |keys| ensures Before(keys[i], keys[j]) {
        AtMostIsBefore(keys[i], keys[j]);
      }
    }
  }

  // ---------- over time ----------

  ghost function RunTo(b: Bucket, calls: seq<Call>): Bucket {
    if calls == [] then b
    else
      var before := RunTo(b, calls[..|calls| - 1]);
      LazyStep(before, calls[|calls| - 1].now, calls[|calls| - 1].op).bucket
  }

  // A call that does not write a key: another key's, one that only reads, or a swap that
  // did not happen.
  ghost predicate Spares(b: Bucket, call: Call, key: string) {
    match call.op
    case Get(_) => true
    case ListKeys(_) => true
    case Set(k, _, _) => k != key
    case Delete(k) => k != key
    case Append(k, _) => k != key
    case Increment(k, _) => k != key
    case CompareAndSwap(k, _, _) => k != key || LazyStep(b, call.now, call.op).answer == Swapped(false)
  }

  // Calls made between two moments, none of which writes a key.
  ghost predicate AllSpare(b: Bucket, calls: seq<Call>, from: real, to: real, key: string) {
    && (forall i :: 0 <= i < |calls| ==> from <= calls[i].now <= to)
    && (forall i :: 0 <= i < |calls| ==> Spares(RunTo(b, calls[..i]), calls[i], key))
  }

  lemma {:induction false} SparedIsKept(b: Bucket, calls: seq<Call>, from: real, to: real, key: string)
    requires from <= to && AllSpare(b, calls, from, to, key)
    ensures Holds(RunTo(b, calls), to, key) == Holds(b, to, key)
  {
    hide Holds, LazyStep, PyEq, Leaves, Spares;
    if calls != [] {
      var front, last := calls[..|calls| - 1], calls[|calls| - 1];
      forall i | 0 <= i < |front| ensures Spares(RunTo(b, front[..i]), front[i], key) {
        assert front[..i] == calls[..i];
      }
      SparedIsKept(b, front, from, to, key);
      StepLeaves(RunTo(b, front), last.now, last.op, to, key);
      SparesLeaves(RunTo(b, front), last, to, key);
    }
  }

  lemma SparesLeaves(b: Bucket, call: Call, later: real, key: string)
    requires Spares(b, call, key) && call.now <= later
    ensures Leaves(b, call.now, call.op, later, key) == Holds(b, later, key)
  {
    hide PyEq, Holds;
    StepTells(b, call.now, call.op);
  }

  // A value set is read back by every later get until, and only until, its lifetime is
  // over, as long as nothing writes its key.
  lemma SetIsReadUntilExpiry(
      b: Bucket, now: real, key: string, value: Value, ttl: Option<real>, calls: seq<Call>, later: real)
    requires now <= later
    requires AllSpare(LazyStep(b, now, Set(key, value, ttl)).bucket, calls, now, later, key)
    ensures var store := RunTo(LazyStep(b, now, Set(key, value, ttl)).bucket, calls);
            LazyStep(store, later, Get(key)).answer
            == Found(if ttl == None || later < now + ttl.value then value else Null)
  {
    hide PyEq, RunTo, AllSpare;
    var written := LazyStep(b, now, Set(key, value, ttl)).bucket;
    SparedIsKept(written, calls, now, later, key);
    StepTells(RunTo(written, calls), later, Get(key));
  }

  // Of two writers that expect the same, the second one loses when the first one's
  // replacement does not equal what they expect.
  lemma OneWriterWins(b: Bucket, now: real, key: string, expected: Value, first: Value, second: Value,
                      calls: seq<Call>, later: real)
    requires now <= later && !PyEq(first, expected)
    requires LazyStep(b, now, CompareAndSwap(key, expected, first)).answer == Swapped(true)
    requires AllSpare(LazyStep(b, now, CompareAndSwap(key, expected, first)).bucket, calls, now, later, key)
    ensures var store := RunTo(LazyStep(b, now, CompareAndSwap(key, expected, first)).bucket, calls);
            && LazyStep(store, later, CompareAndSwap(key, expected, second)).answer == Swapped(false)
            && LazyStep(store, later, Get(key)).answer == Found(first)
  {
    hide PyEq, RunTo, AllSpare, Holds, LazyStep;
    var swap := CompareAndSwap(key, expected, first);
    var swapped := LazyStep(b, now, swap).bucket;
    StepTells(b, now, swap);
    StepLeaves(b, now, swap, later, key);
    SparedIsKept(swapped, calls, now, later, key);
    StepTells(RunTo(swapped, calls), later, CompareAndSwap(key, expected, second));
    StepTells(RunTo(swapped, calls), later, Get(key));
  }
}
