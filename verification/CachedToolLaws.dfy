/** A tool behind its cache, over whole sequences of calls: when a clock that does not go
    back hides the cache, and what a larger cache saves. */
module CachedToolLaws {
  import opened Wrappers
  import opened ToolCache
  import opened CacheLaws
  import opened CachedTools

  // ---------- a monotonic clock ----------

  ghost predicate OnTime<A, C>(calls: seq<Call<A, C>>) {
    && (forall i :: 0 <= i < |calls| ==> calls[i].readAt <= calls[i].writtenAt)
    && (forall i, j :: 0 <= i < j < |calls| ==> calls[i].writtenAt <= calls[j].readAt)
  }

  // Every call returns what the function itself would, while the clock does not go back.
  ghost predicate TransparentOnTime<A(!new), C(!new), V(!new)>(
      fn: (A, C) -> Outcome<V>, keyOf: A -> string, p: CachePolicy)
  {
    forall calls: seq<Call<A, C>>, n: nat :: OnTime(calls) && n < |calls| ==>
      ResultAt(fn, keyOf, p, calls, n) == fn(calls[n].args, calls[n].context)
  }

  // Every entry is past its time at `now`.
  ghost predicate AllDead<V>(s: seq<Entry<V>>, now: real) {
    forall i :: 0 <= i < |s| ==> Expired(s[i], now)
  }

  lemma {:induction false} DeadWithout<V>(s: seq<Entry<V>>, key: string, now: real)
    requires AllDead(s, now)
    ensures AllDead(Without(s, key), now)
    ensures Lookup(s, key).Some? ==> Expired(Lookup(s, key).value, now)
  {
    if s != [] {
      DeadWithout(s[1..], key, now);
    }
  }

  lemma {:induction false} DeadOnArrival<A, C, V>(
      fn: (A, C) -> Outcome<V>, keyOf: A -> string, p: CachePolicy, calls: seq<Call<A, C>>, n: nat, now: real)
    requires p.ttl.Some? && p.ttl.value <= 0.0 && n <= |calls| && OnTime(calls)
    requires if n < |calls| then now == calls[n].readAt else n > 0 && now == calls[n - 1].writtenAt
    ensures AllDead(StoreAfterCalls(fn, keyOf, p, calls, n), now)
  {
    if n > 0 {
      var c := calls[n - 1];
      var s := StoreAfterCalls(fn, keyOf, p, calls, n - 1);
      DeadOnArrival(fn, keyOf, p, calls, n - 1, c.readAt);
      DeadWithout(s, keyOf(c.args), c.readAt);
      var seen := AfterGet(s, keyOf(c.args), c.readAt);
      DeadWithout(seen, keyOf(c.args), c.readAt);
      assert c.writtenAt <= now;
      assert forall e: Entry<V> :: Expired(e, c.readAt) ==> Expired(e, now);
    }
  }

  // With a clock that does not go back, an enabled cache is invisible exactly when calls
  // that share a key share a successful outcome, or nothing ever lives in it.
  lemma TransparentOnTimeExactly<A(!new), C(!new), V(!new)>(
      fn: (A, C) -> Outcome<V>, keyOf: A -> string, p: CachePolicy)
    requires p.Enabled()
    ensures TransparentOnTime(fn, keyOf, p) <==> KeysAgree(fn, keyOf) || (p.ttl.Some? && p.ttl.value <= 0.0)
  {
    if KeysAgree(fn, keyOf) {
      AgreeingKeysAreTransparent(fn, keyOf, p);
    } else if p.ttl.Some? && p.ttl.value <= 0.0 {
      forall calls: seq<Call<A, C>>, n: nat | OnTime(calls) && n < |calls|
        ensures ResultAt(fn, keyOf, p, calls, n) == fn(calls[n].args, calls[n].context)
      {
        DeadOnArrival(fn, keyOf, p, calls, n, calls[n].readAt);
        DeadWithout(StoreAfterCalls(fn, keyOf, p, calls, n), keyOf(calls[n].args), calls[n].readAt);
      }
    } else {
      var a: A, c: C, b: A, d: C :| keyOf(a) == keyOf(b) && fn(a, c).Success? && fn(b, d) != fn(a, c);
      var calls := TwoCalls(a, c, b, d, 0.0);
      SecondCallHits(fn, keyOf, p, a, c, b, d, 0.0);
      assert OnTime(calls) && calls[1] == Call(b, d, 0.0, 0.0);
    }
  }

  // ---------- what a larger cache saves ----------

  // A call runs the function unless it hits.
  predicate Hits<A, C, V>(
      fn: (A, C) -> Outcome<V>, keyOf: A -> string, p: CachePolicy, calls: seq<Call<A, C>>, n: nat)
    requires n < |calls|
  {
    HitOf(StoreAfterCalls(fn, keyOf, p, calls, n), keyOf(calls[n].args), calls[n].readAt).Some?
  }

  function Runs<A, C, V>(
      fn: (A, C) -> Outcome<V>, keyOf: A -> string, p: CachePolicy, calls: seq<Call<A, C>>, n: nat): nat
    requires n <= |calls|
  {
    if n == 0 then 0
    else Runs(fn, keyOf, p, calls, n - 1) + if Hits(fn, keyOf, p, calls, n - 1) then 0 else 1
  }

  // A store with its values left out: the two tools may have stored different values.
  function Bare<V>(s: seq<Entry<V>>): seq<Entry<()>> {
    if s == [] then [] else [BareEntry(s[0])] + Bare(s[1..])
  }

  function BareEntry<V>(e: Entry<V>): Entry<()> {
    Entry(e.key, (), e.expiresAt)
  }

  lemma {:induction false} BareConcat<V>(s: seq<Entry<V>>, t: seq<Entry<V>>)
    ensures Bare(s + t) == Bare(s) + Bare(t)
  {
    if s == [] {
      assert s + t == t;
    } else {
      assert (s + t)[1..] == s[1..] + t;
      BareConcat(s[1..], t);
      assert Bare(s + t) == [BareEntry(s[0])] + Bare(s[1..] + t);
    }
  }

  lemma {:induction false} BareParts<V>(s: seq<Entry<V>>, key: string)
    ensures |Bare(s)| == |s|
    ensures Without(Bare(s), key) == Bare(Without(s, key))
    ensures Lookup(s, key).Some? <==> Lookup(Bare(s), key).Some?
    ensures Lookup(s, key).Some? ==> Lookup(Bare(s), key).value == BareEntry(Lookup(s, key).value)
  {
    if s != [] {
      BareParts(s[1..], key);
      assert Bare(s)[0] == BareEntry(s[0]) && Bare(s)[1..] == Bare(s[1..]);
      assert s[0].key == key ==> Without(s, key) == Without(s[1..], key);
      assert s[0].key == key ==> Without(Bare(s), key) == Without(Bare(s[1..]), key);
      assert s[0].key != key ==> Without(s, key)[1..] == Without(s[1..], key);
    }
  }

  lemma BareGet<V>(s: seq<Entry<V>>, key: string, now: real)
    ensures AfterGet(Bare(s), key, now) == Bare(AfterGet(s, key, now))
    ensures HitOf(Bare(s), key, now).Some? <==> HitOf(s, key, now).Some?
  {
    BareParts(s, key);
    if Lookup(s, key).Some? {
      var e := Lookup(s, key).value;
      BareConcat(Without(s, key), [e]);
      assert Bare([e]) == [BareEntry(e)];
    }
  }

  lemma {:induction false} BareSuffix<V>(s: seq<Entry<V>>, n: nat)
    requires n <= |s|
    ensures |Bare(s)| == |s| && Bare(s)[n..] == Bare(s[n..])
  {
    BareParts(s, "");
    if n > 0 {
      BareSuffix(s[1..], n - 1);
      assert Bare(s)[n..] == Bare(s[1..])[n - 1..] && s[n..] == s[1..][n - 1..];
    }
  }

  lemma BareSet<V>(p: CachePolicy, s: seq<Entry<V>>, key: string, value: V, now: real)
    ensures AfterSet(p, Bare(s), key, (), now) == Bare(AfterSet(p, s, key, value, now))
  {
    if p.Enabled() {
      var e := Entry(key, value, if p.ttl.Some? then Some(now + p.ttl.value) else None);
      var grown := Without(s, key) + [e];
      BareParts(s, key);
      BareConcat(Without(s, key), [e]);
      assert Bare([e]) == [BareEntry(e)];
      BareParts(grown, key);
      if |grown| > p.maxSize {
        BareSuffix(grown, |grown| - p.maxSize);
      }
    }
  }

  // Without expiry, a hit does to a store what putting its key again would.
  lemma HitIsPut(p: CachePolicy, s: seq<Entry<()>>, key: string, now: real)
    requires p.Enabled() && p.ttl.None? && ValidStore(p, s) && NeverExpires(s) && HitOf(s, key, now).Some?
    ensures AfterGet(s, key, now) == AfterSet(p, s, key, (), now)
  {
    LookupFinds(s, key);
    NeverExpiresWithout(s, key);
    var e := Lookup(s, key).value;
    OneUnit(e.value);
    assert e == Entry(key, (), None);
    RefreshKeepsValid(s, e);
  }

  lemma OneUnit(u: ())
    ensures u == ()
  {
    match u
    case () =>
  }

  // A miss in a store without expired entries leaves it alone.
  lemma MissKeeps(s: seq<Entry<()>>, key: string, now: real)
    requires NeverExpires(s) && HitOf(s, key, now).None?
    ensures AfterGet(s, key, now) == s
  {
    NeverExpiresWithout(s, key);
  }

  ghost predicate Ahead(small: CachePolicy, large: CachePolicy, s: seq<Entry<()>>, l: seq<Entry<()>>) {
    Included(small, large, s, l) && NeverExpires(s) && NeverExpires(l)
  }

  // One call: the large store stays ahead, whatever the two tools stored before.
  lemma CallKeepsAhead(
      small: CachePolicy, large: CachePolicy, s: seq<Entry<()>>, l: seq<Entry<()>>, key: string, good: bool,
      readAt: real, writtenAt: real)
    requires Comparable(small, large) && small.ttl.None? && Ahead(small, large, s, l)
    ensures HitOf(s, key, readAt).Some? ==> HitOf(l, key, readAt).Some?
    ensures Ahead(small, large, BareStep(small, s, key, good, readAt, writtenAt),
                  BareStep(large, l, key, good, readAt, writtenAt))
  {
    hide Included, Sub, Without, Lookup;
    GetIncluded(small, large, s, l, key, readAt);
    StepNeverExpires(small, s, key, good, readAt, writtenAt);
    StepNeverExpires(large, l, key, good, readAt, writtenAt);
    var s', l' := AfterGet(s, key, readAt), AfterGet(l, key, readAt);
    if HitOf(s, key, readAt).None? && good {
      MissKeeps(s, key, readAt);
      SetIncluded(small, large, s, l, key, (), writtenAt);
      if HitOf(l, key, readAt).Some? {
        IncludedIsValid(small, large, s, l);
        EnabledByHit(large, l, key, readAt);
        HitIsPut(large, l, key, readAt);
        PutTimeIrrelevant(large, l, key, readAt, writtenAt);
      } else {
        MissKeeps(l, key, readAt);
      }
    }
  }

  // What one call does to a store: `good` when the function would return a value.
  function BareStep(p: CachePolicy, s: seq<Entry<()>>, key: string, good: bool, readAt: real, writtenAt: real)
    : seq<Entry<()>>
  {
    var seen := AfterGet(s, key, readAt);
    if HitOf(s, key, readAt).Some? || !good then seen else AfterSet(p, seen, key, (), writtenAt)
  }

  lemma StepNeverExpires(
      p: CachePolicy, s: seq<Entry<()>>, key: string, good: bool, readAt: real, writtenAt: real)
    requires p.ttl.None? && NeverExpires(s)
    ensures NeverExpires(BareStep(p, s, key, good, readAt, writtenAt))
  {
    NeverExpiresWithout(s, key);
    NeverExpiresWithout(AfterGet(s, key, readAt), key);
  }

  lemma IncludedIsValid(small: CachePolicy, large: CachePolicy, s: seq<Entry<()>>, l: seq<Entry<()>>)
    requires Included(small, large, s, l)
    ensures ValidStore(small, s) && ValidStore(large, l)
  {
  }

  lemma EnabledByHit(p: CachePolicy, s: seq<Entry<()>>, key: string, now: real)
    requires ValidStore(p, s) && HitOf(s, key, now).Some?
    ensures p.Enabled()
  {
  }

  lemma PutTimeIrrelevant(p: CachePolicy, s: seq<Entry<()>>, key: string, t: real, u: real)
    requires p.ttl.None?
    ensures AfterSet(p, s, key, (), t) == AfterSet(p, s, key, (), u)
  {
  }

  lemma StepIsBare<A, C, V>(
      fn: (A, C) -> Outcome<V>, keyOf: A -> string, p: CachePolicy, s: seq<Entry<V>>, c: Call<A, C>)
    ensures Bare(StoreOf(fn, keyOf, p, s, c))
         == BareStep(p, Bare(s), keyOf(c.args), fn(c.args, c.context).Success?, c.readAt, c.writtenAt)
  {
    hide Without, Lookup, Bare;
    var key, result := keyOf(c.args), fn(c.args, c.context);
    BareGet(s, key, c.readAt);
    if result.Success? {
      BareSet(p, AfterGet(s, key, c.readAt), key, result.value, c.writtenAt);
    }
  }

  lemma {:induction false} StaysAhead<A, C, V>(
      fn: (A, C) -> Outcome<V>, keyOf: A -> string, small: CachePolicy, large: CachePolicy,
      calls: seq<Call<A, C>>, n: nat)
    requires Comparable(small, large) && small.ttl.None? && n <= |calls|
    ensures Ahead(small, large, Bare(StoreAfterCalls(fn, keyOf, small, calls, n)),
                  Bare(StoreAfterCalls(fn, keyOf, large, calls, n)))
  {
    if n > 0 {
      hide Ahead, StoreOf, BareStep, Bare;
      StaysAhead(fn, keyOf, small, large, calls, n - 1);
      var c := calls[n - 1];
      var s, l := StoreAfterCalls(fn, keyOf, small, calls, n - 1), StoreAfterCalls(fn, keyOf, large, calls, n - 1);
      StepIsBare(fn, keyOf, small, s, c);
      StepIsBare(fn, keyOf, large, l, c);
      CallKeepsAhead(small, large, Bare(s), Bare(l), keyOf(c.args), fn(c.args, c.context).Success?,
        c.readAt, c.writtenAt);
    }
  }

  lemma HitsShared<A, C, V>(
      fn: (A, C) -> Outcome<V>, keyOf: A -> string, small: CachePolicy, large: CachePolicy,
      calls: seq<Call<A, C>>, n: nat)
    requires Comparable(small, large) && small.ttl.None? && n < |calls|
    ensures Hits(fn, keyOf, small, calls, n) ==> Hits(fn, keyOf, large, calls, n)
  {
    hide Ahead, Bare, StoreAfterCalls, HitOf, BareStep;
    StaysAhead(fn, keyOf, small, large, calls, n);
    var c := calls[n];
    var s, l := StoreAfterCalls(fn, keyOf, small, calls, n), StoreAfterCalls(fn, keyOf, large, calls, n);
    BareGet(s, keyOf(c.args), c.readAt);
    BareGet(l, keyOf(c.args), c.readAt);
    CallKeepsAhead(small, large, Bare(s), Bare(l), keyOf(c.args), true, c.readAt, c.writtenAt);
  }

  // Without a ttl, every call that hits behind the smaller cache hits behind the larger
  // one, whatever the function answers each time, so the larger one runs it no more often.
  lemma {:induction false} LargerCacheRunsLess<A, C, V>(
      fn: (A, C) -> Outcome<V>, keyOf: A -> string, small: CachePolicy, large: CachePolicy,
      calls: seq<Call<A, C>>, n: nat)
    requires Comparable(small, large) && small.ttl.None? && n <= |calls|
    ensures forall i :: 0 <= i < n && Hits(fn, keyOf, small, calls, i) ==> Hits(fn, keyOf, large, calls, i)
    ensures Runs(fn, keyOf, large, calls, n) <= Runs(fn, keyOf, small, calls, n)
  {
    hide Hits;
    if n > 0 {
      LargerCacheRunsLess(fn, keyOf, small, large, calls, n - 1);
      HitsShared(fn, keyOf, small, large, calls, n - 1);
    }
  }
}
