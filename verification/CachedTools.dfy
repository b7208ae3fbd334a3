/** A tool behind its result cache (`tools/tool.py`): when calling through the cache is
    the same as calling the function. */
module CachedTools {
  import opened Wrappers
  import opened ToolCache

  // A tool function returns a value or raises; only values are stored.
  datatype Outcome<V> = Success(value: V) | Failure(error: string)

  // One invocation: its validated arguments, its runtime context, and the clock when
  // the cache is read and when it is written.
  datatype Call<A, C> = Call(args: A, context: C, readAt: real, writtenAt: real)

  function ResultOf<A, C, V>(
      fn: (A, C) -> Outcome<V>, keyOf: A -> string, s: seq<Entry<V>>, c: Call<A, C>): Outcome<V>
  {
    var hit := HitOf(s, keyOf(c.args), c.readAt);
    if hit.Some? then Success(hit.value) else fn(c.args, c.context)
  }

  function StoreOf<A, C, V>(
      fn: (A, C) -> Outcome<V>, keyOf: A -> string, p: CachePolicy, s: seq<Entry<V>>, c: Call<A, C>): seq<Entry<V>>
  {
    var key := keyOf(c.args);
    var seen := AfterGet(s, key, c.readAt);
    var result := fn(c.args, c.context);
    if HitOf(s, key, c.readAt).Some? || result.Failure? then seen
    else AfterSet(p, seen, key, result.value, c.writtenAt)
  }

  class CachedTool<A, C, V(0)> {
    const fn: (A, C) -> Outcome<V>
    const keyOf: A -> string
    const policy: CachePolicy
    const cache: Cache?<V>

    ghost predicate Valid()
      reads this, cache
    {
      && (cache == null <==> !policy.Enabled())
      && (cache != null ==> cache.policy == policy && cache.Valid())
    }

    ghost function Store(): seq<Entry<V>>
      reads this, cache
    {
      if cache == null then [] else cache.store
    }

    // The cache exists only when the policy enables it.
    constructor (fn: (A, C) -> Outcome<V>, keyOf: A -> string, policy: CachePolicy)
      ensures Valid() && Store() == [] && this.fn == fn && this.keyOf == keyOf && this.policy == policy
      ensures cache != null ==> fresh(cache)
    {
      this.fn, this.keyOf, this.policy := fn, keyOf, policy;
      if policy.Enabled() {
        var c := new Cache<V>(policy);
        cache := c;
      } else {
        cache := null;
      }
    }

    // `Tool.invoke` on validated arguments; the sync and async paths are the same steps.
    method Invoke(c: Call<A, C>) returns (r: Outcome<V>)
      requires Valid()
      modifies cache
      ensures Valid()
      ensures r == ResultOf(fn, keyOf, old(Store()), c)
      ensures Store() == StoreOf(fn, keyOf, policy, old(Store()), c)
    {
      var key := keyOf(c.args);
      if cache != null {
        var hit := cache.Get(key, c.readAt);
        if hit.Some? {
          return Success(hit.value);
        }
      }
      r := fn(c.args, c.context);
      if r.Success? && cache != null {
        cache.Set(key, r.value, c.writtenAt);
      }
    }
  }

  // ---------- sequences of calls ----------

  function StoreAfterCalls<A, C, V>(
      fn: (A, C) -> Outcome<V>, keyOf: A -> string, p: CachePolicy, calls: seq<Call<A, C>>, n: nat): seq<Entry<V>>
    requires n <= |calls|
  {
    if n == 0 then [] else StoreOf(fn, keyOf, p, StoreAfterCalls(fn, keyOf, p, calls, n - 1), calls[n - 1])
  }

  function ResultAt<A, C, V>(
      fn: (A, C) -> Outcome<V>, keyOf: A -> string, p: CachePolicy, calls: seq<Call<A, C>>, n: nat): Outcome<V>
    requires n < |calls|
  {
    ResultOf(fn, keyOf, StoreAfterCalls(fn, keyOf, p, calls, n), calls[n])
  }

  // Every call through the cache returns what the function itself would.
  ghost predicate Transparent<A(!new), C(!new), V(!new)>(fn: (A, C) -> Outcome<V>, keyOf: A -> string, p: CachePolicy) {
    forall calls: seq<Call<A, C>>, n: nat :: n < |calls| ==>
      ResultAt(fn, keyOf, p, calls, n) == fn(calls[n].args, calls[n].context)
  }

  // Calls that share a key share a successful outcome.
  ghost predicate KeysAgree<A(!new), C(!new), V>(fn: (A, C) -> Outcome<V>, keyOf: A -> string) {
    forall a: A, c: C, b: A, d: C ::
      keyOf(a) == keyOf(b) && fn(a, c).Success? ==> fn(b, d) == fn(a, c)
  }

  ghost predicate Sound<A(!new), C(!new), V>(fn: (A, C) -> Outcome<V>, keyOf: A -> string, s: seq<Entry<V>>) {
    forall i, a: A, c: C :: 0 <= i < |s| && keyOf(a) == s[i].key ==> fn(a, c) == Success(s[i].value)
  }

  lemma {:induction false} SoundWithout<A(!new), C(!new), V>(
      fn: (A, C) -> Outcome<V>, keyOf: A -> string, s: seq<Entry<V>>, key: string)
    requires Sound(fn, keyOf, s)
    ensures Sound(fn, keyOf, Without(s, key))
    ensures Lookup(s, key).Some? ==> Sound(fn, keyOf, [Lookup(s, key).value])
  {
    if s != [] {
      assert forall i :: 0 <= i < |s[1..]| ==> s[1..][i] == s[i + 1];
      SoundWithout(fn, keyOf, s[1..], key);
      assert Sound(fn, keyOf, [s[0]]);
      SoundConcat(fn, keyOf, [s[0]], Without(s[1..], key));
      assert s[0].key == key ==> Without(s, key) == Without(s[1..], key);
    }
  }

  lemma SoundConcat<A(!new), C(!new), V>(
      fn: (A, C) -> Outcome<V>, keyOf: A -> string, s: seq<Entry<V>>, t: seq<Entry<V>>)
    requires Sound(fn, keyOf, s) && Sound(fn, keyOf, t)
    ensures Sound(fn, keyOf, s + t)
  {
  }

  lemma StoreStaysSound<A(!new), C(!new), V>(
      fn: (A, C) -> Outcome<V>, keyOf: A -> string, p: CachePolicy, s: seq<Entry<V>>, c: Call<A, C>)
    requires KeysAgree(fn, keyOf) && Sound(fn, keyOf, s)
    ensures Sound(fn, keyOf, StoreOf(fn, keyOf, p, s, c))
    ensures ResultOf(fn, keyOf, s, c) == fn(c.args, c.context)
  {
    var key := keyOf(c.args);
    SoundWithout(fn, keyOf, s, key);
    LookupFinds(s, key);
    var found := Lookup(s, key);
    if found.Some? {
      SoundConcat(fn, keyOf, Without(s, key), [found.value]);
      assert [found.value][0].key == keyOf(c.args);
    }
    var seen := AfterGet(s, key, c.readAt);
    assert Sound(fn, keyOf, seen);
    var result := fn(c.args, c.context);
    if HitOf(s, key, c.readAt).None? && result.Success? && p.Enabled() {
      var e := Entry(key, result.value, if p.ttl.Some? then Some(c.writtenAt + p.ttl.value) else None);
      assert Sound(fn, keyOf, [e]);
      SoundWithout(fn, keyOf, seen, key);
      SoundConcat(fn, keyOf, Without(seen, key), [e]);
      SoundEvict(fn, keyOf, Without(seen, key) + [e], p.maxSize);
    }
  }

  lemma SoundEvict<A(!new), C(!new), V>(
      fn: (A, C) -> Outcome<V>, keyOf: A -> string, s: seq<Entry<V>>, max: nat)
    requires Sound(fn, keyOf, s)
    ensures Sound(fn, keyOf, Evict(s, max))
  {
    if |s| > max {
      assert forall i :: 0 <= i < max ==> Evict(s, max)[i] == s[i + |s| - max];
    }
  }

  lemma {:induction false} CallsStaySound<A(!new), C(!new), V>(
      fn: (A, C) -> Outcome<V>, keyOf: A -> string, p: CachePolicy, calls: seq<Call<A, C>>, n: nat)
    requires KeysAgree(fn, keyOf) && n <= |calls|
    ensures Sound(fn, keyOf, StoreAfterCalls(fn, keyOf, p, calls, n))
  {
    if n > 0 {
      CallsStaySound(fn, keyOf, p, calls, n - 1);
      StoreStaysSound(fn, keyOf, p, StoreAfterCalls(fn, keyOf, p, calls, n - 1), calls[n - 1]);
    }
  }

  // When calls that share a key share a successful outcome, the cache is invisible:
  // whatever its size, its ttl and the clock.
  lemma AgreeingKeysAreTransparent<A(!new), C(!new), V(!new)>(
      fn: (A, C) -> Outcome<V>, keyOf: A -> string, p: CachePolicy)
    requires KeysAgree(fn, keyOf)
    ensures Transparent(fn, keyOf, p)
  {
    forall calls: seq<Call<A, C>>, n: nat | n < |calls|
      ensures ResultAt(fn, keyOf, p, calls, n) == fn(calls[n].args, calls[n].context)
    {
      CallsStaySound(fn, keyOf, p, calls, n);
      StoreStaysSound(fn, keyOf, p, StoreAfterCalls(fn, keyOf, p, calls, n), calls[n]);
    }
  }

  // Two calls that differ under one key, the second while the entry of the first is live.
  function TwoCalls<A, C>(a: A, c: C, b: A, d: C, gap: real): seq<Call<A, C>> {
    [Call(a, c, 0.0, 0.0), Call(b, d, gap, gap)]
  }

  // An enabled cache whose clock may read anything is invisible exactly when calls that
  // share a key share a successful outcome: two calls that do not show it.
  lemma TransparentExactlyWhenKeysAgree<A(!new), C(!new), V(!new)>(
      fn: (A, C) -> Outcome<V>, keyOf: A -> string, p: CachePolicy)
    requires p.Enabled()
    ensures Transparent(fn, keyOf, p) <==> KeysAgree(fn, keyOf)
  {
    if KeysAgree(fn, keyOf) {
      AgreeingKeysAreTransparent(fn, keyOf, p);
    }
    if Transparent(fn, keyOf, p) {
      forall a: A, c: C, b: A, d: C | keyOf(a) == keyOf(b) && fn(a, c).Success?
        ensures fn(b, d) == fn(a, c)
      {
        var gap := if p.ttl.Some? then p.ttl.value - 1.0 else 0.0;
        SecondCallHits(fn, keyOf, p, a, c, b, d, gap);
        assert TwoCalls(a, c, b, d, gap)[1] == Call(b, d, gap, gap);
      }
    }
  }

  lemma SecondCallHits<A, C, V>(
      fn: (A, C) -> Outcome<V>, keyOf: A -> string, p: CachePolicy, a: A, c: C, b: A, d: C, gap: real)
    requires p.Enabled() && (p.ttl.Some? ==> gap < p.ttl.value)
    requires keyOf(a) == keyOf(b) && fn(a, c).Success?
    ensures ResultAt(fn, keyOf, p, TwoCalls(a, c, b, d, gap), 1) == fn(a, c)
  {
    var calls := TwoCalls(a, c, b, d, gap);
    var none: seq<Entry<V>> := [];
    var e := Entry(keyOf(a), fn(a, c).value, p.ttl);
    assert StoreAfterCalls(fn, keyOf, p, calls, 0) == none;
    assert Lookup(none, keyOf(a)).None? && Without(none, keyOf(a)) == none;
    assert AfterSet(p, none, keyOf(a), fn(a, c).value, 0.0) == [e];
    assert StoreAfterCalls(fn, keyOf, p, calls, 1) == [e];
    assert Lookup([e], keyOf(b)) == Some(e);
  }

  // A deterministic function that ignores its context, under injective keys, is such a tool.
  lemma InjectiveKeysAgree<A(!new), C(!new), V>(fn: (A, C) -> Outcome<V>, keyOf: A -> string)
    requires forall a: A, b: A :: keyOf(a) == keyOf(b) ==> a == b
    requires forall a: A, c: C, d: C :: fn(a, c) == fn(a, d)
    ensures KeysAgree(fn, keyOf)
  {
  }
}
