/** The LRU + TTL result cache of a tool (`tools/cache.py`). The store is kept in
    recency order, least recent first, one entry per key. */
module ToolCache {
  import opened Wrappers

  // Negative values are normalised to zero on construction; size zero disables the cache.
  datatype CachePolicy = CachePolicy(maxSize: int, ttl: Option<real>) {
    predicate Enabled() { maxSize > 0 }

    static function Make(maxSize: int, ttl: Option<real>): (p: CachePolicy)
      ensures p.maxSize >= 0 && (p.ttl.Some? ==> p.ttl.value >= 0.0)
      ensures p.Enabled() <==> maxSize > 0
      ensures maxSize >= 0 ==> p.maxSize == maxSize
      ensures (p.ttl.Some? <==> ttl.Some?) && (ttl.Some? && ttl.value >= 0.0 ==> p.ttl == ttl)
      ensures (maxSize < 0 ==> p.maxSize == 0) && (ttl.Some? && ttl.value < 0.0 ==> p.ttl == Some(0.0))
    {
      CachePolicy(if maxSize < 0 then 0 else maxSize, if ttl.Some? && ttl.value < 0.0 then Some(0.0) else ttl)
    }
  }

  datatype Entry<V> = Entry(key: string, value: V, expiresAt: Option<real>)

  // ---------- stores ----------

  function Keys<V>(s: seq<Entry<V>>): (ks: seq<string>)
    ensures |ks| == |s|
    ensures forall i :: 0 <= i < |s| ==> ks[i] == s[i].key
  {
    seq(|s|, i requires 0 <= i < |s| => s[i].key)
  }

  function Without<V>(s: seq<Entry<V>>, key: string): seq<Entry<V>> {
    if s == [] then []
    else (if s[0].key == key then [] else [s[0]]) + Without(s[1..], key)
  }

  function Lookup<V>(s: seq<Entry<V>>, key: string): Option<Entry<V>> {
    if s == [] then None
    else if s[0].key == key then Some(s[0])
    else Lookup(s[1..], key)
  }

  predicate Has<V>(s: seq<Entry<V>>, key: string) {
    s != [] && (s[0].key == key || Has(s[1..], key))
  }

  // No key occurs twice.
  ghost predicate Distinct<V>(s: seq<Entry<V>>) {
    s == [] || (!Has(s[1..], s[0].key) && Distinct(s[1..]))
  }

  lemma {:induction false} HasWithout<V>(s: seq<Entry<V>>, key: string, other: string)
    ensures Has(Without(s, key), other) <==> Has(s, other) && other != key
  {
    if s != [] {
      HasWithout(s[1..], key, other);
      if s[0].key != key {
        assert Without(s, key)[1..] == Without(s[1..], key);
      } else {
        assert Without(s, key) == Without(s[1..], key);
      }
    }
  }

  lemma {:induction false} DistinctWithout<V>(s: seq<Entry<V>>, key: string)
    requires Distinct(s)
    ensures Distinct(Without(s, key))
  {
    if s != [] {
      DistinctWithout(s[1..], key);
      if s[0].key != key {
        assert Without(s, key)[1..] == Without(s[1..], key);
        HasWithout(s[1..], key, s[0].key);
      } else {
        assert Without(s, key) == Without(s[1..], key);
      }
    }
  }

  lemma {:induction false} WithoutLength<V>(s: seq<Entry<V>>, key: string)
    requires Distinct(s)
    ensures |Without(s, key)| == if Has(s, key) then |s| - 1 else |s|
    ensures !Has(s, key) ==> Without(s, key) == s
  {
    if s != [] {
      WithoutLength(s[1..], key);
    }
  }

  lemma {:induction false} DistinctSnoc<V>(s: seq<Entry<V>>, e: Entry<V>)
    requires Distinct(s) && !Has(s, e.key)
    ensures Distinct(s + [e])
  {
    if s == [] {
      assert s + [e] == [e] && [e][1..] == [];
    } else {
      assert (s + [e])[0] == s[0] && (s + [e])[1..] == s[1..] + [e];
      DistinctSnoc(s[1..], e);
      HasSnoc(s[1..], e, s[0].key);
    }
  }

  lemma {:induction false} HasSnoc<V>(s: seq<Entry<V>>, e: Entry<V>, key: string)
    ensures Has(s + [e], key) <==> Has(s, key) || e.key == key
  {
    if s == [] {
      assert s + [e] == [e] && [e][1..] == [];
    } else {
      assert (s + [e])[0] == s[0] && (s + [e])[1..] == s[1..] + [e];
      HasSnoc(s[1..], e, key);
    }
  }

  lemma {:induction false} LookupFinds<V>(s: seq<Entry<V>>, key: string)
    ensures Lookup(s, key).Some? <==> Has(s, key)
    ensures Lookup(s, key).Some? ==> Lookup(s, key).value.key == key
  {
    if s != [] {
      LookupFinds(s[1..], key);
    }
  }

  // ---------- operations ----------

  function Expired<V>(e: Entry<V>, now: real): bool {
    e.expiresAt.Some? && now >= e.expiresAt.value
  }

  function HitOf<V>(s: seq<Entry<V>>, key: string, now: real): Option<V> {
    var found := Lookup(s, key);
    if found.None? || Expired(found.value, now) then None else Some(found.value.value)
  }

  function AfterGet<V>(s: seq<Entry<V>>, key: string, now: real): seq<Entry<V>> {
    var found := Lookup(s, key);
    if found.None? then s
    else if Expired(found.value, now) then Without(s, key)
    else Without(s, key) + [found.value]
  }

  // Entries dropped from the front until `max` remain.
  function Evict<V>(s: seq<Entry<V>>, max: nat): seq<Entry<V>> {
    if |s| > max then s[|s| - max..] else s
  }

  function AfterSet<V>(p: CachePolicy, s: seq<Entry<V>>, key: string, value: V, now: real): seq<Entry<V>> {
    if !p.Enabled() then s
    else
      var expiresAt := if p.ttl.Some? then Some(now + p.ttl.value) else None;
      Evict(Without(s, key) + [Entry(key, value, expiresAt)], p.maxSize)
  }

  ghost predicate ValidStore<V>(p: CachePolicy, s: seq<Entry<V>>) {
    Distinct(s) && |s| <= if p.maxSize > 0 then p.maxSize else 0
  }

  // An entry moved or put at the end keeps the keys distinct.
  lemma RefreshKeepsValid<V>(s: seq<Entry<V>>, e: Entry<V>)
    requires Distinct(s)
    ensures Distinct(Without(s, e.key) + [e])
    ensures |Without(s, e.key) + [e]| == if Has(s, e.key) then |s| else |s| + 1
  {
    DistinctWithout(s, e.key);
    HasWithout(s, e.key, e.key);
    WithoutLength(s, e.key);
    DistinctSnoc(Without(s, e.key), e);
  }

  lemma GetKeepsValid<V>(p: CachePolicy, s: seq<Entry<V>>, key: string, now: real)
    requires ValidStore(p, s)
    ensures ValidStore(p, AfterGet(s, key, now))
  {
    LookupFinds(s, key);
    DistinctWithout(s, key);
    WithoutLength(s, key);
    if Lookup(s, key).Some? {
      RefreshKeepsValid(s, Lookup(s, key).value);
    }
  }

  lemma SetKeepsValid<V>(p: CachePolicy, s: seq<Entry<V>>, key: string, value: V, now: real)
    requires ValidStore(p, s)
    ensures ValidStore(p, AfterSet(p, s, key, value, now))
  {
    if p.Enabled() {
      var e := Entry(key, value, if p.ttl.Some? then Some(now + p.ttl.value) else None);
      RefreshKeepsValid(s, e);
      var grown := Without(s, key) + [e];
      assert |grown| > p.maxSize ==> grown[|grown| - p.maxSize..] == grown[1..];
    }
  }

  class Cache<V(0)> {
    const policy: CachePolicy
    var store: seq<Entry<V>>

    ghost predicate Valid()
      reads this
    {
      ValidStore(policy, store)
    }

    constructor (policy: CachePolicy)
      ensures this.policy == policy && store == [] && Valid()
    {
      this.policy := policy;
      store := [];
    }

    // `ToolCache.get`, with the clock read at `now`.
    method Get(key: string, now: real) returns (hit: Option<V>)
      requires Valid()
      modifies this`store
      ensures Valid()
      ensures hit == HitOf(old(store), key, now)
      ensures store == AfterGet(old(store), key, now)
    {
      GetKeepsValid(policy, store, key, now);
      var found := Lookup(store, key);
      if found.None? {
        return None;
      }
      var Entry(_, value, expiresAt) := found.value;
      if expiresAt.Some? && now >= expiresAt.value {
        store := Without(store, key);
        return None;
      }
      store := Without(store, key) + [found.value];
      return Some(value);
    }

    // `ToolCache.set`: insert, mark most recent, evict from the front while too long.
    method Set(key: string, value: V, now: real)
      requires Valid()
      modifies this`store
      ensures Valid()
      ensures store == AfterSet(policy, old(store), key, value, now)
    {
      SetKeepsValid(policy, store, key, value, now);
      if !policy.Enabled() {
        return;
      }
      var expiresAt := None;
      if policy.ttl.Some? {
        expiresAt := Some(now + policy.ttl.value);
      }
      store := Without(store, key) + [Entry(key, value, expiresAt)];
      ghost var full := store;
      while |store| > policy.maxSize
        invariant |store| <= |full| && store == full[|full| - |store|..]
        invariant |full| >= policy.maxSize ==> |store| >= policy.maxSize
        invariant |full| < policy.maxSize ==> store == full
      {
        store := store[1..];
      }
    }

    method Clear()
      modifies this`store
      ensures store == [] && Valid()
    {
      store := [];
    }
  }

  // ---------- traces ----------

  datatype Op<V> = Get(key: string, now: real) | Put(key: string, value: V, now: real) | Clear

  function Apply<V>(p: CachePolicy, s: seq<Entry<V>>, op: Op<V>): seq<Entry<V>> {
    match op
    case Get(key, now) => AfterGet(s, key, now)
    case Put(key, value, now) => AfterSet(p, s, key, value, now)
    case Clear => []
  }

  // The store after the first `n` operations.
  function StoreAfter<V>(p: CachePolicy, ops: seq<Op<V>>, n: nat): seq<Entry<V>>
    requires n <= |ops|
  {
    if n == 0 then [] else Apply(p, StoreAfter(p, ops, n - 1), ops[n - 1])
  }

  // What operation `n` hits; only a get can hit.
  function HitAt<V>(p: CachePolicy, ops: seq<Op<V>>, n: nat): Option<V>
    requires n < |ops|
  {
    match ops[n]
    case Get(key, now) => HitOf(StoreAfter(p, ops, n), key, now)
    case _ => None
  }

  lemma {:induction false} StoreValid<V>(p: CachePolicy, ops: seq<Op<V>>, n: nat)
    requires n <= |ops|
    ensures ValidStore(p, StoreAfter(p, ops, n))
  {
    if n > 0 {
      StoreValid(p, ops, n - 1);
      var s := StoreAfter(p, ops, n - 1);
      match ops[n - 1] {
        case Get(key, now) => GetKeepsValid(p, s, key, now);
        case Put(key, value, now) => SetKeepsValid(p, s, key, value, now);
        case Clear =>
      }
    }
  }
}
