/** What the tool cache guarantees over whole traces: a larger cache hits whatever a
    smaller one hits, and without expiry the store is exactly the most recently
    touched keys. */
module CacheLaws {
  import opened Wrappers
  import opened ToolCache

  // ---------- inclusion ----------

  // `s` is what is left of `l` after dropping some entries.
  ghost predicate Sub<V>(s: seq<Entry<V>>, l: seq<Entry<V>>) {
    if s == [] then true
    else l != [] && ((s[0] == l[0] && Sub(s[1..], l[1..])) || Sub(s, l[1..]))
  }

  lemma {:induction false} SameLookup<V>(s: seq<Entry<V>>, l: seq<Entry<V>>, key: string)
    requires Sub(s, l) && Distinct(l) && Has(s, key)
    ensures Has(l, key) && Lookup(s, key) == Lookup(l, key)
    decreases |l|
  {
    if s[0] == l[0] && Sub(s[1..], l[1..]) {
      if s[0].key != key {
        SameLookup(s[1..], l[1..], key);
      }
    } else {
      SameLookup(s, l[1..], key);
    }
  }

  lemma {:induction false} SubDropFirst<V>(s: seq<Entry<V>>, l: seq<Entry<V>>)
    requires Sub(s, l) && s != []
    ensures Sub(s[1..], l)
    decreases |l|
  {
    if s[0] == l[0] && Sub(s[1..], l[1..]) {
      if s[1..] != [] {
        assert Sub(s[1..], l[1..]);
      }
    } else {
      SubDropFirst(s, l[1..]);
    }
  }

  lemma {:induction false} SubSnoc<V>(s: seq<Entry<V>>, l: seq<Entry<V>>, e: Entry<V>)
    requires Sub(s, l)
    ensures Sub(s + [e], l + [e])
    decreases |l|
  {
    if l == [] {
      assert s + [e] == [e] && l + [e] == [e];
      assert [e][1..] == [];
    } else {
      assert (l + [e])[0] == l[0] && (l + [e])[1..] == l[1..] + [e];
      if s == [] {
        SubSnoc(s, l[1..], e);
      } else if s[0] == l[0] && Sub(s[1..], l[1..]) {
        assert (s + [e])[1..] == s[1..] + [e];
        SubSnoc(s[1..], l[1..], e);
      } else {
        SubSnoc(s, l[1..], e);
      }
    }
  }

  lemma {:induction false} SubWithout<V>(s: seq<Entry<V>>, l: seq<Entry<V>>, key: string)
    requires Sub(s, l)
    ensures Sub(Without(s, key), Without(l, key))
    decreases |l|
  {
    if s != [] {
      if s[0] == l[0] && Sub(s[1..], l[1..]) {
        SubWithout(s[1..], l[1..], key);
        if s[0].key != key {
          assert Without(s, key)[1..] == Without(s[1..], key);
          assert Without(l, key)[1..] == Without(l[1..], key);
        } else {
          assert Without(s, key) == Without(s[1..], key);
          assert Without(l, key) == Without(l[1..], key);
        }
      } else {
        SubWithout(s, l[1..], key);
        if l[0].key != key {
          assert Without(l, key)[1..] == Without(l[1..], key);
        } else {
          assert Without(l, key) == Without(l[1..], key);
        }
      }
    }
  }

  // The small store against the large one: a subsequence, and not much shorter.
  ghost predicate Included<V>(small: CachePolicy, large: CachePolicy, s: seq<Entry<V>>, l: seq<Entry<V>>) {
    && ValidStore(small, s) && ValidStore(large, l)
    && Sub(s, l)
    && |l| - |s| <= large.maxSize - small.maxSize
  }

  ghost predicate Comparable(small: CachePolicy, large: CachePolicy) {
    0 <= small.maxSize <= large.maxSize && small.ttl == large.ttl
  }

  // Two policies as they are constructed, sizes below zero included.
  lemma LargerSizesCompare(m: int, n: int, ttl: Option<real>)
    requires m <= n
    ensures Comparable(CachePolicy.Make(m, ttl), CachePolicy.Make(n, ttl))
  {
  }

  lemma GetIncluded<V>(small: CachePolicy, large: CachePolicy, s: seq<Entry<V>>, l: seq<Entry<V>>, key: string,
                       now: real)
    requires Comparable(small, large) && Included(small, large, s, l)
    ensures Included(small, large, AfterGet(s, key, now), AfterGet(l, key, now))
    ensures HitOf(s, key, now).Some? ==> HitOf(l, key, now) == HitOf(s, key, now)
  {
    GetKeepsValid(small, s, key, now);
    GetKeepsValid(large, l, key, now);
    LookupFinds(s, key);
    LookupFinds(l, key);
    WithoutLength(s, key);
    WithoutLength(l, key);
    SubWithout(s, l, key);
    if Has(s, key) {
      SameLookup(s, l, key);
      SubSnoc(Without(s, key), Without(l, key), Lookup(l, key).value);
    } else if Has(l, key) {
      SubPad(s, Without(l, key), Lookup(l, key).value);
    }
  }

  lemma {:induction false} SubPad<V>(s: seq<Entry<V>>, l: seq<Entry<V>>, e: Entry<V>)
    requires Sub(s, l)
    ensures Sub(s, l + [e])
    decreases |l|
  {
    if s != [] {
      assert (l + [e])[0] == l[0] && (l + [e])[1..] == l[1..] + [e];
      if s[0] == l[0] && Sub(s[1..], l[1..]) {
        SubPad(s[1..], l[1..], e);
      } else {
        SubPad(s, l[1..], e);
      }
    }
  }

  // Dropping the first entry of the longer list, and then of the shorter one.
  lemma SubDropBoth<V>(s: seq<Entry<V>>, l: seq<Entry<V>>)
    requires Sub(s, l) && s != []
    ensures l != [] && Sub(s[1..], l[1..])
  {
    if !(s[0] == l[0] && Sub(s[1..], l[1..])) {
      SubDropFirst(s, l[1..]);
    }
  }

  lemma EvictOne<V>(s: seq<Entry<V>>, max: nat)
    requires |s| <= max + 1
    ensures Evict(s, max) == if |s| == max + 1 then s[1..] else s
  {
  }

  // Once the large store is full and must evict, so must the small one.
  lemma SetIncluded<V>(small: CachePolicy, large: CachePolicy, s: seq<Entry<V>>, l: seq<Entry<V>>,
                       key: string, value: V, now: real)
    requires Comparable(small, large) && Included(small, large, s, l)
    ensures Included(small, large, AfterSet(small, s, key, value, now), AfterSet(large, l, key, value, now))
  {
    SetKeepsValid(small, s, key, value, now);
    SetKeepsValid(large, l, key, value, now);
    if small.Enabled() {
      var e := Entry(key, value, if small.ttl.Some? then Some(now + small.ttl.value) else None);
      var s1, l1 := Without(s, key) + [e], Without(l, key) + [e];
      if Has(s, key) {
        SameLookup(s, l, key);
      }
      RefreshKeepsValid(s, e);
      RefreshKeepsValid(l, e);
      SubWithout(s, l, key);
      SubSnoc(Without(s, key), Without(l, key), e);
      hide Sub, Without, Distinct, Has;
      EvictOne(s1, small.maxSize);
      EvictOne(l1, large.maxSize);
      if |s1| > small.maxSize {
        SubDropFirst(s1, l1);
        SubDropBoth(s1, l1);
      }
    } else {
      assert AfterSet(small, s, key, value, now) == [];
      NothingIsSub(AfterSet(large, l, key, value, now));
    }
  }

  lemma NothingIsSub<V>(l: seq<Entry<V>>)
    ensures Sub([], l)
  {
  }

  lemma {:induction false} StoresIncluded<V>(small: CachePolicy, large: CachePolicy, ops: seq<Op<V>>, n: nat)
    requires Comparable(small, large) && n <= |ops|
    ensures Included(small, large, StoreAfter(small, ops, n), StoreAfter(large, ops, n))
  {
    if n > 0 {
      StoresIncluded(small, large, ops, n - 1);
      var s, l := StoreAfter(small, ops, n - 1), StoreAfter(large, ops, n - 1);
      match ops[n - 1] {
        case Get(key, now) => GetIncluded(small, large, s, l, key, now);
        case Put(key, value, now) => SetIncluded(small, large, s, l, key, value, now);
        case Clear =>
      }
    }
  }

  // On the same trace of operations, clock readings and ttl, every hit of the smaller
  // cache is a hit of the larger one with the same value, whatever the clock does.
  lemma LargerCacheHitsMore<V>(small: CachePolicy, large: CachePolicy, ops: seq<Op<V>>, n: nat)
    requires Comparable(small, large) && n < |ops|
    ensures HitAt(small, ops, n).Some? ==> HitAt(large, ops, n) == HitAt(small, ops, n)
  {
    StoresIncluded(small, large, ops, n);
    if ops[n].Get? {
      GetIncluded(small, large, StoreAfter(small, ops, n), StoreAfter(large, ops, n), ops[n].key, ops[n].now);
    }
  }

  // ---------- exact recency ----------

  // The keys touched since the last clear, oldest first: every put and every hit.
  function Touches<V>(p: CachePolicy, ops: seq<Op<V>>, n: nat): seq<string>
    requires n <= |ops|
  {
    if n == 0 then [] else
    var before := Touches(p, ops, n - 1);
    match ops[n - 1]
    case Clear => []
    case Put(key, _, _) => before + [key]
    case Get(key, _) => if HitAt(p, ops, n - 1).Some? then before + [key] else before
  }

  function Drop(ks: seq<string>, key: string): seq<string> {
    if ks == [] then [] else (if ks[0] == key then [] else [ks[0]]) + Drop(ks[1..], key)
  }

  // The distinct touched keys by their latest touch, least recent first.
  function Recency(touches: seq<string>): seq<string> {
    if touches == [] then []
    else
      var last := touches[|touches| - 1];
      Drop(Recency(touches[..|touches| - 1]), last) + [last]
  }

  // The position of the latest touch of a key, or -1.
  function LatestTouch(touches: seq<string>, key: string): (i: int)
    ensures -1 <= i < |touches|
    ensures 0 <= i ==> touches[i] == key
    ensures forall j :: i < j < |touches| ==> touches[j] != key
  {
    if touches == [] then -1
    else if touches[|touches| - 1] == key then |touches| - 1
    else LatestTouch(touches[..|touches| - 1], key)
  }

  // Each key once, in the order of the latest touches.
  ghost predicate ByLatestTouch(touches: seq<string>, ks: seq<string>) {
    ks == [] ||
    ((forall k :: k in ks[1..] ==> LatestTouch(touches, ks[0]) < LatestTouch(touches, k))
     && ByLatestTouch(touches, ks[1..]))
  }

  lemma {:induction false} DropMembers(ks: seq<string>, key: string)
    ensures forall k :: k in Drop(ks, key) <==> k in ks && k != key
  {
    if ks != [] {
      DropMembers(ks[1..], key);
      assert ks == [ks[0]] + ks[1..];
    }
  }

  lemma {:induction false} DropByLatestTouch(touches: seq<string>, ks: seq<string>, key: string)
    requires ByLatestTouch(touches, ks)
    ensures ByLatestTouch(touches, Drop(ks, key))
  {
    if ks != [] {
      DropByLatestTouch(touches, ks[1..], key);
      DropMembers(ks[1..], key);
      if ks[0] != key {
        assert Drop(ks, key)[1..] == Drop(ks[1..], key);
      } else {
        assert Drop(ks, key) == Drop(ks[1..], key);
      }
    }
  }

  lemma {:induction false} ByLatestTouchSnoc(touches: seq<string>, ks: seq<string>, last: string)
    requires ByLatestTouch(touches, ks)
    requires forall k :: k in ks ==> LatestTouch(touches, k) < LatestTouch(touches, last)
    ensures ByLatestTouch(touches, ks + [last])
  {
    if ks == [] {
      assert ks + [last] == [last] && [last][1..] == [];
    } else {
      assert (ks + [last])[0] == ks[0] && (ks + [last])[1..] == ks[1..] + [last];
      ByLatestTouchSnoc(touches, ks[1..], last);
    }
  }

  lemma {:induction false} ByLatestTouchLater(front: seq<string>, last: string, ks: seq<string>)
    requires ByLatestTouch(front, ks) && last !in ks
    ensures ByLatestTouch(front + [last], ks)
  {
    if ks != [] {
      assert ks == [ks[0]] + ks[1..];
      ByLatestTouchLater(front, last, ks[1..]);
      assert (front + [last])[..|front|] == front;
      assert forall k :: k in ks ==> LatestTouch(front + [last], k) == LatestTouch(front, k);
    }
  }

  // `Recency` is the touched keys, each once, in the order of their latest touches.
  lemma {:induction false} RecencyIsByLatestTouch(touches: seq<string>)
    ensures forall k :: k in Recency(touches) <==> k in touches
    ensures ByLatestTouch(touches, Recency(touches))
  {
    if touches != [] {
      var front, last := touches[..|touches| - 1], touches[|touches| - 1];
      assert touches == front + [last];
      RecencyIsByLatestTouch(front);
      var d := Drop(Recency(front), last);
      DropMembers(Recency(front), last);
      DropByLatestTouch(front, Recency(front), last);
      ByLatestTouchLater(front, last, d);
      ByLatestTouchSnoc(touches, d, last);
    }
  }

  ghost predicate NoDuplicates(ks: seq<string>) {
    ks == [] || (ks[0] !in ks[1..] && NoDuplicates(ks[1..]))
  }

  lemma {:induction false} ByLatestTouchNoDuplicates(touches: seq<string>, ks: seq<string>)
    requires ByLatestTouch(touches, ks)
    ensures NoDuplicates(ks)
  {
    if ks != [] {
      ByLatestTouchNoDuplicates(touches, ks[1..]);
    }
  }

  function LastOf<T>(xs: seq<T>, max: nat): seq<T> {
    if |xs| > max then xs[|xs| - max..] else xs
  }

  lemma LastOfSuffix<T>(a: seq<T>, b: seq<T>, max: nat)
    requires |b| >= max || a == []
    ensures LastOf(a + b, max) == LastOf(b, max)
  {
    if |b| >= max {
      assert (a + b)[|a + b| - max..] == b[|b| - max..];
    } else {
      assert a + b == b;
    }
  }

  lemma {:induction false} DropConcat(a: seq<string>, b: seq<string>, key: string)
    ensures Drop(a + b, key) == Drop(a, key) + Drop(b, key)
  {
    if a == [] {
      assert a + b == b;
    } else {
      assert (a + b)[0] == a[0] && (a + b)[1..] == a[1..] + b;
      DropConcat(a[1..], b, key);
    }
  }

  lemma {:induction false} DropLength(ks: seq<string>, key: string)
    requires NoDuplicates(ks)
    ensures key in ks ==> |Drop(ks, key)| == |ks| - 1
    ensures key !in ks ==> Drop(ks, key) == ks
  {
    if ks != [] {
      assert ks == [ks[0]] + ks[1..];
      DropLength(ks[1..], key);
    }
  }

  lemma {:induction false} NoDuplicatesConcat(a: seq<string>, b: seq<string>)
    requires NoDuplicates(a + b)
    ensures NoDuplicates(a) && NoDuplicates(b)
    ensures forall k :: k in a ==> k !in b
  {
    if a == [] {
      assert a + b == b;
    } else {
      assert (a + b)[0] == a[0] && (a + b)[1..] == a[1..] + b;
      NoDuplicatesConcat(a[1..], b);
      assert a == [a[0]] + a[1..];
    }
  }

  // Touching a key in a duplicate-free order changes the last `max` as if nothing
  // older were there.
  lemma TouchLast(ks: seq<string>, key: string, max: nat)
    requires NoDuplicates(ks) && max > 0
    ensures LastOf(Drop(ks, key) + [key], max) == LastOf(Drop(LastOf(ks, max), key) + [key], max)
  {
    var cut := if |ks| > max then |ks| - max else 0;
    var older, kept := ks[..cut], ks[cut..];
    assert ks == older + kept && kept == LastOf(ks, max);
    NoDuplicatesConcat(older, kept);
    DropConcat(older, kept, key);
    DropLength(older, key);
    DropLength(kept, key);
    if cut == 0 {
      NothingToDrop(key);
    }
    hide NoDuplicates, Drop;
    MovedLast(Drop(older, key), kept, Drop(kept, key), key, max);
    assert Drop(ks, key) + [key] == Drop(older, key) + Drop(kept, key) + [key];
  }

  lemma MovedLast(older': seq<string>, kept: seq<string>, kept': seq<string>, key: string, max: nat)
    requires |kept| >= max || older' == []
    requires |kept'| >= |kept| - 1
    ensures LastOf(older' + kept' + [key], max) == LastOf(kept' + [key], max)
  {
    assert older' + kept' + [key] == older' + (kept' + [key]);
    LastOfSuffix(older', kept' + [key], max);
  }

  lemma NothingToDrop(key: string)
    ensures Drop([], key) == []
  {
  }

  lemma {:induction false} KeysWithout<V>(s: seq<Entry<V>>, key: string)
    ensures Keys(Without(s, key)) == Drop(Keys(s), key)
    ensures Has(s, key) <==> key in Keys(s)
  {
    if s != [] {
      KeysWithout(s[1..], key);
      assert Keys(s) == [s[0].key] + Keys(s[1..]);
      if s[0].key != key {
        assert Keys(Without(s, key)) == [s[0].key] + Keys(Without(s[1..], key));
      }
    }
  }

  lemma KeysRefresh<V>(s: seq<Entry<V>>, e: Entry<V>)
    ensures Keys(Without(s, e.key) + [e]) == Drop(Keys(s), e.key) + [e.key]
  {
    KeysWithout(s, e.key);
  }

  lemma KeysEvict<V>(s: seq<Entry<V>>, max: nat)
    ensures Keys(Evict(s, max)) == LastOf(Keys(s), max)
  {
  }

  // The touched keys after one more touch, seen through the last `max`.
  lemma TouchRecency(touches: seq<string>, key: string, max: nat)
    requires max > 0
    ensures LastOf(Recency(touches + [key]), max) == LastOf(Drop(LastOf(Recency(touches), max), key) + [key], max)
  {
    RecencyIsByLatestTouch(touches);
    ByLatestTouchNoDuplicates(touches, Recency(touches));
    assert (touches + [key])[..|touches|] == touches;
    TouchLast(Recency(touches), key, max);
  }

  ghost predicate NeverExpires<V>(s: seq<Entry<V>>) {
    forall i :: 0 <= i < |s| ==> s[i].expiresAt.None?
  }

  lemma {:induction false} NeverExpiresWithout<V>(s: seq<Entry<V>>, key: string)
    requires NeverExpires(s)
    ensures NeverExpires(Without(s, key))
    ensures Lookup(s, key).Some? ==> Lookup(s, key).value.expiresAt.None?
  {
    if s != [] {
      NeverExpiresWithout(s[1..], key);
    }
  }

  // Without expiry the store is, at every moment, exactly the `maxSize` most recently
  // touched distinct keys in the order of their latest touches (all of them when
  // there are fewer).
  lemma {:induction false} ExactRecency<V>(p: CachePolicy, ops: seq<Op<V>>, n: nat)
    requires p.Enabled() && p.ttl.None? && n <= |ops|
    ensures Keys(StoreAfter(p, ops, n)) == LastOf(Recency(Touches(p, ops, n)), p.maxSize)
    ensures NeverExpires(StoreAfter(p, ops, n))
  {
    if n > 0 {
      ExactRecency(p, ops, n - 1);
      var s, touches := StoreAfter(p, ops, n - 1), Touches(p, ops, n - 1);
      match ops[n - 1] {
        case Clear =>
        case Put(key, value, now) =>
          PutRecency(p, s, touches, key, value, now);
        case Get(key, now) =>
          StoreValid(p, ops, n - 1);
          GetRecency(p, s, touches, key, now);
      }
    }
  }

  lemma PutRecency<V>(p: CachePolicy, s: seq<Entry<V>>, touches: seq<string>, key: string, value: V, now: real)
    requires p.Enabled() && p.ttl.None? && NeverExpires(s)
    requires Keys(s) == LastOf(Recency(touches), p.maxSize)
    ensures Keys(AfterSet(p, s, key, value, now)) == LastOf(Recency(touches + [key]), p.maxSize)
    ensures NeverExpires(AfterSet(p, s, key, value, now))
  {
    hide Recency, Drop, Without;
    var e := Entry(key, value, None);
    NeverExpiresWithout(s, key);
    KeysRefresh(s, e);
    KeysEvict(Without(s, key) + [e], p.maxSize);
    TouchRecency(touches, key, p.maxSize);
  }

  lemma GetRecency<V>(p: CachePolicy, s: seq<Entry<V>>, touches: seq<string>, key: string, now: real)
    requires p.Enabled() && NeverExpires(s) && ValidStore(p, s)
    requires Keys(s) == LastOf(Recency(touches), p.maxSize)
    ensures var hit := HitOf(s, key, now).Some?;
      && Keys(AfterGet(s, key, now)) == LastOf(Recency(if hit then touches + [key] else touches), p.maxSize)
      && NeverExpires(AfterGet(s, key, now))
  {
    hide Recency, Drop, Without, Lookup;
    LookupFinds(s, key);
    NeverExpiresWithout(s, key);
    if Lookup(s, key).Some? {
      var e := Lookup(s, key).value;
      KeysRefresh(s, e);
      RefreshKeepsValid(s, e);
      TouchRecency(touches, key, p.maxSize);
    }
  }

  // ---------- what a hit is ----------

  // Operation `m` put this value under this key, at this time, and nothing since put
  // another one or cleared the cache.
  ghost predicate LastPut<V>(ops: seq<Op<V>>, n: nat, m: int, key: string, value: V, at: real) {
    && 0 <= m < n <= |ops| && ops[m] == Put(key, value, at)
    && forall i :: m < i < n ==> !ops[i].Clear? && !(ops[i].Put? && ops[i].key == key)
  }

  ghost predicate FromLastPut<V>(p: CachePolicy, ops: seq<Op<V>>, n: nat, e: Entry<V>) {
    exists m, at :: LastPut(ops, n, m, e.key, e.value, at)
                    && e.expiresAt == match p.ttl case None => None case Some(ttl) => Some(at + ttl)
  }

  lemma StillLastPut<V>(p: CachePolicy, ops: seq<Op<V>>, n: nat, e: Entry<V>)
    requires n < |ops| && FromLastPut(p, ops, n, e)
    requires !ops[n].Clear? && !(ops[n].Put? && ops[n].key == e.key)
    ensures FromLastPut(p, ops, n + 1, e)
  {
    var m, at :| LastPut(ops, n, m, e.key, e.value, at)
                 && e.expiresAt == match p.ttl case None => None case Some(ttl) => Some(at + ttl);
    assert LastPut(ops, n + 1, m, e.key, e.value, at);
  }

  lemma {:induction false} WithoutMembers<V>(s: seq<Entry<V>>, key: string)
    ensures forall e :: e in Without(s, key) <==> e in s && e.key != key
  {
    if s != [] {
      WithoutMembers(s[1..], key);
      assert s == [s[0]] + s[1..];
    }
  }

  lemma {:induction false} LookupMember<V>(s: seq<Entry<V>>, key: string)
    ensures Lookup(s, key).Some? ==> Lookup(s, key).value in s && Lookup(s, key).value.key == key
  {
    if s != [] {
      LookupMember(s[1..], key);
    }
  }

  // Every entry of the store is what was last put under its key, with its lifetime.
  lemma {:induction false} EntriesAreLastPuts<V>(p: CachePolicy, ops: seq<Op<V>>, n: nat)
    requires n <= |ops|
    ensures forall e :: e in StoreAfter(p, ops, n) ==> FromLastPut(p, ops, n, e)
  {
    hide Without, Lookup, FromLastPut;
    if n > 0 {
      EntriesAreLastPuts(p, ops, n - 1);
      var s, op := StoreAfter(p, ops, n - 1), ops[n - 1];
      StoreValid(p, ops, n - 1);
      forall e | e in StoreAfter(p, ops, n) ensures FromLastPut(p, ops, n, e) {
        AppliedMembers(p, s, op, e);
        if op.Put? && op.key == e.key {
          NewIsLastPut(p, ops, n - 1, e);
        } else {
          StillLastPut(p, ops, n - 1, e);
        }
      }
    }
  }

  // What is stored after an operation was there before, or has just been put.
  lemma AppliedMembers<V>(p: CachePolicy, s: seq<Entry<V>>, op: Op<V>, e: Entry<V>)
    requires ValidStore(p, s) && e in Apply(p, s, op)
    ensures !op.Clear?
    ensures if op.Put? && op.key == e.key
            then e.value == op.value && e.expiresAt == if p.ttl.Some? then Some(op.now + p.ttl.value) else None
            else e in s
  {
    hide Without, Lookup;
    if op.Get? || op.Put? {
      WithoutMembers(s, op.key);
      LookupMember(s, op.key);
    }
  }

  lemma NewIsLastPut<V>(p: CachePolicy, ops: seq<Op<V>>, n: nat, e: Entry<V>)
    requires n < |ops| && ops[n].Put? && e.key == ops[n].key && e.value == ops[n].value
    requires e.expiresAt == if p.ttl.Some? then Some(ops[n].now + p.ttl.value) else None
    ensures FromLastPut(p, ops, n + 1, e)
  {
    assert LastPut(ops, n + 1, n, e.key, e.value, ops[n].now);
  }

  // A hit is the value last put under the key, less than a lifetime ago; and a key that
  // is stored misses only when that lifetime is over.
  lemma HitIsTheLastPut<V>(p: CachePolicy, ops: seq<Op<V>>, n: nat)
    requires n < |ops| && ops[n].Get?
    ensures var key, now, hit := ops[n].key, ops[n].now, HitAt(p, ops, n);
            && (hit.Some? ==> exists m, at :: LastPut(ops, n, m, key, hit.value, at)
                                              && (p.ttl.Some? ==> now < at + p.ttl.value))
            && (hit.None? && Has(StoreAfter(p, ops, n), key) ==>
                  exists m, value, at :: LastPut(ops, n, m, key, value, at)
                                         && p.ttl.Some? && now >= at + p.ttl.value)
  {
    hide StoreAfter, Has;
    var key, s := ops[n].key, StoreAfter(p, ops, n);
    EntriesAreLastPuts(p, ops, n);
    LookupFinds(s, key);
    LookupMember(s, key);
    if Lookup(s, key).Some? {
      var e := Lookup(s, key).value;
      var m, at :| LastPut(ops, n, m, e.key, e.value, at)
                   && e.expiresAt == match p.ttl case None => None case Some(ttl) => Some(at + ttl);
    }
  }
}
