/** How often a tool runs its function behind a cache with a lifetime: exactly when a
    larger cache never runs it more often than a smaller one. */
module CachedToolRuns {
  import opened Wrappers
  import opened ToolCache
  import opened CacheLaws
  import opened CachedTools
  import opened CachedToolLaws

  // ---------- calls seen by their keys ----------

  // What the caches see of a call: its key, whether the function would return a value,
  // and the clock.
  datatype Ask = Ask(key: string, good: bool, readAt: real, writtenAt: real)

  function AskOf<A, C, V>(fn: (A, C) -> Outcome<V>, keyOf: A -> string, c: Call<A, C>): Ask {
    Ask(keyOf(c.args), fn(c.args, c.context).Success?, c.readAt, c.writtenAt)
  }

  function AsksOf<A, C, V>(fn: (A, C) -> Outcome<V>, keyOf: A -> string, calls: seq<Call<A, C>>): (r: seq<Ask>)
    ensures |r| == |calls| && forall i :: 0 <= i < |calls| ==> r[i] == AskOf(fn, keyOf, calls[i])
  {
    seq(|calls|, i requires 0 <= i < |calls| => AskOf(fn, keyOf, calls[i]))
  }

  function Step(p: CachePolicy, s: seq<Entry<()>>, a: Ask): seq<Entry<()>> {
    BareStep(p, s, a.key, a.good, a.readAt, a.writtenAt)
  }

  function StoreOn(p: CachePolicy, asks: seq<Ask>, n: nat): seq<Entry<()>>
    requires n <= |asks|
  {
    if n == 0 then [] else Step(p, StoreOn(p, asks, n - 1), asks[n - 1])
  }

  predicate Missed(p: CachePolicy, asks: seq<Ask>, n: nat)
    requires n < |asks|
  {
    HitOf(StoreOn(p, asks, n), asks[n].key, asks[n].readAt).None?
  }

  // The keys of the calls that ran the function.
  function RunKeys(p: CachePolicy, asks: seq<Ask>, n: nat): multiset<string>
    requires n <= |asks|
  {
    if n == 0 then multiset{}
    else RunKeys(p, asks, n - 1) + if Missed(p, asks, n - 1) then multiset{asks[n - 1].key} else multiset{}
  }

  lemma {:induction false} StoresAsAsks<A, C, V>(
      fn: (A, C) -> Outcome<V>, keyOf: A -> string, p: CachePolicy, calls: seq<Call<A, C>>, n: nat)
    requires n <= |calls|
    ensures Bare(StoreAfterCalls(fn, keyOf, p, calls, n)) == StoreOn(p, AsksOf(fn, keyOf, calls), n)
  {
    if n > 0 {
      hide BareStep, StoreOf, Bare;
      StoresAsAsks(fn, keyOf, p, calls, n - 1);
      StepIsBare(fn, keyOf, p, StoreAfterCalls(fn, keyOf, p, calls, n - 1), calls[n - 1]);
    }
  }

  lemma HitsAsAsks<A, C, V>(
      fn: (A, C) -> Outcome<V>, keyOf: A -> string, p: CachePolicy, calls: seq<Call<A, C>>, n: nat)
    requires n < |calls|
    ensures Hits(fn, keyOf, p, calls, n) <==> !Missed(p, AsksOf(fn, keyOf, calls), n)
  {
    hide HitOf, Bare, StoreAfterCalls, StoreOn;
    StoresAsAsks(fn, keyOf, p, calls, n);
    BareGet(StoreAfterCalls(fn, keyOf, p, calls, n), keyOf(calls[n].args), calls[n].readAt);
  }

  lemma {:induction false} CallsAsAsks<A, C, V>(
      fn: (A, C) -> Outcome<V>, keyOf: A -> string, p: CachePolicy, calls: seq<Call<A, C>>, n: nat)
    requires n <= |calls|
    ensures Runs(fn, keyOf, p, calls, n) == |RunKeys(p, AsksOf(fn, keyOf, calls), n)|
  {
    hide Hits, Missed;
    if n > 0 {
      CallsAsAsks(fn, keyOf, p, calls, n - 1);
      HitsAsAsks(fn, keyOf, p, calls, n - 1);
    }
  }

  ghost predicate Ordered(asks: seq<Ask>) {
    && (forall i :: 0 <= i < |asks| ==> asks[i].readAt <= asks[i].writtenAt)
    && (forall i, j :: 0 <= i < j < |asks| ==> asks[i].writtenAt <= asks[j].readAt)
  }

  // ---------- what a call does to the entries ----------

  // What the end of the store holds after a good call.
  function Latest(p: CachePolicy, s: seq<Entry<()>>, a: Ask): Entry<()> {
    var found := Lookup(s, a.key);
    if found.Some? && !Expired(found.value, a.readAt) then found.value
    else Entry(a.key, (), if p.ttl.Some? then Some(a.writtenAt + p.ttl.value) else None)
  }

  lemma {:induction false} WithoutTwice<V>(s: seq<Entry<V>>, key: string)
    ensures Without(Without(s, key), key) == Without(s, key)
  {
    if s != [] {
      WithoutTwice(s[1..], key);
      if s[0].key != key {
        assert Without(s, key)[1..] == Without(s[1..], key);
      } else {
        assert Without(s, key) == Without(s[1..], key);
      }
    }
  }

  lemma GoodStep(p: CachePolicy, s: seq<Entry<()>>, a: Ask)
    requires p.Enabled() && ValidStore(p, s) && a.good
    ensures Step(p, s, a) == Evict(Without(s, a.key) + [Latest(p, s, a)], p.maxSize)
  {
    LookupFinds(s, a.key);
    WithoutTwice(s, a.key);
    if Lookup(s, a.key).Some? {
      RefreshKeepsValid(s, Lookup(s, a.key).value);
    } else {
      WithoutLength(s, a.key);
    }
  }

  lemma StepKeepsValid(p: CachePolicy, s: seq<Entry<()>>, a: Ask)
    requires ValidStore(p, s)
    ensures ValidStore(p, Step(p, s, a))
  {
    GetKeepsValid(p, s, a.key, a.readAt);
    SetKeepsValid(p, AfterGet(s, a.key, a.readAt), a.key, (), a.writtenAt);
  }

  lemma {:induction false} LookupLast<V>(s: seq<Entry<V>>, e: Entry<V>, key: string)
    ensures Lookup(s + [e], key) == if Has(s, key) then Lookup(s, key) else if e.key == key then Some(e) else None
  {
    if s == [] {
      assert s + [e] == [e] && [e][1..] == [];
    } else {
      assert (s + [e])[0] == s[0] && (s + [e])[1..] == s[1..] + [e];
      LookupLast(s[1..], e, key);
    }
  }

  lemma {:induction false} WithoutIsSub<V>(s: seq<Entry<V>>, key: string)
    ensures Sub(Without(s, key), s)
  {
    if s != [] {
      WithoutIsSub(s[1..], key);
      if s[0].key != key {
        assert Without(s, key)[1..] == Without(s[1..], key);
      } else {
        assert Without(s, key) == Without(s[1..], key);
      }
    }
  }

  lemma {:induction false} SuffixIsSub<V>(s: seq<Entry<V>>, n: nat)
    requires n <= |s|
    ensures Sub(s[n..], s)
  {
    if n == 0 {
      SubItself(s);
      assert s[0..] == s;
    } else {
      SuffixIsSub(s[1..], n - 1);
      assert s[n..] == s[1..][n - 1..];
    }
  }

  lemma {:induction false} SubItself<V>(s: seq<Entry<V>>)
    ensures Sub(s, s)
  {
    if s != [] {
      SubItself(s[1..]);
    }
  }

  // After a good call its key leads to the latest entry, and every other key to the entry
  // it led to before, if to any.
  lemma GoodStepLookups(p: CachePolicy, s: seq<Entry<()>>, a: Ask, key: string)
    requires ValidStore(p, s) && a.good
    ensures var r := Step(p, s, a);
            && (p.Enabled() ==> Lookup(r, a.key) == Some(Latest(p, s, a)))
            && (key != a.key && Has(r, key) ==> Has(s, key) && Lookup(r, key) == Lookup(s, key))
            && (!p.Enabled() ==> r == [])
  {
    if p.Enabled() {
      GoodStep(p, s, a);
      LookupFinds(s, a.key);
      var x := Latest(p, s, a);
      var rest := Without(s, a.key);
      var grown := rest + [x];
      RefreshKeepsValid(s, x);
      HasWithout(s, a.key, a.key);
      LookupLast(rest, x, a.key);
      var r := Evict(grown, p.maxSize);
      var cut := if |grown| > p.maxSize then |grown| - p.maxSize else 0;
      assert r == grown[cut..];
      SuffixIsSub(grown, cut);
      hide Sub, Without, Evict, Latest, Step;
      LastIsIn(r, x);
      SameLookup(r, grown, a.key);
      if key != a.key && Has(r, key) {
        SameLookup(r, grown, key);
        HasSnoc(rest, x, key);
        LookupLast(rest, x, key);
        WithoutIsSub(s, a.key);
        SameLookup(rest, s, key);
      }
    }
  }

  lemma {:induction false} LastIsIn<V>(s: seq<Entry<V>>, x: Entry<V>)
    requires s != [] && s[|s| - 1] == x
    ensures Has(s, x.key)
  {
    if |s| > 1 {
      LastIsIn(s[1..], x);
    }
  }

  // A failing call whose key is not stored changes nothing.
  lemma BadStep(p: CachePolicy, s: seq<Entry<()>>, a: Ask)
    requires !a.good && !Has(s, a.key)
    ensures Step(p, s, a) == s && HitOf(s, a.key, a.readAt).None?
  {
    LookupFinds(s, a.key);
  }

  // ---------- which keys are stored ----------

  // A store with its lifetimes left out.
  function Timeless(s: seq<Entry<()>>): seq<Entry<()>> {
    if s == [] then [] else [Entry(s[0].key, (), None)] + Timeless(s[1..])
  }

  function Forever(p: CachePolicy): CachePolicy {
    CachePolicy(p.maxSize, None)
  }

  lemma {:induction false} TimelessParts(s: seq<Entry<()>>, key: string)
    ensures |Timeless(s)| == |s|
    ensures Without(Timeless(s), key) == Timeless(Without(s, key))
    ensures Has(Timeless(s), key) <==> Has(s, key)
  {
    if s != [] {
      TimelessParts(s[1..], key);
      var e := Entry(s[0].key, (), None);
      assert Timeless(s) == [e] + Timeless(s[1..]) && Timeless(s)[1..] == Timeless(s[1..]);
      if s[0].key == key {
        assert Without(s, key) == Without(s[1..], key);
        assert Without(Timeless(s), key) == Without(Timeless(s[1..]), key);
      } else {
        assert Without(s, key)[0] == s[0] && Without(s, key)[1..] == Without(s[1..], key);
      }
    }
  }

  lemma {:induction false} TimelessConcat(s: seq<Entry<()>>, t: seq<Entry<()>>)
    ensures Timeless(s + t) == Timeless(s) + Timeless(t)
  {
    if s == [] {
      assert s + t == t;
    } else {
      assert (s + t)[1..] == s[1..] + t;
      TimelessConcat(s[1..], t);
    }
  }

  lemma {:induction false} TimelessSuffix(s: seq<Entry<()>>, n: nat)
    requires n <= |s|
    ensures |Timeless(s)| == |s| && Timeless(s)[n..] == Timeless(s[n..])
  {
    TimelessParts(s, "");
    if n > 0 {
      TimelessSuffix(s[1..], n - 1);
      assert Timeless(s)[n..] == Timeless(s[1..])[n - 1..] && s[n..] == s[1..][n - 1..];
    }
  }

  lemma TimelessOne(x: Entry<()>)
    ensures Timeless([x]) == [Entry(x.key, (), None)]
  {
    assert [x][1..] == [];
  }

  lemma TimelessEvict(s: seq<Entry<()>>, max: nat)
    ensures Timeless(Evict(s, max)) == Evict(Timeless(s), max)
  {
    hide Timeless;
    TimelessParts(s, "");
    if |s| > max {
      TimelessSuffix(s, |s| - max);
    }
  }

  lemma TimelessPut(p: CachePolicy, s: seq<Entry<()>>, x: Entry<()>)
    requires p.Enabled()
    ensures Timeless(Evict(Without(s, x.key) + [x], p.maxSize)) == AfterSet(Forever(p), Timeless(s), x.key, (), 0.0)
  {
    hide Timeless, Without, Evict;
    var rest := Without(s, x.key);
    TimelessParts(s, x.key);
    TimelessConcat(rest, [x]);
    TimelessOne(x);
    TimelessEvict(rest + [x], p.maxSize);
  }

  // A good call, seen by keys alone, puts its key.
  lemma GoodStepPuts(p: CachePolicy, s: seq<Entry<()>>, a: Ask)
    requires ValidStore(p, s) && a.good
    ensures Timeless(Step(p, s, a)) == AfterSet(Forever(p), Timeless(s), a.key, (), 0.0)
  {
    hide Step, AfterSet, Timeless;
    if p.Enabled() {
      GoodStep(p, s, a);
      LookupFinds(s, a.key);
      TimelessPut(p, s, Latest(p, s, a));
    } else {
      GoodStepLookups(p, s, a, a.key);
      assert s == [];
      NothingPut(p, a.key);
    }
  }

  lemma NothingPut(p: CachePolicy, key: string)
    requires !p.Enabled()
    ensures Timeless([]) == AfterSet(Forever(p), Timeless([]), key, (), 0.0)
  {
  }

  // ---------- keys that always succeed or always fail ----------

  ghost predicate Lead(small: CachePolicy, large: CachePolicy, s: seq<Entry<()>>, l: seq<Entry<()>>) {
    && ValidStore(small, s) && ValidStore(large, l)
    && Included(Forever(small), Forever(large), Timeless(s), Timeless(l))
  }

  lemma LeadHas(small: CachePolicy, large: CachePolicy, s: seq<Entry<()>>, l: seq<Entry<()>>, key: string)
    requires Lead(small, large, s, l) && Has(s, key)
    ensures Has(l, key)
  {
    TimelessParts(s, key);
    TimelessParts(l, key);
    SameLookup(Timeless(s), Timeless(l), key);
  }

  lemma LeadStays(small: CachePolicy, large: CachePolicy, s: seq<Entry<()>>, l: seq<Entry<()>>, a: Ask)
    requires Comparable(small, large) && Lead(small, large, s, l) && a.good
    ensures Lead(small, large, Step(small, s, a), Step(large, l, a))
  {
    hide Included, AfterSet, Step;
    StepKeepsValid(small, s, a);
    StepKeepsValid(large, l, a);
    GoodStepPuts(small, s, a);
    GoodStepPuts(large, l, a);
    SetIncluded(Forever(small), Forever(large), Timeless(s), Timeless(l), a.key, (), 0.0);
  }

  // Key by key: the larger cache has run the function at most as often, and where it has
  // run it as often, what is live behind the smaller one is live behind the larger one.
  ghost predicate KeyInStep(
      ttl: real, s: seq<Entry<()>>, l: seq<Entry<()>>, less: multiset<string>, more: multiset<string>, now: real,
      key: string)
  {
    && less[key] <= more[key]
    && (Has(s, key) ==> Lookup(s, key).Some? && Until(Lookup(s, key).value) <= now + ttl)
    && (Has(s, key) && less[key] == more[key] ==>
          Lookup(l, key).Some? && Until(Lookup(s, key).value) <= Until(Lookup(l, key).value))
  }

  // The end of an entry's life.
  function Until(e: Entry<()>): real {
    if e.expiresAt.Some? then e.expiresAt.value else 0.0
  }

  ghost predicate Mortal(s: seq<Entry<()>>) {
    forall key :: Lookup(s, key).Some? ==> Lookup(s, key).value.expiresAt.Some?
  }

  lemma StaysMortal(p: CachePolicy, s: seq<Entry<()>>, a: Ask)
    requires ValidStore(p, s) && p.ttl.Some? && Mortal(s) && a.good
    ensures Mortal(Step(p, s, a))
  {
    hide Step;
    forall key | Lookup(Step(p, s, a), key).Some? ensures Lookup(Step(p, s, a), key).value.expiresAt.Some? {
      LookupFinds(Step(p, s, a), key);
      GoodStepLookups(p, s, a, key);
    }
  }

  // One good call keeps every key in step.
  lemma GoodCallKeepsInStep(
      small: CachePolicy, large: CachePolicy, s: seq<Entry<()>>, l: seq<Entry<()>>, less: multiset<string>,
      more: multiset<string>, now: real, a: Ask, key: string)
    requires Comparable(small, large) && small.ttl.Some? && Lead(small, large, s, l) && a.good
    requires Mortal(s) && Mortal(l) && now <= a.readAt <= a.writtenAt
    requires KeyInStep(small.ttl.value, s, l, less, more, now, key)
    ensures var less' := less + if HitOf(l, a.key, a.readAt).None? then multiset{a.key} else multiset{};
            var more' := more + if HitOf(s, a.key, a.readAt).None? then multiset{a.key} else multiset{};
            KeyInStep(small.ttl.value, Step(small, s, a), Step(large, l, a), less', more', a.writtenAt, key)
  {
    hide Step, Lead, Sub, Included;
    var s', l' := Step(small, s, a), Step(large, l, a);
    assert ValidStore(small, s) && ValidStore(large, l) by { LeadIsValid(small, large, s, l); }
    GoodStepLookups(small, s, a, key);
    GoodStepLookups(large, l, a, key);
    LookupFinds(s, key);
    LookupFinds(s', key);
    LookupFinds(l', key);
    LeadStays(small, large, s, l, a);
    if Has(s', key) {
      LeadHas(small, large, s', l', key);
    }
    if key == a.key && Has(s, key) {
      LeadHas(small, large, s, l, key);
    }
  }

  lemma LeadIsValid(small: CachePolicy, large: CachePolicy, s: seq<Entry<()>>, l: seq<Entry<()>>)
    requires Lead(small, large, s, l)
    ensures ValidStore(small, s) && ValidStore(large, l)
  {
  }

  // Whether a call succeeds depends on its key.
  ghost predicate Fated(asks: seq<Ask>, good: iset<string>) {
    forall i :: 0 <= i < |asks| ==> (asks[i].good <==> asks[i].key in good)
  }

  function Clock(asks: seq<Ask>, n: nat): real
    requires n <= |asks|
  {
    if n > 0 then asks[n - 1].writtenAt else if asks == [] then 0.0 else asks[0].readAt
  }

  ghost predicate InStep(small: CachePolicy, large: CachePolicy, asks: seq<Ask>, good: iset<string>, n: nat)
    requires n <= |asks| && small.ttl.Some?
  {
    var s, l := StoreOn(small, asks, n), StoreOn(large, asks, n);
    && Lead(small, large, s, l) && Mortal(s) && Mortal(l)
    && (forall key :: Has(l, key) ==> key in good)
    && var less, more, now := RunKeys(large, asks, n), RunKeys(small, asks, n), Clock(asks, n);
       forall key :: KeyInStep(small.ttl.value, s, l, less, more, now, key)
  }

  lemma GoodAskKeepsInStep(small: CachePolicy, large: CachePolicy, asks: seq<Ask>, good: iset<string>, n: nat)
    requires Comparable(small, large) && small.ttl.Some? && Ordered(asks) && Fated(asks, good)
    requires n < |asks| && asks[n].good && InStep(small, large, asks, good, n)
    ensures InStep(small, large, asks, good, n + 1)
  {
    hide Step, Lead, Mortal, KeyInStep, HitOf;
    var s, l, a := StoreOn(small, asks, n), StoreOn(large, asks, n), asks[n];
    LeadIsValid(small, large, s, l);
    LeadStays(small, large, s, l, a);
    StaysMortal(small, s, a);
    StaysMortal(large, l, a);
    forall key | Has(Step(large, l, a), key) ensures key in good {
      GoodStepLookups(large, l, a, key);
    }
    var s', l', ttl := Step(small, s, a), Step(large, l, a), small.ttl.value;
    var less', more' := RunKeys(large, asks, n + 1), RunKeys(small, asks, n + 1);
    forall key ensures KeyInStep(ttl, s', l', less', more', a.writtenAt, key) {
      GoodCallKeepsInStep(small, large, s, l, RunKeys(large, asks, n), RunKeys(small, asks, n), Clock(asks, n), a, key);
    }
  }

  lemma BadAskKeepsInStep(small: CachePolicy, large: CachePolicy, asks: seq<Ask>, good: iset<string>, n: nat)
    requires Comparable(small, large) && small.ttl.Some? && Ordered(asks) && Fated(asks, good)
    requires n < |asks| && !asks[n].good && InStep(small, large, asks, good, n)
    ensures InStep(small, large, asks, good, n + 1)
  {
    hide Step, Lead, Mortal, Included;
    var s, l, a := StoreOn(small, asks, n), StoreOn(large, asks, n), asks[n];
    assert !Has(l, a.key);
    if Has(s, a.key) {
      LeadHas(small, large, s, l, a.key);
    }
    BadStep(small, s, a);
    BadStep(large, l, a);
    assert Clock(asks, n) <= a.readAt;
    var ttl, less', more' := small.ttl.value, RunKeys(large, asks, n + 1), RunKeys(small, asks, n + 1);
    forall key ensures KeyInStep(ttl, s, l, less', more', a.writtenAt, key) {
      assert KeyInStep(small.ttl.value, s, l, RunKeys(large, asks, n), RunKeys(small, asks, n), Clock(asks, n), key);
    }
  }

  lemma StartsInStep(small: CachePolicy, large: CachePolicy, asks: seq<Ask>, good: iset<string>)
    requires Comparable(small, large) && small.ttl.Some?
    ensures InStep(small, large, asks, good, 0)
  {
    hide Clock;
    assert Lead(small, large, [], []);
    assert Mortal([]);
    forall key ensures KeyInStep(small.ttl.value, [], [], multiset{}, multiset{}, Clock(asks, 0), key) {
      assert !Has<()>([], key);
    }
  }

  lemma {:induction false} AlwaysInStep(
      small: CachePolicy, large: CachePolicy, asks: seq<Ask>, good: iset<string>, n: nat)
    requires Comparable(small, large) && small.ttl.Some? && Ordered(asks) && Fated(asks, good) && n <= |asks|
    ensures InStep(small, large, asks, good, n)
  {
    hide InStep;
    if n == 0 {
      StartsInStep(small, large, asks, good);
    } else {
      AlwaysInStep(small, large, asks, good, n - 1);
      if asks[n - 1].good {
        GoodAskKeepsInStep(small, large, asks, good, n - 1);
      } else {
        BadAskKeepsInStep(small, large, asks, good, n - 1);
      }
    }
  }

  lemma FewerOfEach(less: multiset<string>, more: multiset<string>)
    requires forall key :: less[key] <= more[key]
    ensures less <= more && |less| <= |more|
  {
    assert more == less + (more - less);
  }

  // Where each key always succeeds or always fails, the larger cache runs the function no
  // more often under any key, whatever the lifetime, while the clock does not go back.
  lemma FatedKeysRunLess(small: CachePolicy, large: CachePolicy, asks: seq<Ask>, good: iset<string>, n: nat)
    requires Comparable(small, large) && small.ttl.Some? && Ordered(asks) && Fated(asks, good) && n <= |asks|
    ensures RunKeys(large, asks, n) <= RunKeys(small, asks, n)
    ensures |RunKeys(large, asks, n)| <= |RunKeys(small, asks, n)|
  {
    hide Lead, Mortal;
    AlwaysInStep(small, large, asks, good, n);
    forall key ensures RunKeys(large, asks, n)[key] <= RunKeys(small, asks, n)[key] {
      assert KeyInStep(small.ttl.value, StoreOn(small, asks, n), StoreOn(large, asks, n), RunKeys(large, asks, n),
                       RunKeys(small, asks, n), Clock(asks, n), key);
    }
    FewerOfEach(RunKeys(large, asks, n), RunKeys(small, asks, n));
  }

  // ---------- one key that succeeds ----------

  lemma OneKeyStep(small: CachePolicy, large: CachePolicy, s: seq<Entry<()>>, a: Ask, only: string)
    requires Comparable(small, large) && small.Enabled()
    requires |s| <= 1 && (s != [] ==> s[0].key == only) && (a.good ==> a.key == only)
    ensures Step(small, s, a) == Step(large, s, a)
    ensures var r := Step(small, s, a); |r| <= 1 && (r != [] ==> r[0].key == only)
  {
    if s != [] {
      assert s == [s[0]] && s[1..] == [];
    }
  }

  // If only calls under one key ever succeed, enabled caches of any size do the same.
  lemma {:induction false} OneKeyRunsAlike(
      small: CachePolicy, large: CachePolicy, asks: seq<Ask>, only: string, n: nat)
    requires Comparable(small, large) && small.Enabled() && n <= |asks|
    requires forall i :: 0 <= i < |asks| && asks[i].good ==> asks[i].key == only
    ensures StoreOn(small, asks, n) == StoreOn(large, asks, n)
    ensures var s := StoreOn(small, asks, n); |s| <= 1 && (s != [] ==> s[0].key == only)
    ensures RunKeys(small, asks, n) == RunKeys(large, asks, n)
  {
    if n > 0 {
      hide Step, HitOf;
      OneKeyRunsAlike(small, large, asks, only, n - 1);
      OneKeyStep(small, large, StoreOn(small, asks, n - 1), asks[n - 1], only);
    }
  }

  // A disabled cache runs the function on every call.
  lemma {:induction false} DisabledRunsAlways(p: CachePolicy, asks: seq<Ask>, n: nat)
    requires !p.Enabled() && n <= |asks|
    ensures StoreOn(p, asks, n) == [] && |RunKeys(p, asks, n)| == n
  {
    if n > 0 {
      DisabledRunsAlways(p, asks, n - 1);
    }
  }

  lemma {:induction false} AtMostEveryCall(p: CachePolicy, asks: seq<Ask>, n: nat)
    requires n <= |asks|
    ensures |RunKeys(p, asks, n)| <= n
  {
    hide Missed;
    if n > 0 {
      AtMostEveryCall(p, asks, n - 1);
    }
  }

  // ---------- when a larger cache never runs the function more often ----------

  ghost predicate LargerRunsLess<A(!new), C(!new), V>(fn: (A, C) -> Outcome<V>, keyOf: A -> string) {
    forall small, large, calls: seq<Call<A, C>>, n: nat ::
      Comparable(small, large) && OnTime(calls) && n <= |calls| ==>
        Runs(fn, keyOf, large, calls, n) <= Runs(fn, keyOf, small, calls, n)
  }

  // Under one key calls both succeed and fail.
  ghost predicate Wavers<A(!new), C(!new), V>(fn: (A, C) -> Outcome<V>, keyOf: A -> string, key: string) {
    exists a: A, c: C, b: A, d: C :: Wavering(fn, keyOf, key, a, c, b, d)
  }

  ghost predicate Wavering<A, C, V>(
      fn: (A, C) -> Outcome<V>, keyOf: A -> string, key: string, a: A, c: C, b: A, d: C)
  {
    keyOf(a) == key == keyOf(b) && fn(a, c).Success? && fn(b, d).Failure?
  }

  ghost predicate Succeeds<A(!new), C(!new), V>(fn: (A, C) -> Outcome<V>, keyOf: A -> string, key: string) {
    exists a: A, c: C :: keyOf(a) == key && fn(a, c).Success?
  }

  // A key both succeeds and fails while another one succeeds.
  ghost predicate Unsettled<A(!new), C(!new), V>(fn: (A, C) -> Outcome<V>, keyOf: A -> string) {
    exists key, other: string :: key != other && Wavers(fn, keyOf, key) && Succeeds(fn, keyOf, other)
  }

  lemma OnTimeIsOrdered<A, C, V>(fn: (A, C) -> Outcome<V>, keyOf: A -> string, calls: seq<Call<A, C>>)
    requires OnTime(calls)
    ensures Ordered(AsksOf(fn, keyOf, calls))
  {
  }

  lemma SettledRunsLess<A(!new), C(!new), V>(
      fn: (A, C) -> Outcome<V>, keyOf: A -> string, small: CachePolicy, large: CachePolicy,
      calls: seq<Call<A, C>>, n: nat)
    requires !Unsettled(fn, keyOf) && Comparable(small, large) && OnTime(calls) && n <= |calls|
    ensures Runs(fn, keyOf, large, calls, n) <= Runs(fn, keyOf, small, calls, n)
  {
    hide Runs, Wavers, Succeeds, RunKeys;
    var asks := AsksOf(fn, keyOf, calls);
    CallsAsAsks(fn, keyOf, small, calls, n);
    CallsAsAsks(fn, keyOf, large, calls, n);
    OnTimeIsOrdered(fn, keyOf, calls);
    if small.ttl.None? {
      LargerCacheRunsLess(fn, keyOf, small, large, calls, n);
    } else if !small.Enabled() {
      DisabledRunsAlways(small, asks, n);
      AtMostEveryCall(large, asks, n);
    } else if only: string :| Wavers(fn, keyOf, only) {
      forall i | 0 <= i < |asks| && asks[i].good ensures asks[i].key == only {
        GoodAskSucceeds(fn, keyOf, calls[i]);
      }
      OneKeyRunsAlike(small, large, asks, only, n);
    } else {
      var good := iset key: string | Succeeds(fn, keyOf, key);
      forall i | 0 <= i < |asks| ensures asks[i].good <==> asks[i].key in good {
        KeyDecides(fn, keyOf, calls[i]);
      }
      FatedKeysRunLess(small, large, asks, good, n);
    }
  }

  lemma GoodAskSucceeds<A(!new), C(!new), V>(fn: (A, C) -> Outcome<V>, keyOf: A -> string, c: Call<A, C>)
    ensures AskOf(fn, keyOf, c).good ==> Succeeds(fn, keyOf, AskOf(fn, keyOf, c).key)
  {
  }

  lemma KeyDecides<A(!new), C(!new), V>(fn: (A, C) -> Outcome<V>, keyOf: A -> string, c: Call<A, C>)
    requires !Wavers(fn, keyOf, keyOf(c.args))
    ensures fn(c.args, c.context).Success? <==> Succeeds(fn, keyOf, keyOf(c.args))
  {
    var key := keyOf(c.args);
    if a: A, d: C :| keyOf(a) == key && fn(a, d).Success? {
      assert !Wavering(fn, keyOf, key, a, d, c.args, c.context);
    }
  }

  // ---------- and when it does ----------

  const SMALL := CachePolicy(1, Some(10.0))
  const LARGE := CachePolicy(2, Some(10.0))

  // The smaller cache drops the first result early, runs the function again, and so still
  // holds a live one when the larger cache's has expired and the function fails.
  function FiveAsks(key: string, other: string): seq<Ask> {
    [Ask(key, true, 0.0, 0.0), Ask(other, true, 1.0, 1.0), Ask(key, true, 5.0, 5.0),
     Ask(key, false, 12.0, 12.0), Ask(key, false, 12.0, 12.0)]
  }

  function Held(key: string, until: real): Entry<()> {
    Entry(key, (), Some(until))
  }

  lemma NextStore(p: CachePolicy, asks: seq<Ask>, n: nat, s: seq<Entry<()>>, r: seq<Entry<()>>)
    requires n < |asks| && StoreOn(p, asks, n) == s && Step(p, s, asks[n]) == r
    ensures StoreOn(p, asks, n + 1) == r
    ensures |RunKeys(p, asks, n + 1)|
         == |RunKeys(p, asks, n)| + if HitOf(s, asks[n].key, asks[n].readAt).None? then 1 else 0
  {
  }

  lemma OneLookup(x: Entry<()>, key: string)
    ensures Lookup([x], key) == if x.key == key then Some(x) else None
    ensures Without([x], key) == if x.key == key then [] else [x]
  {
    assert [x][1..] == [];
  }

  lemma PairLookup(x: Entry<()>, y: Entry<()>, key: string)
    requires x.key != y.key
    ensures Lookup([x, y], key) == if x.key == key then Some(x) else Lookup([y], key)
    ensures Without([x, y], key) == (if x.key == key then [] else [x]) + Without([y], key)
    ensures Lookup([x], key) == if x.key == key then Some(x) else None
    ensures Without([x], key) == if x.key == key then [] else [x]
    ensures Lookup([y], key) == if y.key == key then Some(y) else None
    ensures Without([y], key) == if y.key == key then [] else [y]
  {
    OneLookup(x, key);
    OneLookup(y, key);
    assert [x, y][1..] == [y];
  }

  lemma SmallRuns(key: string, other: string)
    requires key != other
    ensures |RunKeys(SMALL, FiveAsks(key, other), 5)| == 3
  {
    var asks := FiveAsks(key, other);
    var a, b, c := Held(key, 10.0), Held(other, 11.0), Held(key, 15.0);
    PairLookup(a, b, key);
    PairLookup(a, b, other);
    PairLookup(b, c, key);
    PairLookup(b, c, other);
    NextStore(SMALL, asks, 0, [], [a]);
    assert [a, b][1..] == [b] && [b, c][1..] == [c];
    NextStore(SMALL, asks, 1, [a], [b]);
    NextStore(SMALL, asks, 2, [b], [c]);
    NextStore(SMALL, asks, 3, [c], [c]);
    NextStore(SMALL, asks, 4, [c], [c]);
  }

  lemma LargeRuns(key: string, other: string)
    requires key != other
    ensures |RunKeys(LARGE, FiveAsks(key, other), 5)| == 4
  {
    var asks := FiveAsks(key, other);
    var a, b := Held(key, 10.0), Held(other, 11.0);
    PairLookup(a, b, key);
    PairLookup(a, b, other);
    PairLookup(b, a, key);
    NextStore(LARGE, asks, 0, [], [a]);
    NextStore(LARGE, asks, 1, [a], [a, b]);
    NextStore(LARGE, asks, 2, [a, b], [b, a]);
    NextStore(LARGE, asks, 3, [b, a], [b]);
    NextStore(LARGE, asks, 4, [b], [b]);
  }

  lemma FiveCallsRunMore<A(!new), C(!new), V>(
      fn: (A, C) -> Outcome<V>, keyOf: A -> string, key: string, a: A, c: C, b: A, d: C, x: A, y: C)
    requires Wavering(fn, keyOf, key, a, c, b, d) && keyOf(x) != key && fn(x, y).Success?
    ensures !LargerRunsLess(fn, keyOf)
  {
    hide Runs, RunKeys, StoreAfterCalls, StoreOn;
    var calls := [Call(a, c, 0.0, 0.0), Call(x, y, 1.0, 1.0), Call(a, c, 5.0, 5.0), Call(b, d, 12.0, 12.0),
                  Call(b, d, 12.0, 12.0)];
    var asks := AsksOf(fn, keyOf, calls);
    assert asks == [asks[0], asks[1], asks[2], asks[3], asks[4]];
    assert asks == FiveAsks(key, keyOf(x));
    CallsAsAsks(fn, keyOf, SMALL, calls, 5);
    CallsAsAsks(fn, keyOf, LARGE, calls, 5);
    SmallRuns(key, keyOf(x));
    LargeRuns(key, keyOf(x));
    assert OnTime(calls);
    assert Runs(fn, keyOf, LARGE, calls, 5) > Runs(fn, keyOf, SMALL, calls, 5);
  }

  lemma UnsettledRunsMore<A(!new), C(!new), V>(fn: (A, C) -> Outcome<V>, keyOf: A -> string)
    requires Unsettled(fn, keyOf)
    ensures !LargerRunsLess(fn, keyOf)
  {
    hide LargerRunsLess, Wavering;
    var key, other: string :| key != other && Wavers(fn, keyOf, key) && Succeeds(fn, keyOf, other);
    var a: A, c: C, b: A, d: C :| Wavering(fn, keyOf, key, a, c, b, d);
    var x: A, y: C :| keyOf(x) == other && fn(x, y).Success?;
    FiveCallsRunMore(fn, keyOf, key, a, c, b, d, x, y);
  }

  // Over all sizes, lifetimes and calls whose clock does not go back, the larger cache
  // never runs the function more often exactly when no key both succeeds and fails while
  // another one succeeds.
  lemma LargerRunsLessExactly<A(!new), C(!new), V>(fn: (A, C) -> Outcome<V>, keyOf: A -> string)
    ensures LargerRunsLess(fn, keyOf) <==> !Unsettled(fn, keyOf)
  {
    hide Unsettled, Runs;
    if Unsettled(fn, keyOf) {
      UnsettledRunsMore(fn, keyOf);
    } else {
      forall small, large, calls: seq<Call<A, C>>, n: nat
        | Comparable(small, large) && OnTime(calls) && n <= |calls|
        ensures Runs(fn, keyOf, large, calls, n) <= Runs(fn, keyOf, small, calls, n)
      {
        SettledRunsLess(fn, keyOf, small, large, calls, n);
      }
    }
  }
}
