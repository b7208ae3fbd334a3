/** Lists picked out of another, and lists put together. */
module Lists {
  import opened Wrappers

  // ---------- the elements that pass a test, in their order ----------

  // `kept` is what stands at these places of `all`, which are those that pass.
  ghost predicate SelectedAt<T(!new)>(all: seq<T>, kept: seq<T>, passes: T -> bool, places: seq<nat>) {
    && |places| == |kept|
    && (forall i :: 0 <= i < |places| ==> places[i] < |all| && kept[i] == all[places[i]])
    && (forall i, j :: 0 <= i < j < |places| ==> places[i] < places[j])
    && (forall p: nat :: p in places <==> p < |all| && passes(all[p]))
  }

  ghost predicate Selects<T(!new)>(all: seq<T>, kept: seq<T>, passes: T -> bool) {
    exists places :: SelectedAt(all, kept, passes, places)
  }

  lemma SelectsNothing<T(!new)>(all: seq<T>, kept: seq<T>, passes: T -> bool)
    requires all == [] && kept == []
    ensures Selects(all, kept, passes)
  {
    assert SelectedAt(all, kept, passes, []);
  }

  lemma SelectsOneMore<T(!new)>(all: seq<T>, kept: seq<T>, passes: T -> bool, last: T)
    requires Selects(all, kept, passes)
    ensures Selects(all + [last], if passes(last) then kept + [last] else kept, passes)
  {
    var places :| SelectedAt(all, kept, passes, places);
    if passes(last) {
      PlaceOneMore(all, kept, passes, last, places);
    } else {
      PlaceNoMore(all, kept, passes, last, places);
    }
  }

  lemma PlaceOneMore<T(!new)>(all: seq<T>, kept: seq<T>, passes: T -> bool, last: T, places: seq<nat>)
    requires SelectedAt(all, kept, passes, places) && passes(last)
    ensures SelectedAt(all + [last], kept + [last], passes, places + [|all|])
  {
    var longer, more := all + [last], places + [|all|];
    forall i | 0 <= i < |places| ensures places[i] < |all| {
      assert places[i] in places;
    }
    forall p: nat ensures p in more <==> p < |longer| && passes(longer[p]) {
      assert p in more <==> p in places || p == |all|;
    }
  }

  lemma PlaceNoMore<T(!new)>(all: seq<T>, kept: seq<T>, passes: T -> bool, last: T, places: seq<nat>)
    requires SelectedAt(all, kept, passes, places) && !passes(last)
    ensures SelectedAt(all + [last], kept, passes, places)
  {
  }

  // ---------- one list after another ----------

  // `whole` is the parts put one after the other.
  ghost predicate Strung<T>(parts: seq<seq<T>>, whole: seq<T>) {
    if parts == [] then whole == []
    else parts[0] <= whole && Strung(parts[1..], whole[|parts[0]|..])
  }

  lemma {:induction false} StrungSnoc<T>(parts: seq<seq<T>>, whole: seq<T>, last: seq<T>)
    requires Strung(parts, whole)
    ensures Strung(parts + [last], whole + last)
  {
    var all := parts + [last];
    if parts == [] {
      assert all == [last] && whole + last == last;
      assert last[|last|..] == [] && [last][1..] == [];
      assert Strung([last][1..], last[|last|..]);
    } else {
      assert all[0] == parts[0] && all[1..] == parts[1..] + [last];
      assert whole + last == parts[0] + (whole[|parts[0]|..] + last);
      assert (whole + last)[|parts[0]|..] == whole[|parts[0]|..] + last;
      StrungSnoc(parts[1..], whole[|parts[0]|..], last);
    }
  }

  // ---------- the last of what was given ----------

  ghost predicate LastAt<T>(xs: seq<Option<T>>, i: int, x: T) {
    0 <= i < |xs| && xs[i] == Some(x) && forall j :: i < j < |xs| ==> xs[j] == None
  }

  // The last that was given, if any was.
  ghost predicate LastGiven<T>(xs: seq<Option<T>>, last: Option<T>) {
    match last
    case None => forall i :: 0 <= i < |xs| ==> xs[i] == None
    case Some(x) => exists i :: LastAt(xs, i, x)
  }

  lemma LastGivenSnoc<T>(xs: seq<Option<T>>, last: Option<T>, x: Option<T>)
    requires LastGiven(xs, last)
    ensures LastGiven(xs + [x], if x.Some? then x else last)
  {
    if x.Some? {
      assert LastAt(xs + [x], |xs|, x.value);
    } else if last.Some? {
      var i :| LastAt(xs, i, last.value);
      assert LastAt(xs + [x], i, last.value);
    }
  }
}
