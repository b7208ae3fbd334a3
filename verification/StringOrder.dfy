/** Python's order on strings, by code point, and sorting distinct strings by it. */
module StringOrder {
  predicate AtMost(a: string, b: string) {
    a == "" || (b != "" && (a[0] < b[0] || (a[0] == b[0] && AtMost(a[1..], b[1..]))))
  }

  lemma {:induction false} AtMostOrders(a: string, b: string, c: string)
    ensures AtMost(a, b) || AtMost(b, a)
    ensures AtMost(a, b) && AtMost(b, a) ==> a == b
    ensures AtMost(a, b) && AtMost(b, c) ==> AtMost(a, c)
  {
    if a != "" && b != "" {
      if c != "" {
        AtMostOrders(a[1..], b[1..], c[1..]);
      } else {
        AtMostOrders(a[1..], b[1..], "");
      }
      assert a == [a[0]] + a[1..] && b == [b[0]] + b[1..];
    }
  }

  // No element comes before this one.
  predicate IsLeast(keys: set<string>, k: string) {
    k in keys && forall j :: j in keys ==> AtMost(k, j)
  }

  lemma {:induction false} LeastExists(keys: set<string>)
    requires keys != {}
    ensures exists k :: IsLeast(keys, k)
  {
    var any :| any in keys;
    if keys == {any} {
      AtMostOrders(any, any, any);
      assert IsLeast(keys, any);
    } else {
      LeastExists(keys - {any});
      var rest :| IsLeast(keys - {any}, rest);
      var least := if AtMost(any, rest) then any else rest;
      forall j | j in keys ensures AtMost(least, j) {
        AtMostOrders(any, rest, j);
        AtMostOrders(any, any, any);
      }
      assert IsLeast(keys, least);
    }
  }

  lemma LeastIsUnique(keys: set<string>)
    ensures forall a, b :: IsLeast(keys, a) && IsLeast(keys, b) ==> a == b
  {
    forall a, b | IsLeast(keys, a) && IsLeast(keys, b) ensures a == b {
      AtMostOrders(a, b, b);
    }
  }

  // The one ascending listing of the keys.
  function InOrder(keys: set<string>): (r: seq<string>)
    ensures forall k :: k in r <==> k in keys
    ensures forall i, j :: 0 <= i < j < |r| ==> AtMost(r[i], r[j]) && r[i] != r[j]
  {
    if keys == {} then []
    else
      LeastExists(keys);
      LeastIsUnique(keys);
      var least :| IsLeast(keys, least);
      var rest := InOrder(keys - {least});
      assert forall j :: 0 <= j < |rest| ==> rest[j] in rest;
      [least] + rest
  }
}
