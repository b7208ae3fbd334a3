/** Splitting a string at slashes, as Python's `split("/")` does. */
module Strings {
  function Split(s: string): (parts: seq<string>)
    ensures parts != []
  {
    if s == "" then [""]
    else
      var rest := Split(s[1..]);
      if s[0] == '/' then [""] + rest else [[s[0]] + rest[0]] + rest[1..]
  }

  // The inverse: the parts with a slash between neighbours.
  function Joined(parts: seq<string>): string
    requires parts != []
  {
    if |parts| == 1 then parts[0] else parts[0] + "/" + Joined(parts[1..])
  }

  lemma {:induction false} SplitPlain(s: string)
    ensures |Split(s)| == 1 <==> '/' !in s
    ensures '/' !in s ==> Split(s) == [s]
  {
    if s != "" {
      SplitPlain(s[1..]);
      assert s == [s[0]] + s[1..];
    }
  }

  lemma {:induction false} SplitConcat(a: string, b: string)
    ensures Split(a + "/" + b) == Split(a) + Split(b)
  {
    var s := a + "/" + b;
    if a == "" {
      assert s == "/" + b;
      assert s[1..] == b;
    } else {
      assert s[1..] == a[1..] + "/" + b;
      SplitConcat(a[1..], b);
    }
  }

  function Extended(parts: seq<string>, suffix: string): (r: seq<string>)
    requires parts != []
    ensures r != []
  {
    parts[..|parts| - 1] + [parts[|parts| - 1] + suffix]
  }

  // Putting text after a string extends the last of its parts.
  lemma {:induction false} SplitSuffix(s: string, suffix: string)
    requires '/' !in suffix
    ensures Split(s + suffix) == Extended(Split(s), suffix)
  {
    if s == "" {
      assert s + suffix == suffix;
      SplitPlain(suffix);
      assert "" + suffix == suffix;
    } else {
      assert (s + suffix)[1..] == s[1..] + suffix;
      SplitSuffix(s[1..], suffix);
      LastExtended(s[0], Split(s[1..]), suffix);
    }
  }

  lemma LastExtended(c: char, rest: seq<string>, suffix: string)
    requires rest != []
    ensures [""] + Extended(rest, suffix) == Extended([""] + rest, suffix)
    ensures var r := Extended(rest, suffix);
            [[c] + r[0]] + r[1..] == Extended([[c] + rest[0]] + rest[1..], suffix)
  {
    if |rest| == 1 {
      assert [c] + (rest[0] + suffix) == [c] + rest[0] + suffix;
    }
  }

  // Joining undoes splitting.
  lemma {:induction false} JoinedSplit(s: string)
    ensures Joined(Split(s)) == s
  {
    if s != "" {
      JoinedSplit(s[1..]);
      var rest := Split(s[1..]);
      assert s == [s[0]] + s[1..];
      if s[0] == '/' {
        assert Split(s) == [""] + rest && Split(s)[1..] == rest;
        assert Joined(Split(s)) == "" + "/" + Joined(rest);
      } else {
        JoinedHead(s[0], rest);
      }
    }
  }

  lemma JoinedHead(c: char, parts: seq<string>)
    requires parts != []
    ensures Joined([[c] + parts[0]] + parts[1..]) == [c] + Joined(parts)
  {
    var longer := [[c] + parts[0]] + parts[1..];
    assert longer[1..] == parts[1..];
    if |parts| > 1 {
      assert [c] + parts[0] + "/" + Joined(parts[1..]) == [c] + (parts[0] + "/" + Joined(parts[1..]));
    }
  }

  // And splitting undoes joining, when no part has a slash.
  lemma {:induction false} SplitJoined(parts: seq<string>)
    requires parts != [] && forall part :: part in parts ==> '/' !in part
    ensures Split(Joined(parts)) == parts
  {
    SplitPlain(parts[0]);
    if |parts| > 1 {
      SplitJoined(parts[1..]);
      SplitConcat(parts[0], Joined(parts[1..]));
    }
  }

  lemma {:induction false} JoinedChars(parts: seq<string>, c: char)
    requires parts != [] && c != '/' && forall part :: part in parts ==> c !in part
    ensures c !in Joined(parts)
  {
    if |parts| > 1 {
      JoinedChars(parts[1..], c);
    }
  }

  lemma {:induction false} PartsHaveNoSlash(s: string, part: string)
    requires part in Split(s)
    ensures '/' !in part
  {
    if s != "" {
      var rest := Split(s[1..]);
      if s[0] != '/' && part == [s[0]] + rest[0] {
        PartsHaveNoSlash(s[1..], rest[0]);
      } else if part != "" {
        assert part in rest;
        PartsHaveNoSlash(s[1..], part);
      }
    }
  }
}
