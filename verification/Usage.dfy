/** Token counters (`providers/usage.py`) and the optional addition that both the
    agent loop and the runtime outcomes use to accumulate them. A counter the
    provider did not report is None, which is not the same as zero. */
module Usage {
  import opened Wrappers

  datatype TokenUsage = TokenUsage(
    input: Option<int>,
    output: Option<int>,
    cacheRead: Option<int>,
    cacheCreation: Option<int>)

  const NO_USAGE := TokenUsage(None, None, None, None)

  function OrZero(a: Option<int>): int {
    if a.Some? then a.value else 0
  }

  function AddOptional(a: Option<int>, b: Option<int>): Option<int> {
    if a.None? && b.None? then None else Some(OrZero(a) + OrZero(b))
  }

  function MergeTokens(left: TokenUsage, right: TokenUsage): TokenUsage {
    TokenUsage(
      AddOptional(left.input, right.input),
      AddOptional(left.output, right.output),
      AddOptional(left.cacheRead, right.cacheRead),
      AddOptional(left.cacheCreation, right.cacheCreation))
  }

  // The counter the token budget is checked against.
  function TokenTotal(u: TokenUsage): int {
    OrZero(u.input) + OrZero(u.output)
  }

  // What accumulating a list of reports, oldest first, arrives at.
  function TotalUsage(reports: seq<TokenUsage>): TokenUsage {
    if reports == [] then NO_USAGE
    else MergeTokens(TotalUsage(reports[..|reports| - 1]), reports[|reports| - 1])
  }

  lemma MergeIdentity(u: TokenUsage)
    ensures MergeTokens(NO_USAGE, u) == u == MergeTokens(u, NO_USAGE)
  {
  }

  lemma MergeAssociative(a: TokenUsage, b: TokenUsage, c: TokenUsage)
    ensures MergeTokens(MergeTokens(a, b), c) == MergeTokens(a, MergeTokens(b, c))
  {
  }

  lemma {:induction false} TotalUsageConcat(xs: seq<TokenUsage>, ys: seq<TokenUsage>)
    ensures TotalUsage(xs + ys) == MergeTokens(TotalUsage(xs), TotalUsage(ys))
  {
    if ys == [] {
      assert xs + ys == xs;
    } else {
      var front, last := ys[..|ys| - 1], ys[|ys| - 1];
      assert (xs + ys)[..|xs + ys| - 1] == xs + front;
      TotalUsageConcat(xs, front);
      MergeAssociative(TotalUsage(xs), TotalUsage(front), last);
    }
  }

  lemma AddFirstReport(before: TokenUsage, report: TokenUsage, rest: seq<TokenUsage>)
    ensures MergeTokens(before, TotalUsage([report] + rest))
         == MergeTokens(MergeTokens(before, report), TotalUsage(rest))
  {
    TotalUsageConcat([report], rest);
    MergeIdentity(report);
    assert TotalUsage([report]) == report;
    MergeAssociative(before, report, TotalUsage(rest));
  }

  // The independent reading of a total: the sum of the counts that were reported,
  // absent exactly when none was.
  function SumReported(counts: seq<Option<int>>): int {
    if counts == [] then 0 else OrZero(counts[0]) + SumReported(counts[1..])
  }

  ghost predicate IsFieldTotal(counts: seq<Option<int>>, total: Option<int>) {
    && (total.None? <==> forall i :: 0 <= i < |counts| ==> counts[i].None?)
    && OrZero(total) == SumReported(counts)
  }

  lemma {:induction false} SumReportedSnoc(counts: seq<Option<int>>)
    requires counts != []
    ensures SumReported(counts) == SumReported(counts[..|counts| - 1]) + OrZero(counts[|counts| - 1])
  {
    if |counts| == 1 {
      assert counts[1..] == [];
    } else {
      var rest := counts[1..];
      SumReportedSnoc(rest);
      assert rest[..|rest| - 1] == counts[..|counts| - 1][1..];
    }
  }

  // The four counters of a report.
  datatype Counter = Input | Output | CacheRead | CacheCreation

  function Count(u: TokenUsage, c: Counter): Option<int> {
    match c
    case Input => u.input
    case Output => u.output
    case CacheRead => u.cacheRead
    case CacheCreation => u.cacheCreation
  }

  function Counts(reports: seq<TokenUsage>, c: Counter): (counts: seq<Option<int>>)
    ensures |counts| == |reports|
    ensures forall i :: 0 <= i < |reports| ==> counts[i] == Count(reports[i], c)
  {
    if reports == [] then [] else Counts(reports[..|reports| - 1], c) + [Count(reports[|reports| - 1], c)]
  }

  lemma {:induction false} TotalUsageMeaning(reports: seq<TokenUsage>, c: Counter)
    ensures IsFieldTotal(Counts(reports, c), Count(TotalUsage(reports), c))
  {
    if reports != [] {
      var front, last := reports[..|reports| - 1], reports[|reports| - 1];
      TotalUsageMeaning(front, c);
      FieldTotalSnoc(Counts(front, c), Count(TotalUsage(front), c), Count(last, c));
    }
  }

  lemma FieldTotalSnoc(counts: seq<Option<int>>, before: Option<int>, c: Option<int>)
    requires IsFieldTotal(counts, before)
    ensures IsFieldTotal(counts + [c], AddOptional(before, c))
  {
    var all := counts + [c];
    SumReportedSnoc(all);
    assert all[..|all| - 1] == counts && all[|counts|] == c;
    if c.None? && before.None? {
      assert forall i :: 0 <= i < |all| ==> all[i].None?;
    } else if c.None? {
      var i :| 0 <= i < |counts| && counts[i].Some?;
      assert all[i].Some?;
    }
  }
}
