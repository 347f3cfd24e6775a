/** The NULL-aware aggregate the database evaluates for `Sum(...)` annotations and
    aggregates. */
module Sql {
  import opened Wrappers
  import opened Seqs

  /** SQL `SUM` over a column: NULL cells are skipped, and a column without any
      non-NULL cell (in particular a column of no rows) sums to NULL, not 0. */
  function SqlSum(xs: seq<Option<int>>): (r: Option<int>)
    ensures r.None? <==> forall i :: 0 <= i < |xs| ==> xs[i].None?
  {
    if |xs| == 0 then None
    else
      var rest := SqlSum(xs[1..]);
      match xs[0]
      case None => rest
      case Some(a) => Some(a + rest.GetOr(0))
  }

  /** The column with every NULL read as 0. */
  function NullAsZero(xs: seq<Option<int>>): (r: seq<int>)
    ensures |r| == |xs|
    ensures forall i :: 0 <= i < |xs| ==> r[i] == xs[i].GetOr(0)
  {
    seq(|xs|, i requires 0 <= i < |xs| => xs[i].GetOr(0))
  }

  /** Apart from NULL-versus-0, SQL SUM is the ordinary sum with NULL cells
      contributing nothing. */
  lemma {:induction false} SqlSumIgnoresNulls(xs: seq<Option<int>>)
    ensures SqlSum(xs).GetOr(0) == Sum(NullAsZero(xs))
  {
    if |xs| > 0 {
      SqlSumIgnoresNulls(xs[1..]);
      assert NullAsZero(xs)[1..] == NullAsZero(xs[1..]);
    }
  }

  /** A column of non-negative cells sums (NULL read as 0) to a non-negative total. */
  lemma {:induction false} SqlSumNonNegative(xs: seq<Option<int>>)
    requires forall i :: 0 <= i < |xs| && xs[i].Some? ==> xs[i].value >= 0
    ensures SqlSum(xs).GetOr(0) >= 0
  {
    if |xs| > 0 {
      SqlSumNonNegative(xs[1..]);
    }
  }

  /** Two columns NULL in the same rows, the first cell-wise no larger than the
      second, keep that order in their sums. */
  lemma {:induction false} SqlSumMonotone(xs: seq<Option<int>>, ys: seq<Option<int>>)
    requires |xs| == |ys|
    requires forall i :: 0 <= i < |xs| ==> (xs[i].Some? <==> ys[i].Some?)
    requires forall i :: 0 <= i < |xs| && xs[i].Some? && ys[i].Some? ==> xs[i].value <= ys[i].value
    ensures SqlSum(xs).GetOr(0) <= SqlSum(ys).GetOr(0)
  {
    if |xs| > 0 {
      SqlSumMonotone(xs[1..], ys[1..]);
    }
  }
}
