/** Sequence helpers shared by every table: a query set is a subsequence of its
    table, filtered by a predicate, and each table keeps its primary keys distinct. */
module Seqs {

  /** Sum of a sequence of integers. */
  function Sum(xs: seq<int>): int
  {
    if |xs| == 0 then 0 else xs[0] + Sum(xs[1..])
  }

  /** A sum of non-negative terms is non-negative. */
  lemma {:induction false} SumNonNegative(xs: seq<int>)
    requires forall i :: 0 <= i < |xs| ==> xs[i] >= 0
    ensures Sum(xs) >= 0
  {
    if |xs| > 0 {
      SumNonNegative(xs[1..]);
    }
  }

  /** Termwise smaller sequences sum to no more. */
  lemma {:induction false} SumMonotone(xs: seq<int>, ys: seq<int>)
    requires |xs| == |ys|
    requires forall i :: 0 <= i < |xs| ==> xs[i] <= ys[i]
    ensures Sum(xs) <= Sum(ys)
  {
    if |xs| > 0 {
      SumMonotone(xs[1..], ys[1..]);
    }
  }

  /** Distributivity steps on money times quantity, which the solver does not
      find for non-linear terms on its own. */
  lemma MulSubDistributes(y: int, x: int, q: int)
    ensures y * q - x * q == (y - x) * q
  {
  }

  lemma MulAddDistributes(d: int, q: int, r: int)
    ensures d * (q + r) == d * q + d * r
  {
  }

  lemma NonNegativeProduct(a: int, b: int)
    requires a >= 0 && b >= 0
    ensures a * b >= 0
  {
  }

  /** `sub` is obtained from `s` by deleting elements, keeping the order of the rest. */
  predicate IsSubsequence<T(==)>(sub: seq<T>, s: seq<T>)
    decreases |s|
  {
    || |sub| == 0
    || (&& |s| > 0
        && ((sub[0] == s[0] && IsSubsequence(sub[1..], s[1..])) || IsSubsequence(sub, s[1..])))
  }

  /** The elements of `s` that satisfy `keep`, in their original order: the shape
      of every `QuerySet.filter` in the model. */
  function Filter<T(==,!new)>(s: seq<T>, keep: T -> bool): (r: seq<T>)
    ensures |r| <= |s|
    ensures forall x :: x in r <==> x in s && keep(x)
    ensures IsSubsequence(r, s)
  {
    if |s| == 0 then []
    else if keep(s[0]) then [s[0]] + Filter(s[1..], keep)
    else Filter(s[1..], keep)
  }

  /** Filtering keeps nothing when no element qualifies. */
  lemma {:induction false} FilterNone<T(!new)>(s: seq<T>, keep: T -> bool)
    requires forall x :: x in s ==> !keep(x)
    ensures Filter(s, keep) == []
  {
    if |s| > 0 {
      assert s[0] in s;
      FilterNone(s[1..], keep);
    }
  }

  /** Every element of a subsequence occurs in the original sequence. */
  lemma {:induction false} SubsequenceMembers<T>(sub: seq<T>, s: seq<T>)
    requires IsSubsequence(sub, s)
    ensures forall x :: x in sub ==> x in s
    decreases |s|
  {
    if |sub| == 0 {
    } else if sub[0] == s[0] && IsSubsequence(sub[1..], s[1..]) {
      SubsequenceMembers(sub[1..], s[1..]);
      forall x | x in sub
        ensures x in s
      {
        if x != sub[0] {
          assert x in sub[1..];
        }
      }
    } else {
      SubsequenceMembers(sub, s[1..]);
    }
  }

  /** No two elements of `s` share a key: the primary-key or unique constraint of a table. */
  predicate KeysDistinct<T>(s: seq<T>, key: T -> int)
  {
    forall i, j :: 0 <= i < j < |s| ==> key(s[i]) != key(s[j])
  }

  /** Under a uniqueness constraint a key identifies its row. */
  lemma SameKeySameElement<T>(s: seq<T>, key: T -> int, a: T, b: T)
    requires KeysDistinct(s, key)
    requires a in s && b in s && key(a) == key(b)
    ensures a == b
  {
    var i :| 0 <= i < |s| && s[i] == a;
    var j :| 0 <= j < |s| && s[j] == b;
  }

  /** Deleting rows never breaks a uniqueness constraint. */
  lemma {:induction false} SubsequenceKeysDistinct<T>(sub: seq<T>, s: seq<T>, key: T -> int)
    requires IsSubsequence(sub, s)
    requires KeysDistinct(s, key)
    ensures KeysDistinct(sub, key)
    decreases |s|
  {
    if |sub| == 0 {
    } else if sub[0] == s[0] && IsSubsequence(sub[1..], s[1..]) {
      assert KeysDistinct(s[1..], key) by {
        forall i, j | 0 <= i < j < |s[1..]|
          ensures key(s[1..][i]) != key(s[1..][j])
        {
          assert s[1..][i] == s[i + 1] && s[1..][j] == s[j + 1];
        }
      }
      SubsequenceKeysDistinct(sub[1..], s[1..], key);
      SubsequenceMembers(sub[1..], s[1..]);
      forall i, j | 0 <= i < j < |sub|
        ensures key(sub[i]) != key(sub[j])
      {
        if i == 0 {
          assert sub[j] in sub[1..] by { assert sub[j] == sub[1..][j - 1]; }
          var m :| 0 <= m < |s[1..]| && s[1..][m] == sub[j];
          assert s[m + 1] == sub[j];
        } else {
          assert sub[i] == sub[1..][i - 1] && sub[j] == sub[1..][j - 1];
        }
      }
    } else {
      assert KeysDistinct(s[1..], key) by {
        forall i, j | 0 <= i < j < |s[1..]|
          ensures key(s[1..][i]) != key(s[1..][j])
        {
          assert s[1..][i] == s[i + 1] && s[1..][j] == s[j + 1];
        }
      }
      SubsequenceKeysDistinct(sub, s[1..], key);
    }
  }

  /** The keys present in a table. */
  function Ids<T(==)>(s: seq<T>, key: T -> int): (r: set<int>)
    ensures forall x :: x in s ==> key(x) in r
  {
    set x | x in s :: key(x)
  }

  /** Django's `save()`: the row with `x`'s key is replaced by `x`, or `x` is added
      when there is none. */
  function Upsert<T(==,!new)>(s: seq<T>, x: T, key: T -> int): (r: seq<T>)
    ensures forall y :: y in r <==> y == x || (y in s && key(y) != key(x))
  {
    Filter(s, (y: T) => key(y) != key(x)) + [x]
  }

  /** A save keeps a uniqueness constraint on any column `col` when no other row
      holds `x`'s value there; with `col == key` that is always so. */
  lemma UpsertKeysDistinct<T(!new)>(s: seq<T>, x: T, key: T -> int, col: T -> int)
    requires KeysDistinct(s, col)
    requires forall y :: y in s && key(y) != key(x) ==> col(y) != col(x)
    ensures KeysDistinct(Upsert(s, x, key), col)
  {
    var kept := Filter(s, (y: T) => key(y) != key(x));
    SubsequenceKeysDistinct(kept, s, col);
    var r := kept + [x];
    forall i, j | 0 <= i < j < |r|
      ensures col(r[i]) != col(r[j])
    {
      if j == |kept| {
        assert r[i] == kept[i] && r[i] in kept;
      } else {
        assert r[i] == kept[i] && r[j] == kept[j];
      }
    }
  }
}
