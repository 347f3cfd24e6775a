/** The variation manager's queries: by product, by state, and the count of
    variations per variation category. */
module VariationQueries {
  import opened Seqs
  import opened Catalog

  /** One row of `values('category').annotate(count=Count('id'))`. */
  datatype CategoryCount = CategoryCount(category: VariationCategory, count: nat)

  /** `get_variations_by_product(product_id)`. */
  function VariationsByProduct(vs: seq<Variation>, productId: int): (r: seq<Variation>)
    ensures IsSubsequence(r, vs)
    ensures forall v :: v in r <==> v in vs && v.productId == productId
  {
    Filter(vs, (v: Variation) => v.productId == productId)
  }

  /** `filter_by_state(state)`. */
  function FilterByState(vs: seq<Variation>, state: VariationState): (r: seq<Variation>)
    ensures IsSubsequence(r, vs)
    ensures forall v :: v in r <==> v in vs && v.state == state
  {
    Filter(vs, (v: Variation) => v.state == state)
  }

  /** The number of variations of category `c`. */
  function CountOf(vs: seq<Variation>, c: VariationCategory): nat
  {
    if |vs| == 0 then 0
    else (if vs[0].category == c then 1 else 0) + CountOf(vs[1..], c)
  }

  /** The categories that have a group. */
  function GroupedCategories(groups: seq<CategoryCount>): set<VariationCategory>
  {
    if |groups| == 0 then {} else {groups[0].category} + GroupedCategories(groups[1..])
  }

  /** A category has a group exactly when some position holds it. */
  lemma {:induction false} GroupedAt(groups: seq<CategoryCount>, c: VariationCategory)
    ensures c in GroupedCategories(groups) <==> exists i :: 0 <= i < |groups| && groups[i].category == c
  {
    if |groups| > 0 {
      GroupedAt(groups[1..], c);
      if exists i :: 0 <= i < |groups| && groups[i].category == c {
        var i :| 0 <= i < |groups| && groups[i].category == c;
        if i > 0 {
          assert groups[1..][i - 1].category == c;
        }
      }
    }
  }

  /** The count of `c`'s group, 0 when it has none. */
  function CountIn(groups: seq<CategoryCount>, c: VariationCategory): nat
  {
    if |groups| == 0 then 0
    else if groups[0].category == c then groups[0].count
    else CountIn(groups[1..], c)
  }

  /** No category has two groups. */
  predicate DistinctGroups(groups: seq<CategoryCount>)
  {
    forall i, j :: 0 <= i < j < |groups| ==> groups[i].category != groups[j].category
  }

  /** Sum of the counts of all groups. */
  function SumCounts(groups: seq<CategoryCount>): nat
  {
    if |groups| == 0 then 0 else groups[0].count + SumCounts(groups[1..])
  }

  /** Counts one more variation of category `c`: its group grows by one, or a new
      group of one is added at the end. */
  function Bump(groups: seq<CategoryCount>, c: VariationCategory): (r: seq<CategoryCount>)
    requires DistinctGroups(groups)
    ensures DistinctGroups(r)
    ensures GroupedCategories(r) == GroupedCategories(groups) + {c}
    ensures CountIn(r, c) == CountIn(groups, c) + 1
    ensures forall d :: d != c ==> CountIn(r, d) == CountIn(groups, d)
    ensures forall i :: 0 <= i < |r| && r[i].count == 0 ==> 0 <= i < |groups| && groups[i].count == 0
    ensures SumCounts(r) == SumCounts(groups) + 1
  {
    if |groups| == 0 then
      [CategoryCount(c, 1)]
    else if groups[0].category == c then
      var r := [groups[0].(count := groups[0].count + 1)] + groups[1..];
      assert r[1..] == groups[1..];
      assert CountIn(groups[1..], c) == 0 by {
        NotGroupedCountsZero(groups[1..], c);
      }
      r
    else
      var rest := Bump(groups[1..], c);
      var r := [groups[0]] + rest;
      assert r[1..] == rest;
      assert groups[0].category !in GroupedCategories(groups[1..]) by {
        GroupedAt(groups[1..], groups[0].category);
      }
      assert DistinctGroups(r) by {
        GroupedAt(rest, groups[0].category);
        forall j | 0 < j < |r|
          ensures r[0].category != r[j].category
        {
          assert rest[j - 1] == r[j];
        }
      }
      r
  }

  /** A category without a group counts 0. */
  lemma {:induction false} NotGroupedCountsZero(groups: seq<CategoryCount>, c: VariationCategory)
    requires forall i :: 0 <= i < |groups| ==> groups[i].category != c
    ensures CountIn(groups, c) == 0
  {
    if |groups| > 0 {
      NotGroupedCountsZero(groups[1..], c);
    }
  }

  /** `group_by_category()`: one group per category that occurs, none for one that
      does not, each counting that category's variations. */
  function GroupByCategory(vs: seq<Variation>): (r: seq<CategoryCount>)
    ensures DistinctGroups(r)
    ensures forall c :: c in GroupedCategories(r) <==> CountOf(vs, c) > 0
    ensures forall c :: CountIn(r, c) == CountOf(vs, c)
    ensures forall i :: 0 <= i < |r| ==> r[i].count >= 1
    ensures SumCounts(r) == |vs|
  {
    if |vs| == 0 then []
    else
      var rest := GroupByCategory(vs[1..]);
      Bump(rest, vs[0].category)
  }

  /** In distinct groups the count found for a group's category is that group's. */
  lemma {:induction false} CountInAt(groups: seq<CategoryCount>, i: int)
    requires DistinctGroups(groups) && 0 <= i < |groups|
    ensures CountIn(groups, groups[i].category) == groups[i].count
  {
    if i > 0 {
      CountInAt(groups[1..], i - 1);
    }
  }

  /** Each group's count is the number of variations of its category, at least one. */
  lemma GroupCounts(vs: seq<Variation>)
    ensures forall i :: 0 <= i < |GroupByCategory(vs)| ==>
              GroupByCategory(vs)[i].count == CountOf(vs, GroupByCategory(vs)[i].category) >= 1
  {
    var r := GroupByCategory(vs);
    forall i | 0 <= i < |r|
      ensures r[i].count == CountOf(vs, r[i].category)
    {
      CountInAt(r, i);
    }
  }

  /** Every variation is a size or a colour: the two categories' counts add up to
      the number of variations. */
  lemma {:induction false} CategoriesCoverAll(vs: seq<Variation>)
    ensures CountOf(vs, Talla) + CountOf(vs, Color) == |vs|
    ensures GroupedCategories(GroupByCategory(vs)) <= {Talla, Color}
  {
    if |vs| > 0 {
      CategoriesCoverAll(vs[1..]);
    }
  }

  /** Groups come in order of last occurrence, the category seen latest first: a
      size followed by a colour groups as the colour, then the size. */
  lemma GroupOrderExample()
    ensures GroupByCategory([Variation(1, 1, Talla, "S", Disponible), Variation(2, 1, Color, "red", Disponible)])
            == [CategoryCount(Color, 1), CategoryCount(Talla, 1)]
  {
    var vs := [Variation(1, 1, Talla, "S", Disponible), Variation(2, 1, Color, "red", Disponible)];
    assert vs[1..][1..] == [];
  }
}
