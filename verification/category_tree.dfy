/** The category forest.  Each category names its parent (or none, for a root) and
    carries the `level` the tree library keeps materialised: 0 for a root, the
    parent's level plus one otherwise.  Categories are keyed by id. */
module CategoryTree {
  import opened Wrappers

  datatype Category = Category(name: string, parent: Option<int>, level: nat)

  type Categories = map<int, Category>

  /** The parent of `x` exists and `x`'s stored level agrees with it. */
  predicate ParentOk(cats: Categories, x: int)
    requires x in cats
  {
    match cats[x].parent
    case None => cats[x].level == 0
    case Some(p) => p in cats && cats[x].level == cats[p].level + 1
  }

  /** The forest invariant: every parent exists and every level is its depth. */
  predicate Consistent(cats: Categories)
  {
    forall x :: x in cats ==> ParentOk(cats, x)
  }

  /** `x` is `root` or one of its descendants: following parents from `x` reaches `root`. */
  predicate InSubtree(cats: Categories, root: int, x: int)
    requires Consistent(cats) && x in cats
    decreases cats[x].level
  {
    assert ParentOk(cats, x);
    x == root || (cats[x].parent.Some? && InSubtree(cats, root, cats[x].parent.value))
  }

  /** A descendant is never shallower than its ancestor. */
  lemma {:induction false} SubtreeLevelBound(cats: Categories, root: int, x: int)
    requires Consistent(cats) && x in cats && root in cats
    requires InSubtree(cats, root, x)
    ensures cats[x].level >= cats[root].level
    ensures cats[x].level == cats[root].level ==> x == root
    decreases cats[x].level
  {
    assert ParentOk(cats, x);
    if x != root {
      SubtreeLevelBound(cats, root, cats[x].parent.value);
    }
  }

  /** A category's parent is never in that category's own subtree, so a
      consistent forest has no cycle. */
  lemma NoCycles(cats: Categories, x: int)
    requires Consistent(cats) && x in cats
    requires cats[x].parent.Some?
    ensures !InSubtree(cats, x, cats[x].parent.value)
  {
    assert ParentOk(cats, x);
    var p := cats[x].parent.value;
    if InSubtree(cats, x, p) {
      SubtreeLevelBound(cats, x, p);
      assert false;
    }
  }

  /** The ancestors of `x`, nearest first, ending at the root of its tree. */
  function AncestorChain(cats: Categories, x: int): (chain: seq<int>)
    requires Consistent(cats) && x in cats
    ensures |chain| == cats[x].level
    ensures forall i :: 0 <= i < |chain| ==> chain[i] in cats
    ensures |chain| == 0 <==> cats[x].parent.None?
    ensures |chain| > 0 ==> cats[x].parent == Some(chain[0]) && cats[chain[|chain| - 1]].parent.None?
    ensures forall i :: 0 <= i < |chain| - 1 ==> cats[chain[i]].parent == Some(chain[i + 1])
    decreases cats[x].level
  {
    assert ParentOk(cats, x);
    match cats[x].parent
    case None => []
    case Some(p) => [p] + AncestorChain(cats, p)
  }

  /** The categories `get_categories_by_level(level)` returns. */
  function CategoriesByLevel(cats: Categories, level: int): (r: Categories)
    ensures forall x :: x in r <==> x in cats && cats[x].level == level
    ensures forall x :: x in r ==> r[x] == cats[x]
  {
    map x | x in cats && cats[x].level == level :: cats[x]
  }

  /** In a consistent forest the stored level is the depth: the number of ancestors. */
  lemma LevelIsDepth(cats: Categories, level: int)
    requires Consistent(cats)
    ensures forall x :: x in CategoriesByLevel(cats, level) <==> x in cats && |AncestorChain(cats, x)| == level
  {
  }

  /** ASCII lower-casing, as the database's case-insensitive match applies it. */
  function LowerChar(c: char): char
  {
    if 'A' <= c <= 'Z' then (c as int + 32) as char else c
  }

  function Lower(s: string): (r: string)
    ensures |r| == |s|
    ensures forall i :: 0 <= i < |s| ==> r[i] == LowerChar(s[i])
  {
    seq(|s|, i requires 0 <= i < |s| => LowerChar(s[i]))
  }

  /** `needle` occurs in `hay` starting at position `i`. */
  predicate OccursAt(hay: string, needle: string, i: int)
    requires 0 <= i <= |hay| - |needle|
  {
    hay[i..i + |needle|] == needle
  }

  /** `needle` occurs in `hay` as a contiguous piece. */
  function Contains(hay: string, needle: string): (b: bool)
    ensures b <==> exists i :: 0 <= i <= |hay| - |needle| && OccursAt(hay, needle, i)
    decreases |hay|
  {
    if |hay| < |needle| then
      false
    else if hay[..|needle|] == needle then
      assert OccursAt(hay, needle, 0);
      true
    else
      ContainsStep(hay, needle);
      Contains(hay[1..], needle)
  }

  /** A needle that is not a prefix of `hay` occurs in `hay` exactly when it occurs
      in `hay` without its first character. */
  lemma ContainsStep(hay: string, needle: string)
    requires |needle| <= |hay| && hay[..|needle|] != needle
    ensures |hay| > 0
    ensures (exists i :: 0 <= i <= |hay| - |needle| && OccursAt(hay, needle, i))
        <==> (exists i :: 0 <= i <= |hay[1..]| - |needle| && OccursAt(hay[1..], needle, i))
  {
    assert |hay| > 0;
    forall i | 0 <= i <= |hay[1..]| - |needle|
      ensures OccursAt(hay[1..], needle, i) <==> OccursAt(hay, needle, i + 1)
    {
      assert hay[1..][i..i + |needle|] == hay[i + 1..i + 1 + |needle|];
    }
    if exists i :: 0 <= i <= |hay| - |needle| && OccursAt(hay, needle, i) {
      var i :| 0 <= i <= |hay| - |needle| && OccursAt(hay, needle, i);
      assert i != 0 by { assert hay[..|needle|] == hay[0..0 + |needle|]; }
      assert OccursAt(hay[1..], needle, i - 1);
    }
  }

  /** The categories `filter_by_name(name)` returns: those whose name contains
      `name`, ignoring case. */
  function FilterByName(cats: Categories, name: string): (r: Categories)
    ensures forall x :: x in r <==> x in cats && Contains(Lower(cats[x].name), Lower(name))
    ensures forall x :: x in r ==> r[x] == cats[x]
  {
    map x | x in cats && Contains(Lower(cats[x].name), Lower(name)) :: cats[x]
  }

  /** The empty search string matches every category. */
  lemma FilterByEmptyNameKeepsAll(cats: Categories)
    ensures FilterByName(cats, "") == cats
  {
    forall x | x in cats
      ensures x in FilterByName(cats, "")
    {
      assert Lower(cats[x].name)[0..0] == Lower("");
    }
  }

  /** The search ignores the case of its argument. */
  lemma FilterByNameIgnoresCase(cats: Categories, name: string)
    ensures FilterByName(cats, Lower(name)) == FilterByName(cats, name)
  {
    assert Lower(Lower(name)) == Lower(name);
  }

  // ---------------------------------------------------------------------------
  // Sibling order

  /** Code-point lexicographic order on names. */
  predicate NameLe(a: string, b: string)
    decreases |a|
  {
    || |a| == 0
    || (|b| > 0 && (a[0] < b[0] || (a[0] == b[0] && NameLe(a[1..], b[1..]))))
  }

  lemma {:induction false} NameLeReflexive(a: string)
    ensures NameLe(a, a)
    decreases |a|
  {
    if |a| > 0 {
      NameLeReflexive(a[1..]);
    }
  }

  lemma {:induction false} NameLeTotal(a: string, b: string)
    ensures NameLe(a, b) || NameLe(b, a)
    decreases |a|
  {
    if |a| > 0 && |b| > 0 && a[0] == b[0] {
      NameLeTotal(a[1..], b[1..]);
    }
  }

  lemma {:induction false} NameLeAntisymmetric(a: string, b: string)
    requires NameLe(a, b) && NameLe(b, a)
    ensures a == b
    decreases |a|
  {
    if |a| > 0 {
      NameLeAntisymmetric(a[1..], b[1..]);
      assert a == [a[0]] + a[1..] && b == [b[0]] + b[1..];
    }
  }

  lemma {:induction false} NameLeTransitive(a: string, b: string, c: string)
    requires NameLe(a, b) && NameLe(b, c)
    ensures NameLe(a, c)
    decreases |a|
  {
    if |a| > 0 && a[0] == b[0] && b[0] == c[0] {
      NameLeTransitive(a[1..], b[1..], c[1..]);
    }
  }

  /** Siblings are ordered by name.  Among equal names the tree keeps insertion or
      move order, which a snapshot does not record; the id stands in for it. */
  predicate SiblingLe(cats: Categories, x: int, y: int)
    requires x in cats && y in cats
  {
    var a, b := cats[x].name, cats[y].name;
    NameLe(a, b) && (NameLe(b, a) ==> x <= y)
  }

  lemma SiblingLeTotal(cats: Categories, x: int, y: int)
    requires x in cats && y in cats
    ensures SiblingLe(cats, x, y) || SiblingLe(cats, y, x)
  {
    NameLeTotal(cats[x].name, cats[y].name);
  }

  lemma SiblingLeTransitive(cats: Categories, x: int, y: int, z: int)
    requires x in cats && y in cats && z in cats
    requires SiblingLe(cats, x, y) && SiblingLe(cats, y, z)
    ensures SiblingLe(cats, x, z)
  {
    var a, b, c := cats[x].name, cats[y].name, cats[z].name;
    NameLeTransitive(a, b, c);
    if NameLe(c, a) {
      NameLeTransitive(c, a, b);
      NameLeAntisymmetric(b, c);
      NameLeAntisymmetric(a, b);
    }
  }

  /** Some member of a non-empty set of ids. */
  ghost function PickId(ids: set<int>): (x: int)
    requires ids != {}
    ensures x in ids
  {
    assert (forall y :: y !in ids) ==> ids == {};
    var x :| x in ids; x
  }

  /** The first of `ids` in sibling order. */
  ghost function LeastSibling(cats: Categories, ids: set<int>): (m: int)
    requires ids != {} && ids <= cats.Keys
    ensures m in ids
    ensures forall y :: y in ids ==> SiblingLe(cats, m, y)
    decreases ids
  {
    var x := PickId(ids);
    NameLeReflexive(cats[x].name);
    if ids == {x} then x
    else
      var r := LeastSibling(cats, ids - {x});
      SiblingLeTotal(cats, x, r);
      if SiblingLe(cats, x, r) then
        assert forall y :: y in ids - {x} ==> SiblingLe(cats, x, y) by {
          forall y | y in ids - {x}
            ensures SiblingLe(cats, x, y)
          {
            SiblingLeTransitive(cats, x, r, y);
          }
        }
        x
      else
        r
  }

  /** `ids` listed in sibling order, each once. */
  ghost function SortSiblings(cats: Categories, ids: set<int>): (r: seq<int>)
    requires ids <= cats.Keys
    ensures |r| == |ids|
    ensures forall x :: x in r <==> x in ids
    ensures forall i, j :: 0 <= i < j < |r| ==> r[i] != r[j] && SiblingLe(cats, r[i], r[j])
    decreases ids
  {
    if ids == {} then []
    else
      var m := LeastSibling(cats, ids);
      [m] + SortSiblings(cats, ids - {m})
  }

  /** The children of `parent` (the roots, for `None`), in the name order the tree
      keeps among siblings. */
  ghost function Children(cats: Categories, parent: Option<int>): (r: seq<int>)
    ensures forall x :: x in r <==> x in cats && cats[x].parent == parent
    ensures forall i :: 0 <= i < |r| ==> r[i] in cats
    ensures forall i, j :: 0 <= i < j < |r| ==> r[i] != r[j] && NameLe(cats[r[i]].name, cats[r[j]].name)
  {
    SortSiblings(cats, set x | x in cats && cats[x].parent == parent)
  }

  // ---------------------------------------------------------------------------
  // Moving and deleting

  datatype MoveError =
    | InvalidMove     // the new parent is the category itself or one of its descendants
    | ParentMissing   // the new parent is not a stored category

  /** The level a category takes under `newParent`. */
  function LevelUnder(cats: Categories, newParent: Option<int>): nat
    requires newParent.Some? ==> newParent.value in cats
  {
    match newParent
    case None => 0
    case Some(n) => cats[n].level + 1
  }

  /** Category `x` after `c` moves under `newParent`: `c` takes the new parent and
      level, its descendants shift by the same amount, the rest stay put. */
  function Moved(cats: Categories, c: int, newParent: Option<int>, x: int): (r: Category)
    requires Consistent(cats) && c in cats && x in cats
    requires newParent.Some? ==> newParent.value in cats
  {
    var newLevel := LevelUnder(cats, newParent);
    if x == c then
      Category(cats[c].name, newParent, newLevel)
    else if InSubtree(cats, c, x) then
      SubtreeLevelBound(cats, c, x);
      cats[x].(level := cats[x].level - cats[c].level + newLevel)
    else
      cats[x]
  }

  /** The tree after re-parenting `c`, when that introduces no cycle. */
  function Reparent(cats: Categories, c: int, newParent: Option<int>): (r: Categories)
    requires Consistent(cats) && c in cats
    requires newParent.Some? ==> newParent.value in cats && !InSubtree(cats, c, newParent.value)
    ensures r.Keys == cats.Keys
    ensures Consistent(r)
    ensures r[c].parent == newParent && r[c].level == LevelUnder(cats, newParent)
    ensures forall x :: x in cats && x != c ==> r[x].parent == cats[x].parent
    ensures forall x :: x in cats ==> r[x].name == cats[x].name
    ensures forall x :: x in cats && InSubtree(cats, c, x) ==> r[x].level + cats[c].level == cats[x].level + r[c].level
    ensures forall x :: x in cats && !InSubtree(cats, c, x) ==> r[x].level == cats[x].level
  {
    var r := map x | x in cats :: Moved(cats, c, newParent, x);
    ReparentConsistent(cats, c, newParent, r);
    r
  }

  lemma ReparentConsistent(cats: Categories, c: int, newParent: Option<int>, r: Categories)
    requires Consistent(cats) && c in cats
    requires newParent.Some? ==> newParent.value in cats && !InSubtree(cats, c, newParent.value)
    requires r == map x | x in cats :: Moved(cats, c, newParent, x)
    ensures Consistent(r)
  {
    assert InSubtree(cats, c, c);
    forall x | x in r
      ensures ParentOk(r, x)
    {
      assert ParentOk(cats, x);
      if x == c {
        match newParent
        case None =>
        case Some(n) =>
          assert n != c;
          assert r[n] == cats[n];
      } else if InSubtree(cats, c, x) {
        var p := cats[x].parent.value;
        assert InSubtree(cats, c, p);
        SubtreeLevelBound(cats, c, x);
      } else {
        match cats[x].parent
        case None =>
        case Some(p) =>
          assert !InSubtree(cats, c, p);
          assert p != c;
          assert r[p] == cats[p];
      }
    }
  }

  /** `move_category(old_parent, new_parent, category)`: when the caller's
      `old_parent` differs from `new_parent` the category is re-parented and saved;
      the tree refuses a move under the category itself or one of its descendants. */
  function MoveCategory(cats: Categories, oldParent: Option<int>, newParent: Option<int>, c: int): (r: Result<Categories, MoveError>)
    requires Consistent(cats) && c in cats
    ensures oldParent == newParent ==> r == Success(cats)
    ensures r == Failure(ParentMissing) <==>
              oldParent != newParent && newParent.Some? && newParent.value !in cats
    ensures r == Failure(InvalidMove) <==>
              oldParent != newParent && newParent.Some? && newParent.value in cats
              && InSubtree(cats, c, newParent.value)
    ensures r.Success? ==> Consistent(r.value) && r.value.Keys == cats.Keys
    ensures r.Success? && oldParent != newParent ==>
              r.value[c].parent == newParent && r.value[c].level == LevelUnder(cats, newParent)
    ensures r.Success? ==> forall x :: x in cats && x != c ==> r.value[x].parent == cats[x].parent
    ensures r.Success? ==> forall x :: x in cats ==> r.value[x].name == cats[x].name
    ensures r.Success? ==> forall x :: x in cats && InSubtree(cats, c, x) ==>
              r.value[x].level + cats[c].level == cats[x].level + r.value[c].level
    ensures r.Success? ==> forall x :: x in cats && !InSubtree(cats, c, x) ==>
              r.value[x].level == cats[x].level
  {
    if oldParent == newParent then Success(cats)
    else if newParent.Some? && newParent.value !in cats then Failure(ParentMissing)
    else if newParent.Some? && InSubtree(cats, c, newParent.value) then Failure(InvalidMove)
    else Success(Reparent(cats, c, newParent))
  }

  /** Moving a category under the parent it already has changes nothing, whatever
      the caller passed as the old parent. */
  lemma MoveToCurrentParentIsNoop(cats: Categories, oldParent: Option<int>, c: int)
    requires Consistent(cats) && c in cats
    ensures MoveCategory(cats, oldParent, cats[c].parent, c) == Success(cats)
  {
    var np := cats[c].parent;
    assert ParentOk(cats, c);
    if oldParent != np {
      if np.Some? {
        NoCycles(cats, c);
      }
      var r := Reparent(cats, c, np);
      forall x | x in cats
        ensures r[x] == cats[x]
      {
        assert ParentOk(cats, x);
      }
      assert r == cats;
    }
  }

  /** The ids of `root` and all its descendants: what deleting `root` removes. */
  function Subtree(cats: Categories, root: int): (s: set<int>)
    requires Consistent(cats)
    ensures forall x :: x in s <==> x in cats && InSubtree(cats, root, x)
  {
    set x | x in cats && InSubtree(cats, root, x)
  }

  /** The forest with `root`'s subtree removed (the cascade on `parent`). */
  function RemoveSubtree(cats: Categories, root: int): (r: Categories)
    requires Consistent(cats)
    ensures Consistent(r)
    ensures r.Keys == cats.Keys - Subtree(cats, root)
    ensures forall x :: x in r ==> r[x] == cats[x]
  {
    var gone := Subtree(cats, root);
    var r := map x | x in cats && x !in gone :: cats[x];
    assert Consistent(r) by {
      forall x | x in r
        ensures ParentOk(r, x)
      {
        assert ParentOk(cats, x);
      }
    }
    r
  }
}
