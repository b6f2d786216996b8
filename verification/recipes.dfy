/** The recipe catalogue (src/components/RecipesListPage.tsx): the search box
    and the category list. */
module Recipes {
  import opened Seqs
  import opened Strings
  import opened App

  /** The search test on one recipe, given the already lowercased query:
      its lowercased name, category or description contains the query.
      Ingredients, steps and tools are not looked at. */
  predicate MatchesLowered(r: Recipe, lowered: string)
  {
    Includes(ToLower(r.name), lowered)
    || Includes(ToLower(r.category), lowered)
    || Includes(ToLower(r.description), lowered)
  }

  function MatchesQueryOf(lowered: string): Recipe -> bool
  {
    (r: Recipe) => MatchesLowered(r, lowered)
  }

  /** `filteredRecipes`: the recipes the query matches, in catalogue order. */
  function Search(recipes: seq<Recipe>, query: string): (r: seq<Recipe>)
    ensures forall x :: x in r ==> x in recipes && MatchesLowered(x, ToLower(query))
    ensures forall x :: x in recipes && MatchesLowered(x, ToLower(query)) ==> x in r
    ensures IsSubseq(r, recipes)
    ensures |r| == CountIf(recipes, MatchesQueryOf(ToLower(query)))
  {
    Filter(recipes, MatchesQueryOf(ToLower(query)))
  }

  /** Every string contains the empty string. */
  lemma IncludesEmpty(s: string)
    ensures Includes(s, "")
  {
    assert OccursAt(s, "", 0);
  }

  /** An empty query keeps the whole catalogue. */
  lemma EmptyQueryKeepsAll(recipes: seq<Recipe>)
    ensures Search(recipes, "") == recipes
  {
    forall x | x in recipes ensures MatchesQueryOf(ToLower(""))(x) {
      IncludesEmpty(ToLower(x.name));
    }
    FilterAll(recipes, MatchesQueryOf(ToLower("")));
  }

  /** Queries that differ only in letter case find the same recipes; in
      particular, lowercasing the query changes nothing. */
  lemma SearchIgnoresCase(recipes: seq<Recipe>, q1: string, q2: string)
    requires ToLower(q1) == ToLower(q2)
    ensures Search(recipes, q1) == Search(recipes, q2)
    ensures Search(recipes, ToLower(q1)) == Search(recipes, q1)
  {
    ToLowerIdempotent(q1);
  }

  /** Replacing a recipe's ingredients never changes whether it is found. */
  lemma IngredientsNotSearched(r: Recipe, ingredients: seq<string>, query: string)
    ensures MatchesLowered(r.(ingredients := ingredients), ToLower(query)) == MatchesLowered(r, ToLower(query))
  {
  }

  function CategoryOf(r: Recipe): string
  {
    r.category
  }

  /** `categories`: each category once, in the order it first appears. */
  function Categories(recipes: seq<Recipe>): (cs: seq<string>)
    ensures NoDuplicates(cs)
    ensures forall c :: c in cs ==> c in Map(recipes, CategoryOf)
    ensures forall c :: c in cs ==> exists x :: x in recipes && CategoryOf(x) == c
    ensures forall x :: x in recipes ==> CategoryOf(x) in cs
    ensures forall i, j :: 0 <= i < j < |cs| ==>
      IndexOf(Map(recipes, CategoryOf), cs[i]) < IndexOf(Map(recipes, CategoryOf), cs[j])
  {
    var all := Map(recipes, CategoryOf);
    DistinctKeepsFirstOccurrenceOrder(all);
    var cs := Distinct(all);
    assert forall c :: c in cs ==> c in all;
    cs
  }

  /** The categories of the six catalogue recipes, in catalogue order. */
  function SeedCategoryColumn(): seq<string>
  {
    ["Cold Drinks", "Hot Drinks", "Hot Drinks", "Techniques", "Hot Drinks", "Hot Drinks"]
  }

  /** The catalogue lists three categories. */
  lemma SeedCategories()
    ensures Distinct(SeedCategoryColumn()) == ["Cold Drinks", "Hot Drinks", "Techniques"]
  {
    var cold, hot, tech := "Cold Drinks", "Hot Drinks", "Techniques";
    assert cold != hot && cold != tech && hot != tech by {
      assert cold[0] != hot[0] && cold[0] != tech[0] && hot[0] != tech[0];
    }
    DistinctOfColumnShape(cold, hot, tech);
  }

  /** The shape of the catalogue's category column, for any three distinct names. */
  lemma DistinctOfColumnShape(a: string, b: string, c: string)
    requires a != b && a != c && b != c
    ensures Distinct([a, b, b, c, b, b]) == [a, b, c]
  {
    DistinctSnoc([], a);
    assert [] + [a] == [a];
    DistinctSnoc([a], b);
    assert [a] + [b] == [a, b];
    DistinctSnoc([a, b], b);
    assert [a, b] + [b] == [a, b, b];
    DistinctSnoc([a, b, b], c);
    assert [a, b, b] + [c] == [a, b, b, c];
    DistinctSnoc([a, b, b, c], b);
    assert [a, b, b, c] + [b] == [a, b, b, c, b];
    DistinctSnoc([a, b, b, c, b], b);
    assert [a, b, b, c, b] + [b] == [a, b, b, c, b, b];
  }

  /** `Distinct` grows at the end only with elements not yet seen. */
  lemma DistinctSnoc(s: seq<string>, x: string)
    ensures Distinct(s + [x]) == if x in Distinct(s) then Distinct(s) else Distinct(s) + [x]
  {
    assert (s + [x])[..|s + [x]| - 1] == s;
  }
}
