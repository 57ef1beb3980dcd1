/**
 * filter_recipes: the recipes of the catalog that cover a request, in
 * catalog order. A recipe covers a request when every requested
 * ingredient has some recipe ingredient that contains it or is contained
 * in it, compared after lower-casing; the recipe may have further
 * ingredients. An empty request selects nothing.
 */
module RecipeFilter {
  import opened Text
  import opened Catalog

  /** One requested ingredient against one recipe ingredient, both ways. */
  predicate Matches(ing: string, ri: string) {
    Contains(Lower(ri), Lower(ing)) || Contains(Lower(ing), Lower(ri))
  }

  /** all(any(Matches(ing, ri) for ri in recipe) for ing in requested) */
  predicate Covers(recipe: Recipe, requested: seq<string>) {
    forall ing :: ing in requested ==> exists ri :: ri in recipe.ingredients && Matches(ing, ri)
  }

  /** The recipes of `catalog` that `keep` accepts, in catalog order. */
  function SelectBy(catalog: seq<Recipe>, keep: Recipe -> bool): seq<Recipe>
  {
    if catalog == [] then []
    else
      var init := SelectBy(catalog[..|catalog| - 1], keep);
      var last := catalog[|catalog| - 1];
      if keep(last) then init + [last] else init
  }

  /** The recipes of `catalog` that cover `requested`, in catalog order. */
  function Selection(catalog: seq<Recipe>, requested: seq<string>): seq<Recipe>
  {
    SelectBy(catalog, r => Covers(r, requested))
  }

  /** What filter_recipes returns for `requested` against `catalog`. */
  function Filtered(catalog: seq<Recipe>, requested: seq<string>): seq<Recipe>
  {
    if requested == [] then [] else Selection(catalog, requested)
  }

  /** filter_recipes(ingredients), over the program's catalog. */
  method FilterRecipes(ingredients: seq<string>) returns (filtered: seq<Recipe>)
    ensures filtered == Filtered(Recipes, ingredients)
  {
    if ingredients == [] {
      return [];
    }
    filtered := [];
    for i := 0 to |Recipes|
      invariant filtered == Selection(Recipes[..i], ingredients)
    {
      assert Recipes[..i + 1][..i] == Recipes[..i];
      if Covers(Recipes[i], ingredients) {
        filtered := filtered + [Recipes[i]];
      }
    }
    assert Recipes[..|Recipes|] == Recipes;
  }

  /** An empty request never means "everything". */
  lemma EmptyRequest(catalog: seq<Recipe>)
    ensures Filtered(catalog, []) == []
  {
  }

  /**
   * A selection is the catalog restricted to the positions of the accepted
   * recipes: `idx` lists those positions in increasing order, each once,
   * and the selection holds the recipes at them.
   */
  lemma {:induction false} SelectionPositions(catalog: seq<Recipe>, keep: Recipe -> bool)
    returns (idx: seq<nat>)
    ensures |idx| == |SelectBy(catalog, keep)|
    ensures forall k :: 0 <= k < |idx| ==> idx[k] < |catalog| && SelectBy(catalog, keep)[k] == catalog[idx[k]]
    ensures forall k, l :: 0 <= k < l < |idx| ==> idx[k] < idx[l]
    ensures forall i :: 0 <= i < |catalog| ==> (i in idx <==> keep(catalog[i]))
    decreases |catalog|
  {
    if catalog == [] {
      idx := [];
    } else {
      var n := |catalog| - 1;
      var init := catalog[..n];
      var pre := SelectionPositions(init, keep);
      assert forall i :: 0 <= i < n ==> init[i] == catalog[i];
      if keep(catalog[n]) {
        idx := pre + [n];
      } else {
        idx := pre;
      }
    }
  }

  /** A recipe is selected exactly when it is in the catalog and covers the request. */
  lemma SelectionMember(catalog: seq<Recipe>, requested: seq<string>, r: Recipe)
    ensures r in Selection(catalog, requested) <==> r in catalog && Covers(r, requested)
  {
    var idx := SelectionPositions(catalog, r => Covers(r, requested));
    var sel := Selection(catalog, requested);
    if r in sel {
      var k :| 0 <= k < |sel| && sel[k] == r;
      assert catalog[idx[k]] == r;
    }
    if r in catalog && Covers(r, requested) {
      var i :| 0 <= i < |catalog| && catalog[i] == r;
      var k :| 0 <= k < |idx| && idx[k] == i;
      assert sel[k] == r;
    }
  }

  /** Every name matches itself, so a recipe covers its own ingredient list. */
  lemma CoversOwnIngredients(r: Recipe)
    ensures Covers(r, r.ingredients)
  {
    forall ing | ing in r.ingredients
      ensures exists ri :: ri in r.ingredients && Matches(ing, ri)
    {
      ContainsSelf(Lower(ing));
      assert Matches(ing, ing);
    }
  }

  /** Asking for a recipe's own ingredients finds that recipe. */
  lemma OwnIngredientsFindRecipe(catalog: seq<Recipe>, r: Recipe)
    requires r in catalog && r.ingredients != []
    ensures r in Filtered(catalog, r.ingredients)
  {
    CoversOwnIngredients(r);
    SelectionMember(catalog, r.ingredients, r);
  }

  /** Every recipe of the program's catalog is found from its own ingredients. */
  lemma CatalogRecipesFindThemselves(i: nat)
    requires i < |Recipes|
    ensures Recipes[i] in Filtered(Recipes, Recipes[i].ingredients)
  {
    assert Recipes[i].ingredients != [];
    OwnIngredientsFindRecipe(Recipes, Recipes[i]);
  }

  /** Enlarging a non-empty request never adds a recipe to the result. */
  lemma EnlargingNarrows(catalog: seq<Recipe>, small: seq<string>, large: seq<string>, r: Recipe)
    requires small != []
    requires forall x :: x in small ==> x in large
    requires r in Filtered(catalog, large)
    ensures r in Filtered(catalog, small)
  {
    assert large != [];
    SelectionMember(catalog, large, r);
    SelectionMember(catalog, small, r);
  }

  /*
   * The request ["pomidor", "cebula", "ser"]. Sałatka grecka (the first
   * recipe) covers it. Kanapka z serem and Omlet warzywny do not: each
   * lacks an ingredient that matches "pomidor" or "ser", although they
   * hold every ingredient they share with the request.
   */

  const TomatoOnionCheese: seq<string> := ["pomidor", "cebula", "ser"]

  /**
   * An ASCII lower-case letter that occurs in `s` neither as itself nor as
   * its upper-case form: after lower-casing, `s` still lacks it.
   */
  predicate Foreign(c: char, s: string) {
    'a' <= c <= 'z' && c !in s && ((c as int - 32) as char) !in s
  }

  lemma LowerOntoAscii(d: char)
    ensures 'a' <= LowerChar(d) <= 'z' ==> d == LowerChar(d) || d as int == LowerChar(d) as int - 32
  {
  }

  /** A string with a letter `hay` lacks does not occur in `hay`, in any case. */
  lemma ForeignNotContained(hay: string, needle: string, k: nat)
    requires k < |needle| && Foreign(needle[k], hay)
    ensures !Contains(Lower(hay), Lower(needle))
  {
    var c := needle[k];
    assert Lower(needle)[k] == c;
    if Contains(Lower(hay), Lower(needle)) {
      var i :| 0 <= i <= |hay| - |needle| && OccursAt(Lower(hay), Lower(needle), i);
      assert Lower(hay)[i + k] == Lower(needle)[k];
      LowerOntoAscii(hay[i + k]);
      assert false;
    }
  }

  /** Two names, each with a letter the other lacks, do not match. */
  lemma NoMatch(x: string, y: string, i: nat, j: nat)
    requires i < |x| && Foreign(x[i], y)
    requires j < |y| && Foreign(y[j], x)
    ensures !Matches(x, y)
  {
    ForeignNotContained(y, x, i);
    ForeignNotContained(x, y, j);
  }

  /**
   * A recipe does not cover a request when some requested name `q[k]`
   * fails every recipe ingredient: `fromReq[n]` and `fromIng[n]` give the
   * letters that set `q[k]` and the n-th ingredient apart.
   */
  lemma Uncovered(r: Recipe, q: seq<string>, k: nat, fromReq: seq<nat>, fromIng: seq<nat>)
    requires k < |q| && |fromReq| == |r.ingredients| && |fromIng| == |r.ingredients|
    requires forall n :: 0 <= n < |fromReq| ==> fromReq[n] < |q[k]| && Foreign(q[k][fromReq[n]], r.ingredients[n])
    requires forall n :: 0 <= n < |fromIng| ==> fromIng[n] < |r.ingredients[n]| && Foreign(r.ingredients[n][fromIng[n]], q[k])
    ensures !Covers(r, q)
  {
    forall ri | ri in r.ingredients
      ensures !Matches(q[k], ri)
    {
      var n :| 0 <= n < |r.ingredients| && r.ingredients[n] == ri;
      NoMatch(q[k], ri, fromReq[n], fromIng[n]);
    }
    assert q[k] in q;
  }

  lemma GreekSaladSelected()
    ensures Recipes[0] in Filtered(Recipes, TomatoOnionCheese)
  {
    var greek := Recipes[0];
    assert greek.ingredients == ["pomidor", "ogórek", "cebula", "ser", "oliwki"];
    forall ing | ing in TomatoOnionCheese
      ensures exists ri :: ri in greek.ingredients && Matches(ing, ri)
    {
      ContainsSelf(Lower(ing));
      assert ing in greek.ingredients;
    }
    SelectionMember(Recipes, TomatoOnionCheese, greek);
  }

  /** Kanapka z serem has no ingredient that matches "pomidor". */
  lemma CheeseSandwichNotSelected()
    ensures Recipes[3] !in Filtered(Recipes, TomatoOnionCheese)
  {
    var sandwich := Recipe("Kanapka z serem", ["chleb", "ser", "masło"]);
    assert Recipes[3] == sandwich;
    Uncovered(sandwich, TomatoOnionCheese, 0, [0, 0, 0], [0, 0, 1]);
    SelectionMember(Recipes, TomatoOnionCheese, sandwich);
  }

  /** Omlet warzywny has no ingredient that matches "ser". */
  lemma VegetableOmeletNotSelected()
    ensures Recipes[7] !in Filtered(Recipes, TomatoOnionCheese)
  {
    var omelet := Recipe("Omlet warzywny", ["jajko", "papryka", "cebula", "pomidor"]);
    assert Recipes[7] == omelet;
    Uncovered(omelet, TomatoOnionCheese, 2, [0, 0, 0, 0], [0, 0, 0, 0]);
    SelectionMember(Recipes, TomatoOnionCheese, omelet);
  }
}
