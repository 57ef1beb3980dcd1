/**
 * The static recipe catalog (RECIPES): 25 recipes, each a name and its
 * ingredient names, fixed for the lifetime of the program.
 */
module Catalog {
  import opened Sequences

  datatype Recipe = Recipe(name: string, ingredients: seq<string>)

  const Recipes: seq<Recipe> := [
    Recipe("Sałatka grecka", ["pomidor", "ogórek", "cebula", "ser", "oliwki"]),
    Recipe("Jajecznica", ["jajko", "masło", "cebula"]),
    Recipe("Spaghetti Bolognese", ["makaron", "mięso mielone", "pomidor", "cebula", "czosnek"]),
    Recipe("Kanapka z serem", ["chleb", "ser", "masło"]),
    Recipe("Zupa pomidorowa", ["pomidor", "cebula", "czosnek", "marchew"]),
    Recipe("Kurczak pieczony", ["kurczak", "czosnek", "papryka"]),
    Recipe("Placki ziemniaczane", ["ziemniak", "cebula", "jajko", "mąka"]),
    Recipe("Omlet warzywny", ["jajko", "papryka", "cebula", "pomidor"]),
    Recipe("Pierogi ruskie", ["ziemniak", "ser biały", "cebula", "mąka"]),
    Recipe("Sałatka jarzynowa", ["marchew", "groszek", "ziemniak", "jajko", "majonez"]),
    Recipe("Ryba smażona", ["ryba", "mąka", "olej"]),
    Recipe("Gulasz wołowy", ["wołowina", "cebula", "papryka", "czosnek"]),
    Recipe("Risotto", ["ryż", "cebula", "parmezan", "masło"]),
    Recipe("Makaron z pesto", ["makaron", "bazylia", "czosnek", "ser"]),
    Recipe("Sałatka owocowa", ["jabłko", "banan", "pomarańcza", "kiwi"]),
    Recipe("Zupa ogórkowa", ["ogórek kiszony", "ziemniak", "marchew", "śmietana"]),
    Recipe("Pizza Margherita", ["mąka", "pomidor", "ser", "bazylia"]),
    Recipe("Chili con carne", ["fasola", "mięso mielone", "papryka", "cebula", "czosnek"]),
    Recipe("Kotlet schabowy", ["schab", "jajko", "bułka tarta", "olej"]),
    Recipe("Sałatka z tuńczykiem", ["tuńczyk", "sałata", "pomidor", "cebula"]),
    Recipe("Zupa krem z dyni", ["dynia", "cebula", "śmietana"]),
    Recipe("Leczo", ["papryka", "cukinia", "kiełbasa", "cebula", "pomidor"]),
    Recipe("Naleśniki z serem", ["mąka", "jajko", "ser", "mleko"]),
    Recipe("Sałatka Cezar", ["sałata", "kurczak", "ser", "grzanki"]),
    Recipe("Zupa grochowa", ["groch", "cebula", "marchew", "czosnek"])
  ]

  /**
   * Documents the constant: the catalog holds 25 recipes, each listing
   * three to five ingredients.
   */
  lemma CatalogShape()
    ensures |Recipes| == 25
    ensures forall i :: 0 <= i < |Recipes| ==> 3 <= |Recipes[i].ingredients| <= 5
  {
  }

  /** Every ingredient of every recipe, in catalog order, with repetitions. */
  function AllIngredients(catalog: seq<Recipe>): (all: seq<string>)
    ensures forall x :: x in all <==> exists r :: r in catalog && x in r.ingredients
  {
    if catalog == [] then []
    else
      var all := catalog[0].ingredients + AllIngredients(catalog[1..]);
      assert forall x :: x in all <==> exists r :: r in catalog && x in r.ingredients by {
        forall x | x in all ensures exists r :: r in catalog && x in r.ingredients {
          if x !in catalog[0].ingredients {
            var r :| r in catalog[1..] && x in r.ingredients;
            assert r in catalog;
          }
        }
        forall x | exists r :: r in catalog && x in r.ingredients ensures x in all {
          var r :| r in catalog && x in r.ingredients;
          if r != catalog[0] {
            assert r in catalog[1..];
          }
        }
      }
      all
  }

  /**
   * `list(set(...))` of all catalog ingredients: a duplicate-free listing
   * of exactly the catalog's ingredient names, in an order the model does
   * not fix (the order of a Python set).
   */
  predicate IsVocabulary(vocab: seq<string>, catalog: seq<Recipe>) {
    && NoDuplicates(vocab)
    && (forall x :: x in vocab ==> x in AllIngredients(catalog))
    && (forall x :: x in AllIngredients(catalog) ==> x in vocab)
  }
}
