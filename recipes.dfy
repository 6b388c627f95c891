/**
 * The ingredient coils each predefined cocktail is commanded through, in
 * order, written in terms of the ingredient table.
 */
module Recipes {
  import opened Cocktails

  function WriteAddressOf(id: string): nat
    requires id in IngredientMapping
  {
    IngredientMapping[id].writeAddress
  }

  const CocktailRecipes: map<string, seq<nat>> := map[
    "mojito" := [WriteAddressOf("mint"), WriteAddressOf("muddling"), WriteAddressOf("syrup"), WriteAddressOf("lime"),
                 WriteAddressOf("ice"), WriteAddressOf("white-rum"), WriteAddressOf("soda"), WriteAddressOf("stirring"),
                 WriteAddressOf("straw")],
    "cuba-libre" := [WriteAddressOf("ice"), WriteAddressOf("white-rum"), WriteAddressOf("lime"), WriteAddressOf("coke"),
                     WriteAddressOf("stirring"), WriteAddressOf("straw")],
    "cognac" := [WriteAddressOf("cognac")],
    "whiskey-rocks" := [WriteAddressOf("ice"), WriteAddressOf("whiskey")],
    "neat-whiskey" := [WriteAddressOf("whiskey")],
    "whiskey-highball" := [WriteAddressOf("ice"), WriteAddressOf("whiskey"), WriteAddressOf("soda"),
                           WriteAddressOf("stirring"), WriteAddressOf("straw")],
    "whiskey-coke" := [WriteAddressOf("ice"), WriteAddressOf("whiskey"), WriteAddressOf("coke"),
                       WriteAddressOf("stirring"), WriteAddressOf("straw")]
  ]

  /** Every recipe commands ingredient coils only; the mojito's order is fixed. */
  lemma RecipeAddresses()
    ensures forall id, a | id in CocktailRecipes && a in CocktailRecipes[id] :: 132 <= a <= 143
    ensures CocktailRecipes["mojito"] == [132, 133, 135, 136, 134, 137, 140, 142, 143]
  {
  }
}
