/** Recipes: what a production needs, what it is allowed to draw, and the capacity published for an article. */
module Capacity {
  import opened Wrappers
  import opened Lots

  datatype Ingredient = Ingredient(mp: nat, quantity: real)

  /** A recipe names each raw material once. */
  predicate IsRecipe(recipe: seq<Ingredient>) {
    forall i, j :: 0 <= i < j < |recipe| ==> recipe[i].mp != recipe[j].mp
  }

  predicate HasPositiveQuantities(recipe: seq<Ingredient>) {
    forall i :: 0 <= i < |recipe| ==> recipe[i].quantity > 0.0
  }

  predicate Known(stock: map<Item, real>, recipe: seq<Ingredient>) {
    forall i :: 0 <= i < |recipe| ==> Matiere(recipe[i].mp) in stock
  }

  function Need(ingredient: Ingredient, count: nat): real {
    ingredient.quantity * count as real
  }

  function SellableOf(stock: map<Item, real>, lots: seq<Lot>, mp: nat, today: int): real
    requires Matiere(mp) in stock
  {
    Sellable(lots, Matiere(mp), stock[Matiere(mp)], today)
  }

  /** The check made before any write: every need is sellable. */
  predicate IsCovered(stock: map<Item, real>, lots: seq<Lot>, recipe: seq<Ingredient>, count: nat, today: int)
    requires Known(stock, recipe)
  {
    forall i :: 0 <= i < |recipe| ==> Need(recipe[i], count) <= SellableOf(stock, lots, recipe[i].mp, today)
  }

  /** The guard each conditional update repeats: the whole stock covers the need. */
  predicate PassesUpdates(stock: map<Item, real>, recipe: seq<Ingredient>, count: nat)
    requires Known(stock, recipe)
  {
    forall i :: 0 <= i < |recipe| ==> Need(recipe[i], count) <= stock[Matiere(recipe[i].mp)]
  }

  predicate CanProduce(stock: map<Item, real>, lots: seq<Lot>, recipe: seq<Ingredient>, count: nat, today: int) {
    Known(stock, recipe) && IsCovered(stock, lots, recipe, count, today) && PassesUpdates(stock, recipe, count)
  }

  function Possible(stock: map<Item, real>, lots: seq<Lot>, ingredient: Ingredient, today: int): int
    requires Matiere(ingredient.mp) in stock && ingredient.quantity > 0.0
  {
    (SellableOf(stock, lots, ingredient.mp, today) / ingredient.quantity).Floor
  }

  /** The number of units of the most limiting ingredient; 0 for an article without recipe. */
  function Published(stock: map<Item, real>, lots: seq<Lot>, recipe: seq<Ingredient>, today: int): int
    requires Known(stock, recipe) && HasPositiveQuantities(recipe)
  {
    if recipe == [] then 0
    else
      var n := |recipe| - 1;
      var current := Possible(stock, lots, recipe[n], today);
      if n == 0 then current
      else
        var least := Published(stock, lots, recipe[..n], today);
        if current < least then current else least
  }

  lemma FloorOfQuotient(stock: real, quantity: real, count: int)
    requires quantity > 0.0
    ensures count <= (stock / quantity).Floor <==> quantity * count as real <= stock
  {
    var x := stock / quantity;
    assert x * quantity == stock;
    if count as real <= x {
      assert quantity * count as real <= quantity * x;
    } else {
      assert quantity * count as real > quantity * x;
    }
  }

  lemma {:induction false} PublishedIsTheMinimum(
      stock: map<Item, real>, lots: seq<Lot>, recipe: seq<Ingredient>, today: int, count: int)
    requires Known(stock, recipe) && HasPositiveQuantities(recipe) && recipe != []
    ensures count <= Published(stock, lots, recipe, today) <==>
              forall i :: 0 <= i < |recipe| ==> count <= Possible(stock, lots, recipe[i], today)
  {
    var n := |recipe| - 1;
    if n > 0 {
      PublishedIsTheMinimum(stock, lots, recipe[..n], today, count);
      assert forall i :: 0 <= i < n ==> recipe[..n][i] == recipe[i];
    }
  }

  /** Sufficient sellable stock makes every conditional update succeed. */
  lemma CoveredPassesUpdates(stock: map<Item, real>, lots: seq<Lot>, recipe: seq<Ingredient>, count: nat, today: int)
    requires Known(stock, recipe) && HasPositiveQuantities(recipe) && count >= 1
    requires IsCovered(stock, lots, recipe, count, today)
    ensures PassesUpdates(stock, recipe, count)
    ensures forall i :: 0 <= i < |recipe| ==>
              var item := Matiere(recipe[i].mp);
              stock[item] - Need(recipe[i], count) >= ExpiredHeld(lots, item, today, |lots|)
  {
    forall i | 0 <= i < |recipe|
      ensures var item := Matiere(recipe[i].mp);
              stock[item] - Need(recipe[i], count) >= ExpiredHeld(lots, item, today, |lots|)
    {
      var item := Matiere(recipe[i].mp);
      assert Need(recipe[i], count) > 0.0;
      SellableCovers(lots, item, stock[item], today, Need(recipe[i], count));
    }
  }

  lemma EachIngredientSuffices(
      stock: map<Item, real>, lots: seq<Lot>, recipe: seq<Ingredient>, count: nat, today: int, i: nat)
    requires Known(stock, recipe) && HasPositiveQuantities(recipe) && i < |recipe|
    ensures count <= Possible(stock, lots, recipe[i], today) <==>
              Need(recipe[i], count) <= SellableOf(stock, lots, recipe[i].mp, today)
  {
    FloorOfQuotient(SellableOf(stock, lots, recipe[i].mp, today), recipe[i].quantity, count);
  }

  lemma CoveredWithinPublished(
      stock: map<Item, real>, lots: seq<Lot>, recipe: seq<Ingredient>, count: nat, today: int)
    requires Known(stock, recipe) && HasPositiveQuantities(recipe) && recipe != []
    ensures IsCovered(stock, lots, recipe, count, today) <==> count <= Published(stock, lots, recipe, today)
  {
    PublishedIsTheMinimum(stock, lots, recipe, today, count);
    forall i | 0 <= i < |recipe|
      ensures count <= Possible(stock, lots, recipe[i], today) <==>
                Need(recipe[i], count) <= SellableOf(stock, lots, recipe[i].mp, today)
    {
      EachIngredientSuffices(stock, lots, recipe, count, today, i);
    }
  }

  /** The published capacity is exact: n units can be produced exactly when n does not exceed it, except that an
      article without recipe publishes 0 and yet accepts every production. */
  lemma CapacityIsExact(stock: map<Item, real>, lots: seq<Lot>, recipe: seq<Ingredient>, count: nat, today: int)
    requires Known(stock, recipe) && HasPositiveQuantities(recipe) && count >= 1
    ensures CanProduce(stock, lots, recipe, count, today) <==>
              recipe == [] || count <= Published(stock, lots, recipe, today)
    ensures recipe == [] ==> Published(stock, lots, recipe, today) == 0
  {
    if recipe != [] {
      CoveredWithinPublished(stock, lots, recipe, count, today);
      if IsCovered(stock, lots, recipe, count, today) {
        CoveredPassesUpdates(stock, lots, recipe, count, today);
      }
    }
  }
}
