/**
 * ResultsActivity's save button: the analysed dish becomes a SavedMeal row, which is inserted
 * through MealRepository; only a successful insert announces the new meal and disables the button.
 */
module Results {
  import opened Wrappers
  import opened Models
  import opened Meals
  import opened MealRepo

  /** The button text after a successful save. */
  const SavedLabel: string := "Збережено"

  /**
   * The row built from a dish saved at `now`, with the product list serialised by `toJson`: none
   * when the dish has no nutrition, otherwise an unassigned id, the dish's name and the dish-level
   * totals as they are.
   */
  function ToSavedMeal(food: Food, now: int, toJson: seq<Product> -> string): (r: Option<SavedMeal>)
    ensures r.None? <==> food.nutrition.None?
    ensures r.Some? ==>
      && r.value.id == 0 && r.value.name == food.name && r.value.date == now
      && r.value.totalCalories == food.nutrition.value.calories
      && r.value.totalProteins == food.nutrition.value.proteins
      && r.value.totalFats == food.nutrition.value.fats
      && r.value.totalCarbs == food.nutrition.value.carbs
      && r.value.products == toJson(food.products)
  {
    match food.nutrition
    case None => None
    case Some(n) =>
      Some(SavedMeal(
        name := food.name,
        date := now,
        totalCalories := n.calories,
        totalProteins := n.proteins,
        totalFats := n.fats,
        totalCarbs := n.carbs,
        products := toJson(food.products)))
  }

  /** The saved totals depend on the dish-level nutrition only, never on the products' own values. */
  lemma TotalsIgnoreProducts(a: Food, b: Food, now: int, toJson: seq<Product> -> string)
    requires a.nutrition == b.nutrition && a.nutrition.Some?
    ensures var ra, rb := ToSavedMeal(a, now, toJson).value, ToSavedMeal(b, now, toJson).value;
      ra.(name := rb.name, products := rb.products) == rb
  {
  }

  class ResultsActivity {
    /** The analysed dish, decoded from the intent when the screen opens. */
    const food: Food
    const repository: MealRepository
    var saveEnabled: bool
    /** The save button's text once changed; none while it shows the layout's own text. */
    var saveLabel: Option<string>
    /** How many meal-saved broadcasts the screen has sent. */
    var broadcasts: nat
    /** The last insert error, shown as a toast. */
    var saveFailure: Option<DaoError>

    constructor(food: Food, repository: MealRepository)
      ensures this.food == food && this.repository == repository
      ensures saveEnabled && saveLabel.None? && broadcasts == 0 && saveFailure.None?
    {
      this.food := food;
      this.repository := repository;
      saveEnabled := true;
      saveLabel := None;
      broadcasts := 0;
      saveFailure := None;
    }

    /**
     * A click on the save button at time `now` (a disabled button delivers no click). Without
     * nutrition nothing happens; otherwise the row is inserted with a fresh id, and only when the
     * insert succeeds is the broadcast sent and the button disabled and relabelled.
     */
    method SaveClicked(now: int, toJson: seq<Product> -> string)
      requires repository.dao.Valid()
      modifies this, repository.dao
      ensures repository.dao.Valid() && repository.dao.failing == old(repository.dao.failing)
      ensures var meal := ToSavedMeal(food, now, toJson);
        if !old(saveEnabled) || meal.None? then
          && repository.dao.rows == old(repository.dao.rows) && repository.dao.lastId == old(repository.dao.lastId)
          && saveEnabled == old(saveEnabled) && saveLabel == old(saveLabel)
          && broadcasts == old(broadcasts) && saveFailure == old(saveFailure)
        else if old(repository.dao.failing) then
          && repository.dao.rows == old(repository.dao.rows) && repository.dao.lastId == old(repository.dao.lastId)
          && saveEnabled && saveLabel == old(saveLabel)
          && broadcasts == old(broadcasts) && saveFailure == Some(StorageFailure)
        else
          && repository.dao.rows == old(repository.dao.rows) + [meal.value.(id := old(repository.dao.lastId) + 1)]
          && repository.dao.lastId == old(repository.dao.lastId) + 1
          && !saveEnabled && saveLabel == Some(SavedLabel)
          && broadcasts == old(broadcasts) + 1 && saveFailure == old(saveFailure)
    {
      if !saveEnabled {
        return;
      }
      var meal := ToSavedMeal(food, now, toJson);
      if meal.None? {
        return;
      }
      var r := repository.InsertMeal(meal.value);
      if r.Ok? {
        broadcasts := broadcasts + 1;
        saveEnabled := false;
        saveLabel := Some(SavedLabel);
      } else {
        saveFailure := Some(r.error);
      }
    }
  }
}
