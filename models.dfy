/**
 * The app's data classes (models/Food.kt, Product.kt, SavedMeal.kt, UserSettings.kt), as values.
 * Kotlin's `Double` is modelled as `real`, `Int` and `Long` as `int`; a nullable field is an `Option`
 * and keeps the source's default of absent.
 */
module Models {
  import opened Wrappers

  /** Calories (kcal), proteins, fats and carbs (grams). */
  datatype NutritionInfo = NutritionInfo(calories: real, proteins: real, fats: real, carbs: real)

  /** A product of a dish: its nutrition defaults to absent ("not analysed yet"). */
  datatype Product = Product(name: string, weight: real, nutrition: Option<NutritionInfo> := None)

  /** A dish being analysed or edited: products in display order, dish-level nutrition absent by default. */
  datatype Food = Food(name: string, products: seq<Product>, nutrition: Option<NutritionInfo> := None)

  /**
   * A row of the saved_meals table. `id` 0 means "not assigned yet" (Room's autoGenerate), `date` is
   * epoch milliseconds and `products` is the serialised product list.
   */
  datatype SavedMeal = SavedMeal(
    id: int := 0,
    name: string,
    date: int,
    totalCalories: real,
    totalProteins: real,
    totalFats: real,
    totalCarbs: real,
    products: string)

  /** The singleton row of user_settings; every field has the source's default (id 1, zeros). */
  datatype UserSettings = UserSettings(
    id: int := 1,
    minCalories: real := 0.0,
    maxCalories: real := 0.0,
    currentStreak: int := 0,
    lastStreakDate: int := 0)

  /** The id of the one settings row every read asks for. */
  const SettingsId: int := 1
}
