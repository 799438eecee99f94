/**
 * The home page's own logic: the meal label chosen from the hour of the
 * upload, the totals of the foods the image analysis returned, the meal
 * record saved from them, and today's quick stats.
 */
module MealPage {
  import opened Wrappers
  import opened Nutrition

  const Breakfast: string := "Café da Manhã"
  const Lunch: string := "Almoço"
  const Snack: string := "Lanche"
  const Dinner: string := "Jantar"

  /** `getMealType`: the label for the local hour of the upload. */
  function MealType(hour: int): (kind: string)
    ensures kind == Breakfast <==> hour < 12
    ensures kind == Lunch <==> 12 <= hour < 16
    ensures kind == Snack <==> 16 <= hour < 20
    ensures kind == Dinner <==> 20 <= hour
  {
    if hour < 12 then Breakfast
    else if hour < 16 then Lunch
    else if hour < 20 then Snack
    else Dinner
  }

  /** Position of a label in the day: breakfast 0, lunch 1, snack 2, dinner 3. */
  function MealSlot(kind: string): int
  {
    if kind == Breakfast then 0
    else if kind == Lunch then 1
    else if kind == Snack then 2
    else 3
  }

  /** A later hour never gets an earlier meal of the day. */
  lemma MealTypeFollowsTheDay(h: int, h': int)
    requires h <= h'
    ensures MealSlot(MealType(h)) <= MealSlot(MealType(h'))
  {
  }

  /** Every hour of the clock gets exactly one of the four labels. */
  lemma EveryHourHasOneLabel(hour: int)
    requires 0 <= hour < 24
    ensures MealType(hour) in [Breakfast, Lunch, Snack, Dinner]
    ensures |set l | l in [Breakfast, Lunch, Snack, Dinner] && l == MealType(hour)| == 1
  {
    var l := MealType(hour);
    assert (set x | x in [Breakfast, Lunch, Snack, Dinner] && x == l) == {l};
  }

  /** One food item of the image analysis. */
  datatype Food = Food(name: string, quantity: string, calories: real, protein: real, carbs: real, fat: real)

  function FoodNutrients(f: Food): Nutrients
  {
    Nutrients(f.calories, f.protein, f.carbs, f.fat)
  }

  /**
   * The `reduce` over `analysis.foods`, left to right from all zeros: each of
   * the four fields is the sum of that field over the foods.
   */
  function FoodTotals(foods: seq<Food>): (r: Nutrients)
    ensures foods == [] ==> r == Zero
    ensures |foods| == 1 ==> r == FoodNutrients(foods[0])
  {
    if foods == [] then Zero
    else
      assert |foods| == 1 ==> foods[..0] == [];
      Add(FoodTotals(foods[..|foods| - 1]), FoodNutrients(foods[|foods| - 1]))
  }

  /** The totals of two lists of foods put together are the sums of their totals. */
  lemma {:induction false} FoodTotalsConcat(a: seq<Food>, b: seq<Food>)
    ensures FoodTotals(a + b) == Add(FoodTotals(a), FoodTotals(b))
    decreases |b|
  {
    if b == [] {
      assert a + b == a;
    } else {
      var b' := b[..|b| - 1];
      assert (a + b)[..|a + b| - 1] == a + b';
      FoodTotalsConcat(a, b');
    }
  }

  /**
   * The row `mealOperations.create` saves: the four `total_*` columns are the
   * food totals and `meal_type` is the label of the upload hour. The id and
   * the creation instant are assigned by the store.
   */
  function SavedMeal(id: nat, userId: UserId, foods: seq<Food>, hour: int, createdAt: int): (m: Meal)
    ensures m.user == userId && m.createdAt == createdAt && m.mealType == Some(MealType(hour))
    ensures Counted(m) == FoodTotals(foods)
  {
    var t := FoodTotals(foods);
    Meal(id, userId, createdAt, Some(MealType(hour)), Some(t.calories), Some(t.protein),
         Some(t.carbs), Some(t.fat))
  }

  /**
   * The quick stats: each of the four values sums that column over the
   * meals created today; a null column counts as 0. This is
   * `Nutrition.DayTotals` of today, under the page's name.
   */
  function QuickStats(meals: seq<Meal>, today: Day): (r: Nutrients)
    ensures OnDay(meals, today) == [] ==> r == Zero
  {
    DayTotals(meals, today)
  }

  /** Meals of other days do not change the quick stats. */
  lemma QuickStatsIgnoreOtherDays(meals: seq<Meal>, m: Meal, today: Day)
    requires DayOf(m.createdAt) != today
    ensures QuickStats(meals + [m], today) == QuickStats(meals, today)
  {
    DayTotalsAppend(meals, m, today);
  }

  /**
   * Saving an analysed meal today raises each quick-stat value by exactly
   * that field of the food totals.
   */
  lemma SavingAMealRaisesQuickStats(meals: seq<Meal>, id: nat, userId: UserId, foods: seq<Food>,
                                    hour: int, createdAt: int, today: Day)
    requires DayOf(createdAt) == today
    ensures QuickStats(meals + [SavedMeal(id, userId, foods, hour, createdAt)], today)
         == Add(QuickStats(meals, today), FoodTotals(foods))
  {
    DayTotalsAppend(meals, SavedMeal(id, userId, foods, hour, createdAt), today);
  }

  /** The lunch of the sample data: rice, chicken and broccoli give 380 kcal, 38 g, 45 g, 6 g. */
  lemma SampleLunchTotals()
    ensures FoodTotals([Food("Arroz integral", "150g", 180.0, 4.0, 38.0, 2.0),
                        Food("Frango grelhado", "120g", 165.0, 31.0, 0.0, 4.0),
                        Food("Brócolis", "100g", 35.0, 3.0, 7.0, 0.0)])
         == Nutrients(380.0, 38.0, 45.0, 6.0)
  {
    var rice := Food("Arroz integral", "150g", 180.0, 4.0, 38.0, 2.0);
    var chicken := Food("Frango grelhado", "120g", 165.0, 31.0, 0.0, 4.0);
    var broccoli := Food("Brócolis", "100g", 35.0, 3.0, 7.0, 0.0);
    assert FoodTotals([rice]) == FoodNutrients(rice);
    assert FoodTotals([chicken]) == FoodNutrients(chicken);
    assert FoodTotals([broccoli]) == FoodNutrients(broccoli);
    FoodTotalsConcat([rice], [chicken]);
    assert [rice] + [chicken] == [rice, chicken];
    FoodTotalsConcat([rice, chicken], [broccoli]);
    assert [rice, chicken] + [broccoli] == [rice, chicken, broccoli];
  }
}
