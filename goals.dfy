/**
 * Daily goals from body measurements: the Harris-Benedict basal metabolic
 * rate, an activity multiplier, a goal adjustment, and the split of the
 * calorie goal into protein, fat and carbohydrate grams.
 *
 * Numbers are reals; `Math.round` is `Round`, which rounds halves up.
 */
module Goals {

  /** `Math.round`: the nearest integer, halves rounded up. */
  function Round(x: real): (r: int)
    ensures x - 0.5 < r as real <= x + 0.5
  {
    (x + 0.5).Floor
  }

  /** Adding an integer before rounding is adding it after. */
  lemma RoundShift(x: real, k: int)
    ensures Round(x + k as real) == Round(x) + k
  {
  }

  lemma RoundMonotone(x: real, y: real)
    requires x <= y
    ensures Round(x) <= Round(y)
  {
  }

  datatype Gender = Male | Female | Other

  /**
   * `calculateBMR`: the male coefficients for 'male', the female ones for
   * every other gender.
   */
  function Bmr(weight: real, height: real, age: real, gender: Gender): (r: real)
    ensures weight >= 30.0 && height >= 100.0 && 0.0 <= age <= 120.0 ==> r > 0.0
  {
    if gender == Male then 88.362 + 13.397 * weight + 4.799 * height - 5.677 * age
    else 447.593 + 9.247 * weight + 3.098 * height - 4.330 * age
  }

  /** 'female' and 'other' share one formula; 'male' uses the other one. */
  lemma BmrSplitsOnMale(weight: real, height: real, age: real, g: Gender, g': Gender)
    requires g == Male <==> g' == Male
    ensures Bmr(weight, height, age, g) == Bmr(weight, height, age, g')
  {
  }

  /** More weight or height raises the rate, more age lowers it, for every gender. */
  lemma BmrMonotone(w: real, h: real, a: real, w': real, h': real, a': real, g: Gender)
    requires w <= w' && h <= h' && a' <= a
    ensures Bmr(w, h, a, g) <= Bmr(w', h', a', g)
    ensures (w < w' || h < h' || a' < a) ==> Bmr(w, h, a, g) < Bmr(w', h', a', g)
  {
  }

  /** The five activity levels of the lookup table, least active first. */
  const ActivityLevels: seq<string> := ["sedentary", "light", "moderate", "active", "very_active"]

  /** The multiplier of `calculateTDEE`; a level outside the table uses 1.55. */
  function ActivityMultiplier(level: string): (m: real)
    ensures level !in ActivityLevels ==> m == 1.55
    ensures 1.2 <= m <= 1.9
  {
    match level
    case "sedentary" => 1.2
    case "light" => 1.375
    case "moderate" => 1.55
    case "active" => 1.725
    case "very_active" => 1.9
    case _ => 1.55
  }

  /** The multipliers strictly increase along the table. */
  lemma MultipliersIncrease(i: int, j: int)
    requires 0 <= i < j < |ActivityLevels|
    ensures ActivityMultiplier(ActivityLevels[i]) < ActivityMultiplier(ActivityLevels[j])
  {
  }

  /** `calculateTDEE`: the basal rate scaled by the level's multiplier. */
  function Tdee(bmr: real, level: string): (r: real)
    ensures bmr >= 0.0 ==> 1.2 * bmr <= r <= 1.9 * bmr
    ensures level !in ActivityLevels ==> r == bmr * 1.55
  {
    bmr * ActivityMultiplier(level)
  }

  /** The adjustment of the goal table; a goal outside it adds 0. */
  function GoalAdjustment(goal: string): (adj: int)
    ensures goal !in {"lose_weight", "gain_weight", "gain_muscle"} ==> adj == 0
  {
    match goal
    case "lose_weight" => -500
    case "maintain" => 0
    case "gain_weight" => 300
    case "gain_muscle" => 400
    case _ => 0
  }

  datatype DailyGoals = DailyGoals(calories: int, protein: int, carbs: int, fat: int)

  /**
   * `calculateDailyGoals`. Each value is one rounding of its real target, and
   * carbs take the calories left after protein and fat, so the macros give
   * back the calorie goal to within 2 kcal.
   */
  function CalculateDailyGoals(weight: real, height: real, age: real, gender: Gender,
                               level: string, goal: string): (r: DailyGoals)
    ensures var target := Tdee(Bmr(weight, height, age, gender), level) + GoalAdjustment(goal) as real;
      target - 0.5 < r.calories as real <= target + 0.5
    ensures 2.0 * weight - 0.5 < r.protein as real <= 2.0 * weight + 0.5
    ensures 36 * r.fat - 18 <= r.calories < 36 * r.fat + 18
    ensures -2 < 4 * r.protein + 4 * r.carbs + 9 * r.fat - r.calories <= 2
  {
    var calories := Round(Tdee(Bmr(weight, height, age, gender), level) + GoalAdjustment(goal) as real);
    var protein := Round(weight * 2.0);
    var fat := Round(calories as real * 0.25 / 9.0);
    var carbs := Round((calories - protein * 4 - fat * 9) as real / 4.0);
    DailyGoals(calories, protein, carbs, fat)
  }

  /**
   * 75 kg, 175 cm, 30 years, male, moderate, maintain: BMR 1762.652,
   * TDEE 2732.1106, goals 2732 kcal, 150 g protein, 362 g carbs, 76 g fat.
   */
  lemma DefaultGoals()
    ensures CalculateDailyGoals(75.0, 175.0, 30.0, Male, "moderate", "maintain")
         == DailyGoals(2732, 150, 362, 76)
  {
    assert Bmr(75.0, 175.0, 30.0, Male) == 1762.652;
    assert Tdee(1762.652, "moderate") == 2732.1106;
    assert Round(2732.1106) == 2732;
    assert Round(75.0 * 2.0) == 150;
    assert Round(2732 as real * 0.25 / 9.0) == 76;
    assert Round((2732 - 150 * 4 - 76 * 9) as real / 4.0) == 362;
  }

  /**
   * The goal adjustment is an integer added before rounding, so against
   * 'maintain' the calorie goal moves by exactly that adjustment.
   */
  lemma GoalShiftsCalories(weight: real, height: real, age: real, gender: Gender, level: string,
                           goal: string)
    ensures CalculateDailyGoals(weight, height, age, gender, level, goal).calories
         == CalculateDailyGoals(weight, height, age, gender, level, "maintain").calories
            + GoalAdjustment(goal)
    ensures goal == "lose_weight" ==>
      CalculateDailyGoals(weight, height, age, gender, level, goal).calories
      == CalculateDailyGoals(weight, height, age, gender, level, "maintain").calories - 500
  {
    var tdee := Tdee(Bmr(weight, height, age, gender), level);
    RoundShift(tdee, GoalAdjustment(goal));
    assert tdee + 0 as real == tdee;
  }

  /**
   * With a positive basal rate, a more active level never gives a lower
   * calorie goal.
   */
  lemma MoreActiveNeverLowersCalories(weight: real, height: real, age: real, gender: Gender,
                                      goal: string, i: int, j: int)
    requires Bmr(weight, height, age, gender) > 0.0
    requires 0 <= i < j < |ActivityLevels|
    ensures CalculateDailyGoals(weight, height, age, gender, ActivityLevels[i], goal).calories
         <= CalculateDailyGoals(weight, height, age, gender, ActivityLevels[j], goal).calories
  {
    var bmr := Bmr(weight, height, age, gender);
    MultipliersIncrease(i, j);
    assert Tdee(bmr, ActivityLevels[i]) < Tdee(bmr, ActivityLevels[j]) by {
      var mi, mj := ActivityMultiplier(ActivityLevels[i]), ActivityMultiplier(ActivityLevels[j]);
      assert bmr * mi < bmr * mj;
    }
    RoundMonotone(Tdee(bmr, ActivityLevels[i]) + GoalAdjustment(goal) as real,
                  Tdee(bmr, ActivityLevels[j]) + GoalAdjustment(goal) as real);
  }
}
