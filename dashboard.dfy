/**
 * The dashboard's figures, all computed from the user's meal list and the
 * current day: the last seven days' sums, today's totals and their energy
 * split, the weekly average, and the comparison with yesterday.
 */
module Dashboard {
  import opened Nutrition
  import opened Goals

  /** One entry of the seven-day chart. */
  datatype DayPoint = DayPoint(day: Day, totals: Nutrients)

  /** The n consecutive days from `start`, each with the sums of its meals. */
  function Window(meals: seq<Meal>, start: Day, n: nat): (r: seq<DayPoint>)
  {
    seq(n, i requires 0 <= i < n => DayPoint(start + i, DayTotals(meals, start + i)))
  }

  /** `last7Days`: today-6 through today, oldest first, each the sums of that day's meals. */
  function Last7Days(meals: seq<Meal>, today: Day): (r: seq<DayPoint>)
    ensures |r| == 7 && r[0].day == today - 6 && r[6].day == today
    ensures forall i | 0 <= i < 7 :: r[i].day == today - 6 + i && r[i].totals == DayTotals(meals, r[i].day)
  {
    Window(meals, today - 6, 7)
  }

  /** The days of the window are distinct, so a meal lands in at most one entry. */
  lemma WindowDaysDistinct(meals: seq<Meal>, today: Day, m: Meal)
    ensures forall i, j | 0 <= i < j < 7 :: Last7Days(meals, today)[i].day < Last7Days(meals, today)[j].day
    ensures forall i, j | 0 <= i < 7 && 0 <= j < 7 &&
        DayOf(m.createdAt) == Last7Days(meals, today)[i].day &&
        DayOf(m.createdAt) == Last7Days(meals, today)[j].day :: i == j
  {
  }

  /** Sum of the entries' totals (the `reduce` over `last7Days`). */
  function PointsTotal(points: seq<DayPoint>): Nutrients
  {
    if points == [] then Zero else Add(points[0].totals, PointsTotal(points[1..]))
  }

  /** The meals whose day lies in [lo, hi), in their original order. */
  function Between(meals: seq<Meal>, lo: Day, hi: Day): (r: seq<Meal>)
    ensures forall m :: m in r <==> m in meals && lo <= DayOf(m.createdAt) < hi
  {
    if meals == [] then []
    else
      var last := meals[|meals| - 1];
      Between(meals[..|meals| - 1], lo, hi) + (if lo <= DayOf(last.createdAt) < hi then [last] else [])
  }

  /** The window's sum is its first day's sums plus the sum of the remaining days. */
  lemma WindowSumSplit(meals: seq<Meal>, start: Day, n: nat)
    requires n > 0
    ensures PointsTotal(Window(meals, start, n))
         == Add(DayTotals(meals, start), PointsTotal(Window(meals, start + 1, n - 1)))
  {
    var w := Window(meals, start, n);
    assert w[0] == DayPoint(start, DayTotals(meals, start));
    assert w[1..] == Window(meals, start + 1, n - 1);
  }

  lemma {:induction false} WindowOfNoMeals(start: Day, n: nat)
    ensures PointsTotal(Window([], start, n)) == Zero
    decreases n
  {
    if n > 0 {
      WindowOfNoMeals(start + 1, n - 1);
      WindowSumSplit([], start, n);
      assert DayTotals([], start) == Zero by {
        assert OnDay([], start) == [];
      }
    }
  }

  /** One more meal raises the window's sum by that meal when its day is in the window. */
  lemma {:induction false} WindowAppend(meals: seq<Meal>, m: Meal, start: Day, n: nat)
    ensures PointsTotal(Window(meals + [m], start, n)) ==
      if start <= DayOf(m.createdAt) < start + n then Add(PointsTotal(Window(meals, start, n)), Counted(m))
      else PointsTotal(Window(meals, start, n))
    decreases n
  {
    if n > 0 {
      WindowAppend(meals, m, start + 1, n - 1);
      DayTotalsAppend(meals, m, start);
      WindowSumSplit(meals, start, n);
      WindowSumSplit(meals + [m], start, n);
      var t0, rest := DayTotals(meals, start), PointsTotal(Window(meals, start + 1, n - 1));
      var t0', rest' := DayTotals(meals + [m], start), PointsTotal(Window(meals + [m], start + 1, n - 1));
      var d, c := DayOf(m.createdAt), Counted(m);
      if d == start {
        assert t0' == Add(t0, c) && rest' == rest;
        assert Add(Add(t0, c), rest) == Add(Add(t0, rest), c);
      } else if start < d < start + n {
        assert t0' == t0 && rest' == Add(rest, c);
        assert Add(t0, Add(rest, c)) == Add(Add(t0, rest), c);
      } else {
        assert t0' == t0 && rest' == rest;
      }
    }
  }

  /** The sum over the window's entries is the sum over the meals of those days. */
  lemma {:induction false} WindowSumIsRangeSum(meals: seq<Meal>, start: Day, n: nat)
    ensures PointsTotal(Window(meals, start, n)) == Total(Between(meals, start, start + n))
    decreases |meals|
  {
    if meals == [] {
      WindowOfNoMeals(start, n);
    } else {
      var ms, m := meals[..|meals| - 1], meals[|meals| - 1];
      assert meals == ms + [m];
      var before := Between(ms, start, start + n);
      WindowSumIsRangeSum(ms, start, n);
      WindowAppend(ms, m, start, n);
      if start <= DayOf(m.createdAt) < start + n {
        assert Between(meals, start, start + n) == before + [m];
        TotalSnoc(before, m);
      } else {
        assert Between(meals, start, start + n) == before + [];
        assert before + [] == before;
      }
    }
  }

  /** A quantity divided by n, fieldwise. */
  function Divide(a: Nutrients, n: real): (r: Nutrients)
    requires n != 0.0
    ensures Nutrients(r.calories * n, r.protein * n, r.carbs * n, r.fat * n) == a
  {
    Nutrients(a.calories / n, a.protein / n, a.carbs / n, a.fat / n)
  }

  /** `weeklyAverage`: the seven entries' sum over 7, empty days counting as 0. */
  function WeeklyAverage(meals: seq<Meal>, today: Day): (r: Nutrients)
    ensures var sum := PointsTotal(Last7Days(meals, today));
      Nutrients(r.calories * 7.0, r.protein * 7.0, r.carbs * 7.0, r.fat * 7.0) == sum
  {
    Divide(PointsTotal(Last7Days(meals, today)), 7.0)
  }

  /** Seven times the weekly average is the sum over the meals of today-6 through today. */
  lemma WeeklyAverageIsWindowMean(meals: seq<Meal>, today: Day)
    ensures var avg := WeeklyAverage(meals, today);
      Nutrients(avg.calories * 7.0, avg.protein * 7.0, avg.carbs * 7.0, avg.fat * 7.0)
      == Total(Between(meals, today - 6, today + 1))
  {
    WindowSumIsRangeSum(meals, today - 6, 7);
  }

  /** One slice of the macro pie: kilocalories from one macronutrient. */
  datatype MacroSlice = MacroSlice(name: string, kcal: real)

  /** `macrosData`: today's grams as energy, 4 kcal/g protein and carbs, 9 kcal/g fat. */
  function MacrosData(todayTotals: Nutrients): (r: seq<MacroSlice>)
    ensures |r| == 3
    ensures r[0].kcal == 4.0 * todayTotals.protein && r[1].kcal == 4.0 * todayTotals.carbs
    ensures r[2].kcal == 9.0 * todayTotals.fat
  {
    [MacroSlice("Proteínas", todayTotals.protein * 4.0),
     MacroSlice("Carboidratos", todayTotals.carbs * 4.0),
     MacroSlice("Gorduras", todayTotals.fat * 9.0)]
  }

  /**
   * A day that meets the macro goals exactly has a pie within 2 kcal of the
   * calorie goal: the pie and the goal split use the same energy factors.
   */
  lemma PieOfTheGoalsMatchesTheCalorieGoal(weight: real, height: real, age: real, gender: Gender,
                                           level: string, goal: string)
    ensures var g := CalculateDailyGoals(weight, height, age, gender, level, goal);
      var pie := MacrosData(Nutrients(g.calories as real, g.protein as real, g.carbs as real, g.fat as real));
      g.calories as real - 2.0 < pie[0].kcal + pie[1].kcal + pie[2].kcal <= g.calories as real + 2.0
  {
  }

  datatype Trend = Up | Down

  /** The yesterday comparison of the first card. */
  datatype Comparison = Comparison(todayCalories: real, yesterdayCalories: real, diff: real,
                                   trend: Trend, badgeShown: bool)

  /**
   * `caloriesDiff`, `caloriesTrend` and the badge: up exactly when today's
   * calories exceed yesterday's (a tie reads as down), and the badge shows
   * exactly when the two differ.
   */
  function CompareWithYesterday(meals: seq<Meal>, today: Day): (c: Comparison)
    ensures c.todayCalories == DayTotals(meals, today).calories
    ensures c.yesterdayCalories == DayTotals(meals, today - 1).calories
    ensures c.trend == Up <==> c.todayCalories > c.yesterdayCalories
    ensures c.badgeShown <==> c.todayCalories != c.yesterdayCalories
    ensures c.todayCalories == c.yesterdayCalories + c.diff
  {
    var todayCalories := DayTotals(meals, today).calories;
    var yesterdayCalories := DayTotals(meals, today - 1).calories;
    var diff := todayCalories - yesterdayCalories;
    Comparison(todayCalories, yesterdayCalories, diff, if diff > 0.0 then Up else Down, diff != 0.0)
  }

  /** The comparison reads the last two entries of the seven-day chart. */
  lemma ComparisonAgreesWithChart(meals: seq<Meal>, today: Day)
    ensures CompareWithYesterday(meals, today).todayCalories == Last7Days(meals, today)[6].totals.calories
    ensures CompareWithYesterday(meals, today).yesterdayCalories == Last7Days(meals, today)[5].totals.calories
  {
    assert Last7Days(meals, today)[5].day == today - 1;
  }

  /** A meal of any day but today or yesterday leaves the comparison as it was. */
  lemma OtherDaysDoNotMoveTheComparison(meals: seq<Meal>, m: Meal, today: Day)
    requires DayOf(m.createdAt) != today && DayOf(m.createdAt) != today - 1
    ensures CompareWithYesterday(meals + [m], today) == CompareWithYesterday(meals, today)
  {
    DayTotalsAppend(meals, m, today);
    DayTotalsAppend(meals, m, today - 1);
  }

  /** A meal logged today with non-negative calories never turns an upward trend down. */
  lemma LoggingTodayCanOnlyRaiseTheTrend(meals: seq<Meal>, m: Meal, today: Day)
    requires DayOf(m.createdAt) == today && OrZero(m.calories) >= 0.0
    requires CompareWithYesterday(meals, today).trend == Up
    ensures CompareWithYesterday(meals + [m], today).trend == Up
  {
    DayTotalsAppend(meals, m, today);
    DayTotalsAppend(meals, m, today - 1);
  }
}
