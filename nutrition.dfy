/**
 * Nutrient quantities, meal rows and the per-day sums that the aggregator,
 * the home page and the dashboard are all built from.
 *
 * Dates are day numbers and instants are whole seconds on the same clock,
 * so "the meal was logged on day d" is `DayOf(createdAt) == d`.
 */
module Nutrition {
  import opened Wrappers

  type UserId = string

  /** A calendar day, counted from the epoch. */
  type Day = int

  const SecondsPerDay: int := 86400

  /** Kilocalories and grams of protein, carbohydrate and fat. */
  datatype Nutrients = Nutrients(calories: real, protein: real, carbs: real, fat: real)

  const Zero: Nutrients := Nutrients(0.0, 0.0, 0.0, 0.0)

  function Add(a: Nutrients, b: Nutrients): Nutrients
  {
    Nutrients(a.calories + b.calories, a.protein + b.protein, a.carbs + b.carbs, a.fat + b.fat)
  }

  /**
   * A row of the meals table. The four nutrient columns may be null, which
   * every sum in the application reads as 0 (`x || 0`, `Number(null)`).
   */
  datatype Meal = Meal(
    id: nat,
    user: UserId,
    createdAt: int,
    mealType: Option<string>,
    calories: Option<real>,
    protein: Option<real>,
    carbs: Option<real>,
    fat: Option<real>)

  function OrZero(x: Option<real>): real
  {
    if x.Some? then x.value else 0.0
  }

  /** What one meal adds to a sum. */
  function Counted(m: Meal): Nutrients
  {
    Nutrients(OrZero(m.calories), OrZero(m.protein), OrZero(m.carbs), OrZero(m.fat))
  }

  /** The day an instant falls on (floor division, also for instants before the epoch). */
  function DayOf(t: int): Day
  {
    t / SecondsPerDay
  }

  /** An instant is on day d exactly when it lies in the half-open interval [d, d+1). */
  lemma DayOfInterval(t: int, d: Day)
    ensures DayOf(t) == d <==> d * SecondsPerDay <= t < (d + 1) * SecondsPerDay
  {
    var q, r := t / SecondsPerDay, t % SecondsPerDay;
    assert t == q * SecondsPerDay + r && 0 <= r < SecondsPerDay;
    if d < q {
      assert (d + 1) * SecondsPerDay <= q * SecondsPerDay;
    } else if d > q {
      assert (q + 1) * SecondsPerDay <= d * SecondsPerDay;
    }
  }

  lemma DayOfMonotone(t1: int, t2: int)
    requires t1 <= t2
    ensures DayOf(t1) <= DayOf(t2)
  {
    DayOfInterval(t1, DayOf(t1));
    DayOfInterval(t2, DayOf(t2));
  }

  /**
   * Sum of the counted nutrients, the value the `reduce` calls compute; over
   * reals the direction of the fold does not change the sum.
   */
  function Total(meals: seq<Meal>): (r: Nutrients)
    ensures meals == [] ==> r == Zero
    ensures |meals| == 1 ==> r == Counted(meals[0])
  {
    if meals == [] then Zero else Add(Counted(meals[0]), Total(meals[1..]))
  }

  /** The meals logged on day d, in their original order. */
  function OnDay(meals: seq<Meal>, d: Day): (r: seq<Meal>)
    ensures |r| <= |meals|
    ensures forall m :: m in r <==> m in meals && DayOf(m.createdAt) == d
  {
    if meals == [] then []
    else
      var last := meals[|meals| - 1];
      OnDay(meals[..|meals| - 1], d) + (if DayOf(last.createdAt) == d then [last] else [])
  }

  /** The meals of one user, in their original order. */
  function OfUser(meals: seq<Meal>, u: UserId): (r: seq<Meal>)
    ensures |r| <= |meals|
    ensures forall m :: m in r <==> m in meals && m.user == u
  {
    if meals == [] then []
    else
      var last := meals[|meals| - 1];
      OfUser(meals[..|meals| - 1], u) + (if last.user == u then [last] else [])
  }

  /** The nutrients logged on day d. */
  function DayTotals(meals: seq<Meal>, d: Day): Nutrients
  {
    Total(OnDay(meals, d))
  }

  lemma {:induction false} TotalConcat(a: seq<Meal>, b: seq<Meal>)
    ensures Total(a + b) == Add(Total(a), Total(b))
  {
    if a == [] {
      assert a + b == b;
    } else {
      assert (a + b)[1..] == a[1..] + b;
      TotalConcat(a[1..], b);
    }
  }

  lemma TotalSnoc(s: seq<Meal>, x: Meal)
    ensures Total(s + [x]) == Add(Total(s), Counted(x))
  {
    TotalConcat(s, [x]);
    assert [x][1..] == [];
  }

  lemma {:induction false} OnDayConcat(a: seq<Meal>, b: seq<Meal>, d: Day)
    ensures OnDay(a + b, d) == OnDay(a, d) + OnDay(b, d)
    decreases |b|
  {
    if b == [] {
      assert a + b == a;
    } else {
      var b' := b[..|b| - 1];
      assert (a + b)[..|a + b| - 1] == a + b';
      OnDayConcat(a, b', d);
    }
  }

  lemma {:induction false} OfUserConcat(a: seq<Meal>, b: seq<Meal>, u: UserId)
    ensures OfUser(a + b, u) == OfUser(a, u) + OfUser(b, u)
    decreases |b|
  {
    if b == [] {
      assert a + b == a;
    } else {
      var b' := b[..|b| - 1];
      assert (a + b)[..|a + b| - 1] == a + b';
      OfUserConcat(a, b', u);
    }
  }

  /** Logging one more meal changes the sum of its own day only, by exactly that meal. */
  lemma DayTotalsAppend(meals: seq<Meal>, m: Meal, d: Day)
    ensures DayTotals(meals + [m], d) ==
      if DayOf(m.createdAt) == d then Add(DayTotals(meals, d), Counted(m)) else DayTotals(meals, d)
  {
    OnDayConcat(meals, [m], d);
    assert OnDay([m], d) == if DayOf(m.createdAt) == d then [m] else [] by {
      assert [m][..0] == [];
    }
    if DayOf(m.createdAt) == d {
      TotalSnoc(OnDay(meals, d), m);
    } else {
      assert OnDay(meals, d) + [] == OnDay(meals, d);
    }
  }
}
