/**
 * The daily-statistics aggregator: an incremental insert-or-add when a meal is
 * logged, and a full recompute from the day's meals (deleting the row when no
 * meal is left).
 *
 * The meals table is given to the recompute as a snapshot `meals`; the clock
 * is the `today` and `now` parameters; whether the store is configured and
 * which of its calls fail are the `configured` and `faults` parameters.
 */
module DailyStatsUpdater {
  import opened Wrappers
  import opened Nutrition
  import opened StatsTable

  /** Which store calls of one operation fail; "no rows" is not a failure. */
  datatype Faults = Faults(queryFails: bool, lookupFails: bool, writeFails: bool, deleteFails: bool)

  const NoFaults: Faults := Faults(false, false, false, false)

  /** `date || today`: an omitted date means today. */
  function TargetDate(date: Option<Day>, today: Day): (d: Day)
    ensures date.Some? ==> d == date.value
    ensures date.None? ==> d == today
  {
    if date.Some? then date.value else today
  }

  /** What the recompute's query returns: this user's meals created on day d. */
  function DayMeals(meals: seq<Meal>, u: UserId, d: Day): (r: seq<Meal>)
    ensures |r| <= |meals|
    ensures forall m :: m in r <==> m in meals && m.user == u && DayOf(m.createdAt) == d
  {
    OnDay(OfUser(meals, u), d)
  }

  /** The query's half-open interval [d, d + 1) selects exactly the meals of day d. */
  lemma DayMealsInInterval(meals: seq<Meal>, u: UserId, d: Day, m: Meal)
    ensures m in DayMeals(meals, u, d) <==>
      m in meals && m.user == u && d * SecondsPerDay <= m.createdAt < (d + 1) * SecondsPerDay
  {
    DayOfInterval(m.createdAt, d);
  }

  lemma DayMealsConcat(a: seq<Meal>, b: seq<Meal>, u: UserId, d: Day)
    ensures DayMeals(a + b, u, d) == DayMeals(a, u, d) + DayMeals(b, u, d)
  {
    OfUserConcat(a, b, u);
    OnDayConcat(OfUser(a, u), OfUser(b, u), d);
  }

  /** A meal only ever belongs to the day of its own (user, date) key. */
  lemma DayMealsSingle(m: Meal, u: UserId, d: Day)
    ensures DayMeals([m], u, d) == if m.user == u && DayOf(m.createdAt) == d then [m] else []
  {
    assert [m][..0] == [];
  }

  /**
   * The stored row of key k is the sum and count of that day's meals, and a
   * day without meals has no row.
   */
  ghost predicate RowMatches(rows: map<Key, StatsRow>, meals: seq<Meal>, k: Key)
  {
    var ms := DayMeals(meals, k.0, k.1);
    if |ms| == 0 then k !in rows
    else k in rows && rows[k].totals == Total(ms) && rows[k].mealsCount == |ms|
  }

  ghost predicate Consistent(rows: map<Key, StatsRow>, meals: seq<Meal>)
  {
    forall k :: RowMatches(rows, meals, k)
  }

  /**
   * Logging meal m and adding it to the row of its key (or creating that row
   * with m's values and count 1) keeps the row equal to the new sum and count.
   */
  lemma IncrementKeepsRowMatching(rows: map<Key, StatsRow>, meals: seq<Meal>, m: Meal, row: StatsRow)
    requires RowMatches(rows, meals, (m.user, DayOf(m.createdAt)))
    requires var k := (m.user, DayOf(m.createdAt));
      if k in rows
      then row.totals == Add(rows[k].totals, Counted(m)) && row.mealsCount == rows[k].mealsCount + 1
      else row.totals == Counted(m) && row.mealsCount == 1
    ensures RowMatches(rows[(m.user, DayOf(m.createdAt)) := row], meals + [m], (m.user, DayOf(m.createdAt)))
  {
    var u, d := m.user, DayOf(m.createdAt);
    var ms := DayMeals(meals, u, d);
    DayMealsConcat(meals, [m], u, d);
    DayMealsSingle(m, u, d);
    assert DayMeals(meals + [m], u, d) == ms + [m];
    TotalSnoc(ms, m);
    if (u, d) !in rows {
      assert ms == [];
      assert Total(ms) == Zero;
    }
  }

  /** Appending a meal leaves every other (user, date) key's meals as they were. */
  lemma AppendKeepsOtherDays(meals: seq<Meal>, m: Meal, k: Key)
    requires k != (m.user, DayOf(m.createdAt))
    ensures DayMeals(meals + [m], k.0, k.1) == DayMeals(meals, k.0, k.1)
  {
    DayMealsConcat(meals, [m], k.0, k.1);
    DayMealsSingle(m, k.0, k.1);
    assert DayMeals(meals, k.0, k.1) + [] == DayMeals(meals, k.0, k.1);
  }

  /** Removing meal i leaves every other (user, date) key's meals as they were. */
  lemma RemoveKeepsOtherDays(meals: seq<Meal>, i: nat, k: Key)
    requires i < |meals|
    requires k != (meals[i].user, DayOf(meals[i].createdAt))
    ensures DayMeals(meals[..i] + meals[i + 1..], k.0, k.1) == DayMeals(meals, k.0, k.1)
  {
    var m := meals[i];
    assert meals == meals[..i] + [m] + meals[i + 1..];
    DayMealsConcat(meals[..i] + [m], meals[i + 1..], k.0, k.1);
    DayMealsConcat(meals[..i], [m], k.0, k.1);
    DayMealsConcat(meals[..i], meals[i + 1..], k.0, k.1);
    DayMealsSingle(m, k.0, k.1);
    assert DayMeals(meals[..i], k.0, k.1) + [] == DayMeals(meals[..i], k.0, k.1);
  }

  /**
   * Incremental update (`updateDailyStats` in daily-stats-updater): adds the
   * meal's four values to the row of (user, date), or inserts a row holding
   * them with `meals_count = 1`, and returns the written row.
   */
  method UpdateDailyStats(t: Table, configured: bool, userId: UserId, meal: Nutrients,
                          date: Option<Day>, today: Day, now: int, faults: Faults)
    returns (r: Option<StatsRow>)
    requires t.Valid()
    modifies t
    ensures t.Valid()
    ensures !configured || faults.lookupFails || faults.writeFails ==>
      r == None && t.rows == old(t.rows) && t.nextId == old(t.nextId)
    ensures configured && !faults.lookupFails && !faults.writeFails ==>
      var key := (userId, TargetDate(date, today));
      && r.Some?
      && t.rows == old(t.rows)[key := r.value]
      && (key in old(t.rows) ==>
            var prev := old(t.rows)[key];
            && r.value == prev.(totals := Add(prev.totals, meal), mealsCount := prev.mealsCount + 1,
                                updatedAt := now)
            && t.nextId == old(t.nextId))
      && (key !in old(t.rows) ==>
            && r.value == StatsRow(old(t.nextId), userId, key.1, meal, 1, now, now)
            && t.nextId == old(t.nextId) + 1)
  {
    if !configured {
      return None;
    }
    var targetDate := TargetDate(date, today);
    var existing := t.LookupRow(userId, targetDate, faults.lookupFails);
    match existing
    case Failed =>
      r := None;
    case Found(prev) =>
      r := t.UpdateById(prev.id, Add(prev.totals, meal), prev.mealsCount + 1, now, faults.writeFails);
    case NoRows =>
      r := t.Insert(userId, targetDate, meal, 1, now, faults.writeFails);
  }

  /**
   * Full recompute (`recalculateDailyStats`): sums this user's meals of the
   * day. With none it deletes the row and returns None; otherwise it updates
   * the existing row or inserts one. Its row lookup ignores errors, so a failed
   * lookup leads to an insert, which the unique (user_id, date) constraint
   * refuses when the row does exist.
   */
  method RecalculateDailyStats(t: Table, configured: bool, userId: UserId, date: Option<Day>,
                               today: Day, meals: seq<Meal>, now: int, faults: Faults)
    returns (r: Option<StatsRow>)
    requires t.Valid()
    modifies t
    ensures t.Valid()
    ensures !configured || faults.queryFails ==> r == None && t.rows == old(t.rows)
    ensures configured && !faults.queryFails && |DayMeals(meals, userId, TargetDate(date, today))| == 0 ==>
      && r == None
      && t.rows == if faults.deleteFails then old(t.rows) else old(t.rows) - {(userId, TargetDate(date, today))}
    ensures configured && !faults.queryFails && |DayMeals(meals, userId, TargetDate(date, today))| > 0 ==>
      var key := (userId, TargetDate(date, today));
      var ms := DayMeals(meals, userId, key.1);
      if faults.writeFails || (faults.lookupFails && key in old(t.rows)) then
        r == None && t.rows == old(t.rows)
      else
        && r.Some?
        && t.rows == old(t.rows)[key := r.value]
        && r.value.user == userId && r.value.date == key.1
        && r.value.totals == Total(ms) && r.value.mealsCount == |ms| && r.value.updatedAt == now
        && (key in old(t.rows) ==> r.value.id == old(t.rows)[key].id)
  {
    if !configured || faults.queryFails {
      return None;
    }
    var targetDate := TargetDate(date, today);
    var dayMeals := DayMeals(meals, userId, targetDate);
    if |dayMeals| == 0 {
      t.Delete(userId, targetDate, faults.deleteFails);
      return None;
    }
    var totals := Total(dayMeals);
    var existing := t.LookupRow(userId, targetDate, faults.lookupFails);
    if existing.Found? {
      r := t.UpdateById(existing.row.id, totals, |dayMeals|, now, faults.writeFails);
    } else {
      r := t.Insert(userId, targetDate, totals, |dayMeals|, now, faults.writeFails);
    }
  }

  /**
   * The meal-creation flow as the aggregator intends it: the meal joins the
   * list and its values are added to its day's row. A consistent table stays
   * consistent.
   */
  method LogMeal(t: Table, meals: seq<Meal>, m: Meal, today: Day, now: int)
    returns (meals': seq<Meal>)
    requires t.Valid() && Consistent(t.rows, meals)
    modifies t
    ensures meals' == meals + [m]
    ensures t.Valid() && Consistent(t.rows, meals')
  {
    var key := (m.user, DayOf(m.createdAt));
    ghost var before := t.rows;
    assert RowMatches(before, meals, key);
    var r := UpdateDailyStats(t, true, m.user, Counted(m), Some(key.1), today, now, NoFaults);
    IncrementKeepsRowMatching(before, meals, m, r.value);
    meals' := meals + [m];
    forall k
      ensures RowMatches(t.rows, meals', k)
    {
      if k != key {
        AppendKeepsOtherDays(meals, m, k);
        assert RowMatches(before, meals, k);
      }
    }
  }

  /**
   * The meal-deletion flow as the aggregator intends it: meal j leaves the
   * list and its day is recomputed. A consistent table stays consistent, so
   * a day whose last meal goes loses its row.
   */
  method RemoveMeal(t: Table, meals: seq<Meal>, j: nat, today: Day, now: int)
    returns (meals': seq<Meal>)
    requires j < |meals|
    requires t.Valid() && Consistent(t.rows, meals)
    modifies t
    ensures meals' == meals[..j] + meals[j + 1..]
    ensures t.Valid() && Consistent(t.rows, meals')
  {
    var m := meals[j];
    var key := (m.user, DayOf(m.createdAt));
    ghost var before := t.rows;
    meals' := meals[..j] + meals[j + 1..];
    var r := RecalculateDailyStats(t, true, m.user, Some(key.1), today, meals', now, NoFaults);
    forall k
      ensures RowMatches(t.rows, meals', k)
    {
      if k != key {
        RemoveKeepsOtherDays(meals, j, k);
        assert RowMatches(before, meals, k);
      }
    }
  }

  /** Either a meal was logged, or the meal at an index of the list was removed. */
  datatype Event = Logged(meal: Meal) | Removed(index: nat)

  /**
   * The meal list after the events, in order: a logged meal is appended, and
   * a removal drops the meal at its index, or does nothing when the index is
   * past the end of the list.
   */
  function Apply(meals: seq<Meal>, events: seq<Event>): seq<Meal>
    decreases |events|
  {
    if events == [] then meals
    else
      var before := Apply(meals, events[..|events| - 1]);
      match events[|events| - 1]
      case Logged(m) => before + [m]
      case Removed(j) => if j < |before| then before[..j] + before[j + 1..] else before
  }

  /**
   * Any sequence of meal events, each followed by its aggregator call, keeps
   * the table consistent with the meal list: every row is its day's sum and
   * count, and no day without meals keeps a row.
   */
  method Replay(t: Table, meals0: seq<Meal>, events: seq<Event>, today: Day, now: int)
    returns (meals: seq<Meal>)
    requires t.Valid() && Consistent(t.rows, meals0)
    modifies t
    ensures meals == Apply(meals0, events)
    ensures t.Valid() && Consistent(t.rows, meals)
  {
    meals := meals0;
    for i := 0 to |events|
      invariant meals == Apply(meals0, events[..i])
      invariant t.Valid() && Consistent(t.rows, meals)
    {
      assert events[..i + 1][..i] == events[..i];
      match events[i]
      case Logged(m) =>
        meals := LogMeal(t, meals, m, today, now);
      case Removed(j) =>
        if j < |meals| {
          meals := RemoveMeal(t, meals, j, today, now);
        }
    }
    assert events[..|events|] == events;
  }

  /**
   * Recomputing twice with the same meals gives the same totals, count and
   * row; only `updated_at` may move.
   */
  method RecalculateTwice(t: Table, userId: UserId, date: Day, meals: seq<Meal>, now1: int, now2: int)
    returns (first: Option<StatsRow>, second: Option<StatsRow>)
    requires t.Valid()
    modifies t
    ensures t.Valid()
    ensures first.Some? <==> second.Some?
    ensures first.Some? ==>
      && second.value.totals == first.value.totals
      && second.value.mealsCount == first.value.mealsCount
      && second.value.id == first.value.id
  {
    first := RecalculateDailyStats(t, true, userId, Some(date), date, meals, now1, NoFaults);
    second := RecalculateDailyStats(t, true, userId, Some(date), date, meals, now2, NoFaults);
  }

  /**
   * Two meals logged on one day, then removed one at a time: the row goes
   * 380 kcal / 1 meal, then 800 kcal / 2 meals, then back to 420 kcal / 1
   * meal, then disappears.
   */
  method ScenarioAddAndRemove(user: UserId, day: Day, now: int)
  {
    var t := new Table();
    var at := day * SecondsPerDay;
    var m1 := Meal(1, user, at + 3600, None, Some(380.0), Some(38.0), Some(45.0), Some(6.0));
    var m2 := Meal(2, user, at + 7200, None, Some(420.0), Some(22.0), Some(34.0), Some(23.0));
    var r := UpdateDailyStats(t, true, user, Counted(m1), Some(day), day, now, NoFaults);
    assert r.value.totals == Nutrients(380.0, 38.0, 45.0, 6.0) && r.value.mealsCount == 1;
    r := UpdateDailyStats(t, true, user, Counted(m2), Some(day), day, now, NoFaults);
    assert r.value.totals == Nutrients(800.0, 60.0, 79.0, 29.0) && r.value.mealsCount == 2;

    DayOfInterval(m1.createdAt, day);
    DayOfInterval(m2.createdAt, day);
    assert DayMeals([m2], user, day) == [m2] by { DayMealsSingle(m2, user, day); }
    r := RecalculateDailyStats(t, true, user, Some(day), day, [m2], now, NoFaults);
    assert Total([m2]) == Counted(m2);
    assert r.value.totals.calories == 420.0 && r.value.mealsCount == 1;
    assert DayMeals([], user, day) == [];
    r := RecalculateDailyStats(t, true, user, Some(day), day, [], now, NoFaults);
    assert r == None && (user, day) !in t.rows;
  }
}
