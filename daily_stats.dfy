/**
 * The today-only statistics helpers: an insert-or-add for today's row that
 * reports success as a boolean, today's row read with a zero placeholder, and
 * the rows of the last days, newest first.
 *
 * The reads take the table contents `rows` as a snapshot; a read error other
 * than "no rows" is the `fails` parameter.
 */
module DailyStats {
  import opened Wrappers
  import opened Nutrition
  import opened StatsTable
  import opened DailyStatsUpdater
  import opened Ordering

  /** Number of days `getLastDaysStats` looks back when not told. */
  const DefaultDays: int := 7

  /**
   * `updateDailyStats` in daily-stats: adds calories, protein, carbs and fat
   * to today's row, or inserts today's row with them and `meals_count = 1`.
   * The result is true exactly when the write went through.
   */
  method UpdateDailyStats(t: Table, configured: bool, userId: UserId, meal: Nutrients,
                          today: Day, now: int, faults: Faults)
    returns (ok: bool)
    requires t.Valid()
    modifies t
    ensures t.Valid()
    ensures ok <==> configured && !faults.lookupFails && !faults.writeFails
    ensures !ok ==> t.rows == old(t.rows) && t.nextId == old(t.nextId)
    ensures ok ==>
      var key := (userId, today);
      && key in t.rows
      && t.rows == old(t.rows)[key := t.rows[key]]
      && (key in old(t.rows) ==>
            var prev := old(t.rows)[key];
            t.rows[key] == prev.(totals := Add(prev.totals, meal), mealsCount := prev.mealsCount + 1,
                                 updatedAt := now))
      && (key !in old(t.rows) ==> t.rows[key] == StatsRow(old(t.nextId), userId, today, meal, 1, now, now))
  {
    if !configured {
      return false;
    }
    var existing := t.LookupRow(userId, today, faults.lookupFails);
    if existing.Failed? {
      return false;
    }
    var written: Option<StatsRow>;
    if existing.Found? {
      var prev := existing.row;
      written := t.UpdateById(prev.id, Add(prev.totals, meal), prev.mealsCount + 1, now, faults.writeFails);
    } else {
      written := t.Insert(userId, today, meal, 1, now, faults.writeFails);
    }
    ok := written.Some?;
  }

  /** What `getTodayStats` returns when it does not fail: the row, or all-zero fields. */
  datatype TodayStats = Stored(row: StatsRow) | Placeholder
  {
    function Totals(): Nutrients
    {
      if Stored? then row.totals else Zero
    }

    function MealsCount(): nat
    {
      if Stored? then row.mealsCount else 0
    }
  }

  /**
   * `getTodayStats`: None when not configured or on a read error; otherwise
   * today's row, or the zero placeholder when there is none.
   */
  function GetTodayStats(rows: map<Key, StatsRow>, configured: bool, userId: UserId, today: Day,
                         fails: bool): (r: Option<TodayStats>)
    ensures r.None? <==> !configured || fails
    ensures r.Some? && (userId, today) in rows ==> r.value == Stored(rows[(userId, today)])
    ensures r.Some? && (userId, today) !in rows ==>
      r.value.Totals() == Zero && r.value.MealsCount() == 0
  {
    if !configured || fails then None
    else if (userId, today) in rows then Some(Stored(rows[(userId, today)]))
    else Some(Placeholder)
  }

  /**
   * On a table consistent with the meals, today's stats are today's sum and
   * count whether a row exists or the placeholder stands in for it.
   */
  lemma TodayStatsMatchMeals(rows: map<Key, StatsRow>, meals: seq<Meal>, userId: UserId, today: Day)
    requires Consistent(rows, meals)
    ensures var r := GetTodayStats(rows, true, userId, today, false);
      && r.Some?
      && r.value.Totals() == Total(DayMeals(meals, userId, today))
      && r.value.MealsCount() == |DayMeals(meals, userId, today)|
  {
    assert RowMatches(rows, meals, (userId, today));
    if (userId, today) !in rows {
      assert DayMeals(meals, userId, today) == [];
    }
  }

  /** Start of the window `getLastDaysStats` reads: today - days, 7 days by default. */
  function WindowStart(today: Day, days: Option<int>): (start: Day)
    ensures days.None? ==> start == today - 7
    ensures days.Some? ==> today - start == days.value
  {
    today - (if days.Some? then days.value else DefaultDays)
  }

  /** The keys of this user's rows dated on or after `start`. */
  function UserKeysFrom(rows: map<Key, StatsRow>, userId: UserId, start: Day): (ks: set<Key>)
    ensures OneOwner(ks)
    ensures forall k :: k in ks <==> k in rows && k.0 == userId && k.1 >= start
  {
    set k | k in rows && k.0 == userId && k.1 >= start
  }

  /**
   * `getLastDaysStats` (and `dailyStatsOperations.getLastDays`, the same
   * query): this user's rows dated on or after today - days, newest first;
   * [] when not configured or on a read error.
   */
  function GetLastDaysStats(rows: map<Key, StatsRow>, configured: bool, userId: UserId, today: Day,
                            days: Option<int>, fails: bool): (r: seq<StatsRow>)
    ensures !configured || fails ==> r == []
  {
    if !configured || fails then []
    else
      var keys := LatestFirst(UserKeysFrom(rows, userId, WindowStart(today, days)));
      seq(|keys|, i requires 0 <= i < |keys| => rows[keys[i]])
  }

  /**
   * With a working store, `getLastDaysStats` returns exactly this user's rows
   * of the window, each once, in strictly decreasing date order.
   */
  lemma LastDaysStatsAreTheWindowNewestFirst(rows: map<Key, StatsRow>, userId: UserId, today: Day,
                                             days: Option<int>)
    requires WellKeyed(rows)
    ensures var r := GetLastDaysStats(rows, true, userId, today, days, false);
      && (forall i | 0 <= i < |r| ::
            && r[i].user == userId && r[i].date >= WindowStart(today, days)
            && (userId, r[i].date) in rows && rows[(userId, r[i].date)] == r[i])
      && (forall k | k in rows && k.0 == userId && k.1 >= WindowStart(today, days) :: rows[k] in r)
      && (forall i, j | 0 <= i < j < |r| :: r[i].date > r[j].date)
  {
    var start := WindowStart(today, days);
    var keys := LatestFirst(UserKeysFrom(rows, userId, start));
    var r := GetLastDaysStats(rows, true, userId, today, days, false);
    assert |r| == |keys| && forall i | 0 <= i < |r| :: r[i] == rows[keys[i]];
    forall i | 0 <= i < |r|
      ensures r[i].user == userId && r[i].date == keys[i].1 && keys[i].1 >= start
      ensures (userId, r[i].date) in rows && rows[(userId, r[i].date)] == r[i]
    {
      var k := keys[i];
      assert k in UserKeysFrom(rows, userId, start);
      assert rows[k].user == k.0 && rows[k].date == k.1;
      assert k == (userId, k.1);
    }
    forall k | k in rows && k.0 == userId && k.1 >= start
      ensures rows[k] in r
    {
      assert k in keys;
      var i :| 0 <= i < |keys| && keys[i] == k;
      assert r[i] == rows[k];
    }
  }
}
