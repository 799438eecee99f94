/**
 * The remote `daily_stats` table, reduced to what the aggregator uses: one row
 * per (user_id, date), read by that key, updated by the row id, inserted with
 * a store-assigned id, deleted by key. Each call takes a `fails` flag standing
 * for a network, permission or other store error of that call.
 */
module StatsTable {
  import opened Wrappers
  import opened Nutrition

  type Key = (UserId, Day)

  datatype StatsRow = StatsRow(
    id: nat,
    user: UserId,
    date: Day,
    totals: Nutrients,
    mealsCount: nat,
    createdAt: int,
    updatedAt: int)

  /** Every row sits under its own (user_id, date) key. */
  ghost predicate WellKeyed(rows: map<Key, StatsRow>)
  {
    forall k | k in rows :: rows[k].user == k.0 && rows[k].date == k.1
  }

  ghost predicate HasId(rows: map<Key, StatsRow>, id: nat)
  {
    exists k | k in rows :: rows[k].id == id
  }

  /**
   * Outcome of a `.eq('user_id', ..).eq('date', ..).single()` read: the row,
   * the "no rows" answer (code PGRST116), or any other error.
   */
  datatype Lookup = Found(row: StatsRow) | NoRows | Failed

  class Table {
    var rows: map<Key, StatsRow>
    var nextId: nat

    /** Keys agree with the rows, and ids are unique and below the next one to assign. */
    ghost predicate Valid()
      reads this
    {
      && WellKeyed(rows)
      && (forall k | k in rows :: rows[k].id < nextId)
      && (forall k, k' | k in rows && k' in rows && rows[k].id == rows[k'].id :: k == k')
    }

    constructor ()
      ensures Valid() && rows == map[] && nextId == 0
    {
      rows := map[];
      nextId := 0;
    }

    function LookupRow(user: UserId, date: Day, fails: bool): (r: Lookup)
      reads this
      ensures fails <==> r.Failed?
      ensures r.Found? <==> !fails && (user, date) in rows
      ensures r.Found? ==> r.row == rows[(user, date)]
    {
      if fails then Failed
      else if (user, date) in rows then Found(rows[(user, date)])
      else NoRows
    }

    /** `.update({...}).eq('id', id).select().single()`: no row with that id is an error. */
    method UpdateById(id: nat, totals: Nutrients, mealsCount: nat, now: int, fails: bool)
      returns (r: Option<StatsRow>)
      requires Valid()
      modifies this
      ensures Valid() && nextId == old(nextId)
      ensures fails || !HasId(old(rows), id) ==> r == None && rows == old(rows)
      ensures forall k | k in old(rows) && old(rows)[k].id == id :: !fails ==>
        && r == Some(old(rows)[k].(totals := totals, mealsCount := mealsCount, updatedAt := now))
        && rows == old(rows)[k := r.value]
    {
      if fails {
        return None;
      }
      if k :| k in rows && rows[k].id == id {
        var row := rows[k].(totals := totals, mealsCount := mealsCount, updatedAt := now);
        rows := rows[k := row];
        r := Some(row);
      } else {
        r := None;
      }
    }

    /**
     * `.insert({...}).select().single()`: the store assigns the id and both
     * timestamps; a second row for the same (user_id, date) violates the
     * table's unique constraint and is refused.
     */
    method Insert(user: UserId, date: Day, totals: Nutrients, mealsCount: nat, now: int, fails: bool)
      returns (r: Option<StatsRow>)
      requires Valid()
      modifies this
      ensures Valid()
      ensures fails || (user, date) in old(rows) ==>
        r == None && rows == old(rows) && nextId == old(nextId)
      ensures !fails && (user, date) !in old(rows) ==>
        && r == Some(StatsRow(old(nextId), user, date, totals, mealsCount, now, now))
        && rows == old(rows)[(user, date) := r.value]
        && nextId == old(nextId) + 1
    {
      if fails || (user, date) in rows {
        return None;
      }
      var row := StatsRow(nextId, user, date, totals, mealsCount, now, now);
      rows := rows[(user, date) := row];
      nextId := nextId + 1;
      r := Some(row);
    }

    /** `.delete().eq('user_id', ..).eq('date', ..)`: deleting a missing row is not an error. */
    method Delete(user: UserId, date: Day, fails: bool)
      requires Valid()
      modifies this
      ensures Valid() && nextId == old(nextId)
      ensures rows == if fails then old(rows) else old(rows) - {(user, date)}
    {
      if !fails {
        rows := rows - {(user, date)};
      }
    }
  }
}
