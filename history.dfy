/**
 * The history tab: a newest-first copy of the meal list, grouped by the day
 * each meal was created on, groups listed in the order their first meal
 * appears; an empty list shows the empty state instead.
 */
module History {
  import opened Wrappers
  import opened Nutrition

  /** No meal comes before a newer one. */
  ghost predicate NewestFirst(s: seq<Meal>)
  {
    forall i, j | 0 <= i < j < |s| :: s[i].createdAt >= s[j].createdAt
  }

  /**
   * The first i+1 entries are newest first, except that the entry at j, the
   * one being moved left, may be newer than those before it.
   */
  ghost predicate NewestFirstBut(s: seq<Meal>, i: int, j: int)
    requires 0 <= j <= i < |s|
  {
    forall k, l | 0 <= k < l <= i && l != j :: s[k].createdAt >= s[l].createdAt
  }

  /**
   * One step of the insertion: exchanging the entry at j with its older left
   * neighbour keeps the same meals and moves the exception one place left.
   */
  lemma SwapStep(before: seq<Meal>, after: seq<Meal>, i: int, j: int)
    requires 0 < j <= i < |before| && NewestFirstBut(before, i, j)
    requires before[j - 1].createdAt < before[j].createdAt
    requires after == before[j - 1 := before[j]][j := before[j - 1]]
    ensures multiset(after) == multiset(before)
    ensures NewestFirstBut(after, i, j - 1)
  {
  }

  /** When the moved entry is no newer than its left neighbour, the prefix is in order. */
  lemma Settled(s: seq<Meal>, i: int, j: int)
    requires 0 <= j <= i < |s| && NewestFirstBut(s, i, j)
    requires j == 0 || s[j - 1].createdAt >= s[j].createdAt
    ensures forall k, l | 0 <= k < l <= i :: s[k].createdAt >= s[l].createdAt
  {
  }

  /** One insertion step: moves a[i] left past every older meal before it. */
  method InsertNewest(a: array<Meal>, i: int)
    requires 0 <= i < a.Length
    requires forall k, l | 0 <= k < l < i :: a[k].createdAt >= a[l].createdAt
    modifies a
    ensures forall k, l | 0 <= k < l <= i :: a[k].createdAt >= a[l].createdAt
    ensures multiset(a[..]) == multiset(old(a[..]))
  {
    var j := i;
    assert NewestFirstBut(a[..], i, j);
    while j > 0 && a[j - 1].createdAt < a[j].createdAt
      invariant 0 <= j <= i
      invariant multiset(a[..]) == multiset(old(a[..]))
      invariant NewestFirstBut(a[..], i, j)
    {
      ghost var before := a[..];
      a[j - 1], a[j] := a[j], a[j - 1];
      SwapStep(before, a[..], i, j);
      j := j - 1;
    }
    Settled(a[..], i, j);
  }

  /**
   * `[...meals].sort(...)` by descending creation instant, as an insertion
   * sort on a fresh array holding a copy of the list.
   */
  method SortNewestFirst(meals: seq<Meal>) returns (sorted: seq<Meal>)
    ensures multiset(sorted) == multiset(meals)
    ensures NewestFirst(sorted)
  {
    var a := new Meal[|meals|](k requires 0 <= k < |meals| => meals[k]);
    assert a[..] == meals;
    for i := 0 to a.Length
      invariant multiset(a[..]) == multiset(meals)
      invariant forall k, l | 0 <= k < l < i :: a[k].createdAt >= a[l].createdAt
    {
      InsertNewest(a, i);
    }
    sorted := a[..];
  }

  /** A day's meals keep the newest-first order of the list they are taken from. */
  lemma {:induction false} OnDayKeepsOrder(s: seq<Meal>, d: Day)
    requires NewestFirst(s)
    ensures NewestFirst(OnDay(s, d))
    decreases |s|
  {
    if s != [] {
      var init, last := s[..|s| - 1], s[|s| - 1];
      assert NewestFirst(init);
      OnDayKeepsOrder(init, d);
      var r := OnDay(init, d);
      forall m | m in r
        ensures m.createdAt >= last.createdAt
      {
        var k :| 0 <= k < |init| && init[k] == m;
        assert s[k] == m;
      }
    }
  }

  /** Sum of the group sizes, over the listed days. */
  function SizeSum(groups: map<Day, seq<Meal>>, order: seq<Day>): nat
  {
    if order == [] then 0
    else (if order[0] in groups then |groups[order[0]]| else 0) + SizeSum(groups, order[1..])
  }

  lemma {:induction false} SizeSumAppend(groups: map<Day, seq<Meal>>, order: seq<Day>, d: Day)
    requires forall e | e in order :: e in groups
    requires d in groups
    ensures SizeSum(groups, order + [d]) == SizeSum(groups, order) + |groups[d]|
    decreases |order|
  {
    if order == [] {
      assert [d][1..] == [];
    } else {
      assert (order + [d])[1..] == order[1..] + [d];
      SizeSumAppend(groups, order[1..], d);
    }
  }

  /** A group whose day is not listed does not count. */
  lemma {:induction false} SizeSumOtherDay(groups: map<Day, seq<Meal>>, order: seq<Day>, d: Day, g: seq<Meal>)
    requires forall e | e in order :: e in groups
    requires d !in order
    ensures SizeSum(groups[d := g], order) == SizeSum(groups, order)
    decreases |order|
  {
    if order != [] {
      SizeSumOtherDay(groups, order[1..], d, g);
    }
  }

  /** Replacing the group of a day listed once changes the sum by the change in that group's size. */
  lemma {:induction false} SizeSumUpdate(groups: map<Day, seq<Meal>>, order: seq<Day>, d: Day, g: seq<Meal>)
    requires forall e | e in order :: e in groups
    requires forall i, j | 0 <= i < j < |order| :: order[i] != order[j]
    requires d in order
    ensures SizeSum(groups[d := g], order) + |groups[d]| == SizeSum(groups, order) + |g|
    decreases |order|
  {
    if order[0] == d {
      assert d !in order[1..] by {
        forall i | 0 <= i < |order[1..]|
          ensures order[1..][i] != d
        {
          assert order[1..][i] == order[i + 1];
        }
      }
      SizeSumOtherDay(groups, order[1..], d, g);
    } else {
      assert d in order[1..];
      assert forall i, j | 0 <= i < j < |order[1..]| :: order[1..][i] != order[1..][j] by {
        forall i, j | 0 <= i < j < |order[1..]|
          ensures order[1..][i] != order[1..][j]
        {
          assert order[1..][i] == order[i + 1] && order[1..][j] == order[j + 1];
        }
      }
      SizeSumUpdate(groups, order[1..], d, g);
    }
  }

  /** Each day with meals in s has a group holding exactly those meals, in list order. */
  ghost predicate ByDay(s: seq<Meal>, groups: map<Day, seq<Meal>>)
  {
    && (forall d :: d in groups <==> OnDay(s, d) != [])
    && (forall d | d in groups :: groups[d] == OnDay(s, d))
  }

  /** `order` lists every group's day exactly once. */
  ghost predicate Listed(groups: map<Day, seq<Meal>>, order: seq<Day>)
  {
    && (forall d :: d in order <==> d in groups)
    && (forall k, l | 0 <= k < l < |order| :: order[k] != order[l])
  }

  /**
   * On a newest-first list the days are listed latest first, the last one
   * being the day of the last meal.
   */
  ghost predicate LatestDayFirst(s: seq<Meal>, order: seq<Day>)
  {
    NewestFirst(s) ==>
      && Descending(order)
      && (s != [] ==> order != [] && order[|order| - 1] == DayOf(s[|s| - 1].createdAt))
  }

  /** The groups built from the list s, listed in the order their days were created. */
  ghost predicate Grouped(s: seq<Meal>, groups: map<Day, seq<Meal>>, order: seq<Day>)
  {
    ByDay(s, groups) && Listed(groups, order) && SizeSum(groups, order) == |s| && LatestDayFirst(s, order)
  }

  /** The group of day d after filing meal m. */
  function Filed(groups: map<Day, seq<Meal>>, m: Meal): map<Day, seq<Meal>>
  {
    var d := DayOf(m.createdAt);
    groups[d := (if d in groups then groups[d] else []) + [m]]
  }

  /** The day list after filing meal m: its day is added when it is new. */
  function FiledOrder(groups: map<Day, seq<Meal>>, order: seq<Day>, m: Meal): seq<Day>
  {
    var d := DayOf(m.createdAt);
    if d in groups then order else order + [d]
  }

  lemma OnDaySnoc(s: seq<Meal>, m: Meal, d: Day)
    ensures OnDay(s + [m], d) == OnDay(s, d) + (if DayOf(m.createdAt) == d then [m] else [])
  {
    assert (s + [m])[..|s|] == s;
  }

  lemma ByDayStep(s: seq<Meal>, m: Meal, groups: map<Day, seq<Meal>>)
    requires ByDay(s, groups)
    ensures ByDay(s + [m], Filed(groups, m))
  {
    forall d
      ensures d in Filed(groups, m) <==> OnDay(s + [m], d) != []
      ensures d in Filed(groups, m) ==> Filed(groups, m)[d] == OnDay(s + [m], d)
    {
      OnDaySnoc(s, m, d);
    }
  }

  lemma ListedStep(groups: map<Day, seq<Meal>>, order: seq<Day>, m: Meal)
    requires Listed(groups, order)
    ensures Listed(Filed(groups, m), FiledOrder(groups, order, m))
  {
  }

  lemma SizeStep(groups: map<Day, seq<Meal>>, order: seq<Day>, m: Meal)
    requires Listed(groups, order)
    ensures SizeSum(Filed(groups, m), FiledOrder(groups, order, m)) == SizeSum(groups, order) + 1
  {
    var day := DayOf(m.createdAt);
    if day !in groups {
      SizeSumOtherDay(groups, order, day, [m]);
      SizeSumAppend(groups[day := [m]], order, day);
      assert [] + [m] == [m];
      assert Filed(groups, m) == groups[day := [m]];
    } else {
      SizeSumUpdate(groups, order, day, groups[day] + [m]);
    }
  }

  /** A day with meals in s has a meal s[k] on it. */
  lemma OnDayWitness(s: seq<Meal>, d: Day) returns (k: int)
    requires OnDay(s, d) != []
    ensures 0 <= k < |s| && DayOf(s[k].createdAt) == d
  {
    var x := OnDay(s, d)[0];
    assert x in OnDay(s, d);
    k :| 0 <= k < |s| && s[k] == x;
  }

  /** The day of a newest-first list's last meal is its earliest day. */
  lemma LastDayIsEarliest(s: seq<Meal>, d: Day)
    requires NewestFirst(s) && s != [] && OnDay(s, d) != []
    ensures DayOf(s[|s| - 1].createdAt) <= d
  {
    var k := OnDayWitness(s, d);
    DayOfMonotone(s[|s| - 1].createdAt, s[k].createdAt);
  }

  /** The empty list has no groups and no days. */
  lemma NothingGrouped(groups: map<Day, seq<Meal>>, order: seq<Day>)
    requires forall d | d in groups :: OnDay([], d) != []
    requires Listed(groups, order)
    ensures groups == map[] && order == []
  {
    forall d
      ensures d !in groups
    {
      assert OnDay([], d) == [];
    }
    if order != [] {
      HeadIsListed(order);
      assert false;
    }
  }

  lemma HeadIsListed(order: seq<Day>)
    requires order != []
    ensures order[0] in order
  {
  }

  /** Strictly decreasing days. */
  ghost predicate Descending(order: seq<Day>)
  {
    forall k, l | 0 <= k < l < |order| :: order[k] > order[l]
  }

  /** Appending an entry to a strictly decreasing list below its last entry keeps it decreasing. */
  lemma AppendBelowLast(order: seq<Day>, day: Day)
    requires Descending(order)
    requires order != [] ==> day < order[|order| - 1]
    ensures Descending(order + [day])
  {
  }

  /** A newest-first list stays newest first without its last meal, which is its oldest. */
  lemma NewestFirstSnoc(s: seq<Meal>, m: Meal)
    requires NewestFirst(s + [m])
    ensures NewestFirst(s)
    ensures s != [] ==> DayOf(m.createdAt) <= DayOf(s[|s| - 1].createdAt)
  {
    var s' := s + [m];
    assert s'[..|s|] == s;
    if s != [] {
      assert s'[|s| - 1] == s[|s| - 1] && s'[|s|] == m;
      DayOfMonotone(m.createdAt, s[|s| - 1].createdAt);
    }
  }

  lemma LatestDayStep(s: seq<Meal>, m: Meal, groups: map<Day, seq<Meal>>, order: seq<Day>)
    requires s == [] ==> order == []
    requires s != [] ==> DayOf(s[|s| - 1].createdAt) in groups
    requires DayOf(m.createdAt) in groups ==> OnDay(s, DayOf(m.createdAt)) != []
    requires Listed(groups, order) && LatestDayFirst(s, order)
    ensures LatestDayFirst(s + [m], FiledOrder(groups, order, m))
  {
    if NewestFirst(s + [m]) {
      NewestFirstSnoc(s, m);
      var day := DayOf(m.createdAt);
      if s != [] && day in groups {
        LastDayIsEarliest(s, day);
      }
      DaysStep(if s == [] then None else Some(DayOf(s[|s| - 1].createdAt)), day, groups, order);
    }
  }

  /**
   * The day list after filing a meal of day `day` on a list whose last meal
   * is of day `last` (None for the empty list), no later than `last`.
   */
  lemma DaysStep(last: Option<Day>, day: Day, groups: map<Day, seq<Meal>>, order: seq<Day>)
    requires Listed(groups, order) && Descending(order)
    requires last.None? ==> order == []
    requires last.Some? ==> last.value in groups && order != [] && order[|order| - 1] == last.value
    requires last.Some? ==> day <= last.value && (day in groups ==> last.value <= day)
    ensures var o := if day in groups then order else order + [day];
      Descending(o) && o != [] && o[|o| - 1] == day
  {
    if last.Some? && day !in groups {
      AppendBelowLast(order, day);
    }
  }

  /** Filing one more meal under its day keeps the groups those of the longer list. */
  lemma GroupStep(s: seq<Meal>, m: Meal, groups: map<Day, seq<Meal>>, order: seq<Day>,
                  s': seq<Meal>, groups': map<Day, seq<Meal>>, order': seq<Day>)
    requires Grouped(s, groups, order)
    requires s' == s + [m] && groups' == Filed(groups, m) && order' == FiledOrder(groups, order, m)
    ensures Grouped(s', groups', order')
  {
    ByDayStep(s, m, groups);
    ListedStep(groups, order, m);
    SizeStep(groups, order, m);
    if s == [] {
      NothingGrouped(groups, order);
    } else {
      assert s[|s| - 1] in OnDay(s, DayOf(s[|s| - 1].createdAt));
    }
    LatestDayStep(s, m, groups, order);
  }

  /** The groups the `reduce` has built after filing the meals of s in order. */
  function GroupsOf(s: seq<Meal>): map<Day, seq<Meal>>
  {
    if s == [] then map[] else Filed(GroupsOf(s[..|s| - 1]), s[|s| - 1])
  }

  /** The days in the order the `reduce` created their groups. */
  function DaysOf(s: seq<Meal>): seq<Day>
  {
    if s == [] then [] else FiledOrder(GroupsOf(s[..|s| - 1]), DaysOf(s[..|s| - 1]), s[|s| - 1])
  }

  /**
   * Filing every meal of s gives one group per day holding exactly that
   * day's meals in list order, each day listed once, group sizes adding up
   * to |s|, and on a newest-first list the days latest first.
   */
  lemma {:induction false} GroupsOfAreGrouped(s: seq<Meal>)
    ensures Grouped(s, GroupsOf(s), DaysOf(s))
    decreases |s|
  {
    if s == [] {
      assert forall d :: OnDay(s, d) == [];
    } else {
      var init := s[..|s| - 1];
      GroupsOfAreGrouped(init);
      assert s == init + [s[|s| - 1]];
      GroupStep(init, s[|s| - 1], GroupsOf(init), DaysOf(init), s, GroupsOf(s), DaysOf(s));
    }
  }

  /**
   * The `reduce` that builds the groups: one entry per day, created on its
   * first meal and then appended to, so each day holds exactly that day's
   * meals in list order. `order` is the order in which the days were
   * created, the order the groups are listed in.
   */
  method GroupByDay(sorted: seq<Meal>) returns (groups: map<Day, seq<Meal>>, order: seq<Day>)
    ensures forall d :: d in groups <==> OnDay(sorted, d) != []
    ensures forall d | d in groups :: groups[d] == OnDay(sorted, d)
    ensures forall d :: d in order <==> d in groups
    ensures forall i, j | 0 <= i < j < |order| :: order[i] != order[j]
    ensures SizeSum(groups, order) == |sorted|
    ensures NewestFirst(sorted) ==> forall i, j | 0 <= i < j < |order| :: order[i] > order[j]
  {
    groups := map[];
    order := [];
    for i := 0 to |sorted|
      invariant groups == GroupsOf(sorted[..i]) && order == DaysOf(sorted[..i])
    {
      var meal := sorted[i];
      var day := DayOf(meal.createdAt);
      assert sorted[..i + 1][..i] == sorted[..i];
      if day !in groups {
        groups := groups[day := []];
        order := order + [day];
      }
      groups := groups[day := groups[day] + [meal]];
    }
    assert sorted[..|sorted|] == sorted;
    GroupsOfAreGrouped(sorted);
  }

  /** What the tab shows. */
  datatype HistoryView =
    | EmptyState
    | Listing(count: nat, days: seq<Day>, groups: map<Day, seq<Meal>>)

  /** The history tab: sort, group, then the empty state when there are no meals. */
  method RenderHistory(meals: seq<Meal>) returns (view: HistoryView)
    ensures view.EmptyState? <==> meals == []
    ensures view.Listing? ==>
      && view.count == |meals|
      && (forall d :: d in view.days <==> d in view.groups)
      && (forall d | d in view.groups :: view.groups[d] != [] && NewestFirst(view.groups[d]))
      && (forall d | d in view.groups :: forall m | m in view.groups[d] :: DayOf(m.createdAt) == d)
      && (forall m | m in meals :: DayOf(m.createdAt) in view.groups && m in view.groups[DayOf(m.createdAt)])
      && (forall i, j | 0 <= i < j < |view.days| :: view.days[i] > view.days[j])
      && SizeSum(view.groups, view.days) == |meals|
  {
    var sorted := SortNewestFirst(meals);
    var groups, order := GroupByDay(sorted);
    if |meals| == 0 {
      return EmptyState;
    }
    forall d | d in groups
      ensures NewestFirst(groups[d])
    {
      OnDayKeepsOrder(sorted, d);
    }
    forall m | m in meals
      ensures DayOf(m.createdAt) in groups && m in groups[DayOf(m.createdAt)]
    {
      assert m in multiset(sorted);
      assert m in OnDay(sorted, DayOf(m.createdAt));
    }
    assert |sorted| == |meals| by {
      assert |multiset(sorted)| == |multiset(meals)|;
    }
    view := Listing(|meals|, order, groups);
  }
}
