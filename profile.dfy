/**
 * The `user_profiles` store: creating a profile with default measurements
 * and goals, and updating one, which recomputes the daily goals when a
 * measurement, the activity level or the goal changes. Also the by-date read
 * of the `daily_stats` table.
 */
module Profile {
  import opened Wrappers
  import opened Nutrition
  import opened Goals
  import opened StatsTable
  import DailyStatsUpdater

  datatype UserProfile = UserProfile(
    id: UserId,
    email: string,
    fullName: Option<string>,
    weight: Option<real>,
    height: Option<real>,
    age: Option<real>,
    gender: Option<Gender>,
    activityLevel: Option<string>,
    goal: Option<string>,
    dailyCalorieGoal: int,
    dailyProteinGoal: int,
    dailyCarbsGoal: int,
    dailyFatGoal: int,
    createdAt: int,
    updatedAt: int)

  /** The fields an update may carry; `None` is a field the update leaves out. */
  datatype ProfileUpdate = ProfileUpdate(
    fullName: Option<string>,
    weight: Option<real>,
    height: Option<real>,
    age: Option<real>,
    gender: Option<Gender>,
    activityLevel: Option<string>,
    goal: Option<string>,
    dailyCalorieGoal: Option<int>,
    dailyProteinGoal: Option<int>,
    dailyCarbsGoal: Option<int>,
    dailyFatGoal: Option<int>)

  /** JavaScript truthiness of an optional number: present and not 0. */
  predicate Truthy(x: Option<real>)
  {
    x.Some? && x.value != 0.0
  }

  /** JavaScript truthiness of an optional string: present and not empty. */
  predicate TruthyText(s: Option<string>)
  {
    s.Some? && s.value != ""
  }

  /** `a || fallback` on an optional number. */
  function OrReal(a: Option<real>, fallback: real): (r: real)
    ensures Truthy(a) ==> r == a.value
    ensures !Truthy(a) ==> r == fallback
  {
    if Truthy(a) then a.value else fallback
  }

  /** `a || fallback` on an optional string. */
  function OrText(a: Option<string>, fallback: string): (r: string)
    ensures TruthyText(a) ==> r == a.value
    ensures !TruthyText(a) ==> r == fallback
  {
    if TruthyText(a) then a.value else fallback
  }

  /** `a` when the update carries it, else the stored `b`. */
  function Over<T>(a: Option<T>, b: T): T
  {
    if a.Some? then a.value else b
  }

  /** The optional field after the update: the update's when it carries one, else the stored one. */
  function OverOpt<T>(a: Option<T>, b: Option<T>): Option<T>
  {
    if a.Some? then a else b
  }

  /**
   * The goals are recomputed when weight, height, age, activity level or goal
   * is truthy in the update; the gender alone does not trigger it.
   */
  predicate RecomputeTriggered(u: ProfileUpdate)
    ensures RecomputeTriggered(u) ==>
      u.weight.Some? || u.height.Some? || u.age.Some? || u.activityLevel.Some? || u.goal.Some?
  {
    Truthy(u.weight) || Truthy(u.height) || Truthy(u.age)
    || TruthyText(u.activityLevel) || TruthyText(u.goal)
  }

  lemma GenderAloneDoesNotRecompute(u: ProfileUpdate)
    requires u.weight.None? && u.height.None? && u.age.None?
    requires u.activityLevel.None? && u.goal.None?
    ensures !RecomputeTriggered(u)
  {
  }

  datatype GoalInputs = GoalInputs(weight: real, height: real, age: real, gender: Gender,
                                   level: string, goal: string)

  /**
   * Each input of the recomputation: the update's value if truthy, else the
   * stored profile's if truthy, else 75 / 175 / 30 / male / moderate / maintain.
   */
  function InputsFor(u: ProfileUpdate, p: UserProfile): (r: GoalInputs)
    ensures r.weight != 0.0 && r.height != 0.0 && r.age != 0.0
    ensures r.level != "" && r.goal != ""
    ensures !Truthy(u.weight) && !Truthy(p.weight) ==> r.weight == 75.0
    ensures !Truthy(u.height) && !Truthy(p.height) ==> r.height == 175.0
    ensures !Truthy(u.age) && !Truthy(p.age) ==> r.age == 30.0
    ensures u.gender.None? && p.gender.None? ==> r.gender == Male
    ensures !TruthyText(u.activityLevel) && !TruthyText(p.activityLevel) ==> r.level == "moderate"
    ensures !TruthyText(u.goal) && !TruthyText(p.goal) ==> r.goal == "maintain"
    ensures !Truthy(u.weight) && Truthy(p.weight) ==> r.weight == p.weight.value
    ensures !Truthy(u.height) && Truthy(p.height) ==> r.height == p.height.value
    ensures !Truthy(u.age) && Truthy(p.age) ==> r.age == p.age.value
    ensures u.gender.None? && p.gender.Some? ==> r.gender == p.gender.value
    ensures !TruthyText(u.activityLevel) && TruthyText(p.activityLevel) ==> r.level == p.activityLevel.value
    ensures !TruthyText(u.goal) && TruthyText(p.goal) ==> r.goal == p.goal.value
  {
    GoalInputs(
      OrReal(u.weight, OrReal(p.weight, 75.0)),
      OrReal(u.height, OrReal(p.height, 175.0)),
      OrReal(u.age, OrReal(p.age, 30.0)),
      Over(u.gender, Over(p.gender, Male)),
      OrText(u.activityLevel, OrText(p.activityLevel, "moderate")),
      OrText(u.goal, OrText(p.goal, "maintain")))
  }

  /** An update that gives all six inputs does not depend on the stored profile. */
  lemma FullUpdateIgnoresStoredProfile(u: ProfileUpdate, p: UserProfile, q: UserProfile)
    requires Truthy(u.weight) && Truthy(u.height) && Truthy(u.age) && u.gender.Some?
    requires TruthyText(u.activityLevel) && TruthyText(u.goal)
    ensures InputsFor(u, p) == InputsFor(u, q)
  {
  }

  /** A truthy update field always wins over the stored value. */
  lemma UpdateWinsOverStored(u: ProfileUpdate, p: UserProfile)
    ensures Truthy(u.weight) ==> InputsFor(u, p).weight == u.weight.value
    ensures Truthy(u.height) ==> InputsFor(u, p).height == u.height.value
    ensures Truthy(u.age) ==> InputsFor(u, p).age == u.age.value
    ensures TruthyText(u.activityLevel) ==> InputsFor(u, p).level == u.activityLevel.value
    ensures TruthyText(u.goal) ==> InputsFor(u, p).goal == u.goal.value
    ensures u.gender.Some? ==> InputsFor(u, p).gender == u.gender.value
  {
  }

  /** The goals an update writes: recomputed when triggered and the profile was read. */
  function RecomputedGoals(u: ProfileUpdate, stored: Option<UserProfile>): (r: Option<DailyGoals>)
    ensures r.Some? <==> RecomputeTriggered(u) && stored.Some?
  {
    if RecomputeTriggered(u) && stored.Some? then
      var i := InputsFor(u, stored.value);
      Some(CalculateDailyGoals(i.weight, i.height, i.age, i.gender, i.level, i.goal))
    else None
  }

  /**
   * A measurement-free profile updated with the goal 'maintain' alone gets
   * the same goals a new profile is created with.
   */
  lemma BlankProfileGetsDefaultGoals(p: UserProfile)
    requires p.weight.None? && p.height.None? && p.age.None? && p.gender.None?
    requires p.activityLevel.None?
    ensures var u := ProfileUpdate(None, None, None, None, None, None, Some("maintain"),
                                   None, None, None, None);
      RecomputedGoals(u, Some(p)) == Some(DailyGoals(2732, 150, 362, 76))
  {
    DefaultGoals();
  }

  /** The part of an email before its first '@', the whole text when there is none. */
  function EmailLocalPart(email: string): (r: string)
    ensures r <= email
    ensures '@' !in r
    ensures |r| < |email| ==> email[|r|] == '@'
  {
    if email == [] || email[0] == '@' then []
    else [email[0]] + EmailLocalPart(email[1..])
  }

  /** The record `create` inserts, with the store's creation time `now`. */
  function DefaultProfile(userId: UserId, email: string, now: int): (p: UserProfile)
    ensures p.id == userId && p.email == email && p.fullName == Some(EmailLocalPart(email))
    ensures p.weight == Some(75.0) && p.height == Some(175.0) && p.age == Some(30.0)
    ensures p.gender == Some(Male) && p.activityLevel == Some("moderate") && p.goal == Some("maintain")
    ensures p.dailyCalorieGoal == 2732 && p.dailyProteinGoal == 150
    ensures p.dailyCarbsGoal == 362 && p.dailyFatGoal == 76
  {
    var goals := CalculateDailyGoals(75.0, 175.0, 30.0, Male, "moderate", "maintain");
    DefaultGoals();
    UserProfile(userId, email, Some(EmailLocalPart(email)), Some(75.0), Some(175.0), Some(30.0),
                Some(Male), Some("moderate"), Some("maintain"),
                goals.calories, goals.protein, goals.carbs, goals.fat, now, now)
  }

  /**
   * The row after `.update(updates)`: every field the update carries replaces
   * the stored one, recomputed goals replace the goal fields, and
   * `updated_at` becomes `now`.
   */
  function Patched(p: UserProfile, u: ProfileUpdate, goals: Option<DailyGoals>, now: int): (r: UserProfile)
    ensures r.id == p.id && r.email == p.email && r.createdAt == p.createdAt && r.updatedAt == now
    ensures r.fullName == OverOpt(u.fullName, p.fullName)
    ensures r.weight == OverOpt(u.weight, p.weight) && r.height == OverOpt(u.height, p.height)
    ensures r.age == OverOpt(u.age, p.age) && r.gender == OverOpt(u.gender, p.gender)
    ensures r.activityLevel == OverOpt(u.activityLevel, p.activityLevel)
    ensures r.goal == OverOpt(u.goal, p.goal)
    ensures goals.Some? ==>
      && r.dailyCalorieGoal == goals.value.calories
      && r.dailyProteinGoal == goals.value.protein
      && r.dailyCarbsGoal == goals.value.carbs
      && r.dailyFatGoal == goals.value.fat
    ensures goals.None? ==>
      && r.dailyCalorieGoal == Over(u.dailyCalorieGoal, p.dailyCalorieGoal)
      && r.dailyProteinGoal == Over(u.dailyProteinGoal, p.dailyProteinGoal)
      && r.dailyCarbsGoal == Over(u.dailyCarbsGoal, p.dailyCarbsGoal)
      && r.dailyFatGoal == Over(u.dailyFatGoal, p.dailyFatGoal)
  {
    var calories := if goals.Some? then goals.value.calories else Over(u.dailyCalorieGoal, p.dailyCalorieGoal);
    var protein := if goals.Some? then goals.value.protein else Over(u.dailyProteinGoal, p.dailyProteinGoal);
    var carbs := if goals.Some? then goals.value.carbs else Over(u.dailyCarbsGoal, p.dailyCarbsGoal);
    var fat := if goals.Some? then goals.value.fat else Over(u.dailyFatGoal, p.dailyFatGoal);
    p.(fullName := OverOpt(u.fullName, p.fullName),
       weight := OverOpt(u.weight, p.weight),
       height := OverOpt(u.height, p.height),
       age := OverOpt(u.age, p.age),
       gender := OverOpt(u.gender, p.gender),
       activityLevel := OverOpt(u.activityLevel, p.activityLevel),
       goal := OverOpt(u.goal, p.goal),
       dailyCalorieGoal := calories,
       dailyProteinGoal := protein,
       dailyCarbsGoal := carbs,
       dailyFatGoal := fat,
       updatedAt := now)
  }

  /** The `user_profiles` table, one profile per user id. */
  class ProfileStore {
    var profiles: map<UserId, UserProfile>

    constructor ()
      ensures profiles == map[]
    {
      profiles := map[];
    }

    /** `profileOperations.get`: null when not configured, on an error, or with no row. */
    function Get(userId: UserId, configured: bool, fails: bool): (r: Option<UserProfile>)
      reads this
      ensures r.Some? <==> configured && !fails && userId in profiles
      ensures r.Some? ==> r.value == profiles[userId]
    {
      if configured && !fails && userId in profiles then Some(profiles[userId]) else None
    }

    /**
     * `profileOperations.create`: inserts the default profile; null when not
     * configured, on a store error, or when the id already has a profile.
     */
    method Create(userId: UserId, email: string, configured: bool, fails: bool, now: int)
      returns (r: Option<UserProfile>)
      modifies this
      ensures r.Some? <==> configured && !fails && userId !in old(profiles)
      ensures r.Some? ==>
        && r.value == DefaultProfile(userId, email, now)
        && profiles == old(profiles)[userId := r.value]
      ensures r.None? ==> profiles == old(profiles)
    {
      if !configured || fails || userId in profiles {
        return None;
      }
      var profile := DefaultProfile(userId, email, now);
      profiles := profiles[userId := profile];
      r := Some(profile);
    }

    /**
     * `profileOperations.update`: when triggered, reads the profile and
     * writes the recomputed goals into the update, stamps `updated_at`, and
     * writes the update to the user's row. Null when not configured, on a
     * write error, or when the user has no row.
     */
    method Update(userId: UserId, updates: ProfileUpdate, configured: bool, getFails: bool,
                  writeFails: bool, now: int)
      returns (r: Option<UserProfile>)
      modifies this
      ensures r.Some? <==> configured && !writeFails && userId in old(profiles)
      ensures r.Some? ==>
        r.value == Patched(old(profiles)[userId], updates,
                           RecomputedGoals(updates, old(Get(userId, true, getFails))), now)
        && profiles == old(profiles)[userId := r.value]
      ensures r.None? ==> profiles == old(profiles)
    {
      if !configured {
        return None;
      }
      var goals: Option<DailyGoals> := None;
      if RecomputeTriggered(updates) {
        var stored := Get(userId, configured, getFails);
        if stored.Some? {
          var i := InputsFor(updates, stored.value);
          goals := Some(CalculateDailyGoals(i.weight, i.height, i.age, i.gender, i.level, i.goal));
        }
      }
      if writeFails || userId !in profiles {
        return None;
      }
      var row := Patched(profiles[userId], updates, goals, now);
      profiles := profiles[userId := row];
      r := Some(row);
    }
  }

  /**
   * `dailyStatsOperations.getByDate`: the row of that user and day; null when
   * not configured, when there is no row, or on any other error.
   */
  function GetByDate(rows: map<Key, StatsRow>, configured: bool, userId: UserId, date: Day,
                     fails: bool): (r: Option<StatsRow>)
    ensures r.Some? <==> configured && !fails && (userId, date) in rows
    ensures r.Some? ==> r.value == rows[(userId, date)]
  {
    if configured && !fails && (userId, date) in rows then Some(rows[(userId, date)]) else None
  }

  /**
   * When the table agrees with the meals, the row `getByDate` returns holds
   * the sums and the count of that user's meals of that day, and a missing
   * row means the user logged nothing that day.
   */
  lemma ByDateMatchesMeals(rows: map<Key, StatsRow>, meals: seq<Meal>, userId: UserId, date: Day)
    requires DailyStatsUpdater.Consistent(rows, meals)
    ensures var r := GetByDate(rows, true, userId, date, false);
      && (r.Some? ==>
            && r.value.totals == Total(DailyStatsUpdater.DayMeals(meals, userId, date))
            && r.value.mealsCount == |DailyStatsUpdater.DayMeals(meals, userId, date)|)
      && (r.None? ==> DailyStatsUpdater.DayMeals(meals, userId, date) == [])
  {
    assert DailyStatsUpdater.RowMatches(rows, meals, (userId, date));
  }
}
