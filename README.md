# Daily nutrition bookkeeping of a meal-photo tracker, in Dafny

A meal-tracking web application lets a user photograph a meal; an image
model returns the foods with their calories, protein, carbohydrate and fat,
and the meal is stored with the four totals. This project models the
application's own logic around that:

- the **daily statistics aggregator**: a `daily_stats` table with one row per
  (user, date) holding four nutrient totals and a meal count, kept by an
  incremental insert-or-add when a meal is logged and by a full recompute
  from the day's meals (which deletes the row when no meal is left); the
  today-only variant that reports success as a boolean; the today read with
  a zero placeholder; the by-date read; and the last-days read, newest first;
- the **goal calculator** (Harris–Benedict basal rate, activity multiplier,
  goal adjustment, macro split with `Math.round`) and the profile `create`
  defaults and `update` merge;
- the **home page**: the meal label from the hour, the food totals saved
  with a meal, and today's quick stats;
- the **dashboard**: the seven-day chart, today's totals and their energy
  split, the weekly average, and the comparison with yesterday;
- the **history tab**: the newest-first copy of the meal list grouped by day;
- the **route guard** run before every request;
- the **password-reset form**'s two checks before the password is sent.

Dates are whole day numbers and instants whole seconds on the same clock
(`Nutrition.DayOf`); nutrient quantities and the goal formula are `real`,
and `Math.round` is `Goals.Round`, `floor(x + 0.5)`. The remote tables are a
`map` field of a class (`StatsTable.Table`, `Profile.ProfileStore`); whether
the backend is configured, the clock, and which store call fails are
parameters (`configured`, `today`, `now`, `Faults`, `fails`). The meals
table is a `seq` of `Nutrition.Meal` rows given to the operations that
read it.

Neither updater is called by the meal flows of this repository
(`src/app/page.tsx:152-161` only creates the meal row), and the history tab
calls a `mealOperations.delete` that `src/lib/supabase.ts` does not define. The
headline invariant is therefore stated about the aggregator's own
operations against an abstract meal list: `DailyStatsUpdater.LogMeal`,
`DailyStatsUpdater.RemoveMeal` and `DailyStatsUpdater.Replay` show that after
any sequence of meals logged (each followed by the incremental update) and
meals removed (each followed by the recompute of its day), every row is the
sum and count of its day's meals and no day without meals keeps a row.

The goal example 75 kg, 175 cm, 30 years, male, moderate, maintain is worked
out by the coefficients of `src/lib/profile.ts:38` as basal rate 1762.652,
expenditure 2732.1106 and goals {2732 kcal, 150 g protein, 362 g carbs, 76 g
fat} (`Goals.DefaultGoals`). The macros reconcile with the calorie goal
within 2 kcal, since only the carbohydrate rounding matters. A more active
level never lowers the calorie goal; after `Math.round` it need not strictly
raise it.

## Model

| member | source | states |
|---|---|---|
| Nutrition.Total | src/lib/daily-stats-updater.ts:113-121 | the `reduce` over the day's meals: no meals sum to zeros, and one meal sums to its own values with null columns read as 0 |
| Nutrition.DayOfInterval | src/lib/daily-stats-updater.ts:88-97 | an instant is on day d exactly when it lies in the half-open interval [d, d+1) the recompute queries |
| Nutrition.OnDay | src/components/custom/dashboard-tab.tsx:18-20 | the meals kept for a day are exactly the listed meals created on that day, never more than the list |
| Nutrition.TotalConcat | src/lib/daily-stats-updater.ts:113-121 | the sum of two meal lists put together is the sum of their sums, so the order of the `reduce` does not matter |
| Nutrition.DayTotalsAppend | src/app/page.tsx:229-231 | logging one more meal changes only its own day's sums, by exactly that meal's values (null columns counted as 0) |
| StatsTable.Table.LookupRow | src/lib/daily-stats-updater.ts:23-32 | the `.single()` lookup of (user, date): an error exactly when the read fails, the stored row exactly when the key has one, otherwise "no rows" |
| StatsTable.Table.UpdateById | src/lib/daily-stats-updater.ts:36-51 | an update by row id rewrites the totals, count and `updated_at` of that row only; a failed call or an unknown id changes nothing |
| StatsTable.Table.Insert | src/lib/daily-stats-updater.ts:54-69 | an insert adds one row under its (user, date) key with a fresh id; a failed call or an existing key (the unique constraint) changes nothing |
| StatsTable.Table.Delete | src/lib/daily-stats-updater.ts:103-107 | deleting by (user, date) removes that key's row only, and a missing row is not an error |
| DailyStatsUpdater.TargetDate | src/lib/daily-stats-updater.ts:87 | `date || today`: the given date when there is one, today otherwise |
| DailyStatsUpdater.DayMeals | src/lib/daily-stats-updater.ts:92-97 | the recompute's query: exactly the listed meals of that user created on that day, never more than the list |
| DailyStatsUpdater.UpdateDailyStats | src/lib/daily-stats-updater.ts:13-75 | not configured, or a lookup error other than "no rows", or a failed write: null and the table unchanged; else the row of (user, date or today) gets old totals plus the meal and count plus one, or is inserted with the meal's values and count 1, and no other row changes |
| DailyStatsUpdater.RecalculateDailyStats | src/lib/daily-stats-updater.ts:80-166 | with no meals of the user in [date, date+1) the row is deleted and null returned; otherwise exactly that row is updated or inserted with the sums and number of those meals (nulls as 0), keeping its id; a failed query or write leaves the table unchanged |
| DailyStatsUpdater.IncrementKeepsRowMatching | src/lib/daily-stats-updater.ts:34-69 | if a row equals the sum and count of its day's meals, adding a new meal's values to it (or creating it with them) keeps it equal after the meal joins the list |
| DailyStatsUpdater.RemoveKeepsOtherDays | src/lib/daily-stats-updater.ts:92-97 | removing a meal leaves every other (user, date) key's meals as they were |
| DailyStatsUpdater.LogMeal | src/lib/daily-stats-updater.ts:13-75 | logging a meal followed by the incremental update keeps a table consistent with the meal list |
| DailyStatsUpdater.RemoveMeal | src/lib/daily-stats-updater.ts:80-166 | removing a meal followed by the recompute of its day keeps the table consistent, so the last meal of a day takes its row with it |
| DailyStatsUpdater.Replay | src/lib/daily-stats-updater.ts:13-166 | the meal list after the events is `Apply(meals0, events)` (logged meals appended, removed indices dropped, an index past the end ignored), and every row is that list's day sum and count, with no row for a day without meals |
| DailyStatsUpdater.RecalculateTwice | src/lib/daily-stats-updater.ts:113-160 | a second recompute with the same meals gives the same totals, count and row id as the first |
| DailyStats.UpdateDailyStats | src/lib/daily-stats.ts:14-69 | true exactly when configured, the lookup did not fail (other than "no rows") and the write went through; only today's row is written, adding calories, protein, carbs and fat and one meal, or inserted with them and count 1; false leaves the table unchanged |
| DailyStats.GetTodayStats | src/lib/daily-stats.ts:74-100 | null when not configured or on an error; otherwise today's row, or a placeholder whose five fields are all 0 |
| DailyStats.TodayStatsMatchMeals | src/lib/daily-stats.ts:89-95 | on a table consistent with the meals, today's stats (row or placeholder) are the sum and count of today's meals |
| DailyStats.WindowStart | src/lib/daily-stats.ts:105-110 | the window starts `days` days before today, 7 when the caller gives no count |
| DailyStats.GetLastDaysStats | src/lib/daily-stats.ts:105-125 | [] when not configured or on an error |
| DailyStats.LastDaysStatsAreTheWindowNewestFirst | src/lib/daily-stats.ts:112-120 | with a working store the result is exactly the user's rows dated on or after today - days (7 by default), each once, in strictly decreasing date order |
| Ordering.LatestFirst | src/lib/profile.ts:214-219 | a set of one user's row keys listed each once in strictly decreasing date order |
| Goals.RoundShift | src/lib/profile.ts:80 | adding an integer before `Math.round` is adding it after |
| Goals.Round | src/lib/profile.ts:80-83 | `Math.round` lands within half a unit of its argument: x − 0.5 < Round(x) ≤ x + 0.5 |
| Goals.Bmr | src/lib/profile.ts:36-42 | `calculateBMR` is positive for every input of at least 30 kg, 100 cm and an age of 0–120 years |
| Goals.Tdee | src/lib/profile.ts:45-54 | `calculateTDEE` lies between 1.2 and 1.9 times a non-negative basal rate, and is 1.55 times it for a level outside the table |
| Goals.BmrSplitsOnMale | src/lib/profile.ts:36-42 | two genders give the same basal rate whenever both or neither are 'male': 'female' and 'other' share the second formula |
| Goals.BmrMonotone | src/lib/profile.ts:36-42 | for every gender more weight or height raises the basal rate and more age lowers it |
| Goals.ActivityMultiplier | src/lib/profile.ts:45-54 | a level outside the table uses 1.55, and every multiplier lies between 1.2 and 1.9 |
| Goals.MultipliersIncrease | src/lib/profile.ts:46-52 | the multipliers strictly increase from sedentary to very_active |
| Goals.GoalAdjustment | src/lib/profile.ts:73-80 | a goal outside lose_weight, gain_weight and gain_muscle adds 0 |
| Goals.CalculateDailyGoals | src/lib/profile.ts:57-86 | calories are within 0.5 of expenditure plus adjustment, protein within 0.5 of twice the weight, fat the rounding of a quarter of the calories over 9, and 4·protein + 4·carbs + 9·fat within 2 kcal of the calories |
| Goals.DefaultGoals | src/lib/profile.ts:112 | 75 kg, 175 cm, 30 years, male, moderate, maintain gives {2732, 150, 362, 76} |
| Goals.GoalShiftsCalories | src/lib/profile.ts:73-80 | against 'maintain' the calorie goal moves by exactly the goal's adjustment: −500, +300, +400, 0 |
| Goals.MoreActiveNeverLowersCalories | src/lib/profile.ts:45-54 | with a positive basal rate a more active level never gives a lower calorie goal |
| Profile.RecomputeTriggered | src/lib/profile.ts:149 | the recomputation is triggered only by an update carrying weight, height, age, activity level or goal |
| Profile.GenderAloneDoesNotRecompute | src/lib/profile.ts:149 | an update carrying only a gender (or nothing) does not trigger the goal recomputation |
| Profile.InputsFor | src/lib/profile.ts:152-157 | each recomputation input falls back from a falsy update value to the stored profile's truthy value, and from a falsy stored value to 75 / 175 / 30 / male / moderate / maintain; the gender falls back the same way |
| Profile.UpdateWinsOverStored | src/lib/profile.ts:152-157 | a truthy value in the update, the gender included, always wins over the stored one |
| Profile.FullUpdateIgnoresStoredProfile | src/lib/profile.ts:152-157 | an update giving all six inputs recomputes the same goals whatever is stored |
| Profile.RecomputedGoals | src/lib/profile.ts:149-166 | goals are recomputed exactly when the update triggers it and the stored profile could be read |
| Profile.BlankProfileGetsDefaultGoals | src/lib/profile.ts:149-166 | a measurement-free profile updated with the goal 'maintain' gets the goals a new profile is created with |
| Profile.EmailLocalPart | src/lib/profile.ts:117 | the full name is a prefix of the email without '@', ending right before the first '@' when there is one |
| Profile.DefaultProfile | src/lib/profile.ts:112-127 | a new profile has the email's local part as name, 75 / 175 / 30 / male / moderate / maintain, and goals {2732, 150, 362, 76} |
| Profile.Patched | src/lib/profile.ts:161-172 | the written row keeps id, email and creation time, takes `updated_at = now`, takes every profile field the update carries and keeps the stored one otherwise, and takes the recomputed goals when there are any, else the update's own goal fields or the stored ones |
| Profile.ProfileStore.Get | src/lib/profile.ts:90-106 | the stored profile exactly when configured, the read works and the row exists; null otherwise |
| Profile.ProfileStore.Create | src/lib/profile.ts:108-142 | inserts the default profile when configured, the write works and the id is new; null and no change otherwise |
| Profile.ProfileStore.Update | src/lib/profile.ts:144-183 | when configured, the write works and the row exists, the row becomes the patched profile with goals recomputed as triggered; null and no change otherwise |
| Profile.GetByDate | src/lib/profile.ts:188-205 | the row of that user and day exactly when configured, the read works and the row exists; null otherwise |
| Profile.ByDateMatchesMeals | src/lib/profile.ts:188-205 | on a consistent table the row read by date holds the sums and count of that day's meals, and a missing row means no meal that day |
| MealPage.MealType | src/app/page.tsx:184-190 | 'Café da Manhã' exactly for hours before 12, 'Almoço' for 12–15, 'Lanche' for 16–19, 'Jantar' from 20 on |
| MealPage.EveryHourHasOneLabel | src/app/page.tsx:184-190 | every hour 0–23 gets exactly one of the four labels |
| MealPage.MealTypeFollowsTheDay | src/app/page.tsx:184-190 | a later hour never gets an earlier meal of the day |
| MealPage.FoodTotals | src/app/page.tsx:141-149 | the foods' `reduce`: no foods give zeros, and one food gives its own four values |
| MealPage.FoodTotalsConcat | src/app/page.tsx:141-149 | the totals of two food lists put together are the fieldwise sums of their totals (an empty list gives zeros) |
| MealPage.SavedMeal | src/app/page.tsx:152-161 | the saved meal's four `total_*` columns are exactly the food totals and its label that of the upload hour |
| MealPage.SampleLunchTotals | src/lib/mock-data.ts:47-70 | the sample lunch's foods total 380 kcal, 38 g protein, 45 g carbs, 6 g fat |
| MealPage.QuickStats | src/app/page.tsx:229-231 | the quick stats are zeros on a day without meals |
| MealPage.QuickStatsIgnoreOtherDays | src/app/page.tsx:229-231 | a meal from another day does not change the quick stats |
| MealPage.SavingAMealRaisesQuickStats | src/app/page.tsx:329-332 | saving an analysed meal today raises each quick stat by exactly that field of the food totals |
| Dashboard.Last7Days | src/components/custom/dashboard-tab.tsx:16-29 | seven entries for today−6 … today in ascending order, each the sums of exactly that day's meals |
| Dashboard.WindowDaysDistinct | src/components/custom/dashboard-tab.tsx:18-20 | the seven days are distinct, so a meal falls in at most one entry |
| Dashboard.WindowSumIsRangeSum | src/components/custom/dashboard-tab.tsx:16-29 | the sum over the chart's entries is the sum over the meals of those days |
| Dashboard.WeeklyAverage | src/components/custom/dashboard-tab.tsx:51-56 | seven times the weekly average is the sum of the chart's seven entries |
| Dashboard.WeeklyAverageIsWindowMean | src/components/custom/dashboard-tab.tsx:51-56 | seven times the weekly average is the sum over the meals of today−6 through today; empty days count as 0 |
| Dashboard.MacrosData | src/components/custom/dashboard-tab.tsx:44-48 | three slices: protein·4, carbs·4 and fat·9 kcal |
| Dashboard.PieOfTheGoalsMatchesTheCalorieGoal | src/components/custom/dashboard-tab.tsx:44-48 | a day meeting the macro goals exactly has a pie within 2 kcal of the calorie goal |
| Dashboard.CompareWithYesterday | src/components/custom/dashboard-tab.tsx:59-67 | today's and yesterday's calories are the sums of those days; the trend is up exactly when today exceeds yesterday (a tie is down) and the badge shows exactly when they differ |
| Dashboard.ComparisonAgreesWithChart | src/components/custom/dashboard-tab.tsx:16-29 | today's and yesterday's calories are the last two entries of the chart |
| Dashboard.OtherDaysDoNotMoveTheComparison | src/components/custom/dashboard-tab.tsx:59-65 | a meal of any other day leaves the comparison as it was |
| Dashboard.LoggingTodayCanOnlyRaiseTheTrend | src/components/custom/dashboard-tab.tsx:66-67 | logging a non-negative meal today never turns an upward trend down |
| History.InsertNewest | src/components/custom/history-tab.tsx:34-36 | one insertion step leaves the first i+1 entries newest first and the array a permutation of what it was |
| History.SortNewestFirst | src/components/custom/history-tab.tsx:34-36 | a copy of the list, rearranged (same multiset of meals) into non-increasing creation order |
| History.OnDayKeepsOrder | src/components/custom/history-tab.tsx:44-45 | a day's meals taken from a newest-first list are newest first |
| History.GroupsOfAreGrouped | src/components/custom/history-tab.tsx:38-47 | filing the meals one by one gives one group per day holding exactly that day's meals in list order, each day listed once, sizes adding up to the list's length, days latest first on a newest-first list |
| History.GroupByDay | src/components/custom/history-tab.tsx:38-47 | the groups built in place are those: each day with meals has exactly its meals, each day listed once, sizes summing to the length |
| History.RenderHistory | src/components/custom/history-tab.tsx:34-76 | an empty list shows the empty state; otherwise every meal is in the group of its own day, each group is non-empty and newest first, days are listed latest first, and the group sizes add up to the meal count |
| Middleware.ContainsAt | src/middleware.ts:16 | `includes` holds exactly when the text occurs at some position |
| Middleware.Configured | src/middleware.ts:16 | a configured backend has both values and a URL in which 'placeholder' occurs at no position |
| Middleware.PlaceholderUrlIsUnconfigured | src/middleware.ts:16 | a URL containing 'placeholder' means not configured, whatever the key |
| Middleware.IsPublicRoute | src/middleware.ts:53-54 | a path is public exactly when it starts with '/login' or '/auth/callback' |
| Middleware.PrefixMatchExamples | src/middleware.ts:53-54 | '/login/reset' and '/auth/callback?code=1' are public; '/', '/reset-password' and '/auth' are not |
| Middleware.Guard | src/middleware.ts:5-74 | not configured or an exception reading the session: only '/login' passes, every other path goes to '/login'; no session: public paths pass, others go to '/login'; a session: '/login' goes to '/', everything else passes |
| Middleware.NeverRedirectsToItself | src/middleware.ts:16-73 | no request is redirected to its own path, so '/login' never redirects to '/login' |
| Middleware.RedirectSettles | src/middleware.ts:16-73 | the page a redirect points to is let through for the same backend and session |
| Middleware.PublicRoutesAlwaysPass | src/middleware.ts:57-59 | with a configured backend a public path passes without a session |
| ResetPassword.HandleResetPassword | src/app/reset-password/page.tsx:42-83 | `updateUser` is called, with the new password, exactly when it has at least 6 characters and equals the confirmation; a short password reports the length message and a mismatch the mismatch message; the answer decides success or error text; the spinner is off on every exit |
| ResetPassword.ExactlyOneMessage | src/app/reset-password/page.tsx:45-47 | every submit ends with exactly one of the two messages, whatever the form showed before |
| ResetPassword.LengthCheckedFirst | src/app/reset-password/page.tsx:50-60 | a short, mismatched pair reports the length error |
| ResetPassword.SuccessMeansAccepted | src/app/reset-password/page.tsx:62-69 | the success message appears only when the auth service accepted the password typed twice |

## Left out

- Goals.ActivityMultiplier: JavaScript object keys inherited from `Object.prototype` (such as "constructor", "toString" or "__proto__") are not modelled; the source looks them up as methods and the calorie goal becomes NaN, while the model gives such a level the 1.55 of any other unknown level.
- Goals.GoalAdjustment: the same inherited keys as a goal give NaN in the source; the model gives them the 0 of any other unknown goal.
- The uniqueness of (user, date) in `daily_stats` is assumed, not shown by the source: the table is a map from that key, and `StatsTable.Table.Insert` refuses an existing key. Several rows with one key, on which `.single()` would also fail, are not modelled.
- Profile.ProfileStore.Update: the source writes the recomputed `daily_*_goal` fields and `updated_at` into the caller's own `updates` object; the model takes the update by value, so that change to the caller's object is not modelled.
- Network and concurrency: every store call is one step with a `fails` flag; the read-modify-write race between two concurrent incremental updates is not modelled, operations run one after another.
- Clock and time zones: `new Date()`, `toISOString` (UTC), `toDateString`/`startOfDay` (local) and the parsing of `YYYY-MM-DD` strings become whole day numbers (`today`, `DayOf`); the differences between UTC and local days are not modelled.
- Floating point: nutrient values and the goal formula are exact reals; IEEE-754 rounding of the products and `toFixed` display formatting are not modelled.
- `Profile.ProfileUpdate`: only the fields the merge reads or the goals replace are modelled; `avatar_url`, `email` and `id` in an update are not.
- `ResetPassword.HandleResetPassword`: the three-second redirect to '/login' after success, the toasts, and the recovery-token check on page load are not modelled; `length` counts characters, not UTF-16 code units.
- `History.SortNewestFirst`: the formatted `pt-BR` date key is the day number; the stability of the sort among meals with equal timestamps is not stated.
- The matcher of `src/middleware.ts:76-78` (which paths the guard runs on) and the cookie callbacks are not modelled; the session read is an input.
- Image analysis, the chat, login and the OAuth callback, the setup page and the profile form call hosted services or only render; none is part of this model.
