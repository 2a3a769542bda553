# smartcalis — a Dafny model of the plan generator and its helpers

smartcalis is a calisthenics coaching app. A user states a goal, a level,
the equipment they own, any injuries, a birth date and how many days a week
they train. The app then generates a weekly plan of workouts, shows the
workout of the day with a set counter and rest timers, and summarises the
week on a dashboard and on the profile page.

This project models the rules behind those screens and proves what they
promise:

- **Planner** (`src/lib/planner.ts`) — the weekly plan generator:
  - the goal, age-band and day-split tables;
  - the seven-check eligibility filter;
  - the sampler, where the `Math.random` shuffle becomes a *choice stream*: each draw takes one element out of what is left of the pool;
  - set, rep and rest sizing, and the deload rule;
  - the duration estimate that reads numbers out of a reps string.
- **Schedule** (`src/lib/schedule.ts`) — training-day normalisation, the offset lookup and the Monday offset.
- **AgeBands** (`src/lib/ageBand.ts`) — the age in whole years on (year, month, day) dates, then the six bands.
- **Labels** (`src/lib/labels.ts`) — the Spanish pattern labels and the split/trim/map/join of `translateFocus`. A lookup that misses the six keys finds what the object literal inherits from `Object.prototype`.
- **Media** (`src/lib/media.ts`) — the slug, the alias table with its inherited members, the lower-cased file set, and the extension-order file lookup. The directory listing is a parameter.
- **Seed** (`scripts/seed.ts`) — the exercise-row defaults and the progression/regression row expansion. The catalog and the pairs are kept as data.
- **Dashboard** (`src/app/dashboard/page.tsx`):
  - rest days and weekday numbers;
  - the Monday offset;
  - grouping by week, as a loop over a map;
  - the offset each workout is shown at;
  - the day cells and their recovery activity.
- **TodayWorkout** (`src/app/workouts/today/page.tsx`):
  - choosing the active week and the next workout;
  - a `Session` class holding the page's two dictionaries: sets completed and rest left;
  - the set-completion handler and the one-second timer tick, as a loop with its `changed` flag;
  - the all-done gate, the set log and `mm:ss` formatting.
- **ProfileSummary** (`src/app/profile/page.tsx`):
  - the age shown on the profile, as a method with a mutable `years`, proved equal to the age-band computation;
  - the current week and its completed count;
  - the regeneration request.

Helper modules:
- `Types` holds the enums of `src/lib/types.ts`.
- `Optional` holds an `Option` type.
- `ObjectPrototype` holds the members every object literal inherits, by name, with the strings they print as.
- `Strings` holds the JavaScript string built-ins the core uses: `split`, `join`, `trim`, `toLowerCase`, `String(n)`, `Number(s)` on digit strings, and `padStart`.
- `Sorting` holds an insertion sort standing for `Array.prototype.sort` with a numeric comparator.

Validation ranges of the app (days per week 2..6, weekdays 0..6, week index ≥ 1) are not preconditions here. Every function is total and handles the values outside those ranges the way the code does.

## Model

| member | source | states |
|---|---|---|
| Planner.PatternsByDay | src/lib/planner.ts:48-61 | the split has `daysPerWeek` days for 2..6 and the 3-day split otherwise; every day trains at least one of PUSH, PULL, LEGS, CORE |
| Planner.SplitsTrainFourPatterns | src/lib/planner.ts:48-61 | no split schedules SKILL or MOBILITY on any day |
| Planner.AllOwned | src/lib/planner.ts:82-87 | `every(includes)` holds iff every required item is owned |
| Planner.AnyInjured | src/lib/planner.ts:88-92 | `some(includes)` holds iff some contraindication is among the injuries |
| Planner.PassesIffEligible | src/lib/planner.ts:72-93 | the early-return chain of checks admits exactly the exercises meeting all the rules, stated as independent conditions |
| Planner.GetExercisePool | src/lib/planner.ts:63-95 | an exercise is in the pool iff it is in the catalog and eligible (both directions); the pool keeps catalog order (a subsequence) |
| Planner.PoolAgeGate | src/lib/planner.ts:73-92 | a pooled exercise has one of the day's patterns and is not blocked; no advanced skill when the band forbids it; a BEGINNER never gets ADVANCED; an INTERMEDIATE gets ADVANCED only if the band allows it; equipment is owned or none is needed; no contraindication matches an injury |
| Planner.TestFiltersContraindicated | src/lib/planner.test.ts:35-51 | with a wrist injury, the wrist-contraindicated exercise appears in no day whatever the shuffle draws |
| Planner.RemoveAt | src/lib/planner.ts:98 | taking one element out of the pool leaves the multiset minus that element |
| Planner.Draw | src/lib/planner.ts:98 | a draw always names a position inside what is left of the pool |
| Planner.Draws | src/lib/planner.ts:97-99 | drawing n elements from the shuffle gives min(n, \|pool\|) of them (none for n ≤ 0), a sub-multiset of the pool |
| Planner.Pick | src/lib/planner.ts:97-100 | `shuffled.slice(0, count)` keeps min(count, \|pool\|) elements for count ≥ 0 and all but the last −count for a negative count (none once −count ≥ \|pool\|); a sub-multiset of the pool |
| Planner.DrawsPrefix | src/lib/planner.ts:97-99 | with the same stream, drawing fewer elements gives a prefix of drawing more |
| Planner.PickIsSlice | src/lib/planner.ts:97-100 | for every count, negative or beyond the pool, the selection is a prefix of the same stream's full shuffle of the pool |
| Planner.PickSound | src/lib/planner.ts:97-100 | every picked element comes from the pool, no more often than it occurs there |
| Planner.PickReaches | src/lib/planner.ts:98-99 | conversely, every sub-multiset of the pool, in any order, is drawn by some choice stream: the model allows exactly the prefixes of the pool's permutations |
| Planner.PickAllIsPermutation | src/lib/planner.ts:98-99 | asking for at least the whole pool gives a permutation of the pool |
| Planner.PickFirst | src/lib/planner.ts:98-99 | a stream starting with position k draws pool[k] first, then draws from the rest |
| Planner.DeloadBounds | src/lib/planner.ts:117-119 | `applyDeload(s)` is between 1 and s, and below s from 2 sets up |
| Planner.DeloadIsFlooredProduct | src/lib/planner.ts:117-119 | the integer form equals max(1, ⌊s·0.7⌋) on exact reals |
| Planner.DeloadValues | src/lib/planner.test.ts:72-87 | the deload maps 1..5 sets to 1, 1, 2, 2, 3; in particular 4 sets become 2 |
| Planner.ItemSetsBounds | src/lib/planner.ts:137-154 | item sets are min(goal sets, max sets), which lies in 2..4; in a deload week (weekIndex % 4 = 0) they are fewer, but at least 1 |
| Planner.DigitRunLength | src/lib/planner.ts:104 | the leading run of digits is maximal: all digits, and followed by a non-digit or the end |
| Planner.DigitRunsFront | src/lib/planner.ts:104 | a leading numeral contributes its value to `match(/\d+/g)` and the scan goes on after it |
| Planner.RangeRuns | src/lib/planner.ts:104 | the goal reps string "a-b", optionally followed by "s", yields exactly the numbers [a, b] |
| Planner.RangePerSet | src/lib/planner.ts:105-111 | a range "a-b" averages to round((a+b)/2); it is a timed hold (seconds, not reps × 4) exactly when it ends in "s" |
| Planner.RoundMinutes | src/lib/planner.ts:114-169 | `Math.round(seconds / 60)` is (seconds + 30) div 60 |
| Planner.TotalMinutes | src/lib/planner.ts:167-170 | the day's minutes are min(session length, rounded estimate): at most each of the two and equal to one of them |
| Planner.EmptyDayMinutes | src/lib/planner.ts:102-170 | a day without items totals 0 minutes |
| Planner.GeneratePlan | src/lib/planner.ts:121-181 | the plan carries the requested week index and one day per day of the split |
| Planner.PlanDayCount | src/lib/planner.ts:134-139 | the plan has `daysPerWeek` days for 2..6 and 3 otherwise |
| Planner.PlanDayHeading | src/lib/planner.ts:173-174 | day i is titled "Día i+1"; its focus is its patterns' labels joined with " + ", which `translateFocus` leaves unchanged |
| Planner.PlanItemRules | src/lib/planner.ts:139-165 | every item is an eligible catalog exercise for that day's patterns; its sets follow the goal, age and deload rules; its reps are the goal's string verbatim; its rest is goal rest plus the age bonus |
| Planner.PlanDayDraws | src/lib/planner.ts:140-152 | a day's items are, in order, the exercises drawn from that day's pool, none more often than it occurs there |
| Planner.PlanItemCount | src/lib/planner.ts:149-151 | a day has at most 5 / 4 / 3 items for sessions of ≥45 / ≥30 / fewer minutes, and never more than its pool; it has exactly that many when the pool is large enough, and the whole pool otherwise |
| Planner.TestSessionTimeCount | src/lib/planner.test.ts:53-70 | a 3-day plan for a session under 30 minutes, over a catalog with three eligible push exercises, has 3 days and 3 items on day 1 |
| Planner.PlanMinutes | src/lib/planner.ts:167-170 | a day's total is min(session minutes, rounded estimate), never above the session length, and 0 for an empty day |
| Planner.TestDeloadWeekFour | src/lib/planner.test.ts:72-87 | a hypertrophy plan for the BUILD band in a deload week gives every item 2 sets |
| Schedule.ClampDays | src/lib/schedule.ts:5 | the clamp lies in 2..6, keeps 2..6 and maps values below or above to 2 or 6 |
| Schedule.InRange | src/lib/schedule.ts:7 | keeps exactly the inputs in 0..6 |
| Schedule.Dedupe | src/lib/schedule.ts:6-7 | `Array.from(new Set(...))` has no repetitions and the same elements |
| Schedule.SortedValidDays | src/lib/schedule.ts:6-8 | the valid inputs, each once, strictly ascending |
| Schedule.UniqueDays | src/lib/schedule.ts:6-8 | `unique` is strictly ascending, holds exactly the valid input days, and lies in 0..6 |
| Schedule.UniqueIsAscendingInputs | src/lib/schedule.ts:6-8 | `unique` is the week 0..6 filtered by the valid inputs, one entry per distinct valid day |
| Schedule.FillDays | src/lib/schedule.ts:10-17 | the cut-or-fill step returns exactly safeDays distinct weekdays |
| Schedule.NormalizeTrainingDays | src/lib/schedule.ts:1-18 | exactly clamp(daysPerWeek, 2, 6) pairwise distinct days, all in 0..6 |
| Schedule.NormalizeDependsOnValidSet | src/lib/schedule.ts:6-8 | out-of-range values and repetitions in the input never change the result |
| Schedule.NormalizeEnoughDays | src/lib/schedule.ts:10-12 | with at least safeDays valid distinct inputs, the result is ascending, holds only given days, and every given day left out is later than every day kept |
| Schedule.NormalizeFillsDays | src/lib/schedule.ts:14-17 | with fewer valid inputs, the result is every given day ascending, then unused weekdays ascending, each smaller than every weekday left out |
| Schedule.NormalizeEmpty | src/lib/schedule.ts:14-17 | no (or no valid) input days give [0, …, safeDays-1] |
| Schedule.GetOffsets | src/lib/schedule.ts:20-22 | the offsets are the normalised days: clamp(daysPerWeek, 2, 6) distinct weekdays |
| Schedule.MondayOffset | src/lib/schedule.ts:27-29 | the offset lies in [-6, 0], lands on weekday 1 (Monday), and is the only such offset |
| Schedule.ScheduledOffset | src/lib/schedule.ts:39-40 | for dayIndex ≥ 0 the offset is offsets[min(dayIndex, len-1)], always a normalised day; a negative index gives 0 (the `?? 0`) |
| AgeBands.MakeDate | src/lib/ageBand.ts:17-21 | `new Date(y, m, d)` is a valid date in year y on the same day of the year, a day past the month rolling into the next |
| AgeBands.Anniversary | src/lib/ageBand.ts:17-21 | the birthday in year y is a valid date of that year |
| AgeBands.AgeIsCompletedYears | src/lib/ageBand.ts:13-23 | the age counts the birthdays passed: the birthday at that age is on or before today, the next one is after today |
| AgeBands.AgeUnique | src/lib/ageBand.ts:13-23 | that characterisation determines the age |
| AgeBands.AgeOnBirthday | src/lib/ageBand.ts:13-23 | the age goes up on the birthday itself |
| AgeBands.AgeMonotone | src/lib/ageBand.ts:13-23 | a later day never gives a smaller age |
| AgeBands.AnniversaryOrder | src/lib/ageBand.ts:17-21 | birthdays in different years come in the order of their years |
| AgeBands.BandOf | src/lib/ageBand.ts:25-30 | ≤17 TEEN, 18-29 PRIME, 30-39 BUILD, 40-49 REBUILD, 50-59 STRONG50, ≥60 ACTIVE60, each as an iff |
| AgeBands.BandMonotone | src/lib/ageBand.ts:25-30 | a larger age never gives an earlier band |
| AgeBands.AgeBandLabel | src/lib/ageBand.ts:3-10 | each band's label is its own name |
| AgeBands.LabelsDistinct | src/lib/ageBand.ts:3-10 | two bands share a label iff they are the same band |
| AgeBands.TestedTeen | src/lib/ageBand.test.ts:5-10 | born 2008-02-01, on 2026-01-25 the age is 17 and the band TEEN |
| AgeBands.TestedBands | src/lib/ageBand.test.ts:12-35 | the other five tested birth years give PRIME, BUILD, REBUILD, STRONG50 and ACTIVE60 |
| Labels.KeyPattern | src/lib/labels.ts:3-10 | a string is one of the record's own keys exactly when it is the key of a pattern, and then it names that pattern |
| ObjectPrototype.InheritedDomain | src/lib/labels.ts:16 | a lookup that misses the own keys finds an inherited member exactly for the twelve names of `Object.prototype` |
| ObjectPrototype.InheritedValueShape | src/lib/labels.ts:16-17 | what an inherited member prints as holds no '+', starts with 'f' or '[', ends with '}' or ']', and is no member name itself |
| Labels.LabelNotInherited | src/lib/labels.ts:3-10 | no label is the name of an inherited member |
| Labels.InheritedNotKey | src/lib/labels.ts:3-10 | no inherited member name is a pattern key, so the own keys are never shadowed |
| Labels.TranslateInherited | src/lib/labels.ts:16 | a part naming an inherited member is replaced by that member's string form |
| Labels.TranslateConstructor | src/lib/labels.ts:15-16 | the part "constructor" becomes "function Object() { [native code] }" |
| Labels.InheritedPartShape | src/lib/labels.ts:15-17 | the string form of an inherited member is a trimmed, '+'-free part that translates to itself |
| Labels.LabelsDistinct | src/lib/labels.ts:3-10 | the six labels are pairwise distinct |
| Labels.LabelShape | src/lib/labels.ts:3-10 | no label is itself a key, contains '+', or has blanks at its ends |
| Labels.TranslatePartShape | src/lib/labels.ts:15-16 | a translated '+'-free part stays '+'-free, is trimmed, and translating it again changes nothing |
| Labels.TranslateKey | src/lib/labels.ts:16 | a pattern key translates to its label |
| Labels.TranslateJoined | src/lib/labels.ts:12-18 | translating a " + "-joined list of '+'-free parts translates each part and joins again with " + " |
| Labels.TranslateKeys | src/lib/labels.ts:3-17 | a " + "-joined list of pattern keys becomes the " + "-joined list of their labels |
| Labels.TranslateLabelsFixed | src/lib/labels.ts:12-18 | a focus made of labels, as the planner writes it, is left unchanged |
| Labels.TranslateIdempotent | src/lib/labels.ts:12-18 | `translateFocus` is idempotent |
| Labels.TranslateKeepsPieces | src/lib/labels.ts:13-17 | the number of '+'-separated parts is preserved |
| Strings.Split | src/lib/labels.ts:14 | `split` returns at least one piece |
| Strings.SplitShape | src/lib/labels.ts:14 | one more piece than separators, and no piece holds the separator |
| Strings.SplitSpacedJoin | src/lib/labels.ts:14-17 | splitting a " + "-joined list on '+' gives back as many pieces, each equal to its original up to surrounding blanks |
| Strings.TrimIsTrimmed | src/lib/labels.ts:15 | `trim` leaves no blank at either end |
| Strings.TrimIdempotent | src/lib/labels.ts:15 | `trim` is idempotent |
| Strings.Lower | src/lib/media.ts:38 | `toLowerCase` keeps the length and lowers each character |
| Strings.NatToString | src/lib/planner.ts:173 | `String(n)` is a non-empty numeral, one digit long exactly below 10 |
| Strings.ParsePrinted | src/app/workouts/today/page.tsx:354 | parsing a printed number gives it back |
| Strings.PadStart | src/app/workouts/today/page.tsx:185 | `padStart` gives max(\|s\|, width) characters: fill characters, then s |
| Sorting.SortBy | src/app/workouts/today/page.tsx:89-91 | sorting by a key gives a permutation, ordered by that key |
| Sorting.SortInts | src/lib/schedule.ts:8 | numeric ascending sort: a permutation, in ascending order |
| Sorting.StrictlyIncreasingUnique | src/lib/schedule.ts:6-8 | two strictly increasing lists with the same elements are equal |
| Media.PatternMedia | src/lib/media.ts:5-15 | every pattern's fallback media has thumbnail = mediaUrl |
| Media.KeepSlugChars | src/lib/media.ts:40 | only [a-z0-9] characters remain |
| Media.KeepSlugCharsReplace | src/lib/media.ts:39-40 | the "90/90" replacement changes nothing once non-slug characters are removed |
| Media.SlugifyIsFilter | src/lib/media.ts:36-42 | the slug is the ASCII-lowercased name with every non-[a-z0-9] character removed; it holds only [a-z0-9] |
| Media.TrimHyphensSlug | src/lib/media.ts:41 | the hyphen trim has nothing left to remove |
| Media.SlugifyIdempotent | src/lib/media.ts:36-42 | `slugify` is idempotent |
| Media.BaseNameAlias | src/lib/media.ts:30-47 | the base name is what `aliasMap[slug]` finds when it finds something, otherwise the slug; for a slug it finds something exactly for the three misspelt names and the inherited `constructor` |
| Media.SlugInherited | src/lib/media.ts:30-47 | `constructor` is the only inherited member name a slug can be |
| Media.ExerciseFiles | src/lib/media.ts:19-28 | every listed file is present lower-cased, every present name comes from the listing, and no present name holds an upper-case letter |
| Media.ConstructorFallsBack | src/lib/media.ts:44-59 | an exercise slugged "constructor" has the `Object` function's text as base name and always gets its pattern's media, since that text's 'O' is in no lower-cased file name |
| Media.FirstPresent | src/lib/media.ts:48-56 | finds nothing iff no extension's file exists, otherwise the file of the first extension present |
| Media.FirstPresentAt | src/lib/media.ts:50-52 | the file of the first present extension is the one found |
| Media.ResolveExerciseMedia | src/lib/media.ts:44-59 | the loop with its early return computes the resolved media, whose thumbnail equals its mediaUrl |
| Media.ExtensionPriority | src/lib/media.ts:48-56 | a ".jpg" file wins over the others, and a ".png" file over ".svg"; the URL is "/exercises/" + file |
| Media.FallbackExactly | src/lib/media.ts:50-58 | the pattern fallback is taken exactly when none of the three files exists |
| Media.SameSlugSameMedia | src/lib/media.ts:36-47 | names with the same slug resolve to the same media |
| Seed.MediaByPatternIsPatternMedia | scripts/seed.ts:12-25 | the seed's media table equals the app's pattern media table |
| Seed.RowDefaults | scripts/seed.ts:364-375 | missing contraindications and equipment become [], a missing advanced flag becomes false, and given values are kept; media comes from the pattern table; cues and errors are the base lists |
| Seed.NameToId | scripts/seed.ts:379 | the map's names are exactly the inserted names, each mapped to an id inserted with it |
| Seed.NameToIdLastWins | scripts/seed.ts:379 | a name's id is that of its last inserted row |
| Seed.ProgressionRows | scripts/seed.ts:381-407 | every row's order index is the position of a pair |
| Seed.RowMembership | scripts/seed.ts:381-399 | a row exists iff its pair resolves, with PROGRESSION from→to and REGRESSION to→from at that pair's index; unresolvable pairs give nothing |
| Seed.RowCount | scripts/seed.ts:381-407 | there are 2 × (number of resolvable pairs) rows |
| Seed.ReverseIsRow | scripts/seed.ts:386-399 | the reverse of every row is a row of the other relation |
| Seed.RowsInPairOrder | scripts/seed.ts:381-401 | rows come in pair order |
| Seed.AllResolved | scripts/seed.ts:381-407 | when every pair resolves, the resolvable count is the number of pairs |
| Dashboard.GetRestOffsets | src/app/dashboard/page.tsx:26-32 | the rest days are exactly the days 0..6 off the normalised training days, ascending |
| Dashboard.RestDaysComplement | src/app/dashboard/page.tsx:27-31 | rest and training days split the week, so 7 − clamp(daysPerWeek, 2, 6) rest days |
| Dashboard.WeekdayNumber | src/app/dashboard/page.tsx:43-46 | the weekday number lies in 1..7 and is the day modulo 7 (Sunday 0 ↦ 7) |
| Dashboard.WeekdayNumberBijective | src/app/dashboard/page.tsx:43-46 | it is one-to-one and takes every value 1..7 |
| Dashboard.ToMondayOffset | src/app/dashboard/page.tsx:34-41 | the offset lies in [-6, 0] and lands on Monday |
| Dashboard.ToMondayIsWeekStart | src/app/dashboard/page.tsx:34-41 | `toMonday` uses the same offset as `getWeekStart`, and a Monday stays put |
| Dashboard.RecoveryIndex | src/app/dashboard/page.tsx:192-193 | the index is always within `recoveryOptions` |
| Dashboard.RecoveryIndicesShown | src/app/dashboard/page.tsx:164-193 | over a week only indices 1, 3 and 5 of the six activities are shown |
| Dashboard.OfWeek | src/app/dashboard/page.tsx:124-128 | a week's list holds exactly the workouts with that key |
| Dashboard.Keys | src/app/dashboard/page.tsx:123-130 | the week keys have no repetitions, and every workout's key is among them |
| Dashboard.KeysFromWorkouts | src/app/dashboard/page.tsx:123-130 | every key listed is some workout's key |
| Dashboard.GroupByWeek | src/app/dashboard/page.tsx:123-129 | the `reduce` yields the keys in first-seen order, with each group equal to that week's workouts in list order |
| Dashboard.GroupsPartition | src/app/dashboard/page.tsx:123-129 | the group sizes sum to the number of workouts |
| Dashboard.OffsetOf | src/app/dashboard/page.tsx:151-161 | a dated workout is placed at its rounded day distance from the week start; an undated one at offsets[dayIndex], or at dayIndex itself when outside the offsets |
| Dashboard.RoundDaysInt | src/app/dashboard/page.tsx:154-156 | `Math.round(ms / 86400000)` is (ms + 43200000) div 86400000 |
| Dashboard.OffsetMap | src/app/dashboard/page.tsx:149-162 | the map's offsets are exactly those of the week's workouts, each holding a workout placed there |
| Dashboard.OffsetMapLastWins | src/app/dashboard/page.tsx:151-162 | a later workout at the same offset replaces an earlier one |
| Dashboard.WorkoutByOffset | src/app/dashboard/page.tsx:149-162 | the `forEach` loop computes that map |
| Dashboard.OffsetsShown | src/app/dashboard/page.tsx:149-162 | undated workouts with day indices 0..n−1 occupy exactly the n offsets |
| Dashboard.DayCells | src/app/dashboard/page.tsx:164-193 | seven cells numbered 1..7; a workout cell exactly where the map has one, otherwise the recovery activity of that index |
| Dashboard.PlannedWeekRestCells | src/app/dashboard/page.tsx:26-193 | for a week as the planner stores it, recovery cells appear exactly on the rest days |
| TodayWorkout.WeekKeysShape | src/app/workouts/today/page.tsx:72-83 | the week keys are strictly ascending and are exactly the week indices that occur (missing ones as 0) |
| TodayWorkout.Grouped | src/app/workouts/today/page.tsx:72-80 | a week's group holds exactly the workouts of that week |
| TodayWorkout.FindPendingWeek | src/app/workouts/today/page.tsx:84-86 | finds nothing iff no week has a workout not completed, otherwise the first such week key |
| TodayWorkout.ActiveWeekChoice | src/app/workouts/today/page.tsx:81-88 | the active week is a week that occurs; when some workout is pending it is the smallest week with a pending workout; otherwise it is the largest week |
| TodayWorkout.Pending | src/app/workouts/today/page.tsx:94 | holds exactly the workouts not completed |
| TodayWorkout.FirstOfWeekChoice | src/app/workouts/today/page.tsx:89-95 | within a week the choice is a workout of it (none only for an empty week): the pending one with the smallest day index, or, when all are done, one with the smallest day index |
| TodayWorkout.NextWorkoutChoice | src/app/workouts/today/page.tsx:67-99 | a workout is chosen iff there are any, and it is stored; with pending workouts it is pending, from the smallest week with pending ones, of least day index among them; otherwise it is from the largest week, of least day index |
| TodayWorkout.NextOffset | src/app/workouts/today/page.tsx:101-102 | for dayIndex ≥ 0 the offset is a normalised training day; a negative index gives 0 (the `?? 0`) |
| TodayWorkout.NextCount | src/app/workouts/today/page.tsx:309-312 | the count goes up by one, never past `sets` |
| TodayWorkout.RestAfter | src/app/workouts/today/page.tsx:313-317 | the timer restarts at restSeconds, or is 0 once the item is complete |
| TodayWorkout.Session.CompleteSet | src/app/workouts/today/page.tsx:307-322 | the handler updates only this item's count and timer, to those values |
| TodayWorkout.PressesCount | src/app/workouts/today/page.tsx:307-322 | after n ≥ 1 presses the count is min(sets, count + n); other items keep theirs |
| TodayWorkout.PressesComplete | src/app/workouts/today/page.tsx:307-343 | from nothing, `sets` presses complete the item and open the gate |
| TodayWorkout.TickValue | src/app/workouts/today/page.tsx:130 | a timer ticks to max(0, v − 1) |
| TodayWorkout.TickAll | src/app/workouts/today/page.tsx:126-137 | a tick keeps the timers and ticks each of them |
| TodayWorkout.TickTimers | src/app/workouts/today/page.tsx:126-137 | the loop over the entries returns every timer ticked (the old record when nothing changed) and beeps exactly for timers that go from positive to 0 |
| TodayWorkout.Session.Tick | src/app/workouts/today/page.tsx:124-138 | a tick updates the rest timers that way, reports the beeping timers, and leaves the set counts alone |
| TodayWorkout.BeepsAtOne | src/app/workouts/today/page.tsx:130-134 | the beeping timers are exactly those at 1 |
| TodayWorkout.TickTimesValue | src/app/workouts/today/page.tsx:124-138 | after n ticks a timer shows max(0, v − n) |
| TodayWorkout.TickFixedPoint | src/app/workouts/today/page.tsx:135-137 | for non-negative timers, a tick changes nothing iff every timer is 0 |
| TodayWorkout.AllDone | src/app/workouts/today/page.tsx:341-347 | registration opens iff every item's count (missing as 0) reaches its sets |
| TodayWorkout.LoggedReps | src/app/workouts/today/page.tsx:354 | the logged reps are always at least 1 |
| TodayWorkout.LoggedRange | src/app/workouts/today/page.tsx:354 | a range "a-b" logs a, or 6 when a is 0 |
| TodayWorkout.ItemLog | src/app/workouts/today/page.tsx:351-357 | one entry per set, numbered 1..sets, with the logged reps, rpe 7 and pain 0 |
| TodayWorkout.SessionLogSize | src/app/workouts/today/page.tsx:350-358 | the log has Σ max(0, sets) entries |
| TodayWorkout.SessionLogEntries | src/app/workouts/today/page.tsx:350-358 | an entry is in the log iff it is set 1..sets of some item, with that item's reps, rpe 7 and pain 0 |
| TodayWorkout.FormatRestParses | src/app/workouts/today/page.tsx:182-186 | the display is two or more minute digits, ':', two second digits, and reads back as the given seconds |
| TodayWorkout.PaddedNumeral | src/app/workouts/today/page.tsx:185 | a number padded to two digits keeps its value, and is two characters long below 100 |
| TodayWorkout.FormatRestWidth | src/app/workouts/today/page.tsx:182-186 | below 100 minutes the display is exactly five characters, `mm:ss` |
| ProfileSummary.ProfileAge | src/app/profile/page.tsx:97-107 | no birth date gives no age; otherwise the profile's age equals the age `calculateAgeBand` computes |
| ProfileSummary.ProfileRuleIsAgeAt | src/app/profile/page.tsx:101-105 | the month-then-day test decides the same as "today is before this year's birthday", including February 29 in a common year |
| ProfileSummary.CurrentWeekIndex | src/app/profile/page.tsx:92 | the current week is ≥ 0, at least every workout's week index (missing as 0), and is 0 or some workout's index |
| ProfileSummary.InWeek | src/app/profile/page.tsx:93-95 | keeps exactly the workouts whose index is that week; a missing index never matches |
| ProfileSummary.CurrentWeekWorkouts | src/app/profile/page.tsx:93-95 | holds exactly the workouts with an index equal to the current week |
| ProfileSummary.CountCompletedBound | src/app/profile/page.tsx:96 | the completed count is at most the list length, and equal iff every workout is completed |
| ProfileSummary.CompletedCountBound | src/app/profile/page.tsx:93-96 | `completedCount` ≤ `currentWeekWorkouts.length` ≤ the number of workouts |
| ProfileSummary.FindInWeek | src/app/profile/page.tsx:147-148 | finds nothing iff no workout has that week, otherwise the first that does |
| ProfileSummary.RegenerationRequest | src/app/profile/page.tsx:147-156 | the requested week index is max(currentWeekIndex, 1): at least 1, equal to the current week from 1 up |
| ProfileSummary.RegenerationStart | src/app/profile/page.tsx:147-149 | the week start is that of the current week's first workout when it has one, and the current time when that workout has no week start or the week has no workout |

## Left out

- Authentication, database access, the API routes and the validation schemas are not modelled. They are I/O, framework and cryptographic calls.
- `run()`'s deletes and inserts in `scripts/seed.ts` are left out. The ids the insert returns are a parameter (`inserted`) of `Seed.NameToId`.
- The catalog constants:
  - `exercisesSeed` and `progressions` are kept as data (`Seed.ExercisesSeed`, `Seed.Progressions`).
  - The statement that all 18 pairs resolve on the shipped catalog, giving 36 rows, is not proved. Resolving names against a 76-entry literal is too expensive for the verifier. `Seed.RowCount` and `Seed.AllResolved` state it for any catalog where the pairs resolve.
- The `!fromId || !toId` check in `scripts/seed.ts:385` is modelled as written: a missing name and an id of 0 both leave the pair unresolved.
- The `Math.random` comparator shuffle is modelled as the choice stream of `Planner.Pick`. Its distribution (which this comparator does not make uniform) is not modelled.
- Planner.ApplyDeload: `sets * 0.7` in IEEE doubles is modelled as 7·sets/10 on integers.
  - `Planner.DeloadIsFlooredProduct` shows this equals flooring the exact product.
  - Agreement with the double rounding is not proved in general. It holds on the set counts that occur (1 to 5).
- Planner.GeneratePlan: the concrete goal rep strings (for example "10-15") are not pushed through the duration estimate. `Planner.RangePerSet` states the estimate for every string of that shape instead.
- The pain-driven next-week exclusion lives in a completion route that is not part of this model. Only the `blockedExerciseIds` parameter is modelled.
- Timers, `AudioContext` beeps, `fetch`, `fs.readdir` and the `cachedFiles` cache are left out.
  - The beeps are returned as a set of timer keys.
  - The directory listing is a parameter; its lower-casing is `Media.ExerciseFiles`.
  - The interval is one call of `Session.Tick`.
- Real `Date` objects are reduced:
  - Dates are (year, month 0..11, day) triples; weekdays are 0..6.
  - A scheduled date becomes a millisecond distance from the week start.
  - Times of day, time zones, ISO parsing, `toISOString` and `toLocaleDateString` are not modelled.
  - The profile's age takes an already-parsed birth date; an unparsable birth-date string is not modelled.
  - The current time of the regeneration request (`new Date().toISOString()`) is a parameter `now`.
- The week labels and the `nextDate` of the today page are not modelled. They depend only on `Date` arithmetic and rendering.
- `splitReason` and all JSX rendering are not modelled.
- ObjectPrototype.Inherited: the text of a built-in function is written the way Node.js prints it ("function toString() { [native code] }"). The language standard leaves that text to the engine.
- Strings.Lower: `toLowerCase` is modelled on ASCII letters only, with no Unicode case mapping.
- TodayWorkout.LoggedReps: `Number(s)` is modelled on blank-padded decimal numerals only. Hexadecimal, exponent, sign and fraction syntaxes count as not-a-number (so 6 is logged).
- TodayWorkout.NextWorkout: `grouped` is keyed by `weekIndex ?? 0` as numbers and is modelled as a filter over the list. JavaScript object-key coercion (a negative or fractional key) is not modelled.
- The dashboard's key `${weekIndex}|${weekStart}` is kept as a pair. A week start that itself contains '|' could make two keys collide in the source; the model does not reproduce that.
- ProfileSummary.CurrentWeekIndex: `Math.max(0, ...list)` is modelled without the engine's limit on the number of spread arguments.
- BMI (`src/lib/bmi.ts` and its display on the profile page) is floating point and is not part of this model.
