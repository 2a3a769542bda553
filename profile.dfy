/**
 * The figures the profile page (src/app/profile/page.tsx) derives from the
 * stored profile and workouts: the age shown next to the birth date, the
 * current week and how much of it is completed, and the week that a profile
 * update asks the planner to regenerate.
 */
module ProfileSummary {
  import opened Optional
  import opened AgeBands

  /** The fields of the page's `WorkoutSummary` it computes with; absent fields are `None`. */
  datatype WorkoutSummary = WorkoutSummary(id: string, completed: Option<bool>, weekIndex: Option<int>, weekStart: Option<string>)

  /** The body of the regeneration request. */
  datatype Regeneration = Regeneration(weekStart: string, weekIndex: int)

  // ---------------------------------------------------------------------------
  // Age
  // ---------------------------------------------------------------------------

  /**
   * The `age` memo: no age without a birth date; otherwise the year
   * difference, one less while this year's birthday (by month, then day) is
   * still ahead.
   */
  method ProfileAge(birth: Option<Date>, today: Date) returns (age: Option<int>)
    requires birth.Some? ==> ValidDate(birth.value)
    requires ValidDate(today)
    ensures birth.None? ==> age.None?
    ensures birth.Some? ==> age == Some(AgeAt(birth.value, today))
  {
    if birth.None? {
      return None;
    }
    var b := birth.value;
    var years := today.year - b.year;
    var m := today.month - b.month;
    if m < 0 || (m == 0 && today.day < b.day) {
      years := years - 1;
    }
    ProfileRuleIsAgeAt(b, today);
    return Some(years);
  }

  /**
   * The month-then-day comparison of the profile page decides the same as
   * `today < new Date(today.getFullYear(), birth.getMonth(), birth.getDate())`,
   * February 29 in a common year included.
   */
  lemma ProfileRuleIsAgeAt(birth: Date, today: Date)
    requires ValidDate(birth) && ValidDate(today)
    ensures var m := today.month - birth.month;
            (m < 0 || (m == 0 && today.day < birth.day)) <==> Before(today, Anniversary(birth, today.year))
  {
    var a := Anniversary(birth, today.year);
    if birth.day > DaysInMonth(today.year, birth.month) {
      assert birth.month == 1 && birth.day == 29;
      assert a == Date(today.year, 2, 1);
    } else {
      assert a == Date(today.year, birth.month, birth.day);
    }
  }

  // ---------------------------------------------------------------------------
  // Week summary
  // ---------------------------------------------------------------------------

  /** `w.weekIndex ?? 0`. */
  function WeekOf(w: WorkoutSummary): int
  {
    w.weekIndex.GetOr(0)
  }

  /** `Math.max(0, ...workouts.map((w) => w.weekIndex ?? 0))`. */
  function CurrentWeekIndex(ws: seq<WorkoutSummary>): (r: int)
    ensures r >= 0
    ensures forall i :: 0 <= i < |ws| ==> WeekOf(ws[i]) <= r
    ensures r == 0 || exists i :: 0 <= i < |ws| && WeekOf(ws[i]) == r
  {
    if ws == [] then 0
    else
      var rest := CurrentWeekIndex(ws[1..]);
      assert forall i :: 1 <= i < |ws| ==> ws[i] == ws[1..][i - 1];
      if WeekOf(ws[0]) > rest then WeekOf(ws[0]) else rest
  }

  /** `workouts.filter((workout) => workout.weekIndex === week)`: a missing index never matches. */
  function InWeek(ws: seq<WorkoutSummary>, week: int): (r: seq<WorkoutSummary>)
    ensures |r| <= |ws|
    ensures forall w :: w in r <==> w in ws && w.weekIndex == Some(week)
  {
    if ws == [] then []
    else (if ws[0].weekIndex == Some(week) then [ws[0]] else []) + InWeek(ws[1..], week)
  }

  /** `currentWeekWorkouts`: a workout without a week index is never among them, even in week 0. */
  function CurrentWeekWorkouts(ws: seq<WorkoutSummary>): (r: seq<WorkoutSummary>)
    ensures forall w :: w in r <==> w in ws && w.weekIndex.Some? && w.weekIndex.value == CurrentWeekIndex(ws)
  {
    InWeek(ws, CurrentWeekIndex(ws))
  }

  /** `(w) => w.completed`: only an explicit `true` counts. */
  predicate IsCompleted(w: WorkoutSummary)
  {
    w.completed == Some(true)
  }

  /** `.filter((w) => w.completed).length`. */
  function CountCompleted(ws: seq<WorkoutSummary>): nat
  {
    if ws == [] then 0 else (if IsCompleted(ws[0]) then 1 else 0) + CountCompleted(ws[1..])
  }

  /** `completedCount`. */
  function CompletedCount(ws: seq<WorkoutSummary>): nat
  {
    CountCompleted(CurrentWeekWorkouts(ws))
  }

  /** `workouts.find((w) => w.weekIndex === week)`. */
  function FindInWeek(ws: seq<WorkoutSummary>, week: int): (r: Option<WorkoutSummary>)
    ensures r.None? <==> forall i :: 0 <= i < |ws| ==> ws[i].weekIndex != Some(week)
    ensures r.Some? ==> exists i :: 0 <= i < |ws| && ws[i] == r.value && ws[i].weekIndex == Some(week) &&
                                    forall j :: 0 <= j < i ==> ws[j].weekIndex != Some(week)
  {
    if ws == [] then None
    else if ws[0].weekIndex == Some(week) then Some(ws[0])
    else
      var r := FindInWeek(ws[1..], week);
      assert forall i :: 1 <= i < |ws| ==> ws[i] == ws[1..][i - 1];
      assert r.Some? ==> exists i :: 0 <= i < |ws| && ws[i] == r.value && ws[i].weekIndex == Some(week) &&
                                     forall j :: 0 <= j < i ==> ws[j].weekIndex != Some(week) by {
        if r.Some? {
          var i :| 0 <= i < |ws[1..]| && ws[1..][i] == r.value && ws[1..][i].weekIndex == Some(week) &&
                   forall j :: 0 <= j < i ==> ws[1..][j].weekIndex != Some(week);
          assert ws[i + 1] == r.value;
        }
      }
      r
  }

  /**
   * The request sent after a successful profile update: the week start of the
   * first workout of the current week (the current time `now` when there is
   * none, or when that workout has no week start), and the current week
   * index, at least 1.
   */
  function RegenerationRequest(ws: seq<WorkoutSummary>, now: string): (r: Regeneration)
    ensures r.weekIndex >= 1 && r.weekIndex >= CurrentWeekIndex(ws)
    ensures CurrentWeekIndex(ws) >= 1 ==> r.weekIndex == CurrentWeekIndex(ws)
    ensures CurrentWeekIndex(ws) == 0 ==> r.weekIndex == 1
  {
    var current := CurrentWeekIndex(ws);
    var found := FindInWeek(ws, current);
    var weekStart := if found.Some? && found.value.weekStart.Some? then found.value.weekStart.value else now;
    Regeneration(weekStart, if current > 1 then current else 1)
  }

  // ---------------------------------------------------------------------------
  // Proofs
  // ---------------------------------------------------------------------------

  /** Counting completed workouts never exceeds the list. */
  lemma {:induction false} CountCompletedBound(ws: seq<WorkoutSummary>)
    ensures CountCompleted(ws) <= |ws|
    ensures CountCompleted(ws) == |ws| <==> forall i :: 0 <= i < |ws| ==> IsCompleted(ws[i])
  {
    if ws != [] {
      CountCompletedBound(ws[1..]);
      assert forall i :: 1 <= i < |ws| ==> ws[i] == ws[1..][i - 1];
    }
  }

  /** The completed count of the current week is at most the number of its workouts. */
  lemma CompletedCountBound(ws: seq<WorkoutSummary>)
    ensures CompletedCount(ws) <= |CurrentWeekWorkouts(ws)| <= |ws|
  {
    CountCompletedBound(CurrentWeekWorkouts(ws));
  }

  /**
   * The regeneration week start is `now` exactly when the first workout of the
   * current week is missing or has no week start; otherwise it is that week start.
   */
  lemma RegenerationStart(ws: seq<WorkoutSummary>, now: string)
    ensures var found := FindInWeek(ws, CurrentWeekIndex(ws));
            found.Some? && found.value.weekStart.Some? ==>
              RegenerationRequest(ws, now).weekStart == found.value.weekStart.value
    ensures (forall i :: 0 <= i < |ws| ==> ws[i].weekIndex != Some(CurrentWeekIndex(ws))) ==>
              RegenerationRequest(ws, now).weekStart == now
    ensures var found := FindInWeek(ws, CurrentWeekIndex(ws));
            found.Some? && found.value.weekStart.None? ==> RegenerationRequest(ws, now).weekStart == now
    ensures var found := FindInWeek(ws, CurrentWeekIndex(ws));
            found.Some? ==> found.value in CurrentWeekWorkouts(ws)
  {
    var found := FindInWeek(ws, CurrentWeekIndex(ws));
    if found.Some? {
      var i :| 0 <= i < |ws| && ws[i] == found.value && ws[i].weekIndex == Some(CurrentWeekIndex(ws)) &&
               forall j :: 0 <= j < i ==> ws[j].weekIndex != Some(CurrentWeekIndex(ws));
      assert ws[i] in ws;
    }
  }
}
