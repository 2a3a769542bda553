/**
 * The week view of the dashboard (src/app/dashboard/page.tsx): rest days as
 * the complement of the training days, weekday numbering, the Monday offset,
 * the grouping of workouts by week, the offset each workout is shown at, and
 * the recovery activity of a day without a workout.
 *
 * A `Date` is reduced to its `getDay()` value (0 = Sunday ... 6 = Saturday),
 * and a workout's `scheduledDate` to its distance in milliseconds from the
 * start of the week.
 */
module Dashboard {
  import opened Optional
  import opened Sorting
  import opened Schedule
  import Planner

  /** The fields of `WorkoutSummary` the week view computes with. */
  datatype WorkoutSummary = WorkoutSummary(
    id: string,
    focus: string,
    dayIndex: int,
    totalMinutes: int,
    weekIndex: int,
    weekStart: string,
    scheduledMs: Option<int>)

  /** The week key `${weekIndex}|${weekStart}`, kept as its two parts. */
  datatype WeekKey = WeekKey(weekIndex: int, weekStart: string)

  /** A day of the week view. */
  datatype DayCell = Train(dayNumber: int, workout: WorkoutSummary) | Rest(dayNumber: int, activity: string)

  const RecoveryOptions: seq<string> := ["Caminata suave", "Trote muy suave", "Baile entretenido",
                                         "Movilidad guiada", "Bicicleta ligera", "Respiración + estiramiento"]

  const DayMs: int := 86400000

  // ---------------------------------------------------------------------------
  // Rest days, weekday numbers, Monday
  // ---------------------------------------------------------------------------

  /** `getRestOffsets`: the weekdays 0..6 that are not training days, ascending. */
  function GetRestOffsets(daysPerWeek: int, trainingDays: seq<int>): (r: seq<int>)
    ensures StrictlyIncreasing(r)
    ensures forall x :: x in r <==> 0 <= x <= 6 && x !in NormalizeTrainingDays(daysPerWeek, Some(trainingDays))
  {
    var training := NormalizeTrainingDays(daysPerWeek, Some(trainingDays));
    RestShape(training);
    KeepOut(Week, training)
  }

  /** `getWeekdayNumber`: Monday = 1 ... Sunday = 7. */
  function WeekdayNumber(day: int): (r: int)
    requires 0 <= day <= 6
    ensures 1 <= r <= 7
    ensures r % 7 == day
  {
    if day == 0 then 7 else day
  }

  /** The offset `toMonday` adds to a date whose `getDay()` is `day`. */
  function ToMondayOffset(day: int): (r: int)
    requires 0 <= day <= 6
    ensures -6 <= r <= 0
    ensures WeekdayAfter(day, r) == 1
  {
    if day == 0 then -6 else 1 - day
  }

  /** `(dayOffset + dayNumber) % recoveryOptions.length` with `dayNumber = dayOffset + 1`. */
  function RecoveryIndex(dayOffset: int): (r: int)
    requires 0 <= dayOffset
    ensures 0 <= r < |RecoveryOptions|
    ensures r % 2 == 1
  {
    var dayNumber := dayOffset + 1;
    (dayOffset + dayNumber) % |RecoveryOptions|
  }

  // ---------------------------------------------------------------------------
  // Grouping by week
  // ---------------------------------------------------------------------------

  function KeyOf(w: WorkoutSummary): WeekKey
  {
    WeekKey(w.weekIndex, w.weekStart)
  }

  /** The workouts with week key `k`, in list order. */
  function OfWeek(workouts: seq<WorkoutSummary>, k: WeekKey): (r: seq<WorkoutSummary>)
    ensures forall w :: w in r <==> w in workouts && KeyOf(w) == k
    ensures |r| <= |workouts|
  {
    if workouts == [] then []
    else
      var init := workouts[..|workouts| - 1];
      var last := workouts[|workouts| - 1];
      assert workouts == init + [last];
      OfWeek(init, k) + (if KeyOf(last) == k then [last] else [])
  }

  /** The week keys in order of first appearance (the order `Object.entries` gives back). */
  function Keys(workouts: seq<WorkoutSummary>): (r: seq<WeekKey>)
    ensures Distinct(r)
    ensures forall w :: w in workouts ==> KeyOf(w) in r
  {
    if workouts == [] then []
    else
      var init := workouts[..|workouts| - 1];
      var last := workouts[|workouts| - 1];
      assert workouts == init + [last];
      var r := Keys(init);
      if KeyOf(last) in r then r else r + [KeyOf(last)]
  }

  /** The `reduce` that builds `groups`: one list per week key, appended to in order. */
  method GroupByWeek(workouts: seq<WorkoutSummary>) returns (keys: seq<WeekKey>, groups: map<WeekKey, seq<WorkoutSummary>>)
    ensures keys == Keys(workouts)
    ensures forall k :: k in groups <==> k in keys
    ensures forall k :: k in groups ==> groups[k] == OfWeek(workouts, k)
  {
    keys := [];
    groups := map[];
    for i := 0 to |workouts|
      invariant keys == Keys(workouts[..i])
      invariant forall k :: k in groups <==> k in keys
      invariant forall k :: k in groups ==> groups[k] == OfWeek(workouts[..i], k)
    {
      var item := workouts[i];
      var key := KeyOf(item);
      ghost var before, keysBefore := groups, keys;
      if key in groups {
        groups := groups[key := groups[key] + [item]];
      } else {
        groups := groups[key := [item]];
        keys := keys + [key];
      }
      GroupStep(workouts, i, keysBefore, before, keys, groups);
    }
    assert workouts[..|workouts|] == workouts;
  }

  // ---------------------------------------------------------------------------
  // Where a workout is shown
  // ---------------------------------------------------------------------------

  /** `Math.round(ms / 86400000)`. */
  function RoundDays(ms: int): int
  {
    Planner.Round(ms as real / DayMs as real)
  }

  /** The day offset a workout is shown at: from its date if it has one, otherwise `offsets[dayIndex] ?? dayIndex`. */
  function OffsetOf(w: WorkoutSummary, offsets: seq<int>): (r: int)
    ensures w.scheduledMs.None? && 0 <= w.dayIndex < |offsets| ==> r == offsets[w.dayIndex]
    ensures w.scheduledMs.None? && !(0 <= w.dayIndex < |offsets|) ==> r == w.dayIndex
    ensures w.scheduledMs.Some? ==> r == (w.scheduledMs.value + DayMs / 2) / DayMs
  {
    match w.scheduledMs
    case Some(ms) =>
      RoundDaysInt(ms);
      RoundDays(ms)
    case None => if 0 <= w.dayIndex < |offsets| then offsets[w.dayIndex] else w.dayIndex
  }

  /** `workoutByOffset` after the `forEach`: a later workout at the same offset replaces an earlier one. */
  function OffsetMap(items: seq<WorkoutSummary>, offsets: seq<int>): (m: map<int, WorkoutSummary>)
    ensures forall d :: d in m <==> exists i :: 0 <= i < |items| && OffsetOf(items[i], offsets) == d
    ensures forall d :: d in m ==> m[d] in items && OffsetOf(m[d], offsets) == d
  {
    if items == [] then map[]
    else
      var init := items[..|items| - 1];
      var last := items[|items| - 1];
      assert forall i :: 0 <= i < |init| ==> init[i] == items[i];
      OffsetMap(init, offsets)[OffsetOf(last, offsets) := last]
  }

  /** The `forEach` that fills `workoutByOffset`. */
  method WorkoutByOffset(items: seq<WorkoutSummary>, offsets: seq<int>) returns (m: map<int, WorkoutSummary>)
    ensures m == OffsetMap(items, offsets)
  {
    m := map[];
    for i := 0 to |items|
      invariant m == OffsetMap(items[..i], offsets)
    {
      assert items[..i + 1][..i] == items[..i];
      m := m[OffsetOf(items[i], offsets) := items[i]];
    }
    assert items[..|items|] == items;
  }

  /** The seven day cells of a week: a workout where one is shown, a recovery activity elsewhere. */
  function DayCells(m: map<int, WorkoutSummary>): (r: seq<DayCell>)
    ensures |r| == 7
    ensures forall d :: 0 <= d < 7 ==> r[d].dayNumber == d + 1
    ensures forall d :: 0 <= d < 7 ==> (r[d].Train? <==> d in m)
    ensures forall d :: 0 <= d < 7 && d in m ==> r[d] == Train(d + 1, m[d])
    ensures forall d :: 0 <= d < 7 && d !in m ==> r[d] == Rest(d + 1, RecoveryOptions[RecoveryIndex(d)])
  {
    seq(7, d requires 0 <= d < 7 =>
      if d in m then Train(d + 1, m[d]) else Rest(d + 1, RecoveryOptions[RecoveryIndex(d)]))
  }

  // ---------------------------------------------------------------------------
  // Proofs
  // ---------------------------------------------------------------------------

  lemma WeekIncreasing()
    ensures StrictlyIncreasing(Week)
  {
  }

  /** The weekdays outside a list of days, ascending. */
  lemma RestShape(training: seq<int>)
    ensures StrictlyIncreasing(KeepOut(Week, training))
    ensures forall x :: x in KeepOut(Week, training) <==> 0 <= x <= 6 && x !in training
  {
    WeekIncreasing();
    KeepOutIncreasing(Week, training);
    forall x ensures x in Week <==> 0 <= x <= 6 {
      InWeek(x);
    }
  }

  /** One step of the grouping loop keeps its invariants. */
  lemma {:induction false} GroupStep(workouts: seq<WorkoutSummary>, i: int,
                  keys: seq<WeekKey>, groups: map<WeekKey, seq<WorkoutSummary>>,
                  keys': seq<WeekKey>, groups': map<WeekKey, seq<WorkoutSummary>>)
    requires 0 <= i < |workouts|
    requires keys == Keys(workouts[..i])
    requires forall k :: k in groups <==> k in keys
    requires forall k :: k in groups ==> groups[k] == OfWeek(workouts[..i], k)
    requires var key := KeyOf(workouts[i]);
             if key in groups then groups' == groups[key := groups[key] + [workouts[i]]] && keys' == keys
             else groups' == groups[key := [workouts[i]]] && keys' == keys + [key]
    ensures keys' == Keys(workouts[..i + 1])
    ensures forall k :: k in groups' <==> k in keys'
    ensures forall k :: k in groups' ==> groups'[k] == OfWeek(workouts[..i + 1], k)
  {
    var item := workouts[i];
    var key := KeyOf(item);
    KeysStep(workouts, i);
    OfWeekStep(workouts, i);
    if key !in groups {
      NoKeyNoWeek(workouts[..i], key);
    }
    forall k | k in groups'
      ensures groups'[k] == OfWeek(workouts[..i + 1], k)
    {
      if k == key {
        assert groups'[k] == (if key in groups then groups[key] else []) + [item];
      } else {
        assert groups'[k] == groups[k];
      }
    }
  }

  lemma KeysStep(workouts: seq<WorkoutSummary>, i: int)
    requires 0 <= i < |workouts|
    ensures var key := KeyOf(workouts[i]);
            Keys(workouts[..i + 1]) == if key in Keys(workouts[..i]) then Keys(workouts[..i]) else Keys(workouts[..i]) + [key]
  {
    assert workouts[..i + 1][..i] == workouts[..i];
  }

  lemma OfWeekStep(workouts: seq<WorkoutSummary>, i: int)
    requires 0 <= i < |workouts|
    ensures forall k :: OfWeek(workouts[..i + 1], k) ==
                        OfWeek(workouts[..i], k) + (if KeyOf(workouts[i]) == k then [workouts[i]] else [])
  {
    assert workouts[..i + 1][..i] == workouts[..i];
  }

  lemma {:induction false} NoKeyNoWeek(workouts: seq<WorkoutSummary>, key: WeekKey)
    requires forall w :: w in workouts ==> KeyOf(w) != key
    ensures OfWeek(workouts, key) == []
    decreases |workouts|
  {
    if workouts != [] {
      var init := workouts[..|workouts| - 1];
      assert forall w :: w in init ==> w in workouts;
      assert workouts[|workouts| - 1] in workouts;
      NoKeyNoWeek(init, key);
    }
  }

  /** Every key listed is the key of some workout. */
  lemma {:induction false} KeysFromWorkouts(workouts: seq<WorkoutSummary>, k: WeekKey)
    requires k in Keys(workouts)
    ensures exists w :: w in workouts && KeyOf(w) == k
    decreases |workouts|
  {
    var init := workouts[..|workouts| - 1];
    var last := workouts[|workouts| - 1];
    if k != KeyOf(last) {
      KeysFromWorkouts(init, k);
      var w :| w in init && KeyOf(w) == k;
      assert w in workouts;
    } else {
      assert last in workouts;
    }
  }

  /** Appending a workout only changes the list of its own week. */
  lemma OfWeekOthers(workouts: seq<WorkoutSummary>, key: WeekKey)
    requires workouts != [] && KeyOf(workouts[|workouts| - 1]) == key
    ensures OfWeek(workouts, key) == OfWeek(workouts[..|workouts| - 1], key) + [workouts[|workouts| - 1]]
    ensures forall k :: k != key ==> OfWeek(workouts, k) == OfWeek(workouts[..|workouts| - 1], k)
  {
  }

  /** The elements of a list without repetitions are as many as its entries. */
  lemma {:induction false} DistinctCard(t: seq<int>)
    requires Distinct(t)
    ensures |Elements(t)| == |t|
    decreases |t|
  {
    if t != [] {
      var rest := t[1..];
      assert Distinct(rest) by {
        forall i, j | 0 <= i < j < |rest| ensures rest[i] != rest[j] {
          assert rest[i] == t[i + 1] && rest[j] == t[j + 1];
        }
      }
      DistinctCard(rest);
      assert Elements(t) == {t[0]} + Elements(rest);
      assert t[0] !in rest by {
        forall k | 0 <= k < |rest| ensures rest[k] != t[0] {
          assert rest[k] == t[k + 1];
        }
      }
    }
  }

  /** Training days and rest days split the week: |rest| = 7 - clamp(daysPerWeek, 2, 6). */
  lemma RestDaysComplement(daysPerWeek: int, trainingDays: seq<int>)
    ensures |GetRestOffsets(daysPerWeek, trainingDays)| == 7 - ClampDays(daysPerWeek)
    ensures forall x :: 0 <= x <= 6 ==>
              (x in GetRestOffsets(daysPerWeek, trainingDays) <==> x !in NormalizeTrainingDays(daysPerWeek, Some(trainingDays)))
  {
    RestCount(NormalizeTrainingDays(daysPerWeek, Some(trainingDays)));
  }

  /** The weekdays outside `training` number 7 - |training| when its entries are distinct weekdays. */
  lemma RestCount(training: seq<int>)
    requires Distinct(training)
    requires forall i :: 0 <= i < |training| ==> 0 <= training[i] <= 6
    ensures |KeepOut(Week, training)| == 7 - |training|
  {
    var s := Elements(training);
    var kept := KeepIn(Week, s);
    KeepComplement(Week, training);
    WeekIncreasing();
    KeepInIncreasing(Week, s);
    forall x | x in s ensures 0 <= x <= 6 {
      var i :| 0 <= i < |training| && training[i] == x;
    }
    forall x ensures x in kept <==> x in s {
      InWeek(x);
    }
    AscendingWeekdays(kept, s);
    DistinctCard(training);
  }

  /** `getWeekdayNumber` is one-to-one on 0..6 and takes every value 1..7. */
  lemma WeekdayNumberBijective(a: int, b: int, n: int)
    requires 0 <= a <= 6 && 0 <= b <= 6
    ensures WeekdayNumber(a) == WeekdayNumber(b) ==> a == b
    ensures 1 <= n <= 7 ==> WeekdayNumber(n % 7) == n
  {
  }

  /** `toMonday` uses the same offset as the week start, and a Monday stays where it is. */
  lemma ToMondayIsWeekStart(day: int)
    requires 0 <= day <= 6
    ensures ToMondayOffset(day) == MondayOffset(day)
    ensures ToMondayOffset(WeekdayAfter(day, ToMondayOffset(day))) == 0
  {
  }

  /** `Math.round` of a whole number of milliseconds, in days. */
  lemma RoundDaysInt(ms: int)
    ensures RoundDays(ms) == (ms + DayMs / 2) / DayMs
  {
    var q := (ms + DayMs / 2) / DayMs;
    var m := (ms + DayMs / 2) % DayMs;
    assert ms + DayMs / 2 == DayMs * q + m && 0 <= m < DayMs;
    assert ms as real / DayMs as real + 0.5 == q as real + m as real / DayMs as real;
  }

  /** Only indices 1, 3 and 5 of the six recovery activities are ever shown. */
  lemma RecoveryIndicesShown(dayOffset: int)
    requires 0 <= dayOffset <= 6
    ensures RecoveryIndex(dayOffset) in {1, 3, 5}
  {
    assert RecoveryIndex(dayOffset) == if dayOffset <= 2 then 2 * dayOffset + 1
                                       else if dayOffset <= 5 then 2 * dayOffset - 5 else 1;
  }

  /** A later workout at the same offset is the one shown. */
  lemma {:induction false} OffsetMapLastWins(items: seq<WorkoutSummary>, offsets: seq<int>, i: int)
    requires 0 <= i < |items|
    requires forall j :: i < j < |items| ==> OffsetOf(items[j], offsets) != OffsetOf(items[i], offsets)
    ensures OffsetMap(items, offsets)[OffsetOf(items[i], offsets)] == items[i]
    decreases |items|
  {
    var n := |items| - 1;
    var init := items[..n];
    if i < n {
      assert OffsetOf(items[n], offsets) != OffsetOf(items[i], offsets);
      assert init[i] == items[i];
      forall j | i < j < n
        ensures OffsetOf(init[j], offsets) != OffsetOf(init[i], offsets)
      {
        assert init[j] == items[j];
      }
      OffsetMapLastWins(init, offsets, i);
    }
  }

  /**
   * A week as the planner stores it (day indices 0..n-1 in order, no dates)
   * shows a workout exactly on the training days and a recovery activity
   * exactly on the days `getRestOffsets` returns.
   */
  lemma PlannedWeekRestCells(daysPerWeek: int, trainingDays: seq<int>, items: seq<WorkoutSummary>)
    requires |items| == ClampDays(daysPerWeek)
    requires forall i :: 0 <= i < |items| ==> items[i].dayIndex == i && items[i].scheduledMs.None?
    ensures var offsets := GetOffsets(daysPerWeek, Some(trainingDays));
            var cells := DayCells(OffsetMap(items, offsets));
            forall d :: 0 <= d < 7 ==>
              (cells[d].Rest? <==> d in GetRestOffsets(daysPerWeek, trainingDays))
  {
    var offsets := GetOffsets(daysPerWeek, Some(trainingDays));
    OffsetsShown(items, offsets);
    RestDaysComplement(daysPerWeek, trainingDays);
  }

  /** Workouts stored with day indices 0..n-1 and no date are shown at exactly the n offsets. */
  lemma OffsetsShown(items: seq<WorkoutSummary>, offsets: seq<int>)
    requires |items| == |offsets|
    requires forall i :: 0 <= i < |items| ==> items[i].dayIndex == i && items[i].scheduledMs.None?
    ensures forall d :: d in OffsetMap(items, offsets) <==> d in offsets
  {
    var m := OffsetMap(items, offsets);
    forall d
      ensures d in m <==> d in offsets
    {
      if d in offsets {
        var i :| 0 <= i < |offsets| && offsets[i] == d;
        assert OffsetOf(items[i], offsets) == d;
      }
      if d in m {
        var i :| 0 <= i < |items| && OffsetOf(items[i], offsets) == d;
        assert d == offsets[i];
      }
    }
  }

  /** Every workout falls in exactly one week group, so the groups hold as many workouts as the list. */
  lemma {:induction false} GroupsPartition(workouts: seq<WorkoutSummary>, keys: seq<WeekKey>)
    requires Distinct(keys)
    requires forall w :: w in workouts ==> KeyOf(w) in keys
    ensures Total(workouts, keys) == |workouts|
    decreases |workouts|
  {
    if workouts == [] {
      TotalEmpty(keys);
    } else {
      var init := workouts[..|workouts| - 1];
      var last := workouts[|workouts| - 1];
      assert workouts == init + [last];
      GroupsPartition(init, keys);
      TotalSnoc(init, last, keys);
      CountDistinct(keys, KeyOf(last));
    }
  }

  /** The sum of the group sizes over `keys`. */
  function Total(workouts: seq<WorkoutSummary>, keys: seq<WeekKey>): nat
  {
    if keys == [] then 0 else |OfWeek(workouts, keys[0])| + Total(workouts, keys[1..])
  }

  /** How often `k` occurs in `keys`. */
  function Count(keys: seq<WeekKey>, k: WeekKey): nat
  {
    if keys == [] then 0 else (if keys[0] == k then 1 else 0) + Count(keys[1..], k)
  }

  lemma {:induction false} TotalEmpty(keys: seq<WeekKey>)
    ensures Total([], keys) == 0
    decreases |keys|
  {
    if keys != [] {
      TotalEmpty(keys[1..]);
    }
  }

  /** Appending a workout adds one to the group of each occurrence of its key. */
  lemma {:induction false} TotalSnoc(init: seq<WorkoutSummary>, last: WorkoutSummary, keys: seq<WeekKey>)
    ensures Total(init + [last], keys) == Total(init, keys) + Count(keys, KeyOf(last))
    decreases |keys|
  {
    if keys != [] {
      var w := init + [last];
      assert w[..|w| - 1] == init;
      TotalSnoc(init, last, keys[1..]);
    }
  }

  /** A key of a list without repetitions occurs in it once. */
  lemma {:induction false} CountDistinct(keys: seq<WeekKey>, k: WeekKey)
    requires Distinct(keys) && k in keys
    ensures Count(keys, k) == 1
    decreases |keys|
  {
    var rest := keys[1..];
    if keys[0] == k {
      assert k !in rest by {
        forall i | 0 <= i < |rest| ensures rest[i] != k {
          assert rest[i] == keys[i + 1];
        }
      }
      CountAbsent(rest, k);
    } else {
      assert k in rest;
      assert Distinct(rest) by {
        forall i, j | 0 <= i < j < |rest| ensures rest[i] != rest[j] {
          assert rest[i] == keys[i + 1] && rest[j] == keys[j + 1];
        }
      }
      CountDistinct(rest, k);
    }
  }

  /** A key absent from the list occurs in it zero times. */
  lemma {:induction false} CountAbsent(keys: seq<WeekKey>, k: WeekKey)
    requires k !in keys
    ensures Count(keys, k) == 0
    decreases |keys|
  {
    if keys != [] {
      CountAbsent(keys[1..], k);
    }
  }
}
