/**
 * The workout of the day (src/app/workouts/today/page.tsx) without its
 * rendering and network calls: which stored workout is shown next, the
 * per-item set counter and rest timer, the `mm:ss` rest display, the gate
 * before a session can be registered, and the set log that is sent when it is.
 */
module TodayWorkout {
  import opened Optional
  import opened Strings
  import opened Sorting
  import opened Schedule

  /** The fields of `WorkoutItem` the page computes with. */
  datatype WorkoutItem = WorkoutItem(id: string, sets: int, reps: string, restSeconds: int)

  /** The fields of `Workout` the page computes with; optional fields are `None` when absent. */
  datatype Workout = Workout(
    id: string,
    weekIndex: Option<int>,
    dayIndex: Option<int>,
    completed: Option<bool>,
    items: seq<WorkoutItem>)

  /** One entry of the `sets` list posted on registration. */
  datatype SetLog = SetLog(workoutItemId: string, setIndex: int, reps: int, rpe: int, pain: int)

  // ---------------------------------------------------------------------------
  // Choosing the workout of the day
  // ---------------------------------------------------------------------------

  /** `item.weekIndex ?? 0`. */
  function WeekOf(w: Workout): int
  {
    w.weekIndex.GetOr(0)
  }

  /** `a.dayIndex ?? 0`. */
  function DayOf(w: Workout): int
  {
    w.dayIndex.GetOr(0)
  }

  /** `!workout.completed`: a missing flag counts as not completed. */
  predicate IsPending(w: Workout)
  {
    !w.completed.GetOr(false)
  }

  /** The week keys of the workouts, in list order. */
  function WeekIndices(ws: seq<Workout>): (r: seq<int>)
    ensures |r| == |ws|
    ensures forall i :: 0 <= i < |ws| ==> r[i] == WeekOf(ws[i])
  {
    if ws == [] then [] else [WeekOf(ws[0])] + WeekIndices(ws[1..])
  }

  /** `Object.keys(grouped).map(Number).sort((a, b) => a - b)`. */
  function WeekKeys(ws: seq<Workout>): seq<int>
  {
    SortInts(Dedupe(WeekIndices(ws)))
  }

  /** `grouped[key]`: the workouts of week `key`, in list order. */
  function Grouped(ws: seq<Workout>, key: int): (r: seq<Workout>)
    ensures forall w :: w in r <==> w in ws && WeekOf(w) == key
  {
    if ws == [] then [] else (if WeekOf(ws[0]) == key then [ws[0]] else []) + Grouped(ws[1..], key)
  }

  /** Week `key` holds a workout that is not completed. */
  predicate HasPending(ws: seq<Workout>, key: int)
  {
    exists w :: w in ws && WeekOf(w) == key && IsPending(w)
  }

  /** `weekKeys.find((key) => grouped[key].some((workout) => !workout.completed))`. */
  function FindPendingWeek(keys: seq<int>, ws: seq<Workout>): (r: Option<int>)
    ensures r.None? <==> forall i :: 0 <= i < |keys| ==> !HasPending(ws, keys[i])
    ensures r.Some? ==> exists i :: 0 <= i < |keys| && keys[i] == r.value && HasPending(ws, keys[i]) &&
                                    forall j :: 0 <= j < i ==> !HasPending(ws, keys[j])
  {
    if keys == [] then None
    else if HasPending(ws, keys[0]) then Some(keys[0])
    else
      var r := FindPendingWeek(keys[1..], ws);
      assert forall i :: 1 <= i < |keys| ==> keys[i] == keys[1..][i - 1];
      assert r.Some? ==> exists i :: 0 <= i < |keys| && keys[i] == r.value && HasPending(ws, keys[i]) &&
                                     forall j :: 0 <= j < i ==> !HasPending(ws, keys[j]) by {
        if r.Some? {
          var i :| 0 <= i < |keys[1..]| && keys[1..][i] == r.value && HasPending(ws, keys[1..][i]) &&
                   forall j :: 0 <= j < i ==> !HasPending(ws, keys[1..][j]);
          assert keys[i + 1] == r.value;
        }
      }
      r
  }

  /** `activeWeekKey`: the first week with a pending workout, else the last week. */
  function ActiveWeekKey(ws: seq<Workout>): int
    requires ws != []
  {
    ActiveKey(WeekKeys(ws), ws)
  }

  /** The choice of `activeWeekKey` among the given week keys. */
  function ActiveKey(keys: seq<int>, ws: seq<Workout>): int
    requires keys != []
  {
    match FindPendingWeek(keys, ws)
    case Some(k) => k
    case None => keys[|keys| - 1]
  }

  /** `ordered.filter((workout) => !workout.completed)`. */
  function Pending(ws: seq<Workout>): (r: seq<Workout>)
    ensures forall w :: w in r <==> w in ws && IsPending(w)
  {
    if ws == [] then [] else (if IsPending(ws[0]) then [ws[0]] else []) + Pending(ws[1..])
  }

  /** `nextPending`: the first pending workout of the active week by day, else its first workout. */
  function NextWorkout(ws: seq<Workout>): Option<Workout>
  {
    if ws == [] then None
    else
      var grouped := Grouped(ws, ActiveWeekKey(ws));
      FirstOfWeek(if grouped != [] then grouped else ws)
  }

  /** `ordered`: one week's workouts by day index. */
  function FirstOfWeek(week: seq<Workout>): Option<Workout>
  {
    FirstPendingOr(SortBy(week, DayOf))
  }

  /** `pending` over the ordered week and the choice between `pending[0]` and `ordered[0]`. */
  function FirstPendingOr(ordered: seq<Workout>): Option<Workout>
  {
    var pending := Pending(ordered);
    if pending != [] then Some(pending[0])
    else if ordered != [] then Some(ordered[0])
    else None
  }

  /** The weekday offset of the next workout: `offsets[Math.min(dayIndex ?? 0, offsets.length - 1)] ?? 0`. */
  function NextOffset(next: Workout, daysPerWeek: int, trainingDays: Option<seq<int>>): (r: int)
    ensures DayOf(next) >= 0 ==> r in NormalizeTrainingDays(daysPerWeek, trainingDays)
    ensures DayOf(next) < 0 ==> r == 0
  {
    ScheduledOffset(DayOf(next), daysPerWeek, trainingDays)
  }

  // ---------------------------------------------------------------------------
  // Set counter and rest timer
  // ---------------------------------------------------------------------------

  /** `record[key] ?? 0`. */
  function Get(m: map<string, int>, key: string): int
  {
    if key in m then m[key] else 0
  }

  /** `Math.min(item.sets, (prev[item.id] ?? 0) + 1)`. */
  function NextCount(completed: map<string, int>, item: WorkoutItem): (r: int)
    ensures r <= item.sets
    ensures Get(completed, item.id) < item.sets ==> r == Get(completed, item.id) + 1
    ensures Get(completed, item.id) >= item.sets ==> r == item.sets
  {
    var count := Get(completed, item.id) + 1;
    if item.sets < count then item.sets else count
  }

  /** The rest timer after a completed set: none once every set is done. */
  function RestAfter(count: int, item: WorkoutItem): (r: int)
    ensures count >= item.sets ==> r == 0
    ensures count < item.sets ==> r == item.restSeconds
  {
    if count >= item.sets then 0 else item.restSeconds
  }

  /** One tick of one timer: `Math.max(0, value - 1)`. */
  function TickValue(v: int): (r: int)
    ensures r >= 0 && (v > 0 ==> r == v - 1) && (v <= 0 ==> r == 0)
  {
    if v - 1 > 0 then v - 1 else 0
  }

  /** Every timer after one tick. */
  function TickAll<K>(m: map<K, int>): (r: map<K, int>)
    ensures r.Keys == m.Keys
    ensures forall k :: k in r ==> r[k] == TickValue(m[k])
  {
    TickOn(m, m.Keys)
  }

  /** The timers in `keys` after one tick. */
  function TickOn<K>(m: map<K, int>, keys: set<K>): (r: map<K, int>)
    requires keys <= m.Keys
    ensures r.Keys == keys
    ensures forall k :: k in r ==> r[k] == TickValue(m[k])
  {
    map k | k in keys :: TickValue(m[k])
  }

  /** The timers whose beep fires on this tick: from positive to 0. */
  function Beeps<K>(m: map<K, int>): set<K>
  {
    BeepsOn(m, m.Keys)
  }

  /** The timers in `keys` that go from positive to 0. */
  function BeepsOn<K>(m: map<K, int>, keys: set<K>): set<K>
    requires keys <= m.Keys
  {
    set k | k in keys && m[k] > 0 && TickValue(m[k]) == 0
  }

  /** The `setRestRemaining` updater of the interval: the loop over the entries with its `changed` flag. */
  method TickTimers<K>(prev: map<K, int>) returns (result: map<K, int>, beeps: set<K>)
    ensures result == TickAll(prev)
    ensures beeps == Beeps(prev)
  {
    var changed := false;
    var next: map<K, int> := map[];
    beeps := {};
    var todo := prev.Keys;
    ghost var done: set<K> := {};
    while todo != {}
      invariant done + todo == prev.Keys && done !! todo
      invariant next == TickOn(prev, done)
      invariant beeps == BeepsOn(prev, done)
      invariant !changed ==> forall k :: k in next ==> next[k] == prev[k]
      decreases todo
    {
      var key :| key in todo;
      var value := prev[key];
      var updated := TickValue(value);
      TickStep(prev, done, key);
      next := next[key := updated];
      if value > 0 && updated == 0 {
        beeps := beeps + {key};
      }
      if updated != value {
        changed := true;
      }
      todo := todo - {key};
      done := done + {key};
    }
    if changed {
      result := next;
    } else {
      SameTimers(next, prev);
      result := prev;
    }
  }

  lemma SameTimers<K>(a: map<K, int>, b: map<K, int>)
    requires a.Keys == b.Keys && forall k :: k in a ==> a[k] == b[k]
    ensures a == b
  {
  }

  /** Ticking one more timer extends the ticked map and the beep set by that timer. */
  lemma TickStep<K>(m: map<K, int>, done: set<K>, key: K)
    requires done <= m.Keys && key in m && key !in done
    ensures TickOn(m, done + {key}) == TickOn(m, done)[key := TickValue(m[key])]
    ensures BeepsOn(m, done + {key}) ==
            BeepsOn(m, done) + (if m[key] > 0 && TickValue(m[key]) == 0 then {key} else {})
  {
  }

  /** The state the page keeps per item: sets completed and seconds of rest left. */
  class Session {
    var completedSets: map<string, int>
    var restRemaining: map<string, int>

    constructor()
      ensures completedSets == map[] && restRemaining == map[]
    {
      completedSets := map[];
      restRemaining := map[];
    }

    /** The "Completar serie" handler. */
    method CompleteSet(item: WorkoutItem)
      modifies this
      ensures completedSets == old(completedSets)[item.id := NextCount(old(completedSets), item)]
      ensures restRemaining == old(restRemaining)[item.id := RestAfter(NextCount(old(completedSets), item), item)]
    {
      var nextCount := NextCount(completedSets, item);
      restRemaining := restRemaining[item.id := if nextCount >= item.sets then 0 else item.restSeconds];
      completedSets := completedSets[item.id := nextCount];
    }

    /** One interval tick; returns the timers that beep. */
    method Tick() returns (beeps: set<string>)
      modifies this
      ensures restRemaining == TickAll(old(restRemaining))
      ensures beeps == Beeps(old(restRemaining))
      ensures completedSets == old(completedSets)
    {
      var next;
      next, beeps := TickTimers(restRemaining);
      restRemaining := next;
    }
  }

  // ---------------------------------------------------------------------------
  // Registering the session
  // ---------------------------------------------------------------------------

  /** `workout.items.every((item) => (completedSets[item.id] ?? 0) >= item.sets)`. */
  function AllDone(items: seq<WorkoutItem>, completed: map<string, int>): (r: bool)
    ensures r <==> forall i :: 0 <= i < |items| ==> Get(completed, items[i].id) >= items[i].sets
  {
    if items == [] then true
    else
      assert forall i :: 1 <= i < |items| ==> items[i] == items[1..][i - 1];
      Get(completed, items[0].id) >= items[0].sets && AllDone(items[1..], completed)
  }

  /**
   * `Number(s) || 6` for the text before the first '-': a numeral (blanks
   * around it allowed) with a value other than 0 gives its value, anything
   * else gives 6.
   */
  function LoggedReps(reps: string): (r: int)
    ensures r >= 1
  {
    var text := Trim(Split(reps, '-')[0]);
    if text != [] && AllDigits(text) && ParseDigits(text) != 0 then ParseDigits(text) else 6
  }

  /** `Array.from({ length: item.sets }).map(...)`: one entry per set, numbered from 1. */
  function ItemLog(item: WorkoutItem): (r: seq<SetLog>)
    ensures |r| == if item.sets > 0 then item.sets else 0
    ensures forall k :: 0 <= k < |r| ==> r[k] == SetLog(item.id, k + 1, LoggedReps(item.reps), 7, 0)
  {
    var n := if item.sets > 0 then item.sets else 0;
    seq(n, k requires 0 <= k < n => SetLog(item.id, k + 1, LoggedReps(item.reps), 7, 0))
  }

  /** `workout.items.flatMap(...)`. */
  function SessionLog(items: seq<WorkoutItem>): seq<SetLog>
  {
    if items == [] then [] else ItemLog(items[0]) + SessionLog(items[1..])
  }

  /** Σ max(0, sets) over the items. */
  function TotalSets(items: seq<WorkoutItem>): nat
  {
    if items == [] then 0 else (if items[0].sets > 0 then items[0].sets else 0) + TotalSets(items[1..])
  }

  /** `formatRest`: minutes and seconds, each padded to two digits. */
  function FormatRest(seconds: nat): string
  {
    PadStart(NatToString(seconds / 60), 2, '0') + ":" + PadStart(NatToString(seconds % 60), 2, '0')
  }

  // ---------------------------------------------------------------------------
  // Proofs
  // ---------------------------------------------------------------------------

  /** Deduplicating and sorting gives the distinct values, ascending. */
  lemma SortedDistinct(s: seq<int>)
    ensures StrictlyIncreasing(SortInts(Dedupe(s)))
    ensures forall k :: k in SortInts(Dedupe(s)) <==> k in s
  {
    var unique := Dedupe(s);
    var keys := SortInts(unique);
    PermutationKeepsDistinct(unique, keys);
    forall k ensures k in keys <==> k in unique {
      assert k in keys <==> k in multiset(keys);
      assert k in unique <==> k in multiset(unique);
    }
  }

  /** The week keys are the distinct week indices, ascending. */
  lemma WeekKeysShape(ws: seq<Workout>)
    ensures StrictlyIncreasing(WeekKeys(ws))
    ensures forall i :: 0 <= i < |ws| ==> WeekOf(ws[i]) in WeekKeys(ws)
    ensures forall j :: 0 <= j < |WeekKeys(ws)| ==> exists i :: 0 <= i < |ws| && WeekOf(ws[i]) == WeekKeys(ws)[j]
  {
    var indices := WeekIndices(ws);
    SortedDistinct(indices);
    forall i | 0 <= i < |ws| ensures WeekOf(ws[i]) in WeekKeys(ws) {
      assert indices[i] == WeekOf(ws[i]);
    }
    forall j | 0 <= j < |WeekKeys(ws)| ensures exists i :: 0 <= i < |ws| && WeekOf(ws[i]) == WeekKeys(ws)[j] {
      assert WeekKeys(ws)[j] in indices;
      var i :| 0 <= i < |indices| && indices[i] == WeekKeys(ws)[j];
    }
  }

  /** Week indices of the workouts that are not completed, none of them below `bound`. */
  predicate PendingWeeksFrom(ws: seq<Workout>, bound: int)
  {
    forall w :: w in ws && IsPending(w) ==> bound <= WeekOf(w)
  }

  /**
   * The active week is the smallest week holding a workout that is not
   * completed; when every workout is completed it is the largest week.
   */
  lemma ActiveWeekChoice(ws: seq<Workout>)
    requires ws != []
    ensures exists w :: w in ws && WeekOf(w) == ActiveWeekKey(ws)
    ensures (exists w :: w in ws && IsPending(w)) ==>
              HasPending(ws, ActiveWeekKey(ws)) && PendingWeeksFrom(ws, ActiveWeekKey(ws))
    ensures (forall w :: w in ws ==> !IsPending(w)) ==> forall w :: w in ws ==> WeekOf(w) <= ActiveWeekKey(ws)
  {
    WeekKeysShape(ws);
    assert WeekOf(ws[0]) in WeekKeys(ws);
    ActiveKeyChoice(ws, WeekKeys(ws));
  }

  /** `ActiveWeekChoice` for any ascending list of exactly the week keys of `ws`. */
  lemma ActiveKeyChoice(ws: seq<Workout>, keys: seq<int>)
    requires StrictlyIncreasing(keys) && keys != []
    requires forall i :: 0 <= i < |ws| ==> WeekOf(ws[i]) in keys
    requires forall j :: 0 <= j < |keys| ==> exists i :: 0 <= i < |ws| && WeekOf(ws[i]) == keys[j]
    ensures exists w :: w in ws && WeekOf(w) == ActiveKey(keys, ws)
    ensures (exists w :: w in ws && IsPending(w)) ==>
              HasPending(ws, ActiveKey(keys, ws)) && PendingWeeksFrom(ws, ActiveKey(keys, ws))
    ensures (forall w :: w in ws ==> !IsPending(w)) ==> forall w :: w in ws ==> WeekOf(w) <= ActiveKey(keys, ws)
  {
    match FindPendingWeek(keys, ws)
    case Some(k) =>
      FirstPendingWeek(ws, keys, k);
    case None =>
      NoPendingWeek(ws, keys);
  }

  lemma FirstPendingWeek(ws: seq<Workout>, keys: seq<int>, k: int)
    requires StrictlyIncreasing(keys)
    requires forall i :: 0 <= i < |ws| ==> WeekOf(ws[i]) in keys
    requires FindPendingWeek(keys, ws) == Some(k)
    ensures HasPending(ws, k) && PendingWeeksFrom(ws, k)
  {
    var i :| 0 <= i < |keys| && keys[i] == k && HasPending(ws, keys[i]) &&
             forall j :: 0 <= j < i ==> !HasPending(ws, keys[j]);
    forall w | w in ws && IsPending(w) ensures k <= WeekOf(w) {
      var n :| 0 <= n < |ws| && ws[n] == w;
      var j :| 0 <= j < |keys| && keys[j] == WeekOf(ws[n]);
      assert HasPending(ws, keys[j]);
      assert i <= j;
    }
  }

  lemma NoPendingWeek(ws: seq<Workout>, keys: seq<int>)
    requires StrictlyIncreasing(keys) && keys != []
    requires forall i :: 0 <= i < |ws| ==> WeekOf(ws[i]) in keys
    requires forall j :: 0 <= j < |keys| ==> exists i :: 0 <= i < |ws| && WeekOf(ws[i]) == keys[j]
    requires FindPendingWeek(keys, ws) == None
    ensures forall w :: w in ws ==> WeekOf(w) <= keys[|keys| - 1] && !IsPending(w)
    ensures exists w :: w in ws && WeekOf(w) == keys[|keys| - 1]
  {
    forall w | w in ws ensures WeekOf(w) <= keys[|keys| - 1] && !IsPending(w) {
      var n :| 0 <= n < |ws| && ws[n] == w;
      var j :| 0 <= j < |keys| && keys[j] == WeekOf(ws[n]);
      assert !HasPending(ws, keys[j]);
    }
    var i :| 0 <= i < |ws| && WeekOf(ws[i]) == keys[|keys| - 1];
    assert ws[i] in ws;
  }

  /** The first element of a sorted list has the smallest key. */
  lemma SortedFirstSmallest(s: seq<Workout>, x: Workout)
    requires SortedBy(s, DayOf) && x in s
    ensures DayOf(s[0]) <= DayOf(x)
  {
    var i :| 0 <= i < |s| && s[i] == x;
    if i > 0 {
      assert DayOf(s[0]) <= DayOf(s[i]);
    }
  }

  /** Filtering keeps a list sorted. */
  lemma {:induction false} PendingSorted(s: seq<Workout>)
    requires SortedBy(s, DayOf)
    ensures SortedBy(Pending(s), DayOf)
    decreases |s|
  {
    if s != [] {
      var rest := s[1..];
      assert SortedBy(rest, DayOf) by {
        forall i, j | 0 <= i < j < |rest| ensures DayOf(rest[i]) <= DayOf(rest[j]) {
          assert rest[i] == s[i + 1] && rest[j] == s[j + 1];
        }
      }
      PendingSorted(rest);
      forall w | w in Pending(rest) ensures DayOf(s[0]) <= DayOf(w) {
        SortedFirstSmallest(s, w);
      }
    }
  }

  /**
   * Within one week: a workout of the week is shown; if some workout of the
   * week is pending, the pending one with the smallest day index, otherwise
   * one with the smallest day index.
   */
  lemma FirstOfWeekChoice(week: seq<Workout>)
    ensures FirstOfWeek(week).Some? <==> week != []
    ensures FirstOfWeek(week).Some? ==> FirstOfWeek(week).value in week
    ensures (exists w :: w in week && IsPending(w)) ==>
              var n := FirstOfWeek(week).value;
              IsPending(n) && forall w :: w in week && IsPending(w) ==> DayOf(n) <= DayOf(w)
    ensures week != [] && (forall w :: w in week ==> !IsPending(w)) ==>
              var n := FirstOfWeek(week).value;
              forall w :: w in week ==> DayOf(n) <= DayOf(w)
  {
    var ordered := SortBy(week, DayOf);
    forall w ensures w in ordered <==> w in week {
      assert w in ordered <==> w in multiset(ordered);
      assert w in week <==> w in multiset(week);
    }
    FirstPendingOrChoice(ordered);
  }

  /** `FirstOfWeekChoice` for the ordered list itself. */
  lemma FirstPendingOrChoice(ordered: seq<Workout>)
    requires SortedBy(ordered, DayOf)
    ensures FirstPendingOr(ordered).Some? <==> ordered != []
    ensures FirstPendingOr(ordered).Some? ==> FirstPendingOr(ordered).value in ordered
    ensures (exists w :: w in ordered && IsPending(w)) ==>
              var n := FirstPendingOr(ordered).value;
              IsPending(n) && forall w :: w in ordered && IsPending(w) ==> DayOf(n) <= DayOf(w)
    ensures ordered != [] && (forall w :: w in ordered ==> !IsPending(w)) ==>
              var n := FirstPendingOr(ordered).value;
              forall w :: w in ordered ==> DayOf(n) <= DayOf(w)
  {
    var pending := Pending(ordered);
    if pending != [] {
      assert pending[0] in pending;
      FirstPendingSmallest(ordered);
    } else if ordered != [] {
      assert ordered[0] in ordered;
      forall w | w in ordered ensures DayOf(ordered[0]) <= DayOf(w) {
        SortedFirstSmallest(ordered, w);
      }
    }
  }

  /** The first pending workout of an ordered list has the smallest day index among the pending ones. */
  lemma FirstPendingSmallest(ordered: seq<Workout>)
    requires SortedBy(ordered, DayOf) && Pending(ordered) != []
    ensures forall w :: w in ordered && IsPending(w) ==> DayOf(Pending(ordered)[0]) <= DayOf(w)
  {
    var pending := Pending(ordered);
    PendingSorted(ordered);
    forall w | w in ordered && IsPending(w) ensures DayOf(pending[0]) <= DayOf(w) {
      SortedFirstSmallest(pending, w);
    }
  }

  /**
   * The workout shown next is a stored workout. When some workout is not
   * completed, it is a pending one of the smallest week with pending
   * workouts, with the smallest day index among that week's pending ones.
   * Otherwise it is a workout of the largest week with the smallest day index
   * of that week.
   */
  lemma NextWorkoutChoice(ws: seq<Workout>)
    ensures NextWorkout(ws).Some? <==> ws != []
    ensures NextWorkout(ws).Some? ==> NextWorkout(ws).value in ws
    ensures (exists w :: w in ws && IsPending(w)) ==>
              var n := NextWorkout(ws).value;
              && IsPending(n) && PendingWeeksFrom(ws, WeekOf(n))
              && forall w :: w in ws && IsPending(w) && WeekOf(w) == WeekOf(n) ==> DayOf(n) <= DayOf(w)
    ensures ws != [] && (forall w :: w in ws ==> !IsPending(w)) ==>
              var n := NextWorkout(ws).value;
              && (forall w :: w in ws ==> WeekOf(w) <= WeekOf(n))
              && forall w :: w in ws && WeekOf(w) == WeekOf(n) ==> DayOf(n) <= DayOf(w)
  {
    if ws != [] {
      ActiveWeekChoice(ws);
      var active := ActiveWeekKey(ws);
      var grouped := Grouped(ws, active);
      var w0 :| w0 in ws && WeekOf(w0) == active;
      assert w0 in grouped;
      FirstOfWeekChoice(grouped);
      if exists w :: w in ws && IsPending(w) {
        var w :| w in ws && WeekOf(w) == active && IsPending(w);
        assert w in grouped;
      }
    }
  }

  /** A tick ends every timer's beep-worthy second: the beeps are exactly the timers at 1. */
  lemma BeepsAtOne(m: map<string, int>)
    ensures forall k :: k in Beeps(m) <==> k in m && m[k] == 1
  {
  }

  /** `n` ticks. */
  function TickTimes(m: map<string, int>, n: nat): map<string, int>
  {
    if n == 0 then m else TickAll(TickTimes(m, n - 1))
  }

  /** After `n` ticks a timer shows max(0, v - n). */
  lemma {:induction false} TickTimesValue(m: map<string, int>, n: nat)
    ensures TickTimes(m, n).Keys == m.Keys
    ensures forall k :: k in m ==> TickTimes(m, n)[k] == if n > 0 && m[k] - n < 0 then 0 else if n == 0 then m[k] else m[k] - n
  {
    if n > 0 {
      TickTimesValue(m, n - 1);
    }
  }

  /** A tick changes nothing exactly when every timer is at 0 (values are never negative on the page). */
  lemma TickFixedPoint(m: map<string, int>)
    requires forall k :: k in m ==> m[k] >= 0
    ensures TickAll(m) == m <==> forall k :: k in m ==> m[k] == 0
  {
    if TickAll(m) == m {
      forall k | k in m ensures m[k] == 0 {
        assert TickAll(m)[k] == m[k];
      }
    }
  }

  /** `n` presses of the button of `item`. */
  function Presses(completed: map<string, int>, item: WorkoutItem, n: nat): map<string, int>
  {
    if n == 0 then completed
    else
      var prev := Presses(completed, item, n - 1);
      prev[item.id := NextCount(prev, item)]
  }

  /** After `n >= 1` presses the count is min(sets, count + n); other items keep theirs. */
  lemma {:induction false} PressesCount(completed: map<string, int>, item: WorkoutItem, n: nat)
    requires n >= 1
    ensures var c := Get(completed, item.id) + n;
            Get(Presses(completed, item, n), item.id) == if item.sets < c then item.sets else c
    ensures forall id :: id != item.id ==> Get(Presses(completed, item, n), id) == Get(completed, id)
  {
    if n > 1 {
      PressesCount(completed, item, n - 1);
    }
  }

  /** From no completed sets, `sets` presses complete the item, and never more than `sets` are counted. */
  lemma PressesComplete(item: WorkoutItem, n: nat)
    requires item.sets >= 1 && n >= item.sets
    ensures Get(Presses(map[], item, n), item.id) == item.sets
    ensures AllDone([item], Presses(map[], item, n))
  {
    PressesCount(map[], item, n);
  }

  /** The log has one entry per set of every item: Σ max(0, sets). */
  lemma {:induction false} SessionLogSize(items: seq<WorkoutItem>)
    ensures |SessionLog(items)| == TotalSets(items)
    decreases |items|
  {
    if items != [] {
      SessionLogSize(items[1..]);
    }
  }

  /** The log entries are exactly the sets 1..sets of each item, with rpe 7 and pain 0. */
  lemma {:induction false} SessionLogEntries(items: seq<WorkoutItem>, e: SetLog)
    ensures e in SessionLog(items) <==>
            exists i :: 0 <= i < |items| && e.workoutItemId == items[i].id && 1 <= e.setIndex <= items[i].sets &&
                        e.reps == LoggedReps(items[i].reps) && e.rpe == 7 && e.pain == 0
    decreases |items|
  {
    if items != [] {
      SessionLogEntries(items[1..], e);
      var head := ItemLog(items[0]);
      assert forall i :: 1 <= i < |items| ==> items[1..][i - 1] == items[i];
      if e.workoutItemId == items[0].id && 1 <= e.setIndex <= items[0].sets &&
         e.reps == LoggedReps(items[0].reps) && e.rpe == 7 && e.pain == 0 {
        assert head[e.setIndex - 1] == e;
      }
    }
  }

  /** A rep range "a-b" logs a, or 6 when a is 0. */
  lemma LoggedRange(a: nat, rest: string)
    ensures LoggedReps(NatToString(a) + "-" + rest) == if a == 0 then 6 else a
  {
    var num := NatToString(a);
    assert '-' !in num by {
      forall i | 0 <= i < |num| ensures num[i] != '-' {
        assert IsDigit(num[i]);
      }
    }
    SplitAround(num, rest, '-');
    SplitWithout(num, '-');
    assert num + "-" + rest == num + ['-'] + rest;
    DigitsTrimmed(num);
    ParsePrinted(a);
  }

  /** A non-empty numeral has no blanks to trim. */
  lemma DigitsTrimmed(s: string)
    requires |s| >= 1 && AllDigits(s)
    ensures Trim(s) == s
  {
    assert !IsWhitespace(s[0]) && !IsWhitespace(s[|s| - 1]);
    TrimmedFixed(s);
  }

  /** Padding a numeral with zeros keeps it a numeral of the same value. */
  lemma {:induction false} PadZeroParse(s: string, width: nat)
    requires AllDigits(s)
    ensures AllDigits(PadStart(s, width, '0'))
    ensures ParseDigits(PadStart(s, width, '0')) == ParseDigits(s)
    decreases width - |s|
  {
    if |s| < width {
      ParseLeadingZero(s);
      PadZeroParse("0" + s, width);
    }
  }

  /**
   * The display reads back as `seconds`: after the last ':' two digits
   * holding the seconds, before it the minutes, at least two digits.
   */
  predicate ReadsBack(r: string, seconds: nat)
  {
    var k := |r| - 3;
    && 2 <= k && r[k] == ':'
    && AllDigits(r[..k]) && AllDigits(r[k + 1..])
    && 60 * ParseDigits(r[..k]) + ParseDigits(r[k + 1..]) == seconds
  }

  /** `formatRest` reads back. */
  lemma FormatRestParses(seconds: nat)
    ensures ReadsBack(FormatRest(seconds), seconds)
  {
    var m := seconds / 60;
    var sec := seconds % 60;
    var left := PadStart(NatToString(m), 2, '0');
    var right := PadStart(NatToString(sec), 2, '0');
    PaddedNumeral(m);
    PaddedNumeral(sec);
    ColonJoin(left, right, m, sec);
  }

  /** Two numerals joined around ':', the right one two characters long, read back. */
  lemma ColonJoin(left: string, right: string, m: nat, sec: nat)
    requires AllDigits(left) && AllDigits(right) && |left| >= 2 && |right| == 2
    requires ParseDigits(left) == m && ParseDigits(right) == sec
    ensures ReadsBack(left + ":" + right, 60 * m + sec)
  {
    var r := left + ":" + right;
    assert r[..|left|] == left;
    assert r[|left| + 1..] == right;
  }

  /** A number padded to two digits: a numeral of the same value, exactly two long below 100. */
  lemma PaddedNumeral(n: nat)
    ensures var p := PadStart(NatToString(n), 2, '0');
            && |p| >= 2 && AllDigits(p) && ParseDigits(p) == n
            && (n < 100 ==> |p| == 2)
  {
    PadZeroParse(NatToString(n), 2);
    ParsePrinted(n);
    if n < 100 {
      TwoDigits(n);
    }
  }

  lemma TwoDigits(n: nat)
    requires n < 100
    ensures |NatToString(n)| <= 2
  {
    if n >= 10 {
      assert NatToString(n) == NatToString(n / 10) + [DigitChar(n % 10)];
    }
  }

  /** Below 100 minutes the display is exactly `mm:ss`. */
  lemma FormatRestWidth(seconds: nat)
    requires seconds < 6000
    ensures |FormatRest(seconds)| == 5
  {
    PaddedNumeral(seconds / 60);
    PaddedNumeral(seconds % 60);
  }
}
