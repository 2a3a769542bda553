/**
 * Training-day normalisation and weekday offsets (src/lib/schedule.ts).
 * Weekday offsets count from Monday: 0 = Monday ... 6 = Sunday.
 * `Date` objects are reduced to the integers the functions compute with.
 */
module Schedule {
  import opened Optional
  import opened Sorting

  /** `Array.from({ length: n }, (_, index) => index)`. */
  function Indices(n: nat): (r: seq<int>)
    ensures |r| == n
    ensures forall i :: 0 <= i < n ==> r[i] == i
  {
    if n == 0 then [] else Indices(n - 1) + [n - 1]
  }

  /** The seven weekday offsets. */
  const Week: seq<int> := Indices(7)

  /** `Math.min(Math.max(daysPerWeek, 2), 6)`. */
  function ClampDays(daysPerWeek: int): (r: int)
    ensures 2 <= r <= 6
    ensures 2 <= daysPerWeek <= 6 ==> r == daysPerWeek
    ensures daysPerWeek < 2 ==> r == 2
    ensures daysPerWeek > 6 ==> r == 6
  {
    var atLeastTwo := if daysPerWeek > 2 then daysPerWeek else 2;
    if atLeastTwo < 6 then atLeastTwo else 6
  }

  /** `days.filter((day) => day >= 0 && day <= 6)`. */
  function InRange(days: seq<int>): (r: seq<int>)
    ensures forall x :: x in r <==> x in days && 0 <= x <= 6
  {
    if days == [] then []
    else (if 0 <= days[0] <= 6 then [days[0]] else []) + InRange(days[1..])
  }

  /** `Array.from(new Set(s))`: first occurrences, in order. */
  function Dedupe(s: seq<int>): (r: seq<int>)
    ensures Distinct(r)
    ensures forall x :: x in r <==> x in s
  {
    if s == [] then []
    else
      var init := s[..|s| - 1];
      var last := s[|s| - 1];
      assert s == init + [last];
      var r := Dedupe(init);
      if last in r then r else r + [last]
  }

  /** `s.filter((day) => keep.has(day))`. */
  function KeepIn(s: seq<int>, keep: set<int>): (r: seq<int>)
    ensures forall x :: x in r <==> x in s && x in keep
    ensures |r| <= |s|
  {
    if s == [] then []
    else (if s[0] in keep then [s[0]] else []) + KeepIn(s[1..], keep)
  }

  /** `s.filter((day) => !used.includes(day))`. */
  function KeepOut(s: seq<int>, used: seq<int>): (r: seq<int>)
    ensures forall x :: x in r <==> x in s && x !in used
    ensures |r| <= |s|
  {
    if s == [] then []
    else (if s[0] !in used then [s[0]] else []) + KeepOut(s[1..], used)
  }

  /** The elements of a list, as a set. */
  function Elements(u: seq<int>): set<int>
  {
    set x | x in u
  }

  /** The valid weekdays among the inputs (the Set the source builds). */
  function InputSet(trainingDays: Option<seq<int>>): set<int>
  {
    set x | x in trainingDays.GetOr([]) && 0 <= x <= 6
  }

  /** `unique`: the valid, deduplicated inputs sorted ascending. */
  function UniqueDays(trainingDays: Option<seq<int>>): (r: seq<int>)
    ensures StrictlyIncreasing(r)
    ensures forall x :: x in r <==> x in InputSet(trainingDays)
    ensures forall i :: 0 <= i < |r| ==> 0 <= r[i] <= 6
  {
    var days := trainingDays.GetOr([]);
    SortedValidDays(days);
    SortInts(Dedupe(InRange(days)))
  }

  /** The second half of `normalizeTrainingDays`: cut `unique` down, or fill it up with unused weekdays. */
  function FillDays(unique: seq<int>, safeDays: int): (r: seq<int>)
    requires StrictlyIncreasing(unique)
    requires forall i :: 0 <= i < |unique| ==> 0 <= unique[i] <= 6
    requires 0 <= safeDays <= 7
    ensures |r| == safeDays
    ensures Distinct(r)
    ensures forall i :: 0 <= i < |r| ==> 0 <= r[i] <= 6
  {
    if |unique| >= safeDays then
      unique[..safeDays]
    else
      var fallback := KeepOut(Week, unique);
      FilledShape(unique);
      var fill := fallback[..safeDays - |unique|];
      FilledDistinct(unique, fallback, fill);
      unique + fill
  }

  /** `normalizeTrainingDays`. */
  function NormalizeTrainingDays(daysPerWeek: int, trainingDays: Option<seq<int>>): (r: seq<int>)
    ensures |r| == ClampDays(daysPerWeek)
    ensures Distinct(r)
    ensures forall i :: 0 <= i < |r| ==> 0 <= r[i] <= 6
  {
    FillDays(UniqueDays(trainingDays), ClampDays(daysPerWeek))
  }

  /** `getOffsets` is the normalised day list. */
  function GetOffsets(daysPerWeek: int, trainingDays: Option<seq<int>>): (r: seq<int>)
    ensures |r| == ClampDays(daysPerWeek)
    ensures Distinct(r)
    ensures forall i :: 0 <= i < |r| ==> 0 <= r[i] <= 6
  {
    NormalizeTrainingDays(daysPerWeek, trainingDays)
  }

  /** `getDay()` of the date `delta` days after one whose `getDay()` is `weekday`. */
  function WeekdayAfter(weekday: int, delta: int): int
  {
    (weekday + delta) % 7
  }

  /**
   * The offset `getWeekStart` adds to a date whose `getDay()` is `weekday`
   * (0 = Sunday ... 6 = Saturday): back to the Monday of the same week.
   */
  function MondayOffset(weekday: int): (r: int)
    requires 0 <= weekday <= 6
    ensures -6 <= r <= 0
    ensures WeekdayAfter(weekday, r) == 1
    ensures forall o :: -6 <= o <= 0 && WeekdayAfter(weekday, o) == 1 ==> o == r
  {
    if weekday == 0 then -6 else 1 - weekday
  }

  /** The offset from the week start that `getScheduledDate` adds for the day at `dayIndex`. */
  function ScheduledOffset(dayIndex: int, daysPerWeek: int, trainingDays: Option<seq<int>>): (r: int)
    ensures dayIndex >= 0 ==> r in NormalizeTrainingDays(daysPerWeek, trainingDays)
    ensures 0 <= dayIndex < ClampDays(daysPerWeek) ==> r == NormalizeTrainingDays(daysPerWeek, trainingDays)[dayIndex]
    ensures dayIndex >= ClampDays(daysPerWeek) ==>
              r == NormalizeTrainingDays(daysPerWeek, trainingDays)[ClampDays(daysPerWeek) - 1]
    ensures dayIndex < 0 ==> r == 0
  {
    var offsets := GetOffsets(daysPerWeek, trainingDays);
    var index := if dayIndex < |offsets| - 1 then dayIndex else |offsets| - 1;
    if 0 <= index < |offsets| then offsets[index] else 0
  }

  // ---------------------------------------------------------------------------
  // Proofs
  // ---------------------------------------------------------------------------

  /** Dedupe-and-sort yields the valid inputs, each once, in ascending order. */
  lemma SortedValidDays(days: seq<int>)
    ensures var r := SortInts(Dedupe(InRange(days)));
            && StrictlyIncreasing(r)
            && (forall x :: x in r <==> x in days && 0 <= x <= 6)
            && (forall i :: 0 <= i < |r| ==> 0 <= r[i] <= 6)
  {
    var deduped := Dedupe(InRange(days));
    var r := SortInts(deduped);
    PermutationKeepsDistinct(deduped, r);
    forall x ensures x in r <==> x in deduped {
      assert x in r <==> x in multiset(r);
      assert x in deduped <==> x in multiset(deduped);
    }
    forall i | 0 <= i < |r| ensures 0 <= r[i] <= 6 {
      assert r[i] in r;
    }
  }

  lemma InWeek(x: int)
    ensures x in Week <==> 0 <= x <= 6
  {
    if 0 <= x <= 6 {
      assert Week[x] == x;
    }
  }

  lemma {:induction false} KeepInIncreasing(s: seq<int>, keep: set<int>)
    requires StrictlyIncreasing(s)
    ensures StrictlyIncreasing(KeepIn(s, keep))
    decreases |s|
  {
    if s != [] {
      KeepInIncreasing(s[1..], keep);
      var rest := KeepIn(s[1..], keep);
      forall k | 0 <= k < |rest| ensures s[0] < rest[k] {
        assert rest[k] in s[1..];
      }
    }
  }

  lemma {:induction false} KeepOutIncreasing(s: seq<int>, used: seq<int>)
    requires StrictlyIncreasing(s)
    ensures StrictlyIncreasing(KeepOut(s, used))
    decreases |s|
  {
    if s != [] {
      KeepOutIncreasing(s[1..], used);
      var rest := KeepOut(s[1..], used);
      forall k | 0 <= k < |rest| ensures s[0] < rest[k] {
        assert rest[k] in s[1..];
      }
    }
  }

  /** Keeping the members of `used` and keeping the others split `s` between them. */
  lemma {:induction false} KeepComplement(s: seq<int>, used: seq<int>)
    ensures |KeepIn(s, Elements(used))| + |KeepOut(s, used)| == |s|
    decreases |s|
  {
    if s != [] {
      KeepComplement(s[1..], used);
    }
  }

  lemma {:induction false} KeepOutNothing(s: seq<int>)
    ensures KeepOut(s, []) == s
    decreases |s|
  {
    if s != [] {
      KeepOutNothing(s[1..]);
    }
  }

  /** Given days followed by unused weekdays are distinct weekdays. */
  lemma FilledDistinct(unique: seq<int>, fallback: seq<int>, fill: seq<int>)
    requires StrictlyIncreasing(unique) && StrictlyIncreasing(fallback)
    requires forall i :: 0 <= i < |unique| ==> 0 <= unique[i] <= 6
    requires forall x :: x in fallback <==> x in Week && x !in unique
    requires fill <= fallback
    ensures Distinct(unique + fill)
    ensures forall i :: 0 <= i < |unique + fill| ==> 0 <= (unique + fill)[i] <= 6
  {
    assert forall i :: 0 <= i < |fill| ==> fill[i] == fallback[i];
    assert forall i :: 0 <= i < |fill| ==> fill[i] in fallback;
    DistinctAppend(unique, fill);
    forall i | 0 <= i < |unique + fill| ensures 0 <= (unique + fill)[i] <= 6 {
      if i >= |unique| {
        InWeek(fill[i - |unique|]);
      }
    }
  }

  lemma DistinctAppend(a: seq<int>, b: seq<int>)
    requires StrictlyIncreasing(a) && StrictlyIncreasing(b)
    requires forall i :: 0 <= i < |b| ==> b[i] !in a
    ensures Distinct(a + b)
  {
    forall i, j | 0 <= i < j < |a + b| ensures (a + b)[i] != (a + b)[j] {
      if j >= |a| && i < |a| {
        assert (a + b)[i] == a[i] && (a + b)[j] == b[j - |a|];
        assert a[i] in a;
      }
    }
  }

  /** A strictly increasing list of weekdays is the week filtered by its own elements. */
  lemma AscendingWeekdays(u: seq<int>, s: set<int>)
    requires StrictlyIncreasing(u)
    requires forall x :: x in u <==> x in s
    requires forall x :: x in s ==> 0 <= x <= 6
    ensures u == KeepIn(Week, s)
    ensures |u| == |s|
  {
    var reference := KeepIn(Week, s);
    KeepInIncreasing(Week, s);
    forall x ensures x in u <==> x in reference {
      InWeek(x);
    }
    StrictlyIncreasingUnique(u, reference);
    DistinctSize(u);
    assert Elements(u) == s by {
      forall x ensures x in Elements(u) <==> x in s {
      }
    }
  }

  /** The ascending valid days are the weekdays, Monday onwards, that occur among the inputs. */
  lemma UniqueIsAscendingInputs(trainingDays: Option<seq<int>>)
    ensures UniqueDays(trainingDays) == KeepIn(Week, InputSet(trainingDays))
    ensures |UniqueDays(trainingDays)| == |InputSet(trainingDays)|
  {
    AscendingWeekdays(UniqueDays(trainingDays), InputSet(trainingDays));
  }

  /** When too few valid days were given, the fallback list holds enough unused days, in ascending order. */
  lemma FilledShape(unique: seq<int>)
    requires StrictlyIncreasing(unique)
    requires forall i :: 0 <= i < |unique| ==> 0 <= unique[i] <= 6
    ensures |KeepOut(Week, unique)| == 7 - |unique|
    ensures StrictlyIncreasing(KeepOut(Week, unique))
  {
    var used := Elements(unique);
    KeepComplement(Week, unique);
    forall x | x in used ensures 0 <= x <= 6 {
      var i :| 0 <= i < |unique| && unique[i] == x;
    }
    AscendingWeekdays(unique, used);
    KeepOutIncreasing(Week, unique);
  }

  /** Out-of-range values and repetitions in the input do not matter: only the set of valid days does. */
  lemma NormalizeDependsOnValidSet(daysPerWeek: int, a: Option<seq<int>>, b: Option<seq<int>>)
    requires InputSet(a) == InputSet(b)
    ensures NormalizeTrainingDays(daysPerWeek, a) == NormalizeTrainingDays(daysPerWeek, b)
  {
    UniqueIsAscendingInputs(a);
    UniqueIsAscendingInputs(b);
  }

  /** Cutting down keeps the earliest days, ascending. */
  lemma FillDaysCuts(unique: seq<int>, safeDays: int)
    requires StrictlyIncreasing(unique)
    requires forall i :: 0 <= i < |unique| ==> 0 <= unique[i] <= 6
    requires 0 <= safeDays <= |unique| && safeDays <= 7
    ensures var r := FillDays(unique, safeDays);
            && StrictlyIncreasing(r)
            && (forall d :: d in r ==> d in unique)
            && (forall d, e :: d in unique && d !in r && e in r ==> e < d)
  {
    var r := FillDays(unique, safeDays);
    assert r == unique[..safeDays];
    forall d | d in r ensures d in unique {
      var j :| 0 <= j < safeDays && r[j] == d;
      assert unique[j] == d;
    }
    assert forall k :: 0 <= k < safeDays ==> unique[k] == r[k];
    forall d, e | d in unique && d !in r && e in r ensures e < d {
      var i :| 0 <= i < |unique| && unique[i] == d;
      var j :| 0 <= j < safeDays && r[j] == e;
      assert r[j] == unique[j];
      assert i >= safeDays by {
        assert forall k :: 0 <= k < safeDays ==> unique[k] in r;
      }
    }
  }

  /** Filling up keeps every given day, ascending, then adds the earliest unused weekdays, ascending. */
  lemma FillDaysFills(unique: seq<int>, safeDays: int)
    requires StrictlyIncreasing(unique)
    requires forall i :: 0 <= i < |unique| ==> 0 <= unique[i] <= 6
    requires |unique| < safeDays <= 7
    ensures var r := FillDays(unique, safeDays);
            && r[..|unique|] == unique
            && StrictlyIncreasing(r[|unique|..])
            && (forall d :: d in r[|unique|..] ==> d !in unique)
            && (forall d, e :: 0 <= d <= 6 && d !in r && e in r[|unique|..] ==> e < d)
  {
    FilledShape(unique);
    var fallback := KeepOut(Week, unique);
    var r := FillDays(unique, safeDays);
    FilledOrder(r, unique, fallback, safeDays - |unique|);
  }

  /** `unique` followed by a prefix of the unused weekdays in ascending order. */
  lemma FilledOrder(r: seq<int>, unique: seq<int>, fallback: seq<int>, k: int)
    requires StrictlyIncreasing(fallback)
    requires forall x :: x in fallback <==> x in Week && x !in unique
    requires 0 <= k <= |fallback|
    requires r == unique + fallback[..k]
    ensures && r[..|unique|] == unique
            && StrictlyIncreasing(r[|unique|..])
            && (forall d :: d in r[|unique|..] ==> d !in unique)
            && (forall d, e :: 0 <= d <= 6 && d !in r && e in r[|unique|..] ==> e < d)
  {
    var n := |unique|;
    assert r[..n] == unique;
    assert r[n..] == fallback[..k];
    forall d | d in r[n..] ensures d !in unique {
      assert d in fallback;
    }
    assert forall x :: x in unique ==> x in r;
    assert forall i :: 0 <= i < k ==> fallback[i] in r by {
      forall i | 0 <= i < k ensures fallback[i] in r {
        assert r[n + i] == fallback[i];
      }
    }
    forall d, e | 0 <= d <= 6 && d !in r && e in r[n..] ensures e < d {
      InWeek(d);
      assert d in fallback;
      var i :| 0 <= i < |fallback| && fallback[i] == d;
      var j :| 0 <= j < k && fallback[j] == e;
    }
  }

  /**
   * With at least as many valid distinct days as needed, the result is the
   * earliest of them, ascending: every chosen day was given, and every given
   * day left out comes after all chosen ones.
   */
  lemma NormalizeEnoughDays(daysPerWeek: int, trainingDays: Option<seq<int>>)
    requires |InputSet(trainingDays)| >= ClampDays(daysPerWeek)
    ensures var r := NormalizeTrainingDays(daysPerWeek, trainingDays);
            && StrictlyIncreasing(r)
            && (forall d :: d in r ==> d in InputSet(trainingDays))
            && (forall d, e :: d in InputSet(trainingDays) && d !in r && e in r ==> e < d)
  {
    UniqueIsAscendingInputs(trainingDays);
    FillDaysCuts(UniqueDays(trainingDays), ClampDays(daysPerWeek));
  }

  /**
   * With fewer valid distinct days than needed, the result is every given day in
   * ascending order, followed by the earliest weekdays not given, ascending.
   */
  lemma NormalizeFillsDays(daysPerWeek: int, trainingDays: Option<seq<int>>)
    requires |InputSet(trainingDays)| < ClampDays(daysPerWeek)
    ensures var k := |InputSet(trainingDays)|;
            var r := NormalizeTrainingDays(daysPerWeek, trainingDays);
            && r[..k] == KeepIn(Week, InputSet(trainingDays))
            && StrictlyIncreasing(r[k..])
            && (forall d :: d in r[k..] ==> d !in InputSet(trainingDays))
            && (forall d, e :: 0 <= d <= 6 && d !in r && e in r[k..] ==> e < d)
  {
    UniqueIsAscendingInputs(trainingDays);
    FillDaysFills(UniqueDays(trainingDays), ClampDays(daysPerWeek));
  }

  /** With no valid input days the result is the first `safeDays` weekdays, Monday onwards. */
  lemma NormalizeEmpty(daysPerWeek: int, trainingDays: Option<seq<int>>)
    requires trainingDays == None || trainingDays == Some([])
    ensures NormalizeTrainingDays(daysPerWeek, trainingDays) == Week[..ClampDays(daysPerWeek)]
  {
    NoValidDays(trainingDays);
    FillNone(ClampDays(daysPerWeek));
  }

  lemma NoValidDays(trainingDays: Option<seq<int>>)
    requires trainingDays == None || trainingDays == Some([])
    ensures UniqueDays(trainingDays) == []
  {
    UniqueIsAscendingInputs(trainingDays);
    assert InputSet(trainingDays) == {} by {
      forall x ensures x !in InputSet(trainingDays) {
      }
    }
  }

  lemma FillNone(safeDays: int)
    requires 0 <= safeDays <= 7
    ensures FillDays([], safeDays) == Week[..safeDays]
  {
    KeepOutNothing(Week);
  }

  lemma {:induction false} DistinctSize(u: seq<int>)
    requires StrictlyIncreasing(u)
    ensures |Elements(u)| == |u|
    decreases |u|
  {
    if u != [] {
      DistinctSize(u[1..]);
      assert Elements(u) == {u[0]} + Elements(u[1..]);
      assert u[0] !in u[1..] by {
        forall k | 0 <= k < |u[1..]| ensures u[1..][k] != u[0] {
          assert u[1..][k] == u[k + 1];
        }
      }
    }
  }
}
