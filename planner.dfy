/**
 * The weekly plan generator (src/lib/planner.ts): lookup tables, the exercise
 * eligibility filter, the sampler, set/rep/rest sizing, the deload rule and the
 * duration estimate.
 *
 * `Math.random` is replaced by a choice stream: `rand[k]` picks which of the
 * exercises still in the pool is drawn k-th (see Pick). Every possible outcome
 * of the source's shuffle-and-slice is one of Pick's results and conversely
 * (PickSound, PickReaches); nothing is said about probabilities.
 */
module Planner {
  import opened Types
  import opened Optional
  import opened Strings
  import opened Labels

  // ---------------------------------------------------------------------------
  // Records
  // ---------------------------------------------------------------------------

  /** The fields of an `exercises` row the planner reads. */
  datatype Exercise = Exercise(
    id: int,
    name: string,
    pattern: Pattern,
    difficulty: Level,
    equipment: seq<Tag>,
    contraindications: seq<Tag>,
    isAdvancedSkill: bool)

  /** The fields of a `profiles` row the planner reads. */
  datatype Profile = Profile(
    level: Level,
    goal: Goal,
    daysPerWeek: int,
    sessionMinutes: int,
    equipment: seq<Tag>,
    injuries: seq<Tag>)

  datatype GoalConfig = GoalConfig(sets: int, reps: string, restSeconds: int)

  datatype AgeConfig = AgeConfig(maxSets: int, restBonus: int, allowAdvanced: bool)

  datatype PlanItem = PlanItem(exerciseId: int, sets: int, reps: string, restSeconds: int, reason: string)

  datatype DailyPlan = DailyPlan(title: string, focus: string, items: seq<PlanItem>, totalMinutes: int)

  datatype PlanResult = PlanResult(weekIndex: int, days: seq<DailyPlan>)

  // ---------------------------------------------------------------------------
  // Tables
  // ---------------------------------------------------------------------------

  /** `goalDefaults`. */
  function GoalDefaults(g: Goal): GoalConfig
  {
    match g
    case FAT_LOSS => GoalConfig(3, "10-15", 75)
    case STRENGTH => GoalConfig(4, "4-8", 150)
    case HYPERTROPHY => GoalConfig(3, "8-12", 90)
    case MOBILITY => GoalConfig(2, "30-45s", 45)
    case SKILL => GoalConfig(3, "3-6", 150)
  }

  /** `ageAdjustments`. */
  function AgeAdjustments(b: AgeBand): AgeConfig
  {
    match b
    case TEEN => AgeConfig(3, 15, false)
    case PRIME => AgeConfig(5, 0, true)
    case BUILD => AgeConfig(4, 15, true)
    case REBUILD => AgeConfig(4, 30, false)
    case STRONG50 => AgeConfig(3, 45, false)
    case ACTIVE60 => AgeConfig(3, 60, false)
  }

  const ThreeDaySplit: seq<seq<Pattern>> := [[PUSH], [PULL], [LEGS, CORE]]

  /** `splitByDays[n]`: a record with entries for 2 to 6 days only. */
  function SplitByDays(n: int): Option<seq<seq<Pattern>>>
  {
    if n == 2 then Some([[PUSH, PULL, LEGS, CORE], [PUSH, PULL, LEGS, CORE]])
    else if n == 3 then Some(ThreeDaySplit)
    else if n == 4 then Some([[PUSH], [PULL], [LEGS], [PUSH, PULL, CORE]])
    else if n == 5 then Some([[PUSH], [PULL], [LEGS], [PUSH, CORE], [PULL, LEGS]])
    else if n == 6 then Some([[PUSH], [PULL], [LEGS], [PUSH], [PULL], [LEGS, CORE]])
    else None
  }

  /** `splitByDays[profile.daysPerWeek] ?? splitByDays[3]`. */
  function PatternsByDay(daysPerWeek: int): (r: seq<seq<Pattern>>)
    ensures |r| == if 2 <= daysPerWeek <= 6 then daysPerWeek else 3
    ensures forall i :: 0 <= i < |r| ==> |r[i]| >= 1
    ensures forall i, p :: 0 <= i < |r| && p in r[i] ==> p in [PUSH, PULL, LEGS, CORE]
  {
    SplitByDays(daysPerWeek).GetOr(ThreeDaySplit)
  }

  // ---------------------------------------------------------------------------
  // Eligibility
  // ---------------------------------------------------------------------------

  /** `items.every((item) => owned.includes(item))`. */
  function AllOwned(items: seq<Tag>, owned: seq<Tag>): (r: bool)
    ensures r <==> forall t :: t in items ==> t in owned
  {
    if items == [] then true else items[0] in owned && AllOwned(items[1..], owned)
  }

  /** `contraindications.some((contra) => injuries.includes(contra))`. */
  function AnyInjured(contraindications: seq<Tag>, injuries: seq<Tag>): (r: bool)
    ensures r <==> exists t :: t in contraindications && t in injuries
  {
    if contraindications == [] then false
    else contraindications[0] in injuries || AnyInjured(contraindications[1..], injuries)
  }

  /** The callback of `getExercisePool`, check by check with its early returns. */
  function PassesChecks(e: Exercise, patterns: seq<Pattern>, ageBand: AgeBand, level: Level,
                        equipment: seq<Tag>, injuries: seq<Tag>, blocked: seq<int>): bool
  {
    if e.pattern !in patterns then false
    else if e.id in blocked then false
    else if !AgeAdjustments(ageBand).allowAdvanced && e.isAdvancedSkill then false
    else if level == BEGINNER && e.difficulty == ADVANCED then false
    else if level == INTERMEDIATE && e.difficulty == ADVANCED && !AgeAdjustments(ageBand).allowAdvanced then false
    else if |e.equipment| > 0 && !AllOwned(e.equipment, equipment) then false
    else if AnyInjured(e.contraindications, injuries) then false
    else true
  }

  /** What the filter is meant to admit, stated as one condition per rule. */
  predicate Eligible(e: Exercise, patterns: seq<Pattern>, ageBand: AgeBand, level: Level,
                     equipment: seq<Tag>, injuries: seq<Tag>, blocked: seq<int>)
  {
    var allowAdvanced := AgeAdjustments(ageBand).allowAdvanced;
    && e.pattern in patterns
    && e.id !in blocked
    && (e.isAdvancedSkill ==> allowAdvanced)
    && (level == BEGINNER ==> e.difficulty != ADVANCED)
    && (level == INTERMEDIATE && e.difficulty == ADVANCED ==> allowAdvanced)
    && (forall t :: t in e.equipment ==> t in equipment)
    && (forall t :: t in e.contraindications ==> t !in injuries)
  }

  /** `a` is `b` with some elements left out, the rest kept in order. */
  predicate IsSubsequence<T(==)>(a: seq<T>, b: seq<T>)
    decreases |b|
  {
    if a == [] then true
    else if b == [] then false
    else if a[0] == b[0] then IsSubsequence(a[1..], b[1..])
    else IsSubsequence(a, b[1..])
  }

  /** `getExercisePool`. */
  function GetExercisePool(exercises: seq<Exercise>, patterns: seq<Pattern>, ageBand: AgeBand, level: Level,
                           equipment: seq<Tag>, injuries: seq<Tag>, blocked: seq<int>): (pool: seq<Exercise>)
    ensures forall e :: e in pool <==> e in exercises && Eligible(e, patterns, ageBand, level, equipment, injuries, blocked)
    ensures IsSubsequence(pool, exercises)
    ensures |pool| <= |exercises|
  {
    if exercises == [] then []
    else
      var e := exercises[0];
      var rest := GetExercisePool(exercises[1..], patterns, ageBand, level, equipment, injuries, blocked);
      PassesIffEligible(e, patterns, ageBand, level, equipment, injuries, blocked);
      assert exercises == [e] + exercises[1..];
      if PassesChecks(e, patterns, ageBand, level, equipment, injuries, blocked) then
        assert ([e] + rest)[1..] == rest;
        [e] + rest
      else
        SubsequenceDrop(rest, exercises);
        rest
  }

  // ---------------------------------------------------------------------------
  // Sampler
  // ---------------------------------------------------------------------------

  /** `s` without its element at `k`. */
  function RemoveAt<T>(s: seq<T>, k: int): (r: seq<T>)
    requires 0 <= k < |s|
    ensures |r| == |s| - 1
    ensures multiset(r) == multiset(s) - multiset{s[k]}
  {
    assert s == s[..k] + [s[k]] + s[k + 1..];
    s[..k] + s[k + 1..]
  }

  /** The position drawn from a pool of `n` by the head of the stream (0 once the stream is used up). */
  function Draw(rand: seq<int>, n: int): (k: int)
    requires n > 0
    ensures 0 <= k < n
  {
    if rand == [] then 0 else rand[0] % n
  }

  /** The stream after one draw. */
  function Advance(rand: seq<int>): seq<int>
  {
    if rand == [] then [] else rand[1..]
  }

  /**
   * The first `n` exercises of a shuffled copy of the pool (none for `n <= 0`).
   * Each draw takes the element at `Draw(rand, |what is left|)` out of the pool.
   */
  function Draws<T>(pool: seq<T>, n: int, rand: seq<int>): (r: seq<T>)
    ensures |r| == if n <= 0 then 0 else if n < |pool| then n else |pool|
    ensures multiset(r) <= multiset(pool)
    decreases |pool|
  {
    if n <= 0 || pool == [] then []
    else
      var k := Draw(rand, |pool|);
      var rest := Draws(RemoveAt(pool, k), n - 1, Advance(rand));
      DrawStep(pool, k, rest);
      [pool[k]] + rest
  }

  /** The whole pool in the order the shuffle puts it. */
  function Shuffled<T>(pool: seq<T>, rand: seq<int>): seq<T>
  {
    Draws(pool, |pool|, rand)
  }

  /**
   * `pickExercises(pool, count)`: `shuffled.slice(0, count)`. A negative `count`
   * counts from the end, so it keeps all but the last `-count` exercises.
   */
  function Pick<T>(pool: seq<T>, count: int, rand: seq<int>): (r: seq<T>)
    ensures count >= 0 ==> |r| == if count < |pool| then count else |pool|
    ensures count < 0 ==> |r| == if |pool| + count > 0 then |pool| + count else 0
    ensures multiset(r) <= multiset(pool)
  {
    Draws(pool, if count >= 0 then count else |pool| + count, rand)
  }

  // ---------------------------------------------------------------------------
  // Sizing
  // ---------------------------------------------------------------------------

  /** `applyDeload`: `Math.max(1, Math.floor(sets * 0.7))` with 0.7 read as 7/10. */
  function ApplyDeload(sets: int): int
  {
    var cut := (7 * sets) / 10;
    if cut > 1 then cut else 1
  }

  /** `weekIndex % 4 === 0` (truncating and Euclidean remainders agree on being zero). */
  predicate IsDeload(weekIndex: int) {
    weekIndex % 4 == 0
  }

  /** `targetExercises`. */
  function TargetExercises(sessionMinutes: int): int
  {
    if sessionMinutes >= 45 then 5 else if sessionMinutes >= 30 then 4 else 3
  }

  /** `baseSets`, deloaded when `isDeload`. */
  function ItemSets(goal: GoalConfig, age: AgeConfig, isDeload: bool): int
  {
    var baseSets := if goal.sets < age.maxSets then goal.sets else age.maxSets;
    if isDeload then ApplyDeload(baseSets) else baseSets
  }

  /** The `reason` template. */
  function Reason(p: Pattern): string
  {
    "Elegido para reforzar " + PatternLabel(p) + " sin sobrecargar zonas sensibles."
  }

  function MakeItem(e: Exercise, goal: GoalConfig, age: AgeConfig, isDeload: bool): PlanItem
  {
    PlanItem(e.id, ItemSets(goal, age, isDeload), goal.reps, goal.restSeconds + age.restBonus, Reason(e.pattern))
  }

  // ---------------------------------------------------------------------------
  // Duration estimate
  // ---------------------------------------------------------------------------

  /** Length of the run of digits at the start of `s`. */
  function DigitRunLength(s: string): (n: nat)
    ensures n <= |s| && AllDigits(s[..n])
    ensures n < |s| ==> !IsDigit(s[n])
  {
    if s == [] || !IsDigit(s[0]) then 0
    else
      var n := DigitRunLength(s[1..]);
      assert s[..n + 1] == [s[0]] + s[1..][..n];
      n + 1
  }

  /** `s.match(/\d+/g)?.map(Number)`: the values of the maximal digit runs, in order (empty for no match). */
  function DigitRuns(s: string): seq<int>
    decreases |s|
  {
    if s == [] then []
    else if !IsDigit(s[0]) then DigitRuns(s[1..])
    else
      var n := DigitRunLength(s);
      [ParseDigits(s[..n])] + DigitRuns(s[n..])
  }

  /** `avgReps`: the rounded mean of the first two numbers, or the only one, defaulting to 8. */
  function AverageReps(reps: string): int
  {
    AverageOf(DigitRuns(reps))
  }

  /** The `repRange ?? [8]` and `Math.round` part of `avgReps`. */
  function AverageOf(runs: seq<int>): int
  {
    var repRange := if runs == [] then [8] else runs;
    if |repRange| >= 2 then (repRange[0] + repRange[1] + 1) / 2 else repRange[0]
  }

  /** `perSetSeconds`: the number itself for timed holds ("s" in the reps), four seconds per rep otherwise. */
  function PerSetSeconds(reps: string): int
  {
    if 's' in reps then AverageReps(reps) else AverageReps(reps) * 4
  }

  /** The contribution of one item to the reduce: `sets * (perSetSeconds + restSeconds)`. */
  function ItemSeconds(item: PlanItem): int
  {
    item.sets * (PerSetSeconds(item.reps) + item.restSeconds)
  }

  /** The left fold of `estimateMinutes`, before the division by 60. */
  function EstimateSeconds(items: seq<PlanItem>): int
    decreases |items|
  {
    if items == [] then 0 else EstimateSeconds(items[..|items| - 1]) + ItemSeconds(items[|items| - 1])
  }

  /** `estimateMinutes`. */
  function EstimateMinutes(items: seq<PlanItem>): real
  {
    EstimateSeconds(items) as real / 60.0
  }

  /** `Math.round`: the nearest integer, halves rounded up. */
  function Round(x: real): int
  {
    (x + 0.5).Floor
  }

  /** `Math.min(profile.sessionMinutes, Math.round(estimateMinutes(items)))`. */
  function TotalMinutes(sessionMinutes: int, items: seq<PlanItem>): (r: int)
    ensures r <= sessionMinutes
    ensures r <= (EstimateSeconds(items) + 30) / 60
    ensures r == sessionMinutes || r == (EstimateSeconds(items) + 30) / 60
  {
    RoundMinutes(EstimateSeconds(items));
    var rounded := Round(EstimateMinutes(items));
    if sessionMinutes < rounded then sessionMinutes else rounded
  }

  // ---------------------------------------------------------------------------
  // The generator
  // ---------------------------------------------------------------------------

  /** `focus`: the day's pattern labels joined with " + ". */
  function FocusOf(patterns: seq<Pattern>): string
  {
    Join(seq(|patterns|, k requires 0 <= k < |patterns| => PatternLabel(patterns[k])), " + ")
  }

  /** The choices for day `i`; days beyond the stream draw index 0. */
  function DayStream(rand: seq<seq<int>>, i: int): seq<int>
  {
    if 0 <= i < |rand| then rand[i] else []
  }

  function DayPool(exercises: seq<Exercise>, profile: Profile, ageBand: AgeBand, blocked: seq<int>,
                   patterns: seq<Pattern>): seq<Exercise>
  {
    GetExercisePool(exercises, patterns, ageBand, profile.level, profile.equipment, profile.injuries, blocked)
  }

  function Selections(exercises: seq<Exercise>, profile: Profile, ageBand: AgeBand, blocked: seq<int>,
                      patterns: seq<Pattern>, choices: seq<int>): seq<Exercise>
  {
    Pick(DayPool(exercises, profile, ageBand, blocked, patterns), TargetExercises(profile.sessionMinutes), choices)
  }

  /** One element of the `patternsByDay.map` callback. */
  function MakeDay(exercises: seq<Exercise>, profile: Profile, ageBand: AgeBand, weekIndex: int, blocked: seq<int>,
                   dayIndex: nat, patterns: seq<Pattern>, choices: seq<int>): DailyPlan
  {
    var selections := Selections(exercises, profile, ageBand, blocked, patterns, choices);
    var goal := GoalDefaults(profile.goal);
    var age := AgeAdjustments(ageBand);
    var items := seq(|selections|, j requires 0 <= j < |selections| =>
                       MakeItem(selections[j], goal, age, IsDeload(weekIndex)));
    DailyPlan("Día " + NatToString(dayIndex + 1), FocusOf(patterns), items,
              TotalMinutes(profile.sessionMinutes, items))
  }

  /** `generatePlan`, with the per-day choice streams standing for `Math.random`. */
  function GeneratePlan(exercises: seq<Exercise>, profile: Profile, ageBand: AgeBand, weekIndex: int,
                        blocked: seq<int>, rand: seq<seq<int>>): (r: PlanResult)
    ensures r.weekIndex == weekIndex
    ensures |r.days| == |PatternsByDay(profile.daysPerWeek)|
  {
    var patternsByDay := PatternsByDay(profile.daysPerWeek);
    var days := seq(|patternsByDay|, i requires 0 <= i < |patternsByDay| =>
                      MakeDay(exercises, profile, ageBand, weekIndex, blocked, i, patternsByDay[i], DayStream(rand, i)));
    PlanResult(weekIndex, days)
  }

  // ---------------------------------------------------------------------------
  // Proofs: eligibility
  // ---------------------------------------------------------------------------

  /** The early-return chain admits exactly the exercises that meet every rule. */
  lemma PassesIffEligible(e: Exercise, patterns: seq<Pattern>, ageBand: AgeBand, level: Level,
                          equipment: seq<Tag>, injuries: seq<Tag>, blocked: seq<int>)
    ensures PassesChecks(e, patterns, ageBand, level, equipment, injuries, blocked) <==>
            Eligible(e, patterns, ageBand, level, equipment, injuries, blocked)
  {
  }

  lemma {:induction false} SubsequenceDrop<T>(a: seq<T>, b: seq<T>)
    requires b != [] && IsSubsequence(a, b[1..])
    ensures IsSubsequence(a, b)
    decreases |b|, 0
  {
    if a != [] && a[0] == b[0] {
      SubsequenceTail(a, b[1..]);
    }
  }

  lemma {:induction false} SubsequenceTail<T>(a: seq<T>, b: seq<T>)
    requires a != [] && IsSubsequence(a, b)
    ensures IsSubsequence(a[1..], b)
    decreases |b|, 1
  {
    if b != [] {
      if a[0] == b[0] {
        if a[1..] != [] {
          SubsequenceDrop(a[1..], b);
        }
      } else {
        SubsequenceTail(a, b[1..]);
        SubsequenceDrop(a[1..], b);
      }
    }
  }

  /** Restating the age gate: advanced skills only for bands that allow them. */
  lemma PoolAgeGate(exercises: seq<Exercise>, patterns: seq<Pattern>, ageBand: AgeBand, level: Level,
                    equipment: seq<Tag>, injuries: seq<Tag>, blocked: seq<int>, e: Exercise)
    requires e in GetExercisePool(exercises, patterns, ageBand, level, equipment, injuries, blocked)
    ensures e in exercises && e.pattern in patterns && e.id !in blocked
    ensures !AgeAdjustments(ageBand).allowAdvanced ==> !e.isAdvancedSkill
    ensures level == BEGINNER ==> e.difficulty != ADVANCED
    ensures level == INTERMEDIATE && e.difficulty == ADVANCED ==> AgeAdjustments(ageBand).allowAdvanced
    ensures |e.equipment| == 0 || forall t :: t in e.equipment ==> t in equipment
    ensures forall t :: t in e.contraindications ==> t !in injuries
  {
  }

  // ---------------------------------------------------------------------------
  // Proofs: sampler
  // ---------------------------------------------------------------------------

  /** Every element drawn comes from the pool, no more often than it occurs there. */
  lemma PickSound<T>(pool: seq<T>, count: int, rand: seq<int>, x: T)
    ensures multiset(Pick(pool, count, rand))[x] <= multiset(pool)[x]
    ensures x in Pick(pool, count, rand) ==> x in pool
  {
    var r := Pick(pool, count, rand);
    assert x in r ==> x in multiset(r);
    assert x in multiset(pool) ==> x in pool;
  }

  lemma {:induction false} PickReachesCount<T>(pool: seq<T>, sub: seq<T>, n: nat) returns (rand: seq<int>)
    requires n == |sub| && multiset(sub) <= multiset(pool)
    ensures Pick(pool, n, rand) == sub
    decreases n
  {
    if n == 0 {
      rand := [];
    } else {
      var k := FindIndex(pool, sub);
      var tail := PickReachesCount(RemoveAt(pool, k), sub[1..], n - 1);
      PickCons(pool, k, tail, sub, n);
      rand := [k] + tail;
    }
  }

  /**
   * Conversely, every selection the shuffle could produce, that is every
   * sub-multiset of the pool of size min(count, |pool|) in any order, is drawn
   * by some choice stream.
   */
  lemma PickReaches<T>(pool: seq<T>, sub: seq<T>) returns (rand: seq<int>)
    requires multiset(sub) <= multiset(pool)
    ensures Pick(pool, |sub|, rand) == sub
  {
    rand := PickReachesCount(pool, sub, |sub|);
  }

  /** Drawing `sub[0]` at position `k` and then the rest of `sub` from what is left draws `sub`. */
  lemma PickCons<T>(pool: seq<T>, k: nat, tail: seq<int>, sub: seq<T>, n: nat)
    requires 0 <= k < |pool| && n == |sub| && sub != [] && pool[k] == sub[0]
    requires Pick(RemoveAt(pool, k), n - 1, tail) == sub[1..]
    ensures Pick(pool, n, [k] + tail) == sub
  {
    PickFirst(pool, n, k, tail);
    ConsFirst(pool[k], Pick(RemoveAt(pool, k), n - 1, tail), sub);
  }

  lemma ConsFirst<T>(x: T, rest: seq<T>, sub: seq<T>)
    requires sub != [] && x == sub[0] && rest == sub[1..]
    ensures [x] + rest == sub
  {
    assert sub == [sub[0]] + sub[1..];
  }

  /** A position of the pool holding the selection's first element; the other elements fit in the rest of the pool. */
  lemma FindIndex<T>(pool: seq<T>, sub: seq<T>) returns (k: nat)
    requires sub != [] && multiset(sub) <= multiset(pool)
    ensures 0 <= k < |pool| && pool[k] == sub[0]
    ensures multiset(sub[1..]) <= multiset(RemoveAt(pool, k))
  {
    assert sub == [sub[0]] + sub[1..];
    assert multiset(sub) == multiset{sub[0]} + multiset(sub[1..]);
    assert sub[0] in multiset(pool);
    k :| 0 <= k < |pool| && pool[k] == sub[0];
  }

  /** Putting a drawn element in front of a sub-multiset of the remaining pool gives a sub-multiset of the pool. */
  lemma DrawStep<T>(pool: seq<T>, k: int, rest: seq<T>)
    requires 0 <= k < |pool|
    requires multiset(rest) <= multiset(RemoveAt(pool, k))
    ensures multiset([pool[k]] + rest) <= multiset(pool)
  {
    assert multiset([pool[k]] + rest) == multiset{pool[k]} + multiset(rest);
    assert pool[k] in multiset(pool);
  }
  /** Drawing fewer exercises gives a prefix of drawing more from the same stream. */
  lemma DrawsPrefix<T>(pool: seq<T>, n: int, m: int, rand: seq<int>)
    requires n <= m
    ensures Draws(pool, n, rand) <= Draws(pool, m, rand)
    decreases |pool|
  {
    if n > 0 && pool != [] {
      var k := Draw(rand, |pool|);
      var rest := RemoveAt(pool, k);
      var tail := Advance(rand);
      DrawsPrefix(rest, n - 1, m - 1, tail);
      DrawsPrefixStep(pool, n, m, rand, k, rest, tail);
    } else {
      DrawsNone(pool, n, rand);
    }
  }

  /** Nothing is drawn for a non-positive count or from an empty pool. */
  lemma DrawsNone<T>(pool: seq<T>, n: int, rand: seq<int>)
    requires n <= 0 || pool == []
    ensures Draws(pool, n, rand) == []
  {
  }

  /** One step of DrawsPrefix: the same first draw in front of a prefix of the rest. */
  lemma DrawsPrefixStep<T>(pool: seq<T>, n: int, m: int, rand: seq<int>, k: int, rest: seq<T>, tail: seq<int>)
    requires 0 < n <= m && pool != []
    requires k == Draw(rand, |pool|) && rest == RemoveAt(pool, k) && tail == Advance(rand)
    requires Draws(rest, n - 1, tail) <= Draws(rest, m - 1, tail)
    ensures Draws(pool, n, rand) <= Draws(pool, m, rand)
  {
    DrawsCons(pool, n, rand);
    DrawsCons(pool, m, rand);
    PrefixCons(pool[k], Draws(rest, n - 1, tail), Draws(rest, m - 1, tail));
  }

  /** A positive count draws one element and then the rest from what is left. */
  lemma DrawsCons<T>(pool: seq<T>, n: int, rand: seq<int>)
    requires n > 0 && pool != []
    ensures var k := Draw(rand, |pool|);
            Draws(pool, n, rand) == [pool[k]] + Draws(RemoveAt(pool, k), n - 1, Advance(rand))
  {
  }

  lemma PrefixCons<T>(x: T, a: seq<T>, b: seq<T>)
    requires a <= b
    ensures [x] + a <= [x] + b
  {
    assert ([x] + b)[..|a| + 1] == [x] + b[..|a|];
  }

  /** Whatever the count, the selection is a prefix of the shuffled pool: `slice(0, count)`. */
  lemma PickIsSlice<T>(pool: seq<T>, count: int, rand: seq<int>)
    ensures Pick(pool, count, rand) == Shuffled(pool, rand)[..|Pick(pool, count, rand)|]
  {
    var n := if count >= 0 then count else |pool| + count;
    var picked := Draws(pool, n, rand);
    var shuffled := Draws(pool, |pool|, rand);
    assert Pick(pool, count, rand) == picked;
    assert Shuffled(pool, rand) == shuffled;
    if n <= |pool| {
      DrawsPrefix(pool, n, |pool|, rand);
      assert picked == shuffled[..|picked|];
    } else {
      DrawsPrefix(pool, |pool|, n, rand);
      assert shuffled == picked[..|shuffled|];
      assert |picked| == |shuffled|;
    }
  }

  /** A stream starting with a valid position `k` draws `pool[k]` first. */
  lemma PickFirst<T>(pool: seq<T>, count: int, k: nat, tail: seq<int>)
    requires 0 <= k < |pool| && count >= 1
    ensures Pick(pool, count, [k] + tail) == [pool[k]] + Pick(RemoveAt(pool, k), count - 1, tail)
  {
    var rand := [k] + tail;
    assert Draw(rand, |pool|) == k;
    assert Advance(rand) == tail;
  }

  /** Asking for at least the whole pool gives a permutation of it. */
  lemma PickAllIsPermutation<T>(pool: seq<T>, count: int, rand: seq<int>)
    requires count >= |pool|
    ensures multiset(Pick(pool, count, rand)) == multiset(pool)
  {
    var r := Pick(pool, count, rand);
    assert |multiset(r)| == |multiset(pool)|;
    MultisetSubsetSameSize(multiset(r), multiset(pool));
  }

  lemma MultisetSubsetSameSize<T>(a: multiset<T>, b: multiset<T>)
    requires a <= b && |a| == |b|
    ensures a == b
  {
    var d := b - a;
    assert b == a + d;
    assert |d| == 0;
  }

  // ---------------------------------------------------------------------------
  // Proofs: sizing
  // ---------------------------------------------------------------------------

  /** The deload keeps at least one set and never adds any; it takes away at least one set from two or more. */
  lemma DeloadBounds(sets: int)
    requires sets >= 1
    ensures 1 <= ApplyDeload(sets) <= sets
    ensures sets >= 2 ==> ApplyDeload(sets) < sets
  {
  }

  /** The integer form agrees with flooring the exact product `sets * 0.7`. */
  lemma DeloadIsFlooredProduct(sets: int)
    ensures ApplyDeload(sets) == if (sets as real * 0.7).Floor > 1 then (sets as real * 0.7).Floor else 1
  {
    var q := (7 * sets) / 10;
    var m := (7 * sets) % 10;
    assert 7 * sets == 10 * q + m && 0 <= m < 10;
    assert sets as real * 0.7 == q as real + m as real / 10.0;
  }

  /** The values the deload takes on the set counts that occur (baseSets is 2 to 4). */
  lemma DeloadValues()
    ensures ApplyDeload(1) == 1 && ApplyDeload(2) == 1 && ApplyDeload(3) == 2
    ensures ApplyDeload(4) == 2 && ApplyDeload(5) == 3
  {
  }

  /** Item sets are min(goal sets, max sets) in normal weeks, and fewer (but at least one) in deload weeks. */
  lemma ItemSetsBounds(g: Goal, b: AgeBand, weekIndex: int)
    ensures var baseSets := if GoalDefaults(g).sets < AgeAdjustments(b).maxSets
                            then GoalDefaults(g).sets else AgeAdjustments(b).maxSets;
            && 2 <= baseSets <= 4
            && (!IsDeload(weekIndex) ==> ItemSets(GoalDefaults(g), AgeAdjustments(b), false) == baseSets)
            && 1 <= ItemSets(GoalDefaults(g), AgeAdjustments(b), IsDeload(weekIndex)) <= baseSets
            && (IsDeload(weekIndex) ==> ItemSets(GoalDefaults(g), AgeAdjustments(b), true) < baseSets)
  {
    var baseSets := if GoalDefaults(g).sets < AgeAdjustments(b).maxSets
                    then GoalDefaults(g).sets else AgeAdjustments(b).maxSets;
    DeloadBounds(baseSets);
  }

  // ---------------------------------------------------------------------------
  // Proofs: duration estimate
  // ---------------------------------------------------------------------------

  /** `Math.round(seconds / 60)` is integer arithmetic on the seconds. */
  lemma RoundMinutes(seconds: int)
    ensures Round(seconds as real / 60.0) == (seconds + 30) / 60
  {
    var q := (seconds + 30) / 60;
    var m := (seconds + 30) % 60;
    assert seconds + 30 == 60 * q + m && 0 <= m < 60;
    assert seconds as real / 60.0 + 0.5 == q as real + m as real / 60.0;
  }

  /** An empty day takes no time, within any positive session length. */
  lemma EmptyDayMinutes(sessionMinutes: int)
    requires sessionMinutes >= 0
    ensures TotalMinutes(sessionMinutes, []) == 0
  {
  }

  /** The digit run at the front of `a + rest` is `a` when `rest` does not go on with a digit. */
  lemma {:induction false} DigitRunLengthOf(a: string, rest: string)
    requires AllDigits(a) && (rest == [] || !IsDigit(rest[0]))
    ensures DigitRunLength(a + rest) == |a|
    decreases |a|
  {
    if a == [] {
      assert a + rest == rest;
    } else {
      assert (a + rest)[1..] == a[1..] + rest;
      DigitRunLengthOf(a[1..], rest);
    }
  }

  /** A leading run of digits contributes its value and the scan goes on after it. */
  lemma DigitRunsFront(a: string, rest: string)
    requires a != [] && AllDigits(a) && (rest == [] || !IsDigit(rest[0]))
    ensures DigitRuns(a + rest) == [ParseDigits(a)] + DigitRuns(rest)
  {
    DigitRunLengthOf(a, rest);
    var s := a + rest;
    assert s[..|a|] == a && s[|a|..] == rest;
  }

  /** A range "a-b", possibly followed by "s", yields the numbers a and b. */
  lemma RangeRuns(a: string, b: string, t: string)
    requires a != [] && AllDigits(a) && b != [] && AllDigits(b)
    requires t == [] || t == "s"
    ensures DigitRuns(a + "-" + b + t) == [ParseDigits(a), ParseDigits(b)]
  {
    var u := "-" + (b + t);
    assert a + "-" + b + t == a + u;
    DigitRunsFront(a, u);
    DigitRunsSkip('-', b + t);
    DigitRunsFront(b, t);
    NoRunsInSuffix(t);
  }

  /** A character that is not a digit starts no run. */
  lemma DigitRunsSkip(c: char, rest: string)
    requires !IsDigit(c)
    ensures DigitRuns([c] + rest) == DigitRuns(rest)
  {
    assert ([c] + rest)[1..] == rest;
  }

  /** The optional "s" of a timed hold holds no number. */
  lemma NoRunsInSuffix(t: string)
    requires t == [] || t == "s"
    ensures DigitRuns(t) == []
  {
    if t != [] {
      assert t[1..] == [];
    }
  }

  /** A numeral holds no letter "s". */
  lemma NumeralHasNoS(x: string)
    requires AllDigits(x)
    ensures 's' !in x
  {
  }

  /** A range "a-b" averages to the rounded mean of a and b, and is a timed hold exactly when followed by "s". */
  lemma RangePerSet(a: string, b: string, t: string)
    requires a != [] && AllDigits(a) && b != [] && AllDigits(b)
    requires t == [] || t == "s"
    ensures AverageReps(a + "-" + b + t) == (ParseDigits(a) + ParseDigits(b) + 1) / 2
    ensures 's' in (a + "-" + b + t) <==> t == "s"
  {
    var s := a + "-" + b + t;
    assert AverageReps(s) == (ParseDigits(a) + ParseDigits(b) + 1) / 2 by {
      RangeRuns(a, b, t);
    }
    assert 's' in s <==> t == "s" by {
      NumeralHasNoS(a);
      NumeralHasNoS(b);
      assert 's' !in "-";
    }
  }

  // ---------------------------------------------------------------------------
  // Proofs: the generated plan
  // ---------------------------------------------------------------------------

  /** The day count: the split's length for 2 to 6 days a week, three days otherwise. */
  lemma PlanDayCount(exercises: seq<Exercise>, profile: Profile, ageBand: AgeBand, weekIndex: int,
                     blocked: seq<int>, rand: seq<seq<int>>)
    ensures var plan := GeneratePlan(exercises, profile, ageBand, weekIndex, blocked, rand);
            |plan.days| == if 2 <= profile.daysPerWeek <= 6 then profile.daysPerWeek else 3
  {
  }

  /** Neither SKILL nor MOBILITY is scheduled on any day of any split. */
  lemma SplitsTrainFourPatterns(daysPerWeek: int, i: int)
    requires 0 <= i < |PatternsByDay(daysPerWeek)|
    ensures Pattern.SKILL !in PatternsByDay(daysPerWeek)[i]
    ensures Pattern.MOBILITY !in PatternsByDay(daysPerWeek)[i]
  {
  }

  /** Day `i` is titled "Día i+1" and its focus is its patterns' labels joined with " + ", which translating leaves unchanged. */
  lemma PlanDayHeading(exercises: seq<Exercise>, profile: Profile, ageBand: AgeBand, weekIndex: int,
                       blocked: seq<int>, rand: seq<seq<int>>, i: int)
    requires 0 <= i < |PatternsByDay(profile.daysPerWeek)|
    ensures var day := GeneratePlan(exercises, profile, ageBand, weekIndex, blocked, rand).days[i];
            var patterns := PatternsByDay(profile.daysPerWeek)[i];
            && day.title == "Día " + NatToString(i + 1)
            && day.focus == Join(seq(|patterns|, k requires 0 <= k < |patterns| => PatternLabel(patterns[k])), " + ")
            && TranslateFocus(day.focus) == day.focus
  {
    var patterns := PatternsByDay(profile.daysPerWeek)[i];
    TranslateLabelsFixed(patterns);
  }

  /**
   * Every item of day `i`: its exercise is an eligible catalog exercise for that
   * day's patterns; its sets, reps and rest follow the goal and age tables.
   */
  lemma PlanItemRules(exercises: seq<Exercise>, profile: Profile, ageBand: AgeBand, weekIndex: int,
                      blocked: seq<int>, rand: seq<seq<int>>, i: int, j: int)
    requires 0 <= i < |PatternsByDay(profile.daysPerWeek)|
    requires 0 <= j < |GeneratePlan(exercises, profile, ageBand, weekIndex, blocked, rand).days[i].items|
    ensures var patterns := PatternsByDay(profile.daysPerWeek)[i];
            var item := GeneratePlan(exercises, profile, ageBand, weekIndex, blocked, rand).days[i].items[j];
            var goal := GoalDefaults(profile.goal);
            var age := AgeAdjustments(ageBand);
            && (exists e :: e in exercises && e.id == item.exerciseId &&
                  Eligible(e, patterns, ageBand, profile.level, profile.equipment, profile.injuries, blocked))
            && item.sets == ItemSets(goal, age, IsDeload(weekIndex))
            && item.reps == goal.reps
            && item.restSeconds == goal.restSeconds + age.restBonus
  {
    var patterns := PatternsByDay(profile.daysPerWeek)[i];
    var pool := DayPool(exercises, profile, ageBand, blocked, patterns);
    var sel := Selections(exercises, profile, ageBand, blocked, patterns, DayStream(rand, i));
    PickSound(pool, TargetExercises(profile.sessionMinutes), DayStream(rand, i), sel[j]);
    assert sel[j] in sel;
  }

  /** Day `i`'s items are, in order, the exercises drawn from that day's pool, none more often than it occurs there. */
  lemma PlanDayDraws(exercises: seq<Exercise>, profile: Profile, ageBand: AgeBand, weekIndex: int,
                     blocked: seq<int>, rand: seq<seq<int>>, i: int)
    requires 0 <= i < |PatternsByDay(profile.daysPerWeek)|
    ensures var patterns := PatternsByDay(profile.daysPerWeek)[i];
            var sel := Selections(exercises, profile, ageBand, blocked, patterns, DayStream(rand, i));
            var items := GeneratePlan(exercises, profile, ageBand, weekIndex, blocked, rand).days[i].items;
            && multiset(sel) <= multiset(DayPool(exercises, profile, ageBand, blocked, patterns))
            && |items| == |sel|
            && forall j :: 0 <= j < |items| ==> items[j].exerciseId == sel[j].id
  {
  }

  /** Items per day: at most 5 / 4 / 3 for sessions of 45+ / 30+ / fewer minutes, exactly that many when the pool has enough. */
  lemma PlanItemCount(exercises: seq<Exercise>, profile: Profile, ageBand: AgeBand, weekIndex: int,
                      blocked: seq<int>, rand: seq<seq<int>>, i: int)
    requires 0 <= i < |PatternsByDay(profile.daysPerWeek)|
    ensures var patterns := PatternsByDay(profile.daysPerWeek)[i];
            var pool := DayPool(exercises, profile, ageBand, blocked, patterns);
            var n := |GeneratePlan(exercises, profile, ageBand, weekIndex, blocked, rand).days[i].items|;
            var target := TargetExercises(profile.sessionMinutes);
            && n <= target
            && n <= |pool|
            && (|pool| >= target ==> n == target)
            && (|pool| < target ==> n == |pool|)
            && target == (if profile.sessionMinutes >= 45 then 5 else if profile.sessionMinutes >= 30 then 4 else 3)
  {
  }

  /** A day's total minutes never exceed the session length, and an empty day totals 0 minutes. */
  lemma PlanMinutes(exercises: seq<Exercise>, profile: Profile, ageBand: AgeBand, weekIndex: int,
                    blocked: seq<int>, rand: seq<seq<int>>, i: int)
    requires 0 <= i < |PatternsByDay(profile.daysPerWeek)|
    requires profile.sessionMinutes >= 0
    ensures var day := GeneratePlan(exercises, profile, ageBand, weekIndex, blocked, rand).days[i];
            && day.totalMinutes <= profile.sessionMinutes
            && day.totalMinutes == (if profile.sessionMinutes < (EstimateSeconds(day.items) + 30) / 60
                                    then profile.sessionMinutes else (EstimateSeconds(day.items) + 30) / 60)
            && (day.items == [] ==> day.totalMinutes == 0)
  {
    var day := GeneratePlan(exercises, profile, ageBand, weekIndex, blocked, rand).days[i];
    RoundMinutes(EstimateSeconds(day.items));
  }

  // ---------------------------------------------------------------------------
  // The cases of src/lib/planner.test.ts
  // ---------------------------------------------------------------------------

  /** `baseExercise` with the given id and contraindications. */
  function TestExercise(id: int, contraindications: seq<Tag>): Exercise
  {
    Exercise(id, "Push-up", PUSH, BEGINNER, [], contraindications, false)
  }

  /** `baseProfile` with the given session length and injuries. */
  function TestProfile(sessionMinutes: int, injuries: seq<Tag>): Profile
  {
    Profile(BEGINNER, HYPERTROPHY, 3, sessionMinutes, ["NONE"], injuries)
  }

  /** "filters out contraindicated exercises": whatever the shuffle does, exercise 1 never appears. */
  lemma TestFiltersContraindicated(rand: seq<seq<int>>, i: int, j: int)
    requires var plan := GeneratePlan([TestExercise(1, ["wrist"]), TestExercise(2, [])],
                                      TestProfile(20, ["wrist"]), REBUILD, 1, [], rand);
             0 <= i < |plan.days| && 0 <= j < |plan.days[i].items|
    ensures GeneratePlan([TestExercise(1, ["wrist"]), TestExercise(2, [])],
                         TestProfile(20, ["wrist"]), REBUILD, 1, [], rand).days[i].items[j].exerciseId != 1
  {
    var exercises := [TestExercise(1, ["wrist"]), TestExercise(2, [])];
    var profile := TestProfile(20, ["wrist"]);
    PlanItemRules(exercises, profile, REBUILD, 1, [], rand, i, j);
    var patterns := PatternsByDay(profile.daysPerWeek)[i];
    assert !Eligible(exercises[0], patterns, REBUILD, profile.level, profile.equipment, profile.injuries, []) by {
      assert "wrist" in exercises[0].contraindications;
    }
  }

  /**
   * "adjusts exercise count for session time", for any catalog that, like the
   * test's five push-ups, holds three distinct eligible push exercises: a
   * session under 30 minutes gets exactly three items on the first day.
   */
  lemma TestSessionTimeCount(exercises: seq<Exercise>, profile: Profile, ageBand: AgeBand, weekIndex: int,
                             rand: seq<seq<int>>)
    requires profile.daysPerWeek == 3 && profile.sessionMinutes < 30
    requires |exercises| >= 3
    requires forall a, b :: 0 <= a < b < 3 ==> exercises[a] != exercises[b]
    requires forall k :: 0 <= k < 3 ==> Eligible(exercises[k], [PUSH], ageBand, profile.level,
                                                 profile.equipment, profile.injuries, [])
    ensures var plan := GeneratePlan(exercises, profile, ageBand, weekIndex, [], rand);
            |plan.days| == 3 && |plan.days[0].items| == 3
  {
    PlanItemCount(exercises, profile, ageBand, weekIndex, [], rand, 0);
    var pool := DayPool(exercises, profile, ageBand, [], [PUSH]);
    assert PatternsByDay(3)[0] == [PUSH];
    forall k | 0 <= k < 3 ensures exercises[k] in pool {
      assert exercises[k] in exercises;
    }
    PoolSize(pool, exercises);
  }

  /** Three distinct elements in a list make it at least three long. */
  lemma PoolSize(pool: seq<Exercise>, exercises: seq<Exercise>)
    requires |exercises| >= 3
    requires forall k :: 0 <= k < 3 ==> exercises[k] in pool
    requires forall a, b :: 0 <= a < b < 3 ==> exercises[a] != exercises[b]
    ensures |pool| >= 3
  {
    var three := multiset{exercises[0], exercises[1], exercises[2]};
    assert three <= multiset(pool) by {
      assert exercises[0] in multiset(pool) && exercises[1] in multiset(pool) && exercises[2] in multiset(pool);
    }
    var rest := multiset(pool) - three;
    assert multiset(pool) == three + rest;
  }

  /**
   * "applies deload on week 4", for any catalog: a hypertrophy plan for the
   * BUILD band in a deload week gives every item two sets, fewer than three.
   */
  lemma TestDeloadWeekFour(exercises: seq<Exercise>, profile: Profile, weekIndex: int, blocked: seq<int>,
                           rand: seq<seq<int>>, i: int, j: int)
    requires profile.goal == HYPERTROPHY && IsDeload(weekIndex)
    requires 0 <= i < |PatternsByDay(profile.daysPerWeek)|
    requires 0 <= j < |GeneratePlan(exercises, profile, BUILD, weekIndex, blocked, rand).days[i].items|
    ensures GeneratePlan(exercises, profile, BUILD, weekIndex, blocked, rand).days[i].items[j].sets == 2
  {
    PlanItemRules(exercises, profile, BUILD, weekIndex, blocked, rand, i, j);
  }
}
