/**
 * The seed script (scripts/seed.ts): the exercise catalog and progression
 * table as data, the defaults applied when a catalog entry becomes an
 * `exercises` row, and the expansion of each progression pair into a
 * PROGRESSION row and its reverse REGRESSION row.
 *
 * The database is outside the model: the ids it assigns on insertion are a
 * parameter (`inserted`, name and id per row in insertion order).
 */
module Seed {
  import opened Types
  import opened Optional
  import Media

  /** `SeedExercise`: optional fields are `None` when the entry leaves them out. */
  datatype SeedExercise = SeedExercise(
    name: string,
    pattern: Pattern,
    difficulty: Level,
    equipment: Option<seq<Tag>>,
    contraindications: Option<seq<Tag>>,
    isAdvancedSkill: Option<bool>)

  /** The values inserted into `exercises` for one catalog entry. */
  datatype ExerciseRow = ExerciseRow(
    name: string,
    pattern: Pattern,
    difficulty: Level,
    mediaUrl: string,
    thumbnail: string,
    cues: seq<string>,
    errors: seq<string>,
    contraindications: seq<Tag>,
    equipment: seq<Tag>,
    isAdvancedSkill: bool)

  datatype Relation = PROGRESSION | REGRESSION

  /** One `exercise_progressions` row. */
  datatype ProgressionRow = ProgressionRow(fromExerciseId: int, toExerciseId: int, relation: Relation, orderIndex: int)

  // ---------------------------------------------------------------------------
  // Data
  // ---------------------------------------------------------------------------

  /** `mediaByPattern`. */
  function MediaByPattern(p: Pattern): Media.Media
  {
    match p
    case PUSH => Media.Media("/exercises/push.svg", "/exercises/push.svg")
    case PULL => Media.Media("/exercises/pull.svg", "/exercises/pull.svg")
    case LEGS => Media.Media("/exercises/legs.svg", "/exercises/legs.svg")
    case CORE => Media.Media("/exercises/core.svg", "/exercises/core.svg")
    case SKILL => Media.Media("/exercises/skill.svg", "/exercises/skill.svg")
    case MOBILITY => Media.Media("/exercises/mobility.svg", "/exercises/mobility.svg")
  }

  const BaseCues: seq<string> := ["Columna neutra y controlada", "Respira y mantén tensión estable"]

  const BaseErrors: seq<string> := ["Rango incompleto", "Pérdida de tensión central"]

  /** `exercisesSeed`. */
  const ExercisesSeed: seq<SeedExercise> := [
    SeedExercise("Wall Push-up", PUSH, BEGINNER, None, None, None),
    SeedExercise("Incline Push-up", PUSH, BEGINNER, None, None, None),
    SeedExercise("Knee Push-up", PUSH, BEGINNER, None, None, None),
    SeedExercise("Standard Push-up", PUSH, BEGINNER, None, None, None),
    SeedExercise("Decline Push-up", PUSH, INTERMEDIATE, None, None, None),
    SeedExercise("Archer Push-up", PUSH, ADVANCED, None, None, None),
    SeedExercise("Pseudo Planche Push-up", PUSH, ADVANCED, None, Some(["wrist"]), Some(true)),
    SeedExercise("Pike Push-up", PUSH, INTERMEDIATE, None, None, None),
    SeedExercise("Elevated Pike Push-up", PUSH, ADVANCED, None, None, None),
    SeedExercise("Handstand Hold", Pattern.SKILL, ADVANCED, None, Some(["wrist", "shoulder"]), Some(true)),
    SeedExercise("Bench Dip", PUSH, BEGINNER, None, Some(["shoulder"]), None),
    SeedExercise("Dips Support Hold", PUSH, INTERMEDIATE, Some(["DIPS_BAR"]), Some(["shoulder"]), None),
    SeedExercise("Dip", PUSH, INTERMEDIATE, Some(["DIPS_BAR"]), Some(["shoulder"]), None),
    SeedExercise("Ring Push-up", PUSH, INTERMEDIATE, Some(["RINGS"]), None, None),
    SeedExercise("Ring Dip", PUSH, ADVANCED, Some(["RINGS"]), Some(["shoulder"]), Some(true)),
    SeedExercise("Close-Grip Push-up", PUSH, INTERMEDIATE, None, None, None),
    SeedExercise("Wide Push-up", PUSH, INTERMEDIATE, None, None, None),
    SeedExercise("Diamond Push-up", PUSH, ADVANCED, None, None, None),
    SeedExercise("Explosive Push-up", PUSH, ADVANCED, None, None, Some(true)),
    SeedExercise("Scapular Push-up", PUSH, BEGINNER, None, None, None),
    SeedExercise("Dead Hang", PULL, BEGINNER, None, None, None),
    SeedExercise("Scapular Pull-up", PULL, BEGINNER, Some(["PULLUP_BAR"]), None, None),
    SeedExercise("Assisted Pull-up", PULL, BEGINNER, Some(["PULLUP_BAR", "BANDS"]), None, None),
    SeedExercise("Negative Pull-up", PULL, INTERMEDIATE, Some(["PULLUP_BAR"]), None, None),
    SeedExercise("Pull-up", PULL, INTERMEDIATE, Some(["PULLUP_BAR"]), None, None),
    SeedExercise("Chin-up", PULL, INTERMEDIATE, Some(["PULLUP_BAR"]), None, None),
    SeedExercise("Neutral Grip Pull-up", PULL, INTERMEDIATE, Some(["PULLUP_BAR"]), None, None),
    SeedExercise("Archer Pull-up", PULL, ADVANCED, Some(["PULLUP_BAR"]), None, Some(true)),
    SeedExercise("Inverted Row", PULL, BEGINNER, None, None, None),
    SeedExercise("Ring Row", PULL, BEGINNER, Some(["RINGS"]), None, None),
    SeedExercise("Australian Row", PULL, BEGINNER, None, None, None),
    SeedExercise("Towel Row", PULL, BEGINNER, None, Some(["shoulder"]), None),
    SeedExercise("Band Face Pull", PULL, BEGINNER, Some(["BANDS"]), None, None),
    SeedExercise("Band Pull-apart", PULL, BEGINNER, Some(["BANDS"]), None, None),
    SeedExercise("Ring Curl", PULL, INTERMEDIATE, Some(["RINGS"]), None, None),
    SeedExercise("Band Bicep Curl", PULL, BEGINNER, Some(["BANDS"]), None, None),
    SeedExercise("Air Squat", LEGS, BEGINNER, None, None, None),
    SeedExercise("Box Squat", LEGS, BEGINNER, None, None, None),
    SeedExercise("Split Squat", LEGS, BEGINNER, None, None, None),
    SeedExercise("Reverse Lunge", LEGS, BEGINNER, None, None, None),
    SeedExercise("Forward Lunge", LEGS, BEGINNER, None, None, None),
    SeedExercise("Bulgarian Split Squat", LEGS, INTERMEDIATE, None, None, None),
    SeedExercise("Step-up", LEGS, BEGINNER, None, None, None),
    SeedExercise("Single-leg RDL", LEGS, INTERMEDIATE, None, None, None),
    SeedExercise("Glute Bridge", LEGS, BEGINNER, None, None, None),
    SeedExercise("Hip Thrust", LEGS, INTERMEDIATE, None, None, None),
    SeedExercise("Calf Raise", LEGS, BEGINNER, None, None, None),
    SeedExercise("Wall Sit", LEGS, INTERMEDIATE, None, None, Some(true)),
    SeedExercise("Dead Bug", CORE, BEGINNER, None, None, None),
    SeedExercise("Hollow Hold", CORE, INTERMEDIATE, None, Some(["lower_back"]), Some(true)),
    SeedExercise("Plank", CORE, BEGINNER, None, None, None),
    SeedExercise("Side Plank", CORE, BEGINNER, None, None, None),
    SeedExercise("Bird Dog", CORE, BEGINNER, None, None, None),
    SeedExercise("Hanging Knee Raise", CORE, INTERMEDIATE, Some(["PULLUP_BAR"]), None, None),
    SeedExercise("Leg Raise", CORE, ADVANCED, Some(["PULLUP_BAR"]), None, None),
    SeedExercise("Reverse Crunch", CORE, BEGINNER, None, None, None),
    SeedExercise("Mountain Climber", CORE, BEGINNER, None, None, None),
    SeedExercise("Pallof Press", CORE, BEGINNER, Some(["BANDS"]), None, None),
    SeedExercise("Cat-Cow", Pattern.MOBILITY, BEGINNER, None, None, None),
    SeedExercise("Thoracic Rotation", Pattern.MOBILITY, BEGINNER, None, None, None),
    SeedExercise("Hip Flexor Stretch", Pattern.MOBILITY, BEGINNER, None, None, None),
    SeedExercise("Ankle Mobility Drill", Pattern.MOBILITY, BEGINNER, None, None, None),
    SeedExercise("Wrist Mobility Flow", Pattern.MOBILITY, BEGINNER, None, Some(["wrist"]), None),
    SeedExercise("Shoulder Dislocates", Pattern.MOBILITY, BEGINNER, Some(["BANDS"]), Some(["shoulder"]), None),
    SeedExercise("Scapular Wall Slide", Pattern.MOBILITY, BEGINNER, None, None, None),
    SeedExercise("Couch Stretch", Pattern.MOBILITY, BEGINNER, None, None, None),
    SeedExercise("90/90 Hip Switch", Pattern.MOBILITY, BEGINNER, None, None, None),
    SeedExercise("Hamstring Sweep", Pattern.MOBILITY, BEGINNER, None, None, None),
    SeedExercise("Cossack Squat", Pattern.MOBILITY, INTERMEDIATE, None, None, None),
    SeedExercise("Tuck Front Lever Hold", Pattern.SKILL, ADVANCED, Some(["PULLUP_BAR"]), Some(["shoulder", "elbow"]), Some(true)),
    SeedExercise("Tuck L-Sit", Pattern.SKILL, INTERMEDIATE, Some(["PARALLETTES"]), Some(["wrist"]), None),
    SeedExercise("Skin the Cat", Pattern.SKILL, ADVANCED, Some(["RINGS"]), Some(["shoulder"]), Some(true)),
    SeedExercise("Handstand Kick-up", Pattern.SKILL, ADVANCED, None, Some(["wrist", "shoulder"]), Some(true)),
    SeedExercise("Muscle-up", Pattern.SKILL, ADVANCED, Some(["PULLUP_BAR"]), Some(["shoulder", "elbow"]), Some(true)),
    SeedExercise("Planche Lean", Pattern.SKILL, ADVANCED, None, Some(["wrist", "shoulder"]), Some(true)),
    SeedExercise("Tuck Back Lever", Pattern.SKILL, ADVANCED, Some(["RINGS"]), Some(["shoulder", "elbow"]), Some(true))
  ]

  /** `progressions`: (easier, harder) pairs of exercise names. */
  const Progressions: seq<(string, string)> := [
    ("Wall Push-up", "Incline Push-up"),
    ("Incline Push-up", "Knee Push-up"),
    ("Knee Push-up", "Standard Push-up"),
    ("Standard Push-up", "Decline Push-up"),
    ("Decline Push-up", "Archer Push-up"),
    ("Archer Push-up", "Pseudo Planche Push-up"),
    ("Dead Hang", "Scapular Pull-up"),
    ("Scapular Pull-up", "Assisted Pull-up"),
    ("Assisted Pull-up", "Negative Pull-up"),
    ("Negative Pull-up", "Pull-up"),
    ("Pull-up", "Archer Pull-up"),
    ("Air Squat", "Box Squat"),
    ("Box Squat", "Split Squat"),
    ("Split Squat", "Bulgarian Split Squat"),
    ("Glute Bridge", "Hip Thrust"),
    ("Dead Bug", "Plank"),
    ("Plank", "Side Plank"),
    ("Tuck L-Sit", "Planche Lean")
  ]

  // ---------------------------------------------------------------------------
  // Exercise rows
  // ---------------------------------------------------------------------------

  /** The `exercisesSeed.map` callback. */
  function ToRow(e: SeedExercise): ExerciseRow
  {
    var media := MediaByPattern(e.pattern);
    ExerciseRow(e.name, e.pattern, e.difficulty, media.mediaUrl, media.thumbnail, BaseCues, BaseErrors,
                e.contraindications.GetOr([]), e.equipment.GetOr([]), e.isAdvancedSkill.GetOr(false))
  }

  // ---------------------------------------------------------------------------
  // Progression rows
  // ---------------------------------------------------------------------------

  /** `new Map(inserted.map((row) => [row.name, row.id]))`: a later row with the same name wins. */
  function NameToId(inserted: seq<(string, int)>): (m: map<string, int>)
    ensures forall name :: name in m <==> exists i :: 0 <= i < |inserted| && inserted[i].0 == name
    ensures forall name :: name in m ==> exists i :: 0 <= i < |inserted| && inserted[i] == (name, m[name])
    decreases |inserted|
  {
    if inserted == [] then map[]
    else
      var last := inserted[|inserted| - 1];
      var m := NameToId(inserted[..|inserted| - 1]);
      assert forall i :: 0 <= i < |inserted| - 1 ==> inserted[..|inserted| - 1][i] == inserted[i];
      m[last.0 := last.1]
  }

  /** `if (!fromId || !toId) return []`: both names are known and neither id is 0. */
  predicate Resolves(pair: (string, string), nameToId: map<string, int>)
  {
    pair.0 in nameToId && nameToId[pair.0] != 0 && pair.1 in nameToId && nameToId[pair.1] != 0
  }

  /** The `progressions.map` callback for the pair at `orderIndex`. */
  function PairRows(pair: (string, string), orderIndex: int, nameToId: map<string, int>): seq<ProgressionRow>
  {
    if !Resolves(pair, nameToId) then []
    else
      var fromId := nameToId[pair.0];
      var toId := nameToId[pair.1];
      [ProgressionRow(fromId, toId, PROGRESSION, orderIndex), ProgressionRow(toId, fromId, REGRESSION, orderIndex)]
  }

  /** `progressions.map(...).flat()`. */
  function ProgressionRows(pairs: seq<(string, string)>, nameToId: map<string, int>): (rows: seq<ProgressionRow>)
    ensures forall r :: r in rows ==> 0 <= r.orderIndex < |pairs|
    decreases |pairs|
  {
    if pairs == [] then []
    else
      var n := |pairs| - 1;
      ProgressionRows(pairs[..n], nameToId) + PairRows(pairs[n], n, nameToId)
  }

  /** The number of pairs whose two names resolve. */
  function ResolvedCount(pairs: seq<(string, string)>, nameToId: map<string, int>): nat
    decreases |pairs|
  {
    if pairs == [] then 0
    else ResolvedCount(pairs[..|pairs| - 1], nameToId) + (if Resolves(pairs[|pairs| - 1], nameToId) then 1 else 0)
  }

  /** The row a PROGRESSION row is paired with. */
  function Reverse(r: ProgressionRow): ProgressionRow
  {
    ProgressionRow(r.toExerciseId, r.fromExerciseId, if r.relation == PROGRESSION then REGRESSION else PROGRESSION,
                   r.orderIndex)
  }

  // ---------------------------------------------------------------------------
  // Proofs
  // ---------------------------------------------------------------------------

  /** The seed's media table is the app's pattern media table. */
  lemma MediaByPatternIsPatternMedia(p: Pattern)
    ensures MediaByPattern(p) == Media.PatternMedia(p)
  {
  }

  /** Omitted optional fields become an empty list, an empty list and `false`; given ones are kept. */
  lemma RowDefaults(e: SeedExercise)
    ensures var r := ToRow(e);
            && r.name == e.name && r.pattern == e.pattern && r.difficulty == e.difficulty
            && (e.equipment.None? ==> r.equipment == []) && (e.equipment.Some? ==> r.equipment == e.equipment.value)
            && (e.contraindications.None? ==> r.contraindications == [])
            && (e.contraindications.Some? ==> r.contraindications == e.contraindications.value)
            && (e.isAdvancedSkill.None? ==> !r.isAdvancedSkill)
            && (e.isAdvancedSkill.Some? ==> r.isAdvancedSkill == e.isAdvancedSkill.value)
            && r.mediaUrl == r.thumbnail == Media.PatternMedia(e.pattern).mediaUrl
            && r.cues == BaseCues && r.errors == BaseErrors
  {
    MediaByPatternIsPatternMedia(e.pattern);
  }

  /** Two rows per resolved pair, none for the others. */
  lemma {:induction false} RowCount(pairs: seq<(string, string)>, nameToId: map<string, int>)
    ensures |ProgressionRows(pairs, nameToId)| == 2 * ResolvedCount(pairs, nameToId)
    decreases |pairs|
  {
    if pairs != [] {
      RowCount(pairs[..|pairs| - 1], nameToId);
    }
  }

  /**
   * The rows are exactly, for every pair at index i whose names resolve, the
   * PROGRESSION row from the first exercise to the second and the REGRESSION
   * row back, both with order index i.
   */
  lemma {:induction false} RowMembership(pairs: seq<(string, string)>, nameToId: map<string, int>,
                                         r: ProgressionRow)
    ensures r in ProgressionRows(pairs, nameToId) <==>
            && 0 <= r.orderIndex < |pairs|
            && Resolves(pairs[r.orderIndex], nameToId)
            && (r.relation == PROGRESSION ==>
                  r.fromExerciseId == nameToId[pairs[r.orderIndex].0] && r.toExerciseId == nameToId[pairs[r.orderIndex].1])
            && (r.relation == REGRESSION ==>
                  r.fromExerciseId == nameToId[pairs[r.orderIndex].1] && r.toExerciseId == nameToId[pairs[r.orderIndex].0])
    decreases |pairs|
  {
    if pairs != [] {
      var n := |pairs| - 1;
      RowMembership(pairs[..n], nameToId, r);
      assert forall i :: 0 <= i < n ==> pairs[..n][i] == pairs[i];
    }
  }

  /** Every row's reverse is also a row: each REGRESSION mirrors a PROGRESSION and back. */
  lemma ReverseIsRow(pairs: seq<(string, string)>, nameToId: map<string, int>, r: ProgressionRow)
    requires r in ProgressionRows(pairs, nameToId)
    ensures Reverse(r) in ProgressionRows(pairs, nameToId)
    ensures Reverse(r).relation != r.relation && Reverse(Reverse(r)) == r
  {
    RowMembership(pairs, nameToId, r);
    RowMembership(pairs, nameToId, Reverse(r));
  }

  /** Rows come in pair order: order indices never decrease along the list. */
  lemma {:induction false} RowsInPairOrder(pairs: seq<(string, string)>, nameToId: map<string, int>, j: int, k: int)
    requires 0 <= j <= k < |ProgressionRows(pairs, nameToId)|
    ensures ProgressionRows(pairs, nameToId)[j].orderIndex <= ProgressionRows(pairs, nameToId)[k].orderIndex
    decreases |pairs|
  {
    var n := |pairs| - 1;
    var init := ProgressionRows(pairs[..n], nameToId);
    var rows := ProgressionRows(pairs, nameToId);
    if k < |init| {
      RowsInPairOrder(pairs[..n], nameToId, j, k);
    } else {
      assert rows[k] in PairRows(pairs[n], n, nameToId);
      if j < |init| {
        assert rows[j] in init;
      } else {
        assert rows[j] in PairRows(pairs[n], n, nameToId);
      }
    }
  }

  /** When every pair resolves, the count of resolved pairs is the number of pairs. */
  lemma {:induction false} AllResolved(pairs: seq<(string, string)>, nameToId: map<string, int>)
    requires forall k :: 0 <= k < |pairs| ==> Resolves(pairs[k], nameToId)
    ensures ResolvedCount(pairs, nameToId) == |pairs|
    decreases |pairs|
  {
    if pairs != [] {
      var n := |pairs| - 1;
      assert forall k :: 0 <= k < n ==> pairs[..n][k] == pairs[k];
      AllResolved(pairs[..n], nameToId);
    }
  }

  /** `new Map(entries)` keeps the last value given for a key. */
  lemma {:induction false} NameToIdLastWins(inserted: seq<(string, int)>, i: int)
    requires 0 <= i < |inserted|
    requires forall j :: i < j < |inserted| ==> inserted[j].0 != inserted[i].0
    ensures NameToId(inserted)[inserted[i].0] == inserted[i].1
    decreases |inserted|
  {
    var n := |inserted| - 1;
    if i < n {
      assert forall j :: i < j < n ==> inserted[..n][j] == inserted[j];
      NameToIdLastWins(inserted[..n], i);
    }
  }
}
