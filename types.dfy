/**
 * The closed string unions of src/lib/types.ts (also the enums of src/db/schema.ts),
 * with the spelling each tag has in the TypeScript sources.
 */
module Types {

  datatype Pattern = PUSH | PULL | LEGS | CORE | SKILL | MOBILITY

  /** Used both for a user's level and for an exercise's difficulty. */
  datatype Level = BEGINNER | INTERMEDIATE | ADVANCED

  datatype Goal = FAT_LOSS | STRENGTH | HYPERTROPHY | MOBILITY | SKILL

  datatype AgeBand = TEEN | PRIME | BUILD | REBUILD | STRONG50 | ACTIVE60

  /** Every pattern, in declaration order. */
  const AllPatterns: seq<Pattern> := [PUSH, PULL, LEGS, CORE, Pattern.SKILL, Pattern.MOBILITY]

  /** The key a pattern has in the source's records ("PUSH", ...). */
  function PatternKey(p: Pattern): string
  {
    match p
    case PUSH => "PUSH"
    case PULL => "PULL"
    case LEGS => "LEGS"
    case CORE => "CORE"
    case SKILL => "SKILL"
    case MOBILITY => "MOBILITY"
  }

  /** The string tag of an age band ("TEEN", ...). */
  function AgeBandName(b: AgeBand): string
  {
    match b
    case TEEN => "TEEN"
    case PRIME => "PRIME"
    case BUILD => "BUILD"
    case REBUILD => "REBUILD"
    case STRONG50 => "STRONG50"
    case ACTIVE60 => "ACTIVE60"
  }

  /**
   * Equipment tags ("NONE", "PULLUP_BAR", "RINGS", "PARALLETTES", "BANDS", "DIPS_BAR")
   * and injury tags ("wrist", "shoulder", "elbow", "lower_back", "knee") are compared
   * as plain strings by the planner, so they stay strings here.
   */
  type Tag = string
}
