/**
 * Age in whole years and age bands (src/lib/ageBand.ts).
 * A calendar date is a (year, month, day) triple with the month counted from
 * 0 as `Date.prototype.getMonth` does; the time of day is not part of it.
 */
module AgeBands {
  import opened Types

  datatype Date = Date(year: int, month: int, day: int)

  /** Leap years of the proleptic Gregorian calendar that `Date` uses. */
  predicate IsLeapYear(y: int) {
    (y % 4 == 0 && y % 100 != 0) || y % 400 == 0
  }

  function DaysInMonth(y: int, m: int): (n: int)
    requires 0 <= m <= 11
    ensures 28 <= n <= 31
  {
    if m == 1 then (if IsLeapYear(y) then 29 else 28)
    else if m == 3 || m == 5 || m == 8 || m == 10 then 30
    else 31
  }

  predicate ValidDate(d: Date) {
    0 <= d.month <= 11 && 1 <= d.day <= DaysInMonth(d.year, d.month)
  }

  /** Number of days in the months of year `y` before month `m`. */
  function DaysBeforeMonth(y: int, m: int): int
    requires 0 <= m <= 12
  {
    if m == 0 then 0 else DaysBeforeMonth(y, m - 1) + DaysInMonth(y, m - 1)
  }

  /** Position of a date within its year, counting January 1 as 1. */
  function DayOfYear(d: Date): int
    requires 0 <= d.month <= 11
  {
    DaysBeforeMonth(d.year, d.month) + d.day
  }

  /** Chronological order on dates (`today < other` on two local midnights). */
  predicate Before(a: Date, b: Date) {
    a.year < b.year
    || (a.year == b.year && a.month < b.month)
    || (a.year == b.year && a.month == b.month && a.day < b.day)
  }

  /**
   * `new Date(y, m, d)` for a month 0..11 and a day 1..31: a day past the end of
   * the month rolls over into the next one, as February 29 does in a common year.
   */
  function MakeDate(y: int, m: int, d: int): (r: Date)
    requires 0 <= m <= 11 && 1 <= d <= 31
    ensures ValidDate(r) && r.year == y
    ensures DayOfYear(r) == DaysBeforeMonth(y, m) + d
  {
    if d <= DaysInMonth(y, m) then Date(y, m, d)
    else Date(y, m + 1, d - DaysInMonth(y, m))
  }

  /** The birthday of `birth` in year `y`, as `calculateAgeBand` builds it. */
  function Anniversary(birth: Date, y: int): (r: Date)
    requires ValidDate(birth)
    ensures ValidDate(r) && r.year == y
  {
    MakeDate(y, birth.month, birth.day)
  }

  /** The age expression of `calculateAgeBand`. */
  function AgeAt(birth: Date, today: Date): int
    requires ValidDate(birth)
  {
    today.year - birth.year - (if Before(today, Anniversary(birth, today.year)) then 1 else 0)
  }

  /** The threshold chain. */
  function BandOf(age: int): (r: AgeBand)
    ensures r == TEEN <==> age <= 17
    ensures r == PRIME <==> 18 <= age <= 29
    ensures r == BUILD <==> 30 <= age <= 39
    ensures r == REBUILD <==> 40 <= age <= 49
    ensures r == STRONG50 <==> 50 <= age <= 59
    ensures r == ACTIVE60 <==> 60 <= age
  {
    if age <= 17 then TEEN
    else if age <= 29 then PRIME
    else if age <= 39 then BUILD
    else if age <= 49 then REBUILD
    else if age <= 59 then STRONG50
    else ACTIVE60
  }

  /** `calculateAgeBand(birthDate, today)`. */
  function CalculateAgeBand(birth: Date, today: Date): AgeBand
    requires ValidDate(birth)
  {
    BandOf(AgeAt(birth, today))
  }

  /** `ageBandLabels`. */
  function AgeBandLabel(b: AgeBand): (r: string)
    ensures r == AgeBandName(b)
  {
    match b
    case TEEN => "TEEN"
    case PRIME => "PRIME"
    case BUILD => "BUILD"
    case REBUILD => "REBUILD"
    case STRONG50 => "STRONG50"
    case ACTIVE60 => "ACTIVE60"
  }

  /** Position of a band in the order of the thresholds. */
  function Rank(b: AgeBand): nat
  {
    match b
    case TEEN => 0
    case PRIME => 1
    case BUILD => 2
    case REBUILD => 3
    case STRONG50 => 4
    case ACTIVE60 => 5
  }

  // ---------------------------------------------------------------------------
  // Proofs
  // ---------------------------------------------------------------------------

  /** Distinct bands have distinct labels. */
  lemma LabelsDistinct(a: AgeBand, b: AgeBand)
    ensures AgeBandLabel(a) == AgeBandLabel(b) <==> a == b
  {
  }

  /** A larger age never gives an earlier band. */
  lemma BandMonotone(a1: int, a2: int)
    requires a1 <= a2
    ensures Rank(BandOf(a1)) <= Rank(BandOf(a2))
  {
  }

  /** Birthdays in different years are ordered by their years. */
  lemma AnniversaryOrder(birth: Date, y1: int, y2: int)
    requires ValidDate(birth) && y1 < y2
    ensures Before(Anniversary(birth, y1), Anniversary(birth, y2))
  {
  }

  lemma BeforeTransitive(a: Date, b: Date, c: Date)
    requires Before(a, b) && Before(b, c)
    ensures Before(a, c)
  {
  }

  /**
   * The age is the number of birthdays that have passed: the birthday in year
   * `birth.year + age` is on or before today and the next one is after today.
   */
  lemma AgeIsCompletedYears(birth: Date, today: Date)
    requires ValidDate(birth)
    ensures var age := AgeAt(birth, today);
            && !Before(today, Anniversary(birth, birth.year + age))
            && Before(today, Anniversary(birth, birth.year + age + 1))
  {
    var thisYear := Anniversary(birth, today.year);
    if Before(today, thisYear) {
      assert birth.year + AgeAt(birth, today) + 1 == today.year;
    } else {
      assert birth.year + AgeAt(birth, today) == today.year;
    }
  }

  /** "Not before" is transitive. */
  lemma NotBeforeTransitive(a: Date, b: Date, c: Date)
    requires !Before(a, b) && !Before(b, c)
    ensures !Before(a, c)
  {
  }

  /** A later year's birthday is never before an earlier year's. */
  lemma AnniversaryNotBefore(birth: Date, y1: int, y2: int)
    requires ValidDate(birth) && y1 <= y2
    ensures !Before(Anniversary(birth, y2), Anniversary(birth, y1))
  {
  }

  /** That characterisation determines the age. */
  lemma AgeUnique(birth: Date, today: Date, k: int)
    requires ValidDate(birth)
    requires !Before(today, Anniversary(birth, birth.year + k))
    requires Before(today, Anniversary(birth, birth.year + k + 1))
    ensures k == AgeAt(birth, today)
  {
    var age := AgeAt(birth, today);
    AgeIsCompletedYears(birth, today);
    if k > age {
      AnniversaryNotBefore(birth, birth.year + age + 1, birth.year + k);
      NotBeforeTransitive(today, Anniversary(birth, birth.year + k), Anniversary(birth, birth.year + age + 1));
    }
  }

  /** The age goes up on the birthday itself. */
  lemma AgeOnBirthday(birth: Date, y: int)
    requires ValidDate(birth)
    ensures AgeAt(birth, Anniversary(birth, y)) == y - birth.year
  {
  }

  /** Later days never give a smaller age. */
  lemma AgeMonotone(birth: Date, t1: Date, t2: Date)
    requires ValidDate(birth)
    requires !Before(t2, t1)
    ensures AgeAt(birth, t1) <= AgeAt(birth, t2)
  {
    var a1 := AgeAt(birth, t1);
    var a2 := AgeAt(birth, t2);
    AgeIsCompletedYears(birth, t1);
    AgeIsCompletedYears(birth, t2);
    if a1 > a2 {
      if a2 + 1 < a1 {
        AnniversaryOrder(birth, birth.year + a2 + 1, birth.year + a1);
      }
    }
  }

  /** The first case of src/lib/ageBand.test.ts: 17 years old, the birthday of 2026 not yet reached. */
  lemma TestedTeen()
    ensures AgeAt(Date(2008, 1, 1), Date(2026, 0, 25)) == 17
    ensures CalculateAgeBand(Date(2008, 1, 1), Date(2026, 0, 25)) == TEEN
  {
  }

  /** The other five cases of src/lib/ageBand.test.ts, with today 2026-01-25 and births on January 1. */
  lemma TestedBands()
    ensures CalculateAgeBand(Date(2000, 0, 1), Date(2026, 0, 25)) == PRIME
    ensures CalculateAgeBand(Date(1990, 0, 1), Date(2026, 0, 25)) == BUILD
    ensures CalculateAgeBand(Date(1980, 0, 1), Date(2026, 0, 25)) == REBUILD
    ensures CalculateAgeBand(Date(1970, 0, 1), Date(2026, 0, 25)) == STRONG50
    ensures CalculateAgeBand(Date(1960, 0, 1), Date(2026, 0, 25)) == ACTIVE60
  {
  }
}
