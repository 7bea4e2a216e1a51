/** Treatment duration (`calculate_time_years`). Dates are day numbers counted
    from 1970-01-01; the time of day that a parsed timestamp may carry is not
    modelled, so `(end - start).days` is a plain difference of day numbers. */
module Duration {
  import opened Wrappers

  predicate IsLeapYear(y: int) {
    y % 4 == 0 && (y % 100 != 0 || y % 400 == 0)
  }

  function DaysInMonth(y: int, m: int): nat
    requires 1 <= m <= 12
  {
    if m == 2 then (if IsLeapYear(y) then 29 else 28)
    else if m in {4, 6, 9, 11} then 30
    else 31
  }

  predicate IsDate(y: int, m: int, d: int) {
    1 <= m <= 12 && 1 <= d <= DaysInMonth(y, m)
  }

  /** Day number of a proleptic Gregorian date, day 0 being 1970-01-01. */
  function DayNumber(y: int, m: int, d: int): int
    requires IsDate(y, m, d)
  {
    var y' := if m <= 2 then y - 1 else y;
    var era := y' / 400;
    var yearOfEra := y' - era * 400;
    var dayOfYear := (153 * (if m > 2 then m - 3 else m + 9) + 2) / 5 + d - 1;
    var dayOfEra := yearOfEra * 365 + yearOfEra / 4 - yearOfEra / 100 + dayOfYear;
    era * 146097 + dayOfEra - 719468
  }

  /** The fixed report cutoff, 2025-12-31, used when no death date is known. */
  const Cutoff: int := DayNumber(2025, 12, 31)

  lemma CalendarAnchors()
    ensures DayNumber(1970, 1, 1) == 0
    ensures DayNumber(2024, 12, 31) + 1 == DayNumber(2025, 1, 1)
    ensures Cutoff == 20453
  {
  }

  /** Days per year used by the conversion. */
  const DaysPerYear: real := 365.25

  /** The end of the measured period: the death date if one is known, else the cutoff. */
  function EndDate(deathDate: Option<int>): int {
    match deathDate
    case Some(d) => d
    case None => Cutoff
  }

  /** `calculate_time_years` on the row's consult date and valid death date. */
  function TreatmentYears(consult: Option<int>, deathDate: Option<int>): (r: Option<real>)
    ensures r.None? <==> consult.None?
    ensures r.Some? ==> r.value >= 0.0
    ensures consult.Some? && consult.value > EndDate(deathDate) ==> r == Some(0.0)
    ensures consult.Some? && consult.value <= EndDate(deathDate) ==>
      r.Some? && r.value * DaysPerYear == (EndDate(deathDate) - consult.value) as real
  {
    match consult
    case None => None
    case Some(start) =>
      var end := EndDate(deathDate);
      if start > end then Some(0.0)
      else Some((end - start) as real / DaysPerYear)
  }

  /** A later first consult never gives a longer treatment time. */
  lemma TreatmentYearsAntitone(s1: int, s2: int, deathDate: Option<int>)
    requires s1 <= s2
    ensures TreatmentYears(Some(s2), deathDate).value <= TreatmentYears(Some(s1), deathDate).value
  {
  }

  /** A consult on 2020-01-01 of a living patient counts 2191 days up to the cutoff. */
  lemma LivingPatientExample()
    ensures TreatmentYears(Some(DayNumber(2020, 1, 1)), None) == Some(2191.0 / 365.25)
  {
  }

  /** A consult after the cutoff, or after the death date, gives zero years. */
  lemma ConsultAfterEndExample(deathDate: int)
    ensures TreatmentYears(Some(DayNumber(2026, 1, 1)), None) == Some(0.0)
    ensures TreatmentYears(Some(deathDate + 1), Some(deathDate)) == Some(0.0)
  {
  }
}
