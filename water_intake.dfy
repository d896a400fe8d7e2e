/** water_intake.py: the daily target from an age/gender baseline and a weight floor. */
module WaterIntake {

  /** The default daily litres: 2.1 (male) / 1.9 (anyone else) up to age 13,
      2.5 (male) / 2.0 (anyone else) from 14 on. */
  function Baseline(gender: string, age: int): (b: real)
    ensures 1.9 <= b <= 2.5
  {
    if age <= 13 then (if gender == "male" then 2.1 else 1.9)
    else (if gender == "male" then 2.5 else 2.0)
  }

  /** calculate_daily_intake: the larger of the baseline and 30 ml per kilogram. */
  function CalculateDailyIntake(gender: string, age: int, weight: real): (r: real)
    ensures r >= Baseline(gender, age) && r >= weight * 0.03
    ensures r == Baseline(gender, age) || r == weight * 0.03
  {
    var target := Baseline(gender, age);
    if target >= weight * 0.03 then target else weight * 0.03
  }

  /** The weight floor decides exactly when it exceeds the baseline. */
  lemma WhichTermWins(gender: string, age: int, weight: real)
    ensures weight * 0.03 <= Baseline(gender, age) ==> CalculateDailyIntake(gender, age, weight) == Baseline(gender, age)
    ensures weight * 0.03 > Baseline(gender, age) ==> CalculateDailyIntake(gender, age, weight) == weight * 0.03
  {
  }

  /** Every input gets at least 1.9 litres. */
  lemma AtLeastMinimum(gender: string, age: int, weight: real)
    ensures CalculateDailyIntake(gender, age, weight) >= 1.9
  {
  }

  /** Only the exact string "male" gets the male baseline; every other gender string,
      whatever its case, is treated as "female". */
  lemma OtherGendersAsFemale(gender: string, age: int, weight: real)
    requires gender != "male"
    ensures CalculateDailyIntake(gender, age, weight) == CalculateDailyIntake("female", age, weight)
  {
  }

  /** For a fixed age and gender, a heavier person never gets a smaller target. */
  lemma MonotoneInWeight(gender: string, age: int, w1: real, w2: real)
    requires w1 <= w2
    ensures CalculateDailyIntake(gender, age, w1) <= CalculateDailyIntake(gender, age, w2)
  {
  }

  /** A 25-year-old woman of 60 kg gets 2.0 litres; a 30-year-old man of 100 kg gets 3.0. */
  lemma ExampleTargets()
    ensures CalculateDailyIntake("female", 25, 60.0) == 2.0
    ensures CalculateDailyIntake("male", 30, 100.0) == 3.0
  {
  }
}
