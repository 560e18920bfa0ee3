/** The Gregorian months, as Python's datetime has them. */
module Calendar {
  predicate Leap(year: nat) {
    year % 4 == 0 && (year % 100 != 0 || year % 400 == 0)
  }

  function DaysIn(year: nat, month: nat): nat {
    if month == 2 then (if Leap(year) then 29 else 28)
    else if month in {4, 6, 9, 11} then 30
    else 31
  }

  /** Months of 31 and 30 days alternate, but July and August are both long and February short. */
  lemma {:induction false} MonthsAlternate(year: nat, month: nat)
    requires 1 <= month <= 12
    ensures DaysIn(year, month) ==
      if month == 2 then (if Leap(year) then 29 else 28) else 30 + (month + month / 8) % 2
  {}
}
