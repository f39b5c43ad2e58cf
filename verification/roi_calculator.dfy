/**
 * The savings calculator (components/ROICalculator.tsx): weekly manual hours
 * and an hourly wage, both chosen on range sliders, turned into monthly and
 * yearly savings. All arithmetic is on integers.
 */
module ROICalculator {

  /** The sliders' initial positions. */
  const InitialHours: int := 10
  const InitialWage: int := 100

  /** The hours slider: 1 to 100 in steps of 1. */
  predicate ValidHours(hours: int) {
    1 <= hours <= 100
  }

  /** The wage slider: 50 to 1000 in steps of 10. */
  predicate ValidWage(wage: int) {
    50 <= wage <= 1000 && (wage - 50) % 10 == 0
  }

  datatype Savings = Savings(monthlyHours: int, monthlyMoney: int, yearly: int)

  /** The three figures the calculator displays. A month counts as four weeks. */
  function Compute(hours: int, wage: int): (s: Savings)
    ensures s.monthlyHours == 4 * hours
    ensures s.monthlyMoney == 4 * hours * wage
    ensures s.yearly == 12 * s.monthlyMoney == 48 * hours * wage
  {
    var monthlyHours := hours * 4;
    var monthlyMoney := monthlyHours * wage;
    Savings(monthlyHours, monthlyMoney, monthlyMoney * 12)
  }

  /** On the sliders' ranges the yearly savings lie between 2,400 and 4,800,000. */
  lemma YearlyBounds(hours: int, wage: int)
    requires ValidHours(hours) && ValidWage(wage)
    ensures 2400 <= Compute(hours, wage).yearly <= 4800000
  {
    assert hours * wage >= 1 * wage >= 50 by {
      MulMonotone(1, hours, wage, wage);
    }
    assert hours * wage <= 100 * 1000 by {
      MulMonotone(hours, 100, wage, 1000);
    }
  }

  lemma MulMonotone(a: int, b: int, c: int, d: int)
    requires 0 <= a <= b && 0 <= c <= d
    ensures a * c <= b * d
  {
    assert a * c <= b * c;
    assert b * c <= b * d;
  }

  /** More hours or a higher wage never lower any of the figures. */
  lemma Monotone(h1: int, w1: int, h2: int, w2: int)
    requires 0 <= h1 <= h2 && 0 <= w1 <= w2
    ensures Compute(h1, w1).monthlyHours <= Compute(h2, w2).monthlyHours
    ensures Compute(h1, w1).monthlyMoney <= Compute(h2, w2).monthlyMoney
    ensures Compute(h1, w1).yearly <= Compute(h2, w2).yearly
  {
    MulMonotone(h1, h2, w1, w2);
  }

  /** The page opens showing 4,000 a month and 48,000 a year. */
  lemma InitialFigures()
    ensures Compute(InitialHours, InitialWage) == Savings(40, 4000, 48000)
  {
  }
}
