/**
 * The projection engine of the retirement calculator: a year-by-year
 * projection of a savings balance under one annual return rate.
 *
 * Money and rates are exact reals. The engine records a snapshot of the
 * running balance for every year index 0..years and only then advances the
 * balance by one year of contributions and compounding (record-then-advance).
 */
module Projection {

  /** One row of a projection: the balance at the start of year `age - currentAge`. */
  datatype Snapshot = Snapshot(age: int, total: real, contributed: real, growth: real, realTotal: real)

  /** The arguments of one projection run. */
  datatype Scenario = Scenario(
    currentSavings: real,
    contribution: real,
    isMonthly: bool,
    returnRate: real,
    inflationRate: real,
    years: nat,
    currentAge: int)

  /** `b` raised to the natural power `n` (Math.pow with a whole exponent). */
  function Pow(b: real, n: nat): (r: real)
    ensures b != 0.0 ==> r != 0.0
    ensures b > 0.0 ==> r > 0.0
  {
    if n == 0 then 1.0
    else
      var p := Pow(b, n - 1);
      assert b > 0.0 ==> b * p > 0.0;
      b * p
  }

  /** One month: the contribution is deposited, then a twelfth of the annual rate is earned. */
  function MonthStep(t: real, contribution: real, returnRate: real): real
  {
    (t + contribution) * (1.0 + returnRate / 12.0)
  }

  /** `m` consecutive month steps starting from the balance `t`. */
  function MonthSteps(t: real, contribution: real, returnRate: real, m: nat): real
  {
    if m == 0 then t else MonthStep(MonthSteps(t, contribution, returnRate, m - 1), contribution, returnRate)
  }

  /** The balance one year after `t`: twelve month steps, or one annual step. */
  function YearStep(t: real, contribution: real, isMonthly: bool, returnRate: real): real
  {
    if isMonthly then MonthSteps(t, contribution, returnRate, 12)
    else (t + contribution) * (1.0 + returnRate)
  }

  /** The running total at the start of year index `i`. */
  function TotalAt(sc: Scenario, i: nat): real
  {
    if i == 0 then sc.currentSavings
    else YearStep(TotalAt(sc, i - 1), sc.contribution, sc.isMonthly, sc.returnRate)
  }

  /** The amount deposited in one year. */
  function YearlyContribution(contribution: real, isMonthly: bool): real
  {
    if isMonthly then contribution * 12.0 else contribution
  }

  /** The accounting figure for what has been paid in by year index `i`. */
  function ContributedAt(sc: Scenario, i: nat): real
  {
    sc.currentSavings + YearlyContribution(sc.contribution, sc.isMonthly) * (i as real)
  }

  /** The snapshot recorded for year index `i`. */
  function SnapshotAt(sc: Scenario, i: nat): Snapshot
    requires sc.inflationRate != -1.0
  {
    var total := TotalAt(sc, i);
    var contributed := ContributedAt(sc, i);
    Snapshot(sc.currentAge + i, total, contributed, total - contributed,
             total / Pow(1.0 + sc.inflationRate, i))
  }

  /** The whole projection: one snapshot per year index 0..years. */
  function Project(sc: Scenario): seq<Snapshot>
    requires sc.inflationRate != -1.0
  {
    seq(sc.years + 1, i requires 0 <= i <= sc.years => SnapshotAt(sc, i))
  }

  /**
   * computeGrowth: the running total starts at the savings; each pass records
   * a snapshot and then advances the total by one year.
   */
  method ComputeGrowth(currentSavings: real, contribution: real, isMonthly: bool, returnRate: real,
                       inflationRate: real, years: nat, currentAge: int) returns (data: seq<Snapshot>)
    requires inflationRate != -1.0
    ensures data == Project(Scenario(currentSavings, contribution, isMonthly, returnRate, inflationRate, years, currentAge))
    ensures |data| == years + 1
    ensures data[0] == Snapshot(currentAge, currentSavings, currentSavings, 0.0, currentSavings)
  {
    ghost var sc := Scenario(currentSavings, contribution, isMonthly, returnRate, inflationRate, years, currentAge);
    var total := currentSavings;
    var monthlyRate := returnRate / 12.0;
    data := [];
    var i := 0;
    while i <= years
      invariant 0 <= i <= years + 1
      invariant |data| == i
      invariant total == TotalAt(sc, i)
      invariant forall j :: 0 <= j < i ==> data[j] == SnapshotAt(sc, j)
    {
      var yearlyContrib := if isMonthly then contribution * 12.0 else contribution;
      var contributed := currentSavings + yearlyContrib * (i as real);
      var inflationFactor := Pow(1.0 + inflationRate, i);
      var realTotal := total / inflationFactor;
      assert contributed == ContributedAt(sc, i);
      assert Snapshot(currentAge + i, total, contributed, total - contributed, realTotal) == SnapshotAt(sc, i);
      data := data + [Snapshot(currentAge + i, total, contributed, total - contributed, realTotal)];

      total := AdvanceYear(total, contribution, isMonthly, returnRate, monthlyRate);
      i := i + 1;
    }
    ProjectIsSnapshots(sc, data);
  }

  /**
   * The year-advance part of computeGrowth's loop body: twelve month steps at
   * `monthlyRate` (which is `returnRate / 12`), or one annual step.
   */
  method AdvanceYear(total: real, contribution: real, isMonthly: bool, returnRate: real, monthlyRate: real)
    returns (next: real)
    requires monthlyRate == returnRate / 12.0
    ensures next == YearStep(total, contribution, isMonthly, returnRate)
  {
    next := total;
    if isMonthly {
      var m := 0;
      while m < 12
        invariant 0 <= m <= 12
        invariant next == MonthSteps(total, contribution, returnRate, m)
      {
        assert MonthSteps(total, contribution, returnRate, m + 1) == (next + contribution) * (1.0 + monthlyRate);
        next := (next + contribution) * (1.0 + monthlyRate);
        m := m + 1;
      }
    } else {
      next := (next + contribution) * (1.0 + returnRate);
    }
  }

  /** A sequence holding the snapshot of every year index 0..years is the projection. */
  lemma ProjectIsSnapshots(sc: Scenario, data: seq<Snapshot>)
    requires sc.inflationRate != -1.0
    requires |data| == sc.years + 1
    requires forall j :: 0 <= j < |data| ==> data[j] == SnapshotAt(sc, j)
    ensures data == Project(sc)
    ensures data[0] == Snapshot(sc.currentAge, sc.currentSavings, sc.currentSavings, 0.0, sc.currentSavings)
  {
    PowOne(0);
  }

  /**
   * What every projection promises: one snapshot per year, each at its own
   * age; the first is the untouched savings; the contribution figure is a
   * closed form; growth is total minus contributions; consecutive totals
   * follow the year step; without inflation the real total is the total.
   */
  lemma ProjectionShape(sc: Scenario)
    requires sc.inflationRate != -1.0
    ensures var p := Project(sc);
      |p| == sc.years + 1 &&
      p[0] == Snapshot(sc.currentAge, sc.currentSavings, sc.currentSavings, 0.0, sc.currentSavings) &&
      (forall i :: 0 <= i < |p| ==>
        p[i].age == sc.currentAge + i &&
        p[i].contributed == sc.currentSavings + YearlyContribution(sc.contribution, sc.isMonthly) * (i as real) &&
        p[i].growth == p[i].total - p[i].contributed) &&
      (forall i :: 0 <= i < sc.years ==>
        p[i + 1].total == YearStep(p[i].total, sc.contribution, sc.isMonthly, sc.returnRate)) &&
      (sc.inflationRate == 0.0 ==> forall i :: 0 <= i < |p| ==> p[i].realTotal == p[i].total)
  {
    var p := Project(sc);
    PowOne(0);
    if sc.inflationRate == 0.0 {
      forall i | 0 <= i < |p| ensures p[i].realTotal == p[i].total {
        PowOne(i);
      }
    }
  }

  /** The inflation factor is 1 in every year when there is no inflation. */
  lemma {:induction false} PowOne(n: nat)
    ensures Pow(1.0, n) == 1.0
  {
    if n > 0 { PowOne(n - 1); }
  }

  /** Without inflation, the inflation-adjusted total is the nominal total. */
  lemma NoInflationRealTotal(sc: Scenario, i: nat)
    requires sc.inflationRate == 0.0
    ensures SnapshotAt(sc, i).realTotal == SnapshotAt(sc, i).total
  {
    PowOne(i);
  }

  /** A non-negative factor preserves `<=`. */
  lemma MulMonotone(a1: real, a2: real, b1: real, b2: real)
    requires 0.0 <= a1 <= a2 && 0.0 <= b1 <= b2
    ensures 0.0 <= a1 * b1 <= a2 * b2
  {
    assert a1 * b1 <= a2 * b1;
    assert a2 * b1 <= a2 * b2;
  }

  /** `MulMonotone` for products the caller knows under other names `p1` and `p2`. */
  lemma MulMonotoneAt(a1: real, a2: real, b1: real, b2: real, p1: real, p2: real)
    requires 0.0 <= a1 <= a2 && 0.0 <= b1 <= b2
    requires p1 == a1 * b1 && p2 == a2 * b2
    ensures 0.0 <= p1 <= p2
  {
    MulMonotone(a1, a2, b1, b2);
  }

  /** With non-negative money and rate, `m` month steps add at least `m` contributions. */
  lemma {:induction false} MonthStepsAtLeast(t: real, contribution: real, returnRate: real, m: nat)
    requires t >= 0.0 && contribution >= 0.0 && returnRate >= 0.0
    ensures MonthSteps(t, contribution, returnRate, m) >= t + (m as real) * contribution
  {
    if m > 0 {
      MonthStepsAtLeast(t, contribution, returnRate, m - 1);
      var prev := MonthSteps(t, contribution, returnRate, m - 1);
      MulMonotoneAt(prev + contribution, prev + contribution, 1.0, 1.0 + returnRate / 12.0,
                    prev + contribution, MonthSteps(t, contribution, returnRate, m));
    }
  }

  /** With non-negative money and rate, a year adds at least a year's contributions. */
  lemma YearStepAtLeast(t: real, contribution: real, isMonthly: bool, returnRate: real)
    requires t >= 0.0 && contribution >= 0.0 && returnRate >= 0.0
    ensures YearStep(t, contribution, isMonthly, returnRate) >= t + YearlyContribution(contribution, isMonthly)
  {
    if isMonthly {
      MonthStepsAtLeast(t, contribution, returnRate, 12);
    } else {
      MulMonotoneAt(t + contribution, t + contribution, 1.0, 1.0 + returnRate,
                    t + contribution, YearStep(t, contribution, isMonthly, returnRate));
    }
  }

  /** Under non-negative savings, contribution and rate, the total never falls below what was paid in. */
  lemma {:induction false} TotalAtLeastContributed(sc: Scenario, i: nat)
    requires sc.currentSavings >= 0.0 && sc.contribution >= 0.0 && sc.returnRate >= 0.0
    ensures TotalAt(sc, i) >= ContributedAt(sc, i) >= 0.0
  {
    var y := YearlyContribution(sc.contribution, sc.isMonthly);
    MulMonotone(0.0, y, 0.0, i as real);
    if i > 0 {
      TotalAtLeastContributed(sc, i - 1);
      YearStepAtLeast(TotalAt(sc, i - 1), sc.contribution, sc.isMonthly, sc.returnRate);
      assert y * (i as real) == y * ((i - 1) as real) + y;
      assert ContributedAt(sc, i) == ContributedAt(sc, i - 1) + y;
      assert TotalAt(sc, i) >= TotalAt(sc, i - 1) + y;
    }
  }

  /** Under non-negative savings, contribution and rate, the total is non-decreasing in the year index. */
  lemma {:induction false} TotalNonDecreasing(sc: Scenario, i: nat, j: nat)
    requires sc.currentSavings >= 0.0 && sc.contribution >= 0.0 && sc.returnRate >= 0.0
    requires i <= j
    ensures TotalAt(sc, i) <= TotalAt(sc, j)
  {
    if i < j {
      TotalNonDecreasing(sc, i, j - 1);
      TotalAtLeastContributed(sc, j - 1);
      YearStepAtLeast(TotalAt(sc, j - 1), sc.contribution, sc.isMonthly, sc.returnRate);
    }
  }

  /** Month steps are monotone in the starting balance and in the rate (rates of at least -100%). */
  lemma {:induction false} MonthStepsMonotone(t1: real, t2: real, contribution: real, r1: real, r2: real, m: nat)
    requires 0.0 <= t1 <= t2 && contribution >= 0.0 && -1.0 <= r1 <= r2
    ensures 0.0 <= MonthSteps(t1, contribution, r1, m) <= MonthSteps(t2, contribution, r2, m)
  {
    if m > 0 {
      MonthStepsMonotone(t1, t2, contribution, r1, r2, m - 1);
      MonthStepMonotone(MonthSteps(t1, contribution, r1, m - 1), MonthSteps(t2, contribution, r2, m - 1),
                        contribution, r1, r2);
    }
  }

  /** One month step is monotone in the balance and in the rate (rates of at least -100%). */
  lemma MonthStepMonotone(x1: real, x2: real, contribution: real, r1: real, r2: real)
    requires 0.0 <= x1 <= x2 && contribution >= 0.0 && -1.0 <= r1 <= r2
    ensures 0.0 <= MonthStep(x1, contribution, r1) <= MonthStep(x2, contribution, r2)
  {
    MulMonotone(x1 + contribution, x2 + contribution, 1.0 + r1 / 12.0, 1.0 + r2 / 12.0);
  }

  /** A year step is monotone in the starting balance and in the rate (rates of at least -100%). */
  lemma YearStepMonotone(t1: real, t2: real, contribution: real, isMonthly: bool, r1: real, r2: real)
    requires 0.0 <= t1 <= t2 && contribution >= 0.0 && -1.0 <= r1 <= r2
    ensures 0.0 <= YearStep(t1, contribution, isMonthly, r1) <= YearStep(t2, contribution, isMonthly, r2)
  {
    if isMonthly {
      MonthStepsMonotone(t1, t2, contribution, r1, r2, 12);
    } else {
      MulMonotoneAt(t1 + contribution, t2 + contribution, 1.0 + r1, 1.0 + r2,
                    YearStep(t1, contribution, isMonthly, r1), YearStep(t2, contribution, isMonthly, r2));
    }
  }

  /**
   * Two runs that differ only in the return rate: the lower rate never gives the
   * higher total, so the low-scenario line never rises above the high one.
   */
  lemma {:induction false} TotalMonotoneInRate(low: Scenario, high: Scenario, i: nat)
    requires low.currentSavings == high.currentSavings >= 0.0
    requires low.contribution == high.contribution >= 0.0
    requires low.isMonthly == high.isMonthly
    requires -1.0 <= low.returnRate <= high.returnRate
    ensures 0.0 <= TotalAt(low, i) <= TotalAt(high, i)
  {
    if i > 0 {
      TotalMonotoneInRate(low, high, i - 1);
      YearStepMonotone(TotalAt(low, i - 1), TotalAt(high, i - 1), low.contribution, low.isMonthly,
                       low.returnRate, high.returnRate);
    }
  }

  /** Without contributions, `m` month steps compound the balance by `(1 + r/12)^m`. */
  lemma {:induction false} MonthStepsPrincipalOnly(t: real, returnRate: real, m: nat)
    ensures MonthSteps(t, 0.0, returnRate, m) == t * Pow(1.0 + returnRate / 12.0, m)
  {
    if m > 0 {
      MonthStepsPrincipalOnly(t, returnRate, m - 1);
      var b := 1.0 + returnRate / 12.0;
      assert t * Pow(b, m - 1) * b == t * (b * Pow(b, m - 1));
    }
  }

  /** The compounding factor of one year under each cadence. */
  function YearFactor(isMonthly: bool, returnRate: real): real
  {
    if isMonthly then Pow(1.0 + returnRate / 12.0, 12) else 1.0 + returnRate
  }

  /** Without contributions, one year multiplies the balance by the yearly factor. */
  lemma YearStepPrincipalOnly(t: real, isMonthly: bool, returnRate: real)
    ensures YearStep(t, 0.0, isMonthly, returnRate) == t * YearFactor(isMonthly, returnRate)
  {
    if isMonthly {
      MonthStepsPrincipalOnly(t, returnRate, 12);
    }
  }

  /** One year without contributions multiplies every balance by `f`. */
  ghost predicate CompoundsBy(isMonthly: bool, returnRate: real, f: real)
  {
    forall t :: YearStep(t, 0.0, isMonthly, returnRate) == t * f
  }

  /** The yearly factor is the one a year without contributions compounds by. */
  lemma YearFactorCompounds(isMonthly: bool, returnRate: real)
    ensures CompoundsBy(isMonthly, returnRate, YearFactor(isMonthly, returnRate))
  {
    forall t ensures YearStep(t, 0.0, isMonthly, returnRate) == t * YearFactor(isMonthly, returnRate) {
      YearStepPrincipalOnly(t, isMonthly, returnRate);
    }
  }

  /** `t` is the savings `s` compounded `i` times by `f`. */
  ghost predicate Compounded(t: real, s: real, f: real, i: nat)
  {
    t == s * Pow(f, i)
  }

  /**
   * Without contributions, the total is the savings compounded once per year
   * by the factor `f` a year compounds by (the yearly factor, by
   * `YearFactorCompounds`).
   */
  lemma {:induction false} TotalPrincipalOnly(sc: Scenario, i: nat, f: real)
    requires sc.contribution == 0.0
    requires CompoundsBy(sc.isMonthly, sc.returnRate, f)
    ensures Compounded(TotalAt(sc, i), sc.currentSavings, f, i)
  {
    if i == 0 {
      MulByOne(sc.currentSavings, Pow(f, 0));
    } else {
      TotalPrincipalOnly(sc, i - 1, f);
      TotalStepBy(sc, i, f);
      CompoundStep(sc.currentSavings, f, i, TotalAt(sc, i - 1), TotalAt(sc, i));
    }
  }

  /** Without contributions, each year multiplies the previous total by the factor a year compounds by. */
  lemma TotalStepBy(sc: Scenario, i: nat, f: real)
    requires sc.contribution == 0.0 && i >= 1
    requires CompoundsBy(sc.isMonthly, sc.returnRate, f)
    ensures TotalAt(sc, i) == TotalAt(sc, i - 1) * f
  {
    assert TotalAt(sc, i) == YearStep(TotalAt(sc, i - 1), 0.0, sc.isMonthly, sc.returnRate);
  }

  /** If `prev` is `s * f^(i-1)`, one more factor `f` gives `s * f^i`. */
  lemma CompoundStep(s: real, f: real, i: nat, prev: real, next: real)
    requires i >= 1 && Compounded(prev, s, f, i - 1) && next == prev * f
    ensures Compounded(next, s, f, i)
  {
    PowSucc(f, i);
    CompoundOnce(s, Pow(f, i - 1), f, prev, next, Pow(f, i));
  }

  lemma PowSucc(b: real, n: nat)
    requires n >= 1
    ensures Pow(b, n) == b * Pow(b, n - 1)
  {
  }

  lemma MulByOne(s: real, one: real)
    requires one == 1.0
    ensures s * one == s
  {
  }

  /** One more compounding of `s * q` by `f` is `s` times the next power `p == f * q`. */
  lemma CompoundOnce(s: real, q: real, f: real, prev: real, next: real, p: real)
    requires prev == s * q && next == prev * f && p == f * q
    ensures next == s * p
  {
  }

  /** A positive factor preserves `<`. */
  lemma MulStrict(a: real, b1: real, b2: real)
    requires a > 0.0 && b1 < b2
    ensures a * b1 < a * b2
  {
    assert a * b2 - a * b1 == a * (b2 - b1);
  }

  /** `MulStrict` for products the caller knows under other names `p1` and `p2`. */
  lemma MulStrictAt(a: real, b1: real, b2: real, p1: real, p2: real)
    requires a > 0.0 && b1 < b2
    requires p1 == a * b1 && p2 == a * b2
    ensures p1 < p2
  {
    MulStrict(a, b1, b2);
  }

  /** Powers of a non-negative base stay on the same side of 1 as the base. */
  lemma PowVersusOne(b: real, n: nat)
    requires b >= 0.0
    ensures b >= 1.0 ==> Pow(b, n) >= 1.0
    ensures b <= 1.0 ==> Pow(b, n) <= 1.0
    ensures n >= 1 && b > 1.0 ==> Pow(b, n) > 1.0
    ensures n >= 1 && b < 1.0 ==> Pow(b, n) < 1.0
  {
    PowOne(n);
    if n >= 1 && b > 1.0 {
      PowStrictlyMonotone(1.0, b, n);
    } else if n >= 1 && b < 1.0 {
      PowStrictlyMonotone(b, 1.0, n);
    }
  }

  /**
   * One step of Bernoulli's inequality on plain reals: `q` stands for
   * `(1 + x)^(n-1)` and `p` for `(1 + x)^n`.
   */
  lemma BernoulliStep(x: real, n: nat, q: real, p: real)
    requires x >= -1.0 && n >= 1 && q >= 1.0 + ((n - 1) as real) * x && p == (1.0 + x) * q
    requires x >= 0.0 ==> q >= 1.0
    requires x <= 0.0 ==> q <= 1.0
    requires n >= 2 && x > 0.0 ==> q > 1.0
    requires n >= 2 && x < 0.0 ==> q < 1.0
    ensures p >= 1.0 + (n as real) * x
    ensures n >= 2 && x != 0.0 ==> p > 1.0 + (n as real) * x
  {
    var xq := x * q;
    assert p == q + xq;
    assert (n as real) * x == ((n - 1) as real) * x + x;
    if x > 0.0 {
      if n >= 2 {
        MulStrictAt(x, 1.0, q, x, xq);
      } else {
        MulMonotoneAt(x, x, 1.0, q, x, xq);
      }
    } else if x < 0.0 {
      if n >= 2 {
        MulStrictAt(-x, q, 1.0, -xq, -x);
      } else {
        MulMonotoneAt(-x, -x, q, 1.0, -xq, -x);
      }
    }
  }

  /**
   * Bernoulli's inequality: `(1 + x)^n >= 1 + n x` for `x >= -1`, strictly
   * when `n >= 2` and `x != 0`.
   */
  lemma {:induction false} Bernoulli(x: real, n: nat)
    requires x >= -1.0
    ensures Pow(1.0 + x, n) >= 1.0 + (n as real) * x
    ensures n >= 2 && x != 0.0 ==> Pow(1.0 + x, n) > 1.0 + (n as real) * x
  {
    if n > 0 {
      Bernoulli(x, n - 1);
      PowVersusOne(1.0 + x, n - 1);
      BernoulliStep(x, n, Pow(1.0 + x, n - 1), Pow(1.0 + x, n));
    }
  }

  /**
   * Twelve monthly compoundings at `r/12` never give less than one annual
   * compounding at `r`, and they give the same factor exactly when the rate
   * is 0. Below -1200% the monthly factor is an even power, so non-negative,
   * while the annual factor is negative.
   */
  lemma MonthlyFactorExceedsAnnual(returnRate: real)
    ensures YearFactor(true, returnRate) >= YearFactor(false, returnRate)
    ensures YearFactor(true, returnRate) == YearFactor(false, returnRate) <==> returnRate == 0.0
  {
    var x := returnRate / 12.0;
    if returnRate < -12.0 {
      PowEvenNonNegative(1.0 + x, 6);
    } else {
      Bernoulli(x, 12);
      if returnRate == 0.0 {
        assert 1.0 + x == 1.0;
        PowOne(12);
      }
    }
  }

  /** An even power of any base is non-negative. */
  lemma {:induction false} PowEvenNonNegative(b: real, k: nat)
    ensures Pow(b, 2 * k) >= 0.0
  {
    if k > 0 {
      PowEvenNonNegative(b, k - 1);
      var p := Pow(b, 2 * k - 2);
      assert Pow(b, 2 * k - 1) == b * p;
      assert Pow(b, 2 * k) == b * (b * p) == (b * b) * p;
      MulMonotone(0.0, b * b, 0.0, p);
    }
  }

  /** Scaling by a positive factor keeps strict order. */
  lemma ScaleStrict(s: real, u: real, v: real, a: real, b: real)
    requires s > 0.0 && u < v && a == s * u && b == s * v
    ensures a < b
  {
    MulStrict(s, u, v);
  }

  /** Products of non-negative factors keep strict order. */
  lemma MulStrictMonotone(a1: real, a2: real, b1: real, b2: real)
    requires 0.0 <= a1 < a2 && 0.0 <= b1 < b2
    ensures a1 * b1 < a2 * b2
  {
    MulMonotone(a1, a2, b1, b1);
    MulStrict(a2, b1, b2);
  }

  /** Raising to a positive power keeps strict order between non-negative bases. */
  lemma {:induction false} PowStrictlyMonotone(a: real, b: real, n: nat)
    requires 0.0 <= a < b && n >= 1
    ensures Pow(a, n) < Pow(b, n)
  {
    if n == 1 {
      assert Pow(a, 0) == 1.0 && Pow(b, 0) == 1.0;
    } else {
      PowStrictlyMonotone(a, b, n - 1);
      MulStrictMonotone(a, b, Pow(a, n - 1), Pow(b, n - 1));
    }
  }

  /**
   * Without contributions and with positive savings, the two cadences part ways
   * from year index 1 on: for any non-zero rate of at least -100%, monthly
   * compounding ends strictly above annual compounding.
   */
  lemma CadencesDiffer(sc: Scenario, i: nat)
    requires sc.contribution == 0.0 && sc.currentSavings > 0.0
    requires sc.returnRate >= -1.0 && sc.returnRate != 0.0
    requires i >= 1
    ensures TotalAt(sc.(isMonthly := false), i) < TotalAt(sc.(isMonthly := true), i)
  {
    var annual, monthly := sc.(isMonthly := false), sc.(isMonthly := true);
    var fa, fm := YearFactor(false, sc.returnRate), YearFactor(true, sc.returnRate);
    YearFactorCompounds(false, sc.returnRate);
    YearFactorCompounds(true, sc.returnRate);
    TotalPrincipalOnly(annual, i, fa);
    TotalPrincipalOnly(monthly, i, fm);
    MonthlyFactorExceedsAnnual(sc.returnRate);
    PowStrictlyMonotone(fa, fm, i);
    ScaleStrict(sc.currentSavings, Pow(fa, i), Pow(fm, i), TotalAt(annual, i), TotalAt(monthly, i));
  }

  /**
   * Under non-negative inflation a non-negative total is never raised by the
   * inflation adjustment: the real total lies between 0 and the total.
   */
  lemma RealTotalAtMostTotal(sc: Scenario, i: nat)
    requires sc.inflationRate >= 0.0
    requires TotalAt(sc, i) >= 0.0
    ensures 0.0 <= SnapshotAt(sc, i).realTotal <= SnapshotAt(sc, i).total
  {
    PowVersusOne(1.0 + sc.inflationRate, i);
    DivByAtLeastOne(TotalAt(sc, i), Pow(1.0 + sc.inflationRate, i));
  }

  /** Dividing a non-negative amount by a factor of at least 1 gives a value between 0 and the amount. */
  lemma DivByAtLeastOne(t: real, f: real)
    requires t >= 0.0 && f >= 1.0
    ensures 0.0 <= t / f <= t
  {
    var q := t / f;
    assert q * f == t;
    assert q >= 0.0;
    MulMonotone(q, q, 1.0, f);
  }

  /**
   * With non-negative money, a rate of at least -100% and inflation above
   * -100%, the total, the contributions and the real total of every snapshot
   * are non-negative.
   */
  lemma SnapshotNonNegative(sc: Scenario, i: nat)
    requires sc.currentSavings >= 0.0 && sc.contribution >= 0.0
    requires sc.returnRate >= -1.0 && sc.inflationRate > -1.0
    ensures var s := SnapshotAt(sc, i);
      s.total >= 0.0 && s.contributed >= 0.0 && s.realTotal >= 0.0
  {
    TotalMonotoneInRate(sc, sc, i);
    MulMonotone(0.0, YearlyContribution(sc.contribution, sc.isMonthly), 0.0, i as real);
    DivByPositive(TotalAt(sc, i), Pow(1.0 + sc.inflationRate, i));
  }

  /** Dividing a non-negative amount by a positive factor gives a non-negative value. */
  lemma DivByPositive(t: real, f: real)
    requires t >= 0.0 && f > 0.0
    ensures t / f >= 0.0
  {
    var q := t / f;
    assert q * f == t;
  }

  /**
   * The two-year annual example: 10000 saved, 5000 a year at 7%, 3% inflation,
   * starting at age 30. Year index 2 holds (16050 + 5000) * 1.07 = 22523.5.
   */
  lemma AnnualExample(sc: Scenario)
    requires sc == Scenario(10000.0, 5000.0, false, 0.07, 0.03, 2, 30)
    ensures TotalAt(sc, 0) == 10000.0 && ContributedAt(sc, 0) == 10000.0
    ensures TotalAt(sc, 1) == 16050.0 && ContributedAt(sc, 1) == 15000.0
    ensures TotalAt(sc, 2) == 22523.5 && ContributedAt(sc, 2) == 20000.0
    ensures Pow(1.0 + sc.inflationRate, 2) == 1.0609
  {
    assert TotalAt(sc, 1) == 16050.0;
    assert TotalAt(sc, 2) == YearStep(TotalAt(sc, 1), 5000.0, false, 0.07);
    PowTwo(1.0 + sc.inflationRate);
  }

  lemma PowTwo(b: real)
    ensures Pow(b, 2) == b * b
  {
    assert Pow(b, 1) == b;
  }
}
