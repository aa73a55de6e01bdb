/**
 * The calculation step of the retirement calculator: it checks the ages and
 * the two rates, then runs the projection once per rate.
 */
module Calculator {
  import opened Projection

  /** What a calculation produces: one of the two rejections, or the low and high projections. */
  datatype Outcome =
    | InvalidAges
    | InvalidRates
    | Projected(years: nat, low: seq<Snapshot>, high: seq<Snapshot>)

  /** The age check: a zero age (an empty field) or a retirement age not after the current age. */
  predicate AgesInvalid(currentAge: int, retirementAge: int)
  {
    currentAge == 0 || retirementAge == 0 || retirementAge <= currentAge
  }

  /**
   * calculate: the money fields are already parsed (and so non-negative);
   * the ages are checked first, then the rate bounds, then both runs share
   * every argument except the rate.
   */
  method Calculate(currentAge: int, retirementAge: int, currentSavings: real, contribution: real,
                   isMonthly: bool, rateLow: real, rateHigh: real, inflationRate: real)
    returns (o: Outcome)
    requires currentSavings >= 0.0 && contribution >= 0.0
    requires inflationRate != -1.0
    ensures o.InvalidAges? <==> AgesInvalid(currentAge, retirementAge)
    ensures o.InvalidRates? <==> !AgesInvalid(currentAge, retirementAge) && rateHigh < rateLow
    ensures o.Projected? ==>
      o.years == retirementAge - currentAge >= 1 &&
      o.low == Project(Scenario(currentSavings, contribution, isMonthly, rateLow, inflationRate, o.years, currentAge)) &&
      o.high == Project(Scenario(currentSavings, contribution, isMonthly, rateHigh, inflationRate, o.years, currentAge))
    ensures o.Projected? ==>
      |o.low| == |o.high| == o.years + 1 &&
      forall i :: 0 <= i < |o.low| ==>
        o.low[i].age == o.high[i].age && o.low[i].contributed == o.high[i].contributed
    ensures o.Projected? && rateLow >= -1.0 ==>
      forall i :: 0 <= i < |o.low| ==> 0.0 <= o.low[i].total <= o.high[i].total
  {
    if AgesInvalid(currentAge, retirementAge) {
      return InvalidAges;
    }
    if rateHigh < rateLow {
      return InvalidRates;
    }
    var years := retirementAge - currentAge;
    var dataLow := ComputeGrowth(currentSavings, contribution, isMonthly, rateLow, inflationRate, years, currentAge);
    var dataHigh := ComputeGrowth(currentSavings, contribution, isMonthly, rateHigh, inflationRate, years, currentAge);
    ScenarioPair(Scenario(currentSavings, contribution, isMonthly, rateLow, inflationRate, years, currentAge), rateHigh);
    o := Projected(years, dataLow, dataHigh);
  }

  /**
   * The low and high projections of one request agree on ages and contributions
   * at every index, and (for rates of at least -100%) the low total never
   * exceeds the high one.
   */
  lemma ScenarioPair(low: Scenario, rateHigh: real)
    requires low.currentSavings >= 0.0 && low.contribution >= 0.0
    requires low.inflationRate != -1.0
    requires low.returnRate <= rateHigh
    ensures var pl := Project(low);
      var ph := Project(low.(returnRate := rateHigh));
      |pl| == |ph| == low.years + 1 &&
      (forall i :: 0 <= i < |pl| ==> pl[i].age == ph[i].age && pl[i].contributed == ph[i].contributed) &&
      (low.returnRate >= -1.0 ==> forall i :: 0 <= i < |pl| ==> 0.0 <= pl[i].total <= ph[i].total)
  {
    var high := low.(returnRate := rateHigh);
    var pl, ph := Project(low), Project(high);
    if low.returnRate >= -1.0 {
      forall i | 0 <= i < |pl| ensures 0.0 <= pl[i].total <= ph[i].total {
        TotalMonotoneInRate(low, high, i);
      }
    }
  }
}
