/**
 * The KRA duty engine: a depreciation tier looked up by vehicle age (the
 * first tier whose ceiling is at least the age wins), the reference price
 * (CRSP) divided by 2.4469, then five levies on the customs value, the IDF
 * with a floor of 5000. Arithmetic is over `real`, so it is exact; rounding
 * for display is not part of the model.
 */
module Duty {
  import opened Wrappers

  const CurrentYear: int := 2026
  const MaxAge: int := 8

  /** The policy constants the pipeline uses. */
  datatype Rates = Rates(
    divisor: real, importDuty: real, excise: real, vat: real,
    idf: real, idfMinimum: real, rdl: real)

  const EngineRates: Rates := Rates(2.4469, 0.25, 0.20, 0.16, 0.0225, 5000.0, 0.015)

  /** One row of the depreciation table: ages up to `maxAge` lose `rate`. */
  datatype Tier = Tier(maxAge: int, rate: real)

  /** `DEPRECIATION`, in ascending order of ceiling. */
  const Depreciation: seq<Tier> := [
    Tier(1, 0.00), Tier(2, 0.20), Tier(3, 0.30), Tier(4, 0.40),
    Tier(5, 0.50), Tier(6, 0.55), Tier(7, 0.60), Tier(8, 0.65)
  ]

  /**
   * The table scan of `getDepr`: the rate of the first tier whose ceiling is
   * at least `age`, or `None` when no ceiling is.
   */
  function FirstCeiling(tiers: seq<Tier>, age: int): Option<real> {
    if tiers == [] then None
    else if age <= tiers[0].maxAge then Some(tiers[0].rate)
    else FirstCeiling(tiers[1..], age)
  }

  /** The scan stops at row `k` when `k` is the first row whose ceiling is at least `age`. */
  lemma {:induction false} FirstCeilingAt(tiers: seq<Tier>, age: int, k: nat)
    requires k < |tiers| && age <= tiers[k].maxAge
    requires forall j :: 0 <= j < k ==> tiers[j].maxAge < age
    ensures FirstCeiling(tiers, age) == Some(tiers[k].rate)
  {
    if k > 0 {
      assert tiers[0].maxAge < age;
      assert forall j :: 0 <= j < k - 1 ==> tiers[1..][j] == tiers[j + 1];
      FirstCeilingAt(tiers[1..], age, k - 1);
    }
  }

  /** The scan finds nothing when every ceiling is below `age`. */
  lemma {:induction false} FirstCeilingNone(tiers: seq<Tier>, age: int)
    requires forall j :: 0 <= j < |tiers| ==> tiers[j].maxAge < age
    ensures FirstCeiling(tiers, age) == None
  {
    if tiers != [] {
      assert forall j :: 0 <= j < |tiers| - 1 ==> tiers[1..][j] == tiers[j + 1];
      FirstCeilingNone(tiers[1..], age);
    }
  }

  /** `getDepr(age)`. */
  function GetDepreciation(age: int): Option<real> {
    FirstCeiling(Depreciation, age)
  }

  /** The depreciation schedule written out age by age. */
  function TierRate(age: int): Option<real> {
    if age <= 1 then Some(0.00)
    else if age == 2 then Some(0.20)
    else if age == 3 then Some(0.30)
    else if age == 4 then Some(0.40)
    else if age == 5 then Some(0.50)
    else if age == 6 then Some(0.55)
    else if age == 7 then Some(0.60)
    else if age == 8 then Some(0.65)
    else None
  }

  /**
   * The table scan gives the schedule: 0 for every age up to 1, negative ages
   * (future model years) included; 20% .. 65% for ages 2 to 8; nothing beyond.
   */
  lemma GetDepreciationSchedule(age: int)
    ensures GetDepreciation(age) == TierRate(age)
    ensures GetDepreciation(age).Some? <==> age <= MaxAge
    ensures GetDepreciation(age).Some? ==> 0.0 <= GetDepreciation(age).value <= 0.65
  {
    var t := Depreciation;
    assert forall j :: 0 <= j < |t| ==> t[j].maxAge == j + 1;
    if age <= 8 {
      var k := if age <= 1 then 0 else age - 1;
      FirstCeilingAt(t, age, k);
      RateOfTier(k);
    } else {
      FirstCeilingNone(t, age);
    }
  }

  /** The rate for an age inside the window, as a witness. */
  lemma WindowRate(age: int) returns (depr: real)
    requires age <= MaxAge
    ensures GetDepreciation(age) == Some(depr) && TierRate(age) == Some(depr)
    ensures 0.0 <= depr <= 0.65
  {
    GetDepreciationSchedule(age);
    depr := GetDepreciation(age).value;
  }

  /** The rate in row `k` of the table is the schedule's rate at age `k + 1`. */
  lemma RateOfTier(k: int)
    requires 0 <= k < |Depreciation|
    ensures Some(Depreciation[k].rate) == TierRate(k + 1)
  {
  }

  /** Multiplying by a non-negative factor keeps an inequality. */
  lemma MulLe(a: real, b: real, c: real)
    requires a >= 0.0 && b <= c
    ensures a * b <= a * c
  {
  }

  /** Older vehicles never lose less value, over the whole eligible range. */
  lemma DepreciationMonotone(a1: int, a2: int)
    requires a1 <= a2 <= MaxAge
    ensures GetDepreciation(a1).Some? && GetDepreciation(a2).Some?
    ensures GetDepreciation(a1).value <= GetDepreciation(a2).value
  {
    GetDepreciationSchedule(a1);
    GetDepreciationSchedule(a2);
  }

  /** Every figure of the duty calculation, before the rounding done for display. */
  datatype Breakdown = Breakdown(
    age: int, depreciation: real, preDepreciation: real, customsValue: real,
    importDuty: real, exciseDuty: real, vat: real, idf: real, rdl: real, total: real)

  function Max(a: real, b: real): real { if a >= b then a else b }

  /**
   * The arithmetic shared by every copy of the pipeline, for a vehicle of the
   * given age whose depreciation rate is known.
   */
  function Pipeline(crsp: real, age: int, depr: real): (r: Breakdown)
    ensures r.age == age && r.depreciation == depr
    ensures r.preDepreciation == crsp / EngineRates.divisor
    ensures r.customsValue == r.preDepreciation * (1.0 - depr)
    ensures r.importDuty == 0.25 * r.customsValue
    ensures r.exciseDuty == 0.25 * r.customsValue
    ensures r.vat == 0.24 * r.customsValue
    ensures r.rdl == 0.015 * r.customsValue
    ensures r.idf == Max(0.0225 * r.customsValue, 5000.0) && r.idf >= 5000.0
    ensures r.total == r.importDuty + r.exciseDuty + r.vat + r.idf + r.rdl
    ensures r.total == 0.755 * r.customsValue + r.idf
  {
    var pre := crsp / EngineRates.divisor;
    var cv := pre * (1.0 - depr);
    var id := cv * EngineRates.importDuty;
    var ed := (cv + id) * EngineRates.excise;
    var vat := (cv + id + ed) * EngineRates.vat;
    var idf := Max(cv * EngineRates.idf, EngineRates.idfMinimum);
    var rdl := cv * EngineRates.rdl;
    Breakdown(age, depr, pre, cv, id, ed, vat, idf, rdl, id + ed + vat + idf + rdl)
  }

  /**
   * `calcDuty(crsp, year)` of plugins/render.js (and `calculate_duty` of
   * scripts/generate_pages.py, the same code): nothing for a vehicle older
   * than eight years, otherwise the pipeline at the tier rate for its age.
   * A model year in the future is priced with no depreciation.
   */
  function CalcDuty(crsp: real, year: int): (r: Option<Breakdown>)
    ensures r.None? <==> CurrentYear - year > MaxAge
    ensures r.Some? ==> r.value.age == CurrentYear - year
                        && Some(r.value.depreciation) == TierRate(CurrentYear - year)
                        && r.value == Pipeline(crsp, CurrentYear - year, r.value.depreciation)
  {
    var age := CurrentYear - year;
    GetDepreciationSchedule(age);
    match GetDepreciation(age)
    case None => None
    case Some(depr) => Some(Pipeline(crsp, age, depr))
  }

  /** The customs value lies between 0 and the undepreciated value when the rate is a fraction. */
  lemma CustomsValueBounds(crsp: real, age: int, depr: real)
    requires crsp >= 0.0 && 0.0 <= depr <= 1.0
    ensures 0.0 <= Pipeline(crsp, age, depr).customsValue <= crsp / 2.4469
  {
    var pre := crsp / EngineRates.divisor;
    assert pre >= 0.0;
    MulLe(pre, 1.0 - depr, 1.0);
    MulLe(pre, 0.0, 1.0 - depr);
  }

  /** The facts about a priced year that the lemmas below need. */
  lemma PricedFacts(crsp: real, year: int)
    requires CalcDuty(crsp, year).Some?
    ensures 0.0 <= CalcDuty(crsp, year).value.depreciation <= 0.65
    ensures CalcDuty(crsp, year).value
              == Pipeline(crsp, CurrentYear - year, CalcDuty(crsp, year).value.depreciation)
  {
    GetDepreciationSchedule(CurrentYear - year);
  }

  /** A priced vehicle always owes a positive total, at least the IDF floor. */
  lemma TotalAtLeastFloor(crsp: real, year: int)
    requires crsp >= 0.0
    requires CalcDuty(crsp, year).Some?
    ensures CalcDuty(crsp, year).value.customsValue >= 0.0
    ensures CalcDuty(crsp, year).value.total >= 5000.0
  {
    PricedFacts(crsp, year);
    var b := CalcDuty(crsp, year).value;
    CustomsValueBounds(crsp, CurrentYear - year, b.depreciation);
  }

  /** A future model year is priced like a new vehicle: no depreciation at all. */
  lemma FutureYearUndepreciated(crsp: real, year: int)
    requires year > CurrentYear
    ensures CalcDuty(crsp, year).Some?
    ensures CalcDuty(crsp, year).value.depreciation == 0.0
    ensures CalcDuty(crsp, year).value.customsValue == crsp / 2.4469
  {
  }

  /** Below the threshold the IDF is the 5000 floor, not the percentage. */
  lemma IdfFloorApplies(crsp: real, year: int)
    requires 0.0 <= crsp <= 500000.0
    requires CalcDuty(crsp, year).Some?
    ensures CalcDuty(crsp, year).value.idf == 5000.0
  {
    PricedFacts(crsp, year);
    var b := CalcDuty(crsp, year).value;
    CustomsValueBounds(crsp, CurrentYear - year, b.depreciation);
    assert crsp / 2.4469 <= 500000.0 / 2.4469;
    assert 0.0225 * (500000.0 / 2.4469) < 5000.0;
  }

  /**
   * A two-year-old vehicle with a CRSP of 2,000,000: 20% depreciation and a
   * customs value of 1,600,000 / 2.4469, above the IDF threshold.
   */
  lemma TwoYearOldExample()
    ensures CalcDuty(2000000.0, 2024).Some?
    ensures CalcDuty(2000000.0, 2024).value.depreciation == 0.20
    ensures CalcDuty(2000000.0, 2024).value.customsValue == 1600000.0 / 2.4469
    ensures CalcDuty(2000000.0, 2024).value.idf == 0.0225 * (1600000.0 / 2.4469)
    ensures 653888.0 < CalcDuty(2000000.0, 2024).value.customsValue < 653889.0
  {
    GetDepreciationSchedule(2);
    var b := CalcDuty(2000000.0, 2024).value;
    assert b.customsValue == 2000000.0 / 2.4469 * 0.8;
    assert 0.0225 * (1600000.0 / 2.4469) >= 5000.0;
  }

  /** Eleven years old: not importable, no figures. */
  lemma TooOldExample()
    ensures CalcDuty(2000000.0, 2015).None?
  {
  }

  /** Duty never decreases as the customs value grows. */
  lemma TotalMonotoneInValue(crsp: real, a1: int, d1: real, a2: int, d2: real)
    requires crsp >= 0.0 && d1 <= d2
    ensures Pipeline(crsp, a2, d2).total <= Pipeline(crsp, a1, d1).total
  {
    var pre := crsp / EngineRates.divisor;
    assert pre >= 0.0;
    MulLe(pre, 1.0 - d2, 1.0 - d1);
    var b1, b2 := Pipeline(crsp, a1, d1), Pipeline(crsp, a2, d2);
    assert b2.customsValue <= b1.customsValue;
    assert b2.idf <= b1.idf;
    assert 0.755 * b2.customsValue <= 0.755 * b1.customsValue;
  }

  /**
   * Within the eight-year window an older vehicle never owes more; so the
   * eight-year-old price that the make and model pages show as "duty from"
   * is the cheapest of the years they list.
   */
  lemma OlderIsCheaper(crsp: real, y1: int, y2: int)
    requires crsp >= 0.0
    requires CurrentYear - MaxAge <= y1 <= y2
    ensures CalcDuty(crsp, y1).Some? && CalcDuty(crsp, y2).Some?
    ensures CalcDuty(crsp, y1).value.total <= CalcDuty(crsp, y2).value.total
  {
    var a1, a2 := CurrentYear - y2, CurrentYear - y1;
    DepreciationMonotone(a1, a2);
    PricedFacts(crsp, y1);
    PricedFacts(crsp, y2);
    TotalMonotoneInValue(crsp, a1, CalcDuty(crsp, y2).value.depreciation, a2, CalcDuty(crsp, y1).value.depreciation);
  }

  /**
   * The duty block written out again inside `renderYearPage`, for the given
   * age and depreciation rate.
   */
  function YearFigures(crsp: real, age: int, depr: real): Breakdown {
    var pre := crsp / 2.4469;
    var cv := pre * (1.0 - depr);
    var id := cv * 0.25;
    var ed := (cv + id) * 0.20;
    var vat := (cv + id + ed) * 0.16;
    var idf := Max(cv * 0.0225, 5000.0);
    var rdl := cv * 0.015;
    Breakdown(age, depr, pre, cv, id, ed, vat, idf, rdl, id + ed + vat + idf + rdl)
  }

  /** The inline copy computes exactly what `calcDuty` computes, for every year `calcDuty` prices. */
  lemma YearFiguresAgree(crsp: real, year: int)
    requires GetDepreciation(CurrentYear - year).Some?
    ensures CalcDuty(crsp, year).Some?
    ensures YearFigures(crsp, CurrentYear - year, GetDepreciation(CurrentYear - year).value) == CalcDuty(crsp, year).value
  {
    GetDepreciationSchedule(CurrentYear - year);
    PricedFacts(crsp, year);
    var d := GetDepreciation(CurrentYear - year).value;
    assert YearFigures(crsp, CurrentYear - year, d) == Pipeline(crsp, CurrentYear - year, d);
  }
}
