/**
 * The browser calculator, src/calculator.js, with the DOM stripped out: the
 * four selections the handlers reset downstream (category, make, model,
 * year), the option lists the selects are filled with, the year grid, and
 * whether the Calculate block and the results are on screen.
 */
module Calculator {
  import opened Wrappers
  import opened Text
  import opened Duty
  import opened Reference

  // ---------------------------------------------------------------------
  // getDepreciation and calculate

  /** The calculator's own `DEPRECIATION` list. */
  const CalculatorDepreciation: seq<Tier> := [
    Tier(1, 0.00), Tier(2, 0.20), Tier(3, 0.30), Tier(4, 0.40),
    Tier(5, 0.50), Tier(6, 0.55), Tier(7, 0.60), Tier(8, 0.65)
  ]

  /** `getDepreciation(age)`: the first ceiling at least `age` wins; `null` past eight years. */
  function CalcGetDepreciation(age: int): Option<real> {
    FirstCeiling(CalculatorDepreciation, age)
  }

  /** The calculator's tiers are those of plugins/render.js. */
  lemma CalcDepreciationAgrees(age: int)
    ensures CalcGetDepreciation(age) == GetDepreciation(age)
    ensures CalcGetDepreciation(age).Some? <==> age <= MaxAge
  {
    GetDepreciationSchedule(age);
  }

  /**
   * The arithmetic of `calculate`, with JavaScript's coercions: a `null`
   * year counts as 0 in `CURRENT_YEAR - selectedYear`, and a `null`
   * depreciation as 0 in `1 - depr`.
   */
  function CalculateFigures(crsp: real, year: Option<int>): (r: Breakdown)
    ensures r.total == r.importDuty + r.exciseDuty + r.vat + r.idf + r.rdl
    ensures r.idf >= 5000.0
  {
    var age := CurrentYear - (if year.Some? then year.value else 0);
    var depr := CalcGetDepreciation(age);
    CalcDepreciationAgrees(age);
    YearFigures(crsp, age, if depr.Some? then depr.value else 0.0)
  }

  /** For a year inside the window `calculate` shows exactly what `calcDuty` computes. */
  lemma CalculateAgrees(crsp: real, yr: int)
    requires CurrentYear - yr <= MaxAge
    ensures Some(CalculateFigures(crsp, Some(yr))) == CalcDuty(crsp, yr)
  {
    CalcDepreciationAgrees(CurrentYear - yr);
    YearFiguresAgree(crsp, yr);
  }

  /**
   * With no year selected, `calculate` prices the car as 2026 years old with
   * no depreciation at all: the customs value is the whole pre-depreciation
   * value, the figures of a new car.
   */
  lemma NullYearExample(crsp: real)
    ensures var r := CalculateFigures(crsp, None);
            r.age == CurrentYear && r.depreciation == 0.0
            && r.customsValue == crsp / EngineRates.divisor
            && r.total == CalcDuty(crsp, CurrentYear).value.total
  {
    CalcDepreciationAgrees(CurrentYear);
    CalculateAgrees(crsp, CurrentYear);
    assert CalcGetDepreciation(0) == Some(0.0);
  }

  // ---------------------------------------------------------------------
  // renderYearGrid

  /** One button of the year grid; a blocked year is disabled and gets no click handler. */
  datatype YearButton = YearButton(year: int, enabled: bool)

  /** The grid `renderYearGrid` builds: 2026 down to 2016, enabled up to eight years of age. */
  predicate GridShape(grid: seq<YearButton>) {
    |grid| == MaxAge + 3
    && forall j :: 0 <= j < |grid| ==>
         grid[j].year == CurrentYear - j && (grid[j].enabled <==> CurrentYear - grid[j].year <= MaxAge)
  }

  /** `yr` has an enabled button, so `selectYear(yr)` can fire. */
  predicate YearEnabled(grid: seq<YearButton>, yr: int) {
    exists j :: 0 <= j < |grid| && grid[j].year == yr && grid[j].enabled
  }

  /** The grid by position: button `j` is year 2026 - `j`, enabled for the first nine. */
  function YearGrid(): seq<YearButton> {
    seq(MaxAge + 3, j requires 0 <= j < MaxAge + 3 => YearButton(CurrentYear - j, j <= MaxAge))
  }

  /** `GridShape` describes exactly one grid, `YearGrid()`. */
  lemma GridShapeIff(grid: seq<YearButton>)
    ensures GridShape(grid) <==> grid == YearGrid()
  {
    if GridShape(grid) {
      assert forall j :: 0 <= j < |grid| ==> grid[j] == YearGrid()[j];
    }
  }

  /** `for (let yr = CURRENT_YEAR; yr >= cutoff - 2; yr--)`, one button per year. */
  method RenderYearGrid() returns (grid: seq<YearButton>)
    ensures GridShape(grid)
  {
    var cutoff := CurrentYear - MaxAge;
    grid := [];
    var yr := CurrentYear;
    while yr >= cutoff - 2
      invariant cutoff - 3 <= yr <= CurrentYear
      invariant |grid| == CurrentYear - yr
      invariant forall j :: 0 <= j < |grid| ==>
                  grid[j].year == CurrentYear - j && (grid[j].enabled <==> CurrentYear - grid[j].year <= MaxAge)
    {
      var age := CurrentYear - yr;
      var blocked := age > MaxAge;
      grid := grid + [YearButton(yr, !blocked)];
      yr := yr - 1;
    }
  }

  /** Every year the grid lets the user pick has a depreciation rate, and the pickable years are 2018 to 2026. */
  lemma EnabledYearsPriced(grid: seq<YearButton>, yr: int)
    requires GridShape(grid)
    ensures YearEnabled(grid, yr) <==> CurrentYear - MaxAge <= yr <= CurrentYear
    ensures YearEnabled(grid, yr) ==> CalcGetDepreciation(CurrentYear - yr).Some?
  {
    if CurrentYear - MaxAge <= yr <= CurrentYear {
      assert grid[CurrentYear - yr].year == yr;
    }
    CalcDepreciationAgrees(CurrentYear - yr);
  }

  // ---------------------------------------------------------------------
  // The selection state

  /**
   * `parseInt(idx)` on the value of model option `i`, which is `String(i)`:
   * it reads back `i`, and no other option has that value.
   */
  method ParseIndex(value: string, n: nat) returns (idx: nat)
    requires exists i :: 0 <= i < n && value == NatToDecimal(i)
    ensures idx < n && value == NatToDecimal(idx)
    ensures forall j :: 0 <= j < n && value == NatToDecimal(j) ==> j == idx
  {
    ghost var i :| 0 <= i < n && value == NatToDecimal(i);
    ParseIntOfDecimal(i, []);
    assert value + [] == value;
    idx := ParseInt(value).value;
    forall j | 0 <= j < n && value == NatToDecimal(j) ensures j == idx {
      DecimalInjective(i, j);
    }
  }


  /** A year only with a model, a model only with a make, a make only with a category. */
  predicate Cascade(cat: Option<string>, make: Option<string>, model: Option<ModelVariant>, year: Option<int>) {
    (year.Some? ==> model.Some?) && (model.Some? ==> make.Some?) && (make.Some? ==> cat.Some?)
  }

  /** The make select lists the makes of the chosen category. */
  predicate MakeOptionsFor(t: Table, cat: Option<string>, makeOptions: seq<string>) {
    cat.Some? ==>
      FindCategory(t.data, cat.value).Some? && makeOptions == MakeNames(FindCategory(t.data, cat.value).value)
  }

  /** The model select lists the models of the chosen make, one of the make options. */
  predicate ModelOptionsFor(t: Table, cat: Option<string>, make: Option<string>,
                            makeOptions: seq<string>, modelOptions: seq<ModelVariant>) {
    make.Some? ==>
      cat.Some? && make.value in makeOptions && FindCategory(t.data, cat.value).Some?
      && FindMake(FindCategory(t.data, cat.value).value, make.value) == Some(modelOptions)
  }

  /** A chosen model is one of the options, and the year grid has been drawn for it. */
  predicate ModelFor(model: Option<ModelVariant>, modelOptions: seq<ModelVariant>, grid: seq<YearButton>) {
    model.Some? ==> model.value in modelOptions && grid == YearGrid()
  }

  /** A chosen year is one with an enabled button (`EnabledYearsPriced`): at most eight years old. */
  predicate YearFor(year: Option<int>) {
    year.Some? ==> CurrentYear - MaxAge <= year.value <= CurrentYear
  }

  class Session {
    /** `crspData`, fetched once at start-up. */
    const data: Table
    var cat: Option<string>
    var make: Option<string>
    var model: Option<ModelVariant>
    var year: Option<int>
    /** The make select's options (without the reset option), and the model select's. */
    var makeOptions: seq<string>
    var modelOptions: seq<ModelVariant>
    var grid: seq<YearButton>
    /** Whether the Calculate block and the results panel are shown. */
    var calcShown: bool
    var resultsShown: bool

    /**
     * The cascade: a year only with a model, a model only with a make, a
     * make only with a category; the option lists are those of the current
     * selection; the Calculate block and the results need a model.
     */
    ghost predicate Valid()
      reads this
    {
      Coherent(data)
      && Cascade(cat, make, model, year)
      && MakeOptionsFor(data, cat, makeOptions)
      && ModelOptionsFor(data, cat, make, makeOptions, modelOptions)
      && ModelFor(model, modelOptions, grid)
      && YearFor(year)
      && (calcShown ==> model.Some?)
      && (resultsShown ==> model.Some?)
    }

    /** The Calculate block is only on screen once a year is chosen. */
    ghost predicate Ready()
      reads this
    {
      calcShown ==> year.Some?
    }

    /** `initCalculator`: nothing selected yet. */
    constructor (t: Table)
      requires Coherent(t)
      ensures data == t && Valid() && Ready()
      ensures cat == None && make == None && model == None && year == None
      ensures !calcShown && !resultsShown
    {
      data := t;
      cat, make, model, year := None, None, None, None;
      makeOptions, modelOptions, grid := [], [], [];
      calcShown, resultsShown := false, false;
    }

    /** `selectCategory(cat)`: the category is set, everything below it cleared, the model select emptied down to its reset option. */
    method SelectCategory(c: string)
      requires Valid() && c in data.categories
      modifies this
      ensures Valid() && Ready()
      ensures cat == Some(c) && make == None && model == None && year == None
      ensures makeOptions == MakeNames(FindCategory(data.data, c).value)
      ensures !calcShown && !resultsShown
      ensures modelOptions == [] && grid == old(grid)
    {
      cat := Some(c);
      make, model, year := None, None, None;
      var makes := FindCategory(data.data, c).value;
      makeOptions := MakeNames(makes);
      modelOptions := [];
      calcShown, resultsShown := false, false;
    }

    /**
     * `onMakeChange()`: the make is the chosen option, `null` for the reset
     * option; model and year are cleared, and only a real make refills the
     * model select.
     */
    method OnMakeChange(value: string)
      requires Valid() && cat.Some? && (value == "" || value in makeOptions)
      modifies this
      ensures Valid() && Ready()
      ensures cat == old(cat) && model == None && year == None
      ensures make == (if value == "" then None else Some(value))
      ensures value != "" ==> modelOptions == FindMake(FindCategory(data.data, cat.value).value, value).value
      ensures value == "" ==> modelOptions == old(modelOptions)
      ensures makeOptions == old(makeOptions) && grid == old(grid)
      ensures !calcShown && !resultsShown
    {
      make := if value == "" then None else Some(value);
      model, year := None, None;
      calcShown, resultsShown := false, false;
      if make.None? {
        return;
      }
      var makes := FindCategory(data.data, cat.value).value;
      FindMakeSpec(makes, value);
      modelOptions := FindMake(makes, value).value;
    }

    /**
     * `onModelChange()`: the year is cleared; option `i` (value `String(i)`,
     * `"0"` included, as a non-empty string is truthy) selects `models[i]`,
     * the reset option clears the model. A chosen model gets a fresh year grid.
     */
    method OnModelChange(value: string)
      requires Valid() && make.Some?
      requires value == "" || exists i :: 0 <= i < |modelOptions| && value == NatToDecimal(i)
      modifies this
      ensures Valid() && Ready()
      ensures cat == old(cat) && make == old(make) && year == None
      ensures value == "" ==> model == None && grid == old(grid)
      ensures forall i :: 0 <= i < |modelOptions| && value == NatToDecimal(i) ==> model == Some(modelOptions[i])
      ensures makeOptions == old(makeOptions) && modelOptions == old(modelOptions)
      ensures !calcShown && !resultsShown
    {
      year := None;
      calcShown, resultsShown := false, false;
      if value == "" {
        model := None;
        return;
      }
      var idx := ParseIndex(value, |modelOptions|);
      var models := FindMake(FindCategory(data.data, cat.value).value, make.value).value;
      model := Some(models[idx]);
      grid := RenderYearGrid();
      GridShapeIff(grid);
    }

    /** `selectYear(yr)`, fired by an enabled year button: the depreciation shown is never `null`. */
    method SelectYear(yr: int) returns (rate: Option<real>)
      requires Valid() && model.Some? && YearEnabled(grid, yr)
      modifies this
      ensures Valid() && Ready()
      ensures year == Some(yr) && calcShown
      ensures rate == GetDepreciation(CurrentYear - yr) && rate.Some?
      ensures cat == old(cat) && make == old(make) && model == old(model)
      ensures makeOptions == old(makeOptions) && modelOptions == old(modelOptions) && grid == old(grid)
      ensures resultsShown == old(resultsShown)
    {
      year := Some(yr);
      var age := CurrentYear - yr;
      rate := CalcGetDepreciation(age);
      GridShapeIff(grid);
      EnabledYearsPriced(grid, yr);
      CalcDepreciationAgrees(age);
      calcShown := true;
    }

    /**
     * `calculate()`, fired by the Calculate button: the figures for the
     * selected model and year; the results replace the Calculate block.
     */
    method Calculate() returns (figures: Breakdown)
      requires Valid() && calcShown
      modifies this
      ensures Valid() && Ready()
      ensures figures == CalculateFigures(old(model).value.crsp, old(year))
      ensures old(Ready()) ==> Some(figures) == CalcDuty(old(model).value.crsp, old(year).value)
      ensures resultsShown && !calcShown
      ensures cat == old(cat) && make == old(make) && model == old(model) && year == old(year)
      ensures makeOptions == old(makeOptions) && modelOptions == old(modelOptions) && grid == old(grid)
    {
      figures := CalculateFigures(model.value.crsp, year);
      if year.Some? {
        CalculateAgrees(model.value.crsp, year.value);
      }
      calcShown := false;
      resultsShown := true;
    }

    /**
     * `recalculate()` as written, fired from the results panel: the year is cleared and the results
     * hidden, but the Calculate block is shown again, so a click prices a
     * `null` year (`NullYearExample`).
     */
    method Recalculate()
      requires Valid() && resultsShown
      modifies this
      ensures Valid() && !Ready()
      ensures year == None && !resultsShown && calcShown
      ensures cat == old(cat) && make == old(make) && model == old(model)
      ensures makeOptions == old(makeOptions) && modelOptions == old(modelOptions) && grid == old(grid)
    {
      year := None;
      resultsShown := false;
      calcShown := true;
    }

    /**
     * `recalculate()` as intended: back to the year step, with the Calculate
     * block hidden until a year is chosen again.
     */
    method RecalculateCorrected()
      requires Valid() && resultsShown
      modifies this
      ensures Valid() && Ready()
      ensures year == None && !resultsShown && !calcShown
      ensures cat == old(cat) && make == old(make) && model == old(model)
      ensures makeOptions == old(makeOptions) && modelOptions == old(modelOptions) && grid == old(grid)
    {
      year := None;
      resultsShown := false;
      calcShown := false;
    }
  }
}
