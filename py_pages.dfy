/**
 * The Python generator, scripts/generate_pages.py: its own copies of the
 * depreciation table and the duty pipeline, the directory walk of `main`
 * with its `stats` and per-make `seen_slugs` collision pass, the year rows
 * of a model page and the model cards of a make page. Pages are identified
 * by the directory segments they are written under.
 */
module PyPages {
  import opened Wrappers
  import opened Text
  import opened Slug
  import opened Duty
  import opened Reference
  import opened ModelIndex

  // ---------------------------------------------------------------------
  // get_depreciation and calculate_duty

  /** The script's own `DEPRECIATION` list. */
  const PyDepreciation: seq<Tier> := [
    Tier(1, 0.00), Tier(2, 0.20), Tier(3, 0.30), Tier(4, 0.40),
    Tier(5, 0.50), Tier(6, 0.55), Tier(7, 0.60), Tier(8, 0.65)
  ]

  /** `get_depreciation(age)`: the first ceiling at least `age` wins, `None` past the last. */
  function PyGetDepreciation(age: int): Option<real> {
    FirstCeiling(PyDepreciation, age)
  }

  /** The script's tiers are those of plugins/render.js, so the two lookups agree on every age. */
  lemma PyDepreciationAgrees(age: int)
    ensures PyGetDepreciation(age) == GetDepreciation(age)
    ensures PyGetDepreciation(age).Some? <==> age <= MaxAge
  {
    GetDepreciationSchedule(age);
  }

  /**
   * `calculate_duty(crsp, year)` before rounding: `None` beyond the window,
   * else the inline pipeline (the same statements as the block in
   * `renderYearPage`).
   */
  function PyCalculateDuty(crsp: real, year: int): (r: Option<Breakdown>)
    ensures r.None? <==> CurrentYear - year > MaxAge
    ensures r.Some? ==> r.value.total == r.value.importDuty + r.value.exciseDuty + r.value.vat
                                         + r.value.idf + r.value.rdl
    ensures r.Some? ==> r.value.idf >= 5000.0
  {
    var age := CurrentYear - year;
    PyDepreciationAgrees(age);
    match PyGetDepreciation(age)
    case None => None
    case Some(depr) => Some(YearFigures(crsp, age, depr))
  }

  /** The Python pipeline computes exactly what `calcDuty` computes, for every year. */
  lemma PyCalculateDutyAgrees(crsp: real, year: int)
    ensures PyCalculateDuty(crsp, year) == CalcDuty(crsp, year)
  {
    PyDepreciationAgrees(CurrentYear - year);
    if CurrentYear - year <= MaxAge {
      YearFiguresAgree(crsp, year);
    }
  }

  // ---------------------------------------------------------------------
  // make_model_page: the duty table rows

  /** One row of a model page's duty table. */
  datatype Row = Row(year: int, duty: Breakdown)

  /**
   * `for yr in range(CURRENT_YEAR, CURRENT_YEAR - MAX_AGE - 1, -1)`, skipping
   * a year `calculate_duty` returns `None` for. None is skipped: the rows are
   * 2026 down to 2018, each with the figures `calcDuty` gives.
   */
  method ModelPageRows(crsp: real) returns (rows: seq<Row>)
    ensures |rows| == MaxAge + 1
    ensures forall j :: 0 <= j < |rows| ==>
              rows[j].year == CurrentYear - j && CalcDuty(crsp, rows[j].year) == Some(rows[j].duty)
  {
    rows := [];
    var yr := CurrentYear;
    while yr > CurrentYear - MaxAge - 1
      invariant CurrentYear - MaxAge - 1 <= yr <= CurrentYear
      invariant |rows| == CurrentYear - yr
      invariant forall j :: 0 <= j < |rows| ==>
                  rows[j].year == CurrentYear - j && CalcDuty(crsp, rows[j].year) == Some(rows[j].duty)
    {
      var d := PyCalculateDuty(crsp, yr);
      PyCalculateDutyAgrees(crsp, yr);
      if d.None? {
        yr := yr - 1;
        continue;
      }
      rows := rows + [Row(yr, d.value)];
      yr := yr - 1;
    }
  }

  // ---------------------------------------------------------------------
  // make_make_page: the model cards

  /** One model card: the model shown, the slug its link uses, and the "duty from" figures. */
  datatype Card = Card(model: ModelVariant, slug: string, dutyFrom: Option<Breakdown>)

  /** `order` lists each index below `n` exactly once: the order `sorted` puts the models in. */
  ghost predicate Permutation(order: seq<nat>, n: nat) {
    |order| == n
    && (forall k :: 0 <= k < n ==> order[k] < n)
    && (forall i: nat :: i < n ==> i in order)
  }

  /** The "duty from" figure a card quotes: the price of the oldest importable year. */
  function CheapestDuty(crsp: real): Option<Breakdown> {
    PyCalculateDuty(crsp, CurrentYear - MaxAge)
  }

  /** `CheapestDuty` as a value, so that card sequences can be stated over any pricing. */
  function Cheapest(): real -> Option<Breakdown> {
    c => CheapestDuty(c)
  }

  /** The card for model `m` at sorted position `k`, linked by `base` and priced by `price`. */
  function CardAt(m: ModelVariant, k: nat, base: (string, nat) -> string, price: real -> Option<Breakdown>): Card {
    Card(m, base(m.model, k), price(m.crsp))
  }

  /**
   * A card links to `slugify(model)` or `model-<k>`, with no collision
   * suffix, and quotes the eight-year-old price, which always exists.
   */
  lemma CardAtFacts(m: ModelVariant, k: nat)
    ensures var r := CardAt(m, k, PyBaseSlug, Cheapest());
            r.model == m
            && r.slug == (if PySlugify(m.model) != [] then PySlugify(m.model) else "model-" + NatToDecimal(k))
            && r.dutyFrom == CalcDuty(m.crsp, CurrentYear - MaxAge) && r.dutyFrom.Some?
  {
    PyCalculateDutyAgrees(m.crsp, CurrentYear - MaxAge);
  }

  /** The first `n` cards of a make page, models in sorted order. */
  function CardsUpTo(models: seq<ModelVariant>, order: seq<nat>, n: nat,
                     base: (string, nat) -> string, price: real -> Option<Breakdown>): (r: seq<Card>)
    requires n <= |order| && forall k :: 0 <= k < |order| ==> order[k] < |models|
    ensures |r| == n
  {
    if n == 0 then []
    else CardsUpTo(models, order, n - 1, base, price) + [CardAt(models[order[n - 1]], n - 1, base, price)]
  }

  /** The cards a make page shows: every model in sorted order. */
  function MakeCards(models: seq<ModelVariant>, order: seq<nat>): (r: seq<Card>)
    requires |order| == |models| && forall k :: 0 <= k < |order| ==> order[k] < |models|
    ensures |r| == |models|
  {
    CardsUpTo(models, order, |order|, PyBaseSlug, Cheapest())
  }

  /** Card `k` shows the `k`-th model in sorted order, under the `k`-th fallback name. */
  lemma {:induction false} CardsUpToAt(models: seq<ModelVariant>, order: seq<nat>, n: nat, k: nat,
                                       base: (string, nat) -> string, price: real -> Option<Breakdown>)
    requires n <= |order| && forall k :: 0 <= k < |order| ==> order[k] < |models|
    requires k < n
    ensures CardsUpTo(models, order, n, base, price)[k] == CardAt(models[order[k]], k, base, price)
  {
    if k < n - 1 {
      CardsUpToAt(models, order, n - 1, k, base, price);
    }
  }

  /** One turn of the card loop: the card for the `k`-th model in sorted order. */
  method AppendCard(models: seq<ModelVariant>, order: seq<nat>, k: nat, cards: seq<Card>) returns (cards': seq<Card>)
    requires k < |order| && forall k :: 0 <= k < |order| ==> order[k] < |models|
    requires cards == CardsUpTo(models, order, k, PyBaseSlug, Cheapest())
    ensures cards' == CardsUpTo(models, order, k + 1, PyBaseSlug, Cheapest())
  {
    var m := models[order[k]];
    var slug := PyBaseSlug(m.model, k);
    var cheapest := CheapestDuty(m.crsp);
    cards' := cards + [Card(m, slug, cheapest)];
  }

  /** The card loop of `make_make_page`, over the models in sorted order (`models[order[k]]` is the `k`-th). */
  method MakePageCards(models: seq<ModelVariant>, order: seq<nat>) returns (cards: seq<Card>)
    requires |order| == |models| && forall k :: 0 <= k < |order| ==> order[k] < |models|
    ensures cards == MakeCards(models, order)
  {
    cards := [];
    var k := 0;
    while k < |order|
      invariant 0 <= k <= |order|
      invariant cards == CardsUpTo(models, order, k, PyBaseSlug, Cheapest())
    {
      cards := AppendCard(models, order, k, cards);
      k := k + 1;
    }
  }

  /** The slugs the card links use, in card order. */
  function CardSlugs(cards: seq<Card>): (r: seq<string>)
    ensures |r| == |cards| && forall k :: 0 <= k < |cards| ==> r[k] == cards[k].slug
  {
    seq(|cards|, k requires 0 <= k < |cards| => cards[k].slug)
  }

  /**
   * The links as they should be: card `k` uses the directory slug `main`
   * gave the model it shows.
   */
  function CorrectedCardSlugs(models: seq<ModelVariant>, order: seq<nat>): (r: seq<string>)
    requires forall k :: 0 <= k < |order| ==> order[k] < |models|
    ensures |r| == |order|
  {
    var dirs := PyIndexSlugs(ModelNames(models));
    seq(|order|, k requires 0 <= k < |order| => dirs[order[k]])
  }

  lemma PositionOf(order: seq<nat>, i: nat) returns (k: nat)
    requires i in order
    ensures k < |order| && order[k] == i
  {
    k :| 0 <= k < |order| && order[k] == i;
  }

  /** With the corrected links, every model page `main` writes is linked from its make page. */
  lemma CorrectedCardsLinkEveryPage(models: seq<ModelVariant>, order: seq<nat>)
    requires Permutation(order, |models|)
    ensures forall i :: 0 <= i < |models| ==>
              PyIndexSlugs(ModelNames(models))[i] in CorrectedCardSlugs(models, order)
  {
    var dirs := PyIndexSlugs(ModelNames(models));
    var links := CorrectedCardSlugs(models, order);
    forall i: nat | i < |models| ensures dirs[i] in links {
      var k := PositionOf(order, i);
      assert links[k] == dirs[i];
    }
  }

  lemma PySlugGT() ensures PySlugify("GT") == "gt" {
    var kept := KeepAllowed(JS, Lower("GT"));
    assert Lower("GT") == "gt" by { assert "GT"[1..] == "T"; }
    assert kept == "gt" by { assert "gt"[1..] == "t"; }
    SlugifyDialectsAgree("GT");
    SlugGT();
  }

  lemma PyBasesGT() ensures PyBases(["GT", "GT"]) == ["gt", "gt"] {
    PySlugGT();
  }

  lemma PyDedupeGT() ensures Dedupe(["gt", "gt"], {}) == ["gt", "gt-1"] {
    var b: seq<string> := ["gt", "gt"];
    assert b[..1] == ["gt"];
    assert ["gt"][..0] == [];
    assert Dedupe(["gt"], {}) == ["gt"];
    assert NatToDecimal(1) == "1";
    assert Suffixed("gt", 1) == "gt-1";
  }

  /** Two models the base rule sends to the same slug get the same card link. */
  lemma SameBaseSameLink(a: ModelVariant, b: ModelVariant,
                         base: (string, nat) -> string, price: real -> Option<Breakdown>)
    requires base(a.model, 0) == base(b.model, 1)
    ensures CardSlugs(CardsUpTo([a, b], [0, 1], 2, base, price)) == [base(a.model, 0), base(a.model, 0)]
  {
    var cards := CardsUpTo([a, b], [0, 1], 2, base, price);
    CardsUpToAt([a, b], [0, 1], 2, 0, base, price);
    CardsUpToAt([a, b], [0, 1], 2, 1, base, price);
    assert CardSlugs(cards) == [cards[0].slug, cards[1].slug];
  }

  /** Two models both named "GT" are written under `gt/` and `gt-1/`. */
  lemma GTPagesWritten(models: seq<ModelVariant>)
    requires |models| == 2 && models[0].model == "GT" && models[1].model == "GT"
    ensures PyIndexSlugs(ModelNames(models)) == ["gt", "gt-1"]
  {
    assert ModelNames(models) == ["GT", "GT"];
    PyBasesGT();
    PyDedupeGT();
  }

  /** Both of their cards link to `gt/`. */
  lemma GTCardLinks(models: seq<ModelVariant>, order: seq<nat>)
    requires |models| == 2 && models[0].model == "GT" && models[1].model == "GT" && order == [0, 1]
    ensures CardSlugs(MakeCards(models, order)) == ["gt", "gt"]
  {
    PySlugGT();
    assert models == [models[0], models[1]];
    assert PyBaseSlug(models[0].model, 0) == "gt" && PyBaseSlug(models[1].model, 1) == "gt";
    SameBaseSameLink(models[0], models[1], PyBaseSlug, Cheapest());
  }

  /** The corrected links point at both directories. */
  lemma GTCorrectedLinks(models: seq<ModelVariant>, order: seq<nat>)
    requires |models| == 2 && models[0].model == "GT" && models[1].model == "GT" && order == [0, 1]
    ensures CorrectedCardSlugs(models, order) == ["gt", "gt-1"]
  {
    GTPagesWritten(models);
  }

  /**
   * Two models both named "GT", shown in that order: `main` writes the second
   * one's page under `gt-1/` (`GTPagesWritten`), but no card of the make page
   * links there (`GTCorrectedLinks` shows the corrected links do).
   */
  lemma UnlinkedPageExample(models: seq<ModelVariant>, order: seq<nat>)
    requires |models| == 2 && models[0].model == "GT" && models[1].model == "GT" && order == [0, 1]
    ensures "gt-1" !in CardSlugs(MakeCards(models, order))
  {
    GTCardLinks(models, order);
  }

  // ---------------------------------------------------------------------
  // main: the directory walk
  //
  // The walk is stated with the slug function as a parameter `slug`; `main`
  // is the walk with `slugify`.

  /** A page `main` writes, named by its directory: `[cat]`, `[cat, make]` or `[cat, make, model]`. */
  type Dir = seq<string>

  /** The `stats` dictionary. */
  datatype Stats = Stats(categories: nat, makes: nat, models: nat)

  /** The total `main` prints. */
  function Total(s: Stats): nat {
    s.categories + s.makes + s.models
  }

  /** The directory slugs of a make's models: base slugs, then the `seen_slugs` pass. */
  function PyIndexBy(names: seq<string>, slug: string -> string): seq<string> {
    Dedupe(BasesBy(names, BaseOf(slug)), {})
  }

  /** With `slugify` as the slug function, `PyIndexBy` is the directory pass of `main`. */
  lemma PyIndexByPy(names: seq<string>)
    ensures PyIndexBy(names, PySlugify) == PyIndexSlugs(names)
  {
    assert BasesBy(names, BaseOf(PySlugify)) == PyBases(names);
  }

  /** The model directories under one make, in model-list order. */
  function ModelDirs(cs: string, ms: string, slugs: seq<string>): (r: seq<Dir>)
    ensures |r| == |slugs| && forall i :: 0 <= i < |slugs| ==> r[i] == [cs, ms, slugs[i]]
  {
    seq(|slugs|, i requires 0 <= i < |slugs| => [cs, ms, slugs[i]])
  }

  /** The make page, then its model pages under the slugs of the collision pass. */
  function MakeDirs(cs: string, make: MakeEntry, slug: string -> string): seq<Dir> {
    [[cs, slug(make.name)]] + ModelDirs(cs, slug(make.name), PyIndexBy(ModelNames(make.models), slug))
  }

  function MakesDirs(cs: string, makes: seq<MakeEntry>, slug: string -> string): seq<Dir> {
    if makes == [] then []
    else MakesDirs(cs, makes[..|makes| - 1], slug) + MakeDirs(cs, makes[|makes| - 1], slug)
  }

  /** The category page, then each make's pages, in key order. */
  function CategoryDirs(c: CategoryEntry, slug: string -> string): seq<Dir> {
    [[slug(c.name)]] + MakesDirs(slug(c.name), c.makes, slug)
  }

  /** Every directory `main` writes, walking `data["data"]` in key order. */
  function TableDirs(data: seq<CategoryEntry>, slug: string -> string): seq<Dir> {
    if data == [] then []
    else TableDirs(data[..|data| - 1], slug) + CategoryDirs(data[|data| - 1], slug)
  }

  /**
   * One model of the `seen_slugs` loop: `slugify(model) or model-<i>`, with
   * `-<i>` appended when that slug is already in `seen`, which then takes
   * the slug used.
   */
  method AssignDir(names: seq<string>, i: nat, seen: set<string>, slugs: seq<string>, slug: string -> string)
    returns (dir: string, seen': set<string>, slugs': seq<string>)
    requires i < |names|
    requires slugs == Dedupe(BasesBy(names, BaseOf(slug))[..i], {})
    requires forall s :: s in seen <==> s in slugs
    ensures slugs' == slugs + [dir] && slugs' == Dedupe(BasesBy(names, BaseOf(slug))[..i + 1], {})
    ensures forall s :: s in seen' <==> s in slugs'
  {
    dir := slug(names[i]);
    if dir == [] {
      dir := Fallback(i);
    }
    if dir in seen {
      dir := Suffixed(dir, i);
    }
    seen' := seen + {dir};
    slugs' := slugs + [dir];
    DedupeSnoc(BasesBy(names, BaseOf(slug)), {}, i);
  }

  /** The model loop of one make: a directory per model and one `models` count each. */
  method WriteModels(cs: string, ms: string, models: seq<ModelVariant>, stats: Stats, slug: string -> string)
    returns (dirs: seq<Dir>, stats': Stats)
    ensures dirs == ModelDirs(cs, ms, PyIndexBy(ModelNames(models), slug))
    ensures stats' == stats.(models := stats.models + |models|)
  {
    var names := ModelNames(models);
    var seen: set<string> := {};
    var slugs: seq<string> := [];
    dirs, stats' := [], stats;
    var i := 0;
    while i < |models|
      invariant 0 <= i <= |models|
      invariant slugs == Dedupe(BasesBy(names, BaseOf(slug))[..i], {})
      invariant forall s :: s in seen <==> s in slugs
      invariant dirs == ModelDirs(cs, ms, slugs)
      invariant stats' == stats.(models := stats.models + i)
    {
      var dir;
      dir, seen, slugs := AssignDir(names, i, seen, slugs, slug);
      dirs := dirs + [[cs, ms, dir]];
      stats' := stats'.(models := stats'.models + 1);
      i := i + 1;
    }
    assert BasesBy(names, BaseOf(slug))[..i] == BasesBy(names, BaseOf(slug));
  }

  /** The body of the make loop: the make page, then its models. */
  method WriteMake(cs: string, make: MakeEntry, stats: Stats, slug: string -> string)
    returns (dirs: seq<Dir>, stats': Stats)
    ensures dirs == MakeDirs(cs, make, slug)
    ensures stats' == Stats(stats.categories, stats.makes + 1, stats.models + |make.models|)
  {
    var ms := slug(make.name);
    var modelDirs;
    modelDirs, stats' := WriteModels(cs, ms, make.models, stats.(makes := stats.makes + 1), slug);
    dirs := [[cs, ms]] + modelDirs;
  }

  lemma MakesDirsSnoc(cs: string, makes: seq<MakeEntry>, j: nat, slug: string -> string)
    requires j < |makes|
    ensures MakesDirs(cs, makes[..j + 1], slug) == MakesDirs(cs, makes[..j], slug) + MakeDirs(cs, makes[j], slug)
    ensures ModelsOfMakes(makes[..j + 1]) == ModelsOfMakes(makes[..j]) + |makes[j].models|
  {
    assert makes[..j + 1][..j] == makes[..j];
  }

  /** The body of the category loop: the category page, then each make in key order. */
  method WriteCategory(c: CategoryEntry, stats: Stats, slug: string -> string)
    returns (dirs: seq<Dir>, stats': Stats)
    ensures dirs == CategoryDirs(c, slug)
    ensures stats' == Stats(stats.categories + 1, stats.makes + |c.makes|, stats.models + ModelsOfMakes(c.makes))
  {
    var cs := slug(c.name);
    var makesDirs: seq<Dir> := [];
    stats' := stats.(categories := stats.categories + 1);
    var j := 0;
    while j < |c.makes|
      invariant 0 <= j <= |c.makes|
      invariant makesDirs == MakesDirs(cs, c.makes[..j], slug)
      invariant stats' == Stats(stats.categories + 1, stats.makes + j, stats.models + ModelsOfMakes(c.makes[..j]))
    {
      var makeDirs;
      makeDirs, stats' := WriteMake(cs, c.makes[j], stats', slug);
      MakesDirsSnoc(cs, c.makes, j, slug);
      makesDirs := makesDirs + makeDirs;
      j := j + 1;
    }
    dirs := [[cs]] + makesDirs;
    assert c.makes[..j] == c.makes;
  }

  lemma TableDirsSnoc(data: seq<CategoryEntry>, k: nat, slug: string -> string)
    requires k < |data|
    ensures TableDirs(data[..k + 1], slug) == TableDirs(data[..k], slug) + CategoryDirs(data[k], slug)
    ensures MakesOfTable(data[..k + 1]) == MakesOfTable(data[..k]) + |data[k].makes|
    ensures ModelsOfTable(data[..k + 1]) == ModelsOfTable(data[..k]) + ModelsOfMakes(data[k].makes)
  {
    assert data[..k + 1][..k] == data[..k];
  }

  /** The walk of `main` for a given slug function. */
  method PyMainWith(data: seq<CategoryEntry>, slug: string -> string) returns (dirs: seq<Dir>, stats: Stats)
    ensures dirs == TableDirs(data, slug)
    ensures stats == Stats(|data|, MakesOfTable(data), ModelsOfTable(data))
  {
    dirs, stats := [], Stats(0, 0, 0);
    var k := 0;
    while k < |data|
      invariant 0 <= k <= |data|
      invariant dirs == TableDirs(data[..k], slug)
      invariant stats == Stats(k, MakesOfTable(data[..k]), ModelsOfTable(data[..k]))
    {
      var catDirs;
      catDirs, stats := WriteCategory(data[k], stats, slug);
      TableDirsSnoc(data, k, slug);
      dirs := dirs + catDirs;
      k := k + 1;
    }
    assert data[..k] == data;
  }

  /**
   * `main`: every category of `data["data"]` in key order, with the counts
   * it prints; the total is the number of pages written.
   */
  method PyMain(data: seq<CategoryEntry>) returns (dirs: seq<Dir>, stats: Stats, total: nat)
    ensures dirs == TableDirs(data, PySlugify)
    ensures stats == Stats(|data|, MakesOfTable(data), ModelsOfTable(data))
    ensures total == |dirs|
  {
    dirs, stats := PyMainWith(data, PySlugify);
    total := Total(stats);
    TableDirsCount(data, PySlugify);
  }

  lemma {:induction false} MakesDirsCount(cs: string, makes: seq<MakeEntry>, slug: string -> string)
    ensures |MakesDirs(cs, makes, slug)| == |makes| + ModelsOfMakes(makes)
  {
    if makes != [] {
      MakesDirsCount(cs, makes[..|makes| - 1], slug);
    }
  }

  /** One page per category, per make and per model: the printed total counts the pages. */
  lemma {:induction false} TableDirsCount(data: seq<CategoryEntry>, slug: string -> string)
    ensures |TableDirs(data, slug)| == |data| + MakesOfTable(data) + ModelsOfTable(data)
  {
    if data != [] {
      TableDirsCount(data[..|data| - 1], slug);
      MakesDirsCount(slug(data[|data| - 1].name), data[|data| - 1].makes, slug);
    }
  }

  /**
   * Within a make the model directories are distinct when no model's slug
   * ends in `-<digits>`; `main` never checks a suffixed slug again.
   */
  lemma PyModelDirsDistinct(names: seq<string>)
    requires forall i :: 0 <= i < |names| ==> !EndsWithNumber(PySlugify(names[i]))
    ensures Distinct(PyIndexSlugs(names))
  {
    var bases := PyBases(names);
    forall i | 0 <= i < |bases| ensures !EndsWithNumber(bases[i]) || bases[i] == Fallback(i) {
      assert bases[i] == PyBaseSlug(names[i], i);
    }
    DedupeDistinct(bases, {});
  }

  /**
   * When both slug dialects agree on a make's names and no model slug is
   * `constructor`, the Python generator writes a make's pages under the same
   * slugs the JavaScript generator and the resolver use.
   */
  lemma MakeDirsMatchJs(cs: string, make: MakeEntry)
    requires PySlugify(make.name) == JsSlugify(make.name)
    requires forall i :: 0 <= i < |make.models| ==> PySlugify(make.models[i].model) == JsSlugify(make.models[i].model)
    requires forall i :: 0 <= i < |make.models| ==> JsSlugify(make.models[i].model) != "constructor"
    ensures MakeDirs(cs, make, PySlugify)
            == [[cs, JsSlugify(make.name)]] + ModelDirs(cs, JsSlugify(make.name), IndexSlugs(ModelNames(make.models)))
  {
    PyIndexByPy(ModelNames(make.models));
    PyIndexMatchesJs(ModelNames(make.models));
  }
}
