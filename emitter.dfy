/**
 * The static page generator of scripts/generate_pages.js: for every category
 * in list order, every make in key order and every model in list order it
 * asks `renderUrl` for the category, make, model and nine year pages, writes
 * the ones that render and counts them. The runs of paths it tries are
 * specification functions; the loops are proved to try exactly those paths,
 * and the lemmas show that on a well-formed table every path tried renders
 * the entity it was built from.
 */
module Emitter {
  import opened Wrappers
  import opened Text
  import opened Slug
  import opened Duty
  import opened Reference
  import opened ModelIndex
  import opened Route

  // ---------------------------------------------------------------------
  // What is tried, what is written

  /** `renderUrl(path)` is not null: the generator writes the page and counts it. */
  predicate Renders(t: Table, p: string, slug: string -> string) {
    ResolveBy(t, Segments(p), slug) != NotFound
  }

  function RendersBy(t: Table, slug: string -> string): string -> bool {
    p => Renders(t, p, slug)
  }

  /** The paths among `paths` that render, in order: the `index.html` files written. */
  function Rendered(paths: seq<string>, renders: string -> bool): (r: seq<string>)
    ensures |r| <= |paths|
  {
    if paths == [] then []
    else
      var n := |paths| - 1;
      Rendered(paths[..n], renders) + (if renders(paths[n]) then [paths[n]] else [])
  }

  /** The year paths of one model, `yr` counting down from 2026: the first `n` of them. */
  function YearPaths(cs: string, ms: string, s: string, n: nat): (r: seq<string>)
    requires n <= CurrentYear
    ensures |r| == n
  {
    if n == 0 then []
    else YearPaths(cs, ms, s, n - 1) + [PathOf([cs, ms, s, NatToDecimal(CurrentYear - (n - 1))])]
  }

  /** The paths tried for one model: its page, then its year pages. */
  function ModelRun(cs: string, ms: string, s: string): seq<string> {
    [PathOf([cs, ms, s])] + YearPaths(cs, ms, s, MaxAge + 1)
  }

  /** The paths tried for the models with the given slugs, in order. */
  function ModelsRun(cs: string, ms: string, slugs: seq<string>): seq<string> {
    if slugs == [] then []
    else
      var n := |slugs| - 1;
      ModelsRun(cs, ms, slugs[..n]) + ModelRun(cs, ms, slugs[n])
  }

  /** The paths tried for one make: its page, then its models under the slugs `buildModelIndex` gives. */
  function MakeRun(cs: string, make: MakeEntry, slug: string -> string): seq<string> {
    [PathOf([cs, slug(make.name)])] + ModelsRun(cs, slug(make.name), IndexBy(ModelNames(make.models), slug))
  }

  function MakesRun(cs: string, makes: seq<MakeEntry>, slug: string -> string): seq<string> {
    if makes == [] then []
    else
      var n := |makes| - 1;
      MakesRun(cs, makes[..n], slug) + MakeRun(cs, makes[n], slug)
  }

  /** The paths tried for one category: its page, then its makes (none when `data` lacks it). */
  function CategoryRun(t: Table, c: string, slug: string -> string): seq<string> {
    [PathOf([slug(c)])] + MakesRun(slug(c), MakesOf(t, c), slug)
  }

  function CategoriesRun(t: Table, cats: seq<string>, slug: string -> string): seq<string> {
    if cats == [] then []
    else
      var n := |cats| - 1;
      CategoriesRun(t, cats[..n], slug) + CategoryRun(t, cats[n], slug)
  }

  /** The index of the first category that `data` has no entry for, or the length when there is none. */
  function FirstMissing(t: Table, cats: seq<string>): (r: nat)
    ensures r <= |cats|
    ensures forall j :: 0 <= j < r ==> FindCategory(t.data, cats[j]).Some?
    ensures r < |cats| ==> FindCategory(t.data, cats[r]).None?
  {
    if cats == [] || FindCategory(t.data, cats[0]).None? then 0
    else
      var r := FirstMissing(t, cats[1..]);
      assert forall j :: 1 <= j < |cats| ==> cats[1..][j - 1] == cats[j];
      1 + r
  }

  /**
   * Every path the generator tries, in order. `Object.entries(undefined)`
   * throws at the first category missing from `data`, right after its
   * category page was tried, and the run ends there.
   */
  function Attempted(t: Table, slug: string -> string): seq<string> {
    var i := FirstMissing(t, t.categories);
    CategoriesRun(t, t.categories[..if i < |t.categories| then i + 1 else i], slug)
  }

  // ---------------------------------------------------------------------
  // The generator's loops

  lemma RenderedSnoc(paths: seq<string>, p: string, renders: string -> bool)
    ensures Rendered(paths + [p], renders) == Rendered(paths, renders) + (if renders(p) then [p] else [])
  {
    assert (paths + [p])[..|paths|] == paths;
  }

  /**
   * `const html = renderUrl(path); if (html) { writeFileSync(…); count++; }`:
   * one more path tried, written and counted exactly when it renders.
   */
  method TryPage(t: Table, p: string, slug: string -> string,
                 attempted: seq<string>, written: seq<string>, count: nat)
      returns (attempted': seq<string>, written': seq<string>, count': nat)
    requires written == Rendered(attempted, RendersBy(t, slug)) && count == |written|
    ensures attempted' == attempted + [p]
    ensures written' == Rendered(attempted', RendersBy(t, slug)) && count' == |written'|
  {
    var html := RenderUrlWith(t, p, slug);
    RenderedSnoc(attempted, p, RendersBy(t, slug));
    attempted', written', count' := attempted + [p], written, count;
    if html != NotFound {
      written' := written + [p];
      count' := count + 1;
    }
  }

  /** The pages of a loop body appended to those before it. */
  lemma RenderedJoin(attempted: seq<string>, written: seq<string>, count: nat,
                     a: seq<string>, w: seq<string>, c: nat, renders: string -> bool)
    requires written == Rendered(attempted, renders) && count == |written|
    requires w == Rendered(a, renders) && c == |w|
    ensures written + w == Rendered(attempted + a, renders) && count + c == |written + w|
  {
    RenderedAppend(attempted, a, renders);
  }

  /** The year loop `for (let yr = CURR_YEAR; yr >= CURR_YEAR - MAX_AGE; yr--)`. */
  method EmitYears(t: Table, cs: string, ms: string, s: string, slug: string -> string)
      returns (attempted: seq<string>, written: seq<string>, count: nat)
    ensures attempted == YearPaths(cs, ms, s, MaxAge + 1)
    ensures written == Rendered(attempted, RendersBy(t, slug)) && count == |written|
  {
    attempted, written, count := [], [], 0;
    var yr := CurrentYear;
    while yr >= CurrentYear - MaxAge
      invariant CurrentYear - MaxAge - 1 <= yr <= CurrentYear
      invariant attempted == YearPaths(cs, ms, s, CurrentYear - yr)
      invariant written == Rendered(attempted, RendersBy(t, slug)) && count == |written|
    {
      attempted, written, count := TryPage(t, PathOf([cs, ms, s, NatToDecimal(yr)]), slug, attempted, written, count);
      yr := yr - 1;
    }
  }

  lemma ModelsRunStep(cs: string, ms: string, slugs: seq<string>, i: nat, before: seq<string>, a: seq<string>)
    requires i < |slugs|
    requires before == ModelsRun(cs, ms, slugs[..i]) && a == YearPaths(cs, ms, slugs[i], MaxAge + 1)
    ensures before + [PathOf([cs, ms, slugs[i]])] + a == ModelsRun(cs, ms, slugs[..i + 1])
  {
    assert slugs[..i + 1][..i] == slugs[..i];
    assert slugs[..i + 1][i] == slugs[i];
    AppendAssoc(before, [PathOf([cs, ms, slugs[i]])], a);
  }

  /** The body of `for (const m of …)` over the slugs already assigned. */
  method EmitSlugs(t: Table, cs: string, ms: string, slugs: seq<string>, slug: string -> string)
      returns (attempted: seq<string>, written: seq<string>, count: nat)
    ensures attempted == ModelsRun(cs, ms, slugs)
    ensures written == Rendered(attempted, RendersBy(t, slug)) && count == |written|
  {
    attempted, written, count := [], [], 0;
    var i := 0;
    while i < |slugs|
      invariant 0 <= i <= |slugs|
      invariant attempted == ModelsRun(cs, ms, slugs[..i])
      invariant written == Rendered(attempted, RendersBy(t, slug)) && count == |written|
    {
      ghost var before := attempted;
      attempted, written, count := TryPage(t, PathOf([cs, ms, slugs[i]]), slug, attempted, written, count);
      var a, w, c := EmitYears(t, cs, ms, slugs[i], slug);
      RenderedJoin(attempted, written, count, a, w, c, RendersBy(t, slug));
      ModelsRunStep(cs, ms, slugs, i, before, a);
      attempted, written, count := attempted + a, written + w, count + c;
      i := i + 1;
    }
    assert slugs[..i] == slugs;
  }

  /** `for (const m of buildModelIndex(models))`: the model page, then its years. */
  method EmitModels(t: Table, cs: string, ms: string, models: seq<ModelVariant>, slug: string -> string)
      returns (attempted: seq<string>, written: seq<string>, count: nat)
    ensures attempted == ModelsRun(cs, ms, IndexBy(ModelNames(models), slug))
    ensures written == Rendered(attempted, RendersBy(t, slug)) && count == |written|
  {
    var indexed := AssignSlugs(models, BaseOf(slug), {"constructor"});
    var slugs := seq(|indexed|, k requires 0 <= k < |indexed| => indexed[k].slug);
    ghost var expected := IndexBy(ModelNames(models), slug);
    assert indexed == Zip(models, expected);
    assert slugs == expected;
    attempted, written, count := EmitSlugs(t, cs, ms, slugs, slug);
  }

  lemma MakesRunStep(cs: string, makes: seq<MakeEntry>, i: nat, before: seq<string>, a: seq<string>,
                     slug: string -> string)
    requires i < |makes|
    requires before == MakesRun(cs, makes[..i], slug)
    requires a == ModelsRun(cs, slug(makes[i].name), IndexBy(ModelNames(makes[i].models), slug))
    ensures before + [PathOf([cs, slug(makes[i].name)])] + a == MakesRun(cs, makes[..i + 1], slug)
  {
    assert makes[..i + 1][..i] == makes[..i];
    assert makes[..i + 1][i] == makes[i];
    AppendAssoc(before, [PathOf([cs, slug(makes[i].name)])], a);
  }

  /** `for (const [make, models] of Object.entries(crsp.data[category]))`. */
  method EmitMakes(t: Table, cs: string, makes: seq<MakeEntry>, slug: string -> string)
      returns (attempted: seq<string>, written: seq<string>, count: nat)
    ensures attempted == MakesRun(cs, makes, slug)
    ensures written == Rendered(attempted, RendersBy(t, slug)) && count == |written|
  {
    attempted, written, count := [], [], 0;
    var i := 0;
    while i < |makes|
      invariant 0 <= i <= |makes|
      invariant attempted == MakesRun(cs, makes[..i], slug)
      invariant written == Rendered(attempted, RendersBy(t, slug)) && count == |written|
    {
      var ms := slug(makes[i].name);
      ghost var before := attempted;
      attempted, written, count := TryPage(t, PathOf([cs, ms]), slug, attempted, written, count);
      var a, w, c := EmitModels(t, cs, ms, makes[i].models, slug);
      RenderedJoin(attempted, written, count, a, w, c, RendersBy(t, slug));
      MakesRunStep(cs, makes, i, before, a, slug);
      attempted, written, count := attempted + a, written + w, count + c;
      i := i + 1;
    }
    assert makes[..i] == makes;
  }

  lemma CategoriesRunStep(t: Table, cats: seq<string>, i: nat, slug: string -> string)
    requires i < |cats|
    ensures CategoriesRun(t, cats[..i], slug) + CategoryRun(t, cats[i], slug) == CategoriesRun(t, cats[..i + 1], slug)
  {
    assert cats[..i + 1][..i] == cats[..i];
  }

  lemma AppendAssoc(a: seq<string>, b: seq<string>, c: seq<string>)
    ensures a + b + c == a + (b + c)
  {
  }

  /**
   * One turn of `for (const category of crsp.categories)`: the category page,
   * then its makes; `found` is false when `data` has no entry for it.
   */
  method EmitCategory(t: Table, c: string, slug: string -> string,
                      attempted: seq<string>, written: seq<string>, count: nat)
      returns (attempted': seq<string>, written': seq<string>, count': nat, found: bool)
    requires written == Rendered(attempted, RendersBy(t, slug)) && count == |written|
    ensures found <==> FindCategory(t.data, c).Some?
    ensures attempted' == attempted + CategoryRun(t, c, slug)
    ensures written' == Rendered(attempted', RendersBy(t, slug)) && count' == |written'|
  {
    var cs := slug(c);
    var p := PathOf([cs]);
    attempted', written', count' := TryPage(t, p, slug, attempted, written, count);
    var makes := FindCategory(t.data, c);
    found := makes.Some?;
    var a, w, n := [], [], 0;
    if found {
      a, w, n := EmitMakes(t, cs, makes.value, slug);
    }
    assert a == MakesRun(cs, MakesOf(t, c), slug);
    RenderedJoin(attempted', written', count', a, w, n, RendersBy(t, slug));
    AppendAssoc(attempted, [p], a);
    attempted', written', count' := attempted' + a, written' + w, count' + n;
  }

  /**
   * The whole generator with the slug function as a parameter. `completed`
   * is false when the run stopped at a category missing from `data`, where
   * the script throws before printing its count.
   */
  method GeneratePagesWith(t: Table, slug: string -> string)
      returns (attempted: seq<string>, written: seq<string>, count: nat, completed: bool)
    ensures completed <==> forall k :: 0 <= k < |t.categories| ==> FindCategory(t.data, t.categories[k]).Some?
    ensures attempted == Attempted(t, slug)
    ensures written == Rendered(attempted, RendersBy(t, slug)) && count == |written|
  {
    var cats := t.categories;
    ghost var stop := FirstMissing(t, cats);
    attempted, written, count := [], [], 0;
    var i := 0;
    while i < |cats|
      invariant 0 <= i <= stop
      invariant attempted == CategoriesRun(t, cats[..i], slug)
      invariant written == Rendered(attempted, RendersBy(t, slug)) && count == |written|
    {
      CategoriesRunStep(t, cats, i, slug);
      var found;
      attempted, written, count, found := EmitCategory(t, cats[i], slug, attempted, written, count);
      if !found {
        assert i == stop;
        completed := false;
        return;
      }
      i := i + 1;
    }
    assert cats[..i] == cats;
    completed := true;
  }

  /** `node scripts/generate_pages.js`: slugs by `slugify`, so `renderUrl` is `Resolve`. */
  method GeneratePages(t: Table) returns (attempted: seq<string>, written: seq<string>, count: nat, completed: bool)
    ensures completed <==> forall k :: 0 <= k < |t.categories| ==> FindCategory(t.data, t.categories[k]).Some?
    ensures attempted == Attempted(t, JsSlugify)
    ensures written == Rendered(attempted, RendersBy(t, JsSlugify)) && count == |written|
    ensures forall p :: p in written <==> p in attempted && Resolve(t, p) != NotFound
    ensures TableReachable(t, JsSlugify) ==>
              completed && written == attempted && count == PageCount(t, t.categories)
  {
    attempted, written, count, completed := GeneratePagesWith(t, JsSlugify);
    RenderedMembers(attempted, RendersBy(t, JsSlugify));
    if TableReachable(t, JsSlugify) {
      EveryPageWritten(t, JsSlugify);
      CategoriesRunLength(t, t.categories, JsSlugify);
    }
  }

  // ---------------------------------------------------------------------
  // Facts about the runs

  /** Pages tried for the given makes: one per make, `MAX_AGE + 2` per model. */
  function MakePageCount(makes: seq<MakeEntry>): nat {
    if makes == [] then 0
    else
      var n := |makes| - 1;
      MakePageCount(makes[..n]) + 1 + (MaxAge + 2) * |makes[n].models|
  }

  /** Pages tried for the given categories: one per category, then its makes. */
  function PageCount(t: Table, cats: seq<string>): nat {
    if cats == [] then 0
    else
      var n := |cats| - 1;
      PageCount(t, cats[..n]) + 1 + MakePageCount(MakesOf(t, cats[n]))
  }

  lemma {:induction false} MakesRunLength(cs: string, makes: seq<MakeEntry>, slug: string -> string)
    ensures |MakesRun(cs, makes, slug)| == MakePageCount(makes)
  {
    if makes != [] {
      var n := |makes| - 1;
      MakesRunLength(cs, makes[..n], slug);
      var slugs := IndexBy(ModelNames(makes[n].models), slug);
      ModelsRunLength(cs, slug(makes[n].name), slugs);
      assert |slugs| == |makes[n].models|;
    }
  }

  lemma {:induction false} CategoriesRunLength(t: Table, cats: seq<string>, slug: string -> string)
    ensures |CategoriesRun(t, cats, slug)| == PageCount(t, cats)
  {
    if cats != [] {
      var n := |cats| - 1;
      CategoriesRunLength(t, cats[..n], slug);
      MakesRunLength(slug(cats[n]), MakesOf(t, cats[n]), slug);
    }
  }

  lemma {:induction false} RenderedAppend(a: seq<string>, b: seq<string>, renders: string -> bool)
    ensures Rendered(a + b, renders) == Rendered(a, renders) + Rendered(b, renders)
    decreases |b|
  {
    if b != [] {
      var n := |b| - 1;
      RenderedAppend(a, b[..n], renders);
      var ab := a + b;
      assert ab[..|ab| - 1] == a + b[..n];
      assert ab[|ab| - 1] == b[n];
      var last := if renders(b[n]) then [b[n]] else [];
      assert Rendered(ab, renders) == Rendered(a + b[..n], renders) + last;
      assert Rendered(b, renders) == Rendered(b[..n], renders) + last;
      assert Rendered(a, renders) + Rendered(b[..n], renders) + last
          == Rendered(a, renders) + (Rendered(b[..n], renders) + last);
    } else {
      assert a + b == a;
    }
  }

  /** A path is written exactly when it is tried and renders. */
  lemma {:induction false} RenderedMembers(paths: seq<string>, renders: string -> bool)
    ensures forall p :: p in Rendered(paths, renders) <==> p in paths && renders(p)
  {
    if paths != [] {
      var n := |paths| - 1;
      RenderedMembers(paths[..n], renders);
      assert paths == paths[..n] + [paths[n]];
    }
  }

  /** Year attempt `j` of a model is the year `2026 - j`, whose age `j` is inside the window. */
  lemma {:induction false} YearPathAt(cs: string, ms: string, s: string, n: nat, j: nat)
    requires n <= CurrentYear && j < n
    ensures YearPaths(cs, ms, s, n)[j] == PathOf([cs, ms, s, NatToDecimal(CurrentYear - j)])
  {
    if j < n - 1 {
      YearPathAt(cs, ms, s, n - 1, j);
    }
  }

  /** Each model is tried `MAX_AGE + 2` times: its page and the nine years 2026 to 2018. */
  lemma {:induction false} ModelsRunLength(cs: string, ms: string, slugs: seq<string>)
    ensures |ModelsRun(cs, ms, slugs)| == (MaxAge + 2) * |slugs|
  {
    if slugs != [] {
      ModelsRunLength(cs, ms, slugs[..|slugs| - 1]);
    }
  }

  // ---------------------------------------------------------------------
  // Round trips: the paths built resolve to the entities they were built from

  /** The slug function never produces a `/`, so a slug is one path segment. */
  ghost predicate SlashFree(slug: string -> string) {
    forall x :: NoSlash(slug(x))
  }

  lemma SlugTextSlashFree(slug: string -> string)
    requires forall x :: IsSlugText(slug(x))
    ensures SlashFree(slug)
  {
    forall x ensures NoSlash(slug(x)) {
      var r := slug(x);
      assert forall i :: 0 <= i < |r| ==> SlugChar(r[i]);
    }
  }

  lemma JsSlashFree()
    ensures SlashFree(JsSlugify)
  {
    SlugTextSlashFree(JsSlugify);
  }

  /** Every slug `buildModelIndex` hands out is a usable path segment. */
  lemma IndexSegment(names: seq<string>, slug: string -> string, i: nat)
    requires SlashFree(slug) && i < |names|
    ensures |IndexBy(names, slug)| == |names| && PathSegment(IndexBy(names, slug)[i])
  {
    var bases := BasesBy(names, BaseOf(slug));
    DedupeShape(bases, {"constructor"}, i);
    var b := bases[i];
    assert b == BaseOf(slug)(names[i], i);
    assert NoSlash(slug(names[i]));
    assert PathSegment(b);
    var suffixed := Suffixed(b, i);
    assert NoSlash(suffixed) by {
      var d := NatToDecimal(i);
      assert suffixed == b + "-" + d;
      forall j | 0 <= j < |suffixed| ensures suffixed[j] != '/' {
        if j < |b| { assert suffixed[j] == b[j]; }
        else if j > |b| { assert suffixed[j] == d[j - |b| - 1]; }
      }
    }
  }

  /** Make `m` of category `k` can be reached by the slugs the generator builds. */
  ghost predicate MakeAt(t: Table, k: nat, m: nat, slug: string -> string) {
    SlashFree(slug) && CategoryReachable(t, k, slug)
    && DistinctMakeKeys(FindCategory(t.data, t.categories[k]).value)
    && MakeReachable(FindCategory(t.data, t.categories[k]).value, m, slug)
  }

  /** `/<cat>/` for a reachable category shows that category. */
  lemma CategoryPathResolves(t: Table, k: nat, slug: string -> string)
    requires SlashFree(slug) && CategoryReachable(t, k, slug)
    ensures var c := t.categories[k];
            ResolveBy(t, Segments(PathOf([slug(c)])), slug)
              == CategoryPage(c, SlugsBy(MakeNames(FindCategory(t.data, c).value), slug))
  {
    SegmentsOfPath([slug(t.categories[k])]);
    CategorySegment(t, k, slug);
  }

  /** `/<cat>/<make>/` shows that make with the slugs of its models. */
  lemma MakePathResolves(t: Table, k: nat, m: nat, slug: string -> string)
    requires MakeAt(t, k, m, slug)
    ensures var c := t.categories[k];
            var make := FindCategory(t.data, c).value[m];
            ResolveBy(t, Segments(PathOf([slug(c), slug(make.name)])), slug)
              == MakePage(c, make.name, IndexBy(ModelNames(make.models), slug))
  {
    var c := t.categories[k];
    var make := FindCategory(t.data, c).value[m];
    SegmentsOfPath([slug(c), slug(make.name)]);
    MakeSegment(t, k, m, slug);
    ModelsOfMake(t, c, m);
  }

  /**
   * `/<cat>/<make>/<slug>/` for the `i`-th slug shows model `j`: model `i`
   * itself when no earlier model has its slug, else the first that has.
   */
  lemma ModelPathResolves(t: Table, k: nat, m: nat, i: nat, slug: string -> string) returns (j: nat)
    requires MakeAt(t, k, m, slug)
    requires i < |FindCategory(t.data, t.categories[k]).value[m].models|
    ensures var c := t.categories[k];
            var make := FindCategory(t.data, c).value[m];
            var slugs := IndexBy(ModelNames(make.models), slug);
            j <= i && slugs[j] == slugs[i] && (slugs[i] !in slugs[..i] ==> j == i)
            && ResolveBy(t, Segments(PathOf([slug(c), slug(make.name), slugs[i]])), slug)
                 == ModelPage(c, make.name, j, IndexedModel(make.models[j], slugs[i]), ListedYears())
  {
    var c := t.categories[k];
    var make := FindCategory(t.data, c).value[m];
    var slugs := IndexBy(ModelNames(make.models), slug);
    var parts := [slug(c), slug(make.name), slugs[i]];
    IndexSegment(ModelNames(make.models), slug, i);
    SegmentsOfPath(parts);
    ModelSegment(t, k, m, slugs[i], slug);
    ResolvesTo(t, parts, ModelTarget(c, make.name, slugs[i]), slug);
    ModelsOfMake(t, c, m);
    assert ModelsOf(t, c, make.name).value == make.models;
    j := ModelViewAt(t, c, make.name, i, slug);
    assert ModelView(t, c, make.name, slugs[i], slug)
        == ModelPage(c, make.name, j, IndexedModel(make.models[j], slugs[i]), ListedYears());
  }

  /**
   * `/<cat>/<make>/<slug>/<year>/` for a year of the window shows the same
   * model priced for that year, with the figures `calcDuty` gives.
   */
  lemma YearPathResolves(t: Table, k: nat, m: nat, i: nat, y: nat, slug: string -> string)
      returns (j: nat, depr: real)
    requires MakeAt(t, k, m, slug)
    requires i < |FindCategory(t.data, t.categories[k]).value[m].models|
    requires CurrentYear - MaxAge <= y <= CurrentYear
    ensures var c := t.categories[k];
            var make := FindCategory(t.data, c).value[m];
            var slugs := IndexBy(ModelNames(make.models), slug);
            var v := ResolveBy(t, Segments(PathOf([slug(c), slug(make.name), slugs[i], NatToDecimal(y)])), slug);
            j <= i && slugs[j] == slugs[i] && (slugs[i] !in slugs[..i] ==> j == i)
            && v == YearPage(c, make.name, j, IndexedModel(make.models[j], slugs[i]), y, depr)
            && CalcDuty(make.models[j].crsp, y) == Some(YearDuty(v))
  {
    var c := t.categories[k];
    var make := FindCategory(t.data, c).value[m];
    var slugs := IndexBy(ModelNames(make.models), slug);
    var q := NatToDecimal(y);
    var parts := [slug(c), slug(make.name), slugs[i], q];
    IndexSegment(ModelNames(make.models), slug, i);
    assert PathSegment(q);
    SegmentsOfPath(parts);
    ParseIntOfDecimal(y, []);
    assert q + [] == q;
    YearSegment(t, k, m, slugs[i], q, slug);
    ResolvesTo(t, parts, YearTarget(c, make.name, slugs[i], y), slug);
    ModelsOfMake(t, c, m);
    assert ModelsOf(t, c, make.name).value == make.models;
    j, depr := YearViewAt(t, c, make.name, i, y, slug);
    YearPagePriced(t, c, make.name, slugs[i], y, slug);
  }

  // ---------------------------------------------------------------------
  // On a table every entity of which is reachable, every page tried is written

  /** The makes of a category have distinct keys and are reachable by their slugs. */
  ghost predicate MakesReachable(makes: seq<MakeEntry>, slug: string -> string) {
    DistinctMakeKeys(makes) && forall m :: 0 <= m < |makes| ==> MakeReachable(makes, m, slug)
  }

  /** Every category, and every make under it, is reachable by its slug. */
  ghost predicate TableReachable(t: Table, slug: string -> string) {
    SlashFree(slug)
    && forall k :: 0 <= k < |t.categories| ==>
         CategoryReachable(t, k, slug) && MakesReachable(FindCategory(t.data, t.categories[k]).value, slug)
  }

  /** Every path of `paths` renders. */
  ghost predicate AllHold(paths: seq<string>, renders: string -> bool) {
    forall i :: 0 <= i < |paths| ==> renders(paths[i])
  }

  ghost predicate AllRender(t: Table, paths: seq<string>, slug: string -> string) {
    AllHold(paths, RendersBy(t, slug))
  }

  lemma AllHoldJoin(a: seq<string>, b: seq<string>, renders: string -> bool)
    requires AllHold(a, renders) && AllHold(b, renders)
    ensures AllHold(a + b, renders)
  {
    forall i | 0 <= i < |a + b| ensures renders((a + b)[i]) {
      if i >= |a| { assert (a + b)[i] == b[i - |a|]; }
    }
  }

  lemma AllRenderJoin(t: Table, a: seq<string>, b: seq<string>, slug: string -> string)
    requires AllRender(t, a, slug) && AllRender(t, b, slug)
    ensures AllRender(t, a + b, slug)
  {
    AllHoldJoin(a, b, RendersBy(t, slug));
  }

  /** When every path renders, every path is written. */
  lemma {:induction false} RenderedAll(paths: seq<string>, renders: string -> bool)
    requires AllHold(paths, renders)
    ensures Rendered(paths, renders) == paths
  {
    if paths != [] {
      var n := |paths| - 1;
      assert AllHold(paths[..n], renders) by {
        forall i | 0 <= i < n ensures renders(paths[..n][i]) {
          assert paths[..n][i] == paths[i];
        }
      }
      RenderedAll(paths[..n], renders);
      assert paths[..n] + [paths[n]] == paths;
    }
  }

  lemma {:induction false} ModelsRunHolds(cs: string, ms: string, slugs: seq<string>, renders: string -> bool)
    requires forall i :: 0 <= i < |slugs| ==> AllHold(ModelRun(cs, ms, slugs[i]), renders)
    ensures AllHold(ModelsRun(cs, ms, slugs), renders)
  {
    if slugs != [] {
      var n := |slugs| - 1;
      assert forall i :: 0 <= i < n ==> slugs[..n][i] == slugs[i];
      ModelsRunHolds(cs, ms, slugs[..n], renders);
      AllHoldJoin(ModelsRun(cs, ms, slugs[..n]), ModelRun(cs, ms, slugs[n]), renders);
    }
  }

  lemma {:induction false} MakesRunHolds(cs: string, makes: seq<MakeEntry>, slug: string -> string, renders: string -> bool)
    requires forall m :: 0 <= m < |makes| ==> AllHold(MakeRun(cs, makes[m], slug), renders)
    ensures AllHold(MakesRun(cs, makes, slug), renders)
  {
    if makes != [] {
      var n := |makes| - 1;
      assert forall m :: 0 <= m < n ==> makes[..n][m] == makes[m];
      MakesRunHolds(cs, makes[..n], slug, renders);
      AllHoldJoin(MakesRun(cs, makes[..n], slug), MakeRun(cs, makes[n], slug), renders);
    }
  }

  lemma {:induction false} CategoriesRunHolds(t: Table, cats: seq<string>, slug: string -> string, renders: string -> bool)
    requires forall k :: 0 <= k < |cats| ==> AllHold(CategoryRun(t, cats[k], slug), renders)
    ensures AllHold(CategoriesRun(t, cats, slug), renders)
  {
    if cats != [] {
      var n := |cats| - 1;
      assert forall k :: 0 <= k < n ==> cats[..n][k] == cats[k];
      CategoriesRunHolds(t, cats[..n], slug, renders);
      AllHoldJoin(CategoriesRun(t, cats[..n], slug), CategoryRun(t, cats[n], slug), renders);
    }
  }

  /** The model path of the `i`-th slug is written. */
  lemma ModelPathRenders(t: Table, k: nat, m: nat, i: nat, slug: string -> string)
    requires MakeAt(t, k, m, slug)
    requires i < |FindCategory(t.data, t.categories[k]).value[m].models|
    ensures var c := t.categories[k];
            var make := FindCategory(t.data, c).value[m];
            var slugs := IndexBy(ModelNames(make.models), slug);
            RendersBy(t, slug)(PathOf([slug(c), slug(make.name), slugs[i]]))
  {
    var _ := ModelPathResolves(t, k, m, i, slug);
  }

  /** So is its path for every year of the window. */
  lemma YearPathRenders(t: Table, k: nat, m: nat, i: nat, y: nat, slug: string -> string)
    requires MakeAt(t, k, m, slug)
    requires i < |FindCategory(t.data, t.categories[k]).value[m].models|
    requires CurrentYear - MaxAge <= y <= CurrentYear
    ensures var c := t.categories[k];
            var make := FindCategory(t.data, c).value[m];
            var slugs := IndexBy(ModelNames(make.models), slug);
            RendersBy(t, slug)(PathOf([slug(c), slug(make.name), slugs[i], NatToDecimal(y)]))
  {
    var _, _ := YearPathResolves(t, k, m, i, y, slug);
  }

  lemma YearsRender(t: Table, k: nat, m: nat, i: nat, slug: string -> string)
    requires MakeAt(t, k, m, slug)
    requires i < |FindCategory(t.data, t.categories[k]).value[m].models|
    ensures var c := t.categories[k];
            var make := FindCategory(t.data, c).value[m];
            var slugs := IndexBy(ModelNames(make.models), slug);
            AllRender(t, YearPaths(slug(c), slug(make.name), slugs[i], MaxAge + 1), slug)
  {
    var c := t.categories[k];
    var make := FindCategory(t.data, c).value[m];
    var slugs := IndexBy(ModelNames(make.models), slug);
    var years := YearPaths(slug(c), slug(make.name), slugs[i], MaxAge + 1);
    forall j | 0 <= j < MaxAge + 1 ensures RendersBy(t, slug)(years[j]) {
      YearPathAt(slug(c), slug(make.name), slugs[i], MaxAge + 1, j);
      YearPathRenders(t, k, m, i, CurrentYear - j, slug);
    }
  }

  lemma ModelRunRenders(t: Table, k: nat, m: nat, i: nat, slug: string -> string)
    requires MakeAt(t, k, m, slug)
    requires i < |FindCategory(t.data, t.categories[k]).value[m].models|
    ensures var c := t.categories[k];
            var make := FindCategory(t.data, c).value[m];
            var slugs := IndexBy(ModelNames(make.models), slug);
            AllRender(t, ModelRun(slug(c), slug(make.name), slugs[i]), slug)
  {
    var c := t.categories[k];
    var make := FindCategory(t.data, c).value[m];
    var slugs := IndexBy(ModelNames(make.models), slug);
    var p := PathOf([slug(c), slug(make.name), slugs[i]]);
    ModelPathRenders(t, k, m, i, slug);
    assert AllHold([p], RendersBy(t, slug));
    YearsRender(t, k, m, i, slug);
    AllHoldJoin([p], YearPaths(slug(c), slug(make.name), slugs[i], MaxAge + 1), RendersBy(t, slug));
  }

  lemma ModelsRunRenders(t: Table, k: nat, m: nat, slug: string -> string)
    requires MakeAt(t, k, m, slug)
    ensures var c := t.categories[k];
            var make := FindCategory(t.data, c).value[m];
            AllRender(t, ModelsRun(slug(c), slug(make.name), IndexBy(ModelNames(make.models), slug)), slug)
  {
    var c := t.categories[k];
    var make := FindCategory(t.data, c).value[m];
    var slugs := IndexBy(ModelNames(make.models), slug);
    assert |slugs| == |make.models|;
    forall i | 0 <= i < |slugs| ensures AllHold(ModelRun(slug(c), slug(make.name), slugs[i]), RendersBy(t, slug)) {
      ModelRunRenders(t, k, m, i, slug);
    }
    ModelsRunHolds(slug(c), slug(make.name), slugs, RendersBy(t, slug));
  }

  lemma MakeRunRenders(t: Table, k: nat, m: nat, slug: string -> string)
    requires MakeAt(t, k, m, slug)
    ensures var c := t.categories[k];
            AllRender(t, MakeRun(slug(c), FindCategory(t.data, c).value[m], slug), slug)
  {
    var c := t.categories[k];
    var make := FindCategory(t.data, c).value[m];
    var slugs := IndexBy(ModelNames(make.models), slug);
    MakePathResolves(t, k, m, slug);
    ModelsRunRenders(t, k, m, slug);
    AllRenderJoin(t, [PathOf([slug(c), slug(make.name)])], ModelsRun(slug(c), slug(make.name), slugs), slug);
  }

  lemma MakesRunRenders(t: Table, k: nat, slug: string -> string)
    requires SlashFree(slug) && CategoryReachable(t, k, slug)
    requires MakesReachable(FindCategory(t.data, t.categories[k]).value, slug)
    ensures var c := t.categories[k];
            AllRender(t, MakesRun(slug(c), FindCategory(t.data, c).value, slug), slug)
  {
    var c := t.categories[k];
    var makes := FindCategory(t.data, c).value;
    forall m | 0 <= m < |makes| ensures AllHold(MakeRun(slug(c), makes[m], slug), RendersBy(t, slug)) {
      assert MakeAt(t, k, m, slug);
      MakeRunRenders(t, k, m, slug);
    }
    MakesRunHolds(slug(c), makes, slug, RendersBy(t, slug));
  }

  lemma CategoryRunRenders(t: Table, k: nat, slug: string -> string)
    requires SlashFree(slug) && CategoryReachable(t, k, slug)
    requires MakesReachable(FindCategory(t.data, t.categories[k]).value, slug)
    ensures AllRender(t, CategoryRun(t, t.categories[k], slug), slug)
  {
    var c := t.categories[k];
    var makes := FindCategory(t.data, c).value;
    CategoryPathResolves(t, k, slug);
    MakesRunRenders(t, k, slug);
    assert MakesOf(t, c) == makes;
    AllRenderJoin(t, [PathOf([slug(c)])], MakesRun(slug(c), makes, slug), slug);
  }

  lemma CategoriesRunRenders(t: Table, slug: string -> string)
    requires TableReachable(t, slug)
    ensures AllRender(t, CategoriesRun(t, t.categories, slug), slug)
  {
    var cats := t.categories;
    forall k | 0 <= k < |cats| ensures AllHold(CategoryRun(t, cats[k], slug), RendersBy(t, slug)) {
      CategoryRunRenders(t, k, slug);
    }
    CategoriesRunHolds(t, cats, slug, RendersBy(t, slug));
  }

  /**
   * On a table whose every category and make is reachable by its slug, the
   * generator runs to the end and writes every page it tries.
   */
  lemma EveryPageWritten(t: Table, slug: string -> string)
    requires TableReachable(t, slug)
    ensures FirstMissing(t, t.categories) == |t.categories|
    ensures Attempted(t, slug) == CategoriesRun(t, t.categories, slug)
    ensures Rendered(Attempted(t, slug), RendersBy(t, slug)) == Attempted(t, slug)
  {
    var cats := t.categories;
    var r := FirstMissing(t, cats);
    assert forall k :: 0 <= k < |cats| ==> FindCategory(t.data, cats[k]).Some?;
    assert cats[..|cats|] == cats;
    CategoriesRunRenders(t, slug);
    RenderedAll(CategoriesRun(t, cats, slug), RendersBy(t, slug));
  }
}
