/**
 * The route resolver of plugins/render.js: `renderUrl(pathname)` splits the
 * path into non-empty segments, looks the first up among the category slugs
 * and the second among the make slugs of that category (slug → name tables
 * filled in list order, so a later name with the same slug wins), and
 * dispatches by depth to the category, make, model or year page. Pages are
 * modelled by what they show about the table, not by their HTML.
 */
module Route {
  import opened Wrappers
  import opened Text
  import opened Slug
  import opened Duty
  import opened Reference
  import opened ModelIndex

  predicate IsSlash(c: char) { c == '/' }

  /** `replace(/^\/|\/$/g, "")`: one leading and one trailing `/` removed. */
  function StripOuterSlashes(p: string): string {
    var a := if p != [] && p[0] == '/' then p[1..] else p;
    if a != [] && a[|a| - 1] == '/' then a[..|a| - 1] else a
  }

  /** `pathname.replace(…).split("/").filter(Boolean)`. */
  function Segments(p: string): seq<string> {
    NonEmpty(SplitBy(StripOuterSlashes(p), IsSlash))
  }

  // ---------------------------------------------------------------------
  // Slug → name tables

  /**
   * `for (const x of names) table[key(x)] = x`: a table filled in list
   * order, so a later name overwrites an earlier one with the same key.
   */
  function KeyedBy(names: seq<string>, key: string -> string): map<string, string> {
    if names == [] then map[]
    else
      var n := |names| - 1;
      KeyedBy(names[..n], key)[key(names[n]) := names[n]]
  }

  /** The table answers exactly for the keys of the names it was filled with. */
  lemma {:induction false} KeyedByKeys(names: seq<string>, key: string -> string, s: string)
    ensures s in KeyedBy(names, key) <==> exists k :: 0 <= k < |names| && key(names[k]) == s
  {
    if names != [] {
      var n := |names| - 1;
      KeyedByKeys(names[..n], key, s);
      if s in KeyedBy(names[..n], key) {
        var k :| 0 <= k < n && key(names[..n][k]) == s;
        assert names[k] == names[..n][k];
      }
      if exists k :: 0 <= k < |names| && key(names[k]) == s {
        var k :| 0 <= k < |names| && key(names[k]) == s;
        if k < n {
          assert names[..n][k] == names[k];
        }
      }
    }
  }

  /** Last write wins: a key answers with the last name that has it. */
  lemma {:induction false} KeyedByLast(names: seq<string>, key: string -> string, k: nat)
    requires k < |names|
    requires forall j :: k < j < |names| ==> key(names[j]) != key(names[k])
    ensures key(names[k]) in KeyedBy(names, key)
    ensures KeyedBy(names, key)[key(names[k])] == names[k]
  {
    var n := |names| - 1;
    if k < n {
      var p := names[..n];
      assert p[k] == names[k];
      assert forall j :: k < j < |p| ==> p[j] == names[j];
      KeyedByLast(p, key, k);
    }
  }

  /** Whatever a key answers with is the last name with that key, at index `k`. */
  lemma {:induction false} KeyedByValue(names: seq<string>, key: string -> string, s: string) returns (k: nat)
    requires s in KeyedBy(names, key)
    ensures k < |names| && key(names[k]) == s && KeyedBy(names, key)[s] == names[k]
    ensures forall j :: k < j < |names| ==> key(names[j]) != s
  {
    var n := |names| - 1;
    if key(names[n]) == s {
      k := n;
    } else {
      var p := names[..n];
      k := KeyedByValue(p, key, s);
      assert p[k] == names[k];
      assert forall j :: k < j < |p| ==> p[j] == names[j];
    }
  }

  lemma KeyedBySnoc(names: seq<string>, key: string -> string, i: nat)
    requires i < |names|
    ensures KeyedBy(names[..i + 1], key) == KeyedBy(names[..i], key)[key(names[i]) := names[i]]
  {
    assert names[..i + 1][..i] == names[..i];
  }

  /** The loop that fills `catBySlug` or `makeBySlug`, with `key` the slug function. */
  method BuildTable(names: seq<string>, key: string -> string) returns (table: map<string, string>)
    ensures table == KeyedBy(names, key)
  {
    table := map[];
    var i := 0;
    while i < |names|
      invariant 0 <= i <= |names|
      invariant table == KeyedBy(names[..i], key)
    {
      KeyedBySnoc(names, key, i);
      table := table[key(names[i]) := names[i]];
      i := i + 1;
    }
    assert names[..i] == names;
  }

  // ---------------------------------------------------------------------
  // Segments

  /** A string with no `/` in it. */
  predicate NoSlash(s: string) { forall i :: 0 <= i < |s| ==> s[i] != '/' }

  /** Outer slashes make no difference once empty segments are dropped. */
  lemma OuterSlashesIrrelevant(p: string)
    ensures Segments(p) == NonEmpty(SplitBy(p, IsSlash))
  {
    var a := if p != [] && p[0] == '/' then p[1..] else p;
    assert NonEmpty(SplitBy(a, IsSlash)) == NonEmpty(SplitBy(p, IsSlash)) by {
      if p != [] && p[0] == '/' {
        LeadingSlash(p);
      }
    }
    var b := if a != [] && a[|a| - 1] == '/' then a[..|a| - 1] else a;
    assert StripOuterSlashes(p) == b;
    assert NonEmpty(SplitBy(b, IsSlash)) == NonEmpty(SplitBy(a, IsSlash)) by {
      if a != [] && a[|a| - 1] == '/' {
        TrailingSlash(a);
      }
    }
  }

  lemma LeadingSlash(p: string)
    requires p != [] && p[0] == '/'
    ensures NonEmpty(SplitBy(p, IsSlash)) == NonEmpty(SplitBy(p[1..], IsSlash))
  {
    SplitAfterPiece("", '/', p[1..], IsSlash);
    assert "" + ['/'] + p[1..] == p;
    NonEmptyAppend([""], SplitBy(p[1..], IsSlash));
  }

  lemma TrailingSlash(a: string)
    requires a != [] && a[|a| - 1] == '/'
    ensures NonEmpty(SplitBy(a, IsSlash)) == NonEmpty(SplitBy(a[..|a| - 1], IsSlash))
  {
    var b := a[..|a| - 1];
    assert b + ['/'] == a;
    SplitSnocSep(b, '/', IsSlash);
    NonEmptyAppend(SplitBy(b, IsSlash), [""]);
  }

  /** `s1/s2/…/sn/`: every segment followed by a slash. */
  function Slashed(segs: seq<string>): string {
    if segs == [] then "" else segs[0] + "/" + Slashed(segs[1..])
  }

  /** The path the generators build for the given segments: `/s1/…/sn/`. */
  function PathOf(segs: seq<string>): string {
    "/" + Slashed(segs)
  }

  lemma {:induction false} SplitSlashed(segs: seq<string>)
    requires forall k :: 0 <= k < |segs| ==> NoSlash(segs[k])
    ensures SplitBy(Slashed(segs), IsSlash) == segs + [""]
  {
    if segs != [] {
      SplitSlashed(segs[1..]);
      SplitAfterPiece(segs[0], '/', Slashed(segs[1..]), IsSlash);
      assert segs[0] + "/" + Slashed(segs[1..]) == segs[0] + ['/'] + Slashed(segs[1..]);
      assert [segs[0]] + (segs[1..] + [""]) == segs + [""];
    }
  }

  lemma {:induction false} NonEmptyOfNonEmpty(segs: seq<string>)
    requires forall k :: 0 <= k < |segs| ==> segs[k] != []
    ensures NonEmpty(segs) == segs
  {
    if segs != [] {
      NonEmptyOfNonEmpty(segs[1..]);
      assert [segs[0]] + segs[1..] == segs;
    }
  }

  /** A path built from non-empty slash-free segments splits back into them. */
  lemma SegmentsOfPath(segs: seq<string>)
    requires forall k :: 0 <= k < |segs| ==> segs[k] != [] && NoSlash(segs[k])
    ensures Segments(PathOf(segs)) == segs
  {
    OuterSlashesIrrelevant(PathOf(segs));
    SplitSlashed(segs);
    SplitAfterPiece("", '/', Slashed(segs), IsSlash);
    assert "" + ['/'] + Slashed(segs) == PathOf(segs);
    NonEmptyAppend([""], segs + [""]);
    NonEmptyAppend(segs, [""]);
    NonEmptyOfNonEmpty(segs);
  }

  /** A path of slashes only, the empty path included, has no segments. */
  lemma {:induction false} OnlySlashesNoSegments(p: string)
    requires forall i :: 0 <= i < |p| ==> p[i] == '/'
    ensures NonEmpty(SplitBy(p, IsSlash)) == []
    decreases |p|
  {
    if p != [] {
      OnlySlashesNoSegments(p[1..]);
      SplitAfterPiece("", '/', p[1..], IsSlash);
      assert "" + ['/'] + p[1..] == p;
      NonEmptyAppend([""], SplitBy(p[1..], IsSlash));
    }
  }

  // ---------------------------------------------------------------------
  // What a route shows

  /** `Array.from({ length: MAX_AGE + 1 }, (_, i) => CURRENT_YEAR - i)`: 2026 down to 2018. */
  function ListedYears(): (r: seq<int>)
    ensures |r| == MaxAge + 1 && forall i :: 0 <= i < |r| ==> r[i] == CurrentYear - i
  {
    seq(MaxAge + 1, i requires 0 <= i <= MaxAge => CurrentYear - i)
  }

  /** The years whose `calcDuty` is not null, in order: the rows of the model page's table. */
  function PricedYears(crsp: real, years: seq<int>): (r: seq<int>)
    ensures |r| <= |years|
  {
    if years == [] then []
    else (if CalcDuty(crsp, years[0]).Some? then [years[0]] else []) + PricedYears(crsp, years[1..])
  }

  /** What a route renders: which entity each page is about and what it links to. */
  datatype View =
    | NotFound
      /** The makes of the category; the page links to `/<cat>/<make slug>/` for each, sorted by name. */
    | CategoryPage(category: string, makeSlugs: seq<string>)
      /** The model slugs from `buildModelIndex`; one card links to `/<cat>/<make>/<slug>/` for each. */
    | MakePage(category: string, make: string, modelSlugs: seq<string>)
      /** The model at `index` of the make's list, and the years its duty table lists. */
    | ModelPage(category: string, make: string, index: nat, model: IndexedModel, years: seq<int>)
      /** The model and year priced, with the depreciation rate for its age; `YearDuty` gives the figures. */
    | YearPage(category: string, make: string, index: nat, model: IndexedModel, year: int, depreciation: real)

  /** `data[category] || {}`: the makes of a category, none when it is missing. */
  function MakesOf(t: Table, category: string): seq<MakeEntry> {
    FindCategory(t.data, category).GetOr([])
  }

  /** `data[category]?.[make]`. */
  function ModelsOf(t: Table, category: string, make: string): Option<seq<ModelVariant>> {
    match FindCategory(t.data, category)
    case None => None
    case Some(makes) => FindMake(makes, make)
  }

  /** The slug of every name, in order. */
  function SlugsBy(names: seq<string>, slug: string -> string): (r: seq<string>)
    ensures |r| == |names| && forall i :: 0 <= i < |names| ==> r[i] == slug(names[i])
  {
    seq(|names|, i requires 0 <= i < |names| => slug(names[i]))
  }

  /*
   * The pages below take the slug function as a parameter `slug`; the site
   * uses `slugify` (see `Resolve`). Every property proved of them holds for
   * any slug function, unless it says otherwise.
   */

  /** `renderCategoryPage`: null when the category has no entry in `data`. */
  function CategoryView(t: Table, category: string, slug: string -> string): View {
    match FindCategory(t.data, category)
    case None => NotFound
    case Some(makes) => CategoryPage(category, SlugsBy(MakeNames(makes), slug))
  }

  /** `renderMakePage`: null when `data[category]?.[make]` is missing; an empty list still renders. */
  function MakeView(t: Table, category: string, make: string, slug: string -> string): View {
    match ModelsOf(t, category, make)
    case None => NotFound
    case Some(models) => MakePage(category, make, IndexBy(ModelNames(models), slug))
  }

  /** The index of the first model of the make holding `modelSlug`, if any. */
  function FindModel(models: seq<ModelVariant>, modelSlug: string, slug: string -> string): (r: Option<nat>)
    ensures r.Some? ==> r.value < |models|
  {
    FirstWithSlug(IndexBy(ModelNames(models), slug), modelSlug)
  }

  /** `renderModelPage`: the first model whose slug is `modelSlug`, with its year rows. */
  function ModelView(t: Table, category: string, make: string, modelSlug: string, slug: string -> string): View {
    match ModelsOf(t, category, make)
    case None => NotFound
    case Some(models) =>
      match FindModel(models, modelSlug, slug)
      case None => NotFound
      case Some(k) =>
        ModelPage(category, make, k, IndexedModel(models[k], IndexBy(ModelNames(models), slug)[k]),
                  PricedYears(models[k].crsp, ListedYears()))
  }

  /** `renderYearPage`: also null when the year is older than the eight-year window. */
  function YearView(t: Table, category: string, make: string, modelSlug: string, year: int,
                    slug: string -> string): View {
    match ModelsOf(t, category, make)
    case None => NotFound
    case Some(models) =>
      match FindModel(models, modelSlug, slug)
      case None => NotFound
      case Some(k) =>
        match GetDepreciation(CurrentYear - year)
        case None => NotFound
        case Some(depr) =>
          YearPage(category, make, k, IndexedModel(models[k], IndexBy(ModelNames(models), slug)[k]), year, depr)
  }

  /** The figures the year page prints: the duty block of `renderYearPage` for its model and year. */
  function YearDuty(v: View): Breakdown
    requires v.YearPage?
  {
    YearFigures(v.model.variant.crsp, CurrentYear - v.year, v.depreciation)
  }

  /** Destructuring `[catSlug, makeSlug, modelSlug, yearStr] = parts`; a missing part is falsy like "". */
  function Part(parts: seq<string>, k: nat): string {
    if k < |parts| then parts[k] else ""
  }

  /** Which page a path asks for, once its slugs are looked up. */
  datatype Target =
    | NoTarget
    | CategoryTarget(category: string)
    | MakeTarget(category: string, make: string)
    | ModelTarget(category: string, make: string, modelSlug: string)
    | YearTarget(category: string, make: string, modelSlug: string, year: int)

  /** The dispatch of `renderUrl` on the segments of the path. */
  function Dispatch(t: Table, parts: seq<string>, slug: string -> string): Target {
    if parts == [] then NoTarget
    else
      var cats := KeyedBy(t.categories, slug);
      if parts[0] !in cats || cats[parts[0]] == "" then NoTarget
      else
        var category := cats[parts[0]];
        if Part(parts, 1) == "" then CategoryTarget(category)
        else
          var makes := KeyedBy(MakeNames(MakesOf(t, category)), slug);
          if parts[1] !in makes || makes[parts[1]] == "" then NoTarget
          else
            var make := makes[parts[1]];
            if Part(parts, 2) == "" then MakeTarget(category, make)
            else if Part(parts, 3) == "" then ModelTarget(category, make, parts[2])
            else
              match ParseInt(parts[3])
              case None => NoTarget
              case Some(year) => YearTarget(category, make, parts[2], year)
  }

  /** The destructuring of a four-segment path reads the four segments in order. */
  lemma PartsOfFour(a: string, b: string, c: string, d: string)
    ensures var p := [a, b, c, d];
            p[0] == a && Part(p, 1) == b && Part(p, 2) == c && Part(p, 3) == d
  {
  }

  /** The page renderer the dispatch calls; a renderer returning null is `NotFound`. */
  function Render(t: Table, target: Target, slug: string -> string): View {
    match target
    case NoTarget => NotFound
    case CategoryTarget(c) => CategoryView(t, c, slug)
    case MakeTarget(c, m) => MakeView(t, c, m, slug)
    case ModelTarget(c, m, s) => ModelView(t, c, m, s, slug)
    case YearTarget(c, m, s, y) => YearView(t, c, m, s, y, slug)
  }

  function ResolveBy(t: Table, parts: seq<string>, slug: string -> string): View {
    Render(t, Dispatch(t, parts, slug), slug)
  }

  /** Once the dispatch is known, the view is that renderer's. */
  lemma ResolvesTo(t: Table, parts: seq<string>, d: Target, slug: string -> string)
    requires Dispatch(t, parts, slug) == d
    ensures d.CategoryTarget? ==> ResolveBy(t, parts, slug) == CategoryView(t, d.category, slug)
    ensures d.MakeTarget? ==> ResolveBy(t, parts, slug) == MakeView(t, d.category, d.make, slug)
    ensures d.ModelTarget? ==> ResolveBy(t, parts, slug) == ModelView(t, d.category, d.make, d.modelSlug, slug)
    ensures d.YearTarget? ==> ResolveBy(t, parts, slug) == YearView(t, d.category, d.make, d.modelSlug, d.year, slug)
  {
  }

  /** `renderUrl(pathname)`. */
  function Resolve(t: Table, pathname: string): View {
    ResolveBy(t, Segments(pathname), JsSlugify)
  }

  // ---------------------------------------------------------------------
  // The renderers as the source runs them

  /** The slugs of an indexed model list, in order. */
  function SlugsOf(indexed: seq<IndexedModel>): (r: seq<string>)
    ensures |r| == |indexed| && forall i :: 0 <= i < |indexed| ==> r[i] == indexed[i].slug
  {
    seq(|indexed|, i requires 0 <= i < |indexed| => indexed[i].slug)
  }

  lemma SlugsOfZip(models: seq<ModelVariant>, slugs: seq<string>)
    requires |slugs| == |models|
    ensures SlugsOf(Zip(models, slugs)) == slugs
  {
  }

  /** `renderMakePage`: `buildModelIndex` run on the make's list. */
  method RenderMakePage(t: Table, category: string, make: string, slug: string -> string) returns (v: View)
    ensures v == MakeView(t, category, make, slug)
  {
    var models := ModelsOf(t, category, make);
    if models.None? {
      return NotFound;
    }
    var indexed := AssignSlugs(models.value, BaseOf(slug), {"constructor"});
    SlugsOfZip(models.value, IndexBy(ModelNames(models.value), slug));
    v := MakePage(category, make, SlugsOf(indexed));
  }

  /**
   * The start of `renderModelPage` and `renderYearPage`: `buildModelIndex`
   * on the make's list, then `indexed.find(x => x.slug === modelSlug)`.
   */
  method FindIndexed(models: seq<ModelVariant>, modelSlug: string, slug: string -> string)
      returns (indexed: seq<IndexedModel>, found: Option<nat>)
    ensures indexed == Zip(models, IndexBy(ModelNames(models), slug))
    ensures found == FindModel(models, modelSlug, slug)
  {
    indexed := AssignSlugs(models, BaseOf(slug), {"constructor"});
    ghost var slugs := IndexBy(ModelNames(models), slug);
    assert indexed == Zip(models, slugs);
    SlugsOfZip(models, slugs);
    found := FirstWithSlug(SlugsOf(indexed), modelSlug);
  }

  /** `renderModelPage`: the model found, then the rows of the years that price. */
  method RenderModelPage(t: Table, category: string, make: string, modelSlug: string, slug: string -> string)
      returns (v: View)
    ensures v == ModelView(t, category, make, modelSlug, slug)
  {
    var models := ModelsOf(t, category, make);
    if models.None? {
      return NotFound;
    }
    var indexed, found := FindIndexed(models.value, modelSlug, slug);
    if found.None? {
      return NotFound;
    }
    var m := indexed[found.value];
    v := ModelPage(category, make, found.value, m, PricedYears(m.variant.crsp, ListedYears()));
  }

  /** `renderYearPage`: the model found, then the depreciation guard; the duty block is `YearDuty`. */
  method RenderYearPage(t: Table, category: string, make: string, modelSlug: string, year: int,
                        slug: string -> string) returns (v: View)
    ensures v == YearView(t, category, make, modelSlug, year, slug)
  {
    var models := ModelsOf(t, category, make);
    if models.None? {
      return NotFound;
    }
    var indexed, found := FindIndexed(models.value, modelSlug, slug);
    if found.None? {
      return NotFound;
    }
    var m := indexed[found.value];
    var depr := GetDepreciation(CurrentYear - year);
    if depr.None? {
      return NotFound;
    }
    v := YearPage(category, make, found.value, m, year, depr.value);
  }

  /** The lookups of `renderUrl`: the `catBySlug` and `makeBySlug` loops and the depth tests. */
  method DispatchParts(t: Table, parts: seq<string>, slug: string -> string) returns (d: Target)
    ensures d == Dispatch(t, parts, slug)
  {
    if parts == [] {
      return NoTarget;
    }
    var catBySlug := BuildTable(t.categories, slug);
    if parts[0] !in catBySlug || catBySlug[parts[0]] == "" {
      return NoTarget;
    }
    var category := catBySlug[parts[0]];
    if Part(parts, 1) == "" {
      return CategoryTarget(category);
    }
    var makeBySlug := BuildTable(MakeNames(MakesOf(t, category)), slug);
    if parts[1] !in makeBySlug || makeBySlug[parts[1]] == "" {
      return NoTarget;
    }
    var make := makeBySlug[parts[1]];
    if Part(parts, 2) == "" {
      return MakeTarget(category, make);
    }
    if Part(parts, 3) == "" {
      return ModelTarget(category, make, parts[2]);
    }
    var year := ParseInt(parts[3]);
    if year.None? {
      return NoTarget;
    }
    d := YearTarget(category, make, parts[2], year.value);
  }

  /** The call to the page renderer the dispatch chose. */
  method RenderTarget(t: Table, d: Target, slug: string -> string) returns (v: View)
    ensures v == Render(t, d, slug)
  {
    match d
    case NoTarget => v := NotFound;
    case CategoryTarget(c) => v := CategoryView(t, c, slug);
    case MakeTarget(c, m) => v := RenderMakePage(t, c, m, slug);
    case ModelTarget(c, m, s) => v := RenderModelPage(t, c, m, s, slug);
    case YearTarget(c, m, s, y) => v := RenderYearPage(t, c, m, s, y, slug);
  }

  /** `renderUrl` with the slug function as a parameter. */
  method RenderUrlWith(t: Table, pathname: string, slug: string -> string) returns (v: View)
    ensures v == ResolveBy(t, Segments(pathname), slug)
  {
    var d := DispatchParts(t, Segments(pathname), slug);
    v := RenderTarget(t, d, slug);
  }

  /** `renderUrl(pathname)`, slugs by `slugify`. */
  method RenderUrl(t: Table, pathname: string) returns (v: View)
    ensures v == Resolve(t, pathname)
  {
    v := RenderUrlWith(t, pathname, JsSlugify);
  }

  // ---------------------------------------------------------------------
  // Properties of the dispatch

  /** The empty path, and any path of slashes only, renders nothing. */
  lemma EmptyPathNotFound(t: Table, p: string)
    requires forall i :: 0 <= i < |p| ==> p[i] == '/'
    ensures Resolve(t, p) == NotFound
  {
    OuterSlashesIrrelevant(p);
    OnlySlashesNoSegments(p);
  }

  /** Segments after the fourth are never looked at. */
  lemma ExtraSegmentsIgnored(t: Table, parts: seq<string>, slug: string -> string)
    requires |parts| > 4
    ensures Dispatch(t, parts, slug) == Dispatch(t, parts[..4], slug)
    ensures ResolveBy(t, parts, slug) == ResolveBy(t, parts[..4], slug)
  {
    var q := parts[..4];
    assert q[0] == parts[0] && q[1] == parts[1] && q[2] == parts[2] && q[3] == parts[3];
    assert Part(q, 1) == Part(parts, 1) && Part(q, 2) == Part(parts, 2) && Part(q, 3) == Part(parts, 3);
  }

  /** With no empty segment, the depth of the path alone picks the kind of page. */
  lemma DispatchByDepth(t: Table, parts: seq<string>, slug: string -> string)
    requires forall k :: 0 <= k < |parts| ==> parts[k] != []
    ensures var v := ResolveBy(t, parts, slug);
            (v.CategoryPage? ==> |parts| == 1) && (v.MakePage? ==> |parts| == 2)
            && (v.ModelPage? ==> |parts| == 3) && (v.YearPage? ==> |parts| >= 4)
  {
  }

  /**
   * The lookups that fail: no segment at all, a first segment that is no
   * category's slug, a second that is no slug of a make of that category, a
   * fourth that `parseInt` reads as `NaN`.
   */
  lemma UnknownSlugsNotFound(t: Table, parts: seq<string>, slug: string -> string)
    ensures parts == [] ==> Dispatch(t, parts, slug) == NoTarget
    ensures parts != [] && (forall k :: 0 <= k < |t.categories| ==> slug(t.categories[k]) != parts[0])
            ==> Dispatch(t, parts, slug) == NoTarget
    ensures |parts| >= 2 && parts[0] in KeyedBy(t.categories, slug) && parts[1] != []
            && (forall k :: 0 <= k < |MakesOf(t, KeyedBy(t.categories, slug)[parts[0]])| ==>
                  slug(MakesOf(t, KeyedBy(t.categories, slug)[parts[0]])[k].name) != parts[1])
            ==> Dispatch(t, parts, slug) == NoTarget
    ensures |parts| >= 4 && (forall k :: 0 <= k < 4 ==> parts[k] != []) && ParseInt(parts[3]) == None
            ==> Dispatch(t, parts, slug) == NoTarget
  {
    if parts != [] {
      KeyedByKeys(t.categories, slug, parts[0]);
      if parts[0] in KeyedBy(t.categories, slug) && |parts| >= 2 {
        var makes := MakeNames(MakesOf(t, KeyedBy(t.categories, slug)[parts[0]]));
        KeyedByKeys(makes, slug, parts[1]);
      }
    }
  }

  /** Nothing to dispatch to renders nothing. */
  lemma NoTargetNotFound(t: Table, parts: seq<string>, slug: string -> string)
    requires Dispatch(t, parts, slug) == NoTarget
    ensures ResolveBy(t, parts, slug) == NotFound
  {
  }

  /**
   * The category a path asks for is the last name in `categories` whose slug
   * is the first segment: when two categories share a slug, the later wins.
   */
  lemma DispatchedCategoryIsLast(t: Table, parts: seq<string>, slug: string -> string) returns (k: nat)
    requires Dispatch(t, parts, slug) != NoTarget
    ensures k < |t.categories| && t.categories[k] == Dispatch(t, parts, slug).category
    ensures slug(t.categories[k]) == parts[0]
    ensures forall j :: k < j < |t.categories| ==> slug(t.categories[j]) != parts[0]
  {
    k := KeyedByValue(t.categories, slug, parts[0]);
  }

  /** Likewise the make is the last make of the category, in key order, whose slug is the second segment. */
  lemma DispatchedMakeIsLast(t: Table, parts: seq<string>, slug: string -> string) returns (k: nat)
    requires var d := Dispatch(t, parts, slug); d.MakeTarget? || d.ModelTarget? || d.YearTarget?
    ensures var d := Dispatch(t, parts, slug);
            var makes := MakesOf(t, d.category);
            k < |makes| && makes[k].name == d.make
            && slug(makes[k].name) == parts[1]
            && forall j :: k < j < |makes| ==> slug(makes[j].name) != parts[1]
  {
    var category := KeyedBy(t.categories, slug)[parts[0]];
    var makes := MakesOf(t, category);
    k := KeyedByValue(MakeNames(makes), slug, parts[1]);
  }

  /** How many levels a target goes down: category 1, make 2, model 3, year 4. */
  function Level(d: Target): nat {
    match d
    case NoTarget => 0
    case CategoryTarget(_) => 1
    case MakeTarget(_, _) => 2
    case ModelTarget(_, _, _) => 3
    case YearTarget(_, _, _, _) => 4
  }

  /** The target `n` levels down the same path. */
  function Ancestor(d: Target, n: nat): (r: Target)
    requires 1 <= n <= Level(d)
    ensures Level(r) == n
  {
    if n == 1 then CategoryTarget(d.category)
    else if n == 2 then MakeTarget(d.category, d.make)
    else if n == 3 then ModelTarget(d.category, d.make, d.modelSlug)
    else d
  }

  /**
   * With no empty segment, a dispatched path goes down one level per segment
   * (four at most), and its leading segments ask for the targets above it.
   */
  lemma DispatchPrefix(t: Table, parts: seq<string>, n: nat, slug: string -> string)
    requires forall k :: 0 <= k < |parts| ==> parts[k] != []
    requires 1 <= n <= |parts| && n <= 4
    requires Dispatch(t, parts, slug) != NoTarget
    ensures Level(Dispatch(t, parts, slug)) == if |parts| < 4 then |parts| else 4
    ensures Dispatch(t, parts[..n], slug) == Ancestor(Dispatch(t, parts, slug), n)
  {
    var q := parts[..n];
    assert forall k :: 0 <= k < n ==> q[k] == parts[k];
    assert Part(q, 1) == (if n > 1 then parts[1] else "");
    assert Part(q, 2) == (if n > 2 then parts[2] else "");
    assert Part(q, 3) == (if n > 3 then parts[3] else "");
  }

  /** Every page above a page that renders renders too. */
  lemma RenderAncestor(t: Table, d: Target, n: nat, slug: string -> string)
    requires 1 <= n <= Level(d)
    requires Render(t, d, slug) != NotFound
    ensures Render(t, Ancestor(d, n), slug) != NotFound
  {
    match d
    case CategoryTarget(_) =>
    case MakeTarget(c, m) =>
      assert ModelsOf(t, c, m).Some?;
      assert FindCategory(t.data, c).Some?;
    case ModelTarget(c, m, s) =>
      assert ModelsOf(t, c, m).Some?;
      assert FindCategory(t.data, c).Some?;
      if n == 2 {
        assert Render(t, Ancestor(d, n), slug) == MakeView(t, c, m, slug);
      }
    case YearTarget(c, m, s, y) =>
      var models := ModelsOf(t, c, m);
      assert models.Some? && FindModel(models.value, s, slug).Some?;
      assert FindCategory(t.data, c).Some?;
      if n == 2 {
        assert Render(t, Ancestor(d, n), slug) == MakeView(t, c, m, slug);
      } else if n == 3 {
        assert Render(t, Ancestor(d, n), slug) == ModelView(t, c, m, s, slug);
      }
  }

  /**
   * Resolution is prefix-monotone: when a path renders, so does every
   * shorter path made of its leading segments.
   */
  lemma PrefixMonotone(t: Table, parts: seq<string>, n: nat, slug: string -> string)
    requires forall k :: 0 <= k < |parts| ==> parts[k] != []
    requires 1 <= n <= |parts|
    requires ResolveBy(t, parts, slug) != NotFound
    ensures ResolveBy(t, parts[..n], slug) != NotFound
  {
    var d := Dispatch(t, parts, slug);
    if n <= 4 {
      DispatchPrefix(t, parts, n, slug);
      RenderAncestor(t, d, n, slug);
    } else {
      LongPrefix(t, parts, n, slug);
    }
  }

  /** A prefix of more than four segments resolves like the whole path. */
  lemma LongPrefix(t: Table, parts: seq<string>, n: nat, slug: string -> string)
    requires 4 < n <= |parts|
    ensures ResolveBy(t, parts[..n], slug) == ResolveBy(t, parts, slug)
  {
    ExtraSegmentsIgnored(t, parts[..n], slug);
    ExtraSegmentsIgnored(t, parts, slug);
    assert parts[..n][..4] == parts[..4];
  }

  /** The fourth segment is read only through `parseInt`. */
  lemma YearReadByParseInt(t: Table, p1: seq<string>, p2: seq<string>, slug: string -> string)
    requires |p1| == |p2| == 4 && p1[0] == p2[0] && p1[1] == p2[1] && p1[2] == p2[2]
    requires p1[1] != [] && p1[2] != [] && p1[3] != [] && p2[3] != []
    requires ParseInt(p1[3]) == ParseInt(p2[3])
    ensures Dispatch(t, p1, slug) == Dispatch(t, p2, slug)
  {
    assert Part(p1, 1) == Part(p2, 1) && Part(p1, 2) == Part(p2, 2);
    assert Part(p1, 3) == p1[3] && Part(p2, 3) == p2[3];
  }

  /** `parseInt` ignores what follows the digits: `2024abc` is the 2024 page. */
  lemma YearWithTrailingText(t: Table, c: string, m: string, s: string, y: nat, rest: string, slug: string -> string)
    requires c != [] && m != [] && s != []
    requires rest == [] || !IsDigit(rest[0])
    ensures Dispatch(t, [c, m, s, NatToDecimal(y) + rest], slug) == Dispatch(t, [c, m, s, NatToDecimal(y)], slug)
  {
    var a, b := NatToDecimal(y) + rest, NatToDecimal(y);
    ParseIntOfDecimal(y, rest);
    ParseIntOfDecimal(y, []);
    assert b + [] == b;
    var p1, p2 := [c, m, s, a], [c, m, s, b];
    YearReadByParseInt(t, p1, p2, slug);
  }

  /** Every year of the window has a price, so the model page lists all nine. */
  lemma AllListedYearsPriced(crsp: real)
    ensures PricedYears(crsp, ListedYears()) == ListedYears()
  {
    var ys := ListedYears();
    forall i | 0 <= i < |ys| ensures CalcDuty(crsp, ys[i]).Some? {
      GetDepreciationSchedule(CurrentYear - ys[i]);
    }
    PricedAll(crsp, ys);
  }

  lemma {:induction false} PricedAll(crsp: real, ys: seq<int>)
    requires forall i :: 0 <= i < |ys| ==> CalcDuty(crsp, ys[i]).Some?
    ensures PricedYears(crsp, ys) == ys
  {
    if ys != [] {
      PricedAll(crsp, ys[1..]);
      assert [ys[0]] + ys[1..] == ys;
    }
  }

  /** A model year in the future renders, priced with no depreciation. */
  lemma FutureYearRenders(t: Table, c: string, m: string, s: string, year: int, slug: string -> string)
    requires year > CurrentYear
    requires ModelsOf(t, c, m).Some? && FindModel(ModelsOf(t, c, m).value, s, slug).Some?
    ensures YearView(t, c, m, s, year, slug).YearPage?
    ensures YearView(t, c, m, s, year, slug).depreciation == 0.0
  {
    GetDepreciationSchedule(CurrentYear - year);
  }

  // ---------------------------------------------------------------------
  // Round trips: the paths the generator builds resolve to what they were built from

  /** What can stand as one path segment: non-empty, with no `/`. */
  predicate PathSegment(s: string) { s != [] && NoSlash(s) }

  /**
   * Category `k` is reachable by its slug: it has a name, its slug is a usable
   * segment, no later category has the same slug, and `data` has an entry for it.
   */
  predicate CategoryReachable(t: Table, k: nat, slug: string -> string) {
    k < |t.categories| && t.categories[k] != "" && PathSegment(slug(t.categories[k]))
    && (forall j :: k < j < |t.categories| ==> slug(t.categories[j]) != slug(t.categories[k]))
    && FindCategory(t.data, t.categories[k]).Some?
  }

  /** Make `m` of a category is reachable by its slug, in the same sense. */
  predicate MakeReachable(makes: seq<MakeEntry>, m: nat, slug: string -> string) {
    m < |makes| && makes[m].name != "" && PathSegment(slug(makes[m].name))
    && forall j :: m < j < |makes| ==> slug(makes[j].name) != slug(makes[m].name)
  }

  lemma CategoryLookup(t: Table, k: nat, slug: string -> string)
    requires CategoryReachable(t, k, slug)
    ensures slug(t.categories[k]) in KeyedBy(t.categories, slug)
    ensures KeyedBy(t.categories, slug)[slug(t.categories[k])] == t.categories[k]
  {
    KeyedByLast(t.categories, slug, k);
  }

  lemma MakeLookup(makes: seq<MakeEntry>, m: nat, slug: string -> string)
    requires MakeReachable(makes, m, slug)
    ensures slug(makes[m].name) in KeyedBy(MakeNames(makes), slug)
    ensures KeyedBy(MakeNames(makes), slug)[slug(makes[m].name)] == makes[m].name
    ensures FindMake(makes, makes[m].name).Some?
  {
    KeyedByLast(MakeNames(makes), slug, m);
    FindMakeSpec(makes, makes[m].name);
  }

  /** A one-segment path with the slug of a reachable category asks for that category. */
  lemma CategorySegment(t: Table, k: nat, slug: string -> string)
    requires CategoryReachable(t, k, slug)
    ensures Dispatch(t, [slug(t.categories[k])], slug) == CategoryTarget(t.categories[k])
  {
    CategoryLookup(t, k, slug);
  }

  /** Two segments with the slugs of a reachable category and one of its reachable makes ask for that make. */
  lemma MakeSegment(t: Table, k: nat, m: nat, slug: string -> string)
    requires CategoryReachable(t, k, slug)
    requires MakeReachable(FindCategory(t.data, t.categories[k]).value, m, slug)
    ensures var c := t.categories[k];
            var make := FindCategory(t.data, c).value[m].name;
            Dispatch(t, [slug(c), slug(make)], slug) == MakeTarget(c, make)
  {
    var c := t.categories[k];
    var make := FindCategory(t.data, c).value[m].name;
    var parts := [slug(c), slug(make)];
    CategoryLookup(t, k, slug);
    MakeLookup(FindCategory(t.data, c).value, m, slug);
    assert MakesOf(t, c) == FindCategory(t.data, c).value;
    assert Part(parts, 1) == slug(make) && Part(parts, 2) == "";
  }

  /** With distinct make keys, the models of make `m` are found under its name. */
  lemma ModelsOfMake(t: Table, c: string, m: nat)
    requires FindCategory(t.data, c).Some?
    requires DistinctMakeKeys(FindCategory(t.data, c).value)
    requires m < |FindCategory(t.data, c).value|
    ensures var make := FindCategory(t.data, c).value[m];
            ModelsOf(t, c, make.name) == Some(make.models)
  {
    FindMakeAt(FindCategory(t.data, c).value, m);
  }

  /** The third segment of a resolved make path is looked up as a model slug. */
  lemma ModelSegment(t: Table, k: nat, m: nat, s: string, slug: string -> string)
    requires CategoryReachable(t, k, slug)
    requires MakeReachable(FindCategory(t.data, t.categories[k]).value, m, slug)
    requires s != []
    ensures var c := t.categories[k];
            var make := FindCategory(t.data, c).value[m].name;
            Dispatch(t, [slug(c), slug(make), s], slug) == ModelTarget(c, make, s)
  {
    var c := t.categories[k];
    var make := FindCategory(t.data, c).value[m].name;
    var parts := [slug(c), slug(make), s];
    CategoryLookup(t, k, slug);
    MakeLookup(FindCategory(t.data, c).value, m, slug);
    assert MakesOf(t, c) == FindCategory(t.data, c).value;
    assert Part(parts, 1) == slug(make) && Part(parts, 2) == s && Part(parts, 3) == "";
  }

  /** Likewise the third and fourth segments of a year path, the fourth read by `parseInt`. */
  lemma YearSegment(t: Table, k: nat, m: nat, s: string, q: string, slug: string -> string)
    requires CategoryReachable(t, k, slug)
    requires MakeReachable(FindCategory(t.data, t.categories[k]).value, m, slug)
    requires s != [] && ParseInt(q).Some?
    ensures var c := t.categories[k];
            var make := FindCategory(t.data, c).value[m].name;
            Dispatch(t, [slug(c), slug(make), s, q], slug) == YearTarget(c, make, s, ParseInt(q).value)
  {
    var c := t.categories[k];
    var make := FindCategory(t.data, c).value[m].name;
    var parts := [slug(c), slug(make), s, q];
    CategoryLookup(t, k, slug);
    MakeLookup(FindCategory(t.data, c).value, m, slug);
    assert MakesOf(t, c) == FindCategory(t.data, c).value;
    PartsOfFour(slug(c), slug(make), s, q);
  }

  /** The `i`-th slug of a make is found at its first holder `k`, which is `i` unless an earlier model has it. */
  lemma SlugAt(models: seq<ModelVariant>, i: nat, slug: string -> string) returns (k: nat)
    requires i < |models|
    ensures var slugs := IndexBy(ModelNames(models), slug);
            k <= i && slugs[k] == slugs[i] && (slugs[i] !in slugs[..i] ==> k == i)
            && FindModel(models, slugs[i], slug) == Some(k)
  {
    var slugs := IndexBy(ModelNames(models), slug);
    LookupOwnSlug(slugs, i);
    k := FirstWithSlug(slugs, slugs[i]).value;
  }

  /**
   * The model page for the `i`-th slug of a make shows the first model
   * holding that slug, at index `k`: model `i` itself unless an earlier model
   * has the same slug. Its table lists all nine years.
   */
  lemma ModelViewAt(t: Table, c: string, make: string, i: nat, slug: string -> string) returns (k: nat)
    requires ModelsOf(t, c, make).Some? && i < |ModelsOf(t, c, make).value|
    ensures var models := ModelsOf(t, c, make).value;
            var slugs := IndexBy(ModelNames(models), slug);
            k <= i && slugs[k] == slugs[i] && (slugs[i] !in slugs[..i] ==> k == i)
            && ModelView(t, c, make, slugs[i], slug)
                 == ModelPage(c, make, k, IndexedModel(models[k], slugs[i]), ListedYears())
  {
    var models := ModelsOf(t, c, make).value;
    k := SlugAt(models, i, slug);
    AllListedYearsPriced(models[k].crsp);
  }

  /**
   * The year page for the `i`-th slug of a make and a year of the window
   * shows the same model as the model page, with the depreciation rate of the
   * year's age.
   */
  lemma YearViewAt(t: Table, c: string, make: string, i: nat, y: int, slug: string -> string)
      returns (k: nat, depr: real)
    requires ModelsOf(t, c, make).Some? && i < |ModelsOf(t, c, make).value|
    requires 0 <= CurrentYear - y <= MaxAge
    ensures var models := ModelsOf(t, c, make).value;
            var slugs := IndexBy(ModelNames(models), slug);
            k <= i && slugs[k] == slugs[i] && (slugs[i] !in slugs[..i] ==> k == i)
            && Some(depr) == TierRate(CurrentYear - y)
            && YearView(t, c, make, slugs[i], y, slug) == YearPage(c, make, k, IndexedModel(models[k], slugs[i]), y, depr)
  {
    var models := ModelsOf(t, c, make).value;
    k := SlugAt(models, i, slug);
    depr := WindowRate(CurrentYear - y);
  }

  /** Every year page that renders prints the figures `calcDuty` computes for its model and year. */
  lemma YearPagePriced(t: Table, c: string, make: string, s: string, y: int, slug: string -> string)
    requires YearView(t, c, make, s, y, slug).YearPage?
    ensures var v := YearView(t, c, make, s, y, slug);
            v.year == y && CalcDuty(v.model.variant.crsp, y) == Some(YearDuty(v))
  {
    var v := YearView(t, c, make, s, y, slug);
    assert GetDepreciation(CurrentYear - y) == Some(v.depreciation);
    YearFiguresAgree(v.model.variant.crsp, y);
  }
}
