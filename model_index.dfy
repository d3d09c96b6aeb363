/**
 * `buildModelIndex` (plugins/render.js, copied verbatim in
 * scripts/generate_pages.js) and the Python generator's dedupe pass: every
 * model of a make gets a URL slug, its name's slug or `model-<i>` when that is
 * empty, and a slug already taken gets `-<i>` appended, once, without checking
 * the result again.
 */
module ModelIndex {
  import opened Wrappers
  import opened Text
  import opened Slug
  import opened Reference

  /** `slug + "-" + i`. */
  function Suffixed(slug: string, i: nat): string {
    slug + "-" + NatToDecimal(i)
  }

  /** The fallback slug of the model at index `i`. */
  function Fallback(i: nat): (r: string)
    ensures r != [] && IsSlugText(r)
  {
    "model-" + NatToDecimal(i)
  }

  /** `slugify(m.model) || `model-${i}``: never empty. */
  function JsBaseSlug(name: string, i: nat): (r: string)
    ensures r != [] && IsSlugText(r)
  {
    if JsSlugify(name) != [] then JsSlugify(name) else Fallback(i)
  }

  /** `slugify(m["model"]) or f"model-{i}"` of scripts/generate_pages.py. */
  function PyBaseSlug(name: string, i: nat): (r: string)
    ensures r != [] && IsSlugText(r)
  {
    if PySlugify(name) != [] then PySlugify(name) else Fallback(i)
  }

  /** The base slug of every model, in order, by the given base-slug rule. */
  function BasesBy(names: seq<string>, base: (string, nat) -> string): (r: seq<string>)
    ensures |r| == |names| && forall i :: 0 <= i < |names| ==> r[i] == base(names[i], i)
  {
    seq(|names|, i requires 0 <= i < |names| => base(names[i], i))
  }

  function JsBases(names: seq<string>): seq<string> {
    BasesBy(names, JsBaseSlug)
  }

  function PyBases(names: seq<string>): seq<string> {
    BasesBy(names, PyBaseSlug)
  }

  /** Whether the table already answers for `b`, given the slugs handed out so far. */
  predicate Taken(prev: seq<string>, inherited: set<string>, b: string) {
    b in prev || b in inherited
  }

  /**
   * The collision pass over base slugs, in list order. `inherited` holds the
   * keys the lookup table answers for without an entry (for a JavaScript
   * object literal, `constructor` from Object.prototype).
   */
  function Dedupe(bases: seq<string>, inherited: set<string>): (r: seq<string>)
    ensures |r| == |bases|
  {
    if bases == [] then []
    else
      var n := |bases| - 1;
      var prev := Dedupe(bases[..n], inherited);
      prev + [if Taken(prev, inherited, bases[n]) then Suffixed(bases[n], n) else bases[n]]
  }

  /**
   * The slug of model `i` is its base slug, suffixed with `-<i>` exactly when
   * an earlier model already holds that base as its slug or the base is an
   * inherited key.
   */
  lemma DedupeAt(bases: seq<string>, inherited: set<string>, i: nat)
    requires i < |bases|
    ensures var r := Dedupe(bases, inherited);
            r[i] == if Taken(r[..i], inherited, bases[i]) then Suffixed(bases[i], i) else bases[i]
  {
    var p := bases[..i + 1];
    DedupePrefix(bases, inherited, i + 1);
    DedupePrefix(bases, inherited, i);
    assert p[..i] == bases[..i];
    assert Dedupe(bases, inherited)[..i] == Dedupe(bases, inherited)[..i + 1][..i];
  }

  /** One more model: the pass over a longer prefix extends the pass over the shorter one. */
  lemma DedupeSnoc(bases: seq<string>, inherited: set<string>, i: nat)
    requires i < |bases|
    ensures var prev := Dedupe(bases[..i], inherited);
            Dedupe(bases[..i + 1], inherited)
              == prev + [if Taken(prev, inherited, bases[i]) then Suffixed(bases[i], i) else bases[i]]
  {
    assert bases[..i + 1][..i] == bases[..i];
  }

  /** Consequences of `DedupeAt`: which slugs get suffixed, and that a plain slug is always new. */
  lemma DedupeShape(bases: seq<string>, inherited: set<string>, i: nat)
    requires i < |bases|
    ensures var r := Dedupe(bases, inherited);
            (r[i] == bases[i] || r[i] == Suffixed(bases[i], i))
            && (r[i] != bases[i] <==> Taken(r[..i], inherited, bases[i]))
            && (r[i] == bases[i] ==> r[i] !in r[..i])
  {
    DedupeAt(bases, inherited, i);
    assert |Suffixed(bases[i], i)| > |bases[i]|;
  }

  /** The slugs `buildModelIndex` gives the models named `names`. */
  function IndexSlugs(names: seq<string>): seq<string> {
    Dedupe(JsBases(names), {"constructor"})
  }

  /** The base-slug rule of `buildModelIndex` for a given slug function. */
  function BaseOf(slug: string -> string): (string, nat) -> string {
    (name: string, i: nat) => if slug(name) != [] then slug(name) else Fallback(i)
  }

  /** `IndexSlugs` with the slug function left as a parameter. */
  function IndexBy(names: seq<string>, slug: string -> string): seq<string> {
    Dedupe(BasesBy(names, BaseOf(slug)), {"constructor"})
  }

  /** With `slugify` as the slug function, `IndexBy` is `IndexSlugs`. */
  lemma IndexByJs(names: seq<string>)
    ensures IndexBy(names, JsSlugify) == IndexSlugs(names)
  {
    assert BasesBy(names, BaseOf(JsSlugify)) == JsBases(names);
  }

  /** The slugs the Python generator gives the model directories of a make. */
  function PyIndexSlugs(names: seq<string>): seq<string> {
    Dedupe(PyBases(names), {})
  }

  /** A model with its URL slug: `{ ...m, slug }`. */
  datatype IndexedModel = IndexedModel(variant: ModelVariant, slug: string)

  /** Each model paired with the slug at the same position. */
  function Zip(models: seq<ModelVariant>, slugs: seq<string>): (r: seq<IndexedModel>)
    requires |slugs| == |models|
    ensures |r| == |models| && forall i :: 0 <= i < |models| ==> r[i] == IndexedModel(models[i], slugs[i])
  {
    seq(|models|, i requires 0 <= i < |models| => IndexedModel(models[i], slugs[i]))
  }

  lemma ZipSnoc(models: seq<ModelVariant>, slugs: seq<string>, i: nat, s: string)
    requires |slugs| == i < |models|
    ensures Zip(models[..i + 1], slugs + [s]) == Zip(models[..i], slugs) + [IndexedModel(models[i], s)]
  {
  }

  /**
   * The collision loop shared by the generators: walk the models in order,
   * take each one's base slug, suffix it with `-<i>` when the lookup table
   * `seen` (or `inherited`) already answers for it, record it in `seen`, and
   * push the model with its slug. Models come out in order and unchanged.
   */
  method AssignSlugs(models: seq<ModelVariant>, base: (string, nat) -> string, inherited: set<string>)
      returns (indexed: seq<IndexedModel>)
    ensures indexed == Zip(models, Dedupe(BasesBy(ModelNames(models), base), inherited))
  {
    ghost var bases := BasesBy(ModelNames(models), base);
    var seen: map<string, nat> := map[];
    indexed := [];
    var i := 0;
    while i < |models|
      invariant 0 <= i <= |models|
      invariant indexed == Zip(models[..i], Dedupe(bases[..i], inherited))
      invariant seen.Keys == Elements(Dedupe(bases[..i], inherited))
    {
      var slug := base(models[i].model, i);
      ghost var prev := Dedupe(bases[..i], inherited);
      assert bases[i] == slug;
      DedupeSnoc(bases, inherited, i);
      if slug in seen || slug in inherited {
        slug := Suffixed(slug, i);
      }
      seen := seen[slug := i];
      ElementsSnoc(prev, slug);
      ZipSnoc(models, prev, i, slug);
      indexed := indexed + [IndexedModel(models[i], slug)];
      i := i + 1;
    }
    assert bases[..i] == bases;
    assert models[..i] == models;
  }

  /**
   * `buildModelIndex(models)`: the models in order, unchanged, each paired with
   * the slug `IndexSlugs` assigns it. A JavaScript object literal answers for
   * `constructor` before anything is stored in it, so `seen[slug] !== undefined`
   * holds for that key from the start.
   */
  method BuildModelIndex(models: seq<ModelVariant>) returns (indexed: seq<IndexedModel>)
    ensures indexed == Zip(models, IndexSlugs(ModelNames(models)))
  {
    indexed := AssignSlugs(models, JsBaseSlug, {"constructor"});
  }

  /** `indexed.find(x => x.slug === s)`: the first model holding slug `s`. */
  function FirstWithSlug(slugs: seq<string>, s: string): (r: Option<nat>)
    ensures r.None? <==> s !in slugs
    ensures r.Some? ==> r.value < |slugs| && slugs[r.value] == s && s !in slugs[..r.value]
  {
    if slugs == [] then None
    else if slugs[0] == s then Some(0)
    else
      var r := FirstWithSlug(slugs[1..], s);
      if r.None? then None
      else
        assert slugs[..r.value + 1] == [slugs[0]] + slugs[1..][..r.value];
        Some(r.value + 1)
  }

  predicate Distinct(s: seq<string>) {
    forall i, j :: 0 <= i < j < |s| ==> s[i] != s[j]
  }

  // ---------------------------------------------------------------------
  // What the pass guarantees and what it does not

  /** The table is built in list order: the slugs of a prefix are a prefix of the slugs. */
  lemma {:induction false} DedupePrefix(bases: seq<string>, inherited: set<string>, k: nat)
    requires k <= |bases|
    ensures Dedupe(bases[..k], inherited) == Dedupe(bases, inherited)[..k]
    decreases |bases|
  {
    if k < |bases| {
      var n := |bases| - 1;
      assert bases[..n][..k] == bases[..k];
      DedupePrefix(bases[..n], inherited, k);
      assert Dedupe(bases, inherited)[..n] == Dedupe(bases[..n], inherited);
    } else {
      assert bases[..k] == bases;
    }
  }

  /**
   * With distinct slugs every model is found again by its own slug; when a
   * slug repeats an earlier one, looking it up finds the earlier model.
   */
  lemma LookupOwnSlug(slugs: seq<string>, m: nat)
    requires m < |slugs|
    ensures FirstWithSlug(slugs, slugs[m]).Some?
    ensures slugs[m] !in slugs[..m] ==> FirstWithSlug(slugs, slugs[m]) == Some(m)
    ensures slugs[m] in slugs[..m] ==> FirstWithSlug(slugs, slugs[m]).value < m
  {
    var r := FirstWithSlug(slugs, slugs[m]);
    assert slugs[m] in slugs;
    var k := r.value;
    if m < k {
      SliceMember(slugs, m, k);
    }
    if k < m {
      SliceMember(slugs, k, m);
    }
    if slugs[m] in slugs[..m] {
      var j :| 0 <= j < m && slugs[..m][j] == slugs[m];
    }
  }

  lemma SliceMember(s: seq<string>, i: nat, k: nat)
    requires i < k <= |s|
    ensures s[i] in s[..k]
  {
    assert s[..k][i] == s[i];
  }

  lemma DistinctLookup(slugs: seq<string>, m: nat)
    requires Distinct(slugs) && m < |slugs|
    ensures FirstWithSlug(slugs, slugs[m]) == Some(m)
  {
    LookupOwnSlug(slugs, m);
  }

  /** A string that ends in `-` followed by at least one decimal digit. */
  predicate EndsWithNumber(s: string) {
    exists k :: 0 <= k < |s| - 1 && s[k] == '-' && forall j :: k < j < |s| ==> IsDigit(s[j])
  }

  lemma SuffixedEndsWithNumber(b: string, i: nat)
    ensures EndsWithNumber(Suffixed(b, i))
  {
    var s := Suffixed(b, i);
    assert s[|b|] == '-';
    assert forall j :: |b| < j < |s| ==> s[j] == NatToDecimal(i)[j - |b| - 1];
  }

  /** Two suffixed strings with different numbers differ. */
  lemma TailsDiffer(a: string, d1: string, b: string, d2: string)
    requires d1 != [] && d2 != []
    requires forall j :: 0 <= j < |d1| ==> IsDigit(d1[j])
    requires forall j :: 0 <= j < |d2| ==> IsDigit(d2[j])
    requires d1 != d2
    ensures a + "-" + d1 != b + "-" + d2
  {
    var x, y := a + "-" + d1, b + "-" + d2;
    if |x| == |y| {
      if |d1| < |d2| {
        var p := |x| - |d1| - 1;
        assert x[p] == '-';
        assert y[p] == d2[p - |b| - 1];
      } else if |d1| > |d2| {
        var p := |y| - |d2| - 1;
        assert y[p] == '-';
        assert x[p] == d1[p - |a| - 1];
      } else {
        var j :| 0 <= j < |d1| && d1[j] != d2[j];
        assert x[|a| + 1 + j] == d1[j];
        assert y[|b| + 1 + j] == d2[j];
      }
    }
  }

  lemma NumbersDiffer(i: nat, j: nat)
    requires i != j
    ensures NatToDecimal(i) != NatToDecimal(j)
  {
    DigitsOfDecimal(i);
    DigitsOfDecimal(j);
  }

  /**
   * The pass yields distinct slugs when every base slug is either free of a
   * numeric tail or the model's own fallback `model-<i>`: a suffixed slug can
   * then collide neither with an earlier unsuffixed slug nor with an earlier
   * suffixed one, whose number differs.
   */
  lemma {:induction false} DedupeDistinct(bases: seq<string>, inherited: set<string>)
    requires forall i :: 0 <= i < |bases| ==> !EndsWithNumber(bases[i]) || bases[i] == Fallback(i)
    ensures Distinct(Dedupe(bases, inherited))
  {
    var r := Dedupe(bases, inherited);
    forall j, i | 0 <= j < i < |r| ensures r[j] != r[i] {
      DedupeShape(bases, inherited, i);
      DedupeShape(bases, inherited, j);
      assert r[..i][j] == r[j];
      if r[i] != bases[i] {
        var di, dj := NatToDecimal(i), NatToDecimal(j);
        NumbersDiffer(i, j);
        if r[j] == bases[j] {
          if bases[j] == Fallback(j) {
            TailsDiffer(bases[i], di, "model", dj);
            assert Fallback(j) == "model" + "-" + dj;
          } else {
            SuffixedEndsWithNumber(bases[i], i);
          }
        } else {
          TailsDiffer(bases[i], di, bases[j], dj);
        }
      }
    }
  }

  /** For `buildModelIndex`: distinct slugs unless some name's slug ends in `-<digits>`. */
  lemma IndexDistinct(names: seq<string>)
    requires forall i :: 0 <= i < |names| ==> !EndsWithNumber(JsSlugify(names[i]))
    ensures Distinct(IndexSlugs(names))
  {
    IndexDistinctBy(names, JsSlugify);
    IndexByJs(names);
  }

  lemma IndexDistinctBy(names: seq<string>, slug: string -> string)
    requires forall i :: 0 <= i < |names| ==> !EndsWithNumber(slug(names[i]))
    ensures Distinct(IndexBy(names, slug))
  {
    var bases := BasesBy(names, BaseOf(slug));
    forall i | 0 <= i < |bases| ensures !EndsWithNumber(bases[i]) || bases[i] == Fallback(i) {
      assert bases[i] == BaseOf(slug)(names[i], i);
    }
    DedupeDistinct(bases, {"constructor"});
  }

  /** The inherited `constructor` key: a model named "Constructor" never keeps its plain slug. */
  lemma ConstructorAlwaysSuffixed(names: seq<string>, i: nat)
    requires i < |names| && JsSlugify(names[i]) == "constructor"
    ensures IndexSlugs(names)[i] == Suffixed("constructor", i)
  {
    DedupeAt(JsBases(names), {"constructor"}, i);
  }

  /** The two generators' passes agree when the base slugs agree and none is an inherited key. */
  lemma {:induction false} DedupeInheritedIrrelevant(bases: seq<string>, inh1: set<string>, inh2: set<string>)
    requires forall i :: 0 <= i < |bases| ==> bases[i] !in inh1 && bases[i] !in inh2
    ensures Dedupe(bases, inh1) == Dedupe(bases, inh2)
  {
    if bases != [] {
      var n := |bases| - 1;
      DedupeInheritedIrrelevant(bases[..n], inh1, inh2);
    }
  }

  lemma PyIndexMatchesJs(names: seq<string>)
    requires forall i :: 0 <= i < |names| ==> PySlugify(names[i]) == JsSlugify(names[i])
    requires forall i :: 0 <= i < |names| ==> JsSlugify(names[i]) != "constructor"
    ensures PyIndexSlugs(names) == IndexSlugs(names)
  {
    assert PyBases(names) == JsBases(names);
    forall i | 0 <= i < |names| ensures JsBases(names)[i] != "constructor" {
      assert Fallback(i)[0] == 'm';
    }
    DedupeInheritedIrrelevant(JsBases(names), {}, {"constructor"});
  }

  // ---------------------------------------------------------------------
  // A collision the single suffix lets through

  lemma SlugGT() ensures JsSlugify("GT") == "gt" {
    assert Lower("GT") == "gt" by { assert "GT"[1..] == "T"; }
    assert KeepAllowed(JS, "gt") == "gt" by { assert "gt"[1..] == "t"; }
    assert ReplaceSpaceRuns(JS, "gt") == "gt" by { assert "gt"[1..] == "t"; }
    assert CollapseDashes("gt") == "gt" by { assert "gt"[1..] == "t"; }
    JsTrimIsNoOp("GT");
  }

  lemma SlugGT2() ensures JsSlugify("GT 2") == "gt-2" {
    LowerGT2();
    KeepGT2();
    SpacesGT2();
    DashesGT2();
    JsTrimIsNoOp("GT 2");
  }

  lemma LowerGT2() ensures Lower("GT 2") == "gt 2" {
    assert "GT 2"[1..] == "T 2";
    assert "T 2"[1..] == " 2";
    assert " 2"[1..] == "2";
  }

  lemma KeepGT2() ensures KeepAllowed(JS, "gt 2") == "gt 2" {
    assert "gt 2"[1..] == "t 2";
    assert "t 2"[1..] == " 2";
    assert " 2"[1..] == "2";
  }

  lemma SpacesGT2() ensures ReplaceSpaceRuns(JS, "gt 2") == "gt-2" {
    assert "gt 2"[1..] == "t 2";
    assert "t 2"[1..] == " 2";
    assert " 2"[1..] == "2";
  }

  lemma DashesGT2() ensures CollapseDashes("gt-2") == "gt-2" {
    assert "gt-2"[1..] == "t-2";
    assert "t-2"[1..] == "-2";
    assert "-2"[1..] == "2";
  }

  /**
   * Models "GT", "GT 2", "GT": the third is suffixed to `gt-2`, the slug the
   * second already holds, so two models share one URL and the lookup by
   * slug reaches only the second.
   */
  lemma CollisionExample()
    ensures IndexSlugs(["GT", "GT 2", "GT"]) == ["gt", "gt-2", "gt-2"]
    ensures !Distinct(IndexSlugs(["GT", "GT 2", "GT"]))
    ensures FirstWithSlug(IndexSlugs(["GT", "GT 2", "GT"]), "gt-2") == Some(1)
  {
    BasesExample();
    DedupeExample();
    var r := IndexSlugs(["GT", "GT 2", "GT"]);
    assert r[1] == r[2];
  }

  lemma BasesExample() ensures JsBases(["GT", "GT 2", "GT"]) == ["gt", "gt-2", "gt"] {
    SlugGT();
    SlugGT2();
  }

  lemma DedupeExample() ensures Dedupe(["gt", "gt-2", "gt"], {"constructor"}) == ["gt", "gt-2", "gt-2"] {
    var b: seq<string> := ["gt", "gt-2", "gt"];
    var inh := {"constructor"};
    assert b[..2] == ["gt", "gt-2"];
    assert ["gt", "gt-2"][..1] == ["gt"];
    assert ["gt"][..0] == [];
    assert Dedupe(["gt"], inh) == ["gt"];
    assert "gt-2" != "gt";
    assert Dedupe(["gt", "gt-2"], inh) == ["gt", "gt-2"];
    assert NatToDecimal(2) == "2";
    assert Suffixed("gt", 2) == "gt-2";
  }

  // ---------------------------------------------------------------------
  // The pass with the suffixed slug checked again

  function Elements(s: seq<string>): (r: set<string>)
    ensures forall x :: x in r <==> x in s
  {
    set x | x in s
  }

  lemma ElementsSnoc(s: seq<string>, x: string)
    ensures Elements(s + [x]) == Elements(s) + {x}
  {
  }

  /** Longer-or-equal members of `seen`: what a candidate may still run into. */
  function Reachable(seen: set<string>, s: string): set<string> {
    set x | x in seen && |x| >= |s|
  }

  lemma ReachableShrinks(seen: set<string>, s: string, t: string)
    requires s in seen && |t| > |s|
    ensures |Reachable(seen, t)| < |Reachable(seen, s)|
  {
    var small, big := Reachable(seen, t), Reachable(seen, s);
    var gone := big - small;
    assert s in gone;
    assert big == small + gone && small * gone == {};
    assert |big| == |small| + |gone|;
  }

  /** Appends `-<i>` until the candidate is free. */
  function FreshSlug(s: string, seen: set<string>, i: nat): (r: string)
    ensures r !in seen
    ensures s !in seen ==> r == s
    decreases |Reachable(seen, s)|
  {
    if s !in seen then s
    else
      ReachableShrinks(seen, s, Suffixed(s, i));
      FreshSlug(Suffixed(s, i), seen, i)
  }

  /**
   * The collision pass as evidently intended: a suffixed slug that is still
   * taken is suffixed again, and only slugs actually given out count as taken.
   */
  function UniqueDedupe(bases: seq<string>): (r: seq<string>)
    ensures |r| == |bases|
  {
    if bases == [] then []
    else
      var n := |bases| - 1;
      var prev := UniqueDedupe(bases[..n]);
      prev + [FreshSlug(bases[n], Elements(prev), n)]
  }

  /** Every model gets its own slug, whatever the names. */
  lemma {:induction false} UniqueDedupeDistinct(bases: seq<string>)
    ensures Distinct(UniqueDedupe(bases))
  {
    if bases != [] {
      var n := |bases| - 1;
      UniqueDedupeDistinct(bases[..n]);
      var r := UniqueDedupe(bases);
      assert r[..n] == UniqueDedupe(bases[..n]);
      assert forall j :: 0 <= j < n ==> r[j] == r[..n][j];
    }
  }

  /**
   * Where the single-suffix pass already gives distinct slugs and no base is
   * an inherited key, the corrected pass gives the same slugs: no URL that
   * works today moves.
   */
  lemma {:induction false} UniqueDedupeAgrees(bases: seq<string>, inherited: set<string>)
    requires Distinct(Dedupe(bases, inherited))
    requires forall i :: 0 <= i < |bases| ==> bases[i] !in inherited
    ensures UniqueDedupe(bases) == Dedupe(bases, inherited)
  {
    if bases != [] {
      var n := |bases| - 1;
      var r := Dedupe(bases, inherited);
      var prev := Dedupe(bases[..n], inherited);
      DedupePrefix(bases, inherited, n);
      assert prev == r[..n];
      assert Distinct(prev) by {
        forall i, j | 0 <= i < j < |prev| ensures prev[i] != prev[j] {
          assert prev[i] == r[i] && prev[j] == r[j];
        }
      }
      UniqueDedupeAgrees(bases[..n], inherited);
      assert r[n] !in prev by {
        forall j | 0 <= j < n ensures prev[j] != r[n] {
          assert prev[j] == r[j];
        }
      }
      if bases[n] in prev {
        assert r[n] == Suffixed(bases[n], n);
        assert FreshSlug(bases[n], Elements(prev), n) == FreshSlug(r[n], Elements(prev), n);
      }
      assert r == prev + [r[n]];
    }
  }

  /** `buildModelIndex` with the corrected pass. */
  function UniqueIndexSlugs(names: seq<string>): (r: seq<string>)
    ensures |r| == |names| && Distinct(r)
  {
    UniqueDedupeDistinct(JsBases(names));
    UniqueDedupe(JsBases(names))
  }
}
