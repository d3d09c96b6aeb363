/**
 * The slug codec: `slugify` as written in plugins/render.js (JavaScript) and in
 * scripts/generate_pages.py (Python). Both lower-case the name, delete every
 * character outside `[a-z0-9\s-]`, turn each run of whitespace into one `-`
 * and each run of `-` into one `-`. They differ in where whitespace is trimmed:
 * Python strips it before the whitespace pass, JavaScript calls `trim()` after
 * it, when no whitespace is left, so a JavaScript slug keeps dashes that came
 * from outer whitespace.
 */
module Slug {
  import opened Text

  /** The characters a slug is made of. */
  predicate SlugChar(c: char) { IsLowerLetter(c) || IsDigit(c) || c == '-' }

  predicate IsSlugText(s: string) { forall i :: 0 <= i < |s| ==> SlugChar(s[i]) }

  predicate NoDoubleDash(s: string) {
    forall i, j :: 0 <= i < |s| && 0 <= j < |s| && j == i + 1 ==> !(s[i] == '-' && s[j] == '-')
  }

  /** Characters that survive the `[^a-z0-9\s-]` deletion. */
  predicate Kept(d: Dialect, c: char) { IsLowerLetter(c) || IsDigit(c) || IsSpace(d, c) || c == '-' }

  /** `replace(/[^a-z0-9\s-]/g, "")` / `re.sub(r"[^a-z0-9\s-]", "", s)`. */
  function KeepAllowed(d: Dialect, s: string): (r: string)
    ensures |r| <= |s|
    ensures forall i :: 0 <= i < |r| ==> Kept(d, r[i])
  {
    if s == [] then []
    else (if Kept(d, s[0]) then [s[0]] else []) + KeepAllowed(d, s[1..])
  }

  /** Each maximal run of whitespace becomes one `-`; `afterSpace` says the run started earlier. */
  function SpaceRunsFrom(d: Dialect, s: string, afterSpace: bool): (r: string)
    ensures |r| <= |s|
    ensures forall i :: 0 <= i < |r| ==> !IsSpace(d, r[i])
    ensures (forall i :: 0 <= i < |s| ==> Kept(d, s[i])) ==> IsSlugText(r)
  {
    if s == [] then []
    else if IsSpace(d, s[0]) then (if afterSpace then "" else "-") + SpaceRunsFrom(d, s[1..], true)
    else [s[0]] + SpaceRunsFrom(d, s[1..], false)
  }

  /** `replace(/\s+/g, "-")` / `re.sub(r"[\s]+", "-", s)`. */
  function ReplaceSpaceRuns(d: Dialect, s: string): string {
    SpaceRunsFrom(d, s, false)
  }

  /** Each maximal run of `-` becomes one `-`; `afterDash` says a `-` was just emitted. */
  function DashRunsFrom(s: string, afterDash: bool): (r: string)
    ensures |r| <= |s|
    ensures NoDoubleDash(r)
    ensures afterDash && r != [] ==> r[0] != '-'
    ensures IsSlugText(s) ==> IsSlugText(r)
  {
    if s == [] then []
    else if s[0] == '-' then (if afterDash then "" else "-") + DashRunsFrom(s[1..], true)
    else [s[0]] + DashRunsFrom(s[1..], false)
  }

  /** `replace(/-+/g, "-")` / `re.sub(r"-+", "-", s)`. */
  function CollapseDashes(s: string): string {
    DashRunsFrom(s, false)
  }

  /**
   * plugins/render.js `slugify`. The result uses only `[a-z0-9-]` and never two
   * dashes in a row, whatever the name.
   */
  function JsSlugify(name: string): (r: string)
    ensures IsSlugText(r) && NoDoubleDash(r)
    ensures |r| <= |name|
  {
    var kept := KeepAllowed(JS, Lower(name));
    var dashed := ReplaceSpaceRuns(JS, kept);
    var collapsed := CollapseDashes(dashed);
    TrimNothingToTrim(JS, collapsed);
    Strip(JS, collapsed)
  }

  /** scripts/generate_pages.py `slugify`; the same alphabet and no double dash. */
  function PySlugify(name: string): (r: string)
    ensures IsSlugText(r) && NoDoubleDash(r)
    ensures |r| <= |name|
  {
    var kept := KeepAllowed(Python, Lower(name));
    var stripped := Strip(Python, kept);
    StripKeepsAll(Python, kept, c => Kept(Python, c));
    var dashed := ReplaceSpaceRuns(Python, stripped);
    CollapseDashes(dashed)
  }

  /** Trimming the front keeps a suffix, so a property of every character survives it. */
  lemma TrimStartKeepsAll(d: Dialect, s: string, P: char -> bool)
    requires forall i :: 0 <= i < |s| ==> P(s[i])
    ensures forall i :: 0 <= i < |TrimStart(d, s)| ==> P(TrimStart(d, s)[i])
  {
    var r := TrimStart(d, s);
    forall i | 0 <= i < |r|
      ensures P(r[i])
    {
      assert r[i] == s[i + |s| - |r|];
    }
  }

  /** Trimming the back keeps a prefix, so a property of every character survives it. */
  lemma TrimEndKeepsAll(d: Dialect, s: string, P: char -> bool)
    requires forall i :: 0 <= i < |s| ==> P(s[i])
    ensures forall i :: 0 <= i < |TrimEnd(d, s)| ==> P(TrimEnd(d, s)[i])
  {
    var r := TrimEnd(d, s);
    forall i | 0 <= i < |r|
      ensures P(r[i])
    {
      assert r[i] == s[i];
    }
  }

  /** Stripping only drops characters from the ends, so a property of every character survives it. */
  lemma StripKeepsAll(d: Dialect, s: string, P: char -> bool)
    requires forall i :: 0 <= i < |s| ==> P(s[i])
    ensures forall i :: 0 <= i < |Strip(d, s)| ==> P(Strip(d, s)[i])
  {
    TrimStartKeepsAll(d, s, P);
    TrimEndKeepsAll(d, TrimStart(d, s), P);
  }

  lemma TrimNothingToTrim(d: Dialect, s: string)
    requires forall i :: 0 <= i < |s| ==> !IsSpace(d, s[i])
    ensures Strip(d, s) == s
  {
    StripUnchanged(d, s);
  }

  /**
   * In JavaScript `trim()` runs when no whitespace is left, so it never changes
   * anything: the slug is the dash-collapsed, space-replaced filtered name.
   */
  lemma JsTrimIsNoOp(name: string)
    ensures JsSlugify(name) == CollapseDashes(ReplaceSpaceRuns(JS, KeepAllowed(JS, Lower(name))))
  {
    var collapsed := CollapseDashes(ReplaceSpaceRuns(JS, KeepAllowed(JS, Lower(name))));
    assert JsSlugify(name) == Strip(JS, collapsed);
    TrimNothingToTrim(JS, collapsed);
  }

  /** Outer whitespace becomes outer dashes in JavaScript and disappears in Python. */
  lemma OuterWhitespaceExample()
    ensures JsSlugify(" GT ") == "-gt-"
    ensures PySlugify(" GT ") == "gt"
  {
    LowerExample();
    KeepExample();
    JsDashExample();
    JsTrimIsNoOp(" GT ");
    PyStripExample();
    PyDashExample();
  }

  lemma LowerExample() ensures Lower(" GT ") == " gt " {
    assert " GT "[1..] == "GT ";
    assert "GT "[1..] == "T ";
    assert "T "[1..] == " ";
  }

  lemma KeepExample()
    ensures KeepAllowed(JS, " gt ") == " gt "
    ensures KeepAllowed(Python, " gt ") == " gt "
  {
    assert " gt "[1..] == "gt ";
    assert "gt "[1..] == "t ";
    assert "t "[1..] == " ";
  }

  lemma JsDashExample()
    ensures ReplaceSpaceRuns(JS, " gt ") == "-gt-"
    ensures CollapseDashes("-gt-") == "-gt-"
  {
    assert " gt "[1..] == "gt ";
    assert "gt "[1..] == "t ";
    assert "t "[1..] == " ";
    assert "-gt-"[1..] == "gt-";
    assert "gt-"[1..] == "t-";
    assert "t-"[1..] == "-";
  }

  lemma PyStripExample() ensures Strip(Python, " gt ") == "gt" {
    assert TrimStart(Python, " gt ") == "gt " by {
      assert " gt "[1..] == "gt ";
    }
    assert TrimEnd(Python, "gt ") == "gt" by {
      assert "gt "[..2] == "gt";
    }
  }

  lemma PyDashExample()
    ensures ReplaceSpaceRuns(Python, "gt") == "gt"
    ensures CollapseDashes("gt") == "gt"
  {
    assert "gt"[1..] == "t";
  }

  // ---------------------------------------------------------------------
  // Idempotence

  lemma {:induction false} KeepAllowedSlugText(d: Dialect, s: string)
    requires IsSlugText(s)
    ensures KeepAllowed(d, s) == s
  {
    if s != [] {
      KeepAllowedSlugText(d, s[1..]);
      assert [s[0]] + s[1..] == s;
    }
  }

  lemma {:induction false} SpaceRunsNoSpace(d: Dialect, s: string, afterSpace: bool)
    requires forall i :: 0 <= i < |s| ==> !IsSpace(d, s[i])
    ensures SpaceRunsFrom(d, s, afterSpace) == s
  {
    if s != [] {
      SpaceRunsNoSpace(d, s[1..], false);
      assert [s[0]] + s[1..] == s;
    }
  }

  lemma {:induction false} DashRunsNoDouble(s: string, afterDash: bool)
    requires NoDoubleDash(s)
    requires afterDash && s != [] ==> s[0] != '-'
    ensures DashRunsFrom(s, afterDash) == s
  {
    if s != [] {
      assert NoDoubleDash(s[1..]) by {
        forall i, j | 0 <= i < |s[1..]| && 0 <= j < |s[1..]| && j == i + 1 ensures !(s[1..][i] == '-' && s[1..][j] == '-') {
          assert s[1..][i] == s[i + 1] && s[1..][j] == s[j + 1];
        }
      }
      DashRunsNoDouble(s[1..], s[0] == '-');
      assert [s[0]] + s[1..] == s;
    }
  }

  /** A slug-shaped string is its own JavaScript slug. */
  lemma JsSlugifyFixesSlugs(t: string)
    requires IsSlugText(t) && NoDoubleDash(t)
    ensures JsSlugify(t) == t
  {
    assert Lower(t) == t;
    KeepAllowedSlugText(JS, t);
    SpaceRunsNoSpace(JS, t, false);
    DashRunsNoDouble(t, false);
    JsTrimIsNoOp(t);
  }

  /** A slug-shaped string is its own Python slug. */
  lemma PySlugifyFixesSlugs(t: string)
    requires IsSlugText(t) && NoDoubleDash(t)
    ensures PySlugify(t) == t
  {
    assert Lower(t) == t;
    KeepAllowedSlugText(Python, t);
    TrimNothingToTrim(Python, t);
    SpaceRunsNoSpace(Python, t, false);
    DashRunsNoDouble(t, false);
  }

  lemma JsSlugifyIdempotent(name: string)
    ensures JsSlugify(JsSlugify(name)) == JsSlugify(name)
  {
    JsSlugifyFixesSlugs(JsSlugify(name));
  }

  lemma PySlugifyIdempotent(name: string)
    ensures PySlugify(PySlugify(name)) == PySlugify(name)
  {
    PySlugifyFixesSlugs(PySlugify(name));
  }

  // ---------------------------------------------------------------------
  // Where the two slugify functions agree

  /** True when no character is one of the separators 0x1c..0x1f that only Python calls whitespace. */
  predicate NoPySeparators(s: string) {
    forall i :: 0 <= i < |s| ==> !(0x1c <= s[i] as int <= 0x1f)
  }

  lemma {:induction false} KeepAllowedDialects(s: string)
    requires NoPySeparators(s)
    ensures KeepAllowed(Python, s) == KeepAllowed(JS, s)
  {
    if s != [] {
      KeepAllowedDialects(s[1..]);
    }
  }

  lemma {:induction false} SpaceRunsDialects(s: string, afterSpace: bool)
    requires NoPySeparators(s)
    ensures SpaceRunsFrom(Python, s, afterSpace) == SpaceRunsFrom(JS, s, afterSpace)
  {
    if s != [] {
      SpaceRunsDialects(s[1..], IsJsSpace(s[0]));
    }
  }

  /**
   * The two slugify functions agree on every name free of the separators
   * 0x1c..0x1f whose filtered form has no whitespace at either end, which is
   * where Python's early `strip()` would make a difference.
   */
  lemma SlugifyDialectsAgree(name: string)
    requires NoPySeparators(name)
    requires var kept := KeepAllowed(JS, Lower(name));
             kept == [] || (!IsJsSpace(kept[0]) && !IsJsSpace(kept[|kept| - 1]))
    ensures PySlugify(name) == JsSlugify(name)
  {
    var lowered := Lower(name);
    assert NoPySeparators(lowered);
    KeepAllowedDialects(lowered);
    var kept := KeepAllowed(JS, lowered);
    assert NoPySeparators(kept);
    StripUnchanged(Python, kept);
    SpaceRunsDialects(kept, false);
    JsTrimIsNoOp(name);
  }

  /**
   * Where they part: when the filtered name starts with whitespace, the
   * JavaScript slug starts with `-`.
   */
  lemma {:induction false} JsLeadingSpaceGivesDash(name: string)
    requires var kept := KeepAllowed(JS, Lower(name));
             kept != [] && IsJsSpace(kept[0])
    ensures JsSlugify(name) != [] && JsSlugify(name)[0] == '-'
  {
    JsTrimIsNoOp(name);
  }
}
