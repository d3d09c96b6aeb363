# dutycheck — a verified model of the duty engine and the page pipeline

dutycheck estimates what the Kenya Revenue Authority (KRA) charges to import
a used vehicle. It starts from the vehicle's Current Retail Selling Price
(CRSP), reads the depreciation rate for the vehicle's age, and applies the
import duty, excise, VAT, IDF and RDL rates. The duty is published
three ways:
- a static site with one page per category, make, model and model year;
- a browser calculator that leads the user through category → make → model → year;
- a data pipeline that turns the KRA price workbook into the JSON table behind both.

This project models that core in Dafny and proves what each part promises.
There is one module per file:

| file | module | models |
|---|---|---|
| `wrappers.dfy` | `Wrappers` | `Option` |
| `text.dfy` | `Text` | ASCII character classes, `toLowerCase`, `trim`/`strip`, `split`, `.filter(Boolean)`, decimal printing, `parseInt` |
| `slug.dfy` | `Slug` | `slugify` of plugins/render.js and of scripts/generate_pages.py |
| `duty.dfy` | `Duty` | the KRA constants, the depreciation table scan, `calcDuty` and the inline duty block of the year page |
| `reference.dfy` | `Reference` | the `crsp_cascade.json` table (categories → makes → model variants) and its key lookups |
| `model_index.dfy` | `ModelIndex` | `buildModelIndex`, the per-make slug collision pass, and its Python twin |
| `route.dfy` | `Route` | `renderUrl`: path segments, the slug → name tables, dispatch by depth, and what each page renderer shows |
| `emitter.dfy` | `Emitter` | scripts/generate_pages.js: every path the static generator tries, writes and counts |
| `py_pages.dfy` | `PyPages` | scripts/generate_pages.py: `get_depreciation`, `calculate_duty`, the model page rows, the make page cards, `main`'s directory walk |
| `calculator.dfy` | `Calculator` | src/calculator.js as a `Session` class holding the selection state |
| `crsp_import.dfy` | `CrspImport` | scripts/crsp_to_json.py: the header-skipping row scans and `parse_depreciation` |
| `cascade.dfy` | `Cascade` | scripts/build_crsp_cascade.py: `title_case`, `CATEGORY_MAP`, grouping, sorting and the output table |

The headline results are these:
- **Duty.** The total never falls below the 5,000 IDF floor. An older vehicle never owes more. A future model year is not depreciated.
- **Every copy of the duty formula agrees.** The formula of `renderYearPage`, `calculate_duty` and the calculator's `calculate` equals `calcDuty` wherever `calcDuty` prices.
- **Slugs.** Both `slugify` functions are idempotent, and they agree on every name that contains no 0x1c–0x1f control character (Python counts those as whitespace, JavaScript does not) and whose kept characters have no whitespace at either end.
- **Routes.** Resolution is prefix-monotone. Every path the generator builds resolves back to the entity it was built from. On a table whose every entity is reachable by its slug, every page the generator tries is written.
- **The data pipeline.**
  - Every workbook record is either filed or counted as skipped.
  - The output is sorted and is a permutation of the input.
  - The category list is exactly the output's keys.
  - Only motorcycles sit under "Motorcycle".

Where the specification and the code differ, the model follows the code. Three examples:
- In JavaScript `slugify`, `trim()` runs after whitespace has already become `-`. It is therefore a no-op, and outer whitespace becomes outer dashes (`Slug.JsTrimIsNoOp`, `Slug.OuterWhitespaceExample`).
- Model slugs are not always unique within a make.
- `recalculate` leaves the Calculate button active with no year chosen.

Amounts are exact rationals (`real`). The code's `Math.round` / `round` for display are not modelled.

## Model

| member | source | states |
|---|---|---|
| Text.Lower | plugins/render.js:41 | `toLowerCase()` keeps the length and maps exactly the ASCII capitals to lower case |
| Text.TrimStart | plugins/render.js:45 | dropping leading whitespace yields a suffix of the input with no leading whitespace |
| Text.TrimEnd | plugins/render.js:45 | dropping trailing whitespace yields a prefix of the input with no trailing whitespace |
| Text.StripTrims | scripts/generate_pages.py:57 | a stripped string has no whitespace at either end |
| Text.StripUnchanged | scripts/generate_pages.py:57 | `strip()` leaves a string with no outer whitespace unchanged |
| Text.SplitBy | plugins/render.js:523 | `split("/")` never yields an empty list, and no piece contains the separator |
| Text.NonEmpty | plugins/render.js:523 | `.filter(Boolean)` keeps every non-empty piece and nothing else |
| Text.SplitNoSep | plugins/render.js:523 | a string without a separator splits into itself |
| Text.SplitAfterPiece | plugins/render.js:523 | splitting `a/b` gives `a` followed by the pieces of `b` |
| Text.SplitSnocSep | plugins/render.js:523 | a trailing separator adds exactly one empty piece |
| Text.NatToDecimal | scripts/generate_pages.js:61 | the decimal form of a natural number is a non-empty string of digits |
| Text.DigitPrefix | plugins/render.js:548 | the longest run of leading digits: a prefix made only of digits, followed by a non-digit or the end |
| Text.ParseInt | plugins/render.js:548 | `parseInt` yields a number only from a non-empty string (what it reads: `ParseIntAtDigit`, `ParseIntNaN`) |
| Text.ParseIntOfDecimal | plugins/render.js:548 | reading back a printed natural number gives the number, whatever non-digits follow it |
| Text.ParseIntAtDigit | plugins/render.js:548 | a string that starts with a digit reads as the value of its leading digits |
| Text.ParseIntNaN | plugins/render.js:549 | a segment whose first non-blank character is neither a sign nor a digit is `NaN` |
| Text.DecimalInjective | src/calculator.js:192 | different option indices have different `value` strings |
| Text.Strip | scripts/generate_pages.py:57 | `strip()` (and `trim()` for JavaScript): what is left has no whitespace at either end (StripTrims), and a string without outer whitespace is unchanged (StripUnchanged) |
| Slug.KeepAllowed | plugins/render.js:42 | the deletion keeps only `[a-z0-9\s-]` and never lengthens the string |
| Slug.SpaceRunsFrom | plugins/render.js:43 | after the whitespace-run replacement no whitespace is left; a string of kept characters becomes slug text |
| Slug.DashRunsFrom | plugins/render.js:44 | after dash collapsing no two dashes are adjacent, and slug text stays slug text |
| Slug.JsSlugify | plugins/render.js:40-46 | a JavaScript slug uses only `[a-z0-9-]`, never has two dashes in a row, and is no longer than the name |
| Slug.PySlugify | scripts/generate_pages.py:54-58 | a Python slug has the same alphabet and the same no-double-dash property |
| Slug.JsTrimIsNoOp | plugins/render.js:45 | the final `trim()` never changes anything, because no whitespace is left by then |
| Slug.OuterWhitespaceExample | plugins/render.js:40-46 | `" GT "` becomes `-gt-` in JavaScript but `gt` in Python |
| Slug.JsSlugifyFixesSlugs | plugins/render.js:40-46 | a string already shaped like a slug is its own JavaScript slug |
| Slug.PySlugifyFixesSlugs | scripts/generate_pages.py:54-58 | a string already shaped like a slug is its own Python slug |
| Slug.JsSlugifyIdempotent | plugins/render.js:40-46 | slugifying a slug again changes nothing |
| Slug.PySlugifyIdempotent | scripts/generate_pages.py:54-58 | slugifying a Python slug again changes nothing |
| Slug.SlugifyDialectsAgree | scripts/generate_pages.py:54-58 | the two slug functions agree on a name free of the separators 0x1c..0x1f, provided its filtered form has no outer whitespace |
| Slug.JsLeadingSpaceGivesDash | plugins/render.js:43-45 | where they part: a filtered name starting with whitespace gives a JavaScript slug starting with `-` |
| Slug.ReplaceSpaceRuns | plugins/render.js:43 | `replace(/\s+/g, "-")`: afterwards no whitespace is left and kept characters become slug text (SpaceRunsFrom) |
| Slug.CollapseDashes | plugins/render.js:44 | `replace(/-+/g, "-")`: afterwards no two dashes are adjacent and slug text stays slug text (DashRunsFrom) |
| Duty.FirstCeilingAt | plugins/render.js:52-57 | the scan returns the rate of the first tier whose ceiling is at least the age |
| Duty.FirstCeilingNone | plugins/render.js:56 | the scan returns `null` when every ceiling is below the age |
| Duty.GetDepreciationSchedule | plugins/render.js:32-35 | the rate is 0 up to age 1, negative ages included, then 20% to 65% for ages 2 to 8; nothing beyond age 8; always between 0 and 0.65 |
| Duty.WindowRate | plugins/render.js:52-57 | every age inside the window has a rate between 0 and 0.65 |
| Duty.RateOfTier | plugins/render.js:32-35 | row `k` of the table holds the rate for age `k + 1` |
| Duty.DepreciationMonotone | plugins/render.js:32-35 | an older vehicle never depreciates less, across the whole eligible range |
| Duty.Pipeline | plugins/render.js:63-69 | the value before depreciation is CRSP / 2.4469 and the customs value is that × (1 − rate); import duty 25%, excise 25% and VAT 24% of it; RDL 1.5%; IDF 2.25% but at least 5,000; total = 0.755 × customs value + IDF |
| Duty.CalcDuty | plugins/render.js:59-74 | `null` exactly for vehicles more than eight years old; otherwise the figures at the vehicle's age |
| Duty.CustomsValueBounds | plugins/render.js:63-64 | the customs value lies between 0 and the undepreciated value |
| Duty.TotalAtLeastFloor | plugins/render.js:68-72 | every priced vehicle owes at least the 5,000 IDF floor |
| Duty.FutureYearUndepreciated | plugins/render.js:60-61 | a future model year is priced like a new vehicle, with no depreciation |
| Duty.IdfFloorApplies | plugins/render.js:68 | for a CRSP up to 500,000 the IDF is the 5,000 floor |
| Duty.TwoYearOldExample | plugins/render.js:59-74 | the 2024 model year at a CRSP of 2,000,000 depreciates by 20%, giving a customs value of 1,600,000 / 2.4469 |
| Duty.TooOldExample | plugins/render.js:61-62 | a 2015 vehicle gets no price |
| Duty.TotalMonotoneInValue | plugins/render.js:63-70 | a higher depreciation rate never gives a higher total |
| Duty.OlderIsCheaper | plugins/render.js:230 | within the window an older year never costs more, so the eight-year-old "duty from" price is the cheapest year listed |
| Duty.YearFiguresAgree | plugins/render.js:392-399 | the year page's inline copy of the formula computes exactly what `calcDuty` computes |
| Duty.FirstCeiling | plugins/render.js:52-57 | the for-of scan of `getDepr`: the first tier whose ceiling is at least the age gives the rate (FirstCeilingAt), and null comes back when every ceiling is below it (FirstCeilingNone) |
| Duty.GetDepreciation | plugins/render.js:52-57 | `getDepr(age)`: 0 for every age up to 1, the listed rates for ages 2 to 8, null beyond (GetDepreciationSchedule); never falling with age (DepreciationMonotone) |
| Duty.YearFigures | plugins/render.js:392-399 | the duty block copied into `renderYearPage`; YearFiguresAgree proves it equal to `calcDuty` wherever `getDepr` prices the age |
| Reference.ModelNames | plugins/render.js:80 | the model names of a make, one per variant, in order |
| Reference.MakeNames | plugins/render.js:538 | `Object.keys(makes)`: one key per make, in the table's text order (the integer-key reordering is under Left out) |
| Reference.FindCategorySpec | plugins/render.js:175 | `data[category]` fails exactly when no entry has the key, and otherwise returns the makes of an entry with that key |
| Reference.FindMakeSpec | plugins/render.js:223 | `makes[make]` fails exactly when no make has the key, and otherwise returns the models of a make with that key |
| Reference.FindCategorySnoc | scripts/build_crsp_cascade.py:158 | adding an entry at the end changes a lookup only for a key that was missing and matches the new entry |
| Reference.FindCategoryAt | plugins/render.js:175 | with distinct JSON keys, looking up the key of entry `k` finds entry `k` |
| Reference.FindMakeAt | plugins/render.js:223 | with distinct make keys, looking up the key of make `k` finds make `k` |
| Reference.ModelsOfMakesAppend | scripts/build_crsp_cascade.py:174 | a model count over concatenated makes is the sum of the counts |
| Reference.ModelsOfTableAppend | scripts/build_crsp_cascade.py:171 | a model count over concatenated categories is the sum of the counts |
| Reference.FindCategory | plugins/render.js:175 | `data[category]`: undefined exactly when no entry has that key (FindCategorySpec); under distinct keys entry k is found by its own name (FindCategoryAt) |
| Reference.FindMake | plugins/render.js:223 | `data[category][make]`: undefined exactly when no make has that key (FindMakeSpec); under distinct keys make k is found by its own name (FindMakeAt) |
| ModelIndex.Fallback | plugins/render.js:80 | the fallback `model-<i>` is non-empty slug text |
| ModelIndex.JsBaseSlug | plugins/render.js:80 | a base slug is never empty and is slug text: `slugify(model)`, or `model-<i>` when that is empty |
| ModelIndex.PyBaseSlug | scripts/generate_pages.py:431 | the Python base slug is never empty and is slug text |
| ModelIndex.BasesBy | plugins/render.js:79-80 | one base slug per model, in order |
| ModelIndex.Dedupe | plugins/render.js:81-82 | one slug per model (which one: `DedupeAt`) |
| ModelIndex.DedupeAt | plugins/render.js:81-82 | model `i` is suffixed exactly when an earlier model already holds its base as a slug, or the base is an inherited key |
| ModelIndex.DedupeSnoc | plugins/render.js:79 | the map runs in list order: one more model adds exactly one slug at the end |
| ModelIndex.DedupeShape | plugins/render.js:81-82 | a plain slug is always new; a suffixed slug is its base followed by `-<i>` |
| ModelIndex.IndexByJs | plugins/render.js:77-85 | the slug rule written over any slug function is `buildModelIndex` when that function is `slugify` |
| ModelIndex.Zip | plugins/render.js:83 | `{ ...m, slug }`: each model, unchanged, paired with the slug at its position |
| ModelIndex.AssignSlugs | plugins/render.js:78-84 | the collision loop gives exactly the slugs of the collision pass, one per model with the model unchanged |
| ModelIndex.BuildModelIndex | plugins/render.js:77-85 | `buildModelIndex` pairs every model with the slug the pass assigns, counting `constructor` as taken from the start |
| ModelIndex.FirstWithSlug | plugins/render.js:282 | `find` returns the first index holding the slug, or nothing when no index holds it |
| ModelIndex.DedupePrefix | plugins/render.js:79-84 | the slugs of a prefix of the models are a prefix of the slugs |
| ModelIndex.LookupOwnSlug | plugins/render.js:282 | with distinct slugs every model is found by its own slug; a repeated slug finds the earlier model |
| ModelIndex.DedupeDistinct | plugins/render.js:81-82 | the slugs are distinct when every base is either free of a `-<digits>` tail or is the model's own fallback |
| ModelIndex.IndexDistinct | plugins/render.js:77-85 | `buildModelIndex` gives distinct slugs unless some model's slug ends in `-<digits>` |
| ModelIndex.IndexDistinctBy | plugins/render.js:77-85 | the same result for any slug function that never yields `-<digits>` tails |
| ModelIndex.ConstructorAlwaysSuffixed | plugins/render.js:78-81 | a model whose slug is `constructor` never keeps its plain slug, because the object literal inherits that key |
| ModelIndex.DedupeInheritedIrrelevant | scripts/generate_pages.py:429-436 | the JavaScript and Python passes give the same slugs when the bases agree and none is an inherited key |
| ModelIndex.PyIndexMatchesJs | scripts/generate_pages.py:429-436 | Python's directory slugs equal `buildModelIndex`'s when the slug functions agree and no slug is `constructor` |
| ModelIndex.CollisionExample | plugins/render.js:77-85 | the models "GT", "GT 2", "GT" get `gt`, `gt-2`, `gt-2`; the lookup for `gt-2` reaches only the second model |
| ModelIndex.FreshSlug | plugins/render.js:81 | the corrected suffixing returns a slug that is not yet taken, and keeps a candidate that is free |
| ModelIndex.UniqueDedupe | plugins/render.js:81-82 | the corrected pass gives one slug per model |
| ModelIndex.UniqueDedupeDistinct | plugins/render.js:77-85 | with the corrected pass every model gets its own slug, whatever the names |
| ModelIndex.UniqueDedupeAgrees | plugins/render.js:77-85 | where the pass as written already gives distinct slugs and no base is inherited, the corrected pass gives the same slugs |
| ModelIndex.UniqueIndexSlugs | plugins/render.js:77-85 | the corrected `buildModelIndex` gives one distinct slug per model |
| ModelIndex.Suffixed | plugins/render.js:81 | `${slug}-${i}`; DedupeShape shows every slug of the pass is its base or this suffixed form |
| ModelIndex.Taken | plugins/render.js:81 | `seen[slug]` is truthy: the slug was handed out earlier in the pass or the object inherits it; DedupeAt and ConstructorAlwaysSuffixed state when a slug is suffixed |
| ModelIndex.IndexSlugs | plugins/render.js:77-85 | the slugs `buildModelIndex` hands out: BuildModelIndex builds exactly them, IndexDistinct says when they are distinct and CollisionExample shows a case where they are not |
| Route.KeyedByKeys | plugins/render.js:529-530 | a slug table answers exactly for the slugs of the names it was filled with |
| Route.KeyedByLast | plugins/render.js:530 | last write wins: a key answers with the last name that has that slug |
| Route.KeyedByValue | plugins/render.js:530 | whatever a key answers with is a name with that slug, and no later name has it |
| Route.KeyedBySnoc | plugins/render.js:539 | filling the table with one more name overwrites only that name's key |
| Route.BuildTable | plugins/render.js:537-540 | the `for … of` loop builds exactly the last-write-wins table |
| Route.OuterSlashesIrrelevant | plugins/render.js:523 | stripping one outer slash at each end changes no segment once empty ones are dropped |
| Route.LeadingSlash | plugins/render.js:523 | a leading `/` changes no non-empty segment |
| Route.TrailingSlash | plugins/render.js:523 | a trailing `/` changes no non-empty segment |
| Route.SegmentsOfPath | plugins/render.js:523 | a `/s1/…/sn/` path built from non-empty, slash-free segments splits back into exactly those segments |
| Route.OnlySlashesNoSegments | plugins/render.js:523-524 | a path made only of slashes, the empty path included, has no segments |
| Route.ListedYears | plugins/render.js:285 | the nine years from 2026 down to 2018 |
| Route.PricedYears | plugins/render.js:285-288 | the years whose `calcDuty` is not null, in order; never more than were listed |
| Route.SlugsBy | plugins/render.js:183 | the slug of every name, in order |
| Route.FindModel | plugins/render.js:282 | the index found, if any, is a position of the make's list |
| Route.ResolvesTo | plugins/render.js:535-550 | once the dispatch is known, the page is that renderer's page |
| Route.SlugsOf | plugins/render.js:83 | the slugs of an indexed list, in order |
| Route.RenderMakePage | plugins/render.js:221-227 | the make page is null when the make is missing; otherwise it lists the slugs `buildModelIndex` assigns |
| Route.FindIndexed | plugins/render.js:281-283 | the first model holding the slug, found through `buildModelIndex` |
| Route.RenderModelPage | plugins/render.js:276-288 | the model page shows the first model holding the slug, with the years that price |
| Route.RenderYearPage | plugins/render.js:379-390 | the year page is null for a missing model or for a year outside the window; otherwise it shows the model, year and rate |
| Route.DispatchParts | plugins/render.js:523-549 | the lookups and depth tests choose exactly `Dispatch`'s target |
| Route.RenderTarget | plugins/render.js:535-550 | the renderer called for a target gives that target's page |
| Route.RenderUrlWith | plugins/render.js:519-551 | `renderUrl` over any slug function is the dispatch followed by the renderer |
| Route.RenderUrl | plugins/render.js:519-551 | `renderUrl(pathname)` with `slugify` is `Resolve` on the path's segments |
| Route.EmptyPathNotFound | plugins/render.js:524 | the empty path and paths of slashes only render nothing |
| Route.ExtraSegmentsIgnored | plugins/render.js:526 | segments after the fourth are never looked at |
| Route.DispatchByDepth | plugins/render.js:535-550 | with no empty segment, the path's depth alone picks the kind of page |
| Route.UnknownSlugsNotFound | plugins/render.js:532-549 | an unknown category slug, an unknown make slug, or a `NaN` year renders nothing |
| Route.NoTargetNotFound | plugins/render.js:533 | a path that asks for nothing renders nothing |
| Route.DispatchedCategoryIsLast | plugins/render.js:530-532 | when two categories share a slug, the later one wins |
| Route.DispatchedMakeIsLast | plugins/render.js:538-541 | when two makes share a slug, the later one in the table's key order wins (integer-like names are under Left out) |
| Route.Ancestor | plugins/render.js:535-546 | the target `n` levels down the same path sits at the level it names |
| Route.DispatchPrefix | plugins/render.js:535-550 | each segment goes one level down, four at most; the leading segments ask for the targets above |
| Route.RenderAncestor | plugins/render.js:173-390 | every page above a page that renders renders too |
| Route.PrefixMonotone | plugins/render.js:519-551 | when a path renders, so does every shorter path made of its leading segments |
| Route.LongPrefix | plugins/render.js:526 | a prefix longer than four segments resolves like the whole path |
| Route.YearReadByParseInt | plugins/render.js:548 | the fourth segment is read only through `parseInt` |
| Route.YearWithTrailingText | plugins/render.js:548 | `…/2024abc/` is the 2024 page |
| Route.AllListedYearsPriced | plugins/render.js:285-288 | every year from 2026 to 2018 prices, so the model page lists all nine |
| Route.PricedAll | plugins/render.js:285-288 | a list of years that all price is kept whole |
| Route.FutureYearRenders | plugins/render.js:388-390 | a future model year renders, priced with no depreciation |
| Route.CategoryLookup | plugins/render.js:530-532 | a reachable category's slug looks that category up |
| Route.MakeLookup | plugins/render.js:538-541 | a reachable make's slug looks that make up |
| Route.CategorySegment | plugins/render.js:529-535 | a one-segment path with a reachable category's slug asks for that category |
| Route.MakeSegment | plugins/render.js:537-544 | two segments with the slugs of a reachable category and make ask for that make |
| Route.ModelsOfMake | plugins/render.js:223 | with distinct make keys, the models of make `m` are found under its name |
| Route.ModelSegment | plugins/render.js:546 | the third segment of a resolved make path is looked up as a model slug |
| Route.YearSegment | plugins/render.js:548-550 | the fourth segment of a year path is read by `parseInt` |
| Route.SlugAt | plugins/render.js:282 | the `i`-th slug is found at its first holder, which is `i` unless an earlier model has it |
| Route.ModelViewAt | plugins/render.js:281-288 | the page for the `i`-th slug shows that slug's first holder, with all nine years |
| Route.YearViewAt | plugins/render.js:385-390 | the year page for the `i`-th slug shows the model page's model, with the rate for the year's age |
| Route.YearPagePriced | plugins/render.js:392-399 | every year page that renders prints the figures `calcDuty` computes |
| Route.StripOuterSlashes | plugins/render.js:523 | `replace(/^\/|\/$/g, "")`: one slash at most goes from each end, and that changes no non-empty segment (OuterSlashesIrrelevant, LeadingSlash, TrailingSlash) |
| Route.Segments | plugins/render.js:523 | the non-empty pieces of the path between slashes: /s1/…/sn/ gives back s1…sn (SegmentsOfPath), a path of slashes gives none (OnlySlashesNoSegments) |
| Route.KeyedBy | plugins/render.js:529-530 | the slug-to-name table: its keys are exactly the names' slugs (KeyedByKeys) and the last name with a given slug wins (KeyedByLast, KeyedByValue) |
| Route.Dispatch | plugins/render.js:519-549 | which renderer `renderUrl` calls for the segments: by depth (DispatchByDepth), NoTarget for an unknown category or make slug or a NaN year (UnknownSlugsNotFound), the ancestor target for a prefix (DispatchPrefix) |
| Route.Render | plugins/render.js:535-550 | the call of the chosen renderer, its null as NotFound (RenderTarget, NoTargetNotFound); each renderer's null guards include its parent's (RenderAncestor) |
| Route.Resolve | plugins/render.js:519-551 | `renderUrl(pathname)`: no segments give null (EmptyPathNotFound), and when a path renders every prefix of it does (PrefixMonotone) |
| Route.CategoryView | plugins/render.js:173-219 | `renderCategoryPage`: null exactly when `data` has no entry for the category, otherwise the page linking its makes' slugs (Emitter.CategoryPathResolves) |
| Route.MakeView | plugins/render.js:221-274 | `renderMakePage`: null exactly for a missing make, otherwise its `buildModelIndex` slugs (RenderMakePage, Emitter.MakePathResolves) |
| Route.ModelView | plugins/render.js:276-377 | `renderModelPage`: the first model holding the slug with its priced years, null when none holds it (RenderModelPage, ModelViewAt) |
| Route.YearView | plugins/render.js:379-399 | `renderYearPage`: null for a missing model or slug or a year past the window; otherwise the model, year and rate (RenderYearPage, YearViewAt), with `calcDuty`'s figures (YearPagePriced) |
| Emitter.Rendered | scripts/generate_pages.js:39-40 | never more pages are written than paths are tried (which ones: `RenderedMembers`) |
| Emitter.YearPaths | scripts/generate_pages.js:58-61 | exactly `n` year paths per model (which ones: `YearPathAt`) |
| Emitter.FirstMissing | scripts/generate_pages.js:42 | the first category that `data` lacks, or the list's length when none is missing |
| Emitter.RenderedSnoc | scripts/generate_pages.js:40 | one more path adds a page exactly when that path renders |
| Emitter.TryPage | scripts/generate_pages.js:39-40 | a path is written and counted exactly when `renderUrl` returns a page |
| Emitter.RenderedJoin | scripts/generate_pages.js:34-66 | the pages of a loop body come after those written before it |
| Emitter.EmitYears | scripts/generate_pages.js:58-63 | the year loop tries exactly a model's year paths and writes those that render |
| Emitter.EmitSlugs | scripts/generate_pages.js:50-64 | the model loop tries each slug's model page and then its year pages |
| Emitter.EmitModels | scripts/generate_pages.js:50 | the models are tried under the slugs `buildModelIndex` gives |
| Emitter.EmitMakes | scripts/generate_pages.js:42-65 | the make loop tries each make's page and then its models, in the table's key order (integer-like names are under Left out) |
| Emitter.EmitCategory | scripts/generate_pages.js:35-65 | one category turn tries the category page and then its makes, and stops when `data` lacks the category |
| Emitter.GeneratePagesWith | scripts/generate_pages.js:32-68 | the run completes exactly when every category has data; the written pages are the attempted paths that render; the count is their number |
| Emitter.GeneratePages | scripts/generate_pages.js:32-68 | with `slugify`, a path is written exactly when it is tried and `renderUrl` renders it; on a reachable table every tried page is written |
| Emitter.MakesRunLength | scripts/generate_pages.js:42-65 | a make's run tries one page per make and `MAX_AGE + 2` per model |
| Emitter.CategoriesRunLength | scripts/generate_pages.js:34-66 | a run over categories tries one page per category plus those of its makes |
| Emitter.RenderedAppend | scripts/generate_pages.js:34-66 | the written pages of two runs are those of the first followed by those of the second |
| Emitter.RenderedMembers | scripts/generate_pages.js:39-62 | a path is written exactly when it is tried and renders |
| Emitter.YearPathAt | scripts/generate_pages.js:58 | year attempt `j` is the year `2026 − j`, whose age lies inside the window |
| Emitter.ModelsRunLength | scripts/generate_pages.js:54-62 | each model is tried `MAX_AGE + 2` times: its page and the nine years |
| Emitter.SlugTextSlashFree | scripts/generate_pages.js:43 | slug text contains no `/` |
| Emitter.JsSlashFree | scripts/generate_pages.js:35 | `slugify` never yields a `/`, so a slug is one path segment |
| Emitter.IndexSegment | scripts/generate_pages.js:50-54 | every slug `buildModelIndex` hands out is a usable path segment |
| Emitter.CategoryPathResolves | scripts/generate_pages.js:39 | `/<cat>/` for a reachable category shows that category |
| Emitter.MakePathResolves | scripts/generate_pages.js:47 | `/<cat>/<make>/` shows that make with its model slugs |
| Emitter.ModelPathResolves | scripts/generate_pages.js:54 | the model path for the `i`-th slug shows model `i`, unless an earlier model shares its slug |
| Emitter.YearPathResolves | scripts/generate_pages.js:61 | the year path shows the same model, priced with `calcDuty`'s figures for that year |
| Emitter.AllHoldJoin | scripts/generate_pages.js:34-66 | every path of a join renders when every path of both parts does |
| Emitter.AllRenderJoin | scripts/generate_pages.js:34-66 | the same, stated for the resolver |
| Emitter.RenderedAll | scripts/generate_pages.js:40 | when every tried path renders, every one is written |
| Emitter.ModelsRunHolds | scripts/generate_pages.js:50-64 | a property that holds of each model's run holds of the whole model loop's paths |
| Emitter.MakesRunHolds | scripts/generate_pages.js:42-65 | a property that holds of each make's run holds of the whole make loop's paths |
| Emitter.CategoriesRunHolds | scripts/generate_pages.js:34-66 | a property that holds of each category's run holds of the whole category loop's paths |
| Emitter.ModelPathRenders | scripts/generate_pages.js:54-55 | the model path of the `i`-th slug renders |
| Emitter.YearPathRenders | scripts/generate_pages.js:61-62 | every year path of the window renders |
| Emitter.YearsRender | scripts/generate_pages.js:58-63 | all of a model's year paths render |
| Emitter.ModelRunRenders | scripts/generate_pages.js:54-63 | every path of one model's run renders |
| Emitter.ModelsRunRenders | scripts/generate_pages.js:50-64 | every path of a make's model loop renders |
| Emitter.MakeRunRenders | scripts/generate_pages.js:47-64 | every path of one make's run renders |
| Emitter.MakesRunRenders | scripts/generate_pages.js:42-65 | every path of a category's make loop renders |
| Emitter.CategoryRunRenders | scripts/generate_pages.js:39-65 | every path of one category's run renders |
| Emitter.CategoriesRunRenders | scripts/generate_pages.js:34-66 | every path of the category loop renders |
| Emitter.EveryPageWritten | scripts/generate_pages.js:34-66 | on a table whose every category and make is reachable by its slug, the generator runs to the end and writes every page it tries |
| Emitter.ModelRun | scripts/generate_pages.js:54-63 | a model's page, then its nine year pages 2026 down to 2018 (YearPathAt); on a reachable model every one renders (ModelRunRenders) |
| Emitter.ModelsRun | scripts/generate_pages.js:50-64 | the model loop: ten attempts per model (ModelsRunLength), every one rendering on a reachable make (ModelsRunRenders) |
| Emitter.MakeRun | scripts/generate_pages.js:43-64 | a make's page, then its models under the `buildModelIndex` slugs; on a reachable make every path renders (MakeRunRenders) |
| Emitter.MakesRun | scripts/generate_pages.js:42-65 | the make loop: one attempt per make plus ten per model (MakesRunLength), every one rendering on a reachable category (MakesRunRenders) |
| Emitter.CategoryRun | scripts/generate_pages.js:35-65 | a category's page, then its makes; on a reachable category every path renders (CategoryRunRenders) |
| Emitter.CategoriesRun | scripts/generate_pages.js:34-66 | the category loop: PageCount attempts (CategoriesRunLength), every one rendering on a reachable table (CategoriesRunRenders) |
| Emitter.Attempted | scripts/generate_pages.js:34-66 | the paths the generator tries, up to the category whose missing data throws; GeneratePagesWith writes exactly those that render, and on a reachable table they are all of them (EveryPageWritten) |
| Emitter.PageCount | scripts/generate_pages.js:34-66 | one attempt per category and per make and ten per model (its page and nine years): the length of the category loop (CategoriesRunLength) |
| PyPages.PyDepreciationAgrees | scripts/generate_pages.py:63-67 | the script's depreciation tiers give `getDepr`'s rate at every age |
| PyPages.PyCalculateDuty | scripts/generate_pages.py:69-81 | `None` exactly beyond the window; the total is the sum of the five charges |
| PyPages.PyCalculateDutyAgrees | scripts/generate_pages.py:69-87 | `calculate_duty` computes exactly what `calcDuty` computes, for every year |
| PyPages.ModelPageRows | scripts/generate_pages.py:286-290 | the model page has nine rows, 2026 down to 2018, each with `calcDuty`'s figures |
| PyPages.CardAtFacts | scripts/generate_pages.py:213-224 | a card links to `slugify(model)` or `model-<k>` with no collision suffix, and quotes the eight-year-old price, which always exists |
| PyPages.CardsUpTo | scripts/generate_pages.py:212-227 | the first `n` cards of a make page, in sorted order |
| PyPages.MakeCards | scripts/generate_pages.py:211-227 | one card per model, in sorted order |
| PyPages.CardsUpToAt | scripts/generate_pages.py:213-214 | card `k` shows the `k`-th model in sorted order, under the `k`-th fallback name |
| PyPages.AppendCard | scripts/generate_pages.py:213-227 | one turn of the loop appends the card for the `k`-th sorted model |
| PyPages.MakePageCards | scripts/generate_pages.py:212-227 | the card loop builds exactly the make page's cards |
| PyPages.CardSlugs | scripts/generate_pages.py:214 | the slugs the card links use, one per card |
| PyPages.CorrectedCardSlugs | scripts/generate_pages.py:213-214 | the corrected links: card `k` uses the directory slug `main` gave to the model it shows |
| PyPages.PositionOf | scripts/generate_pages.py:213 | each model has a position in the sorted order |
| PyPages.CorrectedCardsLinkEveryPage | scripts/generate_pages.py:429-436 | with the corrected links, every model page `main` writes is linked from its make page |
| PyPages.SameBaseSameLink | scripts/generate_pages.py:214 | two models with the same base slug get the same card link |
| PyPages.GTPagesWritten | scripts/generate_pages.py:429-436 | two models both named "GT" are written under `gt/` and `gt-1/` |
| PyPages.GTCardLinks | scripts/generate_pages.py:213-214 | both of those cards link to `gt/` |
| PyPages.GTCorrectedLinks | scripts/generate_pages.py:213-214 | the corrected links point at both directories |
| PyPages.UnlinkedPageExample | scripts/generate_pages.py:227 | no card links to the second "GT"'s page `gt-1/` |
| PyPages.PyIndexByPy | scripts/generate_pages.py:429-436 | the directory pass over a slug function is `main`'s pass when that function is `slugify` |
| PyPages.ModelDirs | scripts/generate_pages.py:438 | one directory per model, under the make, in list order |
| PyPages.AssignDir | scripts/generate_pages.py:430-436 | a model's slug is its base, suffixed `-<i>` exactly when `seen_slugs` holds the base; `seen_slugs` then takes the slug |
| PyPages.WriteModels | scripts/generate_pages.py:429-445 | the model loop writes exactly the make's model directories, counting one each |
| PyPages.WriteMake | scripts/generate_pages.py:418-445 | a make turn writes the make page and then its models |
| PyPages.MakesDirsSnoc | scripts/generate_pages.py:418 | one more make adds that make's pages at the end |
| PyPages.WriteCategory | scripts/generate_pages.py:407-445 | a category turn writes the category page and then each make, in key order |
| PyPages.TableDirsSnoc | scripts/generate_pages.py:407 | one more category adds that category's pages at the end |
| PyPages.PyMainWith | scripts/generate_pages.py:402-447 | `main` over any slug function writes every directory of the table and counts categories, makes and models |
| PyPages.PyMain | scripts/generate_pages.py:402-447 | `main` writes every directory of the table; the printed total is the number of pages written |
| PyPages.MakesDirsCount | scripts/generate_pages.py:418-445 | a make list's pages are one per make and one per model |
| PyPages.TableDirsCount | scripts/generate_pages.py:447 | one page per category, make and model, so the total counts the pages |
| PyPages.PyModelDirsDistinct | scripts/generate_pages.py:429-436 | within a make the directories are distinct when no slug ends in `-<digits>` |
| PyPages.MakeDirsMatchJs | scripts/generate_pages.py:418-436 | when both slug rules agree and no slug is `constructor`, Python writes a make's pages under the slugs the JavaScript side resolves |
| PyPages.PyGetDepreciation | scripts/generate_pages.py:63-67 | `get_depreciation(age)`: equal to `getDepr` at every age, and None exactly past eight years (PyDepreciationAgrees) |
| PyPages.Cheapest | scripts/generate_pages.py:222-224 | the card's price, `calculate_duty(crsp, 2018)`: it always exists (CardAtFacts) |
| PyPages.MakeDirs | scripts/generate_pages.py:418-445 | a make's page, then its model pages under the `seen_slugs` names: one per model (MakesDirsCount), written by WriteMake |
| PyPages.CategoryDirs | scripts/generate_pages.py:407-445 | a category's page, then each make's pages in dict order, written by WriteCategory |
| PyPages.TableDirs | scripts/generate_pages.py:402-447 | every directory `main` writes: PyMainWith writes exactly these, and there is one per category, make and model (TableDirsCount) |
| Calculator.CalcDepreciationAgrees | src/calculator.js:43-48 | the calculator's tiers give `getDepr`'s rate, `null` exactly past eight years |
| Calculator.CalculateFigures | src/calculator.js:282-293 | the total is the sum of the five charges and the IDF is at least 5,000, even with JavaScript's `null` coercions |
| Calculator.CalculateAgrees | src/calculator.js:282-293 | for a year inside the window, `calculate` shows exactly what `calcDuty` computes |
| Calculator.NullYearExample | src/calculator.js:284-287 | with no year chosen, `calculate` prices the vehicle as 2026 years old with no depreciation |
| Calculator.GridShapeIff | src/calculator.js:241-256 | the grid's shape describes exactly one grid |
| Calculator.RenderYearGrid | src/calculator.js:233-257 | the grid shows 2026 down to 2016, with a button enabled exactly when its year is at most eight years old |
| Calculator.EnabledYearsPriced | src/calculator.js:241-254 | the pickable years are exactly 2018 to 2026, and each has a depreciation rate |
| Calculator.ParseIndex | src/calculator.js:214 | `parseInt` on option `i`'s value reads back `i`, and no other option has that value |
| Calculator.CalcGetDepreciation | src/calculator.js:43-48 | `getDepreciation(age)`: equal to `getDepr` at every age, and null exactly past eight years (CalcDepreciationAgrees) |
| Calculator.YearGrid | src/calculator.js:241-256 | the eleven buttons 2026 down to 2016, enabled exactly up to age 8: GridShapeIff characterises it, RenderYearGrid's loop builds it, and EnabledYearsPriced shows every enabled year has a rate |
| Calculator.Session.constructor | src/calculator.js:110-119 | nothing is selected and nothing is shown |
| Calculator.Session.SelectCategory | src/calculator.js:144-170 | sets the category, clears make, model and year, fills the make select with that category's makes, empties the model select down to its reset option, and hides the Calculate block and results; the year grid is only hidden, so it stays as it was |
| Calculator.Session.OnMakeChange | src/calculator.js:174-199 | the make is the chosen option, or `null` for the reset option; model and year are cleared; only a real make refills the model select |
| Calculator.Session.OnModelChange | src/calculator.js:203-229 | clears the year; option `i` (`"0"` included) selects `models[i]`; the reset option clears the model; a chosen model gets a fresh year grid |
| Calculator.Session.SelectYear | src/calculator.js:259-278 | an enabled year button sets the year and shows the Calculate block; the rate shown is never `null` |
| Calculator.Session.Calculate | src/calculator.js:282-318 | the figures for the selected model and year, which are `calcDuty`'s when a year was chosen; the results replace the Calculate block |
| Calculator.Session.Recalculate | src/calculator.js:401-411 | as written: the year is cleared and the results hidden, yet the Calculate block is shown again |
| Calculator.Session.RecalculateCorrected | src/calculator.js:401-411 | as intended: back to the year step, with the Calculate block hidden until a year is chosen |
| CrspImport.StrippedText | scripts/crsp_to_json.py:43 | `str(v).strip()` has no whitespace at either end |
| CrspImport.TextField | scripts/crsp_to_json.py:45 | `None` exactly for a falsy cell; otherwise the stripped text |
| CrspImport.VehicleRow | scripts/crsp_to_json.py:36-54 | raises for a row shorter than eleven cells; skips a row without make, model or price; otherwise emits stripped text fields |
| CrspImport.BikeRow | scripts/crsp_to_json.py:73-87 | raises for a row shorter than eight cells; the same skip rule; otherwise emits stripped text fields |
| CrspImport.ScanFailureSticks | scripts/crsp_to_json.py:53 | once a prefix of the rows has raised, the whole scan fails |
| CrspImport.ScanSheet | scripts/crsp_to_json.py:29-54 | the loop ends in exactly the state of the row-by-row scan |
| CrspImport.ParseVehicles | scripts/crsp_to_json.py:24-57 | `parse_vehicles` returns the records of the vehicle sheet's scan |
| CrspImport.ParseMotorcycles | scripts/crsp_to_json.py:62-90 | `parse_motorcycles` returns the records of the motorcycle sheet's scan |
| CrspImport.ScanBeforeHeader | scripts/crsp_to_json.py:31-34 | nothing is emitted up to the header row; the header row arms the scan |
| CrspImport.ScanBelowHeader | scripts/crsp_to_json.py:36-54 | once armed, the scan produces the records of the rows below the header |
| CrspImport.SheetAfterHeader | scripts/crsp_to_json.py:29-40 | no row at or above the first header row is emitted |
| CrspImport.SheetWithoutHeader | scripts/crsp_to_json.py:31-34 | a sheet without a header row yields no records |
| CrspImport.RecordsLength | scripts/crsp_to_json.py:38-42 | at most one record per row |
| CrspImport.RecordsAppend | scripts/crsp_to_json.py:29-54 | the records keep row order |
| CrspImport.RateEntry | scripts/crsp_to_json.py:110-113 | an entry exactly when the label is truthy and the rate is present |
| CrspImport.PrependJoin | scripts/crsp_to_json.py:110-113 | appending a row's entries, then the rest, is the same as joining both lists |
| CrspImport.DeprScanAt | scripts/crsp_to_json.py:104-117 | the scan of the rows from `i` on is row `i`'s entries followed by the scan of the rows after it, unless row `i` stops the loop |
| CrspImport.AppendEntry | scripts/crsp_to_json.py:110-113 | one list's half of a turn fails exactly when the label is truthy, the rate present and `float` of it raises; otherwise the list grows by that side's entry, if any |
| CrspImport.AppendRow | scripts/crsp_to_json.py:105-117 | one turn appends the row's entries; `stop` is the `break` |
| CrspImport.ParseDepreciation | scripts/crsp_to_json.py:96-122 | `parse_depreciation` skips two header rows and returns the scan of the rows below them |
| CrspImport.DeprSameHead | scripts/crsp_to_json.py:104 | two row lists with the same first row and tails that read the same read the same |
| CrspImport.DeprStopsFrom | scripts/crsp_to_json.py:116-117 | the scan depends only on the rows up to the first stop row |
| CrspImport.DeprStopsAtBlankRow | scripts/crsp_to_json.py:116-117 | rows below the first row with both labels empty are never read |
| CrspImport.DeprLength | scripts/crsp_to_json.py:110-113 | each list holds at most one entry per row read |
| CrspImport.DutyRatesAgree | scripts/crsp_to_json.py:127-136 | the script's rates are the literals `calcDuty` computes with |
| CrspImport.VehicleConvert | scripts/crsp_to_json.py:36-54 | the row conversion of `parse_vehicles`, as VehicleRow states it |
| CrspImport.BikeConvert | scripts/crsp_to_json.py:73-87 | the row conversion of `parse_motorcycles`, as BikeRow states it |
| CrspImport.HeaderRow | scripts/crsp_to_json.py:32 | `row[0] == "Make"`: nothing at or above the first such row is emitted (SheetAfterHeader), and a sheet with none yields nothing (SheetWithoutHeader) |
| CrspImport.Step | scripts/crsp_to_json.py:29-54 | one turn of the header-skipping loop; ScanSheet proves the loop takes exactly these steps |
| CrspImport.ScanRows | scripts/crsp_to_json.py:29-54 | the loop's state after the rows: a failure sticks (ScanFailureSticks), the rows before the header give nothing (ScanBeforeHeader), and below it the records of the rows come out (ScanBelowHeader) |
| CrspImport.Records | scripts/crsp_to_json.py:36-54 | the records of rows below the header: at most one per row (RecordsLength), in row order (RecordsAppend) |
| CrspImport.StopRow | scripts/crsp_to_json.py:116-117 | both labels falsy: the loop breaks there (DeprStopsAtBlankRow), and rows after it do not matter (DeprStopsFrom) |
| CrspImport.ReadRow | scripts/crsp_to_json.py:105-117 | what one row gives: an exception, or its entries and the `break`; AppendRow takes exactly this turn |
| CrspImport.DeprScan | scripts/crsp_to_json.py:104-117 | the tables read from the rows: the loop computes it (ParseDepreciation), each list has at most one entry per row (DeprLength), and reading ends at the first blank row (DeprStopsAtBlankRow) |
| Cascade.Capitalize | scripts/build_crsp_cascade.py:106 | `capitalize()` upper-cases the first character and lower-cases the rest, keeping the length |
| Cascade.Words | scripts/build_crsp_cascade.py:106 | `split()` yields non-empty runs with no whitespace in them |
| Cascade.TitleWords | scripts/build_crsp_cascade.py:106 | each word is title-cased in place |
| Cascade.LowerIdempotent | scripts/build_crsp_cascade.py:106 | lower-casing twice is lower-casing once |
| Cascade.CapitalizeIdempotent | scripts/build_crsp_cascade.py:106 | capitalizing twice is capitalizing once |
| Cascade.TitleWordIdempotent | scripts/build_crsp_cascade.py:106 | a capitalized word is left as it is |
| Cascade.TitleWordShape | scripts/build_crsp_cascade.py:106 | a title-cased word is still a non-empty run of non-whitespace |
| Cascade.WordsOfJoin | scripts/build_crsp_cascade.py:106 | words joined by single spaces split back into the same words |
| Cascade.TitleCaseWords | scripts/build_crsp_cascade.py:106 | the words of `title_case(s)` are the title-cased words of `s` |
| Cascade.TitleCaseIdempotent | scripts/build_crsp_cascade.py:104-106 | `title_case` is idempotent, so every make and model name it produces is already title-cased |
| Cascade.TitleCaseExample | scripts/build_crsp_cascade.py:105 | "Toyota HARRIER 2.0" becomes "Toyota Harrier 2.0" |
| Cascade.TitleFrom | scripts/build_crsp_cascade.py:135 | `.title()` keeps the length and which characters are letters |
| Cascade.TitleIdempotent | scripts/build_crsp_cascade.py:135 | `.title()` applied a second time changes nothing |
| Cascade.CategoryMapInOrder | scripts/build_crsp_cascade.py:30-101 | every category a body type maps to is in the display order and is not "Motorcycle" |
| Cascade.CategoryOrderDistinct | scripts/build_crsp_cascade.py:89-101 | the display order names each category once, "Motorcycle" among them |
| Cascade.VehiclePlacementFacts | scripts/build_crsp_cascade.py:118-139 | a vehicle is skipped exactly when its stripped body type has no category; a placed one gets the mapped category and a well-formed entry |
| Cascade.BikePlacementFacts | scripts/build_crsp_cascade.py:142-152 | a motorcycle goes under "Motorcycle" with no model number and no transmission |
| Cascade.StrLeTotal | scripts/build_crsp_cascade.py:159-160 | Python's string order is total |
| Cascade.Insert | scripts/build_crsp_cascade.py:159 | inserting adds exactly one element |
| Cascade.SortBy | scripts/build_crsp_cascade.py:159-160 | `sorted` keeps the length |
| Cascade.InsertSorted | scripts/build_crsp_cascade.py:159 | inserting into a sorted list keeps it sorted |
| Cascade.InsertPerm | scripts/build_crsp_cascade.py:159 | inserting adds exactly that element to the multiset |
| Cascade.SortByFacts | scripts/build_crsp_cascade.py:159-160 | `sorted` returns an ordered permutation of its input |
| Cascade.SortByMembers | scripts/build_crsp_cascade.py:159-160 | membership survives the sort, both ways |
| Cascade.InsertModels | scripts/build_crsp_cascade.py:160 | inserting a make adds its model count |
| Cascade.SortMakesModels | scripts/build_crsp_cascade.py:160 | sorting makes keeps the model count |
| Cascade.SortModels | scripts/build_crsp_cascade.py:159 | each make keeps its name, with its models sorted by model name |
| Cascade.SortModelsCount | scripts/build_crsp_cascade.py:159 | sorting the model lists keeps the model count |
| Cascade.SortedMakesOrdered | scripts/build_crsp_cascade.py:158-161 | the sorted makes are in key order, and each make's models are in model order |
| Cascade.SortedMakesCount | scripts/build_crsp_cascade.py:158-161 | sorting neither drops nor duplicates a model entry |
| Cascade.SortedMakesEvery | scripts/build_crsp_cascade.py:158-161 | whatever holds of every entry before sorting holds after |
| Cascade.AddModelFacts | scripts/build_crsp_cascade.py:139 | appending a model adds one to the count and keeps every entry's property |
| Cascade.AddFind | scripts/build_crsp_cascade.py:139 | filing a placement changes only its own category, and there appends the entry under its make |
| Cascade.AddCount | scripts/build_crsp_cascade.py:139 | filing adds exactly one model entry |
| Cascade.AddKeys | scripts/build_crsp_cascade.py:139 | filing keeps the keys distinct and adds no key except the placement's own |
| Cascade.AddEvery | scripts/build_crsp_cascade.py:139 | filing an entry with a property keeps that property for every entry |
| Cascade.GroupFacts | scripts/build_crsp_cascade.py:113-152 | filing a list adds one entry per placement, keeps the keys distinct, and keeps entry properties |
| Cascade.GroupNamesIn | scripts/build_crsp_cascade.py:139 | filing adds no key that no placement names |
| Cascade.GroupFind | scripts/build_crsp_cascade.py:139 | a category is present after filing exactly when it was before or some placement names it; its count grows by its placements |
| Cascade.GroupUnder | scripts/build_crsp_cascade.py:139 | whatever holds of every placement under a category holds of every entry filed there |
| Cascade.Mapped | scripts/build_crsp_cascade.py:142-152 | one placement per motorcycle, in order |
| Cascade.PlacementsFacts | scripts/build_crsp_cascade.py:116-139 | every record is either filed or skipped; each placement comes from a record; every record's placement is kept |
| Cascade.VehiclePlacementsShape | scripts/build_crsp_cascade.py:117-139 | no vehicle goes under "Motorcycle", and every filed vehicle has a category of the order and a well-formed entry |
| Cascade.NoneCounted | scripts/build_crsp_cascade.py:139 | placements outside a category add nothing to its count |
| Cascade.AllCounted | scripts/build_crsp_cascade.py:152 | placements all under one category are all counted there |
| Cascade.CountInAppend | scripts/build_crsp_cascade.py:139 | per-category counts add up over concatenation |
| Cascade.PlacedCategories | scripts/build_crsp_cascade.py:119-139 | a category gets a record exactly when some record is filed there |
| Cascade.SortedDataFind | scripts/build_crsp_cascade.py:155-161 | a sorted category is found exactly when it is in the order and in the cascade, with its makes sorted |
| Cascade.SortedDataEntries | scripts/build_crsp_cascade.py:155-161 | each sorted category is a category of the cascade named in the order, with its makes sorted |
| Cascade.SortedDataDistinct | scripts/build_crsp_cascade.py:155-161 | the sorted data has distinct keys |
| Cascade.ListedNames | scripts/build_crsp_cascade.py:164 | the listed categories are the keys of the sorted data |
| Cascade.ListedSame | scripts/build_crsp_cascade.py:164 | the list depends only on which names of the order are present |
| Cascade.ListedMembers | scripts/build_crsp_cascade.py:164 | a category is listed exactly when it is in the order and present |
| Cascade.SortedDataCount | scripts/build_crsp_cascade.py:155-161 | the sorted data holds as many entries as the ordered categories hold in the cascade |
| Cascade.OrderSumEmpty | scripts/build_crsp_cascade.py:171 | an empty cascade counts nothing |
| Cascade.OrderSumSnoc | scripts/build_crsp_cascade.py:171 | a new category adds its count once when the order names it, and nothing otherwise |
| Cascade.OrderSumCovers | scripts/build_crsp_cascade.py:171 | when the order names every category once, its sums cover the whole table |
| Cascade.SortedDataUnder | scripts/build_crsp_cascade.py:158-161 | under a category of the order, the sorted data holds that category's makes, sorted |
| Cascade.FileRecord | scripts/build_crsp_cascade.py:117-139 | one turn of the vehicle loop files the record where it belongs or counts it as skipped |
| Cascade.FileMapped | scripts/build_crsp_cascade.py:142-152 | one turn of the motorcycle loop files the record under "Motorcycle" |
| Cascade.SortCascade | scripts/build_crsp_cascade.py:155-161 | the sorting loop builds exactly the categories of the order present in the cascade, each sorted |
| Cascade.Build | scripts/build_crsp_cascade.py:109-166 | `build()` outputs the sorted grouping of all placements, and `skipped` counts the vehicles without a category |
| Cascade.OutputSorted | scripts/build_crsp_cascade.py:155-161 | whatever the cascade, the makes are sorted by name and each make's models by model name |
| Cascade.OutputCategories | scripts/build_crsp_cascade.py:163-166 | `categories` is the display order filtered to present categories; it is exactly the list of keys, each of which is found |
| Cascade.OutputEvery | scripts/build_crsp_cascade.py:155-166 | whatever holds of every entry of the cascade holds of every entry of the output |
| Cascade.AllPlacementsShape | scripts/build_crsp_cascade.py:117-152 | each placement has a category of the display order and a well-formed entry |
| Cascade.GroupShape | scripts/build_crsp_cascade.py:113-152 | filing such placements gives distinct keys, only named categories, one entry per placement, and well-formed entries |
| Cascade.GroupedShape | scripts/build_crsp_cascade.py:113-152 | the cascade `build` fills has distinct keys, only categories of the order, and well-formed entries |
| Cascade.BuildCount | scripts/build_crsp_cascade.py:116-176 | every record is accounted for: output entries plus `skipped` equal the number of records |
| Cascade.BuildEntries | scripts/build_crsp_cascade.py:125-137 | every output entry has no empty or "None" model number and title-cased names |
| Cascade.FilesAppend | scripts/build_crsp_cascade.py:139 | a concatenation files under a category exactly when one of its parts does |
| Cascade.FiledBy | scripts/build_crsp_cascade.py:119-139 | a record is filed under a category exactly when the category key names it |
| Cascade.VehicleFiledUnder | scripts/build_crsp_cascade.py:118-122 | a vehicle is placed under a category exactly when its stripped body type maps to that category |
| Cascade.VehiclesFiled | scripts/build_crsp_cascade.py:117-139 | some vehicle is filed under a category exactly when some vehicle's body type maps there |
| Cascade.BikesFiled | scripts/build_crsp_cascade.py:142-152 | motorcycles file under a category exactly when it is "Motorcycle" and there are motorcycles |
| Cascade.BuildListed | scripts/build_crsp_cascade.py:164 | a category is listed exactly when it is "Motorcycle" with motorcycles present, or some vehicle's body type maps to it |
| Cascade.BuildMotorcycles | scripts/build_crsp_cascade.py:142-152 | every motorcycle is under "Motorcycle", nothing else is, and no entry there has a model number or transmission |
| Cascade.IsUpperWord | scripts/build_crsp_cascade.py:106 | `w.isupper()` on ASCII: some upper-case letter and no lower-case one; TitleWord capitalises exactly the words it accepts, and TitleWordIdempotent shows that doing so twice changes nothing |
| Cascade.TitleWord | scripts/build_crsp_cascade.py:106 | one word of `title_case`: idempotent (TitleWordIdempotent), still a non-empty run of non-whitespace (TitleWordShape) |
| Cascade.TitleCase | scripts/build_crsp_cascade.py:104-106 | `title_case(s)`: its words are the title-cased words of s (TitleCaseWords), a second application changes nothing (TitleCaseIdempotent), as the docstring example shows (TitleCaseExample) |
| Cascade.Title | scripts/build_crsp_cascade.py:135 | `str.title()`: same length and the same letters' positions (TitleFrom), idempotent (TitleIdempotent) |
| Cascade.CategoryOf | scripts/build_crsp_cascade.py:30-86 | `CATEGORY_MAP.get(body)`: every value it gives is in CATEGORY_ORDER and is not "Motorcycle" (CategoryMapInOrder) |
| Cascade.VehicleEntry | scripts/build_crsp_cascade.py:124-137 | a vehicle's entry: no empty or "None" mn, model and fuel title-cased (VehiclePlacementFacts, BuildEntries) |
| Cascade.BikeEntry | scripts/build_crsp_cascade.py:143-151 | a motorcycle's entry, with no mn and no tx (BikePlacementFacts) |
| Cascade.VehiclePlacement | scripts/build_crsp_cascade.py:117-139 | where a vehicle is filed: skipped exactly when its stripped body type has no category (VehiclePlacementFacts), under c exactly when the map sends its body there (VehicleFiledUnder) |
| Cascade.BikePlacement | scripts/build_crsp_cascade.py:142-152 | every motorcycle is filed under "Motorcycle" (BikePlacementFacts) |
| Cascade.AddModel | scripts/build_crsp_cascade.py:139 | `makes[make].append(e)`: one entry more, properties kept (AddModelFacts) |
| Cascade.Add | scripts/build_crsp_cascade.py:139 | `cascade[category][make].append(entry)`: only that category changes (AddFind), one entry more (AddCount), keys stay distinct (AddKeys), entry properties kept (AddEvery) |
| Cascade.GroupAll | scripts/build_crsp_cascade.py:113-152 | the filing of every placement: one entry per placement under distinct keys (GroupFacts), a category present exactly when some placement names it (GroupFind) |
| Cascade.Placements | scripts/build_crsp_cascade.py:117-139 | the placed vehicles in order: placed plus skipped is all of them, membership both ways (PlacementsFacts) |
| Cascade.Unplaced | scripts/build_crsp_cascade.py:116-122 | `skipped`: Build counts it, and with the placed records it covers every record (PlacementsFacts, BuildCount) |
| Cascade.Grouped | scripts/build_crsp_cascade.py:113-152 | the cascade `build` fills: distinct keys, named categories only, one entry per placement (GroupedShape) |
| Cascade.StrLe | scripts/build_crsp_cascade.py:159-160 | Python's string `<=`: a total order (StrLeTotal) that SortBy sorts by |
| Cascade.SortedMakes | scripts/build_crsp_cascade.py:158-161 | one category of `sorted_cascade`: makes and models ordered (SortedMakesOrdered), nothing dropped or duplicated (SortedMakesCount) |
| Cascade.SortedData | scripts/build_crsp_cascade.py:155-161 | `sorted_cascade`: exactly the ordered categories present in the cascade, each with sorted makes (SortedDataFind, SortedDataEntries), distinct keys (SortedDataDistinct) |
| Cascade.Listed | scripts/build_crsp_cascade.py:164 | `[c for c in CATEGORY_ORDER if c in sorted_cascade]`: listed exactly when ordered and present (ListedMembers), the keys of the data (ListedNames) |
| Cascade.Output | scripts/build_crsp_cascade.py:163-166 | `out`: sorted (OutputSorted), its category list exactly its data's keys (OutputCategories), entry properties kept (OutputEvery) |

## Left out

- Rounding for display: `Math.round`, Python `round`/`int`, `toLocaleString`, `toFixed`, `kes`. The model keeps every figure as an exact rational.
- CrspImport.VehicleRow: `round(float(crsp))` is not modelled; `crspKes` keeps the value `parseFloat` gives.
- CrspImport.BikeRow: `round(float(crsp))` is not modelled either.
- CrspImport: `str(cell)` and `float(cell)` are parameters (`numText`, `parseFloat`), because number formatting is not modelled.
- Boolean and date cells of the workbook are left out.
- Floating-point arithmetic is exact here, so results within a rounding error are not distinguished.
- All I/O is left out:
  - reading the workbook (openpyxl) and the JSON file;
  - writing files and directories.
- All output is left out: `print` and `console.log`, including the statistics printed at the end of `build`.
- Reading the table is a parameter: the `fetch` in `initCalculator`, the `getCrsp` cache and `json.loads`.
- The HTML the renderers build is left out: layout, breadcrumbs, JSON-LD, meta text and the category icons. Each page is modelled by what it shows and what it links to.
- The DOM work of the calculator is left out:
  - showing and hiding elements is reduced to two flags;
  - the vehicle card and the labels of the model options are not modelled;
  - `renderCategories` (it only draws the category buttons), `share` and `buildShareText` are not modelled.
- Reference.MakeNames: the makes are listed in the order the table's text gives them. That is Python's dict order, but JavaScript's `Object.keys` and `Object.entries` list integer-like keys first ("1", "2024"), in ascending numeric order, and only then the other keys in insertion order. That reordering is not modelled, so the JavaScript orders below agree with the source only while no make name is a canonical array index.
- Route.DispatchedMakeIsLast: "the later make in key order wins a shared slug" uses the table's text order; for integer-like make names `Object.keys` (plugins/render.js:538) uses the reordering above, which is not modelled.
- Emitter.EmitMakes: the make loop runs in the table's text order; `Object.entries` (scripts/generate_pages.js:42) would visit integer-like make names first, which is not modelled. The set of paths tried is the same either way; their order and, for makes that share a slug, which page is written last are not.
- PyPages.TableDirs: a directory is a list of segments, and `Path / ""` in Python is the parent directory. So a make or model whose slug is empty writes over its parent's `index.html` on disk, while the model counts it as a separate directory. The printed total is still the number of writes, which `PyPages.PyMain` states.
- Route.CategoryView: the card order (`localeCompare`) is not modelled; the view says which make pages are linked, in key order.
- Route.MakeView: the card order (`localeCompare`) is not modelled either.
- Calculator.Session.SelectCategory:
  - the make options are the data's key order;
  - the `.sort()` of `Object.keys` (UTF-16 order) is not modelled;
  - on a table built by `build` the keys are already in code-point order (`Cascade.OutputSorted`).
- PyPages.MakePageCards: `sorted(models, key=model)` is given as a permutation parameter `order`. The comparison itself is modelled in `Cascade.SortBy`.
- Cascade.SortedMakesOrdered: sort stability is not proved, only order and permutation.
- Cascade.SortByFacts: stability is not proved here either.
- Unicode is left out:
  - `lower`, `upper`, `isupper`, `title` and `\s` are modelled on ASCII;
  - non-ASCII characters count as neither letters nor whitespace;
  - Unicode case mapping and normalisation are not modelled.
- The prototype chain of the JavaScript object tables is modelled only for `constructor` in `buildModelIndex`. In `renderUrl` an inherited key such as `constructor` leads to a null page, which the plain lookup gives as well.
- Python's `defaultdict` keeps insertion order, and `Cascade.Add` and `Cascade.AddModel` keep it too (a new key or entry goes at the end). Nothing is proved about that order, because the output is sorted before it is written.
- `generate_pages.js` stops when `crsp.data[category]` is missing (`Object.entries(undefined)` throws). This is modelled as `completed == false`, not as an exception.
- The development server (plugins/dev-render.js), src/main.js, src/theme.js and vite.config.js are not part of this model.
- CrspImport.DutyRatesAgree: the rates are compared as literals. The `note` field is not modelled.

## Findings

| source | as written | input that shows it | evidently intended | confidence | as-written member | corrected member |
|---|---|---|---|---|---|---|
| src/calculator.js:401-404 | `recalculate` clears `selectedYear` and hides the results, but shows the Calculate block again | pick a model and a year, calculate, click Recalculate, then click Calculate: the vehicle is priced with a `null` year, i.e. as 2026 years old and undepreciated | go back to the year step with Calculate hidden until a year is chosen | not executed | Calculator.Session.Recalculate, Calculator.NullYearExample | Calculator.Session.RecalculateCorrected |
| scripts/generate_pages.py:213-214 | make-page card links use `slugify(model) or model-{i}`, with `i` the position in sorted order and no collision suffix, while `main` writes the model pages under the `seen_slugs` names | two models named "GT": pages are written under `gt/` and `gt-1/`, but both cards link to `gt/` | each card links to the directory `main` wrote for the model it shows | not executed | PyPages.UnlinkedPageExample, PyPages.GTCardLinks | PyPages.CorrectedCardSlugs, PyPages.CorrectedCardsLinkEveryPage, PyPages.GTCorrectedLinks |
| plugins/render.js:77-85 | the collision pass suffixes a taken slug with `-<i>` once and never checks the result again | models "GT", "GT 2", "GT" get `gt`, `gt-2`, `gt-2`; the third model's page cannot be reached | every model of a make gets its own slug | not executed | ModelIndex.CollisionExample | ModelIndex.UniqueDedupe, ModelIndex.UniqueDedupeDistinct |
