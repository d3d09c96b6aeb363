/**
 * The cascade builder, scripts/build_crsp_cascade.py: vehicle records are
 * filed under a display category by body type and motorcycles all under
 * "Motorcycle", grouped by title-cased make, and written out with the
 * categories in display order, the makes sorted by name and each make's
 * models sorted by model name. The nested `defaultdict` is an association
 * list in first-insertion order, as Python dictionaries keep it.
 */
module Cascade {
  import opened Wrappers
  import opened Text
  import opened Reference
  import opened CrspImport

  // ---------------------------------------------------------------------
  // title_case and str.title

  /** `str.isupper()` on ASCII: some upper-case letter and no lower-case one. */
  predicate IsUpperWord(w: string) {
    (exists i :: 0 <= i < |w| && IsUpperLetter(w[i])) && forall i :: 0 <= i < |w| ==> !IsLowerLetter(w[i])
  }

  /** `str.capitalize()`: the first character upper-cased, the rest lower-cased. */
  function Capitalize(w: string): (r: string)
    ensures |r| == |w|
    ensures w != [] ==> r[0] == ToUpper(w[0])
    ensures forall i :: 1 <= i < |w| ==> r[i] == ToLower(w[i])
  {
    if w == [] then [] else [ToUpper(w[0])] + Lower(w[1..])
  }

  /** One word of `title_case`. */
  function TitleWord(w: string): string {
    if IsUpperWord(w) then Capitalize(w) else w
  }

  /** The words of `s.split()`: maximal runs of non-whitespace. */
  function Words(s: string): (r: seq<string>)
    ensures forall k :: 0 <= k < |r| ==> r[k] != [] && forall i :: 0 <= i < |r[k]| ==> !IsPySpace(r[k][i])
  {
    NonEmpty(SplitBy(s, c => IsPySpace(c)))
  }

  /** `" ".join(ws)`. */
  function JoinWords(ws: seq<string>): string {
    if ws == [] then ""
    else if |ws| == 1 then ws[0]
    else ws[0] + " " + JoinWords(ws[1..])
  }

  function TitleWords(ws: seq<string>): (r: seq<string>)
    ensures |r| == |ws| && forall i :: 0 <= i < |ws| ==> r[i] == TitleWord(ws[i])
  {
    if ws == [] then [] else [TitleWord(ws[0])] + TitleWords(ws[1..])
  }

  /** `title_case(s)`: upper-case words capitalised, other words kept, whitespace runs made single spaces. */
  function TitleCase(s: string): string {
    JoinWords(TitleWords(Words(s)))
  }

  /** `lower` changes nothing the second time. */
  lemma LowerIdempotent(s: string)
    ensures Lower(Lower(s)) == Lower(s)
  {
    assert forall i :: 0 <= i < |s| ==> Lower(Lower(s))[i] == Lower(s)[i];
  }

  /** `capitalize` changes nothing the second time. */
  lemma CapitalizeIdempotent(w: string)
    ensures Capitalize(Capitalize(w)) == Capitalize(w)
  {
    var c := Capitalize(w);
    assert forall i :: 0 <= i < |w| ==> Capitalize(c)[i] == c[i];
  }

  /** `title_case` word by word is idempotent: a capitalised word is left as it is. */
  lemma TitleWordIdempotent(w: string)
    ensures TitleWord(TitleWord(w)) == TitleWord(w)
  {
    if IsUpperWord(w) {
      CapitalizeIdempotent(w);
    }
  }

  /** Title-casing a word keeps it a non-empty run of non-whitespace. */
  lemma TitleWordShape(w: string)
    requires w != [] && forall i :: 0 <= i < |w| ==> !IsPySpace(w[i])
    ensures TitleWord(w) != [] && forall i :: 0 <= i < |TitleWord(w)| ==> !IsPySpace(TitleWord(w)[i])
  {
  }

  /** Words joined by single spaces split back into the same words. */
  lemma {:induction false} WordsOfJoin(ws: seq<string>)
    requires forall k :: 0 <= k < |ws| ==> ws[k] != [] && forall i :: 0 <= i < |ws[k]| ==> !IsPySpace(ws[k][i])
    ensures Words(JoinWords(ws)) == ws
  {
    var sep := c => IsPySpace(c);
    if ws == [] {
    } else if |ws| == 1 {
      SplitNoSep(ws[0], sep);
    } else {
      WordsOfJoin(ws[1..]);
      var rest := JoinWords(ws[1..]);
      assert JoinWords(ws) == ws[0] + [' '] + rest;
      SplitAfterPiece(ws[0], ' ', rest, sep);
      NonEmptyAppend([ws[0]], SplitBy(rest, sep));
      assert NonEmpty([ws[0]]) == [ws[0]];
    }
  }

  /** The words of `title_case(s)` are the title-cased words of `s`. */
  lemma TitleCaseWords(s: string)
    ensures Words(TitleCase(s)) == TitleWords(Words(s))
  {
    var ws := Words(s);
    forall k | 0 <= k < |ws| {
      TitleWordShape(ws[k]);
    }
    WordsOfJoin(TitleWords(ws));
  }

  /** `title_case` is idempotent, so every make and model name it produces is already in title case. */
  lemma TitleCaseIdempotent(s: string)
    ensures TitleCase(TitleCase(s)) == TitleCase(s)
  {
    TitleCaseWords(s);
    var ws := Words(s);
    forall k | 0 <= k < |ws| {
      TitleWordIdempotent(ws[k]);
    }
    assert TitleWords(TitleWords(ws)) == TitleWords(ws);
  }

  lemma ExampleWords()
    ensures Words("Toyota HARRIER 2.0") == ["Toyota", "HARRIER", "2.0"]
  {
    var ws := ["Toyota", "HARRIER", "2.0"];
    assert JoinWords(ws[2..]) == "2.0";
    assert JoinWords(ws[1..]) == "HARRIER" + " " + "2.0";
    assert JoinWords(ws) == "Toyota HARRIER 2.0";
    WordsOfJoin(ws);
  }

  lemma ExampleMixedWord()
    ensures TitleWord("Toyota") == "Toyota"
  {
    assert IsLowerLetter("Toyota"[1]);
  }

  lemma ExampleUpperWord()
    ensures TitleWord("HARRIER") == "Harrier"
  {
    assert IsUpperWord("HARRIER") by { assert IsUpperLetter("HARRIER"[0]); }
    var c := Capitalize("HARRIER");
    assert c[0] == 'H' && c[1] == 'a' && c[2] == 'r' && c[3] == 'r' && c[4] == 'i' && c[5] == 'e' && c[6] == 'r';
  }

  lemma ExampleNumberWord()
    ensures TitleWord("2.0") == "2.0"
  {
    assert !IsUpperWord("2.0");
  }

  lemma ExampleJoin()
    ensures JoinWords(["Toyota", "Harrier", "2.0"]) == "Toyota Harrier 2.0"
  {
    var ts := ["Toyota", "Harrier", "2.0"];
    assert JoinWords(ts[2..]) == "2.0";
    assert JoinWords(ts[1..]) == "Harrier" + " " + "2.0";
  }

  lemma ExampleTitleList()
    ensures TitleWords(["Toyota", "HARRIER", "2.0"]) == ["Toyota", "Harrier", "2.0"]
  {
    ExampleMixedWord();
    ExampleUpperWord();
    ExampleNumberWord();
    var ws := ["Toyota", "HARRIER", "2.0"];
    assert TitleWords(ws)[0] == "Toyota" && TitleWords(ws)[1] == "Harrier" && TitleWords(ws)[2] == "2.0";
  }

  /** The docstring's example. */
  lemma TitleCaseExample()
    ensures TitleCase("Toyota HARRIER 2.0") == "Toyota Harrier 2.0"
  {
    ExampleWords();
    ExampleJoin();
    ExampleTitleList();
  }

  /** `str.title()` from a position: a letter after a letter is lower-cased, any other letter upper-cased. */
  function TitleFrom(s: string, afterLetter: bool): (r: string)
    ensures |r| == |s|
    ensures forall i :: 0 <= i < |s| ==> IsLetter(r[i]) == IsLetter(s[i])
  {
    if s == [] then []
    else [if afterLetter then ToLower(s[0]) else ToUpper(s[0])] + TitleFrom(s[1..], IsLetter(s[0]))
  }

  /** `str.title()`. */
  function Title(s: string): string {
    TitleFrom(s, false)
  }

  lemma {:induction false} TitleFromIdempotent(s: string, afterLetter: bool)
    ensures TitleFrom(TitleFrom(s, afterLetter), afterLetter) == TitleFrom(s, afterLetter)
  {
    if s != [] {
      var r := TitleFrom(s, afterLetter);
      TitleFromIdempotent(s[1..], IsLetter(s[0]));
      assert r[1..] == TitleFrom(s[1..], IsLetter(s[0]));
      assert IsLetter(r[0]) == IsLetter(s[0]);
    }
  }

  /** A fuel name goes through `.title()` once; a second time would change nothing. */
  lemma TitleIdempotent(s: string)
    ensures Title(Title(s)) == Title(s)
  {
    TitleFromIdempotent(s, false);
  }

  // ---------------------------------------------------------------------
  // CATEGORY_MAP and CATEGORY_ORDER

  /**
   * `CATEGORY_MAP.get(body)`: stripped body types to display categories,
   * grouped by category as the literal is.
   */
  function CategoryOf(body: string): Option<string> {
    if body in {"SUV", "SUV-COUPE", "CROSSOVER", "suv"} then Some("SUV")
    else if body in {"SEDAN", "SALOON", "SAL"} then Some("Sedan")
    else if body in {"HATCHBACK", "HATCBACK"} then Some("Hatchback")
    else if body in {"WAGON", "S/WAGON", "S. WAGON", "STATION WAGON"} then Some("Station Wagon")
    else if body in {"VAN", "MINIVAN", "MINVAN"} then Some("Van")
    else if body == "COUPE" then Some("Coupe")
    else if body in {"CONVERTIBLE", "CONVRTIBLE", "ROADSTER"} then Some("Convertible")
    else if body in {"TRUCK", "TRK", "SINGLE CAB", "SINGLE CABIN", "S/CAB", "S/CABIN", "DUAL CAB", "D/CAB",
                     "DOUBLE CABIN", "DOUBLE CAB", "DOUBLE  CAB", "CREW CAB", "PICK UP", "PICKUP"}
    then Some("Pickup / Truck")
    else if body in {"BUS", "MINI BUS", "PEOPLE MOVER"} then Some("Bus")
    else if body in {"TIPPER", "MIXER", "TRANSIT  MIXER", "TRACTOR", "AMBULANCE", "PRIM£ MOVER", "PM", "3", "OTHER"}
    then Some("Commercial")
    else None
  }

  const Motorcycle: string := "Motorcycle"

  /** The display order of the category buttons. */
  const CategoryOrder: seq<string> := [
    "Motorcycle", "SUV", "Sedan", "Hatchback", "Station Wagon", "Van",
    "Pickup / Truck", "Coupe", "Convertible", "Bus", "Commercial"
  ]

  /** Every category a body type maps to has a place in the display order, and none is "Motorcycle". */
  lemma CategoryMapInOrder(body: string)
    ensures CategoryOf(body).Some? ==>
              CategoryOf(body).value in CategoryOrder && CategoryOf(body).value != Motorcycle
              && CategoryOf(body).value != ""
  {
  }

  predicate DistinctNames(names: seq<string>) {
    forall i, j :: 0 <= i < j < |names| ==> names[i] != names[j]
  }

  lemma CategoryOrderDistinct()
    ensures DistinctNames(CategoryOrder) && Motorcycle in CategoryOrder
  {
  }

  // ---------------------------------------------------------------------
  // Entries

  /** Where `build` files a record: category, title-cased make, entry. */
  datatype Placed = Placed(category: string, make: string, entry: ModelVariant)

  /** Python truthiness of an optional string. */
  predicate Present(s: Option<string>) {
    s.Some? && s.value != ""
  }

  function CcOf(c: Cell): Cc {
    match c
    case Str(s) => CcText(s)
    case Num(x) => CcNumber(x)
  }

  /** `(v.get("body_type") or "").strip()`. */
  function Body(v: VehicleRecord): string {
    Strip(Python, if v.bodyType.Some? then v.bodyType.value else "")
  }

  /** The entry of a vehicle: `mn` only when truthy and not "None"; `cc`, `fuel`, `tx` only when truthy. */
  function VehicleEntry(v: VehicleRecord): ModelVariant {
    ModelVariant(
      TitleCase(v.model), v.crspKes,
      if Present(v.modelNumber) && v.modelNumber.value != "None" then v.modelNumber else None,
      if Truthy(v.engineCc) then Some(CcOf(v.engineCc.value)) else None,
      if Present(v.fuel) then Some(Title(v.fuel.value)) else None,
      if Present(v.transmission) then v.transmission else None)
  }

  /** The entry of a motorcycle: no `mn` and no `tx`. */
  function BikeEntry(m: BikeRecord): ModelVariant {
    ModelVariant(
      TitleCase(m.model), m.crspKes, None,
      if Truthy(m.engineCc) then Some(CcOf(m.engineCc.value)) else None,
      if Present(m.fuel) then Some(Title(m.fuel.value)) else None,
      None)
  }

  /** A vehicle whose body type has no category is skipped (`None`). */
  function VehiclePlacement(v: VehicleRecord): Option<Placed> {
    var category := CategoryOf(Body(v));
    if category.None? || category.value == "" then None
    else Some(Placed(category.value, TitleCase(v.make), VehicleEntry(v)))
  }

  function BikePlacement(m: BikeRecord): Placed {
    Placed(Motorcycle, TitleCase(m.make), BikeEntry(m))
  }

  /** What the output promises of each entry: no empty or "None" model number, normalised names. */
  predicate WellFormedEntry(e: ModelVariant) {
    (e.mn.Some? ==> e.mn.value != "" && e.mn.value != "None")
    && (e.fuel.Some? ==> e.fuel.value != "" && Title(e.fuel.value) == e.fuel.value)
    && (e.tx.Some? ==> e.tx.value != "")
    && TitleCase(e.model) == e.model
  }

  /** What a "Motorcycle" entry promises besides: no model number, no transmission. */
  predicate BikeShaped(e: ModelVariant) {
    e.mn.None? && e.tx.None?
  }

  /** Every placement `build` makes satisfies the entry rules, and only motorcycles go under "Motorcycle". */
  lemma VehiclePlacementFacts(v: VehicleRecord)
    ensures VehiclePlacement(v).None? <==> CategoryOf(Body(v)).None?
    ensures VehiclePlacement(v).Some? ==>
              var p := VehiclePlacement(v).value;
              p.category == CategoryOf(Body(v)).value
              && p.category in CategoryOrder && p.category != Motorcycle && WellFormedEntry(p.entry)
              && TitleCase(p.make) == p.make
  {
    CategoryMapInOrder(Body(v));
    if CategoryOf(Body(v)).Some? {
      TitleCaseIdempotent(v.model);
      TitleCaseIdempotent(v.make);
      if Present(v.fuel) {
        TitleIdempotent(v.fuel.value);
      }
    }
  }

  lemma BikePlacementFacts(m: BikeRecord)
    ensures var p := BikePlacement(m);
            p.category == Motorcycle && WellFormedEntry(p.entry) && BikeShaped(p.entry)
            && TitleCase(p.make) == p.make
  {
    TitleCaseIdempotent(m.model);
    TitleCaseIdempotent(m.make);
    if Present(m.fuel) {
      TitleIdempotent(m.fuel.value);
    }
  }

  // ---------------------------------------------------------------------
  // Sorting: `sorted(...)` over Python's string order

  /** Python's `<=` on strings: code points compared left to right, a proper prefix first. */
  predicate StrLe(a: string, b: string) {
    a == [] || (b != [] && (a[0] < b[0] || (a[0] == b[0] && StrLe(a[1..], b[1..]))))
  }

  lemma StrLeTotal(a: string, b: string)
    ensures StrLe(a, b) || StrLe(b, a)
  {
  }

  /** Adjacent elements are in order under `key`, hence (by transitivity) all of them. */
  predicate SortedBy<T>(xs: seq<T>, key: T -> string) {
    forall i :: 0 <= i < |xs| - 1 ==> StrLe(key(xs[i]), key(xs[i + 1]))
  }

  /** Put `x` before the first element it does not follow. */
  function Insert<T>(x: T, s: seq<T>, key: T -> string): (r: seq<T>)
    ensures |r| == |s| + 1
  {
    if s == [] then [x]
    else if StrLe(key(x), key(s[0])) then [x] + s
    else [s[0]] + Insert(x, s[1..], key)
  }

  /** `sorted(xs, key=key)`, written as an insertion sort. */
  function SortBy<T>(xs: seq<T>, key: T -> string): (r: seq<T>)
    ensures |r| == |xs|
  {
    if xs == [] then [] else Insert(xs[0], SortBy(xs[1..], key), key)
  }

  lemma {:induction false} InsertSorted<T>(x: T, s: seq<T>, key: T -> string)
    requires SortedBy(s, key)
    ensures SortedBy(Insert(x, s, key), key)
    ensures Insert(x, s, key)[0] == x || Insert(x, s, key)[0] == s[0]
  {
    if s != [] && !StrLe(key(x), key(s[0])) {
      StrLeTotal(key(x), key(s[0]));
      var t := Insert(x, s[1..], key);
      InsertSorted(x, s[1..], key);
      assert t[0] == x || t[0] == s[1];
      assert ([s[0]] + t)[1..] == t;
    }
  }

  lemma {:induction false} InsertPerm<T>(x: T, s: seq<T>, key: T -> string)
    ensures multiset(Insert(x, s, key)) == multiset(s) + multiset{x}
  {
    if s != [] && !StrLe(key(x), key(s[0])) {
      InsertPerm(x, s[1..], key);
      assert s == [s[0]] + s[1..];
    }
  }

  /** The sort's output is in order and is a permutation of its input. */
  lemma {:induction false} SortByFacts<T>(xs: seq<T>, key: T -> string)
    ensures SortedBy(SortBy(xs, key), key)
    ensures multiset(SortBy(xs, key)) == multiset(xs)
  {
    if xs != [] {
      SortByFacts(xs[1..], key);
      InsertSorted(xs[0], SortBy(xs[1..], key), key);
      InsertPerm(xs[0], SortBy(xs[1..], key), key);
      assert xs == [xs[0]] + xs[1..];
    }
  }

  /** Membership survives the sort, both ways. */
  lemma SortByMembers<T>(xs: seq<T>, key: T -> string)
    ensures forall y :: y in SortBy(xs, key) <==> y in xs
  {
    SortByFacts(xs, key);
    forall y
      ensures y in SortBy(xs, key) <==> y in xs
    {
      assert y in SortBy(xs, key) <==> y in multiset(SortBy(xs, key));
      assert y in xs <==> y in multiset(xs);
    }
  }

  const ByModel: ModelVariant -> string := (e: ModelVariant) => e.model
  const ByMake: MakeEntry -> string := (m: MakeEntry) => m.name

  /** Inserting a make adds its model count. */
  lemma {:induction false} InsertModels(x: MakeEntry, s: seq<MakeEntry>)
    ensures ModelsOfMakes(Insert(x, s, ByMake)) == |x.models| + ModelsOfMakes(s)
  {
    assert ModelsOfMakes([x]) == |x.models| by {
      assert [x][..0] == [];
    }
    if s == [] {
    } else if StrLe(ByMake(x), ByMake(s[0])) {
      ModelsOfMakesAppend([x], s);
    } else {
      InsertModels(x, s[1..]);
      ModelsOfMakesAppend([s[0]], Insert(x, s[1..], ByMake));
      ModelsOfMakesAppend([s[0]], s[1..]);
      assert s == [s[0]] + s[1..];
      assert ModelsOfMakes([s[0]]) == |s[0].models| by {
        assert [s[0]][..0] == [];
      }
    }
  }

  lemma {:induction false} SortMakesModels(ms: seq<MakeEntry>)
    ensures ModelsOfMakes(SortBy(ms, ByMake)) == ModelsOfMakes(ms)
  {
    if ms != [] {
      SortMakesModels(ms[1..]);
      InsertModels(ms[0], SortBy(ms[1..], ByMake));
      ModelsOfMakesAppend([ms[0]], ms[1..]);
      assert ms == [ms[0]] + ms[1..];
      assert ModelsOfMakes([ms[0]]) == |ms[0].models| by {
        assert [ms[0]][..0] == [];
      }
    }
  }

  /** Each make with its models sorted by model name. */
  function SortModels(makes: seq<MakeEntry>): (r: seq<MakeEntry>)
    ensures |r| == |makes|
    ensures forall j :: 0 <= j < |makes| ==> r[j] == MakeEntry(makes[j].name, SortBy(makes[j].models, ByModel))
  {
    seq(|makes|, j requires 0 <= j < |makes| => MakeEntry(makes[j].name, SortBy(makes[j].models, ByModel)))
  }

  /**
   * One category of `sorted_cascade`: the makes in sorted key order (the keys
   * are distinct, so sorting the items is sorting the keys), each with its
   * models sorted by model name.
   */
  function SortedMakes(makes: seq<MakeEntry>): seq<MakeEntry> {
    SortBy(SortModels(makes), ByMake)
  }

  lemma {:induction false} SortModelsCount(makes: seq<MakeEntry>)
    ensures ModelsOfMakes(SortModels(makes)) == ModelsOfMakes(makes)
  {
    if makes != [] {
      var n := |makes| - 1;
      SortModelsCount(makes[..n]);
      assert SortModels(makes)[..n] == SortModels(makes[..n]);
      SortByFacts(makes[n].models, ByModel);
      assert |multiset(SortBy(makes[n].models, ByModel))| == |makes[n].models|;
    }
  }

  /** Every model of every make, read through `P`. */
  predicate EveryModel(makes: seq<MakeEntry>, P: ModelVariant -> bool) {
    forall j, k :: 0 <= j < |makes| && 0 <= k < |makes[j].models| ==> P(makes[j].models[k])
  }

  /** The sorted makes are in key order, and each make's models in model order. */
  lemma SortedMakesOrdered(makes: seq<MakeEntry>)
    ensures SortedBy(SortedMakes(makes), ByMake)
    ensures forall j :: 0 <= j < |SortedMakes(makes)| ==> SortedBy(SortedMakes(makes)[j].models, ByModel)
  {
    var sm := SortModels(makes);
    var r := SortedMakes(makes);
    SortByFacts(sm, ByMake);
    SortByMembers(sm, ByMake);
    forall j | 0 <= j < |r|
      ensures SortedBy(r[j].models, ByModel)
    {
      assert r[j] in sm;
      var i :| 0 <= i < |sm| && sm[i] == r[j];
      SortByFacts(makes[i].models, ByModel);
    }
  }

  /** Sorting neither drops nor duplicates a model entry. */
  lemma SortedMakesCount(makes: seq<MakeEntry>)
    ensures ModelsOfMakes(SortedMakes(makes)) == ModelsOfMakes(makes)
  {
    SortModelsCount(makes);
    SortMakesModels(SortModels(makes));
  }

  /** Whatever holds of every entry before sorting holds after. */
  lemma SortedMakesEvery(makes: seq<MakeEntry>, P: ModelVariant -> bool)
    requires EveryModel(makes, P)
    ensures EveryModel(SortedMakes(makes), P)
  {
    var sm := SortModels(makes);
    var r := SortedMakes(makes);
    SortByMembers(sm, ByMake);
    forall j, k | 0 <= j < |r| && 0 <= k < |r[j].models|
      ensures P(r[j].models[k])
    {
      assert r[j] in sm;
      var i :| 0 <= i < |sm| && sm[i] == r[j];
      SortByMembers(makes[i].models, ByModel);
      assert r[j].models[k] in makes[i].models;
    }
  }

  // ---------------------------------------------------------------------
  // Grouping: `cascade[category][make].append(entry)` on nested defaultdicts

  /** `makes[make].append(e)`: a make seen for the first time goes at the end. */
  function AddModel(makes: seq<MakeEntry>, make: string, e: ModelVariant): seq<MakeEntry> {
    if makes == [] then [MakeEntry(make, [e])]
    else if makes[0].name == make then [MakeEntry(make, makes[0].models + [e])] + makes[1..]
    else [makes[0]] + AddModel(makes[1..], make, e)
  }

  /** `cascade[p.category][p.make].append(p.entry)`. */
  function Add(cas: seq<CategoryEntry>, p: Placed): seq<CategoryEntry> {
    if cas == [] then [CategoryEntry(p.category, AddModel([], p.make, p.entry))]
    else if cas[0].name == p.category then [CategoryEntry(p.category, AddModel(cas[0].makes, p.make, p.entry))] + cas[1..]
    else [cas[0]] + Add(cas[1..], p)
  }

  /** Filing the placements one after the other. */
  function GroupAll(cas: seq<CategoryEntry>, ps: seq<Placed>): seq<CategoryEntry> {
    if ps == [] then cas else Add(GroupAll(cas, ps[..|ps| - 1]), ps[|ps| - 1])
  }

  /** The makes already filed under a category (an empty defaultdict when there are none). */
  function MakesUnder(cas: seq<CategoryEntry>, c: string): seq<MakeEntry> {
    if FindCategory(cas, c).Some? then FindCategory(cas, c).value else []
  }

  /** The number of model entries under a category. */
  function CatModels(cas: seq<CategoryEntry>, c: string): nat {
    ModelsOfMakes(MakesUnder(cas, c))
  }

  /** The number of placements under a category. */
  function CountIn(ps: seq<Placed>, c: string): nat {
    if ps == [] then 0
    else CountIn(ps[..|ps| - 1], c) + (if ps[|ps| - 1].category == c then 1 else 0)
  }

  lemma ModelsOfMakesCons(m: MakeEntry, rest: seq<MakeEntry>)
    ensures ModelsOfMakes([m] + rest) == |m.models| + ModelsOfMakes(rest)
  {
    ModelsOfMakesAppend([m], rest);
    assert [m][..0] == [];
  }

  lemma ModelsOfTableCons(e: CategoryEntry, rest: seq<CategoryEntry>)
    ensures ModelsOfTable([e] + rest) == ModelsOfMakes(e.makes) + ModelsOfTable(rest)
  {
    ModelsOfTableAppend([e], rest);
    assert [e][..0] == [];
  }

  /** Appending a model adds one to the count, and every entry still satisfies what they all did. */
  lemma {:induction false} AddModelFacts(makes: seq<MakeEntry>, make: string, e: ModelVariant, P: ModelVariant -> bool)
    ensures ModelsOfMakes(AddModel(makes, make, e)) == ModelsOfMakes(makes) + 1
    ensures EveryModel(makes, P) && P(e) ==> EveryModel(AddModel(makes, make, e), P)
  {
    if makes == [] {
      ModelsOfMakesCons(MakeEntry(make, [e]), []);
    } else if makes[0].name == make {
      var m := MakeEntry(make, makes[0].models + [e]);
      ModelsOfMakesCons(m, makes[1..]);
      ModelsOfMakesCons(makes[0], makes[1..]);
      assert makes == [makes[0]] + makes[1..];
      if EveryModel(makes, P) && P(e) {
        var r := AddModel(makes, make, e);
        forall j, k | 0 <= j < |r| && 0 <= k < |r[j].models|
          ensures P(r[j].models[k])
        {
          if j > 0 {
            assert r[j] == makes[j];
          } else if k < |makes[0].models| {
            assert r[0].models[k] == makes[0].models[k];
          }
        }
      }
    } else {
      var t := AddModel(makes[1..], make, e);
      AddModelFacts(makes[1..], make, e, P);
      ModelsOfMakesCons(makes[0], t);
      ModelsOfMakesCons(makes[0], makes[1..]);
      assert makes == [makes[0]] + makes[1..];
      if EveryModel(makes, P) && P(e) {
        assert EveryModel(makes[1..], P) by {
          forall j, k | 0 <= j < |makes[1..]| && 0 <= k < |makes[1..][j].models|
            ensures P(makes[1..][j].models[k])
          {
            assert makes[1..][j] == makes[j + 1];
          }
        }
        var r := AddModel(makes, make, e);
        forall j, k | 0 <= j < |r| && 0 <= k < |r[j].models|
          ensures P(r[j].models[k])
        {
          if j > 0 {
            assert r[j] == t[j - 1];
          }
        }
      }
    }
  }

  /** Filing a placement changes only its own category, and there by appending the entry under its make. */
  lemma {:induction false} AddFind(cas: seq<CategoryEntry>, p: Placed, c: string)
    ensures FindCategory(Add(cas, p), c) ==
              if c == p.category then Some(AddModel(MakesUnder(cas, c), p.make, p.entry))
              else FindCategory(cas, c)
  {
    if cas != [] && cas[0].name != p.category {
      AddFind(cas[1..], p, c);
    }
  }

  /** Every entry of the table satisfies `P`. */
  predicate EveryEntry(data: seq<CategoryEntry>, P: ModelVariant -> bool) {
    forall i :: 0 <= i < |data| ==> EveryModel(data[i].makes, P)
  }

  lemma {:induction false} AddCount(cas: seq<CategoryEntry>, p: Placed)
    ensures ModelsOfTable(Add(cas, p)) == ModelsOfTable(cas) + 1
  {
    var r := Add(cas, p);
    if cas == [] {
      AddModelFacts([], p.make, p.entry, e => true);
      ModelsOfTableCons(r[0], []);
    } else if cas[0].name == p.category {
      AddModelFacts(cas[0].makes, p.make, p.entry, e => true);
      ModelsOfTableCons(r[0], cas[1..]);
      ModelsOfTableCons(cas[0], cas[1..]);
      assert cas == [cas[0]] + cas[1..];
    } else {
      AddCount(cas[1..], p);
      ModelsOfTableCons(cas[0], Add(cas[1..], p));
      ModelsOfTableCons(cas[0], cas[1..]);
      assert cas == [cas[0]] + cas[1..];
    }
  }

  /** Filing keeps the keys distinct and adds no key but the placement's own. */
  lemma {:induction false} AddKeys(cas: seq<CategoryEntry>, p: Placed)
    ensures DistinctCategoryKeys(cas) ==> DistinctCategoryKeys(Add(cas, p))
    ensures forall i :: 0 <= i < |Add(cas, p)| ==>
              Add(cas, p)[i].name == p.category || exists j :: 0 <= j < |cas| && cas[j].name == Add(cas, p)[i].name
  {
    var r := Add(cas, p);
    if cas == [] {
    } else if cas[0].name == p.category {
      assert forall i :: 1 <= i < |r| ==> r[i] == cas[i];
    } else {
      var t := Add(cas[1..], p);
      AddKeys(cas[1..], p);
      assert forall i :: 1 <= i < |r| ==> r[i] == t[i - 1];
      assert forall j :: 0 <= j < |cas[1..]| ==> cas[1..][j] == cas[j + 1];
    }
  }

  lemma {:induction false} AddEvery(cas: seq<CategoryEntry>, p: Placed, P: ModelVariant -> bool)
    requires EveryEntry(cas, P) && P(p.entry)
    ensures EveryEntry(Add(cas, p), P)
  {
    var r := Add(cas, p);
    if cas == [] {
      AddModelFacts([], p.make, p.entry, P);
    } else if cas[0].name == p.category {
      AddModelFacts(cas[0].makes, p.make, p.entry, P);
      assert forall i :: 1 <= i < |r| ==> r[i] == cas[i];
    } else {
      var t := Add(cas[1..], p);
      assert forall j :: 0 <= j < |cas[1..]| ==> cas[1..][j] == cas[j + 1];
      AddEvery(cas[1..], p, P);
      assert forall i :: 1 <= i < |r| ==> r[i] == t[i - 1];
    }
  }

  /** What filing a list of placements does to the table, by category. */
  lemma {:induction false} GroupFacts(cas: seq<CategoryEntry>, ps: seq<Placed>, P: ModelVariant -> bool)
    ensures ModelsOfTable(GroupAll(cas, ps)) == ModelsOfTable(cas) + |ps|
    ensures DistinctCategoryKeys(cas) ==> DistinctCategoryKeys(GroupAll(cas, ps))
    ensures (EveryEntry(cas, P) && forall i :: 0 <= i < |ps| ==> P(ps[i].entry)) ==> EveryEntry(GroupAll(cas, ps), P)
  {
    if ps != [] {
      var n := |ps| - 1;
      GroupFacts(cas, ps[..n], P);
      AddCount(GroupAll(cas, ps[..n]), ps[n]);
      AddKeys(GroupAll(cas, ps[..n]), ps[n]);
      if EveryEntry(cas, P) && forall i :: 0 <= i < |ps| ==> P(ps[i].entry) {
        assert forall i :: 0 <= i < n ==> ps[..n][i] == ps[i];
        AddEvery(GroupAll(cas, ps[..n]), ps[n], P);
      }
    }
  }

  /** Filing adds no key that no placement names. */
  lemma {:induction false} GroupNamesIn(cas: seq<CategoryEntry>, ps: seq<Placed>, names: seq<string>)
    requires forall i :: 0 <= i < |cas| ==> cas[i].name in names
    requires forall j :: 0 <= j < |ps| ==> ps[j].category in names
    ensures forall i :: 0 <= i < |GroupAll(cas, ps)| ==> GroupAll(cas, ps)[i].name in names
  {
    if ps != [] {
      var n := |ps| - 1;
      assert forall j :: 0 <= j < n ==> ps[..n][j] == ps[j];
      GroupNamesIn(cas, ps[..n], names);
      AddKeys(GroupAll(cas, ps[..n]), ps[n]);
    }
  }

  /** A category is present after filing iff it was before or some placement names it, with its count. */
  lemma {:induction false} GroupFind(cas: seq<CategoryEntry>, ps: seq<Placed>, c: string)
    ensures FindCategory(GroupAll(cas, ps), c).Some? <==>
              FindCategory(cas, c).Some? || exists i :: 0 <= i < |ps| && ps[i].category == c
    ensures CatModels(GroupAll(cas, ps), c) == CatModels(cas, c) + CountIn(ps, c)
  {
    if ps != [] {
      var n := |ps| - 1;
      var g := GroupAll(cas, ps[..n]);
      GroupFind(cas, ps[..n], c);
      AddFind(g, ps[n], c);
      if ps[n].category == c {
        AddModelFacts(MakesUnder(g, c), ps[n].make, ps[n].entry, e => true);
      }
      if exists i :: 0 <= i < |ps| && ps[i].category == c {
        var i :| 0 <= i < |ps| && ps[i].category == c;
        if i < n {
          assert ps[..n][i] == ps[i];
        }
      }
      if exists i :: 0 <= i < n && ps[..n][i].category == c {
        var i :| 0 <= i < n && ps[..n][i].category == c;
        assert ps[i] == ps[..n][i];
      }
    }
  }

  /** What every placement under `c` satisfies, every entry filed under `c` satisfies. */
  lemma {:induction false} GroupUnder(cas: seq<CategoryEntry>, ps: seq<Placed>, c: string, P: ModelVariant -> bool)
    requires EveryModel(MakesUnder(cas, c), P)
    requires forall i :: 0 <= i < |ps| && ps[i].category == c ==> P(ps[i].entry)
    ensures EveryModel(MakesUnder(GroupAll(cas, ps), c), P)
  {
    if ps != [] {
      var n := |ps| - 1;
      var g := GroupAll(cas, ps[..n]);
      assert forall i :: 0 <= i < n ==> ps[..n][i] == ps[i];
      GroupUnder(cas, ps[..n], c, P);
      AddFind(g, ps[n], c);
      if ps[n].category == c {
        AddModelFacts(MakesUnder(g, c), ps[n].make, ps[n].entry, P);
      }
    }
  }

  // ---------------------------------------------------------------------
  // From records to placements

  /** The records `build` files, in order, `place` saying where each goes (`None`: skipped). */
  function Placements<R>(rs: seq<R>, place: R -> Option<Placed>): seq<Placed> {
    if rs == [] then []
    else
      var last := place(rs[|rs| - 1]);
      Placements(rs[..|rs| - 1], place) + (if last.Some? then [last.value] else [])
  }

  /** `skipped`: the records `place` files nowhere. */
  function Unplaced<R>(rs: seq<R>, place: R -> Option<Placed>): nat {
    if rs == [] then 0
    else Unplaced(rs[..|rs| - 1], place) + (if place(rs[|rs| - 1]).None? then 1 else 0)
  }

  /** The records `build` files without exception (the motorcycles), in order. */
  function Mapped<R>(rs: seq<R>, place: R -> Placed): (r: seq<Placed>)
    ensures |r| == |rs| && forall i :: 0 <= i < |rs| ==> r[i] == place(rs[i])
  {
    seq(|rs|, i requires 0 <= i < |rs| => place(rs[i]))
  }

  /** Every record is either filed or skipped, each filed one comes from a record, and every placement is kept. */
  lemma {:induction false} PlacementsFacts<R>(rs: seq<R>, place: R -> Option<Placed>)
    ensures |Placements(rs, place)| + Unplaced(rs, place) == |rs|
    ensures forall i :: 0 <= i < |Placements(rs, place)| ==>
              exists j :: 0 <= j < |rs| && place(rs[j]) == Some(Placements(rs, place)[i])
    ensures forall j :: 0 <= j < |rs| && place(rs[j]).Some? ==> place(rs[j]).value in Placements(rs, place)
  {
    if rs != [] {
      var n := |rs| - 1;
      var q := Placements(rs[..n], place);
      PlacementsFacts(rs[..n], place);
      var r := Placements(rs, place);
      assert forall j :: 0 <= j < n ==> rs[..n][j] == rs[j];
      forall i | 0 <= i < |r|
        ensures exists j :: 0 <= j < |rs| && place(rs[j]) == Some(r[i])
      {
        if i < |q| {
          assert r[i] == q[i];
          var j :| 0 <= j < n && place(rs[..n][j]) == Some(q[i]);
          assert place(rs[j]) == Some(r[i]);
        } else {
          assert place(rs[n]) == Some(r[i]);
        }
      }
      forall j | 0 <= j < |rs| && place(rs[j]).Some?
        ensures place(rs[j]).value in r
      {
        if j < n {
          assert place(rs[..n][j]).value in q;
        }
      }
    }
  }

  /** No vehicle goes under "Motorcycle", and every vehicle filed satisfies the entry rules. */
  lemma VehiclePlacementsShape(vs: seq<VehicleRecord>)
    ensures forall i :: 0 <= i < |Placements(vs, VehiclePlacement)| ==>
              Placements(vs, VehiclePlacement)[i].category != Motorcycle
              && Placements(vs, VehiclePlacement)[i].category in CategoryOrder
              && WellFormedEntry(Placements(vs, VehiclePlacement)[i].entry)
    ensures CountIn(Placements(vs, VehiclePlacement), Motorcycle) == 0
  {
    var r := Placements(vs, VehiclePlacement);
    PlacementsFacts(vs, VehiclePlacement);
    forall i | 0 <= i < |r|
      ensures r[i].category != Motorcycle && r[i].category in CategoryOrder && WellFormedEntry(r[i].entry)
    {
      var j :| 0 <= j < |vs| && VehiclePlacement(vs[j]) == Some(r[i]);
      VehiclePlacementFacts(vs[j]);
    }
    NoneCounted(r, Motorcycle);
  }

  lemma {:induction false} NoneCounted(ps: seq<Placed>, c: string)
    requires forall i :: 0 <= i < |ps| ==> ps[i].category != c
    ensures CountIn(ps, c) == 0
  {
    if ps != [] {
      var n := |ps| - 1;
      assert forall i :: 0 <= i < n ==> ps[..n][i] == ps[i];
      NoneCounted(ps[..n], c);
    }
  }

  lemma {:induction false} AllCounted(ps: seq<Placed>, c: string)
    requires forall i :: 0 <= i < |ps| ==> ps[i].category == c
    ensures CountIn(ps, c) == |ps|
  {
    if ps != [] {
      var n := |ps| - 1;
      assert forall i :: 0 <= i < n ==> ps[..n][i] == ps[i];
      AllCounted(ps[..n], c);
    }
  }

  lemma {:induction false} CountInAppend(a: seq<Placed>, b: seq<Placed>, c: string)
    ensures CountIn(a + b, c) == CountIn(a, c) + CountIn(b, c)
  {
    if b == [] {
      assert a + b == a;
    } else {
      CountInAppend(a, b[..|b| - 1], c);
      assert (a + b)[..|a + b| - 1] == a + b[..|b| - 1];
    }
  }

  /** A category gets a record exactly when `place` files some record there. */
  lemma PlacedCategories<R>(rs: seq<R>, place: R -> Option<Placed>, c: string)
    ensures (exists i :: 0 <= i < |Placements(rs, place)| && Placements(rs, place)[i].category == c) <==>
              exists j :: 0 <= j < |rs| && place(rs[j]).Some? && place(rs[j]).value.category == c
  {
    var r := Placements(rs, place);
    PlacementsFacts(rs, place);
    if exists j :: 0 <= j < |rs| && place(rs[j]).Some? && place(rs[j]).value.category == c {
      var j :| 0 <= j < |rs| && place(rs[j]).Some? && place(rs[j]).value.category == c;
      assert place(rs[j]).value in r;
    }
  }

  // ---------------------------------------------------------------------
  // The output: `sorted_cascade` and `categories`

  /** `sorted_cascade`: the categories of `cas` taken in `order`, each with its makes and models sorted. */
  function SortedData(order: seq<string>, cas: seq<CategoryEntry>): seq<CategoryEntry> {
    if order == [] then []
    else
      var c := order[|order| - 1];
      SortedData(order[..|order| - 1], cas)
        + (if FindCategory(cas, c).Some? then [CategoryEntry(c, SortedMakes(FindCategory(cas, c).value))] else [])
  }

  /** `[c for c in order if c in data]`. */
  function Listed(order: seq<string>, data: seq<CategoryEntry>): seq<string> {
    if order == [] then []
    else
      var c := order[|order| - 1];
      Listed(order[..|order| - 1], data) + (if FindCategory(data, c).Some? then [c] else [])
  }

  /** The keys of `data`, in order. */
  function Names(data: seq<CategoryEntry>): seq<string> {
    seq(|data|, i requires 0 <= i < |data| => data[i].name)
  }

  /** `out`: the ordered category list and the sorted data. */
  function Output(cas: seq<CategoryEntry>): Table {
    var data := SortedData(CategoryOrder, cas);
    Table(Listed(CategoryOrder, data), data)
  }

  /** Everything `build` files: the vehicles with a category, then every motorcycle. */
  function AllPlacements(vs: seq<VehicleRecord>, ms: seq<BikeRecord>): seq<Placed> {
    Placements(vs, VehiclePlacement) + Mapped(ms, BikePlacement)
  }

  /** The cascade `build` files both record lists into. */
  function Grouped(vs: seq<VehicleRecord>, ms: seq<BikeRecord>): seq<CategoryEntry> {
    GroupAll([], AllPlacements(vs, ms))
  }

  /** Per-category sums of model counts over `order`. */
  function OrderSum(order: seq<string>, cas: seq<CategoryEntry>): nat {
    if order == [] then 0
    else OrderSum(order[..|order| - 1], cas) + CatModels(cas, order[|order| - 1])
  }

  lemma {:induction false} DistinctPrefix(names: seq<string>, n: nat)
    requires DistinctNames(names) && n <= |names|
    ensures DistinctNames(names[..n])
    ensures n < |names| ==> names[n] !in names[..n]
  {
  }

  /** With distinct order names, a sorted category is found iff it is in the order and in `cas`. */
  lemma {:induction false} SortedDataFind(order: seq<string>, cas: seq<CategoryEntry>, c: string)
    requires DistinctNames(order)
    ensures FindCategory(SortedData(order, cas), c) ==
              if c in order && FindCategory(cas, c).Some? then Some(SortedMakes(FindCategory(cas, c).value)) else None
  {
    if order != [] {
      var n := |order| - 1;
      var d := order[n];
      DistinctPrefix(order, n);
      SortedDataFind(order[..n], cas, c);
      assert order == order[..n] + [d];
      var q := SortedData(order[..n], cas);
      if FindCategory(cas, d).Some? {
        var e := CategoryEntry(d, SortedMakes(FindCategory(cas, d).value));
        FindCategorySnoc(q, e, c);
        if c == d {
          assert FindCategory(SortedData(order, cas), c) == Some(e.makes);
        } else {
          assert c in order <==> c in order[..n];
        }
      } else {
        assert q + [] == q;
        assert c in order <==> c in order[..n] || c == d;
      }
    }
  }

  /** Each sorted category is a category of `cas` named in the order, its makes sorted. */
  lemma {:induction false} SortedDataEntries(order: seq<string>, cas: seq<CategoryEntry>)
    ensures forall i :: 0 <= i < |SortedData(order, cas)| ==>
              var e := SortedData(order, cas)[i];
              e.name in order && FindCategory(cas, e.name).Some? && e.makes == SortedMakes(FindCategory(cas, e.name).value)
  {
    if order != [] {
      var n := |order| - 1;
      SortedDataEntries(order[..n], cas);
      var q := SortedData(order[..n], cas);
      var r := SortedData(order, cas);
      forall i | 0 <= i < |r|
        ensures r[i].name in order && FindCategory(cas, r[i].name).Some?
                && r[i].makes == SortedMakes(FindCategory(cas, r[i].name).value)
      {
        if i < |q| {
          assert r[i] == q[i];
          assert q[i].name in order[..n];
        }
      }
    }
  }

  lemma {:induction false} SortedDataDistinct(order: seq<string>, cas: seq<CategoryEntry>)
    requires DistinctNames(order)
    ensures DistinctCategoryKeys(SortedData(order, cas))
  {
    if order != [] {
      var n := |order| - 1;
      DistinctPrefix(order, n);
      SortedDataDistinct(order[..n], cas);
      SortedDataEntries(order[..n], cas);
    }
  }

  /** The listed names are the keys of the sorted data. */
  lemma {:induction false} ListedNames(order: seq<string>, cas: seq<CategoryEntry>)
    ensures Listed(order, cas) == Names(SortedData(order, cas))
  {
    if order != [] {
      var n := |order| - 1;
      ListedNames(order[..n], cas);
      var q := SortedData(order[..n], cas);
      if FindCategory(cas, order[n]).Some? {
        var e := CategoryEntry(order[n], SortedMakes(FindCategory(cas, order[n]).value));
        assert Names(q + [e]) == Names(q) + [e.name];
      }
    }
  }

  /** `Listed` depends only on which names of the order are present. */
  lemma {:induction false} ListedSame(order: seq<string>, a: seq<CategoryEntry>, b: seq<CategoryEntry>)
    requires forall k :: 0 <= k < |order| ==> (FindCategory(a, order[k]).Some? <==> FindCategory(b, order[k]).Some?)
    ensures Listed(order, a) == Listed(order, b)
  {
    if order != [] {
      var n := |order| - 1;
      assert forall k :: 0 <= k < n ==> order[..n][k] == order[k];
      ListedSame(order[..n], a, b);
    }
  }

  lemma {:induction false} ListedMembers(order: seq<string>, data: seq<CategoryEntry>, c: string)
    ensures c in Listed(order, data) <==> c in order && FindCategory(data, c).Some?
  {
    if order != [] {
      var n := |order| - 1;
      ListedMembers(order[..n], data, c);
      assert order == order[..n] + [order[n]];
    }
  }

  /** The sorted data holds as many model entries as the categories of the order hold in `cas`. */
  lemma {:induction false} SortedDataCount(order: seq<string>, cas: seq<CategoryEntry>)
    ensures ModelsOfTable(SortedData(order, cas)) == OrderSum(order, cas)
  {
    if order != [] {
      var n := |order| - 1;
      var c := order[n];
      SortedDataCount(order[..n], cas);
      var q := SortedData(order[..n], cas);
      if FindCategory(cas, c).Some? {
        SortedMakesCount(FindCategory(cas, c).value);
        var e := CategoryEntry(c, SortedMakes(FindCategory(cas, c).value));
        assert (q + [e])[..|q + [e]| - 1] == q;
      } else {
        assert q + [] == q;
      }
    }
  }

  lemma {:induction false} OrderSumEmpty(order: seq<string>)
    ensures OrderSum(order, []) == 0
  {
    if order != [] {
      OrderSumEmpty(order[..|order| - 1]);
    }
  }

  /** One more category at the end of `cas` adds its count once if the order names it, otherwise nothing. */
  lemma {:induction false} OrderSumSnoc(order: seq<string>, cas: seq<CategoryEntry>, e: CategoryEntry)
    requires DistinctNames(order) && FindCategory(cas, e.name).None?
    ensures OrderSum(order, cas + [e]) == OrderSum(order, cas) + (if e.name in order then ModelsOfMakes(e.makes) else 0)
  {
    if order != [] {
      var n := |order| - 1;
      var c := order[n];
      DistinctPrefix(order, n);
      OrderSumSnoc(order[..n], cas, e);
      FindCategorySnoc(cas, e, c);
      assert order == order[..n] + [c];
    }
  }

  /** When every category of `cas` is named once in the order, the order's sums cover the whole table. */
  lemma {:induction false} OrderSumCovers(order: seq<string>, cas: seq<CategoryEntry>)
    requires DistinctNames(order) && DistinctCategoryKeys(cas)
    requires forall i :: 0 <= i < |cas| ==> cas[i].name in order
    ensures OrderSum(order, cas) == ModelsOfTable(cas)
  {
    if cas == [] {
      OrderSumEmpty(order);
    } else {
      var n := |cas| - 1;
      var q := cas[..n];
      assert forall i :: 0 <= i < n ==> q[i] == cas[i];
      OrderSumCovers(order, q);
      FindCategorySpec(q, cas[n].name);
      assert cas == q + [cas[n]];
      OrderSumSnoc(order, q, cas[n]);
    }
  }

  /** `SortedData` under one category of the order: that category's makes, sorted. */
  lemma SortedDataUnder(order: seq<string>, cas: seq<CategoryEntry>, c: string)
    requires DistinctNames(order) && c in order
    ensures MakesUnder(SortedData(order, cas), c) == SortedMakes(MakesUnder(cas, c))
  {
    SortedDataFind(order, cas, c);
  }

  // ---------------------------------------------------------------------
  // build()

  /** One turn of the vehicle loop: file the record where `place` says, or count it as skipped. */
  method FileRecord<R>(cascade: seq<CategoryEntry>, skipped: nat, rs: seq<R>, place: R -> Option<Placed>, i: nat)
    returns (cascade': seq<CategoryEntry>, skipped': nat)
    requires i < |rs|
    requires cascade == GroupAll([], Placements(rs[..i], place))
    requires skipped == Unplaced(rs[..i], place)
    ensures cascade' == GroupAll([], Placements(rs[..i + 1], place))
    ensures skipped' == Unplaced(rs[..i + 1], place)
  {
    var prefix := rs[..i + 1];
    assert prefix[..i] == rs[..i];
    var ps := Placements(rs[..i], place);
    match place(rs[i]) {
      case None =>
        assert Placements(prefix, place) == ps + [];
        assert ps + [] == ps;
        cascade', skipped' := cascade, skipped + 1;
      case Some(p) =>
        assert Placements(prefix, place) == ps + [p];
        assert (ps + [p])[..|ps|] == ps;
        cascade', skipped' := Add(cascade, p), skipped;
    }
  }

  /** One turn of the motorcycle loop: file the record where `place` says, after the placements `before`. */
  method FileMapped<R>(cascade: seq<CategoryEntry>, before: seq<Placed>, rs: seq<R>, place: R -> Placed, k: nat)
    returns (cascade': seq<CategoryEntry>)
    requires k < |rs|
    requires cascade == GroupAll([], before + Mapped(rs[..k], place))
    ensures cascade' == GroupAll([], before + Mapped(rs[..k + 1], place))
  {
    var ps := before + Mapped(rs[..k], place);
    var p := place(rs[k]);
    assert before + Mapped(rs[..k + 1], place) == ps + [p];
    assert (ps + [p])[..|ps|] == ps;
    cascade' := Add(cascade, p);
  }

  /** The last loop: the categories of the display order that the cascade has, each with its makes sorted. */
  method SortCascade(cascade: seq<CategoryEntry>) returns (sorted: seq<CategoryEntry>)
    ensures sorted == SortedData(CategoryOrder, cascade)
  {
    sorted := [];
    var j := 0;
    while j < |CategoryOrder|
      invariant 0 <= j <= |CategoryOrder|
      invariant sorted == SortedData(CategoryOrder[..j], cascade)
    {
      var cat := CategoryOrder[j];
      assert CategoryOrder[..j + 1][..j] == CategoryOrder[..j];
      var found := FindCategory(cascade, cat);
      if found.Some? {
        sorted := sorted + [CategoryEntry(cat, SortedMakes(found.value))];
      }
      j := j + 1;
    }
    assert CategoryOrder[..j] == CategoryOrder;
  }

  /**
   * `build()`: file every vehicle whose body type has a category and count the
   * rest, file every motorcycle under "Motorcycle", then take the categories in
   * display order with their makes and models sorted.
   */
  method Build(vehicles: seq<VehicleRecord>, motorcycles: seq<BikeRecord>) returns (out: Table, skipped: nat)
    ensures out == Output(Grouped(vehicles, motorcycles))
    ensures skipped == Unplaced(vehicles, VehiclePlacement)
  {
    var cascade: seq<CategoryEntry> := [];
    skipped := 0;
    var i := 0;
    while i < |vehicles|
      invariant 0 <= i <= |vehicles|
      invariant cascade == GroupAll([], Placements(vehicles[..i], VehiclePlacement))
      invariant skipped == Unplaced(vehicles[..i], VehiclePlacement)
    {
      cascade, skipped := FileRecord(cascade, skipped, vehicles, VehiclePlacement, i);
      i := i + 1;
    }
    assert vehicles[..i] == vehicles;
    var vps := Placements(vehicles, VehiclePlacement);
    assert vps + Mapped(motorcycles[..0], BikePlacement) == vps;
    var k := 0;
    while k < |motorcycles|
      invariant 0 <= k <= |motorcycles|
      invariant cascade == GroupAll([], vps + Mapped(motorcycles[..k], BikePlacement))
    {
      cascade := FileMapped(cascade, vps, motorcycles, BikePlacement, k);
      k := k + 1;
    }
    assert motorcycles[..k] == motorcycles;
    var sorted := SortCascade(cascade);
    out := Table(Listed(CategoryOrder, sorted), sorted);
  }

  // ---------------------------------------------------------------------
  // What `build()` promises of its output

  /** Whatever the cascade, the output data is sorted: makes by name, each make's models by model name. */
  lemma OutputSorted(cas: seq<CategoryEntry>)
    ensures forall i :: 0 <= i < |Output(cas).data| ==> SortedBy(Output(cas).data[i].makes, ByMake)
    ensures forall i, j :: 0 <= i < |Output(cas).data| && 0 <= j < |Output(cas).data[i].makes| ==>
              SortedBy(Output(cas).data[i].makes[j].models, ByModel)
  {
    var d := Output(cas).data;
    SortedDataEntries(CategoryOrder, cas);
    forall i | 0 <= i < |d|
      ensures SortedBy(d[i].makes, ByMake)
      ensures forall j :: 0 <= j < |d[i].makes| ==> SortedBy(d[i].makes[j].models, ByModel)
    {
      SortedMakesOrdered(FindCategory(cas, d[i].name).value);
    }
  }

  /**
   * Whatever the cascade, `categories` is the display order filtered to the
   * categories the cascade has, and it is exactly the list of keys of `data`
   * (distinct, each one found).
   */
  lemma OutputCategories(cas: seq<CategoryEntry>)
    ensures Output(cas).categories == Listed(CategoryOrder, cas)
    ensures Output(cas).categories == Names(Output(cas).data)
    ensures DistinctCategoryKeys(Output(cas).data) && Coherent(Output(cas))
  {
    var out := Output(cas);
    CategoryOrderDistinct();
    SortedDataDistinct(CategoryOrder, cas);
    forall k | 0 <= k < |CategoryOrder|
      ensures FindCategory(out.data, CategoryOrder[k]).Some? <==> FindCategory(cas, CategoryOrder[k]).Some?
    {
      SortedDataFind(CategoryOrder, cas, CategoryOrder[k]);
    }
    ListedSame(CategoryOrder, out.data, cas);
    ListedNames(CategoryOrder, cas);
    forall c | c in out.categories
      ensures FindCategory(out.data, c).Some?
    {
      ListedMembers(CategoryOrder, out.data, c);
    }
  }

  /** Whatever holds of every entry of the cascade holds of every entry of the output. */
  lemma OutputEvery(cas: seq<CategoryEntry>, P: ModelVariant -> bool)
    requires EveryEntry(cas, P)
    ensures EveryEntry(Output(cas).data, P)
  {
    var d := Output(cas).data;
    SortedDataEntries(CategoryOrder, cas);
    forall i | 0 <= i < |d|
      ensures EveryModel(d[i].makes, P)
    {
      FindCategorySpec(cas, d[i].name);
      SortedMakesEvery(FindCategory(cas, d[i].name).value, P);
    }
  }

  /** The placements of both lists: each has a category of the display order and a well-formed entry. */
  lemma AllPlacementsShape(vs: seq<VehicleRecord>, ms: seq<BikeRecord>)
    ensures forall i :: 0 <= i < |AllPlacements(vs, ms)| ==>
              AllPlacements(vs, ms)[i].category in CategoryOrder && WellFormedEntry(AllPlacements(vs, ms)[i].entry)
  {
    var vps := Placements(vs, VehiclePlacement);
    var ps := AllPlacements(vs, ms);
    VehiclePlacementsShape(vs);
    CategoryOrderDistinct();
    forall i | 0 <= i < |ps|
      ensures ps[i].category in CategoryOrder && WellFormedEntry(ps[i].entry)
    {
      if i < |vps| {
        assert ps[i] == vps[i];
      } else {
        BikePlacementFacts(ms[i - |vps|]);
      }
    }
  }

  /** Filing placements that all name categories of `names` and satisfy `P`. */
  lemma GroupShape(ps: seq<Placed>, names: seq<string>, P: ModelVariant -> bool)
    requires forall i :: 0 <= i < |ps| ==> ps[i].category in names && P(ps[i].entry)
    ensures DistinctCategoryKeys(GroupAll([], ps))
    ensures forall i :: 0 <= i < |GroupAll([], ps)| ==> GroupAll([], ps)[i].name in names
    ensures ModelsOfTable(GroupAll([], ps)) == |ps|
    ensures EveryEntry(GroupAll([], ps), P)
  {
    GroupFacts([], ps, P);
    GroupNamesIn([], ps, names);
  }

  /** The cascade `build` fills: distinct keys, all of the display order, every entry well formed. */
  lemma GroupedShape(vs: seq<VehicleRecord>, ms: seq<BikeRecord>)
    ensures DistinctCategoryKeys(Grouped(vs, ms))
    ensures forall i :: 0 <= i < |Grouped(vs, ms)| ==> Grouped(vs, ms)[i].name in CategoryOrder
    ensures ModelsOfTable(Grouped(vs, ms)) == |AllPlacements(vs, ms)|
    ensures EveryEntry(Grouped(vs, ms), WellFormedEntry)
  {
    AllPlacementsShape(vs, ms);
    GroupShape(AllPlacements(vs, ms), CategoryOrder, WellFormedEntry);
  }

  /** Every record is accounted for: the model entries of the output plus `skipped` are all the records. */
  lemma BuildCount(vs: seq<VehicleRecord>, ms: seq<BikeRecord>)
    ensures ModelsOfTable(Output(Grouped(vs, ms)).data) + Unplaced(vs, VehiclePlacement) == |vs| + |ms|
  {
    var g := Grouped(vs, ms);
    GroupedShape(vs, ms);
    PlacementsFacts(vs, VehiclePlacement);
    assert |AllPlacements(vs, ms)| == |Placements(vs, VehiclePlacement)| + |ms|;
    CategoryOrderDistinct();
    SortedDataCount(CategoryOrder, g);
    OrderSumCovers(CategoryOrder, g);
  }

  /** Every entry of the output obeys the entry rules. */
  lemma BuildEntries(vs: seq<VehicleRecord>, ms: seq<BikeRecord>)
    ensures EveryEntry(Output(Grouped(vs, ms)).data, WellFormedEntry)
  {
    GroupedShape(vs, ms);
    OutputEvery(Grouped(vs, ms), WellFormedEntry);
  }

  /** Some placement names category `c`. */
  predicate Files(ps: seq<Placed>, c: string) {
    exists i :: 0 <= i < |ps| && ps[i].category == c
  }

  lemma FilesAppend(a: seq<Placed>, b: seq<Placed>, c: string)
    ensures Files(a + b, c) <==> Files(a, c) || Files(b, c)
  {
    if Files(a + b, c) {
      var i :| 0 <= i < |a + b| && (a + b)[i].category == c;
      if i >= |a| {
        assert b[i - |a|] == (a + b)[i];
      }
    }
    if Files(a, c) {
      var i :| 0 <= i < |a| && a[i].category == c;
      assert (a + b)[i] == a[i];
    }
    if Files(b, c) {
      var i :| 0 <= i < |b| && b[i].category == c;
      assert (a + b)[|a| + i] == b[i];
    }
  }

  /** Some record is filed under `c` exactly when `key` names `c` for some record, if the two agree record by record. */
  lemma FiledBy<R>(rs: seq<R>, place: R -> Option<Placed>, key: R -> Option<string>, c: string)
    requires forall j :: 0 <= j < |rs| ==> ((place(rs[j]).Some? && place(rs[j]).value.category == c) <==> key(rs[j]) == Some(c))
    ensures Files(Placements(rs, place), c) <==> exists j :: 0 <= j < |rs| && key(rs[j]) == Some(c)
  {
    PlacedCategories(rs, place, c);
  }

  lemma VehicleFiledUnder(v: VehicleRecord, c: string)
    ensures (VehiclePlacement(v).Some? && VehiclePlacement(v).value.category == c) <==> CategoryOf(Body(v)) == Some(c)
  {
    VehiclePlacementFacts(v);
  }

  /** A vehicle is filed under `c` exactly when some vehicle's stripped body type maps to `c`. */
  lemma VehiclesFiled(vs: seq<VehicleRecord>, c: string)
    ensures Files(Placements(vs, VehiclePlacement), c) <==> exists j :: 0 <= j < |vs| && CategoryOf(Body(vs[j])) == Some(c)
  {
    var key := (v: VehicleRecord) => CategoryOf(Body(v));
    forall j | 0 <= j < |vs|
      ensures (VehiclePlacement(vs[j]).Some? && VehiclePlacement(vs[j]).value.category == c) <==> key(vs[j]) == Some(c)
    {
      VehicleFiledUnder(vs[j], c);
    }
    FiledBy(vs, VehiclePlacement, key, c);
  }

  lemma BikesFiled(ms: seq<BikeRecord>, c: string)
    ensures Files(Mapped(ms, BikePlacement), c) <==> c == Motorcycle && ms != []
  {
    var bps := Mapped(ms, BikePlacement);
    if Files(bps, c) {
      var i :| 0 <= i < |bps| && bps[i].category == c;
      BikePlacementFacts(ms[i]);
    }
    if ms != [] {
      BikePlacementFacts(ms[0]);
    }
  }

  /**
   * A category is listed exactly when it is "Motorcycle" and there are
   * motorcycles, or some vehicle's stripped body type maps to it.
   */
  lemma BuildListed(vs: seq<VehicleRecord>, ms: seq<BikeRecord>, c: string)
    ensures c in Output(Grouped(vs, ms)).categories <==>
              (c == Motorcycle && ms != []) || exists j :: 0 <= j < |vs| && CategoryOf(Body(vs[j])) == Some(c)
  {
    var vps := Placements(vs, VehiclePlacement);
    var bps := Mapped(ms, BikePlacement);
    var g := Grouped(vs, ms);
    OutputCategories(g);
    ListedMembers(CategoryOrder, g, c);
    GroupFind([], AllPlacements(vs, ms), c);
    assert FindCategory(g, c).Some? <==> Files(vps + bps, c);
    FilesAppend(vps, bps, c);
    VehiclesFiled(vs, c);
    VehiclePlacementsShape(vs);
    BikesFiled(ms, c);
    CategoryOrderDistinct();
  }

  /** Every motorcycle is under "Motorcycle", nothing else is, and no entry there has `mn` or `tx`. */
  lemma BuildMotorcycles(vs: seq<VehicleRecord>, ms: seq<BikeRecord>)
    ensures CatModels(Output(Grouped(vs, ms)).data, Motorcycle) == |ms|
    ensures EveryModel(MakesUnder(Output(Grouped(vs, ms)).data, Motorcycle), BikeShaped)
  {
    var vps := Placements(vs, VehiclePlacement);
    var bps := Mapped(ms, BikePlacement);
    var ps := vps + bps;
    var g := Grouped(vs, ms);
    CategoryOrderDistinct();
    SortedDataUnder(CategoryOrder, g, Motorcycle);
    SortedMakesCount(MakesUnder(g, Motorcycle));
    GroupFind([], ps, Motorcycle);
    CountInAppend(vps, bps, Motorcycle);
    VehiclePlacementsShape(vs);
    forall i | 0 <= i < |bps|
      ensures bps[i].category == Motorcycle && BikeShaped(bps[i].entry)
    {
      BikePlacementFacts(ms[i]);
    }
    AllCounted(bps, Motorcycle);
    forall i | 0 <= i < |ps| && ps[i].category == Motorcycle
      ensures BikeShaped(ps[i].entry)
    {
      if i >= |vps| {
        assert ps[i] == bps[i - |vps|];
      }
    }
    GroupUnder([], ps, Motorcycle, BikeShaped);
    SortedMakesEvery(MakesUnder(g, Motorcycle), BikeShaped);
  }
}
