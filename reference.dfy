/**
 * The reference table (`data/crsp_cascade.json`): an ordered list of category
 * names and, per category, the makes in key order, each with its ordered list
 * of model variants. JSON objects become association lists so that key order,
 * which the generators iterate in, is kept.
 */
module Reference {
  import opened Wrappers

  /** `cc` is a number of cubic centimetres or free text such as "63 kWh". */
  datatype Cc = CcNumber(x: real) | CcText(text: string)

  /** One entry of a make's model list. */
  datatype ModelVariant = ModelVariant(
    model: string, crsp: real, mn: Option<string>, cc: Option<Cc>,
    fuel: Option<string>, tx: Option<string>)

  datatype MakeEntry = MakeEntry(name: string, models: seq<ModelVariant>)

  datatype CategoryEntry = CategoryEntry(name: string, makes: seq<MakeEntry>)

  datatype Table = Table(categories: seq<string>, data: seq<CategoryEntry>)

  function ModelNames(models: seq<ModelVariant>): (r: seq<string>)
    ensures |r| == |models| && forall i :: 0 <= i < |models| ==> r[i] == models[i].model
  {
    if models == [] then [] else [models[0].model] + ModelNames(models[1..])
  }

  /** `Object.keys(makes)`. */
  function MakeNames(makes: seq<MakeEntry>): (r: seq<string>)
    ensures |r| == |makes| && forall i :: 0 <= i < |makes| ==> r[i] == makes[i].name
  {
    if makes == [] then [] else [makes[0].name] + MakeNames(makes[1..])
  }

  /** `data[category]`: the makes of the first entry with that key (`FindCategorySpec`). */
  function FindCategory(data: seq<CategoryEntry>, name: string): Option<seq<MakeEntry>> {
    if data == [] then None
    else if data[0].name == name then Some(data[0].makes)
    else FindCategory(data[1..], name)
  }

  /** `makes[make]`: the model list of the first entry with that key (`FindMakeSpec`). */
  function FindMake(makes: seq<MakeEntry>, name: string): Option<seq<ModelVariant>> {
    if makes == [] then None
    else if makes[0].name == name then Some(makes[0].models)
    else FindMake(makes[1..], name)
  }

  /** A category lookup fails exactly when no entry has the key, and otherwise yields some entry's makes. */
  lemma {:induction false} FindCategorySpec(data: seq<CategoryEntry>, name: string)
    ensures FindCategory(data, name).None? <==> forall i :: 0 <= i < |data| ==> data[i].name != name
    ensures FindCategory(data, name).Some? ==>
              exists i :: 0 <= i < |data| && data[i].name == name && FindCategory(data, name).value == data[i].makes
  {
    if data != [] && data[0].name != name {
      FindCategorySpec(data[1..], name);
      assert forall i :: 1 <= i < |data| ==> data[1..][i - 1] == data[i];
      if FindCategory(data, name).Some? {
        var i :| 0 <= i < |data[1..]| && data[1..][i].name == name
                 && FindCategory(data, name).value == data[1..][i].makes;
        assert data[i + 1] == data[1..][i];
      }
    }
  }

  /** A make lookup fails exactly when no entry has the key, and otherwise yields some entry's models. */
  lemma {:induction false} FindMakeSpec(makes: seq<MakeEntry>, name: string)
    ensures FindMake(makes, name).None? <==> forall i :: 0 <= i < |makes| ==> makes[i].name != name
    ensures FindMake(makes, name).Some? ==>
              exists i :: 0 <= i < |makes| && makes[i].name == name && FindMake(makes, name).value == makes[i].models
  {
    if makes != [] && makes[0].name != name {
      FindMakeSpec(makes[1..], name);
      assert forall i :: 1 <= i < |makes| ==> makes[1..][i - 1] == makes[i];
      if FindMake(makes, name).Some? {
        var i :| 0 <= i < |makes[1..]| && makes[1..][i].name == name
                 && FindMake(makes, name).value == makes[1..][i].models;
        assert makes[i + 1] == makes[1..][i];
      }
    }
  }

  /** Every category the table lists has an entry in its data, so `data[cat]` never fails. */
  predicate Coherent(t: Table) {
    forall c :: c in t.categories ==> FindCategory(t.data, c).Some?
  }

  /** Looking up a key in a list with one more entry at the end. */
  lemma {:induction false} FindCategorySnoc(data: seq<CategoryEntry>, e: CategoryEntry, name: string)
    ensures FindCategory(data + [e], name) ==
              if FindCategory(data, name).Some? then FindCategory(data, name)
              else if e.name == name then Some(e.makes) else None
  {
    if data == [] {
      assert data + [e] == [e];
    } else {
      assert (data + [e])[0] == data[0];
      assert (data + [e])[1..] == data[1..] + [e];
      FindCategorySnoc(data[1..], e, name);
    }
  }

  /** The number of model entries under a category's makes. */
  function ModelsOfMakes(makes: seq<MakeEntry>): nat {
    if makes == [] then 0
    else ModelsOfMakes(makes[..|makes| - 1]) + |makes[|makes| - 1].models|
  }

  /** The number of makes in the table. */
  function MakesOfTable(data: seq<CategoryEntry>): nat {
    if data == [] then 0
    else MakesOfTable(data[..|data| - 1]) + |data[|data| - 1].makes|
  }

  /** The number of model entries in the table. */
  function ModelsOfTable(data: seq<CategoryEntry>): nat {
    if data == [] then 0
    else ModelsOfTable(data[..|data| - 1]) + ModelsOfMakes(data[|data| - 1].makes)
  }

  /** Counting models distributes over concatenation. */
  lemma {:induction false} ModelsOfMakesAppend(a: seq<MakeEntry>, b: seq<MakeEntry>)
    ensures ModelsOfMakes(a + b) == ModelsOfMakes(a) + ModelsOfMakes(b)
  {
    if b == [] {
      assert a + b == a;
    } else {
      ModelsOfMakesAppend(a, b[..|b| - 1]);
      assert (a + b)[..|a + b| - 1] == a + b[..|b| - 1];
    }
  }

  lemma {:induction false} ModelsOfTableAppend(a: seq<CategoryEntry>, b: seq<CategoryEntry>)
    ensures ModelsOfTable(a + b) == ModelsOfTable(a) + ModelsOfTable(b)
  {
    if b == [] {
      assert a + b == a;
    } else {
      ModelsOfTableAppend(a, b[..|b| - 1]);
      assert (a + b)[..|a + b| - 1] == a + b[..|b| - 1];
    }
  }

  /** JSON object keys are distinct. */
  predicate DistinctCategoryKeys(data: seq<CategoryEntry>) {
    forall i, j :: 0 <= i < j < |data| ==> data[i].name != data[j].name
  }

  predicate DistinctMakeKeys(makes: seq<MakeEntry>) {
    forall i, j :: 0 <= i < j < |makes| ==> makes[i].name != makes[j].name
  }

  /** With distinct keys, looking up the key of entry `k` finds entry `k`. */
  lemma FindCategoryAt(data: seq<CategoryEntry>, k: nat)
    requires DistinctCategoryKeys(data) && k < |data|
    ensures FindCategory(data, data[k].name) == Some(data[k].makes)
  {
    FindCategorySpec(data, data[k].name);
  }

  lemma FindMakeAt(makes: seq<MakeEntry>, k: nat)
    requires DistinctMakeKeys(makes) && k < |makes|
    ensures FindMake(makes, makes[k].name) == Some(makes[k].models)
  {
    FindMakeSpec(makes, makes[k].name);
  }
}
