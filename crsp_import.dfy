/**
 * The workbook import, scripts/crsp_to_json.py: the two price sheets are
 * scanned for their header row and turned into records, the template sheet
 * gives two labelled depreciation lists, and the duty rates are constants.
 *
 * A sheet is a sequence of rows and a row a sequence of optional cells.
 * Python's `float()` on text and `str()` on a number are parameters. An
 * exception (a row too short to unpack, text that `float()` refuses) ends
 * the whole import, which is the `None` outcome here.
 */
module CrspImport {
  import opened Wrappers
  import opened Text
  import opened Duty

  /** A cell value as openpyxl hands it over: text or a number. */
  datatype Cell = Str(s: string) | Num(x: real)

  type Row = seq<Option<Cell>>

  /** Python truthiness of a cell: an empty cell, `""` and `0` are false. */
  predicate Truthy(c: Option<Cell>) {
    match c
    case None => false
    case Some(Str(s)) => s != ""
    case Some(Num(x)) => x != 0.0
  }

  /** `str(v)`. */
  function CellText(c: Cell, numText: real -> string): string {
    match c
    case Str(s) => s
    case Num(x) => numText(x)
  }

  /** `float(v)`; `None` is the `ValueError` raised for text that is not a number. */
  function CellFloat(c: Cell, parseFloat: string -> Option<real>): Option<real> {
    match c
    case Str(s) => parseFloat(s)
    case Num(x) => Some(x)
  }

  /** No Python whitespace at either end. */
  predicate Stripped(s: string) {
    s == [] || (!IsPySpace(s[0]) && !IsPySpace(s[|s| - 1]))
  }

  /** `str(v).strip()`. */
  function StrippedText(c: Cell, numText: real -> string): (r: string)
    ensures Stripped(r)
  {
    StripTrims(Python, CellText(c, numText));
    Strip(Python, CellText(c, numText))
  }

  /** `str(v).strip() if v else None`. */
  function TextField(c: Option<Cell>, numText: real -> string): (r: Option<string>)
    ensures r.Some? <==> Truthy(c)
    ensures r.Some? ==> Stripped(r.value)
  {
    if Truthy(c) then Some(StrippedText(c.value, numText)) else None
  }

  // ---------------------------------------------------------------------
  // Records of the two price sheets

  /** One entry of `crsp_vehicles.json`; `crspKes` is not rounded here. */
  datatype VehicleRecord = VehicleRecord(
    make: string, model: string, modelNumber: Option<string>, transmission: Option<string>,
    drive: Option<string>, engineCc: Option<Cell>, bodyType: Option<string>,
    gvw: Option<Cell>, seating: Option<Cell>, fuel: Option<string>, crspKes: real)

  /** One entry of `crsp_motorcycles.json`. */
  datatype BikeRecord = BikeRecord(
    make: string, model: string, modelNumber: Option<string>, transmission: Option<string>,
    engineCc: Option<Cell>, seating: Option<Cell>, fuel: Option<string>, crspKes: real)

  /** What one row below the header row turns into. */
  datatype Outcome<T> = Raise | Skip | Emit(record: T)

  /**
   * A vehicle row: eleven columns are unpacked, a row without make, model or
   * price is skipped, text fields are stripped and empty ones become `None`.
   */
  function VehicleRow(row: Row, numText: real -> string, parseFloat: string -> Option<real>): (r: Outcome<VehicleRecord>)
    ensures |row| < 11 ==> r.Raise?
    ensures |row| >= 11 ==>
              (r.Skip? <==> !(Truthy(row[0]) && Truthy(row[1]) && Truthy(row[10])))
    ensures |row| >= 11 && Truthy(row[0]) && Truthy(row[1]) && Truthy(row[10]) ==>
              (r.Raise? <==> CellFloat(row[10].value, parseFloat).None?)
    ensures r.Emit? ==>
              Stripped(r.record.make) && Stripped(r.record.model)
              && r.record.crspKes == CellFloat(row[10].value, parseFloat).value
              && (r.record.modelNumber.Some? <==> Truthy(row[2]))
              && (r.record.transmission.Some? <==> Truthy(row[3]))
              && (r.record.bodyType.Some? <==> Truthy(row[6]))
              && (r.record.fuel.Some? <==> Truthy(row[9]))
              && r.record.engineCc == row[5]
  {
    if |row| < 11 then Raise
    else if !Truthy(row[0]) || !Truthy(row[1]) || !Truthy(row[10]) then Skip
    else match CellFloat(row[10].value, parseFloat)
      case None => Raise
      case Some(crsp) =>
        Emit(VehicleRecord(
          StrippedText(row[0].value, numText), StrippedText(row[1].value, numText),
          TextField(row[2], numText), TextField(row[3], numText), TextField(row[4], numText),
          row[5], TextField(row[6], numText), row[7], row[8], TextField(row[9], numText), crsp))
  }

  /** A motorcycle row: `row[:8]` unpacked into eight names, the same skip rule. */
  function BikeRow(row: Row, numText: real -> string, parseFloat: string -> Option<real>): (r: Outcome<BikeRecord>)
    ensures |row| < 8 ==> r.Raise?
    ensures |row| >= 8 ==>
              (r.Skip? <==> !(Truthy(row[0]) && Truthy(row[1]) && Truthy(row[7])))
    ensures |row| >= 8 && Truthy(row[0]) && Truthy(row[1]) && Truthy(row[7]) ==>
              (r.Raise? <==> CellFloat(row[7].value, parseFloat).None?)
    ensures r.Emit? ==>
              Stripped(r.record.make) && Stripped(r.record.model)
              && r.record.crspKes == CellFloat(row[7].value, parseFloat).value
              && (r.record.modelNumber.Some? <==> Truthy(row[2]))
              && (r.record.transmission.Some? <==> Truthy(row[3]))
              && (r.record.fuel.Some? <==> Truthy(row[6]))
              && r.record.engineCc == row[4]
  {
    if |row| < 8 then Raise
    else if !Truthy(row[0]) || !Truthy(row[1]) || !Truthy(row[7]) then Skip
    else match CellFloat(row[7].value, parseFloat)
      case None => Raise
      case Some(crsp) =>
        Emit(BikeRecord(
          StrippedText(row[0].value, numText), StrippedText(row[1].value, numText),
          TextField(row[2], numText), TextField(row[3], numText),
          row[4], row[5], TextField(row[6], numText), crsp))
  }

  function VehicleConvert(numText: real -> string, parseFloat: string -> Option<real>): Row -> Outcome<VehicleRecord> {
    row => VehicleRow(row, numText, parseFloat)
  }

  function BikeConvert(numText: real -> string, parseFloat: string -> Option<real>): Row -> Outcome<BikeRecord> {
    row => BikeRow(row, numText, parseFloat)
  }

  // ---------------------------------------------------------------------
  // The header-skipping scan

  /** The first cell reads `"Make"`. */
  predicate HeaderRow(row: Row) {
    |row| > 0 && row[0] == Some(Str("Make"))
  }

  /** The loop's state: whether the header has been seen, and the records so far. */
  datatype Scan<T> = Scan(headersFound: bool, out: seq<T>)

  /** One turn of the loop; before the header only `row[0]` is read. */
  function Step<T>(s: Scan<T>, row: Row, convert: Row -> Outcome<T>): Option<Scan<T>> {
    if !s.headersFound then
      if |row| == 0 then None else Some(Scan(HeaderRow(row), s.out))
    else
      match convert(row)
      case Raise => None
      case Skip => Some(s)
      case Emit(x) => Some(Scan(true, s.out + [x]))
  }

  /** The state after all of `rows`. */
  function ScanRows<T>(rows: seq<Row>, convert: Row -> Outcome<T>): Option<Scan<T>> {
    if rows == [] then Some(Scan(false, []))
    else
      match ScanRows(rows[..|rows| - 1], convert)
      case None => None
      case Some(s) => Step(s, rows[|rows| - 1], convert)
  }

  function Outputs<T>(s: Option<Scan<T>>): Option<seq<T>> {
    if s.None? then None else Some(s.value.out)
  }

  /** The records of rows that all lie below the header, in row order. */
  function Records<T>(rows: seq<Row>, convert: Row -> Outcome<T>): Option<seq<T>> {
    if rows == [] then Some([])
    else
      match Records(rows[..|rows| - 1], convert)
      case None => None
      case Some(out) =>
        match convert(rows[|rows| - 1])
        case Raise => None
        case Skip => Some(out)
        case Emit(x) => Some(out + [x])
  }

  /** Once the scan has failed it stays failed. */
  lemma {:induction false} ScanFailureSticks<T>(rows: seq<Row>, k: nat, convert: Row -> Outcome<T>)
    requires k <= |rows| && ScanRows(rows[..k], convert).None?
    ensures ScanRows(rows, convert).None?
    decreases |rows| - k
  {
    if k < |rows| {
      assert rows[..k + 1][..k] == rows[..k];
      ScanFailureSticks(rows, k + 1, convert);
    } else {
      assert rows[..k] == rows;
    }
  }

  /**
   * `parse_vehicles` / `parse_motorcycles`: the loop that waits for the
   * header row, then converts row by row.
   */
  method ScanSheet<T>(rows: seq<Row>, convert: Row -> Outcome<T>) returns (r: Option<seq<T>>)
    ensures r == Outputs(ScanRows(rows, convert))
  {
    var out: seq<T> := [];
    var headersFound := false;
    var i := 0;
    while i < |rows|
      invariant 0 <= i <= |rows|
      invariant ScanRows(rows[..i], convert) == Some(Scan(headersFound, out))
    {
      var row := rows[i];
      assert rows[..i + 1][..i] == rows[..i];
      if !headersFound {
        if |row| == 0 {
          ScanFailureSticks(rows, i + 1, convert);
          return None;
        }
        if row[0] == Some(Str("Make")) {
          headersFound := true;
        }
        i := i + 1;
        continue;
      }
      match convert(row) {
        case Raise =>
          ScanFailureSticks(rows, i + 1, convert);
          return None;
        case Skip =>
        case Emit(x) =>
          out := out + [x];
      }
      i := i + 1;
    }
    assert rows[..|rows|] == rows;
    return Some(out);
  }

  method ParseVehicles(rows: seq<Row>, numText: real -> string, parseFloat: string -> Option<real>)
    returns (vehicles: Option<seq<VehicleRecord>>)
    ensures vehicles == Outputs(ScanRows(rows, VehicleConvert(numText, parseFloat)))
  {
    vehicles := ScanSheet(rows, VehicleConvert(numText, parseFloat));
  }

  method ParseMotorcycles(rows: seq<Row>, numText: real -> string, parseFloat: string -> Option<real>)
    returns (bikes: Option<seq<BikeRecord>>)
    ensures bikes == Outputs(ScanRows(rows, BikeConvert(numText, parseFloat)))
  {
    bikes := ScanSheet(rows, BikeConvert(numText, parseFloat));
  }

  /** Up to the header row nothing is emitted; the header row arms the scan. */
  lemma {:induction false} ScanBeforeHeader<T>(rows: seq<Row>, n: nat, h: nat, convert: Row -> Outcome<T>)
    requires n <= h + 1 <= |rows| && HeaderRow(rows[h])
    requires forall j :: 0 <= j < h ==> |rows[j]| > 0 && !HeaderRow(rows[j])
    ensures ScanRows(rows[..n], convert) == Some(Scan(n == h + 1, []))
  {
    if n > 0 {
      ScanBeforeHeader(rows, n - 1, h, convert);
      assert rows[..n][..n - 1] == rows[..n - 1];
    }
  }

  /** Below the header the scan produces the records of the rows below it. */
  lemma {:induction false} ScanBelowHeader<T>(rows: seq<Row>, n: nat, h: nat, convert: Row -> Outcome<T>)
    requires h + 1 <= n <= |rows| && HeaderRow(rows[h])
    requires forall j :: 0 <= j < h ==> |rows[j]| > 0 && !HeaderRow(rows[j])
    ensures Outputs(ScanRows(rows[..n], convert)) == Records(rows[h + 1..n], convert)
    ensures ScanRows(rows[..n], convert).Some? ==> ScanRows(rows[..n], convert).value.headersFound
  {
    if n == h + 1 {
      ScanBeforeHeader(rows, n, h, convert);
      assert rows[h + 1..n] == [];
    } else {
      ScanBelowHeader(rows, n - 1, h, convert);
      assert rows[..n][..n - 1] == rows[..n - 1];
      assert rows[h + 1..n][..n - h - 2] == rows[h + 1..n - 1];
    }
  }

  /** No row at or before the first header row is emitted: the output is the records of the rows below it. */
  lemma SheetAfterHeader<T>(rows: seq<Row>, h: nat, convert: Row -> Outcome<T>)
    requires h < |rows| && HeaderRow(rows[h])
    requires forall j :: 0 <= j < h ==> |rows[j]| > 0 && !HeaderRow(rows[j])
    ensures Outputs(ScanRows(rows, convert)) == Records(rows[h + 1..], convert)
  {
    ScanBelowHeader(rows, |rows|, h, convert);
    assert rows[..|rows|] == rows;
  }

  /** A sheet without a header row yields no records. */
  lemma {:induction false} SheetWithoutHeader<T>(rows: seq<Row>, convert: Row -> Outcome<T>)
    requires forall j :: 0 <= j < |rows| ==> |rows[j]| > 0 && !HeaderRow(rows[j])
    ensures ScanRows(rows, convert) == Some(Scan(false, []))
  {
    if rows != [] {
      SheetWithoutHeader(rows[..|rows| - 1], convert);
    }
  }

  /** At most one record per row. */
  lemma {:induction false} RecordsLength<T>(rows: seq<Row>, convert: Row -> Outcome<T>)
    ensures Records(rows, convert).Some? ==> |Records(rows, convert).value| <= |rows|
  {
    if rows != [] {
      RecordsLength(rows[..|rows| - 1], convert);
    }
  }

  /** Records keep row order: those of `a + b` are those of `a` followed by those of `b`. */
  lemma {:induction false} RecordsAppend<T>(a: seq<Row>, b: seq<Row>, convert: Row -> Outcome<T>)
    ensures Records(a + b, convert) ==
              (if Records(a, convert).None? || Records(b, convert).None? then None
               else Some(Records(a, convert).value + Records(b, convert).value))
  {
    if b == [] {
      assert a + b == a;
      if Records(a, convert).Some? {
        assert Records(a, convert).value + [] == Records(a, convert).value;
      }
    } else {
      var b' := b[..|b| - 1];
      RecordsAppend(a, b', convert);
      assert (a + b)[..|a + b| - 1] == a + b';
      assert (a + b)[|a + b| - 1] == b[|b| - 1];
      if Records(a, convert).Some? && Records(b', convert).Some? {
        var x := Records(a, convert).value;
        var y := Records(b', convert).value;
        match convert(b[|b| - 1])
        case Raise =>
        case Skip =>
        case Emit(e) =>
          assert x + (y + [e]) == x + y + [e];
      }
    }
  }

  // ---------------------------------------------------------------------
  // parse_depreciation

  datatype DeprEntry = DeprEntry(text: string, rate: real)

  datatype DeprTables = DeprTables(direct: seq<DeprEntry>, previouslyRegistered: seq<DeprEntry>)

  /** A label cell and a rate cell: an entry (`label`, `rate`) when the label is truthy and the rate is present. */
  function RateEntry(labelCell: Option<Cell>, pct: Option<Cell>, numText: real -> string,
                     parseFloat: string -> Option<real>): (r: Outcome<DeprEntry>)
    ensures r.Skip? <==> !Truthy(labelCell) || pct.None?
    ensures r.Raise? <==> Truthy(labelCell) && pct.Some? && CellFloat(pct.value, parseFloat).None?
    ensures r.Emit? ==> Stripped(r.record.text) && Some(r.record.rate) == CellFloat(pct.value, parseFloat)
  {
    if !Truthy(labelCell) || pct.None? then Skip
    else match CellFloat(pct.value, parseFloat)
      case None => Raise
      case Some(rate) => Emit(DeprEntry(StrippedText(labelCell.value, numText), rate))
  }

  function Entries(o: Outcome<DeprEntry>): seq<DeprEntry> {
    if o.Emit? then [o.record] else []
  }

  /** Both labels empty: the loop stops after this row. */
  predicate StopRow(row: Row)
    requires |row| >= 10
  {
    !Truthy(row[1]) && !Truthy(row[8])
  }

  /** What one row contributes: an exception, its entries and a `break`, or its entries and more rows. */
  datatype RowRead = Fails | Last(tables: DeprTables) | Next(tables: DeprTables)

  function ReadRow(row: Row, numText: real -> string, parseFloat: string -> Option<real>): RowRead {
    if |row| < 10 then Fails
    else
      var d := RateEntry(row[1], row[2], numText, parseFloat);
      var p := RateEntry(row[8], row[9], numText, parseFloat);
      if d.Raise? || p.Raise? then Fails
      else if StopRow(row) then Last(DeprTables(Entries(d), Entries(p)))
      else Next(DeprTables(Entries(d), Entries(p)))
  }

  /** The tables already collected, followed by those of the rest. */
  function Prepend(acc: DeprTables, rest: Option<DeprTables>): Option<DeprTables> {
    if rest.None? then None
    else Some(DeprTables(acc.direct + rest.value.direct, acc.previouslyRegistered + rest.value.previouslyRegistered))
  }

  /** The tables read from `rs`, the rows below the two header rows. */
  function DeprScan(rs: seq<Row>, numText: real -> string, parseFloat: string -> Option<real>): Option<DeprTables> {
    if rs == [] then Some(DeprTables([], []))
    else
      match ReadRow(rs[0], numText, parseFloat)
      case Fails => None
      case Last(t) => Some(t)
      case Next(t) => Prepend(t, DeprScan(rs[1..], numText, parseFloat))
  }

  /** `rows[2:]`. */
  function BelowHeaders(rows: seq<Row>): seq<Row> {
    if |rows| <= 2 then [] else rows[2..]
  }

  /** Two lists of tables, one after the other. */
  function Join(a: DeprTables, b: DeprTables): DeprTables {
    DeprTables(a.direct + b.direct, a.previouslyRegistered + b.previouslyRegistered)
  }

  lemma PrependJoin(a: DeprTables, b: DeprTables, rest: Option<DeprTables>)
    ensures Prepend(a, Prepend(b, rest)) == Prepend(Join(a, b), rest)
  {
    if rest.Some? {
      assert a.direct + (b.direct + rest.value.direct) == a.direct + b.direct + rest.value.direct;
      assert a.previouslyRegistered + (b.previouslyRegistered + rest.value.previouslyRegistered)
          == a.previouslyRegistered + b.previouslyRegistered + rest.value.previouslyRegistered;
    }
  }

  lemma PrependEmpty(rest: Option<DeprTables>)
    ensures Prepend(DeprTables([], []), rest) == rest
  {
    if rest.Some? {
      assert [] + rest.value.direct == rest.value.direct;
      assert [] + rest.value.previouslyRegistered == rest.value.previouslyRegistered;
    }
  }

  /** The scan of `rs[i..]`, one row further. */
  lemma DeprScanAt(rs: seq<Row>, i: nat, numText: real -> string, parseFloat: string -> Option<real>)
    requires i < |rs|
    ensures DeprScan(rs[i..], numText, parseFloat) ==
              match ReadRow(rs[i], numText, parseFloat)
              case Fails => None
              case Last(t) => Some(t)
              case Next(t) => Prepend(t, DeprScan(rs[i + 1..], numText, parseFloat))
  {
    assert rs[i..][0] == rs[i] && rs[i..][1..] == rs[i + 1..];
  }

  /** One list's half of a turn: the row's entry for that list, if any, appended to `xs`; `failed` is `float` raising. */
  method AppendEntry(xs: seq<DeprEntry>, labelCell: Option<Cell>, pct: Option<Cell>, numText: real -> string,
                     parseFloat: string -> Option<real>)
    returns (failed: bool, xs': seq<DeprEntry>)
    ensures failed <==> Truthy(labelCell) && pct.Some? && CellFloat(pct.value, parseFloat).None?
    ensures !failed ==> xs' == xs + Entries(RateEntry(labelCell, pct, numText, parseFloat))
  {
    var e := RateEntry(labelCell, pct, numText, parseFloat);
    if e.Raise? {
      return true, xs;
    }
    if e.Emit? {
      return false, xs + [e.record];
    }
    assert xs + [] == xs;
    return false, xs;
  }

  /** One turn of the loop: the row's entries are appended to `acc`; `stop` is the `break`. */
  method AppendRow(acc: DeprTables, row: Row, numText: real -> string, parseFloat: string -> Option<real>)
    returns (failed: bool, acc': DeprTables, stop: bool)
    ensures failed <==> ReadRow(row, numText, parseFloat).Fails?
    ensures !failed ==> acc' == Join(acc, ReadRow(row, numText, parseFloat).tables)
                        && (stop <==> ReadRow(row, numText, parseFloat).Last?)
  {
    if |row| < 10 {
      return true, acc, false;
    }
    var failedDirect, direct := AppendEntry(acc.direct, row[1], row[2], numText, parseFloat);
    var failedPrev, prev := AppendEntry(acc.previouslyRegistered, row[8], row[9], numText, parseFloat);
    if failedDirect || failedPrev {
      return true, acc, false;
    }
    return false, DeprTables(direct, prev), !Truthy(row[1]) && !Truthy(row[8]);
  }

  /** `parse_depreciation`: the two header rows are skipped, the loop breaks at the first row with both labels empty. */
  method ParseDepreciation(rows: seq<Row>, numText: real -> string, parseFloat: string -> Option<real>)
    returns (r: Option<DeprTables>)
    ensures r == DeprScan(BelowHeaders(rows), numText, parseFloat)
  {
    var rs := BelowHeaders(rows);
    ghost var all := DeprScan(rs, numText, parseFloat);
    var acc := DeprTables([], []);
    var i := 0;
    assert rs[0..] == rs;
    PrependEmpty(all);
    while i < |rs|
      invariant 0 <= i <= |rs|
      invariant Prepend(acc, DeprScan(rs[i..], numText, parseFloat)) == all
    {
      DeprScanAt(rs, i, numText, parseFloat);
      ghost var read := ReadRow(rs[i], numText, parseFloat);
      var failed, acc', stop := AppendRow(acc, rs[i], numText, parseFloat);
      if failed {
        return None;
      }
      PrependJoin(acc, read.tables, DeprScan(rs[i + 1..], numText, parseFloat));
      if stop {
        assert acc.direct + read.tables.direct == acc'.direct;
        return Some(acc');
      }
      acc := acc';
      i := i + 1;
    }
    assert rs[i..] == [];
    assert acc.direct + [] == acc.direct && acc.previouslyRegistered + [] == acc.previouslyRegistered;
    return Some(acc);
  }

  /** Two row lists with the same first row and tails that read the same read the same. */
  lemma DeprSameHead(x: seq<Row>, y: seq<Row>, numText: real -> string, parseFloat: string -> Option<real>)
    requires x != [] && y != [] && x[0] == y[0]
    requires ReadRow(x[0], numText, parseFloat).Next? ==>
               DeprScan(x[1..], numText, parseFloat) == DeprScan(y[1..], numText, parseFloat)
    ensures DeprScan(x, numText, parseFloat) == DeprScan(y, numText, parseFloat)
  {
  }

  lemma {:induction false} DeprStopsFrom(rs: seq<Row>, i: nat, k: nat,
                                         numText: real -> string, parseFloat: string -> Option<real>)
    requires i <= k < |rs|
    requires forall j :: i <= j < k ==> |rs[j]| >= 10 && !StopRow(rs[j])
    requires |rs[k]| >= 10 && StopRow(rs[k])
    ensures DeprScan(rs[i..], numText, parseFloat) == DeprScan(rs[i..k + 1], numText, parseFloat)
    decreases k - i
  {
    assert rs[i..][0] == rs[i] && rs[i..k + 1][0] == rs[i];
    if i < k {
      DeprStopsFrom(rs, i + 1, k, numText, parseFloat);
      assert rs[i..][1..] == rs[i + 1..] && rs[i..k + 1][1..] == rs[i + 1..k + 1];
    }
    DeprSameHead(rs[i..], rs[i..k + 1], numText, parseFloat);
  }

  /** Rows below the first row with both labels empty are never read. */
  lemma DeprStopsAtBlankRow(rs: seq<Row>, k: nat, numText: real -> string, parseFloat: string -> Option<real>)
    requires k < |rs|
    requires forall j :: 0 <= j < k ==> |rs[j]| >= 10 && !StopRow(rs[j])
    requires |rs[k]| >= 10 && StopRow(rs[k])
    ensures DeprScan(rs, numText, parseFloat) == DeprScan(rs[..k + 1], numText, parseFloat)
  {
    DeprStopsFrom(rs, 0, k, numText, parseFloat);
    assert rs[0..] == rs && rs[0..k + 1] == rs[..k + 1];
  }

  /** Each list holds at most one entry per row read. */
  lemma {:induction false} DeprLength(rs: seq<Row>, numText: real -> string, parseFloat: string -> Option<real>)
    ensures DeprScan(rs, numText, parseFloat).Some? ==>
              |DeprScan(rs, numText, parseFloat).value.direct| <= |rs|
              && |DeprScan(rs, numText, parseFloat).value.previouslyRegistered| <= |rs|
  {
    if rs != [] && |rs[0]| >= 10 {
      DeprLength(rs[1..], numText, parseFloat);
    }
  }

  // ---------------------------------------------------------------------
  // DUTY_RATES

  /** `DUTY_RATES` without its note, in the field order of `Rates`. */
  const DutyRates: Rates := Rates(2.4469, 0.25, 0.20, 0.16, 0.0225, 5000.0, 0.015)

  /** The script's rates are the literals `calcDuty` computes with. */
  lemma DutyRatesAgree()
    ensures DutyRates == EngineRates
    ensures DutyRates.idfMinimum == 5000.0 && DutyRates.divisor == 2.4469
  {
  }
}
