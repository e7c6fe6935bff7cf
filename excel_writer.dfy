/**
 * The layout of the spreadsheet (utils/excel_writer.py, `write_to_excel`).
 *
 * The data is a dictionary from column name to column values, modelled as a
 * sequence of named columns with distinct names, in insertion order. The
 * workbook is the sequence of sheets it would hold, each a name and the
 * columns of its rows; writing the file itself is not modelled.
 */
module ExcelWriter {
  import opened Common
  import Config

  datatype Sheet = Sheet(name: string, columns: seq<Column>)

  datatype WriteError =
    | MissingLatLon          // ValueError: `lat` or `lon` is not a key
    | ColumnLengthMismatch   // ValueError from pandas: the columns differ in length
    | ZeroDivision           // ZeroDivisionError: rows to split and a ceiling of 0

  predicate HasColumn(cols: seq<Column>, name: string) {
    exists i :: 0 <= i < |cols| && cols[i].name == name
  }

  /** Where the column of the given name is. */
  function IndexOf(cols: seq<Column>, name: string): (i: nat)
    requires HasColumn(cols, name)
    ensures i < |cols| && cols[i].name == name
  {
    if cols[0].name == name then 0
    else
      assert HasColumn(cols[1..], name) by {
        var k :| 0 <= k < |cols| && cols[k].name == name;
        assert cols[1..][k - 1] == cols[k];
      }
      1 + IndexOf(cols[1..], name)
  }

  predicate IsCoordinate(name: string) {
    name == "lat" || name == "lon"
  }

  /** `[c for c in df.columns if c not in ['lat', 'lon']]`: the other columns, in order. */
  function Others(cols: seq<Column>): seq<Column> {
    if cols == [] then []
    else
      var last := cols[|cols| - 1];
      Others(cols[..|cols| - 1]) + if IsCoordinate(last.name) then [] else [last]
  }

  /** The columns named `name`. */
  function Count(cols: seq<Column>, name: string): nat {
    if cols == [] then 0
    else Count(cols[..|cols| - 1], name) + if cols[|cols| - 1].name == name then 1 else 0
  }

  lemma {:induction false} OthersMembers(cols: seq<Column>)
    ensures forall c :: c in Others(cols) <==> c in cols && !IsCoordinate(c.name)
  {
    if cols != [] {
      var init := cols[..|cols| - 1];
      assert cols == init + [cols[|cols| - 1]];
      OthersMembers(init);
    }
  }

  lemma {:induction false} OthersLength(cols: seq<Column>)
    ensures |Others(cols)| + Count(cols, "lat") + Count(cols, "lon") == |cols|
  {
    if cols != [] {
      OthersLength(cols[..|cols| - 1]);
    }
  }

  /** With distinct names, a column that is there is there once. */
  lemma {:induction false} CountOne(cols: seq<Column>, name: string)
    requires DistinctNames(cols) && HasColumn(cols, name)
    ensures Count(cols, name) == 1
  {
    var init := cols[..|cols| - 1];
    if cols[|cols| - 1].name == name {
      CountNone(init, name);
    } else {
      var k :| 0 <= k < |cols| && cols[k].name == name;
      assert init[k].name == name;
      CountOne(init, name);
    }
  }

  lemma {:induction false} CountNone(cols: seq<Column>, name: string)
    requires forall i :: 0 <= i < |cols| ==> cols[i].name != name
    ensures Count(cols, name) == 0
  {
    if cols != [] {
      CountNone(cols[..|cols| - 1], name);
    }
  }

  /** `df[['lat', 'lon'] + others]`: lat, lon, then every other column in order. */
  function Reorder(cols: seq<Column>): (r: seq<Column>)
    requires HasColumn(cols, "lat") && HasColumn(cols, "lon")
    ensures forall c :: c in r ==> c in cols
    ensures SameLength(cols) ==> forall c :: 0 <= c < |r| ==> |r[c].values| == |cols[0].values|
  {
    OthersMembers(cols);
    [cols[IndexOf(cols, "lat")], cols[IndexOf(cols, "lon")]] + Others(cols)
  }

  /** The reordered table has lat and lon first and holds every column of the
      table exactly once. */
  lemma ReorderPermutes(cols: seq<Column>)
    requires DistinctNames(cols) && HasColumn(cols, "lat") && HasColumn(cols, "lon")
    ensures var r := Reorder(cols);
      && |r| == |cols|
      && r[0].name == "lat" && r[1].name == "lon"
      && (forall c :: c in r <==> c in cols)
      && DistinctNames(r)
  {
    OthersLength(cols);
    CountOne(cols, "lat");
    CountOne(cols, "lon");
    ReorderHasAll(cols);
    ReorderDistinct(cols);
  }

  lemma ReorderHasAll(cols: seq<Column>)
    requires DistinctNames(cols) && HasColumn(cols, "lat") && HasColumn(cols, "lon")
    ensures forall c :: c in cols ==> c in Reorder(cols)
  {
    var r := Reorder(cols);
    OthersMembers(cols);
    forall c | c in cols ensures c in r {
      var k :| 0 <= k < |cols| && cols[k] == c;
      if c.name == "lat" {
        assert k == IndexOf(cols, "lat");
      } else if c.name == "lon" {
        assert k == IndexOf(cols, "lon");
      }
    }
  }

  lemma ReorderDistinct(cols: seq<Column>)
    requires DistinctNames(cols) && HasColumn(cols, "lat") && HasColumn(cols, "lon")
    ensures DistinctNames(Reorder(cols))
  {
    var r := Reorder(cols);
    forall i, j | 0 <= i < j < |r| ensures r[i].name != r[j].name {
      if 2 <= i {
        OthersDistinct(cols, i - 2, j - 2);
      } else if 2 <= j {
        OthersNotCoordinate(cols, j - 2);
      }
    }
  }

  lemma OthersNotCoordinate(cols: seq<Column>, k: nat)
    requires k < |Others(cols)|
    ensures !IsCoordinate(Others(cols)[k].name)
  {
    OthersMembers(cols);
    assert Others(cols)[k] in Others(cols);
  }

  /** Different entries of Others come from different columns of the table. */
  lemma {:induction false} OthersDistinct(cols: seq<Column>, i: nat, j: nat)
    requires DistinctNames(cols) && i < j < |Others(cols)|
    ensures Others(cols)[i].name != Others(cols)[j].name
  {
    var init := cols[..|cols| - 1];
    var last := cols[|cols| - 1];
    OthersMembers(init);
    if j < |Others(init)| {
      OthersDistinct(init, i, j);
    } else {
      var k :| 0 <= k < |init| && init[k] == Others(init)[i];
      assert cols[k] == init[k] && Others(cols)[j] == last;
    }
  }

  lemma {:induction false} OthersAfterCoordinates(cols: seq<Column>, k: nat)
    requires DistinctNames(cols) && 2 <= k <= |cols|
    requires cols[0].name == "lat" && cols[1].name == "lon"
    ensures Others(cols[..k]) == cols[2..k]
  {
    var prefix := cols[..k];
    assert prefix[..k - 1] == cols[..k - 1];
    assert !IsCoordinate(prefix[k - 1].name) <==> k - 1 >= 2;
    if k > 2 {
      OthersAfterCoordinates(cols, k - 1);
    } else {
      var first := prefix[..1];
      assert first[..0] == [] && first[0].name == "lat";
      assert Others(first) == [];
    }
  }

  /** A table that already starts with lat and lon, as the one
      `prepare_dataframe_data` builds, is left in its order. */
  lemma ReorderKeepsLatLonFirst(cols: seq<Column>)
    requires DistinctNames(cols) && |cols| >= 2 && cols[0].name == "lat" && cols[1].name == "lon"
    ensures HasColumn(cols, "lat") && HasColumn(cols, "lon")
    ensures Reorder(cols) == cols
  {
    assert HasColumn(cols, "lat") && HasColumn(cols, "lon");
    OthersAfterCoordinates(cols, |cols|);
    assert cols[..|cols|] == cols;
  }

  predicate SameLength(cols: seq<Column>) {
    forall i, j :: 0 <= i < |cols| && 0 <= j < |cols| ==> |cols[i].values| == |cols[j].values|
  }

  function Min(a: int, b: int): int {
    if a < b then a else b
  }

  /** `df.iloc[start:end]`: rows start to end - 1 of every column. */
  function Slice(cols: seq<Column>, start: nat, end: nat): (r: seq<Column>)
    requires start <= end && forall c :: 0 <= c < |cols| ==> end <= |cols[c].values|
    ensures |r| == |cols|
    ensures forall c :: 0 <= c < |cols| ==> r[c] == Column(cols[c].name, cols[c].values[start..end])
  {
    seq(|cols|, c requires 0 <= c < |cols| => Column(cols[c].name, cols[c].values[start..end]))
  }

  /** `(rows + max - 1) // max`: the number of sheets. */
  function SheetCount(rows: nat, max: nat): nat
    requires max > 0
  {
    (rows + max - 1) / max
  }

  /** The ceiling division is exact: count - 1 sheets are too few, count are enough,
      and a table longer than one sheet needs at least two. */
  lemma SheetCountBounds(rows: nat, max: nat)
    requires 0 < max < rows
    ensures var count := SheetCount(rows, max);
      && count >= 2
      && (count - 1) * max < rows <= count * max
  {
    var count := SheetCount(rows, max);
    var t := rows + max - 1;
    assert t == count * max + t % max;
    assert (count - 1) * max == count * max - max;
    MulAtLeast(count - 1, max);
    MulAtLeast(1 - (count - 1), max);
    assert (1 - (count - 1)) * max == max - (count - 1) * max;
  }

  /** Sheet i starts inside the table; every sheet but the last ends inside it,
      the last one at or past its end. */
  lemma SheetStart(rows: nat, max: nat, i: nat)
    requires 0 < max < rows && i < SheetCount(rows, max)
    ensures i * max < rows && (i + 1) * max == i * max + max
    ensures i < SheetCount(rows, max) - 1 ==> (i + 1) * max < rows
    ensures i == SheetCount(rows, max) - 1 ==> rows <= (i + 1) * max
  {
    var count := SheetCount(rows, max);
    SheetCountBounds(rows, max);
    MulMono(i, count - 1, max);
    MulMono(i + 1, count - 1, max);
  }

  /** The name of sheet i of count: suffixed `_1`, `_2`, ... when there are several. */
  function SheetTitle(name: string, i: nat, count: nat): string {
    if count > 1 then name + "_" + NatToDecimal(i + 1) else name
  }

  /** The sheets of a table longer than `max`, sheet i holding rows
      i * max to min((i + 1) * max, rows) - 1. */
  function SplitSheets(cols: seq<Column>, name: string, rows: nat, max: nat): (r: seq<Sheet>)
    requires 0 < max < rows
    requires forall c :: 0 <= c < |cols| ==> |cols[c].values| == rows
    ensures |r| == SheetCount(rows, max)
    ensures forall i :: 0 <= i < |r| ==> |r[i].columns| == |cols|
  {
    var count := SheetCount(rows, max);
    seq(count, i requires 0 <= i < count =>
      SheetStart(rows, max, i);
      Sheet(SheetTitle(name, i, count), Slice(cols, i * max, Min((i + 1) * max, rows))))
  }

  /** Column c of the sheets, read one sheet after the other. */
  function ConcatColumn(sheets: seq<Sheet>, c: nat): seq<real>
    requires forall s :: 0 <= s < |sheets| ==> c < |sheets[s].columns|
  {
    if sheets == [] then []
    else ConcatColumn(sheets[..|sheets| - 1], c) + sheets[|sheets| - 1].columns[c].values
  }

  /** Column c of sheet i holds rows i * max to min((i + 1) * max, rows) - 1 of column c. */
  lemma SplitSheetsAt(cols: seq<Column>, name: string, rows: nat, max: nat, i: nat, c: nat)
    requires 0 < max < rows
    requires forall c :: 0 <= c < |cols| ==> |cols[c].values| == rows
    requires i < SheetCount(rows, max) && c < |cols|
    ensures i * max <= Min((i + 1) * max, rows) <= rows
    ensures SplitSheets(cols, name, rows, max)[i].columns[c]
         == Column(cols[c].name, cols[c].values[i * max..Min((i + 1) * max, rows)])
  {
    SheetStart(rows, max, i);
  }

  /** run is the s-th run of `max` consecutive values of v (the last one may be shorter). */
  predicate IsRun(v: seq<real>, max: nat, s: nat, run: seq<real>) {
    var start := s * max;
    start < |v| && run == v[start..Min(start + max, |v|)]
  }

  /** The sheets of a table whose column c holds consecutive runs of v, `max`
      rows each: the first k of them, read in order, give the first k runs. */
  lemma {:induction false} ConcatRuns(sheets: seq<Sheet>, c: nat, v: seq<real>, max: nat, k: nat)
    requires 0 < max && k <= |sheets|
    requires forall s :: 0 <= s < |sheets| ==> c < |sheets[s].columns|
    requires forall s :: 0 <= s < |sheets| ==> IsRun(v, max, s, sheets[s].columns[c].values)
    ensures ConcatColumn(sheets[..k], c) == v[..Min(k * max, |v|)]
  {
    if k > 0 {
      ConcatRuns(sheets, c, v, max, k - 1);
      ConcatColumnLast(sheets, c, k);
      assert IsRun(v, max, k - 1, sheets[k - 1].columns[c].values);
      var start := (k - 1) * max;
      var end := Min(start + max, |v|);
      assert start + max == k * max;
      assert v[..start] + v[start..end] == v[..end];
    }
  }

  /** Taking one more sheet appends its column c. */
  lemma ConcatColumnLast(sheets: seq<Sheet>, c: nat, k: nat)
    requires forall s :: 0 <= s < |sheets| ==> c < |sheets[s].columns|
    requires 0 < k <= |sheets|
    ensures ConcatColumn(sheets[..k], c) == ConcatColumn(sheets[..k - 1], c) + sheets[k - 1].columns[c].values
  {
    assert sheets[..k][..k - 1] == sheets[..k - 1];
  }

  /** Column c of the sheets holds consecutive runs of `max` rows of column c. */
  lemma SplitSheetsRuns(cols: seq<Column>, name: string, rows: nat, max: nat, c: nat)
    requires 0 < max < rows
    requires forall c :: 0 <= c < |cols| ==> |cols[c].values| == rows
    requires c < |cols|
    ensures var sheets := SplitSheets(cols, name, rows, max);
      forall s :: 0 <= s < |sheets| ==>
        c < |sheets[s].columns| && IsRun(cols[c].values, max, s, sheets[s].columns[c].values)
  {
    var sheets := SplitSheets(cols, name, rows, max);
    forall s | 0 <= s < |sheets|
      ensures c < |sheets[s].columns| && IsRun(cols[c].values, max, s, sheets[s].columns[c].values)
    {
      SheetStart(rows, max, s);
      SplitSheetsAt(cols, name, rows, max, s, c);
    }
  }

  /** The first k sheets, read in order, give the first k * max rows of column c. */
  lemma SplitSheetsPrefix(cols: seq<Column>, name: string, rows: nat, max: nat, c: nat, k: nat)
    requires 0 < max < rows
    requires forall c :: 0 <= c < |cols| ==> |cols[c].values| == rows
    requires c < |cols| && k <= SheetCount(rows, max)
    ensures ConcatColumn(SplitSheets(cols, name, rows, max)[..k], c) == cols[c].values[..Min(k * max, rows)]
  {
    SplitSheetsRuns(cols, name, rows, max, c);
    ConcatRuns(SplitSheets(cols, name, rows, max), c, cols[c].values, max, k);
  }

  /** Reading the sheets one after the other gives back every column whole: no
      row is dropped or repeated. */
  lemma SplitSheetsCover(cols: seq<Column>, name: string, rows: nat, max: nat, c: nat)
    requires 0 < max < rows
    requires forall c :: 0 <= c < |cols| ==> |cols[c].values| == rows
    requires c < |cols|
    ensures ConcatColumn(SplitSheets(cols, name, rows, max), c) == cols[c].values
  {
    var sheets := SplitSheets(cols, name, rows, max);
    SplitSheetsPrefix(cols, name, rows, max, c, |sheets|);
    SheetCountBounds(rows, max);
    assert sheets[..|sheets|] == sheets;
  }

  /** Every sheet but the last holds exactly `max` rows; the last holds between 1 and `max`. */
  lemma SplitSheetsSizes(cols: seq<Column>, name: string, rows: nat, max: nat, i: nat, c: nat)
    requires 0 < max < rows
    requires forall c :: 0 <= c < |cols| ==> |cols[c].values| == rows
    requires i < SheetCount(rows, max) && c < |cols|
    ensures var n := |SplitSheets(cols, name, rows, max)[i].columns[c].values|;
      if i < SheetCount(rows, max) - 1 then n == max else 1 <= n <= max
  {
    SheetStart(rows, max, i);
  }

  /** One row over the ceiling: two sheets, the first full, the second holding the last row. */
  lemma SplitOneRowOver(cols: seq<Column>, name: string, max: nat, c: nat)
    requires max > 0 && c < |cols|
    requires forall c :: 0 <= c < |cols| ==> |cols[c].values| == max + 1
    ensures var sheets := SplitSheets(cols, name, max + 1, max);
      && |sheets| == 2
      && sheets[0].columns[c].values == cols[c].values[..max]
      && sheets[1].columns[c].values == [cols[c].values[max]]
  {
    SheetCountBounds(max + 1, max);
    var count := SheetCount(max + 1, max);
    MulAtLeast(count - 2, max);
    assert count == 2;
    SheetStart(max + 1, max, 0);
    SheetStart(max + 1, max, 1);
  }

  /** Sheet i of a split table, the last one included, is named `<name>_<i + 1>`. */
  lemma SplitSheetName(cols: seq<Column>, name: string, rows: nat, max: nat, i: nat)
    requires 0 < max < rows
    requires forall c :: 0 <= c < |cols| ==> |cols[c].values| == rows
    requires i < SheetCount(rows, max)
    ensures SplitSheets(cols, name, rows, max)[i].name == name + "_" + NatToDecimal(i + 1)
  {
    SheetCountBounds(rows, max);
  }

  /** The split sheets are named `<name>_1`, ..., `<name>_<count>`, all different. */
  lemma SplitSheetsNames(cols: seq<Column>, name: string, rows: nat, max: nat, i: nat, j: nat)
    requires 0 < max < rows
    requires forall c :: 0 <= c < |cols| ==> |cols[c].values| == rows
    requires i < j < SheetCount(rows, max)
    ensures var sheets := SplitSheets(cols, name, rows, max);
      && sheets[i].name == name + "_" + NatToDecimal(i + 1)
      && sheets[j].name == name + "_" + NatToDecimal(j + 1)
      && sheets[i].name != sheets[j].name
  {
    var sheets := SplitSheets(cols, name, rows, max);
    SplitSheetName(cols, name, rows, max, i);
    SplitSheetName(cols, name, rows, max, j);
    var si, sj := sheets[i].name, sheets[j].name;
    assert si[|name| + 1..] == NatToDecimal(i + 1);
    assert sj[|name| + 1..] == NatToDecimal(j + 1);
    DecimalRoundTrip(i + 1);
    DecimalRoundTrip(j + 1);
  }

  function SheetNameOrDefault(sheetName: Option<string>): string {
    if sheetName.Some? then sheetName.value else Config.ExcelSheetName
  }

  function MaxRowsOrDefault(maxRows: Option<nat>): nat {
    if maxRows.Some? then maxRows.value else Config.ExcelMaxRowsPerSheet
  }

  /** The loop writing a table longer than `max` rows, one slice per sheet. */
  method SplitIntoSheets(df: seq<Column>, name: string, rows: nat, max: nat) returns (sheets: seq<Sheet>)
    requires 0 < max < rows
    requires forall c :: 0 <= c < |df| ==> |df[c].values| == rows
    ensures sheets == SplitSheets(df, name, rows, max)
  {
    var count := (rows + max - 1) / max;
    assert count == SheetCount(rows, max);
    ghost var spec := SplitSheets(df, name, rows, max);
    sheets := [];
    var i := 0;
    while i < count
      invariant 0 <= i <= count
      invariant sheets == spec[..i]
    {
      SheetStart(rows, max, i);
      var start := i * max;
      var end := Min((i + 1) * max, rows);
      var title := if count > 1 then name + "_" + NatToDecimal(i + 1) else name;
      assert spec[i] == Sheet(title, Slice(df, start, end));
      assert spec[..i + 1] == spec[..i] + [spec[i]];
      sheets := sheets + [Sheet(title, Slice(df, start, end))];
      i := i + 1;
    }
    assert spec[..count] == spec;
  }

  /** `write_to_excel`: the sheets of the workbook, or the error. */
  method WriteToExcel(data: seq<Column>, sheetName: Option<string>, maxRows: Option<nat>)
    returns (r: Result<seq<Sheet>, WriteError>)
    requires DistinctNames(data)
    ensures r == Err(MissingLatLon) <==> !HasColumn(data, "lat") || !HasColumn(data, "lon")
    ensures r == Err(ColumnLengthMismatch) <==>
      HasColumn(data, "lat") && HasColumn(data, "lon") && !SameLength(data)
    ensures r == Err(ZeroDivision) <==>
      && HasColumn(data, "lat") && HasColumn(data, "lon") && SameLength(data)
      && MaxRowsOrDefault(maxRows) == 0 && |data[0].values| > 0
    ensures r.Ok? ==>
      var name, max, rows := SheetNameOrDefault(sheetName), MaxRowsOrDefault(maxRows), |data[0].values|;
      && HasColumn(data, "lat") && HasColumn(data, "lon") && SameLength(data)
      && (rows <= max ==> r.value == [Sheet(name, Reorder(data))])
      && (rows > max ==> max > 0 && r.value == SplitSheets(Reorder(data), name, rows, max))
  {
    if !HasColumn(data, "lat") || !HasColumn(data, "lon") {
      return Err(MissingLatLon);
    }
    var name := if sheetName.Some? then sheetName.value else Config.ExcelSheetName;
    var max := if maxRows.Some? then maxRows.value else Config.ExcelMaxRowsPerSheet;
    if !SameLength(data) {
      return Err(ColumnLengthMismatch);
    }
    var df := Reorder(data);
    var rows := |data[0].values|;
    OthersMembers(data);
    assert forall c :: 0 <= c < |df| ==> df[c] in data;
    if rows > max {
      if max == 0 {
        return Err(ZeroDivision);
      }
      var sheets := SplitIntoSheets(df, name, rows, max);
      r := Ok(sheets);
    } else {
      r := Ok([Sheet(name, df)]);
    }
  }
}
