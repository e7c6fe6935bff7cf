/**
 * Reading and reshaping of the climate data (utils/nc_reader.py).
 *
 * A DataArray with dimensions (time, lat, lon) is its two coordinate vectors
 * and one lat x lon grid of cells per day. Cells are exact reals. Reading a
 * NetCDF file is foreign to the model: each file path comes with the outcome of
 * reading it, either the array of the requested variable or a failure.
 *
 *  - MergeFiles: the files are read in order, their grids compared with the
 *    first one, their days concatenated, and every day labelled with a year.
 *  - ExtractCoordinateData: the days are grouped by year label, in ascending
 *    year order, and each group is reduced by the chosen aggregation.
 *  - PrepareDataframeData: the lat x lon grid is laid out as one row per
 *    (lat, lon) pair, in row-major order, with one column per year.
 */
module NcReader {
  import opened Common
  import Sorting

  /** A lat x lon grid of cells, one row per latitude. */
  type Grid = seq<seq<real>>

  predicate IsGrid(g: Grid, m: nat, n: nat) {
    |g| == m && forall i :: 0 <= i < m ==> |g[i]| == n
  }

  predicate AllGrids(days: seq<Grid>, m: nat, n: nat) {
    forall d :: 0 <= d < |days| ==> IsGrid(days[d], m, n)
  }

  datatype DataArray = DataArray(lat: seq<real>, lon: seq<real>, days: seq<Grid>)

  /** Every day is a grid over the array's own coordinates. */
  predicate WellShaped(a: DataArray) {
    AllGrids(a.days, |a.lat|, |a.lon|)
  }

  /** The outcome of `read_nc_file` on one path. */
  datatype FileRead = Loaded(contents: DataArray) | ReadFailed

  // ---------------------------------------------------------------------------
  // merge_nc_files
  // ---------------------------------------------------------------------------

  function Abs(x: real): real {
    if x < 0.0 then -x else x
  }

  /** numpy's `allclose(a, b, atol=0.01)` with its default rtol of 1e-5, for
      vectors of the same length. */
  predicate AllClose(a: seq<real>, b: seq<real>) {
    |a| == |b| && forall k :: 0 <= k < |a| ==> Abs(a[k] - b[k]) <= 0.01 + 0.00001 * Abs(b[k])
  }

  /** The lat and lon of a match those of the first file. */
  predicate SameCoordinates(a: DataArray, first: DataArray) {
    AllClose(a.lat, first.lat) && AllClose(a.lon, first.lon)
  }

  predicate AllLoaded(outcomes: seq<FileRead>) {
    forall i :: 0 <= i < |outcomes| ==> outcomes[i].Loaded?
  }

  function Arrays(outcomes: seq<FileRead>): (r: seq<DataArray>)
    requires AllLoaded(outcomes)
    ensures |r| == |outcomes| && forall i :: 0 <= i < |outcomes| ==> r[i] == outcomes[i].contents
  {
    seq(|outcomes|, i requires 0 <= i < |outcomes| => outcomes[i].contents)
  }

  /** File i is the first one that could not be read. */
  predicate FirstFailedRead(outcomes: seq<FileRead>, i: int) {
    && 0 <= i < |outcomes| && outcomes[i].ReadFailed?
    && forall j :: 0 <= j < i ==> outcomes[j].Loaded?
  }

  /** File i (0-based, after the first) is the first whose grid differs from the first file's. */
  predicate FirstMismatch(files: seq<DataArray>, i: int) {
    && 1 <= i < |files| && !SameCoordinates(files[i], files[0])
    && forall j :: 1 <= j < i ==> SameCoordinates(files[j], files[0])
  }

  predicate SameGrid(files: seq<DataArray>) {
    forall j :: 1 <= j < |files| ==> SameCoordinates(files[j], files[0])
  }

  /** The number of days of all the files. */
  function TotalDays(files: seq<DataArray>): nat {
    if files == [] then 0 else TotalDays(files[..|files| - 1]) + |files[|files| - 1].days|
  }

  lemma {:induction false} TotalDaysPrefix(files: seq<DataArray>, i: nat, j: nat)
    requires i < j <= |files|
    ensures TotalDays(files[..i]) + |files[i].days| <= TotalDays(files[..j])
    decreases j
  {
    assert files[..j][..j - 1] == files[..j - 1];
    if i < j - 1 {
      TotalDaysPrefix(files, i, j - 1);
    }
  }

  /** `xr.concat(datasets, dim='time')`: the days of the files, in file order. */
  function ConcatDays(files: seq<DataArray>): (r: seq<Grid>)
    ensures |r| == TotalDays(files)
  {
    if files == [] then [] else ConcatDays(files[..|files| - 1]) + files[|files| - 1].days
  }

  /** Day d of file i is day TotalDays(files[..i]) + d of the merged array. */
  lemma {:induction false} ConcatDaysAt(files: seq<DataArray>, i: nat, d: nat)
    requires i < |files| && d < |files[i].days|
    ensures TotalDays(files[..i]) + d < TotalDays(files)
    ensures ConcatDays(files)[TotalDays(files[..i]) + d] == files[i].days[d]
    decreases |files|
  {
    var n := |files|;
    var init := files[..n - 1];
    assert files[..n] == files;
    TotalDaysPrefix(files, i, n);
    if i < n - 1 {
      assert init[..i] == files[..i];
      ConcatDaysAt(init, i, d);
    }
  }

  /** The merged array keeps the first file's coordinates. */
  function Merged(files: seq<DataArray>): DataArray
    requires files != []
  {
    DataArray(files[0].lat, files[0].lon, ConcatDays(files))
  }

  /** Merging well-shaped files over the same grid gives a well-shaped array. */
  lemma MergedWellShaped(files: seq<DataArray>)
    requires files != [] && SameGrid(files)
    requires forall i :: 0 <= i < |files| ==> WellShaped(files[i])
    ensures WellShaped(Merged(files))
  {
    var days := ConcatDays(files);
    forall p | 0 <= p < |days| ensures IsGrid(days[p], |files[0].lat|, |files[0].lon|) {
      var i, d := DayOrigin(files, p);
      ConcatDaysAt(files, i, d);
    }
  }

  /** Every day of the merged array comes from one file. */
  lemma {:induction false} DayOrigin(files: seq<DataArray>, p: nat) returns (i: nat, d: nat)
    requires p < TotalDays(files)
    ensures i < |files| && d < |files[i].days| && p == TotalDays(files[..i]) + d
    decreases |files|
  {
    var n := |files|;
    var init := files[..n - 1];
    if p < TotalDays(init) {
      i, d := DayOrigin(init, p);
      assert init[..i] == files[..i];
    } else {
      i, d := n - 1, p - TotalDays(init);
    }
  }

  /** A merged day comes from one (file, day) position only. */
  lemma DayOriginUnique(files: seq<DataArray>, i: nat, d: nat, i2: nat, d2: nat)
    requires i < |files| && d < |files[i].days|
    requires i2 < |files| && d2 < |files[i2].days|
    requires TotalDays(files[..i]) + d == TotalDays(files[..i2]) + d2
    ensures i == i2 && d == d2
  {
    if i < i2 {
      TotalDaysPrefix(files, i, i2);
    } else if i2 < i {
      TotalDaysPrefix(files, i2, i);
    }
  }

  function Repeat(y: int, count: nat): (r: seq<int>)
    ensures |r| == count && forall k :: 0 <= k < count ==> r[k] == y
  {
    seq(count, _ => y)
  }

  /** The year labels built from one year per file: years[i] once for every
      day of file i, in file order. */
  function Labels(years: seq<int>, files: seq<DataArray>): (r: seq<int>)
    requires |years| <= |files|
    ensures |r| == TotalDays(files[..|years|])
  {
    if years == [] then []
    else
      var n := |years|;
      assert files[..n][..n - 1] == files[..n - 1];
      Labels(years[..n - 1], files) + Repeat(years[n - 1], |files[n - 1].days|)
  }

  /** Every day of file i is labelled years[i]. */
  lemma {:induction false} LabelsAt(years: seq<int>, files: seq<DataArray>, i: nat, d: nat)
    requires |years| <= |files| && i < |years| && d < |files[i].days|
    ensures TotalDays(files[..i]) + d < |Labels(years, files)|
    ensures Labels(years, files)[TotalDays(files[..i]) + d] == years[i]
    decreases |years|
  {
    var n := |years|;
    TotalDaysPrefix(files, i, n);
    if i < n - 1 {
      LabelsAt(years[..n - 1], files, i, d);
    }
  }

  /** The fallback labels: 2000 for the first file, 2001 for the second, ... */
  function Sequential(count: nat): (r: seq<int>)
    ensures |r| == count && forall i :: 0 <= i < count ==> r[i] == 2000 + i
  {
    seq(count, i => 2000 + i)
  }

  /** When one year is given per file, the labels line up with the merged days:
      there are as many labels as days, and each day carries its file's year. */
  lemma LabelsMatchDays(years: seq<int>, files: seq<DataArray>, p: nat)
    requires |years| == |files| && p < TotalDays(files)
    ensures |Labels(years, files)| == |ConcatDays(files)|
    ensures exists i, d ::
      && 0 <= i < |files| && 0 <= d < |files[i].days| && p == TotalDays(files[..i]) + d
      && ConcatDays(files)[p] == files[i].days[d] && Labels(years, files)[p] == years[i]
  {
    assert files[..|years|] == files;
    var i, d := DayOrigin(files, p);
    ConcatDaysAt(files, i, d);
    LabelsAt(years, files, i, d);
  }

  datatype MergeError =
    | NoFilePaths                     // ValueError: the list of paths is empty
    | ReadError(file: nat)            // RuntimeError: file `file` (0-based) could not be read
    | CoordinateMismatch(number: nat) // ValueError: file number `number` (1-based) has another grid
    | YearsIndexError                 // IndexError: more years than files

  /** The year labels of the merged days: from the given years when there are
      any, otherwise from the time coordinate when pandas can read it
      (`timestamps`), otherwise 2000, 2001, ... per file. */
  function TimeYears(files: seq<DataArray>, years: seq<int>, timestamps: Option<seq<int>>): seq<int>
    requires |years| <= |files|
  {
    if years != [] then Labels(years, files)
    else if timestamps.Some? then timestamps.value
    else Labels(Sequential(|files|), files)
  }

  /** Without years and without readable timestamps, every day of file i is
      labelled 2000 + i. */
  lemma FallbackLabelsAt(files: seq<DataArray>, i: nat, d: nat)
    requires i < |files| && d < |files[i].days|
    ensures TotalDays(files[..i]) + d < |TimeYears(files, [], None)|
    ensures TimeYears(files, [], None)[TotalDays(files[..i]) + d] == 2000 + i
  {
    LabelsAt(Sequential(|files|), files, i, d);
  }

  /** The reading loop of `merge_nc_files`: the arrays of all the files, in
      order, or the first file that could not be read. */
  method ReadFiles(outcomes: seq<FileRead>) returns (r: Result<seq<DataArray>, MergeError>)
    ensures r.Ok? <==> AllLoaded(outcomes)
    ensures r.Ok? ==> r.value == Arrays(outcomes)
    ensures r.Err? ==> r.error.ReadError? && FirstFailedRead(outcomes, r.error.file)
  {
    var datasets: seq<DataArray> := [];
    var i := 0;
    while i < |outcomes|
      invariant 0 <= i <= |outcomes|
      invariant |datasets| == i
      invariant forall j :: 0 <= j < i ==> outcomes[j].Loaded? && datasets[j] == outcomes[j].contents
    {
      match outcomes[i] {
        case ReadFailed =>
          return Err(ReadError(i));
        case Loaded(a) =>
          datasets := datasets + [a];
      }
      i := i + 1;
    }
    return Ok(datasets);
  }

  /** The coordinate check of `merge_nc_files`: the first file (0-based) whose
      lat or lon differ from the first file's, if any. */
  method CheckGrid(datasets: seq<DataArray>) returns (mismatch: Option<nat>)
    ensures mismatch.None? <==> SameGrid(datasets)
    ensures mismatch.Some? ==> FirstMismatch(datasets, mismatch.value)
  {
    if |datasets| > 1 {
      var first := datasets[0];
      var k := 1;
      while k < |datasets|
        invariant 1 <= k <= |datasets|
        invariant forall j :: 1 <= j < k ==> SameCoordinates(datasets[j], first)
      {
        var latMatch := AllClose(datasets[k].lat, first.lat);
        var lonMatch := AllClose(datasets[k].lon, first.lon);
        if !(latMatch && lonMatch) {
          return Some(k);
        }
        k := k + 1;
      }
    }
    return None;
  }

  /** The labelling loop of `merge_nc_files`: years[i] once per day of file i,
      or the IndexError raised when there are more years than files. */
  method LabelDays(years: seq<int>, datasets: seq<DataArray>) returns (r: Result<seq<int>, MergeError>)
    ensures r.Ok? <==> |years| <= |datasets|
    ensures r.Ok? ==> r.value == Labels(years, datasets)
    ensures r.Err? ==> r.error == YearsIndexError
  {
    var timeYears: seq<int> := [];
    var y := 0;
    while y < |years|
      invariant 0 <= y <= |years| && y <= |datasets|
      invariant timeYears == Labels(years[..y], datasets)
    {
      if y >= |datasets| {
        return Err(YearsIndexError);
      }
      assert years[..y + 1][..y] == years[..y];
      timeYears := timeYears + Repeat(years[y], |datasets[y].days|);
      y := y + 1;
    }
    assert years[..y] == years;
    return Ok(timeYears);
  }

  /** `merge_nc_files`: the merged array and the year of each of its days, or
      the first error met. */
  method MergeFiles(outcomes: seq<FileRead>, years: seq<int>, timestamps: Option<seq<int>>)
    returns (r: Result<(DataArray, seq<int>), MergeError>)
    ensures r == Err(NoFilePaths) <==> outcomes == []
    ensures forall i: nat :: r == Err(ReadError(i)) <==> FirstFailedRead(outcomes, i)
    ensures forall k: nat :: r == Err(CoordinateMismatch(k)) <==> AllLoaded(outcomes) && FirstMismatch(Arrays(outcomes), k - 1)
    ensures r == Err(YearsIndexError) <==>
      outcomes != [] && AllLoaded(outcomes) && SameGrid(Arrays(outcomes)) && |years| > |outcomes|
    ensures r.Ok? ==>
      && outcomes != [] && AllLoaded(outcomes) && SameGrid(Arrays(outcomes)) && |years| <= |outcomes|
      && r.value.0 == Merged(Arrays(outcomes))
      && r.value.1 == TimeYears(Arrays(outcomes), years, timestamps)
  {
    if outcomes == [] {
      return Err(NoFilePaths);
    }
    var read := ReadFiles(outcomes);
    if read.Err? {
      return Err(read.error);
    }
    var datasets := read.value;

    var mismatch := CheckGrid(datasets);
    if mismatch.Some? {
      return Err(CoordinateMismatch(mismatch.value + 1));
    }

    var merged := Merged(datasets);
    var timeYears: seq<int>;
    if years != [] {
      var labelled := LabelDays(years, datasets);
      if labelled.Err? {
        return Err(YearsIndexError);
      }
      timeYears := labelled.value;
    } else if timestamps.Some? {
      timeYears := timestamps.value;
    } else {
      var labelled := LabelDays(Sequential(|datasets|), datasets);
      timeYears := labelled.value;
    }
    r := Ok((merged, timeYears));
  }

  // ---------------------------------------------------------------------------
  // extract_coordinate_data
  // ---------------------------------------------------------------------------

  predicate StrictlyIncreasing(s: seq<int>) {
    forall i, j :: 0 <= i < j < |s| ==> s[i] < s[j]
  }

  /** Adds x to an ascending sequence of distinct values, unless it is there. */
  function InsertDistinct(x: int, r: seq<int>): (t: seq<int>)
    requires StrictlyIncreasing(r)
    ensures StrictlyIncreasing(t)
    ensures forall y :: y in t <==> y == x || y in r
  {
    if r == [] then [x]
    else if x < r[0] then [x] + r
    else if x == r[0] then r
    else
      var t := InsertDistinct(x, r[1..]);
      assert forall y :: y in r <==> y == r[0] || y in r[1..] by {
        assert r == [r[0]] + r[1..];
      }
      assert forall k :: 0 <= k < |t| ==> r[0] < t[k] by {
        forall k | 0 <= k < |t| ensures r[0] < t[k] {
          assert t[k] in t;
        }
      }
      [r[0]] + t
  }

  /** `np.unique`: the distinct values of s, ascending. */
  function UniqueSorted(s: seq<int>): (r: seq<int>)
    ensures StrictlyIncreasing(r)
    ensures forall y :: y in r <==> y in s
  {
    if s == [] then [] else InsertDistinct(s[|s| - 1], UniqueSorted(s[..|s| - 1]))
  }

  /** `np.where(labels == y)[0]`: the positions labelled y, ascending. */
  function Positions(labels: seq<int>, y: int): (r: seq<nat>)
    ensures forall k, l :: 0 <= k < l < |r| ==> r[k] < r[l]
    ensures forall k :: 0 <= k < |r| ==> r[k] < |labels| && labels[r[k]] == y
    ensures forall p :: 0 <= p < |labels| && labels[p] == y ==> p in r
  {
    if labels == [] then []
    else
      var n := |labels| - 1;
      Positions(labels[..n], y) + if labels[n] == y then [n] else []
  }

  /** There are as many positions labelled y as occurrences of y. */
  lemma {:induction false} PositionsCount(labels: seq<int>, y: int)
    ensures |Positions(labels, y)| == multiset(labels)[y]
  {
    if labels != [] {
      var n := |labels| - 1;
      assert labels == labels[..n] + [labels[n]];
      PositionsCount(labels[..n], y);
    }
  }

  predicate InRange(positions: seq<nat>, count: nat) {
    forall k :: 0 <= k < |positions| ==> positions[k] < count
  }

  /** `isel(time=positions)`: the days at the given positions. */
  function Select(days: seq<Grid>, positions: seq<nat>): (r: seq<Grid>)
    requires InRange(positions, |days|)
    ensures |r| == |positions| && forall k :: 0 <= k < |r| ==> r[k] == days[positions[k]]
  {
    seq(|positions|, k requires 0 <= k < |positions| => days[positions[k]])
  }

  /** The sum of cell (i, j) over the days. */
  function SumCell(days: seq<Grid>, m: nat, n: nat, i: nat, j: nat): real
    requires AllGrids(days, m, n) && i < m && j < n
  {
    if days == [] then 0.0
    else SumCell(days[..|days| - 1], m, n, i, j) + days[|days| - 1][i][j]
  }

  /** The largest value of cell (i, j) over a nonempty stack of days. */
  function MaxCell(days: seq<Grid>, m: nat, n: nat, i: nat, j: nat): (v: real)
    requires |days| > 0 && AllGrids(days, m, n) && i < m && j < n
    ensures forall d :: 0 <= d < |days| ==> days[d][i][j] <= v
    ensures exists d :: 0 <= d < |days| && days[d][i][j] == v
  {
    var last := days[|days| - 1][i][j];
    if |days| == 1 then last
    else
      var rest := MaxCell(days[..|days| - 1], m, n, i, j);
      if rest < last then last else rest
  }

  /** The smallest value of cell (i, j) over a nonempty stack of days. */
  function MinCell(days: seq<Grid>, m: nat, n: nat, i: nat, j: nat): (v: real)
    requires |days| > 0 && AllGrids(days, m, n) && i < m && j < n
    ensures forall d :: 0 <= d < |days| ==> v <= days[d][i][j]
    ensures exists d :: 0 <= d < |days| && days[d][i][j] == v
  {
    var last := days[|days| - 1][i][j];
    if |days| == 1 then last
    else
      var rest := MinCell(days[..|days| - 1], m, n, i, j);
      if last < rest then last else rest
  }

  /** `.mean(dim='time')`: the cellwise mean of a nonempty stack of days. */
  function MeanGrid(days: seq<Grid>, m: nat, n: nat): (g: Grid)
    requires |days| > 0 && AllGrids(days, m, n)
    ensures IsGrid(g, m, n)
  {
    seq(m, i requires 0 <= i < m =>
      seq(n, j requires 0 <= j < n => SumCell(days, m, n, i, j) / (|days| as real)))
  }

  /** `.max(dim='time')`: the cellwise maximum. */
  function MaxGrid(days: seq<Grid>, m: nat, n: nat): (g: Grid)
    requires |days| > 0 && AllGrids(days, m, n)
    ensures IsGrid(g, m, n)
  {
    seq(m, i requires 0 <= i < m => seq(n, j requires 0 <= j < n => MaxCell(days, m, n, i, j)))
  }

  /** `.min(dim='time')`: the cellwise minimum. */
  function MinGrid(days: seq<Grid>, m: nat, n: nat): (g: Grid)
    requires |days| > 0 && AllGrids(days, m, n)
    ensures IsGrid(g, m, n)
  {
    seq(m, i requires 0 <= i < m => seq(n, j requires 0 <= j < n => MinCell(days, m, n, i, j)))
  }

  /** A sum of |days| values that all lie in [lo, hi] lies in [|days| lo, |days| hi]. */
  lemma {:induction false} SumCellBounds(days: seq<Grid>, m: nat, n: nat, i: nat, j: nat, lo: real, hi: real)
    requires AllGrids(days, m, n) && i < m && j < n
    requires forall d :: 0 <= d < |days| ==> lo <= days[d][i][j] <= hi
    ensures (|days| as real) * lo <= SumCell(days, m, n, i, j) <= (|days| as real) * hi
  {
    if days != [] {
      var init := days[..|days| - 1];
      assert forall d :: 0 <= d < |init| ==> init[d] == days[d];
      SumCellBounds(init, m, n, i, j, lo, hi);
      assert lo <= days[|days| - 1][i][j] <= hi;
      assert (|days| as real) * lo == (|init| as real) * lo + lo;
      assert (|days| as real) * hi == (|init| as real) * hi + hi;
    }
  }

  lemma QuotientBetween(sum: real, c: real, lo: real, hi: real)
    requires c > 0.0 && c * lo <= sum <= c * hi
    ensures lo <= sum / c <= hi
  {
    assert sum / c * c == sum;
  }

  /** Each cell of the mean lies between that cell's minimum and maximum. */
  lemma MeanBetweenMinMax(days: seq<Grid>, m: nat, n: nat, i: nat, j: nat)
    requires |days| > 0 && AllGrids(days, m, n) && i < m && j < n
    ensures MinGrid(days, m, n)[i][j] <= MeanGrid(days, m, n)[i][j] <= MaxGrid(days, m, n)[i][j]
  {
    var lo, hi := MinCell(days, m, n, i, j), MaxCell(days, m, n, i, j);
    SumCellBounds(days, m, n, i, j, lo, hi);
    QuotientBetween(SumCell(days, m, n, i, j), |days| as real, lo, hi);
  }

  /** The value of one year: a lat x lon grid, a stack of day grids (mode
      "all"), or an array of another rank. */
  datatype YearArray = Grid2(grid: Grid) | Stack3(days: seq<Grid>) | OtherRank(shape: seq<nat>)

  /** One entry of the year dictionary. */
  datatype YearData = YearData(year: int, values: YearArray)

  predicate KnownAggregation(mode: string) {
    mode == "mean" || mode == "max" || mode == "min" || mode == "all"
  }

  datatype AggregationError =
    | TimeIndexOutOfRange(year: int)   // IndexError: a position labelled `year` is past the last day
    | UnknownAggregation(mode: string) // ValueError: the aggregation is none of the four

  lemma PositionsNonEmpty(labels: seq<int>, y: int)
    requires y in labels
    ensures |Positions(labels, y)| > 0
  {
    var k :| 0 <= k < |labels| && labels[k] == y;
    assert k in Positions(labels, y);
  }

  /** The aggregation of the days of one year, or None for an unknown mode. */
  function Aggregate(mode: string, selected: seq<Grid>, m: nat, n: nat): Option<YearArray>
    requires |selected| > 0 && AllGrids(selected, m, n)
  {
    if mode == "mean" then Some(Grid2(MeanGrid(selected, m, n)))
    else if mode == "max" then Some(Grid2(MaxGrid(selected, m, n)))
    else if mode == "min" then Some(Grid2(MinGrid(selected, m, n)))
    else if mode == "all" then Some(Stack3(selected))
    else None
  }

  /** The reduction of the days of one year, as the loop body does it: select the
      positions labelled y (an IndexError if one is past the last day), then
      apply the aggregation (a ValueError if it is unknown). */
  function AggregateYear(a: DataArray, labels: seq<int>, mode: string, y: int): Result<YearArray, AggregationError>
    requires WellShaped(a) && y in labels
  {
    var positions := Positions(labels, y);
    if !InRange(positions, |a.days|) then Err(TimeIndexOutOfRange(y))
    else
      PositionsNonEmpty(labels, y);
      match Aggregate(mode, Select(a.days, positions), |a.lat|, |a.lon|)
      case None => Err(UnknownAggregation(mode))
      case Some(v) => Ok(v)
  }

  /** The dictionary entry of year y, or the error of its reduction. */
  function YearEntry(a: DataArray, labels: seq<int>, mode: string, y: int): Result<YearData, AggregationError>
    requires WellShaped(a) && y in labels
  {
    match AggregateYear(a, labels, mode, y)
    case Err(e) => Err(e)
    case Ok(v) => Ok(YearData(y, v))
  }

  /** The body of the loop over the years, as a function of the year. */
  function YearStep(a: DataArray, labels: seq<int>, mode: string): int --> Result<YearData, AggregationError> {
    y requires WellShaped(a) && y in labels => YearEntry(a, labels, mode, y)
  }

  lemma YearStepApplies(a: DataArray, labels: seq<int>, mode: string, ys: seq<int>)
    requires WellShaped(a) && forall y :: y in ys ==> y in labels
    ensures forall j :: 0 <= j < |ys| ==> YearStep(a, labels, mode).requires(ys[j])
    ensures forall j :: 0 <= j < |ys| ==> YearStep(a, labels, mode)(ys[j]) == YearEntry(a, labels, mode, ys[j])
  {
    forall j | 0 <= j < |ys| ensures ys[j] in labels {
      MemberOfLabels(labels, ys, ys[j]);
    }
  }

  lemma MemberOfLabels(labels: seq<int>, ys: seq<int>, y: int)
    requires (forall x :: x in ys ==> x in labels) && y in ys
    ensures y in labels
  {
  }

  /** The dictionary built over the years ys, in order, or the first error. */
  function AggregateYears(a: DataArray, labels: seq<int>, mode: string, ys: seq<int>): Result<seq<YearData>, AggregationError>
    requires WellShaped(a) && forall y :: y in ys ==> y in labels
  {
    YearStepApplies(a, labels, mode, ys);
    CollectAll(YearStep(a, labels, mode), ys)
  }

  /** The dictionary is built exactly when no year of ys fails. */
  lemma AggregateYearsOk(a: DataArray, labels: seq<int>, mode: string, ys: seq<int>)
    requires WellShaped(a) && forall y :: y in ys ==> y in labels
    ensures AggregateYears(a, labels, mode, ys).Ok? <==>
      forall j :: 0 <= j < |ys| ==> AggregateYear(a, labels, mode, ys[j]).Ok?
  {
    YearStepApplies(a, labels, mode, ys);
    CollectAllOk(YearStep(a, labels, mode), ys);
  }

  /** The dictionary has one entry per year of ys, in the order of ys, holding
      that year's aggregation. */
  lemma AggregateYearsEntries(a: DataArray, labels: seq<int>, mode: string, ys: seq<int>)
    requires WellShaped(a) && forall y :: y in ys ==> y in labels
    requires AggregateYears(a, labels, mode, ys).Ok?
    ensures var d := AggregateYears(a, labels, mode, ys).value;
      && |d| == |ys|
      && forall j :: 0 <= j < |ys| ==>
        AggregateYear(a, labels, mode, ys[j]).Ok? && d[j] == YearData(ys[j], AggregateYear(a, labels, mode, ys[j]).value)
  {
    YearStepApplies(a, labels, mode, ys);
    CollectAllEntries(YearStep(a, labels, mode), ys);
  }

  /** A failed run reports the error of the first year that fails. */
  lemma AggregateYearsFirstError(a: DataArray, labels: seq<int>, mode: string, ys: seq<int>)
    requires WellShaped(a) && forall y :: y in ys ==> y in labels
    requires AggregateYears(a, labels, mode, ys).Err?
    ensures exists j ::
      && 0 <= j < |ys|
      && AggregateYear(a, labels, mode, ys[j]) == Err(AggregateYears(a, labels, mode, ys).error)
      && forall l :: 0 <= l < j ==> AggregateYear(a, labels, mode, ys[l]).Ok?
  {
    var f := YearStep(a, labels, mode);
    YearStepApplies(a, labels, mode, ys);
    CollectAllFirstError(f, ys);
    var j :| 0 <= j < |ys| && f(ys[j]) == Err(CollectAll(f, ys).error)
      && forall l :: 0 <= l < j ==> f(ys[l]).Ok?;
    assert AggregateYear(a, labels, mode, ys[j]) == Err(AggregateYears(a, labels, mode, ys).error);
  }

  /** Once a prefix of the years fails, the whole run fails with that error. */
  lemma AggregateYearsErrStops(a: DataArray, labels: seq<int>, mode: string, ys: seq<int>, k: nat)
    requires WellShaped(a) && forall y :: y in ys ==> y in labels
    requires k <= |ys| && AggregateYears(a, labels, mode, ys[..k]).Err?
    ensures AggregateYears(a, labels, mode, ys) == AggregateYears(a, labels, mode, ys[..k])
  {
    YearStepApplies(a, labels, mode, ys);
    CollectAllErrStops(YearStep(a, labels, mode), ys, k);
  }

  /** With a known aggregation and no label past the last day, every year succeeds. */
  lemma AggregateYearSucceeds(a: DataArray, labels: seq<int>, mode: string, y: int)
    requires WellShaped(a) && y in labels
    requires KnownAggregation(mode) && |labels| <= |a.days|
    ensures AggregateYear(a, labels, mode, y).Ok?
  {
  }

  /** A year fails when the aggregation is unknown or one of its positions is
      past the last day. */
  lemma AggregateYearFails(a: DataArray, labels: seq<int>, mode: string, p: nat)
    requires WellShaped(a) && p < |labels|
    requires !KnownAggregation(mode) || p >= |a.days|
    ensures AggregateYear(a, labels, mode, labels[p]).Err?
  {
    assert p in Positions(labels, labels[p]);
  }

  /** Extraction fails exactly when there is a label and either the aggregation
      is unknown or some label is past the last day; with no labels at all it
      succeeds with no years, whatever the aggregation. */
  lemma ExtractFails(a: DataArray, labels: seq<int>, mode: string)
    requires WellShaped(a)
    ensures AggregateYears(a, labels, mode, UniqueSorted(labels)).Err? <==>
      labels != [] && (!KnownAggregation(mode) || |labels| > |a.days|)
  {
    var ys := UniqueSorted(labels);
    AggregateYearsOk(a, labels, mode, ys);
    if labels == [] {
      assert ys == [];
    } else if !KnownAggregation(mode) || |labels| > |a.days| {
      var p := if |labels| > |a.days| then |labels| - 1 else 0;
      AggregateYearFails(a, labels, mode, p);
      assert labels[p] in ys;
    } else {
      forall j | 0 <= j < |ys| ensures AggregateYear(a, labels, mode, ys[j]).Ok? {
        AggregateYearSucceeds(a, labels, mode, ys[j]);
      }
    }
  }

  /** In mode "max", each cell of a year's grid is the largest value of that
      cell over exactly the days labelled with that year. */
  lemma MaxAggregation(a: DataArray, labels: seq<int>, y: int, i: nat, j: nat)
    requires WellShaped(a) && y in labels && AggregateYear(a, labels, "max", y).Ok?
    requires i < |a.lat| && j < |a.lon|
    ensures AggregateYear(a, labels, "max", y).value.Grid2?
    ensures var g := AggregateYear(a, labels, "max", y).value.grid;
      && IsGrid(g, |a.lat|, |a.lon|)
      && (forall p :: 0 <= p < |labels| && labels[p] == y ==> p < |a.days| && a.days[p][i][j] <= g[i][j])
      && (exists p :: 0 <= p < |labels| && labels[p] == y && p < |a.days| && a.days[p][i][j] == g[i][j])
  {
    var positions := Positions(labels, y);
    var selected := Select(a.days, positions);
    var v := MaxCell(selected, |a.lat|, |a.lon|, i, j);
    forall p | 0 <= p < |labels| && labels[p] == y ensures p < |a.days| && a.days[p][i][j] <= v {
      var k :| 0 <= k < |positions| && positions[k] == p;
      assert selected[k] == a.days[p];
    }
    var k :| 0 <= k < |selected| && selected[k][i][j] == v;
    assert labels[positions[k]] == y;
  }

  /** In mode "min", each cell of a year's grid is the smallest value of that
      cell over exactly the days labelled with that year. */
  lemma MinAggregation(a: DataArray, labels: seq<int>, y: int, i: nat, j: nat)
    requires WellShaped(a) && y in labels && AggregateYear(a, labels, "min", y).Ok?
    requires i < |a.lat| && j < |a.lon|
    ensures AggregateYear(a, labels, "min", y).value.Grid2?
    ensures var g := AggregateYear(a, labels, "min", y).value.grid;
      && IsGrid(g, |a.lat|, |a.lon|)
      && (forall p :: 0 <= p < |labels| && labels[p] == y ==> p < |a.days| && g[i][j] <= a.days[p][i][j])
      && (exists p :: 0 <= p < |labels| && labels[p] == y && p < |a.days| && a.days[p][i][j] == g[i][j])
  {
    var positions := Positions(labels, y);
    var selected := Select(a.days, positions);
    var v := MinCell(selected, |a.lat|, |a.lon|, i, j);
    forall p | 0 <= p < |labels| && labels[p] == y ensures p < |a.days| && v <= a.days[p][i][j] {
      var k :| 0 <= k < |positions| && positions[k] == p;
      assert selected[k] == a.days[p];
    }
    var k :| 0 <= k < |selected| && selected[k][i][j] == v;
    assert labels[positions[k]] == y;
  }

  /** In mode "mean", each cell of a year's grid lies between the cell of the
      "min" grid and that of the "max" grid of the same year. */
  lemma MeanAggregation(a: DataArray, labels: seq<int>, y: int, i: nat, j: nat)
    requires WellShaped(a) && y in labels && AggregateYear(a, labels, "mean", y).Ok?
    requires i < |a.lat| && j < |a.lon|
    ensures AggregateYear(a, labels, "min", y).Ok? && AggregateYear(a, labels, "max", y).Ok?
    ensures AggregateYear(a, labels, "min", y).value.grid[i][j]
      <= AggregateYear(a, labels, "mean", y).value.grid[i][j]
      <= AggregateYear(a, labels, "max", y).value.grid[i][j]
  {
    var positions := Positions(labels, y);
    var k :| 0 <= k < |labels| && labels[k] == y;
    assert k in positions;
    MeanBetweenMinMax(Select(a.days, positions), |a.lat|, |a.lon|, i, j);
  }

  /** In mode "all", a year keeps its days unreduced: one per position labelled
      with the year, in time order. */
  lemma AllAggregation(a: DataArray, labels: seq<int>, y: int)
    requires WellShaped(a) && y in labels && AggregateYear(a, labels, "all", y).Ok?
    ensures AggregateYear(a, labels, "all", y).value.Stack3?
    ensures var s := AggregateYear(a, labels, "all", y).value.days;
      && |s| == multiset(labels)[y]
      && forall k :: 0 <= k < |s| ==>
        var p := Positions(labels, y)[k];
        labels[p] == y && p < |a.days| && s[k] == a.days[p]
  {
    var positions := Positions(labels, y);
    AllKeepsSelection(a, labels, y);
    var s := Select(a.days, positions);
    assert |s| == |positions|;
    PositionsCount(labels, y);
  }

  lemma AllKeepsSelection(a: DataArray, labels: seq<int>, y: int)
    requires WellShaped(a) && y in labels && AggregateYear(a, labels, "all", y).Ok?
    ensures InRange(Positions(labels, y), |a.days|)
    ensures AggregateYear(a, labels, "all", y) == Ok(Stack3(Select(a.days, Positions(labels, y))))
  {
    var positions := Positions(labels, y);
    assert InRange(positions, |a.days|);
    PositionsNonEmpty(labels, y);
    var selected := Select(a.days, positions);
    AggregateAll(selected, |a.lat|, |a.lon|);
  }

  lemma AggregateAll(selected: seq<Grid>, m: nat, n: nat)
    requires |selected| > 0 && AllGrids(selected, m, n)
    ensures Aggregate("all", selected, m, n) == Some(Stack3(selected))
  {
    assert "all" != "mean" && "all" != "max" && "all" != "min";
  }

  /** One more year extends the run by that year's entry, or ends it with that year's error. */
  lemma AggregateYearsStep(a: DataArray, labels: seq<int>, mode: string, ys: seq<int>, j: nat, done: seq<YearData>)
    requires WellShaped(a) && forall y :: y in ys ==> y in labels
    requires j < |ys| && AggregateYears(a, labels, mode, ys[..j]) == Ok(done)
    ensures ys[j] in labels
    ensures AggregateYears(a, labels, mode, ys[..j + 1]) ==
      match AggregateYear(a, labels, mode, ys[j])
      case Err(e) => Err(e)
      case Ok(v) => Ok(done + [YearData(ys[j], v)])
  {
    YearStepApplies(a, labels, mode, ys);
    CollectAllStep(YearStep(a, labels, mode), ys, j, done);
  }

  /** `np.where(labels == y)[0]`, position by position. */
  method Where(labels: seq<int>, y: int) returns (positions: seq<nat>)
    ensures positions == Positions(labels, y)
  {
    positions := [];
    var t := 0;
    while t < |labels|
      invariant 0 <= t <= |labels|
      invariant positions == Positions(labels[..t], y)
    {
      assert labels[..t + 1][..t] == labels[..t];
      if labels[t] == y {
        positions := positions + [t];
      }
      t := t + 1;
    }
    assert labels[..t] == labels;
  }

  /** `extract_coordinate_data`: the coordinates of the array and the
      dictionary from each distinct year label, ascending, to the aggregation of
      its days. */
  method ExtractCoordinateData(a: DataArray, labels: seq<int>, mode: string)
    returns (lat: seq<real>, lon: seq<real>, r: Result<seq<YearData>, AggregationError>)
    requires WellShaped(a)
    ensures lat == a.lat && lon == a.lon
    ensures r == AggregateYears(a, labels, mode, UniqueSorted(labels))
  {
    lat, lon := a.lat, a.lon;
    var years := UniqueSorted(labels);
    var dict: seq<YearData> := [];
    var j := 0;
    while j < |years|
      invariant 0 <= j <= |years|
      invariant AggregateYears(a, labels, mode, years[..j]) == Ok(dict)
    {
      var year := years[j];
      AggregateYearsStep(a, labels, mode, years, j, dict);
      var positions := Where(labels, year);
      if !InRange(positions, |a.days|) {
        r := Err(TimeIndexOutOfRange(year));
        AggregateYearsErrStops(a, labels, mode, years, j + 1);
        return;
      }
      PositionsNonEmpty(labels, year);
      var aggregated := Aggregate(mode, Select(a.days, positions), |a.lat|, |a.lon|);
      if aggregated.None? {
        r := Err(UnknownAggregation(mode));
        AggregateYearsErrStops(a, labels, mode, years, j + 1);
        return;
      }
      dict := dict + [YearData(year, aggregated.value)];
      j := j + 1;
    }
    assert years[..j] == years;
    r := Ok(dict);
  }

  // ---------------------------------------------------------------------------
  // prepare_dataframe_data
  // ---------------------------------------------------------------------------

  /** `flatten()` of a grid: its rows one after the other (row-major order). */
  function Flatten(g: Grid): seq<real> {
    if g == [] then [] else Flatten(g[..|g| - 1]) + g[|g| - 1]
  }

  lemma DivMod(q: nat, r: nat, n: nat)
    requires r < n
    ensures (q * n + r) / n == q && (q * n + r) % n == r
  {
    var k := q * n + r;
    var d, m := k / n, k % n;
    assert k == d * n + m;
    assert (d - q) * n == r - m;
    MulAtLeast(d - q, n);
    MulAtLeast(q - d, n);
    assert (q - d) * n == m - r;
  }

  lemma {:induction false} FlattenLength(g: Grid, m: nat, n: nat)
    requires IsGrid(g, m, n)
    ensures |Flatten(g)| == m * n
  {
    if g != [] {
      var init := g[..m - 1];
      assert g == init + [g[m - 1]];
      FlattenLength(init, m - 1, n);
      assert |Flatten(g)| == |Flatten(init)| + n;
      assert (m - 1) * n + n == m * n;
    }
  }

  /** Entry k of a flattened m x n grid is the cell at row k / n, column k % n. */
  lemma {:induction false} FlattenAt(g: Grid, m: nat, n: nat, k: nat)
    requires IsGrid(g, m, n) && k < m * n
    ensures k / n < m && k % n < n && |Flatten(g)| == m * n
    ensures Flatten(g)[k] == g[k / n][k % n]
  {
    var init := g[..m - 1];
    FlattenLength(init, m - 1, n);
    FlattenLength(g, m, n);
    if k < (m - 1) * n {
      FlattenAt(init, m - 1, n, k);
    } else {
      DivMod(m - 1, k - (m - 1) * n, n);
    }
  }

  /** `np.meshgrid(lon, lat)`: the latitude grid, whose row i is lat[i] throughout. */
  function LatGrid(lat: seq<real>, lon: seq<real>): (g: Grid)
    ensures IsGrid(g, |lat|, |lon|)
  {
    seq(|lat|, i requires 0 <= i < |lat| => seq(|lon|, _ => lat[i]))
  }

  /** `np.meshgrid(lon, lat)`: the longitude grid, every row of which is lon. */
  function LonGrid(lat: seq<real>, lon: seq<real>): (g: Grid)
    ensures IsGrid(g, |lat|, |lon|)
  {
    seq(|lat|, _ => lon)
  }

  /** The coordinate columns have a row per (lat, lon) pair, and row k holds
      lat[k / |lon|] and lon[k % |lon|]. */
  lemma CoordinateColumns(lat: seq<real>, lon: seq<real>, k: nat)
    requires k < |lat| * |lon|
    ensures |Flatten(LatGrid(lat, lon))| == |Flatten(LonGrid(lat, lon))| == |lat| * |lon|
    ensures k / |lon| < |lat| && k % |lon| < |lon|
    ensures Flatten(LatGrid(lat, lon))[k] == lat[k / |lon|]
    ensures Flatten(LonGrid(lat, lon))[k] == lon[k % |lon|]
  {
    FlattenAt(LatGrid(lat, lon), |lat|, |lon|, k);
    FlattenAt(LonGrid(lat, lon), |lat|, |lon|, k);
  }

  /** Every (lat, lon) pair has a row: lat[i] and lon[j] sit together at row
      i * |lon| + j. */
  lemma CoordinatePairRow(lat: seq<real>, lon: seq<real>, i: nat, j: nat)
    requires i < |lat| && j < |lon|
    ensures i * |lon| + j < |lat| * |lon|
    ensures |Flatten(LatGrid(lat, lon))| == |Flatten(LonGrid(lat, lon))| == |lat| * |lon|
    ensures Flatten(LatGrid(lat, lon))[i * |lon| + j] == lat[i]
    ensures Flatten(LonGrid(lat, lon))[i * |lon| + j] == lon[j]
  {
    var n := |lon|;
    MulMono(i + 1, |lat|, n);
    assert (i + 1) * n == i * n + n;
    DivMod(i, j, n);
    CoordinateColumns(lat, lon, i * n + j);
  }

  /** Column k of `reshape(-1, m * n)` summed over its rows: row d is the
      flattened day d. */
  function FlatSum(days: seq<Grid>, m: nat, n: nat, k: nat): real
    requires AllGrids(days, m, n) && k < m * n
  {
    if days == [] then 0.0
    else
      FlattenLength(days[|days| - 1], m, n);
      FlatSum(days[..|days| - 1], m, n, k) + Flatten(days[|days| - 1])[k]
  }

  /** `reshape(-1, m * n).mean(axis=0)` of a nonempty stack of m x n days. */
  function StackedMean(days: seq<Grid>, m: nat, n: nat): (r: seq<real>)
    requires |days| > 0 && AllGrids(days, m, n)
    ensures |r| == m * n
  {
    seq(m * n, k requires 0 <= k < m * n => FlatSum(days, m, n, k) / (|days| as real))
  }

  lemma {:induction false} FlatSumIsSumCell(days: seq<Grid>, m: nat, n: nat, k: nat)
    requires AllGrids(days, m, n) && k < m * n
    ensures k / n < m && k % n < n
    ensures FlatSum(days, m, n, k) == SumCell(days, m, n, k / n, k % n)
  {
    FlattenAt(LatGrid(seq(m, _ => 0.0), seq(n, _ => 0.0)), m, n, k);
    if days != [] {
      FlatSumIsSumCell(days[..|days| - 1], m, n, k);
      FlattenAt(days[|days| - 1], m, n, k);
    }
  }

  /** Averaging the days after flattening them (the tabulation of mode "all")
      gives the flattened cellwise mean (the tabulation of mode "mean"). */
  lemma StackedMeanIsMean(days: seq<Grid>, m: nat, n: nat)
    requires |days| > 0 && AllGrids(days, m, n)
    ensures StackedMean(days, m, n) == Flatten(MeanGrid(days, m, n))
  {
    var g := MeanGrid(days, m, n);
    FlattenLength(g, m, n);
    forall k | 0 <= k < m * n ensures StackedMean(days, m, n)[k] == Flatten(g)[k] {
      StackedMeanAt(days, m, n, k);
    }
  }

  /** Entry k of the reshaped mean is the mean of cell (k / n, k mod n). */
  lemma StackedMeanAt(days: seq<Grid>, m: nat, n: nat, k: nat)
    requires |days| > 0 && AllGrids(days, m, n) && k < m * n
    ensures |Flatten(MeanGrid(days, m, n))| == m * n
    ensures StackedMean(days, m, n)[k] == Flatten(MeanGrid(days, m, n))[k]
  {
    var g := MeanGrid(days, m, n);
    FlatSumIsSumCell(days, m, n, k);
    FlattenAt(g, m, n, k);
  }

  datatype PrepareError =
    | UnexpectedShape(shape: seq<nat>) // ValueError: neither 2 nor 3 dimensions
    | ReshapeFailed                    // ValueError: `reshape(-1, 0)` of a stack of days on an empty grid

  /** An array of mode "all" is a nonempty stack of m x n days. */
  predicate Tabulable(v: YearArray, m: nat, n: nat) {
    v.Stack3? ==> |v.days| > 0 && AllGrids(v.days, m, n)
  }

  /** The column of one year: a grid is flattened, a stack of days averaged
      per cell after flattening, any other rank rejected. numpy cannot infer
      the `-1` of `reshape(-1, 0)`, so a stack on a grid without cells fails. */
  function YearColumn(v: YearArray, m: nat, n: nat): Result<seq<real>, PrepareError>
    requires Tabulable(v, m, n)
  {
    match v
    case Grid2(g) => Ok(Flatten(g))
    case Stack3(days) => if m * n == 0 then Err(ReshapeFailed) else Ok(StackedMean(days, m, n))
    case OtherRank(shape) => Err(UnexpectedShape(shape))
  }

  /** The year loop raises a ValueError for v. */
  predicate Untabulable(v: YearArray, m: nat, n: nat) {
    v.OtherRank? || (v.Stack3? && m * n == 0)
  }

  /** e is the ValueError the year loop raises for v. */
  predicate RaisedFor(v: YearArray, m: nat, n: nat, e: PrepareError) {
    || (v.OtherRank? && e == UnexpectedShape(v.shape))
    || (v.Stack3? && m * n == 0 && e == ReshapeFailed)
  }

  /** Mode "all" and mode "mean" give the same column for a year on a grid
      with cells; on a grid without cells "all" fails where "mean" gives an
      empty column. */
  lemma AllTabulatesAsMean(a: DataArray, labels: seq<int>, y: int)
    requires WellShaped(a) && y in labels && AggregateYear(a, labels, "all", y).Ok?
    ensures AggregateYear(a, labels, "mean", y).Ok?
    ensures AggregateYear(a, labels, "all", y).value.Stack3?
    ensures |a.lat| * |a.lon| > 0 ==>
      YearColumn(AggregateYear(a, labels, "all", y).value, |a.lat|, |a.lon|)
      == YearColumn(AggregateYear(a, labels, "mean", y).value, |a.lat|, |a.lon|)
    ensures |a.lat| * |a.lon| == 0 ==>
      && YearColumn(AggregateYear(a, labels, "all", y).value, |a.lat|, |a.lon|) == Err(ReshapeFailed)
      && YearColumn(AggregateYear(a, labels, "mean", y).value, |a.lat|, |a.lon|) == Ok([])
  {
    var selected := Select(a.days, Positions(labels, y));
    PositionsNonEmpty(labels, y);
    StackedMeanIsMean(selected, |a.lat|, |a.lon|);
    FlattenLength(MeanGrid(selected, |a.lat|, |a.lon|), |a.lat|, |a.lon|);
  }

  /** A year's column has one entry per (lat, lon) row when its array has the grid's shape. */
  lemma YearColumnLength(v: YearArray, m: nat, n: nat)
    requires Tabulable(v, m, n)
    requires v.Grid2? ==> IsGrid(v.grid, m, n)
    ensures YearColumn(v, m, n).Ok? ==> |YearColumn(v, m, n).value| == m * n
  {
    if v.Grid2? {
      FlattenLength(v.grid, m, n);
    }
  }

  function YearOf(d: YearData): int {
    d.year
  }

  /** The column name `<variable>_<year>`. */
  function ColumnName(variable: string, year: int): (name: string)
    ensures |name| > |variable| && name[|variable|] == '_'
  {
    variable + "_" + IntToDecimal(year)
  }

  /** Different years give different column names, none of them "lat" or "lon". */
  lemma ColumnNamesDistinct(variable: string, y1: int, y2: int)
    ensures ColumnName(variable, y1) == ColumnName(variable, y2) ==> y1 == y2
    ensures ColumnName(variable, y1) != "lat" && ColumnName(variable, y1) != "lon"
  {
    var n1, n2 := ColumnName(variable, y1), ColumnName(variable, y2);
    assert n1[|variable| + 1..] == IntToDecimal(y1);
    assert n2[|variable| + 1..] == IntToDecimal(y2);
    if n1 == n2 {
      IntToDecimalInjective(y1, y2);
    }
    assert forall c :: c in "lat" || c in "lon" ==> c != '_';
    assert n1[|variable|] == '_';
  }

  /** The columns of strictly ascending years, after `lat` and `lon`, all have distinct names. */
  lemma PreparedNamesDistinct(variable: string, sorted: seq<YearData>, cols: seq<Column>)
    requires |cols| == |sorted| + 2 && cols[0].name == "lat" && cols[1].name == "lon"
    requires forall j, l :: 0 <= j < l < |sorted| ==> sorted[j].year < sorted[l].year
    requires forall j :: 0 <= j < |sorted| ==> cols[j + 2].name == ColumnName(variable, sorted[j].year)
    ensures DistinctNames(cols)
  {
    forall j, l | 0 <= j < l < |cols| ensures cols[j].name != cols[l].name {
      if j >= 2 {
        ColumnNamesDistinct(variable, sorted[j - 2].year, sorted[l - 2].year);
      } else if l >= 2 {
        ColumnNamesDistinct(variable, sorted[l - 2].year, sorted[l - 2].year);
      }
    }
  }

  /** The body of the year loop of `prepare_dataframe_data`: a 2-D array is
      flattened, a 3-D one averaged over its days, any other rank refused. */
  method TabulateYear(v: YearArray, m: nat, n: nat) returns (r: Result<seq<real>, PrepareError>)
    requires Tabulable(v, m, n)
    ensures r == YearColumn(v, m, n)
    ensures r.Err? <==> Untabulable(v, m, n)
    ensures r.Err? ==> RaisedFor(v, m, n, r.error)
  {
    match v {
      case Grid2(g) =>
        r := Ok(Flatten(g));
      case Stack3(days) =>
        if m * n == 0 {
          r := Err(ReshapeFailed);
        } else {
          r := Ok(StackedMean(days, m, n));
        }
      case OtherRank(shape) =>
        r := Err(UnexpectedShape(shape));
    }
  }

  /** The body of the year loop as a function of the item: its named column,
      or the error the loop raises for its array. */
  function NamedColumn(variable: string, m: nat, n: nat): YearData --> Result<Column, PrepareError> {
    (d: YearData) requires Tabulable(d.values, m, n) =>
      match YearColumn(d.values, m, n)
      case Err(e) => Err(e)
      case Ok(c) => Ok(Column(ColumnName(variable, d.year), c))
  }

  /** When the loop over the first j items completes, it has added one named
      column per item, each that item's column. */
  lemma NamedColumnsPrefix(items: seq<YearData>, variable: string, m: nat, n: nat, j: nat, added: seq<Column>)
    requires forall l :: 0 <= l < |items| ==> Tabulable(items[l].values, m, n)
    requires j <= |items| && CollectAll(NamedColumn(variable, m, n), items[..j]) == Ok(added)
    ensures |added| == j
    ensures forall l :: 0 <= l < j ==>
      && !Untabulable(items[l].values, m, n)
      && added[l].name == ColumnName(variable, items[l].year)
      && YearColumn(items[l].values, m, n) == Ok(added[l].values)
  {
    var f := NamedColumn(variable, m, n);
    var prefix := items[..j];
    assert forall l :: 0 <= l < j ==> prefix[l] == items[l];
    CollectAllEntries(f, prefix);
    forall l | 0 <= l < j
      ensures !Untabulable(items[l].values, m, n)
      ensures added[l].name == ColumnName(variable, items[l].year)
      ensures YearColumn(items[l].values, m, n) == Ok(added[l].values)
    {
      assert f(prefix[l]) == Ok(added[l]);
    }
  }

  /** The year loop of `prepare_dataframe_data`: after the given columns, one
      column per item, in the order of the items, or the error for the first
      item whose array the loop cannot tabulate. */
  method AddYearColumns(front: seq<Column>, items: seq<YearData>, variable: string, m: nat, n: nat)
    returns (r: Result<seq<Column>, PrepareError>)
    requires forall j :: 0 <= j < |items| ==> Tabulable(items[j].values, m, n)
    ensures r.Ok? <==> forall j :: 0 <= j < |items| ==> !Untabulable(items[j].values, m, n)
    ensures r.Err? ==>
      exists j ::
        && 0 <= j < |items|
        && RaisedFor(items[j].values, m, n, r.error)
        && forall l :: 0 <= l < j ==> !Untabulable(items[l].values, m, n)
    ensures r.Ok? ==>
      && |r.value| == |front| + |items|
      && r.value[..|front|] == front
      && forall j :: 0 <= j < |items| ==>
        && r.value[|front| + j].name == ColumnName(variable, items[j].year)
        && YearColumn(items[j].values, m, n) == Ok(r.value[|front| + j].values)
  {
    ghost var f := NamedColumn(variable, m, n);
    var added: seq<Column> := [];
    var j := 0;
    while j < |items|
      invariant 0 <= j <= |items|
      invariant CollectAll(f, items[..j]) == Ok(added)
    {
      var column := TabulateYear(items[j].values, m, n);
      CollectAllStep(f, items, j, added);
      if column.Err? {
        NamedColumnsPrefix(items, variable, m, n, j, added);
        return Err(column.error);
      }
      added := added + [Column(ColumnName(variable, items[j].year), column.value)];
      j := j + 1;
    }
    assert items[..j] == items;
    NamedColumnsPrefix(items, variable, m, n, j, added);
    var result := front + added;
    assert forall l :: 0 <= l < |items| ==> result[|front| + l] == added[l];
    r := Ok(result);
  }

  /** `sorted(data_dict.items())`: the entries of the dictionary in ascending year order. */
  function SortedItems(data: seq<YearData>): (items: seq<YearData>)
    requires Sorting.DistinctKeys(data, YearOf)
    ensures |items| == |data|
    ensures forall d :: d in items <==> d in data
    ensures forall j, l :: 0 <= j < l < |items| ==> items[j].year < items[l].year
  {
    var sorted := Sorting.SortByKey(data, YearOf);
    Sorting.SortByKeyStrict(data, YearOf);
    assert forall d :: d in data ==> d in multiset(sorted);
    sorted
  }

  /** `prepare_dataframe_data`: the columns `lat` and `lon`, one row per
      (lat, lon) pair in row-major order, then one column per year, in ascending
      year order; or the error for the first year whose array cannot be tabulated. */
  method PrepareDataframeData(lat: seq<real>, lon: seq<real>, data: seq<YearData>, variable: string)
    returns (r: Result<seq<Column>, PrepareError>)
    requires Sorting.DistinctKeys(data, YearOf)
    requires forall d :: d in data ==> Tabulable(d.values, |lat|, |lon|)
    ensures r.Ok? <==> forall j :: 0 <= j < |data| ==> !Untabulable(data[j].values, |lat|, |lon|)
    ensures r.Err? ==>
      var items := SortedItems(data);
      exists j ::
        && 0 <= j < |items|
        && RaisedFor(items[j].values, |lat|, |lon|, r.error)
        && forall l :: 0 <= l < j ==> !Untabulable(items[l].values, |lat|, |lon|)
    ensures r.Ok? ==>
      var items := SortedItems(data);
      var cols := r.value;
      && |cols| == |data| + 2
      && cols[0] == Column("lat", Flatten(LatGrid(lat, lon)))
      && cols[1] == Column("lon", Flatten(LonGrid(lat, lon)))
      && (forall j :: 0 <= j < |data| ==>
            && cols[j + 2].name == ColumnName(variable, items[j].year)
            && YearColumn(items[j].values, |lat|, |lon|) == Ok(cols[j + 2].values))
      && DistinctNames(cols)
  {
    var items := SortedItems(data);
    var front := [Column("lat", Flatten(LatGrid(lat, lon))), Column("lon", Flatten(LonGrid(lat, lon)))];
    r := AddYearColumns(front, items, variable, |lat|, |lon|);
    if r.Ok? {
      assert r.value[0] == front[0] && r.value[1] == front[1];
      PreparedNamesDistinct(variable, items, r.value);
    }
  }
}
