# CMIP6 file management, modelled in Dafny

The modelled program converts a set of per-year CMIP6 NetCDF files into an
Excel table, in five steps:

1. Discover the files of one model, scenario and variable, and read the year
   of each file from its name.
2. Concatenate the daily lat × lon grids of the files along time and label
   every day with a year.
3. Reduce each year's days to one grid: mean, max or min, or keep them all.
4. Lay the grid out as one row per (lat, lon) pair, with one column per year.
5. Write the table to one or more Excel sheets.

The model has six modules, one file each:

- `common.dfy` (`Common`):
  - the `Result`/`Option` types and the named `Column` of a table;
  - decimal digits, with Python's `int(...)` on a digit string and `str(n)`.
- `sorting.dfy` (`Sorting`): Python's stable `sort(key=...)` and
  `sorted(...)` on an integer key, as an insertion sort. Three facts pin down
  the stable sort, and all three are proved:
  - the result is ordered by key;
  - it is a permutation of the input;
  - for each key, the elements with that key keep their relative order.
- `config.py` becomes `config.dfy` (`Config`):
  - the constants;
  - the input directory and output path builders, with pathlib's splitting of
    a path text into components.
- `utils/file_handler.py` becomes `file_handler.dfy` (`FileHandler`):
  - year extraction with the pattern `_(\d{4})_`;
  - file discovery over a given directory listing.
- `utils/nc_reader.py` becomes `nc_reader.dfy` (`NcReader`):
  - merging the files' arrays and labelling their days with years;
  - per-year aggregation;
  - the row-per-coordinate layout.
- `utils/excel_writer.py` becomes `excel_writer.dfy` (`ExcelWriter`):
  - the `lat`/`lon` key check;
  - the column reordering;
  - the split of a long table into numbered sheets.

Modelling choices:

- The source updates only local lists in loops, so there are no classes:
  - discovery, merging, extraction, tabulation and writing are methods with
    loops;
  - each method is proved equal to a specification function;
  - the properties are proved as lemmas about those functions.
- Where the source calls a library, the call becomes a function:
  - `list.sort`, `np.unique`, `np.where`;
  - `xr.concat`, `isel`, `.mean/.max/.min`;
  - `np.meshgrid` with `flatten`, and `DataFrame.iloc`.
- Inputs that come from outside the program are parameters:
  - whether the input directory exists, and its listing of `*.nc` names;
  - the outcome of reading each file;
  - the years pandas reads from the time coordinate.

Behaviours of the code worth knowing:

- Discovery orders the files by year non-decreasingly. Two files with the same
  year are both kept, in listing order (`list.sort` is stable).
- The grid comparison is `np.allclose(..., atol=0.01)`, which adds numpy's
  default relative tolerance of 1e-5 × |reference| to the absolute 0.01.
- An unknown aggregation mode is an error only when there is at least one
  labelled day. With no labels, the loop never reaches the check.
- The "all" aggregation keeps every day of a year. However,
  `prepare_dataframe_data` averages such a stack per cell, so on a grid
  with cells its column equals the "mean" column. On an empty lat or lon
  axis, "all" raises the ValueError of `reshape(-1, 0)`, while "mean" gives
  an empty column (`NcReader.AllTabulatesAsMean`).
- A negative sheet size is not modelled. A sheet size of 0 on a non-empty
  table divides by zero in the sheet count; the model reports that as an
  error.

## Model

| member | source | states |
|---|---|---|
| Common.NatToDecimal | utils/excel_writer.py:66 | `str(n)` of a natural number is a non-empty digit string, with a leading '0' exactly when n is 0 |
| Common.DecimalRoundTrip | utils/file_handler.py:30 | `int(str(n)) == n`: the digits written for a number read back as that number |
| Common.IntToDecimalInjective | utils/nc_reader.py:227 | different years render as different decimal texts |
| Common.CollectAllOk | utils/nc_reader.py:155-173 | a loop that stops at the first exception completes exactly when no element raises |
| Common.CollectAllEntries | utils/nc_reader.py:155-173 | a completed loop has one result per element, in order, each the result of that element |
| Common.CollectAllFirstError | utils/nc_reader.py:155-173 | a loop that fails reports the error of the first element that raises, every earlier one having succeeded |
| Common.CollectAllStep | utils/nc_reader.py:155-173 | one more element either appends its result or ends the loop with its error |
| Common.CollectAllErrStops | utils/nc_reader.py:155-173 | once the loop has failed, later elements do not change its outcome |
| Sorting.InsertByKeySorted | utils/file_handler.py:80 | inserting into a key-ordered sequence keeps it ordered |
| Sorting.InsertByKeyStable | utils/file_handler.py:80 | insertion puts the new element after every element with the same key |
| Sorting.SortByKey | utils/file_handler.py:80 | `sort(key=...)` gives a key-ordered permutation of the input that keeps each key's elements in input order |
| Sorting.StableSortUnique | utils/file_handler.py:80 | any key-ordered sequence that keeps every key's elements in input order is the stable sort |
| Sorting.SortedEqualByKeys | utils/file_handler.py:80 | two key-ordered sequences with the same elements under every key are equal |
| Sorting.SortByKeyStrict | utils/nc_reader.py:216 | sorting dictionary items, whose keys are distinct, orders them strictly by key |
| Config.Components | config.py:69 | the path components of a text have no separator and are neither empty nor "." |
| Config.ComponentsCons | config.py:69 | a component followed by a separator splits off as the first component |
| Config.InputDirectoryParts | config.py:52-69 | with separator-free names, the input directory is `<base>/<model> <scenario>/CMIP6 Files_<variable>` |
| Config.ReplaceSpacesAt | config.py:85-86 | `replace(" ", "_")` keeps the length, turns each space into '_' and keeps every other character |
| Config.ReplaceSpacesSpaceFree | config.py:85-86 | a cleaned name has no space |
| Config.ReplaceSpacesKeepsSpaceFree | config.py:85-86 | a name without spaces is left unchanged by the cleaning |
| Config.ReplaceSpacesIdempotent | config.py:85-86 | cleaning twice is cleaning once |
| Config.ReplaceSpacesSeparators | config.py:85-86 | cleaning neither adds nor removes a path separator |
| Config.ReplaceSpacesAppend | config.py:85-86 | cleaning distributes over concatenation |
| Config.OutputFilenameShape | config.py:84-92 | the file name is the cleaned model name, '_', the cleaned scenario, '_', the variable unchanged, then ".xlsx" |
| Config.OutputFilenameSpaceFree | config.py:84-92 | the file name has no space exactly when the variable name has none |
| Config.OutputFilenameCollides | config.py:84-92 | model and scenario names that differ only by spaces against underscores share one output file |
| Config.OutputFilenameNoSeparator | config.py:84-92 | separator-free names give a separator-free file name |
| Config.OutputPathDirectlyUnderBase | config.py:94-98 | with separator-free names, the output file lies directly in the base output directory |
| Config.OutputPathNestedBySeparator | config.py:94-98 | a '/' in the model name puts the output file into a subdirectory of the output directory |
| FileHandler.YearAt | utils/file_handler.py:30 | the four digits of a match spell a year from 0 to 9999 |
| FileHandler.LeftmostMatchFrom | utils/file_handler.py:27 | `re.search` finds the leftmost position where `_dddd_` matches, or reports that there is none |
| FileHandler.ExtractYear | utils/file_handler.py:11-30 | the name carries `_dddd_` exactly when a year comes back; the year is the value of the leftmost match; otherwise the ValueError names the file |
| FileHandler.FourDigitsValue | utils/file_handler.py:30 | the zero-padded four digits of a year read back as that year |
| FileHandler.ExtractYearOfNamedFile | utils/file_handler.py:11-30 | a year written as `_dddd_` after a prefix in which no '_' is followed by a digit is the year extracted, whatever follows |
| FileHandler.ExtractYearDocumentedExample | utils/file_handler.py:15-16 | the documented example file name gives 2035 |
| FileHandler.MatchedExactly | utils/file_handler.py:64-77 | discovery keeps exactly the names with a year, each with that year, and skips exactly the others; the two lists partition the listing |
| FileHandler.DiscoverFiles | utils/file_handler.py:33-82 | FileNotFoundError exactly when the directory is missing; a ValueError exactly for an empty listing; a ValueError exactly when no name has a year; success exactly when the directory exists and some name has a year, with every named file with its year, a non-decreasing permutation that keeps listing order within a year, and the skipped names |
| NcReader.ConcatDays | utils/nc_reader.py:98 | the merged time axis has as many days as all the files together |
| NcReader.ConcatDaysAt | utils/nc_reader.py:98 | day d of file i sits at position (days of files before i) + d of the merged axis |
| NcReader.DayOrigin | utils/nc_reader.py:98 | every merged day comes from a (file, day) position |
| NcReader.DayOriginUnique | utils/nc_reader.py:98 | no two (file, day) positions land on the same merged day |
| NcReader.MergedWellShaped | utils/nc_reader.py:72-98 | files on the first file's grid merge into an array whose every day is a lat × lon grid |
| NcReader.Labels | utils/nc_reader.py:102-107 | labelling from the given years yields one label per day of the labelled files |
| NcReader.LabelsAt | utils/nc_reader.py:102-107 | every day of file i is labelled with year i |
| NcReader.FallbackLabelsAt | utils/nc_reader.py:116-120 | without years and without readable timestamps, every day of file i is labelled 2000 + i |
| NcReader.LabelsMatchDays | utils/nc_reader.py:98-107 | with one year per file there are as many labels as merged days, and each merged day carries the year of the file it came from |
| NcReader.ReadFiles | utils/nc_reader.py:60-69 | the reading loop gives every file's array, in order, exactly when all files are read, and otherwise a RuntimeError for the first unreadable file |
| NcReader.CheckGrid | utils/nc_reader.py:72-94 | the coordinate check passes exactly when every file matches the first file's grid, and otherwise reports the first file that does not |
| NcReader.LabelDays | utils/nc_reader.py:102-107 | the labelling loop succeeds exactly when there are no more years than files, and then labels every day of file i with year i |
| NcReader.MergeFiles | utils/nc_reader.py:35-122 | ValueError exactly for no paths; RuntimeError naming exactly the first unreadable file; ValueError naming exactly the first file (1-based) off the first file's grid; IndexError exactly for more years than files; otherwise the concatenated array and the given, timestamp or fallback years |
| NcReader.InsertDistinct | utils/nc_reader.py:150 | adding a year to an ascending list of distinct years keeps it ascending and distinct |
| NcReader.UniqueSorted | utils/nc_reader.py:150 | `np.unique` gives the years that occur, each once, strictly ascending |
| NcReader.Positions | utils/nc_reader.py:156-158 | `np.where(years == year)` gives, in ascending order, exactly the positions labelled with that year |
| NcReader.PositionsCount | utils/nc_reader.py:156-158 | there are as many positions as labels equal to the year |
| NcReader.MaxCell | utils/nc_reader.py:164 | the max of a cell over the days is one of its values and bounds all of them |
| NcReader.MinCell | utils/nc_reader.py:166 | the min of a cell over the days is one of its values and is below all of them |
| NcReader.MeanBetweenMinMax | utils/nc_reader.py:161-166 | the mean of a cell lies between its min and its max |
| NcReader.AggregateYearsOk | utils/nc_reader.py:155-173 | the loop over the years succeeds exactly when every year aggregates |
| NcReader.AggregateYearsEntries | utils/nc_reader.py:155-173 | on success there is one entry per unique year, in that order, holding that year's aggregate |
| NcReader.AggregateYearsFirstError | utils/nc_reader.py:155-173 | on failure the error is that of the first year that fails |
| NcReader.AggregateYearsErrStops | utils/nc_reader.py:155-173 | once a year fails, later years do not change the outcome |
| NcReader.AggregateYearsStep | utils/nc_reader.py:155-173 | one more year adds that year's entry to the dictionary, or ends extraction with that year's error |
| NcReader.AggregateYearSucceeds | utils/nc_reader.py:158-171 | with a known mode and no label past the last day, a year aggregates |
| NcReader.AggregateYearFails | utils/nc_reader.py:158-171 | an unknown mode, or a label past the last day, makes that year fail |
| NcReader.ExtractFails | utils/nc_reader.py:155-173 | extraction fails exactly when there is a label and either the mode is unknown or there are more labels than days |
| NcReader.MaxAggregation | utils/nc_reader.py:163-164 | "max" gives a lat × lon grid whose cells bound every day of the year and are attained on one of them |
| NcReader.MinAggregation | utils/nc_reader.py:165-166 | "min" gives a lat × lon grid whose cells are below every day of the year and are attained on one of them |
| NcReader.MeanAggregation | utils/nc_reader.py:161-166 | "mean" gives, cell by cell, a value between the "min" and the "max" aggregates |
| NcReader.AllAggregation | utils/nc_reader.py:167-169 | "all" keeps the days of the year, as many as its labels, in time order |
| NcReader.AllKeepsSelection | utils/nc_reader.py:167-169 | "all" returns exactly the days selected for the year, unreduced |
| NcReader.Where | utils/nc_reader.py:156-158 | the scan of the labels collects exactly the positions of the year |
| NcReader.ExtractCoordinateData | utils/nc_reader.py:125-176 | returns the array's lat and lon, and the aggregation of each unique year in ascending order or the first error |
| NcReader.FlattenLength | utils/nc_reader.py:206-207 | a flattened lat × lon grid has lat × lon entries |
| NcReader.FlattenAt | utils/nc_reader.py:206-207 | entry k of a flattened grid is cell (k / n, k mod n): row-major order |
| NcReader.LatGrid | utils/nc_reader.py:203 | the meshgrid of latitudes is a lat × lon grid |
| NcReader.LonGrid | utils/nc_reader.py:203 | the meshgrid of longitudes is a lat × lon grid |
| NcReader.CoordinateColumns | utils/nc_reader.py:200-207 | the coordinate columns have lat × lon rows, and row k is the pair (lat[k / n], lon[k mod n]) |
| NcReader.CoordinatePairRow | utils/nc_reader.py:200-207 | every pair (lat[i], lon[j]) has a row: row i × n + j |
| NcReader.StackedMean | utils/nc_reader.py:223 | `reshape(-1, m*n).mean(axis=0)` has one value per cell; it is used only when m × n > 0, because `YearColumn` raises the reshape error on a grid without cells |
| NcReader.FlatSumIsSumCell | utils/nc_reader.py:223 | summing a reshaped column sums that cell over the days |
| NcReader.StackedMeanIsMean | utils/nc_reader.py:223 | the reshaped mean is the flattened per-cell mean |
| NcReader.StackedMeanAt | utils/nc_reader.py:223 | entry k of the reshaped mean is the mean of cell (k / n, k mod n) |
| NcReader.AllTabulatesAsMean | utils/nc_reader.py:218-223 | on a grid with cells, a year kept whole by "all" tabulates to the same column as its "mean"; on a grid without cells, "all" raises the reshape ValueError where "mean" gives an empty column |
| NcReader.YearColumnLength | utils/nc_reader.py:218-225 | a year's column has one value per (lat, lon) row |
| NcReader.ColumnName | utils/nc_reader.py:227 | the column name is the variable name, '_', then the year |
| NcReader.ColumnNamesDistinct | utils/nc_reader.py:227 | different years give different column names, and no year column is named "lat" or "lon" |
| NcReader.PreparedNamesDistinct | utils/nc_reader.py:210-228 | lat, lon and strictly ascending year columns have distinct names |
| NcReader.TabulateYear | utils/nc_reader.py:218-225 | a year's array becomes a column, except in two cases: a rank other than 2 or 3 raises a ValueError carrying its shape, and a rank-3 stack on a grid without cells raises the reshape ValueError |
| NcReader.NamedColumnsPrefix | utils/nc_reader.py:216-228 | when the year loop completes over the first j items, it has added j columns, each named after its item's year and holding that item's column |
| NcReader.AddYearColumns | utils/nc_reader.py:216-228 | adds one named column per item in order; fails exactly when some item's array cannot be tabulated (another rank, or a stack on a grid without cells), with the error of the first such item |
| NcReader.SortedItems | utils/nc_reader.py:216 | `sorted(data_dict.items())` holds the same entries, strictly ascending by year |
| NcReader.PrepareDataframeData | utils/nc_reader.py:179-230 | fails exactly when some year's array cannot be tabulated (another rank, or an "all" stack on an empty lat or lon axis), with the error of the first such year in year order; otherwise the flattened lat and lon columns, then one `<variable>_<year>` column per year in ascending order, all names distinct |
| ExcelWriter.IndexOf | utils/excel_writer.py:30 | a present key is found at a column of that name |
| ExcelWriter.OthersMembers | utils/excel_writer.py:45 | the non-coordinate columns are exactly the columns not named lat or lon |
| ExcelWriter.OthersLength | utils/excel_writer.py:45 | columns named lat, columns named lon and the others together are all the columns |
| ExcelWriter.OthersDistinct | utils/excel_writer.py:45 | the non-coordinate columns of a table with distinct names have distinct names |
| ExcelWriter.Reorder | utils/excel_writer.py:45-46 | the reordered table takes its columns from the table, and keeps the row count of equally long columns |
| ExcelWriter.ReorderPermutes | utils/excel_writer.py:45-46 | the reordered table is a permutation of the columns with lat first and lon second |
| ExcelWriter.ReorderHasAll | utils/excel_writer.py:45-46 | no column is lost by reordering |
| ExcelWriter.ReorderDistinct | utils/excel_writer.py:45-46 | the reordered columns keep distinct names |
| ExcelWriter.OthersAfterCoordinates | utils/excel_writer.py:45 | in a table starting with lat and lon, the other columns are the rest, in order |
| ExcelWriter.ReorderKeepsLatLonFirst | utils/excel_writer.py:45-46 | a table already starting with lat and lon is left as it is |
| ExcelWriter.SheetCountBounds | utils/excel_writer.py:58 | the ceiling division gives the least number of sheets that hold all rows, at least two when the table is too long for one |
| ExcelWriter.SheetStart | utils/excel_writer.py:62-63 | every sheet starts inside the table, and only the last one reaches its end |
| ExcelWriter.SplitSheets | utils/excel_writer.py:58-74 | a long table is split into the computed number of sheets, each with every column of the table |
| ExcelWriter.SplitSheetsAt | utils/excel_writer.py:62-65 | column c of sheet i holds rows i × max to min((i + 1) × max, rows) - 1 of column c, under the column's own name |
| ExcelWriter.SplitSheetsRuns | utils/excel_writer.py:61-65 | every sheet holds the next run of max rows of each column, the last run possibly shorter |
| ExcelWriter.ConcatRuns | utils/excel_writer.py:61-65 | sheets holding consecutive runs of a column, read in order, give the column's leading rows |
| ExcelWriter.SplitSheetsPrefix | utils/excel_writer.py:61-65 | the first k sheets together hold the first min(k × max, rows) rows of every column |
| ExcelWriter.SplitSheetsCover | utils/excel_writer.py:61-65 | reading the sheets in order gives back every column whole: no row is dropped or repeated |
| ExcelWriter.SplitSheetsSizes | utils/excel_writer.py:62-65 | every sheet but the last holds exactly max rows, and the last holds 1 to max rows |
| ExcelWriter.SplitOneRowOver | utils/excel_writer.py:58-65 | max + 1 rows give two sheets: the first max rows, then the last row |
| ExcelWriter.SplitSheetName | utils/excel_writer.py:66 | every sheet of a split table, the last one included, is named `<name>_<i + 1>` |
| ExcelWriter.SplitSheetsNames | utils/excel_writer.py:66 | the split sheets are named `<name>_1`, `<name>_2`, ..., all different |
| ExcelWriter.SplitIntoSheets | utils/excel_writer.py:58-74 | the loop over the sheets builds exactly the split |
| ExcelWriter.WriteToExcel | utils/excel_writer.py:11-81 | ValueError exactly when lat or lon is missing; DataFrame's length error exactly when columns differ in length; ZeroDivisionError exactly for a sheet size of 0 on a non-empty table; otherwise one sheet with lat and lon first when the rows fit, else the split with the default or given name and size |

## Left out

- `merge_nc_to_excel.py`, the command-line driver, is not modelled. It parses arguments, calls the steps above in order and prints the errors.
- `read_nc_file` (opening a file with xarray and picking the variable) is foreign code. Each path comes with the outcome of reading it, as an array or a failure. The error for a missing variable is a `ReadFailed` outcome.
- The pandas conversion of time coordinates to years is foreign code. Its result, or its failure, is the `timestamps` input of `NcReader.MergeFiles`.
- `xr.concat` aligns coordinates with an outer join. When two files' lat or lon pass `np.allclose` without being identical, xarray takes the union of both axes: the merged grid is larger, padded with NaN, and the table gets more rows. The model keeps the first file's lat and lon and its grid size, so it does not capture that growth.
- `NcReader.AllClose`: numpy broadcasting of coordinate vectors of different lengths and NaN comparisons are not modelled. Vectors of different lengths count as a mismatch.
- Cell values are exact reals. Floating-point rounding, NaN and the NaN-skipping reductions of xarray are not modelled.
- `FileHandler.ExtractYear`: `\d` is taken as the ASCII digits 0-9. Python also accepts other Unicode decimal digits.
- `FileHandler.DiscoverFiles`: the `*.nc` glob is not modelled; the listing is given. The printed warnings are returned as the list of skipped names.
- Paths: the base directory of a path is one opaque string. Absolute components and drive letters inside the joined text are not modelled.
- `validate_coordinate_consistency` and `get_file_info` in `utils/file_handler.py` are not modelled. They check or report; the pipeline does not depend on them.
- `validate_excel_file`, `validate_paths`, the creation of the output directory and the writing of the Excel file itself are file I/O. They are not modelled.
- Excel's own limits on sheet-name length and characters are not modelled. `CHUNK_SIZE`, the default model, scenario, variable and aggregation, and the lists of available models, scenarios and variables are not modelled; the core does not use them.
- `NcReader.PrepareDataframeData`: requires every kept stack of days to be non-empty, with the lat × lon shape of each day. A stack on a grid without cells is modelled: it raises the reshape ValueError. Other day shapes, which numpy's reshape would accept or reject, are not modelled.
- `NcReader.ExtractCoordinateData`: requires every day of the array to be a lat × lon grid, which an xarray DataArray with dimensions (time, lat, lon) guarantees.
- `ExcelWriter.WriteToExcel`: the sheet size is a natural number, so a negative `max_rows_per_sheet` is not modelled. Column names are distinct, as the keys of a dictionary are.
