/**
 * Discovery of the per-year NetCDF files (utils/file_handler.py): the year of a
 * file is read from the leftmost `_dddd_` in its name; names without one are
 * skipped with a warning; the (file, year) pairs are sorted by year.
 *
 * The directory listing is an input sequence of file names (the `*.nc` files
 * of the input directory, in listing order), and whether the directory exists
 * is an input flag.
 */
module FileHandler {
  import opened Common
  import Sorting

  /** The pattern `_(\d{4})_` matches at position i of s. */
  predicate MatchesAt(s: string, i: int) {
    && 0 <= i && i + 6 <= |s|
    && s[i] == '_'
    && IsDigit(s[i + 1]) && IsDigit(s[i + 2]) && IsDigit(s[i + 3]) && IsDigit(s[i + 4])
    && s[i + 5] == '_'
  }

  predicate HasYear(s: string) {
    exists i :: 0 <= i < |s| && MatchesAt(s, i)
  }

  /** i is where `re.search` finds the pattern: a match with none to its left. */
  predicate IsLeftmostMatch(s: string, i: int) {
    MatchesAt(s, i) && forall j :: 0 <= j < i ==> !MatchesAt(s, j)
  }

  /** `int(match.group(1))`: the value of the four digits of the match at i. */
  function YearAt(s: string, i: int): (y: int)
    requires MatchesAt(s, i)
    ensures 0 <= y <= 9999
  {
    var digits := s[i + 1..i + 5];
    DecimalValueBound(digits);
    assert Pow10(4) == 10000;
    DecimalValue(digits)
  }

  /** The leftmost position at or after `from` where the pattern matches. */
  function LeftmostMatchFrom(s: string, from: nat): (r: Option<nat>)
    requires from <= |s|
    ensures r.Some? ==>
      && from <= r.value && MatchesAt(s, r.value)
      && forall j :: from <= j < r.value ==> !MatchesAt(s, j)
    ensures r.None? ==> forall j :: from <= j ==> !MatchesAt(s, j)
    decreases |s| - from
  {
    if from + 6 > |s| then None
    else if MatchesAt(s, from) then Some(from)
    else LeftmostMatchFrom(s, from + 1)
  }

  datatype YearError = NoYearIn(filename: string)

  /** `extract_year_from_filename`: the year of the leftmost `_dddd_`, or the
      ValueError naming the file when there is none. */
  function ExtractYear(filename: string): (r: Result<int, YearError>)
    ensures r.Ok? <==> HasYear(filename)
    ensures r.Err? ==> r.error == NoYearIn(filename)
    ensures r.Ok? ==> 0 <= r.value <= 9999
    ensures r.Ok? ==> forall i :: IsLeftmostMatch(filename, i) ==> r.value == YearAt(filename, i)
  {
    match LeftmostMatchFrom(filename, 0)
    case None => Err(NoYearIn(filename))
    case Some(i) =>
      assert forall j :: IsLeftmostMatch(filename, j) ==> j == i by {
        forall j | IsLeftmostMatch(filename, j) ensures j == i {
        }
      }
      Ok(YearAt(filename, i))
  }

  /** The four digits that spell a year 0..9999, zero-padded. */
  function FourDigits(y: nat): (s: string)
    requires y <= 9999
    ensures |s| == 4 && AllDigits(s)
  {
    var q1 := y / 10;
    var q2 := q1 / 10;
    [DigitChar(q2 / 10), DigitChar(q2 % 10), DigitChar(q1 % 10), DigitChar(y % 10)]
  }

  lemma DecimalValueSnoc(s: string, c: char)
    requires AllDigits(s) && IsDigit(c)
    ensures AllDigits(s + [c]) && DecimalValue(s + [c]) == 10 * DecimalValue(s) + DigitValue(c)
  {
    assert (s + [c])[..|s|] == s;
  }

  lemma FourDigitsValue(y: nat)
    requires y <= 9999
    ensures DecimalValue(FourDigits(y)) == y
  {
    var q1 := y / 10;
    var q2 := q1 / 10;
    var s := FourDigits(y);
    assert s == [s[0]] + [s[1]] + [s[2]] + [s[3]];
    assert DecimalValue([s[0]]) == q2 / 10 by {
      DecimalValueSnoc([], s[0]);
    }
    DecimalValueSnoc([s[0]], s[1]);
    DecimalValueSnoc([s[0]] + [s[1]], s[2]);
    DecimalValueSnoc([s[0]] + [s[1]] + [s[2]], s[3]);
  }

  /** No '_' of s is directly followed by a digit, so no match starts inside s. */
  predicate NoUnderscoreDigit(s: string) {
    forall j :: 0 <= j < |s| - 1 ==> !(s[j] == '_' && IsDigit(s[j + 1]))
  }

  lemma NoUnderscoreDigitAppend(a: string, b: string)
    requires NoUnderscoreDigit(a) && NoUnderscoreDigit(b)
    requires a != [] && b != [] ==> !(a[|a| - 1] == '_' && IsDigit(b[0]))
    ensures NoUnderscoreDigit(a + b)
  {
    var s := a + b;
    forall j | 0 <= j < |s| - 1 ensures !(s[j] == '_' && IsDigit(s[j + 1])) {
      if j + 1 < |a| {
        assert s[j] == a[j] && s[j + 1] == a[j + 1];
      } else if j + 1 == |a| {
        assert s[j] == a[|a| - 1] && s[j + 1] == b[0];
      } else {
        assert s[j] == b[j - |a|] && s[j + 1] == b[j + 1 - |a|];
      }
    }
  }

  /** Round trip: a year written as `_dddd_` after a prefix in which no '_' is
      followed by a digit is the year read back, whatever follows it. */
  lemma ExtractYearOfNamedFile(prefix: string, y: nat, suffix: string)
    requires NoUnderscoreDigit(prefix) && y <= 9999
    ensures ExtractYear(prefix + "_" + FourDigits(y) + "_" + suffix) == Ok(y)
  {
    var s := prefix + "_" + FourDigits(y) + "_" + suffix;
    var i := |prefix|;
    assert s[i + 1..i + 5] == FourDigits(y);
    assert MatchesAt(s, i);
    forall j | 0 <= j < i ensures !MatchesAt(s, j) {
      assert s[j] == prefix[j];
      if j + 1 < i {
        assert s[j + 1] == prefix[j + 1];
      }
    }
    assert IsLeftmostMatch(s, i);
    FourDigitsValue(y);
  }

  /** The documented example file name up to its year, written in five pieces. */
  function DocumentedPrefix(): string {
    "QDC-CMIP6__" + "tasmax_day_" + "ACCESS-CM2_" + "ssp585_r4i1" + "p1f1_AUS-05"
  }

  lemma DocumentedPrefixClean()
    ensures NoUnderscoreDigit(DocumentedPrefix())
  {
    var c1, c2, c3, c4, c5 := "QDC-CMIP6__", "tasmax_day_", "ACCESS-CM2_", "ssp585_r4i1", "p1f1_AUS-05";
    assert NoUnderscoreDigit(c1);
    assert NoUnderscoreDigit(c2);
    assert NoUnderscoreDigit(c3);
    assert NoUnderscoreDigit(c4);
    assert NoUnderscoreDigit(c5);
    NoUnderscoreDigitAppend(c1, c2);
    NoUnderscoreDigitAppend(c1 + c2, c3);
    NoUnderscoreDigitAppend(c1 + c2 + c3, c4);
    NoUnderscoreDigitAppend(c1 + c2 + c3 + c4, c5);
  }

  /** The file name of the function's own documentation,
      `QDC-CMIP6__tasmax_day_ACCESS-CM2_ssp585_r4i1p1f1_AUS-05_2035_...`, gives 2035. */
  lemma ExtractYearDocumentedExample(rest: string)
    ensures ExtractYear(DocumentedPrefix() + "_2035_" + rest) == Ok(2035)
  {
    var head := DocumentedPrefix();
    DocumentedPrefixClean();
    assert FourDigits(2035) == "2035";
    ExtractYearOfNamedFile(head, 2035, rest);
    assert head + "_" + "2035" + "_" + rest == head + "_2035_" + rest;
  }

  /** One discovered file: its name and the year read from it. */
  datatype FileEntry = FileEntry(name: string, year: int)

  function Year(e: FileEntry): int {
    e.year
  }

  /** The (file, year) pairs the discovery loop appends, in listing order. */
  function Matched(names: seq<string>): seq<FileEntry> {
    if names == [] then []
    else
      var name := names[|names| - 1];
      Matched(names[..|names| - 1])
        + match ExtractYear(name) { case Ok(y) => [FileEntry(name, y)] case Err(_) => [] }
  }

  /** The names the discovery loop warns about and skips, in listing order. */
  function Skipped(names: seq<string>): seq<string> {
    if names == [] then []
    else
      var name := names[|names| - 1];
      Skipped(names[..|names| - 1]) + if HasYear(name) then [] else [name]
  }

  /** Discovery keeps exactly the files whose names carry a year, each with
      that year, and skips exactly the others: the two lists partition the listing. */
  lemma {:induction false} MatchedExactly(names: seq<string>)
    ensures forall e :: e in Matched(names) <==> e.name in names && ExtractYear(e.name) == Ok(e.year)
    ensures forall n :: n in Skipped(names) <==> n in names && !HasYear(n)
    ensures |Matched(names)| + |Skipped(names)| == |names|
    ensures Matched(names) == [] <==> forall n :: n in names ==> !HasYear(n)
  {
    if names != [] {
      var init, name := names[..|names| - 1], names[|names| - 1];
      assert names == init + [name];
      MatchedExactly(init);
      if Matched(names) == [] {
        forall n | n in names ensures !HasYear(n) {
          if n in init {
          } else {
            assert n == name;
          }
        }
      }
    }
  }

  datatype DiscoveryError =
    | InputDirectoryNotFound      // FileNotFoundError: the input directory does not exist
    | NoNetCdfFiles               // ValueError: the directory holds no .nc file
    | NoYearsExtracted            // ValueError: no file name carries a year

  /** `discover_nc_files` over a given listing: the sorted (file, year) pairs,
      or the error; `skipped` lists the names warned about. */
  method DiscoverFiles(directoryExists: bool, listing: seq<string>)
    returns (r: Result<seq<FileEntry>, DiscoveryError>, skipped: seq<string>)
    ensures r == Err(InputDirectoryNotFound) <==> !directoryExists
    ensures r == Err(NoNetCdfFiles) <==> directoryExists && listing == []
    ensures r.Ok? <==> directoryExists && exists n :: n in listing && HasYear(n)
    ensures directoryExists && listing != [] ==>
      (r == Err(NoYearsExtracted) <==> forall n :: n in listing ==> !HasYear(n))
    ensures r.Ok? ==> directoryExists && r.value == Sorting.SortByKey(Matched(listing), Year)
    ensures r.Ok? ==> r.value != [] && Sorting.SortedBy(r.value, Year)
    ensures r.Ok? ==> multiset(r.value) == multiset(Matched(listing))
    ensures r.Ok? ==> forall y :: Sorting.WithKey(r.value, Year, y) == Sorting.WithKey(Matched(listing), Year, y)
    ensures r.Ok? ==> forall e :: e in r.value <==> e.name in listing && ExtractYear(e.name) == Ok(e.year)
    ensures directoryExists && listing != [] ==> skipped == Skipped(listing)
  {
    skipped := [];
    if !directoryExists {
      return Err(InputDirectoryNotFound), skipped;
    }
    if listing == [] {
      return Err(NoNetCdfFiles), skipped;
    }
    var files: seq<FileEntry> := [];
    var i := 0;
    while i < |listing|
      invariant 0 <= i <= |listing|
      invariant files == Matched(listing[..i])
      invariant skipped == Skipped(listing[..i])
    {
      var name := listing[i];
      assert listing[..i + 1][..i] == listing[..i];
      match ExtractYear(name) {
        case Ok(y) =>
          files := files + [FileEntry(name, y)];
        case Err(_) =>
          skipped := skipped + [name];
      }
      i := i + 1;
    }
    assert listing[..i] == listing;
    MatchedExactly(listing);
    if files == [] {
      return Err(NoYearsExtracted), skipped;
    }
    var sorted := Sorting.SortByKey(files, Year);
    forall e ensures e in sorted <==> e in files {
      assert e in sorted <==> e in multiset(sorted);
    }
    r := Ok(sorted);
  }
}
