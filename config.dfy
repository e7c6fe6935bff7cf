/**
 * The configuration of the converter: base paths, the year pattern,
 * the directory and output-file naming, and the spreadsheet limits; with the two
 * path builders `get_input_directory` and `get_output_path`.
 *
 * A path is modelled the way pathlib (Windows flavour) builds it when a relative
 * text is joined to a base directory: the text is split at '/' and '\' and empty
 * and "." components are dropped. The base directory itself stays one opaque
 * anchor string.
 */
module Config {

  const BaseInputPath: string := "C:\\Users\\ibian\\Desktop\\ClimAdapt\\CMIP6"
  const BaseOutputPath: string := "C:\\Users\\ibian\\Desktop\\ClimAdapt\\CMIP6\\ACCESS CM2 xlsx"

  /** The regular expression the file discovery uses; FileHandler.MatchesAt implements it. */
  const YearPattern: string := "_(\\d{4})_"

  const ExcelSheetName: string := "Data"
  const ExcelMaxRowsPerSheet: nat := 1000000

  /** The character that replaces every space of the model and scenario names in the output file name. */
  const OutputFilenameSeparator: char := '_'

  /** A path: a base directory (kept as one string) and the components below it. */
  datatype Path = Path(anchor: string, parts: seq<string>)

  predicate IsSeparator(c: char) {
    c == '/' || c == '\\'
  }

  predicate NoSeparator(s: string) {
    forall i :: 0 <= i < |s| ==> !IsSeparator(s[i])
  }

  lemma NoSeparatorAppend(x: string, y: string)
    requires NoSeparator(x) && NoSeparator(y)
    ensures NoSeparator(x + y)
  {
    assert forall i :: |x| <= i < |x + y| ==> (x + y)[i] == y[i - |x|];
  }

  /** The index of the first separator of s, or |s| when there is none. */
  function SeparatorIndex(s: string): (k: nat)
    ensures k <= |s| && NoSeparator(s[..k])
    ensures k < |s| ==> IsSeparator(s[k])
  {
    if s == [] || IsSeparator(s[0]) then 0
    else
      var k := 1 + SeparatorIndex(s[1..]);
      assert forall i :: 1 <= i < k ==> s[..k][i] == s[1..][..k - 1][i - 1];
      k
  }

  /** The components pathlib keeps from a relative path text. */
  function Components(s: string): (parts: seq<string>)
    ensures forall i :: 0 <= i < |parts| ==> parts[i] != [] && parts[i] != "." && NoSeparator(parts[i])
    decreases |s|
  {
    var k := SeparatorIndex(s);
    var rest := if k < |s| then Components(s[k + 1..]) else [];
    if s[..k] == [] || s[..k] == "." then rest else [s[..k]] + rest
  }

  /** `base / text` */
  function Join(base: string, text: string): Path {
    Path(base, Components(text))
  }

  /** A single component followed by a separator splits off as that component. */
  lemma ComponentsCons(a: string, sep: char, rest: string)
    requires NoSeparator(a) && a != [] && a != "."
    requires IsSeparator(sep)
    ensures Components(a + [sep] + rest) == [a] + Components(rest)
  {
    var s := a + [sep] + rest;
    SeparatorIndexOf(a, sep, rest);
    assert s[..|a|] == a;
    assert s[|a| + 1..] == rest;
  }

  lemma {:induction false} SeparatorIndexOf(a: string, sep: char, rest: string)
    requires NoSeparator(a) && IsSeparator(sep)
    ensures SeparatorIndex(a + [sep] + rest) == |a|
  {
    if a != [] {
      assert (a + [sep] + rest)[1..] == a[1..] + [sep] + rest;
      SeparatorIndexOf(a[1..], sep, rest);
    }
  }

  /** A text without separators is one component (unless it is empty or "."). */
  lemma ComponentsOfName(a: string)
    requires NoSeparator(a) && a != [] && a != "."
    ensures Components(a) == [a]
  {
    assert a[..|a|] == a;
  }

  /** Python's `s.replace(" ", "_")`. */
  function ReplaceSpaces(s: string): string {
    if s == [] then []
    else [if s[0] == ' ' then OutputFilenameSeparator else s[0]] + ReplaceSpaces(s[1..])
  }

  /** Replacing keeps the length, turns each space into '_' and keeps every other character. */
  lemma {:induction false} ReplaceSpacesAt(s: string)
    ensures |ReplaceSpaces(s)| == |s|
    ensures forall i :: 0 <= i < |s| ==>
      ReplaceSpaces(s)[i] == if s[i] == ' ' then '_' else s[i]
  {
    if s != [] {
      ReplaceSpacesAt(s[1..]);
    }
  }

  lemma ReplaceSpacesSpaceFree(s: string)
    ensures ' ' !in ReplaceSpaces(s)
  {
    ReplaceSpacesAt(s);
  }

  /** A name without spaces is left as it is; so replacing twice is replacing once. */
  lemma ReplaceSpacesKeepsSpaceFree(s: string)
    requires ' ' !in s
    ensures ReplaceSpaces(s) == s
  {
    ReplaceSpacesAt(s);
  }

  lemma ReplaceSpacesIdempotent(s: string)
    ensures ReplaceSpaces(ReplaceSpaces(s)) == ReplaceSpaces(s)
  {
    ReplaceSpacesSpaceFree(s);
    ReplaceSpacesKeepsSpaceFree(ReplaceSpaces(s));
  }

  /** Replacing spaces adds no separator and removes none. */
  lemma ReplaceSpacesSeparators(s: string)
    ensures NoSeparator(ReplaceSpaces(s)) <==> NoSeparator(s)
  {
    ReplaceSpacesAt(s);
    var r := ReplaceSpaces(s);
    assert forall i :: 0 <= i < |s| ==> (IsSeparator(r[i]) <==> IsSeparator(s[i]));
  }

  /** `DIRECTORY_PATTERN.format(model=..., scenario=..., variable=...)` */
  function DirectoryName(model: string, scenario: string, variable: string): string {
    model + " " + scenario + "/CMIP6 Files_" + variable + "/"
  }

  /** `OUTPUT_FILENAME_PATTERN.format(...)` with the model and scenario names cleaned. */
  function OutputFilename(model: string, scenario: string, variable: string): string {
    ReplaceSpaces(model) + "_" + ReplaceSpaces(scenario) + "_" + variable + ".xlsx"
  }

  function InputDirectory(model: string, scenario: string, variable: string): Path {
    Join(BaseInputPath, DirectoryName(model, scenario, variable))
  }

  function OutputPath(model: string, scenario: string, variable: string): Path {
    Join(BaseOutputPath, OutputFilename(model, scenario, variable))
  }

  /** With separator-free names the input directory is
      `<base>/<model> <scenario>/CMIP6 Files_<variable>`, names unmodified. */
  lemma InputDirectoryParts(model: string, scenario: string, variable: string)
    requires NoSeparator(model) && NoSeparator(scenario) && NoSeparator(variable)
    ensures InputDirectory(model, scenario, variable)
         == Path(BaseInputPath, [model + " " + scenario, "CMIP6 Files_" + variable])
  {
    var first := model + " " + scenario;
    var second := "CMIP6 Files_" + variable;
    assert NoSeparator(first) by {
      assert forall i :: 0 <= i < |first| ==> first[i] == if i < |model| then model[i] else if i == |model| then ' ' else scenario[i - |model| - 1];
    }
    assert NoSeparator(second) by {
      assert forall i :: 0 <= i < |second| ==> second[i] == if i < 12 then "CMIP6 Files_"[i] else variable[i - 12];
    }
    assert first != "." by { assert |first| >= 1 && (|first| == 1 ==> first[0] == ' '); }
    assert second != "." by { assert |second| >= 12; }
    assert DirectoryName(model, scenario, variable) == first + ['/'] + (second + ['/'] + []);
    ComponentsCons(first, '/', second + ['/'] + []);
    ComponentsCons(second, '/', []);
  }

  /** The output file name is `<model>_<scenario>_<variable>.xlsx`: every space
      of the model and scenario names becomes '_', the variable name is inserted
      as it is. */
  lemma OutputFilenameShape(model: string, scenario: string, variable: string)
    ensures var f := OutputFilename(model, scenario, variable);
      && |f| == |model| + |scenario| + |variable| + 7
      && f[..|model|] == ReplaceSpaces(model)
      && f[|model|] == '_'
      && f[|model| + 1..|model| + |scenario| + 1] == ReplaceSpaces(scenario)
      && f[|model| + |scenario| + 1] == '_'
      && f[|f| - 5..] == ".xlsx"
      && f[|model| + |scenario| + 2..|f| - 5] == variable
  {
    ReplaceSpacesAt(model);
    ReplaceSpacesAt(scenario);
  }

  /** The output file name has no space exactly when the variable name has none. */
  lemma OutputFilenameSpaceFree(model: string, scenario: string, variable: string)
    ensures ' ' !in OutputFilename(model, scenario, variable) <==> ' ' !in variable
  {
    ReplaceSpacesSpaceFree(model);
    ReplaceSpacesSpaceFree(scenario);
    var m, s := ReplaceSpaces(model), ReplaceSpaces(scenario);
    var f := OutputFilename(model, scenario, variable);
    assert f == (m + "_" + s + "_") + variable + ".xlsx";
    if ' ' in variable {
      var i :| 0 <= i < |variable| && variable[i] == ' ';
      assert f[|m + "_" + s + "_"| + i] == ' ';
    }
  }

  /** Names that differ only in spaces against underscores share one output file. */
  lemma OutputFilenameCollides(model: string, scenario: string, variable: string)
    ensures OutputFilename(ReplaceSpaces(model), ReplaceSpaces(scenario), variable)
         == OutputFilename(model, scenario, variable)
  {
    ReplaceSpacesIdempotent(model);
    ReplaceSpacesIdempotent(scenario);
  }

  /** The file name built from separator-free names has no separator. */
  lemma OutputFilenameNoSeparator(model: string, scenario: string, variable: string)
    requires NoSeparator(model) && NoSeparator(scenario) && NoSeparator(variable)
    ensures NoSeparator(OutputFilename(model, scenario, variable))
  {
    ReplaceSpacesSeparators(model);
    ReplaceSpacesSeparators(scenario);
    var m, s := ReplaceSpaces(model), ReplaceSpaces(scenario);
    assert NoSeparator("_") && NoSeparator(".xlsx");
    NoSeparatorAppend(m, "_");
    NoSeparatorAppend(m + "_", s);
    NoSeparatorAppend(m + "_" + s, "_");
    NoSeparatorAppend(m + "_" + s + "_", variable);
    NoSeparatorAppend(m + "_" + s + "_" + variable, ".xlsx");
  }

  /** With separator-free names the output file lies directly in the output directory. */
  lemma OutputPathDirectlyUnderBase(model: string, scenario: string, variable: string)
    requires NoSeparator(model) && NoSeparator(scenario) && NoSeparator(variable)
    ensures OutputPath(model, scenario, variable)
         == Path(BaseOutputPath, [OutputFilename(model, scenario, variable)])
  {
    var f := OutputFilename(model, scenario, variable);
    OutputFilenameNoSeparator(model, scenario, variable);
    assert f != "." by { assert |f| >= 7; }
    ComponentsOfName(f);
  }

  lemma {:induction false} ReplaceSpacesAppend(x: string, y: string)
    ensures ReplaceSpaces(x + y) == ReplaceSpaces(x) + ReplaceSpaces(y)
  {
    if x != [] {
      assert (x + y)[1..] == x[1..] + y;
      ReplaceSpacesAppend(x[1..], y);
    } else {
      assert x + y == y;
    }
  }

  /** A separator in the model name puts the output file into a subdirectory
      of the output directory, which `get_output_path` does not create. */
  lemma OutputPathNestedBySeparator(dir: string, name: string, scenario: string, variable: string)
    requires NoSeparator(dir) && NoSeparator(name) && NoSeparator(scenario) && NoSeparator(variable)
    requires dir != [] && ' ' !in dir && dir != "."
    ensures OutputPath(dir + "/" + name, scenario, variable)
         == Path(BaseOutputPath, [dir, OutputFilename(name, scenario, variable)])
  {
    assert dir + "/" + name == dir + ("/" + name);
    ReplaceSpacesAppend(dir, "/" + name);
    ReplaceSpacesAppend("/", name);
    ReplaceSpacesKeepsSpaceFree(dir);
    assert ReplaceSpaces("/") == "/";
    assert ReplaceSpaces(dir + "/" + name) == dir + "/" + ReplaceSpaces(name);
    var tail := OutputFilename(name, scenario, variable);
    assert OutputFilename(dir + "/" + name, scenario, variable) == dir + ['/'] + tail;
    ComponentsCons(dir, '/', tail);
    OutputFilenameNoSeparator(name, scenario, variable);
    assert tail != "." by { assert |tail| >= 7; }
    ComponentsOfName(tail);
  }
}
