/**
 * Spreadsheet rows to spec rows: header normalisation and validation, the
 * per-row extraction with its fall-backs, and the choice of input files in
 * the bucket folder. A sheet is its header row and its rows of cells; reading
 * the workbook itself is not modelled.
 */
module Excel {
  import opened Wrappers
  import opened Text
  import Util

  const BaseHeaders: seq<string> := ["from", "specification", "effectivityweek", "configname"]
  const RequiredHeaders: seq<string> := ["gg", "from", "specification", "effectivityweek", "configname"]
  const Truthy: set<string> := {"1", "y", "yes", "true", "t", "x", "\U{2713}", "\U{2714}", "ok"}

  // ---------------------------------------------------------------------------
  // Helpers: `_norm`, `_to_bool`, `_dedupe_preserve_order`
  // ---------------------------------------------------------------------------

  predicate IsSeparator(c: char) {
    IsSpace(c) || c == '_'
  }

  /** `re.sub(r"[\s_]+", "", s)`. */
  function DropSeparators(s: string): (r: string)
    ensures forall j :: 0 <= j < |r| ==> !IsSeparator(r[j]) && r[j] in s
  {
    if s == [] then []
    else if IsSeparator(s[0]) then DropSeparators(s[1..])
    else [s[0]] + DropSeparators(s[1..])
  }

  /** `_norm(s)`: lower-case `s` and remove every whitespace and underscore character. */
  function Norm(s: string): (r: string)
    ensures forall j :: 0 <= j < |r| ==> !IsSeparator(r[j]) && !('A' <= r[j] <= 'Z')
  {
    var low := Lower(s);
    var r := DropSeparators(low);
    assert forall j :: 0 <= j < |r| ==> r[j] in low;
    r
  }

  lemma {:induction false} DropSeparatorsOfClean(s: string)
    requires forall j :: 0 <= j < |s| ==> !IsSeparator(s[j])
    ensures DropSeparators(s) == s
  {
    if s != [] {
      DropSeparatorsOfClean(s[1..]);
    }
  }

  /** Normalising a normalised header changes nothing. */
  lemma NormIdempotent(s: string)
    ensures Norm(Norm(s)) == Norm(s)
  {
    var r := Norm(s);
    assert Lower(r) == r;
    DropSeparatorsOfClean(r);
  }

  lemma {:induction false} DropSeparatorsAppend(a: string, b: string)
    ensures DropSeparators(a + b) == DropSeparators(a) + DropSeparators(b)
  {
    if a != [] {
      assert (a + b)[1..] == a[1..] + b;
      DropSeparatorsAppend(a[1..], b);
    } else {
      assert a + b == b;
    }
  }

  /** Normalising works character by character: a separator disappears, any
      other character stays, lower-cased, in its place. */
  lemma NormAppend(a: string, b: string)
    ensures Norm(a + b) == Norm(a) + Norm(b)
  {
    assert Lower(a + b) == Lower(a) + Lower(b);
    DropSeparatorsAppend(Lower(a), Lower(b));
  }

  /** A single character normalises to nothing when it is whitespace or `_`, else to its lower-case form. */
  lemma NormChar(c: char)
    ensures Norm([c]) == if IsSeparator(c) then [] else [LowerChar(c)]
  {
    var l := LowerChar(c);
    LowerKeepsSpace(c);
    assert IsSeparator(l) == IsSeparator(c);
    assert Lower([c]) == [l];
    assert [l][1..] == [];
    assert DropSeparators([l]) == if IsSeparator(l) then DropSeparators([]) else [l] + DropSeparators([]);
  }

  /** `_to_bool(x)`: `str(x).strip().lower()` is one of the truthy spellings. */
  predicate ToBool(x: string) {
    Lower(Trim(x)) in Truthy
  }

  /** A blank cell is false; the stringified default `True` is true. */
  lemma ToBoolCases()
    ensures !ToBool("")
    ensures ToBool("True")
  {
    assert TrimStart("") == "" && TrimEnd("") == "";
    assert Lower("") == "";
    assert TrimStart("True") == "True";
    assert TrimEnd("True") == "True";
    assert Lower("True") == "true";
  }

  /** Surrounding whitespace and case do not matter: a cell reads as its
      stripped, lower-cased self. */
  lemma ToBoolNormalised(x: string)
    ensures ToBool(x) == ToBool(Lower(Trim(x)))
  {
    CellNormalFormFixed(x);
  }

  /** A stripped, lower-cased cell is its own stripped, lower-cased form. */
  lemma CellNormalFormFixed(x: string)
    ensures Lower(Trim(Lower(Trim(x)))) == Lower(Trim(x))
  {
    var t := Trim(x);
    var l := Lower(t);
    if l != [] {
      LowerKeepsSpace(t[0]);
      LowerKeepsSpace(t[|t| - 1]);
    }
    TrimOfTrimmed(l);
    LowerIdempotent(t);
  }

  lemma LowerKeepsSpace(c: char)
    ensures IsSpace(LowerChar(c)) == IsSpace(c)
  {
  }

  lemma TrimOfTrimmed(s: string)
    requires s == [] || (!IsSpace(s[0]) && !IsSpace(s[|s| - 1]))
    ensures Trim(s) == s
  {
    assert TrimStart(s) == s;
    assert TrimEnd(s) == s;
  }

  /** Index of the first occurrence of `v` in `s`. */
  function FirstIndex(s: seq<string>, v: string): (i: nat)
    requires v in s
    ensures i < |s| && s[i] == v
    ensures forall j :: 0 <= j < i ==> s[j] != v
  {
    if s[0] == v then 0 else 1 + FirstIndex(s[1..], v)
  }

  lemma {:induction false} FirstIndexInPrefix(s: seq<string>, extra: string, v: string)
    requires v in s
    ensures v in s + [extra] && FirstIndex(s + [extra], v) == FirstIndex(s, v)
  {
    if s[0] != v {
      assert (s + [extra])[1..] == s[1..] + [extra];
      FirstIndexInPrefix(s[1..], extra, v);
    }
  }

  /**
   * `[v for v in dict.fromkeys(values) if v]`: the distinct non-empty values,
   * in the order in which each first occurs.
   */
  function Dedupe(values: seq<string>): (r: seq<string>)
    ensures forall i, j :: 0 <= i < j < |r| ==> r[i] != r[j]
    ensures forall v :: v in r <==> v in values && v != ""
    ensures forall i, j :: 0 <= i < j < |r| ==> FirstIndex(values, r[i]) < FirstIndex(values, r[j])
  {
    if values == [] then []
    else
      var init := values[..|values| - 1];
      var v := values[|values| - 1];
      assert values == init + [v];
      var d := Dedupe(init);
      FirstIndexInPrefixAll(init, v);
      if v == "" || v in d then
        DedupeSkip(init, v, d);
        d
      else
        DedupeKeep(init, v, d);
        d + [v]
  }

  /** Appending a value moves no first occurrence of a value already present. */
  lemma FirstIndexInPrefixAll(init: seq<string>, v: string)
    ensures forall x :: x in init ==> x in init + [v] && FirstIndex(init + [v], x) == FirstIndex(init, x)
  {
    forall x | x in init ensures x in init + [v] && FirstIndex(init + [v], x) == FirstIndex(init, x) {
      FirstIndexInPrefix(init, v, x);
    }
  }

  /** A blank or repeated value leaves the de-duplicated list as it was. */
  lemma DedupeSkip(init: seq<string>, v: string, d: seq<string>)
    requires forall x :: x in d <==> x in init && x != ""
    requires forall i, j :: 0 <= i < j < |d| ==> FirstIndex(init, d[i]) < FirstIndex(init, d[j])
    requires forall x :: x in init ==> x in init + [v] && FirstIndex(init + [v], x) == FirstIndex(init, x)
    requires v == "" || v in d
    ensures forall x :: x in d <==> x in init + [v] && x != ""
    ensures forall i, j :: 0 <= i < j < |d| ==> FirstIndex(init + [v], d[i]) < FirstIndex(init + [v], d[j])
  {
    assert forall x :: x in init + [v] <==> x in init || x == v;
  }

  /** A new non-blank value is appended, after every value already kept. */
  lemma DedupeKeep(init: seq<string>, v: string, d: seq<string>)
    requires forall i, j :: 0 <= i < j < |d| ==> d[i] != d[j]
    requires forall x :: x in d <==> x in init && x != ""
    requires forall i, j :: 0 <= i < j < |d| ==> FirstIndex(init, d[i]) < FirstIndex(init, d[j])
    requires forall x :: x in init ==> x in init + [v] && FirstIndex(init + [v], x) == FirstIndex(init, x)
    requires v != "" && v !in d
    ensures forall i, j :: 0 <= i < j < |d + [v]| ==> (d + [v])[i] != (d + [v])[j]
    ensures forall x :: x in d + [v] <==> x in init + [v] && x != ""
    ensures forall i, j :: 0 <= i < j < |d + [v]| ==>
      FirstIndex(init + [v], (d + [v])[i]) < FirstIndex(init + [v], (d + [v])[j])
  {
    var values := init + [v];
    var r := d + [v];
    assert forall x :: x in values <==> x in init || x == v;
    assert forall x :: x in r <==> x in d || x == v;
    assert v !in init;
    assert FirstIndex(values, v) == |init|;
    forall i, j | 0 <= i < j < |r| ensures FirstIndex(values, r[i]) < FirstIndex(values, r[j]) {
      assert r[i] == d[i];
      if j < |d| {
        assert r[j] == d[j];
      } else {
        assert r[j] == v;
        assert FirstIndex(values, d[i]) == FirstIndex(init, d[i]) < |init|;
      }
    }
  }

  // ---------------------------------------------------------------------------
  // Headers: `normalize_headers`, `validate_headers`
  // ---------------------------------------------------------------------------

  /** A sheet: its header row and its rows of cells (missing cells read as ""). */
  datatype Sheet = Sheet(columns: seq<string>, rows: seq<seq<string>>)

  /** The headers stripped (kept for the error message), and the normalised headers. */
  function NormalizeHeaders(columns: seq<string>): (r: (seq<string>, seq<string>))
    ensures |r.0| == |columns| && |r.1| == |columns|
    ensures forall k :: 0 <= k < |columns| ==> r.0[k] == Trim(columns[k]) && r.1[k] == Norm(r.0[k])
  {
    var original := seq(|columns|, k requires 0 <= k < |columns| => Trim(columns[k]));
    (original, seq(|columns|, k requires 0 <= k < |columns| => Norm(original[k])))
  }

  predicate HasGg(cols: seq<string>) {
    |cols| >= 1 && cols[0] == "gg"
  }

  /** `cols[:n]`. */
  function Take(cols: seq<string>, n: nat): seq<string> {
    if n <= |cols| then cols[..n] else cols
  }

  datatype HeaderError = InvalidHeaders(expected: seq<string>, got: seq<string>)

  /** The headers a layout requires: with a leading `gg` column or without one. */
  function Need(cols: seq<string>): seq<string> {
    if HasGg(cols) then RequiredHeaders else BaseHeaders
  }

  /**
   * `validate_headers`: with a leading `gg` the first five normalised headers
   * must be the required ones, otherwise the first four must be the base ones;
   * later columns are free. The error reports the expected headers and as many
   * of the stripped original headers.
   */
  function ValidateHeaders(cols: seq<string>, original: seq<string>): (r: Result<(), HeaderError>)
    ensures r.Success? <==>
      || (HasGg(cols) && |cols| >= 5 && cols[..5] == RequiredHeaders)
      || (!HasGg(cols) && |cols| >= 4 && cols[..4] == BaseHeaders)
    ensures r.Failure? ==> r.error.expected == Need(cols) && r.error.got == Take(original, |Need(cols)|)
  {
    var need := Need(cols);
    if Take(cols, |need|) == need then Success(()) else Failure(InvalidHeaders(need, Take(original, |need|)))
  }

  /** Appending columns after a valid header row keeps it valid. */
  lemma ExtraColumnsAllowed(cols: seq<string>, original: seq<string>, extra: seq<string>)
    requires ValidateHeaders(cols, original).Success?
    ensures ValidateHeaders(cols + extra, original).Success?
  {
    var n := |Need(cols)|;
    assert (cols + extra)[..n] == cols[..n];
  }

  // ---------------------------------------------------------------------------
  // Rows: `rows_from_df`
  // ---------------------------------------------------------------------------

  datatype SpecRow = SpecRow(
    fromName: string,
    specId: string,
    configName: string,
    specWeek: string,
    gg: bool,
    changeVariants: seq<string>)

  function IndexOf(cols: seq<string>, name: string): (r: Option<nat>)
    ensures r.Some? ==> r.value < |cols| && cols[r.value] == name
    ensures r.None? ==> name !in cols
  {
    if cols == [] then None
    else if cols[0] == name then Some(0)
    else match IndexOf(cols[1..], name)
      case Some(k) => Some(k + 1)
      case None => None
  }

  /** A cell of the row, "" past its end (the sheet's empty cells are filled with ""). */
  function Cell(cells: seq<string>, k: nat): string {
    if k < |cells| then cells[k] else ""
  }

  /** `r.get(name, default)` on a string cell. */
  function Get(cols: seq<string>, cells: seq<string>, name: string, default: string): string {
    match IndexOf(cols, name)
    case Some(k) => Cell(cells, k)
    case None => default
  }

  /** `_to_bool(r.get("gg", True))`: an absent column reads as `str(True)`. */
  function GgOf(cols: seq<string>, cells: seq<string>): bool {
    match IndexOf(cols, "gg")
    case Some(k) => ToBool(Cell(cells, k))
    case None => ToBool("True")
  }

  /** Index of the first change-variant column. */
  function CvStart(cols: seq<string>): nat {
    if HasGg(cols) then |RequiredHeaders| else |BaseHeaders|
  }

  /** `cols[cv_start:]`. */
  function CvColumns(cols: seq<string>): seq<string> {
    if CvStart(cols) <= |cols| then cols[CvStart(cols)..] else []
  }

  /** The stripped cells of the change-variant columns, in column order. */
  function CvCells(cols: seq<string>, cells: seq<string>): seq<string> {
    var cvCols := CvColumns(cols);
    seq(|cvCols|, k requires 0 <= k < |cvCols| => Trim(Get(cols, cells, cvCols[k], "")))
  }

  /** `configname or from_name or spec_id`. */
  function ConfigName(config: string, fromName: string, specId: string): (r: string)
    ensures config != "" ==> r == config
    ensures config == "" && fromName != "" ==> r == fromName
    ensures config == "" && fromName == "" ==> r == specId
    ensures specId != "" ==> r != ""
  {
    if config != "" then config else if fromName != "" then fromName else specId
  }

  /** The record one row of the sheet yields, or nothing when its specification is blank. */
  function RowOf(cols: seq<string>, cells: seq<string>): Option<SpecRow> {
    var specId := Trim(Get(cols, cells, "specification", ""));
    if specId == "" then None
    else
      var fromName := Trim(Get(cols, cells, "from", ""));
      Some(SpecRow(
        fromName,
        specId,
        ConfigName(Trim(Get(cols, cells, "configname", "")), fromName, specId),
        Trim(Get(cols, cells, "effectivityweek", "")),
        GgOf(cols, cells),
        Dedupe(CvCells(cols, cells))))
  }

  function RowOptions(cols: seq<string>, rows: seq<seq<string>>): (os: seq<Option<SpecRow>>)
    ensures |os| == |rows| && forall j :: 0 <= j < |rows| ==> os[j] == RowOf(cols, rows[j])
  {
    seq(|rows|, j requires 0 <= j < |rows| => RowOf(cols, rows[j]))
  }

  /** The records `rows_from_df` returns for a sheet with normalised headers `cols`. */
  function SpecRows(cols: seq<string>, rows: seq<seq<string>>): seq<SpecRow> {
    Somes(RowOptions(cols, rows))
  }

  /** `rows_from_df`. */
  method RowsFromDf(cols: seq<string>, sheetRows: seq<seq<string>>) returns (rows: seq<SpecRow>)
    ensures rows == SpecRows(cols, sheetRows)
  {
    var hasGg := |cols| >= 1 && cols[0] == "gg";
    var cvStart := if hasGg then |RequiredHeaders| else |BaseHeaders|;
    var cvCols := if cvStart <= |cols| then cols[cvStart..] else [];
    assert cvCols == CvColumns(cols);
    ghost var os := RowOptions(cols, sheetRows);
    rows := [];
    for n := 0 to |sheetRows|
      invariant rows == Somes(os[..n])
    {
      var row := RowFromCells(cols, cvCols, sheetRows[n]);
      SomesPrefixStep(os, n);
      if row.Some? {
        rows := rows + [row.value];
      }
    }
    assert os[..|sheetRows|] == os;
  }

  /** The body of the loop in `rows_from_df`: one row of the sheet. */
  method RowFromCells(cols: seq<string>, cvCols: seq<string>, r: seq<string>) returns (row: Option<SpecRow>)
    requires cvCols == CvColumns(cols)
    ensures row == RowOf(cols, r)
  {
    var specId := Trim(Get(cols, r, "specification", ""));
    if specId == "" {
      return None;
    }
    var gg := GgOf(cols, r);
    var fromName := Trim(Get(cols, r, "from", ""));
    var specWeek := Trim(Get(cols, r, "effectivityweek", ""));
    var configName := Trim(Get(cols, r, "configname", ""));
    if configName == "" {
      configName := if fromName != "" then fromName else specId;
    }
    var cells := seq(|cvCols|, k requires 0 <= k < |cvCols| => Trim(Get(cols, r, cvCols[k], "")));
    assert cells == CvCells(cols, r);
    return Some(SpecRow(fromName, specId, configName, specWeek, gg, Dedupe(cells)));
  }

  /**
   * Rows are kept in sheet order, exactly the rows whose specification is not
   * blank; the output is never longer than the sheet.
   */
  lemma SpecRowsKeepOrder(cols: seq<string>, rows: seq<seq<string>>)
    ensures |SpecRows(cols, rows)| <= |rows|
    ensures var ks := Kept(RowOptions(cols, rows));
      && |ks| == |SpecRows(cols, rows)|
      && (forall t, u :: 0 <= t < u < |ks| ==> ks[t] < ks[u])
      && (forall t :: 0 <= t < |ks| ==> ks[t] < |rows| && RowOf(cols, rows[ks[t]]) == Some(SpecRows(cols, rows)[t]))
      && (forall j :: 0 <= j < |rows| && Trim(Get(cols, rows[j], "specification", "")) != "" ==> j in ks)
  {
    var os := RowOptions(cols, rows);
    var ks := Kept(os);
    forall j | 0 <= j < |rows| && Trim(Get(cols, rows[j], "specification", "")) != ""
      ensures j in ks
    {
      assert os[j] == RowOf(cols, rows[j]);
    }
  }

  /** Every record has a specification and a configuration name, and its
      change variants are distinct, non-blank cells of the trailing columns. */
  lemma SpecRowFields(cols: seq<string>, cells: seq<string>)
    requires RowOf(cols, cells).Some?
    ensures var row := RowOf(cols, cells).value;
      && row.specId != "" && row.configName != ""
      && row.specId == Trim(Get(cols, cells, "specification", ""))
      && (forall i, j :: 0 <= i < j < |row.changeVariants| ==> row.changeVariants[i] != row.changeVariants[j])
      && (forall v :: v in row.changeVariants <==> v in CvCells(cols, cells) && v != "")
  {
  }

  /** With no `gg` column every record has `gg` set; a blank `gg` cell clears it. */
  lemma GgDefaults(cols: seq<string>, cells: seq<string>)
    ensures "gg" !in cols ==> GgOf(cols, cells)
    ensures HasGg(cols) && Trim(Cell(cells, 0)) == "" ==> !GgOf(cols, cells)
  {
    if "gg" !in cols {
      assert IndexOf(cols, "gg") == None;
      ToBoolCases();
    }
    if HasGg(cols) && Trim(Cell(cells, 0)) == "" {
      assert IndexOf(cols, "gg") == Some(0);
      assert Lower("") == "";
      assert !("" in Truthy);
    }
  }

  /** The change-variant columns are exactly those after the fixed ones. */
  lemma CvColumnsAfterHeaders(cols: seq<string>, original: seq<string>)
    requires ValidateHeaders(cols, original).Success?
    ensures HasGg(cols) ==> CvColumns(cols) == cols[5..]
    ensures !HasGg(cols) ==> CvColumns(cols) == cols[4..]
  {
  }

  // ---------------------------------------------------------------------------
  // `read_rows_from_excel`
  // ---------------------------------------------------------------------------

  /** Normalise the headers, validate them, extract the rows. */
  function ReadRows(sheet: Sheet): (r: Result<seq<SpecRow>, HeaderError>)
    ensures r.Success? ==> r.value == SpecRows(NormalizeHeaders(sheet.columns).1, sheet.rows)
    ensures r.Failure? <==> ValidateHeaders(NormalizeHeaders(sheet.columns).1, NormalizeHeaders(sheet.columns).0).Failure?
  {
    var (original, cols) := NormalizeHeaders(sheet.columns);
    match ValidateHeaders(cols, original)
    case Failure(e) => Failure(e)
    case Success(_) => Success(SpecRows(cols, sheet.rows))
  }

  /** `read_rows_from_excel` on a sheet already read. */
  method ReadRowsFromExcel(sheet: Sheet) returns (r: Result<seq<SpecRow>, HeaderError>)
    ensures r == ReadRows(sheet)
  {
    var (original, cols) := NormalizeHeaders(sheet.columns);
    var checked := ValidateHeaders(cols, original);
    if checked.Failure? {
      return Failure(checked.error);
    }
    var rows := RowsFromDf(cols, sheet.rows);
    return Success(rows);
  }

  // ---------------------------------------------------------------------------
  // Input files: `pick_excel_files_in_xml_bucket`, `count_excel_files_in_xml_bucket`
  // ---------------------------------------------------------------------------

  datatype DirEntry = DirEntry(name: string, isFile: bool)

  /** `is_real_xlsx`. */
  predicate IsRealXlsx(e: DirEntry) {
    var name := Lower(e.name);
    && e.isFile
    && Lower(Util.Suffix(e.name)) == ".xlsx"
    && !StartsWith(name, "~$")
    && !StartsWith(name, "vms_filter")
    && name != "vms_filter.txt"
  }

  lemma LowerSlice(s: string, a: nat)
    requires a <= |s|
    ensures Lower(s[a..]) == Lower(s)[a..]
  {
  }

  /**
   * A file passes exactly when its lower-cased name ends in ".xlsx" with
   * something before the dot, and does not start with "~$" or "vms_filter".
   */
  lemma IsRealXlsxByName(e: DirEntry)
    ensures IsRealXlsx(e) <==>
      && e.isFile
      && |e.name| > 5
      && EndsWith(Lower(e.name), ".xlsx")
      && !StartsWith(Lower(e.name), "~$")
      && !StartsWith(Lower(e.name), "vms_filter")
  {
    if Lower(Util.Suffix(e.name)) == ".xlsx" {
      XlsxSuffixEnds(e.name);
    }
    if |e.name| > 5 && EndsWith(Lower(e.name), ".xlsx") {
      EndsXlsxSuffix(e.name);
    }
  }

  /** A suffix that lower-cases to ".xlsx" is the last five characters, after a non-empty stem. */
  lemma XlsxSuffixEnds(name: string)
    requires Lower(Util.Suffix(name)) == ".xlsx"
    ensures |name| > 5 && EndsWith(Lower(name), ".xlsx")
  {
    var d := Util.LastDot(name);
    assert Util.HasSuffix(name);
    LowerSlice(name, d);
    assert |name| - d == 5;
  }

  /** A name whose lower-cased form ends in ".xlsx" after a non-empty stem has that suffix. */
  lemma EndsXlsxSuffix(name: string)
    requires |name| > 5 && EndsWith(Lower(name), ".xlsx")
    ensures Lower(Util.Suffix(name)) == ".xlsx"
  {
    var n := |name|;
    var low := Lower(name);
    assert low[n - 5..] == ".xlsx";
    assert name[n - 5] == '.' by { assert LowerChar(name[n - 5]) == '.'; }
    forall j | n - 5 < j < n ensures name[j] != '.' {
      assert low[j] == ".xlsx"[j - (n - 5)];
    }
    var d := Util.LastDot(name);
    assert d == n - 5;
    LowerSlice(name, d);
  }

  /** `str(folder / name)`, with `/` as the separator. */
  function JoinPath(folder: string, name: string): string {
    folder + "/" + name
  }

  /** The paths of the entries that pass the filter, in listing order. */
  function RealXlsxPaths(folder: string, entries: seq<DirEntry>): (r: seq<string>)
    ensures |r| <= |entries|
  {
    if entries == [] then []
    else
      var rest := RealXlsxPaths(folder, entries[1..]);
      if IsRealXlsx(entries[0]) then [JoinPath(folder, entries[0].name)] + rest else rest
  }

  predicate Sorted(s: seq<string>) {
    forall i :: 0 <= i < |s| - 1 ==> LexLe(s[i], s[i + 1])
  }

  function Insert(x: string, s: seq<string>): (r: seq<string>)
    requires Sorted(s)
    ensures Sorted(r) && multiset(r) == multiset(s) + multiset{x}
    ensures |r| > 0 && (r[0] == x || (|s| > 0 && r[0] == s[0]))
  {
    if s == [] then [x]
    else if LexLe(x, s[0]) then [x] + s
    else
      LexLeTotal(x, s[0]);
      assert s == [s[0]] + s[1..];
      [s[0]] + Insert(x, s[1..])
  }

  /** `sorted()` on strings. */
  function SortStrings(s: seq<string>): (r: seq<string>)
    ensures Sorted(r) && multiset(r) == multiset(s)
  {
    if s == [] then []
    else
      assert s == [s[0]] + s[1..];
      Insert(s[0], SortStrings(s[1..]))
  }

  /**
   * `pick_excel_files_in_xml_bucket`, given the folder's listing (`None` when
   * the folder does not exist): the sorted paths of the real workbooks.
   */
  function PickExcelFiles(folder: string, listing: Option<seq<DirEntry>>): (r: seq<string>)
    ensures listing.None? ==> r == []
    ensures listing.Some? ==> Sorted(r) && multiset(r) == multiset(RealXlsxPaths(folder, listing.value))
  {
    match listing
    case None => []
    case Some(entries) => SortStrings(RealXlsxPaths(folder, entries))
  }

  /** Every picked path names a listed entry that passes the filter. */
  lemma {:induction false} RealXlsxPathsFromEntries(folder: string, entries: seq<DirEntry>, p: string)
    requires p in RealXlsxPaths(folder, entries)
    ensures exists e :: e in entries && IsRealXlsx(e) && p == JoinPath(folder, e.name)
  {
    if !(IsRealXlsx(entries[0]) && p == JoinPath(folder, entries[0].name)) {
      RealXlsxPathsFromEntries(folder, entries[1..], p);
      var e :| e in entries[1..] && IsRealXlsx(e) && p == JoinPath(folder, e.name);
      assert e in entries;
    }
  }

  /** Every listed entry that passes the filter has its path among the picked ones. */
  lemma {:induction false} RealXlsxPathsComplete(folder: string, entries: seq<DirEntry>, e: DirEntry)
    requires e in entries && IsRealXlsx(e)
    ensures JoinPath(folder, e.name) in RealXlsxPaths(folder, entries)
  {
    if e != entries[0] {
      assert e in entries[1..];
      RealXlsxPathsComplete(folder, entries[1..], e);
    }
  }

  /**
   * The picker misses no workbook and picks nothing else: a path is returned
   * exactly when it is the path of a listed entry that passes the filter.
   */
  lemma PickExcelFilesIff(folder: string, entries: seq<DirEntry>, p: string)
    ensures p in PickExcelFiles(folder, Some(entries)) <==>
      exists e :: e in entries && IsRealXlsx(e) && p == JoinPath(folder, e.name)
  {
    var picked := PickExcelFiles(folder, Some(entries));
    assert p in picked <==> p in multiset(picked);
    assert p in picked <==> p in RealXlsxPaths(folder, entries);
    if p in RealXlsxPaths(folder, entries) {
      RealXlsxPathsFromEntries(folder, entries, p);
    }
    if exists e :: e in entries && IsRealXlsx(e) && p == JoinPath(folder, e.name) {
      var e :| e in entries && IsRealXlsx(e) && p == JoinPath(folder, e.name);
      RealXlsxPathsComplete(folder, entries, e);
    }
  }

  /** `count_excel_files_in_xml_bucket`. */
  function CountExcelFiles(listing: Option<seq<DirEntry>>): nat {
    match listing
    case None => 0
    case Some(entries) => CountReal(entries)
  }

  function CountReal(entries: seq<DirEntry>): nat {
    if entries == [] then 0
    else
      var name := Lower(entries[0].name);
      var isReal := entries[0].isFile && Lower(Util.Suffix(entries[0].name)) == ".xlsx"
        && !(StartsWith(name, "~$") || StartsWith(name, "vms_filter")) && name != "vms_filter.txt";
      (if isReal then 1 else 0) + CountReal(entries[1..])
  }

  /** The count is the number of files the picker returns. */
  lemma {:induction false} CountMatchesPick(folder: string, listing: Option<seq<DirEntry>>)
    ensures CountExcelFiles(listing) == |PickExcelFiles(folder, listing)|
  {
    if listing.Some? {
      CountRealIsFilterLength(folder, listing.value);
      var r := PickExcelFiles(folder, listing);
      assert |multiset(r)| == |multiset(RealXlsxPaths(folder, listing.value))|;
    }
  }

  lemma {:induction false} CountRealIsFilterLength(folder: string, entries: seq<DirEntry>)
    ensures CountReal(entries) == |RealXlsxPaths(folder, entries)|
  {
    if entries != [] {
      CountRealIsFilterLength(folder, entries[1..]);
    }
  }
}
