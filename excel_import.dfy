/** Spreadsheet import of both clients: the preview built from the raw
    rows of the first sheet, the extraction of team entries from chosen
    columns, and the file-name and size check. Reading the workbook itself
    is left out; the raw rows are the input. */
module ExcelImport {
  import opened Util
  import opened Assoc
  import opened ListOps

  /** A spreadsheet cell as the reader hands it over; a missing cell is `Blank`. */
  datatype Cell = Blank | Str(s: string) | Num(n: int) | Bool(b: bool)

  /** JavaScript truthiness: `undefined`, '', 0 and `false` are falsy. */
  predicate Truthy(c: Cell) {
    match c
    case Blank => false
    case Str(s) => s != ""
    case Num(n) => n != 0
    case Bool(b) => b
  }

  /** `String(c)`. */
  function CellText(c: Cell): string {
    match c
    case Blank => "undefined"
    case Str(s) => s
    case Num(n) => IntToString(n)
    case Bool(b) => if b then "true" else "false"
  }

  /** `row[i]`: `undefined` past the end of the row. */
  function CellAt(row: seq<Cell>, i: int): Cell {
    if 0 <= i < |row| then row[i] else Blank
  }

  /** `c || ''`. */
  function OrEmpty(c: Cell): (r: Cell)
    ensures Truthy(c) ==> r == c
    ensures !Truthy(c) ==> r == Str("")
  {
    if Truthy(c) then c else Str("")
  }

  // ---------------------------------------------------------------------
  // Preview

  const PreviewLimit: nat := 10

  /** The header of column `idx`: the cell's text, or `Colonne <idx+1>`
      when the cell is falsy. */
  function HeaderAt(cell: Cell, idx: nat): string {
    if Truthy(cell) then CellText(cell) else "Colonne " + NatToString(idx + 1)
  }

  function Headers(first: seq<Cell>): (r: seq<string>)
    ensures |r| == |first|
    ensures forall i :: 0 <= i < |first| ==> r[i] == HeaderAt(first[i], i)
  {
    seq(|first|, i requires 0 <= i < |first| => HeaderAt(first[i], i))
  }

  /** The object a data row becomes: each header in turn is set to its
      column's cell, or to '' when that cell is falsy. A repeated header
      keeps its first position and its last column's value. */
  function RowObject(headers: seq<string>, row: seq<Cell>): seq<(string, Cell)>
    decreases |headers|
  {
    if headers == [] then []
    else
      var last := |headers| - 1;
      Put(RowObject(headers[..last], row), headers[last], OrEmpty(CellAt(row, last)))
  }

  /** Every header is a key of the row object, nothing else is, each key
      once. */
  lemma {:induction false} RowObjectKeys(headers: seq<string>, row: seq<Cell>)
    ensures DistinctKeys(RowObject(headers, row))
    ensures forall k :: k in Keys(RowObject(headers, row)) <==> k in headers
    decreases |headers|
  {
    if headers != [] {
      var last := |headers| - 1;
      var init := headers[..last];
      RowObjectKeys(init, row);
      PutKeys(RowObject(init, row), headers[last], OrEmpty(CellAt(row, last)));
      assert headers == init + [headers[last]];
    }
  }

  /** The last header writes its own column's value. */
  lemma RowObjectGetLast(headers: seq<string>, row: seq<Cell>)
    requires headers != []
    ensures Get(RowObject(headers, row), headers[|headers| - 1]) == Some(OrEmpty(CellAt(row, |headers| - 1)))
  {
    var last := |headers| - 1;
    GetPut(RowObject(headers[..last], row), headers[last], OrEmpty(CellAt(row, last)), headers[last]);
  }

  /** A later, different header leaves an earlier header's value alone. */
  lemma RowObjectGetEarlier(headers: seq<string>, row: seq<Cell>, i: nat, c: Cell)
    requires i < |headers| - 1 && headers[|headers| - 1] != headers[i]
    requires Get(RowObject(headers[..|headers| - 1], row), headers[i]) == Some(c)
    ensures Get(RowObject(headers, row), headers[i]) == Some(c)
  {
    var last := |headers| - 1;
    GetPut(RowObject(headers[..last], row), headers[last], OrEmpty(CellAt(row, last)), headers[i]);
  }

  /** A header's value is its last column's cell, or '' when that cell
      is falsy. */
  lemma {:induction false} RowObjectGet(headers: seq<string>, row: seq<Cell>, i: nat)
    requires i < |headers|
    requires forall j :: i < j < |headers| ==> headers[j] != headers[i]
    ensures Get(RowObject(headers, row), headers[i]) == Some(OrEmpty(CellAt(row, i)))
    decreases |headers|
  {
    var last := |headers| - 1;
    if i == last {
      RowObjectGetLast(headers, row);
    } else {
      var init := headers[..last];
      assert headers[i] == init[i] && headers[last] != headers[i];
      assert forall j :: i < j < |init| ==> init[j] != init[i] by {
        forall j | i < j < |init| ensures init[j] != init[i] {
          assert init[j] == headers[j];
        }
      }
      RowObjectGet(init, row, i);
      RowObjectGetEarlier(headers, row, i, OrEmpty(CellAt(row, i)));
    }
  }

  /** The `headers.forEach` that fills one row object. */
  method BuildRowObject(headers: seq<string>, row: seq<Cell>) returns (obj: seq<(string, Cell)>)
    ensures obj == RowObject(headers, row)
  {
    obj := [];
    var idx := 0;
    while idx < |headers|
      invariant 0 <= idx <= |headers|
      invariant obj == RowObject(headers[..idx], row)
    {
      assert headers[..idx + 1][..idx] == headers[..idx];
      obj := Put(obj, headers[idx], OrEmpty(CellAt(row, idx)));
      idx := idx + 1;
    }
    assert headers[..|headers|] == headers;
  }

  datatype Preview = Preview(headers: seq<string>, rows: seq<seq<(string, Cell)>>, totalRows: nat)

  /** `rawData.slice(1)`. */
  function DataRows(rawData: seq<seq<Cell>>): (r: seq<seq<Cell>>)
    ensures |r| == if rawData == [] then 0 else |rawData| - 1
    ensures forall i :: 0 <= i < |r| ==> r[i] == rawData[i + 1]
  {
    if rawData == [] then [] else rawData[1..]
  }

  /** The preview: the headers from the first row, the objects of at most
      the first ten data rows, and the number of data rows. */
  function PreviewOf(rawData: seq<seq<Cell>>): (p: Preview)
    ensures rawData == [] ==> p == Preview([], [], 0)
    ensures rawData != [] ==> p.headers == Headers(rawData[0])
    ensures p.totalRows == |DataRows(rawData)|
    ensures |p.rows| == if p.totalRows < PreviewLimit then p.totalRows else PreviewLimit
    ensures forall i :: 0 <= i < |p.rows| ==> p.rows[i] == RowObject(p.headers, DataRows(rawData)[i])
  {
    if rawData == [] then Preview([], [], 0)
    else
      var headers := Headers(rawData[0]);
      var rows := DataRows(rawData);
      var n := if |rows| < PreviewLimit then |rows| else PreviewLimit;
      Preview(headers, seq(n, i requires 0 <= i < n => RowObject(headers, rows[i])), |rows|)
  }

  /** `parseExcelPreview`. */
  method ParseExcelPreview(rawData: seq<seq<Cell>>) returns (p: Preview)
    ensures p == PreviewOf(rawData)
  {
    if |rawData| == 0 {
      return Preview([], [], 0);
    }
    var headers := Headers(rawData[0]);
    var dataRows := rawData[1..];
    var rows := BuildRowObjects(headers, dataRows);
    var n := if |rows| < PreviewLimit then |rows| else PreviewLimit;
    ghost var expected := PreviewOf(rawData);
    assert dataRows == DataRows(rawData);
    assert rows[..n] == expected.rows;
    p := Preview(headers, rows[..n], |dataRows|);
  }

  /** The `dataRows.map` that turns every data row into its object. */
  method BuildRowObjects(headers: seq<string>, dataRows: seq<seq<Cell>>) returns (rows: seq<seq<(string, Cell)>>)
    ensures |rows| == |dataRows|
    ensures forall k :: 0 <= k < |rows| ==> rows[k] == RowObject(headers, dataRows[k])
  {
    rows := [];
    var i := 0;
    while i < |dataRows|
      invariant 0 <= i <= |dataRows|
      invariant |rows| == i
      invariant forall k :: 0 <= k < i ==> rows[k] == RowObject(headers, dataRows[k])
    {
      var obj := BuildRowObject(headers, dataRows[i]);
      rows := rows + [obj];
      i := i + 1;
    }
  }

  /** With distinct headers, the preview row of data row `r` maps each
      header to that row's cell in its column, or to '' when it is falsy;
      empty input has no headers and no rows. */
  lemma PreviewCells(rawData: seq<seq<Cell>>, r: nat, i: nat)
    requires rawData != []
    requires r < |PreviewOf(rawData).rows| && i < |rawData[0]|
    requires forall a, b :: 0 <= a < b < |rawData[0]| ==> HeaderAt(rawData[0][a], a) != HeaderAt(rawData[0][b], b)
    ensures var p := PreviewOf(rawData);
            Get(p.rows[r], p.headers[i]) == Some(OrEmpty(CellAt(rawData[r + 1], i)))
  {
    var p := PreviewOf(rawData);
    RowObjectGet(p.headers, rawData[r + 1], i);
  }

  // ---------------------------------------------------------------------
  // Team extraction, newer client: reads every data row

  datatype TeamEntry = TeamEntry(name: string, description: Option<string>, email: Option<string>, track: Option<string>)

  /** `headers.indexOf(column)`. */
  function IndexOf(headers: seq<string>, column: string): (r: int)
    ensures -1 <= r < |headers|
    ensures r == -1 <==> column !in headers
    ensures r >= 0 ==> headers[r] == column
  {
    FindIndex(headers, h => h == column)
  }

  /** The index of an optional column: -1 when no column is chosen. */
  function OptionalIndex(headers: seq<string>, column: Option<string>): int {
    if column.Some? && column.value != "" then IndexOf(headers, column.value) else -1
  }

  /** `name && String(name).trim()`. */
  predicate Named(name: Cell) {
    Truthy(name) && Trim(CellText(name)) != ""
  }

  /** `String(cell || '').trim()`, or `undefined` when the column is absent. */
  function FieldAt(row: seq<Cell>, index: int): (r: Option<string>)
    ensures r.None? <==> index == -1
  {
    if index != -1 then Some(Trim(CellText(OrEmpty(CellAt(row, index))))) else None
  }

  datatype Columns = Columns(name: int, description: int, email: int, track: int)

  /** The columns chosen by header name. */
  function ColumnsOf(headers: seq<string>, nameColumn: string, descriptionColumn: Option<string>,
                     emailColumn: Option<string>, trackColumn: Option<string>): Columns
  {
    Columns(IndexOf(headers, nameColumn), OptionalIndex(headers, descriptionColumn),
            OptionalIndex(headers, emailColumn), OptionalIndex(headers, trackColumn))
  }

  function EntryOf(row: seq<Cell>, cols: Columns): TeamEntry {
    TeamEntry(Trim(CellText(CellAt(row, cols.name))), FieldAt(row, cols.description),
              FieldAt(row, cols.email), FieldAt(row, cols.track))
  }

  /** The row test of the extraction: a non-blank name. */
  function NamedRow(cols: Columns): seq<Cell> -> bool {
    (row: seq<Cell>) => Named(CellAt(row, cols.name))
  }

  function ToEntry(cols: Columns): seq<Cell> -> TeamEntry {
    (row: seq<Cell>) => EntryOf(row, cols)
  }

  /** One entry per row with a non-blank name, in row order. */
  function Extracted(rows: seq<seq<Cell>>, cols: Columns): seq<TeamEntry> {
    Map(Filter(rows, NamedRow(cols)), ToEntry(cols))
  }

  /** `extractTeamsFromColumn`. */
  method ExtractTeamsFromColumn(rawData: seq<seq<Cell>>, headers: seq<string>, nameColumn: string,
                                descriptionColumn: Option<string>, emailColumn: Option<string>,
                                trackColumn: Option<string>)
    returns (teams: seq<TeamEntry>)
    ensures nameColumn !in headers ==> teams == []
    ensures nameColumn in headers ==>
              teams == Extracted(DataRows(rawData), ColumnsOf(headers, nameColumn, descriptionColumn, emailColumn, trackColumn))
  {
    var cols := ColumnsOf(headers, nameColumn, descriptionColumn, emailColumn, trackColumn);
    if cols.name == -1 {
      return [];
    }
    teams := PushKept(DataRows(rawData), NamedRow(cols), ToEntry(cols));
  }

  /** What the extraction promises: no more entries than rows; every name
      trimmed and non-blank; an optional field is absent exactly when its
      column is; and when every row is named, one entry per row. */
  lemma ExtractedFacts(rows: seq<seq<Cell>>, cols: Columns)
    ensures |Extracted(rows, cols)| <= |rows|
    ensures forall e :: e in Extracted(rows, cols) ==>
              e.name != "" && Trim(e.name) == e.name
              && (e.description.None? <==> cols.description == -1)
              && (e.email.None? <==> cols.email == -1)
              && (e.track.None? <==> cols.track == -1)
    ensures (forall i :: 0 <= i < |rows| ==> Named(CellAt(rows[i], cols.name))) ==>
              |Extracted(rows, cols)| == |rows|
  {
    var kept := Filter(rows, NamedRow(cols));
    var r := Extracted(rows, cols);
    forall e | e in r
      ensures e.name != "" && Trim(e.name) == e.name
              && (e.description.None? <==> cols.description == -1)
              && (e.email.None? <==> cols.email == -1)
              && (e.track.None? <==> cols.track == -1)
    {
      var k :| 0 <= k < |r| && r[k] == e;
      assert kept[k] in kept;
      assert e == EntryOf(kept[k], cols);
      TrimIdempotent(CellText(CellAt(kept[k], cols.name)));
    }
    if forall i :: 0 <= i < |rows| ==> Named(CellAt(rows[i], cols.name)) {
      FilterKeepsAll(rows, NamedRow(cols));
    }
  }

  // ---------------------------------------------------------------------
  // Team extraction, older client: reads the preview rows only

  datatype LegacyTeamEntry = LegacyTeamEntry(name: string, description: Option<string>)

  /** `row[column]` on a row object. */
  function Field(row: seq<(string, Cell)>, column: string): Cell {
    Get(row, column).GetOr(Blank)
  }

  function LegacyEntryOf(row: seq<(string, Cell)>, nameColumn: string, descriptionColumn: Option<string>): LegacyTeamEntry {
    LegacyTeamEntry(
      Trim(CellText(Field(row, nameColumn))),
      if descriptionColumn.Some? && descriptionColumn.value != "" then
        Some(Trim(CellText(OrEmpty(Field(row, descriptionColumn.value)))))
      else None)
  }

  function LegacyNamedRow(nameColumn: string): seq<(string, Cell)> -> bool {
    (row: seq<(string, Cell)>) => Named(Field(row, nameColumn))
  }

  function ToLegacyEntry(nameColumn: string, descriptionColumn: Option<string>): seq<(string, Cell)> -> LegacyTeamEntry {
    (row: seq<(string, Cell)>) => LegacyEntryOf(row, nameColumn, descriptionColumn)
  }

  function LegacyExtracted(rows: seq<seq<(string, Cell)>>, nameColumn: string, descriptionColumn: Option<string>)
    : seq<LegacyTeamEntry>
  {
    Map(Filter(rows, LegacyNamedRow(nameColumn)), ToLegacyEntry(nameColumn, descriptionColumn))
  }

  /** The older `extractTeamsFromColumn`, over `preview.rows`. */
  method LegacyExtractTeamsFromColumn(preview: Preview, nameColumn: string, descriptionColumn: Option<string>)
    returns (teams: seq<LegacyTeamEntry>)
    ensures teams == LegacyExtracted(preview.rows, nameColumn, descriptionColumn)
  {
    teams := PushKept(preview.rows, LegacyNamedRow(nameColumn), ToLegacyEntry(nameColumn, descriptionColumn));
  }

  /** The older extraction sees at most the ten preview rows, however many
      data rows the sheet has; every entry's name is trimmed and non-blank. */
  lemma LegacyExtractedFacts(rawData: seq<seq<Cell>>, nameColumn: string, descriptionColumn: Option<string>)
    ensures var r := LegacyExtracted(PreviewOf(rawData).rows, nameColumn, descriptionColumn);
            |r| <= PreviewLimit
            && forall e :: e in r ==> e.name != "" && Trim(e.name) == e.name
  {
    var rows := PreviewOf(rawData).rows;
    var kept := Filter(rows, LegacyNamedRow(nameColumn));
    var r := LegacyExtracted(rows, nameColumn, descriptionColumn);
    forall e | e in r
      ensures e.name != "" && Trim(e.name) == e.name
    {
      var k :| 0 <= k < |r| && r[k] == e;
      assert kept[k] in kept;
      TrimIdempotent(CellText(Field(kept[k], nameColumn)));
    }
  }

  /** The sheet of the example: a "Nom" header over eleven named rows. */
  function ElevenRows(): seq<seq<Cell>> {
    [[Str("Nom")]] + seq(11, i => [Str("Equipe")])
  }

  /** Eleven named data rows: the newer extraction finds all eleven. */
  lemma ElevenRowsNewer()
    ensures |ExtractedFromSheet(ElevenRows())| == 11
  {
    var raw := ElevenRows();
    var rows := DataRows(raw);
    assert Headers(raw[0]) == ["Nom"];
    assert IndexOf(["Nom"], "Nom") == 0;
    forall i | 0 <= i < |rows| ensures Named(CellAt(rows[i], 0)) {
      assert rows[i] == [Str("Equipe")];
    }
    ExtractedFacts(rows, Columns(0, -1, -1, -1));
  }

  /** The same sheet: the older extraction finds only the ten rows of the
      preview. */
  lemma ElevenRowsOlder()
    ensures |LegacyExtracted(PreviewOf(ElevenRows()).rows, "Nom", None)| == 10
  {
    var raw := ElevenRows();
    var p := PreviewOf(raw);
    assert p.headers == ["Nom"];
    var keep := LegacyNamedRow("Nom");
    assert RowObject(["Nom"], [Str("Equipe")]) == [("Nom", Str("Equipe"))] by {
      assert ["Nom"][..0] == [];
    }
    forall i | 0 <= i < |p.rows| ensures keep(p.rows[i]) {
      assert DataRows(raw)[i] == [Str("Equipe")];
      assert p.rows[i] == [("Nom", Str("Equipe"))];
    }
    FilterKeepsAll(p.rows, keep);
  }

  /** The newer extraction of a sheet on the name column "Nom" alone. */
  function ExtractedFromSheet(raw: seq<seq<Cell>>): seq<TeamEntry>
    requires raw != []
  {
    var headers := Headers(raw[0]);
    if "Nom" in headers then Extracted(DataRows(raw), Columns(IndexOf(headers, "Nom"), -1, -1, -1)) else []
  }

  // ---------------------------------------------------------------------
  // File check

  const ValidExtensions: seq<string> := [".xlsx", ".xls", ".csv"]
  const MaxFileSize: int := 5 * 1024 * 1024
  const FormatError: string := "Format de fichier non supporté. Utilisez .xlsx, .xls ou .csv"
  const SizeError: string := "Fichier trop volumineux (max 5MB)"

  /** `s.lastIndexOf(c)`. */
  function LastIndexOf(s: string, c: char): (r: int)
    ensures -1 <= r < |s|
    ensures r == -1 <==> c !in s
    ensures r >= 0 ==> s[r] == c && forall j :: r < j < |s| ==> s[j] != c
  {
    if s == [] then -1
    else if s[|s| - 1] == c then |s| - 1
    else LastIndexOf(s[..|s| - 1], c)
  }

  /** `s.slice(start)`: a negative start counts from the end. */
  function SliceFrom(s: string, start: int): (r: string)
    ensures 0 <= start <= |s| ==> r == s[start..]
    ensures start < 0 ==> r == s[if |s| + start < 0 then 0 else |s| + start..]
  {
    if start < 0 then s[if |s| + start < 0 then 0 else |s| + start..]
    else if start > |s| then []
    else s[start..]
  }

  /** The lower-cased text from the last '.' on; with no '.', `slice(-1)`
      gives the last character. */
  function Extension(name: string): string {
    ToLowerAscii(SliceFrom(name, LastIndexOf(name, '.')))
  }

  datatype FileCheck = FileCheck(valid: bool, error: Option<string>)

  /** `validateExcelFile`: the extension is checked before the size. */
  function ValidateExcelFile(name: string, size: int): (r: FileCheck)
    ensures r.valid <==> Extension(name) in ValidExtensions && size <= MaxFileSize
    ensures r.valid <==> r.error.None?
    ensures Extension(name) !in ValidExtensions ==> r.error == Some(FormatError)
    ensures Extension(name) in ValidExtensions && size > MaxFileSize ==> r.error == Some(SizeError)
  {
    if Extension(name) !in ValidExtensions then FileCheck(false, Some(FormatError))
    else if size > MaxFileSize then FileCheck(false, Some(SizeError))
    else FileCheck(true, None)
  }

  /** A '.' followed by no other '.'. */
  predicate IsDotSuffix(e: string) {
    |e| > 0 && e[0] == '.' && forall j :: 0 < j < |e| ==> e[j] != '.'
  }

  lemma ValidExtensionsAreDotSuffixes(e: string)
    requires e in ValidExtensions
    ensures IsDotSuffix(e)
  {
    assert e == ".xlsx" || e == ".xls" || e == ".csv";
  }

  /** Lower-casing neither makes nor removes a '.'. */
  lemma LowerDotSuffix(ext: string)
    requires IsDotSuffix(ToLowerAscii(ext))
    ensures |ext| > 0 && ext[0] == '.'
    ensures forall j :: 0 < j < |ext| ==> ext[j] != '.'
  {
    var low := ToLowerAscii(ext);
    LowerKeepsDot(ext, 0);
    forall j | 0 < j < |ext| ensures ext[j] != '.' {
      LowerKeepsDot(ext, j);
    }
  }

  lemma LowerKeepsDot(ext: string, j: nat)
    requires j < |ext|
    ensures ToLowerAscii(ext)[j] == '.' <==> ext[j] == '.'
  {
  }

  /** The last '.' of `base + ext`, when `ext` is a '.' followed by no
      other '.', is the one that starts `ext`. */
  lemma LastDotOfSuffix(base: string, ext: string)
    requires |ext| > 0 && ext[0] == '.'
    requires forall j :: 0 < j < |ext| ==> ext[j] != '.'
    ensures LastIndexOf(base + ext, '.') == |base|
    ensures SliceFrom(base + ext, |base|) == ext
  {
    var name := base + ext;
    assert name[|base|] == '.';
  }

  /** Any name ending in an accepted extension, in any letter case, passes
      the extension check. */
  lemma SuffixAccepted(base: string, ext: string, size: int)
    requires ToLowerAscii(ext) in ValidExtensions
    requires size <= MaxFileSize
    ensures ValidateExcelFile(base + ext, size).valid
  {
    ValidExtensionsAreDotSuffixes(ToLowerAscii(ext));
    LowerDotSuffix(ext);
    LastDotOfSuffix(base, ext);
    assert Extension(base + ext) == ToLowerAscii(ext);
  }

  /** A name without a '.' is always refused: what remains is at most
      one character, shorter than every accepted extension. */
  lemma NoDotRejected(name: string, size: int)
    requires '.' !in name
    ensures !ValidateExcelFile(name, size).valid
    ensures ValidateExcelFile(name, size).error == Some(FormatError)
  {
    assert |Extension(name)| <= 1;
  }
}
