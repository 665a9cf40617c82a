/**
 * The spreadsheet conversion of `xml_xls_to_json_filtered`: a worksheet of a
 * Microsoft XML Spreadsheet 2003 document (namespace
 * urn:schemas-microsoft-com:office:spreadsheet), already parsed into rows of
 * cells, becomes a list of records restricted to the kept columns. The XML
 * parser, the pandas DataFrame and its JSON text are not modelled: the result
 * stops at the record list the DataFrame is built from.
 */
module SpreadsheetTransform {
  import opened Wrappers

  /** Header names whose columns never reach the output (COLUMNS_TO_IGNORE). */
  const ColumnsToIgnore: seq<string> :=
    ["Nota Agenda", "data_fine", "tutto_il_giorno", "data_inserimento",
     "classe_desc", "gruppo_desc", "aula", "materia"]

  /** The one renaming applied to kept columns (RENAME_MAP). */
  const RenameMap: map<string, string> := map["data_inizio" := "data"]

  /** A `Cell` element: without a `Data` child, or with one whose text is absent for an empty element. */
  datatype Cell = NoData | Data(text: Option<string>)

  type Row = seq<Cell>

  /**
   * A worksheet as the two lookups of the conversion see it: `firstRow` is the
   * first `Row` anywhere below the worksheet (`.//Row`, the header), and
   * `tableRows` are the `Row` children of its `Table` (`ss:Table/ss:Row`).
   */
  datatype Worksheet = Worksheet(firstRow: Option<Row>, tableRows: seq<Row>)

  /** What parsing an existing file gives: not XML at all, or a document whose `Worksheet` lookup found one or none. */
  datatype XmlFile = Unparsable | Parsed(worksheet: Option<Worksheet>)

  /** A header cell's text, absent for an empty `Data` element. */
  type Name = Option<string>
  /** A data cell's text; `None` also stands for a padded, missing cell. */
  type Value = Option<string>
  /** One output object: its keys and values in column order. */
  type Record = seq<(Name, Value)>

  /** Why a conversion stops: the exception it raises. */
  datatype ConvError =
    | FileNotFound     // the input file does not exist
    | ParseError       // the file is not well-formed XML
    | NoWorksheet      // no Worksheet element: `worksheet.find` on None
    | NoHeaderRow      // no Row below the worksheet: `header_row.findall` on None
    | CellWithoutData  // a data cell without Data child: `.text` on None
    | OutputNotFound   // `open(json_file_path, 'w')`: the output's directory does not exist
    | WriteFailed      // opening or writing the output raises another OSError

  /** The output path as `open(json_file_path, 'w')` and `f.write` meet it. */
  datatype Sink =
    | Writable         // the JSON text is written
    | MissingDirectory // the directory of the output path does not exist
    | Unwritable       // the file cannot be opened for writing or written

  /** True for a document in which every row sits directly in the worksheet's table, so the header is its first table row. */
  predicate Regular(ws: Worksheet)
  {
    ws.firstRow == if ws.tableRows == [] then None else Some(ws.tableRows[0])
  }

  // ---------------------------------------------------------------------
  // Header and column selection
  // ---------------------------------------------------------------------

  /** `original_columns`: the texts of the header cells that have a Data child, in order. */
  function HeaderNames(header: Row): (names: seq<Name>)
    ensures |names| <= |header|
    ensures |names| == |header| ==> forall k :: 0 <= k < |header| ==> header[k].Data?
  {
    if header == [] then []
    else (if header[0].Data? then [header[0].text] else []) + HeaderNames(header[1..])
  }

  /** The number of cells of a row that have a Data child. */
  function DataCellCount(row: Row): nat
  {
    if row == [] then 0 else (if row[0].Data? then 1 else 0) + DataCellCount(row[1..])
  }

  /** The header names of two runs of cells side by side are the names of the first run followed by those of the second. */
  lemma {:induction false} HeaderNamesConcat(a: Row, b: Row)
    ensures HeaderNames(a + b) == HeaderNames(a) + HeaderNames(b)
  {
    if a == [] {
      assert a + b == b;
    } else {
      var head := if a[0].Data? then [a[0].text] else [];
      assert (a + b)[0] == a[0] && (a + b)[1..] == a[1..] + b;
      assert HeaderNames(a + b) == head + HeaderNames(a[1..] + b);
      HeaderNamesConcat(a[1..], b);
      assert HeaderNames(a) == head + HeaderNames(a[1..]);
    }
  }

  /** A single cell gives its text when it has a Data child, and nothing otherwise. */
  lemma {:induction false} HeaderNamesOne(c: Cell)
    ensures HeaderNames([c]) == if c.Data? then [c.text] else []
  {
    assert [c][1..] == [];
  }

  /** A cell contributes its text, when it has a Data child, between the names of the cells around it. */
  lemma {:induction false} HeaderNamesAt(header: Row, k: nat)
    requires k < |header|
    ensures HeaderNames(header) ==
              HeaderNames(header[..k]) + (if header[k].Data? then [header[k].text] else []) + HeaderNames(header[k + 1..])
  {
    var p, c, q := header[..k], header[k], header[k + 1..];
    assert header == p + ([c] + q);
    HeaderNamesConcat(p, [c] + q);
    HeaderNamesConcat([c], q);
    HeaderNamesOne(c);
  }

  /** One name per Data cell. */
  lemma {:induction false} HeaderNamesCount(header: Row)
    ensures |HeaderNames(header)| == DataCellCount(header)
  {
    if header != [] {
      HeaderNamesCount(header[1..]);
    }
  }

  /** A header made of Data cells only keeps every text at its own position. */
  lemma {:induction false} HeaderNamesAllData(header: Row)
    requires forall k :: 0 <= k < |header| ==> header[k].Data?
    ensures |HeaderNames(header)| == |header|
    ensures forall k :: 0 <= k < |header| ==> HeaderNames(header)[k] == header[k].text
  {
    if header != [] {
      var rest := header[1..];
      assert forall k :: 0 <= k < |rest| ==> rest[k] == header[k + 1];
      HeaderNamesAllData(rest);
      assert HeaderNames(header) == [header[0].text] + HeaderNames(rest);
    }
  }

  /**
   * The header keeps one name per Data cell, in order: each cell contributes
   * its text, when it has a Data child, between the names of the cells before
   * it and those of the cells after it, so a cell without Data moves every
   * later name one position to the left.
   */
  lemma HeaderNamesDropCells(header: Row)
    ensures |HeaderNames(header)| == DataCellCount(header)
    ensures forall k :: 0 <= k < |header| ==>
              HeaderNames(header) ==
                HeaderNames(header[..k]) + (if header[k].Data? then [header[k].text] else []) + HeaderNames(header[k + 1..])
    ensures (forall k :: 0 <= k < |header| ==> header[k].Data?) ==>
              |HeaderNames(header)| == |header| &&
              forall k :: 0 <= k < |header| ==> HeaderNames(header)[k] == header[k].text
  {
    HeaderNamesCount(header);
    forall k | 0 <= k < |header|
      ensures HeaderNames(header) ==
                HeaderNames(header[..k]) + (if header[k].Data? then [header[k].text] else []) + HeaderNames(header[k + 1..])
    {
      HeaderNamesAt(header, k);
    }
    if forall k :: 0 <= k < |header| ==> header[k].Data? {
      HeaderNamesAllData(header);
    }
  }

  predicate Ignored(name: Name)
  {
    name.Some? && name.value in ColumnsToIgnore
  }

  function Renamed(name: Name): Name
  {
    if name.Some? && name.value in RenameMap then Some(RenameMap[name.value]) else name
  }

  /** `column_indices_to_include` as the loop leaves it after visiting `columns`. */
  function Included(columns: seq<Name>): (included: seq<nat>)
    ensures |included| <= |columns|
    ensures forall j :: 0 <= j < |included| ==> included[j] < |columns|
  {
    if columns == [] then []
    else
      var n := |columns| - 1;
      Included(columns[..n]) + (if Ignored(columns[n]) then [] else [n])
  }

  /** `final_columns` as the loop leaves it after visiting `columns`. */
  function FinalColumns(columns: seq<Name>): (names: seq<Name>)
    ensures |names| <= |columns|
  {
    if columns == [] then []
    else
      var n := |columns| - 1;
      FinalColumns(columns[..n]) + (if Ignored(columns[n]) then [] else [Renamed(columns[n])])
  }

  /** Visiting one more header name appends at most one index and one name. */
  lemma SelectionSnoc(prefix: seq<Name>, name: Name)
    ensures Included(prefix + [name]) == Included(prefix) + (if Ignored(name) then [] else [|prefix|])
    ensures FinalColumns(prefix + [name]) == FinalColumns(prefix) + (if Ignored(name) then [] else [Renamed(name)])
  {
    assert (prefix + [name])[..|prefix|] == prefix;
  }

  /** One output name per kept index. */
  lemma {:induction false} SelectionLength(columns: seq<Name>)
    ensures |Included(columns)| == |FinalColumns(columns)|
  {
    if columns != [] {
      var n := |columns| - 1;
      SelectionLength(columns[..n]);
    }
  }

  /** The kept indices are in bounds and increasing. */
  lemma {:induction false} IncludedIncreasing(columns: seq<Name>)
    ensures forall j :: 0 <= j < |Included(columns)| ==> Included(columns)[j] < |columns|
    ensures forall j, j' :: 0 <= j < j' < |Included(columns)| ==> Included(columns)[j] < Included(columns)[j']
  {
    if columns != [] {
      var n := |columns| - 1;
      IncludedIncreasing(columns[..n]);
    }
  }

  /** The kept indices are exactly the positions of names outside the ignore list. */
  lemma {:induction false} IncludedExactly(columns: seq<Name>)
    ensures forall i :: 0 <= i < |columns| ==> (i in Included(columns) <==> !Ignored(columns[i]))
  {
    if columns != [] {
      var n := |columns| - 1;
      var prefix := columns[..n];
      IncludedExactly(prefix);
      IncludedIncreasing(prefix);
      assert forall i :: 0 <= i < n ==> prefix[i] == columns[i];
    }
  }

  /** Each output name is the renamed header name at the kept index. */
  lemma {:induction false} FinalNames(columns: seq<Name>)
    ensures forall j :: 0 <= j < |Included(columns)| ==>
              && Included(columns)[j] < |columns| && j < |FinalColumns(columns)|
              && FinalColumns(columns)[j] == Renamed(columns[Included(columns)[j]])
  {
    SelectionLength(columns);
    IncludedIncreasing(columns);
    if columns != [] {
      var n := |columns| - 1;
      var prefix := columns[..n];
      FinalNames(prefix);
      IncludedIncreasing(prefix);
      SelectionLength(prefix);
      assert forall i :: 0 <= i < n ==> prefix[i] == columns[i];
    }
  }

  /**
   * The column selection: the kept indices are increasing, in bounds, exactly
   * the positions of names outside the ignore list, and the output names are
   * those names with `data_inizio` turned into `data` and every other name unchanged.
   */
  lemma ColumnSelection(columns: seq<Name>)
    ensures |Included(columns)| == |FinalColumns(columns)|
    ensures forall j :: 0 <= j < |Included(columns)| ==> Included(columns)[j] < |columns|
    ensures forall j, j' :: 0 <= j < j' < |Included(columns)| ==> Included(columns)[j] < Included(columns)[j']
    ensures forall i :: 0 <= i < |columns| ==> (i in Included(columns) <==> !Ignored(columns[i]))
    ensures forall j :: 0 <= j < |Included(columns)| ==>
              FinalColumns(columns)[j] ==
                (if columns[Included(columns)[j]] == Some("data_inizio") then Some("data")
                 else columns[Included(columns)[j]])
  {
    SelectionLength(columns);
    IncludedIncreasing(columns);
    IncludedExactly(columns);
    FinalNames(columns);
  }

  /** The loop of the header step: visits every header name once and appends the kept ones. */
  method SelectColumns(original: seq<Name>) returns (included: seq<nat>, finalColumns: seq<Name>)
    ensures included == Included(original) && finalColumns == FinalColumns(original)
    ensures |included| == |finalColumns|
    ensures forall j :: 0 <= j < |included| ==> included[j] < |original|
    ensures forall j, j' :: 0 <= j < j' < |included| ==> included[j] < included[j']
    ensures forall i :: 0 <= i < |original| ==> (i in included <==> !Ignored(original[i]))
    ensures forall j :: 0 <= j < |included| ==> finalColumns[j] == Renamed(original[included[j]])
  {
    included, finalColumns := [], [];
    for i := 0 to |original|
      invariant included == Included(original[..i])
      invariant finalColumns == FinalColumns(original[..i])
    {
      assert original[..i + 1][..i] == original[..i];
      if !Ignored(original[i]) {
        included := included + [i];
        finalColumns := finalColumns + [Renamed(original[i])];
      }
    }
    assert original[..|original|] == original;
    ColumnSelection(original);
  }

  // ---------------------------------------------------------------------
  // Data rows: cell texts, padding, projection
  // ---------------------------------------------------------------------

  /** `row_data_full` before padding: every cell's text, or nothing when a cell has no Data child. */
  function CellTexts(row: Row): (texts: Option<seq<Value>>)
    ensures texts.Some? <==> forall k :: 0 <= k < |row| ==> row[k].Data?
    ensures texts.Some? ==> |texts.value| == |row| && forall k :: 0 <= k < |row| ==> Data(texts.value[k]) == row[k]
  {
    if forall k :: 0 <= k < |row| ==> row[k].Data? then
      Some(seq(|row|, k requires 0 <= k < |row| && row[k].Data? => row[k].text))
    else None
  }

  /** A row whose cells all have Data gives each cell's text at its own position. */
  lemma CellTextsOfDataRow(row: Row)
    requires forall k :: 0 <= k < |row| ==> row[k].Data?
    ensures CellTexts(row).Some? && |CellTexts(row).value| == |row|
    ensures forall k :: 0 <= k < |row| ==> CellTexts(row).value[k] == row[k].text
  {
  }

  /** A row after the padding loop: the original cells, then `None` up to `width`. */
  function Padded(row: seq<Value>, width: nat): (padded: seq<Value>)
    ensures |padded| == if |row| < width then width else |row|
    ensures padded[..|row|] == row
    ensures forall k :: |row| <= k < |padded| ==> padded[k] == None
  {
    if |row| >= width then row else row + seq(width - |row|, _ => None)
  }

  /** The padding loop of a data row: appends `None` while the row is shorter than the header. */
  method PadRow(row: seq<Value>, width: nat) returns (padded: seq<Value>)
    ensures padded == Padded(row, width)
    ensures |padded| == if |row| < width then width else |row|
    ensures padded[..|row|] == row
    ensures forall k :: |row| <= k < |padded| ==> padded[k] == None
  {
    padded := row;
    while |padded| < width
      invariant |row| <= |padded| <= if |row| < width then width else |row|
      invariant padded[..|row|] == row
      invariant forall k :: |row| <= k < |padded| ==> padded[k] == None
      decreases width - |padded|
    {
      padded := padded + [None];
    }
    var expected := Padded(row, width);
    assert |padded| == |expected|;
    assert forall k :: 0 <= k < |padded| ==> padded[k] == expected[k] by {
      forall k | 0 <= k < |padded| ensures padded[k] == expected[k] {
        if k < |row| {
          assert padded[k] == padded[..|row|][k] && expected[k] == expected[..|row|][k];
        }
      }
    }
  }

  /** `filtered_row_data`: the padded row read at the kept indices. */
  function Project(padded: seq<Value>, included: seq<nat>): (r: seq<Value>)
    requires forall j :: 0 <= j < |included| ==> included[j] < |padded|
    ensures |r| == |included|
    ensures forall j :: 0 <= j < |r| ==> r[j] == padded[included[j]]
  {
    seq(|included|, j requires 0 <= j < |included| => padded[included[j]])
  }

  /** A data row as the conversion turns it into values: texts, padded to the header length, projected. */
  function ProjectedRow(original: seq<Name>, row: Row): Option<seq<Value>>
  {
    match CellTexts(row)
    case None => None
    case Some(texts) =>
      ColumnSelection(original);
      Some(Project(Padded(texts, |original|), Included(original)))
  }

  /** The value a data row holds at a column position: the cell's text, or `None` past the row's end. */
  function CellValue(row: Row, k: nat): Value
  {
    if k < |row| && row[k].Data? then row[k].text else None
  }

  /** A record: the column names paired with the row's values (the DataFrame built from `data`). */
  function RecordOf(columns: seq<Name>, values: seq<Value>): Record
    requires |columns| == |values|
  {
    seq(|values|, j requires 0 <= j < |values| => (columns[j], values[j]))
  }

  /** The rows after the header (`[1:]` of the table rows). */
  function DataRows(rows: seq<Row>): seq<Row>
  {
    if rows == [] then [] else rows[1..]
  }

  /** The records of the data rows, or the error raised by the first row with a cell lacking Data. */
  function Records(original: seq<Name>, rows: seq<Row>): (r: Result<seq<Record>, ConvError>)
    ensures r.Failure? ==> r.error == CellWithoutData
    ensures r.Success? ==> |r.value| == |rows| && forall i :: 0 <= i < |rows| ==> |r.value[i]| == |FinalColumns(original)|
  {
    if exists i :: 0 <= i < |rows| && ProjectedRow(original, rows[i]).None? then
      Failure(CellWithoutData)
    else
      ColumnSelection(original);
      Success(seq(|rows|, i requires 0 <= i < |rows| && ProjectedRow(original, rows[i]).Some? =>
        RecordOf(FinalColumns(original), ProjectedRow(original, rows[i]).value)))
  }

  /** The whole conversion of a file, absent (`None`) or present with its parse. */
  function Transform(input: Option<XmlFile>): (r: Result<seq<Record>, ConvError>)
    ensures r.Success? ==>
              && input.Some? && input.value.Parsed? && input.value.worksheet.Some?
              && input.value.worksheet.value.firstRow.Some?
              && |r.value| == |DataRows(input.value.worksheet.value.tableRows)|
    ensures r.Failure? ==> r.error != OutputNotFound && r.error != WriteFailed
  {
    match input
    case None => Failure(FileNotFound)
    case Some(Unparsable) => Failure(ParseError)
    case Some(Parsed(None)) => Failure(NoWorksheet)
    case Some(Parsed(Some(ws))) =>
      if ws.firstRow.None? then Failure(NoHeaderRow)
      else Records(HeaderNames(ws.firstRow.value), DataRows(ws.tableRows))
  }

  /**
   * The conversion steps of `xml_xls_to_json_filtered` up to the DataFrame:
   * header, column selection, then one padded and projected list per data row.
   * An error ends the conversion at once.
   */
  method Convert(input: Option<XmlFile>) returns (r: Result<seq<Record>, ConvError>)
    ensures r == Transform(input)
  {
    if input.None? {
      return Failure(FileNotFound);
    }
    if input.value.Unparsable? {
      return Failure(ParseError);
    }
    if input.value.worksheet.None? {
      return Failure(NoWorksheet);
    }
    var ws := input.value.worksheet.value;
    if ws.firstRow.None? {
      return Failure(NoHeaderRow);
    }
    var original := HeaderNames(ws.firstRow.value);
    var included, finalColumns := SelectColumns(original);
    var rows := DataRows(ws.tableRows);
    var data: seq<seq<Value>> := [];
    for i := 0 to |rows|
      invariant |data| == i
      invariant forall k :: 0 <= k < i ==> ProjectedRow(original, rows[k]) == Some(data[k])
      invariant forall k :: 0 <= k < i ==> |data[k]| == |finalColumns|
    {
      var texts := CellTexts(rows[i]);
      if texts.None? {
        assert ProjectedRow(original, rows[i]).None?;
        return Failure(CellWithoutData);
      }
      var padded := PadRow(texts.value, |original|);
      data := data + [Project(padded, included)];
    }
    r := Success(seq(|data|, i requires 0 <= i < |data| => RecordOf(finalColumns, data[i])));
    var expected := Records(original, rows);
    assert !exists i :: 0 <= i < |rows| && ProjectedRow(original, rows[i]).None?;
    assert |expected.value| == |r.value|;
    forall i | 0 <= i < |rows| ensures expected.value[i] == r.value[i] {
    }
    assert expected.value == r.value;
  }

  /**
   * A successful conversion gives one record per data row; record i has one
   * pair per kept column, named as the output column, whose value is the text
   * of the data row's cell at the kept index, or `None` when the row is
   * shorter than the header; no cell beyond the header's width is read.
   */
  lemma TransformRecords(ws: Worksheet, header: Row)
    requires ws.firstRow == Some(header)
    requires Transform(Some(Parsed(Some(ws)))).Success?
    ensures var records := Transform(Some(Parsed(Some(ws)))).value;
            var original := HeaderNames(header);
            var rows := DataRows(ws.tableRows);
            && |records| == |rows|
            && forall i :: 0 <= i < |rows| ==>
                 && |records[i]| == |FinalColumns(original)| == |Included(original)|
                 && forall j :: 0 <= j < |records[i]| ==>
                      && Included(original)[j] < |original|
                      && records[i][j] == (FinalColumns(original)[j], CellValue(rows[i], Included(original)[j]))
  {
    var records := Transform(Some(Parsed(Some(ws)))).value;
    var original := HeaderNames(header);
    var rows := DataRows(ws.tableRows);
    ColumnSelection(original);
    forall i, j | 0 <= i < |rows| && 0 <= j < |records[i]|
      ensures records[i][j] == (FinalColumns(original)[j], CellValue(rows[i], Included(original)[j]))
    {
      var texts := CellTexts(rows[i]).value;
      var padded := Padded(texts, |original|);
      var k := Included(original)[j];
      if k < |texts| {
        assert padded[k] == padded[..|texts|][k];
      }
    }
  }

  /** Each error is raised by exactly its cause; a data cell without Data fails the whole conversion. */
  lemma TransformErrors(input: Option<XmlFile>)
    ensures Transform(input) == Failure(FileNotFound) <==> input.None?
    ensures Transform(input) == Failure(ParseError) <==> input == Some(Unparsable)
    ensures Transform(input) == Failure(NoWorksheet) <==> input == Some(Parsed(None))
    ensures Transform(input) == Failure(NoHeaderRow) <==>
              input.Some? && input.value.Parsed? && input.value.worksheet.Some? &&
              input.value.worksheet.value.firstRow.None?
    ensures Transform(input) == Failure(CellWithoutData) <==>
              && input.Some? && input.value.Parsed? && input.value.worksheet.Some?
              && input.value.worksheet.value.firstRow.Some?
              && var rows := DataRows(input.value.worksheet.value.tableRows);
                 exists i, k :: 0 <= i < |rows| && 0 <= k < |rows[i]| && rows[i][k].NoData?
  {
    if input.Some? && input.value.Parsed? && input.value.worksheet.Some? && input.value.worksheet.value.firstRow.Some? {
      var ws := input.value.worksheet.value;
      var original := HeaderNames(ws.firstRow.value);
      var rows: seq<Row> := DataRows(ws.tableRows);
      if exists i, k :: 0 <= i < |rows| && 0 <= k < |rows[i]| && rows[i][k].NoData? {
        var i, k :| 0 <= i < |rows| && 0 <= k < |rows[i]| && rows[i][k].NoData?;
        assert ProjectedRow(original, rows[i]).None?;
      }
    }
  }

  /** For a regular worksheet: no row at all fails (the header lookup finds nothing); a header alone gives no record. */
  lemma ShortWorksheets(ws: Worksheet)
    requires Regular(ws)
    ensures |ws.tableRows| == 0 ==> Transform(Some(Parsed(Some(ws)))) == Failure(NoHeaderRow)
    ensures |ws.tableRows| == 1 ==> Transform(Some(Parsed(Some(ws)))) == Success([])
  {
    if |ws.tableRows| == 1 {
      var rows := DataRows(ws.tableRows);
      assert rows == [];
      var r := Records(HeaderNames(ws.firstRow.value), rows);
      assert r.Success? && |r.value| == 0;
    }
  }

  /** A worksheet of a header and one data row whose cells all have Data converts to one record, read at the kept indices. */
  lemma OneDataRow(ws: Worksheet, header: Row, row: Row)
    requires ws.firstRow == Some(header) && ws.tableRows == [header, row]
    requires forall k :: 0 <= k < |row| ==> row[k].Data?
    ensures Transform(Some(Parsed(Some(ws)))).Success?
    ensures var records := Transform(Some(Parsed(Some(ws)))).value;
            var original := HeaderNames(header);
            && |records| == 1 && |records[0]| == |Included(original)| == |FinalColumns(original)|
            && forall j :: 0 <= j < |records[0]| ==>
                 && Included(original)[j] < |original|
                 && records[0][j] == (FinalColumns(original)[j], CellValue(row, Included(original)[j]))
  {
    var input := Some(Parsed(Some(ws)));
    assert DataRows(ws.tableRows) == [row];
    TransformErrors(input);
    TransformRecords(ws, header);
  }

  /** The header `data_inizio, materia, Nota Agenda, aula` with one data row yields the single record `data: 2025-11-01`. */
  lemma DataInizioExample()
    ensures var header := [Data(Some("data_inizio")), Data(Some("materia")), Data(Some("Nota Agenda")), Data(Some("aula"))];
            var row := [Data(Some("2025-11-01")), Data(Some("Matematica")), Data(None), Data(Some("Lab1"))];
            Transform(Some(Parsed(Some(Worksheet(Some(header), [header, row]))))) ==
              Success([[(Some("data"), Some("2025-11-01"))]])
  {
    var header := [Data(Some("data_inizio")), Data(Some("materia")), Data(Some("Nota Agenda")), Data(Some("aula"))];
    var row := [Data(Some("2025-11-01")), Data(Some("Matematica")), Data(None), Data(Some("Lab1"))];
    DataInizioColumns(header);
    FirstColumnOnly(header, Some("data"), [Data(Some("2025-11-01")), Data(Some("Matematica")), Data(None), Data(Some("Lab1"))]);
  }

  /** A header selecting only the first column under name `a`, and one row whose cells all have Data, give one one-pair record. */
  lemma FirstColumnOnly(header: Row, a: Name, row: Row)
    requires Included(HeaderNames(header)) == [0] && FinalColumns(HeaderNames(header)) == [a]
    requires 0 < |row| && forall k :: 0 <= k < |row| ==> row[k].Data?
    ensures Transform(Some(Parsed(Some(Worksheet(Some(header), [header, row]))))) == Success([[(a, row[0].text)]])
  {
    var ws := Worksheet(Some(header), [header, row]);
    OneDataRow(ws, header, row);
    var records := Transform(Some(Parsed(Some(ws)))).value;
    assert CellValue(row, 0) == row[0].text;
    assert records[0] == [(a, row[0].text)];
    assert records == [records[0]];
  }

  /** Of four names where only the first is kept, the selection keeps index 0 under its new name. */
  lemma KeepFirstOfFour(a: Name, b: Name, c: Name, d: Name)
    requires !Ignored(a) && Ignored(b) && Ignored(c) && Ignored(d)
    ensures Included([a, b, c, d]) == [0] && FinalColumns([a, b, c, d]) == [Renamed(a)]
  {
    var p1 := [] + [a];
    var p2 := p1 + [b];
    var p3 := p2 + [c];
    SelectionSnoc([], a);
    SelectionSnoc(p1, b);
    SelectionSnoc(p2, c);
    SelectionSnoc(p3, d);
    assert p3 + [d] == [a, b, c, d];
  }

  /** Of two kept names, the selection keeps both positions in order. */
  lemma KeepBothOfTwo(a: Name, b: Name)
    requires !Ignored(a) && !Ignored(b)
    ensures Included([a, b]) == [0, 1] && FinalColumns([a, b]) == [Renamed(a), Renamed(b)]
  {
    var p1 := [] + [a];
    SelectionSnoc([], a);
    SelectionSnoc(p1, b);
    assert p1 + [b] == [a, b];
  }

  /** The column selection of the example header keeps only the first column, renamed. */
  lemma DataInizioColumns(header: Row)
    requires header == [Data(Some("data_inizio")), Data(Some("materia")), Data(Some("Nota Agenda")), Data(Some("aula"))]
    ensures HeaderNames(header) == [Some("data_inizio"), Some("materia"), Some("Nota Agenda"), Some("aula")]
    ensures Included(HeaderNames(header)) == [0] && FinalColumns(HeaderNames(header)) == [Some("data")]
  {
    HeaderNamesDropCells(header);
    assert ColumnsToIgnore[7] == "materia" && ColumnsToIgnore[0] == "Nota Agenda" && ColumnsToIgnore[6] == "aula";
    assert "data_inizio" !in ColumnsToIgnore;
    KeepFirstOfFour(Some("data_inizio"), Some("materia"), Some("Nota Agenda"), Some("aula"));
  }

  /**
   * A header cell without Data is dropped, so later names move one position
   * left and are read from the data cell under the dropped one.
   */
  lemma HeaderShiftExample()
    ensures var header := [NoData, Data(Some("compiti")), Data(Some("docente"))];
            var row := [Data(Some("x")), Data(Some("y"))];
            Transform(Some(Parsed(Some(Worksheet(Some(header), [header, row]))))) ==
              Success([[(Some("compiti"), Some("x")), (Some("docente"), Some("y"))]])
  {
    var header := [NoData, Data(Some("compiti")), Data(Some("docente"))];
    var row := [Data(Some("x")), Data(Some("y"))];
    ShiftColumns(header);
    FirstTwoColumns(header, Some("compiti"), Some("docente"), Some("x"), Some("y"));
  }

  /** A header selecting the first two columns under names `a` and `b`, and one row of two texts, give one two-pair record. */
  lemma FirstTwoColumns(header: Row, a: Name, b: Name, x: Value, y: Value)
    requires Included(HeaderNames(header)) == [0, 1] && FinalColumns(HeaderNames(header)) == [a, b]
    ensures Transform(Some(Parsed(Some(Worksheet(Some(header), [header, [Data(x), Data(y)]]))))) == Success([[(a, x), (b, y)]])
  {
    var row := [Data(x), Data(y)];
    var ws := Worksheet(Some(header), [header, row]);
    OneDataRow(ws, header, row);
    var records := Transform(Some(Parsed(Some(ws)))).value;
    assert CellValue(row, 0) == x && CellValue(row, 1) == y;
    assert records[0] == [(a, x), (b, y)];
    assert records == [records[0]];
  }

  /** A seven-letter name not starting with `m` is neither ignored nor renamed: every listed name differs from it in length or first letter. */
  lemma SevenLetterKept(n: string)
    requires |n| == 7 && n[0] != 'm'
    ensures !Ignored(Some(n)) && Renamed(Some(n)) == Some(n)
  {
    assert ColumnsToIgnore[7] == "materia";
    assert forall k :: 0 <= k < 7 ==> |ColumnsToIgnore[k]| != 7;
    assert "materia"[0] == 'm';
    assert RenameMap.Keys == {"data_inizio"} && |"data_inizio"| == 11;
  }

  /** The column selection of the shifted header keeps both named columns at positions 0 and 1. */
  lemma ShiftColumns(header: Row)
    requires header == [NoData, Data(Some("compiti")), Data(Some("docente"))]
    ensures HeaderNames(header) == [Some("compiti"), Some("docente")]
    ensures Included(HeaderNames(header)) == [0, 1]
    ensures FinalColumns(HeaderNames(header)) == [Some("compiti"), Some("docente")]
  {
    var rest := header[1..];
    var last := rest[1..];
    assert last == [Data(Some("docente"))];
    HeaderNamesOne(Data(Some("docente")));
    assert HeaderNames(rest) == [Some("compiti")] + HeaderNames(last);
    assert HeaderNames(header) == HeaderNames(rest);
    SevenLetterKept("compiti");
    SevenLetterKept("docente");
    KeepBothOfTwo(Some("compiti"), Some("docente"));
  }

  /**
   * The conversion followed by the write of its JSON text: the output file is
   * opened only once the records are computed, so an error of the conversion
   * wins over any problem of the output path.
   */
  function ConvertAndWrite(input: Option<XmlFile>, sink: Sink): (r: Result<seq<Record>, ConvError>)
    ensures r.Success? <==> Transform(input).Success? && sink == Writable
    ensures r.Success? ==> r == Transform(input)
    ensures Transform(input).Failure? ==> r == Transform(input)
    ensures r == Failure(OutputNotFound) <==> Transform(input).Success? && sink == MissingDirectory
    ensures r == Failure(WriteFailed) <==> Transform(input).Success? && sink == Unwritable
  {
    match Transform(input)
    case Failure(e) => Failure(e)
    case Success(records) =>
      match sink
      case Writable => Success(records)
      case MissingDirectory => Failure(OutputNotFound)
      case Unwritable => Failure(WriteFailed)
  }

  /**
   * What `xml_xls_to_json_filtered` reports: the records written to the output
   * file, the message that the input file was not found, or the message of any
   * other error.
   */
  datatype Report = Written(records: seq<Record>) | ReportedNotFound | ReportedError(error: ConvError)

  /**
   * The standalone converter: every error is caught and reported; the output is
   * written only when the conversion went through and the output can be
   * written. Any `FileNotFoundError` is reported as a missing input file, also
   * the one `open` raises for an output whose directory does not exist.
   */
  method XmlXlsToJsonFiltered(input: Option<XmlFile>, sink: Sink) returns (report: Report)
    ensures report.Written? <==> Transform(input).Success? && sink == Writable
    ensures report.Written? ==> Transform(input) == Success(report.records)
    ensures report.ReportedNotFound? <==> input.None? || (Transform(input).Success? && sink == MissingDirectory)
    ensures report.ReportedError? ==>
              && report.error != FileNotFound && report.error != OutputNotFound
              && (Transform(input) == Failure(report.error) ||
                  (Transform(input).Success? && sink == Unwritable && report.error == WriteFailed))
  {
    var r := Convert(input);
    if r.Success? {
      match sink
      case Writable => report := Written(r.value);
      case MissingDirectory => report := ReportedNotFound;
      case Unwritable => report := ReportedError(WriteFailed);
    } else if r.error == FileNotFound {
      report := ReportedNotFound;
    } else {
      report := ReportedError(r.error);
    }
    TransformErrors(input);
  }
}
