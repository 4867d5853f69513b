/** `parseXlsx`: the rows of a workbook's first sheet turned into the text,
    JSON, Lua, binary and TypeScript outputs. Opening the workbook and writing
    the files are left out; the sheet arrives as its rows of cell strings and
    the outputs are returned as values. */
module Sheet {
  import opened Wrappers
  import opened Values
  import opened Buffers
  import Text
  import Sorting
  import Schema
  import Convert
  import Lua
  import TsInterface

  /** The settings `parseXlsx` reads, with the row numbers already made
      0-based by `loadConfig`. An output directory is modelled by whether it
      is set. */
  datatype Config = Config(
    fieldLine: int, typeLine: int, groupLine: int, dataLine: int,
    groups: seq<string>, comment: string, comma: string, linefeed: string,
    txt: bool, json: bool, lua: bool, bin: bool, ts: bool, useSheetName: bool)

  /** A cell its column's type tag cannot convert; it ends the whole run
      (`log.Fatal`). Row and column are 1-based, as in the message. */
  datatype SheetError = CellError(row: int, col: int, cause: Convert.ConvertError)

  // ---------------------------------------------------------------------
  // The schema of a sheet

  /** The field row exists and, when it has cells, so does the group row,
      with a cell under every field cell (`lines[GroupLine][i]` is read
      inside the loop over the field cells, so only then). */
  predicate HeaderReadable(cfg: Config, lines: seq<seq<string>>) {
    && 0 <= cfg.fieldLine < |lines|
    && (|lines[cfg.fieldLine]| > 0 ==>
          0 <= cfg.groupLine < |lines| && |lines[cfg.fieldLine]| <= |lines[cfg.groupLine]|)
  }

  /** The group cells the schema loop reads: none when the field row is empty. */
  function GroupRow(cfg: Config, lines: seq<seq<string>>): (r: seq<string>)
    requires HeaderReadable(cfg, lines)
    ensures |lines[cfg.fieldLine]| <= |r|
  {
    if |lines[cfg.fieldLine]| == 0 then [] else lines[cfg.groupLine]
  }

  /** The sheet's `fieldMap`: exported column index to field name. */
  function Fields(cfg: Config, lines: seq<seq<string>>): map<int, string>
    requires HeaderReadable(cfg, lines)
  {
    Schema.FieldMap(lines[cfg.fieldLine], GroupRow(cfg, lines), cfg.groups)
  }

  /** `idxList`: the exported columns, in increasing order. */
  function Columns(cfg: Config, lines: seq<seq<string>>): (r: seq<int>)
    requires HeaderReadable(cfg, lines)
    ensures Schema.StrictlyIncreasing(r)
    ensures forall c :: c in r <==> c in Fields(cfg, lines)
  {
    var fieldRow := lines[cfg.fieldLine];
    Schema.SchemaDedup(fieldRow, GroupRow(cfg, lines), cfg.groups);
    Schema.AscendingListsSet(Fields(cfg, lines).Keys, |fieldRow|);
    Schema.Ascending(Fields(cfg, lines).Keys, |fieldRow|)
  }

  /** `fields`: the names of the columns `cols`, in that order. */
  function Names(fm: map<int, string>, cols: seq<int>): (r: seq<string>)
    requires forall j :: 0 <= j < |cols| ==> cols[j] in fm
    ensures |r| == |cols|
    ensures forall j :: 0 <= j < |cols| ==> r[j] == fm[cols[j]]
  {
    if |cols| == 0 then [] else [fm[cols[0]]] + Names(fm, cols[1..])
  }

  /** The cells of `line` in the columns `cols`, in that order. */
  function Cells(line: seq<string>, cols: seq<int>): (r: seq<string>)
    requires forall j :: 0 <= j < |cols| ==> 0 <= cols[j] < |line|
    ensures |r| == |cols|
    ensures forall j :: 0 <= j < |cols| ==> r[j] == line[cols[j]]
  {
    if |cols| == 0 then [] else [line[cols[0]]] + Cells(line, cols[1..])
  }

  // ---------------------------------------------------------------------
  // One row

  /** A row that is neither empty nor commented out. */
  predicate Active(cfg: Config, line: seq<string>) {
    |line| > 0 && !Text.HasPrefix(line[0], cfg.comment)
  }

  /** The cells of `line[..j]` that lie in exported columns, left to right. */
  function Picked(line: seq<string>, fm: map<int, string>, j: nat): seq<string>
    requires j <= |line|
  {
    if j == 0 then []
    else Picked(line, fm, j - 1) + (if j - 1 in fm then [line[j - 1]] else [])
  }

  /** The text the row loop writes for `line[..j]`: each exported cell,
      followed by the separator while fewer than `count` cells are written. */
  function CellsText(line: seq<string>, fm: map<int, string>, count: int, comma: string, j: nat): string
    requires j <= |line|
  {
    if j == 0 then ""
    else
      CellsText(line, fm, count, comma, j - 1) +
      (if j - 1 in fm then line[j - 1] + (if |Picked(line, fm, j)| < count then comma else "") else "")
  }

  /** The values of the exported cells of `line[..j]`, each converted under
      its column's tag in `types`, or the first cell that cannot be. `row` is
      the 0-based row number, for the error. */
  function ConvertRow(env: Env, types: seq<string>, line: seq<string>, fm: map<int, string>, row: int, j: nat)
    : Result<seq<Value>, SheetError>
    requires j <= |line|
    requires forall i :: i in fm && 0 <= i < j ==> i < |types|
  {
    if j == 0 then Ok([])
    else
      match ConvertRow(env, types, line, fm, row, j - 1)
      case Err(e) => Err(e)
      case Ok(vals) =>
        if j - 1 in fm then
          match Convert.TypeConvert(env, types[j - 1], line[j - 1])
          case Ok(v) => Ok(vals + [v])
          case Err(e) => Err(CellError(row + 1, j, e))
        else Ok(vals)
  }

  /** The type row has a tag for every exported cell of `line`. */
  predicate TypesCover(cfg: Config, lines: seq<seq<string>>, fm: map<int, string>, line: seq<string>) {
    && 0 <= cfg.typeLine < |lines|
    && forall i :: i in fm && 0 <= i < |line| ==> i < |lines[cfg.typeLine]|
  }

  /** The cells the row loop indexes exist: the key column `pk` of every
      active row, and the type tags of every row that reaches conversion. */
  predicate RowsReadable(cfg: Config, lines: seq<seq<string>>, fm: map<int, string>, pk: int) {
    && (forall n :: 0 <= n < |lines| && Active(cfg, lines[n]) ==> 0 <= pk < |lines[n]|)
    && (forall n ::
          (0 <= n < |lines| && Active(cfg, lines[n]) && cfg.dataLine <= n && 0 <= pk < |lines[n]| && lines[n][pk] != "")
          ==> TypesCover(cfg, lines, fm, lines[n]))
  }

  // ---------------------------------------------------------------------
  // The row loop

  /** What the row loop has gathered: the text buffer and the data rows. */
  datatype Rows = Rows(text: string, data: seq<Value>)

  /** The row loop over `lines[..n]`. */
  function RowsUpTo(env: Env, cfg: Config, lines: seq<seq<string>>, fm: map<int, string>, pk: int, count: int, n: nat)
    : Result<Rows, SheetError>
    requires n <= |lines| && RowsReadable(cfg, lines, fm, pk)
  {
    if n == 0 then Ok(Rows("", []))
    else
      match RowsUpTo(env, cfg, lines, fm, pk, count, n - 1)
      case Err(e) => Err(e)
      case Ok(acc) => RowStep(env, cfg, lines, fm, pk, count, n - 1, acc)
  }

  /** Row `n` of the loop: empty rows, comments and rows with an empty key
      are skipped; the others go to the text buffer (except the group row),
      and from the data line on also to the data. */
  function RowStep(env: Env, cfg: Config, lines: seq<seq<string>>, fm: map<int, string>, pk: int, count: int,
                   n: nat, acc: Rows): Result<Rows, SheetError>
    requires n < |lines| && RowsReadable(cfg, lines, fm, pk)
  {
    var line := lines[n];
    if !Active(cfg, line) || line[pk] == "" then Ok(acc)
    else
      var text :=
        if cfg.txt && n != cfg.groupLine then acc.text + CellsText(line, fm, count, cfg.comma, |line|) + cfg.linefeed
        else acc.text;
      if n < cfg.dataLine then Ok(Rows(text, acc.data))
      else
        match ConvertRow(env, lines[cfg.typeLine], line, fm, n, |line|)
        case Err(e) => Err(e)
        case Ok(vals) => Ok(Rows(text, if |vals| > 0 then acc.data + [List(vals)] else acc.data))
  }

  /** The text loop over one row (excelTool.go:247-256). */
  method WriteRowText(buffer: Buffer, line: seq<string>, fieldMap: map<int, string>, fieldCount: int, comma: string)
    modifies buffer
    ensures buffer.text == old(buffer.text) + CellsText(line, fieldMap, fieldCount, comma, |line|)
  {
    var fieldNum := 0;
    for i := 0 to |line|
      invariant fieldNum == |Picked(line, fieldMap, i)|
      invariant buffer.text == old(buffer.text) + CellsText(line, fieldMap, fieldCount, comma, i)
    {
      ghost var done := CellsText(line, fieldMap, fieldCount, comma, i);
      if i in fieldMap {
        fieldNum := fieldNum + 1;
        buffer.WriteString(line[i]);
        if fieldNum < fieldCount {
          buffer.WriteString(comma);
          Text.AppendAssoc(old(buffer.text) + done, line[i], comma);
          Text.AppendAssoc(old(buffer.text), done, line[i] + comma);
        } else {
          assert line[i] + "" == line[i];
          Text.AppendAssoc(old(buffer.text), done, line[i]);
        }
      } else {
        assert done + "" == done;
      }
    }
  }

  /** The conversion loop over one row (excelTool.go:266-275). */
  method ConvertCells(env: Env, types: seq<string>, line: seq<string>, fieldMap: map<int, string>, n: int)
    returns (r: Result<seq<Value>, SheetError>)
    requires forall i :: i in fieldMap && 0 <= i < |line| ==> i < |types|
    ensures r == ConvertRow(env, types, line, fieldMap, n, |line|)
  {
    var lineData: seq<Value> := [];
    for i := 0 to |line|
      invariant ConvertRow(env, types, line, fieldMap, n, i) == Ok(lineData)
    {
      if i in fieldMap {
        var ret := Convert.TypeConvert(env, types[i], line[i]);
        if ret.Err? {
          r := Err(CellError(n + 1, i + 1, ret.error));
          ConvertErrorStays(env, types, line, fieldMap, n, i + 1, |line|);
          return;
        }
        lineData := lineData + [ret.value];
      }
    }
    return Ok(lineData);
  }

  /** Once a cell fails, the rest of the row does not change the error. */
  lemma {:induction false} ConvertErrorStays(env: Env, types: seq<string>, line: seq<string>, fm: map<int, string>,
                                             row: int, j: nat, k: nat)
    requires j <= k <= |line|
    requires forall i :: i in fm && 0 <= i < k ==> i < |types|
    requires ConvertRow(env, types, line, fm, row, j).Err?
    ensures ConvertRow(env, types, line, fm, row, k) == ConvertRow(env, types, line, fm, row, j)
    decreases k - j
  {
    if j < k {
      ConvertErrorStays(env, types, line, fm, row, j + 1, k);
    }
  }

  /** Once a row fails, the later rows do not change the error. */
  lemma {:induction false} RowsErrorStays(env: Env, cfg: Config, lines: seq<seq<string>>, fm: map<int, string>,
                                          pk: int, count: int, j: nat, k: nat)
    requires j <= k <= |lines| && RowsReadable(cfg, lines, fm, pk)
    requires RowsUpTo(env, cfg, lines, fm, pk, count, j).Err?
    ensures RowsUpTo(env, cfg, lines, fm, pk, count, k) == RowsUpTo(env, cfg, lines, fm, pk, count, j)
    decreases k - j
  {
    if j < k {
      RowsErrorStays(env, cfg, lines, fm, pk, count, j + 1, k);
    }
  }

  /** The row loop of `parseXlsx` (excelTool.go:230-283): the text buffer and
      the data rows, or the first cell that cannot be converted. */
  method ProcessRows(env: Env, cfg: Config, lines: seq<seq<string>>, fieldMap: map<int, string>,
                     lineStart: int, fieldCount: int) returns (r: Result<Rows, SheetError>)
    requires RowsReadable(cfg, lines, fieldMap, lineStart)
    ensures r == RowsUpTo(env, cfg, lines, fieldMap, lineStart, fieldCount, |lines|)
  {
    var buffer := new Buffer();
    var data: seq<Value> := [];
    var totalLineNum := |lines|;
    for n := 0 to |lines|
      invariant RowsUpTo(env, cfg, lines, fieldMap, lineStart, fieldCount, n) == Ok(Rows(buffer.text, data))
    {
      var line := lines[n];
      if |line| == 0 {
        continue;
      }
      if Text.HasPrefix(line[0], cfg.comment) {
        continue;
      }
      if line[lineStart] == "" {
        continue;
      }
      if cfg.txt && n != cfg.groupLine {
        WriteRowText(buffer, line, fieldMap, fieldCount, cfg.comma);
        if n < totalLineNum {
          buffer.WriteString(cfg.linefeed);
        }
      }
      if n < cfg.dataLine {
        continue;
      }
      var lineData := ConvertCells(env, lines[cfg.typeLine], line, fieldMap, n);
      if lineData.Err? {
        r := Err(lineData.error);
        RowsErrorStays(env, cfg, lines, fieldMap, lineStart, fieldCount, n + 1, |lines|);
        return;
      }
      if |lineData.value| > 0 {
        data := data + [List(lineData.value)];
      }
    }
    r := Ok(Rows(buffer.text, data));
  }

  // ---------------------------------------------------------------------
  // The sheet

  /** With a TypeScript output, the type row exists and has a tag under
      every exported column with a non-empty name. */
  predicate TsReadable(cfg: Config, lines: seq<seq<string>>)
    requires HeaderReadable(cfg, lines)
  {
    && 0 <= cfg.typeLine < |lines|
    && forall k :: k in Fields(cfg, lines) && Fields(cfg, lines)[k] != "" ==> 0 <= k < |lines[cfg.typeLine]|
  }

  /** Every cell the schema and the row loop index exists; otherwise Go
      panics. The type row of the TypeScript output is `TypesReadable`. */
  predicate Parseable(cfg: Config, lines: seq<seq<string>>) {
    && HeaderReadable(cfg, lines)
    && (|Columns(cfg, lines)| > 0 ==> RowsReadable(cfg, lines, Fields(cfg, lines), Columns(cfg, lines)[0]))
  }

  /** The interface writer reads the type row only after the row loop has
      run to its end, so a sheet needs one only when every row converts. */
  predicate TypesReadable(env: Env, cfg: Config, lines: seq<seq<string>>)
    requires Parseable(cfg, lines)
  {
    |Columns(cfg, lines)| > 0 && cfg.ts && SheetRows(env, cfg, lines).Ok? ==> TsReadable(cfg, lines)
  }

  /** The row loop over the whole sheet, keyed on the first exported column. */
  function SheetRows(env: Env, cfg: Config, lines: seq<seq<string>>): Result<Rows, SheetError>
    requires Parseable(cfg, lines) && |Columns(cfg, lines)| > 0
  {
    var cols := Columns(cfg, lines);
    RowsUpTo(env, cfg, lines, Fields(cfg, lines), cols[0], |cols|, |lines|)
  }

  /** `fields`: the exported names in column order. */
  function Header(cfg: Config, lines: seq<seq<string>>): seq<string>
    requires HeaderReadable(cfg, lines)
  {
    var cols := Columns(cfg, lines);
    assert forall j :: 0 <= j < |cols| ==> cols[j] in cols;
    Names(Fields(cfg, lines), cols)
  }

  /** `data`: the exported names in column order, then the data rows. */
  function Document(cfg: Config, lines: seq<seq<string>>, rows: seq<Value>): Value
    requires HeaderReadable(cfg, lines)
  {
    List([StrList(Header(cfg, lines))] + rows)
  }

  /** What one sheet produces: the name it is filed under, and each enabled
      output as the value handed to its writer. */
  datatype SheetOutput = SheetOutput(
    name: string, text: Option<string>, json: Option<Value>, lua: Option<string>,
    bin: Option<Value>, ts: Option<string>)

  /** `out` is what `parseXlsx` exports for the sheet: the name is the file's
      unless the sheet's own is asked for; the text buffer, the data table
      (JSON), its Lua chunk and the binary encoder's input (the table as the
      Lua encoder left it, when that ran first), and the TypeScript
      interface with the members in some order of the column map. */
  ghost predicate Exported(env: Env, cfg: Config, lines: seq<seq<string>>, sheetName: string, fileName: string,
                           out: SheetOutput)
    requires Parseable(cfg, lines) && |Columns(cfg, lines)| > 0
  {
    && SheetRows(env, cfg, lines).Ok?
    && Outputs(env, cfg, lines, sheetName, fileName, SheetRows(env, cfg, lines).value, out)
  }

  /** `out` holds the outputs written from the gathered `rows`. */
  ghost predicate Outputs(env: Env, cfg: Config, lines: seq<seq<string>>, sheetName: string, fileName: string,
                          rows: Rows, out: SheetOutput)
    requires HeaderReadable(cfg, lines)
  {
    var data := Document(cfg, lines, rows.data);
    && out.name == (if cfg.useSheetName then sheetName else fileName)
    && out.text == (if cfg.txt then Some(rows.text) else None)
    && out.json == (if cfg.json then Some(data) else None)
    && out.lua == (if cfg.lua then Some("return " + Lua.LuaText(env, data, 0)) else None)
    && out.bin == (if cfg.bin then Some(if cfg.lua then Lua.SortStrLists(data) else data) else None)
    && (cfg.ts <==> out.ts.Some?)
    && (cfg.ts ==> 0 <= cfg.typeLine < |lines| && TsExported(cfg, lines, out.name, out.ts.value))
  }

  /** `text` is the TypeScript interface of the sheet, with the members in
      the order the column map yields its keys in. */
  ghost predicate TsExported(cfg: Config, lines: seq<seq<string>>, name: string, text: string)
    requires HeaderReadable(cfg, lines) && 0 <= cfg.typeLine < |lines|
  {
    exists order ::
      Sorting.Enumerates(order, Fields(cfg, lines).Keys) &&
      text == TsInterface.Interface(name, lines[cfg.typeLine], Fields(cfg, lines), order)
  }

  /** `parseXlsx` after the workbook is opened. `Ok(None)`: no column is
      exported, nothing is written and the sheet is not listed.
      `Err`: a cell cannot be converted and the run stops. */
  method ParseXlsx(env: Env, cfg: Config, lines: seq<seq<string>>, sheetName: string, fileName: string)
    returns (r: Result<Option<SheetOutput>, SheetError>)
    requires Parseable(cfg, lines) && TypesReadable(env, cfg, lines)
    ensures |Columns(cfg, lines)| == 0 ==> r == Ok(None)
    ensures |Columns(cfg, lines)| > 0 ==> r.Err? == SheetRows(env, cfg, lines).Err?
    ensures |Columns(cfg, lines)| > 0 && r.Err? ==> r.error == SheetRows(env, cfg, lines).error
    ensures |Columns(cfg, lines)| > 0 && r.Ok? ==>
              r.value.Some? && Exported(env, cfg, lines, sheetName, fileName, r.value.value)
  {
    var fieldMap := Schema.BuildSchema(lines[cfg.fieldLine], GroupRow(cfg, lines), cfg.groups);
    var idxList, fields := Schema.ExportedColumns(fieldMap);
    Schema.IncreasingListingUnique(idxList, Columns(cfg, lines), fieldMap.Keys);
    if |idxList| == 0 {
      return Ok(None);
    }
    var lineStart := idxList[0];
    var fieldCount := |idxList|;
    assert fields == Names(fieldMap, idxList) == Header(cfg, lines);
    var rows := ProcessRows(env, cfg, lines, fieldMap, lineStart, fieldCount);
    if rows.Err? {
      return Err(rows.error);
    }
    var out := WriteOutputs(env, cfg, lines, sheetName, fileName, fieldMap, fields, rows.value);
    r := Ok(Some(out));
  }

  /** The end of `parseXlsx`: the name the sheet is filed under, and each
      enabled output, in the order the writers run (the Lua encoder before
      the binary one). */
  method WriteOutputs(env: Env, cfg: Config, lines: seq<seq<string>>, sheetName: string, fileName: string,
                      fieldMap: map<int, string>, fields: seq<string>, rows: Rows)
    returns (out: SheetOutput)
    requires Parseable(cfg, lines) && |Columns(cfg, lines)| > 0 && (cfg.ts ==> TsReadable(cfg, lines))
    requires fieldMap == Fields(cfg, lines)
    requires fields == Header(cfg, lines)
    ensures Outputs(env, cfg, lines, sheetName, fileName, rows, out)
  {
    var data := List([StrList(fields)] + rows.data);
    var name := sheetName;
    if !cfg.useSheetName {
      name := fileName;
    }
    var text := if cfg.txt then Some(rows.text) else None;
    var json := if cfg.json then Some(data) else None;
    var lua: Option<string> := None;
    if cfg.lua {
      var chunk, after := Lua.WriteLuaTable(env, data);
      lua := Some(chunk);
      data := after;
    }
    var bin := if cfg.bin then Some(data) else None;
    var ts: Option<string> := None;
    if cfg.ts {
      var t;
      ghost var order;
      t, order := TsInterface.WriteTSInterface(name, lines[cfg.typeLine], fieldMap);
      ts := Some(t);
    }
    out := SheetOutput(name, text, json, lua, bin, ts);
  }

  // ---------------------------------------------------------------------
  // Properties of a row

  /** The text of a row is its exported cells joined by the separator, plus
      one trailing separator when the row has some but not all of the
      `count` exported columns. */
  lemma {:induction false} RowCellsJoined(line: seq<string>, fm: map<int, string>, count: int, comma: string, j: nat)
    requires j <= |line| && |Picked(line, fm, j)| <= count
    ensures CellsText(line, fm, count, comma, j) ==
              Text.Join(Picked(line, fm, j), comma) +
              (if 0 < |Picked(line, fm, j)| < count then comma else "")
  {
    if j > 0 {
      var p := Picked(line, fm, j - 1);
      RowCellsJoined(line, fm, count, comma, j - 1);
      if j - 1 in fm {
        var x := line[j - 1];
        var t := if |p| + 1 < count then comma else "";
        assert Picked(line, fm, j) == p + [x];
        assert CellsText(line, fm, count, comma, j) == CellsText(line, fm, count, comma, j - 1) + (x + t);
        Text.JoinAppend(p, x, comma);
        if |p| == 0 {
          assert CellsText(line, fm, count, comma, j - 1) == "";
        } else {
          assert CellsText(line, fm, count, comma, j - 1) == Text.Join(p, comma) + comma;
          Text.AppendAssoc(Text.Join(p, comma) + comma, x, t);
        }
      } else {
        assert Picked(line, fm, j) == p;
      }
    }
  }

  /** The exported cells of `line[..j]` are the cells in the exported
      columns below `j`, in increasing column order. */
  lemma {:induction false} PickedColumns(line: seq<string>, fm: map<int, string>, j: nat)
    requires j <= |line|
    ensures forall k :: 0 <= k < |Schema.Ascending(fm.Keys, j)| ==> 0 <= Schema.Ascending(fm.Keys, j)[k] < j
    ensures |Picked(line, fm, j)| == |Schema.Ascending(fm.Keys, j)|
    ensures forall k :: 0 <= k < |Picked(line, fm, j)| ==> Picked(line, fm, j)[k] == line[Schema.Ascending(fm.Keys, j)[k]]
  {
    var cols := Schema.Ascending(fm.Keys, j);
    Schema.AscendingListsSet(fm.Keys, j);
    assert forall k :: 0 <= k < |cols| ==> cols[k] in cols;
    if j > 0 {
      PickedColumns(line, fm, j - 1);
    }
  }

  /** A row with a cell under every exported column: its text is the cells
      of the exported columns `cols` joined by the separator, in column
      order (`Columns` lists the exported columns so). */
  lemma FullRowText(line: seq<string>, fm: map<int, string>, cols: seq<int>, comma: string)
    requires Schema.StrictlyIncreasing(cols) && forall c :: c in cols <==> c in fm
    requires forall c :: c in fm ==> 0 <= c < |line|
    ensures forall k :: 0 <= k < |cols| ==> 0 <= cols[k] < |line|
    ensures CellsText(line, fm, |cols|, comma, |line|) == Text.Join(Cells(line, cols), comma)
  {
    assert forall k :: 0 <= k < |cols| ==> cols[k] in cols;
    var asc := Schema.Ascending(fm.Keys, |line|);
    Schema.AscendingListsSet(fm.Keys, |line|);
    Schema.IncreasingListingUnique(asc, cols, fm.Keys);
    PickedColumns(line, fm, |line|);
    assert Picked(line, fm, |line|) == Cells(line, cols);
    RowCellsJoined(line, fm, |cols|, comma, |line|);
  }

  /** Every column of `cols` lies within the row and the tag row. */
  predicate Within(types: seq<string>, line: seq<string>, cols: seq<int>) {
    forall k :: 0 <= k < |cols| ==> 0 <= cols[k] < |line| && cols[k] < |types|
  }

  /** Every cell of the columns `cols` converts under its column's tag. */
  predicate AllConvert(env: Env, types: seq<string>, line: seq<string>, cols: seq<int>)
    requires Within(types, line, cols)
  {
    forall k :: 0 <= k < |cols| ==> Convert.TypeConvert(env, types[cols[k]], line[cols[k]]).Ok?
  }

  /** `vals` holds the converted cells of the columns `cols`, one each, in order. */
  predicate ValuesOf(env: Env, types: seq<string>, line: seq<string>, cols: seq<int>, vals: seq<Value>)
    requires Within(types, line, cols)
  {
    && |vals| == |cols|
    && forall k :: 0 <= k < |cols| ==> Convert.TypeConvert(env, types[cols[k]], line[cols[k]]) == Ok(vals[k])
  }

  /** Appending a column: all cells convert when the earlier ones do and the
      new one does. */
  lemma AllConvertSnoc(env: Env, types: seq<string>, line: seq<string>, cols: seq<int>, c: int)
    requires Within(types, line, cols) && 0 <= c < |line| && c < |types|
    ensures Within(types, line, cols + [c])
    ensures AllConvert(env, types, line, cols + [c]) <==>
              AllConvert(env, types, line, cols) && Convert.TypeConvert(env, types[c], line[c]).Ok?
  {
    var ext := cols + [c];
    assert forall k :: 0 <= k < |cols| ==> ext[k] == cols[k];
    assert ext[|cols|] == c;
  }

  /** Appending a column and its converted cell keeps the values in step. */
  lemma ValuesOfSnoc(env: Env, types: seq<string>, line: seq<string>, cols: seq<int>, vals: seq<Value>, c: int, v: Value)
    requires Within(types, line, cols) && 0 <= c < |line| && c < |types|
    requires ValuesOf(env, types, line, cols, vals)
    requires Convert.TypeConvert(env, types[c], line[c]) == Ok(v)
    ensures Within(types, line, cols + [c])
    ensures ValuesOf(env, types, line, cols + [c], vals + [v])
  {
    var ext := cols + [c];
    var out := vals + [v];
    assert forall k :: 0 <= k < |cols| ==> ext[k] == cols[k] && out[k] == vals[k];
    assert ext[|cols|] == c && out[|cols|] == v;
  }

  /** The exported columns below `j` are keys of the field map and lie
      within the row and the tag row. */
  lemma ExportedWithin(types: seq<string>, line: seq<string>, fm: map<int, string>, j: nat)
    requires j <= |line|
    requires forall i :: i in fm && 0 <= i < j ==> i < |types|
    ensures Within(types, line, Schema.Ascending(fm.Keys, j))
    ensures forall k :: 0 <= k < |Schema.Ascending(fm.Keys, j)| ==> Schema.Ascending(fm.Keys, j)[k] in fm
  {
    var cols := Schema.Ascending(fm.Keys, j);
    Schema.AscendingListsSet(fm.Keys, j);
    assert forall k :: 0 <= k < |cols| ==> cols[k] in cols;
  }

  /** A row converts exactly when every exported cell converts under its
      column's tag, and then gives one value per exported column, in
      column order. */
  lemma {:induction false} ConvertRowValues(env: Env, types: seq<string>, line: seq<string>, fm: map<int, string>,
                                            row: int, j: nat)
    requires j <= |line|
    requires forall i :: i in fm && 0 <= i < j ==> i < |types|
    ensures Within(types, line, Schema.Ascending(fm.Keys, j))
    ensures forall k :: 0 <= k < |Schema.Ascending(fm.Keys, j)| ==> Schema.Ascending(fm.Keys, j)[k] in fm
    ensures ConvertRow(env, types, line, fm, row, j).Ok? <==> AllConvert(env, types, line, Schema.Ascending(fm.Keys, j))
    ensures ConvertRow(env, types, line, fm, row, j).Ok? ==>
              ValuesOf(env, types, line, Schema.Ascending(fm.Keys, j), ConvertRow(env, types, line, fm, row, j).value)
  {
    var cols := Schema.Ascending(fm.Keys, j);
    ExportedWithin(types, line, fm, j);
    if j > 0 {
      ConvertRowValues(env, types, line, fm, row, j - 1);
      var prev := Schema.Ascending(fm.Keys, j - 1);
      var before := ConvertRow(env, types, line, fm, row, j - 1);
      if before.Err? {
        assert ConvertRow(env, types, line, fm, row, j) == Err(before.error);
        if j - 1 in fm {
          assert cols == prev + [j - 1];
          AllConvertSnoc(env, types, line, prev, j - 1);
        } else {
          assert cols == prev;
        }
      } else if j - 1 !in fm {
        assert cols == prev;
        assert ConvertRow(env, types, line, fm, row, j) == before;
      } else {
        assert cols == prev + [j - 1];
        AllConvertSnoc(env, types, line, prev, j - 1);
        var cell := Convert.TypeConvert(env, types[j - 1], line[j - 1]);
        if cell.Ok? {
          assert ConvertRow(env, types, line, fm, row, j) == Ok(before.value + [cell.value]);
          ValuesOfSnoc(env, types, line, prev, before.value, j - 1, cell.value);
        } else {
          assert ConvertRow(env, types, line, fm, row, j).Err?;
        }
      }
    }
  }

  /** When a row fails, the error names the first exported cell, left to
      right, that does not convert, and why. */
  lemma {:induction false} ConvertRowFirstError(env: Env, types: seq<string>, line: seq<string>, fm: map<int, string>,
                                                row: int, j: nat)
    requires j <= |line|
    requires forall i :: i in fm && 0 <= i < j ==> i < |types|
    requires ConvertRow(env, types, line, fm, row, j).Err?
    ensures var e := ConvertRow(env, types, line, fm, row, j).error;
      && e.row == row + 1
      && 0 < e.col <= j && e.col - 1 in fm
      && Convert.TypeConvert(env, types[e.col - 1], line[e.col - 1]) == Err(e.cause)
      && forall c :: c in fm && 0 <= c < e.col - 1 ==> Convert.TypeConvert(env, types[c], line[c]).Ok?
  {
    if ConvertRow(env, types, line, fm, row, j - 1).Err? {
      ConvertRowFirstError(env, types, line, fm, row, j - 1);
    } else {
      ConvertRowValues(env, types, line, fm, row, j - 1);
      var cols := Schema.Ascending(fm.Keys, j - 1);
      Schema.AscendingListsSet(fm.Keys, j - 1);
      forall c | c in fm && 0 <= c < j - 1 ensures Convert.TypeConvert(env, types[c], line[c]).Ok? {
        assert c in cols;
        var k :| 0 <= k < |cols| && cols[k] == c;
      }
    }
  }

  // ---------------------------------------------------------------------
  // Properties of the row loop

  /** The text buffer is empty unless the text output is enabled, and every
      row written to it ends with the line terminator (the last one too). */
  lemma {:induction false} TextRowsTerminated(env: Env, cfg: Config, lines: seq<seq<string>>, fm: map<int, string>,
                                              pk: int, count: int, n: nat)
    requires n <= |lines| && RowsReadable(cfg, lines, fm, pk)
    requires RowsUpTo(env, cfg, lines, fm, pk, count, n).Ok?
    ensures !cfg.txt ==> RowsUpTo(env, cfg, lines, fm, pk, count, n).value.text == ""
    ensures RowsUpTo(env, cfg, lines, fm, pk, count, n).value.text != "" ==>
              Text.HasSuffix(RowsUpTo(env, cfg, lines, fm, pk, count, n).value.text, cfg.linefeed)
  {
    if n > 0 {
      TextRowsTerminated(env, cfg, lines, fm, pk, count, n - 1);
      var prev := RowsUpTo(env, cfg, lines, fm, pk, count, n - 1).value.text;
      var line := lines[n - 1];
      if Active(cfg, line) && line[pk] != "" && cfg.txt && n - 1 != cfg.groupLine {
        var t := prev + CellsText(line, fm, count, cfg.comma, |line|) + cfg.linefeed;
        assert t[|t| - |cfg.linefeed|..] == cfg.linefeed;
        assert RowsUpTo(env, cfg, lines, fm, pk, count, n).value.text == t;
      }
    }
  }

  /** Every data row is a non-empty list: it holds at least the key cell, so
      the `len(lineData) > 0` test never drops a row. */
  lemma {:induction false} DataRowsNonEmpty(env: Env, cfg: Config, lines: seq<seq<string>>, fm: map<int, string>,
                                            pk: int, count: int, n: nat)
    requires n <= |lines| && RowsReadable(cfg, lines, fm, pk) && pk in fm
    requires RowsUpTo(env, cfg, lines, fm, pk, count, n).Ok?
    ensures forall d :: d in RowsUpTo(env, cfg, lines, fm, pk, count, n).value.data ==> d.List? && |d.items| > 0
  {
    if n > 0 {
      DataRowsNonEmpty(env, cfg, lines, fm, pk, count, n - 1);
      var line := lines[n - 1];
      if Active(cfg, line) && line[pk] != "" && cfg.dataLine <= n - 1 {
        ConvertRowValues(env, lines[cfg.typeLine], line, fm, n - 1, |line|);
        Schema.AscendingListsSet(fm.Keys, |line|);
        assert pk in Schema.Ascending(fm.Keys, |line|);
      }
    }
  }

  // ---------------------------------------------------------------------
  // Properties of the outputs

  /** The Lua encoder sorts the header row in place, so the binary output
      (and the Lua text) carries the field names in string order while the
      JSON output and every data row keep column order. */
  lemma SortedHeaderAfterLua(cfg: Config, lines: seq<seq<string>>, rows: seq<Value>)
    requires HeaderReadable(cfg, lines)
    ensures Document(cfg, lines, rows).items[0] == StrList(Header(cfg, lines))
    ensures Lua.SortStrLists(Document(cfg, lines, rows)).items[0] == StrList(Sorting.SortStrings(Header(cfg, lines)))
    ensures forall i :: 0 < i < |Document(cfg, lines, rows).items| ==>
              Lua.SortStrLists(Document(cfg, lines, rows)).items[i] == Lua.SortStrLists(rows[i - 1])
  {
    var doc := Document(cfg, lines, rows);
    Lua.SortItemsAt(doc.items, 0);
    forall i | 0 < i < |doc.items| ensures Lua.SortStrLists(doc).items[i] == Lua.SortStrLists(rows[i - 1]) {
      Lua.SortItemsAt(doc.items, i);
    }
  }

  /** A sheet with a TypeScript output whose type row has no tag for the
      column "x", and whose one data row holds "abc" under "int". */
  const ShortTypesConfig := Config(0, 2, 1, 3, ["c"], "#", ",", "\n", false, false, false, false, true, false)
  const ShortTypesLines: seq<seq<string>> := [["id", "x"], ["c", "c"], ["int"], ["abc"]]

  /** Its schema: both columns are exported. */
  lemma ShortTypesSchema()
    ensures HeaderReadable(ShortTypesConfig, ShortTypesLines)
    ensures Fields(ShortTypesConfig, ShortTypesLines) == map[0 := "id", 1 := "x"]
    ensures Columns(ShortTypesConfig, ShortTypesLines) == [0, 1]
  {
    var cfg, lines := ShortTypesConfig, ShortTypesLines;
    assert HeaderReadable(cfg, lines);
    assert Text.Split("c", '/') == ["c"] by { Text.SplitNoSeparator("c", '/'); }
    assert Schema.InGroups(["c"], "c") by { assert ["c"][0] == Text.Split("c", '/')[0]; }
    var fm := map[0 := "id", 1 := "x"];
    assert Schema.SchemaUpTo(["id", "x"], ["c", "c"], ["c"], 1) == Schema.SchemaState(map[0 := "id"], map["id" := 0]);
    assert Schema.SchemaUpTo(["id", "x"], ["c", "c"], ["c"], 2) == Schema.SchemaState(fm, map["id" := 0, "x" := 1]);
    assert Fields(cfg, lines) == fm;
    Schema.IncreasingListingUnique(Columns(cfg, lines), [0, 1], fm.Keys);
  }

  /** Its rows can be read, and the three header rows pass the loop. */
  lemma ShortTypesRows(env: Env)
    ensures RowsReadable(ShortTypesConfig, ShortTypesLines, map[0 := "id", 1 := "x"], 0)
    ensures RowsUpTo(env, ShortTypesConfig, ShortTypesLines, map[0 := "id", 1 := "x"], 0, 2, 3) == Ok(Rows("", []))
  {
    var cfg, lines, fm := ShortTypesConfig, ShortTypesLines, map[0 := "id", 1 := "x"];
    assert "id"[..1] == "i" && "c"[..1] == "c" && "int"[..1] == "i" && "abc"[..1] == "a";
    assert RowsReadable(cfg, lines, fm, 0);
    assert RowsUpTo(env, cfg, lines, fm, 0, 2, 1) == Ok(Rows("", []));
    assert RowsUpTo(env, cfg, lines, fm, 0, 2, 2) == Ok(Rows("", []));
  }

  /** A sheet whose row loop stops on a cell never reaches the type row, so
      a type row without a tag for every column does not keep it from being
      parsed: the sheet above ends the run at row 4, column 1. */
  lemma FatalRowBeforeTypes(env: Env)
    ensures Parseable(ShortTypesConfig, ShortTypesLines) && !TsReadable(ShortTypesConfig, ShortTypesLines)
    ensures TypesReadable(env, ShortTypesConfig, ShortTypesLines)
    ensures SheetRows(env, ShortTypesConfig, ShortTypesLines) == Err(CellError(4, 1, Convert.NotConvertible))
  {
    var cfg, lines, fm := ShortTypesConfig, ShortTypesLines, map[0 := "id", 1 := "x"];
    ShortTypesSchema();
    ShortTypesRows(env);
    assert Parseable(cfg, lines);
    assert 1 in Fields(cfg, lines) && 1 >= |lines[cfg.typeLine]|;
    assert ConvertRow(env, ["int"], ["abc"], fm, 3, 1) == Err(CellError(4, 1, Convert.NotConvertible)) by {
      Convert.IntCellExamples(env);
    }
    assert RowsUpTo(env, cfg, lines, fm, 0, 2, 4) == Err(CellError(4, 1, Convert.NotConvertible));
  }
}
