# excelTool — a verified model of the spreadsheet exporter

`excelTool` walks a directory of Excel workbooks. For each accepted `.xlsx`
file it reads the first sheet and derives the sheet's schema: the exported
columns, chosen by their group tags and de-duplicated by field name. Every
row then passes through one pipeline, which feeds up to five outputs:

- a delimited text file;
- JSON;
- a Lua table literal;
- a msgpack binary;
- a TypeScript interface.

The cells are typed by the tag in the sheet's type row. At the end the tool
writes a `fileList` table that names every exported sheet in sorted order.

This project models that core in Dafny:

| module | models |
|---|---|
| `Schema` | `canAddData` and the `fieldMap`/`set` loop of `parseXlsx`, exactly as written, plus the sorted `idxList` |
| `Convert` | `typeConvert` with `toInt`, `toNumber`, `toJson` and `processNestedJSON` |
| `Lua` | `writeLuaTableContent`/`addTabs` as methods over a `Buffers.Buffer` (the `bytes.Buffer`), proved against a specification function of the text they append |
| `TsInterface` | `writeTSInterface` |
| `Sheet` | the row loop and the whole of `parseXlsx` after the workbook is opened |
| `Batch` | the `walkFunc` filter and table name, the `fileList` map with `addToFileList`/`getFileList`, `loadConfig`'s 1-based to 0-based row numbers, and the run as a whole |
| `Text`, `Sorting`, `Numbers` | the pieces of Go's `strings`, `sort` and `strconv` that the core relies on |

Four behaviours of the code are easy to miss. The model follows the code in
each of them:

- **Third and later duplicates get an empty name.** The code records only
  the first column of each field name in `set`. So a name that is kept
  twice moves to its second column. From the third occurrence on, each
  later column copies the entry at the first index, which is already
  deleted, and exports `""`. See `Schema.SchemaDedup` and
  `Schema.DedupExamples`.
- **Every text row ends with the line terminator.** The guard
  `n < totalLineNum` always holds, so the last row gets a terminator too.
  See `Sheet.TextRowsTerminated`.
- **A short row gets a trailing separator.** A row with some, but not all, of
  the exported columns ends in one separator. See `Sheet.RowCellsJoined`.
- **The Lua encoder reorders the header.** The encoder sorts every `[]string`
  in place, the header row included. So the binary output lists the field
  names in string order, while the JSON output (written before it) and every
  data row keep column order. See `Sheet.SortedHeaderAfterLua`.

## Model

| member | source | states |
|---|---|---|
| Schema.CanAddData | excelTool.go:308-318 | the result is true exactly when some `/`-separated part of the tag equals some active group |
| Schema.NoGroupsNoColumn | excelTool.go:308-318 | with no active group, no tag passes the filter |
| Schema.GroupExamples | excelTool.go:308-318 | the tag "c/s" passes for ["c"], ["s"] and ["c","x"], but not for ["x"] |
| Schema.BuildSchema | excelTool.go:191-206 | the map the loop leaves behind is `FieldMap` of the field row, the group row and the groups |
| Schema.SchemaDedup | excelTool.go:194-206 | a column is exported iff it passes the group filter, has a non-empty name, and is not the first kept occurrence of a name that is kept again; it carries its own name when it is the first or second kept occurrence, and "" from the third on |
| Schema.RepeatedNameMoves | excelTool.go:196-198 | a name kept in exactly two columns is exported from the later column only, under its own name |
| Schema.EmptyGroupsExportNothing | excelTool.go:308-318 | with no active group the field map is empty, so the sheet exports nothing |
| Schema.DedupExamples | excelTool.go:194-206 | ["id","name","id"] gives {1:"name", 2:"id"}; ["id","id","id"] gives {1:"id", 2:""} |
| Schema.ExportedColumns | excelTool.go:208-224 | `idxList` is strictly increasing and holds exactly the map's keys; `fields` holds the name of each listed column, in that order |
| Sorting.MapKeys | excelTool.go:209-211 | ranging over a map lists every key exactly once, in some order |
| Numbers.ParseInt64 | excelTool.go:379 | it succeeds exactly on an optionally signed, non-empty run of decimal digits whose value fits in int64, and then gives that value |
| Convert.ToInt | excelTool.go:374-384 | any result is an int64 |
| Convert.ToNumber | excelTool.go:386-396 | any result is an int or a float |
| Convert.FixNested | excelTool.go:398-423 | a fixed value has the same containers, lengths and keys as the input, and numbers change only between int and float; the one error is a nested number that does not re-parse |
| Convert.ToJson | excelTool.go:425-447 | the one way "auto" fails is a nested number that does not re-parse |
| Convert.TypeConvert | excelTool.go:522-586 | an unknown-type error carries the offending tag |
| Convert.IntCellDropsFraction | excelTool.go:524-528 | "int" applied to the printed int64 `n` followed by "." and any text gives `n` |
| Convert.IntCellResult | excelTool.go:524-528 | an "int" result is an int64; text whose part before the first '.' is not a signed decimal is rejected |
| Convert.IntCellExamples | excelTool.go:524-528 | "12.9" gives 12; "abc" and ".5" are rejected |
| Convert.StringElems | excelTool.go:466-473 | decoding a JSON array into `[]string` succeeds exactly when every element is a string or null; the list has one entry per element, with "" for null |
| Convert.ListCellShapes | excelTool.go:538-575 | a "list,string" cell converts only from a JSON array, to one string per element; a "list,any" cell gives the decoded array as is, without re-parsing nested numbers; a typed list tag gives an opaque decoded value; only "list,string" gives a string list |
| Convert.StringCellPassthrough | excelTool.go:534-535 | "string" returns the cell text unchanged |
| Convert.FixNestedSucceeds | excelTool.go:398-423 | fixing nested numbers never fails when every float, printed in plain decimal form, parses again |
| Convert.IntegralNestedFloatBecomesInt | excelTool.go:410-415 | a nested float whose plain decimal form is the int64 `n` becomes `Int(n)` |
| Convert.AutoNeverFails | excelTool.go:576-580 | "auto" always succeeds when printed floats parse again |
| Convert.AutoFallbackChain | excelTool.go:425-447 | "auto" yields a number first; otherwise a JSON object or array of the same shape; otherwise the original text |
| Convert.UnknownTagIsFatal | excelTool.go:581-582 | an unrecognised tag gives the unknown-type error; a recognised tag never does |
| Lua.Tabs | excelTool.go:678-682 | `idx` tab characters, and none when `idx` is zero or negative |
| Lua.AddTabs | excelTool.go:678-682 | appends `Tabs(idx)` to the buffer |
| Lua.WriteContent | excelTool.go:613-675 | appends `LuaText(v, idx)` to the buffer, and returns the value as the in-place sorts leave it (`SortStrLists(v)`) |
| Lua.WriteList | excelTool.go:631-640 | appends "{\n", one line per element, `idx-1` tabs and "}"; the elements come back with their string lists sorted |
| Lua.WriteItem | excelTool.go:635-637 | appends `idx` tabs, the element one level deeper, and ",\n" |
| Lua.WriteStrList | excelTool.go:641-651 | appends the braced lines of the already sorted strings, each one quoted |
| Lua.SortedKeys | excelTool.go:654-658 | the collected and sorted keys are the one ascending listing of the map's keys |
| Lua.WriteMap | excelTool.go:652-670 | appends `LuaText(Map(m), idx)`, whose entries come in ascending key order |
| Lua.WriteEntries | excelTool.go:660-670 | appends the braced entry lines for the keys, in order |
| Lua.WriteEntry | excelTool.go:662-667 | appends `idx` tabs, "[", the quoted key, "] = ", the value one level deeper, and ",\n" |
| Lua.WriteLuaTable | excelTool.go:604-610 | the chunk is "return " followed by `LuaText(v, 0)`; the value afterwards is `SortStrLists(v)` |
| Lua.SortStrListsIdempotent | excelTool.go:644 | sorting the string lists a second time changes nothing |
| Lua.SortedValuePrintsSame | excelTool.go:641-651 | encoding the value the encoder leaves behind prints the same text as the original |
| Lua.MapEntriesAscending | excelTool.go:652-670 | a map prints as its entries in any ascending listing of its keys |
| Lua.StrListOrderIrrelevant | excelTool.go:641-651 | two string lists with the same members print identically, whatever their order |
| TsInterface.TsType | excelTool.go:331-349 | every tag with a TypeScript type maps to one of the nine TypeScript type names |
| TsInterface.TsTypeKnown | excelTool.go:331-349 | exactly the tags the cell converter accepts have a TypeScript type |
| TsInterface.TsTypeTable | excelTool.go:331-349 | for example, "list,<list,int>" gives number[][], "list,string" gives string[], "auto" gives any, and "bool" gives none |
| TsInterface.WriteTSInterface | excelTool.go:328-353 | the text is the header, one member line per qualifying column in the map's iteration order `order` (which lists the keys once each), and "\n}"; whatever that order, the text opens with `export interface I<name> {` and ends with "\n}" |
| TsInterface.InterfaceFraming | excelTool.go:328-353 | every interface text, whatever its member lines, opens with `export interface I<name> {` and ends with "\n}" |
| TsInterface.OneMemberPerColumn | excelTool.go:329-352 | whatever the iteration order, each column with a non-empty name and a known tag gets exactly one member line, and no other column gets one |
| Sheet.Columns | excelTool.go:208-216 | the exported columns are strictly increasing and are exactly the field map's keys |
| Sheet.Names | excelTool.go:221-224 | one name per column: the field map's entry for it |
| Sheet.WriteRowText | excelTool.go:246-255 | appends `CellsText` of the whole row to the buffer |
| Sheet.ConvertCells | excelTool.go:265-274 | the converted row is `ConvertRow` of the whole row, or the first failing cell |
| Sheet.ProcessRows | excelTool.go:230-279 | the text buffer and data rows equal `RowsUpTo` over all rows; the first conversion error ends the loop with that error |
| Sheet.ParseXlsx | excelTool.go:188-305 | with no exported column it gives `Ok(None)`; otherwise it fails exactly when the row loop fails, with the same error; on success the outputs are those `Exported` describes |
| Sheet.FatalRowBeforeTypes | excelTool.go:266-271 | a sheet whose row loop stops on a cell is parsed even though its type row has no tag for an exported column, because the interface writer is never reached: "abc" under "int" ends the run at row 4, column 1 |
| Sheet.WriteOutputs | excelTool.go:281-305 | the sheet is filed under the sheet name or the file name as configured; each enabled output holds the text rows, the document (header then data rows), its Lua chunk, the document as the Lua encoder's sort leaves it when Lua is on, and the TypeScript interface; each disabled output is absent |
| Sheet.RowCellsJoined | excelTool.go:246-255 | a row's text is its exported cells joined by the separator, plus one separator more when it has some but not all of the exported columns |
| Sheet.FullRowText | excelTool.go:246-255 | a row with a cell under every exported column gives those cells joined by the separator, in column order |
| Sheet.ConvertRowValues | excelTool.go:265-274 | a row converts iff every exported cell converts under its column's tag; it then gives one value per exported column, in column order |
| Sheet.ConvertRowFirstError | excelTool.go:266-271 | a failing row names the 1-based row and column of the first exported cell, left to right, that does not convert, and why; every exported cell before it converts |
| Sheet.TextRowsTerminated | excelTool.go:245-258 | without a text output the buffer is empty; otherwise a non-empty buffer ends with the line terminator |
| Sheet.DataRowsNonEmpty | excelTool.go:276-278 | every data row is a non-empty list, because it holds at least the key cell |
| Sheet.SortedHeaderAfterLua | excelTool.go:289-299 | the header holds the names in column order, and after the Lua encoder runs it holds them in string order; every data row is only string-list sorted |
| Batch.Ext | excelTool.go:170 | a non-empty extension is a suffix of the path that starts with '.' and contains no other '.' or '/' |
| Batch.Base | excelTool.go:169 | the file name is a '/'-free suffix of the path, preceded by '/' when it is shorter than the path |
| Batch.ExtIsXlsx | excelTool.go:170 | the extension is ".xlsx" exactly when the path ends with ".xlsx" |
| Batch.AcceptedBaseIsXlsx | excelTool.go:169-170 | an accepted path's file name ends with ".xlsx" |
| Batch.TableNameStripsExtension | excelTool.go:172 | for an accepted file with ".xlsx" only at its end, the table name is the file name without it |
| Batch.BaseOf | excelTool.go:169 | the file name of `dir + "/" + name` is `name` |
| Batch.AcceptsName | excelTool.go:168-175 | a file in any directory is accepted exactly when its name ends in ".xlsx" and starts with neither "~$" nor "#" |
| Batch.FileList.constructor | excelTool.go:45 | the file list starts empty |
| Batch.FileList.Add | excelTool.go:729-731 | the name is recorded, and nothing else changes |
| Batch.FileList.GetFileList | excelTool.go:734-742 | the result lists every recorded name exactly once, in Go's string order |
| Batch.ManifestSortStable | excelTool.go:116-136 | the `fileList` table, already sorted, is left unchanged by the Lua encoder's in-place sort, so every format receives the same list |
| Batch.VisitFile | excelTool.go:167-189 | a walked path stops the run exactly when it is an accepted workbook that opens, exports a column, and has a cell that does not convert, with that cell's error; otherwise it yields a sheet exactly when the workbook is exportable, and the sheet is what `parseXlsx` exports under the file's table name |
| Batch.FirstFailure | excelTool.go:49-81 | a failure after entries that all convert is the first failure of the walk, and the run as a whole does not succeed |
| Batch.NoneFailsEach | excelTool.go:49-81 | the walk so far has visited no entry that fails |
| Batch.IndicesSpec | excelTool.go:49-81 | the positions the walk files are strictly increasing, in range, and are exactly the marked ones |
| Batch.WalkedComplete | excelTool.go:49-81 | after the whole walk, every exportable workbook has its sheet among the outputs |
| Batch.WalkedSound | excelTool.go:49-81 | every filed sheet is the export of some walked workbook, and there are no more sheets than entries walked |
| Batch.RunBatch | excelTool.go:49-81 | the run succeeds exactly when no walked workbook has a cell that fails to convert; on failure the error is that of the first such workbook in walk order; on success the sheets are the exports of exactly the exportable workbooks, one each, in walk order; every exportable workbook has its sheet and every sheet comes from one; the file list is the sorted set of the sheets' names; the manifest is `{"fileList": list}` |

## Left out

- **I/O.** Files, directories and logging are left out:
  - reading and parsing `config.json`, and `createOutputDirs`;
  - `writeToFile`, `writeTxt`, `writeJSON` and `writeBin`;
  - the zlib compression;
  - the logrus messages and the timing.

  The outputs are returned as values instead of being written.
- **`excelize`.** A workbook arrives as its first sheet's name and rows of
  cell strings. A file that cannot be opened is a missing workbook, which is
  skipped; its logged error is not modelled.
- **Logged errors in the row loop.** A row with an empty key cell is skipped,
  as in the code. The error logged for it is not modelled.
- **Concurrency.** The goroutines, `sync.WaitGroup` and `sync.Map` are not
  modelled. Sheets are parsed one after another in walk order. In the code,
  the sheet whose fatal error stops the process depends on scheduling, and
  so do the files other sheets have written by then. The model stops at the
  first failing sheet in walk order and returns no output.
- **Foreign routines.** Floating point, JSON syntax and the typed list
  decoders (`toIntList` … `to2AnyList`) are parameters in `Values.Env`:
  - `toFloat`'s float32/float64 choice;
  - `%v` printing;
  - `strconv.FormatFloat`;
  - `json.Unmarshal`.

  The typed list decoders (`[]int64`, `[]float64`, `[][]string`, …) are one
  parameter, `decodeTyped`. It says whether a cell decodes into the slice
  type of its tag, and gives the text `%t` prints for the result. The model
  keeps such a value as `Other`, holding that text. `[]string` and
  `[]interface{}` are decoded in the model itself.
- **Encoders.** `json.Marshal` and msgpack encoding are not modelled. The
  JSON and binary outputs are the values handed to those encoders.
- **Nil maps and slices.** In Go, a nil map or slice differs from an empty
  one: `json.Marshal` and msgpack write nil as `null` but an empty one as
  `{}` or `[]`. The model has no nil value. "auto" applied to the text
  `null` leaves a nil map, which the model holds as the empty `Map`. A run
  that exports no sheet gives a nil file list, which the model holds as the
  empty list. The Lua encoder prints nil and empty alike, so only the JSON
  and binary outputs of these two cases differ from the model.
- **Non-finite floats.** `strconv.ParseFloat` accepts "NaN", "Inf" and
  "+Infinity", and `json.Marshal` then refuses the row's value. A float in
  the model is a `real`, so it cannot be NaN or infinite. Whether `toFloat`
  accepts a given text is the parameter `toFloat`, so such a cell may
  convert in the model, but its value is then some finite number.
- **Pointer dereference.** The `reflect` dereference in
  `writeLuaTableContent` is not modelled: values are passed already
  dereferenced.
- **In-place updates.** Three in-place operations are modelled on values,
  so the aliasing itself is not modelled:
  - **`sort.Strings` and `sort.Ints`** are modelled on sequences (an
    insertion sort specified by ordering and permutation).
  - **The Lua encoder's in-place sort** becomes the value the encoder
    returns (`after`). The model passes that value on to the binary output,
    as the shared slice does in the code.
  - **`processNestedJSON`** becomes `Convert.FixNested`, which returns the
    fixed tree instead of overwriting map and slice entries.
- **Paths.** `path.Ext` and `filepath.Split` are modelled for '/'-separated
  paths only. Bytes are modelled as characters.
- Sheet.ParseXlsx: its precondition `RowsReadable` asks every active row
  for a key cell, and every row with a key for a type for each exported
  column. The code only indexes the rows it reaches, and it stops at the
  first cell that does not convert. So a sheet whose fatal row comes before
  a short row is not covered by the model, and neither is a run through
  `Batch.VisitFile` or `Batch.RunBatch` that holds one. The type row of the
  TypeScript output is asked for only when every row converts
  (`TypesReadable`), as in the code.
- Convert.TypeConvert: on its own, its contract says only that an
  unknown-type error carries the tag. Its behaviour per tag is stated by the
  lemmas beside it (`IntCellResult`, `AutoFallbackChain`,
  `UnknownTagIsFatal`, …).
