/** One run of the exporter: the config's row numbers made 0-based, the
    directory walk's file filter and table names, one `parseXlsx` per
    accepted workbook, and the file list written at the end. */
module Batch {
  import opened Wrappers
  import opened Values
  import Text
  import Sorting
  import Lua
  import Sheet
  import Schema

  // ---------------------------------------------------------------------
  // Paths (`path.Ext`, `filepath.Split`)

  /** `path.Ext` scanning `p[..i]` from the right; nothing after `i` is a
      '.' or a '/'. */
  function ExtBefore(p: string, i: nat): (r: string)
    requires i <= |p|
    requires forall k :: i <= k < |p| ==> p[k] != '.' && p[k] != '/'
    ensures r != "" ==> Text.HasSuffix(p, r) && r[0] == '.'
    ensures r != "" ==> forall k :: 1 <= k < |r| ==> r[k] != '.' && r[k] != '/'
    ensures r == "" ==> forall k :: 0 <= k < |p| && p[k] == '.' ==> exists m :: k < m < |p| && p[m] == '/'
  {
    if i == 0 then ""
    else if p[i - 1] == '/' then ""
    else if p[i - 1] == '.' then p[i - 1..]
    else ExtBefore(p, i - 1)
  }

  /** `path.Ext(p)`: the suffix from the last '.' of the final element on,
      or "" when that element has no '.'. */
  function Ext(p: string): (r: string)
    ensures r != "" ==> Text.HasSuffix(p, r) && r[0] == '.'
    ensures r != "" ==> forall k :: 1 <= k < |r| ==> r[k] != '.' && r[k] != '/'
  {
    ExtBefore(p, |p|)
  }

  /** The final element of `p[..i]`'s directory scan; nothing after `i` is a '/'. */
  function BaseBefore(p: string, i: nat): (r: string)
    requires i <= |p|
    requires forall k :: i <= k < |p| ==> p[k] != '/'
    ensures Text.HasSuffix(p, r)
    ensures forall k :: 0 <= k < |r| ==> r[k] != '/'
    ensures |r| < |p| ==> p[|p| - |r| - 1] == '/'
  {
    if i == 0 then p
    else if p[i - 1] == '/' then p[i..]
    else BaseBefore(p, i - 1)
  }

  /** The file part of `filepath.Split(p)`: everything after the last '/'. */
  function Base(p: string): (r: string)
    ensures Text.HasSuffix(p, r)
    ensures forall k :: 0 <= k < |r| ==> r[k] != '/'
    ensures |r| < |p| ==> p[|p| - |r| - 1] == '/'
  {
    BaseBefore(p, |p|)
  }

  /** `walkFunc`'s filter: an `.xlsx` file that is neither an Office lock
      file (`~$`) nor an editor backup (`#`). */
  predicate Accepts(p: string) {
    && Ext(p) == ".xlsx"
    && !Text.HasPrefix(Base(p), "~$")
    && !Text.HasPrefix(Base(p), "#")
  }

  /** The table name: the file name with every ".xlsx" removed. */
  function TableName(p: string): string {
    Text.RemoveAll(Base(p), ".xlsx")
  }

  /** The extension is ".xlsx" exactly when the path ends with ".xlsx". */
  lemma ExtIsXlsx(p: string)
    ensures Ext(p) == ".xlsx" <==> Text.HasSuffix(p, ".xlsx")
  {
    if Text.HasSuffix(p, ".xlsx") {
      var n := |p|;
      assert p[n - 5..] == ".xlsx";
      assert p[n - 1] == 'x' && p[n - 2] == 's' && p[n - 3] == 'l' && p[n - 4] == 'x' && p[n - 5] == '.';
      assert ExtBefore(p, n) == ExtBefore(p, n - 4);
    }
  }

  /** An accepted path's file name ends with ".xlsx". */
  lemma AcceptedBaseIsXlsx(p: string)
    requires Accepts(p)
    ensures Text.HasSuffix(Base(p), ".xlsx")
  {
    ExtIsXlsx(p);
    var b := Base(p);
    var n := |p|;
    assert p[n - 5..] == ".xlsx";
    assert b[|b| - 5..] == p[n - 5..];
  }

  /** The table name of an accepted file whose name holds ".xlsx" only at its
      end is the name without the extension. */
  lemma TableNameStripsExtension(p: string)
    requires Accepts(p)
    requires forall i :: 0 <= i < |Base(p)| - 5 ==> !Text.OccursAt(Base(p), ".xlsx", i)
    ensures TableName(p) + ".xlsx" == Base(p)
  {
    AcceptedBaseIsXlsx(p);
    Text.RemoveSuffix(Base(p), ".xlsx");
  }

  /** The file name of a path is what follows its last '/', or the whole
      path when it has none. */
  lemma BaseOf(dir: string, name: string)
    requires forall k :: 0 <= k < |name| ==> name[k] != '/'
    ensures Base(name) == name
    ensures Base(dir + "/" + name) == name
  {
    var p := dir + "/" + name;
    assert forall k :: |dir| < k < |p| ==> p[k] == name[k - |dir| - 1];
    BaseSkips(p, |dir| + 1, |p|);
    BaseSkips(name, 0, |name|);
    assert p[|dir| + 1..] == name;
  }

  /** The scan passes over characters that are not '/'. */
  lemma {:induction false} BaseSkips(p: string, j: nat, i: nat)
    requires j <= i <= |p|
    requires forall k :: j <= k < |p| ==> p[k] != '/'
    ensures BaseBefore(p, i) == BaseBefore(p, j)
    decreases i
  {
    if i > j {
      BaseSkips(p, j, i - 1);
    }
  }

  /** A file `name` in any directory is taken exactly when it ends in
      ".xlsx" and starts with neither "~$" nor "#". */
  lemma AcceptsName(dir: string, name: string)
    requires forall k :: 0 <= k < |name| ==> name[k] != '/'
    ensures Accepts(dir + "/" + name) <==>
              Text.HasSuffix(name, ".xlsx") && !Text.HasPrefix(name, "~$") && !Text.HasPrefix(name, "#")
  {
    var p := dir + "/" + name;
    BaseOf(dir, name);
    ExtIsXlsx(p);
    if Text.HasSuffix(p, ".xlsx") {
      assert name[|name| - 5..] == p[|p| - 5..];
    }
    if Text.HasSuffix(name, ".xlsx") {
      assert name[|name| - 5..] == p[|p| - 5..];
    }
  }

  // ---------------------------------------------------------------------
  // The file list

  /** The `fileList` sync.Map: the names of the exported tables. */
  class FileList {
    var entries: map<string, bool>

    constructor()
      ensures entries == map[]
    {
      entries := map[];
    }

    /** `addToFileList`. */
    method Add(name: string)
      modifies this
      ensures entries == old(entries)[name := true]
    {
      entries := entries[name := true];
    }

    /** `getFileList`: the names collected in map order, then sorted. Each
        name appears once, in Go's string order. */
    method GetFileList() returns (result: seq<string>)
      ensures result == Sorting.SortedSet(entries.Keys)
    {
      var keys := Sorting.MapKeys(entries);
      result := Sorting.SortStrings(keys);
      Sorting.SortedSetUnique(keys, entries.Keys);
    }
  }

  /** The table `writeFileList` hands to each encoder. */
  function Manifest(names: seq<string>): Value {
    Map(map["fileList" := StrList(names)])
  }

  /** The file list is already in order, so the Lua encoder's in-place sort
      leaves the table as it was. */
  lemma ManifestSortStable(names: seq<string>)
    requires Sorting.SortedBy(names, Text.StrLe)
    ensures Lua.SortStrLists(Manifest(names)) == Manifest(names)
  {
    Sorting.SortStringsIs(names, names);
    var m := map["fileList" := StrList(names)];
    assert Lua.SortStrLists(m["fileList"]) == m["fileList"];
    assert Lua.SortEntries(m) == m;
  }

  // ---------------------------------------------------------------------
  // The run

  /** `loadConfig`'s adjustment: the row numbers are given 1-based and used
      0-based. */
  function ZeroBased(c: Sheet.Config): Sheet.Config {
    c.(fieldLine := c.fieldLine - 1, typeLine := c.typeLine - 1,
       groupLine := c.groupLine - 1, dataLine := c.dataLine - 1)
  }

  /** A workbook as `excelize` reads it: its first sheet's name and rows. */
  datatype Workbook = Workbook(sheetName: string, lines: seq<seq<string>>)

  /** A file met by the walk; `book` is `None` when it cannot be opened. */
  datatype Entry = Entry(path: string, book: Option<Workbook>)

  /** What a run produces: each exported sheet, and the file list. */
  datatype Run = Run(sheets: seq<Sheet.SheetOutput>, fileList: seq<string>, manifest: Value)

  /** Every accepted workbook that opens can be parsed without a panic. */
  predicate Readable(env: Env, cfg: Sheet.Config, entries: seq<Entry>) {
    forall e :: e in entries && Accepts(e.path) && e.book.Some? ==>
      Sheet.Parseable(cfg, e.book.value.lines) && Sheet.TypesReadable(env, cfg, e.book.value.lines)
  }

  /** `e` is an accepted workbook that opens and exports at least one column:
      `parseXlsx` either files it or stops the run on one of its cells. */
  predicate Exportable(cfg: Sheet.Config, e: Entry) {
    && Accepts(e.path) && e.book.Some?
    && Sheet.Parseable(cfg, e.book.value.lines)
    && |Sheet.Columns(cfg, e.book.value.lines)| > 0
  }

  /** `out` is what `parseXlsx` exports for the entry `e`, under its table name. */
  ghost predicate ExportedFrom(env: Env, cfg: Sheet.Config, e: Entry, out: Sheet.SheetOutput) {
    && Exportable(cfg, e)
    && Sheet.Exported(env, cfg, e.book.value.lines, e.book.value.sheetName, TableName(e.path), out)
  }

  /** The run stops at `e`: one of the cells of the accepted workbook `e`
      cannot be converted. */
  ghost predicate Fails(env: Env, cfg: Sheet.Config, e: Entry) {
    Exportable(cfg, e) && Sheet.SheetRows(env, cfg, e.book.value.lines).Err?
  }

  /** The run stops at `e`, with `err` naming the cell. */
  ghost predicate Failed(env: Env, cfg: Sheet.Config, e: Entry, err: Sheet.SheetError) {
    Fails(env, cfg, e) && Sheet.SheetRows(env, cfg, e.book.value.lines).error == err
  }

  /** The names of a run's sheets. */
  ghost function NamesOf(sheets: seq<Sheet.SheetOutput>): set<string> {
    set o | o in sheets :: o.name
  }

  /** One file met by the walk: `walkFunc`'s filter, then `parseXlsx`, which
      gives up quietly on a workbook it cannot open. `Ok(Some(out))` exactly
      for an exportable workbook; `Err` exactly when one of its cells stops
      the run. */
  method VisitFile(env: Env, cfg: Sheet.Config, e: Entry) returns (res: Result<Option<Sheet.SheetOutput>, Sheet.SheetError>)
    requires Accepts(e.path) && e.book.Some? ==>
               Sheet.Parseable(cfg, e.book.value.lines) && Sheet.TypesReadable(env, cfg, e.book.value.lines)
    ensures res.Err? <==> Fails(env, cfg, e)
    ensures res.Err? ==> Failed(env, cfg, e, res.error)
    ensures res.Ok? ==> (res.value.Some? <==> Exportable(cfg, e))
    ensures res.Ok? && res.value.Some? ==> ExportedFrom(env, cfg, e, res.value.value)
  {
    if !Accepts(e.path) || e.book.None? {
      return Ok(None);
    }
    var book := e.book.value;
    res := Sheet.ParseXlsx(env, cfg, book.lines, book.sheetName, TableName(e.path));
  }

  /** `main` from the walk on: each accepted file is parsed in walk order
      (one after another here). The run stops at the first workbook with a
      cell that cannot be converted, and ends well exactly when there is
      none. Then the sheets are the exports of the exportable workbooks, in
      walk order (`src` lists the entries they come from), and the file list
      names every exported sheet once, in order. */
  method RunBatch(env: Env, raw: Sheet.Config, entries: seq<Entry>)
    returns (r: Result<Run, Sheet.SheetError>, ghost src: seq<int>)
    requires Readable(env, ZeroBased(raw), entries)
    ensures r.Ok? <==> forall j :: 0 <= j < |entries| ==> !Fails(env, ZeroBased(raw), entries[j])
    ensures r.Err? ==> exists j :: 0 <= j < |entries| && Failed(env, ZeroBased(raw), entries[j], r.error) &&
                                   forall k :: 0 <= k < j ==> !Fails(env, ZeroBased(raw), entries[k])
    ensures r.Ok? ==> Walked(env, ZeroBased(raw), entries, |entries|, r.value.sheets, src)
    ensures r.Ok? ==> forall e :: e in entries && Exportable(ZeroBased(raw), e) ==>
                        exists o :: o in r.value.sheets && ExportedFrom(env, ZeroBased(raw), e, o)
    ensures r.Ok? ==> forall o :: o in r.value.sheets ==>
                        exists e :: e in entries && ExportedFrom(env, ZeroBased(raw), e, o)
    ensures r.Ok? ==> |r.value.sheets| <= |entries|
    ensures r.Ok? ==> r.value.fileList == Sorting.SortedSet(NamesOf(r.value.sheets))
    ensures r.Ok? ==> r.value.manifest == Manifest(r.value.fileList)
  {
    var cfg := ZeroBased(raw);
    var files := new FileList();
    var sheets: seq<Sheet.SheetOutput> := [];
    src := [];
    for i := 0 to |entries|
      invariant files.entries.Keys == NamesOf(sheets)
      invariant NoneFails(env, cfg, entries, i)
      invariant Walked(env, cfg, entries, i, sheets, src)
    {
      var err;
      err, sheets, src := WalkStep(env, cfg, entries, i, files, sheets, src);
      if err.Some? {
        FirstFailure(env, cfg, entries, i, err.value);
        return Err(err.value), src;
      }
    }
    NoneFailsEach(env, cfg, entries, |entries|);
    WalkedComplete(env, cfg, entries, sheets, src);
    WalkedSound(env, cfg, entries, |entries|, sheets, src);
    var list := files.GetFileList();
    r := Ok(Run(sheets, list, Manifest(list)));
  }

  /** None of the first `i` entries stops the run. */
  ghost predicate NoneFails(env: Env, cfg: Sheet.Config, entries: seq<Entry>, i: int)
    requires 0 <= i <= |entries|
    decreases i
  {
    i > 0 ==> NoneFails(env, cfg, entries, i - 1) && !Fails(env, cfg, entries[i - 1])
  }

  /** One visit of the walk: the entry's export is filed, or the run stops on it. */
  method WalkStep(env: Env, cfg: Sheet.Config, entries: seq<Entry>, i: int, files: FileList,
                  sheets: seq<Sheet.SheetOutput>, ghost src: seq<int>)
    returns (err: Option<Sheet.SheetError>, sheets': seq<Sheet.SheetOutput>, ghost src': seq<int>)
    requires 0 <= i < |entries| && Readable(env, cfg, entries)
    requires NoneFails(env, cfg, entries, i) && Walked(env, cfg, entries, i, sheets, src)
    requires files.entries.Keys == NamesOf(sheets)
    modifies files
    ensures err.Some? ==> Failed(env, cfg, entries[i], err.value)
    ensures err.None? ==> NoneFails(env, cfg, entries, i + 1) && Walked(env, cfg, entries, i + 1, sheets', src')
    ensures err.None? ==> files.entries.Keys == NamesOf(sheets')
  {
    assert entries[i] in entries;
    var res := VisitFile(env, cfg, entries[i]);
    if res.Err? {
      return Some(res.error), sheets, src;
    }
    err := None;
    sheets', src' := FileVisit(env, cfg, entries, i, files, sheets, src, res.value);
  }

  /** The filing half of a visit that did not stop the run. */
  method FileVisit(env: Env, cfg: Sheet.Config, entries: seq<Entry>, i: int, files: FileList,
                   sheets: seq<Sheet.SheetOutput>, ghost src: seq<int>, found: Option<Sheet.SheetOutput>)
    returns (sheets': seq<Sheet.SheetOutput>, ghost src': seq<int>)
    requires 0 <= i < |entries| && NoneFails(env, cfg, entries, i) && !Fails(env, cfg, entries[i])
    requires Walked(env, cfg, entries, i, sheets, src) && files.entries.Keys == NamesOf(sheets)
    requires found.Some? <==> Exportable(cfg, entries[i])
    requires found.Some? ==> ExportedFrom(env, cfg, entries[i], found.value)
    modifies files
    ensures NoneFails(env, cfg, entries, i + 1) && Walked(env, cfg, entries, i + 1, sheets', src')
    ensures files.entries.Keys == NamesOf(sheets')
  {
    NoneFailsStep(env, cfg, entries, i);
    WalkedStep(env, cfg, entries, i, sheets, src, found);
    sheets', src' := sheets, src;
    if found.Some? {
      var out := found.value;
      NamesOfSnoc(sheets, out);
      sheets', src' := sheets + [out], src + [i];
      files.Add(out.name);
    }
  }

  /** One more entry that does not fail keeps `NoneFails`. */
  lemma NoneFailsStep(env: Env, cfg: Sheet.Config, entries: seq<Entry>, i: int)
    requires 0 <= i < |entries| && NoneFails(env, cfg, entries, i) && !Fails(env, cfg, entries[i])
    ensures NoneFails(env, cfg, entries, i + 1)
  {
  }

  /** A failure right after `i` entries that do not fail is the first failure of the run. */
  lemma FirstFailure(env: Env, cfg: Sheet.Config, entries: seq<Entry>, i: int, err: Sheet.SheetError)
    requires 0 <= i < |entries| && NoneFails(env, cfg, entries, i) && Failed(env, cfg, entries[i], err)
    ensures !forall j :: 0 <= j < |entries| ==> !Fails(env, cfg, entries[j])
    ensures exists j :: 0 <= j < |entries| && Failed(env, cfg, entries[j], err) &&
                        forall k :: 0 <= k < j ==> !Fails(env, cfg, entries[k])
  {
    NoneFailsEach(env, cfg, entries, i);
  }

  /** `NoneFails` speaks of each of the first `i` entries. */
  lemma {:induction false} NoneFailsEach(env: Env, cfg: Sheet.Config, entries: seq<Entry>, i: int)
    requires 0 <= i <= |entries| && NoneFails(env, cfg, entries, i)
    ensures forall j :: 0 <= j < i ==> !Fails(env, cfg, entries[j])
    decreases i
  {
    if i > 0 {
      NoneFailsEach(env, cfg, entries, i - 1);
      forall j | 0 <= j < i ensures !Fails(env, cfg, entries[j]) {
        if j == i - 1 {
          assert entries[j] == entries[i - 1];
        }
      }
    }
  }

  /** The indices below `i` whose flag is set, in increasing order. */
  function Indices(flags: seq<bool>, i: int): seq<int>
    requires 0 <= i <= |flags|
    decreases i
  {
    if i == 0 then []
    else Indices(flags, i - 1) + (if flags[i - 1] then [i - 1] else [])
  }

  /** `Indices` lists, in increasing order, exactly the set flags below `i`. */
  lemma {:induction false} IndicesSpec(flags: seq<bool>, i: int)
    requires 0 <= i <= |flags|
    ensures Schema.StrictlyIncreasing(Indices(flags, i))
    ensures forall k :: 0 <= k < |Indices(flags, i)| ==> 0 <= Indices(flags, i)[k] < i
    ensures forall j :: 0 <= j < i ==> (flags[j] <==> j in Indices(flags, i))
    decreases i
  {
    if i > 0 {
      IndicesSpec(flags, i - 1);
      var prev := Indices(flags, i - 1);
      var cur := Indices(flags, i);
      assert forall k :: 0 <= k < |prev| ==> cur[k] == prev[k];
      assert forall j :: j in cur <==> j in prev || (flags[i - 1] && j == i - 1);
    }
  }

  /** Which entries are exportable. */
  function ExportableFlags(cfg: Sheet.Config, entries: seq<Entry>): seq<bool> {
    seq(|entries|, j requires 0 <= j < |entries| => Exportable(cfg, entries[j]))
  }

  /** After the first `i` entries of the walk, `sheets` holds the exports of
      the exportable entries among them, in walk order: `src` lists those
      entries, and `sheets[k]` is the export of `entries[src[k]]`. */
  ghost predicate Walked(env: Env, cfg: Sheet.Config, entries: seq<Entry>, i: int,
                         sheets: seq<Sheet.SheetOutput>, src: seq<int>) {
    && 0 <= i <= |entries|
    && src == Indices(ExportableFlags(cfg, entries), i)
    && |src| == |sheets|
    && ExportsOf(env, cfg, entries, sheets, src)
  }

  /** Each `sheets[k]` is the export of `entries[src[k]]`. */
  ghost predicate ExportsOf(env: Env, cfg: Sheet.Config, entries: seq<Entry>,
                            sheets: seq<Sheet.SheetOutput>, src: seq<int>)
    requires |src| == |sheets|
    decreases |src|
  {
    |src| > 0 ==>
      && 0 <= src[|src| - 1] < |entries|
      && ExportedFrom(env, cfg, entries[src[|src| - 1]], sheets[|sheets| - 1])
      && ExportsOf(env, cfg, entries, sheets[..|sheets| - 1], src[..|src| - 1])
  }

  /** `ExportsOf` read at one position. */
  lemma {:induction false} ExportsOfAt(env: Env, cfg: Sheet.Config, entries: seq<Entry>,
                                       sheets: seq<Sheet.SheetOutput>, src: seq<int>, k: int)
    requires |src| == |sheets| && ExportsOf(env, cfg, entries, sheets, src)
    requires 0 <= k < |src|
    ensures 0 <= src[k] < |entries| && ExportedFrom(env, cfg, entries[src[k]], sheets[k])
    decreases |src|
  {
    if k < |src| - 1 {
      var sheets', src' := sheets[..|sheets| - 1], src[..|src| - 1];
      ExportsOfAt(env, cfg, entries, sheets', src', k);
      assert src'[k] == src[k] && sheets'[k] == sheets[k];
    }
  }

  /** Filing the export of one more entry extends `ExportsOf`. */
  lemma ExportsOfSnoc(env: Env, cfg: Sheet.Config, entries: seq<Entry>, sheets: seq<Sheet.SheetOutput>,
                      src: seq<int>, j: int, out: Sheet.SheetOutput)
    requires |src| == |sheets| && ExportsOf(env, cfg, entries, sheets, src)
    requires 0 <= j < |entries| && ExportedFrom(env, cfg, entries[j], out)
    ensures ExportsOf(env, cfg, entries, sheets + [out], src + [j])
  {
    var sheets', src' := sheets + [out], src + [j];
    assert sheets'[|sheets'| - 1] == out && src'[|src'| - 1] == j;
    assert sheets'[..|sheets'| - 1] == sheets && src'[..|src'| - 1] == src;
  }

  /** One more entry that does not stop the run keeps `Walked`. */
  lemma WalkedStep(env: Env, cfg: Sheet.Config, entries: seq<Entry>, i: int, sheets: seq<Sheet.SheetOutput>,
                   src: seq<int>, found: Option<Sheet.SheetOutput>)
    requires i < |entries| && Walked(env, cfg, entries, i, sheets, src)
    requires found.Some? <==> Exportable(cfg, entries[i])
    requires found.Some? ==> ExportedFrom(env, cfg, entries[i], found.value)
    ensures found.None? ==> Walked(env, cfg, entries, i + 1, sheets, src)
    ensures found.Some? ==> Walked(env, cfg, entries, i + 1, sheets + [found.value], src + [i])
  {
    var flags := ExportableFlags(cfg, entries);
    assert Indices(flags, i + 1) == src + (if found.Some? then [i] else []) by {
      assert flags[i] == Exportable(cfg, entries[i]);
    }
    if found.Some? {
      ExportsOfSnoc(env, cfg, entries, sheets, src, i, found.value);
    }
  }

  /** The position of an exportable entry's sheet in a finished walk. */
  lemma SheetOf(env: Env, cfg: Sheet.Config, entries: seq<Entry>, sheets: seq<Sheet.SheetOutput>, src: seq<int>, j: int)
    returns (k: int)
    requires Walked(env, cfg, entries, |entries|, sheets, src)
    requires 0 <= j < |entries| && Exportable(cfg, entries[j])
    ensures 0 <= k < |sheets| && ExportedFrom(env, cfg, entries[j], sheets[k])
  {
    var flags := ExportableFlags(cfg, entries);
    assert j in src by {
      IndicesSpec(flags, |entries|);
      assert flags[j];
    }
    k :| 0 <= k < |src| && src[k] == j;
    ExportsOfAt(env, cfg, entries, sheets, src, k);
  }

  /** Every exportable entry of a finished walk has its sheet. */
  lemma WalkedComplete(env: Env, cfg: Sheet.Config, entries: seq<Entry>, sheets: seq<Sheet.SheetOutput>, src: seq<int>)
    requires Walked(env, cfg, entries, |entries|, sheets, src)
    ensures forall e :: e in entries && Exportable(cfg, e) ==> exists o :: o in sheets && ExportedFrom(env, cfg, e, o)
  {
    forall e | e in entries && Exportable(cfg, e) ensures exists o :: o in sheets && ExportedFrom(env, cfg, e, o) {
      var j :| 0 <= j < |entries| && entries[j] == e;
      var k := SheetOf(env, cfg, entries, sheets, src, j);
      assert sheets[k] in sheets;
    }
  }

  /** Every sheet of a walk is the export of one of the entries, and there
      are no more sheets than entries. */
  lemma WalkedSound(env: Env, cfg: Sheet.Config, entries: seq<Entry>, i: int, sheets: seq<Sheet.SheetOutput>, src: seq<int>)
    requires Walked(env, cfg, entries, i, sheets, src)
    ensures forall o :: o in sheets ==> exists e :: e in entries && ExportedFrom(env, cfg, e, o)
    ensures |sheets| <= i
  {
    forall o | o in sheets ensures exists e :: e in entries && ExportedFrom(env, cfg, e, o) {
      var k :| 0 <= k < |sheets| && sheets[k] == o;
      ExportsOfAt(env, cfg, entries, sheets, src, k);
      assert entries[src[k]] in entries;
    }
    IndicesSpec(ExportableFlags(cfg, entries), i);
    IncreasingBelow(src, i);
  }

  /** A strictly increasing sequence of indices below `n` has at most `n` elements. */
  lemma {:induction false} IncreasingBelow(s: seq<int>, n: int)
    requires 0 <= n && Schema.StrictlyIncreasing(s)
    requires forall k :: 0 <= k < |s| ==> 0 <= s[k] < n
    ensures |s| <= n
    decreases |s|
  {
    if |s| > 0 {
      var init := s[..|s| - 1];
      assert forall k :: 0 <= k < |init| ==> init[k] == s[k];
      assert Schema.StrictlyIncreasing(init);
      assert forall k :: 0 <= k < |init| ==> 0 <= init[k] < s[|s| - 1];
      IncreasingBelow(init, s[|s| - 1]);
    }
  }

  /** Filing one more sheet adds its name. */
  lemma NamesOfSnoc(sheets: seq<Sheet.SheetOutput>, out: Sheet.SheetOutput)
    ensures NamesOf(sheets + [out]) == NamesOf(sheets) + {out.name}
  {
    var next := sheets + [out];
    assert forall o :: o in next <==> o in sheets || o == out;
  }
}
