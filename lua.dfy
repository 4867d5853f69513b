/** The Lua table encoder: `writeLuaTable`, `writeLuaTableContent` and
    `addTabs`, writing into a `bytes.Buffer`. */
module Lua {
  import opened Values
  import Numbers
  import Sorting
  import Text
  import opened Buffers

  /** `idx` tab characters; none at all when `idx` is zero or negative. */
  function Tabs(idx: int): (r: string)
    ensures |r| == if idx <= 0 then 0 else idx
    ensures forall i :: 0 <= i < |r| ==> r[i] == '\t'
  {
    if idx <= 0 then "" else Tabs(idx - 1) + "\t"
  }

  /** `addTabs`. */
  method AddTabs(buf: Buffer, idx: int)
    modifies buf
    ensures buf.text == old(buf.text) + Tabs(idx)
  {
    var i := 0;
    while i < idx
      invariant idx <= 0 ==> i == 0
      invariant idx > 0 ==> 0 <= i <= idx
      invariant buf.text == old(buf.text) + Tabs(i)
    {
      buf.WriteString("\t");
      i := i + 1;
    }
  }

  /** `fmt.Sprintf("\"%s\"", s)`: the text between double quotes, unescaped. */
  function Quote(s: string): string {
    "\"" + s + "\""
  }

  /** A container: `{`, a line break, its lines, `idx - 1` tabs and `}`. */
  function Braced(lines: string, idx: int): string {
    "{\n" + lines + Tabs(idx - 1) + "}"
  }

  /** Writing a container piece by piece appends `Braced(lines, idx)`. */
  lemma AppendBraced(a: string, lines: string, idx: int)
    ensures a + "{\n" + lines + Tabs(idx - 1) + "}" == a + Braced(lines, idx)
  {
    Text.AppendAssoc(a, "{\n", lines);
    Text.AppendAssoc(a, "{\n" + lines, Tabs(idx - 1));
    Text.AppendAssoc(a, "{\n" + lines + Tabs(idx - 1), "}");
  }

  /** The text `writeLuaTableContent(buffer, v, idx)` appends. A container
      opens with `{` and a line break, writes one line per element, and closes
      with `idx - 1` tabs and `}`; a `[]string` is printed sorted and map
      entries come in ascending key order. */
  ghost function LuaText(env: Env, v: Value, idx: int): string
    decreases v, 2
  {
    match v
    case Nil => "nil"
    case Int(i) => Numbers.FormatInt(i)
    case Float(x) => env.formatFloat(x)
    case Str(s) => Quote(s)
    case List(items) => Braced(ItemsText(env, items, idx), idx)
    case StrList(strs) => Braced(StrItemsText(Sorting.SortStrings(strs), idx), idx)
    case Map(m) => Braced(EntriesText(env, m, Sorting.SortedSet(m.Keys), idx), idx)
    case Bool(b) => if b then "true" else "false"
    case Other(printed) => printed
  }

  /** The line of one element: `idx` tabs, the element one level deeper, `,`. */
  ghost function ItemLine(env: Env, x: Value, idx: int): string
    decreases x, 3
  {
    Tabs(idx) + LuaText(env, x, idx + 1) + ",\n"
  }

  /** The element lines of a `[]interface{}`, first to last. */
  ghost function ItemsText(env: Env, items: seq<Value>, idx: int): string
    decreases items, 0
  {
    if |items| == 0 then ""
    else ItemsText(env, items[..|items| - 1], idx) + ItemLine(env, items[|items| - 1], idx)
  }

  function StrLine(s: string, idx: int): string {
    Tabs(idx) + Quote(s) + ",\n"
  }

  /** The element lines of a `[]string`, first to last. */
  function StrItemsText(strs: seq<string>, idx: int): string {
    if |strs| == 0 then ""
    else StrItemsText(strs[..|strs| - 1], idx) + StrLine(strs[|strs| - 1], idx)
  }

  /** The line `[<key>] = <value>,` of one map entry. */
  ghost function EntryLine(env: Env, m: map<string, Value>, k: string, idx: int): string
    requires k in m
    decreases Map(m), 0
  {
    Tabs(idx) + "[" + Quote(k) + "] = " + LuaText(env, m[k], idx + 1) + ",\n"
  }

  /** The entry lines of a map, for the keys `ks` in order. */
  ghost function EntriesText(env: Env, m: map<string, Value>, ks: seq<string>, idx: int): string
    requires forall k :: k in ks ==> k in m
    decreases Map(m), 1, |ks|
  {
    if |ks| == 0 then ""
    else EntriesText(env, m, ks[..|ks| - 1], idx) + EntryLine(env, m, ks[|ks| - 1], idx)
  }

  /** The value after the encoder has run: `sort.Strings` reorders every
      `[]string` it reaches in place, and it reaches every one. */
  function SortStrLists(v: Value): Value
    decreases v, 1
  {
    match v
    case StrList(strs) => StrList(Sorting.SortStrings(strs))
    case List(items) => List(SortItems(items))
    case Map(m) => Map(SortEntries(m))
    case _ => v
  }

  function SortItems(items: seq<Value>): (r: seq<Value>)
    ensures |r| == |items|
    decreases items, 0
  {
    if |items| == 0 then []
    else SortItems(items[..|items| - 1]) + [SortStrLists(items[|items| - 1])]
  }

  /** `SortItems` works element by element. */
  lemma {:induction false} SortItemsAt(items: seq<Value>, i: int)
    requires 0 <= i < |items|
    ensures SortItems(items)[i] == SortStrLists(items[i])
  {
    var n := |items| - 1;
    if i < n {
      SortItemsAt(items[..n], i);
    }
  }

  function SortEntries(m: map<string, Value>): map<string, Value>
    decreases Map(m), 0
  {
    map k | k in m :: SortStrLists(m[k])
  }

  /** `writeLuaTableContent`: appends `LuaText(env, v, idx)` to the buffer and
      returns `v` as the in-place sorts of its `[]string` parts leave it. */
  method WriteContent(env: Env, buf: Buffer, v: Value, idx: int) returns (after: Value)
    modifies buf
    ensures buf.text == old(buf.text) + LuaText(env, v, idx)
    ensures after == SortStrLists(v)
    decreases v, 3
  {
    match v {
      case Nil =>
        buf.WriteString("nil");
        after := v;
      case Int(i) =>
        buf.WriteString(Numbers.FormatInt(i));
        after := v;
      case Float(x) =>
        buf.WriteString(env.formatFloat(x));
        after := v;
      case Str(s) =>
        buf.WriteString(Quote(s));
        after := v;
      case List(items) =>
        var done := WriteList(env, buf, items, idx);
        after := List(done);
      case StrList(strs) =>
        var sorted := Sorting.SortStrings(strs);
        WriteStrList(buf, sorted, idx);
        after := StrList(sorted);
      case Map(m) =>
        WriteMap(env, buf, m, idx);
        after := Map(SortEntries(m));
      case Bool(b) =>
        buf.WriteString(if b then "true" else "false");
        after := v;
      case Other(printed) =>
        buf.WriteString(printed);
        after := v;
    }
  }

  /** The `[]interface{}` arm. */
  method WriteList(env: Env, buf: Buffer, items: seq<Value>, idx: int) returns (done: seq<Value>)
    modifies buf
    ensures buf.text == old(buf.text) + Braced(ItemsText(env, items, idx), idx)
    ensures done == SortItems(items)
    decreases items, 1
  {
    buf.WriteString("{\n");
    ghost var start := buf.text;
    done := [];
    var i := 0;
    while i < |items|
      invariant 0 <= i <= |items|
      invariant buf.text == start + ItemsText(env, items[..i], idx)
      invariant done == SortItems(items[..i])
    {
      ghost var before := buf.text;
      var a := WriteItem(env, buf, items[i], idx);
      assert items[..i + 1][..i] == items[..i];
      Text.AppendAssoc(start, ItemsText(env, items[..i], idx), ItemLine(env, items[i], idx));
      done := done + [a];
      i := i + 1;
    }
    assert items[..|items|] == items;
    AddTabs(buf, idx - 1);
    buf.WriteString("}");
    AppendBraced(old(buf.text), ItemsText(env, items, idx), idx);
  }

  /** One element line of the `[]interface{}` arm. */
  method WriteItem(env: Env, buf: Buffer, x: Value, idx: int) returns (a: Value)
    modifies buf
    ensures buf.text == old(buf.text) + ItemLine(env, x, idx)
    ensures a == SortStrLists(x)
    decreases x, 4
  {
    AddTabs(buf, idx);
    a := WriteContent(env, buf, x, idx + 1);
    buf.WriteString(",\n");
    Text.AppendAssoc(old(buf.text), Tabs(idx), LuaText(env, x, idx + 1));
    Text.AppendAssoc(old(buf.text), Tabs(idx) + LuaText(env, x, idx + 1), ",\n");
  }

  /** The loop of the `[]string` arm, over the already sorted strings. */
  method WriteStrList(buf: Buffer, sorted: seq<string>, idx: int)
    modifies buf
    ensures buf.text == old(buf.text) + Braced(StrItemsText(sorted, idx), idx)
  {
    buf.WriteString("{\n");
    ghost var start := buf.text;
    var i := 0;
    while i < |sorted|
      invariant 0 <= i <= |sorted|
      invariant buf.text == start + StrItemsText(sorted[..i], idx)
    {
      ghost var before := buf.text;
      AddTabs(buf, idx);
      buf.WriteString(Quote(sorted[i]));
      buf.WriteString(",\n");
      Text.AppendAssoc(before, Tabs(idx), Quote(sorted[i]));
      Text.AppendAssoc(before, Tabs(idx) + Quote(sorted[i]), ",\n");
      assert sorted[..i + 1][..i] == sorted[..i];
      Text.AppendAssoc(start, StrItemsText(sorted[..i], idx), StrLine(sorted[i], idx));
      i := i + 1;
    }
    assert sorted[..|sorted|] == sorted;
    AddTabs(buf, idx - 1);
    buf.WriteString("}");
    AppendBraced(old(buf.text), StrItemsText(sorted, idx), idx);
  }

  /** The `map[string]interface{}` arm: the keys are collected, sorted with
      `sort.Strings`, and the entries written in that order. */
  method WriteMap(env: Env, buf: Buffer, m: map<string, Value>, idx: int)
    modifies buf
    ensures buf.text == old(buf.text) + LuaText(env, Map(m), idx)
    decreases Map(m), 2
  {
    var keys := SortedKeys(m);
    assert LuaText(env, Map(m), idx) == Braced(EntriesText(env, m, keys, idx), idx);
    WriteEntries(env, buf, m, keys, idx);
  }

  /** The keys of a map, collected in map order and sorted with `sort.Strings`. */
  method SortedKeys(m: map<string, Value>) returns (keys: seq<string>)
    ensures keys == Sorting.SortedSet(m.Keys)
  {
    var listed := Sorting.MapKeys(m);
    keys := Sorting.SortStrings(listed);
    Sorting.SortedSetUnique(listed, m.Keys);
  }

  /** The loop of the map arm: one entry line per key of `keys`. */
  method WriteEntries(env: Env, buf: Buffer, m: map<string, Value>, keys: seq<string>, idx: int)
    requires forall k :: k in keys ==> k in m
    modifies buf
    ensures buf.text == old(buf.text) + Braced(EntriesText(env, m, keys, idx), idx)
    decreases Map(m), 1
  {
    buf.WriteString("{\n");
    ghost var start := buf.text;
    var i := 0;
    while i < |keys|
      invariant 0 <= i <= |keys|
      invariant buf.text == start + EntriesText(env, m, keys[..i], idx)
    {
      WriteEntry(env, buf, m, keys[i], idx);
      assert keys[..i + 1][..i] == keys[..i];
      Text.AppendAssoc(start, EntriesText(env, m, keys[..i], idx), EntryLine(env, m, keys[i], idx));
      i := i + 1;
    }
    assert keys[..|keys|] == keys;
    AddTabs(buf, idx - 1);
    buf.WriteString("}");
    AppendBraced(old(buf.text), EntriesText(env, m, keys, idx), idx);
  }

  /** One entry line of the map arm. */
  method WriteEntry(env: Env, buf: Buffer, m: map<string, Value>, k: string, idx: int)
    requires k in m
    modifies buf
    ensures buf.text == old(buf.text) + EntryLine(env, m, k, idx)
    decreases Map(m), 0
  {
    ghost var start := buf.text;
    AddTabs(buf, idx);
    buf.WriteString("[");
    buf.WriteString(Quote(k));
    buf.WriteString("] = ");
    ghost var head := Tabs(idx) + "[" + Quote(k) + "] = ";
    assert buf.text == start + head by {
      Text.AppendAssoc(start, Tabs(idx), "[");
      Text.AppendAssoc(start, Tabs(idx) + "[", Quote(k));
      Text.AppendAssoc(start, Tabs(idx) + "[" + Quote(k), "] = ");
    }
    var _ := WriteContent(env, buf, m[k], idx + 1);
    buf.WriteString(",\n");
    Text.AppendAssoc(start, head, LuaText(env, m[k], idx + 1));
    Text.AppendAssoc(start, head + LuaText(env, m[k], idx + 1), ",\n");
  }

  /** `writeLuaTable` without the file write: the whole chunk, and the value
      as the encoder leaves it. */
  method WriteLuaTable(env: Env, v: Value) returns (chunk: string, after: Value)
    ensures chunk == "return " + LuaText(env, v, 0)
    ensures after == SortStrLists(v)
  {
    var buf := new Buffer();
    buf.WriteString("return ");
    after := WriteContent(env, buf, v, 0);
    chunk := buf.text;
  }

  /** The in-place sorts are done once and for all: a second encoding of the
      same value sorts nothing more. */
  lemma {:induction false} SortStrListsIdempotent(v: Value)
    ensures SortStrLists(SortStrLists(v)) == SortStrLists(v)
    decreases v
  {
    match v
    case StrList(strs) =>
      Sorting.SortStringsIdempotent(strs);
    case List(items) =>
      SortItemsIdempotent(items);
    case Map(m) =>
      var once := SortEntries(m);
      forall k | k in m ensures SortStrLists(once[k]) == once[k] {
        SortStrListsIdempotent(m[k]);
      }
      assert SortEntries(once) == once;
    case _ =>
  }

  lemma {:induction false} SortItemsIdempotent(items: seq<Value>)
    ensures SortItems(SortItems(items)) == SortItems(items)
    decreases items
  {
    if |items| > 0 {
      var n := |items| - 1;
      SortItemsIdempotent(items[..n]);
      SortStrListsIdempotent(items[n]);
      assert SortItems(items)[..n] == SortItems(items[..n]);
    }
  }

  /** Encoding the value the encoder leaves behind writes the same text: the
      in-place sorts change what later writers see, never the Lua output. */
  lemma {:induction false} SortedValuePrintsSame(env: Env, v: Value, idx: int)
    ensures LuaText(env, SortStrLists(v), idx) == LuaText(env, v, idx)
    decreases v, 1
  {
    match v
    case StrList(strs) =>
      Sorting.SortStringsIdempotent(strs);
    case List(items) =>
      SortedItemsPrintSame(env, items, idx);
    case Map(m) =>
      assert SortEntries(m).Keys == m.Keys;
      SortedEntriesPrintSame(env, m, Sorting.SortedSet(m.Keys), idx);
    case _ =>
  }

  lemma {:induction false} SortedItemsPrintSame(env: Env, items: seq<Value>, idx: int)
    ensures ItemsText(env, SortItems(items), idx) == ItemsText(env, items, idx)
    decreases items, 0
  {
    if |items| > 0 {
      var n := |items| - 1;
      SortedItemsPrintSame(env, items[..n], idx);
      SortedValuePrintsSame(env, items[n], idx + 1);
      assert SortItems(items)[..n] == SortItems(items[..n]);
    }
  }

  lemma {:induction false} SortedEntriesPrintSame(env: Env, m: map<string, Value>, ks: seq<string>, idx: int)
    requires forall k :: k in ks ==> k in m
    ensures EntriesText(env, SortEntries(m), ks, idx) == EntriesText(env, m, ks, idx)
    decreases Map(m), 0, |ks|
  {
    if |ks| > 0 {
      var n := |ks| - 1;
      SortedEntriesPrintSame(env, m, ks[..n], idx);
      SortedValuePrintsSame(env, m[ks[n]], idx + 1);
    }
  }

  /** Map entries are written in ascending key order: any ascending listing
      of the keys gives the entry lines, one per key. */
  lemma MapEntriesAscending(env: Env, m: map<string, Value>, ks: seq<string>, idx: int)
    requires Sorting.Enumerates(ks, m.Keys) && Sorting.SortedBy(ks, Text.StrLe)
    ensures forall k :: k in ks ==> k in m
    ensures LuaText(env, Map(m), idx) == Braced(EntriesText(env, m, ks, idx), idx)
  {
    Sorting.OrderedListingIsSortedSet(ks, m.Keys);
  }

  /** A `[]string` prints the same whatever order its strings come in. */
  lemma StrListOrderIrrelevant(env: Env, a: seq<string>, b: seq<string>, idx: int)
    requires multiset(a) == multiset(b)
    ensures LuaText(env, StrList(a), idx) == LuaText(env, StrList(b), idx)
  {
    Sorting.SortStringsIs(b, Sorting.SortStrings(a));
  }
}
