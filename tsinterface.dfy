/** `writeTSInterface`: a TypeScript interface with one member per exported,
    named column whose type tag has a TypeScript counterpart. */
module TsInterface {
  import opened Wrappers
  import Sorting
  import Text
  import Convert

  /** The TypeScript type written for a column's type tag, if any. */
  function TsType(ty: string): (r: Option<string>)
    ensures r.Some? ==> r.value in {"string", "any", "number", "number[]", "string[]",
                                    "any[]", "number[][]", "string[][]", "any[][]"}
  {
    if ty == "string" then Some("string")
    else if ty == "auto" then Some("any")
    else if ty == "int" || ty == "float" then Some("number")
    else if ty == "list,float" || ty == "list,int" then Some("number[]")
    else if ty == "list,string" then Some("string[]")
    else if ty == "list,any" then Some("any[]")
    else if ty == "list,<list,float>" || ty == "list,<list,int>" then Some("number[][]")
    else if ty == "list,<list,string>" then Some("string[][]")
    else if ty == "list,<list,any>" then Some("any[][]")
    else None
  }

  /** Exactly the tags the cell converter accepts have a TypeScript type. */
  lemma TsTypeKnown(ty: string)
    ensures TsType(ty).Some? <==> ty in Convert.KnownTags
  {
  }

  /** Nested lists map to nested arrays of the element type. */
  lemma TsTypeTable()
    ensures TsType("list,<list,int>") == Some("number[][]")
    ensures TsType("list,string") == Some("string[]")
    ensures TsType("auto") == Some("any")
    ensures TsType("bool") == None
  {
  }

  /** Column `k` gets a member line: it is exported under a non-empty name and
      its tag has a TypeScript type. */
  predicate Qualifies(types: seq<string>, fieldMap: map<int, string>, k: int) {
    k in fieldMap && fieldMap[k] != "" && 0 <= k < |types| && TsType(types[k]).Some?
  }

  /** The member line of one column: a line break, a tab, `name: type,`. */
  function Member(types: seq<string>, fieldMap: map<int, string>, k: int): string
    requires Qualifies(types, fieldMap, k)
  {
    "\n\t" + fieldMap[k] + ": " + TsType(types[k]).value + ","
  }

  /** The member lines of the columns `ks`, in that order. */
  function Members(types: seq<string>, fieldMap: map<int, string>, ks: seq<int>): string
    requires forall k :: k in ks ==> Qualifies(types, fieldMap, k)
  {
    if |ks| == 0 then ""
    else Members(types, fieldMap, ks[..|ks| - 1]) + Member(types, fieldMap, ks[|ks| - 1])
  }

  /** The columns of `order` that get a member line, in that order. */
  function Listed(types: seq<string>, fieldMap: map<int, string>, order: seq<int>): (r: seq<int>)
    ensures forall k :: k in r ==> Qualifies(types, fieldMap, k)
  {
    if |order| == 0 then []
    else
      var last := order[|order| - 1];
      Listed(types, fieldMap, order[..|order| - 1]) + (if Qualifies(types, fieldMap, last) then [last] else [])
  }

  /** The interface text when the map yields its keys in `order`. */
  function Interface(name: string, types: seq<string>, fieldMap: map<int, string>, order: seq<int>): string {
    "export interface I" + name + " {" + Members(types, fieldMap, Listed(types, fieldMap, order)) + "\n}"
  }

  /** The columns that get a member line. */
  ghost function Qualifying(types: seq<string>, fieldMap: map<int, string>): set<int> {
    set k | k in fieldMap && Qualifies(types, fieldMap, k)
  }

  /** `writeTSInterface` without the file write. `types[k]` is read only for
      columns with a non-empty name, and must exist for those. The order of the
      members is the map's iteration order, returned as `order`. */
  method WriteTSInterface(name: string, types: seq<string>, fieldMap: map<int, string>)
    returns (text: string, ghost order: seq<int>)
    requires forall k :: k in fieldMap && fieldMap[k] != "" ==> 0 <= k < |types|
    ensures Sorting.Enumerates(order, fieldMap.Keys)
    ensures text == Interface(name, types, fieldMap, order)
    ensures Text.HasPrefix(text, "export interface I" + name + " {") && Text.HasSuffix(text, "\n}")
  {
    var keys := Sorting.MapKeys(fieldMap);
    order := keys;
    var header := "export interface I" + name + " {";
    text := header;
    var i := 0;
    while i < |keys|
      invariant 0 <= i <= |keys|
      invariant text == header + Members(types, fieldMap, Listed(types, fieldMap, keys[..i]))
    {
      var k := keys[i];
      assert keys[..i + 1][..i] == keys[..i];
      ghost var done := Listed(types, fieldMap, keys[..i]);
      var v := fieldMap[k];
      if v != "" {
        var ty := types[k];
        match TsType(ty) {
          case Some(t) =>
            text := text + "\n\t" + v + ": " + t + ",";
            assert Listed(types, fieldMap, keys[..i + 1]) == done + [k];
            assert (done + [k])[..|done|] == done;
            Text.AppendAssoc(header, Members(types, fieldMap, done), Member(types, fieldMap, k));
            assert text == header + Members(types, fieldMap, done) + Member(types, fieldMap, k);
          case None =>
            assert Listed(types, fieldMap, keys[..i + 1]) == done;
        }
      } else {
        assert Listed(types, fieldMap, keys[..i + 1]) == done;
      }
      i := i + 1;
    }
    assert keys[..|keys|] == keys;
    text := text + "\n}";
    InterfaceFraming(name, types, fieldMap, keys);
  }

  /** Whatever the member lines, the interface opens with its header and
      closes with a line break and `}`. */
  lemma InterfaceFraming(name: string, types: seq<string>, fieldMap: map<int, string>, order: seq<int>)
    ensures Text.HasPrefix(Interface(name, types, fieldMap, order), "export interface I" + name + " {")
    ensures Text.HasSuffix(Interface(name, types, fieldMap, order), "\n}")
  {
    var header := "export interface I" + name + " {";
    var members := Members(types, fieldMap, Listed(types, fieldMap, order));
    var text := Interface(name, types, fieldMap, order);
    assert text == header + (members + "\n}");
    assert text[..|header|] == header;
    assert text == (header + members) + "\n}";
    assert text[|text| - 2..] == "\n}";
  }

  /** Every qualifying column gets exactly one member line, whatever order
      the map yields its keys in, and no other column gets one. */
  lemma {:induction false} OneMemberPerColumn(types: seq<string>, fieldMap: map<int, string>, order: seq<int>)
    requires Sorting.Enumerates(order, fieldMap.Keys)
    ensures Sorting.Enumerates(Listed(types, fieldMap, order), Qualifying(types, fieldMap))
    ensures |Listed(types, fieldMap, order)| == |Qualifying(types, fieldMap)|
  {
    ListedIsFilter(types, fieldMap, order);
    var r := Listed(types, fieldMap, order);
    forall i, j | 0 <= i < j < |r| ensures r[i] != r[j] {
      ListedDistinct(types, fieldMap, order, i, j);
    }
    Sorting.EnumerationMultiset(r, Qualifying(types, fieldMap));
  }

  /** `Listed` keeps exactly the qualifying members of `order`. */
  lemma {:induction false} ListedIsFilter(types: seq<string>, fieldMap: map<int, string>, order: seq<int>)
    ensures forall k :: k in Listed(types, fieldMap, order) <==> k in order && Qualifies(types, fieldMap, k)
  {
    if |order| > 0 {
      var n := |order| - 1;
      ListedIsFilter(types, fieldMap, order[..n]);
      assert order == order[..n] + [order[n]];
    }
  }

  /** `Listed` repeats no column of a duplicate-free `order`. */
  lemma {:induction false} ListedDistinct(types: seq<string>, fieldMap: map<int, string>, order: seq<int>, i: int, j: int)
    requires forall a, b :: 0 <= a < b < |order| ==> order[a] != order[b]
    requires 0 <= i < j < |Listed(types, fieldMap, order)|
    ensures Listed(types, fieldMap, order)[i] != Listed(types, fieldMap, order)[j]
  {
    var n := |order| - 1;
    var prev := Listed(types, fieldMap, order[..n]);
    if j < |prev| {
      ListedDistinct(types, fieldMap, order[..n], i, j);
    } else {
      ListedIsFilter(types, fieldMap, order[..n]);
      assert prev[i] in prev;
      assert order[n] !in order[..n];
    }
  }
}
