/** Schema extraction (`parseXlsx`, excelTool.go:191-224) and the group
    filter `canAddData` (excelTool.go:308-318). */
module Schema {
  import opened Text
  import Sorting

  /** Some `/`-separated part of the column's group tag is an active group. */
  predicate InGroups(groups: seq<string>, tag: string) {
    var parts := Split(tag, '/');
    exists i, j :: 0 <= i < |groups| && 0 <= j < |parts| && groups[i] == parts[j]
  }

  /** `canAddData`: search the active groups, then the tag's parts, for a match. */
  method CanAddData(groups: seq<string>, group: string) returns (ok: bool)
    ensures ok == InGroups(groups, group)
  {
    var parts := Split(group, '/');
    var i := 0;
    while i < |groups|
      invariant 0 <= i <= |groups|
      invariant forall a, b :: 0 <= a < i && 0 <= b < |parts| ==> groups[a] != parts[b]
    {
      var j := 0;
      while j < |parts|
        invariant 0 <= j <= |parts|
        invariant forall b :: 0 <= b < j ==> groups[i] != parts[b]
      {
        if groups[i] == parts[j] {
          return true;
        }
        j := j + 1;
      }
      i := i + 1;
    }
    return false;
  }

  /** With no active group no column is exported. */
  lemma NoGroupsNoColumn(tag: string)
    ensures !InGroups([], tag)
  {
  }

  /** A column tagged "c/s" is exported for ["c"], ["s"] and ["c", "x"], not for ["x"]. */
  lemma GroupExamples()
    ensures InGroups(["c"], "c/s") && InGroups(["s"], "c/s") && InGroups(["c", "x"], "c/s")
    ensures !InGroups(["x"], "c/s")
  {
    var parts := Split("c/s", '/');
    assert parts == ["c", "s"] by {
      SplitAfterPart("c", "s", '/');
      SplitNoSeparator("s", '/');
      assert "c/s" == "c" + ['/'] + "s";
    }
    assert ["c"][0] == parts[0];
    assert ["s"][0] == parts[1];
    assert ["c", "x"][0] == parts[0];
  }

  /** The loop state: `fieldMap` (column index to exported name) and `set`
      (name to the column where it was first kept). */
  datatype SchemaState = SchemaState(fieldMap: map<int, string>, seen: map<string, int>)

  /** Go's map read: a missing key reads as the empty string. */
  function Lookup(m: map<int, string>, k: int): string {
    if k in m then m[k] else ""
  }

  /** One column of the loop, as written: a name met again takes the entry at
      the index recorded for it (which may be gone already, reading ""), and
      that index is deleted; `set` keeps the first index for ever. */
  function Step(st: SchemaState, i: int, field: string, keep: bool): SchemaState {
    if !keep then st
    else if field in st.seen then
      var idx := st.seen[field];
      SchemaState(st.fieldMap[i := Lookup(st.fieldMap, idx)] - {idx}, st.seen)
    else if field != "" then
      SchemaState(st.fieldMap[i := field], st.seen[field := i])
    else st
  }

  /** Column `j` passes the group filter. */
  predicate Kept(groupRow: seq<string>, groups: seq<string>, j: int)
    requires 0 <= j < |groupRow|
  {
    InGroups(groups, groupRow[j])
  }

  /** The state after the first `k` columns. */
  function SchemaUpTo(fieldRow: seq<string>, groupRow: seq<string>, groups: seq<string>, k: nat): SchemaState
    requires k <= |fieldRow| <= |groupRow|
  {
    if k == 0 then SchemaState(map[], map[])
    else Step(SchemaUpTo(fieldRow, groupRow, groups, k - 1), k - 1, fieldRow[k - 1], Kept(groupRow, groups, k - 1))
  }

  /** The `fieldMap` the loop leaves behind. */
  function FieldMap(fieldRow: seq<string>, groupRow: seq<string>, groups: seq<string>): map<int, string>
    requires |fieldRow| <= |groupRow|
  {
    SchemaUpTo(fieldRow, groupRow, groups, |fieldRow|).fieldMap
  }

  /** The loop at excelTool.go:194-206. */
  method BuildSchema(fieldRow: seq<string>, groupRow: seq<string>, groups: seq<string>)
    returns (fieldMap: map<int, string>)
    requires |fieldRow| <= |groupRow|
    ensures fieldMap == FieldMap(fieldRow, groupRow, groups)
  {
    fieldMap := map[];
    var seen: map<string, int> := map[];
    var i := 0;
    while i < |fieldRow|
      invariant 0 <= i <= |fieldRow|
      invariant SchemaState(fieldMap, seen) == SchemaUpTo(fieldRow, groupRow, groups, i)
    {
      var field := fieldRow[i];
      var keep := CanAddData(groups, groupRow[i]);
      if keep {
        if field in seen {
          var idx := seen[field];
          fieldMap := fieldMap[i := Lookup(fieldMap, idx)];
          fieldMap := fieldMap - {idx};
        } else if field != "" {
          seen := seen[field := i];
          fieldMap := fieldMap[i := field];
        }
      }
      i := i + 1;
    }
  }

  // ---------------------------------------------------------------------
  // What the loop computes, column by column

  /** How many kept columns before `k` are named `f`. */
  function Seen(fieldRow: seq<string>, groupRow: seq<string>, groups: seq<string>, f: string, k: nat): nat
    requires k <= |fieldRow| <= |groupRow|
  {
    if k == 0 then 0
    else
      var here := if Kept(groupRow, groups, k - 1) && fieldRow[k - 1] == f then 1 else 0;
      Seen(fieldRow, groupRow, groups, f, k - 1) + here
  }

  lemma {:induction false} SeenGrows(fieldRow: seq<string>, groupRow: seq<string>, groups: seq<string>, f: string, j: nat, k: nat)
    requires j < k <= |fieldRow| <= |groupRow|
    requires Kept(groupRow, groups, j) && fieldRow[j] == f
    ensures Seen(fieldRow, groupRow, groups, f, k) >= Seen(fieldRow, groupRow, groups, f, j) + 1
    decreases k
  {
    if k > j + 1 {
      SeenGrows(fieldRow, groupRow, groups, f, j, k - 1);
    }
  }

  /** The exact content of the state after `k` columns: a name is recorded at
      its first kept column; a kept, named column is present unless it is the
      first of a name that occurs again; it carries its name if it is the first
      or second occurrence, and "" from the third on. */
  ghost predicate Characterised(fieldRow: seq<string>, groupRow: seq<string>, groups: seq<string>, k: nat, st: SchemaState)
    requires k <= |fieldRow| <= |groupRow|
  {
    SeenCharacterised(fieldRow, groupRow, groups, k, st.seen) && MapCharacterised(fieldRow, groupRow, groups, k, st.fieldMap)
  }

  /** The `set` half of `Characterised`. */
  ghost predicate SeenCharacterised(fieldRow: seq<string>, groupRow: seq<string>, groups: seq<string>, k: nat,
                                    seen: map<string, int>)
    requires k <= |fieldRow| <= |groupRow|
  {
    && (forall f :: f in seen <==> f != "" && Seen(fieldRow, groupRow, groups, f, k) > 0)
    && (forall f :: f in seen ==>
          && 0 <= seen[f] < k && fieldRow[seen[f]] == f && Kept(groupRow, groups, seen[f])
          && Seen(fieldRow, groupRow, groups, f, seen[f]) == 0)
  }

  /** The `fieldMap` half of `Characterised`. */
  ghost predicate MapCharacterised(fieldRow: seq<string>, groupRow: seq<string>, groups: seq<string>, k: nat,
                                   fieldMap: map<int, string>)
    requires k <= |fieldRow| <= |groupRow|
  {
    && (forall c :: c in fieldMap <==>
          && 0 <= c < k && Kept(groupRow, groups, c) && fieldRow[c] != ""
          && (Seen(fieldRow, groupRow, groups, fieldRow[c], c) > 0 ||
              Seen(fieldRow, groupRow, groups, fieldRow[c], k) == 1))
    && (forall c :: c in fieldMap ==>
          fieldMap[c] == if Seen(fieldRow, groupRow, groups, fieldRow[c], c) <= 1 then fieldRow[c] else "")
  }

  lemma {:induction false} StepCharacterised(fieldRow: seq<string>, groupRow: seq<string>, groups: seq<string>, k: nat)
    requires k < |fieldRow| <= |groupRow|
    requires Characterised(fieldRow, groupRow, groups, k, SchemaUpTo(fieldRow, groupRow, groups, k))
    ensures Characterised(fieldRow, groupRow, groups, k + 1, SchemaUpTo(fieldRow, groupRow, groups, k + 1))
  {
    var st := SchemaUpTo(fieldRow, groupRow, groups, k);
    var f := fieldRow[k];
    var keep := Kept(groupRow, groups, k);
    if keep && f in st.seen {
      StepRepeated(fieldRow, groupRow, groups, k, st);
    } else if keep && f != "" {
      StepFirst(fieldRow, groupRow, groups, k, st);
    } else {
      StepSkipped(fieldRow, groupRow, groups, k, st);
    }
  }

  /** Seen after `k + 1` columns differs from Seen after `k` only for the
      name of column `k`, and only if that column is kept. */
  lemma SeenNext(fieldRow: seq<string>, groupRow: seq<string>, groups: seq<string>, k: nat)
    requires k < |fieldRow| <= |groupRow|
    ensures forall g ::
      Seen(fieldRow, groupRow, groups, g, k + 1) ==
        Seen(fieldRow, groupRow, groups, g, k) + (if Kept(groupRow, groups, k) && fieldRow[k] == g then 1 else 0)
  {
  }

  /** A kept column whose name was recorded before. */
  lemma StepRepeated(fieldRow: seq<string>, groupRow: seq<string>, groups: seq<string>, k: nat, st: SchemaState)
    requires k < |fieldRow| <= |groupRow|
    requires st == SchemaUpTo(fieldRow, groupRow, groups, k)
    requires Characterised(fieldRow, groupRow, groups, k, st)
    requires Kept(groupRow, groups, k) && fieldRow[k] in st.seen
    ensures Characterised(fieldRow, groupRow, groups, k + 1, SchemaUpTo(fieldRow, groupRow, groups, k + 1))
  {
    var f := fieldRow[k];
    var idx := st.seen[f];
    var fm := st.fieldMap[k := Lookup(st.fieldMap, idx)] - {idx};
    assert SchemaUpTo(fieldRow, groupRow, groups, k + 1) == SchemaState(fm, st.seen);
    SeenNext(fieldRow, groupRow, groups, k);
    RepeatedKeepsSeen(fieldRow, groupRow, groups, k, st.seen);
    assert idx in st.fieldMap <==> Seen(fieldRow, groupRow, groups, f, k) == 1;
    forall c
      ensures c in fm <==>
        && 0 <= c < k + 1 && Kept(groupRow, groups, c) && fieldRow[c] != ""
        && (Seen(fieldRow, groupRow, groups, fieldRow[c], c) > 0 ||
            Seen(fieldRow, groupRow, groups, fieldRow[c], k + 1) == 1)
      ensures c in fm ==>
        fm[c] == if Seen(fieldRow, groupRow, groups, fieldRow[c], c) <= 1 then fieldRow[c] else ""
    {
      if c == k {
        assert c in fm;
      } else if c == idx {
        assert c !in fm;
      } else if 0 <= c < k {
        RepeatedEarlier(fieldRow, groupRow, groups, k, st, c);
        assert c in fm <==> c in st.fieldMap;
      } else {
        assert c !in st.fieldMap;
      }
    }
  }

  /** A repeated name leaves `set` as it was, and still characterised. */
  lemma RepeatedKeepsSeen(fieldRow: seq<string>, groupRow: seq<string>, groups: seq<string>, k: nat,
                          seen: map<string, int>)
    requires k < |fieldRow| <= |groupRow|
    requires SeenCharacterised(fieldRow, groupRow, groups, k, seen)
    requires Kept(groupRow, groups, k) && fieldRow[k] in seen
    ensures SeenCharacterised(fieldRow, groupRow, groups, k + 1, seen)
  {
    SeenNext(fieldRow, groupRow, groups, k);
  }

  /** An earlier column keeps its place when a name is repeated at `k`:
      if it carries the same name, it is not that name's first occurrence. */
  lemma RepeatedEarlier(fieldRow: seq<string>, groupRow: seq<string>, groups: seq<string>, k: nat, st: SchemaState,
                        c: int)
    requires k < |fieldRow| <= |groupRow|
    requires st == SchemaUpTo(fieldRow, groupRow, groups, k)
    requires Characterised(fieldRow, groupRow, groups, k, st)
    requires Kept(groupRow, groups, k) && fieldRow[k] in st.seen
    requires 0 <= c < k && c != st.seen[fieldRow[k]]
    ensures c in st.fieldMap <==>
      && Kept(groupRow, groups, c) && fieldRow[c] != ""
      && (Seen(fieldRow, groupRow, groups, fieldRow[c], c) > 0 ||
          Seen(fieldRow, groupRow, groups, fieldRow[c], k + 1) == 1)
  {
    SeenNext(fieldRow, groupRow, groups, k);
    var f := fieldRow[k];
    var idx := st.seen[f];
    if Kept(groupRow, groups, c) && fieldRow[c] == f {
      if c < idx {
        SeenGrows(fieldRow, groupRow, groups, f, c, idx);
      } else {
        SeenGrows(fieldRow, groupRow, groups, f, idx, c);
      }
    }
  }

  /** A kept, named column whose name is new. */
  lemma StepFirst(fieldRow: seq<string>, groupRow: seq<string>, groups: seq<string>, k: nat, st: SchemaState)
    requires k < |fieldRow| <= |groupRow|
    requires st == SchemaUpTo(fieldRow, groupRow, groups, k)
    requires Characterised(fieldRow, groupRow, groups, k, st)
    requires Kept(groupRow, groups, k) && fieldRow[k] !in st.seen && fieldRow[k] != ""
    ensures Characterised(fieldRow, groupRow, groups, k + 1, SchemaUpTo(fieldRow, groupRow, groups, k + 1))
  {
    var f := fieldRow[k];
    assert SchemaUpTo(fieldRow, groupRow, groups, k + 1) == SchemaState(st.fieldMap[k := f], st.seen[f := k]);
    FirstSeen(fieldRow, groupRow, groups, k, st.seen);
    FirstMap(fieldRow, groupRow, groups, k, st.seen, st.fieldMap);
  }

  /** A new name is recorded at its first kept column. */
  lemma FirstSeen(fieldRow: seq<string>, groupRow: seq<string>, groups: seq<string>, k: nat, seen: map<string, int>)
    requires k < |fieldRow| <= |groupRow|
    requires SeenCharacterised(fieldRow, groupRow, groups, k, seen)
    requires Kept(groupRow, groups, k) && fieldRow[k] !in seen && fieldRow[k] != ""
    ensures SeenCharacterised(fieldRow, groupRow, groups, k + 1, seen[fieldRow[k] := k])
  {
    SeenNext(fieldRow, groupRow, groups, k);
  }

  /** A new name's column is exported under that name; no earlier column
      carries the name, so nothing else changes. */
  lemma FirstMap(fieldRow: seq<string>, groupRow: seq<string>, groups: seq<string>, k: nat, seen: map<string, int>,
                 fieldMap: map<int, string>)
    requires k < |fieldRow| <= |groupRow|
    requires SeenCharacterised(fieldRow, groupRow, groups, k, seen)
    requires MapCharacterised(fieldRow, groupRow, groups, k, fieldMap)
    requires Kept(groupRow, groups, k) && fieldRow[k] !in seen && fieldRow[k] != ""
    ensures MapCharacterised(fieldRow, groupRow, groups, k + 1, fieldMap[k := fieldRow[k]])
  {
    var f := fieldRow[k];
    SeenNext(fieldRow, groupRow, groups, k);
    forall c | 0 <= c < k && Kept(groupRow, groups, c) && fieldRow[c] == f
      ensures false
    {
      SeenGrows(fieldRow, groupRow, groups, f, c, k);
    }
  }

  /** A column that is filtered out, or kept with an empty new name. */
  lemma StepSkipped(fieldRow: seq<string>, groupRow: seq<string>, groups: seq<string>, k: nat, st: SchemaState)
    requires k < |fieldRow| <= |groupRow|
    requires st == SchemaUpTo(fieldRow, groupRow, groups, k)
    requires Characterised(fieldRow, groupRow, groups, k, st)
    requires !Kept(groupRow, groups, k) || (fieldRow[k] !in st.seen && fieldRow[k] == "")
    ensures Characterised(fieldRow, groupRow, groups, k + 1, SchemaUpTo(fieldRow, groupRow, groups, k + 1))
  {
    assert SchemaUpTo(fieldRow, groupRow, groups, k + 1) == Step(st, k, fieldRow[k], Kept(groupRow, groups, k));
    SeenNext(fieldRow, groupRow, groups, k);
  }

  lemma {:induction false} SchemaCharacterised(fieldRow: seq<string>, groupRow: seq<string>, groups: seq<string>, k: nat)
    requires k <= |fieldRow| <= |groupRow|
    ensures Characterised(fieldRow, groupRow, groups, k, SchemaUpTo(fieldRow, groupRow, groups, k))
    decreases k
  {
    if k > 0 {
      SchemaCharacterised(fieldRow, groupRow, groups, k - 1);
      StepCharacterised(fieldRow, groupRow, groups, k - 1);
    }
  }

  /** The schema the loop leaves: a column is exported iff it passes the group
      filter, has a non-empty name, and is not the first kept occurrence of a
      name that is kept again; it is exported under its own name when it is the
      first or second kept occurrence, and under "" from the third on (the
      first index stays recorded in `set` after it has been deleted). */
  lemma SchemaDedup(fieldRow: seq<string>, groupRow: seq<string>, groups: seq<string>)
    requires |fieldRow| <= |groupRow|
    ensures forall c :: c in FieldMap(fieldRow, groupRow, groups) <==>
      && 0 <= c < |fieldRow| && Kept(groupRow, groups, c) && fieldRow[c] != ""
      && (Seen(fieldRow, groupRow, groups, fieldRow[c], c) > 0 ||
          Seen(fieldRow, groupRow, groups, fieldRow[c], |fieldRow|) == 1)
    ensures forall c :: c in FieldMap(fieldRow, groupRow, groups) ==>
      FieldMap(fieldRow, groupRow, groups)[c] ==
        if Seen(fieldRow, groupRow, groups, fieldRow[c], c) <= 1 then fieldRow[c] else ""
  {
    SchemaCharacterised(fieldRow, groupRow, groups, |fieldRow|);
  }

  /** A name kept in exactly two columns is exported from the later one only:
      the earlier index is deleted when the name is met again. */
  lemma {:induction false} RepeatedNameMoves(fieldRow: seq<string>, groupRow: seq<string>, groups: seq<string>, a: nat, b: nat)
    requires a < b < |fieldRow| <= |groupRow|
    requires fieldRow[a] == fieldRow[b] != ""
    requires Kept(groupRow, groups, a) && Kept(groupRow, groups, b)
    requires Seen(fieldRow, groupRow, groups, fieldRow[a], |fieldRow|) == 2
    ensures a !in FieldMap(fieldRow, groupRow, groups)
    ensures b in FieldMap(fieldRow, groupRow, groups) && FieldMap(fieldRow, groupRow, groups)[b] == fieldRow[b]
  {
    var f := fieldRow[a];
    SchemaDedup(fieldRow, groupRow, groups);
    SeenGrows(fieldRow, groupRow, groups, f, a, b);
    SeenGrows(fieldRow, groupRow, groups, f, b, |fieldRow|);
  }

  /** With no active group, nothing is exported. */
  lemma EmptyGroupsExportNothing(fieldRow: seq<string>, groupRow: seq<string>)
    requires |fieldRow| <= |groupRow|
    ensures FieldMap(fieldRow, groupRow, []) == map[]
  {
    SchemaDedup(fieldRow, groupRow, []);
    forall c ensures c !in FieldMap(fieldRow, groupRow, []) {
      if 0 <= c < |fieldRow| {
        assert !Kept(groupRow, [], c);
      }
    }
    assert FieldMap(fieldRow, groupRow, []).Keys == {};
  }

  /** ["id", "name", "id"] exports "name" from column 1 and "id" from column 2;
      ["id", "id", "id"] exports "id" from column 1 and "" from column 2. */
  lemma DedupExamples()
    ensures FieldMap(["id", "name", "id"], ["c", "c", "c"], ["c"]) == map[1 := "name", 2 := "id"]
    ensures FieldMap(["id", "id", "id"], ["c", "c", "c"], ["c"]) == map[1 := "id", 2 := ""]
  {
    assert Split("c", '/') == ["c"] by { SplitNoSeparator("c", '/'); }
    assert InGroups(["c"], "c") by { assert ["c"][0] == Split("c", '/')[0]; }
    var g := ["c", "c", "c"];
    var a := ["id", "name", "id"];
    assert SchemaUpTo(a, g, ["c"], 1) == SchemaState(map[0 := "id"], map["id" := 0]);
    assert SchemaUpTo(a, g, ["c"], 2) == SchemaState(map[0 := "id", 1 := "name"], map["id" := 0, "name" := 1]);
    assert SchemaUpTo(a, g, ["c"], 3) == SchemaState(map[0 := "id", 1 := "name"][2 := "id"] - {0}, map["id" := 0, "name" := 1]);
    assert map[0 := "id", 1 := "name"][2 := "id"] - {0} == map[1 := "name", 2 := "id"];
    var b := ["id", "id", "id"];
    assert SchemaUpTo(b, g, ["c"], 1) == SchemaState(map[0 := "id"], map["id" := 0]);
    assert SchemaUpTo(b, g, ["c"], 2) == SchemaState(map[0 := "id"][1 := "id"] - {0}, map["id" := 0]);
    assert map[0 := "id"][1 := "id"] - {0} == map[1 := "id"];
    assert SchemaUpTo(b, g, ["c"], 3) == SchemaState(map[1 := "id"][2 := ""] - {0}, map["id" := 0]);
    assert map[1 := "id"][2 := ""] - {0} == map[1 := "id", 2 := ""];
  }

  // ---------------------------------------------------------------------
  // The exported column list (excelTool.go:208-224)

  predicate StrictlyIncreasing(s: seq<int>) {
    forall i, j :: 0 <= i < j < |s| ==> s[i] < s[j]
  }

  /** The members of `s` below `n`, in increasing order. */
  function Ascending(s: set<int>, n: nat): seq<int> {
    if n == 0 then [] else Ascending(s, n - 1) + (if n - 1 in s then [n - 1] else [])
  }

  lemma {:induction false} AscendingListsSet(s: set<int>, n: nat)
    ensures StrictlyIncreasing(Ascending(s, n))
    ensures forall x :: x in Ascending(s, n) <==> x in s && 0 <= x < n
  {
    if n > 0 {
      AscendingListsSet(s, n - 1);
      var prev := Ascending(s, n - 1);
      assert forall i :: 0 <= i < |prev| ==> prev[i] < n - 1 by {
        forall i | 0 <= i < |prev| ensures prev[i] < n - 1 {
          assert prev[i] in prev;
        }
      }
    }
  }

  /** Two increasing listings of one set are equal. */
  lemma IncreasingListingUnique(a: seq<int>, b: seq<int>, s: set<int>)
    requires StrictlyIncreasing(a) && StrictlyIncreasing(b)
    requires forall x :: x in a <==> x in s
    requires forall x :: x in b <==> x in s
    ensures a == b
  {
    assert Sorting.Enumerates(a, s) && Sorting.Enumerates(b, s);
    Sorting.EnumerationMultiset(a, s);
    Sorting.EnumerationMultiset(b, s);
    Sorting.IntLeOrder();
    Sorting.SortedUnique(a, b, Sorting.IntLe);
  }

  /** `sort.Ints` on a duplicate-free listing gives the increasing listing. */
  lemma SortedListingIncreases(keys: seq<int>, s: set<int>)
    requires Sorting.Enumerates(keys, s)
    ensures StrictlyIncreasing(Sorting.SortBy(keys, Sorting.IntLe))
    ensures forall x :: x in Sorting.SortBy(keys, Sorting.IntLe) <==> x in s
  {
    Sorting.IntLeOrder();
    Sorting.EnumerationMultiset(keys, s);
    var r := Sorting.SortBy(keys, Sorting.IntLe);
    assert forall x :: x in r <==> x in multiset(keys);
    forall a, b | 0 <= a < b < |r| ensures r[a] < r[b] {
      assert r[a] <= r[b];
      Sorting.RepeatCounted(r, a, b);
    }
  }

  /** The keys of `fieldMap`, collected in map order and sorted (`sort.Ints`),
      and the names in that order: exported names follow increasing column index. */
  method ExportedColumns(fieldMap: map<int, string>) returns (idxList: seq<int>, fields: seq<string>)
    ensures StrictlyIncreasing(idxList)
    ensures forall x :: x in idxList <==> x in fieldMap
    ensures |fields| == |idxList|
    ensures forall j :: 0 <= j < |idxList| ==> idxList[j] in fieldMap && fields[j] == fieldMap[idxList[j]]
  {
    var keys := Sorting.MapKeys(fieldMap);
    SortedListingIncreases(keys, fieldMap.Keys);
    Sorting.IntLeOrder();
    idxList := Sorting.SortBy(keys, Sorting.IntLe);
    fields := [];
    var j := 0;
    while j < |idxList|
      invariant 0 <= j <= |idxList|
      invariant |fields| == j
      invariant forall m :: 0 <= m < j ==> idxList[m] in fieldMap && fields[m] == fieldMap[idxList[m]]
    {
      assert idxList[j] in idxList;
      fields := fields + [fieldMap[idxList[j]]];
      j := j + 1;
    }
  }
}
