/** The cell value converter: `toInt`, `toNumber`, `processNestedJSON`,
    `toJson` and the `typeConvert` dispatch on a column's type tag. */
module Convert {
  import opened Wrappers
  import opened Values
  import Text
  import Numbers

  /** Why a cell cannot be converted. Each ends the whole run (`log.Fatal`). */
  datatype ConvertError =
    | UnknownType(ty: string)   // the type tag is none of the recognised ones
    | NotConvertible            // the converter returned nil
    | NestedNumber              // a number inside an "auto" JSON value would not re-parse

  /** The tags whose cells are decoded as JSON lists. */
  const ListTags: set<string> := {
    "list,int", "list,float", "list,string", "list,any",
    "list,<list,int>", "list,<list,float>", "list,<list,string>", "list,<list,any>"
  }

  /** The list tags whose cells decode into a typed Go slice (`[]int64`,
      `[][]string`, ...), which the Lua encoder prints with `%t`. */
  const TypedListTags: set<string> := ListTags - {"list,string", "list,any"}

  /** Every tag `typeConvert` recognises. */
  const KnownTags: set<string> := {"int", "float", "string", "auto"} + ListTags

  /** `toInt(value, force)`: with `force`, only the text before the first '.'
      is parsed; the parse is `strconv.ParseInt(_, 10, 64)`. */
  function ToInt(value: string, force: bool): (r: Option<int>)
    ensures r.Some? ==> Numbers.InInt64(r.value)
  {
    Numbers.ParseInt64(if force then Text.Split(value, '.')[0] else value)
  }

  /** `toNumber`: an int64 if the whole text is one, else whatever `toFloat` makes of it. */
  function ToNumber(env: Env, s: string): (r: Option<Value>)
    ensures r.Some? ==> r.value.Int? || r.value.Float?
  {
    match ToInt(s, false)
    case Some(n) => Some(Int(n))
    case None =>
      match env.toFloat(s)
      case Some(x) => Some(Float(x))
      case None => None
  }

  /** `v` and `w` have the same containers, lengths and keys; numbers may
      differ only in being int or float; everything else is equal. */
  predicate SameShape(v: Value, w: Value) {
    match v
    case Float(_) => w.Int? || w.Float?
    case List(xs) =>
      && w.List? && |xs| == |w.items|
      && forall i :: 0 <= i < |xs| ==> SameShape(xs[i], w.items[i])
    case Map(m) =>
      && w.Map? && m.Keys == w.entries.Keys
      && forall k :: k in m ==> SameShape(m[k], w.entries[k])
    case _ => w == v
  }

  /** `processNestedJSON` applied to one element of a decoded JSON container:
      every float64 below it is printed with `FormatFloat(v, 'f', -1, 64)` and
      re-read with `toNumber`, so integral numbers become int64 again. The Go
      code overwrites the entries in place; here the fixed tree is returned. */
  function FixNested(env: Env, v: Value): (r: Result<Value, ConvertError>)
    ensures r.Ok? ==> SameShape(v, r.value)
    ensures r.Err? ==> r.error == NestedNumber
    decreases v, 1
  {
    match v
    case Float(x) =>
      (match ToNumber(env, env.formatFloatPlain(x))
       case Some(n) => Ok(n)
       case None => Err(NestedNumber))
    case List(items) =>
      (match FixItems(env, items)
       case Ok(fixed) => Ok(List(fixed))
       case Err(e) => Err(e))
    case Map(m) =>
      if forall k | k in m :: FixNested(env, m[k]).Ok? then
        Ok(Map(map k | k in m :: FixNested(env, m[k]).value))
      else Err(NestedNumber)
    case _ => Ok(v)
  }

  function FixItems(env: Env, items: seq<Value>): (r: Result<seq<Value>, ConvertError>)
    ensures r.Ok? ==> |r.value| == |items|
    ensures r.Ok? ==> forall i :: 0 <= i < |items| ==> SameShape(items[i], r.value[i])
    ensures r.Err? ==> r.error == NestedNumber
    decreases items
  {
    if |items| == 0 then Ok([])
    else
      match FixNested(env, items[0])
      case Err(e) => Err(e)
      case Ok(first) =>
        match FixItems(env, items[1..])
        case Err(e) => Err(e)
        case Ok(rest) =>
          assert forall i :: 1 <= i < |items| ==> items[i] == items[1..][i - 1];
          Ok([first] + rest)
  }

  /** `toJson`, the "auto" converter: a number if the text is one, else a JSON
      object, else a JSON array (both with nested numbers fixed), else the text
      itself. JSON `null` decodes into a nil map, which counts as an object. */
  function ToJson(env: Env, s: string): (r: Result<Value, ConvertError>)
    ensures r.Err? ==> r.error == NestedNumber
  {
    match ToNumber(env, s)
    case Some(n) => Ok(n)
    case None =>
      match env.unmarshal(s)
      case Some(JObject(fields)) => FixNested(env, FromJson(JObject(fields)))
      case Some(JNull) => Ok(Map(map[]))
      case Some(JArray(elems)) => FixNested(env, FromJson(JArray(elems)))
      case _ => Ok(Str(s))
  }

  /** The elements of a JSON array decoded into a `[]string`: each string as
      it is, `null` as "" (decoding `null` into a string leaves it as it was),
      and no result when any element is of another kind. */
  function StringElems(elems: seq<Json>): (r: Option<seq<string>>)
    ensures r.Some? ==> |r.value| == |elems|
    ensures r.Some? ==> forall i :: 0 <= i < |elems| ==>
              elems[i] == JNull || elems[i] == JString(r.value[i])
    ensures r.None? ==> exists i :: 0 <= i < |elems| && !elems[i].JNull? && !elems[i].JString?
  {
    if |elems| == 0 then Some([])
    else
      var first := match elems[0] case JString(x) => Some(x) case JNull => Some("") case _ => None;
      match first
      case None => None
      case Some(x) =>
        match StringElems(elems[1..])
        case None => None
        case Some(rest) => Some([x] + rest)
  }

  /** The list decoders: `toStringList` gives a `[]string`, `toAnyList` a
      `[]interface{}` whose numbers stay float64 (nothing fixes them), and
      the others a typed slice. A JSON `null` leaves the slice nil, which the
      caller treats as a failure. */
  function DecodeList(env: Env, ty: string, value: string): (r: Option<Value>)
    requires ty in ListTags
  {
    if ty == "list,string" then
      (match env.unmarshal(value)
       case Some(JArray(elems)) =>
         (match StringElems(elems)
          case Some(strs) => Some(StrList(strs))
          case None => None)
       case _ => None)
    else if ty == "list,any" then
      (match env.unmarshal(value)
       case Some(JArray(elems)) => Some(FromJson(JArray(elems)))
       case _ => None)
    else
      (match env.decodeTyped(ty, value)
       case Some(printed) => Some(Other(printed))
       case None => None)
  }

  /** `typeConvert` followed by the nil check of its caller: the value of a cell
      under its column's type tag, or the reason the run stops. */
  function TypeConvert(env: Env, ty: string, value: string): (r: Result<Value, ConvertError>)
    ensures r.Err? && r.error.UnknownType? ==> r.error.ty == ty
  {
    if ty == "int" then
      (match ToInt(value, true)
       case Some(n) => Ok(Int(n))
       case None => Err(NotConvertible))
    else if ty == "float" then
      (match env.toFloat(value)
       case Some(x) => Ok(Float(x))
       case None => Err(NotConvertible))
    else if ty == "string" then Ok(Str(value))
    else if ty in ListTags then
      (match DecodeList(env, ty, value)
       case Some(v) => Ok(v)
       case None => Err(NotConvertible))
    else if ty == "auto" then ToJson(env, value)
    else Err(UnknownType(ty))
  }

  // ---------------------------------------------------------------------
  // Properties

  /** "int" keeps the text before the first '.', so "12.9" gives 12. */
  lemma {:induction false} IntCellDropsFraction(env: Env, n: int, frac: string)
    requires Numbers.InInt64(n)
    ensures TypeConvert(env, "int", Numbers.FormatInt(n) + "." + frac) == Ok(Int(n))
  {
    Numbers.FormatIntHasNoDot(n);
    Text.SplitAfterPart(Numbers.FormatInt(n), frac, '.');
    Numbers.ParseFormatInt(n);
  }

  /** "int" gives exactly the int64s: a result is an int64 in range, and text
      whose part before the first '.' is not an optionally signed run of
      digits is rejected. */
  lemma IntCellResult(env: Env, value: string)
    ensures TypeConvert(env, "int", value).Ok? ==>
      TypeConvert(env, "int", value).value.Int? && Numbers.InInt64(TypeConvert(env, "int", value).value.i)
    ensures !Numbers.IsDecimalInt(Text.Split(value, '.')[0]) ==>
      TypeConvert(env, "int", value) == Err(NotConvertible)
  {
  }

  lemma IntCellExamples(env: Env)
    ensures TypeConvert(env, "int", "12.9") == Ok(Int(12))
    ensures TypeConvert(env, "int", "abc") == Err(NotConvertible)
    ensures TypeConvert(env, "int", ".5") == Err(NotConvertible)
  {
    IntCellDropsFraction(env, 12, "9");
    assert Numbers.FormatInt(12) == "12";
    assert Text.Split("abc", '.')[0] == "abc" by { Text.SplitNoSeparator("abc", '.'); }
    assert Text.Split(".5", '.')[0] == "" by { Text.SplitAfterPart("", "5", '.'); }
  }

  /** "string" returns the cell unchanged. */
  lemma StringCellPassthrough(env: Env, value: string)
    ensures TypeConvert(env, "string", value) == Ok(Str(value))
  {
  }

  /** The routines behind `toFloat` can read back every float `FormatFloat` prints. */
  ghost predicate FloatsReparse(env: Env) {
    forall x :: env.toFloat(env.formatFloatPlain(x)).Some?
  }

  /** Fixing nested numbers cannot fail when printed floats parse again. */
  lemma {:induction false} FixNestedSucceeds(env: Env, v: Value)
    requires FloatsReparse(env)
    ensures FixNested(env, v).Ok?
    decreases v, 1
  {
    match v
    case Float(x) =>
      assert env.toFloat(env.formatFloatPlain(x)).Some?;
    case List(items) =>
      FixItemsSucceed(env, items);
    case Map(m) =>
      forall k | k in m ensures FixNested(env, m[k]).Ok? {
        FixNestedSucceeds(env, m[k]);
      }
    case _ =>
  }

  lemma {:induction false} FixItemsSucceed(env: Env, items: seq<Value>)
    requires FloatsReparse(env)
    ensures FixItems(env, items).Ok?
    decreases items
  {
    if |items| > 0 {
      FixNestedSucceeds(env, items[0]);
      FixItemsSucceed(env, items[1..]);
    }
  }

  /** A nested float whose plain decimal form is an int64 becomes that int64. */
  lemma IntegralNestedFloatBecomesInt(env: Env, x: real, n: int)
    requires Numbers.InInt64(n) && env.formatFloatPlain(x) == Numbers.FormatInt(n)
    ensures FixNested(env, Float(x)) == Ok(Int(n))
  {
    Numbers.ParseFormatInt(n);
  }

  /** "auto" never fails when printed floats parse again. */
  lemma AutoNeverFails(env: Env, value: string)
    requires FloatsReparse(env)
    ensures TypeConvert(env, "auto", value).Ok?
  {
    match env.unmarshal(value)
    case Some(JObject(fields)) => FixNestedSucceeds(env, FromJson(JObject(fields)));
    case Some(JArray(elems)) => FixNestedSucceeds(env, FromJson(JArray(elems)));
    case _ =>
  }

  /** The "auto" fallback chain: a number first; then a JSON object or array,
      keeping its shape; otherwise the original text. */
  lemma AutoFallbackChain(env: Env, value: string)
    ensures ToNumber(env, value).Some? ==> TypeConvert(env, "auto", value) == Ok(ToNumber(env, value).value)
    ensures ToNumber(env, value).None? && env.unmarshal(value).Some? && env.unmarshal(value).value.JObject? &&
            TypeConvert(env, "auto", value).Ok? ==>
              SameShape(FromJson(env.unmarshal(value).value), TypeConvert(env, "auto", value).value)
    ensures ToNumber(env, value).None? && env.unmarshal(value).Some? && env.unmarshal(value).value.JArray? &&
            TypeConvert(env, "auto", value).Ok? ==>
              SameShape(FromJson(env.unmarshal(value).value), TypeConvert(env, "auto", value).value)
    ensures ToNumber(env, value).None? &&
            (env.unmarshal(value).None? || env.unmarshal(value).value.JBool? ||
             env.unmarshal(value).value.JNumber? || env.unmarshal(value).value.JString?) ==>
              TypeConvert(env, "auto", value) == Ok(Str(value))
  {
  }

  /** The shape of a list cell is fixed by its tag: "list,string" gives a
      string list of the array's strings, "list,any" the decoded array as it
      is (its numbers stay floats, unlike under "auto"), and the other list
      tags a typed slice. No other tag gives a string list, so the only cells
      the Lua encoder sorts in place are the "list,string" ones. */
  lemma ListCellShapes(env: Env, ty: string, value: string)
    ensures TypeConvert(env, "list,string", value).Ok? ==>
              && env.unmarshal(value).Some? && env.unmarshal(value).value.JArray?
              && var elems := env.unmarshal(value).value.elems;
                 var strs := TypeConvert(env, "list,string", value).value;
                 strs.StrList? && |strs.strs| == |elems| &&
                 forall i :: 0 <= i < |elems| ==> elems[i] == JNull || elems[i] == JString(strs.strs[i])
    ensures TypeConvert(env, "list,any", value).Ok? ==>
              && env.unmarshal(value).Some? && env.unmarshal(value).value.JArray?
              && TypeConvert(env, "list,any", value).value == FromJson(env.unmarshal(value).value)
    ensures ty in TypedListTags && TypeConvert(env, ty, value).Ok? ==> TypeConvert(env, ty, value).value.Other?
    ensures TypeConvert(env, ty, value).Ok? && TypeConvert(env, ty, value).value.StrList? ==> ty == "list,string"
  {
    if ty == "auto" && ToNumber(env, value).None? {
      match env.unmarshal(value)
      case Some(JObject(fields)) =>
      case Some(JArray(elems)) =>
      case _ =>
    }
  }

  /** Exactly the unrecognised tags are fatal as such; a recognised tag fails
      only on its cell. */
  lemma UnknownTagIsFatal(env: Env, ty: string, value: string)
    ensures ty !in KnownTags ==> TypeConvert(env, ty, value) == Err(UnknownType(ty))
    ensures ty in KnownTags ==> !(TypeConvert(env, ty, value).Err? && TypeConvert(env, ty, value).error.UnknownType?)
  {
  }
}
