/** The dynamically typed values the exporter threads through its encoders
    (Go `interface{}`), and the foreign routines it calls, as parameters. */
module Values {
  import opened Wrappers

  /** What `json.Unmarshal` builds when it decodes into `interface{}`:
      numbers become float64, arrays `[]interface{}`, objects
      `map[string]interface{}`. */
  datatype Json =
    | JNull
    | JBool(b: bool)
    | JNumber(x: real)
    | JString(s: string)
    | JArray(elems: seq<Json>)
    | JObject(fields: map<string, Json>)

  /** A cell value or a table as the encoders see it. `Float` stands for both
      float32 and float64; `StrList` is a Go `[]string`, which the Lua encoder
      treats apart from `[]interface{}` (`List`); `Other` is any value of a type
      the Lua encoder has no arm for (for example `[]int64`), carried with the
      text `%t` prints for it. */
  datatype Value =
    | Nil
    | Bool(b: bool)
    | Int(i: int)
    | Float(x: real)
    | Str(s: string)
    | List(items: seq<Value>)
    | StrList(strs: seq<string>)
    | Map(entries: map<string, Value>)
    | Other(printed: string)

  /** The routines the exporter borrows from Go's libraries and does not
      define itself: float parsing with its float32/float64 choice (`toFloat`),
      float printing with `%v` and with `strconv.FormatFloat(v, 'f', -1, 64)`,
      JSON syntax (`unmarshal`), and the decoders into typed slices
      (`[]int64`, `[]float64` and the nested ones), keyed by their type tag:
      whether the cell decodes into that slice type and, if it does, the text
      `%t` prints for the slice. */
  datatype Env = Env(
    toFloat: string -> Option<real>,
    formatFloat: real -> string,
    formatFloatPlain: real -> string,
    unmarshal: string -> Option<Json>,
    decodeTyped: (string, string) -> Option<string>)

  /** A decoded JSON tree as a dynamic value. */
  function FromJson(j: Json): (v: Value)
    ensures j.JArray? ==> v.List? && |v.items| == |j.elems|
    ensures j.JObject? ==> v.Map? && v.entries.Keys == j.fields.Keys
  {
    match j
    case JNull => Nil
    case JBool(b) => Bool(b)
    case JNumber(x) => Float(x)
    case JString(s) => Str(s)
    case JArray(elems) => List(seq(|elems|, i requires 0 <= i < |elems| => FromJson(elems[i])))
    case JObject(fields) => Map(map k | k in fields :: FromJson(fields[k]))
  }
}
