/**
 * Events and the collaborators the evaluator calls but does not define.
 * An event is either a string-to-string record or a record of decoded JSON
 * values. The JSONPath library, the JSON decoder and the glob matcher are
 * given as total functions carried by the rule evaluator, so every property
 * proved here holds whatever those collaborators compute.
 */
module Events {
  import opened Results
  import opened Utf8Encoding
  import opened Values

  datatype Event =
    | StringEvent(strings: map<string, string>)  // a map[string]string event
    | ValueEvent(values: map<string, Value>)     // a map[string]interface{} event

  /** The value of a top-level field; an absent field is nil. */
  function EventValue(event: Event, name: string): (r: Value)
    ensures event.StringEvent? ==> (r.Str? <==> name in event.strings)
    ensures event.StringEvent? && name in event.strings ==> r == Str(event.strings[name])
    ensures event.ValueEvent? && name in event.values ==> r == event.values[name]
    ensures r.Null? <==> match event
                         case StringEvent(m) => name !in m
                         case ValueEvent(m) => name !in m || m[name].Null?
  {
    match event
    case StringEvent(m) => if name in m then Str(m[name]) else Null
    case ValueEvent(m) => if name in m then m[name] else Null
  }

  /**
   * The two kinds of JSONPath failure the evaluator tells apart: a selection
   * step that met a value it cannot select into (its message starts with
   * "unsupported value type"), and every other failure.
   */
  datatype PathError = UnsupportedValueType | OtherPathError

  datatype PathResult = Found(value: Value) | Failed(error: PathError)

  /**
   * The collaborators: `get` is jsonpath.Get, `unmarshal` is json.Unmarshal
   * into an empty interface (None when the text is not valid JSON), and
   * `matchPattern` is path.Match (None for a malformed pattern).
   */
  datatype Library = Library(
    get: (string, Event) -> PathResult,
    unmarshal: seq<Byte> -> Option<Value>,
    matchPattern: (string, string) -> Option<bool>)
}
