/**
 * Event values. The Go evaluator handles events whose fields are plain
 * strings or arbitrary decoded JSON (`interface{}`); here every field value
 * is one tagged variant. A decoded JSON number is a float64 in Go and is
 * kept apart from a Go integer (such as an element of a byte slice), since
 * `%v` prints the two differently from 1e6 upward. `ToString` is Go's
 * `fmt.Sprintf("%v", v)` on these variants, and `ToGenericSlice` turns a
 * value into the list of comparison candidates.
 */
module Values {
  import opened Text
  import opened Utf8Encoding

  datatype Value =
    | Str(s: string)             // a Go string
    | Bytes(bytes: seq<Byte>)    // a Go []byte
    | Int(i: int)                // a Go integer, such as a byte of a []byte
    | Num(n: int)                // a decoded JSON number (a float64) with an integral value
    | Bool(b: bool)
    | Null                       // nil: an absent field or a JSON null
    | List(items: seq<Value>)    // a Go []interface{}
    | Map(fields: map<string, Value>)  // a Go map[string]interface{}

  /**
   * `fmt.Sprintf("%v", v)`: strings print bare, byte slices and lists as
   * their space-separated elements in brackets, maps as `map[k:v ...]` with
   * the keys in ascending order, nil as `<nil>`.
   */
  function ToString(v: Value): string
    decreases v
  {
    match v
    case Str(s) => s
    case Bytes(bytes) =>
      "[" + Join(seq(|bytes|, i requires 0 <= i < |bytes| => NatToString(bytes[i])), " ") + "]"
    case Int(i) => IntToString(i)
    case Num(n) => FloatToString(n)
    case Bool(b) => if b then "true" else "false"
    case Null => "<nil>"
    case List(items) =>
      "[" + Join(seq(|items|, i requires 0 <= i < |items| => ToString(items[i])), " ") + "]"
    case Map(fields) =>
      var keys := SortedKeys(fields.Keys);
      "map[" + Join(seq(|keys|, i requires 0 <= i < |keys| => keys[i] + ":" + ToString(fields[keys[i]])), " ") + "]"
  }

  /** A string prints as itself; a slice prints in brackets, so never as a bare string without them. */
  lemma ToStringShape(v: Value)
    ensures v.Str? ==> ToString(v) == v.s
    ensures v.List? || v.Bytes? ==> |ToString(v)| >= 2 && ToString(v)[0] == '[' && ToString(v)[|ToString(v)| - 1] == ']'
  {
  }

  /** Whether reflection sees a slice: a list or a byte slice (a string is not one). */
  predicate IsSlice(v: Value) {
    v.List? || v.Bytes?
  }

  function SliceLength(v: Value): nat
    requires IsSlice(v)
  {
    if v.List? then |v.items| else |v.bytes|
  }

  /** Element `i` of a slice, as `rv.Index(i).Interface()`: a byte becomes an integer. */
  function SliceIndex(v: Value, i: nat): Value
    requires IsSlice(v) && i < SliceLength(v)
  {
    if v.List? then v.items[i] else Int(v.bytes[i])
  }

  /** The comparison candidates a value contributes. */
  function Candidates(v: Value): (r: seq<Value>)
  {
    if IsSlice(v) then seq(SliceLength(v), i requires 0 <= i < SliceLength(v) => SliceIndex(v, i))
    else [v]
  }

  /**
   * toGenericSlice: a value that is not a slice is the only candidate;
   * a slice contributes its elements, in order, and nothing else.
   */
  method ToGenericSlice(v: Value) returns (out: seq<Value>)
    ensures !IsSlice(v) ==> out == [v]
    ensures IsSlice(v) ==> |out| == SliceLength(v) && forall i :: 0 <= i < |out| ==> out[i] == SliceIndex(v, i)
    ensures v.List? ==> out == v.items
    ensures out == Candidates(v)
  {
    if !IsSlice(v) {
      return [v];
    }
    out := [];
    var i := 0;
    while i < SliceLength(v)
      invariant 0 <= i <= SliceLength(v)
      invariant |out| == i
      invariant forall j :: 0 <= j < i ==> out[j] == SliceIndex(v, j)
    {
      out := out + [SliceIndex(v, i)];
      i := i + 1;
    }
  }
}
