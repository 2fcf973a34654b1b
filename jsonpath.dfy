/**
 * Resolving a JSONPath field mapping. The expression is first evaluated
 * directly; only when the library reports that it met a value it cannot
 * select into does the evaluator try to decode the top-level field it
 * names as nested JSON text and evaluate the expression again over that.
 */
module JsonPath {
  import opened Results
  import opened Text
  import opened Utf8Encoding
  import opened Values
  import opened Events

  /** The characters a top-level field name may hold: [a-zA-Z0-9_-]. */
  predicate NameChar(c: char) {
    'a' <= c <= 'z' || 'A' <= c <= 'Z' || '0' <= c <= '9' || c == '_' || c == '-'
  }

  predicate AllNameChars(s: string) {
    forall i :: 0 <= i < |s| ==> NameChar(s[i])
  }

  /** The longest prefix of `s` made of name characters, as the greedy `+` takes it. */
  function NameRun(s: string): (r: string)
    ensures HasPrefix(s, r) && AllNameChars(r)
    ensures |r| < |s| ==> !NameChar(s[|r|])
  {
    if |s| == 0 || !NameChar(s[0]) then ""
    else [s[0]] + NameRun(s[1..])
  }

  /** The two openers the field-name pattern accepts: `$.` and `$["`. */
  function Opener(expr: string): nat {
    if HasPrefix(expr, "$.") then 2 else if HasPrefix(expr, "$[\"") then 3 else 0
  }

  /**
   * The field captured by `^\$(?:[.]|\[")([a-zA-Z0-9_\-]+)(?:"])?`: after
   * the opener, the longest run of name characters, which must not be
   * empty. The optional closing `"]` never changes the capture.
   */
  function FirstJsonPathField(expr: string): (r: Option<string>)
    ensures r.Some? ==> |r.value| > 0 && AllNameChars(r.value)
    ensures r.Some? ==> HasPrefix(expr, "$." + r.value) || HasPrefix(expr, "$[\"" + r.value)
    ensures r.None? <==>
      !((HasPrefix(expr, "$.") && |expr| > 2 && NameChar(expr[2])) ||
        (HasPrefix(expr, "$[\"") && |expr| > 3 && NameChar(expr[3])))
  {
    var skip := Opener(expr);
    if skip == 0 then None
    else
      var name := NameRun(expr[skip..]);
      assert HasPrefix(expr, expr[..skip] + name) by {
        assert expr[..skip + |name|] == expr[..skip] + expr[skip..][..|name|];
      }
      assert |name| == 0 ==> |expr| == skip || !NameChar(expr[skip]) by {
        if |name| == 0 && |expr| > skip {
          assert expr[skip..][0] == expr[skip];
        }
      }
      assert skip == 2 ==> expr[1] == '.' && !HasPrefix(expr, "$[\"");
      assert skip == 3 ==> expr[1] == '[' && !HasPrefix(expr, "$.");
      if |name| == 0 then None else Some(name)
  }

  /** A capture is the whole run of name characters after the opener. */
  lemma {:induction false} NameRunOfName(name: string, tail: string)
    requires AllNameChars(name)
    requires |tail| == 0 || !NameChar(tail[0])
    ensures NameRun(name + tail) == name
    decreases |name|
  {
    if |name| == 0 {
      assert name + tail == tail;
    } else {
      assert (name + tail)[1..] == name[1..] + tail;
      NameRunOfName(name[1..], tail);
    }
  }

  /** `$.name` followed by anything that does not extend the name yields `name`. */
  lemma DotFieldRecognised(name: string, tail: string)
    requires |name| > 0 && AllNameChars(name)
    requires |tail| == 0 || !NameChar(tail[0])
    ensures FirstJsonPathField("$." + name + tail) == Some(name)
  {
    var expr := "$." + name + tail;
    assert expr[..2] == "$.";
    assert expr[2..] == name + tail;
    NameRunOfName(name, tail);
  }

  /** `$["name"]` followed by anything yields `name`. */
  lemma BracketFieldRecognised(name: string, tail: string)
    requires |name| > 0 && AllNameChars(name)
    ensures FirstJsonPathField("$[\"" + name + "\"]" + tail) == Some(name)
  {
    var expr := "$[\"" + name + "\"]" + tail;
    assert expr[..2] == "$[";
    assert expr[..3] == "$[\"";
    assert expr[3..] == name + ("\"]" + tail);
    NameRunOfName(name, "\"]" + tail);
  }

  /** A mapping target is treated as JSONPath exactly when it starts with `$.` or `$[`. */
  predicate IsJsonPath(target: string) {
    HasPrefix(target, "$.") || HasPrefix(target, "$[")
  }

  /** `value, _ := jsonpath.Get(expr, event)`: a failure leaves nil. */
  function GetOrNull(expr: string, event: Event, lib: Library): Value {
    match lib.get(expr, event)
    case Found(v) => v
    case Failed(_) => Null
  }

  /**
   * The bytes the recovery path decodes for the top-level field: the field of
   * a string event (empty when absent), or a string or byte-slice field of a
   * value event; None when the field holds anything else.
   */
  function NestedText(event: Event, field: string): Option<seq<Byte>> {
    match event
    case StringEvent(m) => Some(Utf8(if field in m then m[field] else ""))
    case ValueEvent(m) =>
      if field in m && m[field].Str? then Some(Utf8(m[field].s))
      else if field in m && m[field].Bytes? then Some(m[field].bytes)
      else None
  }

  /** `json.Unmarshal` into an empty interface: a failure leaves nil. */
  function Decoded(text: seq<Byte>, lib: Library): Value {
    match lib.unmarshal(text)
    case Some(d) => d
    case None => Null
  }

  /** The retry: the expression evaluated over a record holding only `field`, bound to the decoded text. */
  function Retried(expr: string, field: string, text: seq<Byte>, lib: Library): Value {
    GetOrNull(expr, ValueEvent(map[field := Decoded(text, lib)]), lib)
  }

  /** evaluateJSONPath; the only error is an expression whose top-level field cannot be found. */
  function EvaluateJsonPath(expr: string, event: Event, lib: Library): (r: Result<Value>)
    ensures r.Err? <==> lib.get(expr, event) == Failed(UnsupportedValueType) && FirstJsonPathField(expr).None?
    ensures r.Err? ==> r.error == UnparsableJsonPath(expr)
  {
    match lib.get(expr, event)
    case Found(v) => Ok(v)
    case Failed(OtherPathError) => Ok(Null)
    case Failed(UnsupportedValueType) =>
      match FirstJsonPathField(expr)
      case None => Err(UnparsableJsonPath(expr))
      case Some(field) =>
        match NestedText(event, field)
        case None => Ok(GetOrNull(expr, event, lib))
        case Some(text) => Ok(Retried(expr, field, text, lib))
  }

  /** A direct evaluation that succeeds is returned unchanged; any other failure is absent. */
  lemma DirectEvaluation(expr: string, event: Event, lib: Library)
    ensures lib.get(expr, event).Found? ==> EvaluateJsonPath(expr, event, lib) == Ok(lib.get(expr, event).value)
    ensures lib.get(expr, event) == Failed(OtherPathError) ==> EvaluateJsonPath(expr, event, lib) == Ok(Null)
  {
  }

  /**
   * The recovery path, for any event and either opener. The top-level field
   * of a string event (empty text when absent), or a string or byte-slice
   * field of a value event, is decoded and the expression evaluated again
   * over a record holding that field alone; every other field of the event
   * is dropped. Any other field gives the nil of the repeated direct
   * evaluation.
   */
  lemma RecoveryFromField(expr: string, name: string, event: Event, lib: Library)
    requires lib.get(expr, event) == Failed(UnsupportedValueType)
    requires FirstJsonPathField(expr) == Some(name)
    ensures event.StringEvent? ==>
      EvaluateJsonPath(expr, event, lib) ==
        Ok(Retried(expr, name, Utf8(if name in event.strings then event.strings[name] else ""), lib))
    ensures event.ValueEvent? && name in event.values && event.values[name].Str? ==>
      EvaluateJsonPath(expr, event, lib) == Ok(Retried(expr, name, Utf8(event.values[name].s), lib))
    ensures event.ValueEvent? && name in event.values && event.values[name].Bytes? ==>
      EvaluateJsonPath(expr, event, lib) == Ok(Retried(expr, name, event.values[name].bytes, lib))
    ensures event.ValueEvent? && (name !in event.values || !(event.values[name].Str? || event.values[name].Bytes?)) ==>
      EvaluateJsonPath(expr, event, lib) == Ok(Null)
  {
  }

  /**
   * Only the named field matters to the recovery: two value events that
   * agree on it resolve alike, whatever else they hold.
   */
  lemma RecoveryIgnoresOtherFields(expr: string, name: string, m: map<string, Value>, m': map<string, Value>, lib: Library)
    requires FirstJsonPathField(expr) == Some(name)
    requires lib.get(expr, ValueEvent(m)) == Failed(UnsupportedValueType)
    requires lib.get(expr, ValueEvent(m')) == Failed(UnsupportedValueType)
    requires (name in m <==> name in m') && (name in m ==> m[name] == m'[name])
    ensures EvaluateJsonPath(expr, ValueEvent(m), lib) == EvaluateJsonPath(expr, ValueEvent(m'), lib)
  {
    RecoveryFromField(expr, name, ValueEvent(m), lib);
    RecoveryFromField(expr, name, ValueEvent(m'), lib);
  }

  /** `$["name"]...` over a byte-slice field decodes those bytes for the retry. */
  lemma BracketPathOverBytes(name: string, tail: string, m: map<string, Value>, lib: Library)
    requires |name| > 0 && AllNameChars(name)
    requires name in m && m[name].Bytes?
    requires lib.get("$[\"" + name + "\"]" + tail, ValueEvent(m)) == Failed(UnsupportedValueType)
    ensures EvaluateJsonPath("$[\"" + name + "\"]" + tail, ValueEvent(m), lib) ==
      Ok(Retried("$[\"" + name + "\"]" + tail, name, m[name].bytes, lib))
  {
    BracketFieldRecognised(name, tail);
    RecoveryFromField("$[\"" + name + "\"]" + tail, name, ValueEvent(m), lib);
  }

  /**
   * The worked case: with `$.nested.x` over the event {"nested": text},
   * where text is JSON such as `{"x":1}`, a library that cannot select into
   * the string but reads `x` from the decoded object resolves the path to 1.
   */
  lemma NestedJsonExample(lib: Library, text: string)
    requires lib.get("$.nested.x", StringEvent(map["nested" := text])) == Failed(UnsupportedValueType)
    requires lib.unmarshal(Utf8(text)) == Some(Map(map["x" := Num(1)]))
    requires lib.get("$.nested.x", ValueEvent(map["nested" := Map(map["x" := Num(1)])])) == Found(Num(1))
    ensures EvaluateJsonPath("$.nested.x", StringEvent(map["nested" := text]), lib) == Ok(Num(1))
  {
    assert "$.nested.x" == "$." + "nested" + ".x";
    DotFieldRecognised("nested", ".x");
    RecoveryFromField("$.nested.x", "nested", StringEvent(map["nested" := text]), lib);
  }
}
