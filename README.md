# Sigma search evaluation, modelled in Dafny

This project models the evaluator that decides whether one event matches a
parsed Sigma detection rule (`evaluator/evaluate_search.go` of sigma-go), and
proves what that evaluator promises. It covers five parts:

- **The condition.** A boolean expression over the rule's named searches
  (`And`, `Or`, `Not`, a search name, `1 of them`, `all of them`, `1 of
  pattern`, `all of pattern`).
- **Each search.** A search is a conjunction of field matchers. A trailing
  `all` modifier switches a matcher from "some expected value" to "every
  expected value". The other modifiers fold into a comparator.
- **Candidate values.** A matcher's field is either looked up directly or
  through its field mappings. Each mapping target is a field name or a
  JSONPath expression, and the candidates of all targets are pooled.
- **The comparator chain.** Exact equality of the `%v` form, plus the
  `contains`, `startswith`, `endswith` and `base64` modifiers. The base64
  encoder (RFC 4648, section 4) and the UTF-8 encoding of Go's `[]byte(s)`
  (RFC 3629) are written out and proved to round-trip.
- **JSONPath resolution.** The top-level field name is extracted by the
  `firstJSONPathField` pattern, and nested JSON text is recovered when the
  direct evaluation meets a string.

Every Go `panic` is an explicit rule error (`Results.RuleError`). The
connectives short-circuit, so an error after the deciding outcome never
surfaces, just as the Go code never reaches the panic.

The collaborators the evaluator calls but does not define are the three
function fields of `Events.Library`:

- `get` is `jsonpath.Get`. Its error is reduced to "unsupported value type"
  or any other failure, which is what the message-prefix test at line 183
  distinguishes.
- `unmarshal` is `json.Unmarshal`.
- `matchPattern` is `path.Match`.

Every property is proved for all collaborators.

Modules, one file each:

- `results.dfy` (Results): outcomes and errors.
- `connectives.dfy` (Connectives): the short-circuiting conjunction, disjunction and negation.
- `text.dfy` (Text): the string tests of Go's `strings` package, Go's string order, sorted map keys, and the `%v` text of integers and of integral float64 values.
- `values.dfy` (Values): event values, `%v`, and `toGenericSlice`.
- `utf8.dfy` (Utf8Encoding): bytes and the UTF-8 encoding of `[]byte(s)`.
- `base64.dfy` (Base64): the standard base64 encoding.
- `comparators.dfy` (Comparators): the comparator chain.
- `events.dfy` (Events): events and the library.
- `jsonpath.dfy` (JsonPath): the field-name parser and `evaluateJSONPath`.
- `search.dfy` (Searches): matchers and searches.
- `expressions.dfy` (Expressions): the condition.

The loops of `evaluateSearch`, `matcherMatchesValues` and `toGenericSlice`
are methods with loop invariants. Each is proved equal to the specification
function whose properties the lemmas establish. The receiver
`RuleEvaluator` is never mutated by the source, so it is a datatype.

Five behaviours of the code are easy to misread; the model follows the code:

- **Map order can decide whether an error surfaces.** Go walks the search
  table in an unspecified order, and one expects the order to have no
  observable effect. That holds for boolean answers (`OrderIrrelevant`). It
  does not hold for panics: `1 of them` returns true when it meets a search
  that holds before a keyword search, and panics when it meets them the
  other way round (`ErrorDependsOnOrder`). The model walks the table in
  ascending name order.
- **A failed retry is not a fallback.** After recovery, the code returns the
  value of the retried evaluation, which is nil when the retry fails. It
  does not fall back to the direct result.
- **`$[` without a quote is JSONPath but names no field.** A target starting
  with `$[` counts as JSONPath, but the field-name pattern needs `$["`. An
  expression such as `$[0]...` whose direct evaluation meets a string is
  therefore a rule error.
- **An empty mapping entry counts as missing.** The code tests the length of
  the mapping, not its presence, so an empty entry also means a direct
  lookup.
- **A large JSON number never equals its decimal text.** A decoded JSON
  number is a float64, and `%v` prints it in exponent form from 1e6 upward
  (1234567 prints as `1.234567e+06`). So `pid: "1234567"` does not match a
  decoded 1234567, while a Go integer of the same value matches
  (`Comparators.EqualOnNumbers`).

## Model

| member | source | states |
|---|---|---|
| Connectives.NegatedConjunction | evaluator/evaluate_search.go:16-35 | negating a short-circuit conjunction gives the short-circuit disjunction of the negated outcomes, errors included |
| Connectives.BinaryOutcomes | evaluator/evaluate_search.go:18-32 | over two outcomes, conjunction and disjunction are `&&` and `\|\|` when both are booleans; a false first outcome decides the conjunction and a true one the disjunction |
| Connectives.ConjoinStep | evaluator/evaluate_search.go:19-24 | a true outcome hands the conjunction on to the outcomes after it |
| Connectives.ConjoinStop | evaluator/evaluate_search.go:19-24 | an outcome that is not true ends the conjunction with that outcome |
| Connectives.ConjoinTrue | evaluator/evaluate_search.go:19-24 | a conjunction is true iff every outcome is true, so the empty one is true |
| Connectives.DisjoinFalse | evaluator/evaluate_search.go:27-32 | a disjunction is false iff every outcome is false, so the empty one is false |
| Connectives.ConjoinFirstDecides | evaluator/evaluate_search.go:19-24 | the first outcome that is not true is the conjunction's result; later outcomes, errors included, are never reached |
| Connectives.DisjoinFirstDecides | evaluator/evaluate_search.go:27-32 | the first outcome that is not false is the disjunction's result |
| Connectives.ConjoinPicks | evaluator/evaluate_search.go:19-24 | a conjunction's result is true or one of its outcomes |
| Connectives.DisjoinPicks | evaluator/evaluate_search.go:27-32 | a disjunction's result is false or one of its outcomes |
| Connectives.ConjoinOrderIrrelevant | evaluator/evaluate_search.go:67-88 | two conjunctions over the same outcomes, in any order, that both give a boolean give the same boolean |
| Connectives.DisjoinOrderIrrelevant | evaluator/evaluate_search.go:44-65 | two disjunctions over the same outcomes, in any order, that both give a boolean give the same boolean |
| Text.SortedKeys | evaluator/evaluate_search.go:45 | the enumeration of the search table holds each name of the table and nothing else, as many as there are names |
| Text.SortedKeysAscending | evaluator/evaluate_search.go:45 | the enumeration is strictly ascending, so no name is visited twice |
| Text.ContainsAt | evaluator/evaluate_search.go:232 | `strings.Contains` holds iff the substring occurs at some offset |
| Text.FloatAsInteger | evaluator/evaluate_search.go:224 | `%v` of a float64 holding an integer equals that integer's decimal text iff the magnitude is below 1e6 |
| Values.ToStringShape | evaluator/evaluate_search.go:224 | `%v` of a string is the string itself; `%v` of a list or byte slice is bracketed |
| Values.ToGenericSlice | evaluator/evaluate_search.go:252-267 | a value that is not a slice becomes the one-element list; a list or byte slice gives its elements in order, same length, so an empty slice gives none |
| Utf8Encoding.Utf8 | evaluator/evaluate_search.go:247 | `[]byte(s)` takes one to four bytes per character |
| Utf8Encoding.DecodeEncodedChar | evaluator/evaluate_search.go:247 | the UTF-8 bytes of one character decode back to that character and its byte count |
| Utf8Encoding.Utf8RoundTrip | evaluator/evaluate_search.go:247 | the UTF-8 encoding of a string decodes back to the string |
| Utf8Encoding.Utf8Ascii | evaluator/evaluate_search.go:247 | an ASCII string encodes to one byte per character, each its code |
| Base64.SymbolValueOfSymbol | evaluator/evaluate_search.go:247 | each alphabet symbol reads back as the six-bit value it was written for |
| Base64.SextetsLength | evaluator/evaluate_search.go:247 | three bytes give four sextets; one or two trailing bytes give two or three |
| Base64.GroupRoundTrip | evaluator/evaluate_search.go:247 | the four sextets of three bytes reassemble into those bytes |
| Base64.SextetsRoundTrip | evaluator/evaluate_search.go:247 | splitting bytes into sextets loses nothing: reassembling gives the bytes back |
| Base64.SymbolsRoundTrip | evaluator/evaluate_search.go:247 | writing sextets as symbols loses nothing |
| Base64.EncodeLength | evaluator/evaluate_search.go:247 | the padded encoding has four symbols per started group of three bytes |
| Base64.UnpaddedEncoding | evaluator/evaluate_search.go:247 | stripping the `=` padding from an encoding leaves exactly the symbols of the sextets |
| Base64.RoundTrip | evaluator/evaluate_search.go:247 | decoding the standard padded encoding of any bytes gives the bytes back |
| Base64.EncodeStringDecodes | evaluator/evaluate_search.go:247 | the text the `base64` modifier hands on decodes to the expected value's UTF-8 bytes |
| Base64.EncodeSecret | evaluator/evaluate_search.go:247 | "secret" encodes to "c2VjcmV0" |
| Comparators.ApplyModifier | evaluator/evaluate_search.go:114-117 | a modifier applies iff it is one of the four registered names; any other name is an unknown-modifier error naming it |
| Comparators.FoldAppend | evaluator/evaluate_search.go:112-118 | folding one more modifier wraps the comparator built so far |
| Comparators.FoldSucceeds | evaluator/evaluate_search.go:112-118 | building a comparator succeeds iff every modifier is registered |
| Comparators.FoldFailsAtFirstUnknown | evaluator/evaluate_search.go:113-116 | the error names the first unregistered modifier, whatever follows it |
| Comparators.FoldThrough | evaluator/evaluate_search.go:112-118 | folding a list in two parts is folding the second over the result of the first |
| Comparators.BuildComparatorMeaning | evaluator/evaluate_search.go:223-250 | a built comparator accepts exactly what the outermost-first reading says: a trailing `base64` compares the encoded expected value with the chain before it, a trailing `contains`/`endswith`/`startswith` decides alone, the empty chain is equality of `%v` |
| Comparators.TerminalMeaning | evaluator/evaluate_search.go:230-244 | `contains`, `endswith` and `startswith` test substring, suffix and prefix of `%v`, whatever comparator they wrap |
| Comparators.TerminalDiscardsEarlier | evaluator/evaluate_search.go:230-244 | every modifier before a `contains`, `endswith` or `startswith` is irrelevant |
| Comparators.ContainsBase64Of | evaluator/evaluate_search.go:230-249 | `contains\|base64` looks for the base64 text of the expected value anywhere in `%v` |
| Comparators.ContainsBase64OfSecret | evaluator/evaluate_search.go:230-249 | `contains\|base64` builds, and on "secret" accepts exactly the values containing "c2VjcmV0" |
| Comparators.EqualOnStrings | evaluator/evaluate_search.go:223-225 | with no modifier a string value matches exactly itself |
| Comparators.EqualOnNumbers | evaluator/evaluate_search.go:223-225 | with no modifier a Go integer always matches its decimal text; a decoded JSON number matches it iff its magnitude is below 1e6 |
| Events.EventValue | evaluator/evaluate_search.go:135 | a top-level field lookup: an absent field is nil, a present one is its value (a string field of a string event as a string) |
| JsonPath.NameRun | evaluator/evaluate_search.go:174 | the greedy run of name characters is a prefix made of name characters and stops at the first other character |
| JsonPath.FirstJsonPathField | evaluator/evaluate_search.go:174 | a capture is a non-empty run of `[a-zA-Z0-9_-]` right after `$.` or `$["`; there is none exactly when neither opener is followed by a name character |
| JsonPath.NameRunOfName | evaluator/evaluate_search.go:174 | the capture is the whole name up to the first character that cannot extend it |
| JsonPath.DotFieldRecognised | evaluator/evaluate_search.go:174 | `$.name` followed by anything that does not extend the name captures `name` |
| JsonPath.BracketFieldRecognised | evaluator/evaluate_search.go:174 | `$["name"]` followed by anything captures `name` |
| JsonPath.EvaluateJsonPath | evaluator/evaluate_search.go:176-219 | the only error is an unsupported-value-type failure on an expression without a top-level field, and it names the expression |
| JsonPath.DirectEvaluation | evaluator/evaluate_search.go:178-185 | a direct success is returned unchanged; any other kind of failure gives nil |
| JsonPath.RecoveryFromField | evaluator/evaluate_search.go:193-218 | on an unsupported-value-type failure with a top-level field found, either opener: the field of a string event (empty when absent), or a string or `[]byte` field of a value event, is decoded (nil when not JSON) and the expression evaluated again over a record holding only that field; any other field of a value event gives nil |
| JsonPath.RecoveryIgnoresOtherFields | evaluator/evaluate_search.go:198-218 | two value events that agree on the top-level field resolve alike on the recovery path |
| JsonPath.BracketPathOverBytes | evaluator/evaluate_search.go:174-218 | `$["name"]...` over a `[]byte` field decodes those bytes for the retry |
| JsonPath.NestedJsonExample | evaluator/evaluate_search.go:176-219 | `$.nested.x` over {"nested": text}, text decoding to {"x":1}, resolves to 1 |
| Searches.SplitQuantifier | evaluator/evaluate_search.go:104-109 | the quantifier is `all` iff the last modifier is `all`, which is then removed; otherwise the modifiers are kept whole |
| Searches.AggregateStep | evaluator/evaluate_search.go:152-169 | one more expected value extends the aggregate by `&&` (with `all`) or `\|\|` (without) of whether some candidate satisfies it |
| Searches.AllStep | evaluator/evaluate_search.go:163-164 | with `all`, the aggregate over one more value is the old aggregate and that value's satisfaction |
| Searches.AnyStep | evaluator/evaluate_search.go:165-166 | without `all`, the aggregate over one more value is the old aggregate or that value's satisfaction |
| Searches.PoolKeepsError | evaluator/evaluate_search.go:138-149 | once a target fails, the pooled result keeps that failure whatever follows |
| Searches.PoolSucceeds | evaluator/evaluate_search.go:138-149 | pooling succeeds iff every target resolves |
| Searches.PoolFirstError | evaluator/evaluate_search.go:138-149 | a failed pooling carries the error of the first target that failed |
| Searches.PoolAppend | evaluator/evaluate_search.go:148 | pooling is concatenation: the candidates of earlier targets come first, in order |
| Searches.PoolSnoc | evaluator/evaluate_search.go:148 | pooling one more target appends its flattened value, or fails with its error |
| Searches.PoolSingle | evaluator/evaluate_search.go:148 | one target contributes its flattened value, or its error |
| Searches.RuleEvaluator.Resolve | evaluator/evaluate_search.go:141-146 | a target without a `$.`/`$[` prefix is a direct lookup; an error is possible only for a JSONPath target and names it |
| Searches.RuleEvaluator.MatchWith | evaluator/evaluate_search.go:152-169 | with candidates collected and no expected value, the matcher yields its quantifier (true for `all`, false otherwise) |
| Searches.RuleEvaluator.SearchResult | evaluator/evaluate_search.go:94-128 | a keyword search is an error; otherwise the search holds iff every field matcher holds, so an empty one holds |
| Searches.RuleEvaluator.FirstFailingMatcherDecides | evaluator/evaluate_search.go:120-123 | the first matcher that does not hold decides the search with its false or its error; later matchers are never evaluated |
| Searches.RuleEvaluator.MatcherOutcome | evaluator/evaluate_search.go:130-170 | a matcher whose comparator builds and whose candidates resolve yields the ANY/ALL aggregate over its expected values |
| Searches.RuleEvaluator.MappedToOne | evaluator/evaluate_search.go:138-149 | a field mapped to one resolving target has that target's flattened value as its candidates |
| Searches.RuleEvaluator.MappedToTwo | evaluator/evaluate_search.go:138-149 | a field mapped to two plain targets has the first target's candidates followed by the second's |
| Searches.RuleEvaluator.CollectActualValues | evaluator/evaluate_search.go:131-150 | the collection loop yields the direct lookup when there is no mapping, else the in-order pool of the flattened targets, or the first target's error |
| Searches.RuleEvaluator.AnyCandidateMatches | evaluator/evaluate_search.go:154-161 | the inner loop reports a match iff some candidate satisfies the comparator |
| Searches.RuleEvaluator.MatcherMatchesValues | evaluator/evaluate_search.go:130-170 | the method computes the ANY/ALL aggregate over the collected candidates, starting from the quantifier |
| Searches.RuleEvaluator.FoldModifiers | evaluator/evaluate_search.go:112-118 | the modifier loop builds the comparator, or stops at the first unregistered modifier |
| Searches.RuleEvaluator.EvaluateSearch | evaluator/evaluate_search.go:94-128 | the search loop returns the conjunction of the matcher outcomes, stopping at the first that does not hold |
| Searches.RuleEvaluator.AllBeforeLastIsUnknownModifier | evaluator/evaluate_search.go:104-116 | an `all` that is not the last modifier is looked up as a modifier and is an unknown-modifier error |
| Searches.RuleEvaluator.UnknownModifierIsError | evaluator/evaluate_search.go:113-116 | an unregistered modifier is an error whatever the event holds |
| Searches.AnyOfTwoValues | evaluator/evaluate_search.go:152-169 | `field: ["a", "b"]` matches a field equal to either value and nothing else |
| Searches.AllPoolsMappedTargets | evaluator/evaluate_search.go:137-169 | with `all` over a field mapped to `x` and `y`, {x: a, y: b} satisfies ["a", "b"] through the pool, and {x: a} alone does not |
| Searches.ContainsBase64Matcher | evaluator/evaluate_search.go:101-169 | `field\|contains\|base64: "secret"` matches exactly the values containing "c2VjcmV0" |
| Searches.NestedJsonMatcher | evaluator/evaluate_search.go:138-169 | a field mapped to `$.nested.x` over {"nested": text}, text decoding to {"x":1}, matches "1" |
| Searches.NestedJsonActuals | evaluator/evaluate_search.go:138-149 | that field's only candidate is the number 1 |
| Searches.NumberOneMatches | evaluator/evaluate_search.go:223-225 | the number 1 prints as "1" and so equals the expected "1" |
| Searches.DirectLookupIsNotFlattened | evaluator/evaluate_search.go:133-148 | an unmapped list field is one candidate printed whole, so `tags: ["a"]` misses ["a", "b"]; mapping the field to itself flattens it and it matches |
| Expressions.Enumeration | evaluator/evaluate_search.go:45 | the walk over the search table visits each name of the table once |
| Expressions.Identifier | evaluator/evaluate_search.go:37-42 | a name missing from the table is an unknown-search error, never false |
| Expressions.EvalExpr | evaluator/evaluate_search.go:16-92 | an unknown node kind is an error; an unknown search name is an error |
| Expressions.AndMeaning | evaluator/evaluate_search.go:18-24 | `And` is true iff every child is true; the empty `And` is true |
| Expressions.AndFirstNotTrueDecides | evaluator/evaluate_search.go:18-24 | the first child of an `And` that is not true decides it |
| Expressions.OrMeaning | evaluator/evaluate_search.go:26-32 | `Or` is false iff every child is false; the empty `Or` is false |
| Expressions.OrFirstNotFalseDecides | evaluator/evaluate_search.go:26-32 | the first child of an `Or` that is not false decides it |
| Expressions.BinaryConnectives | evaluator/evaluate_search.go:18-32 | `And(A, B)` and `Or(A, B)` are `&&` and `\|\|` when both evaluate; a false `A` decides the `And` and a true `A` the `Or`, whatever `B` does |
| Expressions.NotMeaning | evaluator/evaluate_search.go:34-35 | `Not` negates a boolean and passes an error through; `Not(Not(x))` is `x` |
| Expressions.DeMorgan | evaluator/evaluate_search.go:18-35 | `Not(And(cs))` equals `Or` of the negated children, errors and short-circuiting included |
| Expressions.OneOfMeaning | evaluator/evaluate_search.go:44-65 | `1 of` is false iff every name walked is false or skipped by the glob |
| Expressions.AllOfMeaning | evaluator/evaluate_search.go:67-88 | `all of` is true iff every name walked is true or skipped by the glob |
| Expressions.EmptyTable | evaluator/evaluate_search.go:44-88 | over an empty table every `1 of` form is false and every `all of` form is true |
| Expressions.NothingSelected | evaluator/evaluate_search.go:52-88 | a glob selecting no name makes `1 of pattern` false and `all of pattern` true |
| Expressions.MalformedPattern | evaluator/evaluate_search.go:52-80 | a glob the matcher rejects is a bad-pattern error as soon as the table has a name |
| Expressions.Chosen | evaluator/evaluate_search.go:58-60 | the names a glob keeps are exactly the walked names it matches |
| Expressions.PatternSelects | evaluator/evaluate_search.go:52-88 | with a well-formed glob, `1 of pattern` and `all of pattern` are `1 of` and `all of` over the names the glob keeps |
| Expressions.SameOutcomes | evaluator/evaluate_search.go:44-88 | two walks over the same names produce the same outcomes |
| Expressions.OrderIrrelevant | evaluator/evaluate_search.go:44-88 | any two walks over the same names that both give a boolean give the same boolean, for every quantifier form |
| Expressions.ErrorDependsOnOrder | evaluator/evaluate_search.go:44-50 | with a keyword search and a search that holds, `1 of them` is true in one order and an error in the other |
| Expressions.TwoSelected | evaluator/evaluate_search.go:52-65 | a glob selecting exactly two searches of any table: `1 of pattern` is false iff both selected searches are false, and true only if one of them is |
| Expressions.TwoSelectedOutcomes | evaluator/evaluate_search.go:52-65 | under such a glob every outcome walked is one of the two selected searches' results or a skip |
| Expressions.NetPatternExample | evaluator/evaluate_search.go:52-65 | `1 of net_*` over net_a, net_b and other_c is false iff net_a and net_b are both false |

## Left out

- `jsonpath.Get`, `json.Unmarshal` and `path.Match` are parameters of the rule evaluator (`Events.Library`). Their own semantics are not modelled, and every property holds for any of them. The prefix test on the JSONPath error message is the `UnsupportedValueType` tag.
- `eventValue` is not part of this model. `Events.EventValue` takes it to be a top-level lookup that gives nil for an absent field.
- `%v` covers strings, byte slices, Go integers, booleans, nil, lists, maps, and decoded JSON numbers (float64) with an integral value, printed by Go's shortest `%g`-style rule. JSON numbers with a fraction, and integral ones beyond 2^53 in magnitude (which a float64 cannot hold exactly), are left out: floating-point arithmetic is not modelled.
- Go's map iteration order is unspecified. The model walks the search table in ascending name order (`Text.SortedKeys`), and `Expressions.OrderIrrelevant` states what holds for every order.
- The regular expression at line 174 is a hand-written parser (`JsonPath.FirstJsonPathField`) of the language the pattern accepts. It captures the same field.
- Strings are sequences of code points. A Go string holding invalid UTF-8, which a `map[string]string` event can carry and which `strings.Contains`, `HasPrefix` and `HasSuffix` compare byte by byte, cannot be represented; `[]byte(s)` is modelled as the UTF-8 encoding of valid text.
- JsonPath.NestedJsonExample: stated for any text the decoder maps to {"x":1}, rather than for the literal `{"x":1}`, because JSON decoding is a parameter.
- Searches.NestedJsonMatcher: stated under the same assumption as `JsonPath.NestedJsonExample`.
- Expressions.PatternSelects: stated for a glob the matcher accepts for every name walked. A malformed glob is covered separately by `Expressions.MalformedPattern`.
