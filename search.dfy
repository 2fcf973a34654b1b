/**
 * Evaluating one named search: a conjunction of field matchers. Each
 * matcher strips a trailing `all` quantifier, folds its other modifiers
 * into a comparator, collects the candidate values of its field (directly,
 * or pooled from every mapped target) and asks, for each expected value,
 * whether some candidate satisfies the comparator.
 */
module Searches {
  import opened Results
  import opened Text
  import opened Values
  import opened Comparators
  import opened Events
  import opened JsonPath
  import opened Connectives
  import opened Base64
  import opened Utf8Encoding

  /** `Field|modifier|...: [values]` of a search. */
  datatype FieldMatcher = FieldMatcher(field: string, modifiers: seq<string>, values: seq<string>)

  /** A search: keyword criteria (unsupported) and field matchers. */
  datatype Search = Search(keywords: seq<string>, fieldMatchers: seq<FieldMatcher>)

  /**
   * `all` is the quantifier only as the last modifier: it is then removed and
   * every expected value must be satisfied; otherwise one suffices.
   */
  function SplitQuantifier(modifiers: seq<string>): (r: (bool, seq<string>))
    ensures r.0 <==> |modifiers| > 0 && modifiers[|modifiers| - 1] == "all"
    ensures r.0 ==> modifiers == r.1 + ["all"]
    ensures !r.0 ==> r.1 == modifiers
  {
    if |modifiers| > 0 && modifiers[|modifiers| - 1] == "all" then (true, modifiers[..|modifiers| - 1])
    else (false, modifiers)
  }

  /** Some candidate satisfies the comparator for `expected`. */
  predicate Satisfied(c: Comparator, actuals: seq<Value>, expected: string) {
    exists k :: 0 <= k < |actuals| && Compare(c, actuals[k], expected)
  }

  /** Every expected value (with `all`) or some expected value (without) is satisfied. */
  predicate Aggregate(c: Comparator, actuals: seq<Value>, values: seq<string>, all: bool) {
    if all then forall j :: 0 <= j < |values| ==> Satisfied(c, actuals, values[j])
    else exists j :: 0 <= j < |values| && Satisfied(c, actuals, values[j])
  }

  lemma AggregateStep(c: Comparator, actuals: seq<Value>, values: seq<string>, i: nat, all: bool)
    requires i < |values|
    ensures Aggregate(c, actuals, values[..i + 1], all) ==
      if all then Aggregate(c, actuals, values[..i], all) && Satisfied(c, actuals, values[i])
      else Aggregate(c, actuals, values[..i], all) || Satisfied(c, actuals, values[i])
  {
    var before, through := values[..i], values[..i + 1];
    assert through == before + [values[i]];
    if all {
      AllStep(c, actuals, before, values[i]);
    } else {
      AnyStep(c, actuals, before, values[i]);
    }
  }

  lemma AllStep(c: Comparator, actuals: seq<Value>, before: seq<string>, expected: string)
    ensures Aggregate(c, actuals, before + [expected], true) ==
      (Aggregate(c, actuals, before, true) && Satisfied(c, actuals, expected))
  {
    var through := before + [expected];
    assert forall j :: 0 <= j < |before| ==> through[j] == before[j];
    assert through[|before|] == expected;
  }

  lemma AnyStep(c: Comparator, actuals: seq<Value>, before: seq<string>, expected: string)
    ensures Aggregate(c, actuals, before + [expected], false) ==
      (Aggregate(c, actuals, before, false) || Satisfied(c, actuals, expected))
  {
    var through := before + [expected];
    assert forall j :: 0 <= j < |before| ==> through[j] == before[j];
    assert through[|before|] == expected;
  }

  /** The flattened values, concatenated in order; the error of the first target that failed. */
  function Pool(rs: seq<Result<Value>>): Result<seq<Value>>
    decreases |rs|
  {
    if |rs| == 0 then Ok([])
    else
      match Pool(rs[..|rs| - 1])
      case Err(e) => Err(e)
      case Ok(before) =>
        match rs[|rs| - 1]
        case Err(e) => Err(e)
        case Ok(v) => Ok(before + Candidates(v))
  }

  lemma {:induction false} PoolKeepsError(rs: seq<Result<Value>>, n: nat)
    requires n <= |rs| && Pool(rs[..n]).Err?
    ensures Pool(rs) == Pool(rs[..n])
    decreases |rs| - n
  {
    if n < |rs| {
      assert rs[..n + 1][..n] == rs[..n];
      PoolKeepsError(rs, n + 1);
    } else {
      assert rs[..n] == rs;
    }
  }

  /** Pooling succeeds exactly when every target resolved. */
  lemma {:induction false} PoolSucceeds(rs: seq<Result<Value>>)
    ensures Pool(rs).Ok? <==> forall i :: 0 <= i < |rs| ==> rs[i].Ok?
    decreases |rs|
  {
    if |rs| > 0 {
      var init := rs[..|rs| - 1];
      PoolSucceeds(init);
      assert forall i :: 0 <= i < |init| ==> init[i] == rs[i];
    }
  }

  /** A failure surfaces as the error of the first target that failed. */
  lemma {:induction false} PoolFirstError(rs: seq<Result<Value>>, k: nat)
    requires k < |rs| && rs[k].Err?
    requires forall i :: 0 <= i < k ==> rs[i].Ok?
    ensures Pool(rs) == Err(rs[k].error)
  {
    var through := rs[..k + 1];
    assert through[..k] == rs[..k];
    assert forall i :: 0 <= i < k ==> rs[..k][i] == rs[i];
    PoolSucceeds(rs[..k]);
    PoolKeepsError(rs, k + 1);
  }

  /** Pooling is concatenation: the candidates of `first` come before those of `second`. */
  lemma {:induction false} PoolAppend(first: seq<Result<Value>>, second: seq<Result<Value>>)
    requires Pool(first).Ok? && Pool(second).Ok?
    ensures Pool(first + second) == Ok(Pool(first).value + Pool(second).value)
    decreases |second|
  {
    if |second| == 0 {
      assert first + second == first;
      assert Pool(first).value + [] == Pool(first).value;
    } else {
      var init, last := second[..|second| - 1], second[|second| - 1];
      assert init + [last] == second;
      assert (first + init) + [last] == first + second;
      PoolSnoc(init, last);
      PoolSnoc(first + init, last);
      PoolAppend(first, init);
      var a, b, v := Pool(first).value, Pool(init).value, last.value;
      Associative(a, b, Candidates(v));
    }
  }

  lemma PoolSnoc(rs: seq<Result<Value>>, r: Result<Value>)
    ensures Pool(rs + [r]) == match Pool(rs)
                              case Err(e) => Err(e)
                              case Ok(before) => match r
                                                 case Err(e) => Err(e)
                                                 case Ok(v) => Ok(before + Candidates(v))
  {
    assert (rs + [r])[..|rs|] == rs;
  }

  lemma Associative<T>(a: seq<T>, b: seq<T>, c: seq<T>)
    ensures (a + b) + c == a + (b + c)
  {
  }

  /** One target contributes its flattened value. */
  lemma PoolSingle(r: Result<Value>)
    ensures r.Ok? ==> Pool([r]) == Ok(Candidates(r.value))
    ensures r.Err? ==> Pool([r]) == Err(r.error)
  {
    assert [r][..0] == [];
    if r.Ok? {
      assert [] + Candidates(r.value) == Candidates(r.value);
    }
  }

  /** The rule being evaluated: its search table, its field mappings and the collaborators. */
  datatype RuleEvaluator = RuleEvaluator(
    searches: map<string, Search>,
    fieldMappings: map<string, seq<string>>,
    lib: Library)
  {
    /** The mapped targets of a field; a missing entry is the same as an empty one. */
    function Mapping(field: string): seq<string> {
      if field in fieldMappings then fieldMappings[field] else []
    }

    /** One mapping target: a JSONPath expression, or else a top-level field name. */
    function Resolve(target: string, event: Event): (r: Result<Value>)
      ensures !IsJsonPath(target) ==> r == Ok(EventValue(event, target))
      ensures r.Err? ==> IsJsonPath(target) && r.error == UnparsableJsonPath(target)
    {
      if IsJsonPath(target) then EvaluateJsonPath(target, event, lib) else Ok(EventValue(event, target))
    }

    /** Each target resolved, in mapping order. */
    function Resolved(targets: seq<string>, event: Event): (r: seq<Result<Value>>)
      ensures |r| == |targets|
      ensures forall i :: 0 <= i < |targets| ==> r[i] == Resolve(targets[i], event)
    {
      seq(|targets|, i requires 0 <= i < |targets| => Resolve(targets[i], event))
    }

    /** The candidate values of a matcher's field. */
    function ActualValues(field: string, event: Event): Result<seq<Value>> {
      if |Mapping(field)| == 0 then Ok([EventValue(event, field)])
      else Pool(Resolved(Mapping(field), event))
    }

    /** matcherMatchesValues, for a comparator already built. */
    function MatchWith(m: FieldMatcher, c: Comparator, all: bool, event: Event): (r: Result<bool>)
      ensures ActualValues(m.field, event).Ok? && |m.values| == 0 ==> r == Ok(all)
    {
      match ActualValues(m.field, event)
      case Err(e) => Err(e)
      case Ok(actuals) => Ok(Aggregate(c, actuals, m.values, all))
    }

    /** One matcher: the comparator is built, or fails, before any value is collected. */
    function MatcherResult(m: FieldMatcher, event: Event): Result<bool> {
      var split := SplitQuantifier(m.modifiers);
      match BuildComparator(split.1)
      case Err(e) => Err(e)
      case Ok(c) => MatchWith(m, c, split.0, event)
    }

    /** The outcome of every matcher, in order; the conjunction consults them lazily. */
    function Outcomes(ms: seq<FieldMatcher>, event: Event): (r: seq<Result<bool>>)
      ensures |r| == |ms|
      ensures forall j :: 0 <= j < |ms| ==> r[j] == MatcherResult(ms[j], event)
    {
      seq(|ms|, j requires 0 <= j < |ms| => MatcherResult(ms[j], event))
    }

    /** evaluateSearch: keywords are refused; otherwise the conjunction of the matchers. */
    function SearchResult(s: Search, event: Event): (r: Result<bool>)
      ensures |s.keywords| > 0 ==> r == Err(KeywordsUnsupported)
      ensures |s.keywords| == 0 ==>
        (r == Ok(true) <==> forall j :: 0 <= j < |s.fieldMatchers| ==> MatcherResult(s.fieldMatchers[j], event) == Ok(true))
    {
      ConjoinTrue(Outcomes(s.fieldMatchers, event));
      if |s.keywords| > 0 then Err(KeywordsUnsupported) else Conjoin(Outcomes(s.fieldMatchers, event))
    }

    /**
     * The first matcher that does not hold decides the search: its `false`,
     * or its error; the matchers after it are never evaluated.
     */
    lemma FirstFailingMatcherDecides(s: Search, j: nat, event: Event)
      requires |s.keywords| == 0 && j < |s.fieldMatchers|
      requires forall k :: 0 <= k < j ==> MatcherResult(s.fieldMatchers[k], event) == Ok(true)
      requires MatcherResult(s.fieldMatchers[j], event) != Ok(true)
      ensures SearchResult(s, event) == MatcherResult(s.fieldMatchers[j], event)
    {
      ConjoinFirstDecides(Outcomes(s.fieldMatchers, event), j);
    }

    lemma MatcherOutcome(m: FieldMatcher, event: Event, all: bool, c: Comparator, actuals: seq<Value>)
      requires SplitQuantifier(m.modifiers).0 == all && BuildComparator(SplitQuantifier(m.modifiers).1) == Ok(c)
      requires ActualValues(m.field, event) == Ok(actuals)
      ensures MatcherResult(m, event) == Ok(Aggregate(c, actuals, m.values, all))
    {
    }

    lemma MappedToOne(field: string, target: string, event: Event)
      requires Mapping(field) == [target] && Resolve(target, event).Ok?
      ensures ActualValues(field, event) == Ok(Candidates(Resolve(target, event).value))
    {
      assert Resolved([target], event) == [Resolve(target, event)];
      PoolSingle(Resolve(target, event));
    }

    lemma MappedToTwo(field: string, first: string, second: string, event: Event)
      requires Mapping(field) == [first, second] && !IsJsonPath(first) && !IsJsonPath(second)
      ensures ActualValues(field, event) ==
        Ok(Candidates(EventValue(event, first)) + Candidates(EventValue(event, second)))
    {
      var a, b := Ok(EventValue(event, first)), Ok(EventValue(event, second));
      assert Resolved([first, second], event) == [a] + [b];
      PoolSingle(a);
      PoolSingle(b);
      PoolAppend([a], [b]);
    }

    /** toGenericSlice applied in a loop over the mapped targets. */
    method CollectActualValues(field: string, event: Event) returns (r: Result<seq<Value>>)
      ensures r == ActualValues(field, event)
    {
      var targets := Mapping(field);
      if |targets| == 0 {
        return Ok([EventValue(event, field)]);
      }
      ghost var resolved := Resolved(targets, event);
      var actuals: seq<Value> := [];
      var i := 0;
      while i < |targets|
        invariant 0 <= i <= |targets|
        invariant Pool(resolved[..i]) == Ok(actuals)
      {
        assert resolved[..i + 1][..i] == resolved[..i];
        var v := Resolve(targets[i], event);
        if v.Err? {
          PoolKeepsError(resolved, i + 1);
          return Err(v.error);
        }
        var candidates := ToGenericSlice(v.value);
        actuals := actuals + candidates;
        i := i + 1;
      }
      assert resolved[..i] == resolved;
      r := Ok(actuals);
    }

    /** The inner loop of matcherMatchesValues: stops at the first candidate the comparator accepts. */
    method AnyCandidateMatches(c: Comparator, actuals: seq<Value>, expected: string) returns (matched: bool)
      ensures matched <==> exists k :: 0 <= k < |actuals| && Compare(c, actuals[k], expected)
    {
      matched := false;
      var k := 0;
      while k < |actuals|
        invariant 0 <= k <= |actuals|
        invariant forall k' :: 0 <= k' < k ==> !Compare(c, actuals[k'], expected)
      {
        if Compare(c, actuals[k], expected) {
          return true;
        }
        k := k + 1;
      }
    }

    /** matcherMatchesValues: candidates first, then ANY or ALL over the expected values. */
    method MatcherMatchesValues(m: FieldMatcher, c: Comparator, all: bool, event: Event) returns (r: Result<bool>)
      ensures r == MatchWith(m, c, all, event)
    {
      var collected := CollectActualValues(m.field, event);
      if collected.Err? {
        return Err(collected.error);
      }
      var actuals := collected.value;
      var matched := all;
      var i := 0;
      while i < |m.values|
        invariant 0 <= i <= |m.values|
        invariant matched == Aggregate(c, actuals, m.values[..i], all)
      {
        var valueMatched := AnyCandidateMatches(c, actuals, m.values[i]);
        AggregateStep(c, actuals, m.values, i, all);
        if all {
          matched := matched && valueMatched;
        } else {
          matched := matched || valueMatched;
        }
        i := i + 1;
      }
      assert m.values[..i] == m.values;
      r := Ok(matched);
    }

    /** The comparator loop of evaluateSearch: each modifier wraps the comparator built so far. */
    method FoldModifiers(names: seq<string>) returns (r: Result<Comparator>)
      ensures r == BuildComparator(names)
    {
      var c := Equal;
      var j := 0;
      while j < |names|
        invariant 0 <= j <= |names|
        invariant forall k :: 0 <= k < j ==> IsModifier(names[k])
        invariant Fold(Equal, names[..j]) == Ok(c)
      {
        if !IsModifier(names[j]) {
          FoldFailsAtFirstUnknown(Equal, names, j);
          return Err(UnknownModifier(names[j]));
        }
        FoldAppend(Equal, names[..j], names[j]);
        assert names[..j + 1] == names[..j] + [names[j]];
        c := ApplyModifier(names[j], c).value;
        j := j + 1;
      }
      assert names[..j] == names;
      r := Ok(c);
    }

    /** evaluateSearch: the modifier fold and the matcher loop, as the source runs them. */
    method EvaluateSearch(s: Search, event: Event) returns (r: Result<bool>)
      ensures r == SearchResult(s, event)
    {
      if |s.keywords| > 0 {
        return Err(KeywordsUnsupported);
      }
      var ms := s.fieldMatchers;
      ghost var outcomes := Outcomes(ms, event);
      var i := 0;
      while i < |ms|
        invariant 0 <= i <= |ms|
        invariant Conjoin(outcomes) == Conjoin(outcomes[i..])
      {
        var m := ms[i];
        ghost var outcome := outcomes[i];
        assert outcome == MatcherResult(m, event);
        var all := false;
        var names := m.modifiers;
        if |names| > 0 && names[|names| - 1] == "all" {
          all := true;
          names := names[..|names| - 1];
        }
        assert (all, names) == SplitQuantifier(m.modifiers);
        var comparator := FoldModifiers(names);
        if comparator.Err? {
          assert outcome == Err(comparator.error);
          ConjoinStop(outcomes, i);
          return Err(comparator.error);
        }
        var matched := MatcherMatchesValues(m, comparator.value, all, event);
        assert outcome == matched;
        if matched.Err? || !matched.value {
          ConjoinStop(outcomes, i);
          return matched;
        }
        ConjoinStep(outcomes, i);
        i := i + 1;
      }
      r := Ok(true);
    }

    /** An `all` anywhere but last is looked up as a modifier, and there is none by that name. */
    lemma AllBeforeLastIsUnknownModifier(m: FieldMatcher, k: nat, event: Event)
      requires k < |m.modifiers| - 1 && m.modifiers[k] == "all"
      requires forall i :: 0 <= i < k ==> IsModifier(m.modifiers[i])
      ensures MatcherResult(m, event) == Err(UnknownModifier("all"))
    {
      var names := SplitQuantifier(m.modifiers).1;
      assert k < |names| && names[k] == "all";
      FoldFailsAtFirstUnknown(Equal, names, k);
    }

    /** An unregistered modifier is a rule error, whatever the event holds. */
    lemma UnknownModifierIsError(m: FieldMatcher, k: nat, event: Event)
      requires k < |m.modifiers| && !IsModifier(m.modifiers[k]) && m.modifiers[k] != "all"
      requires forall i :: 0 <= i < k ==> IsModifier(m.modifiers[i])
      ensures MatcherResult(m, event) == Err(UnknownModifier(m.modifiers[k]))
    {
      var names := SplitQuantifier(m.modifiers).1;
      assert k < |names| && names[k] == m.modifiers[k];
      FoldFailsAtFirstUnknown(Equal, names, k);
    }
  }

  lemma SatisfiedOne(c: Comparator, v: Value, expected: string)
    ensures Satisfied(c, [v], expected) == Compare(c, v, expected)
  {
    assert [v][0] == v;
  }

  lemma SatisfiedTwo(c: Comparator, v: Value, w: Value, expected: string)
    ensures Satisfied(c, [v, w], expected) == (Compare(c, v, expected) || Compare(c, w, expected))
  {
    assert [v, w][0] == v && [v, w][1] == w;
  }

  lemma AggregateOne(c: Comparator, actuals: seq<Value>, x: string, all: bool)
    ensures Aggregate(c, actuals, [x], all) == Satisfied(c, actuals, x)
  {
    assert [x][0] == x;
  }

  lemma AggregateTwo(c: Comparator, actuals: seq<Value>, x: string, y: string, all: bool)
    ensures Aggregate(c, actuals, [x, y], all) ==
      if all then Satisfied(c, actuals, x) && Satisfied(c, actuals, y)
      else Satisfied(c, actuals, x) || Satisfied(c, actuals, y)
  {
    assert [x, y][0] == x && [x, y][1] == y;
  }

  /** `field: ["a", "b"]` matches a field equal to either value and nothing else. */
  lemma AnyOfTwoValues(v: string, lib: Library)
    ensures RuleEvaluator(map[], map[], lib).MatcherResult(
              FieldMatcher("field", [], ["a", "b"]), StringEvent(map["field" := v])) == Ok(v == "a" || v == "b")
  {
    var rule := RuleEvaluator(map[], map[], lib);
    var event := StringEvent(map["field" := v]);
    rule.MatcherOutcome(FieldMatcher("field", [], ["a", "b"]), event, false, Equal, [Str(v)]);
    AggregateTwo(Equal, [Str(v)], "a", "b", false);
    SatisfiedOne(Equal, Str(v), "a");
    SatisfiedOne(Equal, Str(v), "b");
  }

  /**
   * `field|all: ["a", "b"]` over a field mapped to `x` and `y`: the candidates
   * of both targets are pooled, so the event {x: a, y: b} matches although
   * neither target holds both values, and {x: a} alone does not.
   */
  lemma AllPoolsMappedTargets(lib: Library)
    ensures RuleEvaluator(map[], map["field" := ["x", "y"]], lib).MatcherResult(
              FieldMatcher("field", ["all"], ["a", "b"]), StringEvent(map["x" := "a", "y" := "b"])) == Ok(true)
    ensures RuleEvaluator(map[], map["field" := ["x", "y"]], lib).MatcherResult(
              FieldMatcher("field", ["all"], ["a", "b"]), StringEvent(map["x" := "a"])) == Ok(false)
  {
    var rule := RuleEvaluator(map[], map["field" := ["x", "y"]], lib);
    var m := FieldMatcher("field", ["all"], ["a", "b"]);
    var both, one := StringEvent(map["x" := "a", "y" := "b"]), StringEvent(map["x" := "a"]);
    assert SplitQuantifier(["all"]) == (true, []);
    rule.MappedToTwo("field", "x", "y", both);
    rule.MappedToTwo("field", "x", "y", one);
    assert Candidates(Str("a")) + Candidates(Str("b")) == [Str("a"), Str("b")];
    assert Candidates(Str("a")) + Candidates(Null) == [Str("a"), Null];
    rule.MatcherOutcome(m, both, true, Equal, [Str("a"), Str("b")]);
    rule.MatcherOutcome(m, one, true, Equal, [Str("a"), Null]);
    AggregateTwo(Equal, [Str("a"), Str("b")], "a", "b", true);
    AggregateTwo(Equal, [Str("a"), Null], "a", "b", true);
    SatisfiedTwo(Equal, Str("a"), Str("b"), "a");
    SatisfiedTwo(Equal, Str("a"), Str("b"), "b");
    SatisfiedTwo(Equal, Str("a"), Null, "b");
    assert ToString(Null) == "<nil>";
  }

  /** `field|contains|base64: "secret"` matches exactly the values holding "c2VjcmV0". */
  lemma ContainsBase64Matcher(v: string, lib: Library)
    ensures RuleEvaluator(map[], map[], lib).MatcherResult(
              FieldMatcher("field", ["contains", "base64"], ["secret"]), StringEvent(map["field" := v]))
            == Ok(Contains(v, "c2VjcmV0"))
  {
    var rule := RuleEvaluator(map[], map[], lib);
    var m := FieldMatcher("field", ["contains", "base64"], ["secret"]);
    var event := StringEvent(map["field" := v]);
    var hit := Contains(v, "c2VjcmV0");
    ContainsBase64OfSecret(v);
    assert Compare(Base64Of(Substring), Str(v), "secret") == hit;
    SatisfiedOne(Base64Of(Substring), Str(v), "secret");
    AggregateOne(Base64Of(Substring), [Str(v)], "secret", false);
    assert Aggregate(Base64Of(Substring), [Str(v)], m.values, false) == hit;
    assert SplitQuantifier(m.modifiers) == (false, ["contains", "base64"]);
    rule.MatcherOutcome(m, event, false, Base64Of(Substring), [Str(v)]);
  }

  /**
   * A field mapped to `$.nested.x` over {"nested": text}, where text is JSON
   * such as `{"x":1}`: the nested text is decoded and the value 1 matches the
   * expected "1".
   */
  lemma NestedJsonMatcher(lib: Library, text: string)
    requires lib.get("$.nested.x", StringEvent(map["nested" := text])) == Failed(UnsupportedValueType)
    requires lib.unmarshal(Utf8(text)) == Some(Map(map["x" := Num(1)]))
    requires lib.get("$.nested.x", ValueEvent(map["nested" := Map(map["x" := Num(1)])])) == Found(Num(1))
    ensures RuleEvaluator(map[], map["field" := ["$.nested.x"]], lib).MatcherResult(
              FieldMatcher("field", [], ["1"]), StringEvent(map["nested" := text])) == Ok(true)
  {
    var rule := RuleEvaluator(map[], map["field" := ["$.nested.x"]], lib);
    var event := StringEvent(map["nested" := text]);
    NestedJsonActuals(lib, text);
    NumberOneMatches();
    rule.MatcherOutcome(FieldMatcher("field", [], ["1"]), event, false, Equal, [Num(1)]);
  }

  lemma NestedJsonActuals(lib: Library, text: string)
    requires lib.get("$.nested.x", StringEvent(map["nested" := text])) == Failed(UnsupportedValueType)
    requires lib.unmarshal(Utf8(text)) == Some(Map(map["x" := Num(1)]))
    requires lib.get("$.nested.x", ValueEvent(map["nested" := Map(map["x" := Num(1)])])) == Found(Num(1))
    ensures RuleEvaluator(map[], map["field" := ["$.nested.x"]], lib).ActualValues(
              "field", StringEvent(map["nested" := text])) == Ok([Num(1)])
  {
    var rule := RuleEvaluator(map[], map["field" := ["$.nested.x"]], lib);
    var event := StringEvent(map["nested" := text]);
    NestedJsonExample(lib, text);
    assert IsJsonPath("$.nested.x") by {
      assert "$.nested.x"[..2] == "$.";
    }
    assert rule.Resolve("$.nested.x", event) == Ok(Num(1));
    rule.MappedToOne("field", "$.nested.x", event);
    assert Candidates(Num(1)) == [Num(1)];
  }

  lemma NumberOneMatches()
    ensures SplitQuantifier([]) == (false, []) && BuildComparator([]) == Ok(Equal)
    ensures Aggregate(Equal, [Num(1)], ["1"], false)
  {
    AggregateOne(Equal, [Num(1)], "1", false);
    SatisfiedOne(Equal, Num(1), "1");
    assert ToString(Num(1)) == "1";
  }

  /**
   * A list under an unmapped field is one candidate, printed whole, so `tags: ["a"]`
   * does not match ["a", "b"]; mapping the field to itself flattens the list and it does.
   */
  lemma DirectLookupIsNotFlattened(lib: Library)
    ensures RuleEvaluator(map[], map[], lib).MatcherResult(
              FieldMatcher("tags", [], ["a"]), ValueEvent(map["tags" := List([Str("a"), Str("b")])])) == Ok(false)
    ensures RuleEvaluator(map[], map["tags" := ["tags"]], lib).MatcherResult(
              FieldMatcher("tags", [], ["a"]), ValueEvent(map["tags" := List([Str("a"), Str("b")])])) == Ok(true)
  {
    var list := List([Str("a"), Str("b")]);
    var m := FieldMatcher("tags", [], ["a"]);
    var event := ValueEvent(map["tags" := list]);
    var direct, mapped := RuleEvaluator(map[], map[], lib), RuleEvaluator(map[], map["tags" := ["tags"]], lib);
    direct.MatcherOutcome(m, event, false, Equal, [list]);
    AggregateOne(Equal, [list], "a", false);
    SatisfiedOne(Equal, list, "a");
    ToStringShape(list);
    assert "tags"[0] == 't';
    mapped.MappedToOne("tags", "tags", event);
    assert Candidates(list) == [Str("a"), Str("b")];
    mapped.MatcherOutcome(m, event, false, Equal, [Str("a"), Str("b")]);
    AggregateOne(Equal, [Str("a"), Str("b")], "a", false);
    SatisfiedTwo(Equal, Str("a"), Str("b"), "a");
  }
}
