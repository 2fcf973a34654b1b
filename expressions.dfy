/**
 * The rule's condition: a boolean expression over the names of its
 * searches. `And`/`Or` short-circuit over their children, the `1 of` and
 * `all of` forms quantify over the search table (optionally only over the
 * names a glob selects), and every name reached must exist in the table.
 */
module Expressions {
  import opened Results
  import opened Text
  import opened Events
  import opened Connectives
  import opened Searches

  datatype SearchExpr =
    | And(children: seq<SearchExpr>)
    | Or(children: seq<SearchExpr>)
    | Not(expr: SearchExpr)
    | SearchIdentifier(name: string)
    | OneOfThem
    | AllOfThem
    | OneOfPattern(pattern: string)
    | AllOfPattern(pattern: string)
    | OtherNode  // an expression kind this evaluator has no case for

  /**
   * The order the search table is walked in. Go leaves the order of a map
   * unspecified; this model takes ascending names, and the lemmas below
   * say what holds for every order.
   */
  function Enumeration(rule: RuleEvaluator): (r: seq<string>)
    ensures forall name :: name in r <==> name in rule.searches
    ensures |r| == |rule.searches|
  {
    SortedKeys(rule.searches.Keys)
  }

  /** A named search; a name missing from the table is a rule error, not a mismatch. */
  function Identifier(rule: RuleEvaluator, name: string, event: Event): (r: Result<bool>)
    ensures name !in rule.searches ==> r == Err(UnknownSearch(name))
  {
    if name in rule.searches then rule.SearchResult(rule.searches[name], event)
    else Err(UnknownSearch(name))
  }

  /**
   * One name of a quantifier: with a glob, a name it does not select counts
   * as `skip` (false for `1 of`, true for `all of`) and a malformed glob is
   * a rule error.
   */
  function Selected(rule: RuleEvaluator, pattern: Option<string>, name: string, skip: bool, event: Event): Result<bool> {
    match pattern
    case None => Identifier(rule, name, event)
    case Some(p) =>
      match rule.lib.matchPattern(p, name)
      case None => Err(BadPattern(p))
      case Some(selected) => if selected then Identifier(rule, name, event) else Ok(skip)
  }

  function Selections(rule: RuleEvaluator, pattern: Option<string>, names: seq<string>, skip: bool, event: Event): (r: seq<Result<bool>>)
    ensures |r| == |names|
    ensures forall i :: 0 <= i < |names| ==> r[i] == Selected(rule, pattern, names[i], skip, event)
  {
    seq(|names|, i requires 0 <= i < |names| => Selected(rule, pattern, names[i], skip, event))
  }

  /** `1 of them` / `1 of pattern` over the names in the given order. */
  function OneOf(rule: RuleEvaluator, pattern: Option<string>, names: seq<string>, event: Event): Result<bool> {
    Disjoin(Selections(rule, pattern, names, false, event))
  }

  /** `all of them` / `all of pattern` over the names in the given order. */
  function AllOf(rule: RuleEvaluator, pattern: Option<string>, names: seq<string>, event: Event): Result<bool> {
    Conjoin(Selections(rule, pattern, names, true, event))
  }

  /** evaluateSearchExpression */
  function EvalExpr(rule: RuleEvaluator, e: SearchExpr, event: Event): (r: Result<bool>)
    ensures e.OtherNode? ==> r == Err(UnknownNode)
    ensures e.SearchIdentifier? && e.name !in rule.searches ==> r == Err(UnknownSearch(e.name))
    decreases e
  {
    match e
    case And(cs) => Conjoin(EvalEach(rule, cs, event))
    case Or(cs) => Disjoin(EvalEach(rule, cs, event))
    case Not(x) => Negate(EvalExpr(rule, x, event))
    case SearchIdentifier(name) => Identifier(rule, name, event)
    case OneOfThem => OneOf(rule, None, Enumeration(rule), event)
    case OneOfPattern(p) => OneOf(rule, Some(p), Enumeration(rule), event)
    case AllOfThem => AllOf(rule, None, Enumeration(rule), event)
    case AllOfPattern(p) => AllOf(rule, Some(p), Enumeration(rule), event)
    case OtherNode => Err(UnknownNode)
  }

  /** The children's outcomes, in order; the connectives consult them lazily. */
  function EvalEach(rule: RuleEvaluator, cs: seq<SearchExpr>, event: Event): (r: seq<Result<bool>>)
    ensures |r| == |cs|
    ensures forall i :: 0 <= i < |cs| ==> r[i] == EvalExpr(rule, cs[i], event)
    decreases cs
  {
    seq(|cs|, i requires 0 <= i < |cs| => EvalExpr(rule, cs[i], event))
  }

  /** `And` is true exactly when every child is; the empty `And` is true. */
  lemma AndMeaning(rule: RuleEvaluator, cs: seq<SearchExpr>, event: Event)
    ensures EvalExpr(rule, And(cs), event) == Ok(true) <==>
      forall i :: 0 <= i < |cs| ==> EvalExpr(rule, cs[i], event) == Ok(true)
  {
    ConjoinTrue(EvalEach(rule, cs, event));
  }

  /** The first child of an `And` that is not true decides it; later children are never evaluated. */
  lemma AndFirstNotTrueDecides(rule: RuleEvaluator, cs: seq<SearchExpr>, k: nat, event: Event)
    requires k < |cs| && EvalExpr(rule, cs[k], event) != Ok(true)
    requires forall i :: 0 <= i < k ==> EvalExpr(rule, cs[i], event) == Ok(true)
    ensures EvalExpr(rule, And(cs), event) == EvalExpr(rule, cs[k], event)
  {
    ConjoinFirstDecides(EvalEach(rule, cs, event), k);
  }

  /** `Or` is false exactly when every child is; the empty `Or` is false. */
  lemma OrMeaning(rule: RuleEvaluator, cs: seq<SearchExpr>, event: Event)
    ensures EvalExpr(rule, Or(cs), event) == Ok(false) <==>
      forall i :: 0 <= i < |cs| ==> EvalExpr(rule, cs[i], event) == Ok(false)
  {
    DisjoinFalse(EvalEach(rule, cs, event));
  }

  /** The first child of an `Or` that is not false decides it. */
  lemma OrFirstNotFalseDecides(rule: RuleEvaluator, cs: seq<SearchExpr>, k: nat, event: Event)
    requires k < |cs| && EvalExpr(rule, cs[k], event) != Ok(false)
    requires forall i :: 0 <= i < k ==> EvalExpr(rule, cs[i], event) == Ok(false)
    ensures EvalExpr(rule, Or(cs), event) == EvalExpr(rule, cs[k], event)
  {
    DisjoinFirstDecides(EvalEach(rule, cs, event), k);
  }

  /**
   * `And(A, B)` is `A && B` when both evaluate, and false as soon as `A` is,
   * whatever `B` would do; dually for `Or`.
   */
  lemma BinaryConnectives(rule: RuleEvaluator, a: SearchExpr, b: SearchExpr, event: Event)
    ensures EvalExpr(rule, a, event).Ok? && EvalExpr(rule, b, event).Ok? ==>
      EvalExpr(rule, And([a, b]), event) == Ok(EvalExpr(rule, a, event).value && EvalExpr(rule, b, event).value) &&
      EvalExpr(rule, Or([a, b]), event) == Ok(EvalExpr(rule, a, event).value || EvalExpr(rule, b, event).value)
    ensures EvalExpr(rule, a, event) == Ok(false) ==> EvalExpr(rule, And([a, b]), event) == Ok(false)
    ensures EvalExpr(rule, a, event) == Ok(true) ==> EvalExpr(rule, Or([a, b]), event) == Ok(true)
  {
    assert EvalEach(rule, [a, b], event) == [EvalExpr(rule, a, event), EvalExpr(rule, b, event)];
    BinaryOutcomes(EvalExpr(rule, a, event), EvalExpr(rule, b, event));
  }

  /** `Not` negates a boolean and passes an error through; two of them cancel. */
  lemma NotMeaning(rule: RuleEvaluator, x: SearchExpr, event: Event)
    ensures EvalExpr(rule, Not(x), event).Ok? <==> EvalExpr(rule, x, event).Ok?
    ensures EvalExpr(rule, x, event).Ok? ==> EvalExpr(rule, Not(x), event).value == !EvalExpr(rule, x, event).value
    ensures EvalExpr(rule, Not(Not(x)), event) == EvalExpr(rule, x, event)
  {
  }

  function Negated(cs: seq<SearchExpr>): (r: seq<SearchExpr>)
    ensures |r| == |cs| && forall i :: 0 <= i < |cs| ==> r[i] == Not(cs[i])
  {
    seq(|cs|, i requires 0 <= i < |cs| => Not(cs[i]))
  }

  /** De Morgan holds outright, errors and short-circuiting included. */
  lemma DeMorgan(rule: RuleEvaluator, cs: seq<SearchExpr>, event: Event)
    ensures EvalExpr(rule, Not(And(cs)), event) == EvalExpr(rule, Or(Negated(cs)), event)
  {
    NegatedConjunction(EvalEach(rule, cs, event), EvalEach(rule, Negated(cs), event));
  }

  /** `1 of` is false exactly when every name is false or not selected. */
  lemma OneOfMeaning(rule: RuleEvaluator, pattern: Option<string>, names: seq<string>, event: Event)
    ensures OneOf(rule, pattern, names, event) == Ok(false) <==>
      forall i :: 0 <= i < |names| ==> Selected(rule, pattern, names[i], false, event) == Ok(false)
  {
    DisjoinFalse(Selections(rule, pattern, names, false, event));
  }

  /** `all of` is true exactly when every name is true or not selected. */
  lemma AllOfMeaning(rule: RuleEvaluator, pattern: Option<string>, names: seq<string>, event: Event)
    ensures AllOf(rule, pattern, names, event) == Ok(true) <==>
      forall i :: 0 <= i < |names| ==> Selected(rule, pattern, names[i], true, event) == Ok(true)
  {
    ConjoinTrue(Selections(rule, pattern, names, true, event));
  }

  /** Over an empty search table `1 of` is false and `all of` is true, with or without a glob. */
  lemma EmptyTable(rule: RuleEvaluator, p: string, event: Event)
    requires |rule.searches| == 0
    ensures EvalExpr(rule, OneOfThem, event) == Ok(false) && EvalExpr(rule, OneOfPattern(p), event) == Ok(false)
    ensures EvalExpr(rule, AllOfThem, event) == Ok(true) && EvalExpr(rule, AllOfPattern(p), event) == Ok(true)
  {
    assert Enumeration(rule) == [];
  }

  /** A glob that selects no name makes `1 of` false and `all of` true. */
  lemma NothingSelected(rule: RuleEvaluator, p: string, event: Event)
    requires forall name :: name in rule.searches ==> rule.lib.matchPattern(p, name) == Some(false)
    ensures EvalExpr(rule, OneOfPattern(p), event) == Ok(false)
    ensures EvalExpr(rule, AllOfPattern(p), event) == Ok(true)
  {
    var names := Enumeration(rule);
    assert forall i :: 0 <= i < |names| ==> names[i] in rule.searches;
    OneOfMeaning(rule, Some(p), names, event);
    AllOfMeaning(rule, Some(p), names, event);
  }

  /** A glob the matcher rejects is a rule error as soon as the table has a name. */
  lemma MalformedPattern(rule: RuleEvaluator, p: string, event: Event)
    requires |rule.searches| > 0
    requires forall name :: name in rule.searches ==> rule.lib.matchPattern(p, name).None?
    ensures EvalExpr(rule, OneOfPattern(p), event) == Err(BadPattern(p))
    ensures EvalExpr(rule, AllOfPattern(p), event) == Err(BadPattern(p))
  {
    var names := Enumeration(rule);
    var some :| some in rule.searches;
    assert some in names;
    assert names[0] in rule.searches;
    DisjoinFirstDecides(Selections(rule, Some(p), names, false, event), 0);
    ConjoinFirstDecides(Selections(rule, Some(p), names, true, event), 0);
  }

  /** The names a glob selects, in enumeration order (the glob is assumed well formed). */
  function Chosen(lib: Library, p: string, names: seq<string>): (r: seq<string>)
    ensures forall name :: name in r <==> name in names && lib.matchPattern(p, name) == Some(true)
  {
    if |names| == 0 then []
    else if lib.matchPattern(p, names[0]) == Some(true) then [names[0]] + Chosen(lib, p, names[1..])
    else Chosen(lib, p, names[1..])
  }

  lemma SelectionsTail(rule: RuleEvaluator, pattern: Option<string>, names: seq<string>, skip: bool, event: Event)
    requires |names| > 0
    ensures Selections(rule, pattern, names, skip, event)[1..] == Selections(rule, pattern, names[1..], skip, event)
  {
  }

  /**
   * A well-formed glob only narrows the table: `1 of pattern` and `all of
   * pattern` are `1 of` and `all of` over the names it selects, and the
   * searches it does not select are never evaluated.
   */
  lemma {:induction false} PatternSelects(rule: RuleEvaluator, p: string, names: seq<string>, event: Event)
    requires forall i :: 0 <= i < |names| ==> rule.lib.matchPattern(p, names[i]).Some?
    ensures OneOf(rule, Some(p), names, event) == OneOf(rule, None, Chosen(rule.lib, p, names), event)
    ensures AllOf(rule, Some(p), names, event) == AllOf(rule, None, Chosen(rule.lib, p, names), event)
    decreases |names|
  {
    if |names| > 0 {
      var rest := names[1..];
      PatternSelects(rule, p, rest, event);
      SelectionsTail(rule, Some(p), names, false, event);
      SelectionsTail(rule, Some(p), names, true, event);
      var chosen := Chosen(rule.lib, p, names);
      if rule.lib.matchPattern(p, names[0]) == Some(true) {
        assert chosen[1..] == Chosen(rule.lib, p, rest);
        SelectionsTail(rule, None, chosen, false, event);
        SelectionsTail(rule, None, chosen, true, event);
      }
    }
  }

  lemma SameOutcomes(rule: RuleEvaluator, pattern: Option<string>, names: seq<string>, other: seq<string>, skip: bool, event: Event)
    requires forall name :: name in names <==> name in other
    ensures forall r :: r in Selections(rule, pattern, names, skip, event) <==> r in Selections(rule, pattern, other, skip, event)
  {
    var rs, ss := Selections(rule, pattern, names, skip, event), Selections(rule, pattern, other, skip, event);
    forall r | r in rs
      ensures r in ss
    {
      var i :| 0 <= i < |rs| && rs[i] == r;
      assert names[i] in other;
      var j :| 0 <= j < |other| && other[j] == names[i];
      assert ss[j] == r;
    }
    forall r | r in ss
      ensures r in rs
    {
      var j :| 0 <= j < |ss| && ss[j] == r;
      assert other[j] in names;
      var i :| 0 <= i < |names| && names[i] == other[j];
      assert rs[i] == r;
    }
  }

  /**
   * The order the table is walked in never changes a boolean answer: any two
   * enumerations of the same names that both yield a boolean yield the same one.
   */
  lemma OrderIrrelevant(rule: RuleEvaluator, pattern: Option<string>, names: seq<string>, other: seq<string>, event: Event)
    requires forall name :: name in names <==> name in other
    ensures OneOf(rule, pattern, names, event).Ok? && OneOf(rule, pattern, other, event).Ok? ==>
      OneOf(rule, pattern, names, event) == OneOf(rule, pattern, other, event)
    ensures AllOf(rule, pattern, names, event).Ok? && AllOf(rule, pattern, other, event).Ok? ==>
      AllOf(rule, pattern, names, event) == AllOf(rule, pattern, other, event)
  {
    SameOutcomes(rule, pattern, names, other, false, event);
    SameOutcomes(rule, pattern, names, other, true, event);
    if OneOf(rule, pattern, names, event).Ok? && OneOf(rule, pattern, other, event).Ok? {
      DisjoinOrderIrrelevant(Selections(rule, pattern, names, false, event), Selections(rule, pattern, other, false, event));
    }
    if AllOf(rule, pattern, names, event).Ok? && AllOf(rule, pattern, other, event).Ok? {
      ConjoinOrderIrrelevant(Selections(rule, pattern, names, true, event), Selections(rule, pattern, other, true, event));
    }
  }

  /**
   * Whether a rule error surfaces can depend on the order: with a keyword
   * search and a search that holds, `1 of them` is true when the good one
   * comes first and an error when the bad one does.
   */
  lemma ErrorDependsOnOrder(lib: Library, event: Event)
    ensures OneOf(RuleEvaluator(map["bad" := Search(["kw"], []), "good" := Search([], [])], map[], lib), None, ["good", "bad"], event) == Ok(true)
    ensures OneOf(RuleEvaluator(map["bad" := Search(["kw"], []), "good" := Search([], [])], map[], lib), None, ["bad", "good"], event) == Err(KeywordsUnsupported)
  {
    var rule := RuleEvaluator(map["bad" := Search(["kw"], []), "good" := Search([], [])], map[], lib);
    assert Identifier(rule, "good", event) == Ok(true);
    assert Identifier(rule, "bad", event) == Err(KeywordsUnsupported);
    DisjoinFirstDecides(Selections(rule, None, ["good", "bad"], false, event), 0);
    DisjoinFirstDecides(Selections(rule, None, ["bad", "good"], false, event), 0);
  }

  /**
   * A glob that selects exactly two searches: `1 of` is false exactly when
   * both are, and true only when one of them is; the searches it skips are
   * never consulted.
   */
  lemma TwoSelected(rule: RuleEvaluator, p: string, a: string, b: string, event: Event)
    requires a in rule.searches && b in rule.searches
    requires rule.lib.matchPattern(p, a) == Some(true) && rule.lib.matchPattern(p, b) == Some(true)
    requires forall name :: name in rule.searches && name != a && name != b ==> rule.lib.matchPattern(p, name) == Some(false)
    ensures EvalExpr(rule, OneOfPattern(p), event) == Ok(false) <==>
      Identifier(rule, a, event) == Ok(false) && Identifier(rule, b, event) == Ok(false)
    ensures EvalExpr(rule, OneOfPattern(p), event) == Ok(true) ==>
      Identifier(rule, a, event) == Ok(true) || Identifier(rule, b, event) == Ok(true)
  {
    var rs := Selections(rule, Some(p), Enumeration(rule), false, event);
    TwoSelectedOutcomes(rule, p, a, b, event);
    DisjoinOfTwo(rs, Identifier(rule, a, event), Identifier(rule, b, event));
    OneOfPatternOutcomes(rule, p, event);
  }

  lemma OneOfPatternOutcomes(rule: RuleEvaluator, p: string, event: Event)
    ensures EvalExpr(rule, OneOfPattern(p), event) == Disjoin(Selections(rule, Some(p), Enumeration(rule), false, event))
  {
  }

  lemma TwoSelectedOutcomes(rule: RuleEvaluator, p: string, a: string, b: string, event: Event)
    requires a in rule.searches && b in rule.searches
    requires rule.lib.matchPattern(p, a) == Some(true) && rule.lib.matchPattern(p, b) == Some(true)
    requires forall name :: name in rule.searches && name != a && name != b ==> rule.lib.matchPattern(p, name) == Some(false)
    ensures var rs := Selections(rule, Some(p), Enumeration(rule), false, event);
      Identifier(rule, a, event) in rs && Identifier(rule, b, event) in rs &&
      forall i :: 0 <= i < |rs| ==> rs[i] in {Identifier(rule, a, event), Identifier(rule, b, event), Ok(false)}
  {
    var names := Enumeration(rule);
    var rs := Selections(rule, Some(p), names, false, event);
    var ia :| 0 <= ia < |names| && names[ia] == a;
    var ib :| 0 <= ib < |names| && names[ib] == b;
    assert rs[ia] == Identifier(rule, a, event);
    assert rs[ib] == Identifier(rule, b, event);
    assert forall i :: 0 <= i < |rs| ==> names[i] in rule.searches;
  }

  lemma DisjoinOfTwo(rs: seq<Result<bool>>, x: Result<bool>, y: Result<bool>)
    requires x in rs && y in rs
    requires forall i :: 0 <= i < |rs| ==> rs[i] in {x, y, Ok(false)}
    ensures Disjoin(rs) == Ok(false) <==> x == Ok(false) && y == Ok(false)
    ensures Disjoin(rs) == Ok(true) ==> x == Ok(true) || y == Ok(true)
  {
    DisjoinFalse(rs);
    DisjoinPicks(rs);
  }

  /** The same for `1 of net_*` over the searches net_a, net_b and other_c. */
  lemma NetPatternExample(rule: RuleEvaluator, event: Event)
    requires rule.searches.Keys == {"net_a", "net_b", "other_c"}
    requires rule.lib.matchPattern("net_*", "net_a") == Some(true)
    requires rule.lib.matchPattern("net_*", "net_b") == Some(true)
    requires rule.lib.matchPattern("net_*", "other_c") == Some(false)
    ensures EvalExpr(rule, OneOfPattern("net_*"), event) == Ok(false) <==>
      Identifier(rule, "net_a", event) == Ok(false) && Identifier(rule, "net_b", event) == Ok(false)
  {
    assert "net_a" in rule.searches.Keys && "net_b" in rule.searches.Keys;
    TwoSelected(rule, "net_*", "net_a", "net_b", event);
  }
}
