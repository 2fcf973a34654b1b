/**
 * Outcomes of evaluation. The Go evaluator panics on a rule that is
 * malformed; here every such panic is an explicit `Err` carrying the
 * kind of rule-definition error, so that "no match" and "bad rule" are
 * never confused.
 */
module Results {

  datatype Option<+T> = None | Some(value: T)

  /** The rule-definition errors the evaluator can raise. */
  datatype RuleError =
    | UnknownSearch(name: string)        // a SearchIdentifier naming no search
    | KeywordsUnsupported                // a search made of keywords
    | UnknownModifier(modifier: string)  // a modifier missing from the registry
    | BadPattern(pattern: string)        // a glob the path matcher rejects
    | UnparsableJsonPath(expr: string)   // a JSONPath whose top-level field cannot be found
    | UnknownNode                        // an expression node of no known kind

  datatype Result<+T> = Ok(value: T) | Err(error: RuleError) {

    predicate IsFailure() {
      Err?
    }

    function PropagateFailure<U>(): Result<U>
      requires Err?
    {
      Err(error)
    }

    function Extract(): T
      requires Ok?
    {
      value
    }
  }
}
