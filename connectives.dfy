/**
 * The short-circuiting connectives the evaluator is built from. Each
 * outcome is either a boolean or a rule error; a conjunction stops at the
 * first outcome that is not true, a disjunction at the first that is not
 * false, so an error after the deciding outcome is never reached.
 */
module Connectives {
  import opened Results

  /** Go's `for ... { if !x { return false } } return true`, with errors surfacing. */
  function Conjoin(rs: seq<Result<bool>>): Result<bool>
    decreases |rs|
  {
    if |rs| == 0 then Ok(true)
    else
      match rs[0]
      case Err(e) => Err(e)
      case Ok(b) => if b then Conjoin(rs[1..]) else Ok(false)
  }

  /** Go's `for ... { if x { return true } } return false`, with errors surfacing. */
  function Disjoin(rs: seq<Result<bool>>): Result<bool>
    decreases |rs|
  {
    if |rs| == 0 then Ok(false)
    else
      match rs[0]
      case Err(e) => Err(e)
      case Ok(b) => if b then Ok(true) else Disjoin(rs[1..])
  }

  /** Go's `!x`, with an error passed through. */
  function Negate(r: Result<bool>): Result<bool> {
    match r
    case Err(e) => Err(e)
    case Ok(b) => Ok(!b)
  }

  /** De Morgan, errors included: negating a conjunction is the disjunction of the negations. */
  lemma {:induction false} NegatedConjunction(rs: seq<Result<bool>>, ns: seq<Result<bool>>)
    requires |ns| == |rs| && forall i :: 0 <= i < |rs| ==> ns[i] == Negate(rs[i])
    ensures Negate(Conjoin(rs)) == Disjoin(ns)
    decreases |rs|
  {
    if |rs| > 0 {
      NegatedConjunction(rs[1..], ns[1..]);
    }
  }

  lemma BinaryOutcomes(x: Result<bool>, y: Result<bool>)
    ensures x.Ok? && y.Ok? ==> Conjoin([x, y]) == Ok(x.value && y.value) && Disjoin([x, y]) == Ok(x.value || y.value)
    ensures x == Ok(false) ==> Conjoin([x, y]) == Ok(false)
    ensures x == Ok(true) ==> Disjoin([x, y]) == Ok(true)
  {
    assert [x, y][1..] == [y];
    assert [y][1..] == [];
    assert Conjoin([y]) == (if y == Ok(true) then Ok(true) else y);
    assert Disjoin([y]) == (if y == Ok(false) then Ok(false) else y);
  }

  /** Walking a conjunction: a true outcome passes the decision on to the rest. */
  lemma ConjoinStep(rs: seq<Result<bool>>, i: nat)
    requires i < |rs| && rs[i] == Ok(true)
    ensures Conjoin(rs[i..]) == Conjoin(rs[i + 1..])
  {
    assert rs[i..][0] == rs[i] && rs[i..][1..] == rs[i + 1..];
  }

  /** Walking a conjunction: any other outcome decides it. */
  lemma ConjoinStop(rs: seq<Result<bool>>, i: nat)
    requires i < |rs| && rs[i] != Ok(true)
    ensures Conjoin(rs[i..]) == rs[i]
  {
    assert rs[i..][0] == rs[i];
  }

  /** A conjunction is true exactly when every outcome is true (so the empty one is). */
  lemma {:induction false} ConjoinTrue(rs: seq<Result<bool>>)
    ensures Conjoin(rs) == Ok(true) <==> forall i :: 0 <= i < |rs| ==> rs[i] == Ok(true)
    decreases |rs|
  {
    if |rs| > 0 {
      ConjoinTrue(rs[1..]);
      assert forall i :: 1 <= i < |rs| ==> rs[i] == rs[1..][i - 1];
    }
  }

  /** A disjunction is false exactly when every outcome is false (so the empty one is). */
  lemma {:induction false} DisjoinFalse(rs: seq<Result<bool>>)
    ensures Disjoin(rs) == Ok(false) <==> forall i :: 0 <= i < |rs| ==> rs[i] == Ok(false)
    decreases |rs|
  {
    if |rs| > 0 {
      DisjoinFalse(rs[1..]);
      assert forall i :: 1 <= i < |rs| ==> rs[i] == rs[1..][i - 1];
    }
  }

  /** The first outcome that is not true decides a conjunction: its false or its error. */
  lemma {:induction false} ConjoinFirstDecides(rs: seq<Result<bool>>, k: nat)
    requires k < |rs| && rs[k] != Ok(true)
    requires forall i :: 0 <= i < k ==> rs[i] == Ok(true)
    ensures Conjoin(rs) == rs[k]
    decreases k
  {
    if k > 0 {
      assert forall i :: 0 <= i < k - 1 ==> rs[1..][i] == rs[i + 1];
      ConjoinFirstDecides(rs[1..], k - 1);
    }
  }

  /** The first outcome that is not false decides a disjunction: its true or its error. */
  lemma {:induction false} DisjoinFirstDecides(rs: seq<Result<bool>>, k: nat)
    requires k < |rs| && rs[k] != Ok(false)
    requires forall i :: 0 <= i < k ==> rs[i] == Ok(false)
    ensures Disjoin(rs) == rs[k]
    decreases k
  {
    if k > 0 {
      assert forall i :: 0 <= i < k - 1 ==> rs[1..][i] == rs[i + 1];
      DisjoinFirstDecides(rs[1..], k - 1);
    }
  }

  /** Every result of a conjunction is one of its outcomes, or the true of the empty one. */
  lemma {:induction false} ConjoinPicks(rs: seq<Result<bool>>)
    ensures Conjoin(rs) == Ok(true) || exists i :: 0 <= i < |rs| && rs[i] == Conjoin(rs)
    decreases |rs|
  {
    if |rs| > 0 && rs[0] == Ok(true) {
      ConjoinPicks(rs[1..]);
      if Conjoin(rs) != Ok(true) {
        var i :| 0 <= i < |rs[1..]| && rs[1..][i] == Conjoin(rs[1..]);
        assert rs[i + 1] == Conjoin(rs);
      }
    }
  }

  /** Every result of a disjunction is one of its outcomes, or the false of the empty one. */
  lemma {:induction false} DisjoinPicks(rs: seq<Result<bool>>)
    ensures Disjoin(rs) == Ok(false) || exists i :: 0 <= i < |rs| && rs[i] == Disjoin(rs)
    decreases |rs|
  {
    if |rs| > 0 && rs[0] == Ok(false) {
      DisjoinPicks(rs[1..]);
      if Disjoin(rs) != Ok(false) {
        var i :| 0 <= i < |rs[1..]| && rs[1..][i] == Disjoin(rs[1..]);
        assert rs[i + 1] == Disjoin(rs);
      }
    }
  }

  /** Two enumerations of the same outcomes never give different booleans. */
  lemma ConjoinOrderIrrelevant(rs: seq<Result<bool>>, ss: seq<Result<bool>>)
    requires forall r :: r in rs <==> r in ss
    requires Conjoin(rs).Ok? && Conjoin(ss).Ok?
    ensures Conjoin(rs) == Conjoin(ss)
  {
    ConjoinTrue(rs);
    ConjoinTrue(ss);
    ConjoinPicks(rs);
    ConjoinPicks(ss);
    if Conjoin(rs) == Ok(false) {
      var i :| 0 <= i < |rs| && rs[i] == Ok(false);
      assert Ok(false) in ss;
    }
    if Conjoin(ss) == Ok(false) {
      var i :| 0 <= i < |ss| && ss[i] == Ok(false);
      assert Ok(false) in rs;
    }
  }

  lemma DisjoinOrderIrrelevant(rs: seq<Result<bool>>, ss: seq<Result<bool>>)
    requires forall r :: r in rs <==> r in ss
    requires Disjoin(rs).Ok? && Disjoin(ss).Ok?
    ensures Disjoin(rs) == Disjoin(ss)
  {
    DisjoinFalse(rs);
    DisjoinFalse(ss);
    DisjoinPicks(rs);
    DisjoinPicks(ss);
    if Disjoin(rs) == Ok(true) {
      var i :| 0 <= i < |rs| && rs[i] == Ok(true);
      assert Ok(true) in ss;
    }
    if Disjoin(ss) == Ok(true) {
      var i :| 0 <= i < |ss| && ss[i] == Ok(true);
      assert Ok(true) in rs;
    }
  }
}
