/**
 * The comparator chain of a field matcher. A comparator decides whether an
 * actual event value satisfies one expected string. The chain starts from
 * exact equality of the value's `%v` form and each modifier, in the order
 * written, wraps the comparator built so far. `contains`, `startswith` and
 * `endswith` build a test of their own and drop the comparator they are
 * given; only `base64` keeps it, handing it the base64 text of the expected
 * value.
 */
module Comparators {
  import opened Results
  import opened Text
  import opened Values
  import opened Base64

  /** A comparator, with the wrapped comparator kept only where the source keeps it. */
  datatype Comparator =
    | Equal                      // baseComparator
    | Substring                  // contains
    | Suffix                     // endswith
    | Prefix                     // startswith
    | Base64Of(next: Comparator) // base64, delegating to `next`

  /** Whether comparator `c` accepts `actual` for the expected value `expected`. */
  function Compare(c: Comparator, actual: Value, expected: string): bool {
    match c
    case Equal => ToString(actual) == expected
    case Substring => Contains(ToString(actual), expected)
    case Suffix => HasSuffix(ToString(actual), expected)
    case Prefix => HasPrefix(ToString(actual), expected)
    case Base64Of(next) => Compare(next, actual, EncodeString(expected))
  }

  /** The names the modifier registry holds. */
  predicate IsModifier(name: string) {
    name == "contains" || name == "endswith" || name == "startswith" || name == "base64"
  }

  /** `modifiers[name](next)`; an unregistered name is a rule-definition error. */
  function ApplyModifier(name: string, next: Comparator): (r: Result<Comparator>)
    ensures r.Ok? <==> IsModifier(name)
    ensures r.Err? ==> r.error == UnknownModifier(name)
  {
    if name == "contains" then Ok(Substring)
    else if name == "endswith" then Ok(Suffix)
    else if name == "startswith" then Ok(Prefix)
    else if name == "base64" then Ok(Base64Of(next))
    else Err(UnknownModifier(name))
  }

  /** Folds the modifiers, first to last, over the comparator `c`; stops at the first unknown one. */
  function Fold(c: Comparator, names: seq<string>): Result<Comparator>
    decreases |names|
  {
    if |names| == 0 then Ok(c)
    else
      match ApplyModifier(names[0], c)
      case Err(e) => Err(e)
      case Ok(c') => Fold(c', names[1..])
  }

  /** The comparator a field's modifiers build over the base comparator. */
  function BuildComparator(names: seq<string>): Result<Comparator> {
    Fold(Equal, names)
  }

  /**
   * An independent reading of a modifier list from its outermost (last)
   * modifier inwards: a trailing `base64` re-encodes the expected value for
   * the list before it, a trailing `contains`, `endswith` or `startswith`
   * decides alone, and the empty list is equality.
   */
  predicate Accepts(names: seq<string>, actual: Value, expected: string)
    requires forall i :: 0 <= i < |names| ==> IsModifier(names[i])
  {
    if |names| == 0 then ToString(actual) == expected
    else
      var last := names[|names| - 1];
      if last == "base64" then Accepts(names[..|names| - 1], actual, EncodeString(expected))
      else if last == "contains" then Contains(ToString(actual), expected)
      else if last == "endswith" then HasSuffix(ToString(actual), expected)
      else HasPrefix(ToString(actual), expected)
  }

  lemma {:induction false} FoldAppend(c: Comparator, names: seq<string>, name: string)
    requires Fold(c, names).Ok?
    ensures Fold(c, names + [name]) == ApplyModifier(name, Fold(c, names).value)
    decreases |names|
  {
    if |names| > 0 {
      assert (names + [name])[1..] == names[1..] + [name];
      FoldAppend(ApplyModifier(names[0], c).value, names[1..], name);
    }
  }

  /** Building succeeds exactly when every modifier is registered. */
  lemma {:induction false} FoldSucceeds(c: Comparator, names: seq<string>)
    ensures Fold(c, names).Ok? <==> forall i :: 0 <= i < |names| ==> IsModifier(names[i])
    decreases |names|
  {
    if |names| > 0 {
      if IsModifier(names[0]) {
        FoldSucceeds(ApplyModifier(names[0], c).value, names[1..]);
        assert forall i :: 1 <= i < |names| ==> names[i] == names[1..][i - 1];
      }
    }
  }

  /** The error names the first unregistered modifier; the ones after it are never looked up. */
  lemma {:induction false} FoldFailsAtFirstUnknown(c: Comparator, names: seq<string>, k: nat)
    requires k < |names| && !IsModifier(names[k])
    requires forall i :: 0 <= i < k ==> IsModifier(names[i])
    ensures Fold(c, names) == Err(UnknownModifier(names[k]))
    decreases k
  {
    if k > 0 {
      FoldFailsAtFirstUnknown(ApplyModifier(names[0], c).value, names[1..], k - 1);
    }
  }

  /** The built comparator behaves as the outermost-first reading says. */
  lemma {:induction false} BuildComparatorMeaning(names: seq<string>, actual: Value, expected: string)
    requires BuildComparator(names).Ok?
    ensures forall i :: 0 <= i < |names| ==> IsModifier(names[i])
    ensures Compare(BuildComparator(names).value, actual, expected) <==> Accepts(names, actual, expected)
    decreases |names|
  {
    FoldSucceeds(Equal, names);
    if |names| > 0 {
      var init, last := names[..|names| - 1], names[|names| - 1];
      assert init + [last] == names;
      FoldSucceeds(Equal, init);
      FoldAppend(Equal, init, last);
      var inner := BuildComparator(init).value;
      assert BuildComparator(names) == ApplyModifier(last, inner);
      if last == "base64" {
        BuildComparatorMeaning(init, actual, EncodeString(expected));
        assert Accepts(names, actual, expected) == Accepts(init, actual, EncodeString(expected));
      } else {
        TerminalMeaning(names, inner, actual, expected);
      }
    }
  }

  /** A trailing `contains`, `endswith` or `startswith` decides alone, whatever it wraps. */
  lemma TerminalMeaning(names: seq<string>, inner: Comparator, actual: Value, expected: string)
    requires |names| > 0 && forall i :: 0 <= i < |names| ==> IsModifier(names[i])
    requires names[|names| - 1] != "base64"
    ensures Compare(ApplyModifier(names[|names| - 1], inner).value, actual, expected) <==> Accepts(names, actual, expected)
  {
  }

  /**
   * A `contains`, `endswith` or `startswith` makes every modifier before it
   * irrelevant: the list behaves as its suffix starting at that modifier.
   */
  lemma {:induction false} TerminalDiscardsEarlier(before: seq<string>, terminal: string, after: seq<string>)
    requires terminal == "contains" || terminal == "endswith" || terminal == "startswith"
    requires BuildComparator(before).Ok?
    ensures BuildComparator(before + [terminal] + after) == BuildComparator([terminal] + after)
  {
    FoldThrough(Equal, before, [terminal] + after);
    assert before + [terminal] + after == before + ([terminal] + after);
  }

  lemma {:induction false} FoldThrough(c: Comparator, first: seq<string>, second: seq<string>)
    requires Fold(c, first).Ok?
    ensures Fold(c, first + second) == Fold(Fold(c, first).value, second)
    decreases |first|
  {
    if |first| > 0 {
      var step := ApplyModifier(first[0], c);
      assert step.Ok? && Fold(c, first) == Fold(step.value, first[1..]);
      assert (first + second)[0] == first[0];
      assert (first + second)[1..] == first[1..] + second;
      FoldThrough(step.value, first[1..], second);
    } else {
      assert first + second == second;
    }
  }

  /** `contains|base64` on "secret" looks for "c2VjcmV0". */
  lemma ContainsBase64OfSecret(v: string)
    ensures BuildComparator(["contains", "base64"]) == Ok(Base64Of(Substring))
    ensures Compare(Base64Of(Substring), Str(v), "secret") <==> Contains(v, "c2VjcmV0")
  {
    ContainsThenBase64();
    EncodeSecret();
    ContainsBase64Of(Str(v), "secret");
  }

  /** `contains|base64` looks for the base64 text of the expected value anywhere in the printed value. */
  lemma ContainsBase64Of(actual: Value, expected: string)
    ensures Compare(Base64Of(Substring), actual, expected) <==> Contains(ToString(actual), EncodeString(expected))
  {
  }

  lemma ContainsThenBase64()
    ensures BuildComparator(["contains", "base64"]) == Ok(Base64Of(Substring))
  {
    var names := ["contains", "base64"];
    assert names[1..] == ["base64"];
    assert names[1..][1..] == [];
    assert Fold(Equal, names) == Fold(Substring, ["base64"]);
    assert Fold(Substring, ["base64"]) == Fold(Base64Of(Substring), []);
  }

  /** With no modifier a string value matches exactly itself. */
  lemma EqualOnStrings(s: string, expected: string)
    ensures BuildComparator([]) == Ok(Equal)
    ensures Compare(Equal, Str(s), expected) <==> s == expected
  {
  }

  /**
   * Equality on numbers goes through `%v`: a Go integer always equals its
   * decimal text, a decoded JSON number (a float64) only below 1e6 in
   * magnitude, since from there on it prints in exponent form.
   */
  lemma EqualOnNumbers(n: int)
    ensures Compare(Equal, Int(n), IntToString(n))
    ensures Compare(Equal, Num(n), IntToString(n)) <==> -1000000 < n < 1000000
  {
    FloatAsInteger(n);
  }
}
