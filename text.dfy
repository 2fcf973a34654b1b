/**
 * String helpers shared by the evaluator: the prefix, suffix and substring
 * tests of Go's `strings` package, the byte-wise order Go uses for strings
 * (for code points it coincides with UTF-8 byte order), the sorted key
 * enumeration `fmt` uses for maps, and the `%v` text of integers and of
 * float64 values that hold an integer.
 */
module Text {

  /** strings.HasPrefix */
  predicate HasPrefix(s: string, prefix: string) {
    |prefix| <= |s| && s[..|prefix|] == prefix
  }

  /** strings.HasSuffix */
  predicate HasSuffix(s: string, suffix: string) {
    |suffix| <= |s| && s[|s| - |suffix|..] == suffix
  }

  /** strings.Contains: `sub` occurs in `s` at some offset. */
  predicate Contains(s: string, sub: string) {
    exists k | 0 <= k <= |s| :: HasPrefix(s[k..], sub)
  }

  /** `sub` occupies the window of `s` starting at offset `k`. */
  predicate OccursAt(s: string, sub: string, k: nat) {
    k + |sub| <= |s| && s[k..k + |sub|] == sub
  }

  /** `strings.Contains` holds exactly when `sub` occupies some window of `s`. */
  lemma ContainsAt(s: string, sub: string)
    ensures Contains(s, sub) <==> exists k: nat :: OccursAt(s, sub, k)
  {
    if Contains(s, sub) {
      var k :| 0 <= k <= |s| && HasPrefix(s[k..], sub);
      assert s[k..][..|sub|] == s[k..k + |sub|];
      assert OccursAt(s, sub, k);
    }
    if exists k: nat :: OccursAt(s, sub, k) {
      var k: nat :| OccursAt(s, sub, k);
      assert s[k..][..|sub|] == s[k..k + |sub|];
      assert HasPrefix(s[k..], sub);
    }
  }

  /** Lexicographic order on strings, as Go compares them. */
  predicate LessOrEqual(a: string, b: string) {
    |a| == 0 || (|b| > 0 && (a[0] < b[0] || (a[0] == b[0] && LessOrEqual(a[1..], b[1..]))))
  }

  lemma LessOrEqualTotal(a: string, b: string)
    ensures LessOrEqual(a, b) || LessOrEqual(b, a)
  {
  }

  lemma LessOrEqualAntisymmetric(a: string, b: string)
    requires LessOrEqual(a, b) && LessOrEqual(b, a)
    ensures a == b
  {
  }

  lemma LessOrEqualTransitive(a: string, b: string, c: string)
    requires LessOrEqual(a, b) && LessOrEqual(b, c)
    ensures LessOrEqual(a, c)
  {
  }

  predicate IsLeast(k: string, keys: set<string>) {
    k in keys && forall other :: other in keys ==> LessOrEqual(k, other)
  }

  lemma LeastExists(keys: set<string>)
    requires keys != {}
    ensures exists k :: IsLeast(k, keys)
  {
    var x :| x in keys;
    LessOrEqualTotal(x, x);
    if keys == {x} {
      assert IsLeast(x, keys);
    } else {
      LeastExists(keys - {x});
      var k :| IsLeast(k, keys - {x});
      LessOrEqualTotal(k, x);
      if LessOrEqual(k, x) {
        assert IsLeast(k, keys);
      } else {
        forall other | other in keys
          ensures LessOrEqual(x, other)
        {
          if other != x {
            LessOrEqualTransitive(x, k, other);
          }
        }
        assert IsLeast(x, keys);
      }
    }
  }

  lemma LeastUnique(keys: set<string>)
    ensures forall a, b :: IsLeast(a, keys) && IsLeast(b, keys) ==> a == b
  {
    forall a, b | IsLeast(a, keys) && IsLeast(b, keys)
      ensures a == b
    {
      LessOrEqualAntisymmetric(a, b);
    }
  }

  /** The keys of a map in ascending order, the order `fmt` prints them in. */
  function SortedKeys(keys: set<string>): (r: seq<string>)
    ensures |r| == |keys|
    ensures forall k :: k in r <==> k in keys
    decreases keys
  {
    if keys == {} then []
    else
      LeastExists(keys);
      LeastUnique(keys);
      var k :| IsLeast(k, keys);
      [k] + SortedKeys(keys - {k})
  }

  /** Strictly ascending, so no element appears twice. */
  predicate Ascending(s: seq<string>) {
    forall i, j :: 0 <= i < j < |s| ==> LessOrEqual(s[i], s[j]) && s[i] != s[j]
  }

  /** The keys come out strictly ascending. */
  lemma {:induction false} SortedKeysAscending(keys: set<string>)
    ensures Ascending(SortedKeys(keys))
    decreases keys
  {
    if keys != {} {
      LeastExists(keys);
      LeastUnique(keys);
      var k :| IsLeast(k, keys);
      var rest := SortedKeys(keys - {k});
      assert SortedKeys(keys) == [k] + rest;
      SortedKeysAscending(keys - {k});
      AscendingCons(k, rest);
    }
  }

  lemma AscendingCons(k: string, rest: seq<string>)
    requires Ascending(rest)
    requires forall x :: x in rest ==> LessOrEqual(k, x) && k != x
    ensures Ascending([k] + rest)
  {
    var r := [k] + rest;
    forall i, j | 0 <= i < j < |r|
      ensures LessOrEqual(r[i], r[j]) && r[i] != r[j]
    {
      assert r[j] == rest[j - 1];
      if i > 0 {
        assert r[i] == rest[i - 1];
      }
    }
  }

  function Digit(d: nat): char
    requires d < 10
  {
    "0123456789"[d]
  }

  /** Decimal rendering of a natural number, most significant digit first. */
  function NatToString(n: nat): (r: string)
    ensures |r| > 0
    ensures forall i :: 0 <= i < |r| ==> '0' <= r[i] <= '9'
  {
    if n < 10 then [Digit(n)] else NatToString(n / 10) + [Digit(n % 10)]
  }

  /** Decimal rendering of an integer, with a leading '-' when negative. */
  function IntToString(i: int): (r: string)
    ensures |r| > 0
  {
    if i < 0 then "-" + NatToString(-i) else NatToString(i)
  }

  /** `s` without its trailing zeros; the first character always stays. */
  function TrimZeros(s: string): (r: string)
    ensures |s| > 0 ==> 0 < |r| <= |s| && r == s[..|r|]
    ensures |r| > 1 ==> r[|r| - 1] != '0'
  {
    if |s| <= 1 || s[|s| - 1] != '0' then s else TrimZeros(s[..|s| - 1])
  }

  /** The significant digits as `%e` writes them: `d` or `d.ddd`. */
  function Mantissa(digits: string): string
    requires |digits| > 0
  {
    [digits[0]] + if |digits| > 1 then "." + digits[1..] else ""
  }

  /**
   * `%v` of a float64 that holds the integer `n`: the shortest digits, written
   * out in decimal while the decimal exponent is below 6 and as `d.ddde+XX`
   * (at least two exponent digits) from a magnitude of 1e6 upward.
   */
  function FloatToString(n: int): string {
    var magnitude := if n < 0 then -n else n;
    var sign := if n < 0 then "-" else "";
    if magnitude < 1000000 then sign + NatToString(magnitude)
    else
      var digits := NatToString(magnitude);
      var exponent := |digits| - 1;
      sign + Mantissa(TrimZeros(digits)) + "e+" + (if exponent < 10 then "0" else "") + NatToString(exponent)
  }

  /** A float64 prints like the integer it holds exactly when that integer is below 1e6 in magnitude. */
  lemma FloatAsInteger(n: int)
    ensures FloatToString(n) == IntToString(n) <==> -1000000 < n < 1000000
  {
    var magnitude := if n < 0 then -n else n;
    if magnitude >= 1000000 {
      var sign := if n < 0 then "-" else "";
      var digits := NatToString(magnitude);
      var mantissa := Mantissa(TrimZeros(digits));
      var r := FloatToString(n);
      assert r[|sign| + |mantissa|] == 'e';
    }
  }

  /** The parts separated by `sep`, as strings.Join. */
  function Join(parts: seq<string>, sep: string): string {
    if |parts| == 0 then ""
    else if |parts| == 1 then parts[0]
    else parts[0] + sep + Join(parts[1..], sep)
  }
}
