/** String operations the coverage engine relies on: ordinal and
    ASCII case-insensitive substring and suffix tests, the last index of a
    character, and the number parsing done by `long.TryParse` and
    `double.TryParse` on attribute values. */
module Text {
  import opened Wrappers

  // ---------------------------------------------------------------------
  // Case folding (the model of StringComparison.OrdinalIgnoreCase)
  // ---------------------------------------------------------------------

  /** ASCII upper-case letters become lower case; every other character is kept. */
  function Lower(c: char): char {
    if 'A' <= c <= 'Z' then (c as int + 32) as char else c
  }

  function Fold(s: string): string {
    seq(|s|, i requires 0 <= i < |s| => Lower(s[i]))
  }

  /** Folding a folded string changes nothing. */
  lemma FoldIdempotent(s: string)
    ensures Fold(Fold(s)) == Fold(s)
  {
    assert forall i :: 0 <= i < |s| ==> Lower(Lower(s[i])) == Lower(s[i]);
  }

  // ---------------------------------------------------------------------
  // Substrings and suffixes
  // ---------------------------------------------------------------------

  predicate StartsWith(s: string, p: string) {
    |p| <= |s| && s[..|p|] == p
  }

  /** `p` occurs in `s` at index `i`. */
  predicate OccursAt(s: string, p: string, i: int) {
    0 <= i && i + |p| <= |s| && s[i..i + |p|] == p
  }

  /** Ordinal `String.Contains(string)`. */
  predicate Contains(s: string, p: string)
    decreases |s|
  {
    StartsWith(s, p) || (|s| > 0 && Contains(s[1..], p))
  }

  /** An ordinal suffix test. `String.EndsWith(string)` without a
      `StringComparison` compares by the current culture instead; this
      model reads it ordinally. */
  predicate EndsWith(s: string, p: string) {
    |p| <= |s| && s[|s| - |p|..] == p
  }

  /** `String.Contains(p, StringComparison.OrdinalIgnoreCase)`. */
  predicate ContainsIgnoreCase(s: string, p: string) {
    Contains(Fold(s), Fold(p))
  }

  /** `String.EndsWith(p, StringComparison.OrdinalIgnoreCase)`. */
  predicate EndsWithIgnoreCase(s: string, p: string) {
    EndsWith(Fold(s), Fold(p))
  }

  /** The recursive substring test finds exactly the occurrences of `p` in `s`. */
  lemma {:induction false} ContainsIffOccurs(s: string, p: string)
    ensures Contains(s, p) <==> exists i :: OccursAt(s, p, i)
    decreases |s|
  {
    if Contains(s, p) {
      if StartsWith(s, p) {
        assert OccursAt(s, p, 0);
      } else {
        ContainsIffOccurs(s[1..], p);
        var i :| OccursAt(s[1..], p, i);
        assert s[1..][i..i + |p|] == s[i + 1..i + 1 + |p|];
        assert OccursAt(s, p, i + 1);
      }
    }
    if exists i :: OccursAt(s, p, i) {
      var i :| OccursAt(s, p, i);
      if i > 0 {
        assert s[1..][i - 1..i - 1 + |p|] == s[i..i + |p|];
        assert OccursAt(s[1..], p, i - 1);
        ContainsIffOccurs(s[1..], p);
      } else {
        assert StartsWith(s, p);
      }
    }
  }

  /** An ordinal match is also a case-insensitive match (not conversely). */
  lemma ContainsImpliesIgnoreCase(s: string, p: string)
    requires Contains(s, p)
    ensures ContainsIgnoreCase(s, p)
  {
    ContainsIffOccurs(s, p);
    var i :| OccursAt(s, p, i);
    assert Fold(s)[i..i + |p|] == Fold(p);
    assert OccursAt(Fold(s), Fold(p), i);
    ContainsIffOccurs(Fold(s), Fold(p));
  }

  /** Both exact-case tests imply their case-insensitive counterparts. */
  lemma ExactCaseMatches(s: string, p: string)
    ensures Contains(s, p) ==> ContainsIgnoreCase(s, p)
    ensures EndsWith(s, p) ==> EndsWithIgnoreCase(s, p)
  {
    if Contains(s, p) {
      ContainsImpliesIgnoreCase(s, p);
    }
    if EndsWith(s, p) {
      EndsWithImpliesIgnoreCase(s, p);
    }
  }

  /** An ordinal suffix is also a case-insensitive suffix (not conversely). */
  lemma EndsWithImpliesIgnoreCase(s: string, p: string)
    requires EndsWith(s, p)
    ensures EndsWithIgnoreCase(s, p)
  {
    assert Fold(s)[|s| - |p|..] == Fold(p);
  }

  // ---------------------------------------------------------------------
  // Splitting a dotted name at its last '.'
  // ---------------------------------------------------------------------

  /** `String.LastIndexOf(char)`: the index of the last `c` in `s`, or -1. */
  function LastIndexOf(s: string, c: char): (r: int)
    ensures -1 <= r < |s|
    ensures r >= 0 ==> s[r] == c
  {
    if |s| == 0 then -1
    else if s[|s| - 1] == c then |s| - 1
    else LastIndexOf(s[..|s| - 1], c)
  }

  /** -1 means there is no `c`; otherwise no `c` follows the one found. */
  lemma {:induction false} LastIndexOfIsLast(s: string, c: char)
    ensures LastIndexOf(s, c) == -1 <==> c !in s
    ensures LastIndexOf(s, c) >= 0 ==> c !in s[LastIndexOf(s, c) + 1..]
  {
    if |s| > 0 && s[|s| - 1] != c {
      var init := s[..|s| - 1];
      LastIndexOfIsLast(init, c);
      assert s == init + [s[|s| - 1]];
      if LastIndexOf(s, c) >= 0 {
        assert s[LastIndexOf(s, c) + 1..] == init[LastIndexOf(s, c) + 1..] + [s[|s| - 1]];
      }
    }
  }

  /** The part of `s` before its last `c`, or "" when `s` has no `c`. */
  function BeforeLast(s: string, c: char): string {
    var k := LastIndexOf(s, c);
    if k < 0 then "" else s[..k]
  }

  /** `s.Split(c).Last()`: the part of `s` after its last `c`, or all of `s`. */
  function AfterLast(s: string, c: char): string {
    var k := LastIndexOf(s, c);
    if k < 0 then s else s[k + 1..]
  }

  /** A name containing `c` is the part before the last `c`, then `c`, then
      the part after it, and that last part holds no `c`. */
  lemma SplitAtLast(s: string, c: char)
    ensures c !in AfterLast(s, c)
    ensures c in s ==> s == BeforeLast(s, c) + [c] + AfterLast(s, c)
    ensures c !in s ==> BeforeLast(s, c) == [] && AfterLast(s, c) == s
  {
    LastIndexOfIsLast(s, c);
    var k := LastIndexOf(s, c);
    if k >= 0 {
      assert s == s[..k] + [c] + s[k + 1..];
    }
  }

  /** `String.IndexOf(char, from)`: the index of the first `c` in `s` at
      or after `from`, or -1. */
  function IndexOf(s: string, c: char, from: nat): (r: int)
    ensures r == -1 || from <= r < |s|
    ensures r >= 0 ==> s[r] == c
    decreases |s| - from
  {
    if from >= |s| then -1
    else if s[from] == c then from
    else IndexOf(s, c, from + 1)
  }

  // ---------------------------------------------------------------------
  // Number parsing (the accepted forms are documented in README.md)
  // ---------------------------------------------------------------------

  predicate IsDigit(c: char) {
    '0' <= c <= '9'
  }

  /** The value of a string of decimal digits, most significant first
      (0 for ""), or None when some character is not a digit. */
  function DigitsValue(s: string): Option<nat> {
    if |s| == 0 then Some(0)
    else
      var last := s[|s| - 1];
      match DigitsValue(s[..|s| - 1])
      case None => None
      case Some(v) => if IsDigit(last) then Some(v * 10 + (last as int - '0' as int)) else None
  }

  /** Digit strings are exactly the strings with a value. */
  lemma {:induction false} DigitsValueDefined(s: string)
    ensures DigitsValue(s).Some? <==> forall i :: 0 <= i < |s| ==> IsDigit(s[i])
  {
    if |s| > 0 {
      var init := s[..|s| - 1];
      DigitsValueDefined(init);
      assert forall i :: 0 <= i < |init| ==> init[i] == s[i];
    }
  }

  function Pow10(n: nat): (r: nat)
    ensures r >= 1
  {
    if n == 0 then 1 else 10 * Pow10(n - 1)
  }

  /** Where the digits of a numeral start: after a leading sign, if any. */
  function DigitsStart(s: string): nat {
    if |s| > 0 && (s[0] == '-' || s[0] == '+') then 1 else 0
  }

  /** `long.TryParse` on an optional sign followed by one or more decimal digits. */
  function ParseInteger(s: string): Option<int> {
    var start := DigitsStart(s);
    if start == |s| then None
    else
      match DigitsValue(s[start..])
      case None => None
      case Some(v) => Some(if s[0] == '-' then -(v as int) else v)
  }

  /** `double.TryParse` on an optional sign, then digits with at most one
      '.', and at least one digit in all. */
  function ParseReal(s: string): Option<real> {
    var start := DigitsStart(s);
    var dot := IndexOf(s, '.', start);
    var whole := if dot < 0 then s[start..] else s[start..dot];
    var fraction := if dot < 0 then "" else s[dot + 1..];
    if |whole| + |fraction| == 0 then None
    else
      match (DigitsValue(whole), DigitsValue(fraction))
      case (Some(w), Some(f)) =>
        var v := w as real + f as real / Pow10(|fraction|) as real;
        Some(if s[0] == '-' then -v else v)
      case _ => None
  }
}
