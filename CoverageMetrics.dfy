/** `CoverageMetrics`: an immutable covered/total pair, the unit every
    coverage total is built from. */
module Metrics {

  /** Any pair is accepted; `covered <= total` is expected of the input
      but not enforced. */
  datatype CoverageMetrics = CoverageMetrics(covered: int, total: int)

  /** `CoverageMetrics.Empty`. */
  const EMPTY: CoverageMetrics := CoverageMetrics(0, 0)

  /** The shape well-formed coverage data has. */
  predicate WellFormed(m: CoverageMetrics) {
    0 <= m.covered <= m.total
  }

  /** `Rate`: covered / total, and 0 rather than a division by zero. */
  function Rate(m: CoverageMetrics): real {
    if m.total > 0 then m.covered as real / m.total as real else 0.0
  }

  /** The rate times the total is the covered count; with no total the rate
      is 0; a well-formed pair has a rate between 0 and 1. */
  lemma RateMeaning(m: CoverageMetrics)
    ensures m.total > 0 ==> Rate(m) * m.total as real == m.covered as real
    ensures m.total <= 0 ==> Rate(m) == 0.0
    ensures WellFormed(m) ==> 0.0 <= Rate(m) <= 1.0
  {
    if m.total > 0 && WellFormed(m) {
      assert m.covered as real <= m.total as real;
    }
  }

  /** `rate` is what a covered/total pair means: rate × total is the covered
      count, and with no positive total the rate is 0. */
  predicate Explains(rate: real, m: CoverageMetrics) {
    if m.total > 0 then rate * m.total as real == m.covered as real else rate == 0.0
  }

  lemma RateExplains(m: CoverageMetrics)
    ensures Explains(Rate(m), m)
  {
    RateMeaning(m);
  }

  /** `operator +`: a new value; its operands are values and stay as they are. */
  function Add(a: CoverageMetrics, b: CoverageMetrics): (r: CoverageMetrics)
    ensures WellFormed(a) && WellFormed(b) ==> WellFormed(r)
  {
    CoverageMetrics(a.covered + b.covered, a.total + b.total)
  }

  lemma EmptyIsIdentity(m: CoverageMetrics)
    ensures Add(EMPTY, m) == m && Add(m, EMPTY) == m
  {
  }

  lemma AddCommutes(a: CoverageMetrics, b: CoverageMetrics)
    ensures Add(a, b) == Add(b, a)
  {
  }

  lemma AddAssociates(a: CoverageMetrics, b: CoverageMetrics, c: CoverageMetrics)
    ensures Add(Add(a, b), c) == Add(a, Add(b, c))
  {
  }

  /** `ms.Aggregate(Empty, (acc, m) => acc + m)`: a left fold from `EMPTY`. */
  function Sum(ms: seq<CoverageMetrics>): CoverageMetrics {
    if |ms| == 0 then EMPTY else Add(Sum(ms[..|ms| - 1]), ms[|ms| - 1])
  }

  /** Folding well-formed metrics gives a well-formed total. */
  lemma {:induction false} SumWellFormed(ms: seq<CoverageMetrics>)
    requires forall i :: 0 <= i < |ms| ==> WellFormed(ms[i])
    ensures WellFormed(Sum(ms))
  {
    if |ms| > 0 {
      SumWellFormed(ms[..|ms| - 1]);
    }
  }

  /** Folding a concatenation is adding the folds of its parts. */
  lemma {:induction false} SumAppend(a: seq<CoverageMetrics>, b: seq<CoverageMetrics>)
    ensures Sum(a + b) == Add(Sum(a), Sum(b))
    decreases |b|
  {
    if |b| == 0 {
      assert a + b == a;
    } else {
      var init, last := b[..|b| - 1], b[|b| - 1];
      assert (a + b)[..|a + b| - 1] == a + init;
      assert (a + b)[|a + b| - 1] == last;
      SumAppend(a, init);
      calc {
        Sum(a + b);
        Add(Sum(a + init), last);
        Add(Add(Sum(a), Sum(init)), last);
        { AddAssociates(Sum(a), Sum(init), last); }
        Add(Sum(a), Add(Sum(init), last));
        Add(Sum(a), Sum(b));
      }
    }
  }

  lemma SumOne(m: CoverageMetrics)
    ensures Sum([m]) == m
  {
    assert [m][..0] == [];
  }

  /** Taking one element out of a fold and adding it back gives the same total. */
  lemma SumRemove(b: seq<CoverageMetrics>, k: nat)
    requires k < |b|
    ensures Sum(b) == Add(Sum(b[..k] + b[k + 1..]), b[k])
  {
    var pre, x, post := b[..k], b[k], b[k + 1..];
    assert b[k..] == [x] + post;
    assert b == pre + b[k..];
    SumAppend(pre, [x] + post);
    SumAppend([x], post);
    SumOne(x);
    SumAppend(pre, post);
  }

  /** Where the last element of `a` sits in its permutation `b`, and what
      is left of both once it is taken out. */
  lemma MatchLast<T>(a: seq<T>, b: seq<T>) returns (k: nat)
    requires |a| > 0 && multiset(a) == multiset(b)
    ensures k < |b| && b[k] == a[|a| - 1]
    ensures multiset(a[..|a| - 1]) == multiset(b[..k] + b[k + 1..])
  {
    var x := a[|a| - 1];
    assert a == a[..|a| - 1] + [x];
    assert x in multiset(b);
    k :| 0 <= k < |b| && b[k] == x;
    RemoveAt(b, k);
  }

  lemma RemoveAt<T>(b: seq<T>, k: nat)
    requires k < |b|
    ensures multiset(b[..k] + b[k + 1..]) == multiset(b) - multiset{b[k]}
  {
    assert b == b[..k] + [b[k]] + b[k + 1..];
  }

  /** The fold does not depend on the order of its elements. */
  lemma {:induction false} SumPermutation(a: seq<CoverageMetrics>, b: seq<CoverageMetrics>)
    requires multiset(a) == multiset(b)
    ensures Sum(a) == Sum(b)
    decreases |a|
  {
    if |a| == 0 {
      assert |b| == |multiset(b)| == 0;
    } else {
      var k := MatchLast(a, b);
      SumPermutation(a[..|a| - 1], b[..k] + b[k + 1..]);
      SumRemove(b, k);
    }
  }
}
