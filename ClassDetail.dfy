/** `ClassDetail`: one parsed class. Everything but the `isTarget` selection
    flag is fixed at construction, so those fields are `const`. */
module ClassDetails {
  import opened Metrics
  import Text

  /** The data a class record is built from, as a value. */
  datatype ClassInfo = ClassInfo(
    name: string,
    fullName: string,
    lineCoverage: CoverageMetrics,
    branchCoverage: CoverageMetrics,
    complexity: real)

  class ClassDetail {
    const name: string
    const fullName: string
    const lineCoverage: CoverageMetrics
    const branchCoverage: CoverageMetrics
    const complexity: real
    /** The only field a client may change after construction. */
    var isTarget: bool

    constructor (name: string, fullName: string, lineCoverage: CoverageMetrics,
                 branchCoverage: CoverageMetrics, complexity: real)
      ensures this.name == name && this.fullName == fullName
      ensures this.lineCoverage == lineCoverage && this.branchCoverage == branchCoverage
      ensures this.complexity == complexity
      ensures !isTarget
    {
      this.name := name;
      this.fullName := fullName;
      this.lineCoverage := lineCoverage;
      this.branchCoverage := branchCoverage;
      this.complexity := complexity;
      isTarget := false;
    }

    /** The `IsTarget` setter; the other fields are constants. */
    method SetIsTarget(value: bool)
      modifies this
      ensures isTarget == value
    {
      isTarget := value;
    }

    function Info(): ClassInfo {
      ClassInfo(name, fullName, lineCoverage, branchCoverage, complexity)
    }

    /** `Namespace`: the full name up to (not including) its last '.', or "". */
    function Namespace(): (r: string)
      ensures '.' !in fullName ==> r == ""
      ensures '.' in fullName ==>
        |r| < |fullName| && fullName[..|r| + 1] == r + "." && '.' !in fullName[|r| + 1..]
    {
      Text.SplitAtLast(fullName, '.');
      var r := Text.BeforeLast(fullName, '.');
      assert '.' in fullName ==> fullName == r + "." + Text.AfterLast(fullName, '.');
      r
    }
  }

  function LineCoverages(cs: seq<ClassDetail>): seq<CoverageMetrics> {
    seq(|cs|, i requires 0 <= i < |cs| => cs[i].lineCoverage)
  }

  function BranchCoverages(cs: seq<ClassDetail>): seq<CoverageMetrics> {
    seq(|cs|, i requires 0 <= i < |cs| => cs[i].branchCoverage)
  }

  function Infos(cs: seq<ClassDetail>): seq<ClassInfo> {
    seq(|cs|, i requires 0 <= i < |cs| => cs[i].Info())
  }

  lemma InfosAppend(cs: seq<ClassDetail>, c: ClassDetail)
    ensures Infos(cs + [c]) == Infos(cs) + [c.Info()]
  {
  }

  /** `cs.Where(f)`: the classes satisfying `f`, in their order in `cs`. */
  function Where(cs: seq<ClassDetail>, f: ClassDetail -> bool): seq<ClassDetail> {
    if |cs| == 0 then []
    else Where(cs[..|cs| - 1], f) + (if f(cs[|cs| - 1]) then [cs[|cs| - 1]] else [])
  }

  /** `Where` keeps exactly the classes of `cs` that satisfy `f`. */
  lemma {:induction false} WhereMembers(cs: seq<ClassDetail>, f: ClassDetail -> bool)
    ensures forall c :: c in Where(cs, f) <==> c in cs && f(c)
  {
    if |cs| > 0 {
      var init, last := cs[..|cs| - 1], cs[|cs| - 1];
      assert cs == init + [last];
      WhereMembers(init, f);
    }
  }

  /** Adding one class to a fold of line or branch metrics adds its metric. */
  lemma CoveragesAppend(cs: seq<ClassDetail>, c: ClassDetail)
    ensures Sum(LineCoverages(cs + [c])) == Add(Sum(LineCoverages(cs)), c.lineCoverage)
    ensures Sum(BranchCoverages(cs + [c])) == Add(Sum(BranchCoverages(cs)), c.branchCoverage)
  {
    assert LineCoverages(cs + [c]) == LineCoverages(cs) + [c.lineCoverage];
    assert BranchCoverages(cs + [c]) == BranchCoverages(cs) + [c.branchCoverage];
    SumAppend(LineCoverages(cs), [c.lineCoverage]);
    SumAppend(BranchCoverages(cs), [c.branchCoverage]);
    SumOne(c.lineCoverage);
    SumOne(c.branchCoverage);
  }

  /** Well-formed class metrics add up to well-formed totals. */
  lemma CoveragesWellFormed(cs: seq<ClassDetail>)
    ensures (forall i :: 0 <= i < |cs| ==> WellFormed(cs[i].lineCoverage)) ==> WellFormed(Sum(LineCoverages(cs)))
    ensures (forall i :: 0 <= i < |cs| ==> WellFormed(cs[i].branchCoverage)) ==> WellFormed(Sum(BranchCoverages(cs)))
  {
    if forall i :: 0 <= i < |cs| ==> WellFormed(cs[i].lineCoverage) {
      SumWellFormed(LineCoverages(cs));
    }
    if forall i :: 0 <= i < |cs| ==> WellFormed(cs[i].branchCoverage) {
      SumWellFormed(BranchCoverages(cs));
    }
  }

  /** The line total of a non-empty `cs` is that of all but its last
      class, plus the last class's line metrics. */
  lemma CoveragesLast(cs: seq<ClassDetail>)
    requires |cs| > 0
    ensures Sum(LineCoverages(cs)) == Add(Sum(LineCoverages(cs[..|cs| - 1])), cs[|cs| - 1].lineCoverage)
  {
    assert cs == cs[..|cs| - 1] + [cs[|cs| - 1]];
    CoveragesAppend(cs[..|cs| - 1], cs[|cs| - 1]);
  }

  /** The line total of `Where(cs, f)` grows by the last class of `cs`
      exactly when `f` keeps it. */
  lemma WhereLast(cs: seq<ClassDetail>, f: ClassDetail -> bool)
    requires |cs| > 0
    ensures var init, last := cs[..|cs| - 1], cs[|cs| - 1];
      Sum(LineCoverages(Where(cs, f))) ==
        if f(last) then Add(Sum(LineCoverages(Where(init, f))), last.lineCoverage)
        else Sum(LineCoverages(Where(init, f)))
  {
    var init, last := cs[..|cs| - 1], cs[|cs| - 1];
    if f(last) {
      CoveragesAppend(Where(init, f), last);
    } else {
      assert Where(cs, f) == Where(init, f);
    }
  }

  /** Two complementary filters split the line total of `cs` into two parts
      that add up to the whole. */
  lemma {:induction false} WhereSplitsLines(cs: seq<ClassDetail>, f: ClassDetail -> bool, g: ClassDetail -> bool)
    requires forall c :: g(c) == !f(c)
    ensures Add(Sum(LineCoverages(Where(cs, f))), Sum(LineCoverages(Where(cs, g)))) == Sum(LineCoverages(cs))
  {
    if |cs| > 0 {
      WhereSplitsLines(cs[..|cs| - 1], f, g);
      SplitStep(cs, f, g);
    }
  }

  /** The split survives adding the last class of `cs`. */
  lemma SplitStep(cs: seq<ClassDetail>, f: ClassDetail -> bool, g: ClassDetail -> bool)
    requires |cs| > 0
    requires g(cs[|cs| - 1]) == !f(cs[|cs| - 1])
    requires var init := cs[..|cs| - 1];
      Add(Sum(LineCoverages(Where(init, f))), Sum(LineCoverages(Where(init, g)))) == Sum(LineCoverages(init))
    ensures Add(Sum(LineCoverages(Where(cs, f))), Sum(LineCoverages(Where(cs, g)))) == Sum(LineCoverages(cs))
  {
    WhereLast(cs, f);
    WhereLast(cs, g);
    CoveragesLast(cs);
  }

  /** A filter that holds of no class keeps none of them. */
  lemma WhereNone(cs: seq<ClassDetail>, f: ClassDetail -> bool)
    ensures (forall c :: !f(c)) ==> Where(cs, f) == []
  {
  }

  /** A filter that holds of every class keeps all of them. */
  lemma {:induction false} WhereAll(cs: seq<ClassDetail>, f: ClassDetail -> bool)
    ensures (forall c :: f(c)) ==> Where(cs, f) == cs
  {
    if |cs| > 0 && forall c :: f(c) {
      assert cs == cs[..|cs| - 1] + [cs[|cs| - 1]];
      WhereAll(cs[..|cs| - 1], f);
    }
  }
}
