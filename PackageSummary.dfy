/** `PackageSummary`: a named, append-only list of class records with
    totals folded on demand. */
module Packages {
  import opened Metrics
  import opened ClassDetails

  /** The data of a package, as a value. */
  datatype PackageInfo = PackageInfo(name: string, classes: seq<ClassInfo>)

  class PackageSummary {
    const name: string
    var classes: seq<ClassDetail>

    constructor (name: string)
      ensures this.name == name && classes == []
    {
      this.name := name;
      classes := [];
    }

    /** `AddClass`: appends at the end; earlier classes and their order stay. */
    method AddClass(classDetail: ClassDetail)
      modifies this`classes
      ensures classes == old(classes) + [classDetail]
      ensures TotalLineCoverage() == Add(old(TotalLineCoverage()), classDetail.lineCoverage)
      ensures TotalBranchCoverage() == Add(old(TotalBranchCoverage()), classDetail.branchCoverage)
    {
      CoveragesAppend(classes, classDetail);
      classes := classes + [classDetail];
    }

    /** `TotalLineCoverage`: the line metrics of all classes, added up. */
    function TotalLineCoverage(): (r: CoverageMetrics)
      reads this
      ensures |classes| == 0 ==> r == EMPTY
      ensures (forall i :: 0 <= i < |classes| ==> WellFormed(classes[i].lineCoverage)) ==> WellFormed(r)
    {
      CoveragesWellFormed(classes);
      Sum(LineCoverages(classes))
    }

    /** `TotalBranchCoverage`: the branch metrics of all classes, added up. */
    function TotalBranchCoverage(): (r: CoverageMetrics)
      reads this
      ensures |classes| == 0 ==> r == EMPTY
      ensures (forall i :: 0 <= i < |classes| ==> WellFormed(classes[i].branchCoverage)) ==> WellFormed(r)
    {
      CoveragesWellFormed(classes);
      Sum(BranchCoverages(classes))
    }

    function View(): PackageInfo
      reads this
    {
      PackageInfo(name, Infos(classes))
    }
  }

  /** The totals do not depend on the order the classes were added in. */
  lemma {:induction false} TotalsIgnoreOrder(p: PackageSummary, q: PackageSummary)
    requires multiset(p.classes) == multiset(q.classes)
    ensures p.TotalLineCoverage() == q.TotalLineCoverage()
    ensures p.TotalBranchCoverage() == q.TotalBranchCoverage()
  {
    CoveragesIgnoreOrder(p.classes, q.classes);
  }

  lemma {:induction false} CoveragesIgnoreOrder(a: seq<ClassDetail>, b: seq<ClassDetail>)
    requires multiset(a) == multiset(b)
    ensures Sum(LineCoverages(a)) == Sum(LineCoverages(b))
    ensures Sum(BranchCoverages(a)) == Sum(BranchCoverages(b))
    decreases |a|
  {
    if |a| == 0 {
      assert |b| == |multiset(b)| == 0;
    } else {
      var init, x := a[..|a| - 1], a[|a| - 1];
      var k := MatchLast(a, b);
      var rest := b[..k] + b[k + 1..];
      CoveragesIgnoreOrder(init, rest);
      assert a == init + [x];
      CoveragesAppend(init, x);
      var lb, bb := LineCoverages(b), BranchCoverages(b);
      assert lb[..k] + lb[k + 1..] == LineCoverages(rest);
      assert bb[..k] + bb[k + 1..] == BranchCoverages(rest);
      SumRemove(lb, k);
      SumRemove(bb, k);
    }
  }

  /** The values of a sequence of packages. */
  function Views(ps: seq<PackageSummary>): seq<PackageInfo>
    reads ps
  {
    seq(|ps|, i reads ps requires 0 <= i < |ps| => ps[i].View())
  }

  lemma ViewsAppend(ps: seq<PackageSummary>, p: PackageSummary)
    ensures Views(ps + [p]) == Views(ps) + [p.View()]
  {
  }
}
