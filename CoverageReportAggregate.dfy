/** `CoverageReportAggregate`: the parse result. Packages are appended one
    by one; the total, core and controller line metrics are re-derived from
    the classes whenever they are asked for, or taken from "forced" values
    when the aggregate was rebuilt without its packages. */
module Reports {
  import opened Wrappers
  import opened Text
  import opened Metrics
  import opened ClassDetails
  import opened Packages

  /** The pattern a report gets when none is given. */
  const DEFAULT_EXCLUSION_PATTERN: string := ".Controller"

  /** The classifier rule: a class is excluded (a "controller") when the
      pattern is not empty and occurs in its full name, ignoring case. */
  predicate MatchesExclusion(pattern: string, fullName: string) {
    pattern != "" && ContainsIgnoreCase(fullName, pattern)
  }

  /** A name is excluded exactly when the pattern is not empty and, once both
      are case-folded, occurs in the name at some index. */
  lemma ExclusionRule(pattern: string, fullName: string)
    ensures MatchesExclusion(pattern, fullName) <==>
      pattern != "" && exists i :: OccursAt(Fold(fullName), Fold(pattern), i)
  {
    ContainsIffOccurs(Fold(fullName), Fold(pattern));
  }

  /** The filter `ControllerMetrics` passes to `GetTotalMetrics`. */
  function ExcludedFilter(pattern: string): ClassDetail -> bool {
    (c: ClassDetail) => MatchesExclusion(pattern, c.fullName)
  }

  /** The filter `CoreMetrics` passes to `GetTotalMetrics`. */
  function CoreFilter(pattern: string): ClassDetail -> bool {
    (c: ClassDetail) => !ExcludedFilter(pattern)(c)
  }

  /** With an empty pattern, the `CoreMetrics` filter keeps every class. */
  lemma EmptyPatternKeepsAll(cs: seq<ClassDetail>)
    ensures Where(cs, CoreFilter("")) == cs
  {
    forall c: ClassDetail
      ensures CoreFilter("")(c)
    {
      assert !ExcludedFilter("")(c);
    }
    WhereAll(cs, CoreFilter(""));
  }

  /** `packages.SelectMany(p => p.Classes)`: every class, package by package. */
  function Flatten(ps: seq<PackageSummary>): seq<ClassDetail>
    reads ps
  {
    if |ps| == 0 then [] else Flatten(ps[..|ps| - 1]) + ps[|ps| - 1].classes
  }

  /** `SelectMany` keeps exactly the classes of the packages given. */
  lemma {:induction false} FlattenMembers(ps: seq<PackageSummary>)
    ensures forall c :: c in Flatten(ps) <==> exists p :: p in ps && c in p.classes
  {
    if |ps| > 0 {
      var init, last := ps[..|ps| - 1], ps[|ps| - 1];
      FlattenMembers(init);
      assert ps == init + [last];
    }
  }

  /** The line total of each package, in package order. */
  function PackageTotals(ps: seq<PackageSummary>): seq<CoverageMetrics>
    reads ps
  {
    seq(|ps|, i reads ps requires 0 <= i < |ps| => ps[i].TotalLineCoverage())
  }

  /** Adding up every class of every package is adding up the package totals. */
  lemma {:induction false} FlattenTotals(ps: seq<PackageSummary>)
    ensures Sum(LineCoverages(Flatten(ps))) == Sum(PackageTotals(ps))
  {
    if |ps| > 0 {
      FlattenTotals(ps[..|ps| - 1]);
      FlattenStep(ps);
      PackageTotalsStep(ps);
    }
  }

  /** The classes of the last package add its line total to the classes before it. */
  lemma FlattenStep(ps: seq<PackageSummary>)
    requires |ps| > 0
    ensures Sum(LineCoverages(Flatten(ps))) ==
      Add(Sum(LineCoverages(Flatten(ps[..|ps| - 1]))), ps[|ps| - 1].TotalLineCoverage())
  {
    var init, last := ps[..|ps| - 1], ps[|ps| - 1];
    assert LineCoverages(Flatten(ps)) == LineCoverages(Flatten(init)) + LineCoverages(last.classes);
    SumAppend(LineCoverages(Flatten(init)), LineCoverages(last.classes));
  }

  /** The package totals grow by the last package's line total. */
  lemma PackageTotalsStep(ps: seq<PackageSummary>)
    requires |ps| > 0
    ensures Sum(PackageTotals(ps)) == Add(Sum(PackageTotals(ps[..|ps| - 1])), ps[|ps| - 1].TotalLineCoverage())
  {
    var init, last := ps[..|ps| - 1], ps[|ps| - 1];
    assert PackageTotals(ps) == PackageTotals(init) + [last.TotalLineCoverage()];
    SumAppend(PackageTotals(init), [last.TotalLineCoverage()]);
    SumOne(last.TotalLineCoverage());
  }

  class CoverageReportAggregate {
    var id: int
    var uploadDate: int
    var packages: seq<PackageSummary>
    var exclusionPattern: string
    const fileSizeBytes: int
    var parseDurationMs: int
    var forcedTotalMetrics: Option<CoverageMetrics>
    var forcedCoreMetrics: Option<CoverageMetrics>
    var forcedControllerMetrics: Option<CoverageMetrics>

    constructor (uploadDate: int, fileSizeBytes: int, exclusionPattern: string := DEFAULT_EXCLUSION_PATTERN)
      ensures this.uploadDate == uploadDate && this.fileSizeBytes == fileSizeBytes
      ensures this.exclusionPattern == exclusionPattern
      ensures packages == [] && id == 0 && parseDurationMs == 0
      ensures forcedTotalMetrics.None? && forcedCoreMetrics.None? && forcedControllerMetrics.None?
    {
      id := 0;
      this.uploadDate := uploadDate;
      packages := [];
      this.exclusionPattern := exclusionPattern;
      this.fileSizeBytes := fileSizeBytes;
      parseDurationMs := 0;
      forcedTotalMetrics := None;
      forcedCoreMetrics := None;
      forcedControllerMetrics := None;
    }

    /** `AddPackage`: appends at the end; no other field changes. */
    method AddPackage(package: PackageSummary)
      modifies this`packages
      ensures packages == old(packages) + [package]
    {
      packages := packages + [package];
    }

    /** `UpdateExclusionPattern`: only the pattern changes, so the total stays
        and the next core and controller queries use the new pattern. */
    method UpdateExclusionPattern(pattern: string)
      modifies this`exclusionPattern
      ensures exclusionPattern == pattern
      ensures GetTotalMetrics(None) == old(GetTotalMetrics(None))
    {
      exclusionPattern := pattern;
    }

    /** `AllClasses`. */
    function AllClasses(): seq<ClassDetail>
      reads this, packages
    {
      Flatten(packages)
    }

    /** `GetTotalMetrics(filter)`: the forced total when there is no filter,
        no package and a forced total; otherwise the line metrics of the
        (filtered) classes, added up. */
    function GetTotalMetrics(filter: Option<ClassDetail -> bool>): (r: CoverageMetrics)
      reads this, packages
      ensures filter.None? && |packages| == 0 ==> r == forcedTotalMetrics.GetOr(EMPTY)
      ensures filter.Some? && |packages| == 0 ==> r == EMPTY
      ensures filter.None? && |packages| > 0 ==> r == Sum(PackageTotals(packages))
    {
      if filter.None? && forcedTotalMetrics.Some? && |packages| == 0 then forcedTotalMetrics.value
      else
        FlattenTotals(packages);
        var classes := if filter.None? then AllClasses() else Where(AllClasses(), filter.value);
        Sum(LineCoverages(classes))
    }

    /** `IsExcluded`: the classifier rule with this report's pattern. It is
        what `ControllerMetrics` keeps and `CoreMetrics` drops; an empty
        pattern excludes nothing, and an exact-case occurrence of the pattern
        always excludes. */
    predicate IsExcluded(cls: ClassDetail)
      reads this
      ensures IsExcluded(cls) == ExcludedFilter(exclusionPattern)(cls)
      ensures IsExcluded(cls) == !CoreFilter(exclusionPattern)(cls)
      ensures exclusionPattern == "" ==> !IsExcluded(cls)
      ensures exclusionPattern != "" && Contains(cls.fullName, exclusionPattern) ==> IsExcluded(cls)
    {
      if Contains(cls.fullName, exclusionPattern) then
        ContainsImpliesIgnoreCase(cls.fullName, exclusionPattern);
        ExcludedFilter(exclusionPattern)(cls)
      else ExcludedFilter(exclusionPattern)(cls)
    }

    /** `CoreMetrics`: the classes the pattern does not exclude. */
    function CoreMetrics(): (r: CoverageMetrics)
      reads this, packages
      ensures |packages| == 0 ==> r == forcedCoreMetrics.GetOr(EMPTY)
      ensures |packages| > 0 && exclusionPattern == "" ==> r == GetTotalMetrics(None)
    {
      if |packages| == 0 && forcedCoreMetrics.Some? then forcedCoreMetrics.value
      else
        EmptyPatternKeepsAll(AllClasses());
        GetTotalMetrics(Some(CoreFilter(exclusionPattern)))
    }

    /** `ControllerMetrics`: the classes the pattern excludes. */
    function ControllerMetrics(): (r: CoverageMetrics)
      reads this, packages
      ensures |packages| == 0 ==> r == forcedControllerMetrics.GetOr(EMPTY)
      ensures |packages| > 0 && exclusionPattern == "" ==> r == EMPTY
    {
      if |packages| == 0 && forcedControllerMetrics.Some? then forcedControllerMetrics.value
      else
        WhereNone(AllClasses(), ExcludedFilter(exclusionPattern));
        GetTotalMetrics(Some(ExcludedFilter(exclusionPattern)))
    }
  }

  /** With packages loaded (or nothing forced), core and controller metrics
      partition the total: they add up to it. */
  lemma CoreAndControllerMakeTotal(a: CoverageReportAggregate)
    requires |a.packages| > 0 || (a.forcedTotalMetrics.None? && a.forcedCoreMetrics.None? && a.forcedControllerMetrics.None?)
    ensures Add(a.CoreMetrics(), a.ControllerMetrics()) == a.GetTotalMetrics(None)
  {
    if |a.packages| > 0 {
      var p, cs := a.exclusionPattern, a.AllClasses();
      assert a.CoreMetrics() == Sum(LineCoverages(Where(cs, CoreFilter(p))));
      assert a.ControllerMetrics() == Sum(LineCoverages(Where(cs, ExcludedFilter(p))));
      assert a.GetTotalMetrics(None) == Sum(LineCoverages(cs));
      WhereSplitsLines(cs, CoreFilter(p), ExcludedFilter(p));
    }
  }
}
