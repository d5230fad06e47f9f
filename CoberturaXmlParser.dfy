/** `CoberturaXmlParser.ParseAsync`: walks the packages and classes of a
    Cobertura document, skips test packages, builds one `ClassDetail` per
    class element and one `PackageSummary` per non-empty package, and
    reports progress from 0.05 to 1.0 along the way.

    The progress callback is modelled as a ghost log of the values reported,
    in order. The clock, the stopwatch and the byte count of the input text
    are parameters. */
module CoberturaParser {
  import opened Wrappers
  import opened Text
  import opened Xml
  import opened Metrics
  import opened ClassDetails
  import opened Packages
  import opened Reports
  import opened Cobertura

  /** What a class element becomes. */
  function ClassInfoOf(cls: Element): ClassInfo {
    var fullName := NameOf(cls);
    ClassInfo(AfterLast(fullName, '.'), fullName, LineMetrics(cls), BranchMetrics(cls), Complexity(cls))
  }

  /** `className.Split('.').Last()`: the short name has no '.', is the whole
      full name when that has no '.', and otherwise is what follows the last
      '.' of the full name. */
  lemma ShortName(cls: Element)
    ensures var r := ClassInfoOf(cls);
      '.' !in r.name &&
      (r.name == r.fullName <==> '.' !in r.fullName) &&
      ('.' in r.fullName ==> exists ns :: r.fullName == ns + "." + r.name)
  {
    var r := ClassInfoOf(cls);
    SplitAtLast(r.fullName, '.');
    if '.' in r.fullName {
      assert r.fullName == BeforeLast(r.fullName, '.') + "." + r.name;
    }
  }

  function ClassInfos(nodes: seq<Element>): (r: seq<ClassInfo>)
    ensures |r| == |nodes|
  {
    seq(|nodes|, i requires 0 <= i < |nodes| => ClassInfoOf(nodes[i]))
  }

  /** A package element is kept when its name is not a test name and it has
      at least one class element. */
  predicate Kept(package: Element) {
    !IsTestPackage(NameOf(package)) && |ClassNodes(package)| > 0
  }

  /** The packages the report ends up holding, in document order. */
  function ExpectedPackages(packages: seq<Element>): seq<PackageInfo> {
    if |packages| == 0 then []
    else
      var p := packages[|packages| - 1];
      ExpectedPackages(packages[..|packages| - 1])
        + (if Kept(p) then [PackageInfo(NameOf(p), ClassInfos(ClassNodes(p)))] else [])
  }

  /** No more packages than package elements, none of them a test package
      and none of them empty. */
  lemma {:induction false} ExpectedPackagesKept(packages: seq<Element>)
    ensures var r := ExpectedPackages(packages);
      |r| <= |packages| &&
      forall k :: 0 <= k < |r| ==> !IsTestPackage(r[k].name) && |r[k].classes| > 0
  {
    if |packages| > 0 {
      ExpectedPackagesKept(packages[..|packages| - 1]);
    }
  }

  /** Every kept package element is in the result, and nothing else is. */
  lemma {:induction false} ExpectedPackagesComplete(packages: seq<Element>)
    ensures forall j :: 0 <= j < |packages| && Kept(packages[j]) ==>
      PackageInfo(NameOf(packages[j]), ClassInfos(ClassNodes(packages[j]))) in ExpectedPackages(packages)
    ensures forall info :: info in ExpectedPackages(packages) ==>
      exists j :: 0 <= j < |packages| && Kept(packages[j]) && info == PackageInfo(NameOf(packages[j]), ClassInfos(ClassNodes(packages[j])))
  {
    if |packages| > 0 {
      var init, p := packages[..|packages| - 1], packages[|packages| - 1];
      ExpectedPackagesComplete(init);
      var before := ExpectedPackages(init);
      assert ExpectedPackages(packages) == before + Contribution(p);
      forall j | 0 <= j < |packages| && Kept(packages[j])
        ensures PackageInfo(NameOf(packages[j]), ClassInfos(ClassNodes(packages[j]))) in ExpectedPackages(packages)
      {
        if j < |init| {
          assert packages[j] == init[j];
        }
      }
      forall info | info in ExpectedPackages(packages)
        ensures exists j :: 0 <= j < |packages| && Kept(packages[j]) && info == PackageInfo(NameOf(packages[j]), ClassInfos(ClassNodes(packages[j])))
      {
        if info in ExpectedPackages(init) {
          var j :| 0 <= j < |init| && Kept(init[j]) && info == PackageInfo(NameOf(init[j]), ClassInfos(ClassNodes(init[j])));
          assert packages[j] == init[j];
        } else {
          assert packages[|packages| - 1] == p;
        }
      }
    }
  }

  /** `0.05 + 0.90 * processed / total`: the value reported after a class. */
  function ProgressAt(processed: int, total: int): (r: real)
    requires total > 0
    ensures 0 <= processed <= total ==> 0.05 <= r <= 0.95
  {
    var x := 0.90 * processed as real;
    assert 0 <= processed <= total ==> 0.0 <= x / total as real <= 0.90 by {
      if 0 <= processed <= total {
        assert x <= 0.90 * total as real;
      }
    }
    0.05 + x / total as real
  }

  lemma ProgressAtIncreases(n: int, m: int, total: int)
    requires total > 0 && n < m
    ensures ProgressAt(n, total) < ProgressAt(m, total)
  {
    var t := total as real;
    assert 0.90 * m as real - 0.90 * n as real > 0.0;
    assert 0.90 * m as real / t - 0.90 * n as real / t == (0.90 * m as real - 0.90 * n as real) / t;
  }

  /** `from + 1, ..., from + n`: the counter after each of `n` classes. */
  function Counting(from: int, n: nat): (r: seq<int>)
    ensures |r| == n
  {
    seq(n, k requires 0 <= k < n => from + k + 1)
  }

  /** The value of the processed-classes counter at each per-class report:
      classes of test packages advance the counter but are not reported. */
  function ReportedCounts(packages: seq<Element>): seq<int> {
    if |packages| == 0 then []
    else
      var init, p := packages[..|packages| - 1], packages[|packages| - 1];
      ReportedCounts(init)
        + (if IsTestPackage(NameOf(p)) then [] else Counting(ClassCount(init), |ClassNodes(p)|))
  }

  /** The counts reported are 1 to `ClassCount`, strictly increasing. */
  lemma {:induction false} ReportedCountsIncrease(packages: seq<Element>)
    ensures |ReportedCounts(packages)| <= ClassCount(packages)
    ensures forall k :: 0 <= k < |ReportedCounts(packages)| ==> 1 <= ReportedCounts(packages)[k] <= ClassCount(packages)
    ensures forall k, l :: 0 <= k < l < |ReportedCounts(packages)| ==> ReportedCounts(packages)[k] < ReportedCounts(packages)[l]
  {
    if |packages| > 0 {
      var init, p := packages[..|packages| - 1], packages[|packages| - 1];
      ReportedCountsIncrease(init);
      var a := ReportedCounts(init);
      var b := if IsTestPackage(NameOf(p)) then [] else Counting(ClassCount(init), |ClassNodes(p)|);
      assert ReportedCounts(packages) == a + b;
      assert forall k :: 0 <= k < |b| ==> ClassCount(init) < b[k] <= ClassCount(packages);
    }
  }

  /** One call of `progress.Report`, with the counters its value is
      computed from; `Value` is the number reported. */
  datatype Report = Started | ClassDone(processed: int, total: int) | Finished

  function Value(r: Report): real {
    match r
    case Started => 0.05
    case ClassDone(processed, total) => if total > 0 then ProgressAt(processed, total) else 0.05
    case Finished => 1.0
  }

  /** The numbers reported, in order. */
  function Values(log: seq<Report>): (r: seq<real>)
    ensures |r| == |log|
  {
    seq(|log|, k requires 0 <= k < |log| => Value(log[k]))
  }

  /** A per-class report for each of `counts`, out of `total`. */
  function ClassDones(counts: seq<int>, total: int): (r: seq<Report>)
    ensures |r| == |counts|
  {
    seq(|counts|, k requires 0 <= k < |counts| => ClassDone(counts[k], total))
  }

  lemma ClassDonesAppend(a: seq<int>, b: seq<int>, total: int)
    ensures ClassDones(a + b, total) == ClassDones(a, total) + ClassDones(b, total)
  {
  }

  /** Every report `Parse` makes for a document with a root: one when it
      starts, one per class of a non-test package when the document has
      classes at all, and one when it is done. */
  function ExpectedProgress(packages: seq<Element>): (r: seq<Report>)
    ensures |r| >= 2 && r[0] == Started && r[|r| - 1] == Finished
  {
    [Started] + ClassReportsOf(packages, ClassCount(packages)) + [Finished]
  }

  /** Reports for strictly increasing counts within 1..total carry strictly
      increasing values in (0.05, 0.95]. */
  lemma ValuesIncrease(counts: seq<int>, total: int)
    requires total > 0
    requires forall k :: 0 <= k < |counts| ==> 1 <= counts[k] <= total
    requires forall k, l :: 0 <= k < l < |counts| ==> counts[k] < counts[l]
    ensures forall k :: 0 <= k < |counts| ==> 0.05 < Values(ClassDones(counts, total))[k] <= 0.95
    ensures forall k, l :: 0 <= k < l < |counts| ==> Values(ClassDones(counts, total))[k] < Values(ClassDones(counts, total))[l]
  {
    var v := Values(ClassDones(counts, total));
    forall k | 0 <= k < |counts| ensures 0.05 < v[k] <= 0.95 {
      ProgressAtIncreases(0, counts[k], total);
    }
    forall k, l | 0 <= k < l < |counts| ensures v[k] < v[l] {
      ProgressAtIncreases(counts[k], counts[l], total);
    }
  }

  lemma ValuesAppend(a: seq<Report>, b: seq<Report>)
    ensures Values(a + b) == Values(a) + Values(b)
  {
  }

  /** 0.05, then values strictly between, then 1.0: strictly increasing. */
  lemma Bracketed(mid: seq<real>)
    requires forall k :: 0 <= k < |mid| ==> 0.05 < mid[k] < 1.0
    requires forall k, l :: 0 <= k < l < |mid| ==> mid[k] < mid[l]
    ensures var v := [0.05] + mid + [1.0];
      (forall k :: 0 <= k < |v| ==> 0.05 <= v[k] <= 1.0) &&
      (forall k, l :: 0 <= k < l < |v| ==> v[k] < v[l])
  {
    var v := [0.05] + mid + [1.0];
    assert forall k :: 0 < k < |v| - 1 ==> v[k] == mid[k - 1];
  }

  /** The per-class reports carry strictly increasing values in (0.05, 0.95]. */
  lemma ClassReportValues(packages: seq<Element>, mid: seq<real>)
    requires mid == Values(ClassReportsOf(packages, ClassCount(packages)))
    ensures forall k :: 0 <= k < |mid| ==> 0.05 < mid[k] <= 0.95
    ensures forall k, l :: 0 <= k < l < |mid| ==> mid[k] < mid[l]
  {
    var total := ClassCount(packages);
    if total > 0 {
      ReportedCountsIncrease(packages);
      ValuesIncrease(ReportedCounts(packages), total);
    }
  }

  /** The reported progress starts at 0.05, ends at 1.0, never goes back,
      never leaves [0.05, 1.0], and has one entry per class of a non-test
      package besides the first and the last. */
  lemma ProgressIncreases(packages: seq<Element>)
    ensures var v := Values(ExpectedProgress(packages));
      v[0] == 0.05 && v[|v| - 1] == 1.0 &&
      (forall k :: 0 <= k < |v| ==> 0.05 <= v[k] <= 1.0) &&
      (forall k, l :: 0 <= k < l < |v| ==> v[k] < v[l])
    ensures |ExpectedProgress(packages)| == 2 + |ReportedCounts(packages)|
  {
    var middle := ClassReportsOf(packages, ClassCount(packages));
    ValuesAppend([Started] + middle, [Finished]);
    ValuesAppend([Started], middle);
    var mid := Values(middle);
    assert Values([Started]) == [0.05] && Values([Finished]) == [1.0];
    assert Values(ExpectedProgress(packages)) == [0.05] + mid + [1.0];
    ClassReportValues(packages, mid);
    Bracketed(mid);
    ReportedCountsIncrease(packages);
  }

  /** No object appears twice in `s`. */
  predicate Distinct<T(==)>(s: seq<T>) {
    forall i, j :: 0 <= i < j < |s| ==> s[i] != s[j]
  }

  /** No class belongs to two packages of `ps`. */
  predicate ClassesDisjoint(ps: seq<PackageSummary>)
    reads ps
  {
    forall i, j :: 0 <= i < j < |ps| ==> forall c :: c in ps[j].classes ==> c !in ps[i].classes
  }

  /** Every package of `ps` and every class in them is a separate object:
      no package appears twice, no class appears twice in a package, and no
      class belongs to two packages. */
  predicate Separate(ps: seq<PackageSummary>)
    reads ps
  {
    Distinct(ps) && (forall k :: 0 <= k < |ps| ==> Distinct(ps[k].classes)) && ClassesDisjoint(ps)
  }

  /** `ParseAsync`. A document without a root is rejected after 0.05 has
      been reported; otherwise the report holds exactly the kept packages,
      each with a record per class element, and the progress log is
      `ExpectedProgress`. */
  method Parse(doc: Document, exclusionPattern: string := Reports.DEFAULT_EXCLUSION_PATTERN, now: int, fileSizeBytes: int, elapsedMs: int)
    returns (result: Result<CoverageReportAggregate, ParseError>, ghost progress: seq<Report>)
    ensures doc.root.None? ==> result == Failure(InvalidCoberturaXml) && progress == [Started]
    ensures doc.root.Some? ==> result.Success? && progress == ExpectedProgress(PackageNodes(doc.root.value))
    ensures result.Success? ==>
      var report := result.value;
      fresh(report) && report.id == 0 && report.uploadDate == now && report.fileSizeBytes == fileSizeBytes &&
      report.exclusionPattern == exclusionPattern && report.parseDurationMs == elapsedMs &&
      report.forcedTotalMetrics.None? && report.forcedCoreMetrics.None? && report.forcedControllerMetrics.None? &&
      Views(report.packages) == ExpectedPackages(PackageNodes(doc.root.value)) &&
      (forall p :: p in report.packages ==> fresh(p) && forall c :: c in p.classes ==> fresh(c) && !c.isTarget) &&
      Separate(report.packages)
  {
    progress := [Started];
    if doc.root.None? {
      return Failure(InvalidCoberturaXml), progress;
    }
    var report := new CoverageReportAggregate(now, fileSizeBytes, exclusionPattern);
    var packageNodes := PackageNodes(doc.root.value);
    ghost var reported := AddPackageNodes(report, packageNodes, now, exclusionPattern);
    report.parseDurationMs := elapsedMs;
    progress := progress + reported + [Finished];
    return Success(report), progress;
  }

  /** The fields of a report as its constructor leaves them, besides its
      packages and its byte count. */
  predicate Initial(report: CoverageReportAggregate, now: int, exclusionPattern: string)
    reads report`id, report`uploadDate, report`exclusionPattern, report`parseDurationMs
    reads report`forcedTotalMetrics, report`forcedCoreMetrics, report`forcedControllerMetrics
  {
    report.id == 0 && report.uploadDate == now && report.exclusionPattern == exclusionPattern &&
    report.parseDurationMs == 0 &&
    report.forcedTotalMetrics.None? && report.forcedCoreMetrics.None? && report.forcedControllerMetrics.None?
  }

  /** The package loop of `ParseAsync`: the kept packages are appended to
      the report in document order, and the per-class reports are made. */
  method AddPackageNodes(report: CoverageReportAggregate, packageNodes: seq<Element>, now: int, exclusionPattern: string)
    returns (ghost progress: seq<Report>)
    requires report.packages == [] && Initial(report, now, exclusionPattern)
    modifies report`packages
    ensures Views(report.packages) == ExpectedPackages(packageNodes)
    ensures progress == ClassReportsOf(packageNodes, ClassCount(packageNodes))
    ensures Initial(report, now, exclusionPattern)
    ensures forall p :: p in report.packages ==> fresh(p) && forall c :: c in p.classes ==> fresh(c) && !c.isTarget
    ensures Separate(report.packages)
  {
    var totalClasses := ClassCount(packageNodes);
    var processedClasses := 0;
    progress := [];
    var i := 0;
    while i < |packageNodes|
      invariant 0 <= i <= |packageNodes|
      invariant processedClasses == ClassCount(packageNodes[..i])
      invariant Views(report.packages) == ExpectedPackages(packageNodes[..i])
      invariant progress == ClassReportsOf(packageNodes[..i], totalClasses)
      invariant Initial(report, now, exclusionPattern)
      invariant forall k :: 0 <= k < |report.packages| ==>
        fresh(report.packages[k]) && forall c :: c in report.packages[k].classes ==> fresh(c) && !c.isTarget
      invariant Separate(report.packages)
    {
      CountStep(packageNodes, i);
      ReportsStep(packageNodes, i, totalClasses);
      PackagesStep(packageNodes, i);
      ghost var reported;
      processedClasses, reported := AddPackageNode(report, packageNodes[i], processedClasses, totalClasses);
      progress := progress + reported;
      i := i + 1;
    }
    assert packageNodes[..i] == packageNodes;
  }

  /** The per-class reports made for `packages` when the document holds
      `total` classes. */
  function ClassReportsOf(packages: seq<Element>, total: int): seq<Report> {
    if total > 0 then ClassDones(ReportedCounts(packages), total) else []
  }

  /** What one package element adds to the report. */
  function Contribution(p: Element): seq<PackageInfo> {
    if Kept(p) then [PackageInfo(NameOf(p), ClassInfos(ClassNodes(p)))] else []
  }

  /** What one package element adds to the progress log. */
  function PackageReports(p: Element, processed: int, total: int): seq<Report> {
    if IsTestPackage(NameOf(p)) then [] else ClassReports(processed, |ClassNodes(p)|, total)
  }

  /** How the specification functions grow by one package element. */
  lemma CountStep(packages: seq<Element>, i: nat)
    requires i < |packages|
    ensures ClassCount(packages[..i + 1]) == ClassCount(packages[..i]) + |ClassNodes(packages[i])|
  {
    assert packages[..i + 1][..i] == packages[..i];
  }

  lemma ReportsStep(packages: seq<Element>, i: nat, total: int)
    requires i < |packages|
    ensures ClassReportsOf(packages[..i + 1], total) ==
      ClassReportsOf(packages[..i], total) + PackageReports(packages[i], ClassCount(packages[..i]), total)
  {
    var p, done := packages[i], packages[..i];
    assert packages[..i + 1][..i] == done;
    if total > 0 && !IsTestPackage(NameOf(p)) {
      ClassDonesAppend(ReportedCounts(done), Counting(ClassCount(done), |ClassNodes(p)|), total);
    }
  }

  lemma PackagesStep(packages: seq<Element>, i: nat)
    requires i < |packages|
    ensures ExpectedPackages(packages[..i + 1]) == ExpectedPackages(packages[..i]) + Contribution(packages[i])
  {
    assert packages[..i + 1][..i] == packages[..i];
  }

  /** The body of the package loop of `ParseAsync`: a test package only
      advances the class counter; any other package gets its classes and
      is added to the report when it has at least one. */
  method AddPackageNode(report: CoverageReportAggregate, packageNode: Element, processed: int, total: int)
    returns (processedAfter: int, ghost reported: seq<Report>)
    modifies report`packages
    ensures Views(report.packages) == old(Views(report.packages)) + Contribution(packageNode)
    ensures old(report.packages) <= report.packages
    ensures forall k :: |old(report.packages)| <= k < |report.packages| ==>
      fresh(report.packages[k]) && forall c :: c in report.packages[k].classes ==> fresh(c) && !c.isTarget
    ensures old(Separate(report.packages)) ==> Separate(report.packages)
    ensures processedAfter == processed + |ClassNodes(packageNode)|
    ensures reported == PackageReports(packageNode, processed, total)
  {
    var packageName := NameOf(packageNode);
    if IsTestPackage(packageName) {
      assert Contribution(packageNode) == [];
      return processed + |ClassNodes(packageNode)|, [];
    }
    var classNodes := ClassNodes(packageNode);
    assert Contribution(packageNode) == if |classNodes| > 0 then [PackageInfo(packageName, ClassInfos(classNodes))] else [];
    processedAfter, reported := AddNamedPackage(report, packageName, classNodes, processed, total);
  }

  /** A package that is not a test package: its classes are built, and it
      is added to the report when it has at least one. */
  method AddNamedPackage(report: CoverageReportAggregate, packageName: string, classNodes: seq<Element>, processed: int, total: int)
    returns (processedAfter: int, ghost reported: seq<Report>)
    modifies report`packages
    ensures Views(report.packages) == old(Views(report.packages)) +
      if |classNodes| > 0 then [PackageInfo(packageName, ClassInfos(classNodes))] else []
    ensures old(report.packages) <= report.packages
    ensures forall k :: |old(report.packages)| <= k < |report.packages| ==>
      fresh(report.packages[k]) && forall c :: c in report.packages[k].classes ==> fresh(c) && !c.isTarget
    ensures old(Separate(report.packages)) ==> Separate(report.packages)
    ensures processedAfter == processed + |classNodes|
    ensures reported == ClassReports(processed, |classNodes|, total)
  {
    var package;
    package, processedAfter, reported := NewPackage(packageName, classNodes, processed, total);
    if |package.classes| > 0 {
      ViewsAppend(report.packages, package);
      report.AddPackage(package);
    }
  }

  lemma ClassInfosStep(nodes: seq<Element>, j: nat)
    requires j < |nodes|
    ensures ClassInfos(nodes[..j + 1]) == ClassInfos(nodes[..j]) + [ClassInfoOf(nodes[j])]
  {
    assert nodes[..j + 1] == nodes[..j] + [nodes[j]];
  }

  /** The reports `n` classes make after `from` classes were processed:
      none when there are no classes in the document at all. */
  function ClassReports(from: int, n: nat, total: int): (r: seq<Report>)
    ensures |r| == if total > 0 then n else 0
  {
    if total > 0 then ClassDones(Counting(from, n), total) else []
  }

  /** One iteration of the class loop of `ParseAsync`: the record built
      from `classNode` is appended to `package`. */
  method AddClassNode(package: PackageSummary, classNode: Element)
    modifies package`classes
    ensures Infos(package.classes) == Infos(old(package.classes)) + [ClassInfoOf(classNode)]
    ensures |package.classes| == |old(package.classes)| + 1
    ensures package.classes[..|old(package.classes)|] == old(package.classes)
    ensures fresh(package.classes[|old(package.classes)|]) && !package.classes[|old(package.classes)|].isTarget
  {
    var info := ClassInfoOf(classNode);
    var classDetail := new ClassDetail(info.name, info.fullName, info.lineCoverage, info.branchCoverage, info.complexity);
    InfosAppend(package.classes, classDetail);
    package.AddClass(classDetail);
  }

  /** A new `PackageSummary` and the class loop of `ParseAsync`: one
      record per class element, added in document order, each followed by a
      progress report when there are classes at all. */
  method NewPackage(packageName: string, classNodes: seq<Element>, processed: int, total: int)
    returns (package: PackageSummary, processedAfter: int, ghost reported: seq<Report>)
    ensures fresh(package)
    ensures package.View() == PackageInfo(packageName, ClassInfos(classNodes))
    ensures |package.classes| == |classNodes|
    ensures forall c :: c in package.classes ==> fresh(c) && !c.isTarget
    ensures Distinct(package.classes)
    ensures processedAfter == processed + |classNodes|
    ensures reported == ClassReports(processed, |classNodes|, total)
  {
    package := new PackageSummary(packageName);
    processedAfter := processed;
    reported := [];
    var j := 0;
    while j < |classNodes|
      invariant 0 <= j <= |classNodes|
      invariant fresh(package) && package.name == packageName
      invariant Infos(package.classes) == ClassInfos(classNodes[..j])
      invariant forall c :: c in package.classes ==> fresh(c) && !c.isTarget
      invariant Distinct(package.classes)
      invariant processedAfter == processed + j
      invariant |reported| == if total > 0 then j else 0
      invariant forall k :: 0 <= k < |reported| ==> reported[k] == ClassDone(processed + k + 1, total)
    {
      ClassInfosStep(classNodes, j);
      ghost var before := package.classes;
      AddClassNode(package, classNodes[j]);
      assert package.classes == before + [package.classes[|before|]];
      processedAfter := processedAfter + 1;
      if total > 0 {
        reported := reported + [ClassDone(processedAfter, total)];
      }
      j := j + 1;
    }
    assert classNodes[..j] == classNodes;
    assert |Infos(package.classes)| == |package.classes|;
    assert reported == ClassReports(processed, j, total);
  }
}
