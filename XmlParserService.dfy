/** `XmlParserService.ParseAsync`: the legacy parser. It walks the same
    Cobertura tree as `CoberturaParser`, but classifies classes with a
    fixed controller rule, keeps twelve running totals (report, core and
    controller; lines and branches; covered and total), writes per-package
    "(Logic)" and "(Controllers)" summary rows and two class lists, and
    reports progress once per non-test package.

    The twelve totals are kept as six covered/total pairs (`Tally`). The
    progress callback is a ghost log of `PackageDone` reports. The clock,
    the stopwatch and the byte count of the input are parameters. */
module LegacyParser {
  import opened Wrappers
  import opened Text
  import opened Xml
  import opened Metrics
  import opened Cobertura
  import opened Entities

  /** The legacy controller rule, ignoring case: the package name contains
      "WebAPI.Controller", or the class name contains ".Controller", or the
      class name ends with "Controller". A class name holding ".Controller"
      or ending in "Controller" with that exact case is a controller in
      every package. */
  predicate IsController(packageName: string, className: string)
    ensures Contains(className, ".Controller") || EndsWith(className, "Controller") ==>
      IsController(packageName, className)
  {
    ExactCaseMatches(className, ".Controller");
    ExactCaseMatches(className, "Controller");
    ContainsIgnoreCase(packageName, "WebAPI.Controller") ||
    ContainsIgnoreCase(className, ".Controller") ||
    EndsWithIgnoreCase(className, "Controller")
  }

  /** `line-rate` when it parses, else covered / total of the line counters
      (0 when there are no lines). Without the attribute, the rate times
      the line total is the covered count. */
  function LineRateOf(cls: Element): (r: real)
    ensures RealAttribute(cls, "line-rate").Some? ==> r == RealAttribute(cls, "line-rate").value
    ensures RealAttribute(cls, "line-rate").None? ==> Explains(r, LineMetrics(cls))
  {
    var lines, attribute := LineMetrics(cls), RealAttribute(cls, "line-rate");
    if attribute.Some? then attribute.value
    else
      RateExplains(lines);
      Rate(lines)
  }

  /** The class row built for `cls` in package `packageName`: never a
      target, and, without a `line-rate` attribute, its rate agrees with its
      own line counts. */
  function DetailOf(packageName: string, cls: Element): (r: ClassDetail)
    ensures !r.isTarget
    ensures RealAttribute(cls, "line-rate").None? ==> Explains(r.lineRate, CoverageMetrics(r.linesCovered, r.linesTotal))
  {
    var lines := LineMetrics(cls);
    ClassDetail(packageName, NameOf(cls), LineRateOf(cls), RealAttribute(cls, "branch-rate").GetOr(0.0),
                Complexity(cls), lines.covered, lines.total, false)
  }

  /** The twelve report-level accumulators, as six covered/total pairs. */
  datatype Tally = Tally(
    lines: CoverageMetrics,
    branches: CoverageMetrics,
    coreLines: CoverageMetrics,
    coreBranches: CoverageMetrics,
    controllerLines: CoverageMetrics,
    controllerBranches: CoverageMetrics)

  const ZERO: Tally := Tally(EMPTY, EMPTY, EMPTY, EMPTY, EMPTY, EMPTY)

  /** A class's line and branch counters `l` and `b` counted: into the
      report totals always, and into the controller or the core totals as
      `controller` says. */
  function CountMetrics(t: Tally, controller: bool, l: CoverageMetrics, b: CoverageMetrics): Tally {
    if controller then
      t.(lines := Add(t.lines, l), branches := Add(t.branches, b),
         controllerLines := Add(t.controllerLines, l), controllerBranches := Add(t.controllerBranches, b))
    else
      t.(lines := Add(t.lines, l), branches := Add(t.branches, b),
         coreLines := Add(t.coreLines, l), coreBranches := Add(t.coreBranches, b))
  }

  /** One class counted, as the controller rule classifies it. */
  function Count(t: Tally, packageName: string, cls: Element): Tally {
    CountMetrics(t, IsController(packageName, NameOf(cls)), LineMetrics(cls), BranchMetrics(cls))
  }

  /** The classes of one package counted, in order, starting from `t`. */
  function CountAll(t: Tally, packageName: string, classes: seq<Element>): Tally {
    if |classes| == 0 then t
    else Count(CountAll(t, packageName, classes[..|classes| - 1]), packageName, classes[|classes| - 1])
  }

  /** What one class adds to the controller list: itself when it is a
      controller. */
  function ControllerDetailFor(packageName: string, cls: Element): seq<ClassDetail> {
    if IsController(packageName, NameOf(cls)) then [DetailOf(packageName, cls)] else []
  }

  /** What one class adds to the class list: itself when it is not a
      controller and the package name contains "WebAPI", ignoring case. */
  function LogicDetailFor(packageName: string, cls: Element): seq<ClassDetail> {
    if !IsController(packageName, NameOf(cls)) && ContainsIgnoreCase(packageName, "WebAPI")
    then [DetailOf(packageName, cls)] else []
  }

  /** The controller rows of one package. */
  function ControllerDetailsIn(packageName: string, classes: seq<Element>): seq<ClassDetail> {
    if |classes| == 0 then []
    else ControllerDetailsIn(packageName, classes[..|classes| - 1]) + ControllerDetailFor(packageName, classes[|classes| - 1])
  }

  /** The logic rows of one package. */
  function LogicDetailsIn(packageName: string, classes: seq<Element>): seq<ClassDetail> {
    if |classes| == 0 then []
    else LogicDetailsIn(packageName, classes[..|classes| - 1]) + LogicDetailFor(packageName, classes[|classes| - 1])
  }

  /** The rule the summary rows count classes by: case-sensitive, on the
      name with a "" default, and blind to the package name. */
  predicate NamedAsController(cls: Element)
    ensures NamedAsController(cls) ==> Attribute(cls, "name").Some?
  {
    assert !StartsWith("", ".Controller") && !EndsWith("", "Controller");
    var name := Attribute(cls, "name").GetOr("");
    Contains(name, ".Controller") || EndsWith(name, "Controller")
  }

  /** How many of `classes` the row rule calls controllers (`controllers`)
      or not (`!controllers`). */
  function NameCount(classes: seq<Element>, controllers: bool): nat {
    if |classes| == 0 then 0
    else NameCount(classes[..|classes| - 1], controllers) + (if NamedAsController(classes[|classes| - 1]) == controllers then 1 else 0)
  }

  /** A summary row for a subtotal with lines. */
  function Row(name: string, m: CoverageMetrics, classCount: int): PackageSummary {
    PackageSummary(name, Rate(m), 0.0, 0.0, classCount, m.covered, m.total)
  }

  /** The summary rows for the subtotals `logic` and `controllers`:
      "(Logic)" when its lines are positive, then "(Controllers)" when its
      lines are. */
  function SummaryRows(packageName: string, logic: CoverageMetrics, controllers: CoverageMetrics,
                       logicCount: nat, controllerCount: nat): seq<PackageSummary> {
    (if logic.total > 0 then [Row(packageName + " (Logic)", logic, logicCount)] else [])
      + (if controllers.total > 0 then [Row(packageName + " (Controllers)", controllers, controllerCount)] else [])
  }

  /** The summary rows of one package. */
  function PackageRows(packageName: string, classes: seq<Element>): seq<PackageSummary> {
    var sub := CountAll(ZERO, packageName, classes);
    SummaryRows(packageName, sub.coreLines, sub.controllerLines, NameCount(classes, false), NameCount(classes, true))
  }

  /** What one package element adds to the report totals: nothing for a
      test package, its classes otherwise. */
  function PackageTally(t: Tally, p: Element): Tally {
    if IsTestPackage(NameOf(p)) then t else CountAll(t, NameOf(p), ClassNodes(p))
  }

  function RowsFor(p: Element): seq<PackageSummary> {
    if IsTestPackage(NameOf(p)) then [] else PackageRows(NameOf(p), ClassNodes(p))
  }

  function ClassDetailsFor(p: Element): seq<ClassDetail> {
    if IsTestPackage(NameOf(p)) then [] else LogicDetailsIn(NameOf(p), ClassNodes(p))
  }

  function ControllerDetailsFor(p: Element): seq<ClassDetail> {
    if IsTestPackage(NameOf(p)) then [] else ControllerDetailsIn(NameOf(p), ClassNodes(p))
  }

  /** The report totals after `packages`. */
  function TallyOf(packages: seq<Element>): Tally {
    if |packages| == 0 then ZERO
    else PackageTally(TallyOf(packages[..|packages| - 1]), packages[|packages| - 1])
  }

  function RowsOf(packages: seq<Element>): seq<PackageSummary> {
    if |packages| == 0 then []
    else RowsOf(packages[..|packages| - 1]) + RowsFor(packages[|packages| - 1])
  }

  function ClassDetailsOf(packages: seq<Element>): seq<ClassDetail> {
    if |packages| == 0 then []
    else ClassDetailsOf(packages[..|packages| - 1]) + ClassDetailsFor(packages[|packages| - 1])
  }

  function ControllerDetailsOf(packages: seq<Element>): seq<ClassDetail> {
    if |packages| == 0 then []
    else ControllerDetailsOf(packages[..|packages| - 1]) + ControllerDetailsFor(packages[|packages| - 1])
  }

  /** The number of non-test packages: the final value of `processedPackages`. */
  function NonTestCount(packages: seq<Element>): (r: nat)
    ensures r <= |packages|
  {
    if |packages| == 0 then 0
    else NonTestCount(packages[..|packages| - 1]) + (if IsTestPackage(NameOf(packages[|packages| - 1])) then 0 else 1)
  }

  /** One call of `progress.Report`: `processed` of `total` packages done. */
  datatype Tick = PackageDone(processed: int, total: int)

  function Fraction(t: Tick): real {
    if t.total > 0 then t.processed as real / t.total as real else 0.0
  }

  function Fractions(log: seq<Tick>): (r: seq<real>)
    ensures |r| == |log|
  {
    seq(|log|, k requires 0 <= k < |log| => Fraction(log[k]))
  }

  /** The report made after package element `p` when `done` non-test
      packages came before it: none for a test package. */
  function TickFor(p: Element, done: int, total: int): seq<Tick> {
    if IsTestPackage(NameOf(p)) then [] else [PackageDone(done + 1, total)]
  }

  /** The reports made for `packages` out of `total`. */
  function TicksOf(packages: seq<Element>, total: int): seq<Tick> {
    if |packages| == 0 then []
    else
      var init := packages[..|packages| - 1];
      TicksOf(init, total) + TickFor(packages[|packages| - 1], NonTestCount(init), total)
  }

  /** The three lists of `h` hold the rows of `packages`. */
  predicate Listed(h: ReportHistory, packages: seq<Element>)
    reads h`records, h`classDetails, h`controllerDetails
  {
    h.records == RowsOf(packages) && h.classDetails == ClassDetailsOf(packages) &&
    h.controllerDetails == ControllerDetailsOf(packages)
  }

  /** The summary numbers of `h` are those of the totals `t`. */
  predicate Totals(h: ReportHistory, t: Tally)
    reads h`linesTotal, h`linesCovered, h`lineRate, h`branchRate
    reads h`coreLinesTotal, h`coreLinesCovered, h`coreLineRate, h`coreBranchRate
    reads h`controllerLinesTotal, h`controllerLinesCovered, h`controllerLineRate, h`controllerBranchRate
  {
    h.linesTotal == t.lines.total && h.linesCovered == t.lines.covered &&
    h.lineRate == Rate(t.lines) && h.branchRate == Rate(t.branches) &&
    h.coreLinesTotal == t.coreLines.total && h.coreLinesCovered == t.coreLines.covered &&
    h.coreLineRate == Rate(t.coreLines) && h.coreBranchRate == Rate(t.coreBranches) &&
    h.controllerLinesTotal == t.controllerLines.total && h.controllerLinesCovered == t.controllerLines.covered &&
    h.controllerLineRate == Rate(t.controllerLines) && h.controllerBranchRate == Rate(t.controllerBranches)
  }

  /** The fields of `h` that are set when it is created and that parsing
      leaves alone. */
  predicate Created(h: ReportHistory, now: int, fileSizeBytes: int)
    reads h`id, h`uploadDate, h`fileSizeBytes, h`targetCoreLineRate, h`exclusionPattern
  {
    h.id == 0 && h.uploadDate == now && h.fileSizeBytes == fileSizeBytes &&
    h.targetCoreLineRate == DEFAULT_TARGET_CORE_LINE_RATE && h.exclusionPattern == DEFAULT_EXCLUSION_PATTERN
  }

  /** What a parse leaves in a new history `h`: the defaults it was
      created with, the elapsed time, and the totals, rates and rows of
      `packages`. */
  predicate Parsed(h: ReportHistory, packages: seq<Element>, now: int, fileSizeBytes: int, elapsedMs: int)
    reads h
  {
    Created(h, now, fileSizeBytes) && h.parseDurationMs == elapsedMs &&
    Totals(h, TallyOf(packages)) && Listed(h, packages)
  }

  /** `ParseAsync`: a document without a root is rejected before anything
      is reported; otherwise the history is `Parsed` from the packages of
      the root, and the reports are `TicksOf` those packages. */
  method Parse(doc: Document, now: int, fileSizeBytes: int, elapsedMs: int)
    returns (result: Result<ReportHistory, ParseError>, ghost progress: seq<Tick>)
    ensures doc.root.None? ==> result == Failure(InvalidCoberturaXml) && progress == []
    ensures doc.root.Some? ==>
      result.Success? && progress == TicksOf(PackageNodes(doc.root.value), |PackageNodes(doc.root.value)|)
    ensures result.Success? ==>
      fresh(result.value) && Parsed(result.value, PackageNodes(doc.root.value), now, fileSizeBytes, elapsedMs)
  {
    if doc.root.None? {
      return Failure(InvalidCoberturaXml), [];
    }
    var history;
    history, progress := ParsePackages(PackageNodes(doc.root.value), now, fileSizeBytes, elapsedMs);
    return Success(history), progress;
  }

  /** Everything `ParseAsync` does once the root is known. */
  method ParsePackages(packages: seq<Element>, now: int, fileSizeBytes: int, elapsedMs: int)
    returns (history: ReportHistory, ghost progress: seq<Tick>)
    ensures fresh(history) && Parsed(history, packages, now, fileSizeBytes, elapsedMs)
    ensures progress == TicksOf(packages, |packages|)
  {
    history := new ReportHistory(now, fileSizeBytes);
    assert Created(history, now, fileSizeBytes);
    var tally;
    tally, progress := WalkPackages(history, packages);
    Summarize(history, tally, elapsedMs);
  }

  /** The package loop of `ParseAsync`, on a history with empty lists. */
  method WalkPackages(history: ReportHistory, packages: seq<Element>)
    returns (tally: Tally, ghost progress: seq<Tick>)
    requires history.records == [] && history.classDetails == [] && history.controllerDetails == []
    modifies history`records, history`classDetails, history`controllerDetails
    ensures tally == TallyOf(packages) && Listed(history, packages)
    ensures progress == TicksOf(packages, |packages|)
    ensures unchanged(history`id, history`uploadDate, history`fileSizeBytes, history`targetCoreLineRate)
    ensures unchanged(history`exclusionPattern)
  {
    var totalPackages := |packages|;
    var processedPackages := 0;
    tally, progress := ZERO, [];
    var i := 0;
    while i < |packages|
      invariant 0 <= i <= |packages|
      invariant tally == TallyOf(packages[..i])
      invariant processedPackages == NonTestCount(packages[..i])
      invariant progress == TicksOf(packages[..i], totalPackages)
      invariant Listed(history, packages[..i])
      invariant unchanged(history`id, history`uploadDate, history`fileSizeBytes, history`targetCoreLineRate)
      invariant unchanged(history`exclusionPattern)
    {
      PackagesStep(packages, i, totalPackages);
      ghost var reported;
      tally, processedPackages, reported := WalkPackage(history, packages[i], tally, processedPackages, totalPackages);
      progress := progress + reported;
      i := i + 1;
    }
    assert packages[..i] == packages;
  }

  /** How the package-level folds grow by one package. */
  lemma PackagesStep(packages: seq<Element>, i: nat, total: int)
    requires i < |packages|
    ensures var p, done := packages[i], packages[..i];
      TallyOf(packages[..i + 1]) == PackageTally(TallyOf(done), p) &&
      NonTestCount(packages[..i + 1]) == NonTestCount(done) + (if IsTestPackage(NameOf(p)) then 0 else 1) &&
      TicksOf(packages[..i + 1], total) == TicksOf(done, total) + TickFor(p, NonTestCount(done), total) &&
      RowsOf(packages[..i + 1]) == RowsOf(done) + RowsFor(p) &&
      ClassDetailsOf(packages[..i + 1]) == ClassDetailsOf(done) + ClassDetailsFor(p) &&
      ControllerDetailsOf(packages[..i + 1]) == ControllerDetailsOf(done) + ControllerDetailsFor(p)
  {
    assert packages[..i + 1][..i] == packages[..i];
  }

  /** The body of the package loop: a test package is skipped; any other
      package is counted, listed and reported. */
  method WalkPackage(history: ReportHistory, p: Element, tally: Tally, processed: int, total: int)
    returns (tallyAfter: Tally, processedAfter: int, ghost reported: seq<Tick>)
    modifies history`records, history`classDetails, history`controllerDetails
    ensures tallyAfter == PackageTally(tally, p)
    ensures processedAfter == processed + (if IsTestPackage(NameOf(p)) then 0 else 1)
    ensures reported == TickFor(p, processed, total)
    ensures history.records == old(history.records) + RowsFor(p)
    ensures history.classDetails == old(history.classDetails) + ClassDetailsFor(p)
    ensures history.controllerDetails == old(history.controllerDetails) + ControllerDetailsFor(p)
    ensures unchanged(history`id, history`uploadDate, history`fileSizeBytes, history`targetCoreLineRate)
    ensures unchanged(history`exclusionPattern)
  {
    var packageName := NameOf(p);
    if IsTestPackage(packageName) {
      return tally, processed, [];
    }
    tallyAfter := AddPackage(history, packageName, ClassNodes(p), tally);
    processedAfter := processed + 1;
    reported := [PackageDone(processedAfter, total)];
  }

  /** The end of `ParseAsync`: the report totals, their rates (0 when a
      total is 0) and the parse duration are written to the history. */
  method Summarize(history: ReportHistory, t: Tally, elapsedMs: int)
    modifies history`linesTotal, history`linesCovered, history`lineRate, history`branchRate
    modifies history`coreLinesTotal, history`coreLinesCovered, history`coreLineRate, history`coreBranchRate
    modifies history`controllerLinesTotal, history`controllerLinesCovered, history`controllerLineRate
    modifies history`controllerBranchRate, history`parseDurationMs
    ensures Totals(history, t) && history.parseDurationMs == elapsedMs
    ensures unchanged(history`id, history`uploadDate, history`fileSizeBytes, history`targetCoreLineRate)
    ensures unchanged(history`exclusionPattern, history`records, history`classDetails, history`controllerDetails)
  {
    history.linesTotal, history.linesCovered := t.lines.total, t.lines.covered;
    history.lineRate, history.branchRate := Rate(t.lines), Rate(t.branches);
    history.coreLinesTotal, history.coreLinesCovered := t.coreLines.total, t.coreLines.covered;
    history.coreLineRate, history.coreBranchRate := Rate(t.coreLines), Rate(t.coreBranches);
    history.controllerLinesTotal, history.controllerLinesCovered := t.controllerLines.total, t.controllerLines.covered;
    history.controllerLineRate, history.controllerBranchRate := Rate(t.controllerLines), Rate(t.controllerBranches);
    history.parseDurationMs := elapsedMs;
  }

  /** A non-test package: its classes are counted and listed, then its
      summary rows are added. */
  method AddPackage(history: ReportHistory, packageName: string, classes: seq<Element>, tally: Tally)
    returns (tallyAfter: Tally)
    modifies history`records, history`classDetails, history`controllerDetails
    ensures tallyAfter == CountAll(tally, packageName, classes)
    ensures history.records == old(history.records) + PackageRows(packageName, classes)
    ensures history.classDetails == old(history.classDetails) + LogicDetailsIn(packageName, classes)
    ensures history.controllerDetails == old(history.controllerDetails) + ControllerDetailsIn(packageName, classes)
  {
    var logic, controllers;
    tallyAfter, logic, controllers := AddClasses(history, packageName, classes, tally);
    ghost var rows := history.records;
    if logic.total > 0 {
      history.records := history.records + [Row(packageName + " (Logic)", logic, NameCount(classes, false))];
    }
    if controllers.total > 0 {
      history.records := history.records + [Row(packageName + " (Controllers)", controllers, NameCount(classes, true))];
    }
    assert history.records == rows + PackageRows(packageName, classes);
  }

  /** The class loop: every class is counted into the report totals and
      into the package's logic or controller subtotal, and listed. */
  method AddClasses(history: ReportHistory, packageName: string, classes: seq<Element>, tally: Tally)
    returns (tallyAfter: Tally, logic: CoverageMetrics, controllers: CoverageMetrics)
    modifies history`classDetails, history`controllerDetails
    ensures tallyAfter == CountAll(tally, packageName, classes)
    ensures logic == CountAll(ZERO, packageName, classes).coreLines
    ensures controllers == CountAll(ZERO, packageName, classes).controllerLines
    ensures history.classDetails == old(history.classDetails) + LogicDetailsIn(packageName, classes)
    ensures history.controllerDetails == old(history.controllerDetails) + ControllerDetailsIn(packageName, classes)
  {
    ghost var logicRows, controllerRows := history.classDetails, history.controllerDetails;
    ghost var sub := ZERO;
    tallyAfter, logic, controllers := tally, EMPTY, EMPTY;
    var j := 0;
    while j < |classes|
      invariant 0 <= j <= |classes|
      invariant tallyAfter == CountAll(tally, packageName, classes[..j])
      invariant sub == CountAll(ZERO, packageName, classes[..j])
      invariant logic == sub.coreLines && controllers == sub.controllerLines
      invariant history.classDetails == logicRows + LogicDetailsIn(packageName, classes[..j])
      invariant history.controllerDetails == controllerRows + ControllerDetailsIn(packageName, classes[..j])
    {
      ClassesStep(tally, packageName, classes, j);
      ConcatAssociates(logicRows, LogicDetailsIn(packageName, classes[..j]), LogicDetailFor(packageName, classes[j]));
      ConcatAssociates(controllerRows, ControllerDetailsIn(packageName, classes[..j]), ControllerDetailFor(packageName, classes[j]));
      sub := Count(sub, packageName, classes[j]);
      var isController := IsController(packageName, NameOf(classes[j]));
      tallyAfter, logic, controllers :=
        CountClass(isController, LineMetrics(classes[j]), BranchMetrics(classes[j]), tallyAfter, logic, controllers);
      ListClass(history, packageName, classes[j]);
      j := j + 1;
    }
    assert classes[..j] == classes;
  }

  lemma ConcatAssociates<T>(a: seq<T>, b: seq<T>, c: seq<T>)
    ensures (a + b) + c == a + (b + c)
  {
  }

  /** How the class-level folds grow by one class. */
  lemma ClassesStep(tally: Tally, packageName: string, classes: seq<Element>, j: nat)
    requires j < |classes|
    ensures var c, done := classes[j], classes[..j];
      CountAll(tally, packageName, classes[..j + 1]) == Count(CountAll(tally, packageName, done), packageName, c) &&
      CountAll(ZERO, packageName, classes[..j + 1]) == Count(CountAll(ZERO, packageName, done), packageName, c) &&
      LogicDetailsIn(packageName, classes[..j + 1]) == LogicDetailsIn(packageName, done) + LogicDetailFor(packageName, c) &&
      ControllerDetailsIn(packageName, classes[..j + 1]) == ControllerDetailsIn(packageName, done) + ControllerDetailFor(packageName, c)
  {
    assert classes[..j + 1][..j] == classes[..j];
  }

  /** The counting half of the class loop's body: the class's line and
      branch counters go into the report totals and, as `isController`
      says, into the controller or the core totals and the package's
      controller or logic subtotal. */
  method CountClass(isController: bool, lines: CoverageMetrics, branches: CoverageMetrics,
                    tally: Tally, logic: CoverageMetrics, controllers: CoverageMetrics)
    returns (tallyAfter: Tally, logicAfter: CoverageMetrics, controllersAfter: CoverageMetrics)
    ensures tallyAfter == CountMetrics(tally, isController, lines, branches)
    ensures var sub := CountMetrics(Tally(EMPTY, EMPTY, logic, EMPTY, controllers, EMPTY), isController, lines, branches);
      logicAfter == sub.coreLines && controllersAfter == sub.controllerLines
  {
    tallyAfter := tally.(lines := Add(tally.lines, lines), branches := Add(tally.branches, branches));
    logicAfter, controllersAfter := logic, controllers;
    if isController {
      controllersAfter := Add(controllers, lines);
      tallyAfter := tallyAfter.(controllerLines := Add(tally.controllerLines, lines),
                                controllerBranches := Add(tally.controllerBranches, branches));
    } else {
      logicAfter := Add(logic, lines);
      tallyAfter := tallyAfter.(coreLines := Add(tally.coreLines, lines),
                                coreBranches := Add(tally.coreBranches, branches));
    }
  }

  /** The listing half of the class loop's body: a controller class goes
      to the controller list; any other class goes to the class list when
      the package name contains "WebAPI" in any case. */
  method ListClass(history: ReportHistory, packageName: string, cls: Element)
    modifies history`classDetails, history`controllerDetails
    ensures history.classDetails == old(history.classDetails) + LogicDetailFor(packageName, cls)
    ensures history.controllerDetails == old(history.controllerDetails) + ControllerDetailFor(packageName, cls)
  {
    var detail := DetailOf(packageName, cls);
    if IsController(packageName, NameOf(cls)) {
      history.controllerDetails := history.controllerDetails + [detail];
    } else if ContainsIgnoreCase(packageName, "WebAPI") {
      history.classDetails := history.classDetails + [detail];
    }
  }
}
