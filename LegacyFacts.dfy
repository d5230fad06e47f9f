/** What the legacy parser's results mean: the report totals split into
    core and controller parts, test packages leave no trace, the two class
    lists partition a package's classes by the controller rule, the
    summary rows account for every line of a package, the rows' class
    counts use a narrower rule than the lists, and the progress reports
    climb strictly towards 1. */
module LegacyFacts {
  import opened Text
  import opened Xml
  import opened Metrics
  import opened Cobertura
  import opened Entities
  import opened LegacyParser

  // ---------------------------------------------------------------------
  // Totals
  // ---------------------------------------------------------------------

  /** Every counted line and branch is either a core or a controller one. */
  predicate Split(t: Tally) {
    t.lines == Add(t.coreLines, t.controllerLines) && t.branches == Add(t.coreBranches, t.controllerBranches)
  }

  lemma SplitLines(t: Tally)
    requires Split(t)
    ensures t.lines.total == t.coreLines.total + t.controllerLines.total
  {
  }

  lemma CountMetricsSplit(t: Tally, controller: bool, l: CoverageMetrics, b: CoverageMetrics)
    requires Split(t)
    ensures Split(CountMetrics(t, controller, l, b))
  {
  }

  lemma {:induction false} CountAllSplit(t: Tally, packageName: string, classes: seq<Element>)
    requires Split(t)
    ensures Split(CountAll(t, packageName, classes))
  {
    if |classes| > 0 {
      var last := classes[|classes| - 1];
      CountAllSplit(t, packageName, classes[..|classes| - 1]);
      CountMetricsSplit(CountAll(t, packageName, classes[..|classes| - 1]), IsController(packageName, NameOf(last)),
                        LineMetrics(last), BranchMetrics(last));
    }
  }

  /** The report's line and branch totals are the core totals plus the
      controller totals. */
  lemma {:induction false} TallySplits(packages: seq<Element>)
    ensures var t := TallyOf(packages);
      t.lines == Add(t.coreLines, t.controllerLines) && t.branches == Add(t.coreBranches, t.controllerBranches)
  {
    if |packages| > 0 {
      var init, p := packages[..|packages| - 1], packages[|packages| - 1];
      TallySplits(init);
      if !IsTestPackage(NameOf(p)) {
        CountAllSplit(TallyOf(init), NameOf(p), ClassNodes(p));
      }
    }
  }

  // ---------------------------------------------------------------------
  // Test packages
  // ---------------------------------------------------------------------

  /** The package elements that are not test packages, in order. */
  function NonTestPackages(packages: seq<Element>): seq<Element> {
    if |packages| == 0 then []
    else
      var p := packages[|packages| - 1];
      NonTestPackages(packages[..|packages| - 1]) + (if IsTestPackage(NameOf(p)) then [] else [p])
  }

  lemma FoldsAppend(ps: seq<Element>, p: Element)
    ensures TallyOf(ps + [p]) == PackageTally(TallyOf(ps), p)
    ensures RowsOf(ps + [p]) == RowsOf(ps) + RowsFor(p)
    ensures ClassDetailsOf(ps + [p]) == ClassDetailsOf(ps) + ClassDetailsFor(p)
    ensures ControllerDetailsOf(ps + [p]) == ControllerDetailsOf(ps) + ControllerDetailsFor(p)
  {
    assert (ps + [p])[..|ps|] == ps;
  }

  /** Dropping the test packages first changes none of the totals, rows
      or lists: they are skipped entirely. What is left is one package
      element per progress report. */
  lemma {:induction false} TestPackagesIgnored(packages: seq<Element>)
    ensures var kept := NonTestPackages(packages);
      |kept| == NonTestCount(packages) &&
      TallyOf(kept) == TallyOf(packages) && RowsOf(kept) == RowsOf(packages) &&
      ClassDetailsOf(kept) == ClassDetailsOf(packages) && ControllerDetailsOf(kept) == ControllerDetailsOf(packages)
  {
    if |packages| > 0 {
      var init, p := packages[..|packages| - 1], packages[|packages| - 1];
      TestPackagesIgnored(init);
      var kept := NonTestPackages(init);
      if IsTestPackage(NameOf(p)) {
        assert NonTestPackages(packages) == kept;
        assert TallyOf(packages) == TallyOf(init);
        assert RowsOf(packages) == RowsOf(init);
        assert ClassDetailsOf(packages) == ClassDetailsOf(init);
        assert ControllerDetailsOf(packages) == ControllerDetailsOf(init);
      } else {
        assert NonTestPackages(packages) == kept + [p];
        FoldsAppend(kept, p);
      }
    }
  }

  /** No test package is kept. */
  lemma {:induction false} NonTestPackagesKept(packages: seq<Element>)
    ensures forall p :: p in NonTestPackages(packages) ==> p in packages && !IsTestPackage(NameOf(p))
  {
    if |packages| > 0 {
      var init := packages[..|packages| - 1];
      NonTestPackagesKept(init);
      assert packages == init + [packages[|packages| - 1]];
    }
  }

  // ---------------------------------------------------------------------
  // The class lists
  // ---------------------------------------------------------------------

  /** The controller list of a package holds the row of every class the
      controller rule picks, and nothing else. */
  lemma {:induction false} ControllerDetailsMembers(packageName: string, classes: seq<Element>)
    ensures forall d :: d in ControllerDetailsIn(packageName, classes) <==>
      exists c :: c in classes && IsController(packageName, NameOf(c)) && d == DetailOf(packageName, c)
  {
    if |classes| > 0 {
      var init, last := classes[..|classes| - 1], classes[|classes| - 1];
      ControllerDetailsMembers(packageName, init);
      assert classes == init + [last];
      forall d | d in ControllerDetailsIn(packageName, classes)
        ensures exists c :: c in classes && IsController(packageName, NameOf(c)) && d == DetailOf(packageName, c)
      {
        if d !in ControllerDetailsIn(packageName, init) {
          assert last in classes;
        }
      }
    }
  }

  /** The class list of a package holds the row of every class the
      controller rule leaves out, provided the package name contains
      "WebAPI" in any case, and nothing else. */
  lemma {:induction false} LogicDetailsMembers(packageName: string, classes: seq<Element>)
    ensures forall d :: d in LogicDetailsIn(packageName, classes) <==>
      ContainsIgnoreCase(packageName, "WebAPI") &&
      exists c :: c in classes && !IsController(packageName, NameOf(c)) && d == DetailOf(packageName, c)
  {
    if |classes| > 0 {
      var init, last := classes[..|classes| - 1], classes[|classes| - 1];
      LogicDetailsMembers(packageName, init);
      assert classes == init + [last];
      forall d | d in LogicDetailsIn(packageName, classes)
        ensures exists c :: c in classes && !IsController(packageName, NameOf(c)) && d == DetailOf(packageName, c)
      {
        if d !in LogicDetailsIn(packageName, init) {
          assert last in classes;
        }
      }
    }
  }

  /** In a "WebAPI" package every class is listed exactly once, in one of
      the two lists; elsewhere only the controllers are listed. */
  lemma {:induction false} DetailsPartition(packageName: string, classes: seq<Element>)
    ensures ContainsIgnoreCase(packageName, "WebAPI") ==>
      |LogicDetailsIn(packageName, classes)| + |ControllerDetailsIn(packageName, classes)| == |classes|
    ensures !ContainsIgnoreCase(packageName, "WebAPI") ==> LogicDetailsIn(packageName, classes) == []
  {
    if |classes| > 0 {
      DetailsPartition(packageName, classes[..|classes| - 1]);
    }
  }

  // ---------------------------------------------------------------------
  // The summary rows
  // ---------------------------------------------------------------------

  /** The line total of a sequence of rows. */
  function RowLines(rows: seq<PackageSummary>): int {
    if |rows| == 0 then 0 else RowLines(rows[..|rows| - 1]) + rows[|rows| - 1].linesTotal
  }

  /** Every summary row has lines and carries covered / total as its line
      rate. */
  lemma RowsRates(packageName: string, logic: CoverageMetrics, controllers: CoverageMetrics, logicCount: nat, controllerCount: nat)
    ensures forall r :: r in SummaryRows(packageName, logic, controllers, logicCount, controllerCount) ==>
      r.linesTotal > 0 && r.lineRate * r.linesTotal as real == r.linesCovered as real
  {
    RateMeaning(logic);
    RateMeaning(controllers);
  }

  /** With neither subtotal negative, the rows hold both subtotals' lines. */
  lemma RowsLines(packageName: string, logic: CoverageMetrics, controllers: CoverageMetrics, logicCount: nat, controllerCount: nat)
    requires logic.total >= 0 && controllers.total >= 0
    ensures RowLines(SummaryRows(packageName, logic, controllers, logicCount, controllerCount)) == logic.total + controllers.total
  {
    var a := if logic.total > 0 then [Row(packageName + " (Logic)", logic, logicCount)] else [];
    var b := if controllers.total > 0 then [Row(packageName + " (Controllers)", controllers, controllerCount)] else [];
    assert SummaryRows(packageName, logic, controllers, logicCount, controllerCount) == a + b;
    assert RowLines(a) == if logic.total > 0 then logic.total else 0 by {
      if |a| == 1 {
        assert a[..0] == [];
      }
    }
    if |b| == 1 {
      assert (a + b)[..|a|] == a;
    } else {
      assert a + b == a;
    }
  }

  /** A package's rows account for every line the package counted, when
      neither its core nor its controller subtotal is negative. */
  lemma RowsCoverPackage(packageName: string, classes: seq<Element>)
    ensures var sub := CountAll(ZERO, packageName, classes);
      sub.coreLines.total >= 0 && sub.controllerLines.total >= 0 ==>
      RowLines(PackageRows(packageName, classes)) == sub.lines.total
  {
    var sub := CountAll(ZERO, packageName, classes);
    var a, b := NameCount(classes, false), NameCount(classes, true);
    assert PackageRows(packageName, classes) == SummaryRows(packageName, sub.coreLines, sub.controllerLines, a, b);
    CountAllSplit(ZERO, packageName, classes);
    RowsCoverTally(packageName, sub, a, b);
  }

  lemma RowsCoverTally(packageName: string, sub: Tally, a: nat, b: nat)
    requires Split(sub)
    ensures sub.coreLines.total >= 0 && sub.controllerLines.total >= 0 ==>
      RowLines(SummaryRows(packageName, sub.coreLines, sub.controllerLines, a, b)) == sub.lines.total
  {
    SplitLines(sub);
    if sub.coreLines.total >= 0 && sub.controllerLines.total >= 0 {
      RowsLines(packageName, sub.coreLines, sub.controllerLines, a, b);
    }
  }

  /** The two row rules together count every class once. */
  lemma {:induction false} NameCountPartition(classes: seq<Element>)
    ensures NameCount(classes, false) + NameCount(classes, true) == |classes|
  {
    if |classes| > 0 {
      NameCountPartition(classes[..|classes| - 1]);
    }
  }

  lemma EmptyHasNoController()
    ensures !Contains("", ".Controller") && !EndsWith("", "Controller")
  {
  }

  /** The rows' rule is narrower than the lists' rule: a class whose name
      contains ".Controller" or ends with "Controller", with that exact
      case, is a controller in every package. */
  lemma NamedImpliesController(packageName: string, cls: Element)
    requires NamedAsController(cls)
    ensures IsController(packageName, NameOf(cls))
  {
    var name := Attribute(cls, "name").GetOr("");
    EmptyHasNoController();
    assert name == NameOf(cls);
    if Contains(name, ".Controller") {
      ContainsImpliesIgnoreCase(name, ".Controller");
    } else {
      EndsWithImpliesIgnoreCase(name, "Controller");
    }
  }

  /** So the class count of a "(Controllers)" row never exceeds the number
      of controller rows listed for the package. */
  lemma {:induction false} ControllerCountBounded(packageName: string, classes: seq<Element>)
    ensures NameCount(classes, true) <= |ControllerDetailsIn(packageName, classes)|
  {
    if |classes| > 0 {
      var last := classes[|classes| - 1];
      ControllerCountBounded(packageName, classes[..|classes| - 1]);
      if NamedAsController(last) {
        NamedImpliesController(packageName, last);
      }
    }
  }

  // ---------------------------------------------------------------------
  // Progress
  // ---------------------------------------------------------------------

  /** The reports are `1/total, 2/total, ...`, one per non-test package. */
  lemma {:induction false} TicksCounted(packages: seq<Element>, total: int)
    ensures var ticks := TicksOf(packages, total);
      |ticks| == NonTestCount(packages) &&
      forall k :: 0 <= k < |ticks| ==> ticks[k] == PackageDone(k + 1, total)
  {
    if |packages| > 0 {
      TicksCounted(packages[..|packages| - 1], total);
    }
  }

  /** All package elements are non-test ones exactly when every one of
      them is counted. */
  lemma {:induction false} NonTestCountFull(packages: seq<Element>)
    ensures NonTestCount(packages) == |packages| <==> forall j :: 0 <= j < |packages| ==> !IsTestPackage(NameOf(packages[j]))
  {
    if |packages| > 0 {
      var init := packages[..|packages| - 1];
      NonTestCountFull(init);
      assert forall j :: 0 <= j < |init| ==> init[j] == packages[j];
    }
  }

  lemma FractionsIncrease(n: int, m: int, total: int)
    requires 0 < n < m <= total
    ensures 0.0 < n as real / total as real < m as real / total as real <= 1.0
  {
    var t := total as real;
    assert m as real / t - n as real / t == (m - n) as real / t;
    assert m as real <= t;
  }

  /** The reported fractions are `1/n, 2/n, ...` for `n` package elements. */
  lemma ProgressFractions(packages: seq<Element>)
    ensures var v := Fractions(TicksOf(packages, |packages|));
      |v| == NonTestCount(packages) &&
      forall k :: 0 <= k < |v| ==> v[k] == (k + 1) as real / |packages| as real
  {
    TicksCounted(packages, |packages|);
    CountedFractions(TicksOf(packages, |packages|), |packages|);
  }

  lemma CountedFractions(ticks: seq<Tick>, total: int)
    requires forall k :: 0 <= k < |ticks| ==> ticks[k] == PackageDone(k + 1, total)
    ensures forall k :: 0 <= k < |ticks| ==> Fractions(ticks)[k] == if total > 0 then (k + 1) as real / total as real else 0.0
  {
  }

  /** The legacy progress: one report per non-test package, each in
      (0, 1], strictly increasing, ending at 1 exactly when the document
      has no test packages. */
  lemma LegacyProgressIncreases(packages: seq<Element>)
    ensures var v := Fractions(TicksOf(packages, |packages|));
      |v| == NonTestCount(packages) &&
      (forall k :: 0 <= k < |v| ==> 0.0 < v[k] <= 1.0) &&
      (forall k, l :: 0 <= k < l < |v| ==> v[k] < v[l]) &&
      (|v| > 0 ==> (v[|v| - 1] == 1.0 <==> forall j :: 0 <= j < |packages| ==> !IsTestPackage(NameOf(packages[j]))))
  {
    var total := |packages|;
    var v := Fractions(TicksOf(packages, total));
    ProgressFractions(packages);
    NonTestCountFull(packages);
    forall k | 0 <= k < |v| ensures 0.0 < v[k] <= 1.0 {
      FractionBounded(k + 1, total);
    }
    StepsIncrease(v, total);
    if |v| > 0 {
      FractionIsOne(|v|, total);
    }
  }

  /** `1/total, 2/total, ...` increases strictly. */
  lemma StepsIncrease(v: seq<real>, total: int)
    requires |v| <= total
    requires forall k :: 0 <= k < |v| ==> v[k] == (k + 1) as real / total as real
    ensures forall k, l :: 0 <= k < l < |v| ==> v[k] < v[l]
  {
    forall k, l | 0 <= k < l < |v| ensures v[k] < v[l] {
      FractionsIncrease(k + 1, l + 1, total);
    }
  }

  lemma FractionBounded(n: int, total: int)
    requires 0 < n <= total
    ensures 0.0 < n as real / total as real <= 1.0
  {
    if n < total {
      FractionsIncrease(n, total, total);
    }
  }

  lemma FractionIsOne(n: int, total: int)
    requires 0 < n <= total
    ensures n as real / total as real == 1.0 <==> n == total
  {
    if n < total {
      FractionsIncrease(n, total, total);
    }
  }
}
