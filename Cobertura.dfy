/** The Cobertura document shape both parsers read: where packages, classes
    and lines sit in the element tree, the names with their "Unknown"
    default, the test-package rule, and how a class's line and branch
    counters are read from its attributes or, failing that, repaired from
    its `<line>` children. */
module Cobertura {
  import opened Wrappers
  import opened Text
  import opened Xml
  import opened Metrics

  const UNKNOWN: string := "Unknown"

  /** The only parse failure either parser reports: a document without a
      root element. */
  datatype ParseError = InvalidCoberturaXml

  /** `root.Element("packages")?.Elements("package") ?? empty`. */
  function PackageNodes(root: Element): seq<Element> {
    match ElementNamed(root, "packages")
    case None => []
    case Some(packages) => ElementsNamed(packages, "package")
  }

  /** `package.Element("classes")?.Elements("class") ?? empty`. */
  function ClassNodes(package: Element): seq<Element> {
    match ElementNamed(package, "classes")
    case None => []
    case Some(classes) => ElementsNamed(classes, "class")
  }

  /** `cls.Element("lines")?.Elements("line") ?? empty`. */
  function LineNodes(cls: Element): seq<Element> {
    match ElementNamed(cls, "lines")
    case None => []
    case Some(lines) => ElementsNamed(lines, "line")
  }

  /** `e.Attribute("name")?.Value ?? "Unknown"`. */
  function NameOf(e: Element): string {
    Attribute(e, "name").GetOr(UNKNOWN)
  }

  /** Packages whose name contains "test" in any case are test projects. */
  predicate IsTestPackage(name: string) {
    ContainsIgnoreCase(name, "Test")
  }

  /** The test-package rule ignores case: it gives the same answer on the
      case-folded name. */
  lemma TestRuleIgnoresCase(name: string)
    ensures IsTestPackage(name) <==> IsTestPackage(Fold(name))
  {
    FoldIdempotent(name);
  }

  /** `long.TryParse(e.Attribute(key)?.Value, ...)`: None when the attribute
      is missing or is not an integer. */
  function IntegerAttribute(e: Element, key: string): Option<int> {
    match Attribute(e, key)
    case None => None
    case Some(v) => ParseInteger(v)
  }

  /** `double.TryParse(e.Attribute(key)?.Value, ...)`. */
  function RealAttribute(e: Element, key: string): Option<real> {
    match Attribute(e, key)
    case None => None
    case Some(v) => ParseReal(v)
  }

  /** A line is hit when its `hits` value, "0" when missing, is not
      literally "0": a line without the attribute is never hit. */
  predicate IsHit(line: Element)
    ensures IsHit(line) ==> Attribute(line, "hits").Some?
  {
    Attribute(line, "hits").GetOr("0") != "0"
  }

  /** `lines.Count(IsHit)`. */
  function HitCount(lines: seq<Element>): (r: nat)
    ensures r <= |lines|
  {
    if |lines| == 0 then 0
    else HitCount(lines[..|lines| - 1]) + (if IsHit(lines[|lines| - 1]) then 1 else 0)
  }

  /** The positions of the hit lines among `lines`. */
  function HitLines(lines: seq<Element>): set<int> {
    set k | 0 <= k < |lines| && IsHit(lines[k])
  }

  /** `HitCount` counts exactly the hit lines. */
  lemma {:induction false} HitCountMeaning(lines: seq<Element>)
    ensures HitCount(lines) == |HitLines(lines)|
  {
    if |lines| == 0 {
      assert HitLines(lines) == {};
    } else {
      var n := |lines| - 1;
      var init := lines[..n];
      HitCountMeaning(init);
      assert forall k :: 0 <= k < n ==> init[k] == lines[k];
      assert HitLines(lines) == HitLines(init) + if IsHit(lines[n]) then {n} else {};
      assert n !in HitLines(init);
    }
  }

  /** A class's line counters: `lines-covered` and `lines-valid` when they
      parse, else the number of hit `<line>` children and of all of them. */
  function LineMetrics(cls: Element): CoverageMetrics {
    var lines := LineNodes(cls);
    CoverageMetrics(
      IntegerAttribute(cls, "lines-covered").GetOr(HitCount(lines)),
      IntegerAttribute(cls, "lines-valid").GetOr(|lines|))
  }

  /** Each line counter comes from its attribute when that parses and is
      repaired from the `<line>` children otherwise; repaired counters are
      well formed. */
  lemma LineCounters(cls: Element)
    ensures var r := LineMetrics(cls);
      (IntegerAttribute(cls, "lines-valid").Some? ==> r.total == IntegerAttribute(cls, "lines-valid").value) &&
      (IntegerAttribute(cls, "lines-valid").None? ==> r.total == |LineNodes(cls)|) &&
      (IntegerAttribute(cls, "lines-covered").Some? ==> r.covered == IntegerAttribute(cls, "lines-covered").value) &&
      (IntegerAttribute(cls, "lines-covered").None? ==> 0 <= r.covered <= |LineNodes(cls)|) &&
      (IntegerAttribute(cls, "lines-covered").None? ==> r.covered == |HitLines(LineNodes(cls))|) &&
      (IntegerAttribute(cls, "lines-valid").None? && IntegerAttribute(cls, "lines-covered").None? ==> WellFormed(r))
  {
    HitCountMeaning(LineNodes(cls));
  }

  /** A class's branch counters: `branches-covered` and `branches-valid`
      when they parse, else 0; there is no fallback to the `<line>` children. */
  function BranchMetrics(cls: Element): CoverageMetrics {
    CoverageMetrics(
      IntegerAttribute(cls, "branches-covered").GetOr(0),
      IntegerAttribute(cls, "branches-valid").GetOr(0))
  }

  /** Unlike the line counters, the branch counters never look at the
      `<line>` children: two class elements with the same attributes have
      the same branch counters, whatever lines they hold. */
  lemma BranchesIgnoreLines(c1: Element, c2: Element)
    requires c1.attributes == c2.attributes
    ensures BranchMetrics(c1) == BranchMetrics(c2)
  {
  }

  /** `complexity` when it parses, else 0. */
  function Complexity(cls: Element): real {
    RealAttribute(cls, "complexity").GetOr(0.0)
  }

  /** The number of class elements in `packages`, test packages included. */
  function ClassCount(packages: seq<Element>): nat {
    if |packages| == 0 then 0
    else ClassCount(packages[..|packages| - 1]) + |ClassNodes(packages[|packages| - 1])|
  }

  /** A class with no counters but three `<line>` children, two of them hit,
      gets lines (2, 3) and branches (0, 0). */
  lemma FallbackCountingExample(hit: Element, miss: Element, cls: Element)
    requires hit == Element("line", map["hits" := "1"], [])
    requires miss == Element("line", map["hits" := "0"], [])
    requires cls == Element("class", map["name" := "App.Core.Foo"], [Element("lines", map[], [hit, miss, hit])])
    ensures LineMetrics(cls) == CoverageMetrics(2, 3) && BranchMetrics(cls) == EMPTY
  {
    var lines := Element("lines", map[], [hit, miss, hit]);
    assert [lines][..0] == [];
    assert ElementsNamed(cls, "lines") == [lines];
    ThreeLines(hit, miss);
    assert LineNodes(cls) == [hit, miss, hit];
    assert "lines-valid" !in cls.attributes && "lines-covered" !in cls.attributes;
    assert "branches-valid" !in cls.attributes && "branches-covered" !in cls.attributes;
  }

  lemma ThreeLines(hit: Element, miss: Element)
    requires hit == Element("line", map["hits" := "1"], [])
    requires miss == Element("line", map["hits" := "0"], [])
    ensures Named([hit, miss, hit], "line") == [hit, miss, hit]
    ensures HitCount([hit, miss, hit]) == 2
  {
    assert [hit, miss, hit][..2] == [hit, miss] && [hit, miss][..1] == [hit] && [hit][..0] == [];
    ThreeLinesNamed(hit, miss);
    ThreeLinesHit(hit, miss);
  }

  lemma ThreeLinesNamed(hit: Element, miss: Element)
    requires hit.name == "line" && miss.name == "line"
    requires [hit, miss, hit][..2] == [hit, miss] && [hit, miss][..1] == [hit] && [hit][..0] == []
    ensures Named([hit, miss, hit], "line") == [hit, miss, hit]
  {
    assert Named([hit], "line") == [hit];
    assert Named([hit, miss], "line") == [hit, miss];
  }

  lemma ThreeLinesHit(hit: Element, miss: Element)
    requires IsHit(hit) && !IsHit(miss)
    requires [hit, miss, hit][..2] == [hit, miss] && [hit, miss][..1] == [hit] && [hit][..0] == []
    ensures HitCount([hit, miss, hit]) == 2
  {
    assert HitCount([hit]) == 1;
    assert HitCount([hit, miss]) == 1;
  }
}
