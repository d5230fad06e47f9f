# CoverageReport core, modelled in Dafny

CoverageReport reads Cobertura coverage reports (XML) and totals them.
A report holds packages, each package holds classes, and each class carries
line and branch counters. This project models the two parsers that walk that
tree and the domain objects they fill.

- **Domain model** (`CoverageMetrics.dfy`, `ClassDetail.dfy`,
  `PackageSummary.dfy`, `CoverageReportAggregate.dfy`).
  - `CoverageMetrics` is an immutable covered/total pair. It has a rate and a
    `+`.
  - `ClassDetail` is a class record. Only its `IsTarget` flag can change after
    construction.
  - `PackageSummary` is an append-only list of classes whose totals are
    folded on demand.
  - `CoverageReportAggregate` is the parse result. It holds packages, an
    exclusion pattern and optional "forced" totals. It derives the total,
    core and controller line metrics from its classes.
- **Current parser** (`CoberturaXmlParser.dfy`, module `CoberturaParser`).
  - It skips test packages and builds one `ClassDetail` per class element.
  - It keeps only the packages that end up with classes.
  - It reports progress 0.05, then one value in (0.05, 0.95] per class of a
    non-test package, then 1.0.
- **Legacy parser** (`XmlParserService.dfy`, module `LegacyParser`, facts in
  `LegacyFacts.dfy`).
  - It fills a `ReportHistory` entity (`Entities.dfy`).
  - It keeps twelve running totals.
  - It classifies controllers by a fixed rule.
  - It writes "(Logic)" and "(Controllers)" summary rows per package, plus two
    class lists.
  - It reports progress once per non-test package.
- **Shared pieces.**
  - `Cobertura.dfy` holds the document shape both parsers read: where
    packages, classes and lines sit, the "Unknown" name default, the
    test-package rule, and the line and branch counters with their fallbacks.
  - `Xml.dfy` is a parsed element tree.
  - `Text.dfy` holds the string helpers: ASCII case-insensitive search,
    last index, and integer and real parsing.
  - `Wrappers.dfy` holds `Option` and `Result`.

Where the source changes state, the model does too. Records whose fields are
updated in place are classes with `modifies` frames: `ClassDetail`,
`PackageSummary`, `CoverageReportAggregate` and `ReportHistory`. Both
`ParseAsync` loops are `while` loops. Each is proved against a specification
function of the input: `ExpectedPackages` and `ExpectedProgress`, or
`TallyOf`, `RowsOf`, `ClassDetailsOf`, `ControllerDetailsOf` and `TicksOf`.
Lemmas then state what those functions promise.

Three inputs become parameters:

- the current time (`now`);
- the UTF-8 byte count of the input (`fileSizeBytes`);
- the stopwatch reading (`elapsedMs`).

The progress callback becomes a ghost out-parameter: the sequence of values
reported, in order.

## Model

| member | source | states |
|---|---|---|
| Metrics.RateMeaning | Domain/Models/CoverageMetrics.cs:5 | With a positive total, rate × total is the covered count. With no positive total the rate is 0. A well-formed pair has a rate in [0, 1]. |
| Metrics.Add | Domain/Models/CoverageMetrics.cs:9-10 | The sum of two well-formed pairs is well formed. |
| Metrics.EmptyIsIdentity | Domain/Models/CoverageMetrics.cs:7-10 | `Empty` is a left and right identity of `+`. |
| Metrics.AddCommutes | Domain/Models/CoverageMetrics.cs:9-10 | `+` is commutative. |
| Metrics.AddAssociates | Domain/Models/CoverageMetrics.cs:9-10 | `+` is associative. |
| Metrics.SumWellFormed | Domain/Models/PackageSummary.cs:18-19 | Folding well-formed metrics from `Empty` gives a well-formed total. |
| Metrics.SumAppend | Domain/Models/PackageSummary.cs:18-19 | Folding a concatenation adds the folds of its parts. |
| Metrics.SumPermutation | Domain/Models/CoverageReportAggregate.cs:40 | The fold does not depend on the order of its elements: two permutations of each other have the same total. |
| ClassDetails.ClassDetail.constructor | Domain/Models/ClassDetail.cs:11-18 | The five given values are stored and `IsTarget` starts false. |
| ClassDetails.ClassDetail.SetIsTarget | Domain/Models/ClassDetail.cs:20 | Only the flag changes, to the value given. |
| ClassDetails.ClassDetail.Namespace | Domain/Models/ClassDetail.cs:22-24 | Without a '.', the namespace is "". Otherwise it is the prefix before the last '.': the full name is the namespace, then '.', then a '.'-free rest. |
| ClassDetails.WhereMembers | Domain/Models/CoverageReportAggregate.cs:39 | `Where(f)` keeps exactly the classes that satisfy `f`. |
| ClassDetails.WhereSplitsLines | Domain/Models/CoverageReportAggregate.cs:39-44 | Two complementary filters split the line total into two parts that add up to the whole. |
| ClassDetails.WhereNone | Domain/Models/CoverageReportAggregate.cs:39-48 | A filter that holds of no class keeps none. |
| ClassDetails.WhereAll | Domain/Models/CoverageReportAggregate.cs:39-48 | A filter that holds of every class keeps all of them. |
| Packages.PackageSummary.constructor | Domain/Models/PackageSummary.cs:9-14 | The name is stored and the class list starts empty. |
| Packages.PackageSummary.AddClass | Domain/Models/PackageSummary.cs:16 | The class is appended at the end. The line and branch totals grow by exactly its metrics. |
| Packages.PackageSummary.TotalLineCoverage | Domain/Models/PackageSummary.cs:18-19 | `Empty` for no classes. Well formed when every class's line metrics are. |
| Packages.PackageSummary.TotalBranchCoverage | Domain/Models/PackageSummary.cs:21-22 | `Empty` for no classes. Well formed when every class's branch metrics are. |
| Packages.TotalsIgnoreOrder | Domain/Models/PackageSummary.cs:16-22 | Two packages holding the same classes in any order have the same line and branch totals. |
| Reports.CoverageReportAggregate.constructor | Domain/Models/CoverageReportAggregate.cs:9-21 | Stores the date, size and pattern; the pattern defaults to ".Controller". No packages, id 0, duration 0, nothing forced. |
| Reports.CoverageReportAggregate.AddPackage | Domain/Models/CoverageReportAggregate.cs:23 | The package is appended at the end and nothing else changes. |
| Reports.CoverageReportAggregate.UpdateExclusionPattern | Domain/Models/CoverageReportAggregate.cs:25-28 | Only the pattern changes, so the overall total stays the same. |
| Reports.CoverageReportAggregate.GetTotalMetrics | Domain/Models/CoverageReportAggregate.cs:36-41 | Without a filter or packages: the forced total, else `Empty`. With a filter and no packages: `Empty`. Without a filter and with packages: the sum of the package line totals. |
| Reports.CoverageReportAggregate.CoreMetrics | Domain/Models/CoverageReportAggregate.cs:43-50 | Without packages: the forced value, else `Empty`. With an empty pattern nothing is excluded, so it equals the total. |
| Reports.CoverageReportAggregate.ControllerMetrics | Domain/Models/CoverageReportAggregate.cs:44-50 | Without packages: the forced value, else `Empty`. With an empty pattern it is `Empty`. |
| Reports.CoverageReportAggregate.IsExcluded | Domain/Models/CoverageReportAggregate.cs:43-50 | A class is excluded exactly when the `ControllerMetrics` filter keeps it and the `CoreMetrics` filter drops it. An empty pattern excludes nothing. An exact-case occurrence of a non-empty pattern always excludes. |
| Reports.ExclusionRule | Domain/Models/CoverageReportAggregate.cs:46-50 | The classifier rule (`MatchesExclusion`) holds exactly when the pattern is not empty and, once both are case-folded, occurs in the full name at some index. |
| Reports.FlattenMembers | Domain/Models/CoverageReportAggregate.cs:30 | `AllClasses` holds exactly the classes of the report's packages. |
| Reports.FlattenTotals | Domain/Models/CoverageReportAggregate.cs:30-41 | Adding up every class of every package equals adding up the package totals. |
| Reports.CoreAndControllerMakeTotal | Domain/Models/CoverageReportAggregate.cs:36-50 | When packages are loaded, or nothing is forced, core plus controller metrics equal the total, for any pattern. |
| Cobertura.LineCounters | Infrastructure/Parsers/CoberturaXmlParser.cs:43-46 | Each line counter comes from its attribute when that parses. Otherwise it is repaired from the `<line>` children: the total is their count, and covered is the size of the set of positions of hit lines. Repaired counters are well formed. |
| Cobertura.BranchesIgnoreLines | Infrastructure/Parsers/CoberturaXmlParser.cs:43-49 | Unlike the line counters, the branch counters (`BranchMetrics`) never fall back to the `<line>` children. Two class elements with the same attributes have the same branch counters, whatever lines they hold. |
| Cobertura.HitCount | Infrastructure/Parsers/CoberturaXmlParser.cs:45-46 | No more lines are hit than there are lines. |
| Cobertura.HitCountMeaning | Infrastructure/Parsers/CoberturaXmlParser.cs:45-46 | The hit count is exactly the number of positions whose line is hit. |
| Cobertura.IsHit | Infrastructure/Parsers/CoberturaXmlParser.cs:45-46 | A line without a `hits` attribute is never hit. |
| Cobertura.TestRuleIgnoresCase | Infrastructure/Parsers/CoberturaXmlParser.cs:29-30 | The test-package rule (`IsTestPackage`) gives the same answer on the case-folded package name. |
| Cobertura.FallbackCountingExample | Infrastructure/Parsers/CoberturaXmlParser.cs:43-49 | A class without counters but with three lines, two of them hit, gets lines (2, 3) and branches (0, 0). |
| CoberturaParser.ShortName | Infrastructure/Parsers/CoberturaXmlParser.cs:41-59 | In the record `ClassInfoOf` builds, the short name has no '.'. It equals the full name exactly when the full name has no '.'. Otherwise the full name is some prefix, then '.', then the short name. |
| CoberturaParser.ClassInfos | Infrastructure/Parsers/CoberturaXmlParser.cs:39-61 | One class record per class element. |
| CoberturaParser.ExpectedPackagesKept | Infrastructure/Parsers/CoberturaXmlParser.cs:27-74 | No more packages than package elements. None is a test package and none is empty. |
| CoberturaParser.ExpectedPackagesComplete | Infrastructure/Parsers/CoberturaXmlParser.cs:27-74 | Every non-test, non-empty package element is in the result, and everything in the result comes from one. |
| CoberturaParser.ProgressAt | Infrastructure/Parsers/CoberturaXmlParser.cs:64-67 | For 0 ≤ processed ≤ total, the value lies in [0.05, 0.95]. |
| CoberturaParser.ProgressAtIncreases | Infrastructure/Parsers/CoberturaXmlParser.cs:67 | More classes processed give a strictly larger value. |
| CoberturaParser.ReportedCountsIncrease | Infrastructure/Parsers/CoberturaXmlParser.cs:24-67 | The counters reported per class lie in 1..(class count) and strictly increase. The classes of test packages are counted but not reported. |
| CoberturaParser.ExpectedProgress | Infrastructure/Parsers/CoberturaXmlParser.cs:16-79 | The progress log starts with 0.05 and ends with 1.0. |
| CoberturaParser.ProgressIncreases | Infrastructure/Parsers/CoberturaXmlParser.cs:16-79 | The progress values start at 0.05, end at 1.0 and strictly increase. There is one value per reported class in between. |
| CoberturaParser.Parse | Infrastructure/Parsers/CoberturaXmlParser.cs:12-82 | A document without a root fails after reporting 0.05. Otherwise the result is a fresh report with the given date, size and pattern (".Controller" by default), the elapsed time and nothing forced. It holds exactly the packages and progress the specification functions give. Every package and class in it is fresh, and no class is a target. Every package and class is a separate object (`Separate`): no package appears twice, no class appears twice in a package, and no class belongs to two packages. |
| CoberturaParser.AddPackageNodes | Infrastructure/Parsers/CoberturaXmlParser.cs:27-75 | After the package loop, the report holds `ExpectedPackages` in document order. The progress log is the per-class reports. The other fields keep their constructor values. Every package and class added is fresh, and no class is a target. All of them are separate objects (`Separate`). |
| CoberturaParser.AddPackageNode | Infrastructure/Parsers/CoberturaXmlParser.cs:29-74 | A test package only advances the counter by its class count. Any other package is appended exactly when it has classes. Earlier packages stay, and what is appended is fresh with untargeted fresh classes. Separate objects stay separate. |
| CoberturaParser.AddNamedPackage | Infrastructure/Parsers/CoberturaXmlParser.cs:36-74 | A non-test package is built from its class elements and appended exactly when it has at least one. Earlier packages stay, and what is appended is fresh with untargeted fresh classes. Separate objects stay separate. |
| CoberturaParser.NewPackage | Infrastructure/Parsers/CoberturaXmlParser.cs:36-69 | A fresh package holds one record per class element, in order. Each record is a fresh object of its own, and none is a target. The counter advances by the class count, with one progress report per class when the total is positive. |
| CoberturaParser.AddClassNode | Infrastructure/Parsers/CoberturaXmlParser.cs:41-61 | The record built from the class element is appended to the package, after the unchanged earlier records. The new record is fresh and not a target. |
| Entities.ReportHistory.constructor | Models/Entities.cs:8-45 | Target rate 0.6, pattern ".Controller", empty lists, and zero everywhere else. The date and size are stored. |
| LegacyParser.Parse | Services/XmlParserService.cs:10-172 | A document without a root fails before anything is reported. Otherwise the result is a fresh history `Parsed` from the root's packages, and the progress log is `TicksOf` them. |
| LegacyParser.ParsePackages | Services/XmlParserService.cs:19-171 | A fresh history holds the creation defaults, the elapsed time, the totals and rates of `TallyOf`, and the three lists of the packages. |
| LegacyParser.WalkPackages | Services/XmlParserService.cs:44-151 | The package loop returns `TallyOf(packages)` and fills the lists with `RowsOf`, `ClassDetailsOf` and `ControllerDetailsOf`. It reports `TicksOf`, and the header fields stay unchanged. |
| LegacyParser.WalkPackage | Services/XmlParserService.cs:46-150 | A test package changes nothing. Any other package adds its classes, rows and details, and one progress report. |
| LegacyParser.AddPackage | Services/XmlParserService.cs:51-142 | A package's classes are counted into the totals. Its summary rows and class lists are appended. |
| LegacyParser.AddClasses | Services/XmlParserService.cs:59-120 | The class loop counts every class into the totals and into the package's logic or controller subtotal, and appends its row to the matching list. |
| LegacyParser.CountClass | Services/XmlParserService.cs:79-113 | One class's counters go into the report totals, and into either the controller totals or the core totals. |
| LegacyParser.ListClass | Services/XmlParserService.cs:84-119 | A controller class is listed under controller details. A logic class is listed under class details only when the package name contains "WebAPI". |
| LegacyParser.IsController | Services/XmlParserService.cs:75-77 | A class name containing ".Controller" or ending in "Controller" with that exact case is a controller in every package. |
| LegacyParser.LineRateOf | Services/XmlParserService.cs:71-72 | A parsed `line-rate` is taken as is. Without one, the rate explains the line counters: rate × total is the covered count, and the rate is 0 when there is no positive total. |
| LegacyParser.DetailOf | Services/XmlParserService.cs:84-93 | A class row is never a target. Without a `line-rate` attribute, its rate explains its own line counts. |
| LegacyParser.NamedAsController | Services/XmlParserService.cs:127-137 | The row rule counts no class without a `name` attribute, because the default name is "". |
| LegacyParser.Summarize | Services/XmlParserService.cs:153-169 | The twelve summary fields are the totals and their rates (0 for no total). The duration is the elapsed time, and nothing else changes. |
| LegacyFacts.TallySplits | Services/XmlParserService.cs:79-163 | Report lines equal core lines plus controller lines, and the same holds for branches. |
| LegacyFacts.TestPackagesIgnored | Services/XmlParserService.cs:46-49 | Totals, rows and both class lists equal those of the non-test packages alone. The processed count is their number. |
| LegacyFacts.NonTestPackagesKept | Services/XmlParserService.cs:46-49 | Every package kept is one of the input's, and not a test package. |
| LegacyFacts.ControllerDetailsMembers | Services/XmlParserService.cs:75-104 | A record is a controller detail if and only if it was built from a class the controller rule accepts. |
| LegacyFacts.LogicDetailsMembers | Services/XmlParserService.cs:105-119 | A record is a class detail if and only if the package name contains "WebAPI" and it was built from a class the controller rule rejects. |
| LegacyFacts.DetailsPartition | Services/XmlParserService.cs:95-119 | In a "WebAPI" package every class is listed exactly once across the two lists. Elsewhere no class detail is listed. |
| LegacyFacts.RowsRates | Services/XmlParserService.cs:123-142 | Every row `SummaryRows` writes has a positive line total, and its rate × total is its covered count. |
| LegacyFacts.RowsLines | Services/XmlParserService.cs:123-142 | With nonnegative subtotals, the rows' line totals add up to logic plus controller lines. |
| LegacyFacts.RowsCoverPackage | Services/XmlParserService.cs:54-142 | With nonnegative subtotals, the summary rows of a package (`PackageRows`) cover exactly its lines. |
| LegacyFacts.NameCountPartition | Services/XmlParserService.cs:127-137 | The "(Logic)" and "(Controllers)" class counts add up to the package's class count. |
| LegacyFacts.NamedImpliesController | Services/XmlParserService.cs:75-137 | A class the row rule counts as a controller is a controller under the classification rule. |
| LegacyFacts.ControllerCountBounded | Services/XmlParserService.cs:103-137 | The "(Controllers)" class count never exceeds the number of controller details of the package. |
| LegacyFacts.TicksCounted | Services/XmlParserService.cs:26-147 | The k-th report is (k + 1) of the package count, with one report per non-test package. |
| LegacyFacts.NonTestCountFull | Services/XmlParserService.cs:44-144 | All packages are counted if and only if none is a test package. |
| LegacyFacts.LegacyProgressIncreases | Services/XmlParserService.cs:26-150 | One value per non-test package. Each lies in (0, 1] and the values strictly increase. The last is 1.0 exactly when there are no test packages. |

## Left out

- XML text parsing (`XDocument.Parse`) and its exceptions are not modelled. The parsers start from an element tree, and "no root" is the one error kept.
- `TryParse` is modelled as accepting an optional sign and decimal digits (integers), or digits with one optional point (reals). Culture, exponents, whitespace and the `long` range are not modelled.
- `double` is modelled as `real` and `long` as `int`, so rounding and overflow are not modelled.
- `StringComparison.OrdinalIgnoreCase` is modelled as ASCII case folding. Unicode case mapping is not modelled.
- Database ids, EF attributes and navigation properties of the entities are not modelled. Only the fields the legacy parser sets are kept.
- `async`, `Task.Run` and `Task.Yield` are not modelled. Both parsers are sequential.
- `IProgress<double>` is modelled as a ghost log of the values reported. Callbacks and their timing are not modelled.
- `DateTime.Now`, the stopwatch and `Encoding.UTF8.GetByteCount` are parameters of `Parse`.
- LegacyParser.WalkPackages keeps the twelve accumulators as six covered/total pairs (`Tally`). The four per-package subtotals are the core and controller lines of a package-local `Tally`.
- LegacyParser.AddClasses splits the class loop body into a counting half (`CountClass`) and a listing half (`ListClass`). It runs them in the source's order within each iteration.
- LegacyParser.NamedAsController reads the `EndsWith("Controller")` of the row class counts (Services/XmlParserService.cs:127, 137) as an ordinal test. .NET compares there by the current culture, so a name ending in "Controller" followed by a culture-ignorable character (a soft hyphen, say) may count in the source but not in the model. LegacyFacts.NamedImpliesController and LegacyFacts.ControllerCountBounded rest on the ordinal reading.
- LegacyFacts.RowsCoverPackage holds only when the package's logic and controller line subtotals are nonnegative. Negative counters in the input can make a subtotal non-positive, which drops its row.
- Reports.CoverageReportAggregate.GetTotalMetrics takes its filter as a total function (`ClassDetail -> bool`), so a filter may read only the fields a `ClassDetail` never changes. It cannot read `IsTarget`. The source accepts any `Func<ClassDetail, bool>`. Its only callers, `CoreMetrics` and `ControllerMetrics`, pass filters on the full name.
- The forced-metrics setters of `CoverageReportAggregate` are plain field writes and have no operation of their own.
- Repositories, `CoverageService`, the CQRS commands and queries, the application service and `Program.cs` are not part of this model.
- Null strings are not modelled. An exclusion pattern is always a string, and the `IsNullOrEmpty` test of `IsExcluded` is the empty-string test. The `".Controller"` default of the pattern is a default parameter value.
