/** The record types the legacy parser fills in: a report history with its
    summary numbers and three lists, the per-package summary rows and the
    per-class detail rows. The database keys and navigation properties are
    persistence plumbing and are not modelled. */
module Entities {

  /** A summary row of the legacy report. */
  datatype PackageSummary = PackageSummary(
    packageName: string,
    lineRate: real,
    branchRate: real,
    complexity: real,
    classCount: int,
    linesCovered: int,
    linesTotal: int)

  /** A class row of the legacy report. */
  datatype ClassDetail = ClassDetail(
    packageName: string,
    className: string,
    lineRate: real,
    branchRate: real,
    complexity: real,
    linesCovered: int,
    linesTotal: int,
    isTarget: bool)

  const DEFAULT_TARGET_CORE_LINE_RATE: real := 0.6
  const DEFAULT_EXCLUSION_PATTERN: string := ".Controller"

  class ReportHistory {
    var id: int
    var uploadDate: int

    var lineRate: real
    var branchRate: real
    var coreLineRate: real
    var coreBranchRate: real
    var controllerLineRate: real
    var controllerBranchRate: real
    var targetCoreLineRate: real
    var exclusionPattern: string

    var parseDurationMs: int
    var fileSizeBytes: int

    var linesCovered: int
    var linesTotal: int
    var coreLinesCovered: int
    var coreLinesTotal: int
    var controllerLinesCovered: int
    var controllerLinesTotal: int

    var records: seq<PackageSummary>
    var classDetails: seq<ClassDetail>
    var controllerDetails: seq<ClassDetail>

    /** `new ReportHistory { UploadDate = ..., FileSizeBytes = ... }`: the
        two given fields, a 60% core target, the ".Controller" pattern,
        empty lists and zero everywhere else. */
    constructor (uploadDate: int, fileSizeBytes: int)
      ensures this.uploadDate == uploadDate && this.fileSizeBytes == fileSizeBytes
      ensures id == 0 && parseDurationMs == 0
      ensures targetCoreLineRate == DEFAULT_TARGET_CORE_LINE_RATE
      ensures exclusionPattern == DEFAULT_EXCLUSION_PATTERN
      ensures lineRate == 0.0 && branchRate == 0.0 && coreLineRate == 0.0 && coreBranchRate == 0.0
      ensures controllerLineRate == 0.0 && controllerBranchRate == 0.0
      ensures linesCovered == 0 && linesTotal == 0 && coreLinesCovered == 0 && coreLinesTotal == 0
      ensures controllerLinesCovered == 0 && controllerLinesTotal == 0
      ensures records == [] && classDetails == [] && controllerDetails == []
    {
      id := 0;
      this.uploadDate := uploadDate;
      lineRate, branchRate := 0.0, 0.0;
      coreLineRate, coreBranchRate := 0.0, 0.0;
      controllerLineRate, controllerBranchRate := 0.0, 0.0;
      targetCoreLineRate := DEFAULT_TARGET_CORE_LINE_RATE;
      exclusionPattern := DEFAULT_EXCLUSION_PATTERN;
      parseDurationMs := 0;
      this.fileSizeBytes := fileSizeBytes;
      linesCovered, linesTotal := 0, 0;
      coreLinesCovered, coreLinesTotal := 0, 0;
      controllerLinesCovered, controllerLinesTotal := 0, 0;
      records, classDetails, controllerDetails := [], [], [];
    }
  }
}
