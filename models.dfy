/** The rows of the project's read-only stores, as the browser reads them.
    Columns the stores may hold as NULL are `Option`s; numbers are
    integers (see README for the floating-point columns). */
module Models {
  import opened Wrappers

  /** A row of `datapoint_type` in the identity store. */
  datatype DpType = DpType(
    dptId: int,
    canonicalName: string,
    nextFreeElId: int,
    modificationTime: int)

  /** A row of `datapoint_element`: one node of a type's element tree,
      pointing at its parent by `parentElId` (0 for the root). */
  datatype DpElement = DpElement(
    elId: int,
    dptId: int,
    positionInType: int,
    parentElId: int,
    dataType: int,
    referencedType: int,
    sourceDptId: int,
    sourceElId: int,
    canonicalName: string,
    modificationTime: int)

  /** A row of `datapoint`: one instance of a type. */
  datatype Datapoint = Datapoint(
    dpId: int,
    dptId: int,
    canonicalName: string,
    modificationTime: int)

  datatype DisplayName = DisplayName(dpId: int, elId: int, languageId: int, text: string)

  datatype UnitAndFormat = UnitAndFormat(dpId: int, elId: int, languageId: int, unit: Option<string>, format: string)

  datatype AddressConfig = AddressConfig(
    dpId: int, elId: int,
    reference: Option<string>,
    subindex: int, offset: int, responseMode: int, dataType: int,
    drvIdent: Option<string>, pollGroup: Option<string>, connection: Option<string>,
    modificationTime: int)

  datatype AlertHdlConfig = AlertHdlConfig(
    dpId: int, elId: int,
    configType: int, variableType: int, active: int, origHdl: int, impulse: int,
    okRange: Option<int>, discreteStates: int, multiInstance: int, minPrio: int,
    panel: Option<string>, modificationTime: int)

  /** One range of an alert configuration, numbered by `detailNr`. */
  datatype AlertHdlDetail = AlertHdlDetail(
    dpId: int, elId: int,
    detailNr: int, rangeType: int, addText: Option<string>,
    classDpId: int, classElId: int,
    hystType: int, hystTime: int, lHystLimit: Option<int>, uHystLimit: Option<int>,
    lLimit: Option<int>, lIncl: int, uLimit: Option<int>, uIncl: int,
    matchText: Option<string>, neg: int)

  datatype ArchiveConfig = ArchiveConfig(dpId: int, elId: int, archive: int, modificationTime: int)

  datatype ArchiveDetail = ArchiveDetail(
    dpId: int, elId: int,
    detailNr: int, procType: int, roundInv: int, roundVal: int,
    intervType: int, interv: int, stdType: int, stdTol: int, stdTime: int,
    archiveClass: Option<string>)

  datatype PvRangeConfig = PvRangeConfig(
    dpId: int, elId: int,
    configType: int, variableType: int, ignorInv: int, neg: int,
    min: Option<int>, max: Option<int>, inclMin: int, inclMax: int,
    matchText: Option<string>, modificationTime: int)

  datatype SmoothConfig = SmoothConfig(
    dpId: int, elId: int,
    smoothType: int, stdType: int, stdTime: Option<int>, stdTol: Option<int>,
    modificationTime: int)

  datatype DistribConfig = DistribConfig(dpId: int, elId: int, driverNumber: int, modificationTime: int)

  /** The stored value of a `last_value` row: SQLite's NULL, integer or text storage classes. */
  datatype SqlValue = SqlNull | SqlInt(i: int) | SqlText(t: string)

  /** A row of `last_value`, one per (element, array index, language). */
  datatype LastValue = LastValue(
    dpId: int, elId: int,
    dynIdx: int, languageId: int,
    value: SqlValue, variableType: int,
    originalTime: Option<int>, systemTime: Option<int>,
    status64: Option<int>, userId: int, managerId: int)

  /** Everything configured for one element; every part may be absent. */
  datatype DpeConfigs = DpeConfigs(
    address: Option<AddressConfig>,
    alertHdl: Option<AlertHdlConfig>,
    alertHdlDetails: seq<AlertHdlDetail>,
    archive: Option<ArchiveConfig>,
    archiveDetail: Option<ArchiveDetail>,
    pvRange: Option<PvRangeConfig>,
    smooth: Option<SmoothConfig>,
    distrib: Option<DistribConfig>,
    lastValue: Option<LastValue>,
    displayName: Option<DisplayName>,
    unitAndFormat: Option<UnitAndFormat>)
}
