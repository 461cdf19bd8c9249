/** The read-only catalog: three SQLite stores of a project (identity,
    configuration, last values), opened together and queried by key. */
module Catalog {
  import opened Wrappers
  import opened Seqs
  import opened Models
  import opened Text
  import Json

  /** The identity store (`ident.sqlite`). */
  datatype IdentDb = IdentDb(
    dpTypes: seq<DpType>,
    elements: seq<DpElement>,
    datapoints: seq<Datapoint>,
    displayNames: seq<DisplayName>,
    unitsAndFormats: seq<UnitAndFormat>)

  /** The configuration store (`config.sqlite`). */
  datatype ConfigDb = ConfigDb(
    addresses: seq<AddressConfig>,
    alertHdls: seq<AlertHdlConfig>,
    alertHdlDetails: seq<AlertHdlDetail>,
    archives: seq<ArchiveConfig>,
    archiveDetails: seq<ArchiveDetail>,
    pvRanges: seq<PvRangeConfig>,
    smooths: seq<SmoothConfig>,
    distribs: seq<DistribConfig>)

  /** The last-value store (`last_value.sqlite`). */
  datatype LastValueDb = LastValueDb(lastValues: seq<LastValue>)

  /** The store files that can be opened, by path. A path missing from its
      map is a file that cannot be opened. */
  datatype Disk = Disk(
    identFiles: map<string, IdentDb>,
    configFiles: map<string, ConfigDb>,
    lastValueFiles: map<string, LastValueDb>)

  const SQLITE_DIR := "db/wincc_oa/sqlite"

  function IdentPath(projectPath: string): string {
    PathJoin(PathJoin(projectPath, SQLITE_DIR), "ident.sqlite")
  }

  function ConfigPath(projectPath: string): string {
    PathJoin(PathJoin(projectPath, SQLITE_DIR), "config.sqlite")
  }

  function LastValuePath(projectPath: string): string {
    PathJoin(PathJoin(projectPath, SQLITE_DIR), "last_value.sqlite")
  }

  function OpenFile<D>(files: map<string, D>, path: string): (h: Option<D>)
    ensures h.Some? <==> path in files
    ensures h.Some? ==> h.value == files[path]
  {
    if path in files then Some(files[path]) else None
  }

  /** How `open` ended: all three stores open, or the constructor of the
      store at `path` threw. */
  datatype OpenOutcome = Opened | OpenFailed(path: string)

  // ---------- SQLite's BINARY collation ----------

  /** Code-point order on names, assumed to be the order `ORDER BY
      canonical_name` sorts in: SQLite's default BINARY collation (for UTF-8
      text the byte order). The store's schema, which could declare another
      collation for the column, is not part of this model; the contracts
      that use the order need only that it is a total preorder. */
  predicate NameLe(a: string, b: string) {
    if a == [] then true
    else if b == [] then false
    else if a[0] != b[0] then a[0] < b[0]
    else NameLe(a[1..], b[1..])
  }

  lemma {:induction false} NameLeTotal(a: string, b: string)
    ensures NameLe(a, b) || NameLe(b, a)
  {
    if a != [] && b != [] && a[0] == b[0] {
      NameLeTotal(a[1..], b[1..]);
    }
  }

  lemma {:induction false} NameLeTransitive(a: string, b: string, c: string)
    requires NameLe(a, b) && NameLe(b, c)
    ensures NameLe(a, c)
  {
    if a != [] && b != [] && c != [] && a[0] == b[0] && b[0] == c[0] {
      NameLeTransitive(a[1..], b[1..], c[1..]);
    }
  }

  predicate DpTypeByName(a: DpType, b: DpType) { NameLe(a.canonicalName, b.canonicalName) }
  predicate DatapointByName(a: Datapoint, b: Datapoint) { NameLe(a.canonicalName, b.canonicalName) }
  predicate ElementByPosition(a: DpElement, b: DpElement) { a.positionInType <= b.positionInType }
  predicate DetailByNumber(a: AlertHdlDetail, b: AlertHdlDetail) { a.detailNr <= b.detailNr }

  lemma DpTypeOrder()
    ensures TotalPreorder(DpTypeByName)
  {
    forall a: DpType, b: DpType ensures DpTypeByName(a, b) || DpTypeByName(b, a) {
      NameLeTotal(a.canonicalName, b.canonicalName);
    }
    forall a: DpType, b: DpType, c: DpType | DpTypeByName(a, b) && DpTypeByName(b, c)
      ensures DpTypeByName(a, c)
    {
      NameLeTransitive(a.canonicalName, b.canonicalName, c.canonicalName);
    }
  }

  lemma DatapointOrder()
    ensures TotalPreorder(DatapointByName)
  {
    forall a: Datapoint, b: Datapoint ensures DatapointByName(a, b) || DatapointByName(b, a) {
      NameLeTotal(a.canonicalName, b.canonicalName);
    }
    forall a: Datapoint, b: Datapoint, c: Datapoint | DatapointByName(a, b) && DatapointByName(b, c)
      ensures DatapointByName(a, c)
    {
      NameLeTransitive(a.canonicalName, b.canonicalName, c.canonicalName);
    }
  }

  // ---------- keys of the queries ----------

  predicate ElementOfType(dptId: int, e: DpElement) { e.dptId == dptId }
  predicate DatapointOfType(dptId: int, d: Datapoint) { d.dptId == dptId }
  predicate AnyRow<T>(x: T) { true }

  /** The value row shown for an element: array index 0, default language. */
  predicate ShownLastValue(dpId: int, elId: int, v: LastValue) {
    v.dpId == dpId && v.elId == elId && v.dynIdx == 0 && v.languageId == 0
  }

  /** The owner of a connection to three read-only stores; `null` handles are `None`. */
  class SqliteClient {
    var identDb: Option<IdentDb>
    var configDb: Option<ConfigDb>
    var lastValueDb: Option<LastValueDb>
    var projectPath: string

    constructor ()
      ensures identDb.None? && configDb.None? && lastValueDb.None?
      ensures projectPath == ""
      ensures !IsOpen()
    {
      identDb, configDb, lastValueDb := None, None, None;
      projectPath := "";
    }

    /** `isOpen` looks at the identity handle only. */
    predicate IsOpen()
      reads this
    {
      identDb.Some?
    }

    /** Drops all three handles; calling it again changes nothing. */
    method Close()
      modifies this
      ensures identDb.None? && configDb.None? && lastValueDb.None?
      ensures projectPath == old(projectPath)
      ensures !IsOpen()
    {
      identDb := None;
      configDb := None;
      lastValueDb := None;
    }

    /** Closes what was open, records the project, then opens the three
        stores one after another; the first that cannot be opened throws
        and leaves the handles opened before it in place. */
    method Open(path: string, disk: Disk) returns (outcome: OpenOutcome)
      modifies this
      ensures projectPath == path
      ensures identDb == OpenFile(disk.identFiles, IdentPath(path))
      ensures configDb == if identDb.None? then None else OpenFile(disk.configFiles, ConfigPath(path))
      ensures lastValueDb == if configDb.None? then None else OpenFile(disk.lastValueFiles, LastValuePath(path))
      ensures outcome == Opened <==> identDb.Some? && configDb.Some? && lastValueDb.Some?
      ensures outcome.OpenFailed? ==>
                outcome.path == if identDb.None? then IdentPath(path)
                                else if configDb.None? then ConfigPath(path)
                                else LastValuePath(path)
      ensures IsOpen() <==> IdentPath(path) in disk.identFiles
    {
      Close();
      projectPath := path;
      var ident := IdentPath(path);
      if ident !in disk.identFiles {
        return OpenFailed(ident);
      }
      identDb := Some(disk.identFiles[ident]);
      var config := ConfigPath(path);
      if config !in disk.configFiles {
        return OpenFailed(config);
      }
      configDb := Some(disk.configFiles[config]);
      var lastValue := LastValuePath(path);
      if lastValue !in disk.lastValueFiles {
        return OpenFailed(lastValue);
      }
      lastValueDb := Some(disk.lastValueFiles[lastValue]);
      return Opened;
    }

    // ---------- identity store ----------

    /** `getAllDpTypes`: every type, ordered by name. */
    function GetAllDpTypes(): (r: seq<DpType>)
      reads this
      requires identDb.Some?
      ensures OrderedSelection(r, identDb.value.dpTypes, AnyRow, DpTypeByName)
      ensures forall t :: t in r <==> t in identDb.value.dpTypes
    {
      DpTypeOrder();
      Select(identDb.value.dpTypes, AnyRow, DpTypeByName)
    }

    /** `getDpTypeById`: a type with that id, or absent. */
    function GetDpTypeById(dptId: int): (r: Option<DpType>)
      reads this
      requires identDb.Some?
      ensures r.None? <==> forall t :: t in identDb.value.dpTypes ==> t.dptId != dptId
      ensures r.Some? ==> r.value in identDb.value.dpTypes && r.value.dptId == dptId
    {
      FindFirst(identDb.value.dpTypes, (t: DpType) => t.dptId == dptId)
    }

    /** `getElementsByDptId`: the elements of one type; their order is
        stated by `ElementsByPosition`. */
    function GetElementsByDptId(dptId: int): (r: seq<DpElement>)
      reads this
      requires identDb.Some?
      ensures forall e :: e in r <==> e in identDb.value.elements && e.dptId == dptId
    {
      Select(identDb.value.elements, e => ElementOfType(dptId, e), ElementByPosition)
    }

    /** The elements of one type come sorted by position in the type, each of
        the type's rows as often as it is stored. */
    lemma ElementsByPosition(dptId: int)
      requires identDb.Some?
      ensures OrderedSelection(GetElementsByDptId(dptId), identDb.value.elements, e => ElementOfType(dptId, e), ElementByPosition)
    {
    }

    /** `getAllDatapoints`: every datapoint, ordered by name. */
    function GetAllDatapoints(): (r: seq<Datapoint>)
      reads this
      requires identDb.Some?
      ensures OrderedSelection(r, identDb.value.datapoints, AnyRow, DatapointByName)
      ensures forall d :: d in r <==> d in identDb.value.datapoints
    {
      DatapointOrder();
      Select(identDb.value.datapoints, AnyRow, DatapointByName)
    }

    /** `getDatapointsByDptId`: the datapoints of one type, ordered by name. */
    function GetDatapointsByDptId(dptId: int): (r: seq<Datapoint>)
      reads this
      requires identDb.Some?
      ensures OrderedSelection(r, identDb.value.datapoints, d => DatapointOfType(dptId, d), DatapointByName)
      ensures forall d :: d in r <==> d in identDb.value.datapoints && d.dptId == dptId
    {
      DatapointOrder();
      Select(identDb.value.datapoints, d => DatapointOfType(dptId, d), DatapointByName)
    }

    function GetDisplayName(dpId: int, elId: int): (r: Option<DisplayName>)
      reads this
      requires identDb.Some?
      ensures r.None? <==> forall x :: x in identDb.value.displayNames ==> !(x.dpId == dpId && x.elId == elId)
      ensures r.Some? ==> r.value in identDb.value.displayNames && r.value.dpId == dpId && r.value.elId == elId
    {
      FindFirst(identDb.value.displayNames, (x: DisplayName) => x.dpId == dpId && x.elId == elId)
    }

    function GetUnitAndFormat(dpId: int, elId: int): (r: Option<UnitAndFormat>)
      reads this
      requires identDb.Some?
      ensures r.None? <==> forall x :: x in identDb.value.unitsAndFormats ==> !(x.dpId == dpId && x.elId == elId)
      ensures r.Some? ==> r.value in identDb.value.unitsAndFormats && r.value.dpId == dpId && r.value.elId == elId
    {
      FindFirst(identDb.value.unitsAndFormats, (x: UnitAndFormat) => x.dpId == dpId && x.elId == elId)
    }

    // ---------- configuration store ----------

    function GetAddressConfig(dpId: int, elId: int): (r: Option<AddressConfig>)
      reads this
      requires configDb.Some?
      ensures r.None? <==> forall x :: x in configDb.value.addresses ==> !(x.dpId == dpId && x.elId == elId)
      ensures r.Some? ==> r.value in configDb.value.addresses && r.value.dpId == dpId && r.value.elId == elId
    {
      FindFirst(configDb.value.addresses, (x: AddressConfig) => x.dpId == dpId && x.elId == elId)
    }

    function GetAlertHdlConfig(dpId: int, elId: int): (r: Option<AlertHdlConfig>)
      reads this
      requires configDb.Some?
      ensures r.None? <==> forall x :: x in configDb.value.alertHdls ==> !(x.dpId == dpId && x.elId == elId)
      ensures r.Some? ==> r.value in configDb.value.alertHdls && r.value.dpId == dpId && r.value.elId == elId
    {
      FindFirst(configDb.value.alertHdls, (x: AlertHdlConfig) => x.dpId == dpId && x.elId == elId)
    }

    /** `getAlertHdlDetails`: the ranges of one element's alert configuration, by number. */
    function GetAlertHdlDetails(dpId: int, elId: int): (r: seq<AlertHdlDetail>)
      reads this
      requires configDb.Some?
      ensures OrderedSelection(r, configDb.value.alertHdlDetails,
                               (x: AlertHdlDetail) => x.dpId == dpId && x.elId == elId, DetailByNumber)
      ensures forall x :: x in r <==> x in configDb.value.alertHdlDetails && x.dpId == dpId && x.elId == elId
    {
      Select(configDb.value.alertHdlDetails, (x: AlertHdlDetail) => x.dpId == dpId && x.elId == elId, DetailByNumber)
    }

    function GetArchiveConfig(dpId: int, elId: int): (r: Option<ArchiveConfig>)
      reads this
      requires configDb.Some?
      ensures r.None? <==> forall x :: x in configDb.value.archives ==> !(x.dpId == dpId && x.elId == elId)
      ensures r.Some? ==> r.value in configDb.value.archives && r.value.dpId == dpId && r.value.elId == elId
    {
      FindFirst(configDb.value.archives, (x: ArchiveConfig) => x.dpId == dpId && x.elId == elId)
    }

    function GetArchiveDetail(dpId: int, elId: int): (r: Option<ArchiveDetail>)
      reads this
      requires configDb.Some?
      ensures r.None? <==> forall x :: x in configDb.value.archiveDetails ==> !(x.dpId == dpId && x.elId == elId)
      ensures r.Some? ==> r.value in configDb.value.archiveDetails && r.value.dpId == dpId && r.value.elId == elId
    {
      FindFirst(configDb.value.archiveDetails, (x: ArchiveDetail) => x.dpId == dpId && x.elId == elId)
    }

    function GetPvRangeConfig(dpId: int, elId: int): (r: Option<PvRangeConfig>)
      reads this
      requires configDb.Some?
      ensures r.None? <==> forall x :: x in configDb.value.pvRanges ==> !(x.dpId == dpId && x.elId == elId)
      ensures r.Some? ==> r.value in configDb.value.pvRanges && r.value.dpId == dpId && r.value.elId == elId
    {
      FindFirst(configDb.value.pvRanges, (x: PvRangeConfig) => x.dpId == dpId && x.elId == elId)
    }

    function GetSmoothConfig(dpId: int, elId: int): (r: Option<SmoothConfig>)
      reads this
      requires configDb.Some?
      ensures r.None? <==> forall x :: x in configDb.value.smooths ==> !(x.dpId == dpId && x.elId == elId)
      ensures r.Some? ==> r.value in configDb.value.smooths && r.value.dpId == dpId && r.value.elId == elId
    {
      FindFirst(configDb.value.smooths, (x: SmoothConfig) => x.dpId == dpId && x.elId == elId)
    }

    function GetDistribConfig(dpId: int, elId: int): (r: Option<DistribConfig>)
      reads this
      requires configDb.Some?
      ensures r.None? <==> forall x :: x in configDb.value.distribs ==> !(x.dpId == dpId && x.elId == elId)
      ensures r.Some? ==> r.value in configDb.value.distribs && r.value.dpId == dpId && r.value.elId == elId
    {
      FindFirst(configDb.value.distribs, (x: DistribConfig) => x.dpId == dpId && x.elId == elId)
    }

    // ---------- last-value store ----------

    /** `getLastValue`: only the row at array index 0 in the default language. */
    function GetLastValue(dpId: int, elId: int): (r: Option<LastValue>)
      reads this
      requires lastValueDb.Some?
      ensures r.None? <==> forall v :: v in lastValueDb.value.lastValues ==> !ShownLastValue(dpId, elId, v)
      ensures r.Some? ==> r.value in lastValueDb.value.lastValues && r.value.dynIdx == 0 && r.value.languageId == 0
                          && r.value.dpId == dpId && r.value.elId == elId
    {
      FindFirst(lastValueDb.value.lastValues, v => ShownLastValue(dpId, elId, v))
    }

    /** The lookups the configuration panel makes for one element, in the
        panel's order: eight on the configuration store, then the last value,
        then two on the identity store. `isOpen` checks the identity handle
        only, so a catalog whose later stores failed to open reaches this;
        the first lookup on a null handle throws the TypeError of reading
        `prepare` of null. */
    function GatherConfigs(dpId: int, elId: int): (r: Result<DpeConfigs, string>)
      reads this
      requires IsOpen()
      ensures r.Failure? <==> configDb.None? || lastValueDb.None?
      ensures r.Failure? ==> r.error == Json.NullReadError("prepare")
      ensures r.Success? ==>
                var c := r.value;
                c.address == GetAddressConfig(dpId, elId) && c.alertHdl == GetAlertHdlConfig(dpId, elId)
                && c.alertHdlDetails == GetAlertHdlDetails(dpId, elId)
                && c.archive == GetArchiveConfig(dpId, elId) && c.archiveDetail == GetArchiveDetail(dpId, elId)
                && c.pvRange == GetPvRangeConfig(dpId, elId) && c.smooth == GetSmoothConfig(dpId, elId)
                && c.distrib == GetDistribConfig(dpId, elId) && c.lastValue == GetLastValue(dpId, elId)
                && c.displayName == GetDisplayName(dpId, elId) && c.unitAndFormat == GetUnitAndFormat(dpId, elId)
      ensures r.Success? ==>
                (r.value.alertHdl.None? <==> forall x :: x in configDb.value.alertHdls ==> !(x.dpId == dpId && x.elId == elId))
                && (r.value.alertHdlDetails == [] <==>
                      forall x :: x in configDb.value.alertHdlDetails ==> !(x.dpId == dpId && x.elId == elId))
                && (r.value.lastValue.None? <==>
                      forall v :: v in lastValueDb.value.lastValues ==> !ShownLastValue(dpId, elId, v))
    {
      if configDb.None? || lastValueDb.None? then Failure(Json.NullReadError("prepare"))
      else
        var details := GetAlertHdlDetails(dpId, elId);
        assert details == [] <==> forall x :: x in configDb.value.alertHdlDetails ==> !(x.dpId == dpId && x.elId == elId) by {
          if details != [] { assert details[0] in details; }
        }
        Success(DpeConfigs(
          GetAddressConfig(dpId, elId),
          GetAlertHdlConfig(dpId, elId),
          details,
          GetArchiveConfig(dpId, elId),
          GetArchiveDetail(dpId, elId),
          GetPvRangeConfig(dpId, elId),
          GetSmoothConfig(dpId, elId),
          GetDistribConfig(dpId, elId),
          GetLastValue(dpId, elId),
          GetDisplayName(dpId, elId),
          GetUnitAndFormat(dpId, elId)))
    }
  }

  /** Closing is idempotent: a second close leaves the same state as the first. */
  method CloseTwice(c: SqliteClient)
    modifies c
    ensures c.identDb.None? && c.configDb.None? && c.lastValueDb.None?
    ensures c.projectPath == old(c.projectPath)
  {
    c.Close();
    c.Close();
  }

  /** A failed open of the configuration store leaves the catalog reporting
      open, because the identity handle was assigned before it. */
  method PartialOpen(c: SqliteClient, path: string, disk: Disk) returns (outcome: OpenOutcome)
    requires IdentPath(path) in disk.identFiles && ConfigPath(path) !in disk.configFiles
    modifies c
    ensures outcome == OpenFailed(ConfigPath(path))
    ensures c.IsOpen() && c.configDb.None? && c.lastValueDb.None?
  {
    outcome := c.Open(path, disk);
  }
}
