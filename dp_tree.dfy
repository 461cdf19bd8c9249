/** The datapoint-oriented tree view: datapoints at the root, then each
    datapoint's element tree. */
module DpTree {
  import opened Wrappers
  import opened Seqs
  import opened Models
  import opened TreeItems
  import opened Hierarchy
  import Catalog
  import OaTypes

  datatype ItemType = DpItem | ElementItem

  /** `DpTreeItem`: the constructor arguments; what the constructor sets
      besides is derived below. */
  datatype DpTreeItem = DpTreeItem(
    labelText: string,
    collapsibleState: CollapsibleState,
    itemType: ItemType,
    dpId: int,
    dptId: int,
    elId: int,
    dataType: int)
  {
    function ContextValue(): string {
      if itemType == DpItem then "dp" else "dpElement"
    }

    function IconOf(): Icon {
      if itemType == DpItem then Database
      else if dataType == OaTypes.STRUCT then SymbolNamespace
      else if dataType == OaTypes.REFERENCE then SymbolReference
      else SymbolField
    }

    /** Leaf elements show their type name; nothing else has a description. */
    function Description(): Option<string> {
      if itemType == ElementItem && dataType != OaTypes.STRUCT && dataType != OaTypes.REFERENCE
      then Some(OaTypes.GetTypeName(dataType)) else None
    }

    /** Every element item, struct and reference included, opens the panel. */
    function CommandOf(): Option<Command> {
      if itemType == ElementItem then Some(OpenConfigEditor) else None
    }
  }

  /** Unlike the type view, this view gives the open-editor command to every
      element item; only leaves get a description. */
  lemma EveryElementOpensEditor(item: DpTreeItem)
    ensures item.CommandOf().Some? <==> item.itemType == ElementItem
    ensures item.Description().Some? <==> item.itemType == ElementItem && OaTypes.IsLeafType(item.dataType)
    ensures item.Description().Some? ==> item.Description().value == OaTypes.GetTypeName(item.dataType)
  {
  }

  /** A root item: collapsed exactly when its type has more than one element. */
  function DatapointItem(dp: Datapoint, elementCount: nat): (item: DpTreeItem)
    ensures item.collapsibleState == StateCollapsed <==> elementCount > 1
    ensures item.itemType == DpItem && item.dpId == dp.dpId && item.dptId == dp.dptId
    ensures item.labelText == dp.canonicalName
  {
    DpTreeItem(dp.canonicalName, StateOf(elementCount > 1), DpItem, dp.dpId, dp.dptId, 0, 0)
  }

  function ElementTreeItem(elements: seq<DpElement>, el: DpElement, dpId: int): (item: DpTreeItem)
    ensures item.collapsibleState == StateCollapsed <==> IsExpandable(elements, el)
    ensures item.itemType == ElementItem && item.elId == el.elId && item.dpId == dpId && item.dataType == el.dataType
    ensures item.labelText == el.canonicalName && item.dptId == el.dptId
  {
    DpTreeItem(el.canonicalName, StateOf(IsExpandable(elements, el)), ElementItem, dpId, el.dptId, el.elId, el.dataType)
  }

  /** `r` is the level of the element tree below `parentElId`: one element
      item per child row, in order, with the row's id, name, tag and type id
      and the given datapoint's id, collapsed exactly when the row is expandable. */
  predicate ElementLevel(r: seq<DpTreeItem>, elements: seq<DpElement>, parentElId: int, dpId: int)
    requires parentElId == 0 ==> RootSkipTerminates(elements)
  {
    var rows := ElementChildren(elements, parentElId);
    |r| == |rows| &&
    forall i :: 0 <= i < |r| ==>
      r[i].itemType == ElementItem && r[i].elId == rows[i].elId && r[i].labelText == rows[i].canonicalName
      && r[i].dataType == rows[i].dataType && r[i].dpId == dpId && r[i].dptId == rows[i].dptId
      && (r[i].collapsibleState == StateCollapsed <==> IsExpandable(elements, rows[i]))
  }

  /** `buildElementChildren`: one item per child row, in order; every one
      of them opens the configuration panel. */
  function BuildElementChildren(elements: seq<DpElement>, parentElId: int, dpId: int): (r: seq<DpTreeItem>)
    requires parentElId == 0 ==> RootSkipTerminates(elements)
    ensures ElementLevel(r, elements, parentElId, dpId)
    ensures forall i :: 0 <= i < |r| ==> r[i].CommandOf() == Some(OpenConfigEditor)
  {
    Map(ElementChildren(elements, parentElId), el => ElementTreeItem(elements, el, dpId))
  }

  /** The root filter: the datapoints of `dps` whose names are shown, in
      their order (`ShownAmongSplit`) and with their multiplicity
      (`ShownAmongCount`). */
  function ShownAmong(dps: seq<Datapoint>, showInternal: bool): (r: seq<Datapoint>)
    ensures forall dp :: dp in r <==> dp in dps && ShownAtRoot(showInternal, dp.canonicalName)
    ensures dps == [] ==> r == []
    ensures |dps| == 1 ==> r == if ShownAtRoot(showInternal, dps[0].canonicalName) then dps else []
    ensures showInternal ==> r == dps
  {
    var p := (dp: Datapoint) => ShownAtRoot(showInternal, dp.canonicalName);
    assert |dps| == 1 ==> Filter(dps, p) == if p(dps[0]) then dps else [] by {
      if |dps| == 1 {
        assert dps == [dps[0]];
        FilterSingle(dps[0], p);
      }
    }
    assert showInternal ==> Filter(dps, p) == dps by {
      if showInternal { FilterKeepsAll(dps, p); }
    }
    Filter(dps, p)
  }

  /** The root filter keeps every shown datapoint as often as it occurs and
      drops every hidden one. */
  lemma ShownAmongCount(dps: seq<Datapoint>, showInternal: bool, dp: Datapoint)
    ensures multiset(ShownAmong(dps, showInternal))[dp] ==
            if ShownAtRoot(showInternal, dp.canonicalName) then multiset(dps)[dp] else 0
  {
    FilterMultiset(dps, (d: Datapoint) => ShownAtRoot(showInternal, d.canonicalName), dp);
  }

  /** The root filter keeps the order of the catalog listing: filtering a
      concatenation filters each part. */
  lemma ShownAmongSplit(a: seq<Datapoint>, b: seq<Datapoint>, showInternal: bool)
    ensures ShownAmong(a + b, showInternal) == ShownAmong(a, showInternal) + ShownAmong(b, showInternal)
  {
    FilterAppend(a, b, (dp: Datapoint) => ShownAtRoot(showInternal, dp.canonicalName));
  }

  /** The datapoint-oriented tree view over a catalog. */
  class DpTreeProvider {
    const db: Catalog.SqliteClient
    var showInternal: bool
    /** How often `onDidChangeTreeData` has fired. */
    var changeEvents: nat

    constructor (db: Catalog.SqliteClient)
      ensures this.db == db && !showInternal && changeEvents == 0
    {
      this.db := db;
      showInternal := false;
      changeEvents := 0;
    }

    method Refresh()
      modifies this
      ensures changeEvents == old(changeEvents) + 1 && showInternal == old(showInternal)
    {
      changeEvents := changeEvents + 1;
    }

    method SetShowInternal(show: bool)
      modifies this
      ensures showInternal == show && changeEvents == old(changeEvents) + 1
    {
      showInternal := show;
      Refresh();
    }

    /** The root map: each shown datapoint with the element count of its
        type. Each item is a datapoint item with the datapoint's name and
        ids, collapsed exactly when its type has more than one element;
        none of them opens the panel. */
    function RootItems(dps: seq<Datapoint>): (r: seq<DpTreeItem>)
      reads this, db
      requires db.IsOpen()
      ensures |r| == |dps|
      ensures forall i :: 0 <= i < |r| ==>
                r[i].itemType == DpItem && r[i].labelText == dps[i].canonicalName
                && r[i].dpId == dps[i].dpId && r[i].dptId == dps[i].dptId
                && (r[i].collapsibleState == StateCollapsed <==> |db.GetElementsByDptId(dps[i].dptId)| > 1)
                && r[i].CommandOf().None?
    {
      seq(|dps|, i requires 0 <= i < |dps| && db.IsOpen() reads this, db => DatapointItem(dps[i], |db.GetElementsByDptId(dps[i].dptId)|))
    }

    predicate ExpansionTerminates(element: Option<DpTreeItem>)
      reads this, db
    {
      db.IsOpen() && element.Some? &&
      (element.value.itemType == DpItem || element.value.elId == 0)
      ==> RootSkipTerminates(db.GetElementsByDptId(element.value.dptId))
    }

    /** The datapoints listed at the root: the catalog listing, sorted by
        name, through the root filter. */
    function ShownDatapoints(): (r: seq<Datapoint>)
      reads this, db
      requires db.IsOpen()
      ensures r == ShownAmong(db.GetAllDatapoints(), showInternal)
      ensures forall dp :: dp in r <==> dp in db.identDb.value.datapoints && ShownAtRoot(showInternal, dp.canonicalName)
      ensures showInternal ==> r == db.GetAllDatapoints()
    {
      ShownAmong(db.GetAllDatapoints(), showInternal)
    }

    /** `getChildren`: nothing while the catalog is closed; the shown
        datapoints at the root; below a datapoint or element the next level
        of its type's element tree. */
    function GetChildren(element: Option<DpTreeItem>): (r: seq<DpTreeItem>)
      reads this, db
      requires ExpansionTerminates(element)
      ensures !db.IsOpen() ==> r == []
      ensures db.IsOpen() && element.None? ==> r == RootItems(ShownDatapoints())
      ensures db.IsOpen() && element.Some? && element.value.itemType == DpItem ==>
                ElementLevel(r, db.GetElementsByDptId(element.value.dptId), 0, element.value.dpId)
      ensures db.IsOpen() && element.Some? && element.value.itemType == ElementItem ==>
                ElementLevel(r, db.GetElementsByDptId(element.value.dptId), element.value.elId, element.value.dpId)
    {
      if !db.IsOpen() then []
      else match element
        case None => RootItems(ShownDatapoints())
        case Some(item) =>
          if item.itemType == DpItem then
            BuildElementChildren(db.GetElementsByDptId(item.dptId), 0, item.dpId)
          else
            BuildElementChildren(db.GetElementsByDptId(item.dptId), item.elId, item.dpId)
    }
  }

  /** The root lists, in catalog order, the datapoints whose names are not
      internal, each collapsed exactly when its type has several elements. */
  lemma RootListing(p: DpTreeProvider, i: int)
    requires p.db.IsOpen()
    ensures |p.GetChildren(None)| == |p.ShownDatapoints()|
    ensures 0 <= i < |p.GetChildren(None)| ==>
              var dp := p.ShownDatapoints()[i];
              && dp in p.db.identDb.value.datapoints
              && ShownAtRoot(p.showInternal, dp.canonicalName)
              && p.GetChildren(None)[i].dpId == dp.dpId
              && (p.GetChildren(None)[i].collapsibleState == StateCollapsed <==> |p.db.GetElementsByDptId(dp.dptId)| > 1)
  {
    var shown := p.ShownDatapoints();
    var r := p.GetChildren(None);
    assert r == p.RootItems(shown);
    if 0 <= i < |r| {
      var dp := shown[i];
      assert dp in shown;
      assert dp in p.db.GetAllDatapoints();
      assert r[i] == DatapointItem(dp, |p.db.GetElementsByDptId(dp.dptId)|);
    }
  }

  /** Expanding a datapoint skips the synthetic root of its type. */
  lemma DatapointExpansionSkipsRoot(p: DpTreeProvider, item: DpTreeItem, root: DpElement)
    requires p.db.IsOpen() && item.itemType == DpItem
    requires FirstRoot(p.db.GetElementsByDptId(item.dptId)) == Some(root) && root.elId != 0
    ensures p.GetChildren(Some(item)) == BuildElementChildren(p.db.GetElementsByDptId(item.dptId), root.elId, item.dpId)
  {
    RootIsSkipped(p.db.GetElementsByDptId(item.dptId), root);
  }
}
