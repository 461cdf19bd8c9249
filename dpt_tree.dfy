/** The type-oriented tree view: types at the root, their datapoints
    below, then each datapoint's element tree. */
module DptTree {
  import opened Wrappers
  import opened Seqs
  import opened Models
  import opened TreeItems
  import opened Hierarchy
  import Catalog
  import OaTypes

  datatype ItemType = DptItem | DpItem | ElementItem

  /** `ParaTreeItem`: the constructor arguments; the rest of what the
      constructor sets is derived from them below. */
  datatype ParaTreeItem = ParaTreeItem(
    labelText: string,
    collapsibleState: CollapsibleState,
    itemType: ItemType,
    dptId: int,
    dpId: int,
    elId: int,
    dataType: int)
  {
    function ContextValue(): string {
      match itemType
      case DptItem => "dpt"
      case DpItem => "dp"
      case ElementItem => "dpElement"
    }

    function IconOf(): Icon {
      match itemType
      case DptItem => SymbolClass
      case DpItem => Database
      case ElementItem =>
        if dataType == OaTypes.STRUCT then SymbolNamespace
        else if dataType == OaTypes.REFERENCE then SymbolReference
        else SymbolField
    }

    /** References read "→ ref", leaves their type name, the rest nothing. */
    function Description(): Option<string> {
      if itemType != ElementItem || dataType == OaTypes.STRUCT then None
      else if dataType == OaTypes.REFERENCE then Some("\U{2192} ref")
      else Some(OaTypes.GetTypeName(dataType))
    }

    /** Only leaf elements open the configuration panel on click. */
    function CommandOf(): Option<Command> {
      if itemType == ElementItem && dataType != OaTypes.STRUCT && dataType != OaTypes.REFERENCE
      then Some(OpenConfigEditor) else None
    }
  }

  /** Only leaf element items carry the open-editor command. */
  lemma CommandOnlyOnLeaves(item: ParaTreeItem)
    ensures item.CommandOf().Some? <==> item.itemType == ElementItem && OaTypes.IsLeafType(item.dataType)
    ensures item.itemType == ElementItem && item.dataType == OaTypes.REFERENCE ==> item.Description() == Some("\U{2192} ref")
    ensures item.itemType == ElementItem && OaTypes.IsLeafType(item.dataType) ==>
              item.Description() == Some(OaTypes.GetTypeName(item.dataType))
  {
  }

  /** A root item for a type: always collapsed. */
  function TypeItem(t: DpType): (item: ParaTreeItem)
    ensures item.itemType == DptItem && item.labelText == t.canonicalName && item.dptId == t.dptId
    ensures item.collapsibleState == StateCollapsed && item.CommandOf().None?
  {
    ParaTreeItem(t.canonicalName, StateCollapsed, DptItem, t.dptId, 0, 0, 0)
  }

  /** `getRootChildren` on the type list. */
  function RootItems(types: seq<DpType>, showInternal: bool): (r: seq<ParaTreeItem>)
    ensures forall item :: item in r <==> exists t :: t in types && ShownAtRoot(showInternal, t.canonicalName) && item == TypeItem(t)
    ensures types == [] ==> r == []
    ensures |types| == 1 ==> r == if ShownAtRoot(showInternal, types[0].canonicalName) then [TypeItem(types[0])] else []
  {
    var shown := Filter(types, (t: DpType) => ShownAtRoot(showInternal, t.canonicalName));
    var r := Map(shown, TypeItem);
    assert forall item :: item in r ==> exists t :: t in shown && item == TypeItem(t) by {
      forall item | item in r ensures exists t :: t in shown && item == TypeItem(t) {
        var i :| 0 <= i < |r| && r[i] == item;
        assert shown[i] in shown;
      }
    }
    assert forall t :: t in shown ==> TypeItem(t) in r by {
      forall t | t in shown ensures TypeItem(t) in r {
        var i :| 0 <= i < |shown| && shown[i] == t;
        assert r[i] == TypeItem(t);
      }
    }
    r
  }

  /** The root listing keeps the input order and every type's visibility is
      decided on its own. */
  lemma RootItemsSplit(a: seq<DpType>, b: seq<DpType>, showInternal: bool)
    ensures RootItems(a + b, showInternal) == RootItems(a, showInternal) + RootItems(b, showInternal)
  {
    var p := (t: DpType) => ShownAtRoot(showInternal, t.canonicalName);
    FilterAppend(a, b, p);
    MapAppend(Filter(a, p), Filter(b, p), TypeItem);
  }

  /** A datapoint item: collapsed exactly when its type has more than one element. */
  function DatapointItem(dp: Datapoint, elementCount: nat): (item: ParaTreeItem)
    ensures item.collapsibleState == StateCollapsed <==> elementCount > 1
    ensures item.itemType == DpItem && item.labelText == dp.canonicalName && item.dpId == dp.dpId && item.dptId == dp.dptId
  {
    ParaTreeItem(dp.canonicalName, StateOf(elementCount > 1), DpItem, dp.dptId, dp.dpId, 0, 0)
  }

  /** An element item: collapsed exactly when the element is expandable. */
  function ElementTreeItem(elements: seq<DpElement>, el: DpElement, dpId: int): (item: ParaTreeItem)
    ensures item.collapsibleState == StateCollapsed <==> IsExpandable(elements, el)
    ensures item.itemType == ElementItem && item.elId == el.elId && item.dpId == dpId && item.dataType == el.dataType
    ensures item.labelText == el.canonicalName && item.dptId == el.dptId
  {
    ParaTreeItem(el.canonicalName, StateOf(IsExpandable(elements, el)), ElementItem, el.dptId, dpId, el.elId, el.dataType)
  }

  /** `r` is the level of the element tree below `parentElId`: one element
      item per child row, in order, with the row's id, name, tag and type id
      and the given datapoint's id, collapsed exactly when the row is expandable. */
  predicate ElementLevel(r: seq<ParaTreeItem>, elements: seq<DpElement>, parentElId: int, dpId: int)
    requires parentElId == 0 ==> RootSkipTerminates(elements)
  {
    var rows := ElementChildren(elements, parentElId);
    |r| == |rows| &&
    forall i :: 0 <= i < |r| ==>
      r[i].itemType == ElementItem && r[i].elId == rows[i].elId && r[i].labelText == rows[i].canonicalName
      && r[i].dataType == rows[i].dataType && r[i].dpId == dpId && r[i].dptId == rows[i].dptId
      && (r[i].collapsibleState == StateCollapsed <==> IsExpandable(elements, rows[i]))
  }

  /** `buildElementChildren`: one item per child row, in order; exactly the
      leaf rows' items open the configuration panel. */
  function BuildElementChildren(elements: seq<DpElement>, parentElId: int, dpId: int): (r: seq<ParaTreeItem>)
    requires parentElId == 0 ==> RootSkipTerminates(elements)
    ensures ElementLevel(r, elements, parentElId, dpId)
    ensures forall i :: 0 <= i < |r| ==>
              (r[i].CommandOf().Some? <==> OaTypes.IsLeafType(ElementChildren(elements, parentElId)[i].dataType))
  {
    Map(ElementChildren(elements, parentElId), el => ElementTreeItem(elements, el, dpId))
  }

  /** The type-oriented tree view over a catalog. */
  class DptTreeProvider {
    const db: Catalog.SqliteClient
    var showInternal: bool
    /** How often `onDidChangeTreeData` has fired. */
    var changeEvents: nat

    constructor (db: Catalog.SqliteClient)
      ensures this.db == db && !showInternal && changeEvents == 0
    {
      this.db := db;
      showInternal := false;
      changeEvents := 0;
    }

    /** `refresh`: signals the host that the whole tree changed. */
    method Refresh()
      modifies this
      ensures changeEvents == old(changeEvents) + 1 && showInternal == old(showInternal)
    {
      changeEvents := changeEvents + 1;
    }

    method SetShowInternal(show: bool)
      modifies this
      ensures showInternal == show && changeEvents == old(changeEvents) + 1
    {
      showInternal := show;
      Refresh();
    }

    /** `r` lists the datapoints `dps` in order: one datapoint item each,
        with its name and ids, collapsed exactly when its type has more than
        one element. */
    predicate DatapointLevel(r: seq<ParaTreeItem>, dps: seq<Datapoint>)
      reads this, db
      requires db.IsOpen()
    {
      |r| == |dps| &&
      forall i :: 0 <= i < |r| ==>
        r[i].itemType == DpItem && r[i].labelText == dps[i].canonicalName
        && r[i].dpId == dps[i].dpId && r[i].dptId == dps[i].dptId
        && (r[i].collapsibleState == StateCollapsed <==> |db.GetElementsByDptId(dps[i].dptId)| > 1)
    }

    /** `getDptChildren`'s map: each datapoint with the element count of its type. */
    function DatapointItems(dps: seq<Datapoint>): (r: seq<ParaTreeItem>)
      reads this, db
      requires db.IsOpen()
      ensures DatapointLevel(r, dps)
      ensures forall i :: 0 <= i < |r| ==> r[i].CommandOf().None?
    {
      seq(|dps|, i requires 0 <= i < |dps| && db.IsOpen() reads this, db => DatapointItem(dps[i], |db.GetElementsByDptId(dps[i].dptId)|))
    }

    /** Expanding the item does not run into the endless root skip. */
    predicate ExpansionTerminates(element: Option<ParaTreeItem>)
      reads this, db
    {
      db.IsOpen() && element.Some? &&
      (element.value.itemType == DpItem || (element.value.itemType == ElementItem && element.value.elId == 0))
      ==> RootSkipTerminates(db.GetElementsByDptId(element.value.dptId))
    }

    /** `getChildren`: nothing while the catalog is closed; the visible
        types at the root; below a type its datapoints; below a datapoint or
        an element the next level of the element tree. */
    function GetChildren(element: Option<ParaTreeItem>): (r: seq<ParaTreeItem>)
      reads this, db
      requires ExpansionTerminates(element)
      ensures !db.IsOpen() ==> r == []
      ensures db.IsOpen() && element.None? ==> r == RootItems(db.GetAllDpTypes(), showInternal)
      ensures db.IsOpen() && element.Some? && element.value.itemType == DptItem ==>
                DatapointLevel(r, db.GetDatapointsByDptId(element.value.dptId))
      ensures db.IsOpen() && element.Some? && element.value.itemType == DpItem ==>
                ElementLevel(r, db.GetElementsByDptId(element.value.dptId), 0, element.value.dpId)
      ensures db.IsOpen() && element.Some? && element.value.itemType == ElementItem ==>
                ElementLevel(r, db.GetElementsByDptId(element.value.dptId), element.value.elId, element.value.dpId)
    {
      if !db.IsOpen() then []
      else match element
        case None => RootItems(db.GetAllDpTypes(), showInternal)
        case Some(item) =>
          match item.itemType
          case DptItem =>
            DatapointItems(db.GetDatapointsByDptId(item.dptId))
          case DpItem =>
            BuildElementChildren(db.GetElementsByDptId(item.dptId), 0, item.dpId)
          case ElementItem =>
            BuildElementChildren(db.GetElementsByDptId(item.dptId), item.elId, item.dpId)
    }
  }

  /** With the catalog open, the root lists exactly the types whose name is
      not internal (all of them once internal entries are shown). */
  lemma RootListsShownTypes(p: DptTreeProvider, t: DpType)
    requires p.db.IsOpen() && t in p.db.identDb.value.dpTypes
    ensures TypeItem(t) in p.GetChildren(None) <==> ShownAtRoot(p.showInternal, t.canonicalName)
  {
  }

  /** Below a type, each datapoint is collapsed exactly when its type has
      more than one element. */
  lemma DatapointCollapsedIffSeveralElements(p: DptTreeProvider, t: ParaTreeItem, i: int)
    requires p.db.IsOpen() && t.itemType == DptItem
    requires 0 <= i < |p.GetChildren(Some(t))|
    ensures var dp := p.db.GetDatapointsByDptId(t.dptId)[i];
            p.GetChildren(Some(t))[i].collapsibleState == StateCollapsed <==> |p.db.GetElementsByDptId(dp.dptId)| > 1
  {
  }

  /** Expanding a datapoint skips the synthetic root of its type. */
  lemma DatapointExpansionSkipsRoot(p: DptTreeProvider, item: ParaTreeItem, root: DpElement)
    requires p.db.IsOpen() && item.itemType == DpItem
    requires FirstRoot(p.db.GetElementsByDptId(item.dptId)) == Some(root) && root.elId != 0
    ensures p.GetChildren(Some(item)) == BuildElementChildren(p.db.GetElementsByDptId(item.dptId), root.elId, item.dpId)
  {
    RootIsSkipped(p.db.GetElementsByDptId(item.dptId), root);
  }
}
