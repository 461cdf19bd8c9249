/** Rebuilding one level of a type's element tree from the flat
    parent-pointer rows of `datapoint_element` (`buildElementChildren`,
    which both tree views define identically). */
module Hierarchy {
  import opened Wrappers
  import opened Seqs
  import opened Models
  import OaTypes

  /** A row whose parent is the sentinel 0: the type's synthetic root. */
  predicate IsRootRow(e: DpElement) {
    e.parentElId == 0
  }

  /** `e` is listed under `parentElId`; a row naming itself as parent never is. */
  predicate ChildOf(parentElId: int, e: DpElement) {
    e.parentElId == parentElId && e.elId != parentElId
  }

  /** `elements.find(e => e.parent_el_id === 0)` */
  function FirstRoot(elements: seq<DpElement>): (r: Option<DpElement>)
    ensures r.None? <==> forall e :: e in elements ==> !IsRootRow(e)
    ensures r.Some? ==> r.value in elements && r.value.parentElId == 0
    ensures r.Some? ==> exists k :: 0 <= k < |elements| && elements[k] == r.value
                          && forall i :: 0 <= i < k ==> elements[i].parentElId != 0
  {
    FindFirst(elements, IsRootRow)
  }

  /** Skipping the root ends unless the first root row itself has id 0, in
      which case the source calls itself again with the same arguments
      without end. */
  predicate RootSkipTerminates(elements: seq<DpElement>) {
    FirstRoot(elements).None? || FirstRoot(elements).value.elId != 0
  }

  /** The rows `buildElementChildren(elements, parentElId, _)` turns into
      tree items: for the sentinel 0, the children of the first root row;
      otherwise the rows naming `parentElId` as parent, in input order. */
  function ElementChildren(elements: seq<DpElement>, parentElId: int): (r: seq<DpElement>)
    requires parentElId == 0 ==> RootSkipTerminates(elements)
    ensures forall e :: e in r ==> e in elements && e.parentElId != e.elId
    ensures parentElId != 0 ==> forall e :: e in r <==> e in elements && ChildOf(parentElId, e)
    decreases if parentElId == 0 then 1 else 0
  {
    if parentElId == 0 && |elements| > 0 && FirstRoot(elements).Some? then
      ElementChildren(elements, FirstRoot(elements).value.elId)
    else
      Filter(elements, e => ChildOf(parentElId, e))
  }

  /** `elements.some(e => e.parent_el_id === el.el_id && e.el_id !== el.el_id)` */
  predicate HasChildren(elements: seq<DpElement>, el: DpElement)
    ensures HasChildren(elements, el) <==> exists e :: e in elements && e.parentElId == el.elId && e.elId != el.elId
  {
    Any(elements, e => ChildOf(el.elId, e))
  }

  /** Computed on every expansion, never stored: a struct or a reference,
      or an element some other row names as parent. */
  predicate IsExpandable(elements: seq<DpElement>, el: DpElement) {
    HasChildren(elements, el) || el.dataType == OaTypes.STRUCT || el.dataType == OaTypes.REFERENCE
  }

  // ---------- properties ----------

  /** Below a real parent the result is a filter: it splits over a
      concatenation of the input (so it keeps input order) ... */
  lemma ChildrenSplit(a: seq<DpElement>, b: seq<DpElement>, parentElId: int)
    requires parentElId != 0
    ensures ElementChildren(a + b, parentElId) == ElementChildren(a, parentElId) + ElementChildren(b, parentElId)
  {
    FilterAppend(a, b, e => ChildOf(parentElId, e));
  }

  /** ... and keeps a single row exactly when it names that parent and is not
      its own parent. */
  lemma ChildrenSingle(e: DpElement, parentElId: int)
    requires parentElId != 0
    ensures ElementChildren([e], parentElId) == if ChildOf(parentElId, e) then [e] else []
  {
  }

  /** Every occurrence of a matching row is returned, and nothing else. */
  lemma ChildrenCount(elements: seq<DpElement>, parentElId: int, x: DpElement)
    requires parentElId != 0
    ensures multiset(ElementChildren(elements, parentElId))[x] ==
              if ChildOf(parentElId, x) then multiset(elements)[x] else 0
  {
    FilterMultiset(elements, e => ChildOf(parentElId, e), x);
  }

  /** No element is its own child, even for malformed self-parented rows. */
  lemma NoSelfChild(elements: seq<DpElement>, parentElId: int, e: DpElement)
    requires parentElId != 0
    requires e in ElementChildren(elements, parentElId)
    ensures e.elId != parentElId && e.parentElId == parentElId
  {
  }

  /** The sentinel 0 lists the children of the first root row. */
  lemma RootIsSkipped(elements: seq<DpElement>, root: DpElement)
    requires FirstRoot(elements) == Some(root) && root.elId != 0
    ensures ElementChildren(elements, 0) == ElementChildren(elements, root.elId)
    ensures root in elements && root.parentElId == 0
    ensures exists k :: 0 <= k < |elements| && elements[k] == root
                        && forall i :: 0 <= i < k ==> elements[i].parentElId != 0
  {
  }

  /** Without a root row the sentinel lists nothing. */
  lemma NoRootNoChildren(elements: seq<DpElement>)
    requires forall i :: 0 <= i < |elements| ==> elements[i].parentElId != 0
    ensures ElementChildren(elements, 0) == []
  {
  }

  /** The children of the root skip never include the root row itself. */
  lemma RootNotAmongChildren(elements: seq<DpElement>, root: DpElement)
    requires FirstRoot(elements) == Some(root) && root.elId != 0
    ensures forall e :: e in ElementChildren(elements, 0) ==> e.parentElId == root.elId && e.elId != root.elId
  {
  }

  /** A struct or reference is expandable whether or not it has children. */
  lemma StructAndReferenceExpandable(elements: seq<DpElement>, el: DpElement)
    requires el.dataType == OaTypes.STRUCT || el.dataType == OaTypes.REFERENCE
    ensures IsExpandable(elements, el)
  {
  }

  /** An element of any other tag is expandable exactly when some other
      row names it as parent, that is, when expanding it lists something. */
  lemma LeafExpandableIffChildren(elements: seq<DpElement>, el: DpElement)
    requires OaTypes.IsLeafType(el.dataType)
    ensures IsExpandable(elements, el) <==>
              exists i :: 0 <= i < |elements| && elements[i].parentElId == el.elId && elements[i].elId != el.elId
    ensures el.elId != 0 ==> (IsExpandable(elements, el) <==> ElementChildren(elements, el.elId) != [])
  {
    if el.elId != 0 {
      var r := ElementChildren(elements, el.elId);
      if r != [] {
        assert r[0] in elements;
        var k :| 0 <= k < |elements| && elements[k] == r[0];
      }
      if IsExpandable(elements, el) {
        var k :| 0 <= k < |elements| && ChildOf(el.elId, elements[k]);
        assert elements[k] in r;
      }
    }
  }
}
