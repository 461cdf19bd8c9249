/** What the two tree views share: the parts of a tree item that the host
    editor reads, and the filter on internal names. */
module TreeItems {
  import opened Text

  /** Whether the host shows an expand arrow on an item. */
  datatype CollapsibleState = StateNone | StateCollapsed

  /** The theme icons the items use. */
  datatype Icon = SymbolClass | Database | SymbolNamespace | SymbolReference | SymbolField

  /** The click action of an item: `winccoa-para.openConfigEditor`
      ("Open Config Editor"), with the item itself as its argument. */
  datatype Command = OpenConfigEditor

  const OPEN_CONFIG_EDITOR := "winccoa-para.openConfigEditor"

  /** The root filter: internal names start with '_' and are listed only
      while the view shows internal entries. */
  predicate ShownAtRoot(showInternal: bool, name: string) {
    showInternal || !StartsWith(name, "_")
  }

  /** Collapsed when there is something to expand, else no arrow. */
  function StateOf(expandable: bool): (s: CollapsibleState)
    ensures s == StateCollapsed <==> expandable
  {
    if expandable then StateCollapsed else StateNone
  }
}
