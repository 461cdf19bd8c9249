# WinCC OA PARA browser — a verified model

The extension browses the parametrisation of a WinCC OA project. The project keeps that parametrisation in three read-only SQLite stores:

- the identity store, which holds the datapoint types, their elements, and the datapoints;
- the configuration store, which holds the address, alert, archive, PV range, smoothing and distribution configurations;
- the last-value store.

The extension offers two tree views, each listing its own main entity at the root:

- a type-oriented view, with datapoint types at the root;
- a datapoint-oriented view, with datapoints at the root.

Expanding an entry shows the element tree of its type. This tree is rebuilt from the flat parent-pointer rows of `datapoint_element`.

Clicking an element opens a configuration panel. The panel shows a header and seven sections, one per kind of configuration. A section whose record is absent reads "not configured".

A small client for the project's control service reads the service's `.env` file, probes its health, and writes one datapoint element value. The write is a JSON-RPC `tools/call` request whose answer comes back as a server-sent event.

The Dafny model has these modules:

- `OaTypes`: element data-type tags and their display names.
- `Models`: the record shapes of the store rows.
- `Catalog`: the client over the three stores. It is a class whose three nullable handles are fields, together with lookups that filter and sort.
- `Hierarchy`: the element-tree builder that both views share.
- `TreeItems`: the parts of a tree item the host reads.
- `DptTree` and `DpTree`: the two view providers. Each is a class with a `showInternal` field.
- `Json` and `Mcp`: the control-service client.
- `ConfigEditor`: the panel content.
- `Text`, `Seqs` and `Wrappers`: string, sequence and result helpers. `Text` covers JavaScript `trim`, `split`, `indexOf`, `replace` and number-to-string conversion; `Seqs` covers filter, find, map and a stable sort.

Several external operations are parameters of the model:

- The network exchange (`fetch`) is a function from request to outcome.
- `JSON.parse` is a partial decoder into a small JSON datatype.
- The clock reading used as the request id is a parameter.
- The date formatting of the last-value timestamp is a parameter.
- Opening a store file is a lookup in a map from path to store image.

A failed `open` can leave the catalog reporting open. The code assigns the identity handle before it opens the other two stores (src/db/sqliteClient.ts:36-38). If a later store fails to open, the identity handle stays, so `isOpen` stays true. `Catalog.PartialOpen` proves this.

The element-tree builder has a termination caveat. Suppose the first row whose parent is 0 has element id 0. Then `buildElementChildren(elements, 0, _)` calls itself with the same arguments again and again (src/providers/dptTreeProvider.ts:144-147). In a JavaScript engine the call stack eventually overflows, and `getChildren` throws a RangeError. The model's precondition `Hierarchy.RootSkipTerminates` excludes exactly that input.

## Model

| member | source | states |
|---|---|---|
| OaTypes.GetTypeName | src/models/types.ts:32-55 | A tag with its own case gets that name. Any other tag strictly between 32 and 60 gets "dyn_" before the name of the tag 32 lower, which is always a name without the dyn step. Every remaining tag gets "unknown(" + tag + ")". |
| OaTypes.DynNames | src/models/types.ts:19-27 | Each array tag, the scalar tag plus 32, is named "dyn_" before the scalar's name; 57, for example, is "dyn_string". |
| OaTypes.NameExamples | src/models/types.ts:34-53 | 1 is "struct". 41 is "reference", although it lies in the dyn range. 33 is "dyn_struct", 34 is "dyn_unknown(2)", 60 is "unknown(60)" and 63 is "unknown(63)". |
| OaTypes.NamedShape | src/models/types.ts:34-48 | Every named case's name has at least three letters and starts like neither "dy" nor "un". |
| OaTypes.BaseShape | src/models/types.ts:34-53 | A name without the dyn step is either a named case or starts with "unknown(". |
| OaTypes.NameShape | src/models/types.ts:32-55 | The first two letters of a name tell which of the three branches produced it. |
| OaTypes.DynNeverNests | src/models/types.ts:50-51 | The recursion goes at most one level deep: no name begins "dyn_dyn_". |
| OaTypes.UnknownInjective | src/models/types.ts:53 | Two "unknown(…)" texts are equal only for equal tags. |
| OaTypes.BaseNameInjective | src/models/types.ts:34-53 | Names without the dyn step are distinct for distinct tags. |
| OaTypes.GetTypeNameInjective | src/models/types.ts:32-55 | Distinct tags get distinct names, so a shown name identifies its tag. |
| OaTypes.IsLeafType | src/models/types.ts:58-60 | A tag is a leaf exactly when it is neither struct nor reference. This predicate is the test `DptTree.CommandOnlyOnLeaves` and `DpTree.EveryElementOpensEditor` state their command and description rules against. |
| Hierarchy.ElementChildren | src/providers/dptTreeProvider.ts:142-151 | Every returned row comes from the input and is not its own parent. For a parent id other than 0, the result holds exactly the input rows that name that parent and are not the parent itself. |
| Hierarchy.FirstRoot | src/providers/dptTreeProvider.ts:145 | It is the first row whose parent is 0: a stored row with parent 0 that no earlier row matches. It is absent if and only if no row has parent 0. |
| Hierarchy.HasChildren | src/providers/dptTreeProvider.ts:154 | True if and only if some row names the element as parent and is not the element itself. |
| Hierarchy.IsExpandable | src/providers/dptTreeProvider.ts:155 | A struct, a reference, or an element with children. Its properties are stated by `Hierarchy.StructAndReferenceExpandable` and `Hierarchy.LeafExpandableIffChildren`. |
| Hierarchy.ChildrenSplit | src/providers/dpTreeProvider.ts:110 | Below a real parent, the children of a concatenation are the children of each part, in input order. |
| Hierarchy.ChildrenSingle | src/providers/dptTreeProvider.ts:151 | A single row is kept exactly when it names the parent and is not the parent itself. |
| Hierarchy.ChildrenCount | src/providers/dptTreeProvider.ts:151 | A matching row is returned as often as it occurs in the input; a non-matching row is never returned. |
| Hierarchy.NoSelfChild | src/providers/dptTreeProvider.ts:151 | No returned child has the parent's id, even when a malformed row names itself as its parent. |
| Hierarchy.RootIsSkipped | src/providers/dptTreeProvider.ts:144-148 | When the first row with parent 0 has a non-zero id, the children of 0 are the children of that row. |
| Hierarchy.NoRootNoChildren | src/providers/dptTreeProvider.ts:144-151 | Without a row whose parent is 0, the children of 0 are empty. |
| Hierarchy.RootNotAmongChildren | src/providers/dpTreeProvider.ts:103-110 | Skipping the root lists the root's children and never the root row itself. |
| Hierarchy.StructAndReferenceExpandable | src/providers/dptTreeProvider.ts:155 | A struct or a reference is expandable whether or not it has children. |
| Hierarchy.LeafExpandableIffChildren | src/providers/dpTreeProvider.ts:113-114 | An element of any other tag is expandable if and only if some other row names it as parent. For a non-zero id, that holds if and only if expanding it lists something. |
| TreeItems.StateOf | src/providers/dptTreeProvider.ts:159 | The item is collapsed if and only if it is expandable; otherwise it has no arrow. |
| DptTree.CommandOnlyOnLeaves | src/providers/dptTreeProvider.ts:22-49 | Only leaf element items carry the open-editor command. A reference item reads "→ ref". A leaf item's description is its type name. |
| DptTree.ParaTreeItem.Description | src/providers/dptTreeProvider.ts:31-47 | The description of an item: "→ ref" for a reference, the type name for a leaf element, none otherwise. `DptTree.CommandOnlyOnLeaves` states it. |
| DptTree.ParaTreeItem.CommandOf | src/providers/dptTreeProvider.ts:38-47 | The click command of an item: the open-editor command on leaf elements only. `DptTree.CommandOnlyOnLeaves` states it. |
| DptTree.TypeItem | src/providers/dptTreeProvider.ts:104-109 | A type's root item is a type item with the type's name and id. It is always collapsed and opens nothing on click. |
| DptTree.RootItems | src/providers/dptTreeProvider.ts:98-110 | The root items are exactly the items of the shown types: all of them when internal entries are shown, otherwise those whose name does not start with '_'. No types give no items, and a single type gives its one item exactly when it is shown. Together with `DptTree.RootItemsSplit` this fixes the list, its order and its multiplicity. |
| DptTree.RootItemsSplit | src/providers/dptTreeProvider.ts:101-104 | The root filter keeps input order and decides each type on its own. |
| DptTree.DatapointItem | src/providers/dptTreeProvider.ts:117-126 | A datapoint item carries the datapoint's name, its id and its type's id. It is collapsed if and only if its type has more than one element. |
| DptTree.ElementTreeItem | src/providers/dptTreeProvider.ts:153-165 | An element item carries the element's name, id, tag and type id, and the datapoint's id. It is collapsed if and only if the element is expandable. |
| DptTree.BuildElementChildren | src/providers/dptTreeProvider.ts:142-167 | The result is `DptTree.ElementLevel`: one element item per child row, in order. Each item has its row's id, name, tag and type id and the given datapoint id, and is collapsed if and only if its row is expandable. Exactly the items of leaf rows open the configuration panel. |
| DptTree.DptTreeProvider.constructor | src/providers/dptTreeProvider.ts:57-59 | A new view shows no internal entries and has fired no change event. |
| DptTree.DptTreeProvider.Refresh | src/providers/dptTreeProvider.ts:61-63 | It fires exactly one change event and changes nothing else. |
| DptTree.DptTreeProvider.SetShowInternal | src/providers/dptTreeProvider.ts:65-68 | It sets the flag and fires one change event. |
| DptTree.DptTreeProvider.DatapointItems | src/providers/dptTreeProvider.ts:113-128 | The result is `DptTree.DptTreeProvider.DatapointLevel`: one datapoint item per datapoint, in order. Each carries the datapoint's name, its id and its type's id, and is collapsed if and only if its type has more than one element. None of them opens the panel. |
| DptTree.DptTreeProvider.GetChildren | src/providers/dptTreeProvider.ts:74-95 | With the catalog closed there are no children. At the root, the children are the shown types. Below a type, they are its datapoints, as `DatapointLevel` describes. Below a datapoint, they are the element level under parent 0. Below an element, they are the element level under that element. Each element item carries its row's type id, which the next expansion looks up. |
| DptTree.RootListsShownTypes | src/providers/dptTreeProvider.ts:98-110 | With the catalog open, a stored type is listed at the root if and only if it is shown. |
| DptTree.DatapointCollapsedIffSeveralElements | src/providers/dptTreeProvider.ts:113-128 | Below a type, the i-th datapoint is collapsed if and only if its type has more than one element. |
| DptTree.DatapointExpansionSkipsRoot | src/providers/dptTreeProvider.ts:130-148 | Expanding a datapoint lists the children of its type's first root row. |
| DpTree.EveryElementOpensEditor | src/providers/dpTreeProvider.ts:19-39 | Every element item opens the editor, structs and references included. Only leaves get a description, and it is their type name. |
| DpTree.DpTreeItem.Description | src/providers/dpTreeProvider.ts:24-31 | The description of an item: the type name for a leaf element, none otherwise. `DpTree.EveryElementOpensEditor` states it. |
| DpTree.DpTreeItem.CommandOf | src/providers/dpTreeProvider.ts:33-38 | The click command of an item: the open-editor command on every element item. `DpTree.EveryElementOpensEditor` states it. |
| DpTree.DatapointItem | src/providers/dpTreeProvider.ts:74-83 | A root item carries the datapoint's name, its id and its type's id. It is collapsed if and only if its type has more than one element. |
| DpTree.ElementTreeItem | src/providers/dpTreeProvider.ts:112-124 | An element item carries the element's name, id, tag and type id, and the datapoint's id. It is collapsed if and only if the element is expandable. |
| DpTree.BuildElementChildren | src/providers/dpTreeProvider.ts:101-126 | The result is `DpTree.ElementLevel`: one element item per child row, in order. Each item has its row's id, name, tag and type id and the given datapoint id, and is collapsed if and only if its row is expandable. Every item opens the configuration panel. |
| DpTree.DpTreeProvider.constructor | src/providers/dpTreeProvider.ts:47-49 | A new view shows no internal entries and has fired no change event. |
| DpTree.DpTreeProvider.Refresh | src/providers/dpTreeProvider.ts:51-53 | It fires exactly one change event and changes nothing else. |
| DpTree.DpTreeProvider.SetShowInternal | src/providers/dpTreeProvider.ts:55-58 | It sets the flag and fires one change event. |
| DpTree.DpTreeProvider.RootItems | src/providers/dpTreeProvider.ts:74-84 | One datapoint item per datapoint, in order. Each carries the datapoint's name, its id and its type's id, and is collapsed if and only if its type has more than one element. None of them opens the panel. |
| DpTree.DpTreeProvider.ShownDatapoints | src/providers/dpTreeProvider.ts:71-73 | The root list is the catalog listing, sorted by name, through the root filter `ShownAmong`. So a datapoint is listed if and only if it is stored and shown. With internal entries shown, the list is the whole catalog listing in its order. |
| DpTree.DpTreeProvider.GetChildren | src/providers/dpTreeProvider.ts:64-99 | With the catalog closed there are no children. At the root they are the root items of the shown datapoints. Below a datapoint, they are the element level under parent 0. Below an element, they are the element level under that element. Each element item carries its row's type id, which the next expansion looks up. |
| DpTree.RootListing | src/providers/dpTreeProvider.ts:69-85 | The root has one item per shown datapoint, at the same index, so it keeps the filtered catalog order. Each item is a stored, shown datapoint with its id, and is collapsed if and only if its type has more than one element. |
| DpTree.ShownAmong | src/providers/dpTreeProvider.ts:72-73 | A datapoint is kept if and only if it is in the list and shown. The empty and one-entry cases are fixed, and with internal entries shown nothing is dropped. |
| DpTree.ShownAmongCount | src/providers/dpTreeProvider.ts:72-73 | The filter keeps every shown datapoint as often as it occurs and drops every hidden one. |
| DpTree.ShownAmongSplit | src/providers/dpTreeProvider.ts:72-73 | Filtering a concatenation filters each part. With the one-entry case this fixes the filtered list, so catalog order is kept. |
| DpTree.DatapointExpansionSkipsRoot | src/providers/dpTreeProvider.ts:87-90 | Expanding a datapoint lists the children of its type's first root row. |
| Catalog.OpenFile | src/db/sqliteClient.ts:36-38 | A store handle exists exactly when its file can be opened, and then it holds that file's content. |
| Catalog.NameLeTotal | src/db/sqliteClient.ts:59 | The name order is total. |
| Catalog.NameLeTransitive | src/db/sqliteClient.ts:59 | The name order is transitive. |
| Catalog.DpTypeOrder | src/db/sqliteClient.ts:59 | Ordering types by name is a total preorder. |
| Catalog.DatapointOrder | src/db/sqliteClient.ts:81 | Ordering datapoints by name is a total preorder. |
| Catalog.SqliteClient.constructor | src/db/sqliteClient.ts:23-28 | A new client holds no handles and an empty project path, and is not open. |
| Catalog.SqliteClient.Close | src/db/sqliteClient.ts:42-49 | All three handles are dropped and the client is not open; the project path is kept. |
| Catalog.SqliteClient.IsOpen | src/db/sqliteClient.ts:51-53 | `isOpen` looks at the identity handle only. `Catalog.PartialOpen` shows what follows from that. |
| Catalog.SqliteClient.Open | src/db/sqliteClient.ts:31-39 | It closes first and records the path. It then opens the identity, configuration and last-value stores in that order. The first store that cannot be opened ends the call, naming its path, and the handles opened before it stay. The client is open if and only if the identity store could be opened. |
| Catalog.SqliteClient.GetAllDpTypes | src/db/sqliteClient.ts:57-61 | Every stored type, each as often as stored, sorted by name. |
| Catalog.SqliteClient.GetDpTypeById | src/db/sqliteClient.ts:63-67 | A stored type with that id, and absent if and only if none has it. |
| Catalog.SqliteClient.GetElementsByDptId | src/db/sqliteClient.ts:71-75 | The stored elements of exactly that type. |
| Catalog.SqliteClient.ElementsByPosition | src/db/sqliteClient.ts:71-75 | They are sorted by position in the type, and each of the type's rows appears as often as it is stored. |
| Catalog.SqliteClient.GetAllDatapoints | src/db/sqliteClient.ts:79-83 | Every stored datapoint, each as often as stored, sorted by name. |
| Catalog.SqliteClient.GetDatapointsByDptId | src/db/sqliteClient.ts:85-89 | The stored datapoints of exactly that type, each as often as stored, sorted by name. |
| Catalog.SqliteClient.GetDisplayName | src/db/sqliteClient.ts:93-97 | A stored row with that key, and absent if and only if none has it. |
| Catalog.SqliteClient.GetUnitAndFormat | src/db/sqliteClient.ts:99-103 | A stored row with that key, and absent if and only if none has it. |
| Catalog.SqliteClient.GetAddressConfig | src/db/sqliteClient.ts:107-111 | A stored row with that key, and absent if and only if none has it. |
| Catalog.SqliteClient.GetAlertHdlConfig | src/db/sqliteClient.ts:113-117 | A stored row with that key, and absent if and only if none has it. |
| Catalog.SqliteClient.GetAlertHdlDetails | src/db/sqliteClient.ts:119-123 | The stored details of exactly that key, each as often as stored, sorted by detail number. |
| Catalog.SqliteClient.GetArchiveConfig | src/db/sqliteClient.ts:125-129 | A stored row with that key, and absent if and only if none has it. |
| Catalog.SqliteClient.GetArchiveDetail | src/db/sqliteClient.ts:131-135 | A stored row with that key, and absent if and only if none has it. |
| Catalog.SqliteClient.GetPvRangeConfig | src/db/sqliteClient.ts:137-141 | A stored row with that key, and absent if and only if none has it. |
| Catalog.SqliteClient.GetSmoothConfig | src/db/sqliteClient.ts:143-147 | A stored row with that key, and absent if and only if none has it. |
| Catalog.SqliteClient.GetDistribConfig | src/db/sqliteClient.ts:149-153 | A stored row with that key, and absent if and only if none has it. |
| Catalog.SqliteClient.GetLastValue | src/db/sqliteClient.ts:157-161 | Only a row of that key at array index 0 in language 0, and absent if and only if none exists. |
| Catalog.SqliteClient.GatherConfigs | src/providers/configEditorProvider.ts:50-62 | On a catalog that reports open, it fails with the TypeError of reading `prepare` of null if and only if the configuration or last-value store is missing. Otherwise each of the eleven fields is its lookup's result. The alert configuration and the last value are absent exactly when the store has none for the key, and the detail list is empty exactly when no detail row matches. |
| Catalog.CloseTwice | src/db/sqliteClient.ts:42-49 | A second close leaves the same state as the first. |
| Catalog.PartialOpen | src/db/sqliteClient.ts:36-38 | If the identity store opens and the configuration store does not, the call fails at the configuration path and the client still reports open. |
| Mcp.EntryIff | src/api/mcpClient.ts:128-131 | A trimmed line defines key k as v if and only if it reads k=v, where k is non-empty, holds no '=' and does not start with '#'. The split is at the first '=', so v may contain '='. |
| Mcp.Entry | src/api/mcpClient.ts:128-131 | A key it reads is non-empty, holds no '=', does not start with '#' and is shorter than the line. A line without '=' or starting with '#' defines nothing. `Mcp.EntryIff` states the full if-and-only-if. |
| Mcp.ParseLine | src/api/mcpClient.ts:127-131 | A line is trimmed and then read by `Mcp.Entry`; `Mcp.EntryIff` states the result. |
| Mcp.EnvOfLines | src/api/mcpClient.ts:126-133 | Every key it defines is non-empty and holds no '='. `Mcp.EnvKeys`, `Mcp.EnvLastWins` and `Mcp.EnvEntriesFromLines` state which keys and values. |
| Mcp.ParseEnvFile | src/api/mcpClient.ts:123-135 | The loop's map is the environment the lines define, read top to bottom. |
| Mcp.EnvKeys | src/api/mcpClient.ts:126-133 | A key is defined if and only if some line sets it. |
| Mcp.EnvLastWins | src/api/mcpClient.ts:131 | A key's value is the one on the last line that sets it. |
| Mcp.EnvEntriesFromLines | src/api/mcpClient.ts:127-131 | Every defined key is non-empty, holds no '=', and comes from a line whose trimmed text is exactly key=value. |
| Mcp.OutboundHost | src/api/mcpClient.ts:27 | The wildcard host 0.0.0.0 becomes localhost; every other host is kept. |
| Mcp.ConfigFromEnv | src/api/mcpClient.ts:22-29 | The address starts with "http://". A non-empty token is the file's `MCP_API_TOKEN`. |
| Mcp.DefaultConfig | src/api/mcpClient.ts:22-29 | With none of the three keys set to a non-empty value, the address is http://localhost:3001 and the token is empty. |
| Mcp.ConfiguredAddress | src/api/mcpClient.ts:22-29 | With a host and port set, the address is http://host:port, with the wildcard host replaced by localhost. |
| Mcp.McpClient.constructor | src/api/mcpClient.ts:13 | A new client has no configuration. |
| Mcp.McpClient.IsConfigured | src/api/mcpClient.ts:38-40 | The client is configured exactly when it holds a configuration. |
| Mcp.McpClient.Configure | src/api/mcpClient.ts:16-36 | It returns true if and only if the project's .env file exists. In that case the configuration is the one that file's environment gives; otherwise nothing changes. |
| Mcp.DpSetRequestCarriesPoint | src/api/mcpClient.ts:64-74 | The request calls the dp-set tool and carries the element name and the value under params.arguments.datapoints. |
| Mcp.DataPayload | src/api/mcpClient.ts:100 | It is the capture of `^data: (.+)$` under the m flag: the rest of the first line that starts with "data: " and has at least one more character. It is absent if and only if no line qualifies. |
| Mcp.SplitAt | src/api/mcpClient.ts:100 | Splitting into lines at a terminator separates the text on either side of it. |
| Mcp.SplitNone | src/api/mcpClient.ts:100 | A text without line terminators is a single line. |
| Mcp.DataAfterLine | src/api/mcpClient.ts:99-102 | A data line after a line of another kind is the one captured. |
| Mcp.EventPayload | src/api/mcpClient.ts:99-102 | For the "event: message" / "data: …" event the service sends, the capture is the payload. |
| Mcp.ContentText | src/api/mcpClient.ts:103 | The optional chain fails (a TypeError) exactly when the decoded answer is null. |
| Mcp.Verdict | src/api/mcpClient.ts:106-111 | It fails exactly when the tool's document is null. Otherwise the write succeeds if and only if `success` is truthy, and then carries no error. A failure carries `data[dpeName].error` when that is truthy, and "dpSet returned failure" otherwise. |
| Mcp.HealthyIff | src/api/mcpClient.ts:43-56 | The probe is true if and only if the client is configured, the answer is 2xx, and the body decodes to an object whose status is exactly the string "ok". |
| Mcp.McpClient.CheckHealth | src/api/mcpClient.ts:43-56 | A true probe needs a configured client whose request got a response. `Mcp.HealthyIff` states the full condition. |
| Mcp.McpClient.DpSet | src/api/mcpClient.ts:59-120 | A result is a success if and only if it carries no error, and a success needs a configured client. |
| Mcp.McpClient.AnswerOf | src/api/mcpClient.ts:101-115 | A result is a success if and only if it carries no error, and a success needs a data line that decodes. |
| Mcp.UnconfiguredDpSet | src/api/mcpClient.ts:60-62 | Without a configuration the answer is always the not-configured failure. |
| Mcp.DpSetSuccessMeans | src/api/mcpClient.ts:90-109 | A reported success implies a configured client and a 2xx answer with a data line. Both decodings succeeded, the first content item's text was truthy, and the tool's `success` was truthy. A success carries no error. |
| Mcp.DpSetFailureExplained | src/api/mcpClient.ts:59-120 | Every failure carries an error value. |
| Mcp.AnswerChain | src/api/mcpClient.ts:102-111 | When the envelope decodes, its content text is non-empty and decodes, and the tool document yields a verdict, that verdict is the answer. |
| Mcp.EnvelopeText | src/api/mcpClient.ts:103 | The content text is read from the first item of result.content. |
| Mcp.AcceptedAnswer | src/api/mcpClient.ts:102-108 | If the tool's text says success is true, the data payload yields a success. |
| Mcp.AcceptedWrite | src/api/mcpClient.ts:96-108 | An accepted write, as the service sends it, is reported as a success without error. |
| Mcp.RefusedAnswer | src/api/mcpClient.ts:102-111 | If the tool's text says success is false and gives the element's error, the data payload yields that error. |
| Mcp.RefusedWrite | src/api/mcpClient.ts:96-111 | A refused write reports the element's own error text. |
| Mcp.HttpError | src/api/mcpClient.ts:90-94 | Any answer with a status outside 200..299 is reported as "HTTP <status>: <statusText>", whatever its body. |
| Mcp.FetchThrew | src/api/mcpClient.ts:116-118 | A `fetch` that throws is reported by the exception's message. |
| Mcp.DecodeFailure | src/api/mcpClient.ts:102 | A data line that does not decode is reported by the decoder's message. |
| Mcp.MissingContent | src/api/mcpClient.ts:103-115 | An envelope whose first content item has no truthy text is an unexpected format. |
| Mcp.ToolTextDecodeFailure | src/api/mcpClient.ts:105 | A content text that does not decode is reported by the decoder's message. |
| Mcp.NoDataLine | src/api/mcpClient.ts:100-115 | An answer without a data line is an unexpected format. |
| Json.Prop | src/api/mcpClient.ts:103 | Reading a property throws exactly when the value is null. |
| Json.OptGet | src/api/mcpClient.ts:103 | Optional chaining on undefined or null yields undefined. |
| Json.IndexKey | src/api/mcpClient.ts:103 | A key that reads as an array index is the decimal text of that index. |
| Json.ArrayIndexing | src/api/mcpClient.ts:103 | `[0]` on a non-empty array is its first item. |
| Text.Trim | src/api/mcpClient.ts:127 | The trimmed text is no longer than the line and starts and ends with no white space. |
| Text.TrimRemovesOnlySpace | src/api/mcpClient.ts:127 | Trimming removes white space at either end and nothing else. |
| Text.TrimIdentity | src/api/mcpClient.ts:127 | A text without white space at its ends is its own trim. |
| Text.Split | src/api/mcpClient.ts:126 | The split gives at least one piece, and no piece holds a separator. |
| Text.JoinSplit | src/api/mcpClient.ts:126 | Joining the pieces with the separator gives the text back. |
| Text.IndexOf | src/api/mcpClient.ts:129 | It is the first position of the character, or -1 exactly when the character is absent. |
| Text.IntToRadixRoundTrip | src/providers/configEditorProvider.ts:270 | Reading `toString(radix)` back gives the number. |
| Text.IntToStringInjective | src/providers/configEditorProvider.ts:290 | Distinct integers are written differently. |
| Text.ToUpperCase | src/providers/configEditorProvider.ts:270 | Each lower-case ASCII letter becomes upper case; every other character is kept, at the same position. |
| ConfigEditor.EscapeHtml | src/providers/configEditorProvider.ts:484-490 | The four replacements, the ampersand first. The lemmas below state what the result is. |
| ConfigEditor.EscapeOneChar | src/providers/configEditorProvider.ts:484-490 | Escaping one character gives its entity, or the character itself. |
| ConfigEditor.EscapeHtmlAppend | src/providers/configEditorProvider.ts:484-490 | Escaping a concatenation escapes each part. |
| ConfigEditor.EscapeHtmlPerChar | src/providers/configEditorProvider.ts:484-490 | The four chained passes equal escaping every character once on its own. |
| ConfigEditor.NoDoubleEscape | src/providers/configEditorProvider.ts:484-490 | "<" becomes "&lt;"; the entity is not escaped again. |
| ConfigEditor.EscapedHasNoMarkup | src/providers/configEditorProvider.ts:484-490 | The output holds no '<', '>' or '"'. |
| ConfigEditor.EscapeIdentity | src/providers/configEditorProvider.ts:484-490 | A text without any of & < > " is unchanged. |
| ConfigEditor.UnescapeAfter | src/providers/configEditorProvider.ts:484-490 | Decoding one escaped character followed by more text gives back the character, followed by the decoding of the rest. |
| ConfigEditor.UnescapeEntity | src/providers/configEditorProvider.ts:486-489 | Each of the four entities decodes to its character. |
| ConfigEditor.EscapeRoundTrip | src/providers/configEditorProvider.ts:484-490 | Decoding an escaped text gives it back, so escaping loses nothing. |
| ConfigEditor.EscapeEachRoundTrip | src/providers/configEditorProvider.ts:484-490 | Per-character escaping is undone by decoding. |
| ConfigEditor.NumeralChars | src/providers/configEditorProvider.ts:320 | A written integer is non-empty and made of digits and '-'. |
| ConfigEditor.SplitAtRangeDots | src/providers/configEditorProvider.ts:320 | Two texts without spaces, joined by " .. ", can be separated again; the PV range text (line 407) uses the same join. |
| ConfigEditor.NoSpaceInNumeral | src/providers/configEditorProvider.ts:320 | A written integer holds no space. |
| ConfigEditor.BracketSplit | src/providers/configEditorProvider.ts:320 | A text between one-character brackets determines the brackets and the text. |
| ConfigEditor.IntervalInjective | src/providers/configEditorProvider.ts:320 | An interval text determines its brackets and both bounds. |
| ConfigEditor.RangeInjective | src/providers/configEditorProvider.ts:320 | "lo .. hi" determines both bounds. |
| ConfigEditor.AlertRangeInjective | src/providers/configEditorProvider.ts:319-320 | With both limits present, the range text determines both limits and both inclusion flags. |
| ConfigEditor.AlertMatchQuoted | src/providers/configEditorProvider.ts:319-321 | Without both limits but with a match pattern, the text is `match: "…"`. The quotes delimit it, and the part inside decodes to the pattern. |
| ConfigEditor.AlertRangeText | src/providers/configEditorProvider.ts:319-321 | With both limits, the text is an interval in brackets. With neither both limits nor a match pattern, it is "n/a". |
| ConfigEditor.PvRangeInjective | src/providers/configEditorProvider.ts:402-407 | A PV range text determines which bounds exist, their values, and the brackets of those that exist. |
| ConfigEditor.PvRangeText | src/providers/configEditorProvider.ts:402-407 | The PV range is written as an interval between brackets. |
| ConfigEditor.MinTextHasNoSpace | src/providers/configEditorProvider.ts:402 | The lower end holds no space. |
| ConfigEditor.MinOpenIff | src/providers/configEditorProvider.ts:402 | The lower end reads "(-inf" if and only if there is no minimum. |
| ConfigEditor.MaxOpenIff | src/providers/configEditorProvider.ts:403 | The upper end reads "+inf)" if and only if there is no maximum. |
| ConfigEditor.MinTextInjective | src/providers/configEditorProvider.ts:402 | The lower end determines the minimum and, when there is one, its bracket. |
| ConfigEditor.MaxTextInjective | src/providers/configEditorProvider.ts:403 | The upper end determines the maximum and, when there is one, its bracket. |
| ConfigEditor.FullPathShape | src/providers/configEditorProvider.ts:80 | The path ends with the label. It is the bare label if and only if no non-empty datapoint name is known. |
| ConfigEditor.FullPath | src/providers/configEditorProvider.ts:80 | The path ends with the label. It is the bare label if and only if no non-empty datapoint name is known. |
| ConfigEditor.UnknownIsNoTypeName | src/providers/configEditorProvider.ts:79 | The badge of a missing element, "unknown", differs from every type name. |
| ConfigEditor.TypeNameOf | src/providers/configEditorProvider.ts:79 | The badge reads "unknown" if and only if the element was not found. |
| ConfigEditor.ToUpperHexInjective | src/providers/configEditorProvider.ts:270 | Upper-casing hexadecimal text loses nothing. |
| ConfigEditor.UpperHexChar | src/providers/configEditorProvider.ts:270 | Upper-casing loses nothing on a single hexadecimal character. |
| ConfigEditor.HexChars | src/providers/configEditorProvider.ts:270 | `toString(16)` writes only hexadecimal digits and '-'. |
| ConfigEditor.StatusTextInjective | src/providers/configEditorProvider.ts:270 | Distinct status words give distinct status texts. |
| ConfigEditor.StatusExamples | src/providers/configEditorProvider.ts:270 | A NULL status reads "0x0", and 255 reads "0xFF". |
| ConfigEditor.StatusText | src/providers/configEditorProvider.ts:270 | The status is "0x" followed by at least one digit. |
| ConfigEditor.LabelFallback | src/providers/configEditorProvider.ts:342 | When a table's labels are non-empty words, a code shows as its number if and only if it is not in the table, and a code in the table shows its label. The processing-type and smoothing-type labels (lines 375 and 431) fall back the same way. |
| ConfigEditor.Label | src/providers/configEditorProvider.ts:342 | A label is never empty, and a code outside the table shows as its number. |
| ConfigEditor.TablesHaveWords | src/providers/configEditorProvider.ts:309-313 | The config-type, processing-type and smoothing-type labels (also lines 367-372 and 423-427) are non-empty and start with no digit or '-'. |
| ConfigEditor.LastValueSection | src/providers/configEditorProvider.ts:253-276 | It is titled "Current Value", and it is "not configured" if and only if there is no last value. |
| ConfigEditor.AddressSection | src/providers/configEditorProvider.ts:278-296 | It is titled "Address", and it is "not configured" if and only if there is no address. |
| ConfigEditor.DetailCells | src/providers/configEditorProvider.ts:318-328 | A detail row has five cells, and the third is the range text. |
| ConfigEditor.AlertHdlSection | src/providers/configEditorProvider.ts:298-352 | It is "not configured" if and only if there is no alert configuration. When shown, it has a detail table if and only if there are details, with one row per detail in order. |
| ConfigEditor.ArchiveSection | src/providers/configEditorProvider.ts:354-394 | It is "not configured" if and only if there is no archive configuration. When shown, it has a detail table if and only if an archive detail exists. |
| ConfigEditor.PvRangeSection | src/providers/configEditorProvider.ts:396-415 | It is "not configured" if and only if there is no PV range. When shown, the match row is present if and only if a match pattern exists. |
| ConfigEditor.SmoothSection | src/providers/configEditorProvider.ts:417-437 | It is "not configured" if and only if there is no smoothing configuration. |
| ConfigEditor.DistribSection | src/providers/configEditorProvider.ts:439-450 | It is "not configured" if and only if there is no distribution configuration. |
| ConfigEditor.RenderPage | src/providers/configEditorProvider.ts:82-117 | The page has seven sections, in the fixed order: Current Value, Address, Alert Handling, Archive, PV Range, Smoothing, Distribution. |
| ConfigEditor.LastValueShownIff | src/providers/configEditorProvider.ts:255-256 | The first section is "not configured" if and only if there is no last value. |
| ConfigEditor.AddressShownIff | src/providers/configEditorProvider.ts:280-281 | The second section is "not configured" if and only if there is no address. |
| ConfigEditor.AlertHdlShownIff | src/providers/configEditorProvider.ts:300-301 | The third section is "not configured" if and only if there is no alert configuration. |
| ConfigEditor.ArchiveShownIff | src/providers/configEditorProvider.ts:356-357 | The fourth section is "not configured" if and only if there is no archive configuration. |
| ConfigEditor.PvRangeShownIff | src/providers/configEditorProvider.ts:398-399 | The fifth section is "not configured" if and only if there is no PV range. |
| ConfigEditor.SmoothShownIff | src/providers/configEditorProvider.ts:419-420 | The sixth section is "not configured" if and only if there is no smoothing configuration. |
| ConfigEditor.DistribShownIff | src/providers/configEditorProvider.ts:441-442 | The seventh section is "not configured" if and only if there is no distribution configuration. |
| ConfigEditor.SectionEmptyIffAbsent | src/providers/configEditorProvider.ts:253-450 | Section i is "not configured" if and only if the record behind it is absent. |
| ConfigEditor.EmptySectionsIffAbsent | src/providers/configEditorProvider.ts:315-366 | Every section is "not configured" exactly when its record is absent. The alert detail table appears only with details, and the archive detail only with its record. |
| ConfigEditor.PanelContent | src/providers/configEditorProvider.ts:47-69 | On a catalog that reports open, `update` throws the TypeError of reading `prepare` of null if and only if the configuration or last-value store is missing. Otherwise the panel has seven sections. Its alert and current-value sections are "not configured" exactly when the catalog has no such record, and its type badge is the element's escaped type name, or "unknown". |

## Left out

- I/O is not modelled: reading the `.env` file, `fs.existsSync`, `fetch` and its time-outs, async control flow, and all `log.*` output. The file system is a map from path to content, and the network is a function from request to outcome.
- `JSON.parse` and `JSON.stringify` are not modelled. Decoding is a parameter that may fail with the exception's text, and the request body is the JSON value that would be serialised.
- Floating point is not modelled. Numbers (limits, values, JSON numbers, tolerances) are integers, and their JavaScript text is the decimal numeral.
- Date formatting of the last-value timestamp is not modelled; it is the `isoTime` parameter.
- The HTML and CSS of the panel are not modelled. The page is its structure: title, header, sections, and rows with each cell's text.
- The panel's show/update/dispose lifecycle and the static `currentPanel` bookkeeping are left out, because they are webview host state. What `update` computes is `ConfigEditor.PanelContent`.
- `db.getElementByIds` and `db.getDatapointName`, which the panel calls, are not part of this model, because sqliteClient.ts does not define them. Their results are inputs to `ConfigEditor.PanelContent`.
- SQL execution is not modelled. Each query is its filter, order and limit over the stored rows. The order in which `ORDER BY` returns ties is left open: the contracts state only sortedness and the multiset of rows.
- `path.join` normalisation is not modelled: no `..` or `.` segments are resolved. Parts are joined with one '/'.
- Errors from a missing table or a faulty store are not modelled, and neither are BLOB column values or the precision of 64-bit status words.
- JavaScript property lookup through the prototype chain is not modelled, and neither is reading a property of a string or a number. Every property of a non-object, non-array value reads as undefined. Keys such as `__proto__` are ordinary keys.
- String length is in characters, not UTF-16 code units.
- `TreeItem`, `ThemeIcon` and `EventEmitter` are not modelled. An item is its constructor arguments plus the derived icon, description and command, and firing the change event is a counter.
- The `readonly: true` open flag and closing the better-sqlite3 connections themselves are not modelled. A handle is a snapshot of the store.
- Hierarchy.ElementChildren: for the parent id 0, the contract does not state the result outright. `Hierarchy.RootIsSkipped` and `Hierarchy.NoRootNoChildren` state it, and the input that loops forever is excluded by its precondition.
- Catalog.SqliteClient.GetElementsByDptId: its own contract states membership only. The sort order and multiplicity are stated by `Catalog.SqliteClient.ElementsByPosition`.
- Mcp.McpClient.CheckHealth and Mcp.McpClient.DpSet: their own contracts are partial. The lemmas about them state each outcome: `Mcp.HealthyIff`, `Mcp.UnconfiguredDpSet`, `Mcp.FetchThrew`, `Mcp.HttpError`, `Mcp.NoDataLine`, `Mcp.DecodeFailure`, `Mcp.MissingContent`, `Mcp.ToolTextDecodeFailure` and `Mcp.Verdict`.
- The order `ORDER BY canonical_name` sorts in is assumed to be SQLite's default BINARY collation. The store schema that would fix it is not part of this model, and the contracts use only that the order is a total preorder.
- A failing lookup on a closed catalog is not modelled: the lookups require their store's handle. Only the panel's lookups, which are reachable with a half-open catalog, model the TypeError.
