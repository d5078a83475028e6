# mermaid-visual-editor: the editor store and the Mermaid serializer

This project models two parts of mermaid-visual-editor, a browser editor for
Mermaid flowcharts, and proves properties of the model.

**The editor store** (`lib/store.ts`) holds:
- the live graph: nodes and edges;
- four diagram settings: direction, theme, look and curve style;
- two snapshot stacks, `past` and `future`, each holding at most 50 entries;
- the counter that node ids are minted from.

Every graph edit first saves the live graph as a snapshot and then replaces
the node or edge sequence. `undo` and `redo` move the live graph along the
stacks. `duplicateSelected` copies the selected nodes and the edges between
them, and remaps the copied edges' ends to the new ids.

**The serializer** (`lib/serializer.ts`) turns nodes, edges and options into
flowchart text. It emits, in this order: an optional init directive, the
header, one declaration per node, a style line per coloured node, one line
per edge, and a `linkStyle` line per stroked edge. Edges are addressed by
their position in the sequence.

Layout of the Dafny project:
- `graph.dfy` (module `Graph`): the shared entities as datatypes. This covers nodes, edges, their data records, the 14 shapes, edge styles, arrow types and the four settings with their Mermaid names.
- `decimal.dfy` (module `Decimal`): how a counter or an index is written in decimal inside a template string.
- `history.dfy` (module `History`): the timeline functions that specify the store's history actions, with lemmas about undo, redo and the 50-entry bound.
- `serializer.dfy` (module `Serializer`): the helpers as functions, and the line order as a sequence of `Line` values.
  - `Serialization` is the specification function.
  - `Serialize` builds the text with loops, as the source does, and is proved equal to `Serialization`.
- `store.dfy` (module `Store`): the store as the class `FlowStore`. Its fields are overwritten by its methods, and each method is specified by a pure function on the old state, e.g. `History.Commit` of the edited graph.

A mutation's whole new state is stated through `Timeline()`: the live graph together with the two stacks. The immediate-undo property then comes from `History.UndoAfterCommit`. The store's invariant `Valid()` bounds each stack by 50 and the two stacks together by 50 (`History.Linear`). Every action keeps it, so on every store state redo undoes undo and undo undoes redo exactly (`History.RedoAfterUndo`, `History.UndoAfterRedo`).

## Model

| member | source | states |
|---|---|---|
| `Decimal.NatToString` | lib/store.ts:205 | the decimal form of a counter value is non-empty, all digits, and has no leading zero |
| `Decimal.DigitsValueOfNatToString` | lib/store.ts:205 | reading the decimal digits back gives the number |
| `Decimal.NatToStringInjective` | lib/store.ts:205 | different numbers have different decimal forms |
| `History.Newest` | lib/store.ts:157 | `slice(-k)`: the last `k` entries in order, or all of them when there are fewer |
| `History.PushBounded` | lib/store.ts:157 | pushing onto `past` leaves between 1 and 50 entries, with the pushed snapshot last |
| `History.Checkpoint` | lib/store.ts:151-158 | pushHistory keeps the live graph, empties `future`, and leaves both stacks within 50 |
| `History.CheckpointKeepsNewest` | lib/store.ts:157 | after pushHistory, `past` is exactly the last 50 entries of the sequence old `past` followed by the live graph; its length grows by one, up to 50 |
| `History.Commit` | lib/store.ts:193 | a mutation installs the new graph, empties `future`, and keeps both stacks within 50 |
| `History.Oldest` | lib/store.ts:169 | `slice(0, k)`: the first `k` entries in order, or all of them when there are fewer |
| `History.Undo` | lib/store.ts:160-171 | undo on an empty `past` changes nothing; undo keeps both stacks within 50, and keeps the two stacks together within 50 |
| `History.Redo` | lib/store.ts:173-184 | redo on an empty `future` changes nothing; redo keeps both stacks within 50, and keeps the two stacks together within 50 |
| `History.UndoAfterCommit` | lib/store.ts:160-171 | an undo right after a mutation restores the exact prior graph, keeps the newest 49 older entries, and leaves the mutated graph as the only redo entry |
| `History.RedoAfterUndo` | lib/store.ts:173-184 | redo after undo restores the whole timeline, `future` included, whenever the two stacks together hold at most 50 entries, which every store state does |
| `History.RedoAfterUndoRestoresGraph` | lib/store.ts:173-184 | on any bounded timeline, redo after undo restores the live graph and `past` |
| `History.UndoAfterRedo` | lib/store.ts:160-171 | undo after redo restores the whole timeline whenever the two stacks together hold at most 50 entries, which every store state does |
| `History.UndoAfterRedoRestoresGraph` | lib/store.ts:160-171 | on any bounded timeline, undo after redo restores the live graph and `future` |
| `History.RedoAfterCommitIsNoOp` | lib/store.ts:157 | after a mutation there is nothing to redo |
| `History.CommitAll` | lib/store.ts:157 | after a non-empty run of mutations, the last graph is live and `future` is empty |
| `History.CommitAllKeepsNewest` | lib/store.ts:75 | after any run of mutations, `past` holds exactly the 50 most recently saved graphs (all of them if fewer), oldest first |
| `Serializer.SanitizeId` | lib/serializer.ts:16-18 | same length; each character is kept when in `[A-Za-z0-9_]` and becomes `_` otherwise; the result lies in that alphabet |
| `Serializer.SanitizeIdKeepsCleanIds` | lib/serializer.ts:16-18 | an id already within the alphabet comes back unchanged |
| `Serializer.SanitizeIdIdempotent` | lib/serializer.ts:16-18 | sanitising twice is sanitising once |
| `Serializer.SanitizeIdExample` | lib/serializer.ts:17 | `a b/c` becomes `a_b_c` |
| `Serializer.EscapeLabel` | lib/serializer.ts:20-22 | same length; every `"` becomes `'` and every other character is kept; the result has no `"` |
| `Serializer.Trim` | lib/serializer.ts:152 | `trim()` gives a result no longer than the label that neither starts nor ends with white space |
| `Serializer.TrimPiece` | lib/serializer.ts:152 | `trim()` keeps one contiguous piece of the label, starting where the leading white space ends, and everything cut before or after it is white space |
| `Serializer.Join` | lib/serializer.ts:139 | `join` starts with the first part and ends with the last; the body, the parts with the separator between each two, is the definition |
| `Serializer.TrimStart` | lib/serializer.ts:152 | the leading-trimmed string is empty exactly when every character is JavaScript white space, and otherwise starts with a non-white character |
| `Serializer.TrimEnd` | lib/serializer.ts:152 | the trailing-trimmed string is empty exactly when every character is white space |
| `Serializer.TrimEmptyIffBlank` | lib/serializer.ts:152 | `trim()` gives the empty string exactly for blank labels |
| `Serializer.Brackets` | lib/serializer.ts:28-59 | every shape's opening bracket has 1 to 3 characters, its closing bracket is as long, and neither holds a `"` |
| `Serializer.ShapeWrap` | lib/serializer.ts:25-60 | a declaration starts with the sanitised id, and is as long as the id, both brackets, the quoted label and its two quotes |
| `Serializer.BracketsDistinct` | lib/serializer.ts:28-59 | each of the 14 shapes has its own bracket pair; every opening bracket is non-empty, starts outside the id alphabet and holds no `"` |
| `Serializer.DecodeShapeWrap` | lib/serializer.ts:25-60 | a declaration reads back as the sanitised id, the shape and the escaped label |
| `Serializer.ShapeWrapInjective` | lib/serializer.ts:25-60 | two equal declarations have the same sanitised id, the same shape and the same escaped label |
| `Serializer.ShapeWrapExamples` | lib/serializer.ts:37-42 | circle writes `A(("X"))` and diamond writes `A{"X"}` |
| `Serializer.EdgeConnector` | lib/serializer.ts:63-88 | every connector has 3 to 5 characters; the body is the table itself, and the lemmas below state what it distinguishes |
| `Serializer.EdgeConnectorIdentifies` | lib/serializer.ts:63-88 | two connectors are equal if and only if style and arrow type are equal, except that thick writes arrow, circle and cross alike |
| `Serializer.EdgeConnectorHeadAtStart` | lib/serializer.ts:63-88 | a connector starts with `<` if and only if the arrow type is bidirectional |
| `Serializer.EdgeConnectorHeadAtEnd` | lib/serializer.ts:63-88 | a connector ends with `>` if and only if the arrow type is not none, and is arrow or bidirectional unless the style is thick |
| `Serializer.EdgeConnectorExamples` | lib/serializer.ts:67-75 | dashed bidirectional is `<-.->` and thick with no arrow is `===` |
| `Serializer.DirectiveEntries` | lib/serializer.ts:113-116 | one entry per setting that differs from its default; the theme comes first, the look next, and the curve last |
| `Serializer.InitDirective` | lib/serializer.ts:113-120 | there is a directive if and only if theme, look or curve differs from its default |
| `Serializer.NodeLine` | lib/serializer.ts:129 | a node line is two spaces, then the sanitised id, then more |
| `Serializer.NodeLineDecodes` | lib/serializer.ts:126-130 | a node line is two spaces and a declaration that reads back as the sanitised id, the node's shape (rectangle by default) and its escaped label, with the id replacing an empty label |
| `Serializer.StyleParts` | lib/serializer.ts:134-137 | one part per non-empty colour; `fill` comes first when set, `stroke` next when set, and `color` last when set |
| `Serializer.EdgeLineForm` | lib/serializer.ts:144-157 | an edge line, `EdgeLine`, shows the label if and only if it is a string with a non-white-space character; it starts with two spaces, the sanitised source, a space and the connector of its style and arrow type, solid and arrow by default; it ends with `\|"`, the escaped label, `"\| ` and the sanitised target when the label is shown, and with a space and the sanitised target otherwise |
| `Serializer.NodeLines` | lib/serializer.ts:126-130 | one declaration per node, in input order |
| `Serializer.StyledNodes` | lib/serializer.ts:133-141 | the styled nodes are no more than the nodes |
| `Serializer.StyledNodesAppend` | lib/serializer.ts:133-141 | the styled nodes of two runs of nodes one after the other are those of the first run followed by those of the second |
| `Serializer.StyledNodesExactly` | lib/serializer.ts:133-141 | a node gets a style line if and only if it is one of the nodes and has a non-empty colour |
| `Serializer.StyledNodesMembers` | lib/serializer.ts:138 | every styled node is a node of the input with a non-empty colour |
| `Serializer.StyledNodesAll` | lib/serializer.ts:138 | when every node has a colour, every node gets a style line, in order |
| `Serializer.StyledNodesNone` | lib/serializer.ts:138 | when no node has a colour, there are no style lines |
| `Serializer.StyleLine` | lib/serializer.ts:139 | a style line is `  style `, the sanitised id, and ends with the comma-joined style parts, with exactly one character between the two |
| `Serializer.StyleLines` | lib/serializer.ts:133-141 | one style line per styled node, in order |
| `Serializer.EdgeLines` | lib/serializer.ts:144-157 | one line per edge, in input order |
| `Serializer.StrokedIndices` | lib/serializer.ts:160-162 | each listed position is an edge with a non-empty stroke colour |
| `Serializer.StrokedIndicesSpec` | lib/serializer.ts:160-165 | the listed positions strictly increase, and every stroked edge's position is listed |
| `Serializer.LinkStyleLine` | lib/serializer.ts:163 | a linkStyle line is `  linkStyle `, then decimal digits that read back as the edge's position, then ` stroke:` and the colour |
| `Serializer.LinkStyleLines` | lib/serializer.ts:159-165 | the `k`th linkStyle line addresses the `k`th stroked position, with that edge's colour |
| `Serializer.DirectivePresence` | lib/serializer.ts:118-120 | at most one directive line; it is there if and only if there is a directive, and it is that directive |
| `Serializer.DiagramLayout` | lib/serializer.ts:110-167 | after the optional directive come the header, the declarations of all nodes, the style lines, all edge lines and the linkStyle lines, at the given offsets |
| `Serializer.PushNodeLines` | lib/serializer.ts:126-130 | the declaration loop appends exactly the rendered declarations of the nodes |
| `Serializer.CollectStyleParts` | lib/serializer.ts:134-137 | the parts collected one channel at a time are the style parts |
| `Serializer.PushStyleLine` | lib/serializer.ts:138-140 | one pass appends a style line exactly when the node has a colour |
| `Serializer.PushStyleLines` | lib/serializer.ts:133-141 | the style loop appends exactly the rendered style lines |
| `Serializer.PushEdgeLines` | lib/serializer.ts:144-157 | the edge loop appends exactly the rendered edge lines |
| `Serializer.PushLinkStyleLines` | lib/serializer.ts:160-165 | the linkStyle loop appends exactly the rendered linkStyle lines |
| `Serializer.Serialization` | lib/serializer.ts:99-168 | with no nodes the text is the placeholder; otherwise it starts with the first line of the diagram |
| `Serializer.Serialize` | lib/serializer.ts:99-168 | serialize returns `Serialization`: the lines of `DiagramLines` joined with newlines; with no nodes it returns exactly the placeholder text, whatever the edges and options |
| `Store.ComputeMarkers` | lib/store.ts:126-138 | a start marker if and only if bidirectional; an end marker if and only if not none |
| `Store.MarkersAgreeWithConnector` | lib/store.ts:126-138 | the canvas start marker appears if and only if the text connector opens with `<`; the end marker appears if and only if the connector does not end in a bare `-` or `=` |
| `Store.ApplyMarkers` | lib/store.ts:267 | spreading a marker update sets the markers it writes and keeps the rest of the edge |
| `Store.NodeIdDigits` | lib/store.ts:205 | a minted id is `node_` followed by decimal digits that read back as the counter value |
| `Store.NodeIdInjective` | lib/store.ts:205 | different counter values mint different node ids |
| `Store.AddNodeOffset` | lib/store.ts:206 | the diagonal offset is between 0 and 199 and a multiple of 10 |
| `Store.AddNodePosition` | lib/store.ts:206-210 | addNode's position is on the diagonal: x between 150 and 349, y = x − 50 |
| `Store.NewNode` | lib/store.ts:207-212 | the new node has the minted id, the flow-node tag, the position, label `Node`, the given shape or rectangle, no colours, and is not selected |
| `Store.Merge` | lib/store.ts:250 | spreading one key: the old value when the key is absent, the supplied value otherwise |
| `Store.RelabelNodes` | lib/store.ts:228-235 | same length and order; only nodes with the id get the new label; nothing else changes |
| `Store.ReshapeNodes` | lib/store.ts:237-244 | same length and order; only nodes with the id get the new shape; nothing else changes |
| `Store.Restyle` | lib/store.ts:250 | each supplied colour key replaces the old value, each absent one keeps it, and the rest of the node data is unchanged |
| `Store.RestyleNodes` | lib/store.ts:246-253 | same length and order; other nodes are untouched; a matching node takes the supplied colour keys and keeps the absent ones and all its other fields |
| `Store.RestyleNothing` | lib/store.ts:250 | an empty style update leaves every node as it was |
| `Store.RelabelEdges` | lib/store.ts:255-258 | same length and order; only edges with the id get the new label; nothing else changes |
| `Store.PatchMarkers` | lib/store.ts:262-263 | the update sets a start marker if and only if the supplied arrow type is bidirectional, and an end marker if and only if one is supplied and it is not none; without an arrow type it sets neither |
| `Store.Retype` | lib/store.ts:267 | supplied data keys replace the old ones and absent ones are kept; a marker is on afterwards if and only if it was on before or the supplied arrow type sets it; nothing else of the edge changes |
| `Store.RetypeEdges` | lib/store.ts:260-271 | other edges are untouched; a matching edge merges the data keys, and its markers change only when an arrow type is supplied, and then only by adding that type's markers |
| `Store.RetypeKeepsMarkers` | lib/store.ts:263-267 | retyping an edge that has both markers keeps both, whatever the new arrow type |
| `Store.ConnectedEdge` | lib/store.ts:194-197 | the connected edge is solid, has an arrowhead and an end marker, takes the given ends, and has no label |
| `Store.StampNodes` | lib/store.ts:280 | every node gets the flow-node tag, and nothing else changes |
| `Store.StampEdges` | lib/store.ts:281 | every edge gets the flow-edge tag, and nothing else changes |
| `Store.Selected` | lib/store.ts:292 | the filtered nodes are all selected |
| `Store.SelectedAppend` | lib/store.ts:292 | the selection of two runs of nodes one after the other is the selection of the first followed by that of the second |
| `Store.SelectedExactly` | lib/store.ts:292 | a node is in the selection if and only if it is one of the nodes and is selected |
| `Store.SelectedEmpty` | lib/store.ts:292-293 | the selection is empty if and only if no node is selected |
| `Store.Deselected` | lib/store.ts:316 | every node is deselected, and nothing else changes |
| `Store.Clone` | lib/store.ts:299-304 | a copy takes the new id, the position offset by (+30, +30) and is selected; every other field is the original's |
| `Store.Clones` | lib/store.ts:296-305 | the `k`th copy has the id minted from `start + k`, the position offset by (+30, +30), is selected, and keeps every other field |
| `Store.ClonesDistinct` | lib/store.ts:297 | the copies carry pairwise distinct ids |
| `Store.IdMapOf` | lib/store.ts:295-298 | the id map has no more entries than there are selected nodes |
| `Store.IdMapKeys` | lib/store.ts:298 | the id map's keys are exactly the selected ids |
| `Store.IdMapValues` | lib/store.ts:298 | every value of the id map is an id minted during the call |
| `Store.IdMapLast` | lib/store.ts:298 | a selected id that no later selected node repeats maps to its own copy's id |
| `Store.InternalEdges` | lib/store.ts:308 | the kept edges have both ends selected |
| `Store.InternalEdgesAppend` | lib/store.ts:307-308 | the kept edges of two runs of edges one after the other are those of the first followed by those of the second |
| `Store.InternalEdgesExactly` | lib/store.ts:307-308 | an edge is copied if and only if it is one of the edges and both its ends are selected |
| `Store.InternalEdgesComplete` | lib/store.ts:308 | every edge with both ends selected is kept |
| `Store.CopiedEdges` | lib/store.ts:309-314 | the `k`th copy takes the `k`th fresh id and the remapped ends, and keeps every other field |
| `Store.DuplicatedNodes` | lib/store.ts:316 | the old nodes are deselected in place, followed by one copy per selected node, in order |
| `Store.CopiedEdgeEnds` | lib/store.ts:312-313 | both ends of every copied edge are ids of the new copies |
| `Store.MappedToClone` | lib/store.ts:312 | looking up a selected id gives the id of one of the copies |
| `Store.DuplicatedEdges` | lib/store.ts:307-317 | the old edges stay as a prefix; after them come exactly the copies of the internal edges, remapped through the id map whose keys are the selected ids, and their ends are ids of the new copies |
| `Store.Duplicated` | lib/store.ts:315-318 | the duplicated graph has one more node per selected node and one more edge per edge between selected nodes |
| `Store.FlowStore.constructor` | lib/store.ts:141-149 | an empty graph, the default settings and empty stacks; the counter starts at 1, as the module-level variable of lib/store.ts:76 does |
| `Store.FlowStore.PushHistory` | lib/store.ts:151-158 | the new timeline is `Checkpoint` of the old one; the settings, the graph and the counter are untouched |
| `Store.FlowStore.Undo` | lib/store.ts:160-171 | the new timeline is `Undo` of the old one; nothing else changes |
| `Store.FlowStore.Redo` | lib/store.ts:173-184 | the new timeline is `Redo` of the old one; nothing else changes |
| `Store.FlowStore.OnConnect` | lib/store.ts:192-201 | the graph is saved, then the connected edge is appended; the nodes are unchanged |
| `Store.FlowStore.AddNode` | lib/store.ts:203-214 | the graph is saved, the counter advances by one, and exactly one new node is appended at addNode's position; the edges are unchanged |
| `Store.FlowStore.AddNodeAtPosition` | lib/store.ts:216-226 | the same as AddNode, at the given position |
| `Store.FlowStore.UpdateNodeLabel` | lib/store.ts:228-235 | the graph is saved, then the nodes are relabelled; the edges are unchanged |
| `Store.FlowStore.UpdateNodeShape` | lib/store.ts:237-244 | the graph is saved, then the nodes are reshaped; the edges are unchanged |
| `Store.FlowStore.UpdateNodeStyle` | lib/store.ts:246-253 | the graph is saved, then the nodes are restyled; the edges are unchanged |
| `Store.FlowStore.UpdateEdgeLabel` | lib/store.ts:255-258 | the graph is saved, then the edges are relabelled; the nodes are unchanged |
| `Store.FlowStore.UpdateEdgeType` | lib/store.ts:260-271 | the graph is saved, then the edges are retyped; the nodes are unchanged |
| `Store.FlowStore.SetNodes` | lib/store.ts:273-276 | the graph is saved, then the nodes are replaced |
| `Store.FlowStore.LoadDiagram` | lib/store.ts:278-283 | the graph is saved, then replaced by the stamped nodes and edges |
| `Store.FlowStore.SetDirection` | lib/store.ts:285 | only the direction changes |
| `Store.FlowStore.SetTheme` | lib/store.ts:286 | only the theme changes |
| `Store.FlowStore.SetLook` | lib/store.ts:287 | only the look changes |
| `Store.FlowStore.SetCurveStyle` | lib/store.ts:288 | only the curve style changes |
| `Store.FlowStore.MintClones` | lib/store.ts:295-305 | the minting loop advances the counter once per selected node, builds the id map, and returns the copies |
| `Store.FlowStore.DuplicateSelected` | lib/store.ts:290-319 | with nothing selected, nothing changes and nothing is saved; otherwise the graph is saved, the counter advances by the selection size, and the live graph becomes `Duplicated` of the old one |

## Left out

- `onNodesChange` and `onEdgesChange` (lib/store.ts:186-190) are not modelled. They hand the change lists to `applyNodeChanges`/`applyEdgeChanges` of the xyflow library, whose code is not part of this model.
- `onConnect` appends the edge directly. xyflow's `addEdge` is not part of this model: it may drop duplicate connections, and it makes up the edge id. The edge id is therefore a parameter.
- `duplicateSelected` edge ids come from `Date.now()` and `Math.random()`. They are modelled as a supply of fresh ids (`freshEdgeId: nat -> string`) indexed by the copy's position. Their format, and whether they are unique, are not modelled.
- The connection's `sourceHandle`/`targetHandle` fields and any other extra keys of nodes, edges or updates are not represented. Spreading them would carry them over unchanged.
- Marker objects are booleans: only `MarkerType.ArrowClosed` is ever written, so a marker is either there or not.
- `computeMarkers` output is spread over the edge. When an arrow type writes fewer markers than the edge already has (`none`, or bidirectional turned into arrow), the stale markers stay. The model does this as written; see `Store.RetypeKeepsMarkers`.
- The `updateEdgeType` marker update for a key that is present but explicitly `undefined` is modelled as no marker change, the same as an absent key, because the source tests `arrowType !== undefined`.
- `nodeCounter` is a module-level variable in the source (lib/store.ts:76), initialised once and never reset when a store is created. Here it is a field of the store that the constructor sets to 1; this is the same for the single store the editor creates. It is never checked against the ids of loaded diagrams, so after `loadDiagram` a minted id may collide with a loaded one; the model states only that minted ids are distinct from each other (`Store.NodeIdInjective`, `Store.ClonesDistinct`).
- `nodeCounter` and the `linkStyle` index are JavaScript numbers: `nodeCounter++` stops increasing at 2^53, and from 1e21 on `${n}` writes exponent form. The model uses unbounded naturals written in plain decimal, so `Store.NodeIdInjective` and `Store.ClonesDistinct` hold only below 2^53 in the source.
- A node without `data` is not represented: `Node` always has a data record. A loaded file is checked only for its top-level `nodes` and `edges` keys (lib/fileio.ts:47), so the source's `serialize` can throw on such a node (lib/serializer.ts:127), while `Serializer.Serialize` is total.
- Node positions are integers. The source's floating-point numbers are not modelled, and neither are positions set by dragging.
- The deep copy in `pushHistory` is the identity: values cannot alias in the model. Whether the saved snapshot would be isolated against in-place changes by the UI is not represented.
- An edge's missing `data` (`e.data ?? {}`) is modelled as a data record whose fields are all absent.
- Non-string labels (`typeof edge.label !== 'string'`) are modelled as an absent label. Values outside the enumerations (an unknown shape, style or arrow type cast in from JSON) cannot be represented; the source's `default` branches treat them as rectangle, solid and arrow.
- Strings are sequences of Unicode scalar values, while JavaScript strings are UTF-16 code units. Characters outside the Basic Multilingual Plane are one character here and two there; that only matters for `sanitizeId`, which would write two `_`.
- The init directive is written out as the string `JSON.stringify` produces for these fixed keys and enumeration values. General JSON encoding is not modelled.
- `lib/layout.ts`, `lib/fileio.ts` and the React components are not part of this model: they are an external layout library, browser file I/O and UI.
- The zustand `create`/`set`/`get` mechanism and subscriber notification are not modelled. Each action is a method that overwrites the store's fields.
- `Serialize` runs the source's four loops in four helper methods (`PushNodeLines`, `PushStyleLines`, `PushEdgeLines`, `PushLinkStyleLines`). Its `%%{ init }%%` branch and its header are written in the method itself.
