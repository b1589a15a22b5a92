# igris-flow editor core, modelled in Dafny

This project models the core of the igris-flow diagram editor, the `Home` component in `app/page.tsx`. The core has three parts:

- **The geometry kernel.** Anchor points, the side of a box facing a point, anchor resolution between two boxes, shape outlines, resize-edge detection and its cursor, and the orthogonal (elbow) link route with its label point.
- **The scene model.** The ordered node, group and link lists, and what the editor derives from them:
  - lookups by id (the last entry wins, as with a `Map` built from the list);
  - hit testing;
  - the per-anchor fan-out offsets of links;
  - the shared animation cycle;
  - placement of new items;
  - the cascading removals;
  - normalisation of imported links.
- **The interaction controller.** The state `Home` keeps: the three lists, the selection, the selected link, connect mode and its pending source, the lock, the drag, resize and link-draw gesture slots, and the three id counters. Then every handler that changes that state: pointer down, move, up and leave, the connector press, the canvas press, resize start, add and remove of nodes, groups and links, clearing, import, the lock and connect-mode toggles, and the topological auto-layout.

The files and modules are these:

- `optional.dfy` (`Optional`): an option type.
- `geometry.dfy` (`Geometry`): the pure helpers of `app/page.tsx:207-394`. They are functions with contracts and lemmas.
- `scene.dfy` (`Scene`): the derived values and the list updates. The two loops of `linkOffsets` and hit testing are methods; the rest are functions.
- `layout.dfy` (`Layout`): `handleAutoLayout`, a sequence of loops over maps. Each loop is a method with its invariants:
  - registering the keys;
  - adding the arcs;
  - the Kahn-style level pass;
  - filling in missing levels;
  - bucketing the items by level;
  - placing each layer.

  Each method is proved against specification functions. The end-to-end result is `AutoLayout`:
  - every item gets a level; sources are at level 0; an item above level 0 is exactly one above some item with an arc to it; when the link graph has no cycle, every arc climbs at least one level, and these promises then fix every level;
  - every moved item keeps its kind, id and size, and stays on the canvas when it fits there;
  - level-0 items sit at the margin;
  - items of a lower level come before items of a higher level along the layer axis, at least one layer gap apart, or as far as the canvas allows;
  - items of one layer are ordered across it, one item gap apart, or as far as the canvas allows;
  - for an acyclic graph, every arc points forward, or as far as the canvas allows.

  The layer and item gaps are promised only where the clamp into the canvas leaves room for them; the last three points assume nonnegative sizes, and the arrangement assumes distinct item keys.
- `editor.dfy` (`Editor`): each handler twice.
  - A function is the transition of the whole state. Its contract says what the handler promises, and lemmas relate it to its partners.
  - The `Editor` class holds the same state as fields. Its methods carry the transitions out by assignment. For most handlers the contract says the new fields are the transition function of the old ones. The link-drag helpers and the auto-layout state their effect directly: the auto-layout runs the loops of `Layout` and promises what `AutoLayout` promises.

Numbers are Dafny reals, so floating-point rounding is not modelled. String ids stay strings. Composite string keys such as `` `${kind}:${id}` `` become datatype values: the key formats are injective (kind is one of two fixed words), so the two are equivalent.

Where the intended design and the code differ, the model follows the code:

- **Gestures are not exclusive.** Pressing a connector does not end a drag or a resize. Starting a resize does not end a link drag. A release ends only the first gesture of the pointer found, in the order link drag, resize, drag. The model keeps the three slots independent, as the code does.
- **Locking does not end a gesture.** Locking clears connect mode, the pending connection, the link drag and the selected link. It does not clear a running drag or resize. Those gestures simply stop reacting, because the move handler returns early while locked.
- **Counters survive a clear or an import.** Clearing or importing does not reset the id counters. A node added after an import can therefore receive an id that an imported node already has (`custom-N`).

## Model

| member | source | states |
|---|---|---|
| Geometry.Clamp | app/page.tsx:220 | the result is the nearest point of [lo, hi] to the value, and hi when the interval is empty |
| Geometry.ClampIdempotent | app/page.tsx:220 | clamping twice is clamping once |
| Geometry.ClampMonotone | app/page.tsx:220 | clamping keeps the order of two values |
| Geometry.AnchorPoint | app/page.tsx:207-218 | the anchor point lies on the named side of the box, at the middle of that side, and inside the box |
| Geometry.AnchorTowardPoint | app/page.tsx:386-394 | the side facing the point is chosen by the larger axis distance from the centre; ties go to left/right; a zero distance counts as positive (all four cases as if-and-only-if) |
| Geometry.ResolveAnchors | app/page.tsx:369-384 | the target anchor is always the opposite of the source anchor, and the source anchor faces the other box's centre by the same rule |
| Geometry.ResolveAnchorsFaceEachOther | app/page.tsx:369-394 | for distinct centres, each resolved anchor is the side of its own box facing the other box's centre |
| Geometry.ResolveAnchorsMirror | app/page.tsx:369-384 | swapping the two boxes swaps the two anchors |
| Geometry.AnchorTowardAnchorPoint | app/page.tsx:207-218 | the side facing a box's own anchor point is that anchor, so the two helpers invert each other |
| Geometry.ShapePath | app/page.tsx:241-277 | each outline kind has its fixed number of vertices (round kinds have none) |
| Geometry.ShapePathInside | app/page.tsx:241-277 | every vertex of every outline lies within the box |
| Geometry.ShapePathInscribed | app/page.tsx:241-277 | every polygonal outline touches all four sides of its box |
| Geometry.GetResizeEdges | app/page.tsx:279-305 | a point outside the box grabs no edge; an edge is grabbed exactly when the point is within the margin of it and nearer to it than to the opposite edge (ties go to left/top), so opposite edges are never both grabbed |
| Geometry.ResizeCursorForEdges | app/page.tsx:307-323 | the cursor for each combination of edges, each stated as an if-and-only-if |
| Geometry.CornerAndSideCursors | app/page.tsx:279-323 | on a box wider and taller than two margins, the four corners get the diagonal cursors, the side midpoints the straight ones and the centre the default |
| Geometry.ElbowPath | app/page.tsx:325-343 | the route has six points from `from` to `to` with alternating horizontal and vertical segments; the lane is the start shifted by the offset and clamped 12 units inside the canvas; both stubs are min(32, half the distance); the route never turns back along the main axis |
| Geometry.ElbowLabelPoint | app/page.tsx:345-367 | the label sits at the midpoint of the route's lane segment |
| Scene.Filter | app/page.tsx:1102-1108 | `filter` keeps exactly the elements that pass, in their order |
| Scene.FindNode | app/page.tsx:470 | nodeMap lookup: none exactly when no node has the id; otherwise the last node with the id |
| Scene.FindGroup | app/page.tsx:471 | groupMap lookup: none exactly when no group has the id; otherwise the last group with the id |
| Scene.ItemBox | app/page.tsx:588-589 | getItem finds a box exactly when the selected item exists, and the box is the bounds of the node or group the id lookup returns (the last one with that id) |
| Scene.HitTestSelectable | app/page.tsx:572-586 | the hit is a node exactly when some node contains the point, and then it is the last such node; otherwise it is the last group containing the point; none exactly when nothing contains it |
| Scene.NodeCornerRadius | app/page.tsx:221-230 | pill nodes get half their smaller side; rect nodes 4; all other shapes 12 |
| Scene.GroupCornerRadius | app/page.tsx:231-240 | pill groups get half their smaller side; rect groups 8; all other shapes 16 |
| Scene.AddLinkTo | app/page.tsx:1910-1932 | the list is unchanged when a link with the same endpoints (kind, id, anchor at both ends) exists; otherwise the new link with primary tone by default and animation flow is appended; either way such a link exists afterwards |
| Scene.CountPairPositive | app/page.tsx:1911-1919 | the duplicate test succeeds exactly when at least one link has those endpoints |
| Scene.AddLinkIdempotent | app/page.tsx:1910-1932 | adding the same endpoints twice equals adding them once, and afterwards exactly one link has them if none did before |
| Scene.LinksWithout | app/page.tsx:1102-1108 | the cascade keeps exactly the links with no end on the removed item, in order |
| Scene.NodesWithout | app/page.tsx:1102 | keeps exactly the nodes with another id, in order |
| Scene.GroupsWithout | app/page.tsx:1125 | keeps exactly the groups with another id, in order |
| Scene.CascadeCount | app/page.tsx:1102-1108 | the surviving links and the removed links add up to the whole list |
| Scene.GroupByEndpoint | app/page.tsx:517-526 | every link's source endpoint gets a bucket holding the positions of the links from that endpoint, in list order |
| Scene.AssignFan | app/page.tsx:528-534 | every link of the bucket gets the offset (index - (n-1)/2)*16 for its place in the bucket; other ids keep their offsets |
| Scene.LinkOffsets | app/page.tsx:515-536 | there is an offset for exactly the link ids present; with unique ids, each link's offset is its fan offset |
| Scene.FanSpread | app/page.tsx:531 | two links from the same endpoint are spaced 16 per link between them, later links further on |
| Scene.LoneLinkCentred | app/page.tsx:531 | a link alone on its endpoint gets offset 0 |
| Scene.FanOffsetSumClosed | app/page.tsx:531 | closed form of the sum of the first k fan offsets |
| Scene.FanCentred | app/page.tsx:531 | the offsets of a bucket are symmetric about 0, 16 apart, and sum to 0 |
| Scene.MaxOf | app/page.tsx:548 | Math.max of a nonempty list is a member of it and at least every member |
| Scene.SyncDurations | app/page.tsx:538-544 | the durations kept are exactly the positive durations of animated links (with defaults 2.8 for flow and 6.4 for light) |
| Scene.AnimationSyncDuration | app/page.tsx:537-549 | the cycle is the largest positive duration among animated links: it is one of them and at least every one; it is the 2.8 default when no link animates with a positive duration |
| Scene.NewNodePosition | app/page.tsx:1011-1017 | a new node is placed fully inside the canvas with a 24-unit margin |
| Scene.NewGroupPosition | app/page.tsx:1035-1041 | a new group is placed fully inside the canvas with a 24-unit margin |
| Scene.NewNodeSteps | app/page.tsx:1011-1017 | the first 25 nodes step diagonally by (36, 28), so they do not stack |
| Scene.NewGroupSteps | app/page.tsx:1035-1041 | the first 19 groups step diagonally by (40, 30) |
| Scene.NewNodePlacementRepeats | app/page.tsx:1011-1017 | the clamp can put two consecutive new nodes on the same spot: with 113 and with 114 nodes present, both coordinates are clamped to (1426, 836) |
| Scene.Readable | app/page.tsx:1199-1209 | a link array is readable exactly when every entry is a record, and then the records are the entries in order |
| Scene.NormalizeEndpoint | app/page.tsx:1203-1204 | the endpoint keeps id and anchor; the kind defaults to node when absent |
| Scene.NormalizeLink | app/page.tsx:1201-1208 | every field is kept, the endpoints are normalised, and the animation defaults to flow when absent |
| Scene.ImportLinks | app/page.tsx:1199-1210 | the import normalises every record, in order |
| Scene.ExportLinks | app/page.tsx:1228-1250 | the export writes one record per link, every field as is |
| Scene.LinkRoundTrip | app/page.tsx:1199-1210 | import after export gives back every link that has an animation kind, and export-then-import is idempotent on imported links |
| Layout.Items | app/page.tsx:1606-1623 | the layout items are the nodes, then the groups, with their ids and boxes |
| Layout.Arcs | app/page.tsx:1635-1644 | every arc joins two existing items |
| Layout.ArcsOfLinks | app/page.tsx:1635-1644 | a link becomes an arc exactly when both its ends are existing items |
| Layout.CycleNotAcyclic | app/page.tsx:1649-1664 | a pair of opposite arcs (or a self-loop) is a cycle, which the acyclicity condition excludes |
| Layout.RegisterKeys | app/page.tsx:1628-1634 | every item key is registered once, in first-seen order, with an empty successor list and indegree 0 |
| Layout.AddArcs | app/page.tsx:1635-1644 | the successor lists and indegrees are exactly those of the arcs between existing items |
| Layout.ZeroIndegree | app/page.tsx:1646-1648 | the initial queue holds exactly the keys with indegree 0, without repeats |
| Layout.Drained | app/page.tsx:1649-1664 | when the graph has no cycle, the queue loop reaches every key |
| Layout.Relax | app/page.tsx:1654-1663 | each successor's level becomes exactly max(its level, the key's level + 1) and every other level stays; each successor's remaining indegree drops by one and those reaching 0 are queued; every stored level stays exactly one above the level of a finished key with an arc to it |
| Layout.AssignLevels | app/page.tsx:1645-1664 | every key given a level has incoming arcs and level at least 1, and is exactly one above the level of some key with an arc to it; with no cycle, every arc's target ends at least one level above its source |
| Layout.Visit | app/page.tsx:1649-1663 | one turn of the queue loop keeps the loop invariant and finishes one more key |
| Layout.FillLevels | app/page.tsx:1665-1670 | every item gets a level; levels already set are kept; the rest are 0 |
| Layout.Levels | app/page.tsx:1627-1670 | every item's level is at least 0; items without incoming arcs are at 0; an item above 0 is exactly one above some item with an arc to it; with no cycle, every arc climbs at least one level |
| Layout.LevelsUnique | app/page.tsx:1645-1670 | with no cycle, any two level maps keeping the promises of Levels agree on every item, so the promises fix the levels: 0 for a source, otherwise one above the highest predecessor |
| Layout.BucketLayers | app/page.tsx:1671-1680 | each level present gets exactly the items of that level, in list order; every item's level has a bucket |
| Layout.InsertLevel | app/page.tsx:1681 | insertion keeps the levels ascending and adds exactly one copy of the new level |
| Layout.SortLevels | app/page.tsx:1681 | the levels come out ascending and a permutation of the input |
| Layout.InsertItem | app/page.tsx:1690 | insertion keeps a layer ordered by the comparator of the direction and adds exactly one item |
| Layout.SortLayer | app/page.tsx:1690 | a layer comes out ordered (by y then x horizontally, x then y vertically) and a permutation of itself |
| Layout.InsertItemStable | app/page.tsx:1690 | insertion keeps the items tied at any position in their order, with the new item after the ones it ties with |
| Layout.SortLayerStable | app/page.tsx:1690 | the sort is stable: items the comparator ties (same x and y) keep their relative order, as with JavaScript's sort |
| Layout.MaxExtent | app/page.tsx:1691 | the layer's width (or height) is at least every item's |
| Layout.MaxExtentAttained | app/page.tsx:1691 | the layer's width (or height) is some item's |
| Layout.PlaceLayer | app/page.tsx:1688-1700 | one layer is sorted, its items placed along it, and the cursor advances by the largest extent plus the 140 gap |
| Layout.PlaceRow | app/page.tsx:1693-1698 | the items of a layer are placed at the running cursor, which advances by each item's breadth plus the 24 gap |
| Layout.PlaceLayers | app/page.tsx:1686-1716 | the positions are those of the layers in ascending order, each sorted and placed from the 40 margin |
| Layout.LayerStartMin | app/page.tsx:1687 | every layer starts at or after the 40 margin |
| Layout.LayerStartAfter | app/page.tsx:1699 | a later layer starts at least the earlier layer's largest extent plus 140 after it |
| Layout.SlotStartMin | app/page.tsx:1692 | every slot of a layer starts at or after the 40 margin |
| Layout.SlotStartAfter | app/page.tsx:1697 | a later slot starts at least the earlier item's breadth plus 24 after it |
| Layout.InCanvas | app/page.tsx:1694-1695 | every moved item keeps its kind, id and size and stays on the canvas (within [0, canvas - size] whenever it fits) |
| Layout.FirstLayer | app/page.tsx:1687-1694 | items of level 0 sit at the margin along the layer axis (clamped to the canvas) |
| Layout.MainOrder | app/page.tsx:1686-1716 | an item of a lower level lies before one of a higher level along the layer axis, by its extent plus 140, unless the clamp to the canvas edge intervenes |
| Layout.CrossOrder | app/page.tsx:1690-1698 | two items of one layer in comparator order lie one after the other across the layer, by the breadth plus 24, unless the clamp intervenes |
| Layout.ArcsGoForward | app/page.tsx:1602-1728 | with no cycle and nonnegative sizes, every arc's target starts past its source's far edge plus the layer gap along the layer axis, or as far as the canvas allows |
| Layout.MoveAll | app/page.tsx:1717-1728 | every item moves to its computed position, if any, keeping the rest |
| Layout.MovedItems | app/page.tsx:1717-1728 | moving the node and group lists moves their layout items the same way |
| Layout.Arrange | app/page.tsx:1671-1716 | with unique keys, the computed positions arrange the items as stated by InCanvas, FirstLayer, MainOrder and CrossOrder |
| Layout.AutoLayout | app/page.tsx:1606-1728 | only positions change; the levels used keep the promises of Levels, so with no cycle they are the levels LevelsUnique fixes; with unique keys the items are arranged; with unique keys, nonnegative sizes and no cycle every arc points forward, or as far as the canvas allows |
| Editor.Initial | app/page.tsx:442-464 | the first state has empty lists and satisfies the controller invariant |
| Editor.DecimalInjective | app/page.tsx:1008 | different counter values print differently |
| Editor.NamesDistinct | app/page.tsx:1008 | `custom-N` ids are distinct for distinct N, `group-N` ids likewise, and never equal to each other |
| Editor.Lock | app/page.tsx:2051-2062 | locking leaves connect mode and clears the pending connection, the link drag and the selected link, and changes nothing else; unlocking changes only the lock; the invariant is kept |
| Editor.ToggleConnect | app/page.tsx:2073-2083 | ignored while locked; otherwise flips connect mode and clears the pending source, the selected link and the link drag |
| Editor.ToggleLinkSelection | app/page.tsx:2791-2798 | ignored while locked; toggleLinkSelection (1970-1972) selects the link exactly when it was not the selected one, and only the selected link changes |
| Editor.WithLink | app/page.tsx:1898-1933 | ignored while locked; afterwards such a link exists; a duplicate leaves the state unchanged; otherwise the link `custom-N` is appended and the counter advances |
| Editor.WithLinkIdempotent | app/page.tsx:1898-1933 | adding the same link twice equals adding it once |
| Editor.SourceTone | app/page.tsx:1950 | a group source gives the muted tone; a node source gives its tone exactly when the node exists |
| Editor.Connection | app/page.tsx:956-964 | a connection is made exactly when both items exist; its ends are the two items, its anchors are resolveAnchors of the two items' boxes (so the target's is opposite the source's), and its tone is the source's tone |
| Editor.Connect | app/page.tsx:630-636 | missing items change nothing; otherwise the state becomes WithLink of the resolved connection (resolved anchors, source tone), so the link is present afterwards; only the links and the link counter change |
| Editor.ConnectAppends | app/page.tsx:630-636 | when both items exist and no link has the resolved endpoints, exactly one link is appended: id `custom-N` with the counter advanced, anchors from resolveAnchors of the two boxes, the source node's tone (muted for a group) and animation flow |
| Editor.DraftLink | app/page.tsx:1935-1960 | nothing happens while locked, without a selection, with an empty or self target or a missing target; otherwise the state becomes WithLink of the selection, the target and the chosen anchors with the source tone, so the link exists afterwards; only the links and the link counter change |
| Editor.DraftLinkAppends | app/page.tsx:1935-1960 | when no link has those endpoints yet, exactly one link is appended, from the selection to the target with the chosen anchors, with the tone of the selected node (muted for a group, primary when the node is missing) |
| Editor.LinksNotNamed | app/page.tsx:1966 | keeps exactly the links with another id, in order |
| Editor.RemoveLink | app/page.tsx:1962-1968 | ignored while locked; otherwise exactly the links with that id go, and the selected link is cleared only if it was that one |
| Editor.RemoveItem | app/page.tsx:1097-1145 | removing a node or group removes exactly it and the links touching it, keeps the other kind's list, clears the selection and pending source if they were it, clears the selected link and the drag, and changes nothing else |
| Editor.RemoveKeepsAttached | app/page.tsx:1097-1145 | after a cascading removal no link points at a missing item, if none did before |
| Editor.RemoveKeepsOtherKind | app/page.tsx:1103-1108 | removing a node keeps every link not ending on that node, in particular those of a group with the same id, and the other way round |
| Editor.RemoveSelected | app/page.tsx:1083-1095 | ignored while locked or with nothing selected; otherwise removes the selected item and leaves nothing selected |
| Editor.AddNode | app/page.tsx:1004-1026 | ignored while locked; otherwise appends exactly NewNode for the counter and the node count (a 150x40 node `custom-N` inside the canvas margins), selects it, advances the node counter and changes nothing else |
| Editor.AddGroup | app/page.tsx:1028-1047 | ignored while locked; otherwise appends exactly NewGroup for the counter and the group count (a 300x200 group `group-N` inside the canvas margins), selects it, advances the group counter and changes nothing else |
| Editor.NewNode | app/page.tsx:1008-1023 | the new node has id `custom-N`, label `New Node N`, the box at NewNodePosition of the node count with size 150x40, icon spark, an empty icon URL, the secondary tone and no colours or shape |
| Editor.NewGroup | app/page.tsx:1032-1045 | the new group has id `group-N`, label `Group N`, the box at NewGroupPosition of the group count with size 300x200, and no colours or shape |
| Editor.AddNodeSteps | app/page.tsx:1004-1026 | with fewer than 24 nodes, two nodes added in a row are 36 apart in x and 28 in y |
| Editor.AddGroupSteps | app/page.tsx:1028-1047 | with fewer than 18 groups, two groups added in a row are 40 apart in x and 30 in y |
| Editor.AddNodeFreshIds | app/page.tsx:1004-1026 | two added nodes get different ids |
| Editor.Clear | app/page.tsx:1147-1170 | ignored while locked or unconfirmed; otherwise empties the three lists and clears selection, connect mode and every gesture, keeping the counters |
| Editor.Import | app/page.tsx:1195-1219 | for a readable document: the lists as read (empty when missing), links normalised, selection, connect mode and gestures cleared, counters kept, the editor unlocked |
| Editor.ImportAsWritten | app/page.tsx:1189-1223 | as written, an unreadable link entry leaves new nodes and groups with the old links and selection |
| Editor.ImportAsWrittenDangles | app/page.tsx:1197-1203 | an attached scene and an attached document can give a scene with a dangling link |
| Editor.ImportDocument | app/page.tsx:1189-1223 | a locked editor or an unreadable document leaves the state unchanged; otherwise the whole document is imported |
| Editor.ImportKeepsAttached | app/page.tsx:1189-1223 | importing an attached document into an attached scene leaves no dangling link |
| Editor.ResizeStart | app/page.tsx:1049-1081 | ignored while locked or for a non-primary button; otherwise records the press, the box and the edges, selects the item and ends the drag |
| Editor.ConnectSelect | app/page.tsx:615-639 | the first pick sets the pending source, selects it and starts a link drag; picking the source again restarts the drag; another item connects the two, selects the target and clears the pending source |
| Editor.Press | app/page.tsx:641-709 | non-primary buttons are ignored; while locked a press only selects; in connect mode it picks; on an edge it starts a resize; elsewhere it starts a drag holding the press offset; the selected link is cleared |
| Editor.PressStartsGesture | app/page.tsx:641-674 | a primary press inside the box selects the item and starts a resize exactly when an edge is grabbed, and otherwise a drag whose offset lies within the box |
| Editor.ConnectorPress | app/page.tsx:601-613 | ignored while locked or for a non-primary button; otherwise selects the node and starts a link drag |
| Editor.CanvasPress | app/page.tsx:711-727 | a press on the empty canvas clears the selection and the selected link and, unlocked in connect mode, the pending source and the link drag; nothing else changes |
| Editor.Dragged | app/page.tsx:922-923 | the dragged position is the pointer minus the press offset, clamped to keep the box on the canvas |
| Editor.Resized | app/page.tsx:845-869 | a resize changes only the grabbed sides; the right/bottom edge follows the pointer within the minimum size and the canvas; the left/top edge keeps the opposite edge fixed |
| Editor.DragNodes | app/page.tsx:916-930 | only nodes with the dragged id move, to the dragged position |
| Editor.DragGroups | app/page.tsx:931-944 | only groups with the dragged id move, to the dragged position |
| Editor.ResizeNodes | app/page.tsx:839-872 | only nodes with the resized id change, to the resized box with the node minimum 80x28 |
| Editor.ResizeGroups | app/page.tsx:873-905 | only groups with the resized id change, to the resized box with the group minimum 120x120 |
| Editor.Move | app/page.tsx:772-945 | ignored while locked or during a link drag of this pointer; a resize held by this pointer resizes its item's list only, one held by another pointer blocks everything; without a resize, a drag of this pointer moves its item's list only; otherwise nothing changes |
| Editor.DragStaysOnCanvas | app/page.tsx:916-930 | a dragged node stays on the canvas and every other node stays put |
| Editor.Release | app/page.tsx:947-995 | ignored while locked; releasing a link drag over another existing item becomes WithLink of the resolved connection, selects the target, clears the pending source and ends the link drag; otherwise it only ends the link drag; without a link drag of this pointer, a resize of this pointer ends, else a drag of this pointer ends, else nothing changes |
| Editor.Leave | app/page.tsx:997-1002 | leaving the canvas acts as a release |
| Editor.Editor.constructor | app/page.tsx:442-464 | the fields start as the initial state |
| Editor.Editor.SetLocked | app/page.tsx:2046-2062 | the fields become Lock of the old state |
| Editor.Editor.ToggleConnectMode | app/page.tsx:2070-2083 | the fields become ToggleConnect of the old state |
| Editor.Editor.SelectLink | app/page.tsx:1970-1972 | the fields become ToggleLinkSelection of the old state |
| Editor.Editor.AddLink | app/page.tsx:1898-1933 | the fields become WithLink of the old state |
| Editor.Editor.HandleAddLink | app/page.tsx:1935-1960 | the fields become DraftLink of the old state |
| Editor.Editor.HandleRemoveLink | app/page.tsx:1962-1968 | the fields become RemoveLink of the old state |
| Editor.Editor.RemoveNodeById | app/page.tsx:1097-1119 | the fields become RemoveItem of the old state for the node |
| Editor.Editor.RemoveGroupById | app/page.tsx:1121-1145 | the fields become RemoveItem of the old state for the group |
| Editor.Editor.HandleRemoveSelected | app/page.tsx:1083-1095 | the fields become RemoveSelected of the old state |
| Editor.Editor.HandleAddNode | app/page.tsx:1004-1026 | the fields become AddNode of the old state |
| Editor.Editor.HandleAddGroup | app/page.tsx:1028-1047 | the fields become AddGroup of the old state |
| Editor.Editor.HandleClearCanvas | app/page.tsx:1147-1170 | the fields become Clear of the old state |
| Editor.Editor.ImportGraph | app/page.tsx:1179-1226 | the fields become ImportDocument of the old state |
| Editor.Editor.HandleResizeStart | app/page.tsx:1049-1081 | the fields become ResizeStart of the old state |
| Editor.Editor.StartLinkDrag | app/page.tsx:591-599 | unless locked, a link drag from the item starts and nothing else changes |
| Editor.Editor.HandleConnectSelection | app/page.tsx:615-639 | the fields become ConnectSelect of the old state |
| Editor.Editor.PressItem | app/page.tsx:641-709 | the fields become Press of the old state |
| Editor.Editor.HandlePointerDown | app/page.tsx:641-674 | the fields become Press of the old state for the node |
| Editor.Editor.HandleGroupPointerDown | app/page.tsx:676-709 | the fields become Press of the old state for the group |
| Editor.Editor.HandleConnectorPointerDown | app/page.tsx:601-613 | the fields become ConnectorPress of the old state |
| Editor.Editor.HandleCanvasPointerDown | app/page.tsx:711-727 | the fields become CanvasPress of the old state |
| Editor.Editor.HandlePointerMove | app/page.tsx:772-945 | the fields become Move of the old state |
| Editor.Editor.FinishLinkDrag | app/page.tsx:951-973 | the link drag ends, connecting to the topmost item under the pointer when that is another existing item |
| Editor.Editor.ConnectAndSelect | app/page.tsx:958-964 | the two items are connected, the target selected and the pending source cleared |
| Editor.Editor.HandlePointerUp | app/page.tsx:947-995 | the fields become Release of the old state |
| Editor.Editor.HandlePointerLeave | app/page.tsx:997-1002 | the fields become Leave of the old state |
| Editor.Editor.HandleAutoLayout | app/page.tsx:1602-1728 | ignored while locked; otherwise only positions change, and, when the keys are distinct, the new nodes and groups are arranged (as Arranged states, gaps as far as the canvas allows) under levels keeping the promises of Levels, which with no cycle are the levels LevelsUnique fixes |

## Findings

| source | as written | input that shows it | evidently intended | confidence | as-written member | corrected member |
|---|---|---|---|---|---|---|
| app/page.tsx:1197-1203 | `setNodes` and `setGroups` run before the links are normalised. A null link entry, or one whose `from` (or `to`) is missing or null, makes `link.from.kind` throw. The catch only alerts, so the queued node and group updates still apply, while the links, selection and gestures stay as they were. | A scene with nodes `a`, `b` and a link between them; import `{"nodes": [], "links": [{}]}`. The link stays, but both of its nodes are gone. | An invalid file is reported and the scene is left unmodified (the `catch` alerts "Invalid JSON file."). | high; not executed | Editor.ImportAsWritten | Editor.ImportDocument |

`Editor.ImportAsWrittenDangles` exhibits the input above. `Editor.ImportKeepsAttached` proves that the corrected import never leaves a dangling link. The `Editor` class's `ImportGraph` uses the corrected import.

## Left out

- Rendering, and the state only rendering reads, are left out. This covers the hover cursor logic of the move handler (787-830), `hoverCursor`, `hoveredGroupId`, `draggingId`, `linkPreview` and `linkHoverTarget`. None of it feeds back into the modelled state.
- `toSvgPoint` and pointer capture are browser calls. Every pointer position arrives already in canvas coordinates, as a parameter.
- `window.confirm` in the clear handler becomes the `confirmed` parameter.
- Editor.ImportDocument: the lock check made when the file is chosen and the import applied when the read finishes are one step here. The asynchronous read in between is not modelled: in the code, locking the editor during that window does not stop the import, which then goes ahead and leaves the editor locked, so the model's promise that an import ends unlocked does not cover that interleaving.
- The file input and the `FileReader` are I/O. `JSON.parse` becomes the parsed lists passed to `ImportGraph`. A parse failure or a non-object root never reaches it, so the scene stays unchanged in those cases, as in the code.
- Object URLs of icon images are not modelled. Revoking them in remove, clear and import is resource handling outside the scene.
- The exports (JSON, SVG, PNG, animated sequences) and the other side-panel handlers (label, icon, colour and style edits, applying a link style to all) are outside the modelled core. Only the link part of the JSON export is kept, as the partner of import normalisation.
- The animation progress on screen uses a wall clock. Only the shared cycle length is modelled.
- Geometry.ShapePath: the outline is its vertex list, not the SVG path string. Rounded corners and ellipses are drawn by the renderer and have no vertices here.
- Geometry.ElbowPath: the route is its list of corner points, not the SVG path string.
- Layout.AutoLayout: when two items share a key (two nodes with one id), the layout positions come from a `Map` keyed by that key, and the arrangement is only proved under unique keys. The levels are proved for every input.
- Layout.Levels: with a cycle in the link graph, the promises do not fix the levels. For arcs a→b, b→a and c→a, the pass gives c 0, a 1 and leaves b at 0, while b at 2 also keeps every promise. With no cycle, LevelsUnique shows the levels are fixed.
- HandleAutoLayout: the same holds for the levels it arranges by: with a cycle in the link graph, they are not pinned to the ones the pass computes.
- Scene.LinkOffsets: with duplicate link ids, the later link's offset overwrites the earlier one's. The per-link offsets are stated only for unique ids.
- Editor.Editor.FinishLinkDrag: the pointer capture release and the preview clearing of the pointer-up handler are left out, as above.
- Integer ids and counters are unbounded. JavaScript numbers stop counting exactly past 2^53, which no session reaches.
