/** The editor controller: the state the Home component keeps (the three
    lists, the selection, connect mode, the lock, the three gesture slots
    and the id counters) and the handlers that change it. Each handler is
    specified as a transition of the whole state; the Editor class carries
    the transitions out on its fields. Pointer positions arrive already in
    canvas coordinates. */
module Editor {
  import opened Optional
  import opened Geometry
  import opened Scene
  import Layout

  // ------------------------------------------------------------------ state

  /** dragRef: the item being moved and where on it the press landed. */
  datatype DragGesture = DragGesture(kind: Kind, id: string, offsetX: real, offsetY: real, pointerId: int)

  /** resizeRef: the press point, the box as it was when the resize began
      and the edges grabbed. */
  datatype ResizeGesture = ResizeGesture(
    kind: Kind, id: string,
    startX: real, startY: real,
    startItemX: real, startItemY: real, startW: real, startH: real,
    edges: Edges, pointerId: int)

  /** linkDragRef: a link being drawn out of an item. */
  datatype LinkGesture = LinkGesture(from: Selectable, pointerId: int)

  /** A pointer event with its position in canvas coordinates. */
  datatype PointerEvent = PointerEvent(pointerId: int, button: int, point: Point)

  /** The link form of the side panel: the target and both anchors. */
  datatype LinkDraft = LinkDraft(toId: string, toKind: Kind, fromAnchor: Anchor, toAnchor: Anchor)

  /** The endpoints and tone of a link about to be added. */
  datatype Wire = Wire(from: Endpoint, to: Endpoint, tone: Option<Tone>)

  datatype EditorState = EditorState(
    nodes: seq<Node>, groups: seq<Group>, links: seq<Link>,
    selected: Option<Selectable>, selectedLinkId: Option<string>,
    connectMode: bool, connectFrom: Option<Selectable>, isLocked: bool,
    drag: Option<DragGesture>, resize: Option<ResizeGesture>, linkDrag: Option<LinkGesture>,
    nodeCounter: nat, groupCounter: nat, linkCounter: nat)

  /** What every handler keeps: a locked editor is out of connect mode and
      draws no link; a pending connection exists only in connect mode; the
      counters start at 1. */
  predicate Inv(s: EditorState) {
    && (s.isLocked ==> !s.connectMode && s.connectFrom.None? && s.linkDrag.None?)
    && (s.connectFrom.Some? ==> s.connectMode)
    && s.nodeCounter >= 1 && s.groupCounter >= 1 && s.linkCounter >= 1
  }

  /** The state on first render: empty lists and every counter at 1. */
  function Initial(): (s: EditorState)
    ensures Inv(s) && s.nodes == [] && s.groups == [] && s.links == []
  {
    EditorState([], [], [], None, None, false, None, false, None, None, None, 1, 1, 1)
  }

  // ------------------------------------------------------------------- ids

  function Digit(d: nat): char
    requires d < 10
  {
    ('0' as int + d) as char
  }

  /** The decimal numeral of n, as a template string writes it. */
  function Decimal(n: nat): (s: string)
    ensures |s| > 0 && (n < 10 <==> |s| == 1)
    decreases n
  {
    if n < 10 then [Digit(n)] else Decimal(n / 10) + [Digit(n % 10)]
  }

  /** Distinct numbers have distinct numerals. */
  lemma {:induction false} DecimalInjective(a: nat, b: nat)
    requires Decimal(a) == Decimal(b)
    ensures a == b
    decreases a
  {
    if a >= 10 {
      var s := Decimal(a);
      assert s == Decimal(a / 10) + [Digit(a % 10)];
      assert s == Decimal(b / 10) + [Digit(b % 10)];
      assert s[..|s| - 1] == Decimal(a / 10) && s[..|s| - 1] == Decimal(b / 10);
      DecimalInjective(a / 10, b / 10);
    }
  }

  /** `custom-${n}`: the id of the n-th added node, and of the n-th added link. */
  function CustomName(n: nat): string {
    "custom-" + Decimal(n)
  }

  /** `group-${n}`: the id of the n-th added group. */
  function GroupName(n: nat): string {
    "group-" + Decimal(n)
  }

  /** Different counter values give different ids, and a node or link id
      is never a group id. */
  lemma {:induction false} NamesDistinct(a: nat, b: nat)
    ensures CustomName(a) == CustomName(b) ==> a == b
    ensures GroupName(a) == GroupName(b) ==> a == b
    ensures CustomName(a) != GroupName(b)
  {
    if CustomName(a) == CustomName(b) {
      assert Decimal(a) == CustomName(a)[7..] && Decimal(b) == CustomName(b)[7..];
      DecimalInjective(a, b);
    }
    if GroupName(a) == GroupName(b) {
      assert Decimal(a) == GroupName(a)[6..] && Decimal(b) == GroupName(b)[6..];
      DecimalInjective(a, b);
    }
    assert CustomName(a)[0] != GroupName(b)[0];
  }

  // -------------------------------------------------------------- the lock

  /** The lock toggle: locking also leaves connect mode, drops a pending
      connection, the link selection and a link being drawn. */
  function Lock(s: EditorState, next: bool): (r: EditorState)
    ensures Inv(s) ==> Inv(r)
    ensures r.isLocked == next
    ensures next ==> !r.connectMode && r.connectFrom.None? && r.linkDrag.None? && r.selectedLinkId.None?
    ensures !next ==> r == s.(isLocked := false)
    ensures r == s.(isLocked := next, connectMode := r.connectMode, connectFrom := r.connectFrom,
                    linkDrag := r.linkDrag, selectedLinkId := r.selectedLinkId)
  {
    if next then
      s.(isLocked := true, connectMode := false, connectFrom := None, selectedLinkId := None, linkDrag := None)
    else
      s.(isLocked := false)
  }

  /** The connect-mode button: flips the mode and starts over. */
  function ToggleConnect(s: EditorState): (r: EditorState)
    ensures Inv(s) ==> Inv(r)
    ensures s.isLocked ==> r == s
    ensures !s.isLocked ==>
      r == s.(connectMode := !s.connectMode, connectFrom := None, selectedLinkId := None, linkDrag := None)
  {
    if s.isLocked then s
    else s.(connectMode := !s.connectMode, connectFrom := None, selectedLinkId := None, linkDrag := None)
  }

  /** A press on a link: selects it, or unselects it when it is the
      selected one. */
  function ToggleLinkSelection(s: EditorState, linkId: string): (r: EditorState)
    ensures Inv(s) ==> Inv(r)
    ensures s.isLocked ==> r == s
    ensures !s.isLocked ==> r == s.(selectedLinkId := r.selectedLinkId)
    ensures !s.isLocked ==> (r.selectedLinkId == Some(linkId) <==> s.selectedLinkId != Some(linkId))
    ensures !s.isLocked && s.selectedLinkId == Some(linkId) ==> r.selectedLinkId.None?
  {
    if s.isLocked then s
    else s.(selectedLinkId := if s.selectedLinkId == Some(linkId) then None else Some(linkId))
  }

  // ----------------------------------------------------------------- links

  /** addLink: the link list of addLink with the next counter id; the
      counter advances only when a link is appended. */
  function WithLink(s: EditorState, from: Endpoint, to: Endpoint, tone: Option<Tone>): (r: EditorState)
    ensures Inv(s) ==> Inv(r)
    ensures s.isLocked ==> r == s
    ensures r == s.(links := r.links, linkCounter := r.linkCounter)
    ensures !s.isLocked ==> LinkExists(r.links, from, to)
    ensures !s.isLocked && LinkExists(s.links, from, to) ==> r == s
    ensures !s.isLocked && !LinkExists(s.links, from, to) ==>
      && r.links == s.links + [NewLink(CustomName(s.linkCounter), from, to, tone)]
      && r.linkCounter == s.linkCounter + 1
  {
    if s.isLocked then s
    else
      s.(links := AddLinkTo(s.links, CustomName(s.linkCounter), from, to, tone),
         linkCounter := if LinkExists(s.links, from, to) then s.linkCounter else s.linkCounter + 1)
  }

  /** Adding the same endpoints twice is adding them once. */
  lemma {:induction false} WithLinkIdempotent(s: EditorState, from: Endpoint, to: Endpoint, tone1: Option<Tone>, tone2: Option<Tone>)
    ensures WithLink(WithLink(s, from, to, tone1), from, to, tone2) == WithLink(s, from, to, tone1)
  {
  }

  /** The tone a new link takes from its source: a node's own tone (none,
      so the default, when no node has the id), muted for a group. */
  function SourceTone(nodes: seq<Node>, from: Selectable): (t: Option<Tone>)
    ensures from.kind == GroupKind ==> t == Some(Muted)
    ensures from.kind == NodeKind ==>
      (t.Some? <==> exists n :: n in nodes && n.id == from.id)
  {
    if from.kind == NodeKind then
      match FindNode(nodes, from.id)
      case Some(n) => Some(n.tone)
      case None => None
    else Some(Muted)
  }

  /** The link a drawn connection adds between two existing items: the
      anchors of resolveAnchors and the tone of the source. */
  function Connection(nodes: seq<Node>, groups: seq<Group>, from: Selectable, to: Selectable): (r: Option<Wire>)
    ensures r.Some? <==> Exists(nodes, groups, from) && Exists(nodes, groups, to)
    ensures r.Some? ==>
      && r.value.from.Target() == from && r.value.to.Target() == to
      && AnchorPair(r.value.from.anchor, r.value.to.anchor)
           == ResolveAnchors(ItemBox(nodes, groups, from).value, ItemBox(nodes, groups, to).value)
      && r.value.to.anchor == Opposite(r.value.from.anchor)
      && r.value.tone == SourceTone(nodes, from)
    ensures r.Some? && from.kind == NodeKind ==> r.value.tone.Some?
  {
    match (ItemBox(nodes, groups, from), ItemBox(nodes, groups, to))
    case (Some(a), Some(b)) =>
      var anchors := ResolveAnchors(a, b);
      Some(Wire(Endpoint(from.kind, from.id, anchors.from), Endpoint(to.kind, to.id, anchors.to),
                SourceTone(nodes, from)))
    case _ => None
  }

  /** Adds the connection between two items, when both exist. */
  function Connect(s: EditorState, from: Selectable, to: Selectable): (r: EditorState)
    ensures Inv(s) ==> Inv(r)
    ensures r == s.(links := r.links, linkCounter := r.linkCounter)
    ensures Connection(s.nodes, s.groups, from, to).None? ==> r == s
    ensures Connection(s.nodes, s.groups, from, to).Some? ==>
      var w := Connection(s.nodes, s.groups, from, to).value;
      r == WithLink(s, w.from, w.to, w.tone)
    ensures !s.isLocked && Connection(s.nodes, s.groups, from, to).Some? ==>
      LinkExists(r.links, Connection(s.nodes, s.groups, from, to).value.from,
                 Connection(s.nodes, s.groups, from, to).value.to)
  {
    match Connection(s.nodes, s.groups, from, to)
    case Some(w) => WithLink(s, w.from, w.to, w.tone)
    case None => s
  }

  /** handleAddLink: a link from the selected item to the form's target,
      with the form's anchors, when something is selected and the target
      is a different existing item. */
  function DraftLink(s: EditorState, draft: LinkDraft): (r: EditorState)
    ensures Inv(s) ==> Inv(r)
    ensures r == s.(links := r.links, linkCounter := r.linkCounter)
    ensures (s.isLocked || s.selected.None? || draft.toId == ""
            || Selectable(draft.toKind, draft.toId) == s.selected.value
            || !Exists(s.nodes, s.groups, Selectable(draft.toKind, draft.toId))) ==> r == s
    ensures !s.isLocked && s.selected.Some? && draft.toId != ""
            && Selectable(draft.toKind, draft.toId) != s.selected.value
            && Exists(s.nodes, s.groups, Selectable(draft.toKind, draft.toId)) ==>
      && r == WithLink(s, Endpoint(s.selected.value.kind, s.selected.value.id, draft.fromAnchor),
                       Endpoint(draft.toKind, draft.toId, draft.toAnchor), SourceTone(s.nodes, s.selected.value))
      && LinkExists(r.links, Endpoint(s.selected.value.kind, s.selected.value.id, draft.fromAnchor),
                    Endpoint(draft.toKind, draft.toId, draft.toAnchor))
  {
    if s.isLocked || s.selected.None? then s
    else
      var sel := s.selected.value;
      if draft.toId == "" || (draft.toKind == sel.kind && draft.toId == sel.id) then s
      else if !Exists(s.nodes, s.groups, Selectable(draft.toKind, draft.toId)) then s
      else
        WithLink(s, Endpoint(sel.kind, sel.id, draft.fromAnchor), Endpoint(draft.toKind, draft.toId, draft.toAnchor),
                 SourceTone(s.nodes, sel))
  }

  /** A new connection between two existing items is appended with the
      next `custom-N` id, the anchors resolveAnchors picks for the two
      boxes, the tone of the source (its node's own tone, muted for a
      group) and the flow animation. */
  lemma {:induction false} ConnectAppends(s: EditorState, from: Selectable, to: Selectable, a: Box, b: Box)
    requires !s.isLocked
    requires ItemBox(s.nodes, s.groups, from) == Some(a) && ItemBox(s.nodes, s.groups, to) == Some(b)
    requires !LinkExists(s.links, Endpoint(from.kind, from.id, ResolveAnchors(a, b).from),
                         Endpoint(to.kind, to.id, ResolveAnchors(a, b).to))
    ensures var r := Connect(s, from, to);
      && |r.links| == |s.links| + 1 && r.links[..|s.links|] == s.links
      && r.links[|s.links|].id == CustomName(s.linkCounter) && r.linkCounter == s.linkCounter + 1
      && r.links[|s.links|].from == Endpoint(from.kind, from.id, ResolveAnchors(a, b).from)
      && r.links[|s.links|].to == Endpoint(to.kind, to.id, ResolveAnchors(a, b).to)
      && (from.kind == NodeKind ==> r.links[|s.links|].tone == Some(FindNode(s.nodes, from.id).value.tone))
      && (from.kind == GroupKind ==> r.links[|s.links|].tone == Some(Muted))
      && r.links[|s.links|].animation == Some(Flow)
  {
    var w := Connection(s.nodes, s.groups, from, to).value;
    assert w.from == Endpoint(from.kind, from.id, ResolveAnchors(a, b).from);
    assert w.to == Endpoint(to.kind, to.id, ResolveAnchors(a, b).to);
  }

  /** handleAddLink appends the form's link with the tone of the selected
      node (primary when no node has its id) or muted for a group. */
  lemma {:induction false} DraftLinkAppends(s: EditorState, draft: LinkDraft)
    requires !s.isLocked && s.selected.Some? && draft.toId != ""
    requires Selectable(draft.toKind, draft.toId) != s.selected.value
    requires Exists(s.nodes, s.groups, Selectable(draft.toKind, draft.toId))
    requires !LinkExists(s.links, Endpoint(s.selected.value.kind, s.selected.value.id, draft.fromAnchor),
                         Endpoint(draft.toKind, draft.toId, draft.toAnchor))
    ensures var r := DraftLink(s, draft); var sel := s.selected.value;
      && |r.links| == |s.links| + 1 && r.links[..|s.links|] == s.links
      && r.links[|s.links|].from == Endpoint(sel.kind, sel.id, draft.fromAnchor)
      && r.links[|s.links|].to == Endpoint(draft.toKind, draft.toId, draft.toAnchor)
      && r.links[|s.links|].tone ==
           Some(if sel.kind == GroupKind then Muted
                else if FindNode(s.nodes, sel.id).Some? then FindNode(s.nodes, sel.id).value.tone
                else Primary)
  {
  }

  /** The links without the one with this id. */
  function LinksNotNamed(links: seq<Link>, linkId: string): (r: seq<Link>)
    ensures forall l :: l in r <==> l in links && l.id != linkId
    ensures SubsequenceOf(r, links)
  {
    Filter(links, (l: Link) => l.id != linkId)
  }

  /** handleRemoveLink: drops the links with the id, and the link
      selection when it named them. */
  function RemoveLink(s: EditorState, linkId: string): (r: EditorState)
    ensures Inv(s) ==> Inv(r)
    ensures s.isLocked ==> r == s
    ensures !s.isLocked ==>
      && r == s.(links := r.links, selectedLinkId := r.selectedLinkId)
      && (forall l :: l in r.links <==> l in s.links && l.id != linkId)
      && SubsequenceOf(r.links, s.links)
      && r.selectedLinkId != Some(linkId)
      && (s.selectedLinkId != Some(linkId) ==> r.selectedLinkId == s.selectedLinkId)
  {
    if s.isLocked then s
    else
      s.(links := LinksNotNamed(s.links, linkId),
         selectedLinkId := if s.selectedLinkId == Some(linkId) then None else s.selectedLinkId)
  }

  // ----------------------------------------------------- removing and adding

  /** removeNodeById / removeGroupById: the item goes, with every link
      touching it; a pending connection from it and its selection go too,
      and so do the link selection and a drag. */
  function RemoveItem(s: EditorState, item: Selectable): (r: EditorState)
    ensures Inv(s) ==> Inv(r)
    ensures s.isLocked ==> r == s
    ensures !s.isLocked ==>
      && (item.kind == NodeKind ==>
            (forall n :: n in r.nodes <==> n in s.nodes && n.id != item.id)
            && SubsequenceOf(r.nodes, s.nodes) && r.groups == s.groups)
      && (item.kind == GroupKind ==>
            (forall g :: g in r.groups <==> g in s.groups && g.id != item.id)
            && SubsequenceOf(r.groups, s.groups) && r.nodes == s.nodes)
      && (forall l :: l in r.links <==> l in s.links && !Touches(l, item.kind, item.id))
      && SubsequenceOf(r.links, s.links)
      && r.selected == (if s.selected == Some(item) then None else s.selected)
      && r.connectFrom == (if s.connectFrom == Some(item) then None else s.connectFrom)
      && r.selectedLinkId.None? && r.drag.None?
      && r == s.(nodes := r.nodes, groups := r.groups, links := r.links, selected := r.selected,
                 connectFrom := r.connectFrom, selectedLinkId := None, drag := None)
  {
    if s.isLocked then s
    else
      s.(nodes := if item.kind == NodeKind then NodesWithout(s.nodes, item.id) else s.nodes,
         groups := if item.kind == GroupKind then GroupsWithout(s.groups, item.id) else s.groups,
         links := LinksWithout(s.links, item.kind, item.id),
         connectFrom := if s.connectFrom == Some(item) then None else s.connectFrom,
         selected := if s.selected == Some(item) then None else s.selected,
         selectedLinkId := None,
         drag := None)
  }

  /** Removing a node keeps the links of a group with the same id, and
      the other way round. */
  lemma {:induction false} RemoveKeepsOtherKind(s: EditorState, item: Selectable, l: Link)
    requires !s.isLocked && l in s.links
    requires !Touches(l, item.kind, item.id)
    ensures l in RemoveItem(s, item).links
  {
  }

  /** The cascade leaves no link behind on the removed item: a scene whose
      links all end on existing items stays so. */
  lemma {:induction false} RemoveKeepsAttached(s: EditorState, item: Selectable)
    requires Attached(s.nodes, s.groups, s.links)
    ensures var r := RemoveItem(s, item); Attached(r.nodes, r.groups, r.links)
  {
    var r := RemoveItem(s, item);
    forall l | l in r.links
      ensures Exists(r.nodes, r.groups, l.from.Target()) && Exists(r.nodes, r.groups, l.to.Target())
    {
      if !s.isLocked {
        assert l in s.links && !Touches(l, item.kind, item.id);
        Survives(s, item, l.from.Target());
        Survives(s, item, l.to.Target());
      }
    }
  }

  /** An existing item other than the removed one is still there. */
  lemma {:induction false} Survives(s: EditorState, item: Selectable, t: Selectable)
    requires !s.isLocked && Exists(s.nodes, s.groups, t) && t != item
    ensures var r := RemoveItem(s, item); Exists(r.nodes, r.groups, t)
  {
    var r := RemoveItem(s, item);
    if t.kind == NodeKind {
      var n :| n in s.nodes && n.id == t.id;
      assert item.kind == NodeKind ==> n in r.nodes;
    } else {
      var g :| g in s.groups && g.id == t.id;
      assert item.kind == GroupKind ==> g in r.groups;
    }
  }

  /** handleRemoveSelected. */
  function RemoveSelected(s: EditorState): (r: EditorState)
    ensures Inv(s) ==> Inv(r)
    ensures s.isLocked || s.selected.None? ==> r == s
    ensures !s.isLocked && s.selected.Some? ==> r == RemoveItem(s, s.selected.value) && r.selected.None?
  {
    if s.isLocked || s.selected.None? then s else RemoveItem(s, s.selected.value)
  }

  /** The node handleAddNode appends when `count` nodes exist and the
      counter stands at n: id `custom-n`, caption "New Node n", a 150x40
      box at the placement for `count`, the spark icon with an empty icon
      URL, the secondary tone and no colours or shape of its own. */
  function NewNode(n: nat, count: nat): (node: Node)
    ensures node.id == CustomName(n) && node.caption == "New Node " + Decimal(n)
    ensures node.Bounds() == Box(NewNodePosition(count).x, NewNodePosition(count).y, NewNodeW, NewNodeH)
    ensures node.icon == "spark" && node.iconUrl == Some("") && node.tone == Secondary
    ensures node.fillColor.None? && node.strokeColor.None? && node.shape.None?
  {
    var p := NewNodePosition(count);
    Node(CustomName(n), "New Node " + Decimal(n), p.x, p.y, NewNodeW, NewNodeH,
         "spark", Some(""), None, None, Secondary, None)
  }

  /** The group handleAddGroup appends: id `group-n`, caption "Group n", a
      300x200 box at the placement for `count`, nothing else set. */
  function NewGroup(n: nat, count: nat): (group: Group)
    ensures group.id == GroupName(n) && group.caption == "Group " + Decimal(n)
    ensures group.Bounds() == Box(NewGroupPosition(count).x, NewGroupPosition(count).y, NewGroupW, NewGroupH)
    ensures group.fillColor.None? && group.strokeColor.None? && group.shape.None?
  {
    var p := NewGroupPosition(count);
    Group(GroupName(n), "Group " + Decimal(n), p.x, p.y, NewGroupW, NewGroupH, None, None, None)
  }

  /** handleAddNode: appends a node with the next id, placed inside the
      canvas margins, and selects it. */
  function AddNode(s: EditorState): (r: EditorState)
    ensures Inv(s) ==> Inv(r)
    ensures s.isLocked ==> r == s
    ensures !s.isLocked ==>
      && |r.nodes| == |s.nodes| + 1 && r.nodes[..|s.nodes|] == s.nodes
      && r.nodes[|s.nodes|] == NewNode(s.nodeCounter, |s.nodes|)
      && r.nodes[|s.nodes|].id == CustomName(s.nodeCounter)
      && r.nodes[|s.nodes|].w == NewNodeW && r.nodes[|s.nodes|].h == NewNodeH
      && PlacementMargin <= r.nodes[|s.nodes|].x && r.nodes[|s.nodes|].x + NewNodeW <= CanvasWidth - PlacementMargin
      && PlacementMargin <= r.nodes[|s.nodes|].y && r.nodes[|s.nodes|].y + NewNodeH <= CanvasHeight - PlacementMargin
      && r.selected == Some(Selectable(NodeKind, CustomName(s.nodeCounter)))
      && r.nodeCounter == s.nodeCounter + 1
      && r == s.(nodes := r.nodes, selected := r.selected, nodeCounter := r.nodeCounter)
  {
    if s.isLocked then s
    else
      var node := NewNode(s.nodeCounter, |s.nodes|);
      s.(nodes := s.nodes + [node], selected := Some(Selectable(NodeKind, node.id)), nodeCounter := s.nodeCounter + 1)
  }

  /** handleAddGroup: the same for groups. */
  function AddGroup(s: EditorState): (r: EditorState)
    ensures Inv(s) ==> Inv(r)
    ensures s.isLocked ==> r == s
    ensures !s.isLocked ==>
      && |r.groups| == |s.groups| + 1 && r.groups[..|s.groups|] == s.groups
      && r.groups[|s.groups|] == NewGroup(s.groupCounter, |s.groups|)
      && r.groups[|s.groups|].id == GroupName(s.groupCounter)
      && r.groups[|s.groups|].w == NewGroupW && r.groups[|s.groups|].h == NewGroupH
      && PlacementMargin <= r.groups[|s.groups|].x && r.groups[|s.groups|].x + NewGroupW <= CanvasWidth - PlacementMargin
      && PlacementMargin <= r.groups[|s.groups|].y && r.groups[|s.groups|].y + NewGroupH <= CanvasHeight - PlacementMargin
      && r.selected == Some(Selectable(GroupKind, GroupName(s.groupCounter)))
      && r.groupCounter == s.groupCounter + 1
      && r == s.(groups := r.groups, selected := r.selected, groupCounter := r.groupCounter)
  {
    if s.isLocked then s
    else
      var group := NewGroup(s.groupCounter, |s.groups|);
      s.(groups := s.groups + [group], selected := Some(Selectable(GroupKind, group.id)),
         groupCounter := s.groupCounter + 1)
  }

  /** Two unlocked additions give the two nodes different ids. */
  lemma {:induction false} AddNodeFreshIds(s: EditorState)
    requires !s.isLocked
    ensures |AddNode(AddNode(s)).nodes| == |s.nodes| + 2
    ensures AddNode(AddNode(s)).nodes[|s.nodes|].id != AddNode(AddNode(s)).nodes[|s.nodes| + 1].id
  {
    var s1 := AddNode(s);
    assert AddNode(s1).nodes[..|s1.nodes|] == s1.nodes;
    NamesDistinct(s.nodeCounter, s.nodeCounter + 1);
  }

  /** While fewer than 24 nodes exist, the next added node lands one step
      of (36, 28) down and right of the one added before it. */
  lemma {:induction false} AddNodeSteps(s: EditorState)
    requires !s.isLocked && |s.nodes| < 24
    ensures var r := AddNode(AddNode(s));
      && |r.nodes| == |s.nodes| + 2
      && r.nodes[|s.nodes| + 1].x == r.nodes[|s.nodes|].x + 36.0
      && r.nodes[|s.nodes| + 1].y == r.nodes[|s.nodes|].y + 28.0
  {
    var s1 := AddNode(s);
    assert AddNode(s1).nodes[..|s1.nodes|] == s1.nodes;
    NewNodeSteps(|s.nodes|);
  }

  /** While fewer than 18 groups exist, the next added group lands one
      step of (40, 30) down and right of the one added before it. */
  lemma {:induction false} AddGroupSteps(s: EditorState)
    requires !s.isLocked && |s.groups| < 18
    ensures var r := AddGroup(AddGroup(s));
      && |r.groups| == |s.groups| + 2
      && r.groups[|s.groups| + 1].x == r.groups[|s.groups|].x + 40.0
      && r.groups[|s.groups| + 1].y == r.groups[|s.groups|].y + 30.0
  {
    var s1 := AddGroup(s);
    assert AddGroup(s1).groups[..|s1.groups|] == s1.groups;
    NewGroupSteps(|s.groups|);
  }

  /** handleClearCanvas once the user has answered the confirmation. */
  function Clear(s: EditorState, confirmed: bool): (r: EditorState)
    ensures Inv(s) ==> Inv(r)
    ensures s.isLocked || !confirmed ==> r == s
    ensures !s.isLocked && confirmed ==>
      && r.nodes == [] && r.groups == [] && r.links == []
      && r.selected.None? && r.selectedLinkId.None? && r.connectFrom.None? && !r.connectMode
      && r.drag.None? && r.resize.None? && r.linkDrag.None?
      && r.nodeCounter == s.nodeCounter && r.groupCounter == s.groupCounter && r.linkCounter == s.linkCounter
      && !r.isLocked
  {
    if s.isLocked || !confirmed then s
    else
      s.(nodes := [], groups := [], links := [], selected := None, connectFrom := None, connectMode := false,
         selectedLinkId := None, drag := None, resize := None, linkDrag := None)
  }

  /** handleImportFile once the document is parsed: the node and group
      lists as read (empty when missing), the links normalised, and the
      selection, connection and gestures reset. */
  function Import(s: EditorState, nodes: Option<seq<Node>>, groups: Option<seq<Group>>,
                  records: Option<seq<LinkRecord>>): (r: EditorState)
    ensures Inv(s) ==> Inv(r)
    ensures s.isLocked ==> r == s
    ensures !s.isLocked ==>
      && r.nodes == nodes.GetOr([]) && r.groups == groups.GetOr([])
      && r.links == ImportLinks(records.GetOr([]))
      && (forall l :: l in r.links ==> l.animation.Some?)
      && r.selected.None? && r.selectedLinkId.None? && r.connectFrom.None? && !r.connectMode
      && r.drag.None? && r.resize.None? && r.linkDrag.None?
      && r.nodeCounter == s.nodeCounter && r.groupCounter == s.groupCounter && r.linkCounter == s.linkCounter
      && !r.isLocked
  {
    if s.isLocked then s
    else
      s.(nodes := nodes.GetOr([]), groups := groups.GetOr([]), links := ImportLinks(records.GetOr([])),
         selected := None, selectedLinkId := None, connectFrom := None, connectMode := false,
         drag := None, resize := None, linkDrag := None)
  }

  /** handleImportFile as written, for a parsed document whose link array
      may hold an unreadable entry: the node and group lists are set before
      the links are normalised, so when normalising fails the handler's
      catch reports the error with the new nodes and groups already set and
      the old links, selection and gestures kept. */
  function ImportAsWritten(s: EditorState, nodes: Option<seq<Node>>, groups: Option<seq<Group>>,
                           entries: Option<seq<LinkEntry>>): (r: EditorState)
    ensures s.isLocked ==> r == s
    ensures !s.isLocked && Readable(entries.GetOr([])).Some? ==>
      r == Import(s, nodes, groups, Readable(entries.GetOr([])))
    ensures !s.isLocked && Readable(entries.GetOr([])).None? ==>
      r == s.(nodes := nodes.GetOr([]), groups := groups.GetOr([]))
  {
    if s.isLocked then s
    else
      match Readable(entries.GetOr([]))
      case Some(records) => Import(s, nodes, groups, Some(records))
      case None => s.(nodes := nodes.GetOr([]), groups := groups.GetOr([]))
  }

  /** The document's own links all end on its own nodes and groups (an
      unreadable document is rejected whole, so its links need nothing). */
  predicate DocumentAttached(nodes: Option<seq<Node>>, groups: Option<seq<Group>>, entries: Option<seq<LinkEntry>>) {
    match Readable(entries.GetOr([]))
    case Some(records) => Attached(nodes.GetOr([]), groups.GetOr([]), ImportLinks(records))
    case None => true
  }

  /** Two nodes joined by a link; a document with no nodes whose one link
      entry has no endpoints. */
  function TwoNodeScene(): EditorState {
    Initial().(nodes := [Node("a", "A", 0.0, 0.0, NewNodeW, NewNodeH, "spark", None, None, None, Secondary, None),
                         Node("b", "B", 300.0, 0.0, NewNodeW, NewNodeH, "spark", None, None, None, Secondary, None)],
               links := [Link("custom-1", Endpoint(NodeKind, "a", Right), Endpoint(NodeKind, "b", Left),
                              Some(Primary), None, None, Some(Flow), None, None)])
  }

  /** The as-written import of a document with an unreadable link entry
      neither leaves the scene alone nor replaces it: the old link is kept
      while both of its nodes are gone. */
  lemma {:induction false} ImportAsWrittenDangles()
    ensures var s := TwoNodeScene();
      && Attached(s.nodes, s.groups, s.links)
      && DocumentAttached(Some([]), None, Some([Unreadable]))
      && var r := ImportAsWritten(s, Some([]), None, Some([Unreadable]));
      && r != s && r.links == s.links
      && !Attached(r.nodes, r.groups, r.links)
  {
    var s := TwoNodeScene();
    assert Readable([Unreadable]).None?;
    assert Exists(s.nodes, s.groups, Selectable(NodeKind, "a")) by { assert s.nodes[0] in s.nodes; }
    assert Exists(s.nodes, s.groups, Selectable(NodeKind, "b")) by { assert s.nodes[1] in s.nodes; }
  }

  /** handleImportFile with a failed normalisation treated like any other
      invalid document: the scene is left as it was, and otherwise it is
      replaced whole. */
  function ImportDocument(s: EditorState, nodes: Option<seq<Node>>, groups: Option<seq<Group>>,
                          entries: Option<seq<LinkEntry>>): (r: EditorState)
    ensures Inv(s) ==> Inv(r)
    ensures s.isLocked || Readable(entries.GetOr([])).None? ==> r == s
    ensures !s.isLocked && Readable(entries.GetOr([])).Some? ==>
      r == Import(s, nodes, groups, Readable(entries.GetOr([])))
  {
    if s.isLocked then s
    else
      match Readable(entries.GetOr([]))
      case Some(records) => Import(s, nodes, groups, Some(records))
      case None => s
  }

  /** Importing never leaves a dangling link: when the scene and the
      document each have their links attached, so does the result. */
  lemma {:induction false} ImportKeepsAttached(s: EditorState, nodes: Option<seq<Node>>, groups: Option<seq<Group>>,
                                               entries: Option<seq<LinkEntry>>)
    requires Attached(s.nodes, s.groups, s.links) && DocumentAttached(nodes, groups, entries)
    ensures var r := ImportDocument(s, nodes, groups, entries); Attached(r.nodes, r.groups, r.links)
  {
  }

  // -------------------------------------------------------------- pressing

  /** handleResizeStart: records the press and the item's box, selects the
      item and ends a drag. */
  function ResizeStart(s: EditorState, ev: PointerEvent, item: Selectable, b: Box, edges: Edges): (r: EditorState)
    ensures Inv(s) ==> Inv(r)
    ensures s.isLocked || ev.button != 0 ==> r == s
    ensures !s.isLocked && ev.button == 0 ==>
      && r.resize == Some(ResizeGesture(item.kind, item.id, ev.point.x, ev.point.y, b.x, b.y, b.w, b.h, edges, ev.pointerId))
      && r.selected == Some(item) && r.drag.None?
      && r == s.(resize := r.resize, selected := r.selected, drag := None)
  {
    if s.isLocked || ev.button != 0 then s
    else
      s.(resize := Some(ResizeGesture(item.kind, item.id, ev.point.x, ev.point.y, b.x, b.y, b.w, b.h, edges, ev.pointerId)),
         selected := Some(item), drag := None)
  }

  /** handleConnectSelection: the first pick starts a connection from the
      item; picking the same item again only draws; picking another item
      links the two (when both exist), selects it and ends the
      connection. */
  function ConnectSelect(s: EditorState, item: Selectable, pointerId: int): (r: EditorState)
    ensures Inv(s) && s.connectMode ==> Inv(r)
    ensures s.isLocked ==> r == s
    ensures !s.isLocked && s.connectFrom.None? ==>
      r == s.(connectFrom := Some(item), selected := Some(item), linkDrag := Some(LinkGesture(item, pointerId)))
    ensures !s.isLocked && s.connectFrom == Some(item) ==> r == s.(linkDrag := Some(LinkGesture(item, pointerId)))
    ensures !s.isLocked && s.connectFrom.Some? && s.connectFrom.value != item ==>
      && r.selected == Some(item) && r.connectFrom.None?
      && r == Connect(s, s.connectFrom.value, item).(selected := Some(item), connectFrom := None)
  {
    if s.isLocked then s
    else if s.connectFrom.None? then
      s.(connectFrom := Some(item), selected := Some(item), linkDrag := Some(LinkGesture(item, pointerId)))
    else if s.connectFrom.value == item then
      s.(linkDrag := Some(LinkGesture(item, pointerId)))
    else
      Connect(s, s.connectFrom.value, item).(selected := Some(item), connectFrom := None)
  }

  /** handlePointerDown / handleGroupPointerDown: a primary press on an
      item clears the link selection; when locked it only selects; in
      connect mode it picks; on an edge it starts a resize; on the body it
      starts a drag that remembers the press offset. */
  function Press(s: EditorState, ev: PointerEvent, item: Selectable, b: Box): (r: EditorState)
    ensures Inv(s) ==> Inv(r)
    ensures ev.button != 0 ==> r == s
    ensures ev.button == 0 && s.isLocked ==> r == s.(selected := Some(item), selectedLinkId := None)
    ensures ev.button == 0 && !s.isLocked && s.connectMode ==>
      r == ConnectSelect(s.(selectedLinkId := None), item, ev.pointerId)
    ensures ev.button == 0 && !s.isLocked && !s.connectMode && GetResizeEdges(b, ev.point, ResizeMargin).Any() ==>
      r == ResizeStart(s.(selectedLinkId := None), ev, item, b, GetResizeEdges(b, ev.point, ResizeMargin))
    ensures ev.button == 0 && !s.isLocked && !s.connectMode && !GetResizeEdges(b, ev.point, ResizeMargin).Any() ==>
      r == s.(selectedLinkId := None, selected := Some(item),
              drag := Some(DragGesture(item.kind, item.id, ev.point.x - b.x, ev.point.y - b.y, ev.pointerId)))
  {
    if ev.button != 0 then s
    else
      var s1 := s.(selectedLinkId := None);
      if s.isLocked then s1.(selected := Some(item))
      else if s.connectMode then ConnectSelect(s1, item, ev.pointerId)
      else
        var edges := GetResizeEdges(b, ev.point, ResizeMargin);
        if edges.Any() then ResizeStart(s1, ev, item, b, edges)
        else
          s1.(drag := Some(DragGesture(item.kind, item.id, ev.point.x - b.x, ev.point.y - b.y, ev.pointerId)),
              selected := Some(item))
  }

  /** A press on an edge of an unlocked item outside connect mode starts
      a resize with those edges; a press inside away from the edges starts
      a drag; either way the item is selected. */
  lemma {:induction false} PressStartsGesture(s: EditorState, ev: PointerEvent, item: Selectable, b: Box)
    requires ev.button == 0 && !s.isLocked && !s.connectMode
    requires Contains(b, ev.point)
    ensures var r := Press(s, ev, item, b);
      && r.selected == Some(item)
      && (GetResizeEdges(b, ev.point, ResizeMargin).Any() ==>
            r.resize.Some? && r.resize.value.edges == GetResizeEdges(b, ev.point, ResizeMargin) && r.drag.None?)
      && (!GetResizeEdges(b, ev.point, ResizeMargin).Any() ==>
            r.drag.Some? && r.drag.value.offsetX == ev.point.x - b.x && r.drag.value.offsetY == ev.point.y - b.y
            && 0.0 <= r.drag.value.offsetX <= b.w && 0.0 <= r.drag.value.offsetY <= b.h)
  {
  }

  /** handleConnectorPointerDown: the connector dot selects the node and
      starts drawing a link from it. */
  function ConnectorPress(s: EditorState, ev: PointerEvent, item: Selectable): (r: EditorState)
    ensures Inv(s) ==> Inv(r)
    ensures s.isLocked || ev.button != 0 ==> r == s
    ensures !s.isLocked && ev.button == 0 ==>
      r == s.(selected := Some(item), linkDrag := Some(LinkGesture(item, ev.pointerId)))
  {
    if s.isLocked || ev.button != 0 then s
    else s.(selected := Some(item), linkDrag := Some(LinkGesture(item, ev.pointerId)))
  }

  /** handleCanvasPointerDown: a press on the empty canvas clears both
      selections, and in connect mode drops the pending connection. */
  function CanvasPress(s: EditorState, onCanvas: bool): (r: EditorState)
    ensures Inv(s) ==> Inv(r)
    ensures !onCanvas ==> r == s
    ensures onCanvas ==> r.selected.None? && r.selectedLinkId.None?
    ensures onCanvas && !s.isLocked && s.connectMode ==> r.connectFrom.None? && r.linkDrag.None?
    ensures onCanvas && (s.isLocked || !s.connectMode) ==> r == s.(selected := None, selectedLinkId := None)
    ensures onCanvas && !s.isLocked && s.connectMode ==>
      r == s.(selected := None, selectedLinkId := None, connectFrom := None, linkDrag := None)
  {
    if !onCanvas then s
    else
      var s1 := s.(selected := None, selectedLinkId := None);
      if s.isLocked || !s.connectMode then s1
      else s1.(connectFrom := None, linkDrag := None)
  }

  // ---------------------------------------------------------------- moving

  /** Where a dragged box goes: the pointer less the press offset, clamped
      so the box stays on the canvas. */
  function Dragged(b: Box, p: Point, offsetX: real, offsetY: real): (q: Point)
    ensures q.x <= CanvasWidth - b.w && q.y <= CanvasHeight - b.h
    ensures b.w <= CanvasWidth ==> 0.0 <= q.x
    ensures b.h <= CanvasHeight ==> 0.0 <= q.y
    ensures 0.0 <= p.x - offsetX <= CanvasWidth - b.w ==> q.x == p.x - offsetX
    ensures 0.0 <= p.y - offsetY <= CanvasHeight - b.h ==> q.y == p.y - offsetY
  {
    Point(Clamp(p.x - offsetX, 0.0, CanvasWidth - b.w), Clamp(p.y - offsetY, 0.0, CanvasHeight - b.h))
  }

  /** The box a resize gives for the pointer at p: a right (bottom) edge
      moves the far side, a left (top) edge moves the near side with the
      far side fixed; sizes are clamped to the minimum and the canvas. */
  function Resized(g: ResizeGesture, p: Point, minW: real, minH: real): (b: Box)
    ensures !g.edges.left && !g.edges.right ==> b.x == g.startItemX && b.w == g.startW
    ensures !g.edges.top && !g.edges.bottom ==> b.y == g.startItemY && b.h == g.startH
    ensures !g.edges.left && g.edges.right ==>
      && b.x == g.startItemX && b.w == Clamp(g.startW + p.x - g.startX, minW, CanvasWidth - g.startItemX)
      && (minW <= CanvasWidth - g.startItemX ==> minW <= b.w && b.x + b.w <= CanvasWidth)
    ensures !g.edges.top && g.edges.bottom ==>
      && b.y == g.startItemY && b.h == Clamp(g.startH + p.y - g.startY, minH, CanvasHeight - g.startItemY)
      && (minH <= CanvasHeight - g.startItemY ==> minH <= b.h && b.y + b.h <= CanvasHeight)
    ensures g.edges.left && minW <= g.startItemX + g.startW ==>
      && b.x + b.w == g.startItemX + g.startW && minW <= b.w && 0.0 <= b.x
      && b.w == Clamp(g.startW - (p.x - g.startX), minW, g.startItemX + g.startW)
    ensures g.edges.top && minH <= g.startItemY + g.startH ==>
      && b.y + b.h == g.startItemY + g.startH && minH <= b.h && 0.0 <= b.y
      && b.h == Clamp(g.startH - (p.y - g.startY), minH, g.startItemY + g.startH)
  {
    var dx, dy := p.x - g.startX, p.y - g.startY;
    var right, bottom := g.startItemX + g.startW, g.startItemY + g.startH;
    var w1 := if g.edges.right then Clamp(g.startW + dx, minW, CanvasWidth - g.startItemX) else g.startW;
    var w := if g.edges.left then Clamp(g.startW - dx, minW, right) else w1;
    var x := if g.edges.left then Clamp(right - w, 0.0, right - minW) else g.startItemX;
    var h1 := if g.edges.bottom then Clamp(g.startH + dy, minH, CanvasHeight - g.startItemY) else g.startH;
    var h := if g.edges.top then Clamp(g.startH - dy, minH, bottom) else h1;
    var y := if g.edges.top then Clamp(bottom - h, 0.0, bottom - minH) else g.startItemY;
    Box(x, y, w, h)
  }

  function DragNodes(nodes: seq<Node>, g: DragGesture, p: Point): (r: seq<Node>)
    ensures |r| == |nodes|
    ensures forall i :: 0 <= i < |nodes| && nodes[i].id != g.id ==> r[i] == nodes[i]
    ensures forall i :: 0 <= i < |nodes| && nodes[i].id == g.id ==>
      r[i] == nodes[i].(x := r[i].x, y := r[i].y)
      && Point(r[i].x, r[i].y) == Dragged(nodes[i].Bounds(), p, g.offsetX, g.offsetY)
  {
    seq(|nodes|, i requires 0 <= i < |nodes| =>
      if nodes[i].id != g.id then nodes[i]
      else
        var q := Dragged(nodes[i].Bounds(), p, g.offsetX, g.offsetY);
        nodes[i].(x := q.x, y := q.y))
  }

  function DragGroups(groups: seq<Group>, g: DragGesture, p: Point): (r: seq<Group>)
    ensures |r| == |groups|
    ensures forall i :: 0 <= i < |groups| && groups[i].id != g.id ==> r[i] == groups[i]
    ensures forall i :: 0 <= i < |groups| && groups[i].id == g.id ==>
      r[i] == groups[i].(x := r[i].x, y := r[i].y)
      && Point(r[i].x, r[i].y) == Dragged(groups[i].Bounds(), p, g.offsetX, g.offsetY)
  {
    seq(|groups|, i requires 0 <= i < |groups| =>
      if groups[i].id != g.id then groups[i]
      else
        var q := Dragged(groups[i].Bounds(), p, g.offsetX, g.offsetY);
        groups[i].(x := q.x, y := q.y))
  }

  function ResizeNodes(nodes: seq<Node>, g: ResizeGesture, p: Point): (r: seq<Node>)
    ensures |r| == |nodes|
    ensures forall i :: 0 <= i < |nodes| && nodes[i].id != g.id ==> r[i] == nodes[i]
    ensures forall i :: 0 <= i < |nodes| && nodes[i].id == g.id ==>
      r[i] == nodes[i].(x := r[i].x, y := r[i].y, w := r[i].w, h := r[i].h)
      && r[i].Bounds() == Resized(g, p, NodeMinW, NodeMinH)
  {
    seq(|nodes|, i requires 0 <= i < |nodes| =>
      if nodes[i].id != g.id then nodes[i]
      else
        var b := Resized(g, p, NodeMinW, NodeMinH);
        nodes[i].(x := b.x, y := b.y, w := b.w, h := b.h))
  }

  function ResizeGroups(groups: seq<Group>, g: ResizeGesture, p: Point): (r: seq<Group>)
    ensures |r| == |groups|
    ensures forall i :: 0 <= i < |groups| && groups[i].id != g.id ==> r[i] == groups[i]
    ensures forall i :: 0 <= i < |groups| && groups[i].id == g.id ==>
      r[i] == groups[i].(x := r[i].x, y := r[i].y, w := r[i].w, h := r[i].h)
      && r[i].Bounds() == Resized(g, p, GroupMinW, GroupMinH)
  {
    seq(|groups|, i requires 0 <= i < |groups| =>
      if groups[i].id != g.id then groups[i]
      else
        var b := Resized(g, p, GroupMinW, GroupMinH);
        groups[i].(x := b.x, y := b.y, w := b.w, h := b.h))
  }

  /** handlePointerMove: a move of the pointer that draws a link only
      updates the preview; otherwise the pointer of a resize resizes the
      item, and the pointer of a drag moves it. Only the gesture's item
      changes. */
  function Move(s: EditorState, ev: PointerEvent): (r: EditorState)
    ensures Inv(s) ==> Inv(r)
    ensures r == s.(nodes := r.nodes, groups := r.groups)
    ensures |r.nodes| == |s.nodes| && |r.groups| == |s.groups|
    ensures s.isLocked || (s.linkDrag.Some? && s.linkDrag.value.pointerId == ev.pointerId) ==> r == s
    ensures !s.isLocked && !(s.linkDrag.Some? && s.linkDrag.value.pointerId == ev.pointerId) && s.resize.Some? ==>
      if s.resize.value.pointerId != ev.pointerId then r == s
      else if s.resize.value.kind == NodeKind then r == s.(nodes := ResizeNodes(s.nodes, s.resize.value, ev.point))
      else r == s.(groups := ResizeGroups(s.groups, s.resize.value, ev.point))
    ensures !s.isLocked && !(s.linkDrag.Some? && s.linkDrag.value.pointerId == ev.pointerId) && s.resize.None? ==>
      if s.drag.None? || s.drag.value.pointerId != ev.pointerId then r == s
      else if s.drag.value.kind == NodeKind then r == s.(nodes := DragNodes(s.nodes, s.drag.value, ev.point))
      else r == s.(groups := DragGroups(s.groups, s.drag.value, ev.point))
  {
    if s.isLocked then s
    else if s.linkDrag.Some? && s.linkDrag.value.pointerId == ev.pointerId then s
    else if s.resize.Some? then
      var g := s.resize.value;
      if g.pointerId != ev.pointerId then s
      else if g.kind == NodeKind then s.(nodes := ResizeNodes(s.nodes, g, ev.point))
      else s.(groups := ResizeGroups(s.groups, g, ev.point))
    else if s.drag.None? || s.drag.value.pointerId != ev.pointerId then s
    else if s.drag.value.kind == NodeKind then s.(nodes := DragNodes(s.nodes, s.drag.value, ev.point))
    else s.(groups := DragGroups(s.groups, s.drag.value, ev.point))
  }

  /** A drag keeps the dragged nodes on the canvas (when they fit) and
      leaves every other node as it was. */
  lemma {:induction false} DragStaysOnCanvas(s: EditorState, ev: PointerEvent)
    requires !s.isLocked && s.linkDrag.None? && s.resize.None?
    requires s.drag.Some? && s.drag.value.pointerId == ev.pointerId && s.drag.value.kind == NodeKind
    ensures forall i :: 0 <= i < |s.nodes| && s.nodes[i].id == s.drag.value.id ==>
      var n := Move(s, ev).nodes[i];
      && n.x <= CanvasWidth - n.w && n.y <= CanvasHeight - n.h
      && (n.w <= CanvasWidth ==> 0.0 <= n.x) && (n.h <= CanvasHeight ==> 0.0 <= n.y)
    ensures forall i :: 0 <= i < |s.nodes| && s.nodes[i].id != s.drag.value.id ==> Move(s, ev).nodes[i] == s.nodes[i]
  {
  }

  // ------------------------------------------------------------- releasing

  /** The end of drawing a link from `from` with `target` under the
      pointer: a different existing target is connected and selected. */
  function Drop(s: EditorState, from: Selectable, target: Option<Selectable>): EditorState {
    var s1 :=
      if target.Some? && target.value != from && Connection(s.nodes, s.groups, from, target.value).Some? then
        Connect(s, from, target.value).(selected := target, connectFrom := None)
      else s;
    s1.(linkDrag := None)
  }

  /** handlePointerUp (also pointer cancel): releasing a drawn link over a
      different existing item adds the connection, selects the target and
      ends a pending connection; the gesture of the pointer ends. */
  function Release(s: EditorState, ev: PointerEvent): (r: EditorState)
    ensures Inv(s) ==> Inv(r)
    ensures s.isLocked ==> r == s
    ensures !s.isLocked && s.linkDrag.Some? && s.linkDrag.value.pointerId == ev.pointerId ==>
      && r.linkDrag.None? && r.drag == s.drag && r.resize == s.resize
      && r.nodes == s.nodes && r.groups == s.groups
    ensures !s.isLocked && s.linkDrag.Some? && s.linkDrag.value.pointerId == ev.pointerId ==>
      var target := TopmostAt(s.nodes, s.groups, ev.point);
      var from := s.linkDrag.value.from;
      if target.Some? && target.value != from && Connection(s.nodes, s.groups, from, target.value).Some? then
        var w := Connection(s.nodes, s.groups, from, target.value).value;
        && r == WithLink(s, w.from, w.to, w.tone).(selected := target, connectFrom := None, linkDrag := None)
        && r.selected == target && r.connectFrom.None?
        && LinkExists(r.links, w.from, w.to)
      else r == s.(linkDrag := None)
    ensures !s.isLocked && !(s.linkDrag.Some? && s.linkDrag.value.pointerId == ev.pointerId) ==>
      if s.resize.Some? && s.resize.value.pointerId == ev.pointerId then r == s.(resize := None)
      else if s.drag.Some? && s.drag.value.pointerId == ev.pointerId then r == s.(drag := None)
      else r == s
  {
    if s.isLocked then s
    else if s.linkDrag.Some? && s.linkDrag.value.pointerId == ev.pointerId then
      Drop(s, s.linkDrag.value.from, TopmostAt(s.nodes, s.groups, ev.point))
    else if s.resize.Some? && s.resize.value.pointerId == ev.pointerId then s.(resize := None)
    else if s.drag.None? || s.drag.value.pointerId != ev.pointerId then s
    else s.(drag := None)
  }

  /** handlePointerLeave. */
  function Leave(s: EditorState, ev: PointerEvent): (r: EditorState)
    ensures Inv(s) ==> Inv(r)
    ensures s.isLocked ==> r == s
    ensures !s.isLocked ==> r == Release(s, ev)
  {
    if s.isLocked then s else Release(s, ev)
  }

  // -------------------------------------------------------------- the class

  /** The Home component's state and handlers. */
  class Editor {
    var nodes: seq<Node>
    var groups: seq<Group>
    var links: seq<Link>
    var selected: Option<Selectable>
    var selectedLinkId: Option<string>
    var connectMode: bool
    var connectFrom: Option<Selectable>
    var isLocked: bool
    var drag: Option<DragGesture>
    var resize: Option<ResizeGesture>
    var linkDrag: Option<LinkGesture>
    var nodeCounter: nat
    var groupCounter: nat
    var linkCounter: nat

    function State(): EditorState
      reads this
    {
      EditorState(nodes, groups, links, selected, selectedLinkId, connectMode, connectFrom, isLocked,
                  drag, resize, linkDrag, nodeCounter, groupCounter, linkCounter)
    }

    predicate Valid()
      reads this
    {
      Inv(State())
    }

    constructor()
      ensures Valid() && State() == Initial()
    {
      nodes, groups, links := [], [], [];
      selected, selectedLinkId := None, None;
      connectMode, connectFrom, isLocked := false, None, false;
      drag, resize, linkDrag := None, None, None;
      nodeCounter, groupCounter, linkCounter := 1, 1, 1;
    }

    /** Ends every gesture in progress. */
    method EndGestures()
      modifies this
      ensures State() == old(State()).(drag := None, resize := None, linkDrag := None)
    {
      drag, resize, linkDrag := None, None, None;
    }

    /** Clears both selections. */
    method Deselect()
      modifies this
      ensures State() == old(State()).(selected := None, selectedLinkId := None)
    {
      selected, selectedLinkId := None, None;
    }

    /** Leaves connect mode with no connection pending. */
    method EndConnecting()
      modifies this
      ensures State() == old(State()).(connectMode := false, connectFrom := None)
    {
      connectMode, connectFrom := false, None;
    }

    /** Forgets an item as the selection and as the start of a pending
        connection. */
    method Forget(item: Selectable)
      modifies this
      ensures State() == old(State()).(selected := if old(selected) == Some(item) then None else old(selected),
                                        connectFrom := if old(connectFrom) == Some(item) then None else old(connectFrom))
    {
      selected := if selected == Some(item) then None else selected;
      connectFrom := if connectFrom == Some(item) then None else connectFrom;
    }

    method SetLocked(next: bool)
      modifies this
      requires Valid()
      ensures Valid() && State() == Lock(old(State()), next)
    {
      isLocked := next;
      if next {
        connectMode := false;
        connectFrom := None;
        selectedLinkId := None;
        linkDrag := None;
      }
    }

    method ToggleConnectMode()
      modifies this
      requires Valid()
      ensures Valid() && State() == ToggleConnect(old(State()))
    {
      if isLocked {
        return;
      }
      connectMode := !connectMode;
      connectFrom := None;
      selectedLinkId := None;
      linkDrag := None;
    }

    method SelectLink(linkId: string)
      modifies this
      requires Valid()
      ensures Valid() && State() == ToggleLinkSelection(old(State()), linkId)
    {
      if isLocked {
        return;
      }
      selectedLinkId := if selectedLinkId == Some(linkId) then None else Some(linkId);
    }

    method AddLink(from: Endpoint, to: Endpoint, tone: Option<Tone>)
      modifies this
      requires Valid()
      ensures Valid() && State() == WithLink(old(State()), from, to, tone)
    {
      if isLocked {
        return;
      }
      if !LinkExists(links, from, to) {
        links := links + [NewLink(CustomName(linkCounter), from, to, tone)];
        linkCounter := linkCounter + 1;
      }
    }

    method HandleAddLink(draft: LinkDraft)
      modifies this
      requires Valid()
      ensures Valid() && State() == DraftLink(old(State()), draft)
    {
      if isLocked || selected.None? {
        return;
      }
      var sel := selected.value;
      if draft.toId == "" || (draft.toKind == sel.kind && draft.toId == sel.id) {
        return;
      }
      if !Exists(nodes, groups, Selectable(draft.toKind, draft.toId)) {
        return;
      }
      var tone := SourceTone(nodes, sel);
      AddLink(Endpoint(sel.kind, sel.id, draft.fromAnchor), Endpoint(draft.toKind, draft.toId, draft.toAnchor), tone);
    }

    method HandleRemoveLink(linkId: string)
      modifies this
      requires Valid()
      ensures Valid() && State() == RemoveLink(old(State()), linkId)
    {
      if isLocked {
        return;
      }
      links := LinksNotNamed(links, linkId);
      if selectedLinkId == Some(linkId) {
        selectedLinkId := None;
      }
    }

    method RemoveNodeById(id: string)
      modifies this
      requires Valid()
      ensures Valid() && State() == RemoveItem(old(State()), Selectable(NodeKind, id))
    {
      if isLocked {
        return;
      }
      var item := Selectable(NodeKind, id);
      nodes := NodesWithout(nodes, id);
      links := LinksWithout(links, NodeKind, id);
      Forget(item);
      selectedLinkId, drag := None, None;
    }

    method RemoveGroupById(id: string)
      modifies this
      requires Valid()
      ensures Valid() && State() == RemoveItem(old(State()), Selectable(GroupKind, id))
    {
      if isLocked {
        return;
      }
      var item := Selectable(GroupKind, id);
      groups := GroupsWithout(groups, id);
      links := LinksWithout(links, GroupKind, id);
      Forget(item);
      selectedLinkId, drag := None, None;
    }

    method HandleRemoveSelected()
      modifies this
      requires Valid()
      ensures Valid() && State() == RemoveSelected(old(State()))
    {
      if isLocked || selected.None? {
        return;
      }
      if selected.value.kind == NodeKind {
        RemoveNodeById(selected.value.id);
      } else {
        RemoveGroupById(selected.value.id);
      }
    }

    method HandleAddNode()
      modifies this
      requires Valid()
      ensures Valid() && State() == AddNode(old(State()))
    {
      if isLocked {
        return;
      }
      var n := nodeCounter;
      nodeCounter := nodeCounter + 1;
      var node := NewNode(n, |nodes|);
      nodes := nodes + [node];
      selected := Some(Selectable(NodeKind, node.id));
    }

    method HandleAddGroup()
      modifies this
      requires Valid()
      ensures Valid() && State() == AddGroup(old(State()))
    {
      if isLocked {
        return;
      }
      var n := groupCounter;
      groupCounter := groupCounter + 1;
      var group := NewGroup(n, |groups|);
      groups := groups + [group];
      selected := Some(Selectable(GroupKind, group.id));
    }

    /** `confirmed` is the answer to the confirmation dialog. */
    method HandleClearCanvas(confirmed: bool)
      modifies this
      requires Valid()
      ensures Valid() && State() == Clear(old(State()), confirmed)
    {
      if isLocked || !confirmed {
        return;
      }
      nodes, groups, links := [], [], [];
      Deselect();
      EndConnecting();
      EndGestures();
    }

    /** The parsed document's node, group and link arrays, None where the
        field is not an array. */
    method ImportGraph(nodes': Option<seq<Node>>, groups': Option<seq<Group>>, entries: Option<seq<LinkEntry>>)
      modifies this
      requires Valid()
      ensures Valid() && State() == ImportDocument(old(State()), nodes', groups', entries)
    {
      var records := Readable(entries.GetOr([]));
      if isLocked || records.None? {
        return;
      }
      nodes := nodes'.GetOr([]);
      groups := groups'.GetOr([]);
      links := ImportLinks(records.value);
      Deselect();
      EndConnecting();
      EndGestures();
    }

    method HandleResizeStart(ev: PointerEvent, item: Selectable, b: Box, edges: Edges)
      modifies this
      requires Valid()
      ensures Valid() && State() == ResizeStart(old(State()), ev, item, b, edges)
    {
      if isLocked || ev.button != 0 {
        return;
      }
      resize := Some(ResizeGesture(item.kind, item.id, ev.point.x, ev.point.y, b.x, b.y, b.w, b.h, edges, ev.pointerId));
      selected := Some(item);
      drag := None;
    }

    method StartLinkDrag(ev: PointerEvent, item: Selectable)
      modifies this
      requires Valid()
      ensures Valid()
      ensures State() == if old(isLocked) then old(State()) else old(State()).(linkDrag := Some(LinkGesture(item, ev.pointerId)))
    {
      if isLocked {
        return;
      }
      linkDrag := Some(LinkGesture(item, ev.pointerId));
    }

    method HandleConnectSelection(ev: PointerEvent, item: Selectable)
      modifies this
      requires Valid() && connectMode
      ensures Valid() && State() == ConnectSelect(old(State()), item, ev.pointerId)
    {
      if isLocked {
        return;
      }
      if connectFrom.None? {
        connectFrom := Some(item);
        selected := Some(item);
        StartLinkDrag(ev, item);
        return;
      }
      if connectFrom.value == item {
        StartLinkDrag(ev, item);
        return;
      }
      var wire := Connection(nodes, groups, connectFrom.value, item);
      if wire.Some? {
        AddLink(wire.value.from, wire.value.to, wire.value.tone);
      }
      selected := Some(item);
      connectFrom := None;
    }

    method PressItem(ev: PointerEvent, item: Selectable, b: Box)
      modifies this
      requires Valid()
      ensures Valid() && State() == Press(old(State()), ev, item, b)
    {
      if ev.button != 0 {
        return;
      }
      selectedLinkId := None;
      if isLocked {
        selected := Some(item);
        return;
      }
      if connectMode {
        HandleConnectSelection(ev, item);
        return;
      }
      var edges := GetResizeEdges(b, ev.point, ResizeMargin);
      if edges.Any() {
        HandleResizeStart(ev, item, b, edges);
        return;
      }
      drag := Some(DragGesture(item.kind, item.id, ev.point.x - b.x, ev.point.y - b.y, ev.pointerId));
      selected := Some(item);
    }

    method HandlePointerDown(ev: PointerEvent, node: Node)
      modifies this
      requires Valid()
      ensures Valid() && State() == Press(old(State()), ev, Selectable(NodeKind, node.id), node.Bounds())
    {
      PressItem(ev, Selectable(NodeKind, node.id), node.Bounds());
    }

    method HandleGroupPointerDown(ev: PointerEvent, group: Group)
      modifies this
      requires Valid()
      ensures Valid() && State() == Press(old(State()), ev, Selectable(GroupKind, group.id), group.Bounds())
    {
      PressItem(ev, Selectable(GroupKind, group.id), group.Bounds());
    }

    method HandleConnectorPointerDown(ev: PointerEvent, node: Node)
      modifies this
      requires Valid()
      ensures Valid() && State() == ConnectorPress(old(State()), ev, Selectable(NodeKind, node.id))
    {
      if isLocked || ev.button != 0 {
        return;
      }
      var item := Selectable(NodeKind, node.id);
      selected := Some(item);
      StartLinkDrag(ev, item);
    }

    /** `onCanvas` tells whether the press landed on the canvas itself
        rather than on something drawn on it. */
    method HandleCanvasPointerDown(onCanvas: bool)
      modifies this
      requires Valid()
      ensures Valid() && State() == CanvasPress(old(State()), onCanvas)
    {
      if !onCanvas {
        return;
      }
      selected := None;
      selectedLinkId := None;
      if isLocked {
        return;
      }
      if connectMode {
        connectFrom := None;
        linkDrag := None;
      }
    }

    method HandlePointerMove(ev: PointerEvent)
      modifies this
      requires Valid()
      ensures Valid() && State() == Move(old(State()), ev)
    {
      if isLocked {
        return;
      }
      if linkDrag.Some? && linkDrag.value.pointerId == ev.pointerId {
        return;
      }
      if resize.Some? {
        var g := resize.value;
        if g.pointerId != ev.pointerId {
          return;
        }
        if g.kind == NodeKind {
          nodes := ResizeNodes(nodes, g, ev.point);
        } else {
          groups := ResizeGroups(groups, g, ev.point);
        }
        return;
      }
      if drag.None? || drag.value.pointerId != ev.pointerId {
        return;
      }
      if drag.value.kind == NodeKind {
        nodes := DragNodes(nodes, drag.value, ev.point);
      } else {
        groups := DragGroups(groups, drag.value, ev.point);
      }
    }

    /** Releasing the pointer that draws a link: connects to the item
        under the pointer when that is another existing item. */
    method FinishLinkDrag(ev: PointerEvent)
      modifies this
      requires Valid() && !isLocked && linkDrag.Some?
      ensures Valid()
      ensures State() == Drop(old(State()), old(linkDrag.value.from), TopmostAt(old(nodes), old(groups), ev.point))
    {
      var from := linkDrag.value.from;
      var target := HitTestSelectable(nodes, groups, ev.point);
      if target.Some? && target.value != from && Connection(nodes, groups, from, target.value).Some? {
        ConnectAndSelect(from, target.value);
      }
      linkDrag := None;
    }

    /** Links two existing items and selects the second, ending a pending
        connection. */
    method ConnectAndSelect(from: Selectable, to: Selectable)
      modifies this
      requires Valid() && !isLocked
      ensures State() == Connect(old(State()), from, to).(selected := Some(to), connectFrom := None)
    {
      var wire := Connection(nodes, groups, from, to);
      if wire.Some? {
        AddLink(wire.value.from, wire.value.to, wire.value.tone);
      }
      selected, connectFrom := Some(to), None;
    }

    method HandlePointerUp(ev: PointerEvent)
      modifies this
      requires Valid()
      ensures Valid() && State() == Release(old(State()), ev)
    {
      if isLocked {
        return;
      }
      if linkDrag.Some? && linkDrag.value.pointerId == ev.pointerId {
        FinishLinkDrag(ev);
      } else if resize.Some? && resize.value.pointerId == ev.pointerId {
        resize := None;
      } else if drag.Some? && drag.value.pointerId == ev.pointerId {
        drag := None;
      }
    }

    method HandlePointerLeave(ev: PointerEvent)
      modifies this
      requires Valid()
      ensures Valid() && State() == Leave(old(State()), ev)
    {
      if !isLocked {
        HandlePointerUp(ev);
      }
    }

    /** handleAutoLayout: nothing when locked; otherwise the nodes and
        groups take the positions of the layered layout and nothing else
        changes. */
    method HandleAutoLayout(horizontal: bool)
      modifies this
      requires Valid()
      ensures Valid()
      ensures old(isLocked) ==> State() == old(State())
      ensures !old(isLocked) ==>
        && State() == old(State()).(nodes := nodes, groups := groups)
        && |nodes| == |old(nodes)| && |groups| == |old(groups)|
        && (forall i :: 0 <= i < |nodes| ==> nodes[i] == old(nodes)[i].(x := nodes[i].x, y := nodes[i].y))
        && (forall i :: 0 <= i < |groups| ==> groups[i] == old(groups)[i].(x := groups[i].x, y := groups[i].y))
        && exists levels ::
             && Layout.LevelsOf(Layout.Items(old(nodes), old(groups)),
                                Layout.Arcs(old(links), Layout.KeySet(Layout.Items(old(nodes), old(groups)))), levels)
             && (Layout.UniqueKeys(Layout.Items(old(nodes), old(groups))) ==>
                   Layout.Arranged(Layout.Items(old(nodes), old(groups)), levels, Layout.Items(nodes, groups), horizontal))
    {
      if isLocked {
        return;
      }
      var nodes', groups', levels := Layout.AutoLayout(nodes, groups, links, horizontal);
      nodes, groups := nodes', groups';
    }
  }
}
