/** The scene model: nodes, groups and links, and everything the editor
    derives from the three lists (lookups by id, hit-testing, link fan-out
    offsets, the shared animation cycle, placement of new items, cascade
    filters and the normalisation of imported links). */
module Scene {
  import opened Optional
  import opened Geometry

  datatype Tone = Primary | Secondary | Highlight | Muted
  datatype Kind = NodeKind | GroupKind

  /** A reference to a node or a group, as selections and gestures hold it. */
  datatype Selectable = Selectable(kind: Kind, id: string)

  /** One end of a link: the entity it is attached to and the side. */
  datatype Endpoint = Endpoint(kind: Kind, id: string, anchor: Anchor) {
    function Target(): Selectable { Selectable(kind, id) }
  }

  datatype Animation = Flow | Light | NoAnimation
  datatype Direction = Forward | Reverse

  datatype Node = Node(
    id: string, caption: string,
    x: real, y: real, w: real, h: real,
    icon: string, iconUrl: Option<string>,
    fillColor: Option<string>, strokeColor: Option<string>,
    tone: Tone, shape: Option<ShapeKind>)
  {
    function Bounds(): Box { Box(x, y, w, h) }
  }

  datatype Group = Group(
    id: string, caption: string,
    x: real, y: real, w: real, h: real,
    fillColor: Option<string>, strokeColor: Option<string>,
    shape: Option<ShapeKind>)
  {
    function Bounds(): Box { Box(x, y, w, h) }
  }

  datatype Link = Link(
    id: string, from: Endpoint, to: Endpoint,
    tone: Option<Tone>, color: Option<string>, caption: Option<string>,
    animation: Option<Animation>, animationDuration: Option<real>,
    animationDirection: Option<Direction>)

  const NodeMinW: real := 80.0
  const NodeMinH: real := 28.0
  const GroupMinW: real := 120.0
  const GroupMinH: real := 120.0
  /** Lateral distance between links that leave from the same anchor. */
  const FanSpacing: real := 16.0
  const FlowDuration: real := 2.8
  const LightDuration: real := 6.4

  // ------------------------------------------------------------ list helpers

  /** a is b with some elements left out and the rest in their order. */
  predicate SubsequenceOf<T(==)>(a: seq<T>, b: seq<T>)
    decreases |b|
  {
    if a == [] then true
    else if b == [] then false
    else if a[0] == b[0] then SubsequenceOf(a[1..], b[1..])
    else SubsequenceOf(a, b[1..])
  }

  /** How many elements of s satisfy p. */
  function Count<T>(s: seq<T>, p: T -> bool): nat {
    if s == [] then 0 else (if p(s[0]) then 1 else 0) + Count(s[1..], p)
  }

  /** Array.prototype.filter: the elements that satisfy `keep`, in order. */
  function Filter<T(==,!new)>(s: seq<T>, keep: T -> bool): (r: seq<T>)
    ensures forall x :: x in r <==> x in s && keep(x)
    ensures SubsequenceOf(r, s)
    ensures |r| == Count(s, keep)
  {
    if s == [] then []
    else
      var rest := Filter(s[1..], keep);
      if keep(s[0]) then [s[0]] + rest else rest
  }

  /** Elements that satisfy p and elements that do not make up all of s. */
  lemma {:induction false} CountComplement<T>(s: seq<T>, p: T -> bool, q: T -> bool)
    requires forall x :: q(x) == !p(x)
    ensures Count(s, p) + Count(s, q) == |s|
  {
    if s != [] {
      CountComplement(s[1..], p, q);
    }
  }

  /** The index of the last element of s that satisfies p. */
  function LastIndex<T>(s: seq<T>, p: T -> bool): (r: Option<nat>)
    ensures r.None? <==> forall i :: 0 <= i < |s| ==> !p(s[i])
    ensures r.Some? ==> r.value < |s| && p(s[r.value])
    ensures r.Some? ==> forall j :: r.value < j < |s| ==> !p(s[j])
  {
    if s == [] then None
    else if p(s[|s| - 1]) then Some(|s| - 1)
    else LastIndex(s[..|s| - 1], p)
  }

  // ------------------------------------------------------------------ lookups

  /** nodeMap.get(id): the map is built from the list, so when ids repeat
      the last node with the id wins. */
  function FindNode(nodes: seq<Node>, id: string): (r: Option<Node>)
    ensures r.None? <==> forall n :: n in nodes ==> n.id != id
    ensures r.Some? ==> exists i :: 0 <= i < |nodes| && nodes[i] == r.value && r.value.id == id &&
                                    (forall j :: i < j < |nodes| ==> nodes[j].id != id)
  {
    match LastIndex(nodes, (n: Node) => n.id == id)
    case None => None
    case Some(i) => Some(nodes[i])
  }

  function FindGroup(groups: seq<Group>, id: string): (r: Option<Group>)
    ensures r.None? <==> forall g :: g in groups ==> g.id != id
    ensures r.Some? ==> exists i :: 0 <= i < |groups| && groups[i] == r.value && r.value.id == id &&
                                    (forall j :: i < j < |groups| ==> groups[j].id != id)
  {
    match LastIndex(groups, (g: Group) => g.id == id)
    case None => None
    case Some(i) => Some(groups[i])
  }

  /** The item a selection refers to exists in the scene. */
  predicate Exists(nodes: seq<Node>, groups: seq<Group>, item: Selectable) {
    match item.kind
    case NodeKind => exists n :: n in nodes && n.id == item.id
    case GroupKind => exists g :: g in groups && g.id == item.id
  }

  /** Every link has both ends on existing items, as the cascading
      removals keep it. */
  predicate Attached(nodes: seq<Node>, groups: seq<Group>, links: seq<Link>) {
    forall l :: l in links ==> Exists(nodes, groups, l.from.Target()) && Exists(nodes, groups, l.to.Target())
  }

  /** getItem: the box of the node or group a selection refers to. */
  function ItemBox(nodes: seq<Node>, groups: seq<Group>, item: Selectable): (r: Option<Box>)
    ensures r.Some? <==> Exists(nodes, groups, item)
    ensures r.Some? && item.kind == NodeKind ==> r.value == FindNode(nodes, item.id).value.Bounds()
    ensures r.Some? && item.kind == GroupKind ==> r.value == FindGroup(groups, item.id).value.Bounds()
  {
    match item.kind
    case NodeKind =>
      (match FindNode(nodes, item.id) case Some(n) => Some(n.Bounds()) case None => None)
    case GroupKind =>
      (match FindGroup(groups, item.id) case Some(g) => Some(g.Bounds()) case None => None)
  }

  /** The id of the last node whose box contains p. */
  function TopNode(nodes: seq<Node>, p: Point): Option<string> {
    if nodes == [] then None
    else if Contains(nodes[|nodes| - 1].Bounds(), p) then Some(nodes[|nodes| - 1].id)
    else TopNode(nodes[..|nodes| - 1], p)
  }

  /** The id of the last group whose box contains p. */
  function TopGroup(groups: seq<Group>, p: Point): Option<string> {
    if groups == [] then None
    else if Contains(groups[|groups| - 1].Bounds(), p) then Some(groups[|groups| - 1].id)
    else TopGroup(groups[..|groups| - 1], p)
  }

  /** What a press at p hits: the topmost node, else the topmost group. */
  function TopmostAt(nodes: seq<Node>, groups: seq<Group>, p: Point): Option<Selectable> {
    match TopNode(nodes, p)
    case Some(id) => Some(Selectable(NodeKind, id))
    case None =>
      match TopGroup(groups, p)
      case Some(id) => Some(Selectable(GroupKind, id))
      case None => None
  }

  /** hitTestSelectable: the topmost (last-drawn) node under the point, and
      only when there is none, the topmost group. */
  method HitTestSelectable(nodes: seq<Node>, groups: seq<Group>, p: Point) returns (r: Option<Selectable>)
    ensures r == TopmostAt(nodes, groups, p)
    ensures r.Some? && r.value.kind == NodeKind <==>
      exists i :: 0 <= i < |nodes| && Contains(nodes[i].Bounds(), p)
    ensures r.Some? && r.value.kind == NodeKind ==>
      exists i :: 0 <= i < |nodes| && nodes[i].id == r.value.id && Contains(nodes[i].Bounds(), p) &&
        forall j :: i < j < |nodes| ==> !Contains(nodes[j].Bounds(), p)
    ensures r.Some? && r.value.kind == GroupKind ==>
      exists i :: 0 <= i < |groups| && groups[i].id == r.value.id && Contains(groups[i].Bounds(), p) &&
        forall j :: i < j < |groups| ==> !Contains(groups[j].Bounds(), p)
    ensures r.None? <==>
      (forall i :: 0 <= i < |nodes| ==> !Contains(nodes[i].Bounds(), p)) &&
      (forall i :: 0 <= i < |groups| ==> !Contains(groups[i].Bounds(), p))
  {
    var i := |nodes|;
    assert nodes[..i] == nodes;
    while i > 0
      invariant 0 <= i <= |nodes|
      invariant forall j :: i <= j < |nodes| ==> !Contains(nodes[j].Bounds(), p)
      invariant TopNode(nodes[..i], p) == TopNode(nodes, p)
    {
      i := i - 1;
      assert nodes[..i + 1][..i] == nodes[..i];
      if Contains(nodes[i].Bounds(), p) {
        return Some(Selectable(NodeKind, nodes[i].id));
      }
    }
    i := |groups|;
    assert groups[..i] == groups;
    while i > 0
      invariant 0 <= i <= |groups|
      invariant forall j :: i <= j < |groups| ==> !Contains(groups[j].Bounds(), p)
      invariant TopGroup(groups[..i], p) == TopGroup(groups, p)
    {
      i := i - 1;
      assert groups[..i + 1][..i] == groups[..i];
      if Contains(groups[i].Bounds(), p) {
        return Some(Selectable(GroupKind, groups[i].id));
      }
    }
    return None;
  }

  // ------------------------------------------------------------ corner radius

  /** The corner radius of a node drawn as a native rectangle (shape
      missing = rounded). A pill is rounded by half its shorter side. */
  function NodeCornerRadius(n: Node): (r: real)
    ensures n.shape.GetOr(Rounded) == Pill ==>
      r <= n.w / 2.0 && r <= n.h / 2.0 && (r == n.w / 2.0 || r == n.h / 2.0)
    ensures n.shape.GetOr(Rounded) != Pill ==> r == (if n.shape == Some(Rect) then 4.0 else 12.0)
  {
    var shape := n.shape.GetOr(Rounded);
    if shape == Rect then 4.0
    else if shape == Pill then Min(n.h / 2.0, n.w / 2.0)
    else 12.0
  }

  /** The same for groups, with larger defaults. */
  function GroupCornerRadius(g: Group): (r: real)
    ensures g.shape.GetOr(Rounded) == Pill ==>
      r <= g.w / 2.0 && r <= g.h / 2.0 && (r == g.w / 2.0 || r == g.h / 2.0)
    ensures g.shape.GetOr(Rounded) != Pill ==> r == (if g.shape == Some(Rect) then 8.0 else 16.0)
  {
    var shape := g.shape.GetOr(Rounded);
    if shape == Rect then 8.0
    else if shape == Pill then Min(g.h / 2.0, g.w / 2.0)
    else 16.0
  }

  // ------------------------------------------------------------------- links

  /** A link with exactly these two endpoints (kind, id and anchor) exists. */
  predicate LinkExists(links: seq<Link>, from: Endpoint, to: Endpoint) {
    exists l :: l in links && l.from == from && l.to == to
  }

  /** A link as addLink creates it: default tone primary, animation flow. */
  function NewLink(id: string, from: Endpoint, to: Endpoint, tone: Option<Tone>): Link {
    Link(id, from, to, Some(tone.GetOr(Primary)), None, None, Some(Flow), None, None)
  }

  /** addLink's update of the list: unchanged when a link with the same
      endpoints exists, otherwise the new link appended at the end. */
  function AddLinkTo(links: seq<Link>, id: string, from: Endpoint, to: Endpoint, tone: Option<Tone>): (r: seq<Link>)
    ensures LinkExists(links, from, to) ==> r == links
    ensures !LinkExists(links, from, to) ==> |r| == |links| + 1 && r[..|links|] == links
    ensures !LinkExists(links, from, to) ==>
      r[|links|].id == id && r[|links|].from == from && r[|links|].to == to &&
      r[|links|].tone == Some(tone.GetOr(Primary)) && r[|links|].animation == Some(Flow)
    ensures LinkExists(r, from, to)
  {
    if LinkExists(links, from, to) then links else links + [NewLink(id, from, to, tone)]
  }

  /** The number of links with these two endpoints. */
  function CountPair(links: seq<Link>, from: Endpoint, to: Endpoint): nat {
    Count(links, (l: Link) => l.from == from && l.to == to)
  }

  lemma {:induction false} CountPairPositive(links: seq<Link>, from: Endpoint, to: Endpoint)
    ensures CountPair(links, from, to) > 0 <==> LinkExists(links, from, to)
  {
    if links != [] {
      CountPairPositive(links[1..], from, to);
      assert LinkExists(links, from, to) <==>
        (links[0].from == from && links[0].to == to) || LinkExists(links[1..], from, to) by {
        assert forall l :: l in links <==> l == links[0] || l in links[1..];
      }
    }
  }

  lemma {:induction false} CountAppend<T>(s: seq<T>, t: seq<T>, p: T -> bool)
    ensures Count(s + t, p) == Count(s, p) + Count(t, p)
  {
    if s == [] {
      assert s + t == t;
    } else {
      assert (s + t)[1..] == s[1..] + t;
      CountAppend(s[1..], t, p);
    }
  }

  /** Adding a link is idempotent: whatever ids the two calls draw, adding
      the same endpoints twice leaves the list as one addition does, and the
      list then holds exactly one such link unless it held some already. */
  lemma {:induction false} AddLinkIdempotent(links: seq<Link>, id1: string, id2: string, from: Endpoint, to: Endpoint,
                          tone1: Option<Tone>, tone2: Option<Tone>)
    ensures AddLinkTo(AddLinkTo(links, id1, from, to, tone1), id2, from, to, tone2)
         == AddLinkTo(links, id1, from, to, tone1)
    ensures CountPair(AddLinkTo(links, id1, from, to, tone1), from, to)
         == if CountPair(links, from, to) == 0 then 1 else CountPair(links, from, to)
  {
    CountPairPositive(links, from, to);
    if !LinkExists(links, from, to) {
      CountAppend(links, [NewLink(id1, from, to, tone1)], (l: Link) => l.from == from && l.to == to);
    }
  }

  /** The link has an end on the given node or group. */
  predicate Touches(l: Link, kind: Kind, id: string) {
    (l.from.kind == kind && l.from.id == id) || (l.to.kind == kind && l.to.id == id)
  }

  /** The links that survive removing the node or group (kind, id). */
  function LinksWithout(links: seq<Link>, kind: Kind, id: string): (r: seq<Link>)
    ensures forall l :: l in r <==> l in links && !Touches(l, kind, id)
    ensures SubsequenceOf(r, links)
  {
    Filter(links, (l: Link) => !Touches(l, kind, id))
  }

  function NodesWithout(nodes: seq<Node>, id: string): (r: seq<Node>)
    ensures forall n :: n in r <==> n in nodes && n.id != id
    ensures SubsequenceOf(r, nodes)
  {
    Filter(nodes, (n: Node) => n.id != id)
  }

  function GroupsWithout(groups: seq<Group>, id: string): (r: seq<Group>)
    ensures forall g :: g in r <==> g in groups && g.id != id
    ensures SubsequenceOf(r, groups)
  {
    Filter(groups, (g: Group) => g.id != id)
  }

  /** Removal takes away exactly the links touching the removed item. */
  lemma {:induction false} CascadeCount(links: seq<Link>, kind: Kind, id: string)
    ensures |LinksWithout(links, kind, id)| + Count(links, (l: Link) => Touches(l, kind, id)) == |links|
  {
    CountComplement(links, (l: Link) => !Touches(l, kind, id), (l: Link) => Touches(l, kind, id));
  }

  // ---------------------------------------------------------- fan-out offsets

  /** The number of links in s that leave from endpoint e. */
  function FanCount(s: seq<Link>, e: Endpoint): nat {
    if s == [] then 0
    else FanCount(s[..|s| - 1], e) + (if s[|s| - 1].from == e then 1 else 0)
  }

  /** The positions in s of the links leaving from e, in list order. */
  function FanMembers(s: seq<Link>, e: Endpoint): seq<nat> {
    if s == [] then []
    else FanMembers(s[..|s| - 1], e) + (if s[|s| - 1].from == e then [|s| - 1] else [])
  }

  /** The offset of the index-th of `total` links sharing one anchor. */
  function FanOffset(index: int, total: int): real {
    (index as real - (total as real - 1.0) / 2.0) * FanSpacing
  }

  /** The offset link j gets: its rank among the links leaving from the
      same endpoint, centred on the size of that fan. */
  function LinkOffset(links: seq<Link>, j: nat): real
    requires j < |links|
  {
    FanOffset(FanCount(links[..j], links[j].from), FanCount(links, links[j].from))
  }

  predicate UniqueIds(links: seq<Link>) {
    forall i, j :: 0 <= i < j < |links| ==> links[i].id != links[j].id
  }

  lemma {:induction false} FanMembersShape(s: seq<Link>, e: Endpoint)
    ensures |FanMembers(s, e)| == FanCount(s, e)
    ensures forall q :: 0 <= q < |FanMembers(s, e)| ==>
      FanMembers(s, e)[q] < |s| && s[FanMembers(s, e)[q]].from == e
    ensures forall q, q' :: 0 <= q < q' < |FanMembers(s, e)| ==> FanMembers(s, e)[q] < FanMembers(s, e)[q']
    ensures forall j :: 0 <= j < |s| && s[j].from == e ==>
      FanCount(s[..j], e) < FanCount(s, e) && FanMembers(s, e)[FanCount(s[..j], e)] == j
  {
    if s != [] {
      var s' := s[..|s| - 1];
      FanMembersShape(s', e);
      forall j | 0 <= j < |s| - 1
        ensures s'[..j] == s[..j]
      {
      }
    }
  }

  /** Positions in FanMembers are exactly the links leaving from e. */
  lemma {:induction false} FanMembersIn(s: seq<Link>, e: Endpoint, j: nat)
    requires j < |s|
    ensures j in FanMembers(s, e) <==> s[j].from == e
  {
    FanMembersShape(s, e);
  }

  /** Growing the list by one link extends the fan of that link's endpoint
      by its position and leaves the other fans as they were. */
  lemma {:induction false} FanStep(s: seq<Link>, i: nat)
    requires i < |s|
    ensures forall e :: FanMembers(s[..i + 1], e) == FanMembers(s[..i], e) + (if s[i].from == e then [i] else [])
  {
    assert s[..i + 1][..i] == s[..i];
  }

  /** Appending link i to its endpoint's fan keeps every fan equal to
      the positions of the links leaving from its endpoint. */
  lemma {:induction false} FanInsert(links: seq<Link>, i: nat, fans: map<Endpoint, seq<nat>>)
    requires i < |links|
    requires forall e :: e in fans ==> fans[e] == FanMembers(links[..i], e)
    requires forall e :: e !in fans ==> FanMembers(links[..i], e) == []
    ensures var key := links[i].from;
      var fans' := fans[key := (if key in fans then fans[key] else []) + [i]];
      && (forall e :: e in fans' ==> fans'[e] == FanMembers(links[..i + 1], e))
      && (forall e :: e !in fans' ==> FanMembers(links[..i + 1], e) == [])
  {
    FanStep(links, i);
  }

  /** The first pass of linkOffsets: the links grouped by the endpoint they
      leave from, each group holding the positions of its links in list
      order, and the endpoints in order of first appearance. */
  method GroupByEndpoint(links: seq<Link>) returns (order: seq<Endpoint>, fans: map<Endpoint, seq<nat>>)
    ensures forall e :: e in order <==> e in fans
    ensures forall e :: e in fans ==> fans[e] == FanMembers(links, e)
    ensures forall k :: 0 <= k < |links| ==> links[k].from in fans
  {
    order, fans := [], map[];
    var i := 0;
    while i < |links|
      invariant 0 <= i <= |links|
      invariant forall e :: e in order <==> e in fans
      invariant forall e :: e in fans ==> fans[e] == FanMembers(links[..i], e)
      invariant forall e :: e !in fans ==> FanMembers(links[..i], e) == []
    {
      var key := links[i].from;
      FanInsert(links, i, fans);
      order := if key in fans then order else order + [key];
      fans := fans[key := (if key in fans then fans[key] else []) + [i]];
      i := i + 1;
    }
    assert links[..i] == links;
    forall k | 0 <= k < |links|
      ensures links[k].from in fans
    {
      FanMembersIn(links, links[k].from, k);
    }
  }

  /** The second pass for one group: the q-th of its n members gets the
      offset FanOffset(q, n), which is the offset LinkOffset assigns it. */
  method AssignFan(links: seq<Link>, key: Endpoint, members: seq<nat>, offsets0: map<string, real>)
    returns (offsets: map<string, real>)
    requires members == FanMembers(links, key)
    ensures forall id :: id in offsets <==>
      id in offsets0 || exists j :: 0 <= j < |links| && links[j].from == key && links[j].id == id
    ensures UniqueIds(links) ==> forall j :: 0 <= j < |links| && links[j].from != key && links[j].id in offsets0 ==>
      links[j].id in offsets && offsets[links[j].id] == offsets0[links[j].id]
    ensures UniqueIds(links) ==> forall j :: 0 <= j < |links| && links[j].from == key ==>
      links[j].id in offsets && offsets[links[j].id] == LinkOffset(links, j)
  {
    FanMembersShape(links, key);
    offsets := offsets0;
    var total := |members|;
    var p := 0;
    while p < total
      invariant 0 <= p <= total
      invariant forall id :: id in offsets <==> id in offsets0 || exists q :: 0 <= q < p && links[members[q]].id == id
      invariant UniqueIds(links) ==> forall j :: 0 <= j < |links| && links[j].from != key && links[j].id in offsets0 ==>
        links[j].id in offsets && offsets[links[j].id] == offsets0[links[j].id]
      invariant UniqueIds(links) ==> forall q :: 0 <= q < p ==>
        links[members[q]].id in offsets && offsets[links[members[q]].id] == FanOffset(q, total)
    {
      var m := members[p];
      offsets := offsets[links[m].id := FanOffset(p, total)];
      p := p + 1;
    }
    forall id | id in offsets
      ensures id in offsets0 || exists j :: 0 <= j < |links| && links[j].from == key && links[j].id == id
    {
      if id !in offsets0 {
        var q :| 0 <= q < p && links[members[q]].id == id;
        var j := members[q];
        assert links[j].from == key && links[j].id == id;
      }
    }
    forall j | 0 <= j < |links| && links[j].from == key
      ensures links[j].id in offsets
      ensures UniqueIds(links) ==> offsets[links[j].id] == LinkOffset(links, j)
    {
      var q := FanCount(links[..j], key);
      assert members[q] == j;
    }
  }

  /** linkOffsets: links are grouped by the endpoint they leave from, then
      the i-th link of a group of n gets the offset (i - (n - 1) / 2) * 16.
      The map is keyed by link id. */
  method LinkOffsets(links: seq<Link>) returns (offsets: map<string, real>)
    ensures offsets.Keys == set l | l in links :: l.id
    ensures UniqueIds(links) ==>
      forall j :: 0 <= j < |links| ==> offsets[links[j].id] == LinkOffset(links, j)
  {
    var order, fans := GroupByEndpoint(links);
    offsets := map[];
    ghost var done: set<Endpoint> := {};
    var g := 0;
    while g < |order|
      invariant 0 <= g <= |order|
      invariant forall k :: 0 <= k < g ==> order[k] in done
      invariant offsets.Keys == set j | 0 <= j < |links| && links[j].from in done :: links[j].id
      invariant UniqueIds(links) ==>
        forall j :: 0 <= j < |links| && links[j].from in done ==> offsets[links[j].id] == LinkOffset(links, j)
    {
      var key := order[g];
      offsets := AssignFan(links, key, fans[key], offsets);
      done := done + {key};
      g := g + 1;
    }
    forall j | 0 <= j < |links|
      ensures links[j].from in done
    {
      var k :| 0 <= k < |order| && order[k] == links[j].from;
    }
  }

  /** Links leaving from the same endpoint are spread 16 apart in list
      order: a later link of the fan sits 16 per intervening member further. */
  lemma {:induction false} FanSpread(links: seq<Link>, j: nat, j': nat)
    requires j < j' < |links| && links[j].from == links[j'].from
    ensures LinkOffset(links, j') - LinkOffset(links, j)
         == FanSpacing * (FanCount(links[..j'], links[j].from) - FanCount(links[..j], links[j].from)) as real
    ensures LinkOffset(links, j') - LinkOffset(links, j) >= FanSpacing
  {
    FanMembersShape(links, links[j].from);
    var e := links[j].from;
    var ms := FanMembers(links, e);
  }

  /** A link alone on its anchor is not shifted. */
  lemma {:induction false} LoneLinkCentred(links: seq<Link>, j: nat)
    requires j < |links| && FanCount(links, links[j].from) == 1
    ensures LinkOffset(links, j) == 0.0
  {
    FanMembersShape(links, links[j].from);
  }

  /** The sum of the first k offsets of a fan of n. */
  function FanOffsetSum(k: nat, n: int): real {
    if k == 0 then 0.0 else FanOffsetSum(k - 1, n) + FanOffset(k - 1, n)
  }

  lemma {:induction false} FanOffsetSumClosed(k: nat, n: int)
    ensures FanOffsetSum(k, n) == 8.0 * (k as real) * ((k as real) - (n as real))
  {
    if k > 0 {
      FanOffsetSumClosed(k - 1, n);
    }
  }

  /** A fan is centred: its offsets are symmetric about 0 and sum to 0. */
  lemma {:induction false} FanCentred(n: nat, i: int)
    requires 0 <= i < n
    ensures FanOffset(i, n) == -FanOffset(n - 1 - i, n)
    ensures FanOffset(i + 1, n) - FanOffset(i, n) == FanSpacing
    ensures FanOffsetSum(n, n) == 0.0
  {
    FanOffsetSumClosed(n, n);
  }

  // ------------------------------------------------------ animation sync cycle

  /** The duration a link animates with, or None for a still link; a missing
      animation means flow, a missing duration the kind's default. */
  function AnimatedDuration(l: Link): Option<real> {
    if l.animation.GetOr(Flow) == NoAnimation then None
    else Some(l.animationDuration.GetOr(if l.animation == Some(Light) then LightDuration else FlowDuration))
  }

  predicate HasPositiveDuration(l: Link) {
    AnimatedDuration(l).Some? && AnimatedDuration(l).value > 0.0
  }

  /** The positive durations of the animated links, in list order. */
  function SyncDurations(links: seq<Link>): (ds: seq<real>)
    ensures forall d :: d in ds <==> exists l :: l in links && HasPositiveDuration(l) && AnimatedDuration(l).value == d
  {
    if links == [] then []
    else
      var rest := SyncDurations(links[1..]);
      assert forall l :: l in links <==> l == links[0] || l in links[1..];
      if HasPositiveDuration(links[0]) then [AnimatedDuration(links[0]).value] + rest else rest
  }

  function MaxOf(s: seq<real>): (m: real)
    requires s != []
    ensures m in s && forall x :: x in s ==> x <= m
  {
    if |s| == 1 then s[0]
    else
      var rest := MaxOf(s[1..]);
      assert forall x :: x in s <==> x == s[0] || x in s[1..];
      Max(s[0], rest)
  }

  /** animationSyncDuration: the longest positive duration among animated
      links, so that every link's cycle fits in the shared one; 2.8 seconds
      when no link animates with a positive duration. */
  function AnimationSyncDuration(links: seq<Link>): (d: real)
    ensures d > 0.0
    ensures forall l :: l in links && HasPositiveDuration(l) ==> AnimatedDuration(l).value <= d
    ensures (exists l :: l in links && HasPositiveDuration(l)) ==>
              exists l :: l in links && HasPositiveDuration(l) && AnimatedDuration(l).value == d
    ensures (forall l :: l in links ==> !HasPositiveDuration(l)) ==> d == FlowDuration
  {
    var ds := SyncDurations(links);
    assert forall l :: l in links && HasPositiveDuration(l) ==> AnimatedDuration(l).value in ds;
    if ds == [] then FlowDuration
    else
      var m := MaxOf(ds);
      assert m in ds && ds[0] in ds;
      m
  }

  // -------------------------------------------------------- placement of new items

  const NewNodeW: real := 150.0
  const NewNodeH: real := 40.0
  const NewGroupW: real := 300.0
  const NewGroupH: real := 200.0
  /** New items keep this far from the canvas border. */
  const PlacementMargin: real := 24.0

  /** Where handleAddNode puts a new node when `count` nodes exist: a
      diagonal step of (36, 28) per existing node, folded back into the
      canvas, then clamped 24 away from its border. */
  function NewNodePosition(count: nat): (p: Point)
    ensures PlacementMargin <= p.x && p.x + NewNodeW <= CanvasWidth - PlacementMargin
    ensures PlacementMargin <= p.y && p.y + NewNodeH <= CanvasHeight - PlacementMargin
  {
    var baseX := 180 + (count * 36) % (1600 - 150 - 40);
    var baseY := 140 + (count * 28) % (900 - 40 - 40);
    Point(Clamp(baseX as real, PlacementMargin, CanvasWidth - NewNodeW - PlacementMargin),
          Clamp(baseY as real, PlacementMargin, CanvasHeight - NewNodeH - PlacementMargin))
  }

  /** The same for handleAddGroup: steps of (40, 30). */
  function NewGroupPosition(count: nat): (p: Point)
    ensures PlacementMargin <= p.x && p.x + NewGroupW <= CanvasWidth - PlacementMargin
    ensures PlacementMargin <= p.y && p.y + NewGroupH <= CanvasHeight - PlacementMargin
  {
    var baseX := 260 + (count * 40) % (1600 - 300 - 40);
    var baseY := 120 + (count * 30) % (900 - 200 - 40);
    Point(Clamp(baseX as real, PlacementMargin, CanvasWidth - NewGroupW - PlacementMargin),
          Clamp(baseY as real, PlacementMargin, CanvasHeight - NewGroupH - PlacementMargin))
  }

  /** Until the offset folds or hits the clamp, each new node lands one
      step down and right of the previous one. */
  lemma {:induction false} NewNodeSteps(count: nat)
    requires count < 24
    ensures NewNodePosition(count + 1) == Point(NewNodePosition(count).x + 36.0, NewNodePosition(count).y + 28.0)
  {
    assert (count * 36) % 1410 == count * 36;
    assert ((count + 1) * 36) % 1410 == (count + 1) * 36;
    assert (count * 28) % 820 == count * 28;
    assert ((count + 1) * 28) % 820 == (count + 1) * 28;
  }

  lemma {:induction false} NewGroupSteps(count: nat)
    requires count < 18
    ensures NewGroupPosition(count + 1) == Point(NewGroupPosition(count).x + 40.0, NewGroupPosition(count).y + 30.0)
  {
    assert (count * 40) % 1260 == count * 40;
    assert ((count + 1) * 40) % 1260 == (count + 1) * 40;
    assert (count * 30) % 660 == count * 30;
    assert ((count + 1) * 30) % 660 == (count + 1) * 30;
  }

  /** The placement does not avoid stacking in general: once folded and
      clamped, the 114th and 115th nodes land on the same spot. */
  lemma {:induction false} NewNodePlacementRepeats()
    ensures NewNodePosition(113) == NewNodePosition(114)
  {
    assert (113 * 36) % 1410 == 1248 && (114 * 36) % 1410 == 1284;
    assert (113 * 28) % 820 == 704 && (114 * 28) % 820 == 732;
  }

  // --------------------------------------------------------- import normalisation

  /** A link endpoint as read from an imported document: kind may be absent. */
  datatype EndpointRecord = EndpointRecord(kind: Option<Kind>, id: string, anchor: Anchor)

  /** A link as read from an imported document. */
  datatype LinkRecord = LinkRecord(
    id: string, from: EndpointRecord, to: EndpointRecord,
    tone: Option<Tone>, color: Option<string>, caption: Option<string>,
    animation: Option<Animation>, animationDuration: Option<real>,
    animationDirection: Option<Direction>)

  /** An entry of an imported document's link array: a link record, or an
      entry that is null or whose `from` or `to` is missing or null, so that
      reading its kind fails. */
  datatype LinkEntry = Entry(record: LinkRecord) | Unreadable

  /** The records of a link array, when every entry is readable. */
  function Readable(entries: seq<LinkEntry>): (r: Option<seq<LinkRecord>>)
    ensures r.Some? <==> forall e :: e in entries ==> e.Entry?
    ensures r.Some? ==> |r.value| == |entries| && forall i :: 0 <= i < |entries| ==> entries[i] == Entry(r.value[i])
  {
    if entries == [] then Some([])
    else
      var rest := Readable(entries[1..]);
      if entries[0].Unreadable? then
        assert entries[0] in entries;
        None
      else if rest.None? then
        var e :| e in entries[1..] && !e.Entry?;
        assert e in entries;
        None
      else Some([entries[0].record] + rest.value)
  }

  function NormalizeEndpoint(r: EndpointRecord): (e: Endpoint)
    ensures e.id == r.id && e.anchor == r.anchor
    ensures r.kind.Some? ==> e.kind == r.kind.value
    ensures r.kind.None? ==> e.kind == NodeKind
  {
    Endpoint(r.kind.GetOr(NodeKind), r.id, r.anchor)
  }

  /** Import keeps every field and fills in endpoint kind "node" and
      animation "flow" where the document leaves them out. */
  function NormalizeLink(r: LinkRecord): (l: Link)
    ensures l.id == r.id && l.tone == r.tone && l.color == r.color && l.caption == r.caption
    ensures l.animationDuration == r.animationDuration && l.animationDirection == r.animationDirection
    ensures l.from == NormalizeEndpoint(r.from) && l.to == NormalizeEndpoint(r.to)
    ensures l.animation.Some? && (r.animation.Some? ==> l.animation == r.animation)
    ensures r.animation.None? ==> l.animation == Some(Flow)
  {
    Link(r.id, NormalizeEndpoint(r.from), NormalizeEndpoint(r.to), r.tone, r.color, r.caption,
         Some(r.animation.GetOr(Flow)), r.animationDuration, r.animationDirection)
  }

  /** The record the JSON export writes for a link (every field as is). */
  function ExportLink(l: Link): LinkRecord {
    LinkRecord(l.id, EndpointRecord(Some(l.from.kind), l.from.id, l.from.anchor),
               EndpointRecord(Some(l.to.kind), l.to.id, l.to.anchor),
               l.tone, l.color, l.caption, l.animation, l.animationDuration, l.animationDirection)
  }

  function ImportLinks(records: seq<LinkRecord>): (links: seq<Link>)
    ensures |links| == |records|
    ensures forall i :: 0 <= i < |records| ==> links[i] == NormalizeLink(records[i])
  {
    seq(|records|, i requires 0 <= i < |records| => NormalizeLink(records[i]))
  }

  function ExportLinks(links: seq<Link>): (records: seq<LinkRecord>)
    ensures |records| == |links|
    ensures forall i :: 0 <= i < |links| ==> records[i] == ExportLink(links[i])
  {
    seq(|links|, i requires 0 <= i < |links| => ExportLink(links[i]))
  }

  /** Exporting then importing gives back every link that carries an
      animation kind, which every link created or imported by the editor
      does; and importing is idempotent across such a round trip. */
  lemma {:induction false} LinkRoundTrip(links: seq<Link>, records: seq<LinkRecord>)
    ensures (forall l :: l in links ==> l.animation.Some?) ==> ImportLinks(ExportLinks(links)) == links
    ensures ImportLinks(ExportLinks(ImportLinks(records))) == ImportLinks(records)
  {
  }
}
