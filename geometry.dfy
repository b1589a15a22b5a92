/** The geometry kernel of the diagram editor: axis-aligned boxes on the
    1600 x 900 canvas, side anchors, shape outlines, resize-edge hit-testing
    and the orthogonal ("elbow") link route. Every function is pure.
    Coordinates are exact reals: the source only compares, takes minima and
    maxima, clamps, scales by constants and halves. */
module Geometry {

  const CanvasWidth: real := 1600.0
  const CanvasHeight: real := 900.0
  /** How close to an edge a press must be to grab it for resizing. */
  const ResizeMargin: real := 6.0
  /** The lane of an elbow route keeps this far from the canvas border. */
  const LaneMargin: real := 12.0
  /** Longest first and last leg of an elbow route. */
  const MaxStub: real := 32.0

  datatype Point = Point(x: real, y: real)

  /** A rectangle by its top-left corner and its size. */
  datatype Box = Box(x: real, y: real, w: real, h: real) {
    function Right(): real { x + w }
    function Bottom(): real { y + h }
    function Center(): Point { Point(x + w / 2.0, y + h / 2.0) }
  }

  datatype Anchor = Left | Right | Top | Bottom

  datatype AnchorPair = AnchorPair(from: Anchor, to: Anchor)

  /** The ten outline kinds a node or group can take. */
  datatype ShapeKind =
    | Rect | Rounded | Pill | Diamond | Hexagon
    | Trapezoid | Ellipse | Cut | Angled | Ticket

  /** Which sides of a box a press is grabbing. */
  datatype Edges = Edges(left: bool, right: bool, top: bool, bottom: bool) {
    predicate Any() { left || right || top || bottom }
    predicate Horizontal() { left || right }
    predicate Vertical() { top || bottom }
  }

  const NoEdges := Edges(false, false, false, false)

  /** The cursors resizeCursorForEdges chooses from. */
  datatype ResizeCursor = DefaultCursor | EwResize | NsResize | NwseResize | NeswResize

  function Abs(v: real): real { if v < 0.0 then -v else v }
  function Min(a: real, b: real): real { if a <= b then a else b }
  function Max(a: real, b: real): real { if a >= b then a else b }

  /** The point lies in the closed box (borders included, as in the source). */
  predicate Contains(b: Box, p: Point) {
    b.x <= p.x <= b.x + b.w && b.y <= p.y <= b.y + b.h
  }

  /** m lies between a and b, whichever is larger. */
  predicate Between(a: real, m: real, b: real) {
    Min(a, b) <= m <= Max(a, b)
  }

  /** Four coordinates in the order met along a path never turn back. */
  predicate Monotone(a: real, b: real, c: real, d: real) {
    (a <= b <= c <= d) || (a >= b >= c >= d)
  }

  /** `Math.min(Math.max(value, lo), hi)`: the nearest point of [lo, hi], and
      `hi` when the interval is empty. */
  function Clamp(value: real, lo: real, hi: real): (r: real)
    ensures r <= hi
    ensures lo <= hi ==> lo <= r
    ensures lo <= value <= hi ==> r == value
    ensures value < lo <= hi ==> r == lo
    ensures hi < value || hi < lo ==> r == hi
  {
    Min(Max(value, lo), hi)
  }

  lemma {:induction false} ClampIdempotent(value: real, lo: real, hi: real)
    ensures Clamp(Clamp(value, lo, hi), lo, hi) == Clamp(value, lo, hi)
  {
  }

  lemma {:induction false} ClampMonotone(v: real, v': real, lo: real, hi: real)
    requires v <= v'
    ensures Clamp(v, lo, hi) <= Clamp(v', lo, hi)
  {
  }

  /** The point of `b`'s border a link attached to side `anchor` starts from. */
  predicate OnSide(b: Box, anchor: Anchor, p: Point) {
    match anchor
    case Left => p.x == b.x
    case Right => p.x == b.x + b.w
    case Top => p.y == b.y
    case Bottom => p.y == b.y + b.h
  }

  function AnchorPoint(b: Box, anchor: Anchor): (p: Point)
    ensures OnSide(b, anchor, p)
    ensures anchor.Left? || anchor.Right? ==> p.y - b.y == b.y + b.h - p.y
    ensures anchor.Top? || anchor.Bottom? ==> p.x - b.x == b.x + b.w - p.x
    ensures b.w >= 0.0 && b.h >= 0.0 ==> Contains(b, p)
  {
    match anchor
    case Left => Point(b.x, b.y + b.h / 2.0)
    case Right => Point(b.x + b.w, b.y + b.h / 2.0)
    case Top => Point(b.x + b.w / 2.0, b.y)
    case Bottom => Point(b.x + b.w / 2.0, b.y + b.h)
  }

  function Opposite(a: Anchor): Anchor {
    match a
    case Left => Right
    case Right => Left
    case Top => Bottom
    case Bottom => Top
  }

  /** The side of `b` that faces `p`: the axis with the larger distance from
      the centre wins, a tie goes to left/right, and a zero distance counts
      as positive. */
  function AnchorTowardPoint(b: Box, p: Point): (a: Anchor)
    ensures var dx, dy := p.x - b.Center().x, p.y - b.Center().y;
      && (a == Right <==> Abs(dx) >= Abs(dy) && dx >= 0.0)
      && (a == Left <==> Abs(dx) >= Abs(dy) && dx < 0.0)
      && (a == Bottom <==> Abs(dx) < Abs(dy) && dy >= 0.0)
      && (a == Top <==> Abs(dx) < Abs(dy) && dy < 0.0)
  {
    var c := b.Center();
    var dx, dy := p.x - c.x, p.y - c.y;
    if Abs(dx) >= Abs(dy) then
      (if dx >= 0.0 then Right else Left)
    else
      (if dy >= 0.0 then Bottom else Top)
  }

  /** The anchor pair for a link drawn from box `a` to box `b`, decided by
      the offset between their centres. */
  function ResolveAnchors(a: Box, b: Box): (r: AnchorPair)
    ensures r.to == Opposite(r.from)
    ensures var dx, dy := b.Center().x - a.Center().x, b.Center().y - a.Center().y;
      && (r.from == Right <==> Abs(dx) >= Abs(dy) && dx >= 0.0)
      && (r.from == Left <==> Abs(dx) >= Abs(dy) && dx < 0.0)
      && (r.from == Bottom <==> Abs(dx) < Abs(dy) && dy >= 0.0)
      && (r.from == Top <==> Abs(dx) < Abs(dy) && dy < 0.0)
  {
    var ca, cb := a.Center(), b.Center();
    var dx, dy := cb.x - ca.x, cb.y - ca.y;
    if Abs(dx) >= Abs(dy) then
      AnchorPair(if dx >= 0.0 then Right else Left, if dx >= 0.0 then Left else Right)
    else
      AnchorPair(if dy >= 0.0 then Bottom else Top, if dy >= 0.0 then Top else Bottom)
  }

  /** Resolving the anchors is the preview rule applied at both ends: each
      box's anchor is the side facing the other box's centre (when the
      centres differ; with equal centres both rules answer Right). */
  lemma {:induction false} ResolveAnchorsFaceEachOther(a: Box, b: Box)
    requires a.Center() != b.Center()
    ensures ResolveAnchors(a, b).from == AnchorTowardPoint(a, b.Center())
    ensures ResolveAnchors(a, b).to == AnchorTowardPoint(b, a.Center())
  {
  }

  /** Drawing the link the other way round swaps the anchors. */
  lemma {:induction false} ResolveAnchorsMirror(a: Box, b: Box)
    requires a.Center() != b.Center()
    ensures ResolveAnchors(b, a) == AnchorPair(ResolveAnchors(a, b).to, ResolveAnchors(a, b).from)
  {
  }

  /** The anchor point of a side faces back towards that side. */
  lemma {:induction false} AnchorTowardAnchorPoint(b: Box, anchor: Anchor)
    requires b.w > 0.0 && b.h > 0.0
    ensures AnchorTowardPoint(b, AnchorPoint(b, anchor)) == anchor
  {
  }

  // ---------------------------------------------------------------- outlines

  /** The number of vertices of a shape's outline; rect, rounded, pill and
      ellipse are drawn as native primitives and get no path. */
  function VertexCount(shape: ShapeKind): nat {
    match shape
    case Rect => 0
    case Rounded => 0
    case Pill => 0
    case Ellipse => 0
    case Diamond => 4
    case Hexagon => 6
    case Trapezoid => 4
    case Cut => 8
    case Angled => 4
    case Ticket => 10
  }

  /** The closed polygon outlining `shape` in box `b`, as its vertex list.
      Every inset is a fixed fraction of the box size. */
  function ShapePath(shape: ShapeKind, b: Box): (outline: seq<Point>)
    ensures |outline| == VertexCount(shape)
  {
    var x, y, w, h := b.x, b.y, b.w, b.h;
    var right, bottom := x + w, y + h;
    var cx, cy := x + w / 2.0, y + h / 2.0;
    var hexInset := Min(w * 0.18, h * 0.3);
    var trapInset := Min(w * 0.18, h * 0.35);
    var cut := Min(w, h) * 0.18;
    var slant := Min(w * 0.16, h * 0.45);
    var notch := Min(h * 0.18, w * 0.12);
    match shape
    case Diamond =>
      [Point(cx, y), Point(right, cy), Point(cx, bottom), Point(x, cy)]
    case Hexagon =>
      [Point(x + hexInset, y), Point(right - hexInset, y), Point(right, cy),
       Point(right - hexInset, bottom), Point(x + hexInset, bottom), Point(x, cy)]
    case Trapezoid =>
      [Point(x + trapInset, y), Point(right - trapInset, y), Point(right, bottom), Point(x, bottom)]
    case Cut =>
      [Point(x + cut, y), Point(right - cut, y), Point(right, y + cut), Point(right, bottom - cut),
       Point(right - cut, bottom), Point(x + cut, bottom), Point(x, bottom - cut), Point(x, y + cut)]
    case Angled =>
      [Point(x + slant, y), Point(right, y), Point(right - slant, bottom), Point(x, bottom)]
    case Ticket =>
      [Point(x, y), Point(right, y), Point(right, cy - notch), Point(right - notch, cy),
       Point(right, cy + notch), Point(right, bottom), Point(x, bottom), Point(x, cy + notch),
       Point(x + notch, cy), Point(x, cy - notch)]
    case _ => []
  }

  /** The outline stays inside the box and touches each of its four sides. */
  predicate Inscribed(b: Box, outline: seq<Point>) {
    && (forall i :: 0 <= i < |outline| ==> Contains(b, outline[i]))
    && (exists i :: 0 <= i < |outline| && outline[i].x == b.x)
    && (exists i :: 0 <= i < |outline| && outline[i].x == b.x + b.w)
    && (exists i :: 0 <= i < |outline| && outline[i].y == b.y)
    && (exists i :: 0 <= i < |outline| && outline[i].y == b.y + b.h)
  }

  /** Every vertex of the outline lies in the box. */
  predicate Inside(b: Box, outline: seq<Point>) {
    forall i :: 0 <= i < |outline| ==> Contains(b, outline[i])
  }

  /** Every vertex lies in the box: each inset is at most a fraction of
      the box's width and height. */
  lemma {:induction false} ShapePathInside(shape: ShapeKind, b: Box)
    requires b.w >= 0.0 && b.h >= 0.0
    ensures Inside(b, ShapePath(shape, b))
  {
    match shape
    case Diamond => DiamondInside(b);
    case Hexagon => HexagonInside(b);
    case Trapezoid => TrapezoidInside(b);
    case Cut => CutInside(b);
    case Angled => AngledInside(b);
    case Ticket => TicketInside(b);
    case _ =>
  }

  lemma {:induction false} DiamondInside(b: Box)
    requires b.w >= 0.0 && b.h >= 0.0
    ensures Inside(b, ShapePath(Diamond, b))
  {
  }

  lemma {:induction false} HexagonInside(b: Box)
    requires b.w >= 0.0 && b.h >= 0.0
    ensures Inside(b, ShapePath(Hexagon, b))
  {
  }

  lemma {:induction false} TrapezoidInside(b: Box)
    requires b.w >= 0.0 && b.h >= 0.0
    ensures Inside(b, ShapePath(Trapezoid, b))
  {
  }

  lemma {:induction false} CutInside(b: Box)
    requires b.w >= 0.0 && b.h >= 0.0
    ensures Inside(b, ShapePath(Cut, b))
  {
  }

  lemma {:induction false} AngledInside(b: Box)
    requires b.w >= 0.0 && b.h >= 0.0
    ensures Inside(b, ShapePath(Angled, b))
  {
  }

  lemma {:induction false} TicketInside(b: Box)
    requires b.w >= 0.0 && b.h >= 0.0
    ensures Inside(b, ShapePath(Ticket, b))
  {
  }

  lemma {:induction false} ShapePathInscribed(shape: ShapeKind, b: Box)
    requires b.w >= 0.0 && b.h >= 0.0
    requires VertexCount(shape) > 0
    ensures Inscribed(b, ShapePath(shape, b))
  {
    var o := ShapePath(shape, b);
    ShapePathInside(shape, b);
    match shape
    case Diamond =>
      assert o[3].x == b.x && o[1].x == b.x + b.w && o[0].y == b.y && o[2].y == b.y + b.h;
    case Hexagon =>
      assert o[5].x == b.x && o[2].x == b.x + b.w && o[0].y == b.y && o[3].y == b.y + b.h;
    case Trapezoid =>
      assert o[3].x == b.x && o[2].x == b.x + b.w && o[0].y == b.y && o[2].y == b.y + b.h;
    case Cut =>
      assert o[6].x == b.x && o[2].x == b.x + b.w && o[0].y == b.y && o[4].y == b.y + b.h;
    case Angled =>
      assert o[3].x == b.x && o[1].x == b.x + b.w && o[0].y == b.y && o[2].y == b.y + b.h;
    case Ticket =>
      assert o[0].x == b.x && o[1].x == b.x + b.w && o[0].y == b.y && o[5].y == b.y + b.h;
  }

  // ------------------------------------------------------------- resize edges

  /** The edges a press at `p` grabs: an edge counts when the press is inside
      the box and within `margin` of it; of two opposite edges only the nearer
      one counts, a tie going to left (or top). */
  function GetResizeEdges(b: Box, p: Point, margin: real): (e: Edges)
    ensures !Contains(b, p) ==> e == NoEdges
    ensures !(e.left && e.right) && !(e.top && e.bottom)
    ensures e.left <==>
      Contains(b, p) && Abs(p.x - b.x) <= margin && Abs(p.x - b.x) <= Abs(b.x + b.w - p.x)
    ensures e.right <==>
      Contains(b, p) && Abs(b.x + b.w - p.x) <= margin && Abs(b.x + b.w - p.x) < Abs(p.x - b.x)
    ensures e.top <==>
      Contains(b, p) && Abs(p.y - b.y) <= margin && Abs(p.y - b.y) <= Abs(b.y + b.h - p.y)
    ensures e.bottom <==>
      Contains(b, p) && Abs(b.y + b.h - p.y) <= margin && Abs(b.y + b.h - p.y) < Abs(p.y - b.y)
  {
    var distLeft := Abs(p.x - b.x);
    var distRight := Abs(b.x + b.w - p.x);
    var distTop := Abs(p.y - b.y);
    var distBottom := Abs(b.y + b.h - p.y);
    var withinX := p.x >= b.x && p.x <= b.x + b.w;
    var withinY := p.y >= b.y && p.y <= b.y + b.h;
    if !withinX || !withinY then NoEdges
    else
      var horizontal := Min(distLeft, distRight) <= margin;
      var vertical := Min(distTop, distBottom) <= margin;
      Edges(
        horizontal && distLeft <= distRight,
        horizontal && !(distLeft <= distRight),
        vertical && distTop <= distBottom,
        vertical && !(distTop <= distBottom))
  }

  /** The cursor for a set of grabbed edges: a corner on the main diagonal
      (left+top, right+bottom) gets nwse, the other corners nesw, a single
      axis ew or ns, nothing the default. */
  function ResizeCursorForEdges(e: Edges): (c: ResizeCursor)
    ensures c == DefaultCursor <==> !e.Any()
    ensures c == EwResize <==> e.Horizontal() && !e.Vertical()
    ensures c == NsResize <==> !e.Horizontal() && e.Vertical()
    ensures c == NwseResize <==> (e.left && e.top) || (e.right && e.bottom)
    ensures c == NeswResize <==>
      e.Horizontal() && e.Vertical() && !((e.left && e.top) || (e.right && e.bottom))
  {
    var horizontal := e.left || e.right;
    var vertical := e.top || e.bottom;
    if horizontal && vertical then
      (if (e.left && e.top) || (e.right && e.bottom) then NwseResize else NeswResize)
    else if horizontal then EwResize
    else if vertical then NsResize
    else DefaultCursor
  }

  /** Pressing a corner of a box larger than the margin shows the diagonal
      resize cursor of that corner; pressing the middle of a side shows the
      cursor of that axis. */
  lemma {:induction false} CornerAndSideCursors(b: Box)
    requires b.w > 2.0 * ResizeMargin && b.h > 2.0 * ResizeMargin
    ensures ResizeCursorForEdges(GetResizeEdges(b, Point(b.x, b.y), ResizeMargin)) == NwseResize
    ensures ResizeCursorForEdges(GetResizeEdges(b, Point(b.x + b.w, b.y + b.h), ResizeMargin)) == NwseResize
    ensures ResizeCursorForEdges(GetResizeEdges(b, Point(b.x + b.w, b.y), ResizeMargin)) == NeswResize
    ensures ResizeCursorForEdges(GetResizeEdges(b, Point(b.x, b.y + b.h), ResizeMargin)) == NeswResize
    ensures ResizeCursorForEdges(GetResizeEdges(b, AnchorPoint(b, Left), ResizeMargin)) == EwResize
    ensures ResizeCursorForEdges(GetResizeEdges(b, AnchorPoint(b, Top), ResizeMargin)) == NsResize
    ensures ResizeCursorForEdges(GetResizeEdges(b, b.Center(), ResizeMargin)) == DefaultCursor
  {
  }

  // ------------------------------------------------------------ elbow routing

  /** The direction (+1 or -1) from coordinate a towards coordinate b. */
  function Dir(a: real, b: real): real { if a <= b then 1.0 else -1.0 }

  /** The length of the first and last leg between coordinates a and b. */
  function Stub(a: real, b: real): real { Min(MaxStub, Abs(b - a) / 2.0) }

  /** The lane coordinate: the start shifted by the fan-out offset, kept
      LaneMargin away from the canvas border of length `extent`. */
  function Lane(start: real, offset: real, extent: real): real {
    Clamp(start + offset, LaneMargin, extent - LaneMargin)
  }

  /** The orthogonal route from `from` to `to` as its six points (five
      segments): a stub along the main axis, a turn onto a shared lane at
      the fan-out offset, the lane, a turn, and a stub into `to`.
      Horizontal-first routes leave horizontally; the other kind is the
      transpose. */
  function ElbowPath(from: Point, to: Point, offset: real, horizontalFirst: bool): (path: seq<Point>)
    ensures |path| == 6 && path[0] == from && path[5] == to
    ensures horizontalFirst ==>
      && path[0].y == path[1].y && path[1].x == path[2].x && path[2].y == path[3].y
      && path[3].x == path[4].x && path[4].y == path[5].y
      && LaneMargin <= path[2].y <= CanvasHeight - LaneMargin
      && path[2].y == Clamp(from.y + offset, LaneMargin, CanvasHeight - LaneMargin)
      && Abs(path[1].x - from.x) == Min(MaxStub, Abs(to.x - from.x) / 2.0)
      && Abs(to.x - path[4].x) == Min(MaxStub, Abs(to.x - from.x) / 2.0)
      && Monotone(from.x, path[1].x, path[4].x, to.x)
    ensures !horizontalFirst ==>
      && path[0].x == path[1].x && path[1].y == path[2].y && path[2].x == path[3].x
      && path[3].y == path[4].y && path[4].x == path[5].x
      && LaneMargin <= path[2].x <= CanvasWidth - LaneMargin
      && path[2].x == Clamp(from.x + offset, LaneMargin, CanvasWidth - LaneMargin)
      && Abs(path[1].y - from.y) == Min(MaxStub, Abs(to.y - from.y) / 2.0)
      && Abs(to.y - path[4].y) == Min(MaxStub, Abs(to.y - from.y) / 2.0)
      && Monotone(from.y, path[1].y, path[4].y, to.y)
  {
    if horizontalFirst then
      var dir, stub := Dir(from.x, to.x), Stub(from.x, to.x);
      var laneY := Lane(from.y, offset, CanvasHeight);
      [from, Point(from.x + dir * stub, from.y), Point(from.x + dir * stub, laneY),
       Point(to.x - dir * stub, laneY), Point(to.x - dir * stub, to.y), to]
    else
      var dir, stub := Dir(from.y, to.y), Stub(from.y, to.y);
      var laneX := Lane(from.x, offset, CanvasWidth);
      [from, Point(from.x, from.y + dir * stub), Point(laneX, from.y + dir * stub),
       Point(laneX, to.y - dir * stub), Point(to.x, to.y - dir * stub), to]
  }

  /** Where a link's label sits: the middle of the lane segment of its route. */
  function ElbowLabelPoint(from: Point, to: Point, offset: real, horizontalFirst: bool): (p: Point)
    ensures var path := ElbowPath(from, to, offset, horizontalFirst);
      && p.x == (path[2].x + path[3].x) / 2.0
      && p.y == (path[2].y + path[3].y) / 2.0
      && Between(path[2].x, p.x, path[3].x) && Between(path[2].y, p.y, path[3].y)
  {
    if horizontalFirst then
      var dir, stub := Dir(from.x, to.x), Stub(from.x, to.x);
      var laneY := Lane(from.y, offset, CanvasHeight);
      var x1, x2 := from.x + dir * stub, to.x - dir * stub;
      Point((x1 + x2) / 2.0, laneY)
    else
      var dir, stub := Dir(from.y, to.y), Stub(from.y, to.y);
      var laneX := Lane(from.x, offset, CanvasWidth);
      var y1, y2 := from.y + dir * stub, to.y - dir * stub;
      Point(laneX, (y1 + y2) / 2.0)
  }
}
