/**
 `offsetBox` of main.py: the four corners of an axis-aligned rectangle given its
 centre, its extent along x (`length`) and its extent along y (`width`), and the
 geometric vocabulary needed to say what those corners describe: the enclosing
 rectangle of a vertex list, point coverage, strict nesting, and the shoelace
 area of a closed polygon. Python floats are modelled as exact reals.
 */
module Boxes {

  /** A polygon vertex: the `(x, y)` tuple that `offsetBox` returns. */
  type Vertex = (real, real)

  function Abs(a: real): (r: real)
    ensures r >= 0.0 && (r == a || r == -a)
  {
    if a < 0.0 then -a else a
  }

  /** `pts` is a closed four-corner walk around the axis-aligned rectangle centred
      on `(cx, cy)` whose corners 0 and 2 are opposite: corners 0-1 and 2-3 lie on
      the same vertical line, corners 1-2 and 3-0 on the same horizontal line, the
      midpoint of corners 0 and 2 is the centre, and corner 2 lies `length` to the
      right of and `width` above corner 0. */
  predicate IsCentredBox(pts: seq<Vertex>, cx: real, cy: real, length: real, width: real)
  {
    && |pts| == 4
    && pts[0].0 == pts[1].0 && pts[2].0 == pts[3].0
    && pts[1].1 == pts[2].1 && pts[3].1 == pts[0].1
    && pts[0].0 + pts[2].0 == 2.0 * cx
    && pts[0].1 + pts[2].1 == 2.0 * cy
    && pts[2].0 - pts[0].0 == length
    && pts[2].1 - pts[0].1 == width
  }

  /** `offsetBox(cx, cy, length, width)`: the box centred on `(cx, cy)` with the
      given extents, listed as (x1, y1), (x1, y2), (x2, y2), (x2, y1). */
  function OffsetBox(cx: real, cy: real, length: real, width: real): (r: seq<Vertex>)
    ensures IsCentredBox(r, cx, cy, length, width)
  {
    var hl := length / 2.0;
    var hw := width / 2.0;
    var x1 := cx - hl;
    var x2 := cx + hl;
    var y1 := cy - hw;
    var y2 := cy + hw;
    [(x1, y1), (x1, y2), (x2, y2), (x2, y1)]
  }

  /** The centre-and-extent description determines the vertex list: `offsetBox` is
      the only list of four corners centred on `(cx, cy)` with these extents and
      this corner order. */
  lemma CentredBoxIsOffsetBox(pts: seq<Vertex>, cx: real, cy: real, length: real, width: real)
    ensures IsCentredBox(pts, cx, cy, length, width) <==> pts == OffsetBox(cx, cy, length, width)
  {
  }

  /** With non-negative extents the first corner is the lower-left and the third
      the upper-right one: `x1 <= x2` and `y1 <= y2`. */
  lemma OffsetBoxCornerOrder(cx: real, cy: real, length: real, width: real)
    requires length >= 0.0 && width >= 0.0
    ensures var b := OffsetBox(cx, cy, length, width);
      b[0].0 <= b[2].0 && b[0].1 <= b[2].1
  {
  }

  /** An edge from `p` to `q` is horizontal or vertical and not a single point:
      the two vertices share exactly one coordinate. */
  predicate AxisAlignedEdge(p: Vertex, q: Vertex)
  {
    (p.0 == q.0) != (p.1 == q.1)
  }

  /** The edge leaving vertex `i` of the closed polygon `pts` (towards vertex
      `i + 1`, wrapping round to vertex 0) is axis-aligned. */
  predicate EdgeAligned(pts: seq<Vertex>, i: nat)
    requires i < |pts|
  {
    AxisAlignedEdge(pts[i], pts[(i + 1) % |pts|])
  }

  /** Taken cyclically, every pair of consecutive vertices shares exactly one coordinate. */
  predicate IsRectilinear(pts: seq<Vertex>)
  {
    forall i: nat :: i < |pts| ==> EdgeAligned(pts, i)
  }

  /** The walk `offsetBox` returns alternates vertical and horizontal edges exactly
      when neither extent is zero; a zero extent collapses two of its edges to points. */
  lemma OffsetBoxRectilinear(cx: real, cy: real, length: real, width: real)
    ensures IsRectilinear(OffsetBox(cx, cy, length, width)) <==> length != 0.0 && width != 0.0
  {
    var b := OffsetBox(cx, cy, length, width);
    if length != 0.0 && width != 0.0 {
      forall i: nat | i < 4
        ensures EdgeAligned(b, i)
      {
        assert i == 0 || i == 1 || i == 2 || i == 3;
      }
    } else {
      assert !EdgeAligned(b, 0) || !EdgeAligned(b, 1);
    }
  }

  /** Twice the signed area contributed by the edges `pts[i] -> pts[i + 1]`, ...,
      `pts[|pts| - 1] -> pts[0]` of the closed polygon `pts` (the shoelace sum). */
  function ShoelaceFrom(pts: seq<Vertex>, i: nat): real
    requires i <= |pts|
    decreases |pts| - i
  {
    if i == |pts| then 0.0
    else
      var p := pts[i];
      var q := pts[(i + 1) % |pts|];
      (p.0 * q.1 - q.0 * p.1) + ShoelaceFrom(pts, i + 1)
  }

  /** The signed area of the closed polygon `pts`: positive for a counter-clockwise
      walk, negative for a clockwise one. */
  function SignedArea(pts: seq<Vertex>): real
  {
    ShoelaceFrom(pts, 0) / 2.0
  }

  /** Twice the signed area of a four-vertex polygon, written out. */
  lemma ShoelaceOfFour(pts: seq<Vertex>)
    requires |pts| == 4
    ensures ShoelaceFrom(pts, 0)
         == (pts[0].0 * pts[1].1 - pts[1].0 * pts[0].1)
          + (pts[1].0 * pts[2].1 - pts[2].0 * pts[1].1)
          + (pts[2].0 * pts[3].1 - pts[3].0 * pts[2].1)
          + (pts[3].0 * pts[0].1 - pts[0].0 * pts[3].1)
  {
    assert ShoelaceFrom(pts, 4) == 0.0;
    assert ShoelaceFrom(pts, 3) == pts[3].0 * pts[0].1 - pts[0].0 * pts[3].1;
    assert ShoelaceFrom(pts, 2) == (pts[2].0 * pts[3].1 - pts[3].0 * pts[2].1) + ShoelaceFrom(pts, 3);
    assert ShoelaceFrom(pts, 1) == (pts[1].0 * pts[2].1 - pts[2].0 * pts[1].1) + ShoelaceFrom(pts, 2);
  }

  /** The signed area of the walk `offsetBox` returns is minus `length * width`:
      the walk goes once round the whole rectangle, clockwise when
      `length * width > 0` and counter-clockwise when `length * width < 0`. */
  lemma OffsetBoxArea(cx: real, cy: real, length: real, width: real)
    ensures SignedArea(OffsetBox(cx, cy, length, width)) == -(length * width)
  {
    var b := OffsetBox(cx, cy, length, width);
    ShoelaceOfFour(b);
    var x1, x2, y1, y2 := b[0].0, b[2].0, b[0].1, b[2].1;
    assert ShoelaceFrom(b, 0)
        == (x1 * y2 - x1 * y1) + (x1 * y2 - x2 * y2) + (x2 * y1 - x2 * y2) + (x2 * y1 - x1 * y1);
    assert ShoelaceFrom(b, 0) == 2.0 * (x1 - x2) * (y2 - y1);
  }

  /** The corners of the same box visited in a crossing order (a bow tie) enclose
      no signed area, whatever the extents. */
  lemma CrossedOrderHasNoArea(cx: real, cy: real, length: real, width: real)
    ensures var b := OffsetBox(cx, cy, length, width);
      SignedArea([b[0], b[2], b[1], b[3]]) == 0.0 && SignedArea([b[0], b[1], b[3], b[2]]) == 0.0
  {
    var b := OffsetBox(cx, cy, length, width);
    ShoelaceOfFour([b[0], b[2], b[1], b[3]]);
    ShoelaceOfFour([b[0], b[1], b[3], b[2]]);
  }

  /** When neither extent is zero, `offsetBox`'s walk encloses non-zero signed
      area, so its order is neither of the two self-crossing orders of the same
      corners: it goes round the rectangle without crossing itself. */
  lemma OffsetBoxOrderDoesNotCross(cx: real, cy: real, length: real, width: real)
    requires length != 0.0 && width != 0.0
    ensures var b := OffsetBox(cx, cy, length, width);
      && SignedArea(b) != 0.0
      && SignedArea(b) != SignedArea([b[0], b[2], b[1], b[3]])
      && SignedArea(b) != SignedArea([b[0], b[1], b[3], b[2]])
  {
    OffsetBoxArea(cx, cy, length, width);
    CrossedOrderHasNoArea(cx, cy, length, width);
    assert length * width != 0.0;
  }

  /** A closed axis-aligned rectangle `[xmin, xmax] x [ymin, ymax]`. */
  datatype Rect = Rect(xmin: real, xmax: real, ymin: real, ymax: real)

  function Min(a: real, b: real): real { if a <= b then a else b }

  function Max(a: real, b: real): real { if a <= b then b else a }

  /** The smallest rectangle enclosing every vertex of `pts`: it contains each
      vertex, and each of its four sides touches one. */
  function Bounds(pts: seq<Vertex>): (r: Rect)
    requires |pts| > 0
    ensures forall i :: 0 <= i < |pts| ==>
      r.xmin <= pts[i].0 <= r.xmax && r.ymin <= pts[i].1 <= r.ymax
    ensures exists i :: 0 <= i < |pts| && pts[i].0 == r.xmin
    ensures exists i :: 0 <= i < |pts| && pts[i].0 == r.xmax
    ensures exists i :: 0 <= i < |pts| && pts[i].1 == r.ymin
    ensures exists i :: 0 <= i < |pts| && pts[i].1 == r.ymax
  {
    if |pts| == 1 then
      Rect(pts[0].0, pts[0].0, pts[0].1, pts[0].1)
    else
      var rest := Bounds(pts[1..]);
      assert forall i :: 1 <= i < |pts| ==> pts[i] == pts[1..][i - 1];
      Rect(Min(pts[0].0, rest.xmin), Max(pts[0].0, rest.xmax),
           Min(pts[0].1, rest.ymin), Max(pts[0].1, rest.ymax))
  }

  /** The point `p` lies in the closed rectangle `r`. */
  predicate Covers(r: Rect, p: Vertex)
  {
    r.xmin <= p.0 <= r.xmax && r.ymin <= p.1 <= r.ymax
  }

  /** `inner` lies in the interior of `outer`: no side of `inner` touches `outer`'s border. */
  predicate StrictlyInside(inner: Rect, outer: Rect)
  {
    outer.xmin < inner.xmin && inner.xmax < outer.xmax
    && outer.ymin < inner.ymin && inner.ymax < outer.ymax
  }

  /** The closed region of the rectangle centred on `(cx, cy)` with extents
      `length` along x and `width` along y, whatever their signs. */
  function Region(cx: real, cy: real, length: real, width: real): Rect
  {
    Rect(cx - Abs(length) / 2.0, cx + Abs(length) / 2.0,
         cy - Abs(width) / 2.0, cy + Abs(width) / 2.0)
  }

  /** The vertices `offsetBox` returns outline exactly that region: its enclosing
      rectangle is `[cx - |length|/2, cx + |length|/2] x [cy - |width|/2, cy + |width|/2]`. */
  lemma OffsetBoxBounds(cx: real, cy: real, length: real, width: real)
    ensures Bounds(OffsetBox(cx, cy, length, width)) == Region(cx, cy, length, width)
  {
  }

  /** Two boxes on the same centre nest strictly exactly when the inner one is
      narrower in both extents. */
  lemma ConcentricBoxesNest(cx: real, cy: real, l1: real, w1: real, l2: real, w2: real)
    ensures StrictlyInside(Region(cx, cy, l2, w2), Region(cx, cy, l1, w1))
        <==> Abs(l2) < Abs(l1) && Abs(w2) < Abs(w1)
  {
  }

  /** A box of height `upper` stacked on one of height `lower` (same x-centre and
      length, centres `(lower + upper) / 2` apart) touches it along exactly one
      segment: the lower box's top edge. */
  lemma StackedBoxesShareEdge(cx: real, cy: real, length: real, lower: real, upper: real)
    requires length >= 0.0 && lower >= 0.0 && upper >= 0.0
    ensures forall p ::
      (Covers(Region(cx, cy, length, lower), p)
       && Covers(Region(cx, cy + (lower + upper) / 2.0, length, upper), p))
      <==> (p.1 == cy + lower / 2.0 && cx - length / 2.0 <= p.0 <= cx + length / 2.0)
  {
  }
}
