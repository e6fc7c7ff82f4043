/** `circ` and `circfill` on a surface: which pixels each paints. */
module CircleDraw {
  import opened Numbers
  import opened Raster
  import opened Circle
  import opened Wrappers

  // ----- lists of plots ---------------------------------------------------------

  /** Points plotted in order with one colour. */
  ghost function PlotAll(cv: Canvas, pen: Pen, c: Colour, pts: seq<(int, int)>): (r: Canvas)
    requires cv.Valid() && pen.Ready(cv.width, cv.height)
    ensures r.Valid() && SameShape(cv, r)
  {
    if pts == [] then cv
    else
      var last := pts[|pts| - 1];
      Plot(PlotAll(cv, pen, c, pts[..|pts| - 1]), pen, last.0, last.1, c)
  }

  lemma PlotOneMore(cv: Canvas, pen: Pen, c: Colour, pts: seq<(int, int)>, x: int, y: int)
    requires cv.Valid() && pen.Ready(cv.width, cv.height)
    ensures PlotAll(cv, pen, c, pts + [(x, y)]) == Plot(PlotAll(cv, pen, c, pts), pen, x, y, c)
  {
    hide Plot;
    assert (pts + [(x, y)])[..|pts|] == pts;
  }

  /** A pixel after one plot of it. */
  ghost function Inked(pen: Pen, c: Colour, x: int, y: int, old_: byte): byte
    requires pen.table.Valid()
  {
    match pen.fillp.Pick(x, y)
    case Some(second) => pen.table.Lookup(if second then c.secondary else c.primary, old_)
    case None => old_
  }

  /** Plotting a pixel again changes nothing. */
  lemma InkTwice(pen: Pen, c: Colour, x: int, y: int, old_: byte)
    requires pen.table.Valid()
    ensures Inked(pen, c, x, y, Inked(pen, c, x, y, old_)) == Inked(pen, c, x, y, old_)
  {
    hide Fillp.Pick;
  }

  lemma PlotPixel(cv: Canvas, pen: Pen, c: Colour, x: int, y: int, px: int, py: int)
    requires cv.Valid() && pen.Ready(cv.width, cv.height) && cv.Has(px, py)
    ensures Plot(cv, pen, x, y, c).Pixel(px, py) ==
            if pen.clip.Contains(x, y) && x == px && y == py then Inked(pen, c, px, py, cv.Pixel(px, py))
            else cv.Pixel(px, py)
  {
    hide Table.Lookup, Fillp.Pick;
    if pen.clip.Contains(x, y) && cv.At(x, y) == cv.At(px, py) {
      IndexInjective(cv.width, x, y, px, py);
    }
  }

  /** A list of plots leaves a pixel inked once if it is in the list and the
      clip, however often it is listed, and as it was otherwise. */
  lemma {:induction false} PlotAllPixel(cv: Canvas, pen: Pen, c: Colour, pts: seq<(int, int)>, x: int, y: int)
    requires cv.Valid() && pen.Ready(cv.width, cv.height) && cv.Has(x, y)
    ensures PlotAll(cv, pen, c, pts).Pixel(x, y) ==
            if pen.clip.Contains(x, y) && (x, y) in pts then Inked(pen, c, x, y, cv.Pixel(x, y))
            else cv.Pixel(x, y)
  {
    hide Plot, Inked, Canvas.Pixel, Rect.Contains;
    if pts != [] {
      var (init, last) := (pts[..|pts| - 1], pts[|pts| - 1]);
      PlotAllPixel(cv, pen, c, init, x, y);
      PlotPixel(PlotAll(cv, pen, c, init), pen, c, last.0, last.1, x, y);
      InkTwice(pen, c, x, y, cv.Pixel(x, y));
      assert (x, y) in pts <==> (x, y) in init || (x, y) == last by {
        assert pts == init + [last];
      }
    }
  }

  lemma PlotMeters(cv: Canvas, pen: Pen, c: Colour, x: int, y: int)
    requires cv.Valid() && pen.Ready(cv.width, cv.height)
    ensures Plot(cv, pen, x, y, c).touched == cv.touched + if pen.clip.Contains(x, y) then 1 else 0
  {
    hide Table.Lookup, Fillp.Pick;
  }

  /** No point is listed twice. */
  ghost predicate Distinct(pts: seq<(int, int)>) {
    forall i, k :: 0 <= i < k < |pts| ==> pts[i] != pts[k]
  }

  /** Points all in the clip are metered one each. */
  lemma {:induction false} PlotAllTouched(cv: Canvas, pen: Pen, c: Colour, pts: seq<(int, int)>)
    requires cv.Valid() && pen.Ready(cv.width, cv.height)
    requires forall p :: p in pts ==> pen.clip.Contains(p.0, p.1)
    ensures PlotAll(cv, pen, c, pts).touched == cv.touched + |pts|
  {
    hide Table.Lookup, Fillp.Pick, Rect.Contains;
    if pts != [] {
      PlotAllTouched(cv, pen, c, pts[..|pts| - 1]);
      assert pts[|pts| - 1] in pts;
    }
  }

  lemma {:induction false} DistinctSize(pts: seq<(int, int)>, all: set<(int, int)>)
    requires Distinct(pts) && forall p :: p in pts <==> p in all
    ensures |pts| == |all|
  {
    if pts == [] {
      assert all == {};
    } else {
      var (init, last) := (pts[..|pts| - 1], pts[|pts| - 1]);
      assert pts == init + [last];
      assert last !in init;
      DistinctSize(init, all - {last});
    }
  }

  lemma DistinctAppend(a: seq<(int, int)>, b: seq<(int, int)>)
    requires Distinct(a) && Distinct(b) && forall p :: p in a ==> p !in b
    ensures Distinct(a + b)
  {
    forall i, k | 0 <= i < k < |a + b|
      ensures (a + b)[i] != (a + b)[k]
    {
      if i < |a| <= k {
        assert a[i] in a && b[k - |a|] in b;
      }
    }
  }

  /** `after` is `before` with the pixels of a shape in the clip inked. */
  ghost predicate Painted(before: Canvas, after: Canvas, pen: Pen, c: Colour, shape: (int, int) -> bool)
    requires before.Valid() && pen.Ready(before.width, before.height)
  {
    && after.Valid() && SameShape(before, after)
    && forall x, y | before.Has(x, y) ::
         after.Pixel(x, y) == if pen.clip.Contains(x, y) && shape(x, y)
                              then Inked(pen, c, x, y, before.Pixel(x, y)) else before.Pixel(x, y)
  }

  /** The pixels of a circle and of its disc, about a centre. */
  ghost function RingAt(cx: int, cy: int, r: nat): (int, int) -> bool {
    (x, y) => Ring(r, x - cx, y - cy)
  }

  ghost function DiscAt(cx: int, cy: int, r: nat): (int, int) -> bool {
    (x, y) => Disc(r, x - cx, y - cy)
  }

  lemma PaintedByList(cv: Canvas, pen: Pen, c: Colour, pts: seq<(int, int)>, shape: (int, int) -> bool)
    requires cv.Valid() && pen.Ready(cv.width, cv.height)
    requires forall x, y :: pen.clip.Contains(x, y) ==> ((x, y) in pts <==> shape(x, y))
    ensures Painted(cv, PlotAll(cv, pen, c, pts), pen, c, shape)
  {
    hide Inked, PlotAll, Canvas.Pixel, Rect.Contains;
    forall x, y | cv.Has(x, y)
      ensures PlotAll(cv, pen, c, pts).Pixel(x, y) ==
              if pen.clip.Contains(x, y) && shape(x, y)
              then Inked(pen, c, x, y, cv.Pixel(x, y)) else cv.Pixel(x, y)
    {
      PlotAllPixel(cv, pen, c, pts, x, y);
    }
  }

  // ----- visibility --------------------------------------------------------------

  /** A radius a walk can take: the one asked for, or the nearest to it. */
  function Clamped(r: int): (n: nat)
    ensures n <= MAX_RADIUS && (0 <= r <= MAX_RADIUS ==> n == r)
    ensures (r < 0 ==> n == 0) && (r > MAX_RADIUS ==> n == MAX_RADIUS)
  {
    if r < 0 then 0 else Min(r, MAX_RADIUS)
  }

  predicate Visible(pen: Pen, cx: int, cy: int, r: nat) {
    var box := Rect(Sat32(cx - r), Sat32(cy - r), Sat32(Sat32(2 * r) + 1), Sat32(Sat32(2 * r) + 1));
    !box.Intersect(pen.clip).IsEmpty()
  }

  /** A circle whose box misses the clip has no pixel in it; one whose box does
      not is near enough that every coordinate of the walk is an `i32`. */
  lemma VisibleMeans(pen: Pen, cx: int, cy: int, r: nat, width: nat, height: nat)
    requires Fits32(cx) && Fits32(cy) && r <= MAX_RADIUS
    requires pen.clip.Within(width, height) && width <= MAX_DIM && height <= MAX_DIM
    ensures !Visible(pen, cx, cy, r) ==>
              forall x, y :: pen.clip.Contains(x, y) ==> !Disc(r, x - cx, y - cy)
    ensures Visible(pen, cx, cy, r) ==>
              -MAX_RADIUS <= cx <= MAX_DIM + MAX_RADIUS && -MAX_RADIUS <= cy <= MAX_DIM + MAX_RADIUS
  {
    hide Disc;
    if !Visible(pen, cx, cy, r) {
      forall x, y | pen.clip.Contains(x, y)
        ensures !Disc(r, x - cx, y - cy)
      {
        if Disc(r, x - cx, y - cy) {
          DiscRange(r, x - cx, y - cy);
        }
      }
    }
  }

  /** The outline is part of the disc. */
  lemma RingInDisc(r: nat, dx: int, dy: int)
    requires Ring(r, dx, dy)
    ensures Disc(r, dx, dy)
  {
  }

  // ----- circ ----------------------------------------------------------------------

  /** The eight plots of one step of the walk, in the order they are made. */
  function Eight(cx: int, cy: int, x: int, y: int): seq<(int, int)> {
    [(cx + x, cy + y), (cx - x, cy + y), (cx + x, cy - y), (cx - x, cy - y),
     (cx + y, cy + x), (cx - y, cy + x), (cx + y, cy - x), (cx - y, cy - x)]
  }

  lemma EightMeans(cx: int, cy: int, x: int, y: int, px: int, py: int)
    requires 0 <= y <= x
    ensures (px, py) in Eight(cx, cy, x, y) <==>
            Max(Abs(px - cx), Abs(py - cy)) == x && Min(Abs(px - cx), Abs(py - cy)) == y
  {
    var e := Eight(cx, cy, x, y);
    if Max(Abs(px - cx), Abs(py - cy)) == x && Min(Abs(px - cx), Abs(py - cy)) == y {
      assert (px, py) == e[0] || (px, py) == e[1] || (px, py) == e[2] || (px, py) == e[3]
          || (px, py) == e[4] || (px, py) == e[5] || (px, py) == e[6] || (px, py) == e[7];
    }
  }

  /** For each shorter distance there is one longer one on the circle. */
  lemma ArcUnique(r: nat, x: int, x': int, y: int)
    requires 0 < r && 0 <= y <= x && y <= x' && Arc(r, x, y) && Arc(r, x', y)
    ensures x == x'
  {
    if x < x' {
      SquareMono(x + 1, x');
    } else if x' < x {
      SquareMono(x' + 1, x);
    }
  }

  /** Nothing is on the circle past where the walk stops. */
  lemma NoArcAfter(r: nat, x: int, y: int, a: int, b: int, err: int)
    requires 0 < r && Walking(r, x, y, err) && x < y <= b <= a
    ensures !Arc(r, a, b)
  {
    SquareMono(y, b);
    SquareMono(y, a);
    assert 2 * y * y - y == (y * y - y) + y * y;
  }

  lemma RingIsArc(r: nat, dx: int, dy: int)
    requires 0 < r
    ensures Ring(r, dx, dy) <==> Arc(r, Max(Abs(dx), Abs(dy)), Min(Abs(dx), Abs(dy)))
  {
  }

  /** The walk so far has listed the circle's pixels nearer an axis than `y`. */
  ghost predicate Listed(r: nat, cx: int, cy: int, y: int, pts: seq<(int, int)>) {
    forall px, py {:trigger (px, py) in pts} ::
      (px, py) in pts <==> Ring(r, px - cx, py - cy) && Min(Abs(px - cx), Abs(py - cy)) < y
  }

  lemma ListStep(r: nat, cx: int, cy: int, x: int, y: int, pts: seq<(int, int)>)
    requires 0 < r && Arc(r, x, y) && 0 <= y <= x && Listed(r, cx, cy, y, pts)
    ensures Listed(r, cx, cy, y + 1, pts + Eight(cx, cy, x, y))
  {
    hide Ring, Arc, Eight;
    forall px, py
      ensures (px, py) in pts + Eight(cx, cy, x, y) <==>
              Ring(r, px - cx, py - cy) && Min(Abs(px - cx), Abs(py - cy)) < y + 1
    {
      EightMeans(cx, cy, x, y, px, py);
      RingIsArc(r, px - cx, py - cy);
      var (a, b) := (Max(Abs(px - cx), Abs(py - cy)), Min(Abs(px - cx), Abs(py - cy)));
      if b == y && Arc(r, a, b) {
        ArcUnique(r, x, a, y);
      }
      assert (px, py) in pts <==> Ring(r, px - cx, py - cy) && b < y;
    }
  }

  lemma ListDone(r: nat, cx: int, cy: int, x: int, y: int, err: int, pts: seq<(int, int)>, px: int, py: int)
    requires 0 < r && Walking(r, x, y, err) && x < y && Listed(r, cx, cy, y, pts)
    ensures (px, py) in pts <==> Ring(r, px - cx, py - cy)
  {
    hide Ring, Arc;
    RingIsArc(r, px - cx, py - cy);
    var (a, b) := (Max(Abs(px - cx), Abs(py - cy)), Min(Abs(px - cx), Abs(py - cy)));
    if y <= b {
      NoArcAfter(r, x, y, a, b, err);
    }
  }

  /** The plots of a whole outline, from its longer distance at each shorter one. */
  ghost function Outline(cx: int, cy: int, arc: seq<int>): seq<(int, int)> {
    if arc == [] then []
    else Outline(cx, cy, arc[..|arc| - 1]) + Eight(cx, cy, arc[|arc| - 1], |arc| - 1)
  }

  /** `arc` is the first octant of the circle, all of it. */
  ghost predicate Octant(r: nat, arc: seq<int>) {
    && (forall y :: 0 <= y < |arc| ==> y <= arc[y] <= r && Arc(r, arc[y], y))
    && (forall x, y {:trigger Arc(r, x, y)} :: |arc| <= y <= x ==> !Arc(r, x, y))
  }

  lemma OutlineNone(cx: int, cy: int)
    ensures Outline(cx, cy, []) == []
  {
  }

  lemma OutlineStep(cx: int, cy: int, arc: seq<int>, x: int)
    ensures Outline(cx, cy, arc + [x]) == Outline(cx, cy, arc) + Eight(cx, cy, x, |arc|)
  {
    hide Eight;
    assert (arc + [x])[..|arc|] == arc;
  }

  lemma OctantDone(r: nat, x: int, y: int, err: int, arc: seq<int>)
    requires 0 < r && Walking(r, x, y, err) && x < y == |arc|
    requires forall y :: 0 <= y < |arc| ==> y <= arc[y] <= r && Arc(r, arc[y], y)
    ensures Octant(r, arc)
  {
    hide Arc, Error;
    forall a, b | |arc| <= b <= a
      ensures !Arc(r, a, b)
    {
      NoArcAfter(r, x, y, a, b, err);
    }
  }

  /** A circle's outline: the pixels of the ring, whatever the clip cuts off.
      Eight plots a step are metered, whether or not two of them coincide. */
  method Circ(s: Surface, pen: Pen, x0: int, y0: int, r0: int, c: Colour) returns (ghost arc: seq<int>)
    requires s.Valid() && pen.Ready(s.width, s.height)
    modifies s, s.pixels
    ensures s.Valid()
    ensures Painted(old(s.View()), s.View(), pen, c, RingAt(pen.WorldX(x0), pen.WorldY(y0), Clamped(r0)))
    ensures 0 < Clamped(r0) && Visible(pen, pen.WorldX(x0), pen.WorldY(y0), Clamped(r0)) ==>
              && Octant(Clamped(r0), arc)
              && s.View() == PlotAll(old(s.View()), pen, c, Outline(pen.WorldX(x0), pen.WorldY(y0), arc))
    ensures 0 < Clamped(r0) && !Visible(pen, pen.WorldX(x0), pen.WorldY(y0), Clamped(r0)) ==>
              s.View() == old(s.View())
    ensures Clamped(r0) == 0 ==>
              s.touched == old(s.touched) + if pen.clip.Contains(pen.WorldX(x0), pen.WorldY(y0)) then 1 else 0
  {
    hide Ring, Disc, Arc, Error, Plot, PlotAll, Eight, Painted, Visible, Outline, Octant;
    arc := [];
    var cx, cy, r := pen.WorldX(x0), pen.WorldY(y0), Clamped(r0);
    ghost var cv := s.View();
    ghost var pts: seq<(int, int)> := [];
    PlotNone(cv, pen, c);
    OutlineNone(cx, cy);
    if r == 0 {
      s.PlotPixel(pen, cx, cy, c);
      PlotMeters(cv, pen, c, cx, cy);
      PlotOneMore(cv, pen, c, [], cx, cy);
      assert [] + [(cx, cy)] == [(cx, cy)];
      forall x, y | pen.clip.Contains(x, y)
        ensures (x, y) in [(cx, cy)] <==> Ring(r, x - cx, y - cy)
      {
        PointRing(x - cx, y - cy);
      }
      PaintedByList(cv, pen, c, [(cx, cy)], RingAt(cx, cy, r));
      return;
    }
    VisibleMeans(pen, cx, cy, r, s.width, s.height);
    if !Visible(pen, cx, cy, r) {
      forall x, y | pen.clip.Contains(x, y)
        ensures !Ring(r, x - cx, y - cy)
      {
        if Ring(r, x - cx, y - cy) {
          RingInDisc(r, x - cx, y - cy);
        }
      }
      PaintedByList(cv, pen, c, [], RingAt(cx, cy, r));
      return;
    }
    var x: int, y: int, err: int := r, 0, 1 - r as int;
    WalkStart(r);
    while x >= y
      invariant s.Valid() && s.View() == PlotAll(cv, pen, c, pts)
      invariant Walking(r, x, y, err) && Listed(r, cx, cy, y, pts)
      invariant |arc| == y && forall k :: 0 <= k < |arc| ==> k <= arc[k] <= r && Arc(r, arc[k], k)
      invariant pts == Outline(cx, cy, arc)
      decreases x - y
    {
      PlotEight(s, pen, cx, cy, x, y, c, cv, pts);
      ListStep(r, cx, cy, x, y, pts);
      OutlineStep(cx, cy, arc, x);
      pts, arc := pts + Eight(cx, cy, x, y), arc + [x];
      WalkStep(r, x, y, err);
      y := y + 1;
      if err < 0 {
        err := err + 2 * y + 1;
      } else {
        x := x - 1;
        err := err + 2 * (y - x) + 1;
      }
    }
    forall px, py | pen.clip.Contains(px, py)
      ensures (px, py) in pts <==> Ring(r, px - cx, py - cy)
    {
      ListDone(r, cx, cy, x, y, err, pts, px, py);
    }
    PaintedByList(cv, pen, c, pts, RingAt(cx, cy, r));
    OctantDone(r, x, y, err, arc);
  }

  lemma PointRing(dx: int, dy: int)
    ensures Ring(0, dx, dy) <==> dx == 0 && dy == 0
  {
  }

  lemma PlotNone(cv: Canvas, pen: Pen, c: Colour)
    requires cv.Valid() && pen.Ready(cv.width, cv.height)
    ensures PlotAll(cv, pen, c, []) == cv
  {
  }

  /** The loop over the eight points of a step. */
  method PlotEight(s: Surface, pen: Pen, cx: int, cy: int, x: int, y: int, c: Colour,
                   ghost cv: Canvas, ghost pts: seq<(int, int)>)
    requires cv.Valid() && s.Valid() && pen.Ready(s.width, s.height) && SameShape(cv, s.View())
    requires s.View() == PlotAll(cv, pen, c, pts)
    modifies s, s.pixels
    ensures s.Valid() && s.View() == PlotAll(cv, pen, c, pts + Eight(cx, cy, x, y))
  {
    hide Plot, PlotAll, Eight;
    var eight := Eight(cx, cy, x, y);
    assert pts + eight[..0] == pts;
    for i := 0 to |eight|
      invariant s.Valid() && s.View() == PlotAll(cv, pen, c, pts + eight[..i])
    {
      PlotOneMore(cv, pen, c, pts + eight[..i], eight[i].0, eight[i].1);
      s.PlotPixel(pen, eight[i].0, eight[i].1, c);
      assert pts + eight[..i] + [eight[i]] == pts + eight[..i + 1];
    }
    assert pts + eight[..|eight|] == pts + eight;
  }

  // ----- circfill --------------------------------------------------------------------

  /** The pixels of a horizontal run, inclusive, that are in the clip. */
  ghost predicate RunOf(clip: Rect, x0: int, x1: int, y: int, more: seq<(int, int)>) {
    forall p :: p in more <==> clip.Contains(p.0, p.1) && p.1 == y && x0 <= p.0 <= x1
  }

  /** A horizontal run, inclusive, clipped. */
  method Hspan(s: Surface, pen: Pen, x0: int, x1: int, y: int, c: Colour, ghost cv: Canvas, ghost pts: seq<(int, int)>)
    returns (ghost more: seq<(int, int)>)
    requires cv.Valid() && s.Valid() && pen.Ready(s.width, s.height) && SameShape(cv, s.View())
    requires s.View() == PlotAll(cv, pen, c, pts)
    modifies s, s.pixels
    ensures s.Valid() && s.View() == PlotAll(cv, pen, c, pts + more)
    ensures RunOf(pen.clip, x0, x1, y, more) && Distinct(more)
  {
    hide Plot, PlotAll;
    more := [];
    assert pts + more == pts;
    if y < pen.clip.y || y >= pen.clip.Bottom() {
      return;
    }
    var lo, hi := Max(x0, pen.clip.x), Min(x1, pen.clip.Right() - 1);
    if lo > hi {
      return;
    }
    for x := lo to hi + 1
      invariant s.Valid() && s.View() == PlotAll(cv, pen, c, pts + more)
      invariant forall p :: p in more <==> p.1 == y && lo <= p.0 < x
      invariant Distinct(more)
    {
      PlotOneMore(cv, pen, c, pts + more, x, y);
      s.PlotPixel(pen, x, y, c);
      assert pts + more + [(x, y)] == pts + (more + [(x, y)]);
      more := more + [(x, y)];
    }
  }

  /** The rows from `top` to before `y` are listed. */
  ghost predicate Filled(clip: Rect, r: nat, cx: int, cy: int, top: int, y: int, pts: seq<(int, int)>) {
    forall p :: p in pts <==> clip.Contains(p.0, p.1) && top <= p.1 < y && Disc(r, p.0 - cx, p.1 - cy)
  }

  lemma NoneDistinct()
    ensures Distinct([])
  {
  }

  lemma FillNone(clip: Rect, r: nat, cx: int, cy: int, top: int)
    ensures Filled(clip, r, cx, cy, top, top, [])
  {
  }

  lemma FillRow(clip: Rect, r: nat, cx: int, cy: int, top: int, y: int, hw: int,
                pts: seq<(int, int)>, more: seq<(int, int)>)
    requires Filled(clip, r, cx, cy, top, y, pts) && top <= y && RowIs(r, Abs(y - cy), hw)
    requires RunOf(clip, cx - hw, cx + hw, y, more)
    ensures Filled(clip, r, cx, cy, top, y + 1, pts + more)
  {
    hide Disc, RowIs, Rect.Contains;
    forall p: (int, int)
      ensures p in pts + more <==>
              clip.Contains(p.0, p.1) && top <= p.1 < y + 1 && Disc(r, p.0 - cx, p.1 - cy)
    {
      RowMeans(r, Abs(y - cy), hw, p.0 - cx);
      DiscMirror(r, p.0 - cx, y - cy);
    }
  }

  lemma RowsApart(clip: Rect, r: nat, cx: int, cy: int, top: int, y: int, pts: seq<(int, int)>, more: seq<(int, int)>)
    requires Filled(clip, r, cx, cy, top, y, pts)
    requires forall p :: p in more ==> p.1 == y
    ensures forall p :: p in pts ==> p !in more
  {
    hide Disc, Rect.Contains;
  }

  /** The pixels of the disc in the clip. */
  ghost function DiscCells(clip: Rect, cx: int, cy: int, r: nat): set<(int, int)> {
    set x, y | clip.x <= x < clip.Right() && clip.y <= y < clip.Bottom() && Disc(r, x - cx, y - cy) :: (x, y)
  }

  lemma NoCells(clip: Rect, cx: int, cy: int, r: nat)
    requires forall x, y :: clip.Contains(x, y) ==> !Disc(r, x - cx, y - cy)
    ensures DiscCells(clip, cx, cy, r) == {}
  {
    hide Disc;
    if p :| p in DiscCells(clip, cx, cy, r) {
      var x, y :| clip.x <= x < clip.Right() && clip.y <= y < clip.Bottom() && Disc(r, x - cx, y - cy) && p == (x, y);
      assert !clip.Contains(x, y);
    }
  }

  lemma FillMeter(clip: Rect, r: nat, cx: int, cy: int, top: int, y: int, pts: seq<(int, int)>)
    requires Filled(clip, r, cx, cy, top, y, pts) && Distinct(pts)
    requires forall px, py :: clip.Contains(px, py) ==> ((px, py) in pts <==> Disc(r, px - cx, py - cy))
    ensures |pts| == |DiscCells(clip, cx, cy, r)|
    ensures forall p :: p in pts ==> clip.Contains(p.0, p.1)
  {
    hide Disc;
    forall p: (int, int)
      ensures p in pts <==> p in DiscCells(clip, cx, cy, r)
    {
      assert (p.0, p.1) in pts ==> clip.Contains(p.0, p.1);
      assert p == (p.0, p.1);
    }
    DistinctSize(pts, DiscCells(clip, cx, cy, r));
  }

  lemma FillDone(clip: Rect, r: nat, cx: int, cy: int, top: int, bottom: int, pts: seq<(int, int)>)
    requires top == Max(cy - r, clip.y) && bottom == Min(cy + r, clip.Bottom() - 1)
    requires Filled(clip, r, cx, cy, top, Max(top, bottom + 1), pts)
    ensures forall px, py :: clip.Contains(px, py) ==> ((px, py) in pts <==> Disc(r, px - cx, py - cy))
  {
    hide Disc;
    forall px, py | clip.Contains(px, py)
      ensures (px, py) in pts <==> Disc(r, px - cx, py - cy)
    {
      if Disc(r, px - cx, py - cy) {
        DiscRange(r, px - cx, py - cy);
      }
    }
  }

  /** A filled circle: the pixels of the disc, by rows of the half-widths. */
  method Circfill(s: Surface, pen: Pen, x0: int, y0: int, r0: int, c: Colour)
    requires s.Valid() && pen.Ready(s.width, s.height)
    modifies s, s.pixels
    ensures s.Valid()
    ensures Painted(old(s.View()), s.View(), pen, c, DiscAt(pen.WorldX(x0), pen.WorldY(y0), Clamped(r0)))
    ensures s.touched == old(s.touched) +
                         |DiscCells(pen.clip, pen.WorldX(x0), pen.WorldY(y0), Clamped(r0))|
  {
    hide Disc, Plot, PlotAll, Painted, Visible, RowIs, Filled, Rect.Contains, Distinct, DiscCells;
    var cx, cy, r := pen.WorldX(x0), pen.WorldY(y0), Clamped(r0);
    ghost var cv := s.View();
    ghost var pts: seq<(int, int)> := [];
    PlotNone(cv, pen, c);
    VisibleMeans(pen, cx, cy, r, s.width, s.height);
    if !Visible(pen, cx, cy, r) {
      PaintedByList(cv, pen, c, [], DiscAt(cx, cy, r));
      NoCells(pen.clip, cx, cy, r);
      return;
    }
    var widths := HalfWidths(r);
    FillNone(pen.clip, r, cx, cy, Max(cy - r, pen.clip.y));
    assert Distinct(pts) by { NoneDistinct(); }
    var top, bottom := Max(cy - r, pen.clip.y), Min(cy + r, pen.clip.Bottom() - 1);
    if top <= bottom {
      for y := top to bottom + 1
        invariant s.Valid() && s.View() == PlotAll(cv, pen, c, pts)
        invariant Filled(pen.clip, r, cx, cy, top, y, pts) && Distinct(pts)
        invariant forall d :: 0 <= d <= r ==> RowIs(r, d, widths[d])
      {
        var hw := widths[Abs(y - cy)];
        ghost var more := Hspan(s, pen, cx - hw, cx + hw, y, c, cv, pts);
        FillRow(pen.clip, r, cx, cy, top, y, hw, pts, more);
        RowsApart(pen.clip, r, cx, cy, top, y, pts, more);
        DistinctAppend(pts, more);
        pts := pts + more;
      }
    }
    FillDone(pen.clip, r, cx, cy, top, bottom, pts);
    FillMeter(pen.clip, r, cx, cy, top, Max(top, bottom + 1), pts);
    PlotAllTouched(cv, pen, c, pts);
    PaintedByList(cv, pen, c, pts, DiscAt(cx, cy, r));
  }

  lemma DiscMirror(r: nat, dx: int, dy: int)
    ensures Disc(r, dx, dy) <==> Disc(r, dx, Abs(dy))
  {
  }
}
