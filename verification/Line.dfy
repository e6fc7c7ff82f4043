/** `line`: a rounded division for every step. It agrees with the error term of
    `tline`, although the two round by different formulas. */
module Line {
  import opened Numbers
  import opened Raster
  import opened TlinePath
  import opened Tline
  import opened TlineMeaning

  /** The nearest integer to the quotient; a half goes the way of its sign. */
  function RoundDiv(n: int, d: int): int
    requires 0 < d
  {
    if n >= 0 then (n + d / 2) / d else -((-n + d / 2) / d)
  }

  datatype Ends = Ends(x0: int, y0: int, x1: int, y1: int) {
    const dx := x1 - x0
    const dy := y1 - y0
    const steps := Max(Abs(dx), Abs(dy))

    function X(i: int): int { if steps == 0 then x0 else x0 + RoundDiv(dx * i, steps) }

    function Y(i: int): int { if steps == 0 then y0 else y0 + RoundDiv(dy * i, steps) }
  }

  /** The definition: the first `i` of the `steps + 1` points, each plotted. */
  function Steps(e: Ends, cv: Canvas, pen: Pen, c: Colour, i: nat): (r: Canvas)
    requires cv.Valid() && pen.Ready(cv.width, cv.height)
    ensures r.Valid() && SameShape(cv, r)
  {
    if i == 0 then cv else Plot(Steps(e, cv, pen, c, i - 1), pen, e.X(i - 1), e.Y(i - 1), c)
  }

  lemma {:induction false} StepsSkip(e: Ends, cv: Canvas, pen: Pen, c: Colour, i: nat, i': nat)
    requires cv.Valid() && pen.Ready(cv.width, cv.height) && i <= i'
    requires forall q :: i <= q < i' ==> !pen.clip.Contains(e.X(q), e.Y(q))
    ensures Steps(e, cv, pen, c, i') == Steps(e, cv, pen, c, i)
  {
    hide Ends.X, Ends.Y;
    if i < i' {
      StepsSkip(e, cv, pen, c, i, i' - 1);
    }
  }

  /** A line of one colour from end to end. Only the steps whose major
      coordinate is in the clip are walked; that loses none of the pixels. */
  method DrawLine(s: Surface, pen: Pen, x0: int, y0: int, x1: int, y1: int, c: Colour)
    requires s.Valid() && pen.Ready(s.width, s.height)
    modifies s, s.pixels
    ensures var e := Ends(pen.WorldX(x0), pen.WorldY(y0), pen.WorldX(x1), pen.WorldY(y1));
            s.Valid() && s.View() == Steps(e, old(s.View()), pen, c, e.steps + 1)
  {
    hide Ends.X, Ends.Y, Plot, Steps;
    var e := Ends(pen.WorldX(x0), pen.WorldY(y0), pen.WorldX(x1), pen.WorldY(y1));
    ghost var cv := s.View();
    if e.steps == 0 {
      s.PlotPixel(pen, e.x0, e.y0, c);
      StepsOne(e, cv, pen, c, 0);
      assert e.X(0) == e.x0 && e.Y(0) == e.y0 by { StillPoint(e); }
      return;
    }
    var horizontal := Abs(e.dx) >= Abs(e.dy);
    var major0, majord := if horizontal then e.x0 else e.y0, if horizontal then e.dx else e.dy;
    var lo, hi := if horizontal then pen.clip.x else pen.clip.y,
                  (if horizontal then pen.clip.Right() else pen.clip.Bottom()) - 1;
    var a, b := if majord > 0 then lo - major0 else major0 - hi,
                if majord > 0 then hi - major0 else major0 - lo;
    var i0, i1 := Max(a, 0), Min(b, e.steps);
    forall i | 0 <= i <= e.steps && !(i0 <= i <= i1)
      ensures !pen.clip.Contains(e.X(i), e.Y(i))
    {
      PointOnPath(e, i);
    }
    if i0 > i1 {
      StepsSkip(e, cv, pen, c, 0, e.steps + 1);
      StepsNone(e, cv, pen, c);
      return;
    }
    StepsSkip(e, cv, pen, c, 0, i0);
    StepsNone(e, cv, pen, c);
    for i := i0 to i1 + 1
      invariant s.Valid() && s.View() == Steps(e, cv, pen, c, i)
    {
      var x, y := e.x0 + RoundDiv(e.dx * i, e.steps), e.y0 + RoundDiv(e.dy * i, e.steps);
      MovingPoint(e, i);
      s.PlotPixel(pen, x, y, c);
      StepsOne(e, cv, pen, c, i);
    }
    StepsSkip(e, cv, pen, c, i1 + 1, e.steps + 1);
  }

  lemma StepsNone(e: Ends, cv: Canvas, pen: Pen, c: Colour)
    requires cv.Valid() && pen.Ready(cv.width, cv.height)
    ensures Steps(e, cv, pen, c, 0) == cv
  {
  }

  lemma StepsOne(e: Ends, cv: Canvas, pen: Pen, c: Colour, i: nat)
    requires cv.Valid() && pen.Ready(cv.width, cv.height)
    ensures Steps(e, cv, pen, c, i + 1) == Plot(Steps(e, cv, pen, c, i), pen, e.X(i), e.Y(i), c)
    ensures Steps(e, cv, pen, c, 0) == cv
  {
    hide Plot, Ends.X, Ends.Y;
  }

  lemma StillPoint(e: Ends)
    requires e.steps == 0
    ensures e.X(0) == e.x0 && e.Y(0) == e.y0
  {
  }

  lemma MovingPoint(e: Ends, i: int)
    requires e.steps != 0
    ensures e.X(i) == e.x0 + RoundDiv(e.dx * i, e.steps) && e.Y(i) == e.y0 + RoundDiv(e.dy * i, e.steps)
  {
    hide RoundDiv;
  }

  // ----- the two formulas ---------------------------------------------------------

  lemma RoundsAlike(a: nat, n: nat)
    requires 0 < n
    ensures (a + n / 2) / n == (2 * a + n) / (2 * n)
  {
    var (q, r) := ((2 * a + n) / (2 * n), (2 * a + n) % (2 * n));
    assert 2 * a + n == q * (2 * n) + r;
    assert q * (2 * n) == 2 * (q * n);
    DivModUnique(a + n / 2, n, q, a + n / 2 - q * n);
  }

  lemma RoundedOffset(d: int, i: nat, n: nat)
    requires 0 < n
    ensures RoundDiv(d * i, n) == (if d < 0 then -1 else 1) * ((2 * i * Abs(d) + n) / (2 * n))
  {
    RoundsAlike(Abs(d) * i, n);
    assert 2 * (Abs(d) * i) + n == 2 * i * Abs(d) + n;
    if d < 0 {
      assert d * i == -(Abs(d) * i);
      if Abs(d) * i == 0 {
        DivModUnique(n / 2, n, 0, n / 2);
      }
    }
  }

  lemma WholeOffset(n: nat, i: nat)
    requires 0 < n
    ensures (2 * i * n + n) / (2 * n) == i
  {
    assert 2 * i * n == i * (2 * n);
    DivModUnique(2 * i * n + n, 2 * n, i, n);
  }

  /** Point `i` of the line is pixel 0 of step `i` of the textured line between
      the same ends. */
  lemma PointOnPath(e: Ends, i: nat)
    requires i <= e.steps
    ensures var p := PathOf(e.x0, e.y0, e.x1, e.y1);
            p.n == e.steps && e.X(i) == p.X(i, 0) && e.Y(i) == p.Y(i, 0)
  {
    var p := PathOf(e.x0, e.y0, e.x1, e.y1);
    if e.steps != 0 {
      hide RoundDiv;
      MovingPoint(e, i);
      RoundedOffset(p.md, i, p.n);
      RoundedOffset(p.cd, i, p.n);
      WholeOffset(p.n, i);
      assert p.Off(i) == (2 * i * Abs(p.cd) + p.n) / (2 * p.n);
    }
  }

  /** A line visits a pixel of the clip. */
  ghost predicate Visits(e: Ends, clip: Rect, x: int, y: int) {
    clip.Contains(x, y) && exists i :: 0 <= i <= e.steps && e.X(i) == x && e.Y(i) == y
  }

  /** Between the same ends, `line` and a `tline` one pixel thick visit exactly
      the same pixels of the clip. */
  lemma LineIsThinTline(pen: Pen, sheet: Buf, ends: (int, int, int, int), region: Region, tex: Texture, x: int, y: int)
    requires pen.table.Valid() && sheet.Valid() && sheet.Bytes? && tex.thick <= 1
    requires region.Inside(sheet.width, sheet.height)
    ensures var e := Ends(pen.WorldX(ends.0), pen.WorldY(ends.1), pen.WorldX(ends.2), pen.WorldY(ends.3));
            Visits(e, pen.clip, x, y) <==> Hits(JobOf(pen, sheet, ends, region, tex), x, y)
  {
    hide Ends.X, Ends.Y, PathOf, StepOf, AcrossOf, Path.X, Path.Y, Path.Off;
    var e := Ends(pen.WorldX(ends.0), pen.WorldY(ends.1), pen.WorldX(ends.2), pen.WorldY(ends.3));
    var j := JobOf(pen, sheet, ends, region, tex);
    assert j.path == PathOf(e.x0, e.y0, e.x1, e.y1) && j.clip == pen.clip && j.thick == 1;
    if Visits(e, pen.clip, x, y) {
      var i :| 0 <= i <= e.steps && e.X(i) == x && e.Y(i) == y;
      PointOnPath(e, i);
      PixelIs(j.path, x, y, i, 0);
    }
    if Hits(j, x, y) {
      var i := StepOf(j.path, x, y);
      PointOnPath(e, 0);
      PointOnPath(e, i);
      PixelIs(j.path, x, y, i, 0);
      assert 0 <= i <= e.steps && e.X(i) == x && e.Y(i) == y;
    }
  }

  /** ... and are metered alike. */
  lemma LineMetersAsThinTline(pen: Pen, sheet: Buf, ends: (int, int, int, int), region: Region, tex: Texture,
                              cv: Canvas, c: Colour)
    requires cv.Valid() && pen.Ready(cv.width, cv.height) && sheet.Valid() && sheet.Bytes? && tex.thick <= 1
    requires region.Inside(sheet.width, sheet.height)
    ensures var e := Ends(pen.WorldX(ends.0), pen.WorldY(ends.1), pen.WorldX(ends.2), pen.WorldY(ends.3));
            var j := JobOf(pen, sheet, ends, region, tex);
            Steps(e, cv, pen, c, e.steps + 1).touched == j.Steps(cv, j.path.n + 1).touched
  {
    hide PathOf, Job.Steps, Steps;
    var e := Ends(pen.WorldX(ends.0), pen.WorldY(ends.1), pen.WorldX(ends.2), pen.WorldY(ends.3));
    var j := JobOf(pen, sheet, ends, region, tex);
    PointOnPath(e, 0);
    MetersAlike(e, j, cv, cv, pen, c, e.steps + 1);
  }

  lemma {:induction false} MetersAlike(e: Ends, j: Job, cv: Canvas, cv': Canvas, pen: Pen, c: Colour, i: nat)
    requires cv.Valid() && pen.Ready(cv.width, cv.height) && j.Valid() && j.On(cv') && j.clip == pen.clip
    requires j.path == PathOf(e.x0, e.y0, e.x1, e.y1) && j.thick == 1 && i <= e.steps + 1
    requires cv.touched == cv'.touched
    ensures Steps(e, cv, pen, c, i).touched == j.Steps(cv', i).touched
  {
    hide Ends.X, Ends.Y, PathOf, Path.X, Path.Y, Path.Off, Job.Texel, Table.Lookup, Fillp.Pick;
    if 0 < i {
      MetersAlike(e, j, cv, cv', pen, c, i - 1);
      PointOnPath(e, i - 1);
      var before := j.Steps(cv', i - 1);
      assert j.Across(before, i - 1, 0) == before;
      BlendTouched(before, j.clip, j.table, j.path.X(i - 1, 0), j.path.Y(i - 1, 0), j.Texel(i - 1));
    }
  }
}
