/** What a textured line leaves, pixel by pixel: the definition by steps, read
    backwards from the image. */
module TlineMeaning {
  import opened Numbers
  import opened Raster
  import opened TlinePath
  import opened Tline
  import opened Wrappers

  /** The one step that can reach pixel `(x, y)`: its major coordinate says. */
  function StepOf(p: Path, x: int, y: int): int {
    var m := if p.horizontal then x else y;
    if p.down then p.m0 - m else m - p.m0
  }

  /** How far across that step the pixel is. */
  function AcrossOf(p: Path, x: int, y: int): int {
    (if p.horizontal then y else x) - p.Minor(StepOf(p, x, y))
  }

  /** The pixels of the line that are in the clip. */
  predicate Hits(j: Job, x: int, y: int) {
    && j.clip.Contains(x, y)
    && 0 <= StepOf(j.path, x, y) <= j.path.n
    && 0 <= AcrossOf(j.path, x, y) < j.thick
  }

  lemma PixelIs(p: Path, x: int, y: int, i: int, k: int)
    ensures x == p.X(i, k) && y == p.Y(i, k) <==> i == StepOf(p, x, y) && k == AcrossOf(p, x, y)
  {
    hide Path.Off;
  }

  lemma {:induction false} AcrossPixel(j: Job, cv: Canvas, i: int, k: nat, x: int, y: int)
    requires j.Valid() && j.On(cv) && cv.Has(x, y)
    ensures j.Across(cv, i, k).Pixel(x, y) ==
            if j.clip.Contains(x, y) && StepOf(j.path, x, y) == i && 0 <= AcrossOf(j.path, x, y) < k
            then j.table.Lookup(j.Texel(i), cv.Pixel(x, y)) else cv.Pixel(x, y)
  {
    hide Path.X, Path.Y, Path.Off, StepOf, AcrossOf, Table.Lookup, Canvas.Pixel, Job.Texel, Rect.Contains;
    if 0 < k {
      AcrossPixel(j, cv, i, k - 1, x, y);
      PixelIs(j.path, x, y, i, k - 1);
      BlendPixel(j.Across(cv, i, k - 1), j.clip, j.table, j.path.X(i, k - 1), j.path.Y(i, k - 1), j.Texel(i), x, y);
    }
  }

  lemma {:induction false} StepsPixel(j: Job, cv: Canvas, i: nat, x: int, y: int)
    requires j.Valid() && j.On(cv) && cv.Has(x, y) && i <= j.path.n + 1
    ensures j.Steps(cv, i).Pixel(x, y) ==
            if Hits(j, x, y) && StepOf(j.path, x, y) < i
            then j.table.Lookup(j.Texel(StepOf(j.path, x, y)), cv.Pixel(x, y)) else cv.Pixel(x, y)
  {
    hide StepOf, AcrossOf, Table.Lookup, Canvas.Pixel, Job.Texel, Job.Across, Rect.Contains;
    if 0 < i {
      StepsPixel(j, cv, i - 1, x, y);
      AcrossPixel(j, j.Steps(cv, i - 1), i - 1, j.thick, x, y);
    }
  }

  /** The image law: a pixel of the line in the clip is its old value seen
      through the texel of its own step; every other pixel is as it was. */
  lemma TlinePixel(cv: Canvas, pen: Pen, sheet: Buf, ends: (int, int, int, int), tex: Texture, x: int, y: int)
    requires cv.Valid() && pen.Ready(cv.width, cv.height) && sheet.Valid() && tex.thick <= I32_MAX
    requires cv.Has(x, y)
    ensures var after := ByDefinition(cv, pen, sheet, ends, tex);
            var region := RegionOf(sheet, tex);
            && SameShape(cv, after)
            && after.Pixel(x, y) ==
               if !sheet.Bytes? || region.None? then cv.Pixel(x, y)
               else
                 var j := JobOf(pen, sheet, ends, region.value, tex);
                 if Hits(j, x, y) then pen.table.Lookup(j.Texel(StepOf(j.path, x, y)), cv.Pixel(x, y))
                 else cv.Pixel(x, y)
  {
    hide StepOf, Table.Lookup, Canvas.Pixel, Job.Texel, Job.Steps, PathOf;
    var region := RegionOf(sheet, tex);
    if sheet.Bytes? && region.Some? {
      var j := JobOf(pen, sheet, ends, region.value, tex);
      assert j.table == pen.table && j.On(cv);
      StepsPixel(j, cv, j.path.n + 1, x, y);
    }
  }

  // ----- no pixel twice ---------------------------------------------------------

  /** The pixels a step draws, and the pixels the first `i` steps draw. */
  ghost function AcrossSet(j: Job, i: int, k: nat): set<(int, int)> {
    if k == 0 then {}
    else AcrossSet(j, i, k - 1) + if j.Draws(i, k - 1) then {(j.path.X(i, k - 1), j.path.Y(i, k - 1))} else {}
  }

  ghost function StepsSet(j: Job, i: nat): set<(int, int)>
    requires j.Valid()
  {
    if i == 0 then {} else StepsSet(j, i - 1) + AcrossSet(j, i - 1, j.thick)
  }

  lemma {:induction false} AcrossSetMeans(j: Job, i: int, k: nat, x: int, y: int)
    ensures (x, y) in AcrossSet(j, i, k) <==>
            j.clip.Contains(x, y) && StepOf(j.path, x, y) == i && 0 <= AcrossOf(j.path, x, y) < k
  {
    hide Path.X, Path.Y, Path.Off, StepOf, AcrossOf, Rect.Contains;
    if 0 < k {
      AcrossSetMeans(j, i, k - 1, x, y);
      PixelIs(j.path, x, y, i, k - 1);
    }
  }

  /** One more pixel of a step adds itself to those drawn, if it is drawn. */
  lemma AcrossSetGrows(j: Job, i: int, k: nat)
    ensures |AcrossSet(j, i, k + 1)| == |AcrossSet(j, i, k)| + if j.Draws(i, k) then 1 else 0
  {
    hide Path.X, Path.Y, StepOf, AcrossOf, Job.Draws;
    var (x, y) := (j.path.X(i, k), j.path.Y(i, k));
    AcrossSetMeans(j, i, k, x, y);
    PixelIs(j.path, x, y, i, k);
    assert (x, y) !in AcrossSet(j, i, k);
  }

  /** And to the meter. */
  lemma AcrossMeters(j: Job, cv: Canvas, i: int, k: nat)
    requires j.Valid() && j.On(cv)
    ensures j.Across(cv, i, k + 1).touched == j.Across(cv, i, k).touched + if j.Draws(i, k) then 1 else 0
  {
    hide Path.X, Path.Y, Rect.Contains, Job.Texel, Blend;
    BlendTouched(j.Across(cv, i, k), j.clip, j.table, j.path.X(i, k), j.path.Y(i, k), j.Texel(i));
  }

  lemma {:induction false} AcrossTouched(j: Job, cv: Canvas, i: int, k: nat)
    requires j.Valid() && j.On(cv)
    ensures j.Across(cv, i, k).touched == cv.touched + |AcrossSet(j, i, k)|
  {
    hide Job.Across, AcrossSet, Job.Draws, Job.Valid, Job.On;
    if k == 0 {
      NoneAcross(j, cv, i);
    } else {
      AcrossTouched(j, cv, i, k - 1);
      AcrossMeters(j, cv, i, k - 1);
      AcrossSetGrows(j, i, k - 1);
    }
  }

  lemma NoneAcross(j: Job, cv: Canvas, i: int)
    requires j.Valid() && j.On(cv)
    ensures j.Across(cv, i, 0) == cv && AcrossSet(j, i, 0) == {}
  {
  }

  lemma {:induction false} StepsSetMeans(j: Job, i: nat, x: int, y: int)
    requires j.Valid() && i <= j.path.n + 1
    ensures (x, y) in StepsSet(j, i) <==> Hits(j, x, y) && StepOf(j.path, x, y) < i
  {
    hide StepOf, AcrossOf, Rect.Contains, AcrossSet;
    if 0 < i {
      StepsSetMeans(j, i - 1, x, y);
      AcrossSetMeans(j, i - 1, j.thick, x, y);
    }
  }

  lemma {:induction false} StepsTouched(j: Job, cv: Canvas, i: nat)
    requires j.Valid() && j.On(cv) && i <= j.path.n + 1
    ensures j.Steps(cv, i).touched == cv.touched + |StepsSet(j, i)|
  {
    hide StepOf, AcrossOf, Rect.Contains, AcrossSet, Job.Across;
    if 0 < i {
      StepsTouched(j, cv, i - 1);
      AcrossTouched(j, j.Steps(cv, i - 1), i - 1, j.thick);
      var (a, b) := (StepsSet(j, i - 1), AcrossSet(j, i - 1, j.thick));
      forall q | q in a
        ensures q !in b
      {
        StepsSetMeans(j, i - 1, q.0, q.1);
        AcrossSetMeans(j, i - 1, j.thick, q.0, q.1);
      }
      DisjointSize(a, b);
    }
  }

  /** The meter counts every pixel of the line in the clip, each once. */
  lemma TlineTouched(j: Job, cv: Canvas)
    requires j.Valid() && j.On(cv)
    ensures var drawn := set x, y | 0 <= x < cv.width && 0 <= y < cv.height && Hits(j, x, y) :: (x, y);
            j.Steps(cv, j.path.n + 1).touched == cv.touched + |drawn|
    ensures j.Steps(cv, j.path.n + 1).touched <= cv.touched + j.clip.w * j.clip.h
  {
    hide StepOf, AcrossOf, Job.Steps, StepsSet;
    var drawn := set x, y | 0 <= x < cv.width && 0 <= y < cv.height && Hits(j, x, y) :: (x, y);
    var steps := StepsSet(j, j.path.n + 1);
    StepsTouched(j, cv, j.path.n + 1);
    forall q: (int, int)
      ensures q in steps <==> q in drawn
    {
      StepsSetMeans(j, j.path.n + 1, q.0, q.1);
    }
    assert steps == drawn;
    forall q | q in steps
      ensures q in Cells(j.clip)
    {
      StepsSetMeans(j, j.path.n + 1, q.0, q.1);
    }
    SubsetSize(steps, Cells(j.clip));
    CellsSize(j.clip.x, j.clip.y, j.clip.w, j.clip.h);
  }

  ghost function Cells(r: Rect): set<(int, int)> {
    set x, y | r.x <= x < r.x + r.w && r.y <= y < r.y + r.h :: (x, y)
  }

  lemma {:induction false} SubsetSize<T>(a: set<T>, b: set<T>)
    requires a <= b
    ensures |a| <= |b|
  {
    assert b == a + (b - a);
    DisjointSize(a, b - a);
  }

  lemma {:induction false} RowSize(x: int, y: int, w: nat)
    ensures |Cells(Rect(x, y, w, 1))| == w
  {
    if 0 < w {
      RowSize(x, y, w - 1);
      assert Cells(Rect(x, y, w, 1)) == Cells(Rect(x, y, w - 1, 1)) + {(x + w - 1, y)};
    } else {
      assert Cells(Rect(x, y, w, 1)) == {};
    }
  }

  lemma {:induction false} CellsSize(x: int, y: int, w: nat, h: nat)
    ensures |Cells(Rect(x, y, w, h))| == w * h
  {
    if 0 < h {
      CellsSize(x, y, w, h - 1);
      RowSize(x, y + h - 1, w);
      var (a, b) := (Cells(Rect(x, y, w, h - 1)), Cells(Rect(x, y + h - 1, w, 1)));
      assert Cells(Rect(x, y, w, h)) == a + b;
      DisjointSize(a, b);
      assert w * h == w * (h - 1) + w;
    } else {
      assert Cells(Rect(x, y, w, h)) == {};
    }
  }
}
