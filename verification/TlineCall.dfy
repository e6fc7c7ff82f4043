/** A textured line, told from its arguments: which pixels it reaches and which
    pixel of the sheet each of them shows. */
module TlineCall {
  import opened Numbers
  import opened Raster
  import opened TlinePath
  import opened Tline
  import opened TlineMeaning
  import opened Wrappers

  /** The part of the texture's rectangle that is on the sheet, all of it; there is
      none exactly when no pixel of the sheet is in the rectangle. */
  lemma RegionMeans(sheet: Buf, tex: Texture, px: int, py: int)
    ensures var held := 0 <= px < sheet.width && 0 <= py < sheet.height
                        && tex.x <= px < tex.x + tex.w && tex.y <= py < tex.y + tex.h;
            match RegionOf(sheet, tex)
            case None => !held
            case Some(r) =>
              0 < r.w && 0 < r.h && (r.left <= px < r.left + r.w && r.top <= py < r.top + r.h <==> held)
  {
  }

  /** The pixel of a sheet in this column and row. */
  function SheetPixel(sheet: Buf, column: int, row: int): byte
    requires sheet.Bytes? && sheet.Valid() && 0 <= column < sheet.width && 0 <= row < sheet.height
  {
    IndexBound(sheet.width, sheet.height, column, row);
    sheet.pixels[row * sheet.width + column]
  }

  /** Step `i` of a position that starts at `at` and moves by `step`, in 65536ths, in a
      strip of `count` columns or rows from `first`, round which it wraps. */
  function Strip(at: int, step: int, i: int, first: int, count: int): (c: int)
    requires 0 < count
    ensures first <= c < first + count
  {
    StripBound((at + i * step) % (count * TEXEL), count);
    first + (at + i * step) % (count * TEXEL) / TEXEL
  }

  lemma StripBound(u: int, count: int)
    requires 0 <= u < count * TEXEL
    ensures 0 <= u / TEXEL < count
  {
  }

  /** How far the line has moved on its shorter axis at step `i` of `n`. */
  function Drift(i: int, n: nat, along: nat): int {
    if n == 0 then 0 else (2 * i * along + n) / (2 * n)
  }

  /** The step of the line from `(x0, y0)` to `(x1, y1)` that a pixel belongs to: its
      distance from the first end along the longer axis. */
  function StepAt(x0: int, y0: int, x1: int, y1: int, x: int, y: int): int {
    if Abs(x1 - x0) >= Abs(y1 - y0) then if x1 < x0 then x0 - x else x - x0
    else if y1 < y0 then y0 - y else y - y0
  }

  /** The pixel is one of the `thick` from the line's own on, down or to the right. */
  predicate Reaches(x0: int, y0: int, x1: int, y1: int, thick: int, x: int, y: int) {
    var (dx, dy, i) := (x1 - x0, y1 - y0, StepAt(x0, y0, x1, y1, x, y));
    var n := Max(Abs(dx), Abs(dy));
    var drift := Drift(i, n, Min(Abs(dx), Abs(dy)));
    && 0 <= i <= n
    && if Abs(dx) >= Abs(dy) then 0 <= y - (if dy < 0 then y0 - drift else y0 + drift) < thick
       else 0 <= x - (if dx < 0 then x0 - drift else x0 + drift) < thick
  }

  /** What step `i` shows: the pixel of the sheet in the column and row that its texture
      position wraps to, in the part of the rectangle that is on the sheet. */
  function Shown(sheet: Buf, tex: Texture, i: int): Option<byte>
    requires sheet.Valid()
  {
    var (left, top) := (Max(tex.x, 0), Max(tex.y, 0));
    var (w, h) := (Min(tex.x + tex.w, sheet.width) - left, Min(tex.y + tex.h, sheet.height) - top);
    if !sheet.Bytes? || w <= 0 || h <= 0 then None
    else Some(SheetPixel(sheet, Strip(tex.u, tex.du, i, left, w), Strip(tex.v, tex.dv, i, top, h)))
  }

  lemma ShownMeans(pen: Pen, sheet: Buf, ends: (int, int, int, int), tex: Texture, i: int)
    requires pen.table.Valid() && sheet.Valid() && tex.thick <= I32_MAX
    ensures Shown(sheet, tex, i) ==
            if !sheet.Bytes? || RegionOf(sheet, tex).None? then None
            else Some(JobOf(pen, sheet, ends, RegionOf(sheet, tex).value, tex).Texel(i))
  {
    hide SheetPixel, Strip, Job.Texel, PathOf;
    if sheet.Bytes? && RegionOf(sheet, tex).Some? {
      TexelIs(JobOf(pen, sheet, ends, RegionOf(sheet, tex).value, tex), i);
    }
  }

  /** A texel is the pixel of the sheet in the column and row its position wraps to. */
  lemma TexelIs(j: Job, i: int)
    requires j.Valid()
    ensures j.Texel(i) == SheetPixel(j.sheet, Strip(j.tex.u, j.tex.du, i, j.region.left, j.region.w),
                                     Strip(j.tex.v, j.tex.dv, i, j.region.top, j.region.h))
  {
  }

  lemma ReachesMeans(j: Job, x0: int, y0: int, x1: int, y1: int, x: int, y: int)
    requires j.path == PathOf(x0, y0, x1, y1)
    ensures StepOf(j.path, x, y) == StepAt(x0, y0, x1, y1, x, y)
    ensures Hits(j, x, y) <==> j.clip.Contains(x, y) && Reaches(x0, y0, x1, y1, j.thick, x, y)
  {
    hide Drift, Path.Off, Rect.Contains;
    DriftIs(j.path, StepOf(j.path, x, y));
  }

  lemma DriftIs(p: Path, i: int)
    ensures p.Off(i) == Drift(i, p.n, p.along)
  {
  }

  /** The image law of a call. A pixel of the clip that the line reaches is its old value
      seen through what its step shows; every other pixel is as it was. */
  lemma TlineAt(cv: Canvas, pen: Pen, sheet: Buf, ends: (int, int, int, int), tex: Texture, x: int, y: int)
    requires cv.Valid() && pen.Ready(cv.width, cv.height) && sheet.Valid() && tex.thick <= I32_MAX
    requires cv.Has(x, y)
    ensures var after := ByDefinition(cv, pen, sheet, ends, tex);
            var (x0, y0) := (Sat32(ends.0 - pen.cameraX), Sat32(ends.1 - pen.cameraY));
            var (x1, y1) := (Sat32(ends.2 - pen.cameraX), Sat32(ends.3 - pen.cameraY));
            var shown := Shown(sheet, tex, StepAt(x0, y0, x1, y1, x, y));
            && after.Valid() && SameShape(cv, after)
            && after.Pixel(x, y) ==
               if shown.Some? && pen.clip.Contains(x, y) && Reaches(x0, y0, x1, y1, Max(tex.thick, 1), x, y)
               then pen.table.Lookup(shown.value, cv.Pixel(x, y)) else cv.Pixel(x, y)
  {
    hide Table.Lookup, Canvas.Pixel, Shown, Reaches, StepAt, StepOf, Hits, Job.Texel, PathOf, Rect.Contains, RegionOf;
    TlinePixel(cv, pen, sheet, ends, tex, x, y);
    DefinitionValid(cv, pen, sheet, ends, tex);
    var (x0, y0) := (Sat32(ends.0 - pen.cameraX), Sat32(ends.1 - pen.cameraY));
    var (x1, y1) := (Sat32(ends.2 - pen.cameraX), Sat32(ends.3 - pen.cameraY));
    ShownMeans(pen, sheet, ends, tex, StepAt(x0, y0, x1, y1, x, y));
    var region := RegionOf(sheet, tex);
    if sheet.Bytes? && region.Some? {
      ReachesMeans(JobOf(pen, sheet, ends, region.value, tex), x0, y0, x1, y1, x, y);
    }
  }

  lemma DefinitionValid(cv: Canvas, pen: Pen, sheet: Buf, ends: (int, int, int, int), tex: Texture)
    requires cv.Valid() && pen.Ready(cv.width, cv.height) && sheet.Valid() && tex.thick <= I32_MAX
    ensures ByDefinition(cv, pen, sheet, ends, tex).Valid()
  {
    hide Job.Steps, RegionOf, PathOf;
  }

  /** The drift is the exact share of the shorter axis, rounded to nearest. */
  lemma DriftIsNearest(i: int, n: nat, along: nat)
    requires 0 < n
    ensures -(n as int) < 2 * i * along - 2 * n * Drift(i, n, along) + 1 <= n + 1
  {
    var (a, b) := (2 * i * along + n, 2 * n);
    assert a == a / b * b + a % b;
    assert b * (a / b) == a / b * b;
  }

  /** Both ends are on the line. */
  lemma EndsAreReached(x0: int, y0: int, x1: int, y1: int)
    ensures Reaches(x0, y0, x1, y1, 1, x0, y0) && Reaches(x0, y0, x1, y1, 1, x1, y1)
  {
    var p := PathOf(x0, y0, x1, y1);
    OffEnds(p);
    DriftIs(p, 0);
    DriftIs(p, p.n);
  }
}
