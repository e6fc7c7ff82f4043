/** A scaled blit, told from its arguments: which pixel of the sheet each pixel of
    the destination shows, and what mirroring does. */
module BlitCall {
  import opened Numbers
  import opened Raster
  import opened Blit
  import opened Wrappers

  /** A step of the destination counts from inside the source edge. */
  lemma OffsetInside(from: int, to: int, flip: bool, i: int)
    requires 0 < from && 0 <= i < to
    ensures 0 <= Offset(from, to, flip, i) < from
  {
    ShareInside(i, from, to);
    ShareInside(to - 1 - i, from, to);
  }

  lemma ShareInside(e: int, from: int, to: int)
    requires 0 < from && 0 <= e < to
    ensures 0 <= e * from / to < from
  {
    MulMono(0, e, from);
    MulMono(e + 1, to, from);
    assert (e + 1) * from == e * from + from && to * from == from * to;
    DivAtLeast(e * from, to, 0);
    DivAtLeast(e * from, to, from);
  }

  /** Mirrored, a step counts what the step as far from the other end counts. */
  lemma OffsetMirrors(from: int, to: int, i: int)
    requires 0 < to
    ensures Offset(from, to, true, i) == Offset(from, to, false, to - 1 - i)
  {
  }

  /** How far into `count` pixels of source step `i` of `n` looks, from the start or,
      mirrored, from the end. */
  function Share(count: int, n: int, mirrored: bool, i: int): int
    requires 0 < n
  {
    (if mirrored then n - 1 - i else i) * count / n
  }

  /** The pixel of the sheet that column `i` and row `k` of the destination show, if
      it is on the sheet and there is anything to draw. */
  function Shown(sheet: Buf, sx: int, sy: int, sw: int, sh: int, dw: int, dh: int, flipX: bool, flipY: bool,
                 i: int, k: int): Option<byte>
    requires sheet.Valid()
  {
    if !sheet.Bytes? || sw <= 0 || sh <= 0 || !(0 <= i < dw) || !(0 <= k < dh) then None
    else
      var (column, row) := (sx + Share(sw, dw, flipX, i), sy + Share(sh, dh, flipY, k));
      if 0 <= column < sheet.width && 0 <= row < sheet.height then
        IndexBound(sheet.width, sheet.height, column, row);
        Some(sheet.pixels[row * sheet.width + column])
      else None
  }

  /** The image law of a call. */
  lemma SsprAt(cv: Canvas, pen: Pen, sheet: Buf, sx: int, sy: int, sw: int, sh: int,
               x: int, y: int, dw: int, dh: int, flipX: bool, flipY: bool, px: int, py: int)
    requires cv.Valid() && pen.Ready(cv.width, cv.height) && sheet.Valid() && dw <= I32_MAX && dh <= I32_MAX
    requires cv.Has(px, py)
    ensures var shown := Shown(sheet, sx, sy, sw, sh, dw, dh, flipX, flipY,
                               px - Sat32(x - pen.cameraX), py - Sat32(y - pen.cameraY));
            ByDefinition(cv, pen, sheet, sx, sy, sw, sh, x, y, dw, dh, flipX, flipY).Pixel(px, py) ==
            if shown.Some? && pen.clip.Contains(px, py) then pen.table.Lookup(shown.value, cv.Pixel(px, py))
            else cv.Pixel(px, py)
  {
    hide Table.Lookup, Canvas.Pixel, Job.Source, Job.Column, Job.Row, Share, Job.RowsTo, Rect.Contains, Rect.Intersect;
    if sheet.Bytes? && 0 < sw && 0 < sh && 0 < dw && 0 < dh {
      var j := Job(sheet, sx, sy, sw, sh, pen.WorldX(x), pen.WorldY(y), dw, dh, flipX, flipY, pen.clip, pen.table);
      SsprPixel(j, cv, px, py);
      ColumnIs(j, px);
      RowIs(j, py);
      if j.OnSheet(px, py) {
        SourceIs(j, px, py, j.Column(px), j.Row(py));
      }
    }
  }

  lemma ColumnIs(j: Job, x: int)
    requires 0 < j.dw
    ensures j.Column(x) == j.sx + Share(j.sw, j.dw, j.flipX, x - j.dx)
  {
  }

  lemma RowIs(j: Job, y: int)
    requires 0 < j.dh
    ensures j.Row(y) == j.sy + Share(j.sh, j.dh, j.flipY, y - j.dy)
  {
  }

  /** Flipping a call mirrors what it draws in its destination: over alike pixels of
      the clip, it leaves at one column, or row, what the call unflipped leaves as far
      from the other end. */
  lemma FlipMirrors(cv: Canvas, pen: Pen, sheet: Buf, sx: int, sy: int, sw: int, sh: int,
                    x: int, y: int, dw: int, dh: int, flipX: bool, flipY: bool, px: int, py: int)
    requires cv.Valid() && pen.Ready(cv.width, cv.height) && sheet.Valid() && dw <= I32_MAX && dh <= I32_MAX
    requires cv.Has(px, py) && pen.clip.Contains(px, py)
    ensures var px' := 2 * Sat32(x - pen.cameraX) + dw - 1 - px;
            pen.clip.Contains(px', py) && cv.Has(px', py) && cv.Pixel(px', py) == cv.Pixel(px, py) ==>
              ByDefinition(cv, pen, sheet, sx, sy, sw, sh, x, y, dw, dh, !flipX, flipY).Pixel(px, py) ==
              ByDefinition(cv, pen, sheet, sx, sy, sw, sh, x, y, dw, dh, flipX, flipY).Pixel(px', py)
    ensures var py' := 2 * Sat32(y - pen.cameraY) + dh - 1 - py;
            pen.clip.Contains(px, py') && cv.Has(px, py') && cv.Pixel(px, py') == cv.Pixel(px, py) ==>
              ByDefinition(cv, pen, sheet, sx, sy, sw, sh, x, y, dw, dh, flipX, !flipY).Pixel(px, py) ==
              ByDefinition(cv, pen, sheet, sx, sy, sw, sh, x, y, dw, dh, flipX, flipY).Pixel(px, py')
  {
    hide Table.Lookup, Canvas.Pixel, Rect.Contains, ByDefinition, Shown;
    var (x0, y0) := (Sat32(x - pen.cameraX), Sat32(y - pen.cameraY));
    var (px', py') := (2 * x0 + dw - 1 - px, 2 * y0 + dh - 1 - py);
    ShownMirrors(sheet, sx, sy, sw, sh, dw, dh, flipX, flipY, px - x0, py - y0);
    if cv.Has(px', py) {
      SsprAt(cv, pen, sheet, sx, sy, sw, sh, x, y, dw, dh, !flipX, flipY, px, py);
      SsprAt(cv, pen, sheet, sx, sy, sw, sh, x, y, dw, dh, flipX, flipY, px', py);
      assert px' - x0 == dw - 1 - (px - x0);
    }
    if cv.Has(px, py') {
      SsprAt(cv, pen, sheet, sx, sy, sw, sh, x, y, dw, dh, flipX, !flipY, px, py);
      SsprAt(cv, pen, sheet, sx, sy, sw, sh, x, y, dw, dh, flipX, flipY, px, py');
      assert py' - y0 == dh - 1 - (py - y0);
    }
  }

  lemma ShownMirrors(sheet: Buf, sx: int, sy: int, sw: int, sh: int, dw: int, dh: int, flipX: bool, flipY: bool,
                     i: int, k: int)
    requires sheet.Valid()
    ensures Shown(sheet, sx, sy, sw, sh, dw, dh, !flipX, flipY, i, k) ==
            Shown(sheet, sx, sy, sw, sh, dw, dh, flipX, flipY, dw - 1 - i, k)
    ensures Shown(sheet, sx, sy, sw, sh, dw, dh, flipX, !flipY, i, k) ==
            Shown(sheet, sx, sy, sw, sh, dw, dh, flipX, flipY, i, dh - 1 - k)
  {
    hide Share;
    if 0 < dw && 0 < dh {
      ShareMirrors(sw, dw, flipX, i);
      ShareMirrors(sh, dh, flipY, k);
    }
  }

  lemma ShareMirrors(count: int, n: int, mirrored: bool, i: int)
    requires 0 < n
    ensures Share(count, n, !mirrored, i) == Share(count, n, mirrored, n - 1 - i)
  {
    assert n - 1 - (n - 1 - i) == i;
  }

  /** A call with nothing to scale shows the sheet as it is. */
  lemma UnscaledIsPlain(sheet: Buf, sx: int, sy: int, w: int, h: int, i: int, k: int)
    requires sheet.Valid() && sheet.Bytes? && 0 <= i < w && 0 <= k < h
    requires 0 <= sx + i < sheet.width && 0 <= sy + k < sheet.height
    ensures 0 <= (sy + k) * sheet.width + (sx + i) < |sheet.pixels|
    ensures Shown(sheet, sx, sy, w, h, w, h, false, false, i, k) == Some(sheet.pixels[(sy + k) * sheet.width + (sx + i)])
  {
    DivModUnique(i * w, w, i, 0);
    DivModUnique(k * h, h, k, 0);
    IndexBound(sheet.width, sheet.height, sx + i, sy + k);
  }
}
