/** `sspr`: part of a sheet drawn at another size, perhaps mirrored, by walks that
    carry a quotient, or by a slice where no scaling is asked for. */
module Blit {
  import opened Numbers
  import opened Raster

  /** The step along a source edge that destination step `i` counts from. */
  function Edge(to: int, flip: bool, i: int): int { if flip then to - 1 - i else i }

  /** The division the walk stands for. */
  function Offset(from: int, to: int, flip: bool, i: int): int
    requires 0 < to
  {
    Edge(to, flip, i) * from / to
  }

  /** Which source column or row comes next, forwards or mirrored. */
  class Walk {
    var at: int
    var rem: int
    const step: int
    const stepRem: int
    const to: int

    /** The next call returns the offset of step `i`. */
    ghost predicate Stands(from: int, flip: bool, i: int)
      reads this
    {
      && 0 < from && 0 < to
      && at == Offset(from, to, flip, i) && rem == Edge(to, flip, i) * from % to
      && step == (if flip then -(from / to) else from / to)
      && stepRem == (if flip then -(from % to) else from % to)
    }

    constructor (first: int, from: int, to: int, flip: bool)
      requires 0 < from && 0 < to
      ensures this.to == to && Stands(from, flip, first)
    {
      var i, sign := Edge(to, flip, first), if flip then -1 else 1;
      this.to := to;
      if from == to {
        at, rem, step, stepRem := i, 0, sign, 0;
        DivModUnique(i * from, to, i, 0);
        DivModUnique(from, to, 1, 0);
      } else {
        at, rem := i * from / to, i * from % to;
        step, stepRem := sign * (from / to), sign * (from % to);
      }
    }

    constructor Copy(w: Walk)
      ensures to == w.to && at == w.at && rem == w.rem && step == w.step && stepRem == w.stepRem
    {
      to, at, rem, step, stepRem := w.to, w.at, w.rem, w.step, w.stepRem;
    }

    /** Additions only, and exactly the quotient every time. */
    method Next(ghost from: int, ghost flip: bool, ghost i: int) returns (r: int)
      requires Stands(from, flip, i)
      modifies this
      ensures r == Offset(from, to, flip, i) && Stands(from, flip, i + 1)
    {
      r := at;
      WalkStep(from, to, flip, i);
      at := at + step;
      rem := rem + stepRem;
      if rem >= to {
        rem := rem - to;
        at := at + 1;
      } else if rem < 0 {
        rem := rem + to;
        at := at - 1;
      }
    }
  }

  lemma WalkStep(from: int, to: int, flip: bool, i: int)
    requires 0 < from && 0 < to
    ensures var (e, e') := (Edge(to, flip, i) * from, Edge(to, flip, i + 1) * from);
            var r := e % to + if flip then -(from % to) else from % to;
            var q := e / to + if flip then -(from / to) else from / to;
            && e' / to == (if r >= to then q + 1 else if r < 0 then q - 1 else q)
            && e' % to == (if r >= to then r - to else if r < 0 then r + to else r)
  {
    var e := Edge(to, flip, i) * from;
    var (q, r) := (from / to, from % to);
    assert from == q * to + r;
    if flip {
      assert Edge(to, flip, i + 1) * from == e - from;
      DivModStepDown(e, r, to);
      DivModShift(e - r, -q, to);
      assert (-q) * to == -(q * to);
    } else {
      assert Edge(to, flip, i + 1) * from == e + from;
      DivModStep(e, r, to);
      DivModShift(e + r, q, to);
    }
  }

  // ----- the definition ------------------------------------------------------------

  /** A copy once its destination is in the target's coordinates. */
  datatype Job = Job(sheet: Buf, sx: int, sy: int, sw: int, sh: int, dx: int, dy: int, dw: int, dh: int,
                     flipX: bool, flipY: bool, clip: Rect, table: Table) {
    predicate Valid() {
      && sheet.Bytes? && sheet.Valid() && table.Valid()
      && 0 < sw && 0 < sh && 0 < dw && 0 < dh
      && Fits32(dx) && Fits32(dy) && dw <= I32_MAX && dh <= I32_MAX
    }

    predicate On(cv: Canvas) { cv.Valid() && clip.Within(cv.width, cv.height) }

    const dest := Rect(dx, dy, dw, dh).Intersect(clip)

    function Column(x: int): int
      requires 0 < dw
    {
      sx + Offset(sw, dw, flipX, x - dx)
    }

    function Row(y: int): int
      requires 0 < dh
    {
      sy + Offset(sh, dh, flipY, y - dy)
    }

    predicate OnSheet(x: int, y: int)
      requires Valid()
    {
      0 <= Column(x) < sheet.width && 0 <= Row(y) < sheet.height
    }

    /** The source pixel a destination pixel shows. */
    function Source(x: int, y: int): byte
      requires Valid() && OnSheet(x, y)
    {
      IndexBound(sheet.width, sheet.height, Column(x), Row(y));
      sheet.pixels[Row(y) * sheet.width + Column(x)]
    }

    /** One destination pixel. */
    function Cell(cv: Canvas, x: int, y: int): (r: Canvas)
      requires Valid() && On(cv)
      ensures On(r) && SameShape(cv, r)
    {
      if OnSheet(x, y) then Blend(cv, clip, table, x, y, Source(x, y)) else cv
    }

    /** The columns of row `y` before `x`, then the rows before `y`. */
    function RowTo(cv: Canvas, y: int, x: int): (r: Canvas)
      requires Valid() && On(cv)
      ensures On(r) && SameShape(cv, r)
      decreases x - dest.x
    {
      if x <= dest.x then cv else Cell(RowTo(cv, y, x - 1), x - 1, y)
    }

    function RowsTo(cv: Canvas, y: int): (r: Canvas)
      requires Valid() && On(cv)
      ensures On(r) && SameShape(cv, r)
      decreases y - dest.y
    {
      if y <= dest.y then cv else RowTo(RowsTo(cv, y - 1), y - 1, dest.Right())
    }
  }

  lemma DestInside(j: Job, cv: Canvas)
    requires j.Valid() && j.On(cv)
    ensures j.dest.IsEmpty() || (j.dest.Within(cv.width, cv.height) && j.dest.x >= j.dx && j.dest.y >= j.dy)
    ensures forall x, y :: j.dest.Contains(x, y) ==> j.clip.Contains(x, y)
  {
  }

  /** Columns off the sheet are skipped. */
  lemma {:induction false} RowSkip(j: Job, cv: Canvas, y: int, x: int, x': int)
    requires j.Valid() && j.On(cv) && x <= x'
    requires forall q :: x <= q < x' ==> !j.OnSheet(q, y)
    ensures j.RowTo(cv, y, x') == j.RowTo(cv, y, x)
    decreases x' - x
  {
    hide Job.OnSheet, Blend, Job.Source, Rect.Intersect;
    if x < x' {
      RowSkip(j, cv, y, x, x' - 1);
    }
  }

  /** One pixel that is drawn, as one write. */
  lemma RowStep(j: Job, cv: Canvas, y: int, x: int)
    requires j.Valid() && j.On(cv) && j.dest.Contains(x, y) && j.OnSheet(x, y)
    ensures var (a, b, p) := (j.RowTo(cv, y, x), j.RowTo(cv, y, x + 1), y * cv.width + x);
            && 0 <= p < |cv.pixels|
            && b.pixels == a.pixels[p := j.table.Lookup(j.Source(x, y), a.pixels[p])]
            && b.touched == a.touched + 1
  {
    hide Job.OnSheet, Table.Lookup, Job.Source;
    DestInside(j, cv);
    IndexBound(cv.width, cv.height, x, y);
  }

  lemma RowNone(j: Job, cv: Canvas, y: int, x: int)
    requires j.Valid() && j.On(cv) && !j.OnSheet(x, y)
    ensures j.RowTo(cv, y, x + 1) == j.RowTo(cv, y, x)
  {
    hide Job.OnSheet, Job.Source, Blend;
  }

  lemma RowsOne(j: Job, cv: Canvas, y: int)
    requires j.Valid() && j.On(cv) && j.dest.y <= y
    ensures j.RowsTo(cv, y + 1) == j.RowTo(j.RowsTo(cv, y), y, j.dest.Right())
    ensures j.RowsTo(cv, j.dest.y) == cv
    ensures j.RowTo(cv, y, j.dest.x) == cv
  {
    hide Job.Cell, Rect.Intersect, Rect.Right;
  }

  // ----- the two ways across a row -------------------------------------------------

  /** The destination columns that have a source column, and the first of it. */
  datatype Run = Run(a: int, b: int, from: int)

  function RunOf(j: Job): Run
    requires j.Valid() && j.sw == j.dw
  {
    var (first, lo, hi) :=
      if j.flipX then
        var last := j.dx + j.sx + j.dw - 1;
        (j.sx + j.dw - 1 - (j.dest.x - j.dx), last - (j.sheet.width - 1), last)
      else
        var zero := j.dx - j.sx;
        (j.sx + (j.dest.x - j.dx), zero, zero + j.sheet.width - 1);
    var (a, b) := (Max(j.dest.x, lo), Min(j.dest.Right() - 1, hi));
    var skipped := a - j.dest.x;
    Run(a, b, if j.flipX then first - skipped else first + skipped)
  }

  /** Unscaled, the columns on the sheet are one run, forwards or backwards. */
  lemma RunMeans(j: Job, x: int)
    requires j.Valid() && j.sw == j.dw && j.dest.x <= x < j.dest.Right()
    ensures var r := RunOf(j);
            && (0 <= j.Column(x) < j.sheet.width <==> r.a <= x <= r.b)
            && (r.a <= x <= r.b ==> j.Column(x) == if j.flipX then r.from - (x - r.a) else r.from + (x - r.a))
            && j.dest.x <= r.a && r.b < j.dest.Right()
  {
    hide Rect.Intersect;
    DivModUnique(Edge(j.dw, j.flipX, x - j.dx) * j.sw, j.dw, Edge(j.dw, j.flipX, x - j.dx), 0);
  }

  /** A row copied as a slice. */
  method CopyRun(s: Surface, j: Job, y: int, row: int, run: Run, ghost cv: Canvas)
    requires s.Valid() && j.Valid() && j.On(cv) && SameShape(s.View(), cv) && s.pixels[..] == cv.pixels
    requires !j.dest.IsEmpty() && j.dest.y <= y < j.dest.Bottom()
    requires row == j.Row(y) && 0 <= row < j.sheet.height
    requires j.sw == j.dw && run == RunOf(j)
    modifies s, s.pixels
    ensures s.Valid() && s.pixels[..] == j.RowTo(cv, y, j.dest.Right()).pixels
    ensures s.touched + cv.touched == old(s.touched) + j.RowTo(cv, y, j.dest.Right()).touched
  {
    hide Rect.Intersect, Table.Lookup, Job.Source, Job.Cell, Job.RowTo, Job.Column, Job.Row, RunOf;
    var right := j.dest.Right();
    forall x | j.dest.x <= x < right
      ensures j.OnSheet(x, y) <==> run.a <= x <= run.b
      ensures j.dest.x <= run.a && run.b < right
    {
      RunMeans(j, x);
    }
    DestSpans(j);
    RunMeans(j, j.dest.x);
    RowsOne(j, cv, y);
    if run.a > run.b {
      RowSkip(j, cv, y, j.dest.x, right);
      return;
    }
    var n := run.b - run.a + 1;
    RowSkip(j, cv, y, j.dest.x, run.a);
    for k := 0 to n
      invariant s.touched == old(s.touched)
      invariant s.pixels[..] == j.RowTo(cv, y, run.a + k).pixels
      invariant j.RowTo(cv, y, run.a + k).touched == cv.touched + k
    {
      var x, col := run.a + k, if j.flipX then run.from - k else run.from + k;
      RunMeans(j, x);
      assert j.dest.Contains(x, y) && j.OnSheet(x, y);
      RowStep(j, cv, y, x);
      SourceIs(j, x, y, col, row);
      var p := y * s.width + x;
      s.pixels[p] := j.table.Lookup(j.sheet.pixels[row * j.sheet.width + col], s.pixels[p]);
    }
    RowSkip(j, cv, y, run.b + 1, right);
    s.touched := s.touched + n;
  }

  lemma SourceIs(j: Job, x: int, y: int, col: int, row: int)
    requires j.Valid() && j.OnSheet(x, y) && col == j.Column(x) && row == j.Row(y)
    ensures 0 <= row * j.sheet.width + col < |j.sheet.pixels|
    ensures j.Source(x, y) == j.sheet.pixels[row * j.sheet.width + col]
  {
    hide Job.Column, Job.Row;
    IndexBound(j.sheet.width, j.sheet.height, col, row);
  }

  /** A row copied pixel by pixel, the column walked. */
  method CopyWalked(s: Surface, j: Job, y: int, row: int, start: Walk, ghost cv: Canvas)
    requires s.Valid() && j.Valid() && j.On(cv) && SameShape(s.View(), cv) && s.pixels[..] == cv.pixels
    requires !j.dest.IsEmpty() && j.dest.y <= y < j.dest.Bottom()
    requires row == j.Row(y) && 0 <= row < j.sheet.height
    requires start.to == j.dw && start.Stands(j.sw, j.flipX, j.dest.x - j.dx)
    modifies s, s.pixels
    ensures s.Valid() && s.pixels[..] == j.RowTo(cv, y, j.dest.Right()).pixels
    ensures s.touched + cv.touched == old(s.touched) + j.RowTo(cv, y, j.dest.Right()).touched
  {
    hide Rect.Intersect, Table.Lookup, Job.Source, Job.Cell, Job.RowTo, Job.Row, Offset, Edge;
    var columns := new Walk.Copy(start);
    DestSpans(j);
    RowsOne(j, cv, y);
    for x := j.dest.x to j.dest.Right()
      invariant columns.to == j.dw && columns.Stands(j.sw, j.flipX, x - j.dx)
      invariant fresh(columns)
      invariant s.pixels[..] == j.RowTo(cv, y, x).pixels
      invariant s.touched + cv.touched == old(s.touched) + j.RowTo(cv, y, x).touched
    {
      var offset := columns.Next(j.sw, j.flipX, x - j.dx);
      var col := j.sx + offset;
      if col < 0 || col >= j.sheet.width {
        RowNone(j, cv, y, x);
      } else {
        RowStep(j, cv, y, x);
        SourceIs(j, x, y, col, row);
        s.touched := s.touched + 1;
        var p := y * s.width + x;
        s.pixels[p] := j.table.Lookup(j.sheet.pixels[row * j.sheet.width + col], s.pixels[p]);
      }
    }
  }

  /** The whole call by its definition. */
  ghost function ByDefinition(cv: Canvas, pen: Pen, sheet: Buf, sx: int, sy: int, sw: int, sh: int,
                              x: int, y: int, dw: int, dh: int, flipX: bool, flipY: bool): (r: Canvas)
    requires cv.Valid() && pen.Ready(cv.width, cv.height) && sheet.Valid() && dw <= I32_MAX && dh <= I32_MAX
    ensures r.Valid() && SameShape(cv, r)
  {
    if !sheet.Bytes? || sw <= 0 || sh <= 0 || dw <= 0 || dh <= 0 then cv
    else
      var j := Job(sheet, sx, sy, sw, sh, pen.WorldX(x), pen.WorldY(y), dw, dh, flipX, flipY, pen.clip, pen.table);
      j.RowsTo(cv, j.dest.Bottom())
  }

  method Sspr(s: Surface, pen: Pen, sheet: Buf, sx: int, sy: int, sw: int, sh: int,
              x: int, y: int, dw: int, dh: int, flipX: bool, flipY: bool)
    requires s.Valid() && pen.Ready(s.width, s.height) && sheet.Valid() && dw <= I32_MAX && dh <= I32_MAX
    modifies s, s.pixels
    ensures s.Valid()
    ensures s.View() == ByDefinition(old(s.View()), pen, sheet, sx, sy, sw, sh, x, y, dw, dh, flipX, flipY)
  {
    hide Rect.Intersect, Job.RowTo, Job.RowsTo, Table.Lookup, Offset, Edge, RunOf;
    if !sheet.Bytes? {
      return;
    }
    if sw <= 0 || sh <= 0 || dw <= 0 || dh <= 0 {
      return;
    }
    var j := Job(sheet, sx, sy, sw, sh, pen.WorldX(x), pen.WorldY(y), dw, dh, flipX, flipY, pen.clip, pen.table);
    ghost var cv := s.View();
    RowsOne(j, cv, j.dest.y);
    if j.dest.IsEmpty() {
      EmptyRows(j, cv);
      return;
    }
    var rows := new Walk(j.dest.y - j.dy, sh, dh, flipY);
    var columns := new Walk(j.dest.x - j.dx, sw, dw, flipX);
    DestSpans(j);
    for py := j.dest.y to j.dest.Bottom()
      invariant s.Valid() && s.View() == j.RowsTo(cv, py)
      invariant fresh(rows) && fresh(columns) && rows != columns
      invariant rows.to == dh && rows.Stands(sh, flipY, py - j.dy)
      invariant columns.to == dw && columns.Stands(sw, flipX, j.dest.x - j.dx)
    {
      ghost var before := j.RowsTo(cv, py);
      var offset := rows.Next(sh, flipY, py - j.dy);
      var row := sy + offset;
      RowsOne(j, cv, py);
      if row < 0 || row >= sheet.height {
        RowSkip(j, before, py, j.dest.x, j.dest.Right());
        RowsOne(j, before, py);
      } else if sw == dw {
        CopyRun(s, j, py, row, RunOf(j), before);
      } else {
        CopyWalked(s, j, py, row, columns, before);
      }
    }
  }

  lemma EmptyRows(j: Job, cv: Canvas)
    requires j.Valid() && j.On(cv) && j.dest.IsEmpty()
    ensures j.RowsTo(cv, j.dest.Bottom()) == cv
  {
  }

  lemma DestSpans(j: Job)
    requires j.Valid() && !j.dest.IsEmpty()
    ensures j.dest.x < j.dest.Right() && j.dest.y < j.dest.Bottom()
  {
  }

  // ----- what a copy leaves --------------------------------------------------------

  /** The destination pixels in the clip whose source pixel is on the sheet. */
  predicate Shows(j: Job, x: int, y: int)
    requires j.Valid()
  {
    && j.clip.Contains(x, y)
    && j.dx <= x < j.dx + j.dw && j.dy <= y < j.dy + j.dh
    && j.OnSheet(x, y)
  }

  lemma DestMeans(j: Job, cv: Canvas, x: int, y: int)
    requires j.Valid() && j.On(cv)
    ensures j.dest.Contains(x, y) <==>
            j.clip.Contains(x, y) && j.dx <= x < j.dx + j.dw && j.dy <= y < j.dy + j.dh
  {
  }

  lemma {:induction false} RowPixel(j: Job, cv: Canvas, y: int, x: int, px: int, py: int)
    requires j.Valid() && j.On(cv) && cv.Has(px, py)
    requires forall q :: j.dest.x <= q < x ==> j.clip.Contains(q, y)
    ensures j.RowTo(cv, y, x).Pixel(px, py) ==
            if py == y && j.dest.x <= px < x && j.OnSheet(px, py)
            then j.table.Lookup(j.Source(px, py), cv.Pixel(px, py)) else cv.Pixel(px, py)
    decreases x - j.dest.x
  {
    hide Rect.Intersect, Table.Lookup, Job.Source, Job.OnSheet, Blend, Canvas.Pixel, Rect.Contains;
    if j.dest.x < x {
      RowPixel(j, cv, y, x - 1, px, py);
      if j.OnSheet(x - 1, y) {
        BlendPixel(j.RowTo(cv, y, x - 1), j.clip, j.table, x - 1, y, j.Source(x - 1, y), px, py);
      }
    }
  }

  lemma {:induction false} RowsPixel(j: Job, cv: Canvas, y: int, px: int, py: int)
    requires j.Valid() && j.On(cv) && cv.Has(px, py) && y <= Max(j.dest.y, j.dest.Bottom())
    ensures j.RowsTo(cv, y).Pixel(px, py) ==
            if j.dest.Contains(px, py) && py < y && j.OnSheet(px, py)
            then j.table.Lookup(j.Source(px, py), cv.Pixel(px, py)) else cv.Pixel(px, py)
    decreases y - j.dest.y
  {
    hide Rect.Intersect, Table.Lookup, Job.Source, Job.OnSheet, Canvas.Pixel, Job.RowTo;
    if j.dest.y < y {
      var y' := y - 1;
      RowsPixel(j, cv, y - 1, px, py);
      forall q | j.dest.x <= q < j.dest.Right()
        ensures j.clip.Contains(q, y')
      {
        DestMeans(j, cv, q, y');
        assert j.dest.Contains(q, y');
      }
      RowPixel(j, j.RowsTo(cv, y - 1), y - 1, j.dest.Right(), px, py);
    }
  }

  /** The image law: a pixel that shows is its old value seen through its source
      pixel; every other pixel is as it was. */
  lemma SsprPixel(j: Job, cv: Canvas, x: int, y: int)
    requires j.Valid() && j.On(cv) && cv.Has(x, y)
    ensures j.RowsTo(cv, j.dest.Bottom()).Pixel(x, y) ==
            if Shows(j, x, y) then j.table.Lookup(j.Source(x, y), cv.Pixel(x, y)) else cv.Pixel(x, y)
  {
    hide Table.Lookup, Job.Source, Job.OnSheet, Canvas.Pixel, Job.RowsTo, Rect.Intersect;
    RowsPixel(j, cv, j.dest.Bottom(), x, y);
    DestMeans(j, cv, x, y);
  }

  ghost function RowSet(j: Job, y: int, x: int): set<(int, int)>
    requires j.Valid()
    decreases x - j.dest.x
  {
    if x <= j.dest.x then {} else RowSet(j, y, x - 1) + if j.OnSheet(x - 1, y) then {(x - 1, y)} else {}
  }

  ghost function RowsSet(j: Job, y: int): set<(int, int)>
    requires j.Valid()
    decreases y - j.dest.y
  {
    if y <= j.dest.y then {} else RowsSet(j, y - 1) + RowSet(j, y - 1, j.dest.Right())
  }

  lemma {:induction false} RowSetMeans(j: Job, y: int, x: int, p: (int, int))
    requires j.Valid()
    ensures p in RowSet(j, y, x) <==> p.1 == y && j.dest.x <= p.0 < x && j.OnSheet(p.0, p.1)
    decreases x - j.dest.x
  {
    hide Job.OnSheet, Rect.Intersect;
    if j.dest.x < x {
      RowSetMeans(j, y, x - 1, p);
    }
  }

  lemma {:induction false} RowsSetMeans(j: Job, y: int, p: (int, int))
    requires j.Valid()
    ensures p in RowsSet(j, y) <==>
            j.dest.x <= p.0 < j.dest.Right() && j.dest.y <= p.1 < y && j.OnSheet(p.0, p.1)
    decreases y - j.dest.y
  {
    hide Job.OnSheet, Rect.Intersect, RowSet, Rect.Right;
    if j.dest.y < y {
      RowsSetMeans(j, y - 1, p);
      RowSetMeans(j, y - 1, j.dest.Right(), p);
    }
  }

  lemma {:induction false} RowTouched(j: Job, cv: Canvas, y: int, x: int)
    requires j.Valid() && j.On(cv)
    requires forall q :: j.dest.x <= q < x ==> j.clip.Contains(q, y)
    ensures j.RowTo(cv, y, x).touched == cv.touched + |RowSet(j, y, x)|
    decreases x - j.dest.x
  {
    hide Rect.Intersect, Table.Lookup, Job.Source, Job.OnSheet, Blend, Rect.Contains;
    if j.dest.x < x {
      RowTouched(j, cv, y, x - 1);
      RowSetMeans(j, y, x - 1, (x - 1, y));
      if j.OnSheet(x - 1, y) {
        BlendTouched(j.RowTo(cv, y, x - 1), j.clip, j.table, x - 1, y, j.Source(x - 1, y));
      }
    }
  }

  lemma {:induction false} RowsTouched(j: Job, cv: Canvas, y: int)
    requires j.Valid() && j.On(cv) && y <= Max(j.dest.y, j.dest.Bottom())
    ensures j.RowsTo(cv, y).touched == cv.touched + |RowsSet(j, y)|
    decreases y - j.dest.y
  {
    hide Rect.Intersect, Job.OnSheet, Job.RowTo, RowSet;
    if j.dest.y < y {
      var y' := y - 1;
      RowsTouched(j, cv, y');
      forall q | j.dest.x <= q < j.dest.Right()
        ensures j.clip.Contains(q, y')
      {
        DestMeans(j, cv, q, y');
        assert j.dest.Contains(q, y');
      }
      RowTouched(j, j.RowsTo(cv, y'), y', j.dest.Right());
      forall p | p in RowsSet(j, y')
        ensures p !in RowSet(j, y', j.dest.Right())
      {
        RowsSetMeans(j, y', p);
        RowSetMeans(j, y', j.dest.Right(), p);
      }
      DisjointSize(RowsSet(j, y'), RowSet(j, y', j.dest.Right()));
    }
  }

  /** The meter: the pixels that show, each once. */
  lemma SsprTouched(j: Job, cv: Canvas)
    requires j.Valid() && j.On(cv)
    ensures var shown := set x, y | 0 <= x < cv.width && 0 <= y < cv.height && Shows(j, x, y) :: (x, y);
            j.RowsTo(cv, j.dest.Bottom()).touched == cv.touched + |shown|
  {
    hide Job.OnSheet, Job.RowsTo, RowsSet, Rect.Intersect;
    var shown := set x, y | 0 <= x < cv.width && 0 <= y < cv.height && Shows(j, x, y) :: (x, y);
    RowsTouched(j, cv, j.dest.Bottom());
    forall p: (int, int)
      ensures p in RowsSet(j, j.dest.Bottom()) <==> p in shown
    {
      RowsSetMeans(j, j.dest.Bottom(), p);
      DestMeans(j, cv, p.0, p.1);
      assert p == (p.0, p.1);
    }
    assert RowsSet(j, j.dest.Bottom()) == shown;
  }
}
