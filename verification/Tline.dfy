/** `tline`: a clipped, thick, textured line, walked by additions, against its
    definition of one division a step and one clip test a pixel. */
module Tline {
  import opened Numbers
  import opened Raster
  import opened TlinePath
  import opened Wrappers

  /** Where the texture starts and how it moves, in 65536ths of a texel, the part of
      the sheet it wraps in, and the line's thickness. */
  datatype Texture = Texture(u: int, v: int, du: int, dv: int, x: int, y: int, w: int, h: int, thick: int)

  /** The rectangle cut to the sheet. */
  datatype Region = Region(left: nat, top: nat, w: nat, h: nat) {
    predicate Inside(width: nat, height: nat) {
      0 < w && 0 < h && left + w <= width && top + h <= height
    }
  }

  function RegionOf(sheet: Buf, tex: Texture): (r: Option<Region>)
    ensures r.Some? ==> r.value.Inside(sheet.width, sheet.height)
  {
    var (left, top) := (Max(tex.x, 0), Max(tex.y, 0));
    var (right, bottom) := (Min(tex.x + tex.w, sheet.width), Min(tex.y + tex.h, sheet.height));
    if right <= left || bottom <= top then None
    else Some(Region(left, top, right - left, bottom - top))
  }

  /** Everything a line needs once its ends and its region are known. */
  datatype Job = Job(path: Path, clip: Rect, table: Table, sheet: Buf, region: Region, tex: Texture, thick: int) {
    const wrapU := region.w * TEXEL
    const wrapV := region.h * TEXEL

    predicate Valid() {
      && path.Valid() && path.Narrow() && table.Valid()
      && sheet.Bytes? && sheet.Valid() && region.Inside(sheet.width, sheet.height)
      && 1 <= thick <= I32_MAX
    }

    predicate On(cv: Canvas) { cv.Valid() && clip.Within(cv.width, cv.height) }

    /** The texel of step `i`: the stepped position, wrapped into the region. */
    function Texel(i: int): byte
      requires Valid()
    {
      sheet.pixels[TexelIndex(U(i), V(i))]
    }

    function U(i: int): (u: int)
      requires Valid()
      ensures 0 <= u < wrapU
    {
      Wrapped(tex.u, i, tex.du, wrapU)
    }

    function V(i: int): (v: int)
      requires Valid()
      ensures 0 <= v < wrapV
    {
      Wrapped(tex.v, i, tex.dv, wrapV)
    }

    function TexelIndex(u: int, v: int): (t: nat)
      requires Valid() && 0 <= u < wrapU && 0 <= v < wrapV
      ensures t < |sheet.pixels|
    {
      IndexBound(sheet.width, sheet.height, region.left + u / TEXEL, region.top + v / TEXEL);
      (region.top + v / TEXEL) * sheet.width + region.left + u / TEXEL
    }

    /** Pixel `k` of step `i` is in the clip. */
    predicate Draws(i: int, k: int) {
      clip.Contains(path.X(i, k), path.Y(i, k))
    }

    /** The definition of one step: each of its first `k` pixels, tested. */
    function Across(cv: Canvas, i: int, k: nat): (r: Canvas)
      requires Valid() && On(cv)
      ensures On(r) && SameShape(cv, r)
    {
      if k == 0 then cv
      else Blend(Across(cv, i, k - 1), clip, table, path.X(i, k - 1), path.Y(i, k - 1), Texel(i))
    }

    /** The definition of the line: its first `i` steps, in order. */
    function Steps(cv: Canvas, i: nat): (r: Canvas)
      requires Valid() && On(cv)
      ensures On(r) && SameShape(cv, r)
    {
      if i == 0 then cv else Across(Steps(cv, i - 1), i - 1, thick)
    }
  }

  /** The whole call by its definition, as an image. */
  ghost function ByDefinition(cv: Canvas, pen: Pen, sheet: Buf, ends: (int, int, int, int), tex: Texture): Canvas
    requires cv.Valid() && pen.Ready(cv.width, cv.height) && sheet.Valid() && tex.thick <= I32_MAX
  {
    var region := RegionOf(sheet, tex);
    if !sheet.Bytes? || region.None? then cv
    else
      var j := JobOf(pen, sheet, ends, region.value, tex);
      j.Steps(cv, j.path.n + 1)
  }

  function JobOf(pen: Pen, sheet: Buf, ends: (int, int, int, int), region: Region, tex: Texture): (j: Job)
    requires pen.table.Valid() && sheet.Valid() && sheet.Bytes?
    requires region.Inside(sheet.width, sheet.height) && tex.thick <= I32_MAX
    ensures j.Valid()
  {
    var p := PathOf(pen.WorldX(ends.0), pen.WorldY(ends.1), pen.WorldX(ends.2), pen.WorldY(ends.3));
    Job(p, pen.clip, pen.table, sheet, region, tex, Max(tex.thick, 1))
  }

  /** A step shows in the window exactly when one of its pixels is in the clip. */
  lemma DrawsMeans(j: Job, i: int, k: int)
    ensures var w := WindowOf(j.path, j.clip);
            j.Draws(i, k) <==>
            w.mLo <= j.path.Major(i) <= w.mHi && w.cLo <= j.path.Minor(i) + k <= w.cHi
  {
    hide Path.Off;
  }

  // ----- steps and pixels that draw nothing -----------------------------------

  lemma {:induction false} AcrossSkip(j: Job, cv: Canvas, i: int, k: nat, k': nat)
    requires j.Valid() && j.On(cv) && k <= k'
    requires forall q :: k <= q < k' ==> !j.Draws(i, q)
    ensures j.Across(cv, i, k') == j.Across(cv, i, k)
  {
    hide Path.Off, Job.Texel, Table.Lookup;
    if k < k' {
      AcrossSkip(j, cv, i, k, k' - 1);
      assert !j.Draws(i, k' - 1);
    }
  }

  /** No pixel of step `i` is in the clip. */
  ghost predicate Blank(j: Job, i: int) {
    forall q :: 0 <= q < j.thick ==> !j.Draws(i, q)
  }

  lemma {:induction false} StepsSkip(j: Job, cv: Canvas, i: nat, i': nat)
    requires j.Valid() && j.On(cv) && i <= i'
    requires forall q :: i <= q < i' ==> Blank(j, q)
    ensures j.Steps(cv, i') == j.Steps(cv, i)
  {
    hide Path.Off, Job.Texel, Job.Across, Job.Draws;
    if i < i' {
      StepsSkip(j, cv, i, i' - 1);
      assert Blank(j, i' - 1);
      AcrossSkip(j, j.Steps(cv, i' - 1), i' - 1, 0, j.thick);
      AcrossNone(j, j.Steps(cv, i' - 1), i' - 1);
    }
  }

  lemma AcrossNone(j: Job, cv: Canvas, i: int)
    requires j.Valid() && j.On(cv)
    ensures j.Across(cv, i, 0) == cv
  {
  }

  lemma NothingDrawn(j: Job, i: int)
    requires !Shows(j.path, WindowOf(j.path, j.clip), j.thick, i)
    ensures Blank(j, i)
  {
    forall q | 0 <= q < j.thick
      ensures !j.Draws(i, q)
    {
      DrawsMeans(j, i, q);
    }
  }

  // ----- offsets into the buffer ----------------------------------------------

  /** Where pixel `k` of step `i` is, inside the buffer or not. */
  function StepIndex(p: Path, width: nat, i: int, k: int): int {
    Index(width, p.X(i, k), p.Y(i, k))
  }

  function AcrossStride(p: Path, width: int): int { if p.horizontal then width else 1 }

  function MajorStride(p: Path, width: int): int {
    if p.horizontal then if p.down then -1 else 1 else if p.down then -width else width
  }

  function MinorStride(p: Path, width: int): int {
    if p.horizontal then width * p.sign else p.sign
  }

  lemma IndexAcross(p: Path, width: nat, i: int, k: int)
    ensures StepIndex(p, width, i, k) == StepIndex(p, width, i, 0) + k * AcrossStride(p, width)
  {
    assert (p.Minor(i) + k) * width == p.Minor(i) * width + k * width;
  }

  lemma IndexStep(p: Path, width: nat, i: int)
    ensures p.Off(i + 1) == p.Off(i) ==>
              StepIndex(p, width, i + 1, 0) == StepIndex(p, width, i, 0) + MajorStride(p, width)
    ensures p.Off(i + 1) == p.Off(i) + 1 ==>
              StepIndex(p, width, i + 1, 0) == StepIndex(p, width, i, 0) + MajorStride(p, width) + MinorStride(p, width)
  {
    assert (p.Major(i) + 1) * width == p.Major(i) * width + width;
    assert (p.Major(i) - 1) * width == p.Major(i) * width - width;
    assert (p.Minor(i) + p.sign) * width == p.Minor(i) * width + width * p.sign;
  }

  // ----- the loops -------------------------------------------------------------

  /** One pixel that is drawn, as one write to the buffer. */
  lemma AcrossStep(j: Job, cv: Canvas, i: int, k: nat)
    requires j.Valid() && j.On(cv) && j.Draws(i, k)
    ensures var (a, b, p) := (j.Across(cv, i, k), j.Across(cv, i, k + 1), StepIndex(j.path, cv.width, i, k));
            && 0 <= p < |cv.pixels|
            && b.pixels == a.pixels[p := j.table.Lookup(j.Texel(i), a.pixels[p])]
            && b.touched == a.touched + 1
  {
    hide Path.Off, Job.Texel, Table.Lookup;
    var (x, y) := (j.path.X(i, k), j.path.Y(i, k));
    IndexBound(cv.width, cv.height, x, y);
  }

  /** The pixels `k0..=k1` of a step, which are the ones inside the clip. */
  method BlendRun(s: Surface, ghost j: Job, ghost cv: Canvas, ghost i: int,
                  c: byte, table: Table, p0: int, across: int, ghost k0: nat, wide: nat)
    requires s.Valid() && s.View().pixels == cv.pixels && SameShape(s.View(), cv)
    requires j.Valid() && j.On(cv) && table == j.table && c == j.Texel(i)
    requires across == AcrossStride(j.path, s.width) && p0 == StepIndex(j.path, s.width, i, k0)
    requires k0 + wide <= j.thick
    requires forall q :: 0 <= q < j.thick ==>
               (j.Draws(i, q) <==> k0 <= q < k0 + wide)
    modifies s.pixels
    ensures s.pixels[..] == j.Across(cv, i, j.thick).pixels
    ensures j.Across(cv, i, j.thick).touched == cv.touched + wide
  {
    hide Path.Off, Job.Texel, Job.Across, Job.Draws, Table.Lookup, StepIndex;
    AcrossNone(j, cv, i);
    AcrossSkip(j, cv, i, 0, k0);
    var p := p0;
    for q := 0 to wide
      invariant p == StepIndex(j.path, s.width, i, k0 + q)
      invariant s.pixels[..] == j.Across(cv, i, k0 + q).pixels
      invariant j.Across(cv, i, k0 + q).touched == cv.touched + q
    {
      AcrossStep(j, cv, i, k0 + q);
      s.pixels[p] := table.Lookup(c, s.pixels[p]);
      IndexAcross(j.path, s.width, i, k0 + q);
      IndexAcross(j.path, s.width, i, k0 + q + 1);
      p := p + across;
    }
    AcrossSkip(j, cv, i, k0 + wide, j.thick);
  }

  // ----- one step on --------------------------------------------------------------

  lemma TextureStep(j: Job, i: int)
    requires j.Valid()
    ensures var u := j.U(i) + Reduced(j.tex.du, j.wrapU); j.U(i + 1) == if u >= j.wrapU then u - j.wrapU else u
    ensures var v := j.V(i) + Reduced(j.tex.dv, j.wrapV); j.V(i + 1) == if v >= j.wrapV then v - j.wrapV else v
  {
    hide Wrapped, Reduced;
    StepTexel(j.tex.u, i, j.tex.du, j.wrapU);
    StepTexel(j.tex.v, i, j.tex.dv, j.wrapV);
  }

  lemma StepsOne(j: Job, cv: Canvas, i: nat)
    requires j.Valid() && j.On(cv)
    ensures j.Steps(cv, i + 1) == j.Across(j.Steps(cv, i), i, j.thick)
  {
    hide Job.Across;
  }

  /** The steps of a span all show; a run of them is what the loops walk. */
  ghost predicate SpanOf(j: Job, first: int, last: int) {
    && 0 <= first <= last <= j.path.n
    && forall i :: first <= i <= last ==> Shows(j.path, WindowOf(j.path, j.clip), j.thick, i)
  }

  /** The pixels of a step that shows, as one run across it. */
  lemma RunAcross(j: Job, i: int)
    requires j.Valid() && Shows(j.path, WindowOf(j.path, j.clip), j.thick, i)
    ensures var w := WindowOf(j.path, j.clip);
            var (k0, k1) := (Max(w.cLo - j.path.Minor(i), 0), Min(w.cHi - j.path.Minor(i), j.thick - 1));
            forall q :: 0 <= q < j.thick ==> (j.Draws(i, q) <==> k0 <= q < k1 + 1)
  {
    hide Path.Off;
    forall q | 0 <= q < j.thick
      ensures var w := WindowOf(j.path, j.clip);
              var (k0, k1) := (Max(w.cLo - j.path.Minor(i), 0), Min(w.cHi - j.path.Minor(i), j.thick - 1));
              j.Draws(i, q) <==> k0 <= q < k1 + 1
    {
      DrawsMeans(j, i, q);
    }
  }

  /** A row or a column: no error term, and the same run across at every step. */
  method DrawFlat(s: Surface, j: Job, first: int, last: int, at0: int, minor: int, u0: int, v0: int, ghost cv: Canvas)
    requires s.Valid() && s.View() == cv && j.Valid() && j.On(cv)
    requires SpanOf(j, first, last) && j.path.along == 0 && j.Steps(cv, first) == cv
    requires at0 == StepIndex(j.path, s.width, first, 0) && minor == j.path.Minor(first)
    requires u0 == j.U(first) && v0 == j.V(first)
    modifies s, s.pixels
    ensures s.Valid() && s.View() == j.Steps(cv, last + 1)
  {
    hide Path.Off, Path.Minor, Path.Major, Path.X, Path.Y, Reduced, Wrapped, WindowOf, AcrossStride, MajorStride;
    hide Job.U, Job.V, Job.TexelIndex, Job.Across, Job.Steps, Job.Draws, Table.Lookup, StepIndex, Shows;
    var w := WindowOf(j.path, j.clip);
    var (k0, k1) := (Max(w.cLo - minor, 0), Min(w.cHi - minor, j.thick - 1));
    RunAcross(j, first);
    if k0 > k1 {
      forall i | first <= i <= last
        ensures Blank(j, i)
      {
        FlatStep(j, first, i, s.width, k0);
        RunAcross(j, i);
      }
      StepsSkip(j, cv, first, last + 1);
      return;
    }
    var wide := k1 - k0 + 1;
    var across, stride := AcrossStride(j.path, s.width), MajorStride(j.path, s.width);
    var at, u, v := at0 + k0 * across, u0, v0;
    var du, dv := Reduced(j.tex.du, j.wrapU), Reduced(j.tex.dv, j.wrapV);
    IndexAcross(j.path, s.width, first, k0);
    for i := first to last + 1
      invariant s.touched == cv.touched
      invariant at == StepIndex(j.path, s.width, i, k0) && u == j.U(i) && v == j.V(i)
      invariant s.pixels[..] == j.Steps(cv, i).pixels
      invariant j.Steps(cv, i).touched == cv.touched + (i - first) * wide
    {
      var c := j.sheet.pixels[j.TexelIndex(u, v)];
      FlatStep(j, first, i, s.width, k0);
      RunAcross(j, i);
      BlendRun(s, j, j.Steps(cv, i), i, c, j.table, at, across, k0, wide);
      StepsOne(j, cv, i);
      TextureStep(j, i);
      at := at + stride;
      u := u + du;
      if u >= j.wrapU { u := u - j.wrapU; }
      v := v + dv;
      if v >= j.wrapV { v := v - j.wrapV; }
      assert (i + 1 - first) * wide == (i - first) * wide + wide;
    }
    s.touched := s.touched + (last - first + 1) * wide;
  }

  lemma FlatStep(j: Job, first: nat, i: nat, width: nat, k: int)
    requires j.path.along == 0
    ensures j.path.Minor(i) == j.path.Minor(first)
    ensures StepIndex(j.path, width, i + 1, k) == StepIndex(j.path, width, i, k) + MajorStride(j.path, width)
  {
    OffFlat(j.path, first);
    OffFlat(j.path, i);
    OffFlat(j.path, i + 1);
    IndexStep(j.path, width, i);
    IndexAcross(j.path, width, i, k);
    IndexAcross(j.path, width, i + 1, k);
  }

  /** A slanted line wider than a pixel: each step's run across is found by
      comparison, and the pixels drawn are counted as they are. */
  method DrawThick(s: Surface, j: Job, first: int, last: int, at0: int, minor0: int, err0: int,
                   u0: int, v0: int, ghost cv: Canvas)
    requires s.Valid() && s.View() == cv && j.Valid() && j.On(cv)
    requires SpanOf(j, first, last) && 0 < j.path.n && j.Steps(cv, first) == cv
    requires at0 == StepIndex(j.path, s.width, first, 0) && minor0 == j.path.Minor(first)
    requires err0 == j.path.Err(first) && u0 == j.U(first) && v0 == j.V(first)
    modifies s, s.pixels
    ensures s.Valid() && s.View() == j.Steps(cv, last + 1)
  {
    hide Path.Off, Path.Err, Path.Minor, Path.Major, Path.X, Path.Y, Reduced, Wrapped, WindowOf;
    hide AcrossStride, MajorStride, MinorStride;
    hide Job.U, Job.V, Job.TexelIndex, Job.Across, Job.Steps, Job.Draws, Table.Lookup, StepIndex, Shows;
    var w := WindowOf(j.path, j.clip);
    var across, major, minorStride :=
      AcrossStride(j.path, s.width), MajorStride(j.path, s.width), MinorStride(j.path, s.width);
    var at, err, minor, u, v, drawn := at0, err0, minor0, u0, v0, 0;
    var du, dv := Reduced(j.tex.du, j.wrapU), Reduced(j.tex.dv, j.wrapV);
    var step, carry := 2 * j.path.along, 2 * j.path.n;
    for i := first to last + 1
      invariant s.touched == cv.touched && 0 <= drawn
      invariant at == StepIndex(j.path, s.width, i, 0) && minor == j.path.Minor(i) && err == j.path.Err(i)
      invariant u == j.U(i) && v == j.V(i)
      invariant s.pixels[..] == j.Steps(cv, i).pixels
      invariant j.Steps(cv, i).touched == cv.touched + drawn
    {
      var c := j.sheet.pixels[j.TexelIndex(u, v)];
      var k0, k1 := Max(w.cLo - minor, 0), Min(w.cHi - minor, j.thick - 1);
      RunAcross(j, i);
      if k0 <= k1 {
        IndexAcross(j.path, s.width, i, k0);
        BlendRun(s, j, j.Steps(cv, i), i, c, j.table, at + k0 * across, across, k0, k1 - k0 + 1);
        drawn := drawn + (k1 - k0 + 1);
      } else {
        AcrossSkip(j, j.Steps(cv, i), i, 0, j.thick);
        AcrossNone(j, j.Steps(cv, i), i);
      }
      StepsOne(j, cv, i);
      TextureStep(j, i);
      PathStep(j.path, s.width, i);
      at := at + major;
      err := err + step;
      if err >= carry {
        err := err - carry;
        at := at + minorStride;
        minor := minor + j.path.sign;
      }
      u := u + du;
      if u >= j.wrapU { u := u - j.wrapU; }
      v := v + dv;
      if v >= j.wrapV { v := v - j.wrapV; }
    }
    s.touched := s.touched + drawn;
  }

  /** The whole position one step on. */
  lemma PathStep(p: Path, width: nat, i: nat)
    requires p.Valid() && 0 < p.n
    ensures var (carries, err) := (p.Err(i) + 2 * p.along >= 2 * p.n, p.Err(i) + 2 * p.along);
            && p.Err(i + 1) == (if carries then err - 2 * p.n else err)
            && p.Minor(i + 1) == (if carries then p.Minor(i) + p.sign else p.Minor(i))
            && StepIndex(p, width, i + 1, 0) == StepIndex(p, width, i, 0) + MajorStride(p, width)
                                            + if carries then MinorStride(p, width) else 0
  {
    hide Path.Off, Path.Err, StepIndex, MajorStride, MinorStride;
    StepPath(p, i);
    IndexStep(p, width, i);
    assert p.sign * (p.Off(i) + 1) == p.sign * p.Off(i) + p.sign;
  }

  lemma ThinDraws(j: Job, i: int)
    requires j.thick == 1 && Shows(j.path, WindowOf(j.path, j.clip), j.thick, i)
    ensures j.Draws(i, 0)
  {
    hide Path.Off;
    DrawsMeans(j, i, 0);
  }

  /** A slanted line one pixel wide: every step of the span is one write. */
  method DrawThin(s: Surface, j: Job, first: int, last: int, at0: int, err0: int,
                  u0: int, v0: int, ghost cv: Canvas)
    requires s.Valid() && s.View() == cv && j.Valid() && j.On(cv)
    requires SpanOf(j, first, last) && 0 < j.path.n && j.thick == 1 && j.Steps(cv, first) == cv
    requires at0 == StepIndex(j.path, s.width, first, 0)
    requires err0 == j.path.Err(first) && u0 == j.U(first) && v0 == j.V(first)
    modifies s, s.pixels
    ensures s.Valid() && s.View() == j.Steps(cv, last + 1)
  {
    hide Path.Off, Path.Err, Path.Minor, Path.Major, Path.X, Path.Y, Reduced, Wrapped, WindowOf;
    hide MajorStride, MinorStride;
    hide Job.U, Job.V, Job.TexelIndex, Job.Across, Job.Steps, Job.Draws, Table.Lookup, StepIndex, Shows;
    var major, minorStride := MajorStride(j.path, s.width), MinorStride(j.path, s.width);
    var at, err, u, v := at0, err0, u0, v0;
    var du, dv := Reduced(j.tex.du, j.wrapU), Reduced(j.tex.dv, j.wrapV);
    var step, carry := 2 * j.path.along, 2 * j.path.n;
    for i := first to last + 1
      invariant s.touched == cv.touched
      invariant at == StepIndex(j.path, s.width, i, 0) && err == j.path.Err(i)
      invariant u == j.U(i) && v == j.V(i)
      invariant s.pixels[..] == j.Steps(cv, i).pixels
      invariant j.Steps(cv, i).touched == cv.touched + (i - first)
    {
      var texel := j.TexelIndex(u, v);
      ThinDraws(j, i);
      AcrossStep(j, j.Steps(cv, i), i, 0);
      AcrossNone(j, j.Steps(cv, i), i);
      s.pixels[at] := j.table.Lookup(j.sheet.pixels[texel], s.pixels[at]);
      StepsOne(j, cv, i);
      TextureStep(j, i);
      PathStep(j.path, s.width, i);
      at := at + major;
      err := err + step;
      if err >= carry {
        err := err - carry;
        at := at + minorStride;
      }
      u := u + du;
      if u >= j.wrapU { u := u - j.wrapU; }
      v := v + dv;
      if v >= j.wrapV { v := v - j.wrapV; }
    }
    s.touched := s.touched + (last - first + 1);
  }

  /** The position, error term and texel of the first step, then its loop. */
  method DrawSpan(s: Surface, j: Job, first: int, last: int, ghost cv: Canvas)
    requires s.Valid() && s.View() == cv && j.Valid() && j.On(cv)
    requires SpanOf(j, first, last) && j.Steps(cv, first) == cv
    modifies s, s.pixels
    ensures s.Valid() && s.View() == j.Steps(cv, last + 1)
  {
    hide Path.Off, Path.Err, Path.X, Path.Y, Path.Num, Wrapped, Shows, WindowOf;
    hide Job.Texel, Job.TexelIndex, Job.Across, Job.Steps, Job.Draws, StepIndex, PathAt, Reduced, Table.Lookup;
    var p := j.path;
    PathAtMeans(p, first);
    var (off, err) := PathAt(first, p.along, p.n);
    var major, minor := p.m0 + if p.down then -first else first, p.c0 + p.sign * off;
    var at := if p.horizontal then minor * s.width + major else major * s.width + minor;
    IndexIs(p, s.width, first, major, minor);
    var u, v := TexelAt(j.tex.u, first, j.tex.du, j.wrapU), TexelAt(j.tex.v, first, j.tex.dv, j.wrapV);
    if p.along == 0 {
      DrawFlat(s, j, first, last, at, minor, u, v, cv);
    } else if j.thick > 1 {
      DrawThick(s, j, first, last, at, minor, err, u, v, cv);
    } else {
      DrawThin(s, j, first, last, at, err, u, v, cv);
    }
  }

  /** A textured line from one end to the other, both included. */
  method Tline(s: Surface, pen: Pen, sheet: Buf, ends: (int, int, int, int), tex: Texture)
    requires s.Valid() && pen.Ready(s.width, s.height) && sheet.Valid() && tex.thick <= I32_MAX
    modifies s, s.pixels
    ensures s.Valid() && s.View() == ByDefinition(old(s.View()), pen, sheet, ends, tex)
  {
    hide Path.Off, PathOf, Span, WindowOf, Job.Texel, Job.Across, Job.Steps, Job.Draws, Table.Lookup, Shows, RegionOf;
    if !sheet.Bytes? {
      return;
    }
    var region := RegionOf(sheet, tex);
    if region.None? {
      return;
    }
    var j := JobOf(pen, sheet, ends, region.value, tex);
    assert j.clip == pen.clip;
    ghost var cv := s.View();
    var span := Span(j.path, WindowOf(j.path, j.clip), j.thick);
    SpanSkips(j, cv);
    if span.Some? {
      DrawSpan(s, j, span.value.0, span.value.1, cv);
    }
  }

  lemma IndexIs(p: Path, width: nat, i: int, major: int, minor: int)
    requires major == p.Major(i) && minor == p.Minor(i)
    ensures StepIndex(p, width, i, 0) == if p.horizontal then minor * width + major else major * width + minor
  {
    hide Path.Off;
  }

  /** The steps outside the span draw nothing; those inside are a `SpanOf`. */
  lemma SpanSkips(j: Job, cv: Canvas)
    requires j.Valid() && j.On(cv)
    ensures var span := Span(j.path, WindowOf(j.path, j.clip), j.thick);
            if span.None? then j.Steps(cv, j.path.n + 1) == cv
            else && SpanOf(j, span.value.0, span.value.1)
                 && j.Steps(cv, span.value.0) == cv
                 && j.Steps(cv, j.path.n + 1) == j.Steps(cv, span.value.1 + 1)
  {
    hide Path.Off, Span, Shows, Job.Across, Job.Draws, Job.Texel, Blank;
    var (p, w) := (j.path, WindowOf(j.path, j.clip));
    var span := Span(p, w, j.thick);
    forall i | 0 <= i <= p.n
      ensures Shows(p, w, j.thick, i) <==> span.Some? && span.value.0 <= i <= span.value.1
      ensures !Shows(p, w, j.thick, i) ==> Blank(j, i)
      ensures span.Some? ==> 0 <= span.value.0 <= span.value.1 <= p.n
    {
      SpanExact(p, w, j.thick, i);
      if !Shows(p, w, j.thick, i) {
        NothingDrawn(j, i);
      }
    }
    assert !Shows(p, w, j.thick, 0) || Shows(p, w, j.thick, 0);
    if span.None? {
      StepsSkip(j, cv, 0, p.n + 1);
    } else {
      StepsSkip(j, cv, 0, span.value.0);
      StepsSkip(j, cv, span.value.1 + 1, p.n + 1);
    }
  }
}
