/** The numbers `tline` carries fit the widths it carries them in, for every pair
    of ends, and its two solves do need more than 64 bits. */
module TlineWidths {
  import opened Numbers
  import opened Raster
  import opened TlinePath
  import opened Tline

  const I128_MAX := 0x7fff_ffff_ffff_ffff_ffff_ffff_ffff_ffff

  predicate Fits128(v: int) { -I128_MAX <= v <= I128_MAX }

  /** The line's own pixel stays between the two ends. */
  lemma BetweenEnds(p: Path, i: nat)
    requires p.Valid() && p.Narrow() && i <= p.n
    ensures Fits32(p.Major(i)) && Fits32(p.Minor(i)) && p.n <= 0xffff_ffff
  {
    hide Path.Off;
    OffRange(p, i);
  }

  /** In every step the loop may make: the pixel's offset, drawn or not, the error
      term before it is brought back, and the texel position before it wraps. */
  lemma LoopFits(j: Job, width: nat, i: nat)
    requires j.Valid() && width <= MAX_DIM && i <= j.path.n
    ensures Fits64(StepIndex(j.path, width, i, 0))
    ensures Fits64(j.path.Err(i) + 2 * j.path.along)
    ensures Fits32(j.wrapU) && Fits32(j.U(i) + Reduced(j.tex.du, j.wrapU))
    ensures Fits32(j.wrapV) && Fits32(j.V(i) + Reduced(j.tex.dv, j.wrapV))
  {
    hide Path.Off, Path.Num, Wrapped, Path.Minor, Path.Major;
    var p := j.path;
    BetweenEnds(p, i);
    assert p.along <= 0xffff_ffff;
    TimesWidth(p.Major(i), width);
    TimesWidth(p.Minor(i), width);
    assert j.region.w <= MAX_DIM && j.region.h <= MAX_DIM;
    assert j.wrapU == j.region.w * 0x1_0000 && j.wrapV == j.region.h * 0x1_0000;
    assert j.path.Err(i) <= 2 * p.n;
  }

  lemma TimesWidth(v: int, width: nat)
    requires Fits32(v) && width <= MAX_DIM
    ensures -0x800_0000_0000 <= v * width <= 0x800_0000_0000
  {
    if v >= 0 {
      MulMono(v, I32_MAX, width);
      MulMono(0, v, width);
      MulMono(width, MAX_DIM, I32_MAX);
      assert I32_MAX * width == width * I32_MAX;
    } else {
      MulMono(I32_MIN, v, width);
      MulMono(v, 0, width);
      MulMono(width, MAX_DIM, -I32_MIN);
      assert I32_MIN * width == -(width * (-I32_MIN));
    }
  }

  lemma NumeratorFits(n: nat, t: int)
    requires n <= 0xffff_ffff && -0x2_0000_0000 <= t <= 0x2_0000_0000
    ensures Fits128(2 * n * t - n) && Fits128(2 * n * (t + 1) - n)
  {
    var m := 2 * n;
    if t >= 0 {
      MulMono(0, t, m);
      MulMono(t, 0x2_0000_0000, m);
      assert t * m == m * t;
    } else {
      MulMono(t, 0, m);
      MulMono(-0x2_0000_0000, t, m);
      assert t * m == m * t;
    }
    assert m * (t + 1) == m * t + m;
  }

  /** For every line, clip and thickness the near edge is moved out by the thickness
      without saturating, and the numerators of both solves fit 128 bits. */
  lemma SolveFits(p: Path, w: Window, thick: int)
    requires p.Valid() && p.Narrow() && 1 <= thick <= I32_MAX && Fits32(w.cLo) && Fits32(w.cHi)
    ensures Sat64(w.cLo - (thick - 1)) == w.cLo - (thick - 1)
    ensures var (tLo, tHi) := Edges(p, w, thick);
            && Fits64(tLo) && Fits64(tHi)
            && Fits128(2 * p.n * tLo - p.n) && Fits128(2 * p.n * (tHi + 1) - p.n)
  {
    var (tLo, tHi) := Edges(p, w, thick);
    NumeratorFits(p.n, tLo);
    NumeratorFits(p.n, tHi);
  }

  /** 64 bits would not do: the longest diagonal there is, clipped to the screen. */
  lemma SolveNeedsMore()
    ensures var p := PathOf(I32_MIN, I32_MIN, I32_MAX, I32_MAX);
            var w := WindowOf(p, Rect(0, 0, 320, 240));
            && p.Narrow() && 0 < Edges(p, w, 1).0 <= p.along
            && !Fits64(2 * p.n * Edges(p, w, 1).0 - p.n)
  {
    assert PathOf(I32_MIN, I32_MIN, I32_MAX, I32_MAX) == Path(true, I32_MIN, 0xffff_ffff, I32_MIN, 0xffff_ffff);
  }
}
