/** The path of a line over the screen and of its texture over the sheet: the
    per-step definition, and the divisions `tline` does once to enter it. */
module TlinePath {
  import opened Numbers
  import opened Raster
  import opened Wrappers

  /** A line as its walk sees it: from `m0` by `md` on the major axis, the longer one,
      and from `c0` by `cd` on the minor. */
  datatype Path = Path(horizontal: bool, m0: int, md: int, c0: int, cd: int) {
    const n := Abs(md)
    const along := Abs(cd)
    const down := md < 0
    const sign := if cd < 0 then -1 else 1

    predicate Valid() { along <= n }

    /** Both ends are `i32`s. */
    predicate Narrow() {
      Fits32(m0) && Fits32(c0) && Fits32(m0 + md) && Fits32(c0 + cd)
    }

    function Major(i: int): int { m0 + if down then -i else i }

    /** Twice the exact offset of step `i`, in `n`ths, plus a half. */
    function Num(i: int): int { 2 * i * along + n }

    /** How far step `i` has moved on the minor axis. */
    function Off(i: int): int {
      if n == 0 then 0 else Num(i) / (2 * n)
    }

    /** The error term that goes with `Off`. */
    function Err(i: int): int {
      if n == 0 then 0 else Num(i) % (2 * n)
    }

    function Minor(i: int): int { c0 + sign * Off(i) }

    function X(i: int, k: int): int { if horizontal then Major(i) else Minor(i) + k }

    function Y(i: int, k: int): int { if horizontal then Minor(i) + k else Major(i) }
  }

  function PathOf(x0: int, y0: int, x1: int, y1: int): (p: Path)
    ensures p.Valid()
  {
    var (dx, dy) := (x1 - x0, y1 - y0);
    if Abs(dx) >= Abs(dy) then Path(true, x0, dx, y0, dy) else Path(false, y0, dy, x0, dx)
  }

  lemma NumStep(p: Path, i: int)
    ensures p.Num(i + 1) == p.Num(i) + 2 * p.along
  {
    assert 2 * (i + 1) == 2 * i + 2;
  }

  lemma NumMono(p: Path, i: int, i': int)
    requires i <= i'
    ensures p.Num(i) <= p.Num(i')
  {
    MulMono(2 * i, 2 * i', p.along);
  }

  /** One step on: the error term alone says whether the minor axis moves. */
  lemma StepPath(p: Path, i: int)
    requires p.Valid() && 0 < p.n
    ensures p.Err(i) + 2 * p.along < 2 * p.n ==>
              p.Off(i + 1) == p.Off(i) && p.Err(i + 1) == p.Err(i) + 2 * p.along
    ensures p.Err(i) + 2 * p.along >= 2 * p.n ==>
              p.Off(i + 1) == p.Off(i) + 1 && p.Err(i + 1) == p.Err(i) + 2 * p.along - 2 * p.n
  {
    hide Path.Num;
    NumStep(p, i);
    DivModStep(p.Num(i), 2 * p.along, 2 * p.n);
  }

  lemma OffAtLeast(p: Path, i: int, t: int)
    requires 0 < p.n
    ensures p.Off(i) >= t <==> p.Num(i) >= t * (2 * p.n)
  {
    hide Path.Num;
    DivAtLeast(p.Num(i), 2 * p.n, t);
  }

  /** The offset never decreases. */
  lemma OffMono(p: Path, i: int, i': int)
    requires i <= i'
    ensures p.Off(i) <= p.Off(i')
  {
    if 0 < p.n {
      OffAtLeast(p, i, p.Off(i));
      OffAtLeast(p, i', p.Off(i));
      NumMono(p, i, i');
    }
  }

  lemma OffEnds(p: Path)
    requires p.Valid()
    ensures p.Off(0) == 0 && p.Off(p.n) == p.along
  {
    if 0 < p.n {
      assert p.Num(0) == 0 * (2 * p.n) + p.n;
      DivModUnique(p.Num(0), 2 * p.n, 0, p.n);
      assert p.Num(p.n) == p.along * (2 * p.n) + p.n;
      DivModUnique(p.Num(p.n), 2 * p.n, p.along, p.n);
    }
  }

  /** The offset runs from 0 to `along`. */
  lemma OffRange(p: Path, i: nat)
    requires p.Valid() && i <= p.n
    ensures 0 <= p.Off(i) <= p.along
    ensures p.Off(0) == 0 && p.Off(p.n) == p.along
  {
    hide Path.Off;
    OffEnds(p);
    OffMono(p, 0, i);
    OffMono(p, i, p.n);
  }

  /** A row or a column stays where it is. */
  lemma OffFlat(p: Path, i: nat)
    requires p.along == 0
    ensures p.Off(i) == 0
    ensures 0 < p.n ==> p.Err(i) == p.n
  {
    if 0 < p.n {
      assert p.Num(i) == p.n;
      DivModUnique(p.n, 2 * p.n, 0, p.n);
    }
  }

  /** `path_at`: the offset and error term at step `first`, without a division
      where none is needed and in 128 bits where 64 will not hold the product. */
  function PathAt(first: nat, along: nat, n: nat): (r: (int, int)) {
    if n == 0 then (0, 0)
    else if first == 0 || along == 0 then (0, n)
    else
      var m := first * along;
      if Fits64(m) && Fits64(m * 2) && Fits64(m * 2 + n) then
        ((m * 2 + n) / (2 * n), (m * 2 + n) % (2 * n))
      else
        ((2 * first * along + n) / (2 * n), (2 * first * along + n) % (2 * n))
  }

  lemma PathAtMeans(p: Path, first: nat)
    requires p.Valid() && first <= p.n
    ensures PathAt(first, p.along, p.n) == (p.Off(first), p.Err(first))
  {
    if p.along == 0 {
      OffFlat(p, first);
    } else if 0 < p.n {
      assert first * p.along * 2 + p.n == p.Num(first);
      if first == 0 {
        DivModUnique(p.n, 2 * p.n, 0, p.n);
      }
    }
  }

  // ----- the steps inside the clip ------------------------------------------

  /** The clip as the walk sees it: bounds, both inclusive, on its two axes. */
  datatype Window = Window(mLo: int, mHi: int, cLo: int, cHi: int)

  function WindowOf(p: Path, clip: Rect): Window {
    if p.horizontal then Window(clip.x, clip.Right() - 1, clip.y, clip.Bottom() - 1)
    else Window(clip.y, clip.Bottom() - 1, clip.x, clip.Right() - 1)
  }

  /** Some pixel of step `i`, `thick` wide, is in the window. */
  predicate Shows(p: Path, w: Window, thick: int, i: int) {
    w.mLo <= p.Major(i) <= w.mHi && w.cLo - (thick - 1) <= p.Minor(i) <= w.cHi
  }

  /** The offsets at which the window's near and far edge are reached. */
  function Edges(p: Path, w: Window, thick: int): (int, int) {
    var cLo := Sat64(w.cLo - (thick - 1));
    if p.sign > 0 then (cLo - p.c0, w.cHi - p.c0) else (p.c0 - w.cHi, p.c0 - cLo)
  }

  /** The first and last step that show, if any does. An edge is solved for only
      where the line starts or ends beyond it. */
  function Span(p: Path, w: Window, thick: int): (r: Option<(int, int)>)
    requires p.Valid()
  {
    var cLo := Sat64(w.cLo - (thick - 1));
    var (a, b) := if !p.down then (w.mLo - p.m0, w.mHi - p.m0) else (p.m0 - w.mHi, p.m0 - w.mLo);
    var (first, last) := (Max(a, 0), Min(b, p.n));
    if p.along == 0 then
      if p.c0 < cLo || p.c0 > w.cHi || first > last then None else Some((first, last))
    else
      var (tLo, tHi) := Edges(p, w, thick);
      if tHi < 0 || tLo > p.along then None
      else
        var first' := if tLo > 0 then Max(first, Min(Need(p, tLo), I64_MAX)) else first;
        var last' := if tHi < p.along then Min(last, Max(Need(p, tHi + 1) - 1, -1)) else last;
        if first' > last' then None else Some((first', last'))
  }

  /** The first step, counting from any integer, whose offset reaches `t`. */
  function Need(p: Path, t: int): int
    requires 0 < p.along
  {
    CeilDiv(2 * p.n * t - p.n, 2 * p.along)
  }

  lemma NeedMeans(p: Path, t: int, i: int)
    requires p.Valid() && 0 < p.along
    ensures p.Off(i) >= t <==> i >= Need(p, t)
  {
    hide Path.Off;
    if 0 < p.n {
      OffAtLeast(p, i, t);
      CeilDivAtMost(2 * p.n * t - p.n, 2 * p.along, i);
      assert i * (2 * p.along) == 2 * i * p.along;
      assert t * (2 * p.n) == 2 * p.n * t;
    }
  }

  /** The two solves are exact: the span holds every step that shows anything,
      and nothing else. */
  lemma SpanExact(p: Path, w: Window, thick: int, i: nat)
    requires p.Valid() && p.Narrow() && i <= p.n && 1 <= thick <= I32_MAX
    requires Fits32(w.cLo) && Fits32(w.cHi)
    ensures Span(p, w, thick).Some? ==>
              0 <= Span(p, w, thick).value.0 <= Span(p, w, thick).value.1 <= p.n
    ensures Shows(p, w, thick, i) <==>
              Span(p, w, thick).Some? && Span(p, w, thick).value.0 <= i <= Span(p, w, thick).value.1
  {
    hide Path.Off, Need;
    if p.along == 0 {
      OffFlat(p, i);
    } else {
      var (tLo, tHi) := Edges(p, w, thick);
      OffRange(p, i);
      NeedMeans(p, tLo, i);
      NeedMeans(p, tHi + 1, i);
      if tLo <= p.along {
        NeedMeans(p, tLo, p.n);
        assert Need(p, tLo) <= p.n <= I64_MAX;
      }
    }
  }

  // ----- the texture ---------------------------------------------------------

  const TEXEL := 0x1_0000

  /** The remainder, free where there is nothing to take off. */
  function Reduced(v: int, wrap: int): (r: int)
    requires 0 < wrap
    ensures r == v % wrap
  {
    if 0 <= v < wrap then v else v % wrap
  }

  /** The definition: `p` stepped `i` times, wrapped. */
  function Wrapped(p: int, i: int, step: int, wrap: int): (r: int)
    requires 0 < wrap
    ensures 0 <= r < wrap
  {
    (p + i * step) % wrap
  }

  /** `texel_at`: 64 bits when the product and the sum fit them, else 128. */
  function TexelAt(p: int, first: nat, step: int, wrap: int): (r: int)
    requires 0 < wrap
    ensures r == Wrapped(p, first, step, wrap)
  {
    if Fits64(first * step) && Fits64(first * step + p) then Reduced(first * step + p, wrap)
    else (p + first * step) % wrap
  }

  /** The texture coordinate one step on, by an addition and a comparison. */
  lemma StepTexel(p: int, i: int, step: int, wrap: int)
    requires 0 < wrap
    ensures var u := Wrapped(p, i, step, wrap) + Reduced(step, wrap);
            Wrapped(p, i + 1, step, wrap) == if u >= wrap then u - wrap else u
  {
    assert p + (i + 1) * step == (p + i * step) + step;
    ModAdd(p + i * step, step, wrap);
  }
}
