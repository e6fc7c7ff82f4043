/** The surface every primitive draws on, the pen it draws with, and the
    meaning of one pixel written through the clip and the colour table. */
module Raster {
  import opened Numbers
  import opened Wrappers

  /** Sides a cart can ask a buffer to have. */
  const MAX_DIM := 4096

  datatype Rect = Rect(x: int, y: int, w: int, h: int) {
    function Right(): int { Sat32(x + w) }

    function Bottom(): int { Sat32(y + h) }

    predicate IsEmpty() { w <= 0 || h <= 0 }

    predicate Contains(px: int, py: int) {
      x <= px < Right() && y <= py < Bottom()
    }

    function Intersect(other: Rect): (r: Rect)
      ensures forall px, py :: r.Contains(px, py) ==> Contains(px, py) && other.Contains(px, py)
    {
      var x0, y0 := Max(x, other.x), Max(y, other.y);
      var x1, y1 := Min(Right(), other.Right()), Min(Bottom(), other.Bottom());
      if x1 <= x0 || y1 <= y0 then EMPTY else Rect(x0, y0, x1 - x0, y1 - y0)
    }

    /** Inside a target of `width` by `height`, empty or not. */
    predicate Within(width: int, height: int) {
      0 <= x && 0 <= y && 0 <= w && 0 <= h && x + w <= width && y + h <= height
    }
  }

  const EMPTY := Rect(0, 0, 0, 0)

  /** The four numbers are `i32`s. */
  predicate Fits(r: Rect) {
    Fits32(r.x) && Fits32(r.y) && Fits32(r.w) && Fits32(r.h)
  }

  /** A rectangle holds the pixels from its corner on, `w` across and `h` down. */
  lemma ContainsMeans(a: Rect, px: int, py: int)
    requires Fits(a) && px < I32_MAX && py < I32_MAX
    ensures a.Contains(px, py) <==> 0 <= px - a.x < a.w && 0 <= py - a.y < a.h
  {
  }

  /** `intersect` is the intersection of the two rectangles as sets of pixels. */
  lemma IntersectMeans(a: Rect, b: Rect, px: int, py: int)
    requires Fits(a) && Fits(b)
    ensures a.Intersect(b).Contains(px, py) <==> a.Contains(px, py) && b.Contains(px, py)
  {
    var x0, y0 := Max(a.x, b.x), Max(a.y, b.y);
    var x1, y1 := Min(a.Right(), b.Right()), Min(a.Bottom(), b.Bottom());
    if x1 > x0 && y1 > y0 {
      assert a.Intersect(b).Right() == x1 && a.Intersect(b).Bottom() == y1;
    }
  }

  /** Cutting to a target gives a rectangle inside it. */
  lemma IntersectWithin(a: Rect, width: nat, height: nat)
    requires Fits(a) && width <= I32_MAX && height <= I32_MAX
    ensures a.Intersect(Rect(0, 0, width, height)).Within(width, height)
  {
  }

  // ----- colour ------------------------------------------------------------

  const PALETTE_SIZE := 128

  /** A remap followed by transparency: what the 128 by 128 table caches. */
  datatype Table = Table(remap: seq<byte>, transparent: seq<bool>) {
    predicate Valid() {
      && |remap| == PALETTE_SIZE && |transparent| == PALETTE_SIZE
      && forall i :: 0 <= i < PALETTE_SIZE ==> remap[i] < 128
    }

    /** The source's low seven bits are remapped; a transparent result leaves
        the destination's low seven bits. */
    function Lookup(src: byte, dst: byte): (c: byte)
      requires Valid()
      ensures c < 128
    {
      var mapped := remap[src % 128];
      if transparent[mapped] then dst % 128 else mapped
    }
  }

  /** What a buffer's elements are. */
  datatype Kind = U8 | I16 | I32 | F32

  /** A buffer as a draw call borrows it to read: `as_u8` succeeds on bytes only. */
  datatype Buf = Bytes(width: nat, height: nat, pixels: seq<byte>) | Other(width: nat, height: nat) {
    predicate Valid() {
      && width <= MAX_DIM && height <= MAX_DIM
      && (Bytes? ==> |pixels| == width * height)
    }
  }

  datatype Fillp = Fillp(pattern: int, transparent: bool) {
    /** Bit `(y & 3) * 4 + (x & 3)` of the pattern: secondary colour when set,
        or nothing at all when the pattern is transparent. */
    function Pick(x: int, y: int): Option<bool> {
      if pattern == 0 then Some(false)
      else if pattern / Pow2(y % 4 * 4 + x % 4) % 2 == 0 then Some(false)
      else if transparent then None
      else Some(true)
    }
  }

  function Pow2(n: nat): (p: nat)
    ensures 0 < p
  {
    if n == 0 then 1 else 2 * Pow2(n - 1)
  }

  datatype Colour = Colour(primary: byte, secondary: byte)

  /** The pen as a draw call borrows it. */
  datatype Pen = Pen(clip: Rect, cameraX: int, cameraY: int, fillp: Fillp, table: Table) {
    function WorldX(x: int): (r: int) ensures Fits32(r) { Sat32(x - cameraX) }

    function WorldY(y: int): (r: int) ensures Fits32(r) { Sat32(y - cameraY) }

    /** What the rasteriser relies on: a built table and a clip in the target. */
    predicate Ready(width: int, height: int) {
      table.Valid() && clip.Within(width, height)
    }
  }

  // ----- the canvas --------------------------------------------------------

  /** The abstract value of a surface: its pixels and the pixels metered. */
  datatype Canvas = Canvas(width: nat, height: nat, pixels: seq<byte>, touched: nat) {
    predicate Valid() {
      width <= MAX_DIM && height <= MAX_DIM && |pixels| == width * height
    }

    predicate Has(x: int, y: int) {
      0 <= x < width && 0 <= y < height
    }

    function At(x: int, y: int): (i: nat)
      requires Valid() && Has(x, y)
      ensures i < |pixels|
    {
      IndexBound(width, height, x, y);
      Index(width, x, y)
    }

    function Pixel(x: int, y: int): byte
      requires Valid() && Has(x, y)
    {
      pixels[At(x, y)]
    }
  }

  lemma IndexBound(width: nat, height: nat, x: int, y: int)
    requires 0 <= x < width && 0 <= y < height
    ensures 0 <= y * width + x < width * height
  {
    MulMono(y + 1, height, width);
    MulMono(0, y, width);
    assert (y + 1) * width == y * width + width;
  }

  /** Two pixels share an index only if they are the same pixel. */
  lemma IndexInjective(width: nat, x: int, y: int, x': int, y': int)
    requires 0 <= x < width && 0 <= x' < width
    requires y * width + x == y' * width + x'
    ensures x == x' && y == y'
  {
    DivModUnique(y * width + x, width, y, x);
    DivModUnique(y' * width + x', width, y', x');
  }

  /** The two canvases have the same shape. */
  predicate SameShape(a: Canvas, b: Canvas) {
    a.width == b.width && a.height == b.height && |a.pixels| == |b.pixels|
  }

  /** One sprite or text pixel: the clip, then the colour table. */
  function Blend(cv: Canvas, clip: Rect, table: Table, x: int, y: int, src: byte): (r: Canvas)
    requires cv.Valid() && table.Valid() && clip.Within(cv.width, cv.height)
    ensures r.Valid() && SameShape(cv, r)
  {
    if clip.Contains(x, y) then
      var i := cv.At(x, y);
      cv.(pixels := cv.pixels[i := table.Lookup(src, cv.pixels[i])], touched := cv.touched + 1)
    else
      cv
  }

  lemma BlendPixel(cv: Canvas, clip: Rect, table: Table, x: int, y: int, src: byte, px: int, py: int)
    requires cv.Valid() && table.Valid() && clip.Within(cv.width, cv.height) && cv.Has(px, py)
    ensures Blend(cv, clip, table, x, y, src).Pixel(px, py) ==
            if clip.Contains(x, y) && x == px && y == py then table.Lookup(src, cv.Pixel(px, py))
            else cv.Pixel(px, py)
  {
    hide Table.Lookup;
    if clip.Contains(x, y) && cv.At(x, y) == cv.At(px, py) {
      IndexInjective(cv.width, x, y, px, py);
    }
  }

  lemma BlendTouched(cv: Canvas, clip: Rect, table: Table, x: int, y: int, src: byte)
    requires cv.Valid() && table.Valid() && clip.Within(cv.width, cv.height)
    ensures Blend(cv, clip, table, x, y, src).touched == cv.touched + if clip.Contains(x, y) then 1 else 0
  {
    hide Table.Lookup;
  }

  /** One shape pixel: the clip, the meter, the fill pattern, the colour table. */
  function Plot(cv: Canvas, pen: Pen, x: int, y: int, c: Colour): (r: Canvas)
    requires cv.Valid() && pen.Ready(cv.width, cv.height)
    ensures r.Valid() && SameShape(cv, r)
  {
    if !pen.clip.Contains(x, y) then cv
    else match pen.fillp.Pick(x, y)
      case Some(second) =>
        Blend(cv, pen.clip, pen.table, x, y, if second then c.secondary else c.primary)
      case None => cv.(touched := cv.touched + 1)
  }

  lemma DisjointSize<T>(a: set<T>, b: set<T>)
    requires forall q :: q in a ==> q !in b
    ensures |a + b| == |a| + |b|
  {
    assert a * b == {};
  }

  /** The pixels a draw call writes, and its meter. */
  class Surface {
    const pixels: array<byte>
    const width: nat
    const height: nat
    var touched: nat

    ghost predicate Valid()
      reads this
    {
      width <= MAX_DIM && height <= MAX_DIM && pixels.Length == width * height
    }

    ghost function View(): (cv: Canvas)
      requires Valid()
      reads this, pixels
      ensures cv.Valid()
    {
      Canvas(width, height, pixels[..], touched)
    }

    constructor (pixels: array<byte>, width: nat, height: nat)
      requires width <= MAX_DIM && height <= MAX_DIM && pixels.Length == width * height
      ensures Valid() && this.pixels == pixels && this.width == width && this.height == height
      ensures touched == 0
    {
      this.pixels, this.width, this.height, touched := pixels, width, height, 0;
    }

    method PlotPixel(pen: Pen, x: int, y: int, c: Colour)
      requires Valid() && pen.Ready(width, height)
      modifies this, pixels
      ensures Valid() && View() == Plot(old(View()), pen, x, y, c)
    {
      if !pen.clip.Contains(x, y) {
        return;
      }
      touched := touched + 1;
      var src;
      match pen.fillp.Pick(x, y) {
        case Some(second) => src := if second then c.secondary else c.primary;
        case None => return;
      }
      IndexBound(width, height, x, y);
      var i := y * width + x;
      pixels[i] := pen.table.Lookup(src, pixels[i]);
    }
  }
}
