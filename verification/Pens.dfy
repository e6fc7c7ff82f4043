/** What the camera, the fill pattern and the colour table of a pen mean for every
    shape. */
module Pens {
  import opened Numbers
  import opened Raster
  import opened Wrappers
  import Blit
  import CircleDraw
  import ColourTable
  import Tline

  // ----- the camera ----------------------------------------------------------------

  function Moved(pen: Pen, dx: int, dy: int): Pen {
    pen.(cameraX := pen.cameraX + dx, cameraY := pen.cameraY + dy)
  }

  /** At rest the camera changes nothing but a place past the 32 bits, which is
      brought back to their end; moved, it changes nothing of what is moved with it. */
  lemma CameraMoves(pen: Pen, x: int, y: int, dx: int, dy: int)
    ensures Moved(pen, dx, dy).WorldX(x + dx) == pen.WorldX(x) && Moved(pen, dx, dy).WorldY(y + dy) == pen.WorldY(y)
    ensures pen.cameraX == 0 && Fits32(x) ==> pen.WorldX(x) == x
    ensures pen.cameraY == 0 && Fits32(y) ==> pen.WorldY(y) == y
    ensures pen.cameraX == 0 && !Fits32(x) ==> pen.WorldX(x) == if x < 0 then I32_MIN else I32_MAX
    ensures pen.cameraY == 0 && !Fits32(y) ==> pen.WorldY(y) == if y < 0 then I32_MIN else I32_MAX
  {
  }

  /** A blit and a textured line draw the same picture when camera and corner, or
      camera and ends, are moved alike. */
  lemma SsprMovesWithCamera(cv: Canvas, pen: Pen, sheet: Buf, sx: int, sy: int, sw: int, sh: int,
                            x: int, y: int, dw: int, dh: int, flipX: bool, flipY: bool, dx: int, dy: int)
    requires cv.Valid() && pen.Ready(cv.width, cv.height) && sheet.Valid() && dw <= I32_MAX && dh <= I32_MAX
    ensures Blit.ByDefinition(cv, Moved(pen, dx, dy), sheet, sx, sy, sw, sh, x + dx, y + dy, dw, dh, flipX, flipY) ==
            Blit.ByDefinition(cv, pen, sheet, sx, sy, sw, sh, x, y, dw, dh, flipX, flipY)
  {
    hide Pen.WorldX, Pen.WorldY, Blit.Job.RowsTo;
    CameraMoves(pen, x, y, dx, dy);
  }

  lemma TlineMovesWithCamera(cv: Canvas, pen: Pen, sheet: Buf, ends: (int, int, int, int), tex: Tline.Texture,
                             dx: int, dy: int)
    requires cv.Valid() && pen.Ready(cv.width, cv.height) && sheet.Valid() && tex.thick <= I32_MAX
    ensures Tline.ByDefinition(cv, Moved(pen, dx, dy), sheet, (ends.0 + dx, ends.1 + dy, ends.2 + dx, ends.3 + dy), tex) ==
            Tline.ByDefinition(cv, pen, sheet, ends, tex)
  {
    hide Pen.WorldX, Pen.WorldY, Tline.Job.Steps;
    CameraMoves(pen, ends.0, ends.1, dx, dy);
    CameraMoves(pen, ends.2, ends.3, dx, dy);
  }

  // ----- the colour table ----------------------------------------------------------

  /** A new table draws every colour as it is, by its low seven bits. */
  lemma PlainDraws(src: byte, dst: byte)
    ensures ColourTable.PLAIN.Lookup(src, dst) == src % 128
  {
  }

  /** Remapping a colour changes what that colour draws and no other. */
  lemma RemapNames(t: Table, from: nat, to: byte, src: byte, dst: byte)
    requires t.Valid() && from < PALETTE_SIZE && to < 128
    ensures t.(remap := t.remap[from := to]).Lookup(src, dst) ==
            if src % 128 != from then t.Lookup(src, dst) else if t.transparent[to] then dst % 128 else to
  {
  }

  /** Transparency is of the colour a source is remapped to: made transparent, every
      source remapped to it leaves what was there, and no other source changes. */
  lemma TransparentNames(t: Table, c: nat, src: byte, dst: byte)
    requires t.Valid() && c < PALETTE_SIZE
    ensures t.(transparent := t.transparent[c := true]).Lookup(src, dst) ==
            if t.remap[src % 128] == c then dst % 128 else t.Lookup(src, dst)
    ensures t.(transparent := t.transparent[c := false]).Lookup(src, dst) ==
            if t.remap[src % 128] == c then c else t.Lookup(src, dst)
  {
  }

  // ----- the fill pattern ----------------------------------------------------------

  /** The pattern repeats every four pixels across and down. */
  lemma PatternRepeats(f: Fillp, x: int, y: int, across: int, down: int)
    ensures f.Pick(x + 4 * across, y + 4 * down) == f.Pick(x, y)
  {
    DivModShift(x, across, 4);
    DivModShift(y, down, 4);
  }

  /** The cell of the pattern a pixel falls in: four rows of four. */
  function CellOf(x: int, y: int): (k: nat)
    ensures k < 16
  {
    y % 4 * 4 + x % 4
  }

  lemma CellIs(x: int, y: int, k: nat)
    requires k < 16
    ensures CellOf(x, y) == k <==> x % 4 == k % 4 && y % 4 == k / 4
  {
  }

  /** No bit set is all primary colour; setting a bit changes its one cell of the
      sixteen, to the secondary colour or to nothing, and no other. */
  lemma BitNamesCell(f: Fillp, k: nat, x: int, y: int)
    requires 0 <= f.pattern && k < 16 && f.pattern / Pow2(k) % 2 == 0
    ensures f.pattern == 0 ==> f.Pick(x, y) == Some(false)
    ensures f.(pattern := f.pattern + Pow2(k)).Pick(x, y) ==
            if CellOf(x, y) == k then (if f.transparent then None else Some(true)) else f.Pick(x, y)
  {
    hide Pow2;
    OtherBits(f.pattern, k, CellOf(x, y));
    if f.pattern == 0 {
      DivModUnique(0, Pow2(CellOf(x, y)), 0, 0);
    }
  }

  /** What a shape leaves on a pixel, with a table that draws every colour as it is:
      its primary colour, or where the pattern's bit is set its secondary one, unless
      the pattern is transparent there. */
  lemma InkMeans(pen: Pen, c: Colour, x: int, y: int, was: byte)
    requires pen.table == ColourTable.PLAIN && 0 <= pen.fillp.pattern
    ensures CircleDraw.Inked(pen, c, x, y, was) ==
            if pen.fillp.pattern / Pow2(CellOf(x, y)) % 2 == 0 then c.primary % 128
            else if pen.fillp.transparent then was
            else c.secondary % 128
  {
    hide Pow2;
    if pen.fillp.pattern == 0 {
      DivModUnique(0, Pow2(CellOf(x, y)), 0, 0);
    }
  }

  lemma {:induction false} PowSplits(a: nat, b: nat)
    ensures Pow2(a + b) == Pow2(a) * Pow2(b)
  {
    if a > 0 {
      hide Pow2;
      PowSplits(a - 1, b);
      PowStep(a);
      PowStep(a + b);
      assert a + b - 1 == a - 1 + b;
      TwiceFirst(Pow2(a - 1), Pow2(b));
    } else {
      PowOne();
    }
  }

  lemma PowStep(n: nat)
    requires 0 < n
    ensures Pow2(n) == 2 * Pow2(n - 1)
  {
  }

  lemma TwiceFirst(x: nat, y: nat)
    ensures 2 * x * y == 2 * (x * y)
  {
  }

  lemma WithinProduct(a: nat, b: nat, r: nat, r': nat)
    requires r < a && r' < b
    ensures r' * a + r < a * b
  {
    MulMono(r' + 1, b, a);
    assert (r' + 1) * a == r' * a + a;
    assert b * a == a * b;
  }

  lemma RemainderOfTwo(q': nat, r': nat, a: nat, b: nat, r: nat)
    ensures (q' * b + r') * a + r == q' * (a * b) + (r' * a + r)
  {
    assert (q' * b + r') * a == q' * b * a + r' * a;
    assert q' * b * a == q' * (b * a);
    assert b * a == a * b;
  }

  lemma DivTwice(p: nat, a: nat, b: nat)
    requires 0 < a && 0 < b
    ensures 0 < a * b && p / (a * b) == p / a / b
  {
    MulMono(1, b, a);
    Quotients(p, a, b, p / a, p % a, p / a / b, p / a % b);
  }

  lemma Quotients(p: nat, a: nat, b: nat, q: nat, r: nat, q': nat, r': nat)
    requires r < a && r' < b && 0 < a * b && p == q * a + r && q == q' * b + r'
    ensures p / (a * b) == q'
  {
    WithinProduct(a, b, r, r');
    RemainderOfTwo(q', r', a, b, r);
    Quotient(p, a * b, q', r' * a + r);
  }

  lemma Quotient(p: nat, m: nat, q: nat, r: nat)
    requires r < m && p == q * m + r
    ensures p / m == q
  {
    DivModUnique(p, m, q, r);
  }

  lemma PowOne()
    ensures Pow2(1) == 2 && Pow2(0) == 1
  {
    assert Pow2(0) == 1;
  }

  function Bit(p: nat, c: nat): nat
    requires 0 < c
  {
    p / c % 2
  }

  lemma OwnBit(p: nat, c: nat)
    requires 0 < c && Bit(p, c) == 0
    ensures Bit(p + c, c) == 1
  {
    DivModShift(p, 1, c);
  }

  /** Adding an even multiple of a power leaves the bit of that power. */
  lemma LowerBit(p: nat, c: nat, b: nat, m: nat)
    requires 0 < c && b == 2 * m * c
    ensures Bit(p + b, c) == Bit(p, c)
  {
    DivModShift(p, 2 * m, c);
  }

  /** Adding a power whose bit is clear leaves every bit above it. */
  lemma HigherBit(p: nat, b: nat, c: nat, m: nat)
    requires 0 < b && 0 < m && c == b * (2 * m) && Bit(p, b) == 0
    ensures 0 < c && Bit(p + b, c) == Bit(p, c)
  {
    DivModShift(p, 1, b);
    DivTwice(p, b, 2 * m);
    DivTwice(p + b, b, 2 * m);
    var q := p / b;
    DivTwice(q, 2, m);
    DivTwice(q + 1, 2, m);
    assert (q + 1) / 2 == q / 2;
  }

  /** Setting a bit that is clear sets it and leaves every other as it was. */
  lemma OtherBits(p: nat, k: nat, j: nat)
    requires Bit(p, Pow2(k)) == 0
    ensures Bit(p + Pow2(k), Pow2(j)) == if j == k then 1 else Bit(p, Pow2(j))
  {
    hide Pow2, Bit;
    if j == k {
      OwnBit(p, Pow2(k));
    } else if j < k {
      PowersApart(j, k);
      LowerBit(p, Pow2(j), Pow2(k), Pow2(k - j - 1));
    } else {
      PowersApart(k, j);
      HigherBit(p, Pow2(k), Pow2(j), Pow2(j - k - 1));
    }
  }

  lemma PowersApart(j: nat, k: nat)
    requires j < k
    ensures Pow2(k) == Pow2(j) * (2 * Pow2(k - j - 1)) == 2 * Pow2(k - j - 1) * Pow2(j)
  {
    hide Pow2;
    PowOne();
    PowSplits(j, k - j);
    PowSplits(1, k - j - 1);
  }
}
