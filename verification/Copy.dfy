/** Copying a rectangle between two buffers and within one. */
module Copy {
  import opened Numbers
  import opened Raster
  import opened Wrappers

  datatype Outcome = Copied | KindMismatch(expected: Kind, got: Kind)

  /** A rectangle of elements, row after row. */
  datatype Image<T> = Image(width: nat, height: nat, cells: seq<T>) {
    predicate Valid() {
      width <= I32_MAX && height <= I32_MAX && |cells| == Area(width, height)
    }

    predicate Has(x: int, y: int) { 0 <= x < width && 0 <= y < height }

    function Cell(x: int, y: int): T
      requires Valid() && Has(x, y)
    {
      IndexBound(width, height, x, y);
      cells[Index(width, x, y)]
    }

    function Bounds(): Rect { Rect(0, 0, width, height) }
  }

  // ----- what a copy means ---------------------------------------------------

  /** Take `w` by `h` from `(sx, sy)` to `(dx, dy)`, inside `clip` when there is one. */
  datatype Move = Move(sx: int, sy: int, w: int, h: int, dx: int, dy: int, clip: Option<Rect>) {
    predicate Fits() {
      && Fits32(sx) && Fits32(sy) && Fits32(w) && Fits32(h) && Fits32(dx) && Fits32(dy)
      && (clip.Some? ==> Raster.Fits(clip.value))
    }

    /** Destination `(px, py)` is reached: it has a source, in bounds, in the clip. */
    predicate Lands<T>(src: Image<T>, px: int, py: int) {
      && dx <= px < dx + w && dy <= py < dy + h
      && src.Has(sx + (px - dx), sy + (py - dy))
      && (clip.Some? ==> clip.value.Contains(px, py))
    }
  }

  /** Every pixel reached holds what its source held before; every other pixel is
      as it was. */
  ghost predicate IsCopy<T>(before: Image<T>, after: Image<T>, src: Image<T>, m: Move)
    requires before.Valid() && src.Valid()
  {
    && after.Valid() && after.width == before.width && after.height == before.height
    && forall px, py :: before.Has(px, py) ==>
         after.Cell(px, py) == if m.Lands(src, px, py) then src.Cell(m.sx + (px - m.dx), m.sy + (py - m.dy))
                               else before.Cell(px, py)
  }

  /** A copy is one thing only. */
  lemma CopyIsOne<T>(before: Image<T>, a: Image<T>, b: Image<T>, src: Image<T>, m: Move)
    requires before.Valid() && src.Valid()
    requires IsCopy(before, a, src, m) && IsCopy(before, b, src, m)
    ensures a == b
  {
    forall k | 0 <= k < |a.cells|
      ensures a.cells[k] == b.cells[k]
    {
      var x, y := CellOf(a.width, a.height, k);
      assert a.Cell(x, y) == b.Cell(x, y);
    }
  }

  /** Every index is some pixel's. */
  lemma CellOf(width: nat, height: nat, k: nat) returns (x: nat, y: nat)
    requires k < Area(width, height)
    ensures x < width && y < height && k == Index(width, x, y)
  {
    assert width > 0;
    x, y := k % width, k / width;
    assert k == y * width + x;
    if y >= height {
      MulMono(height, y, width);
    }
  }

  // ----- the region ----------------------------------------------------------

  /** Where a copy is taken from and to once every bound has cut it. */
  datatype Region = Region(sx: nat, sy: nat, dx: nat, dy: nat, w: nat, h: nat) {
    predicate Inside<T>(dst: Image<T>, src: Image<T>) {
      && sx + w <= src.width && sy + h <= src.height
      && dx + w <= dst.width && dy + h <= dst.height
    }

    predicate Covers(px: int, py: int) {
      dx <= px < dx + w && dy <= py < dy + h
    }
  }

  function CheckedAdd(a: int, b: int): Option<int> {
    if Fits32(a + b) then Some(a + b) else None
  }

  function CopyRegion(dst: Rect, src: Rect, m: Move): Option<Region>
    requires dst.x == 0 && dst.y == 0 && src.x == 0 && src.y == 0 && m.Fits()
  {
    if m.w <= 0 || m.h <= 0 then None
    else
      var s := Rect(m.sx, m.sy, m.w, m.h).Intersect(src);
      if s.IsEmpty() then None
      else
        match (CheckedAdd(m.dx, s.x - m.sx), CheckedAdd(m.dy, s.y - m.sy))
        case (Some(dx), Some(dy)) =>
          var cut := Rect(dx, dy, s.w, s.h).Intersect(dst);
          var d := if m.clip.Some? then cut.Intersect(m.clip.value) else cut;
          if d.IsEmpty() then None
          else Some(Region(s.x + (d.x - dx), s.y + (d.y - dy), d.x, d.y, d.w, d.h))
        case _ => None
  }

  /** In the rectangle, had 32 bits no end. */
  predicate Spans(r: Rect, x: int, y: int) {
    r.x <= x < r.x + r.w && r.y <= y < r.y + r.h
  }

  /** Cut to a buffer's bounds, a rectangle loses exactly what lies outside, and
      what is left starts no further in than it reached: the differences taken
      fit 32 bits however far out the corners. */
  lemma CutToBounds(a: Rect, b: Rect, x: int, y: int)
    requires Fits(a) && Fits(b) && b.x == 0 && b.y == 0
    ensures var c := a.Intersect(b);
            && Fits(c) && (Spans(c, x, y) <==> Spans(a, x, y) && Spans(b, x, y))
            && (!c.IsEmpty() ==> 0 <= c.x && 0 <= c.y && c.x + c.w <= b.w && c.y + c.h <= b.h)
            && (!c.IsEmpty() ==> 0 <= c.x - a.x <= a.w - c.w && 0 <= c.y - a.y <= a.h - c.h)
            && (c.IsEmpty() ==> !Spans(c, x, y))
  {
  }

  lemma CutToClip(a: Rect, clip: Rect, x: int, y: int)
    requires Fits(a) && Fits(clip) && 0 <= a.x && 0 <= a.y && 0 <= a.w && 0 <= a.h
    requires a.x + a.w <= I32_MAX && a.y + a.h <= I32_MAX
    ensures var c := a.Intersect(clip);
            && (Spans(c, x, y) <==> Spans(a, x, y) && clip.Contains(x, y))
            && (!c.IsEmpty() ==> a.x <= c.x && a.y <= c.y && c.x + c.w <= a.x + a.w && c.y + c.h <= a.y + a.h)
            && (c.IsEmpty() ==> !Spans(c, x, y))
  {
  }

  /** The region is exactly the pixels reached, each beside its own source. */
  lemma RegionMeans<T>(dst: Image<T>, src: Image<T>, m: Move, px: int, py: int)
    requires dst.Valid() && src.Valid() && m.Fits()
    ensures match CopyRegion(dst.Bounds(), src.Bounds(), m)
            case None => dst.Has(px, py) ==> !m.Lands(src, px, py)
            case Some(r) =>
              && r.Inside(dst, src)
              && (dst.Has(px, py) && m.Lands(src, px, py) <==> r.Covers(px, py))
              && r.sx - r.dx == m.sx - m.dx && r.sy - r.dy == m.sy - m.dy
  {
    hide Rect.Intersect, Rect.Contains, Area;
    var asked := Rect(m.sx, m.sy, m.w, m.h);
    var s := asked.Intersect(src.Bounds());
    CutToBounds(asked, src.Bounds(), m.sx + (px - m.dx), m.sy + (py - m.dy));
    if m.w > 0 && m.h > 0 && !s.IsEmpty() {
      var dx, dy := m.dx + (s.x - m.sx), m.dy + (s.y - m.sy);
      if Fits32(dx) && Fits32(dy) {
        var cut := Rect(dx, dy, s.w, s.h).Intersect(dst.Bounds());
        CutToBounds(Rect(dx, dy, s.w, s.h), dst.Bounds(), px, py);
        if m.clip.Some? {
          if cut.IsEmpty() {
            EmptyStaysEmpty(cut, m.clip.value);
          } else {
            CutToClip(cut, m.clip.value, px, py);
          }
        }
      }
    }
  }

  lemma EmptyStaysEmpty(a: Rect, b: Rect)
    requires a.IsEmpty() && Fits(a)
    ensures a.Intersect(b).IsEmpty()
  {
  }

  // ----- rows ----------------------------------------------------------------

  /** Rows `lo` to `hi` of the region hold their source, all else what it was. */
  ghost predicate Rows<T>(before: Image<T>, after: Image<T>, src: Image<T>, r: Region, lo: nat, hi: nat)
    requires before.Valid() && src.Valid() && r.Inside(before, src) && hi <= r.h
  {
    && after.Valid() && after.width == before.width && after.height == before.height
    && forall x, y :: before.Has(x, y) ==>
         after.Cell(x, y) == if r.dx <= x < r.dx + r.w && r.dy + lo <= y < r.dy + hi
                             then src.Cell(x - r.dx + r.sx, y - r.dy + r.sy)
                             else before.Cell(x, y)
  }

  lemma RowsAreCopy<T>(before: Image<T>, after: Image<T>, src: Image<T>, m: Move, r: Region)
    requires before.Valid() && src.Valid() && m.Fits()
    requires CopyRegion(before.Bounds(), src.Bounds(), m) == Some(r)
    requires r.Inside(before, src) && Rows(before, after, src, r, 0, r.h)
    ensures IsCopy(before, after, src, m)
  {
    hide CopyRegion, Index, Area, Image.Cell;
    forall px, py | before.Has(px, py)
      ensures after.Cell(px, py) == if m.Lands(src, px, py) then src.Cell(m.sx + (px - m.dx), m.sy + (py - m.dy))
                                    else before.Cell(px, py)
    {
      RegionMeans(before, src, m, px, py);
    }
  }

  /** The two images agree in `w` cells of a row. */
  ghost predicate RowAgrees<T>(a: Image<T>, b: Image<T>, x0: nat, w: nat, y: nat)
    requires a.Valid() && b.Valid() && a.width == b.width && a.height == b.height
    requires x0 + w <= a.width && y < a.height
  {
    forall x :: x0 <= x < x0 + w ==> a.Cell(x, y) == b.Cell(x, y)
  }

  /** One row moved: `r.w` cells from index `s` of `from` to index `d`. */
  ghost predicate RowMoved<T>(mid: seq<T>, after: seq<T>, from: seq<T>, s: int, d: int, n: nat) {
    && |after| == |mid| && 0 <= s && 0 <= d && s + n <= |from| && d + n <= |mid|
    && forall k :: 0 <= k < |mid| ==> after[k] == if d <= k < d + n then from[s + (k - d)] else mid[k]
  }

  /** Where row `row` of the region starts in an image. */
  lemma RowFits(width: nat, height: nat, x: nat, y: nat, w: nat)
    requires x + w <= width && y < height
    ensures 0 <= Index(width, x, y) && Index(width, x, y) + w <= Area(width, height)
  {
    MulMono(y + 1, height, width);
    assert (y + 1) * width == y * width + width;
  }

  /** A cell is in a run of a row exactly when its row and column are. */
  lemma InRun(width: nat, x: int, y: int, x0: nat, y0: nat, w: nat)
    requires 0 <= x < width && x0 + w <= width
    ensures Index(width, x0, y0) <= Index(width, x, y) < Index(width, x0, y0) + w <==> y == y0 && x0 <= x < x0 + w
  {
    if y < y0 {
      MulMono(y + 1, y0, width);
      assert (y + 1) * width == y * width + width;
    } else if y > y0 {
      MulMono(y0 + 1, y, width);
      assert (y0 + 1) * width == y0 * width + width;
    }
  }

  /** Moving one more row at either end of those done. The source read is `from`,
      which need agree with `src` in that row only. */
  lemma RowsGrow<T>(before: Image<T>, mid: Image<T>, after: Image<T>, from: Image<T>, src: Image<T>, r: Region,
                    lo: nat, hi: nat, row: nat)
    requires before.Valid() && src.Valid() && from.Valid() && r.Inside(before, src) && lo <= hi <= r.h
    requires from.width == src.width && from.height == src.height
    requires Rows(before, mid, src, r, lo, hi) && row < r.h && (row == hi || row + 1 == lo)
    requires after.width == mid.width && after.height == mid.height
    requires RowMoved(mid.cells, after.cells, from.cells, Index(src.width, r.sx, r.sy + row),
                      Index(before.width, r.dx, r.dy + row), r.w)
    requires RowAgrees(from, src, r.sx, r.w, r.sy + row)
    ensures Rows(before, after, src, r, if row == hi then lo else row, if row == hi then hi + 1 else hi)
  {
    assert after.Valid();
    forall x, y | before.Has(x, y)
      ensures after.Cell(x, y) == if r.dx <= x < r.dx + r.w && y == r.dy + row
                                  then src.Cell(x - r.dx + r.sx, y - r.dy + r.sy)
                                  else mid.Cell(x, y)
    {
      InRun(before.width, x, y, r.dx, r.dy + row, r.w);
      IndexBound(before.width, before.height, x, y);
      var k := Index(before.width, x, y);
      assert after.Cell(x, y) == after.cells[k] && mid.Cell(x, y) == mid.cells[k];
      if r.dx <= x < r.dx + r.w && y == r.dy + row {
        assert from.Cell(x - r.dx + r.sx, r.sy + row) == src.Cell(x - r.dx + r.sx, r.sy + row);
      }
    }
  }

  // ----- buffers -------------------------------------------------------------

  class Buf<T> {
    const kind: Kind
    const width: nat
    const height: nat
    const data: array<T>

    ghost predicate Valid() {
      width <= I32_MAX && height <= I32_MAX && data.Length == Area(width, height)
    }

    ghost function View(): (v: Image<T>)
      requires Valid()
      reads data
      ensures v.Valid()
    {
      Image(width, height, data[..])
    }

    constructor (kind: Kind, width: nat, height: nat, data: array<T>)
      requires width <= I32_MAX && height <= I32_MAX && data.Length == Area(width, height)
      ensures Valid() && this.kind == kind && this.width == width && this.height == height && this.data == data
    {
      this.kind, this.width, this.height, this.data := kind, width, height, data;
    }

    /** Copy from another buffer. */
    method CopyFrom(src: Buf<T>, m: Move) returns (outcome: Outcome)
      requires Valid() && src.Valid() && m.Fits() && src.data != data
      modifies data
      ensures outcome == if src.kind == kind then Copied else KindMismatch(kind, src.kind)
      ensures if src.kind == kind then IsCopy(old(View()), View(), src.View(), m) else View() == old(View())
    {
      hide CopyRegion, Index, Area, Image.Cell, Rows, RowMoved;
      if src.kind != kind {
        return KindMismatch(kind, src.kind);
      }
      ghost var was, from := View(), src.View();
      outcome := Copied;
      match CopyRegion(Rect(0, 0, width, height), Rect(0, 0, src.width, src.height), m) {
        case None =>
          forall px, py | was.Has(px, py)
            ensures !m.Lands(from, px, py)
          {
            RegionMeans(was, from, m, px, py);
          }
        case Some(r) =>
          RegionMeans(was, from, m, 0, 0);
          CopyRows(src, r);
          RowsAreCopy(was, View(), from, m, r);
      }
    }

    method CopyRows(src: Buf<T>, r: Region)
      requires Valid() && src.Valid() && src.data != data
      requires r.Inside(View(), src.View())
      modifies data
      ensures Rows(old(View()), View(), src.View(), r, 0, r.h)
    {
      hide Index, Area, Image.Cell;
      for row := 0 to r.h
        invariant src.data[..] == old(src.data[..])
        invariant Rows(old(View()), View(), src.View(), r, 0, row)
      {
        ghost var mid := View();
        RowFits(src.width, src.height, r.sx, r.sy + row, r.w);
        RowFits(width, height, r.dx, r.dy + row, r.w);
        var s, d := Index(src.width, r.sx, r.sy + row), Index(width, r.dx, r.dy + row);
        forall i | d <= i < d + r.w {
          data[i] := src.data[s + (i - d)];
        }
        RowsGrow(old(View()), mid, View(), src.View(), src.View(), r, 0, row, row);
      }
    }

    /** Copy within one buffer: the same as through a temporary, however the two
        rectangles overlap. */
    method CopyWithin(m: Move)
      requires Valid() && m.Fits()
      modifies data
      ensures IsCopy(old(View()), View(), old(View()), m)
    {
      hide CopyRegion, Index, Area, Image.Cell, Rows, RowMoved;
      ghost var was := View();
      match CopyRegion(Rect(0, 0, width, height), Rect(0, 0, width, height), m) {
        case None =>
          forall px, py | was.Has(px, py)
            ensures !m.Lands(was, px, py)
          {
            RegionMeans(was, was, m, px, py);
          }
        case Some(r) =>
          RegionMeans(was, was, m, 0, 0);
          CopyRowsWithin(r);
          RowsAreCopy(was, View(), was, m, r);
      }
    }

    /** Down or up the rows, so that each is read before anything is written on it. */
    method CopyRowsWithin(r: Region)
      requires Valid() && r.Inside(View(), View())
      modifies data
      ensures Rows(old(View()), View(), old(View()), r, 0, r.h)
    {
      hide Index, Area, Image.Cell, Rows;
      ghost var was := View();
      RowsNone(was, r);
      if r.dy > r.sy {
        var row: nat := r.h;
        while row > 0
          invariant row <= r.h && Rows(was, View(), was, r, row, r.h)
        {
          row := row - 1;
          MoveRow(was, r, row, row + 1, r.h);
        }
      } else {
        for row := 0 to r.h
          invariant Rows(was, View(), was, r, 0, row)
        {
          MoveRow(was, r, row, 0, row);
        }
      }
    }

    /** One row by memmove, whose source rows `lo` to `hi` have not touched. */
    method MoveRow(ghost was: Image<T>, r: Region, row: nat, ghost lo: nat, ghost hi: nat)
      requires Valid() && was.Valid() && was.width == width && was.height == height
      requires r.Inside(was, was) && lo <= hi <= r.h && row < r.h
      requires row == hi || row + 1 == lo
      requires !(r.dy + lo <= r.sy + row < r.dy + hi)
      requires Rows(was, View(), was, r, lo, hi)
      modifies data
      ensures Rows(was, View(), was, r, if row == hi then lo else row, if row == hi then hi + 1 else hi)
    {
      hide Index, Area, Image.Cell, RowAgrees, Rows;
      ghost var mid := View();
      RowFits(width, height, r.sx, r.sy + row, r.w);
      RowFits(width, height, r.dx, r.dy + row, r.w);
      var s, d := Index(width, r.sx, r.sy + row), Index(width, r.dx, r.dy + row);
      forall i | d <= i < d + r.w {
        data[i] := data[s + (i - d)];
      }
      RowUntouched(was, mid, r, lo, hi, r.sy + row);
      RowsGrow(was, mid, View(), mid, was, r, lo, hi, row);
    }
  }

  lemma RowsNone<T>(was: Image<T>, r: Region)
    requires was.Valid() && r.Inside(was, was)
    ensures Rows(was, was, was, r, 0, 0) && Rows(was, was, was, r, r.h, r.h)
  {
  }

  lemma RowUntouched<T>(was: Image<T>, mid: Image<T>, r: Region, lo: nat, hi: nat, y: nat)
    requires was.Valid() && r.Inside(was, was) && lo <= hi <= r.h && y < was.height
    requires Rows(was, mid, was, r, lo, hi) && !(r.dy + lo <= y < r.dy + hi)
    ensures RowAgrees(mid, was, r.sx, r.w, y)
  {
    hide Index, Area, Image.Cell;
    forall x | r.sx <= x < r.sx + r.w
      ensures mid.Cell(x, y) == was.Cell(x, y)
    {
      assert was.Has(x, y);
    }
  }
}
