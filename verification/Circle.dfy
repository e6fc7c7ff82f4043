/** The midpoint circle: the outline `circ` walks, the half-widths `circfill`
    takes from the same walk, and the two sets of pixels they are. */
module Circle {
  import opened Numbers
  import opened Raster

  const MAX_RADIUS := 0x8000

  /** Inside the circle of radius `r`, at `(dx, dy)` from its centre: with `a`
      the longer and `b` the shorter of the two distances, `a` is at most
      `sqrt(r^2 - b^2)` rounded to nearest. */
  predicate Disc(r: nat, dx: int, dy: int) {
    if r == 0 then dx == 0 && dy == 0
    else var (a, b) := (Max(Abs(dx), Abs(dy)), Min(Abs(dx), Abs(dy))); a * a - a + b * b < r * r
  }

  /** On the circle: `a` is exactly that root, rounded. */
  predicate Ring(r: nat, dx: int, dy: int) {
    if r == 0 then dx == 0 && dy == 0
    else
      var (a, b) := (Max(Abs(dx), Abs(dy)), Min(Abs(dx), Abs(dy)));
      a * a - a + b * b < r * r <= a * a + a + b * b
  }

  /** `x` is `sqrt(r^2 - y^2)` rounded to nearest. */
  predicate Arc(r: int, x: int, y: int) {
    x * x - x + y * y < r * r <= x * x + x + y * y
  }

  /** The walk's error term. */
  function Error(r: int, x: int, y: int): int {
    (y + 1) * (y + 1) + x * x - x - r * r
  }

  /** Where the walk stands at the top of its loop; past the diagonal no pair
      of this size or larger is on the circle any more. */
  ghost predicate Walking(r: nat, x: int, y: int, err: int) {
    && 0 <= y <= r + 1 && -1 <= x <= r && err == Error(r, x, y)
    && (0 < r && x >= y ==> Arc(r, x, y))
    && (x < y ==> r * r <= 2 * y * y - y)
  }

  lemma WalkStart(r: nat)
    ensures Walking(r, r, 0, 1 - r)
  {
  }

  lemma WalkStep(r: nat, x: int, y: int, err: int)
    requires Walking(r, x, y, err) && x >= y
    ensures err < 0 ==> Walking(r, x, y + 1, err + 2 * (y + 1) + 1)
    ensures err >= 0 ==> Walking(r, x - 1, y + 1, err + 2 * ((y + 1) - (x - 1)) + 1)
  {
    hide Arc, Error;
    ErrorStep(r, x, y);
    if 0 < r {
      ArcStep(r, x, y);
    } else {
      assert err == 1 by { ErrorAt0(); }
    }
  }

  lemma ErrorAt0()
    ensures Error(0, 0, 0) == 1
  {
  }

  lemma ErrorStep(r: int, x: int, y: int)
    ensures Error(r, x, y + 1) == Error(r, x, y) + 2 * (y + 1) + 1
    ensures Error(r, x - 1, y + 1) == Error(r, x, y) + 2 * ((y + 1) - (x - 1)) + 1
  {
    assert (y + 2) * (y + 2) == (y + 1) * (y + 1) + 2 * (y + 1) + 1;
    assert (x - 1) * (x - 1) == x * x - 2 * x + 1;
  }

  lemma ArcStep(r: nat, x: int, y: int)
    requires 0 < r && Arc(r, x, y) && 0 <= y <= x
    ensures Error(r, x, y) < 0 ==> y < x && Arc(r, x, y + 1)
    ensures Error(r, x, y) >= 0 ==>
              if x - 1 >= y + 1 then Arc(r, x - 1, y + 1) else r * r <= 2 * (y + 1) * (y + 1) - (y + 1)
  {
    assert (y + 1) * (y + 1) == y * y + 2 * y + 1;
    assert (x - 1) * (x - 1) == x * x - 2 * x + 1;
    assert 2 * (y + 1) * (y + 1) == 2 * ((y + 1) * (y + 1));
    if x < y + 2 {
      assert x == y || x == y + 1;
    }
  }

  // ----- rows of the disc ------------------------------------------------------

  /** The widest `w` of row `d`: the disc reaches it and no further. */
  predicate RowIs(r: nat, d: int, w: int) {
    0 <= w <= r && Disc(r, w, d) && !Disc(r, w + 1, d)
  }

  lemma SquareMono(a: int, b: int)
    requires 0 <= a <= b
    ensures a * a <= b * b && a * a - a <= b * b - b
  {
    MulMono(a, b, a);
    MulMono(a, b, b);
    if 0 < a {
      MulMono(a, b, a - 1);
      MulMono(a - 1, b - 1, b);
    }
  }

  /** Nearer the centre on either axis is still inside. */
  lemma DiscMono(r: nat, dx: int, dy: int, dx': int, dy': int)
    requires Disc(r, dx, dy) && Abs(dx') <= Abs(dx) && Abs(dy') <= Abs(dy)
    ensures Disc(r, dx', dy')
  {
    SquareMono(Max(Abs(dx'), Abs(dy')), Max(Abs(dx), Abs(dy)));
    SquareMono(Min(Abs(dx'), Abs(dy')), Min(Abs(dx), Abs(dy)));
  }

  lemma DiscRange(r: nat, dx: int, dy: int)
    requires Disc(r, dx, dy)
    ensures Abs(dx) <= r && Abs(dy) <= r
  {
    var a := Max(Abs(dx), Abs(dy));
    assert (r + 1) * (r + 1) - (r + 1) == r * r + r;
    if a > r {
      SquareMono(0, Min(Abs(dx), Abs(dy)));
      SquareMono(r + 1, a);
    }
  }

  /** A row is a run: everything up to its half-width, and nothing past it. */
  lemma RowMeans(r: nat, d: int, w: int, e: int)
    requires RowIs(r, d, w)
    ensures Disc(r, e, d) <==> Abs(e) <= w
  {
    hide Disc;
    if Abs(e) <= w {
      DiscMono(r, w, d, e, d);
    } else if Disc(r, e, d) {
      DiscMono(r, e, d, w + 1, d);
    }
  }

  /** Farther rows are no wider. */
  lemma RowsNarrow(r: nat, d: int, w: int, d': int, w': int)
    requires RowIs(r, d, w) && RowIs(r, d', w') && Abs(d) <= Abs(d')
    ensures w' <= w
  {
    hide Disc;
    DiscMono(r, w', d', w', d);
    RowMeans(r, d, w, w');
  }

  /** Both ends of every row are pixels of the outline. */
  lemma RowEnds(r: nat, d: int, w: int)
    requires 0 < r && 0 <= d <= r && RowIs(r, d, w)
    ensures Ring(r, w, d) && Ring(r, -w, d) && Ring(r, w, -d) && Ring(r, -w, -d)
  {
    assert (w + 1) * (w + 1) == w * w + 2 * w + 1;
    assert d <= w ==> Arc(r, w, d);
    assert w < d ==> Arc(r, d, w);
  }

  /** Up to the diagonal, the walk's `x` is the half-width of row `y`. */
  lemma ArcRow(r: nat, x: int, y: int)
    requires 0 < r && Arc(r, x, y) && 0 <= y <= x <= r
    ensures RowIs(r, y, x)
  {
    assert (x + 1) * (x + 1) == x * x + 2 * x + 1;
  }

  /** Past it, the last `y` at a given `x` is the half-width of row `x`. */
  lemma ArcColumn(r: nat, x: int, y: int)
    requires 0 < r && Arc(r, x, y) && 0 <= y <= x <= r && Error(r, x, y) >= 0
    ensures RowIs(r, x, y)
  {
    if y < x {
      assert Disc(r, y + 1, x) <==> x * x - x + (y + 1) * (y + 1) < r * r;
    } else {
      ArcRow(r, x, y);
    }
  }

  /** The widest column of every row, by the same walk as the outline. */
  method HalfWidths(r: nat) returns (w: array<int>)
    ensures fresh(w) && w.Length == r + 1
    ensures forall d :: 0 <= d <= r ==> RowIs(r, d, w[d])
  {
    hide Disc, Arc, Error;
    w := new int[r + 1](_ => 0);
    var x, y, err := r, 0, 1 - r;
    WalkStart(r);
    PointRow();
    while x >= y
      invariant Walking(r, x, y, err)
      invariant forall d :: 0 <= d < y && d <= r ==> RowIs(r, d, w[d])
      invariant forall d :: x < d <= r ==> RowIs(r, d, w[d])
      invariant forall d :: y <= d <= x ==> 0 <= w[d] <= y
      decreases x - y
    {
      if 0 < r {
        ArcRow(r, x, y);
      }
      w[y] := Max(w[y], x);
      w[x] := Max(w[x], y);
      WalkStep(r, x, y, err);
      if 0 < r && err >= 0 {
        ArcColumn(r, x, y);
      }
      y := y + 1;
      if err < 0 {
        err := err + 2 * y + 1;
      } else {
        x := x - 1;
        err := err + 2 * (y - x) + 1;
      }
    }
  }

  lemma PointRow()
    ensures RowIs(0, 0, 0)
  {
  }
}
