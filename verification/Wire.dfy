/** The fields of the worker protocol, printed and parsed: each printer with the
    parser that undoes it, in both directions. */
module Wire {
  import opened Numbers
  import Utf8

  type Bytes = seq<byte>

  /** What a parser makes of the front of some bytes. */
  datatype Parsed<+T> = Refused | Got(value: T, rest: Bytes) {
    predicate IsFailure() { Refused? }

    function PropagateFailure<U>(): Parsed<U>
      requires Refused?
    {
      Refused
    }

    function Extract(): (T, Bytes)
      requires Got?
    {
      (value, rest)
    }
  }

  // ----- numbers, little-endian ------------------------------------------------------

  function Pow256(n: nat): (p: nat)
    ensures 0 < p
  {
    if n == 0 then 1 else 256 * Pow256(n - 1)
  }

  function Le(n: nat, v: nat): (b: Bytes)
    ensures |b| == n
  {
    if n == 0 then [] else [v % 256] + Le(n - 1, v / 256)
  }

  function FromLe(b: Bytes): nat {
    if b == [] then 0 else b[0] + 256 * FromLe(b[1..])
  }

  lemma {:induction false} LeRoundTrip(n: nat, v: nat)
    requires v < Pow256(n)
    ensures FromLe(Le(n, v)) == v
  {
    if 0 < n {
      assert v / 256 < Pow256(n - 1);
      LeRoundTrip(n - 1, v / 256);
      assert Le(n, v)[1..] == Le(n - 1, v / 256);
    }
  }

  lemma {:induction false} FromLeRoundTrip(b: Bytes)
    ensures FromLe(b) < Pow256(|b|) && Le(|b|, FromLe(b)) == b
  {
    if b != [] {
      FromLeRoundTrip(b[1..]);
      assert FromLe(b) % 256 == b[0] && FromLe(b) / 256 == FromLe(b[1..]);
    }
  }

  /** `take`: the next `n` bytes, if there are as many. */
  function Take(n: nat, b: Bytes): (r: Parsed<Bytes>)
    ensures r.Got? ==> |r.value| == n && b == r.value + r.rest
  {
    if |b| < n then Refused else Got(b[..n], b[n..])
  }

  function GetNum(n: nat, b: Bytes): Parsed<nat> {
    var (bytes, rest) :- Take(n, b);
    Got(FromLe(bytes), rest)
  }

  lemma NumRoundTrip(n: nat, v: nat, rest: Bytes)
    requires v < Pow256(n)
    ensures GetNum(n, Le(n, v) + rest) == Got(v, rest)
  {
    LeRoundTrip(n, v);
    assert (Le(n, v) + rest)[..n] == Le(n, v) && (Le(n, v) + rest)[n..] == rest;
  }

  lemma NumParsed(n: nat, b: Bytes)
    ensures GetNum(n, b).Got? ==> GetNum(n, b).value < Pow256(n) && b == Le(n, GetNum(n, b).value) + GetNum(n, b).rest
  {
    if n <= |b| {
      FromLeRoundTrip(b[..n]);
    }
  }

  lemma Widths()
    ensures Pow256(1) == 0x100 && Pow256(2) == 0x1_0000 && Pow256(4) == 0x1_0000_0000
    ensures Pow256(8) == 0x1_0000_0000_0000_0000
  {
    assert Pow256(2) == 256 * Pow256(1);
    assert Pow256(3) == 256 * Pow256(2);
    assert Pow256(4) == 256 * Pow256(3);
    assert Pow256(5) == 256 * Pow256(4);
    assert Pow256(6) == 256 * Pow256(5);
    assert Pow256(7) == 256 * Pow256(6);
    assert Pow256(8) == 256 * Pow256(7);
  }

  const U16 := 0x1_0000
  const U32 := 0x1_0000_0000
  const U64 := 0x1_0000_0000_0000_0000

  /** A signed sixteen-bit value by its two's complement. */
  function PutI16(v: int): Bytes
  {
    Le(2, v % U16)
  }

  function GetI16(b: Bytes): Parsed<int> {
    var (u, rest) :- GetNum(2, b);
    Got(if u >= 0x8000 then u - U16 else u, rest)
  }

  lemma I16RoundTrip(v: int, rest: Bytes)
    requires -0x8000 <= v < 0x8000
    ensures GetI16(PutI16(v) + rest) == Got(v, rest)
  {
    Widths();
    NumRoundTrip(2, v % U16, rest);
  }

  lemma I16Parsed(b: Bytes)
    ensures GetI16(b).Got? ==>
              -0x8000 <= GetI16(b).value < 0x8000 && b == PutI16(GetI16(b).value) + GetI16(b).rest
  {
    Widths();
    NumParsed(2, b);
  }

  // ----- byte strings -------------------------------------------------------------------

  function PutBytes(d: Bytes): Bytes { Le(4, |d| % U32) + d }

  function GetBytes(max: nat, b: Bytes): Parsed<Bytes> {
    var (n, rest) :- GetNum(4, b);
    if n > max then Refused else Take(n, rest)
  }

  lemma BytesRoundTrip(d: Bytes, max: nat, rest: Bytes)
    requires |d| <= max && |d| < U32
    ensures GetBytes(max, PutBytes(d) + rest) == Got(d, rest)
  {
    Widths();
    NumRoundTrip(4, |d|, d + rest);
    assert PutBytes(d) + rest == Le(4, |d|) + (d + rest);
    assert (d + rest)[..|d|] == d && (d + rest)[|d|..] == rest;
  }

  lemma BytesParsed(max: nat, b: Bytes)
    ensures var r := GetBytes(max, b);
            r.Got? ==> |r.value| <= max && |r.value| < U32 && b == PutBytes(r.value) + r.rest
  {
    Widths();
    NumParsed(4, b);
    var r := GetBytes(max, b);
    if r.Got? {
      assert b == Le(4, |r.value|) + (r.value + r.rest);
      assert b == Le(4, |r.value|) + r.value + r.rest;
    }
  }

  /** A string field is a byte field whose bytes are UTF-8. */
  function GetStr(max: nat, b: Bytes): Parsed<Bytes> {
    var (s, rest) :- GetBytes(max, b);
    if Utf8.Valid(s) then Got(s, rest) else Refused
  }

  lemma StrRoundTrip(s: Bytes, max: nat, rest: Bytes)
    requires |s| <= max && |s| < U32 && Utf8.Valid(s)
    ensures GetStr(max, PutBytes(s) + rest) == Got(s, rest)
  {
    hide Utf8.Valid;
    BytesRoundTrip(s, max, rest);
  }

  lemma StrParsed(max: nat, b: Bytes)
    ensures var r := GetStr(max, b);
            r.Got? ==> |r.value| <= max && |r.value| < U32 && Utf8.Valid(r.value) && b == PutBytes(r.value) + r.rest
  {
    hide Utf8.Valid;
    BytesParsed(max, b);
  }

  // ----- lists ------------------------------------------------------------------------------

  function PutAll<T>(put: T -> Bytes, xs: seq<T>): Bytes {
    if xs == [] then [] else put(xs[0]) + PutAll(put, xs[1..])
  }

  /** `n` items in a row, after those already read. */
  function GetN<T>(get: Bytes -> Parsed<T>, n: nat, acc: seq<T>, b: Bytes): (r: Parsed<seq<T>>)
    ensures r.Got? ==> |r.value| == |acc| + n
  {
    if n == 0 then Got(acc, b)
    else
      var (x, rest) :- get(b);
      GetN(get, n - 1, acc + [x], rest)
  }

  function Mapped<T, U>(f: T -> U, xs: seq<T>): (r: seq<U>)
    ensures |r| == |xs| && forall i :: 0 <= i < |xs| ==> r[i] == f(xs[i])
  {
    seq(|xs|, i requires 0 <= i < |xs| => f(xs[i]))
  }

  /** One printer undone by one parser, up to what printing clips. */
  ghost predicate Undoes<T(!new)>(put: T -> Bytes, get: Bytes -> Parsed<T>, ok: T -> bool, canon: T -> T) {
    forall x: T, rest: Bytes {:trigger put(x) + rest} :: ok(x) ==> get(put(x) + rest) == Got(canon(x), rest)
  }

  /** One parser undone by one printer. */
  ghost predicate Reprints<T(!new)>(put: T -> Bytes, get: Bytes -> Parsed<T>, ok: T -> bool) {
    forall b: Bytes {:trigger get(b)} :: get(b).Got? ==> ok(get(b).value) && b == put(get(b).value) + get(b).rest
  }

  lemma GetOne<T>(get: Bytes -> Parsed<T>, n: nat, acc: seq<T>, b: Bytes)
    requires 0 < n
    ensures GetN(get, n, acc, b) ==
            if get(b).Got? then GetN(get, n - 1, acc + [get(b).value], get(b).rest) else Refused
  {
  }

  lemma {:induction false} ListRoundTrip<T(!new)>(put: T -> Bytes, get: Bytes -> Parsed<T>, ok: T -> bool,
                                                  canon: T -> T, acc: seq<T>, xs: seq<T>, rest: Bytes)
    requires Undoes(put, get, ok, canon) && forall x :: x in xs ==> ok(x)
    ensures GetN(get, |xs|, acc, PutAll(put, xs) + rest) == Got(acc + Mapped(canon, xs), rest)
    decreases |xs|
  {
    if xs == [] {
      assert acc + Mapped(canon, xs) == acc && PutAll(put, xs) + rest == rest;
    } else {
      hide GetN, Mapped;
      var (x, tail) := (xs[0], PutAll(put, xs[1..]) + rest);
      assert PutAll(put, xs) + rest == put(x) + tail;
      assert get(put(x) + tail) == Got(canon(x), tail);
      GetOne(get, |xs|, acc, put(x) + tail);
      ListRoundTrip(put, get, ok, canon, acc + [canon(x)], xs[1..], rest);
      assert acc + [canon(x)] + Mapped(canon, xs[1..]) == acc + Mapped(canon, xs);
    }
  }

  lemma {:induction false} ListParsed<T(!new)>(put: T -> Bytes, get: Bytes -> Parsed<T>, ok: T -> bool,
                                               n: nat, acc: seq<T>, b: Bytes)
    requires Reprints(put, get, ok)
    ensures var r := GetN(get, n, acc, b);
            r.Got? ==> acc <= r.value && (forall i :: |acc| <= i < |r.value| ==> ok(r.value[i]))
                       && b == PutAll(put, r.value[|acc|..]) + r.rest
  {
    var r := GetN(get, n, acc, b);
    if n == 0 {
      assert acc[|acc|..] == [];
    } else if r.Got? {
      var (x, rest) := get(b).Extract();
      ListParsed(put, get, ok, n - 1, acc + [x], rest);
      assert r.value[|acc|..] == [x] + r.value[|acc| + 1..];
      assert PutAll(put, r.value[|acc|..]) == put(x) + PutAll(put, r.value[|acc| + 1..]);
    }
  }

  function Width(n: nat, w: nat): nat { n * w }

  lemma WidthNext(n: nat, w: nat)
    ensures Width(n + 1, w) == Width(n, w) + w && Width(0, w) == 0
  {
  }

  /** A run of `n` fixed-width items is there exactly when its bytes are. */
  lemma {:induction false} FixedWidth<T>(get: Bytes -> Parsed<T>, w: nat, n: nat, acc: seq<T>, b: Bytes)
    requires forall c: Bytes {:trigger get(c)} :: get(c).Got? <==> w <= |c|
    requires forall c: Bytes {:trigger get(c)} :: get(c).Got? ==> get(c).rest == c[w..]
    ensures GetN(get, n, acc, b).Got? <==> Width(n, w) <= |b|
    ensures GetN(get, n, acc, b).Got? ==> GetN(get, n, acc, b).rest == b[Width(n, w)..]
  {
    hide Width;
    WidthNext(n, w);
    if 0 < n {
      hide GetN;
      WidthNext(n - 1, w);
      GetOne(get, n, acc, b);
      if get(b).Got? {
        FixedWidth(get, w, n - 1, acc + [get(b).value], get(b).rest);
      }
    }
  }
}
