/** A string of the worker protocol as the characters it stands for: section 3 of
    RFC 3629 beside the byte ranges of its section 4. */
module Scalars {
  import opened Numbers
  import Utf8

  /** A Unicode scalar value: any code point but the surrogates. */
  predicate Scalar(c: nat) { c < 0xD800 || 0xE000 <= c < 0x11_0000 }

  function Encode(c: nat): (s: seq<byte>)
    requires Scalar(c)
    ensures 0 < |s| <= 4
  {
    if c < 0x80 then [c]
    else if c < 0x800 then [0xC0 + c / 64, 0x80 + c % 64]
    else if c < 0x1_0000 then [0xE0 + c / 4096, 0x80 + c / 64 % 64, 0x80 + c % 64]
    else [0xF0 + c / 262144, 0x80 + c / 4096 % 64, 0x80 + c / 64 % 64, 0x80 + c % 64]
  }

  /** Six bits at a time, highest first. */
  lemma SixBits(c: nat)
    ensures c / 4096 == c / 64 / 64 && c / 262144 == c / 64 / 64 / 64
    ensures c == c / 64 / 64 / 64 * 262144 + c / 64 / 64 % 64 * 4096 + c / 64 % 64 * 64 + c % 64
  {
  }

  /** A character's bytes are the character a string that begins with them starts
      with. */
  lemma EncodedIsFirst(c: nat, rest: seq<byte>)
    requires Scalar(c)
    ensures Utf8.FirstLength(Encode(c) + rest) == |Encode(c)|
  {
    SixBits(c);
    var s := Encode(c) + rest;
    assert s[..|Encode(c)|] == Encode(c);
    assert forall i :: 0 <= i < |Encode(c)| ==> s[i] == Encode(c)[i];
  }

  /** And no two characters have the same bytes. */
  lemma EncodeApart(c: nat, d: nat)
    requires Scalar(c) && Scalar(d) && Encode(c) == Encode(d)
    ensures c == d
  {
    SixBits(c);
    SixBits(d);
    assert Encode(c)[0] == Encode(d)[0];
    assert |Encode(c)| > 1 ==> Encode(c)[1] == Encode(d)[1];
    assert |Encode(c)| > 2 ==> Encode(c)[2] == Encode(d)[2];
    assert |Encode(c)| > 3 ==> Encode(c)[3] == Encode(d)[3];
  }

  /** The character a string starts with, put together from its bytes. */
  function FirstScalar(s: seq<byte>): nat
    requires 0 < Utf8.FirstLength(s)
  {
    match Utf8.FirstLength(s)
    case 1 => s[0] as int
    case 2 => (s[0] as int - 0xC0) * 64 + (s[1] as int - 0x80)
    case 3 => (s[0] as int - 0xE0) * 4096 + (s[1] as int - 0x80) * 64 + (s[2] as int - 0x80)
    case _ => (s[0] as int - 0xF0) * 262144 + (s[1] as int - 0x80) * 4096 + (s[2] as int - 0x80) * 64 + (s[3] as int - 0x80)
  }

  /** Four digits of six bits, put together and taken apart. */
  lemma Digits(x: nat, y: nat, z: nat, w: nat)
    requires y < 64 && z < 64 && w < 64
    ensures var c := x * 262144 + y * 4096 + z * 64 + w;
            && c % 64 == w && c / 64 % 64 == z && c / 4096 % 64 == y && c / 262144 == x
            && c / 64 == x * 4096 + y * 64 + z && c / 4096 == x * 64 + y
  {
  }

  lemma FirstIsEncoded(s: seq<byte>)
    requires 0 < Utf8.FirstLength(s)
    ensures Scalar(FirstScalar(s)) && Encode(FirstScalar(s)) == s[..Utf8.FirstLength(s)]
  {
    hide Encode;
    match Utf8.FirstLength(s) {
      case 1 => EncodeIs1(s[0]);
      case 2 => EncodeIs2(s[0] as int - 0xC0, s[1] as int - 0x80);
      case 3 => EncodeIs3(s[0] as int - 0xE0, s[1] as int - 0x80, s[2] as int - 0x80);
      case _ => EncodeIs4(s[0] as int - 0xF0, s[1] as int - 0x80, s[2] as int - 0x80, s[3] as int - 0x80);
    }
  }

  lemma EncodeIs1(w: nat)
    requires w < 0x80
    ensures Scalar(w) && Encode(w) == [w]
  {
  }

  lemma EncodeIs2(z: nat, w: nat)
    requires 2 <= z < 32 && w < 64
    ensures var c := z * 64 + w; Scalar(c) && Encode(c) == [0xC0 + z, 0x80 + w]
  {
    Digits(0, 0, z, w);
  }

  lemma EncodeIs3(y: nat, z: nat, w: nat)
    requires y < 16 && z < 64 && w < 64 && (y == 0 ==> 32 <= z) && (y == 13 ==> z < 32)
    ensures var c := y * 4096 + z * 64 + w; Scalar(c) && Encode(c) == [0xE0 + y, 0x80 + z, 0x80 + w]
  {
    Digits(0, y, z, w);
  }

  lemma EncodeIs4(x: nat, y: nat, z: nat, w: nat)
    requires x < 5 && y < 64 && z < 64 && w < 64 && (x == 0 ==> 16 <= y) && (x == 4 ==> y < 16)
    ensures var c := x * 262144 + y * 4096 + z * 64 + w;
            Scalar(c) && Encode(c) == [0xF0 + x, 0x80 + y, 0x80 + z, 0x80 + w]
  {
    Digits(x, y, z, w);
  }

  // ----- strings -------------------------------------------------------------

  predicate AllScalars(cs: seq<nat>) { forall c :: c in cs ==> Scalar(c) }

  function EncodeAll(cs: seq<nat>): seq<byte>
    requires AllScalars(cs)
  {
    if cs == [] then [] else Encode(cs[0]) + EncodeAll(cs[1..])
  }

  /** The characters of a string. */
  function DecodeAll(s: seq<byte>): (cs: seq<nat>)
    requires Utf8.Valid(s)
    ensures AllScalars(cs)
  {
    if s == [] then []
    else
      FirstIsEncoded(s);
      [FirstScalar(s)] + DecodeAll(s[Utf8.FirstLength(s)..])
  }

  lemma DecodeOne(s: seq<byte>)
    requires Utf8.Valid(s) && s != []
    ensures 0 < Utf8.FirstLength(s) && Utf8.Valid(s[Utf8.FirstLength(s)..])
    ensures DecodeAll(s) == [FirstScalar(s)] + DecodeAll(s[Utf8.FirstLength(s)..])
  {
    hide Utf8.FirstLength, FirstScalar, Encode;
  }

  lemma CutAndJoin(s: seq<byte>, n: nat)
    requires n <= |s|
    ensures s[..n] + s[n..] == s
  {
  }

  lemma EncodeOne(c: nat, cs: seq<nat>)
    requires Scalar(c) && AllScalars(cs)
    ensures AllScalars([c] + cs) && EncodeAll([c] + cs) == Encode(c) + EncodeAll(cs)
  {
    hide Encode;
    assert ([c] + cs)[1..] == cs;
  }

  /** The strings of the protocol are the encodings of lists of characters, and each
      is the encoding of one list alone. */
  lemma {:induction false} EncodingIsValid(cs: seq<nat>)
    requires AllScalars(cs)
    ensures Utf8.Valid(EncodeAll(cs)) && DecodeAll(EncodeAll(cs)) == cs
  {
    if cs != [] {
      hide Encode, Utf8.FirstLength, FirstScalar;
      var rest := EncodeAll(cs[1..]);
      var s := Encode(cs[0]) + rest;
      EncodingIsValid(cs[1..]);
      EncodedIsFirst(cs[0], rest);
      assert s[..|Encode(cs[0])|] == Encode(cs[0]) && s[|Encode(cs[0])|..] == rest;
      FirstIsEncoded(s);
      EncodeApart(cs[0], FirstScalar(s));
    }
  }

  lemma {:induction false} ValidIsEncoding(s: seq<byte>)
    requires Utf8.Valid(s)
    ensures EncodeAll(DecodeAll(s)) == s
  {
    if s != [] {
      hide *;
      DecodeOne(s);
      ValidIsEncoding(s[Utf8.FirstLength(s)..]);
      FirstIsEncoded(s);
      EncodeOne(FirstScalar(s), DecodeAll(s[Utf8.FirstLength(s)..]));
      CutAndJoin(s, Utf8.FirstLength(s));
    }
  }

  /** A place is a boundary exactly when the bytes before it are whole characters. */
  lemma {:induction false} BoundaryIsWhole(s: seq<byte>, i: nat)
    requires Utf8.Valid(s) && i <= |s|
    ensures Utf8.Boundary(s, i) <==> Utf8.Valid(s[..i])
  {
    hide Utf8.FirstLength, Utf8.Tail;
    if Utf8.Boundary(s, i) {
      Utf8.CutIsValid(s, i);
    } else {
      var n := Utf8.FirstLength(s);
      if i < n {
        ShortIsNot(s, i);
      } else {
        FirstIsNoTail(s[n..]);
        assert s[n..][i - n] == s[i];
        BoundaryIsWhole(s[n..], i - n);
        Utf8.FirstStands(s, i);
        assert s[..i][n..] == s[n..][..i - n];
      }
    }
  }

  lemma FirstIsNoTail(s: seq<byte>)
    requires 0 < Utf8.FirstLength(s)
    ensures !Utf8.Tail(s[0])
  {
  }

  lemma ShortIsNot(s: seq<byte>, i: nat)
    requires 0 < i < Utf8.FirstLength(s)
    ensures !Utf8.Valid(s[..i])
  {
    assert s[..i][0] == s[0];
  }
}
