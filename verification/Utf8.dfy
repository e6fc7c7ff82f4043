/** UTF-8 as section 4 of RFC 3629 spells it out, and cutting a string on a
    character boundary. */
module Utf8 {
  import opened Numbers

  predicate Tail(b: byte) { 0x80 <= b <= 0xBF }

  /** Bytes in the well-formed character a string starts with, 0 if there is none. */
  function FirstLength(s: seq<byte>): (n: nat)
    ensures n <= |s| && n <= 4
  {
    if s == [] then 0
    else if s[0] <= 0x7F then 1
    else if 0xC2 <= s[0] <= 0xDF then
      if |s| >= 2 && Tail(s[1]) then 2 else 0
    else if 0xE0 <= s[0] <= 0xEF then
      if |s| >= 3 && Tail(s[2]) && Tail(s[1]) && (s[0] == 0xE0 ==> 0xA0 <= s[1]) && (s[0] == 0xED ==> s[1] <= 0x9F)
      then 3 else 0
    else if 0xF0 <= s[0] <= 0xF4 then
      if |s| >= 4 && Tail(s[3]) && Tail(s[2]) && Tail(s[1])
         && (s[0] == 0xF0 ==> 0x90 <= s[1]) && (s[0] == 0xF4 ==> s[1] <= 0x8F)
      then 4 else 0
    else 0
  }

  predicate Valid(s: seq<byte>) {
    s == [] || (0 < FirstLength(s) && Valid(s[FirstLength(s)..]))
  }

  /** `is_char_boundary`: an end of the string, or a byte that starts a character. */
  predicate Boundary(s: seq<byte>, i: nat) {
    i == 0 || i == |s| || (i < |s| && !Tail(s[i]))
  }

  /** The bytes of a character after its first are not boundaries, and its
      length does not depend on what follows it. */
  lemma FirstStands(s: seq<byte>, i: nat)
    requires i <= |s| && 0 < FirstLength(s)
    ensures 0 < i < FirstLength(s) ==> Tail(s[i])
    ensures FirstLength(s) <= i ==> FirstLength(s[..i]) == FirstLength(s)
  {
  }

  /** Cutting a string at a boundary leaves two strings. */
  lemma {:induction false} CutIsValid(s: seq<byte>, i: nat)
    requires Valid(s) && i <= |s| && Boundary(s, i)
    ensures Valid(s[..i]) && Valid(s[i..])
  {
    if 0 < i {
      hide FirstLength, Tail;
      var n := FirstLength(s);
      FirstStands(s, i);
      if n <= i {
        CutIsValid(s[n..], i - n);
        assert s[..i][n..] == s[n..][..i - n] && s[n..][i - n..] == s[i..];
      }
    } else {
      assert s[0..] == s;
    }
  }

  lemma {:induction false} AsciiIsValid(s: seq<byte>)
    requires forall i :: 0 <= i < |s| ==> s[i] < 128
    ensures Valid(s)
  {
    if s != [] {
      AsciiIsValid(s[1..]);
    }
  }

  /** A boundary is never more than three bytes away. */
  lemma {:induction false} BoundaryNear(s: seq<byte>, i: nat)
    requires Valid(s) && i <= |s|
    ensures exists j :: i - 3 <= j <= i && 0 <= j && Boundary(s, j)
  {
    if 0 < i < |s| {
      var n := FirstLength(s);
      if i < n {
        assert Boundary(s, 0);
      } else {
        BoundaryNear(s[n..], i - n);
        var j :| i - n - 3 <= j <= i - n && 0 <= j && Boundary(s[n..], j);
        assert Boundary(s, n + j) by {
          if j == 0 {
            assert n == |s| || (Valid(s[n..]) && 0 < FirstLength(s[n..]));
          }
        }
      }
    } else {
      assert Boundary(s, i);
    }
  }

  /** The greatest boundary at or before `max`. */
  function ClipEnd(s: seq<byte>, max: nat): (end: nat)
    requires max <= |s|
    ensures end <= max && Boundary(s, end)
    ensures forall j :: end < j <= max ==> !Boundary(s, j)
  {
    if Boundary(s, max) then max else ClipEnd(s, max - 1)
  }

  /** `clip`: all of a short string, and of a long one what a boundary leaves. */
  function Clip(s: seq<byte>, max: nat): (r: seq<byte>)
    ensures |r| <= max && r <= s
    ensures |s| <= max ==> r == s
  {
    if |s| <= max then s else s[..ClipEnd(s, max)]
  }

  /** A clipped string is a string, and loses no more than the character the
      bound falls in. */
  lemma ClipMeans(s: seq<byte>, max: nat)
    requires Valid(s)
    ensures Valid(Clip(s, max)) && Clip(Clip(s, max), max) == Clip(s, max)
    ensures max < |s| ==> max - 3 <= |Clip(s, max)|
  {
    if max < |s| {
      CutIsValid(s, ClipEnd(s, max));
      BoundaryNear(s, max);
    }
  }

  /** The loop that finds the end. */
  method ClipLoop(s: seq<byte>, max: nat) returns (r: seq<byte>)
    ensures r == Clip(s, max)
  {
    if |s| <= max {
      return s;
    }
    var end := max;
    while !Boundary(s, end)
      invariant 0 <= end <= max && ClipEnd(s, end) == ClipEnd(s, max)
      decreases end
    {
      end := end - 1;
    }
    return s[..end];
  }
}
