/** What a simulated pair of consoles is allowed to do to its frames. */
module Stalls {
  import opened Numbers
  import opened Wrappers

  const MAX_FRAMES := 3600
  const INBOX_CAP := 256
  const HANDSHAKE_POLLS := 600
  /** No delay and no stall may be longer: two of them in a row must leave a greeting
      time to be answered. */
  const MAX_DELAY := HANDSHAKE_POLLS / 2 - 1

  /** Peer 0 hosts, peer 1 joins; the end is exclusive, frames count from one. */
  datatype Stall = Stall(peer: nat, start: nat, end: nat)

  datatype Config = Config(frames: nat, delay: nat, capacity: nat, stalls: seq<Stall>, disconnect: Option<nat>,
                           state: seq<seq<byte>>)

  datatype Verdict = Accepted | BadFrames | BadDelay | BadState | BadRanges | StalledTooLong | BadDisconnect

  // ----- what is asked -------------------------------------------------------

  predicate Names(state: seq<seq<byte>>) {
    |state| <= 128 && forall s :: s in state ==> 0 < |s| <= 128
  }

  predicate InRange(s: Stall, frames: nat) {
    s.peer <= 1 && 0 < s.start < s.end <= frames + 1
  }

  predicate Ranges(stalls: seq<Stall>, frames: nat) {
    |stalls| <= 128 && forall s :: s in stalls ==> InRange(s, frames)
  }

  /** Some stall holds this peer in this frame. */
  predicate StalledAt(stalls: seq<Stall>, peer: nat, frame: nat) {
    exists s :: s in stalls && s.peer == peer && s.start <= frame < s.end
  }

  ghost predicate AllStalled(stalls: seq<Stall>, peer: nat, from: nat, to: nat) {
    forall f :: from <= f < to ==> StalledAt(stalls, peer, f)
  }

  /** More than `MAX_DELAY` frames in a row. */
  ghost predicate StalledLong(stalls: seq<Stall>, peer: nat) {
    exists from: nat, to: nat :: to - from > MAX_DELAY && AllStalled(stalls, peer, from, to)
  }

  ghost function Judged(c: Config): Verdict {
    if c.frames == 0 || c.frames > MAX_FRAMES then BadFrames
    else if c.delay > MAX_DELAY || c.capacity == 0 || c.capacity > INBOX_CAP then BadDelay
    else if !Names(c.state) then BadState
    else if !Ranges(c.stalls, c.frames) then BadRanges
    else if StalledLong(c.stalls, 0) || StalledLong(c.stalls, 1) then StalledTooLong
    else if c.disconnect.Some? && (c.disconnect.value == 0 || c.disconnect.value > c.frames) then BadDisconnect
    else Accepted
  }

  // ----- merging -------------------------------------------------------------

  datatype Range = Range(from: nat, to: nat) {
    predicate Holds(frame: nat) { from <= frame < to }

    /** By start, then by end. */
    predicate Before(other: Range) { from < other.from || (from == other.from && to <= other.to) }
  }

  predicate Held(ranges: seq<Range>, frame: nat) {
    exists r :: r in ranges && r.Holds(frame)
  }

  predicate Sorted(ranges: seq<Range>) {
    forall i, j :: 0 <= i < j < |ranges| ==> ranges[i].Before(ranges[j])
  }

  predicate Proper(ranges: seq<Range>) {
    forall r :: r in ranges ==> r.from < r.to
  }

  /** A frame at least between each range and the next. */
  predicate Apart(ranges: seq<Range>) {
    forall i, j :: 0 <= i < j < |ranges| ==> ranges[i].to < ranges[j].from
  }

  /** The ranges of one peer. */
  method RangesOf(stalls: seq<Stall>, peer: nat) returns (ranges: seq<Range>)
    ensures forall f :: Held(ranges, f) <==> StalledAt(stalls, peer, f)
    ensures (forall s :: s in stalls ==> s.start < s.end) ==> Proper(ranges)
  {
    ranges := [];
    for i := 0 to |stalls|
      invariant forall r :: r in ranges <==> exists s :: s in stalls[..i] && s.peer == peer && r == Range(s.start, s.end)
    {
      var s := stalls[i];
      assert stalls[..i + 1] == stalls[..i] + [s];
      if s.peer == peer {
        ranges := ranges + [Range(s.start, s.end)];
      }
    }
    assert stalls[..|stalls|] == stalls;
    forall f: nat
      ensures Held(ranges, f) <==> StalledAt(stalls, peer, f)
    {
      if StalledAt(stalls, peer, f) {
        var s :| s in stalls && s.peer == peer && s.start <= f < s.end;
        assert Range(s.start, s.end) in ranges && Range(s.start, s.end).Holds(f);
      }
    }
  }

  /** The same ranges in order. */
  method Sort(ranges: seq<Range>) returns (sorted: seq<Range>)
    ensures Sorted(sorted) && forall r :: r in sorted <==> r in ranges
  {
    sorted := [];
    for i := 0 to |ranges|
      invariant Sorted(sorted) && forall r :: r in sorted <==> r in ranges[..i]
    {
      assert ranges[..i + 1] == ranges[..i] + [ranges[i]];
      sorted := Insert(sorted, ranges[i]);
    }
    assert ranges[..|ranges|] == ranges;
  }

  method Insert(sorted: seq<Range>, x: Range) returns (after: seq<Range>)
    requires Sorted(sorted)
    ensures Sorted(after) && forall r :: r in after <==> r in sorted || r == x
  {
    var at := |sorted|;
    while at > 0 && !sorted[at - 1].Before(x)
      invariant 0 <= at <= |sorted|
      invariant forall k :: at <= k < |sorted| ==> x.Before(sorted[k])
    {
      at := at - 1;
    }
    after := sorted[..at] + [x] + sorted[at..];
    assert forall r :: r in sorted <==> r in sorted[..at] || r in sorted[at..] by {
      assert sorted == sorted[..at] + sorted[at..];
    }
  }

  /** Ranges that overlap or touch become one; what is held stays held. */
  method Merge(runs: seq<Range>) returns (merged: seq<Range>)
    requires Sorted(runs) && Proper(runs)
    ensures Apart(merged) && Proper(merged)
    ensures forall f :: Held(merged, f) <==> Held(runs, f)
  {
    merged := [];
    for i := 0 to |runs|
      invariant Apart(merged) && Proper(merged)
      invariant merged != [] ==> i > 0 && merged[|merged| - 1].from <= runs[i - 1].from
      invariant forall f :: Held(merged, f) <==> Held(runs[..i], f)
    {
      var run := runs[i];
      assert run in runs && runs[..i + 1] == runs[..i] + [run];
      ghost var was := merged;
      if merged != [] && run.from <= merged[|merged| - 1].to {
        var n := |merged| - 1;
        assert i > 0 ==> runs[i - 1].Before(run);
        merged := merged[..n] + [Range(merged[n].from, Max(merged[n].to, run.to))];
        Joined(was, run);
      } else {
        merged := merged + [run];
        Appended(was, run);
      }
      Appended(runs[..i], run);
    }
    assert runs[..|runs|] == runs;
  }

  lemma Appended(ranges: seq<Range>, run: Range)
    ensures forall f :: Held(ranges + [run], f) <==> Held(ranges, f) || run.Holds(f)
  {
    forall f
      ensures Held(ranges + [run], f) <==> Held(ranges, f) || run.Holds(f)
    {
      if Held(ranges, f) {
        var r :| r in ranges && r.Holds(f);
        assert r in ranges + [run];
      }
      if run.Holds(f) {
        assert run in ranges + [run];
      }
    }
  }

  /** Stretching the last range over one that begins inside it or at its end. */
  lemma Joined(ranges: seq<Range>, run: Range)
    requires ranges != []
    requires var last := ranges[|ranges| - 1]; last.from <= run.from <= last.to
    ensures var n := |ranges| - 1;
            var longer := Range(ranges[n].from, Max(ranges[n].to, run.to));
            forall f :: Held(ranges[..n] + [longer], f) <==> Held(ranges, f) || run.Holds(f)
  {
    var n := |ranges| - 1;
    var last := ranges[n];
    Appended(ranges[..n], last);
    assert ranges[..n] + [last] == ranges;
    Appended(ranges[..n], Range(last.from, Max(last.to, run.to)));
  }

  // ----- what the merge shows ------------------------------------------------

  /** Frames held in a row are all in one of the ranges kept apart. */
  lemma {:induction false} OneRangeHolds(merged: seq<Range>, from: nat, count: nat) returns (i: nat)
    requires Apart(merged) && count > 0
    requires forall f :: from <= f < from + count ==> Held(merged, f)
    ensures i < |merged| && merged[i].from <= from && from + count <= merged[i].to
    decreases count
  {
    if count == 1 {
      assert Held(merged, from);
      var r :| r in merged && r.Holds(from);
      i :| 0 <= i < |merged| && merged[i] == r;
    } else {
      i := OneRangeHolds(merged, from, count - 1);
      var f := from + count - 1;
      assert Held(merged, f);
      var r :| r in merged && r.Holds(f);
      var j :| 0 <= j < |merged| && merged[j] == r;
      assert j == i;
    }
  }

  /** A range kept is longer than the limit exactly when that many frames are held
      in a row. */
  lemma LongIffHeldLong(merged: seq<Range>, stalls: seq<Stall>, peer: nat)
    requires Apart(merged) && forall f :: Held(merged, f) <==> StalledAt(stalls, peer, f)
    ensures (exists r :: r in merged && r.to - r.from > MAX_DELAY) <==> StalledLong(stalls, peer)
  {
    if StalledLong(stalls, peer) {
      var from: nat, to: nat :| to - from > MAX_DELAY && AllStalled(stalls, peer, from, to);
      var i := OneRangeHolds(merged, from, to - from);
      assert merged[i] in merged;
    }
    if r :| r in merged && r.to - r.from > MAX_DELAY {
      forall f | r.from <= f < r.to
        ensures StalledAt(stalls, peer, f)
      {
        assert r.Holds(f);
        assert Held(merged, f);
      }
      assert AllStalled(stalls, peer, r.from, r.to);
    }
  }

  method StallsLong(stalls: seq<Stall>, peer: nat) returns (long: bool)
    requires forall s :: s in stalls ==> s.start < s.end
    ensures long <==> StalledLong(stalls, peer)
  {
    hide StalledLong, StalledAt, Held, Sorted, Apart;
    var runs := RangesOf(stalls, peer);
    var sorted := Sort(runs);
    SameHeld(runs, sorted);
    var merged := Merge(sorted);
    LongIffHeldLong(merged, stalls, peer);
    long := exists r :: r in merged && r.to - r.from > MAX_DELAY;
  }

  lemma SameHeld(a: seq<Range>, b: seq<Range>)
    requires forall r :: r in b <==> r in a
    ensures forall f :: Held(a, f) <==> Held(b, f)
  {
  }

  /** `Config::validate`: accepted, given all else is in range, exactly when neither
      peer is stalled for too long, whatever the order, the overlap and the touch of
      its ranges. */
  method Validate(c: Config) returns (v: Verdict)
    ensures v == Judged(c)
  {
    hide StalledLong;
    if c.frames == 0 || c.frames > MAX_FRAMES {
      return BadFrames;
    }
    if c.delay > MAX_DELAY || c.capacity == 0 || c.capacity > INBOX_CAP {
      return BadDelay;
    }
    if |c.state| > 128 || exists s :: s in c.state && (s == [] || |s| > 128) {
      return BadState;
    }
    if |c.stalls| > 128 || exists s :: s in c.stalls && !InRange(s, c.frames) {
      return BadRanges;
    }
    var peer := 0;
    while peer < 2
      invariant peer <= 2 && forall p :: 0 <= p < peer ==> !StalledLong(c.stalls, p)
    {
      var long := StallsLong(c.stalls, peer);
      if long {
        return StalledTooLong;
      }
      peer := peer + 1;
    }
    if c.disconnect.Some? && (c.disconnect.value == 0 || c.disconnect.value > c.frames) {
      return BadDisconnect;
    }
    v := Accepted;
  }
}
