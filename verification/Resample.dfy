/** The console's sound at the device's rate: straight lines between frames,
    at a phase kept in 65536ths and carried by additions. */
module Resample {
  import opened Numbers

  /** 1.0, as the phase counts. */
  const ONE := 0x1_0000
  const MAX_STEP := 8

  /** Left and right. */
  datatype Frame = Frame(left: i16, right: i16)

  const SILENCE := Frame(0, 0)

  datatype State = State(step: nat, phase: nat, prev: Frame, next: Frame) {
    predicate Valid() { 1 <= step <= MAX_STEP * ONE && phase < ONE }
  }

  /** How far an output frame advances, held to what the phase can carry. */
  function StepOf(from: nat, to: nat): (step: nat)
    ensures 1 <= step <= MAX_STEP * ONE
  {
    Min(Max(Max(from, 1) * ONE / Max(to, 1), 1), MAX_STEP * ONE)
  }

  function New(from: nat, to: nat): (r: State)
    ensures r.Valid()
  {
    State(StepOf(from, to), 0, SILENCE, SILENCE)
  }

  /** The step is the ratio of the rates in 65536ths, rounded down, wherever the
      phase can carry it, and the steepest or shallowest it can carry elsewhere. */
  lemma StepMeans(from: nat, to: nat)
    requires 0 < from && 0 < to
    ensures var step := StepOf(from, to);
            && (to <= from * ONE < (MAX_STEP * ONE + 1) * to ==> step * to <= from * ONE < (step + 1) * to)
            && (from * ONE < to ==> step == 1)
            && (from * ONE >= MAX_STEP * ONE * to ==> step == MAX_STEP * ONE)
  {
    ClampedQuotient(from * ONE, to, MAX_STEP * ONE);
  }

  lemma ClampedQuotient(a: nat, b: nat, max: nat)
    requires 0 < b && 1 <= max
    ensures var q := Min(Max(a / b, 1), max);
            && (b <= a < (max + 1) * b ==> q * b <= a < (q + 1) * b)
            && (a < b ==> q == 1) && (a >= max * b ==> q == max)
  {
    DivAtLeast(a, b, 1);
    DivAtLeast(a, b, max);
    DivAtLeast(a, b, max + 1);
    DivAtLeast(a, b, a / b);
    DivAtLeast(a, b, a / b + 1);
  }

  /** The rates counted as the same: not only equal ones, since the step is cut
      to a 65536th. */
  lemma IdentityMeans(from: nat, to: nat)
    ensures StepOf(from, to) == ONE <==> 0 <= (Max(from, 1) - Max(to, 1)) * ONE < Max(to, 1)
  {
    var f, t := Max(from, 1), Max(to, 1);
    DivAtLeast(f * ONE, t, ONE);
    DivAtLeast(f * ONE, t, ONE + 1);
    assert f * ONE / t == ONE <==> ONE * t <= f * ONE < (ONE + 1) * t;
    assert (ONE + 1) * t == ONE * t + t;
  }

  lemma IdentityOfUnequalRates()
    ensures StepOf(100_001, 100_000) == ONE
  {
  }

  // ----- one frame -----------------------------------------------------------

  /** `v` is the last whole value not past the point `phase` 65536ths of the way from
      `a` to `b`. */
  predicate OnTheLine(a: int, b: int, phase: int, v: int) {
    ONE * (v - a) <= (b - a) * phase < ONE * (v - a + 1)
  }

  /** `phase` 65536ths of the way from `a` to `b`, rounded down: between the two,
      so an extreme never wraps. */
  function Between(a: i16, b: i16, phase: nat): (v: i16)
    requires phase < ONE
    ensures Min(a, b) <= v <= Max(a, b)
    ensures phase == 0 || a == b ==> v == a
    ensures OnTheLine(a, b, phase, v)
  {
    BetweenBounds(a, b, phase);
    a + (b - a) * phase / ONE
  }

  lemma BetweenBounds(a: int, b: int, phase: nat)
    requires phase < ONE
    ensures Min(a, b) <= a + (b - a) * phase / ONE <= Max(a, b)
    ensures phase == 0 || a == b ==> (b - a) * phase / ONE == 0
    ensures OnTheLine(a, b, phase, a + (b - a) * phase / ONE)
  {
    var d := b - a;
    assert d * phase == d * phase / ONE * ONE + d * phase % ONE;
    if d >= 0 {
      MulMono(phase, ONE, d);
      MulMono(0, phase, d);
      assert phase * d == d * phase && ONE * d == d * ONE;
      DivAtLeast(d * phase, ONE, 0);
      DivAtLeast(d * phase, ONE, d + 1);
    } else {
      MulMono(phase, ONE, -d);
      MulMono(0, phase, -d);
      assert phase * (-d) == -(d * phase) && ONE * (-d) == -(d * ONE);
      DivAtLeast(d * phase, ONE, d);
      DivAtLeast(d * phase, ONE, 1);
    }
  }

  function Mixed(a: Frame, b: Frame, phase: nat): Frame
    requires phase < ONE
  {
    Frame(Between(a.left, b.left, phase), Between(a.right, b.right, phase))
  }

  /** Whole frames in the phase are taken from the source; one that has run out
      goes on with its last. */
  function Advance(r: State, source: seq<Frame>): (State, seq<Frame>)
    decreases r.phase
  {
    if r.phase < ONE then (r, source)
    else
      var taken := r.(phase := r.phase - ONE, prev := r.next);
      if source == [] then Advance(taken, [])
      else Advance(taken.(next := source[0]), source[1..])
  }

  /** A run of `n` output frames: the state after, the frames, and what is left
      of the source. */
  datatype Outcome = Outcome(after: State, out: seq<Frame>, rest: seq<Frame>)

  function Run(r: State, source: seq<Frame>, n: nat): (o: Outcome)
    requires r.Valid()
    ensures o.after.Valid() && |o.out| == n && o.after.step == r.step
    decreases n
  {
    if n == 0 then Outcome(r, [], source)
    else
      var o := Run(r, source, n - 1);
      AdvanceBounds(Ticked(o.after), o.rest);
      var (after, rest) := Advance(Ticked(o.after), o.rest);
      Outcome(after, o.out + [Mixed(o.after.prev, o.after.next, o.after.phase)], rest)
  }

  function Ticked(r: State): State { r.(phase := r.phase + r.step) }

  lemma {:induction false} AdvanceBounds(r: State, source: seq<Frame>)
    ensures Advance(r, source).0.phase == r.phase % ONE && Advance(r, source).0.step == r.step
    decreases r.phase
  {
    if r.phase >= ONE {
      var taken := r.(phase := r.phase - ONE, prev := r.next);
      if source == [] {
        AdvanceBounds(taken, []);
      } else {
        AdvanceBounds(taken.(next := source[0]), source[1..]);
      }
    }
  }

  lemma RunNone(r: State, source: seq<Frame>)
    requires r.Valid()
    ensures Run(r, source, 0) == Outcome(r, [], source)
  {
  }

  lemma RunOne(r: State, source: seq<Frame>, k: nat)
    requires r.Valid()
    ensures var o, o' := Run(r, source, k), Run(r, source, k + 1);
            && o'.out == o.out + [Mixed(o.after.prev, o.after.next, o.after.phase)]
            && (o'.after, o'.rest) == Advance(Ticked(o.after), o.rest)
  {
  }

  /** The source frames the next `n` output frames take. */
  function Needs(r: State, n: nat): nat {
    (r.phase + n * r.step) / ONE
  }

  // ----- the closed form -----------------------------------------------------

  /** Frame `i` of the source: silence before it starts, its last after it ends. */
  function SourceAt(source: seq<Frame>, i: int): Frame {
    if i < 0 || source == [] then SILENCE
    else if i < |source| then source[i]
    else source[|source| - 1]
  }

  /** `q` frames have gone by. */
  predicate Stands(r: State, rest: seq<Frame>, source: seq<Frame>, q: nat) {
    && rest == source[Min(q, |source|)..]
    && r.next == SourceAt(source, q - 1) && r.prev == SourceAt(source, q - 2)
  }

  lemma {:induction false} AdvanceStands(r: State, rest: seq<Frame>, source: seq<Frame>, q: nat)
    requires Stands(r, rest, source, q)
    ensures Stands(Advance(r, rest).0, Advance(r, rest).1, source, q + r.phase / ONE)
    decreases r.phase
  {
    if r.phase >= ONE {
      var taken := r.(phase := r.phase - ONE, prev := r.next);
      DivModShift(r.phase, -1, ONE);
      if rest == [] {
        AdvanceStands(taken, [], source, q + 1);
      } else {
        AdvanceStands(taken.(next := rest[0]), rest[1..], source, q + 1);
      }
    }
  }

  lemma StandsFirst(r: State, source: seq<Frame>)
    requires r.prev == SILENCE && r.next == SILENCE
    ensures Stands(r, source, source, 0)
  {
  }

  /** `n` steps into the source: the one product the loop never makes. */
  function Gone(step: nat, n: nat): nat { n * step }

  lemma GoneNext(step: nat, n: nat)
    ensures Gone(step, n + 1) == Gone(step, n) + step && Gone(step, 0) == 0
  {
  }

  /** Where the loop stands after `n` frames, whatever the length of the source. */
  lemma {:induction false} RunStands(r: State, source: seq<Frame>, n: nat)
    requires r.Valid() && r.phase == 0 && r.prev == SILENCE && r.next == SILENCE
    ensures var o := Run(r, source, n);
            && o.after.phase == Gone(r.step, n) % ONE
            && Stands(o.after, o.rest, source, Gone(r.step, n) / ONE)
    decreases n
  {
    hide Gone, Run, Advance, Mixed, SourceAt;
    GoneNext(r.step, n);
    if n == 0 {
      RunNone(r, source);
      assert Stands(r, source, source, 0) by { StandsFirst(r, source); }
    } else {
      RunOne(r, source, n - 1);
      RunStands(r, source, n - 1);
      GoneNext(r.step, n - 1);
      var o := Run(r, source, n - 1);
      var was := Gone(r.step, n - 1);
      AdvanceStands(Ticked(o.after), o.rest, source, was / ONE);
      AdvanceBounds(Ticked(o.after), o.rest);
      DivModShift(was % ONE + r.step, was / ONE, ONE);
      assert was == was / ONE * ONE + was % ONE;
    }
  }

  lemma {:induction false} OutputIsMixed(from: nat, to: nat, source: seq<Frame>, n: nat, k: nat)
    requires k < n
    ensures var q, phase := k * StepOf(from, to) / ONE, k * StepOf(from, to) % ONE;
            Run(New(from, to), source, n).out[k] == Mixed(SourceAt(source, q - 2), SourceAt(source, q - 1), phase)
    decreases n
  {
    hide Run, Mixed, Advance;
    RunOne(New(from, to), source, n - 1);
    if k < n - 1 {
      OutputIsMixed(from, to, source, n - 1, k);
    } else {
      RunStands(New(from, to), source, k);
    }
  }

  /** Output `k` of a new resampler lies on the line from source frame `q - 2` to
      `q - 1`, channel by channel, where `k` steps are `q` whole frames and the
      phase. */
  lemma ClosedForm(from: nat, to: nat, source: seq<Frame>, n: nat, k: nat)
    requires k < n
    ensures var q, phase := k * StepOf(from, to) / ONE, k * StepOf(from, to) % ONE;
            var a, b, v := SourceAt(source, q - 2), SourceAt(source, q - 1), Run(New(from, to), source, n).out[k];
            OnTheLine(a.left, b.left, phase, v.left) && OnTheLine(a.right, b.right, phase, v.right)
  {
    hide Run, SourceAt, StepOf, OnTheLine;
    OutputIsMixed(from, to, source, n, k);
  }

  /** A point on the line is one value only. */
  lemma OnTheLineOnce(a: int, b: int, phase: int, v: int, v': int)
    requires OnTheLine(a, b, phase, v) && OnTheLine(a, b, phase, v')
    ensures v == v'
  {
  }

  /** A source that has run out goes on with its last frame. */
  lemma LastFrameIsHeld(from: nat, to: nat, source: seq<Frame>, n: nat, k: nat)
    requires k < n && source != [] && k * StepOf(from, to) / ONE > |source|
    ensures Run(New(from, to), source, n).out[k] == source[|source| - 1]
  {
    hide Run, StepOf;
    OutputIsMixed(from, to, source, n, k);
  }

  /** What `Needs` says is what the run takes, from any state in any stream. */
  lemma {:induction false} TakesNeeds(r: State, source: seq<Frame>, n: nat)
    requires r.Valid()
    ensures var o := Run(r, source, n);
            && o.rest == source[Min(Needs(r, n), |source|)..]
            && o.after.phase == (r.phase + Gone(r.step, n)) % ONE
    decreases n
  {
    hide Gone;
    GoneNext(r.step, n);
    hide Run, Advance, Needs, Mixed;
    NeedsIs(r, n);
    if n == 0 {
      RunNone(r, source);
      DivModUnique(r.phase, ONE, 0, r.phase);
    } else {
      RunOne(r, source, n - 1);
      TakesNeeds(r, source, n - 1);
      NeedsIs(r, n - 1);
      GoneNext(r.step, n - 1);
      var o := Run(r, source, n - 1);
      var was := r.phase + Gone(r.step, n - 1);
      AdvanceTakes(Ticked(o.after), o.rest);
      AdvanceBounds(Ticked(o.after), o.rest);
      DivModShift(was % ONE + r.step, was / ONE, ONE);
      assert was == was / ONE * ONE + was % ONE;
    }
  }

  lemma NeedsIs(r: State, n: nat)
    ensures Needs(r, n) == (r.phase + Gone(r.step, n)) / ONE
  {
  }

  lemma {:induction false} AdvanceTakes(r: State, source: seq<Frame>)
    ensures Advance(r, source).1 == source[Min(r.phase / ONE, |source|)..]
    decreases r.phase
  {
    if r.phase >= ONE {
      var taken := r.(phase := r.phase - ONE, prev := r.next);
      DivModShift(r.phase, -1, ONE);
      if source == [] {
        AdvanceTakes(taken, []);
      } else {
        AdvanceTakes(taken.(next := source[0]), source[1..]);
      }
    }
  }

  // ----- blocks --------------------------------------------------------------

  /** Two blocks in a row, the second given what the first left, are one. */
  lemma {:induction false} RunsJoin(r: State, source: seq<Frame>, m: nat, n: nat)
    requires r.Valid()
    ensures var a := Run(r, source, m);
            var b := Run(a.after, a.rest, n);
            Run(r, source, m + n) == Outcome(b.after, a.out + b.out, b.rest)
    decreases n
  {
    hide Run, Advance, Mixed;
    var a := Run(r, source, m);
    if n == 0 {
      RunNone(a.after, a.rest);
      assert a.out + [] == a.out;
    } else {
      RunsJoin(r, source, m, n - 1);
      assert m + n - 1 == m + (n - 1);
      RunOne(r, source, m + n - 1);
      RunOne(a.after, a.rest, n - 1);
      var b := Run(a.after, a.rest, n - 1);
      assert forall f :: a.out + b.out + [f] == a.out + (b.out + [f]);
    }
  }

  lemma {:induction false} AdvanceLeaves(r: State, source: seq<Frame>, more: seq<Frame>)
    requires r.phase / ONE <= |source|
    ensures Advance(r, source + more) == (Advance(r, source).0, Advance(r, source).1 + more)
    decreases r.phase
  {
    if r.phase >= ONE {
      DivModShift(r.phase, -1, ONE);
      var taken := r.(phase := r.phase - ONE, prev := r.next, next := source[0]);
      assert (source + more)[1..] == source[1..] + more;
      AdvanceLeaves(taken, source[1..], more);
    }
  }

  /** A block that holds what is needed does not look past it. */
  lemma {:induction false} RunLeaves(r: State, source: seq<Frame>, more: seq<Frame>, n: nat)
    requires r.Valid() && Needs(r, n) <= |source|
    ensures var o := Run(r, source, n);
            Run(r, source + more, n) == o.(rest := o.rest + more)
    decreases n
  {
    hide Gone, Run, Mixed, Advance;
    if n == 0 {
      RunNone(r, source);
      RunNone(r, source + more);
    } else {
      hide Needs;
      GoneNext(r.step, n - 1);
      NeedsIs(r, n);
      NeedsIs(r, n - 1);
      RunOne(r, source, n - 1);
      RunOne(r, source + more, n - 1);
      var was := r.phase + Gone(r.step, n - 1);
      assert was == was / ONE * ONE + was % ONE;
      DivModShift(was % ONE + r.step, was / ONE, ONE);
      DivAtLeast(was % ONE + r.step, ONE, 0);
      RunLeaves(r, source, more, n - 1);
      TakesNeeds(r, source, n - 1);
      var o := Run(r, source, n - 1);
      AdvanceLeaves(Ticked(o.after), o.rest, more);
    }
  }

  /** Two blocks, the first given exactly the source it needs, are one. */
  lemma TwoBlocks(r: State, first: seq<Frame>, second: seq<Frame>, m: nat, n: nat)
    requires r.Valid() && |first| == Needs(r, m)
    ensures var a := Run(r, first, m);
            var b := Run(a.after, second, n);
            && a.rest == []
            && Run(r, first + second, m + n) == Outcome(b.after, a.out + b.out, b.rest)
  {
    hide Run, Needs;
    TakesNeeds(r, first, m);
    RunLeaves(r, first, second, m);
    var a := Run(r, first, m);
    assert a.rest == [];
    assert [] + second == second;
    RunsJoin(r, first + second, m, n);
  }

  /** A call of `run`: the source it is given and the frames it is asked for. */
  datatype Block = Block(source: seq<Frame>, count: nat)

  /** Each block is given exactly what `needs` says when its turn comes. */
  predicate Fed(r: State, blocks: seq<Block>)
    requires r.Valid()
    decreases |blocks|
  {
    blocks == [] ||
    (|blocks[0].source| == Needs(r, blocks[0].count)
     && Fed(Run(r, blocks[0].source, blocks[0].count).after, blocks[1..]))
  }

  function AllSource(blocks: seq<Block>): seq<Frame> {
    if blocks == [] then [] else blocks[0].source + AllSource(blocks[1..])
  }

  function AllCount(blocks: seq<Block>): nat {
    if blocks == [] then 0 else blocks[0].count + AllCount(blocks[1..])
  }

  /** The state after the blocks, one call each, and all that came out. */
  function InBlocks(r: State, blocks: seq<Block>): (State, seq<Frame>)
    requires r.Valid()
    decreases |blocks|
  {
    if blocks == [] then (r, [])
    else
      var o := Run(r, blocks[0].source, blocks[0].count);
      var (after, out) := InBlocks(o.after, blocks[1..]);
      (after, o.out + out)
  }

  /** However the output is asked for in blocks, each given exactly the source it
      needs, the frames that come out are those of one run. */
  lemma {:induction false} BlocksDoNotMatter(r: State, blocks: seq<Block>)
    requires r.Valid() && Fed(r, blocks)
    ensures var (after, out) := InBlocks(r, blocks);
            Run(r, AllSource(blocks), AllCount(blocks)) == Outcome(after, out, [])
    decreases |blocks|
  {
    hide Run, Needs;
    if blocks == [] {
      RunNone(r, []);
    } else {
      var b := blocks[0];
      var o := Run(r, b.source, b.count);
      BlocksDoNotMatter(o.after, blocks[1..]);
      TwoBlocks(r, b.source, AllSource(blocks[1..]), b.count, AllCount(blocks[1..]));
    }
  }

  /** Rates that count as the same are copied, two frames late. */
  lemma SameRateCopies(from: nat, to: nat, source: seq<Frame>, n: nat, k: nat)
    requires StepOf(from, to) == ONE && k < n <= |source|
    ensures Run(New(from, to), source, n).out[k] == if k < 2 then SILENCE else source[k - 2]
  {
    hide StepOf;
    OutputIsMixed(from, to, source, n, k);
    DivModUnique(k * ONE, ONE, k, 0);
  }

  // ----- the loop itself -----------------------------------------------------

  /** The whole frames of an interleaved buffer; an odd value at the end is not
      one. */
  function Frames(s: seq<i16>): (f: seq<Frame>)
    ensures |f| == |s| / 2
    ensures forall k :: 0 <= k < |f| ==> f[k] == Frame(s[2 * k], s[2 * k + 1])
  {
    seq(|s| / 2, k requires 0 <= k < |s| / 2 => Frame(s[2 * k], s[2 * k + 1]))
  }

  lemma FramesNext(s: seq<i16>, left: i16, right: i16)
    requires |s| % 2 == 0
    ensures Frames(s + [left, right]) == Frames(s) + [Frame(left, right)]
  {
  }

  lemma FramesWhole(s: seq<i16>)
    ensures Frames(s) == Frames(s[..|s| / 2 * 2])
  {
  }

  class Resampler {
    var step: nat
    var phase: nat
    var prev: Frame
    var next: Frame

    ghost function View(): State
      reads this
    {
      State(step, phase, prev, next)
    }

    constructor (from: nat, to: nat)
      ensures View() == New(from, to)
    {
      step := Min(Max(Max(from, 1) * ONE / Max(to, 1), 1), MAX_STEP * ONE);
      phase, prev, next := 0, SILENCE, SILENCE;
    }

    /** Fill `out` from `source`, in place. */
    method Fill(source: seq<i16>, out: array<i16>)
      requires View().Valid()
      modifies this, out
      ensures var o := Run(old(View()), Frames(source), out.Length / 2);
              View() == o.after && Frames(out[..]) == o.out
      ensures out.Length % 2 == 1 ==> out[out.Length - 1] == old(out[out.Length - 1])
    {
      hide Run, Between, Advance, Frames;
      ghost var frames := Frames(source);
      var taken, k := 0, 0;
      RunNone(old(View()), frames);
      while k < out.Length / 2
        invariant k <= out.Length / 2 && taken <= |frames|
        invariant View().Valid()
        invariant Frames(out[..2 * k]) == Run(old(View()), frames, k).out
        invariant var o := Run(old(View()), frames, k); View() == o.after && o.rest == frames[taken..]
        invariant out.Length % 2 == 1 ==> out[out.Length - 1] == old(out[out.Length - 1])
      {
        RunOne(old(View()), frames, k);
        ghost var was := out[..2 * k];
        out[2 * k] := Between(prev.left, next.left, phase);
        out[2 * k + 1] := Between(prev.right, next.right, phase);
        assert out[..2 * (k + 1)] == was + [out[2 * k], out[2 * k + 1]];
        FramesNext(was, out[2 * k], out[2 * k + 1]);
        phase := phase + step;
        taken := Take(source, taken);
        k := k + 1;
      }
      assert Frames(out[..]) == Frames(out[..2 * k]) by { FramesWhole(out[..]); }
    }

    /** The inner loop: whole frames in the phase are taken from the source. */
    method Take(source: seq<i16>, from: nat) returns (taken: nat)
      requires from <= |source| / 2
      modifies this
      ensures from <= taken <= |source| / 2
      ensures Advance(old(View()), Frames(source)[from..]) == (View(), Frames(source)[taken..])
    {
      taken := from;
      ghost var frames := Frames(source);
      while phase >= ONE
        invariant from <= taken <= |source| / 2
        invariant Advance(View(), frames[taken..]) == Advance(old(View()), frames[from..])
      {
        phase := phase - ONE;
        prev := next;
        if taken < |source| / 2 {
          next := Frame(source[2 * taken], source[2 * taken + 1]);
          assert frames[taken..][1..] == frames[taken + 1..];
          taken := taken + 1;
        }
      }
    }
  }
}
