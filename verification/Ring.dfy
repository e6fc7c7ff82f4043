/** The jitter ring between the console's frames and the device's callbacks,
    and the frame it gains or loses to follow the device's clock. */
module Ring {
  import opened Numbers
  import opened Wrappers

  const VALUES_PER_FRAME := 1470
  const CAPACITY := 12 * VALUES_PER_FRAME
  const PRIME_LEVEL := 3 * VALUES_PER_FRAME
  const LOW_LEVEL := VALUES_PER_FRAME * 3 / 2
  const HIGH_LEVEL := VALUES_PER_FRAME * 5
  const TRIM_EVERY := 8

  // ----- the ring ------------------------------------------------------------

  datatype State = State(queue: seq<i16>, primed: bool, underruns: nat, silentValues: nat, droppedValues: nat) {
    function Level(): Option<nat> { if primed then Some(|queue|) else None }
  }

  const EMPTY := State([], false, 0, 0, 0)

  function Silence(n: nat): (s: seq<i16>)
    ensures |s| == n
  {
    seq(n, _ => 0)
  }

  /** The newest `CAPACITY` values of what was held and what came. */
  function Pushed(s: State, samples: seq<i16>): State {
    var all := s.queue + samples;
    var over := Max(0, |all| - CAPACITY);
    s.(queue := all[over..], droppedValues := s.droppedValues + over)
  }

  /** What a callback for `n` values leaves and hears. */
  function Drained(s: State, n: nat): (State, seq<i16>) {
    if !s.primed && |s.queue| < PRIME_LEVEL then
      (s, Silence(n))
    else if n <= |s.queue| then
      (s.(queue := s.queue[n..], primed := true), s.queue[..n])
    else
      var short := n - |s.queue|;
      (State([], false, s.underruns + 1, s.silentValues + short, s.droppedValues), s.queue + Silence(short))
  }

  class Ring {
    var queue: seq<i16>
    var primed: bool
    var underruns: nat
    var silentValues: nat
    var droppedValues: nat

    ghost function View(): State
      reads this
    {
      State(queue, primed, underruns, silentValues, droppedValues)
    }

    constructor ()
      ensures View() == EMPTY
    {
      queue, primed, underruns, silentValues, droppedValues := [], false, 0, 0, 0;
    }

    method Push(samples: seq<i16>)
      modifies this
      ensures View() == Pushed(old(View()), samples)
    {
      queue := queue + samples;
      var over := Max(0, |queue| - CAPACITY);
      if over > 0 {
        queue := queue[over..];
        droppedValues := droppedValues + over;
      }
    }

    method Drain(out: array<i16>) returns (taken: nat)
      modifies this, out
      ensures (View(), out[..]) == Drained(old(View()), out.Length)
      ensures taken == |old(queue)| - |queue|
    {
      if !primed {
        if |queue| < PRIME_LEVEL {
          Fill(out, 0);
          assert out[..] == Silence(out.Length);
          return 0;
        }
        primed := true;
      }
      var held := queue;
      taken := Min(out.Length, |queue|);
      var i := 0;
      while i < taken
        invariant i <= taken && queue == held[i..] && out[..i] == held[..i]
        invariant primed && underruns == old(underruns)
        invariant silentValues == old(silentValues) && droppedValues == old(droppedValues)
      {
        out[i] := queue[0];
        queue := queue[1..];
        i := i + 1;
      }
      Fill(out, taken);
      if taken < out.Length {
        primed := false;
        underruns := underruns + 1;
        silentValues := silentValues + (out.Length - taken);
        assert queue == [];
        assert out[..] == held + Silence(out.Length - taken);
      } else {
        assert out[..] == held[..taken];
      }
    }

    method Clear()
      modifies this
      ensures View() == old(View()).(queue := [], primed := false)
    {
      queue, primed := [], false;
    }

    /** While the ring plays, exactly the longest callback it would not run dry in. */
    method PlayingLevel() returns (level: Option<nat>)
      ensures level == View().Level() && (level.Some? <==> primed)
      ensures level.Some? ==>
                forall n: nat :: Drained(View(), n).0.underruns == underruns <==> n <= level.value
    {
      level := if primed then Some(|queue|) else None;
    }
  }

  /** Silence from `start` to the end of the buffer. */
  method Fill(out: array<i16>, start: nat)
    requires start <= out.Length
    modifies out
    ensures out[..start] == old(out[..start])
    ensures forall k :: start <= k < out.Length ==> out[k] == 0
  {
    var i := start;
    while i < out.Length
      invariant start <= i <= out.Length
      invariant out[..start] == old(out[..start])
      invariant forall k :: start <= k < i ==> out[k] == 0
    {
      out[i] := 0;
      i := i + 1;
    }
  }

  /** How many frames to step: one more or fewer than asked, at most one turn
      in eight, and only while the ring is playing. */
  function TrimSteps(steps: nat, level: Option<nat>, turn: nat): nat {
    match level
    case Some(held) =>
      if turn % TRIM_EVERY == 0 && held < LOW_LEVEL then steps + 1
      else if turn % TRIM_EVERY == 0 && held > HIGH_LEVEL then Max(0, steps - 1)
      else steps
    case None => steps
  }

  /** The value pushed `age` values before the last of them. */
  function Newest(held: seq<i16>, came: seq<i16>, age: nat): i16
    requires age < |held| + |came|
  {
    if age < |came| then came[|came| - 1 - age] else held[|held| + |came| - 1 - age]
  }

  /** However much comes, the ring keeps as many of the newest values as it has room
      for, in order, and counts every other as dropped. */
  lemma PushKeepsNewest(s: State, samples: seq<i16>)
    ensures var (r, all) := (Pushed(s, samples), |s.queue| + |samples|);
            && |r.queue| == Min(CAPACITY, all) && r.droppedValues == s.droppedValues + all - |r.queue|
            && (forall i :: 0 <= i < |r.queue| ==> r.queue[i] == Newest(s.queue, samples, |r.queue| - 1 - i))
            && r.primed == s.primed && r.underruns == s.underruns && r.silentValues == s.silentValues
  {
  }

  /** A frame is gained exactly on every eighth turn that finds under a frame and a
      half in a playing ring, and lost, if there is one to lose, exactly on every
      eighth that finds over five. */
  lemma TrimMeans(steps: nat, level: Option<nat>, turn: nat)
    ensures var r := TrimSteps(steps, level, turn);
            && (r == steps + 1 <==> turn % 8 == 0 && level.Some? && 2 * level.value < 3 * VALUES_PER_FRAME)
            && (r == steps - 1 <==> steps > 0 && turn % 8 == 0 && level.Some? && level.value > 5 * VALUES_PER_FRAME)
            && steps - 1 <= r <= steps + 1
  {
  }

  // ----- any use of a ring -----------------------------------------------------

  datatype Op = PushOp(samples: seq<i16>) | DrainOp(n: nat) | ClearOp

  /** A ring, and how many values came, were taken and were cleared away. */
  datatype Tally = Tally(ring: State, came: nat, taken: nat, cleared: nat)

  function Used(t: Tally, op: Op): Tally {
    match op
    case PushOp(samples) => t.(ring := Pushed(t.ring, samples), came := t.came + |samples|)
    case DrainOp(n) =>
      var ring := Drained(t.ring, n).0;
      t.(ring := ring, taken := t.taken + Max(0, |t.ring.queue| - |ring.queue|))
    case ClearOp =>
      t.(ring := t.ring.(queue := [], primed := false), cleared := t.cleared + |t.ring.queue|)
  }

  function AllUsed(t: Tally, ops: seq<Op>): Tally
    decreases |ops|
  {
    if ops == [] then t else AllUsed(Used(t, ops[0]), ops[1..])
  }

  ghost predicate Balanced(t: Tally) {
    && |t.ring.queue| <= CAPACITY
    && t.came == t.taken + t.cleared + t.ring.droppedValues + |t.ring.queue|
  }

  /** However it is used, a ring stays within its capacity and every value that
      came was taken, cleared, counted as dropped, or is still held. */
  lemma {:induction false} EveryValueIsCounted(t: Tally, ops: seq<Op>)
    requires Balanced(t)
    ensures Balanced(AllUsed(t, ops))
    decreases |ops|
  {
    if ops != [] {
      EveryValueIsCounted(Used(t, ops[0]), ops[1..]);
    }
  }

  /** A callback hears the oldest values and nothing but silence after them; only
      an empty ring, or one that has not primed, has it hear silence. */
  lemma CallbackHears(s: State, n: nat)
    ensures var (after, out) := Drained(s, n);
            var taken := |s.queue| - |after.queue|;
            && 0 <= taken <= n && out == s.queue[..taken] + Silence(n - taken)
            && after.queue == s.queue[taken..]
            && (taken < n ==> !after.primed && (taken == 0 || after.queue == []))
            && (after.underruns == s.underruns <==> taken == n || (!s.primed && |s.queue| < PRIME_LEVEL))
            && after.silentValues - s.silentValues == if after.underruns == s.underruns then 0 else n - taken
  {
  }

  // ----- the loop the ring is in ---------------------------------------------

  /** A device that takes `buffer` values at a time and whose clock may be off
      by `drift` values in the time of one turn, either way. */
  datatype Device = Device(buffer: nat, drift: real) {
    predicate Followed() {
      && 0 < buffer && 0.0 <= drift
      && buffer as real + 8.0 * drift < LOW_LEVEL as real
      && 8.0 * drift <= VALUES_PER_FRAME as real
    }
  }

  /** One turn of the host: perhaps a fresh start, then the frames the cart
      renders if they are stepped, then what the device plays meanwhile. */
  datatype Turn = Turn(clear: bool, frames: seq<seq<i16>>, rate: real) {
    predicate Possible(dev: Device) {
      && |frames| == 2 && (forall f :: f in frames ==> |f| == VALUES_PER_FRAME)
      && VALUES_PER_FRAME as real - dev.drift <= rate <= VALUES_PER_FRAME as real + dev.drift
    }
  }

  /** The ring, the values the device has played of its next buffer, the number
      of turns, all that was pushed and all that came out of the speaker. */
  datatype Loop = Loop(ring: State, owed: real, turns: nat, made: seq<i16>, heard: seq<i16>)

  function Step(l: Loop, t: Turn, dev: Device): (r: Loop)
    requires dev.Followed() && t.Possible(dev) && 0.0 <= l.owed
    ensures 0.0 <= r.owed < dev.buffer as real
  {
    Called(Stepped(if t.clear then Cleared(l) else l, t.frames).(owed := l.owed + t.rate), dev)
  }

  function Cleared(l: Loop): Loop {
    l.(ring := l.ring.(queue := [], primed := false))
  }

  /** The schedule asks for one frame; the trim may make it none or two. */
  function Stepped(l: Loop, frames: seq<seq<i16>>): (r: Loop)
    requires |frames| == 2
    ensures r.owed == l.owed
  {
    var l' := l.(turns := l.turns + 1);
    match TrimSteps(1, l.ring.Level(), l.turns)
    case 0 => l'
    case 1 => l'.(ring := Pushed(l.ring, frames[0]), made := l.made + frames[0])
    case _ => l'.(ring := Pushed(Pushed(l.ring, frames[0]), frames[1]), made := l.made + frames[0] + frames[1])
  }

  /** A callback for every buffer played out. */
  function Called(l: Loop, dev: Device): (r: Loop)
    requires 0 < dev.buffer
    ensures 0.0 <= l.owed ==> 0.0 <= r.owed < dev.buffer as real
    decreases l.owed
  {
    if l.owed < dev.buffer as real then l
    else
      var (ring, out) := Drained(l.ring, dev.buffer);
      Called(l.(ring := ring, owed := l.owed - dev.buffer as real, heard := l.heard + out), dev)
  }

  function Run(l: Loop, turns: seq<Turn>, dev: Device): (r: Loop)
    requires dev.Followed() && 0.0 <= l.owed
    requires forall t :: t in turns ==> t.Possible(dev)
    ensures 0.0 <= r.owed
    decreases |turns|
  {
    if turns == [] then l
    else
      Run(Step(l, turns[0], dev), turns[1..], dev)
  }

  // ----- the invariant -------------------------------------------------------

  /** The values held less those already owed: what the trim really controls. */
  function Ahead(l: Loop): real { |l.ring.queue| as real - l.owed }

  /** In the `k`th of the eight turns after a trim the device has drifted at most
      `k` times since; in the eighth it is trimmed again. */
  function Drifts(turns: nat): nat {
    if turns % TRIM_EVERY == 0 then TRIM_EVERY else turns % TRIM_EVERY
  }

  /** How far `k` turns can take a device that is off by `drift` in each. */
  function Creep(k: nat, drift: real): real {
    if k == 0 then 0.0 else Creep(k - 1, drift) + drift
  }

  lemma {:induction false} CreepBound(k: nat, drift: real)
    requires 0 < k <= TRIM_EVERY && 0.0 <= drift
    ensures drift <= Creep(k, drift) <= 8.0 * drift
  {
    assert forall j: nat :: j > 0 ==> Creep(j, drift) == Creep(j - 1, drift) + drift;
    assert Creep(1, drift) == drift && Creep(2, drift) == 2.0 * drift && Creep(3, drift) == 3.0 * drift;
    assert Creep(4, drift) == 4.0 * drift && Creep(5, drift) == 5.0 * drift && Creep(6, drift) == 6.0 * drift;
    assert Creep(7, drift) == 7.0 * drift && Creep(8, drift) == 8.0 * drift;
  }

  predicate Playing(l: Loop, dev: Device) {
    && l.ring.primed
    && Ahead(l) >= LOW_LEVEL as real - dev.buffer as real - Creep(Drifts(l.turns), dev.drift)
    && Ahead(l) <= HIGH_LEVEL as real + Creep(Drifts(l.turns), dev.drift)
  }

  /** Below the priming level, or one turn past it and most of a buffer owed. */
  predicate Priming(l: Loop, dev: Device) {
    && !l.ring.primed
    && (|l.ring.queue| < PRIME_LEVEL
        || (|l.ring.queue| < PRIME_LEVEL + VALUES_PER_FRAME && l.owed >= VALUES_PER_FRAME as real - dev.drift))
  }

  predicate Held(l: Loop, dev: Device) {
    0.0 <= l.owed < dev.buffer as real && (Playing(l, dev) || Priming(l, dev))
  }

  /** No value was dropped and no callback found the ring dry between the two. */
  predicate NothingLost(a: Loop, b: Loop) {
    && b.ring.underruns == a.ring.underruns
    && b.ring.silentValues == a.ring.silentValues
    && b.ring.droppedValues == a.ring.droppedValues
  }

  /** What was heard and what is held, in order, are what they were with all that
      was made since after it: nothing missing, nothing repeated, no silence. */
  predicate Gapless(a: Loop, b: Loop) {
    a.made <= b.made && b.heard + b.ring.queue == a.heard + a.ring.queue + b.made[|a.made|..]
  }

  lemma GaplessOn(a: Loop, b: Loop, c: Loop)
    requires Gapless(a, b) && Gapless(b, c)
    ensures Gapless(a, c)
  {
    assert c.made[|a.made|..] == b.made[|a.made|..] + c.made[|b.made|..];
  }

  /** A playing ring that holds what is owed plays it, all of it and in order. */
  lemma {:induction false} CalledPlays(l: Loop, dev: Device)
    requires 0 < dev.buffer && 0.0 <= l.owed && 0.0 <= Ahead(l)
    requires l.ring.primed || (|l.ring.queue| >= PRIME_LEVEL && l.owed >= dev.buffer as real)
    ensures var r := Called(l, dev);
            && r.ring.primed && Ahead(r) == Ahead(l) && 0.0 <= r.owed < dev.buffer as real
            && NothingLost(l, r) && r.turns == l.turns && r.made == l.made
            && r.heard + r.ring.queue == l.heard + l.ring.queue
    decreases l.owed
  {
    if l.owed >= dev.buffer as real {
      var (ring, out) := Drained(l.ring, dev.buffer);
      assert l.ring.queue == out + ring.queue;
      assert l.heard + (out + ring.queue) == (l.heard + out) + ring.queue;
      CalledPlays(l.(ring := ring, owed := l.owed - dev.buffer as real, heard := l.heard + out), dev);
    }
  }

  /** A ring that has not primed plays silence and keeps what it holds. */
  lemma {:induction false} CalledWaits(l: Loop, dev: Device)
    requires 0 < dev.buffer && 0.0 <= l.owed
    requires !l.ring.primed && |l.ring.queue| < PRIME_LEVEL
    ensures var r := Called(l, dev);
            r.ring == l.ring && r.turns == l.turns && 0.0 <= r.owed < dev.buffer as real
    decreases l.owed
  {
    if l.owed >= dev.buffer as real {
      var (ring, out) := Drained(l.ring, dev.buffer);
      CalledWaits(l.(ring := ring, owed := l.owed - dev.buffer as real, heard := l.heard + out), dev);
    }
  }

  /** One turn of a playing ring: still playing, nothing lost, and what is heard
      and held is what was heard and held with the new frames after it. */
  lemma StepPlays(l: Loop, t: Turn, dev: Device)
    requires dev.Followed() && t.Possible(dev) && !t.clear
    requires 0.0 <= l.owed < dev.buffer as real && Playing(l, dev)
    ensures var r := Step(l, t, dev);
            && 0.0 <= r.owed < dev.buffer as real && Playing(r, dev) && NothingLost(l, r)
            && Gapless(l, r)
  {
    hide Called, Playing, TrimSteps, Stepped;
    var m := Stepped(l, t.frames).(owed := l.owed + t.rate);
    var more := StepsMore(l, t, dev);
    AheadKept(l, m, t, dev, |more|);
    CalledPlays(m, dev);
    var r := Called(m, dev);
    PlayingSame(m, r, dev);
    assert r.made[|l.made|..] == more;
    assert l.heard + m.ring.queue == l.heard + l.ring.queue + more;
  }

  lemma PlayingSame(m: Loop, r: Loop, dev: Device)
    requires Playing(m, dev) && r.ring.primed && Ahead(r) == Ahead(m) && r.turns == m.turns
    ensures Playing(r, dev)
  {
  }

  /** What the trim lets through goes in at the back; nothing is pushed out. */
  lemma StepsMore(l: Loop, t: Turn, dev: Device) returns (more: seq<i16>)
    requires dev.Followed() && t.Possible(dev)
    requires 0.0 <= l.owed < dev.buffer as real && Playing(l, dev)
    ensures l.ring.primed
    ensures |more| == VALUES_PER_FRAME * TrimSteps(1, Some(|l.ring.queue|), l.turns)
    ensures var m := Stepped(l, t.frames);
            && m.ring == l.ring.(queue := l.ring.queue + more) && m.made == l.made + more
            && m.turns == l.turns + 1 && m.heard == l.heard
  {
    var steps := TrimSteps(1, l.ring.Level(), l.turns);
    var f0, f1 := t.frames[0], t.frames[1];
    assert |f0| == VALUES_PER_FRAME && |f1| == VALUES_PER_FRAME;
    more := if steps == 0 then [] else if steps == 1 then f0 else f0 + f1;
    LevelBound(l, dev);
    assert l.ring.queue + (f0 + f1) == l.ring.queue + f0 + f1;
    assert l.made + (f0 + f1) == l.made + f0 + f1;
  }

  lemma LevelBound(l: Loop, dev: Device)
    requires dev.Followed() && 0.0 <= l.owed < dev.buffer as real && Playing(l, dev)
    ensures |l.ring.queue| <= 12000
  {
    CreepBound(Drifts(l.turns), dev.drift);
  }

  /** The trim brings the fluid level back as far as eight turns take it away. */
  lemma AheadKept(l: Loop, m: Loop, t: Turn, dev: Device, pushed: nat)
    requires dev.Followed() && t.Possible(dev)
    requires 0.0 <= l.owed < dev.buffer as real && Playing(l, dev)
    requires pushed == VALUES_PER_FRAME * TrimSteps(1, Some(|l.ring.queue|), l.turns)
    requires m.turns == l.turns + 1 && Ahead(m) == Ahead(l) + pushed as real - t.rate
    requires m.ring.primed
    ensures Playing(m, dev) && 0.0 <= Ahead(m)
  {
    var k, k' := Drifts(l.turns), Drifts(m.turns);
    CreepBound(k, dev.drift);
    CreepBound(k', dev.drift);
    if k == 8 {
      assert k' == 1 && Creep(0, dev.drift) == 0.0;
    } else {
      assert k' == k + 1;
      assert Creep(k', dev.drift) == Creep(k, dev.drift) + dev.drift;
    }
  }

  /** One turn of a ring that is filling: it goes on filling, or starts to play
      with enough to stay playing. */
  lemma StepPrimes(l: Loop, t: Turn, dev: Device)
    requires dev.Followed() && t.Possible(dev)
    requires 0.0 <= l.owed < dev.buffer as real && Priming(l, dev)
    ensures var r := Step(l, t.(clear := false), dev); Held(r, dev) && NothingLost(l, r)
  {
    hide Called;
    var m := Stepped(l, t.frames).(owed := l.owed + t.rate);
    assert |t.frames[0]| == VALUES_PER_FRAME;
    assert |m.ring.queue| == |l.ring.queue| + VALUES_PER_FRAME;
    var k := Drifts(m.turns);
    CreepBound(k, dev.drift);
    if |m.ring.queue| < PRIME_LEVEL {
      CalledWaits(m, dev);
    } else if m.owed >= dev.buffer as real {
      CalledPlays(m, dev);
    } else {
      assert Called(m, dev) == m by { CalledNone(m, dev); }
    }
  }

  lemma CalledNone(l: Loop, dev: Device)
    requires 0 < dev.buffer && l.owed < dev.buffer as real
    ensures Called(l, dev) == l
  {
  }

  lemma StepHeld(l: Loop, t: Turn, dev: Device)
    requires dev.Followed() && t.Possible(dev) && Held(l, dev)
    ensures Held(Step(l, t, dev), dev) && NothingLost(l, Step(l, t, dev))
  {
    hide Called;
    if t.clear {
      var c := Cleared(l);
      assert Step(l, t, dev) == Step(c, t.(clear := false), dev);
      StepPrimes(c, t, dev);
    } else if Playing(l, dev) {
      StepPlays(l, t, dev);
    } else {
      StepPrimes(l, t, dev);
    }
  }

  // ----- the theorems --------------------------------------------------------

  /** From a new ring, through any number of fresh starts, the trimmed loop never
      runs dry and never drops a value, for ever. */
  lemma {:induction false} NeverDry(l: Loop, turns: seq<Turn>, dev: Device)
    requires dev.Followed() && Held(l, dev)
    requires forall t :: t in turns ==> t.Possible(dev)
    ensures Held(Run(l, turns, dev), dev) && NothingLost(l, Run(l, turns, dev))
    decreases |turns|
  {
    hide Step, Held;
    if turns != [] {
      OwedHeld(l, dev);
      StepHeld(l, turns[0], dev);
      NeverDry(Step(l, turns[0], dev), turns[1..], dev);
    }
  }

  lemma OwedHeld(l: Loop, dev: Device)
    requires Held(l, dev)
    ensures 0.0 <= l.owed < dev.buffer as real
  {
  }

  /** A new ring, or a playing one between the two levels whatever the turn,
      is where such a run may start. */
  lemma MayStart(l: Loop, dev: Device)
    requires dev.Followed() && 0.0 <= l.owed < dev.buffer as real
    requires l.ring == EMPTY || (l.ring.primed && LOW_LEVEL <= |l.ring.queue| <= HIGH_LEVEL)
    ensures Held(l, dev)
  {
    CreepBound(Drifts(l.turns), dev.drift);
  }

  /** A ring playing between the levels plays exactly what the cart made, from the
      first value held to the last pushed, with no gap, for ever. */
  lemma {:induction false} PlaysEverything(l: Loop, turns: seq<Turn>, dev: Device)
    requires dev.Followed() && 0.0 <= l.owed < dev.buffer as real && Playing(l, dev)
    requires forall t :: t in turns ==> t.Possible(dev) && !t.clear
    ensures Gapless(l, Run(l, turns, dev))
    decreases |turns|
  {
    hide Step, Playing;
    if turns != [] {
      var m := Step(l, turns[0], dev);
      StepPlays(l, turns[0], dev);
      PlaysEverything(m, turns[1..], dev);
      GaplessOn(l, m, Run(m, turns[1..], dev));
    }
  }
}
