/** Frames on an absolute schedule: a late one moves no later deadline. Times are
    nanoseconds. */
module Pacing {
  import opened Numbers
  import opened Wrappers

  /** Further behind than this, and the grid is given up for one that begins now. */
  const RESYNC_AFTER := 500_000_000

  /** No turn owes more frames than this. */
  const MAX_STEPS := 4

  /** The frames to step, `steps` already counted, and the deadline they leave. */
  function Owed(next: nat, period: nat, now: nat, steps: nat): (nat, nat)
    requires 1 <= steps <= MAX_STEPS
    decreases MAX_STEPS - steps
  {
    if steps < MAX_STEPS && now >= next then Owed(next + period, period, now, steps + 1)
    else (next, steps)
  }

  /** Waited for at `now`: the deadline after. */
  function Waited(next: nat, period: nat, now: nat): nat {
    (if now >= next && now - next > RESYNC_AFTER then now else next) + period
  }

  class Scheduler {
    const period: nat
    var next: nat

    constructor (now: nat, period: nat)
      ensures this.period == period && next == now + period
    {
      this.period, next := period, now + period;
    }

    method StepsDue(now: nat) returns (steps: nat)
      modifies this
      ensures (next, steps) == Owed(old(next), period, now, 1)
    {
      steps := 1;
      while steps < MAX_STEPS && now >= next
        invariant 1 <= steps <= MAX_STEPS
        invariant Owed(next, period, now, steps) == Owed(old(next), period, now, 1)
        decreases MAX_STEPS - steps
      {
        next := next + period;
        steps := steps + 1;
      }
    }

    /** The deadline waited for, and until when to sleep if it has not passed. */
    method Wait(now: nat) returns (deadline: nat, sleep: Option<nat>)
      modifies this
      ensures next == Waited(old(next), period, now)
      ensures deadline == old(next) && sleep == if now < deadline then Some(deadline) else None
    {
      deadline, sleep := next, None;
      if now < deadline {
        sleep := Some(deadline);
      } else if now - deadline > RESYNC_AFTER {
        next := now;
      }
      next := next + period;
    }
  }

  // ----- the loop ------------------------------------------------------------

  /** Deadline `n` of a schedule. */
  function Grid(t0: nat, period: nat, n: nat): nat {
    if n == 0 then t0 else Grid(t0, period, n - 1) + period
  }

  lemma {:induction false} GridIs(t0: nat, period: nat, n: nat)
    ensures Grid(t0, period, n) == t0 + n * period
  {
    if n > 0 {
      GridIs(t0, period, n - 1);
    }
  }

  /** The schedule's next deadline, when the turn was due to begin, and the frames
      stepped so far. */
  datatype Loop = Loop(next: nat, due: nat, stepped: nat)

  /** A turn begins once it is due, perhaps overslept, steps what is owed, shows a
      frame and waits at `ended`. */
  datatype Turn = Turn(began: nat, ended: nat) {
    predicate Possible(l: Loop) { l.due <= began <= ended }

    /** Waking and working took at most four periods. */
    predicate Brisk(l: Loop, period: nat) { ended <= l.due + 4 * period }
  }

  function Started(now: nat, period: nat): Loop { Loop(now + period, now, 0) }

  function After(l: Loop, t: Turn, period: nat): Loop {
    var (deadline, steps) := Owed(l.next, period, t.began, 1);
    Loop(Waited(deadline, period, t.ended), if t.ended < deadline then deadline else t.ended, l.stepped + steps)
  }

  predicate Resyncs(l: Loop, t: Turn, period: nat) {
    t.ended > Owed(l.next, period, t.began, 1).0 + RESYNC_AFTER
  }

  /** On the grid begun at `t0`, not ahead of it, less than three periods behind. */
  predicate OnTime(l: Loop, t0: nat, period: nat) {
    && l.next == Grid(t0, period, l.stepped + 1)
    && Grid(t0, period, l.stepped) <= l.due < l.next + 3 * period
  }

  /** At most four frames are owed, each past the first because its deadline had
      passed, and fewer than four only if the next one has not. */
  lemma OwedMeans(next: nat, period: nat, now: nat)
    ensures var (after, steps) := Owed(next, period, now, 1);
            && 1 <= steps <= MAX_STEPS && after == next + (steps - 1) * period
            && (steps > 1 ==> now >= next + (steps - 2) * period)
            && (steps < MAX_STEPS ==> now < after)
  {
    if now >= next && now >= next + period {
      assert Owed(next, period, now, 1) == Owed(next + period + period, period, now, 3);
      assert Owed(next + period + period, period, now, 3) ==
             if now >= next + period + period then (next + period + period + period, 4) else (next + period + period, 3);
    }
  }

  /** The four ways that can go. */
  lemma OwedCases(next: nat, period: nat, now: nat)
    ensures var (after, steps) := Owed(next, period, now, 1);
            || (steps == 1 && after == next && now < next)
            || (steps == 2 && after == next + period && next <= now < after)
            || (steps == 3 && after == next + period + period && next + period <= now < after)
            || (steps == 4 && after == next + period + period + period && next + period + period <= now)
  {
    hide Owed;
    OwedMeans(next, period, now);
  }

  /** A turn that ends further behind than the bound gives the grid up: the next
      deadline is a period from now, as if the loop began now. Any other keeps it. */
  lemma ResyncMeans(l: Loop, t: Turn, period: nat)
    ensures var r := After(l, t, period);
            && (Resyncs(l, t, period) ==> r == Started(t.ended, period).(stepped := r.stepped))
            && (!Resyncs(l, t, period) ==>
                  && r.next == l.next + (r.stepped - l.stepped) * period
                  && r.due == Max(t.ended, r.next - period))
  {
    hide Owed;
    OwedMeans(l.next, period, t.began);
    var (deadline, steps) := Owed(l.next, period, t.began, 1);
    assert (steps - 1) * period + period == steps * period;
  }

  lemma GridFour(t0: nat, period: nat, n: nat)
    ensures Grid(t0, period, n + 1) == Grid(t0, period, n) + period
    ensures Grid(t0, period, n + 2) == Grid(t0, period, n) + 2 * period
    ensures Grid(t0, period, n + 3) == Grid(t0, period, n) + 3 * period
    ensures Grid(t0, period, n + 4) == Grid(t0, period, n) + 4 * period
    ensures Grid(t0, period, n + 5) == Grid(t0, period, n) + 5 * period
  {
    assert Grid(t0, period, n + 2) == Grid(t0, period, n + 1) + period;
    assert Grid(t0, period, n + 3) == Grid(t0, period, n + 2) + period;
    assert Grid(t0, period, n + 4) == Grid(t0, period, n + 3) + period;
  }

  /** A brisk turn, even one begun late, leaves the loop on time. */
  lemma TurnKeeps(l: Loop, t: Turn, t0: nat, period: nat)
    requires 0 < period && 4 * period <= RESYNC_AFTER
    requires OnTime(l, t0, period) && t.Possible(l) && t.Brisk(l, period)
    ensures OnTime(After(l, t, period), t0, period) && !Resyncs(l, t, period)
  {
    hide Owed, Grid;
    OwedCases(l.next, period, t.began);
    GridFour(t0, period, l.stepped);
  }

  predicate AllBrisk(l: Loop, turns: seq<Turn>, period: nat)
    decreases |turns|
  {
    turns == [] || (turns[0].Possible(l) && turns[0].Brisk(l, period)
                    && AllBrisk(After(l, turns[0], period), turns[1..], period))
  }

  function Run(l: Loop, turns: seq<Turn>, period: nat): Loop
    decreases |turns|
  {
    if turns == [] then l else Run(After(l, turns[0], period), turns[1..], period)
  }

  predicate NeverResyncs(l: Loop, turns: seq<Turn>, period: nat)
    decreases |turns|
  {
    turns == [] || (!Resyncs(l, turns[0], period) && NeverResyncs(After(l, turns[0], period), turns[1..], period))
  }

  lemma {:induction false} RunKeeps(l: Loop, turns: seq<Turn>, t0: nat, period: nat)
    requires 0 < period && 4 * period <= RESYNC_AFTER && OnTime(l, t0, period)
    requires AllBrisk(l, turns, period)
    ensures OnTime(Run(l, turns, period), t0, period) && NeverResyncs(l, turns, period)
    decreases |turns|
  {
    hide OnTime, After, Resyncs;
    if turns != [] {
      TurnKeeps(l, turns[0], t0, period);
      RunKeeps(After(l, turns[0], period), turns[1..], t0, period);
    }
  }

  /** The law of the schedule. While every turn is over within four periods of when
      it was due, and four periods are no more than the resync bound, the schedule
      is for ever the one begun at `t0`: the next deadline is that of the frame
      after those stepped, and the loop is never three periods behind it. */
  lemma NeverLeavesTheGrid(t0: nat, period: nat, turns: seq<Turn>)
    requires 0 < period && 4 * period <= RESYNC_AFTER
    requires AllBrisk(Started(t0, period), turns, period)
    ensures var l := Run(Started(t0, period), turns, period);
            && NeverResyncs(Started(t0, period), turns, period)
            && l.next == t0 + (l.stepped + 1) * period
            && l.due < l.next + 3 * period
  {
    RunKeeps(Started(t0, period), turns, t0, period);
    GridIs(t0, period, Run(Started(t0, period), turns, period).stepped + 1);
  }

  function Later(l: Loop, frames: nat): Loop { l.(stepped := l.stepped + frames) }

  /** What was stepped before makes no difference to what comes. */
  lemma {:induction false} RunLater(l: Loop, turns: seq<Turn>, period: nat, frames: nat)
    ensures Run(Later(l, frames), turns, period) == Later(Run(l, turns, period), frames)
    ensures AllBrisk(Later(l, frames), turns, period) <==> AllBrisk(l, turns, period)
    decreases |turns|
  {
    if turns != [] {
      assert After(Later(l, frames), turns[0], period) == Later(After(l, turns[0], period), frames);
      RunLater(After(l, turns[0], period), turns[1..], period, frames);
    }
  }

  /** After a resync the loop keeps to the grid begun then: `r.stepped - m.stepped`
      frames on, the next deadline is one period further than as many periods. */
  lemma NewGridAfterResync(l: Loop, t: Turn, turns: seq<Turn>, period: nat)
    requires 0 < period && 4 * period <= RESYNC_AFTER && Resyncs(l, t, period)
    requires AllBrisk(After(l, t, period), turns, period)
    ensures var m := After(l, t, period);
            var r := Run(m, turns, period);
            && r.stepped >= m.stepped && r.next == t.ended + (r.stepped - m.stepped + 1) * period
            && r.due < r.next + 3 * period
  {
    hide After, Run, AllBrisk, Resyncs;
    ResyncMeans(l, t, period);
    var m := After(l, t, period);
    assert m == Later(Started(t.ended, period), m.stepped);
    RunLater(Started(t.ended, period), turns, period, m.stepped);
    NeverLeavesTheGrid(t.ended, period, turns);
  }

  /** So frames are time. From the moment a turn has stepped its frames until it
      waits, they are within four of the periods gone by, and ahead of them only by
      the frame being shown. */
  lemma FramesAreTime(t0: nat, period: nat, turns: seq<Turn>, t: Turn, now: nat)
    requires 0 < period && 4 * period <= RESYNC_AFTER
    requires AllBrisk(Started(t0, period), turns, period)
    requires var l := Run(Started(t0, period), turns, period);
             t.Possible(l) && t.Brisk(l, period) && t.began <= now <= t.ended
    ensures var stepped := After(Run(Started(t0, period), turns, period), t, period).stepped;
            && 0 < stepped && t0 + (stepped - 1) * period <= now
            && now < t0 + (stepped + 4) * period
  {
    hide Owed, Grid, Run, AllBrisk;
    var l := Run(Started(t0, period), turns, period);
    StartsOnTime(t0, period);
    RunKeeps(Started(t0, period), turns, t0, period);
    NowIsNear(l, t, t0, period, now);
    var n := After(l, t, period).stepped;
    GridIs(t0, period, n - 1);
    GridIs(t0, period, n + 4);
  }

  lemma StartsOnTime(t0: nat, period: nat)
    requires 0 < period
    ensures OnTime(Started(t0, period), t0, period)
  {
  }

  lemma NowIsNear(l: Loop, t: Turn, t0: nat, period: nat, now: nat)
    requires 0 < period && OnTime(l, t0, period)
    requires t.Possible(l) && t.Brisk(l, period) && t.began <= now <= t.ended
    ensures var n := After(l, t, period).stepped;
            0 < n && Grid(t0, period, n - 1) <= now < Grid(t0, period, n + 4)
  {
    hide Owed, Grid;
    OwedCases(l.next, period, t.began);
    GridFour(t0, period, l.stepped);
    GridFour(t0, period, After(l, t, period).stepped - 1);
  }
}
