/** Start and Select pressed together: the rule the console applies to every
    input, and the delay that lets two thumbs land in it. */
module Chord {

  /** A word of buttons, as the numbers of the bits that are set. */
  type Buttons = set<nat>

  const BTN_A := 4
  const BTN_START := 12
  const BTN_SELECT := 13
  /** Menu, which no cart is given. */
  const BTN_MENU := 15

  /** What a cart that declares every button may be given. */
  const CART_BUTTONS: Buttons := {0, 1, 2, 3, 4, 5, 6, 7, 8, 9, 10, 11, 12, 13}
  /** What any cart may be given: the pad's four directions and two buttons. */
  const BASE_BUTTONS: Buttons := {0, 1, 2, 3, 4, 5}

  const BOTH: Buttons := {BTN_START, BTN_SELECT}

  // ----- the rule ------------------------------------------------------------

  /** Whether the two are taken once these buttons are held. */
  function Takes(taken: bool, buttons: Buttons): bool {
    BOTH <= buttons || (BOTH * buttons != {} && taken)
  }

  /** What is given on. */
  function Gives(taken: bool, buttons: Buttons): Buttons {
    if BOTH <= buttons then buttons - BOTH + {BTN_MENU}
    else if Takes(taken, buttons) then buttons - BOTH
    else buttons
  }

  /** A cart never sees both; while they are taken it sees neither; nothing else
      is added or lost but Menu. */
  lemma NeverBoth(taken: bool, buttons: Buttons)
    ensures !(BOTH <= Gives(taken, buttons))
    ensures Takes(taken, buttons) ==> Gives(taken, buttons) * BOTH == {}
    ensures forall b :: b !in BOTH && b != BTN_MENU ==> (b in Gives(taken, buttons) <==> b in buttons)
    ensures Gives(taken, buttons) * BOTH <= buttons
    ensures BTN_MENU in Gives(taken, buttons) <==> BTN_MENU in buttons || BOTH <= buttons
  {
    assert BTN_START in BOTH;
    if Takes(taken, buttons) {
      assert Gives(taken, buttons) * BOTH == {};
    }
  }

  class Chord {
    var taken: bool

    constructor ()
      ensures !taken
    {
      taken := false;
    }

    method Apply(buttons: Buttons) returns (given: Buttons)
      modifies this
      ensures taken == Takes(old(taken), buttons) && given == Gives(old(taken), buttons)
    {
      var held := buttons * BOTH;
      if held == BOTH {
        taken := true;
        return buttons - BOTH + {BTN_MENU};
      }
      if held == {} {
        taken := false;
      }
      given := if taken then buttons - BOTH else buttons;
    }
  }

  // ----- the rule over a run -------------------------------------------------

  /** Whether the two are taken after the whole of `held`. */
  function TakenAfter(taken: bool, held: seq<Buttons>): bool {
    if held == [] then taken else Takes(TakenAfter(taken, held[..|held| - 1]), held[|held| - 1])
  }

  /** What comes out in frame `t`. */
  function GivenAt(taken: bool, held: seq<Buttons>, t: nat): Buttons
    requires t < |held|
  {
    Gives(TakenAfter(taken, held[..t]), held[t])
  }

  /** Once the two were down together neither comes out until both have been up:
      a frame that gives Start or Select has, since the last time the two were
      down together, a frame with neither. */
  lemma {:induction false} GivenOnlyAfterRelease(held: seq<Buttons>, down: nat, t: nat)
    requires down < t < |held|
    requires BOTH <= held[down] && GivenAt(false, held, t) * BOTH != {}
    ensures exists up :: down < up < t && held[up] * BOTH == {}
  {
    if forall up :: down < up < t ==> held[up] * BOTH != {} {
      StaysTaken(held, down, t);
      NeverBoth(true, held[t]);
    }
  }

  lemma {:induction false} StaysTaken(held: seq<Buttons>, down: nat, t: nat)
    requires down < t <= |held| && BOTH <= held[down]
    requires forall up :: down < up < t ==> held[up] * BOTH != {}
    ensures TakenAfter(false, held[..t])
    decreases t
  {
    assert held[..t][..t - 1] == held[..t - 1];
    if t - 1 > down {
      StaysTaken(held, down, t - 1);
    }
  }

  /** The two have been down together, and in no frame since have both been up. */
  predicate Unreleased(held: seq<Buttons>, t: nat)
    requires t <= |held|
  {
    exists down :: 0 <= down < t && BOTH <= held[down] && NotBothUp(held, down, t)
  }

  predicate NotBothUp(held: seq<Buttons>, from: int, to: nat)
    requires 0 <= from && to <= |held|
  {
    forall up :: from < up < to ==> held[up] * BOTH != {}
  }

  lemma {:induction false} TakenExactly(held: seq<Buttons>, t: nat)
    requires t <= |held|
    ensures TakenAfter(false, held[..t]) <==> Unreleased(held, t)
  {
    if t > 0 {
      assert held[..t][..t - 1] == held[..t - 1];
      TakenExactly(held, t - 1);
      UnreleasedStep(held, t);
    }
  }

  lemma UnreleasedStep(held: seq<Buttons>, t: nat)
    requires 0 < t <= |held|
    ensures Unreleased(held, t) <==>
            BOTH <= held[t - 1] || (held[t - 1] * BOTH != {} && Unreleased(held, t - 1))
  {
    if BOTH <= held[t - 1] {
      assert NotBothUp(held, t - 1, t);
    } else if held[t - 1] * BOTH != {} && Unreleased(held, t - 1) {
      var down :| 0 <= down < t - 1 && BOTH <= held[down] && NotBothUp(held, down, t - 1);
      assert NotBothUp(held, down, t);
    }
    if Unreleased(held, t) && !(BOTH <= held[t - 1]) {
      var down :| 0 <= down < t && BOTH <= held[down] && NotBothUp(held, down, t);
      assert NotBothUp(held, down, t - 1);
    }
  }

  /** The rule over any run: a frame with the two down gives Menu for them; from
      then on neither comes out until both have been up; in any other frame what is
      held is given, so that a Start or a Select pressed anew is given again. */
  lemma GivenExactly(held: seq<Buttons>, t: nat)
    requires t < |held|
    ensures GivenAt(false, held, t) ==
            if BOTH <= held[t] then held[t] - BOTH + {BTN_MENU}
            else if Unreleased(held, t) then held[t] - BOTH
            else held[t]
  {
    hide TakenAfter, Unreleased;
    TakenExactly(held, t);
    if held[t] * BOTH == {} {
      NothingTaken(held[t]);
    }
  }

  lemma NothingTaken(buttons: Buttons)
    requires buttons * BOTH == {}
    ensures buttons - BOTH == buttons && !(BOTH <= buttons)
  {
    assert BTN_START in BOTH;
    forall b | b in buttons
      ensures b !in BOTH
    {
      assert b in BOTH ==> b in buttons * BOTH;
    }
  }

  // ----- the delay -----------------------------------------------------------

  const GRACE_FRAMES := 6

  const QUIET: seq<Buttons> := [{}, {}, {}, {}, {}, {}]

  /** The delay line as a queue: what is on its way, oldest first. */
  datatype Delay = Delay(taken: bool, queue: seq<Buttons>)

  function Delayed(d: Delay, buttons: Buttons): (Delay, Buttons)
    requires |d.queue| == GRACE_FRAMES
  {
    var ruled := Gives(d.taken, buttons);
    var taken := Takes(d.taken, buttons);
    if BOTH <= buttons then (Delay(taken, QUIET), ruled)
    else (Delay(taken, d.queue[1..] + [ruled * BOTH]), ruled - BOTH + d.queue[0])
  }

  /** The queue kept as a ring: a slot is read and overwritten, and the place moves on. */
  class MenuChord {
    const chord: Chord
    const line: array<Buttons>
    var at: nat

    ghost predicate Valid()
      reads this
    {
      line.Length == GRACE_FRAMES && at < GRACE_FRAMES
    }

    ghost function View(): (d: Delay)
      requires Valid()
      reads this, chord, line
      ensures |d.queue| == GRACE_FRAMES
    {
      Delay(chord.taken, line[at..] + line[..at])
    }

    constructor ()
      ensures Valid() && fresh(line) && fresh(chord) && View() == Delay(false, QUIET)
    {
      chord := new Chord();
      line := new Buttons[GRACE_FRAMES](_ => {});
      at := 0;
      new;
      assert line[..] == QUIET;
      assert line[at..] + line[..at] == line[..];
    }

    method Apply(buttons: Buttons) returns (given: Buttons)
      requires Valid()
      modifies this, chord, line
      ensures Valid() && (View(), given) == Delayed(old(View()), buttons)
    {
      hide Gives, Takes;
      ghost var was := line[..];
      assert line[at..] + line[..at] == was[at..] + was[..at];
      var ruled := chord.Apply(buttons);
      if BOTH <= buttons {
        forall i | 0 <= i < GRACE_FRAMES {
          line[i] := {};
        }
        assert line[at..] + line[..at] == QUIET;
        return ruled;
      }
      Rotated(was, at, ruled * BOTH);
      var late := line[at];
      line[at] := ruled * BOTH;
      at := (at + 1) % GRACE_FRAMES;
      assert line[..] == was[old(at) := ruled * BOTH];
      assert line[at..] + line[..at] == line[..][at..] + line[..][..at];
      given := ruled - BOTH + late;
    }
  }

  /** Overwriting the oldest place of a ring and moving on is taking from the
      front of the queue and putting at the back. */
  lemma Rotated<T>(line: seq<T>, at: nat, x: T)
    requires at < |line|
    ensures var after, next := line[at := x], (at + 1) % |line|;
            && after[next..] + after[..next] == (line[at..] + line[..at])[1..] + [x]
            && line[at] == (line[at..] + line[..at])[0]
  {
    var after := line[at := x];
    if at + 1 < |line| {
      assert (at + 1) % |line| == at + 1;
      assert after[at + 1..] == line[at + 1..] && after[..at + 1] == line[..at] + [x];
      assert (line[at..] + line[..at])[1..] == line[at + 1..] + line[..at];
    } else {
      assert (at + 1) % |line| == 0;
      assert after == line[..at] + [x] && (line[at..] + line[..at])[1..] == line[..at];
    }
  }

  // ----- the delay over a run ------------------------------------------------

  function DelayAfter(d: Delay, held: seq<Buttons>): (r: Delay)
    requires |d.queue| == GRACE_FRAMES
    ensures |r.queue| == GRACE_FRAMES
  {
    if held == [] then d else Delayed(DelayAfter(d, held[..|held| - 1]), held[|held| - 1]).0
  }

  const AT_REST := Delay(false, QUIET)

  /** What the console is given in frame `t`. */
  function OutAt(held: seq<Buttons>, t: nat): Buttons
    requires t < |held|
  {
    Delayed(DelayAfter(AT_REST, held[..t]), held[t]).1
  }

  /** The two went down together in one of the frames `from` to `to`. */
  predicate DownTogether(held: seq<Buttons>, from: int, to: nat)
    requires to <= |held|
  {
    exists i :: 0 <= i < to && from <= i && BOTH <= held[i]
  }

  /** The Start and Select the rule gave in frame `t`, nothing before the first
      frame, nothing if the two went down together from then to `now`. */
  function OnItsWay(held: seq<Buttons>, t: int, now: nat): Buttons
    requires t < now <= |held|
  {
    if t < 0 || DownTogether(held, t, now) then {} else GivenAt(false, held, t) * BOTH
  }

  /** What a frame leaves in place `k` of the line. */
  lemma PlaceAfter(d: Delay, buttons: Buttons, k: nat)
    requires |d.queue| == GRACE_FRAMES && k < GRACE_FRAMES
    ensures var d' := Delayed(d, buttons).0;
            && d'.taken == Takes(d.taken, buttons)
            && d'.queue[k] == if BOTH <= buttons then {} else if k < GRACE_FRAMES - 1 then d.queue[k + 1]
                              else Gives(d.taken, buttons) * BOTH
  {
    hide Gives, Takes;
  }

  /** What a frame makes of a press on its way. */
  lemma WayAfter(held: seq<Buttons>, t: int, n: nat)
    requires t < n - 1 && 0 < n <= |held|
    ensures OnItsWay(held, t, n) == if BOTH <= held[n - 1] then {} else OnItsWay(held, t, n - 1)
  {
    hide GivenAt;
    if t >= 0 {
      OneFrameMore(held, t, n);
    }
  }

  lemma WayBegins(held: seq<Buttons>, n: nat)
    requires 0 < n <= |held|
    ensures OnItsWay(held, n - 1, n) ==
            if BOTH <= held[n - 1] then {} else Gives(TakenAfter(false, held[..n - 1]), held[n - 1]) * BOTH
  {
    hide Gives, TakenAfter;
    OneFrame(held, n - 1);
  }

  /** The line after `n` frames holds the last six, oldest first. */
  lemma {:induction false} LineHolds(held: seq<Buttons>, n: nat, k: nat)
    requires n <= |held| && k < GRACE_FRAMES
    ensures var d := DelayAfter(AT_REST, held[..n]);
            && d.taken == TakenAfter(false, held[..n])
            && d.queue[k] == OnItsWay(held, n - GRACE_FRAMES + k, n)
    decreases n
  {
    hide Gives, Takes, Delayed, OnItsWay;
    if n == 0 {
      assert OnItsWay(held, k - GRACE_FRAMES, 0) == {} by { NotBegun(held, k - GRACE_FRAMES, 0); }
    } else {
      assert held[..n][..n - 1] == held[..n - 1];
      PlaceAfter(DelayAfter(AT_REST, held[..n - 1]), held[n - 1], k);
      if k < GRACE_FRAMES - 1 {
        LineHolds(held, n - 1, k + 1);
        WayAfter(held, n - GRACE_FRAMES + k, n);
      } else {
        LineHolds(held, n - 1, 0);
        WayBegins(held, n);
      }
    }
  }

  lemma NotBegun(held: seq<Buttons>, t: int, n: nat)
    requires t < 0 && n <= |held|
    ensures OnItsWay(held, t, n) == {}
  {
  }

  lemma OneFrameMore(held: seq<Buttons>, t: nat, n: nat)
    requires t < n - 1 && n <= |held|
    ensures DownTogether(held, t, n) <==> DownTogether(held, t, n - 1) || BOTH <= held[n - 1]
  {
    if DownTogether(held, t, n) {
      var i :| 0 <= i < n && t <= i && BOTH <= held[i];
      if i < n - 1 {
        assert DownTogether(held, t, n - 1);
      }
    }
    if DownTogether(held, t, n - 1) {
      var i :| 0 <= i < n - 1 && t <= i && BOTH <= held[i];
      assert 0 <= i < n && t <= i && BOTH <= held[i];
    }
    if BOTH <= held[n - 1] {
      var i := n - 1;
      assert 0 <= i < n && t <= i && BOTH <= held[i];
    }
  }

  lemma OneFrame(held: seq<Buttons>, t: nat)
    requires t < |held|
    ensures DownTogether(held, t, t + 1) <==> BOTH <= held[t]
  {
    if BOTH <= held[t] {
      var i := t;
      assert 0 <= i < t + 1 && t <= i && BOTH <= held[i];
    }
  }

  /** Start and Select come out six frames late, exactly as the rule gave them, but
      not if the two went down together since; every other button comes out at
      once, and never both of the two. */
  lemma SixFramesLate(held: seq<Buttons>, t: nat)
    requires t < |held|
    ensures OutAt(held, t) * BOTH == OnItsWay(held, t - GRACE_FRAMES, t + 1)
    ensures OutAt(held, t) - BOTH == GivenAt(false, held, t) - BOTH
    ensures !(BOTH <= OutAt(held, t))
  {
    LineHolds(held, t, 0);
    var from := t - GRACE_FRAMES;
    var d := DelayAfter(AT_REST, held[..t]);
    NeverBoth(d.taken, held[t]);
    if from >= 0 {
      OneFrameMore(held, from, t + 1);
      NeverBoth(TakenAfter(false, held[..from]), held[from]);
      if BOTH <= held[t] {
        assert Takes(d.taken, held[t]);
      }
    }
    LateBits(Gives(d.taken, held[t]), d.queue[0]);
  }

  lemma LateBits(ruled: Buttons, late: Buttons)
    requires late <= BOTH
    ensures (ruled - BOTH + late) * BOTH == late && ruled - BOTH + late - BOTH == ruled - BOTH
  {
  }

  /** So the console's own rule changes nothing of what it is given. */
  lemma {:induction false} ConsolePassesIt(held: seq<Buttons>, out: seq<Buttons>, t: nat)
    requires |out| == |held| && (forall i :: 0 <= i < |held| ==> out[i] == OutAt(held, i))
    requires t < |held|
    ensures GivenAt(false, out, t) == out[t] && !TakenAfter(false, out[..t])
    decreases t
  {
    hide Delayed, OnItsWay;
    SixFramesLate(held, t);
    if t > 0 {
      SixFramesLate(held, t - 1);
      ConsolePassesIt(held, out, t - 1);
      assert out[..t][..t - 1] == out[..t - 1];
    }
  }
}
