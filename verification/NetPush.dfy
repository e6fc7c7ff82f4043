/** What arrives: which of a frame's commands reach which transport, and what the
    cart is answered. */
module NetPush {
  import opened Numbers
  import opened NetTypes
  import opened NetLink
  import opened Wrappers

  /** The commands that are well formed, in order. */
  function Checked(commands: seq<Command>): seq<Command> {
    if commands == [] then []
    else (if commands[0].Check() then [commands[0]] else []) + Checked(commands[1..])
  }

  /** All of them handed to one transport, with permission. */
  function HandedTo(id: nat, commands: seq<Command>): (w: seq<Sent>)
    ensures |w| == |commands| && forall i :: 0 <= i < |w| ==> w[i] == Sent(id, commands[i], true)
  {
    seq(|commands|, i requires 0 <= i < |commands| => Sent(id, commands[i], true))
  }

  /** Commands pushed after others of the same frame. */
  function PushFrom(l: State, built: bool, commands: seq<Command>): (State, bool)
    decreases |commands|
  {
    if commands == [] then (l, built)
    else var (a, b) := PushOne(l, built, commands[0]); PushFrom(a, b, commands[1..])
  }

  lemma {:induction false} PushFromLast(l: State, built: bool, commands: seq<Command>, c: Command)
    ensures var (a, b) := PushFrom(l, built, commands);
            PushFrom(l, built, commands + [c]) == PushOne(a, b, c)
    decreases |commands|
  {
    hide PushOne;
    if commands == [] {
      assert [] + [c] == [c] && [c][1..] == [];
    } else {
      var (a, b) := PushOne(l, built, commands[0]);
      PushFromLast(a, b, commands[1..], c);
      assert (commands + [c])[1..] == commands[1..] + [c];
    }
  }

  lemma {:induction false} PushIsFrom(l: State, commands: seq<Command>)
    ensures PushAll(l, commands) == PushFrom(l, false, commands)
  {
    hide PushOne;
    if commands != [] {
      var init := commands[..|commands| - 1];
      PushIsFrom(l, init);
      PushFromLast(l, false, init, commands[|commands| - 1]);
      assert init + [commands[|commands| - 1]] == commands;
    }
  }

  lemma {:induction false} PushSplits(l: State, built: bool, a: seq<Command>, b: seq<Command>)
    ensures var (m, bm) := PushFrom(l, built, a); PushFrom(l, built, a + b) == PushFrom(m, bm, b)
    decreases |a|
  {
    hide PushOne;
    if a == [] {
      assert [] + b == b;
    } else {
      var (m, bm) := PushOne(l, built, a[0]);
      PushSplits(m, bm, a[1..], b);
      assert (a + b)[1..] == a[1..] + b;
    }
  }

  // ----- a session -----------------------------------------------------------------------------

  lemma SessionTakes(l: State, built: bool, c: Command)
    requires l.permitted && l.transport.Some? && c != Leave
    ensures PushOne(l, built, c) == (if c.Check() then Hand(l, c) else l, built)
  {
  }

  lemma CheckedStep(commands: seq<Command>)
    requires commands != []
    ensures Checked(commands) == if commands[0].Check() then [commands[0]] + Checked(commands[1..]) else Checked(commands[1..])
  {
    assert [] + Checked(commands[1..]) == Checked(commands[1..]);
  }

  /** With permission and an open transport, everything well formed up to a `Leave` is
      handed to it, in order, and nothing else happens. */
  lemma {:induction false} SessionTakesAll(l: State, built: bool, commands: seq<Command>)
    requires l.permitted && l.transport.Some? && Leave !in commands
    ensures PushFrom(l, built, commands) ==
            (l.(wire := l.wire + HandedTo(l.transport.value, Checked(commands))), built)
    decreases |commands|
  {
    hide HandedTo, PushOne, PushFrom, Checked, Command.Check;
    if commands == [] {
      PushNone(l, built);
      NothingHanded(l.transport.value);
      NothingChecked();
      assert l.wire + [] == l.wire;
    } else {
      var (c, rest) := (commands[0], commands[1..]);
      assert c != Leave && Leave !in rest;
      PushNext(l, built, commands);
      SessionTakes(l, built, c);
      CheckedStep(commands);
      if c.Check() {
        SessionTakesAll(Hand(l, c), built, rest);
        HandedOne(l.transport.value, c, Checked(rest));
        Assoc(l.wire, [Sent(l.transport.value, c, true)], HandedTo(l.transport.value, Checked(rest)));
      } else {
        SessionTakesAll(l, built, rest);
      }
    }
  }

  lemma Assoc(a: seq<Sent>, b: seq<Sent>, c: seq<Sent>)
    ensures a + b + c == a + (b + c)
  {
  }

  lemma HandedOne(id: nat, c: Command, rest: seq<Command>)
    ensures HandedTo(id, [c] + rest) == [Sent(id, c, true)] + HandedTo(id, rest)
  {
  }

  /** A `Leave` is handed over, closes the transport, and is answered; without a
      transport it is nothing. */
  lemma LeaveCloses(l: State, built: bool)
    ensures l.transport.None? ==> PushOne(l, built, Leave) == (l, built)
    ensures l.transport.Some? ==>
              var r := PushOne(l, built, Leave).0;
              && r.transport.None? && r.wire == l.wire + [Sent(l.transport.value, Leave, l.permitted)]
              && r.constructed == l.constructed && r.permitted == l.permitted
              && PushOne(l, built, Leave).1 == built
              && r.pending == if |l.pending| < PENDING_CAP then l.pending + [Disconnected(Closed)] else l.pending
  {
  }

  // ----- no session ----------------------------------------------------------------------------

  /** A command that would open a session. */
  predicate Opens(c: Command) { (c.Host? || c.Join?) && c.Check() }

  /** The first one with a factory opens a transport of its own and is handed to it. */
  lemma FirstOpens(l: State, c: Command)
    requires l.permitted && l.transport.None? && l.factory && Opens(c)
    ensures var (r, built) := PushOne(l, false, c);
            && built && r.transport == Some(l.constructed) && r.constructed == l.constructed + 1
            && r.wire == l.wire + [Sent(l.constructed, c, true)]
            && r.permitted && r.factory && r.pending == l.pending
  {
  }

  /** A second one in a frame, or one without a factory, opens nothing and is answered. */
  lemma NoneOpens(l: State, built: bool, c: Command)
    requires l.permitted && l.transport.None? && (built || !l.factory) && Opens(c)
    ensures var answer := if built then Failed(Declined, ONE_SESSION) else Failed(Disabled, NO_TRANSPORT);
            PushOne(l, built, c) ==
            (if |l.pending| < PENDING_CAP then l.(pending := l.pending + [answer]) else l, built)
  {
  }

  /** Without a transport, nothing happens until a command that would open one. */
  lemma {:induction false} NothingUntilOpened(l: State, built: bool, commands: seq<Command>)
    requires l.permitted && l.transport.None? && forall c :: c in commands ==> !Opens(c)
    ensures PushFrom(l, built, commands) == (l, built)
    decreases |commands|
  {
    if commands != [] {
      assert commands[0] in commands;
      NothingUntilOpened(l, built, commands[1..]);
    }
  }

  /** Once a frame has built a transport and closed it, or with no factory, nothing more
      is handed over in it. */
  lemma {:induction false} NothingAfterwards(l: State, built: bool, commands: seq<Command>)
    requires l.permitted && l.transport.None? && (built || !l.factory)
    ensures var r := PushFrom(l, built, commands).0;
            r.wire == l.wire && r.constructed == l.constructed && r.transport.None? && r.permitted
    decreases |commands|
  {
    if commands != [] {
      var m := PushOne(l, built, commands[0]).0;
      NothingAfterwards(m, built, commands[1..]);
    }
  }

  // ----- every list ----------------------------------------------------------------------------

  /** The place of the first `Leave`, or the end. */
  function FirstLeave(commands: seq<Command>): (n: nat)
    ensures n <= |commands| && Leave !in commands[..n] && (n < |commands| ==> commands[n] == Leave)
  {
    if commands == [] || commands[0] == Leave then 0 else 1 + FirstLeave(commands[1..])
  }

  /** The place of the first command that would open a session, or the end. */
  function FirstOpening(commands: seq<Command>): (n: nat)
    ensures n <= |commands| && (forall c :: c in commands[..n] ==> !Opens(c))
    ensures n < |commands| ==> Opens(commands[n])
  {
    if commands == [] || Opens(commands[0]) then 0 else 1 + FirstOpening(commands[1..])
  }

  /** An open transport is handed everything well formed to its `Leave`, that `Leave`
      included, and is then closed. */
  lemma SessionEnds(l: State, built: bool, commands: seq<Command>)
    requires l.permitted && l.transport.Some?
    ensures var n := FirstLeave(commands);
            var taken := HandedTo(l.transport.value, Checked(commands[..Min(n + 1, |commands|)]));
            var (r, b) := PushFrom(l, built, commands[..Min(n + 1, |commands|)]);
            && r.wire == l.wire + taken && b == built && r.permitted && r.constructed == l.constructed
            && r.factory == l.factory && (r.transport.None? <==> n < |commands|)
  {
    hide HandedTo, PushOne, FirstLeave, Checked;
    var n := FirstLeave(commands);
    SessionTakesAll(l, built, commands[..n]);
    if n < |commands| {
      var m := PushFrom(l, built, commands[..n]).0;
      assert commands[..n + 1] == commands[..n] + [Leave];
      PushFromLast(l, built, commands[..n], Leave);
      LeaveCloses(m, built);
      LeaveFactory(m, built);
      CheckedLeave(commands[..n]);
      HandedLast(l.transport.value, Checked(commands[..n]), Leave);
      Assoc(l.wire, HandedTo(l.transport.value, Checked(commands[..n])), [Sent(l.transport.value, Leave, true)]);
    }
  }

  lemma LeaveFactory(l: State, built: bool)
    ensures PushOne(l, built, Leave).0.factory == l.factory
  {
  }

  lemma {:induction false} CheckedLeave(commands: seq<Command>)
    ensures Checked(commands + [Leave]) == Checked(commands) + [Leave]
  {
    if commands == [] {
      assert [] + [Leave] == [Leave] && [Leave][1..] == [];
    } else {
      CheckedLeave(commands[1..]);
      assert (commands + [Leave])[1..] == commands[1..] + [Leave];
    }
  }

  lemma HandedLast(id: nat, commands: seq<Command>, c: Command)
    ensures HandedTo(id, commands + [c]) == HandedTo(id, commands) + [Sent(id, c, true)]
  {
  }

  /** What a link with no transport hands the one it builds, the `id`th: everything well
      formed from the first command that would open a session to the next `Leave`. */
  function Session(id: nat, commands: seq<Command>): seq<Sent> {
    var i := FirstOpening(commands);
    var k := i + FirstLeave(commands[i..]);
    HandedTo(id, Checked(commands[i..Min(k + 1, |commands|)]))
  }

  /** From no transport, with a factory: the first command that would open one does, and
      it is handed everything well formed from there to its `Leave`; the rest of the
      frame reaches nothing. */
  lemma ClosedList(l: State, commands: seq<Command>)
    requires l.permitted && l.factory && l.transport.None?
    ensures PushFrom(l, false, commands).0.wire == l.wire + Session(l.constructed, commands)
  {
    hide HandedTo, PushOne, FirstLeave, FirstOpening, Checked, PushFrom, Opens;
    var i := FirstOpening(commands);
    NothingUntilOpened(l, false, commands[..i]);
    assert commands == commands[..i] + commands[i..];
    PushSplits(l, false, commands[..i], commands[i..]);
    if i < |commands| {
      OpenedList(l, commands[i..]);
      var n := FirstLeave(commands[i..]);
      assert commands[i..][..Min(n + 1, |commands| - i)] == commands[i..Min(i + n + 1, |commands|)];
    } else {
      assert commands[i..] == [];
      NothingPushed(l);
      assert commands[i..Min(i + FirstLeave(commands[i..]) + 1, |commands|)] == [];
      assert l.wire + HandedTo(l.constructed, []) == l.wire by { NothingHanded(l.constructed); }
      NothingChecked();
    }
  }

  lemma NothingPushed(l: State)
    ensures PushFrom(l, false, []) == (l, false)
  {
  }

  lemma NothingHanded(id: nat)
    ensures HandedTo(id, []) == []
  {
  }

  lemma NothingChecked()
    ensures Checked([]) == [] && FirstLeave([]) == 0
  {
  }

  lemma OpenedList(l: State, commands: seq<Command>)
    requires l.permitted && l.factory && l.transport.None? && commands != [] && Opens(commands[0])
    ensures var n := FirstLeave(commands);
            PushFrom(l, false, commands).0.wire ==
            l.wire + HandedTo(l.constructed, Checked(commands[..Min(n + 1, |commands|)]))
  {
    hide HandedTo, PushOne, FirstLeave, Checked, PushFrom, Opens;
    var (c, rest, n) := (commands[0], commands[1..], FirstLeave(commands));
    OpensIsNoLeave(c);
    FirstOpens(l, c);
    FirstLeaveNext(commands);
    PushNext(l, false, commands);
    SessionAlone(PushOne(l, false, c).0, rest);
    var taken := rest[..Min(n, |rest|)];
    assert commands[..Min(n + 1, |commands|)] == [c] + taken;
    CheckedNext(c, taken);
    HandedOne(l.constructed, c, Checked(taken));
    Assoc(l.wire, [Sent(l.constructed, c, true)], HandedTo(l.constructed, Checked(taken)));
  }

  lemma OpensIsNoLeave(c: Command)
    requires Opens(c)
    ensures c != Leave && c.Check()
  {
  }

  /** The transport a frame has built takes all to its `Leave`, and nothing follows. */
  lemma SessionAlone(l: State, commands: seq<Command>)
    requires l.permitted && l.transport.Some?
    ensures PushFrom(l, true, commands).0.wire ==
            l.wire + HandedTo(l.transport.value, Checked(commands[..Min(FirstLeave(commands) + 1, |commands|)]))
  {
    hide HandedTo, PushOne, FirstLeave, Checked, PushFrom;
    var a := Min(FirstLeave(commands) + 1, |commands|);
    SessionEnds(l, true, commands);
    assert commands == commands[..a] + commands[a..];
    PushSplits(l, true, commands[..a], commands[a..]);
    var after := PushFrom(l, true, commands[..a]).0;
    if FirstLeave(commands) < |commands| {
      NothingAfterwards(after, true, commands[a..]);
    } else {
      assert commands[a..] == [];
      PushNone(after, true);
    }
  }

  lemma FirstLeaveNext(commands: seq<Command>)
    requires commands != [] && commands[0] != Leave
    ensures FirstLeave(commands) == 1 + FirstLeave(commands[1..])
  {
  }

  lemma PushNext(l: State, built: bool, commands: seq<Command>)
    requires commands != []
    ensures var (a, b) := PushOne(l, built, commands[0]);
            PushFrom(l, built, commands) == PushFrom(a, b, commands[1..])
  {
    hide PushOne;
  }

  lemma PushNone(l: State, built: bool)
    ensures PushFrom(l, built, []) == (l, built)
  {
  }

  lemma CheckedNext(c: Command, rest: seq<Command>)
    requires c.Check()
    ensures Checked([c] + rest) == [c] + Checked(rest)
  {
    assert ([c] + rest)[1..] == rest;
  }

  /** Every list. A link with permission and a factory hands what is well formed of a
      frame's commands, in order: to the transport that is open, as far as the first
      `Leave`, which it is handed too; after that, or from the first if none was open,
      to a transport of its own, from the first command that would open a session as far
      as the next `Leave`; and nothing more. */
  lemma EveryList(l: State, commands: seq<Command>)
    requires l.permitted && l.factory
    ensures var a := Min(FirstLeave(commands) + 1, |commands|);
            PushAll(l, commands).0.wire ==
            if l.transport.None? then l.wire + Session(l.constructed, commands)
            else l.wire + HandedTo(l.transport.value, Checked(commands[..a])) + Session(l.constructed, commands[a..])
  {
    hide HandedTo, PushOne, FirstLeave, Checked, PushFrom, PushAll, Session;
    PushIsFrom(l, commands);
    if l.transport.None? {
      ClosedList(l, commands);
    } else {
      var n := FirstLeave(commands);
      var a := Min(n + 1, |commands|);
      SessionEnds(l, false, commands);
      PushSplits(l, false, commands[..a], commands[a..]);
      assert commands == commands[..a] + commands[a..];
      var m := PushFrom(l, false, commands[..a]).0;
      if n < |commands| {
        ClosedList(m, commands[a..]);
      } else {
        assert commands[a..] == [];
        PushNone(m, false);
        NoSession(l.constructed);
        assert m.wire + [] == m.wire;
      }
    }
  }

  lemma NoSession(id: nat)
    ensures Session(id, []) == []
  {
  }

  /** And without a factory, only to the transport that is open. */
  lemma EveryListWithoutFactory(l: State, commands: seq<Command>)
    requires l.permitted && !l.factory
    ensures var a := Min(FirstLeave(commands) + 1, |commands|);
            PushAll(l, commands).0.wire ==
            l.wire + if l.transport.Some? then HandedTo(l.transport.value, Checked(commands[..a])) else []
  {
    hide HandedTo, PushOne, FirstLeave, Checked, PushFrom, PushAll;
    PushIsFrom(l, commands);
    if l.transport.Some? {
      var n := FirstLeave(commands);
      var a := Min(n + 1, |commands|);
      SessionEnds(l, false, commands);
      PushSplits(l, false, commands[..a], commands[a..]);
      assert commands == commands[..a] + commands[a..];
      var m := PushFrom(l, false, commands[..a]).0;
      if n < |commands| {
        NothingAfterwards(m, false, commands[a..]);
      } else {
        assert commands[a..] == [];
        PushNone(m, false);
      }
    } else {
      NothingAfterwards(l, false, commands);
    }
  }

  /** A link without permission hands over a `Leave`, and only if a transport is open. */
  lemma {:induction false} OnlyTheLeave(l: State, built: bool, commands: seq<Command>)
    requires !l.permitted
    ensures var r := PushFrom(l, built, commands).0;
            r.wire == l.wire + if l.transport.Some? && Leave in commands then [Sent(l.transport.value, Leave, false)] else []
    decreases |commands|
  {
    hide Queue;
    if commands != [] {
      var c := commands[0];
      QueueKeepsWire(Close(l), Disconnected(Closed));
      OnlyTheLeave(PushOne(l, built, c).0, PushOne(l, built, c).1, commands[1..]);
      assert Leave in commands <==> c == Leave || Leave in commands[1..];
    }
  }

  lemma QueueKeepsWire(l: State, e: Event)
    ensures Queue(l, e).wire == l.wire && Queue(l, e).transport == l.transport && Queue(l, e).permitted == l.permitted
  {
  }

  // ----- what a poll gives ------------------------------------------------------------------------

  /** A poll takes from the front of the queue and loses nothing. */
  lemma PollKeepsOrder(l: State, room: nat, offer: seq<Event>)
    ensures var k := TakeCount(l.pending, room);
            && l.pending[..k] + AfterPoll(l, room).pending == l.pending
            && l.pending[..k] <= Polled(l, room, offer)
            && (l.transport.None? ==> Polled(l, room, offer) == l.pending[..k])
            && (l.transport.Some? ==>
                  && Polled(l, room, offer)[k..] <= offer
                  && |Polled(l, room, offer)| == k + Max(0, Min(|offer|, room - Plain(l.pending[..k]))))
  {
    hide TakeCount, Plain;
    var k := TakeCount(l.pending, room);
    assert l.pending[..k] + [] == l.pending[..k];
    assert Polled(l, room, offer)[k..] == Polled(l, room, offer)[|l.pending[..k]|..];
  }

  // ----- what the cart is told -----------------------------------------------------------

  /** What a command has the link tell the cart: that a session it left is closed, that
      a second transport in one frame is refused, or that there is none to be had. */
  function Told(l: State, built: bool, c: Command): Option<Event> {
    if !c.Check() || c.Send? then None
    else if c.Leave? then (if l.transport.Some? then Some(Disconnected(Closed)) else None)
    else if !l.permitted || l.transport.Some? then None
    else if built then Some(Failed(Declined, ONE_SESSION))
    else if l.factory then None
    else Some(Failed(Disabled, NO_TRANSPORT))
  }

  /** It waits behind what waits already, unless too much does; a command never
      changes whether networking is permitted. */
  lemma PushTells(l: State, built: bool, c: Command)
    ensures var (after, told) := (PushOne(l, built, c).0, Told(l, built, c));
            && after.pending == l.pending + (if told.Some? && |l.pending| < PENDING_CAP then [told.value] else [])
            && after.permitted == l.permitted && after.factory == l.factory
  {
    hide Command.Check;
    assert l.pending + [] == l.pending;
  }

  /** The player's word. Said again it changes nothing; a grant is queued and touches
      nothing else; a withdrawal has any transport told to leave and forgotten, and is
      all that waits, however much did. */
  lemma PermitMeans(l: State, on: bool)
    ensures var r := Permit(l, on);
            && r.permitted == on
            && (on == l.permitted ==> r == l)
            && (on && !l.permitted ==> r == l.(permitted := true, pending := l.pending + [Permission(true)]))
            && (!on && l.permitted ==>
                  && r.transport == None && r.pending == [Permission(false)] && r.constructed == l.constructed
                  && r.wire == l.wire + if l.transport.Some? then [Sent(l.transport.value, Leave, false)] else [])
  {
  }

  /** It takes all that fits: what it leaves begins with an event there was no room for. */
  lemma {:induction false} PollTakesAllThatFits(pending: seq<Event>, room: nat)
    ensures var k := TakeCount(pending, room);
            && Plain(pending[..k]) <= room
            && (k < |pending| ==> !pending[k].IsControl() && Plain(pending[..k]) == room)
  {
    var k := TakeCount(pending, room);
    if k > 0 {
      var left := if pending[0].IsControl() then room else room - 1;
      PollTakesAllThatFits(pending[1..], left);
      assert pending[..k][1..] == pending[1..][..k - 1];
    } else {
      assert pending[..0] == [];
    }
  }
}
