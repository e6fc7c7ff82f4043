/** What a host keeps of a cart's network: whether it is allowed, the transport if
    there is one, and what the cart has yet to be told. */
module NetLink {
  import opened Numbers
  import opened NetTypes
  import opened Wrappers

  /** A command handed to the transport numbered `id`, and whether the player
      permitted networking at the time. */
  datatype Sent = Sent(id: nat, cmd: Command, permitted: bool)

  /** The value of a link, with the record of everything it has handed over. */
  datatype State = State(transport: Option<nat>, factory: bool, permitted: bool, pending: seq<Event>,
                         constructed: nat, wire: seq<Sent>)

  function Initial(factory: bool, permitted: bool): State {
    State(None, factory, permitted, [], 0, [])
  }

  function Hand(l: State, c: Command): State
    requires l.transport.Some?
  {
    l.(wire := l.wire + [Sent(l.transport.value, c, l.permitted)])
  }

  function Close(l: State): State {
    if l.transport.Some? then Hand(l, Leave).(transport := None) else l
  }

  function Queue(l: State, e: Event): State {
    if !e.IsControl() && |l.pending| >= PENDING_CAP then l else l.(pending := l.pending + [e])
  }

  function Permit(l: State, on: bool): State {
    if on == l.permitted then l
    else
      var a := l.(permitted := on);
      Queue(if on then a else Close(a).(pending := []), Permission(on))
  }

  const ONE_SESSION := Ascii("one session per frame")
  const NO_TRANSPORT := Ascii("this host has no transport")

  function Build(l: State): State { l.(transport := Some(l.constructed), constructed := l.constructed + 1) }

  /** One command of a frame; `built` says whether this frame has built one. */
  function PushOne(l: State, built: bool, c: Command): (State, bool) {
    if !c.Check() then (l, built)
    else if c.Leave? then
      (if l.transport.Some? then Queue(Close(l), Disconnected(Closed)) else l, built)
    else if !l.permitted then (l, built)
    else if c.Send? then (if l.transport.Some? then Hand(l, c) else l, built)
    else if l.transport.Some? then (Hand(l, c), built)
    else if built then (Queue(l, Failed(Declined, ONE_SESSION)), built)
    else if l.factory then (Hand(Build(l), c), true)
    else (Queue(l, Failed(Disabled, NO_TRANSPORT)), built)
  }

  function PushAll(l: State, commands: seq<Command>): (State, bool) {
    if commands == [] then (l, false)
    else
      var (a, built) := PushAll(l, commands[..|commands| - 1]);
      PushOne(a, built, commands[|commands| - 1])
  }

  /** Events that are not control events. */
  function Plain(events: seq<Event>): nat {
    if events == [] then 0 else (if events[0].IsControl() then 0 else 1) + Plain(events[1..])
  }

  /** How many waiting events a poll takes: control events do not count. */
  function TakeCount(pending: seq<Event>, room: nat): (k: nat)
    ensures k <= |pending|
  {
    if pending == [] then 0
    else if pending[0].IsControl() then 1 + TakeCount(pending[1..], room)
    else if room == 0 then 0
    else 1 + TakeCount(pending[1..], room - 1)
  }

  /** What a poll gives: the head of the queue, and the offer in the room left. */
  function Polled(l: State, room: nat, offer: seq<Event>): seq<Event> {
    var k := TakeCount(l.pending, room);
    var n := Plain(l.pending[..k]);
    l.pending[..k] +
    if l.transport.Some? && n < room then offer[..Min(|offer|, room - n)] else []
  }

  function AfterPoll(l: State, room: nat): State {
    l.(pending := l.pending[TakeCount(l.pending, room)..])
  }

  // ----- the object --------------------------------------------------------------------------

  class Link {
    var transport: Option<nat>
    const factory: bool
    var permitted: bool
    var pending: seq<Event>
    var constructed: nat
    ghost var wire: seq<Sent>

    ghost function View(): State
      reads this
    {
      State(transport, factory, permitted, pending, constructed, wire)
    }

    constructor (factory: bool, permitted: bool)
      ensures View() == Initial(factory, permitted)
    {
      this.transport, this.factory, this.permitted := None, factory, permitted;
      pending, constructed, wire := [], 0, [];
    }

    /** A call into the transport; what it does with it is its own business. */
    method GiveTransport(c: Command)
      requires transport.Some?
      modifies this`wire
      ensures View() == Hand(old(View()), c)
    {
      wire := wire + [Sent(transport.value, c, permitted)];
    }

    method CloseTransport()
      modifies this
      ensures View() == Close(old(View()))
    {
      if transport.Some? {
        GiveTransport(Leave);
        transport := None;
      }
    }

    method Enqueue(e: Event)
      modifies this
      ensures View() == Queue(old(View()), e)
    {
      if !e.IsControl() && |pending| >= PENDING_CAP {
        return;
      }
      pending := pending + [e];
    }

    method SetPermitted(on: bool)
      modifies this
      ensures View() == Permit(old(View()), on)
    {
      if on == permitted {
        return;
      }
      permitted := on;
      if !on {
        CloseTransport();
        pending := [];
      }
      Enqueue(Permission(on));
    }

    /** Hand a frame's commands over. */
    method Push(commands: seq<Command>)
      modifies this
      ensures View() == PushAll(old(View()), commands).0
    {
      var built := false;
      for i := 0 to |commands|
        invariant (View(), built) == PushAll(old(View()), commands[..i])
      {
        var c := commands[i];
        assert commands[..i + 1][..i] == commands[..i];
        if !c.Check() {
          continue;
        }
        if c.Leave? {
          if transport.Some? {
            CloseTransport();
            Enqueue(Disconnected(Closed));
          }
        } else if !permitted {
        } else if c.Send? {
          if transport.Some? {
            GiveTransport(c);
          }
        } else {
          if transport.None? {
            if built {
              Enqueue(Failed(Declined, ONE_SESSION));
              continue;
            }
            if factory {
              transport := Some(constructed);
              constructed := constructed + 1;
              built := true;
            } else {
              Enqueue(Failed(Disabled, NO_TRANSPORT));
              continue;
            }
          }
          GiveTransport(c);
        }
      }
      assert commands[..|commands|] == commands;
    }

    /** A frame's batch for a cart with this much room. `offer` is what the transport
        has ready; a link without one never asks. */
    method Poll(room: nat, offer: seq<Event>) returns (out: seq<Event>)
      modifies this
      ensures out == Polled(old(View()), room, offer) && View() == AfterPoll(old(View()), room)
    {
      hide Plain, TakeCount, Taking, Event.IsControl;
      ghost var first := pending;
      out := [];
      var n := 0;
      TakingStart(first, room);
      while pending != [] && (pending[0].IsControl() || n < room)
        invariant n <= room && Taking(first, out, pending, room, n)
        invariant transport == old(transport) && permitted == old(permitted)
        invariant constructed == old(constructed) && wire == old(wire)
        decreases |pending|
      {
        var e := pending[0];
        TakingStep(first, out, pending, room, n);
        pending := pending[1..];
        if !e.IsControl() {
          n := n + 1;
        }
        out := out + [e];
      }
      TakingDone(first, out, pending, room, n);
      if transport.Some? && n < room {
        out := out + offer[..Min(|offer|, room - n)];
      }
    }
  }

  lemma {:induction false} PlainSnoc(events: seq<Event>, e: Event)
    ensures Plain(events + [e]) == Plain(events) + if e.IsControl() then 0 else 1
  {
    if events == [] {
      assert events + [e] == [e];
    } else {
      PlainSnoc(events[1..], e);
      assert (events + [e])[1..] == events[1..] + [e];
    }
  }

  /** A poll part way: `out` is taken, `n` of it plain, and `pending` is left. */
  ghost predicate Taking(first: seq<Event>, out: seq<Event>, pending: seq<Event>, room: nat, n: nat) {
    && first == out + pending && n <= room && n == Plain(out)
    && TakeCount(first, room) == |out| + TakeCount(pending, room - n)
  }

  lemma TakingStart(first: seq<Event>, room: nat)
    ensures Taking(first, [], first, room, 0)
  {
    assert first == [] + first;
  }

  lemma TakingStep(first: seq<Event>, out: seq<Event>, pending: seq<Event>, room: nat, n: nat)
    requires Taking(first, out, pending, room, n) && pending != [] && (pending[0].IsControl() || n < room)
    ensures Taking(first, out + [pending[0]], pending[1..], room, if pending[0].IsControl() then n else n + 1)
  {
    hide Plain, TakeCount;
    PlainSnoc(out, pending[0]);
    TakeStep(pending, room - n);
    assert first == (out + [pending[0]]) + pending[1..];
  }

  lemma TakingDone(first: seq<Event>, out: seq<Event>, pending: seq<Event>, room: nat, n: nat)
    requires Taking(first, out, pending, room, n) && (pending == [] || (!pending[0].IsControl() && n >= room))
    ensures TakeCount(first, room) == |out| && first[..|out|] == out && first[|out|..] == pending
    ensures n == Plain(out)
  {
    hide Plain, TakeCount;
    TakeStop(pending, room - n);
  }

  lemma TakeStep(pending: seq<Event>, room: nat)
    requires pending != [] && (pending[0].IsControl() || 0 < room)
    ensures TakeCount(pending, room) ==
            1 + TakeCount(pending[1..], if pending[0].IsControl() then room else room - 1)
  {
  }

  lemma TakeStop(pending: seq<Event>, room: nat)
    requires pending == [] || (!pending[0].IsControl() && room == 0)
    ensures TakeCount(pending, room) == 0
  {
  }

  // ----- the gate ----------------------------------------------------------------------------------

  /** One push builds at most one transport. */
  lemma {:induction false} OneTransportAPush(l: State, commands: seq<Command>)
    ensures var (r, built) := PushAll(l, commands);
            r.constructed == l.constructed + if built then 1 else 0
  {
    if commands != [] {
      OneTransportAPush(l, commands[..|commands| - 1]);
    }
  }

  /** A link without permission and without a transport does nothing with any
      command at all. */
  lemma {:induction false} NothingWithoutPermission(l: State, commands: seq<Command>)
    requires !l.permitted && l.transport.None?
    ensures PushAll(l, commands) == (l, false)
  {
    if commands != [] {
      NothingWithoutPermission(l, commands[..|commands| - 1]);
    }
  }

  /** The next event a poll gives is the withdrawal. */
  predicate WithdrawalFirst(l: State) {
    l.pending != [] && l.pending[0] == Permission(false)
  }

  lemma WithdrawnFirst(l: State)
    requires l.permitted
    ensures WithdrawalFirst(Permit(l, false)) && Permit(l, false).transport.None?
  {
  }

  /** What a host does between two polls. */
  datatype Act = Toggle(on: bool) | Push(commands: seq<Command>)

  function Acted(l: State, acts: seq<Act>): State
    decreases |acts|
  {
    if acts == [] then l
    else Acted(match acts[0]
               case Toggle(on) => Permit(l, on)
               case Push(commands) => PushAll(l, commands).0, acts[1..])
  }

  lemma {:induction false} PushKeepsFirst(l: State, commands: seq<Command>)
    requires WithdrawalFirst(l)
    ensures WithdrawalFirst(PushAll(l, commands).0)
  {
    if commands != [] {
      PushKeepsFirst(l, commands[..|commands| - 1]);
    }
  }

  lemma {:induction false} FirstIsPolled(l: State, acts: seq<Act>, room: nat, offer: seq<Event>)
    requires WithdrawalFirst(l)
    ensures var out := Polled(Acted(l, acts), room, offer);
            out != [] && out[0] == Permission(false)
    decreases |acts|
  {
    hide PushAll;
    if acts != [] {
      match acts[0] {
        case Toggle(on) => FirstIsPolled(Permit(l, on), acts[1..], room, offer);
        case Push(commands) =>
          PushKeepsFirst(l, commands);
          FirstIsPolled(PushAll(l, commands).0, acts[1..], room, offer);
      }
    } else {
      assert TakeCount(l.pending, room) >= 1;
    }
  }

  /** Withdrawing permission leaves no transport, and whatever the host does then,
      toggling it again and again included, the first event polled is a withdrawal,
      even by a cart with no room. */
  lemma WithdrawalPolledFirst(l: State, acts: seq<Act>, room: nat, offer: seq<Event>)
    requires l.permitted
    ensures Permit(l, false).transport.None?
    ensures var out := Polled(Acted(Permit(l, false), acts), room, offer);
            out != [] && out[0] == Permission(false)
  {
    hide Polled, Acted;
    WithdrawnFirst(l);
    FirstIsPolled(Permit(l, false), acts, room, offer);
  }

  // ----- what each transport is handed -------------------------------------------------------------------

  /** How many transports a record shows opened, and whether the last is still
      open. Each is opened by a `Host` or `Join`, is handed nothing after its
      `Leave`, and nothing but that `Leave` without permission; the next is
      opened only after it. `None` is any other record. */
  ghost function Opened(wire: seq<Sent>): Option<(nat, bool)> {
    if wire == [] then Some((0, false))
    else
      var last := wire[|wire| - 1];
      match Opened(wire[..|wire| - 1])
      case None => None
      case Some((n, open)) =>
        if !open then
          if (last.cmd.Host? || last.cmd.Join?) && last.id == n && last.permitted then Some((n + 1, true)) else None
        else if last.id + 1 != n then None
        else if last.cmd.Leave? then Some((n, false))
        else if last.permitted then Some((n, true))
        else None
  }

  /** The record is the record of this link. */
  ghost predicate Disciplined(l: State) {
    && Opened(l.wire) == Some((l.constructed, l.transport.Some?))
    && (l.transport.Some? ==> l.transport.value + 1 == l.constructed)
  }

  lemma HandKeeps(l: State, c: Command)
    requires Disciplined(l) && l.transport.Some? && l.permitted && c != Leave
    ensures Disciplined(Hand(l, c))
  {
    assert Hand(l, c).wire[..|l.wire|] == l.wire;
  }

  lemma CloseKeeps(l: State)
    requires Disciplined(l)
    ensures Disciplined(Close(l)) && Close(l).transport.None?
  {
    assert Close(l).wire[..|l.wire|] == l.wire;
  }

  lemma OpenKeeps(l: State, c: Command)
    requires Disciplined(l) && l.transport.None? && l.permitted && (c.Host? || c.Join?)
    ensures Disciplined(Hand(Build(l), c))
  {
    assert Hand(Build(l), c).wire[..|l.wire|] == l.wire;
  }

  lemma QueueKeeps(l: State, e: Event)
    requires Disciplined(l)
    ensures Disciplined(Queue(l, e))
  {
  }

  lemma {:induction false} PushKeeps(l: State, commands: seq<Command>)
    requires Disciplined(l)
    ensures Disciplined(PushAll(l, commands).0)
  {
    hide Disciplined, Queue, Close, Hand, Build;
    if commands != [] {
      var (a, built) := PushAll(l, commands[..|commands| - 1]);
      var c := commands[|commands| - 1];
      PushKeeps(l, commands[..|commands| - 1]);
      if c.Leave? {
        CloseKeeps(a);
        QueueKeeps(Close(a), Disconnected(Closed));
      } else if a.permitted {
        if a.transport.Some? {
          HandKeeps(a, c);
        } else if !c.Send? {
          OpenKeeps(a, c);
          QueueKeeps(a, Failed(Declined, ONE_SESSION));
          QueueKeeps(a, Failed(Disabled, NO_TRANSPORT));
        }
      }
    }
  }

  lemma PermitKeeps(l: State, on: bool)
    requires Disciplined(l)
    ensures Disciplined(Permit(l, on))
  {
    if on != l.permitted {
      CloseKeeps(l.(permitted := on));
    }
  }
}
