/** What a cart keeps of its network: status, bounded inbox and
    outbox, and what each event and each call does to them. */
module NetCart {
  import opened Numbers
  import opened NetTypes
  import opened Wrappers

  datatype Status = Off | WaitingHost | Joining | InSession | Ended

  /** The value of a cart's networking state. */
  datatype State = State(
    status: Status, ticket: Option<Str>, peer: Option<nat>, permitted: bool,
    inbox: seq<Event>, outbox: seq<Command>, admitted: seq<Event>,
    sent: nat, received: nat, dropped: nat, remoteRoom: Option<nat>, sends: nat)
  {
    /** Trying for a session, or in one. */
    predicate Live() { status != Off && status != Ended }

    /** What a frame's batch may hold, changes of permission not counted. */
    function Room(): nat {
      if remoteRoom.Some? then Min(remoteRoom.value, MAX_BATCH)
      else Min(Max(INBOX_CAP - |inbox|, 0), MAX_BATCH)
    }
  }

  function Initial(permitted: bool): State {
    State(Off, None, None, permitted, [], [], [], 0, 0, 0, None, 0)
  }

  function Apply(s: State, e: Event): State {
    match e
    case Hosting(ticket) =>
      s.(ticket := Some(ticket), status := if s.status == InSession then InSession else WaitingHost)
    case Connected(peer) => s.(status := InSession, peer := Some(peer))
    case Message(_, _) => s.(received := s.received + 1)
    case Disconnected(reason) =>
      s.(peer := None,
         status := if reason == Closed then s.status else if s.ticket.Some? then WaitingHost else Ended)
    case Failed(code, _) =>
      if code == Handshake then s.(ticket := None, peer := None, status := Ended)
      else if (s.status == WaitingHost && s.ticket.None?) || s.status == Joining then s.(status := Ended)
      else s
    case Permission(granted) =>
      if granted then s.(permitted := true)
      else s.(permitted := false, inbox := [], ticket := None, peer := None,
              status := if s.status == Off then Off else Ended)
  }

  function AdmitOne(s: State, e: Event): State {
    var a := Apply(s, e);
    if |a.inbox| >= INBOX_CAP && !e.IsControl() then a.(dropped := a.dropped + 1)
    else a.(admitted := a.admitted + [e], inbox := a.inbox + [e])
  }

  function Admit(s: State, events: seq<Event>): State {
    if events == [] then s else AdmitOne(Admit(s, events[..|events| - 1]), events[|events| - 1])
  }

  function Begun(s: State, events: seq<Event>): State {
    Admit(s.(outbox := [], sends := 0, admitted := []), events)
  }

  /** A locally decided failure: queued like any event, then taken off the
      host's batch. */
  function Fail(s: State, code: FailCode, detail: Str): State {
    var a := AdmitOne(s, Failed(code, detail));
    a.(admitted := if a.admitted == [] then [] else a.admitted[..|a.admitted| - 1])
  }

  const NOT_PERMITTED := Ascii("networking is not permitted")
  const ALREADY := Ascii("already hosting, joining or connected")
  const TOO_MANY := Ascii("too many commands this frame")

  /** `host` and `join`: an attempt, or the reason there is none. */
  function Attempt(s: State, c: Command): State
    requires c.Host? || c.Join?
  {
    if !s.permitted then Fail(s, Denied, NOT_PERMITTED)
    else if s.Live() then Fail(s, Declined, ALREADY)
    else if |s.outbox| >= MAX_COMMANDS then Fail(s, Declined, TOO_MANY)
    else s.(status := if c.Host? then WaitingHost else Joining, ticket := None, outbox := s.outbox + [c])
  }

  function SendOne(s: State, data: seq<byte>): (State, bool) {
    if s.status != InSession then (s, false)
    else if s.sends >= MAX_SENDS || |s.outbox| >= MAX_COMMANDS then (s.(dropped := s.dropped + 1), false)
    else (s.(sends := s.sends + 1, sent := s.sent + 1, outbox := s.outbox + [Send(data)]), true)
  }

  function LeaveIt(s: State): State {
    if !s.Live() then s
    else s.(status := Ended, ticket := None, peer := None,
            outbox := if |s.outbox| < MAX_COMMANDS then s.outbox + [Leave] else s.outbox)
  }

  function Receive(s: State): State {
    if s.inbox == [] then s else s.(inbox := s.inbox[1..])
  }

  // ----- the object ------------------------------------------------------------------------

  class NetState {
    var status: Status
    var ticket: Option<Str>
    var peer: Option<nat>
    var permitted: bool
    var inbox: seq<Event>
    var outbox: seq<Command>
    var admitted: seq<Event>
    var sent: nat
    var received: nat
    var dropped: nat
    var remoteRoom: Option<nat>
    var sends: nat

    ghost function View(): State
      reads this
    {
      State(status, ticket, peer, permitted, inbox, outbox, admitted, sent, received, dropped, remoteRoom, sends)
    }

    constructor (permitted: bool)
      ensures View() == Initial(permitted)
    {
      status, ticket, peer, this.permitted := Off, None, None, permitted;
      inbox, outbox, admitted := [], [], [];
      sent, received, dropped, remoteRoom, sends := 0, 0, 0, None, 0;
    }

    method IsLive() returns (r: bool)
      ensures r == View().Live()
    {
      r := status != Off && status != Ended;
    }

    method Accept(e: Event)
      modifies this
      ensures View() == Apply(old(View()), e)
    {
      match e {
        case Hosting(t) =>
          ticket := Some(t);
          if status != InSession {
            status := WaitingHost;
          }
        case Connected(p) =>
          status := InSession;
          peer := Some(p);
        case Message(_, _) =>
          received := received + 1;
        case Disconnected(reason) =>
          peer := None;
          if reason == Closed {
          } else if ticket.Some? {
            status := WaitingHost;
          } else {
            status := Ended;
          }
        case Failed(code, _) =>
          if code == Handshake {
            ticket, peer, status := None, None, Ended;
          } else if (status == WaitingHost && ticket.None?) || status == Joining {
            status := Ended;
          }
        case Permission(granted) =>
          permitted := granted;
          if !granted {
            inbox, ticket, peer := [], None, None;
            if status != Off {
              status := Ended;
            }
          }
      }
    }

    method AdmitAll(events: seq<Event>)
      modifies this
      ensures View() == Admit(old(View()), events)
    {
      for i := 0 to |events|
        invariant View() == Admit(old(View()), events[..i])
      {
        var e := events[i];
        assert events[..i + 1][..i] == events[..i];
        Accept(e);
        if |inbox| >= INBOX_CAP && !e.IsControl() {
          dropped := dropped + 1;
          continue;
        }
        admitted := admitted + [e];
        inbox := inbox + [e];
      }
      assert events[..|events|] == events;
    }

    /** Start a frame: clear the outbox and admit the batch in order. */
    method BeginFrame(events: seq<Event>)
      modifies this
      ensures View() == Begun(old(View()), events)
    {
      outbox, sends, admitted := [], 0, [];
      AdmitAll(events);
    }

    method FailLocally(code: FailCode, detail: Str)
      modifies this
      ensures View() == Fail(old(View()), code, detail)
    {
      hide Apply;
      ghost var before := View();
      var e := Failed(code, detail);
      AdmitAll([e]);
      assert [e][..0] == [] && Admit(before, []) == before;
      if admitted != [] {
        admitted := admitted[..|admitted| - 1];
      }
    }

    method Try(c: Command)
      requires c.Host? || c.Join?
      modifies this
      ensures View() == Attempt(old(View()), c)
    {
      hide Fail;
      if !permitted {
        FailLocally(Denied, NOT_PERMITTED);
        return;
      }
      var live := IsLive();
      if live {
        FailLocally(Declined, ALREADY);
        return;
      }
      if |outbox| >= MAX_COMMANDS {
        FailLocally(Declined, TOO_MANY);
        return;
      }
      status := if c.Host? then WaitingHost else Joining;
      ticket := None;
      outbox := outbox + [c];
    }

    method TrySend(data: seq<byte>) returns (queued: bool)
      modifies this
      ensures (View(), queued) == SendOne(old(View()), data)
    {
      if status != InSession {
        return false;
      }
      if sends >= MAX_SENDS || |outbox| >= MAX_COMMANDS {
        dropped := dropped + 1;
        return false;
      }
      sends := sends + 1;
      sent := sent + 1;
      outbox := outbox + [Send(data)];
      return true;
    }

    method Quit()
      modifies this
      ensures View() == LeaveIt(old(View()))
    {
      var live := IsLive();
      if !live {
        return;
      }
      status, ticket, peer := Ended, None, None;
      if |outbox| < MAX_COMMANDS {
        outbox := outbox + [Leave];
      }
    }

    method Recv() returns (e: Option<Event>)
      modifies this
      ensures View() == Receive(old(View()))
      ensures e == if old(inbox) == [] then None else Some(old(inbox)[0])
    {
      if inbox == [] {
        return None;
      }
      e := Some(inbox[0]);
      inbox := inbox[1..];
    }
  }

  // ----- what each event does --------------------------------------------------------------

  /** An attempt to host or join that has not been answered. */
  predicate Attempting(s: State) {
    s.status == Joining || (s.status == WaitingHost && s.ticket.None?)
  }

  /** The host tries for a session again, and the peer is gone. */
  predicate FallsBack(s: State, e: Event) {
    e.Disconnected? && e.reason != Closed && s.ticket.Some?
  }

  /** The whole attempt is over. */
  predicate Ends(s: State, e: Event) {
    || (e.Disconnected? && e.reason != Closed && s.ticket.None?)
    || (e.Failed? && (e.code == Handshake || Attempting(s)))
    || (e == Permission(false) && s.status != Off)
  }

  /** The status after any event: a session begins with a peer and with nothing else;
      it falls back to hosting, for a host whose peer was lost, and ends for anyone
      else; a peer that closed in good order leaves the status alone. */
  lemma StatusMeans(s: State, e: Event)
    ensures var status := Apply(s, e).status;
            && (status == InSession <==> e.Connected? || (s.status == InSession && !FallsBack(s, e) && !Ends(s, e)))
            && (status == Ended <==> Ends(s, e) || (s.status == Ended && !e.Hosting? && !e.Connected? && !FallsBack(s, e)))
            && (status == WaitingHost <==>
                  || (e.Hosting? && s.status != InSession) || FallsBack(s, e)
                  || (s.status == WaitingHost && !e.Connected? && !Ends(s, e)))
            && (status == Joining ==> s.status == Joining)
            && (status == Off <==> s.status == Off && !e.Hosting? && !e.Connected? && !FallsBack(s, e) && !Ends(s, e))
  {
  }

  /** The peer is the last to have connected, until it is lost; the ticket the last
      hosted with, until the attempt it was for is over for good. */
  lemma PartiesMean(s: State, e: Event)
    ensures var r := Apply(s, e);
            var over := (e.Failed? && e.code == Handshake) || e == Permission(false);
            && (match e
                case Hosting(ticket) => r.ticket == Some(ticket)
                case _ => r.ticket == if over then None else s.ticket)
            && (match e
                case Connected(peer) => r.peer == Some(peer)
                case _ => r.peer == if over || e.Disconnected? then None else s.peer)
            && (r.permitted <==> e == Permission(true) || (s.permitted && e != Permission(false)))
            && r.inbox == (if e == Permission(false) then [] else s.inbox)
            && r.received == s.received + if e.Message? then 1 else 0
  {
  }

  // ----- what each call does ---------------------------------------------------------------

  /** A call to host or join asks for exactly itself when it may, and for nothing
      when networking is not permitted, when an attempt or a session is on, or when
      the frame's commands are spent. */
  lemma AttemptAsks(s: State, c: Command)
    requires c.Host? || c.Join?
    ensures var r := Attempt(s, c);
            var may := s.permitted && !s.Live() && |s.outbox| < MAX_COMMANDS;
            && r.outbox == s.outbox + (if may then [c] else [])
            && (may ==> Attempting(r) && (r.status == WaitingHost <==> c.Host?) && r.inbox == s.inbox)
            && (!may && |s.inbox| < INBOX_CAP ==>
                  && |r.inbox| == |s.inbox| + 1 && r.inbox[..|s.inbox|] == s.inbox
                  && r.inbox[|s.inbox|].Failed?
                  && (r.inbox[|s.inbox|].code == Denied <==> !s.permitted))
  {
  }

  /** In a session a message is queued whole, behind what was, while both bounds
      allow, and is counted as sent; past a bound it is counted as dropped; out of a
      session it is neither. */
  lemma SendReaches(s: State, data: seq<byte>)
    ensures var (r, queued) := SendOne(s, data);
            && (queued <==> s.status == InSession && s.sends < MAX_SENDS && |s.outbox| < MAX_COMMANDS)
            && r.outbox == s.outbox + (if queued then [Send(data)] else [])
            && r.sent == s.sent + (if queued then 1 else 0) && r.sends == s.sends + (if queued then 1 else 0)
            && r.dropped == s.dropped + (if s.status == InSession && !queued then 1 else 0)
            && r.status == s.status && r.inbox == s.inbox
  {
  }

  /** Leaving ends whatever is on and tells the host so once, if there is room; with
      nothing on it does nothing. */
  lemma LeaveAsks(s: State)
    ensures var r := LeaveIt(s);
            && !r.Live()
            && r.outbox == s.outbox + (if s.Live() && |s.outbox| < MAX_COMMANDS then [Leave] else [])
            && (s.Live() ==> r.ticket == None && r.peer == None)
            && LeaveIt(r) == r
  {
  }

  /** However often a cart asks, it gets the events in the order they came. */
  function ReceiveAll(s: State, n: nat): State
    decreases n
  {
    if n == 0 then s else ReceiveAll(Receive(s), n - 1)
  }

  lemma {:induction false} ReceiveInOrder(s: State, n: nat)
    ensures ReceiveAll(s, n) == s.(inbox := s.inbox[Min(n, |s.inbox|)..])
    decreases n
  {
    if n > 0 {
      ReceiveInOrder(Receive(s), n - 1);
      if s.inbox != [] {
        assert s.inbox[1..][Min(n - 1, |s.inbox| - 1)..] == s.inbox[Min(n, |s.inbox|)..];
      }
    }
  }

  // ----- batches --------------------------------------------------------------------------------

  /** What a non-control event leaves alone. */
  predicate SameQueues(a: State, b: State) {
    && a.inbox == b.inbox && a.admitted == b.admitted && a.dropped == b.dropped && a.permitted == b.permitted
    && a.outbox == b.outbox && a.remoteRoom == b.remoteRoom && a.sends == b.sends
  }

  lemma ApplyKeeps(s: State, e: Event)
    requires !e.IsControl()
    ensures SameQueues(Apply(s, e), s)
  {
  }

  /** A batch within the room, with no control event, is admitted whole and in
      order, and nothing is dropped. */
  lemma {:induction false} BatchAdmittedWhole(s: State, events: seq<Event>)
    requires |s.inbox| + |events| <= INBOX_CAP
    requires forall e :: e in events ==> !e.IsControl()
    ensures var r := Admit(s, events);
            && r.inbox == s.inbox + events && r.admitted == s.admitted + events
            && r.dropped == s.dropped && r.permitted == s.permitted
            && r.outbox == s.outbox && r.remoteRoom == s.remoteRoom && r.sends == s.sends
  {
    if events == [] {
      assert s.inbox + events == s.inbox && s.admitted + events == s.admitted;
    } else {
      var (init, last) := (events[..|events| - 1], events[|events| - 1]);
      assert events == init + [last] && last in events;
      BatchAdmittedWhole(s, init);
      hide Apply;
      ApplyKeeps(Admit(s, init), last);
    }
  }

  /** Any batch with no control event: the inbox takes the first of it, as many as
      there is room for, and the rest is counted as dropped. */
  lemma {:induction false} BatchTakenInPart(s: State, events: seq<Event>)
    requires forall e :: e in events ==> !e.IsControl()
    ensures var (r, k) := (Admit(s, events), Min(|events|, Max(0, INBOX_CAP - |s.inbox|)));
            && r.inbox == s.inbox + events[..k] && r.admitted == s.admitted + events[..k]
            && r.dropped == s.dropped + |events| - k
  {
    if events == [] {
      assert s.inbox + [] == s.inbox && s.admitted + [] == s.admitted;
    } else {
      var (init, last) := (events[..|events| - 1], events[|events| - 1]);
      assert last in events;
      BatchTakenInPart(s, init);
      hide Apply;
      ApplyKeeps(Admit(s, init), last);
      var room := Max(0, INBOX_CAP - |s.inbox|);
      if |init| < room {
        assert init[..|init|] == init && events[..|events|] == events == init + [last];
      } else {
        assert init[..room] == events[..room];
      }
    }
  }

  lemma RoomIsRoom(s: State, events: seq<Event>)
    requires s.remoteRoom.None? && |events| <= s.Room() && forall e :: e in events ==> !e.IsControl()
    ensures Begun(s, events).admitted == events && Begun(s, events).inbox == s.inbox + events
    ensures Begun(s, events).dropped == s.dropped
  {
    if events != [] {
      BatchAdmittedWhole(s.(outbox := [], sends := 0, admitted := []), events);
    } else {
      assert s.inbox + events == s.inbox;
    }
  }

  /** And a batch past the room is not, or is past what one frame may hold; with the
      inbox elsewhere the room is what the worker last said, within that bound. */
  lemma RoomIsExact(s: State, events: seq<Event>)
    requires forall e :: e in events ==> !e.IsControl()
    ensures s.remoteRoom.None? && |events| <= MAX_BATCH ==>
              (Begun(s, events).admitted == events <==> |events| <= s.Room())
    ensures s.Room() <= MAX_BATCH
    ensures s.remoteRoom.Some? && s.remoteRoom.value <= MAX_BATCH ==> s.Room() == s.remoteRoom.value
  {
    if |events| <= MAX_BATCH {
      BatchTakenInPart(s.(outbox := [], sends := 0, admitted := []), events);
      var k := Min(|events|, Max(0, INBOX_CAP - |s.inbox|));
      assert k < |events| ==> |events[..k]| < |events|;
      assert k == |events| ==> events[..k] == events;
    }
  }

  /** A local failure leaves the host's batch as it was exactly when it was
      queued itself or there was no batch: with the inbox full the failure is
      dropped, and the last event of the batch is taken off in its place. */
  lemma FailKeepsBatch(s: State, code: FailCode, detail: Str)
    ensures Fail(s, code, detail).admitted == s.admitted <==> |s.inbox| < INBOX_CAP || s.admitted == []
  {
    ApplyKeeps(s, Failed(code, detail));
    hide Apply;
    var a := AdmitOne(s, Failed(code, detail));
    if |s.inbox| < INBOX_CAP {
      assert (s.admitted + [Failed(code, detail)])[..|s.admitted|] == s.admitted;
    }
  }

  /** A call that is refused asks for nothing, and leaves the status as it was if and
      only if no attempt waits: one that does is ended by the refusal of another. */
  lemma DeclineEndsAttempt(s: State, c: Command)
    requires c.Host? || c.Join?
    requires !s.permitted || s.Live() || |s.outbox| >= MAX_COMMANDS
    ensures var r := Attempt(s, c);
            && r.outbox == s.outbox
            && (r.status == s.status <==> !Attempting(s))
            && (Attempting(s) ==> r.status == Ended)
  {
  }
}
