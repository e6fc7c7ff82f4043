/** A link and a cart's state stepped together, for ever: any toggling by the
    player, any calls by the cart, any offer by the transport. */
module NetRun {
  import opened Numbers
  import opened NetTypes
  import opened Wrappers
  import Cart = NetCart
  import Host = NetLink

  datatype Call = CallHost | CallJoin(ticket: Str) | CallSend(data: seq<byte>) | CallLeave | CallRecv

  datatype Action = Toggle(on: bool) | Frame(offer: seq<Event>, calls: seq<Call>)

  datatype System = System(link: Host.State, net: Cart.State)

  function Start(factory: bool, permitted: bool): System {
    System(Host.Initial(factory, permitted), Cart.Initial(permitted))
  }

  function Called(s: Cart.State, c: Call): Cart.State {
    match c
    case CallHost => Cart.Attempt(s, Command.Host)
    case CallJoin(ticket) => Cart.Attempt(s, Join(ticket))
    case CallSend(data) => Cart.SendOne(s, data).0
    case CallLeave => Cart.LeaveIt(s)
    case CallRecv => Cart.Receive(s)
  }

  function CalledAll(s: Cart.State, calls: seq<Call>): Cart.State {
    if calls == [] then s else Called(CalledAll(s, calls[..|calls| - 1]), calls[|calls| - 1])
  }

  /** The batch of a frame, and the cart once it has been admitted. */
  function Batch(s: System, offer: seq<Event>): seq<Event> { Host.Polled(s.link, s.net.Room(), offer) }

  function Admitted(s: System, offer: seq<Event>): Cart.State { Cart.Begun(s.net, Batch(s, offer)) }

  /** Poll with the room, admit, let the cart call, push the outbox. */
  function Stepped(s: System, a: Action): System {
    match a
    case Toggle(on) => s.(link := Host.Permit(s.link, on))
    case Frame(offer, calls) =>
      var polled := Host.AfterPoll(s.link, s.net.Room());
      var net := CalledAll(Admitted(s, offer), calls);
      System(Host.PushAll(polled, net.outbox).0, net.(outbox := []))
  }

  /** One frame on the objects themselves. */
  method StepFrame(link: Host.Link, net: Cart.NetState, offer: seq<Event>, calls: seq<Call>)
    modifies link, net
    ensures System(link.View(), net.View()) ==
            Stepped(System(old(link.View()), old(net.View())), Action.Frame(offer, calls))
  {
    hide Host.Polled, Host.AfterPoll, Host.PushAll, Cart.Begun, Called;
    ghost var s := System(link.View(), net.View());
    var room := if net.remoteRoom.Some? then Min(net.remoteRoom.value, MAX_BATCH)
                else Min(Max(INBOX_CAP - |net.inbox|, 0), MAX_BATCH);
    var events := link.Poll(room, offer);
    net.BeginFrame(events);
    ghost var begun := net.View();
    for i := 0 to |calls|
      invariant net.View() == CalledAll(begun, calls[..i])
      invariant link.View() == Host.AfterPoll(s.link, s.net.Room())
    {
      assert calls[..i + 1][..i] == calls[..i];
      Call1(net, calls[i]);
    }
    assert calls[..|calls|] == calls;
    var outbox := net.outbox;
    net.outbox := [];
    link.Push(outbox);
  }

  method Call1(net: Cart.NetState, c: Call)
    modifies net
    ensures net.View() == Called(old(net.View()), c)
  {
    hide Cart.Attempt;
    match c {
      case CallHost => net.Try(Command.Host);
      case CallJoin(ticket) => net.Try(Join(ticket));
      case CallSend(data) => var _ := net.TrySend(data);
      case CallLeave => net.Quit();
      case CallRecv => var _ := net.Recv();
    }
  }

  function Ran(s: System, run: seq<Action>): System {
    if run == [] then s else Stepped(Ran(s, run[..|run| - 1]), run[|run| - 1])
  }

  // ----- the invariant -----------------------------------------------------------------------------

  predicate AllPlain(events: seq<Event>) { forall e :: e in events ==> !e.IsControl() }

  /** A cart that has been told of a withdrawal has no session, and room. */
  predicate Told(n: Cart.State) {
    !n.permitted && !n.Live() && n.ticket.None? && n.peer.None? && |n.inbox| <= INBOX_CAP
  }

  /** What waits at the link between frames. Without permission at most the
      withdrawal, and once that is polled a cart that has been told; granted again,
      the grant behind it, and nothing more until both are polled; otherwise plain
      events within the cap. */
  predicate Waiting(l: Host.State, n: Cart.State) {
    if !l.permitted then
      l.transport.None? && (l.pending == [Permission(false)] || (l.pending == [] && Told(n)))
    else
      || (AllPlain(l.pending) && |l.pending| <= PENDING_CAP)
      || (l.transport.None? && (l.pending == [Permission(false), Permission(true)]
                                || (l.pending == [Permission(true)] && Told(n))))
  }

  /** This is the real inbox, and within its cap, or one grant past it. */
  predicate Bounded(n: Cart.State) {
    n.remoteRoom.None? && |n.inbox| <= INBOX_CAP + 1
  }

  ghost predicate Invariant(s: System) {
    Waiting(s.link, s.net) && Bounded(s.net) && Host.Disciplined(s.link) && s.net.outbox == []
  }

  lemma StartInvariant(factory: bool, permitted: bool)
    ensures Invariant(Start(factory, permitted))
  {
  }

  lemma ToggleKeeps(s: System, on: bool)
    requires Invariant(s)
    ensures Invariant(Stepped(s, Toggle(on)))
  {
    hide Host.Disciplined, Told;
    Host.PermitKeeps(s.link, on);
  }

  // ----- a frame: the batch ---------------------------------------------------------------------------

  lemma {:induction false} PlainAll(events: seq<Event>)
    requires AllPlain(events)
    ensures Host.Plain(events) == |events|
  {
    if events != [] {
      PlainAll(events[1..]);
    }
  }

  lemma {:induction false} TakePlain(pending: seq<Event>, room: nat)
    requires AllPlain(pending)
    ensures Host.TakeCount(pending, room) == Min(|pending|, room)
  {
    if pending != [] && 0 < room {
      assert pending[0] in pending;
      TakePlain(pending[1..], room - 1);
    } else if pending != [] {
      assert pending[0] in pending;
    }
  }

  lemma TakeControls(room: nat)
    ensures Host.TakeCount([Permission(false)], room) == 1
    ensures Host.TakeCount([Permission(true)], room) == 1
    ensures Host.TakeCount([Permission(false), Permission(true)], room) == 2
    ensures Host.TakeCount([], room) == 0
  {
    assert [Permission(false), Permission(true)][1..] == [Permission(true)];
    assert Host.TakeCount([], room) == 0;
    assert [Permission(true)][1..] == [] && [Permission(false)][1..] == [];
  }

  /** A batch fits the room, whatever the transport made of it, or is nothing but
      the host's own changes of permission; a link without permission gives the
      withdrawal, or nothing to a cart that has been told. */
  lemma BatchShape(s: System, offer: seq<Event>)
    requires Invariant(s)
    ensures var b := Batch(s, offer);
            || |b| <= s.net.Room()
            || b == [Permission(false)]
            || b == [Permission(false), Permission(true)]
            || (b == [Permission(true)] && Told(s.net))
    ensures !s.link.permitted ==>
              Batch(s, offer) == [Permission(false)] || (Batch(s, offer) == [] && Told(s.net))
    ensures var l := Host.AfterPoll(s.link, s.net.Room());
            && AllPlain(l.pending) && |l.pending| <= PENDING_CAP
            && l.permitted == s.link.permitted && l.constructed == s.link.constructed && l.wire == s.link.wire
            && (!l.permitted ==> l.transport.None? && l.pending == [])
            && Host.Disciplined(l)
  {
    hide Host.Disciplined, Host.TakeCount, Host.Plain, Told, Bounded;
    var (l, room) := (s.link, s.net.Room());
    TakeControls(room);
    PollKeeps(l, room);
    var k := Host.TakeCount(l.pending, room);
    if l.permitted && AllPlain(l.pending) {
      TakePlain(l.pending, room);
      PlainAll(l.pending[..k]);
    } else {
      assert l.transport.None? && l.pending[..k] == l.pending;
    }
  }

  lemma PollKeeps(l: Host.State, room: nat)
    requires Host.Disciplined(l)
    ensures Host.Disciplined(Host.AfterPoll(l, room))
  {
  }

  /** Any events that fit the inbox, changes of permission among them, are
      admitted whole, and none is dropped. */
  lemma {:induction false} FittingAdmitted(n: Cart.State, events: seq<Event>)
    requires |n.inbox| + |events| <= INBOX_CAP
    ensures var r := Cart.Admit(n, events);
            && r.admitted == n.admitted + events && r.dropped == n.dropped
            && |r.inbox| <= |n.inbox| + |events|
            && r.outbox == n.outbox && r.remoteRoom == n.remoteRoom
  {
    hide Cart.AdmitOne;
    if events == [] {
      assert n.admitted + events == n.admitted;
    } else {
      var (init, last) := (events[..|events| - 1], events[|events| - 1]);
      assert events == init + [last];
      FittingAdmitted(n, init);
      FitOne(Cart.Admit(n, init), last);
    }
  }

  lemma FitOne(n: Cart.State, e: Event)
    requires |n.inbox| < INBOX_CAP
    ensures var r := Cart.AdmitOne(n, e);
            && r.admitted == n.admitted + [e] && r.dropped == n.dropped && |r.inbox| <= |n.inbox| + 1
            && r.outbox == n.outbox && r.remoteRoom == n.remoteRoom
  {
  }

  lemma AdmitWithdrawal(n: Cart.State)
    ensures var r := Cart.AdmitOne(n, Permission(false));
            && Told(r) && r.inbox == [Permission(false)]
            && r.admitted == n.admitted + [Permission(false)]
            && r.dropped == n.dropped && r.outbox == n.outbox && r.remoteRoom == n.remoteRoom
  {
  }

  lemma AdmitGrant(n: Cart.State)
    ensures var r := Cart.AdmitOne(n, Permission(true));
            && r.permitted && r.inbox == n.inbox + [Permission(true)] && r.status == n.status
            && r.ticket == n.ticket && r.peer == n.peer
            && r.admitted == n.admitted + [Permission(true)]
            && r.dropped == n.dropped && r.outbox == n.outbox && r.remoteRoom == n.remoteRoom
  {
  }

  lemma AdmitShort(n: Cart.State, e: Event, e': Event)
    ensures Cart.Admit(n, []) == n && Cart.Admit(n, [e]) == Cart.AdmitOne(n, e)
    ensures Cart.Admit(n, [e, e']) == Cart.AdmitOne(Cart.AdmitOne(n, e), e')
  {
    hide Cart.AdmitOne;
    assert Cart.Admit(n, []) == n;
    assert [e][..0] == [] && [e, e'][..1] == [e];
    assert Cart.Admit(n, [e]) == Cart.AdmitOne(n, e);
  }

  /** The cart admits every event it is polled, whole and in order; nothing is
      dropped; and a cart whose link has no permission has then been told. */
  lemma BatchAdmitted(s: System, offer: seq<Event>)
    requires Invariant(s)
    ensures var n := Admitted(s, offer);
            && Bounded(n) && n.outbox == []
            && n.admitted == Batch(s, offer) && n.dropped == s.net.dropped
            && (!s.link.permitted ==> Told(n))
  {
    hide Host.Polled, Host.AfterPoll, Host.Disciplined, Cart.AdmitOne, Cart.Admit, Batch, Told;
    BatchShape(s, offer);
    var (b, n) := (Batch(s, offer), s.net.(outbox := [], sends := 0, admitted := []));
    AdmitShort(n, Permission(false), Permission(true));
    AdmitShort(n, Permission(true), Permission(true));
    AdmitWithdrawal(n);
    AdmitGrant(n);
    AdmitGrant(Cart.AdmitOne(n, Permission(false)));
    assert Told(s.net) ==> Told(n) && |s.net.inbox| <= INBOX_CAP by { ToldSame(s.net, n); }
    if b == [] {
      assert Admitted(s, offer) == n;
    } else if |b| <= s.net.Room() {
      FittingAdmitted(n, b);
      assert [] + b == b;
    }
  }

  lemma ToldSame(n: Cart.State, n': Cart.State)
    requires n'.permitted == n.permitted && n'.status == n.status && n'.ticket == n.ticket
    requires n'.peer == n.peer && n'.inbox == n.inbox
    ensures Told(n') == Told(n) && (Told(n) ==> |n.inbox| <= INBOX_CAP)
  {
  }

  // ----- a frame: the calls ----------------------------------------------------------------------------------

  lemma CallKeeps(n: Cart.State, c: Call)
    requires Bounded(n)
    ensures Bounded(Called(n, c)) && Called(n, c).permitted == n.permitted
    ensures Told(n) ==> Told(Called(n, c)) && Called(n, c).outbox == n.outbox
  {
  }

  lemma {:induction false} CallsKeep(n: Cart.State, calls: seq<Call>)
    requires Bounded(n)
    ensures Bounded(CalledAll(n, calls)) && CalledAll(n, calls).permitted == n.permitted
    ensures Told(n) ==> Told(CalledAll(n, calls)) && CalledAll(n, calls).outbox == n.outbox
  {
    hide Called, Bounded, Told;
    if calls != [] {
      CallsKeep(n, calls[..|calls| - 1]);
      CallKeeps(CalledAll(n, calls[..|calls| - 1]), calls[|calls| - 1]);
    }
  }

  // ----- a frame: the push -------------------------------------------------------------------------------------

  lemma {:induction false} PushWaits(l: Host.State, commands: seq<Command>)
    requires l.permitted && AllPlain(l.pending) && |l.pending| <= PENDING_CAP
    ensures var r := Host.PushAll(l, commands).0;
            r.permitted && AllPlain(r.pending) && |r.pending| <= PENDING_CAP
  {
    if commands != [] {
      PushWaits(l, commands[..|commands| - 1]);
    }
  }

  lemma FrameKeeps(s: System, offer: seq<Event>, calls: seq<Call>)
    requires Invariant(s)
    ensures Invariant(Stepped(s, Action.Frame(offer, calls)))
  {
    hide Host.Polled, Host.AfterPoll, Host.Disciplined, Host.PushAll, Admitted, Batch, CalledAll, Told;
    BatchShape(s, offer);
    BatchAdmitted(s, offer);
    var l := Host.AfterPoll(s.link, s.net.Room());
    var n := Admitted(s, offer);
    CallsKeep(n, calls);
    var m := CalledAll(n, calls);
    Host.PushKeeps(l, m.outbox);
    if l.permitted {
      PushWaits(l, m.outbox);
    } else {
      Host.NothingWithoutPermission(l, m.outbox);
      ToldSame(m, m.(outbox := []));
    }
  }

  lemma StepKeeps(s: System, a: Action)
    requires Invariant(s)
    ensures Invariant(Stepped(s, a))
  {
    hide Invariant, Stepped;
    match a {
      case Toggle(on) => ToggleKeeps(s, on);
      case Frame(offer, calls) => FrameKeeps(s, offer, calls);
    }
  }

  lemma {:induction false} RunKeeps(s: System, run: seq<Action>)
    requires Invariant(s)
    ensures Invariant(Ran(s, run))
  {
    hide Invariant, Stepped;
    if run != [] {
      RunKeeps(s, run[..|run| - 1]);
      StepKeeps(Ran(s, run[..|run| - 1]), run[|run| - 1]);
    }
  }

  // ----- what every run keeps ------------------------------------------------------------------------------------

  /** Whatever the transport offers, changes of permission included: a link without
      permission has no transport; the queue and the inbox are bounded; each
      transport's record is disciplined; and once the withdrawal has been polled
      the cart has no session. */
  lemma EveryRun(factory: bool, permitted: bool, run: seq<Action>)
    ensures var s := Ran(Start(factory, permitted), run);
            && (!s.link.permitted ==> s.link.transport.None?)
            && |s.link.pending| <= PENDING_CAP
            && |s.net.inbox| <= INBOX_CAP + 1
            && (!s.link.permitted && s.link.pending == [] ==> Told(s.net))
            && Host.Opened(s.link.wire) == Some((s.link.constructed, s.link.transport.Some?))
  {
    hide Stepped, Ran, Told;
    assert Invariant(Start(factory, permitted)) by { StartInvariant(factory, permitted); }
    RunKeeps(Start(factory, permitted), run);
  }

  /** In any frame of any run, whatever the transport offers: the batch is admitted
      whole and at most one transport is built; and if the link has no permission
      the cart has been told, issues no command whatever it calls, and nothing is
      handed to any transport. */
  lemma EveryFrame(factory: bool, permitted: bool, run: seq<Action>, offer: seq<Event>, calls: seq<Call>)
    ensures var s := Ran(Start(factory, permitted), run);
            var n := Admitted(s, offer);
            var s' := Stepped(s, Action.Frame(offer, calls));
            && n.admitted == Batch(s, offer) && n.dropped == s.net.dropped
            && s'.link.constructed <= s.link.constructed + 1
            && (!s.link.permitted ==>
                  && Told(n) && CalledAll(n, calls).outbox == []
                  && s'.link.wire == s.link.wire && s'.link.constructed == s.link.constructed)
  {
    hide Ran, Admitted, Batch, Host.AfterPoll, Host.PushAll, CalledAll, Host.Disciplined, Bounded, Waiting, Told;
    var s := Ran(Start(factory, permitted), run);
    StartInvariant(factory, permitted);
    RunKeeps(Start(factory, permitted), run);
    BatchAdmitted(s, offer);
    BatchShape(s, offer);
    CallsKeep(Admitted(s, offer), calls);
    var l := Host.AfterPoll(s.link, s.net.Room());
    var outbox := CalledAll(Admitted(s, offer), calls).outbox;
    Host.OneTransportAPush(l, outbox);
    if !s.link.permitted {
      Host.NothingWithoutPermission(l, outbox);
    }
  }

  // ----- a transport that leaves permission to the host ------------------------------------------------

  /** Permission is the host's to give: this transport never offers a change of it. */
  predicate Honest(a: Action) {
    a.Frame? ==> AllPlain(a.offer)
  }

  /** A cart without permission has no session. */
  predicate NoSession(n: Cart.State) { !n.permitted ==> !n.Live() && n.ticket.None? && n.peer.None? }

  /** The cart knows what the link knows, but for news that waits. */
  predicate Agreed(s: System) {
    NoSession(s.net) && (s.link.permitted && AllPlain(s.link.pending) ==> s.net.permitted)
  }

  /** With an honest transport a batch is plain events to a permitted cart, or
      nothing but the host's changes of permission. */
  lemma HonestBatch(s: System, offer: seq<Event>)
    requires Invariant(s) && Agreed(s) && AllPlain(offer)
    ensures var b := Batch(s, offer);
            || (AllPlain(b) && |b| <= s.net.Room() && s.net.permitted == s.link.permitted)
            || (b == [Permission(false)] && !s.link.permitted)
            || (b == [Permission(false), Permission(true)] && s.link.permitted)
            || (b == [Permission(true)] && Told(s.net) && s.link.permitted)
  {
    hide Host.Disciplined, Host.TakeCount, Host.Plain, Bounded;
    var (l, room) := (s.link, s.net.Room());
    TakeControls(room);
    var k := Host.TakeCount(l.pending, room);
    if l.permitted && AllPlain(l.pending) {
      TakePlain(l.pending, room);
      PlainAll(l.pending[..k]);
      forall e | e in Batch(s, offer)
        ensures !e.IsControl()
      {
      }
    } else {
      assert l.transport.None? && l.pending[..k] == l.pending;
    }
  }

  lemma ApplyKeepsSession(n: Cart.State, e: Event)
    requires n.permitted && !e.IsControl()
    ensures Cart.AdmitOne(n, e).permitted
  {
  }

  lemma {:induction false} PlainKeepsPermission(n: Cart.State, events: seq<Event>)
    requires n.permitted && AllPlain(events)
    ensures Cart.Admit(n, events).permitted
  {
    hide Cart.AdmitOne;
    if events != [] {
      var last := events[|events| - 1];
      assert last in events;
      PlainKeepsPermission(n, events[..|events| - 1]);
      ApplyKeepsSession(Cart.Admit(n, events[..|events| - 1]), last);
    }
  }

  /** The batch admitted, the cart knows exactly what the link knows. */
  lemma HonestAdmitted(s: System, offer: seq<Event>)
    requires Invariant(s) && Agreed(s) && AllPlain(offer)
    ensures Admitted(s, offer).permitted == s.link.permitted && NoSession(Admitted(s, offer))
  {
    hide Host.Polled, Host.AfterPoll, Host.Disciplined, Cart.AdmitOne, Cart.Admit, Batch, Told, Waiting, Bounded;
    HonestBatch(s, offer);
    BatchAdmitted(s, offer);
    var (b, n) := (Batch(s, offer), s.net.(outbox := [], sends := 0, admitted := []));
    if !s.link.permitted {
      ToldMeans(Admitted(s, offer));
    } else if AllPlain(b) && s.net.permitted == s.link.permitted {
      PlainKeepsPermission(n, b);
    } else {
      AdmitShort(n, Permission(false), Permission(true));
      AdmitShort(n, Permission(true), Permission(true));
      AdmitGrant(n);
      AdmitGrant(Cart.AdmitOne(n, Permission(false)));
    }
  }

  lemma ToldMeans(n: Cart.State)
    requires Told(n)
    ensures !n.permitted && NoSession(n)
  {
  }

  lemma CallKeepsSession(n: Cart.State, c: Call)
    requires NoSession(n)
    ensures NoSession(Called(n, c)) && Called(n, c).permitted == n.permitted
  {
  }

  lemma {:induction false} CallsKeepSession(n: Cart.State, calls: seq<Call>)
    requires NoSession(n)
    ensures NoSession(CalledAll(n, calls)) && CalledAll(n, calls).permitted == n.permitted
  {
    hide Called, NoSession;
    if calls != [] {
      CallsKeepSession(n, calls[..|calls| - 1]);
      CallKeepsSession(CalledAll(n, calls[..|calls| - 1]), calls[|calls| - 1]);
    }
  }

  lemma HonestKeeps(s: System, a: Action)
    requires Invariant(s) && Agreed(s) && Honest(a)
    ensures Agreed(Stepped(s, a))
  {
    hide Host.Disciplined, Admitted, Batch, CalledAll, Host.AfterPoll, Host.PushAll, Told, Bounded, NoSession;
    match a {
      case Toggle(on) =>
        AgreedToggle(s, on);
      case Frame(offer, calls) =>
        HonestAdmitted(s, offer);
        BatchShape(s, offer);
        var n := Admitted(s, offer);
        CallsKeepSession(n, calls);
        var m := CalledAll(n, calls);
        SessionSame(m);
        PushPermission(Host.AfterPoll(s.link, s.net.Room()), m.outbox);
    }
  }

  lemma SessionSame(n: Cart.State)
    ensures NoSession(n.(outbox := [])) == NoSession(n)
  {
  }

  lemma {:induction false} PushPermission(l: Host.State, commands: seq<Command>)
    ensures Host.PushAll(l, commands).0.permitted == l.permitted
  {
    if commands != [] {
      PushPermission(l, commands[..|commands| - 1]);
    }
  }

  lemma AgreedToggle(s: System, on: bool)
    requires Invariant(s) && Agreed(s)
    ensures Agreed(Stepped(s, Toggle(on)))
  {
    hide Host.Disciplined, Told, Bounded, NoSession;
    var l := Host.Permit(s.link, on);
    if on && !s.link.permitted {
      assert l.pending[|l.pending| - 1] == Permission(true);
      assert Permission(true) in l.pending;
    }
  }

  lemma {:induction false} HonestRunKeeps(s: System, run: seq<Action>)
    requires Invariant(s) && Agreed(s) && forall a :: a in run ==> Honest(a)
    ensures Invariant(Ran(s, run)) && Agreed(Ran(s, run))
  {
    hide Invariant, Agreed, Stepped, Honest;
    if run != [] {
      assert run[|run| - 1] in run;
      HonestRunKeeps(s, run[..|run| - 1]);
      StepKeeps(Ran(s, run[..|run| - 1]), run[|run| - 1]);
      HonestKeeps(Ran(s, run[..|run| - 1]), run[|run| - 1]);
    }
  }

  /** No grant in a batch comes to a cart that has a grant already. */
  ghost predicate GrantsFollowWithdrawals(b: seq<Event>, cartPermitted: bool) {
    && (b != [] && b[0] == Permission(true) ==> !cartPermitted)
    && forall i :: 0 < i < |b| && b[i] == Permission(true) ==> b[i - 1] == Permission(false)
  }

  lemma PlainHasNoGrant(b: seq<Event>, cartPermitted: bool)
    requires AllPlain(b)
    ensures GrantsFollowWithdrawals(b, cartPermitted)
  {
    forall i | 0 <= i < |b|
      ensures b[i] != Permission(true)
    {
      assert b[i] in b;
    }
  }

  /** Over a transport that offers no change of permission: a cart without it has
      no session; once a batch is admitted the cart knows exactly what the link
      knows; and it is never told of a grant on a grant. */
  lemma HonestRun(factory: bool, permitted: bool, run: seq<Action>, offer: seq<Event>)
    requires (forall a :: a in run ==> Honest(a)) && AllPlain(offer)
    ensures var s := Ran(Start(factory, permitted), run);
            && NoSession(s.net)
            && Admitted(s, offer).permitted == s.link.permitted
            && GrantsFollowWithdrawals(Batch(s, offer), s.net.permitted)
  {
    hide Honest, Batch, Host.Disciplined, Bounded, Waiting, AllPlain, Ran, Admitted, Told, NoSession;
    StartInvariant(factory, permitted);
    StartAgreed(factory, permitted);
    HonestRunKeeps(Start(factory, permitted), run);
    var s := Ran(Start(factory, permitted), run);
    HonestBatch(s, offer);
    HonestAdmitted(s, offer);
    if AllPlain(Batch(s, offer)) {
      PlainHasNoGrant(Batch(s, offer), s.net.permitted);
    } else if Told(s.net) {
      ToldMeans(s.net);
    }
  }

  lemma StartAgreed(factory: bool, permitted: bool)
    ensures Agreed(Start(factory, permitted))
  {
  }

  /** A cart has asked to host, and its link has built a transport. */
  lemma CartHosts() returns (s: System)
    ensures s == Ran(Start(true, true), [Action.Frame([], [CallHost])])
    ensures s.link.permitted && s.link.transport.Some? && s.link.pending == []
    ensures s.net.permitted && s.net.inbox == [] && s.net.remoteRoom.None?
    ensures s.net.status == Cart.WaitingHost && s.net.ticket.None?
  {
    hide Host.PushAll, Host.Disciplined;
    var start, frame := Start(true, true), Action.Frame([], [CallHost]);
    assert [frame][..0] == [] && Ran(start, []) == start;
    assert Batch(start, []) == [] && Admitted(start, []) == start.net;
    assert [CallHost][..0] == [] && CalledAll(start.net, []) == start.net;
    assert CalledAll(start.net, [CallHost]) == Cart.Attempt(start.net, Command.Host);
    assert Cart.Attempt(start.net, Command.Host).outbox == [Command.Host];
    assert Host.AfterPoll(start.link, start.net.Room()) == start.link;
    PushHost(start.link);
    s := Stepped(start, frame);
  }

  lemma PushHost(l: Host.State)
    requires l.permitted && l.factory && l.transport.None?
    ensures var r := Host.PushAll(l, [Command.Host]).0;
            r.permitted && r.transport.Some? && r.pending == l.pending
  {
    assert [Command.Host][..0] == [] && Host.PushAll(l, []) == (l, false);
  }

  /** With nothing waiting, the batch is what the transport offers. */
  lemma BatchOfOffer(s: System, offer: seq<Event>)
    requires s.link.transport.Some? && s.link.pending == [] && |offer| <= s.net.Room()
    ensures Batch(s, offer) == offer
  {
    assert offer == [] || s.net.Room() > 0;
    assert Host.TakeCount([], s.net.Room()) == 0;
  }

  /** A cart hosts; its transport then says permission is withdrawn, and that a peer
      is there: to a link that has permission, a cart that thinks it has none, in a
      session for all that. A transport may as well repeat a grant. */
  lemma DishonestTransport()
    ensures var hosting := Ran(Start(true, true), [Action.Frame([], [CallHost])]);
            var told := Admitted(hosting, [Permission(false), Connected(1)]);
            && hosting.link.permitted && !told.permitted && !NoSession(told)
            && !GrantsFollowWithdrawals(Batch(hosting, [Permission(true)]), hosting.net.permitted)
  {
    hide Ran, Batch, Cart.Admit;
    var s := CartHosts();
    BatchOfOffer(s, [Permission(false), Connected(1)]);
    BatchOfOffer(s, [Permission(true)]);
    AdmitShort(s.net.(outbox := [], sends := 0, admitted := []), Permission(false), Connected(1));
    ToldAndConnected(s.net.(outbox := [], sends := 0, admitted := []));
    GrantOnGrant(Batch(s, [Permission(true)]));
  }

  lemma GrantOnGrant(b: seq<Event>)
    requires b != [] && b[0] == Permission(true)
    ensures !GrantsFollowWithdrawals(b, true)
  {
  }

  lemma ToldAndConnected(n: Cart.State)
    ensures var r := Cart.AdmitOne(Cart.AdmitOne(n, Permission(false)), Connected(1));
            !r.permitted && !NoSession(r)
  {
  }

  // ----- a batch that is lost ------------------------------------------------------------------------------

  /** A full batch of plain events. */
  function Crowd(): (events: seq<Event>)
    ensures |events| == MAX_BATCH && AllPlain(events)
  {
    seq(MAX_BATCH, _ => Connected(1))
  }

  /** A cart hosts, then reads none of `k` full batches. */
  function Filling(k: nat): seq<Action> {
    if k == 0 then [Action.Frame([], [CallHost])] else Filling(k - 1) + [Action.Frame(Crowd(), [])]
  }

  /** Over an open transport, with a session or an attempt, and `n` unread. */
  predicate Unread(s: System, n: nat) {
    && s.link.permitted && s.link.transport.Some? && s.link.pending == []
    && s.net.permitted && s.net.Live() && s.net.remoteRoom.None? && |s.net.inbox| == n
  }

  lemma CrowdAdmitted(s: System, n: nat)
    requires Unread(s, n) && n + MAX_BATCH <= INBOX_CAP
    ensures var r := Admitted(s, Crowd());
            && r.admitted == Batch(s, Crowd()) == Crowd() && |r.inbox| == n + MAX_BATCH
            && r.permitted && r.Live() && r.remoteRoom.None? && r.outbox == []
  {
    hide Cart.Apply, Batch, Crowd;
    BatchOfOffer(s, Crowd());
    var was := s.net.(outbox := [], sends := 0, admitted := []);
    Cart.BatchAdmittedWhole(was, Crowd());
    assert [] + Crowd() == Crowd();
    ConnectedLives(was, MAX_BATCH);
  }

  lemma {:induction false} ConnectedLives(n: Cart.State, k: nat)
    requires n.Live()
    ensures Cart.Admit(n, seq(k, _ => Connected(1))).Live()
  {
    if k > 0 {
      ConnectedLives(n, k - 1);
      assert seq(k, _ => Connected(1))[..k - 1] == seq(k - 1, _ => Connected(1));
    }
  }

  lemma {:induction false} FillsUp(k: nat)
    requires k * MAX_BATCH <= INBOX_CAP
    ensures Unread(Ran(Start(true, true), Filling(k)), k * MAX_BATCH)
  {
    hide Admitted, Crowd;
    if k == 0 {
      var _ := CartHosts();
    } else {
      FillsUp(k - 1);
      var s := Ran(Start(true, true), Filling(k - 1));
      CrowdAdmitted(s, (k - 1) * MAX_BATCH);
      assert Filling(k)[..|Filling(k)| - 1] == Filling(k - 1);
      assert Host.PushAll(Host.AfterPoll(s.link, s.net.Room()), []).0.pending == [];
      assert CalledAll(Admitted(s, Crowd()), []) == Admitted(s, Crowd());
    }
  }

  /** A run in which a local failure takes the host's own event off the batch: the
      inbox is full when a call is declined. */
  lemma FailLosesBatch()
    ensures var s := Ran(Start(true, true), Filling(3));
            var (b, n) := (Batch(s, Crowd()), Admitted(s, Crowd()));
            && n.admitted == b && b != []
            && Called(n, CallHost).admitted == b[..|b| - 1]
  {
    hide Ran, Filling, Batch, Admitted, Cart.Fail, Crowd;
    FillsUp(3);
    var s := Ran(Start(true, true), Filling(3));
    CrowdAdmitted(s, 3 * MAX_BATCH);
    var n := Admitted(s, Crowd());
    Declined(n);
  }

  lemma Declined(n: Cart.State)
    requires n.permitted && n.Live() && |n.inbox| >= INBOX_CAP && n.admitted != []
    ensures Called(n, CallHost).admitted == n.admitted[..|n.admitted| - 1]
  {
    hide Cart.Apply;
    Cart.ApplyKeeps(n, Failed(FailCode.Declined, Cart.ALREADY));
  }
}
