/** Which guest gets the buttons: the cart, or the shell over it. */
module Console {
  import opened Chord
  import opened Wrappers

  /** The cart's half, as far as the buttons go: is there a guest, has it faulted,
      was there a source to load it from, what its manifest declares. */
  datatype Cart = Cart(guest: bool, faulted: bool, source: bool, mask: Buttons)

  /** No cart at all. */
  const NO_CART := Cart(false, false, false, BASE_BUTTONS)

  datatype Shell = Shell(overlay: bool, paused: bool, menuWas: bool, stale: Buttons, shellStale: Buttons, faulted: bool)

  datatype State = State(cart: Cart, shell: Option<Shell>, taken: bool)

  /** What became of loading a cart: its buttons and whether it was built, or a
      cart that faulted first, with or without a source to try again from. */
  datatype Load = Built(mask: Buttons) | Faulted(mask: Buttons, source: bool)

  function Loaded(load: Load): Cart {
    match load
    case Built(mask) => Cart(true, false, true, mask)
    case Faulted(mask, source) => Cart(false, true, source, mask)
  }

  /** What the shell asks for in a step, as far as it moves the buttons. */
  datatype Request = Overlay(on: bool) | Run(load: Load) | Restart(again: Load) | Quit | Paused(on: bool) | Other

  /** One frame: the buttons held, and what the two guests do if they are stepped. */
  datatype Frame = Frame(held: Buttons, cartFaults: bool, shellFaults: bool, requests: seq<Request>)

  /** What each guest was given in a frame, nothing if it was not stepped. */
  datatype Seen = Seen(cart: Option<Buttons>, shell: Option<Buttons>, menuPressed: bool)

  /** The shell is in front: of a cart it covers or holds, or of none that runs. */
  predicate OverlayUp(shell: Shell, cart: Cart) {
    shell.overlay || shell.paused || !cart.guest || cart.faulted
  }

  predicate ShellHas(s: State) { s.shell.Some? && OverlayUp(s.shell.value, s.cart) }

  /** The cart steps, unless it faulted or there is none. */
  function CartStep(cart: Cart, buttons: Buttons, faults: bool): (Cart, Option<Buttons>) {
    if cart.guest && !cart.faulted then (cart.(faulted := faults), Some(buttons * cart.mask))
    else (cart, None)
  }

  /** Put another cart in; a paused one is paused no longer. */
  function Installed(s: State, cart: Cart): State
    requires s.shell.Some?
  {
    s.(cart := cart, shell := Some(s.shell.value.(paused := false)))
  }

  function Applied(s: State, r: Request): (t: State)
    requires s.shell.Some?
    ensures t.shell.Some? && t.taken == s.taken && t.shell.value.stale == s.shell.value.stale
    ensures t.shell.value.shellStale == s.shell.value.shellStale && t.shell.value.menuWas == s.shell.value.menuWas
  {
    match r
    case Overlay(on) => s.(shell := Some(s.shell.value.(overlay := on)))
    case Run(load) => Installed(s, Loaded(load))
    case Restart(again) => if s.cart.source then Installed(s, Loaded(again)) else s
    case Quit => Installed(s, NO_CART)
    case Paused(on) => s.(shell := Some(s.shell.value.(paused := on)))
    case Other => s
  }

  function AllApplied(s: State, requests: seq<Request>): (t: State)
    requires s.shell.Some?
    ensures t.shell.Some? && t.taken == s.taken && t.shell.value.stale == s.shell.value.stale
    ensures t.shell.value.shellStale == s.shell.value.shellStale && t.shell.value.menuWas == s.shell.value.menuWas
    decreases |requests|
  {
    if requests == [] then s else AllApplied(Applied(s, requests[0]), requests[1..])
  }

  /** Start stands for A as well where the shell reads it. */
  function Chosen(held: Buttons): Buttons {
    if BTN_START in held then held + {BTN_A} else held
  }

  /** Where the buttons given in a frame go: what is still masked from each guest,
      what each is given, and whether Menu is held. */
  datatype Routed = Routed(active: bool, stale: Buttons, shellStale: Buttons, menu: bool,
                           toCart: Buttons, toShell: Buttons)

  function Route(shell: Shell, cart: Cart, given: Buttons): Routed {
    var active := OverlayUp(shell, cart);
    var stale, shellStale := shell.stale * given, shell.shellStale * given;
    var newly := given - stale;
    var spare := BOTH - cart.mask;
    Routed(active, stale, shellStale, BTN_MENU in given || (!active && newly * spare != {}),
           if shell.overlay then {} else newly * CART_BUTTONS,
           if active then Chosen(given * CART_BUTTONS - shellStale) else {})
  }

  /** The buttons held when the screen changes hands are masked from who gets it. */
  function HandedOver(s: State, active: bool, given: Buttons): State
    requires s.shell.Some?
  {
    var shell, now := s.shell.value, OverlayUp(s.shell.value, s.cart);
    s.(shell := Some(shell.(stale := if active && !now then given else shell.stale,
                            shellStale := if !active && now then given else shell.shellStale)))
  }

  /** A frame of a console with a shell, given what the chord gives. */
  function ShellStep(s: State, given: Buttons, f: Frame): (State, Seen)
    requires s.shell.Some?
  {
    var shell := s.shell.value;
    var r := Route(shell, s.cart, given);
    var (cart, cartSaw) := if shell.paused then (s.cart, None) else CartStep(s.cart, r.toCart, f.cartFaults);
    var s' := State(cart, Some(Shell(shell.overlay, shell.paused, r.menu, r.stale, r.shellStale,
                                     shell.faulted || f.shellFaults)), s.taken);
    var s'' := if shell.faulted then s' else AllApplied(s', f.requests);
    (HandedOver(s'', r.active, given),
     Seen(cartSaw, if shell.faulted then None else Some(r.toShell), r.menu && !shell.menuWas))
  }

  function Step(s: State, f: Frame): (State, Seen) {
    var given := Gives(s.taken, f.held);
    var s' := s.(taken := Takes(s.taken, f.held));
    if s.shell.None? then
      var (cart, saw) := CartStep(s.cart, given * CART_BUTTONS, f.cartFaults);
      (s'.(cart := cart), Seen(saw, None, false))
    else
      ShellStep(s', given, f)
  }

  /** The host puts a cart in itself, between two frames. */
  function HostLoaded(s: State, load: Load): State {
    if s.shell.None? then s else Installed(s, Loaded(load))
  }

  // ----- the console itself --------------------------------------------------

  class Console {
    const chord: Chord
    var cart: Cart
    var shell: Option<Shell>

    ghost function View(): State
      reads this, chord
    {
      State(cart, shell, chord.taken)
    }

    constructor (cart: Cart, shell: Option<Shell>)
      ensures View() == State(cart, shell, false) && fresh(chord)
    {
      chord := new Chord();
      this.cart, this.shell := cart, shell;
    }

    method StepCart(buttons: Buttons, faults: bool) returns (saw: Option<Buttons>)
      modifies this
      ensures (cart, saw) == CartStep(old(cart), buttons, faults) && shell == old(shell)
    {
      var input := buttons * cart.mask;
      saw := None;
      if cart.guest && !cart.faulted {
        saw := Some(input);
        if faults {
          cart := cart.(faulted := true);
        }
      }
    }

    method StepWith(f: Frame) returns (seen: Seen)
      modifies this, chord
      ensures (View(), seen) == Step(old(View()), f)
    {
      hide Gives, Takes, CartStep, ShellStep;
      var given := chord.Apply(f.held);
      if shell.None? {
        var saw := StepCart(given * CART_BUTTONS, f.cartFaults);
        return Seen(saw, None, false);
      }
      seen := StepShell(given, f);
    }

    method StepShell(given: Buttons, f: Frame) returns (seen: Seen)
      requires shell.Some?
      modifies this
      ensures (View(), seen) == ShellStep(old(View()), given, f)
    {
      hide CartStep, Route, OverlayUp, HandedOver, AllApplied;
      var s := shell.value;
      var r := Routing(given);
      shell := Some(s.(stale := r.stale, shellStale := r.shellStale, menuWas := r.menu));
      var cartSaw := None;
      if !s.paused {
        cartSaw := StepCart(r.toCart, f.cartFaults);
      }
      var shellSaw := None;
      if !s.faulted {
        shellSaw := Some(r.toShell);
        shell := Some(shell.value.(faulted := f.shellFaults));
        ApplyAll(f.requests);
      }
      HandOver(r.active, given);
      seen := Seen(cartSaw, shellSaw, r.menu && !s.menuWas);
    }

    method Routing(given: Buttons) returns (r: Routed)
      requires shell.Some?
      ensures r == Route(shell.value, cart, given)
    {
      var s := shell.value;
      var active := OverlayUp(s, cart);
      var stale, shellStale := s.stale * given, s.shellStale * given;
      var newly := given - stale;
      // Of Start and Select, those a playing cart does not declare open the menu too.
      var spare := BOTH - cart.mask;
      var menu := BTN_MENU in given || (!active && newly * spare != {});
      var toCart := {};
      if !s.overlay {
        toCart := newly * CART_BUTTONS;
      }
      var toShell := {};
      if active {
        toShell := given * CART_BUTTONS - shellStale;
        if BTN_START in toShell {
          toShell := toShell + {BTN_A};
        }
      }
      r := Routed(active, stale, shellStale, menu, toCart, toShell);
    }

    method HandOver(active: bool, given: Buttons)
      requires shell.Some?
      modifies this
      ensures shell.Some? && View() == HandedOver(old(View()), active, given)
    {
      var now := OverlayUp(shell.value, cart);
      if active && !now {
        shell := Some(shell.value.(stale := given));
      }
      if !active && now {
        shell := Some(shell.value.(shellStale := given));
      }
    }

    method ApplyAll(requests: seq<Request>)
      requires shell.Some?
      modifies this
      ensures shell.Some? && View() == AllApplied(old(View()), requests)
    {
      var i := 0;
      while i < |requests|
        invariant i <= |requests| && shell.Some?
        invariant AllApplied(View(), requests[i..]) == AllApplied(old(View()), requests)
      {
        assert requests[i..][1..] == requests[i + 1..];
        Apply(requests[i]);
        i := i + 1;
      }
    }

    method Apply(r: Request)
      requires shell.Some?
      modifies this
      ensures shell.Some? && View() == Applied(old(View()), r)
    {
      match r {
        case Overlay(on) => shell := Some(shell.value.(overlay := on));
        case Run(load) => Install(Loaded(load));
        case Restart(again) =>
          if cart.source {
            Install(Loaded(again));
          }
        case Quit => Install(NO_CART);
        case Paused(on) => shell := Some(shell.value.(paused := on));
        case Other =>
      }
    }

    method Install(with: Cart)
      requires shell.Some?
      modifies this
      ensures View() == Installed(old(View()), with)
    {
      shell := Some(shell.value.(paused := false));
      cart := with;
    }

    method HostLoadCart(load: Load)
      modifies this
      ensures View() == HostLoaded(old(View()), load)
    {
      if shell.Some? {
        Install(Loaded(load));
      }
    }
  }

  // ----- one frame -----------------------------------------------------------

  /** In any frame one of the two guests is given no button at all. */
  lemma NeverBothReact(s: State, f: Frame)
    ensures var seen := Step(s, f).1;
            seen.cart.None? || seen.cart.value == {} || seen.shell.None? || seen.shell.value == {}
  {
    hide Gives, Takes, AllApplied;
  }

  /** A cart sees no button its manifest does not declare, never Menu, never Start
      and Select together, and none that is not held. */
  lemma CartSeesItsOwn(s: State, f: Frame)
    requires s.cart.mask <= CART_BUTTONS
    ensures var saw := Step(s, f).1.cart;
            saw.Some? ==> saw.value <= s.cart.mask && saw.value <= f.held
                          && BTN_MENU !in saw.value && !(BOTH <= saw.value)
  {
    hide Takes, AllApplied;
    NeverBoth(s.taken, f.held);
  }

  // ----- a hand-over ---------------------------------------------------------

  /** Beside the console, the buttons that have been down in every frame since the
      buttons last went from the shell to the cart in a step, and the other way. */
  datatype Watched = Watched(s: State, toCart: Buttons, toShell: Buttons)

  function Watch(w: Watched, f: Frame): Watched {
    var s' := Step(w.s, f).0;
    Watched(s',
            if ShellHas(w.s) && !ShellHas(s') then f.held else w.toCart * f.held,
            if !ShellHas(w.s) && ShellHas(s') then f.held else w.toShell * f.held)
  }

  /** What is masked is what has been held, but for Menu, which neither guest
      sees, and for the two that the chord took away meanwhile. */
  predicate Masks(stale: Buttons, since: Buttons, taken: bool) {
    && stale - {BTN_MENU} <= since
    && since <= stale + if taken then BOTH else {}
  }

  predicate Kept(w: Watched) {
    match w.s.shell
    case None => w.toCart == {} && w.toShell == {}
    case Some(shell) =>
      Masks(shell.stale, w.toCart, w.s.taken) && Masks(shell.shellStale, w.toShell, w.s.taken)
  }

  /** A frame later the mask and the held buttons have lost the same. */
  lemma MasksOn(stale: Buttons, since: Buttons, taken: bool, held: Buttons)
    requires Masks(stale, since, taken)
    ensures Masks(stale * Gives(taken, held), since * held, Takes(taken, held))
  {
    NeverBoth(taken, held);
    forall b | b in since * held
      ensures b in stale * Gives(taken, held) + if Takes(taken, held) then BOTH else {}
    {
      if b in BOTH && b !in Gives(taken, held) {
        assert Takes(taken, held);
      } else if b in BOTH && b !in stale {
        assert b in BOTH * held;
      }
    }
  }

  /** At a hand-over everything held is masked. */
  lemma MasksAll(taken: bool, held: Buttons)
    ensures Masks(Gives(taken, held), held, Takes(taken, held))
  {
    NeverBoth(taken, held);
  }

  /** What is left of what the chord gives is what has not been held since. */
  lemma MasksExactly(stale: Buttons, since: Buttons, taken: bool, held: Buttons)
    requires Masks(stale, since, taken)
    ensures (Gives(taken, held) - stale * Gives(taken, held)) * CART_BUTTONS
            == (Gives(taken, held) - since * held) * CART_BUTTONS
  {
    MasksOn(stale, since, taken, held);
    NeverBoth(taken, held);
  }

  lemma WatchKeeps(w: Watched, f: Frame)
    requires Kept(w)
    ensures Kept(Watch(w, f))
  {
    hide Gives, Takes, Masks;
    MasksAll(w.s.taken, f.held);
    if w.s.shell.Some? {
      MasksOn(w.s.shell.value.stale, w.toCart, w.s.taken, f.held);
      MasksOn(w.s.shell.value.shellStale, w.toShell, w.s.taken, f.held);
    } else {
      assert Watch(w, f).toCart == {} && Watch(w, f).toShell == {};
    }
  }

  datatype Event = AFrame(f: Frame) | HostLoad(load: Load)

  function After(w: Watched, run: seq<Event>): Watched
    decreases |run|
  {
    if run == [] then w
    else
      match run[0]
      case AFrame(f) => After(Watch(w, f), run[1..])
      case HostLoad(load) => After(w.(s := HostLoaded(w.s, load)), run[1..])
  }

  lemma {:induction false} RunKeeps(w: Watched, run: seq<Event>)
    requires Kept(w)
    ensures Kept(After(w, run))
    decreases |run|
  {
    hide Masks, Step, ShellHas;
    if run != [] {
      match run[0] {
        case AFrame(f) =>
          WatchKeeps(w, f);
          RunKeeps(Watch(w, f), run[1..]);
        case HostLoad(load) =>
          RunKeeps(w.(s := HostLoaded(w.s, load)), run[1..]);
      }
    }
  }

  /** Start chooses on the shell's screens: whenever the shell is given Start it is
      given A too, and it is given nothing else that is not there. */
  lemma StartChooses(held: Buttons, b: nat)
    ensures b in Chosen(held) <==> b in held || (b == BTN_A && BTN_START in held)
  {
  }

  /** A console that has handed nothing over yet. */
  predicate New(s: State) {
    s.shell.Some? ==> s.shell.value.stale == {} && s.shell.value.shellStale == {}
  }

  /** The law of the hand-over. After any run, the guest that has the buttons sees
      exactly what the chord gives of those it may see, less every button that has
      been down in each frame since they were handed to it in a step: such a
      button is not seen until it has been let go of, and no other is kept back. */
  lemma WhatEachSees(s: State, run: seq<Event>, f: Frame)
    requires New(s)
    ensures var w := After(Watched(s, {}, {}), run);
            var given, seen := Gives(w.s.taken, f.held), Step(w.s, f).1;
            && (seen.cart.Some? && !ShellHas(w.s) ==>
                  seen.cart.value == (given - w.toCart * f.held) * CART_BUTTONS * w.s.cart.mask)
            && (seen.cart.Some? && ShellHas(w.s) ==> seen.cart.value == {})
            && (seen.shell.Some? && ShellHas(w.s) ==>
                  seen.shell.value == Chosen((given - w.toShell * f.held) * CART_BUTTONS))
            && (seen.shell.Some? && !ShellHas(w.s) ==> seen.shell.value == {})
  {
    hide Gives, Takes, AllApplied, Masks;
    var start := Watched(s, {}, {});
    NothingMasked(s.taken);
    RunKeeps(start, run);
    var w := After(start, run);
    if w.s.shell.Some? {
      var given := Gives(w.s.taken, f.held);
      var shell := w.s.shell.value;
      MasksExactly(shell.stale, w.toCart, w.s.taken, f.held);
      MasksExactly(shell.shellStale, w.toShell, w.s.taken, f.held);
      assert given * CART_BUTTONS - shell.shellStale * given == (given - shell.shellStale * given) * CART_BUTTONS;
    }
  }

  lemma NothingMasked(taken: bool)
    ensures Masks({}, {}, taken)
  {
  }

  /** Menu is held: the button itself, or, over a running cart that has not both, a
      Start or a Select that it does not declare and that has been up since the cart
      was handed the buttons. */
  predicate MenuHeld(w: Watched, held: Buttons) {
    var given := Gives(w.s.taken, held);
    && w.s.shell.Some?
    && (BTN_MENU in given
        || (!ShellHas(w.s) && exists b :: b in BOTH - w.s.cart.mask && b in given - w.toCart * held))
  }

  /** The menu is pressed exactly in the frames in which it is held and was not in
      the one before: a Start or a Select held since a hand-over takes a press of its
      own. */
  lemma MenuIsPressedAnew(s: State, run: seq<Event>, f: Frame)
    requires New(s)
    ensures var w := After(Watched(s, {}, {}), run);
            var (next, seen) := Step(w.s, f);
            && (seen.menuPressed <==> MenuHeld(w, f.held) && !w.s.shell.value.menuWas)
            && (next.shell.Some? ==> (next.shell.value.menuWas <==> MenuHeld(w, f.held)))
  {
    hide Gives, Takes, AllApplied, Masks;
    NothingMasked(s.taken);
    RunKeeps(Watched(s, {}, {}), run);
    var w := After(Watched(s, {}, {}), run);
    if w.s.shell.Some? {
      var given := Gives(w.s.taken, f.held);
      MasksExactly(w.s.shell.value.stale, w.toCart, w.s.taken, f.held);
      SpareHeld(given, w.s.shell.value.stale * given, w.toCart * f.held, BOTH - w.s.cart.mask);
    }
  }

  /** Start and Select are among what a cart may be given. */
  lemma SpareHeld(given: Buttons, stale: Buttons, since: Buttons, spare: Buttons)
    requires (given - stale) * CART_BUTTONS == (given - since) * CART_BUTTONS && spare <= BOTH
    ensures (given - stale) * spare != {} <==> exists b :: b in spare && b in given - since
  {
    forall b | b in spare
      ensures b in given - stale <==> b in given - since
    {
      assert b in CART_BUTTONS;
      assert b in (given - stale) * CART_BUTTONS <==> b in (given - since) * CART_BUTTONS;
    }
    if (given - stale) * spare != {} {
      var b :| b in (given - stale) * spare;
      assert b in spare && b in given - since;
    }
    if b :| b in spare && b in given - since {
      assert b in (given - stale) * spare;
    }
  }

  // ----- who is in front -----------------------------------------------------

  /** A cart is stepped unless there is none, it faulted, or it is paused; a shell
      unless it faulted. */
  lemma WhoSteps(s: State, f: Frame)
    ensures var (next, seen) := Step(s, f);
            && (seen.cart.Some? <==> s.cart.guest && !s.cart.faulted && (s.shell.None? || !s.shell.value.paused))
            && (seen.shell.Some? <==> s.shell.Some? && !s.shell.value.faulted)
            && (f.requests == [] ==>
                  && next.cart == s.cart.(faulted := s.cart.faulted || (seen.cart.Some? && f.cartFaults))
                  && (next.shell.Some? ==>
                        && next.shell.value.paused == s.shell.value.paused
                        && next.shell.value.overlay == s.shell.value.overlay
                        && next.shell.value.faulted == (s.shell.value.faulted || f.shellFaults)))
  {
    hide Gives, Takes;
    if s.shell.Some? && f.requests == [] {
      assert forall t: State :: t.shell.Some? ==> AllApplied(t, []) == t;
    }
  }

  /** What each request does to who has the buttons. An overlay and a pause put the
      shell in front; without both, whether a cart runs decides; another cart, or
      none, ends a pause and leaves an overlay. */
  lemma RequestMeans(s: State, r: Request)
    requires s.shell.Some?
    ensures var t := Applied(s, r);
            var running := s.cart.guest && !s.cart.faulted;
            match r
            case Overlay(on) => ShellHas(t) <==> on || s.shell.value.paused || !running
            case Paused(on) => ShellHas(t) <==> on || s.shell.value.overlay || !running
            case Run(load) => ShellHas(t) <==> s.shell.value.overlay || load.Faulted?
            case Restart(again) =>
              if s.cart.source then ShellHas(t) <==> s.shell.value.overlay || again.Faulted? else t == s
            case Quit => ShellHas(t) && !t.cart.source && !t.shell.value.paused
            case Other => t == s
  {
  }

  /** A step's requests act one after the other, in the order asked. */
  lemma {:induction false} RequestsInOrder(s: State, before: seq<Request>, rest: seq<Request>)
    requires s.shell.Some?
    ensures AllApplied(s, before + rest) == AllApplied(AllApplied(s, before), rest)
    ensures |before| == 1 ==> AllApplied(s, before) == Applied(s, before[0])
    decreases |before|
  {
    if before == [] {
      assert before + rest == rest;
    } else {
      assert (before + rest)[0] == before[0] && (before + rest)[1..] == before[1..] + rest;
      RequestsInOrder(Applied(s, before[0]), before[1..], rest);
    }
  }

  /** A cart the host puts in between two frames is no hand-over: a button the
      shell saw held is seen by that cart at once. */
  lemma DeployIsNotMasked()
    ensures var cart := Cart(true, false, true, CART_BUTTONS);
            var shell := Shell(false, true, false, {}, {}, false);
            var f := Frame({BTN_A}, false, false, []);
            var (shown, before) := Step(State(cart, Some(shell), false), f);
            var after := Step(HostLoaded(shown, Built(CART_BUTTONS)), f).1;
            && before.shell == Some({BTN_A}) && before.cart.None?
            && after.cart == Some({BTN_A})
  {
    var cart := Cart(true, false, true, CART_BUTTONS);
    var shell := Shell(false, true, false, {}, {}, false);
    var f := Frame({BTN_A}, false, false, []);
    var s := State(cart, Some(shell), false);
    assert Gives(false, {BTN_A}) == {BTN_A};
    assert AllApplied(State(cart, Some(shell), false), []) == State(cart, Some(shell), false);
    var (shown, before) := Step(s, f);
    var none: Buttons := {};
    assert {BTN_A} * CART_BUTTONS - none * {BTN_A} == {BTN_A};
    assert before.shell == Some({BTN_A});
    var loaded := HostLoaded(shown, Built(CART_BUTTONS));
    assert loaded.shell.value.stale * {BTN_A} == {} && {BTN_A} - {} == {BTN_A};
    var after := Step(loaded, f).1;
    assert after.cart == Some({BTN_A} * CART_BUTTONS * CART_BUTTONS);
    assert {BTN_A} * CART_BUTTONS * CART_BUTTONS == {BTN_A};
  }
}
