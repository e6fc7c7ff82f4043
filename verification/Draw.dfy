/** The pen's target, clip and sheet beside the slab that may free them. */
module Draw {
  import opened Numbers
  import opened Raster
  import opened Resources
  import opened Wrappers

  /** What the pen holds of the slab. */
  datatype Held = Held(target: BufId, clip: Rect, sheet: Option<BufId>)

  datatype State = State(slab: Slab, pen: Held, width: nat, height: nat)

  /** What every draw call relies on: the target is a live byte buffer and the
      clip lies inside it; the sheet, if there is one, is a live byte buffer. */
  ghost predicate Safe(s: State) {
    && s.slab.Valid()
    && s.slab.Get(SCREEN) == Ok(Info(U8, s.width, s.height))
    && IsCanvas(s.slab, s.pen.target, s.pen.clip)
    && (s.pen.sheet.Some? ==> IsBytes(s.slab, s.pen.sheet.value))
  }

  predicate IsBytes(slab: Slab, id: BufId) {
    slab.Live(id) && slab.Get(id).value.kind == U8
  }

  predicate IsCanvas(slab: Slab, id: BufId, clip: Rect) {
    && IsBytes(slab, id) && clip.Within(slab.Get(id).value.width, slab.Get(id).value.height)
    && slab.Get(id).value.width <= MAX_DIM && slab.Get(id).value.height <= MAX_DIM
  }

  function NewState(width: nat, height: nat): State {
    State(NewSlab(width, height), Held(SCREEN, Rect(0, 0, width, height), None), width, height)
  }

  // ----- the operations ------------------------------------------------------

  function OnScreen(s: State): State {
    s.(pen := s.pen.(target := SCREEN, clip := Rect(0, 0, s.width, s.height)))
  }

  function Retargeted(s: State, id: Option<BufId>): (State, Result<()>) {
    var to := if id.Some? then id.value else SCREEN;
    match s.slab.Get(to)
    case Err(e) => (s, Err(e))
    case Ok(info) =>
      if info.kind != U8 then (s, Err(KindMismatch(U8, info.kind)))
      else (s.(pen := s.pen.(target := to, clip := Rect(0, 0, info.width, info.height))), Ok(()))
  }

  function Clipped(s: State, rect: Option<Rect>): State {
    var s' := Targeted(s);
    match s'.slab.Get(s'.pen.target)
    case Err(_) => s'
    case Ok(info) =>
      var full := Rect(0, 0, info.width, info.height);
      s'.(pen := s'.pen.(clip := if rect.Some? then rect.value.Intersect(full) else full))
  }

  /** The target a draw call writes to: the screen, were the pen's one gone. */
  function Targeted(s: State): State {
    if s.slab.Live(s.pen.target) then s else OnScreen(s)
  }

  /** What a blit borrows: the target to write, then the sheet to read. */
  function Borrowed(s: State): (State, Result<(Info, Info)>) {
    match s.pen.sheet
    case None => (s, Err(NoSheet))
    case Some(sheet) =>
      var s' := Targeted(s);
      match (s'.slab.Get(s'.pen.target), s'.slab.Get(sheet))
      case (Ok(d), Ok(b)) => (s', if s'.pen.target == sheet then Err(Aliased) else Ok((d, b)))
      case _ => (s', Err(BufReleased))
  }

  function Sheeted(s: State, id: Option<BufId>): (State, Result<()>) {
    match id
    case None => (s.(pen := s.pen.(sheet := None)), Ok(()))
    case Some(sheet) =>
      match s.slab.Get(sheet)
      case Err(e) => (s, Err(e))
      case Ok(info) =>
        if info.kind != U8 then (s, Err(KindMismatch(U8, info.kind)))
        else (s.(pen := s.pen.(sheet := id)), Ok(()))
  }

  /** Releasing the target or the sheet lets go of it. */
  function Released(s: State, id: BufId): (State, Result<()>) {
    var (slab, r) := Freed(s.slab, id);
    if r.Err? then (s, r)
    else
      var s' := s.(slab := slab);
      var s'' := if s.pen.target == id then OnScreen(s') else s';
      (if s.pen.sheet == Some(id) then s''.(pen := s''.pen.(sheet := None)) else s'', r)
  }

  function Reaped(s: State, ids: seq<BufId>): State
    decreases |ids|
  {
    if ids == [] then s
    else Reaped(if s.slab.Live(ids[0]) then Released(s, ids[0]).0 else s, ids[1..])
  }

  // ----- each keeps the pen safe ---------------------------------------------

  lemma NewIsSafe(width: nat, height: nat)
    requires width <= MAX_DIM && height <= MAX_DIM
    ensures Safe(NewState(width, height))
  {
    hide Slab.Valid;
    NewIsValid(width, height);
    ScreenIsZero();
  }

  /** A change to the slab that leaves what the pen holds keeps the pen safe. */
  lemma SlabKeepsPen(s: State, slab: Slab)
    requires Safe(s) && slab.Valid()
    requires forall id :: s.slab.Live(id) ==> slab.Get(id) == s.slab.Get(id)
    ensures Safe(s.(slab := slab))
  {
    hide Slab.Valid, Slab.Get;
  }

  /** The clip lets every pixel of a buffer through and nothing else. */
  ghost predicate WholeOf(clip: Rect, info: Info) {
    forall px, py :: clip.Contains(px, py) <==> 0 <= px < info.width && 0 <= py < info.height
  }

  lemma WholeIsWhole(info: Info)
    requires info.width <= MAX_DIM && info.height <= MAX_DIM
    ensures WholeOf(Rect(0, 0, info.width, info.height), info)
  {
  }

  /** Choosing a target that is live and holds bytes moves the pen to the whole of
      it; any other is refused, and the pen stays where it was. */
  lemma RetargetKeeps(s: State, id: Option<BufId>)
    requires Safe(s)
    ensures Safe(Retargeted(s, id).0)
    ensures Retargeted(s, id).1.Ok? <==> IsBytes(s.slab, if id.Some? then id.value else SCREEN)
    ensures var (t, r) := Retargeted(s, id);
            var to := if id.Some? then id.value else SCREEN;
            && t == s.(pen := s.pen.(target := t.pen.target, clip := t.pen.clip))
            && (r.Ok? ==> t.pen.target == to && WholeOf(t.pen.clip, s.slab.Get(to).value))
            && (r.Err? ==> t == s)
  {
    hide Slab.Valid, Slab.Get, WholeOf;
    var to := if id.Some? then id.value else SCREEN;
    if s.slab.Live(to) {
      LiveSized(s.slab, to);
      WholeIsWhole(s.slab.Get(to).value);
    }
  }

  lemma LiveSized(slab: Slab, id: BufId)
    requires slab.Valid() && slab.Live(id)
    ensures slab.Get(id).value.width <= MAX_DIM && slab.Get(id).value.height <= MAX_DIM
  {
    assert SlotOf(id) > 0 ==> Kept(slab.slots[SlotOf(id)]);
  }

  /** The clip asked for is cut to the target: a pixel is let through if and only if
      it is in the rectangle, when there is one, and in the target. Nothing else of
      the pen moves. */
  lemma ClipKeeps(s: State, rect: Option<Rect>)
    requires Safe(s) && (rect.Some? ==> Fits(rect.value))
    ensures Safe(Clipped(s, rect))
    ensures var t := Clipped(s, rect);
            t == s.(pen := s.pen.(clip := t.pen.clip)) && CutTo(t.pen.clip, rect, s.slab.Get(s.pen.target).value)
  {
    hide Slab.Valid, Slab.Get, CutTo;
    var info := s.slab.Get(s.pen.target).value;
    ClipCuts(rect, info);
    if rect.Some? {
      IntersectWithin(rect.value, info.width, info.height);
    }
  }

  ghost predicate CutTo(clip: Rect, rect: Option<Rect>, info: Info) {
    forall px, py :: clip.Contains(px, py) <==>
                     && 0 <= px < info.width && 0 <= py < info.height
                     && (rect.None? || rect.value.Contains(px, py))
  }

  lemma ClipCuts(rect: Option<Rect>, info: Info)
    requires info.width <= MAX_DIM && info.height <= MAX_DIM && (rect.Some? ==> Fits(rect.value))
    ensures var full := Rect(0, 0, info.width, info.height);
            CutTo(if rect.Some? then rect.value.Intersect(full) else full, rect, info)
  {
    hide Rect.Intersect;
    var full := Rect(0, 0, info.width, info.height);
    var cut := if rect.Some? then rect.value.Intersect(full) else full;
    forall px, py
      ensures cut.Contains(px, py) <==> 0 <= px < info.width && 0 <= py < info.height
                                        && (rect.None? || rect.value.Contains(px, py))
    {
      if rect.Some? {
        IntersectMeans(rect.value, full, px, py);
      }
    }
  }

  lemma SheetKeeps(s: State, id: Option<BufId>)
    requires Safe(s)
    ensures Safe(Sheeted(s, id).0)
    ensures Sheeted(s, id).1.Ok? <==> (id.None? || IsBytes(s.slab, id.value))
    ensures var (t, r) := Sheeted(s, id);
            t == s.(pen := s.pen.(sheet := if r.Ok? then id else s.pen.sheet))
  {
    hide Slab.Valid, Slab.Get;
  }

  /** What the pen holds after the buffers of `dead` went: a target gone is the
      whole screen again, a sheet gone is none, and the rest is as it was. */
  ghost predicate LetGo(s: State, t: State, dead: set<BufId>) {
    && t.width == s.width && t.height == s.height
    && t.pen.target == (if s.pen.target in dead then SCREEN else s.pen.target)
    && t.pen.sheet == (if s.pen.sheet.Some? && s.pen.sheet.value in dead then None else s.pen.sheet)
    && if s.pen.target in dead then WholeOf(t.pen.clip, Info(U8, s.width, s.height)) else t.pen.clip == s.pen.clip
  }

  /** A release kills the handle and has the pen let go of it, and is refused, with
      nothing changed, for the screen and for what is gone already. */
  lemma ReleaseKeeps(s: State, id: BufId)
    requires Safe(s)
    ensures LetGo(s, Released(s, id).0, if id != SCREEN then {id} else {})
    ensures Released(s, id).1.Err? ==> Released(s, id).0 == s
    ensures Safe(Released(s, id).0)
    ensures Released(s, id).1.Ok? <==> s.slab.Live(id) && id != SCREEN
    ensures forall other :: Released(s, id).0.slab.Get(other) ==
                            if other == id && id != SCREEN then Err(BufReleased) else s.slab.Get(other)
  {
    hide Slab.Valid, Freed, SlotOf, GenerationOf;
    FreeKeeps(s.slab, id);
    var (slab, r) := Freed(s.slab, id);
    if r.Ok? {
      var s' := Released(s, id).0;
      if s.pen.target == id {
        assert s'.pen.target == SCREEN && slab.Get(SCREEN) == s.slab.Get(SCREEN);
        ScreenSized(s);
      }
    } else {
      FreeChangesNothing(s.slab, id);
    }
  }

  /** Reaping kills exactly the handles listed, whether or not some were freed
      already or are named twice, and never the screen; the pen lets go of those. */
  lemma {:induction false} ReapKeeps(s: State, ids: seq<BufId>)
    requires Safe(s)
    ensures Safe(Reaped(s, ids))
    ensures forall id :: Reaped(s, ids).slab.Get(id) ==
                         if id in ids && id != SCREEN then Err(BufReleased) else s.slab.Get(id)
    ensures LetGo(s, Reaped(s, ids), Dead(ids))
    decreases |ids|
  {
    hide Safe, Released, LetGo, Dead;
    if ids == [] {
      NothingLetGo(s);
    } else {
      ReleaseKeeps(s, ids[0]);
      HoldsLive(s);
      var s' := if s.slab.Live(ids[0]) then Released(s, ids[0]).0 else s;
      ReapKeeps(s', ids[1..]);
      forall id
        ensures Reaped(s, ids).slab.Get(id) == if id in ids && id != SCREEN then Err(BufReleased) else s.slab.Get(id)
      {
        assert id in ids <==> id == ids[0] || id in ids[1..];
      }
      LetGoTwice(s, s', Reaped(s, ids), ids);
    }
  }

  function Dead(ids: seq<BufId>): set<BufId> {
    set id | id in ids && id != SCREEN
  }

  lemma NothingLetGo(s: State)
    ensures LetGo(s, s, Dead([]))
  {
    hide WholeOf;
  }

  lemma HoldsLive(s: State)
    requires Safe(s)
    ensures s.slab.Live(s.pen.target) && (s.pen.sheet.Some? ==> s.slab.Live(s.pen.sheet.value))
  {
  }

  lemma LetGoTwice(s: State, m: State, t: State, ids: seq<BufId>)
    requires ids != [] && LetGo(m, t, Dead(ids[1..]))
    requires if s.slab.Live(ids[0]) then LetGo(s, m, if ids[0] != SCREEN then {ids[0]} else {}) else m == s
    requires s.slab.Live(s.pen.target) && (s.pen.sheet.Some? ==> s.slab.Live(s.pen.sheet.value))
    ensures LetGo(s, t, Dead(ids))
  {
    hide WholeOf, Slab.Live;
    assert Dead(ids) == Dead(ids[1..]) + if ids[0] != SCREEN then {ids[0]} else {} by {
      assert forall id :: id in ids <==> id == ids[0] || id in ids[1..];
    }
  }

  /** A safe pen's target is never replaced by the screen: what is drawn on is what
      the cart chose, a byte buffer with the clip inside it. */
  lemma TargetStays(s: State)
    requires Safe(s)
    ensures Targeted(s) == s
    ensures var info := s.slab.Get(s.pen.target).value;
            info.kind == U8 && s.pen.clip.Within(info.width, info.height)
  {
    hide Slab.Valid, Slab.Get;
  }

  /** A blit is refused for want of a sheet, or when the sheet is the target, and
      for nothing else; both buffers it borrows hold bytes. */
  lemma BorrowMeans(s: State)
    requires Safe(s)
    ensures Borrowed(s).0 == s
    ensures match s.pen.sheet
            case None => Borrowed(s).1 == Err(NoSheet)
            case Some(sheet) =>
              && (sheet == s.pen.target ==> Borrowed(s).1 == Err(Aliased))
              && (sheet != s.pen.target ==>
                    && Borrowed(s).1 == Ok((s.slab.Get(s.pen.target).value, s.slab.Get(sheet).value))
                    && s.slab.Get(s.pen.target).value.kind == U8 && s.slab.Get(sheet).value.kind == U8)
  {
    hide Slab.Valid, Slab.Get;
  }

  // ----- runs ----------------------------------------------------------------

  /** What a guest and the asset loader can do between two draw calls. A free goes
      through the pen, so that it can let go. */
  datatype Call =
    | SlabCall(op: Op)
    | DrawTarget(to: Option<BufId>)
    | Clip(rect: Option<Rect>)
    | Sheet(id: Option<BufId>)
    | Release(buf: BufId)
    | Reap(ids: seq<BufId>)

  ghost predicate Possible(s: State, call: Call) {
    match call
    case SlabCall(op) => !op.Free? && Allowed(s.slab, op)
    case Clip(rect) => rect.Some? ==> Fits(rect.value)
    case _ => true
  }

  function Called(s: State, call: Call): State
    requires s.slab.InRange()
    requires call.SlabCall? ==> Allowed(s.slab, call.op)
  {
    match call
    case SlabCall(op) => s.(slab := Apply(s.slab, op))
    case DrawTarget(to) => Retargeted(s, to).0
    case Clip(rect) => Clipped(s, rect)
    case Sheet(id) => Sheeted(s, id).0
    case Release(buf) => Released(s, buf).0
    case Reap(ids) => Reaped(s, ids)
  }

  lemma SlabCallKeeps(s: State, op: Op)
    requires Safe(s) && !op.Free? && Allowed(s.slab, op)
    ensures Safe(s.(slab := Apply(s.slab, op)))
  {
    hide Slab.Valid, Allocated, Inserted, Reserved, Unreserved, Info.Bytes, SlotOf, GenerationOf;
    FreeInRange(s.slab);
    ApplyKeeps(s.slab, op);
    match op {
      case Alloc(info) => AllocKeeps(s.slab, info);
      case Reserve(bytes) => ReserveKeeps(s.slab, bytes);
      case Unreserve(bytes) => UnreserveKeeps(s.slab, bytes);
      case Insert(info) => InsertKeeps(s.slab, info);
      case SetName(name, id) =>
    }
    SlabKeepsPen(s, Apply(s.slab, op));
  }

  lemma CallKeeps(s: State, call: Call)
    requires Safe(s) && Possible(s, call)
    ensures Safe(Called(s, call))
  {
    hide Safe, Slab.Valid, Apply, Retargeted, Clipped, Sheeted, Released, Reaped;
    match call {
      case SlabCall(op) => SlabCallKeeps(s, op);
      case DrawTarget(to) => RetargetKeeps(s, to);
      case Clip(rect) => ClipKeeps(s, rect);
      case Sheet(id) => SheetKeeps(s, id);
      case Release(buf) => ReleaseKeeps(s, buf);
      case Reap(ids) => ReapKeeps(s, ids);
    }
  }

  ghost predicate AllPossible(s: State, calls: seq<Call>)
    requires Safe(s)
    decreases |calls|
  {
    calls == [] || (Possible(s, calls[0]) && (CallKeeps(s, calls[0]); AllPossible(Called(s, calls[0]), calls[1..])))
  }

  ghost function Ran(s: State, calls: seq<Call>): (r: State)
    requires Safe(s) && AllPossible(s, calls)
    decreases |calls|
  {
    if calls == [] then s else CallKeeps(s, calls[0]); Ran(Called(s, calls[0]), calls[1..])
  }

  lemma {:induction false} StaysSafe(s: State, calls: seq<Call>)
    requires Safe(s) && AllPossible(s, calls)
    ensures Safe(Ran(s, calls))
    decreases |calls|
  {
    hide Called;
    if calls != [] {
      CallKeeps(s, calls[0]);
      StaysSafe(Called(s, calls[0]), calls[1..]);
    }
  }

  /** From a new screen, after any calls at all, a draw call finds what it needs. */
  lemma PenStaysSafe(width: nat, height: nat, calls: seq<Call>)
    requires width <= MAX_DIM && height <= MAX_DIM
    requires (NewIsSafe(width, height); AllPossible(NewState(width, height), calls))
    ensures Safe(Ran(NewState(width, height), calls))
  {
    hide Safe, Called, Ran, AllPossible;
    NewIsSafe(width, height);
    StaysSafe(NewState(width, height), calls);
  }

  // ----- the state itself ----------------------------------------------------

  class DrawState {
    const res: Resources
    const width: nat
    const height: nat
    var target: BufId
    var clip: Rect
    var sheet: Option<BufId>

    ghost function View(): State
      reads this, res
    {
      State(res.View(), Held(target, clip, sheet), width, height)
    }

    constructor (width: nat, height: nat)
      ensures View() == NewState(width, height)
    {
      this.width, this.height := width, height;
      target, clip, sheet := SCREEN, Rect(0, 0, width, height), None;
      res := new Resources(width, height);
    }

    method RetargetScreen()
      modifies this
      ensures View() == OnScreen(old(View()))
    {
      target, clip := SCREEN, Rect(0, 0, width, height);
    }

    /** What a draw call borrows. */
    method Target() returns (info: Info)
      requires View().slab.Valid()
      modifies this
      ensures View() == Targeted(old(View())) && View().slab.Get(target) == Ok(info)
    {
      hide Slab.Valid;
      ScreenLives(View().slab);
      var r := res.Get(target);
      if r.Err? {
        RetargetScreen();
        r := res.Get(target);
      }
      info := r.value;
    }

    method DrawTarget(id: Option<BufId>) returns (r: Result<()>)
      requires Safe(View())
      modifies this
      ensures (View(), r) == Retargeted(old(View()), id) && Safe(View())
    {
      hide Safe, Slab.Get;
      RetargetKeeps(View(), id);
      var to := if id.Some? then id.value else SCREEN;
      var got := res.Get(to);
      match got {
        case Err(e) => r := Err(e);
        case Ok(info) =>
          if info.kind != U8 {
            return Err(KindMismatch(U8, info.kind));
          }
          target, clip := to, Rect(0, 0, info.width, info.height);
          r := Ok(());
      }
    }

    method SetClip(rect: Option<Rect>)
      requires View().slab.Valid()
      modifies this
      ensures View() == Clipped(old(View()), rect)
    {
      hide Slab.Valid;
      ScreenLives(View().slab);
      var got := res.Get(target);
      if got.Err? {
        RetargetScreen();
        got := res.Get(SCREEN);
      }
      var full := Rect(0, 0, got.value.width, got.value.height);
      clip := if rect.Some? then rect.value.Intersect(full) else full;
    }

    method SetSheet(id: Option<BufId>) returns (r: Result<()>)
      requires Safe(View())
      modifies this
      ensures (View(), r) == Sheeted(old(View()), id) && Safe(View())
    {
      hide Safe, Slab.Get;
      SheetKeeps(View(), id);
      if id.Some? {
        var got := res.Get(id.value);
        match got {
          case Err(e) => return Err(e);
          case Ok(info) =>
            if info.kind != U8 {
              return Err(KindMismatch(U8, info.kind));
            }
        }
      }
      sheet := id;
      r := Ok(());
    }

    method BufRelease(id: BufId) returns (r: Result<()>)
      requires Safe(View())
      modifies this, res
      ensures (View(), r) == Released(old(View()), id) && Safe(View())
    {
      hide Safe, Freed;
      ReleaseKeeps(View(), id);
      r := res.Free(id);
      if r.Err? {
        FreeChangesNothing(old(View()).slab, id);
        return;
      }
      if target == id {
        RetargetScreen();
      }
      if sheet == Some(id) {
        sheet := None;
      }
    }

    method Reap(ids: seq<BufId>)
      requires Safe(View())
      modifies this, res
      ensures View() == Reaped(old(View()), ids) && Safe(View())
    {
      hide Safe, Released;
      var i := 0;
      while i < |ids|
        invariant i <= |ids| && Safe(View())
        invariant Reaped(View(), ids[i..]) == Reaped(old(View()), ids)
      {
        var got := res.Get(ids[i]);
        assert ids[i..][1..] == ids[i + 1..];
        if got.Ok? {
          var _ := BufRelease(ids[i]);
        }
        i := i + 1;
      }
    }

    method SheetAndTarget() returns (r: Result<(Info, Info)>)
      requires View().slab.Valid()
      modifies this
      ensures (View(), r) == Borrowed(old(View()))
    {
      hide Slab.Valid;
      if sheet.None? {
        return Err(NoSheet);
      }
      var live := res.Get(target);
      if live.Err? {
        RetargetScreen();
      }
      var got := res.Get(sheet.value);
      if got.Err? {
        return Err(BufReleased);
      }
      r := res.PairMut(target, sheet.value);
    }
  }

  lemma ScreenSized(s: State)
    requires Safe(s)
    ensures s.width <= MAX_DIM && s.height <= MAX_DIM
  {
    ScreenIsZero();
  }

  lemma ScreenLives(slab: Slab)
    requires slab.Valid()
    ensures slab.Live(SCREEN)
  {
    ScreenIsZero();
  }

  lemma FreeChangesNothing(slab: Slab, id: BufId)
    requires Freed(slab, id).1.Err?
    ensures Freed(slab, id).0 == slab
  {
  }
}
