/** The slab every buffer lives in: generational handles, a free list, and a
    ledger of what is charged. */
module Resources {
  import opened Numbers
  import opened Raster
  import opened Wrappers

  const GRAPHICS_CAP := 8 * 1024 * 1024
  const WORD := 0x1_0000_0000

  datatype Error =
    | BudgetExceeded(requested: nat, used: nat, cap: nat)
    | BadDimensions(width: nat, height: nat, max: nat)
    | BufReleased
    | BufProtected
    | Aliased
    | KindMismatch(expected: Kind, got: Kind)
    | NoSheet

  datatype Result<+T> = Ok(value: T) | Err(error: Error)

  /** A handle: the slot in the low word, its generation in the high. */
  type BufId = nat

  const SCREEN: BufId := 0

  function SlotOf(id: BufId): nat { id % WORD }

  function GenerationOf(id: BufId): nat { id / WORD }

  function MakeId(slot: nat, generation: nat): BufId { generation * WORD + slot }

  lemma MakeIdReads(slot: nat, generation: nat)
    requires slot < WORD
    ensures SlotOf(MakeId(slot, generation)) == slot && GenerationOf(MakeId(slot, generation)) == generation
  {
    DivModUnique(MakeId(slot, generation), WORD, generation, slot);
  }

  lemma IdIsMade(id: BufId)
    ensures id == MakeId(SlotOf(id), GenerationOf(id))
  {
  }

  /** A buffer, less its elements. */
  datatype Info = Info(kind: Kind, width: nat, height: nat) {
    function Bytes(): nat { width * height * ElementBytes(kind) }

    predicate Sized() { 0 < width <= MAX_DIM && 0 < height <= MAX_DIM }
  }

  function ElementBytes(kind: Kind): nat {
    match kind
    case U8 => 1
    case I16 => 2
    case I32 => 4
    case F32 => 4
  }

  lemma SizedCosts(info: Info)
    requires info.Sized()
    ensures 0 < info.Bytes()
  {
    MulMono(1, info.height, info.width);
    MulMono(1, ElementBytes(info.kind), info.width * info.height);
  }

  datatype Slot = Slot(generation: nat, buf: Option<Info>, charged: nat)

  // ----- the slab as a value -------------------------------------------------

  /** The slab, and the bytes reserved ahead of a decode that has not ended. */
  datatype Slab = Slab(slots: seq<Slot>, free: seq<nat>, used: nat, names: map<string, BufId>, reserved: nat) {
    function Get(id: BufId): Result<Info> {
      if SlotOf(id) < |slots| && slots[SlotOf(id)].generation == GenerationOf(id)
         && slots[SlotOf(id)].buf.Some?
      then Ok(slots[SlotOf(id)].buf.value)
      else Err(BufReleased)
    }

    /** Every free slot exists. */
    predicate InRange() { forall i :: i in free ==> i < |slots| }

    predicate Live(id: BufId) { Get(id).Ok? }

    /** The ledger is the sum of its charges, inside the cap; the free list is the
        empty slots, each once; the screen is where it was put. */
    ghost predicate Valid() {
      && 0 < |slots| <= GRAPHICS_CAP + 1
      && slots[0].generation == 0 && slots[0].charged == 0
      && slots[0].buf.Some? && slots[0].buf.value.kind == U8
      && slots[0].buf.value.width <= MAX_DIM && slots[0].buf.value.height <= MAX_DIM
      && (forall i :: 0 <= i < |slots| ==> slots[i].generation < WORD)
      && (forall i :: 0 < i < |slots| ==> Kept(slots[i]))
      && (forall i :: i in free <==> 0 <= i < |slots| && slots[i].buf.None?)
      && (forall i, j :: 0 <= i < j < |free| ==> free[i] != free[j])
      && used == Charges(slots) + reserved && used <= GRAPHICS_CAP
      && (forall name :: name in names ==> Live(names[name]))
    }
  }

  /** A slot that holds a buffer is charged its bytes, an empty one nothing. */
  predicate Kept(s: Slot) {
    match s.buf
    case Some(info) => info.Sized() && s.charged == info.Bytes()
    case None => s.charged == 0
  }

  function Charges(slots: seq<Slot>): nat {
    if slots == [] then 0 else Charges(slots[..|slots| - 1]) + slots[|slots| - 1].charged
  }

  function NewSlab(width: nat, height: nat): Slab {
    Slab([Slot(0, Some(Info(U8, width, height)), 0)], [], 0, map[], 0)
  }

  function Reserved(s: Slab, bytes: nat): (Slab, Result<()>) {
    if s.used + bytes <= GRAPHICS_CAP then (s.(used := s.used + bytes, reserved := s.reserved + bytes), Ok(()))
    else (s, Err(BudgetExceeded(bytes, s.used, GRAPHICS_CAP)))
  }

  function Unreserved(s: Slab, bytes: nat): Slab
    requires bytes <= s.reserved
  {
    s.(used := Max(0, s.used - bytes), reserved := s.reserved - bytes)
  }

  /** A buffer whose bytes are already in the ledger takes the last free slot, or
      a new one. */
  function Inserted(s: Slab, info: Info): (Slab, BufId)
    requires s.InRange()
    requires info.Bytes() <= s.reserved
  {
    var s' := s.(reserved := s.reserved - info.Bytes());
    if s.free != [] then
      var slot := s.free[|s.free| - 1];
      assert slot in s.free;
      (s'.(slots := s.slots[slot := s.slots[slot].(buf := Some(info), charged := info.Bytes())],
           free := s.free[..|s.free| - 1]),
       MakeId(slot, s.slots[slot].generation))
    else
      (s'.(slots := s.slots + [Slot(0, Some(info), info.Bytes())]), MakeId(|s.slots|, 0))
  }

  function Allocated(s: Slab, info: Info): (Slab, Result<BufId>)
    requires s.InRange()
  {
    if !info.Sized() then (s, Err(BadDimensions(info.width, info.height, MAX_DIM)))
    else
      match Reserved(s, info.Bytes())
      case (s', Ok(_)) => var (after, id) := Inserted(s', info); (after, Ok(id))
      case (_, Err(e)) => (s, Err(e))
  }

  function Freed(s: Slab, id: BufId): (Slab, Result<()>) {
    if id == SCREEN then (s, Err(BufProtected))
    else if !s.Live(id) then (s, Err(BufReleased))
    else
      var slot := SlotOf(id);
      var was := s.slots[slot];
      (Slab(s.slots[slot := Slot((was.generation + 1) % WORD, None, 0)], s.free + [slot],
            Max(0, s.used - was.charged), map name | name in s.names && s.names[name] != id :: s.names[name],
            s.reserved),
       Ok(()))
  }

  // ----- the ledger ----------------------------------------------------------

  lemma {:induction false} ChargesUpdate(slots: seq<Slot>, i: nat, s: Slot)
    requires i < |slots|
    ensures Charges(slots[i := s]) == Charges(slots) - slots[i].charged + s.charged
    decreases |slots|
  {
    var n := |slots| - 1;
    if i == n {
      assert slots[i := s][..n] == slots[..n];
    } else {
      assert slots[i := s][..n] == slots[..n][i := s];
      ChargesUpdate(slots[..n], i, s);
    }
  }

  lemma ChargesAppend(slots: seq<Slot>, s: Slot)
    ensures Charges(slots + [s]) == Charges(slots) + s.charged
  {
    assert (slots + [s])[..|slots|] == slots;
  }

  lemma {:induction false} ChargeIn(slots: seq<Slot>, i: nat)
    requires i < |slots|
    ensures slots[i].charged <= Charges(slots)
    decreases |slots|
  {
    if i < |slots| - 1 {
      ChargeIn(slots[..|slots| - 1], i);
    }
  }

  /** Every slot but the screen's costs a byte, so a full slab is a small one: a
      slot's index never outgrows its word. */
  lemma {:induction false} SlotsAreCharged(slots: seq<Slot>)
    requires forall i :: 0 < i < |slots| ==> slots[i].charged > 0
    ensures |slots| <= Charges(slots) + 1
    decreases |slots|
  {
    if |slots| > 1 {
      SlotsAreCharged(slots[..|slots| - 1]);
    }
  }

  // ----- each operation keeps the slab ---------------------------------------

  lemma NewIsValid(width: nat, height: nat)
    requires width <= MAX_DIM && height <= MAX_DIM
    ensures NewSlab(width, height).Valid()
  {
    assert Charges([Slot(0, Some(Info(U8, width, height)), 0)]) == 0 by {
      ChargesAppend([], Slot(0, Some(Info(U8, width, height)), 0));
      assert [] + [Slot(0, Some(Info(U8, width, height)), 0)] == [Slot(0, Some(Info(U8, width, height)), 0)];
    }
  }

  /** With no slot free every slot is charged, so there is room for one more. */
  lemma NewSlot(s: Slab, info: Info)
    requires s.Valid() && s.free == [] && info.Sized() && info.Bytes() <= s.reserved
    ensures var (after, _) := Inserted(s, info);
            |after.slots| <= GRAPHICS_CAP + 1 && Charges(after.slots) == Charges(s.slots) + info.Bytes()
  {
    hide Info.Bytes, Charges;
    SizedCosts(info);
    forall i | 0 < i < |s.slots|
      ensures s.slots[i].charged > 0
    {
      assert i !in s.free;
      SizedCosts(s.slots[i].buf.value);
    }
    SlotsAreCharged(s.slots);
    ChargesAppend(s.slots, Slot(0, Some(info), info.Bytes()));
  }

  lemma LastTaken(free: seq<nat>)
    requires free != [] && forall i, j :: 0 <= i < j < |free| ==> free[i] != free[j]
    ensures forall i :: i in free[..|free| - 1] <==> i in free && i != free[|free| - 1]
  {
    forall i
      ensures i in free[..|free| - 1] <==> i in free && i != free[|free| - 1]
    {
      if i in free && i != free[|free| - 1] {
        var k :| 0 <= k < |free| && free[k] == i;
        assert free[..|free| - 1][k] == i;
      }
    }
  }

  /** The handle given out is new to everyone: no live handle had it, every live
      handle keeps its buffer. */
  lemma InsertReads(s: Slab, info: Info)
    requires s.Valid() && info.Sized() && info.Bytes() <= s.reserved
    ensures var (after, id) := Inserted(s, info);
            && !s.Live(id) && after.Get(id) == Ok(info)
            && forall other :: other != id ==> after.Get(other) == s.Get(other)
  {
    hide Info.Bytes, Charges, SlotOf, GenerationOf, MakeId;
    var after := Inserted(s, info).0;
    if s.free == [] {
      PutAt(s, after, info, |s.slots|, 0);
    } else {
      var slot := s.free[|s.free| - 1];
      assert slot in s.free;
      PutAt(s, after, info, slot, s.slots[slot].generation);
    }
  }

  /** The names stand for live buffers still. */
  lemma InsertNames(s: Slab, info: Info)
    requires s.Valid() && info.Sized() && info.Bytes() <= s.reserved
    ensures var after := Inserted(s, info).0;
            after.names == s.names && forall name :: name in s.names ==> after.Live(s.names[name])
  {
    hide Info.Bytes, Charges, MakeId, SlotOf, GenerationOf;
    InsertReads(s, info);
    forall name | name in s.names
      ensures Inserted(s, info).0.Live(s.names[name])
    {
      assert s.Live(s.names[name]);
    }
  }

  lemma InsertNew(s: Slab, info: Info)
    requires s.Valid() && s.free == [] && info.Sized() && info.Bytes() <= s.reserved
    ensures Inserted(s, info).0.Valid()
  {
    hide Info.Bytes, Charges, MakeId, SlotOf, GenerationOf, Slab.Live;
    NewSlot(s, info);
    InsertNames(s, info);
    forall i | 0 <= i < |s.slots|
      ensures s.slots[i].buf.Some?
    {
      assert i !in s.free;
    }
  }

  lemma InsertReused(s: Slab, info: Info)
    requires s.Valid() && s.free != [] && info.Sized() && info.Bytes() <= s.reserved
    ensures Inserted(s, info).0.Valid()
  {
    hide Info.Bytes, Charges, MakeId, SlotOf, GenerationOf, Slab.Live;
    InsertNames(s, info);
    LastTaken(s.free);
    var slot := s.free[|s.free| - 1];
    assert slot in s.free && slot != 0;
    ChargesUpdate(s.slots, slot, s.slots[slot].(buf := Some(info), charged := info.Bytes()));
    var after := Inserted(s, info).0;
    forall i
      ensures i in after.free <==> 0 <= i < |after.slots| && after.slots[i].buf.None?
    {
      assert i in after.free <==> i in s.free && i != slot;
    }
  }

  /** And the slab stays what it must be. */
  lemma InsertKeeps(s: Slab, info: Info)
    requires s.Valid() && info.Sized() && info.Bytes() <= s.reserved
    ensures var (after, id) := Inserted(s, info);
            && after.Valid() && !s.Live(id) && after.Get(id) == Ok(info)
            && forall other :: other != id ==> after.Get(other) == s.Get(other)
  {
    hide Info.Bytes, Inserted, Slab.Valid, Slab.Get;
    FreeInRange(s);
    InsertReads(s, info);
    if s.free == [] {
      InsertNew(s, info);
    } else {
      InsertReused(s, info);
    }
  }

  /** Only the handle of the slot filled reads differently. */
  lemma PutAt(s: Slab, after: Slab, info: Info, slot: nat, generation: nat)
    requires slot <= |s.slots| <= GRAPHICS_CAP + 1 && slot < |after.slots| && slot < WORD
    requires |after.slots| == Max(|s.slots|, slot + 1)
    requires slot < |s.slots| ==> s.slots[slot].buf.None? && s.slots[slot].generation == generation
    requires after.slots[slot].buf == Some(info) && after.slots[slot].generation == generation
    requires forall i :: 0 <= i < |s.slots| && i != slot ==> after.slots[i] == s.slots[i]
    ensures var id := MakeId(slot, generation);
            && !s.Live(id) && after.Get(id) == Ok(info)
            && forall other :: other != id ==> after.Get(other) == s.Get(other)
  {
    hide SlotOf, GenerationOf, MakeId;
    MakeIdReads(slot, generation);
    forall other | other != MakeId(slot, generation)
      ensures after.Get(other) == s.Get(other)
    {
      IdIsMade(other);
    }
  }

  lemma ReserveKeeps(s: Slab, bytes: nat)
    requires s.Valid()
    ensures Reserved(s, bytes).0.Valid()
    ensures forall id :: Reserved(s, bytes).0.Get(id) == s.Get(id)
  {
    hide Charges, SlotOf, GenerationOf;
  }

  lemma UnreserveKeeps(s: Slab, bytes: nat)
    requires s.Valid() && bytes <= s.reserved
    ensures Unreserved(s, bytes).Valid() && Unreserved(s, bytes).used == s.used - bytes
    ensures forall id :: Unreserved(s, bytes).Get(id) == s.Get(id)
  {
    hide Charges, SlotOf, GenerationOf;
  }

  lemma AllocKeeps(s: Slab, info: Info)
    requires s.Valid()
    ensures var (after, r) := Allocated(s, info);
            && after.Valid()
            && (r.Ok? <==> info.Sized() && s.used + info.Bytes() <= GRAPHICS_CAP)
            && match r
               case Ok(id) =>
                 && !s.Live(id) && after.Get(id) == Ok(info) && after.used == s.used + info.Bytes()
                 && forall other :: other != id ==> after.Get(other) == s.Get(other)
               case Err(_) => after == s
  {
    hide Slab.Valid, Inserted, Info.Bytes, Slab.Get;
    if info.Sized() && s.used + info.Bytes() <= GRAPHICS_CAP {
      var s' := Reserved(s, info.Bytes()).0;
      ReserveKeeps(s, info.Bytes());
      FreeInRange(s');
      InsertKeeps(s', info);
      InsertUses(s', info);
    }
  }

  lemma FreeInRange(s: Slab)
    requires s.Valid()
    ensures s.InRange()
  {
  }

  lemma InsertUses(s: Slab, info: Info)
    requires s.InRange() && info.Bytes() <= s.reserved
    ensures Inserted(s, info).0.used == s.used
  {
  }

  /** A free gives back exactly what was charged, kills that handle and no other,
      and never touches the screen. */
  lemma FreeKeeps(s: Slab, id: BufId)
    requires s.Valid()
    ensures var (after, r) := Freed(s, id);
            && after.Valid()
            && (r.Ok? <==> id != SCREEN && s.Live(id))
            && match r
               case Ok(_) =>
                 && after.used == s.used - s.Get(id).value.Bytes() && !after.Live(id)
                 && forall other :: other != id ==> after.Get(other) == s.Get(other)
               case Err(e) => after == s && e == if id == SCREEN then BufProtected else BufReleased
  {
    hide Info.Bytes, Charges, SlotOf, GenerationOf, MakeId;
    if id != SCREEN && s.Live(id) {
      var slot := SlotOf(id);
      IdIsMade(id);
      ScreenIsZero();
      assert slot != 0;
      var (after, _) := Freed(s, id);
      ChargesUpdate(s.slots, slot, after.slots[slot]);
      ChargeIn(s.slots, slot);
      FreedList(s.free, slot);
      forall other | other != id
        ensures after.Get(other) == s.Get(other)
      {
        IdIsMade(other);
      }
    }
  }

  /** A free forgets the names of that buffer and keeps every other, with what it
      stands for; nothing reserved is touched. */
  lemma FreeKeepsNames(s: Slab, id: BufId, name: string)
    requires s.Valid()
    ensures var after := Freed(s, id).0;
            && (name in after.names <==> name in s.names && (id == SCREEN || !s.Live(id) || s.names[name] != id))
            && (name in after.names ==> after.names[name] == s.names[name])
            && after.reserved == s.reserved
  {
    hide Slab.Get;
  }

  /** A slot is added only when none is free, and one is freed exactly by a free. */
  lemma SlotsAreReused(s: Slab, info: Info, id: BufId)
    requires s.Valid() && info.Sized() && info.Bytes() <= s.reserved
    ensures var after := Inserted(s, info).0;
            && |after.slots| == |s.slots| + (if s.free == [] then 1 else 0)
            && |after.free| == |s.free| - (if s.free == [] then 0 else 1)
    ensures var (after, r) := Freed(s, id);
            && |after.slots| == |s.slots| && |after.free| == |s.free| + (if r.Ok? then 1 else 0)
  {
    hide Info.Bytes, SlotOf, GenerationOf, MakeId;
  }

  /** What a buffer costs, and how far the eight mebibytes go: bytes, 4096 by 2048,
      spend them to the last, and so do words of four bytes, 2048 by 1024; a row or
      a column more is refused, and so is a side past 4096. */
  lemma BudgetIsSpent(s: Slab)
    requires s.Valid() && s.used == 0
    ensures Allocated(s, Info(U8, 4096, 2048)).0.used == Allocated(s, Info(F32, 2048, 1024)).0.used == 0x80_0000
    ensures Allocated(s, Info(U8, 4096, 2049)).1.Err? && Allocated(s, Info(I16, 4096, 1025)).1.Err?
    ensures Allocated(s, Info(I32, 2048, 1025)).1.Err?
    ensures Allocated(s, Info(U8, 4097, 1)).1 == Err(BadDimensions(4097, 1, 4096))
  {
    hide Inserted, Slab.Valid;
    FreeInRange(s);
    AllocKeeps(s, Info(U8, 4096, 2048));
    AllocKeeps(s, Info(F32, 2048, 1024));
  }

  lemma ScreenIsZero()
    ensures SCREEN == MakeId(0, 0) && SlotOf(SCREEN) == 0 && GenerationOf(SCREEN) == 0
  {
  }

  lemma FreedList(free: seq<nat>, slot: nat)
    requires slot !in free && forall i, j :: 0 <= i < j < |free| ==> free[i] != free[j]
    ensures forall i, j :: 0 <= i < j < |free + [slot]| ==> (free + [slot])[i] != (free + [slot])[j]
    ensures forall i :: i in free + [slot] <==> i in free || i == slot
  {
  }

  /** Two live handles of one slot are one handle, so a pair of buffers is
      borrowed unless the two handles are equal. */
  lemma LiveIsOne(s: Slab, a: BufId, b: BufId)
    requires s.Live(a) && s.Live(b)
    ensures SlotOf(a) == SlotOf(b) <==> a == b
  {
    IdIsMade(a);
    IdIsMade(b);
  }

  // ----- runs ----------------------------------------------------------------

  datatype Op =
    | Alloc(info: Info)
    | Reserve(bytes: nat)
    | Unreserve(bytes: nat)
    | Insert(info: Info)
    | Free(id: BufId)
    | SetName(name: string, id: BufId)

  /** What the slab asks of its callers: a decode ends by inserting or giving
      back what it reserved; a name is for a buffer just loaded. */
  predicate Allowed(s: Slab, op: Op) {
    match op
    case Unreserve(bytes) => bytes <= s.reserved
    case Insert(info) => info.Sized() && info.Bytes() <= s.reserved
    case SetName(_, id) => s.Live(id)
    case _ => true
  }

  function Apply(s: Slab, op: Op): Slab
    requires s.InRange() && Allowed(s, op)
  {
    match op
    case Alloc(info) => Allocated(s, info).0
    case Reserve(bytes) => Reserved(s, bytes).0
    case Unreserve(bytes) => Unreserved(s, bytes)
    case Insert(info) => Inserted(s, info).0
    case Free(id) => Freed(s, id).0
    case SetName(name, id) => s.(names := s.names[name := id])
  }

  lemma ApplyKeeps(s: Slab, op: Op)
    requires s.Valid() && Allowed(s, op)
    ensures Apply(s, op).Valid()
  {
    hide Info.Bytes, Charges, SlotOf, GenerationOf, MakeId, Allocated, Inserted, Freed;
    FreeInRange(s);
    match op {
      case Alloc(info) => AllocKeeps(s, info);
      case Reserve(bytes) => ReserveKeeps(s, bytes);
      case Unreserve(bytes) => UnreserveKeeps(s, bytes);
      case Insert(info) => InsertKeeps(s, info);
      case Free(id) => FreeKeeps(s, id);
      case SetName(name, id) =>
        forall other
          ensures Apply(s, op).Get(other) == s.Get(other)
        {
        }
    }
  }

  /** Every call of the run is allowed where it comes. */
  ghost predicate AllAllowed(s: Slab, run: seq<Op>)
    requires s.Valid()
    decreases |run|
  {
    run == [] || (Allowed(s, run[0]) && (ApplyKeeps(s, run[0]); AllAllowed(Apply(s, run[0]), run[1..])))
  }

  ghost function Ran(s: Slab, run: seq<Op>): (r: Slab)
    requires s.Valid() && AllAllowed(s, run)
    ensures r.Valid()
    decreases |run|
  {
    if run == [] then s else ApplyKeeps(s, run[0]); Ran(Apply(s, run[0]), run[1..])
  }

  /** How many calls of the run free a buffer in this slot. */
  ghost function FreesOf(s: Slab, run: seq<Op>, slot: nat): nat
    requires s.Valid() && AllAllowed(s, run)
    decreases |run|
  {
    if run == [] then 0
    else
      ApplyKeeps(s, run[0]);
      (if run[0].Free? && Freed(s, run[0].id).1.Ok? && SlotOf(run[0].id) == slot then 1 else 0)
      + FreesOf(Apply(s, run[0]), run[1..], slot)
  }

  /** A slot is there for good, and only a free in it moves its generation. */
  lemma GenerationStep(s: Slab, op: Op, slot: nat)
    requires s.Valid() && Allowed(s, op) && slot < |s.slots|
    ensures var after := Apply(s, op);
            && slot < |after.slots|
            && after.slots[slot].generation ==
               (s.slots[slot].generation
                + if op.Free? && Freed(s, op.id).1.Ok? && SlotOf(op.id) == slot then 1 else 0) % WORD
  {
    hide Info.Bytes, Charges, MakeId, SlotOf, GenerationOf;
    FreeInRange(s);
    SmallMod(s.slots[slot].generation, WORD);
  }

  lemma SmallMod(g: nat, m: nat)
    requires g < m
    ensures g % m == g
  {
  }

  lemma {:induction false} GenerationAfter(s: Slab, run: seq<Op>, slot: nat)
    requires s.Valid() && AllAllowed(s, run) && slot < |s.slots|
    ensures var r := Ran(s, run);
            slot < |r.slots| && r.slots[slot].generation == (s.slots[slot].generation + FreesOf(s, run, slot)) % WORD
    decreases |run|
  {
    hide Slab.Valid, Apply, Freed, SlotOf, Allowed;
    if run == [] {
      GenerationFits(s, slot);
    } else {
      FreeInRange(s);
      ApplyKeeps(s, run[0]);
      GenerationStep(s, run[0], slot);
      var after := Apply(s, run[0]);
      GenerationAfter(after, run[1..], slot);
      var g, d := s.slots[slot].generation, FreesOf(after, run[1..], slot);
      ModTwice(g, d);
      ModTwice(g + 1, d);
    }
  }

  lemma GenerationFits(s: Slab, slot: nat)
    requires s.Valid() && slot < |s.slots|
    ensures s.slots[slot].generation % WORD == s.slots[slot].generation
  {
    SmallMod(s.slots[slot].generation, WORD);
  }

  lemma ModTwice(g: nat, d: nat)
    ensures (g % WORD + d) % WORD == (g + d) % WORD
  {
    assert g == g / WORD * WORD + g % WORD;
    DivModShift(g % WORD + d, g / WORD, WORD);
  }

  /** The law of handles. A handle that was live when the run began is live after
      it exactly when its slot holds a buffer and was freed a multiple of 2^32
      times: for fewer, exactly when it was never freed. */
  lemma HandleLives(s: Slab, run: seq<Op>, id: BufId)
    requires s.Valid() && AllAllowed(s, run) && s.Live(id)
    ensures var r, slot := Ran(s, run), SlotOf(id);
            && slot < |r.slots|
            && (r.Live(id) <==> r.slots[slot].buf.Some? && FreesOf(s, run, slot) % WORD == 0)
  {
    hide Slab.Valid, SlotOf, GenerationOf, AllAllowed, Ran, FreesOf;
    var slot, n := SlotOf(id), FreesOf(s, run, SlotOf(id));
    GenerationAfter(s, run, slot);
    GenerationFits(s, slot);
    var g := s.slots[slot].generation;
    GenerationBelow(s, slot);
    Returns(g, n);
  }

  lemma GenerationBelow(s: Slab, slot: nat)
    requires s.Valid() && slot < |s.slots|
    ensures s.slots[slot].generation < WORD
  {
  }

  lemma Returns(g: nat, n: nat)
    requires g < WORD
    ensures (g + n) % WORD == g <==> n % WORD == 0
  {
    assert n == n / WORD * WORD + n % WORD;
    DivModShift(g + n % WORD, n / WORD, WORD);
  }

  /** A freed handle stays dead through any run of fewer than 2^32 frees. */
  lemma FreedStaysDead(s: Slab, id: BufId, run: seq<Op>)
    requires s.Valid() && s.Live(id) && id != SCREEN
    requires AllAllowed(s, [Free(id)] + run) && FreesOf(s, [Free(id)] + run, SlotOf(id)) < WORD
    ensures !Ran(s, [Free(id)] + run).Live(id)
  {
    HandleLives(s, [Free(id)] + run, id);
    assert ([Free(id)] + run)[0] == Free(id);
    assert FreesOf(s, [Free(id)] + run, SlotOf(id)) > 0 by {
      hide Slab.Valid, Apply, SlotOf, GenerationOf;
      FreeKeeps(s, id);
    }
  }

  /** Freeing a buffer and allocating its like puts it back in the same slot. */
  lemma ChurnOnce(s: Slab, slot: nat, info: Info)
    requires s.Valid() && 0 < slot < |s.slots| && s.slots[slot].buf == Some(info)
    ensures var id := MakeId(slot, s.slots[slot].generation);
            && s.Live(id) && SlotOf(id) == slot
            && var freed := Freed(s, id).0;
               var after := Allocated(freed, info).0;
               && Freed(s, id).1.Ok? && freed.Valid() && after.Valid()
               && slot < |after.slots| && after.slots[slot].buf == Some(info)
  {
    hide Charges, MakeId, SlotOf, GenerationOf, Info.Bytes;
    var id := MakeId(slot, s.slots[slot].generation);
    MakeIdReads(slot, s.slots[slot].generation);
    ScreenIsZero();
    FreeKeeps(s, id);
    var freed := Freed(s, id).0;
    AllocKeeps(freed, info);
    assert freed.free[|freed.free| - 1] == slot;
  }

  /** `n` times over, however large. */
  lemma {:induction false} Churn(s: Slab, slot: nat, info: Info, n: nat) returns (run: seq<Op>)
    requires s.Valid() && 0 < slot < |s.slots| && s.slots[slot].buf == Some(info)
    ensures AllAllowed(s, run) && FreesOf(s, run, slot) == n
    ensures slot < |Ran(s, run).slots| && Ran(s, run).slots[slot].buf == Some(info)
    ensures n > 0 ==> run != [] && run[0] == Free(MakeId(slot, s.slots[slot].generation))
    decreases n
  {
    hide Slab.Valid, MakeId, SlotOf, Freed, Allocated, Slab.Live;
    if n == 0 {
      run := [];
    } else {
      ChurnOnce(s, slot, info);
      FreeInRange(s);
      var free := Free(MakeId(slot, s.slots[slot].generation));
      var freed := Apply(s, free);
      FreeInRange(freed);
      var rest := Churn(Apply(freed, Alloc(info)), slot, info, n - 1);
      var more := [Alloc(info)] + rest;
      assert more[0] == Alloc(info) && more[1..] == rest;
      assert AllAllowed(freed, more);
      run := [free] + more;
      assert run[0] == free && run[1..] == more;
    }
  }

  /** So a released handle can be mistaken for its successor, after 2^32 frees in
      one slot: whatever buffer is live, some run frees it and revives its handle. */
  lemma MistakenAtWrap(s: Slab, id: BufId) returns (run: seq<Op>)
    requires s.Valid() && s.Live(id) && SlotOf(id) != 0
    ensures AllAllowed(s, run) && run != [] && run[0] == Free(id) && Ran(s, run).Live(id)
  {
    hide AllAllowed, Ran, FreesOf;
    IdIsMade(id);
    run := Churn(s, SlotOf(id), s.slots[SlotOf(id)].buf.value, WORD);
    HandleLives(s, run, id);
  }

  // ----- the slab itself -----------------------------------------------------

  class Resources {
    var slots: seq<Slot>
    var free: seq<nat>
    var used: nat
    var names: map<string, BufId>
    ghost var reserved: nat

    ghost function View(): Slab
      reads this
    {
      Slab(slots, free, used, names, reserved)
    }

    constructor (width: nat, height: nat)
      ensures View() == NewSlab(width, height)
    {
      slots, free, used, names := [Slot(0, Some(Info(U8, width, height)), 0)], [], 0, map[];
      reserved := 0;
    }

    method Alloc(kind: Kind, width: nat, height: nat) returns (r: Result<BufId>)
      requires View().Valid()
      modifies this
      ensures (View(), r) == Allocated(old(View()), Info(kind, width, height))
    {
      if width == 0 || height == 0 || width > MAX_DIM || height > MAX_DIM {
        return Err(BadDimensions(width, height, MAX_DIM));
      }
      var bytes := width * height * ElementBytes(kind);
      var booked := Reserve(bytes);
      match booked {
        case Err(e) => return Err(e);
        case Ok(_) =>
      }
      var id := Insert(Info(kind, width, height));
      r := Ok(id);
    }

    method Reserve(bytes: nat) returns (r: Result<()>)
      modifies this
      ensures (View(), r) == Reserved(old(View()), bytes)
    {
      if used + bytes <= GRAPHICS_CAP {
        used := used + bytes;
        reserved := reserved + bytes;
        r := Ok(());
      } else {
        r := Err(BudgetExceeded(bytes, used, GRAPHICS_CAP));
      }
    }

    method Unreserve(bytes: nat)
      requires bytes <= reserved
      modifies this
      ensures View() == Unreserved(old(View()), bytes)
    {
      used := Max(0, used - bytes);
      reserved := reserved - bytes;
    }

    method Insert(info: Info) returns (id: BufId)
      requires View().InRange() && info.Bytes() <= reserved
      modifies this
      ensures (View(), id) == Inserted(old(View()), info)
    {
      hide Info.Bytes, MakeId;
      reserved := reserved - info.Bytes();
      if free != [] {
        var slot := free[|free| - 1];
        assert slot in free;
        free := free[..|free| - 1];
        slots := slots[slot := slots[slot].(buf := Some(info), charged := info.Bytes())];
        id := MakeId(slot, slots[slot].generation);
      } else {
        slots := slots + [Slot(0, Some(info), info.Bytes())];
        id := MakeId(|slots| - 1, 0);
      }
    }

    method Free(id: BufId) returns (r: Result<()>)
      modifies this
      ensures (View(), r) == Freed(old(View()), id)
    {
      if id == SCREEN {
        return Err(BufProtected);
      }
      var slot := SlotOf(id);
      if slot >= |slots| || slots[slot].generation != GenerationOf(id) || slots[slot].buf.None? {
        return Err(BufReleased);
      }
      used := Max(0, used - slots[slot].charged);
      slots := slots[slot := Slot((slots[slot].generation + 1) % WORD, None, 0)];
      free := free + [slot];
      names := map name | name in names && names[name] != id :: names[name];
      r := Ok(());
    }

    method Get(id: BufId) returns (r: Result<Info>)
      ensures r == View().Get(id)
    {
      var slot := SlotOf(id);
      if slot >= |slots| || slots[slot].generation != GenerationOf(id) || slots[slot].buf.None? {
        r := Err(BufReleased);
      } else {
        r := Ok(slots[slot].buf.value);
      }
    }

    /** Two buffers, the first to write. */
    method PairMut(dst: BufId, src: BufId) returns (r: Result<(Info, Info)>)
      ensures match (View().Get(dst), View().Get(src))
              case (Ok(d), Ok(s)) => r == if dst == src then Err(Aliased) else Ok((d, s))
              case _ => r == Err(BufReleased)
    {
      var d := Get(dst);
      var s := Get(src);
      if d.Err? || s.Err? {
        return Err(BufReleased);
      }
      LiveIsOne(View(), dst, src);
      r := if SlotOf(dst) == SlotOf(src) then Err(Aliased) else Ok((d.value, s.value));
    }

    /** The buffer a name was loaded into, if it is still there. */
    method Find(name: string) returns (id: Option<BufId>)
      requires View().Valid()
      ensures id == if name in names then Some(names[name]) else None
    {
      if name !in names {
        return None;
      }
      var r := Get(names[name]);
      id := if r.Ok? then Some(names[name]) else None;
    }

    method SetName(name: string, id: BufId)
      modifies this
      ensures View() == old(View()).(names := old(names)[name := id])
    {
      names := names[name := id];
    }
  }
}
