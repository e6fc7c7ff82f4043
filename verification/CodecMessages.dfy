/** Whole messages: what is encoded decodes to itself, its fields clipped to the
    wire's bounds; what decodes encodes to the bytes it came from. */
module CodecMessages {
  import opened Numbers
  import opened Wire
  import opened NetTypes
  import opened Message
  import opened Codec
  import opened Wrappers
  import Snapshot
  import Utf8

  // ----- lists ---------------------------------------------------------------------------

  ghost predicate GoodSaves(saves: seq<Save>) {
    && |saves| <= SLOT_COUNT
    && (forall s :: s in saves ==> s.slot < SLOT_COUNT && |s.data| <= SLOT_BYTES)
    && (forall i, j :: 0 <= i < j < |saves| ==> saves[i].slot != saves[j].slot)
  }

  lemma {:induction false} SavesNRoundTrip(acc: seq<Save>, xs: seq<Save>, rest: Bytes)
    requires GoodSaves(acc + xs)
    ensures GetSavesN(|xs|, acc, PutAll(PutSave, xs) + rest) == Got(acc + xs, rest)
    decreases |xs|
  {
    hide GetBytes, PutBytes;
    if xs == [] {
      assert acc + xs == acc && PutAll(PutSave, xs) + rest == rest;
    } else {
      var (x, all) := (xs[0], acc + xs);
      var tail := PutAll(PutSave, xs[1..]) + rest;
      assert all[|acc|] == x;
      forall s | s in acc
        ensures s.slot != x.slot
      {
        var i :| 0 <= i < |acc| && acc[i] == s;
        assert all[i] == s;
      }
      assert PutAll(PutSave, xs) + rest == U8(x.slot) + (PutBytes(x.data) + tail);
      U8RoundTrip(x.slot, PutBytes(x.data) + tail);
      BytesRoundTrip(x.data, SLOT_BYTES, tail);
      assert acc + [x] + xs[1..] == all;
      SavesNRoundTrip(acc + [x], xs[1..], rest);
    }
  }

  lemma SavesRoundTrip(saves: seq<Save>, rest: Bytes)
    requires GoodSaves(saves)
    ensures GetSaves(PutSaves(saves) + rest) == Got(saves, rest)
  {
    hide GetSavesN, PutAll, Le, GetNum;
    Widths();
    var items := PutAll(PutSave, saves) + rest;
    Assoc(Le(4, |saves|), PutAll(PutSave, saves), rest);
    NumRoundTrip(4, |saves|, items);
    assert [] + saves == saves;
    SavesNRoundTrip([], saves, rest);
  }

  lemma PutSaveFirst(x: Save, xs: seq<Save>)
    ensures PutAll(PutSave, [x] + xs) == PutSave(x) + PutAll(PutSave, xs)
  {
    hide PutSave;
    assert ([x] + xs)[1..] == xs;
  }

  lemma {:induction false} SavesNParsed(n: nat, acc: seq<Save>, b: Bytes)
    requires GoodSaves(acc) && |acc| + n <= SLOT_COUNT && GetSavesN(n, acc, b).Got?
    ensures var r := GetSavesN(n, acc, b);
            && GoodSaves(r.value) && acc <= r.value && |r.value| == |acc| + n
            && b == PutAll(PutSave, r.value[|acc|..]) + r.rest
  {
    hide GetBytes, PutBytes;
    var r := GetSavesN(n, acc, b);
    if n == 0 {
      assert acc[|acc|..] == [];
    } else {
      U8Parsed(b);
      var (slot, r1) := GetU8(b).Extract();
      BytesParsed(SLOT_BYTES, r1);
      var (data, rest) := GetBytes(SLOT_BYTES, r1).Extract();
      var x := Save(slot, data);
      SavesNParsed(n - 1, acc + [x], rest);
      assert r.value[|acc|..] == [x] + r.value[|acc| + 1..];
      PutSaveFirst(x, r.value[|acc| + 1..]);
      assert b == U8(slot) + (PutBytes(data) + rest);
      Assoc(U8(slot), PutBytes(data), rest);
      Assoc(PutSave(x), PutAll(PutSave, r.value[|acc| + 1..]), r.rest);
    }
  }

  lemma SavesParsed(b: Bytes)
    requires GetSaves(b).Got?
    ensures var r := GetSaves(b); GoodSaves(r.value) && b == PutSaves(r.value) + r.rest
  {
    hide GetSavesN, PutAll, Le, GetNum;
    Widths();
    NumParsed(4, b);
    var (count, rest) := GetNum(4, b).Extract();
    SavesNParsed(count, [], rest);
    var r := GetSaves(b);
    assert r.value[0..] == r.value;
    Assoc(Le(4, count), PutAll(PutSave, r.value), r.rest);
  }

  /** A counted list: the count, then the items. */
  lemma CountedRoundTrip<T(!new)>(put: T -> Bytes, get: Bytes -> Parsed<T>, ok: T -> bool, canon: T -> T,
                                  xs: seq<T>, rest: Bytes)
    requires Undoes(put, get, ok, canon) && (forall x :: x in xs ==> ok(x)) && |xs| < U32
    ensures var b := Le(4, |xs|) + PutAll(put, xs) + rest;
            && GetNum(4, b) == Got(|xs|, PutAll(put, xs) + rest)
            && GetN(get, |xs|, [], PutAll(put, xs) + rest) == Got(Mapped(canon, xs), rest)
  {
    hide Le, GetNum, GetN, PutAll, Undoes;
    Widths();
    Assoc(Le(4, |xs|), PutAll(put, xs), rest);
    NumRoundTrip(4, |xs|, PutAll(put, xs) + rest);
    ListRoundTrip(put, get, ok, canon, [], xs, rest);
    assert [] + Mapped(canon, xs) == Mapped(canon, xs);
  }

  lemma CountedParsed<T(!new)>(put: T -> Bytes, get: Bytes -> Parsed<T>, ok: T -> bool, b: Bytes)
    requires Reprints(put, get, ok) && GetNum(4, b).Got?
    requires GetN(get, GetNum(4, b).value, [], GetNum(4, b).rest).Got?
    ensures var r := GetN(get, GetNum(4, b).value, [], GetNum(4, b).rest);
            && (forall x :: x in r.value ==> ok(x)) && |r.value| == GetNum(4, b).value
            && b == Le(4, |r.value|) + PutAll(put, r.value) + r.rest
  {
    hide Le, GetNum, GetN, PutAll, Reprints;
    NumParsed(4, b);
    var (n, rest) := GetNum(4, b).Extract();
    ListParsed(put, get, ok, n, [], rest);
    var r := GetN(get, n, [], rest);
    assert r.value[0..] == r.value;
    Assoc(Le(4, n), PutAll(put, r.value), r.rest);
  }

  ghost predicate GoodEvents(events: seq<Event>) {
    forall e :: e in First(events, MAX_BATCH) ==> GoodEvent(e)
  }

  function CanonEvents(events: seq<Event>): seq<Event> { Mapped(CanonEvent, First(events, MAX_BATCH)) }

  ghost predicate GoodCommands(commands: seq<Command>) {
    forall c :: c in First(commands, MAX_COMMANDS) ==> GoodCommand(c)
  }

  function CanonCommands(commands: seq<Command>): seq<Command> {
    Mapped(CanonCommand, First(commands, MAX_COMMANDS))
  }

  lemma EventsRoundTrip(events: seq<Event>, rest: Bytes)
    requires GoodEvents(events)
    ensures GetEvents(PutEvents(events) + rest) == Got(CanonEvents(events), rest)
  {
    hide GetEvent, PutEvent, GoodEvent, CanonEvent, Undoes, GetN, PutAll, Le, GetNum;
    EventsAreCodec();
    CountedRoundTrip(PutEvent, GetEvent, GoodEvent, CanonEvent, First(events, MAX_BATCH), rest);
  }

  lemma EventsParsed(b: Bytes)
    requires GetEvents(b).Got?
    ensures var r := GetEvents(b);
            GoodEvents(r.value) && CanonEvents(r.value) == r.value && b == PutEvents(r.value) + r.rest
  {
    hide GetEvent, PutEvent, GoodEvent, CanonEvent, Reprints, GetN, PutAll, Le, GetNum;
    EventsAreCodec();
    CountedParsed(PutEvent, GetEvent, e => GoodEvent(e) && CanonEvent(e) == e, b);
  }

  lemma CommandsRoundTrip(commands: seq<Command>, rest: Bytes)
    requires GoodCommands(commands)
    ensures GetCommands(PutCommands(commands) + rest) == Got(CanonCommands(commands), rest)
  {
    hide GetCommand, PutCommand, GoodCommand, CanonCommand, Undoes, GetN, PutAll, Le, GetNum;
    CommandsAreCodec();
    CountedRoundTrip(PutCommand, GetCommand, GoodCommand, CanonCommand, First(commands, MAX_COMMANDS), rest);
  }

  lemma CommandsParsed(b: Bytes)
    requires GetCommands(b).Got?
    ensures var r := GetCommands(b);
            GoodCommands(r.value) && CanonCommands(r.value) == r.value && b == PutCommands(r.value) + r.rest
  {
    hide GetCommand, PutCommand, GoodCommand, CanonCommand, Reprints, GetN, PutAll, Le, GetNum;
    CommandsAreCodec();
    CountedParsed(PutCommand, GetCommand, c => GoodCommand(c) && CanonCommand(c) == c, b);
  }

  // ----- the parts of a frame -----------------------------------------------------------------

  ghost predicate GoodState(s: State) {
    s.Faulted? ==>
      && Utf8.Valid(s.fault.code) && Utf8.Valid(s.fault.file) && Utf8.Valid(s.fault.message)
      && (s.fault.line.Some? ==> s.fault.line.value < U32)
  }

  /** Line 0 and no line are the same on the wire. */
  function CanonState(s: State): State {
    match s
    case Running => Running
    case Faulted(f) =>
      Faulted(Fault(Utf8.Clip(f.code, MAX_CODE_BYTES), Utf8.Clip(f.file, MAX_FILE_NAME),
                    if f.line == Some(0) then None else f.line, Utf8.Clip(f.message, MAX_MESSAGE_BYTES)))
  }

  lemma StateRoundTrip(s: State, rest: Bytes)
    requires GoodState(s)
    ensures GetState(PutState(s) + rest) == Got(CanonState(s), rest)
  {
    hide GetStr, PutBytes, Utf8.Clip, Utf8.Valid, Le, GetNum;
    match s {
      case Running =>
        U8RoundTrip(0, rest);
      case Faulted(f) =>
        Widths();
        var code := PutBytes(Utf8.Clip(f.code, MAX_CODE_BYTES));
        var file := PutBytes(Utf8.Clip(f.file, MAX_FILE_NAME));
        var n := if f.line.Some? then f.line.value else 0;
        var line := Le(4, n);
        var message := PutBytes(Utf8.Clip(f.message, MAX_MESSAGE_BYTES));
        Assoc(U8(1), code + (file + (line + message)), rest);
        Assoc(code, file + (line + message), rest);
        Assoc(file, line + message, rest);
        Assoc(line, message, rest);
        ClippedStr(f.code, MAX_CODE_BYTES, file + (line + (message + rest)));
        ClippedStr(f.file, MAX_FILE_NAME, line + (message + rest));
        NumRoundTrip(4, n, message + rest);
        ClippedStr(f.message, MAX_MESSAGE_BYTES, rest);
    }
  }

  lemma StateParsed(b: Bytes)
    requires GetState(b).Got?
    ensures var r := GetState(b); GoodState(r.value) && CanonState(r.value) == r.value && b == PutState(r.value) + r.rest
  {
    hide GetStr, PutBytes, Utf8.Clip, Utf8.Valid, Le, GetNum;
    U8Parsed(b);
    var (s, rest) := GetState(b).Extract();
    match s {
      case Running =>
      case Faulted(f) =>
        Widths();
        var r0 := GetU8(b).rest;
        StrParsed(MAX_CODE_BYTES, r0);
        var (code, r1) := GetStr(MAX_CODE_BYTES, r0).Extract();
        StrParsed(MAX_FILE_NAME, r1);
        var (file, r2) := GetStr(MAX_FILE_NAME, r1).Extract();
        NumParsed(4, r2);
        var (line, r3) := GetNum(4, r2).Extract();
        StrParsed(MAX_MESSAGE_BYTES, r3);
        var (a, c, d, e) := (PutBytes(code), PutBytes(file), Le(4, line), PutBytes(f.message));
        Assoc(d, e, rest);
        Assoc(c, d + e, rest);
        Assoc(a, c + (d + e), rest);
        Assoc(U8(1), a + (c + (d + e)), rest);
    }
  }

  ghost predicate GoodPicture(p: Picture) {
    && p.frame < U64 && 0 < p.width <= MAX_SIDE && 0 < p.height <= MAX_SIDE
    && |p.pixels| == Area(p.width, p.height) && |p.palette| == PALETTE_SIZE
  }

  lemma PictureRoundTrip(p: Picture, rest: Bytes)
    requires GoodPicture(p)
    ensures GetPicture(PutPicture(p) + rest) == Got(p, rest)
  {
    hide Le, GetNum, GetN, PutAll, PutRgb, GetRgb, Undoes, Area;
    Widths();
    var (frame, width, height) := (PutU64(p.frame), Le(4, p.width), Le(4, p.height));
    var palette := PutAll(PutRgb, p.palette);
    Assoc(frame, width + (height + (p.pixels + palette)), rest);
    Assoc(width, height + (p.pixels + palette), rest);
    Assoc(height, p.pixels + palette, rest);
    Assoc(p.pixels, palette, rest);
    NumRoundTrip(8, p.frame, width + (height + (p.pixels + (palette + rest))));
    NumRoundTrip(4, p.width, height + (p.pixels + (palette + rest)));
    NumRoundTrip(4, p.height, p.pixels + (palette + rest));
    TakeWhole(p.pixels, palette + rest);
    RgbIsCodec();
    ListRoundTrip(PutRgb, GetRgb, c => true, Same, [], p.palette, rest);
    SameAll(p.palette);
    assert [] + p.palette == p.palette;
  }

  lemma TakeWhole(a: Bytes, rest: Bytes)
    ensures Take(|a|, a + rest) == Got(a, rest)
  {
  }

  lemma PictureParsed(b: Bytes)
    requires GetPicture(b).Got?
    ensures var r := GetPicture(b); GoodPicture(r.value) && b == PutPicture(r.value) + r.rest
  {
    hide Le, GetNum, GetN, PutAll, PutRgb, GetRgb, Reprints, Area;
    Widths();
    NumParsed(8, b);
    var (frame, r0) := GetU64(b).Extract();
    NumParsed(4, r0);
    var (width, r1) := GetNum(4, r0).Extract();
    NumParsed(4, r1);
    var (height, r2) := GetNum(4, r1).Extract();
    var (pixels, r3) := Take(Area(width, height), r2).Extract();
    RgbIsCodec();
    ListParsed(PutRgb, GetRgb, c => true, PALETTE_SIZE, [], r3);
    var (p, rest) := GetPicture(b).Extract();
    assert p.palette[0..] == p.palette;
    var (c, d, e, f) := (Le(8, frame), Le(4, width), Le(4, height), PutAll(PutRgb, p.palette));
    Assoc(pixels, f, rest);
    Assoc(e, pixels + f, rest);
    Assoc(d, e + (pixels + f), rest);
    Assoc(c, d + (e + (pixels + f)), rest);
  }

  ghost predicate GoodLog(log: seq<Str>) {
    |log| <= MAX_LOG_LINES + 1 && forall s :: s in log ==> GoodLine(s)
  }

  lemma LogRoundTrip(log: seq<Str>, rest: Bytes)
    requires GoodLog(log)
    ensures GetLog(PutLog(log) + rest) == Got(log, rest)
  {
    hide Le, GetNum, GetN, PutAll, GetLogLine, PutBytes, GoodLine, Undoes;
    LinesAreCodec();
    CountedRoundTrip(PutBytes, GetLogLine, GoodLine, Same, log, rest);
    SameAll(log);
  }

  lemma LogParsed(b: Bytes)
    requires GetLog(b).Got?
    ensures var r := GetLog(b); GoodLog(r.value) && b == PutLog(r.value) + r.rest
  {
    hide Le, GetNum, GetN, PutAll, GetLogLine, PutBytes, GoodLine, Reprints;
    LinesAreCodec();
    CountedParsed(PutBytes, GetLogLine, GoodLine, b);
  }

  ghost predicate GoodProfile(p: Profile) {
    p.budget < U64 && p.luaMem < U64 && |p.cycles| == CATEGORY_COUNT && forall c :: c in p.cycles ==> GoodU64(c)
  }

  lemma ProfileRoundTrip(p: Profile, rest: Bytes)
    requires GoodProfile(p)
    ensures GetProfile(PutProfile(p) + rest) == Got(p, rest)
  {
    hide Le, GetNum, GetN, PutAll, Undoes, GetU64, PutU64;
    var (a, b, c) := (PutU64(p.budget), PutU64(p.luaMem), PutAll(PutU64, p.cycles));
    Assoc(a, b + c, rest);
    Assoc(b, c, rest);
    NumbersAreCodec();
    U64RoundTrip(p.budget, b + (c + rest));
    U64RoundTrip(p.luaMem, c + rest);
    ListRoundTrip(PutU64, GetU64, GoodU64, Same, [], p.cycles, rest);
    SameAll(p.cycles);
    assert [] + p.cycles == p.cycles;
  }

  lemma U64RoundTrip(v: nat, rest: Bytes)
    requires v < U64
    ensures GetU64(PutU64(v) + rest) == Got(v, rest)
  {
    hide GetNum, Le;
    Widths();
    NumRoundTrip(8, v, rest);
  }

  lemma U64Parsed(b: Bytes)
    requires GetU64(b).Got?
    ensures GetU64(b).value < U64 && b == PutU64(GetU64(b).value) + GetU64(b).rest
  {
    hide GetNum, Le;
    Widths();
    NumParsed(8, b);
  }

  lemma ProfileParsed(b: Bytes)
    requires GetProfile(b).Got?
    ensures var r := GetProfile(b); GoodProfile(r.value) && b == PutProfile(r.value) + r.rest
  {
    hide Le, GetNum, GetN, PutAll, Reprints, GetU64, PutU64;
    U64Parsed(b);
    var (budget, r0) := GetU64(b).Extract();
    U64Parsed(r0);
    var (luaMem, r1) := GetU64(r0).Extract();
    NumbersAreCodec();
    ListParsed(PutU64, GetU64, GoodU64, CATEGORY_COUNT, [], r1);
    var (p, rest) := GetProfile(b).Extract();
    assert p.cycles[0..] == p.cycles;
    forall c | c in p.cycles
      ensures GoodU64(c)
    {
      var i :| 0 <= i < |p.cycles| && p.cycles[i] == c;
    }
    Assoc(PutU64(luaMem), PutAll(PutU64, p.cycles), rest);
    Assoc(PutU64(budget), PutU64(luaMem) + PutAll(PutU64, p.cycles), rest);
  }

  ghost predicate GoodAudio(audio: seq<int>) {
    forall v :: v in First(audio, MAX_AUDIO_VALUES) ==> GoodI16(v)
  }

  lemma AudioRoundTrip(audio: seq<int>, rest: Bytes)
    requires GoodAudio(audio)
    ensures GetAudio(PutAudio(audio) + rest) == Got(First(audio, MAX_AUDIO_VALUES), rest)
  {
    hide Le, GetNum, GetN, PutAll, GetI16, PutI16, GoodI16, Undoes;
    NumbersAreCodec();
    CountedRoundTrip(PutI16, GetI16, GoodI16, Same, First(audio, MAX_AUDIO_VALUES), rest);
    SameAll(First(audio, MAX_AUDIO_VALUES));
  }

  lemma AudioParsed(b: Bytes)
    requires GetAudio(b).Got?
    ensures var r := GetAudio(b);
            GoodAudio(r.value) && |r.value| <= MAX_AUDIO_VALUES && b == PutAudio(r.value) + r.rest
  {
    hide Le, GetNum, GetN, PutAll, GetI16, PutI16, GoodI16, Reprints;
    NumbersAreCodec();
    CountedParsed(PutI16, GetI16, GoodI16, b);
  }

  ghost predicate GoodFrame(f: OwnedFrame) {
    GoodPicture(f.picture) && GoodState(f.state) && GoodLog(f.log) && GoodProfile(f.profile) && GoodAudio(f.audio)
  }

  function CanonFrame(f: OwnedFrame): OwnedFrame {
    f.(state := CanonState(f.state), audio := First(f.audio, MAX_AUDIO_VALUES))
  }

  lemma FrameRoundTrip(f: OwnedFrame, rest: Bytes)
    requires GoodFrame(f)
    ensures GetFrame(PutFrame(f) + rest) == Got(CanonFrame(f), rest)
  {
    hide GetPicture, PutPicture, GoodPicture, GetState, PutState, GoodState, CanonState;
    hide GetLog, PutLog, GoodLog, GetProfile, PutProfile, GoodProfile, GetAudio, PutAudio, GoodAudio;
    var (a, b, c, d, e) :=
      (PutPicture(f.picture), PutState(f.state), PutLog(f.log), PutProfile(f.profile), PutAudio(f.audio));
    Assoc(a, b + (c + (d + e)), rest);
    Assoc(b, c + (d + e), rest);
    Assoc(c, d + e, rest);
    Assoc(d, e, rest);
    PictureRoundTrip(f.picture, b + (c + (d + (e + rest))));
    StateRoundTrip(f.state, c + (d + (e + rest)));
    LogRoundTrip(f.log, d + (e + rest));
    ProfileRoundTrip(f.profile, e + rest);
    AudioRoundTrip(f.audio, rest);
  }

  lemma FrameParsed(b: Bytes)
    requires GetFrame(b).Got?
    ensures var r := GetFrame(b); GoodFrame(r.value) && CanonFrame(r.value) == r.value && b == PutFrame(r.value) + r.rest
  {
    hide GetPicture, PutPicture, GoodPicture, GetState, PutState, GoodState, CanonState;
    hide GetLog, PutLog, GoodLog, GetProfile, PutProfile, GoodProfile, GetAudio, PutAudio, GoodAudio;
    PictureParsed(b);
    var r0 := GetPicture(b).rest;
    StateParsed(r0);
    var r1 := GetState(r0).rest;
    LogParsed(r1);
    var r2 := GetLog(r1).rest;
    ProfileParsed(r2);
    var r3 := GetProfile(r2).rest;
    AudioParsed(r3);
    var (f, rest) := GetFrame(b).Extract();
    var (p, s, l, q, a) :=
      (PutPicture(f.picture), PutState(f.state), PutLog(f.log), PutProfile(f.profile), PutAudio(f.audio));
    Assoc(q, a, rest);
    Assoc(l, q + a, rest);
    Assoc(s, l + (q + a), rest);
    Assoc(p, s + (l + (q + a)), rest);
  }
}
