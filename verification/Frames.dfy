/** The protocol's two laws for whole messages, and frames on a stream. */
module Frames {
  import opened Numbers
  import opened Wire
  import opened NetTypes
  import opened Message
  import opened Codec
  import opened CodecMessages
  import opened Wrappers
  import Snapshot
  import Utf8

  // ----- messages --------------------------------------------------------------------------

  /** What the program's own types and limits make of a message before it is sent. */
  ghost predicate GoodMsg(m: Msg) {
    match m
    case Load(files, saves, _, invite) =>
      && Snapshot.Snapshot(files) && (forall f :: f in files ==> Utf8.Valid(f.name))
      && GoodSaves(saves) && Utf8.Valid(InviteStr(invite))
    case Step(buttons, events) => buttons < U16 && GoodEvents(events)
    case Stop => true
    case Ready(width, height) => width < U32 && height < U32
    case FrameOut(frame, saves, commands, netRoom) =>
      GoodFrame(frame) && GoodSaves(saves) && GoodCommands(commands) && netRoom <= MAX_BATCH
    case Error(code, message) => Utf8.Valid(code) && Utf8.Valid(message)
  }

  /** The message with its fields clipped to the wire's bounds. */
  function CanonMsg(m: Msg): Msg {
    match m
    case Load(files, saves, permitted, invite) =>
      var s := Utf8.Clip(InviteStr(invite), MAX_TICKET);
      Load(files, saves, permitted, if s == [] then None else Some(s))
    case Step(buttons, events) => Step(buttons, CanonEvents(events))
    case Stop => Stop
    case Ready(width, height) => m
    case FrameOut(frame, saves, commands, netRoom) =>
      FrameOut(CanonFrame(frame), saves, CanonCommands(commands), netRoom)
    case Error(code, message) =>
      Error(Utf8.Clip(code, MAX_CODE_BYTES), Utf8.Clip(message, MAX_MESSAGE_BYTES))
  }

  lemma LoadRoundTrip(m: Msg)
    requires m.Load? && GoodMsg(m)
    ensures Decoded(Body(m)) == Some(CanonMsg(m))
  {
    hide GetNum, Le, GetN, PutAll, GetSaves, PutSaves, GoodSaves, GetStr, PutBytes, Utf8.Clip, Utf8.Valid;
    hide GetEntry, PutEntry, Snapshot.FromEntries, Snapshot.Snapshot, Undoes;
    Widths();
    var Load(files, saves, permitted, invite) := m;
    var invited := PutBytes(Utf8.Clip(InviteStr(invite), MAX_TICKET));
    var rest := PutSaves(saves) + (U8(Flag(permitted)) + invited);
    var entries := PutAll(PutEntry, files);
    SnapshotIsGood(files);
    U8RoundTrip(TAG_LOAD, Le(4, |files|) + (entries + rest));
    Assoc(Le(4, |files|), entries, rest);
    EntriesAreCodec();
    CountedRoundTrip(PutEntry, GetEntry, GoodEntry, Same, files, rest);
    SameAll(files);
    SavesRoundTrip(saves, U8(Flag(permitted)) + invited);
    FlagRoundTrip(permitted, invited);
    ClippedStr(InviteStr(invite), MAX_TICKET, []);
    assert invited + [] == invited;
  }

  lemma SnapshotIsGood(files: seq<Snapshot.Entry>)
    requires Snapshot.Snapshot(files) && forall f :: f in files ==> Utf8.Valid(f.name)
    ensures |files| <= Snapshot.MAX_FILES && (forall f :: f in files ==> GoodEntry(f))
    ensures Snapshot.FromEntries([], files) == Some(files)
  {
    hide Utf8.Valid, Snapshot.FromEntries;
    assert [] + files == files;
    Snapshot.SnapshotRebuilds([], files);
  }

  lemma FrameOutPayload(frame: OwnedFrame, saves: seq<Save>, commands: seq<Command>, netRoom: nat)
    requires GoodFrame(frame) && GoodSaves(saves) && GoodCommands(commands) && netRoom <= MAX_BATCH
    ensures GetFrameOut(PutFrame(frame) + (PutSaves(saves) + (PutCommands(commands) + Le(4, netRoom % U32)))) ==
            Got(FrameOut(CanonFrame(frame), saves, CanonCommands(commands), netRoom), [])
  {
    hide GetNum, Le, GetSaves, PutSaves, GoodSaves, GetFrame, PutFrame, GoodFrame, CanonFrame;
    hide GetCommands, PutCommands, GoodCommands, CanonCommands;
    Widths();
    var r2 := Le(4, netRoom);
    var r1 := PutCommands(commands) + r2;
    FrameRoundTrip(frame, PutSaves(saves) + r1);
    SavesRoundTrip(saves, r1);
    CommandsRoundTrip(commands, r2);
    NumRoundTrip(4, netRoom, []);
    assert r2 + [] == r2;
  }

  lemma FrameOutRoundTrip(m: Msg)
    requires m.FrameOut? && GoodMsg(m)
    ensures Decoded(Body(m)) == Some(CanonMsg(m))
  {
    hide Le, PutSaves, GoodSaves, PutFrame, GoodFrame, CanonFrame, GetFrameOut, GetLoad;
    hide PutCommands, GoodCommands, CanonCommands, U8, GetU8;
    var FrameOut(frame, saves, commands, netRoom) := m;
    U8RoundTrip(TAG_FRAME, PutFrame(frame) + (PutSaves(saves) + (PutCommands(commands) + Le(4, netRoom % U32))));
    FrameOutPayload(frame, saves, commands, netRoom);
  }

  lemma SmallRoundTrip(m: Msg)
    requires !m.Load? && !m.FrameOut? && GoodMsg(m)
    ensures Decoded(Body(m)) == Some(CanonMsg(m))
  {
    hide GetNum, Le, GetStr, PutBytes, Utf8.Clip, Utf8.Valid, GetEvents, PutEvents, GoodEvents, CanonEvents;
    Widths();
    match m {
      case Step(buttons, events) =>
        U8RoundTrip(TAG_STEP, Le(2, buttons) + PutEvents(events));
        NumRoundTrip(2, buttons, PutEvents(events));
        EventsRoundTrip(events, []);
        assert PutEvents(events) + [] == PutEvents(events);
      case Stop =>
        U8RoundTrip(TAG_STOP, []);
        assert U8(TAG_STOP) + [] == U8(TAG_STOP);
      case Ready(width, height) =>
        U8RoundTrip(TAG_READY, Le(4, width) + Le(4, height));
        NumRoundTrip(4, width, Le(4, height));
        NumRoundTrip(4, height, []);
        assert Le(4, height) + [] == Le(4, height);
      case Error(code, message) =>
        var b := PutBytes(Utf8.Clip(message, MAX_MESSAGE_BYTES));
        U8RoundTrip(TAG_ERROR, PutBytes(Utf8.Clip(code, MAX_CODE_BYTES)) + b);
        ClippedStr(code, MAX_CODE_BYTES, b);
        ClippedStr(message, MAX_MESSAGE_BYTES, []);
        assert b + [] == b;
    }
  }

  /** Every message decodes to itself, its fields clipped to the wire's bounds. */
  lemma DecodeOfEncode(m: Msg)
    requires GoodMsg(m)
    ensures Decoded(Body(m)) == Some(CanonMsg(m))
  {
    hide Decoded, Body, GoodMsg, CanonMsg;
    if m.Load? {
      LoadRoundTrip(m);
    } else if m.FrameOut? {
      FrameOutRoundTrip(m);
    } else {
      SmallRoundTrip(m);
    }
  }

  // ----- what a round trip keeps -----------------------------------------------------------

  /** Every field of the state is within its bound, and a fault is not on line 0. */
  predicate StateFits(s: State) {
    s.Faulted? ==>
      && |s.fault.code| <= MAX_CODE_BYTES && |s.fault.file| <= MAX_FILE_NAME
      && |s.fault.message| <= MAX_MESSAGE_BYTES && s.fault.line != Some(0)
  }

  /** Every field is within its bound, no fault is on line 0, and an invite, if there
      is one, is not empty. */
  predicate Fits(m: Msg) {
    match m
    case Load(_, _, _, invite) => invite.Some? ==> 0 < |invite.value| <= MAX_TICKET
    case Step(_, events) => |events| <= MAX_BATCH && forall e :: e in events ==> e.Check()
    case Stop => true
    case Ready(_, _) => true
    case FrameOut(frame, _, commands, _) =>
      && StateFits(frame.state) && |frame.audio| <= MAX_AUDIO_VALUES
      && |commands| <= MAX_COMMANDS && forall c :: c in commands ==> c.Check()
    case Error(code, message) => |code| <= MAX_CODE_BYTES && |message| <= MAX_MESSAGE_BYTES
  }

  lemma EventsKept(events: seq<Event>)
    requires GoodEvents(events)
    ensures CanonEvents(events) == events <==> |events| <= MAX_BATCH && forall e :: e in events ==> e.Check()
  {
    hide Utf8.Valid, Utf8.Clip;
    var es := First(events, MAX_BATCH);
    if |events| <= MAX_BATCH {
      forall i | 0 <= i < |events|
        ensures CanonEvent(events[i]) == events[i] <==> events[i].Check()
      {
        assert events[i] in es;
      }
      if CanonEvents(events) == events {
        forall e | e in events
          ensures e.Check()
        {
          var i :| 0 <= i < |events| && events[i] == e;
          assert Mapped(CanonEvent, es)[i] == CanonEvent(e);
        }
      }
    }
  }

  lemma CommandsKept(commands: seq<Command>)
    requires GoodCommands(commands)
    ensures CanonCommands(commands) == commands <==>
            |commands| <= MAX_COMMANDS && forall c :: c in commands ==> c.Check()
  {
    hide Utf8.Valid, Utf8.Clip;
    var cs := First(commands, MAX_COMMANDS);
    if |commands| <= MAX_COMMANDS {
      forall i | 0 <= i < |commands|
        ensures CanonCommand(commands[i]) == commands[i] <==> commands[i].Check()
      {
        assert commands[i] in cs;
      }
      if CanonCommands(commands) == commands {
        forall c | c in commands
          ensures c.Check()
        {
          var i :| 0 <= i < |commands| && commands[i] == c;
          assert Mapped(CanonCommand, cs)[i] == CanonCommand(c);
        }
      }
    }
  }

  lemma InviteKept(invite: Option<Str>)
    requires Utf8.Valid(InviteStr(invite))
    ensures var s := Utf8.Clip(InviteStr(invite), MAX_TICKET);
            (if s == [] then None else Some(s)) == invite <==> (invite.Some? ==> 0 < |invite.value| <= MAX_TICKET)
  {
    hide Utf8.Valid, Utf8.Clip;
  }

  /** The exact round trip: what is sent is what arrives if and only if it fits. */
  lemma DecodesToItself(m: Msg)
    requires GoodMsg(m)
    ensures Decoded(Body(m)) == Some(m) <==> Fits(m)
  {
    hide Decoded, Body, Utf8.Valid, Utf8.Clip, GoodEvents, CanonEvents, GoodCommands, CanonCommands, GoodSaves;
    DecodeOfEncode(m);
    match m {
      case Load(_, _, _, invite) => InviteKept(invite);
      case Step(_, events) => EventsKept(events);
      case FrameOut(_, _, commands, _) => CommandsKept(commands);
      case _ =>
    }
  }

  /** An empty invite arrives as none, a fault on line 0 as one on no line. */
  lemma EmptyInviteIsNone()
    ensures var m := Load([], [], true, Some([]));
            GoodMsg(m) && Decoded(Body(m)) == Some(Load([], [], true, None))
  {
    var m := Load([], [], true, Some([]));
    assert Snapshot.Snapshot([]) && GoodSaves([]) && Utf8.Valid([]);
    DecodeOfEncode(m);
  }

  lemma LineZeroIsNoLine(m: Msg)
    requires m.FrameOut? && GoodMsg(m) && m.frame.state.Faulted? && m.frame.state.fault.line == Some(0)
    ensures var r := Decoded(Body(m));
            r.Some? && r.value.FrameOut? && r.value.frame.state.Faulted? && r.value.frame.state.fault.line == None
  {
    hide Decoded, Body, Utf8.Valid, Utf8.Clip, CanonCommands;
    DecodeOfEncode(m);
  }

  /** The entries a `Load` body lists, as they are listed. */
  function Listed(b: Bytes): Parsed<seq<Snapshot.Entry>> {
    var (tag, r) :- GetU8(b);
    var (count, rest) :- GetNum(4, r);
    GetN(GetEntry, count, [], rest)
  }

  lemma LoadParsed(b: Bytes)
    requires Decoded(b).Some? && Decoded(b).value.Load?
    ensures Listed(b).Got?
    ensures var (m, entries) := (Decoded(b).value, Listed(b).value);
            && Snapshot.FromEntries([], entries) == Some(m.files)
            && b == Body(m.(files := entries))
            && |entries| <= Snapshot.MAX_FILES && forall e :: e in entries ==> GoodEntry(e)
  {
    hide GetNum, Le, GetN, PutAll, GetSaves, PutSaves, GoodSaves, GetStr, PutBytes, Utf8.Clip, Utf8.Valid;
    hide GetEntry, PutEntry, Snapshot.FromEntries, GetFlag, GoodEntry, Reprints, U8, GetU8, GetEvents, GetFrameOut;
    U8Parsed(b);
    var payload := GetU8(b).rest;
    NumParsed(4, payload);
    Widths();
    var (count, r0) := GetNum(4, payload).Extract();
    EntriesAreCodec();
    CountedParsed(PutEntry, GetEntry, GoodEntry, payload);
    var (entries, r1) := GetN(GetEntry, count, [], r0).Extract();
    SavesParsed(r1);
    var (saves, r2) := GetSaves(r1).Extract();
    FlagParsed(r2);
    var (permitted, r3) := GetFlag(r2).Extract();
    StrParsed(MAX_TICKET, r3);
    var (invite, rest) := GetStr(MAX_TICKET, r3).Extract();
    assert Utf8.Clip(invite, MAX_TICKET) == invite;
    assert PutBytes(invite) + [] == PutBytes(invite);
    Assoc(Le(4, count), PutAll(PutEntry, entries), PutSaves(saves) + (U8(Flag(permitted)) + PutBytes(invite)));
  }

  /** A `Load` that decodes encodes to the bytes it came from exactly when its
      entries were listed in order: the snapshot keeps them sorted. */
  lemma LoadEncodeOfDecode(b: Bytes)
    requires Decoded(b).Some? && Decoded(b).value.Load?
    ensures Listed(b).Got?
    ensures Body(Decoded(b).value) == b <==> Snapshot.Sorted(Listed(b).value)
  {
    hide Decoded, Body, Snapshot.FromEntries, Snapshot.Sorted, Listed, GoodEntry;
    LoadParsed(b);
    var (m, entries) := (Decoded(b).value, Listed(b).value);
    Snapshot.BuiltFrom([], entries);
    Snapshot.OrderIsKept(entries);
    if Snapshot.Sorted(entries) {
      assert m.(files := entries) == m;
    } else if Body(m) == b {
      ListedOf(m.files, m, b);
      ListedOf(entries, m, b);
    }
  }

  /** A body lists the entries it was printed from. */
  lemma ListedOf(files: seq<Snapshot.Entry>, m: Msg, b: Bytes)
    requires m.Load? && b == Body(m.(files := files)) && |files| < U32 && Listed(b).Got?
    requires forall f :: f in files ==> GoodEntry(f)
    ensures Listed(b).value == files
  {
    hide GetNum, Le, GetN, PutAll, PutSaves, PutBytes, Utf8.Clip, GetEntry, PutEntry, GoodEntry, Undoes, U8, GetU8;
    var Load(_, saves, permitted, invite) := m;
    var rest := PutSaves(saves) + (U8(Flag(permitted)) + PutBytes(Utf8.Clip(InviteStr(invite), MAX_TICKET)));
    U8RoundTrip(TAG_LOAD, Le(4, |files|) + (PutAll(PutEntry, files) + rest));
    Assoc(Le(4, |files|), PutAll(PutEntry, files), rest);
    EntriesAreCodec();
    CountedRoundTrip(PutEntry, GetEntry, GoodEntry, Same, files, rest);
    SameAll(files);
  }

  lemma FrameOutParsed(b: Bytes)
    requires Decoded(b).Some? && Decoded(b).value.FrameOut?
    ensures var m := Decoded(b).value; GoodMsg(m) && CanonMsg(m) == m && Body(m) == b
  {
    hide GetNum, Le, GetStr, PutBytes, Utf8.Clip, Utf8.Valid, GetEvents, PutEvents, GoodEvents, CanonEvents;
    hide GetSaves, PutSaves, GoodSaves, GetFrame, PutFrame, GoodFrame, CanonFrame, GetLoad;
    hide GetCommands, PutCommands, GoodCommands, CanonCommands, U8, GetU8;
    Widths();
    U8Parsed(b);
    var payload := GetU8(b).rest;
    FrameParsed(payload);
    var r0 := GetFrame(payload).rest;
    SavesParsed(r0);
    var r1 := GetSaves(r0).rest;
    CommandsParsed(r1);
    var r2 := GetCommands(r1).rest;
    NumParsed(4, r2);
    var netRoom := Decoded(b).value.netRoom;
    assert Le(4, netRoom) + [] == Le(4, netRoom);
  }

  lemma SmallParsed(b: Bytes)
    requires Decoded(b).Some? && !Decoded(b).value.Load? && !Decoded(b).value.FrameOut?
    ensures var m := Decoded(b).value; GoodMsg(m) && CanonMsg(m) == m && Body(m) == b
  {
    hide GetNum, Le, GetStr, PutBytes, Utf8.Clip, Utf8.Valid, GetEvents, PutEvents, GoodEvents, CanonEvents;
    hide GetSaves, PutSaves, GoodSaves, GetFrame, PutFrame, GoodFrame, CanonFrame, GetLoad;
    hide GetCommands, PutCommands, GoodCommands, CanonCommands, U8, GetU8;
    hide GetFrameOut;
    Widths();
    U8Parsed(b);
    var payload := GetU8(b).rest;
    match Decoded(b).value {
      case Step(buttons, events) =>
        NumParsed(2, payload);
        EventsParsed(GetNum(2, payload).rest);
        assert PutEvents(events) + [] == PutEvents(events);
      case Stop =>
        assert U8(TAG_STOP) + [] == U8(TAG_STOP);
      case Ready(width, height) =>
        NumParsed(4, payload);
        NumParsed(4, GetNum(4, payload).rest);
        assert Le(4, height) + [] == Le(4, height);
      case Error(code, message) =>
        StrParsed(MAX_CODE_BYTES, payload);
        StrParsed(MAX_MESSAGE_BYTES, GetStr(MAX_CODE_BYTES, payload).rest);
        assert PutBytes(message) + [] == PutBytes(message);
    }
  }

  /** Any other body that decodes encodes to the same bytes. */
  lemma EncodeOfDecode(b: Bytes)
    requires Decoded(b).Some? && !Decoded(b).value.Load?
    ensures var m := Decoded(b).value; GoodMsg(m) && CanonMsg(m) == m && Body(m) == b
  {
    hide Decoded, GoodMsg, CanonMsg, Body;
    if Decoded(b).value.FrameOut? {
      FrameOutParsed(b);
    } else {
      SmallParsed(b);
    }
  }
}
