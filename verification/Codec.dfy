/** Printing undone by parsing, and parsing by printing, for every part of a
    message. */
module Codec {
  import opened Numbers
  import opened Wire
  import opened NetTypes
  import opened Message
  import opened Wrappers
  import Snapshot
  import Utf8

  lemma Assoc(a: Bytes, b: Bytes, c: Bytes)
    ensures (a + b) + c == a + (b + c)
  {
  }

  lemma U8RoundTrip(v: byte, rest: Bytes)
    ensures GetU8(U8(v) + rest) == Got(v, rest)
  {
  }

  lemma U8Parsed(b: Bytes)
    ensures GetU8(b).Got? ==> b == U8(GetU8(b).value) + GetU8(b).rest
  {
  }

  lemma FlagRoundTrip(on: bool, rest: Bytes)
    ensures GetFlag(U8(Flag(on)) + rest) == Got(on, rest)
  {
  }

  lemma FlagParsed(b: Bytes)
    ensures GetFlag(b).Got? ==> b == U8(Flag(GetFlag(b).value)) + GetFlag(b).rest
  {
  }

  /** Clipping is where a long string loses its end. */
  lemma ClippedStr(s: Str, max: nat, rest: Bytes)
    requires Utf8.Valid(s) && max < U32
    ensures GetStr(max, PutBytes(Utf8.Clip(s, max)) + rest) == Got(Utf8.Clip(s, max), rest)
    ensures Utf8.Valid(Utf8.Clip(s, max))
  {
    hide Utf8.Valid, Utf8.Clip;
    Utf8.ClipMeans(s, max);
    assert |Utf8.Clip(s, max)| <= max;
    StrRoundTrip(Utf8.Clip(s, max), max, rest);
  }

  // ----- events ------------------------------------------------------------------------

  /** What the wire asks of an event besides its size. */
  ghost predicate GoodEvent(e: Event) {
    match e
    case Hosting(ticket) => Utf8.Valid(ticket)
    case Connected(peer) => peer == 1
    case Message(from, data) => from == 1 && data != []
    case Failed(_, detail) => Utf8.Valid(detail)
    case _ => true
  }

  function CanonEvent(e: Event): Event {
    match e
    case Hosting(ticket) => Hosting(Utf8.Clip(ticket, MAX_TICKET))
    case Message(from, data) => Message(from, Cut(data, MAX_DATA))
    case Failed(code, detail) => Failed(code, Utf8.Clip(detail, MAX_DETAIL))
    case _ => e
  }

  lemma PeerRoundTrip(rest: Bytes)
    ensures GetPeer(Le(4, 1) + rest) == Got(1, rest)
  {
    Widths();
    NumRoundTrip(4, 1, rest);
  }

  lemma ReasonRoundTrip(r: Reason, rest: Bytes)
    ensures GetStr(16, PutBytes(ReasonStr(r)) + rest) == Got(ReasonStr(r), rest)
    ensures ParseReason(ReasonStr(r)) == Some(r)
  {
    hide Utf8.Valid;
    Utf8.AsciiIsValid(ReasonStr(r));
    StrRoundTrip(ReasonStr(r), 16, rest);
    ReasonsApart(r);
  }

  lemma CodeFieldRoundTrip(c: FailCode, rest: Bytes)
    ensures GetStr(MAX_CODE_BYTES, PutBytes(CodeStr(c)) + rest) == Got(CodeStr(c), rest)
    ensures ParseCode(CodeStr(c)) == Some(c)
  {
    hide Utf8.Valid;
    Utf8.AsciiIsValid(CodeStr(c));
    StrRoundTrip(CodeStr(c), MAX_CODE_BYTES, rest);
    CodeRoundTrip(c);
  }

  lemma EventRoundTrip(e: Event, rest: Bytes)
    requires GoodEvent(e)
    ensures GetEvent(PutEvent(e) + rest) == Got(CanonEvent(e), rest)
  {
    hide GetStr, GetBytes, PutBytes, Utf8.Clip, Utf8.Valid, Le, ParseReason, ParseCode, ReasonStr, CodeStr;
    match e {
      case Hosting(ticket) =>
        Assoc(U8(1), PutBytes(Utf8.Clip(ticket, MAX_TICKET)), rest);
        ClippedStr(ticket, MAX_TICKET, rest);
      case Connected(peer) =>
        Assoc(U8(2), Le(4, 1), rest);
        PeerRoundTrip(rest);
      case Message(from, data) =>
        var d := Cut(data, MAX_DATA);
        Assoc(U8(3), Le(4, 1) + PutBytes(d), rest);
        Assoc(Le(4, 1), PutBytes(d), rest);
        PeerRoundTrip(PutBytes(d) + rest);
        BytesRoundTrip(d, MAX_DATA, rest);
      case Disconnected(reason) =>
        Assoc(U8(4), PutBytes(ReasonStr(reason)), rest);
        ReasonRoundTrip(reason, rest);
      case Failed(code, detail) =>
        var d := Utf8.Clip(detail, MAX_DETAIL);
        Assoc(U8(5), PutBytes(CodeStr(code)) + PutBytes(d), rest);
        Assoc(PutBytes(CodeStr(code)), PutBytes(d), rest);
        CodeFieldRoundTrip(code, PutBytes(d) + rest);
        ClippedStr(detail, MAX_DETAIL, rest);
        assert |d| <= MAX_DETAIL;
      case Permission(granted) =>
        Assoc(U8(6), U8(Flag(granted)), rest);
        FlagRoundTrip(granted, rest);
    }
  }

  lemma PeerParsed(b: Bytes)
    ensures GetPeer(b).Got? ==> GetPeer(b).value == 1 && b == Le(4, 1) + GetPeer(b).rest
  {
    NumParsed(4, b);
  }

  lemma EventBodyParsed(tag: byte, b: Bytes)
    requires GetEventBody(tag, b).Got? && GetEventBody(tag, b).value.Check()
    ensures var e := GetEventBody(tag, b).value;
            GoodEvent(e) && CanonEvent(e) == e && U8(tag) + b == PutEvent(e) + GetEventBody(tag, b).rest
  {
    hide GetStr, GetBytes, PutBytes, Utf8.Clip, Utf8.Valid, Le, ParseReason, ParseCode, ReasonStr, CodeStr, GetPeer;
    var (e, rest) := GetEventBody(tag, b).Extract();
    match e {
      case Hosting(ticket) =>
        StrParsed(MAX_TICKET, b);
        Assoc(U8(1), PutBytes(ticket), rest);
      case Connected(peer) =>
        PeerParsed(b);
        Assoc(U8(2), Le(4, 1), rest);
      case Message(from, data) =>
        PeerParsed(b);
        var r := GetPeer(b).rest;
        BytesParsed(MAX_DATA, r);
        Assoc(Le(4, 1), PutBytes(data), rest);
        Assoc(U8(3), Le(4, 1) + PutBytes(data), rest);
      case Disconnected(reason) =>
        StrParsed(16, b);
        ReasonParsed(GetStr(16, b).value);
        Assoc(U8(4), PutBytes(ReasonStr(reason)), rest);
      case Failed(code, detail) =>
        StrParsed(MAX_CODE_BYTES, b);
        var (name, r) := GetStr(MAX_CODE_BYTES, b).Extract();
        CodeParsed(name);
        StrParsed(MAX_DETAIL, r);
        Assoc(PutBytes(name), PutBytes(detail), rest);
        Assoc(U8(5), PutBytes(name) + PutBytes(detail), rest);
      case Permission(granted) =>
        FlagParsed(b);
        Assoc(U8(6), U8(Flag(granted)), rest);
    }
  }

  lemma CodeParsed(s: Str)
    ensures ParseCode(s).Some? ==> s == CodeStr(ParseCode(s).value)
  {
    hide CodeStr;
    FindCodeMeans(s, ALL_CODES);
  }

  lemma EventsAreCodec()
    ensures Undoes(PutEvent, GetEvent, GoodEvent, CanonEvent)
    ensures Reprints(PutEvent, GetEvent, e => GoodEvent(e) && CanonEvent(e) == e)
  {
    hide GetEventBody, PutEvent, GoodEvent, CanonEvent;
    forall e: Event, rest: Bytes | GoodEvent(e)
      ensures GetEvent(PutEvent(e) + rest) == Got(CanonEvent(e), rest)
    {
      EventRoundTrip(e, rest);
    }
    forall b: Bytes | GetEvent(b).Got?
      ensures var e := GetEvent(b).value;
              GoodEvent(e) && CanonEvent(e) == e && b == PutEvent(e) + GetEvent(b).rest
    {
      U8Parsed(b);
      EventBodyParsed(GetU8(b).value, GetU8(b).rest);
    }
  }

  // ----- commands ----------------------------------------------------------------------

  ghost predicate GoodCommand(c: Command) {
    match c
    case Join(ticket) => Utf8.Valid(ticket)
    case Send(data) => data != []
    case _ => true
  }

  function CanonCommand(c: Command): Command {
    match c
    case Join(ticket) => Join(Utf8.Clip(ticket, MAX_TICKET))
    case Send(data) => Send(Cut(data, MAX_DATA))
    case _ => c
  }

  lemma CommandRoundTrip(c: Command, rest: Bytes)
    requires GoodCommand(c)
    ensures GetCommand(PutCommand(c) + rest) == Got(CanonCommand(c), rest)
  {
    hide GetStr, GetBytes, PutBytes, Utf8.Clip, Utf8.Valid;
    match c {
      case Host =>
        U8RoundTrip(1, rest);
      case Join(ticket) =>
        Assoc(U8(2), PutBytes(Utf8.Clip(ticket, MAX_TICKET)), rest);
        ClippedStr(ticket, MAX_TICKET, rest);
        assert |Utf8.Clip(ticket, MAX_TICKET)| <= MAX_TICKET;
      case Send(data) =>
        Assoc(U8(3), PutBytes(Cut(data, MAX_DATA)), rest);
        BytesRoundTrip(Cut(data, MAX_DATA), MAX_DATA, rest);
      case Leave =>
        U8RoundTrip(4, rest);
    }
  }

  lemma CommandParsed(b: Bytes)
    requires GetCommand(b).Got?
    ensures var c := GetCommand(b).value;
            GoodCommand(c) && CanonCommand(c) == c && b == PutCommand(c) + GetCommand(b).rest
  {
    hide GetStr, GetBytes, PutBytes, Utf8.Clip, Utf8.Valid;
    U8Parsed(b);
    var (tag, r) := GetU8(b).Extract();
    var (c, rest) := GetCommand(b).Extract();
    match c {
      case Host =>
      case Join(ticket) =>
        StrParsed(MAX_TICKET, r);
        Assoc(U8(2), PutBytes(ticket), rest);
      case Send(data) =>
        BytesParsed(MAX_DATA, r);
        Assoc(U8(3), PutBytes(data), rest);
      case Leave =>
    }
  }

  lemma CommandsAreCodec()
    ensures Undoes(PutCommand, GetCommand, GoodCommand, CanonCommand)
    ensures Reprints(PutCommand, GetCommand, c => GoodCommand(c) && CanonCommand(c) == c)
  {
    hide GetCommand, PutCommand, GoodCommand, CanonCommand;
    forall c: Command, rest: Bytes | GoodCommand(c)
      ensures GetCommand(PutCommand(c) + rest) == Got(CanonCommand(c), rest)
    {
      CommandRoundTrip(c, rest);
    }
    forall b: Bytes | GetCommand(b).Got?
      ensures var c := GetCommand(b).value;
              GoodCommand(c) && CanonCommand(c) == c && b == PutCommand(c) + GetCommand(b).rest
    {
      CommandParsed(b);
    }
  }

  // ----- plain items ---------------------------------------------------------------------

  function Same<T>(x: T): T { x }

  lemma SameAll<T>(xs: seq<T>)
    ensures Mapped(Same, xs) == xs
  {
  }

  ghost predicate GoodLine(s: Str) { Utf8.Valid(s) && |s| <= MAX_LOG_LINE_BYTES + 8 }

  ghost predicate GoodU64(v: nat) { v < U64 }

  ghost predicate GoodI16(v: int) { -0x8000 <= v < 0x8000 }

  ghost predicate GoodEntry(e: Snapshot.Entry) {
    Utf8.Valid(e.name) && |e.name| <= 255 && |e.data| <= Snapshot.MAX_FILE_BYTES
  }

  lemma LinesAreCodec()
    ensures Undoes(PutBytes, GetLogLine, GoodLine, Same)
    ensures Reprints(PutBytes, GetLogLine, GoodLine)
  {
    hide Utf8.Valid, GetStr, PutBytes;
    forall s: Str, rest: Bytes | GoodLine(s)
      ensures GetLogLine(PutBytes(s) + rest) == Got(s, rest)
    {
      StrRoundTrip(s, MAX_LOG_LINE_BYTES + 8, rest);
    }
    forall b: Bytes | GetLogLine(b).Got?
      ensures GoodLine(GetLogLine(b).value) && b == PutBytes(GetLogLine(b).value) + GetLogLine(b).rest
    {
      StrParsed(MAX_LOG_LINE_BYTES + 8, b);
    }
  }

  lemma NumbersAreCodec()
    ensures Undoes(PutU64, GetU64, GoodU64, Same) && Reprints(PutU64, GetU64, GoodU64)
    ensures Undoes(PutI16, GetI16, GoodI16, Same) && Reprints(PutI16, GetI16, GoodI16)
  {
    hide GetNum, Le, GetI16, PutI16;
    Widths();
    forall v: nat, rest: Bytes | GoodU64(v)
      ensures GetU64(PutU64(v) + rest) == Got(v, rest)
    {
      NumRoundTrip(8, v, rest);
    }
    forall b: Bytes | GetU64(b).Got?
      ensures GoodU64(GetU64(b).value) && b == PutU64(GetU64(b).value) + GetU64(b).rest
    {
      NumParsed(8, b);
    }
    forall v: int, rest: Bytes | GoodI16(v)
      ensures GetI16(PutI16(v) + rest) == Got(v, rest)
    {
      I16RoundTrip(v, rest);
    }
    forall b: Bytes | GetI16(b).Got?
      ensures GoodI16(GetI16(b).value) && b == PutI16(GetI16(b).value) + GetI16(b).rest
    {
      I16Parsed(b);
    }
  }

  lemma RgbIsCodec()
    ensures Undoes(PutRgb, GetRgb, c => true, Same) && Reprints(PutRgb, GetRgb, c => true)
  {
    forall c: Rgb, rest: Bytes
      ensures GetRgb(PutRgb(c) + rest) == Got(c, rest)
    {
      assert (PutRgb(c) + rest)[..3] == PutRgb(c) && (PutRgb(c) + rest)[3..] == rest;
    }
    forall b: Bytes | GetRgb(b).Got?
      ensures b == PutRgb(GetRgb(b).value) + GetRgb(b).rest
    {
      assert b[..3] == PutRgb(GetRgb(b).value);
    }
  }

  lemma EntriesAreCodec()
    ensures Undoes(PutEntry, GetEntry, GoodEntry, Same) && Reprints(PutEntry, GetEntry, GoodEntry)
  {
    hide Utf8.Valid, GetStr, PutBytes, GetBytes;
    forall e: Snapshot.Entry, rest: Bytes | GoodEntry(e)
      ensures GetEntry(PutEntry(e) + rest) == Got(e, rest)
    {
      Assoc(PutBytes(e.name), PutBytes(e.data), rest);
      StrRoundTrip(e.name, 255, PutBytes(e.data) + rest);
      BytesRoundTrip(e.data, Snapshot.MAX_FILE_BYTES, rest);
    }
    forall b: Bytes | GetEntry(b).Got?
      ensures GoodEntry(GetEntry(b).value) && b == PutEntry(GetEntry(b).value) + GetEntry(b).rest
    {
      var (e, rest) := GetEntry(b).Extract();
      StrParsed(255, b);
      BytesParsed(Snapshot.MAX_FILE_BYTES, GetStr(255, b).rest);
      Assoc(PutBytes(e.name), PutBytes(e.data), rest);
    }
  }
}
