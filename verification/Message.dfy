/** The messages between broker and worker, printed and parsed. */
module Message {
  import opened Numbers
  import opened Wire
  import opened NetTypes
  import opened Wrappers
  import Snapshot
  import Utf8

  const SLOT_COUNT := 8
  const SLOT_BYTES := 256 * 1024
  const SAVES_BYTES := SLOT_COUNT * (SLOT_BYTES + 5)
  const MAX_FRAME := Snapshot.MAX_TOTAL_BYTES + Snapshot.MAX_FILES * (8 + 255) + SAVES_BYTES + 1024
  const MAX_SIDE := 1024
  const MAX_AUDIO_VALUES := 1470
  const MAX_CODE_BYTES := 64
  const MAX_FILE_NAME := 255
  const MAX_MESSAGE_BYTES := 4096
  const MAX_LOG_LINES := 256
  const MAX_LOG_LINE_BYTES := 1024
  const PALETTE_SIZE := 128
  const CATEGORY_COUNT := 7

  datatype Save = Save(slot: byte, data: Bytes)

  datatype Fault = Fault(code: Str, file: Str, line: Option<nat>, message: Str)

  datatype State = Running | Faulted(fault: Fault)

  datatype Rgb = Rgb(r: byte, g: byte, b: byte)

  /** One frame, owned, and what the step that made it cost. */
  datatype Picture = Picture(frame: nat, width: nat, height: nat, pixels: Bytes, palette: seq<Rgb>)

  datatype Profile = Profile(budget: nat, luaMem: nat, cycles: seq<nat>)

  datatype OwnedFrame = OwnedFrame(picture: Picture, state: State, log: seq<Str>, profile: Profile, audio: seq<int>)

  datatype Msg =
    Load(files: seq<Snapshot.Entry>, saves: seq<Save>, permitted: bool, invite: Option<Str>)
  | Step(buttons: nat, events: seq<Event>)
  | Stop
  | Ready(width: nat, height: nat)
  | FrameOut(frame: OwnedFrame, saves: seq<Save>, commands: seq<Command>, netRoom: nat)
  | Error(code: Str, message: Str)

  // ----- items -----------------------------------------------------------------------

  function U8(v: byte): Bytes { [v] }

  function GetU8(b: Bytes): Parsed<byte> {
    if b == [] then Refused else Got(b[0], b[1..])
  }

  function PutU64(v: nat): Bytes { Le(8, v % U64) }

  function GetU64(b: Bytes): Parsed<nat> { GetNum(8, b) }

  function Flag(on: bool): byte { if on then 1 else 0 }

  function GetFlag(b: Bytes): Parsed<bool> {
    var (v, rest) :- GetU8(b);
    if v == 0 then Got(false, rest) else if v == 1 then Got(true, rest) else Refused
  }

  function PutRgb(c: Rgb): Bytes { [c.r, c.g, c.b] }

  function GetRgb(b: Bytes): Parsed<Rgb> {
    var (c, rest) :- Take(3, b);
    Got(Rgb(c[0], c[1], c[2]), rest)
  }

  /** The first `max` bytes, or all there are. */
  function Cut(d: Bytes, max: nat): (r: Bytes)
    ensures |r| <= max && (|d| <= max ==> r == d)
  {
    if |d| <= max then d else d[..max]
  }

  function PutEvent(e: Event): Bytes {
    match e
    case Hosting(ticket) => U8(1) + PutBytes(Utf8.Clip(ticket, MAX_TICKET))
    case Connected(peer) => U8(2) + Le(4, peer % U32)
    case Message(from, data) => U8(3) + (Le(4, from % U32) + PutBytes(Cut(data, MAX_DATA)))
    case Disconnected(reason) => U8(4) + PutBytes(ReasonStr(reason))
    case Failed(code, detail) => U8(5) + (PutBytes(CodeStr(code)) + PutBytes(Utf8.Clip(detail, MAX_DETAIL)))
    case Permission(granted) => U8(6) + U8(Flag(granted))
  }

  function GetPeer(b: Bytes): Parsed<nat> {
    var (p, rest) :- GetNum(4, b);
    if p == 1 then Got(1, rest) else Refused
  }

  function GetEventBody(tag: byte, b: Bytes): Parsed<Event> {
    match tag
    case 1 =>
      var (ticket, rest) :- GetStr(MAX_TICKET, b);
      Got(Hosting(ticket), rest)
    case 2 =>
      var (peer, rest) :- GetPeer(b);
      Got(Connected(peer), rest)
    case 3 =>
      var (from, r) :- GetPeer(b);
      var (data, rest) :- GetBytes(MAX_DATA, r);
      Got(Message(from, data), rest)
    case 4 =>
      var (name, rest) :- GetStr(16, b);
      if ParseReason(name).Some? then Got(Disconnected(ParseReason(name).value), rest) else Refused
    case 5 =>
      var (name, r) :- GetStr(MAX_CODE_BYTES, b);
      if ParseCode(name).None? then Refused
      else
        var (detail, rest) :- GetStr(MAX_DETAIL, r);
        Got(Failed(ParseCode(name).value, detail), rest)
    case 6 =>
      var (granted, rest) :- GetFlag(b);
      Got(Permission(granted), rest)
    case _ => Refused
  }

  function GetEvent(b: Bytes): Parsed<Event> {
    var (tag, r) :- GetU8(b);
    var (e, rest) :- GetEventBody(tag, r);
    if e.Check() then Got(e, rest) else Refused
  }

  function PutCommand(c: Command): Bytes {
    match c
    case Host => U8(1)
    case Join(ticket) => U8(2) + PutBytes(Utf8.Clip(ticket, MAX_TICKET))
    case Send(data) => U8(3) + PutBytes(Cut(data, MAX_DATA))
    case Leave => U8(4)
  }

  function GetCommandBody(tag: byte, b: Bytes): Parsed<Command> {
    match tag
    case 1 => Got(Host, b)
    case 2 =>
      var (ticket, rest) :- GetStr(MAX_TICKET, b);
      Got(Join(ticket), rest)
    case 3 =>
      var (data, rest) :- GetBytes(MAX_DATA, b);
      Got(Send(data), rest)
    case 4 => Got(Leave, b)
    case _ => Refused
  }

  function GetCommand(b: Bytes): Parsed<Command> {
    var (tag, r) :- GetU8(b);
    var (c, rest) :- GetCommandBody(tag, r);
    if c.Check() then Got(c, rest) else Refused
  }

  function PutSave(s: Save): Bytes { U8(s.slot) + PutBytes(s.data) }

  function PutEntry(e: Snapshot.Entry): Bytes { PutBytes(e.name) + PutBytes(e.data) }

  function GetEntry(b: Bytes): Parsed<Snapshot.Entry> {
    var (name, r) :- GetStr(255, b);
    var (data, rest) :- GetBytes(Snapshot.MAX_FILE_BYTES, r);
    Got(Snapshot.Entry(name, data), rest)
  }

  function GetLogLine(b: Bytes): Parsed<Str> { GetStr(MAX_LOG_LINE_BYTES + 8, b) }

  // ----- lists with their own rules ----------------------------------------------------

  function PutSaves(saves: seq<Save>): Bytes {
    Le(4, |saves| % U32) + PutAll(PutSave, saves)
  }

  /** Refused at a second entry for a slot, or at one that is too large. */
  function GetSavesN(n: nat, acc: seq<Save>, b: Bytes): Parsed<seq<Save>> {
    if n == 0 then Got(acc, b)
    else
      var (slot, r) :- GetU8(b);
      if slot >= SLOT_COUNT || exists s :: s in acc && s.slot == slot then Refused
      else
        var (data, rest) :- GetBytes(SLOT_BYTES, r);
        GetSavesN(n - 1, acc + [Save(slot, data)], rest)
  }

  function GetSaves(b: Bytes): Parsed<seq<Save>> {
    var (count, rest) :- GetNum(4, b);
    if count > SLOT_COUNT then Refused else GetSavesN(count, [], rest)
  }

  function First<T>(xs: seq<T>, max: nat): (r: seq<T>)
    ensures |r| <= max && (|xs| <= max ==> r == xs)
  {
    if |xs| <= max then xs else xs[..max]
  }

  function PutEvents(events: seq<Event>): Bytes {
    var es := First(events, MAX_BATCH);
    Le(4, |es|) + PutAll(PutEvent, es)
  }

  function GetEvents(b: Bytes): Parsed<seq<Event>> {
    var (count, rest) :- GetNum(4, b);
    if count > MAX_BATCH then Refused else GetN(GetEvent, count, [], rest)
  }

  function PutCommands(commands: seq<Command>): Bytes {
    var cs := First(commands, MAX_COMMANDS);
    Le(4, |cs|) + PutAll(PutCommand, cs)
  }

  function GetCommands(b: Bytes): Parsed<seq<Command>> {
    var (count, rest) :- GetNum(4, b);
    if count > MAX_COMMANDS then Refused else GetN(GetCommand, count, [], rest)
  }

  function PutState(s: State): Bytes {
    match s
    case Running => U8(0)
    case Faulted(f) =>
      U8(1) + (PutBytes(Utf8.Clip(f.code, MAX_CODE_BYTES)) + (PutBytes(Utf8.Clip(f.file, MAX_FILE_NAME)) +
      (Le(4, (if f.line.Some? then f.line.value else 0) % U32) + PutBytes(Utf8.Clip(f.message, MAX_MESSAGE_BYTES)))))
  }

  function GetState(b: Bytes): Parsed<State> {
    var (tag, r0) :- GetU8(b);
    if tag == 0 then Got(Running, r0)
    else if tag == 1 then
      var (code, r1) :- GetStr(MAX_CODE_BYTES, r0);
      var (file, r2) :- GetStr(MAX_FILE_NAME, r1);
      var (line, r3) :- GetNum(4, r2);
      var (message, rest) :- GetStr(MAX_MESSAGE_BYTES, r3);
      Got(Faulted(Fault(code, file, if line == 0 then None else Some(line), message)), rest)
    else Refused
  }

  function PutPicture(p: Picture): Bytes {
    PutU64(p.frame) + (Le(4, p.width % U32) + (Le(4, p.height % U32) + (p.pixels + PutAll(PutRgb, p.palette))))
  }

  function GetPicture(b: Bytes): Parsed<Picture> {
    var (frame, r0) :- GetU64(b);
    var (width, r1) :- GetNum(4, r0);
    var (height, r2) :- GetNum(4, r1);
    if width == 0 || height == 0 || width > MAX_SIDE || height > MAX_SIDE then Refused
    else
      var (pixels, r3) :- Take(Area(width, height), r2);
      var (palette, rest) :- GetN(GetRgb, PALETTE_SIZE, [], r3);
      Got(Picture(frame, width, height, pixels, palette), rest)
  }

  function PutLog(log: seq<Str>): Bytes { Le(4, |log| % U32) + PutAll(PutBytes, log) }

  function GetLog(b: Bytes): Parsed<seq<Str>> {
    var (count, rest) :- GetNum(4, b);
    if count > MAX_LOG_LINES + 1 then Refused else GetN(GetLogLine, count, [], rest)
  }

  function PutProfile(p: Profile): Bytes {
    PutU64(p.budget) + (PutU64(p.luaMem) + PutAll(PutU64, p.cycles))
  }

  function GetProfile(b: Bytes): Parsed<Profile> {
    var (budget, r0) :- GetU64(b);
    var (luaMem, r1) :- GetU64(r0);
    var (cycles, rest) :- GetN(GetU64, CATEGORY_COUNT, [], r1);
    Got(Profile(budget, luaMem, cycles), rest)
  }

  function PutAudio(audio: seq<int>): Bytes {
    var a := First(audio, MAX_AUDIO_VALUES);
    Le(4, |a|) + PutAll(PutI16, a)
  }

  function GetAudio(b: Bytes): Parsed<seq<int>> {
    var (count, rest) :- GetNum(4, b);
    if count > MAX_AUDIO_VALUES then Refused else GetN(GetI16, count, [], rest)
  }

  // ----- messages ------------------------------------------------------------------------

  const TAG_LOAD: byte := 0x01
  const TAG_STEP: byte := 0x02
  const TAG_STOP: byte := 0x03
  const TAG_READY: byte := 0x81
  const TAG_FRAME: byte := 0x82
  const TAG_ERROR: byte := 0x83

  function PutFrame(f: OwnedFrame): Bytes {
    PutPicture(f.picture) + (PutState(f.state) + (PutLog(f.log) + (PutProfile(f.profile) + PutAudio(f.audio))))
  }

  function GetFrame(b: Bytes): Parsed<OwnedFrame> {
    var (picture, r0) :- GetPicture(b);
    var (state, r1) :- GetState(r0);
    var (log, r2) :- GetLog(r1);
    var (profile, r3) :- GetProfile(r2);
    var (audio, rest) :- GetAudio(r3);
    Got(OwnedFrame(picture, state, log, profile, audio), rest)
  }

  function InviteStr(invite: Option<Str>): Str { if invite.Some? then invite.value else [] }

  /** The body of a frame: the tag and the payload. */
  function Body(m: Msg): Bytes {
    match m
    case Load(files, saves, permitted, invite) =>
      U8(TAG_LOAD) + (Le(4, |files| % U32) + (PutAll(PutEntry, files) + (PutSaves(saves) +
      (U8(Flag(permitted)) + PutBytes(Utf8.Clip(InviteStr(invite), MAX_TICKET))))))
    case Step(buttons, events) => U8(TAG_STEP) + (Le(2, buttons % U16) + PutEvents(events))
    case Stop => U8(TAG_STOP)
    case Ready(width, height) => U8(TAG_READY) + (Le(4, width % U32) + Le(4, height % U32))
    case FrameOut(frame, saves, commands, netRoom) =>
      U8(TAG_FRAME) + (PutFrame(frame) + (PutSaves(saves) + (PutCommands(commands) + Le(4, netRoom % U32))))
    case Error(code, message) =>
      U8(TAG_ERROR) + (PutBytes(Utf8.Clip(code, MAX_CODE_BYTES)) + PutBytes(Utf8.Clip(message, MAX_MESSAGE_BYTES)))
  }

  function GetLoad(b: Bytes): (r: Parsed<Msg>)
    ensures r.Got? ==> r.value.Load?
  {
    var (count, r0) :- GetNum(4, b);
    if count > Snapshot.MAX_FILES then Refused
    else
      var (entries, r1) :- GetN(GetEntry, count, [], r0);
      var files := Snapshot.FromEntries([], entries);
      if files.None? then Refused
      else
        var (saves, r2) :- GetSaves(r1);
        var (permitted, r3) :- GetFlag(r2);
        var (invite, rest) :- GetStr(MAX_TICKET, r3);
        Got(Load(files.value, saves, permitted, if invite == [] then None else Some(invite)), rest)
  }

  function GetFrameOut(b: Bytes): (r: Parsed<Msg>)
    ensures r.Got? ==> r.value.FrameOut?
  {
    var (frame, r0) :- GetFrame(b);
    var (saves, r1) :- GetSaves(r0);
    var (commands, r2) :- GetCommands(r1);
    var (netRoom, rest) :- GetNum(4, r2);
    if netRoom > MAX_BATCH then Refused else Got(FrameOut(frame, saves, commands, netRoom), rest)
  }

  function GetPayload(tag: byte, b: Bytes): Parsed<Msg> {
    if tag == TAG_LOAD then GetLoad(b)
    else if tag == TAG_STEP then
      var (buttons, r) :- GetNum(2, b);
      var (events, rest) :- GetEvents(r);
      Got(Step(buttons, events), rest)
    else if tag == TAG_STOP then Got(Stop, b)
    else if tag == TAG_READY then
      var (width, r) :- GetNum(4, b);
      var (height, rest) :- GetNum(4, r);
      Got(Ready(width, height), rest)
    else if tag == TAG_FRAME then GetFrameOut(b)
    else if tag == TAG_ERROR then
      var (code, r) :- GetStr(MAX_CODE_BYTES, b);
      var (message, rest) :- GetStr(MAX_MESSAGE_BYTES, r);
      Got(Error(code, message), rest)
    else Refused
  }

  /** A body decodes when its payload is consumed exactly. */
  function Decoded(body: Bytes): Option<Msg> {
    match GetU8(body)
    case Refused => None
    case Got(tag, payload) =>
      match GetPayload(tag, payload)
      case Refused => None
      case Got(m, rest) => if rest == [] then Some(m) else None
  }
}
