/** The decoder: a cursor over a body, every field checked before it is taken. */
module Reading {
  import opened Numbers
  import opened Wire
  import opened NetTypes
  import opened Message
  import opened Codec
  import opened Wrappers
  import Stream
  import Snapshot
  import Utf8

  datatype Result<+T> = Ok(value: T) | ProtoError {
    predicate IsFailure() { ProtoError? }

    function PropagateFailure<U>(): Result<U>
      requires ProtoError?
    {
      ProtoError
    }

    function Extract(): T
      requires Ok?
    {
      value
    }
  }

  /** A method's answer is the parser's: refused alike, or the same value with
      the same bytes left. */
  ghost predicate Answers<T>(r: Result<T>, p: Parsed<T>, rest: Bytes) {
    match p
    case Refused => r.ProtoError?
    case Got(v, left) => r == Ok(v) && rest == left
  }

  class Reader {
    const buf: Bytes
    var pos: nat

    ghost predicate Valid()
      reads this
    {
      pos <= |buf|
    }

    ghost function Rest(): Bytes
      requires Valid()
      reads this
    {
      buf[pos..]
    }

    constructor (body: Bytes)
      ensures Valid() && Rest() == body
    {
      buf, pos := body, 0;
    }

    method TakeBytes(n: nat) returns (r: Result<Bytes>)
      requires Valid()
      modifies this
      ensures Valid() && Answers(r, Take(n, old(Rest())), Rest())
    {
      if |buf| - pos < n {
        return ProtoError;
      }
      var out := buf[pos..pos + n];
      assert out == Rest()[..n] && buf[pos + n..] == Rest()[n..];
      pos := pos + n;
      return Ok(out);
    }

    method Num(n: nat) returns (r: Result<nat>)
      requires Valid()
      modifies this
      ensures Valid() && Answers(r, GetNum(n, old(Rest())), Rest())
    {
      var b :- TakeBytes(n);
      return Ok(FromLe(b));
    }

    method Byte() returns (r: Result<byte>)
      requires Valid()
      modifies this
      ensures Valid() && Answers(r, GetU8(old(Rest())), Rest())
    {
      var b :- TakeBytes(1);
      return Ok(b[0]);
    }

    method Field(max: nat) returns (r: Result<Bytes>)
      requires Valid()
      modifies this
      ensures Valid() && Answers(r, GetBytes(max, old(Rest())), Rest())
    {
      hide FromLe;
      var n :- Num(4);
      if n > max {
        return ProtoError;
      }
      r := TakeBytes(n);
    }

    method Text(max: nat) returns (r: Result<Str>)
      requires Valid()
      modifies this
      ensures Valid() && Answers(r, GetStr(max, old(Rest())), Rest())
    {
      hide GetBytes, Utf8.Valid;
      var b :- Field(max);
      if !Utf8.Valid(b) {
        return ProtoError;
      }
      return Ok(b);
    }

    method OnOff() returns (r: Result<bool>)
      requires Valid()
      modifies this
      ensures Valid() && Answers(r, GetFlag(old(Rest())), Rest())
    {
      var v :- Byte();
      if v == 0 {
        return Ok(false);
      }
      if v == 1 {
        return Ok(true);
      }
      return ProtoError;
    }

    method Saves() returns (r: Result<seq<Save>>)
      requires Valid()
      modifies this
      ensures Valid() && Answers(r, GetSaves(old(Rest())), Rest())
    {
      hide GetNum, GetBytes, GetU8;
      var count :- Num(4);
      if count > SLOT_COUNT {
        return ProtoError;
      }
      ghost var first := Rest();
      var out: seq<Save> := [];
      for i := 0 to count
        invariant Valid() && GetSavesN(count - i, out, Rest()) == GetSavesN(count, [], first)
      {
        var slot :- Byte();
        if slot >= SLOT_COUNT || exists s :: s in out && s.slot == slot {
          return ProtoError;
        }
        var data :- Field(SLOT_BYTES);
        out := out + [Save(slot, data)];
      }
      return Ok(out);
    }

    method Peer() returns (r: Result<nat>)
      requires Valid()
      modifies this
      ensures Valid() && Answers(r, GetPeer(old(Rest())), Rest())
    {
      hide GetNum;
      var p :- Num(4);
      if p != 1 {
        return ProtoError;
      }
      return Ok(1);
    }

    method OneEvent() returns (r: Result<Event>)
      requires Valid()
      modifies this
      ensures Valid() && Answers(r, GetEvent(old(Rest())), Rest())
    {
      hide GetStr, GetBytes, GetPeer, GetFlag, ParseReason, ParseCode, GetU8;
      var tag :- Byte();
      var e: Event;
      match tag {
        case 1 =>
          var ticket :- Text(MAX_TICKET);
          e := Hosting(ticket);
        case 2 =>
          var peer :- Peer();
          e := Connected(peer);
        case 3 =>
          var from :- Peer();
          var data :- Field(MAX_DATA);
          e := Message(from, data);
        case 4 =>
          var name :- Text(16);
          var reason := ParseReason(name);
          if reason.None? {
            return ProtoError;
          }
          e := Disconnected(reason.value);
        case 5 =>
          var name :- Text(MAX_CODE_BYTES);
          var code := ParseCode(name);
          if code.None? {
            return ProtoError;
          }
          var detail :- Text(MAX_DETAIL);
          e := Failed(code.value, detail);
        case 6 =>
          var granted :- OnOff();
          e := Permission(granted);
        case _ =>
          return ProtoError;
      }
      if !e.Check() {
        return ProtoError;
      }
      return Ok(e);
    }

    method Events() returns (r: Result<seq<Event>>)
      requires Valid()
      modifies this
      ensures Valid() && Answers(r, GetEvents(old(Rest())), Rest())
    {
      hide GetNum, GetEvent;
      var count :- Num(4);
      if count > MAX_BATCH {
        return ProtoError;
      }
      ghost var first := Rest();
      var out: seq<Event> := [];
      for i := 0 to count
        invariant Valid() && GetN(GetEvent, count - i, out, Rest()) == GetN(GetEvent, count, [], first)
      {
        var e :- OneEvent();
        out := out + [e];
      }
      return Ok(out);
    }

    method OneCommand() returns (r: Result<Command>)
      requires Valid()
      modifies this
      ensures Valid() && Answers(r, GetCommand(old(Rest())), Rest())
    {
      hide GetStr, GetBytes, GetU8;
      var tag :- Byte();
      var c: Command;
      match tag {
        case 1 => c := Host;
        case 2 =>
          var ticket :- Text(MAX_TICKET);
          c := Join(ticket);
        case 3 =>
          var data :- Field(MAX_DATA);
          c := Send(data);
        case 4 => c := Leave;
        case _ =>
          return ProtoError;
      }
      if !c.Check() {
        return ProtoError;
      }
      return Ok(c);
    }

    method Commands() returns (r: Result<seq<Command>>)
      requires Valid()
      modifies this
      ensures Valid() && Answers(r, GetCommands(old(Rest())), Rest())
    {
      hide GetNum, GetCommand;
      var count :- Num(4);
      if count > MAX_COMMANDS {
        return ProtoError;
      }
      ghost var first := Rest();
      var out: seq<Command> := [];
      for i := 0 to count
        invariant Valid() && GetN(GetCommand, count - i, out, Rest()) == GetN(GetCommand, count, [], first)
      {
        var c :- OneCommand();
        out := out + [c];
      }
      return Ok(out);
    }

    method Entries() returns (r: Result<seq<Snapshot.Entry>>)
      requires Valid()
      modifies this
      ensures Valid()
      ensures match GetNum(4, old(Rest()))
              case Refused => r.ProtoError?
              case Got(count, rest) =>
                if count > Snapshot.MAX_FILES then r.ProtoError?
                else Answers(r, GetN(GetEntry, count, [], rest), Rest())
    {
      hide GetNum, GetStr, GetBytes;
      var count :- Num(4);
      if count > Snapshot.MAX_FILES {
        return ProtoError;
      }
      ghost var first := Rest();
      var out: seq<Snapshot.Entry> := [];
      for i := 0 to count
        invariant Valid() && GetN(GetEntry, count - i, out, Rest()) == GetN(GetEntry, count, [], first)
      {
        var name :- Text(255);
        var data :- Field(Snapshot.MAX_FILE_BYTES);
        out := out + [Snapshot.Entry(name, data)];
      }
      return Ok(out);
    }

    method FrameState() returns (r: Result<State>)
      requires Valid()
      modifies this
      ensures Valid() && Answers(r, GetState(old(Rest())), Rest())
    {
      hide GetNum, GetStr, GetU8;
      var tag :- Byte();
      if tag == 0 {
        return Ok(Running);
      }
      if tag != 1 {
        return ProtoError;
      }
      var code :- Text(MAX_CODE_BYTES);
      var file :- Text(MAX_FILE_NAME);
      var line :- Num(4);
      var message :- Text(MAX_MESSAGE_BYTES);
      return Ok(Faulted(Fault(code, file, if line == 0 then None else Some(line), message)));
    }

    method Screen() returns (r: Result<Picture>)
      requires Valid()
      modifies this
      ensures Valid() && Answers(r, GetPicture(old(Rest())), Rest())
    {
      hide GetNum, Take, Area;
      var frame :- Num(8);
      var width :- Num(4);
      var height :- Num(4);
      if width == 0 || height == 0 || width > MAX_SIDE || height > MAX_SIDE {
        return ProtoError;
      }
      var pixels :- TakeBytes(Area(width, height));
      var palette :- Palette();
      return Ok(Picture(frame, width, height, pixels, palette));
    }

    method Palette() returns (r: Result<seq<Rgb>>)
      requires Valid()
      modifies this
      ensures Valid() && Answers(r, GetN(GetRgb, PALETTE_SIZE, [], old(Rest())), Rest())
    {
      ghost var first := Rest();
      var out: seq<Rgb> := [];
      for i := 0 to PALETTE_SIZE
        invariant Valid() && GetN(GetRgb, PALETTE_SIZE - i, out, Rest()) == GetN(GetRgb, PALETTE_SIZE, [], first)
      {
        var c :- TakeBytes(3);
        out := out + [Rgb(c[0], c[1], c[2])];
      }
      return Ok(out);
    }

    method Log() returns (r: Result<seq<Str>>)
      requires Valid()
      modifies this
      ensures Valid() && Answers(r, GetLog(old(Rest())), Rest())
    {
      hide GetNum, GetStr;
      var count :- Num(4);
      if count > MAX_LOG_LINES + 1 {
        return ProtoError;
      }
      ghost var first := Rest();
      var out: seq<Str> := [];
      for i := 0 to count
        invariant Valid() && GetN(GetLogLine, count - i, out, Rest()) == GetN(GetLogLine, count, [], first)
      {
        var line :- Text(MAX_LOG_LINE_BYTES + 8);
        out := out + [line];
      }
      return Ok(out);
    }

    method Cost() returns (r: Result<Profile>)
      requires Valid()
      modifies this
      ensures Valid() && Answers(r, GetProfile(old(Rest())), Rest())
    {
      hide GetNum;
      var budget :- Num(8);
      var luaMem :- Num(8);
      ghost var first := Rest();
      var cycles: seq<nat> := [];
      for i := 0 to CATEGORY_COUNT
        invariant Valid() && GetN(GetU64, CATEGORY_COUNT - i, cycles, Rest()) == GetN(GetU64, CATEGORY_COUNT, [], first)
      {
        var c :- Num(8);
        cycles := cycles + [c];
      }
      return Ok(Profile(budget, luaMem, cycles));
    }

    /** The values are taken in one piece and then read out of it. */
    method Audio() returns (r: Result<seq<int>>)
      requires Valid()
      modifies this
      ensures Valid() && Answers(r, GetAudio(old(Rest())), Rest())
    {
      hide GetNum, GetI16;
      var values :- Num(4);
      if values > MAX_AUDIO_VALUES {
        return ProtoError;
      }
      ghost var first := Rest();
      AudioWidth(values, first);
      var chunk :- TakeBytes(values * 2);
      var out: seq<int> := [];
      for i := 0 to values
        invariant Valid() && Rest() == first[values * 2..]
        invariant GetN(GetI16, values - i, out, first[i * 2..]) == GetN(GetI16, values, [], first)
      {
        OneValue(first, chunk, i);
        out := out + [Signed(FromLe(chunk[i * 2..i * 2 + 2]))];
      }
      return Ok(out);
    }

    method Frame() returns (r: Result<OwnedFrame>)
      requires Valid()
      modifies this
      ensures Valid() && Answers(r, GetFrame(old(Rest())), Rest())
    {
      hide GetPicture, GetState, GetLog, GetProfile, GetAudio;
      var picture :- Screen();
      var state :- FrameState();
      var log :- Log();
      var profile :- Cost();
      var audio :- Audio();
      return Ok(OwnedFrame(picture, state, log, profile, audio));
    }
  }

  function Signed(u: nat): int { if u >= 0x8000 then u - U16 else u }

  lemma AudioWidth(values: nat, b: Bytes)
    ensures GetN(GetI16, values, [], b).Got? <==> values * 2 <= |b|
    ensures GetN(GetI16, values, [], b).Got? ==> GetN(GetI16, values, [], b).rest == b[values * 2..]
  {
    FixedWidth(GetI16, 2, values, [], b);
  }

  lemma OneValue(first: Bytes, chunk: Bytes, i: nat)
    requires i * 2 + 2 <= |chunk| <= |first| && chunk == first[..|chunk|]
    ensures GetI16(first[i * 2..]) == Got(Signed(FromLe(chunk[i * 2..i * 2 + 2])), first[(i + 1) * 2..])
  {
    hide FromLe;
    assert first[i * 2..][..2] == chunk[i * 2..i * 2 + 2];
    assert first[i * 2..][2..] == first[(i + 1) * 2..];
  }

  /** One body, decoded or refused exactly as the definition says. */
  method Decode(body: Bytes) returns (r: Result<Msg>)
    ensures match Decoded(body) case None => r.ProtoError? case Some(m) => r == Ok(m)
  {
    hide GetU8, GetPayload;
    var d := new Reader(body);
    var tag :- d.Byte();
    var m :- Payload(d, tag);
    if d.pos != |d.buf| {
      return ProtoError;
    }
    return Ok(m);
  }

  method Payload(d: Reader, tag: byte) returns (r: Result<Msg>)
    requires d.Valid()
    modifies d
    ensures d.Valid() && Answers(r, GetPayload(tag, old(d.Rest())), d.Rest())
  {
    hide GetNum, GetStr, GetEvents, GetSaves, GetCommands, GetFrame, GetFlag, GetN;
    if tag == TAG_LOAD {
      var entries :- d.Entries();
      var files := Snapshot.FromEntries([], entries);
      if files.None? {
        return ProtoError;
      }
      var saves :- d.Saves();
      var permitted :- d.OnOff();
      var invite :- d.Text(MAX_TICKET);
      return Ok(Load(files.value, saves, permitted, if invite == [] then None else Some(invite)));
    } else if tag == TAG_STEP {
      var buttons :- d.Num(2);
      var events :- d.Events();
      return Ok(Step(buttons, events));
    } else if tag == TAG_STOP {
      return Ok(Stop);
    } else if tag == TAG_READY {
      var width :- d.Num(4);
      var height :- d.Num(4);
      return Ok(Ready(width, height));
    } else if tag == TAG_FRAME {
      var frame :- d.Frame();
      var saves :- d.Saves();
      var commands :- d.Commands();
      var netRoom :- d.Num(4);
      if netRoom > MAX_BATCH {
        return ProtoError;
      }
      return Ok(FrameOut(frame, saves, commands, netRoom));
    } else if tag == TAG_ERROR {
      var code :- d.Text(MAX_CODE_BYTES);
      var message :- d.Text(MAX_MESSAGE_BYTES);
      return Ok(Error(code, message));
    } else {
      return ProtoError;
    }
  }

  /** `read_frame` on what is left of a stream. */
  method ReadOne(stream: Bytes) returns (r: Stream.ReadResult)
    ensures r == Stream.ReadFrame(stream)
  {
    hide FromLe, Decoded;
    if |stream| < 4 {
      return Stream.End;
    }
    var len, rest := FromLe(stream[..4]), stream[4..];
    if len == 0 || len > MAX_FRAME {
      return Stream.BadFrame;
    }
    if |rest| < len {
      return Stream.Broken;
    }
    var m := Decode(rest[..len]);
    return if m.ProtoError? then Stream.BadFrame else Stream.Read(m.value, rest[len..]);
  }
}
