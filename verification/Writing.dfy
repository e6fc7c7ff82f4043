/** The encoder: a vector of bytes that fields are appended to. */
module Writing {
  import opened Numbers
  import opened Wire
  import opened NetTypes
  import opened Message
  import opened Stream
  import opened Wrappers
  import Snapshot
  import Utf8

  lemma {:induction false} PutAllSnoc<T>(put: T -> Bytes, xs: seq<T>, x: T)
    ensures PutAll(put, xs + [x]) == PutAll(put, xs) + put(x)
  {
    if xs == [] {
      assert xs + [x] == [x];
    } else {
      PutAllSnoc(put, xs[1..], x);
      assert (xs + [x])[1..] == xs[1..] + [x];
    }
  }

  /** One more item of a list, after those already appended. */
  lemma PutAllNext<T>(put: T -> Bytes, xs: seq<T>, i: nat, front: Bytes)
    requires i < |xs|
    ensures front + PutAll(put, xs[..i]) + put(xs[i]) == front + PutAll(put, xs[..i + 1])
  {
    PutAllSnoc(put, xs[..i], xs[i]);
    assert xs[..i] + [xs[i]] == xs[..i + 1];
  }

  lemma PutAllEnds<T>(put: T -> Bytes, xs: seq<T>, front: Bytes)
    ensures front + PutAll(put, xs[..0]) == front && xs[..|xs|] == xs
  {
  }

  class Writer {
    var out: Bytes

    constructor ()
      ensures out == []
    {
      out := [];
    }

    /** An unsigned number in `n` bytes, little-endian. */
    method Num(n: nat, v: nat)
      modifies this
      ensures out == old(out) + Le(n, v)
    {
      out := out + Le(n, v);
    }

    method Raw(b: Bytes)
      modifies this
      ensures out == old(out) + b
    {
      out := out + b;
    }

    method Byte(v: byte)
      modifies this
      ensures out == old(out) + U8(v)
    {
      out := out + [v];
    }

    method Field(b: Bytes)
      modifies this
      ensures out == old(out) + PutBytes(b)
    {
      hide Le;
      Num(4, |b| % U32);
      out := out + b;
    }

    /** A string, clipped on a character boundary. */
    method ClippedField(s: Str, max: nat)
      modifies this
      ensures out == old(out) + PutBytes(Utf8.Clip(s, max))
    {
      hide Utf8.Clip, PutBytes;
      var c := Utf8.ClipLoop(s, max);
      Field(c);
    }

    method Saves(saves: seq<Save>)
      modifies this
      ensures out == old(out) + PutSaves(saves)
    {
      hide Le, PutAll, PutBytes;
      Num(4, |saves| % U32);
      ghost var front := out;
      PutAllEnds(PutSave, saves, front);
      for i := 0 to |saves|
        invariant out == front + PutAll(PutSave, saves[..i])
      {
        PutAllNext(PutSave, saves, i, front);
        ghost var before := out;
        Byte(saves[i].slot);
        Field(saves[i].data);
        assert out == before + PutSave(saves[i]);
      }
    }

    method PutOneEvent(e: Event)
      modifies this
      ensures out == old(out) + PutEvent(e)
    {
      hide Le, U8, PutBytes, Utf8.Clip, ReasonStr, CodeStr, Cut;
      ghost var front := out;
      match e {
        case Hosting(ticket) =>
          Byte(1);
          ClippedField(ticket, MAX_TICKET);
        case Connected(peer) =>
          Byte(2);
          Num(4, peer % U32);
        case Message(from, data) =>
          Byte(3);
          Num(4, from % U32);
          Field(Cut(data, MAX_DATA));
          ThreeParts(front, U8(3), Le(4, from % U32), PutBytes(Cut(data, MAX_DATA)));
        case Disconnected(reason) =>
          Byte(4);
          Field(ReasonStr(reason));
        case Failed(code, detail) =>
          Byte(5);
          Field(CodeStr(code));
          ClippedField(detail, MAX_DETAIL);
          ThreeParts(front, U8(5), PutBytes(CodeStr(code)), PutBytes(Utf8.Clip(detail, MAX_DETAIL)));
        case Permission(granted) =>
          Byte(6);
          Byte(Flag(granted));
      }
    }

    method Events(events: seq<Event>)
      modifies this
      ensures out == old(out) + PutEvents(events)
    {
      hide Le, PutAll, PutEvent;
      var es := First(events, MAX_BATCH);
      Num(4, |es|);
      ghost var front := out;
      PutAllEnds(PutEvent, es, front);
      for i := 0 to |es|
        invariant out == front + PutAll(PutEvent, es[..i])
      {
        PutAllNext(PutEvent, es, i, front);
        PutOneEvent(es[i]);
      }
    }

    method Commands(commands: seq<Command>)
      modifies this
      ensures out == old(out) + PutCommands(commands)
    {
      hide Le, PutAll, PutBytes, Utf8.Clip, Cut;
      var cs := First(commands, MAX_COMMANDS);
      Num(4, |cs|);
      ghost var front := out;
      PutAllEnds(PutCommand, cs, front);
      for i := 0 to |cs|
        invariant out == front + PutAll(PutCommand, cs[..i])
      {
        PutAllNext(PutCommand, cs, i, front);
        ghost var before := out;
        match cs[i] {
          case Host => Byte(1);
          case Join(ticket) =>
            Byte(2);
            ClippedField(ticket, MAX_TICKET);
          case Send(data) =>
            Byte(3);
            Field(Cut(data, MAX_DATA));
          case Leave => Byte(4);
        }
        assert out == before + PutCommand(cs[i]);
      }
    }

    method Fault(state: State)
      modifies this
      ensures out == old(out) + PutState(state)
    {
      hide Le, PutBytes, Utf8.Clip;
      ghost var front := out;
      match state {
        case Running => Byte(0);
        case Faulted(f) =>
          var line := if f.line.Some? then f.line.value else 0;
          Byte(1);
          ClippedField(f.code, MAX_CODE_BYTES);
          ClippedField(f.file, MAX_FILE_NAME);
          Num(4, line % U32);
          ClippedField(f.message, MAX_MESSAGE_BYTES);
          FiveParts(front, U8(1), PutBytes(Utf8.Clip(f.code, MAX_CODE_BYTES)),
                    PutBytes(Utf8.Clip(f.file, MAX_FILE_NAME)), Le(4, line % U32),
                    PutBytes(Utf8.Clip(f.message, MAX_MESSAGE_BYTES)));
      }
    }

    method Screen(p: Picture)
      modifies this
      ensures out == old(out) + PutPicture(p)
    {
      hide Le, PutAll;
      ghost var front := out;
      Num(8, p.frame % U64);
      Num(4, p.width % U32);
      Num(4, p.height % U32);
      Raw(p.pixels);
      ghost var before := out;
      PutAllEnds(PutRgb, p.palette, before);
      for i := 0 to |p.palette|
        invariant out == before + PutAll(PutRgb, p.palette[..i])
      {
        PutAllNext(PutRgb, p.palette, i, before);
        Raw(PutRgb(p.palette[i]));
      }
      FiveParts(front, PutU64(p.frame), Le(4, p.width % U32), Le(4, p.height % U32), p.pixels,
                PutAll(PutRgb, p.palette));
    }

    method Log(log: seq<Str>)
      modifies this
      ensures out == old(out) + PutLog(log)
    {
      hide Le, PutAll, PutBytes;
      Num(4, |log| % U32);
      ghost var front := out;
      PutAllEnds(PutBytes, log, front);
      for i := 0 to |log|
        invariant out == front + PutAll(PutBytes, log[..i])
      {
        PutAllNext(PutBytes, log, i, front);
        Field(log[i]);
      }
    }

    method Cost(p: Profile)
      modifies this
      ensures out == old(out) + PutProfile(p)
    {
      hide Le, PutAll;
      ghost var start := out;
      Num(8, p.budget % U64);
      Num(8, p.luaMem % U64);
      ghost var front := out;
      PutAllEnds(PutU64, p.cycles, front);
      for i := 0 to |p.cycles|
        invariant out == front + PutAll(PutU64, p.cycles[..i])
      {
        PutAllNext(PutU64, p.cycles, i, front);
        Num(8, p.cycles[i] % U64);
      }
      FourParts(start, PutU64(p.budget), PutU64(p.luaMem), PutAll(PutU64, p.cycles), []);
    }

    method Audio(audio: seq<int>)
      modifies this
      ensures out == old(out) + PutAudio(audio)
    {
      hide Le, PutAll, PutI16;
      var a := First(audio, MAX_AUDIO_VALUES);
      Num(4, |a|);
      ghost var front := out;
      PutAllEnds(PutI16, a, front);
      for i := 0 to |a|
        invariant out == front + PutAll(PutI16, a[..i])
      {
        PutAllNext(PutI16, a, i, front);
        Raw(PutI16(a[i]));
      }
    }

    method Frame(f: OwnedFrame)
      modifies this
      ensures out == old(out) + PutFrame(f)
    {
      hide PutPicture, PutState, PutLog, PutProfile, PutAudio;
      ghost var front := out;
      Screen(f.picture);
      Fault(f.state);
      Log(f.log);
      Cost(f.profile);
      Audio(f.audio);
      FiveParts(front, PutPicture(f.picture), PutState(f.state), PutLog(f.log), PutProfile(f.profile), PutAudio(f.audio));
    }

    method Files(files: seq<Snapshot.Entry>)
      modifies this
      ensures out == old(out) + (Le(4, |files| % U32) + PutAll(PutEntry, files))
    {
      hide Le, PutAll, PutBytes;
      Num(4, |files| % U32);
      ghost var front := out;
      PutAllEnds(PutEntry, files, front);
      for i := 0 to |files|
        invariant out == front + PutAll(PutEntry, files[..i])
      {
        PutAllNext(PutEntry, files, i, front);
        ghost var before := out;
        Field(files[i].name);
        Field(files[i].data);
        assert out == before + PutEntry(files[i]);
      }
    }
  }

  lemma ThreeParts(front: Bytes, a: Bytes, b: Bytes, c: Bytes)
    ensures front + a + b + c == front + (a + (b + c))
  {
  }

  lemma FourParts(front: Bytes, a: Bytes, b: Bytes, c: Bytes, d: Bytes)
    ensures front + a + b + c + d == front + (a + (b + (c + d)))
    ensures front + a + b + c == front + (a + (b + c))
  {
  }

  lemma FiveParts(front: Bytes, a: Bytes, b: Bytes, c: Bytes, d: Bytes, e: Bytes)
    ensures front + a + b + c + d + e == front + (a + (b + (c + (d + e))))
  {
    FourParts(front, a, b, c, d);
    FourParts(front + a, b, c, d, e);
    assert front + (a + (b + (c + (d + e)))) == front + a + (b + (c + (d + e)));
  }

  /** A message as one frame, its length patched in last. */
  method Encode(m: Msg) returns (frame: Bytes)
    ensures frame == Encoded(m)
  {
    hide Le, PutAll, PutBytes, PutSaves, PutEvents, PutCommands, PutFrame, Utf8.Clip, Body;
    var w := new Writer();
    w.Num(4, 0);
    ghost var front := w.out;
    EncodeBody(w, m);
    BodyAfterLength(w.out, front, m);
    var len := |w.out| - 4;
    frame := Le(4, len % U32) + w.out[4..];
  }

  lemma BodyAfterLength(out: Bytes, front: Bytes, m: Msg)
    requires |front| == 4 && out == front + Body(m)
    ensures |out| - 4 == |Body(m)| && out[4..] == Body(m)
  {
    hide Body;
  }

  method EncodeBody(w: Writer, m: Msg)
    modifies w
    ensures w.out == old(w.out) + Body(m)
  {
    hide Le, PutAll, PutBytes, PutSaves, PutEvents, PutCommands, PutFrame, Utf8.Clip;
    ghost var front := w.out;
    match m {
      case Load(files, saves, permitted, invite) =>
        w.Byte(TAG_LOAD);
        w.Files(files);
        w.Saves(saves);
        w.Byte(Flag(permitted));
        w.ClippedField(InviteStr(invite), MAX_TICKET);
        LoadParts(front, U8(TAG_LOAD), Le(4, |files| % U32), PutAll(PutEntry, files), PutSaves(saves),
                  U8(Flag(permitted)), PutBytes(Utf8.Clip(InviteStr(invite), MAX_TICKET)));
      case Step(buttons, events) =>
        w.Byte(TAG_STEP);
        w.Num(2, buttons % U16);
        w.Events(events);
        FourParts(front, U8(TAG_STEP), Le(2, buttons % U16), PutEvents(events), []);
      case Stop =>
        w.Byte(TAG_STOP);
      case Ready(width, height) =>
        w.Byte(TAG_READY);
        w.Num(4, width % U32);
        w.Num(4, height % U32);
        FourParts(front, U8(TAG_READY), Le(4, width % U32), Le(4, height % U32), []);
      case FrameOut(frame, saves, commands, netRoom) =>
        w.Byte(TAG_FRAME);
        w.Frame(frame);
        w.Saves(saves);
        w.Commands(commands);
        w.Num(4, netRoom % U32);
        FiveParts(front, U8(TAG_FRAME), PutFrame(frame), PutSaves(saves), PutCommands(commands), Le(4, netRoom % U32));
      case Error(code, message) =>
        w.Byte(TAG_ERROR);
        w.ClippedField(code, MAX_CODE_BYTES);
        w.ClippedField(message, MAX_MESSAGE_BYTES);
        FourParts(front, U8(TAG_ERROR), PutBytes(Utf8.Clip(code, MAX_CODE_BYTES)),
                  PutBytes(Utf8.Clip(message, MAX_MESSAGE_BYTES)), []);
    }
  }

  lemma LoadParts(front: Bytes, a: Bytes, b: Bytes, c: Bytes, d: Bytes, e: Bytes, f: Bytes)
    ensures front + a + (b + c) + d + e + f == front + (a + (b + (c + (d + (e + f)))))
  {
    FiveParts(front, a, b + c, d, e, f);
    assert b + c + (d + (e + f)) == b + (c + (d + (e + f)));
  }
}
