/** Frames on a stream: a length, then a body no longer than `MAX_FRAME`. */
module Stream {
  import opened Numbers
  import opened Wire
  import opened NetTypes
  import opened Message
  import opened Codec
  import opened CodecMessages
  import opened Frames
  import opened Wrappers
  import Snapshot
  import Utf8

  /** One frame, ready to write. */
  function Encoded(m: Msg): Bytes { Le(4, |Body(m)| % U32) + Body(m) }

  /** End: no whole length was left. Broken: the body is short. */
  datatype ReadResult = End | Broken | BadFrame | Read(m: Msg, rest: Bytes)

  function ReadFrame(stream: Bytes): ReadResult {
    if |stream| < 4 then End
    else
      var (len, rest) := (FromLe(stream[..4]), stream[4..]);
      if len == 0 || len > MAX_FRAME then BadFrame
      else if |rest| < len then Broken
      else
        match Decoded(rest[..len])
        case None => BadFrame
        case Some(m) => Read(m, rest[len..])
  }

  /** Frames read until one cannot be, and whether the reader took that for a clean
      end of the stream. */
  function ReadAll(stream: Bytes): (seq<Msg>, bool)
    decreases |stream|
  {
    match ReadFrame(stream)
    case Read(m, rest) => var (ms, clean) := ReadAll(rest); ([m] + ms, clean)
    case End => ([], true)
    case _ => ([], false)
  }

  // ----- sizes ---------------------------------------------------------------------------------

  lemma {:induction false} PutAllAtMost<T>(put: T -> Bytes, xs: seq<T>, k: nat)
    requires forall x :: x in xs ==> |put(x)| <= k
    ensures |PutAll(put, xs)| <= |xs| * k
  {
    if xs != [] {
      PutAllAtMost(put, xs[1..], k);
      assert |xs| * k == |xs[1..]| * k + k;
    }
  }

  /** Entries cost their framing, their names and their data. */
  function EntriesSize(files: seq<Snapshot.Entry>): nat {
    if files == [] then 0 else 8 + |files[0].name| + |files[0].data| + EntriesSize(files[1..])
  }

  lemma {:induction false} EntriesSizeIs(files: seq<Snapshot.Entry>)
    ensures |PutAll(PutEntry, files)| == EntriesSize(files)
  {
    if files != [] {
      EntriesSizeIs(files[1..]);
    }
  }

  lemma {:induction false} EntriesSizeBound(files: seq<Snapshot.Entry>)
    requires forall f :: f in files ==> |f.name| <= 255
    ensures EntriesSize(files) <= |files| * 263 + Snapshot.Total(files)
  {
    if files != [] {
      EntriesSizeBound(files[1..]);
    }
  }

  lemma SavesSize(saves: seq<Save>)
    requires GoodSaves(saves)
    ensures |PutSaves(saves)| <= 4 + SAVES_BYTES
  {
    hide Le;
    forall s | s in saves
      ensures |PutSave(s)| <= SLOT_BYTES + 5
    {
      assert |PutBytes(s.data)| == 4 + |s.data|;
    }
    PutAllAtMost(PutSave, saves, SLOT_BYTES + 5);
    MulMono(|saves|, SLOT_COUNT, SLOT_BYTES + 5);
  }

  lemma LoadSize(m: Msg)
    requires m.Load?
    ensures |Body(m)| == 10 + EntriesSize(m.files) + |PutSaves(m.saves)|
                         + |Utf8.Clip(InviteStr(m.invite), MAX_TICKET)|
  {
    hide Le, PutAll, PutSaves, Utf8.Clip;
    EntriesSizeIs(m.files);
  }

  lemma LoadAtMost(m: Msg)
    requires m.Load? && GoodMsg(m)
    ensures 0 < |Body(m)| <= MAX_FRAME + 14
  {
    hide Snapshot.Portable, Snapshot.Sorted, Snapshot.Folded, Utf8.Valid, PutSaves, GoodSaves, EntriesSize, Body;
    LoadSize(m);
    assert forall f :: f in m.files ==> |f.name| <= 255 by { NamesShort(m.files); }
    EntriesSizeBound(m.files);
    SavesSize(m.saves);
  }

  lemma NamesShort(files: seq<Snapshot.Entry>)
    requires Snapshot.Snapshot(files)
    ensures forall f :: f in files ==> |f.name| <= 255
  {
  }

  lemma CommandsSize(commands: seq<Command>)
    ensures |PutCommands(commands)| <= 4 + MAX_COMMANDS * 1029
  {
    hide Le, Utf8.Clip;
    var cs := First(commands, MAX_COMMANDS);
    forall c | c in cs
      ensures |PutCommand(c)| <= 1029
    {
    }
    PutAllAtMost(PutCommand, cs, 1029);
    MulMono(|cs|, MAX_COMMANDS, 1029);
  }

  lemma EventsSize(events: seq<Event>)
    ensures |PutEvents(events)| <= 4 + MAX_BATCH * 1033
  {
    hide Le, Utf8.Clip, CodeStr, ReasonStr;
    var es := First(events, MAX_BATCH);
    forall e | e in es
      ensures |PutEvent(e)| <= 1033
    {
    }
    PutAllAtMost(PutEvent, es, 1033);
    MulMono(|es|, MAX_BATCH, 1033);
  }

  lemma PictureSize(p: Picture)
    requires GoodPicture(p)
    ensures |PutPicture(p)| <= 16 + MAX_SIDE * MAX_SIDE + PALETTE_SIZE * 3
  {
    hide Le, PutAll;
    PutAllAtMost(PutRgb, p.palette, 3);
    MulMono(p.width, MAX_SIDE, p.height);
    MulMono(p.height, MAX_SIDE, MAX_SIDE);
  }

  lemma FrameSize(f: OwnedFrame)
    requires GoodFrame(f)
    ensures |PutFrame(f)| <= 1_400_000
  {
    hide Le, GoodPicture, PutPicture, Utf8.Clip, Utf8.Valid;
    PictureSize(f.picture);
    assert |PutState(f.state)| <= 1 + 4 + MAX_CODE_BYTES + 4 + MAX_FILE_NAME + 4 + 4 + MAX_MESSAGE_BYTES;
    PutAllAtMost(PutBytes, f.log, 4 + MAX_LOG_LINE_BYTES + 8);
    MulMono(|f.log|, MAX_LOG_LINES + 1, 4 + MAX_LOG_LINE_BYTES + 8);
    PutAllAtMost(PutU64, f.profile.cycles, 8);
    var a := First(f.audio, MAX_AUDIO_VALUES);
    PutAllAtMost(PutI16, a, 2);
    MulMono(|a|, MAX_AUDIO_VALUES, 2);
  }

  /** Only a `Load` can outgrow the cap, and it by fourteen bytes at most. */
  lemma BodyAtMost(m: Msg)
    requires GoodMsg(m)
    ensures 0 < |Body(m)| <= MAX_FRAME + 14
    ensures !m.Load? ==> |Body(m)| <= MAX_FRAME
  {
    hide Le, PutFrame, GoodFrame, PutSaves, GoodSaves, PutCommands, GoodCommands, PutEvents, GoodEvents, Utf8.Clip, Utf8.Valid;
    match m {
      case Load(_, _, _, _) => LoadAtMost(m);
      case Step(_, events) => EventsSize(events);
      case Stop =>
      case Ready(_, _) =>
      case FrameOut(frame, saves, commands, _) =>
        FrameSize(frame);
        SavesSize(saves);
        CommandsSize(commands);
      case Error(_, _) =>
    }
  }

  // ----- reading back -------------------------------------------------------------------------

  /** A frame that was written is read back, whatever follows it, exactly when
      its body is within the cap; any longer and the reader refuses it. */
  lemma FrameReadsBack(m: Msg, rest: Bytes)
    requires GoodMsg(m)
    ensures ReadFrame(Encoded(m) + rest) ==
            if |Body(m)| <= MAX_FRAME then Read(CanonMsg(m), rest) else BadFrame
  {
    hide Body, CanonMsg, GoodMsg, Decoded, Le, FromLe;
    BodyAtMost(m);
    DecodeOfEncode(m);
    Widths();
    var (len, body) := (|Body(m)|, Body(m));
    LeRoundTrip(4, len);
    var stream := Encoded(m) + rest;
    assert stream[..4] == Le(4, len) && stream[4..] == body + rest;
    assert (body + rest)[..len] == body && (body + rest)[len..] == rest;
  }

  /** A run of frames within the cap reads back as the list that was written. */
  lemma {:induction false} StreamReadsBack(ms: seq<Msg>)
    requires forall m :: m in ms ==> GoodMsg(m) && |Body(m)| <= MAX_FRAME
    ensures ReadAll(PutAll(Encoded, ms)) == (Mapped(CanonMsg, ms), true)
  {
    hide Body, CanonMsg, GoodMsg, Decoded, Encoded, ReadFrame;
    if ms == [] {
      assert ReadFrame([]) == End by { EmptyStream(); }
      assert Mapped(CanonMsg, ms) == [];
    } else {
      var rest := PutAll(Encoded, ms[1..]);
      FrameReadsBack(ms[0], rest);
      StreamReadsBack(ms[1..]);
      assert Mapped(CanonMsg, ms) == [CanonMsg(ms[0])] + Mapped(CanonMsg, ms[1..]);
    }
  }

  lemma EmptyStream()
    ensures ReadFrame([]) == End
  {
  }

  // ----- a stream that is cut -----------------------------------------------------------------

  /** An end is reported with up to three bytes left, not only at the end. */
  lemma EndMeans(stream: Bytes)
    ensures ReadFrame(stream) == End <==> |stream| < 4
    ensures ReadFrame([1]) == End && ReadFrame([1, 0, 0]) == End
  {
  }

  /** A frame cut inside its length reads as an end, cut after it as broken off. */
  lemma CutFrame(m: Msg, k: nat)
    requires GoodMsg(m) && |Body(m)| <= MAX_FRAME && k < |Encoded(m)|
    ensures ReadFrame(Encoded(m)[..k]) == if k < 4 then End else Broken
  {
    hide Body, GoodMsg, Decoded, Le, FromLe;
    if k >= 4 {
      BodyAtMost(m);
      Widths();
      var len := |Body(m)|;
      LeRoundTrip(4, len);
      assert Encoded(m)[..k][..4] == Le(4, len);
    }
  }

  /** How many frames are whole in the first `k` bytes. */
  function WholeFrames(ms: seq<Msg>, k: nat): (w: nat)
    ensures w <= |ms|
  {
    if ms == [] || k < |Encoded(ms[0])| then 0 else 1 + WholeFrames(ms[1..], k - |Encoded(ms[0])|)
  }

  /** Wherever a stream is cut, its whole frames read back, and it looks as if it had
      ended there exactly when fewer than four bytes follow the last of them. */
  lemma {:induction false} CutStream(ms: seq<Msg>, k: nat)
    requires k <= |PutAll(Encoded, ms)|
    requires forall m :: m in ms ==> GoodMsg(m) && |Body(m)| <= MAX_FRAME
    ensures var w := WholeFrames(ms, k);
            && |PutAll(Encoded, ms[..w])| <= k && (w < |ms| ==> k < |PutAll(Encoded, ms[..w + 1])|)
            && ReadAll(PutAll(Encoded, ms)[..k]) ==
               (Mapped(CanonMsg, ms[..w]), k - |PutAll(Encoded, ms[..w])| < 4)
  {
    hide Body, CanonMsg, GoodMsg, Encoded, ReadFrame, ReadAll, PutAll, Mapped, WholeFrames;
    if ms == [] {
      CutNothing(ms, k);
    } else {
      assert ms[0] in ms;
      PutFirst(ms);
      var (first, rest) := (Encoded(ms[0]), PutAll(Encoded, ms[1..]));
      if k < |first| {
        CutInFirst(ms, k);
      } else {
        var left := k - |first|;
        CutStream(ms[1..], left);
        var w := WholeFrames(ms[1..], left);
        assert PutAll(Encoded, ms)[..k] == first + rest[..left];
        ReadFirst(ms[0], rest[..left]);
        WholeFirst(ms, k);
        MapFirst(ms, w);
        WholeStep(ms, w);
        if w + 1 < |ms| {
          WholeStep(ms, w + 1);
        }
      }
    }
  }

  lemma CutNothing(ms: seq<Msg>, k: nat)
    requires ms == [] && k <= |PutAll(Encoded, ms)|
    ensures ReadAll(PutAll(Encoded, ms)[..k]) == ([], true) && WholeFrames(ms, k) == 0
    ensures k == 0 && PutAll(Encoded, ms[..0]) == [] && Mapped(CanonMsg, ms[..0]) == []
  {
    hide Encoded, CanonMsg;
    EmptyStream();
  }

  lemma CutInFirst(ms: seq<Msg>, k: nat)
    requires ms != [] && k < |Encoded(ms[0])|
    requires GoodMsg(ms[0]) && |Body(ms[0])| <= MAX_FRAME
    ensures ReadAll(PutAll(Encoded, ms)[..k]) == ([], k < 4) && WholeFrames(ms, k) == 0
    ensures PutAll(Encoded, ms[..0]) == [] && PutAll(Encoded, ms[..1]) == Encoded(ms[0])
    ensures Mapped(CanonMsg, ms[..0]) == []
  {
    hide Body, CanonMsg, GoodMsg, Decoded, Encoded, ReadFrame;
    PutOne(ms[0]);
    assert ms[..0] == [] && ms[..1] == [ms[0]];
    assert PutAll(Encoded, ms)[..k] == Encoded(ms[0])[..k];
    CutFrame(ms[0], k);
  }

  /** A frame read first, and then the rest. */
  lemma ReadFirst(m: Msg, rest: Bytes)
    requires GoodMsg(m) && |Body(m)| <= MAX_FRAME
    ensures ReadAll(Encoded(m) + rest) == ([CanonMsg(m)] + ReadAll(rest).0, ReadAll(rest).1)
  {
    hide Body, CanonMsg, GoodMsg, Encoded, ReadFrame;
    FrameReadsBack(m, rest);
  }

  lemma WholeFirst(ms: seq<Msg>, k: nat)
    requires ms != [] && |Encoded(ms[0])| <= k
    ensures WholeFrames(ms, k) == 1 + WholeFrames(ms[1..], k - |Encoded(ms[0])|)
  {
    hide Encoded;
  }

  lemma PutFirst(ms: seq<Msg>)
    requires ms != []
    ensures PutAll(Encoded, ms) == Encoded(ms[0]) + PutAll(Encoded, ms[1..])
  {
    hide Encoded;
  }

  lemma MapFirst(ms: seq<Msg>, w: nat)
    requires ms != [] && w < |ms|
    ensures Mapped(CanonMsg, ms[..w + 1]) == [CanonMsg(ms[0])] + Mapped(CanonMsg, ms[1..][..w])
  {
    hide CanonMsg;
    assert ms[..w + 1] == [ms[0]] + ms[1..][..w];
  }

  lemma PutOne(m: Msg)
    ensures PutAll(Encoded, [m]) == Encoded(m) && PutAll(Encoded, []) == []
  {
    assert [m][1..] == [];
    assert PutAll(Encoded, []) == [];
  }

  /** The first frames of a stream are its first frame and those of what follows. */
  lemma WholeStep(ms: seq<Msg>, w: nat)
    requires ms != [] && w < |ms|
    ensures PutAll(Encoded, ms[..w + 1]) == Encoded(ms[0]) + PutAll(Encoded, ms[1..][..w])
  {
    assert ms[..w + 1][1..] == ms[1..][..w];
  }

  // ----- a cart the cap refuses ----------------------------------------------------------------

  /** Names of 255 bytes, in order: three letters that count, then padding. */
  function NameOf(i: nat): (s: Str)
    requires i < 4096
    ensures |s| == 255
  {
    [97 + i / 256, 97 + i / 16 % 16, 97 + i % 16] + seq(252, _ => 120 as byte)
  }

  function FullFiles(n: nat): seq<Snapshot.Entry>
    requires n <= 4096
  {
    seq(n, i requires 0 <= i < n => Snapshot.Entry(NameOf(i), seq(16384, _ => 0 as byte)))
  }

  function FullSaves(): seq<Save> { seq(8, i requires 0 <= i < 8 => Save(i, seq(SLOT_BYTES, _ => 0 as byte))) }

  /** A cart at every limit at once, with the longest invite. */
  function FullLoad(): Msg {
    Load(FullFiles(4096), FullSaves(), true, Some(seq(1024, _ => 97 as byte)))
  }

  lemma NameLetters(i: nat, k: nat)
    requires i < 4096 && k < 255
    ensures 97 <= NameOf(i)[k] <= 120
  {
  }

  lemma LessInThree(a: Str, b: Str)
    requires |a| >= 3 && |b| >= 3
    requires a[0] < b[0] || (a[0] == b[0] && (a[1] < b[1] || (a[1] == b[1] && a[2] < b[2])))
    ensures Snapshot.Less(a, b)
  {
    assert a[1..][0] == a[1] && b[1..][0] == b[1];
    assert a[1..][1..][0] == a[2] && b[1..][1..][0] == b[2];
    if a[0] == b[0] {
      if a[1] == b[1] {
        assert Snapshot.Less(a[1..][1..], b[1..][1..]);
      }
      assert Snapshot.Less(a[1..], b[1..]);
    }
  }

  lemma DigitsInOrder(i: nat, j: nat)
    requires i < j
    ensures i / 256 < j / 256 ||
            (i / 256 == j / 256 && (i / 16 % 16 < j / 16 % 16 || (i / 16 % 16 == j / 16 % 16 && i % 16 < j % 16)))
  {
    assert i / 16 == 16 * (i / 256) + i / 16 % 16 && j / 16 == 16 * (j / 256) + j / 16 % 16;
  }

  lemma NamesInOrder(i: nat, j: nat)
    requires i < j < 4096
    ensures Snapshot.Less(NameOf(i), NameOf(j)) && NameOf(i) != NameOf(j)
  {
    hide Snapshot.Less;
    DigitsInOrder(i, j);
    LessInThree(NameOf(i), NameOf(j));
    Snapshot.LessTotal(NameOf(i), NameOf(i));
  }

  lemma {:induction false} SplitWhole(s: Str, sep: byte)
    requires sep !in s
    ensures Snapshot.Split(s, sep) == [s]
  {
    if s != [] {
      SplitWhole(s[1..], sep);
      assert [s[0]] + s[1..] == s;
    }
  }

  lemma NamePortable(i: nat)
    requires i < 4096
    ensures Snapshot.Portable(NameOf(i)) && Utf8.Valid(NameOf(i)) && Snapshot.Folded(NameOf(i)) == NameOf(i)
  {
    var s := NameOf(i);
    forall k | 0 <= k < 255
      ensures 97 <= s[k] <= 120
    {
      NameLetters(i, k);
    }
    hide NameOf;
    Utf8.AsciiIsValid(s);
    SplitWhole(s, 47);
    SplitWhole(s, 46);
    assert Snapshot.PieceOk(s) by {
      hide Utf8.Valid;
      assert Snapshot.Split(s, 46)[0] == s && |Snapshot.Folded(s)| == 255;
    }
  }

  lemma {:induction false} FullTotals(n: nat)
    requires n <= 4096
    ensures Snapshot.Total(FullFiles(n)) == n * 16384 && EntriesSize(FullFiles(n)) == n * (8 + 255 + 16384)
  {
    hide NameOf;
    if 0 < n {
      FullTotals(n - 1);
      var last := Snapshot.Entry(NameOf(n - 1), seq(16384, _ => 0 as byte));
      assert FullFiles(n) == FullFiles(n - 1) + [last];
      Snapshot.TotalSplit(FullFiles(n - 1), [last]);
      EntriesSizeSplit(FullFiles(n - 1), [last]);
    }
  }

  lemma {:induction false} EntriesSizeSplit(a: seq<Snapshot.Entry>, b: seq<Snapshot.Entry>)
    ensures EntriesSize(a + b) == EntriesSize(a) + EntriesSize(b)
  {
    if a == [] {
      assert a + b == b;
    } else {
      EntriesSizeSplit(a[1..], b);
      assert (a + b)[1..] == a[1..] + b;
    }
  }

  lemma FileAt(n: nat, i: nat)
    requires i < n <= 4096
    ensures |FullFiles(n)| == n
    ensures FullFiles(n)[i].name == NameOf(i) && |FullFiles(n)[i].data| == 16384
  {
    hide NameOf;
  }

  lemma FilesInOrder(n: nat, i: nat, j: nat)
    requires i < j < n <= 4096
    ensures |FullFiles(n)| == n
    ensures Snapshot.Less(FullFiles(n)[i].name, FullFiles(n)[j].name)
    ensures Snapshot.Folded(FullFiles(n)[i].name) != Snapshot.Folded(FullFiles(n)[j].name)
  {
    hide NameOf, FullFiles, Snapshot.Portable, Snapshot.Folded, Snapshot.Less, Utf8.Valid;
    FileAt(n, i);
    FileAt(n, j);
    NamesInOrder(i, j);
    NamePortable(i);
    NamePortable(j);
  }

  lemma FullSnapshot(n: nat)
    requires 0 < n <= 4096
    ensures Snapshot.Snapshot(FullFiles(n)) && forall f :: f in FullFiles(n) ==> Utf8.Valid(f.name)
  {
    hide NameOf, FullFiles, Snapshot.Portable, Snapshot.Folded, Snapshot.Less, Utf8.Valid, Snapshot.Total;
    FileAt(n, 0);
    var files := FullFiles(n);
    forall i, j | 0 <= i < j < n
      ensures Snapshot.Less(files[i].name, files[j].name)
      ensures Snapshot.Folded(files[i].name) != Snapshot.Folded(files[j].name)
    {
      FilesInOrder(n, i, j);
    }
    forall f | f in files
      ensures Snapshot.Portable(f.name) && Utf8.Valid(f.name) && |f.data| == 16384
    {
      var i :| 0 <= i < n && files[i] == f;
      FileAt(n, i);
      NamePortable(i);
    }
    FullTotals(n);
  }

  lemma FullSavesGood()
    ensures GoodSaves(FullSaves()) && forall s :: s in FullSaves() ==> |s.data| == SLOT_BYTES
  {
  }

  lemma FullIsGood()
    ensures GoodMsg(FullLoad())
  {
    hide FullFiles, Snapshot.Snapshot, Utf8.Valid, FullSaves, GoodSaves;
    FullSnapshot(4096);
    FileAt(4096, 0);
    FullSavesGood();
    Utf8.AsciiIsValid(seq(1024, _ => 97 as byte));
  }

  lemma SaveSize(s: Save)
    ensures |PutSave(s)| == |s.data| + 5
  {
  }

  lemma {:induction false} FullSavesSize(saves: seq<Save>)
    requires forall s :: s in saves ==> |s.data| == SLOT_BYTES
    ensures |PutAll(PutSave, saves)| == |saves| * (SLOT_BYTES + 5)
  {
    hide PutSave;
    if saves != [] {
      SaveSize(saves[0]);
      FullSavesSize(saves[1..]);
    }
  }

  /** The cap allows for names, data, slots and slack, and a cart at every limit
      with the longest invite is still fourteen bytes too long: its own `Load`
      is refused by the reader. */
  lemma FullLoadIsRefused(rest: Bytes)
    ensures GoodMsg(FullLoad()) && |Body(FullLoad())| == MAX_FRAME + 14
    ensures ReadFrame(Encoded(FullLoad()) + rest) == BadFrame
  {
    hide NameOf, Body, GoodMsg, ReadFrame, Encoded, EntriesSize, PutAll, FullFiles, Le, PutSave;
    FullIsGood();
    FullTotals(4096);
    FullSavesGood();
    FullSavesSize(FullSaves());
    LoadSize(FullLoad());
    FrameReadsBack(FullLoad(), rest);
  }
}
