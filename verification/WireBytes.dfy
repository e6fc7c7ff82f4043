/** The worker protocol byte by byte: what stands where in a body, told without the
    printers it is built from. */
module WireBytes {
  import opened Numbers
  import opened Wire
  import opened NetTypes
  import opened Message
  import opened Wrappers
  import Snapshot
  import Stream
  import Utf8

  /** Byte `i` of a number is its `i`th digit of base 256, the lowest first. */
  lemma {:induction false} NumberBytes(n: nat, v: nat, i: nat)
    requires i < n
    ensures Le(n, v)[i] == v / Pow256(i) % 256
  {
    if i > 0 {
      NumberBytes(n - 1, v / 256, i - 1);
      DivDiv(v, Pow256(i - 1));
    }
  }

  lemma DivDiv(v: nat, p: nat)
    requires 0 < p
    ensures v / 256 / p == v / (256 * p)
  {
    var (q, r) := (v / 256 / p, v / 256 % p);
    assert v / 256 == q * p + r;
    assert v == 256 * (q * p + r) + v % 256;
    assert 256 * (q * p) == q * (256 * p);
    DivModUnique(v, 256 * p, q, 256 * r + v % 256);
  }

  lemma Le2(v: nat)
    requires v < U16
    ensures Le(2, v) == [v % 256, v / 256]
  {
    assert Le(1, v / 256) == [v / 256 % 256] + Le(0, v / 256 / 256);
  }

  lemma SmallLe4(v: nat)
    requires v < U16
    ensures Le(4, v) == [v % 256, v / 256, 0, 0]
  {
    assert Le(3, v / 256) == [v / 256] + Le(2, 0);
    Le2(0);
  }

  lemma SmallLe8(v: nat)
    requires v < 256
    ensures Le(8, v) == [v, 0, 0, 0, 0, 0, 0, 0]
  {
    assert Le(8, v) == [v] + Le(7, 0);
    assert Le(7, 0) == [0] + Le(6, 0);
    assert Le(6, 0) == [0] + Le(5, 0);
    assert Le(5, 0) == [0] + Le(4, 0);
    SmallLe4(0);
  }

  /** A string field of one byte. */
  lemma OneByte(b: byte)
    ensures PutBytes([b]) == [1, 0, 0, 0, b] && (b < 128 ==> Utf8.Valid([b]))
  {
    SmallLe4(1);
  }

  lemma One<T>(put: T -> Bytes, x: T)
    ensures PutAll(put, [x]) == put(x) && PutAll(put, []) == []
  {
    assert [x][1..] == [];
  }

  // ----- what a worker is told -------------------------------------------------

  lemma StopBytes()
    ensures Stream.Encoded(Stop) == [1, 0, 0, 0, 0x03]
  {
    SmallLe4(1);
  }

  lemma ReadyBytes()
    ensures Body(Ready(320, 240)) == [0x81, 0x40, 1, 0, 0, 0xF0, 0, 0, 0]
  {
    SmallLe4(320);
    SmallLe4(240);
  }

  lemma StepBytes()
    ensures Body(Step(0x1234, [Permission(true), Connected(1)])) ==
            [0x02] + ([0x34, 0x12] + ([2, 0, 0, 0] + (([6] + [1]) + ([2] + [1, 0, 0, 0]))))
  {
    hide Le;
    Le2(0x1234);
    SmallLe4(2);
    SmallLe4(1);
    var events := [Permission(true), Connected(1)];
    assert events[1..] == [Connected(1)];
    One(PutEvent, Connected(1));
    assert PutAll(PutEvent, events) == PutEvent(Permission(true)) + PutEvent(Connected(1));
  }

  lemma EventBytes()
    ensures PutEvent(Permission(false)) == [6] + [0]
    ensures PutEvent(Message(1, [7])) == [3] + ([1, 0, 0, 0] + [1, 0, 0, 0, 7])
    ensures PutEvent(Hosting([0x61])) == [1] + [1, 0, 0, 0, 0x61]
    ensures PutEvent(Disconnected(Lost)) == [4] + ([4, 0, 0, 0] + [0x6C, 0x6F, 0x73, 0x74])
    ensures PutEvent(Failed(Busy, [0x61])) ==
            [5] + (([8, 0, 0, 0] + [0x6E, 0x65, 0x74, 0x5F, 0x62, 0x75, 0x73, 0x79]) + [1, 0, 0, 0, 0x61])
  {
    hide Le;
    SmallLe4(1);
    SmallLe4(4);
    SmallLe4(8);
    OneByte(7);
    OneByte(0x61);
    assert ReasonStr(Lost) == [0x6C, 0x6F, 0x73, 0x74];
    assert CodeStr(Busy) == [0x6E, 0x65, 0x74, 0x5F, 0x62, 0x75, 0x73, 0x79];
  }

  lemma CommandBytes()
    ensures PutCommand(Host) == [1] && PutCommand(Leave) == [4]
    ensures PutCommand(Join([0x61])) == [2] + [1, 0, 0, 0, 0x61]
    ensures PutCommand(Send([7])) == [3] + [1, 0, 0, 0, 7]
  {
    hide Le;
    OneByte(7);
    OneByte(0x61);
  }

  /** One file, one save, permitted, with an invite. */
  lemma LoadBytes()
    ensures Body(Load([Snapshot.Entry([0x61], [7])], [Save(3, [9])], true, Some([0x62]))) ==
            [0x01]
            + ([1, 0, 0, 0] + (([1, 0, 0, 0, 0x61] + [1, 0, 0, 0, 7])
            + (([1, 0, 0, 0] + ([3] + [1, 0, 0, 0, 9])) + ([1] + [1, 0, 0, 0, 0x62]))))
  {
    hide Le, PutBytes, PutAll, Utf8.Valid;
    SmallLe4(1);
    OneByte(0x61);
    OneByte(7);
    OneByte(9);
    OneByte(0x62);
    One(PutEntry, Snapshot.Entry([0x61], [7]));
    One(PutSave, Save(3, [9]));
  }

  lemma ErrorBytes()
    ensures Body(Error([0x61], [0x62])) == [0x83] + ([1, 0, 0, 0, 0x61] + [1, 0, 0, 0, 0x62])
  {
    hide Le, PutBytes;
    OneByte(0x61);
    OneByte(0x62);
  }

  // ----- what a worker answers -------------------------------------------------

  lemma StateBytes(line: nat)
    requires line < 256
    ensures PutState(Running) == [0]
    ensures PutState(Faulted(Fault([0x61], [0x62], if line == 0 then None else Some(line), [0x63]))) ==
            [1] + ([1, 0, 0, 0, 0x61] + ([1, 0, 0, 0, 0x62] + ([line, 0, 0, 0] + [1, 0, 0, 0, 0x63])))
  {
    hide Le, PutBytes, Utf8.Valid;
    SmallLe4(line);
    OneByte(0x61);
    OneByte(0x62);
    OneByte(0x63);
  }

  /** A sample is a signed word of two bytes, lowest first. */
  lemma AudioBytes()
    ensures PutAudio([-2]) == [1, 0, 0, 0] + [0xFE, 0xFF] && PutAudio([0x102]) == [1, 0, 0, 0] + [2, 1]
  {
    hide Le;
    SmallLe4(1);
    Le2(0xFFFE);
    Le2(0x102);
    One(PutI16, -2);
    One(PutI16, 0x102);
  }

  /** A picture of one row of two pixels and a palette of one colour, a line of log,
      a profile of one category, no sound, no saves, one command, room for four. */
  lemma FrameBytes()
    ensures var frame := OwnedFrame(Picture(7, 2, 1, [5, 6], [Rgb(10, 20, 30)]), Running, [[0x61]],
                                    Profile(8, 9, [11]), []);
            Body(FrameOut(frame, [], [Leave], 4)) ==
            [0x82] + ((
              ([7, 0, 0, 0, 0, 0, 0, 0] + ([2, 0, 0, 0] + ([1, 0, 0, 0] + ([5, 6] + [10, 20, 30]))))
              + ([0]
              + (([1, 0, 0, 0] + [1, 0, 0, 0, 0x61])
              + (([8, 0, 0, 0, 0, 0, 0, 0] + ([9, 0, 0, 0, 0, 0, 0, 0] + [11, 0, 0, 0, 0, 0, 0, 0]))
              + ([0, 0, 0, 0] + [])))))
            + (([0, 0, 0, 0] + [])
            + (([1, 0, 0, 0] + [4])
            + [4, 0, 0, 0])))
  {
    hide Le, PutBytes, PutAll;
    SmallLe4(0);
    SmallLe4(1);
    SmallLe4(2);
    SmallLe4(4);
    SmallLe8(7);
    SmallLe8(8);
    SmallLe8(9);
    SmallLe8(11);
    OneByte(0x61);
    One(PutRgb, Rgb(10, 20, 30));
    One(PutBytes, [0x61]);
    One(PutU64, 11);
    One(PutI16, 0);
    One(PutSave, Save(0, []));
    One(PutCommand, Leave);
  }
}
