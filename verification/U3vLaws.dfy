/**
 When the stream endpoint sends and what, said of the device's fields and the
 wire's own numbers rather than of the specification's branches.
 */
module U3vLaws {
  import opened Arithmetic
  import opened Bytes
  import opened U3vWire
  import opened U3vStream
  import opened U3vRuns
  import opened U3vTheorems
  import U3vHost

  // ---------------------------------------------------------------- when nothing is sent

  /** A device that is not acquiring, or whose stream is disabled, sends nothing and keeps its state. */
  lemma {:induction false} IdleSendsNothing(c: Camera, len: nat, queued: nat, p: Pace)
    requires !c.halted && (!c.acquiring || !c.regs.streamEnabled)
    ensures Transfer(c, len, queued, p) == (c, Nothing)
  {
  }

  /**
   A device that is ready starts a block: not before its time, not with a layout
   too small for leader or trailer, and otherwise with that block's leader.
   */
  lemma {:induction false} ReadySendsLeader(c: Camera, len: nat, queued: nat, p: Pace)
    requires !c.halted && c.acquiring && c.regs.streamEnabled && c.block.None?
    ensures p.NotYet? ==> Transfer(c, len, queued, p) == (c, Nothing)
    ensures p.Ready? && (c.regs.layout.maxLeader < 52 || c.regs.layout.maxTrailer < 32) ==>
              Transfer(c, len, queued, p) == (c, BadLayout)
    ensures p.Ready? && c.regs.layout.maxLeader >= 52 && c.regs.layout.maxTrailer >= 32 ==>
              var (c', r) := Transfer(c, len, queued, p);
              && c'.nextId == c.nextId + 1 && c'.block.Some? && c'.block.value.id == c.nextId
              && r == if len >= 52 then Data(BuildLeader(c.regs.format, c.nextId, p.now)) else Overflow
  {
    hide BuildLeader, BlockPayload, Finish, Pieces, CutAll, Tracks;
    if p.Ready? && LayoutFits(c.regs.layout) {
      var c0 := Started(c, p);
      StartTracks(c, p);
      LeaderAlone(c0, Open(StartOf(c, p), []), len);
      FinishKeepsId(c0, len);
    }
  }

  lemma {:induction false} FinishKeepsId(c: Camera, len: nat)
    requires c.block.Some?
    ensures var c' := Finish(c, [], len).0;
            c'.block.Some? ==> c'.block.value.id == c.block.value.id && c'.nextId == c.nextId
  {
    hide Packets, Take, Content, PayloadLength, PayloadCount;
  }

  /** No write starts acquisition, or none that does not stop it in the same breath. */
  predicate NeverStarts(ops: seq<Op>) {
    forall i :: 0 <= i < |ops| && ops[i].Write? ==> !ops[i].write.touchesStart || ops[i].write.touchesStop
  }

  /** Acquisition follows the writes that touch its registers, and nothing else does. */
  lemma {:induction false} AcquisitionFollowsWrites(c: Camera, op: Op)
    ensures Step(c, op).0.acquiring ==
            if op.Write? && op.write.touchesStop then false
            else if op.Write? && op.write.touchesStart then true
            else c.acquiring
  {
    hide Finish, StartedBlock, Packets;
    if op.Read? {
      TransferKeepsAcquiring(c, op.len, op.queued, op.pace);
    }
  }

  lemma {:induction false} TransferKeepsAcquiring(c: Camera, len: nat, queued: nat, p: Pace)
    ensures Transfer(c, len, queued, p).0.acquiring == c.acquiring
  {
    hide Packets, StartedBlock, Take, Content, PayloadLength, PayloadCount, EventCommand;
  }

  /** From AcquisitionStop until the next AcquisitionStart no step returns data, in any run. */
  lemma {:induction false} StoppedSendsNothing(c: Camera, ops: seq<Op>)
    requires !c.acquiring && NeverStarts(ops)
    ensures NoData(c, ops) && !Reach(c, ops).acquiring
    ensures Returned(c, ops) == []
    decreases |ops|
  {
    hide Transfer;
    if ops != [] {
      AcquisitionFollowsWrites(c, ops[0]);
      if ops[0].Read? && !c.halted {
        IdleSendsNothing(c, ops[0].len, ops[0].queued, ops[0].pace);
      }
      if ops[0].Read? && c.halted {
        HaltedSendsNothing(c, ops[0].len, ops[0].queued, ops[0].pace);
      }
      StoppedSendsNothing(Step(c, ops[0]).0, ops[1..]);
    }
  }

  lemma {:induction false} HaltedSendsNothing(c: Camera, len: nat, queued: nat, p: Pace)
    requires c.halted
    ensures Transfer(c, len, queued, p) == (c, Stalled)
  {
  }

  // ---------------------------------------------------------------- overrun and stall

  /** A block under way with payload next, on a device that streams. */
  predicate PayloadNext(c: Camera) {
    && !c.halted && c.acquiring && c.regs.streamEnabled && c.block.Some? && !c.block.value.overrun
    && c.block.value.packets != [] && c.block.value.packets[0].kind.Payload?
  }

  /** Too few transfers queued: the rest of the payload is gone and all that comes is a trailer with status 0xA101. */
  lemma {:induction false} OverrunLeavesTrailer(c: Camera, len: nat, queued: nat, p: Pace)
    requires PayloadNext(c) && queued < c.required && len >= 32
    ensures var s := c.block.value;
            var (c', r) := Transfer(c, len, queued, p);
            r == Data(BuildTrailer(s.id, 0xA101, s.sent, s.height)) && c'.block.None?
  {
    hide BuildTrailer, Finish;
    var s := DropPayload(c.block.value);
    var c0 := c.(block := Some(s));
    var trailer := Packet(Trailer, BuildTrailer(s.id, 0xA101, s.sent, s.height));
    assert Packets(s) == [trailer] && [trailer][1..] == [];
    assert PayloadCount([trailer]) == 0;
    assert Take([trailer], len) == 1;
    FinishCases(c0, len);
    ContentOne(trailer);
    assert [trailer][..1] == [trailer];
  }

  /** Enough transfers queued and no stall armed: the transfer begins with the next packet's bytes. */
  lemma {:induction false} EnoughQueuedSends(c: Camera, len: nat, queued: nat, p: Pace)
    requires PayloadNext(c) && queued >= c.required && c.stallAfter.None?
    requires len >= |c.block.value.packets[0].bytes| > 0
    ensures var first := c.block.value.packets[0].bytes;
            var r := Transfer(c, len, queued, p).1;
            r.Data? && first <= r.bytes
  {
    hide BuildTrailer, Finish, Take;
    var ps := Packets(c.block.value);
    FinishCases(c, len);
    assert ps[0] == c.block.value.packets[0];
    TakesFirst(ps, len);
    var n := Take(ps, len);
    assert ps[..n][0] == ps[0];
    assert n == |ps| ==> ps[..n] == ps;
  }

  lemma {:induction false} TakesFirst(ps: seq<Packet>, room: nat)
    requires ps != [] && |ps[0].bytes| <= room
    ensures Take(ps, room) >= 1
  {
  }

  /**
   A stall armed after `k` payload packets comes in the transfer that would send
   one more, and before that the count goes down by what each transfer sends.
   */
  lemma {:induction false} StallComesAfter(c: Camera, len: nat, queued: nat, p: Pace, k: nat)
    requires PayloadNext(c) && queued >= c.required && c.stallAfter == Some(k)
    requires len >= |c.block.value.packets[0].bytes|
    ensures var ps := Packets(c.block.value);
            var sent := PayloadCount(ps[..Take(ps, len)]);
            var (c', r) := Transfer(c, len, queued, p);
            if sent > k then r == Stalled && c'.halted && c'.block.None? && c'.stallAfter.None?
            else r.Data? && !c'.halted && c'.stallAfter == Some(k - sent)
  {
    hide BuildTrailer, Take, Content, PayloadLength, PayloadCount;
    TakesFirst(Packets(c.block.value), len);
  }

  /** Device transfers go out in packets of 1024 bytes, the last of each as long as what is left. */
  lemma {:induction false} PacketsAreFull(kind: Part, data: seq<byte>)
    ensures var ps := Cut(kind, data);
            && Content(ps) == data
            && (forall i :: 0 <= i < |ps| ==> ps[i].kind == kind && 1 <= |ps[i].bytes| <= 1024)
            && (forall i :: 0 <= i < |ps| - 1 ==> |ps[i].bytes| == 1024)
    decreases |data|
  {
    CutContent(kind, data);
    hide Content;
    if |data| > 1024 {
      PacketsAreFull(kind, data[1024..]);
    }
  }

  // ---------------------------------------------------------------- the size of a frame

  /** The bits of a frame fill its bytes but for fewer than eight: bits 16 to 23 of the format are a pixel's depth. */
  lemma {:induction false} FrameHoldsItsBits(width: nat, height: nat, high: nat, depth: nat, low: nat)
    requires depth < 256 && low < 0x1_0000
    ensures var size := PayloadBytes(width, height, high * 0x100_0000 + depth * 0x1_0000 + low);
            8 * size >= width * height * depth > 8 * size - 8
  {
    var format := high * 0x100_0000 + depth * 0x1_0000 + low;
    DivModIs(format, 0x1_0000, high * 256 + depth, low);
    DivModIs(high * 256 + depth, 256, high, depth);
    hide PayloadBytes;
    PayloadBytesIs(width, height, format, depth);
  }

  lemma {:induction false} PayloadBytesIs(width: nat, height: nat, format: nat, depth: nat)
    requires format / 0x1_0000 % 256 == depth
    ensures PayloadBytes(width, height, format) == (width * height * depth + 7) / 8
  {
  }

  // ---------------------------------------------------------------- event commands

  function RequestAt(k: nat): nat {
    if k == 0 then 0 else NextRequest(RequestAt(k - 1))
  }

  /** Event commands are numbered from 1 to 65535 and round again, 0 never used. */
  lemma {:induction false} RequestsCycle(k: nat)
    requires k >= 1
    ensures RequestAt(k) == (k - 1) % 65535 + 1
  {
    if k > 1 {
      RequestsCycle(k - 1);
      NextRemainder(k - 2, 65535);
    }
  }

  /** The event endpoint serves the oldest command while events are on, and loses one that does not fit. */
  lemma {:induction false} EventServed(c: Camera, len: nat)
    ensures !c.regs.eventsEnabled || c.events == [] ==> U3vHost.EventTransfer(c, len) == (c, Nothing)
    ensures c.regs.eventsEnabled && c.events != [] ==>
              U3vHost.EventTransfer(c, len)
              == (c.(events := c.events[1..]),
                  if |c.events[0]| <= len then Data(c.events[0]) else Overflow)
  {
  }

  // ---------------------------------------------------------------- how a block is cut

  /** The transfer sizes in the SIRM's order: the equal ones, then the two final ones, zeros left out. */
  lemma {:induction false} SizesInOrder(l: Layout)
    ensures var equal := if l.transferSize > 0 then l.transferCount else 0;
            && |Sizes(l)| >= equal
            && (forall i :: 0 <= i < equal ==> Sizes(l)[i] == l.transferSize)
            && Sizes(l)[equal..]
               == (if l.final1 > 0 then [l.final1] else []) + (if l.final2 > 0 then [l.final2] else [])
  {
    var base, last := Repeat(l.transferSize, l.transferCount), [l.final1, l.final2];
    NonZeroAppend(base, last);
    NonZeroRepeat(l.transferSize, l.transferCount);
    assert last[1..] == [l.final2] && [l.final2][1..] == [];
    assert NonZero([l.final2]) == if l.final2 > 0 then [l.final2] else [];
  }

  lemma {:induction false} NonZeroAppend(a: seq<nat>, b: seq<nat>)
    ensures NonZero(a + b) == NonZero(a) + NonZero(b)
  {
    if a == [] {
      assert a + b == b;
    } else {
      assert (a + b)[1..] == a[1..] + b;
      NonZeroAppend(a[1..], b);
    }
  }

  lemma {:induction false} NonZeroRepeat(x: nat, n: nat)
    ensures NonZero(Repeat(x, n)) == if x > 0 then Repeat(x, n) else []
  {
    if n > 0 {
      assert Repeat(x, n)[1..] == Repeat(x, n - 1);
      NonZeroRepeat(x, n - 1);
    }
  }

  /** Every piece of a payload fills its transfer but the last one, which may be shorter. */
  lemma {:induction false} PiecesFill(payload: seq<byte>, sizes: seq<nat>)
    requires forall i :: 0 <= i < |sizes| ==> sizes[i] > 0
    ensures var p := Pieces(payload, sizes);
            && |p| <= |sizes|
            && (forall i :: 0 <= i < |p| ==> |p[i]| <= sizes[i])
            && (forall i :: 0 <= i < |p| - 1 ==> |p[i]| == sizes[i])
    decreases |sizes|
  {
    if payload != [] && sizes != [] {
      var rest := payload[Min(sizes[0], |payload|)..];
      PiecesFill(rest, sizes[1..]);
      var p := Pieces(payload, sizes);
      assert p[1..] == Pieces(rest, sizes[1..]);
      assert forall i :: 0 < i < |p| ==> p[i] == p[1..][i - 1] && sizes[i] == sizes[1..][i - 1];
    }
  }

  // ---------------------------------------------------------------- register writes

  /** A block under way survives every write but one to the control register that leaves the stream disabled. */
  lemma {:induction false} OnlyDisablingAbandons(c: Camera, w: RegisterWrite)
    ensures var d := Step(c, Op.Write(w)).0;
            && d.block == (if w.touchesControl && !w.regs.streamEnabled then None else c.block)
            && d.nextId == c.nextId && d.halted == c.halted && d.events == c.events
            && d.regs.format == w.regs.format && d.regs.layout == w.regs.layout
  {
  }
}
