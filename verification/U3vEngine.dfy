/**
 The stream endpoint as the fake camera implements it: a queue of device
 transfers with offsets, and one loop that fills a host transfer. Every
 operation is proved to be the one `U3vStream` specifies.
 */
module U3vEngine {
  import opened Arithmetic
  import opened Bytes
  import opened U3vWire
  import opened U3vStream

  datatype DeviceTransfer = DeviceTransfer(kind: Part, data: seq<byte>, offset: nat)

  datatype Block = Block(
    id: nat, timestamp: nat, transfers: seq<DeviceTransfer>, sent: nat, overrun: bool, height: nat)

  /**
   The trailer is last, and empty until it is due; nothing before it is
   finished; the leader, if it is still there, comes first.
   */
  ghost predicate ValidBlock(b: Block) {
    var ts := b.transfers;
    var last := |ts| - 1;
    && ts != []
    && ts[last].kind.Trailer? && ts[last].offset == 0
    && (ts[last].data == []
        || (last == 0 && ts[0].data == BuildTrailer(b.id, Status(b.overrun), b.sent, b.height)))
    && (forall i :: 0 <= i < last ==> !ts[i].kind.Trailer? && ts[i].offset < |ts[i].data|)
    && (forall i :: 0 < i < last ==> ts[i].kind.Payload?)
    && (ts[0].kind.Leader? ==> |ts[0].data| < MAX_PACKET)
  }

  /** The packets the transfers before the trailer are still good for. */
  ghost function Pending(ts: seq<DeviceTransfer>): seq<Packet>
    requires forall i :: 0 <= i < |ts| ==> ts[i].offset <= |ts[i].data|
  {
    if |ts| <= 1 then []
    else Cut(ts[0].kind, ts[0].data[ts[0].offset..]) + Pending(ts[1..])
  }

  ghost function Abstract(b: Block): Sending
    requires ValidBlock(b)
  {
    Sending(b.id, b.timestamp, b.height, Pending(b.transfers), b.sent, b.overrun)
  }

  function Fresh(kind: Part, pieces: seq<seq<byte>>): (r: seq<DeviceTransfer>)
    ensures |r| == |pieces|
    ensures forall i :: 0 <= i < |r| ==> r[i] == DeviceTransfer(kind, pieces[i], 0)
  {
    seq(|pieces|, i requires 0 <= i < |pieces| => DeviceTransfer(kind, pieces[i], 0))
  }

  lemma {:induction false} PendingFresh(pieces: seq<seq<byte>>, trailer: DeviceTransfer)
    requires trailer.offset <= |trailer.data|
    ensures Pending(Fresh(Payload, pieces) + [trailer]) == CutAll(Payload, pieces)
  {
    if pieces != [] {
      PendingFresh(pieces[1..], trailer);
      var ts := Fresh(Payload, pieces) + [trailer];
      assert ts[1..] == Fresh(Payload, pieces[1..]) + [trailer];
      assert pieces[0][0..] == pieces[0];
    }
  }

  /** The first packet of a block that is not down to its trailer. */
  lemma {:induction false} FirstPacket(b: Block)
    requires ValidBlock(b) && |b.transfers| > 1
    ensures var t := b.transfers[0];
            var n := Min(|t.data| - t.offset, MAX_PACKET);
            && n > 0
            && Packets(Abstract(b))[0] == Packet(t.kind, t.data[t.offset..t.offset + n])
            && Abstract(b).packets != []
  {
  }

  /** The transfers after `n` bytes of the first have gone. */
  function Advanced(ts: seq<DeviceTransfer>, n: nat): seq<DeviceTransfer>
    requires ts != []
  {
    var t := ts[0].(offset := ts[0].offset + n);
    if t.offset == |t.data| then ts[1..] else [t] + ts[1..]
  }

  /** Sending the first packet leaves exactly the others pending. */
  lemma {:induction false} AdvancePending(b: Block)
    requires ValidBlock(b) && |b.transfers| > 1
    ensures ValidBlock(AdvancedBlock(b))
    ensures Pending(AdvancedBlock(b).transfers) == Abstract(b).packets[1..]
  {
    var ts := b.transfers;
    var t := ts[0];
    var rest := t.data[t.offset..];
    var n := Min(|rest|, MAX_PACKET);
    var moved := Advanced(ts, n);
    if |rest| <= MAX_PACKET {
      assert Cut(t.kind, rest)[1..] == [];
    } else {
      assert t.data[t.offset + n..] == rest[MAX_PACKET..];
      assert Cut(t.kind, rest)[1..] == Cut(t.kind, rest[MAX_PACKET..]);
      assert moved[1..] == ts[1..];
    }
  }

  /** A valid block whose first transfer has a packet to send. */
  ghost predicate Due(b: Block) {
    && ValidBlock(b)
    && b.transfers[0].offset < |b.transfers[0].data|
  }

  lemma {:induction false} NextPacket(b: Block)
    requires Due(b)
    ensures var t := b.transfers[0];
            var n := Min(|t.data| - t.offset, MAX_PACKET);
            Packets(Abstract(b))[0] == Packet(t.kind, t.data[t.offset..t.offset + n])
  {
  }

  /** The block after its first packet, leader or payload, has gone. */
  function AdvancedBlock(b: Block): Block
    requires b.transfers != [] && b.transfers[0].offset <= |b.transfers[0].data|
  {
    var t := b.transfers[0];
    var n := Min(|t.data| - t.offset, MAX_PACKET);
    b.(transfers := Advanced(b.transfers, n), sent := if t.kind.Payload? then b.sent + n else b.sent)
  }

  lemma {:induction false} AdvanceBlock(b: Block)
    requires Due(b) && |b.transfers| > 1
    ensures var s := Abstract(b);
            && ValidBlock(AdvancedBlock(b))
            && s.packets != []
            && Abstract(AdvancedBlock(b))
               == s.(packets := s.packets[1..], sent := s.sent + PayloadLength(Packets(s)[..1]))
  {
    hide Pending, Cut, ValidBlock, Packets, Advanced;
    FirstPacket(b);
    AdvancePending(b);
    var p := Packets(Abstract(b))[0];
    assert Packets(Abstract(b))[..1] == [p];
    assert [p][1..] == [];
  }

  lemma {:induction false} AfterOne(c: Camera)
    requires c.block.Some? && !Stalls(c.stallAfter, Packets(c.block.value)[..1])
    ensures var s := c.block.value;
            var counted := c.(stallAfter := CountDown(c.stallAfter, Packets(s)[..1]));
            After(c, 1) == if s.packets == [] then Completed(counted, s)
                           else counted.(block := Some(s.(packets := s.packets[1..],
                                                          sent := s.sent + PayloadLength(Packets(s)[..1]))))
  {
  }

  /** Popping the first packet is what the specification calls one packet gone. */
  lemma {:induction false} PopIsAfter(b: Block, c: Camera)
    requires Due(b) && c.block == Some(Abstract(b))
    requires !Stalls(c.stallAfter, Packets(Abstract(b))[..1])
    ensures var counted := c.(stallAfter := CountDown(c.stallAfter, Packets(Abstract(b))[..1]));
            if |b.transfers| > 1
            then ValidBlock(AdvancedBlock(b))
                 && After(c, 1) == counted.(block := Some(Abstract(AdvancedBlock(b))))
            else After(c, 1) == Completed(counted, Abstract(b))
  {
    AfterOne(c);
    if |b.transfers| > 1 {
      AdvanceBlock(b);
    }
  }

  /** What the first packet decides about a transfer that holds `out`. */
  lemma {:induction false} TakeOne(c: Camera, out: seq<byte>, len: nat)
    requires c.block.Some? && |out| <= len
    ensures var ps := Packets(c.block.value);
            var k := Take(ps, len - |out|);
            && ps[..1] == [ps[0]]
            && PayloadCount(ps[..1]) == (if ps[0].kind.Payload? then 1 else 0)
            && Content(ps[..1]) == ps[0].bytes
            && (|out| + |ps[0].bytes| > len ==> k == 0)
            && (|out| + |ps[0].bytes| <= len ==> k > 0)
            && (k > 0 && ps[0].kind.Payload? && c.stallAfter == Some(0) ==> Stalls(c.stallAfter, ps[..k]))
  {
  }

  /** A payload packet that goes out without an overrun leaves none to come in the same transfer. */
  lemma {:induction false} StillFits(c: Camera, queued: nat)
    requires c.block.Some? && !Overruns(c, c.block.value, queued)
    requires !Stalls(c.stallAfter, Packets(c.block.value)[..1]) && |Packets(c.block.value)| > 1
    requires Packets(c.block.value)[0].kind.Payload?
    ensures var c' := After(c, 1);
            c'.block.Some? && !Overruns(c', c'.block.value, queued)
  {
  }

  /** The first packet decides how a transfer that holds `out` ends, or that it goes on. */
  lemma {:induction false} PacketDecides(c: Camera, out: seq<byte>, len: nat, queued: nat)
    requires c.block.Some? && |out| <= len
    requires !Overruns(c, c.block.value, queued)
    requires 0 < |Packets(c.block.value)[0].bytes| <= MAX_PACKET
    requires |Packets(c.block.value)[0].bytes| == MAX_PACKET ==> Packets(c.block.value)[0].kind.Payload?
    ensures var p := Packets(c.block.value)[0];
            var full := out + p.bytes;
            if |full| > len then
              Finish(c, out, len) == (c, if out == [] then Overflow else Data(out))
            else if p.kind.Payload? && c.stallAfter == Some(0) then
              Finish(c, out, len) == (c.(stallAfter := None, halted := true, block := None), Stalled)
            else
              && !Stalls(c.stallAfter, Packets(c.block.value)[..1])
              && CountDown(c.stallAfter, Packets(c.block.value)[..1])
                 == (if p.kind.Payload? && c.stallAfter.Some? then Some(c.stallAfter.value - 1) else c.stallAfter)
              && (if |p.bytes| < MAX_PACKET || |full| == len then
                    Finish(c, out, len) == (After(c, 1), Data(full))
                  else
                    var c' := After(c, 1);
                    && c'.block.Some? && !Overruns(c', c'.block.value, queued)
                    && Finish(c, out, len) == Finish(c', full, len))
  {
    TakeOne(c, out, len);
    var p := Packets(c.block.value)[0];
    if |out| + |p.bytes| <= len && !(p.kind.Payload? && c.stallAfter == Some(0)) {
      if |p.bytes| == MAX_PACKET && |out| + MAX_PACKET < len {
        FinishStep(c, out, len);
        StillFits(c, queued);
      }
    }
  }

  /** A transfer holding data goes on with a block under way that has nothing to drop. */
  ghost predicate Resumable(c: Camera, out: seq<byte>, len: nat, queued: nat) {
    && Streaming(c) && |out| <= len
    && (out != [] ==> c.block.Some? && !Overruns(c, c.block.value, queued))
  }

  /** A host transfer still to be filled, wherever the device has got to. */
  ghost function Resume(c: Camera, out: seq<byte>, len: nat, queued: nat, p: Pace): (Camera, Outcome)
    requires Resumable(c, out, len, queued)
  {
    if out == [] then Transfer(c, len, queued, p) else Finish(c, out, len)
  }

  lemma {:induction false} ResumeStarted(c: Camera, len: nat, queued: nat, p: Pace)
    requires Starts(c, p)
    ensures Resumable(c, [], len, queued) && Resumable(Started(c, p), [], len, queued)
    ensures Resume(Started(c, p), [], len, queued, p) == Resume(c, [], len, queued, p)
  {
  }

  lemma {:induction false} ResumeDropped(c: Camera, out: seq<byte>, len: nat, queued: nat, p: Pace)
    requires Resumable(c, out, len, queued) && c.block.Some? && Overruns(c, c.block.value, queued)
    ensures var c' := c.(block := Some(DropPayload(c.block.value)));
            && Resumable(c', out, len, queued)
            && Resume(c', out, len, queued, p) == Resume(c, out, len, queued, p)
  {
  }

  lemma {:induction false} ResumeFinish(c: Camera, out: seq<byte>, len: nat, queued: nat, p: Pace)
    requires Resumable(c, out, len, queued) && c.block.Some? && !Overruns(c, c.block.value, queued)
    ensures Resume(c, out, len, queued, p) == Finish(c, out, len)
  {
  }

  lemma {:induction false} FreshBlock(b: Block, leader: DeviceTransfer, cut: seq<seq<byte>>)
    requires b.transfers == [leader] + Fresh(Payload, cut) + [DeviceTransfer(Trailer, [], 0)]
    requires leader.kind.Leader? && leader.offset == 0 && 0 < |leader.data| < MAX_PACKET
    requires forall i :: 0 <= i < |cut| ==> cut[i] != []
    ensures ValidBlock(b)
    ensures Pending(b.transfers) == [Packet(Leader, leader.data)] + CutAll(Payload, cut)
  {
    var trailer := DeviceTransfer(Trailer, [], 0);
    assert b.transfers[1..] == Fresh(Payload, cut) + [trailer];
    PendingFresh(cut, trailer);
    assert leader.data[0..] == leader.data;
  }

  lemma {:induction false} PiecesStep(payload: seq<byte>, sizes: seq<nat>)
    requires forall i :: 0 <= i < |sizes| ==> sizes[i] > 0
    ensures if payload == [] || sizes == [] then Pieces(payload, sizes) == []
            else var n := Min(sizes[0], |payload|);
                 Pieces(payload, sizes) == [payload[..n]] + Pieces(payload[n..], sizes[1..])
  {
  }

  /** Cut `payload` at the host's transfer sizes, as far as they reach. */
  method CutPayload(payload: seq<byte>, sizes: seq<nat>) returns (cut: seq<seq<byte>>)
    requires forall i :: 0 <= i < |sizes| ==> sizes[i] > 0
    ensures cut == Pieces(payload, sizes)
  {
    hide Pieces;
    cut := [];
    var at, i := 0, 0;
    assert payload[0..] == payload && sizes[0..] == sizes;
    while i < |sizes| && at < |payload|
      invariant 0 <= i <= |sizes| && 0 <= at <= |payload|
      invariant Pieces(payload, sizes) == cut + Pieces(payload[at..], sizes[i..])
    {
      var end := Min(at + sizes[i], |payload|);
      assert payload[at..][..end - at] == payload[at..end];
      assert payload[at..][end - at..] == payload[end..];
      assert sizes[i..][1..] == sizes[i + 1..];
      PiecesStep(payload[at..], sizes[i..]);
      Associate(cut, [payload[at..end]], Pieces(payload[end..], sizes[i + 1..]));
      cut := cut + [payload[at..end]];
      at, i := end, i + 1;
    }
    PiecesStep(payload[at..], sizes[i..]);
  }

  class StreamEndpoint {
    var regs: Registers
    var acquiring: bool
    var block: Option<Block>
    var nextId: nat
    var required: nat
    var stallAfter: Option<nat>
    var halted: bool
    var events: seq<seq<byte>>
    var eventId: nat

    ghost predicate Valid()
      reads this
    {
      block.Some? ==> ValidBlock(block.value)
    }

    ghost function State(): Camera
      requires Valid()
      reads this
    {
      Camera(regs, acquiring, if block.Some? then Some(Abstract(block.value)) else None,
             nextId, required, stallAfter, halted, events, eventId)
    }

    constructor (regs: Registers)
      ensures Valid()
      ensures State() == Camera(regs, false, None, 0, 0, None, false, [], 0)
    {
      this.regs := regs;
      acquiring := false;
      block := None;
      nextId, required := 0, 0;
      stallAfter := None;
      halted := false;
      events, eventId := [], 0;
    }

    /** Fill the transfer queue for a new block from the registers as they stand, or refuse a layout too small. */
    method StartBlock(p: Pace) returns (started: bool)
      requires Valid() && p.Ready? && block.None?
      modifies this`block, this`nextId
      ensures Valid()
      ensures started <==> LayoutFits(regs.layout)
      ensures State() == if started then Started(old(State()), p) else old(State())
    {
      if regs.layout.maxLeader < LEADER_SIZE || regs.layout.maxTrailer < TRAILER_SIZE {
        return false;
      }
      var id := nextId;
      nextId := nextId + 1;
      var cut := CutPayload(BlockPayload(regs.format, p.pattern, p.now, id), Sizes(regs.layout));
      var leader := DeviceTransfer(Leader, BuildLeader(regs.format, id, p.now), 0);
      var b := Block(id, p.now, [leader] + Fresh(Payload, cut) + [DeviceTransfer(Trailer, [], 0)],
                     0, false, regs.format.height);
      FreshBlock(b, leader, cut);
      block := Some(b);
      return true;
    }

    /** Start a block if the frame rate allows one now; otherwise say why the host gets nothing. */
    method StartWhenDue(p: Pace) returns (idle: Option<Outcome>)
      requires Valid() && block.None?
      modifies this`block, this`nextId
      ensures Valid()
      ensures idle == if p.NotYet? then Some(Nothing)
                      else if !LayoutFits(regs.layout) then Some(BadLayout) else None
      ensures State() == if idle.None? then Started(old(State()), p) else old(State())
    {
      if p.NotYet? {
        return Some(Nothing);
      }
      var started := StartBlock(p);
      return if started then None else Some(BadLayout);
    }

    /** Announce a completed block, under the next request id, while both enables are on. */
    method QueueExposureEnd(id: nat, timestamp: nat)
      modifies this`events, this`eventId
      ensures if regs.eventsEnabled && regs.notifyExposureEnd
              then eventId == NextRequest(old(eventId))
                   && events == old(events) + [EventCommand(eventId, id, timestamp)]
              else eventId == old(eventId) && events == old(events)
    {
      if regs.eventsEnabled && regs.notifyExposureEnd {
        eventId := NextRequest(eventId);
        events := events + [EventCommand(eventId, id, timestamp)];
      }
    }

    /**
     One host transfer on the stream endpoint. The loop's state is always a
     point from which the specified transfer can be resumed, so whichever
     exit it takes is the specified one. No block starts, and none is dropped,
     once the transfer holds data.
     */
    method StreamTransfer(len: nat, queued: nat, p: Pace) returns (r: Outcome)
      requires Valid()
      modifies this
      ensures Valid()
      ensures (State(), r) == Transfer(old(State()), len, queued, p)
    {
      if halted {
        return Stalled;
      }
      if !(regs.streamEnabled && acquiring) {
        return Nothing;
      }
      hide Finish, StartedBlock, Abstract, ValidBlock;
      ghost var target := Transfer(State(), len, queued, p);
      ghost var now := State();
      var out: seq<byte> := [];
      while true
        invariant Valid() && State() == now
        invariant block.None? ==> out == []
        invariant Resumable(now, out, len, queued) && target == Resume(now, out, len, queued, p)
        decreases len - |out|, if block.Some? && block.value.overrun then 0 else 1
      {
        if block.None? {
          var idle := StartWhenDue(p);
          if idle.Some? {
            return idle.value;
          }
          ResumeStarted(now, len, queued, p);
          now := Started(now, p);
        }
        var dropped := DropIfOverrun(queued);
        if dropped {
          ResumeDropped(now, out, len, queued, p);
          now := State();
          continue;
        }
        ResumeFinish(now, out, len, queued, p);
        var done, outcome, more := SendPacket(out, len, queued);
        if done {
          return outcome;
        }
        now, out := State(), more;
        ResumeFinish(now, out, len, queued, p);
      }
    }

    /** Drop the payload still to send when the host has too few transfers queued. */
    method DropIfOverrun(queued: nat) returns (dropped: bool)
      requires Valid() && block.Some?
      modifies this`block
      ensures Valid() && block.Some?
      ensures dropped <==> Overruns(old(State()), old(State()).block.value, queued)
      ensures dropped ==> !old(block).value.overrun && block.value.overrun
      ensures State() == if dropped
                         then old(State()).(block := Some(DropPayload(old(State()).block.value)))
                         else old(State())
    {
      var b := block.value;
      if |b.transfers| > 1 {
        FirstPacket(b);
      }
      dropped := b.transfers[0].kind.Payload? && queued < required && !b.overrun;
      if dropped {
        var kept := Retained(b.transfers);
        OnlyTrailerRetained(b.transfers);
        block := Some(b.(overrun := true, transfers := kept));
      }
    }

    /**
     One packet into a host transfer that holds `out`: the transfer ends here
     (`done`), or goes on with `more`.
     */
    method SendPacket(out: seq<byte>, len: nat, ghost queued: nat)
      returns (done: bool, outcome: Outcome, more: seq<byte>)
      requires Valid() && block.Some? && |out| <= len && Streaming(State())
      requires !Overruns(State(), State().block.value, queued)
      modifies this
      ensures Valid()
      ensures done ==> (State(), outcome) == Finish(old(State()), out, len)
      ensures !done ==>
                && block.Some? && |out| < |more| <= len && Streaming(State())
                && !Overruns(State(), State().block.value, queued)
                && Finish(State(), more, len) == Finish(old(State()), out, len)
    {
      hide Finish, Pending, Cut, BuildTrailer, Packets;
      done, outcome, more := true, Done, out;
      var b := BuildTrailerIfDue(block.value);
      var t := b.transfers[0];
      var n := Min(|t.data| - t.offset, MAX_PACKET);
      var packet := t.data[t.offset..t.offset + n];
      ghost var before := State();
      NextPacket(b);
      PacketDecides(before, out, len, queued);
      if |out| + n > len {
        block := Some(b);
        return true, if out == [] then Overflow else Data(out), out;
      }
      if t.kind.Payload? && stallAfter.Some? {
        if stallAfter.value == 0 {
          stallAfter, halted, block := None, true, None;
          return true, Stalled, out;
        }
        stallAfter := Some(stallAfter.value - 1);
      }
      block := Some(b);
      PopPacket(b, before);
      more := out + packet;
      if n < MAX_PACKET || |more| == len {
        return true, Data(more), more;
      }
      return false, Done, more;
    }

    /** Take the first packet off the block; the trailer's completes it. */
    method PopPacket(b: Block, ghost before: Camera)
      requires Due(b) && block == Some(b) && before.block == Some(Abstract(b))
      requires State() == before.(stallAfter := stallAfter)
      requires !Stalls(before.stallAfter, Packets(Abstract(b))[..1])
      requires stallAfter == CountDown(before.stallAfter, Packets(Abstract(b))[..1])
      modifies this`block, this`events, this`eventId
      ensures Valid() && State() == After(before, 1)
    {
      PopIsAfter(b, before);
      ghost var counted := State();
      if |b.transfers| > 1 {
        block := Some(AdvancedBlock(b));
      } else {
        block := None;
        QueueExposureEnd(b.id, b.timestamp);
        assert State() == Completed(counted, counted.block.value);
      }
    }

    /** An empty trailer at the head of the queue is filled in; the block it stands for stays the same. */
    method BuildTrailerIfDue(b: Block) returns (r: Block)
      requires ValidBlock(b)
      ensures Due(r) && Abstract(r) == Abstract(b)
    {
      var t := b.transfers[0];
      if t.kind.Trailer? && t.data == [] {
        var status := if b.overrun then DATA_OVERRUN else 0;
        var built := t.(data := BuildTrailer(b.id, status, b.sent, b.height));
        r := b.(transfers := [built] + b.transfers[1..]);
      } else {
        r := b;
      }
    }

    /** The host halts and clears the endpoint. */
    method Reset()
      requires Valid()
      modifies this`halted, this`block, this`nextId
      ensures Valid() && State() == ResetStream(old(State()))
    {
      halted := false;
      block := None;
      nextId := 0;
    }

    /** What a register write starts or stops. */
    method Write(w: RegisterWrite)
      requires Valid()
      modifies this`regs, this`acquiring, this`block
      ensures Valid() && State() == Written(old(State()), w)
    {
      regs := if w.touchesControl then w.regs else w.regs.(streamEnabled := regs.streamEnabled);
      if w.touchesStart {
        acquiring := true;
      }
      if w.touchesStop {
        acquiring := false;
      }
      if w.touchesControl && !regs.streamEnabled {
        block := None;
      }
    }

    method StallAfter(packets: nat)
      requires Valid()
      modifies this`stallAfter
      ensures Valid() && State() == old(State()).(stallAfter := Some(packets))
    {
      stallAfter := Some(packets);
    }

    method RequireQueued(transfers: nat)
      requires Valid()
      modifies this`required
      ensures Valid() && State() == old(State()).(required := transfers)
    {
      required := transfers;
    }
  }

  /** The transfers that are not payload, in order. */
  function Retained(ts: seq<DeviceTransfer>): seq<DeviceTransfer> {
    if ts == [] then []
    else if ts[0].kind.Payload? then Retained(ts[1..])
    else [ts[0]] + Retained(ts[1..])
  }

  lemma {:induction false} OnlyTrailerRetained(ts: seq<DeviceTransfer>)
    requires ts != [] && !ts[|ts| - 1].kind.Payload?
    requires forall i :: 0 <= i < |ts| - 1 ==> ts[i].kind.Payload?
    ensures Retained(ts) == [ts[|ts| - 1]]
  {
    if |ts| > 1 {
      OnlyTrailerRetained(ts[1..]);
    } else {
      assert ts[1..] == [];
    }
  }
}
