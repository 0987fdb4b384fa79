/**
 The USB3 Vision stream endpoint. The specification sees a block as the list
 of packets still to go; the engine below it keeps the device's own queue of
 transfers and offsets, and fills host transfers in one loop.
 */
module U3vStream {
  import opened Bytes
  import opened U3vWire

  datatype Part = Leader | Payload | Trailer

  datatype Packet = Packet(kind: Part, bytes: seq<byte>)

  /** The registers the stream depends on. */
  datatype Registers = Registers(
    streamEnabled: bool, layout: Layout, format: Format, eventsEnabled: bool, notifyExposureEnd: bool)

  /** Whether the frame rate lets a block start now, and what it would be made of. */
  datatype Pace = NotYet | Ready(now: nat, pattern: seq<byte>)

  datatype Outcome = Data(bytes: seq<byte>) | Nothing | Stalled | Overflow | BadLayout | Done

  /** A WRITEMEM the device accepted: the registers after it, and which of those with side effects it touched. */
  datatype RegisterWrite = RegisterWrite(
    regs: Registers, touchesStart: bool, touchesStop: bool, touchesControl: bool)

  // ---------------------------------------------------------------- specification

  /** A block on its way out: the packets of leader and payload still to send. */
  datatype Sending = Sending(
    id: nat, timestamp: nat, height: nat, packets: seq<Packet>, sent: nat, overrun: bool)

  datatype Camera = Camera(
    regs: Registers, acquiring: bool, block: Option<Sending>, nextId: nat, required: nat,
    stallAfter: Option<nat>, halted: bool, events: seq<seq<byte>>, eventId: nat)

  /** The packets of one device transfer's data. */
  function Cut(kind: Part, data: seq<byte>): (r: seq<Packet>)
    decreases |data|
  {
    if data == [] then []
    else if |data| <= MAX_PACKET then [Packet(kind, data)]
    else [Packet(kind, data[..MAX_PACKET])] + Cut(kind, data[MAX_PACKET..])
  }

  function CutAll(kind: Part, pieces: seq<seq<byte>>): seq<Packet> {
    if pieces == [] then [] else Cut(kind, pieces[0]) + CutAll(kind, pieces[1..])
  }

  /** The bytes of these packets, in order. */
  function Content(ps: seq<Packet>): seq<byte> {
    if ps == [] then [] else ps[0].bytes + Content(ps[1..])
  }

  /** How many of these packets carry payload, and how many bytes they carry. */
  function PayloadCount(ps: seq<Packet>): nat {
    if ps == [] then 0 else (if ps[0].kind.Payload? then 1 else 0) + PayloadCount(ps[1..])
  }

  function PayloadLength(ps: seq<Packet>): nat {
    if ps == [] then 0 else (if ps[0].kind.Payload? then |ps[0].bytes| else 0) + PayloadLength(ps[1..])
  }

  function Status(overrun: bool): nat {
    if overrun then DATA_OVERRUN else 0
  }

  /** Everything the device will still send of a block if nothing more is dropped. */
  function Packets(s: Sending): (r: seq<Packet>)
    ensures r != []
  {
    s.packets
    + [Packet(Trailer, BuildTrailer(s.id, Status(s.overrun), s.sent + PayloadLength(s.packets), s.height))]
  }

  /**
   How many packets a host transfer with `room` bytes left collects: until a
   packet does not fit, the transfer is full, or a short packet ends it.
   */
  function Take(ps: seq<Packet>, room: nat): (n: nat)
    ensures n <= |ps|
  {
    if ps == [] || |ps[0].bytes| > room then 0
    else if |ps[0].bytes| < MAX_PACKET || |ps[0].bytes| == room then 1
    else 1 + Take(ps[1..], room - |ps[0].bytes|)
  }

  function StartedBlock(c: Camera, p: Pace): (s: Sending)
    requires p.Ready?
  {
    var payload := BlockPayload(c.regs.format, p.pattern, p.now, c.nextId);
    Sending(
      c.nextId, p.now, c.regs.format.height,
      [Packet(Leader, BuildLeader(c.regs.format, c.nextId, p.now))]
      + CutAll(Payload, Pieces(payload, Sizes(c.regs.layout))),
      0, false)
  }

  /** The device gives the rest of the payload up: the host has too few transfers queued. */
  predicate Overruns(c: Camera, s: Sending, queued: nat) {
    s.packets != [] && s.packets[0].kind.Payload? && queued < c.required && !s.overrun
  }

  function DropPayload(s: Sending): Sending {
    s.(packets := [], overrun := true)
  }

  function NextRequest(id: nat): nat {
    if id == 0xFFFF then 1 else id + 1
  }

  /** The block is complete: gone, and an ExposureEnd queued if the host asked for it. */
  function Completed(c: Camera, s: Sending): Camera {
    if c.regs.eventsEnabled && c.regs.notifyExposureEnd then
      var request := NextRequest(c.eventId);
      c.(block := None, eventId := request,
         events := c.events + [EventCommand(request, s.id, s.timestamp)])
    else c.(block := None)
  }

  predicate Stalls(left: Option<nat>, ps: seq<Packet>) {
    left.Some? && PayloadCount(ps) > left.value
  }

  function CountDown(left: Option<nat>, ps: seq<Packet>): Option<nat>
    requires !Stalls(left, ps)
  {
    if left.Some? then Some(left.value - PayloadCount(ps)) else None
  }

  /** The device after the first `n` packets of its block have gone. */
  function After(c: Camera, n: nat): Camera
    requires c.block.Some? && n <= |Packets(c.block.value)|
    requires !Stalls(c.stallAfter, Packets(c.block.value)[..n])
  {
    var s := c.block.value;
    var ps := Packets(s)[..n];
    var counted := c.(stallAfter := CountDown(c.stallAfter, ps));
    if n == |Packets(s)| then Completed(counted, s)
    else counted.(block := Some(s.(packets := s.packets[n..], sent := s.sent + PayloadLength(ps))))
  }

  /** A host transfer of `len` bytes that already holds `out`. */
  function Finish(c: Camera, out: seq<byte>, len: nat): (Camera, Outcome)
    requires c.block.Some? && |out| <= len
  {
    var ps := Packets(c.block.value);
    var n := Take(ps, len - |out|);
    if n == 0 then (c, if out == [] then Overflow else Data(out))
    else if Stalls(c.stallAfter, ps[..n]) then
      (c.(stallAfter := None, halted := true, block := None), Stalled)
    else (After(c, n), Data(out + Content(ps[..n])))
  }

  function SendFrom(c: Camera, len: nat, queued: nat): (Camera, Outcome)
    requires c.block.Some?
  {
    var s := c.block.value;
    Finish(if Overruns(c, s, queued) then c.(block := Some(DropPayload(s))) else c, [], len)
  }

  predicate Streaming(c: Camera) {
    !c.halted && c.regs.streamEnabled && c.acquiring
  }

  predicate LayoutFits(l: Layout) {
    l.maxLeader >= LEADER_SIZE && l.maxTrailer >= TRAILER_SIZE
  }

  predicate Starts(c: Camera, p: Pace) {
    Streaming(c) && c.block.None? && p.Ready? && LayoutFits(c.regs.layout)
  }

  function Started(c: Camera, p: Pace): Camera
    requires p.Ready?
  {
    c.(block := Some(StartedBlock(c, p)), nextId := c.nextId + 1)
  }

  /** One host transfer of `len` bytes with `queued` transfers queued in all. */
  function Transfer(c: Camera, len: nat, queued: nat, p: Pace): (Camera, Outcome) {
    if c.halted then (c, Stalled)
    else if !Streaming(c) then (c, Nothing)
    else if c.block.Some? then SendFrom(c, len, queued)
    else if p.NotYet? then (c, Nothing)
    else if !LayoutFits(c.regs.layout) then (c, BadLayout)
    else SendFrom(Started(c, p), len, queued)
  }

  function ResetStream(c: Camera): Camera {
    c.(halted := false, block := None, nextId := 0)
  }

  function Written(c: Camera, w: RegisterWrite): Camera {
    var regs := if w.touchesControl then w.regs
                else w.regs.(streamEnabled := c.regs.streamEnabled);
    c.(regs := regs,
       acquiring := if w.touchesStop then false else if w.touchesStart then true else c.acquiring,
       block := if w.touchesControl && !regs.streamEnabled then None else c.block)
  }

  // ---------------------------------------------------------------- lemmas on packets

  lemma {:induction false} ContentAppend(a: seq<Packet>, b: seq<Packet>)
    ensures Content(a + b) == Content(a) + Content(b)
  {
    if a == [] {
      assert a + b == b;
    } else {
      ContentAppend(a[1..], b);
      assert (a + b)[1..] == a[1..] + b;
      hide Content;
      Associate(a[0].bytes, Content(a[1..]), Content(b));
    }
  }

  lemma {:induction false} ContentOne(p: Packet)
    ensures Content([p]) == p.bytes
  {
    assert [p][1..] == [];
  }

  lemma {:induction false} PayloadAppend(a: seq<Packet>, b: seq<Packet>)
    ensures PayloadCount(a + b) == PayloadCount(a) + PayloadCount(b)
    ensures PayloadLength(a + b) == PayloadLength(a) + PayloadLength(b)
  {
    if a == [] {
      assert a + b == b;
    } else {
      PayloadAppend(a[1..], b);
      assert (a + b)[1..] == a[1..] + b;
    }
  }

  lemma {:induction false} NoContent()
    ensures Content([]) == [] && PayloadLength([]) == 0
  {
  }

  lemma {:induction false} ContentCons(p: Packet, ps: seq<Packet>)
    ensures Content([p] + ps) == p.bytes + Content(ps)
    ensures PayloadLength([p] + ps) == (if p.kind.Payload? then |p.bytes| else 0) + PayloadLength(ps)
  {
    assert ([p] + ps)[1..] == ps;
  }

  lemma {:induction false} CutContent(kind: Part, data: seq<byte>)
    ensures Content(Cut(kind, data)) == data
    ensures PayloadLength(Cut(kind, data)) == if kind.Payload? then |data| else 0
    decreases |data|
  {
    hide Content, PayloadLength;
    NoContent();
    if data == [] {
    } else if |data| <= MAX_PACKET {
      ContentCons(Packet(kind, data), []);
      assert [Packet(kind, data)] + [] == Cut(kind, data) && data + [] == data;
    } else {
      CutContent(kind, data[MAX_PACKET..]);
      ContentCons(Packet(kind, data[..MAX_PACKET]), Cut(kind, data[MAX_PACKET..]));
      assert data == data[..MAX_PACKET] + data[MAX_PACKET..];
    }
  }

  lemma {:induction false} CutAllContent(kind: Part, pieces: seq<seq<byte>>)
    ensures Content(CutAll(kind, pieces)) == Join(pieces)
    ensures PayloadLength(CutAll(kind, pieces)) == if kind.Payload? then |Join(pieces)| else 0
  {
    if pieces != [] {
      CutContent(kind, pieces[0]);
      CutAllContent(kind, pieces[1..]);
      ContentAppend(Cut(kind, pieces[0]), CutAll(kind, pieces[1..]));
      PayloadAppend(Cut(kind, pieces[0]), CutAll(kind, pieces[1..]));
    }
  }

  /** Every packet of the list is a payload packet of 1 to 1024 bytes. */
  predicate PayloadOnly(ps: seq<Packet>) {
    forall i :: 0 <= i < |ps| ==> ps[i].kind.Payload? && 0 < |ps[i].bytes| <= MAX_PACKET
  }

  lemma {:induction false} CutPayloadOnly(data: seq<byte>)
    ensures PayloadOnly(Cut(Payload, data))
    decreases |data|
  {
    if |data| > MAX_PACKET {
      CutPayloadOnly(data[MAX_PACKET..]);
    }
  }

  lemma {:induction false} CutAllPayloadOnly(pieces: seq<seq<byte>>)
    ensures PayloadOnly(CutAll(Payload, pieces))
  {
    if pieces != [] {
      CutPayloadOnly(pieces[0]);
      CutAllPayloadOnly(pieces[1..]);
    }
  }

  lemma {:induction false} PayloadOnlyTotals(ps: seq<Packet>)
    requires PayloadOnly(ps)
    ensures PayloadLength(ps) == |Content(ps)|
    ensures PayloadCount(ps) == |ps|
    ensures ps != [] ==> PayloadLength(ps) > 0
  {
    if ps != [] {
      PayloadOnlyTotals(ps[1..]);
    }
  }

  /**
   The transfer the specification describes, said without recursion: the
   packets collected are a prefix, all but the last of them full packets,
   and collecting stops exactly for one of the three reasons.
   */
  lemma {:induction false} TakeIsGreedy(ps: seq<Packet>, room: nat)
    ensures var n := Take(ps, room);
            && |Content(ps[..n])| <= room
            && (forall i :: 0 <= i < n - 1 ==> |ps[i].bytes| >= MAX_PACKET)
            && (n == |ps|
                || |Content(ps[..n])| + |ps[n].bytes| > room
                || (n > 0 && (|ps[n - 1].bytes| < MAX_PACKET || |Content(ps[..n])| == room)))
  {
    var n := Take(ps, room);
    if ps != [] && n > 0 {
      assert ps[..n][1..] == ps[1..][..n - 1];
      if n == 1 {
        assert Content(ps[..1]) == ps[0].bytes + Content(ps[..1][1..]);
      }
      if !(|ps[0].bytes| < MAX_PACKET || |ps[0].bytes| == room) {
        TakeIsGreedy(ps[1..], room - |ps[0].bytes|);
        assert forall i :: 1 <= i < |ps| ==> ps[i] == ps[1..][i - 1];
      }
    }
  }

  /** ... and those reasons pin the count down: no other prefix is a host transfer. */
  lemma {:induction false} GreedyIsUnique(ps: seq<Packet>, room: nat, n: nat)
    requires n <= |ps| && |Content(ps[..n])| <= room
    requires forall i :: 0 <= i < |ps| ==> 0 < |ps[i].bytes|
    requires forall i :: 0 <= i < n - 1 ==> |ps[i].bytes| >= MAX_PACKET
    requires n == |ps|
             || |Content(ps[..n])| + |ps[n].bytes| > room
             || (n > 0 && (|ps[n - 1].bytes| < MAX_PACKET || |Content(ps[..n])| == room))
    ensures n == Take(ps, room)
  {
    if n > 0 {
      assert ps[..n][1..] == ps[1..][..n - 1];
      assert Content(ps[..n]) == ps[0].bytes + Content(ps[1..][..n - 1]);
      if n > 1 {
        assert Content(ps[1..][..n - 1]) == ps[1].bytes + Content(ps[1..][..n - 1][1..]);
        assert |ps[0].bytes| < room;
      }
      if |ps[0].bytes| < MAX_PACKET || |ps[0].bytes| == room {
      } else {
        assert forall i :: 1 <= i < |ps| ==> ps[i] == ps[1..][i - 1];
        GreedyIsUnique(ps[1..], room - |ps[0].bytes|, n - 1);
      }
    }
  }

  /** A full packet that does not fill the transfer is followed by what the rest of the room takes. */
  lemma {:induction false} TakeStep(ps: seq<Packet>, room: nat)
    requires ps != [] && |ps[0].bytes| == MAX_PACKET < room
    ensures var m := Take(ps[1..], room - MAX_PACKET);
            && Take(ps, room) == 1 + m
            && ps[..1 + m] == [ps[0]] + ps[1..][..m]
            && Content(ps[..1 + m]) == ps[0].bytes + Content(ps[1..][..m])
            && PayloadCount(ps[..1 + m]) == PayloadCount(ps[..1]) + PayloadCount(ps[1..][..m])
            && PayloadLength(ps[..1 + m]) == PayloadLength(ps[..1]) + PayloadLength(ps[1..][..m])
  {
  }

  /** One packet gone leaves the others. */
  lemma {:induction false} AfterOneLeavesRest(c: Camera)
    requires c.block.Some? && !Stalls(c.stallAfter, Packets(c.block.value)[..1])
    requires c.block.value.packets != []
    ensures var c1 := After(c, 1);
            && c1.block.Some?
            && Packets(c1.block.value) == Packets(c.block.value)[1..]
            && c1.block.value.packets == c.block.value.packets[1..]
  {
    var s := c.block.value;
    var p := s.packets[0];
    assert Packets(s)[..1] == [p];
    assert [p][1..] == [];
    assert PayloadLength(s.packets) == PayloadLength([p]) + PayloadLength(s.packets[1..]);
    assert Packets(s)[1..] == s.packets[1..] + [Packets(s)[|s.packets|]];
  }

  /** Sending one full packet that does not fill the transfer leaves the rest of the transfer to do. */
  lemma {:induction false} FinishStep(c: Camera, out: seq<byte>, len: nat)
    requires c.block.Some? && |out| <= len
    requires |Packets(c.block.value)[0].bytes| == MAX_PACKET && |out| + MAX_PACKET < len
    requires !Stalls(c.stallAfter, Packets(c.block.value)[..1])
    ensures After(c, 1).block.Some?
    ensures Finish(c, out, len) == Finish(After(c, 1), out + Packets(c.block.value)[0].bytes, len)
  {
    hide Take, Content, Completed, PayloadLength, BuildTrailer;
    var s := c.block.value;
    var ps := Packets(s);
    AfterOneLeavesRest(c);
    TakeStep(ps, len - |out|);
    var rest := ps[1..];
    var m := Take(rest, len - |out| - MAX_PACKET);
    Associate(out, ps[0].bytes, Content(rest[..m]));
    if m == 0 {
      NoContent();
      assert rest[..0] == [] && ps[0].bytes + [] == ps[0].bytes;
    } else if !Stalls(c.stallAfter, ps[..1 + m]) {
      AfterTwice(c, m);
    }
  }

  /** One packet and then `m` more is `1 + m` packets. */
  lemma {:induction false} AfterTwice(c: Camera, m: nat)
    requires c.block.Some? && m < |Packets(c.block.value)|
    requires !Stalls(c.stallAfter, Packets(c.block.value)[..1 + m])
    requires c.block.value.packets != []
    ensures !Stalls(c.stallAfter, Packets(c.block.value)[..1])
    ensures var c1 := After(c, 1);
            && c1.block.Some? && Packets(c1.block.value) == Packets(c.block.value)[1..]
            && !Stalls(c1.stallAfter, Packets(c1.block.value)[..m])
            && After(c1, m) == After(c, 1 + m)
  {
    hide PayloadLength, PayloadCount, BuildTrailer, EventCommand;
    var ps := Packets(c.block.value);
    assert ps[..1 + m] == ps[..1] + ps[1..][..m];
    PayloadAppend(ps[..1], ps[1..][..m]);
    AfterOneLeavesRest(c);
    if 1 + m < |ps| {
      assert c.block.value.packets[1..][m..] == c.block.value.packets[1 + m..];
    }
  }
}
