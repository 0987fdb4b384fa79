/**
 Whole runs of the stream endpoint: any sequence of host transfers, endpoint
 resets, register writes and scripted faults, and what the host has received
 after it.
 */
module U3vRuns {
  import opened Bytes
  import opened U3vWire
  import opened U3vStream

  datatype Op =
    | Read(len: nat, queued: nat, pace: Pace)
    | Reset
    | Write(write: RegisterWrite)
    | StallAfter(packets: nat)
    | RequireQueued(transfers: nat)

  function Step(c: Camera, op: Op): (Camera, Outcome) {
    match op
    case Read(len, queued, pace) => Transfer(c, len, queued, pace)
    case Reset => (ResetStream(c), Done)
    case Write(w) => (Written(c, w), Done)
    case StallAfter(n) => (c.(stallAfter := Some(n)), Done)
    case RequireQueued(n) => (c.(required := n), Done)
  }

  // ---------------------------------------------------------------- what the host received

  /** What a block was made of when it started. */
  datatype Start = Start(id: nat, timestamp: nat, format: Format, layout: Layout, payload: seq<byte>)

  /** A block under way, and the bytes of it the host holds. */
  datatype Open = Open(start: Start, seen: seq<byte>)

  /** A block the host received to its end, in which stretch between resets, and whether its end was to be announced. */
  datatype Sent = Sent(start: Start, bytes: seq<byte>, stretch: nat, announced: bool)

  datatype History = History(open: Option<Open>, sent: seq<Sent>, stretch: nat)

  function StartOf(c: Camera, p: Pace): Start
    requires p.Ready?
  {
    Start(c.nextId, p.now, c.regs.format, c.regs.layout,
          BlockPayload(c.regs.format, p.pattern, p.now, c.nextId))
  }

  /** The block a host transfer belongs to: the one under way, or the one it starts. */
  function Opened(c: Camera, open: Option<Open>, p: Pace): Option<Open> {
    if Starts(c, p) then Some(Open(StartOf(c, p), [])) else open
  }

  /** What the host holds after one operation, from what the operation did and returned. */
  function Log(c: Camera, h: History, op: Op, c': Camera, r: Outcome): History {
    match op
    case Read(_, _, pace) =>
      var open := Opened(c, h.open, pace);
      if r.Data? && open.Some? then
        var o := open.value.(seen := open.value.seen + r.bytes);
        if c'.block.Some? then h.(open := Some(o))
        else h.(open := None,
                sent := h.sent + [Sent(o.start, o.seen, h.stretch,
                                       c.regs.eventsEnabled && c.regs.notifyExposureEnd)])
      else h.(open := if c'.block.Some? then open else None)
    case Reset => h.(open := None, stretch := h.stretch + 1)
    case _ => h.(open := if c'.block.Some? then h.open else None)
  }

  function Run(c: Camera, h: History, ops: seq<Op>): (Camera, History)
    decreases |ops|
  {
    if ops == [] then (c, h)
    else
      var (c', r) := Step(c, ops[0]);
      Run(c', Log(c, h, ops[0], c', r), ops[1..])
  }

  // ---------------------------------------------------------------- invariants

  function LeaderOf(s: Start): (r: seq<byte>)
    ensures |r| == LEADER_SIZE
  {
    BuildLeader(s.format, s.id, s.timestamp)
  }

  function OfferedOf(s: Start): (r: nat)
    ensures r <= |s.payload|
  {
    Offered(s.payload, s.layout)
  }

  /**
   A block as the host should have received it: the leader, the first `k`
   bytes of the payload, and a trailer that says `k`, with `DATA_OVERRUN`
   exactly when the layout had room for more.
   */
  predicate Whole(s: Start, bytes: seq<byte>) {
    var k := |bytes| - LEADER_SIZE - TRAILER_SIZE;
    && 0 <= k <= OfferedOf(s)
    && bytes == LeaderOf(s) + s.payload[..k]
                + BuildTrailer(s.id, Status(k < OfferedOf(s)), k, s.format.height)
  }

  /** The device's idea of a block and the host's bytes of it agree. */
  predicate Tracks(s: Sending, o: Open) {
    && s.id == o.start.id && s.timestamp == o.start.timestamp && s.height == o.start.format.height
    && s.sent <= OfferedOf(o.start)
    && (LeaderPending(s, o) || Flowing(s, o))
  }

  /** The leader has gone: the host holds it and a prefix of the payload, the device the rest. */
  predicate Flowing(s: Sending, o: Open)
    requires s.sent <= OfferedOf(o.start)
  {
    && o.seen == LeaderOf(o.start) + o.start.payload[..s.sent]
    && PayloadOnly(s.packets)
    && (if s.overrun then s.packets == [] && s.sent < OfferedOf(o.start)
        else Content(s.packets) == o.start.payload[s.sent..OfferedOf(o.start)])
  }

  predicate LeaderPending(s: Sending, o: Open) {
    && o.seen == [] && s.sent == 0 && !s.overrun
    && s.packets != [] && s.packets[0] == Packet(Leader, LeaderOf(o.start))
    && PayloadOnly(s.packets[1..])
    && Content(s.packets[1..]) == o.start.payload[..OfferedOf(o.start)]
  }

  lemma {:induction false} StartTracks(c: Camera, p: Pace)
    requires p.Ready?
    ensures LeaderPending(StartedBlock(c, p), Open(StartOf(c, p), []))
    ensures Tracks(StartedBlock(c, p), Open(StartOf(c, p), []))
  {
    var s := StartedBlock(c, p);
    var payload := StartOf(c, p).payload;
    var sizes := Sizes(c.regs.layout);
    var pieces := Pieces(payload, sizes);
    assert s.packets[1..] == CutAll(Payload, pieces);
    CutAllPayloadOnly(pieces);
    CutAllContent(Payload, pieces);
    PiecesJoin(payload, sizes);
    LayoutCapacity(c.regs.layout);
  }

  lemma {:induction false} DropTracks(c: Camera, s: Sending, o: Open, queued: nat)
    requires Tracks(s, o) && Overruns(c, s, queued)
    ensures Tracks(DropPayload(s), o) && o.seen != []
  {
  }

  /** The leader goes out alone: it is a short packet. */
  lemma {:induction false} LeaderAlone(c: Camera, o: Open, len: nat)
    requires c.block.Some? && LeaderPending(c.block.value, o) && Tracks(c.block.value, o)
    ensures var (c', r) := Finish(c, [], len);
            if len < LEADER_SIZE then r == Overflow && c' == c
            else && r == Data(LeaderOf(o.start))
                 && c'.block.Some?
                 && Tracks(c'.block.value, o.(seen := LeaderOf(o.start)))
                 && c'.nextId == c.nextId && c'.events == c.events && c'.eventId == c.eventId
  {
    var s := c.block.value;
    var ps := Packets(s);
    var leader := Packet(Leader, LeaderOf(o.start));
    assert ps[0] == leader;
    assert ps[..1] == [leader] && [leader][1..] == [];
    assert PayloadCount(ps[..1]) == 0 && PayloadLength(ps[..1]) == 0;
    if len >= LEADER_SIZE {
      var s' := After(c, 1).block.value;
      assert s'.packets == s.packets[1..] && s'.sent == 0;
      assert LeaderOf(o.start) + o.start.payload[..0] == LeaderOf(o.start);
      assert [] + Content(ps[..1]) == LeaderOf(o.start);
    }
  }

  /** Past the leader a host transfer carries on through the payload, and perhaps to the trailer. */
  lemma {:induction false} PayloadTracks(c: Camera, o: Open, len: nat)
    requires c.block.Some? && Tracks(c.block.value, o) && !LeaderPending(c.block.value, o)
    ensures var (c', r) := Finish(c, [], len);
            && (r.Overflow? || r.Stalled? || r.Data?)
            && (r.Overflow? ==> c' == c)
            && (r.Stalled? ==> c' == c.(stallAfter := None, halted := true, block := None)
                               && c.stallAfter.Some?)
            && (r.Data? && c'.block.Some? ==> Tracks(c'.block.value, o.(seen := o.seen + r.bytes)))
            && (r.Data? && c'.block.None? ==> Whole(o.start, o.seen + r.bytes))
  {
    hide Finish, Tracks, Whole, LeaderPending, Content, PayloadLength, Take;
    FinishCases(c, len);
    var s := c.block.value;
    var n := Take(Packets(s), len);
    if n == |Packets(s)| {
      WholePayload(s, o);
    } else if n > 0 {
      SomePayload(s, o, n);
    }
  }

  /** How a host transfer can end, and the block it leaves. */
  lemma {:induction false} FinishCases(c: Camera, len: nat)
    requires c.block.Some?
    ensures var s := c.block.value;
            var ps := Packets(s);
            var n := Take(ps, len);
            var (c', r) := Finish(c, [], len);
            if n == 0 then c' == c && r == Overflow
            else if Stalls(c.stallAfter, ps[..n]) then
              c' == c.(stallAfter := None, halted := true, block := None) && r == Stalled
            else if n == |ps| then c'.block.None? && r == Data(Content(ps))
            else
              && c'.block == Some(s.(packets := s.packets[n..], sent := s.sent + PayloadLength(ps[..n])))
              && r == Data(Content(ps[..n]))
  {
    var ps := Packets(c.block.value);
    var n := Take(ps, len);
    assert [] + Content(ps[..n]) == Content(ps[..n]);
    assert n == |ps| ==> ps[..n] == ps;
  }

  /** All that is left of a block completes it. */
  lemma {:induction false} WholePayload(s: Sending, o: Open)
    requires Tracks(s, o) && !LeaderPending(s, o)
    ensures Whole(o.start, o.seen + Content(Packets(s)))
  {
    hide Content, PayloadLength, BuildTrailer, LeaderOf, Whole, PayloadOnly, PayloadCount;
    var offered := OfferedOf(o.start);
    var trailer := Packets(s)[|s.packets|];
    PayloadOnlyTotals(s.packets);
    ContentAppend(s.packets, [trailer]);
    ContentOne(trailer);
    if s.overrun {
      NoContent();
    }
    var k := s.sent + PayloadLength(s.packets);
    assert s.overrun <==> k < offered;
    assert o.start.payload[..k] == o.start.payload[..s.sent] + Content(s.packets) by {
      if !s.overrun {
        SplitSlice(o.start.payload, s.sent, offered, Content(s.packets), []);
      }
    }
    WholeIs(o.start, k, o.seen + Content(Packets(s)), o.seen, Content(s.packets), trailer.bytes);
  }

  lemma {:induction false} WholeIs(s: Start, k: nat, bytes: seq<byte>, head: seq<byte>, mid: seq<byte>, tail: seq<byte>)
    requires k <= OfferedOf(s)
    requires head + mid == LeaderOf(s) + s.payload[..k]
    requires tail == BuildTrailer(s.id, Status(k < OfferedOf(s)), k, s.format.height)
    requires bytes == head + (mid + tail)
    ensures Whole(s, bytes)
  {
  }

  /** Part of the payload extends the prefix the host holds. */
  lemma {:induction false} SomePayload(s: Sending, o: Open, n: nat)
    requires Tracks(s, o) && !LeaderPending(s, o) && 0 < n <= |s.packets|
    ensures var ps := Packets(s)[..n];
            Tracks(s.(packets := s.packets[n..], sent := s.sent + PayloadLength(ps)),
                   o.(seen := o.seen + Content(ps)))
  {
    hide Content, PayloadLength, LeaderOf, BuildTrailer;
    var payload := o.start.payload;
    var ps := s.packets[..n];
    assert Packets(s)[..n] == ps;
    PayloadOnlyTotals(ps);
    assert s.packets == ps + s.packets[n..];
    ContentAppend(ps, s.packets[n..]);
    SplitSlice(payload, s.sent, OfferedOf(o.start), Content(ps), Content(s.packets[n..]));
    var k := s.sent + |Content(ps)|;
    assert o.seen + Content(ps) == LeaderOf(o.start) + payload[..k];
  }

  lemma {:induction false} SplitSlice(p: seq<byte>, lo: nat, hi: nat, a: seq<byte>, b: seq<byte>)
    requires lo <= hi <= |p| && p[lo..hi] == a + b
    ensures var m := lo + |a|;
            m <= hi && p[..m] == p[..lo] + a && p[m..hi] == b
  {
  }

  // ---------------------------------------------------------------- one host transfer

  /** What one host transfer that took `c` to `c'` and returned `r` did to the block it belongs to. */
  ghost predicate Carried(c: Camera, open: Option<Open>, p: Pace, c': Camera, r: Outcome) {
    var o := Opened(c, open, p);
    && (r.Data? ==>
          && o.Some? && r.bytes != []
          && (o.value.seen == [] ==> r.bytes == LeaderOf(o.value.start) && c'.block.Some?)
          && (if c'.block.Some? then Tracks(c'.block.value, o.value.(seen := o.value.seen + r.bytes))
              else Whole(o.value.start, o.value.seen + r.bytes)))
    && (!r.Data? && c'.block.Some? ==> o.Some? && Tracks(c'.block.value, o.value))
    && (!r.Data? && c'.block.None? && o.Some? ==> r.Stalled? && c.stallAfter.Some?)
    && (r.Stalled? ==> c'.halted && c'.block == (if c.halted then c.block else None))
    && (c.stallAfter.None? ==> c'.stallAfter.None?)
  }

  lemma {:induction false} TransferTracks(c: Camera, open: Option<Open>, len: nat, queued: nat, p: Pace)
    requires c.block.Some? <==> open.Some?
    requires c.block.Some? ==> Tracks(c.block.value, open.value)
    ensures Carried(c, open, p, Transfer(c, len, queued, p).0, Transfer(c, len, queued, p).1)
  {
    hide BlockPayload, Whole, Packets, Take, LeaderOf, CutAll, Tracks;
    if Streaming(c) && (c.block.Some? || (p.Ready? && LayoutFits(c.regs.layout))) {
      var o := Opened(c, open, p).value;
      var c0 := c;
      if c.block.None? {
        StartTracks(c, p);
        c0 := Started(c, p);
      }
      var s := c0.block.value;
      if Overruns(c0, s, queued) {
        DropTracks(c0, s, o, queued);
        c0 := c0.(block := Some(DropPayload(s)));
      }
      if LeaderPending(c0.block.value, o) {
        LeaderAlone(c0, o, len);
        assert [] + LeaderOf(o.start) == LeaderOf(o.start);
      } else {
        PayloadTracks(c0, o, len);
        NonEmptyTransfer(c0, o, len);
      }
    }
  }

  /** A host transfer that succeeds past the leader carries something, and extends something. */
  lemma {:induction false} NonEmptyTransfer(c: Camera, o: Open, len: nat)
    requires c.block.Some? && Tracks(c.block.value, o) && !LeaderPending(c.block.value, o)
    ensures o.seen != []
    ensures Finish(c, [], len).1.Data? ==> Finish(c, [], len).1.bytes != []
  {
  }
}
