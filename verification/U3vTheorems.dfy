/** What every run of the stream endpoint guarantees. */
module U3vTheorems {
  import opened Bytes
  import opened U3vWire
  import opened U3vStream
  import opened U3vRuns

  // ---------------------------------------------------------------- effects of one transfer

  /** The block a transfer sends from. */
  function Subject(c: Camera, p: Pace): Option<Sending> {
    if c.block.Some? then c.block else if Starts(c, p) then Some(StartedBlock(c, p)) else None
  }

  lemma {:induction false} FinishEffects(c: Camera, len: nat)
    requires c.block.Some?
    ensures var (c', r) := Finish(c, [], len);
            && c'.nextId == c.nextId && c'.regs == c.regs && c'.acquiring == c.acquiring
            && c'.required == c.required
            && (if r.Data? && c'.block.None? && c.regs.eventsEnabled && c.regs.notifyExposureEnd then
                  && c'.eventId == NextRequest(c.eventId)
                  && c'.events == c.events + [EventCommand(c'.eventId, c.block.value.id, c.block.value.timestamp)]
                else c'.eventId == c.eventId && c'.events == c.events)
  {
  }

  /** Ids count blocks started; an event is queued exactly when a trailer completes a block and both enables are on. */
  ghost predicate Accounted(c: Camera, p: Pace, c': Camera, r: Outcome) {
    && c'.nextId == (if Starts(c, p) then c.nextId + 1 else c.nextId)
    && c'.regs == c.regs
    && (if r.Data? && c'.block.None? && c.regs.eventsEnabled && c.regs.notifyExposureEnd then
          && Subject(c, p).Some?
          && c'.eventId == NextRequest(c.eventId)
          && c'.events == c.events + [EventCommand(c'.eventId, Subject(c, p).value.id,
                                                   Subject(c, p).value.timestamp)]
        else c'.eventId == c.eventId && c'.events == c.events)
  }

  lemma {:induction false} TransferEffects(c: Camera, len: nat, queued: nat, p: Pace)
    ensures Accounted(c, p, Transfer(c, len, queued, p).0, Transfer(c, len, queued, p).1)
  {
    if Subject(c, p).Some? && Streaming(c) {
      var c0 := if c.block.Some? then c else Started(c, p);
      var s := c0.block.value;
      FinishEffects(if Overruns(c0, s, queued) then c0.(block := Some(DropPayload(s))) else c0, len);
    }
  }

  // ---------------------------------------------------------------- the invariant of a run

  function Frontier(c: Camera, h: History): nat {
    if h.open.Some? then h.open.value.start.id else c.nextId
  }

  ghost predicate BlockAgrees(c: Camera, h: History) {
    && (c.block.Some? <==> h.open.Some?)
    && (h.open.Some? ==> Tracks(c.block.value, h.open.value) && h.open.value.start.id < c.nextId)
  }

  ghost predicate AllWhole(sent: seq<Sent>) {
    forall i :: 0 <= i < |sent| ==> Whole(sent[i].start, sent[i].bytes)
  }

  /** Ids increase from block to block between resets, up to `frontier` in the current stretch. */
  ghost predicate Ordered(sent: seq<Sent>, stretch: nat, frontier: nat) {
    && (forall i :: 0 <= i < |sent| ==>
          sent[i].stretch <= stretch && (sent[i].stretch == stretch ==> sent[i].start.id < frontier))
    && (forall i, j :: 0 <= i < j < |sent| ==>
          sent[i].stretch <= sent[j].stretch
          && (sent[i].stretch == sent[j].stretch ==> sent[i].start.id < sent[j].start.id))
  }

  ghost predicate Inv(c: Camera, h: History) {
    BlockAgrees(c, h) && AllWhole(h.sent) && Ordered(h.sent, h.stretch, Frontier(c, h))
  }

  lemma {:induction false} ReadKeeps(c: Camera, h: History, op: Op, c': Camera, r: Outcome)
    requires Inv(c, h) && op.Read?
    requires Carried(c, h.open, op.pace, c', r) && Accounted(c, op.pace, c', r)
    ensures Inv(c', Log(c, h, op, c', r))
  {
    hide BlockPayload, Tracks, Whole, LeaderOf;
  }

  lemma {:induction false} StepKeeps(c: Camera, h: History, op: Op)
    requires Inv(c, h)
    ensures Inv(Step(c, op).0, Log(c, h, op, Step(c, op).0, Step(c, op).1))
  {
    hide Transfer, Tracks, Whole, Carried, Accounted, BlockPayload, LeaderOf;
    if op.Read? {
      TransferTracks(c, h.open, op.len, op.queued, op.pace);
      TransferEffects(c, op.len, op.queued, op.pace);
      ReadKeeps(c, h, op, Step(c, op).0, Step(c, op).1);
    }
  }

  lemma {:induction false} RunKeeps(c: Camera, h: History, ops: seq<Op>)
    requires Inv(c, h)
    ensures Inv(Run(c, h, ops).0, Run(c, h, ops).1)
    decreases |ops|
  {
    if ops != [] {
      StepKeeps(c, h, ops[0]);
      var (c', r) := Step(c, ops[0]);
      RunKeeps(c', Log(c, h, ops[0], c', r), ops[1..]);
    }
  }

  const NOTHING_YET := History(None, [], 0)

  /**
   Whatever the host and the fault script do, every block the host receives
   to its end is the leader, a prefix of the payload and a trailer that names
   the prefix's length, flagged DATA_OVERRUN exactly when payload was dropped;
   and between two resets block ids only increase.
   */
  lemma {:induction false} EveryBlockWhole(c: Camera, ops: seq<Op>)
    requires c.block.None?
    ensures var h := Run(c, NOTHING_YET, ops).1;
            && (forall i :: 0 <= i < |h.sent| ==> Whole(h.sent[i].start, h.sent[i].bytes))
            && (forall i, j :: 0 <= i < j < |h.sent| && h.sent[i].stretch == h.sent[j].stretch ==>
                  h.sent[i].start.id < h.sent[j].start.id)
  {
    RunKeeps(c, NOTHING_YET, ops);
  }

  // ---------------------------------------------------------------- nothing is lost in quiet runs

  /** Everything a run's host transfers returned, in order. */
  function Returned(c: Camera, ops: seq<Op>): seq<byte>
    decreases |ops|
  {
    if ops == [] then []
    else
      var (c', r) := Step(c, ops[0]);
      (if r.Data? then r.bytes else []) + Returned(c', ops[1..])
  }

  function AllBytes(sent: seq<Sent>): seq<byte> {
    if sent == [] then [] else AllBytes(sent[..|sent| - 1]) + sent[|sent| - 1].bytes
  }

  /** What the host holds: the blocks it received, and the part of the one under way. */
  function Held(h: History): seq<byte> {
    AllBytes(h.sent) + (if h.open.Some? then h.open.value.seen else [])
  }

  /** No stall is armed, no endpoint reset, and no register write takes the block under way. */
  predicate Quiet(c: Camera, ops: seq<Op>)
    decreases |ops|
  {
    ops == [] ||
      (var c' := Step(c, ops[0]).0;
       && !ops[0].Reset? && !ops[0].StallAfter?
       && (ops[0].Write? && c.block.Some? ==> c'.block.Some?)
       && Quiet(c', ops[1..]))
  }

  lemma {:induction false} ReadHolds(c: Camera, h: History, op: Op, c': Camera, r: Outcome)
    requires Inv(c, h) && op.Read? && c.stallAfter.None?
    requires Carried(c, h.open, op.pace, c', r)
    ensures Held(Log(c, h, op, c', r)) == Held(h) + (if r.Data? then r.bytes else [])
  {
    hide BlockPayload, Tracks, Whole, LeaderOf, Ordered;
    var h' := Log(c, h, op, c', r);
    var open := Opened(c, h.open, op.pace);
    var seen := if h.open.Some? then h.open.value.seen else [];
    if r.Data? {
      assert open.value.seen == seen;
      if c'.block.Some? {
        assert Held(h') == AllBytes(h.sent) + (seen + r.bytes);
      } else {
        assert h'.sent[..|h'.sent| - 1] == h.sent;
        assert AllBytes(h'.sent) == AllBytes(h.sent) + (seen + r.bytes);
      }
    }
  }

  /** An operation that reads nothing leaves what the host holds. */
  lemma {:induction false} OtherHolds(c: Camera, h: History, op: Op)
    requires Inv(c, h) && !op.Read? && Quiet(c, [op])
    ensures Step(c, op).1 == Done && Step(c, op).0.stallAfter == c.stallAfter
    ensures Held(Log(c, h, op, Step(c, op).0, Step(c, op).1)) == Held(h)
  {
    hide Tracks, Whole, Ordered, AllBytes;
  }

  /**
   In a quiet run - registers may be written, acquisition stopped and started,
   queue demands changed - the transfers, put end to end, are exactly the blocks
   received and the part under way: no byte is lost, repeated or moved between
   blocks, for every choice of transfer lengths and queue depths; transfers that
   fail or return nothing take nothing.
   */
  lemma {:induction false} ReadsTileBlocks(c: Camera, h: History, ops: seq<Op>)
    requires Inv(c, h) && Quiet(c, ops) && c.stallAfter.None?
    ensures Held(Run(c, h, ops).1) == Held(h) + Returned(c, ops)
    decreases |ops|
  {
    hide Transfer, Log, Inv, Held;
    if ops == [] {
      assert Held(h) + [] == Held(h);
    } else {
      var op := ops[0];
      var (c', r) := Step(c, op);
      StepKeeps(c, h, op);
      if op.Read? {
        InvTracks(c, h);
        TransferTracks(c, h.open, op.len, op.queued, op.pace);
        ReadHolds(c, h, op, c', r);
      } else {
        assert Quiet(c, [op]);
        OtherHolds(c, h, op);
        assert Held(h) + [] == Held(h);
      }
      ReadsTileBlocks(c', Log(c, h, op, c', r), ops[1..]);
      Associate(Held(h), if r.Data? then r.bytes else [], Returned(c', ops[1..]));
    }
  }

  lemma {:induction false} InvTracks(c: Camera, h: History)
    requires Inv(c, h)
    ensures BlockAgrees(c, h)
  {
  }

  /** One block alone: started, read by any transfers in a quiet run, and completed by the last of them. */
  lemma {:induction false} OneBlock(c: Camera, ops: seq<Op>)
    requires c.block.None? && c.stallAfter.None? && Quiet(c, ops)
    requires var h := Run(c, NOTHING_YET, ops).1; |h.sent| == 1 && h.open.None?
    ensures Whole(Run(c, NOTHING_YET, ops).1.sent[0].start, Returned(c, ops))
  {
    hide Run, Returned, Held, Inv, Quiet, Whole;
    InvOfNothing(c);
    RunKeeps(c, NOTHING_YET, ops);
    ReadsTileBlocks(c, NOTHING_YET, ops);
    var (c', h) := Run(c, NOTHING_YET, ops);
    InvWhole(c', h);
    HeldOne(h);
    assert Held(NOTHING_YET) + Returned(c, ops) == Returned(c, ops) by { HeldNothing(); }
  }

  lemma {:induction false} InvOfNothing(c: Camera)
    requires c.block.None?
    ensures Inv(c, NOTHING_YET)
  {
  }

  lemma {:induction false} InvWhole(c: Camera, h: History)
    requires Inv(c, h)
    ensures AllWhole(h.sent)
  {
  }

  lemma {:induction false} HeldNothing()
    ensures Held(NOTHING_YET) == []
  {
  }

  lemma {:induction false} HeldOne(h: History)
    requires |h.sent| == 1 && h.open.None?
    ensures Held(h) == h.sent[0].bytes
  {
    assert h.sent[..0] == [];
    assert AllBytes(h.sent) == AllBytes([]) + h.sent[0].bytes;
  }

  // ---------------------------------------------------------------- leaders

  /** A leader the host received: between which resets, and of which block. */
  datatype Led = Led(stretch: nat, start: Start, bytes: seq<byte>)

  /** The leader a step returns, if it returns one: data of a block none of which the host held. */
  function LedBy(c: Camera, h: History, op: Op): seq<Led> {
    if !op.Read? then []
    else
      var open, r := Opened(c, h.open, op.pace), Step(c, op).1;
      if r.Data? && open.Some? && open.value.seen == [] then [Led(h.stretch, open.value.start, r.bytes)] else []
  }

  /** Every leader of a run, completed block or not. */
  function Leaders(c: Camera, h: History, ops: seq<Op>): seq<Led>
    decreases |ops|
  {
    if ops == [] then []
    else
      var (c', r) := Step(c, ops[0]);
      LedBy(c, h, ops[0]) + Leaders(c', Log(c, h, ops[0], c', r), ops[1..])
  }

  /** The lowest id the next leader of this stretch can have. */
  function Floor(c: Camera, h: History): nat {
    if h.open.Some? && h.open.value.seen == [] then h.open.value.start.id else c.nextId
  }

  /** Leaders in order: none of an earlier stretch than `stretch`, none below `floor` in it, ids increasing. */
  ghost predicate Increasing(ls: seq<Led>, stretch: nat, floor: nat) {
    && (forall i :: 0 <= i < |ls| ==>
          && ls[i].stretch >= stretch && (ls[i].stretch == stretch ==> ls[i].start.id >= floor)
          && ls[i].bytes == LeaderOf(ls[i].start))
    && (forall i, j :: 0 <= i < j < |ls| ==>
          && ls[i].stretch <= ls[j].stretch
          && (ls[i].stretch == ls[j].stretch ==> ls[i].start.id < ls[j].start.id))
  }

  lemma {:induction false} FirstDataIsLeader(c: Camera, h: History, op: Op)
    requires Inv(c, h) && op.Read?
    ensures var l := LedBy(c, h, op);
            |l| <= 1 && (l != [] ==> l[0].bytes == LeaderOf(l[0].start))
  {
    hide Transfer, Tracks, Whole, Ordered, AllWhole, BlockPayload, LeaderOf;
    TransferTracks(c, h.open, op.len, op.queued, op.pace);
  }

  /** One step: its leader is at or above the floor, and the next floor is above it. */
  lemma {:induction false} StepRaisesFloor(c: Camera, h: History, op: Op)
    requires Inv(c, h)
    ensures var (c', r) := Step(c, op);
            var h' := Log(c, h, op, c', r);
            var l := LedBy(c, h, op);
            && h'.stretch >= h.stretch
            && (h'.stretch == h.stretch ==> Floor(c', h') >= Floor(c, h))
            && (l != [] ==> h'.stretch == h.stretch && l[0].stretch == h.stretch
                            && Floor(c, h) <= l[0].start.id < Floor(c', h'))
  {
    hide Transfer, Tracks, Whole, Ordered, AllWhole, BlockPayload;
    if op.Read? {
      TransferTracks(c, h.open, op.len, op.queued, op.pace);
      TransferEffects(c, op.len, op.queued, op.pace);
      ReadRaisesFloor(c, h, op, Step(c, op).0, Step(c, op).1);
    }
  }

  lemma {:induction false} ReadRaisesFloor(c: Camera, h: History, op: Op, c': Camera, r: Outcome)
    requires Inv(c, h) && op.Read? && r == Step(c, op).1
    requires Carried(c, h.open, op.pace, c', r) && Accounted(c, op.pace, c', r)
    ensures var h' := Log(c, h, op, c', r);
            var l := LedBy(c, h, op);
            && h'.stretch == h.stretch && Floor(c', h') >= Floor(c, h)
            && (l != [] ==> l[0].stretch == h.stretch && Floor(c, h) <= l[0].start.id < Floor(c', h'))
  {
    hide Step, Tracks, Whole, Ordered, AllWhole, BlockPayload, LeaderOf;
  }

  /**
   Between resets the ids of the leaders a run returns strictly increase -
   blocks later abandoned by a stall or a stream disable included - and each is
   the leader of its block, byte for byte.
   */
  lemma {:induction false} LeadersIncrease(c: Camera, h: History, ops: seq<Op>)
    requires Inv(c, h)
    ensures Increasing(Leaders(c, h, ops), h.stretch, Floor(c, h))
    decreases |ops|
  {
    hide Step, Log, Inv, LedBy, Floor, LeaderOf, Increasing;
    if ops == [] {
      NoLeaders(h.stretch, Floor(c, h));
    } else {
      var op := ops[0];
      var (c', r) := Step(c, op);
      var h' := Log(c, h, op, c', r);
      StepKeeps(c, h, op);
      StepRaisesFloor(c, h, op);
      LeadersIncrease(c', h', ops[1..]);
      var l, rest := LedBy(c, h, op), Leaders(c', h', ops[1..]);
      if op.Read? {
        FirstDataIsLeader(c, h, op);
      } else {
        NoRead(c, h, op);
      }
      LeadersAhead(l, rest, h.stretch, Floor(c, h), h'.stretch, Floor(c', h'));
    }
  }

  lemma {:induction false} NoLeaders(stretch: nat, floor: nat)
    ensures Increasing([], stretch, floor)
  {
  }

  /** A leader at the floor or above, with the later ones above it, is in order. */
  lemma {:induction false} LeadersAhead(
    l: seq<Led>, rest: seq<Led>, stretch: nat, floor: nat, later: nat, raised: nat)
    requires Increasing(rest, later, raised) && |l| <= 1
    requires later >= stretch && (later == stretch ==> raised >= floor)
    requires l != [] ==>
               && later == stretch == l[0].stretch && floor <= l[0].start.id < raised
               && l[0].bytes == LeaderOf(l[0].start)
    ensures Increasing(l + rest, stretch, floor)
  {
    hide LeaderOf;
    var all := l + rest;
    assert forall i :: |l| <= i < |all| ==> all[i] == rest[i - |l|];
  }

  lemma {:induction false} NoRead(c: Camera, h: History, op: Op)
    requires !op.Read?
    ensures LedBy(c, h, op) == []
  {
  }

  // ---------------------------------------------------------------- events

  /** The event commands the blocks in `sent` give rise to, and the last request id. */
  function Announcements(sent: seq<Sent>, request: nat): (seq<seq<byte>>, nat) {
    if sent == [] then ([], request)
    else
      var last := sent[|sent| - 1];
      var (events, r) := Announcements(sent[..|sent| - 1], request);
      if last.announced then
        (events + [EventCommand(NextRequest(r), last.start.id, last.start.timestamp)], NextRequest(r))
      else (events, r)
  }

  ghost predicate EventsAgree(c: Camera, h: History, before: seq<seq<byte>>, request: nat) {
    var (events, r) := Announcements(h.sent, request);
    c.events == before + events && c.eventId == r
  }

  lemma {:induction false} ReadAnnounces(
    c: Camera, h: History, op: Op, c': Camera, r: Outcome, before: seq<seq<byte>>, request: nat)
    requires Inv(c, h) && EventsAgree(c, h, before, request) && op.Read?
    requires Carried(c, h.open, op.pace, c', r) && Accounted(c, op.pace, c', r)
    ensures EventsAgree(c', Log(c, h, op, c', r), before, request)
  {
    hide BlockPayload, Whole, LeaderOf, EventCommand, Ordered, AllWhole, Pieces, CutAll, BuildLeader,
         LeaderPending, Flowing, NextRequest;
    var h' := Log(c, h, op, c', r);
    var open := Opened(c, h.open, op.pace);
    if |h'.sent| > |h.sent| {
      assert h'.sent[..|h'.sent| - 1] == h.sent;
      var s := Subject(c, op.pace).value;
      assert s.id == open.value.start.id && s.timestamp == open.value.start.timestamp;
      var (events, req) := Announcements(h.sent, request);
      var event := EventCommand(NextRequest(req), s.id, s.timestamp);
      assert (before + events) + [event] == before + (events + [event]);
    }
  }

  lemma {:induction false} StepAnnounces(c: Camera, h: History, op: Op, before: seq<seq<byte>>, request: nat)
    requires Inv(c, h) && EventsAgree(c, h, before, request)
    ensures EventsAgree(Step(c, op).0, Log(c, h, op, Step(c, op).0, Step(c, op).1), before, request)
  {
    if op.Read? {
      TransferTracks(c, h.open, op.len, op.queued, op.pace);
      TransferEffects(c, op.len, op.queued, op.pace);
      ReadAnnounces(c, h, op, Step(c, op).0, Step(c, op).1, before, request);
    }
  }

  /**
   Over every run the queued events are one ExposureEnd per block received to
   its end while both enables were on, in order, with that block's id and
   timestamp, and nothing for a block abandoned by a stall, a reset or a
   stream-disable.
   */
  lemma {:induction false} EventsFollowTrailers(
    c: Camera, h: History, ops: seq<Op>, before: seq<seq<byte>>, request: nat)
    requires Inv(c, h) && EventsAgree(c, h, before, request)
    ensures EventsAgree(Run(c, h, ops).0, Run(c, h, ops).1, before, request)
    decreases |ops|
  {
    if ops != [] {
      StepKeeps(c, h, ops[0]);
      StepAnnounces(c, h, ops[0], before, request);
      var (c', r) := Step(c, ops[0]);
      EventsFollowTrailers(c', Log(c, h, ops[0], c', r), ops[1..], before, request);
    }
  }

  // ---------------------------------------------------------------- stalls and resets

  /** Where a run leaves the device. */
  function Reach(c: Camera, ops: seq<Op>): Camera
    decreases |ops|
  {
    if ops == [] then c else Reach(Step(c, ops[0]).0, ops[1..])
  }

  predicate NoReset(ops: seq<Op>) {
    forall i :: 0 <= i < |ops| ==> !ops[i].Reset?
  }

  /** A stall halts the endpoint, and until a reset every host transfer fails, whatever else happens. */
  lemma {:induction false} HaltedUntilReset(c: Camera, ops: seq<Op>, len: nat, queued: nat, p: Pace)
    requires c.halted && NoReset(ops)
    ensures Reach(c, ops).halted
    ensures Transfer(Reach(c, ops), len, queued, p) == (Reach(c, ops), Stalled)
    decreases |ops|
  {
    if ops != [] {
      assert Step(c, ops[0]).0.halted;
      HaltedUntilReset(Step(c, ops[0]).0, ops[1..], len, queued, p);
    }
  }

  /** The only way into the halted state: a transfer that ran out of packets to send. */
  lemma {:induction false} StallHalts(c: Camera, op: Op)
    requires !c.halted
    ensures Step(c, op).0.halted <==> (op.Read? && Step(c, op).1 == Stalled)
  {
    hide Packets, Take, Content, StartedBlock, PayloadCount, PayloadLength, EventCommand, LayoutFits;
  }

  predicate NoData(c: Camera, ops: seq<Op>)
    decreases |ops|
  {
    ops != [] ==> !Step(c, ops[0]).1.Data? && NoData(Step(c, ops[0]).0, ops[1..])
  }

  /** How many of the run's register writes abandon a block by disabling the stream under it. */
  function Abandoned(c: Camera, ops: seq<Op>): nat
    decreases |ops|
  {
    if ops == [] then 0
    else
      var c' := Step(c, ops[0]).0;
      (if ops[0].Write? && c.block.Some? && c'.block.None? then 1 else 0) + Abandoned(c', ops[1..])
  }

  /** Since the reset no data has gone out and `n` blocks have been abandoned. */
  ghost predicate Silent(c: Camera, n: nat) {
    if c.block.None? then c.nextId == n
    else
      && c.nextId == n + 1 && c.block.value.id == n
      && c.block.value.packets != []
      && c.block.value.packets[0].kind.Leader?
      && (exists f, t :: c.block.value.packets[0].bytes == BuildLeader(f, n, t))
  }

  /** While the leader has not gone, a transfer sends it whole or sends nothing. */
  lemma {:induction false} SilentTransfer(c: Camera, n: nat, len: nat, queued: nat, p: Pace)
    requires Silent(c, n)
    ensures var (c', r) := Transfer(c, len, queued, p);
            && (!r.Data? ==> Silent(c', n))
            && (r.Data? ==> exists f, t :: r.bytes == BuildLeader(f, n, t))
            && (len >= LEADER_SIZE && c.block.None? && !r.Data? ==> c'.block.None?)
  {
    hide BuildLeader, BlockPayload, Finish;
    if Streaming(c) && (c.block.Some? || Starts(c, p)) {
      var c0 := if c.block.Some? then c else Started(c, p);
      var leader := c0.block.value.packets[0].bytes;
      assert exists f, t :: leader == BuildLeader(f, n, t) by {
        assert c.block.None? ==> leader == BuildLeader(c.regs.format, n, p.now);
      }
      LeaderFinish(c0, leader, len);
    }
  }

  lemma {:induction false} LeaderFinish(c: Camera, leader: seq<byte>, len: nat)
    requires c.block.Some? && |leader| == LEADER_SIZE
    requires c.block.value.packets != [] && c.block.value.packets[0] == Packet(Leader, leader)
    ensures if len < LEADER_SIZE then Finish(c, [], len) == (c, Overflow)
            else Finish(c, [], len).1 == Data(leader)
  {
    var ps := Packets(c.block.value);
    assert ps[0] == Packet(Leader, leader);
    assert ps[..1] == [ps[0]] && [ps[0]][1..] == [];
    assert PayloadCount(ps[..1]) == 0;
    assert [] + Content(ps[..1]) == leader;
  }

  lemma {:induction false} SilentRun(c: Camera, n: nat, ops: seq<Op>)
    requires Silent(c, n) && NoReset(ops) && NoData(c, ops)
    ensures Silent(Reach(c, ops), n + Abandoned(c, ops))
    decreases |ops|
  {
    hide Transfer, BuildLeader;
    if ops != [] {
      var op := ops[0];
      var c' := Step(c, op).0;
      if op.Read? {
        SilentTransfer(c, n, op.len, op.queued, op.pace);
        SilentRun(c', n, ops[1..]);
      } else {
        SilentRun(c', if op.Write? && c.block.Some? && c'.block.None? then n + 1 else n, ops[1..]);
      }
    }
  }

  /**
   The first bytes after a reset are a leader, alone; its block id counts the
   blocks abandoned since the reset by disabling the stream before any of
   their bytes were read. So it is block 0 exactly when there were none.
   */
  lemma {:induction false} FirstBytesAfterReset(before: Camera, ops: seq<Op>, op: Op)
    requires var c := ResetStream(before); NoReset(ops) && NoData(c, ops)
    requires op.Read? && Step(Reach(ResetStream(before), ops), op).1.Data?
    ensures var c := ResetStream(before);
            var bytes := Step(Reach(c, ops), op).1.bytes;
            && (exists f, t :: bytes == BuildLeader(f, Abandoned(c, ops), t))
            && |bytes| == LEADER_SIZE
            && bytes[8..16] == LittleEndian(Abandoned(c, ops), 8)
  {
    hide Transfer, BuildLeader, LittleEndian, Reach, NoData, NoReset, Abandoned;
    var c := ResetStream(before);
    SilentRun(c, 0, ops);
    SilentTransfer(Reach(c, ops), Abandoned(c, ops), op.len, op.queued, op.pace);
    var bytes := Step(Reach(c, ops), op).1.bytes;
    var f, t :| bytes == BuildLeader(f, Abandoned(c, ops), t);
    LeaderNamesBlock(f, Abandoned(c, ops), t);
  }

  lemma {:induction false} LeaderNamesBlock(f: Format, id: nat, t: nat)
    ensures BuildLeader(f, id, t)[8..16] == LittleEndian(id, 8)
  {
    hide LittleEndian, Zeros;
  }

  /** A host whose transfers all have room for a leader never abandons one unread. */
  lemma {:induction false} RoomyReadsAbandonNothing(c: Camera, ops: seq<Op>)
    requires Silent(c, c.nextId) && c.block.None? && NoReset(ops) && NoData(c, ops)
    requires forall i :: 0 <= i < |ops| && ops[i].Read? ==> ops[i].len >= LEADER_SIZE
    ensures Abandoned(c, ops) == 0
    decreases |ops|
  {
    if ops != [] {
      var op := ops[0];
      if op.Read? {
        SilentTransfer(c, c.nextId, op.len, op.queued, op.pace);
      }
      RoomyReadsAbandonNothing(Step(c, op).0, ops[1..]);
    }
  }

  /** And one whose transfer is too small for the leader can: after a reset it may see block 1 first. */
  lemma {:induction false} BlockZeroCanBeSkipped(before: Camera, r: Registers)
    requires before.regs == r && r.streamEnabled && before.acquiring && LayoutFits(r.layout)
    ensures var ops := [Read(10, 1, Ready(0, [])),
                        Write(RegisterWrite(r.(streamEnabled := false), false, false, true)),
                        Write(RegisterWrite(r, false, false, true))];
            var c := ResetStream(before);
            && NoReset(ops) && NoData(c, ops)
            && Step(Reach(c, ops), Read(LEADER_SIZE, 1, Ready(1, [])))
               .1 == Data(BuildLeader(r.format, 1, 1))
  {
    hide BuildTrailer, BlockPayload, CutAll, Pieces, EventCommand, LittleEndian, Zeros, Content, PayloadLength;
    var c := ResetStream(before);
    var read := Read(10, 1, Ready(0, []));
    var off := Write(RegisterWrite(r.(streamEnabled := false), false, false, true));
    var on := Write(RegisterWrite(r, false, false, true));
    var ops := [read, off, on];
    var s := StartedBlock(c, read.pace);
    assert Packets(s)[0] == s.packets[0];
    var c1 := Step(c, read).0;
    assert c1 == Started(c, read.pace) && Step(c, read).1 == Overflow;
    var c3 := Step(Step(c1, off).0, on).0;
    assert ops[1..] == [off, on] && [off, on][1..] == [on] && [on][1..] == [];
    assert Reach(c, ops) == Reach(c1, [off, on]) == Reach(Step(c1, off).0, [on]) == Reach(c3, []) == c3;
    assert NoData(Step(c1, off).0, [on]);
    assert NoData(c1, [off, on]);
    assert c3.block.None? && c3.nextId == 1;
    var last := Ready(1, []);
    assert Starts(c3, last);
    StartTracks(c3, last);
    LeaderAlone(Started(c3, last), Open(StartOf(c3, last), []), LEADER_SIZE);
  }
}
