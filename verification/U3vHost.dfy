/**
 The host's side of the USB3 Vision endpoints: a queue of submitted transfers
 on the stream endpoint, and the event endpoint's commands.
 */
module U3vHost {
  import opened Bytes
  import opened U3vWire
  import opened U3vStream
  import opened U3vRuns
  import opened U3vTheorems
  import opened U3vEngine

  // ---------------------------------------------------------------- the stream queue, specified

  /** The transfers submitted and not completed, the oldest first, and how many of the oldest are cancelled. */
  datatype Queue = Queue(requested: seq<nat>, cancelled: nat)

  datatype Completion = Completion(len: nat, result: Result)
  datatype Result = Finished(outcome: Outcome) | Cancelled

  datatype Call = Submit(len: nat) | WaitNext(pace: Pace) | CancelAll | Other(op: Op)

  /** One call: the queue and the camera after it, and the transfer it completed, if any. */
  function Called(q: Queue, c: Camera, call: Call): (Queue, Camera, Option<Completion>) {
    match call
    case Submit(len) => (q.(requested := q.requested + [len]), c, None)
    case CancelAll => (q.(cancelled := |q.requested|), c, None)
    case Other(op) => (q, Step(c, op).0, None)
    case WaitNext(pace) =>
      if q.requested == [] then (q, c, None)
      else
        var len, rest := q.requested[0], q.requested[1..];
        if q.cancelled > 0 then
          (Queue(rest, q.cancelled - 1), c, Some(Completion(len, Cancelled)))
        else
          var (c', r) := Transfer(c, len, |q.requested|, pace);
          if r == Nothing then (q, c', None)
          else (Queue(rest, 0), c', Some(Completion(len, Finished(r))))
  }

  /** What a call does to the device: a served transfer is a read with the whole queue behind it. */
  function DeviceOps(q: Queue, call: Call): seq<Op> {
    match call
    case WaitNext(pace) =>
      if q.requested == [] || q.cancelled > 0 then [] else [Read(q.requested[0], |q.requested|, pace)]
    case Other(op) => [op]
    case _ => []
  }

  datatype Session = Session(queue: Queue, camera: Camera, submitted: seq<nat>, completed: seq<Completion>)

  function Advance(s: Session, call: Call): Session {
    var (q, c, done) := Called(s.queue, s.camera, call);
    Session(q, c,
            if call.Submit? then s.submitted + [call.len] else s.submitted,
            if done.Some? then s.completed + [done.value] else s.completed)
  }

  function Play(s: Session, calls: seq<Call>): Session
    decreases |calls|
  {
    if calls == [] then s else Play(Advance(s, calls[0]), calls[1..])
  }

  function PlayOps(s: Session, calls: seq<Call>): seq<Op>
    decreases |calls|
  {
    if calls == [] then [] else DeviceOps(s.queue, calls[0]) + PlayOps(Advance(s, calls[0]), calls[1..])
  }

  // ---------------------------------------------------------------- its laws

  function Lengths(cs: seq<Completion>): (r: seq<nat>)
    ensures |r| == |cs| && forall i :: 0 <= i < |r| ==> r[i] == cs[i].len
  {
    seq(|cs|, i requires 0 <= i < |cs| => cs[i].len)
  }

  /** Every submitted transfer completes once, in the order of submission, or is still queued. */
  ghost predicate InOrder(s: Session) {
    && s.submitted == Lengths(s.completed) + s.queue.requested
    && s.queue.cancelled <= |s.queue.requested|
  }

  lemma {:induction false} LengthsSnoc(cs: seq<Completion>, c: Completion)
    ensures Lengths(cs + [c]) == Lengths(cs) + [c.len]
  {
  }

  lemma {:induction false} AdvanceKeepsOrder(s: Session, call: Call)
    requires InOrder(s)
    ensures InOrder(Advance(s, call))
  {
    hide Transfer, Step, Lengths;
    var done := Called(s.queue, s.camera, call).2;
    if done.Some? {
      LengthsSnoc(s.completed, done.value);
      var first, rest := s.queue.requested[0], s.queue.requested[1..];
      assert s.queue.requested == [first] + rest;
      Associate(Lengths(s.completed), [first], rest);
    }
    if call.Submit? {
      Associate(Lengths(s.completed), s.queue.requested, [call.len]);
    }
  }

  lemma {:induction false} SubmissionsCompleteInOrder(s: Session, calls: seq<Call>)
    requires InOrder(s)
    ensures InOrder(Play(s, calls))
    decreases |calls|
  {
    if calls != [] {
      AdvanceKeepsOrder(s, calls[0]);
      SubmissionsCompleteInOrder(Advance(s, calls[0]), calls[1..]);
    }
  }

  /** A cancelled transfer takes nothing from the device; a served one is exactly a stream transfer. */
  lemma {:induction false} CallIsDeviceOps(q: Queue, c: Camera, call: Call)
    ensures Reach(c, DeviceOps(q, call)) == Called(q, c, call).1
  {
  }

  lemma {:induction false} ReachAppend(c: Camera, a: seq<Op>, b: seq<Op>)
    ensures Reach(c, a + b) == Reach(Reach(c, a), b)
    decreases |a|
  {
    hide Step;
    if a == [] {
      assert a + b == b;
    } else {
      ReachAppend(Step(c, a[0]).0, a[1..], b);
      assert (a + b)[1..] == a[1..] + b;
    }
  }

  /**
   Whatever the host submits, awaits and cancels, the device sees a run of
   stream transfers, so every law of `U3vTheorems` holds of it: the queue adds
   no behaviour of its own.
   */
  lemma {:induction false} QueueIsARun(s: Session, calls: seq<Call>)
    ensures Play(s, calls).camera == Reach(s.camera, PlayOps(s, calls))
    decreases |calls|
  {
    hide Called, DeviceOps;
    if calls != [] {
      CallIsDeviceOps(s.queue, s.camera, calls[0]);
      QueueIsARun(Advance(s, calls[0]), calls[1..]);
      ReachAppend(s.camera, DeviceOps(s.queue, calls[0]), PlayOps(Advance(s, calls[0]), calls[1..]));
    }
  }

  predicate OnlyWaits(calls: seq<Call>) {
    forall i :: 0 <= i < |calls| ==> calls[i].WaitNext?
  }

  /**
   After `CancelAll` the next waits, one for each queued transfer, each complete
   one as cancelled and leave the device alone.
   */
  lemma {:induction false} CancelDrains(s: Session, calls: seq<Call>)
    requires s.queue.cancelled == |s.queue.requested| == |calls| && OnlyWaits(calls)
    ensures var end := Play(s, calls);
            && end.queue == Queue([], 0) && end.camera == s.camera
            && |end.completed| == |s.completed| + |calls| && end.completed[..|s.completed|] == s.completed
            && (forall i :: |s.completed| <= i < |end.completed| ==> end.completed[i].result == Cancelled)
    decreases |calls|
  {
    hide Transfer, Step;
    if calls != [] {
      CancelDrains(Advance(s, calls[0]), calls[1..]);
      var mid, end := Advance(s, calls[0]), Play(s, calls);
      assert end.completed[..|mid.completed|] == mid.completed;
      assert end.completed[..|s.completed|] == mid.completed[..|s.completed|];
      assert end.completed[|s.completed|] == mid.completed[|s.completed|];
    }
  }

  // ---------------------------------------------------------------- the stream queue as it runs

  /** The fake's bulk IN queue on the stream endpoint; the device counts the transfers queued there. */
  class BulkIn {
    const device: StreamEndpoint
    var requested: seq<nat>
    var cancelled: nat
    var hostQueued: nat

    ghost predicate Valid()
      reads this, device
    {
      device.Valid() && hostQueued == |requested|
    }

    ghost function State(): Queue
      reads this
    {
      Queue(requested, cancelled)
    }

    constructor (device: StreamEndpoint)
      requires device.Valid()
      ensures Valid() && this.device == device && State() == Queue([], 0)
    {
      this.device := device;
      requested, cancelled, hostQueued := [], 0, 0;
    }

    method SubmitTransfer(len: nat)
      requires Valid()
      modifies this
      ensures Valid() && State() == Called(old(State()), old(device.State()), Submit(len)).0
    {
      requested := requested + [len];
      hostQueued := hostQueued + 1;
    }

    method CancelTransfers()
      requires Valid()
      modifies this
      ensures Valid() && State() == Called(old(State()), old(device.State()), CancelAll).0
    {
      cancelled := |requested|;
    }

    /** The oldest transfer: cancelled, served, or left waiting while the device has nothing to send. */
    method AwaitNext(pace: Pace) returns (done: Option<Completion>)
      requires Valid()
      modifies this, device
      ensures Valid()
      ensures (State(), device.State(), done) == Called(old(State()), old(device.State()), WaitNext(pace))
    {
      hide Transfer;
      if requested == [] {
        return None;
      }
      var len := requested[0];
      if cancelled > 0 {
        cancelled := cancelled - 1;
        requested, hostQueued := requested[1..], hostQueued - 1;
        return Some(Completion(len, Cancelled));
      }
      var r := device.StreamTransfer(len, hostQueued, pace);
      if r == Nothing {
        return None;
      }
      requested, hostQueued := requested[1..], hostQueued - 1;
      return Some(Completion(len, Finished(r)));
    }
  }

  // ---------------------------------------------------------------- the event endpoint

  /** One host transfer on the event endpoint; a command that does not fit is lost with the transfer. */
  function EventTransfer(c: Camera, len: nat): (Camera, Outcome) {
    if !c.regs.eventsEnabled || c.events == [] then (c, Nothing)
    else
      var rest := c.(events := c.events[1..]);
      if |c.events[0]| > len then (rest, Overflow) else (rest, Data(c.events[0]))
  }

  datatype HostOp = Stream(op: Op) | ReadEvent(len: nat) | ResetEvents

  /** A run with both endpoints in use: the camera, and the event commands taken or cleared off its queue. */
  function Both(c: Camera, taken: seq<seq<byte>>, ops: seq<HostOp>): (Camera, seq<seq<byte>>)
    decreases |ops|
  {
    if ops == [] then (c, taken)
    else
      match ops[0]
      case Stream(op) => Both(Step(c, op).0, taken, ops[1..])
      case ReadEvent(len) =>
        var c' := EventTransfer(c, len).0;
        Both(c', if |c'.events| < |c.events| then taken + [c.events[0]] else taken, ops[1..])
      case ResetEvents => Both(c.(events := []), taken + c.events, ops[1..])
  }

  function StreamOps(ops: seq<HostOp>): seq<Op> {
    if ops == [] then []
    else match ops[0]
         case Stream(op) => [op] + StreamOps(ops[1..])
         case _ => StreamOps(ops[1..])
  }

  /** The stream does not care what is already in the event queue: it only adds to its end. */
  lemma {:induction false} EventsOnlyAppended(c: Camera, op: Op, before: seq<seq<byte>>)
    ensures var g := c.(events := before + c.events);
            Step(g, op) == (Step(c, op).0.(events := before + Step(c, op).0.events), Step(c, op).1)
  {
    hide BuildLeader, BuildTrailer, EventCommand, BlockPayload, Take, Content, Pieces, CutAll, PayloadCount,
         PayloadLength, NextRequest;
    if op.Read? && Streaming(c) && (c.block.Some? || Starts(c, op.pace)) {
      var c0 := if c.block.Some? then c else Started(c, op.pace);
      var s := c0.block.value;
      var c1 := if Overruns(c0, s, op.queued) then c0.(block := Some(DropPayload(s))) else c0;
      FinishAppends(c1, op.len, before);
    }
  }

  lemma {:induction false} FinishAppends(c: Camera, len: nat, before: seq<seq<byte>>)
    requires c.block.Some?
    ensures var g := c.(events := before + c.events);
            Finish(g, [], len)
            == (Finish(c, [], len).0.(events := before + Finish(c, [], len).0.events), Finish(c, [], len).1)
  {
    hide Packets, EventCommand, Take, Content, PayloadCount, PayloadLength, NextRequest;
    var s := c.block.value;
    var event := EventCommand(NextRequest(c.eventId), s.id, s.timestamp);
    Associate(before, c.events, [event]);
  }

  /**
   Every ExposureEnd queued is taken by the host, cleared by a reset of the
   event endpoint, or still queued, in order: the commands off the queue and
   then those waiting are the ones the stream run queued.
   */
  lemma {:induction false} EventsAreTakenInOrder(c: Camera, taken: seq<seq<byte>>, ops: seq<HostOp>)
    ensures var (c', taken') := Both(c, taken, ops);
            Reach(c.(events := taken + c.events), StreamOps(ops)) == c'.(events := taken' + c'.events)
    decreases |ops|
  {
    hide Step;
    if ops != [] {
      match ops[0]
      case Stream(op) =>
        EventsOnlyAppended(c, op, taken);
        EventsAreTakenInOrder(Step(c, op).0, taken, ops[1..]);
        assert StreamOps(ops)[1..] == StreamOps(ops[1..]);
      case ReadEvent(len) =>
        var c' := EventTransfer(c, len).0;
        if |c'.events| < |c.events| {
          assert taken + c.events == (taken + [c.events[0]]) + c.events[1..];
          EventsAreTakenInOrder(c', taken + [c.events[0]], ops[1..]);
        } else {
          EventsAreTakenInOrder(c', taken, ops[1..]);
        }
      case ResetEvents =>
        assert (taken + c.events) + [] == taken + c.events;
        EventsAreTakenInOrder(c.(events := []), taken + c.events, ops[1..]);
    }
  }
}
