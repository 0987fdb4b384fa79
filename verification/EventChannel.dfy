/**
 The GigE camera's message channel: events wait in a bounded queue and leave in
 messages, one outstanding at a time, each sent again until it is acknowledged
 or its retries are spent.
 */
module EventChannel {
  import opened Bytes

  const EVENT_CMD: nat := 0x00C0
  const EVENT_ACK: nat := 0x00C1
  const EVENTDATA_CMD: nat := 0x00C2
  const EVENTDATA_ACK: nat := 0x00C3
  const ENTRY_LEN: nat := 16
  const QUEUE_CAPACITY: nat := 16
  const EVENTS_PER_MESSAGE: nat := 8

  datatype Occurred = Occurred(
    dest: Address, eventId: nat, blockId: nat, timestamp: nat, data: Option<seq<byte>>)

  // ---------------------------------------------------------------- messages

  /** Key, flags (acknowledgement required), opcode, length, request id. */
  function Header(opcode: nat, length: nat, requestId: nat): (r: seq<byte>)
    ensures |r| == 8
  {
    [0x42, 0x01] + BigEndian(opcode, 2) + BigEndian(length, 2) + BigEndian(requestId, 2)
  }

  function Entry(e: Occurred): (r: seq<byte>)
    ensures |r| == ENTRY_LEN
  {
    BigEndian(0, 2) + BigEndian(e.eventId, 2) + BigEndian(0, 2) + BigEndian(e.blockId, 2)
    + BigEndian(e.timestamp, 8)
  }

  function Entries(events: seq<Occurred>): (r: seq<byte>)
    ensures |r| == ENTRY_LEN * |events|
  {
    if events == [] then [] else Entries(events[..|events| - 1]) + Entry(events[|events| - 1])
  }

  datatype Message = Message(bytes: seq<byte>, dest: Address, ackOpcode: nat, events: nat)

  /** What carries these events under this request id. */
  function MessageOf(events: seq<Occurred>, requestId: nat): Message
    requires events != []
  {
    var first := events[0];
    match first.data
    case Some(data) =>
      Message(Header(EVENTDATA_CMD, ENTRY_LEN + |data|, requestId) + Entry(first) + data,
              first.dest, EVENTDATA_ACK, 1)
    case None =>
      Message(Header(EVENT_CMD, ENTRY_LEN * |events|, requestId) + Entries(events),
              first.dest, EVENT_ACK, |events|)
  }

  /** One data event alone, or at most eight bare events for one destination. */
  predicate WellFormed(events: seq<Occurred>) {
    && 1 <= |events| <= EVENTS_PER_MESSAGE
    && (forall i :: 0 <= i < |events| ==> events[i].dest == events[0].dest)
    && ((|events| == 1 && events[0].data.Some?) || (forall i :: 0 <= i < |events| ==> events[i].data.None?))
  }

  /** Whether another queued event may join a message for `dest`. */
  predicate Joins(e: Occurred, dest: Address) {
    e.data.None? && e.dest == dest
  }

  /** A message takes no fewer events than it may: it stops at eight, or before one that cannot join. */
  predicate Maximal(events: seq<Occurred>, rest: seq<Occurred>)
    requires events != []
  {
    |events| == EVENTS_PER_MESSAGE || events[0].data.Some? || rest == []
    || rest[0].data.Some? || rest[0].dest != events[0].dest
  }

  /** How many of the queue's first events join a message for `dest` that has room for `room`. */
  function Joining(queue: seq<Occurred>, dest: Address, room: nat): (n: nat)
    ensures n <= |queue| && n <= room
    ensures forall i :: 0 <= i < n ==> Joins(queue[i], dest)
    ensures n == room || n == |queue| || !Joins(queue[n], dest)
  {
    if room == 0 || queue == [] || !Joins(queue[0], dest) then 0
    else
      var n := Joining(queue[1..], dest, room - 1);
      assert forall i :: 0 < i < n + 1 ==> queue[i] == queue[1..][i - 1];
      1 + n
  }

  /** How many of the queue's first events the next message takes. */
  function Taken(queue: seq<Occurred>): (n: nat)
    requires queue != []
    ensures 1 <= n <= |queue| && n <= EVENTS_PER_MESSAGE
  {
    if queue[0].data.Some? then 1 else 1 + Joining(queue[1..], queue[0].dest, EVENTS_PER_MESSAGE - 1)
  }

  lemma {:induction false} TakenIsWellFormed(queue: seq<Occurred>)
    requires queue != []
    ensures WellFormed(queue[..Taken(queue)])
    ensures Maximal(queue[..Taken(queue)], queue[Taken(queue)..])
  {
  }

  /** The request id after `id`: 16 bits, skipping 0. */
  function NextId(id: nat): (r: nat)
    requires id < 0x1_0000
    ensures 1 <= r < 0x1_0000
  {
    var next := (id + 1) % 0x1_0000;
    if next == 0 then 1 else next
  }

  /** Status zero, this opcode and this request id, whatever else the datagram holds. */
  predicate IsAck(d: seq<byte>, opcode: nat, requestId: nat) {
    |d| >= 8 && d[0..2] == [0, 0] && FromBigEndian(d[2..4]) == opcode && FromBigEndian(d[6..8]) == requestId
  }

  // ---------------------------------------------------------------- the channel, specified

  datatype Outstanding = Outstanding(
    requestId: nat, ackOpcode: nat, bytes: seq<byte>, dest: Address, retries: nat)

  datatype Counters = Counters(
    messages: nat, transmissions: nat, acknowledged: nat, abandoned: nat, lost: nat, events: nat)

  datatype Channel = Channel(
    queue: seq<Occurred>, outstanding: Option<Outstanding>, requestId: nat, counters: Counters)

  const IDLE := Channel([], None, 0, Counters(0, 0, 0, 0, 0, 0))

  /** What wakes the channel: an event, a datagram, a failed receive, or the outstanding message's timeout. */
  datatype Input =
    | Occurs(event: Occurred)
    | Arrives(datagram: seq<byte>, from: Address)
    | ReceiveFails
    | Timeout(retryCount: nat)

  datatype Transmission = Transmission(bytes: seq<byte>, dest: Address)

  predicate Acks(c: Channel, d: seq<byte>, from: Address) {
    && c.outstanding.Some? && from == c.outstanding.value.dest
    && IsAck(d, c.outstanding.value.ackOpcode, c.outstanding.value.requestId)
  }

  /** What one wake-up does before anything new is sent, and what it sends again. */
  function Woken(c: Channel, i: Input): (Channel, seq<Transmission>) {
    var n := c.counters;
    match i
    case Occurs(e) =>
      if |c.queue| >= QUEUE_CAPACITY then (c.(counters := n.(lost := n.lost + 1)), [])
      else (c.(queue := c.queue + [e]), [])
    case Arrives(d, from) =>
      if Acks(c, d, from) then
        (c.(outstanding := None, counters := n.(acknowledged := n.acknowledged + 1)), [])
      else (c, [])
    case ReceiveFails => (c, [])
    case Timeout(retryCount) =>
      match c.outstanding
      case None => (c, [])
      case Some(o) =>
        if o.retries >= retryCount then
          (c.(outstanding := None, counters := n.(abandoned := n.abandoned + 1)), [])
        else
          (c.(outstanding := Some(o.(retries := o.retries + 1)),
              counters := n.(transmissions := n.transmissions + 1)),
           [Transmission(o.bytes, o.dest)])
  }

  /** The next message leaves. */
  function Launched(c: Channel): (Channel, seq<Transmission>)
    requires c.queue != [] && c.requestId < 0x1_0000
  {
    var id := NextId(c.requestId);
    var k := Taken(c.queue);
    var m := MessageOf(c.queue[..k], id);
    var n := c.counters;
    (Channel(
       c.queue[k..], Some(Outstanding(id, m.ackOpcode, m.bytes, m.dest, 0)), id,
       n.(messages := n.messages + 1, transmissions := n.transmissions + 1, events := n.events + m.events)),
     [Transmission(m.bytes, m.dest)])
  }

  predicate LaunchesAfter(c: Channel, i: Input) {
    !i.ReceiveFails? && c.outstanding.None? && c.queue != []
  }

  function Stepped(c: Channel, i: Input): (Channel, seq<Transmission>)
    requires c.requestId < 0x1_0000
  {
    var (woken, again) := Woken(c, i);
    if LaunchesAfter(woken, i) then
      var (next, launch) := Launched(woken);
      (next, again + launch)
    else (woken, again)
  }

  // ---------------------------------------------------------------- the channel as it runs

  method WriteEntries(events: seq<Occurred>) returns (body: seq<byte>)
    ensures body == Entries(events)
  {
    body := [];
    for i := 0 to |events|
      invariant body == Entries(events[..i])
    {
      assert events[..i + 1][..i] == events[..i];
      body := body + Entry(events[i]);
    }
    assert events[..|events|] == events;
  }

  class MessageChannel {
    var queue: seq<Occurred>
    var outstanding: Option<Outstanding>
    var requestId: nat
    var counters: Counters

    ghost predicate Valid()
      reads this
    {
      requestId < 0x1_0000
    }

    ghost function State(): Channel
      reads this
    {
      Channel(queue, outstanding, requestId, counters)
    }

    constructor ()
      ensures Valid() && State() == IDLE
    {
      queue, outstanding, requestId := [], None, 0;
      counters := Counters(0, 0, 0, 0, 0, 0);
    }

    /** Pop the bare events for `dest` that a message with one event still has room for. */
    method PopJoining(dest: Address) returns (joined: seq<Occurred>)
      modifies this`queue
      ensures var n := Joining(old(queue), dest, EVENTS_PER_MESSAGE - 1);
              joined == old(queue)[..n] && queue == old(queue)[n..]
    {
      joined := [];
      ghost var all, n := queue, Joining(queue, dest, EVENTS_PER_MESSAGE - 1);
      while |joined| < EVENTS_PER_MESSAGE - 1 && queue != [] && queue[0].data.None? && queue[0].dest == dest
        invariant |joined| <= EVENTS_PER_MESSAGE - 1 && |joined| <= |all|
        invariant joined == all[..|joined|] && queue == all[|joined|..]
        invariant n == |joined| + Joining(queue, dest, EVENTS_PER_MESSAGE - 1 - |joined|)
        decreases |queue|
      {
        joined := joined + [queue[0]];
        queue := queue[1..];
      }
    }

    /** Pop the next message's events off the queue and write the message out. */
    method NextMessage() returns (message: Option<Message>)
      requires Valid()
      modifies this`queue, this`requestId
      ensures Valid()
      ensures old(queue) == [] ==> message.None? && State() == old(State())
      ensures old(queue) != [] ==>
                && requestId == NextId(old(requestId))
                && queue == old(queue)[Taken(old(queue))..]
                && message == Some(MessageOf(old(queue)[..Taken(old(queue))], requestId))
    {
      hide Header, Entry, Entries, Joining;
      if queue == [] {
        return None;
      }
      ghost var all := queue;
      var first := queue[0];
      queue := queue[1..];
      requestId := NextId(requestId);
      var dest := first.dest;
      if first.data.Some? {
        assert all[..1] == [first];
        var data := first.data.value;
        return Some(Message(
          Header(EVENTDATA_CMD, ENTRY_LEN + |data|, requestId) + Entry(first) + data, dest, EVENTDATA_ACK, 1));
      }
      var joined := PopJoining(dest);
      var entries := [first] + joined;
      assert entries == all[..Taken(all)] && queue == all[Taken(all)..];
      var body := WriteEntries(entries);
      return Some(Message(
        Header(EVENT_CMD, ENTRY_LEN * |entries|, requestId) + body, dest, EVENT_ACK, |entries|));
    }

    /** The arm that is ready: an event is queued or lost, a message is acknowledged, sent again or given up. */
    method Wake(i: Input) returns (sent: seq<Transmission>)
      requires Valid()
      modifies this`queue, this`outstanding, this`counters
      ensures Valid() && (State(), sent) == Woken(old(State()), i)
    {
      hide IsAck;
      sent := [];
      match i
      case Occurs(e) =>
        if |queue| >= QUEUE_CAPACITY {
          counters := counters.(lost := counters.lost + 1);
        } else {
          queue := queue + [e];
        }
      case Arrives(d, from) =>
        if outstanding.Some? && from == outstanding.value.dest
           && IsAck(d, outstanding.value.ackOpcode, outstanding.value.requestId)
        {
          counters := counters.(acknowledged := counters.acknowledged + 1);
          outstanding := None;
        }
      case ReceiveFails =>
      case Timeout(retryCount) =>
        if outstanding.Some? {
          var waiting := outstanding.value;
          if waiting.retries >= retryCount {
            counters := counters.(abandoned := counters.abandoned + 1);
            outstanding := None;
          } else {
            outstanding := Some(waiting.(retries := waiting.retries + 1));
            sent := [Transmission(waiting.bytes, waiting.dest)];
            counters := counters.(transmissions := counters.transmissions + 1);
          }
        }
    }

    /** With nothing outstanding, the next message leaves if there is one. */
    method Launch() returns (sent: seq<Transmission>)
      requires Valid()
      modifies this
      ensures Valid()
      ensures old(queue) == [] ==> State() == old(State()) && sent == []
      ensures old(queue) != [] ==> (State(), sent) == Launched(old(State()))
    {
      hide MessageOf, Taken, NextId;
      sent := [];
      var message := NextMessage();
      if message.Some? {
        var m := message.value;
        sent := [Transmission(m.bytes, m.dest)];
        counters := counters.(messages := counters.messages + 1,
                              transmissions := counters.transmissions + 1,
                              events := counters.events + m.events);
        outstanding := Some(Outstanding(requestId, m.ackOpcode, m.bytes, m.dest, 0));
      }
    }

    /** One turn of the channel's loop. */
    method Step(i: Input) returns (sent: seq<Transmission>)
      requires Valid()
      modifies this
      ensures Valid() && (State(), sent) == Stepped(old(State()), i)
    {
      hide Woken, Launched;
      sent := Wake(i);
      ghost var woken, again := State(), sent;
      assert Woken(old(State()), i) == (woken, again);
      if i.ReceiveFails? {
        return;
      }
      if outstanding.None? {
        var launch := Launch();
        sent := sent + launch;
        assert woken.queue == [] ==> sent == again;
      }
      assert LaunchesAfter(woken, i) ==> Launched(woken).0 == State() && again + Launched(woken).1 == sent;
      assert !LaunchesAfter(woken, i) ==> (woken, again) == (State(), sent);
    }
  }
}
