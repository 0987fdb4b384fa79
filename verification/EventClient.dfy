/** The host's end of the message channel: how it reads a message and what it answers. */
module EventClient {
  import opened Bytes
  import opened EventChannel
  import opened EventRuns

  const MAX_EVENT_SIZE: nat := 2048

  datatype MessageHeader = MessageHeader(
    command: nat, length: nat, requestId: nat, ackRequired: bool, extendedIds: bool)
  {
    function AckOpcode(): nat { if command == EVENTDATA_CMD then EVENTDATA_ACK else EVENT_ACK }

    function EntrySize(): (r: nat)
      ensures r >= 16
    {
      if extendedIds then 24 else 16
    }
  }

  datatype EventPacket = EventPacket(
    eventId: nat, streamChannel: nat, blockId: nat, timestamp: nat, payload: seq<byte>)

  function ParseHeader(d: seq<byte>): Option<MessageHeader> {
    if |d| < 8 || |d| > MAX_EVENT_SIZE || d[0] != 0x42 then None
    else
      var h := MessageHeader(FromBigEndian(d[2..4]), FromBigEndian(d[4..6]), FromBigEndian(d[6..8]),
                             d[1] % 2 == 1, d[1] / 16 % 2 == 1);
      if h.command !in {EVENT_CMD, EVENTDATA_CMD} || h.length + 8 != |d| then None else Some(h)
  }

  function ParseEntry(extendedIds: bool, entry: seq<byte>, payload: seq<byte>): EventPacket
    requires |entry| >= if extendedIds then 24 else 16
  {
    if extendedIds then
      EventPacket(FromBigEndian(entry[2..4]), FromBigEndian(entry[4..6]),
                  FromBigEndian(entry[8..16]), FromBigEndian(entry[16..24]), payload)
    else
      EventPacket(FromBigEndian(entry[2..4]), FromBigEndian(entry[4..6]),
                  FromBigEndian(entry[6..8]), FromBigEndian(entry[8..16]), payload)
  }

  /** The whole entries of a body, in order. */
  function ParseEntries(extendedIds: bool, body: seq<byte>): seq<EventPacket>
    decreases |body|
  {
    var n := if extendedIds then 24 else 16;
    if |body| < n then []
    else [ParseEntry(extendedIds, body[..n], [])] + ParseEntries(extendedIds, body[n..])
  }

  datatype Parsed = Rejected | Accepted(header: MessageHeader, events: seq<EventPacket>)

  function ParseMessage(d: seq<byte>): Parsed {
    match ParseHeader(d)
    case None => Rejected
    case Some(h) =>
      var body := d[8..];
      if |body| < h.EntrySize() then Rejected
      else if h.command == EVENTDATA_CMD then
        Accepted(h, [ParseEntry(h.extendedIds, body, body[h.EntrySize()..])])
      else if h.length % h.EntrySize() != 0 then Rejected
      else Accepted(h, ParseEntries(h.extendedIds, body))
  }

  /** Status, opcode, no payload, and the request id the device used. */
  function EncodeAck(opcode: nat, requestId: nat): (r: seq<byte>)
    ensures |r| == 8
  {
    [0, 0] + BigEndian(opcode, 2) + BigEndian(0, 2) + BigEndian(requestId, 2)
  }

  // ---------------------------------------------------------------- reading a message back

  /** The event's fields are ones the Rust types hold. */
  predicate Typed(e: Occurred) {
    e.eventId < Capacity(2) && e.blockId < Capacity(2) && e.timestamp < Capacity(8)
  }

  predicate AllTyped(events: seq<Occurred>) {
    forall i :: 0 <= i < |events| ==> Typed(events[i])
  }

  /** What the host should see of an event. */
  function Seen(e: Occurred): EventPacket {
    EventPacket(e.eventId, 0, e.blockId, e.timestamp, if e.data.Some? then e.data.value else [])
  }

  function SeenAll(events: seq<Occurred>): (r: seq<EventPacket>)
    ensures |r| == |events| && forall i :: 0 <= i < |r| ==> r[i] == Seen(events[i])
  {
    seq(|events|, i requires 0 <= i < |events| => Seen(events[i]))
  }

  lemma {:induction false} EntryReadsBack(e: Occurred, rest: seq<byte>, payload: seq<byte>)
    requires Typed(e)
    ensures ParseEntry(false, Entry(e) + rest, payload)
            == EventPacket(e.eventId, 0, e.blockId, e.timestamp, payload)
  {
    hide BigEndian, FromBigEndian;
    CapacityValues();
    hide Capacity;
    var d := Entry(e) + rest;
    assert d[2..4] == BigEndian(e.eventId, 2);
    assert d[4..6] == BigEndian(0, 2);
    assert d[6..8] == BigEndian(e.blockId, 2);
    assert d[8..16] == BigEndian(e.timestamp, 8);
    BigEndianRoundTrip(e.eventId, 2);
    BigEndianRoundTrip(0, 2);
    BigEndianRoundTrip(e.blockId, 2);
    BigEndianRoundTrip(e.timestamp, 8);
  }

  lemma {:induction false} ParseEntriesSnoc(body: seq<byte>, entry: seq<byte>)
    requires |entry| == 16 && |body| % 16 == 0
    ensures ParseEntries(false, body + entry) == ParseEntries(false, body) + [ParseEntry(false, entry, [])]
    decreases |body|
  {
    hide ParseEntry;
    var d := body + entry;
    if |body| < 16 {
      assert body == [] && d == entry && entry[..16] == entry && entry[16..] == [];
    } else {
      ParseEntriesSnoc(body[16..], entry);
      assert d[..16] == body[..16] && d[16..] == body[16..] + entry;
      Associate([ParseEntry(false, body[..16], [])], ParseEntries(false, body[16..]),
                [ParseEntry(false, entry, [])]);
    }
  }

  lemma {:induction false} EntriesReadBack(events: seq<Occurred>)
    requires AllTyped(events) && forall i :: 0 <= i < |events| ==> events[i].data.None?
    ensures ParseEntries(false, Entries(events)) == SeenAll(events)
    decreases |events|
  {
    hide Entry, ParseEntry, Typed;
    if events != [] {
      var front, last := events[..|events| - 1], events[|events| - 1];
      EntriesReadBack(front);
      ParseEntriesSnoc(Entries(front), Entry(last));
      EntryReadsBack(last, [], []);
      assert Entry(last) + [] == Entry(last);
      assert SeenAll(events) == SeenAll(front) + [Seen(last)];
    }
  }

  lemma {:induction false} HeaderReadsBack(opcode: nat, requestId: nat, body: seq<byte>)
    requires opcode in {EVENT_CMD, EVENTDATA_CMD} && requestId < Capacity(2)
    ensures var d := Header(opcode, |body|, requestId) + body;
            ParseHeader(d) == if |d| <= MAX_EVENT_SIZE
                              then Some(MessageHeader(opcode, |body|, requestId, true, false)) else None
  {
    hide BigEndian, FromBigEndian;
    CapacityValues();
    hide Capacity;
    var d := Header(opcode, |body|, requestId) + body;
    if |d| <= MAX_EVENT_SIZE {
      assert d[0] == 0x42 && d[1] == 0x01;
      assert d[2..4] == BigEndian(opcode, 2);
      assert d[4..6] == BigEndian(|body|, 2);
      assert d[6..8] == BigEndian(requestId, 2);
      BigEndianRoundTrip(opcode, 2);
      BigEndianRoundTrip(|body|, 2);
      BigEndianRoundTrip(requestId, 2);
    }
  }

  /**
   A message reads back at the host as exactly its events, in order, unless its
   data makes it longer than the host accepts.
   */
  lemma {:induction false} MessageReadsBack(events: seq<Occurred>, requestId: nat)
    requires WellFormed(events) && AllTyped(events) && requestId < Capacity(2)
    ensures var m := MessageOf(events, requestId);
            && (|m.bytes| <= MAX_EVENT_SIZE ==>
                  var p := ParseMessage(m.bytes);
                  && p.Accepted? && p.events == SeenAll(events)
                  && p.header.requestId == requestId && p.header.ackRequired
                  && p.header.AckOpcode() == m.ackOpcode)
            && (|m.bytes| > MAX_EVENT_SIZE ==> ParseMessage(m.bytes) == Rejected)
  {
    hide Header, Entry, Entries, ParseHeader, ParseEntry, ParseEntries, Capacity, Typed;
    var m := MessageOf(events, requestId);
    var first := events[0];
    if first.data.Some? {
      var data := first.data.value;
      var body := Entry(first) + data;
      assert m.bytes == Header(EVENTDATA_CMD, |body|, requestId) + body by {
        Associate(Header(EVENTDATA_CMD, |body|, requestId), Entry(first), data);
      }
      HeaderReadsBack(EVENTDATA_CMD, requestId, body);
      assert m.bytes[8..] == body && body[16..] == data;
      EntryReadsBack(first, data, data);
      assert SeenAll(events) == [Seen(first)];
    } else {
      var body := Entries(events);
      HeaderReadsBack(EVENT_CMD, requestId, body);
      assert m.bytes[8..] == body;
      EntriesReadBack(events);
      assert |body| % 16 == 0;
    }
  }

  /** The host's acknowledgement of a message is one the camera takes for that message. */
  lemma {:induction false} AckIsTaken(opcode: nat, requestId: nat)
    requires opcode < Capacity(2) && requestId < Capacity(2)
    ensures IsAck(EncodeAck(opcode, requestId), opcode, requestId)
  {
    hide BigEndian, FromBigEndian, Capacity;
    var d := EncodeAck(opcode, requestId);
    assert d[2..4] == BigEndian(opcode, 2);
    assert d[6..8] == BigEndian(requestId, 2);
    BigEndianRoundTrip(opcode, 2);
    BigEndianRoundTrip(requestId, 2);
  }

  /**
   The round trip, in any run: a host that gets the outstanding message reads
   exactly its events, and its acknowledgement settles the message.
   */
  lemma {:induction false} OutstandingIsDelivered(inputs: seq<Input>)
    requires var h := Run(inputs);
             && h.channel.outstanding.Some?
             && |h.channel.outstanding.value.bytes| <= MAX_EVENT_SIZE
             && h.log != [] && AllTyped(h.log[|h.log| - 1].events)
    ensures var h := Run(inputs);
            var o := h.channel.outstanding.value;
            var p := ParseMessage(o.bytes);
            && p.Accepted? && p.events == SeenAll(h.log[|h.log| - 1].events)
            && Acks(h.channel, EncodeAck(p.header.AckOpcode(), p.header.requestId), o.dest)
  {
    RunKeeps(inputs);
    CapacityValues();
    hide Run, ParseMessage, MessageOf, IsAck, EventsOf, WireOf, Counted, WellFormed, AllTyped, Capacity;
    var h := Run(inputs);
    var last := h.log[|h.log| - 1];
    MessageReadsBack(last.events, last.id);
    AckOpcodes(last.events, last.id);
    AckIsTaken(h.channel.outstanding.value.ackOpcode, last.id);
  }

  lemma {:induction false} AckOpcodes(events: seq<Occurred>, id: nat)
    requires events != []
    ensures MessageOf(events, id).ackOpcode in {EVENT_ACK, EVENTDATA_ACK}
  {
  }
}
