/** How a USB3 Vision host reads what the device sent: leader, trailer, chunks and event commands. */
module U3vDecode {
  import opened Bytes
  import opened U3vWire
  import U3vStream
  import opened U3vRuns
  import ChunkData

  datatype Leader = Leader(
    blockId: nat, payloadType: nat, timestamp: nat, pixelFormat: nat, width: nat, height: nat,
    xOffset: nat, yOffset: nat, xPadding: nat)

  datatype Trailer = Trailer(blockId: nat, status: nat, validPayloadSize: nat, sizeY: Option<nat>)

  datatype Event = Event(id: nat, timestamp: nat, data: seq<byte>)

  function Le(buf: seq<byte>, at: nat, width: nat): nat
    requires at + width <= |buf|
  {
    FromLittleEndian(buf[at..at + width])
  }

  function ParseLeader(buf: seq<byte>): Option<Leader> {
    if |buf| < 20 || buf[..4] != [0x55, 0x33, 0x56, 0x4C] then None
    else
      var kind := Le(buf, 18, 2);
      var leader := Leader(Le(buf, 8, 8), kind, 0, 0, 0, 0, 0, 0, 0);
      if kind == 0x0001 || kind == 0x4001 then
        if |buf| < 50 then None
        else
          Some(Leader(leader.blockId, kind, Le(buf, 20, 8), Le(buf, 28, 4), Le(buf, 32, 4), Le(buf, 36, 4),
                      Le(buf, 40, 4), Le(buf, 44, 4), Le(buf, 48, 2)))
      else if |buf| >= 28 then Some(leader.(timestamp := Le(buf, 20, 8)))
      else Some(leader)
  }

  function ParseTrailer(buf: seq<byte>): Option<Trailer> {
    if |buf| < 28 || buf[..4] != [0x55, 0x33, 0x56, 0x54] then None
    else
      Some(Trailer(Le(buf, 8, 8), Le(buf, 16, 2), Le(buf, 20, 8),
                   if |buf| >= 32 then Some(Le(buf, 28, 4)) else None))
  }

  /** The events of an event command's data, one after the other; `None` when they do not tile it. */
  function ParseEvents(scd: seq<byte>): Option<seq<Event>>
    decreases |scd|
  {
    if scd == [] then Some([])
    else if |scd| < 12 then None
    else
      var declared := Le(scd, 0, 2);
      var size := if declared == 0 then |scd| else declared;
      if size < 12 || size > |scd| then None
      else
        match ParseEvents(scd[size..])
        case None => None
        case Some(rest) => Some([Event(Le(scd, 2, 2), Le(scd, 4, 8), scd[12..size])] + rest)
  }

  function ParseEventCommand(packet: seq<byte>): Option<seq<Event>> {
    if |packet| < 12 || packet[..4] != [0x55, 0x33, 0x56, 0x45] || Le(packet, 6, 2) != EVENT_CMD then None
    else
      var length := Le(packet, 8, 2);
      if |packet| < 12 + length then None else ParseEvents(packet[12..12 + length])
  }

  // ---------------------------------------------------------------- reading back

  /** The fields are ones the Rust types hold. */
  predicate Typed(s: Start) {
    && s.id < Capacity(8) && s.timestamp < Capacity(8) && s.format.pixelFormat < Capacity(4)
    && s.format.width < Capacity(4) && s.format.height < Capacity(4) && |s.payload| < Capacity(8)
  }

  lemma {:induction false} ZerosAre(n: nat)
    ensures Zeros(n) == LittleEndian(0, n)
  {
    if n > 0 {
      ZerosAre(n - 1);
      assert Zeros(n) == [0] + Zeros(n - 1);
    }
  }

  /** The leader says the block id, the payload type, the time and the format it was built from. */
  lemma {:induction false} LeaderReadsBack(f: Format, id: nat, timestamp: nat)
    requires id < Capacity(8) && timestamp < Capacity(8)
    requires f.pixelFormat < Capacity(4) && f.width < Capacity(4) && f.height < Capacity(4)
    ensures ParseLeader(BuildLeader(f, id, timestamp))
            == Some(Leader(id, if f.chunked then 0x4001 else 0x0001, timestamp, f.pixelFormat, f.width, f.height,
                           0, 0, 0))
  {
    CapacityValues();
    hide Capacity, LittleEndian, FromLittleEndian, Zeros;
    var b := BuildLeader(f, id, timestamp);
    var kind := if f.chunked then 0x4001 else 0x0001;
    assert b[8..16] == LittleEndian(id, 8);
    assert b[18..20] == LittleEndian(kind, 2);
    assert b[20..28] == LittleEndian(timestamp, 8);
    assert b[28..32] == LittleEndian(f.pixelFormat, 4);
    assert b[32..36] == LittleEndian(f.width, 4);
    assert b[36..40] == LittleEndian(f.height, 4);
    LittleEndianRoundTrip(id, 8);
    LittleEndianRoundTrip(kind, 2);
    LittleEndianRoundTrip(timestamp, 8);
    LittleEndianRoundTrip(f.pixelFormat, 4);
    LittleEndianRoundTrip(f.width, 4);
    LittleEndianRoundTrip(f.height, 4);
    assert b[40..52] == Zeros(12);
    ZeroFields(b);
  }

  lemma {:induction false} ZeroFields(b: seq<byte>)
    requires |b| == 52 && b[40..52] == Zeros(12)
    ensures Le(b, 40, 4) == 0 && Le(b, 44, 4) == 0 && Le(b, 48, 2) == 0
  {
    CapacityValues();
    assert b[40..44] == b[40..52][..4] == Zeros(4);
    assert b[44..48] == b[40..52][4..8] == Zeros(4);
    assert b[48..50] == b[40..52][8..10] == Zeros(2);
    ZerosAre(4);
    ZerosAre(2);
    LittleEndianRoundTrip(0, 4);
    LittleEndianRoundTrip(0, 2);
  }

  /** An event command reads back as one event: ExposureEnd, the block's time, and its id as data. */
  lemma {:induction false} EventReadsBack(requestId: nat, id: nat, timestamp: nat)
    requires timestamp < Capacity(8)
    ensures ParseEventCommand(EventCommand(requestId, id, timestamp))
            == Some([Event(EVENT_ID_EXPOSURE_END, timestamp, Zeros(4) + LittleEndian(id, 8))])
  {
    CapacityValues();
    hide Capacity, LittleEndian, FromLittleEndian, Zeros, EventBody;
    var p := EventCommand(requestId, id, timestamp);
    assert p[6..8] == LittleEndian(EVENT_CMD, 2);
    assert p[8..10] == LittleEndian(24, 2);
    LittleEndianRoundTrip(EVENT_CMD, 2);
    LittleEndianRoundTrip(24, 2);
    assert p[12..36] == EventBody(id, timestamp);
    EventBodyReadsBack(id, timestamp);
  }

  lemma {:induction false} EventBodyReadsBack(id: nat, timestamp: nat)
    requires timestamp < Capacity(8)
    ensures ParseEvents(EventBody(id, timestamp))
            == Some([Event(EVENT_ID_EXPOSURE_END, timestamp, Zeros(4) + LittleEndian(id, 8))])
  {
    CapacityValues();
    ZerosAre(2);
    hide Capacity, LittleEndian, FromLittleEndian, Zeros;
    var scd := EventBody(id, timestamp);
    assert scd[0..2] == Zeros(2);
    assert scd[2..4] == LittleEndian(EVENT_ID_EXPOSURE_END, 2);
    assert scd[4..12] == LittleEndian(timestamp, 8);
    LittleEndianRoundTrip(0, 2);
    LittleEndianRoundTrip(EVENT_ID_EXPOSURE_END, 2);
    LittleEndianRoundTrip(timestamp, 8);
    assert scd[12..24] == Zeros(4) + LittleEndian(id, 8);
    assert scd[24..] == [];
    var one := Event(EVENT_ID_EXPOSURE_END, timestamp, Zeros(4) + LittleEndian(id, 8));
    assert Le(scd, 0, 2) == 0;
    assert Event(Le(scd, 2, 2), Le(scd, 4, 8), scd[12..24]) == one;
    assert ParseEvents(scd[24..]) == Some([]);
    assert [one] + [] == [one];
  }

  /**
   A block received to its end reads back: its leader names the block, its
   trailer the same block, the payload bytes between them, and whether the
   device dropped any.
   */
  lemma {:induction false} BlockReadsBack(s: Start, bytes: seq<byte>)
    requires Whole(s, bytes) && Typed(s)
    ensures var k := |bytes| - LEADER_SIZE - TRAILER_SIZE;
            && ParseLeader(bytes[..LEADER_SIZE])
               == Some(Leader(s.id, if s.format.chunked then 0x4001 else 0x0001, s.timestamp,
                              s.format.pixelFormat, s.format.width, s.format.height, 0, 0, 0))
            && bytes[LEADER_SIZE..LEADER_SIZE + k] == s.payload[..k]
            && ParseTrailer(bytes[LEADER_SIZE + k..])
               == Some(Trailer(s.id, U3vStream.Status(k < OfferedOf(s)), k, Some(s.format.height)))
  {
    CapacityValues();
    hide Capacity, BuildLeader, ParseLeader, BuildTrailer, LittleEndian, FromLittleEndian;
    var k := |bytes| - LEADER_SIZE - TRAILER_SIZE;
    var trailer := BuildTrailer(s.id, U3vStream.Status(k < OfferedOf(s)), k, s.format.height);
    LeaderReadsBack(s.format, s.id, s.timestamp);
    assert bytes[..LEADER_SIZE] == BuildLeader(s.format, s.id, s.timestamp);
    assert bytes[LEADER_SIZE + k..] == trailer;
    TrailerReadsBack(s.id, U3vStream.Status(k < OfferedOf(s)), k, s.format.height);
    TrailerPrefix(s.id, U3vStream.Status(k < OfferedOf(s)), k, s.format.height);
  }

  lemma {:induction false} TrailerPrefix(id: nat, status: nat, valid: nat, height: nat)
    ensures BuildTrailer(id, status, valid, height)[..4] == [0x55, 0x33, 0x56, 0x54]
  {
  }

  // ---------------------------------------------------------------- chunks

  function ChunksOf(enabled: seq<nat>, timestamp: nat, id: nat): (r: seq<ChunkData.Chunk>)
    ensures |r| == |enabled|
  {
    if enabled == [] then []
    else [ChunkData.Chunk(enabled[0], LittleEndian(ChunkValue(enabled[0], timestamp, id), 8))]
         + ChunksOf(enabled[1..], timestamp, id)
  }

  lemma {:induction false} LaidAppend(a: seq<ChunkData.Chunk>, b: seq<ChunkData.Chunk>)
    ensures ChunkData.Laid(a + b, Little) == ChunkData.Laid(a, Little) + ChunkData.Laid(b, Little)
    decreases |b|
  {
    hide ChunkData.Tag;
    if b == [] {
      assert a + b == a;
    } else {
      var front, last := b[..|b| - 1], b[|b| - 1];
      LaidAppend(a, front);
      assert (a + b)[..|a + b| - 1] == a + front;
      Associate(ChunkData.Laid(a, Little), ChunkData.Laid(front, Little), last.data + ChunkData.Tag(last, Little));
    }
  }

  lemma {:induction false} LaidOne(c: ChunkData.Chunk)
    ensures ChunkData.Laid([c], Little) == c.data + (LittleEndian(c.id, 4) + LittleEndian(|c.data|, 4))
  {
  }

  lemma {:induction false} TailIsLaid(enabled: seq<nat>, timestamp: nat, id: nat)
    ensures ChunkTail(enabled, timestamp, id) == ChunkData.Laid(ChunksOf(enabled, timestamp, id), Little)
    decreases |enabled|
  {
    hide LittleEndian, ChunkData.Laid;
    if enabled == [] {
      ChunkData.NothingLaid(Little);
    } else {
      var value := LittleEndian(ChunkValue(enabled[0], timestamp, id), 8);
      var first := ChunkData.Chunk(enabled[0], value);
      TailIsLaid(enabled[1..], timestamp, id);
      LaidAppend([first], ChunksOf(enabled[1..], timestamp, id));
      LaidOne(first);
      Associate(value, LittleEndian(enabled[0], 4), LittleEndian(8, 4));
    }
  }

  /** The block's chunks: the image first, then each enabled one with its value. */
  function BlockChunks(image: seq<byte>, enabled: seq<nat>, timestamp: nat, id: nat): seq<ChunkData.Chunk> {
    [ChunkData.Chunk(CHUNK_ID_IMAGE, image)] + ChunksOf(enabled, timestamp, id)
  }

  /** A chunk payload splits back into the image and the enabled chunks, in order. */
  lemma {:induction false} ChunksReadBack(image: seq<byte>, enabled: seq<nat>, timestamp: nat, id: nat)
    requires |image| < Capacity(4) && forall i :: 0 <= i < |enabled| ==> enabled[i] < Capacity(4)
    ensures var r := ChunkData.Parse(ChunkPayload(image, enabled, timestamp, id), Little);
            r.Split? && ChunkData.Stripped(r.chunks) == BlockChunks(image, enabled, timestamp, id)
  {
    CapacityValues();
    hide LittleEndian, ChunkData.Laid, Capacity, ChunkTail, ChunkData.Parse;
    var first := ChunkData.Chunk(CHUNK_ID_IMAGE, image);
    var rest := ChunksOf(enabled, timestamp, id);
    TailIsLaid(enabled, timestamp, id);
    LaidAppend([first], rest);
    LaidOne(first);
    Associate(image, LittleEndian(CHUNK_ID_IMAGE, 4), LittleEndian(|image|, 4));
    ChunksFit(enabled, timestamp, id);
    assert ChunkData.AllFit([first] + rest);
    ChunkData.ReadsBackIff([first] + rest, Little);
  }

  lemma {:induction false} ChunksFit(enabled: seq<nat>, timestamp: nat, id: nat)
    requires forall i :: 0 <= i < |enabled| ==> enabled[i] < Capacity(4)
    ensures ChunkData.AllFit(ChunksOf(enabled, timestamp, id))
    decreases |enabled|
  {
    CapacityValues();
    hide LittleEndian, Capacity;
    if enabled != [] {
      ChunksFit(enabled[1..], timestamp, id);
    }
  }

  /** The chunks after the image carry what they are enabled for: 0x1001 the time, 0x1002 the block id. */
  lemma {:induction false} ChunksHoldTheBlock(enabled: seq<nat>, timestamp: nat, id: nat)
    requires timestamp < Capacity(8) && id < Capacity(8)
    ensures var chunks := ChunksOf(enabled, timestamp, id);
            && |chunks| == |enabled|
            && (forall i :: 0 <= i < |enabled| ==>
                  && chunks[i].id == enabled[i] && |chunks[i].data| == 8
                  && FromLittleEndian(chunks[i].data)
                     == if enabled[i] == 0x1001 then timestamp else if enabled[i] == 0x1002 then id else 0)
    decreases |enabled|
  {
    CapacityValues();
    hide LittleEndian, FromLittleEndian, Capacity;
    if enabled != [] {
      ChunksHoldTheBlock(enabled[1..], timestamp, id);
      LittleEndianRoundTrip(ChunkValue(enabled[0], timestamp, id), 8);
      assert forall i :: 0 < i < |enabled| ==> enabled[i] == enabled[1..][i - 1];
    }
  }
}
