/** How a GigE Vision receiver reads the leader and the trailer of a block. */
module GvspDecode {
  import opened Bytes
  import opened Gvsp

  datatype ImageLeader = ImageLeader(
    pixelFormat: nat, width: nat, height: nat, offsetX: nat, offsetY: nat, paddingX: nat, paddingY: nat)

  datatype GvspLeader = GvspLeader(payloadType: nat, timestamp: nat, image: Option<ImageLeader>)

  datatype GvspTrailer = GvspTrailer(
    payloadType: nat, sizeY: nat, chunkPayloadLength: Option<nat>, chunkLayoutId: Option<nat>)

  function Be(s: seq<byte>, at: nat, width: nat): nat
    requires at + width <= |s|
  {
    FromBigEndian(s[at..at + width])
  }

  predicate IsImagePayload(payloadType: nat) {
    payloadType % EXTENDED_CHUNK_FLAG in {PAYLOAD_TYPE_IMAGE, PAYLOAD_TYPE_EXTENDED_CHUNK_DATA}
  }

  predicate HasExtendedChunks(payloadType: nat) {
    || payloadType / EXTENDED_CHUNK_FLAG % 2 == 1
    || payloadType % EXTENDED_CHUNK_FLAG == PAYLOAD_TYPE_EXTENDED_CHUNK_DATA
  }

  /** A leader without its header; offsets and padding may be missing. */
  function ParseLeader(body: seq<byte>): Option<GvspLeader> {
    if |body| < 12 then None
    else
      var kind, timestamp := Be(body, 2, 2), Be(body, 4, 8);
      if !IsImagePayload(kind) then Some(GvspLeader(kind, timestamp, None))
      else if |body| < 24 then None
      else
        var at := if |body| >= 32 then 32 else 24;
        Some(GvspLeader(kind, timestamp, Some(ImageLeader(
          Be(body, 12, 4), Be(body, 16, 4), Be(body, 20, 4),
          if |body| >= 32 then Be(body, 24, 4) else 0, if |body| >= 32 then Be(body, 28, 4) else 0,
          if |body| >= at + 4 then Be(body, at, 2) else 0, if |body| >= at + 4 then Be(body, at + 2, 2) else 0))))
  }

  /** A trailer without its header; one shorter than specified still counts. */
  function ParseTrailer(body: seq<byte>): Option<GvspTrailer> {
    if |body| < 2 then None
    else if |body| < 8 then Some(GvspTrailer(0, 0, None, None))
    else
      var kind := Be(body, 2, 2);
      if kind % EXTENDED_CHUNK_FLAG == PAYLOAD_TYPE_EXTENDED_CHUNK_DATA && |body| >= 16 then
        Some(GvspTrailer(kind, Be(body, 8, 4), Some(Be(body, 4, 4)), Some(Be(body, 12, 4))))
      else if HasExtendedChunks(kind) && |body| >= 16 then
        Some(GvspTrailer(kind, Be(body, 4, 4), Some(Be(body, 8, 4)), Some(Be(body, 12, 4))))
      else Some(GvspTrailer(kind, Be(body, 4, 4), None, None))
  }

  /** The leader reads back: payload type, time and, for an image, its format. */
  lemma {:induction false} LeaderReadsBack(spec: BlockSpec)
    requires spec.Typed()
    ensures ParseLeader(LeaderBytes(spec)[spec.HeaderLen()..])
            == Some(GvspLeader(spec.payloadType, spec.timestamp,
                 if spec.IsImage() then
                   Some(ImageLeader(spec.pixelFormat, spec.width, spec.height, 0, 0, spec.paddingX, 0))
                 else None))
  {
    CapacityValues();
    hide BigEndian, FromBigEndian, Capacity, PutHeader;
    var body := LeaderBody(spec);
    assert LeaderBytes(spec)[spec.HeaderLen()..] == body;
    assert body[2..4] == BigEndian(spec.payloadType, 2);
    assert body[4..12] == BigEndian(spec.timestamp, 8);
    BigEndianRoundTrip(spec.payloadType, 2);
    BigEndianRoundTrip(spec.timestamp, 8);
    if spec.IsImage() {
      assert body[12..16] == BigEndian(spec.pixelFormat, 4);
      assert body[16..20] == BigEndian(spec.width, 4);
      assert body[20..24] == BigEndian(spec.height, 4);
      assert body[24..28] == BigEndian(0, 4);
      assert body[28..32] == BigEndian(0, 4);
      assert body[32..34] == BigEndian(spec.paddingX, 2);
      assert body[34..36] == BigEndian(0, 2);
      BigEndianRoundTrip(spec.pixelFormat, 4);
      BigEndianRoundTrip(spec.width, 4);
      BigEndianRoundTrip(spec.height, 4);
      BigEndianRoundTrip(0, 4);
      BigEndianRoundTrip(spec.paddingX, 2);
      BigEndianRoundTrip(0, 2);
    }
  }

  /** What the receiver makes of a trailer's size field: the lines sent, or for bare chunk data the payload's length. */
  function SizeField(spec: BlockSpec, payloadLen: nat): nat {
    if spec.payloadType % EXTENDED_CHUNK_FLAG == PAYLOAD_TYPE_CHUNK_DATA then payloadLen else spec.sizeY
  }

  /** The trailer reads back: the lines sent, and with chunks the payload's length and the layout. */
  lemma {:induction false} TrailerReadsBack(spec: BlockSpec, packetId: nat, payloadLen: nat)
    requires spec.Typed() && payloadLen < Capacity(4)
    ensures var chunked := HasExtendedChunks(spec.payloadType);
            ParseTrailer(TrailerBytes(spec, packetId, payloadLen)[spec.HeaderLen()..])
            == Some(GvspTrailer(spec.payloadType, SizeField(spec, payloadLen),
                                if chunked then Some(payloadLen) else None,
                                if chunked then Some(spec.chunkLayoutId) else None))
  {
    CapacityValues();
    hide BigEndian, FromBigEndian, Capacity, PutHeader;
    var body := TrailerBody(spec, payloadLen);
    assert TrailerBytes(spec, packetId, payloadLen)[spec.HeaderLen()..] == body;
    assert body[2..4] == BigEndian(spec.payloadType, 2);
    BigEndianRoundTrip(spec.payloadType, 2);
    BigEndianRoundTrip(payloadLen, 4);
    BigEndianRoundTrip(spec.sizeY, 4);
    BigEndianRoundTrip(spec.chunkLayoutId, 4);
    if spec.payloadType % EXTENDED_CHUNK_FLAG == PAYLOAD_TYPE_EXTENDED_CHUNK_DATA {
      assert body[4..8] == BigEndian(payloadLen, 4);
      assert body[8..12] == BigEndian(spec.sizeY, 4);
      assert body == body[..12] + BigEndian(spec.chunkLayoutId, 4) && body[..16] == body;
      assert body[12..16] == BigEndian(spec.chunkLayoutId, 4);
    } else {
      assert body[4..8] == BigEndian(SizeField(spec, payloadLen), 4);
      if spec.payloadType / EXTENDED_CHUNK_FLAG % 2 == 1 {
        assert body[8..12] == BigEndian(payloadLen, 4);
        assert body == body[..12] + BigEndian(spec.chunkLayoutId, 4) && body[..16] == body;
        assert body[12..16] == BigEndian(spec.chunkLayoutId, 4);
      }
    }
  }
}
