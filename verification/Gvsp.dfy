/**
 GVSP datagrams: how the GigE camera lays a block out as a leader, data packets
 and a trailer, and how a receiver reads a packet's header back.
 */
module Gvsp {
  import opened Arithmetic
  import opened Bytes

  const FORMAT_LEADER: byte := 1
  const FORMAT_TRAILER: byte := 2
  const FORMAT_PAYLOAD: byte := 3
  const PAYLOAD_TYPE_IMAGE: nat := 0x0001
  const PAYLOAD_TYPE_CHUNK_DATA: nat := 0x0004
  const PAYLOAD_TYPE_EXTENDED_CHUNK_DATA: nat := 0x0005
  /** Bit 14 of the payload type, and the bits below it that name the type. */
  const EXTENDED_CHUNK_FLAG: nat := 0x4000
  const STATUS_PACKET_UNAVAILABLE: nat := 0x800C

  datatype BlockSpec = BlockSpec(
    blockId: nat, packetSize: nat, extendedIds: bool, payloadType: nat, pixelFormat: nat,
    width: nat, height: nat, timestamp: nat, trailerStatus: nat, sizeY: nat, chunkLayoutId: nat,
    paddingX: nat)
  {
    function HeaderLen(): nat { if extendedIds then 20 else 8 }

    /** Image bytes one data packet carries: the packet size counts the IPv4, UDP and GVSP headers. */
    function Stride(): nat {
      if packetSize >= 28 + HeaderLen() then packetSize - 28 - HeaderLen() else 0
    }

    predicate IsImage() {
      payloadType % EXTENDED_CHUNK_FLAG in {PAYLOAD_TYPE_IMAGE, PAYLOAD_TYPE_EXTENDED_CHUNK_DATA}
    }

    /** The values are ones the Rust field types hold. */
    predicate Typed() {
      && blockId < Capacity(8) && packetSize < Capacity(4) && payloadType < Capacity(2)
      && pixelFormat < Capacity(4) && width < Capacity(4) && height < Capacity(4)
      && timestamp < Capacity(8) && trailerStatus < Capacity(2) && sizeY < Capacity(4)
      && chunkLayoutId < Capacity(4) && paddingX < Capacity(2)
    }
  }

  datatype PacketKind = Leader | Payload | Trailer

  datatype Datagram = Datagram(blockId: nat, packetId: nat, kind: PacketKind, bytes: seq<byte>)

  function PutHeader(spec: BlockSpec, status: nat, format: byte, packetId: nat): (r: seq<byte>)
    requires format < 128
    ensures |r| == spec.HeaderLen()
  {
    BigEndian(status, 2)
    + (if spec.extendedIds then
         [0, 0] + [128 + format] + [0, 0, 0] + BigEndian(spec.blockId, 8) + BigEndian(packetId, 4)
       else
         BigEndian(spec.blockId, 2) + [format] + BigEndian(packetId, 3))
  }

  /** What follows the header of a leader. */
  function LeaderBody(spec: BlockSpec): seq<byte> {
    var start := BigEndian(0, 2) + BigEndian(spec.payloadType, 2) + BigEndian(spec.timestamp, 8);
    if !spec.IsImage() then start
    else
      start + BigEndian(spec.pixelFormat, 4) + BigEndian(spec.width, 4) + BigEndian(spec.height, 4)
      + BigEndian(0, 4) + BigEndian(0, 4) + BigEndian(spec.paddingX, 2) + BigEndian(0, 2)
  }

  function LeaderBytes(spec: BlockSpec): (r: seq<byte>)
    ensures r != []
  {
    PutHeader(spec, 0, FORMAT_LEADER, 0) + LeaderBody(spec)
  }

  function PayloadBytes(spec: BlockSpec, packetId: nat, data: seq<byte>): (r: seq<byte>)
    ensures r != []
  {
    PutHeader(spec, 0, FORMAT_PAYLOAD, packetId) + data
  }

  /** What follows the header of a trailer. */
  function TrailerBody(spec: BlockSpec, payloadLen: nat): seq<byte> {
    var start := BigEndian(0, 2) + BigEndian(spec.payloadType, 2);
    var kind := spec.payloadType % EXTENDED_CHUNK_FLAG;
    if kind == PAYLOAD_TYPE_EXTENDED_CHUNK_DATA then
      start + BigEndian(payloadLen, 4) + BigEndian(spec.sizeY, 4) + BigEndian(spec.chunkLayoutId, 4)
    else
      var sized := start + BigEndian(if kind == PAYLOAD_TYPE_CHUNK_DATA then payloadLen else spec.sizeY, 4);
      if spec.payloadType / EXTENDED_CHUNK_FLAG % 2 == 1 then
        sized + BigEndian(payloadLen, 4) + BigEndian(spec.chunkLayoutId, 4)
      else sized
  }

  function TrailerBytes(spec: BlockSpec, packetId: nat, payloadLen: nat): (r: seq<byte>)
    ensures r != []
  {
    PutHeader(spec, spec.trailerStatus, FORMAT_TRAILER, packetId) + TrailerBody(spec, payloadLen)
  }

  /** A bare header with a status: the answer to a resend request that cannot be served. */
  function HeaderOnly(blockId: nat, extendedIds: bool, packetId: nat, status: nat): seq<byte> {
    PutHeader(BlockSpec(blockId, 0, extendedIds, PAYLOAD_TYPE_IMAGE, 0, 0, 0, 0, 0, 0, 0, 0),
              status, FORMAT_PAYLOAD, packetId)
  }

  // ---------------------------------------------------------------- a block's datagrams

  /** `data` cut at every `stride` bytes. */
  function Chunks(data: seq<byte>, stride: nat): (r: seq<seq<byte>>)
    requires stride > 0
    decreases |data|
  {
    if data == [] then []
    else var n := Min(stride, |data|); [data[..n]] + Chunks(data[n..], stride)
  }

  function CutStride(spec: BlockSpec): (r: nat)
    ensures r >= 1
  {
    if spec.Stride() >= 1 then spec.Stride() else 1
  }

  function PayloadDatagram(spec: BlockSpec, packetId: nat, data: seq<byte>): Datagram {
    Datagram(spec.blockId, packetId, Payload, PayloadBytes(spec, packetId, data))
  }

  /** The datagrams of a block by packet id: the leader is 0, the trailer comes after the last chunk. */
  function Datagrams(spec: BlockSpec, data: seq<byte>): (r: seq<Datagram>)
    ensures |r| == |Chunks(data, CutStride(spec))| + 2
  {
    var chunks := Chunks(data, CutStride(spec));
    [Datagram(spec.blockId, 0, Leader, LeaderBytes(spec))]
    + seq(|chunks|, i requires 0 <= i < |chunks| => PayloadDatagram(spec, i + 1, chunks[i]))
    + [Datagram(spec.blockId, |chunks| + 1, Trailer, TrailerBytes(spec, |chunks| + 1, |data|))]
  }

  /** The packetising loop: one stride of the data at a time, ids counted from 1. */
  method BlockDatagrams(spec: BlockSpec, data: seq<byte>) returns (out: seq<Datagram>)
    ensures out == Datagrams(spec, data)
  {
    hide LeaderBytes, PayloadBytes, TrailerBytes;
    var stride := CutStride(spec);
    ghost var chunks := Chunks(data, stride);
    out := [Datagram(spec.blockId, 0, Leader, LeaderBytes(spec))];
    var packetId := 1;
    var rest := data;
    while rest != []
      invariant 1 <= packetId <= |chunks| + 1
      invariant chunks[packetId - 1..] == Chunks(rest, stride)
      invariant |out| == packetId && out[0] == Datagram(spec.blockId, 0, Leader, LeaderBytes(spec))
      invariant forall i :: 0 < i < |out| ==> out[i] == PayloadDatagram(spec, i, chunks[i - 1])
      decreases |rest|
    {
      var n := Min(stride, |rest|);
      assert chunks[packetId - 1..][0] == rest[..n];
      assert chunks[packetId..] == chunks[packetId - 1..][1..];
      out := out + [Datagram(spec.blockId, packetId, Payload, PayloadBytes(spec, packetId, rest[..n]))];
      rest := rest[n..];
      packetId := packetId + 1;
    }
    out := out + [Datagram(spec.blockId, packetId, Trailer, TrailerBytes(spec, packetId, |data|))];
  }

  /** Packet ids are positions, so a block's datagrams are told apart by them; only the first is a leader. */
  lemma {:induction false} DatagramIds(spec: BlockSpec, data: seq<byte>)
    ensures var ds := Datagrams(spec, data);
            forall i :: 0 <= i < |ds| ==>
              && ds[i].packetId == i && ds[i].blockId == spec.blockId && ds[i].bytes != []
              && (ds[i].kind.Leader? <==> i == 0) && (ds[i].kind.Trailer? <==> i == |ds| - 1)
  {
    hide LeaderBytes, PayloadBytes, TrailerBytes, Chunks;
    var ds := Datagrams(spec, data);
    assert forall i :: 0 < i < |ds| - 1 ==>
             ds[i] == PayloadDatagram(spec, i, Chunks(data, CutStride(spec))[i - 1]);
  }

  /**
   Data packets fill the packet size: with its 28 bytes of IPv4 and UDP headers
   each is as long as the size set, and only the last may be shorter.
   */
  lemma {:induction false} PacketsFillTheSize(spec: BlockSpec, data: seq<byte>, i: nat)
    requires spec.Stride() >= 1 && 1 <= i < |Datagrams(spec, data)| - 1
    ensures |Datagrams(spec, data)[i].bytes| + 28 <= spec.packetSize
    ensures i < |Datagrams(spec, data)| - 2 ==> |Datagrams(spec, data)[i].bytes| + 28 == spec.packetSize
  {
    hide LeaderBytes, TrailerBytes, PutHeader, Chunks;
    var chunks := Chunks(data, CutStride(spec));
    assert Datagrams(spec, data)[i] == PayloadDatagram(spec, i, chunks[i - 1]);
    ChunksFill(data, CutStride(spec), i - 1);
  }

  lemma {:induction false} ChunksFill(data: seq<byte>, stride: nat, k: nat)
    requires stride > 0 && k < |Chunks(data, stride)|
    ensures 1 <= |Chunks(data, stride)[k]| <= stride
    ensures k < |Chunks(data, stride)| - 1 ==> |Chunks(data, stride)[k]| == stride
    decreases |data|
  {
    var n := Min(stride, |data|);
    if k > 0 {
      ChunksFill(data[n..], stride, k - 1);
    } else if |data| <= stride {
      assert data[n..] == [];
    }
  }

  // ---------------------------------------------------------------- reading a header back

  datatype Header = Header(status: nat, blockId: nat, packetId: nat, extendedIds: bool, headerLen: nat)

  /** What a receiver makes of a packet's first 8 bytes, or 20 when the format byte's top bit is set. */
  function ParseHeader(d: seq<byte>): Option<Header> {
    if |d| < 8 then None
    else
      var status := FromBigEndian(d[0..2]);
      if d[4] >= 128 then
        if |d| < 20 then None
        else Some(Header(status, FromBigEndian(d[8..16]), FromBigEndian(d[16..20]), true, 20))
      else Some(Header(status, FromBigEndian(d[2..4]), FromBigEndian(d[5..8]), false, 8))
  }

  function PacketFormat(d: seq<byte>): nat
    requires |d| >= 8
  {
    d[4] % 16
  }

  /**
   Header round trip: what the camera writes the receiver reads, with the ids
   cut to what the layout holds - 16 and 24 bits in the standard one, all of
   them in the extended one.
   */
  lemma {:induction false} HeaderRoundTrip(spec: BlockSpec, status: nat, format: byte, packetId: nat, body: seq<byte>)
    requires status < Capacity(2) && format < 16
    requires spec.blockId < Capacity(8) && packetId < Capacity(4)
    ensures var d := PutHeader(spec, status, format, packetId) + body;
            && ParseHeader(d) == Some(Header(
                 status,
                 if spec.extendedIds then spec.blockId else spec.blockId % Capacity(2),
                 if spec.extendedIds then packetId else packetId % Capacity(3),
                 spec.extendedIds,
                 spec.HeaderLen()))
            && PacketFormat(d) == format
            && d[spec.HeaderLen()..] == body
  {
    hide BigEndian, FromBigEndian, Capacity;
    var d := PutHeader(spec, status, format, packetId) + body;
    assert d[0..2] == BigEndian(status, 2);
    BigEndianRoundTrip(status, 2);
    if spec.extendedIds {
      assert d[4] == 128 + format;
      assert d[8..16] == BigEndian(spec.blockId, 8);
      assert d[16..20] == BigEndian(packetId, 4);
      BigEndianRoundTrip(spec.blockId, 8);
      BigEndianRoundTrip(packetId, 4);
    } else {
      assert d[4] == format;
      assert d[2..4] == BigEndian(spec.blockId, 2);
      assert d[5..8] == BigEndian(packetId, 3);
      BigEndianTruncates(spec.blockId, 2);
      BigEndianTruncates(packetId, 3);
    }
  }

  // ---------------------------------------------------------------- block ids

  /** The successor of a block id in its layout's cycle, which leaves 0 out. */
  function NextBlockId(id: nat, extendedIds: bool): (r: nat)
    requires id < Capacity(8)
    ensures 1 <= r < Capacity(8)
    ensures !extendedIds ==> r < Capacity(2)
  {
    CapacityValues();
    if extendedIds then if id + 1 == Capacity(8) then 1 else id + 1
    else
      var next := (id % 0x1_0000 + 1) % 0x1_0000;
      if next == 0 then 1 else next
  }

  /** The id of the `k`th block after the first, which is 1. */
  function BlockIdAt(k: nat, extendedIds: bool): (r: nat)
    ensures 1 <= r < Capacity(8)
  {
    CapacityValues();
    if k == 0 then 1 else NextBlockId(BlockIdAt(k - 1, extendedIds), extendedIds)
  }

  /** How many ids the layout holds, 0 not counted. */
  function BlockIds(extendedIds: bool): (n: nat)
    ensures n > 0
  {
    CapacityValues();
    (if extendedIds then Capacity(8) else Capacity(2)) - 1
  }

  lemma {:induction false} NextInTurn(id: nat, extendedIds: bool)
    requires 1 <= id <= BlockIds(extendedIds)
    ensures NextBlockId(id, extendedIds) == if id == BlockIds(extendedIds) then 1 else id + 1
  {
    CapacityValues();
    hide Capacity;
  }

  /** Ids count up from 1 to the last one the layout holds and begin again at 1; 0 is never used. */
  lemma {:induction false} BlockIdsCycle(k: nat, extendedIds: bool)
    ensures BlockIdAt(k, extendedIds) == k % BlockIds(extendedIds) + 1
  {
    hide BlockIds, NextBlockId;
    if k > 0 {
      BlockIdsCycle(k - 1, extendedIds);
      NextInTurn(BlockIdAt(k - 1, extendedIds), extendedIds);
      NextRemainder(k - 1, BlockIds(extendedIds));
    }
  }
}
