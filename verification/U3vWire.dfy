/**
 What a USB3 Vision device puts on its stream endpoint: the leader, the
 payload of a block with its chunks, the trailer, and the device transfers and
 packets they are cut into.
 */
module U3vWire {
  import opened Arithmetic
  import opened Bytes

  /** A SuperSpeed bulk packet (USB 3.2, section 9.6.6). */
  const MAX_PACKET: nat := 1024
  const LEADER_SIZE: nat := 52
  const TRAILER_SIZE: nat := 32
  const DATA_OVERRUN: nat := 0xA101

  const CHUNK_ID_IMAGE: nat := 0x1122_3344
  const CHUNK_ID_TIMESTAMP: nat := 0x1001
  const CHUNK_ID_FRAME_ID: nat := 0x1002
  const EVENT_ID_EXPOSURE_END: nat := 0x9001
  const EVENT_CMD: nat := 0x0C00

  /** What the host wrote to the SIRM for reading a block. */
  datatype Layout = Layout(
    maxLeader: nat, transferSize: nat, transferCount: nat, final1: nat, final2: nat, maxTrailer: nat)

  datatype Format = Format(
    width: nat, height: nat, pixelFormat: nat, chunked: bool, enabledChunks: seq<nat>)

  /** Bytes of an image: bits 23-16 of the pixel format are its depth; a partial byte counts whole. */
  function PayloadBytes(width: nat, height: nat, pixelFormat: nat): nat {
    (width * height * (pixelFormat / 0x1_0000 % 256) + 7) / 8
  }

  function Zeros(n: nat): (r: seq<byte>)
    ensures |r| == n
  {
    seq(n, _ => 0)
  }

  /** `s` cut or filled with `fill` to exactly `n` bytes. */
  function Resize(s: seq<byte>, n: nat, fill: byte): (r: seq<byte>)
    ensures |r| == n
    ensures r[..Min(n, |s|)] == s[..Min(n, |s|)]
  {
    if n <= |s| then s[..n] else s + seq(n - |s|, _ => fill)
  }

  function ChunkValue(chunk: nat, timestamp: nat, id: nat): nat {
    if chunk == CHUNK_ID_TIMESTAMP then timestamp
    else if chunk == CHUNK_ID_FRAME_ID then id
    else 0
  }

  function ChunkTail(enabled: seq<nat>, timestamp: nat, id: nat): (r: seq<byte>)
    ensures |r| == 16 * |enabled|
  {
    if enabled == [] then []
    else
      LittleEndian(ChunkValue(enabled[0], timestamp, id), 8) + LittleEndian(enabled[0], 4)
      + LittleEndian(8, 4) + ChunkTail(enabled[1..], timestamp, id)
  }

  function ChunkPayload(image: seq<byte>, enabled: seq<nat>, timestamp: nat, id: nat): (r: seq<byte>)
    ensures |r| == |image| + 8 + 16 * |enabled|
  {
    image + LittleEndian(CHUNK_ID_IMAGE, 4) + LittleEndian(|image|, 4)
    + ChunkTail(enabled, timestamp, id)
  }

  /** The payload of a block whose generated test pattern is `pattern`. */
  function BlockPayload(f: Format, pattern: seq<byte>, timestamp: nat, id: nat): (r: seq<byte>) {
    var image := Resize(pattern, PayloadBytes(f.width, f.height, f.pixelFormat), 0x80);
    if f.chunked then ChunkPayload(image, f.enabledChunks, timestamp, id) else image
  }

  function BuildLeader(f: Format, id: nat, timestamp: nat): (r: seq<byte>)
    ensures |r| == LEADER_SIZE
  {
    [0x55, 0x33, 0x56, 0x4C] + Zeros(2) + LittleEndian(LEADER_SIZE, 2) + LittleEndian(id, 8)
    + Zeros(2) + LittleEndian(if f.chunked then 0x4001 else 0x0001, 2) + LittleEndian(timestamp, 8)
    + LittleEndian(f.pixelFormat, 4) + LittleEndian(f.width, 4) + LittleEndian(f.height, 4) + Zeros(12)
  }

  function BuildTrailer(id: nat, status: nat, valid: nat, height: nat): (r: seq<byte>)
    ensures |r| == TRAILER_SIZE
  {
    [0x55, 0x33, 0x56, 0x54] + Zeros(2) + LittleEndian(TRAILER_SIZE, 2) + LittleEndian(id, 8)
    + LittleEndian(status, 2) + Zeros(2) + LittleEndian(valid, 8) + LittleEndian(height, 4)
  }

  /** The trailer reads back: block id, status and valid payload size sit where the host looks. */
  lemma {:induction false} TrailerReadsBack(id: nat, status: nat, valid: nat, height: nat)
    requires id < Capacity(8) && status < Capacity(2) && valid < Capacity(8) && height < Capacity(4)
    ensures var t := BuildTrailer(id, status, valid, height);
            && FromLittleEndian(t[8..16]) == id
            && FromLittleEndian(t[16..18]) == status
            && FromLittleEndian(t[20..28]) == valid
            && FromLittleEndian(t[28..32]) == height
  {
    hide LittleEndian, FromLittleEndian, Capacity;
    var t := BuildTrailer(id, status, valid, height);
    assert t[8..16] == LittleEndian(id, 8);
    assert t[16..18] == LittleEndian(status, 2);
    var front := t[..20];
    Associate(front, LittleEndian(valid, 8), LittleEndian(height, 4));
    assert t == front + LittleEndian(valid, 8) + LittleEndian(height, 4);
    assert t[20..28] == LittleEndian(valid, 8);
    assert t[28..32] == LittleEndian(height, 4);
    LittleEndianRoundTrip(id, 8);
    LittleEndianRoundTrip(status, 2);
    LittleEndianRoundTrip(valid, 8);
    LittleEndianRoundTrip(height, 4);
  }

  /** GenCP 1.3.1, Table 17: one ExposureEnd event, its data the stream channel and the block id. */
  function EventBody(id: nat, timestamp: nat): (r: seq<byte>)
    ensures |r| == 24
  {
    Zeros(2) + LittleEndian(EVENT_ID_EXPOSURE_END, 2) + LittleEndian(timestamp, 8)
    + (Zeros(4) + LittleEndian(id, 8))
  }

  /** The event as a command. */
  function EventCommand(requestId: nat, id: nat, timestamp: nat): (r: seq<byte>)
    ensures |r| == 36
  {
    [0x55, 0x33, 0x56, 0x45] + Zeros(2) + LittleEndian(EVENT_CMD, 2) + LittleEndian(24, 2)
    + LittleEndian(requestId, 2) + EventBody(id, timestamp)
  }

  /** Concatenation. */
  function Join(parts: seq<seq<byte>>): seq<byte> {
    if parts == [] then [] else parts[0] + Join(parts[1..])
  }

  function Repeat(x: nat, n: nat): (r: seq<nat>)
    ensures |r| == n
  {
    seq(n, _ => x)
  }

  function NonZero(s: seq<nat>): (r: seq<nat>)
    ensures forall i :: 0 <= i < |r| ==> r[i] > 0
  {
    if s == [] then [] else if s[0] > 0 then [s[0]] + NonZero(s[1..]) else NonZero(s[1..])
  }

  /** The payload transfer sizes a block is sent in: the zero ones are not used. */
  function Sizes(l: Layout): (r: seq<nat>)
    ensures forall i :: 0 <= i < |r| ==> r[i] > 0
  {
    NonZero(Repeat(l.transferSize, l.transferCount) + [l.final1, l.final2])
  }

  function Sum(s: seq<nat>): nat {
    if s == [] then 0 else s[0] + Sum(s[1..])
  }

  lemma {:induction false} SumAppend(a: seq<nat>, b: seq<nat>)
    ensures Sum(a + b) == Sum(a) + Sum(b)
  {
    if a == [] {
      assert a + b == b;
    } else {
      SumAppend(a[1..], b);
      assert (a + b)[1..] == a[1..] + b;
    }
  }

  lemma {:induction false} SumNonZero(s: seq<nat>)
    ensures Sum(NonZero(s)) == Sum(s)
  {
    if s != [] {
      SumNonZero(s[1..]);
      if s[0] > 0 {
        assert NonZero(s)[1..] == NonZero(s[1..]);
      }
    }
  }

  lemma {:induction false} SumRepeat(x: nat, n: nat)
    ensures Sum(Repeat(x, n)) == n * x
  {
    if n > 0 {
      assert Repeat(x, n)[1..] == Repeat(x, n - 1);
      SumRepeat(x, n - 1);
      assert n * x == x + (n - 1) * x;
    }
  }

  /** The layout's payload capacity is the sum the SIRM fields spell out. */
  lemma {:induction false} LayoutCapacity(l: Layout)
    ensures Sum(Sizes(l)) == l.transferCount * l.transferSize + l.final1 + l.final2
  {
    var base := Repeat(l.transferSize, l.transferCount);
    SumNonZero(base + [l.final1, l.final2]);
    SumAppend(base, [l.final1, l.final2]);
    SumRepeat(l.transferSize, l.transferCount);
    assert [l.final1, l.final2][1..] == [l.final2];
    assert Sum([l.final2]) == l.final2;
  }

  /** Bytes of `payload` the layout has room for. */
  function Offered(payload: seq<byte>, l: Layout): (r: nat)
    ensures r <= |payload|
  {
    Min(|payload|, l.transferCount * l.transferSize + l.final1 + l.final2)
  }

  /** `payload` cut into transfers of at most these sizes. */
  function Pieces(payload: seq<byte>, sizes: seq<nat>): (r: seq<seq<byte>>)
    requires forall i :: 0 <= i < |sizes| ==> sizes[i] > 0
    ensures forall i :: 0 <= i < |r| ==> r[i] != []
    decreases |sizes|
  {
    if payload == [] || sizes == [] then []
    else
      var n := Min(sizes[0], |payload|);
      [payload[..n]] + Pieces(payload[n..], sizes[1..])
  }

  lemma {:induction false} PiecesJoin(payload: seq<byte>, sizes: seq<nat>)
    requires forall i :: 0 <= i < |sizes| ==> sizes[i] > 0
    ensures Join(Pieces(payload, sizes)) == payload[..Min(|payload|, Sum(sizes))]
    decreases |sizes|
  {
    if payload != [] && sizes != [] {
      var n := Min(sizes[0], |payload|);
      PiecesJoin(payload[n..], sizes[1..]);
      var p := Pieces(payload, sizes);
      assert p[1..] == Pieces(payload[n..], sizes[1..]);
      var m := Min(|payload[n..]|, Sum(sizes[1..]));
      assert payload[..n] + payload[n..][..m] == payload[..n + m];
    }
  }
}
