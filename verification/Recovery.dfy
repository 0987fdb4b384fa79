/**
 End to end: a block is cut into datagrams, a script damages them, the cache
 answers resend requests, and a receiver that places data packets by id gets
 the payload back.
 */
module Recovery {
  import opened Arithmetic
  import opened Bytes
  import opened Gvsp
  import opened PacketScript
  import opened Retention

  // ---------------------------------------------------------------- the receiver

  /** A data packet shorter than the stride, which only the last one may be. */
  datatype Short = Short(id: nat, len: nat)

  /**
   A frame being put together: its bytes so far, the packet slots that arrived,
   the last id once the trailer named it, a short packet not yet shown to be
   out of place, the highest id so far, and whether an error closed it.
   */
  datatype Assembly = Assembly(
    buffer: seq<byte>, have: set<nat>, lastId: Option<nat>, short: Option<Short>, highest: nat, closed: bool)

  const EMPTY := Assembly([], {}, None, None, 0, false)

  function Place(a: Assembly, offset: nat, body: seq<byte>, slot: nat): Assembly {
    var end := offset + |body|;
    var grown := if end > |a.buffer| then a.buffer + seq(end - |a.buffer|, _ => 0) else a.buffer;
    a.(buffer := grown[..offset] + body + grown[end..], have := a.have + {slot})
  }

  /** A short packet that was not the last is taken back out: its slot emptied, its bytes zeroed. */
  function TakenBack(a: Assembly, s: Short, stride: nat): Assembly {
    if s.id == 0 || s.id - 1 !in a.have then a
    else
      var offset := (s.id - 1) * stride;
      var end := Min(offset + s.len, |a.buffer|);
      var from := Min(offset, end);
      a.(buffer := a.buffer[..from] + seq(end - from, _ => 0) + a.buffer[end..], have := a.have - {s.id - 1})
  }

  /** Of two short packets the lower cannot be the last; the higher stays pending. */
  function NoteShort(a: Assembly, s: Short, stride: nat): Assembly {
    match a.short
    case None => a.(short := Some(s))
    case Some(pending) =>
      if pending.id < s.id then TakenBack(a.(short := Some(s)), pending, stride)
      else TakenBack(a, s, stride)
  }

  /** A pending short packet goes when a higher id, or the trailer, shows it is not the last. */
  function SettleShort(a: Assembly, stride: nat): Assembly {
    if a.short.Some? && (a.short.value.id < a.highest || (a.lastId.Some? && a.short.value.id < a.lastId.value))
    then TakenBack(a.(short := None), a.short.value, stride)
    else a
  }

  /** A data packet is written at its id's place, once, unless it is past the end or longer than the stride. */
  function OnPayload(a: Assembly, id: nat, body: seq<byte>, stride: nat): Assembly {
    if id == 0 || stride == 0 || (a.lastId.Some? && id > a.lastId.value) || id - 1 in a.have || |body| > stride then a
    else
      var b := Place(a, (id - 1) * stride, body, id - 1).(highest := Max(a.highest, id));
      SettleShort(if |body| < stride then NoteShort(b, Short(id, |body|), stride) else b, stride)
  }

  /** The first trailer names the last id; one that reports an error closes the frame. */
  function OnTrailer(a: Assembly, id: nat, status: nat, stride: nat): Assembly {
    if a.lastId.Some? then a
    else
      var last := if id == 0 then 0 else id - 1;
      var b := a.(lastId := Some(last));
      if status >= 0x8000 then b.(closed := true)
      else if b.short.Some? && b.short.value.id < last
      then TakenBack(b.(short := None), b.short.value, stride)
      else b
  }

  /** One datagram: an error report that is no trailer is ignored, and a closed frame takes nothing. */
  function Receive(a: Assembly, d: seq<byte>, stride: nat): Assembly {
    var h := ParseHeader(d);
    if h.None? || a.closed then a
    else if PacketFormat(d) == FORMAT_TRAILER then OnTrailer(a, h.value.packetId, h.value.status, stride)
    else if h.value.status >= 0x8000 || PacketFormat(d) != FORMAT_PAYLOAD then a
    else OnPayload(a, h.value.packetId, d[h.value.headerLen..], stride)
  }

  function ReceiveAll(a: Assembly, packets: seq<seq<byte>>, stride: nat): Assembly
    decreases |packets|
  {
    if packets == [] then a else ReceiveAll(Receive(a, packets[0], stride), packets[1..], stride)
  }

  // ---------------------------------------------------------------- where the chunks are

  lemma {:induction false} ChunksStep(data: seq<byte>, stride: nat)
    requires stride > 0
    ensures data == [] ==> Chunks(data, stride) == []
    ensures data != [] ==> var n := Min(stride, |data|);
                           Chunks(data, stride) == [data[..n]] + Chunks(data[n..], stride)
  {
  }

  /** A slice of what is left after `n` bytes is one `n` further on. */
  lemma {:induction false} SliceBehind(data: seq<byte>, n: nat, from: nat, stride: nat)
    requires n <= |data|
    ensures from < |data[n..]| ==>
              data[n..][from..Min(from + stride, |data| - n)] == data[from + n..Min(from + n + stride, |data|)]
  {
  }

  /** Chunk `k` is the bytes from `k * stride` on; the chunks reach exactly as far as the data. */
  lemma {:induction false} ChunkAt(data: seq<byte>, stride: nat, k: nat)
    requires stride > 0
    ensures k < |Chunks(data, stride)| <==> k * stride < |data|
    ensures k < |Chunks(data, stride)| ==>
              Chunks(data, stride)[k] == data[k * stride..Min(k * stride + stride, |data|)]
    decreases |data|
  {
    hide Chunks;
    ChunksStep(data, stride);
    var c := Chunks(data, stride);
    if data == [] {
      MulMono(k, 0, stride);
    } else if k > 0 {
      var n := Min(stride, |data|);
      ChunkAt(data[n..], stride, k - 1);
      MulStep(k, stride);
      SliceBehind(data, n, (k - 1) * stride, stride);
    }
  }

  /** Which slot a byte belongs to. */
  lemma {:induction false} SlotOf(x: nat, stride: nat, slot: nat)
    requires stride > 0
    ensures x / stride == slot <==> slot * stride <= x < slot * stride + stride
  {
    if slot * stride <= x < slot * stride + stride {
      DivModIs(x, stride, slot, x - slot * stride);
    }
    if x / stride == slot {
      assert x == slot * stride + x % stride;
    }
  }

  function Slots(spec: BlockSpec, data: seq<byte>): nat {
    |Chunks(data, CutStride(spec))|
  }

  function AllSlots(n: nat): (r: set<nat>)
    ensures forall s: nat :: s in r <==> s < n
  {
    if n == 0 then {} else AllSlots(n - 1) + {n - 1}
  }

  // ---------------------------------------------------------------- placing originals

  /** Where a slot has arrived the buffer holds the payload's bytes. */
  ghost predicate Agrees(a: Assembly, data: seq<byte>, stride: nat)
    requires stride > 0
  {
    && |a.buffer| <= |data|
    && (forall x :: 0 <= x < |data| && x / stride in a.have ==> x < |a.buffer| && a.buffer[x] == data[x])
  }

  lemma {:induction false} PlaceAgrees(a: Assembly, data: seq<byte>, stride: nat, slot: nat)
    requires stride > 0 && Agrees(a, data, stride)
    requires slot < |Chunks(data, stride)|
    ensures Agrees(Place(a, slot * stride, Chunks(data, stride)[slot], slot), data, stride)
  {
    ChunkAt(data, stride, slot);
    var offset := slot * stride;
    var body := Chunks(data, stride)[slot];
    var b := Place(a, offset, body, slot);
    forall x | 0 <= x < |data| && x / stride in b.have
      ensures x < |b.buffer| && b.buffer[x] == data[x]
    {
      SlotOf(x, stride, slot);
      if x / stride == slot {
        assert b.buffer[x] == body[x - offset];
      } else {
        assert x / stride in a.have;
      }
    }
  }

  /** The header layout tells the ids apart, the trailer's included. */
  predicate IdsFit(spec: BlockSpec, slots: nat) {
    slots + 1 < (if spec.extendedIds then Capacity(4) else Capacity(3))
  }

  /** A block the receiver can put together: room for data, ids told apart, no error in the trailer. */
  predicate Sendable(spec: BlockSpec, slots: nat) {
    spec.Typed() && spec.Stride() >= 1 && IdsFit(spec, slots) && spec.trailerStatus < 0x8000
  }

  lemma {:induction false} PayloadAt(spec: BlockSpec, data: seq<byte>, i: nat)
    requires 1 <= i <= Slots(spec, data)
    ensures Datagrams(spec, data)[i] == PayloadDatagram(spec, i, Chunks(data, CutStride(spec))[i - 1])
  {
    hide LeaderBytes, TrailerBytes, PayloadBytes, Chunks;
  }

  /** An original data packet, read off the wire, is its chunk at its slot. */
  lemma {:induction false} DataPacketParses(spec: BlockSpec, data: seq<byte>, i: nat)
    requires spec.Typed() && IdsFit(spec, Slots(spec, data)) && 1 <= i <= Slots(spec, data)
    ensures var d := Datagrams(spec, data)[i].bytes;
            var h := ParseHeader(d);
            && h.Some? && h.value.status == 0 && h.value.packetId == i
            && PacketFormat(d) == FORMAT_PAYLOAD
            && d[h.value.headerLen..] == Chunks(data, CutStride(spec))[i - 1]
  {
    CapacityValues();
    hide ParseHeader, PacketFormat, PutHeader, Capacity, Chunks, Datagrams;
    var chunks := Chunks(data, CutStride(spec));
    PayloadAt(spec, data, i);
    HeaderRoundTrip(spec, 0, FORMAT_PAYLOAD, i, chunks[i - 1]);
  }

  lemma {:induction false} LeaderParses(spec: BlockSpec, data: seq<byte>)
    requires spec.Typed()
    ensures var d := Datagrams(spec, data)[0].bytes;
            ParseHeader(d).Some? && ParseHeader(d).value.status == 0 && PacketFormat(d) == FORMAT_LEADER
  {
    CapacityValues();
    hide ParseHeader, PacketFormat, PutHeader, Capacity, Chunks, LeaderBody, TrailerBytes, PayloadBytes;
    HeaderRoundTrip(spec, 0, FORMAT_LEADER, 0, LeaderBody(spec));
  }

  lemma {:induction false} TrailerAt(spec: BlockSpec, data: seq<byte>)
    ensures var n := Slots(spec, data) + 1;
            Datagrams(spec, data)[n].bytes == TrailerBytes(spec, n, |data|)
  {
    hide LeaderBytes, TrailerBytes, PayloadBytes, Chunks;
  }

  lemma {:induction false} TrailerParses(spec: BlockSpec, data: seq<byte>)
    requires spec.Typed() && Slots(spec, data) + 1 < Capacity(4)
    ensures var n := Slots(spec, data) + 1;
            var d := Datagrams(spec, data)[n].bytes;
            && ParseHeader(d).Some? && ParseHeader(d).value.status == spec.trailerStatus
            && ParseHeader(d).value.packetId == (if spec.extendedIds then n else n % Capacity(3))
            && PacketFormat(d) == FORMAT_TRAILER
  {
    CapacityValues();
    hide ParseHeader, PacketFormat, PutHeader, Capacity, Chunks, TrailerBody, Datagrams;
    var n := Slots(spec, data) + 1;
    TrailerAt(spec, data);
    HeaderRoundTrip(spec, spec.trailerStatus, FORMAT_TRAILER, n, TrailerBody(spec, |data|));
  }

  /** The slots an original datagram fills: its own if it is data, none if not. */
  function SlotsOf(spec: BlockSpec, data: seq<byte>, i: nat): set<nat> {
    if 1 <= i <= Slots(spec, data) then {i - 1} else {}
  }

  /** Nothing has gone wrong: what is noted of the ends agrees with the block, and a short packet is its last. */
  predicate Clean(a: Assembly, slots: nat) {
    && !a.closed && a.highest <= slots
    && (a.lastId.Some? ==> a.lastId.value == slots)
    && (a.short.Some? ==> slots >= 1 && a.short.value.id == slots && slots - 1 in a.have)
  }

  /** Only the last chunk is shorter than the stride. */
  lemma {:induction false} ShortIsLast(data: seq<byte>, stride: nat, k: nat)
    requires stride > 0 && k < |Chunks(data, stride)|
    ensures |Chunks(data, stride)[k]| <= stride
    ensures |Chunks(data, stride)[k]| < stride ==> k + 1 == |Chunks(data, stride)|
  {
    hide Chunks;
    ChunkAt(data, stride, k);
    ChunkAt(data, stride, k + 1);
    assert (k + 1) * stride == k * stride + stride;
  }

  /** A data packet of the block fills its slot; none of the rules against misplaced packets applies. */
  lemma {:induction false} PayloadTaken(a: Assembly, data: seq<byte>, stride: nat, i: nat)
    requires stride > 0 && Agrees(a, data, stride)
    requires 1 <= i <= |Chunks(data, stride)| && Clean(a, |Chunks(data, stride)|)
    ensures var b := OnPayload(a, i, Chunks(data, stride)[i - 1], stride);
            && Agrees(b, data, stride) && Clean(b, |Chunks(data, stride)|)
            && b.have == a.have + {i - 1} && b.lastId == a.lastId
  {
    hide Chunks, Agrees, TakenBack;
    ShortIsLast(data, stride, i - 1);
    if i - 1 in a.have {
      assert a.have + {i - 1} == a.have;
    } else {
      var body := Chunks(data, stride)[i - 1];
      var b := Place(a, (i - 1) * stride, body, i - 1);
      PlaceAgrees(a, data, stride, i - 1);
      NotesAgree(b, OnPayload(a, i, body, stride), data, stride);
    }
  }

  /** Agreement is about the bytes and the slots alone. */
  lemma {:induction false} NotesAgree(a: Assembly, b: Assembly, data: seq<byte>, stride: nat)
    requires stride > 0 && Agrees(a, data, stride) && b.buffer == a.buffer && b.have == a.have
    ensures Agrees(b, data, stride)
  {
  }

  /** Receiving an original datagram keeps the buffer right and fills exactly its slot. */
  lemma {:induction false} ReceiveOriginal(a: Assembly, spec: BlockSpec, data: seq<byte>, i: nat)
    requires Sendable(spec, Slots(spec, data)) && i < |Datagrams(spec, data)|
    requires Agrees(a, data, spec.Stride()) && Clean(a, Slots(spec, data))
    ensures var b := Receive(a, Datagrams(spec, data)[i].bytes, spec.Stride());
            && Agrees(b, data, spec.Stride()) && Clean(b, Slots(spec, data))
            && b.have == a.have + SlotsOf(spec, data, i)
            && (a.lastId.Some? || i == Slots(spec, data) + 1 ==> b.lastId.Some?)
  {
    CapacityValues();
    hide ParseHeader, Datagrams, Agrees, PacketFormat, OnPayload, BlockSpec.Typed, Chunks, Capacity, TakenBack;
    var stride := spec.Stride();
    var d := Datagrams(spec, data)[i].bytes;
    if i == 0 {
      LeaderParses(spec, data);
      assert a.have + {} == a.have;
    } else if i <= Slots(spec, data) {
      DataPacketParses(spec, data, i);
      PayloadTaken(a, data, stride, i);
    } else {
      TrailerParses(spec, data);
      NotesAgree(a, Receive(a, d, stride), data, stride);
      assert a.have + {} == a.have;
    }
  }

  /** A packet, no trailer, whose header reports an error: the answer to a request that cannot be served is one. */
  predicate ReportsError(d: seq<byte>) {
    var h := ParseHeader(d);
    h.Some? && h.value.status >= 0x8000 && PacketFormat(d) != FORMAT_TRAILER
  }

  /** One of the block's own packets, byte for byte. */
  ghost predicate IsOriginal(p: seq<byte>, ds: seq<Datagram>) {
    exists i :: 0 <= i < |ds| && p == ds[i].bytes
  }

  /** Every packet received is one of the block's own or reports an error. */
  ghost predicate Originals(packets: seq<seq<byte>>, ds: seq<Datagram>) {
    forall k :: 0 <= k < |packets| ==> ReportsError(packets[k]) || IsOriginal(packets[k], ds)
  }

  lemma {:induction false} ErrorsAreIgnored(a: Assembly, d: seq<byte>, stride: nat)
    requires ReportsError(d)
    ensures Receive(a, d, stride) == a
  {
  }

  /** Whatever originals and error reports arrive, in whatever order and however often, the buffer is never wrong. */
  lemma {:induction false} ReceiveOriginals(
    a: Assembly, spec: BlockSpec, data: seq<byte>, packets: seq<seq<byte>>)
    requires Sendable(spec, Slots(spec, data)) && Originals(packets, Datagrams(spec, data))
    requires Agrees(a, data, spec.Stride()) && Clean(a, Slots(spec, data))
    ensures var b := ReceiveAll(a, packets, spec.Stride());
            && Agrees(b, data, spec.Stride()) && Clean(b, Slots(spec, data))
            && (a.lastId.Some? || Datagrams(spec, data)[Slots(spec, data) + 1].bytes in packets ==> b.lastId.Some?)
            && a.have <= b.have
            && (forall s :: s in b.have - a.have ==> s < Slots(spec, data))
            && (forall i :: 1 <= i <= Slots(spec, data) && Datagrams(spec, data)[i].bytes in packets ==>
                  i - 1 in b.have)
    decreases |packets|
  {
    hide Receive, Datagrams, Agrees, Sendable, Clean, ReportsError;
    if packets != [] {
      var ds := Datagrams(spec, data);
      var next := Receive(a, packets[0], spec.Stride());
      ReceiveOne(a, spec, data, packets[0]);
      assert packets == [packets[0]] + packets[1..];
      ReceiveOriginals(next, spec, data, packets[1..]);
      var b := ReceiveAll(a, packets, spec.Stride());
      forall s | s in b.have - a.have ensures s < Slots(spec, data) {
        assert s in b.have - next.have || s in next.have - a.have;
      }
      forall j | 1 <= j <= Slots(spec, data) && ds[j].bytes in packets
        ensures j - 1 in b.have
      {
        if ds[j].bytes == packets[0] {
          ReceiveOriginal(a, spec, data, j);
        }
      }
      if ds[Slots(spec, data) + 1].bytes == packets[0] {
        ReceiveOriginal(a, spec, data, Slots(spec, data) + 1);
      }
    }
  }

  lemma {:induction false} ReceiveOne(a: Assembly, spec: BlockSpec, data: seq<byte>, p: seq<byte>)
    requires Sendable(spec, Slots(spec, data)) && Clean(a, Slots(spec, data))
    requires Agrees(a, data, spec.Stride()) && (ReportsError(p) || IsOriginal(p, Datagrams(spec, data)))
    ensures var b := Receive(a, p, spec.Stride());
            && Agrees(b, data, spec.Stride()) && Clean(b, Slots(spec, data)) && a.have <= b.have
            && (a.lastId.Some? ==> b.lastId.Some?)
            && (forall s :: s in b.have - a.have ==> s < Slots(spec, data))
  {
    hide Receive, Datagrams, Agrees, Sendable, Clean, ReportsError;
    var ds := Datagrams(spec, data);
    if ReportsError(p) {
      ErrorsAreIgnored(a, p, spec.Stride());
    } else {
      var i :| 0 <= i < |ds| && p == ds[i].bytes;
      ReceiveOriginal(a, spec, data, i);
    }
  }

  lemma {:induction false} SlotArrived(a: Assembly, data: seq<byte>, stride: nat, x: nat)
    requires stride > 0 && x < |data|
    requires forall s :: 0 <= s < |Chunks(data, stride)| ==> s in a.have
    ensures x / stride in a.have
  {
    hide Chunks;
    var slot: nat := x / stride;
    SlotOf(x, stride, slot);
    ChunkAt(data, stride, slot);
  }

  /** A frame with every slot filled is the payload. */
  lemma {:induction false} CompleteIsPayload(a: Assembly, data: seq<byte>, stride: nat)
    requires stride > 0 && Agrees(a, data, stride)
    requires forall s :: 0 <= s < |Chunks(data, stride)| ==> s in a.have
    ensures a.buffer == data
  {
    hide Chunks;
    forall x | 0 <= x < |data| ensures x < |a.buffer| && a.buffer[x] == data[x] {
      SlotArrived(a, data, stride, x);
    }
    if data != [] {
      SlotArrived(a, data, stride, |data| - 1);
    }
  }

  // ---------------------------------------------------------------- recovery

  function BytesOf(ds: seq<Datagram>): (r: seq<seq<byte>>)
    ensures |r| == |ds| && forall i :: 0 <= i < |r| ==> r[i] == ds[i].bytes
  {
    seq(|ds|, i requires 0 <= i < |ds| => ds[i].bytes)
  }

  function Answers(blocks: seq<Held>, requests: seq<ResendRequest>): seq<seq<byte>> {
    if requests == [] then []
    else Available(blocks, requests[0], requests[0].first) + Answers(blocks, requests[1..])
  }

  /** The requests ask for every data packet that did not survive. */
  ghost predicate Covers(requests: seq<ResendRequest>, survivors: seq<Datagram>, ds: seq<Datagram>) {
    forall i :: 0 < i < |ds| - 1 && ds[i] !in survivors ==>
      exists k :: 0 <= k < |requests| && requests[k].first <= i <= requests[k].last
  }

  /** A cache that holds a block's packets hands out only those, and every one asked for. */
  lemma {:induction false} AvailableOriginals(
    blocks: seq<Held>, r: ResendRequest, first: nat, packets: seq<seq<byte>>)
    requires Find(blocks, r.blockId) == Some(packets)
    ensures forall k :: 0 <= k < |Available(blocks, r, first)| ==> Available(blocks, r, first)[k] in packets
    ensures forall id :: first <= id <= r.last && id < |packets| && packets[id] != [] ==>
              packets[id] in Available(blocks, r, first)
    decreases r.last + 1 - first
  {
    if first <= r.last {
      AvailableOriginals(blocks, r, first + 1, packets);
    }
  }

  lemma {:induction false} AnswersOriginals(
    blocks: seq<Held>, requests: seq<ResendRequest>, blockId: nat, packets: seq<seq<byte>>)
    requires Find(blocks, blockId) == Some(packets)
    requires forall k :: 0 <= k < |requests| ==> requests[k].blockId == blockId
    ensures forall k :: 0 <= k < |Answers(blocks, requests)| ==> Answers(blocks, requests)[k] in packets
    ensures forall k, id :: 0 <= k < |requests| && requests[k].first <= id <= requests[k].last
                            && id < |packets| && packets[id] != [] ==>
              packets[id] in Answers(blocks, requests)
    decreases |requests|
  {
    if requests != [] {
      var r := requests[0];
      AvailableOriginals(blocks, r, r.first, packets);
      AnswersOriginals(blocks, requests[1..], blockId, packets);
      var here, rest := Available(blocks, r, r.first), Answers(blocks, requests[1..]);
      var all := here + rest;
      assert forall x :: x in all <==> x in here || x in rest;
      forall k, id | 0 <= k < |requests| && requests[k].first <= id <= requests[k].last
                     && id < |packets| && packets[id] != []
        ensures packets[id] in all
      {
        if k > 0 {
          assert requests[k] == requests[1..][k - 1];
        }
      }
    }
  }

  /**
   The frame holds the payload and every slot; and once the trailer is among
   what arrived, the slots it names are exactly those, so the frame is complete.
   */
  ghost predicate Recovered(a: Assembly, spec: BlockSpec, data: seq<byte>, received: seq<seq<byte>>) {
    && a.buffer == data && a.have == AllSlots(Slots(spec, data)) && !a.closed
    && (Datagrams(spec, data)[Slots(spec, data) + 1].bytes in received ==> a.lastId == Some(Slots(spec, data)))
  }

  /**
   Recovery: for every payload, packet size that leaves room for data and
   damage script, the datagrams that survive the script and the cache's
   answers to any requests that cover the missing data packets - received in
   any order, with any repetition, and with any packets that report an error
   among them - rebuild the payload exactly, as long as the cache still holds
   the block.
   */
  lemma {:induction false} DamageIsRecovered(
    spec: BlockSpec, data: seq<byte>, steps: seq<ScriptStep>,
    blocks: seq<Held>, held: Held, requests: seq<ResendRequest>, received: seq<seq<byte>>)
    requires Sendable(spec, Slots(spec, data))
    requires DistinctIds(blocks) && held in blocks && held.blockId == spec.blockId
    requires Indexed(Datagrams(spec, data), held.packets)
    requires forall k :: 0 <= k < |requests| ==> requests[k].blockId == spec.blockId
    requires Covers(requests, Applied(steps, Datagrams(spec, data)), Datagrams(spec, data))
    requires var survivors := BytesOf(Applied(steps, Datagrams(spec, data)));
             forall p :: (p in survivors || p in Answers(blocks, requests) ==> p in received)
                         && (p in received ==>
                               p in survivors || p in Answers(blocks, requests) || ReportsError(p))
    ensures Recovered(ReceiveAll(EMPTY, received, spec.Stride()), spec, data, received)
  {
    hide Receive, Sendable, Applied, Datagrams, Chunks, Answers, Agrees, ReportsError;
    var ds := Datagrams(spec, data);
    DatagramIds(spec, data);
    IndexedBlock(ds, held.packets);
    FindHeld(blocks, held);
    ReceivedAreOriginals(spec, data, steps, blocks, held, requests, received);
    SendableStride(spec, Slots(spec, data));
    NothingAgrees(data, spec.Stride());
    ReceiveOriginals(EMPTY, spec, data, received);
    var b := ReceiveAll(EMPTY, received, spec.Stride());
    forall s | 0 <= s < Slots(spec, data) ensures s in b.have {
      EveryDataPacketReceived(spec, data, steps, blocks, held, requests, received, s + 1);
    }
    CompleteIsPayload(b, data, spec.Stride());
    forall s: nat ensures s in b.have <==> s in AllSlots(Slots(spec, data)) {
      assert s in b.have ==> s in b.have - EMPTY.have;
    }
  }

  lemma {:induction false} SendableStride(spec: BlockSpec, slots: nat)
    requires Sendable(spec, slots)
    ensures spec.Stride() >= 1
  {
  }

  lemma {:induction false} NothingAgrees(data: seq<byte>, stride: nat)
    requires stride > 0
    ensures Agrees(EMPTY, data, stride)
  {
  }

  lemma {:induction false} ReceivedAreOriginals(
    spec: BlockSpec, data: seq<byte>, steps: seq<ScriptStep>,
    blocks: seq<Held>, held: Held, requests: seq<ResendRequest>, received: seq<seq<byte>>)
    requires Find(blocks, spec.blockId) == Some(held.packets)
    requires BytesOf(Datagrams(spec, data)) == held.packets
    requires forall k :: 0 <= k < |requests| ==> requests[k].blockId == spec.blockId
    requires forall p :: p in received ==>
               || p in BytesOf(Applied(steps, Datagrams(spec, data))) || p in Answers(blocks, requests)
               || ReportsError(p)
    ensures Originals(received, Datagrams(spec, data))
  {
    hide Applied, Datagrams, Answers, ReportsError;
    var ds := Datagrams(spec, data);
    var survivors := Applied(steps, ds);
    AnswersOriginals(blocks, requests, spec.blockId, held.packets);
    SurvivorsAreOriginals(spec, data, steps);
    forall k | 0 <= k < |received| && !ReportsError(received[k])
      ensures IsOriginal(received[k], ds)
    {
      var p := received[k];
      if p in BytesOf(survivors) {
        var j :| 0 <= j < |survivors| && BytesOf(survivors)[j] == p;
        assert survivors[j] in ds;
      } else {
        assert p in held.packets;
      }
    }
  }

  lemma {:induction false} EveryDataPacketReceived(
    spec: BlockSpec, data: seq<byte>, steps: seq<ScriptStep>,
    blocks: seq<Held>, held: Held, requests: seq<ResendRequest>, received: seq<seq<byte>>, i: nat)
    requires Find(blocks, spec.blockId) == Some(held.packets)
    requires BytesOf(Datagrams(spec, data)) == held.packets
    requires forall k :: 0 <= k < |held.packets| ==> held.packets[k] != []
    requires forall k :: 0 <= k < |requests| ==> requests[k].blockId == spec.blockId
    requires Covers(requests, Applied(steps, Datagrams(spec, data)), Datagrams(spec, data))
    requires forall p :: p in BytesOf(Applied(steps, Datagrams(spec, data))) || p in Answers(blocks, requests) ==>
               p in received
    requires 1 <= i <= Slots(spec, data)
    ensures Datagrams(spec, data)[i].bytes in received
  {
    hide Applied, Datagrams, Answers;
    var ds := Datagrams(spec, data);
    var survivors := Applied(steps, ds);
    if ds[i] in survivors {
      var j :| 0 <= j < |survivors| && survivors[j] == ds[i];
      assert BytesOf(survivors)[j] in BytesOf(survivors);
    } else {
      var k :| 0 <= k < |requests| && requests[k].first <= i <= requests[k].last;
      AnswersOriginals(blocks, requests, spec.blockId, held.packets);
      assert held.packets[i] in Answers(blocks, requests);
    }
  }

  lemma {:induction false} SurvivorsAreOriginals(spec: BlockSpec, data: seq<byte>, steps: seq<ScriptStep>)
    ensures var ds := Datagrams(spec, data);
            var out := Applied(steps, ds);
            forall j :: 0 <= j < |out| ==> out[j] in ds
  {
    hide Applied, Datagrams;
    var ds := Datagrams(spec, data);
    var out := Applied(steps, ds);
    DatagramsAreBlock(spec, data);
    forall j | 0 <= j < |out| ensures out[j] in ds {
      ScriptOutput(steps, ds, out[j]);
      TimesIn(out, out[j]);
    }
  }

  // ---------------------------------------------------------------- the whole cycle

  /**
   The sender's whole cycle: a block is retained as built and then damaged, and
   fewer than `capacity` other blocks follow; whatever the script did, the
   survivors and the answers to requests for what is missing rebuild the payload.
   */
  lemma {:induction false} RetainedBlockIsRecovered(
    spec: BlockSpec, data: seq<byte>, steps: seq<ScriptStep>,
    capacity: nat, before: seq<Held>, e: Held, after: seq<Held>,
    requests: seq<ResendRequest>, received: seq<seq<byte>>)
    requires Sendable(spec, Slots(spec, data))
    requires e.blockId == spec.blockId && Indexed(Datagrams(spec, data), e.packets)
    requires |IdsOf(after)| < capacity
    requires forall i :: 0 <= i < |after| ==> after[i].blockId != spec.blockId
    requires forall k :: 0 <= k < |requests| ==> requests[k].blockId == spec.blockId
    requires Covers(requests, Applied(steps, Datagrams(spec, data)), Datagrams(spec, data))
    requires var survivors := BytesOf(Applied(steps, Datagrams(spec, data)));
             var blocks := RetainedAll(capacity, before + ([e] + after));
             forall p :: (p in survivors || p in Answers(blocks, requests) ==> p in received)
                         && (p in received ==>
                               p in survivors || p in Answers(blocks, requests) || ReportsError(p))
    ensures Recovered(ReceiveAll(EMPTY, received, spec.Stride()), spec, data, received)
  {
    hide *;
    HeldExactly(capacity, before, e, after);
    DamageIsRecovered(
      spec, data, steps, RetainedAll(capacity, before + ([e] + after)), e, requests, received);
  }

  /** The cache's answers for packets it does not hold all report an error, so they may arrive too. */
  lemma {:induction false} UnavailableReportsError(blocks: seq<Held>, r: ResendRequest, first: nat)
    ensures forall k :: 0 <= k < |Unavailable(blocks, r, first)| ==> ReportsError(Unavailable(blocks, r, first)[k])
    decreases r.last + 1 - first
  {
    hide Lookup, HeaderOnly, ReportsError;
    if first <= r.last {
      UnavailableReportsError(blocks, r, first + 1);
      HeaderReportsError(r.blockId, r.extendedIds, first);
    }
  }

  lemma {:induction false} HeaderReportsError(blockId: nat, extendedIds: bool, packetId: nat)
    ensures ReportsError(HeaderOnly(blockId, extendedIds, packetId, STATUS_PACKET_UNAVAILABLE))
  {
    CapacityValues();
    hide BigEndian, FromBigEndian, Capacity;
    var d := HeaderOnly(blockId, extendedIds, packetId, STATUS_PACKET_UNAVAILABLE);
    assert d[0..2] == BigEndian(STATUS_PACKET_UNAVAILABLE, 2);
    BigEndianRoundTrip(STATUS_PACKET_UNAVAILABLE, 2);
    assert d[4] >= 128 <==> extendedIds;
  }

  // ---------------------------------------------------------------- where it stops

  /**
   With standard ids the wire carries 24 bits of the packet id, so a block of
   2^24 or more data packets cannot be put together whatever arrives: the slot
   of packet 2^24 is never filled.
   */
  lemma {:induction false} TooManyPackets(
    a: Assembly, spec: BlockSpec, data: seq<byte>, packets: seq<seq<byte>>)
    requires !spec.extendedIds && Capacity(3) - 1 !in a.have
    requires Originals(packets, Datagrams(spec, data))
    ensures Capacity(3) - 1 !in ReceiveAll(a, packets, spec.Stride()).have
    ensures Slots(spec, data) >= Capacity(3) ==>
              ReceiveAll(a, packets, spec.Stride()).have != AllSlots(Slots(spec, data))
    decreases |packets|
  {
    if packets != [] {
      StandardIdBound(a, spec, data, packets[0]);
      assert forall k :: 0 <= k < |packets[1..]| ==> packets[1..][k] == packets[k + 1];
      TooManyPackets(Receive(a, packets[0], spec.Stride()), spec, data, packets[1..]);
    } else {
      assert Slots(spec, data) >= Capacity(3) ==>
             Capacity(3) - 1 in AllSlots(Slots(spec, data));
    }
  }

  lemma {:induction false} TakenBackLoses(a: Assembly, s: Short, stride: nat)
    ensures TakenBack(a, s, stride).have <= a.have
  {
  }

  /** A data packet fills no slot but its own. */
  lemma {:induction false} PayloadFills(a: Assembly, id: nat, body: seq<byte>, stride: nat)
    ensures OnPayload(a, id, body, stride).have <= a.have + (if id == 0 then {} else {id - 1})
  {
    hide TakenBack;
    if id > 0 && stride > 0 {
      var b := Place(a, (id - 1) * stride, body, id - 1).(highest := Max(a.highest, id));
      var s := Short(id, |body|);
      TakenBackLoses(b, s, stride);
      if b.short.Some? {
        TakenBackLoses(b.(short := Some(s)), b.short.value, stride);
        TakenBackLoses(b.(short := None), b.short.value, stride);
      }
      var c := NoteShort(b, s, stride);
      if c.short.Some? {
        TakenBackLoses(c.(short := None), c.short.value, stride);
      }
    }
  }

  lemma {:induction false} TrailerFills(a: Assembly, id: nat, status: nat, stride: nat)
    ensures OnTrailer(a, id, status, stride).have <= a.have
  {
    hide TakenBack;
    if a.short.Some? {
      TakenBackLoses(a.(lastId := Some(if id == 0 then 0 else id - 1), short := None), a.short.value, stride);
    }
  }

  lemma {:induction false} StandardIdBound(a: Assembly, spec: BlockSpec, data: seq<byte>, d: seq<byte>)
    requires !spec.extendedIds && Capacity(3) - 1 !in a.have
    requires ReportsError(d) || IsOriginal(d, Datagrams(spec, data))
    ensures Capacity(3) - 1 !in Receive(a, d, spec.Stride()).have
  {
    hide Datagrams, OnPayload, OnTrailer, Capacity, FromBigEndian;
    if ReportsError(d) {
      ErrorsAreIgnored(a, d, spec.Stride());
    } else {
      StandardFormatByte(spec, data, d);
      FromBigEndianBounds(d[5..8]);
      var h := ParseHeader(d).value;
      PayloadFills(a, h.packetId, d[h.headerLen..], spec.Stride());
      TrailerFills(a, h.packetId, h.status, spec.Stride());
    }
  }

  /**
   One packet fewer and the data fits, but the trailer's own id wraps to 0: once
   it has arrived the receiver takes every data packet for one past the end.
   */
  lemma {:induction false} TrailerIdWraps(a: Assembly, spec: BlockSpec, data: seq<byte>, d: seq<byte>)
    requires spec.Typed() && !spec.extendedIds && Slots(spec, data) + 1 == Capacity(3)
    requires a.lastId.None? && !a.closed
    ensures var b := Receive(a, Datagrams(spec, data)[Slots(spec, data) + 1].bytes, spec.Stride());
            b.lastId == Some(0) && Receive(b, d, spec.Stride()).have <= b.have
  {
    CapacityValues();
    hide ParseHeader, Datagrams, PacketFormat, Capacity, Chunks, TakenBack, BlockSpec.Typed, OnPayload;
    TrailerParses(spec, data);
    var n := Slots(spec, data) + 1;
    DivModIs(n, Capacity(3), 1, 0);
    NothingFits(Receive(a, Datagrams(spec, data)[n].bytes, spec.Stride()), d, spec.Stride());
  }

  lemma {:induction false} NothingFits(a: Assembly, d: seq<byte>, stride: nat)
    requires a.lastId == Some(0)
    ensures Receive(a, d, stride).have <= a.have
  {
    hide ParseHeader, PacketFormat, Place, NoteShort, SettleShort;
  }

  /** A trailer that reports an error closes the frame to everything after it. */
  lemma {:induction false} ErrorTrailerCloses(a: Assembly, spec: BlockSpec, data: seq<byte>, d: seq<byte>)
    requires spec.Typed() && Slots(spec, data) + 1 < Capacity(4) && spec.trailerStatus >= 0x8000
    requires a.lastId.None? && !a.closed
    ensures var b := Receive(a, Datagrams(spec, data)[Slots(spec, data) + 1].bytes, spec.Stride());
            b.have == a.have && Receive(b, d, spec.Stride()) == b
  {
    TrailerParses(spec, data);
    hide ParseHeader, Datagrams, PacketFormat, Capacity, Chunks, TakenBack, BlockSpec.Typed;
  }

  lemma {:induction false} StandardFormatByte(spec: BlockSpec, data: seq<byte>, d: seq<byte>)
    requires !spec.extendedIds
    requires IsOriginal(d, Datagrams(spec, data))
    ensures |d| >= 8 && d[4] < 128
  {
    var ds := Datagrams(spec, data);
    var i :| 0 <= i < |ds| && d == ds[i].bytes;
    if 0 < i < |ds| - 1 {
      PayloadAt(spec, data, i);
    }
  }
}
