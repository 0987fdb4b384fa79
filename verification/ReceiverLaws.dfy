/**
 What the receiver makes of any packets at all, the block's own or not: which
 it takes, which it takes back, and what the frame's bytes then are.
 */
module ReceiverLaws {
  import opened Arithmetic
  import opened Bytes
  import opened Gvsp
  import opened Recovery

  // ---------------------------------------------------------------- the frame's bytes

  /** The packet bodies a frame is made of, by slot. */
  type Bodies = map<nat, seq<byte>>

  /** The byte a frame of these bodies has at `x`: zero where no body reaches. */
  function ByteHeld(held: Bodies, stride: nat, x: nat): byte
    requires stride > 0
  {
    if x / stride in held && x % stride < |held[x / stride]| then held[x / stride][x % stride] else 0
  }

  /** The buffer is the bodies, each at its slot, and zeros. */
  ghost predicate Buffered(buffer: seq<byte>, held: Bodies, stride: nat)
    requires stride > 0
  {
    && (forall s :: s in held ==> s * stride + |held[s]| <= |buffer|)
    && (forall x :: 0 <= x < |buffer| ==> buffer[x] == ByteHeld(held, stride, x))
  }

  /**
   Every body fits its slot; the only one that does not fill it is the pending
   short one, of the highest id so far and no lower than the trailer's.
   */
  ghost predicate Sound(a: Assembly, held: Bodies, stride: nat)
    requires stride > 0
  {
    && a.have == held.Keys && Buffered(a.buffer, held, stride)
    && (forall s :: s in held ==> |held[s]| <= stride && s + 1 <= a.highest)
    && (forall s :: s in held && |held[s]| < stride ==> a.short == Some(Short(s + 1, |held[s]|)))
    && (a.short.Some? ==>
          var id := a.short.value.id;
          && id >= 1 && id - 1 in held && |held[id - 1]| == a.short.value.len < stride && id == a.highest
          && (a.lastId.Some? && !a.closed ==> a.lastId.value <= id))
  }

  lemma {:induction false} SlotStart(slot: nat, i: nat, stride: nat)
    requires i < stride
    ensures (slot * stride + i) / stride == slot && (slot * stride + i) % stride == i
  {
    DivModIs(slot * stride + i, stride, slot, i);
  }

  lemma {:induction false} SlotSplit(x: nat, stride: nat)
    requires stride > 0
    ensures x == x / stride * stride + x % stride && x % stride < stride
  {
  }

  lemma {:induction false} PlaceBuffered(a: Assembly, held: Bodies, slot: nat, body: seq<byte>, stride: nat)
    requires stride > 0 && Buffered(a.buffer, held, stride) && slot !in held && |body| <= stride
    ensures Buffered(Place(a, slot * stride, body, slot).buffer, held[slot := body], stride)
  {
    var offset := slot * stride;
    var b := Place(a, offset, body, slot).buffer;
    forall x | 0 <= x < |b| ensures b[x] == ByteHeld(held[slot := body], stride, x) {
      SlotSplit(x, stride);
      if offset <= x < offset + |body| {
        SlotStart(slot, x - offset, stride);
      } else if x < |a.buffer| {
        assert b[x] == a.buffer[x];
      } else {
        BeyondBuffer(a.buffer, held, x, stride);
      }
    }
  }

  /** No body reaches past the buffer. */
  lemma {:induction false} BeyondBuffer(buffer: seq<byte>, held: Bodies, x: nat, stride: nat)
    requires stride > 0 && Buffered(buffer, held, stride) && x >= |buffer|
    ensures ByteHeld(held, stride, x) == 0
  {
    SlotSplit(x, stride);
  }

  lemma {:induction false} TakenBackBuffered(a: Assembly, held: Bodies, s: Short, stride: nat)
    requires stride > 0 && Buffered(a.buffer, held, stride) && a.have == held.Keys
    requires s.id >= 1 && s.id - 1 in held && |held[s.id - 1]| == s.len <= stride
    ensures var b := TakenBack(a, s, stride);
            && Buffered(b.buffer, held - {s.id - 1}, stride) && b.have == (held - {s.id - 1}).Keys
            && b == a.(buffer := b.buffer, have := b.have)
  {
    var slot := s.id - 1;
    var offset := slot * stride;
    var b := TakenBack(a, s, stride).buffer;
    forall x | 0 <= x < |b| ensures b[x] == ByteHeld(held - {slot}, stride, x) {
      SlotSplit(x, stride);
      if offset <= x < offset + s.len {
        SlotStart(slot, x - offset, stride);
      } else {
        assert b[x] == a.buffer[x];
      }
    }
  }

  // ---------------------------------------------------------------- data packets

  /** A packet of id 0, past the trailer's, of a slot already filled, or longer than the stride. */
  predicate Stray(a: Assembly, id: nat, body: seq<byte>, stride: nat) {
    id == 0 || id - 1 in a.have || |body| > stride || (a.lastId.Some? && id > a.lastId.value)
  }

  /** The frame's bodies after a data packet: a short one goes as soon as a higher id shows it is not the last. */
  function Landed(a: Assembly, held: Bodies, id: nat, body: seq<byte>, stride: nat): Bodies {
    if Stray(a, id, body, stride) then held
    else
      var others := if a.short.Some? && a.short.value.id < id then held - {a.short.value.id - 1} else held;
      if |body| == stride || (a.highest <= id && (a.lastId.Some? ==> a.lastId.value <= id))
      then others[id - 1 := body] else others
  }

  /**
   A data packet is taken unless it is a stray, and stays unless it is shorter
   than the stride and a higher id was seen; a short one before it goes.
   */
  lemma {:induction false} DataLands(a: Assembly, held: Bodies, id: nat, body: seq<byte>, stride: nat)
    requires stride > 0 && Sound(a, held, stride) && !a.closed
    ensures var b := OnPayload(a, id, body, stride);
            && Sound(b, Landed(a, held, id, body, stride), stride) && !b.closed
            && (Stray(a, id, body, stride) ==> b == a)
  {
    hide Sound, OnPayload, Landed;
    if Stray(a, id, body, stride) {
      StrayStays(a, held, id, body, stride);
    } else if |body| == stride {
      FullLands(a, held, id, body, stride);
    } else if a.short.Some? && a.short.value.id < id {
      HigherShortLands(a, held, id, body, stride);
    } else if a.short.Some? {
      LowerShortLands(a, held, id, body, stride);
    } else {
      FirstShortLands(a, held, id, body, stride);
    }
  }

  lemma {:induction false} StrayStays(a: Assembly, held: Bodies, id: nat, body: seq<byte>, stride: nat)
    requires Stray(a, id, body, stride)
    ensures OnPayload(a, id, body, stride) == a && Landed(a, held, id, body, stride) == held
  {
    hide Place, NoteShort, SettleShort;
  }

  /** The frame with a packet written at its place, before any short packet is judged. */
  function Written(a: Assembly, id: nat, body: seq<byte>, stride: nat): Assembly
    requires id > 0
  {
    Place(a, (id - 1) * stride, body, id - 1).(highest := Max(a.highest, id))
  }

  lemma {:induction false} WrittenKeeps(a: Assembly, held: Bodies, id: nat, body: seq<byte>, stride: nat)
    requires stride > 0 && Sound(a, held, stride) && !Stray(a, id, body, stride)
    ensures var b := Written(a, id, body, stride);
            && Buffered(b.buffer, held[id - 1 := body], stride) && b.have == held[id - 1 := body].Keys
            && b == a.(buffer := b.buffer, have := b.have, highest := Max(a.highest, id))
    ensures held[id - 1 := body] - {id - 1} == held
  {
    PlaceBuffered(a, held, id - 1, body, stride);
    hide Buffered;
  }

  lemma {:induction false} FullLands(a: Assembly, held: Bodies, id: nat, body: seq<byte>, stride: nat)
    requires stride > 0 && Sound(a, held, stride) && !a.closed && !Stray(a, id, body, stride) && |body| == stride
    ensures var b := OnPayload(a, id, body, stride);
            Sound(b, Landed(a, held, id, body, stride), stride) && !b.closed
  {
    var b := Written(a, id, body, stride);
    var full := held[id - 1 := body];
    WrittenKeeps(a, held, id, body, stride);
    hide Buffered, TakenBack, Place;
    if b.short.Some? {
      TakenBackBuffered(b.(short := None), full, b.short.value, stride);
      assert full - {b.short.value.id - 1} == (held - {b.short.value.id - 1})[id - 1 := body];
    }
  }

  lemma {:induction false} FirstShortLands(a: Assembly, held: Bodies, id: nat, body: seq<byte>, stride: nat)
    requires stride > 0 && Sound(a, held, stride) && !a.closed && !Stray(a, id, body, stride)
    requires |body| < stride && a.short.None?
    ensures var b := OnPayload(a, id, body, stride);
            Sound(b, Landed(a, held, id, body, stride), stride) && !b.closed
  {
    var b := Written(a, id, body, stride);
    WrittenKeeps(a, held, id, body, stride);
    hide Buffered, TakenBack, Place;
    TakenBackBuffered(b, held[id - 1 := body], Short(id, |body|), stride);
  }

  /** A short packet beyond the pending one takes its place. */
  lemma {:induction false} HigherShortNoted(a: Assembly, id: nat, body: seq<byte>, stride: nat)
    requires stride > 0 && !Stray(a, id, body, stride) && |body| < stride
    requires a.short.Some? && a.short.value.id < id && a.highest <= id
    requires a.lastId.Some? ==> a.lastId.value <= id
    ensures OnPayload(a, id, body, stride)
            == TakenBack(Written(a, id, body, stride).(short := Some(Short(id, |body|))), a.short.value, stride)
  {
  }

  /** With the pending packet out and a shorter one beyond it in, that one is the pending packet. */
  lemma {:induction false} PendingReplaced(
    a: Assembly, b: Assembly, held: Bodies, id: nat, body: seq<byte>, stride: nat)
    requires stride > 0 && Sound(a, held, stride) && |body| < stride
    requires a.short.Some? && a.short.value.id < id && (a.lastId.Some? && !a.closed ==> a.lastId.value <= id)
    requires var next := (held - {a.short.value.id - 1})[id - 1 := body];
             && b == a.(buffer := b.buffer, have := next.Keys, highest := id, short := Some(Short(id, |body|)))
             && Buffered(b.buffer, next, stride)
    ensures Sound(b, (held - {a.short.value.id - 1})[id - 1 := body], stride)
  {
    hide Buffered;
  }

  lemma {:induction false} HigherShortLands(a: Assembly, held: Bodies, id: nat, body: seq<byte>, stride: nat)
    requires stride > 0 && Sound(a, held, stride) && !a.closed && !Stray(a, id, body, stride)
    requires |body| < stride && a.short.Some? && a.short.value.id < id
    ensures var b := OnPayload(a, id, body, stride);
            Sound(b, Landed(a, held, id, body, stride), stride) && !b.closed
  {
    var full := held[id - 1 := body];
    var others := held - {a.short.value.id - 1};
    var b := Written(a, id, body, stride).(short := Some(Short(id, |body|)));
    var c := TakenBack(b, a.short.value, stride);
    WrittenKeeps(a, held, id, body, stride);
    HigherShortNoted(a, id, body, stride);
    assert Landed(a, held, id, body, stride) == others[id - 1 := body];
    hide Buffered, TakenBack, Written, OnPayload, Landed, Stray;
    TakenBackBuffered(b, full, a.short.value, stride);
    assert full - {a.short.value.id - 1} == others[id - 1 := body];
    hide Sound;
    PendingReplaced(a, c, held, id, body, stride);
  }

  lemma {:induction false} LowerShortLands(a: Assembly, held: Bodies, id: nat, body: seq<byte>, stride: nat)
    requires stride > 0 && Sound(a, held, stride) && !a.closed && !Stray(a, id, body, stride)
    requires |body| < stride && a.short.Some? && a.short.value.id >= id
    ensures var b := OnPayload(a, id, body, stride);
            Sound(b, Landed(a, held, id, body, stride), stride) && !b.closed
  {
    var b := Written(a, id, body, stride);
    var s := Short(id, |body|);
    var full := held[id - 1 := body];
    WrittenKeeps(a, held, id, body, stride);
    hide Buffered, TakenBack, Place;
    TakenBackBuffered(b, full, s, stride);
  }

  // ---------------------------------------------------------------- the trailer

  /** The first trailer names the last id and, unless it reports an error, sends a short packet below it away. */
  lemma {:induction false} TrailerLands(a: Assembly, held: Bodies, id: nat, status: nat, stride: nat)
    requires stride > 0 && Sound(a, held, stride) && !a.closed
    ensures var b := OnTrailer(a, id, status, stride);
            var last := if id == 0 then 0 else id - 1;
            && (a.lastId.Some? ==> b == a)
            && (a.lastId.None? ==>
                  b.lastId == Some(last) && (b.closed <==> status >= 0x8000)
                  && Sound(b, if status < 0x8000 && a.short.Some? && a.short.value.id < last
                              then held - {a.short.value.id - 1} else held, stride))
  {
    var last := if id == 0 then 0 else id - 1;
    if a.lastId.None? && status < 0x8000 && a.short.Some? && a.short.value.id < last {
      TakenBackBuffered(a.(lastId := Some(last), short := None), held, a.short.value, stride);
    }
  }

  // ---------------------------------------------------------------- any packets

  /** A data packet, format 3, without an error. */
  predicate IsData(d: seq<byte>) {
    ParseHeader(d).Some? && d[4] % 16 == 3 && ParseHeader(d).value.status < 0x8000
  }

  function BodyOf(d: seq<byte>): seq<byte>
    requires IsData(d)
  {
    d[ParseHeader(d).value.headerLen..]
  }

  /** A trailer, format 2, whatever its status. */
  predicate IsTrailer(d: seq<byte>) {
    ParseHeader(d).Some? && d[4] % 16 == 2
  }

  /** A frame takes data packets and trailers, and nothing once an error trailer closed it. */
  lemma {:induction false} ReceiveTakes(a: Assembly, d: seq<byte>, stride: nat)
    ensures !a.closed && IsData(d) ==>
              Receive(a, d, stride) == OnPayload(a, ParseHeader(d).value.packetId, BodyOf(d), stride)
    ensures !a.closed && IsTrailer(d) ==>
              var h := ParseHeader(d).value;
              Receive(a, d, stride) == OnTrailer(a, h.packetId, h.status, stride)
    ensures a.closed || (!IsData(d) && !IsTrailer(d)) ==> Receive(a, d, stride) == a
  {
    hide OnPayload, OnTrailer;
  }

  /** One of the packets is a data packet of this id and body. */
  ghost predicate Brought(packets: seq<seq<byte>>, id: nat, body: seq<byte>) {
    exists k :: 0 <= k < |packets| && IsData(packets[k])
                && ParseHeader(packets[k]).value.packetId == id
                && BodyOf(packets[k]) == body
  }

  lemma {:induction false} ReceiveLands(a: Assembly, held: Bodies, d: seq<byte>, stride: nat) returns (next: Bodies)
    requires stride > 0 && Sound(a, held, stride)
    ensures Sound(Receive(a, d, stride), next, stride)
    ensures forall s :: s in next ==> (s in held && next[s] == held[s]) || Brought([d], s + 1, next[s])
  {
    hide Sound, ParseHeader, OnPayload, OnTrailer, Receive, Stray;
    ReceiveTakes(a, d, stride);
    next := held;
    if !a.closed && IsData(d) {
      var h := ParseHeader(d).value;
      var body := BodyOf(d);
      DataLands(a, held, h.packetId, body, stride);
      next := Landed(a, held, h.packetId, body, stride);
      assert [d][0] == d && Brought([d], h.packetId, body);
    } else if !a.closed && IsTrailer(d) {
      var h := ParseHeader(d).value;
      TrailerLands(a, held, h.packetId, h.status, stride);
      if a.lastId.None? && h.status < 0x8000 && a.short.Some?
         && a.short.value.id < (if h.packetId == 0 then 0 else h.packetId - 1) {
        next := held - {a.short.value.id - 1};
      }
    }
  }

  lemma {:induction false} RunLands(a: Assembly, held: Bodies, packets: seq<seq<byte>>, stride: nat)
    returns (next: Bodies)
    requires stride > 0 && Sound(a, held, stride)
    ensures Sound(ReceiveAll(a, packets, stride), next, stride)
    ensures forall s :: s in next ==> (s in held && next[s] == held[s]) || Brought(packets, s + 1, next[s])
    decreases |packets|
  {
    hide Sound, ParseHeader, Receive;
    next := held;
    if packets != [] {
      var mid := ReceiveLands(a, held, packets[0], stride);
      next := RunLands(Receive(a, packets[0], stride), mid, packets[1..], stride);
      forall s | s in next ensures (s in held && next[s] == held[s]) || Brought(packets, s + 1, next[s]) {
        BroughtByAll(packets, s + 1, next[s]);
      }
    }
  }

  lemma {:induction false} BroughtByAll(packets: seq<seq<byte>>, id: nat, body: seq<byte>)
    requires packets != []
    ensures Brought([packets[0]], id, body) || Brought(packets[1..], id, body) ==> Brought(packets, id, body)
  {
    hide ParseHeader;
    if Brought([packets[0]], id, body) {
      assert IsData(packets[0]);
    } else if Brought(packets[1..], id, body) {
      var k :| 0 <= k < |packets[1..]| && IsData(packets[1..][k])
               && ParseHeader(packets[1..][k]).value.packetId == id
               && BodyOf(packets[1..][k]) == body;
      assert packets[k + 1] == packets[1..][k];
    }
  }

  /**
   Whatever packets arrive, in any order, of this block or not: the frame is the
   bodies of data packets that did arrive, each at its slot, and zeros; every
   body but one fills its slot, and that one, if there is one, is of the
   highest id so far and no lower than the trailer's.
   */
  lemma {:induction false} FrameIsItsPackets(packets: seq<seq<byte>>, stride: nat) returns (held: Bodies)
    requires stride > 0
    ensures Sound(ReceiveAll(EMPTY, packets, stride), held, stride)
    ensures forall s :: s in held ==> Brought(packets, s + 1, held[s])
  {
    hide *;
    NothingHeld(stride);
    held := RunLands(EMPTY, map[], packets, stride);
  }

  lemma {:induction false} NothingHeld(stride: nat)
    requires stride > 0
    ensures Sound(EMPTY, map[], stride)
  {
  }
}
