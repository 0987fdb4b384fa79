/**
 The USB3 Vision camera's register map: blocks of bytes by base address, host
 writes byte by byte, and the payload sizes the device keeps in step with them.
 */
module U3vRegisters {
  import opened Bytes
  import opened U3vWire
  import U3vStream

  const ABRM_TIMESTAMP: nat := 0x01F0
  const ABRM_TIMESTAMP_LATCH: nat := 0x01F8
  const REG_WIDTH: nat := 0x20000
  const REG_HEIGHT: nat := 0x20004
  const REG_PIXEL_FORMAT: nat := 0x20008
  const REG_ACQ_START: nat := 0x20024
  const REG_ACQ_STOP: nat := 0x20028
  const REG_PAYLOAD_SIZE: nat := 0x20048
  const REG_CHUNK_MODE_ACTIVE: nat := 0x20050
  const REG_CHUNK_ENABLE: nat := 0x20058
  const REG_EVENT_NOTIFICATION: nat := 0x20064
  const SIRM_CONTROL: nat := 0x2_0000_0004
  const SIRM_MAX_LEADER_SIZE: nat := 0x2_0000_0018
  const SIRM_PAYLOAD_TRANSFER_SIZE: nat := 0x2_0000_001C
  const SIRM_PAYLOAD_TRANSFER_COUNT: nat := 0x2_0000_0020
  const SIRM_FINAL_TRANSFER1_SIZE: nat := 0x2_0000_0024
  const SIRM_FINAL_TRANSFER2_SIZE: nat := 0x2_0000_0028
  const SIRM_MAX_TRAILER_SIZE: nat := 0x2_0000_002C
  const EIRM_CONTROL: nat := 0x2_0000_1000
  const SIRM_REQUIRED_PAYLOAD_SIZE: nat := 0x2_0000_0008

  type Blocks = map<nat, seq<byte>>

  // ---------------------------------------------------------------- byte-addressed memory

  predicate Holds(regs: Blocks, base: nat, a: nat) {
    base in regs && base <= a < base + |regs[base]|
  }

  /** No address lies in two blocks. */
  ghost predicate Disjoint(regs: Blocks) {
    forall b, c, a :: Holds(regs, b, a) && Holds(regs, c, a) ==> b == c
  }

  ghost function ByteAt(regs: Blocks, a: nat): Option<byte> {
    if b: nat :| Holds(regs, b, a) then Some(regs[b][a - b]) else None
  }

  lemma {:induction false} ByteOf(regs: Blocks, b: nat, a: nat)
    requires Disjoint(regs) && Holds(regs, b, a)
    ensures ByteAt(regs, a) == Some(regs[b][a - b])
  {
  }

  /** Bytes of `new` from `base` on, the old ones elsewhere. */
  ghost predicate Patched(was: Blocks, regs: Blocks, base: nat, bytes: seq<byte>) {
    forall a: nat :: ByteAt(regs, a) ==
      if base <= a < base + |bytes| && ByteAt(was, a).Some? then Some(bytes[a - base]) else ByteAt(was, a)
  }

  /** Replacing a block by one as long changes the memory exactly there. */
  lemma {:induction false} ReplaceBlock(regs: Blocks, base: nat, bytes: seq<byte>)
    requires Disjoint(regs) && base in regs && |bytes| == |regs[base]|
    ensures Disjoint(regs[base := bytes])
    ensures Patched(regs, regs[base := bytes], base, bytes)
  {
    var next := regs[base := bytes];
    assert forall b, a :: Holds(next, b, a) <==> Holds(regs, b, a);
    forall a: nat
      ensures ByteAt(next, a) ==
              if base <= a < base + |bytes| && ByteAt(regs, a).Some? then Some(bytes[a - base]) else ByteAt(regs, a)
    {
      if b: nat :| Holds(next, b, a) {
        assert Holds(regs, b, a);
        ByteOf(next, b, a);
        ByteOf(regs, b, a);
        if base <= a < base + |bytes| {
          assert Holds(regs, base, a);
        }
      }
    }
  }

  function WithByte(s: seq<byte>, i: nat, x: byte): seq<byte>
    requires i < |s|
  {
    s[..i] + [x] + s[i + 1..]
  }

  /** One byte stored in its block. */
  lemma {:induction false} StoreByte(regs: Blocks, base: nat, a: nat, x: byte)
    requires Disjoint(regs) && Holds(regs, base, a)
    ensures var next := regs[base := WithByte(regs[base], a - base, x)];
            Disjoint(next) && Patched(regs, next, a, [x])
  {
    var bytes := WithByte(regs[base], a - base, x);
    var next := regs[base := bytes];
    ReplaceBlock(regs, base, bytes);
    forall c: nat
      ensures ByteAt(next, c) == if a <= c < a + 1 && ByteAt(regs, c).Some? then Some([x][c - a]) else ByteAt(regs, c)
    {
      if base <= c < base + |bytes| {
        assert Holds(regs, base, c);
        ByteOf(regs, base, c);
      }
    }
  }

  // ---------------------------------------------------------------- what the registers say

  /** `len` bytes of the memory from `addr` on, zero where no block lies. */
  ghost function ReadBytes(regs: Blocks, addr: nat, len: nat): (r: seq<byte>)
    ensures |r| == len
    ensures forall i :: 0 <= i < len ==> r[i] == OrZero(ByteAt(regs, addr + i))
  {
    seq<byte>(len, i requires 0 <= i < len => OrZero(ByteAt(regs, addr + i)))
  }

  function OrZero(b: Option<byte>): byte {
    match b case Some(x) => x case None => 0
  }

  ghost function U32(regs: Blocks, addr: nat): nat {
    FromLittleEndian(ReadBytes(regs, addr, 4))
  }

  function Enabled(timestamp: bool, frameId: bool): seq<nat> {
    (if timestamp then [CHUNK_ID_TIMESTAMP] else []) + (if frameId then [CHUNK_ID_FRAME_ID] else [])
  }

  /** The image format a block is built from. */
  ghost function FormatOf(regs: Blocks): Format {
    Format(
      U32(regs, REG_WIDTH), U32(regs, REG_HEIGHT), U32(regs, REG_PIXEL_FORMAT),
      U32(regs, REG_CHUNK_MODE_ACTIVE) % 2 == 1,
      Enabled(U32(regs, REG_CHUNK_ENABLE) % 2 == 1, U32(regs, REG_CHUNK_ENABLE + 4) % 2 == 1))
  }

  function SizeOf(f: Format): nat {
    var image := PayloadBytes(f.width, f.height, f.pixelFormat);
    if f.chunked then image + 8 + 16 * |f.enabledChunks| else image
  }

  /** The map is memory, and the registers the device itself writes are blocks of their own. */
  ghost predicate Shaped(regs: Blocks) {
    && Disjoint(regs)
    && REG_PAYLOAD_SIZE in regs && |regs[REG_PAYLOAD_SIZE]| == 4
    && ABRM_TIMESTAMP in regs && |regs[ABRM_TIMESTAMP]| == 8
    && SIRM_REQUIRED_PAYLOAD_SIZE in regs && |regs[SIRM_REQUIRED_PAYLOAD_SIZE]| == 8
  }

  /** The payload size registers hold the size of the current format. */
  ghost predicate Synced(regs: Blocks) {
    && Shaped(regs)
    && ReadBytes(regs, REG_PAYLOAD_SIZE, 4) == LittleEndian(SizeOf(FormatOf(regs)), 4)
    && ReadBytes(regs, SIRM_REQUIRED_PAYLOAD_SIZE, 8) == LittleEndian(SizeOf(FormatOf(regs)), 8)
  }

  /** The payload of a block is as long as its format says, whatever the pattern, time and id. */
  lemma {:induction false} PayloadLength(f: Format, pattern: seq<byte>, timestamp: nat, id: nat)
    ensures |BlockPayload(f, pattern, timestamp, id)| == SizeOf(f)
  {
  }

  /**
   The size the host reads from the SIRM is the size of the payload the device
   then builds, whatever the pattern, the time and the block id; the 32-bit
   PayloadSize is that size's low word.
   */
  lemma {:induction false} AdvertisedIsSent(regs: Blocks, pattern: seq<byte>, timestamp: nat, id: nat)
    requires Synced(regs) && SizeOf(FormatOf(regs)) < Capacity(8)
    ensures FromLittleEndian(ReadBytes(regs, SIRM_REQUIRED_PAYLOAD_SIZE, 8))
            == |BlockPayload(FormatOf(regs), pattern, timestamp, id)|
    ensures |BlockPayload(FormatOf(regs), pattern, timestamp, id)| < Capacity(4) ==>
              U32(regs, REG_PAYLOAD_SIZE) == |BlockPayload(FormatOf(regs), pattern, timestamp, id)|
  {
    hide FormatOf, LittleEndian, FromLittleEndian, Capacity, SizeOf, BlockPayload;
    var f := FormatOf(regs);
    PayloadLength(f, pattern, timestamp, id);
    LittleEndianRoundTrip(SizeOf(f), 8);
    if SizeOf(f) < Capacity(4) {
      LittleEndianRoundTrip(SizeOf(f), 4);
    }
  }

  // ---------------------------------------------------------------- patches and reads

  lemma {:induction false} ReadUntouched(was: Blocks, regs: Blocks, base: nat, bytes: seq<byte>, addr: nat, len: nat)
    requires Patched(was, regs, base, bytes)
    requires addr + len <= base || base + |bytes| <= addr
    ensures ReadBytes(regs, addr, len) == ReadBytes(was, addr, len)
  {
  }

  lemma {:induction false} ReadPatched(was: Blocks, regs: Blocks, base: nat, bytes: seq<byte>)
    requires Patched(was, regs, base, bytes)
    requires forall a: nat :: base <= a < base + |bytes| ==> ByteAt(was, a).Some?
    ensures ReadBytes(regs, base, |bytes|) == bytes
  {
  }

  /** No register the device itself writes is one the format is read from. */
  lemma {:induction false} FormatUntouched(was: Blocks, regs: Blocks, base: nat, bytes: seq<byte>)
    requires Patched(was, regs, base, bytes)
    requires base + |bytes| <= REG_WIDTH || (base == REG_PAYLOAD_SIZE && |bytes| == 4)
             || (base == SIRM_REQUIRED_PAYLOAD_SIZE && |bytes| == 8)
    ensures FormatOf(regs) == FormatOf(was)
  {
    hide Patched, ReadBytes, FromLittleEndian;
    ReadUntouched(was, regs, base, bytes, REG_WIDTH, 4);
    ReadUntouched(was, regs, base, bytes, REG_HEIGHT, 4);
    ReadUntouched(was, regs, base, bytes, REG_PIXEL_FORMAT, 4);
    ReadUntouched(was, regs, base, bytes, REG_CHUNK_MODE_ACTIVE, 4);
    ReadUntouched(was, regs, base, bytes, REG_CHUNK_ENABLE, 4);
    ReadUntouched(was, regs, base, bytes, REG_CHUNK_ENABLE + 4, 4);
  }

  lemma {:induction false} PatchMore(
    was: Blocks, mid: Blocks, regs: Blocks, addr: nat, data: seq<byte>, i: nat)
    requires i < |data|
    requires Patched(was, mid, addr, data[..i])
    requires Patched(mid, regs, addr + i, [data[i]])
    ensures Patched(was, regs, addr, data[..i + 1])
  {
  }

  lemma {:induction false} SkipUnmapped(was: Blocks, mid: Blocks, addr: nat, data: seq<byte>, i: nat)
    requires i < |data|
    requires Patched(was, mid, addr, data[..i]) && ByteAt(mid, addr + i).None?
    ensures Patched(was, mid, addr, data[..i + 1])
  {
  }

  // ---------------------------------------------------------------- the map

  class RegisterMap {
    var regs: Blocks

    /** The payload sizes agree with the format: true between any two operations. */
    ghost predicate Valid()
      reads this
    {
      Synced(regs)
    }

    constructor (blocks: Blocks)
      requires Shaped(blocks)
      ensures Valid() && FormatOf(regs) == FormatOf(blocks)
    {
      regs := blocks;
      new;
      SyncPayloadSize();
    }

    method BlockOf(a: nat) returns (base: Option<nat>)
      ensures base.Some? ==> Holds(regs, base.value, a)
      ensures base.None? ==> forall b: nat :: !Holds(regs, b, a)
    {
      if b :| b in regs && Holds(regs, b, a) {
        return Some(b);
      }
      return None;
    }

    method Read(addr: nat, len: nat) returns (r: seq<byte>)
      requires Disjoint(regs)
      ensures r == ReadBytes(regs, addr, len)
    {
      r := [];
      for i := 0 to len
        invariant r == ReadBytes(regs, addr, i)
      {
        var base := BlockOf(addr + i);
        match base
        case Some(b) =>
          ByteOf(regs, b, addr + i);
          r := r + [regs[b][addr + i - b]];
        case None =>
          r := r + [0];
        assert r[i] == OrZero(ByteAt(regs, addr + i));
      }
    }

    method ReadU32(addr: nat) returns (value: nat)
      requires Disjoint(regs)
      ensures value == U32(regs, addr)
    {
      var bytes := Read(addr, 4);
      value := FromLittleEndian(bytes);
    }

    method PayloadSize() returns (size: nat)
      requires Disjoint(regs)
      ensures size == SizeOf(FormatOf(regs))
    {
      var width := ReadU32(REG_WIDTH);
      var height := ReadU32(REG_HEIGHT);
      var format := ReadU32(REG_PIXEL_FORMAT);
      size := PayloadBytes(width, height, format);
      var mode := ReadU32(REG_CHUNK_MODE_ACTIVE);
      if mode % 2 == 1 {
        var timestamp := ReadU32(REG_CHUNK_ENABLE);
        var frameId := ReadU32(REG_CHUNK_ENABLE + 4);
        size := size + 8 + 16 * |Enabled(timestamp % 2 == 1, frameId % 2 == 1)|;
      }
    }

    method SyncPayloadSize()
      requires Shaped(regs)
      modifies this
      ensures Valid()
      ensures FormatOf(regs) == FormatOf(old(regs))
      ensures regs == old(regs)[REG_PAYLOAD_SIZE := LittleEndian(SizeOf(FormatOf(regs)), 4)]
                      [SIRM_REQUIRED_PAYLOAD_SIZE := LittleEndian(SizeOf(FormatOf(regs)), 8)]
    {
      hide FormatOf, LittleEndian, SizeOf, Patched, ReadBytes;
      ghost var was := regs;
      var size := PayloadSize();
      var low, wide := LittleEndian(size, 4), LittleEndian(size, 8);
      BlockMapped(regs, REG_PAYLOAD_SIZE);
      ReplaceBlock(regs, REG_PAYLOAD_SIZE, low);
      regs := regs[REG_PAYLOAD_SIZE := low];
      ghost var mid := regs;
      FormatUntouched(was, mid, REG_PAYLOAD_SIZE, low);
      ReadPatched(was, mid, REG_PAYLOAD_SIZE, low);
      BlockMapped(regs, SIRM_REQUIRED_PAYLOAD_SIZE);
      ReplaceBlock(regs, SIRM_REQUIRED_PAYLOAD_SIZE, wide);
      regs := regs[SIRM_REQUIRED_PAYLOAD_SIZE := wide];
      FormatUntouched(mid, regs, SIRM_REQUIRED_PAYLOAD_SIZE, wide);
      ReadPatched(mid, regs, SIRM_REQUIRED_PAYLOAD_SIZE, wide);
      ReadUntouched(mid, regs, SIRM_REQUIRED_PAYLOAD_SIZE, wide, REG_PAYLOAD_SIZE, 4);
    }

    /** Every mapped byte takes its new value, an unmapped one is skipped; then the sizes follow. */
    method Write(addr: nat, data: seq<byte>)
      requires Valid()
      modifies this
      ensures Valid()
      ensures WriteResult(old(regs), addr, data, regs)
    {
      hide FormatOf, LittleEndian, SizeOf, ReadBytes;
      ghost var was := regs;
      assert Patched(was, regs, addr, data[..0]);
      for i := 0 to |data|
        invariant Shaped(regs) && Patched(was, regs, addr, data[..i])
      {
        hide Patched;
        var a := addr + i;
        ghost var mid := regs;
        var base := BlockOf(a);
        match base
        case Some(b) =>
          StoreByte(regs, b, a, data[i]);
          regs := regs[b := WithByte(regs[b], a - b, data[i])];
          PatchMore(was, mid, regs, addr, data, i);
        case None =>
          SkipUnmapped(was, mid, addr, data, i);
      }
      assert data[..|data|] == data;
      ghost var written := regs;
      SyncPayloadSize();
      assert Shaped(written) && Patched(was, written, addr, data);
    }

    /** A host's write once it is accepted, and the latch it may ask for. */
    method AcceptWrite(addr: nat, data: seq<byte>, now: nat)
      requires Valid()
      modifies this
      ensures Valid() && Accepted(old(regs), addr, data, now, regs)
    {
      hide WriteResult, LittleEndian, ReadBytes, SizeOf, FormatOf;
      Write(addr, data);
      if data != [] && addr < ABRM_TIMESTAMP_LATCH + 4 && ABRM_TIMESTAMP_LATCH < addr + |data| && data[0] % 2 == 1 {
        ghost var written := regs;
        LatchTimestamp(now);
        assert Shaped(written) && WriteResult(old(regs), addr, data, written);
      }
    }

    /** The device's own write: a latched timestamp, which is no part of any format. */
    method LatchTimestamp(ns: nat)
      requires Valid()
      modifies this
      ensures Valid()
      ensures regs == old(regs)[ABRM_TIMESTAMP := LittleEndian(ns, 8)]
      ensures FormatOf(regs) == FormatOf(old(regs))
    {
      hide FormatOf, LittleEndian, SizeOf, Patched, ReadBytes;
      ghost var was := regs;
      var bytes := LittleEndian(ns, 8);
      ReplaceBlock(regs, ABRM_TIMESTAMP, bytes);
      regs := regs[ABRM_TIMESTAMP := bytes];
      FormatUntouched(was, regs, ABRM_TIMESTAMP, bytes);
      ReadUntouched(was, regs, ABRM_TIMESTAMP, bytes, REG_PAYLOAD_SIZE, 4);
      ReadUntouched(was, regs, ABRM_TIMESTAMP, bytes, SIRM_REQUIRED_PAYLOAD_SIZE, 8);
    }
  }

  // ---------------------------------------------------------------- the stream's registers

  /** What the stream endpoint reads of the map. */
  ghost function RegistersOf(regs: Blocks): U3vStream.Registers {
    U3vStream.Registers(
      U32(regs, SIRM_CONTROL) % 2 == 1,
      Layout(U32(regs, SIRM_MAX_LEADER_SIZE), U32(regs, SIRM_PAYLOAD_TRANSFER_SIZE),
             U32(regs, SIRM_PAYLOAD_TRANSFER_COUNT), U32(regs, SIRM_FINAL_TRANSFER1_SIZE),
             U32(regs, SIRM_FINAL_TRANSFER2_SIZE), U32(regs, SIRM_MAX_TRAILER_SIZE)),
      FormatOf(regs),
      U32(regs, EIRM_CONTROL) % 2 == 1,
      U32(regs, REG_EVENT_NOTIFICATION) == 1)
  }

  predicate Touches(addr: nat, len: nat, reg: nat) {
    addr < reg + 4 && reg < addr + len
  }

  /** The map after a write of `data` at `addr`: `RegisterMap.Write`. */
  ghost predicate WriteResult(was: Blocks, addr: nat, data: seq<byte>, regs: Blocks) {
    exists written: Blocks ::
      && Shaped(written) && Patched(was, written, addr, data)
      && regs == written[REG_PAYLOAD_SIZE := LittleEndian(SizeOf(FormatOf(regs)), 4)]
                        [SIRM_REQUIRED_PAYLOAD_SIZE := LittleEndian(SizeOf(FormatOf(regs)), 8)]
  }

  /** GenCP 1.3.1, section 5.4.17: a write to the latch with bit 0 set latches the device time. */
  predicate Latches(addr: nat, data: seq<byte>) {
    data != [] && Touches(addr, |data|, ABRM_TIMESTAMP_LATCH) && data[0] % 2 == 1
  }

  /** The map after an accepted write and its side effects: `RegisterMap.AcceptWrite`. */
  ghost predicate Accepted(was: Blocks, addr: nat, data: seq<byte>, now: nat, regs: Blocks) {
    if Latches(addr, data) then
      exists written: Blocks :: Shaped(written) && WriteResult(was, addr, data, written)
                                && regs == written[ABRM_TIMESTAMP := LittleEndian(now, 8)]
    else WriteResult(was, addr, data, regs)
  }

  /** What an accepted write is to the stream: the registers after it, and what the bytes written touch. */
  ghost function EffectsOf(addr: nat, len: nat, regs: Blocks): U3vStream.RegisterWrite {
    U3vStream.RegisterWrite(
      RegistersOf(regs), Touches(addr, len, REG_ACQ_START), Touches(addr, len, REG_ACQ_STOP),
      Touches(addr, len, SIRM_CONTROL))
  }

  /** A word that is none of those the device itself writes. */
  predicate HostWord(addr: nat) {
    && !(ABRM_TIMESTAMP < addr + 4 && addr < ABRM_TIMESTAMP + 8)
    && !(REG_PAYLOAD_SIZE < addr + 4 && addr < REG_PAYLOAD_SIZE + 4)
    && !(SIRM_REQUIRED_PAYLOAD_SIZE < addr + 4 && addr < SIRM_REQUIRED_PAYLOAD_SIZE + 8)
  }

  /** Keeping the sizes in step moves no word of the host's. */
  lemma {:induction false} WriteThenSync(was: Blocks, addr: nat, data: seq<byte>, regs: Blocks, other: nat)
    returns (written: Blocks)
    requires WriteResult(was, addr, data, regs) && HostWord(other)
    ensures Patched(was, written, addr, data) && U32(regs, other) == U32(written, other)
  {
    hide FormatOf, LittleEndian, SizeOf, Patched, ReadBytes, FromLittleEndian;
    var low, wide := LittleEndian(SizeOf(FormatOf(regs)), 4), LittleEndian(SizeOf(FormatOf(regs)), 8);
    written :| Shaped(written) && Patched(was, written, addr, data)
               && regs == written[REG_PAYLOAD_SIZE := low][SIRM_REQUIRED_PAYLOAD_SIZE := wide];
    var mid := written[REG_PAYLOAD_SIZE := low];
    ReplaceBlock(written, REG_PAYLOAD_SIZE, low);
    ReadUntouched(written, mid, REG_PAYLOAD_SIZE, low, other, 4);
    ReplaceBlock(mid, SIRM_REQUIRED_PAYLOAD_SIZE, wide);
    ReadUntouched(mid, regs, SIRM_REQUIRED_PAYLOAD_SIZE, wide, other, 4);
  }

  /** Nor does a latched time. */
  lemma {:induction false} LatchLeaves(regs: Blocks, now: nat, other: nat)
    requires Shaped(regs) && HostWord(other)
    ensures U32(regs[ABRM_TIMESTAMP := LittleEndian(now, 8)], other) == U32(regs, other)
  {
    hide LittleEndian, Patched, ReadBytes, FromLittleEndian;
    var bytes := LittleEndian(now, 8);
    ReplaceBlock(regs, ABRM_TIMESTAMP, bytes);
    ReadUntouched(regs, regs[ABRM_TIMESTAMP := bytes], ABRM_TIMESTAMP, bytes, other, 4);
  }

  /** A word of the host's after an accepted write is what the bytes written make of it. */
  lemma {:induction false} AcceptedWord(was: Blocks, addr: nat, data: seq<byte>, now: nat, regs: Blocks, other: nat)
    returns (written: Blocks)
    requires Accepted(was, addr, data, now, regs) && HostWord(other)
    ensures Patched(was, written, addr, data) && U32(regs, other) == U32(written, other)
  {
    hide WriteResult, U32, Shaped, LittleEndian, Patched;
    if Latches(addr, data) {
      var latched: Blocks :| Shaped(latched) && WriteResult(was, addr, data, latched)
                             && regs == latched[ABRM_TIMESTAMP := LittleEndian(now, 8)];
      LatchLeaves(latched, now, other);
      written := WriteThenSync(was, addr, data, latched, other);
    } else {
      written := WriteThenSync(was, addr, data, regs, other);
    }
  }

  /**
   An accepted write to the map is a register write as the stream endpoint takes
   it: acquisition starts and stops, and the block is abandoned, by what the
   bytes written touch, and nothing the stream reads is out of step afterwards.
   */
  lemma {:induction false} WriteReachesTheStream(
    c: U3vStream.Camera, was: Blocks, addr: nat, data: seq<byte>, now: nat, regs: Blocks)
    requires c.regs == RegistersOf(was) && Accepted(was, addr, data, now, regs)
    ensures U3vStream.Written(c, EffectsOf(addr, |data|, regs)).regs == RegistersOf(regs)
  {
    hide Accepted, U32, FormatOf, Patched;
    if !Touches(addr, |data|, SIRM_CONTROL) {
      var written := AcceptedWord(was, addr, data, now, regs, SIRM_CONTROL);
      WordKept(was, written, addr, data, SIRM_CONTROL);
    }
  }

  lemma {:induction false} WordKept(was: Blocks, regs: Blocks, addr: nat, data: seq<byte>, other: nat)
    requires Patched(was, regs, addr, data) && !Touches(addr, |data|, other)
    ensures U32(regs, other) == U32(was, other)
  {
    hide Patched, ReadBytes, FromLittleEndian;
    ReadUntouched(was, regs, addr, data, other, 4);
  }

  lemma {:induction false} BlockMapped(regs: Blocks, base: nat)
    requires Disjoint(regs) && base in regs
    ensures forall a: nat :: base <= a < base + |regs[base]| ==> ByteAt(regs, a).Some?
  {
    forall a: nat | base <= a < base + |regs[base]| ensures ByteAt(regs, a).Some? {
      ByteOf(regs, base, a);
    }
  }

  /** The timestamp register holds the time of a write that latches, and otherwise what it held. */
  lemma {:induction false} LatchReadsBack(was: Blocks, addr: nat, data: seq<byte>, now: nat, regs: Blocks)
    requires Accepted(was, addr, data, now, regs)
    ensures data != [] && addr < 0x01FC && 0x01F8 < addr + |data| && data[0] % 2 == 1 ==>
              ReadBytes(regs, 0x01F0, 8) == LittleEndian(now, 8)
    ensures !(data != [] && addr < 0x01FC && 0x01F8 < addr + |data| && data[0] % 2 == 1)
            && (addr >= 0x01F8 || addr + |data| <= 0x01F0) ==>
              ReadBytes(regs, 0x01F0, 8) == ReadBytes(was, 0x01F0, 8)
  {
    hide FormatOf, LittleEndian, SizeOf, Patched, ReadBytes;
    var bytes := LittleEndian(now, 8);
    if Latches(addr, data) {
      var written: Blocks :| Shaped(written) && WriteResult(was, addr, data, written)
                             && regs == written[ABRM_TIMESTAMP := bytes];
      ReplaceBlock(written, ABRM_TIMESTAMP, bytes);
      BlockMapped(written, ABRM_TIMESTAMP);
      ReadPatched(written, regs, ABRM_TIMESTAMP, bytes);
    } else if addr >= 0x01F8 || addr + |data| <= 0x01F0 {
      var low, wide := LittleEndian(SizeOf(FormatOf(regs)), 4), LittleEndian(SizeOf(FormatOf(regs)), 8);
      var written: Blocks :| Shaped(written) && Patched(was, written, addr, data)
                             && regs == written[REG_PAYLOAD_SIZE := low][SIRM_REQUIRED_PAYLOAD_SIZE := wide];
      var mid := written[REG_PAYLOAD_SIZE := low];
      ReadUntouched(was, written, addr, data, ABRM_TIMESTAMP, 8);
      ReplaceBlock(written, REG_PAYLOAD_SIZE, low);
      ReadUntouched(written, mid, REG_PAYLOAD_SIZE, low, ABRM_TIMESTAMP, 8);
      ReplaceBlock(mid, SIRM_REQUIRED_PAYLOAD_SIZE, wide);
      ReadUntouched(mid, regs, SIRM_REQUIRED_PAYLOAD_SIZE, wide, ABRM_TIMESTAMP, 8);
    }
  }

  // ---------------------------------------------------------------- which register is which

  /** The host writes the word `v` to `addr`, all of it mapped. */
  ghost predicate WordWritten(was: Blocks, regs: Blocks, addr: nat, v: nat, now: nat) {
    && v < Capacity(4) && Accepted(was, addr, LittleEndian(v, 4), now, regs)
    && (forall a: nat :: addr <= a < addr + 4 ==> ByteAt(was, a).Some?)
  }

  lemma {:induction false} WordsFollow(was: Blocks, regs: Blocks, addr: nat, v: nat, now: nat, other: nat)
    requires WordWritten(was, regs, addr, v, now) && HostWord(other)
    requires other == addr || other + 4 <= addr || addr + 4 <= other
    ensures U32(regs, other) == if other == addr then v else U32(was, other)
  {
    hide LittleEndian, FromLittleEndian, Patched, ByteAt, Capacity, Accepted, ReadBytes;
    var data := LittleEndian(v, 4);
    var written := AcceptedWord(was, addr, data, now, regs, other);
    if other == addr {
      ReadPatched(was, written, addr, data);
      LittleEndianRoundTrip(v, 4);
    } else {
      WordKept(was, written, addr, data, other);
    }
  }

  /** The image format follows the words written to its registers, each to its own field. */
  lemma {:induction false} FormatFollows(was: Blocks, regs: Blocks, addr: nat, v: nat, now: nat)
    requires WordWritten(was, regs, addr, v, now) && addr % 4 == 0
    ensures var f := FormatOf(was);
            FormatOf(regs) ==
            match addr
            case 0x20000 => f.(width := v)
            case 0x20004 => f.(height := v)
            case 0x20008 => f.(pixelFormat := v)
            case 0x20050 => f.(chunked := v % 2 == 1)
            case 0x20058 => f.(enabledChunks :=
              (if v % 2 == 1 then [0x1001] else []) + if 0x1002 in f.enabledChunks then [0x1002] else [])
            case 0x2005C => f.(enabledChunks :=
              (if 0x1001 in f.enabledChunks then [0x1001] else []) + if v % 2 == 1 then [0x1002] else [])
            case _ => f
  {
    hide WordWritten, U32;
    WordsFollow(was, regs, addr, v, now, 0x20000);
    WordsFollow(was, regs, addr, v, now, 0x20004);
    WordsFollow(was, regs, addr, v, now, 0x20008);
    WordsFollow(was, regs, addr, v, now, 0x20050);
    WordsFollow(was, regs, addr, v, now, 0x20058);
    WordsFollow(was, regs, addr, v, now, 0x2005C);
  }

  /** So do the stream's enables and the layout the host asks for. */
  lemma {:induction false} StreamFollows(was: Blocks, regs: Blocks, addr: nat, v: nat, now: nat)
    requires WordWritten(was, regs, addr, v, now) && addr % 4 == 0
    ensures var r := RegistersOf(was).(format := FormatOf(regs));
            RegistersOf(regs) ==
            match addr
            case 0x2_0000_0004 => r.(streamEnabled := v % 2 == 1)
            case 0x2_0000_0018 => r.(layout := r.layout.(maxLeader := v))
            case 0x2_0000_001C => r.(layout := r.layout.(transferSize := v))
            case 0x2_0000_0020 => r.(layout := r.layout.(transferCount := v))
            case 0x2_0000_0024 => r.(layout := r.layout.(final1 := v))
            case 0x2_0000_0028 => r.(layout := r.layout.(final2 := v))
            case 0x2_0000_002C => r.(layout := r.layout.(maxTrailer := v))
            case 0x2_0000_1000 => r.(eventsEnabled := v % 2 == 1)
            case 0x20064 => r.(notifyExposureEnd := v == 1)
            case _ => r
  {
    hide WordWritten, U32, FormatOf;
    WordsFollow(was, regs, addr, v, now, 0x2_0000_0004);
    WordsFollow(was, regs, addr, v, now, 0x2_0000_0018);
    WordsFollow(was, regs, addr, v, now, 0x2_0000_001C);
    WordsFollow(was, regs, addr, v, now, 0x2_0000_0020);
    WordsFollow(was, regs, addr, v, now, 0x2_0000_0024);
    WordsFollow(was, regs, addr, v, now, 0x2_0000_0028);
    WordsFollow(was, regs, addr, v, now, 0x2_0000_002C);
    WordsFollow(was, regs, addr, v, now, 0x2_0000_1000);
    WordsFollow(was, regs, addr, v, now, 0x20064);
  }
}
