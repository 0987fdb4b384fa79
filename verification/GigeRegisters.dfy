/**
 The GigE camera's register contents: how a read finds its bytes, what a write
 stores, and the side effects some registers have.
 */
module GigeRegisters {
  import opened Arithmetic
  import opened Bytes
  import Binning
  import GigePayload

  const CCP: nat := 0x0A00
  const PRIMARY_PORT: nat := 0x0A04
  const PRIMARY_IP: nat := 0x0A14
  const GVCP_CAPABILITY: nat := 0x0934
  const HEARTBEAT_TIMEOUT: nat := 0x0938
  const PACKET_SIZE: nat := 0x0D04
  const XML_BLOB_BASE: nat := 0x1_0000

  const REG_WIDTH: nat := 0x20000
  const REG_HEIGHT: nat := 0x20004
  const REG_PIXEL_FORMAT: nat := 0x20008
  const REG_OFFSET_X: nat := 0x2000C
  const REG_OFFSET_Y: nat := 0x20010
  const REG_SENSOR_WIDTH: nat := 0x20014
  const REG_SENSOR_HEIGHT: nat := 0x20018
  const REG_ACQ_START: nat := 0x20024
  const REG_ACQ_STOP: nat := 0x20028
  const REG_EXPOSURE_TIME: nat := 0x20030
  const REG_EXPOSURE_AUTO: nat := 0x20038
  const REG_GAIN: nat := 0x20040
  const REG_GAIN_AUTO: nat := 0x20048
  const REG_TIMESTAMP_VALUE: nat := 0x20068
  const REG_TIMESTAMP_LATCH: nat := 0x20070
  const REG_CHUNK_MODE_ACTIVE: nat := 0x20080
  const REG_CHUNK_SELECTOR: nat := 0x20084
  const REG_CHUNK_ENABLE: nat := 0x20088
  const REG_EVENT_SELECTOR: nat := 0x200A0
  const REG_EVENT_NOTIFICATION: nat := 0x200A4
  const REG_USER_SET_LOAD: nat := 0x200AC
  const REG_SOFTWARE_SIGNAL_PULSE: nat := 0x200B0
  const REG_USER_SET_SAVE: nat := 0x200B4
  const REG_TRIGGER_SELECTOR: nat := 0x200C0
  const REG_TRIGGER_SOFTWARE: nat := 0x200E0
  const REG_BINNING_HORIZONTAL: nat := 0x200E4
  const REG_BINNING_VERTICAL: nat := 0x200E8
  const REG_WIDTH_MAX: nat := 0x20104
  const REG_HEIGHT_MAX: nat := 0x2010C
  const REG_PAYLOAD_SIZE: nat := 0x20120

  const WRITE_ONLY := [REG_ACQ_START, REG_ACQ_STOP, REG_TIMESTAMP_LATCH, REG_USER_SET_LOAD,
                       REG_SOFTWARE_SIGNAL_PULSE, REG_USER_SET_SAVE, REG_TRIGGER_SOFTWARE]
  const USER_SET_REGISTERS := [REG_EXPOSURE_TIME, REG_GAIN, REG_EXPOSURE_AUTO, REG_GAIN_AUTO]
  /** 5000.0 as a big-endian double. */
  const DEFAULT_EXPOSURE: seq<byte> := [0x40, 0xB3, 0x88, 0, 0, 0, 0, 0]

  datatype Register = Register(addr: nat, data: seq<byte>)

  datatype Contents = Contents(
    regs: seq<Register>, xml: seq<byte>, enabledEvents: set<nat>, enabledChunks: set<nat>,
    maxPacket: Option<nat>, pendingTest: Option<nat>, userSets: map<nat, seq<Register>>,
    pendingTriggers: nat, softwareTriggers: nat, binning: (nat, nat))

  // ---------------------------------------------------------------- the table of registers

  function Get(regs: seq<Register>, addr: nat): Option<seq<byte>> {
    if regs == [] then None
    else if regs[0].addr == addr then Some(regs[0].data)
    else Get(regs[1..], addr)
  }

  function Put(regs: seq<Register>, addr: nat, data: seq<byte>): seq<Register> {
    if regs == [] then [Register(addr, data)]
    else if regs[0].addr == addr then [Register(addr, data)] + regs[1..]
    else [regs[0]] + Put(regs[1..], addr, data)
  }

  /** A register that has `addr` among its bytes. */
  function Containing(regs: seq<Register>, addr: nat): (r: Option<Register>)
    ensures r.Some? ==> r.value.addr <= addr < r.value.addr + |r.value.data|
  {
    if regs == [] then None
    else if regs[0].addr <= addr < regs[0].addr + |regs[0].data| then Some(regs[0])
    else Containing(regs[1..], addr)
  }

  lemma {:induction false} GetPut(regs: seq<Register>, addr: nat, data: seq<byte>, other: nat)
    ensures Get(Put(regs, addr, data), other) == if other == addr then Some(data) else Get(regs, other)
    decreases |regs|
  {
    if regs != [] && regs[0].addr != addr {
      GetPut(regs[1..], addr, data, other);
      assert Put(regs, addr, data)[1..] == Put(regs[1..], addr, data);
    } else if regs != [] {
      assert Put(regs, addr, data)[1..] == regs[1..];
    }
  }

  lemma {:induction false} PutSame(regs: seq<Register>, addr: nat, data: seq<byte>)
    requires Get(regs, addr) == Some(data)
    ensures Put(regs, addr, data) == regs
    decreases |regs|
  {
    if regs[0].addr != addr {
      PutSame(regs[1..], addr, data);
    }
  }

  // ---------------------------------------------------------------- reading

  /** `data` cut or filled with zeros to `len` bytes. */
  function Fit(data: seq<byte>, len: nat): (r: seq<byte>)
    ensures |r| == len
  {
    if len <= |data| then data[..len] else data + seq(len - |data|, _ => 0)
  }

  /** The stored bytes: the XML first, then a register of this address, then one around it. */
  function Plain(c: Contents, addr: nat, len: nat): (r: seq<byte>)
    ensures |r| == len
  {
    if XML_BLOB_BASE <= addr < XML_BLOB_BASE + |c.xml| then Fit(c.xml[addr - XML_BLOB_BASE..], len)
    else
      match Get(c.regs, addr)
      case Some(data) => Fit(data, len)
      case None =>
        match Containing(c.regs, addr)
        case Some(r) => Fit(r.data[addr - r.addr..], len)
        case None => Fit([], len)
  }

  function Word(c: Contents, addr: nat): nat {
    FromBigEndian(Plain(c, addr, 4))
  }

  function Settings(c: Contents): GigePayload.Settings {
    GigePayload.Settings(Word(c, REG_WIDTH), Word(c, REG_HEIGHT), Word(c, REG_PIXEL_FORMAT),
                         Word(c, REG_CHUNK_MODE_ACTIVE), c.enabledChunks)
  }

  function Flag(b: bool): nat { if b then 1 else 0 }

  /** What a read returns: some registers answer from the device's state instead of a stored word. */
  function Read(c: Contents, controller: Option<Address>, addr: nat, len: nat): (r: seq<byte>)
    ensures |r| == len
  {
    if XML_BLOB_BASE <= addr < XML_BLOB_BASE + |c.xml| then Plain(c, addr, len)
    else if addr == PRIMARY_PORT then
      Fit(BigEndian(if controller.Some? then controller.value.port else 0, 4), len)
    else if addr == PRIMARY_IP then
      Fit(BigEndian(if controller.Some? then controller.value.ip else 0, 4), len)
    else if addr == REG_PAYLOAD_SIZE then Fit(BigEndian(GigePayload.PayloadSize(Settings(c)), 4), len)
    else if addr == REG_EVENT_NOTIFICATION then
      Fit(BigEndian(Flag(Word(c, REG_EVENT_SELECTOR) % 0x1_0000 in c.enabledEvents), 4), len)
    else if addr == REG_CHUNK_ENABLE then
      Fit(BigEndian(Flag(Word(c, REG_CHUNK_SELECTOR) in c.enabledChunks), 4), len)
    else Plain(c, addr, len)
  }

  predicate Touches(addr: nat, len: nat, reg: nat) {
    reg < addr + len && addr < reg + 4
  }

  predicate WriteOnly(addr: nat, len: nat) {
    exists i :: 0 <= i < |WRITE_ONLY| && Touches(addr, len, WRITE_ONLY[i])
  }

  /** The primary application registers of a device whose capability does not offer them. */
  predicate InvalidAddress(c: Contents, addr: nat, len: nat) {
    && Word(c, GVCP_CAPABILITY) / 0x0800_0000 % 2 == 0
    && (Touches(addr, len, PRIMARY_PORT) || Touches(addr, len, PRIMARY_IP))
  }

  // ---------------------------------------------------------------- writing

  /** `data` written over `was` from `at` on, as far as `was` reaches. */
  function Overlaid(was: seq<byte>, at: nat, data: seq<byte>): (r: seq<byte>)
    requires at <= |was|
    ensures |r| == |was|
  {
    var n := Min(|data|, |was| - at);
    was[..at] + data[..n] + was[at + n..]
  }

  /** The packet size register keeps the size and the do-not-fragment bit, the size at most the device's. */
  function PacketSizeWord(data: seq<byte>, maxPacket: Option<nat>): seq<byte>
    requires |data| >= 4
  {
    var raw := FromBigEndian(data[..4]);
    var kept := raw / 0x4000_0000 % 2 * 0x4000_0000 + raw % 0x1_0000;
    var stripped := if kept != raw then BigEndian(kept, 4) else data;
    var size := kept % 0x1_0000;
    if maxPacket.Some? && size > maxPacket.value then BigEndian(kept - size + maxPacket.value, 4) else stripped
  }

  function Stored(c: Contents, addr: nat, data: seq<byte>): Contents {
    match Get(c.regs, addr)
    case Some(was) => c.(regs := Put(c.regs, addr, Overlaid(was, 0, data)))
    case None =>
      match Containing(c.regs, addr)
      case Some(r) => c.(regs := Put(c.regs, r.addr, Overlaid(r.data, addr - r.addr, data)))
      case None => c.(regs := Put(c.regs, addr, data))
  }

  function Switched(s: set<nat>, x: nat, on: bool): set<nat> {
    if on then s + {x} else s - {x}
  }

  function Write(c: Contents, addr: nat, data: seq<byte>): Contents {
    if addr == PACKET_SIZE && |data| >= 4 then
      var raw := FromBigEndian(data[..4]);
      Stored(c.(pendingTest := if raw / 0x8000_0000 % 2 == 1 then Some(raw % 0x1_0000) else None),
             addr, PacketSizeWord(data, c.maxPacket))
    else if addr == REG_EVENT_NOTIFICATION && |data| >= 4 then
      c.(enabledEvents := Switched(c.enabledEvents, Word(c, REG_EVENT_SELECTOR) % 0x1_0000,
                                   FromBigEndian(data[..4]) != 0))
    else if addr == REG_CHUNK_ENABLE && |data| >= 4 then
      c.(enabledChunks := Switched(c.enabledChunks, Word(c, REG_CHUNK_SELECTOR), FromBigEndian(data[..4]) != 0))
    else Stored(c, addr, data)
  }

  // ---------------------------------------------------------------- side effects

  /** A new binning factor along one axis: the maximum, the size and the offset follow. */
  function Rebin(c: Contents, was: nat, factorReg: nat, sensor: nat, maximum: nat, size: nat, offset: nat)
    : (Contents, nat)
  {
    var factor := Word(c, factorReg);
    var a := Binning.Rebinned(
      Binning.Axis(Word(c, sensor), was, Word(c, maximum), Word(c, size), Word(c, offset)), factor);
    if factor == 0 || factor == was then (c, a.factor)
    else
      (c.(regs := Put(Put(Put(c.regs, maximum, BigEndian(a.maximum, 4)), size, BigEndian(a.size, 4)),
                      offset, BigEndian(a.offset, 4))),
       a.factor)
  }

  function PutAll(regs: seq<Register>, saved: seq<Register>): seq<Register>
    decreases |saved|
  {
    if saved == [] then regs else PutAll(Put(regs, saved[0].addr, saved[0].data), saved[1..])
  }

  function Saved(regs: seq<Register>, addrs: seq<nat>): seq<Register> {
    if addrs == [] then []
    else
      match Get(regs, addrs[0])
      case Some(data) => [Register(addrs[0], data)] + Saved(regs, addrs[1..])
      case None => Saved(regs, addrs[1..])
  }

  /** The analog-control settings the camera boots with. */
  function DefaultSet(): seq<Register> {
    [Register(REG_EXPOSURE_TIME, DEFAULT_EXPOSURE), Register(REG_GAIN, BigEndian(0, 8)),
     Register(REG_EXPOSURE_AUTO, BigEndian(0, 4)), Register(REG_GAIN_AUTO, BigEndian(0, 4))]
  }

  function LoadUserSet(c: Contents, n: nat): Contents {
    if n in c.userSets then c.(regs := PutAll(c.regs, c.userSets[n]))
    else
      c.(regs := PutAll(c.regs, DefaultSet()))
  }

  /** What a write to `addr` does beyond storing; `now` is the device's clock. */
  function SideEffects(c: Contents, addr: nat, now: nat): Contents {
    if addr == REG_BINNING_HORIZONTAL then
      var (d, factor) := Rebin(c, c.binning.0, addr, REG_SENSOR_WIDTH, REG_WIDTH_MAX, REG_WIDTH, REG_OFFSET_X);
      d.(binning := (factor, c.binning.1))
    else if addr == REG_BINNING_VERTICAL then
      var (d, factor) := Rebin(c, c.binning.1, addr, REG_SENSOR_HEIGHT, REG_HEIGHT_MAX, REG_HEIGHT, REG_OFFSET_Y);
      d.(binning := (c.binning.0, factor))
    else if addr == REG_TIMESTAMP_LATCH then c.(regs := Put(c.regs, REG_TIMESTAMP_VALUE, BigEndian(now, 8)))
    else if addr == REG_USER_SET_LOAD then LoadUserSet(c, Word(c, REG_USER_SET_LOAD))
    else if addr == REG_USER_SET_SAVE then
      var n := Word(c, REG_USER_SET_SAVE);
      if n == 0 then c else c.(userSets := c.userSets[n := Saved(c.regs, USER_SET_REGISTERS)])
    else if addr == REG_TRIGGER_SOFTWARE then
      c.(softwareTriggers := c.softwareTriggers + 1,
         pendingTriggers := c.pendingTriggers + Flag(Word(c, REG_TRIGGER_SELECTOR) == 0))
    else c
  }
}
