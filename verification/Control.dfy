/**
 Who may access the GigE camera's registers: the control privilege, its
 heartbeat, and how register commands from any peer are served.
 */
module Control {
  import opened Bytes
  import opened GigeRegisters

  const INVALID_PARAMETER: nat := 0x8002
  const INVALID_ADDRESS: nat := 0x8003
  const BAD_ALIGNMENT: nat := 0x8005
  const ACCESS_DENIED: nat := 0x8006

  /** The register map: its contents, who holds control, and when the holder last spoke (nanoseconds). */
  datatype Store = Store(
    contents: Contents, controller: Option<Address>, last: nat, enforce: bool, acquisition: Acquisition)

  /** The signals a register write gives the frame sender: starts notified, and the stop flag. */
  datatype Acquisition = Acquisition(starts: nat, stop: bool)

  datatype Command =
    | ReadReg(payload: seq<byte>)
    | WriteReg(payload: seq<byte>)
    | ReadMem(payload: seq<byte>)
    | WriteMem(payload: seq<byte>)

  /** An acknowledgement carries data and maybe a test packet to fire; a malformed command gets no reply. */
  datatype Reply = NoReply | Ack(payload: seq<byte>, testPacket: Option<nat>) | Refused(status: nat)

  // ---------------------------------------------------------------- privilege

  function WithCcp(s: Store, value: nat): Store {
    s.(contents := s.contents.(regs := Put(s.contents.regs, CCP, BigEndian(value, 4))))
  }

  function Revoked(s: Store): Store {
    WithCcp(s, 0).(controller := None)
  }

  function Timeout(s: Store): nat {
    Word(s.contents, HEARTBEAT_TIMEOUT) * 1_000_000
  }

  predicate Expired(s: Store, now: nat) {
    s.enforce && s.controller.Some? && Timeout(s) != 0 && now > s.last + Timeout(s)
  }

  function Settled(s: Store, now: nat): Store {
    if Expired(s, now) then Revoked(s) else s
  }

  /** The holder's own command restarts its timer. */
  function Refreshed(s: Store, peer: Address, now: nat): Store {
    if s.controller == Some(peer) then s.(last := now) else s
  }

  /** What every register command does first. */
  function Noted(s: Store, peer: Address, now: nat): Store {
    Refreshed(Settled(s, now), peer, now)
  }

  predicate MayAccess(s: Store, peer: Address, write: bool) {
    match s.controller
    case None => !write
    case Some(holder) => holder == peer || (!write && Word(s.contents, CCP) % 2 == 0)
  }

  /** A write of `value` to CCP: either access bit claims control, neither gives it up. */
  function CcpWritten(s: Store, peer: Address, value: nat, now: nat): Option<Store> {
    if s.controller.Some? && s.controller.value != peer then None
    else if value % 4 != 0 then Some(WithCcp(s, value).(controller := Some(peer), last := now))
    else Some(Revoked(s))
  }

  predicate IsCcp(addr: nat, data: seq<byte>) {
    addr == CCP && |data| == 4
  }

  /** A non-zero word written to AcquisitionStart or AcquisitionStop starts or stops the sender. */
  function Signalled(a: Acquisition, addr: nat, data: seq<byte>): Acquisition {
    if |data| < 4 || FromBigEndian(data[..4]) == 0 then a
    else if addr == REG_ACQ_START then Acquisition(a.starts + 1, false)
    else if addr == REG_ACQ_STOP then a.(stop := true)
    else a
  }

  /** One write, or `None` when it is refused. */
  function Written(s: Store, peer: Address, addr: nat, data: seq<byte>, now: nat): Option<Store> {
    if IsCcp(addr, data) then CcpWritten(s, peer, FromBigEndian(data), now)
    else if !MayAccess(s, peer, true) then None
    else
      Some(s.(contents := SideEffects(Write(s.contents, addr, data), addr, now),
              acquisition := Signalled(s.acquisition, addr, data)))
  }

  // ---------------------------------------------------------------- commands

  /** The `i`th address and value of a WRITEREG payload. */
  function PairAddr(payload: seq<byte>, i: nat): nat
    requires 8 * i + 8 <= |payload|
  {
    FromBigEndian(payload[8 * i..8 * i + 4])
  }

  function PairData(payload: seq<byte>, i: nat): (r: seq<byte>)
    requires 8 * i + 8 <= |payload|
    ensures |r| == 4
  {
    payload[8 * i + 4..8 * i + 8]
  }

  /** The pairs from `i` on, written one by one up to the first refusal: the store then, and where it stopped. */
  function PairsWritten(s: Store, peer: Address, payload: seq<byte>, i: nat, now: nat): (r: (Store, nat))
    requires |payload| % 8 == 0 && i <= |payload| / 8
    ensures i <= r.1 <= |payload| / 8
    decreases |payload| / 8 - i
  {
    if i == |payload| / 8 then (s, i)
    else
      match Written(s, peer, PairAddr(payload, i), PairData(payload, i), now)
      case None => (s, i)
      case Some(next) => PairsWritten(next, peer, payload, i + 1, now)
  }

  /** The test packet a write asked for is fired once. */
  function TestTaken(s: Store): Store {
    s.(contents := s.contents.(pendingTest := None))
  }

  function WriteRegServed(s: Store, peer: Address, payload: seq<byte>, now: nat): (Store, Reply) {
    if |payload| < 8 || |payload| % 8 != 0 then (s, NoReply)
    else
      var (next, k) := PairsWritten(s, peer, payload, 0, now);
      if k < |payload| / 8 then (next, Refused(ACCESS_DENIED))
      else (TestTaken(next), Ack(BigEndian(0, 4), next.contents.pendingTest))
  }

  function ReadRefusal(c: Contents, addr: nat): Option<nat> {
    if addr % 4 != 0 then Some(BAD_ALIGNMENT)
    else if InvalidAddress(c, addr, 4) then Some(INVALID_ADDRESS)
    else if WriteOnly(addr, 4) then Some(ACCESS_DENIED)
    else None
  }

  /** The registers a READREG asks for, from the `i`th on. */
  function RegsRead(s: Store, payload: seq<byte>, i: nat): Reply
    requires |payload| % 4 == 0 && i <= |payload| / 4
    decreases |payload| / 4 - i
  {
    if i == |payload| / 4 then Ack([], None)
    else
      var addr := FromBigEndian(payload[4 * i..4 * i + 4]);
      match ReadRefusal(s.contents, addr)
      case Some(status) => Refused(status)
      case None =>
        match RegsRead(s, payload, i + 1)
        case Ack(rest, _) => Ack(Read(s.contents, s.controller, addr, 4) + rest, None)
        case other => other
  }

  function ReadRegServed(s: Store, peer: Address, payload: seq<byte>): Reply {
    if |payload| < 4 || |payload| % 4 != 0 then NoReply
    else if !MayAccess(s, peer, false) then Refused(ACCESS_DENIED)
    else RegsRead(s, payload, 0)
  }

  function ReadMemServed(s: Store, peer: Address, payload: seq<byte>): Reply {
    if |payload| < 8 then NoReply
    else
      var addr := FromBigEndian(payload[..4]);
      var count := FromBigEndian(payload[6..8]);
      if addr % 4 != 0 || count == 0 || count % 4 != 0 then Refused(INVALID_PARAMETER)
      else if InvalidAddress(s.contents, addr, count) then Refused(INVALID_ADDRESS)
      else if WriteOnly(addr, count) || !MayAccess(s, peer, false) then Refused(ACCESS_DENIED)
      else Ack(BigEndian(addr, 4) + Read(s.contents, s.controller, addr, count), None)
  }

  function WriteMemServed(s: Store, peer: Address, payload: seq<byte>, now: nat): (Store, Reply) {
    if |payload| < 4 then (s, NoReply)
    else
      var addr := FromBigEndian(payload[..4]);
      var data := payload[4..];
      if addr % 4 != 0 || data == [] || |data| % 4 != 0 then (s, Refused(INVALID_PARAMETER))
      else
        match Written(s, peer, addr, data, now)
        case None => (s, Refused(ACCESS_DENIED))
        case Some(next) => (TestTaken(next), Ack(BigEndian(addr, 4), next.contents.pendingTest))
  }

  function Served(s: Store, peer: Address, c: Command, now: nat): (Store, Reply) {
    match c
    case ReadReg(payload) => (s, ReadRegServed(s, peer, payload))
    case WriteReg(payload) => WriteRegServed(s, peer, payload, now)
    case ReadMem(payload) => (s, ReadMemServed(s, peer, payload))
    case WriteMem(payload) => WriteMemServed(s, peer, payload, now)
  }
}
