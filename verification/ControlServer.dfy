/** The register server as it runs: the shared register map, changed pair by pair. */
module ControlServer {
  import opened Bytes
  import opened GigeRegisters
  import opened Control

  class RegisterMap {
    var contents: Contents
    var controller: Option<Address>
    var lastRegisterCommand: nat
    var acquisition: Acquisition
    const enforceHeartbeat: bool

    ghost function State(): Store
      reads this
    {
      Store(contents, controller, lastRegisterCommand, enforceHeartbeat, acquisition)
    }

    constructor (contents: Contents, enforceHeartbeat: bool, now: nat)
      ensures State() == Store(contents, None, now, enforceHeartbeat, Acquisition(0, false))
    {
      this.contents := contents;
      this.controller := None;
      this.lastRegisterCommand := now;
      this.acquisition := Acquisition(0, false);
      this.enforceHeartbeat := enforceHeartbeat;
    }

    method RevokeControl()
      modifies this
      ensures State() == Revoked(old(State()))
    {
      controller := None;
      contents := contents.(regs := Put(contents.regs, CCP, BigEndian(0, 4)));
    }

    method NoteRegisterCommand(peer: Address, now: nat) returns (revoked: bool)
      modifies this
      ensures State() == Noted(old(State()), peer, now)
      ensures revoked == Expired(old(State()), now)
    {
      var timeout := Word(contents, HEARTBEAT_TIMEOUT) * 1_000_000;
      revoked := enforceHeartbeat && controller.Some? && timeout != 0 && now > lastRegisterCommand + timeout;
      if revoked {
        RevokeControl();
      }
      if controller == Some(peer) {
        lastRegisterCommand := now;
      }
    }

    method WriteCcp(peer: Address, value: nat, now: nat) returns (accepted: bool)
      modifies this
      ensures accepted == CcpWritten(old(State()), peer, value, now).Some?
      ensures State() == if accepted then CcpWritten(old(State()), peer, value, now).value else old(State())
    {
      if controller.Some? && controller.value != peer {
        return false;
      }
      if value % 4 != 0 {
        controller := Some(peer);
        lastRegisterCommand := now;
        contents := contents.(regs := Put(contents.regs, CCP, BigEndian(value, 4)));
      } else {
        RevokeControl();
      }
      return true;
    }

    method WriteChecked(peer: Address, addr: nat, data: seq<byte>, now: nat) returns (accepted: bool)
      modifies this
      ensures accepted == Written(old(State()), peer, addr, data, now).Some?
      ensures State() == if accepted then Written(old(State()), peer, addr, data, now).value else old(State())
    {
      hide Write, SideEffects;
      if addr == CCP && |data| == 4 {
        accepted := WriteCcp(peer, FromBigEndian(data), now);
        return;
      }
      if controller != Some(peer) {
        return false;
      }
      contents := Write(contents, addr, data);
      contents := SideEffects(contents, addr, now);
      CheckAcquisition(addr, data);
      return true;
    }

    method CheckAcquisition(addr: nat, data: seq<byte>)
      modifies this`acquisition
      ensures acquisition == Signalled(old(acquisition), addr, data)
    {
      if addr == REG_ACQ_START && |data| >= 4 {
        if FromBigEndian(data[..4]) != 0 {
          acquisition := Acquisition(acquisition.starts + 1, false);
        }
      } else if addr == REG_ACQ_STOP && |data| >= 4 {
        if FromBigEndian(data[..4]) != 0 {
          acquisition := acquisition.(stop := true);
        }
      }
    }

    method TakeTestPacket() returns (size: Option<nat>)
      modifies this
      ensures State() == TestTaken(old(State())) && size == old(contents.pendingTest)
    {
      size := contents.pendingTest;
      contents := contents.(pendingTest := None);
    }

    method HandleWriteReg(peer: Address, payload: seq<byte>, now: nat) returns (reply: Reply)
      modifies this
      ensures (State(), reply) == WriteRegServed(old(State()), peer, payload, now)
    {
      hide Written, PairAddr;
      if |payload| < 8 || |payload| % 8 != 0 {
        return NoReply;
      }
      for i := 0 to |payload| / 8
        invariant PairsWritten(State(), peer, payload, i, now) == PairsWritten(old(State()), peer, payload, 0, now)
      {
        var accepted := WriteChecked(peer, PairAddr(payload, i), PairData(payload, i), now);
        if !accepted {
          return Refused(ACCESS_DENIED);
        }
      }
      var test := TakeTestPacket();
      return Ack(BigEndian(0, 4), test);
    }

    method HandleReadReg(peer: Address, payload: seq<byte>) returns (reply: Reply)
      ensures reply == ReadRegServed(State(), peer, payload)
    {
      hide Read, ReadRefusal, Word, FromBigEndian;
      if |payload| < 4 || |payload| % 4 != 0 {
        return NoReply;
      }
      if !(controller.None? || controller.value == peer || Word(contents, CCP) % 2 == 0) {
        return Refused(ACCESS_DENIED);
      }
      var data: seq<byte> := [];
      ghost var all := RegsRead(State(), payload, 0);
      for i := 0 to |payload| / 4
        invariant match RegsRead(State(), payload, i)
                  case Ack(rest, _) => all == Ack(data + rest, None)
                  case other => all == other
      {
        var addr := FromBigEndian(payload[4 * i..4 * i + 4]);
        var refusal := ReadRefusal(contents, addr);
        if refusal.Some? {
          return Refused(refusal.value);
        }
        var word := Read(contents, controller, addr, 4);
        ghost var next := RegsRead(State(), payload, i + 1);
        if next.Ack? {
          Associate(data, word, next.payload);
        }
        data := data + word;
      }
      assert data + [] == data;
      return Ack(data, None);
    }

    method HandleReadMem(peer: Address, payload: seq<byte>) returns (reply: Reply)
      ensures reply == ReadMemServed(State(), peer, payload)
    {
      if |payload| < 8 {
        return NoReply;
      }
      var addr := FromBigEndian(payload[..4]);
      var count := FromBigEndian(payload[6..8]);
      if addr % 4 != 0 || count == 0 || count % 4 != 0 {
        return Refused(INVALID_PARAMETER);
      }
      if InvalidAddress(contents, addr, count) {
        return Refused(INVALID_ADDRESS);
      }
      if WriteOnly(addr, count) || !(controller.None? || controller.value == peer || Word(contents, CCP) % 2 == 0) {
        return Refused(ACCESS_DENIED);
      }
      return Ack(BigEndian(addr, 4) + Read(contents, controller, addr, count), None);
    }

    method HandleWriteMem(peer: Address, payload: seq<byte>, now: nat) returns (reply: Reply)
      modifies this
      ensures (State(), reply) == WriteMemServed(old(State()), peer, payload, now)
    {
      hide Written;
      if |payload| < 4 {
        return NoReply;
      }
      var addr := FromBigEndian(payload[..4]);
      var data := payload[4..];
      if addr % 4 != 0 || data == [] || |data| % 4 != 0 {
        return Refused(INVALID_PARAMETER);
      }
      var accepted := WriteChecked(peer, addr, data, now);
      if !accepted {
        return Refused(ACCESS_DENIED);
      }
      var test := TakeTestPacket();
      return Ack(BigEndian(addr, 4), test);
    }

    /** A register command as it arrives: the heartbeat rule first, then the command. */
    method Handle(peer: Address, c: Command, now: nat) returns (reply: Reply)
      modifies this
      ensures (State(), reply) == Served(Noted(old(State()), peer, now), peer, c, now)
    {
      hide WriteRegServed, WriteMemServed, ReadRegServed, ReadMemServed, Noted;
      var _ := NoteRegisterCommand(peer, now);
      match c
      case ReadReg(payload) => reply := HandleReadReg(peer, payload);
      case WriteReg(payload) => reply := HandleWriteReg(peer, payload, now);
      case ReadMem(payload) => reply := HandleReadMem(peer, payload);
      case WriteMem(payload) => reply := HandleWriteMem(peer, payload, now);
    }
  }
}
