/** What the GigE camera's registers promise a host that writes and reads them. */
module GigeRegisterLaws {
  import opened Arithmetic
  import opened Bytes
  import opened GigeRegisters

  /** A register that only stores: no read or write of it is special, and the XML does not cover it. */
  predicate Ordinary(c: Contents, addr: nat) {
    && addr !in {PACKET_SIZE, PRIMARY_PORT, PRIMARY_IP, REG_PAYLOAD_SIZE, REG_EVENT_NOTIFICATION, REG_CHUNK_ENABLE}
    && !(XML_BLOB_BASE <= addr < XML_BLOB_BASE + |c.xml|)
    && Get(c.regs, addr).Some?
  }

  /** What is written to an ordinary register is read back, and no other register moves. */
  lemma {:induction false} WriteReadsBack(
    c: Contents, controller: Option<Address>, addr: nat, data: seq<byte>, other: nat)
    requires Ordinary(c, addr) && |data| == |Get(c.regs, addr).value|
    ensures Read(Write(c, addr, data), controller, addr, |data|) == data
    ensures other != addr ==> Get(Write(c, addr, data).regs, other) == Get(c.regs, other)
  {
    assert Overlaid(Get(c.regs, addr).value, 0, data) == data;
    GetPut(c.regs, addr, data, addr);
    GetPut(c.regs, addr, data, other);
    hide Get, Put;
  }

  // ---------------------------------------------------------------- the packet size

  function Capped(size: nat, maxPacket: Option<nat>): nat {
    if maxPacket.Some? then Min(size, maxPacket.value) else size
  }

  /**
   The packet size reads back as what was asked for, at most the device's
   maximum; the do-not-fragment bit stays, every other flag is gone, and the
   fire bit asks for one test packet of the size asked for.
   */
  lemma {:induction false} PacketSizeReadsBack(c: Contents, controller: Option<Address>, raw: nat)
    requires raw < Capacity(4)
    requires Get(c.regs, PACKET_SIZE).Some? && |Get(c.regs, PACKET_SIZE).value| == 4
    ensures var d := Write(c, PACKET_SIZE, BigEndian(raw, 4));
            && FromBigEndian(Read(d, controller, PACKET_SIZE, 4))
               == raw / 0x4000_0000 % 2 * 0x4000_0000 + Capped(raw % 0x1_0000, c.maxPacket)
            && d.pendingTest == if raw >= 0x8000_0000 then Some(raw % 0x1_0000) else None
  {
    CapacityValues();
    hide Capacity, BigEndian, FromBigEndian, Get, Put;
    var data := BigEndian(raw, 4);
    assert data[..4] == data;
    BigEndianRoundTrip(raw, 4);
    var flag, size := raw / 0x4000_0000 % 2 * 0x4000_0000, raw % 0x1_0000;
    SizeApart(flag / 0x4000_0000, size);
    var word := PacketSizeWord(data, c.maxPacket);
    assert word == BigEndian(flag + Capped(size, c.maxPacket), 4);
    BigEndianRoundTrip(flag + Capped(size, c.maxPacket), 4);
    assert Overlaid(Get(c.regs, PACKET_SIZE).value, 0, word) == word;
    GetPut(c.regs, PACKET_SIZE, word, PACKET_SIZE);
    assert Get(Write(c, PACKET_SIZE, data).regs, PACKET_SIZE) == Some(word) && Fit(word, 4) == word;
  }

  lemma {:induction false} SizeApart(flag: nat, size: nat)
    requires flag < 2 && size < 0x1_0000
    ensures (flag * 0x4000_0000 + size) % 0x1_0000 == size
  {
  }

  // ---------------------------------------------------------------- selected features

  /** Switching one event on or off leaves every other event as it was, and reads back as written. */
  lemma {:induction false} NotificationIsPerEvent(c: Contents, controller: Option<Address>, value: nat, event: nat)
    requires value < Capacity(4) && |c.xml| <= 0x1_0000
    ensures var d := Write(c, REG_EVENT_NOTIFICATION, BigEndian(value, 4));
            var selected := Word(c, REG_EVENT_SELECTOR) % 0x1_0000;
            && (event in d.enabledEvents <==> if event == selected then value != 0 else event in c.enabledEvents)
            && FromBigEndian(Read(d, controller, REG_EVENT_NOTIFICATION, 4)) == Flag(value != 0)
            && d.regs == c.regs
  {
    CapacityValues();
    hide Capacity, BigEndian, FromBigEndian;
    assert BigEndian(value, 4)[..4] == BigEndian(value, 4);
    BigEndianRoundTrip(value, 4);
    var d := Write(c, REG_EVENT_NOTIFICATION, BigEndian(value, 4));
    assert Word(d, REG_EVENT_SELECTOR) == Word(c, REG_EVENT_SELECTOR);
    BigEndianRoundTrip(Flag(value != 0), 4);
    assert Fit(BigEndian(Flag(value != 0), 4), 4) == BigEndian(Flag(value != 0), 4);
  }

  /** The same of chunks. */
  lemma {:induction false} EnableIsPerChunk(c: Contents, controller: Option<Address>, value: nat, chunk: nat)
    requires value < Capacity(4) && |c.xml| <= 0x1_0000
    ensures var d := Write(c, REG_CHUNK_ENABLE, BigEndian(value, 4));
            var selected := Word(c, REG_CHUNK_SELECTOR);
            && (chunk in d.enabledChunks <==> if chunk == selected then value != 0 else chunk in c.enabledChunks)
            && FromBigEndian(Read(d, controller, REG_CHUNK_ENABLE, 4)) == Flag(value != 0)
            && d.regs == c.regs
  {
    CapacityValues();
    hide Capacity, BigEndian, FromBigEndian;
    assert BigEndian(value, 4)[..4] == BigEndian(value, 4);
    BigEndianRoundTrip(value, 4);
    var d := Write(c, REG_CHUNK_ENABLE, BigEndian(value, 4));
    assert Word(d, REG_CHUNK_SELECTOR) == Word(c, REG_CHUNK_SELECTOR);
    BigEndianRoundTrip(Flag(value != 0), 4);
    assert Fit(BigEndian(Flag(value != 0), 4), 4) == BigEndian(Flag(value != 0), 4);
  }

  // ---------------------------------------------------------------- user sets

  predicate Distinct(addrs: seq<nat>) {
    forall i, j :: 0 <= i < j < |addrs| ==> addrs[i] != addrs[j]
  }

  lemma {:induction false} SavedRestores(regs: seq<Register>, from: seq<Register>, addrs: seq<nat>, addr: nat)
    requires Distinct(addrs)
    ensures Get(PutAll(regs, Saved(from, addrs)), addr)
            == if addr in addrs && Get(from, addr).Some? then Get(from, addr) else Get(regs, addr)
    decreases |addrs|
  {
    hide Get, Put;
    if addrs != [] {
      var a, rest := addrs[0], addrs[1..];
      assert forall i :: 0 < i < |addrs| ==> addrs[i] == rest[i - 1];
      assert addr in addrs <==> addr == a || addr in rest;
      var was := Get(from, a);
      if was.Some? {
        assert Saved(from, addrs)[1..] == Saved(from, rest);
        SavedRestores(Put(regs, a, was.value), from, rest, addr);
        GetPut(regs, a, was.value, addr);
      } else {
        SavedRestores(regs, from, rest, addr);
      }
    }
  }

  /**
   A user set restores what was saved: whatever the registers became since,
   loading the set brings back the saved settings and changes nothing else.
   */
  lemma {:induction false} UserSetRestores(saved: Contents, later: Contents, now: nat, addr: nat)
    requires var n := Word(saved, REG_USER_SET_SAVE);
             && n != 0 && n in later.userSets
             && later.userSets[n] == SideEffects(saved, REG_USER_SET_SAVE, now).userSets[n]
    ensures Get(LoadUserSet(later, Word(saved, REG_USER_SET_SAVE)).regs, addr)
            == if addr in {0x20030, 0x20038, 0x20040, 0x20048} && Get(saved.regs, addr).Some? then Get(saved.regs, addr)
               else Get(later.regs, addr)
  {
    hide Get, Put, Word, PutAll, Saved;
    SavedRestores(later.regs, saved.regs, USER_SET_REGISTERS, addr);
  }

  /** A set that was never saved loads the settings the camera boots with, 5000.0 of exposure and no gain. */
  lemma {:induction false} UnsavedSetIsDefault(c: Contents, n: nat, addr: nat)
    requires n !in c.userSets
    ensures Get(LoadUserSet(c, n).regs, addr)
            == if addr == 0x20030 then Some([0x40, 0xB3, 0x88, 0, 0, 0, 0, 0])
               else if addr == 0x20040 then Some([0, 0, 0, 0, 0, 0, 0, 0])
               else if addr == 0x20038 || addr == 0x20048 then Some([0, 0, 0, 0])
               else Get(c.regs, addr)
  {
    ZeroBytes();
    var d := DefaultSet();
    var a := Put(c.regs, d[0].addr, d[0].data);
    var b := Put(a, d[1].addr, d[1].data);
    var e := Put(b, d[2].addr, d[2].data);
    GetPut(c.regs, d[0].addr, d[0].data, addr);
    GetPut(a, d[1].addr, d[1].data, addr);
    GetPut(b, d[2].addr, d[2].data, addr);
    GetPut(e, d[3].addr, d[3].data, addr);
    hide BigEndian, Get, Put;
    assert PutAll(c.regs, d) == PutAll(a, d[1..]);
    assert PutAll(a, d[1..]) == PutAll(b, d[1..][1..]) && d[1..][1..] == [d[2], d[3]];
    assert PutAll(b, [d[2], d[3]]) == PutAll(e, [d[3]]) by { assert [d[2], d[3]][1..] == [d[3]]; }
    assert PutAll(e, [d[3]]) == Put(e, d[3].addr, d[3].data) by { assert [d[3]][1..] == []; }
  }

  lemma {:induction false} ZeroBytes()
    ensures BigEndian(0, 4) == [0, 0, 0, 0] && BigEndian(0, 8) == [0, 0, 0, 0, 0, 0, 0, 0]
  {
    assert BigEndian(0, 0) == [] && BigEndian(0, 1) == [0] && BigEndian(0, 2) == [0, 0] && BigEndian(0, 3) == [0, 0, 0];
    assert BigEndian(0, 5) == [0, 0, 0, 0, 0] && BigEndian(0, 6) == [0, 0, 0, 0, 0, 0];
  }

  // ---------------------------------------------------------------- commands

  /** A save to set 0 does nothing; one to another set leaves every register and every other set as it was. */
  lemma {:induction false} SaveTouchesItsSet(c: Contents, now: nat, other: nat)
    ensures var n := Word(c, 0x200B4);
            var d := SideEffects(c, 0x200B4, now);
            && d == c.(userSets := d.userSets)
            && (n == 0 ==> d.userSets == c.userSets)
            && (n != 0 ==> n in d.userSets)
            && (other != n ==> (other in d.userSets <==> other in c.userSets)
                               && (other in c.userSets ==> d.userSets[other] == c.userSets[other]))
  {
    hide Word, Saved;
  }

  /** A latch makes the timestamp register read the time it was written at. */
  lemma {:induction false} LatchReadsBack(c: Contents, controller: Option<Address>, now: nat, other: nat)
    requires now < Capacity(8) && |c.xml| <= 0x1_0000
    ensures var d := SideEffects(c, 0x20070, now);
            && FromBigEndian(Read(d, controller, 0x20068, 8)) == now
            && (other != 0x20068 ==> Get(d.regs, other) == Get(c.regs, other))
  {
    hide BigEndian, FromBigEndian, Capacity, Get, Put;
    BigEndianRoundTrip(now, 8);
    GetPut(c.regs, 0x20068, BigEndian(now, 8), 0x20068);
    GetPut(c.regs, 0x20068, BigEndian(now, 8), other);
    assert Fit(BigEndian(now, 8), 8) == BigEndian(now, 8);
  }

  /** A software trigger always counts, and waits for a frame only while FrameStart is selected. */
  lemma {:induction false} TriggerCounts(c: Contents, now: nat)
    ensures var d := SideEffects(c, 0x200E0, now);
            && d == c.(softwareTriggers := c.softwareTriggers + 1, pendingTriggers := d.pendingTriggers)
            && d.pendingTriggers == if Word(c, 0x200C0) == 0 then c.pendingTriggers + 1 else c.pendingTriggers
  {
    hide Word;
  }

  // ---------------------------------------------------------------- what a read may touch

  predicate Within(x: nat, addr: nat, len: nat) {
    addr <= x < addr + len
  }

  /** A stretch of memory and a register that share a byte. */
  ghost predicate ShareByte(addr: nat, len: nat, reg: nat) {
    exists x :: Within(x, addr, len) && Within(x, reg, 4)
  }

  lemma {:induction false} TouchesByByte(addr: nat, len: nat, reg: nat)
    requires len > 0
    ensures Touches(addr, len, reg) <==> ShareByte(addr, len, reg)
  {
    if Touches(addr, len, reg) {
      var x := Max(addr, reg);
      assert Within(x, addr, len) && Within(x, reg, 4);
    }
  }

  /** What is write-only is what shares a byte with one of the seven command registers. */
  lemma {:induction false} CommandsAreWriteOnly(addr: nat, len: nat)
    requires len > 0
    ensures WriteOnly(addr, len)
            <==> exists reg :: reg in {0x20024, 0x20028, 0x20070, 0x200AC, 0x200B0, 0x200B4, 0x200E0}
                               && ShareByte(addr, len, reg)
  {
    hide ShareByte, Touches;
    TouchesByByte(addr, len, 0x20024);
    TouchesByByte(addr, len, 0x20028);
    TouchesByByte(addr, len, 0x20070);
    TouchesByByte(addr, len, 0x200AC);
    TouchesByByte(addr, len, 0x200B0);
    TouchesByByte(addr, len, 0x200B4);
    TouchesByByte(addr, len, 0x200E0);
    if reg :| reg in {0x20024, 0x20028, 0x20070, 0x200AC, 0x200B0, 0x200B4, 0x200E0} && ShareByte(addr, len, reg) {
      var i := if reg == 0x20024 then 0 else if reg == 0x20028 then 1 else if reg == 0x20070 then 2
               else if reg == 0x200AC then 3 else if reg == 0x200B0 then 4 else if reg == 0x200B4 then 5 else 6;
      assert Touches(addr, len, WRITE_ONLY[i]);
    }
    if i :| 0 <= i < |WRITE_ONLY| && Touches(addr, len, WRITE_ONLY[i]) {
      assert WRITE_ONLY[i] in {0x20024, 0x20028, 0x20070, 0x200AC, 0x200B0, 0x200B4, 0x200E0};
    }
  }

  /** Without capability bit 27 the controller's port and address are no registers of the device. */
  lemma {:induction false} ControllerNeedsCapability(c: Contents, addr: nat, len: nat)
    requires len > 0
    ensures InvalidAddress(c, addr, len)
            <==> Word(c, 0x0934) / 0x0800_0000 % 2 == 0
                 && (ShareByte(addr, len, 0x0A04) || ShareByte(addr, len, 0x0A14))
  {
    hide Word, Touches, ShareByte;
    TouchesByByte(addr, len, PRIMARY_PORT);
    TouchesByByte(addr, len, PRIMARY_IP);
  }

  // ---------------------------------------------------------------- what a read returns

  /** Reads inside the XML return it, byte for byte. */
  lemma {:induction false} XmlReads(c: Contents, controller: Option<Address>, at: nat, len: nat)
    requires len > 0 && at + len <= |c.xml|
    ensures Read(c, controller, 0x1_0000 + at, len) == c.xml[at..at + len]
  {
    assert c.xml[at..][..len] == c.xml[at..at + len];
  }

  /** The port and the address of whoever holds control can be read, 0 while nobody does. */
  lemma {:induction false} HolderIsShown(c: Contents, controller: Option<Address>)
    requires controller.Some? ==> controller.value.port < Capacity(4) && controller.value.ip < Capacity(4)
    ensures FromBigEndian(Read(c, controller, 0x0A04, 4)) == (if controller.Some? then controller.value.port else 0)
    ensures FromBigEndian(Read(c, controller, 0x0A14, 4)) == (if controller.Some? then controller.value.ip else 0)
  {
    CapacityValues();
    hide BigEndian, FromBigEndian, Capacity;
    var port := if controller.Some? then controller.value.port else 0;
    var ip := if controller.Some? then controller.value.ip else 0;
    BigEndianRoundTrip(port, 4);
    BigEndianRoundTrip(ip, 4);
    assert BigEndian(port, 4)[..4] == BigEndian(port, 4) && BigEndian(ip, 4)[..4] == BigEndian(ip, 4);
  }
}
