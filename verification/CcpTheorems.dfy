/**
 When the CCP register tells who is in control: exactly as long as no ordinary
 write by the holder lands in it and clears both access bits.
 */
module CcpTheorems {
  import opened Bytes
  import opened GigeRegisters
  import opened Control
  import opened ControlTheorems

  // ---------------------------------------------------------------- the CCP register is a word

  /** A register at CCP is one word. */
  predicate CcpIsWord(regs: seq<Register>) {
    forall i :: 0 <= i < |regs| && regs[i].addr == CCP ==> |regs[i].data| == 4
  }

  predicate NamesNoCcp(saved: seq<Register>) {
    forall i :: 0 <= i < |saved| ==> saved[i].addr != CCP
  }

  /** CCP is there, one word long, and no user set would restore it. */
  ghost predicate Sound(c: Contents) {
    && CcpIsWord(c.regs) && Get(c.regs, CCP).Some?
    && (forall n :: n in c.userSets ==> NamesNoCcp(c.userSets[n]))
  }

  /** An access bit is set in CCP exactly while somebody holds control. */
  ghost predicate Tied(s: Store) {
    Sound(s.contents) && (Word(s.contents, CCP) % 4 != 0 <==> s.controller.Some?)
  }

  lemma {:induction false} CcpWord(c: Contents)
    requires Sound(c)
    ensures |Get(c.regs, CCP).value| == 4
    ensures Word(c, CCP) == FromBigEndian(Get(c.regs, CCP).value)
  {
    hide FromBigEndian;
    GetIsThere(c.regs, CCP);
    var w := Get(c.regs, CCP).value;
    assert Fit(w, 4) == w;
  }

  lemma {:induction false} GetIsThere(regs: seq<Register>, addr: nat)
    requires Get(regs, addr).Some?
    ensures exists i :: 0 <= i < |regs| && regs[i] == Register(addr, Get(regs, addr).value)
    decreases |regs|
  {
    if regs[0].addr == addr {
      assert regs[0] == Register(addr, Get(regs, addr).value);
    } else {
      GetIsThere(regs[1..], addr);
      var i :| 0 <= i < |regs[1..]| && regs[1..][i] == Register(addr, Get(regs[1..], addr).value);
      assert regs[i + 1] == regs[1..][i];
    }
  }

  lemma {:induction false} PutKeepsWord(regs: seq<Register>, addr: nat, data: seq<byte>)
    requires CcpIsWord(regs) && (addr == CCP ==> |data| == 4)
    ensures CcpIsWord(Put(regs, addr, data))
    decreases |regs|
  {
    if regs != [] && regs[0].addr != addr {
      assert forall i :: 0 < i < |regs| ==> regs[1..][i - 1] == regs[i];
      PutKeepsWord(regs[1..], addr, data);
    }
  }

  lemma {:induction false} PutElsewhere(c: Contents, addr: nat, data: seq<byte>)
    requires Sound(c) && addr != CCP
    ensures var d := c.(regs := Put(c.regs, addr, data));
            Sound(d) && Get(d.regs, CCP) == Get(c.regs, CCP)
  {
    hide Get, Put, CcpIsWord;
    PutKeepsWord(c.regs, addr, data);
    GetPut(c.regs, addr, data, CCP);
  }

  // ---------------------------------------------------------------- side effects stay away from it

  /** The same word at CCP, and everything still in order. */
  ghost predicate LeavesCcp(c: Contents, d: Contents) {
    Sound(d) && Get(d.regs, CCP) == Get(c.regs, CCP)
  }

  lemma {:induction false} PutAllLeavesCcp(c: Contents, saved: seq<Register>)
    requires Sound(c) && NamesNoCcp(saved)
    ensures LeavesCcp(c, c.(regs := PutAll(c.regs, saved)))
    decreases |saved|
  {
    hide Get, Put, CcpIsWord;
    if saved != [] {
      var d := c.(regs := Put(c.regs, saved[0].addr, saved[0].data));
      PutElsewhere(c, saved[0].addr, saved[0].data);
      PutAllLeavesCcp(d, saved[1..]);
    }
  }

  lemma {:induction false} SavedNames(regs: seq<Register>, addrs: seq<nat>)
    requires CCP !in addrs
    ensures NamesNoCcp(Saved(regs, addrs))
    decreases |addrs|
  {
    hide Get;
    if addrs != [] {
      SavedNames(regs, addrs[1..]);
    }
  }

  lemma {:induction false} RebinLeavesCcp(
    c: Contents, was: nat, factor: nat, sensor: nat, maximum: nat, size: nat, offset: nat)
    requires Sound(c) && CCP !in {maximum, size, offset}
    ensures LeavesCcp(c, Rebin(c, was, factor, sensor, maximum, size, offset).0)
  {
    hide Get, Put, CcpIsWord, Word, BigEndian, Binning.Rebinned;
    var a := Binning.Rebinned(
      Binning.Axis(Word(c, sensor), was, Word(c, maximum), Word(c, size), Word(c, offset)), Word(c, factor));
    var d := c.(regs := Put(c.regs, maximum, BigEndian(a.maximum, 4)));
    var e := d.(regs := Put(d.regs, size, BigEndian(a.size, 4)));
    PutElsewhere(c, maximum, BigEndian(a.maximum, 4));
    PutElsewhere(d, size, BigEndian(a.size, 4));
    PutElsewhere(e, offset, BigEndian(a.offset, 4));
  }

  lemma {:induction false} LoadLeavesCcp(c: Contents, n: nat)
    requires Sound(c)
    ensures LeavesCcp(c, LoadUserSet(c, n))
  {
    hide Get, Put, CcpIsWord, PutAll, BigEndian;
    if n in c.userSets {
      PutAllLeavesCcp(c, c.userSets[n]);
    } else {
      PutAllLeavesCcp(c, DefaultSet());
    }
  }

  /** No side effect of any write reaches CCP. */
  lemma {:induction false} SideEffectsLeaveCcp(c: Contents, addr: nat, now: nat)
    requires Sound(c)
    ensures LeavesCcp(c, SideEffects(c, addr, now))
  {
    hide Get, Put, CcpIsWord, Word, BigEndian, Rebin, LoadUserSet, Saved;
    if addr == REG_BINNING_HORIZONTAL {
      RebinLeavesCcp(c, c.binning.0, addr, REG_SENSOR_WIDTH, REG_WIDTH_MAX, REG_WIDTH, REG_OFFSET_X);
    } else if addr == REG_BINNING_VERTICAL {
      RebinLeavesCcp(c, c.binning.1, addr, REG_SENSOR_HEIGHT, REG_HEIGHT_MAX, REG_HEIGHT, REG_OFFSET_Y);
    } else if addr == REG_TIMESTAMP_LATCH {
      PutElsewhere(c, REG_TIMESTAMP_VALUE, BigEndian(now, 8));
    } else if addr == REG_USER_SET_LOAD {
      LoadLeavesCcp(c, Word(c, REG_USER_SET_LOAD));
    } else if addr == REG_USER_SET_SAVE {
      SavedNames(c.regs, USER_SET_REGISTERS);
    }
  }

  // ---------------------------------------------------------------- which register a write lands in

  /** The register a write to `addr` lands in: its own, one around it, or a new one. */
  function Target(regs: seq<Register>, addr: nat): nat {
    if Get(regs, addr).Some? then addr
    else
      match Containing(regs, addr)
      case Some(r) => r.addr
      case None => addr
  }

  lemma {:induction false} ContainingIsGet(regs: seq<Register>, addr: nat)
    requires CcpIsWord(regs) && Containing(regs, addr).Some? && Containing(regs, addr).value.addr == CCP
    ensures Get(regs, CCP) == Some(Containing(regs, addr).value.data)
    ensures CCP <= addr < CCP + 4
    decreases |regs|
  {
    var r := Containing(regs, addr).value;
    if regs[0].addr <= addr < regs[0].addr + |regs[0].data| {
    } else {
      assert forall i :: 0 < i < |regs| ==> regs[1..][i - 1] == regs[i];
      ContainingIsGet(regs[1..], addr);
    }
  }

  /** A write that starts outside the CCP word never lands in it. */
  lemma {:induction false} OutsideMisses(regs: seq<Register>, addr: nat)
    requires CcpIsWord(regs) && !(CCP <= addr < CCP + 4)
    ensures Target(regs, addr) != CCP
  {
    hide Get;
    if Get(regs, addr).None? && Containing(regs, addr).Some? && Containing(regs, addr).value.addr == CCP {
      ContainingIsGet(regs, addr);
    }
  }

  /** The word at CCP once `data` is written over it from `addr` on. */
  function Overwritten(c: Contents, addr: nat, data: seq<byte>): nat
    requires Get(c.regs, CCP).Some? && CCP <= addr <= CCP + |Get(c.regs, CCP).value|
  {
    FromBigEndian(Overlaid(Get(c.regs, CCP).value, addr - CCP, data))
  }

  lemma {:induction false} StoredCcp(c: Contents, addr: nat, data: seq<byte>)
    requires Sound(c)
    ensures Sound(Stored(c, addr, data))
    ensures Target(c.regs, addr) != CCP ==> Get(Stored(c, addr, data).regs, CCP) == Get(c.regs, CCP)
    ensures Target(c.regs, addr) == CCP ==>
              && CCP <= addr < CCP + 4 && |Get(c.regs, CCP).value| == 4
              && Word(Stored(c, addr, data), CCP) == Overwritten(c, addr, data)
  {
    hide FromBigEndian, Word, Get, Put, CcpIsWord, Overlaid;
    CcpWord(c);
    if Target(c.regs, addr) != CCP {
      if Get(c.regs, addr).Some? {
        PutElsewhere(c, addr, Overlaid(Get(c.regs, addr).value, 0, data));
      } else if Containing(c.regs, addr).Some? {
        var r := Containing(c.regs, addr).value;
        PutElsewhere(c, r.addr, Overlaid(r.data, addr - r.addr, data));
      } else {
        PutElsewhere(c, addr, data);
      }
    } else {
      if Get(c.regs, addr).None? {
        ContainingIsGet(c.regs, addr);
      }
      var w := Overlaid(Get(c.regs, CCP).value, addr - CCP, data);
      PutKeepsWord(c.regs, CCP, w);
      GetPut(c.regs, CCP, w, CCP);
      CcpWord(Stored(c, addr, data));
    }
  }

  /** Writes with an effect of their own are stored elsewhere or nowhere. */
  lemma {:induction false} WriteCcpWord(c: Contents, addr: nat, data: seq<byte>)
    requires Sound(c)
    ensures Sound(Write(c, addr, data))
    ensures Target(c.regs, addr) != CCP ==> Get(Write(c, addr, data).regs, CCP) == Get(c.regs, CCP)
    ensures Target(c.regs, addr) == CCP ==>
              && CCP <= addr < CCP + 4 && |Get(c.regs, CCP).value| == 4
              && Word(Write(c, addr, data), CCP) == Overwritten(c, addr, data)
  {
    hide FromBigEndian, Word, Get, Stored, CcpIsWord, PacketSizeWord, Overwritten, Target;
    StoredCcp(c, addr, data);
    if addr == PACKET_SIZE && |data| >= 4 {
      OutsideMisses(c.regs, addr);
      var raw := FromBigEndian(data[..4]);
      var asked := c.(pendingTest := if raw / 0x8000_0000 % 2 == 1 then Some(raw % 0x1_0000) else None);
      StoredCcp(asked, addr, PacketSizeWord(data, c.maxPacket));
    } else if addr == REG_EVENT_NOTIFICATION || addr == REG_CHUNK_ENABLE {
      OutsideMisses(c.regs, addr);
    }
  }

  // ---------------------------------------------------------------- one write

  /**
   Whether an accepted write keeps CCP in step: the four-byte write to CCP
   itself, a write that lands in another register, or one that leaves an access
   bit set. A caller sees all three before the write.
   */
  predicate KeepsStep(c: Contents, addr: nat, data: seq<byte>)
    requires Get(c.regs, CCP).Some? && |Get(c.regs, CCP).value| == 4
  {
    || IsCcp(addr, data) || Target(c.regs, addr) != CCP
    || (CCP <= addr < CCP + 4 && Overwritten(c, addr, data) % 4 != 0)
  }

  lemma {:induction false} ClaimedOrRevoked(s: Store, value: nat)
    requires Sound(s.contents) && value < Capacity(4)
    ensures Sound(WithCcp(s, value).contents) && Word(WithCcp(s, value).contents, CCP) == value
  {
    hide Get, Put, CcpIsWord, BigEndian, FromBigEndian, Capacity, Word;
    PutKeepsWord(s.contents.regs, CCP, BigEndian(value, 4));
    GetPut(s.contents.regs, CCP, BigEndian(value, 4), CCP);
    BigEndianRoundTrip(value, 4);
    CcpWord(WithCcp(s, value).contents);
  }

  /** An accepted write keeps CCP in step with who is in control if and only if `KeepsStep` holds. */
  lemma {:induction false} WriteKeepsTied(s: Store, peer: Address, addr: nat, data: seq<byte>, now: nat)
    requires Tied(s) && Written(s, peer, addr, data, now).Some?
    ensures |Get(s.contents.regs, CCP).value| == 4
    ensures Sound(Written(s, peer, addr, data, now).value.contents)
    ensures Tied(Written(s, peer, addr, data, now).value) <==> KeepsStep(s.contents, addr, data)
  {
    CapacityValues();
    hide Get, FromBigEndian, Word, Write, SideEffects, Overwritten, Target, Capacity, WithCcp, CcpIsWord;
    CcpWord(s.contents);
    if IsCcp(addr, data) {
      FromBigEndianBounds(data);
      ClaimedOrRevoked(s, FromBigEndian(data));
      ClaimedOrRevoked(s, 0);
    } else {
      var c := Write(s.contents, addr, data);
      WriteCcpWord(s.contents, addr, data);
      SideEffectsLeaveCcp(c, addr, now);
      CcpWord(c);
      CcpWord(SideEffects(c, addr, now));
    }
  }

  // ---------------------------------------------------------------- commands and runs

  /** Writes that name CCP whole or start outside its word. */
  predicate PairSpares(payload: seq<byte>, i: nat)
    requires 8 * i + 8 <= |payload|
  {
    PairAddr(payload, i) == CCP || !(CCP <= PairAddr(payload, i) < CCP + 4)
  }

  predicate SparesCcp(c: Command) {
    match c
    case WriteReg(payload) => forall i :: 0 <= i < |payload| / 8 ==> PairSpares(payload, i)
    case WriteMem(payload) =>
      |payload| >= 4 ==>
        var addr := FromBigEndian(payload[..4]);
        IsCcp(addr, payload[4..]) || !(CCP <= addr < CCP + 4)
    case _ => true
  }

  lemma {:induction false} SparingWriteKeepsTied(s: Store, peer: Address, addr: nat, data: seq<byte>, now: nat)
    requires Tied(s) && Written(s, peer, addr, data, now).Some?
    requires IsCcp(addr, data) || !(CCP <= addr < CCP + 4)
    ensures Tied(Written(s, peer, addr, data, now).value)
  {
    hide Written, Overwritten, Target, Word;
    WriteKeepsTied(s, peer, addr, data, now);
    if !IsCcp(addr, data) {
      OutsideMisses(s.contents.regs, addr);
    }
  }

  lemma {:induction false} PairsKeepTied(s: Store, peer: Address, payload: seq<byte>, i: nat, now: nat)
    requires Tied(s) && |payload| % 8 == 0 && i <= |payload| / 8 && SparesCcp(WriteReg(payload))
    ensures Tied(PairsWritten(s, peer, payload, i, now).0)
    decreases |payload| / 8 - i
  {
    hide Written, Tied, PairAddr;
    if i < |payload| / 8 {
      assert PairSpares(payload, i);
      var next := Written(s, peer, PairAddr(payload, i), PairData(payload, i), now);
      if next.Some? {
        SparingWriteKeepsTied(s, peer, PairAddr(payload, i), PairData(payload, i), now);
        PairsKeepTied(next.value, peer, payload, i + 1, now);
      }
    }
  }

  lemma {:induction false} TestTakenKeepsTied(s: Store)
    ensures Tied(TestTaken(s)) == Tied(s)
  {
  }

  lemma {:induction false} ServedKeepsTied(s: Store, peer: Address, c: Command, now: nat)
    requires Tied(s) && SparesCcp(c)
    ensures Tied(Served(s, peer, c, now).0)
  {
    hide Written, PairsWritten, ReadRegServed, ReadMemServed, Tied, TestTaken, PairSpares;
    match c
    case WriteReg(payload) =>
      if |payload| >= 8 && |payload| % 8 == 0 {
        PairsKeepTied(s, peer, payload, 0, now);
        TestTakenKeepsTied(PairsWritten(s, peer, payload, 0, now).0);
      }
    case WriteMem(payload) =>
      if |payload| >= 4 {
        var next := Written(s, peer, FromBigEndian(payload[..4]), payload[4..], now);
        if next.Some? {
          SparingWriteKeepsTied(s, peer, FromBigEndian(payload[..4]), payload[4..], now);
          TestTakenKeepsTied(next.value);
        }
      }
    case _ =>
  }

  lemma {:induction false} NotedKeepsTied(s: Store, peer: Address, now: nat)
    requires Tied(s)
    ensures Tied(Noted(s, peer, now))
  {
    CapacityValues();
    hide Expired, Word, WithCcp, Capacity, CcpIsWord, Get;
    ClaimedOrRevoked(s, 0);
  }

  predicate AllSpareCcp(events: seq<Event>) {
    forall i :: 0 <= i < |events| && events[i].Receive? ==> SparesCcp(events[i].command)
  }

  lemma {:induction false} RunKeepsTied(s: Store, now: nat, events: seq<Event>)
    requires Tied(s) && AllSpareCcp(events)
    ensures Tied(LazyRun(s, now, events).store)
    decreases |events|
  {
    hide Served, Tied, Noted, SparesCcp;
    if events != [] {
      var before, e := events[..|events| - 1], events[|events| - 1];
      assert forall i :: 0 <= i < |before| ==> before[i] == events[i];
      RunKeepsTied(s, now, before);
      var r := LazyRun(s, now, before);
      if e.Receive? {
        NotedKeepsTied(r.store, e.peer, r.now);
        ServedKeepsTied(Noted(r.store, e.peer, r.now), e.peer, e.command, r.now);
      }
    }
  }

  /**
   In every run whose writes name CCP whole or start outside its word, CCP reads
   non-zero, and has an access bit set, if and only if somebody holds control.
   */
  lemma {:induction false} CcpTellsControl(s: Store, now: nat, events: seq<Event>)
    requires Tied(s) && CcpClear(s) && AllSpareCcp(events)
    ensures var r := LazyRun(s, now, events).store;
            && (Read(r.contents, r.controller, CCP, 4) != ZERO_WORD <==> r.controller.Some?)
            && (Word(r.contents, CCP) % 4 != 0 <==> r.controller.Some?)
  {
    hide LazyRun, AllSpareCcp, FromBigEndian, Get, CcpIsWord;
    RunKeepsTied(s, now, events);
    RunKeepsClear(s, now, events);
    var r := LazyRun(s, now, events).store;
    if r.controller.None? {
      CcpReadsZero(r);
    } else {
      CcpWord(r.contents);
      var w := Get(r.contents.regs, CCP).value;
      assert Fit(w, 4) == w;
      assert FromBigEndian(ZERO_WORD) == 0 by { ZeroReads(); }
    }
  }

  lemma {:induction false} ZeroReads()
    ensures FromBigEndian(ZERO_WORD) == 0
  {
    CapacityValues();
    ZeroWord();
    BigEndianRoundTrip(0, 4);
  }
}
