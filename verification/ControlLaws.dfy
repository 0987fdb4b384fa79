/** What register commands answer and signal, in the wire's own numbers. */
module ControlLaws {
  import opened Bytes
  import opened GigeRegisters
  import opened Control

  // ---------------------------------------------------------------- reads

  /** A peer is served reads unless another holds control with the exclusive bit set. */
  predicate MayRead(s: Store, peer: Address) {
    s.controller.None? || s.controller.value == peer || Word(s.contents, 0x0A00) % 2 == 0
  }

  lemma {:induction false} WordBehind(word: seq<byte>, rest: seq<byte>, at: nat)
    requires |word| == 4 && at % 4 == 0 && at <= |rest|
    ensures (word + rest)[at..at + 4] == if at == 0 then word else rest[at - 4..at]
  {
    var all := word + rest;
    if at == 0 {
      assert all[0..4] == word;
    } else {
      assert all[at..at + 4] == rest[at - 4..at];
    }
  }

  /** READREG answers every address in turn, each with its own register. */
  lemma {:induction false} RegsReadInOrder(s: Store, payload: seq<byte>, i: nat)
    requires |payload| % 4 == 0 && i <= |payload| / 4 && RegsRead(s, payload, i).Ack?
    ensures var answer := RegsRead(s, payload, i).payload;
            && |answer| == 4 * (|payload| / 4 - i)
            && (forall k :: i <= k < |payload| / 4 ==>
                  answer[4 * (k - i)..4 * (k - i) + 4]
                  == Read(s.contents, s.controller, FromBigEndian(payload[4 * k..4 * k + 4]), 4))
    decreases |payload| / 4 - i
  {
    hide Read, FromBigEndian, ReadRefusal;
    if i < |payload| / 4 {
      RegsReadInOrder(s, payload, i + 1);
      var word := Read(s.contents, s.controller, FromBigEndian(payload[4 * i..4 * i + 4]), 4);
      var rest := RegsRead(s, payload, i + 1).payload;
      var answer := RegsRead(s, payload, i).payload;
      forall k | i <= k < |payload| / 4
        ensures answer[4 * (k - i)..4 * (k - i) + 4]
                == Read(s.contents, s.controller, FromBigEndian(payload[4 * k..4 * k + 4]), 4)
      {
        var at := 4 * (k - i);
        WordBehind(word, rest, at);
        if k > i {
          assert at - 4 == 4 * (k - (i + 1));
          assert rest[4 * (k - (i + 1))..4 * (k - (i + 1)) + 4]
              == Read(s.contents, s.controller, FromBigEndian(payload[4 * k..4 * k + 4]), 4);
        }
        assert answer == word + rest;
      }
    }
  }

  /** Whether READREG may read an address: aligned, on this device, and not write-only. */
  predicate Readable(s: Store, addr: nat) {
    addr % 4 == 0 && !InvalidAddress(s.contents, addr, 4) && !WriteOnly(addr, 4)
  }

  /** Whether a READREG payload's `k`th address may be read. */
  predicate ReadableAt(s: Store, payload: seq<byte>, k: nat)
    requires 4 * k + 4 <= |payload|
  {
    Readable(s, FromBigEndian(payload[4 * k..4 * k + 4]))
  }

  /** READREG is acknowledged when every address may be read. */
  lemma {:induction false} RegsAnswered(s: Store, payload: seq<byte>, i: nat)
    requires |payload| % 4 == 0 && i <= |payload| / 4
    requires forall k :: i <= k < |payload| / 4 ==> ReadableAt(s, payload, k)
    ensures RegsRead(s, payload, i).Ack?
    decreases |payload| / 4 - i
  {
    hide Read, FromBigEndian, InvalidAddress, WriteOnly;
    if i < |payload| / 4 {
      assert ReadableAt(s, payload, i);
      RegsAnswered(s, payload, i + 1);
    }
  }

  /** Otherwise the first address that may not be read says why it is refused. */
  lemma {:induction false} RegsRefused(s: Store, payload: seq<byte>, i: nat, k: nat)
    requires |payload| % 4 == 0 && i <= k < |payload| / 4
    requires !ReadableAt(s, payload, k) && forall m :: i <= m < k ==> ReadableAt(s, payload, m)
    ensures var addr := FromBigEndian(payload[4 * k..4 * k + 4]);
            RegsRead(s, payload, i) == Refused(
              if addr % 4 != 0 then 0x8005 else if InvalidAddress(s.contents, addr, 4) then 0x8003 else 0x8006)
    decreases k - i
  {
    hide Read, FromBigEndian, InvalidAddress, WriteOnly;
    if i < k {
      assert ReadableAt(s, payload, i);
      RegsRefused(s, payload, i + 1, k);
    }
  }

  /** A well-formed READREG from a peer that may not read is refused whole; from one that may, it is read in order. */
  lemma {:induction false} ReadRegAnswers(s: Store, peer: Address, payload: seq<byte>, now: nat)
    requires |payload| >= 4 && |payload| % 4 == 0
    ensures Served(s, peer, ReadReg(payload), now)
            == (s, if MayRead(s, peer) then RegsRead(s, payload, 0) else Refused(0x8006))
  {
    hide RegsRead, Word;
  }

  /** READMEM returns the address and the bytes there when it is aligned, readable, and the peer may read. */
  lemma {:induction false} ReadMemAnswers(s: Store, peer: Address, addr: nat, count: nat, now: nat)
    requires addr < Capacity(4) && count < Capacity(2)
    ensures var payload := BigEndian(addr, 4) + [0, 0] + BigEndian(count, 2);
            Served(s, peer, ReadMem(payload), now) == (s,
              if addr % 4 != 0 || count == 0 || count % 4 != 0 then Refused(0x8002)
              else if InvalidAddress(s.contents, addr, count) then Refused(0x8003)
              else if WriteOnly(addr, count) || !MayRead(s, peer) then Refused(0x8006)
              else Ack(BigEndian(addr, 4) + Read(s.contents, s.controller, addr, count), None))
  {
    hide BigEndian, FromBigEndian, Capacity, InvalidAddress, WriteOnly, Read, Word;
    var payload := BigEndian(addr, 4) + [0, 0] + BigEndian(count, 2);
    assert payload[..4] == BigEndian(addr, 4);
    assert payload[..8] == payload && payload[6..8] == BigEndian(count, 2);
    BigEndianRoundTrip(addr, 4);
    BigEndianRoundTrip(count, 2);
  }

  // ---------------------------------------------------------------- writes

  /** The holder's WRITEMEM to an aligned address other than CCP is taken and acknowledged with its address. */
  lemma {:induction false} HolderWrites(s: Store, peer: Address, addr: nat, data: seq<byte>, now: nat)
    requires s.controller == Some(peer) && addr < Capacity(4) && addr % 4 == 0 && addr != 0x0A00
    requires data != [] && |data| % 4 == 0
    ensures var (next, reply) := Served(s, peer, WriteMem(BigEndian(addr, 4) + data), now);
            var c := SideEffects(Write(s.contents, addr, data), addr, now);
            && next.contents == c.(pendingTest := None) && next.controller == s.controller && next.last == s.last
            && reply == Ack(BigEndian(addr, 4), c.pendingTest)
  {
    hide BigEndian, FromBigEndian, Capacity, SideEffects, Write, Signalled;
    var payload := BigEndian(addr, 4) + data;
    assert payload[..4] == BigEndian(addr, 4) && payload[4..] == data;
    BigEndianRoundTrip(addr, 4);
  }

  /** Acquisition starts with a non-zero word written to 0x20024 and stops with one to 0x20028; nothing else signals. */
  lemma {:induction false} AcquisitionSignals(a: Acquisition, addr: nat, value: nat)
    requires value < Capacity(4)
    ensures Signalled(a, addr, BigEndian(value, 4)) ==
            if value > 0 && addr == 0x20024 then Acquisition(a.starts + 1, false)
            else if value > 0 && addr == 0x20028 then Acquisition(a.starts, true)
            else a
  {
    hide BigEndian, FromBigEndian, Capacity;
    BigEndianRoundTrip(value, 4);
    assert BigEndian(value, 4)[..4] == BigEndian(value, 4);
  }

  /**
   A word written to CCP: refused while another holds control; with either
   access bit set it gives the writer control and starts its timer, with
   neither it leaves nobody in control and CCP at 0.
   */
  lemma {:induction false} CcpDecides(s: Store, peer: Address, value: nat, now: nat)
    requires value < Capacity(4)
    ensures var (next, reply) := Served(s, peer, WriteMem(BigEndian(0x0A00, 4) + BigEndian(value, 4)), now);
            if s.controller.Some? && s.controller.value != peer then next == s && reply == Refused(0x8006)
            else
              && reply == Ack(BigEndian(0x0A00, 4), s.contents.pendingTest)
              && Word(next.contents, 0x0A00) == (if value % 4 != 0 then value else 0)
              && next.controller == (if value % 4 != 0 then Some(peer) else None)
              && next.last == (if value % 4 != 0 then now else s.last)
              && next.acquisition == s.acquisition
              && (forall addr :: addr != 0x0A00 ==> Get(next.contents.regs, addr) == Get(s.contents.regs, addr))
  {
    CapacityValues();
    hide BigEndian, FromBigEndian, Capacity, Get, Put, Word;
    var payload := BigEndian(0x0A00, 4) + BigEndian(value, 4);
    assert payload[..4] == BigEndian(0x0A00, 4) && payload[4..] == BigEndian(value, 4);
    BigEndianRoundTrip(0x0A00, 4);
    BigEndianRoundTrip(value, 4);
    var stored := if value % 4 != 0 then value else 0;
    CcpStored(s, stored);
    CcpStored(s.(controller := None), stored);
    var next := WithCcp(s, stored).contents;
    SameRegs(next, next.(pendingTest := None));
  }

  lemma {:induction false} CcpStored(s: Store, value: nat)
    requires value < Capacity(4)
    ensures Word(WithCcp(s, value).contents, 0x0A00) == value
    ensures forall addr :: addr != 0x0A00 ==>
              Get(WithCcp(s, value).contents.regs, addr) == Get(s.contents.regs, addr)
  {
    hide BigEndian, FromBigEndian, Capacity, Get, Put;
    var data := BigEndian(value, 4);
    forall addr: nat
      ensures Get(Put(s.contents.regs, CCP, data), addr)
              == if addr == CCP then Some(data) else Get(s.contents.regs, addr)
    {
      GetPut(s.contents.regs, CCP, data, addr);
    }
    BigEndianRoundTrip(value, 4);
    assert data[..4] == data;
  }

  lemma {:induction false} SameRegs(c: Contents, d: Contents)
    requires c.regs == d.regs && c.xml == d.xml
    ensures Word(c, 0x0A00) == Word(d, 0x0A00)
  {
    hide FromBigEndian;
  }
}
