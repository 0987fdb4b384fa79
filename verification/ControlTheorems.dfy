/** What the control privilege guarantees, command by command and over every timed run. */
module ControlTheorems {
  import opened Bytes
  import opened GigeRegisters
  import opened Control

  // ---------------------------------------------------------------- another peer's commands

  predicate HeldByOther(s: Store, peer: Address) {
    s.controller.Some? && s.controller.value != peer
  }

  /** While one peer holds control, no command of another changes anything, the timer included. */
  lemma {:induction false} OthersChangeNothing(s: Store, peer: Address, c: Command, now: nat)
    requires HeldByOther(s, peer)
    ensures Served(s, peer, c, now).0 == s
    ensures c.WriteReg? || c.WriteMem? ==> !Served(s, peer, c, now).1.Ack?
  {
  }

  /** With the exclusive bit another peer is not served a read either. */
  lemma {:induction false} ExclusiveBlocksReads(s: Store, peer: Address, c: Command, now: nat)
    requires HeldByOther(s, peer) && Word(s.contents, CCP) % 2 == 1
    ensures !Served(s, peer, c, now).1.Ack?
  {
  }

  // ---------------------------------------------------------------- nobody in control

  const ZERO_WORD: seq<byte> := [0, 0, 0, 0]

  /** While nobody holds control the CCP register holds zero. */
  predicate CcpClear(s: Store) {
    s.controller.None? ==> Get(s.contents.regs, CCP) == Some(ZERO_WORD)
  }

  lemma {:induction false} ZeroWord()
    ensures BigEndian(0, 4) == ZERO_WORD
  {
  }

  /** ... and so it reads zero, whoever asks. */
  lemma {:induction false} CcpReadsZero(s: Store)
    requires CcpClear(s) && s.controller.None?
    ensures Read(s.contents, s.controller, CCP, 4) == ZERO_WORD
  {
  }

  lemma {:induction false} RevokedIsClear(s: Store)
    ensures Revoked(s).controller.None? && CcpClear(Revoked(s))
    ensures CcpClear(s) && s.controller.None? ==> Revoked(s) == s
  {
    ZeroWord();
    GetPut(s.contents.regs, CCP, ZERO_WORD, CCP);
    if CcpClear(s) && s.controller.None? {
      PutSame(s.contents.regs, CCP, ZERO_WORD);
    }
  }

  lemma {:induction false} WrittenIsClear(s: Store, peer: Address, addr: nat, data: seq<byte>, now: nat)
    requires CcpClear(s) && Written(s, peer, addr, data, now).Some?
    ensures CcpClear(Written(s, peer, addr, data, now).value)
  {
    hide Write, SideEffects;
    RevokedIsClear(s);
  }

  lemma {:induction false} PairsKeepClear(s: Store, peer: Address, payload: seq<byte>, i: nat, now: nat)
    requires CcpClear(s) && |payload| % 8 == 0 && i <= |payload| / 8
    ensures CcpClear(PairsWritten(s, peer, payload, i, now).0)
    decreases |payload| / 8 - i
  {
    hide Written, CcpClear, PairAddr;
    if i < |payload| / 8 {
      var next := Written(s, peer, PairAddr(payload, i), PairData(payload, i), now);
      if next.Some? {
        WrittenIsClear(s, peer, PairAddr(payload, i), PairData(payload, i), now);
        PairsKeepClear(next.value, peer, payload, i + 1, now);
      }
    }
  }

  lemma {:induction false} ServedKeepsClear(s: Store, peer: Address, c: Command, now: nat)
    requires CcpClear(s)
    ensures CcpClear(Served(s, peer, c, now).0)
  {
    hide Written, PairsWritten, ReadRegServed, ReadMemServed;
    match c
    case WriteReg(payload) =>
      if |payload| >= 8 && |payload| % 8 == 0 {
        PairsKeepClear(s, peer, payload, 0, now);
      }
    case WriteMem(payload) =>
      if |payload| >= 4 && Written(s, peer, FromBigEndian(payload[..4]), payload[4..], now).Some? {
        WrittenIsClear(s, peer, FromBigEndian(payload[..4]), payload[4..], now);
      }
    case _ =>
  }

  /** A pair that gives control up, and one that claims it. */
  predicate IsRelease(addr: nat, data: seq<byte>) {
    IsCcp(addr, data) && FromBigEndian(data) % 4 == 0
  }

  predicate IsClaim(addr: nat, data: seq<byte>) {
    IsCcp(addr, data) && FromBigEndian(data) % 4 != 0
  }

  /** Nobody in control: a write is taken only if it is to CCP, and changes something only if it claims. */
  lemma {:induction false} NobodyWrites(s: Store, peer: Address, addr: nat, data: seq<byte>, now: nat)
    requires s.controller.None? && CcpClear(s)
    ensures Written(s, peer, addr, data, now) ==
            if IsClaim(addr, data) then
              Some(WithCcp(s, FromBigEndian(data)).(controller := Some(peer), last := now))
            else if IsRelease(addr, data) then Some(s)
            else None
  {
    RevokedIsClear(s);
  }

  /** The first pair from `i` on that claims, with only releases before it; the pair count if there is none. */
  function FirstClaim(payload: seq<byte>, i: nat): (k: nat)
    requires |payload| % 8 == 0 && i <= |payload| / 8
    ensures i <= k <= |payload| / 8
    ensures k < |payload| / 8 ==> IsClaim(PairAddr(payload, k), PairData(payload, k))
    decreases |payload| / 8 - i
  {
    if i == |payload| / 8 || IsClaim(PairAddr(payload, i), PairData(payload, i)) then i
    else if IsRelease(PairAddr(payload, i), PairData(payload, i)) then FirstClaim(payload, i + 1)
    else |payload| / 8
  }

  /** Nobody in control: a WRITEREG does nothing before its first claim, and nothing at all without one. */
  lemma {:induction false} NobodyWritesPairs(s: Store, peer: Address, payload: seq<byte>, i: nat, now: nat)
    requires s.controller.None? && CcpClear(s) && |payload| % 8 == 0 && i <= |payload| / 8
    ensures var k := FirstClaim(payload, i);
            PairsWritten(s, peer, payload, i, now).0 ==
            if k == |payload| / 8 then s
            else PairsWritten(WithCcp(s, FromBigEndian(PairData(payload, k))).(controller := Some(peer), last := now),
                              peer, payload, k + 1, now).0
    decreases |payload| / 8 - i
  {
    hide Written, PairAddr, PairData, WithCcp, CcpClear, IsClaim, IsRelease;
    if i < |payload| / 8 {
      NobodyWrites(s, peer, PairAddr(payload, i), PairData(payload, i), now);
      if IsRelease(PairAddr(payload, i), PairData(payload, i)) && !IsClaim(PairAddr(payload, i), PairData(payload, i)) {
        NobodyWritesPairs(s, peer, payload, i + 1, now);
      }
    }
  }

  /** Whether a command holds a claim that is reached with nobody in control. */
  predicate Claims(c: Command) {
    match c
    case WriteReg(payload) => |payload| >= 8 && |payload| % 8 == 0 && FirstClaim(payload, 0) < |payload| / 8
    case WriteMem(payload) => |payload| >= 4 && IsClaim(FromBigEndian(payload[..4]), payload[4..])
    case _ => false
  }

  /**
   Nobody in control: a command without a claim changes no register. (A test
   packet some earlier write asked for may still be fired.)
   */
  lemma {:induction false} OnlyAClaimWrites(s: Store, peer: Address, c: Command, now: nat)
    requires s.controller.None? && CcpClear(s) && !Claims(c)
    ensures Served(s, peer, c, now).0 == s || Served(s, peer, c, now).0 == TestTaken(s)
    ensures Served(s, peer, c, now).0.controller.None?
  {
    hide Written, PairsWritten, ReadRegServed, ReadMemServed, FirstClaim, IsClaim, IsRelease;
    match c
    case WriteReg(payload) =>
      if |payload| >= 8 && |payload| % 8 == 0 {
        NobodyWritesPairs(s, peer, payload, 0, now);
      }
    case WriteMem(payload) =>
      if |payload| >= 4 {
        NobodyWrites(s, peer, FromBigEndian(payload[..4]), payload[4..], now);
      }
    case _ =>
  }

  // ---------------------------------------------------------------- WRITEREG stops at the first refusal

  /** All the pairs from `i` up to `k`, one after the other, none refused. */
  function AllWritten(s: Store, peer: Address, payload: seq<byte>, i: nat, k: nat, now: nat): Option<Store>
    requires |payload| % 8 == 0 && i <= k <= |payload| / 8
    decreases k - i
  {
    if i == k then Some(s)
    else
      match Written(s, peer, PairAddr(payload, i), PairData(payload, i), now)
      case None => None
      case Some(next) => AllWritten(next, peer, payload, i + 1, k, now)
  }

  /** What is applied is exactly the pairs before the first refused one. */
  lemma {:induction false} PrefixApplied(s: Store, peer: Address, payload: seq<byte>, i: nat, now: nat)
    requires |payload| % 8 == 0 && i <= |payload| / 8
    ensures var (next, k) := PairsWritten(s, peer, payload, i, now);
            && AllWritten(s, peer, payload, i, k, now) == Some(next)
            && (k < |payload| / 8 ==> Written(next, peer, PairAddr(payload, k), PairData(payload, k), now).None?)
    ensures forall k :: i <= k < |payload| / 8 && AllWritten(s, peer, payload, i, k + 1, now).None?
                        && AllWritten(s, peer, payload, i, k, now).Some? ==>
              PairsWritten(s, peer, payload, i, now) == (AllWritten(s, peer, payload, i, k, now).value, k)
    decreases |payload| / 8 - i
  {
    hide Written, PairAddr;
    if i < |payload| / 8 {
      var next := Written(s, peer, PairAddr(payload, i), PairData(payload, i), now);
      if next.Some? {
        PrefixApplied(next.value, peer, payload, i + 1, now);
      }
    }
  }

  // ---------------------------------------------------------------- the heartbeat

  datatype Event = Tick | Receive(peer: Address, command: Command)

  datatype Run = Run(store: Store, now: nat, replies: seq<Reply>)

  /** The camera: time passes unnoticed, and each register command looks at the clock first. */
  function Lazy(r: Run, e: Event): Run {
    match e
    case Tick => r.(now := r.now + 1)
    case Receive(peer, c) =>
      var (next, reply) := Served(Noted(r.store, peer, r.now), peer, c, r.now);
      Run(next, r.now, r.replies + [reply])
  }

  /** A device with a running timer: control is revoked the instant the timeout passes. */
  function Eager(r: Run, e: Event): Run {
    match e
    case Tick => r.(now := r.now + 1, store := Settled(r.store, r.now + 1))
    case Receive(peer, c) =>
      var (next, reply) := Served(Refreshed(r.store, peer, r.now), peer, c, r.now);
      Run(next, r.now, r.replies + [reply])
  }

  function LazyRun(s: Store, now: nat, events: seq<Event>): Run {
    if events == [] then Run(s, now, [])
    else Lazy(LazyRun(s, now, events[..|events| - 1]), events[|events| - 1])
  }

  function EagerRun(s: Store, now: nat, events: seq<Event>): Run {
    if events == [] then Run(Settled(s, now), now, [])
    else Eager(EagerRun(s, now, events[..|events| - 1]), events[|events| - 1])
  }

  /** A holder whose command just ran, or that was left alone, is not expired. */
  predicate Fresh(s: Store, now: nat) {
    s.controller.Some? ==> s.last == now
  }

  lemma {:induction false} PairsLeaveFresh(s: Store, peer: Address, payload: seq<byte>, i: nat, now: nat)
    requires Fresh(s, now) && |payload| % 8 == 0 && i <= |payload| / 8
    ensures Fresh(PairsWritten(s, peer, payload, i, now).0, now)
    ensures PairsWritten(s, peer, payload, i, now).0.enforce == s.enforce
    decreases |payload| / 8 - i
  {
    hide SideEffects, Write, PairAddr, Put;
    if i < |payload| / 8 {
      var next := Written(s, peer, PairAddr(payload, i), PairData(payload, i), now);
      if next.Some? {
        PairsLeaveFresh(next.value, peer, payload, i + 1, now);
      }
    }
  }

  lemma {:induction false} ServedLeavesFresh(s: Store, peer: Address, c: Command, now: nat)
    requires Fresh(s, now)
    ensures Fresh(Served(s, peer, c, now).0, now)
  {
    hide ReadRegServed, ReadMemServed, SideEffects, Write, PairsWritten, Put;
    match c
    case WriteReg(payload) =>
      if |payload| >= 8 && |payload| % 8 == 0 {
        PairsLeaveFresh(s, peer, payload, 0, now);
      }
    case _ =>
  }

  /** After a command nothing is left to expire at that instant. */
  lemma {:induction false} ServedIsSettled(s: Store, peer: Address, c: Command, now: nat)
    requires !Expired(s, now)
    ensures Settled(Served(Refreshed(s, peer, now), peer, c, now).0, now)
            == Served(Refreshed(s, peer, now), peer, c, now).0
  {
    hide Served, Timeout, Revoked;
    if HeldByOther(s, peer) {
      OthersChangeNothing(s, peer, c, now);
    } else {
      ServedLeavesFresh(Refreshed(s, peer, now), peer, c, now);
    }
  }

  lemma {:induction false} SettleLater(s: Store, now: nat)
    ensures !Expired(Settled(s, now), now)
    ensures Settled(Settled(s, now), now + 1) == Settled(s, now + 1)
  {
  }

  /**
   Lazy expiry refines an eager timer: over every timed run of register commands
   from any peers each reply is the one a device with a running timer gives, and
   the stores agree once the clock is looked at.
   */
  lemma {:induction false} LazyIsEager(s: Store, now: nat, events: seq<Event>)
    ensures var lazy, eager := LazyRun(s, now, events), EagerRun(s, now, events);
            && lazy.replies == eager.replies && lazy.now == eager.now
            && eager.store == Settled(lazy.store, lazy.now)
    decreases |events|
  {
    hide Served, Settled, Refreshed, Expired;
    if events != [] {
      var before, e := events[..|events| - 1], events[|events| - 1];
      LazyIsEager(s, now, before);
      var lazy := LazyRun(s, now, before);
      SettleLater(lazy.store, lazy.now);
      if e.Receive? {
        ServedIsSettled(Settled(lazy.store, lazy.now), e.peer, e.command, lazy.now);
      }
    }
  }

  /** In every run, while nobody holds control CCP is clear. */
  lemma {:induction false} RunKeepsClear(s: Store, now: nat, events: seq<Event>)
    requires CcpClear(s)
    ensures CcpClear(LazyRun(s, now, events).store)
    decreases |events|
  {
    hide Served, CcpClear, Revoked;
    if events != [] {
      var before, e := events[..|events| - 1], events[|events| - 1];
      RunKeepsClear(s, now, before);
      var r := LazyRun(s, now, before);
      if e.Receive? {
        NotedIsClear(r.store, e.peer, r.now);
        ServedKeepsClear(Noted(r.store, e.peer, r.now), e.peer, e.command, r.now);
      }
    }
  }

  lemma {:induction false} NotedIsClear(s: Store, peer: Address, now: nat)
    requires CcpClear(s)
    ensures CcpClear(Noted(s, peer, now))
  {
    hide Expired;
    RevokedIsClear(s);
  }

  /** The heartbeat register's word, in milliseconds. */
  function Window(s: Store): nat {
    Word(s.contents, HEARTBEAT_TIMEOUT)
  }

  /** Control lapses when the rule is armed, the register is not 0, and that many milliseconds have gone by. */
  predicate Lapsed(s: Store, now: nat) {
    s.enforce && Window(s) > 0 && now > s.last + Window(s) * 1_000_000
  }

  /** Inside the window the holder's own command restarts its timer, and another peer's changes nothing. */
  lemma {:induction false} CommandsInTime(s: Store, holder: Address, peer: Address, now: nat)
    requires s.controller == Some(holder) && !Lapsed(s, now)
    ensures Noted(s, peer, now) == if peer == holder then s.(last := now) else s
  {
    hide Word;
  }

  /** A holder that comes back too late finds its ordinary write refused, and control given up. */
  lemma {:induction false} LateHolderIsRefused(s: Store, peer: Address, payload: seq<byte>, now: nat)
    requires s.controller == Some(peer) && Lapsed(s, now)
    requires |payload| >= 8 && |payload| % 4 == 0 && FromBigEndian(payload[..4]) % 4 == 0
    requires !IsCcp(FromBigEndian(payload[..4]), payload[4..])
    ensures Served(Noted(s, peer, now), peer, WriteMem(payload), now) == (Revoked(s), Refused(ACCESS_DENIED))
  {
    hide Word, FromBigEndian, Put;
  }

  /** A late WRITEREG likewise, unless it starts with a write to CCP. */
  lemma {:induction false} LateHolderIsRefusedPairs(s: Store, peer: Address, payload: seq<byte>, now: nat)
    requires s.controller == Some(peer) && Lapsed(s, now)
    requires |payload| >= 8 && |payload| % 8 == 0 && PairAddr(payload, 0) != CCP
    ensures Served(Noted(s, peer, now), peer, WriteReg(payload), now) == (Revoked(s), Refused(ACCESS_DENIED))
  {
    hide Word, FromBigEndian, Put;
    assert Written(Revoked(s), peer, PairAddr(payload, 0), PairData(payload, 0), now).None?;
  }

  // ---------------------------------------------------------------- a holder that falls silent

  predicate Silent(events: seq<Event>, peer: Address) {
    forall i :: 0 <= i < |events| && events[i].Receive? ==> events[i].peer != peer
  }

  /** Time that passes in a run. */
  function Ticks(events: seq<Event>): nat {
    if events == [] then 0
    else Ticks(events[..|events| - 1]) + if events[|events| - 1].Tick? then 1 else 0
  }

  /** A command leaves control with the holder it found or with the peer that sent it. */
  lemma {:induction false} ControlGoesToTheSender(s: Store, peer: Address, c: Command, now: nat)
    ensures var next := Served(s, peer, c, now).0;
            next.controller == s.controller || next.controller == None || next.controller == Some(peer)
  {
    hide ReadRegServed, ReadMemServed, SideEffects, Write, PairsWritten, Put;
    match c
    case WriteReg(payload) =>
      if |payload| >= 8 && |payload| % 8 == 0 {
        PairsGoToTheSender(s, peer, payload, 0, now);
      }
    case _ =>
  }

  lemma {:induction false} PairsGoToTheSender(s: Store, peer: Address, payload: seq<byte>, i: nat, now: nat)
    requires |payload| % 8 == 0 && i <= |payload| / 8
    ensures PairsWritten(s, peer, payload, i, now).0.controller in {s.controller, None, Some(peer)}
    decreases |payload| / 8 - i
  {
    hide SideEffects, Write, PairAddr, Put;
    if i < |payload| / 8 {
      var next := Written(s, peer, PairAddr(payload, i), PairData(payload, i), now);
      if next.Some? {
        PairsGoToTheSender(next.value, peer, payload, i + 1, now);
      }
    }
  }

  /**
   Nobody else's commands keep a silent holder's privilege alive. In a run with
   no command of its own it keeps control, its registers untouched, exactly
   while no more milliseconds have gone by since its last one than the heartbeat
   register holds - for ever, if that is 0 or the rule is not armed.
   */
  lemma {:induction false} SilentHolderLoses(s: Store, now: nat, events: seq<Event>, holder: Address)
    requires s.controller == Some(holder) && Silent(events, holder)
    requires s.enforce && Word(s.contents, HEARTBEAT_TIMEOUT) > 0 ==>
               now <= s.last + Word(s.contents, HEARTBEAT_TIMEOUT) * 1_000_000
    ensures var r := EagerRun(s, now, events);
            var w := Word(s.contents, HEARTBEAT_TIMEOUT);
            && r.now == now + Ticks(events)
            && (if !s.enforce || w == 0 || now + Ticks(events) <= s.last + w * 1_000_000 then r.store == s
                else r.store.controller != Some(holder))
    decreases |events|
  {
    hide Served, Word, Revoked;
    if events != [] {
      var before, e := events[..|events| - 1], events[|events| - 1];
      assert forall i :: 0 <= i < |before| ==> before[i] == events[i];
      SilentHolderLoses(s, now, before, holder);
      var r := EagerRun(s, now, before);
      match e
      case Tick =>
        RevokedIsNobodys(r.store);
      case Receive(peer, c) =>
        if r.store == s {
          OthersChangeNothing(s, peer, c, r.now);
        } else {
          ControlGoesToTheSender(Refreshed(r.store, peer, r.now), peer, c, r.now);
        }
    }
  }

  /**
   So on the camera itself: the holder's next command after such a run finds it
   in control exactly when it comes within the window.
   */
  lemma {:induction false} HolderReturns(s: Store, now: nat, events: seq<Event>, holder: Address)
    requires s.controller == Some(holder) && Silent(events, holder)
    requires s.enforce && Word(s.contents, HEARTBEAT_TIMEOUT) > 0 ==>
               now <= s.last + Word(s.contents, HEARTBEAT_TIMEOUT) * 1_000_000
    ensures var r := LazyRun(s, now, events);
            var w := Word(s.contents, HEARTBEAT_TIMEOUT);
            Noted(r.store, holder, r.now).controller == Some(holder)
            <==> !s.enforce || w == 0 || now + Ticks(events) <= s.last + w * 1_000_000
  {
    hide LazyRun, EagerRun, Word, Expired, Silent;
    SilentHolderLoses(s, now, events, holder);
    LazyIsEager(s, now, events);
  }

  lemma {:induction false} RevokedIsNobodys(s: Store)
    ensures Revoked(s).controller.None?
  {
  }

  // ---------------------------------------------------------------- CCP is not the whole story

  /**
   The converse of `CcpReadsZero` fails: an eight-byte write over CCP is an
   ordinary one, so a holder can clear the register and still hold control.
   */
  lemma {:induction false} HolderCanClearCcp(s: Store, peer: Address, now: nat)
    requires s.controller == Some(peer)
    requires Get(s.contents.regs, CCP).Some? && |Get(s.contents.regs, CCP).value| == 4
    ensures var next := Written(s, peer, CCP, [0, 0, 0, 0, 0, 0, 0, 0], now);
            && next.Some? && next.value.controller == Some(peer)
            && Read(next.value.contents, next.value.controller, CCP, 4) == ZERO_WORD
  {
    var data: seq<byte> := [0, 0, 0, 0, 0, 0, 0, 0];
    var was := Get(s.contents.regs, CCP).value;
    assert Overlaid(was, 0, data) == ZERO_WORD;
    GetPut(s.contents.regs, CCP, ZERO_WORD, CCP);
  }
}
