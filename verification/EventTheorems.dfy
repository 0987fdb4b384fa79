/** The message channel's promises, for every run. */
module EventTheorems {
  import opened Bytes
  import opened EventChannel
  import opened EventRuns

  function Occurrences(inputs: seq<Input>): nat {
    if inputs == [] then 0
    else Occurrences(inputs[..|inputs| - 1]) + if inputs[|inputs| - 1].Occurs? then 1 else 0
  }

  lemma {:induction false} OccurredCounts(inputs: seq<Input>)
    ensures Run(inputs).occurred == Occurrences(inputs)
    decreases |inputs|
  {
    hide Stepped, Woken;
    if inputs != [] {
      OccurredCounts(inputs[..|inputs| - 1]);
    }
  }

  lemma {:induction false} FatesAddUp(log: seq<Record>)
    ensures Count(log, Pending) + Count(log, Acknowledged) + Count(log, Abandoned) == |log|
    ensures (forall m :: 0 <= m < |log| ==> log[m].fate != Pending) ==> Count(log, Pending) == 0
    decreases |log|
  {
    if log != [] {
      FatesAddUp(log[..|log| - 1]);
    }
  }

  /**
   Every event that occurred was lost, sent, or is queued; every message was
   acknowledged, given up, or is outstanding.
   */
  lemma {:induction false} EverythingIsCounted(inputs: seq<Input>)
    ensures var c := Run(inputs).channel;
            && Occurrences(inputs) == c.counters.lost + c.counters.events + |c.queue|
            && c.counters.messages
               == c.counters.acknowledged + c.counters.abandoned + (if c.outstanding.Some? then 1 else 0)
  {
    RunKeeps(inputs);
    OccurredCounts(inputs);
    hide Run, EventsOf, WireOf, MessageOf, WellFormed;
    var h := Run(inputs);
    FatesAddUp(h.log);
    if h.log != [] {
      FatesAddUp(h.log[..|h.log| - 1]);
    }
  }

  /**
   The events of the messages, in order, and then the queue, are exactly the
   accepted events in order; the queue holds at most sixteen, and only while a
   message is outstanding; each message is one data event or at most eight bare
   ones for one destination; the wire is the messages in order, each the same
   datagram as often as it was sent.
   */
  lemma {:induction false} EventsLeaveInOrder(inputs: seq<Input>)
    ensures var h := Run(inputs);
            && EventsOf(h.log) + h.channel.queue == h.accepted
            && |h.channel.queue| <= 16 && (forall m :: 0 <= m < |h.log| ==> 1 <= |h.log[m].events| <= 8)
            && (h.channel.queue != [] ==> h.channel.outstanding.Some?)
            && Shaped(h.log) && h.wire == WireOf(h.log)
            && |h.wire| == h.channel.counters.transmissions
            && |h.log| == h.channel.counters.messages
  {
    RunKeeps(inputs);
  }

  /** An event is lost only when sixteen wait already; otherwise it joins the queue's end, and may leave at once. */
  lemma {:induction false} EventsQueue(c: Channel, e: Occurred)
    ensures |c.queue| >= 16 ==>
              Woken(c, Occurs(e)) == (c.(counters := c.counters.(lost := c.counters.lost + 1)), [])
    ensures |c.queue| < 16 ==> Woken(c, Occurs(e)) == (c.(queue := c.queue + [e]), [])
  {
  }

  // ---------------------------------------------------------------- acknowledgements

  /**
   Only a datagram from where the message went, with a zero status, the
   message's own opcode and its request id, settles it; any other, however like
   it, leaves the channel as it was and sends nothing.
   */
  lemma {:induction false} OnlyItsAckSettles(c: Channel, d: seq<byte>, from: Address)
    requires c.outstanding.Some? && c.requestId < 0x1_0000
    ensures var o := c.outstanding.value;
            if from == o.dest && |d| >= 8 && d[0] == 0 && d[1] == 0
               && FromBigEndian(d[2..4]) == o.ackOpcode && FromBigEndian(d[6..8]) == o.requestId then
              Woken(c, Arrives(d, from))
              == (c.(outstanding := None, counters := c.counters.(acknowledged := c.counters.acknowledged + 1)), [])
            else Stepped(c, Arrives(d, from)) == (c, [])
  {
    hide FromBigEndian;
    if |d| >= 8 {
      assert d[0..2] == [d[0], d[1]];
    }
  }

  /** A bare message asks for opcode 0x00C1 back, a data message for 0x00C3. */
  lemma {:induction false} MessagesAskFor(events: seq<Occurred>, id: nat)
    requires events != []
    ensures var m := MessageOf(events, id);
            && m.dest == events[0].dest
            && m.ackOpcode == (if events[0].data.Some? then 0x00C3 else 0x00C1)
            && m.bytes[..4] == [0x42, 0x01] + BigEndian(if events[0].data.Some? then 0x00C2 else 0x00C0, 2)
  {
    hide BigEndian, Entry, Entries;
  }

  // ---------------------------------------------------------------- request ids

  /** Two messages have the same request id exactly when they are a multiple of 65535 apart. */
  lemma {:induction false} IdsRepeat(m: nat, k: nat)
    ensures IdOf(m) == IdOf(m + k) <==> k % 65535 == 0
  {
  }

  lemma {:induction false} OutstandingId(h: History)
    requires Inv(h) && h.channel.outstanding.Some?
    ensures h.log != [] && h.channel.outstanding.value.requestId == IdOf(|h.log| - 1)
  {
  }

  /** A datagram that acknowledges message `m` is ignored while any of the next 65534 is outstanding. */
  lemma {:induction false} StaleAckIsIgnored(inputs: seq<Input>, d: seq<byte>, from: Address, opcode: nat, m: nat)
    requires Run(inputs).channel.outstanding.Some?
    requires IsAck(d, opcode, IdOf(m)) && m < |Run(inputs).log| - 1 <= m + 65534
    ensures Woken(Run(inputs).channel, Arrives(d, from)) == (Run(inputs).channel, [])
  {
    hide Run, Inv, IdOf, FromBigEndian;
    RunKeeps(inputs);
    var h := Run(inputs);
    OutstandingId(h);
    IdsRepeat(m, |h.log| - 1 - m);
  }

  /** 65535 messages later the id is the same, so that is as far as the guarantee goes. */
  lemma {:induction false} AckOfTheSameIdIsTaken(inputs: seq<Input>, d: seq<byte>, m: nat)
    requires Run(inputs).channel.outstanding.Some?
    requires |Run(inputs).log| - 1 == m + 65535
    requires IsAck(d, Run(inputs).channel.outstanding.value.ackOpcode, IdOf(m))
    ensures Woken(Run(inputs).channel, Arrives(d, Run(inputs).channel.outstanding.value.dest)).0.outstanding.None?
  {
    hide Run, Inv, IdOf, IsAck;
    RunKeeps(inputs);
    OutstandingId(Run(inputs));
    IdsRepeat(m, 65535);
  }

  // ---------------------------------------------------------------- retries

  predicate FixedRetries(inputs: seq<Input>, r: nat) {
    forall i :: 0 <= i < |inputs| && inputs[i].Timeout? ==> inputs[i].retryCount == r
  }

  predicate Within(rec: Record, r: nat) {
    1 <= rec.sends <= r + 1 && (rec.fate == Abandoned ==> rec.sends == r + 1)
  }

  predicate AllWithin(log: seq<Record>, r: nat) {
    forall m :: 0 <= m < |log| ==> Within(log[m], r)
  }

  lemma {:induction false} NotedWithin(h: History, i: Input, r: nat)
    requires Inv(h) && AllWithin(h.log, r)
    requires i.Timeout? ==> i.retryCount == r
    ensures AllWithin(Noted(h.log, h.channel, i), r)
  {
  }

  /** With a fixed retry count no message is sent more than `r + 1` times, and one is given up exactly then. */
  lemma {:induction false} SendsAreBounded(inputs: seq<Input>, r: nat)
    requires FixedRetries(inputs, r)
    ensures AllWithin(Run(inputs).log, r)
    decreases |inputs|
  {
    hide Stepped, Woken, Noted, Inv, Taken, NextId;
    if inputs != [] {
      var before, i := inputs[..|inputs| - 1], inputs[|inputs| - 1];
      assert forall k :: 0 <= k < |before| ==> before[k] == inputs[k];
      SendsAreBounded(before, r);
      RunKeeps(before);
      NotedWithin(Run(before), i, r);
      assert Within(Record(0, [], 1, Pending), r);
    }
  }

  lemma {:induction false} RepeatedLength(t: Transmission, n: nat)
    ensures |Repeated(t, n)| == n
  {
    if n > 0 {
      RepeatedLength(t, n - 1);
    }
  }

  lemma {:induction false} WireLength(log: seq<Record>, r: nat)
    requires Shaped(log) && AllWithin(log, r)
    ensures |log| <= |WireOf(log)| <= (r + 1) * |log|
    decreases |log|
  {
    hide Datagram, Repeated;
    if log != [] {
      var front, last := log[..|log| - 1], log[|log| - 1];
      WireLength(front, r);
      RepeatedLength(Datagram(last), last.sends);
      assert Within(last, r);
      assert (r + 1) * |log| == (r + 1) * |front| + (r + 1);
    }
  }

  /** Transmissions are at least the messages and at most `r + 1` times as many. */
  lemma {:induction false} TransmissionsAreBounded(inputs: seq<Input>, r: nat)
    requires FixedRetries(inputs, r)
    ensures var n := Run(inputs).channel.counters;
            n.messages <= n.transmissions <= (r + 1) * n.messages
  {
    RunKeeps(inputs);
    SendsAreBounded(inputs, r);
    WireLength(Run(inputs).log, r);
    hide Run, WireOf, AllWithin;
  }
}
