/**
 What the message channel does over a whole run: no event is lost unseen, every
 message is accounted for, and the wire is the messages in order, each repeated
 as often as it was sent.
 */
module EventRuns {
  import opened Bytes
  import opened EventChannel

  datatype Fate = Pending | Acknowledged | Abandoned

  /** A message as history sees it: its events, its transmissions and what became of it. */
  datatype Record = Record(id: nat, events: seq<Occurred>, sends: nat, fate: Fate)

  /** A run so far: the channel, the messages it made, what went out, and the events it took in. */
  datatype History = History(
    channel: Channel, log: seq<Record>, wire: seq<Transmission>, accepted: seq<Occurred>, occurred: nat)

  const START := History(IDLE, [], [], [], 0)

  function WithLast(log: seq<Record>, r: Record): seq<Record>
    requires log != []
  {
    log[..|log| - 1] + [r]
  }

  /** What a wake-up tells of the outstanding message. */
  function Noted(log: seq<Record>, c: Channel, i: Input): seq<Record> {
    if log == [] then log
    else
      var last := log[|log| - 1];
      match i
      case Arrives(d, from) => if Acks(c, d, from) then WithLast(log, last.(fate := Acknowledged)) else log
      case Timeout(retryCount) =>
        if c.outstanding.None? then log
        else if c.outstanding.value.retries >= retryCount then WithLast(log, last.(fate := Abandoned))
        else WithLast(log, last.(sends := last.sends + 1))
      case _ => log
  }

  function Extended(h: History, i: Input): History
    requires h.channel.requestId < 0x1_0000
  {
    var c := h.channel;
    var (next, sent) := Stepped(c, i);
    var woken := Woken(c, i).0;
    var noted := Noted(h.log, c, i);
    History(
      next,
      if LaunchesAfter(woken, i) then
        noted + [Record(NextId(woken.requestId), woken.queue[..Taken(woken.queue)], 1, Pending)]
      else noted,
      h.wire + sent,
      if i.Occurs? && |c.queue| < QUEUE_CAPACITY then h.accepted + [i.event] else h.accepted,
      h.occurred + if i.Occurs? then 1 else 0)
  }

  function Run(inputs: seq<Input>): (h: History)
    ensures h.channel.requestId < 0x1_0000
  {
    if inputs == [] then START
    else Extended(Run(inputs[..|inputs| - 1]), inputs[|inputs| - 1])
  }

  // ---------------------------------------------------------------- what a log says

  /** The events of the messages, in order. */
  function EventsOf(log: seq<Record>): seq<Occurred> {
    if log == [] then [] else EventsOf(log[..|log| - 1]) + log[|log| - 1].events
  }

  function Repeated(t: Transmission, n: nat): seq<Transmission> {
    if n == 0 then [] else Repeated(t, n - 1) + [t]
  }

  /** A message's datagram: the same bytes every time. */
  function Datagram(r: Record): Transmission
    requires r.events != []
  {
    var m := MessageOf(r.events, r.id);
    Transmission(m.bytes, m.dest)
  }

  predicate Shaped(log: seq<Record>) {
    forall m :: 0 <= m < |log| ==> WellFormed(log[m].events)
  }

  /** The messages one after the other, each as often as it was sent. */
  function WireOf(log: seq<Record>): seq<Transmission>
    requires Shaped(log)
  {
    if log == [] then []
    else WireOf(log[..|log| - 1]) + Repeated(Datagram(log[|log| - 1]), log[|log| - 1].sends)
  }

  function Count(log: seq<Record>, f: Fate): nat {
    if log == [] then 0 else Count(log[..|log| - 1], f) + if log[|log| - 1].fate == f then 1 else 0
  }

  /** The request id of the `m`th message, from 0: 1 to 65535 and round again. */
  function IdOf(m: nat): (id: nat)
    ensures 1 <= id < 0x1_0000
  {
    m % 65535 + 1
  }

  lemma {:induction false} FirstId()
    ensures NextId(0) == IdOf(0)
  {
  }

  lemma {:induction false} NextIdOf(m: nat)
    ensures NextId(IdOf(m)) == IdOf(m + 1)
  {
  }

  // ---------------------------------------------------------------- the invariant

  ghost predicate Numbered(log: seq<Record>) {
    forall m :: 0 <= m < |log| ==> log[m].id == IdOf(m)
  }

  /** Only the last message can be pending, and it is exactly when one is outstanding. */
  ghost predicate OneOutstanding(h: History) {
    && (forall m :: 0 <= m < |h.log| - 1 ==> h.log[m].fate != Pending)
    && (h.channel.outstanding.Some? ==>
          && h.log != []
          && Waiting(h.log[|h.log| - 1], h.channel.outstanding.value))
    && (h.channel.outstanding.None? && h.log != [] ==> h.log[|h.log| - 1].fate != Pending)
  }

  predicate Waiting(r: Record, o: Outstanding) {
    && r.fate == Pending && r.events != [] && r.sends == o.retries + 1
    && o.requestId == r.id
    && o.bytes == MessageOf(r.events, r.id).bytes && o.dest == MessageOf(r.events, r.id).dest
    && o.ackOpcode == MessageOf(r.events, r.id).ackOpcode
  }

  ghost predicate Counted(h: History) {
    var n := h.channel.counters;
    && n.messages == |h.log| && n.transmissions == |h.wire| && n.events == |EventsOf(h.log)|
    && n.acknowledged == Count(h.log, Acknowledged) && n.abandoned == Count(h.log, Abandoned)
    && n.lost + |h.accepted| == h.occurred
  }

  ghost predicate Inv(h: History) {
    && Shaped(h.log) && Numbered(h.log) && OneOutstanding(h) && Counted(h)
    && EventsOf(h.log) + h.channel.queue == h.accepted
    && h.wire == WireOf(h.log)
    && |h.channel.queue| <= QUEUE_CAPACITY
    && (h.channel.queue != [] ==> h.channel.outstanding.Some?)
    && h.channel.requestId == if h.log == [] then 0 else IdOf(|h.log| - 1)
  }

  /** The invariant half way through a step: the queue may wait although nothing is outstanding. */
  ghost predicate Midway(h: History) {
    && Shaped(h.log) && Numbered(h.log) && OneOutstanding(h) && Counted(h)
    && EventsOf(h.log) + h.channel.queue == h.accepted
    && h.wire == WireOf(h.log)
    && |h.channel.queue| <= QUEUE_CAPACITY
    && h.channel.requestId == if h.log == [] then 0 else IdOf(|h.log| - 1)
  }

  function WokenHistory(h: History, i: Input): History {
    var c := h.channel;
    var (woken, again) := Woken(c, i);
    History(
      woken, Noted(h.log, c, i), h.wire + again,
      if i.Occurs? && |c.queue| < QUEUE_CAPACITY then h.accepted + [i.event] else h.accepted,
      h.occurred + if i.Occurs? then 1 else 0)
  }

  // ---------------------------------------------------------------- keeping it

  /** Rewriting the last record's fate or sends keeps everything but what is said of them. */
  lemma {:induction false} LastRewritten(log: seq<Record>, r: Record)
    requires log != [] && Shaped(log) && Numbered(log)
    requires r.id == log[|log| - 1].id && r.events == log[|log| - 1].events
    ensures var next := WithLast(log, r);
            && Shaped(next) && Numbered(next) && |next| == |log|
            && EventsOf(next) == EventsOf(log)
            && WireOf(next) == WireOf(log[..|log| - 1]) + Repeated(Datagram(r), r.sends)
            && (forall f :: Count(next, f) == Count(log[..|log| - 1], f) + if r.fate == f then 1 else 0)
  {
  }

  lemma {:induction false} WakeKeeps(h: History, i: Input)
    requires Inv(h)
    ensures Midway(WokenHistory(h, i))
  {
    hide MessageOf, IsAck, EventsOf, WireOf, Count, WellFormed;
    var next := WokenHistory(h, i);
    match i
    case Occurs(e) =>
      if |h.channel.queue| < QUEUE_CAPACITY {
        Associate(EventsOf(h.log), h.channel.queue, [e]);
      }
      assert next.wire == h.wire;
    case Arrives(d, from) =>
      if Acks(h.channel, d, from) {
        SettleKeeps(h, Acknowledged);
      }
      assert next.wire == h.wire;
    case ReceiveFails =>
      assert next.wire == h.wire;
    case Timeout(retryCount) =>
      if h.channel.outstanding.Some? {
        if h.channel.outstanding.value.retries >= retryCount {
          SettleKeeps(h, Abandoned);
          assert next.wire == h.wire;
        } else {
          ResendKeeps(h);
        }
      } else {
        assert next.wire == h.wire;
      }
  }

  lemma {:induction false} SettleKeeps(h: History, f: Fate)
    requires Inv(h) && h.channel.outstanding.Some? && f != Pending
    ensures var n := h.channel.counters;
            var last := h.log[|h.log| - 1];
            Midway(h.(log := WithLast(h.log, last.(fate := f)),
                      channel := h.channel.(outstanding := None,
                        counters := if f == Acknowledged then n.(acknowledged := n.acknowledged + 1)
                                    else n.(abandoned := n.abandoned + 1))))
  {
    hide MessageOf, EventsOf, WireOf, Count, WellFormed, Repeated;
    var last := h.log[|h.log| - 1];
    LastRewritten(h.log, last);
    LastRewritten(h.log, last.(fate := f));
    assert WithLast(h.log, last) == h.log;
  }

  lemma {:induction false} ResendKeeps(h: History)
    requires Inv(h) && h.channel.outstanding.Some?
    ensures var n := h.channel.counters;
            var o := h.channel.outstanding.value;
            var last := h.log[|h.log| - 1];
            Midway(h.(log := WithLast(h.log, last.(sends := last.sends + 1)),
                      wire := h.wire + [Transmission(o.bytes, o.dest)],
                      channel := h.channel.(outstanding := Some(o.(retries := o.retries + 1)),
                        counters := n.(transmissions := n.transmissions + 1))))
  {
    hide MessageOf, EventsOf, WireOf, Count, WellFormed;
    var last := h.log[|h.log| - 1];
    var o := h.channel.outstanding.value;
    LastRewritten(h.log, last);
    LastRewritten(h.log, last.(sends := last.sends + 1));
    assert WithLast(h.log, last) == h.log;
    var t := Transmission(o.bytes, o.dest);
    assert Datagram(last) == t;
    Associate(WireOf(h.log[..|h.log| - 1]), Repeated(t, last.sends), [t]);
  }

  lemma {:induction false} LogSnoc(log: seq<Record>, r: Record)
    requires Shaped(log) && Numbered(log) && WellFormed(r.events) && r.id == IdOf(|log|)
    ensures var next := log + [r];
            && Shaped(next) && Numbered(next)
            && EventsOf(next) == EventsOf(log) + r.events
            && WireOf(next) == WireOf(log) + Repeated(Datagram(r), r.sends)
            && (forall f :: Count(next, f) == Count(log, f) + if r.fate == f then 1 else 0)
  {
  }

  lemma {:induction false} LaunchKeeps(h: History)
    requires Midway(h) && h.channel.outstanding.None? && h.channel.queue != []
    ensures var c := h.channel;
            var (next, sent) := Launched(c);
            Inv(h.(channel := next, wire := h.wire + sent,
                   log := h.log + [Record(NextId(c.requestId), c.queue[..Taken(c.queue)], 1, Pending)]))
  {
    hide MessageOf, EventsOf, WireOf, Count, WellFormed, Taken, NextId, Repeated;
    var c := h.channel;
    var k := Taken(c.queue);
    var r := Record(NextId(c.requestId), c.queue[..k], 1, Pending);
    TakenIsWellFormed(c.queue);
    FirstId();
    if h.log != [] {
      NextIdOf(|h.log| - 1);
    }
    LogSnoc(h.log, r);
    RepeatedOnce(Datagram(r));
    assert c.queue == c.queue[..k] + c.queue[k..];
    Associate(EventsOf(h.log), c.queue[..k], c.queue[k..]);
    MessageCounts(r.events, r.id);
  }

  lemma {:induction false} RepeatedOnce(t: Transmission)
    ensures Repeated(t, 1) == [t]
  {
  }

  lemma {:induction false} MessageCounts(events: seq<Occurred>, id: nat)
    requires WellFormed(events)
    ensures MessageOf(events, id).events == |events|
  {
  }

  lemma {:induction false} StepKeeps(h: History, i: Input)
    requires Inv(h)
    ensures Inv(Extended(h, i))
  {
    hide Midway, Inv, Noted, Launched, Taken;
    WakeKeeps(h, i);
    var w := WokenHistory(h, i);
    assert h.channel.requestId < 0x1_0000 by { IdleOrNumbered(h); }
    var woken := w.channel;
    if LaunchesAfter(woken, i) {
      LaunchKeeps(w);
      var (next, sent) := Launched(woken);
      Associate(h.wire, Woken(h.channel, i).1, sent);
    } else {
      assert Extended(h, i) == w;
      QuietKeeps(h, i);
    }
  }

  lemma {:induction false} IdleOrNumbered(h: History)
    requires Inv(h)
    ensures h.channel.requestId < 0x1_0000
  {
  }

  lemma {:induction false} QuietKeeps(h: History, i: Input)
    requires Inv(h) && Midway(WokenHistory(h, i)) && !LaunchesAfter(WokenHistory(h, i).channel, i)
    ensures Inv(WokenHistory(h, i))
  {
  }

  /** Every run keeps the invariant. */
  lemma {:induction false} RunKeeps(inputs: seq<Input>)
    ensures Inv(Run(inputs))
    decreases |inputs|
  {
    if inputs == [] {
      assert Inv(START);
    } else {
      RunKeeps(inputs[..|inputs| - 1]);
      StepKeeps(Run(inputs[..|inputs| - 1]), inputs[|inputs| - 1]);
    }
  }
}
