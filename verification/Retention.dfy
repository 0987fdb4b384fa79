/**
 The resend cache: the packets of the last few blocks as they were built, and
 how a PACKETRESEND request is read and answered from them.
 */
module Retention {
  import opened Bytes
  import opened Gvsp

  datatype ResendRequest = ResendRequest(
    channel: nat, blockId: nat, first: nat, last: nat, extendedIds: bool)

  // ---------------------------------------------------------------- requests

  /** The request in a PACKETRESEND payload of 12 bytes, or 20 with extended ids; shorter ones hold none. */
  function ParseRequest(extendedIds: bool, p: seq<byte>): Option<ResendRequest> {
    if extendedIds then
      if |p| < 20 then None
      else Some(ResendRequest(FromBigEndian(p[0..2]), FromBigEndian(p[12..20]),
                              FromBigEndian(p[4..8]), FromBigEndian(p[8..12]), true))
    else
      if |p| < 12 then None
      else Some(ResendRequest(FromBigEndian(p[0..2]), FromBigEndian(p[2..4]),
                              FromBigEndian(p[4..8]) % 0x100_0000, FromBigEndian(p[8..12]) % 0x100_0000, false))
  }

  /** A request laid out by the field table of the command. */
  function EncodeRequest(r: ResendRequest): seq<byte> {
    if r.extendedIds then
      BigEndian(r.channel, 2) + [0, 0] + BigEndian(r.first, 4) + BigEndian(r.last, 4)
      + BigEndian(r.blockId, 8)
    else
      BigEndian(r.channel, 2) + BigEndian(r.blockId, 2) + BigEndian(r.first, 4) + BigEndian(r.last, 4)
  }

  /** The ids a layout can carry. */
  predicate Expressible(r: ResendRequest) {
    && r.channel < Capacity(2)
    && r.blockId < (if r.extendedIds then Capacity(8) else Capacity(2))
    && r.first < (if r.extendedIds then Capacity(4) else Capacity(3))
    && r.last < (if r.extendedIds then Capacity(4) else Capacity(3))
  }

  lemma {:induction false} RequestRoundTrip(r: ResendRequest)
    requires Expressible(r)
    ensures ParseRequest(r.extendedIds, EncodeRequest(r)) == Some(r)
  {
    var p := EncodeRequest(r);
    CapacityValues();
    hide BigEndian, FromBigEndian, Capacity;
    assert p[0..2] == BigEndian(r.channel, 2);
    assert p[4..8] == BigEndian(r.first, 4);
    assert p[8..12] == BigEndian(r.last, 4);
    BigEndianRoundTrip(r.channel, 2);
    BigEndianRoundTrip(r.first, 4);
    BigEndianRoundTrip(r.last, 4);
    if r.extendedIds {
      assert p[12..20] == BigEndian(r.blockId, 8);
      BigEndianRoundTrip(r.blockId, 8);
    } else {
      assert p[2..4] == BigEndian(r.blockId, 2);
      BigEndianRoundTrip(r.blockId, 2);
    }
  }

  // ---------------------------------------------------------------- the cache, specified

  /** A block as held: packet bytes by packet id; an empty entry is one never given. */
  datatype Held = Held(blockId: nat, packets: seq<seq<byte>>)

  function WithoutBlock(h: seq<Held>, id: nat): (r: seq<Held>) {
    if h == [] then []
    else if h[0].blockId == id then WithoutBlock(h[1..], id)
    else [h[0]] + WithoutBlock(h[1..], id)
  }

  function Newest(h: seq<Held>, n: nat): (r: seq<Held>)
    ensures |r| <= n
  {
    if |h| <= n then h else h[|h| - n..]
  }

  /** What one retention does to the cache. */
  function Retained(blocks: seq<Held>, capacity: nat, e: Held): seq<Held> {
    if capacity == 0 then blocks
    else Newest(WithoutBlock(blocks, e.blockId), capacity - 1) + [e]
  }

  function RetainedAll(capacity: nat, history: seq<Held>): seq<Held> {
    if history == [] then []
    else Retained(RetainedAll(capacity, history[..|history| - 1]), capacity, history[|history| - 1])
  }

  /** Whether a later entry has the first one's block id. */
  predicate RetainedAgain(h: seq<Held>)
    requires h != []
  {
    exists i :: 0 < i < |h| && h[i].blockId == h[0].blockId
  }

  /** The entries of a history that no later one replaces, oldest first. */
  function LastOfEach(h: seq<Held>): seq<Held>
    decreases |h|
  {
    if h == [] then []
    else if RetainedAgain(h) then LastOfEach(h[1..])
    else [h[0]] + LastOfEach(h[1..])
  }

  // ---------------------------------------------------------------- its laws

  lemma {:induction false} WithoutAppend(a: seq<Held>, b: seq<Held>, id: nat)
    ensures WithoutBlock(a + b, id) == WithoutBlock(a, id) + WithoutBlock(b, id)
  {
    if a == [] {
      assert a + b == b;
    } else {
      WithoutAppend(a[1..], b, id);
      assert (a + b)[1..] == a[1..] + b;
      Associate([a[0]], WithoutBlock(a[1..], id), WithoutBlock(b, id));
    }
  }

  lemma {:induction false} WithoutAbsent(h: seq<Held>, id: nat)
    requires forall i :: 0 <= i < |h| ==> h[i].blockId != id
    ensures WithoutBlock(h, id) == h
  {
    if h != [] {
      WithoutAbsent(h[1..], id);
    }
  }

  ghost predicate DistinctIds(h: seq<Held>) {
    forall i, j :: 0 <= i < j < |h| ==> h[i].blockId != h[j].blockId
  }

  /** Adding an entry to a history drops the older one of its block. */
  lemma {:induction false} LastOfEachSnoc(h: seq<Held>, e: Held)
    ensures LastOfEach(h + [e]) == WithoutBlock(LastOfEach(h), e.blockId) + [e]
    decreases |h|
  {
    if h == [] {
      assert h + [e] == [e] && [e][1..] == [];
    } else {
      var g := h + [e];
      LastOfEachSnoc(h[1..], e);
      assert g[1..] == h[1..] + [e];
      assert RetainedAgain(g) <==> RetainedAgain(h) || e.blockId == h[0].blockId by {
        assert g[|h|] == e && forall i :: 0 <= i < |h| ==> g[i] == h[i];
      }
      var rest := LastOfEach(h[1..]);
      if !RetainedAgain(h) {
        assert ([h[0]] + rest)[1..] == rest;
      }
    }
  }

  lemma {:induction false} LastOfEachDistinct(h: seq<Held>)
    ensures DistinctIds(LastOfEach(h))
    ensures forall i :: 0 <= i < |LastOfEach(h)| ==> LastOfEach(h)[i] in h
    decreases |h|
  {
    if h != [] {
      LastOfEachDistinct(h[1..]);
      var rest := LastOfEach(h[1..]);
      forall i | 0 <= i < |rest| ensures rest[i] in h {
        assert rest[i] in h[1..];
      }
      if !RetainedAgain(h) {
        forall i | 0 <= i < |rest| ensures rest[i].blockId != h[0].blockId {
          assert rest[i] in h[1..];
          var k :| 0 <= k < |h[1..]| && h[1..][k] == rest[i];
          assert h[k + 1] == h[1..][k];
        }
      }
    }
  }

  /** The newest of a list whose end is long enough are the newest of that end. */
  lemma {:induction false} NewestOfEnd(a: seq<Held>, b: seq<Held>, n: nat)
    requires |b| >= n
    ensures Newest(a + b, n) == Newest(b, n)
  {
    if |a + b| > n {
      assert (a + b)[|a + b| - n..] == b[|b| - n..];
      assert |b| == n ==> b[0..] == b;
    } else {
      assert a + b == b;
    }
  }

  /** Cutting to the newest before or after one block is taken out leaves the same newest. */
  lemma {:induction false} NewestWithout(h: seq<Held>, id: nat, capacity: nat)
    requires capacity > 0 && DistinctIds(h)
    ensures Newest(WithoutBlock(Newest(h, capacity), id), capacity - 1)
            == Newest(WithoutBlock(h, id), capacity - 1)
  {
    hide WithoutBlock;
    if |h| > capacity {
      var k := |h| - capacity;
      var older, newer := h[..k], h[k..];
      assert h == older + newer;
      WithoutAppend(older, newer, id);
      WithoutLoses(newer, id);
      NewestOfEnd(WithoutBlock(older, id), WithoutBlock(newer, id), capacity - 1);
    }
  }

  lemma {:induction false} WithoutLoses(h: seq<Held>, id: nat)
    requires DistinctIds(h)
    ensures |WithoutBlock(h, id)| >= |h| - 1
  {
    if h != [] {
      if h[0].blockId == id {
        WithoutAbsent(h[1..], id);
      } else {
        WithoutLoses(h[1..], id);
      }
    }
  }

  lemma {:induction false} NothingNewest(capacity: nat)
    ensures Newest(LastOfEach([]), capacity) == []
  {
  }

  lemma {:induction false} NewestSnoc(h: seq<Held>, e: Held, capacity: nat)
    requires capacity > 0
    ensures Newest(h + [e], capacity) == Newest(h, capacity - 1) + [e]
  {
  }

  /**
   After any sequence of retentions the cache holds exactly the newest
   `capacity` distinct blocks, by the time each was last retained, each with
   the packets last retained under its id.
   */
  lemma {:induction false} CacheIsNewest(capacity: nat, history: seq<Held>)
    ensures RetainedAll(capacity, history) == if capacity == 0 then [] else Newest(LastOfEach(history), capacity)
    decreases |history|
  {
    hide Newest, WithoutBlock, LastOfEach;
    if history == [] {
      assert Newest(LastOfEach([]), capacity) == [] by { NothingNewest(capacity); }
    } else {
      var h, e := history[..|history| - 1], history[|history| - 1];
      assert history == h + [e];
      CacheIsNewest(capacity, h);
      if capacity > 0 {
        LastOfEachSnoc(h, e);
        LastOfEachDistinct(h);
        NewestWithout(LastOfEach(h), e.blockId, capacity);
        var w := WithoutBlock(LastOfEach(h), e.blockId);
        NewestSnoc(w, e, capacity);
      }
    }
  }

  // ---------------------------------------------------------------- which blocks those are

  /** The block ids of a history. */
  function IdsOf(h: seq<Held>): set<nat> {
    if h == [] then {} else {h[0].blockId} + IdsOf(h[1..])
  }

  lemma {:induction false} IdsOfHas(h: seq<Held>, id: nat)
    ensures id in IdsOf(h) <==> exists i :: 0 <= i < |h| && h[i].blockId == id
    decreases |h|
  {
    if h != [] {
      IdsOfHas(h[1..], id);
      if i :| 0 <= i < |h| && h[i].blockId == id {
        assert i > 0 ==> h[1..][i - 1].blockId == id;
      }
      if i :| 0 <= i < |h[1..]| && h[1..][i].blockId == id {
        assert h[i + 1].blockId == id;
      }
    }
  }

  /** A history ends with as many entries as it has block ids. */
  lemma {:induction false} LastOfEachCounts(h: seq<Held>)
    ensures |LastOfEach(h)| == |IdsOf(h)|
    decreases |h|
  {
    if h != [] {
      LastOfEachCounts(h[1..]);
      var id := h[0].blockId;
      IdsOfHas(h[1..], id);
      assert RetainedAgain(h) <==> id in IdsOf(h[1..]) by {
        if RetainedAgain(h) {
          var i :| 0 < i < |h| && h[i].blockId == id;
          assert h[1..][i - 1].blockId == id;
        }
        if id in IdsOf(h[1..]) {
          var i :| 0 <= i < |h[1..]| && h[1..][i].blockId == id;
          assert h[i + 1].blockId == id;
        }
      }
      if RetainedAgain(h) {
        assert {id} + IdsOf(h[1..]) == IdsOf(h[1..]);
      }
    }
  }

  /** What a history ends with it ends with after anything else, older entries before it. */
  lemma {:induction false} LastOfEachAppend(a: seq<Held>, b: seq<Held>) returns (older: seq<Held>)
    ensures LastOfEach(a + b) == older + LastOfEach(b)
    decreases |a|
  {
    if a == [] {
      assert a + b == b;
      older := [];
    } else {
      var h := a + b;
      assert h[1..] == a[1..] + b;
      var x := LastOfEachAppend(a[1..], b);
      if RetainedAgain(h) {
        older := x;
      } else {
        Associate([a[0]], x, LastOfEach(b));
        older := [a[0]] + x;
      }
    }
  }

  lemma {:induction false} NewestOfItsBlock(e: Held, after: seq<Held>)
    requires forall i :: 0 <= i < |after| ==> after[i].blockId != e.blockId
    ensures LastOfEach([e] + after) == [e] + LastOfEach(after)
  {
    var tail := [e] + after;
    assert tail[1..] == after && !RetainedAgain(tail);
  }

  /** Of distinct entries, one is among the newest `n` exactly when fewer than `n` come after it. */
  lemma {:induction false} AmongNewest(older: seq<Held>, e: Held, newer: seq<Held>, n: nat)
    requires DistinctIds(older + [e] + newer)
    ensures e in Newest(older + [e] + newer, n) <==> |newer| < n
  {
    var all := older + [e] + newer;
    assert all[|older|] == e;
    if |all| > n {
      var kept := all[|all| - n..];
      if |newer| < n {
        assert kept[|older| - (|all| - n)] == e;
      } else {
        forall i | 0 <= i < |kept| ensures kept[i] != e {
          assert kept[i] == all[|all| - n + i];
        }
      }
    }
  }

  /**
   Which blocks are held, told by the history alone: a block's last retention is
   in the cache exactly when fewer than `capacity` other blocks were retained
   after it; and the cache holds nothing but such last retentions.
   */
  lemma {:induction false} HeldExactly(capacity: nat, before: seq<Held>, e: Held, after: seq<Held>)
    requires forall i :: 0 <= i < |after| ==> after[i].blockId != e.blockId
    ensures var blocks := RetainedAll(capacity, before + ([e] + after));
            && DistinctIds(blocks)
            && (e in blocks <==> |IdsOf(after)| < capacity)
  {
    hide LastOfEach, RetainedAll, Newest;
    var tail := [e] + after;
    var history := before + tail;
    CacheIsNewest(capacity, history);
    LastOfEachDistinct(history);
    NewestOfItsBlock(e, after);
    LastOfEachCounts(after);
    var older := LastOfEachAppend(before, tail);
    Associate(older, [e], LastOfEach(after));
    AmongNewest(older, e, LastOfEach(after), capacity);
    NewestDistinct(LastOfEach(history), capacity);
  }

  lemma {:induction false} NewestDistinct(h: seq<Held>, n: nat)
    requires DistinctIds(h)
    ensures DistinctIds(Newest(h, n))
    ensures forall e :: e in Newest(h, n) ==> e in h
  {
  }

  lemma {:induction false} LastOfEachIsLast(h: seq<Held>, e: Held)
    requires e in LastOfEach(h)
    ensures exists i :: 0 <= i < |h| && h[i] == e && forall j :: i < j < |h| ==> h[j].blockId != e.blockId
    decreases |h|
  {
    if !RetainedAgain(h) && e == h[0] {
      assert h[0] == e;
    } else {
      LastOfEachIsLast(h[1..], e);
      var i :| 0 <= i < |h[1..]| && h[1..][i] == e
               && forall j :: i < j < |h[1..]| ==> h[1..][j].blockId != e.blockId;
      assert h[i + 1] == e;
      assert forall j :: i + 1 < j < |h| ==> h[j] == h[1..][j - 1];
    }
  }

  /** Whatever the cache holds is the last retention of its block. */
  lemma {:induction false} HeldAreLast(capacity: nat, history: seq<Held>, e: Held)
    requires e in RetainedAll(capacity, history)
    ensures exists i :: 0 <= i < |history| && history[i] == e
                        && forall j :: i < j < |history| ==> history[j].blockId != e.blockId
  {
    hide LastOfEach, RetainedAll, Newest;
    CacheIsNewest(capacity, history);
    LastOfEachDistinct(history);
    NewestDistinct(LastOfEach(history), capacity);
    LastOfEachIsLast(history, e);
  }

  // ---------------------------------------------------------------- looking a packet up

  function Find(blocks: seq<Held>, id: nat): Option<seq<seq<byte>>> {
    if blocks == [] then None
    else if blocks[0].blockId == id then Some(blocks[0].packets)
    else Find(blocks[1..], id)
  }

  lemma {:induction false} FindHeld(blocks: seq<Held>, e: Held)
    requires DistinctIds(blocks) && e in blocks
    ensures Find(blocks, e.blockId) == Some(e.packets)
  {
    if blocks[0] != e {
      assert e in blocks[1..];
      var k :| 0 <= k < |blocks[1..]| && blocks[1..][k] == e;
      assert blocks[k + 1] == e;
      FindHeld(blocks[1..], e);
    }
  }

  /** The packet the cache has for an id, if it has one. */
  function Lookup(blocks: seq<Held>, blockId: nat, packetId: nat): Option<seq<byte>> {
    var held := Find(blocks, blockId);
    if held.Some? && packetId < |held.value| && held.value[packetId] != []
    then Some(held.value[packetId]) else None
  }

  datatype Answer = Answer(resend: seq<seq<byte>>, unavailable: seq<seq<byte>>)

  /** The packets of ids `first` to `last` the cache holds, in order. */
  function Available(blocks: seq<Held>, r: ResendRequest, first: nat): seq<seq<byte>>
    decreases r.last + 1 - first
  {
    if first > r.last then []
    else
      var held := Lookup(blocks, r.blockId, first);
      if held.Some? then [held.value] + Available(blocks, r, first + 1)
      else Available(blocks, r, first + 1)
  }

  /** A bare header for each id the cache does not hold, in order. */
  function Unavailable(blocks: seq<Held>, r: ResendRequest, first: nat): seq<seq<byte>>
    decreases r.last + 1 - first
  {
    if first > r.last then []
    else if Lookup(blocks, r.blockId, first).Some? then Unavailable(blocks, r, first + 1)
    else
      [HeaderOnly(r.blockId, r.extendedIds, first, STATUS_PACKET_UNAVAILABLE)]
      + Unavailable(blocks, r, first + 1)
  }

  /** How many of the ids from `first` to below `id` the cache holds. */
  function HeldIds(blocks: seq<Held>, r: ResendRequest, first: nat, id: nat): (n: nat)
    ensures first <= id ==> n <= id - first
    decreases id - first
  {
    if first >= id then 0
    else HeldIds(blocks, r, first + 1, id) + if Lookup(blocks, r.blockId, first).Some? then 1 else 0
  }

  /** The answer to one id: the packet at its place among those held, or a header at its place among those not. */
  ghost predicate AnsweredAt(
    blocks: seq<Held>, r: ResendRequest, first: nat, id: nat, held: seq<seq<byte>>, missing: seq<seq<byte>>)
    requires first <= id
  {
    var n := HeldIds(blocks, r, first, id);
    match Lookup(blocks, r.blockId, id)
    case Some(b) => n < |held| && held[n] == b
    case None =>
      && id - first - n < |missing|
      && missing[id - first - n] == HeaderOnly(r.blockId, r.extendedIds, id, STATUS_PACKET_UNAVAILABLE)
  }

  /** One more id in front is answered first and moves the other answers along. */
  lemma {:induction false} AnsweredNext(
    blocks: seq<Held>, r: ResendRequest, first: nat, id: nat, held: seq<seq<byte>>, missing: seq<seq<byte>>)
    requires first <= id && (first < id ==> AnsweredAt(blocks, r, first + 1, id, held, missing))
    ensures var own := Lookup(blocks, r.blockId, first);
            AnsweredAt(blocks, r, first, id,
                       if own.Some? then [own.value] + held else held,
                       if own.Some? then missing
                       else [HeaderOnly(r.blockId, r.extendedIds, first, STATUS_PACKET_UNAVAILABLE)] + missing)
  {
    hide HeaderOnly, Lookup;
  }

  /** Every id asked for is answered exactly once, in order, and nothing else is. */
  lemma {:induction false} AnsweredOnce(blocks: seq<Held>, r: ResendRequest, first: nat)
    requires first <= r.last + 1
    ensures |Available(blocks, r, first)| == HeldIds(blocks, r, first, r.last + 1)
    ensures |Unavailable(blocks, r, first)| == r.last + 1 - first - HeldIds(blocks, r, first, r.last + 1)
    ensures forall id :: first <= id <= r.last ==>
              AnsweredAt(blocks, r, first, id, Available(blocks, r, first), Unavailable(blocks, r, first))
    decreases r.last + 1 - first
  {
    hide HeaderOnly, Lookup, AnsweredAt;
    if first <= r.last {
      AnsweredOnce(blocks, r, first + 1);
      forall id | first <= id <= r.last
        ensures AnsweredAt(blocks, r, first, id, Available(blocks, r, first), Unavailable(blocks, r, first))
      {
        AnsweredNext(blocks, r, first, id, Available(blocks, r, first + 1), Unavailable(blocks, r, first + 1));
      }
    }
  }

  /** The header that stands for a missing packet reads as PACKET_UNAVAILABLE, its block and its id. */
  lemma {:induction false} UnavailableReads(blockId: nat, extendedIds: bool, packetId: nat)
    requires blockId < (if extendedIds then Capacity(8) else Capacity(2))
    requires packetId < (if extendedIds then Capacity(4) else Capacity(3))
    ensures var d := HeaderOnly(blockId, extendedIds, packetId, STATUS_PACKET_UNAVAILABLE);
            && |d| == (if extendedIds then 20 else 8) && d[4] % 16 == 3
            && ParseHeader(d) == Some(Header(0x800C, blockId, packetId, extendedIds, |d|))
  {
    CapacityValues();
    hide ParseHeader, PutHeader, Capacity, BigEndian;
    var spec := BlockSpec(blockId, 0, extendedIds, PAYLOAD_TYPE_IMAGE, 0, 0, 0, 0, 0, 0, 0, 0);
    HeaderRoundTrip(spec, STATUS_PACKET_UNAVAILABLE, FORMAT_PAYLOAD, packetId, []);
    var d := HeaderOnly(blockId, extendedIds, packetId, STATUS_PACKET_UNAVAILABLE);
    assert d + [] == d;
  }

  // ---------------------------------------------------------------- the cache as it runs

  /** Packets by id: a later datagram of the same id replaces an earlier one. */
  ghost predicate Indexed(ds: seq<Datagram>, byId: seq<seq<byte>>) {
    && (forall i :: 0 <= i < |ds| ==> ds[i].packetId < |byId|)
    && (forall i :: 0 <= i < |ds| && (forall j :: i < j < |ds| ==> ds[j].packetId != ds[i].packetId) ==>
          byId[ds[i].packetId] == ds[i].bytes)
    && (forall k :: 0 <= k < |byId| && (forall i :: 0 <= i < |ds| ==> ds[i].packetId != k) ==> byId[k] == [])
    && (byId != [] ==> exists i :: 0 <= i < |ds| && ds[i].packetId == |byId| - 1)
  }

  lemma {:induction false} NothingIndexed()
    ensures Indexed([], [])
  {
  }

  method IndexById(ds: seq<Datagram>) returns (byId: seq<seq<byte>>)
    ensures Indexed(ds, byId)
  {
    hide Indexed;
    byId := [];
    NothingIndexed();
    for n := 0 to |ds|
      invariant Indexed(ds[..n], byId)
    {
      var at := ds[n].packetId;
      ghost var before, was := ds[..n], byId;
      if |byId| <= at {
        byId := byId + seq(at + 1 - |byId|, _ => []);
      }
      byId := byId[at := ds[n].bytes];
      assert ds[..n + 1] == before + [ds[n]];
      IndexedSnoc(before, was, ds[n], byId);
    }
    assert ds[..|ds|] == ds;
  }

  lemma {:induction false} IndexedSnoc(ds: seq<Datagram>, was: seq<seq<byte>>, d: Datagram, byId: seq<seq<byte>>)
    requires Indexed(ds, was)
    requires |byId| == (if |was| <= d.packetId then d.packetId + 1 else |was|)
    requires forall k :: 0 <= k < |byId| ==>
               byId[k] == if k == d.packetId then d.bytes else if k < |was| then was[k] else []
    ensures Indexed(ds + [d], byId)
  {
    var g := ds + [d];
    assert g[|ds|] == d;
    assert forall i :: 0 <= i < |ds| ==> g[i] == ds[i];
    forall i | 0 <= i < |g| && (forall j :: i < j < |g| ==> g[j].packetId != g[i].packetId)
      ensures byId[g[i].packetId] == g[i].bytes
    {
      if i < |ds| {
        assert g[|ds|].packetId != g[i].packetId;
        assert forall j :: i < j < |ds| ==> g[j].packetId != ds[i].packetId;
      }
    }
    forall k | 0 <= k < |byId| && (forall i :: 0 <= i < |g| ==> g[i].packetId != k)
      ensures byId[k] == []
    {
      assert g[|ds|].packetId != k;
      assert forall i :: 0 <= i < |ds| ==> g[i].packetId != k;
    }
    if |was| <= d.packetId {
      assert g[|ds|].packetId == |byId| - 1;
    } else {
      var i :| 0 <= i < |ds| && ds[i].packetId == |was| - 1;
      assert g[i].packetId == |byId| - 1;
    }
  }

  /** For a block's own datagrams, whose ids are their positions, the index is the datagrams. */
  lemma {:induction false} IndexedBlock(ds: seq<Datagram>, byId: seq<seq<byte>>)
    requires Indexed(ds, byId) && forall i :: 0 <= i < |ds| ==> ds[i].packetId == i
    ensures |byId| == |ds| && forall i :: 0 <= i < |ds| ==> byId[i] == ds[i].bytes
  {
    forall i | 0 <= i < |ds| ensures byId[i] == ds[i].bytes {
      assert forall j :: i < j < |ds| ==> ds[j].packetId != ds[i].packetId;
    }
    if byId != [] {
      var i :| 0 <= i < |ds| && ds[i].packetId == |byId| - 1;
    }
    assert ds != [] ==> ds[|ds| - 1].packetId < |byId|;
  }

  class Cache {
    const capacity: nat
    var blocks: seq<Held>

    constructor (capacity: nat)
      ensures this.capacity == capacity && blocks == []
    {
      this.capacity := capacity;
      blocks := [];
    }

    /** Retention on the live cache: `e` is the entry made, and the cache becomes `Retained` with it. */
    method Retain(blockId: nat, datagrams: seq<Datagram>) returns (ghost e: Held)
      modifies this
      ensures e.blockId == blockId && Indexed(datagrams, e.packets)
      ensures blocks == Retained(old(blocks), capacity, e)
    {
      hide Indexed, WithoutBlock;
      var byId := IndexById(datagrams);
      e := Held(blockId, byId);
      if capacity == 0 {
        return;
      }
      var kept := WithoutBlock(blocks, blockId);
      ghost var all := kept;
      while |kept| >= capacity
        invariant |kept| <= |all| && kept == all[|all| - |kept|..]
        invariant |kept| >= capacity - 1 || kept == all
        decreases |kept|
      {
        kept := kept[1..];
      }
      blocks := kept + [Held(blockId, byId)];
    }

    /** One pass over the ids asked for, sorting them into `Available` and `Unavailable`. */
    method AnswerRequest(r: ResendRequest) returns (answer: Answer)
      ensures answer == Answer(Available(blocks, r, r.first), Unavailable(blocks, r, r.first))
    {
      hide Lookup, HeaderOnly;
      answer := Answer([], []);
      if r.first > r.last {
        return;
      }
      var id := r.first;
      while id <= r.last
        invariant r.first <= id <= r.last + 1
        invariant answer.resend + Available(blocks, r, id) == Available(blocks, r, r.first)
        invariant answer.unavailable + Unavailable(blocks, r, id) == Unavailable(blocks, r, r.first)
      {
        var held := Lookup(blocks, r.blockId, id);
        if held.Some? {
          Associate(answer.resend, [held.value], Available(blocks, r, id + 1));
          answer := answer.(resend := answer.resend + [held.value]);
        } else {
          var header := HeaderOnly(r.blockId, r.extendedIds, id, STATUS_PACKET_UNAVAILABLE);
          Associate(answer.unavailable, [header], Unavailable(blocks, r, id + 1));
          answer := answer.(unavailable := answer.unavailable + [header]);
        }
        id := id + 1;
      }
    }
  }
}
