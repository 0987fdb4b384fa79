/**
 When host transfers are device transfers: a host that reads with exactly the
 sizes it wrote to the SIRM gets one device transfer per read, unless the last
 payload transfer is a partial one of whole packets with room behind it for
 the trailer.
 */
module U3vLayouts {
  import opened Arithmetic
  import opened Bytes
  import opened U3vWire
  import opened U3vStream
  import opened U3vRuns

  /** A transfer of `data` ends a host transfer of `size` bytes before a following packet of `next` bytes. */
  predicate StandsAlone(data: seq<byte>, size: nat, next: nat) {
    |data| == size || |data| % MAX_PACKET != 0 || |data| + next > size
  }

  lemma {:induction false} TakeAcross(data: seq<byte>, rest: seq<Packet>, size: nat)
    requires data != [] && |data| <= size
    requires rest != [] && rest[0].bytes != []
    ensures var own := Cut(Payload, data);
            var n := Take(own + rest, size);
            && n >= |own|
            && (n == |own| <==> StandsAlone(data, size, |rest[0].bytes|))
            && (n > |own| ==> n == |own| + Take(rest, size - |data|))
    decreases |data|
  {
    var own := Cut(Payload, data);
    var all := own + rest;
    if |data| <= MAX_PACKET {
      assert all[1..] == rest;
    } else {
      var tail := data[MAX_PACKET..];
      TakeAcross(tail, rest, size - MAX_PACKET);
      assert all[1..] == Cut(Payload, tail) + rest;
      assert |data| % MAX_PACKET == |tail| % MAX_PACKET;
    }
  }

  function Outcomes(c: Camera, lens: seq<nat>, queued: nat, p: Pace): (r: seq<Outcome>)
    ensures |r| == |lens|
    decreases |lens|
  {
    if lens == [] then []
    else
      var (c', r) := Transfer(c, lens[0], queued, p);
      [r] + Outcomes(c', lens[1..], queued, p)
  }

  /** Each piece as the bytes of one host transfer. */
  function AsData(pieces: seq<seq<byte>>): (r: seq<Outcome>)
    ensures |r| == |pieces|
  {
    if pieces == [] then [] else [Data(pieces[0])] + AsData(pieces[1..])
  }

  /** Every piece fills its size but perhaps the last. */
  ghost predicate Fitted(pieces: seq<seq<byte>>, sizes: seq<nat>) {
    && |pieces| <= |sizes|
    && (forall i :: 0 <= i < |pieces| ==> 0 < |pieces[i]| <= sizes[i])
    && (forall i :: 0 <= i < |pieces| - 1 ==> |pieces[i]| == sizes[i])
  }

  lemma {:induction false} PiecesFitted(payload: seq<byte>, sizes: seq<nat>)
    requires forall i :: 0 <= i < |sizes| ==> sizes[i] > 0
    ensures Fitted(Pieces(payload, sizes), sizes)
    decreases |sizes|
  {
    if payload != [] && sizes != [] {
      var n := Min(sizes[0], |payload|);
      PiecesFitted(payload[n..], sizes[1..]);
      var p := Pieces(payload, sizes);
      assert p == [payload[..n]] + Pieces(payload[n..], sizes[1..]);
      if n == |payload| {
        assert p[1..] == [];
      }
      assert forall i :: 1 <= i < |p| ==> p[i] == p[1..][i - 1] && sizes[i] == sizes[1..][i - 1];
    }
  }

  predicate LastStandsAlone(pieces: seq<seq<byte>>, sizes: seq<nat>)
    requires |pieces| <= |sizes|
  {
    pieces == [] || StandsAlone(pieces[|pieces| - 1], sizes[|pieces| - 1], TRAILER_SIZE)
  }

  /** A device past its leader with these pieces to send, undisturbed. */
  ghost predicate Undisturbed(c: Camera, pieces: seq<seq<byte>>, queued: nat) {
    && Streaming(c) && c.stallAfter.None? && queued >= c.required
    && c.block.Some? && c.block.value.packets == CutAll(Payload, pieces) && !c.block.value.overrun
  }

  function TrailerOf(c: Camera): (r: seq<byte>)
    requires c.block.Some?
    ensures |r| == TRAILER_SIZE
  {
    var s := c.block.value;
    BuildTrailer(s.id, Status(s.overrun), s.sent + PayloadLength(s.packets), s.height)
  }

  /** The packets of the first piece, then the others and the trailer. */
  ghost predicate StartsWith(c: Camera, pieces: seq<seq<byte>>, own: seq<Packet>, rest: seq<Packet>)
    requires c.block.Some? && pieces != []
  {
    && own == Cut(Payload, pieces[0])
    && rest == CutAll(Payload, pieces[1..]) + [Packet(Trailer, TrailerOf(c))]
    && Packets(c.block.value) == own + rest
    && c.block.value.packets == own + CutAll(Payload, pieces[1..])
  }

  /** How many packets a host transfer of the piece's size collects. */
  lemma {:induction false} FirstTake(
    c: Camera, pieces: seq<seq<byte>>, size: nat, queued: nat, own: seq<Packet>, rest: seq<Packet>)
    requires Undisturbed(c, pieces, queued) && pieces != [] && 0 < |pieces[0]| <= size
    requires forall i :: 0 <= i < |pieces| ==> pieces[i] != []
    requires |pieces| > 1 ==> |pieces[0]| == size
    requires StartsWith(c, pieces, own, rest)
    ensures var n := Take(Packets(c.block.value), size);
            if StandsAlone(pieces[0], size, TRAILER_SIZE) then n == |own|
            else n == |own + rest| && |pieces| == 1 && rest == [Packet(Trailer, TrailerOf(c))]
  {
    hide Cut, CutAll, Packets, Take, TrailerOf;
    PacketsSplit(c, pieces, queued);
    TakeAcross(pieces[0], rest, size);
  }

  /** The piece fills a host transfer alone. */
  lemma {:induction false} PieceAlone(
    c: Camera, pieces: seq<seq<byte>>, size: nat, queued: nat, own: seq<Packet>, rest: seq<Packet>)
    requires Undisturbed(c, pieces, queued) && pieces != [] && 0 < |pieces[0]|
    requires StartsWith(c, pieces, own, rest) && Take(Packets(c.block.value), size) == |own|
    ensures var (c', r) := Finish(c, [], size);
            && r == Data(pieces[0]) && c'.block.Some?
            && c'.block.value.packets == CutAll(Payload, pieces[1..]) && !c'.block.value.overrun
            && TrailerOf(c') == TrailerOf(c)
  {
    hide BuildTrailer, Take, Cut, CutAll, Finish, Packets, Content, PayloadLength;
    var s := c.block.value;
    CutContent(Payload, pieces[0]);
    NothingIsEmpty(own);
    FinishCases(c, size);
    assert (own + rest)[..|own|] == own;
    assert s.packets[|own|..] == CutAll(Payload, pieces[1..]);
    PayloadAppend(own, CutAll(Payload, pieces[1..]));
  }

  lemma {:induction false} NothingIsEmpty(ps: seq<Packet>)
    ensures ps == [] ==> Content(ps) == []
  {
  }

  /** The piece and the trailer behind it share a host transfer. */
  lemma {:induction false} PieceWithTrailer(c: Camera, pieces: seq<seq<byte>>, size: nat, queued: nat, own: seq<Packet>)
    requires Undisturbed(c, pieces, queued) && pieces != []
    requires StartsWith(c, pieces, own, [Packet(Trailer, TrailerOf(c))])
    requires Take(Packets(c.block.value), size) == |own| + 1
    ensures var (c', r) := Finish(c, [], size);
            r == Data(pieces[0] + TrailerOf(c)) && c'.block.None?
  {
    hide BuildTrailer, Take, Cut, CutAll, Finish, Packets, Content, PayloadLength;
    var trailer := Packet(Trailer, TrailerOf(c));
    CutContent(Payload, pieces[0]);
    FinishCases(c, size);
    ContentAppend(own, [trailer]);
    ContentOne(trailer);
  }

  /** Reading the first piece with its own size: alone if it stands alone, else with the trailer behind it. */
  lemma {:induction false} FirstPiece(c: Camera, pieces: seq<seq<byte>>, size: nat, queued: nat, p: Pace)
    requires Undisturbed(c, pieces, queued) && pieces != [] && 0 < |pieces[0]| <= size
    requires forall i :: 0 <= i < |pieces| ==> pieces[i] != []
    requires |pieces| > 1 ==> |pieces[0]| == size
    ensures var (c', r) := Transfer(c, size, queued, p);
            if StandsAlone(pieces[0], size, TRAILER_SIZE) then
              && r == Data(pieces[0])
              && Undisturbed(c', pieces[1..], queued)
              && TrailerOf(c') == TrailerOf(c)
            else r == Data(pieces[0] + TrailerOf(c)) && c'.block.None?
  {
    hide Take, Cut, CutAll, Finish, Packets, Transfer, TrailerOf, StandsAlone;
    var own := Cut(Payload, pieces[0]);
    var rest := CutAll(Payload, pieces[1..]) + [Packet(Trailer, TrailerOf(c))];
    PacketsSplit(c, pieces, queued);
    FirstTake(c, pieces, size, queued, own, rest);
    UndisturbedFinishes(c, pieces, size, queued, p);
    if StandsAlone(pieces[0], size, TRAILER_SIZE) {
      PieceAlone(c, pieces, size, queued, own, rest);
    } else {
      PieceWithTrailer(c, pieces, size, queued, own);
    }
  }

  /** A host that keeps enough transfers queued just goes on with the block. */
  lemma {:induction false} UndisturbedFinishes(
    c: Camera, pieces: seq<seq<byte>>, size: nat, queued: nat, p: Pace)
    requires Undisturbed(c, pieces, queued)
    ensures Transfer(c, size, queued, p) == Finish(c, [], size)
    ensures var c' := Finish(c, [], size).0;
            Streaming(c') && c'.stallAfter.None? && queued >= c'.required
  {
    hide Finish;
    StreamsOn(c, size);
  }

  /** With no stall armed a transfer leaves the endpoint as ready as it was. */
  lemma {:induction false} StreamsOn(c: Camera, size: nat)
    requires c.block.Some? && Streaming(c) && c.stallAfter.None?
    ensures var c' := Finish(c, [], size).0;
            Streaming(c') && c'.stallAfter.None? && c'.required == c.required
  {
    hide Packets, Take, Content, PayloadLength, EventCommand;
  }

  lemma {:induction false} PacketsSplit(c: Camera, pieces: seq<seq<byte>>, queued: nat)
    requires Undisturbed(c, pieces, queued) && pieces != []
    requires forall i :: 0 <= i < |pieces| ==> pieces[i] != []
    ensures var rest := CutAll(Payload, pieces[1..]) + [Packet(Trailer, TrailerOf(c))];
            && c.block.value.packets == Cut(Payload, pieces[0]) + CutAll(Payload, pieces[1..])
            && Packets(c.block.value) == Cut(Payload, pieces[0]) + rest
            && rest[0].bytes != []
            && (|pieces| > 1 || rest == [Packet(Trailer, TrailerOf(c))])
  {
  }

  lemma {:induction false} ReadPieces(
    c: Camera, pieces: seq<seq<byte>>, sizes: seq<nat>, last: nat, queued: nat, p: Pace)
    requires Undisturbed(c, pieces, queued) && Fitted(pieces, sizes) && last >= TRAILER_SIZE
    ensures Outcomes(c, sizes[..|pieces|] + [last], queued, p)
              == AsData(pieces) + [Data(TrailerOf(c))]
            <==> LastStandsAlone(pieces, sizes)
    decreases |pieces|
  {
    hide Transfer, BuildTrailer;
    var lens := sizes[..|pieces|] + [last];
    var got := Outcomes(c, lens, queued, p);
    var want := AsData(pieces) + [Data(TrailerOf(c))];
    if pieces == [] {
      assert lens == [last] && lens[1..] == [];
      ReadTrailer(c, last, queued, p);
      assert got == [Data(TrailerOf(c))];
    } else {
      FirstPiece(c, pieces, sizes[0], queued, p);
      var (c', r) := Transfer(c, sizes[0], queued, p);
      assert lens[1..] == sizes[1..][..|pieces[1..]|] + [last];
      assert want[0] == Data(pieces[0]) && got[0] == r;
      assert |TrailerOf(c)| > 0;
      if StandsAlone(pieces[0], sizes[0], TRAILER_SIZE) {
        ReadPieces(c', pieces[1..], sizes[1..], last, queued, p);
        assert want == [want[0]] + (AsData(pieces[1..]) + [Data(TrailerOf(c'))]);
        assert got == want <==> got[1..] == want[1..];
        if |pieces| > 1 {
          assert pieces[1..][|pieces| - 2] == pieces[|pieces| - 1];
        }
      } else {
        assert |pieces| == 1;
        assert |pieces[0] + TrailerOf(c)| != |pieces[0]|;
        assert got[0] != want[0];
      }
    }
  }

  lemma {:induction false} ReadTrailer(c: Camera, len: nat, queued: nat, p: Pace)
    requires Undisturbed(c, [], queued) && len >= TRAILER_SIZE
    ensures Transfer(c, len, queued, p).1 == Data(TrailerOf(c))
  {
    var ps := Packets(c.block.value);
    assert ps == [Packet(Trailer, TrailerOf(c))];
    FinishCases(c, len);
    assert ps[1..] == [];
    assert PayloadCount(ps[..1]) == 0;
    assert Content(ps) == TrailerOf(c);
  }

  /**
   A block started under a layout and read with that layout's sizes, the host
   keeping enough transfers queued, arrives as one host transfer per device
   transfer - leader, each payload piece, trailer - if and only if the last
   piece fills its size, ends in a short packet, or leaves no room for the
   trailer.
   */
  lemma {:induction false} TransfersOneToOne(c: Camera, p: Pace, queued: nat)
    requires Starts(c, p) && c.stallAfter.None? && queued >= c.required
    ensures var st := StartOf(c, p);
            var sizes := Sizes(st.layout);
            var pieces := Pieces(st.payload, sizes);
            |pieces| <= |sizes| &&
            (Outcomes(c, [st.layout.maxLeader] + (sizes[..|pieces|] + [st.layout.maxTrailer]), queued, p)
               == [Data(LeaderOf(st))] + (AsData(pieces)
                  + [Data(BuildTrailer(st.id, 0, OfferedOf(st), st.format.height))])
             <==> LastStandsAlone(pieces, sizes))
  {
    var st := StartOf(c, p);
    var sizes := Sizes(st.layout);
    var pieces := Pieces(st.payload, sizes);
    PiecesFitted(st.payload, sizes);
    var c0 := Started(c, p);
    var o := Open(st, []);
    StartTracks(c, p);
    LeaderAlone(c0, o, st.layout.maxLeader);
    var (c1, r) := Transfer(c, st.layout.maxLeader, queued, p);
    assert r == Data(LeaderOf(st));
    AfterLeader(c, p, queued);
    var tail := sizes[..|pieces|] + [st.layout.maxTrailer];
    ReadPieces(c1, pieces, sizes, st.layout.maxTrailer, queued, p);
    var lens := [st.layout.maxLeader] + tail;
    assert lens[1..] == tail;
    var got := Outcomes(c, lens, queued, p);
    var want := [Data(LeaderOf(st))] + (AsData(pieces) + [Data(TrailerOf(c1))]);
    assert got == [r] + Outcomes(c1, tail, queued, p);
    assert got == want <==> got[1..] == want[1..];
  }

  /** What is left of a block once its leader has gone. */
  lemma {:induction false} AfterLeader(c: Camera, p: Pace, queued: nat)
    requires Starts(c, p) && c.stallAfter.None? && queued >= c.required
    ensures var st := StartOf(c, p);
            var c1 := Transfer(c, st.layout.maxLeader, queued, p).0;
            && Undisturbed(c1, Pieces(st.payload, Sizes(st.layout)), queued)
            && TrailerOf(c1) == BuildTrailer(st.id, 0, OfferedOf(st), st.format.height)
  {
    hide BuildLeader, BuildTrailer, BlockPayload, Pieces, CutAll, Content, Finish, Sizes, Tracks, Join;
    var st := StartOf(c, p);
    var pieces := Pieces(st.payload, Sizes(st.layout));
    var c0 := Started(c, p);
    var s := c0.block.value;
    StartTracks(c, p);
    var ps := Packets(s);
    var leader := Packet(Leader, LeaderOf(st));
    assert ps[0] == leader && ps[..1] == [leader] && [leader][1..] == [];
    assert Take(ps, st.layout.maxLeader) == 1;
    FinishCases(c0, st.layout.maxLeader);
    StreamsOn(c0, st.layout.maxLeader);
    assert PayloadLength(ps[..1]) == 0 && PayloadCount(ps[..1]) == 0;
    assert s.packets[1..] == CutAll(Payload, pieces);
    CutAllContent(Payload, pieces);
    PiecesJoin(st.payload, Sizes(st.layout));
    LayoutCapacity(st.layout);
  }
}
