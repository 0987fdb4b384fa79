/**
 Chunk payloads: each chunk's data followed by its tag, written from the front
 and read from the end. GigE Vision's tags are big-endian, USB3 Vision's
 little-endian; the layout is the same.
 */
module ChunkData {
  import opened Bytes

  const TAG_LEN := 8

  datatype Chunk = Chunk(id: nat, data: seq<byte>)

  /** The identifier and the length fit the tag's 32-bit fields. */
  predicate Fits(c: Chunk) {
    c.id < Capacity(4) && |c.data| < Capacity(4)
  }

  predicate AllFit(chunks: seq<Chunk>) {
    forall i :: 0 <= i < |chunks| ==> Fits(chunks[i])
  }

  function Tag(c: Chunk, order: ByteOrder): (r: seq<byte>)
    ensures |r| == TAG_LEN
  {
    ToBytes(c.id, 4, order) + ToBytes(|c.data|, 4, order)
  }

  /** The chunks laid out in order. */
  function Laid(chunks: seq<Chunk>, order: ByteOrder): seq<byte> {
    if chunks == [] then []
    else
      var last := chunks[|chunks| - 1];
      Laid(chunks[..|chunks| - 1], order) + (last.data + Tag(last, order))
  }

  /** The GigE camera's chunk payload. */
  method ChunkPayload(chunks: seq<Chunk>) returns (buf: seq<byte>)
    ensures buf == Laid(chunks, Big)
  {
    buf := [];
    for i := 0 to |chunks|
      invariant buf == Laid(chunks[..i], Big)
    {
      assert chunks[..i + 1][..i] == chunks[..i];
      Associate(buf, chunks[i].data, Tag(chunks[i], Big));
      Associate(buf + chunks[i].data, BigEndian(chunks[i].id, 4), BigEndian(|chunks[i].data|, 4));
      buf := buf + chunks[i].data;
      buf := buf + BigEndian(chunks[i].id, 4);
      buf := buf + BigEndian(|chunks[i].data|, 4);
    }
    assert chunks[..|chunks|] == chunks;
  }

  // ---------------------------------------------------------------- reading

  /** A chunk and where in the payload its data starts. */
  datatype Located = Located(offset: nat, chunk: Chunk)

  datatype ChunkError =
    | TruncatedTag(remaining: nat)
    | LengthPastStart(id: nat, tagOffset: nat, length: nat)

  datatype Parsed = Split(chunks: seq<Located>) | Malformed(error: ChunkError)

  /** What the last tag of a payload says. */
  function LastTag(p: seq<byte>, order: ByteOrder): (r: (nat, nat))
    requires |p| >= TAG_LEN
  {
    var tag := p[|p| - TAG_LEN..];
    (Number(tag[..4], order), Number(tag[4..], order))
  }

  /** A payload read from its end. */
  function Parse(p: seq<byte>, order: ByteOrder): (r: Parsed)
    decreases |p|
  {
    if p == [] then Split([])
    else if |p| < TAG_LEN then Malformed(TruncatedTag(|p|))
    else
      var (id, length) := LastTag(p, order);
      var tagOffset := |p| - TAG_LEN;
      if length > tagOffset then Malformed(LengthPastStart(id, tagOffset, length))
      else
        var start := tagOffset - length;
        match Parse(p[..start], order)
        case Malformed(e) => Malformed(e)
        case Split(front) => Split(front + [Located(start, Chunk(id, p[start..tagOffset]))])
  }

  /** The scan: tags from the end, each moving `end` back to where its chunk starts. */
  method ParseChunks(payload: seq<byte>, order: ByteOrder) returns (r: Parsed)
    ensures r == Parse(payload, order)
  {
    hide Number;
    var found: seq<Located> := [];
    var end := |payload|;
    assert payload[..end] == payload;
    while end > 0
      invariant end <= |payload|
      invariant Parse(payload, order) == match Parse(payload[..end], order)
                                         case Malformed(e) => Malformed(e)
                                         case Split(front) => Split(front + Reversed(found))
    {
      ghost var p := payload[..end];
      if end < TAG_LEN {
        return Malformed(TruncatedTag(end));
      }
      var tagOffset := end - TAG_LEN;
      var tag := payload[tagOffset..end];
      assert tag == p[tagOffset..];
      var id, length := Number(tag[..4], order), Number(tag[4..], order);
      if length > tagOffset {
        return Malformed(LengthPastStart(id, tagOffset, length));
      }
      var start := tagOffset - length;
      var c := Located(start, Chunk(id, payload[start..tagOffset]));
      assert p[..start] == payload[..start] && p[start..tagOffset] == payload[start..tagOffset];
      assert (found + [c])[..|found|] == found;
      ghost var front := Parse(payload[..start], order);
      if front.Split? {
        Associate(front.chunks, [c], Reversed(found));
      }
      found := found + [c];
      end := start;
    }
    return Split(Reversed(found));
  }

  // ---------------------------------------------------------------- the round trip

  /** Each chunk with the offset the chunks before it leave it at. */
  function Locate(chunks: seq<Chunk>, order: ByteOrder): (r: seq<Located>)
    ensures |r| == |chunks|
  {
    if chunks == [] then []
    else
      var front := chunks[..|chunks| - 1];
      Locate(front, order) + [Located(|Laid(front, order)|, chunks[|chunks| - 1])]
  }

  lemma {:induction false} TagReadsBack(front: seq<byte>, c: Chunk, order: ByteOrder)
    requires Fits(c)
    ensures LastTag(front + (c.data + Tag(c, order)), order) == (c.id, |c.data|)
  {
    hide ToBytes, Number, Capacity;
    var p := front + (c.data + Tag(c, order));
    var tag := p[|p| - TAG_LEN..];
    assert tag == Tag(c, order);
    assert tag[..4] == ToBytes(c.id, 4, order);
    assert tag[4..] == ToBytes(|c.data|, 4, order);
    BytesReadBack(c.id, 4, order);
    BytesReadBack(|c.data|, 4, order);
  }

  /** Reading back: a payload splits into the chunks it was laid out from, in order. */
  lemma {:induction false} ReadsBack(chunks: seq<Chunk>, order: ByteOrder)
    requires AllFit(chunks)
    ensures Parse(Laid(chunks, order), order) == Split(Locate(chunks, order))
    decreases |chunks|
  {
    hide LastTag, Tag, Fits;
    if chunks != [] {
      var front, c := chunks[..|chunks| - 1], chunks[|chunks| - 1];
      ReadsBack(front, order);
      var p, n := Laid(chunks, order), |Laid(front, order)|;
      assert p == Laid(front, order) + (c.data + Tag(c, order));
      TagReadsBack(Laid(front, order), c, order);
      assert p[..n] == Laid(front, order);
      assert p[n..n + |c.data|] == c.data;
    }
  }

  function Stripped(s: seq<Located>): (r: seq<Chunk>)
    ensures |r| == |s| && forall i :: 0 <= i < |s| ==> r[i] == s[i].chunk
  {
    seq(|s|, i requires 0 <= i < |s| => s[i].chunk)
  }

  lemma {:induction false} NothingLaid(order: ByteOrder)
    ensures Laid([], order) == [] && Locate([], order) == []
  {
  }

  lemma {:induction false} OneMore(front: seq<Chunk>, c: Chunk, order: ByteOrder)
    ensures Laid(front + [c], order) == Laid(front, order) + (c.data + Tag(c, order))
    ensures Locate(front + [c], order) == Locate(front, order) + [Located(|Laid(front, order)|, c)]
  {
  }

  lemma {:induction false} TagIs(p: seq<byte>, data: seq<byte>, order: ByteOrder)
    requires |p| >= TAG_LEN && |data| == LastTag(p, order).1
    ensures Fits(Chunk(LastTag(p, order).0, data))
    ensures Tag(Chunk(LastTag(p, order).0, data), order) == p[|p| - TAG_LEN..]
  {
    hide ToBytes, Number, Capacity;
    var tag := p[|p| - TAG_LEN..];
    NumberWritesBack(tag[..4], order);
    NumberWritesBack(tag[4..], order);
    assert tag == tag[..4] + tag[4..];
  }

  /**
   A successful reading tiles the payload: laid out again, the chunks are the
   payload, byte for byte, each starting where the one before it ends.
   */
  lemma {:induction false} Tiles(p: seq<byte>, order: ByteOrder)
    requires Parse(p, order).Split?
    ensures var cs := Stripped(Parse(p, order).chunks);
            AllFit(cs) && Laid(cs, order) == p && Parse(p, order).chunks == Locate(cs, order)
    decreases |p|
  {
    hide LastTag, Tag, Fits, Laid, Locate;
    if p == [] {
      NothingLaid(order);
    } else {
      var (id, length) := LastTag(p, order);
      var tagOffset := |p| - TAG_LEN;
      var start := tagOffset - length;
      var c := Chunk(id, p[start..tagOffset]);
      Tiles(p[..start], order);
      TagIs(p, c.data, order);
      var front := Stripped(Parse(p[..start], order).chunks);
      var cs := Stripped(Parse(p, order).chunks);
      assert cs == front + [c];
      OneMore(front, c, order);
      assert p == p[..start] + (c.data + p[tagOffset..]);
    }
  }

  /** The payloads the reader accepts are exactly those some list of chunks lays out. */
  lemma {:induction false} AcceptedIffLaid(p: seq<byte>, order: ByteOrder)
    ensures Parse(p, order).Split? <==> exists chunks :: AllFit(chunks) && Laid(chunks, order) == p
  {
    if Parse(p, order).Split? {
      Tiles(p, order);
    }
    if chunks :| AllFit(chunks) && Laid(chunks, order) == p {
      ReadsBack(chunks, order);
    }
  }

  lemma {:induction false} LocateStrips(chunks: seq<Chunk>, order: ByteOrder)
    ensures Stripped(Locate(chunks, order)) == chunks
    decreases |chunks|
  {
    if chunks != [] {
      LocateStrips(chunks[..|chunks| - 1], order);
    }
  }

  /** Two lists of chunks with the same payload are the same list. */
  lemma {:induction false} LaidInjective(a: seq<Chunk>, b: seq<Chunk>, order: ByteOrder)
    requires AllFit(a) && AllFit(b) && Laid(a, order) == Laid(b, order)
    ensures a == b
  {
    ReadsBack(a, order);
    ReadsBack(b, order);
    LocateStrips(a, order);
    LocateStrips(b, order);
  }

  /** A list reads back as itself exactly when every chunk fits its tag. */
  lemma {:induction false} ReadsBackIff(chunks: seq<Chunk>, order: ByteOrder)
    ensures var r := Parse(Laid(chunks, order), order);
            (r.Split? && Stripped(r.chunks) == chunks) <==> AllFit(chunks)
  {
    if AllFit(chunks) {
      ReadsBack(chunks, order);
      LocateStrips(chunks, order);
    } else if Parse(Laid(chunks, order), order).Split? {
      Tiles(Laid(chunks, order), order);
    }
  }
}
