/**
 The payload a GigE camera builds from its registers - the image, and in chunk
 mode the image and every enabled chunk - and the PayloadSize it advertises.
 */
module GigePayload {
  import opened Arithmetic
  import opened Bytes
  import opened ChunkData

  const SELECTOR_TIMESTAMP: nat := 1
  const SELECTOR_EXPOSURE_TIME: nat := 2
  const SELECTOR_FRAME_ID: nat := 4
  const SELECTOR_IMAGE_INFO: nat := 5

  const CHUNK_ID_IMAGE: nat := 0x0000_0001
  const CHUNK_ID_TIMESTAMP: nat := 0x0000_0002
  const CHUNK_ID_EXPOSURE_TIME: nat := 0x0000_0003
  const CHUNK_ID_FRAME_ID: nat := 0x0504_0003
  const CHUNK_ID_IMAGE_INFO: nat := 0xA5A5_0100

  /** The registers a block's payload depends on. */
  datatype Settings = Settings(
    width: nat, height: nat, pixelFormat: nat, chunkMode: nat, enabled: set<nat>)
  {
    predicate ChunkActive() { chunkMode != 0 }
  }

  /** What a frame brings with it: time, exposure (as its bits) and block id. */
  datatype Frame = Frame(timestamp: nat, exposure: nat, blockId: nat)

  /** Bytes of an image: vendor codes and zero depths are one byte a pixel, a partial byte counts whole. */
  function ImageSize(pixelFormat: nat, width: nat, height: nat): nat {
    var bits := pixelFormat / 0x1_0000 % 256;
    if pixelFormat / 0x8000_0000 % 2 == 1 || bits == 0 then width * height
    else (width * height * bits + 7) / 8
  }

  /**
   The bits of an image fill its bytes but for fewer than eight: bits 16 to 23
   of a standard format are a pixel's depth; a format with bit 31 set, or with
   no depth, takes a byte a pixel.
   */
  lemma {:induction false} ImageHoldsItsBits(width: nat, height: nat, vendor: bool, high: nat, depth: nat, low: nat)
    requires high < 128 && depth < 256 && low < 0x1_0000
    ensures var format := (if vendor then 0x8000_0000 else 0) + high * 0x100_0000 + depth * 0x1_0000 + low;
            var size := ImageSize(format, width, height);
            && (vendor || depth == 0 ==> size == width * height)
            && (!vendor && depth > 0 ==> 8 * size >= width * height * depth > 8 * size - 8)
  {
    var top := (if vendor then 128 else 0) + high;
    var format := top * 0x100_0000 + depth * 0x1_0000 + low;
    DivModIs(format, 0x1_0000, top * 256 + depth, low);
    DivModIs(top * 256 + depth, 256, top, depth);
    DivModIs(format, 0x8000_0000, if vendor then 1 else 0, high * 0x100_0000 + depth * 0x1_0000 + low);
    hide ImageSize;
    ImageSizeIs(format, width, height, vendor, depth);
  }

  lemma {:induction false} ImageSizeIs(format: nat, width: nat, height: nat, vendor: bool, depth: nat)
    requires format / 0x1_0000 % 256 == depth && (format / 0x8000_0000 % 2 == 1 <==> vendor)
    ensures ImageSize(format, width, height)
            == if vendor || depth == 0 then width * height else (width * height * depth + 7) / 8
  {
  }

  function Selectors(enabled: set<nat>): seq<nat> {
    (if SELECTOR_TIMESTAMP in enabled then [SELECTOR_TIMESTAMP] else [])
    + (if SELECTOR_EXPOSURE_TIME in enabled then [SELECTOR_EXPOSURE_TIME] else [])
    + (if SELECTOR_FRAME_ID in enabled then [SELECTOR_FRAME_ID] else [])
    + (if SELECTOR_IMAGE_INFO in enabled then [SELECTOR_IMAGE_INFO] else [])
  }

  // ---------------------------------------------------------------- chunk values

  /** The chunk of one selector; a selector the camera does not know has none. */
  function ChunkOf(selector: nat, f: Frame, width: nat, height: nat, imageLen: nat): Option<Chunk> {
    if selector == SELECTOR_TIMESTAMP then Some(Chunk(CHUNK_ID_TIMESTAMP, LittleEndian(f.timestamp, 8)))
    else if selector == SELECTOR_EXPOSURE_TIME then
      Some(Chunk(CHUNK_ID_EXPOSURE_TIME, LittleEndian(f.exposure, 8)))
    else if selector == SELECTOR_FRAME_ID then Some(Chunk(CHUNK_ID_FRAME_ID, LittleEndian(f.blockId, 8)))
    else if selector == SELECTOR_IMAGE_INFO then
      Some(Chunk(CHUNK_ID_IMAGE_INFO,
                 BigEndian(width, 4) + BigEndian(height, 4) + BigEndian(0, 4) + BigEndian(imageLen, 4)))
    else None
  }

  function ValuesOf(selectors: seq<nat>, f: Frame, width: nat, height: nat, imageLen: nat): seq<Chunk> {
    if selectors == [] then []
    else
      var front := ValuesOf(selectors[..|selectors| - 1], f, width, height, imageLen);
      match ChunkOf(selectors[|selectors| - 1], f, width, height, imageLen)
      case Some(c) => front + [c]
      case None => front
  }

  method ChunkValues(selectors: seq<nat>, f: Frame, width: nat, height: nat, imageLen: nat)
    returns (values: seq<Chunk>)
    ensures values == ValuesOf(selectors, f, width, height, imageLen)
  {
    values := [];
    for i := 0 to |selectors|
      invariant values == ValuesOf(selectors[..i], f, width, height, imageLen)
    {
      assert selectors[..i + 1][..i] == selectors[..i];
      var c := ChunkOf(selectors[i], f, width, height, imageLen);
      if c.Some? {
        values := values + [c.value];
      }
    }
    assert selectors[..|selectors|] == selectors;
  }

  function TaggedLen(values: seq<Chunk>): nat {
    if values == [] then 0
    else TaggedLen(values[..|values| - 1]) + |values[|values| - 1].data| + TAG_LEN
  }

  const NO_FRAME := Frame(0, 0, 0)

  /** Bytes of a chunk-mode block, found by laying out chunks of zeros. */
  function ChunkBlockLen(selectors: seq<nat>, imageLen: nat): nat {
    imageLen + TAG_LEN + TaggedLen(ValuesOf(selectors, NO_FRAME, 0, 0, imageLen))
  }

  // ---------------------------------------------------------------- the advertised and the built size

  /** `PayloadSize`, saturating at 32 bits. */
  function PayloadSize(s: Settings): nat {
    var image := ImageSize(s.pixelFormat, s.width, s.height);
    var size := if s.ChunkActive() then ChunkBlockLen(Selectors(s.enabled), image) else image;
    if size < 0x1_0000_0000 then size else 0xFFFF_FFFF
  }

  /** The chunks of a block, the image first. */
  function BlockChunks(s: Settings, image: seq<byte>, f: Frame): seq<Chunk> {
    [Chunk(CHUNK_ID_IMAGE, image)] + ValuesOf(Selectors(s.enabled), f, s.width, s.height, |image|)
  }

  /** Whether the frame is cut short: fewer lines than the height, outside chunk mode. */
  predicate CutShort(s: Settings, deliveredLines: Option<nat>) {
    deliveredLines.Some? && deliveredLines.value < s.height && !s.ChunkActive()
  }

  /** The payload the sender builds from a generated image of the right size. */
  function Payload(s: Settings, deliveredLines: Option<nat>, image: seq<byte>, f: Frame): seq<byte> {
    if CutShort(s, deliveredLines) then
      var lines := ImageSize(s.pixelFormat, s.width, deliveredLines.value);
      if lines < |image| then image[..lines] else image
    else if s.ChunkActive() then Laid(BlockChunks(s, image, f), Big)
    else image
  }

  // ---------------------------------------------------------------- lengths

  lemma {:induction false} LaidLength(chunks: seq<Chunk>)
    ensures |Laid(chunks, Big)| == TaggedLen(chunks)
    decreases |chunks|
  {
    if chunks != [] {
      LaidLength(chunks[..|chunks| - 1]);
    }
  }

  lemma {:induction false} TaggedLenAppend(a: seq<Chunk>, b: seq<Chunk>)
    ensures TaggedLen(a + b) == TaggedLen(a) + TaggedLen(b)
    decreases |b|
  {
    if b == [] {
      assert a + b == a;
    } else {
      TaggedLenAppend(a, b[..|b| - 1]);
      assert (a + b)[..|a + b| - 1] == a + b[..|b| - 1];
    }
  }

  lemma {:induction false} ChunkLength(selector: nat, f: Frame, w: nat, h: nat, n: nat)
    ensures match ChunkOf(selector, f, w, h, n)
            case None => selector !in {1, 2, 4, 5}
            case Some(c) => selector in {1, 2, 4, 5} && |c.data| == if selector == 5 then 16 else 8
  {
  }

  lemma {:induction false} TaggedLenSnoc(a: seq<Chunk>, c: Chunk)
    ensures TaggedLen(a + [c]) == TaggedLen(a) + |c.data| + TAG_LEN
  {
  }

  /** How long the chunks are does not depend on what they hold. */
  lemma {:induction false} ValuesLength(
    selectors: seq<nat>, f: Frame, w: nat, h: nat, n: nat, f': Frame, w': nat, h': nat, n': nat)
    ensures TaggedLen(ValuesOf(selectors, f, w, h, n)) == TaggedLen(ValuesOf(selectors, f', w', h', n'))
    decreases |selectors|
  {
    hide ChunkOf, TaggedLen;
    if selectors != [] {
      var front, last := selectors[..|selectors| - 1], selectors[|selectors| - 1];
      ValuesLength(front, f, w, h, n, f', w', h', n');
      var a, b := ValuesOf(front, f, w, h, n), ValuesOf(front, f', w', h', n');
      ChunkLength(last, f, w, h, n);
      ChunkLength(last, f', w', h', n');
      var c, c' := ChunkOf(last, f, w, h, n), ChunkOf(last, f', w', h', n');
      if c.Some? {
        TaggedLenSnoc(a, c.value);
        TaggedLenSnoc(b, c'.value);
      }
    }
  }

  /**
   The advertised PayloadSize is the length of the payload the sender builds,
   chunk mode included, for every frame that is not cut short and fits 32
   bits; a frame cut short is never longer.
   */
  lemma {:induction false} AdvertisedIsBuilt(
    s: Settings, deliveredLines: Option<nat>, image: seq<byte>, f: Frame)
    requires |image| == ImageSize(s.pixelFormat, s.width, s.height)
    ensures !CutShort(s, deliveredLines) ==>
              PayloadSize(s) == if |Payload(s, deliveredLines, image, f)| < 0x1_0000_0000
                                then |Payload(s, deliveredLines, image, f)| else 0xFFFF_FFFF
    ensures CutShort(s, deliveredLines) ==>
              |Payload(s, deliveredLines, image, f)| == ImageSize(s.pixelFormat, s.width, deliveredLines.value)
    ensures CutShort(s, deliveredLines) && |image| < 0x1_0000_0000 ==>
              |Payload(s, deliveredLines, image, f)| <= PayloadSize(s)
    ensures !s.ChunkActive() ==> Payload(s, deliveredLines, image, f) <= image
  {
    if CutShort(s, deliveredLines) {
      FewerLinesFewerBytes(s.pixelFormat, s.width, deliveredLines.value, s.height);
    } else if s.ChunkActive() {
      var selectors := Selectors(s.enabled);
      var values := ValuesOf(selectors, f, s.width, s.height, |image|);
      var first := Chunk(CHUNK_ID_IMAGE, image);
      LaidLength([first] + values);
      TaggedLenAppend([first], values);
      assert [first][..0] == [];
      ValuesLength(selectors, f, s.width, s.height, |image|, NO_FRAME, 0, 0, |image|);
    }
  }

  lemma {:induction false} FewerLinesFewerBytes(pixelFormat: nat, width: nat, lines: nat, height: nat)
    requires lines <= height
    ensures ImageSize(pixelFormat, width, lines) <= ImageSize(pixelFormat, width, height)
  {
    var bits := pixelFormat / 0x1_0000 % 256;
    MulMono(width, lines, height);
    MulMono(bits, width * lines, width * height);
  }

  // ---------------------------------------------------------------- what the receiver gets

  lemma {:induction false} ValuesFit(selectors: seq<nat>, f: Frame, w: nat, h: nat, n: nat)
    ensures AllFit(ValuesOf(selectors, f, w, h, n))
    decreases |selectors|
  {
    CapacityValues();
    hide LittleEndian, BigEndian, Capacity;
    if selectors != [] {
      ValuesFit(selectors[..|selectors| - 1], f, w, h, n);
    }
  }

  lemma {:induction false} ChunksAreSelected(selectors: seq<nat>, f: Frame, w: nat, h: nat, n: nat, c: Chunk)
    ensures c in ValuesOf(selectors, f, w, h, n)
            <==> exists i :: 0 <= i < |selectors| && ChunkOf(selectors[i], f, w, h, n) == Some(c)
    decreases |selectors|
  {
    hide ChunkOf;
    if selectors != [] {
      var k := |selectors| - 1;
      var front := selectors[..k];
      ChunksAreSelected(front, f, w, h, n, c);
      assert forall i :: 0 <= i < k ==> front[i] == selectors[i];
      var last := ChunkOf(selectors[k], f, w, h, n);
      if last == Some(c) {
        assert c in ValuesOf(selectors, f, w, h, n);
      } else if i :| 0 <= i < |selectors| && ChunkOf(selectors[i], f, w, h, n) == Some(c) {
        assert ChunkOf(front[i], f, w, h, n) == Some(c);
      }
    }
  }

  lemma {:induction false} SelectorsAreEnabled(enabled: set<nat>, selector: nat)
    ensures selector in Selectors(enabled) <==> selector in enabled && selector in {1, 2, 4, 5}
  {
  }

  /** A chunk is among the values exactly when it is that of an enabled selector. */
  lemma {:induction false} ValuesAreEnabled(enabled: set<nat>, f: Frame, w: nat, h: nat, n: nat, c: Chunk)
    ensures c in ValuesOf(Selectors(enabled), f, w, h, n)
            <==> exists selector :: selector in enabled && ChunkOf(selector, f, w, h, n) == Some(c)
  {
    hide ChunkOf, Selectors;
    var selectors := Selectors(enabled);
    ChunksAreSelected(selectors, f, w, h, n, c);
    if i :| 0 <= i < |selectors| && ChunkOf(selectors[i], f, w, h, n) == Some(c) {
      SelectorsAreEnabled(enabled, selectors[i]);
    }
    if selector :| selector in enabled && ChunkOf(selector, f, w, h, n) == Some(c) {
      ChunkLength(selector, f, w, h, n);
      SelectorsAreEnabled(enabled, selector);
      var i :| 0 <= i < |selectors| && selectors[i] == selector;
      assert ChunkOf(selectors[i], f, w, h, n) == Some(c);
    }
  }

  /**
   A chunk-mode block splits back into the image and, in the selectors' order,
   the chunk of each enabled selector and no other, holding this frame's values.
   */
  lemma {:induction false} BlockSplitsBack(s: Settings, image: seq<byte>, f: Frame)
    requires s.ChunkActive() && |image| < Capacity(4)
    ensures var r := Parse(Payload(s, None, image, f), Big);
            && r.Split? && Stripped(r.chunks) == BlockChunks(s, image, f)
            && (forall c :: c in Stripped(r.chunks)[1..]
                  <==> exists selector :: selector in s.enabled
                                          && ChunkOf(selector, f, s.width, s.height, |image|) == Some(c))
  {
    CapacityValues();
    hide Capacity, ChunkOf, Selectors;
    var chunks := BlockChunks(s, image, f);
    ValuesFit(Selectors(s.enabled), f, s.width, s.height, |image|);
    assert AllFit(chunks);
    ReadsBackIff(chunks, Big);
    assert chunks[1..] == ValuesOf(Selectors(s.enabled), f, s.width, s.height, |image|);
    forall c ensures c in chunks[1..]
      <==> exists selector :: selector in s.enabled && ChunkOf(selector, f, s.width, s.height, |image|) == Some(c)
    {
      ValuesAreEnabled(s.enabled, f, s.width, s.height, |image|, c);
    }
  }

  /** What the receiver makes of a chunk's bytes, by the chunk's id: time, exposure, block id or image description. */
  predicate HoldsTheFrame(c: Chunk, s: Settings, image: seq<byte>, f: Frame) {
    || (c.id == 0x2 && 1 in s.enabled && |c.data| == 8 && FromLittleEndian(c.data) == f.timestamp)
    || (c.id == 0x3 && 2 in s.enabled && |c.data| == 8 && FromLittleEndian(c.data) == f.exposure)
    || (c.id == 0x0504_0003 && 4 in s.enabled && |c.data| == 8 && FromLittleEndian(c.data) == f.blockId)
    || (c.id == 0xA5A5_0100 && 5 in s.enabled && |c.data| == 16
        && FromBigEndian(c.data[0..4]) == s.width && FromBigEndian(c.data[4..8]) == s.height
        && FromBigEndian(c.data[8..12]) == 0 && FromBigEndian(c.data[12..16]) == |image|)
  }

  /** Behind the image the receiver finds, for each enabled selector it knows, that selector's chunk of this frame. */
  lemma {:induction false} ChunksHoldTheFrame(s: Settings, image: seq<byte>, f: Frame)
    requires s.ChunkActive() && |image| < Capacity(4) && s.width < Capacity(4) && s.height < Capacity(4)
    requires f.timestamp < Capacity(8) && f.exposure < Capacity(8) && f.blockId < Capacity(8)
    ensures var r := Parse(Payload(s, None, image, f), Big);
            && r.Split? && Stripped(r.chunks) != [] && Stripped(r.chunks)[0] == Chunk(0x1, image)
            && (forall c :: c in Stripped(r.chunks)[1..] ==> HoldsTheFrame(c, s, image, f))
            && (1 in s.enabled ==> exists c :: c in Stripped(r.chunks)[1..] && c.id == 0x2)
            && (2 in s.enabled ==> exists c :: c in Stripped(r.chunks)[1..] && c.id == 0x3)
            && (4 in s.enabled ==> exists c :: c in Stripped(r.chunks)[1..] && c.id == 0x0504_0003)
            && (5 in s.enabled ==> exists c :: c in Stripped(r.chunks)[1..] && c.id == 0xA5A5_0100)
  {
    hide Parse, Payload, Stripped, Capacity, ChunkOf, HoldsTheFrame;
    BlockSplitsBack(s, image, f);
    var chunks := Stripped(Parse(Payload(s, None, image, f), Big).chunks);
    forall c | c in chunks[1..] ensures HoldsTheFrame(c, s, image, f) {
      var selector :| selector in s.enabled && ChunkOf(selector, f, s.width, s.height, |image|) == Some(c);
      ChunkHolds(selector, s, image, f);
    }
    forall selector | selector in {1, 2, 4, 5} && selector in s.enabled
      ensures ChunkOf(selector, f, s.width, s.height, |image|).Some?
      ensures ChunkOf(selector, f, s.width, s.height, |image|).value in chunks[1..]
      ensures ChunkOf(selector, f, s.width, s.height, |image|).value.id
              == if selector == 1 then 0x2 else if selector == 2 then 0x3
                 else if selector == 4 then 0x0504_0003 else 0xA5A5_0100
    {
      ChunkHolds(selector, s, image, f);
    }
  }

  lemma {:induction false} ChunkHolds(selector: nat, s: Settings, image: seq<byte>, f: Frame)
    requires |image| < Capacity(4) && s.width < Capacity(4) && s.height < Capacity(4)
    requires f.timestamp < Capacity(8) && f.exposure < Capacity(8) && f.blockId < Capacity(8)
    requires selector in s.enabled
    ensures var c := ChunkOf(selector, f, s.width, s.height, |image|);
            && (c.Some? <==> selector in {1, 2, 4, 5})
            && (c.Some? ==>
                  && HoldsTheFrame(c.value, s, image, f)
                  && c.value.id == if selector == 1 then 0x2 else if selector == 2 then 0x3
                                   else if selector == 4 then 0x0504_0003 else 0xA5A5_0100)
  {
    CapacityValues();
    hide LittleEndian, BigEndian, FromLittleEndian, FromBigEndian, Capacity;
    LittleEndianRoundTrip(f.timestamp, 8);
    LittleEndianRoundTrip(f.exposure, 8);
    LittleEndianRoundTrip(f.blockId, 8);
    BigEndianRoundTrip(s.width, 4);
    BigEndianRoundTrip(s.height, 4);
    BigEndianRoundTrip(0, 4);
    BigEndianRoundTrip(|image|, 4);
    var info := BigEndian(s.width, 4) + BigEndian(s.height, 4) + BigEndian(0, 4) + BigEndian(|image|, 4);
    assert info[0..4] == BigEndian(s.width, 4) && info[4..8] == BigEndian(s.height, 4);
    assert info[8..12] == BigEndian(0, 4) && info[12..16] == BigEndian(|image|, 4);
  }
}
