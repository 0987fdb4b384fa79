/** Binning through the camera's registers: a write of the factor is `Binning.Rebinned` of what they say. */
module GigeBinning {
  import opened Arithmetic
  import opened Bytes
  import opened GigeRegisters
  import Binning
  import GigePayload

  /** The registers of one axis. */
  datatype AxisRegisters = AxisRegisters(factor: nat, sensor: nat, maximum: nat, size: nat, offset: nat)

  const HORIZONTAL := AxisRegisters(
    REG_BINNING_HORIZONTAL, REG_SENSOR_WIDTH, REG_WIDTH_MAX, REG_WIDTH, REG_OFFSET_X)
  const VERTICAL := AxisRegisters(
    REG_BINNING_VERTICAL, REG_SENSOR_HEIGHT, REG_HEIGHT_MAX, REG_HEIGHT, REG_OFFSET_Y)

  predicate HasWord(c: Contents, addr: nat) {
    Get(c.regs, addr).Some? && |Get(c.regs, addr).value| == 4
  }

  /** The axis's registers are there, one word each, and the XML does not cover them. */
  predicate Present(c: Contents, r: AxisRegisters) {
    && |c.xml| <= 0x1_0000
    && HasWord(c, r.factor) && HasWord(c, r.sensor) && HasWord(c, r.maximum)
    && HasWord(c, r.size) && HasWord(c, r.offset)
  }

  function Factor(c: Contents, r: AxisRegisters): nat {
    if r == HORIZONTAL then c.binning.0 else c.binning.1
  }

  /** What the registers say of an axis. */
  function AxisOf(c: Contents, r: AxisRegisters): Binning.Axis {
    Binning.Axis(Word(c, r.sensor), Factor(c, r), Word(c, r.maximum), Word(c, r.size), Word(c, r.offset))
  }

  lemma {:induction false} WordIs(c: Contents, addr: nat)
    requires |c.xml| <= 0x1_0000 && HasWord(c, addr) && (addr < XML_BLOB_BASE || addr >= 0x20000)
    ensures Word(c, addr) == FromBigEndian(Get(c.regs, addr).value) < Capacity(4)
  {
    hide FromBigEndian, Capacity;
    var data := Get(c.regs, addr).value;
    assert Fit(data, 4) == data;
    FromBigEndianBounds(data);
  }

  /** Storing a word changes that word and no other. */
  lemma {:induction false} PutWord(c: Contents, addr: nat, value: nat, other: nat)
    requires |c.xml| <= 0x1_0000 && addr >= 0x20000 && other >= 0x20000 && value < Capacity(4)
    requires HasWord(c, other)
    ensures var d := c.(regs := Put(c.regs, addr, BigEndian(value, 4)));
            HasWord(d, other) && Word(d, other) == if other == addr then value else Word(c, other)
  {
    hide FromBigEndian, BigEndian, Capacity, Get, Put, Word;
    var d := c.(regs := Put(c.regs, addr, BigEndian(value, 4)));
    GetPut(c.regs, addr, BigEndian(value, 4), other);
    BigEndianRoundTrip(value, 4);
    WordIs(c, other);
    WordIs(d, other);
  }

  predicate KnownAxis(r: AxisRegisters) {
    r == HORIZONTAL || r == VERTICAL
  }

  /** The three words a change of factor stores, one after the other. */
  function AxisStored(c: Contents, r: AxisRegisters, a: Binning.Axis): Contents {
    var d := c.(regs := Put(c.regs, r.maximum, BigEndian(a.maximum, 4)));
    var e := d.(regs := Put(d.regs, r.size, BigEndian(a.size, 4)));
    e.(regs := Put(e.regs, r.offset, BigEndian(a.offset, 4)))
  }

  lemma {:induction false} AxisStoredReadsBack(c: Contents, r: AxisRegisters, a: Binning.Axis, other: nat)
    requires Present(c, r) && KnownAxis(r)
    requires a.maximum < Capacity(4) && a.size < Capacity(4) && a.offset < Capacity(4)
    requires HasWord(c, other) && other >= 0x20000
    ensures var d := AxisStored(c, r, a);
            && HasWord(d, other)
            && Word(d, other) == if other == r.maximum then a.maximum else if other == r.size then a.size
                                 else if other == r.offset then a.offset else Word(c, other)
  {
    hide HasWord, Word, Put, BigEndian, Capacity;
    var d := c.(regs := Put(c.regs, r.maximum, BigEndian(a.maximum, 4)));
    var e := d.(regs := Put(d.regs, r.size, BigEndian(a.size, 4)));
    PutWord(c, r.maximum, a.maximum, other);
    PutWord(d, r.size, a.size, other);
    PutWord(e, r.offset, a.offset, other);
  }

  lemma {:induction false} RebinnedFits(a: Binning.Axis, factor: nat)
    requires Binning.Inside(a)
    ensures var b := Binning.Rebinned(a, factor);
            b.maximum < Capacity(4) && b.size < Capacity(4) && b.offset < Capacity(4) && b.sensor == a.sensor
  {
    CapacityValues();
    hide Capacity, Binning.Rebinned;
    Binning.RebinKeepsInside(a, factor);
    var b := Binning.Rebinned(a, factor);
    Binning.TimesLaws(Binning.Whole(b.sensor, b.factor), 0, b.factor);
  }

  /** After a write of the factor register the registers say what binning by it makes of the axis. */
  lemma {:induction false} FactorTakesEffect(c: Contents, r: AxisRegisters, now: nat)
    requires Present(c, r) && KnownAxis(r) && Binning.Inside(AxisOf(c, r))
    ensures var d := SideEffects(c, r.factor, now);
            && Present(d, r)
            && AxisOf(d, r) == Binning.Rebinned(AxisOf(c, r), Word(c, r.factor))
            && Binning.Inside(AxisOf(d, r))
  {
    hide HasWord, Word, Put, Get, BigEndian, Capacity, SideEffects, Binning.Inside, Binning.Rebinned;
    var a, factor := AxisOf(c, r), Word(c, r.factor);
    var b := Binning.Rebinned(a, factor);
    RebinnedFits(a, factor);
    Binning.RebinKeepsInside(a, factor);
    OnlyBinningMoves(c, r, now);
    var d := SideEffects(c, r.factor, now);
    if factor == 0 || factor == Factor(c, r) {
      QuietRebin(a, factor);
      AxisUnchanged(c, d, r);
    } else {
      var e := AxisStored(c, r, b);
      AxisUnchanged(e, d, r);
      AxisStoredReadsBack(c, r, b, r.factor);
      AxisStoredReadsBack(c, r, b, r.sensor);
      AxisStoredReadsBack(c, r, b, r.maximum);
      AxisStoredReadsBack(c, r, b, r.size);
      AxisStoredReadsBack(c, r, b, r.offset);
    }
  }

  lemma {:induction false} QuietRebin(a: Binning.Axis, factor: nat)
    requires factor == 0 || factor == a.factor
    ensures Binning.Rebinned(a, factor) == a.(factor := Max(a.factor, 1))
  {
  }

  lemma {:induction false} AxisUnchanged(c: Contents, d: Contents, r: AxisRegisters)
    requires c.regs == d.regs && c.xml == d.xml
    ensures Present(c, r) == Present(d, r)
    ensures AxisOf(d, r) == AxisOf(c, r).(factor := Factor(d, r))
  {
    hide HasWord, Word;
    SameWord(c, d, r.factor);
    SameWord(c, d, r.sensor);
    SameWord(c, d, r.maximum);
    SameWord(c, d, r.size);
    SameWord(c, d, r.offset);
  }

  lemma {:induction false} SameWord(c: Contents, d: Contents, addr: nat)
    requires c.regs == d.regs && c.xml == d.xml
    ensures Word(c, addr) == Word(d, addr) && HasWord(c, addr) == HasWord(d, addr)
  {
    hide FromBigEndian;
  }

  /** How the side effect of a factor register is built. */
  lemma {:induction false} OnlyBinningMoves(c: Contents, r: AxisRegisters, now: nat)
    requires KnownAxis(r)
    ensures var factor := Word(c, r.factor);
            var b := Binning.Rebinned(AxisOf(c, r), factor);
            var d := SideEffects(c, r.factor, now);
            && d.xml == c.xml && AxisStored(c, r, b).xml == c.xml
            && d.regs == (if factor == 0 || factor == Factor(c, r) then c.regs else AxisStored(c, r, b).regs)
            && Factor(d, r) == b.factor
            && (forall q :: KnownAxis(q) && q != r ==> Factor(d, q) == Factor(c, q))
  {
    hide Word, Put, BigEndian, Binning.Rebinned;
  }

  /** The other axis's registers keep what they say. */
  lemma {:induction false} OtherAxisKept(c: Contents, r: AxisRegisters, q: AxisRegisters, now: nat)
    requires Present(c, r) && Present(c, q) && KnownAxis(r) && KnownAxis(q) && q != r
    requires Binning.Inside(AxisOf(c, r))
    ensures var d := SideEffects(c, r.factor, now);
            Present(d, q) && AxisOf(d, q) == AxisOf(c, q)
  {
    hide HasWord, Word, Put, Get, BigEndian, Capacity, SideEffects, Binning.Inside, Binning.Rebinned;
    var factor := Word(c, r.factor);
    var b := Binning.Rebinned(AxisOf(c, r), factor);
    RebinnedFits(AxisOf(c, r), factor);
    OnlyBinningMoves(c, r, now);
    var d := SideEffects(c, r.factor, now);
    if factor == 0 || factor == Factor(c, r) {
      AxisUnchanged(c, d, q);
    } else {
      AxisUnchanged(AxisStored(c, r, b), d, q);
      AxisStoredReadsBack(c, r, b, q.factor);
      AxisStoredReadsBack(c, r, b, q.sensor);
      AxisStoredReadsBack(c, r, b, q.maximum);
      AxisStoredReadsBack(c, r, b, q.size);
      AxisStoredReadsBack(c, r, b, q.offset);
    }
  }

  // ---------------------------------------------------------------- a run of binning writes

  /** A write of a factor to one axis's binning register. */
  datatype FactorWrite = FactorWrite(axis: AxisRegisters, factor: nat)

  predicate Valid(w: FactorWrite) {
    KnownAxis(w.axis) && w.factor < Capacity(4)
  }

  /** A four-byte write, side effects included. */
  function FactorWritten(c: Contents, w: FactorWrite, now: nat): Contents {
    SideEffects(Write(c, w.axis.factor, BigEndian(w.factor, 4)), w.axis.factor, now)
  }

  function FactorsWritten(c: Contents, writes: seq<FactorWrite>, now: nat): Contents {
    if writes == [] then c
    else FactorWritten(FactorsWritten(c, writes[..|writes| - 1], now), writes[|writes| - 1], now)
  }

  /** The factors written to one axis, in order. */
  function FactorsOf(writes: seq<FactorWrite>, r: AxisRegisters): seq<nat> {
    if writes == [] then []
    else
      var front, last := FactorsOf(writes[..|writes| - 1], r), writes[|writes| - 1];
      if last.axis == r then front + [last.factor] else front
  }

  /** Writing a factor changes its register only; the rest of both axes waits for the side effect. */
  lemma {:induction false} WriteFactor(c: Contents, w: FactorWrite, q: AxisRegisters)
    requires Valid(w) && KnownAxis(q) && Present(c, w.axis) && Present(c, q)
    ensures var d := Write(c, w.axis.factor, BigEndian(w.factor, 4));
            && Present(d, q) && AxisOf(d, q) == AxisOf(c, q) && Word(d, w.axis.factor) == w.factor
  {
    hide HasWord, Word, BigEndian, Capacity, Get, Put;
    var addr := w.axis.factor;
    StoredWord(c, addr, BigEndian(w.factor, 4));
    PutWord(c, addr, w.factor, addr);
    PutWord(c, addr, w.factor, q.factor);
    PutWord(c, addr, w.factor, q.sensor);
    PutWord(c, addr, w.factor, q.maximum);
    PutWord(c, addr, w.factor, q.size);
    PutWord(c, addr, w.factor, q.offset);
  }

  lemma {:induction false} StoredWord(c: Contents, addr: nat, data: seq<byte>)
    requires HasWord(c, addr) && |data| == 4
    ensures Stored(c, addr, data) == c.(regs := Put(c.regs, addr, data))
  {
    assert Overlaid(Get(c.regs, addr).value, 0, data) == data;
  }

  /** Both axes are there and their regions inside their maximums. */
  predicate BothInside(c: Contents) {
    && Present(c, HORIZONTAL) && Binning.Inside(AxisOf(c, HORIZONTAL))
    && Present(c, VERTICAL) && Binning.Inside(AxisOf(c, VERTICAL))
  }

  /** One write does to its axis what the arithmetic says, and nothing to the other. */
  lemma {:induction false} FactorWriteActs(c: Contents, w: FactorWrite, q: AxisRegisters, now: nat)
    requires Valid(w) && KnownAxis(q) && BothInside(c)
    ensures var d := FactorWritten(c, w, now);
            && Present(d, q)
            && AxisOf(d, q) == (if q == w.axis then Binning.Rebinned(AxisOf(c, q), w.factor) else AxisOf(c, q))
            && Binning.Inside(AxisOf(d, q))
  {
    hide Present, AxisOf, SideEffects, Write, Word, Capacity, Binning.Inside, Binning.Rebinned;
    var d := Write(c, w.axis.factor, BigEndian(w.factor, 4));
    WriteFactor(c, w, w.axis);
    WriteFactor(c, w, q);
    FactorTakesEffect(d, w.axis, now);
    if q != w.axis {
      OtherAxisKept(d, w.axis, q, now);
    }
  }

  /**
   After any run of binning writes, to either axis in any order, that starts
   with both regions inside their maximums, the registers hold regions inside
   their maximums, each maximum the sensor size divided by the factor in force,
   and each axis is what the factors written to it make of it.
   */
  lemma {:induction false} RegistersStayInside(c: Contents, writes: seq<FactorWrite>, q: AxisRegisters, now: nat)
    requires BothInside(c) && KnownAxis(q) && forall i :: 0 <= i < |writes| ==> Valid(writes[i])
    ensures var d := FactorsWritten(c, writes, now);
            BothInside(d) && AxisOf(d, q) == Binning.RebinnedAll(AxisOf(c, q), FactorsOf(writes, q))
    decreases |writes|
  {
    hide Present, AxisOf, FactorWritten, Valid, Binning.Inside, Binning.Rebinned;
    if writes != [] {
      var front, last := writes[..|writes| - 1], writes[|writes| - 1];
      RegistersStayInside(c, front, q, now);
      var d := FactorsWritten(c, front, now);
      FactorWriteActs(d, last, HORIZONTAL, now);
      FactorWriteActs(d, last, VERTICAL, now);
      var fs := FactorsOf(front, q);
      assert (fs + [last.factor])[..|fs|] == fs;
    }
  }

  // ---------------------------------------------------------------- PayloadSize

  /** PayloadSize reads as the length of the payload the sender builds from the same registers. */
  lemma {:induction false} PayloadSizeIsBuilt(
    c: Contents, controller: Option<Address>, image: seq<byte>, f: GigePayload.Frame)
    requires |c.xml| <= 0x1_0000
    requires var s := Settings(c);
             |image| == GigePayload.ImageSize(s.pixelFormat, s.width, s.height)
    requires |GigePayload.Payload(Settings(c), None, image, f)| < Capacity(4)
    ensures FromBigEndian(Read(c, controller, REG_PAYLOAD_SIZE, 4))
            == |GigePayload.Payload(Settings(c), None, image, f)|
  {
    CapacityValues();
    hide Capacity, Word, FromBigEndian, BigEndian, GigePayload.Payload, GigePayload.PayloadSize;
    GigePayload.AdvertisedIsBuilt(Settings(c), None, image, f);
    var size := GigePayload.PayloadSize(Settings(c));
    BigEndianRoundTrip(size, 4);
    assert Fit(BigEndian(size, 4), 4) == BigEndian(size, 4);
  }

  /** What the payload is built from follows the words written to its registers, each to its own setting. */
  lemma {:induction false} SettingsFollow(c: Contents, addr: nat, value: nat)
    requires |c.xml| <= 0x1_0000 && value < Capacity(4) && HasWord(c, addr)
    requires HasWord(c, 0x20000) && HasWord(c, 0x20004) && HasWord(c, 0x20008) && HasWord(c, 0x20080)
    requires addr in {0x20000, 0x20004, 0x20008, 0x20080}
    ensures var s := Settings(c);
            Settings(Write(c, addr, BigEndian(value, 4))) ==
            match addr
            case 0x20000 => s.(width := value)
            case 0x20004 => s.(height := value)
            case 0x20008 => s.(pixelFormat := value)
            case _ => s.(chunkMode := value)
  {
    hide HasWord, Word, BigEndian, Capacity, Get, Put;
    StoredWord(c, addr, BigEndian(value, 4));
    PutWord(c, addr, value, 0x20000);
    PutWord(c, addr, value, 0x20004);
    PutWord(c, addr, value, 0x20008);
    PutWord(c, addr, value, 0x20080);
  }
}
