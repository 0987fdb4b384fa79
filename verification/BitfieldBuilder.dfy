/**
 How the XML parser collects a node's bit field - a bit range, a bit with a
 length, or a mask - and what the resulting field extracts.
 */
module BitfieldBuilder {
  import opened Arithmetic
  import opened Bytes
  import opened Bits
  import opened BitOps

  datatype Source = LsbMsb | BitLength | Masked

  /** An element of the node, as it is met. */
  datatype Note =
    | NoteLsb(value: nat)
    | NoteMsb(value: nat)
    | NoteBit(value: nat)
    | NoteLength(value: nat)
    | NoteMask(value: nat)
    | NoteOrder(order: ByteOrder)
  {
    predicate Declares() { !NoteOrder? }

    function Kind(): Source
      requires Declares()
    {
      match this
      case NoteLsb(_) => LsbMsb
      case NoteMsb(_) => LsbMsb
      case NoteBit(_) => BitLength
      case NoteLength(_) => BitLength
      case _ => Masked
    }
  }

  datatype Declared = Declared(
    lsb: Option<nat>, msb: Option<nat>, bit: Option<nat>, bitLength: Option<nat>, mask: Option<nat>,
    order: Option<ByteOrder>, source: Option<Source>)

  const NOTHING := Declared(None, None, None, None, None, None, None)

  /** The first source declared wins: notes of another are ignored, and so is a second mask. */
  function Noted(d: Declared, n: Note): Declared {
    if n.NoteOrder? then d.(order := Some(n.order))
    else if d.source.Some? && (d.source.value != n.Kind() || n.NoteMask?) then d
    else
      var e := d.(source := Some(n.Kind()));
      match n
      case NoteLsb(v) => e.(lsb := Some(v))
      case NoteMsb(v) => e.(msb := Some(v))
      case NoteBit(v) => e.(bit := Some(v))
      case NoteLength(v) => e.(bitLength := Some(v))
      case NoteMask(v) => e.(mask := Some(v))
      case NoteOrder(o) => e
  }

  function NotedAll(notes: seq<Note>): Declared {
    if notes == [] then NOTHING else Noted(NotedAll(notes[..|notes| - 1]), notes[|notes| - 1])
  }

  // ---------------------------------------------------------------- the field

  datatype Invalid =
    | Missing(element: string)
    | ZeroLength
    | TooLong
    | BadRange
    | ZeroMask
    | EmptyField
    | FieldTooWide
    | OffsetTooFar
    | WiderThanRegister

  datatype Outcome = NoField | Built(field: BitField) | Rejected(reason: Invalid)

  function TrailingZeros(m: nat): (t: nat)
    requires m > 0
  {
    if m % 2 == 1 then 0 else 1 + TrailingZeros(m / 2)
  }

  function Ones(m: nat): nat {
    if m == 0 then 0 else m % 2 + Ones(m / 2)
  }

  datatype Range = Range(first: nat, length: nat) | NoRange(reason: Invalid)

  /** The lowest bit number and the length the declaration gives. */
  function RangeOf(d: Declared): Range
    requires d.source.Some?
  {
    match d.source.value
    case LsbMsb =>
      if d.lsb.None? then NoRange(Missing("LSB"))
      else if d.msb.None? then NoRange(Missing("MSB"))
      else
        var lower, upper := Min(d.lsb.value, d.msb.value), Max(d.lsb.value, d.msb.value);
        if upper - lower + 1 >= 0x1_0000_0000 then NoRange(BadRange) else Range(lower, upper - lower + 1)
    case BitLength =>
      if d.bit.None? then NoRange(Missing("Bit"))
      else Range(d.bit.value, if d.bitLength.Some? then d.bitLength.value else 1)
    case Masked =>
      if d.mask.None? then NoRange(Missing("Mask"))
      else if d.mask.value == 0 then NoRange(ZeroMask)
      else Range(TrailingZeros(d.mask.value), Ones(d.mask.value))
  }

  function OrderOf(d: Declared): ByteOrder {
    if d.order.Some? then d.order.value else Little
  }

  /** The field of a register of `lenBytes` bytes, if the declaration gives one. */
  function Finished(d: Declared, lenBytes: nat): Outcome {
    if d.source.None? then NoField
    else if lenBytes == 0 then Rejected(ZeroLength)
    else if lenBytes * 8 >= 0x1_0000_0000 then Rejected(TooLong)
    else
      match RangeOf(d)
      case NoRange(reason) => Rejected(reason)
      case Range(first, length) =>
        if length == 0 then Rejected(EmptyField)
        else if length > 64 then Rejected(FieldTooWide)
        else if first > 65535 then Rejected(OffsetTooFar)
        else if first + length > lenBytes * 8 then Rejected(WiderThanRegister)
        else
          var offset := if d.source.value == Masked && OrderOf(d) == Big
                        then lenBytes * 8 - length - first else first;
          if offset > 65535 then Rejected(OffsetTooFar) else Built(BitField(offset, length, OrderOf(d)))
  }

  class Builder {
    var lsb: Option<nat>
    var msb: Option<nat>
    var bit: Option<nat>
    var bitLength: Option<nat>
    var mask: Option<nat>
    var byteOrder: Option<ByteOrder>
    var source: Option<Source>

    ghost function State(): Declared
      reads this
    {
      Declared(lsb, msb, bit, bitLength, mask, byteOrder, source)
    }

    constructor ()
      ensures State() == NOTHING
    {
      lsb, msb, bit, bitLength, mask, byteOrder, source := None, None, None, None, None, None, None;
    }

    method NoteLsb(value: nat)
      modifies this
      ensures State() == Noted(old(State()), Note.NoteLsb(value))
    {
      if source.Some? && source.value != LsbMsb {
        return;
      }
      if source.None? {
        source := Some(LsbMsb);
      }
      lsb := Some(value);
    }

    method NoteMsb(value: nat)
      modifies this
      ensures State() == Noted(old(State()), Note.NoteMsb(value))
    {
      if source.Some? && source.value != LsbMsb {
        return;
      }
      if source.None? {
        source := Some(LsbMsb);
      }
      msb := Some(value);
    }

    method NoteBit(value: nat)
      modifies this
      ensures State() == Noted(old(State()), Note.NoteBit(value))
    {
      if source.Some? && source.value != BitLength {
        return;
      }
      if source.None? {
        source := Some(BitLength);
      }
      bit := Some(value);
    }

    method NoteLength(value: nat)
      modifies this
      ensures State() == Noted(old(State()), Note.NoteLength(value))
    {
      if source.Some? && source.value != BitLength {
        return;
      }
      if source.None? {
        source := Some(BitLength);
      }
      bitLength := Some(value);
    }

    method NoteMask(value: nat)
      modifies this
      ensures State() == Noted(old(State()), Note.NoteMask(value))
    {
      if source.Some? {
        return;
      }
      source := Some(Masked);
      mask := Some(value);
    }

    method NoteOrder(order: ByteOrder)
      modifies this
      ensures State() == Noted(old(State()), Note.NoteOrder(order))
    {
      byteOrder := Some(order);
    }
  }

  // ---------------------------------------------------------------- only the first source counts

  /** The source of the first note that declares one. */
  function FirstKind(notes: seq<Note>): Option<Source> {
    if notes == [] then None
    else
      var before := FirstKind(notes[..|notes| - 1]);
      var last := notes[|notes| - 1];
      if before.Some? || !last.Declares() then before else Some(last.Kind())
  }

  /** The byte orders and the notes of one source. */
  function OfKind(notes: seq<Note>, k: Source): seq<Note> {
    if notes == [] then []
    else
      var last := notes[|notes| - 1];
      if last.Declares() && last.Kind() != k then OfKind(notes[..|notes| - 1], k)
      else OfKind(notes[..|notes| - 1], k) + [last]
  }

  lemma {:induction false} SourceIsFirst(notes: seq<Note>)
    ensures NotedAll(notes).source == FirstKind(notes)
  {
    if notes != [] {
      SourceIsFirst(notes[..|notes| - 1]);
    }
  }

  lemma {:induction false} NotedSnoc(notes: seq<Note>, n: Note)
    ensures NotedAll(notes + [n]) == Noted(NotedAll(notes), n)
  {
  }

  /** Before any source is declared only byte orders were met, so every filter keeps them all. */
  lemma {:induction false} NoSourceYet(notes: seq<Note>, k: Source)
    requires FirstKind(notes).None?
    ensures OfKind(notes, k) == notes
  {
    if notes != [] {
      NoSourceYet(notes[..|notes| - 1], k);
      assert notes == notes[..|notes| - 1] + [notes[|notes| - 1]];
    }
  }

  /** Notes of any source but the first declared change nothing; byte orders always count. */
  lemma {:induction false} OnlyFirstSourceCounts(notes: seq<Note>)
    requires FirstKind(notes).Some?
    ensures NotedAll(notes) == NotedAll(OfKind(notes, FirstKind(notes).value))
  {
    hide Noted;
    var front, last := notes[..|notes| - 1], notes[|notes| - 1];
    var k := FirstKind(notes).value;
    if FirstKind(front).Some? {
      OnlyFirstSourceCounts(front);
    } else {
      NoSourceYet(front, k);
    }
    SourceIsFirst(front);
    NotedSnoc(OfKind(front, k), last);
    if last.Declares() && last.Kind() != k {
      OtherKindIgnored(NotedAll(front), last);
    }
  }

  lemma {:induction false} OtherKindIgnored(d: Declared, n: Note)
    requires n.Declares() && d.source.Some? && d.source.value != n.Kind()
    ensures Noted(d, n) == d
  {
  }

  // ---------------------------------------------------------------- what is accepted is in range

  /** Every field built for a register of one to eight bytes is one the bit operations accept. */
  lemma {:induction false} AcceptedIsInRange(d: Declared, lenBytes: nat)
    requires 1 <= lenBytes <= 8 && Finished(d, lenBytes).Built?
    ensures InRange(lenBytes, Finished(d, lenBytes).field)
    ensures Validated(lenBytes, Finished(d, lenBytes).field).None?
  {
  }

  /** The bit numbers a range or bit declaration names: from the lowest to the highest. */
  predicate Names(d: Declared, i: nat)
    requires d.source.Some?
  {
    match RangeOf(d)
    case Range(first, length) => first <= i < first + length
    case NoRange(_) => false
  }

  /**
   A field declared by bit numbers extracts exactly the register bits of those
   numbers, counted from the most significant bit on big-endian registers and
   from the least significant on little-endian ones; the number nearest the
   least significant end is the value's bit 0.
   */
  lemma {:induction false} ExtractsNamedBits(d: Declared, bytes: seq<byte>, k: nat)
    requires 1 <= |bytes| <= 8 && Finished(d, |bytes|).Built? && d.source.value != Masked
    requires k < Finished(d, |bytes|).field.length
    ensures var bf := Finished(d, |bytes|).field;
            var first := RangeOf(d).first;
            var i := if bf.order.Little? then first + k else first + bf.length - 1 - k;
            && bf.length == RangeOf(d).length && Names(d, i)
            && Bit(Extracted(bytes, bf).value, k) == RegisterBit(bytes, bf.order, i)
  {
    AcceptedIsInRange(d, |bytes|);
    hide TrailingZeros, Ones, Bit, RegisterBit;
    ExtractNamesBits(bytes, Finished(d, |bytes|).field, k);
  }

  // ---------------------------------------------------------------- masks

  /** Whether both numbers are odd, as a digit. */
  function Both(a: nat, b: nat): (r: nat)
    ensures r < 2
  {
    if a % 2 == 1 && b % 2 == 1 then 1 else 0
  }

  /** Bitwise and. */
  function And(a: nat, b: nat): nat {
    if a == 0 || b == 0 then 0 else Both(a, b) + 2 * And(a / 2, b / 2)
  }

  lemma {:induction false} AndStep(a: nat, b: nat)
    ensures And(a, b) % 2 == Both(a, b) && And(a, b) / 2 == And(a / 2, b / 2)
  {
  }

  lemma {:induction false} AndHigh(a: nat, b: nat, s: nat)
    ensures High(And(a, b), s) == And(High(a, s), High(b, s))
  {
    if s == 0 {
    } else {
      AndStep(a, b);
      AndHigh(a / 2, b / 2, s - 1);
      HighHalf(And(a, b), s);
      HighHalf(a, s);
      HighHalf(b, s);
    }
  }

  lemma {:induction false} HighHalf(v: nat, s: nat)
    requires s > 0
    ensures High(v, s) == High(v / 2, s - 1)
  {
    ModProduct(v, 2, Pow2(s - 1));
  }

  /** And with `l` ones keeps the `l` low digits. */
  lemma {:induction false} AndOnes(a: nat, l: nat)
    ensures And(a, Pow2(l) - 1) == Low(a, l)
    decreases l
  {
    if l == 0 {
      HighLow(a, 0);
    } else {
      AndStep(a, Pow2(l) - 1);
      LowBit(a, l);
      assert (Pow2(l) - 1) / 2 == Pow2(l - 1) - 1 && (Pow2(l) - 1) % 2 == 1;
      hide And, Low, Pow2;
      AndOnes(a / 2, l - 1);
    }
  }

  lemma {:induction false} AndCommutes(a: nat, b: nat)
    ensures And(a, b) == And(b, a)
  {
    if a != 0 && b != 0 {
      AndCommutes(a / 2, b / 2);
    }
  }

  lemma {:induction false} DoubleProduct(h: nat, p: nat)
    ensures h * (2 * p) == 2 * (h * p)
  {
  }

  lemma {:induction false} MaskParts(m: nat)
    requires m > 0
    ensures var t := TrailingZeros(m);
            m == High(m, t) * Pow2(t) && Ones(High(m, t)) == Ones(m) && Ones(m) >= 1
  {
    if m % 2 == 0 {
      MaskParts(m / 2);
      var t := TrailingZeros(m);
      HighHalf(m, t);
      hide High;
      DoubleProduct(High(m, t), Pow2(t - 1));
    }
  }

  lemma {:induction false} OnesSplit(m: nat, l: nat)
    ensures Ones(m) == Ones(Low(m, l)) + Ones(High(m, l))
    decreases l
  {
    if l > 0 {
      OnesSplit(m / 2, l - 1);
      LowBit(m, l);
      HighHalf(m, l);
      OnesHalf(m);
      OnesHalf(Low(m, l));
    }
  }

  lemma {:induction false} OnesHalf(m: nat)
    ensures Ones(m) == m % 2 + Ones(m / 2)
  {
  }

  lemma {:induction false} OnesOfOnes(l: nat)
    ensures Ones(Pow2(l) - 1) == l
  {
    if l > 0 {
      OnesOfOnes(l - 1);
      OnesHalf(Pow2(l) - 1);
    }
  }

  lemma {:induction false} NoOnes(m: nat)
    requires Ones(m) == 0
    ensures m == 0
  {
    if m != 0 {
      OnesHalf(m);
      NoOnes(m / 2);
    }
  }

  /** A mask whose ones have no zeros between them. */
  predicate Contiguous(m: nat)
    requires m > 0
  {
    High(m, TrailingZeros(m)) == Pow2(Ones(m)) - 1
  }

  function MaskField(m: nat, order: ByteOrder, n: nat): BitField
    requires m > 0 && TrailingZeros(m) + Ones(m) <= 8 * n
  {
    BitField(if order == Big then n * 8 - Ones(m) - TrailingZeros(m) else TrailingZeros(m), Ones(m), order)
  }

  /** In both byte orders a mask's field is the digits from its lowest one on, as many as it has ones. */
  lemma {:induction false} MaskExtracts(m: nat, order: ByteOrder, bytes: seq<byte>)
    requires m > 0 && TrailingZeros(m) + Ones(m) <= 8 * |bytes| <= 64
    ensures var bf := MaskField(m, order, |bytes|);
            && InRange(|bytes|, bf)
            && Extracted(bytes, bf) == Ok(Field(Number(bytes, order), TrailingZeros(m), Ones(m)))
  {
    hide TrailingZeros, Ones, Field, Number;
    MaskParts(m);
  }

  lemma {:induction false} ContiguousMasksAgree(m: nat, v: nat)
    requires m > 0 && Contiguous(m)
    ensures Field(v, TrailingZeros(m), Ones(m)) == High(And(v, m), TrailingZeros(m))
  {
    hide TrailingZeros, Ones, High, Low, And;
    AndHigh(v, m, TrailingZeros(m));
    AndOnes(High(v, TrailingZeros(m)), Ones(m));
  }

  /** The number with every bit of the field set tells a mask with a gap from one without. */
  lemma {:induction false} GapShows(m: nat)
    requires m > 0
    ensures var t, l := TrailingZeros(m), Ones(m);
            var v := (Pow2(l) - 1) * Pow2(t);
            && v < Pow2(t + l)
            && (Field(v, t, l) == High(And(v, m), t) ==> Contiguous(m))
  {
    hide TrailingZeros, Ones, Bit, And, Pow2;
    var t, l := TrailingZeros(m), Ones(m);
    var ones := Pow2(l) - 1;
    var v := ones * Pow2(t);
    MulMono(Pow2(t), 0, ones);
    Pow2Add(l, t);
    assert v == Pow2(l) * Pow2(t) - Pow2(t);
    Split(v, t, ones, 0);
    Split(ones, l, 0, ones);
    AndHigh(v, m, t);
    AndCommutes(ones, High(m, t));
    AndOnes(High(m, t), l);
    hide High, Low;
    if Field(v, t, l) == High(And(v, m), t) {
      MaskParts(m);
      AllOnes(High(m, t), l);
    }
  }

  lemma {:induction false} AllOnes(m: nat, l: nat)
    requires Ones(m) == l && Low(m, l) == Pow2(l) - 1
    ensures m == Pow2(l) - 1
  {
    hide Ones;
    OnesSplit(m, l);
    OnesOfOnes(l);
    NoOnes(High(m, l));
    HighLow(m, l);
  }

  /**
   A mask's field is the register masked and shifted down, for every register
   value and in both byte orders, exactly when the mask has no gap.
   */
  lemma {:induction false} MaskIff(m: nat, order: ByteOrder, n: nat)
    requires m > 0 && TrailingZeros(m) + Ones(m) <= 8 * n <= 64
    ensures (forall bytes: seq<byte> :: |bytes| == n ==>
               Extracted(bytes, MaskField(m, order, n)) == Ok(High(And(Number(bytes, order), m), TrailingZeros(m))))
            <==> Contiguous(m)
  {
    hide TrailingZeros, Ones, Field, Number, High, And, Pow2, Contiguous, Extracted, MaskField, ToBytes;
    var t, l := TrailingZeros(m), Ones(m);
    if Contiguous(m) {
      forall bytes: seq<byte> | |bytes| == n
        ensures Extracted(bytes, MaskField(m, order, n)) == Ok(High(And(Number(bytes, order), m), t))
      {
        MaskExtracts(m, order, bytes);
        ContiguousMasksAgree(m, Number(bytes, order));
      }
    } else {
      var v := (Pow2(l) - 1) * Pow2(t);
      GapShows(m);
      Pow2Mono(t + l, 8 * n);
      var bytes := ToBytes(v, n, order);
      CapacityIsPow2(n);
      BytesReadBack(v, n, order);
      MaskExtracts(m, order, bytes);
      assert Extracted(bytes, MaskField(m, order, n)) != Ok(High(And(Number(bytes, order), m), t));
    }
  }

  /** What the builder makes of a mask is that field. */
  lemma {:induction false} MaskBuilds(d: Declared, n: nat)
    requires 1 <= n <= 8 && d.source == Some(Masked) && d.mask.Some?
    ensures d.mask.value > 0 && TrailingZeros(d.mask.value) + Ones(d.mask.value) <= 8 * n ==>
              Finished(d, n) == Built(MaskField(d.mask.value, OrderOf(d), n))
    ensures Finished(d, n).Built? ==>
              d.mask.value > 0 && TrailingZeros(d.mask.value) + Ones(d.mask.value) <= 8 * n
  {
    hide TrailingZeros, Ones;
    if d.mask.value > 0 {
      MaskParts(d.mask.value);
    }
  }

  /** A mask with a gap: 0b101 on a one-byte register holding 0b110 reads 2, not 0b100. */
  lemma {:induction false} GappedMask()
    ensures !Contiguous(5)
    ensures Extracted([6], MaskField(5, Little, 1)) == Ok(2) && And(6, 5) == 4
  {
    assert TrailingZeros(5) == 0;
    assert Ones(2) == 1 && Ones(5) == 2;
    assert Pow2(2) == 4;
    assert And(3, 2) == 2;
    assert FromLittleEndian([6]) == 6;
  }
}
