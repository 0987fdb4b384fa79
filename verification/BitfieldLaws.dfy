/**
 What a declared bit field reads, said of the numbers the XML elements hold:
 from the elements as they are met to the bits of the register.
 */
module BitfieldLaws {
  import opened Arithmetic
  import opened Bytes
  import opened Bits
  import opened BitOps
  import opened BitfieldBuilder

  // ---------------------------------------------------------------- from elements to declarations

  /** The value of the last element of one sort. */
  function Last(notes: seq<Note>, value: Note -> Option<nat>): Option<nat> {
    if notes == [] then None
    else if value(notes[|notes| - 1]).Some? then value(notes[|notes| - 1])
    else Last(notes[..|notes| - 1], value)
  }

  function FirstMask(notes: seq<Note>): Option<nat> {
    if notes == [] then None
    else if notes[0].NoteMask? then Some(notes[0].value)
    else FirstMask(notes[1..])
  }

  function LastOrder(notes: seq<Note>): Option<ByteOrder> {
    if notes == [] then None
    else if notes[|notes| - 1].NoteOrder? then Some(notes[|notes| - 1].order)
    else LastOrder(notes[..|notes| - 1])
  }

  const LSB := (n: Note) => if n.NoteLsb? then Some(n.value) else None
  const MSB := (n: Note) => if n.NoteMsb? then Some(n.value) else None
  const BIT := (n: Note) => if n.NoteBit? then Some(n.value) else None
  const LENGTH := (n: Note) => if n.NoteLength? then Some(n.value) else None

  /** The source is that of the first element that is no byte order. */
  function SourceOf(notes: seq<Note>): Option<Source> {
    if notes == [] then None
    else
      match notes[0]
      case NoteOrder(_) => SourceOf(notes[1..])
      case NoteLsb(_) => Some(LsbMsb)
      case NoteMsb(_) => Some(LsbMsb)
      case NoteBit(_) => Some(BitLength)
      case NoteLength(_) => Some(BitLength)
      case NoteMask(_) => Some(Masked)
  }

  lemma {:induction false} SourceSnoc(notes: seq<Note>, n: Note)
    ensures SourceOf(notes + [n]) == if SourceOf(notes).Some? then SourceOf(notes) else SourceOf([n])
  {
    if notes == [] {
      assert notes + [n] == [n];
    } else {
      assert (notes + [n])[1..] == notes[1..] + [n];
      SourceSnoc(notes[1..], n);
    }
  }

  lemma {:induction false} SourceOfOne(n: Note)
    ensures SourceOf([n]) == if n.NoteOrder? then None else Some(n.Kind())
  {
    assert [n][1..] == [];
  }

  lemma {:induction false} FirstMaskSnoc(notes: seq<Note>, n: Note)
    ensures FirstMask(notes + [n])
            == if FirstMask(notes).Some? then FirstMask(notes) else if n.NoteMask? then Some(n.value) else None
  {
    if notes == [] {
      assert notes + [n] == [n] && [n][1..] == [];
    } else {
      assert (notes + [n])[1..] == notes[1..] + [n];
      FirstMaskSnoc(notes[1..], n);
    }
  }

  /** Without a source there is no mask yet. */
  lemma {:induction false} NoMaskYet(notes: seq<Note>)
    requires SourceOf(notes).None?
    ensures FirstMask(notes).None?
  {
    if notes != [] {
      NoMaskYet(notes[1..]);
    }
  }

  lemma {:induction false} MaskedHasMask(notes: seq<Note>)
    requires SourceOf(notes) == Some(Masked)
    ensures FirstMask(notes).Some?
  {
    if !notes[0].NoteMask? {
      MaskedHasMask(notes[1..]);
    }
  }

  /** No element of a source before the source. */
  lemma {:induction false} NothingYet(notes: seq<Note>)
    requires SourceOf(notes).None?
    ensures forall i :: 0 <= i < |notes| ==> notes[i].NoteOrder?
  {
    if notes != [] {
      NothingYet(notes[1..]);
      assert forall i :: 0 < i < |notes| ==> notes[i] == notes[1..][i - 1];
    }
  }

  lemma {:induction false} OrdersHaveNoValue(notes: seq<Note>)
    requires forall i :: 0 <= i < |notes| ==> notes[i].NoteOrder?
    ensures Last(notes, LSB).None? && Last(notes, MSB).None? && Last(notes, BIT).None? && Last(notes, LENGTH).None?
  {
    if notes != [] {
      OrdersHaveNoValue(notes[..|notes| - 1]);
    }
  }

  /** What a node declares: the last value of each element of the first source, and the last byte order. */
  ghost predicate Declares(notes: seq<Note>, d: Declared) {
    var source := SourceOf(notes);
    && d.source == source && d.order == LastOrder(notes)
    && d.lsb == (if source == Some(LsbMsb) then Last(notes, LSB) else None)
    && d.msb == (if source == Some(LsbMsb) then Last(notes, MSB) else None)
    && d.bit == (if source == Some(BitLength) then Last(notes, BIT) else None)
    && d.bitLength == (if source == Some(BitLength) then Last(notes, LENGTH) else None)
    && d.mask == (if source == Some(Masked) then FirstMask(notes) else None)
  }

  /** The builder, fed a node's elements in any order, ends with what the node declares. */
  lemma {:induction false} NotesLand(notes: seq<Note>)
    ensures Declares(notes, NotedAll(notes))
  {
    if notes != [] {
      var front, last := notes[..|notes| - 1], notes[|notes| - 1];
      NotesLand(front);
      assert notes == front + [last];
      SourceSnoc(front, last);
      SourceOfOne(last);
      FirstMaskSnoc(front, last);
      if SourceOf(front).None? {
        NothingYet(front);
        OrdersHaveNoValue(front);
        NoMaskYet(front);
      } else if SourceOf(front) == Some(Masked) {
        MaskedHasMask(front);
      }
    }
  }

  // ---------------------------------------------------------------- from declarations to bits

  /** The byte order declared, little-endian when none is. */
  function Order(d: Declared): ByteOrder {
    match d.order
    case Some(order) => order
    case None => Little
  }

  /** The field extracts register bits `low` to `high`, the one nearest the least significant end as its bit 0. */
  ghost predicate Reads(field: BitField, order: ByteOrder, n: nat, low: nat, high: nat)
    requires low <= high < 8 * n <= 64
  {
    && field.order == order && field.length == high - low + 1
    && (forall bytes: seq<byte> :: |bytes| == n ==>
          Extracted(bytes, field).Ok? && Extracted(bytes, field).value < Pow2(high - low + 1))
    && (forall bytes: seq<byte>, k: nat :: |bytes| == n && k <= high - low ==>
          && Extracted(bytes, field).Ok?
          && Bit(Extracted(bytes, field).value, k)
             == RegisterBit(bytes, order, if order.Little? then low + k else high - k))
  }

  lemma {:induction false} FieldReads(n: nat, low: nat, high: nat, order: ByteOrder)
    requires low <= high < 8 * n <= 64
    ensures Reads(BitField(low, high - low + 1, order), order, n, low, high)
  {
    hide Bit, RegisterBit, Pow2, Extracted;
    var field := BitField(low, high - low + 1, order);
    forall bytes: seq<byte>, k: nat | |bytes| == n && k <= high - low
      ensures Extracted(bytes, field).Ok?
      ensures Bit(Extracted(bytes, field).value, k)
              == RegisterBit(bytes, order, if order.Little? then low + k else high - k)
    {
      ExtractNamesBits(bytes, field, k);
    }
    forall bytes: seq<byte> | |bytes| == n
      ensures Extracted(bytes, field).Ok? && Extracted(bytes, field).value < Pow2(high - low + 1)
    {
      ExtractNamesBits(bytes, field, 0);
    }
  }

  /**
   A bit range is accepted for a register of `n` bytes exactly when both ends
   are declared and lie in it, whichever is written first, and reads the bits
   from the lower end to the higher.
   */
  lemma {:induction false} RangeReads(d: Declared, n: nat)
    requires d.source == Some(LsbMsb) && 1 <= n <= 8
    ensures Finished(d, n).Built? <==> d.lsb.Some? && d.msb.Some? && Max(d.lsb.value, d.msb.value) < 8 * n
    ensures Finished(d, n).Built? ==>
              Reads(Finished(d, n).field, Order(d), n, Min(d.lsb.value, d.msb.value), Max(d.lsb.value, d.msb.value))
  {
    hide Reads;
    if d.lsb.Some? && d.msb.Some? && Max(d.lsb.value, d.msb.value) < 8 * n {
      FieldReads(n, Min(d.lsb.value, d.msb.value), Max(d.lsb.value, d.msb.value), Order(d));
    }
  }

  /** A bit and a length, 1 if none is declared, read that many bits from the bit on, and must fit the register. */
  lemma {:induction false} BitReads(d: Declared, n: nat)
    requires d.source == Some(BitLength) && 1 <= n <= 8
    ensures var length := if d.bitLength.Some? then d.bitLength.value else 1;
            && (Finished(d, n).Built? <==> d.bit.Some? && length >= 1 && d.bit.value + length <= 8 * n)
            && (Finished(d, n).Built? ==>
                  Reads(Finished(d, n).field, Order(d), n, d.bit.value, d.bit.value + length - 1))
  {
    hide Reads;
    var length := if d.bitLength.Some? then d.bitLength.value else 1;
    if d.bit.Some? && length >= 1 && d.bit.value + length <= 8 * n {
      FieldReads(n, d.bit.value, d.bit.value + length - 1, Order(d));
    }
  }

  // ---------------------------------------------------------------- masks

  lemma {:induction false} TrailingZerosOf(ones: nat, t: nat)
    requires ones % 2 == 1
    ensures ones * Pow2(t) > 0 && TrailingZeros(ones * Pow2(t)) == t && Ones(ones * Pow2(t)) == Ones(ones)
  {
    if t > 0 {
      TrailingZerosOf(ones, t - 1);
      DoubleProduct(ones, Pow2(t - 1));
      OnesHalf(ones * Pow2(t));
    }
  }

  /**
   A mask of `l` ones from bit `t` on is accepted exactly when it fits the
   register, and reads, in either byte order, the register's number masked and
   shifted down: its bit `k` is the number's bit `t + k`.
   */
  lemma {:induction false} MaskReads(d: Declared, n: nat, t: nat, l: nat)
    requires d.source == Some(Masked) && 1 <= n <= 8 && l >= 1
    requires d.mask == Some((Pow2(l) - 1) * Pow2(t))
    ensures Finished(d, n).Built? <==> t + l <= 8 * n
    ensures t + l <= 8 * n ==>
              forall bytes: seq<byte> :: |bytes| == n ==>
                var r := Extracted(bytes, Finished(d, n).field);
                && r.Ok? && r.value < Pow2(l)
                && r.value == High(And(Number(bytes, Order(d)), d.mask.value), t)
                && (forall k :: 0 <= k < l ==> Bit(r.value, k) == Bit(Number(bytes, Order(d)), t + k))
  {
    hide Ones, TrailingZeros, Number, And, High, Low, Extracted, Finished, Bit;
    var m := d.mask.value;
    OddOnes(l);
    TrailingZerosOf(Pow2(l) - 1, t);
    OnesOfOnes(l);
    MaskBuilds(d, n);
    if t + l <= 8 * n {
      HighOfShifted(Pow2(l) - 1, t);
      forall bytes: seq<byte> | |bytes| == n
        ensures var r := Extracted(bytes, Finished(d, n).field);
                && r == Ok(Field(Number(bytes, Order(d)), t, l))
                && r.value == High(And(Number(bytes, Order(d)), m), t)
                && (forall k :: 0 <= k < l ==> Bit(r.value, k) == Bit(Number(bytes, Order(d)), t + k))
      {
        var v := Number(bytes, Order(d));
        MaskExtracts(m, Order(d), bytes);
        ContiguousMasksAgree(m, v);
        forall k | 0 <= k < l ensures Bit(Field(v, t, l), k) == Bit(v, t + k) {
          Bits.BitField(v, t, l, k);
        }
      }
    }
  }

  lemma {:induction false} OddOnes(l: nat)
    requires l >= 1
    ensures (Pow2(l) - 1) % 2 == 1
  {
  }

  lemma {:induction false} HighOfShifted(ones: nat, t: nat)
    ensures ones * Pow2(t) >= 0 && High(ones * Pow2(t), t) == ones
  {
    hide Pow2, High, Low;
    MulMono(Pow2(t), 0, ones);
    Split(ones * Pow2(t), t, ones, 0);
  }
}
