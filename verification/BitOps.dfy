/**
 Bit fields of a register: extracting one, putting one in place, and what the
 bit numbers of either byte order mean.
 */
module BitOps {
  import opened Bytes
  import opened Bits

  /** The offset counts from the most significant bit on `Big`, from the least significant on `Little`. */
  datatype BitField = BitField(offset: nat, length: nat, order: ByteOrder)

  datatype BitOpsError =
    | UnsupportedWidth(len: nat)
    | UnsupportedLength(bitLength: nat)
    | OutOfRange(len: nat, bitOffset: nat, bitLength: nat)
    | ValueTooWide(bitLength: nat, value: nat)

  datatype Result<+T> = Ok(value: T) | Err(error: BitOpsError)

  /** Whether a field lies in a register of `n` bytes, and what is wrong if not. */
  function Validated(n: nat, bf: BitField): Option<BitOpsError> {
    if n == 0 || n > 8 then Some(UnsupportedWidth(n))
    else if bf.length == 0 || bf.length > 64 then Some(UnsupportedLength(bf.length))
    else if bf.offset + bf.length > 8 * n then Some(OutOfRange(n, bf.offset, bf.length))
    else None
  }

  predicate InRange(n: nat, bf: BitField) {
    1 <= n <= 8 && 1 <= bf.length <= 64 && bf.offset + bf.length <= 8 * n
  }

  // ---------------------------------------------------------------- what they compute

  /** How far the field is above the number's least significant bit. */
  function Shift(n: nat, bf: BitField): nat
    requires bf.offset + bf.length <= 8 * n
  {
    if bf.order.Little? then bf.offset else 8 * n - bf.offset - bf.length
  }

  function Extracted(bytes: seq<byte>, bf: BitField): Result<nat> {
    match Validated(|bytes|, bf)
    case Some(e) => Err(e)
    case None => Ok(Field(Number(bytes, bf.order), Shift(|bytes|, bf), bf.length))
  }

  function Inserted(bytes: seq<byte>, bf: BitField, value: nat): Result<seq<byte>> {
    match Validated(|bytes|, bf)
    case Some(e) => Err(e)
    case None =>
      if value >= Pow2(bf.length) then Err(ValueTooWide(bf.length, value))
      else
        Ok(ToBytes(WithField(Number(bytes, bf.order), Shift(|bytes|, bf), bf.length, value), |bytes|, bf.order))
  }

  // ---------------------------------------------------------------- bytes and numbers

  lemma {:induction false} CapacityIsPow2(n: nat)
    ensures Capacity(n) == Pow2(8 * n)
  {
    if n > 0 {
      CapacityIsPow2(n - 1);
      Pow2Add(8, 8 * (n - 1));
      assert Pow2(8) == 256;
    }
  }

  /** Big-endian bytes are little-endian bytes read backwards. */
  lemma {:induction false} BigIsReversedLittle(s: seq<byte>)
    ensures FromBigEndian(s) == FromLittleEndian(Reversed(s))
  {
    if s != [] {
      BigIsReversedLittle(s[..|s| - 1]);
      assert Reversed(s)[1..] == Reversed(s[..|s| - 1]);
    }
  }

  lemma {:induction false} BigBytesAreReversedLittle(v: nat, n: nat)
    ensures BigEndian(v, n) == Reversed(LittleEndian(v, n))
  {
    if n > 0 {
      BigBytesAreReversedLittle(v / 256, n - 1);
      var le, rest := LittleEndian(v, n), LittleEndian(v / 256, n - 1);
      assert le == [v % 256] + rest;
      assert Reversed(le) == Reversed(rest) + [v % 256];
    }
  }

  lemma {:induction false} NumberBound(s: seq<byte>, order: ByteOrder)
    ensures Number(s, order) < Pow2(8 * |s|)
  {
    hide Number, Capacity, Pow2;
    NumberWritesBack(s, order);
    CapacityIsPow2(|s|);
  }

  /** Byte `i` of a number. */
  lemma {:induction false} LittleByte(v: nat, n: nat, i: nat)
    requires i < n
    ensures LittleEndian(v, n)[i] == High(v, 8 * i) % 256
    decreases n
  {
    if i > 0 {
      LittleByte(v / 256, n - 1, i - 1);
      assert Pow2(8) == 256;
      assert High(v, 8) == v / 256;
      HighHigh(v, 8, 8 * (i - 1));
    }
  }

  // ---------------------------------------------------------------- as they run

  /** The number the register's bytes make, byte by byte. */
  method Accumulate(bits: seq<byte>, order: ByteOrder) returns (value: nat)
    ensures value == Number(bits, order)
  {
    value := 0;
    if order.Little? {
      for index := 0 to |bits|
        invariant value == FromLittleEndian(bits[..index])
      {
        LittleSnoc(bits[..index], bits[index]);
        assert bits[..index + 1] == bits[..index] + [bits[index]];
        value := value + bits[index] * Pow2(8 * index);
      }
    } else {
      for index := 0 to |bits|
        invariant value == FromBigEndian(bits[..index])
      {
        assert bits[..index + 1][..index] == bits[..index];
        value := value * 256 + bits[index];
      }
    }
    assert bits[..|bits|] == bits;
  }

  lemma {:induction false} LittleSnoc(s: seq<byte>, b: byte)
    ensures FromLittleEndian(s + [b]) == FromLittleEndian(s) + b * Pow2(8 * |s|)
  {
    if s == [] {
      assert [b][1..] == [];
    } else {
      LittleSnoc(s[1..], b);
      assert (s + [b])[1..] == s[1..] + [b];
      Pow2Add(8, 8 * (|s| - 1));
      assert Pow2(8) == 256;
      assert 256 * (b * Pow2(8 * (|s| - 1))) == b * (256 * Pow2(8 * (|s| - 1)));
    }
  }

  method Extract(bits: seq<byte>, bf: BitField) returns (r: Result<nat>)
    ensures r == Extracted(bits, bf)
  {
    hide Field;
    var invalid := Validated(|bits|, bf);
    if invalid.Some? {
      return Err(invalid.value);
    }
    var value := Accumulate(bits, bf.order);
    if bf.order.Little? {
      value := Field(value, bf.offset, bf.length);
    } else {
      var shift := |bits| * 8 - bf.offset - bf.length;
      value := Field(value, shift, bf.length);
    }
    return Ok(value);
  }

  method Insert(dst: array<byte>, bf: BitField, value: nat) returns (r: Result<()>)
    modifies dst
    ensures match Inserted(old(dst[..]), bf, value)
            case Ok(bytes) => r == Ok(()) && dst[..] == bytes
            case Err(e) => r == Err(e) && dst[..] == old(dst[..])
  {
    hide Field, WithField, High, Pow2;
    var invalid := Validated(dst.Length, bf);
    if invalid.Some? {
      return Err(invalid.value);
    }
    if value >= Pow2(bf.length) {
      return Err(ValueTooWide(bf.length, value));
    }
    var full := Accumulate(dst[..], bf.order);
    var n := dst.Length;
    var shift := if bf.order.Little? then bf.offset else n * 8 - bf.offset - bf.length;
    full := WithField(full, shift, bf.length, value);
    ghost var bytes := ToBytes(full, n, bf.order);
    for index := 0 to n
      invariant forall i :: 0 <= i < index ==> dst[i] == bytes[i]
    {
      if bf.order.Little? {
        LittleByte(full, n, index);
        dst[index] := High(full, 8 * index) % 256;
      } else {
        BigBytesAreReversedLittle(full, n);
        LittleByte(full, n, n - 1 - index);
        dst[index] := High(full, 8 * (n - 1 - index)) % 256;
      }
    }
    return Ok(());
  }

  // ---------------------------------------------------------------- what the bit numbers mean

  /**
   Bit `i` of a register as GenICam numbers it, looked up in its byte: from the
   most significant bit of the first byte on `Big`, from the least significant
   on `Little`.
   */
  function RegisterBit(bytes: seq<byte>, order: ByteOrder, i: nat): nat
    requires i < 8 * |bytes|
  {
    if order.Little? then Bit(bytes[i / 8], i % 8) else Bit(bytes[i / 8], 7 - i % 8)
  }

  lemma {:induction false} LittleBit(s: seq<byte>, i: nat)
    requires i < 8 * |s|
    ensures Bit(FromLittleEndian(s), i) == Bit(s[i / 8], i % 8)
    decreases |s|
  {
    hide Bit;
    var v, rest := FromLittleEndian(s), FromLittleEndian(s[1..]);
    assert Pow2(8) == 256;
    Split(v, 8, rest, s[0]);
    if i < 8 {
      BitLow(v, 8, i);
    } else {
      BitHigh(v, 8, i - 8);
      LittleBit(s[1..], i - 8);
    }
  }

  /** The number's bits are the register's, counted from the end its byte order counts from. */
  lemma {:induction false} NumberBit(bytes: seq<byte>, order: ByteOrder, i: nat)
    requires i < 8 * |bytes|
    ensures Bit(Number(bytes, order), if order.Little? then i else 8 * |bytes| - 1 - i)
            == RegisterBit(bytes, order, i)
  {
    hide Bit, FromLittleEndian, FromBigEndian;
    if order.Little? {
      LittleBit(bytes, i);
    } else {
      BigIsReversedLittle(bytes);
      var j := 8 * |bytes| - 1 - i;
      LittleBit(Reversed(bytes), j);
      assert j / 8 == |bytes| - 1 - i / 8 && j % 8 == 7 - i % 8;
    }
  }

  /** The register bit that is bit `k` of the field's value. */
  function NamedBit(bf: BitField, k: nat): nat
    requires k < bf.length
  {
    if bf.order.Little? then bf.offset + k else bf.offset + bf.length - 1 - k
  }

  /** Extracting a field gives the register bits from its offset on. */
  lemma {:induction false} ExtractNamesBits(bytes: seq<byte>, bf: BitField, k: nat)
    requires InRange(|bytes|, bf) && k < bf.length
    ensures Extracted(bytes, bf).Ok?
    ensures Extracted(bytes, bf).value < Pow2(bf.length)
    ensures Bit(Extracted(bytes, bf).value, k) == RegisterBit(bytes, bf.order, NamedBit(bf, k))
  {
    hide Bit, Field, Number, Pow2, RegisterBit;
    Bits.BitField(Number(bytes, bf.order), Shift(|bytes|, bf), bf.length, k);
    NumberBit(bytes, bf.order, NamedBit(bf, k));
  }

  /** Inserting a value sets the register bits of the field to the value's and leaves every other as it was. */
  lemma {:induction false} InsertNamesBits(bytes: seq<byte>, bf: BitField, value: nat, i: nat)
    requires InRange(|bytes|, bf) && value < Pow2(bf.length) && i < 8 * |bytes|
    ensures var r := Inserted(bytes, bf, value);
            && r.Ok? && |r.value| == |bytes|
            && RegisterBit(r.value, bf.order, i) ==
               if bf.offset <= i < bf.offset + bf.length then
                 Bit(value, if bf.order.Little? then i - bf.offset else bf.offset + bf.length - 1 - i)
               else RegisterBit(bytes, bf.order, i)
  {
    hide Bit, WithField, Number, ToBytes, Pow2, RegisterBit;
    var n, s := |bytes|, Shift(|bytes|, bf);
    var v := Number(bytes, bf.order);
    InsertedNumber(bytes, bf, value);
    var j := if bf.order.Little? then i else 8 * n - 1 - i;
    BitWithField(v, s, bf.length, value, j);
    NumberBit(bytes, bf.order, i);
    NumberBit(Inserted(bytes, bf, value).value, bf.order, i);
  }

  lemma {:induction false} InsertedNumber(bytes: seq<byte>, bf: BitField, value: nat)
    requires InRange(|bytes|, bf) && value < Pow2(bf.length)
    ensures var r := Inserted(bytes, bf, value);
            && r.Ok? && |r.value| == |bytes|
            && Number(r.value, bf.order)
               == WithField(Number(bytes, bf.order), Shift(|bytes|, bf), bf.length, value)
               < Pow2(8 * |bytes|)
  {
    hide WithField, Number, ToBytes, Pow2;
    var v, s := Number(bytes, bf.order), Shift(|bytes|, bf);
    NumberBound(bytes, bf.order);
    WithFieldBound(v, s, bf.length, value, 8 * |bytes|);
    CapacityIsPow2(|bytes|);
    BytesReadBack(WithField(v, s, bf.length, value), |bytes|, bf.order);
  }

  // ---------------------------------------------------------------- a lens

  /** What was put in comes out. */
  lemma {:induction false} ExtractAfterInsert(bytes: seq<byte>, bf: BitField, value: nat)
    requires InRange(|bytes|, bf) && value < Pow2(bf.length)
    ensures Extracted(Inserted(bytes, bf, value).value, bf) == Ok(value)
  {
    hide Field, WithField, Number, ToBytes, Pow2;
    InsertedNumber(bytes, bf, value);
    FieldOfWithField(Number(bytes, bf.order), Shift(|bytes|, bf), bf.length, value);
  }

  /** Putting back what is there changes nothing. */
  lemma {:induction false} InsertWhatIsThere(bytes: seq<byte>, bf: BitField)
    requires InRange(|bytes|, bf)
    ensures Inserted(bytes, bf, Extracted(bytes, bf).value) == Ok(bytes)
  {
    hide Field, WithField, Number, ToBytes, Pow2;
    SameFieldSameNumber(Number(bytes, bf.order), Shift(|bytes|, bf), bf.length);
    NumberWritesBack(bytes, bf.order);
  }

  /** The last value put in wins. */
  lemma {:induction false} InsertTwice(bytes: seq<byte>, bf: BitField, x: nat, y: nat)
    requires InRange(|bytes|, bf) && x < Pow2(bf.length) && y < Pow2(bf.length)
    ensures Inserted(Inserted(bytes, bf, x).value, bf, y) == Inserted(bytes, bf, y)
  {
    hide Field, WithField, Number, ToBytes, Pow2;
    InsertedNumber(bytes, bf, x);
    LastFieldWins(Number(bytes, bf.order), Shift(|bytes|, bf), bf.length, x, y);
  }

  predicate Disjoint(a: BitField, b: BitField) {
    Apart(a.offset, a.length, b.offset, b.length)
  }

  /** No disjoint field of the same byte order is touched. */
  lemma {:induction false} DisjointFieldUnchanged(bytes: seq<byte>, bf: BitField, value: nat, other: BitField)
    requires InRange(|bytes|, bf) && InRange(|bytes|, other) && value < Pow2(bf.length)
    requires bf.order == other.order && Disjoint(bf, other)
    ensures Extracted(Inserted(bytes, bf, value).value, other) == Extracted(bytes, other)
  {
    hide Field, WithField, Number, ToBytes, Pow2;
    InsertedNumber(bytes, bf, value);
    OtherFieldUnchanged(Number(bytes, bf.order), Shift(|bytes|, bf), bf.length, value,
                        Shift(|bytes|, other), other.length);
  }

  /** Disjoint inserts commute. */
  lemma {:induction false} DisjointInsertsCommute(bytes: seq<byte>, a: BitField, x: nat, b: BitField, y: nat)
    requires InRange(|bytes|, a) && InRange(|bytes|, b) && x < Pow2(a.length) && y < Pow2(b.length)
    requires a.order == b.order && Disjoint(a, b)
    ensures Inserted(Inserted(bytes, a, x).value, b, y) == Inserted(Inserted(bytes, b, y).value, a, x)
  {
    hide Field, WithField, Number, ToBytes, Pow2;
    InsertedNumber(bytes, a, x);
    InsertedNumber(bytes, b, y);
    NumberBound(bytes, a.order);
    FieldsCommute(Number(bytes, a.order), Shift(|bytes|, a), a.length, x, Shift(|bytes|, b), b.length, y,
                  8 * |bytes|);
  }

  /** A big-endian field is the little-endian field counted from the other end of the reversed bytes. */
  lemma {:induction false} BigFieldIsReversedLittle(bytes: seq<byte>, offset: nat, length: nat, value: nat)
    requires InRange(|bytes|, BitField(offset, length, Big)) && value < Pow2(length)
    ensures var big := BitField(offset, length, Big);
            var little := BitField(8 * |bytes| - offset - length, length, Little);
            && Extracted(bytes, big) == Extracted(Reversed(bytes), little)
            && Inserted(bytes, big, value) == Ok(Reversed(Inserted(Reversed(bytes), little, value).value))
  {
    hide Field, WithField, Pow2, FromBigEndian, FromLittleEndian, BigEndian, LittleEndian;
    BigIsReversedLittle(bytes);
    var v := WithField(FromBigEndian(bytes), 8 * |bytes| - offset - length, length, value);
    BigBytesAreReversedLittle(v, |bytes|);
  }
}
