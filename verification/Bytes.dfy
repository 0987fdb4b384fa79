/** Bytes, and the fixed-width integers both cameras put on the wire. */
module Bytes {
  import opened Arithmetic

  type byte = x: int | 0 <= x < 256

  datatype Option<+T> = None | Some(value: T)

  /** Where a datagram comes from or goes to. */
  datatype Address = Address(ip: nat, port: nat)

  /** 256 to the power `width`: the number of values `width` bytes hold. */
  function Capacity(width: nat): (r: nat)
    ensures r > 0
  {
    if width == 0 then 1 else 256 * Capacity(width - 1)
  }

  /** `value` as `width` big-endian bytes; the bytes above are cut off, as an `as` cast cuts them. */
  function BigEndian(value: nat, width: nat): (r: seq<byte>)
    ensures |r| == width
  {
    if width == 0 then [] else BigEndian(value / 256, width - 1) + [value % 256]
  }

  function FromBigEndian(s: seq<byte>): (r: nat) {
    if s == [] then 0 else 256 * FromBigEndian(s[..|s| - 1]) + s[|s| - 1]
  }

  /** `value` as `width` little-endian bytes. */
  function LittleEndian(value: nat, width: nat): (r: seq<byte>)
    ensures |r| == width
  {
    if width == 0 then [] else [value % 256] + LittleEndian(value / 256, width - 1)
  }

  function FromLittleEndian(s: seq<byte>): (r: nat) {
    if s == [] then 0 else s[0] + 256 * FromLittleEndian(s[1..])
  }

  lemma {:induction false} FromBigEndianSnoc(s: seq<byte>, b: byte)
    ensures FromBigEndian(s + [b]) == 256 * FromBigEndian(s) + b
  {
    assert (s + [b])[..|s|] == s;
  }

  lemma {:induction false} NothingRead()
    ensures FromBigEndian([]) == 0
  {
  }

  lemma {:induction false} BigEndianRoundTrip(value: nat, width: nat)
    requires value < Capacity(width)
    ensures FromBigEndian(BigEndian(value, width)) == value
  {
    if width > 0 {
      hide FromBigEndian;
      BigEndianRoundTrip(value / 256, width - 1);
      FromBigEndianSnoc(BigEndian(value / 256, width - 1), value % 256);
    } else {
      NothingRead();
    }
  }

  lemma {:induction false} BigEndianTruncates(value: nat, width: nat)
    ensures FromBigEndian(BigEndian(value, width)) == value % Capacity(width)
  {
    if width > 0 {
      var r := BigEndian(value, width);
      assert r[..|r| - 1] == BigEndian(value / 256, width - 1);
      BigEndianTruncates(value / 256, width - 1);
      ModProduct(value, 256, Capacity(width - 1));
    }
  }

  lemma {:induction false} FromBigEndianBounds(s: seq<byte>)
    ensures FromBigEndian(s) < Capacity(|s|)
    ensures BigEndian(FromBigEndian(s), |s|) == s
  {
    if s != [] {
      FromBigEndianBounds(s[..|s| - 1]);
      var v := FromBigEndian(s);
      assert v / 256 == FromBigEndian(s[..|s| - 1]);
      assert s == s[..|s| - 1] + [s[|s| - 1]];
    }
  }

  lemma {:induction false} LittleEndianRoundTrip(value: nat, width: nat)
    requires value < Capacity(width)
    ensures FromLittleEndian(LittleEndian(value, width)) == value
  {
    if width > 0 {
      var r := LittleEndian(value, width);
      assert r[1..] == LittleEndian(value / 256, width - 1);
      LittleEndianRoundTrip(value / 256, width - 1);
    }
  }

  lemma {:induction false} FromLittleEndianBounds(s: seq<byte>)
    ensures FromLittleEndian(s) < Capacity(|s|)
    ensures LittleEndian(FromLittleEndian(s), |s|) == s
  {
    if s != [] {
      FromLittleEndianBounds(s[1..]);
      assert FromLittleEndian(s) / 256 == FromLittleEndian(s[1..]);
    }
  }

  datatype ByteOrder = Little | Big

  function Number(bytes: seq<byte>, order: ByteOrder): nat {
    if order.Little? then FromLittleEndian(bytes) else FromBigEndian(bytes)
  }

  function ToBytes(v: nat, n: nat, order: ByteOrder): (r: seq<byte>)
    ensures |r| == n
  {
    if order.Little? then LittleEndian(v, n) else BigEndian(v, n)
  }

  /** Bytes written from a number read back as it. */
  lemma {:induction false} BytesReadBack(v: nat, n: nat, order: ByteOrder)
    requires v < Capacity(n)
    ensures Number(ToBytes(v, n, order), order) == v
  {
    LittleEndianRoundTrip(v, n);
    BigEndianRoundTrip(v, n);
  }

  /** A number read from bytes is written back as them. */
  lemma {:induction false} NumberWritesBack(s: seq<byte>, order: ByteOrder)
    ensures Number(s, order) < Capacity(|s|)
    ensures ToBytes(Number(s, order), |s|, order) == s
  {
    FromLittleEndianBounds(s);
    FromBigEndianBounds(s);
  }

  lemma {:induction false} CapacityValues()
    ensures Capacity(2) == 0x1_0000
    ensures Capacity(3) == 0x100_0000
    ensures Capacity(4) == 0x1_0000_0000
    ensures Capacity(8) == 0x1_0000_0000_0000_0000
  {
  }

  function Reversed<T>(s: seq<T>): (r: seq<T>)
    ensures |r| == |s|
    ensures forall i :: 0 <= i < |s| ==> r[i] == s[|s| - 1 - i]
  {
    if s == [] then [] else [s[|s| - 1]] + Reversed(s[..|s| - 1])
  }

  lemma {:induction false} Associate<T>(a: seq<T>, b: seq<T>, c: seq<T>)
    ensures (a + b) + c == a + (b + c)
  {
  }
}
