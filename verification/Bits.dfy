/** Binary digits of natural numbers. */
module Bits {
  import opened Arithmetic

  function Pow2(n: nat): (r: nat)
    ensures r > 0
  {
    if n == 0 then 1 else 2 * Pow2(n - 1)
  }

  lemma {:induction false} Pow2Add(a: nat, b: nat)
    ensures Pow2(a + b) == Pow2(a) * Pow2(b)
  {
    if a > 0 {
      Pow2Add(a - 1, b);
      MulAssociates(2, Pow2(a - 1), Pow2(b));
    }
  }

  lemma {:induction false} Pow2Mono(a: nat, b: nat)
    requires a <= b
    ensures Pow2(a) <= Pow2(b)
  {
    if a < b {
      Pow2Mono(a, b - 1);
    }
  }

  function Bit(v: nat, i: nat): (r: nat)
    ensures r < 2
  {
    v / Pow2(i) % 2
  }

  /** `v` without its `s` low digits, and those digits alone. */
  function High(v: nat, s: nat): nat {
    DivSign(v, Pow2(s));
    v / Pow2(s)
  }

  function Low(v: nat, s: nat): nat { v % Pow2(s) }

  lemma {:induction false} HighLow(v: nat, s: nat)
    ensures v == High(v, s) * Pow2(s) + Low(v, s) && Low(v, s) < Pow2(s)
  {
  }

  /** A number is told by its high and low part. */
  lemma {:induction false} Split(v: nat, s: nat, high: nat, low: nat)
    requires low < Pow2(s) && v == high * Pow2(s) + low
    ensures High(v, s) == high && Low(v, s) == low
  {
    DivModIs(v, Pow2(s), high, low);
  }

  lemma {:induction false} HighHigh(v: nat, s: nat, t: nat)
    ensures High(High(v, s), t) == High(v, s + t)
  {
    Pow2Add(s, t);
    ModProduct(v, Pow2(s), Pow2(t));
  }

  lemma {:induction false} BitHigh(v: nat, s: nat, k: nat)
    ensures Bit(High(v, s), k) == Bit(v, s + k)
  {
    HighHigh(v, s, k);
  }

  lemma {:induction false} LowBit(v: nat, n: nat)
    requires n > 0
    ensures Low(v, n) % 2 == v % 2
    ensures Low(v, n) / 2 == Low(v / 2, n - 1)
  {
    ModProduct(v, 2, Pow2(n - 1));
  }

  lemma {:induction false} BitLow(v: nat, l: nat, k: nat)
    ensures Bit(Low(v, l), k) == if k < l then Bit(v, k) else 0
    decreases l
  {
    HighLow(v, l);
    if k >= l {
      Pow2Mono(l, k);
      DivModIs(Low(v, l), Pow2(k), 0, Low(v, l));
    } else if k > 0 {
      LowBit(v, l);
      BitLow(v / 2, l - 1, k - 1);
      BitHalf(Low(v, l), k);
      BitHalf(v, k);
    } else {
      LowBit(v, l);
    }
  }

  lemma {:induction false} BitHalf(v: nat, k: nat)
    requires k > 0
    ensures Bit(v, k) == Bit(v / 2, k - 1)
  {
    ModProduct(v, 2, Pow2(k - 1));
  }

  /** Numbers of `n` digits with the same digits are the same. */
  lemma {:induction false} SameBits(a: nat, b: nat, n: nat)
    requires a < Pow2(n) && b < Pow2(n)
    requires forall i :: 0 <= i < n ==> Bit(a, i) == Bit(b, i)
    ensures a == b
  {
    if n > 0 {
      forall i | 0 <= i < n - 1 ensures Bit(a / 2, i) == Bit(b / 2, i) {
        BitHalf(a, i + 1);
        BitHalf(b, i + 1);
      }
      SameBits(a / 2, b / 2, n - 1);
      assert Bit(a, 0) == Bit(b, 0);
    }
  }

  // ---------------------------------------------------------------- fields of a number

  /** `l` digits from digit `s` on. */
  function Field(v: nat, s: nat, l: nat): (r: nat)
    ensures r < Pow2(l)
  {
    Low(High(v, s), l)
  }

  /** `v` with those digits cleared and `x` put in their place. */
  function WithField(v: nat, s: nat, l: nat, x: nat): (r: nat) {
    FieldFits(v, s, l);
    v - Field(v, s, l) * Pow2(s) + x * Pow2(s)
  }

  lemma {:induction false} FieldFits(v: nat, s: nat, l: nat)
    ensures Field(v, s, l) * Pow2(s) <= v
  {
    hide Pow2;
    HighLow(v, s);
    HighLow(High(v, s), l);
    MulMono(Pow2(l), 0, High(High(v, s), l));
    MulMono(Pow2(s), Field(v, s, l), High(v, s));
  }

  lemma {:induction false} BitField(v: nat, s: nat, l: nat, k: nat)
    ensures Bit(Field(v, s, l), k) == if k < l then Bit(v, s + k) else 0
  {
    hide Low, High, Bit;
    BitLow(High(v, s), l, k);
    BitHigh(v, s, k);
  }

  /** Above digit `s` the new number is `x` under what was above the field; below it nothing moved. */
  lemma {:induction false} WithFieldParts(v: nat, s: nat, l: nat, x: nat)
    requires x < Pow2(l)
    ensures var r := WithField(v, s, l, x);
            && Low(r, s) == Low(v, s)
            && High(r, s) == High(High(v, s), l) * Pow2(l) + x
            && Low(High(r, s), l) == x && High(High(r, s), l) == High(High(v, s), l)
  {
    hide Pow2, Low, High;
    var w, p := High(v, s), Pow2(s);
    HighLow(v, s);
    HighLow(w, l);
    var top := High(w, l) * Pow2(l);
    var mid := Low(w, l);
    assert w == top + mid;
    assert (top + mid) * p == top * p + mid * p;
    assert (top + x) * p == top * p + x * p;
    MulMono(Pow2(l), 0, High(w, l));
    var r := WithField(v, s, l, x);
    Split(r, s, top + x, Low(v, s));
    Split(top + x, l, High(w, l), x);
  }

  /** Digit by digit: `x`'s inside the field, the old ones outside. */
  lemma {:induction false} BitWithField(v: nat, s: nat, l: nat, x: nat, i: nat)
    requires x < Pow2(l)
    ensures Bit(WithField(v, s, l, x), i) == if s <= i < s + l then Bit(x, i - s) else Bit(v, i)
  {
    hide Pow2, Low, High, Bit, WithField;
    var r := WithField(v, s, l, x);
    WithFieldParts(v, s, l, x);
    if i < s {
      BitLow(r, s, i);
      BitLow(v, s, i);
    } else if i < s + l {
      BitHigh(r, s, i - s);
      BitLow(High(r, s), l, i - s);
    } else {
      BitHigh(r, s, i - s);
      BitHigh(High(r, s), l, i - s - l);
      BitHigh(High(v, s), l, i - s - l);
      BitHigh(v, s, i - s);
    }
  }

  lemma {:induction false} WithFieldBound(v: nat, s: nat, l: nat, x: nat, n: nat)
    requires v < Pow2(n) && s + l <= n && x < Pow2(l)
    ensures WithField(v, s, l, x) < Pow2(n)
  {
    hide Bit, WithField, High, Low, Pow2;
    var r := WithField(v, s, l, x);
    WithFieldParts(v, s, l, x);
    HighHigh(r, s, l);
    HighHigh(v, s, l);
    HighBound(v, s + l, n);
    HighLow(r, s + l);
    Pow2Add(n - s - l, s + l);
    MulBelow(Pow2(s + l), High(r, s + l), Pow2(n - s - l));
  }

  lemma {:induction false} HighBound(v: nat, s: nat, n: nat)
    requires v < Pow2(n) && s <= n
    ensures High(v, s) < Pow2(n - s)
  {
    HighLow(v, s);
    Pow2Add(n - s, s);
    if High(v, s) >= Pow2(n - s) {
      MulMono(Pow2(s), Pow2(n - s), High(v, s));
      assert false;
    }
  }

  // ---------------------------------------------------------------- the laws of fields

  lemma {:induction false} FieldsEqual(a: nat, b: nat, s: nat, l: nat)
    requires forall i :: s <= i < s + l ==> Bit(a, i) == Bit(b, i)
    ensures Field(a, s, l) == Field(b, s, l)
  {
    hide Bit, Field;
    forall k | 0 <= k < l ensures Bit(Field(a, s, l), k) == Bit(Field(b, s, l), k) {
      BitField(a, s, l, k);
      BitField(b, s, l, k);
    }
    SameBits(Field(a, s, l), Field(b, s, l), l);
  }

  lemma {:induction false} FieldOfWithField(v: nat, s: nat, l: nat, x: nat)
    requires x < Pow2(l)
    ensures Field(WithField(v, s, l, x), s, l) == x
  {
    WithFieldParts(v, s, l, x);
  }

  predicate Apart(s: nat, l: nat, s': nat, l': nat) {
    s + l <= s' || s' + l' <= s
  }

  lemma {:induction false} OtherFieldUnchanged(v: nat, s: nat, l: nat, x: nat, s': nat, l': nat)
    requires x < Pow2(l) && Apart(s, l, s', l')
    ensures Field(WithField(v, s, l, x), s', l') == Field(v, s', l')
  {
    hide Bit, Field, WithField, Pow2;
    var r := WithField(v, s, l, x);
    forall i | s' <= i < s' + l' ensures Bit(r, i) == Bit(v, i) {
      BitWithField(v, s, l, x, i);
    }
    FieldsEqual(r, v, s', l');
  }

  lemma {:induction false} FieldsCommute(v: nat, s: nat, l: nat, x: nat, s': nat, l': nat, x': nat, n: nat)
    requires v < Pow2(n) && s + l <= n && s' + l' <= n
    requires x < Pow2(l) && x' < Pow2(l') && Apart(s, l, s', l')
    ensures WithField(WithField(v, s, l, x), s', l', x') == WithField(WithField(v, s', l', x'), s, l, x)
  {
    hide Bit, WithField, Pow2;
    var a, b := WithField(v, s, l, x), WithField(v, s', l', x');
    var a', b' := WithField(a, s', l', x'), WithField(b, s, l, x);
    WithFieldBound(v, s, l, x, n);
    WithFieldBound(a, s', l', x', n);
    WithFieldBound(v, s', l', x', n);
    WithFieldBound(b, s, l, x, n);
    forall i | 0 <= i < n ensures Bit(a', i) == Bit(b', i) {
      BitWithField(v, s, l, x, i);
      BitWithField(a, s', l', x', i);
      BitWithField(v, s', l', x', i);
      BitWithField(b, s, l, x, i);
    }
    SameBits(a', b', n);
  }

  lemma {:induction false} SameFieldSameNumber(v: nat, s: nat, l: nat)
    ensures WithField(v, s, l, Field(v, s, l)) == v
  {
  }

  lemma {:induction false} LastFieldWins(v: nat, s: nat, l: nat, x: nat, y: nat)
    requires x < Pow2(l) && y < Pow2(l)
    ensures WithField(WithField(v, s, l, x), s, l, y) == WithField(v, s, l, y)
  {
    FieldOfWithField(v, s, l, x);
    hide Pow2, Field;
  }
}
