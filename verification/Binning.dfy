/**
 Binning along one axis: how the camera rescales the region of interest when
 the binning factor changes, and what that keeps.
 */
module Binning {
  import opened Arithmetic

  const U32: nat := 0x1_0000_0000

  /** The sensor's size, the factor in force, and the region counted in binned pixels. */
  datatype Axis = Axis(sensor: nat, factor: nat, maximum: nat, size: nat, offset: nat)

  function SaturatingSub(a: nat, b: nat): nat { if a >= b then a - b else 0 }

  /** Products, by name: the laws below are all the proofs need of them. */
  function Times(a: nat, b: nat): nat { a * b }

  lemma {:induction false} TimesLaws(a: nat, b: nat, n: nat)
    ensures Times(a + b, n) == Times(a, n) + Times(b, n)
    ensures a <= b ==> Times(a, n) <= Times(b, n)
    ensures a < b ==> Times(a, n) + n <= Times(b, n)
    ensures Times(1, n) == n && Times(0, n) == 0 && Times(n, 1) == n
    ensures n > 0 ==> a <= Times(a, n)
  {
    assert (a + b) * n == a * n + b * n;
    if a <= b {
      MulMono(n, a, b);
    }
    if a < b {
      MulMono(n, a + 1, b);
      assert n * (a + 1) == a * n + n;
    }
    if n > 0 {
      MulMono(a, 1, n);
    }
  }

  /** How many whole `n`s `a` holds. */
  function Whole(a: nat, n: nat): (q: nat)
    requires n > 0
    ensures Times(q, n) <= a < Times(q, n) + n
  {
    assert a == n * (a / n) + a % n;
    a / n
  }

  /** A length in the new pixels; the cast keeps the low 32 bits. */
  function Scale(value: nat, was: nat, factor: nat): nat
    requires factor > 0
  {
    Whole(Times(value, was), factor) % U32
  }

  /** A write of `factor` to the axis's binning register. */
  function Rebinned(a: Axis, factor: nat): Axis {
    if factor == 0 || factor == a.factor then a.(factor := Max(a.factor, 1))
    else
      var maximum := Whole(a.sensor, factor);
      var size := Max(Scale(a.size, a.factor, factor), 1);
      var offset := Min(Scale(a.offset, a.factor, factor), SaturatingSub(maximum, size));
      Axis(a.sensor, factor, maximum, Min(size, maximum), offset)
  }

  function RebinnedAll(a: Axis, factors: seq<nat>): Axis {
    if factors == [] then a
    else Rebinned(RebinnedAll(a, factors[..|factors| - 1]), factors[|factors| - 1])
  }

  /** The region lies inside the maximum, which is the sensor divided by the factor. */
  predicate Inside(a: Axis) {
    && a.sensor < U32 && a.factor >= 1 && a.maximum == Whole(a.sensor, a.factor)
    && a.offset + a.size <= a.maximum
  }

  lemma {:induction false} WholeIs(a: nat, n: nat, q: nat)
    requires n > 0 && Times(q, n) <= a < Times(q, n) + n
    ensures Whole(a, n) == q
  {
    DivModIs(a, n, q, a - q * n);
  }

  /** The cast never cuts anything off. */
  lemma {:induction false} ScaleIsExact(a: Axis, value: nat, factor: nat)
    requires Inside(a) && value <= a.maximum && factor > 0
    ensures Scale(value, a.factor, factor) == Whole(Times(value, a.factor), factor)
    ensures Times(value, a.factor) <= a.sensor
  {
    hide Whole, Times;
    TimesLaws(value, a.maximum, a.factor);
    TimesLaws(Whole(Times(value, a.factor), factor), 0, factor);
  }

  lemma {:induction false} RebinKeepsInside(a: Axis, factor: nat)
    requires Inside(a)
    ensures Inside(Rebinned(a, factor)) && Rebinned(a, factor).sensor == a.sensor
  {
    hide Whole, Scale;
  }

  /** After any run of binning writes from a region inside its maximum, the region is inside its maximum. */
  lemma {:induction false} AlwaysInside(a: Axis, factors: seq<nat>)
    requires Inside(a)
    ensures Inside(RebinnedAll(a, factors)) && RebinnedAll(a, factors).sensor == a.sensor
    decreases |factors|
  {
    hide Inside, Rebinned;
    if factors != [] {
      AlwaysInside(a, factors[..|factors| - 1]);
      RebinKeepsInside(RebinnedAll(a, factors[..|factors| - 1]), factors[|factors| - 1]);
    }
  }

  /**
   Where the region goes on the sensor. Its start never moves to the right. At
   least one new pixel wide, it keeps its start and its width to within one new
   pixel; narrower, it becomes one pixel wide, or none if the sensor has no
   whole one, and starts no later than the last whole pixel.
   */
  lemma {:induction false} RebinStaysPut(a: Axis, factor: nat)
    requires Inside(a) && factor > 0 && factor != a.factor
    ensures var b := Rebinned(a, factor);
            var start, width := Times(a.offset, a.factor), Times(a.size, a.factor);
            && Times(b.offset, factor) <= start
            && (width >= factor ==>
                  && start < Times(b.offset, factor) + factor
                  && Times(b.size, factor) <= width < Times(b.size, factor) + factor)
            && (width < factor ==>
                  && b.size == Min(1, Whole(a.sensor, factor))
                  && b.offset == Min(Whole(start, factor), SaturatingSub(Whole(a.sensor, factor), 1)))
  {
    hide Whole, Times;
    ScaleIsExact(a, a.size, factor);
    ScaleIsExact(a, a.offset, factor);
    var start, width := Times(a.offset, a.factor), Times(a.size, a.factor);
    TimesLaws(Rebinned(a, factor).offset, Whole(start, factor), factor);
    if width >= factor {
      WholeIs(factor, factor, 1) by { TimesLaws(1, 0, factor); }
      WholeMono(factor, width, factor);
      TimesLaws(a.size, a.offset, a.factor);
      TimesLaws(a.size + a.offset, a.maximum, a.factor);
      PartsFit(width, start, a.sensor, factor);
    } else {
      WholeIs(width, factor, 0) by { TimesLaws(0, 0, factor); }
    }
  }

  lemma {:induction false} WholeMono(a: nat, b: nat, n: nat)
    requires n > 0 && a <= b
    ensures Whole(a, n) <= Whole(b, n)
  {
    hide Whole, Times;
    TimesLaws(Whole(b, n), Whole(a, n), n);
  }

  /** The whole parts of two lengths fit where the lengths do. */
  lemma {:induction false} PartsFit(a: nat, b: nat, c: nat, n: nat)
    requires n > 0 && a + b <= c
    ensures Whole(a, n) + Whole(b, n) <= Whole(c, n)
  {
    hide Whole, Times;
    TimesLaws(Whole(a, n), Whole(b, n), n);
    TimesLaws(Whole(c, n), Whole(a, n) + Whole(b, n), n);
  }

  // ---------------------------------------------------------------- there and back

  predicate Near(a: nat, b: nat, n: nat) {
    a < b + n && b < a + n
  }

  /** Binning an unbinned axis by `n` and back. */
  function ThereAndBack(a: Axis, n: nat): Axis {
    Rebinned(Rebinned(a, n), 1)
  }

  /** Whether the round trip is close: the region is a binned pixel wide, or starts inside a whole binned pixel. */
  predicate Returns(a: Axis, n: nat)
    requires n > 0
  {
    n == 1 || a.size >= n || n > a.sensor || (a.size > 0 && Whole(a.offset, n) < Whole(a.sensor, n))
  }

  lemma {:induction false} There(a: Axis, n: nat)
    requires Inside(a) && a.factor == 1 && n > 1
    ensures var b := Rebinned(a, n);
            var m := Whole(a.sensor, n);
            var size := Max(Whole(a.size, n), 1);
            b == Axis(a.sensor, n, m, Min(size, m), Min(Whole(a.offset, n), SaturatingSub(m, size)))
  {
    hide Whole, Times;
    ScaleIsExact(a, a.size, n);
    ScaleIsExact(a, a.offset, n);
    TimesLaws(0, 0, a.size);
    TimesLaws(0, 0, a.offset);
  }

  lemma {:induction false} WholeOfOne(a: nat)
    ensures Whole(a, 1) == a
  {
  }

  lemma {:induction false} Back(b: Axis)
    requires Inside(b) && b.factor > 1
    ensures var c := Rebinned(b, 1);
            var size := Max(Times(b.size, b.factor), 1);
            c == Axis(b.sensor, 1, b.sensor, Min(size, b.sensor),
                      Min(Times(b.offset, b.factor), SaturatingSub(b.sensor, size)))
  {
    hide Whole, Times;
    ScaleIsExact(b, b.size, 1);
    ScaleIsExact(b, b.offset, 1);
    WholeOfOne(b.sensor);
    WholeOfOne(Times(b.size, b.factor));
    WholeOfOne(Times(b.offset, b.factor));
  }

  /** A region at least one binned pixel wide comes back as what whole binned pixels hold of it. */
  lemma {:induction false} WideReturns(a: Axis, n: nat)
    requires Inside(a) && a.factor == 1 && n > 1 && a.size >= n
    ensures var c := ThereAndBack(a, n);
            && c.size == Times(Whole(a.size, n), n) && c.offset == Times(Whole(a.offset, n), n)
            && Near(c.size, a.size, n) && Near(c.offset, a.offset, n)
  {
    hide Rebinned, Whole, Times;
    There(a, n);
    RebinKeepsInside(a, n);
    Back(Rebinned(a, n));
    var q, o, m := Whole(a.size, n), Whole(a.offset, n), Whole(a.sensor, n);
    WholeIs(n, n, 1) by { TimesLaws(1, 0, n); }
    WholeMono(n, a.size, n);
    WholeOfOne(a.sensor);
    PartsFit(a.size, a.offset, a.sensor, n);
    TimesLaws(q, o, n);
    TimesLaws(q + o, m, n);
    TimesLaws(1, q, n);
  }

  /** A narrower region on a sensor at least `n` wide comes back `n` wide. */
  lemma {:induction false} NarrowReturns(a: Axis, n: nat)
    requires Inside(a) && a.factor == 1 && 1 < n <= a.sensor && a.size < n
    ensures Whole(a.offset, n) <= Whole(a.sensor, n) && Whole(a.sensor, n) >= 1
    ensures var c := ThereAndBack(a, n);
            c.size == n && c.offset == Times(Min(Whole(a.offset, n), Whole(a.sensor, n) - 1), n)
  {
    hide Rebinned, Whole, Times;
    There(a, n);
    RebinKeepsInside(a, n);
    Back(Rebinned(a, n));
    var m := Whole(a.sensor, n);
    TimesLaws(0, 0, n);
    WholeIs(a.size, n, 0);
    WholeIs(n, n, 1);
    WholeMono(n, a.sensor, n);
    WholeOfOne(a.sensor);
    WholeMono(a.offset, a.sensor, n);
    TimesLaws(Min(Whole(a.offset, n), m - 1), m - 1, n);
    TimesLaws(m - 1, 1, n);
  }

  /**
   Binning 1 to n and back moves size and offset by less than n exactly when
   `Returns` holds; in particular whenever the region is at least n wide.
   */
  lemma {:induction false} ReturnsIffNear(a: Axis, n: nat)
    requires Inside(a) && a.factor == 1 && n > 0
    ensures Near(ThereAndBack(a, n).size, a.size, n) && Near(ThereAndBack(a, n).offset, a.offset, n)
            <==> Returns(a, n)
  {
    hide Whole, Times;
    WholeOfOne(a.sensor);
    if n == 1 {
    } else if a.size >= n {
      WideReturns(a, n);
    } else if n > a.sensor {
      FartherReturns(a, n);
    } else {
      hide Rebinned;
      NarrowReturns(a, n);
      var m, o := Whole(a.sensor, n), Whole(a.offset, n);
      TimesLaws(m - 1, 1, n);
    }
  }

  /** Binned by more than the sensor, an axis has no pixel left and comes back with the first one. */
  lemma {:induction false} FartherReturns(a: Axis, n: nat)
    requires Inside(a) && a.factor == 1 && n > 1 && n > a.sensor
    ensures var c := ThereAndBack(a, n);
            c.size == Min(1, a.sensor) && c.offset == 0
  {
    hide Rebinned, Whole, Times;
    There(a, n);
    RebinKeepsInside(a, n);
    Back(Rebinned(a, n));
    TimesLaws(0, 0, n);
    WholeIs(a.sensor, n, 0);
  }

  /** A one-pixel region at the end of a seven-pixel sensor does not come back from binning by four. */
  lemma {:induction false} NarrowRegionMoves()
    ensures var a := Axis(7, 1, 7, 1, 6);
            Inside(a) && ThereAndBack(a, 4).offset == 0 && !Near(ThereAndBack(a, 4).offset, a.offset, 4)
  {
  }
}
