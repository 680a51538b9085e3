/** Rounding, over exact reals: `round_half_up` of app/money.py and Python's
    built-in `round`, which sends halves to the even neighbour. */
module Money {

  /** Nearest integer, halves away from zero. */
  function HalfUp(y: real): int {
    if y >= 0.0 then (y + 0.5).Floor else -(0.5 - y).Floor
  }

  /** Nearest integer, halves to even. */
  function HalfEven(y: real): int {
    var f := y.Floor;
    var d := y - f as real;
    if d < 0.5 || (d == 0.5 && f % 2 == 0) then f else f + 1
  }

  /** A cedi amount quantized to the pesewa, halves away from zero. */
  function RoundHalfUp(x: real): real {
    HalfUp(x * 100.0) as real / 100.0
  }

  /** Python's round(x, n), given 10^n. */
  function PyRound(x: real, scale: real): real
    requires scale > 0.0
  {
    HalfEven(x * scale) as real / scale
  }

  ghost predicate IsWhole(y: real) { y.Floor as real == y }

  ghost predicate IsPesewas(x: real) { IsWhole(x * 100.0) }

  function Abs(x: real): real { if x < 0.0 then -x else x }

  /** Multiplication under a name, so that proofs can hide it. */
  function Times(a: real, b: real): real { a * b }

  lemma TimesPlus(a: real, b: real, c: real)
    ensures Times(a, b + c) == Times(a, b) + Times(a, c)
  {
  }

  lemma TimesBounds(a: real, b: real, r: real)
    requires 0.0 <= a <= b && 0.0 <= r
    ensures 0.0 <= Times(a, r) <= Times(b, r)
    ensures r <= 1.0 ==> Times(a, r) <= a
  {
  }

  lemma TimesAbs(w: real, d: real)
    requires w >= 0.0
    ensures Abs(Times(w, d)) == Times(w, Abs(d))
  {
    if d < 0.0 {
      assert w * (-d) == -(w * d) >= 0.0;
    } else {
      assert w * d >= 0.0;
    }
  }

  function Min(a: real, b: real): real { if a <= b then a else b }

  function Max(a: real, b: real): real { if a >= b then a else b }

  lemma HalfUpNear(y: real)
    ensures -0.5 <= HalfUp(y) as real - y <= 0.5
    ensures IsWhole(y) ==> HalfUp(y) as real == y
  {
    if y >= 0.0 {
      var f := (y + 0.5).Floor;
      assert f as real <= y + 0.5 < f as real + 1.0;
    } else {
      var f := (0.5 - y).Floor;
      assert f as real <= 0.5 - y < f as real + 1.0;
      assert (-f) as real == -(f as real);
    }
    if IsWhole(y) {
      SameInt(HalfUp(y), y.Floor);
    }
  }

  lemma SameInt(m: int, n: int)
    requires -0.5 <= m as real - n as real <= 0.5
    ensures m == n
  {
    assert (m - n) as real == m as real - n as real;
  }

  lemma HalfUpMonotone(y: real, z: real)
    requires y <= z
    ensures HalfUp(y) <= HalfUp(z)
  {
    HalfUpNear(y);
    HalfUpNear(z);
    if y >= 0.0 {
      FloorMonotone(y + 0.5, z + 0.5);
    } else if z < 0.0 {
      FloorMonotone(0.5 - z, 0.5 - y);
    }
  }

  lemma FloorMonotone(y: real, z: real)
    requires y <= z
    ensures y.Floor <= z.Floor
  {
  }

  lemma HalfUpShift(y: real)
    requires y >= 0.0
    ensures HalfUp(y + 1.0) == HalfUp(y) + 1
  {
    assert y + 1.0 + 0.5 == (y + 0.5) + 1.0;
    FloorShift(y + 0.5);
  }

  lemma FloorShift(y: real)
    ensures (y + 1.0).Floor == y.Floor + 1
  {
  }

  lemma HalfEvenLaws(y: real)
    ensures -0.5 <= HalfEven(y) as real - y <= 0.5
    ensures IsWhole(y) ==> HalfEven(y) as real == y
    ensures y >= 0.0 ==> HalfEven(y) >= 0
  {
  }

  /** Half way between two integers the two roundings part: away from zero, and to the even
      one. */
  lemma Ties(n: int)
    ensures n >= 0 ==> HalfUp(n as real + 0.5) == n + 1 && HalfUp(-(n as real) - 0.5) == -n - 1
    ensures HalfEven(n as real + 0.5) % 2 == 0 && n <= HalfEven(n as real + 0.5) <= n + 1
  {
    assert (n as real + 0.5).Floor == n;
    if n >= 0 {
      assert (n as real + 0.5 + 0.5).Floor == n + 1;
      assert 0.5 - (-(n as real) - 0.5) == n as real + 0.5 + 0.5;
    }
  }

  /** Rounding to the pesewa moves an amount by at most half a pesewa, keeps the
      order, commutes with adding a pesewa and fixes whole pesewas. */
  lemma RoundHalfUpLaws(x: real, y: real)
    ensures Abs(RoundHalfUp(x) - x) <= 0.005
    ensures x <= y ==> RoundHalfUp(x) <= RoundHalfUp(y)
    ensures x >= 0.0 ==> RoundHalfUp(x + 0.01) == RoundHalfUp(x) + 0.01
    ensures IsPesewas(x) ==> RoundHalfUp(x) == x
  {
    HalfUpNear(x * 100.0);
    if x <= y {
      HalfUpMonotone(x * 100.0, y * 100.0);
    }
    if x >= 0.0 {
      assert (x + 0.01) * 100.0 == x * 100.0 + 1.0;
      HalfUpShift(x * 100.0);
    }
  }

  lemma RoundsTo(x: real, n: int)
    requires -0.5 < x * 100.0 - n as real < 0.5
    ensures RoundHalfUp(x) == n as real / 100.0
  {
    HalfUpNear(x * 100.0);
    var h := HalfUp(x * 100.0);
    assert -1.0 < (h - n) as real < 1.0 by {
      assert (h - n) as real == h as real - n as real;
    }
  }

  lemma PyRoundNear(x: real, scale: real)
    requires scale > 0.0
    ensures Abs(PyRound(x, scale) - x) * scale <= 0.5
    ensures IsWhole(x * scale) ==> PyRound(x, scale) == x
    ensures PyRound(x, scale) * scale == HalfEven(x * scale) as real
  {
    HalfEvenLaws(x * scale);
    var h := HalfEven(x * scale) as real;
    DivMul(h, scale);
    var r := PyRound(x, scale);
    assert (r - x) * scale == h - x * scale;
    if IsWhole(x * scale) {
      assert r * scale == x * scale;
      MulCancel(r, x, scale);
    }
    if r >= x {
      assert Abs(r - x) * scale == h - x * scale;
    } else {
      assert Abs(r - x) * scale == (x - r) * scale == x * scale - h;
    }
  }

  lemma PyRound2NonNegative(x: real)
    requires x >= 0.0
    ensures PyRound(x, 100.0) >= 0.0
  {
    HalfEvenLaws(x * 100.0);
  }

  /** A fraction rounded to six places is still a fraction. */
  lemma PyRound6Fraction(x: real)
    requires 0.0 <= x <= 1.0
    ensures 0.0 <= PyRound(x, 1000000.0) <= 1.0
  {
    HalfEvenLaws(x * 1000000.0);
    assert HalfEven(x * 1000000.0) <= 1000000;
  }

  lemma DivMul(h: real, scale: real)
    requires scale > 0.0
    ensures h / scale * scale == h
  {
  }

  lemma MulCancel(a: real, b: real, c: real)
    requires c > 0.0 && a * c == b * c
    ensures a == b
  {
    assert (a - b) * c == 0.0;
  }
}
