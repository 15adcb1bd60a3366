/**
 * Rounding an exact ratio of cents to whole cents, ties away from zero: the one rounding
 * rule of the reconciliation service.
 */
module Rounding {

  function Abs(x: int): int {
    if x < 0 then -x else x
  }

  function RoundHalfAway(num: int, den: int): int
    requires den > 0
  {
    if num >= 0 then (2 * num + den) / (2 * den) else -((-2 * num + den) / (2 * den))
  }

  /** `r` is a nearest integer to num/den, and on a tie the one farther from zero. */
  ghost predicate NearestTiesAway(num: int, den: int, r: int)
    requires den > 0
  {
    && 2 * Abs(r * den - num) <= den
    && (2 * Abs(r * den - num) == den ==> Abs(r * den) > Abs(num))
  }

  lemma {:induction false} DivBounds(a: int, b: int)
    requires b > 0
    ensures a / b * b <= a < a / b * b + b
  {
  }

  /** The formula is exactly "nearest, ties away from zero". */
  lemma {:induction false} RoundIsNearest(num: int, den: int)
    requires den > 0
    ensures NearestTiesAway(num, den, RoundHalfAway(num, den))
  {
    var q := (2 * Abs(num) + den) / (2 * den);
    DivBounds(2 * Abs(num) + den, 2 * den);
    assert q * (2 * den) == 2 * (q * den);
    if num < 0 {
      assert (-q) * den == -(q * den);
    }
  }

  /** Two neighbouring integers are never both nearest-with-ties-away. */
  lemma {:induction false} NoTwoNearest(num: int, den: int, lo: int)
    requires den > 0
    ensures !(NearestTiesAway(num, den, lo) && NearestTiesAway(num, den, lo + 1))
  {
    assert (lo + 1) * den == lo * den + den;
    if lo >= 0 {
      assert lo * den >= 0;
    } else {
      assert (lo + 1) * den <= 0;
    }
  }

  lemma {:induction false} CloseMultiples(hi: int, lo: int, den: int)
    requires den > 0
    ensures hi > lo && hi * den - lo * den <= den ==> hi == lo + 1
    ensures hi > lo ==> hi * den - lo * den >= den
  {
    assert (hi - lo) * den == hi * den - lo * den;
    if hi - lo >= 2 {
      assert (hi - lo) * den >= 2 * den;
    }
  }

  /** No other integer is nearest-with-ties-away. */
  lemma {:induction false} RoundIsUnique(num: int, den: int, r: int)
    requires den > 0
    requires NearestTiesAway(num, den, r)
    ensures r == RoundHalfAway(num, den)
  {
    var s := RoundHalfAway(num, den);
    RoundIsNearest(num, den);
    CloseMultiples(r, s, den);
    CloseMultiples(s, r, den);
    NoTwoNearest(num, den, s);
    NoTwoNearest(num, den, r);
  }

  lemma {:induction false} RoundWhole(k: int, den: int)
    requires den > 0
    ensures RoundHalfAway(k * den, den) == k
  {
    RoundIsUnique(k * den, den, k);
  }

  lemma {:induction false} RoundMonotone(a: int, b: int, den: int)
    requires den > 0 && a <= b
    ensures RoundHalfAway(a, den) <= RoundHalfAway(b, den)
  {
    var r, s := RoundHalfAway(a, den), RoundHalfAway(b, den);
    RoundIsNearest(a, den);
    RoundIsNearest(b, den);
    CloseMultiples(r, s, den);
    NoTwoNearest(a, den, s);
  }

  /** A pro-rata share of a non-negative face lies between nothing and the face. */
  lemma {:induction false} ShareBounds(face: int, part: int, whole: int)
    requires 0 <= face && 0 <= part <= whole && whole > 0
    ensures 0 <= RoundHalfAway(face * part, whole) <= face
    ensures part == whole ==> RoundHalfAway(face * part, whole) == face
  {
    assert 0 <= face * part <= face * whole by {
      assert face * (whole - part) >= 0;
      assert face * whole - face * part == face * (whole - part);
    }
    RoundWhole(0, whole);
    RoundWhole(face, whole);
    RoundMonotone(0, face * part, whole);
    RoundMonotone(face * part, face * whole, whole);
  }
}
