// Integers as binary64 numbers: roundTiesToEven (IEEE 754-2019, section 4.3.1), and the guard that
// keeps integers out of frozen invocations when rounding would change them.
module Numbers {
  import opened Wrappers

  const TWO_53: nat := 9007199254740992
  const TWO_52: nat := 4503599627370496
  const MAX_SCALE: nat := 971

  function Pow2(k: nat): (p: nat)
    ensures p >= 1
  {
    if k == 0 then 1 else 2 * Pow2(k - 1)
  }

  function Abs(n: int): nat {
    if n < 0 then -n else n
  }

  // How many low bits do not fit a 53-bit significand.
  function Scale(a: nat): (e: nat) {
    if a < TWO_53 then 0 else 1 + Scale(a / 2)
  }

  // The significand after rounding to nearest, ties to even.
  function Significand(a: nat): (q: nat) {
    var unit := Pow2(Scale(a));
    var q, r := a / unit, a % unit;
    if 2 * r < unit || (2 * r == unit && q % 2 == 0) then q else q + 1
  }

  function RoundNat(a: nat): nat {
    Significand(a) * Pow2(Scale(a))
  }

  // float(n); None is an overflow.
  function Round64(n: int): (r: Option<int>) {
    var a := Abs(n);
    if Scale(a) > MAX_SCALE || (Scale(a) == MAX_SCALE && Significand(a) == TWO_53) then None
    else
      var rounded: int := RoundNat(a);
      Some(if n < 0 then -rounded else rounded)
  }

  // The guard on integers: above 2^53 only those that survive the conversion.
  predicate Guarded(n: int) {
    Abs(n) <= TWO_53 || Round64(n) == Some(n)
  }

  // A tie goes to the even neighbour.
  lemma {:induction false} TiesToEven(a: nat)
    ensures 2 * (a % Pow2(Scale(a))) == Pow2(Scale(a)) ==> Significand(a) % 2 == 0
  {
  }

  /* ---------- Scale and rounding ---------- */

  lemma {:induction false} ScaleBounds(a: nat)
    ensures a < TWO_53 * Pow2(Scale(a))
    ensures Scale(a) > 0 ==> TWO_52 * Pow2(Scale(a)) <= a
  {
    if a >= TWO_53 {
      ScaleBounds(a / 2);
      var h, p := a / 2, Pow2(Scale(a / 2));
      assert Pow2(Scale(a)) == 2 * p;
      assert h < TWO_53 * p;
      if Scale(h) == 0 {
        assert p == 1;
      }
    }
  }

  lemma {:induction false} SignificandBounds(a: nat)
    ensures
      var unit := Pow2(Scale(a));
      && a / unit <= Significand(a) <= a / unit + 1
      && Significand(a) <= TWO_53
      && (Scale(a) > 0 ==> TWO_52 <= a / unit)
  {
    var unit := Pow2(Scale(a));
    ScaleBounds(a);
    Quotient(a, unit, TWO_53);
    if Scale(a) > 0 {
      QuotientLow(a, unit, TWO_52);
    } else {
      assert unit == 1 && a / unit == a && a % unit == 0;
    }
  }

  lemma {:induction false} Quotient(a: nat, unit: nat, limit: nat)
    requires unit > 0 && a < limit * unit
    ensures a / unit < limit
  {
    if a / unit >= limit {
      Multiply(limit, a / unit, unit);
    }
  }

  lemma {:induction false} QuotientLow(a: nat, unit: nat, limit: nat)
    requires unit > 0 && limit * unit <= a
    ensures limit <= a / unit
  {
    if a / unit < limit {
      Multiply(a / unit + 1, limit, unit);
    }
  }

  lemma {:induction false} Multiply(x: int, y: int, unit: nat)
    requires x <= y
    ensures x * unit <= y * unit
  {
  }

  lemma {:induction false} ExactMultiples(a: nat)
    ensures RoundNat(a) == a <==> a % Pow2(Scale(a)) == 0
  {
    var unit := Pow2(Scale(a));
    var q, r := a / unit, a % unit;
    assert a == q * unit + r;
    assert (q + 1) * unit == q * unit + unit;
    if r == 0 {
      assert Significand(a) == q;
    }
  }

  // Every integer up to 2^53 in magnitude survives; the first beyond does not.
  lemma {:induction false} ExactUpToTwo53(n: int)
    requires Abs(n) <= TWO_53
    ensures Round64(n) == Some(n)
  {
    var a := Abs(n);
    ExactMultiples(a);
    if a == TWO_53 {
      assert Scale(a / 2) == 0;
      assert Scale(a) == 1 + Scale(a / 2);
      assert Pow2(1) == 2 * Pow2(0);
      SignificandBounds(a);
    } else {
      assert Scale(a) == 0 && Pow2(0) == 1;
    }
  }

  lemma {:induction false} Two53IsTight()
    ensures Round64(TWO_53 + 1) == Round64(TWO_53) == Some(TWO_53)
    ensures !Guarded(TWO_53 + 1)
  {
    ExactUpToTwo53(TWO_53);
    var a: nat := TWO_53 + 1;
    assert Scale(a / 2) == 0;
    assert Scale(a) == 1 + Scale(a / 2);
    assert Pow2(1) == 2 * Pow2(0);
    assert a / 2 == TWO_52 && a % 2 == 1;
    assert Significand(a) == TWO_52;
    assert RoundNat(a) == TWO_53;
  }

  // The guard lets through exactly the integers conversion leaves alone, so no two that it lets
  // through become the same number.
  lemma {:induction false} GuardedIsExact(n: int)
    ensures Guarded(n) <==> Round64(n) == Some(n)
  {
    if Abs(n) <= TWO_53 {
      ExactUpToTwo53(n);
    }
  }

  lemma {:induction false} GuardedNeverCollide(m: int, n: int)
    requires Guarded(m) && Guarded(n) && Round64(m) == Round64(n)
    ensures m == n
  {
    GuardedIsExact(m);
    GuardedIsExact(n);
  }

  /* ---------- What binary64 can hold ---------- */

  // A non-negative integer with at most 53 significant bits.
  function Scaled(m: nat, k: nat): nat {
    m * Pow2(k)
  }

  ghost predicate Representable(x: nat) {
    exists m: nat, k: nat :: m <= TWO_53 && x == Scaled(m, k)
  }

  lemma {:induction false} Pow2Split(j: nat, k: nat)
    requires j <= k
    ensures Pow2(k) == Pow2(k - j) * Pow2(j)
    decreases j
  {
    if j > 0 {
      Pow2Split(j - 1, k - 1);
    }
  }

  lemma {:induction false} Divides(q: nat, unit: nat)
    requires unit > 0
    ensures (q * unit) % unit == 0 && (q * unit) / unit == q
  {
    var a := q * unit;
    if a / unit < q {
      Multiply(a / unit + 1, q, unit);
    } else if a / unit > q {
      Multiply(q + 1, a / unit, unit);
    }
    assert a == a / unit * unit + a % unit;
  }

  // Numbers of at least the magnitude of `a` have no finer units than those left after rounding.
  lemma {:induction false} CoarseAbove(x: nat, e: nat)
    requires Representable(x) && TWO_52 * Pow2(e) <= x
    ensures x % Pow2(e) == 0
  {
    var m: nat, k: nat :| m <= TWO_53 && x == Scaled(m, k);
    if k >= e {
      Pow2Split(e, k);
      var c := m * Pow2(k - e);
      assert x == c * Pow2(e) by {
        Associate(m, Pow2(k - e), Pow2(e));
      }
      Divides(c, Pow2(e));
    } else {
      Pow2Split(k, e);
      var d := Pow2(e - k);
      assert d >= 2 by {
        assert Pow2(e - k) == 2 * Pow2(e - k - 1);
      }
      Associate(TWO_52, d, Pow2(k));
      assert TWO_52 * d * Pow2(k) <= m * Pow2(k);
      Cancel(TWO_52 * d, m, Pow2(k));
      assert TWO_52 * d <= m <= TWO_53;
      assert d == 2 by {
        if d >= 3 {
          Multiply(3, d, TWO_52);
        }
      }
      assert x == TWO_52 * Pow2(e);
      Divides(TWO_52, Pow2(e));
    }
  }

  lemma {:induction false} Associate(x: int, y: int, z: int)
    ensures x * (y * z) == (x * y) * z
  {
  }

  lemma {:induction false} Cancel(x: int, y: int, unit: nat)
    requires unit > 0 && x * unit <= y * unit
    ensures x <= y
  {
    if y < x {
      Multiply(y + 1, x, unit);
    }
  }

  lemma {:induction false} RoundedIsRepresentable(a: nat)
    ensures Representable(RoundNat(a))
  {
    SignificandBounds(a);
    assert RoundNat(a) == Scaled(Significand(a), Scale(a));
  }

  // The rounded number is nearest: no representable number lies closer.
  lemma {:induction false} RoundIsNearest(a: nat, x: nat)
    requires Representable(x)
    ensures Abs(RoundNat(a) - a) <= Abs(x - a)
  {
    var e := Scale(a);
    var unit := Pow2(e);
    var q, r := a / unit, a % unit;
    assert a == q * unit + r;
    assert (q + 1) * unit == q * unit + unit;
    var s := Significand(a);
    assert s == q || s == q + 1;
    assert RoundNat(a) == s * unit;
    if e == 0 {
      assert unit == 1 && r == 0;
    } else {
      ScaleBounds(a);
      if TWO_52 * unit <= x {
        CoarseAbove(x, e);
        var c := x / unit;
        assert x == c * unit;
        if c <= q {
          Multiply(c, q, unit);
        } else {
          Multiply(q + 1, c, unit);
        }
      } else {
        QuotientLow(a, unit, TWO_52);
        Multiply(TWO_52, q, unit);
      }
    }
  }

  // The guard accepts exactly the in-range integers with at most 53 significant bits.
  lemma {:induction false} GuardedIff(n: int)
    requires Round64(n).Some?
    ensures Guarded(n) <==> Representable(Abs(n))
  {
    var a := Abs(n);
    GuardedIsExact(n);
    RoundedIsRepresentable(a);
    if Representable(a) {
      RoundIsNearest(a, a);
    }
  }

  lemma {:induction false} ScaleLeast(a: nat, e: nat)
    requires a < TWO_53 * Pow2(e)
    ensures Scale(a) <= e
    decreases e
  {
    if a >= TWO_53 {
      ScaleLeast(a / 2, e - 1);
    }
  }

  // A rounded number in range rounds to itself without overflowing.
  lemma {:induction false} ScaledInRange(q: nat, e: nat)
    requires q <= TWO_53 && e <= MAX_SCALE && !(e == MAX_SCALE && q == TWO_53)
    ensures Scale(Scaled(q, e)) <= MAX_SCALE
    ensures Scale(Scaled(q, e)) == MAX_SCALE ==> Significand(Scaled(q, e)) < TWO_53
  {
    var r := Scaled(q, e);
    if q < TWO_53 {
      Multiply(q + 1, TWO_53, Pow2(e));
      assert (q + 1) * Pow2(e) == r + Pow2(e);
      ScaleLeast(r, e);
      Divides(q, Pow2(e));
    } else {
      FullSignificand(e);
    }
  }

  lemma {:induction false} FullSignificand(e: nat)
    ensures Scale(Scaled(TWO_53, e)) <= e + 1
    ensures Scale(Scaled(TWO_53, e)) == e + 1 ==> Significand(Scaled(TWO_53, e)) == TWO_52
  {
    var unit := Pow2(e);
    assert Pow2(e + 1) == 2 * unit;
    assert Scaled(TWO_53, e) == TWO_52 * Pow2(e + 1);
    ScaleLeast(Scaled(TWO_53, e), e + 1);
    Divides(TWO_52, Pow2(e + 1));
  }

  // Rounding a rounded number changes nothing.
  lemma {:induction false} RoundIdempotent(n: int)
    requires Round64(n).Some?
    ensures Round64(Round64(n).value) == Round64(n)
  {
    hide Scale, Significand, Pow2;
    var a := Abs(n);
    var r := RoundNat(a);
    assert Abs(Round64(n).value) == r == Scaled(Significand(a), Scale(a));
    SignificandBounds(a);
    RoundedIsRepresentable(a);
    RoundIsNearest(r, r);
    ScaledInRange(Significand(a), Scale(a));
    hide RoundNat;
  }

  /* ---------- Overflow ---------- */

  lemma {:induction false} Pow2Monotone(j: nat, k: nat)
    requires j <= k
    ensures Pow2(j) <= Pow2(k)
  {
    if j < k {
      Pow2Monotone(j, k - 1);
    }
  }

  predicate TooLarge(a: nat, top: nat) {
    Scale(a) > top || (Scale(a) == top && Significand(a) == TWO_53)
  }

  lemma {:induction false} TooLargeIff(a: nat, top: nat)
    requires top >= 1
    ensures TooLarge(a, top) <==> a >= (2 * TWO_53 - 1) * Pow2(top - 1)
  {
    var half, unit := Pow2(top - 1), Pow2(top);
    ScaleBounds(a);
    SignificandBounds(a);
    if Scale(a) < top {
      Pow2Monotone(Scale(a), top - 1);
      Multiply(1, TWO_53 - 1, half);
      ScaledBelow(TWO_53, Pow2(Scale(a)), half);
    } else if Scale(a) > top {
      Pow2Monotone(top + 1, Scale(a));
      ScaledBelow(TWO_52, Pow2(top + 1), Pow2(Scale(a)));
    } else {
      TopScale(a, a / unit, a % unit, half);
    }
  }

  lemma {:induction false} ScaledBelow(x: nat, p: nat, q: nat)
    requires p <= q
    ensures x * p <= x * q
  {
  }

  // At the top scale the significand is full exactly from halfway between the last two numbers on.
  lemma {:induction false} TopScale(a: nat, q: nat, r: nat, half: nat)
    requires half >= 1 && Pow2(Scale(a)) == 2 * half && q == a / (2 * half) && r == a % (2 * half)
    requires q < TWO_53
    ensures Significand(a) == TWO_53 <==> a >= (2 * TWO_53 - 1) * half
  {
    assert a == q * (2 * half) + r;
    if q < TWO_53 - 1 {
      Multiply(q + 1, TWO_53 - 1, 2 * half);
      assert (q + 1) * (2 * half) == q * (2 * half) + 2 * half;
    }
  }

  // Conversion overflows exactly from 2^1024 - 2^970 on, halfway beyond the largest finite number.
  lemma {:induction false} OverflowIff(n: int)
    ensures Round64(n).None? <==> Abs(n) >= (2 * TWO_53 - 1) * Pow2(970)
  {
    TooLargeIff(Abs(n), MAX_SCALE);
  }
}
