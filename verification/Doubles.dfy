/** IEEE 754 binary64 values as far as b2 depends on them: how a 64-bit integer is
    rounded to a double, and how doubles compare.  Their arithmetic and their decimal
    spelling belong to the platform and are parameters (see FPU in Semantics.dfy). */
module Doubles {

  /** A double: a finite number other than -0, or one of the four special values. */
  datatype Double = NaN | NegInf | PosInf | NegZero | Finite(v: real)

  const TWO_TO_52: nat := 4503599627370496
  const TWO_TO_53: nat := 9007199254740992
  const INT64_MIN: int := -9223372036854775808
  const INT64_MAX: int := 9223372036854775807

  predicate FitsInt64(i: int) {
    INT64_MIN <= i <= INT64_MAX
  }

  function Abs(i: int): nat {
    if i < 0 then -i else i
  }

  // ---------- Rounding an integer to the nearest double ----------

  /** The gap between neighbouring doubles at magnitude n, never below one. */
  function Ulp(n: nat): (u: nat)
    ensures u >= 1
  {
    if n < TWO_TO_53 then 1 else 2 * Ulp(n / 2)
  }

  /** Rounds to a multiple of Ulp(n): to the nearest one, ties to the even one. */
  function RoundNat(n: nat): nat {
    var u := Ulp(n);
    RoundParts(n / u, n % u, u)
  }

  function RoundInt(i: int): int {
    if i < 0 then 0 - RoundNat(-i) else RoundNat(i)
  }

  /** The conversion C++ performs when a `long` meets a `double`. */
  function ToDouble(i: int): Double {
    Finite(RoundInt(i) as real)
  }

  /** The nearest integer, ties to the even one. */
  function Nearest(x: real): int {
    var r := x - x.Floor as real;
    if r < 0.5 || (r == 0.5 && x.Floor % 2 == 0) then x.Floor else x.Floor + 1
  }

  /** What `std::to_string` writes of a finite double: six decimals. */
  function SixDecimals(x: real): real {
    Nearest(x * 1000000.0) as real / 1000000.0
  }

  lemma {:induction false} UlpBounds(n: nat)
    ensures n < TWO_TO_53 * Ulp(n)
    ensures Ulp(n) > 1 ==> n >= TWO_TO_52 * Ulp(n)
  {
    if n >= TWO_TO_53 {
      UlpBounds(n / 2);
    }
  }

  lemma {:induction false} UlpGrows(a: nat, b: nat)
    requires a <= b
    ensures Ulp(a) == Ulp(b) || 2 * Ulp(a) <= Ulp(b)
  {
    if a >= TWO_TO_53 {
      UlpGrows(a / 2, b / 2);
    }
  }

  /** Rounding n == q * u + r to a multiple of u, the core of RoundNat. */
  function RoundParts(q: nat, r: nat, u: nat): nat {
    if 2 * r < u || (2 * r == u && q % 2 == 0) then q * u else (q + 1) * u
  }

  lemma Scale(a: nat, b: nat, u: nat)
    requires a <= b
    ensures a * u <= b * u
  {
    if a < b {
      Scale(a, b - 1, u);
      assert b * u == (b - 1) * u + u;
    }
  }

  lemma PartsOrdered(q: nat, r: nat, q': nat, r': nat, u: nat)
    requires r < u && r' < u && (q < q' || (q == q' && r <= r'))
    ensures RoundParts(q, r, u) <= RoundParts(q', r', u)
  {
    Scale(q, q + 1, u);
    Scale(q', q' + 1, u);
    if q < q' {
      Scale(q + 1, q', u);
    }
  }

  lemma DivisionParts(n: nat, u: nat)
    requires u >= 1
    ensures n == n / u * u + n % u && n % u < u
  {
  }

  lemma PartsOrder(a: nat, b: nat, q: nat, r: nat, q': nat, r': nat, u: nat)
    requires a <= b && a == q * u + r && b == q' * u + r' && r < u && r' < u
    ensures q < q' || (q == q' && r <= r')
  {
    assert (q' + 1) * u == q' * u + u;
    if q' < q {
      Scale(q' + 1, q, u);
      assert false;
    }
  }

  lemma PartsMonotone(a: nat, b: nat, qa: nat, ra: nat, ua: nat, qb: nat, rb: nat, ub: nat)
    requires a <= b && a == qa * ua + ra && ra < ua && b == qb * ub + rb && rb < ub
    requires ua == ub || (2 * ua <= ub && a < TWO_TO_53 * ua && TWO_TO_52 * ub <= b)
    ensures RoundParts(qa, ra, ua) <= RoundParts(qb, rb, ub)
  {
    if ua == ub {
      PartsOrder(a, b, qa, ra, qb, rb, ua);
      PartsOrdered(qa, ra, qb, rb, ua);
    } else {
      RoundedBelow(a, qa, ra, ua, TWO_TO_53);
      RoundedAbove(b, qb, rb, ub, TWO_TO_52);
    }
  }

  /** Rounding never swaps two integers. */
  lemma RoundNatMonotone(a: nat, b: nat)
    requires a <= b
    ensures RoundNat(a) <= RoundNat(b)
  {
    var ua, ub := Ulp(a), Ulp(b);
    UlpGrows(a, b);
    UlpBounds(a);
    UlpBounds(b);
    DivisionParts(a, ua);
    DivisionParts(b, ub);
    var qa, ra, qb, rb := a / ua, a % ua, b / ub, b % ub;
    PartsMonotone(a, b, qa, ra, ua, qb, rb, ub);
  }

  lemma RoundedBelow(n: nat, q: nat, r: nat, u: nat, k: nat)
    requires n == q * u + r && r < u && n < k * u
    ensures RoundParts(q, r, u) <= k * u
  {
    if k <= q {
      Scale(k, q, u);
      assert false;
    }
    Scale(q + 1, k, u);
    Scale(q, k, u);
  }

  lemma RoundedAbove(n: nat, q: nat, r: nat, u: nat, k: nat)
    requires n == q * u + r && r < u && k * u <= n
    ensures k * u <= RoundParts(q, r, u)
  {
    assert (q + 1) * u == q * u + u;
    if q < k {
      Scale(q + 1, k, u);
      assert false;
    }
    Scale(k, q, u);
    Scale(k, q + 1, u);
  }

  lemma RoundIntMonotone(i: int, j: int)
    requires i <= j
    ensures RoundInt(i) <= RoundInt(j)
  {
    if i >= 0 {
      RoundNatMonotone(i, j);
    } else if j < 0 {
      RoundNatMonotone(-j, -i);
    }
  }

  /** Integers of magnitude at most 2^53 are doubles. */
  lemma SmallIntegersAreDoubles(i: int)
    requires Abs(i) <= TWO_TO_53
    ensures RoundInt(i) == i
  {
    var n: nat := Abs(i);
    if n == TWO_TO_53 {
      assert Ulp(n / 2) == 1;
      assert Ulp(n) == 2;
    }
  }

  /** An integer above 2^53 in magnitude never rounds below 2^53. */
  lemma LargeIntegersStayLarge(i: int)
    requires Abs(i) >= TWO_TO_53
    ensures Abs(RoundInt(i)) >= TWO_TO_53
  {
    RoundNatMonotone(TWO_TO_53, Abs(i));
    SmallIntegersAreDoubles(TWO_TO_53);
  }

  // ---------- Rounding goes to the nearest ----------

  /** No multiple of the gap is nearer, and halfway between two the even one is taken. */
  lemma PartsNearest(n: nat, q: nat, r: nat, u: nat, k: int)
    requires n == q * u + r && r < u
    ensures Abs(RoundParts(q, r, u) - n) <= Abs(k * u - n)
    ensures 2 * Abs(RoundParts(q, r, u) - n) <= u
    ensures 2 * Abs(RoundParts(q, r, u) - n) == u ==> exists p: nat :: RoundParts(q, r, u) == 2 * p * u
  {
    assert (q + 1) * u == q * u + u;
    if k <= q {
      ScaleInt(k, q, u);
    } else {
      ScaleInt(q + 1, k, u);
    }
    if 2 * r == u {
      var p: nat := if q % 2 == 0 then q / 2 else (q + 1) / 2;
      assert RoundParts(q, r, u) == 2 * p * u;
    }
  }

  lemma ScaleInt(a: int, b: int, u: nat)
    requires a <= b
    ensures a * u <= b * u
  {
    assert (b - a) * u >= 0;
    assert b * u == a * u + (b - a) * u;
  }

  lemma RoundNatNearest(n: nat, k: int)
    ensures Abs(RoundNat(n) - n) <= Abs(k * Ulp(n) - n)
    ensures 2 * Abs(RoundNat(n) - n) <= Ulp(n)
    ensures 2 * Abs(RoundNat(n) - n) == Ulp(n) ==> exists p: nat :: RoundNat(n) == 2 * p * Ulp(n)
  {
    var u := Ulp(n);
    DivisionParts(n, u);
    PartsNearest(n, n / u, n % u, u, k);
  }

  /** The double of an integer is a nearest one of those around it, on either side of zero. */
  lemma RoundIntNearest(i: int, k: int)
    ensures Abs(RoundInt(i) - i) <= Abs(k * Ulp(Abs(i)) - i)
    ensures 2 * Abs(RoundInt(i) - i) == Ulp(Abs(i)) ==> exists p: int :: RoundInt(i) == 2 * p * Ulp(Abs(i))
  {
    var n := Abs(i);
    var u := Ulp(n);
    if i >= 0 {
      RoundNatNearest(n, k);
      if 2 * Abs(RoundInt(i) - i) == u {
        var p: nat :| RoundNat(n) == 2 * p * u;
        assert RoundInt(i) == 2 * p * u;
      }
    } else {
      RoundNatNearest(n, -k);
      assert -k * u == -(k * u);
      if 2 * Abs(RoundInt(i) - i) == u {
        var p: nat :| RoundNat(n) == 2 * p * u;
        var m: int := 0 - p;
        assert 2 * m * u == 0 - 2 * p * u;
        assert RoundInt(i) == 2 * m * u;
      }
    }
  }

  function Distance(x: real, y: real): real {
    if x < y then y - x else x - y
  }

  /** The same for decimals: no integer is nearer to x. */
  lemma NearestInteger(x: real, k: int)
    ensures Distance(Nearest(x) as real, x) <= Distance(k as real, x)
    ensures x - x.Floor as real == 0.5 ==> Nearest(x) % 2 == 0
  {
    if k <= x.Floor {
      assert k as real <= x.Floor as real;
    } else {
      assert k as real >= x.Floor as real + 1.0;
    }
  }

  /** What is written has six decimals, and no other number with six decimals is nearer. */
  lemma SixDecimalsNearest(x: real, k: int)
    ensures SixDecimals(x) * 1000000.0 == Nearest(x * 1000000.0) as real
    ensures Distance(SixDecimals(x), x) <= Distance(k as real / 1000000.0, x)
  {
    var y, r := x * 1000000.0, Nearest(x * 1000000.0) as real;
    NearestInteger(y, k);
    assert Distance(r / 1000000.0, x) == Distance(r, y) / 1000000.0;
    assert Distance(k as real / 1000000.0, x) == Distance(k as real, y) / 1000000.0;
  }

  // ---------- Comparing doubles ----------

  /** Position of a double other than NaN on the extended real line. */
  function Key(d: Double): (int, real)
    requires d != NaN
  {
    match d
    case NegInf => (-1, 0.0)
    case PosInf => (1, 0.0)
    case NegZero => (0, 0.0)
    case Finite(v) => (0, v)
  }

  predicate DEqual(a: Double, b: Double) {
    a != NaN && b != NaN && Key(a) == Key(b)
  }

  predicate DLess(a: Double, b: Double) {
    a != NaN && b != NaN && (Key(a).0 < Key(b).0 || (Key(a).0 == Key(b).0 && Key(a).1 < Key(b).1))
  }

  /** Sign change, which is also multiplication by -1. */
  function DNegate(d: Double): Double {
    match d
    case NaN => NaN
    case NegInf => PosInf
    case PosInf => NegInf
    case NegZero => Finite(0.0)
    case Finite(v) => if v == 0.0 then NegZero else Finite(0.0 - v)
  }

  /** The order of doubles: that of the reals between the infinities, with one zero, and with
      NaN apart from everything. */
  lemma DoublesOrdered(v: real, x: real, d: Double)
    ensures DLess(Finite(v), Finite(x)) <==> v < x
    ensures DEqual(Finite(v), Finite(x)) <==> v == x
    ensures DLess(NegInf, Finite(v)) && DLess(Finite(v), PosInf) && DLess(NegInf, PosInf)
    ensures DEqual(NegZero, Finite(v)) <==> v == 0.0
    ensures !DLess(NaN, d) && !DLess(d, NaN) && !DEqual(NaN, d) && !DEqual(d, NaN)
    ensures d != NaN ==> DEqual(d, d) && !DLess(d, d)
  {
  }

  /** Changing the sign reverses the order, changes only the sign, and undoes itself. */
  lemma NegationReverses(a: Double, b: Double)
    ensures DNegate(DNegate(a)) == a
    ensures DLess(a, b) <==> DLess(DNegate(b), DNegate(a))
    ensures a.Finite? && a.v != 0.0 ==> DNegate(a).Finite? && DNegate(a).v + a.v == 0.0
    ensures DEqual(a, Finite(0.0)) ==> DNegate(a) != a && DEqual(DNegate(a), a)
  {
  }
}
