/**
 The load average: fixed-point decay, its fast power form, and how far rounding takes
 each from the exact values.
 */
module LoadAvg {
  import opened Arith

  /** unsigned long on a 64-bit machine. */
  const ULONG: nat := 0x1_0000_0000_0000_0000
  const FSHIFT: nat := 11
  const FIXED_1: nat := 2048

  function Pow2(f: nat): (r: nat)
    ensures r >= 1
  {
    if f == 0 then 1 else 2 * Pow2(f - 1)
  }

  /** A right shift, by the power of two d. */
  function Shr(a: nat, d: nat): (q: nat)
    requires d > 0
    ensures q * d <= a < q * d + d
  {
    a / d
  }

  /** A 64-bit product of fixed-point numbers, brought back to f fraction bits: add a half, drop the rest. */
  function Renormalize(p: nat, f: nat): nat
    requires f > 0
  {
    Shr((p % ULONG + Pow2(f - 1)) % ULONG, Pow2(f))
  }

  function Product(a: nat, b: nat): nat { a * b }

  function MulRound(a: nat, b: nat, f: nat): nat
    requires f > 0
  {
    Renormalize(Product(a, b), f)
  }

  /** A way to multiply two numbers with f fraction bits. */
  type Times = (nat, nat) -> nat

  function Rounded(f: nat): Times
    requires f > 0
  {
    (a: nat, b: nat) => MulRound(a, b, f)
  }

  /** What the loop of fixed_power_int turns result and x into for the rest n of the power. */
  function PowerLoop(mul: Times, result: nat, x: nat, n: nat): nat
    decreases n
  {
    if n == 0 then result
    else
      var r := if n % 2 == 1 then mul(result, x) else result;
      if n / 2 == 0 then r else PowerLoop(mul, r, mul(x, x), n / 2)
  }

  function FixedPower(x: nat, f: nat, n: nat): nat
    requires f > 0
  {
    PowerLoop(Rounded(f), Pow2(f), x, n)
  }

  method FixedPowerInt(x: nat, f: nat, n: nat) returns (result: nat)
    requires 0 < f < 64
    ensures result == FixedPower(x, f, n)
  {
    result := Pow2(f);
    if n != 0 {
      var y, m := x, n;
      while true
        invariant m > 0 && PowerLoop(Rounded(f), result, y, m) == FixedPower(x, f, n)
        decreases m
      {
        if m % 2 == 1 {
          result := MulRound(result, y, f);
        }
        m := m / 2;
        if m == 0 {
          break;
        }
        y := MulRound(y, y, f);
      }
    }
  }

  // --- exact powers ---

  function Pow(y: real, n: nat): real {
    if n == 0 then 1.0 else y * Pow(y, n - 1)
  }

  lemma {:induction false} PowSquare(y: real, n: nat)
    ensures Pow(y * y, n) == Pow(y, 2 * n)
  {
    if n > 0 {
      PowSquare(y, n - 1);
      var p := Pow(y, 2 * (n - 1));
      assert Pow(y, 2 * n - 1) == y * p;
      assert Pow(y, 2 * n) == y * (y * p);
      assert (y * y) * p == y * (y * p);
    }
  }

  lemma UnitProduct(a: real, b: real)
    requires 0.0 <= a <= 1.0 && 0.0 <= b <= 1.0
    ensures 0.0 <= a * b <= 1.0 && a * b <= a
  {
  }

  function Abs(x: real): real { if x < 0.0 then -x else x }

  // --- one rounded multiplication ---

  lemma {:induction false} Pow2Mono(f: nat, g: nat)
    requires f <= g
    ensures Pow2(f) <= Pow2(g)
    decreases g
  {
    if f < g {
      Pow2Mono(f, g - 1);
    }
  }

  lemma {:induction false} Pow2Add(f: nat, g: nat)
    ensures Pow2(f + g) == Pow2(f) * Pow2(g)
    decreases g
  {
    if g > 0 {
      Pow2Add(f, g - 1);
      Doubling(Pow2(f), Pow2(g - 1));
    }
  }

  lemma Doubling(a: nat, b: nat)
    ensures a * (2 * b) == 2 * (a * b)
  {
  }

  lemma Pow2Byte(f: nat)
    ensures Pow2(f + 8) == 256 * Pow2(f)
  {
    assert Pow2(f + 2) == 4 * Pow2(f);
    assert Pow2(f + 4) == 4 * Pow2(f + 2);
    assert Pow2(f + 6) == 4 * Pow2(f + 4);
  }

  lemma Pow2Is32()
    ensures Pow2(32) == 0x1_0000_0000
  {
    Pow2Byte(0);
    Pow2Byte(8);
    Pow2Byte(16);
    Pow2Byte(24);
  }

  lemma Pow2Is64()
    ensures Pow2(64) == ULONG
  {
    Pow2Is32();
    Pow2Byte(32);
    Pow2Byte(40);
    Pow2Byte(48);
    Pow2Byte(56);
  }

  lemma ProductBound(a: nat, b: nat, c: nat)
    requires a <= c && b <= c
    ensures a * b <= c * c
  {
    MulOrder(a, c, b);
    MulOrder(b, c, c);
    Commute(b, c);
  }

  lemma Commute(a: int, b: int)
    ensures a * b == b * a
  {
  }

  /** q is at most d, and is p / d rounded to the nearest whole number, halves up. */
  ghost predicate HalfUnit(q: nat, p: nat, d: nat) {
    q <= d && 2 * (q * d) <= 2 * p + d && 2 * p < 2 * (q * d) + d
  }

  /** A shift of p plus half a unit, for p at most one squared. */
  lemma ShrNear(p: nat, h: nat, d: nat)
    requires d == 2 * h > 0 && p <= d * d
    ensures HalfUnit(Shr(p + h, d), p, d)
  {
    var q := Shr(p + h, d);
    MulOrder(d, q, d);
  }

  /** With both factors at most one, the second below 2^(64-f), nothing wraps: the result is at most one, and off by at most a half. */
  lemma MulRoundNear(a: nat, b: nat, f: nat)
    requires 0 < f < 64 && a <= Pow2(f) && b <= Pow2(f) && b < Pow2(64 - f)
    ensures HalfUnit(MulRound(a, b, f), Product(a, b), Pow2(f))
  {
    ProductBound(a, b, Pow2(f));
    RoomToRound(a, b, Pow2(f), Pow2(64 - f));
    WholeWord(f);
    NoWrap(Product(a, b), Pow2(f - 1));
    ShrNear(Product(a, b), Pow2(f - 1), Pow2(f));
  }

  /** In every case the result is what is left of the product, and of a half, in 64 bits. */
  lemma MulRoundWraps(a: nat, b: nat, f: nat)
    requires 0 < f < 64
    ensures var v, q := a * b + Pow2(f - 1), MulRound(a, b, f);
      q * Pow2(f) <= v % ULONG < q * Pow2(f) + Pow2(f)
  {
    ModOnce(a * b, Pow2(f - 1));
  }

  lemma ModOnce(p: nat, h: nat)
    ensures (p % ULONG + h) % ULONG == (p + h) % ULONG
  {
  }

  /** A product with a factor below top leaves room for one more d below d * top. */
  lemma RoomToRound(a: nat, b: nat, d: nat, top: nat)
    requires a <= d && b < top
    ensures a * b + d <= d * top
  {
    MulOrder(a, d, b);
    MulOrder(b, top, d);
    Commute(b, d);
    Commute(top, d);
  }

  lemma WholeWord(f: nat)
    requires f <= 64
    ensures Pow2(f) * Pow2(64 - f) == ULONG
  {
    Pow2Add(f, 64 - f);
    Pow2Is64();
  }

  lemma NoWrap(p: nat, h: nat)
    requires p + h < ULONG
    ensures (p % ULONG + h) % ULONG == p + h
  {
  }

  // --- real arithmetic, one product at a time ---

  lemma Cancel(u: real, v: real, d: real)
    requires d > 0.0 && u * d <= v * d
    ensures u <= v
  {
  }

  lemma Distribute(a: real, b: real, c: real)
    ensures (a - b) * c == a * c - b * c
    ensures (a + b) * c == a * c + b * c
  {
  }

  lemma MulLe(u: real, a: real, v: real)
    requires u <= a && 0.0 <= v
    ensures u * v <= a * v
  {
  }

  lemma Negate(u: real, v: real)
    ensures (-u) * v == -(u * v)
  {
  }

  lemma AbsProduct(u: real, v: real, a: real, d: real)
    requires Abs(u) <= a && 0.0 <= v <= d
    ensures Abs(u * v) <= a * d
  {
    MulLe(u, a, v);
    MulLe(-u, a, v);
    Negate(u, v);
    MulLe(v, d, a);
    Exchange(v, a);
    Exchange(d, a);
  }

  lemma Exchange(a: real, b: real)
    ensures a * b == b * a
  {
  }

  /** The first factor is off by at most a. */
  lemma FirstOff(r: real, rr: real, x: real, d: real, a: real)
    requires 0.0 <= x <= d && Abs(r - rr) <= a
    ensures Abs(r * x - rr * x) <= a * d
  {
    AbsProduct(r - rr, x, a, d);
    Distribute(r, rr, x);
  }

  /** The second factor is off by at most b. */
  lemma SecondOff(rr: real, x: real, xx: real, d: real, b: real)
    requires 0.0 <= rr <= d && Abs(x - xx) <= b
    ensures Abs(rr * x - rr * xx) <= b * d
  {
    AbsProduct(x - xx, rr, b, d);
    Distribute(x, xx, rr);
    Exchange(rr, x);
    Exchange(rr, xx);
  }

  /** Errors add up in a rounded product, with half a unit for the rounding. */
  lemma StepError(r: real, rr: real, x: real, xx: real, q: real, z: real, d: real, a: real, b: real)
    requires d > 0.0 && 0.0 <= x <= d && 0.0 <= rr <= d
    requires Abs(r - rr) <= a && Abs(x - xx) <= b
    requires Abs(q * d - r * x) <= d / 2.0 && z * d == rr * xx
    ensures Abs(q - z) <= a + b + 0.5
  {
    FirstOff(r, rr, x, d, a);
    SecondOff(rr, x, xx, d, b);
    Bounded(q, z, q * d, z * d, r * x, rr * x, d, a, b, a * d, b * d);
  }

  lemma Bounded(q: real, z: real, qd: real, zd: real, p: real, m: real, d: real, a: real, b: real, ad: real, bd: real)
    requires d > 0.0 && qd == q * d && zd == z * d && ad == a * d && bd == b * d
    requires Abs(p - m) <= ad && Abs(m - zd) <= bd && Abs(qd - p) <= d / 2.0
    ensures Abs(q - z) <= a + b + 0.5
  {
    assert qd - zd <= ad + bd + d / 2.0 && zd - qd <= ad + bd + d / 2.0;
    ScaledBound(q, z, qd, zd, d, a, b, ad, bd);
    ScaledBound(z, q, zd, qd, d, a, b, ad, bd);
  }

  lemma ScaledBound(q: real, z: real, qd: real, zd: real, d: real, a: real, b: real, ad: real, bd: real)
    requires d > 0.0 && qd == q * d && zd == z * d && ad == a * d && bd == b * d
    requires qd - zd <= ad + bd + d / 2.0
    ensures q - z <= a + b + 0.5
  {
    Distribute(q, z, d);
    Distribute(a, b, d);
    Distribute(a + b, 0.5, d);
    Cancel(q - z, a + b + 0.5, d);
  }

  lemma MulReal(a: nat, b: nat)
    ensures (a * b) as real == a as real * b as real
  {
  }

  /** mul(a, b) is a * b / d rounded to within half a unit. */
  ghost predicate RoundsAt(mul: Times, d: nat, a: nat, b: nat) {
    HalfUnit(mul(a, b), Product(a, b), d)
  }

  /** So it is for every a up to the scale d and every b up to top. */
  ghost predicate Rounds(mul: Times, d: nat, top: nat) {
    d > 0 && top <= d
    && forall a, b {:trigger RoundsAt(mul, d, a, b)} :: 0 <= a <= d && 0 <= b <= top ==> RoundsAt(mul, d, a, b)
  }

  /** fixed_power_int's multiplication rounds as long as the base is below 2^(64-f). */
  lemma NarrowRounds(f: nat, top: nat)
    requires 0 < f < 64 && top <= Pow2(f) && top < Pow2(64 - f)
    ensures Rounds(Rounded(f), Pow2(f), top)
  {
    forall a, b {:trigger RoundsAt(Rounded(f), Pow2(f), a, b)} | 0 <= a <= Pow2(f) && 0 <= b <= top
      ensures RoundsAt(Rounded(f), Pow2(f), a, b)
    {
      MulRoundNear(a, b, f);
    }
  }

  /** Squaring a number of at most one does not raise it. */
  lemma SquareShrinks(q: nat, x: nat, d: nat)
    requires d > 0 && x <= d && HalfUnit(q, Product(x, x), d)
    ensures q <= x
  {
    MulOrder(x, d, x);
    if q > x {
      MulOrder(x, q, d);
      Commute(x, d);
    }
  }

  /** z is the exact product of rr and xx in units of the scale. */
  lemma MulError(mul: Times, r: nat, rr: real, x: nat, xx: real, z: real, d: nat, top: nat, a: real, b: real)
    requires Rounds(mul, d, top) && r <= d && x <= top
    requires 0.0 <= rr <= d as real && z * d as real == rr * xx
    requires Abs(r as real - rr) <= a && Abs(x as real - xx) <= b
    ensures mul(r, x) <= d
    ensures Abs(mul(r, x) as real - z) <= a + b + 0.5
  {
    assert RoundsAt(mul, d, r, x);
    HalfOff(mul(r, x), d, r, x);
    NearError(r, rr, x, xx, mul(r, x), z, d, a, b);
  }

  lemma NearError(r: nat, rr: real, x: nat, xx: real, q: nat, z: real, d: nat, a: real, b: real)
    requires 0 < d && x <= d && 0.0 <= rr <= d as real && z * d as real == rr * xx
    requires Abs(q as real * d as real - r as real * x as real) <= d as real / 2.0
    requires Abs(r as real - rr) <= a && Abs(x as real - xx) <= b
    ensures Abs(q as real - z) <= a + b + 0.5
  {
    StepError(r as real, rr, x as real, xx, q as real, z, d as real, a, b);
  }

  lemma HalfOff(q: nat, d: nat, r: nat, x: nat)
    requires HalfUnit(q, Product(r, x), d)
    ensures Abs(q as real * d as real - r as real * x as real) <= d as real / 2.0
  {
    var u, v := q * d, r * x;
    MulReal(q, d);
    MulReal(r, x);
    assert Abs(u as real - v as real) <= d as real / 2.0;
  }

  // --- the whole loop ---

  lemma Assoc(a: real, b: real, c: real)
    ensures (a * b) * c == a * (b * c)
  {
  }

  function Square(y: real): real { y * y }

  function Scale(y: real, d: nat): real { y * d as real }

  /** rr * y^n. */
  function Exact(rr: real, y: real, n: nat): real { rr * Pow(y, n) }

  /** Exact value times y, once if the low bit is set. */
  function Once(rr: real, y: real, n: nat): real {
    if n % 2 == 1 then rr * y else rr
  }

  lemma OncePow(rr: real, y: real, n: nat)
    ensures Exact(Once(rr, y, n), Square(y), n / 2) == Exact(rr, y, n)
  {
    var m := n / 2;
    PowSquare(y, m);
    if n % 2 == 1 {
      assert Pow(y, n) == y * Pow(y, 2 * m);
      Assoc(rr, y, Pow(y, 2 * m));
    }
  }

  lemma ExactZero(rr: real, y: real)
    ensures Exact(rr, y, 0) == rr
  {
  }

  lemma OnceBounds(rr: real, y: real, n: nat, d: real)
    requires 0.0 <= y <= 1.0 && 0.0 <= rr <= d
    ensures 0.0 <= Once(rr, y, n) <= d
  {
    MulLe(y, 1.0, rr);
    MulLe(0.0, y, rr);
    Exchange(rr, y);
  }

  /** The error after one round, from a in result and b in x. */
  function OnceBound(a: real, b: real, n: nat): real {
    if n % 2 == 1 then a + b + 0.5 else a
  }

  function SquareBound(b: real): real { 2.0 * b + 0.5 }

  function LoopBound(a: real, b: real, n: nat): real {
    a + n as real * (b + 0.5)
  }

  /** The bound of one round followed by half the power of the square is that of the power. */
  lemma BoundSplits(n: nat, a: real, b: real)
    ensures LoopBound(OnceBound(a, b, n), SquareBound(b), n / 2) == LoopBound(a, b, n)
    ensures n / 2 == 0 ==> OnceBound(a, b, n) == LoopBound(a, b, n)
  {
    var m, c := (n / 2) as real, b + 0.5;
    var o := (n % 2) as real;
    Doubled(m, c, SquareBound(b) + 0.5);
    assert n as real == m + m + o;
    Distribute(m + m, o, c);
    assert n % 2 == 1 ==> o == 1.0;
    assert n % 2 == 0 ==> o == 0.0;
  }

  lemma Doubled(m: real, c: real, e: real)
    requires e == c + c
    ensures m * e == (m + m) * c
  {
  }

  lemma OddRound(mul: Times, result: nat, rr: real, x: nat, xx: real, y: real, d: nat, top: nat, n: nat, a: real, b: real)
    requires Rounds(mul, d, top) && result <= d && x <= top && 0.0 <= rr <= d as real && xx == Scale(y, d)
    requires Abs(result as real - rr) <= a && Abs(x as real - xx) <= b
    ensures var r := if n % 2 == 1 then mul(result, x) else result;
      r <= d && Abs(r as real - Once(rr, y, n)) <= OnceBound(a, b, n)
  {
    if n % 2 == 1 {
      Assoc(rr, y, d as real);
      MulError(mul, result, rr, x, xx, rr * y, d, top, a, b);
    }
  }

  lemma SquareRound(mul: Times, x: nat, y: real, d: nat, top: nat, b: real)
    requires Rounds(mul, d, top) && x <= top && 0.0 <= y <= 1.0
    requires Abs(x as real - Scale(y, d)) <= b
    ensures mul(x, x) <= top
    ensures Abs(mul(x, x) as real - Scale(Square(y), d)) <= SquareBound(b)
  {
    ScaleSquare(y, d);
    MulError(mul, x, Scale(y, d), x, Scale(y, d), Scale(Square(y), d), d, top, b, b);
    assert RoundsAt(mul, d, x, x);
    SquareShrinks(mul(x, x), x, d);
  }

  lemma ScaleSquare(y: real, d: nat)
    requires 0.0 <= y <= 1.0
    ensures Scale(Square(y), d) * d as real == Scale(y, d) * Scale(y, d)
    ensures 0.0 <= Scale(y, d) <= d as real
  {
    SquareScale(y, d as real);
  }

  lemma SquareScale(y: real, d: real)
    requires 0.0 <= y <= 1.0 && 0.0 <= d
    ensures ((y * y) * d) * d == (y * d) * (y * d)
    ensures 0.0 <= y * d <= d
  {
    Assoc(y, y, d);
    Assoc(y, y * d, d);
    Assoc(y, d, y * d);
    Exchange(y * d, d);
    MulLe(y, 1.0, d);
    MulLe(0.0, y, d);
  }

  /** Rounding at every multiplication, the loop stays within the scale and close to the exact power. */
  lemma {:induction false} LoopError(mul: Times, result: nat, rr: real, x: nat, y: real, d: nat, top: nat, n: nat, a: real, b: real)
    requires Rounds(mul, d, top) && result <= d && x <= top && n > 0
    requires 0.0 <= y <= 1.0 && 0.0 <= rr <= d as real
    requires Abs(result as real - rr) <= a && Abs(x as real - Scale(y, d)) <= b
    ensures PowerLoop(mul, result, x, n) <= d
    ensures Abs(PowerLoop(mul, result, x, n) as real - Exact(rr, y, n)) <= LoopBound(a, b, n)
    decreases n
  {
    var r := if n % 2 == 1 then mul(result, x) else result;
    OncePow(rr, y, n);
    OnceBounds(rr, y, n, d as real);
    OddRound(mul, result, rr, x, Scale(y, d), y, d, top, n, a, b);
    BoundSplits(n, a, b);
    if n / 2 > 0 {
      SquareRound(mul, x, y, d, top, b);
      UnitProduct(y, y);
      LoopError(mul, r, Once(rr, y, n), mul(x, x), Square(y), d, top, n / 2, OnceBound(a, b, n), SquareBound(b));
    } else {
      ExactZero(Once(rr, y, n), Square(y));
    }
  }

  /** x^n / 2^(f(n-1)), written as 2^f * (x / 2^f)^n. */
  function ExactPower(x: nat, f: nat, n: nat): real {
    Exact(Pow2(f) as real, x as real / Pow2(f) as real, n)
  }

  /** The result stays in [0, 2^f], at most n/2 from the exact power. */
  ghost predicate Near(x: nat, f: nat, n: nat)
    requires f > 0
  {
    FixedPower(x, f, n) <= Pow2(f) && Abs(FixedPower(x, f, n) as real - ExactPower(x, f, n)) <= n as real / 2.0
  }

  lemma FixedPowerNear(x: nat, f: nat, n: nat)
    requires 0 < f < 64 && x <= Pow2(f) && x < Pow2(64 - f)
    ensures Near(x, f, n)
  {
    NarrowRounds(f, x);
    PowerNear(Rounded(f), x, Pow2(f), n);
  }

  lemma PowerNear(mul: Times, x: nat, d: nat, n: nat)
    requires Rounds(mul, d, x)
    ensures PowerLoop(mul, d, x, n) <= d
    ensures Abs(PowerLoop(mul, d, x, n) as real - Exact(d as real, x as real / d as real, n)) <= n as real / 2.0
  {
    var y := x as real / d as real;
    QuotientScale(x, d);
    if n == 0 {
      ExactZero(d as real, y);
    } else {
      LoopError(mul, d, d as real, x, y, d, x, n, 0.0, 0.0);
      FlatBound(n);
    }
  }

  lemma QuotientScale(x: nat, d: nat)
    requires x <= d && d > 0
    ensures Scale(x as real / d as real, d) == x as real
    ensures 0.0 <= x as real / d as real <= 1.0
  {
    Quotient(x as real, d as real);
  }

  lemma FlatBound(n: nat)
    ensures LoopBound(0.0, 0.0, n) == n as real / 2.0
  {
  }

  lemma Quotient(x: real, d: real)
    requires 0.0 <= x <= d && d > 0.0
    ensures x / d * d == x && 0.0 <= x / d <= 1.0
  {
    Cancel(x / d, 1.0, d);
    Cancel(0.0, x / d, d);
  }

  /** The first power, whatever the base: its bits from 64-f up are lost. */
  lemma FirstPowerIs(x: nat, f: nat)
    requires 0 < f < 64
    ensures FixedPower(x, f, 1) == x % Pow2(64 - f)
  {
    WholeWord(f);
    HalfBelow(f);
    WrapsTo(x, Pow2(f - 1), Pow2(f), Pow2(64 - f));
    assert FixedPower(x, f, 1) == MulRound(Pow2(f), x, f);
  }

  /** In arithmetic modulo d * top, one times x keeps x modulo top. */
  lemma WrapsTo(x: nat, h: nat, d: nat, top: nat)
    requires d > 0 && top > 0 && h < d && d * top == ULONG
    ensures Shr((Product(d, x) % ULONG + h) % ULONG, d) == x % top
  {
    var r := x % top;
    ModFactor(x, d, top);
    RoomToRound(d, r, d, top);
    ShrExact(r, h, d);
    Commute(r, d);
    assert (d * r + h) % ULONG == d * r + h;
  }

  lemma ModFactor(x: nat, d: nat, top: nat)
    requires d > 0 && top > 0
    ensures d * top > 0 && (d * x) % (d * top) == d * (x % top)
  {
    var q, r := x / top, x % top;
    assert x == q * top + r;
    Distributes(d, q * top, r);
    assert d * (q * top) == q * (d * top);
    MulOrder(r + 1, top, d);
    Commute(d, r);
    Commute(d, top);
    MulOrder(1, d, top);
    ModUnique(d * x, d * top, q, d * r);
  }

  lemma Distributes(d: nat, a: nat, b: nat)
    ensures d * (a + b) == d * a + d * b
  {
  }

  lemma ShrExact(r: nat, h: nat, d: nat)
    requires h < d
    ensures Shr(r * d + h, d) == r
  {
    ModUnique(r * d + h, d, r, h);
  }

  lemma HalfBelow(f: nat)
    requires 0 < f <= 64
    ensures Pow2(f - 1) < Pow2(f) && Pow2(f - 1) < ULONG
  {
    Pow2Mono(f, 64);
    Pow2Is64();
  }

  lemma FirstIsBase(x: real, d: real)
    requires d > 0.0
    ensures Exact(d, x / d, 1) == x
  {
    assert Pow(x / d, 1) == x / d * Pow(x / d, 0);
    assert x / d * 1.0 == x / d;
    Exchange(d, x / d);
  }

  /** From 2^(64-f) on already the first power is wrong. */
  lemma TooWide(x: nat, f: nat)
    requires 0 < f < 64 && x >= Pow2(64 - f)
    ensures !Near(x, f, 1)
  {
    FirstPowerIs(x, f);
    FirstIsBase(x as real, Pow2(f) as real);
    Pow2Mono(1, 64 - f);
    LowPart(x, Pow2(64 - f));
  }

  /** From 32 fraction bits on, that includes one itself. */
  lemma WideScaleWraps(f: nat)
    requires 32 <= f < 64
    ensures !Near(Pow2(f), f, 1)
  {
    Pow2Mono(64 - f, f);
    TooWide(Pow2(f), f);
  }

  lemma LowPart(x: nat, top: nat)
    requires 0 < top <= x
    ensures x % top <= x - top
  {
    var q := x / top;
    assert x == q * top + x % top;
    MulOrder(1, q, top);
  }

  /** For a base of at most one the bound holds at every power exactly when the base is below 2^(64-f). */
  lemma NearIffFits(x: nat, f: nat)
    requires 0 < f < 64 && x <= Pow2(f)
    ensures (forall n: nat :: Near(x, f, n)) <==> x < Pow2(64 - f)
  {
    if x < Pow2(64 - f) {
      forall n: nat ensures Near(x, f, n) {
        FixedPowerNear(x, f, n);
      }
    } else {
      TooWide(x, f);
    }
  }

  /** Every base of at most one is below that exactly when the scale has at most 31 bits. */
  lemma NearIffNarrow(f: nat)
    requires 0 < f < 64
    ensures f <= 31 <==> forall x: nat, n: nat :: x <= Pow2(f) ==> Near(x, f, n)
  {
    if f <= 31 {
      Pow2Mono(f + 1, 64 - f);
      forall x: nat, n: nat | x <= Pow2(f) ensures Near(x, f, n) {
        FixedPowerNear(x, f, n);
      }
    } else {
      WideScaleWraps(f);
    }
  }

  // --- one update of the load average ---

  /** calc_load, in 64 bits. */
  function CalcLoad(load: nat, exp: nat, active: nat): nat
    requires exp <= FIXED_1
  {
    var a := Product(load, exp) % ULONG;
    var b := (a + Product(active, FIXED_1 - exp)) % ULONG;
    Shr((b + FIXED_1 / 2) % ULONG, FIXED_1)
  }

  /** The weighted sum and the half unit added to it fit in 64 bits. */
  predicate SumFits(load: nat, exp: nat, active: nat)
    requires exp <= FIXED_1
  {
    Product(load, exp) + Product(active, FIXED_1 - exp) + FIXED_1 / 2 < ULONG
  }

  /** Loads and task counts below 2^53, whose weighted sums fit for every factor. */
  predicate Small(load: nat, active: nat) {
    load < 0x20_0000_0000_0000 && active < 0x20_0000_0000_0000
  }

  function Min(a: nat, b: nat): nat { if a < b then a else b }

  function Max(a: nat, b: nat): nat { if a < b then b else a }

  /** The weighted sum lies between the two values, in units of the scale. */
  lemma MixBetween(load: nat, exp: nat, active: nat)
    requires exp <= FIXED_1
    ensures Min(load, active) * FIXED_1 <= Product(load, exp) + Product(active, FIXED_1 - exp) <= Max(load, active) * FIXED_1
  {
    var lo, hi, e := Min(load, active), Max(load, active), FIXED_1 - exp;
    MulOrder(lo, load, exp);
    MulOrder(load, hi, exp);
    MulOrder(lo, active, e);
    MulOrder(active, hi, e);
    Shares(lo, exp);
    Shares(hi, exp);
  }

  lemma Shares(v: nat, exp: nat)
    requires exp <= FIXED_1
    ensures v * exp + v * (FIXED_1 - exp) == v * FIXED_1
  {
  }

  lemma SmallFits(load: nat, exp: nat, active: nat)
    requires exp <= FIXED_1 && Small(load, active)
    ensures SumFits(load, exp, active)
  {
    MixBetween(load, exp, active);
  }

  lemma CalcLoadIs(load: nat, exp: nat, active: nat)
    requires exp <= FIXED_1
    ensures CalcLoad(load, exp, active)
         == Shr((Product(load, exp) + Product(active, FIXED_1 - exp) + FIXED_1 / 2) % ULONG, FIXED_1)
  {
    WrapsOnce(Product(load, exp), Product(active, FIXED_1 - exp));
  }

  /** Wrapping after each addition is wrapping once at the end. */
  lemma WrapsOnce(p: nat, r: nat)
    ensures ((p % ULONG + r) % ULONG + 1024) % ULONG == (p + r + 1024) % ULONG
  {
  }

  lemma FitsIs(load: nat, exp: nat, active: nat)
    requires exp <= FIXED_1 && SumFits(load, exp, active)
    ensures CalcLoad(load, exp, active) == Shr(Product(load, exp) + Product(active, FIXED_1 - exp) + FIXED_1 / 2, FIXED_1)
  {
    CalcLoadIs(load, exp, active);
    Below(Product(load, exp) + Product(active, FIXED_1 - exp) + FIXED_1 / 2);
  }

  lemma Below(x: nat)
    requires x < ULONG
    ensures x % ULONG == x
  {
  }

  lemma ShiftBetween(v: nat, lo: nat, hi: nat)
    requires lo * FIXED_1 <= v <= hi * FIXED_1
    ensures lo <= Shr(v + FIXED_1 / 2, FIXED_1) <= hi
  {
  }

  lemma ShiftNear(v: nat, m: real)
    requires m * 2048.0 == v as real
    ensures Abs(Shr(v + FIXED_1 / 2, FIXED_1) as real - m) <= 0.5
  {
  }

  /** The new average lies between the old one and the number of active tasks. */
  lemma CalcLoadBetween(load: nat, exp: nat, active: nat)
    requires exp <= FIXED_1 && SumFits(load, exp, active)
    ensures Min(load, active) <= CalcLoad(load, exp, active) <= Max(load, active)
    ensures Small(load, active) ==> Small(CalcLoad(load, exp, active), active)
  {
    MixBetween(load, exp, active);
    FitsIs(load, exp, active);
    ShiftBetween(Product(load, exp) + Product(active, FIXED_1 - exp), Min(load, active), Max(load, active));
  }

  /** a + (l - a) * y: the exact average after decay by y. */
  function Mixed(l: real, a: real, y: real): real { a + Decayed(l - a, y) }

  function Decayed(g: real, y: real): real { g * y }

  function Fraction(exp: nat): real { exp as real / 2048.0 }

  /** One update is within half a unit of the exact value. */
  lemma CalcLoadNear(load: nat, exp: nat, active: nat)
    requires exp <= FIXED_1 && SumFits(load, exp, active)
    ensures UpdateNear(load, exp, active)
  {
    FitsIs(load, exp, active);
    MixedScaled(load, exp, active);
    ShiftNear(Product(load, exp) + Product(active, FIXED_1 - exp), Mixed(load as real, active as real, Fraction(exp)));
  }

  lemma MixedScaled(load: nat, exp: nat, active: nat)
    requires exp <= FIXED_1
    ensures Mixed(load as real, active as real, Fraction(exp)) * 2048.0
         == (Product(load, exp) + Product(active, FIXED_1 - exp)) as real
  {
    var l, a, e := load as real, active as real, exp as real;
    assert Fraction(exp) * 2048.0 == e;
    Assoc(l - a, Fraction(exp), 2048.0);
    Distribute(l, a, e);
    MulReal(load, exp);
    MulReal(active, FIXED_1 - exp);
    Exchange(a, (FIXED_1 - exp) as real);
    Distribute(2048.0, e, a);
    Exchange(e, a);
  }

  ghost predicate UpdateNear(load: nat, exp: nat, active: nat)
    requires exp <= FIXED_1
  {
    Abs(CalcLoad(load, exp, active) as real - Mixed(load as real, active as real, Fraction(exp))) <= 0.5
  }

  /** An update that fits is the exact average rounded to the nearest whole number, halves up. */
  lemma CalcLoadRounds(load: nat, exp: nat, active: nat)
    requires exp <= FIXED_1 && SumFits(load, exp, active)
    ensures CalcLoad(load, exp, active) == (Mixed(load as real, active as real, Fraction(exp)) + 0.5).Floor
  {
    FitsIs(load, exp, active);
    MixedScaled(load, exp, active);
    ShiftRounds(Product(load, exp) + Product(active, FIXED_1 - exp), Mixed(load as real, active as real, Fraction(exp)));
  }

  lemma ShiftRounds(v: nat, m: real)
    requires m * 2048.0 == v as real
    ensures Shr(v + FIXED_1 / 2, FIXED_1) == (m + 0.5).Floor
  {
    var q := Shr(v + FIXED_1 / 2, FIXED_1);
    assert q as real <= m + 0.5 < q as real + 1.0;
  }

  /** In every case it is what is left of the sum, and of a half, in 64 bits. */
  lemma CalcLoadWraps(load: nat, exp: nat, active: nat)
    requires exp <= FIXED_1
    ensures var v, q := load * exp + active * (FIXED_1 - exp) + 1024, CalcLoad(load, exp, active);
      q * 2048 <= v % ULONG < (q + 1) * 2048
  {
    CalcLoadIs(load, exp, active);
  }

  /** An update is right exactly when its weighted sum fits. */
  lemma NearIffSumFits(load: nat, exp: nat, active: nat)
    requires exp <= FIXED_1
    ensures UpdateNear(load, exp, active) <==> SumFits(load, exp, active)
  {
    if SumFits(load, exp, active) {
      CalcLoadNear(load, exp, active);
    } else {
      CalcLoadIs(load, exp, active);
      MixedScaled(load, exp, active);
      HighBitsLost(Product(load, exp) + Product(active, FIXED_1 - exp));
    }
  }

  /** Wrapping takes at least 2^53 off the result. */
  lemma HighBitsLost(v: nat)
    requires v + 1024 >= ULONG
    ensures Shr((v + 1024) % ULONG, FIXED_1) * FIXED_1 + 2048 < v
  {
    LowPart(v + 1024, ULONG);
  }

  /** With load and active below 2^53 every factor's sum fits, and with no others. */
  lemma NearIffSmall(load: nat, active: nat)
    ensures (forall exp: nat :: exp <= FIXED_1 ==> UpdateNear(load, exp, active)) <==> Small(load, active)
  {
    if Small(load, active) {
      forall exp: nat | exp <= FIXED_1 ensures UpdateNear(load, exp, active) {
        SmallFits(load, exp, active);
        CalcLoadNear(load, exp, active);
      }
    } else {
      NearIffSumFits(load, FIXED_1, active);
      NearIffSumFits(load, 0, active);
      assert Product(active, FIXED_1 - FIXED_1) == 0 && Product(load, 0) == 0;
    }
  }

  // --- n updates at once ---

  function Iterate(step: nat -> nat, v: nat, n: nat): nat {
    if n == 0 then v else step(Iterate(step, v, n - 1))
  }

  function Update(exp: nat, active: nat): nat -> nat
    requires exp <= FIXED_1
  {
    (load: nat) => CalcLoad(load, exp, active)
  }

  /** n successive calc_load calls. */
  function Decay(load: nat, exp: nat, active: nat, n: nat): nat
    requires exp <= FIXED_1
  {
    Iterate(Update(exp, active), load, n)
  }

  /** A step that stays between the value and active, and is within half a unit of decaying by y. */
  ghost predicate StepOk(step: nat -> nat, active: nat, y: real, v: nat) {
    && Min(v, active) <= step(v) <= Max(v, active)
    && Abs(step(v) as real - Mixed(v as real, active as real, y)) <= 0.5
  }

  ghost predicate StepsOk(step: nat -> nat, active: nat, y: real) {
    forall v {:trigger StepOk(step, active, y, v)} :: v >= 0 && Small(v, active) ==> StepOk(step, active, y, v)
  }

  lemma UpdateOk(exp: nat, active: nat)
    requires exp <= FIXED_1
    ensures StepsOk(Update(exp, active), active, Fraction(exp))
  {
    forall v {:trigger StepOk(Update(exp, active), active, Fraction(exp), v)} | v >= 0 && Small(v, active)
      ensures StepOk(Update(exp, active), active, Fraction(exp), v)
    {
      SmallFits(v, exp, active);
      CalcLoadBetween(v, exp, active);
      CalcLoadNear(v, exp, active);
    }
  }

  lemma {:induction false} IterateBetween(step: nat -> nat, load: nat, active: nat, y: real, n: nat)
    requires StepsOk(step, active, y) && Small(load, active)
    ensures Min(load, active) <= Iterate(step, load, n) <= Max(load, active)
    ensures Small(Iterate(step, load, n), active)
  {
    if n > 0 {
      IterateBetween(step, load, active, y, n - 1);
      assert StepOk(step, active, y, Iterate(step, load, n - 1));
    }
  }

  /** Each update adds half a unit of error to what the decay has left of the error before. */
  lemma {:induction false} IterateNear(step: nat -> nat, load: nat, active: nat, y: real, n: nat)
    requires StepsOk(step, active, y) && Small(load, active) && 0.0 <= y <= 1.0
    ensures Abs(Iterate(step, load, n) as real - Mixed(load as real, active as real, Pow(y, n))) <= n as real / 2.0
  {
    var l, a := load as real, active as real;
    if n == 0 {
      MixedOne(l, a);
    } else {
      var m := Iterate(step, load, n - 1);
      IterateNear(step, load, active, y, n - 1);
      IterateBetween(step, load, active, y, n - 1);
      assert StepOk(step, active, y, m);
      MixedTwice(m as real, l, a, y, Pow(y, n - 1), Pow(y, n), (n - 1) as real / 2.0);
      Triangle(step(m) as real, Mixed(m as real, a, y), Mixed(l, a, Pow(y, n)), 0.5, (n - 1) as real / 2.0);
    }
  }

  lemma Triangle(x: real, y: real, z: real, c: real, d: real)
    requires Abs(x - y) <= c && Abs(y - z) <= d
    ensures Abs(x - z) <= c + d
  {
  }

  lemma MixedOne(l: real, a: real)
    ensures Mixed(l, a, 1.0) == l
  {
  }

  /** Decaying an average that is off by at most c gives one that is off by at most c. */
  lemma MixedTwice(m: real, l: real, a: real, y: real, z: real, w: real, c: real)
    requires 0.0 <= y <= 1.0 && Abs(m - Mixed(l, a, z)) <= c && w == y * z
    ensures Abs(Mixed(m, a, y) - Mixed(l, a, w)) <= c
  {
    OffScaled(m - a, Decayed(l - a, z), y, c);
    ThreeFactors(l - a, z, y, w);
  }

  lemma OffScaled(u: real, v: real, y: real, c: real)
    requires 0.0 <= y <= 1.0 && Abs(u - v) <= c
    ensures Abs(Decayed(u, y) - Decayed(v, y)) <= c
  {
    var d := u - v;
    AbsProduct(d, y, c, 1.0);
    Distribute(u, v, y);
    assert d * y == Decayed(u, y) - Decayed(v, y);
  }

  lemma ThreeFactors(g: real, z: real, y: real, w: real)
    requires w == y * z
    ensures Decayed(Decayed(g, z), y) == Decayed(g, w)
  {
    Assoc(g, z, y);
    Exchange(z, y);
  }

  /** calc_load_n: one update with the power of the decay factor. */
  function CalcLoadN(load: nat, exp: nat, active: nat, n: nat): nat
    requires exp <= FIXED_1 && FixedPower(exp, FSHIFT, n) <= FIXED_1
  {
    CalcLoad(load, FixedPower(exp, FSHIFT, n), active)
  }

  lemma ScaleIs2048()
    ensures Pow2(FSHIFT) == FIXED_1
  {
    Pow2Byte(0);
    Pow2Byte(3);
    assert Pow2(3) == 8;
  }

  /** The power of a decay factor is a decay factor, within n/2 of the exact one. */
  lemma PowerIsFactor(exp: nat, n: nat)
    requires exp <= FIXED_1
    ensures FixedPower(exp, FSHIFT, n) <= FIXED_1
    ensures Abs(FixedPower(exp, FSHIFT, n) as real - 2048.0 * Pow(Fraction(exp), n)) <= n as real / 2.0
  {
    ScaleIs2048();
    Pow2Mono(FSHIFT + 1, 64 - FSHIFT);
    FixedPowerNear(exp, FSHIFT, n);
  }

  /** calc_load_n against the exact decay: half a unit, and the power's error in proportion to the gap. */
  lemma CalcLoadNNear(load: nat, exp: nat, active: nat, n: nat)
    requires exp <= FIXED_1 && Small(load, active)
    ensures FixedPower(exp, FSHIFT, n) <= FIXED_1
    ensures Abs(CalcLoadN(load, exp, active, n) as real - Mixed(load as real, active as real, Pow(Fraction(exp), n)))
         <= 0.5 + Gap(load, active, n)
  {
    PowerIsFactor(exp, n);
    var e := FixedPower(exp, FSHIFT, n);
    SmallFits(load, e, active);
    CalcLoadNear(load, e, active);
    FactorNear(CalcLoadN(load, exp, active, n) as real, load, active, e, Pow(Fraction(exp), n), n);
  }

  lemma FactorNear(q: real, load: nat, active: nat, e: nat, p: real, n: nat)
    requires Abs(q - Mixed(load as real, active as real, Fraction(e))) <= 0.5
    requires Abs(e as real - 2048.0 * p) <= n as real / 2.0
    ensures Abs(q - Mixed(load as real, active as real, p)) <= 0.5 + Gap(load, active, n)
  {
    var l, a := load as real, active as real;
    FractionError(e, p, n);
    FactorError(l, a, Fraction(e), p, n as real / 4096.0);
    Triangle(q, Mixed(l, a, Fraction(e)), Mixed(l, a, p), 0.5, Gap(load, active, n));
  }

  lemma FractionError(e: nat, p: real, n: nat)
    requires Abs(e as real - 2048.0 * p) <= n as real / 2.0
    ensures Abs(Fraction(e) - p) <= n as real / 4096.0
  {
  }

  /** n * |load - active| / (2 * FIXED_1). */
  function Gap(load: nat, active: nat, n: nat): real {
    Abs(load as real - active as real) * (n as real / 4096.0)
  }

  lemma FactorError(l: real, a: real, y: real, z: real, c: real)
    requires Abs(y - z) <= c
    ensures Abs(Mixed(l, a, y) - Mixed(l, a, z)) <= Abs(l - a) * c
  {
    var g := l - a;
    AbsTimes(g, y - z, c);
    Distribute(y, z, g);
    Exchange(g, y);
    Exchange(g, z);
    Exchange(g, y - z);
  }

  lemma AbsTimes(g: real, u: real, c: real)
    requires Abs(u) <= c
    ensures Abs(u * g) <= Abs(g) * c
  {
    Negate(u, g);
    Negate(g, u);
    Exchange(g, u);
    Exchange(-g, u);
    MulLe(u, c, Abs(g));
    MulLe(-u, c, Abs(g));
    Negate(u, Abs(g));
    Exchange(c, Abs(g));
  }

  /**
   calc_load_n agrees with n calc_load calls to within (n+1)/2 + n*|load-active|/(2*FIXED_1),
   and both lie between load and active.
   */
  lemma PowerAgreesWithSteps(load: nat, exp: nat, active: nat, n: nat)
    requires exp <= FIXED_1 && Small(load, active)
    ensures FixedPower(exp, FSHIFT, n) <= FIXED_1
    ensures Abs(CalcLoadN(load, exp, active, n) as real - Decay(load, exp, active, n) as real)
         <= (n + 1) as real / 2.0 + Gap(load, active, n)
    ensures Min(load, active) <= CalcLoadN(load, exp, active, n) <= Max(load, active)
    ensures Min(load, active) <= Decay(load, exp, active, n) <= Max(load, active)
  {
    CalcLoadNNear(load, exp, active, n);
    UpdateOk(exp, active);
    IterateNear(Update(exp, active), load, active, Fraction(exp), n);
    IterateBetween(Update(exp, active), load, active, Fraction(exp), n);
    SmallFits(load, FixedPower(exp, FSHIFT, n), active);
    CalcLoadBetween(load, FixedPower(exp, FSHIFT, n), active);
  }
}
