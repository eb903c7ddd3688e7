/**
 * The seeded generator of the renderer (src/animations/platonic-solids.ts)
 * and the loop that draws one rotation axis per solid from it. The source
 * computes `(seed * 1103515245 + 12345) & 0x7fffffff` on 64-bit floats: the
 * product and then the sum are each rounded to the nearest double before
 * `&` keeps the low 31 bits of the (integral) result. That rounding is
 * modelled exactly, on nonnegative integers; the exact linear congruential
 * step is kept beside it as the reference the source departs from.
 */
module Random {

  const Multiplier: int := 1103515245
  const Increment: int := 12345
  /** `& 0x7fffffff` keeps the value modulo 2^31. */
  const Modulus: int := 0x8000_0000
  const MaxSeed: int := 0x7fff_ffff
  /** `let seed = 12345`. */
  const InitialSeed: nat := 12345
  /** 2^53: the doubles have a 53-bit significand, so every integer below it is one. */
  const TwoTo53: nat := 0x20_0000_0000_0000

  predicate PowerOfTwo(n: nat)
    decreases n
  {
    n == 1 || (n > 1 && n % 2 == 0 && PowerOfTwo(n / 2))
  }

  /**
   * The distance between consecutive doubles around the integer x ≥ 0:
   * 1 below 2^53, doubling with each binade above it.
   */
  function Spacing(x: nat): (u: nat)
    ensures u >= 1
    decreases x
  {
    if x < TwoTo53 then 1 else 2 * Spacing(x / 2)
  }

  /** The spacing is a power of two u with x in [2^52·u, 2^53·u), or 1 below 2^53. */
  lemma {:induction false} SpacingBinade(x: nat)
    ensures PowerOfTwo(Spacing(x))
    ensures x < TwoTo53 * Spacing(x)
    ensures x >= TwoTo53 ==> TwoTo53 * Spacing(x) <= 2 * x
    ensures x < TwoTo53 ==> Spacing(x) == 1
    decreases x
  {
    if x >= TwoTo53 {
      SpacingBinade(x / 2);
      var u := Spacing(x);
      assert u == 2 * Spacing(x / 2) && u / 2 == Spacing(x / 2);
    }
  }

  /** The multiple of u nearest to x ≥ 0, a tie going to the even multiple. */
  function NearestMultiple(x: nat, u: nat): nat
    requires u >= 1
  {
    var r := x % u;
    if 2 * r < u || (2 * r == u && (x / u) % 2 == 0) then x - r else x - r + u
  }

  /** No multiple of u is nearer to x than the result, and of two equally near the even one is taken. */
  lemma NearestMultipleIsNearest(x: nat, u: nat)
    requires u >= 1
    ensures var d := NearestMultiple(x, u);
            && d % u == 0
            && 2 * (if d >= x then d - x else x - d) <= u
            && (2 * (if d >= x then d - x else x - d) == u ==> (d / u) % 2 == 0)
            && (u == 1 ==> d == x)
  {
    var q, r := x / u, x % u;
    var d := NearestMultiple(x, u);
    assert x == q * u + r;
    if 2 * r < u || (2 * r == u && q % 2 == 0) {
      assert d == q * u;
      MultipleOf(q, u);
    } else {
      assert d == q * u + u == (q + 1) * u;
      MultipleOf(q + 1, u);
    }
  }

  /**
   * The double nearest to the integer x ≥ 0, a tie going to the one whose
   * last significand bit is 0 (round half to even, the rounding of every
   * arithmetic operation on numbers).
   */
  function ToDouble(x: nat): nat {
    NearestMultiple(x, Spacing(x))
  }

  /** `ToDouble` rounds to the nearest double, ties to even, and leaves integers below 2^53 alone. */
  lemma ToDoubleIsNearest(x: nat)
    ensures var d, u := ToDouble(x), Spacing(x);
            && d % u == 0
            && 2 * (if d >= x then d - x else x - d) <= u
            && (2 * (if d >= x then d - x else x - d) == u ==> (d / u) % 2 == 0)
            && (x < TwoTo53 ==> d == x)
  {
    SpacingBinade(x);
    NearestMultipleIsNearest(x, Spacing(x));
  }

  /** q·u is a multiple of u, and u divides it q times. */
  lemma MultipleOf(q: nat, u: nat)
    requires u >= 1
    ensures (q * u) % u == 0 && (q * u) / u == q
  {
    var x := q * u;
    var k := q - x / u;
    assert x == (x / u) * u + x % u;
    assert k * u == q * u - (x / u) * u == x % u;
    SignOfProduct(k, u);
  }

  /** A nonzero multiple of u ≥ 1 is at least u away from 0. */
  lemma SignOfProduct(k: int, u: int)
    requires u >= 1
    ensures k >= 1 ==> k * u >= u
    ensures k <= -1 ==> k * u <= -u
  {
    if k >= 1 {
      assert k * u == u + (k - 1) * u;
    } else if k <= -1 {
      assert k * u == -u + (k + 1) * u;
    }
  }

  /** One call of `rand` on the seed, as computed on doubles. */
  function Next(seed: nat): (r: nat)
    ensures r <= MaxSeed
  {
    ToDouble(ToDouble(seed * Multiplier) + Increment) % Modulus
  }

  /** The textbook step the expression denotes on exact integers: seed · a + c modulo 2^31. */
  function ExactNext(seed: int): (r: int)
    ensures 0 <= r <= MaxSeed
    ensures (seed * Multiplier + Increment - r) % Modulus == 0
  {
    var x := seed * Multiplier + Increment;
    Remainder(x);
    x % Modulus
  }

  /** The remainder modulo 2^31 is a seed, and differs from the number by a multiple of 2^31. */
  lemma Remainder(x: int)
    ensures 0 <= x % Modulus <= MaxSeed
    ensures (x - x % Modulus) % Modulus == 0
  {
    assert x == (x / Modulus) * Modulus + x % Modulus;
    assert x - x % Modulus == (x / Modulus) * Modulus;
  }

  /** While seed · a + c stays below 2^53 nothing is rounded, and the source computes the textbook step. */
  lemma NextExactWhileSmall(seed: nat)
    requires seed * Multiplier + Increment < TwoTo53
    ensures Next(seed) == ExactNext(seed)
  {
    ToDoubleIsNearest(seed * Multiplier);
    ToDoubleIsNearest(seed * Multiplier + Increment);
  }

  /** The seed after k calls. */
  function SeedAfter(seed: nat, k: nat): (r: nat)
    ensures k > 0 ==> 0 <= r <= MaxSeed
  {
    if k == 0 then seed else Next(SeedAfter(seed, k - 1))
  }

  /** `seed / 0x7fffffff`, the number a call returns. */
  function Value(seed: int): real {
    seed as real / MaxSeed as real
  }

  /** Every number drawn lies in [0, 1]. */
  lemma ValueInUnit(seed: int)
    requires 0 <= seed <= MaxSeed
    ensures 0.0 <= Value(seed) <= 1.0
  {
  }

  /**
   * Example: the first two seeds the page draws from 12345. The first agrees
   * with the textbook step; the second already does not, since the product
   * 1406932606 · 1103515245 is above 2^53 and is rounded (the exact step gives
   * 654583775).
   */
  lemma InitialSequence()
    ensures SeedAfter(InitialSeed, 1) == 1406932606 == ExactNext(InitialSeed)
    ensures SeedAfter(InitialSeed, 2) == 654583808 != ExactNext(ExactNext(InitialSeed))
  {
    NextVia(12345, 13622895699525, 13622895699525, 13622895711870, 13622895711870);
    NextVia(1406932606, 1552571579408578470, 1552571579408578560, 1552571579408590905, 1552571579408590848);
    assert SeedAfter(12345, 1) == Next(12345) == 1406932606;
    assert SeedAfter(12345, 2) == Next(1406932606) == 654583808;
    assert ExactNext(12345) == 1406932606 && ExactNext(1406932606) == 654583775;
  }

  /** One call, given the two roundings it performs: the product, and the sum. */
  lemma NextVia(seed: nat, product: nat, rounded: nat, sum: nat, roundedSum: nat)
    requires product == seed * Multiplier && ToDouble(product) == rounded
    requires sum == rounded + Increment && ToDouble(sum) == roundedSum
    ensures Next(seed) == roundedSum % Modulus
  {
  }

  /** Calls compose: k calls and then m more are k + m calls. */
  lemma {:induction false} SeedAfterAdd(seed: nat, k: nat, m: nat)
    ensures SeedAfter(SeedAfter(seed, k), m) == SeedAfter(seed, k + m)
  {
    if m > 0 {
      SeedAfterAdd(seed, k, m - 1);
    }
  }

  /** The closure variable `seed` together with `rand`. */
  class Rng {
    var seed: nat
    /** How many times `rand` has been called. */
    ghost var calls: nat

    /** `seed` stays in [0, 0x7fffffff]. */
    ghost predicate Valid()
      reads this
    {
      0 <= seed <= MaxSeed
    }

    constructor ()
      ensures seed == InitialSeed && calls == 0
      ensures Valid()
    {
      seed := InitialSeed;
      calls := 0;
    }

    /** `rand()`: advance the seed, then return it scaled into [0, 1]. */
    method Rand() returns (r: real)
      modifies this
      ensures seed == Next(old(seed))
      ensures calls == old(calls) + 1
      ensures r == Value(seed) && 0.0 <= r <= 1.0
      ensures Valid()
    {
      seed := Next(seed);
      calls := calls + 1;
      r := seed as real / MaxSeed as real;
    }
  }

  /** The trigonometry `axes` needs, which is not computed here. */
  datatype Trig = Trig(sin: real -> real, cos: real -> real, acos: real -> real, pi: real)

  /**
   * The axis drawn from the two numbers `u` (for θ) and `v` (for φ):
   * θ = 2πu, φ = acos(2v − 1), axis (sin φ cos θ, sin φ sin θ, cos φ).
   */
  function AxisFrom(u: real, v: real, trig: Trig): (axis: seq<real>)
    ensures |axis| == 3
  {
    var th := u * trig.pi * 2.0;
    var ph := trig.acos(2.0 * v - 1.0);
    [trig.sin(ph) * trig.cos(th), trig.sin(ph) * trig.sin(th), trig.cos(ph)]
  }

  /** sin² x + cos² x = 1 everywhere: what the sine and cosine passed in must satisfy. */
  ghost predicate Pythagorean(trig: Trig) {
    forall x :: trig.sin(x) * trig.sin(x) + trig.cos(x) * trig.cos(x) == 1.0
  }

  /** With a true sine and cosine, every axis drawn has length 1, whatever u and v are. */
  lemma AxisIsUnit(u: real, v: real, trig: Trig)
    requires Pythagorean(trig)
    ensures var axis := AxisFrom(u, v, trig);
            axis[0] * axis[0] + axis[1] * axis[1] + axis[2] * axis[2] == 1.0
  {
    var th := u * trig.pi * 2.0;
    var ph := trig.acos(2.0 * v - 1.0);
    var sp, cp, ct, st := trig.sin(ph), trig.cos(ph), trig.cos(th), trig.sin(th);
    assert st * st + ct * ct == 1.0 && sp * sp + cp * cp == 1.0;
    calc {
      (sp * ct) * (sp * ct) + (sp * st) * (sp * st) + cp * cp;
      sp * sp * (ct * ct + st * st) + cp * cp;
      sp * sp + cp * cp;
    }
  }

  /** `axes[i]`, drawn from any seed, is a unit vector. */
  lemma AxisAtIsUnit(seed: nat, i: nat, trig: Trig)
    requires Pythagorean(trig)
    ensures var axis := AxisAt(seed, i, trig);
            axis[0] * axis[0] + axis[1] * axis[1] + axis[2] * axis[2] == 1.0
  {
    AxisIsUnit(Value(SeedAfter(seed, 2 * i + 1)), Value(SeedAfter(seed, 2 * i + 2)), trig);
  }

  /** The argument given to `acos` always lies in its domain [−1, 1]. */
  lemma AcosArgumentInDomain(seed: int)
    requires 0 <= seed <= MaxSeed
    ensures -1.0 <= 2.0 * Value(seed) - 1.0 <= 1.0
  {
    ValueInUnit(seed);
  }

  /** Axis i is drawn from calls 2i + 1 (θ) and 2i + 2 (φ) after `seed`. */
  function AxisAt(seed: nat, i: nat, trig: Trig): seq<real> {
    AxisFrom(Value(SeedAfter(seed, 2 * i + 1)), Value(SeedAfter(seed, 2 * i + 2)), trig)
  }

  /**
   * The `axes` loop: five axes, one per solid, each from two consecutive
   * calls, in index order; exactly ten calls in all.
   */
  method BuildAxes(rng: Rng, trig: Trig) returns (axes: seq<seq<real>>)
    modifies rng
    ensures rng.seed == SeedAfter(old(rng.seed), 10)
    ensures rng.calls == old(rng.calls) + 10
    ensures |axes| == 5
    ensures forall i :: 0 <= i < 5 ==> axes[i] == AxisAt(old(rng.seed), i, trig)
    ensures forall i :: 0 <= i < 5 ==> |axes[i]| == 3
  {
    axes := [];
    for i := 0 to 5
      invariant rng.seed == SeedAfter(old(rng.seed), 2 * i)
      invariant rng.calls == old(rng.calls) + 2 * i
      invariant |axes| == i
      invariant forall j :: 0 <= j < i ==> axes[j] == AxisAt(old(rng.seed), j, trig)
    {
      var u := rng.Rand();
      var v := rng.Rand();
      assert rng.seed == SeedAfter(old(rng.seed), 2 * i + 2);
      axes := axes + [AxisFrom(u, v, trig)];
    }
  }

}
