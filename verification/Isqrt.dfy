/** Newton's integer square root on 128-bit words, seeded with a power of two. */
module Isqrt {
  import opened Money

  function Pow2(n: nat): (p: nat)
    ensures p >= 1
  {
    if n == 0 then 1 else 2 * Pow2(n - 1)
  }

  ghost predicate IsFloorSqrt(x: nat, r: nat) {
    r * r <= x < (r + 1) * (r + 1)
  }

  lemma SquareMonotone(a: nat, b: nat)
    ensures a <= b ==> a * a <= b * b
  {
    if a <= b {
      assert a * a <= a * b <= b * b;
    }
  }

  /** The number of significant bits: 128 less the leading zeros of the word. */
  function BitLength(x: nat): (bits: nat)
    ensures x < Pow2(bits)
    ensures x > 0 ==> bits > 0 && Pow2(bits - 1) <= x
  {
    if x == 0 then 0 else 1 + BitLength(x / 2)
  }

  lemma {:induction false} Pow2Add(m: nat, n: nat)
    ensures Pow2(m + n) == Pow2(m) * Pow2(n)
  {
    if m > 0 {
      Pow2Add(m - 1, n);
      assert Pow2(m) * Pow2(n) == 2 * (Pow2(m - 1) * Pow2(n));
    }
  }

  lemma {:induction false} Pow2Monotone(m: nat, n: nat)
    requires m <= n
    ensures Pow2(m) <= Pow2(n)
  {
    if m < n { Pow2Monotone(m, n - 1); }
  }

  ghost predicate AboveRoot(x: nat, r: nat) {
    r > 0 && x < (r + 1) * (r + 1)
  }

  function Midpoint(r: nat, x: nat): nat
    requires r > 0
  {
    (r + x / r) / 2
  }

  /** The power-of-two seed is above the root. */
  lemma SeedIsAboveRoot(x: U128)
    requires x >= 2
    ensures AboveRoot(x, Pow2((BitLength(x) + 1) / 2))
  {
    var bits := BitLength(x);
    var half := (bits + 1) / 2;
    var seed := Pow2(half);
    Pow2Add(half, half);
    Pow2Monotone(bits, half + half);
    SquareMonotone(seed, seed + 1);
  }

  lemma MeanSquareBound(x: nat, r: nat, q: nat, next: nat)
    requires x < r * (q + 1)
    requires r + q + 1 <= 2 * (next + 1)
    requires x > 0
    ensures AboveRoot(x, next)
  {
    var t := r + q + 1;
    var d := r - (q + 1);
    assert t * t == d * d + 4 * (r * (q + 1));
    assert d * d >= 0;
    SquareMonotone(t, 2 * (next + 1));
    assert (2 * (next + 1)) * (2 * (next + 1)) == 4 * ((next + 1) * (next + 1));
  }

  lemma QuotientBound(x: nat, r: nat)
    requires r > 0
    ensures 0 <= x / r && r * (x / r) <= x < r * (x / r + 1)
  {
    assert x == r * (x / r) + x % r;
  }

  /** One Newton step never falls below the floor root. */
  lemma NewtonStepStaysAbove(x: nat, r: nat)
    requires r > 0 && x > 0
    ensures AboveRoot(x, Midpoint(r, x))
  {
    QuotientBound(x, r);
    var q := x / r;
    MeanSquareBound(x, r, q, (r + q) / 2);
  }

  /** The iterate stops only at the floor, which fits in 64 bits. */
  lemma StopsAtFloor(x: U128, r: nat)
    requires AboveRoot(x, r)
    requires Midpoint(r, x) >= r
    ensures IsFloorSqrt(x, r) && r < 0x1_0000_0000_0000_0000
  {
    QuotientBound(x, r);
    assert r * (x / r) >= r * r;
    SquareMonotone(0x1_0000_0000_0000_0000, r);
  }

  /** The iterate strictly decreases until it stops, and it stops at the floor. */
  method IsqrtU128(x: U128) returns (r: nat)
    ensures IsFloorSqrt(x, r)
    ensures r < 0x1_0000_0000_0000_0000
  {
    if x < 2 {
      return x;
    }
    SeedIsAboveRoot(x);
    r := Pow2((BitLength(x) + 1) / 2);
    while true
      invariant AboveRoot(x, r)
      decreases r
    {
      var next := Midpoint(r, x);
      if next >= r {
        StopsAtFloor(x, r);
        return r;
      }
      NewtonStepStaysAbove(x, r);
      r := next;
    }
  }
}
