/** The bit-smearing that both pipe readers use to pick a new buffer size:
    32-bit arithmetic, with "or" and "shift right" spelled out on naturals. */
module PowerOfTwo {
  import opened Bytes

  function Pow2(t: nat): (p: nat)
    ensures p >= 1
  {
    if t == 0 then 1 else 2 * Pow2(t - 1)
  }

  ghost predicate IsPow2(n: nat) {
    exists t: nat :: Pow2(t) == n
  }

  function Or(a: nat, b: nat): nat {
    if a == 0 then b
    else if b == 0 then a
    else 2 * Or(a / 2, b / 2) + if a % 2 == 1 || b % 2 == 1 then 1 else 0
  }

  function ShiftRight(x: nat, k: nat): (r: nat)
    ensures r <= x
  {
    if k == 0 then x else ShiftRight(x / 2, k - 1)
  }

  function Smear(x: nat, k: nat): nat {
    Or(x, ShiftRight(x, k))
  }

  /** Smear by k, 2k and so on up to 16. */
  function SmearFrom(x: nat, k: nat): nat
    requires k >= 1
    decreases 32 - k
  {
    if k > 16 then x else SmearFrom(Smear(x, k), 2 * k)
  }

  /** The buffer size computed for a record of n bytes, wrap-around included. */
  function RoundUp(n: uint32): (r: nat) {
    (SmearFrom((n + TWO_TO_THE_32 - 1) % TWO_TO_THE_32, 1) + 1) % TWO_TO_THE_32
  }

  /** The k highest of t bits are all ones. */
  ghost predicate TopOnes(x: nat, t: nat, k: nat) {
    Pow2(t) - Pow2(if k <= t then t - k else 0) <= x < Pow2(t)
  }

  lemma {:induction false} OrBound(a: nat, b: nat, t: nat)
    requires a < Pow2(t) && b < Pow2(t)
    ensures a <= Or(a, b) < Pow2(t)
  {
    if a == 0 || b == 0 {
    } else {
      OrBound(a / 2, b / 2, t - 1);
    }
  }

  /** Or-ing in j low ones fills the j low bits and leaves the others. */
  lemma {:induction false} OrLowOnes(x: nat, t: nat, j: nat)
    requires j <= t && Pow2(t) - Pow2(j) <= x < Pow2(t)
    ensures Or(x, Pow2(j) - 1) == Pow2(t) - 1
  {
    if x == 0 {
      Pow2Monotone(j, t);
    } else if j != 0 {
      OrLowOnes(x / 2, t - 1, j - 1);
    }
  }

  lemma {:induction false} ShiftRightHalf(x: nat, k: nat)
    ensures ShiftRight(x / 2, k) == ShiftRight(x, k) / 2
  {
    if k == 0 {
    } else {
      ShiftRightHalf(x / 2, k - 1);
    }
  }

  lemma {:induction false} ShiftOfOnes(x: nat, t: nat, k: nat)
    requires k <= t <= 2 * k && TopOnes(x, t, k)
    ensures ShiftRight(x, k) == Pow2(t - k) - 1
  {
    ShiftOfTopOnes(x, t, k, k);
    Pow2Monotone(t - k, k);
  }

  lemma {:induction false} Pow2Monotone(s: nat, t: nat)
    requires s <= t
    ensures Pow2(s) <= Pow2(t)
    ensures s < t ==> Pow2(s) < Pow2(t)
  {
    if s == t {
    } else {
      Pow2Monotone(s, t - 1);
    }
  }

  /** Shifting t bits right by i leaves the top t - i bits. */
  lemma {:induction false} ShiftOfTopOnes(x: nat, t: nat, k: nat, i: nat)
    requires i <= t && t - i <= k <= t && TopOnes(x, t, k)
    ensures ShiftRight(x, i) == Pow2(t - i) - 1
  {
    if i == 0 {
      assert k == t;
    } else if k == t {
      ShiftOfTopOnes(x / 2, t - 1, k - 1, i - 1);
    } else {
      ShiftOfTopOnes(x / 2, t - 1, k, i - 1);
    }
  }

  lemma {:induction false} SmearStep(x: nat, t: nat, k: nat)
    requires k >= 1 && TopOnes(x, t, k)
    ensures TopOnes(Smear(x, k), t, 2 * k)
  {
    if t <= k {
      OrBound(x, ShiftRight(x, k), t);
    } else if t <= 2 * k {
      ShiftOfOnes(x, t, k);
      OrLowOnes(x, t, t - k);
    } else {
      SmearStep(x / 2, t - 1, k);
      ShiftRightHalf(x, k);
      OrBound(x, ShiftRight(x, k), t);
    }
  }

  lemma {:induction false} BitLength(x: nat) returns (t: nat)
    requires x >= 1
    ensures t >= 1 && Pow2(t - 1) <= x < Pow2(t)
  {
    if x == 1 {
      t := 1;
    } else {
      var s := BitLength(x / 2);
      t := s + 1;
    }
  }

  lemma {:induction false} SmearAll(x: nat, t: nat, k: nat)
    requires t <= 32 && k in {1, 2, 4, 8, 16, 32} && TopOnes(x, t, k)
    ensures SmearFrom(x, k) == Pow2(t) - 1
    decreases 32 - k
  {
    if k == 32 {
    } else {
      SmearStep(x, t, k);
      SmearAll(Smear(x, k), t, 2 * k);
    }
  }

  lemma Pow2Of(t: nat)
    ensures t == 31 ==> Pow2(t) == 0x8000_0000
    ensures t == 32 ==> Pow2(t) == TWO_TO_THE_32
  {
    assert Pow2(8) == 256;
    assert Pow2(16) == 0x1_0000;
    assert Pow2(24) == 0x100_0000;
  }

  /** For n above 1 the result is the power of two of the bit length of n - 1, wrapped. */
  lemma RoundUpByBitLength(n: uint32, t: nat)
    requires n > 1 && 1 <= t <= 32 && Pow2(t - 1) <= n - 1 < Pow2(t)
    ensures RoundUp(n) == Pow2(t) % TWO_TO_THE_32
  {
    assert (n + TWO_TO_THE_32 - 1) % TWO_TO_THE_32 == n - 1;
    SmearAll(n - 1, t, 1);
  }

  lemma LeastAbove(n: nat, t: nat)
    requires t >= 1 && Pow2(t - 1) < n
    ensures forall s: nat :: n <= Pow2(s) ==> Pow2(t) <= Pow2(s)
  {
    forall s: nat | n <= Pow2(s)
      ensures Pow2(t) <= Pow2(s)
    {
      if s < t {
        Pow2Monotone(s, t - 1);
      } else {
        Pow2Monotone(t, s);
      }
    }
  }

  lemma Unwrapped(p: nat)
    requires p < TWO_TO_THE_32
    ensures p % TWO_TO_THE_32 == p
  {
  }

  lemma RoundUpAboveOne(n: uint32, t: nat, top: nat)
    requires 1 < n <= 0x8000_0000 && t >= 1 && Pow2(t - 1) <= n - 1 < Pow2(t) && top == 31
    ensures RoundUp(n) == Pow2(t) && n <= Pow2(t) <= 0x8000_0000
  {
    Pow2Of(top);
    if t > top {
      Pow2Monotone(top, t - 1);
    }
    Pow2Monotone(t, top);
    RoundUpByBitLength(n, t);
    Unwrapped(Pow2(t));
  }

  /** For 1 <= n <= 2^31 the smearing computes the least power of two that is at least n. */
  lemma RoundUpIsLeastPowerOfTwo(n: uint32)
    requires 1 <= n <= 0x8000_0000
    ensures IsPow2(RoundUp(n)) && n <= RoundUp(n) <= 0x8000_0000
    ensures forall s: nat :: n <= Pow2(s) ==> RoundUp(n) <= Pow2(s)
  {
    if n == 1 {
      SmearAll(0, 0, 1);
      assert RoundUp(1) == 1 == Pow2(0);
    } else {
      var t := BitLength(n - 1);
      RoundUpAboveOne(n, t, 31);
      LeastAbove(n, t);
    }
  }

  /** Above 2^31 the 32-bit increment wraps and the computed size is zero; so the new buffer
      holds the record exactly up to 2^31. */
  lemma RoundUpFitsIff(n: uint32)
    requires n >= 1
    ensures n <= RoundUp(n) <==> n <= 0x8000_0000
    ensures n > 0x8000_0000 ==> RoundUp(n) == 0
  {
    if n <= 0x8000_0000 {
      RoundUpIsLeastPowerOfTwo(n);
    } else {
      Pow2Of(31);
      Pow2Of(32);
      var t := BitLength(n - 1);
      if t < 32 {
        Pow2Monotone(t, 31);
      } else if t > 32 {
        Pow2Monotone(32, t - 1);
      }
      RoundUpByBitLength(n, t);
    }
  }
}
