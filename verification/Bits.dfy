// Bitwise operators on machine words, and the power-of-two capacity rounding
// of the ready queue.
//
// A `usize` that is used as an index or a capacity is a natural number here;
// `And` and `Or` are the bitwise operators on the binary digits of naturals.

module Bits {
  import opened Common

  const MAX_WORD: nat := 0xFFFF_FFFF_FFFF_FFFF
  const TOP_BIT: nat := 0x8000_0000_0000_0000

  function Pow2(n: nat): (p: nat)
    ensures p > 0
  {
    if n == 0 then 1 else 2 * Pow2(n - 1)
  }

  function And(x: nat, y: nat): nat {
    if x == 0 || y == 0 then 0
    else 2 * And(x / 2, y / 2) + (if x % 2 == 1 && y % 2 == 1 then 1 else 0)
  }

  function Or(x: nat, y: nat): nat {
    if x == 0 then y else if y == 0 then x
    else 2 * Or(x / 2, y / 2) + (if x % 2 == 1 || y % 2 == 1 then 1 else 0)
  }

  ghost predicate IsPow2(c: nat) {
    exists k: nat :: c == Pow2(k)
  }

  lemma {:induction false} Pow2Monotone(m: nat, n: nat)
    requires m <= n
    ensures Pow2(m) <= Pow2(n)
    ensures m < n ==> 2 * Pow2(m) <= Pow2(n)
    decreases n
  {
    if m < n {
      Pow2Monotone(m, n - 1);
    }
  }

  lemma {:induction false} Pow2Product(m: nat, n: nat)
    ensures Pow2(m) * Pow2(n) == Pow2(m + n)
  {
    if m > 0 {
      Pow2Product(m - 1, n);
    }
  }

  /** Masking splits off the low digits. */
  lemma {:induction false} MaskSplits(x: nat, k: nat) returns (q: nat)
    ensures x == q * Pow2(k) + And(x, Pow2(k) - 1)
    ensures And(x, Pow2(k) - 1) < Pow2(k)
  {
    if k == 0 {
      q := x;
    } else {
      var p := Pow2(k - 1);
      q := MaskSplits(x / 2, k - 1);
      AndOdd(x, p - 1);
      DoubleMul(q, p);
      assert Pow2(k) - 1 == 2 * (p - 1) + 1;
    }
  }

  /** Masking with `capacity - 1` is reduction modulo the capacity. */
  lemma MaskIsMod(x: nat, k: nat)
    ensures And(x, Pow2(k) - 1) == x % Pow2(k)
  {
    var q := MaskSplits(x, k);
    DivModUnique(x, Pow2(k), q, And(x, Pow2(k) - 1));
  }

  lemma DoubleMul(q: nat, p: nat)
    ensures q * (2 * p) == 2 * (q * p) == (2 * q) * p
    ensures (2 * q + 1) * p == 2 * (q * p) + p
  {
  }

  lemma AndOdd(x: nat, y: nat)
    ensures And(x, 2 * y + 1) == 2 * And(x / 2, y) + x % 2
  {
    assert (2 * y + 1) / 2 == y;
  }

  lemma DivModUnique(x: nat, d: nat, q: nat, r: nat)
    requires r < d && x == q * d + r
    ensures x / d == q && x % d == r
  {
    var q' := x / d;
    if q < q' {
      MulMonotone(q + 1, q', d);
    } else if q' < q {
      MulMonotone(q' + 1, q, d);
    }
  }

  lemma MulMonotone(a: nat, b: nat, d: nat)
    requires a <= b
    ensures a * d <= b * d
  {
  }

  // ---- smearing the top bit ----

  /** The `n`-bit number `x` has its top `j` bits set. */
  ghost predicate TopOnes(x: nat, n: nat, j: nat) {
    j <= n && Pow2(n) - Pow2(n - j) <= x < Pow2(n)
  }

  function Shr(x: nat, j: nat): nat {
    Quotient(x, Pow2(j))
  }

  function Quotient(x: nat, p: nat): nat
    requires p > 0
  {
    x / p
  }

  lemma ShrHalf(x: nat, j: nat)
    ensures Shr(x, j) / 2 == Shr(x / 2, j)
  {
    HalfOfQuotient(x, Pow2(j));
  }

  lemma HalfOfQuotient(x: nat, p: nat)
    requires p > 0
    ensures Quotient(x, p) / 2 == Quotient(x / 2, p)
  {
    var q, r := (x / 2) / p, (x / 2) % p;
    DoubleMul(q, p);
    if 2 * r + x % 2 < p {
      DivModUnique(x, p, 2 * q, 2 * r + x % 2);
    } else {
      DivModUnique(x, p, 2 * q + 1, 2 * r + x % 2 - p);
    }
  }

  lemma OrHalf(x: nat, y: nat)
    ensures Or(x, y) == 2 * Or(x / 2, y / 2) + (if x % 2 == 1 || y % 2 == 1 then 1 else 0)
  {
  }

  /** The top `j` bits shifted down by `j` set the next `j` bits. */
  lemma {:induction false} SmearStep(x: nat, n: nat, j: nat)
    requires j > 0 && TopOnes(x, n, j)
    ensures TopOnes(Or(x, Shr(x, j)), n, if 2 * j <= n then 2 * j else n)
    decreases n
  {
    var y := Shr(x, j);
    if n == j {
      DivModUnique(x, Pow2(j), 0, x);
    } else {
      Pow2Monotone(n - 1 - j, n - 1);
      assert TopOnes(x / 2, n - 1, j);
      SmearStep(x / 2, n - 1, j);
      ShrHalf(x, j);
      OrHalf(x, y);
      if n <= 2 * j {
        ShiftedOnes(x, n, j);
      }
    }
  }

  lemma ShiftedOnes(x: nat, n: nat, j: nat)
    requires TopOnes(x, n, j) && j < n <= 2 * j
    ensures Shr(x, j) % 2 == 1
  {
    TopQuotient(x, n, j);
    OddBelow(Shr(x, j), Pow2(n - j - 1));
  }

  lemma OddBelow(a: nat, h: nat)
    requires h > 0 && a == 2 * h - 1
    ensures a % 2 == 1
  {
  }

  lemma TopQuotient(x: nat, n: nat, j: nat)
    requires TopOnes(x, n, j) && j < n <= 2 * j
    ensures Shr(x, j) == Pow2(n - j) - 1
  {
    TopFactors(n, j);
    HighQuotient(x, Pow2(j), Pow2(n - j), Pow2(n));
  }

  lemma TopFactors(n: nat, j: nat)
    requires j < n <= 2 * j
    ensures Pow2(n - j) * Pow2(j) == Pow2(n) && Pow2(n - j) <= Pow2(j)
    ensures Pow2(n - j) == 2 * Pow2(n - j - 1)
  {
    Pow2Monotone(n - j, j);
    Pow2Product(n - j, j);
  }

  lemma HighQuotient(x: nat, p: nat, q: nat, m: nat)
    requires 0 < q <= p && q * p == m && m - q <= x < m
    ensures Quotient(x, p) == q - 1
  {
    assert (q - 1) * p == q * p - p;
    DivModUnique(x, p, q - 1, x - (q - 1) * p);
  }

  lemma SmearBy(x: nat, n: nat, shift: nat)
    requires shift > 0 && TopOnes(x, n, Min(shift, n))
    ensures TopOnes(Or(x, Shr(x, shift)), n, Min(2 * shift, n))
  {
    if shift <= n {
      SmearStep(x, n, shift);
    } else {
      Pow2Monotone(n, shift);
      DivModUnique(x, Pow2(shift), 0, x);
    }
  }

  /** The number of binary digits of `x`. */
  function BitLength(x: nat): (n: nat)
    ensures x < Pow2(n)
    ensures x > 0 ==> n > 0 && Pow2(n - 1) <= x
  {
    if x == 0 then 0 else 1 + BitLength(x / 2)
  }

  lemma TopBitIsPow2()
    ensures Pow2(63) == TOP_BIT
  {
    assert Pow2(7) == 0x80 && Pow2(8) == 0x100;
    Pow2Product(7, 8);
    Pow2Product(8, 8);
    Pow2Product(15, 16);
    Pow2Product(16, 16);
    Pow2Product(31, 32);
  }

  /** A number whose predecessor has `n` digits rounds up to `Pow2(n)`. */
  lemma RoundedUp(val: nat, n: nat)
    requires 1 < val && n == BitLength(val - 1)
    ensures n > 0 && val <= Pow2(n)
    ensures forall k: nat :: val <= Pow2(k) ==> n <= k && Pow2(n) <= Pow2(k)
    ensures val <= TOP_BIT ==> n <= 63 && Pow2(n) <= TOP_BIT
    ensures TopOnes(val - 1, n, 1)
  {
    TopBitIsPow2();
    forall k: nat | val <= Pow2(k) ensures n <= k && Pow2(n) <= Pow2(k) {
      if k < n {
        Pow2Monotone(k, n - 1);
      } else {
        Pow2Monotone(n, k);
      }
    }
  }

  datatype Rounded = Capacity(value: nat) | TooLarge

  /** The least power of two that is at least `val`. */
  method CeilPowerOfTwo(val: nat) returns (r: Rounded)
    ensures r.TooLarge? <==> val > TOP_BIT
    ensures r.Capacity? ==> IsPow2(r.value) && val <= r.value <= TOP_BIT
    ensures r.Capacity? ==> forall k: nat :: val <= Pow2(k) ==> r.value <= Pow2(k)
  {
    if val <= 1 {
      assert Pow2(0) == 1;
      return Capacity(1);
    }
    if val > TOP_BIT {
      return TooLarge;
    }
    ghost var n := BitLength(val - 1);
    RoundedUp(val, n);
    var x := SmearTopBit(val - 1, n);
    return Capacity(x + 1);
  }

  /** Every number of at most 64 digits becomes all ones below its top digit after
      shifts by 1, 2, 4, 8, 16 and 32. */
  method SmearTopBit(y: nat, ghost n: nat) returns (x: nat)
    requires 0 < n <= 64 && TopOnes(y, n, 1)
    ensures x == Pow2(n) - 1
  {
    x := y;
    SmearBy(x, n, 1);
    x := Or(x, Shr(x, 1));
    SmearBy(x, n, 2);
    x := Or(x, Shr(x, 2));
    SmearBy(x, n, 4);
    x := Or(x, Shr(x, 4));
    SmearBy(x, n, 8);
    x := Or(x, Shr(x, 8));
    SmearBy(x, n, 16);
    x := Or(x, Shr(x, 16));
    SmearBy(x, n, 32);
    x := Or(x, Shr(x, 32));
  }
}
