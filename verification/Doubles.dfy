/** The numbers behind the eight bytes of a double (IEEE 754-2008, section 3.4, binary64,
    most significant byte first). */
module Doubles {
  import opened Bytes

  function Pow2(n: nat): (p: nat)
    ensures p > 0
  {
    if n == 0 then 1 else 2 * Pow2(n - 1)
  }

  /** The biased exponent and the significand with its hidden bit. */
  function Exponent(bits: seq<byte>): nat
    requires |bits| == 8
  {
    bits[0] as int % 128 * 16 + bits[1] as int / 16
  }

  function Significand(bits: seq<byte>): nat
    requires |bits| == 8
  {
    (if Exponent(bits) > 0 then 0x10_0000_0000_0000 else 0)
    + bits[1] as int % 16 * 0x1_0000_0000_0000 + Be16(bits, 2) * 0x1_0000_0000 + Be32(bits, 4)
  }

  /** The number; None for infinities and for what is not a number. */
  function ValueOf(bits: seq<byte>): Option<real>
    requires |bits| == 8
  {
    var e, m := Exponent(bits), Significand(bits);
    if e == 2047 then None
    else
      var size := if e >= 1075 then (m * Pow2(e - 1075)) as real
                  else m as real / Pow2(if e > 0 then 1075 - e else 1074) as real;
      Some(if bits[0] < 128 then size else -size)
  }

  /** The number without its fraction. */
  function Truncated(x: real): int {
    if x >= 0.0 then x.Floor else -(-x).Floor
  }

  // ---------- whole numbers ----------

  lemma {:induction false} Pow2Sum(a: nat, b: nat)
    ensures Pow2(a + b) == Pow2(a) * Pow2(b)
  {
    if a > 0 {
      Pow2Sum(a - 1, b);
      Associative(2, Pow2(a - 1), Pow2(b));
    }
  }

  lemma Associative(a: int, b: int, c: int)
    ensures a * (b * c) == (a * b) * c
  {
  }

  lemma Pow2Of10()
    ensures Pow2(10) == 0x400
  {
    assert Pow2(5) == 32;
    Pow2Sum(5, 5);
  }

  /** Ten more places. */
  lemma Pow2Next10(n: nat)
    ensures Pow2(n + 10) == 0x400 * Pow2(n)
  {
    Pow2Of10();
    Pow2Sum(10, n);
  }

  lemma Cancel(n: real, p: real)
    requires p > 0.0
    ensures n * p / p == n
  {
  }

  lemma AsReal(n: nat, p: nat)
    ensures (n * p) as real == n as real * p as real
  {
  }

  /** A significand that is n shifted to the left is n. */
  lemma WholeNumber(bits: seq<byte>, n: nat, shift: nat)
    requires |bits| == 8 && Exponent(bits) + shift == 1075 && Exponent(bits) > 0 && Significand(bits) == n * Pow2(shift)
    ensures ValueOf(bits) == Some(if bits[0] < 128 then n as real else -(n as real))
  {
    hide Exponent, Significand;
    var p := Pow2(shift);
    AsReal(n, p);
    Cancel(n as real, p as real);
    if shift == 0 {
      assert p == 1 && Pow2(Exponent(bits) - 1075) == 1;
    }
  }

  lemma Powers()
    ensures Pow2(21) == 0x20_0000 && Pow2(22) == 0x40_0000 && Pow2(32) == 0x1_0000_0000
    ensures Pow2(41) == 0x200_0000_0000 && Pow2(42) == 0x400_0000_0000 && Pow2(45) == 0x2000_0000_0000
    ensures Pow2(47) == 0x8000_0000_0000 && Pow2(49) == 0x2_0000_0000_0000 && Pow2(50) == 0x4_0000_0000_0000
    ensures Pow2(51) == 0x8_0000_0000_0000 && Pow2(52) == 0x10_0000_0000_0000 && Pow2(53) == 0x20_0000_0000_0000
  {
    Pow2Of10();
    Pow2Next10(10);
    assert Pow2(22) == 2 * Pow2(21) == 4 * Pow2(20);
    Pow2Next10(22);
    Pow2Next10(21);
    Pow2Next10(31);
    assert Pow2(31) == 2 * Pow2(30) && Pow2(30) == 0x400 * Pow2(20) by {
      Pow2Next10(20);
    }
    assert Pow2(42) == 2 * Pow2(41) && Pow2(45) == 8 * Pow2(42);
    assert Pow2(47) == 4 * Pow2(45) && Pow2(49) == 4 * Pow2(47);
    assert Pow2(51) == 4 * Pow2(49) && Pow2(51) == 2 * Pow2(50) && Pow2(53) == 2 * Pow2(52) == 4 * Pow2(51);
  }

  // ---------- whole parts ----------

  lemma {:induction false} Pow2Monotone(a: nat, b: nat)
    requires a <= b
    ensures Pow2(a) <= Pow2(b)
  {
    if a < b {
      Pow2Monotone(a, b - 1);
    }
  }

  /** Dividing as integers is dividing and forgetting the fraction. */
  lemma FloorOfQuotient(m: nat, p: nat)
    requires p > 0
    ensures (m as real / p as real).Floor == m / p
  {
    var n, r := m / p, m % p;
    var x := m as real / p as real;
    AsReal(n, p);
    assert m as real == n as real * p as real + r as real;
    Split(n as real, p as real, r as real);
    Below(r as real, p as real);
    assert n as real <= x < (n + 1) as real;
  }

  lemma Split(n: real, p: real, r: real)
    requires p > 0.0
    ensures (n * p + r) / p == n + r / p
  {
  }

  lemma Below(r: real, p: real)
    requires 0.0 <= r < p
    ensures 0.0 <= r / p < 1.0
  {
  }

  lemma SmallSize(m: nat, places: nat)
    requires m < 0x20_0000_0000_0000 && places >= 53
    ensures var size := m as real / Pow2(places) as real; 0.0 <= size < 1.0
  {
    hide Pow2;
    Powers();
    Pow2Monotone(53, places);
    Below(m as real, Pow2(places) as real);
  }

  lemma MiddleSize(m: nat, p: nat)
    requires m < 0x20_0000_0000_0000 && p >= 0x40_0000
    ensures 0.0 <= m as real / p as real < 2147483648.0
  {
    AsReal(0x8000_0000, p);
    QuotientBelow(m as real, p as real, 2147483648.0);
  }

  lemma LargeSize(m: nat, p: nat)
    requires m >= 0x10_0000_0000_0000 && 0 < p <= 0x20_0000
    ensures m as real / p as real >= 2147483648.0
  {
    AsReal(0x8000_0000, p);
    QuotientFrom(m as real, p as real, 2147483648.0);
  }

  lemma QuotientBelow(m: real, p: real, b: real)
    requires 0.0 <= m < b * p && p > 0.0
    ensures 0.0 <= m / p < b
  {
    Cancel(b, p);
    assert m / p < b * p / p;
  }

  lemma QuotientFrom(m: real, p: real, b: real)
    requires m >= b * p && p > 0.0
    ensures m / p >= b
  {
    Cancel(b, p);
    assert m / p >= b * p / p;
  }

  lemma Product(m: nat, p: nat)
    requires p > 0
    ensures m * p >= m
  {
  }
}
