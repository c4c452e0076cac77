/** Python's shift and bitwise-or on non-negative integers, which the command encoder uses to pack bytes. */
module Bitwise {

  function Pow2(k: nat): (r: nat)
    ensures r >= 1
  {
    if k == 0 then 1 else 2 * Pow2(k - 1)
  }

  lemma {:induction false} Pow2Monotone(j: nat, k: nat)
    requires j <= k
    ensures Pow2(j) <= Pow2(k)
    decreases k
  {
    if j < k {
      Pow2Monotone(j, k - 1);
    }
  }

  /** Python's `x << k` for a non-negative `x`. */
  function Shl(x: nat, k: nat): nat {
    x * Pow2(k)
  }

  /** Bit `i` (weight 2^i) of `x`. */
  predicate BitSet(x: nat, i: nat) {
    (x / Pow2(i)) % 2 == 1
  }

  /** Python's `a | b` for non-negative integers, computed bit by bit from the least significant end. */
  function Or(a: nat, b: nat): nat
    decreases a + b
  {
    if a == 0 then b
    else if b == 0 then a
    else 2 * Or(a / 2, b / 2) + (if a % 2 == 1 || b % 2 == 1 then 1 else 0)
  }

  lemma Pow2Add(j: nat, k: nat)
    ensures Pow2(j + k) == Pow2(j) * Pow2(k)
  {
    if j > 0 {
      Pow2Add(j - 1, k);
    }
  }

  /** Or is bitwise: every bit of `Or(a, b)` is set exactly when the same bit is set in `a` or in `b`. */
  lemma {:induction false} OrBits(a: nat, b: nat, i: nat)
    ensures BitSet(Or(a, b), i) <==> BitSet(a, i) || BitSet(b, i)
    decreases a + b
  {
    if a == 0 {
      assert !BitSet(a, i);
    } else if b == 0 {
      assert !BitSet(b, i);
    } else {
      var r, low := Or(a / 2, b / 2), if a % 2 == 1 || b % 2 == 1 then 1 else 0;
      assert Or(a, b) == 2 * r + low;
      assert a == 2 * (a / 2) + a % 2 && b == 2 * (b / 2) + b % 2;
      if i == 0 {
        LowBit(r, low);
        LowBit(a / 2, a % 2);
        LowBit(b / 2, b % 2);
      } else {
        OrBits(a / 2, b / 2, i - 1);
        ShiftedBit(r, low, i);
        ShiftedBit(a / 2, a % 2, i);
        ShiftedBit(b / 2, b % 2, i);
      }
    }
  }

  /** Bit 0 of `2 * x + low` is `low`. */
  lemma LowBit(x: nat, low: nat)
    requires low < 2
    ensures BitSet(2 * x + low, 0) <==> low == 1
  {
    assert Pow2(0) == 1;
  }

  /** Bit `i > 0` of `2 * x + low` is bit `i - 1` of `x`. */
  lemma ShiftedBit(x: nat, low: nat, i: nat)
    requires low < 2 && i > 0
    ensures BitSet(2 * x + low, i) <==> BitSet(x, i - 1)
  {
    var p := Pow2(i - 1);
    assert Pow2(i) == 2 * p;
    DivDiv(2 * x + low, 2, p);
    DivModUnique(2 * x + low, 2, x, low);
  }

  /** The one multiple of `d` strictly between `-d` and `d` is zero (the step `DivModUnique` needs on its own). */
  lemma MulSmall(m: int, d: int)
    requires d > 0 && -d < m * d < d
    ensures m == 0
  {
  }

  /** Multiplying by a positive factor keeps strict order (the step `DivDiv` needs on its own). */
  lemma MulLess(x: int, y: int, a: int)
    requires a > 0 && x * a < y * a
    ensures x < y
  {
  }

  /** Euclidean division is determined by quotient and remainder. */
  lemma DivModUnique(x: int, d: int, q: int, r: int)
    requires d > 0 && 0 <= r < d && x == q * d + r
    ensures x / d == q && x % d == r
  {
    var q0, r0 := x / d, x % d;
    assert (q0 - q) * d == r - r0;
    MulSmall(q0 - q, d);
  }

  lemma DivDiv(x: nat, a: nat, b: nat)
    requires a > 0 && b > 0
    ensures x / (a * b) == (x / a) / b
  {
    var q := x / (a * b);
    var r := x % (a * b);
    var r1 := r % a;
    var r2 := r / a;
    MulLess(r2, b, a);
    assert x == (q * b + r2) * a + r1;
    DivModUnique(x, a, q * b + r2, r1);
    DivModUnique(x / a, b, q, r2);
  }

  /** The `n`-bit field of `(a * 2^n + b) * 2^k + c` that starts at weight 2^k is `b`. */
  lemma ExtractField(a: nat, b: nat, c: nat, k: nat, n: nat)
    requires b < Pow2(n) && c < Pow2(k)
    ensures (((a * Pow2(n) + b) * Pow2(k) + c) / Pow2(k)) % Pow2(n) == b
  {
    DivModUnique((a * Pow2(n) + b) * Pow2(k) + c, Pow2(k), a * Pow2(n) + b, c);
    DivModUnique(a * Pow2(n) + b, Pow2(n), a, b);
  }

  /** When the bits of `hi` and `lo` cannot overlap, `hi | lo` is their sum. */
  lemma {:induction false} OrDisjoint(hi: nat, lo: nat, k: nat)
    requires hi % Pow2(k) == 0 && lo < Pow2(k)
    ensures Or(hi, lo) == hi + lo
    decreases k
  {
    if hi == 0 || lo == 0 {
    } else {
      var p := Pow2(k - 1);
      assert Pow2(k) == 2 * p;
      var q := hi / (2 * p);
      assert hi == q * (2 * p);
      DivModUnique(hi, 2, q * p, 0);
      DivModUnique(q * p, p, q, 0);
      OrDisjoint(hi / 2, lo / 2, k - 1);
    }
  }
  /** One step of packing: adding a field below the `k` low bits of a multiple of `2^k`. */
  lemma OrStep(hi: nat, lo: nat, k: nat, q: nat)
    requires lo < Pow2(k) && hi == q * Pow2(k)
    ensures Or(hi, lo) == hi + lo
  {
    DivModUnique(hi, Pow2(k), q, 0);
    OrDisjoint(hi, lo, k);
  }

  /** The powers of two the byte layouts use. */
  lemma Pow2Table()
    ensures Pow2(1) == 2
    ensures Pow2(2) == 4
    ensures Pow2(3) == 8
    ensures Pow2(4) == 16
    ensures Pow2(5) == 32
    ensures Pow2(6) == 64
    ensures Pow2(7) == 128
    ensures Pow2(8) == 256
    ensures Pow2(13) == 8192
    ensures Pow2(14) == 16384
    ensures Pow2(15) == 32768
    ensures Pow2(16) == 65536
    ensures Pow2(24) == 16777216
    ensures Pow2(31) == 2147483648
  {
    assert Pow2(1) == 2;
    assert Pow2(2) == 4;
    assert Pow2(3) == 8;
    assert Pow2(4) == 16;
    assert Pow2(5) == 32;
    assert Pow2(6) == 64;
    assert Pow2(7) == 128;
    assert Pow2(8) == 256;
    assert Pow2(9) == 512;
    assert Pow2(10) == 1024;
    assert Pow2(11) == 2048;
    assert Pow2(12) == 4096;
    assert Pow2(13) == 8192;
    assert Pow2(14) == 16384;
    assert Pow2(15) == 32768;
    assert Pow2(16) == 65536;
    assert Pow2(17) == 131072;
    assert Pow2(18) == 262144;
    assert Pow2(19) == 524288;
    assert Pow2(20) == 1048576;
    assert Pow2(21) == 2097152;
    assert Pow2(22) == 4194304;
    assert Pow2(23) == 8388608;
    assert Pow2(24) == 16777216;
    assert Pow2(25) == 33554432;
    assert Pow2(26) == 67108864;
    assert Pow2(27) == 134217728;
    assert Pow2(28) == 268435456;
    assert Pow2(29) == 536870912;
    assert Pow2(30) == 1073741824;
    assert Pow2(31) == 2147483648;
  }
}
