/** Bytes, 32-bit words and the bitwise operators of the decoder, on naturals. */
module LzmaBits {

  type Byte = x: int | 0 <= x < 256

  const U32 := 0x1_0000_0000

  function Pow2(n: nat): (r: nat)
    ensures r >= 1
  {
    if n == 0 then 1 else 2 * Pow2(n - 1)
  }

  /** Position of the highest set bit of `m`. */
  function Level(m: nat): nat
    requires m >= 1
  {
    if m == 1 then 0 else 1 + Level(m / 2)
  }

  /** Bitwise `&`, bit by bit. */
  function And(a: nat, b: nat): nat {
    if a == 0 || b == 0 then 0
    else (if a % 2 == 1 && b % 2 == 1 then 1 else 0) + 2 * And(a / 2, b / 2)
  }

  /** Bitwise `^`, bit by bit. */
  function Xor(a: nat, b: nat): nat
    decreases a + b
  {
    if a == 0 then b else if b == 0 then a
    else (if a % 2 == b % 2 then 0 else 1) + 2 * Xor(a / 2, b / 2)
  }

  lemma {:induction false} Pow2Mono(a: nat, b: nat)
    requires a <= b
    ensures Pow2(a) <= Pow2(b)
  {
    if a < b { Pow2Mono(a, b - 1); }
  }

  /** `m` has level below `k` exactly when it is below `2^k`. */
  lemma {:induction false} LevelBound(m: nat, k: nat)
    requires m >= 1
    ensures Level(m) < k <==> m < Pow2(k)
  {
    if k == 0 {
    } else if m == 1 {
      Pow2Mono(1, k);
    } else {
      LevelBound(m / 2, k - 1);
    }
  }

  /** Masking with the single bit `2^k` picks out bit `k`. */
  lemma {:induction false} AndBit(k: nat, x: nat)
    ensures And(Pow2(k), x) == (x / Pow2(k)) % 2 * Pow2(k)
    decreases k
  {
    if k > 0 {
      hide And, Pow2;
      AndBit(k - 1, x / 2);
      DivDiv(x, Pow2(k - 1));
      LowStep(x, k);
      AndStepLeft(Pow2(k - 1), x);
      var b := x / 2 / Pow2(k - 1) % 2;
      assert 2 * (b * Pow2(k - 1)) == b * (2 * Pow2(k - 1));
    } else {
      AndOne(x);
    }
  }

  lemma AndStepLeft(m: nat, x: nat)
    ensures And(2 * m, x) == 2 * And(m, x / 2)
  {
    assert 2 * m / 2 == m && 2 * m % 2 == 0;
    if m == 0 || x == 0 { assert And(m, x / 2) == 0; }
  }

  lemma AndOne(x: nat)
    ensures Pow2(0) == 1 && And(Pow2(0), x) == x / Pow2(0) % 2 * Pow2(0)
  {
    assert And(0, x / 2) == 0;
  }

  lemma DivDiv(x: nat, d: nat)
    requires d >= 1
    ensures x / 2 / d == x / (2 * d)
  {
    var q, r := x / 2 / d, x / 2 % d;
    assert x / 2 == q * d + r;
    var y := 2 * r + x % 2;
    assert x == q * (2 * d) + y;
    assert 0 <= y < 2 * d;
    DivUnique(x, 2 * d, q, y);
  }

  lemma {:induction false} MulAtLeast(k: int, d: int)
    requires k >= 1 && d > 0
    ensures k * d >= d
  {
  }

  lemma DivUnique(x: int, d: int, q: int, r: int)
    requires d > 0 && x == q * d + r && 0 <= r < d
    ensures x / d == q && x % d == r
  {
    var q', r' := x / d, x % d;
    assert x == q' * d + r';
    var k := q' - q;
    assert k * d == q' * d - q * d;
    if k >= 1 {
      MulAtLeast(k, d);
    } else if k <= -1 {
      MulAtLeast(-k, d);
    }
  }

  /** The number made of the lowest `k` bits of `x`. */
  function Low(x: nat, k: nat): nat {
    if k == 0 then 0 else x % 2 + 2 * Low(x / 2, k - 1)
  }

  lemma {:induction false} LowIsMod(x: nat, k: nat)
    ensures Low(x, k) == x % Pow2(k)
  {
    if k == 0 {
      ModOne(x);
    } else {
      LowIsMod(x / 2, k - 1);
      ModHalf(x, Pow2(k - 1));
    }
  }

  /** Masking with `2^hi - 2^lo`, the run of ones from bit `lo` up to bit `hi - 1`. */
  lemma {:induction false} AndRun(x: nat, hi: nat, lo: nat)
    requires lo <= hi
    ensures Pow2(lo) <= Pow2(hi)
    ensures And(x, Pow2(hi) - Pow2(lo)) == Low(x, hi) - Low(x, lo)
  {
    hide And, Low, Pow2;
    Pow2Mono(lo, hi);
    LowStep(x, hi);
    LowStep(x, lo);
    LowZero(x);
    LowZero(x / 2);
    if lo == hi {
      AndZero(x);
    } else if lo > 0 {
      AndRun(x / 2, hi - 1, lo - 1);
      AndStep(x, Pow2(hi - 1) - Pow2(lo - 1), 0);
    } else {
      AndRun(x / 2, hi - 1, 0);
      AndStep(x, Pow2(hi - 1) - 1, 1);
    }
  }

  lemma AndZero(x: nat)
    ensures And(x, 0) == 0
  {
  }

  lemma LowStep(x: nat, k: nat)
    ensures k > 0 ==> Low(x, k) == x % 2 + 2 * Low(x / 2, k - 1) && Pow2(k) == 2 * Pow2(k - 1)
  {
  }

  lemma ModOne(x: nat)
    ensures x % 1 == 0
  {
  }

  lemma AndStep(x: nat, m: nat, b: nat)
    requires b <= 1
    ensures And(x, 2 * m + b) == 2 * And(x / 2, m) + x % 2 * b
  {
    assert (2 * m + b) / 2 == m && (2 * m + b) % 2 == b;
    if x == 0 {
      assert x / 2 == 0;
    } else if m == 0 {
      assert And(x / 2, 0) == 0;
    }
  }

  lemma ModHalf(x: nat, d: nat)
    requires d >= 1
    ensures x % (2 * d) == 2 * (x / 2 % d) + x % 2
  {
    var q, r := x / 2 / d, x / 2 % d;
    assert x / 2 == q * d + r;
    var y := 2 * r + x % 2;
    assert x == q * (2 * d) + y;
    DivUnique(x, 2 * d, q, y);
  }

  lemma {:induction false} Pow2Sum(a: nat, b: nat)
    ensures Pow2(a + b) == Pow2(a) * Pow2(b)
  {
    if b > 0 {
      Pow2Sum(a, b - 1);
      assert Pow2(a + b) == 2 * Pow2(a + b - 1);
    }
  }

  lemma Pow2Word()
    ensures Pow2(8) == 0x100 && Pow2(16) == 0x1_0000 && Pow2(32) == U32
  {
    Pow2Sum(8, 8);
    Pow2Sum(16, 16);
  }

  /** `x & 0xFFFFFFFF` keeps a 32-bit word. */
  lemma AndOnes(x: nat)
    requires x < U32
    ensures And(x, U32 - 1) == x
  {
    hide And, Pow2, Low;
    Pow2Word();
    LowZero(x);
    AndRun(x, 32, 0);
    LowIsMod(x, 32);
  }

  lemma LowZero(x: nat)
    ensures Low(x, 0) == 0 && Pow2(0) == 1
  {
  }
}
