/**
 * The adaptive binary range coder: what the NORMALIZE, IF_BIT_0, UPDATE_0, UPDATE_1
 * and direct-bit macros of LzmaDec.c do to `range`, `code`, the input and one probability.
 */
module LzmaRange {
  import opened LzmaBits

  const TOP := 0x100_0000
  const PROB_INIT := 1024
  const PROB_MIN := 31
  const PROB_MAX := 2017

  /** Range coder registers and the input not yet read. */
  datatype Coder = Coder(range: nat, code: nat, inp: seq<Byte>)

  predicate CoderOk(c: Coder) {
    0x1_0000 <= c.range < U32 && c.code < U32
  }

  predicate Ready(c: Coder) {
    TOP <= c.range < U32 && c.code < U32
  }

  predicate ProbOk(p: nat) {
    PROB_MIN <= p <= PROB_MAX
  }

  /** The next normalisation needs a byte that is not there. */
  predicate Dry(c: Coder) {
    c.range < TOP && c.inp == []
  }

  /** One conditional shift is always enough to bring `range` back to 24 bits or more. */
  function Normal(c: Coder): (r: Coder)
    requires CoderOk(c) && !Dry(c)
    ensures Ready(r)
  {
    if c.range < TOP then
      Coder(c.range * 256, c.code * 256 % U32 + c.inp[0], c.inp[1..])
    else c
  }

  function Bound(c: Coder, p: nat): nat {
    c.range / 2048 * p
  }

  predicate BitOf(c: Coder, p: nat) {
    c.code >= Bound(c, p)
  }

  /** The coder after an adaptive bit; never below 16 bits of `range`. */
  function After(c: Coder, p: nat): (r: Coder)
    requires Ready(c) && ProbOk(p)
    ensures CoderOk(r) && r.inp == c.inp
  {
    BoundFits(c, p);
    if BitOf(c, p) then Coder(c.range - Bound(c, p), c.code - Bound(c, p), c.inp)
    else Coder(Bound(c, p), c.code, c.inp)
  }

  /** Probabilities never leave 31 .. 2017. */
  function NewProb(p: nat, bit: bool): (r: nat)
    requires ProbOk(p)
    ensures ProbOk(r)
    ensures bit ==> r <= p
    ensures !bit ==> r >= p
  {
    if bit then p - p / 32 else p + (2048 - p) / 32
  }

  /** A bit moves the probability by one thirty-second of the way to its end, rounded down; 31 and 2017 stay where they are. */
  lemma ProbMoves(p: nat)
    requires ProbOk(p)
    ensures p - 32 < 32 * (p - NewProb(p, true)) <= p
    ensures 2048 - p - 32 < 32 * (NewProb(p, false) - p) <= 2048 - p
    ensures NewProb(p, true) == p <==> p == PROB_MIN
    ensures NewProb(p, false) == p <==> p == PROB_MAX
  {
  }

  /** The probability after `n` times the same bit. */
  function Adapted(p: nat, bit: bool, n: nat): (r: nat)
    requires ProbOk(p)
    ensures ProbOk(r)
    decreases n
  {
    if n == 0 then p else Adapted(NewProb(p, bit), bit, n - 1)
  }

  /** A run of equal bits reaches the end of its side within as many bits as there are values in between, and stays there. */
  lemma {:induction false} ProbSettles(p: nat, bit: bool, n: nat)
    requires ProbOk(p) && n >= (if bit then p - PROB_MIN else PROB_MAX - p)
    ensures Adapted(p, bit, n) == if bit then PROB_MIN else PROB_MAX
    decreases n
  {
    ProbMoves(p);
    if n > 0 { ProbSettles(NewProb(p, bit), bit, n - 1); }
  }

  /** What the split point means: the lower part is `p` of 2048 parts of the range, less at most the rounding of the range. */
  lemma BoundShares(c: Coder, p: nat)
    requires p <= 2048
    ensures 0 <= c.range * p - 2048 * Bound(c, p) <= 2047 * p
  {
    var q, m := c.range / 2048, c.range % 2048;
    assert c.range * p == 2048 * (q * p) + m * p;
    MulMono(p, m, 2047);
  }

  /** The decision both branchless direct-bit forms take: bit 31 of `code - range` is clear. */
  predicate DirectOf(c: Coder) {
    (c.code - c.range / 2) % U32 < 0x8000_0000
  }

  function AfterDirect(c: Coder): (r: Coder)
    requires Ready(c)
    ensures CoderOk(r) && r.inp == c.inp
  {
    if DirectOf(c) then Coder(c.range / 2, (c.code - c.range / 2) % U32, c.inp)
    else Coder(c.range / 2, c.code, c.inp)
  }

  /** `bound` lies strictly inside `range`, far enough from both ends. */
  lemma BoundFits(c: Coder, p: nat)
    requires Ready(c) && ProbOk(p)
    ensures Bound(c, p) >= 31 * (c.range / 2048) >= 0x1_0000
    ensures c.range - Bound(c, p) >= 31 * (c.range / 2048)
    ensures 67 * Bound(c, p) >= c.range
    ensures 67 * (c.range - Bound(c, p)) >= c.range
  {
    var q := c.range / 2048;
    assert q * p >= q * 31 by { MulMono(q, 31, p); }
    assert q * p <= q * 2017 by { MulMono(q, p, 2017); }
  }

  lemma MulMono(q: nat, a: nat, b: nat)
    requires a <= b
    ensures q * a <= q * b
  {
  }

  /** An adaptive bit divides `range` by less than 67, a direct bit by at most 2.01. */
  lemma Shrink(c: Coder, p: nat)
    requires Ready(c) && ProbOk(p)
    ensures 67 * After(c, p).range >= c.range
    ensures 201 * AfterDirect(c).range >= 100 * c.range
  {
    BoundFits(c, p);
  }

  /** `code < range` survives normalisation and adaptive bits. */
  lemma CodeBelowRange(c: Coder, p: nat)
    requires CoderOk(c) && !Dry(c) && c.code < c.range && ProbOk(p)
    ensures Normal(c).code < Normal(c).range
    ensures After(Normal(c), p).code < After(Normal(c), p).range
  {
    BoundFits(Normal(c), p);
  }

  /** A direct bit keeps `code < range` except from an odd range with `code` at its top. */
  lemma DirectCodeBelowRange(c: Coder)
    requires Ready(c) && c.code < c.range
    ensures AfterDirect(c).code < AfterDirect(c).range <==> !(c.range % 2 == 1 && c.code == c.range - 1)
  {
    var h := c.range / 2;
    if c.code >= h {
      assert (c.code - h) % U32 == c.code - h;
    } else {
      assert (c.code - h) % U32 == c.code - h + U32;
    }
  }

  /** The exact inputs on which the branchless bit is the plain comparison `code >= range`. */
  lemma DirectIsComparison(c: Coder)
    requires Ready(c)
    ensures (DirectOf(c) <==> c.code >= c.range / 2) <==> c.code < c.range / 2 + 0x8000_0000
    ensures c.code < c.range ==> (DirectOf(c) <==> c.code >= c.range / 2)
  {
    var h := c.range / 2;
    if c.code >= h {
      assert (c.code - h) % U32 == c.code - h;
    } else {
      assert (c.code - h) % U32 == c.code - h + U32;
    }
  }

  // ---- Input demand

  /** `x * 256^n`: the range left once `n` more bytes have been shifted in. */
  function Fuel(x: real, n: nat): real {
    if n == 0 then x else 256.0 * Fuel(x, n - 1)
  }

  /** Fuel that is enough for `a` adaptive bits, `d` direct bits and a last normalisation. */
  function Cost(a: nat, d: nat): (r: real)
    ensures r >= TOP as real
  {
    if a > 0 then 67.0 * Cost(a - 1, d)
    else if d > 0 then 2.01 * Cost(0, d - 1)
    else TOP as real
  }

  lemma {:induction false} FuelShrink(x: real, y: real, n: nat)
    ensures 67.0 * y >= x ==> 67.0 * Fuel(y, n) >= Fuel(x, n)
    ensures 2.01 * y >= x ==> 2.01 * Fuel(y, n) >= Fuel(x, n)
  {
    if n > 0 { FuelShrink(x, y, n - 1); }
  }

  lemma {:induction false} FuelMono(x: real, y: real, n: nat, m: nat)
    requires 0.0 <= x <= y && n <= m
    ensures 0.0 <= Fuel(x, n) <= Fuel(y, m)
  {
    if m > 0 { FuelMono(x, y, if n > 0 then n - 1 else 0, m - 1); }
  }

  /** Shifting in a byte leaves the fuel as it is. */
  lemma {:induction false} FuelShift(x: real, n: nat)
    ensures Fuel(256.0 * x, n) == Fuel(x, n + 1)
  {
    if n > 0 { FuelShift(x, n - 1); }
  }

  /** Twenty bytes pay for 22 adaptive and 26 direct bits from any normalised coder. */
  lemma TwentyBytes()
    ensures Fuel(TOP as real, 20) >= Cost(22, 26)
  {
    assert Cost(0, 6) <= 1106359427.0;
    assert Cost(0, 12) <= 72957943737.0;
    assert Cost(0, 18) <= 4811150358927.0;
    assert Cost(0, 22) <= 78529559155865.0;
    assert Cost(0, 26) <= 1281791505387460.0;
    assert Cost(5, 26) <= 1730578893362935508958220.0;
    assert Cost(10, 26) <= 2336498013573574893866316236029540.0;
    assert Cost(15, 26) <= 3154564630581310255953773851865219947660780.0;
    assert Cost(20, 26) <= 4259056909402006981519786308803332231414044997203460.0;
    assert Cost(22, 26) <= 19118906466305609340042320740218158386817647992446331940.0;
    assert Fuel(16777216.0, 5) == 18446744073709551616.0;
    assert Fuel(16777216.0, 10) == 20282409603651670423947251286016.0;
    assert Fuel(16777216.0, 15) == 22300745198530623141535718272648361505980416.0;
    assert Fuel(16777216.0, 20) == 24519928653854221733733552434404946937899825954937634816.0;
  }
}
