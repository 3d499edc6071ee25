/**
 * The thermal cooling device: arbitration between trips that ask for target states, the
 * exponential controller with its 32-bit arithmetic, and both range directions.
 * `commanded` records the state last handed to the hardware.
 */
module Cdev {

  const INT_MIN := -0x8000_0000
  const INT_MAX := 0x7FFF_FFFF
  const U32 := 0x1_0000_0000
  const MAX_EXPONENT := 20

  predicate InInt(x: int) {
    INT_MIN <= x <= INT_MAX
  }

  /** Conversion of a 32-bit unsigned value to a signed one. */
  function ToInt(x: int): int {
    var m := x % 0x1_0000_0000;
    if m >= 0x8000_0000 then m - 0x1_0000_0000 else m
  }

  datatype Range = Range(min: int, max: int)

  predicate Forward(r: Range) {
    r.min <= r.max
  }

  predicate Within(r: Range, s: int) {
    if Forward(r) then r.min <= s <= r.max else r.max <= s <= r.min
  }

  function ClampMin(r: Range, s: int, tempMin: int): int {
    if Forward(r) then
      var m := if tempMin != 0 && tempMin > r.min then tempMin else r.min;
      if s < m then m else s
    else
      var m := if tempMin != 0 && tempMin < r.min then tempMin else r.min;
      if s > m then m else s
  }

  function ClampMax(r: Range, s: int, tempMax: int): int {
    if Forward(r) then
      var m := if tempMax != 0 && tempMax < r.max then tempMax else r.max;
      if s > m then m else s
    else
      var m := if tempMax != 0 && tempMax > r.max then tempMax else r.max;
      if s < m then m else s
  }

  /** Without trip limits, clamping both ways is projection onto the range. */
  lemma ClampProjects(r: Range, s: int)
    ensures Within(r, ClampMax(r, ClampMin(r, s, 0), 0)) && Within(r, ClampMin(r, ClampMax(r, s, 0), 0))
    ensures Within(r, s) <==> ClampMax(r, ClampMin(r, s, 0), 0) == s
    ensures ClampMax(r, ClampMin(r, s, 0), 0) == ClampMin(r, ClampMax(r, s, 0), 0)
  {
  }

  /** set_curr_state_raw: clamp to max, then to min, comparing as if the range were forward. */
  function Raw(r: Range, s: int): int {
    var a := if s > r.max then r.max else s;
    if a < r.min then r.min else a
  }

  /** The raw clamp hands on exactly the in-range states of a forward range; a reversed range always gets `min`. */
  lemma RawExact(r: Range, s: int)
    requires Within(r, s)
    ensures Raw(r, s) == s <==> Forward(r) || s == r.min
    ensures !Forward(r) ==> Raw(r, s) == r.min
  {
  }

  lemma RawMax(r: Range)
    ensures Raw(r, r.max) == if Forward(r) then r.max else r.min
  {
  }

  function Power(k: nat): nat {
    if k == 0 then 1 else 2 * Power(k - 1)
  }

  // ---- One activation of the exponential controller, without trip limits

  /** The increment in use: `inc_val`, or `inc_dec_val` when that is zero. */
  function Increment(incVal: int, incDecVal: int): int {
    if incVal != 0 then incVal else incDecVal
  }

  /** What a boost by `2^k` steps from `base` adds up to. */
  function Sum(base: int, k: nat, inc: int): int {
    base + Power(k) * inc
  }

  /** The state asked for before the last clamp; 32-bit unsigned arithmetic that may wrap. */
  function Boosted(r: Range, base: int, k: nat, incVal: int, incDecVal: int): int {
    var s := ToInt(Sum(base, k, Increment(incVal, incDecVal)));
    if (incVal < 0 && base < s) || (incVal > 0 && base > s) then r.max else s
  }

  /** Steps are meant to go from `min` toward `max`. */
  predicate Toward(r: Range, inc: int) {
    inc != 0 && (inc > 0 <==> Forward(r))
  }

  /** At or beyond `from`, in the direction from `min` to `max`. */
  predicate Beyond(r: Range, from: int, s: int) {
    if Forward(r) then s >= from else s <= from
  }

  /** The clamped state of a boost. */
  function BoostState(r: Range, base: int, k: nat, incVal: int, incDecVal: int): int {
    ClampMax(r, Boosted(r, base, k, incVal, incDecVal), 0)
  }

  /**
   * With `incVal` the boosted state never falls back behind its base, whatever the power wraps
   * to; without it, it does not exactly when the wrapped sum does not.
   */
  lemma BoostedBeyond(r: Range, base: int, k: nat, incVal: int, incDecVal: int)
    requires Toward(r, Increment(incVal, incDecVal)) && Within(r, base)
    ensures Beyond(r, base, BoostState(r, base, k, incVal, incDecVal))
            <==> incVal != 0 || Beyond(r, base, ToInt(Sum(base, k, incDecVal)))
  {
    hide ToInt, Sum;
  }

  lemma PowerPositive(k: nat)
    ensures Power(k) >= 1
  {
  }

  lemma {:induction false} PowerMono(i: nat, k: nat)
    requires i <= k
    ensures 1 <= Power(i) <= Power(k)
    decreases k
  {
    if i < k { PowerMono(i, k - 1); } else { PowerPositive(k); }
  }

  lemma MulSign(a: int, b: int)
    requires a >= 1 && b >= 1
    ensures a * b >= 1 && a * (-b) == -(a * b)
  {
  }

  function Abs(x: int): nat {
    if x < 0 then -x else x
  }

  /** The boost as a positive amount in the direction of the steps. */
  lemma SumAway(base: int, k: nat, inc: int)
    requires inc != 0
    ensures Power(k) * Abs(inc) >= 1
    ensures Sum(base, k, inc) == if inc > 0 then base + Power(k) * Abs(inc) else base - Power(k) * Abs(inc)
  {
    PowerPositive(k);
    MulSign(Power(k), Abs(inc));
  }

  /** Doubling: the next sum lies as far again from the base. */
  lemma SumDoubles(base: int, k: nat, inc: int)
    ensures Sum(base, k + 1, inc) == 2 * Sum(base, k, inc) - base
  {
    assert Power(k + 1) * inc == 2 * (Power(k) * inc);
  }

  lemma ToIntSame(x: int)
    requires InInt(x)
    ensures ToInt(x) == x
  {
  }

  lemma ToIntWraps(x: int)
    ensures INT_MAX < x <= INT_MAX + U32 ==> ToInt(x) == x - U32
    ensures INT_MIN - U32 <= x < INT_MIN ==> ToInt(x) == x + U32
    ensures InInt(ToInt(x))
  {
  }

  // ---- Deactivation

  /** The step of one deactivation, with the sign that leads back to `min`. */
  function DownStep(r: Range, decVal: int, incDecVal: int): int {
    var step := if decVal == 0 then (if Forward(r) then incDecVal else -incDecVal) else decVal;
    if (Forward(r) && step < 0) || (!Forward(r) && step > 0) then -step else step
  }

  function Down(r: Range, curr: int, step: int): int {
    ClampMax(r, ClampMin(r, ClampMax(r, curr, 0) - step, 0), 0)
  }

  /** Distance from `min`, after the clamp every deactivation starts with. */
  function Distance(r: Range, curr: int): nat {
    Abs(ClampMin(r, ClampMax(r, curr, 0), 0) - r.min)
  }

  function Downs(r: Range, curr: int, step: int, n: nat): int
    decreases n
  {
    if n == 0 then curr else Downs(r, Down(r, curr, step), step, n - 1)
  }

  /** The size of a step down: `decVal` if it is given, `incDecVal` otherwise, whatever its sign. */
  function DownSize(decVal: int, incDecVal: int): nat {
    if decVal != 0 then Abs(decVal) else Abs(incDecVal)
  }

  /** A deactivation takes one step off the distance from `min`, down to nothing, and no more. */
  lemma DownCloses(r: Range, curr: int, decVal: int, incDecVal: int)
    ensures var down := Down(r, curr, DownStep(r, decVal, incDecVal));
            var size := DownSize(decVal, incDecVal);
            Within(r, down) && Distance(r, down) == if Distance(r, curr) > size then Distance(r, curr) - size else 0
  {
  }

  /** The state at a distance from `min`. */
  function AtDistance(r: Range, d: nat): int {
    if Forward(r) then r.min + d else r.min - d
  }

  /** The state after `n` deactivations in a row, in closed form. */
  lemma {:induction false} DownsExact(r: Range, curr: int, decVal: int, incDecVal: int, n: nat)
    requires n >= 1
    ensures var left := Distance(r, curr) - n * DownSize(decVal, incDecVal);
            Downs(r, curr, DownStep(r, decVal, incDecVal), n) == AtDistance(r, if left > 0 then left else 0)
    decreases n
  {
    hide Down, DownStep, DownSize;
    var step, size := DownStep(r, decVal, incDecVal), DownSize(decVal, incDecVal);
    var next := Down(r, curr, step);
    DownCloses(r, curr, decVal, incDecVal);
    assert n * size == size + (n - 1) * size;
    if n == 1 {
      assert Downs(r, next, step, 0) == next;
    } else {
      DownsExact(r, next, decVal, incDecVal, n - 1);
    }
  }

  /** Repeated deactivation is at `min` after ceil(distance / step) calls, not before, and stays there. */
  lemma DownsReachMin(r: Range, curr: int, decVal: int, incDecVal: int, n: nat)
    requires n >= 1
    ensures Downs(r, curr, DownStep(r, decVal, incDecVal), n) == r.min <==> n * DownSize(decVal, incDecVal) >= Distance(r, curr)
  {
    hide DownStep, DownSize, Distance;
    DownsExact(r, curr, decVal, incDecVal, n);
  }

  lemma {:induction false} DownsStep(r: Range, curr: int, step: int, n: nat)
    ensures Downs(r, curr, step, 0) == curr
    ensures Downs(r, curr, step, n + 1) == Down(r, Downs(r, curr, step, n), step)
    decreases n
  {
    if n > 0 { DownsStep(r, Down(r, curr, step), step, n - 1); }
  }

  lemma MinWithin(r: Range)
    ensures Within(r, r.min)
  {
  }

  // ---- The controller's own state, and what calls make of it

  /** State, exponent and base of a boost, and whether the last action was an activation. */
  datatype Control = Control(curr: int, pow: nat, base: int, rising: bool)

  /** Every action first forgets a boost when the device stands at `min`. */
  function Rested(r: Range, c: Control): Control {
    if c.curr == r.min then c.(pow := 0, rising := false) else c
  }

  function Raised(r: Range, c: Control, incVal: int, incDecVal: int, tempMin: int, tempMax: int): Control {
    var at := ClampMin(r, c.curr, tempMin);
    if !c.rising then Control(ClampMax(r, at + Increment(incVal, incDecVal), tempMax), 0, c.base, true)
    else
      var base := if c.pow == 0 then at else c.base;
      var pow := if c.pow < MAX_EXPONENT then c.pow + 1 else c.pow;
      Control(ClampMax(r, Boosted(r, base, pow, incVal, incDecVal), tempMax), pow, base, true)
  }

  function Lowered(r: Range, c: Control, auto: bool, step: int): Control {
    Control(if auto then r.min else Down(r, c.curr, step), 0, c.base, false)
  }

  /** A boost under way started on the cooling side of `min`. */
  predicate BaseOk(r: Range, c: Control) {
    c.pow <= MAX_EXPONENT && (c.rising && c.pow > 0 ==> Beyond(r, r.min, c.base))
  }

  /** Base and exponent that a repeated activation is about to use. */
  function NextBase(r: Range, c: Control): int {
    if c.pow == 0 then ClampMin(r, c.curr, 0) else c.base
  }

  function NextPow(c: Control): nat {
    if c.pow < MAX_EXPONENT then c.pow + 1 else c.pow
  }

  /**
   * What the next activation needs to stay in range: the wrap guard of `incVal`, or no boost
   * under way, or a sum that does not wrap behind `min`.
   */
  predicate InHand(r: Range, c: Control, incVal: int, incDecVal: int) {
    incVal != 0 || !c.rising || Beyond(r, r.min, ToInt(Sum(NextBase(r, c), NextPow(c), incDecVal)))
  }

  /**
   * An activation commands a state within the range exactly when the boost is in hand, which
   * with `incVal` it always is; a deactivation always does.
   */
  lemma ControlWithin(r: Range, c: Control, incVal: int, incDecVal: int, auto: bool, decVal: int)
    requires BaseOk(r, c)
    ensures Toward(r, Increment(incVal, incDecVal)) ==>
              var d := Rested(r, c);
              var up := Raised(r, d, incVal, incDecVal, 0, 0);
              BaseOk(r, up) && (Within(r, up.curr) <==> InHand(r, d, incVal, incDecVal))
    ensures var down := Lowered(r, Rested(r, c), auto, DownStep(r, decVal, incDecVal)); Within(r, down.curr) && BaseOk(r, down)
  {
    hide ToInt, Sum;
  }

  /** A step size checked once against `max` keeps every boost that starts within the range in hand. */
  lemma InHandThroughout(r: Range, c: Control, incDecVal: int)
    requires Toward(r, incDecVal) && c.pow <= MAX_EXPONENT && Within(r, NextBase(r, c)) && InInt(r.min)
    requires InInt(Sum(r.max, MAX_EXPONENT, incDecVal))
    ensures InHand(r, c, 0, incDecVal)
  {
    hide ToInt, Power;
    var base, k := NextBase(r, c), NextPow(c);
    SumBetween(base, k, MAX_EXPONENT, incDecVal);
    SumAway(r.max, MAX_EXPONENT, incDecVal);
    SumAway(base, MAX_EXPONENT, incDecVal);
    ToIntSame(Sum(base, k, incDecVal));
  }

  /** Smaller exponents give sums between the base and the sum of a larger one. */
  lemma SumBetween(base: int, i: nat, k: nat, inc: int)
    requires i <= k && inc != 0
    ensures if inc > 0 then base < Sum(base, i, inc) <= Sum(base, k, inc) else Sum(base, k, inc) <= Sum(base, i, inc) < base
  {
    hide Power;
    PowerMono(i, k);
    SumAway(base, i, inc);
    SumAway(base, k, inc);
    MulMono(Power(i), Power(k), Abs(inc));
  }

  lemma MulMono(a: nat, b: nat, c: nat)
    requires a <= b
    ensures a * c <= b * c
  {
  }

  // ---- Runs of activations

  /** `n` activations in a row. */
  function Raises(r: Range, c: Control, incVal: int, incDecVal: int, n: nat): Control {
    if n == 0 then c else Raised(r, Rested(r, Raises(r, c, incVal, incDecVal, n - 1)), incVal, incDecVal, 0, 0)
  }

  /** Where the first activation of a run ends. */
  function First(r: Range, curr: int, inc: int): int {
    ClampMax(r, ClampMin(r, curr, 0) + inc, 0)
  }

  /** No boost is under way: the device stands at `min`, or its last action was no activation. */
  predicate Unboosted(r: Range, c: Control) {
    c.curr == r.min || !c.rising
  }

  function Capped(k: nat): nat {
    if k < MAX_EXPONENT then k else MAX_EXPONENT
  }

  /** The wrapped sum of a boost lies strictly on the cooling side of `min`. */
  predicate PastMin(r: Range, base: int, k: nat, inc: int) {
    Beyond(r, r.min, ToInt(Sum(base, k, inc))) && ToInt(Sum(base, k, inc)) != r.min
  }

  /**
   * A run of activations from `min` or after a deactivation: the first takes one step, and call `n` boosts by
   * 2^min(n - 1, 20) steps, always from where the first one ended. Without `incVal` this
   * holds as long as the sums before it have not wrapped to `min` or behind it.
   */
  lemma {:induction false} ActivationRun(r: Range, c: Control, incVal: int, incDecVal: int, n: nat)
    requires Toward(r, Increment(incVal, incDecVal)) && r.min != r.max && Unboosted(r, c) && n >= 1
    requires incVal != 0 || forall i :: 1 <= i < n - 1 && i <= MAX_EXPONENT ==> PastMin(r, First(r, c.curr, incDecVal), i, incDecVal)
    ensures var first := First(r, c.curr, Increment(incVal, incDecVal));
            Raises(r, c, incVal, incDecVal, n) ==
              if n == 1 then Control(first, 0, c.base, true)
              else Control(BoostState(r, first, Capped(n - 1), incVal, incDecVal), Capped(n - 1), first, true)
  {
    hide Boosted, Sum, ToInt, Raises;
    var first := First(r, c.curr, Increment(incVal, incDecVal));
    RaisesStep(r, c, incVal, incDecVal, n);
    if n > 1 {
      ActivationRun(r, c, incVal, incDecVal, n - 1);
      if n > 2 { StateMoved(r, first, Capped(n - 2), incVal, incDecVal); }
      var before := Raises(r, c, incVal, incDecVal, n - 1);
      assert before.curr != r.min && Rested(r, before) == before;
    }
  }

  lemma RaisesStep(r: Range, c: Control, incVal: int, incDecVal: int, n: nat)
    requires n >= 1
    ensures Raises(r, c, incVal, incDecVal, n) ==
            Raised(r, Rested(r, Raises(r, c, incVal, incDecVal, n - 1)), incVal, incDecVal, 0, 0)
    ensures Raises(r, c, incVal, incDecVal, 0) == c
  {
  }

  /** A boost from off `min` does not lead back to it. */
  lemma StateMoved(r: Range, base: int, k: nat, incVal: int, incDecVal: int)
    requires Toward(r, Increment(incVal, incDecVal)) && Within(r, base) && base != r.min && r.min != r.max
    requires incVal != 0 || PastMin(r, base, k, incDecVal)
    ensures BoostState(r, base, k, incVal, incDecVal) != r.min
  {
    hide Sum, ToInt;
    BoostedBeyond(r, base, k, incVal, incDecVal);
  }

  /** Sums that fit do not wrap to `min` or behind it, nor do the ones before. */
  lemma FitsPast(r: Range, base: int, k: nat, inc: int)
    requires Toward(r, inc) && Within(r, base) && InInt(base) && InInt(Sum(base, k, inc))
    ensures forall i :: 1 <= i <= k ==> PastMin(r, base, i, inc)
  {
    hide ToInt, Power, Sum;
    forall i | 1 <= i <= k ensures PastMin(r, base, i, inc) {
      SumFits(base, i, k, inc);
      SumBetween(base, i, k, inc);
      ToIntSame(Sum(base, i, inc));
    }
  }

  lemma SumFits(base: int, i: nat, k: nat, inc: int)
    requires i <= k && inc != 0 && InInt(base) && InInt(Sum(base, k, inc))
    ensures InInt(Sum(base, i, inc))
  {
    SumBetween(base, i, k, inc);
  }

  /** The sums of a run that may not be guarded fit, if the largest does. */
  lemma RunFits(r: Range, curr: int, incVal: int, incDecVal: int)
    requires Toward(r, Increment(incVal, incDecVal)) && InInt(r.min) && InInt(r.max)
    requires incVal != 0 || InInt(Sum(First(r, curr, incDecVal), MAX_EXPONENT, incDecVal))
    ensures incVal == 0 ==> forall i :: 1 <= i <= MAX_EXPONENT ==> PastMin(r, First(r, curr, incDecVal), i, incDecVal)
  {
    hide PastMin, Sum;
    if incVal == 0 { FitsPast(r, First(r, curr, incDecVal), MAX_EXPONENT, incDecVal); }
  }

  /** The states of such a run are in range, so that one more step from them fits an int if it does from `min` and `max`. */
  lemma RunDefined(r: Range, c: Control, incVal: int, incDecVal: int, n: nat)
    requires Toward(r, Increment(incVal, incDecVal)) && r.min != r.max && Unboosted(r, c) && Within(r, c.curr) && InInt(r.min) && InInt(r.max)
    requires InInt(r.min + Increment(incVal, incDecVal)) && InInt(r.max + Increment(incVal, incDecVal))
    requires incVal != 0 || InInt(Sum(First(r, c.curr, incDecVal), MAX_EXPONENT, incDecVal))
    ensures Within(r, Raises(r, c, incVal, incDecVal, n).curr)
    ensures InInt(ClampMin(r, Raises(r, c, incVal, incDecVal, n).curr, 0) + Increment(incVal, incDecVal))
  {
    hide PastMin, Sum, ToInt, Raises;
    if n == 0 {
      RaisesStep(r, c, incVal, incDecVal, 1);
    } else {
      RunFits(r, c.curr, incVal, incDecVal);
      ActivationRun(r, c, incVal, incDecVal, n);
      if n > 1 { StateWithin(r, First(r, c.curr, Increment(incVal, incDecVal)), Capped(n - 1), incVal, incDecVal); }
    }
  }

  lemma StateWithin(r: Range, base: int, k: nat, incVal: int, incDecVal: int)
    requires Toward(r, Increment(incVal, incDecVal)) && Within(r, base)
    requires incVal != 0 || PastMin(r, base, k, incDecVal)
    ensures Within(r, BoostState(r, base, k, incVal, incDecVal))
  {
    hide Sum, ToInt;
    BoostedBeyond(r, base, k, incVal, incDecVal);
  }

  // ---- Without `incVal` nothing guards the wrap

  /**
   * The first sum that may wrap: the state stays in range exactly when the sum fits an int or
   * wraps past the far end of the range, and it weakens the cooling exactly when it does not
   * fit and wraps short of `max`.
   */
  lemma UnguardedStep(r: Range, base: int, k: nat, inc: int)
    requires Toward(r, inc) && Within(r, base) && InInt(r.min) && InInt(r.max) && InInt(Sum(base, k, inc))
    ensures var next := Sum(base, k + 1, inc);
            Within(r, BoostState(r, base, k + 1, 0, inc))
            <==> InInt(next) || if Forward(r) then next >= U32 + r.min else next <= r.min - U32
    ensures var next := Sum(base, k + 1, inc);
            !Beyond(r, BoostState(r, base, k, 0, inc), BoostState(r, base, k + 1, 0, inc))
            <==> !InInt(next) && if Forward(r) then next - U32 < r.max else next + U32 > r.max
  {
    hide ToInt, Power, Sum;
    SumDoubles(base, k, inc);
    SumBetween(base, k, k + 1, inc);
    ToIntSame(Sum(base, k, inc));
    ToIntWraps(Sum(base, k + 1, inc));
    if InInt(Sum(base, k + 1, inc)) { ToIntSame(Sum(base, k + 1, inc)); }
  }

  /** States counted from zero: no wrap reaches past the far end. */
  predicate OneSided(r: Range) {
    if Forward(r) then 0 <= r.min else r.min <= 0
  }

  /**
   * A run of activations from `min` without `incVal`: as long as the sums fit, every call
   * stays in range; the first call whose sum does not fit does so exactly when it wraps past the far end.
   */
  lemma UnguardedUntil(r: Range, c: Control, inc: int, n: nat)
    requires Toward(r, inc) && r.min != r.max && c.curr == r.min && InInt(r.min) && InInt(r.max)
    requires n >= 2 && InInt(Sum(First(r, r.min, inc), Capped(n - 1) - 1, inc))
    requires n <= MAX_EXPONENT + 1 || InInt(Sum(First(r, r.min, inc), MAX_EXPONENT, inc))
    ensures var next := Sum(First(r, r.min, inc), Capped(n - 1), inc);
            Within(r, Raises(r, c, 0, inc, n).curr)
            <==> InInt(next) || (!OneSided(r) && if Forward(r) then next >= U32 + r.min else next <= r.min - U32)
  {
    hide ToInt, Power, Sum, PastMin;
    var first, k := First(r, r.min, inc), Capped(n - 1);
    FitsPast(r, first, Capped(n - 2), inc);
    ActivationRun(r, c, 0, inc, n);
    UnguardedStep(r, first, k - 1, inc);
    SumDoubles(first, k - 1, inc);
  }

  /**
   * Every activation of a run from `min` stays in range if the sum of the largest power fits
   * an int, and for a one-sided range only then. `First + inc` must fit for the second call to be made at all.
   */
  lemma UnguardedRun(r: Range, c: Control, inc: int)
    requires Toward(r, inc) && r.min != r.max && c.curr == r.min && InInt(r.min) && InInt(r.max)
    requires InInt(First(r, r.min, inc) + inc)
    ensures InInt(Sum(First(r, r.min, inc), MAX_EXPONENT, inc)) ==>
              forall n: nat :: n >= 1 ==> Within(r, Raises(r, c, 0, inc, n).curr)
    ensures OneSided(r) ==>
              ((forall n: nat :: n >= 1 ==> Within(r, Raises(r, c, 0, inc, n).curr))
               <==> InInt(Sum(First(r, r.min, inc), MAX_EXPONENT, inc)))
  {
    hide ToInt, Power, Sum, Raises;
    var first := First(r, r.min, inc);
    if InInt(Sum(first, MAX_EXPONENT, inc)) {
      forall n: nat | n >= 1 ensures Within(r, Raises(r, c, 0, inc, n).curr) {
        if n == 1 {
          ActivationRun(r, c, 0, inc, 1);
        } else {
          SumFits(first, Capped(n - 1), MAX_EXPONENT, inc);
          SumFits(first, Capped(n - 1) - 1, MAX_EXPONENT, inc);
          UnguardedUntil(r, c, inc, n);
        }
      }
    } else {
      SumZero(first, inc);
      var k := FirstOverflow(first, inc, 0, MAX_EXPONENT);
      UnguardedUntil(r, c, inc, k + 1);
    }
  }

  lemma {:induction false} RaisesSplit(r: Range, c: Control, incVal: int, incDecVal: int, a: nat, b: nat)
    ensures Raises(r, c, incVal, incDecVal, a + b) == Raises(r, Raises(r, c, incVal, incDecVal, a), incVal, incDecVal, b)
    decreases b
  {
    if b > 0 { RaisesSplit(r, c, incVal, incDecVal, a, b - 1); }
  }

  /**
   * The exact condition for any range and step: every activation of a run from `min` stays in
   * range if and only if the first of the twenty wrapped sums that is not strictly past `min`,
   * if there is one, is `min` itself, where the run starts over.
   */
  lemma UnguardedExact(r: Range, c: Control, inc: int)
    requires Toward(r, inc) && r.min != r.max && c.curr == r.min
    ensures (forall n: nat :: n >= 1 ==> Within(r, Raises(r, c, 0, inc, n).curr)) <==> StartsOver(r, inc)
  {
    hide ToInt, Power, Sum, Raises, BoostState, PastMin;
    if StartsOver(r, inc) {
      forall n: nat | n >= 1 ensures Within(r, Raises(r, c, 0, inc, n).curr) { StaysWithin(r, c, inc, n); }
    } else {
      var k :| 1 <= k <= MAX_EXPONENT && FirstNotPast(r, inc, k) && ToInt(Sum(First(r, r.min, inc), k, inc)) != r.min;
      ActivationRun(r, c, 0, inc, k + 1);
      BehindState(r, First(r, r.min, inc), k, inc);
      assert !Within(r, Raises(r, c, 0, inc, k + 1).curr);
    }
  }

  predicate FirstNotPast(r: Range, inc: int, k: nat) {
    !PastMin(r, First(r, r.min, inc), k, inc) && forall i :: 1 <= i < k ==> PastMin(r, First(r, r.min, inc), i, inc)
  }

  predicate StartsOver(r: Range, inc: int) {
    forall k :: 1 <= k <= MAX_EXPONENT && FirstNotPast(r, inc, k) ==> ToInt(Sum(First(r, r.min, inc), k, inc)) == r.min
  }

  /** Without `incVal` the state is in range exactly when the wrapped sum is not behind `min`. */
  lemma BehindState(r: Range, base: int, k: nat, inc: int)
    requires Toward(r, inc) && Within(r, base)
    ensures Within(r, BoostState(r, base, k, 0, inc)) <==> Beyond(r, r.min, ToInt(Sum(base, k, inc)))
    ensures PastMin(r, base, k, inc) ==> Within(r, BoostState(r, base, k, 0, inc))
    ensures !PastMin(r, base, k, inc) && ToInt(Sum(base, k, inc)) != r.min ==> !Within(r, BoostState(r, base, k, 0, inc))
    ensures ToInt(Sum(base, k, inc)) == r.min ==> BoostState(r, base, k, 0, inc) == r.min
  {
    hide ToInt, Sum;
  }

  /** The first sum not past `min` among the first `m`, if any. */
  lemma {:induction false} FindNotPast(r: Range, inc: int, m: nat) returns (k: nat)
    ensures k <= m
    ensures k == 0 ==> forall i :: 1 <= i <= m ==> PastMin(r, First(r, r.min, inc), i, inc)
    ensures k > 0 ==> FirstNotPast(r, inc, k)
  {
    hide PastMin;
    k := 0;
    if m > 0 {
      k := FindNotPast(r, inc, m - 1);
      if k == 0 && !PastMin(r, First(r, r.min, inc), m, inc) { k := m; }
    }
  }

  lemma {:induction false} StaysWithin(r: Range, c: Control, inc: int, n: nat)
    requires Toward(r, inc) && r.min != r.max && c.curr == r.min && n >= 1 && StartsOver(r, inc)
    ensures Within(r, Raises(r, c, 0, inc, n).curr)
    decreases n
  {
    hide ToInt, Power, Sum, Raises, BoostState, PastMin, FirstNotPast;
    var first := First(r, r.min, inc);
    var k := FindNotPast(r, inc, Capped(n - 1));
    if n == 1 {
      ActivationRun(r, c, 0, inc, 1);
    } else if k == 0 {
      ActivationRun(r, c, 0, inc, n);
      BehindState(r, first, Capped(n - 1), inc);
    } else {
      assert forall i :: 1 <= i < k ==> PastMin(r, first, i, inc) by { BeforeFirst(r, inc, k); }
      ActivationRun(r, c, 0, inc, k + 1);
      BehindState(r, first, k, inc);
      var back := Raises(r, c, 0, inc, k + 1);
      assert back.curr == r.min;
      if n > k + 1 {
        RaisesSplit(r, c, 0, inc, k + 1, n - (k + 1));
        StaysWithin(r, back, inc, n - (k + 1));
      }
    }
  }

  lemma BeforeFirst(r: Range, inc: int, k: nat)
    requires FirstNotPast(r, inc, k)
    ensures forall i :: 1 <= i < k ==> PastMin(r, First(r, r.min, inc), i, inc)
  {
  }

  lemma SumZero(base: int, inc: int)
    ensures Sum(base, 0, inc) == base + inc
  {
  }

  lemma {:induction false} FirstOverflow(base: int, inc: int, i: nat, k: nat) returns (j: nat)
    requires i <= k && InInt(Sum(base, i, inc)) && !InInt(Sum(base, k, inc))
    ensures i < j <= k && InInt(Sum(base, j - 1, inc)) && !InInt(Sum(base, j, inc))
    decreases k - i
  {
    if InInt(Sum(base, i + 1, inc)) { j := FirstOverflow(base, inc, i + 1, k); } else { j := i + 1; }
  }

  /** A device of range 0..100 stepping by 2048 without `incVal` is driven out of its range by the 21st call. */
  lemma FallbackUnguarded()
    ensures Raises(Range(0, 100), Control(0, 0, 0, false), 0, 2048, 20) == Control(100, 19, 100, true)
    ensures !Within(Range(0, 100), Raises(Range(0, 100), Control(0, 0, 0, false), 0, 2048, 21).curr)
  {
    hide Raises, PastMin;
    PowersOfTwo();
    var r, c := Range(0, 100), Control(0, 0, 0, false);
    FitsPast(r, 100, 18, 2048);
    ActivationRun(r, c, 0, 2048, 20);
    UnguardedUntil(r, c, 2048, 21);
  }

  lemma PowersOfTwo()
    ensures Power(18) == 0x4_0000 && Power(19) == 0x8_0000 && Power(20) == 0x10_0000
  {
    assert Power(10) == 1024;
    assert Power(18) == 0x4_0000;
  }

  // ---- With `incVal` a wrap can weaken the cooling

  /** The boost modulo 2^32. */
  function Turn(k: nat, inc: int): nat {
    Power(k) * Abs(inc) % U32
  }

  lemma TurnDoubles(k: nat, inc: int)
    ensures Turn(k, inc) < U32
    ensures Turn(k + 1, inc) == if Turn(k, inc) < 0x8000_0000 then 2 * Turn(k, inc) else 2 * Turn(k, inc) - U32
  {
    var d := Power(k) * Abs(inc);
    assert Power(k + 1) * Abs(inc) == 2 * d;
    DoubleModulo(d);
  }

  lemma ModuloOf(x: nat, q: nat, m: nat)
    requires x == q * U32 + m && m < U32
    ensures x % U32 == m
  {
  }

  lemma DoubleModulo(d: nat)
    ensures 2 * d % U32 == if d % U32 < 0x8000_0000 then 2 * (d % U32) else 2 * (d % U32) - U32
  {
    var q, m := d / U32, d % U32;
    if m < 0x8000_0000 {
      ModuloOf(2 * d, 2 * q, 2 * m);
    } else {
      ModuloOf(2 * d, 2 * q + 1, 2 * m - U32);
    }
  }

  /** The wrapped sum counts the turn from the base, once around the int range. */
  lemma WrappedSum(r: Range, base: int, k: nat, inc: int)
    requires Toward(r, inc) && InInt(base)
    ensures ToInt(Sum(base, k, inc)) ==
            if Forward(r) then (if base + Turn(k, inc) <= INT_MAX then base + Turn(k, inc) else base + Turn(k, inc) - U32)
            else if base - Turn(k, inc) >= INT_MIN then base - Turn(k, inc) else base - Turn(k, inc) + U32
  {
    hide Power;
    SumAway(base, k, inc);
    var d := Power(k) * Abs(inc);
    Around(base, d);
  }

  lemma Around(base: int, d: nat)
    requires InInt(base)
    ensures ToInt(base + d) == if base + d % U32 <= INT_MAX then base + d % U32 else base + d % U32 - U32
    ensures ToInt(base - d) == if base - d % U32 >= INT_MIN then base - d % U32 else base - d % U32 + U32
  {
    var q, m := d / U32, d % U32;
    assert d == q * U32 + m;
    ToIntShift(base + m, q);
    ToIntShift(base - m, -q);
    ToIntWraps(base + m);
    ToIntWraps(base - m);
    if InInt(base + m) { ToIntSame(base + m); }
    if InInt(base - m) { ToIntSame(base - m); }
  }

  lemma ToIntShift(x: int, q: int)
    ensures ToInt(x + q * U32) == ToInt(x)
  {
    assert (x + q * U32) % U32 == x % U32;
  }

  /**
   * The next power weakens the cooling exactly when bit 31 of the boost is set and what its
   * doubling leaves is less than the room between the base and `max`.
   */
  lemma BoostWeakens(r: Range, base: int, k: nat, incVal: int, incDecVal: int)
    requires Toward(r, incVal) && Within(r, base) && InInt(base) && InInt(r.max)
    ensures !Beyond(r, BoostState(r, base, k, incVal, incDecVal), BoostState(r, base, k + 1, incVal, incDecVal))
            <==> Turn(k, incVal) >= 0x8000_0000 && 2 * Turn(k, incVal) - U32 < Abs(r.max - base)
  {
    hide ToInt, Sum, Turn;
    TurnDoubles(k, incVal);
    WrappedSum(r, base, k, incVal);
    WrappedSum(r, base, k + 1, incVal);
  }

  /** The same for consecutive calls of a run from `min`. */
  lemma RunWeakens(r: Range, c: Control, incVal: int, incDecVal: int, n: nat)
    requires Toward(r, incVal) && r.min != r.max && c.curr == r.min && n >= 1 && InInt(r.min) && InInt(r.max)
    ensures !Beyond(r, Raises(r, c, incVal, incDecVal, n).curr, Raises(r, c, incVal, incDecVal, n + 1).curr)
            <==> 2 <= n <= MAX_EXPONENT && Turn(n - 1, incVal) >= 0x8000_0000
                 && 2 * Turn(n - 1, incVal) - U32 < Abs(r.max - First(r, r.min, incVal))
  {
    hide BoostState, Raises, Turn;
    var first := First(r, r.min, incVal);
    ActivationRun(r, c, incVal, incDecVal, n);
    ActivationRun(r, c, incVal, incDecVal, n + 1);
    if n == 1 {
      BoostedBeyond(r, first, 1, incVal, incDecVal);
    } else if n <= MAX_EXPONENT {
      BoostWeakens(r, first, n - 1, incVal, incDecVal);
    }
  }

  /** Steps below 4096 never weaken the cooling from one call of a run to the next. */
  lemma SmallStepsNeverWeaken(r: Range, c: Control, incVal: int, incDecVal: int, n: nat)
    requires Toward(r, incVal) && r.min != r.max && c.curr == r.min && n >= 1 && InInt(r.min) && InInt(r.max)
    requires Abs(incVal) < 0x1000
    ensures Beyond(r, Raises(r, c, incVal, incDecVal, n).curr, Raises(r, c, incVal, incDecVal, n + 1).curr)
  {
    hide Raises, Power, Turn;
    RunWeakens(r, c, incVal, incDecVal, n);
    if 2 <= n <= MAX_EXPONENT {
      PowersOfTwo();
      PowerMono(n - 1, 19);
      SmallTurn(n - 1, incVal);
    }
  }

  lemma SmallTurn(k: nat, inc: int)
    requires Power(k) <= 0x8_0000 && Abs(inc) < 0x1000
    ensures Turn(k, inc) < 0x8000_0000
  {
    hide Power;
    MulMono(Power(k), 0x8_0000, Abs(inc));
  }

  /** Steps of exactly 4096 do, at the 21st call, unless the first call already reached `max`. */
  lemma BoostCanFall(r: Range, c: Control, incVal: int, incDecVal: int)
    requires Toward(r, incVal) && r.min != r.max && c.curr == r.min && InInt(r.min) && InInt(r.max)
    requires Abs(incVal) == 0x1000
    ensures Beyond(r, Raises(r, c, incVal, incDecVal, 20).curr, Raises(r, c, incVal, incDecVal, 21).curr)
            <==> First(r, r.min, incVal) == r.max
  {
    hide Raises, Power;
    PowersOfTwo();
    RunWeakens(r, c, incVal, incDecVal, 20);
  }

  // ---- When wrapping does not show

  /**
   * The clamped boost is the one of unbounded arithmetic exactly when that fits an int, or its
   * wrapped value lands at `max` or beyond, or, with `incVal`, behind the base.
   */
  lemma BoostIdeal(r: Range, base: int, k: nat, incVal: int, incDecVal: int)
    requires Toward(r, Increment(incVal, incDecVal)) && Within(r, base) && InInt(r.max) && InInt(base)
    ensures BoostState(r, base, k, incVal, incDecVal) == ClampMax(r, Sum(base, k, Increment(incVal, incDecVal)), 0)
            <==> var sum := Sum(base, k, Increment(incVal, incDecVal));
                 InInt(sum) || Beyond(r, r.max, ToInt(sum)) || (incVal != 0 && !Beyond(r, base, ToInt(sum)))
  {
    hide ToInt, Sum, Power;
    var inc := Increment(incVal, incDecVal);
    SumBetween(base, k, k, inc);
    ToIntWraps(Sum(base, k, inc));
    if InInt(Sum(base, k, inc)) { ToIntSame(Sum(base, k, inc)); }
  }

  // ---- Limits

  datatype Limit = Limit(zone: int, trip: int, valid: bool, target: int)

  predicate Owner(l: Limit, zone: int, trip: int) {
    l.zone == zone && l.trip == trip
  }

  /** Sorted so that the most restrictive target comes last. */
  predicate Sorted(r: Range, ls: seq<Limit>) {
    forall i, j :: 0 <= i < j < |ls| ==> if r.min < r.max then ls[i].target <= ls[j].target else ls[i].target >= ls[j].target
  }

  predicate NoDuplicates(ls: seq<Limit>) {
    forall i, j :: 0 <= i < j < |ls| ==> !Owner(ls[i], ls[j].zone, ls[j].trip)
  }

  /** The target that asks for most cooling, or `min`. */
  function Strongest(r: Range, ls: seq<Limit>): int {
    if ls == [] then r.min
    else
      var m := Strongest(r, ls[1..]);
      if Beyond(r, m, ls[0].target) then ls[0].target else m
  }

  /** It is at or beyond every target and `min`, and one of them. */
  lemma {:induction false} StrongestIsBound(r: Range, ls: seq<Limit>)
    ensures forall i :: 0 <= i < |ls| ==> Beyond(r, ls[i].target, Strongest(r, ls))
    ensures Beyond(r, r.min, Strongest(r, ls))
    ensures Strongest(r, ls) == r.min || exists i :: 0 <= i < |ls| && ls[i].target == Strongest(r, ls)
  {
    if ls != [] {
      StrongestIsBound(r, ls[1..]);
      if Strongest(r, ls) != r.min && ls[0].target != Strongest(r, ls) {
        var i :| 0 <= i < |ls[1..]| && ls[1..][i].target == Strongest(r, ls[1..]);
        assert ls[i + 1].target == Strongest(r, ls);
      }
    }
  }

  /** The last entry of a sorted list asks for most cooling, in either range direction. */
  lemma LastIsStrongest(r: Range, ls: seq<Limit>)
    requires r.min != r.max && Sorted(r, ls) && ls != []
    requires forall i :: 0 <= i < |ls| ==> Beyond(r, r.min, ls[i].target)
    ensures ls[|ls| - 1].target == Strongest(r, ls)
  {
    StrongestIsBound(r, ls);
  }

  /** A list whose entries all give in-range targets. */
  ghost predicate Rules(r: Range, ls: seq<Limit>) {
    && r.min != r.max && Sorted(r, ls) && NoDuplicates(ls)
    && forall i :: 0 <= i < |ls| ==> ls[i].valid && Within(r, ls[i].target)
  }

  /** The raw clamp hands on the ruling target as it is exactly when the range is forward or no target is beyond `min`. */
  lemma StrongestFits(r: Range, ls: seq<Limit>)
    requires Rules(r, ls)
    ensures Raw(r, Strongest(r, ls)) == Strongest(r, ls) <==> Forward(r) || forall i :: 0 <= i < |ls| ==> ls[i].target == r.min
  {
    StrongestIsBound(r, ls);
    RawExact(r, Strongest(r, ls));
  }

  /** The list after an "off" call: only a last entry of the caller is removed. */
  function AfterOff(ls: seq<Limit>, zone: int, trip: int): seq<Limit> {
    if ls != [] && Owner(ls[|ls| - 1], zone, trip) then ls[..|ls| - 1] else ls
  }

  /** An "off" call leaves the caller without a limit exactly when it had none, or had the last one. */
  lemma OffRemovesOnlyLast(ls: seq<Limit>, zone: int, trip: int)
    requires NoDuplicates(ls)
    ensures (forall i :: 0 <= i < |AfterOff(ls, zone, trip)| ==> !Owner(AfterOff(ls, zone, trip)[i], zone, trip))
            <==> (forall i :: 0 <= i < |ls| - 1 ==> !Owner(ls[i], zone, trip))
  {
    var after := AfterOff(ls, zone, trip);
    if ls != [] && Owner(ls[|ls| - 1], zone, trip) {
      forall i | 0 <= i < |ls| - 1 ensures !Owner(ls[i], zone, trip) {
        assert !Owner(ls[i], ls[|ls| - 1].zone, ls[|ls| - 1].trip);
      }
    } else if ls != [] && (forall i :: 0 <= i < |ls| - 1 ==> !Owner(ls[i], zone, trip)) {
      forall i | 0 <= i < |after| ensures !Owner(after[i], zone, trip) {
      }
    }
  }

  /** A trip that is not last keeps its limit although it called "off". */
  lemma OffCanBeIgnored()
    ensures var ls := [Limit(0, 1, true, 3), Limit(0, 2, true, 5)];
            NoDuplicates(ls) && Sorted(Range(0, 10), ls) && AfterOff(ls, 0, 1) == ls
  {
  }

  /** What a call decides: nothing to do, a target state, or control without a target. */
  datatype Decision = Ignored | Target(value: int) | NoTarget

  /** Sign of the way from `curr` to `s`, more cooling being positive. */
  function Compare(r: Range, curr: int, s: int): int {
    if curr == s then 0
    else if r.min < r.max then (if s > curr then 1 else -1)
    else if r.min > r.max then (if s > curr then -1 else 1)
    else 0
  }

  /** The list after an "on" call: the caller is entered once, and a target puts the list in order. */
  ghost predicate Entered(r: Range, before: seq<Limit>, after: seq<Limit>, l: Limit) {
    if exists i :: 0 <= i < |before| && Owner(before[i], l.zone, l.trip) then after == before
    else multiset(after) == multiset(before + [l]) && if l.valid then Sorted(r, after) else after == before + [l]
  }

  /** An "on" call follows the last limit, unless that asks for no more cooling or comes too early. */
  function OnDecision(r: Range, curr: int, first: bool, last: Limit, early: bool): Decision {
    if !first && last.valid && Compare(r, curr, last.target) <= 0 then Ignored
    else if early then Ignored
    else if last.valid then Target(last.target) else NoTarget
  }

  /** The sign of the comparison is the direction of more cooling, in either range direction. */
  lemma CompareBeyond(r: Range, curr: int, s: int)
    requires r.min != r.max
    ensures Compare(r, curr, s) > 0 <==> s != curr && Beyond(r, curr, s)
  {
  }

  /** An "on" call without a target is taken up unless early; one with a target also only if it asks for more cooling, or is the first. */
  lemma OnOutcome(r: Range, curr: int, first: bool, last: Limit, early: bool)
    requires r.min != r.max
    ensures OnDecision(r, curr, first, last, early) ==
            if early then Ignored
            else if !last.valid then NoTarget
            else if first || (last.target != curr && Beyond(r, curr, last.target)) then Target(last.target)
            else Ignored
  {
    CompareBeyond(r, curr, last.target);
  }

  /** An "off" call follows the limit that is now last if it removed one, and otherwise goes to `min`. */
  function OffDecision(r: Range, before: seq<Limit>, l: Limit, force: bool): Decision {
    var after := AfterOff(before, l.zone, l.trip);
    if after != [] then
      if after == before then Ignored
      else if after[|after| - 1].valid then Target(after[|after| - 1].target) else NoTarget
    else if before == [] then if force then Target(r.min) else NoTarget
    else if before[|before| - 1].valid then if l.valid then Target(r.min) else NoTarget
    else if force then Target(r.min)
    else if l.valid then Target(l.target) else NoTarget
  }

  /** What an "off" call comes to, by the number of limits and whether the caller's is the last one. */
  lemma OffOutcome(r: Range, before: seq<Limit>, l: Limit, force: bool)
    ensures var n := |before|;
            var d := OffDecision(r, before, l, force);
            if n == 0 then d == if force then Target(r.min) else NoTarget
            else if !Owner(before[n - 1], l.zone, l.trip) then d == Ignored
            else if n >= 2 then d == if before[n - 2].valid then Target(before[n - 2].target) else NoTarget
            else if before[0].valid then d == if l.valid then Target(r.min) else NoTarget
            else if force then d == Target(r.min)
            else d == if l.valid then Target(l.target) else NoTarget
  {
  }

  lemma EnteredMembers(r: Range, before: seq<Limit>, after: seq<Limit>, l: Limit)
    requires Entered(r, before, after, l)
    ensures forall x :: x in before ==> x in after
    ensures forall x :: x in after ==> x in before || x == l
    ensures after != []
  {
    if !exists i :: 0 <= i < |before| && Owner(before[i], l.zone, l.trip) {
      assert forall x :: x in after <==> x in multiset(after);
      assert forall x :: x in before + [l] <==> x in multiset(before + [l]);
      assert l in before + [l];
    }
  }

  /** Arbitration, "on": a target call sends the device to the target that asks for most cooling, unless it is there already or the call is early. */
  lemma OnArbitrates(r: Range, before: seq<Limit>, after: seq<Limit>, l: Limit, early: bool)
    requires Rules(r, before) && NoDuplicates(after) && Entered(r, before, after, l) && l.valid && Within(r, l.target)
    ensures Rules(r, after) && after != []
    ensures var d := OnDecision(r, Strongest(r, before), before == [], after[|after| - 1], early);
            && (d == Ignored || d == Target(Strongest(r, after)))
            && (early ==> d == Ignored)
            && (!early && d == Ignored ==> Strongest(r, after) == Strongest(r, before))
  {
    EnteredMembers(r, before, after, l);
    InListWithin(r, before, after, l);
    LastIsStrongest(r, after);
    StrongestGrows(r, before, after);
  }

  /** Arbitration, "off": what the device is sent to is the strongest target left, or `min` when none is. */
  lemma OffArbitrates(r: Range, before: seq<Limit>, l: Limit, force: bool)
    requires Rules(r, before) && l.valid && before != []
    ensures var after := AfterOff(before, l.zone, l.trip);
            Rules(r, after) &&
            OffDecision(r, before, l, force) == if after == before then Ignored else Target(Strongest(r, after))
  {
    var after := AfterOff(before, l.zone, l.trip);
    if after != [] { LastIsStrongest(r, after); }
  }

  lemma OffOfNone(zone: int, trip: int)
    ensures AfterOff([], zone, trip) == []
  {
  }

  /** What arbitration decides from `curr`: go to the strongest target, unless already there or too early. */
  ghost predicate SentTo(r: Range, d: Decision, ls: seq<Limit>, curr: int, early: bool) {
    && Rules(r, ls)
    && (d == Ignored || d == Target(Strongest(r, ls)))
    && (!early && d == Ignored ==> Strongest(r, ls) == curr)
    && (early ==> d == Ignored)
  }

  lemma StaysThere(r: Range, ls: seq<Limit>, curr: int)
    requires Rules(r, ls) && curr == Strongest(r, ls)
    ensures SentTo(r, Ignored, ls, curr, false)
  {
  }

  /** Either kind of call: unless it was an early "on", the device is at, or is sent to, the strongest target of the new list. */
  lemma Arbitrates(r: Range, before: seq<Limit>, after: seq<Limit>, curr: int, state: bool, l: Limit,
      force: bool, early: bool, d: Decision)
    requires Rules(r, before) && curr == Strongest(r, before) && l.valid && Within(r, l.target)
    requires if state then Entered(r, before, after, l) && NoDuplicates(after) && after != []
             else after == AfterOff(before, l.zone, l.trip) && !(before == [] && curr == r.min)
    requires d == if state then OnDecision(r, curr, before == [], after[|after| - 1], early) else OffDecision(r, before, l, force)
    ensures SentTo(r, d, after, curr, state && early)
  {
    if state { OnArbitrates(r, before, after, l, early); } else { OffArbitrates(r, before, l, force); }
  }

  /** Every entry of the new list is an old one or the one added, so all are valid and within range. */
  lemma InListWithin(r: Range, before: seq<Limit>, after: seq<Limit>, l: Limit)
    requires forall i :: 0 <= i < |before| ==> before[i].valid && Within(r, before[i].target)
    requires l.valid && Within(r, l.target) && forall x :: x in after ==> x in before || x == l
    ensures forall i :: 0 <= i < |after| ==> after[i].valid && Within(r, after[i].target)
  {
    forall i | 0 <= i < |after| ensures after[i].valid && Within(r, after[i].target) {
      assert after[i] in after;
    }
  }

  lemma StrongestGrows(r: Range, before: seq<Limit>, after: seq<Limit>)
    requires forall x :: x in before ==> x in after
    ensures Beyond(r, Strongest(r, before), Strongest(r, after))
  {
    StrongestIsBound(r, before);
    StrongestIsBound(r, after);
    if Strongest(r, before) != r.min {
      var i :| 0 <= i < |before| && before[i].target == Strongest(r, before);
      assert before[i] in after;
    }
  }

  // ---- Sorting the list

  function Insert(r: Range, l: Limit, ls: seq<Limit>): seq<Limit> {
    if ls == [] then [l]
    else if (if r.min < r.max then l.target < ls[0].target else l.target > ls[0].target) then [l] + ls
    else [ls[0]] + Insert(r, l, ls[1..])
  }

  /** Insertion adds one element and nothing else. */
  lemma {:induction false} InsertMembers(r: Range, l: Limit, ls: seq<Limit>)
    ensures multiset(Insert(r, l, ls)) == multiset(ls) + multiset{l}
    ensures forall x :: x in Insert(r, l, ls) <==> x == l || x in ls
  {
    if ls != [] {
      InsertMembers(r, l, ls[1..]);
      assert ls == [ls[0]] + ls[1..];
    }
  }

  predicate Before(r: Range, a: Limit, b: Limit) {
    if r.min < r.max then a.target <= b.target else a.target >= b.target
  }

  lemma {:induction false} InsertSorted(r: Range, l: Limit, ls: seq<Limit>)
    requires Sorted(r, ls)
    ensures Sorted(r, Insert(r, l, ls))
  {
    if ls != [] {
      var rest := ls[1..];
      assert forall i :: 0 <= i < |rest| ==> rest[i] == ls[i + 1];
      if !(if r.min < r.max then l.target < ls[0].target else l.target > ls[0].target) {
        InsertSorted(r, l, rest);
        InsertMembers(r, l, rest);
        var t := Insert(r, l, rest);
        forall x | x in t ensures Before(r, ls[0], x) {
        }
        assert forall i :: 0 <= i < |t| ==> t[i] in t;
      }
    }
  }

  lemma {:induction false} InsertNoDuplicates(r: Range, l: Limit, ls: seq<Limit>)
    requires NoDuplicates(ls) && forall x :: x in ls ==> !Owner(x, l.zone, l.trip)
    ensures NoDuplicates(Insert(r, l, ls))
  {
    if ls != [] {
      var rest := ls[1..];
      assert forall i :: 0 <= i < |rest| ==> rest[i] == ls[i + 1] && rest[i] in ls;
      if !(if r.min < r.max then l.target < ls[0].target else l.target > ls[0].target) {
        InsertNoDuplicates(r, l, rest);
        InsertMembers(r, l, rest);
        var t := Insert(r, l, rest);
        assert ls[0] in ls;
        forall x | x in t ensures !Owner(ls[0], x.zone, x.trip) {
        }
        assert forall i :: 0 <= i < |t| ==> t[i] in t;
      } else {
        assert forall i :: 0 <= i < |ls| ==> ls[i] in ls;
      }
    }
  }

  function SortAll(r: Range, ls: seq<Limit>): seq<Limit> {
    if ls == [] then [] else Insert(r, ls[0], SortAll(r, ls[1..]))
  }

  /** Sorting puts the targets in order and permutes the list. */
  lemma {:induction false} SortAllOk(r: Range, ls: seq<Limit>)
    ensures Sorted(r, SortAll(r, ls)) && multiset(SortAll(r, ls)) == multiset(ls)
    ensures forall x :: x in SortAll(r, ls) <==> x in ls
  {
    hide Sorted, Insert;
    if ls != [] {
      SortAllOk(r, ls[1..]);
      InsertSorted(r, ls[0], SortAll(r, ls[1..]));
      InsertMembers(r, ls[0], SortAll(r, ls[1..]));
      assert ls == [ls[0]] + ls[1..];
    } else {
      assert Sorted(r, []) by { SortedEmpty(r); }
    }
  }

  lemma SortedEmpty(r: Range)
    ensures Sorted(r, [])
  {
  }

  /** Sorting keeps the list free of duplicates. */
  lemma {:induction false} SortAllNoDuplicates(r: Range, ls: seq<Limit>)
    requires NoDuplicates(ls)
    ensures NoDuplicates(SortAll(r, ls))
  {
    if ls != [] {
      var rest := ls[1..];
      assert forall i :: 0 <= i < |rest| ==> rest[i] == ls[i + 1];
      SortAllNoDuplicates(r, rest);
      SortAllOk(r, rest);
      InsertNoDuplicates(r, ls[0], SortAll(r, rest));
    }
  }

  /** Entering keeps the list free of duplicates. */
  lemma AppendNoDuplicates(ls: seq<Limit>, l: Limit)
    requires NoDuplicates(ls) && forall i :: 0 <= i < |ls| ==> !Owner(ls[i], l.zone, l.trip)
    ensures NoDuplicates(ls + [l])
  {
  }

  // ---- The device object

  class CoolingDevice {
    const range: Range
    const debounceInterval: int
    var currState: int
    var currPow: nat
    var basePowState: int
    var trendIncrease: bool
    var incDecVal: int
    var incVal: int
    var decVal: int
    var autoDownAdjust: bool
    var lastActionTime: int
    var lastState: bool
    var limits: seq<Limit>
    ghost var commanded: int

    constructor (range: Range, debounceInterval: int, incDecVal: int, incVal: int, decVal: int, autoDownAdjust: bool)
      ensures this.range == range && this.debounceInterval == debounceInterval && commanded == currState
      ensures Controls() == Control(range.min, 0, 0, false) && BaseOk(range, Controls())
      ensures range.min != range.max ==> Arbitrated()
    {
      this.range, this.debounceInterval := range, debounceInterval;
      currState, commanded, currPow, basePowState := range.min, range.min, 0, 0;
      this.incDecVal, this.incVal, this.decVal, this.autoDownAdjust := incDecVal, incVal, decVal, autoDownAdjust;
      trendIncrease, lastActionTime, lastState, limits := false, 0, false, [];
    }

    ghost function Controls(): Control
      reads this
    {
      Control(currState, currPow, basePowState, trendIncrease)
    }

    /** The arbitration invariant: the device is at the target that asks for most cooling, or at `min`. */
    ghost predicate Arbitrated()
      reads this
    {
      Rules(range, limits) && currState == Strongest(range, limits) && commanded == Raw(range, currState)
    }

    method SetCurrState(s: int)
      modifies this`currState, this`commanded
      ensures currState == commanded == s
    {
      currState := s;
      commanded := s;
    }

    method SetCurrStateRaw(s: int)
      modifies this`currState, this`commanded
      ensures currState == commanded == Raw(range, s)
    {
      var state := s;
      if state > range.max {
        state := range.max;
      }
      if state < range.min {
        state := range.min;
      }
      SetCurrState(state);
    }

    method Int2Pow(pow: nat) returns (p: nat)
      ensures p == Power(pow)
    {
      var i := 0;
      p := 1;
      while i < pow
        invariant i <= pow && p == Power(i)
      {
        p := p * 2;
        i := i + 1;
      }
    }

    predicate InMinState()
      reads this
    {
      (range.min < range.max && currState <= range.min) || (range.min > range.max && currState >= range.min)
    }

    /** Raise the state: one step, or on repeated calls a power of two of steps from where the boost began. */
    method Activate(tempMin: int, tempMax: int)
      requires InInt(ClampMin(range, currState, tempMin) + Increment(incVal, incDecVal))
      modifies this`currState, this`commanded, this`currPow, this`basePowState, this`trendIncrease
      ensures Controls() == Raised(range, old(Controls()), incVal, incDecVal, tempMin, tempMax) && commanded == currState
    {
      hide Power;
      var curr := ClampMin(range, currState, tempMin);
      var state := curr + (if incVal != 0 then incVal else incDecVal);
      if trendIncrease {
        if currPow == 0 {
          basePowState := curr;
        }
        if currPow < MAX_EXPONENT {
          currPow := currPow + 1;
        }
        var p := Int2Pow(currPow);
        state := ToInt(basePowState + p * (if incVal != 0 then incVal else incDecVal));
        if (incVal < 0 && basePowState < state) || (incVal > 0 && basePowState > state) {
          state := range.max;
        }
      } else {
        currPow := 0;
      }
      state := ClampMax(range, state, tempMax);
      trendIncrease := true;
      SetCurrState(state);
    }

    /** Lower the state by one step toward `min`, or all the way. */
    method Deactivate()
      modifies this`currState, this`commanded, this`currPow, this`trendIncrease
      ensures Controls() == Lowered(range, old(Controls()), autoDownAdjust, DownStep(range, decVal, incDecVal))
      ensures commanded == currState
    {
      var curr := ClampMax(range, currState, 0);
      currPow := 0;
      trendIncrease := false;
      var state := range.min;
      if !autoDownAdjust {
        var step := decVal;
        if step == 0 {
          step := if range.min <= range.max then incDecVal else -incDecVal;
        }
        if range.min <= range.max && step < 0 {
          step := -step;
        } else if range.min > range.max && step > 0 {
          step := -step;
        }
        state := curr - step;
      }
      state := ClampMin(range, state, 0);
      state := ClampMax(range, state, 0);
      SetCurrState(state);
    }

    method Found(zone: int, trip: int) returns (found: bool)
      ensures found <==> exists i :: 0 <= i < |limits| && Owner(limits[i], zone, trip)
    {
      found := false;
      var i := 0;
      while i < |limits|
        invariant i <= |limits| && !found && forall j :: 0 <= j < i ==> !Owner(limits[j], zone, trip)
      {
        if limits[i].zone == zone && limits[i].trip == trip { return true; }
        i := i + 1;
      }
    }

    /** std::sort with the target comparison; only order and contents are promised. */
    method SortLimits()
      modifies this`limits
      ensures Sorted(range, limits) && multiset(limits) == multiset(old(limits))
      ensures NoDuplicates(old(limits)) ==> NoDuplicates(limits)
    {
      SortAllOk(range, limits);
      if NoDuplicates(limits) { SortAllNoDuplicates(range, limits); }
      limits := SortAll(range, limits);
    }

    /** The part of an "on" call that keeps the list and decides. */
    method TurnOn(l: Limit, force: bool, now: int) returns (d: Decision)
      modifies this`limits
      ensures Entered(range, old(limits), limits, l) && limits != []
      ensures NoDuplicates(old(limits)) ==> NoDuplicates(limits)
      ensures d.NoTarget? ==> !l.valid || exists x :: x in old(limits) && !x.valid
      ensures d == OnDecision(range, currState, old(limits) == [], limits[|limits| - 1],
                              !force && lastState && now - lastActionTime <= debounceInterval)
    {
      var firstEntry, found := |limits| == 0, false;
      if !firstEntry {
        found := Found(l.zone, l.trip);
      }
      if !found {
        if NoDuplicates(limits) { AppendNoDuplicates(limits, l); }
        limits := limits + [l];
        if l.valid {
          SortLimits();
        }
      }
      EnteredMembers(range, old(limits), limits, l);
      var limit := limits[|limits| - 1];
      if !firstEntry && limit.valid && Compare(range, currState, limit.target) <= 0 {
        return Ignored;
      }
      if !force && lastState && now - lastActionTime <= debounceInterval {
        return Ignored;
      }
      d := if limit.valid then Target(limit.target) else NoTarget;
    }

    /** The part of an "off" call that keeps the list and decides. */
    method TurnOff(l: Limit, force: bool) returns (d: Decision)
      modifies this`limits
      ensures limits == AfterOff(old(limits), l.zone, l.trip)
      ensures NoDuplicates(old(limits)) ==> NoDuplicates(limits)
      ensures d == OffDecision(range, old(limits), l, force)
    {
      var targetValid, value := l.valid, l.target;
      if |limits| > 0 {
        var erased, erasedValid := false, false;
        var limit := limits[|limits| - 1];
        if limit.zone == l.zone && limit.trip == l.trip {
          erasedValid := limit.valid;
          limits := limits[..|limits| - 1];
          erased := true;
        }
        if |limits| > 0 {
          limit := limits[|limits| - 1];
          targetValid, value := limit.valid, limit.target;
          if !erased {
            return Ignored;
          }
        } else if erasedValid {
          value := range.min;
        } else if force {
          targetValid, value := true, range.min;
        }
      } else if force {
        targetValid, value := true, range.min;
      } else {
        targetValid := false;
      }
      d := if targetValid then Target(value) else NoTarget;
    }

    /** The control state a decision leads to. */
    ghost function Effect(d: Decision, hardTarget: bool, state: bool, c: Control): Control
      reads this`incVal, this`incDecVal, this`decVal, this`autoDownAdjust
    {
      var at := Rested(range, c);
      match d
      case Ignored => c
      case Target(v) => at.(curr := v)
      case NoTarget =>
        if hardTarget then at.(curr := Raw(range, range.max))
        else if state then Raised(range, at, incVal, incDecVal, 0, 0)
        else Lowered(range, at, autoDownAdjust, DownStep(range, decVal, incDecVal))
    }

    /** Put a decision into effect: a target, the hard maximum, or a step of the exponential controller. */
    method Apply(hardTarget: bool, state: bool, d: Decision)
      requires !d.Ignored?
      requires d.NoTarget? && !hardTarget && state ==> InInt(ClampMin(range, currState, 0) + Increment(incVal, incDecVal))
      modifies this`currState, this`commanded, this`currPow, this`basePowState, this`trendIncrease
      ensures Controls() == Effect(d, hardTarget, state, old(Controls()))
      ensures commanded == if d.Target? then Raw(range, d.value) else currState
    {
      hide Raised, Lowered, DownStep, Raw;
      if currState == range.min {
        currPow, trendIncrease := 0, false;
      }
      if d.Target? {
        SetCurrStateRaw(d.value);
        currState := d.value;
      } else if hardTarget {
        SetCurrStateRaw(range.max);
      } else if state {
        Activate(0, 0);
      } else {
        Deactivate();
      }
    }

    /** Nothing is active and there is nothing to deactivate. */
    ghost predicate Idle(state: bool)
      reads this
    {
      !state && InMinState() && limits == []
    }

    /** Some trip gives no target, so that an "on" call may step the controller. */
    ghost predicate MayStep(hardTarget: bool, state: bool, l: Limit)
      reads this
    {
      state && !hardTarget && !(l.valid && forall x :: x in limits ==> x.valid)
    }

    /** thd_cdev_set_state without PID control and without trip-specific ranges. */
    method SetState(hardTarget: bool, state: bool, l: Limit, force: bool, now: int)
      requires MayStep(hardTarget, state, l) ==> InInt(ClampMin(range, currState, 0) + Increment(incVal, incDecVal))
      modifies this`currState, this`commanded, this`currPow, this`basePowState, this`trendIncrease
      modifies this`lastActionTime, this`lastState, this`limits
      ensures if state then Entered(range, old(limits), limits, l) && limits != []
              else limits == AfterOff(old(limits), l.zone, l.trip)
      ensures NoDuplicates(old(limits)) ==> NoDuplicates(limits)
      ensures var early := !force && old(lastState) && now - old(lastActionTime) <= debounceInterval;
              var d := if old(Idle(state)) then Ignored
                       else if state then OnDecision(range, old(currState), old(limits) == [], limits[|limits| - 1], early)
                       else OffDecision(range, old(limits), l, force);
              && Controls() == Effect(d, hardTarget, state, old(Controls()))
              && commanded == (if d.Ignored? then old(commanded) else if d.Target? then Raw(range, d.value) else currState)
              && (lastActionTime, lastState) == (if d.Ignored? then (old(lastActionTime), old(lastState)) else (now, state))
      // A hard target without limits commands `max`; the raw clamp makes it `min` where the range runs downward.
      ensures state && hardTarget && !limits[|limits| - 1].valid
              && (force || !old(lastState) || now - old(lastActionTime) > debounceInterval) ==>
                currState == commanded == if Forward(range) then range.max else range.min
      // Arbitration: kept by every call, except exactly by an early "on" that added a stronger target.
      ensures old(Arbitrated()) && l.valid && Within(range, l.target) ==>
                var early := state && !force && old(lastState) && now - old(lastActionTime) <= debounceInterval;
                Arbitrated() <==> !early || Strongest(range, limits) == Strongest(range, old(limits))
      // Range safety, over any mix of targets, hard targets and controller steps.
      ensures old(BaseOk(range, Controls()) && Within(range, commanded)) && Toward(range, Increment(incVal, incDecVal))
              && old(MayStep(hardTarget, state, l) ==> InHand(range, Rested(range, Controls()), incVal, incDecVal)) ==>
                BaseOk(range, Controls()) && Within(range, commanded)
    {
      hide Sorted, ClampMin, ClampMax, OffDecision, Entered, Rested, Raw, Strongest, NoDuplicates, AfterOff, InHand,
          BaseOk, Toward, Within, CoolingDevice.Effect;
      var d := Decide(hardTarget, state, l, force, now);
      Enact(hardTarget, state, d, now);
      RawMax(range);
    }

    /** Record the action and put the decision into effect, or do nothing. */
    method Enact(hardTarget: bool, state: bool, d: Decision, now: int)
      requires d.NoTarget? && !hardTarget && state ==> InInt(ClampMin(range, currState, 0) + Increment(incVal, incDecVal))
      modifies this`currState, this`commanded, this`currPow, this`basePowState, this`trendIncrease
      modifies this`lastActionTime, this`lastState
      ensures Controls() == Effect(d, hardTarget, state, old(Controls()))
      ensures d.Target? ==> currState == d.value
      ensures d.NoTarget? && hardTarget ==> currState == Raw(range, range.max)
      ensures d.Ignored? ==> currState == old(currState)
      ensures commanded == if d.Ignored? then old(commanded) else if d.Target? then Raw(range, d.value) else currState
      ensures (lastActionTime, lastState) == if d.Ignored? then (old(lastActionTime), old(lastState)) else (now, state)
      ensures old(BaseOk(range, Controls()) && Within(range, commanded)) && Toward(range, Increment(incVal, incDecVal))
              && (d.NoTarget? && !hardTarget && state ==> old(InHand(range, Rested(range, Controls()), incVal, incDecVal))) ==>
                BaseOk(range, Controls()) && Within(range, commanded)
    {
      hide ClampMin, Rested, Raw, InHand, BaseOk, Toward, Within, CoolingDevice.Effect;
      ghost var c := Controls();
      ghost var safe := BaseOk(range, c) && Within(range, commanded) && Toward(range, Increment(incVal, incDecVal))
                        && (d.NoTarget? && !hardTarget && state ==> InHand(range, Rested(range, c), incVal, incDecVal));
      EffectCurr(d, hardTarget, state, c);
      if d == Ignored { return; }
      lastActionTime, lastState := now, state;
      Apply(hardTarget, state, d);
      if safe { EffectWithin(d, hardTarget, state, c); }
    }

    /** The part of a call that keeps the list and decides. */
    method Decide(hardTarget: bool, state: bool, l: Limit, force: bool, now: int) returns (d: Decision)
      modifies this`limits
      ensures if state then Entered(range, old(limits), limits, l) && limits != []
              else limits == AfterOff(old(limits), l.zone, l.trip)
      ensures NoDuplicates(old(limits)) ==> NoDuplicates(limits)
      ensures d.NoTarget? && state && !hardTarget ==> old(MayStep(hardTarget, state, l))
      ensures d == if old(Idle(state)) then Ignored
                   else if state then
                     OnDecision(range, currState, old(limits) == [], limits[|limits| - 1],
                                !force && lastState && now - lastActionTime <= debounceInterval)
                   else OffDecision(range, old(limits), l, force)
      ensures old(Arbitrated()) && l.valid && Within(range, l.target) ==>
                SentTo(range, d, limits, currState, state && !force && lastState && now - lastActionTime <= debounceInterval)
    {
      hide OnDecision, OffDecision, Entered, NoDuplicates, AfterOff, SentTo, Sorted, Strongest, Within;
      ghost var before := limits;
      if !state && InMinState() && |limits| == 0 {
        OffOfNone(l.zone, l.trip);
        if Arbitrated() { StaysThere(range, limits, currState); }
        return Ignored;
      }
      ghost var early := !force && lastState && now - lastActionTime <= debounceInterval;
      ghost var fits := Arbitrated() && l.valid && Within(range, l.target);
      if state {
        d := TurnOn(l, force, now);
      } else {
        d := TurnOff(l, force);
      }
      if fits { Arbitrates(range, before, limits, currState, state, l, force, early, d); }
    }

    lemma EffectCurr(d: Decision, hardTarget: bool, state: bool, c: Control)
      ensures d.Ignored? ==> Effect(d, hardTarget, state, c) == c
      ensures d.Target? ==> Effect(d, hardTarget, state, c).curr == d.value
      ensures d.NoTarget? && hardTarget ==> Effect(d, hardTarget, state, c).curr == Raw(range, range.max)
    {
    }

    /** No trip on the list gives a target. */
    ghost predicate Untargeted()
      reads this`limits
    {
      forall x :: x in limits ==> !x.valid
    }

    /** A call at `now` is not held back by the debounce interval. */
    ghost predicate InTime(force: bool, now: int)
      reads this`lastState, this`lastActionTime
    {
      force || !lastState || now - lastActionTime > debounceInterval
    }

    /** An "on" call without a target, in good time, steps the controller. */
    method StepOn(l: Limit, force: bool, now: int)
      requires !l.valid && Untargeted() && InTime(force, now)
      requires InInt(ClampMin(range, currState, 0) + Increment(incVal, incDecVal))
      modifies this`currState, this`commanded, this`currPow, this`basePowState, this`trendIncrease
      modifies this`lastActionTime, this`lastState, this`limits
      ensures Untargeted() && lastState && lastActionTime == now && commanded == currState
      ensures Controls() == Raised(range, Rested(range, old(Controls())), incVal, incDecVal, 0, 0)
    {
      hide Raised, Rested;
      ghost var before := limits;
      SetState(false, true, l, force, now);
      EnteredMembers(range, before, limits, l);
    }

    /**
     * A trip without a target that calls "on" again and again, from `min` or after an "off": the first call
     * commands one step, call `n` a boost of 2^min(n - 1, 20) steps from there, clamped.
     */
    method KeepOn(l: Limit, force: bool, times: seq<int>)
      requires !l.valid && Untargeted() && Unboosted(range, Controls()) && Within(range, currState) && |times| >= 1
      requires InTime(force, times[0]) && forall i :: 0 < i < |times| ==> force || times[i] - times[i - 1] > debounceInterval
      requires Toward(range, Increment(incVal, incDecVal)) && range.min != range.max && InInt(range.min)
      requires InInt(range.min + Increment(incVal, incDecVal)) && InInt(range.max + Increment(incVal, incDecVal)) && InInt(range.max)
      requires incVal != 0 || InInt(Sum(First(range, currState, incDecVal), MAX_EXPONENT, incDecVal))
      modifies this`currState, this`commanded, this`currPow, this`basePowState, this`trendIncrease
      modifies this`lastActionTime, this`lastState, this`limits
      ensures commanded == currState && Untargeted()
      ensures var first := First(range, old(currState), Increment(incVal, incDecVal));
              currState == if |times| == 1 then first
                           else BoostState(range, first, Capped(|times| - 1), incVal, incDecVal)
    {
      hide Raises, Raised, Rested, Sum, BoostState, CoolingDevice.Untargeted;
      ghost var c := Controls();
      var i := 0;
      RaisesStep(range, c, incVal, incDecVal, 1);
      while i < |times|
        invariant i <= |times| && Untargeted() && Controls() == Raises(range, c, incVal, incDecVal, i)
        invariant i > 0 ==> commanded == currState && lastState && lastActionTime == times[i - 1]
        invariant i == 0 ==> InTime(force, times[0])
      {
        RunDefined(range, c, incVal, incDecVal, i);
        StepOn(l, force, times[i]);
        i := i + 1;
        RaisesStep(range, c, incVal, incDecVal, i);
      }
      RunFits(range, c.curr, incVal, incDecVal);
      ActivationRun(range, c, incVal, incDecVal, |times|);
    }

    /** An "off" call of the only trip, if any, without a target, steps the controller down. */
    method StepOff(l: Limit, now: int)
      requires !l.valid && Untargeted() && (limits == [] || (|limits| == 1 && Owner(limits[0], l.zone, l.trip)))
      requires Within(range, currState) && range.min != range.max && commanded == currState
      modifies this`currState, this`commanded, this`currPow, this`basePowState, this`trendIncrease
      modifies this`lastActionTime, this`lastState, this`limits
      ensures limits == [] && commanded == currState && Unboosted(range, Controls())
      ensures currState == if autoDownAdjust then range.min else Down(range, old(currState), DownStep(range, decVal, incDecVal))
    {
      hide DownStep;
      assert InMinState() ==> Down(range, currState, DownStep(range, decVal, incDecVal)) == range.min by {
        DownCloses(range, currState, decVal, incDecVal);
      }
      OffOutcome(range, limits, l, false);
      SetState(false, false, l, false, now);
    }

    /**
     * The only trip, without a target, that calls "off" again and again: every call takes one
     * step off the distance from `min` until that is gone, or all of it at once.
     */
    method KeepOff(l: Limit, times: seq<int>)
      requires !l.valid && Untargeted() && (limits == [] || (|limits| == 1 && Owner(limits[0], l.zone, l.trip)))
      requires Within(range, currState) && range.min != range.max && commanded == currState && |times| >= 1
      modifies this`currState, this`commanded, this`currPow, this`basePowState, this`trendIncrease
      modifies this`lastActionTime, this`lastState, this`limits
      ensures limits == [] && commanded == currState && Unboosted(range, Controls())
      ensures var left := Distance(range, old(currState)) - |times| * DownSize(decVal, incDecVal);
              currState == AtDistance(range, if autoDownAdjust || left <= 0 then 0 else left)
    {
      hide Down, DownStep, DownSize, Distance, Within;
      ghost var from, step := currState, DownStep(range, decVal, incDecVal);
      var i := 0;
      while i < |times|
        invariant i <= |times| && commanded == currState && Within(range, currState) && (i > 0 ==> Unboosted(range, Controls()))
        invariant if i == 0 then limits == old(limits) else limits == []
        invariant currState == if autoDownAdjust && i > 0 then range.min else Downs(range, from, step, i)
      {
        DownsStep(range, from, step, i);
        DownCloses(range, currState, decVal, incDecVal);
        MinWithin(range);
        StepOff(l, times[i]);
        i := i + 1;
      }
      DownsExact(range, from, decVal, incDecVal, |times|);
    }

    /** A target, or the hard one, in the middle of a boost does not disturb it: the next step is the one due without it. */
    lemma TargetKeepsBoost(d: Decision, hardTarget: bool, state: bool, c: Control)
      requires d.Target? || (d.NoTarget? && hardTarget)
      requires c.rising && c.pow > 0 && c.curr != range.min && Effect(d, hardTarget, state, c).curr != range.min
      ensures var later := Effect(d, hardTarget, state, c);
              Raised(range, Rested(range, later), incVal, incDecVal, 0, 0) == Raised(range, Rested(range, c), incVal, incDecVal, 0, 0)
                == Control(BoostState(range, c.base, NextPow(c), incVal, incDecVal), NextPow(c), c.base, true)
    {
      hide Boosted;
    }

    /** Whatever a decision leads to is commanded within the range, if a boost is in hand. */
    lemma EffectWithin(d: Decision, hardTarget: bool, state: bool, c: Control)
      requires BaseOk(range, c) && !d.Ignored? && Toward(range, Increment(incVal, incDecVal))
      requires d.NoTarget? && !hardTarget && state ==> InHand(range, Rested(range, c), incVal, incDecVal)
      ensures BaseOk(range, Effect(d, hardTarget, state, c))
      ensures Within(range, if d.Target? then Raw(range, d.value) else Effect(d, hardTarget, state, c).curr)
    {
      hide Raised, Lowered, InHand, DownStep;
      ControlWithin(range, c, incVal, incDecVal, autoDownAdjust, decVal);
    }
  }
}
