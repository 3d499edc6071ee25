/**
 * What the range decoder inverts: an encoder that narrows an interval of whole numbers once
 * per bit. Its stream, decoded with the same probabilities, gives the bits back.
 */
module LzmaCoding {
  import opened LzmaBits
  import opened LzmaRange

  function Shift(n: nat): (r: nat)
    ensures r >= 1
  {
    if n == 0 then 1 else 256 * Shift(n - 1)
  }

  /** Bytes as a number, the most significant first. */
  function Number(bytes: seq<Byte>): nat {
    if bytes == [] then 0 else (bytes[0] as int) * Shift(|bytes| - 1) + Number(bytes[1..])
  }

  /** Quotient and remainder. */
  function Split(v: nat, s: nat): (r: (nat, nat))
    requires s >= 1
    ensures v == r.0 * s + r.1 && r.1 < s
  {
    (v / s, v % s)
  }

  lemma QuotientBelow(v: nat, s: nat, q: nat, r: nat, bound: nat)
    requires v == q * s + r && v < bound * s
    ensures q < bound
  {
    if q >= bound { MulMono(s, bound, q); }
  }

  function Digits(v: nat, n: nat): (r: seq<Byte>)
    requires v < Shift(n)
    ensures |r| == n
  {
    if n == 0 then []
    else
      var d := Split(v, Shift(n - 1));
      QuotientBelow(v, Shift(n - 1), d.0, d.1, 256);
      [d.0] + Digits(d.1, n - 1)
  }

  lemma {:induction false} DigitsNumber(v: nat, n: nat)
    requires v < Shift(n)
    ensures Number(Digits(v, n)) == v
  {
    if n > 0 {
      hide Split;
      var d := Split(v, Shift(n - 1));
      QuotientBelow(v, Shift(n - 1), d.0, d.1, 256);
      DigitsNumber(d.1, n - 1);
      assert Digits(v, n) == [d.0] + Digits(d.1, n - 1);
      assert Digits(v, n)[1..] == Digits(d.1, n - 1);
    }
  }

  lemma {:induction false} NumberBelow(bytes: seq<Byte>)
    ensures Number(bytes) < Shift(|bytes|)
  {
    if bytes != [] {
      NumberBelow(bytes[1..]);
      MulMono(Shift(|bytes| - 1), bytes[0] as int, 255);
    }
  }

  lemma {:induction false} ShiftSum(a: nat, b: nat)
    ensures Shift(a + b) == Shift(a) * Shift(b)
  {
    if a > 0 {
      ShiftSum(a - 1, b);
      assert Shift(a + b) == 256 * Shift(a - 1 + b);
    }
  }

  // ---- The encoder

  /** A bit with its probability of being zero out of 2048, or one without a model. */
  datatype Choice = Coded(p: nat, bit: bool) | Flat(bit: bool)

  predicate ChoicesOk(chs: seq<Choice>) {
    forall i :: 0 <= i < |chs| && chs[i].Coded? ==> ProbOk(chs[i].p)
  }

  /** The numbers from `low` on, in units of which `shifts` bytes have been written out. */
  datatype Interval = Interval(low: nat, width: nat, shifts: nat)

  function Widened(i: Interval): Interval {
    if i.width < 0x100_0000 then Interval(256 * i.low, 256 * i.width, i.shifts + 1) else i
  }

  /** A zero takes the lower part of the interval, a one the upper part. */
  function Narrowed(i: Interval, ch: Choice): Interval {
    match ch
    case Coded(p, bit) =>
      var zero := i.width / 2048 * p;
      if !bit then i.(width := zero) else if zero <= i.width then Interval(i.low + zero, i.width - zero, i.shifts) else i
    case Flat(bit) => Interval(if bit then i.low + i.width / 2 else i.low, i.width / 2, i.shifts)
  }

  function Encode(i: Interval, chs: seq<Choice>): Interval
    decreases |chs|
  {
    if chs == [] then i else Encode(Narrowed(Widened(i), chs[0]), chs[1..])
  }

  function Bits(chs: seq<Choice>): seq<bool> {
    if chs == [] then [] else [chs[0].bit] + Bits(chs[1..])
  }

  // ---- The decoder on its own

  /** One bit: the decision, and the coder after it. */
  function ReadOne(d: Coder, ch: Choice): (r: (bool, Coder))
    requires Ready(d) && (ch.Coded? ==> ProbOk(ch.p))
    ensures CoderOk(r.1)
  {
    match ch
    case Coded(p, _) => (BitOf(d, p), After(d, p))
    case Flat(_) => (DirectOf(d), AfterDirect(d))
  }

  /** The bits read with the given probabilities; the bits of `chs` are not looked at. */
  function ReadBits(c: Coder, chs: seq<Choice>): seq<bool>
    requires CoderOk(c) && ChoicesOk(chs)
    decreases |chs|
  {
    if chs == [] || Dry(c) then []
    else
      var r := ReadOne(Normal(c), chs[0]);
      [r.0] + ReadBits(r.1, chs[1..])
  }

  /** The number the coder has still to place, in units of the last byte of its input. */
  function Value(c: Coder): nat {
    c.code * Shift(|c.inp|) + Number(c.inp)
  }

  /** Normalisation moves one byte from the input to the code and loses nothing. */
  lemma NormalKeepsValue(c: Coder)
    requires CoderOk(c) && !Dry(c) && c.code < c.range
    ensures Value(Normal(c)) == Value(c) && Normal(c).code < Normal(c).range
    ensures Normal(c).range * Shift(|Normal(c).inp|) == c.range * Shift(|c.inp|)
  {
    if c.range < TOP {
      var s := Shift(|c.inp| - 1);
      assert (c.code * 256 + c.inp[0]) * s == c.code * (256 * s) + (c.inp[0] as int) * s;
      assert c.range * 256 * s == c.range * (256 * s);
    }
  }

  // ---- Intervals

  predicate WidthOk(i: Interval) {
    0x1_0000 <= i.width < U32
  }

  lemma NarrowedOk(i: Interval, ch: Choice)
    requires WidthOk(i) && (ch.Coded? ==> ProbOk(ch.p))
    ensures var w := Widened(i); var n := Narrowed(w, ch);
            && WidthOk(w) && w.width >= TOP && WidthOk(n)
            && n.low >= w.low && n.low + n.width <= w.low + w.width && n.shifts == w.shifts
  {
    if ch.Coded? { BoundFits(Coder(Widened(i).width, 0, []), ch.p); }
  }

  /** Encoding stays inside the interval it starts from. */
  lemma {:induction false} EncodeInside(i: Interval, chs: seq<Choice>)
    requires WidthOk(i) && ChoicesOk(chs)
    ensures var f := Encode(i, chs);
            f.shifts >= i.shifts && f.width >= 1 &&
            var s := Shift(f.shifts - i.shifts);
            i.low * s <= f.low && f.low + f.width <= (i.low + i.width) * s
    decreases |chs|
  {
    hide Narrowed, Widened;
    if chs != [] {
      var w := Widened(i);
      var n := Narrowed(w, chs[0]);
      NarrowedOk(i, chs[0]);
      EncodeInside(n, chs[1..]);
      var f := Encode(n, chs[1..]);
      var s := Shift(f.shifts - n.shifts);
      MulMono(s, w.low, n.low);
      MulMono(s, n.low + n.width, w.low + w.width);
      WidenedInside(i, f.shifts - n.shifts);
    }
  }

  lemma WidenedInside(i: Interval, k: nat)
    ensures var w := Widened(i);
            w.shifts >= i.shifts && w.low * Shift(k) == i.low * Shift(k + w.shifts - i.shifts) &&
            (w.low + w.width) * Shift(k) == (i.low + i.width) * Shift(k + w.shifts - i.shifts)
  {
    if i.width < TOP {
      assert Shift(k + 1) == 256 * Shift(k);
      assert 256 * i.low * Shift(k) == i.low * (256 * Shift(k));
      assert 256 * (i.low + i.width) * Shift(k) == (i.low + i.width) * (256 * Shift(k));
    }
  }

  /** What comes before an interval is carried along unchanged. */
  lemma {:induction false} EncodeFrom(i: Interval, chs: seq<Choice>)
    requires WidthOk(i) && ChoicesOk(chs)
    ensures var f, g := Encode(i, chs), Encode(Interval(0, i.width, 0), chs);
            f == Interval(i.low * Shift(g.shifts) + g.low, g.width, i.shifts + g.shifts)
    decreases |chs|
  {
    hide Shift;
    assert Shift(0) == 1 by { ShiftBase(); }
    if chs != [] {
      var zero := Interval(0, i.width, 0);
      var a, b := Narrowed(Widened(i), chs[0]), Narrowed(Widened(zero), chs[0]);
      NarrowedOk(i, chs[0]);
      NarrowedOk(zero, chs[0]);
      EncodeFrom(a, chs[1..]);
      EncodeFrom(b, chs[1..]);
      var g := Encode(Interval(0, a.width, 0), chs[1..]);
      NarrowedFrom(i, chs[0]);
      var s := Shift(g.shifts);
      Carried(i.low, b.low, Shift(b.shifts), s);
      ShiftSum(b.shifts, g.shifts);
    }
  }

  lemma ShiftBase()
    ensures Shift(0) == 1 && Shift(1) == 256
  {
  }

  lemma NarrowedFrom(i: Interval, ch: Choice)
    requires WidthOk(i) && (ch.Coded? ==> ProbOk(ch.p))
    ensures var a, b := Narrowed(Widened(i), ch), Narrowed(Widened(Interval(0, i.width, 0)), ch);
            a == Interval(i.low * Shift(b.shifts) + b.low, b.width, i.shifts + b.shifts)
  {
    NarrowedOk(i, ch);
    ShiftBase();
  }

  lemma Carried(low: nat, b: nat, t: nat, s: nat)
    ensures (low * t + b) * s == low * (t * s) + b * s
  {
  }

  // ---- Decoding inverts encoding

  /** The code lies in the part of the range that the encoder chose, so the decoder chooses it too. */
  lemma CodePlaced(code: nat, tail: nat, s: nat, low: nat, width: nat)
    requires tail < s && low * s <= code * s + tail < (low + width) * s
    ensures low <= code < low + width
  {
    var next: nat, end: nat := code + 1, low + width;
    assert next * s == code * s + s;
    if code < low {
      MulMono(s, next, low);
    } else if code >= end {
      MulMono(s, end, code);
    }
  }

  lemma ShiftApart(v: nat, low: nat, n: nat, gLow: nat, gWidth: nat, k: nat)
    requires k <= n
    ensures (low * Shift(k) + gLow) * Shift(n - k) == low * Shift(n) + gLow * Shift(n - k)
    ensures (low * Shift(k) + gLow + gWidth) * Shift(n - k) == low * Shift(n) + (gLow + gWidth) * Shift(n - k)
  {
    ShiftSum(k, n - k);
    Carried(low, gLow, Shift(k), Shift(n - k));
    Carried(low, gLow + gWidth, Shift(k), Shift(n - k));
  }

  /** The value of the coder lies in the interval encoded from its range, whose bytes are all there. */
  ghost predicate Placed(c: Coder, chs: seq<Choice>) {
    var f := Encode(Interval(0, c.range, 0), chs);
    && f.shifts <= |c.inp|
    && f.low * Shift(|c.inp| - f.shifts) <= Value(c) < (f.low + f.width) * Shift(|c.inp| - f.shifts)
  }

  /** The coder after a choice, by what the encoder did. */
  function Chosen(c: Coder, n: Interval): Coder
    requires n.low <= c.code
  {
    Coder(n.width, c.code - n.low, c.inp)
  }

  lemma ChosenIsRead(c: Coder, ch: Choice)
    requires Ready(c) && c.code < c.range && (ch.Coded? ==> ProbOk(ch.p))
    requires var n := Narrowed(Interval(0, c.range, 0), ch); n.low <= c.code < n.low + n.width
    ensures ReadOne(c, ch) == (ch.bit, Chosen(c, Narrowed(Interval(0, c.range, 0), ch)))
  {
    match ch
    case Coded(p, _) => BoundFits(c, p);
    case Flat(_) => DirectIsComparison(c);
  }

  lemma {:induction false} ReadsBack(c: Coder, chs: seq<Choice>)
    requires CoderOk(c) && c.code < c.range && ChoicesOk(chs) && Placed(c, chs)
    ensures ReadBits(c, chs) == Bits(chs)
    decreases |chs|
  {
    hide Narrowed, ReadOne, Normal, Shift, Value;
    if chs != [] {
      ReadsOne(c, chs);
    }
  }

  lemma {:induction false} ReadsOne(c: Coder, chs: seq<Choice>)
    requires CoderOk(c) && c.code < c.range && ChoicesOk(chs) && Placed(c, chs) && chs != []
    ensures ReadBits(c, chs) == Bits(chs)
    decreases |chs|, 0
  {
    hide Narrowed, ReadOne, Shift, Value;
    var ch, rest := chs[0], chs[1..];
    var zero := Interval(0, c.range, 0);
    NarrowedOk(zero, ch);
    EncodeFrom(Narrowed(Widened(zero), ch), rest);
    assert !Dry(c) && Widened(zero).width == Normal(c).range;
    var d := Normal(c);
    var n := Narrowed(Interval(0, d.range, 0), ch);
    assert Narrowed(Widened(zero), ch) == n.(shifts := |c.inp| - |d.inp|) by { NarrowedShift(c, ch); }
    NormalKeepsValue(c);
    var g := Encode(Interval(0, n.width, 0), rest);
    EncodeInside(Interval(0, n.width, 0), rest);
    NextPlaced(d, n, g);
    ChosenIsRead(d, ch);
    ReadsBack(Chosen(d, n), rest);
  }

  lemma NarrowedShift(c: Coder, ch: Choice)
    requires CoderOk(c) && !Dry(c)
    ensures var d := Normal(c);
            Narrowed(Widened(Interval(0, c.range, 0)), ch) ==
            Narrowed(Interval(0, d.range, 0), ch).(shifts := |c.inp| - |d.inp|)
  {
  }

  /** Taking the chosen part off keeps the value in the interval of the rest. */
  lemma NextPlaced(d: Coder, n: Interval, g: Interval)
    requires g.shifts <= |d.inp| && g.low + g.width <= n.width * Shift(g.shifts)
    requires var m := Shift(|d.inp| - g.shifts);
             (n.low * Shift(g.shifts) + g.low) * m <= Value(d) < (n.low * Shift(g.shifts) + g.low + g.width) * m
    ensures n.low <= d.code < n.low + n.width
    ensures var m := Shift(|d.inp| - g.shifts);
            g.low * m <= Value(Chosen(d, n)) < (g.low + g.width) * m
  {
    var k := |d.inp|;
    var m, s := Shift(k - g.shifts), Shift(k);
    ShiftApart(Value(d), n.low, k, g.low, g.width, g.shifts);
    ShiftSum(g.shifts, k - g.shifts);
    NumberBelow(d.inp);
    RestPlaced(d.code, Number(d.inp), s, m, Shift(g.shifts), n.low, n.width, g.low, g.width);
  }

  lemma RestPlaced(code: nat, tail: nat, s: nat, m: nat, t: nat, low: nat, width: nat, gLow: nat, gWidth: nat)
    requires tail < s && s == t * m && gLow + gWidth <= width * t
    requires low * s + gLow * m <= code * s + tail < low * s + (gLow + gWidth) * m
    ensures low <= code < low + width
    ensures gLow * m <= (code - low) * s + tail < (gLow + gWidth) * m
  {
    MulMono(m, gLow + gWidth, width * t);
    Reorder(width, t, m);
    assert (low + width) * s == low * s + width * s;
    CodePlaced(code, tail, s, low, width);
    assert (code - low) * s == code * s - low * s;
  }

  lemma Reorder(a: nat, b: nat, c: nat)
    ensures a * b * c == a * (b * c)
  {
  }

  // ---- Round trip

  const WHOLE := Interval(0, U32 - 1, 0)

  /** The coder that starts on the encoded stream: the lowest number of the interval, in bytes. */
  function Encoded(chs: seq<Choice>): (c: Coder)
    requires ChoicesOk(chs)
    ensures CoderOk(c) && c.code < c.range
  {
    var f := Encode(WHOLE, chs);
    var d := Split(f.low, Shift(f.shifts));
    EncodeInside(WHOLE, chs);
    QuotientBelow(f.low, Shift(f.shifts), d.0, d.1, U32 - 1);
    Coder(U32 - 1, d.0, Digits(d.1, f.shifts))
  }

  /** Every sequence of bits, coded with any probabilities the model can take, is read back. */
  lemma RoundTrip(chs: seq<Choice>)
    requires ChoicesOk(chs)
    ensures ReadBits(Encoded(chs), chs) == Bits(chs)
  {
    hide Encode, ReadBits, Digits, Split;
    var f, c := Encode(WHOLE, chs), Encoded(chs);
    EncodeInside(WHOLE, chs);
    DigitsNumber(Split(f.low, Shift(f.shifts)).1, f.shifts);
    assert Value(c) == f.low;
    ReadsBack(c, chs);
  }
}
