/**
 * The RAPL energy meter: a hardware counter that wraps, read now and then, is unrolled into
 * a sum that does not. The kernel answers in microjoules, the meter keeps millijoules.
 * Power figures are not modelled.
 */
module Rapl {

  datatype Kind = Invalid | Package | Dram | Core | Uncore

  /** One energy domain as the meter keeps it. */
  datatype Domain = Domain(kind: Kind, maxRange: nat, threshold: nat, halfWay: bool, cumulative: nat, counter: nat)

  function Fresh(kind: Kind): Domain {
    Domain(kind, 0, 0, false, 0, 0)
  }

  /** What the kernel answers when a file is read; a failed read carries no value. */
  datatype Read = Failed | Value(microjoules: nat)
  datatype Sample = Sample(rangeRead: Read, energyRead: Read)

  function Milli(microjoules: nat): nat {
    microjoules / 1000
  }

  /** The range is asked for as long as it is zero. */
  function Ranged(d: Domain, read: Read): Domain {
    if d.maxRange != 0 then d
    else
      var range := if read.Value? then Milli(read.microjoules) else d.maxRange;
      d.(maxRange := range, threshold := range / 2)
  }

  /** One reading: past the middle before and short of it now is taken for a wrap. */
  function Counted(d: Domain, now: nat): Domain {
    if d.halfWay && now < d.threshold then d.(counter := now, cumulative := d.cumulative + d.maxRange, halfWay := false)
    else d.(counter := now, halfWay := d.halfWay || now > d.threshold)
  }

  function Sampled(d: Domain, s: Sample): Domain {
    var e := Ranged(d, s.rangeRead);
    if s.energyRead.Value? then Counted(e, Milli(s.energyRead.microjoules)) else e
  }

  /** The millijoules a user of the meter sees. */
  function Total(d: Domain): nat {
    d.cumulative + d.counter
  }

  // ---- One domain against the true energy

  /**
   * The domain stands where a counter of `range` microjoules stands after `energy`
   * microjoules, with every wrap accounted for, and `halfWay` is "last counter above threshold".
   */
  ghost predicate Tracks(d: Domain, range: nat, energy: nat)
    requires range >= 1000
  {
    && d.maxRange == Milli(range) && d.threshold == Milli(range) / 2
    && d.counter == Milli(energy % range)
    && d.cumulative == energy / range * Milli(range)
    && d.halfWay == (d.counter > d.threshold)
  }

  /** How far the energy may advance, from a counter at `c`, before the meter loses a wrap. */
  function Margin(range: nat, c: nat): int {
    if Milli(c) > Milli(range) / 2 then range - c + 1000 * (Milli(range) / 2) else range - c
  }

  lemma AtLeastOnce(k: nat, range: nat)
    ensures k >= 1 ==> k * range >= range
    ensures k >= 2 ==> k * range >= 2 * range
  {
    if k >= 1 { assert k * range == range + (k - 1) * range; }
    if k >= 2 { assert (k - 1) * range == range + (k - 2) * range; }
  }

  /** Quotient and remainder are the only ones. */
  lemma QuotientUnique(x: nat, range: nat, q: nat, c: nat)
    requires range > 0 && x == q * range + c && c < range
    ensures x / range == q && x % range == c
  {
    var p, b := x / range, x % range;
    Quotients(range, p, b, q, c);
  }

  lemma Quotients(range: nat, p: nat, b: nat, q: nat, c: nat)
    requires b < range && c < range && p * range + b == q * range + c
    ensures p == q && b == c
  {
    assert p * range - q * range == (p - q) * range;
    if p > q {
      AtLeastOnce(p - q, range);
    } else if q > p {
      AtLeastOnce(q - p, range);
    }
  }

  /** An advance adds to the remainder, less the range for every wrap. */
  lemma DivSteps(range: nat, energy: nat, advance: nat) returns (wraps: nat)
    requires range > 0
    ensures (energy + advance) / range == energy / range + wraps
    ensures (energy + advance) % range == energy % range + advance - wraps * range
    ensures wraps == 0 <==> energy % range + advance < range
    ensures wraps >= 2 ==> energy % range + advance >= 2 * range
  {
    var q, c := Divide(energy, range);
    var left;
    wraps, left := Divide(c + advance, range);
    AddQuotients(energy, advance, range, q, c, wraps, left);
    QuotientUnique(energy + advance, range, q + wraps, left);
    WrapBounds(wraps, range, c + advance, left);
  }

  lemma Divide(x: nat, range: nat) returns (q: nat, c: nat)
    requires range > 0
    ensures q == x / range && c == x % range && c < range && x == q * range + c
  {
    q, c := x / range, x % range;
  }

  lemma WrapBounds(wraps: nat, range: nat, rest: nat, left: nat)
    requires left < range && rest == wraps * range + left
    ensures wraps == 0 <==> rest < range
    ensures wraps >= 2 ==> rest >= 2 * range
  {
    AtLeastOnce(wraps, range);
  }

  lemma AddQuotients(energy: nat, advance: nat, range: nat, q: nat, c: nat, wraps: nat, left: nat)
    requires energy == q * range + c && c + advance == wraps * range + left
    ensures energy + advance == (q + wraps) * range + left
  {
    assert (q + wraps) * range == q * range + wraps * range;
  }

  /** A reading keeps the account exact if and only if the energy advanced by less than the margin. */
  lemma ReadingExact(d: Domain, range: nat, energy: nat, advance: nat)
    requires range >= 1000 && Tracks(d, range, energy)
    ensures Tracks(Counted(d, Milli((energy + advance) % range)), range, energy + advance)
            <==> advance < Margin(range, energy % range)
  {
    var wraps := DivSteps(range, energy, advance);
    var m := Milli(range);
    assert (energy / range + wraps) * m == energy / range * m + wraps * m;
    AtLeastOnce(wraps, m);
    AtLeastOnce(wraps, range);
    assert wraps == 1 ==> wraps * m == m && wraps * range == range;
  }

  /** Less than half the range, less the rounding to millijoules, is below every margin. */
  lemma HalfRangeIsSafe(range: nat, energy: nat, advance: nat)
    requires range >= 1000 && 2 * advance + 2000 <= range
    ensures advance < Margin(range, energy % range)
  {
  }

  /** `Margin` of a range and a counter of whole millijoules, in millijoules. */
  function MilliMargin(range: nat, c: nat): int {
    if c > range / 2 then range - c + range / 2 else range - c
  }

  /** In whole millijoules, an advance is safe wherever the counter stands exactly when it is below half the range. */
  lemma HalfRangeIsTight(range: nat, advance: nat)
    requires range >= 1
    ensures (forall c: nat :: c < range ==> advance < MilliMargin(range, c)) <==> 2 * advance < range
    ensures forall c: nat :: c < range ==> Margin(1000 * range, 1000 * c) == 1000 * MilliMargin(range, c)
  {
    if 2 * advance < range {
      forall c: nat | c < range ensures advance < MilliMargin(range, c) {
      }
    } else {
      assert !(advance < MilliMargin(range, range / 2));
    }
  }

  /**
   * What tracking means for the user: the shown millijoules differ from the true energy by the
   * rounding of the last reading and of the range, once per wrap.
   */
  lemma TracksEnergy(d: Domain, range: nat, energy: nat)
    requires range >= 1000 && Tracks(d, range, energy)
    ensures energy == 1000 * Total(d) + energy % range % 1000 + energy / range * (range % 1000)
    ensures range % 1000 == 0 ==> Total(d) == Milli(energy)
  {
    var q, c, m := energy / range, energy % range, Milli(range);
    assert energy == q * range + c;
    assert range == 1000 * m + range % 1000;
    assert q * range == 1000 * (q * m) + q * (range % 1000) by {
      assert q * range == q * (1000 * m + range % 1000);
    }
    if range % 1000 == 0 {
      assert q * (range % 1000) == 0;
    }
  }

  // ---- Runs of one domain

  /** The true energy at a sample, and whether the kernel answered with it. */
  datatype Tick = Tick(energy: nat, answered: bool)

  function Answer(t: Tick, range: nat): Sample
    requires range > 0
  {
    Sample(Value(range), if t.answered then Value(t.energy % range) else Failed)
  }

  function Metered(d: Domain, range: nat, ticks: seq<Tick>): Domain
    requires range > 0
    decreases |ticks|
  {
    if ticks == [] then d else Metered(Sampled(d, Answer(ticks[0], range)), range, ticks[1..])
  }

  /** The true energy at the last answered tick. */
  function LastEnergy(energy: nat, ticks: seq<Tick>): nat
    decreases |ticks|
  {
    if ticks == [] then energy
    else LastEnergy(if ticks[0].answered then ticks[0].energy else energy, ticks[1..])
  }

  /** Between answered ticks the energy grows, by less than half the range. */
  predicate Steady(range: nat, energy: nat, ticks: seq<Tick>)
    decreases |ticks|
  {
    ticks == [] ||
    if ticks[0].answered then
      ticks[0].energy >= energy && 2 * (ticks[0].energy - energy) + 2000 <= range && Steady(range, ticks[0].energy, ticks[1..])
    else Steady(range, energy, ticks[1..])
  }

  /** A domain in use ignores the range read, and counts an answered energy. */
  lemma AnswerIs(d: Domain, range: nat, energy: nat, t: Tick)
    requires range >= 1000 && Tracks(d, range, energy)
    ensures Sampled(d, Answer(t, range)) == if t.answered then Counted(d, Milli(t.energy % range)) else d
  {
  }

  /** Over any number of samples and wraps, answered or not, the account stays exact. */
  lemma {:induction false} MeteredTracks(d: Domain, range: nat, energy: nat, ticks: seq<Tick>)
    requires range >= 1000 && Tracks(d, range, energy) && Steady(range, energy, ticks)
    ensures Tracks(Metered(d, range, ticks), range, LastEnergy(energy, ticks))
    decreases |ticks|
  {
    hide Tracks, Counted;
    if ticks != [] {
      var t := ticks[0];
      if t.answered {
        HalfRangeIsSafe(range, energy, t.energy - energy);
        ReadingExact(d, range, energy, t.energy - energy);
        AnswerIs(d, range, energy, t);
        MeteredTracks(Sampled(d, Answer(t, range)), range, t.energy, ticks[1..]);
      } else {
        AnswerIs(d, range, energy, t);
        MeteredTracks(d, range, energy, ticks[1..]);
      }
    }
  }

  /**
   * Energy conservation from the first reading on: the shown total is the first reading plus
   * the energy used since, exactly when the range is whole millijoules.
   */
  lemma EnergyConserved(kind: Kind, range: nat, first: nat, ticks: seq<Tick>)
    requires range >= 1000 && first < range && Steady(range, first, ticks)
    ensures var d := Metered(Fresh(kind), range, [Tick(first, true)] + ticks);
            var energy := LastEnergy(first, ticks);
            && Tracks(d, range, energy)
            && energy == 1000 * Total(d) + energy % range % 1000 + energy / range * (range % 1000)
            && (range % 1000 == 0 ==> Total(d) == Milli(energy))
  {
    var start := Tick(first, true);
    var d := Sampled(Fresh(kind), Answer(start, range));
    QuotientUnique(first, range, 0, first);
    assert Tracks(d, range, first);
    assert ([start] + ticks)[1..] == ticks;
    MeteredTracks(d, range, first, ticks);
    TracksEnergy(Metered(d, range, ticks), range, LastEnergy(first, ticks));
  }

  /**
   * A range that could not be read together with the first energy spoils the account: unless the
   * first reading was zero, a second one short of the middle is mistaken for a wrap.
   */
  lemma LateRange(kind: Kind, range: nat, first: nat, second: nat)
    requires range >= 1000
    ensures var d := Sampled(Sampled(Fresh(kind), Sample(Failed, Value(first))), Sample(Value(range), Value(second)));
            Total(d) == Milli(second) <==> Milli(first) == 0 || Milli(second) >= Milli(range) / 2
  {
    var d := Sampled(Fresh(kind), Sample(Failed, Value(first)));
    assert d.maxRange == 0 && d.halfWay == (Milli(first) > 0);
  }

  // ---- The meter

  /** The first domain of a kind, or one past the last when there is none. */
  function FirstOf(ds: seq<Domain>, kind: Kind): (r: nat)
    ensures r <= |ds| && (r < |ds| ==> ds[r].kind == kind)
    ensures forall j :: 0 <= j < r ==> ds[j].kind != kind
  {
    if ds == [] || ds[0].kind == kind then 0 else 1 + FirstOf(ds[1..], kind)
  }

  /** Each domain took its own sample. */
  ghost predicate AllSampled(before: seq<Domain>, after: seq<Domain>, samples: seq<Sample>) {
    && |before| == |after| == |samples|
    && forall i :: 0 <= i < |after| ==> after[i] == Sampled(before[i], samples[i])
  }

  class PowerMeter {
    var domains: seq<Domain>
    var lastTime: int
    var enabled: bool

    constructor (kinds: seq<Kind>, now: int)
      ensures |domains| == |kinds| && forall i :: 0 <= i < |kinds| ==> domains[i] == Fresh(kinds[i])
      ensures lastTime == now && !enabled
    {
      domains := seq(|kinds|, i requires 0 <= i < |kinds| => Fresh(kinds[i]));
      lastTime, enabled := now, false;
    }

    /** rapl_energy_loop: sample every domain, at most once per second, while measuring is on. */
    method EnergyLoop(now: int, samples: seq<Sample>) returns (again: bool)
      requires |samples| == |domains|
      modifies this`domains, this`lastTime
      ensures again == enabled
      ensures if enabled && now > old(lastTime) then AllSampled(old(domains), domains, samples) && lastTime == now
              else domains == old(domains) && lastTime == old(lastTime)
      ensures |domains| == |old(domains)| && forall i :: 0 <= i < |domains| ==> domains[i].kind == old(domains)[i].kind
    {
      if !enabled { return false; }
      if now - lastTime <= 0 { return true; }
      var i := 0;
      while i < |domains|
        invariant i <= |domains| == |old(domains)|
        invariant forall j :: 0 <= j < i ==> domains[j] == Sampled(old(domains)[j], samples[j])
        invariant forall j :: i <= j < |domains| ==> domains[j] == old(domains)[j]
      {
        var d := domains[i];
        if d.maxRange == 0 {
          if samples[i].rangeRead.Value? {
            d := d.(maxRange := samples[i].rangeRead.microjoules / 1000);
          }
          d := d.(threshold := d.maxRange / 2);
        }
        if samples[i].energyRead.Value? {
          d := d.(counter := samples[i].energyRead.microjoules / 1000);
          if d.halfWay && d.counter < d.threshold {
            d := d.(cumulative := d.cumulative + d.maxRange, halfWay := false);
          } else if d.counter > d.threshold {
            d := d.(halfWay := true);
          }
        }
        domains := domains[i := d];
        i := i + 1;
      }
      lastTime := now;
      again := true;
    }

    /** The energy of the first domain of a kind in microjoules; a zero total is sampled once more. */
    method GetEnergy(kind: Kind, now: int, samples: seq<Sample>) returns (value: nat)
      requires |samples| == |domains|
      modifies this`domains, this`lastTime
      ensures |domains| == |old(domains)| && forall i :: 0 <= i < |domains| ==> domains[i].kind == old(domains)[i].kind
      ensures var i := FirstOf(old(domains), kind);
              var due := i < |old(domains)| && Total(old(domains)[i]) == 0 && enabled && now > old(lastTime);
              && value == (if i < |domains| then 1000 * Total(domains[i]) else 0)
              && lastTime == (if due then now else old(lastTime))
              && if due then AllSampled(old(domains), domains, samples) else domains == old(domains)
    {
      hide AllSampled;
      value := 0;
      var i := 0;
      while i < |domains|
        invariant i <= |domains| && domains == old(domains) && lastTime == old(lastTime) && value == 0
        invariant i <= FirstOf(domains, kind)
      {
        if domains[i].kind == kind {
          value := (domains[i].counter + domains[i].cumulative) * 1000;
          if value == 0 {
            var _ := EnergyLoop(now, samples);
            value := (domains[i].counter + domains[i].cumulative) * 1000;
          }
          return;
        }
        i := i + 1;
      }
    }
  }
}
