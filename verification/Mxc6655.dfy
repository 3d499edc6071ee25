/**
 * The dual-accelerometer driver: tablet-mode and orientation debouncing, forced landscape
 * in laptop mode, and the poll timer gated by claims and the lid. Angles are real numbers;
 * `emitted` records the orientation of every reading handed to the callback.
 */
module Mxc6655 {
  import opened Wrappers

  const DEBOUNCE := 5
  const LAPTOP := 0
  const TABLET := 1
  const UNSET := -1
  const RIGHT := 3

  // ---- Panel compensation and readings

  /** The remainder of C, which takes the sign of the dividend. */
  function CRem(a: int, b: int): int
    requires b > 0
  {
    if a >= 0 then a % b else -((-a) % b)
  }

  function PanelOrientDegrees(drmOrient: int): int {
    match drmOrient
    case 2 => 90
    case 1 => 180
    case 3 => 270
    case _ => 0
  }

  predicate PanelOk(deg: int) {
    deg == 0 || deg == 90 || deg == 180 || deg == 270
  }

  function ComposeOrientation(orient: int, panelDeg: int): int {
    CRem(CRem(orient * 90 - panelDeg, 360) + 360, 360) / 90
  }

  lemma RemSmall(a: int)
    requires -360 < a < 720
    ensures CRem(a, 360) == if a >= 360 then a - 360 else a
  {
  }

  lemma ComposeCases(orient: int, panelDeg: int)
    requires 0 <= orient < 4 && PanelOk(panelDeg)
    ensures ComposeOrientation(orient, panelDeg) == (orient - panelDeg / 90) % 4
  {
    hide CRem;
    var q := if panelDeg == 0 then 0 else if panelDeg == 90 then 1 else if panelDeg == 180 then 2 else 3;
    assert panelDeg == 90 * q;
    var k := orient - q;
    RemSmall(90 * k);
    RemSmall(90 * k + 360);
    Quarters(if k >= 0 then k else k + 4);
    Quarters(q);
  }

  lemma Quarters(k: nat)
    ensures 90 * k / 90 == k
  {
  }

  lemma PanelDegreesOk(drmOrient: int)
    ensures PanelOk(PanelOrientDegrees(drmOrient))
  {
  }

  /** Compensation is a rotation: quarter turns are subtracted modulo four, so it can be undone. */
  lemma ComposeIsRotation(orient: int, drmOrient: int)
    requires 0 <= orient < 4
    ensures var q := PanelOrientDegrees(drmOrient) / 90;
            var r := ComposeOrientation(orient, PanelOrientDegrees(drmOrient));
            0 <= r < 4 && r == (orient - q) % 4 && (r + q) % 4 == orient
  {
    hide ComposeOrientation, PanelOrientDegrees;
    var deg := PanelOrientDegrees(drmOrient);
    PanelDegreesOk(drmOrient);
    ComposeCases(orient, deg);
    assert 0 <= deg / 90 < 4;
  }

  datatype AccelReadings = AccelReadings(x: int, y: int, z: int)

  function BuildSyntheticReadings(orient: int): AccelReadings {
    match orient
    case 2 => AccelReadings(0, 256, 0)
    case 1 => AccelReadings(256, 0, 0)
    case 3 => AccelReadings(-256, 0, 0)
    case _ => AccelReadings(0, -256, 0)
  }

  /** The reading determines the orientation. */
  lemma ReadingsDiffer(a: int, b: int)
    requires 0 <= a < 4 && 0 <= b < 4
    ensures BuildSyntheticReadings(a) == BuildSyntheticReadings(b) <==> a == b
  {
  }

  /** The readings are those of one gravity: upright it points down the y axis, and each further orientation is a quarter turn. */
  lemma ReadingsTurn(orient: int)
    requires 0 <= orient < 4
    ensures BuildSyntheticReadings(0) == AccelReadings(0, -256, 0)
    ensures var g := BuildSyntheticReadings(orient);
            BuildSyntheticReadings((orient + 1) % 4) == AccelReadings(-g.y, g.x, 0) && g.z == 0
  {
  }

  /** Where landscape ends up on a panel: upright 3, upside down 1, left side up 2, right side up 0. */
  lemma LandscapeOfPanel()
    ensures ComposeOrientation(RIGHT, PanelOrientDegrees(0)) == 3
    ensures ComposeOrientation(RIGHT, PanelOrientDegrees(1)) == 1
    ensures ComposeOrientation(RIGHT, PanelOrientDegrees(2)) == 2
    ensures ComposeOrientation(RIGHT, PanelOrientDegrees(3)) == 0
    ensures forall drm :: drm != 1 && drm != 2 && drm != 3 ==> PanelOrientDegrees(drm) == PanelOrientDegrees(0)
  {
    ComposeIsRotation(RIGHT, 0);
    ComposeIsRotation(RIGHT, 1);
    ComposeIsRotation(RIGHT, 2);
    ComposeIsRotation(RIGHT, 3);
  }

  // ---- The reference: the most recent run of six equal samples

  /** Length of the run of `c` at the end of `h`. */
  function Trailing(h: seq<int>, c: int): nat
  {
    if h == [] || h[|h| - 1] != c then 0 else 1 + Trailing(h[..|h| - 1], c)
  }

  /** The value of the most recent six consecutive equal samples that count as votes, or `start`. */
  function LastRun(h: seq<int>, start: int): int {
    if h == [] then start
    else if h[|h| - 1] >= 0 && Trailing(h, h[|h| - 1]) > DEBOUNCE then h[|h| - 1]
    else LastRun(h[..|h| - 1], start)
  }

  lemma TrailingStep(h: seq<int>, v: int, c: int)
    ensures Trailing(h + [v], c) == if v == c then 1 + Trailing(h, c) else 0
  {
    assert (h + [v])[..|h|] == h;
  }

  lemma LastRunStep(h: seq<int>, v: int, start: int)
    ensures LastRun(h + [v], start) == if v >= 0 && Trailing(h, v) >= DEBOUNCE then v else LastRun(h, start)
  {
    assert (h + [v])[..|h|] == h;
    TrailingStep(h, v, v);
  }

  /** What one more vote does to the reference and to the runs at the end. */
  ghost predicate Voted(h: seq<int>, v: int, g: seq<int>) {
    && g == h + [v]
    && LastRun(g, UNSET) == (if v >= 0 && Trailing(h, v) >= DEBOUNCE then v else LastRun(h, UNSET))
    && Trailing(g, TABLET) == (if v == TABLET then 1 + Trailing(h, TABLET) else 0)
    && Trailing(g, LAPTOP) == (if v == LAPTOP then 1 + Trailing(h, LAPTOP) else 0)
    && Trailing(g, UNSET) == (if v == UNSET then 1 + Trailing(h, UNSET) else 0)
  }

  /** The six samples that end at position `i` are all `c`. */
  ghost predicate SixAt(h: seq<int>, i: int, c: int) {
    6 <= i <= |h| && forall k :: i - 6 <= k < i ==> h[k] == c
  }

  ghost predicate NoSix(h: seq<int>, from: int) {
    forall i, c :: from < i <= |h| && c >= 0 ==> !SixAt(h, i, c)
  }

  /** What `LastRun` means: the vote cast six times in a row with no other such run after it. */
  lemma {:induction false} LastRunMeaning(h: seq<int>, start: int)
    ensures (NoSix(h, 0) && LastRun(h, start) == start)
            || exists i :: SixAt(h, i, LastRun(h, start)) && LastRun(h, start) >= 0 && NoSix(h, i)
  {
    if h != [] {
      var n, v := |h| - 1, h[|h| - 1];
      TrailingIsRun(h, v);
      if v >= 0 && Trailing(h, v) > DEBOUNCE {
        assert SixAt(h, |h|, v) && NoSix(h, |h|);
      } else {
        LastRunMeaning(h[..n], start);
        forall c | c >= 0 ensures !SixAt(h, |h|, c) { TrailingIsRun(h, c); }
        forall j, c | 0 < j <= n ensures SixAt(h, j, c) == SixAt(h[..n], j, c) { SixInPrefix(h, n, j, c); }
        if i :| SixAt(h[..n], i, LastRun(h[..n], start)) && NoSix(h[..n], i) {
          assert SixAt(h, i, LastRun(h, start)) && NoSix(h, i);
        }
      }
    }
  }

  lemma SixInPrefix(h: seq<int>, n: int, j: int, c: int)
    requires 0 < j <= n <= |h|
    ensures SixAt(h, j, c) == SixAt(h[..n], j, c)
  {
  }

  lemma {:induction false} TrailingIsRun(h: seq<int>, c: int)
    ensures Trailing(h, c) <= |h|
    ensures forall k :: |h| - Trailing(h, c) <= k < |h| ==> h[k] == c
    ensures Trailing(h, c) < |h| ==> h[|h| - 1 - Trailing(h, c)] != c
    ensures Trailing(h, c) > DEBOUNCE <==> SixAt(h, |h|, c)
  {
    if h != [] && h[|h| - 1] == c {
      TrailingIsRun(h[..|h| - 1], c);
    }
  }

  /** The debounce registers after the samples `seen`. */
  ghost predicate Debounced(seen: seq<int>, cur: int, pending: int, debounce: int) {
    && cur == LastRun(seen, -1) >= -1
    && pending == (if seen == [] then -1 else seen[|seen| - 1])
    && (if pending == cur then debounce == 0 else debounce == Trailing(seen, pending) <= DEBOUNCE)
  }

  /** A sample restarts, continues or completes a run. */
  lemma DebounceStep(seen: seq<int>, cur: int, pending: int, debounce: int, v: int)
    requires Debounced(seen, cur, pending, debounce) && v >= 0
    ensures v != pending ==> Debounced(seen + [v], cur, v, if v != cur then 1 else 0)
    ensures v == pending == cur ==> Debounced(seen + [v], cur, v, debounce)
    ensures v == pending != cur ==>
              if debounce + 1 > DEBOUNCE then Debounced(seen + [v], v, v, 0) else Debounced(seen + [v], cur, v, debounce + 1)
  {
    LastRunStep(seen, v, -1);
    TrailingStep(seen, v, v);
    if v != pending { TrailingNone(seen, v); }
  }

  // ---- The driver object

  /** One poll: the classified orientation when the filters accept the sample, the hinge angle when gravity lets it be computed. */
  datatype Sample = Sample(orient: Option<int>, angle: Option<real>)

  predicate SampleOk(s: Sample) {
    s.orient.Some? ==> 0 <= s.orient.value < 4
  }

  /** How an angle votes on the mode; angles at or below the minimum do not count at all. */
  function Vote(angle: real, tabletThresh: real, laptopThresh: real, minAngle: real): Option<int> {
    if angle > tabletThresh then Some(TABLET)
    else if angle >= laptopThresh then Some(UNSET)
    else if angle > minAngle then Some(LAPTOP)
    else None
  }

  // ---- Tablet mode by the angles themselves

  datatype Thresholds = Thresholds(tablet: real, laptop: real, min: real)

  /** The hinge is open past the tablet threshold. */
  predicate Folded(th: Thresholds, angle: real) {
    angle > th.tablet
  }

  /** The hinge is open like a laptop: past the minimum, short of the laptop threshold. */
  predicate Unfolded(th: Thresholds, angle: real) {
    angle <= th.tablet && angle < th.laptop && angle > th.min
  }

  /** Angles that are neither past a threshold nor past the minimum are as if they had not been measured. */
  predicate Counts(th: Thresholds, angle: real) {
    angle > th.tablet || angle >= th.laptop || angle > th.min
  }

  function Counted(th: Thresholds, angles: seq<real>): seq<real> {
    if angles == [] then []
    else
      var before := Counted(th, angles[..|angles| - 1]);
      if Counts(th, angles[|angles| - 1]) then before + [angles[|angles| - 1]] else before
  }

  predicate Shows(th: Thresholds, mode: int, angle: real) {
    if mode == TABLET then Folded(th, angle) else Unfolded(th, angle)
  }

  /** The six counting angles that end at position `i` all show the mode. */
  ghost predicate SixShow(th: Thresholds, h: seq<real>, i: int, mode: int) {
    6 <= i <= |h| && forall k :: i - 6 <= k < i ==> Shows(th, mode, h[k])
  }

  /** No six in a row that end after `from` show tablet or laptop. */
  ghost predicate NoneAfter(th: Thresholds, h: seq<real>, from: int) {
    forall i :: from < i <= |h| ==> !SixShow(th, h, i, TABLET) && !SixShow(th, h, i, LAPTOP)
  }

  /** The most recent six in a row that show tablet or laptop show this mode. */
  ghost predicate LastSixShow(th: Thresholds, h: seq<real>, mode: int) {
    exists i :: SixShow(th, h, i, mode) && NoneAfter(th, h, i)
  }

  /** The votes are those of the counting angles, one by one. */
  ghost predicate VotesOf(th: Thresholds, h: seq<real>, votes: seq<int>) {
    |votes| == |h| && forall k :: 0 <= k < |h| ==> Vote(h[k], th.tablet, th.laptop, th.min) == Some(votes[k])
  }

  lemma VotesAreAngles(th: Thresholds, h: seq<real>, votes: seq<int>, i: int)
    requires VotesOf(th, h, votes)
    ensures SixAt(votes, i, TABLET) <==> SixShow(th, h, i, TABLET)
    ensures SixAt(votes, i, LAPTOP) <==> SixShow(th, h, i, LAPTOP)
    ensures forall c :: c >= 0 && c != TABLET && c != LAPTOP ==> !SixAt(votes, i, c)
  {
    if 6 <= i <= |h| {
      assert forall k :: i - 6 <= k < i ==> (votes[k] == TABLET <==> Folded(th, h[k])) && (votes[k] == LAPTOP <==> Unfolded(th, h[k]));
      assert votes[i - 1] == TABLET || votes[i - 1] == LAPTOP || votes[i - 1] == UNSET;
    }
  }

  lemma NoSixIsNone(th: Thresholds, h: seq<real>, votes: seq<int>, from: int)
    requires VotesOf(th, h, votes)
    ensures NoSix(votes, from) <==> NoneAfter(th, h, from)
  {
    hide VotesOf, SixAt, SixShow;
    forall i ensures SixAt(votes, i, TABLET) == SixShow(th, h, i, TABLET)
      ensures SixAt(votes, i, LAPTOP) == SixShow(th, h, i, LAPTOP)
      ensures forall c :: c >= 0 && c != TABLET && c != LAPTOP ==> !SixAt(votes, i, c)
    {
      VotesAreAngles(th, h, votes, i);
    }
    assert |votes| == |h| by { VotesLength(th, h, votes); }
    if NoneAfter(th, h, from) {
      forall i, c | from < i <= |votes| && c >= 0 ensures !SixAt(votes, i, c) {
        assert !SixShow(th, h, i, TABLET) && !SixShow(th, h, i, LAPTOP);
      }
    }
    if NoSix(votes, from) {
      forall i | from < i <= |h| ensures !SixShow(th, h, i, TABLET) && !SixShow(th, h, i, LAPTOP) {
        assert !SixAt(votes, i, TABLET) && !SixAt(votes, i, LAPTOP);
      }
    }
  }

  lemma VotesLength(th: Thresholds, h: seq<real>, votes: seq<int>)
    requires VotesOf(th, h, votes)
    ensures |votes| == |h|
  {
  }

  /** The two modes cannot both be shown last, and if none is, no six in a row show any. */
  lemma LastSixUnique(th: Thresholds, h: seq<real>)
    ensures !(LastSixShow(th, h, TABLET) && LastSixShow(th, h, LAPTOP))
    ensures NoneAfter(th, h, 0) ==> !LastSixShow(th, h, TABLET) && !LastSixShow(th, h, LAPTOP)
  {
    forall i, j ensures !(SixShow(th, h, i, TABLET) && NoneAfter(th, h, i) && SixShow(th, h, j, LAPTOP) && NoneAfter(th, h, j)) {
      if SixShow(th, h, i, TABLET) && i == j { assert Folded(th, h[i - 1]) && !Unfolded(th, h[i - 1]); }
    }
  }

  /** The mode by votes is the mode by angles. */
  lemma ModeByAngles(th: Thresholds, h: seq<real>, votes: seq<int>)
    requires VotesOf(th, h, votes)
    ensures LastRun(votes, UNSET) == TABLET <==> LastSixShow(th, h, TABLET)
    ensures LastRun(votes, UNSET) == LAPTOP <==> LastSixShow(th, h, LAPTOP)
    ensures LastRun(votes, UNSET) == UNSET <==> NoneAfter(th, h, 0)
  {
    hide VotesOf, SixAt, SixShow, NoSix, NoneAfter;
    LastRunMeaning(votes, UNSET);
    LastSixUnique(th, h);
    NoSixIsNone(th, h, votes, 0);
    var mode := LastRun(votes, UNSET);
    if !(NoSix(votes, 0) && mode == UNSET) {
      var i :| SixAt(votes, i, mode) && mode >= 0 && NoSix(votes, i);
      NoSixIsNone(th, h, votes, i);
      VotesAreAngles(th, h, votes, i);
      assert SixShow(th, h, i, mode) && NoneAfter(th, h, i);
    }
  }

  lemma CountedStep(th: Thresholds, angles: seq<real>, angle: real, votes: seq<int>)
    requires VotesOf(th, Counted(th, angles), votes)
    ensures var v := Vote(angle, th.tablet, th.laptop, th.min);
            VotesOf(th, Counted(th, angles + [angle]), if v.None? then votes else votes + [v.value])
  {
    assert (angles + [angle])[..|angles|] == angles;
  }

  class DrvData {
    const panelDeg: int
    const tabletThresh: real
    const laptopThresh: real
    const minAngle: real
    var mode: int
    var tCount: int
    var lCount: int
    var nCount: int
    var curOrient: int
    var pendingOrient: int
    var orientDebounce: int
    var wantPolling: bool
    var lidClosed: bool
    var timeoutId: nat
    ghost var emitted: seq<int>
    ghost var angles: seq<real>
    ghost var votes: seq<int>
    ghost var seen: seq<int>

    ghost function Landscape(): int {
      ComposeOrientation(RIGHT, panelDeg)
    }

    ghost function Limits(): Thresholds {
      Thresholds(tabletThresh, laptopThresh, minAngle)
    }

    /** The votes are those of the angles measured so far. */
    ghost predicate AnglesValid()
      reads this`angles, this`votes
    {
      VotesOf(Limits(), Counted(Limits(), angles), votes)
    }

    /**
     * The mode by the angles measured: the one that the most recent six counting angles in a
     * row, all folded or all unfolded, show; unset exactly if there were no such six.
     */
    lemma ModeOfAngles()
      requires Valid()
      ensures var h := Counted(Limits(), angles);
              && (mode == TABLET <==> LastSixShow(Limits(), h, TABLET))
              && (mode == LAPTOP <==> LastSixShow(Limits(), h, LAPTOP))
              && (mode == UNSET <==> NoneAfter(Limits(), h, 0))
    {
      ModeByAngles(Limits(), Counted(Limits(), angles), votes);
    }

    /** Mode and counters are functions of the votes so far. */
    ghost predicate ModeValid()
      reads this`mode, this`tCount, this`lCount, this`nCount, this`votes
    {
      && mode == LastRun(votes, UNSET)
      && tCount == Trailing(votes, TABLET) && lCount == Trailing(votes, LAPTOP) && nCount == Trailing(votes, UNSET)
    }

    /** The orientation is a function of the orientations seen so far. */
    ghost predicate OrientValid()
      reads this`curOrient, this`pendingOrient, this`orientDebounce, this`seen
    {
      Debounced(seen, curOrient, pendingOrient, orientDebounce)
    }

    /** Laptop mode pins the orientation to landscape; the last reading says where the orientation is. */
    ghost predicate LandscapeValid()
      reads this`mode, this`curOrient, this`pendingOrient, this`emitted
    {
      && (mode == LAPTOP ==> curOrient == pendingOrient == Landscape())
      && (mode != TABLET ==> (curOrient == -1 || curOrient == Landscape()) && (pendingOrient == -1 || pendingOrient == Landscape()))
      && (emitted != [] ==> emitted[|emitted| - 1] == if curOrient < 0 then Landscape() else curOrient)
    }

    ghost predicate TimerValid()
      reads this`timeoutId, this`wantPolling, this`lidClosed
    {
      timeoutId > 0 <==> wantPolling && !lidClosed
    }

    ghost predicate Valid()
      reads this
    {
      PanelOk(panelDeg) && AnglesValid() && ModeValid() && OrientValid() && LandscapeValid() && TimerValid()
    }

    /** mxc6655_open, with the lid switch as read there. */
    constructor (panelDeg: int, tabletThresh: real, laptopThresh: real, minAngle: real, lidClosed: bool)
      requires PanelOk(panelDeg)
      ensures Valid() && angles == [] && votes == [] && seen == [] && emitted == [] && mode == UNSET && !wantPolling
    {
      this.panelDeg, this.tabletThresh, this.laptopThresh, this.minAngle := panelDeg, tabletThresh, laptopThresh, minAngle;
      mode, tCount, lCount, nCount := UNSET, 0, 0, 0;
      curOrient, pendingOrient, orientDebounce := -1, -1, 0;
      wantPolling, this.lidClosed, timeoutId := false, lidClosed, 0;
      emitted, angles, votes, seen := [], [], [], [];
    }

    method EmitOrientation(orient: int)
      modifies this`emitted
      ensures emitted == old(emitted) + [orient]
    {
      emitted := emitted + [orient];
    }

    /** One classified sample: six alike in a row make the new orientation, and only then is it reported. */
    method UpdateOrientationDebounce(orient: Option<int>)
      requires Valid() && (orient.Some? ==> 0 <= orient.value < 4)
      modifies this`curOrient, this`pendingOrient, this`orientDebounce, this`emitted, this`seen
      ensures Valid()
      ensures seen == old(seen) + (if orient.None? then [] else
                [ComposeOrientation(if mode == TABLET then orient.value else RIGHT, panelDeg)])
      ensures emitted == old(emitted) + (if curOrient == old(curOrient) then [] else [curOrient])
    {
      hide Debounced, ComposeOrientation, TimerValid, ModeValid;
      if orient.None? { return; }
      var newOrient := orient.value;
      if mode != TABLET {
        newOrient := RIGHT;
      }
      ComposeCases(newOrient, panelDeg);
      newOrient := ComposeOrientation(newOrient, panelDeg);
      DebounceStep(seen, curOrient, pendingOrient, orientDebounce, newOrient);
      seen := seen + [newOrient];
      if newOrient != pendingOrient {
        pendingOrient := newOrient;
        orientDebounce := if newOrient != curOrient then 1 else 0;
        return;
      }
      if newOrient == curOrient { return; }
      orientDebounce := orientDebounce + 1;
      if orientDebounce > DEBOUNCE {
        curOrient := newOrient;
        orientDebounce := 0;
        EmitOrientation(newOrient);
      }
    }

    /** Report landscape at once, as if it had been seen long enough. */
    method ForceLandscape()
      requires PanelOk(panelDeg) && OrientValid()
      modifies this`curOrient, this`pendingOrient, this`orientDebounce, this`emitted, this`seen
      ensures OrientValid() && curOrient == pendingOrient == Landscape()
      ensures seen == old(seen) + Six(Landscape()) && emitted == old(emitted) + [Landscape()]
    {
      ComposeCases(RIGHT, panelDeg);
      var orient := ComposeOrientation(RIGHT, panelDeg);
      SixDecide(seen, orient, -1);
      curOrient := orient;
      pendingOrient := orient;
      orientDebounce := 0;
      seen := seen + Six(orient);
      EmitOrientation(orient);
    }

    method SetTabletMode(newMode: int)
      requires PanelOk(panelDeg) && OrientValid() && LandscapeValid() && (newMode == LAPTOP || newMode == TABLET)
      modifies this`mode, this`curOrient, this`pendingOrient, this`orientDebounce, this`emitted, this`seen
      ensures OrientValid() && LandscapeValid() && mode == newMode
      ensures newMode == LAPTOP ==> curOrient == pendingOrient == Landscape()
      ensures newMode == TABLET ==> curOrient == old(curOrient) && pendingOrient == old(pendingOrient)
      ensures seen == old(seen) + (if newMode == LAPTOP then Six(Landscape()) else [])
      ensures emitted == old(emitted) + (if newMode == LAPTOP then [Landscape()] else [])
    {
      mode := newMode;
      if newMode == LAPTOP {
        ForceLandscape();
      }
    }

    /** One hinge angle: the mode follows the most recent six votes alike; entering laptop mode forces landscape. */
    method UpdateTabletMode(angle: real)
      requires Valid()
      modifies this`mode, this`tCount, this`lCount, this`nCount, this`angles, this`votes
      modifies this`curOrient, this`pendingOrient, this`orientDebounce, this`emitted, this`seen
      ensures Valid() && angles == old(angles) + [angle]
      ensures var v := Vote(angle, tabletThresh, laptopThresh, minAngle);
              votes == old(votes) + (if v.None? then [] else [v.value])
      ensures var forced := old(mode) != LAPTOP && mode == LAPTOP;
              seen == old(seen) + (if forced then Six(Landscape()) else [])
              && emitted == old(emitted) + (if forced then [Landscape()] else [])
    {
      hide LastRun, Trailing, ComposeOrientation, Debounced, DrvData.TimerValid, DrvData.OrientValid, DrvData.AnglesValid, DrvData.LandscapeValid;
      CountAngle(angle);
      if angle > tabletThresh {
        tCount := tCount + 1;
        lCount := 0;
        nCount := 0;
        if mode != TABLET && tCount > DEBOUNCE {
          SetTabletMode(TABLET);
        }
      } else if angle >= laptopThresh {
        nCount := nCount + 1;
        tCount := 0;
        lCount := 0;
      } else if angle > minAngle {
        lCount := lCount + 1;
        tCount := 0;
        nCount := 0;
        if mode != LAPTOP && lCount > DEBOUNCE {
          SetTabletMode(LAPTOP);
        }
      }
    }

    /** Record an angle, with its vote if it counts. */
    ghost method CountAngle(angle: real)
      requires AnglesValid()
      modifies this`angles, this`votes
      ensures AnglesValid() && angles == old(angles) + [angle]
      ensures var v := Vote(angle, tabletThresh, laptopThresh, minAngle);
              if v.None? then votes == old(votes) else Voted(old(votes), v.value, votes)
    {
      hide Counted, VotesOf, LastRun, Trailing;
      CountedStep(Limits(), angles, angle, votes);
      angles := angles + [angle];
      ghost var v := Vote(angle, tabletThresh, laptopThresh, minAngle);
      if v.Some? { CountVote(v.value); }
    }

    /** Record a vote and work out what it does to the reference. */
    ghost method CountVote(v: int)
      modifies this`votes
      ensures Voted(old(votes), v, votes)
    {
      LastRunStep(votes, v, UNSET);
      TrailingStep(votes, v, TABLET);
      TrailingStep(votes, v, LAPTOP);
      TrailingStep(votes, v, UNSET);
      votes := votes + [v];
    }

    /** One tick of the poll timer with both sensors read. */
    method PollSensors(s: Sample)
      requires Valid() && SampleOk(s)
      modifies this`mode, this`tCount, this`lCount, this`nCount, this`angles, this`votes
      modifies this`curOrient, this`pendingOrient, this`orientDebounce, this`emitted, this`seen
      ensures Valid() && angles == old(angles) + (if s.angle.None? then [] else [s.angle.value])
      ensures var v := if s.angle.None? then None else Vote(s.angle.value, tabletThresh, laptopThresh, minAngle);
              votes == old(votes) + (if v.None? then [] else [v.value])
      ensures seen == old(seen)
                      + (if s.orient.None? then [] else [ComposeOrientation(if old(mode) == TABLET then s.orient.value else RIGHT, panelDeg)])
                      + (if old(mode) != LAPTOP && mode == LAPTOP then Six(Landscape()) else [])
      ensures var sample := if s.orient.None? then [] else [ComposeOrientation(if old(mode) == TABLET then s.orient.value else RIGHT, panelDeg)];
              var turned := LastRun(old(seen) + sample, -1);
              emitted == old(emitted)
                         + (if turned == old(curOrient) then [] else [turned])
                         + (if old(mode) != LAPTOP && mode == LAPTOP then [Landscape()] else [])
    {
      UpdateOrientationDebounce(s.orient);
      if s.angle.None? { return; }
      UpdateTabletMode(s.angle.value);
    }

    /** A reading for a claim: the current orientation, or landscape while it is unknown. */
    method SendCurrentReading()
      requires Valid()
      modifies this`emitted
      ensures Valid() && emitted == old(emitted) + [if curOrient < 0 then Landscape() else curOrient]
    {
      var orient := curOrient;
      if orient < 0 {
        orient := ComposeOrientation(RIGHT, panelDeg);
      }
      EmitOrientation(orient);
    }

    /** The timer runs exactly when polling is wanted and the lid is open. */
    method UpdatePollingTimer(newId: nat)
      requires newId > 0
      modifies this`timeoutId
      ensures TimerValid()
      ensures timeoutId == (if wantPolling && !lidClosed then (if old(timeoutId) == 0 then newId else old(timeoutId)) else 0)
    {
      var wanted := wantPolling && !lidClosed;
      if wanted && timeoutId == 0 {
        timeoutId := newId;
      } else if !wanted && timeoutId > 0 {
        timeoutId := 0;
      }
    }

    method SetLidClosed(closed: bool, newId: nat)
      requires Valid() && newId > 0
      modifies this`lidClosed, this`timeoutId
      ensures Valid() && lidClosed == closed
    {
      if lidClosed == closed { return; }
      lidClosed := closed;
      UpdatePollingTimer(newId);
    }

    /** mxc6655_set_polling: turning on always reports once, whatever the state, timer or lid. */
    method SetPolling(state: bool, newId: nat)
      requires Valid() && newId > 0
      modifies this`wantPolling, this`timeoutId, this`emitted
      ensures Valid() && wantPolling == state
      ensures emitted == old(emitted) + (if state then [if curOrient < 0 then Landscape() else curOrient] else [])
    {
      if state {
        SendCurrentReading();
      }
      if wantPolling == state { return; }
      wantPolling := state;
      UpdatePollingTimer(newId);
    }
  }

  function Six(v: int): seq<int> {
    [v, v, v, v, v, v]
  }

  lemma TrailingNone(h: seq<int>, c: int)
    requires h == [] || h[|h| - 1] != c
    ensures Trailing(h, c) == 0
  {
  }

  /** Six samples alike decide, whatever came before. */
  lemma SixDecide(h: seq<int>, v: int, start: int)
    requires v >= 0
    ensures LastRun(h + Six(v), start) == v
  {
    TrailingIsRun(h + Six(v), v);
    assert SixAt(h + Six(v), |h| + 6, v);
  }
}
