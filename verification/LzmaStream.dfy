/**
 * The decoder as a function on streams: symbols applied to an output history, the
 * rules for stopping, and what they mean for input and output cut at arbitrary places.
 */
module LzmaStream {
  import opened LzmaBits
  import opened LzmaRange
  import opened LzmaSymbol

  const SPEC_LEN := 274
  const BAD_REP_CODE := 0xC000_0000 - 0x400

  datatype Prop = Prop(lc: nat, lp: nat, pb: nat, dicSize: nat)

  predicate PropOk(p: Prop) {
    p.lc <= 8 && p.lp <= 4 && p.pb <= 4 && 0x1000 <= p.dicSize < U32
  }

  function NumProbs(p: Prop): nat {
    LITERAL + LIT_SIZE * Pow2(p.lc + p.lp)
  }

  datatype Reps = Reps(r0: nat, r1: nat, r2: nat, r3: nat)

  /** Decoder state between symbols: `out` is everything written, `rem` the part of a match still owed. */
  datatype Core = Core(
    probs: seq<nat>, range: nat, code: nat, state: nat, reps: Reps, out: seq<Byte>, rem: nat)

  // ---- Context of a symbol

  function LitBase(p: Prop, out: seq<Byte>): nat
    requires p.lc <= 8
  {
    if out == [] then LITERAL
    else LITERAL + LIT_SIZE * LitCoder(p, out)
  }

  function MatchByte(k: Core): Byte {
    if 1 <= k.reps.r0 <= |k.out| then k.out[|k.out| - k.reps.r0] else 0
  }

  function ContextOf(p: Prop, k: Core): Ctx
    requires p.lc <= 8
  {
    Ctx(k.state, |k.out| % Pow2(p.pb), LitBase(p, k.out), MatchByte(k))
  }

  predicate RepsWithin(r: Reps, bound: nat) {
    1 <= r.r0 <= bound && 1 <= r.r1 <= bound && 1 <= r.r2 <= bound && 1 <= r.r3 <= bound
  }

  predicate Untouched(k: Core) {
    && k.state == 0 && k.range == U32 - 1
    && forall s :: 0 <= s < |k.probs| ==> k.probs[s] == PROB_INIT
  }

  function Min(a: int, b: int): int {
    if a <= b then a else b
  }

  /**
   * The invariant of every state between symbols. Recent distances never point before
   * the start of the output nor outside the window of `dicSize` bytes.
   */
  predicate CoreOk(p: Prop, k: Core) {
    && PropOk(p)
    && |k.probs| == NumProbs(p) && ProbsOk(k.probs)
    && TOP <= k.range < U32 && k.code < U32
    && k.state < 12 && k.rem <= SPEC_LEN
    && (if k.out == [] then k.reps == Reps(1, 1, 1, 1) && (k.rem == SPEC_LEN || (k.rem == 0 && Untouched(k)))
        else RepsWithin(k.reps, Min(|k.out|, p.dicSize)))
  }

  /** Index of the literal coder: low position bits, then the high bits of the previous byte. */
  function LitCoder(p: Prop, out: seq<Byte>): nat
    requires p.lc <= 8 && out != []
  {
    |out| % Pow2(p.lp) * Pow2(p.lc) + out[|out| - 1] / Pow2(8 - p.lc)
  }

  lemma LitCoderOk(p: Prop, out: seq<Byte>)
    requires PropOk(p) && out != []
    ensures LitCoder(p, out) < Pow2(p.lc + p.lp)
  {
    hide Pow2;
    Pow2Sum(p.lc, p.lp);
    Pow2Sum(p.lc, 8 - p.lc);
    Pow2Word();
    LitIndex(|out| % Pow2(p.lp), Pow2(p.lp), Pow2(p.lc), out[|out| - 1], Pow2(8 - p.lc));
    MulSwap(Pow2(p.lp), Pow2(p.lc));
  }

  lemma MulSwap(a: nat, b: nat)
    ensures a * b == b * a
  {
  }

  lemma LitBaseOk(p: Prop, out: seq<Byte>)
    requires PropOk(p)
    ensures LitBase(p, out) >= LITERAL && (LitBase(p, out) - LITERAL) % LIT_SIZE == 0
    ensures LitBase(p, out) + LIT_SIZE <= NumProbs(p)
  {
    hide Pow2, LitCoder;
    if out != [] { LitCoderOk(p, out); }
  }

  lemma LitIndex(a: nat, la: nat, lb: nat, prev: nat, d: nat)
    requires a < la && lb * d == 256 && prev < 256 && lb >= 1 && d >= 1
    ensures a * lb + prev / d + 1 <= la * lb
  {
    var q := prev / d;
    assert prev == q * d + prev % d;
    if q >= lb { MulMono(d, lb, q); }
    assert (a + 1) * lb <= la * lb by { MulMono(lb, a + 1, la); }
    assert (a + 1) * lb == a * lb + lb;
  }

  lemma PosStateOk(p: Prop, n: nat)
    requires PropOk(p)
    ensures n % Pow2(p.pb) < 16
  {
    Pow2Mono(p.pb, 4);
    assert Pow2(4) == 16;
  }

  lemma ContextOk(p: Prop, k: Core)
    requires CoreOk(p, k)
    ensures Fits(ContextOf(p, k), k.probs)
  {
    hide Pow2;
    LitBaseOk(p, k.out);
    PosStateOk(p, |k.out|);
  }

  function Start(k: Core, inp: seq<Byte>): Place {
    Place(IsMatch, Coder(k.range, k.code, inp), k.probs)
  }

  /** Decode the next symbol. */
  function NextSymbol(p: Prop, k: Core, inp: seq<Byte>): (r: Outcome)
    requires CoreOk(p, k)
    ensures r.Finished? ==> SymbolOk(r.symbol) && Ready(r.coder) && |r.probs| == |k.probs| && ProbsOk(r.probs)
  {
    ContextOk(p, k);
    Run(ContextOf(p, k), Start(k, inp))
  }

  // ---- Meaning of a symbol

  function LitState(s: nat): nat {
    if s < 4 then 0 else if s < 10 then s - 3 else s - 6
  }

  function Recall(r: Reps, which: nat): Reps {
    match which
    case 0 => r
    case 1 => Reps(r.r1, r.r0, r.r2, r.r3)
    case 2 => Reps(r.r2, r.r0, r.r1, r.r3)
    case _ => Reps(r.r3, r.r0, r.r1, r.r2)
  }

  datatype Applied = Rejected | Accepted(core: Core)

  /** The effect of a symbol; the bytes of a match are owed in `rem` rather than written. */
  function Apply(p: Prop, k: Core, r: Outcome): Applied
    requires r.Finished?
  {
    var k1 := k.(probs := r.probs, range := r.coder.range, code := r.coder.code);
    match r.symbol
    case Lit(b) => Accepted(k1.(out := k.out + [b], state := LitState(k.state)))
    case ShortRep =>
      if 1 <= k.reps.r0 <= |k.out| then
        Accepted(k1.(out := k.out + [k.out[|k.out| - k.reps.r0]], state := if k.state < 7 then 9 else 11))
      else Rejected
    case Copy(Rep(which), len, _) =>
      if k.out == [] then Rejected
      else Accepted(k1.(reps := Recall(k.reps, which), state := if k.state < 7 then 8 else 11, rem := len))
    case Copy(NewMatch, len, dist) =>
      if dist >= Min(|k.out|, p.dicSize) then Rejected
      else
        Accepted(k1.(reps := Reps(dist + 1, k.reps.r0, k.reps.r1, k.reps.r2),
                     state := if k.state < 7 then 7 else 10, rem := len))
    case EndMark => Accepted(k1.(rem := SPEC_LEN))
  }

  /** Applying a symbol keeps the invariant. */
  lemma ApplyOk(p: Prop, k: Core, inp: seq<Byte>)
    requires CoreOk(p, k) && k.rem == 0
    requires NextSymbol(p, k, inp).Finished?
    requires Apply(p, k, NextSymbol(p, k, inp)).Accepted?
    ensures CoreOk(p, Apply(p, k, NextSymbol(p, k, inp)).core)
    ensures var k' := Apply(p, k, NextSymbol(p, k, inp)).core;
            (k'.rem == 0 && |k'.out| == |k.out| + 1) || (k'.out == k.out && 2 <= k'.rem <= SPEC_LEN)
  {
    hide Run, Pow2;
  }

  // ---- What state and recent distances stand for

  function Distances(r: Reps): seq<nat> {
    [r.r0, r.r1, r.r2, r.r3]
  }

  /** A recent distance used again moves to the front; the others keep their order. */
  lemma RecallMovesToFront(r: Reps, which: nat)
    requires which < 4
    ensures var d := Distances(r);
            Distances(Recall(r, which)) == [d[which]] + d[..which] + d[which + 1..]
  {
    assert which == 0 || which == 1 || which == 2 || which == 3;
  }

  /** Over any accepted symbol the four distances are the last ones used, the latest first. */
  lemma DistancesAfter(p: Prop, k: Core, r: Outcome)
    requires r.Finished? && SymbolOk(r.symbol) && Apply(p, k, r).Accepted?
    ensures var before, after := Distances(k.reps), Distances(Apply(p, k, r).core.reps);
            if r.symbol.Copy? && r.symbol.kind.Rep? then
              var w := r.symbol.kind.which;
              after == [before[w]] + before[..w] + before[w + 1..]
            else if r.symbol.Copy? then after == [r.symbol.dist + 1] + before[..3]
            else after == before
  {
    if r.symbol.Copy? && r.symbol.kind.Rep? { RecallMovesToFront(k.reps, r.symbol.kind.which); }
  }

  datatype Sort = SortLit | SortMatch | SortRep | SortShort

  function SortOf(s: Symbol): Sort
    requires !s.EndMark?
  {
    match s
    case Lit(_) => SortLit
    case ShortRep => SortShort
    case Copy(Rep(_), _, _) => SortRep
    case Copy(NewMatch, _, _) => SortMatch
  }

  /** Literals at the end of a history. */
  function Trailing(h: seq<Sort>): (n: nat)
    ensures n <= |h|
  {
    if h == [] || h[|h| - 1] != SortLit then 0 else 1 + Trailing(h[..|h| - 1])
  }

  /**
   * What a last symbol that is no literal leaves behind: 1 for a match, 2 for a long rep, 3 for a
   * short one; after another such symbol short and long reps are not told apart.
   */
  function Mark(h: seq<Sort>): nat
    requires h != []
  {
    var afterLit := |h| < 2 || h[|h| - 2] == SortLit;
    match h[|h| - 1]
    case SortMatch => 1
    case SortShort => if afterLit then 3 else 2
    case _ => 2
  }

  /** The twelve states, by history: how many literals came last, and what came before them. */
  function StateOf(h: seq<Sort>): nat {
    var n := Trailing(h);
    if n >= 3 || n == |h| then 0
    else
      var mark := Mark(h[..|h| - n]);
      if n == 2 then mark
      else if n == 1 then 3 + mark
      else if |h| < 2 || h[|h| - 2] == SortLit then 6 + mark
      else 9 + mark
  }

  lemma {:induction false} StateStep(h: seq<Sort>, s: Sort)
    ensures StateOf([]) == 0
    ensures var before, after := StateOf(h), StateOf(h + [s]);
            && (before < 7 <==> h == [] || h[|h| - 1] == SortLit)
            && after == match s
                        case SortLit => LitState(before)
                        case SortMatch => if before < 7 then 7 else 10
                        case SortRep => if before < 7 then 8 else 11
                        case SortShort => if before < 7 then 9 else 11
  {
    var g := h + [s];
    assert g[..|h|] == h;
    if s == SortLit {
      var n := Trailing(h);
      assert Trailing(g) == n + 1;
      assert g[..|g| - (n + 1)] == h[..|h| - n];
      TrailingShorter(h);
    } else {
      assert Trailing(g) == 0 && g[..|g|] == g;
      if h != [] { TrailingShorter(h); }
    }
  }

  lemma TrailingShorter(h: seq<Sort>)
    ensures Trailing(h) < |h| ==> h[|h| - 1 - Trailing(h)] != SortLit
    ensures h != [] && h[|h| - 1] == SortLit ==> Trailing(h) >= 1
    ensures Trailing(h) == 0 ==> h[..|h|] == h
  {
    if h != [] && h[|h| - 1] == SortLit { TrailingShorter(h[..|h| - 1]); }
  }

  /** The state of the decoder is a function of the kinds of symbols so far. */
  lemma StateFollowsHistory(p: Prop, k: Core, r: Outcome, h: seq<Sort>)
    requires r.Finished? && !r.symbol.EndMark? && Apply(p, k, r).Accepted? && k.state == StateOf(h)
    ensures Apply(p, k, r).core.state == StateOf(h + [SortOf(r.symbol)])
  {
    hide StateOf, LitState;
    StateStep(h, SortOf(r.symbol));
  }

  // ---- Writing what is owed

  /** `n` bytes copied one at a time from `dist` back; source and target may overlap. */
  function CopyBack(out: seq<Byte>, dist: nat, n: nat): (r: seq<Byte>)
    requires 1 <= dist <= |out|
    ensures |r| == |out| + n && out <= r
    decreases n
  {
    if n == 0 then out else CopyBack(out + [out[|out| - dist]], dist, n - 1)
  }

  /** Every byte of a copied match equals the one `dist` before it, also inside the match. */
  lemma {:induction false} CopyBackPeriodic(out: seq<Byte>, dist: nat, n: nat)
    requires 1 <= dist <= |out|
    ensures forall i :: |out| <= i < |out| + n ==> CopyBack(out, dist, n)[i] == CopyBack(out, dist, n)[i - dist]
    decreases n
  {
    if n > 0 {
      var next := out + [out[|out| - dist]];
      CopyBackPeriodic(next, dist, n - 1);
      var r := CopyBack(next, dist, n - 1);
      assert r[|out|] == next[|out|] && r[|out| - dist] == next[|out| - dist];
    }
  }

  lemma {:induction false} CopyBackSplit(out: seq<Byte>, dist: nat, a: nat, b: nat)
    requires 1 <= dist <= |out|
    ensures CopyBack(CopyBack(out, dist, a), dist, b) == CopyBack(out, dist, a + b)
    decreases a
  {
    if a > 0 { CopyBackSplit(out + [out[|out| - dist]], dist, a - 1, b); }
  }

  lemma CopyBackStep(out: seq<Byte>, dist: nat, n: nat)
    requires 1 <= dist <= |out|
    ensures CopyBack(out, dist, 0) == out
    ensures n > 0 ==> CopyBack(out, dist, n) == CopyBack(out + [out[|out| - dist]], dist, n - 1)
  {
  }

  predicate Owes(k: Core) {
    0 < k.rem < SPEC_LEN
  }

  /** Write as much of the owed match as fits below `limit`. */
  function Flush(k: Core, limit: nat): (r: Core)
    ensures k.out <= r.out
  {
    if Owes(k) && |k.out| < limit && 1 <= k.reps.r0 <= |k.out| then
      var n := Min(k.rem, limit - |k.out|);
      k.(out := CopyBack(k.out, k.reps.r0, n), rem := k.rem - n)
    else k
  }

  /** Flushing stops at `limit`, and only there does anything stay owed. */
  lemma FlushOk(p: Prop, k: Core, limit: nat)
    requires CoreOk(p, k) && |k.out| <= limit
    ensures CoreOk(p, Flush(k, limit)) && |Flush(k, limit).out| <= limit
    ensures Owes(Flush(k, limit)) ==> |Flush(k, limit).out| == limit
    ensures |Flush(k, limit).out| + (if Owes(Flush(k, limit)) then Flush(k, limit).rem else 0)
            == |k.out| + (if Owes(k) then k.rem else 0)
  {
    hide Pow2;
  }

  lemma OwesBack(p: Prop, k: Core)
    requires CoreOk(p, k)
    ensures Owes(k) ==> 1 <= k.reps.r0 <= |k.out|
  {
  }

  /** Cutting a match at an earlier limit and going on later writes the same bytes. */
  lemma FlushTwice(p: Prop, k: Core, near: nat, far: nat)
    requires CoreOk(p, k) && |k.out| <= near <= far
    ensures Flush(Flush(k, near), far) == Flush(k, far)
  {
    hide CopyBack, CoreOk, Pow2;
    OwesBack(p, k);
    if Owes(k) && |k.out| < near {
      var n := Min(k.rem, near - |k.out|);
      var m := Min(k.rem - n, far - near);
      CopyBackSplit(k.out, k.reps.r0, n, m);
    }
  }

  // ---- Decoding up to an output limit

  datatype Mode = FinishAny | FinishEnd

  datatype Status = NotSpecified | FinishedWithMark | NotFinished | NeedsMoreInput | MaybeFinishedWithoutMark

  datatype Answer =
    | Failed(status: Status)
    | Paused(status: Status, core: Core, rest: seq<Byte>)

  /** What one turn of the decoding loop does: stop, or go on with a new state. */
  datatype Turn = Halt(answer: Answer) | Go(core: Core, inp: seq<Byte>)

  /** The state at the head of the loop: nothing is owed unless the limit is reached. */
  predicate Flushed(p: Prop, k: Core, limit: nat) {
    CoreOk(p, k) && |k.out| <= limit && k.rem != SPEC_LEN && (k.rem != 0 ==> |k.out| == limit)
  }

  /** At the limit only an end mark may follow. */
  function AtLimit(k: Core, r: Outcome, inp: seq<Byte>, mode: Mode): Turn {
    if k.rem == 0 && k.code == 0 then Halt(Paused(MaybeFinishedWithoutMark, k, inp))
    else if mode == FinishAny then Halt(Paused(NotFinished, k, inp))
    else if k.rem != 0 then Halt(Failed(NotFinished))
    else if r.Starved? then Halt(Paused(NeedsMoreInput, k, inp))
    else if ClassOf(r.symbol) != ClassMatch then Halt(Failed(NotFinished))
    else if r.symbol != EndMark then Halt(Failed(NotSpecified))
    else Go(k.(probs := r.probs, range := r.coder.range, code := r.coder.code, rem := SPEC_LEN), r.coder.inp)
  }

  function BelowLimit(p: Prop, k: Core, r: Outcome, inp: seq<Byte>): Turn {
    if r.Starved? then Halt(Paused(NeedsMoreInput, k, inp))
    else
      var a := Apply(p, k, r);
      if a.Rejected? then Halt(Failed(NotSpecified)) else Go(a.core, r.coder.inp)
  }

  function TakeTurn(p: Prop, k: Core, inp: seq<Byte>, limit: nat, mode: Mode): Turn
    requires Flushed(p, k, limit)
  {
    var r := NextSymbol(p, k, inp);
    if |k.out| >= limit then AtLimit(k, r, inp, mode) else BelowLimit(p, k, r, inp)
  }

  /** A turn that goes on has seen the end mark or has output to add, and keeps the invariant. */
  lemma TurnOk(p: Prop, k: Core, inp: seq<Byte>, limit: nat, mode: Mode)
    requires Flushed(p, k, limit)
    requires TakeTurn(p, k, inp, limit, mode).Go?
    ensures var k' := TakeTurn(p, k, inp, limit, mode).core;
            CoreOk(p, k') && |k'.out| <= limit &&
            (k'.rem == SPEC_LEN || (|k.out| < limit && |k'.out| + k'.rem > |k.out|))
    ensures k.out <= TakeTurn(p, k, inp, limit, mode).core.out
  {
    hide Run, Pow2;
    if |k.out| < limit { ApplyOk(p, k, inp); }
  }

  function Room(k: Core, limit: nat): nat {
    if k.rem == SPEC_LEN then 0
    else if |k.out| + k.rem >= limit then 1
    else 1 + limit - |k.out| - k.rem
  }

  /** Decode until the input runs out, the limit is reached, the end mark is seen, or an error is met. */
  function Decode(p: Prop, k: Core, inp: seq<Byte>, limit: nat, mode: Mode): (r: Answer)
    requires CoreOk(p, k) && |k.out| <= limit
    decreases Room(k, limit)
  {
    if k.rem == SPEC_LEN then
      if k.code != 0 then Failed(NotSpecified) else Paused(FinishedWithMark, k, inp)
    else
      FlushOk(p, k, limit);
      var t := TakeTurn(p, Flush(k, limit), inp, limit, mode);
      match t
      case Halt(a) => a
      case Go(k', inp') =>
        TurnOk(p, Flush(k, limit), inp, limit, mode);
        Decode(p, k', inp', limit, mode)
  }

  // ---- Whole-run safety

  /** A paused decoder is valid, within the limit, and has only added to the output. */
  lemma {:induction false} DecodeOk(p: Prop, k: Core, inp: seq<Byte>, limit: nat, mode: Mode)
    requires CoreOk(p, k) && |k.out| <= limit
    requires Decode(p, k, inp, limit, mode).Paused?
    ensures var r := Decode(p, k, inp, limit, mode);
            CoreOk(p, r.core) && k.out <= r.core.out && |r.core.out| <= limit && Suffix(r.rest, inp)
    ensures var r := Decode(p, k, inp, limit, mode);
            match r.status
            case FinishedWithMark => r.core.rem == SPEC_LEN && r.core.code == 0
            case NeedsMoreInput => r.core.rem == 0 && NextSymbol(p, r.core, r.rest).Starved?
            case MaybeFinishedWithoutMark => |r.core.out| == limit && r.core.rem == 0 && r.core.code == 0
            case NotFinished => |r.core.out| == limit && mode == FinishAny && r.core.rem != SPEC_LEN
            case NotSpecified => false
    decreases Room(k, limit)
  {
    hide TakeTurn, Pow2, Run;
    if k.rem != SPEC_LEN {
      FlushOk(p, k, limit);
      var k1 := Flush(k, limit);
      var t := TakeTurn(p, k1, inp, limit, mode);
      if t.Go? {
        TurnOk(p, k1, inp, limit, mode);
        TurnConsumes(p, k1, inp, limit, mode);
        DecodeOk(p, t.core, t.inp, limit, mode);
      } else {
        HaltOk(p, k1, inp, limit, mode);
      }
    }
  }

  lemma TurnConsumes(p: Prop, k: Core, inp: seq<Byte>, limit: nat, mode: Mode)
    requires Flushed(p, k, limit)
    requires TakeTurn(p, k, inp, limit, mode).Go?
    ensures Suffix(TakeTurn(p, k, inp, limit, mode).inp, inp)
  {
    hide Run, Pow2;
    ContextOk(p, k);
    RunConsumes(ContextOf(p, k), Start(k, inp));
  }

  lemma HaltOk(p: Prop, k: Core, inp: seq<Byte>, limit: nat, mode: Mode)
    requires Flushed(p, k, limit)
    requires TakeTurn(p, k, inp, limit, mode).Halt? && TakeTurn(p, k, inp, limit, mode).answer.Paused?
    ensures var r := TakeTurn(p, k, inp, limit, mode).answer;
            r.core == k && r.rest == inp &&
            match r.status
            case FinishedWithMark => false
            case NeedsMoreInput => k.rem == 0 && NextSymbol(p, k, inp).Starved?
            case MaybeFinishedWithoutMark => |k.out| == limit && k.rem == 0 && k.code == 0
            case NotFinished => |k.out| == limit && mode == FinishAny
            case NotSpecified => false
  {
    hide Run, Pow2;
  }

  // ---- Input in pieces

  /** Continue a paused decoder with more input: only a decoder that asked for more goes on. */
  function Resume(p: Prop, a: Answer, more: seq<Byte>, limit: nat, mode: Mode): Answer
    requires a.Paused? ==> CoreOk(p, a.core) && |a.core.out| <= limit
  {
    match a
    case Failed(s) => Failed(s)
    case Paused(NeedsMoreInput, k, rest) => Decode(p, k, rest + more, limit, mode)
    case Paused(s, k, rest) => Paused(s, k, rest + more)
  }

  lemma NextSymbolExtends(p: Prop, k: Core, inp: seq<Byte>, more: seq<Byte>)
    requires CoreOk(p, k) && NextSymbol(p, k, inp).Finished?
    ensures NextSymbol(p, k, inp + more) == ExtendOutcome(NextSymbol(p, k, inp), more)
  {
    hide Run, Pow2;
    ContextOk(p, k);
    RunExtends(ContextOf(p, k), Start(k, inp), more);
    assert ExtendPlace(Start(k, inp), more) == Start(k, inp + more);
  }

  /** Bytes that left a symbol incomplete are all used by it once it is complete. */
  lemma NextSymbolNeeds(p: Prop, k: Core, inp: seq<Byte>, more: seq<Byte>)
    requires CoreOk(p, k) && NextSymbol(p, k, inp).Starved? && NextSymbol(p, k, inp + more).Finished?
    ensures |NextSymbol(p, k, inp + more).coder.inp| < |more|
    ensures Suffix(NextSymbol(p, k, inp + more).coder.inp, more)
  {
    hide Run, Pow2;
    ContextOk(p, k);
    var x := ContextOf(p, k);
    assert ExtendPlace(Start(k, inp), more) == Start(k, inp + more);
    if |NextSymbol(p, k, inp + more).coder.inp| >= |more| {
      RunShrinks(x, Start(k, inp), more);
    }
    RunConsumes(x, Start(k, inp + more));
  }

  function ExtendTurn(t: Turn, more: seq<Byte>): Turn {
    match t
    case Go(k, inp) => Go(k, inp + more)
    case Halt(Paused(s, k, rest)) => Halt(Paused(s, k, rest + more))
    case Halt(Failed(s)) => Halt(Failed(s))
  }

  /** A turn that did not run out of input goes the same way when more input follows. */
  lemma TurnExtends(p: Prop, k: Core, a: seq<Byte>, b: seq<Byte>, limit: nat, mode: Mode)
    requires Flushed(p, k, limit)
    requires var t := TakeTurn(p, k, a, limit, mode);
             !(t.Halt? && t.answer.Paused? && t.answer.status == NeedsMoreInput)
    ensures TakeTurn(p, k, a + b, limit, mode) == ExtendTurn(TakeTurn(p, k, a, limit, mode), b)
  {
    hide NextSymbol, Pow2, CoreOk;
    if NextSymbol(p, k, a).Finished? {
      NextSymbolExtends(p, k, a, b);
      ApplyExtends(p, k, NextSymbol(p, k, a), b);
    }
  }

  lemma ApplyExtends(p: Prop, k: Core, r: Outcome, more: seq<Byte>)
    requires r.Finished?
    ensures Apply(p, k, ExtendOutcome(r, more)) == Apply(p, k, r)
  {
  }

  /** Input given in two pieces decodes as the two pieces joined. */
  lemma {:induction false} DecodeInPieces(p: Prop, k: Core, a: seq<Byte>, b: seq<Byte>, limit: nat, mode: Mode)
    requires CoreOk(p, k) && |k.out| <= limit
    ensures var r := Decode(p, k, a, limit, mode);
            r.Paused? ==> CoreOk(p, r.core) && |r.core.out| <= limit
    ensures Decode(p, k, a + b, limit, mode) == Resume(p, Decode(p, k, a, limit, mode), b, limit, mode)
    decreases Room(k, limit)
  {
    hide TakeTurn, Pow2, NextSymbol;
    if Decode(p, k, a, limit, mode).Paused? { DecodeOk(p, k, a, limit, mode); }
    if k.rem != SPEC_LEN {
      FlushOk(p, k, limit);
      var k1 := Flush(k, limit);
      var t := TakeTurn(p, k1, a, limit, mode);
      if t.Halt? && t.answer.Paused? && t.answer.status == NeedsMoreInput {
        HaltOk(p, k1, a, limit, mode);
        assert Flush(k1, limit) == k1;
      } else {
        TurnExtends(p, k1, a, b, limit, mode);
        if t.Go? {
          TurnOk(p, k1, a, limit, mode);
          DecodeInPieces(p, t.core, t.inp, b, limit, mode);
        }
      }
    }
  }

  // ---- Output in pieces

  /** Decoding to an early limit and going on from there is decoding to the later limit. */
  lemma {:induction false} DecodeInSteps(p: Prop, k: Core, inp: seq<Byte>, near: nat, far: nat, mode: Mode)
    requires CoreOk(p, k) && |k.out| <= near <= far
    ensures var r := Decode(p, k, inp, near, FinishAny);
            match r
            case Failed(s) => Decode(p, k, inp, far, mode) == r
            case Paused(_, k', rest) =>
              CoreOk(p, k') && |k'.out| <= near &&
              Decode(p, k, inp, far, mode) == Decode(p, k', rest, far, mode)
    decreases Room(k, near)
  {
    hide TakeTurn, Pow2, NextSymbol;
    if Decode(p, k, inp, near, FinishAny).Paused? { DecodeOk(p, k, inp, near, FinishAny); }
    if k.rem != SPEC_LEN {
      FlushOk(p, k, near);
      FlushTwice(p, k, near, far);
      var k1 := Flush(k, near);
      SameDecode(p, k, k1, inp, far, mode);
      if |k1.out| < near {
        TurnAnyLimit(p, k1, inp, near, FinishAny, far, mode);
        var t := TakeTurn(p, k1, inp, near, FinishAny);
        if t.Go? {
          TurnOk(p, k1, inp, near, FinishAny);
          DecodeInSteps(p, t.core, t.inp, near, far, mode);
        } else if t.answer.Paused? {
          HaltOk(p, k1, inp, near, FinishAny);
        }
      } else {
        AtLimitHalts(p, k1, inp, near);
      }
    }
  }

  /** Decoding starts by flushing, so states with the same flush decode alike. */
  lemma SameDecode(p: Prop, k: Core, k1: Core, inp: seq<Byte>, limit: nat, mode: Mode)
    requires CoreOk(p, k) && CoreOk(p, k1) && |k.out| <= limit && |k1.out| <= limit
    requires k.rem != SPEC_LEN && k1.rem != SPEC_LEN
    requires Flush(k, limit) == Flush(k1, limit)
    ensures Decode(p, k, inp, limit, mode) == Decode(p, k1, inp, limit, mode)
  {
    hide TakeTurn, Pow2, Flush;
  }

  lemma FlushSame(p: Prop, k: Core, inp: seq<Byte>, limit: nat, mode: Mode)
    requires CoreOk(p, k) && |k.out| <= limit
    ensures CoreOk(p, Flush(k, limit)) && |Flush(k, limit).out| <= limit
    ensures Decode(p, Flush(k, limit), inp, limit, mode) == Decode(p, k, inp, limit, mode)
  {
    hide CoreOk, TakeTurn, CopyBack;
    FlushOk(p, k, limit);
    FlushTwice(p, k, limit, limit);
    if k.rem != SPEC_LEN {
      CoreReady(p, k);
      SameDecode(p, k, Flush(k, limit), inp, limit, mode);
    }
  }

  lemma CoreReady(p: Prop, k: Core)
    requires CoreOk(p, k)
    ensures TOP <= k.range < U32 && k.code < U32 && PropOk(p) && k.rem <= SPEC_LEN
  {
  }

  lemma TurnAnyLimit(p: Prop, k: Core, inp: seq<Byte>, near: nat, mode: Mode, far: nat, mode': Mode)
    requires Flushed(p, k, near) && |k.out| < near <= far
    ensures Flushed(p, k, far) && Flush(k, far) == k
    ensures TakeTurn(p, k, inp, far, mode') == TakeTurn(p, k, inp, near, mode)
  {
    hide NextSymbol, Pow2, CoreOk;
  }

  lemma AtLimitHalts(p: Prop, k: Core, inp: seq<Byte>, limit: nat)
    requires Flushed(p, k, limit) && |k.out| == limit
    ensures var t := TakeTurn(p, k, inp, limit, FinishAny);
            t.Halt? && t.answer.Paused? && t.answer.core == k && t.answer.rest == inp
  {
    hide NextSymbol, Pow2, CoreOk;
  }

  // ---- The first symbol

  predicate RepOnly(n: Node) {
    match n
    case IsRepG0 => true
    case IsRep0Long => true
    case IsRepG1 => true
    case IsRepG2 => true
    case LenChoice(k) => k.Rep?
    case LenChoice2(k) => k.Rep?
    case LenBit(k, _, _) => k.Rep?
    case Done(s) => ClassOf(s) == ClassRep
    case _ => false
  }

  predicate RepFree(n: Node) {
    !RepOnly(n) && !n.IsMatch? && !n.IsRep?
  }

  lemma RepStays(x: Ctx, n: Node, b: bool)
    requires NodeOk(n) && !n.Done? && !n.IsMatch? && !n.IsRep?
    ensures RepOnly(Next(x, n, b)) == RepOnly(n)
    ensures RepFree(Next(x, n, b)) == RepFree(n)
  {
    hide NodeOk, Pow2;
  }

  lemma {:induction false} RepDecided(x: Ctx, w: Place)
    requires PlaceOk(x, w) && Run(x, w).Finished? && !w.node.IsMatch? && !w.node.IsRep?
    ensures ClassOf(Run(x, w).symbol) == ClassRep <==> RepOnly(w.node)
    decreases Steps(w.node)
  {
    hide NodeOk, Follow, Slot, RepOnly, Steps;
    if w.node.Done? {
      assert RepOnly(w.node) <==> ClassOf(w.node.symbol) == ClassRep by { RepDone(w.node); }
    } else {
      var c := Normal(w.coder);
      var b := if w.node.DirectBit? then DirectOf(c) else BitOf(c, w.probs[SlotOf(x, w.node, w.probs)]);
      RepStays(x, w.node, b);
      NotBack(x, w.node, b);
      RepDecided(x, Step(x, w));
    }
  }

  lemma RepDone(n: Node)
    requires n.Done?
    ensures RepOnly(n) <==> ClassOf(n.symbol) == ClassRep
  {
  }

  lemma NotBack(x: Ctx, n: Node, b: bool)
    requires NodeOk(n) && !n.Done? && !n.IsMatch? && !n.IsRep?
    ensures !Next(x, n, b).IsMatch? && !Next(x, n, b).IsRep?
  {
    hide NodeOk, Pow2;
  }

  /** On a fresh decoder the first symbol refers back to a recent distance exactly when `code` is too big. */
  lemma FirstSymbolRep(p: Prop, k: Core, inp: seq<Byte>)
    requires CoreOk(p, k) && k.out == [] && k.rem == 0 && NextSymbol(p, k, inp).Finished?
    ensures ClassOf(NextSymbol(p, k, inp).symbol) == ClassRep <==> k.code >= BAD_REP_CODE
  {
    ContextOk(p, k);
    FreshRun(ContextOf(p, k), Start(k, inp));
  }

  lemma FreshRun(x: Ctx, w: Place)
    requires PlaceOk(x, w) && w.node.IsMatch? && Run(x, w).Finished?
    requires w.coder.range == U32 - 1 && forall s :: 0 <= s < |w.probs| ==> w.probs[s] == PROB_INIT
    ensures ClassOf(Run(x, w).symbol) == ClassRep <==> w.coder.code >= BAD_REP_CODE
  {
    hide NodeOk, Slot, Steps;
    var s := SlotOf(x, w.node, w.probs);
    SlotInRegion(x, w.node);
    assert Bound(w.coder, 1024) == 0x7FFF_FC00;
    var w1 := Step(x, w);
    if w.coder.code < 0x7FFF_FC00 {
      assert w1.node.LitBit?;
      RepDecided(x, w1);
    } else {
      assert w1.node.IsRep? && w1.coder.range == 0x8000_03FF;
      FreshRep(x, w1, s);
    }
  }

  lemma FreshRep(x: Ctx, w: Place, s0: nat)
    requires PlaceOk(x, w) && w.node.IsRep? && Run(x, w).Finished?
    requires w.coder.range == 0x8000_03FF && IS_MATCH <= s0 < ALIGN
    requires forall s :: 0 <= s < |w.probs| && s != s0 ==> w.probs[s] == PROB_INIT
    ensures ClassOf(Run(x, w).symbol) == ClassRep <==> w.coder.code + 0x7FFF_FC00 >= BAD_REP_CODE
  {
    hide NodeOk, Steps, Slot;
    SlotInRegion(x, w.node);
    assert Bound(w.coder, 1024) == 0x4000_0000;
    RepDecided(x, Step(x, w));
  }

  // ---- The whole stream, from its five-byte header on

  const HEADER := 5

  datatype Decoder =
    | Waiting(got: seq<Byte>)
    | Running(core: Core, held: seq<Byte>)

  predicate DecoderOk(p: Prop, d: Decoder, limit: nat) {
    match d
    case Waiting(got) => PropOk(p) && |got| < HEADER && (got != [] ==> got[0] == 0)
    case Running(k, _) => CoreOk(p, k) && |k.out| <= limit
  }

  function CodeOf(h: seq<Byte>): nat
    requires |h| >= HEADER
    ensures CodeOf(h) < U32
  {
    (h[1] as int) * 0x100_0000 + (h[2] as int) * 0x1_0000 + (h[3] as int) * 0x100 + h[4]
  }

  function FreshCore(p: Prop, code: nat): (k: Core)
    requires PropOk(p) && code < U32
    ensures CoreOk(p, k)
  {
    Core(seq(NumProbs(p), _ => PROB_INIT), U32 - 1, code, 0, Reps(1, 1, 1, 1), [], 0)
  }

  datatype Reply = Refused(status: Status) | Reply(status: Status, next: Decoder)

  function ToReply(a: Answer): Reply {
    match a
    case Failed(s) => Refused(s)
    case Paused(s, k, rest) => Reply(s, Running(k, rest))
  }

  /** One call: `held` in the reply is every byte not yet decoded. */
  function Feed(p: Prop, d: Decoder, src: seq<Byte>, limit: nat, mode: Mode): Reply
    requires DecoderOk(p, d, limit)
  {
    match d
    case Waiting(got) =>
      var all := got + src;
      if all != [] && all[0] != 0 then Refused(NotSpecified)
      else if |all| < HEADER then Reply(NeedsMoreInput, Waiting(all))
      else ToReply(Decode(p, FreshCore(p, CodeOf(all)), all[HEADER..], limit, mode))
    case Running(k, held) => ToReply(Decode(p, k, held + src, limit, mode))
  }

  lemma FeedOk(p: Prop, d: Decoder, src: seq<Byte>, limit: nat, mode: Mode)
    requires DecoderOk(p, d, limit)
    ensures var r := Feed(p, d, src, limit, mode); r.Reply? ==> DecoderOk(p, r.next, limit)
  {
    hide Decode, CoreOk;
    match d
    case Waiting(got) =>
      var all := got + src;
      if (all == [] || all[0] == 0) && |all| >= HEADER {
        var k := FreshCore(p, CodeOf(all));
        assert |k.out| == 0;
        if Decode(p, k, all[HEADER..], limit, mode).Paused? { DecodeOk(p, k, all[HEADER..], limit, mode); }
      }
    case Running(k, held) =>
      if Decode(p, k, held + src, limit, mode).Paused? { DecodeOk(p, k, held + src, limit, mode); }
  }

  /** What a caller does with the next piece: feed it, or once decoding has stopped keep it with the unread bytes. */
  function FeedNext(p: Prop, r: Reply, more: seq<Byte>, limit: nat, mode: Mode): Reply
    requires r.Reply? ==> DecoderOk(p, r.next, limit)
  {
    match r
    case Refused(s) => r
    case Reply(NeedsMoreInput, d) => Feed(p, d, more, limit, mode)
    case Reply(s, Running(k, held)) => Reply(s, Running(k, held + more))
    case Reply(_, Waiting(_)) => r
  }

  lemma FeedTwoPieces(p: Prop, d: Decoder, a: seq<Byte>, b: seq<Byte>, limit: nat, mode: Mode)
    requires DecoderOk(p, d, limit)
    ensures var r := Feed(p, d, a, limit, mode); r.Reply? ==> DecoderOk(p, r.next, limit)
    ensures Feed(p, d, a + b, limit, mode) == FeedNext(p, Feed(p, d, a, limit, mode), b, limit, mode)
  {
    hide Decode, CoreOk, CodeOf;
    FeedOk(p, d, a, limit, mode);
    match d
    case Waiting(got) =>
      var all := got + a;
      assert got + (a + b) == all + b;
      if all != [] && all[0] != 0 {
      } else if |all| >= HEADER {
        var k := FreshCore(p, CodeOf(all));
        CodeOfPrefix(all, b);
        assert (all + b)[HEADER..] == all[HEADER..] + b;
        DecodeInPieces(p, k, all[HEADER..], b, limit, mode);
        NoMark(p, k, all[HEADER..], limit, mode);
      }
    case Running(k, held) =>
      assert held + (a + b) == (held + a) + b;
      DecodeInPieces(p, k, held + a, b, limit, mode);
      NoMark(p, k, held + a, limit, mode);
  }

  lemma CodeOfPrefix(h: seq<Byte>, more: seq<Byte>)
    requires |h| >= HEADER
    ensures CodeOf(h + more) == CodeOf(h)
  {
  }

  lemma NoMark(p: Prop, k: Core, inp: seq<Byte>, limit: nat, mode: Mode)
    requires CoreOk(p, k) && |k.out| <= limit
    ensures var r := Decode(p, k, inp, limit, mode); r.Paused? ==> r.status != NotSpecified
  {
    hide Decode, CoreOk;
    if Decode(p, k, inp, limit, mode).Paused? { DecodeOk(p, k, inp, limit, mode); }
  }

  function Joined(pieces: seq<seq<Byte>>): seq<Byte> {
    if pieces == [] then [] else pieces[0] + Joined(pieces[1..])
  }

  /** Feed the pieces one call at a time. */
  function FeedPieces(p: Prop, r: Reply, pieces: seq<seq<Byte>>, limit: nat, mode: Mode): Reply
    requires r.Reply? ==> DecoderOk(p, r.next, limit)
    decreases |pieces|
  {
    if pieces == [] then r
    else
      FeedNextOk(p, r, pieces[0], limit, mode);
      FeedPieces(p, FeedNext(p, r, pieces[0], limit, mode), pieces[1..], limit, mode)
  }

  lemma FeedNextOk(p: Prop, r: Reply, more: seq<Byte>, limit: nat, mode: Mode)
    requires r.Reply? ==> DecoderOk(p, r.next, limit)
    ensures var q := FeedNext(p, r, more, limit, mode); q.Reply? ==> DecoderOk(p, q.next, limit)
  {
    hide Feed;
    if r.Reply? { FeedOk(p, r.next, more, limit, mode); }
  }

  /** Chunk independence: however the input is cut, the calls end where one call on all of it ends. */
  lemma {:induction false} ChunkIndependence(
    p: Prop, d: Decoder, first: seq<Byte>, pieces: seq<seq<Byte>>, limit: nat, mode: Mode)
    requires DecoderOk(p, d, limit)
    ensures var r := Feed(p, d, first, limit, mode); r.Reply? ==> DecoderOk(p, r.next, limit)
    ensures FeedPieces(p, Feed(p, d, first, limit, mode), pieces, limit, mode)
            == Feed(p, d, first + Joined(pieces), limit, mode)
    decreases |pieces|
  {
    hide Feed;
    FeedOk(p, d, first, limit, mode);
    if pieces == [] {
      assert first + Joined(pieces) == first;
    } else {
      FeedTwoPieces(p, d, first, pieces[0], limit, mode);
      ChunkIndependence(p, d, first + pieces[0], pieces[1..], limit, mode);
      assert first + Joined(pieces) == first + pieces[0] + Joined(pieces[1..]);
    }
  }
}
