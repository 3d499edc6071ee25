/**
 * The decoder object of LzmaDec.c and its methods, proved against `LzmaStream`.
 * Input buffers are immutable sequences; `buf` is the read position in the current one.
 */
module LzmaDec {
  import opened LzmaBits
  import opened LzmaRange
  import opened LzmaSymbol
  import opened LzmaStream
  import opened LzmaRangeDecoder

  datatype SRes = SzOk | SzErrorData | SzErrorFail | SzErrorUnsupported | SzErrorInputEof

  /** The locals that the symbol loop keeps besides the coder registers. */
  datatype Regs = Regs(state: nat, reps: Reps, dicPos: nat, processedPos: nat, len: nat)

  datatype Dummy = DummyError | DummyLit | DummyMatch | DummyRep

  function DummyOf(c: Class): Dummy {
    match c
    case ClassLit => DummyLit
    case ClassMatch => DummyMatch
    case ClassRep => DummyRep
  }

  // ---- Index arithmetic

  lemma MaskIsMod(x: nat, k: nat)
    ensures And(x, Pow2(k) - 1) == x % Pow2(k)
  {
    LowZero(x);
    AndRun(x, k, 0);
    LowIsMod(x, k);
  }

  lemma ModOfMod(x: nat, a: nat, b: nat)
    requires a >= 1 && b >= 1
    ensures a * b >= 1 && x % (a * b) % a == x % a
  {
    MulMono(a, 1, b);
    var q, r := x / (a * b), x % (a * b);
    var q', r' := r / a, r % a;
    assert x == q * (a * b) + r && r == q' * a + r';
    assert q * (a * b) == (q * b) * a by { Reassoc(q, a, b); }
    assert (q * b + q') * a == (q * b) * a + q' * a;
    DivUnique(x, a, q * b + q', r');
  }

  lemma Reassoc(q: int, a: int, b: int)
    ensures q * (a * b) == (q * b) * a
  {
  }

  /** The masked word of the real decoder indexes the literal coder of the format. */
  lemma RealLiteralIndex(p: Prop, out: seq<Byte>, pos: nat)
    requires PropOk(p) && out != [] && pos == |out|
    ensures Pow2(8 + p.lp) >= Pow2(8 - p.lc)
    ensures 3 * (And(pos * 256 % U32 + out[|out| - 1], Pow2(8 + p.lp) - Pow2(8 - p.lc)) * Pow2(p.lc))
            == LIT_SIZE * LitCoder(p, out)
  {
    hide And, Pow2, Low;
    var prev: nat := out[|out| - 1];
    var x := pos * 256 % U32 + prev;
    MaskParts(x, 8 + p.lp, 8 - p.lc);
    HighBits(p, pos, prev);
    LowBits(p, pos, prev);
    WholeByte(p);
    MaskedSum(pos % Pow2(p.lp), prev, Pow2(8 - p.lc), Pow2(p.lc));
  }

  lemma MaskParts(x: nat, hi: nat, lo: nat)
    requires lo <= hi
    ensures Pow2(lo) <= Pow2(hi)
    ensures And(x, Pow2(hi) - Pow2(lo)) == x % Pow2(hi) - x % Pow2(lo)
  {
    hide And, Pow2, Low;
    AndRun(x, hi, lo);
    LowIsMod(x, hi);
    LowIsMod(x, lo);
  }

  lemma HighBits(p: Prop, pos: nat, prev: nat)
    requires PropOk(p) && prev < 256
    ensures (pos * 256 % U32 + prev) % Pow2(8 + p.lp) == 256 * (pos % Pow2(p.lp)) + prev
  {
    hide Pow2;
    Pow2Word();
    Pow2Sum(8, p.lp);
    HighPart(p, pos, prev);
  }

  lemma WholeByte(p: Prop)
    requires PropOk(p)
    ensures Pow2(8 - p.lc) * Pow2(p.lc) == 256
  {
    hide Pow2;
    Pow2Word();
    Pow2Sum(8 - p.lc, p.lc);
  }

  lemma LowBits(p: Prop, pos: nat, prev: nat)
    requires PropOk(p) && prev < 256
    ensures (pos * 256 % U32 + prev) % Pow2(8 - p.lc) == prev % Pow2(8 - p.lc)
  {
    hide Pow2;
    WholeByte(p);
    WordShift(pos);
    LowPart(pos % 0x100_0000, prev, Pow2(8 - p.lc), Pow2(p.lc));
  }

  /** The shifted sum of the dry run indexes the same coder. */
  lemma DryLiteralIndex(p: Prop, out: seq<Byte>, pos: nat)
    requires PropOk(p) && out != [] && pos == |out|
    ensures And(pos, Pow2(p.lp) - 1) * Pow2(p.lc) + out[|out| - 1] / Pow2(8 - p.lc) == LitCoder(p, out)
  {
    hide And, Pow2, Low;
    MaskIsMod(pos, p.lp);
  }

  lemma WordShift(pos: nat)
    ensures pos * 256 % U32 == 256 * (pos % 0x100_0000)
    ensures pos * 256 % U32 / 256 == pos % 0x100_0000
  {
    var q, r := pos / 0x100_0000, pos % 0x100_0000;
    DivUnique(pos * 256, U32, q, 256 * r);
    DivUnique(256 * r, 256, r, 0);
  }

  lemma HighPart(p: Prop, pos: nat, prev: nat)
    requires PropOk(p) && prev < 256
    ensures (pos * 256 % U32 + prev) % (256 * Pow2(p.lp)) == 256 * (pos % Pow2(p.lp)) + prev
  {
    hide Pow2;
    WordShift(pos);
    var a, l := pos % 0x100_0000, Pow2(p.lp);
    Pow2Sum(p.lp, 24 - p.lp);
    Pow2Twentyfour();
    ModOfMod(pos, l, Pow2(24 - p.lp));
    var q, r := a / l, a % l;
    assert a == q * l + r;
    var y := 256 * r + prev;
    assert 256 * a + prev == q * (256 * l) + y by {
      assert 256 * (q * l) == q * (256 * l) by { Reassoc(q, 256, l); Reassoc(256, q, l); }
    }
    assert y < 256 * l;
    DivUnique(256 * a + prev, 256 * l, q, y);
  }

  lemma Pow2Twentyfour()
    ensures Pow2(24) == 0x100_0000
  {
    hide Pow2;
    Pow2Word();
    Pow2Sum(8, 16);
  }

  lemma LowPart(a: nat, prev: nat, d: nat, l: nat)
    requires d * l == 256 && d >= 1
    ensures (256 * a + prev) % d == prev % d
  {
    var q, r := prev / d, prev % d;
    assert prev == q * d + r;
    assert 256 * a == (l * a) * d by { assert (d * l) * a == (l * a) * d; }
    assert (l * a + q) * d == (l * a) * d + q * d;
    DivUnique(256 * a + prev, d, l * a + q, r);
  }

  lemma MaskedSum(h: nat, prev: nat, d: nat, l: nat)
    requires d * l == 256 && d >= 1
    ensures (256 * h + prev - prev % d) * l == 256 * (h * l + prev / d)
  {
    var q := prev / d;
    assert prev - prev % d == q * d;
    assert (256 * h + q * d) * l == 256 * h * l + q * d * l;
    assert q * d * l == q * (d * l);
    assert 256 * h * l == 256 * (h * l);
  }

  // ---- The decoder object

  class CLzmaDec {
    var prop: Prop
    var probs: array<nat>
    var dic: array<Byte>
    var tempBuf: array<Byte>
    var dicPos: nat
    var buf: nat
    var range: nat
    var code: nat
    var processedPos: nat
    var checkDicSize: nat
    var reps: Reps
    var state: nat
    var remainLen: nat
    var tempBufSize: nat

    ghost predicate Shape()
      reads this
    {
      && PropOk(prop) && probs.Length == NumProbs(prop)
      && dic.Length < U32 && tempBuf.Length == 20 && dic != tempBuf
      && dicPos <= dic.Length
    }

    /** The decoder state the registers stand for; `range` and `code` are kept elsewhere while decoding. */
    ghost function CoreOf(r: Regs, range: nat, code: nat): Core
      requires r.dicPos <= dic.Length
      reads this, probs, dic
    {
      Core(probs[..], range, code, r.state, r.reps, dic[..r.dicPos], r.len)
    }

    /** `checkDicSize` is zero until a whole window has been written, and the window size from then on. */
    ghost predicate Window(pos: nat)
      reads this
    {
      checkDicSize == if pos >= prop.dicSize then prop.dicSize else 0
    }

    /** The same, except that the switch may still be due when the window has just been filled. */
    ghost predicate WindowDue(pos: nat)
      reads this
    {
      if checkDicSize == 0 then pos <= prop.dicSize else checkDicSize == prop.dicSize <= pos
    }

    // ---- Match copying

    /** Copy `curLen` bytes within the dictionary, which is the output buffer and never wraps. */
    method CopyMatch(dicPos0: nat, rep0: nat, curLen: nat)
      requires 1 <= rep0 <= dicPos0 && dicPos0 + curLen <= dic.Length && curLen >= 1
      modifies dic
      ensures dic[..dicPos0 + curLen] == CopyBack(old(dic[..dicPos0]), rep0, curLen)
      ensures forall i :: dicPos0 + curLen <= i < dic.Length ==> dic[i] == old(dic[i])
    {
      var pos := 0;
      if rep0 <= dicPos0 {
        pos := dicPos0 - rep0;
      }
      hide CopyBack;
      assert curLen <= dic.Length - pos;
      var src := pos - dicPos0;
      var dest := dicPos0;
      ghost var start := dic[..dicPos0];
      while dest < dicPos0 + curLen
        invariant dicPos0 <= dest <= dicPos0 + curLen
        invariant CopyBack(dic[..dest], rep0, dicPos0 + curLen - dest) == CopyBack(start, rep0, curLen)
        invariant forall i :: dicPos0 + curLen <= i < dic.Length ==> dic[i] == old(dic[i])
      {
        ghost var before := dic[..dest];
        CopyBackStep(before, rep0, dicPos0 + curLen - dest);
        dic[dest] := dic[dest + src];
        assert dic[..dest + 1] == before + [before[dest - rep0]];
        dest := dest + 1;
      }
      CopyBackStep(dic[..dest], rep0, 0);
    }

    // ---- One symbol

    /** `q` and the registers of `rc` are the state after symbol `s` was applied to `k`, matches written up to `limit`. */
    ghost predicate Took(rc: RangeDecoder, k: Core, s: Outcome, limit: nat, q: Regs)
      reads this, probs, dic, rc
    {
      && rc.Valid() && !Dry(rc.View())
      && s.Finished? && Normal(rc.View()) == s.coder
      && q.dicPos <= dic.Length && q.processedPos == q.dicPos <= limit
      && Apply(prop, k, s).Accepted?
      && CoreOf(q, s.coder.range, s.coder.code) == Flush(Apply(prop, k, s).core, limit)
    }

    /** What the symbol loop knows about its locals when it reads a symbol. */
    ghost predicate Loop(rc: RangeDecoder, r: Regs, limit: nat, k: Core)
      reads this, probs, dic, rc
    {
      && Shape() && rc.probs == probs && rc.Valid() && !Dry(rc.View())
      && CoreOk(prop, k) && k.rem == 0
      && r.processedPos == r.dicPos <= limit <= dic.Length && r.len == 0
      && k == CoreOf(r, Normal(rc.View()).range, Normal(rc.View()).code)
      && WindowDue(r.processedPos)
    }

    ghost function Ahead(rc: RangeDecoder, k: Core): Outcome
      requires rc.Valid() && !Dry(rc.View()) && CoreOk(prop, k)
      reads this, rc
    {
      NextSymbol(prop, k, Normal(rc.View()).inp)
    }

    /** The slot of the literal coder chosen by position and previous byte. */
    method LiteralProb(r: Regs, ghost k: Core) returns (prob: nat)
      requires Shape() && r.dicPos <= dic.Length && CoreOk(prop, k) && k.out == dic[..r.dicPos]
      requires r.processedPos == r.dicPos && WindowDue(r.processedPos)
      ensures prob == LitBase(prop, k.out)
    {
      hide And, Pow2, LitCoder;
      prob := LITERAL;
      if r.processedPos != 0 || checkDicSize != 0 {
        RealLiteralIndex(prop, k.out, r.processedPos);
        var lpMask := Pow2(8 + prop.lp) - Pow2(8 - prop.lc);
        var prev := dic[r.dicPos - 1];
        prob := prob + 3 * (And(r.processedPos * 256 % U32 + prev, lpMask) * Pow2(prop.lc));
      }
    }

    /** A literal: eight bits, then one byte of output. */
    method TakeLiteral(rc: RangeDecoder, r: Regs, limit: nat, ghost k: Core, ghost s: Outcome) returns (q: Regs)
      requires Shape() && rc.probs == probs && CoreOk(prop, k) && k.rem == 0
      requires r.processedPos == r.dicPos < limit <= dic.Length && r.len == 0 && WindowDue(r.processedPos)
      requires k.state == r.state && k.reps == r.reps && k.out == dic[..r.dicPos]
      requires var x := ContextOf(prop, k);
               rc.Can(x, LitBit(1, x.matchByte, x.state >= 7)) && rc.Rest(x, LitBit(1, x.matchByte, x.state >= 7)) == s
      modifies rc, probs, dic
      ensures Took(rc, k, s, limit, q) && rc.buf >= old(rc.buf) && q.dicPos == r.dicPos + 1
      ensures forall i :: limit <= i < dic.Length ==> dic[i] == old(dic[i])
    {
      hide LitBase, CoreOk, NodeOk, PlaceOk, Steps, Adaptive, Run, Follow, Slot, Pow2, CopyBack, Normal, CtxOk;
      ghost var x := ContextOf(prop, k);
      var prob := LiteralProb(r, k);
      var symbol;
      var state := r.state;
      if state < 7 {
        symbol := rc.DecodeLiteral(prob, x);
        state := state - (if state < 4 then state else 3);
      } else {
        FarState(prop, k);
        var matchByte := dic[r.dicPos - r.reps.r0];
        symbol := rc.DecodeMatchedLiteral(prob, matchByte, x);
        state := state - (if state < 10 then 3 else 6);
      }
      rc.AtDone(x, Lit(symbol % 256));
      dic[r.dicPos] := symbol % 256;
      q := r.(state := state, dicPos := r.dicPos + 1, processedPos := r.processedPos + 1);
      assert dic[..q.dicPos] == k.out + [symbol % 256];
    }

    /** A match: check the space, write what fits below `limit`, keep the rest in `len`. */
    method TakeMatch(r: Regs, limit: nat, ghost k: Core) returns (ok: bool, q: Regs)
      requires Shape() && CoreOk(prop, k) && Owes(k)
      requires r.processedPos == r.dicPos <= limit <= dic.Length && r.len == k.rem
      requires k == CoreOf(r, k.range, k.code)
      modifies dic
      ensures ok <==> r.dicPos < limit
      ensures ok ==> q.processedPos == q.dicPos <= limit && r.dicPos < q.dicPos
      ensures ok ==> CoreOf(q, k.range, k.code) == Flush(k, limit)
      ensures forall i :: limit <= i < dic.Length ==> dic[i] == old(dic[i])
    {
      hide CopyBack, Pow2, CoreOk;
      var rem := limit - r.dicPos;
      if rem == 0 { return false, r; }
      OwesBack(prop, k);
      var curLen := if rem < r.len then rem else r.len;
      CopyMatch(r.dicPos, r.reps.r0, curLen);
      ok, q := true, r.(processedPos := r.processedPos + curLen, len := r.len - curLen, dicPos := r.dicPos + curLen);
    }

    /** What a symbol that is not a literal does: the part common to all three kinds. */
    ghost predicate Before(rc: RangeDecoder, dicPos: nat, processedPos: nat, limit: nat, k: Core, s: Outcome)
      reads this, dic
    {
      && Shape() && rc.probs == probs && CoreOk(prop, k) && k.rem == 0
      && processedPos == dicPos <= limit <= dic.Length && WindowDue(processedPos)
      && k.out == dic[..dicPos]
      && s.Finished? && SymbolOk(s.symbol)
      && |s.probs| == |k.probs| && ProbsOk(s.probs) && LzmaRange.Ready(s.coder)
      && (dicPos == limit ==> ClassOf(s.symbol) == ClassMatch)
      && (dicPos == 0 ==> ClassOf(s.symbol) != ClassRep)
    }

    /** The outcome of a symbol: taken, refused by its meaning, or without space at the limit. */
    ghost predicate Settled(rc: RangeDecoder, k: Core, s: Outcome, limit: nat, ok: bool, q: Regs)
      reads this, probs, dic, rc
    {
      && s.Finished?
      && (ok ==> Took(rc, k, s, limit, q) && (s.symbol == EndMark || q.dicPos > |k.out|))
      && (!ok ==> Apply(prop, k, s).Rejected? || (|k.out| == limit && s.symbol != EndMark))
    }

    /** MATCH with its own distance: `r.len` is the length less two. */
    method TakeNewMatch(rc: RangeDecoder, r: Regs, limit: nat, ghost k: Core, ghost s: Outcome)
      returns (ok: bool, q: Regs)
      requires Before(rc, r.dicPos, r.processedPos, limit, k, s) && r.state == k.state + 12 && r.reps == k.reps && r.len <= 271
      requires rc.Can(ContextOf(prop, k), SlotBit(r.len + 2, 1)) && rc.Rest(ContextOf(prop, k), SlotBit(r.len + 2, 1)) == s
      modifies rc, probs, dic
      ensures Settled(rc, k, s, limit, ok, q) && rc.buf >= old(rc.buf)
      ensures forall i :: limit <= i < dic.Length ==> dic[i] == old(dic[i])
    {
      hide NodeOk, PlaceOk, Pow2, ContextOf, CopyBack, CoreOk;
      ghost var x := ContextOf(prop, k);
      var distance, end, sym := rc.DecodeDistance(r.len, x);
      rc.AtDone(x, sym);
      if end {
        q := r.(state := r.state - 12, len := SPEC_LEN);
        ok := true;
        return;
      }
      q := r.(reps := Reps(distance + 1, r.reps.r0, r.reps.r1, r.reps.r2),
              state := if r.state < 12 + 7 then 7 else 7 + 3);
      if distance >= (if checkDicSize == 0 then r.processedPos else checkDicSize) {
        ok := false;
        return;
      }
      ghost var k1 := Apply(prop, k, s).core;
      MatchOk(prop, k, s);
      ok, q := TakeMatch(q.(len := r.len + 2), limit, k1);
    }

    method TakeRepMatch(rc: RangeDecoder, r: Regs, limit: nat, ghost k: Core, ghost s: Outcome)
      returns (ok: bool, q: Regs)
      requires Before(rc, r.dicPos, r.processedPos, limit, k, s) && rc.Valid() && !Dry(rc.View()) && s.coder == Normal(rc.View()) && s.probs == probs[..]
      requires s.symbol.Copy? && s.symbol.kind.Rep? && r.len + 2 == s.symbol.len
      requires r.reps == Recall(k.reps, s.symbol.kind.which) && r.state == if k.state < 7 then 8 else 11
      modifies dic
      ensures Settled(rc, k, s, limit, ok, q)
      ensures forall i :: limit <= i < dic.Length ==> dic[i] == old(dic[i])
    {
      hide Pow2, CopyBack, CoreOk;
      MatchOk(prop, k, s);
      ok, q := TakeMatch(r.(len := r.len + 2), limit, Apply(prop, k, s).core);
    }

    /** REP symbols and new matches, from the IsRep decision on. */
    method TakeReference(rc: RangeDecoder, r: Regs, limit: nat, posState: nat, ghost k: Core, ghost s: Outcome)
      returns (ok: bool, q: Regs)
      requires Before(rc, r.dicPos, r.processedPos, limit, k, s) && r.state == k.state && r.reps == k.reps && r.len == 0
      requires posState == 16 * ContextOf(prop, k).posState
      requires rc.Can(ContextOf(prop, k), IsRep) && rc.Rest(ContextOf(prop, k), IsRep) == s
      modifies rc, probs, dic
      ensures Settled(rc, k, s, limit, ok, q) && rc.buf >= old(rc.buf)
      ensures forall i :: limit <= i < dic.Length ==> dic[i] == old(dic[i])
    {
      hide NodeOk, PlaceOk, Pow2, CopyBack, CoreOk, Before, Settled, Run, ContextOf;
      BeforeShape(rc, r, limit, k, s);
      ghost var x := ContextOf(prop, k);
      assert r.state == x.state by { ContextState(prop, k); }
      var isRep := rc.DecodeBit(IS_REP + r.state, x, IsRep);
      if !isRep {
        var len := rc.DecodeLen(LEN_CODER, posState, x, NewMatch);
        ok, q := TakeNewMatch(rc, r.(state := r.state + 12, len := len), limit, k, s);
      } else {
        var short, reps, n := rc.DecodeRep(r.state, posState, r.reps, x);
        if short {
          rc.AtDone(x, ShortRep);
          ok, q := TakeShortRep(rc, r, limit, k, s);
        } else {
          var len := rc.DecodeLen(REP_LEN_CODER, posState, x, n.kind);
          rc.AtDone(x, Copy(n.kind, len + 2, 0));
          ok, q := TakeRepMatch(rc, r.(state := if r.state < 7 then 8 else 11, reps := reps, len := len), limit, k, s);
        }
      }
    }

    lemma BeforeShape(rc: RangeDecoder, r: Regs, limit: nat, k: Core, s: Outcome)
      requires Before(rc, r.dicPos, r.processedPos, limit, k, s)
      ensures prop.lc <= 8 && rc.probs == probs
    {
    }

    /** SHORTREP: one byte from the last distance. */
    method TakeShortRep(rc: RangeDecoder, r: Regs, limit: nat, ghost k: Core, ghost s: Outcome)
      returns (ok: bool, q: Regs)
      requires Before(rc, r.dicPos, r.processedPos, limit, k, s) && r.state == k.state && r.reps == k.reps && r.len == 0
      requires rc.Valid() && !Dry(rc.View()) && s == Finished(ShortRep, Normal(rc.View()), probs[..])
      modifies dic
      ensures Settled(rc, k, s, limit, ok, q)
      ensures forall i :: limit <= i < dic.Length ==> dic[i] == old(dic[i])
    {
      dic[r.dicPos] := dic[r.dicPos - r.reps.r0];
      q := r.(dicPos := r.dicPos + 1, processedPos := r.processedPos + 1, state := if r.state < 7 then 9 else 11);
      ok := true;
      assert dic[..q.dicPos] == k.out + [k.out[|k.out| - k.reps.r0]];
    }

    /** One turn of the symbol loop. */
    method DecodeSymbol(rc: RangeDecoder, r: Regs, limit: nat, ghost k: Core) returns (ok: bool, q: Regs)
      requires Loop(rc, r, limit, k)
      requires var s := Ahead(rc, k);
               s.Finished? && (r.dicPos == limit ==> ClassOf(s.symbol) == ClassMatch)
               && (r.dicPos == 0 ==> ClassOf(s.symbol) != ClassRep)
      modifies rc, probs, dic
      ensures Settled(rc, k, old(Ahead(rc, k)), limit, ok, q) && rc.buf >= old(rc.buf)
      ensures forall i :: limit <= i < dic.Length ==> dic[i] == old(dic[i])
    {
      hide NodeOk, Pow2, CopyBack, And, Run, Settled, Took, CoreOk, PlaceOk, ContextOf, LitBase;
      ghost var x, s := ContextOf(prop, k), Ahead(rc, k);
      EnterSymbol(rc, r, limit, k);
      MaskIsMod(r.processedPos, prop.pb);
      ContextState(prop, k);
      var posState := 16 * And(r.processedPos, Pow2(prop.pb) - 1);
      var isMatch := rc.DecodeBit(IS_MATCH + posState + r.state, x, IsMatch);
      if !isMatch {
        LiteralClass(rc, x);
        q := TakeLiteral(rc, r, limit, k, s);
        ok := true;
        TookLiteral(rc, k, s, limit, q);
      } else {
        ok, q := TakeReference(rc, r, limit, posState, k, s);
      }
    }

    /** The walk the loop is about to take is the next symbol of the state it stands for. */
    lemma EnterSymbol(rc: RangeDecoder, r: Regs, limit: nat, k: Core)
      requires Loop(rc, r, limit, k) && Ahead(rc, k).Finished?
      ensures rc.Can(ContextOf(prop, k), IsMatch) && rc.Rest(ContextOf(prop, k), IsMatch) == Ahead(rc, k)
    {
      hide Run, CoreOk, Fits, Pow2;
      ContextOk(prop, k);
      assert CoreOk(prop, k) ==> ProbsOk(k.probs) by { CoreProbs(prop, k); }
      RunNormal(ContextOf(prop, k), rc.At(IsMatch));
      assert rc.At(IsMatch).(coder := Normal(rc.View())) == Start(k, Normal(rc.View()).inp);
    }

    lemma TookLiteral(rc: RangeDecoder, k: Core, s: Outcome, limit: nat, q: Regs)
      requires Took(rc, k, s, limit, q) && s.Finished? && q.dicPos == |k.out| + 1
      ensures Settled(rc, k, s, limit, true, q)
    {
    }

    // ---- The symbol loop

    /** The decoder state between calls. */
    ghost function Here(): Core
      requires dicPos <= dic.Length
      reads this, probs, dic
    {
      CoreOf(Regs(state, reps, dicPos, processedPos, remainLen), range, code)
    }

    /** What holds whenever the registers are written back. */
    ghost predicate AtRest(limit: nat)
      reads this, probs, dic
    {
      && Shape() && CoreOk(prop, Here())
      && processedPos == dicPos <= limit <= dic.Length
      && (Owes(Here()) ==> dicPos == limit)
    }

    /** The next symbol is complete in `src`, and allowed where the output stands. */
    ghost predicate SymbolReady(src: seq<Byte>, limit: nat, lim: nat, mode: Mode)
      reads this, probs, dic
    {
      && AtRest(limit) && remainLen == 0 && limit <= lim <= dic.Length && buf <= |src|
      && NextSymbol(prop, Here(), src[buf..]).Finished?
      && (dicPos == limit ==>
            limit == lim && mode == FinishEnd && code != 0
            && ClassOf(NextSymbol(prop, Here(), src[buf..]).symbol) == ClassMatch)
      && (dicPos == 0 ==> ClassOf(NextSymbol(prop, Here(), src[buf..]).symbol) != ClassRep)
    }

    /** The loop locals stand for state `k` with input `inp` ahead, from which decoding gives `answer`. */
    ghost predicate OnCourse(
      rc: RangeDecoder, r: Regs, limit: nat, lim: nat, mode: Mode, k: Core, inp: seq<Byte>, answer: Answer)
      reads this, probs, dic, rc
    {
      && Shape() && rc.probs == probs && rc.Valid() && !Dry(rc.View())
      && CoreOk(prop, k) && r.processedPos == r.dicPos <= limit <= lim <= dic.Length
      && k == CoreOf(r, Normal(rc.View()).range, Normal(rc.View()).code)
      && (Owes(k) ==> r.dicPos == limit)
      && inp == Normal(rc.View()).inp
      && Decode(prop, k, inp, lim, mode) == answer
    }

    /**
     * LZMA_DECODE_REAL: one symbol in any case, then more while output space and
     * look-ahead last. `lim` is the limit of the whole call, `limit` the one to stop at here.
     */
    method DecodeReal(limit: nat, src: seq<Byte>, bufLimit: int, ghost lim: nat, ghost mode: Mode)
      returns (res: SRes)
      requires SymbolReady(src, limit, lim, mode)
      requires bufLimit <= buf || bufLimit + 20 <= |src|
      requires Window(processedPos) && (checkDicSize == 0 ==> limit <= prop.dicSize)
      modifies this, probs, dic
      ensures prop == old(prop) && probs == old(probs) && dic == old(dic) && tempBuf == old(tempBuf)
      ensures checkDicSize == old(checkDicSize) && tempBufSize == old(tempBufSize)
      ensures res == SzOk || res == SzErrorData
      ensures res == SzOk ==> AtRest(limit) && old(buf) <= buf <= |src|
      ensures res == SzOk ==> dicPos >= old(dicPos) && (remainLen == SPEC_LEN || dicPos > old(dicPos))
      ensures res == SzOk ==> Decode(prop, Here(), src[buf..], lim, mode) == old(Decode(prop, Here(), src[buf..], lim, mode))
      ensures res == SzOk && bufLimit <= old(buf) ==> src[buf..] == old(NextSymbol(prop, Here(), src[buf..]).coder.inp)
      ensures res == SzErrorData ==> old(Decode(prop, Here(), src[buf..], lim, mode)) == Failed(NotSpecified)
      ensures forall i :: limit <= i < dic.Length ==> dic[i] == old(dic[i])
    {
      hide NextSymbol, Decode, CoreOk, Apply, Flush, Pow2, WindowDue, Window, OnCourse, AtRest, SymbolReady;
      ReadyFacts(src, limit, lim, mode);
      ghost var k, inp := Here(), src[buf..];
      ghost var answer, s0 := Decode(prop, k, inp, lim, mode), NextSymbol(prop, k, inp);
      var rc, r := Enter(limit, src, lim, mode, k, inp, answer);
      var ok;
      ok, r, k, inp := OneTurn(rc, r, limit, lim, mode, k, inp, answer);
      while ok && r.len != SPEC_LEN && r.dicPos < limit && rc.buf < bufLimit
        invariant unchanged(this)
        invariant ok ==> OnCourse(rc, r, limit, lim, mode, k, inp, answer)
        invariant !ok ==> answer == Failed(NotSpecified)
        invariant old(buf) <= rc.buf && rc.src == src
        invariant ok ==> old(dicPos) <= r.dicPos <= limit
        invariant ok ==> r.len == SPEC_LEN || r.dicPos > old(dicPos)
        invariant ok && bufLimit <= old(buf) ==> inp == s0.coder.inp
        invariant forall i :: limit <= i < dic.Length ==> dic[i] == old(dic[i])
        decreases ok, limit - r.dicPos, r.len != SPEC_LEN
      {
        ok, r, k, inp := NextTurn(rc, r, limit, lim, mode, k, inp, answer);
      }
      if !ok {
        dicPos := r.dicPos;
        return SzErrorData;
      }
      Leave(rc, r, limit, lim, mode, k, inp, answer);
      res := SzOk;
    }

    lemma ReadyFacts(src: seq<Byte>, limit: nat, lim: nat, mode: Mode)
      requires SymbolReady(src, limit, lim, mode)
      ensures Shape() && CoreOk(prop, Here()) && buf <= |src| && processedPos == dicPos <= limit <= lim <= dic.Length
      ensures NextSymbol(prop, Here(), src[buf..]).Finished?
    {
    }

    /** The locals of the loop as they start out. */
    method Enter(limit: nat, src: seq<Byte>, ghost lim: nat, ghost mode: Mode, ghost k: Core,
        ghost inp: seq<Byte>, ghost answer: Answer)
      returns (rc: RangeDecoder, r: Regs)
      requires SymbolReady(src, limit, lim, mode) && k == Here() && inp == src[buf..]
      requires Decode(prop, k, inp, lim, mode) == answer
      requires Window(processedPos) && (checkDicSize == 0 ==> limit <= prop.dicSize)
      ensures fresh(rc) && rc.src == src && rc.buf == buf
      ensures OnCourse(rc, r, limit, lim, mode, k, inp, answer) && TurnReady(r, limit, lim, mode, k, inp)
      ensures r.dicPos == dicPos
    {
      hide NextSymbol, Decode, CoreOk, Apply, Flush, Pow2;
      CoreReady(prop, k);
      rc := new RangeDecoder(src, probs, range, code, buf);
      r := Regs(state, reps, dicPos, processedPos, 0);
    }

    /** The closing normalisation, and the locals written back. */
    method Leave(
      rc: RangeDecoder, r: Regs, limit: nat, ghost lim: nat, ghost mode: Mode, ghost k: Core, ghost inp: seq<Byte>, ghost answer: Answer)
      requires OnCourse(rc, r, limit, lim, mode, k, inp, answer)
      modifies rc, this
      ensures prop == old(prop) && probs == old(probs) && dic == old(dic) && tempBuf == old(tempBuf)
      ensures checkDicSize == old(checkDicSize) && tempBufSize == old(tempBufSize)
      ensures AtRest(limit) && Here() == k && old(rc.buf) <= buf <= |rc.src| && rc.src[buf..] == inp
      ensures dicPos == r.dicPos && remainLen == r.len && Decode(prop, Here(), rc.src[buf..], lim, mode) == answer
    {
      hide NextSymbol, Decode, CoreOk, Apply, Flush, Pow2;
      rc.Normalize();
      buf, range, code := rc.buf, rc.range, rc.code;
      remainLen, dicPos, processedPos := r.len, r.dicPos, r.processedPos;
      reps, state := r.reps, r.state;
    }

    /** A symbol is complete in `inp`, and allowed where the output stands. */
    ghost predicate TurnReady(r: Regs, limit: nat, lim: nat, mode: Mode, k: Core, inp: seq<Byte>)
      reads this
    {
      && CoreOk(prop, k) && k.rem == 0 && WindowDue(r.processedPos)
      && NextSymbol(prop, k, inp).Finished?
      && (r.dicPos == limit ==>
            limit == lim && mode == FinishEnd && k.code != 0 && ClassOf(NextSymbol(prop, k, inp).symbol) == ClassMatch)
      && (r.dicPos == 0 ==> ClassOf(NextSymbol(prop, k, inp).symbol) != ClassRep)
    }

    /** One turn of the loop: the symbol ahead is taken, or the whole decoding fails. */
    method OneTurn(
      rc: RangeDecoder, r: Regs, limit: nat, ghost lim: nat, ghost mode: Mode, ghost k: Core, ghost inp: seq<Byte>, ghost answer: Answer)
      returns (ok: bool, q: Regs, ghost k': Core, ghost inp': seq<Byte>)
      requires OnCourse(rc, r, limit, lim, mode, k, inp, answer) && TurnReady(r, limit, lim, mode, k, inp)
      modifies rc, probs, dic
      ensures rc.buf >= old(rc.buf)
      ensures ok ==> OnCourse(rc, q, limit, lim, mode, k', inp', answer) && inp' == NextSymbol(prop, k, inp).coder.inp
      ensures r.dicPos <= limit && (ok ==> r.dicPos <= q.dicPos <= limit)
      ensures ok ==> q.len == SPEC_LEN || q.dicPos > r.dicPos
      ensures !ok ==> answer == Failed(NotSpecified)
      ensures forall i :: limit <= i < dic.Length ==> dic[i] == old(dic[i])
    {
      hide NextSymbol, Decode, CoreOk, Apply, Flush, Pow2;
      CoreReady(prop, k);
      ok, q := DecodeSymbol(rc, r, limit, k);
      if ok {
        TurnTaken(prop, k, inp, limit, lim, mode);
        k' := CoreOf(q, Normal(rc.View()).range, Normal(rc.View()).code);
        inp' := Normal(rc.View()).inp;
      } else {
        TurnFailed(prop, k, inp, limit, lim, mode);
        k', inp' := k, inp;
      }
    }

    /** A turn after the first: at least 21 bytes are left, one of them for a pending normalisation. */
    method NextTurn(
      rc: RangeDecoder, r: Regs, limit: nat, ghost lim: nat, ghost mode: Mode, ghost k: Core, ghost inp: seq<Byte>, ghost answer: Answer)
      returns (ok: bool, q: Regs, ghost k': Core, ghost inp': seq<Byte>)
      requires OnCourse(rc, r, limit, lim, mode, k, inp, answer)
      requires r.len != SPEC_LEN && 0 < r.dicPos < limit && rc.buf + 21 <= |rc.src|
      requires Window(processedPos) && processedPos == dicPos <= r.dicPos && (checkDicSize == 0 ==> limit <= prop.dicSize)
      modifies rc, probs, dic
      ensures rc.buf >= old(rc.buf)
      ensures ok ==> OnCourse(rc, q, limit, lim, mode, k', inp', answer)
      ensures r.dicPos <= limit && (ok ==> r.dicPos <= q.dicPos <= limit)
      ensures ok ==> q.len == SPEC_LEN || q.dicPos > r.dicPos
      ensures !ok ==> answer == Failed(NotSpecified)
      ensures forall i :: limit <= i < dic.Length ==> dic[i] == old(dic[i])
    {
      hide NextSymbol, Decode, CoreOk, Apply, Flush, Pow2;
      CoreReady(prop, k);
      PlentyAhead(prop, k, inp);
      ok, q, k', inp' := OneTurn(rc, r, limit, lim, mode, k, inp, answer);
    }

    // ---- Owed bytes, and the window that fills up

    /** Write `len` bytes of a cut match. */
    method PayOwed(len: nat)
      requires Shape() && processedPos == dicPos && dicPos + len <= dic.Length && len <= remainLen
      requires 1 <= reps.r0 <= dicPos
      modifies this`dicPos, this`processedPos, this`remainLen, dic
      ensures Shape() && processedPos == dicPos == old(dicPos) + len
      ensures Here() == old(Here()).(out := CopyBack(old(Here()).out, reps.r0, len), rem := old(remainLen) - len)
      ensures forall i :: dicPos <= i < dic.Length ==> dic[i] == old(dic[i])
    {
      hide CopyBack, Pow2;
      CopyBackStep(dic[..dicPos], reps.r0, 0);
      processedPos := processedPos + len;
      remainLen := remainLen - len;
      if len != 0 {
        CopyMatch(dicPos, reps.r0, len);
      }
      dicPos := dicPos + len;
    }

    /** LzmaDec_WriteRem: write as much of a cut match as fits. */
    method WriteRem(limit: nat)
      requires Shape() && CoreOk(prop, Here()) && processedPos == dicPos <= limit <= dic.Length && Window(processedPos)
      modifies this, dic
      ensures prop == old(prop) && probs == old(probs) && dic == old(dic) && tempBuf == old(tempBuf)
      ensures buf == old(buf) && tempBufSize == old(tempBufSize)
      ensures AtRest(limit) && Window(processedPos) && Here() == Flush(old(Here()), limit)
      ensures dicPos >= old(dicPos) && (old(remainLen) == SPEC_LEN ==> remainLen == SPEC_LEN)
      ensures forall i :: limit <= i < dic.Length ==> dic[i] == old(dic[i])
    {
      hide CoreOk, CopyBack, Pow2, Flush;
      ghost var k := Here();
      FlushOk(prop, k, limit);
      if remainLen != 0 && remainLen < SPEC_LEN {
        OwesBack(prop, k);
        CoreReady(prop, k);
        var len := remainLen;
        var rem := limit - dicPos;
        if rem < len {
          len := rem;
        }
        if checkDicSize == 0 && prop.dicSize - processedPos <= len {
          checkDicSize := prop.dicSize;
        }
        PayOwed(len);
        FlushOwed(k, limit, Here());
      } else {
        FlushNothing(k, limit);
      }
    }

    /** The next symbol is complete in `src`; at the output limit it is a match that may be the end mark. */
    ghost predicate Primed(src: seq<Byte>, limit: nat, mode: Mode)
      reads this, probs, dic
    {
      && AtRest(limit) && Window(processedPos) && remainLen == 0 && buf <= |src|
      && NextSymbol(prop, Here(), src[buf..]).Finished?
      && (dicPos == limit ==>
            mode == FinishEnd && code != 0 && ClassOf(NextSymbol(prop, Here(), src[buf..]).symbol) == ClassMatch)
    }

    /** One round of LzmaDec_DecodeReal2: stop where the window fills, check a first symbol, write what is owed. */
    method Round(limit: nat, src: seq<Byte>, bufLimit: int, ghost mode: Mode) returns (res: SRes)
      requires Primed(src, limit, mode)
      requires bufLimit <= buf || bufLimit + 20 <= |src|
      modifies this, probs, dic
      ensures prop == old(prop) && probs == old(probs) && dic == old(dic) && tempBuf == old(tempBuf)
      ensures tempBufSize == old(tempBufSize)
      ensures res == SzOk || res == SzErrorData
      ensures res == SzOk ==> AtRest(limit) && Window(processedPos) && old(buf) <= buf <= |src|
      ensures res == SzOk ==> dicPos >= old(dicPos) && (remainLen == SPEC_LEN || dicPos > old(dicPos))
      ensures res == SzOk ==> Decode(prop, Here(), src[buf..], limit, mode) == old(Decode(prop, Here(), src[buf..], limit, mode))
      ensures res == SzOk && bufLimit <= old(buf) ==> src[buf..] == old(NextSymbol(prop, Here(), src[buf..]).coder.inp)
      ensures res == SzErrorData ==> old(Decode(prop, Here(), src[buf..], limit, mode)) == Failed(NotSpecified)
      ensures forall i :: limit <= i < dic.Length ==> dic[i] == old(dic[i])
    {
      hide CoreOk, Decode, NextSymbol, Pow2, Flush, Apply, ClassOf, PropOk, NumProbs;
      ghost var k, inp := Here(), src[buf..];
      CoreReady(prop, k);
      if dicPos == 0 { FirstSymbol(prop, k, inp, limit, mode); }
      var limit2 := limit;
      if checkDicSize == 0 {
        var rem := prop.dicSize - processedPos;
        if limit - dicPos > rem {
          limit2 := dicPos + rem;
        }
        if processedPos == 0 && code >= BAD_REP_CODE {
          return SzErrorData;
        }
      }
      res := DecodeReal(limit2, src, bufLimit, limit, mode);
      if res != SzOk {
        return;
      }
      if checkDicSize == 0 && processedPos >= prop.dicSize {
        checkDicSize := prop.dicSize;
      }
      FlushSame(prop, Here(), src[buf..], limit, mode);
      WriteRem(limit);
    }

    /** LzmaDec_DecodeReal2. */
    method DecodeReal2(limit: nat, src: seq<Byte>, bufLimit: int, ghost mode: Mode) returns (res: SRes)
      requires Primed(src, limit, mode)
      requires bufLimit <= buf || bufLimit + 20 <= |src|
      modifies this, probs, dic
      ensures prop == old(prop) && probs == old(probs) && dic == old(dic) && tempBuf == old(tempBuf)
      ensures tempBufSize == old(tempBufSize)
      ensures res == SzOk || res == SzErrorData
      ensures res == SzOk ==> AtRest(limit) && Window(processedPos) && old(buf) <= buf <= |src|
      ensures res == SzOk ==> dicPos >= old(dicPos) && (remainLen == SPEC_LEN || dicPos > old(dicPos))
      ensures res == SzOk ==> Decode(prop, Here(), src[buf..], limit, mode) == old(Decode(prop, Here(), src[buf..], limit, mode))
      ensures res == SzOk && bufLimit <= old(buf) ==> src[buf..] == old(NextSymbol(prop, Here(), src[buf..]).coder.inp)
      ensures res == SzErrorData ==> old(Decode(prop, Here(), src[buf..], limit, mode)) == Failed(NotSpecified)
      ensures forall i :: limit <= i < dic.Length ==> dic[i] == old(dic[i])
    {
      hide CoreOk, Decode, NextSymbol, Pow2, Flush, Apply;
      res := Round(limit, src, bufLimit, mode);
      if res != SzOk {
        return;
      }
      while dicPos < limit && buf < bufLimit && remainLen < SPEC_LEN
        invariant prop == old(prop) && probs == old(probs) && dic == old(dic) && tempBuf == old(tempBuf)
        invariant tempBufSize == old(tempBufSize)
        invariant AtRest(limit) && Window(processedPos) && old(buf) <= buf <= |src|
        invariant res == SzOk && dicPos >= old(dicPos) && (remainLen == SPEC_LEN || dicPos > old(dicPos))
        invariant Decode(prop, Here(), src[buf..], limit, mode) == old(Decode(prop, Here(), src[buf..], limit, mode))
        invariant bufLimit <= old(buf) ==> src[buf..] == old(NextSymbol(prop, Here(), src[buf..]).coder.inp)
        invariant forall i :: limit <= i < dic.Length ==> dic[i] == old(dic[i])
        decreases limit - dicPos, SPEC_LEN - remainLen
      {
        PlentyAhead(prop, Here(), src[buf..]);
        res := Round(limit, src, bufLimit, mode);
        if res != SzOk {
          return;
        }
      }
    }

    // ---- The dry run

    /** Whether one more symbol is complete in `src`, and of which class: LzmaDec_TryDummy. */
    method TryDummy(src: seq<Byte>) returns (res: Dummy)
      requires Shape() && CoreOk(prop, Here()) && Here().rem == 0
      requires processedPos == dicPos && Window(processedPos)
      ensures var s := NextSymbol(prop, Here(), src);
              res == if s.Starved? then DummyError else DummyOf(ClassOf(s.symbol))
    {
      hide CoreOk, And, Pow2, NextSymbol, ContextOf, RangeDecoder.DryRest, RangeDecoder.DryCan;
      ghost var k := Here();
      ghost var x := ContextOf(prop, k);
      CoreReady(prop, k);
      ContextState(prop, k);
      var rc := new RangeDecoder(src, probs, range, code, 0);
      EnterDry(rc, k, src);
      MaskIsMod(processedPos, prop.pb);
      var posState := 16 * And(processedPos, Pow2(prop.pb) - 1);
      ghost var n, sym;
      var ok, bit;
      ok, bit, n := rc.CheckBit(IS_MATCH + posState + state, x, IsMatch);
      if !ok { return DummyError; }
      if !bit {
        ok, sym := DryLiteral(rc, k);
        res := DummyLit;
      } else {
        ok, res, sym := DryReference(rc, posState, state, x);
      }
      if !ok { return DummyError; }
      rc.DryDone(x, sym);
      ok := rc.NormalizeCheck();
      if !ok { return DummyError; }
    }

    lemma EnterDry(rc: RangeDecoder, k: Core, src: seq<Byte>)
      requires Shape() && CoreOk(prop, k) && k == Here()
      requires rc.probs == probs && rc.Valid() && rc.View() == Coder(range, code, src)
      ensures rc.DryCan(ContextOf(prop, k), IsMatch)
      ensures rc.DryRest(ContextOf(prop, k), IsMatch) == Forget(NextSymbol(prop, k, src))
    {
      hide Run, DryRun, CoreOk, Fits, Pow2;
      ContextOk(prop, k);
      CoreProbs(prop, k);
      DryRunAgrees(ContextOf(prop, k), Start(k, src), Start(k, src));
    }

    method DryLiteral(rc: RangeDecoder, ghost k: Core) returns (ok: bool, ghost sym: Symbol)
      requires Shape() && CoreOk(prop, k) && k == Here() && k.rem == 0
      requires processedPos == dicPos && Window(processedPos)
      requires var x := ContextOf(prop, k); rc.DryCan(x, LitBit(1, x.matchByte, x.state >= 7))
      modifies rc
      ensures var x := ContextOf(prop, k);
              var r := old(rc.DryRest(x, LitBit(1, x.matchByte, x.state >= 7)));
              if ok then sym.Lit? && rc.DryCan(x, Done(sym)) && rc.DryRest(x, Done(sym)) == r else r == DryStarved
    {
      hide CoreOk, And, Pow2, LitCoder, DryRun, NodeOk;
      ghost var x := ContextOf(prop, k);
      var prob := LITERAL;
      if checkDicSize != 0 || processedPos != 0 {
        DryLiteralIndex(prop, k.out, processedPos);
        prob := prob + LIT_SIZE * (And(processedPos, Pow2(prop.lp) - 1) * Pow2(prop.lc) + dic[dicPos - 1] / Pow2(8 - prop.lc));
      }
      if state < 7 {
        ok, sym := rc.CheckLiteral(prob, x);
      } else {
        FarState(prop, k);
        ok, sym := rc.CheckMatchedLiteral(prob, dic[dicPos - reps.r0], x);
      }
    }

    method DryReference(rc: RangeDecoder, posState: nat, state0: nat, ghost x: Ctx)
      returns (ok: bool, res: Dummy, ghost sym: Symbol)
      requires state0 == x.state && posState == 16 * x.posState && rc.DryCan(x, IsRep)
      modifies rc
      ensures !ok ==> old(rc.DryRest(x, IsRep)) == DryStarved
      ensures ok ==> rc.DryCan(x, Done(sym)) && rc.DryRest(x, Done(sym)) == old(rc.DryRest(x, IsRep))
      ensures ok ==> res == DummyOf(ClassOf(sym))
    {
      hide RangeDecoder.DryCan, RangeDecoder.DryRest;
      ghost var n;
      var bit, short, len;
      sym, res := ShortRep, DummyError;
      ok, bit, n := rc.CheckBit(IS_REP + state0, x, IsRep);
      if !ok { return; }
      if !bit {
        res := DummyMatch;
        ok, len, n := rc.CheckLen(LEN_CODER, posState, x, NewMatch);
        if !ok { return; }
        ok, sym := rc.CheckDistance(len, x);
      } else {
        res := DummyRep;
        ok, short, n := rc.CheckRep(state0, posState, x);
        if !ok || short { return; }
        ok, len, n := rc.CheckLen(REP_LEN_CODER, posState, x, n.kind);
        sym := if ok then n.symbol else ShortRep;
      }
    }

    // ---- Construction

    /** LzmaDec_AllocateProbs and LzmaDec_Init with the output buffer as dictionary. */
    constructor (prop: Prop, dest: array<Byte>)
      requires PropOk(prop) && dest.Length < U32
      ensures Valid() && Abs() == Waiting([]) && fresh(probs) && fresh(tempBuf)
      ensures this.prop == prop && dic == dest && dicPos == 0 && tempBufSize == 0
    {
      this.prop, dic := prop, dest;
      probs := new nat[NumProbs(prop)];
      tempBuf := new Byte[20];
      dicPos, buf, range, code, processedPos, checkDicSize := 0, 0, 0, 0, 0, 0;
      reps, state := Reps(1, 1, 1, 1), 0;
      remainLen, tempBufSize := SPEC_LEN + 2, 0;
    }

    // ---- The resumable driver

    /** Bytes kept for later are the incomplete beginning of a symbol. */
    ghost predicate TempOk()
      requires Shape() && CoreOk(prop, Here())
      reads this, probs, dic, tempBuf
    {
      && tempBufSize < 20
      && (tempBufSize > 0 ==> remainLen == 0 && NextSymbol(prop, Here(), tempBuf[..tempBufSize]).Starved?)
    }

    /** The invariant between calls. */
    ghost predicate Valid()
      reads this, probs, dic, tempBuf
    {
      && Shape()
      && (if remainLen > SPEC_LEN then
            && remainLen == SPEC_LEN + 2 && dicPos == processedPos == checkDicSize == 0
            && tempBufSize < HEADER && (tempBufSize > 0 ==> tempBuf[0] == 0)
          else
            CoreOk(prop, Here()) && processedPos == dicPos && Window(processedPos) && TempOk())
    }

    /** The stream decoder this object stands for. */
    ghost function Abs(): Decoder
      requires Shape() && tempBufSize <= 20
      reads this, probs, dic, tempBuf
    {
      if remainLen > SPEC_LEN then Waiting(tempBuf[..tempBufSize]) else Running(Here(), tempBuf[..tempBufSize])
    }

    /** The head of the driver loop: `answer` is what decoding the rest of the input gives. */
    ghost predicate Going(limit: nat, src: seq<Byte>, used: nat, mode: Mode, answer: Answer)
      reads this, probs, dic, tempBuf
    {
      && AtRest(limit) && Window(processedPos) && TempOk() && used <= |src|
      && Decode(prop, Here(), tempBuf[..tempBufSize] + src[used..], limit, mode) == answer
    }

    /** The call ends with `answer`; what is not consumed is kept or left to the caller. */
    ghost predicate Ended(src: seq<Byte>, used: nat, answer: Answer, res: SRes, status: Status)
      reads this, probs, dic, tempBuf
    {
      match answer
      case Failed(s) => res == SzErrorData && status == s && used <= |src|
      case Paused(s, k, rest) =>
        && res == SzOk && status == s && used <= |src| && Valid() && remainLen <= SPEC_LEN
        && Here() == k && tempBuf[..tempBufSize] + src[used..] == rest
        && (s == NeedsMoreInput ==> used == |src|)
    }

    /** A turn with no bytes kept: decode straight from the input. */
    method DirectTurn(limit: nat, src: seq<Byte>, used0: nat, mode: Mode, checkEndMarkNow: bool, ghost answer: Answer)
      returns (halted: bool, res: SRes, used: nat, status: Status)
      requires Going(limit, src, used0, mode, answer) && remainLen == 0 && tempBufSize == 0
      requires checkEndMarkNow <==> dicPos == limit
      requires checkEndMarkNow ==> mode == FinishEnd && code != 0
      modifies this, probs, dic, tempBuf
      ensures prop == old(prop) && probs == old(probs) && dic == old(dic) && tempBuf == old(tempBuf)
      ensures halted ==> Ended(src, used, answer, res, status)
      ensures tempBufSize == 0 || (halted && status == NeedsMoreInput)
      ensures !halted ==> Going(limit, src, used, mode, answer) && (remainLen == SPEC_LEN || dicPos > old(dicPos)) && dicPos >= old(dicPos)
      ensures forall i :: limit <= i < dic.Length ==> dic[i] == old(dic[i])
    {
      hide CoreOk, Decode, NextSymbol, Pow2;
      var inSize := |src| - used0;
      ghost var inp := src[used0..];
      assert tempBuf[..0] + inp == inp;
      if inSize >= 20 { PlentyAhead(prop, Here(), inp); }
      halted, res, used, status := false, SzOk, used0, NotSpecified;
      var bufLimit;
      if inSize < 20 || checkEndMarkNow {
        var dummyRes := TryDummy(src[used0..]);
        if dummyRes == DummyError {
          StarvedHalts(prop, Here(), inp, limit, mode);
          KeepBytes(src, used0);
          return true, SzOk, |src|, NeedsMoreInput;
        }
        if checkEndMarkNow && dummyRes != DummyMatch {
          WrongClassHalts(prop, Here(), inp, limit);
          return true, SzErrorData, used0, NotFinished;
        }
        bufLimit := used0;
      } else {
        bufLimit := used0 + inSize - 20;
      }
      buf := used0;
      res := DecodeReal2(limit, src, bufLimit, mode);
      if res != SzOk {
        return true, SzErrorData, used0, NotSpecified;
      }
      used := buf;
      assert tempBuf[..0] + src[used..] == src[used..];
    }

    /** Keep the incomplete beginning of a symbol. */
    method KeepBytes(src: seq<Byte>, used: nat)
      requires Shape() && used <= |src| && |src| - used < 20
      modifies this`tempBufSize, tempBuf
      ensures tempBufSize == |src| - used && tempBuf[..tempBufSize] == src[used..]
    {
      var n := 0;
      while n < |src| - used
        invariant n <= |src| - used && Shape()
        invariant tempBuf[..n] == src[used..used + n]
      {
        tempBuf[n] := src[used + n];
        n := n + 1;
      }
      tempBufSize := n;
      assert src[used..used + n] == src[used..];
    }

    /** Top the kept bytes up from the input, to at most twenty. */
    method TopUp(src: seq<Byte>, used: nat) returns (lookAhead: nat)
      requires Shape() && used <= |src| && tempBufSize < 20
      modifies this`tempBufSize, tempBuf
      ensures used + lookAhead <= |src| && tempBufSize == old(tempBufSize) + lookAhead <= 20
      ensures tempBufSize < 20 ==> used + lookAhead == |src|
      ensures tempBuf[..tempBufSize] == old(tempBuf[..tempBufSize]) + src[used..used + lookAhead]
    {
      var rem := tempBufSize;
      lookAhead := 0;
      while rem < 20 && lookAhead < |src| - used
        invariant used + lookAhead <= |src| && rem == old(tempBufSize) + lookAhead <= 20 && Shape()
        invariant tempBuf[..rem] == old(tempBuf[..tempBufSize]) + src[used..used + lookAhead]
      {
        tempBuf[rem] := src[used + lookAhead];
        rem, lookAhead := rem + 1, lookAhead + 1;
      }
      tempBufSize := rem;
    }

    /** `tempBuf` holds a complete symbol that the bytes `kept` before the top-up did not hold. */
    ghost predicate Refilled(limit: nat, src: seq<Byte>, used: nat, ahead: nat, kept: seq<Byte>, mode: Mode, answer: Answer)
      reads this, probs, dic, tempBuf
    {
      && AtRest(limit) && Window(processedPos) && remainLen == 0 && used + ahead <= |src| && tempBufSize <= 20
      && tempBuf[..tempBufSize] == kept + src[used..used + ahead]
      && NextSymbol(prop, Here(), kept).Starved?
      && NextSymbol(prop, Here(), tempBuf[..tempBufSize]).Finished?
      && (dicPos == limit ==>
            mode == FinishEnd && code != 0 && ClassOf(NextSymbol(prop, Here(), tempBuf[..tempBufSize]).symbol) == ClassMatch)
      && Decode(prop, Here(), tempBuf[..tempBufSize] + src[used + ahead..], limit, mode) == answer
    }

    /** First half of a turn with kept bytes: top up, and see whether a symbol is complete. */
    method RefillTurn(limit: nat, src: seq<Byte>, used0: nat, mode: Mode, checkEndMarkNow: bool, ghost answer: Answer)
      returns (halted: bool, res: SRes, used: nat, status: Status, lookAhead: nat)
      requires Going(limit, src, used0, mode, answer) && remainLen == 0 && tempBufSize > 0
      requires checkEndMarkNow <==> dicPos == limit
      requires checkEndMarkNow ==> mode == FinishEnd && code != 0
      modifies this`tempBufSize, tempBuf
      ensures halted ==> Ended(src, used, answer, res, status)
      ensures !halted ==> Refilled(limit, src, used0, lookAhead, old(tempBuf[..tempBufSize]), mode, answer)
    {
      hide CoreOk, Decode, NextSymbol, Pow2;
      ghost var k, kept := Here(), tempBuf[..tempBufSize];
      lookAhead := TopUp(src, used0);
      var rem := tempBufSize;
      var temp := tempBuf[..rem];
      ghost var more := src[used0 + lookAhead..];
      assert temp + more == kept + src[used0..] by {
        assert src[used0..] == src[used0..used0 + lookAhead] + more;
      }
      if rem == 20 { PlentyAhead(prop, k, temp); }
      halted, res, used, status := false, SzOk, used0, NotSpecified;
      if rem < 20 || checkEndMarkNow {
        var dummyRes := TryDummy(temp);
        if dummyRes == DummyError {
          StarvedHalts(prop, k, temp, limit, mode);
          assert temp + more == temp;
          halted, used, status := true, used0 + lookAhead, NeedsMoreInput;
        } else if checkEndMarkNow && dummyRes != DummyMatch {
          NextSymbolExtends(prop, k, temp, more);
          WrongClassHalts(prop, k, temp + more, limit);
          halted, res, status := true, SzErrorData, NotFinished;
        }
      }
    }

    /** Second half: decode the one symbol, and give back the bytes it did not use. */
    method TempTurn(limit: nat, src: seq<Byte>, used0: nat, lookAhead0: nat, ghost kept: seq<Byte>,
        mode: Mode, ghost answer: Answer)
      returns (halted: bool, res: SRes, used: nat, status: Status)
      requires Refilled(limit, src, used0, lookAhead0, kept, mode, answer)
      modifies this, probs, dic
      ensures prop == old(prop) && probs == old(probs) && dic == old(dic) && tempBuf == old(tempBuf)
      ensures halted ==> Ended(src, used, answer, res, status)
      ensures !halted ==> Going(limit, src, used, mode, answer) && (remainLen == SPEC_LEN || dicPos > old(dicPos)) && dicPos >= old(dicPos)
      ensures !halted ==> res == SzOk
      ensures forall i :: limit <= i < dic.Length ==> dic[i] == old(dic[i])
    {
      hide CoreOk, Decode, NextSymbol, Pow2;
      ghost var k, more := Here(), src[used0 + lookAhead0..];
      var rem, lookAhead := tempBufSize, lookAhead0;
      var temp := tempBuf[..rem];
      halted, res, used, status := false, SzOk, used0, NotSpecified;
      buf := 0;
      assert temp[0..] == temp;
      NextSymbolNeeds(prop, k, kept, src[used0..used0 + lookAhead0]);
      res := DecodeReal2(limit, temp, 0, mode);
      if res != SzOk {
        DecodeInPieces(prop, k, temp, more, limit, mode);
        return true, SzErrorData, used0, NotSpecified;
      }
      SameWithMore(prop, k, temp, Here(), temp[buf..], more, limit, mode);
      // The two internal errors of the original: more bytes used than there are, or fewer than were kept.
      rem := rem - buf;
      res := if buf > |temp| || lookAhead < rem then SzErrorFail else SzOk;
      TailOfTemp(kept, src, used0, lookAhead0, temp, rem);
      lookAhead := lookAhead - rem;
      used := used0 + lookAhead;
      tempBufSize := 0;
      assert tempBuf[..0] + src[used..] == src[used..];
    }

    /** One round of the driver loop: the tests at the output limit, then a turn. */
    method DriverRound(limit: nat, src: seq<Byte>, used0: nat, mode: Mode, ghost answer: Answer)
      returns (halted: bool, res: SRes, used: nat, status: Status)
      requires Going(limit, src, used0, mode, answer) && remainLen != SPEC_LEN
      modifies this, probs, dic, tempBuf
      ensures prop == old(prop) && probs == old(probs) && dic == old(dic) && tempBuf == old(tempBuf)
      ensures halted ==> Ended(src, used, answer, res, status)
      ensures old(tempBufSize) == 0 ==> tempBufSize == 0 || (halted && status == NeedsMoreInput)
      ensures !halted ==> Going(limit, src, used, mode, answer) && (remainLen == SPEC_LEN || dicPos > old(dicPos)) && dicPos >= old(dicPos)
      ensures forall i :: limit <= i < dic.Length ==> dic[i] == old(dic[i])
    {
      hide CoreOk, Decode, NextSymbol, Pow2;
      CoreReady(prop, Here());
      var checkEndMarkNow := false;
      halted, res, used, status := false, SzOk, used0, NotSpecified;
      if dicPos >= limit {
        LimitHalts(prop, Here(), tempBuf[..tempBufSize] + src[used0..], limit, mode);
        if remainLen == 0 && code == 0 {
          return true, SzOk, used0, MaybeFinishedWithoutMark;
        }
        if mode == FinishAny {
          return true, SzOk, used0, NotFinished;
        }
        if remainLen != 0 {
          return true, SzErrorData, used0, NotFinished;
        }
        checkEndMarkNow := true;
      }
      if tempBufSize == 0 {
        halted, res, used, status := DirectTurn(limit, src, used0, mode, checkEndMarkNow, answer);
      } else {
        ghost var kept := tempBuf[..tempBufSize];
        var lookAhead;
        halted, res, used, status, lookAhead := RefillTurn(limit, src, used0, mode, checkEndMarkNow, answer);
        if !halted {
          halted, res, used, status := TempTurn(limit, src, used0, lookAhead, kept, mode, answer);
        }
      }
    }

    /** The driver loop and the checks after the end mark. */
    method DriverLoop(limit: nat, src: seq<Byte>, used0: nat, mode: Mode, ghost answer: Answer)
      returns (res: SRes, used: nat, status: Status)
      requires Going(limit, src, used0, mode, answer)
      modifies this, probs, dic, tempBuf
      ensures prop == old(prop) && probs == old(probs) && dic == old(dic) && tempBuf == old(tempBuf)
      ensures Ended(src, used, answer, res, status)
      ensures old(tempBufSize) == 0 ==> tempBufSize == 0 || status == NeedsMoreInput
      ensures forall i :: limit <= i < dic.Length ==> dic[i] == old(dic[i])
    {
      hide CoreOk, NextSymbol, TakeTurn, Flush, Pow2;
      var halted;
      used, status := used0, NotSpecified;
      CoreReady(prop, Here());
      while remainLen != SPEC_LEN
        invariant prop == old(prop) && probs == old(probs) && dic == old(dic) && tempBuf == old(tempBuf)
        invariant Going(limit, src, used, mode, answer) && remainLen <= SPEC_LEN
        invariant old(tempBufSize) == 0 ==> tempBufSize == 0
        invariant forall i :: limit <= i < dic.Length ==> dic[i] == old(dic[i])
        decreases limit - dicPos, SPEC_LEN - remainLen
      {
        halted, res, used, status := DriverRound(limit, src, used, mode, answer);
        if halted { return; }
        CoreReady(prop, Here());
      }
      if code != 0 { return SzErrorData, used, NotSpecified; }
      res, status := SzOk, FinishedWithMark;
    }

    /** Collect the five header bytes, then set the coder and the model to their initial states. */
    method ReadHeader(src: seq<Byte>) returns (halted: bool, res: SRes, used: nat, status: Status)
      requires Valid() && remainLen > SPEC_LEN
      modifies this, probs, tempBuf
      ensures prop == old(prop) && probs == old(probs) && dic == old(dic) && tempBuf == old(tempBuf)
      ensures used <= |src|
      ensures var all := old(tempBuf[..tempBufSize]) + src;
              if all != [] && all[0] != 0 then halted && res == SzErrorData && status == NotSpecified
              else if |all| < HEADER then
                halted && res == SzOk && status == NeedsMoreInput && used == |src| && Valid() && remainLen > SPEC_LEN && Abs() == Waiting(all)
              else
                !halted && Valid() && remainLen == 0 && tempBufSize == 0 && dicPos == 0 &&
                Here() == FreshCore(prop, CodeOf(all)) && src[used..] == all[HEADER..]
    {
      hide CoreOk, NumProbs;
      ghost var got := tempBuf[..tempBufSize];
      used := 0;
      while used < |src| && tempBufSize < HEADER
        invariant used <= |src| && Shape() && tempBufSize == |got| + used <= HEADER
        invariant remainLen == SPEC_LEN + 2 && dicPos == processedPos == checkDicSize == 0
        invariant prop == old(prop) && probs == old(probs) && dic == old(dic) && tempBuf == old(tempBuf)
        invariant tempBuf[..tempBufSize] == got + src[..used]
      {
        tempBuf[tempBufSize] := src[used];
        tempBufSize, used := tempBufSize + 1, used + 1;
      }
      ghost var all := got + src;
      HeaderSplit(got, src, used);
      assert tempBuf[..tempBufSize] == all[..tempBufSize];
      halted, res, status := true, SzOk, NotSpecified;
      if tempBufSize != 0 && tempBuf[0] != 0 {
        res := SzErrorData;
        return;
      }
      if tempBufSize < HEADER {
        status := NeedsMoreInput;
        return;
      }
      InitModel();
      halted := false;
    }

    method InitModel()
      requires Shape() && dicPos == processedPos == checkDicSize == 0 && tempBufSize == HEADER
      modifies this, probs
      ensures prop == old(prop) && probs == old(probs) && dic == old(dic) && tempBuf == old(tempBuf)
      ensures Valid() && remainLen == 0 && tempBufSize == 0 && dicPos == 0
      ensures Here() == FreshCore(prop, old(CodeOf(tempBuf[..HEADER])))
    {
      hide CoreOk, NumProbs;
      ghost var h := tempBuf[..HEADER];
      code := (tempBuf[1] as int) * 0x100_0000 + (tempBuf[2] as int) * 0x1_0000 + (tempBuf[3] as int) * 0x100 + tempBuf[4];
      range := 0xFFFF_FFFF;
      tempBufSize := 0;
      var i := 0;
      while i < probs.Length
        invariant i <= probs.Length
        invariant forall j :: 0 <= j < i ==> probs[j] == PROB_INIT
        modifies probs
      {
        probs[i] := PROB_INIT;
        i := i + 1;
      }
      reps := Reps(1, 1, 1, 1);
      state := 0;
      remainLen := 0;
      assert probs[..] == seq(NumProbs(prop), _ => PROB_INIT);
      assert Here() == FreshCore(prop, CodeOf(h));
    }

    /** What a call promises in terms of the reply of the stream decoder. */
    ghost predicate Replied(reply: Reply, src: seq<Byte>, dicLimit: nat, res: SRes, srcLen: nat, status: Status)
      reads this, probs, dic, tempBuf
    {
      srcLen <= |src| &&
      match reply
      case Refused(s) => res == SzErrorData && status == s
      case Reply(s, next) =>
        && res == SzOk && status == s && Valid() && dicPos <= dicLimit
        && next == WithUnread(Abs(), src[srcLen..])
        && (s == NeedsMoreInput ==> srcLen == |src|)
    }

    /** Everything after the header: flush what is owed, then decode. */
    method DecodeBody(dicLimit: nat, src: seq<Byte>, used: nat, finishMode: Mode, ghost answer: Answer)
      returns (res: SRes, srcLen: nat, status: Status)
      requires Valid() && remainLen <= SPEC_LEN && dicPos <= dicLimit <= dic.Length && used <= |src|
      requires Decode(prop, Here(), tempBuf[..tempBufSize] + src[used..], dicLimit, finishMode) == answer
      modifies this, probs, dic, tempBuf
      ensures prop == old(prop) && probs == old(probs) && dic == old(dic) && tempBuf == old(tempBuf)
      ensures old(tempBufSize) == 0 ==> tempBufSize == 0 || status == NeedsMoreInput
      ensures Replied(ToReply(answer), src, dicLimit, res, srcLen, status)
      ensures forall i :: dicLimit <= i < dic.Length ==> dic[i] == old(dic[i])
    {
      hide CoreOk, Decode, NextSymbol, Pow2, Flush;
      ghost var k, inp := Here(), tempBuf[..tempBufSize] + src[used..];
      FlushKeeps(prop, k, dicLimit);
      FlushSame(prop, k, inp, dicLimit, finishMode);
      WriteRem(dicLimit);
      res, srcLen, status := DriverLoop(dicLimit, src, used, finishMode, answer);
      EndWithin(prop, k, inp, dicLimit, finishMode);
    }

    /** LzmaDec_DecodeToDic, on a dictionary that is the whole output. */
    method DecodeToDic(dicLimit: nat, src: seq<Byte>, finishMode: Mode) returns (res: SRes, srcLen: nat, status: Status)
      requires Valid() && dicPos <= dicLimit <= dic.Length
      modifies this, probs, dic, tempBuf
      ensures prop == old(prop) && probs == old(probs) && dic == old(dic) && tempBuf == old(tempBuf)
      ensures res == SzOk && (old(tempBufSize) == 0 || old(remainLen) > SPEC_LEN) ==> tempBufSize == 0 || status == NeedsMoreInput
      ensures Replied(old(FeedReply(dicLimit, src, finishMode)), src, dicLimit, res, srcLen, status)
      ensures forall i :: dicLimit <= i < dic.Length ==> dic[i] == old(dic[i])
    {
      hide CoreOk, Decode, NextSymbol, Pow2, Flush, FreshCore;
      ghost var reply := FeedReply(dicLimit, src, finishMode);
      var used := 0;
      if remainLen > SPEC_LEN {
        var halted;
        halted, res, used, status := ReadHeader(src);
        if halted {
          srcLen := used;
          assert res == SzOk ==> src[srcLen..] == [] && WithUnread(Abs(), []) == Abs();
          return;
        }
      }
      assert src[0..] == src;
      ghost var inp := tempBuf[..tempBufSize] + src[used..];
      ghost var answer := Decode(prop, Here(), inp, dicLimit, finishMode);
      assert used != 0 ==> inp == src[used..];
      assert reply == ToReply(answer);
      res, srcLen, status := DecodeBody(dicLimit, src, used, finishMode, answer);
    }

    /** What a run of calls promises: `unread` are the bytes given since decoding stopped, and those the last call left. */
    ghost predicate RunReplied(reply: Reply, unread: seq<Byte>, dicLimit: nat, res: SRes, status: Status)
      reads this, probs, dic, tempBuf
    {
      match reply
      case Refused(s) => res == SzErrorData && status == s
      case Reply(s, next) =>
        && res == SzOk && status == s && Valid() && dicPos <= dicLimit
        && next == WithUnread(Abs(), unread)
        && (s == NeedsMoreInput ==> unread == [])
    }

    /** One more piece: a call if more input was asked for, otherwise the piece stays unread. */
    method NextPiece(dicLimit: nat, piece: seq<Byte>, finishMode: Mode, res0: SRes, status0: Status, unread0: seq<Byte>,
        ghost d: Decoder, ghost fed: seq<Byte>)
      returns (res: SRes, status: Status, unread: seq<Byte>)
      requires DecoderOk(prop, d, dicLimit) && dicLimit <= dic.Length
      requires RunReplied(Feed(prop, d, fed, dicLimit, finishMode), unread0, dicLimit, res0, status0)
      modifies this, probs, dic, tempBuf
      ensures prop == old(prop) && probs == old(probs) && dic == old(dic) && tempBuf == old(tempBuf)
      ensures RunReplied(Feed(prop, d, fed + piece, dicLimit, finishMode), unread, dicLimit, res, status)
      ensures forall i :: dicLimit <= i < dic.Length ==> dic[i] == old(dic[i])
    {
      hide Feed, DecoderOk, CoreOk, NextSymbol, CLzmaDec.Abs;
      FeedTwoPieces(prop, d, fed, piece, dicLimit, finishMode);
      StopsRunning(prop, d, fed, dicLimit, finishMode);
      if res0 == SzOk && status0 == NeedsMoreInput {
        assert WithUnread(Abs(), []) == Abs() by { NothingUnread(Abs()); }
        var used;
        res, used, status := DecodeToDic(dicLimit, piece, finishMode);
        unread := piece[used..];
      } else {
        res, status, unread := res0, status0, unread0 + piece;
        if res0 == SzOk { MoreUnread(Abs(), unread0, piece); }
      }
    }

    /**
     * The caller's loop over input that arrives in pieces: as long as more input is asked for
     * the next piece is handed in. The object, the status and the bytes left over end as after
     * one call on the pieces joined.
     */
    method DecodePieces(dicLimit: nat, first: seq<Byte>, pieces: seq<seq<Byte>>, finishMode: Mode)
      returns (res: SRes, status: Status, unread: seq<Byte>)
      requires Valid() && dicPos <= dicLimit <= dic.Length
      modifies this, probs, dic, tempBuf
      ensures prop == old(prop) && probs == old(probs) && dic == old(dic) && tempBuf == old(tempBuf)
      ensures RunReplied(old(FeedReply(dicLimit, first + Joined(pieces), finishMode)), unread, dicLimit, res, status)
      ensures forall i :: dicLimit <= i < dic.Length ==> dic[i] == old(dic[i])
    {
      hide Feed, CLzmaDec.Abs, CoreOk, NextSymbol, CLzmaDec.RunReplied, DecoderOk;
      ghost var d, fed := Abs(), first;
      AbsOk(dicLimit);
      res, status, unread := FirstPiece(dicLimit, first, finishMode);
      var i := 0;
      assert pieces[0..] == pieces;
      while i < |pieces|
        invariant i <= |pieces| && fed + Joined(pieces[i..]) == first + Joined(pieces)
        invariant prop == old(prop) && probs == old(probs) && dic == old(dic) && tempBuf == old(tempBuf)
        invariant RunReplied(Feed(prop, d, fed, dicLimit, finishMode), unread, dicLimit, res, status)
        invariant forall i :: dicLimit <= i < dic.Length ==> dic[i] == old(dic[i])
      {
        res, status, unread := NextPiece(dicLimit, pieces[i], finishMode, res, status, unread, d, fed);
        JoinedStep(fed, pieces, i);
        fed := fed + pieces[i];
        i := i + 1;
      }
      assert fed + Joined(pieces[i..]) == fed;
    }

    method FirstPiece(dicLimit: nat, first: seq<Byte>, finishMode: Mode) returns (res: SRes, status: Status, unread: seq<Byte>)
      requires Valid() && dicPos <= dicLimit <= dic.Length
      modifies this, probs, dic, tempBuf
      ensures prop == old(prop) && probs == old(probs) && dic == old(dic) && tempBuf == old(tempBuf)
      ensures RunReplied(old(FeedReply(dicLimit, first, finishMode)), unread, dicLimit, res, status)
      ensures forall i :: dicLimit <= i < dic.Length ==> dic[i] == old(dic[i])
    {
      hide Feed, CLzmaDec.Abs, CLzmaDec.Valid;
      var used;
      res, used, status := DecodeToDic(dicLimit, first, finishMode);
      unread := first[used..];
    }

    /** A valid object stands for a valid stream decoder. */
    lemma AbsOk(dicLimit: nat)
      requires Valid() && dicPos <= dicLimit <= dic.Length
      ensures DecoderOk(prop, Abs(), dicLimit)
    {
      hide CoreOk;
    }

    /** The reply of the stream decoder this object stands for. */
    ghost function FeedReply(dicLimit: nat, src: seq<Byte>, finishMode: Mode): Reply
      requires Valid() && dicPos <= dicLimit <= dic.Length
      reads this, probs, dic, tempBuf
    {
      Feed(prop, Abs(), src, dicLimit, finishMode)
    }
  }

  function WithUnread(d: Decoder, more: seq<Byte>): Decoder {
    match d
    case Waiting(got) => Waiting(got + more)
    case Running(k, held) => Running(k, held + more)
  }

  lemma NothingUnread(d: Decoder)
    ensures WithUnread(d, []) == d
  {
    assert d.Waiting? ==> d.got + [] == d.got;
    assert d.Running? ==> d.held + [] == d.held;
  }

  lemma MoreUnread(d: Decoder, a: seq<Byte>, b: seq<Byte>)
    ensures WithUnread(WithUnread(d, a), b) == WithUnread(d, a + b)
  {
    assert d.Waiting? ==> d.got + a + b == d.got + (a + b);
    assert d.Running? ==> d.held + a + b == d.held + (a + b);
  }

  /** Whoever stops for another reason than missing input has seen the header. */
  lemma StopsRunning(p: Prop, d: Decoder, src: seq<Byte>, limit: nat, mode: Mode)
    requires DecoderOk(p, d, limit)
    ensures var r := Feed(p, d, src, limit, mode); r.Reply? && r.status != NeedsMoreInput ==> r.next.Running?
  {
    hide Decode, CoreOk;
  }

  lemma JoinedStep(fed: seq<Byte>, pieces: seq<seq<Byte>>, i: nat)
    requires i < |pieces|
    ensures fed + Joined(pieces[i..]) == fed + pieces[i] + Joined(pieces[i + 1..])
  {
    assert pieces[i..][1..] == pieces[i + 1..];
  }

  lemma EndWithin(p: Prop, k: Core, inp: seq<Byte>, limit: nat, mode: Mode)
    requires CoreOk(p, k) && |k.out| <= limit
    ensures var r := Decode(p, k, inp, limit, mode); r.Paused? ==> |r.core.out| <= limit
  {
    hide Decode, CoreOk;
    if Decode(p, k, inp, limit, mode).Paused? { DecodeOk(p, k, inp, limit, mode); }
  }

  /** A state that owes nothing, or has no space, is not changed by flushing. */
  lemma FlushKeeps(p: Prop, k: Core, limit: nat)
    requires CoreOk(p, k) && |k.out| <= limit
    ensures k.rem == 0 ==> Flush(k, limit) == k
  {
  }

  lemma LimitHalts(p: Prop, k: Core, inp: seq<Byte>, limit: nat, mode: Mode)
    requires CoreOk(p, k) && |k.out| == limit && k.rem != SPEC_LEN
    ensures k.rem == 0 && k.code == 0 ==> Decode(p, k, inp, limit, mode) == Paused(MaybeFinishedWithoutMark, k, inp)
    ensures !(k.rem == 0 && k.code == 0) && mode == FinishAny ==> Decode(p, k, inp, limit, mode) == Paused(NotFinished, k, inp)
    ensures mode == FinishEnd && k.rem != 0 ==> Decode(p, k, inp, limit, mode) == Failed(NotFinished)
  {
    hide NextSymbol, CoreOk;
    assert Flush(k, limit) == k;
  }

  /** The last bytes of the topped-up buffer are the last bytes looked at. */
  lemma TailOfTemp(kept: seq<Byte>, src: seq<Byte>, used: nat, ahead: nat, temp: seq<Byte>, rem: nat)
    requires used + ahead <= |src| && temp == kept + src[used..used + ahead] && rem <= ahead
    ensures temp[|temp| - rem..] + src[used + ahead..] == src[used + ahead - rem..]
  {
    assert temp[|temp| - rem..] == src[used + ahead - rem..used + ahead];
  }

  /** States that decode alike still do when both inputs are continued alike. */
  lemma SameWithMore(p: Prop, k: Core, a: seq<Byte>, k': Core, b: seq<Byte>, more: seq<Byte>, limit: nat, mode: Mode)
    requires CoreOk(p, k) && |k.out| <= limit && CoreOk(p, k') && |k'.out| <= limit
    requires Decode(p, k, a, limit, mode) == Decode(p, k', b, limit, mode)
    ensures Decode(p, k, a + more, limit, mode) == Decode(p, k', b + more, limit, mode)
  {
    hide Decode, CoreOk;
    DecodeInPieces(p, k, a, more, limit, mode);
    DecodeInPieces(p, k', b, more, limit, mode);
  }

  lemma StarvedHalts(p: Prop, k: Core, inp: seq<Byte>, limit: nat, mode: Mode)
    requires CoreOk(p, k) && k.rem == 0 && |k.out| <= limit && NextSymbol(p, k, inp).Starved?
    requires |k.out| == limit ==> mode == FinishEnd && k.code != 0
    ensures Decode(p, k, inp, limit, mode) == Paused(NeedsMoreInput, k, inp)
  {
    hide NextSymbol, CoreOk;
    assert Flush(k, limit) == k;
  }

  lemma WrongClassHalts(p: Prop, k: Core, inp: seq<Byte>, limit: nat)
    requires CoreOk(p, k) && k.rem == 0 && |k.out| == limit && k.code != 0
    requires NextSymbol(p, k, inp).Finished? && ClassOf(NextSymbol(p, k, inp).symbol) != ClassMatch
    ensures Decode(p, k, inp, limit, FinishEnd) == Failed(NotFinished)
  {
    hide NextSymbol, CoreOk;
    assert Flush(k, limit) == k;
  }

  /** On a fresh decoder a code above the bound means a refused symbol. */
  lemma FirstSymbol(p: Prop, k: Core, inp: seq<Byte>, limit: nat, mode: Mode)
    requires CoreOk(p, k) && k.out == [] && k.rem == 0 && NextSymbol(p, k, inp).Finished?
    requires limit == 0 ==> mode == FinishEnd && k.code != 0 && ClassOf(NextSymbol(p, k, inp).symbol) == ClassMatch
    ensures k.code >= BAD_REP_CODE <==> ClassOf(NextSymbol(p, k, inp).symbol) == ClassRep
    ensures k.code >= BAD_REP_CODE ==> Decode(p, k, inp, limit, mode) == Failed(NotSpecified)
  {
    hide NextSymbol, Pow2;
    FirstSymbolRep(p, k, inp);
    if k.code >= BAD_REP_CODE {
      assert Flush(k, limit) == k;
      assert Apply(p, k, NextSymbol(p, k, inp)).Rejected?;
      TurnFailed(p, k, inp, limit, limit, mode);
    }
  }

  /** Header bytes gathered in two parts. */
  lemma HeaderSplit(got: seq<Byte>, src: seq<Byte>, used: nat)
    requires used <= |src|
    ensures (got + src)[..|got| + used] == got + src[..used]
    ensures (got + src)[|got| + used..] == src[used..]
  {
  }

  lemma FlushNothing(k: Core, limit: nat)
    requires !Owes(k)
    ensures Flush(k, limit) == k
  {
  }

  lemma FlushOwed(k: Core, limit: nat, k': Core)
    requires Owes(k) && |k.out| <= limit && 1 <= k.reps.r0 <= |k.out|
    requires var n := Min(k.rem, limit - |k.out|); k' == k.(out := CopyBack(k.out, k.reps.r0, n), rem := k.rem - n)
    ensures k' == Flush(k, limit)
  {
    CopyBackStep(k.out, k.reps.r0, 0);
  }

  lemma PlentyAhead(p: Prop, k: Core, inp: seq<Byte>)
    requires CoreOk(p, k) && |inp| >= 20
    ensures NextSymbol(p, k, inp).Finished?
  {
    hide Run, Pow2;
    ContextOk(p, k);
    TwentyBytesDecode(ContextOf(p, k), Coder(k.range, k.code, inp), k.probs);
  }

  /** One accepted symbol leaves the same decoding ahead, also when its match was cut at an earlier limit. */
  lemma TurnTaken(p: Prop, k: Core, inp: seq<Byte>, limit: nat, lim: nat, mode: Mode)
    requires CoreOk(p, k) && k.rem == 0 && |k.out| <= limit <= lim
    requires NextSymbol(p, k, inp).Finished? && Apply(p, k, NextSymbol(p, k, inp)).Accepted?
    requires |k.out| < limit || (limit == lim && mode == FinishEnd && k.code != 0 && NextSymbol(p, k, inp).symbol == EndMark)
    ensures var s := NextSymbol(p, k, inp);
            var k' := Flush(Apply(p, k, s).core, limit);
            CoreOk(p, k') && |k'.out| <= limit && (Owes(k') ==> |k'.out| == limit) &&
            (s.symbol == EndMark ==> k'.rem == SPEC_LEN) && |k.out| <= |k'.out| &&
            Decode(p, k, inp, lim, mode) == Decode(p, k', s.coder.inp, lim, mode)
  {
    hide NextSymbol, CoreOk, Pow2;
    var s := NextSymbol(p, k, inp);
    var k1 := Apply(p, k, s).core;
    ApplyOk(p, k, inp);
    FlushOk(p, k1, limit);
    FlushTwice(p, k1, limit, lim);
    if k1.rem != SPEC_LEN {
      assert Flush(k1, limit).rem != SPEC_LEN;
      SameDecode(p, k1, Flush(k1, limit), s.coder.inp, lim, mode);
    }
    assert Flush(k, lim) == k;
    assert TakeTurn(p, k, inp, lim, mode) == Go(k1, s.coder.inp);
  }

  lemma TurnFailed(p: Prop, k: Core, inp: seq<Byte>, limit: nat, lim: nat, mode: Mode)
    requires CoreOk(p, k) && k.rem == 0 && |k.out| <= limit <= lim
    requires NextSymbol(p, k, inp).Finished?
    requires |k.out| < limit || (limit == lim && mode == FinishEnd && k.code != 0 && ClassOf(NextSymbol(p, k, inp).symbol) == ClassMatch)
    requires Apply(p, k, NextSymbol(p, k, inp)).Rejected? || (|k.out| == limit && NextSymbol(p, k, inp).symbol != EndMark)
    ensures Decode(p, k, inp, lim, mode) == Failed(NotSpecified)
  {
    hide NextSymbol, CoreOk, Pow2;
    assert Flush(k, lim) == k;
    assert TakeTurn(p, k, inp, lim, mode) == Halt(Failed(NotSpecified));
  }

  lemma CoreProbs(p: Prop, k: Core)
    requires CoreOk(p, k)
    ensures ProbsOk(k.probs)
  {
  }

  lemma ContextState(p: Prop, k: Core)
    requires p.lc <= 8
    ensures ContextOf(p, k).state == k.state && ContextOf(p, k).posState == |k.out| % Pow2(p.pb)
  {
  }

  lemma LiteralClass(rc: RangeDecoder, x: Ctx)
    requires rc.Can(x, LitBit(1, x.matchByte, x.state >= 7))
    ensures ClassOf(rc.Rest(x, LitBit(1, x.matchByte, x.state >= 7)).symbol) == ClassLit
  {
    LiteralDecided(x, rc.At(LitBit(1, x.matchByte, x.state >= 7)));
  }

  lemma {:induction false} LiteralDecided(x: Ctx, w: Place)
    requires PlaceOk(x, w) && Run(x, w).Finished?
    requires w.node.LitBit? || (w.node.Done? && w.node.symbol.Lit?)
    ensures Run(x, w).symbol.Lit?
    decreases Steps(w.node)
  {
    hide NodeOk, Slot, Steps;
    if !w.node.Done? { LiteralDecided(x, Step(x, w)); }
  }

  /** A match accepted by its meaning leaves a valid state that owes its bytes. */
  lemma MatchOk(p: Prop, k: Core, s: Outcome)
    requires CoreOk(p, k) && k.rem == 0 && s.Finished? && SymbolOk(s.symbol) && s.symbol.Copy?
    requires LzmaRange.Ready(s.coder) && |s.probs| == |k.probs| && ProbsOk(s.probs)
    ensures Apply(p, k, s).Accepted? ==> CoreOk(p, Apply(p, k, s).core) && Owes(Apply(p, k, s).core)
  {
    hide Pow2;
  }

  /** After anything but a literal there is output and the last distance lies within it. */
  lemma FarState(p: Prop, k: Core)
    requires CoreOk(p, k) && k.rem == 0 && k.state >= 7
    ensures 1 <= k.reps.r0 <= |k.out|
  {
  }

  // ---- Stream properties

  datatype PropResult = PropOf(prop: Prop) | PropUnsupported

  function LittleEndian(b0: Byte, b1: Byte, b2: Byte, b3: Byte): nat {
    b0 as int + (b1 as int) * 0x100 + (b2 as int) * 0x1_0000 + (b3 as int) * 0x100_0000
  }

  /** LzmaProps_Decode. */
  method PropsDecode(data: seq<Byte>) returns (r: PropResult)
    ensures r.PropUnsupported? <==> |data| < 5 || data[0] >= 225
    ensures r.PropOf? ==>
              PropOk(r.prop) && r.prop.lc < 9 && r.prop.lp < 5 && r.prop.pb < 5
              && data[0] as int == (r.prop.pb * 5 + r.prop.lp) * 9 + r.prop.lc
              && r.prop.dicSize == (var n := LittleEndian(data[1], data[2], data[3], data[4]); if n < 0x1000 then 0x1000 else n)
  {
    if |data| < 5 { return PropUnsupported; }
    var dicSize := LittleEndian(data[1], data[2], data[3], data[4]);
    if dicSize < 0x1000 {
      dicSize := 0x1000;
    }
    var d: int := data[0];
    if d >= 9 * 5 * 5 { return PropUnsupported; }
    var lc := d % 9;
    d := d / 9;
    r := PropOf(Prop(lc, d % 5, d / 5, dicSize));
  }

  /** The three exponents are determined by the property byte. */
  lemma PropsUnique(lc: nat, lp: nat, pb: nat, lc': nat, lp': nat, pb': nat)
    requires lc < 9 && lp < 5 && lc' < 9 && lp' < 5
    requires (pb * 5 + lp) * 9 + lc == (pb' * 5 + lp') * 9 + lc'
    ensures lc == lc' && lp == lp' && pb == pb'
  {
    assert pb * 5 + lp == pb' * 5 + lp';
  }

  // ---- One call

  /** LzmaDecode: `dest` is both the output and the dictionary. */
  method LzmaDecode(dest: array<Byte>, src: seq<Byte>, propData: seq<Byte>, finishMode: Mode)
    returns (res: SRes, destLen: nat, srcLen: nat, status: Status, ghost props: PropResult)
    requires dest.Length < U32
    modifies dest
    ensures |src| < HEADER ==> res == SzErrorInputEof && destLen == srcLen == 0 && dest[..] == old(dest[..])
    ensures |src| >= HEADER && (|propData| < 5 || propData[0] >= 225) ==>
              res == SzErrorUnsupported && destLen == srcLen == 0 && dest[..] == old(dest[..])
    ensures |src| >= HEADER && !(|propData| < 5 || propData[0] >= 225) ==>
              props.PropOf? && PropOk(props.prop) && PropsOf(propData, props.prop)
              && OneCall(props.prop, dest, src, finishMode, res, destLen, srcLen, status)
  {
    hide Feed, Decode, CoreOk;
    destLen, srcLen, status := 0, 0, NotSpecified;
    props := PropUnsupported;
    if |src| < HEADER {
      res := SzErrorInputEof;
      return;
    }
    var pr := PropsDecode(propData);
    if pr.PropUnsupported? {
      res := SzErrorUnsupported;
      return;
    }
    props := pr;
    var p := new CLzmaDec(pr.prop, dest);
    FeedRunning(pr.prop, src, dest.Length, finishMode);
    ghost var reply := p.FeedReply(dest.Length, src, finishMode);
    res, srcLen, status := p.DecodeToDic(dest.Length, src, finishMode);
    destLen := p.dicPos;
    if res == SzOk && status == NeedsMoreInput {
      res := SzErrorInputEof;
    }
  }

  ghost predicate PropsOf(data: seq<Byte>, p: Prop)
    requires |data| >= 5
  {
    && p.lc < 9 && p.lp < 5 && p.pb < 5 && data[0] as int == (p.pb * 5 + p.lp) * 9 + p.lc
    && p.dicSize == (var n := LittleEndian(data[1], data[2], data[3], data[4]); if n < 0x1000 then 0x1000 else n)
  }

  /** The results of one call are those of the stream decoder fed once from the start. */
  ghost predicate OneCall(
    p: Prop, dest: array<Byte>, src: seq<Byte>, mode: Mode, res: SRes, destLen: nat, srcLen: nat, status: Status)
    requires PropOk(p)
    reads dest
  {
    match Feed(p, Waiting([]), src, dest.Length, mode)
    case Refused(s) => res == SzErrorData && status == s
    case Reply(s, Running(k, rest)) =>
      && status == s && destLen <= dest.Length && dest[..destLen] == k.out && srcLen <= |src|
      && res == (if s == NeedsMoreInput then SzErrorInputEof else SzOk)
      && srcLen == (if s == NeedsMoreInput then |src| else |src| - |rest|)
    case Reply(_, Waiting(_)) => false
  }

  lemma FeedRunning(p: Prop, src: seq<Byte>, limit: nat, mode: Mode)
    requires PropOk(p) && |src| >= HEADER
    ensures var r := Feed(p, Waiting([]), src, limit, mode); r.Reply? ==> r.next.Running?
  {
    hide Decode;
  }
}
