/**
 * The working registers of the decoder (`range`, `code`, `buf`) and the bit-level
 * loops of LzmaDec.c, each proved to take the steps of the decision graph.
 */
module LzmaRangeDecoder {
  import opened LzmaBits
  import opened LzmaRange
  import opened LzmaSymbol
  import opened LzmaStream

  class RangeDecoder {
    const src: seq<Byte>
    const probs: array<nat>
    var range: nat
    var code: nat
    var buf: nat

    ghost predicate Valid()
      reads this
    {
      buf <= |src| && 0x1_0000 <= range < U32 && code < U32
    }

    ghost function View(): (c: Coder)
      requires Valid()
      reads this
      ensures CoderOk(c)
    {
      Coder(range, code, src[buf..])
    }

    /** The place of a walk that has decision `n` before it. */
    ghost function At(n: Node): Place
      requires Valid()
      reads this, probs
    {
      Place(n, View(), probs[..])
    }

    /** The rest of the symbol is there to be decoded from decision `n` on. */
    ghost predicate Can(x: Ctx, n: Node)
      reads this, probs
    {
      Valid() && PlaceOk(x, At(n)) && Run(x, At(n)).Finished?
    }

    ghost function Rest(x: Ctx, n: Node): Outcome
      requires Can(x, n)
      reads this, probs
    {
      Run(x, At(n))
    }

    /** From `n` on the walk ends with `r`. */
    ghost predicate Leads(x: Ctx, n: Node, r: Outcome)
      reads this, probs
    {
      Can(x, n) && Rest(x, n) == r
    }

    /** At the end of a symbol only the closing normalisation is left. */
    lemma AtDone(x: Ctx, sym: Symbol)
      requires Can(x, Done(sym))
      ensures !Dry(View()) && Rest(x, Done(sym)) == Finished(sym, Normal(View()), probs[..])
    {
    }

    constructor (src: seq<Byte>, probs: array<nat>, range: nat, code: nat, buf: nat)
      requires buf <= |src| && 0x1_0000 <= range < U32 && code < U32
      ensures Valid() && View() == Coder(range, code, src[buf..])
      ensures this.src == src && this.probs == probs && this.buf == buf
    {
      this.src, this.probs := src, probs;
      this.range, this.code, this.buf := range, code, buf;
    }

    /** NORMALIZE: shift in at most one byte. */
    method Normalize()
      requires Valid() && !Dry(View())
      modifies this
      ensures Valid() && View() == Normal(old(View()))
      ensures old(buf) <= buf <= old(buf) + 1
    {
      if range < TOP {
        range := range * 256;
        code := code * 256 % U32 + src[buf];
        buf := buf + 1;
      }
    }

    /** IF_BIT_0 with UPDATE_0 or UPDATE_1: one adaptive decision. */
    method DecodeBit(slot: nat, ghost x: Ctx, ghost n: Node) returns (bit: bool)
      requires Can(x, n) && Reads(n) && slot == Slot(x, n)
      modifies this, probs
      ensures Valid() && At(Next(x, n, bit)) == Step(x, old(At(n)))
      ensures Can(x, Next(x, n, bit)) && Rest(x, Next(x, n, bit)) == old(Rest(x, n))
      ensures buf >= old(buf)
    {
      hide Follow, Slot, NodeOk, Steps;
      ghost var w := At(n);
      SlotInRegion(x, n);
      var ttt := probs[slot];
      Normalize();
      BoundFits(View(), ttt);
      var bound := range / 2048 * ttt;
      if code < bound {
        range := bound;
        probs[slot] := ttt + (2048 - ttt) / 32;
        bit := false;
      } else {
        range := range - bound;
        code := code - bound;
        probs[slot] := ttt - ttt / 32;
        bit := true;
      }
      assert probs[..] == w.probs[slot := NewProb(ttt, bit)];
    }

    /** One bit of a forward bit tree: GET_BIT2 without side actions. */
    method TreeBit(prob: nat, i: nat, ghost x: Ctx, ghost n: Node) returns (j: nat, ghost n': Node)
      requires Can(x, n) && Reads(n) && prob + i == Slot(x, n)
      modifies this, probs
      ensures j == 2 * i || j == 2 * i + 1
      ensures n' == Next(x, n, j == 2 * i + 1)
      ensures Can(x, n') && Rest(x, n') == old(Rest(x, n))
      ensures buf >= old(buf)
    {
      hide Follow, Slot, NodeOk, Run, Ahead, Adaptive, Direct;
      assert NodeOk(n);
      var bit := DecodeBit(prob + i, x, n);
      n' := Next(x, n, bit);
      j := if bit then i + i + 1 else i + i;
    }

    /** A literal after another literal: eight bits straight down the tree. */
    method DecodeLiteral(prob: nat, ghost x: Ctx) returns (symbol: nat)
      requires x.state < 7 && prob == x.lit
      requires Can(x, LitBit(1, x.matchByte, false))
      modifies this, probs
      ensures 0x100 <= symbol < 0x200
      ensures Can(x, Done(Lit(symbol % 256)))
      ensures Rest(x, Done(Lit(symbol % 256))) == old(Rest(x, LitBit(1, x.matchByte, false)))
      ensures buf >= old(buf)
    {
      hide Run, PlaceOk;
      symbol := 1;
      ghost var n := LitBit(1, x.matchByte, false);
      while symbol < 0x100
        invariant 1 <= symbol < 0x200 && buf >= old(buf)
        invariant if symbol < 0x100 then n.LitBit? && n.sym == symbol && !n.same else n == Done(Lit(symbol % 256))
        invariant Can(x, n) && Rest(x, n) == old(Rest(x, LitBit(1, x.matchByte, false)))
        decreases 0x200 - symbol
      {
        symbol, n := TreeBit(prob, symbol, x, n);
      }
    }

    /** MATCHED_LITER_DEC: one bit, following `matchByte` without a branch while the bits agree. */
    method DecodeMatchedBit(prob: nat, symbol: nat, matchByte: nat, offs: nat, ghost x: Ctx, ghost n: Node)
      returns (symbol': nat, matchByte': nat, offs': nat, ghost n': Node)
      requires prob == x.lit && 1 <= symbol < 0x100 && Following(n, symbol, matchByte, offs) && Can(x, n)
      modifies this, probs
      ensures symbol' == 2 * symbol || symbol' == 2 * symbol + 1
      ensures Following(n', symbol', matchByte', offs')
      ensures Can(x, n') && Rest(x, n') == old(Rest(x, n))
      ensures buf >= old(buf)
    {
      hide Run, Rest, Following, And, Xor, Slot, Follow;
      MatchedSlot(x, n, symbol, matchByte, offs);
      matchByte' := matchByte + matchByte;
      var bit := offs;
      offs' := And(offs, matchByte');
      symbol', n' := TreeBit(prob + (offs' + bit), symbol, x, n);
      MatchedNext(x, n, symbol, matchByte, offs, symbol' == 2 * symbol + 1);
      if symbol' == symbol + symbol {
        offs' := Xor(offs', bit);
      }
    }

    /** A literal after a match. */
    method DecodeMatchedLiteral(prob: nat, matchByte0: Byte, ghost x: Ctx) returns (symbol: nat)
      requires prob == x.lit && matchByte0 == x.matchByte
      requires Can(x, LitBit(1, x.matchByte, true))
      modifies this, probs
      ensures 0x100 <= symbol < 0x200
      ensures Can(x, Done(Lit(symbol % 256)))
      ensures Rest(x, Done(Lit(symbol % 256))) == old(Rest(x, LitBit(1, x.matchByte, true)))
      ensures buf >= old(buf)
    {
      hide Can, Rest;
      var matchByte: nat, offs: nat := matchByte0, 0x100;
      symbol := 1;
      ghost var n := LitBit(1, x.matchByte, true);
      while symbol < 0x100
        invariant 1 <= symbol < 0x200 && buf >= old(buf)
        invariant Following(n, symbol, matchByte, offs)
        invariant Can(x, n) && Rest(x, n) == old(Rest(x, LitBit(1, x.matchByte, true)))
        decreases 0x200 - symbol
      {
        symbol, matchByte, offs, n := DecodeMatchedBit(prob, symbol, matchByte, offs, x, n);
      }
    }

    /** TREE_DECODE over the eight-bit or three-bit part of a length coder. */
    method LenTree(prob: nat, limit: nat, ghost x: Ctx, ghost kind: Kind, ghost band: Band)
      returns (m: nat)
      requires limit == BandLimit(band) && prob == LenCoder(kind) + BandStart(x, band)
      requires Can(x, LenBit(kind, band, 1))
      modifies this, probs
      ensures limit <= m < 2 * limit
      ensures KindOk(kind)
      ensures Leads(x, AfterLen(kind, LenOf(band, m)), old(Rest(x, LenBit(kind, band, 1))))
      ensures buf >= old(buf)
    {
      hide Run, AfterLen;
      m := 1;
      ghost var n := LenBit(kind, band, 1);
      while m < limit
        invariant 1 <= m < 2 * limit && buf >= old(buf) && KindOk(kind)
        invariant n == if m < limit then LenBit(kind, band, m)
                       else AfterLen(kind, LenOf(band, m))
        invariant Can(x, n) && Rest(x, n) == old(Rest(x, LenBit(kind, band, 1)))
        decreases 2 * limit - m
      {
        m, n := TreeBit(prob, m, x, n);
      }
    }

    /** A match length less two, from the length coder that starts at `prob`. */
    method DecodeLen(prob: nat, posState: nat, ghost x: Ctx, ghost kind: Kind) returns (len: nat)
      requires prob == LenCoder(kind) && posState == 16 * x.posState
      requires Can(x, LenChoice(kind))
      modifies this, probs
      ensures len <= 271 && KindOk(kind)
      ensures Can(x, AfterLen(kind, len))
      ensures Rest(x, AfterLen(kind, len)) == old(Rest(x, LenChoice(kind)))
      ensures buf >= old(buf)
    {
      hide Run, AfterLen;
      var choice := DecodeBit(prob, x, LenChoice(kind));
      if !choice {
        len := LenTree(prob + posState, 8, x, kind, Near);
        len := len - 8;
      } else {
        var choice2 := DecodeBit(prob + 8, x, LenChoice2(kind));
        if !choice2 {
          len := LenTree(prob + posState + 8, 8, x, kind, Mid);
        } else {
          len := LenTree(prob + 256, 256, x, kind, Far);
          len := len - 256 + 16;
        }
      }
    }

    // ---- The checking macros of the dry run: stop when a byte is missing, leave probabilities alone

    ghost predicate DryCan(x: Ctx, n: Node)
      reads this, probs
    {
      Valid() && PlaceOk(x, At(n))
    }

    ghost function DryRest(x: Ctx, n: Node): DryOutcome
      requires DryCan(x, n)
      reads this, probs
    {
      DryRun(x, At(n))
    }

    /** At the end of the dry symbol only the closing normalisation is left. */
    lemma DryDone(x: Ctx, sym: Symbol)
      requires DryCan(x, Done(sym))
      ensures Valid() && DryRest(x, Done(sym)) == if Dry(View()) then DryStarved else DryFinished(sym, Normal(View()))
    {
    }

    /** NORMALIZE_CHECK. */
    method NormalizeCheck() returns (ok: bool)
      requires Valid()
      modifies this
      ensures Valid() && ok == !old(Dry(View()))
      ensures View() == if ok then Normal(old(View())) else old(View())
    {
      if range < TOP {
        if buf >= |src| { return false; }
        range := range * 256;
        code := code * 256 % U32 + src[buf];
        buf := buf + 1;
      }
      ok := true;
    }

    /** IF_BIT_0_CHECK with UPDATE_0_CHECK or UPDATE_1_CHECK. */
    method CheckBit(slot: nat, ghost x: Ctx, ghost n: Node) returns (ok: bool, bit: bool, ghost n': Node)
      requires DryCan(x, n) && Reads(n) && slot == Slot(x, n)
      modifies this
      ensures !ok ==> old(DryRest(x, n)) == DryStarved
      ensures ok ==> n' == Next(x, n, bit) && DryCan(x, n') && DryRest(x, n') == old(DryRest(x, n))
    {
      hide Follow, Slot, NodeOk, Steps;
      ghost var w := At(n);
      SlotInRegion(x, n);
      var ttt := probs[slot];
      ok := NormalizeCheck();
      bit, n' := false, n;
      if ok {
        BoundFits(View(), ttt);
        var bound := range / 2048 * ttt;
        if code < bound {
          range := bound;
        } else {
          range := range - bound;
          code := code - bound;
          bit := true;
        }
        n' := Next(x, n, bit);
        assert At(n') == Step(x, w).(probs := w.probs);
      }
    }

    /** The second branch-free form: the mask is all ones when the borrow of `code - range` is clear. */
    method CheckDirectBit(ghost x: Ctx, ghost n: Node) returns (ok: bool, ghost n': Node)
      requires DryCan(x, n) && n.DirectBit?
      modifies this
      ensures !ok ==> old(DryRest(x, n)) == DryStarved
      ensures ok ==> (exists b :: n' == Next(x, n, b)) && DryCan(x, n') && DryRest(x, n') == old(DryRest(x, n))
    {
      hide Follow, NodeOk, Steps, And;
      ghost var w := At(n);
      ok := NormalizeCheck();
      n' := n;
      if ok {
        ghost var c := View();
        range := range / 2;
        BranchFreeCheck(code, range);
        code := (code - And(range, ((code - range) % U32 / 0x8000_0000 - 1) % U32)) % U32;
        n' := Next(x, n, DirectOf(c));
        assert At(n') == Step(x, w).(probs := w.probs);
      }
    }

    method CheckLiteral(prob: nat, ghost x: Ctx) returns (ok: bool, ghost sym: Symbol)
      requires prob == x.lit && DryCan(x, LitBit(1, x.matchByte, false))
      modifies this
      ensures !ok ==> old(DryRest(x, LitBit(1, x.matchByte, false))) == DryStarved
      ensures ok ==> sym.Lit? && DryCan(x, Done(sym)) && DryRest(x, Done(sym)) == old(DryRest(x, LitBit(1, x.matchByte, false)))
    {
      hide DryCan, DryRest, NodeOk;
      var symbol := 1;
      ghost var n := LitBit(1, x.matchByte, false);
      ok, sym := true, ShortRep;
      while symbol < 0x100
        invariant 1 <= symbol < 0x200 && ok
        invariant if symbol < 0x100 then n.LitBit? && n.sym == symbol && !n.same else n == Done(Lit(symbol % 256))
        invariant DryCan(x, n) && DryRest(x, n) == old(DryRest(x, LitBit(1, x.matchByte, false)))
        decreases 0x200 - symbol
      {
        DryNode(x, n);
        var bit;
        ok, bit, n := CheckBit(prob + symbol, x, n);
        if !ok { return; }
        symbol := if bit then symbol + symbol + 1 else symbol + symbol;
      }
      sym := Lit(symbol % 256);
    }

    lemma DryNode(x: Ctx, n: Node)
      requires DryCan(x, n)
      ensures NodeOk(n) && CtxOk(x)
    {
    }

    method CheckMatchedLiteral(prob: nat, matchByte0: Byte, ghost x: Ctx) returns (ok: bool, ghost sym: Symbol)
      requires prob == x.lit && matchByte0 == x.matchByte && DryCan(x, LitBit(1, x.matchByte, true))
      modifies this
      ensures !ok ==> old(DryRest(x, LitBit(1, x.matchByte, true))) == DryStarved
      ensures ok ==> sym.Lit? && DryCan(x, Done(sym)) && DryRest(x, Done(sym)) == old(DryRest(x, LitBit(1, x.matchByte, true)))
    {
      hide DryCan, DryRest, NodeOk, Following, And, Xor, Slot, Follow;
      var matchByte: nat, offs: nat, symbol := matchByte0, 0x100, 1;
      ghost var n := LitBit(1, x.matchByte, true);
      FollowingStart(x.matchByte);
      ok, sym := true, ShortRep;
      while symbol < 0x100
        invariant 1 <= symbol < 0x200 && ok && Following(n, symbol, matchByte, offs)
        invariant DryCan(x, n) && DryRest(x, n) == old(DryRest(x, LitBit(1, x.matchByte, true)))
        decreases 0x200 - symbol
      {
        DryNode(x, n);
        MatchedSlot(x, n, symbol, matchByte, offs);
        ghost var m := n;
        var bit, taken := offs, false;
        var doubled := matchByte + matchByte;
        offs := And(offs, doubled);
        ok, taken, n := CheckBit(prob + (offs + bit + symbol), x, n);
        if !ok { return; }
        MatchedNext(x, m, symbol, matchByte, bit, taken);
        if !taken {
          offs := Xor(offs, bit);
        }
        symbol := 2 * symbol + Bit(taken);
        matchByte := doubled;
      }
      FollowingEnd(n, symbol, matchByte, offs);
      sym := Lit(symbol % 256);
    }

    /** TREE_DECODE_CHECK over a part of a length coder; `len` without the start value of the band. */
    method CheckLenTree(prob: nat, limit: nat, ghost x: Ctx, ghost kind: Kind, ghost band: Band)
      returns (ok: bool, len: nat, ghost n: Node)
      requires limit == BandLimit(band) && prob == LenCoder(kind) + BandStart(x, band)
      requires DryCan(x, LenBit(kind, band, 1))
      modifies this
      ensures !ok ==> old(DryRest(x, LenBit(kind, band, 1))) == DryStarved
      ensures ok ==> n == AfterLen(kind, match band case Near => len case Mid => len + 8 case Far => len + 16)
      ensures ok ==> DryCan(x, n) && DryRest(x, n) == old(DryRest(x, LenBit(kind, band, 1)))
    {
      hide DryCan, DryRest, NodeOk, AfterLen;
      len, ok := 1, true;
      n := LenBit(kind, band, 1);
      while len < limit
        invariant 1 <= len < 2 * limit && ok
        invariant n == if len < limit then LenBit(kind, band, len)
                       else AfterLen(kind, LenOf(band, len))
        invariant DryCan(x, n) && DryRest(x, n) == old(DryRest(x, LenBit(kind, band, 1)))
        decreases 2 * limit - len
      {
        DryNode(x, n);
        var bit;
        ok, bit, n := CheckBit(prob + len, x, n);
        if !ok { return; }
        len := 2 * len + Bit(bit);
      }
      len := len - limit;
    }

    method CheckLen(prob: nat, posState: nat, ghost x: Ctx, ghost kind: Kind) returns (ok: bool, len: nat, ghost n: Node)
      requires prob == LenCoder(kind) && posState == 16 * x.posState && DryCan(x, LenChoice(kind))
      modifies this
      ensures !ok ==> old(DryRest(x, LenChoice(kind))) == DryStarved
      ensures ok ==> n == AfterLen(kind, len) && DryCan(x, n) && DryRest(x, n) == old(DryRest(x, LenChoice(kind)))
    {
      hide DryCan, DryRest, NodeOk, AfterLen;
      DryNode(x, LenChoice(kind));
      var bit, offset;
      len := 0;
      ok, bit, n := CheckBit(prob, x, LenChoice(kind));
      if !ok { return; }
      if !bit {
        ok, len, n := CheckLenTree(prob + posState, 8, x, kind, Near);
        offset := 0;
      } else {
        DryNode(x, LenChoice2(kind));
        ok, bit, n := CheckBit(prob + 8, x, LenChoice2(kind));
        if !ok { return; }
        if !bit {
          ok, len, n := CheckLenTree(prob + posState + 8, 8, x, kind, Mid);
          offset := 8;
        } else {
          ok, len, n := CheckLenTree(prob + 256, 256, x, kind, Far);
          offset := 8 * 2;
        }
      }
      len := len + offset;
    }

    method CheckSlot(len: nat, ghost x: Ctx) returns (ok: bool, posSlot: nat, ghost n: Node)
      requires DryCan(x, SlotBit(len + 2, 1))
      modifies this
      ensures !ok ==> old(DryRest(x, SlotBit(len + 2, 1))) == DryStarved
      ensures ok ==> posSlot < 64 && n == AfterSlot(len + 2, posSlot)
      ensures ok ==> DryCan(x, n) && DryRest(x, n) == old(DryRest(x, SlotBit(len + 2, 1)))
    {
      hide DryCan, DryRest, NodeOk, AfterSlot;
      var prob := POS_SLOT + 64 * (if len < 4 - 1 then len else 4 - 1);
      posSlot, ok := 1, true;
      n := SlotBit(len + 2, 1);
      while posSlot < 64
        invariant 1 <= posSlot < 128 && ok
        invariant n == if posSlot < 64 then SlotBit(len + 2, posSlot) else AfterSlot(len + 2, posSlot % 64)
        invariant DryCan(x, n) && DryRest(x, n) == old(DryRest(x, SlotBit(len + 2, 1)))
        decreases 128 - posSlot
      {
        DryNode(x, n);
        var bit;
        ok, bit, n := CheckBit(prob + posSlot, x, n);
        if !ok { return; }
        posSlot := 2 * posSlot + Bit(bit);
      }
      posSlot := posSlot - 64;
    }

    /** The direct bits of a long distance; nothing of the distance itself is kept. */
    method CheckDirectBits(num: nat, ghost x: Ctx, ghost n0: Node) returns (ok: bool, ghost n: Node)
      requires n0.DirectBit? && n0.left == num && DryCan(x, n0)
      modifies this
      ensures !ok ==> old(DryRest(x, n0)) == DryStarved
      ensures ok ==> n.RevBit? && n.align && n.i == n.m == 1 && n.left == 4
      ensures ok ==> DryCan(x, n) && DryRest(x, n) == old(DryRest(x, n0))
    {
      hide DryCan, DryRest, NodeOk;
      var left := num;
      n, ok := n0, true;
      DryNode(x, n);
      DirectBelow(n);
      while left > 0
        invariant ok
        invariant if left > 0 then n.DirectBit? && n.left == left
                  else n.RevBit? && n.align && n.i == n.m == 1 && n.left == 4
        invariant DryCan(x, n) && DryRest(x, n) == old(DryRest(x, n0))
      {
        DryNode(x, n);
        ok, n := CheckDirectBit(x, n);
        if !ok { return; }
        left := left - 1;
      }
    }

    /** The low bits of a distance, through `prob + i` for both tables. */
    method CheckRevBits(prob: nat, num: nat, ghost x: Ctx, ghost n0: Node) returns (ok: bool, ghost sym: Symbol)
      requires n0.RevBit? && n0.i == n0.m == 1 && n0.left == num && DryCan(x, n0)
      requires prob == if n0.align then ALIGN else SPEC_POS + n0.dist
      modifies this
      ensures !ok ==> old(DryRest(x, n0)) == DryStarved
      ensures ok ==> ClassOf(sym) == ClassMatch && DryCan(x, Done(sym)) && DryRest(x, Done(sym)) == old(DryRest(x, n0))
    {
      hide DryCan, DryRest, NodeOk;
      var i, m, left := 1, 1, num;
      ghost var n := n0;
      ok, sym := true, ShortRep;
      DryNode(x, n);
      RevLeft(n);
      while left > 0
        invariant ok
        invariant if left > 0
                  then n.RevBit? && n.i == i && n.m == m && n.left == left && n.align == n0.align && n.dist == n0.dist
                  else n.Done? && ClassOf(n.symbol) == ClassMatch
        invariant DryCan(x, n) && DryRest(x, n) == old(DryRest(x, n0))
      {
        DryNode(x, n);
        var bit;
        ok, bit, n := CheckBit(prob + i, x, n);
        if !ok { return; }
        if !bit {
          i := i + m;
          m := m + m;
        } else {
          m := m + m;
          i := i + m;
        }
        left := left - 1;
      }
      sym := n.symbol;
    }

    /** The distance part of a new match. */
    method CheckDistance(len: nat, ghost x: Ctx) returns (ok: bool, ghost sym: Symbol)
      requires DryCan(x, SlotBit(len + 2, 1))
      modifies this
      ensures !ok ==> old(DryRest(x, SlotBit(len + 2, 1))) == DryStarved
      ensures ok ==> ClassOf(sym) == ClassMatch && DryCan(x, Done(sym))
      ensures ok ==> DryRest(x, Done(sym)) == old(DryRest(x, SlotBit(len + 2, 1)))
    {
      hide DryCan, DryRest, NodeOk;
      var posSlot;
      ghost var n;
      sym := ShortRep;
      ok, posSlot, n := CheckSlot(len, x);
      if !ok { return; }
      if posSlot >= 4 {
        var numDirectBits := posSlot / 2 - 1;
        var prob;
        if posSlot < 14 {
          prob := SPEC_POS + (2 + posSlot % 2) * Pow2(numDirectBits);
        } else {
          numDirectBits := numDirectBits - 4;
          ok, n := CheckDirectBits(numDirectBits, x, n);
          if !ok { return; }
          prob := ALIGN;
          numDirectBits := 4;
        }
        ok, sym := CheckRevBits(prob, numDirectBits, x, n);
      } else {
        sym := n.symbol;
      }
    }

    /** Which recent distance is meant: only whether a length follows. */
    method CheckRep(state: nat, posState: nat, ghost x: Ctx) returns (ok: bool, short: bool, ghost n: Node)
      requires state == x.state && posState == 16 * x.posState && DryCan(x, IsRepG0)
      modifies this
      ensures !ok ==> old(DryRest(x, IsRepG0)) == DryStarved
      ensures ok ==> if short then n == Done(ShortRep) else n.LenChoice? && n.kind.Rep?
      ensures ok ==> DryCan(x, n) && DryRest(x, n) == old(DryRest(x, IsRepG0))
    {
      hide DryCan, DryRest;
      short := false;
      var bit;
      ok, bit, n := CheckBit(IS_REP_G0 + state, x, IsRepG0);
      if !ok { return; }
      if !bit {
        ok, bit, n := CheckBit(IS_REP0_LONG + posState + state, x, IsRep0Long);
        short := !bit;
      } else {
        ok, bit, n := CheckBit(IS_REP_G1 + state, x, IsRepG1);
        if !ok { return; }
        if bit {
          ok, bit, n := CheckBit(IS_REP_G2 + state, x, IsRepG2);
        }
      }
    }

    /** Which recent distance is meant, and the distances in their new order. */
    method DecodeRep(state: nat, posState: nat, reps: Reps, ghost x: Ctx)
      returns (short: bool, reps': Reps, ghost n': Node)
      requires state == x.state && posState == 16 * x.posState
      requires Can(x, IsRepG0)
      modifies this, probs
      ensures if short then n' == Done(ShortRep) && reps' == reps
              else n'.LenChoice? && n'.kind.Rep? && KindOk(n'.kind) && reps' == Recall(reps, n'.kind.which)
      ensures Can(x, n') && Rest(x, n') == old(Rest(x, IsRepG0))
      ensures buf >= old(buf)
    {
      hide Can, Rest;
      short, reps' := false, reps;
      var g0 := DecodeBit(IS_REP_G0 + state, x, IsRepG0);
      if !g0 {
        var long := DecodeBit(IS_REP0_LONG + posState + state, x, IsRep0Long);
        short, n' := !long, if long then LenChoice(Rep(0)) else Done(ShortRep);
      } else {
        var distance;
        var g1 := DecodeBit(IS_REP_G1 + state, x, IsRepG1);
        if !g1 {
          distance, n' := reps.r1, LenChoice(Rep(1));
        } else {
          var g2 := DecodeBit(IS_REP_G2 + state, x, IsRepG2);
          if !g2 {
            distance, n' := reps.r2, LenChoice(Rep(2));
          } else {
            distance, n' := reps.r3, LenChoice(Rep(3));
            reps' := reps'.(r3 := reps.r2);
          }
          reps' := reps'.(r2 := reps.r1);
        }
        reps' := reps'.(r1 := reps.r0, r0 := distance);
      }
    }

    /** One direct bit, without a branch: `t` is all ones when `code` was below the halved range. */
    method DecodeDirectBit(distance: nat, ghost x: Ctx, ghost n: Node) returns (d: nat)
      requires n.DirectBit? && n.dist == distance < 0x800_0000 && Can(x, n)
      modifies this
      ensures d == 2 * distance || d == 2 * distance + 1
      ensures Can(x, Next(x, n, d == 2 * distance + 1))
      ensures Rest(x, Next(x, n, d == 2 * distance + 1)) == old(Rest(x, n))
      ensures buf >= old(buf)
    {
      hide Follow, NodeOk, Steps, And, Slot, ProbsOk, Fits;
      ghost var w := At(n);
      Normalize();
      ghost var c := View();
      range := range / 2;
      code := (code - range) % U32;
      var t := (0 - code / 0x8000_0000) % U32;
      d := (distance * 2 + (t + 1)) % U32;
      BranchFree(c.code, range, distance);
      code := (code + And(range, t)) % U32;
      assert At(Next(x, n, DirectOf(c))) == Step(x, w);
    }

    method DecodeDirectBits(distance0: nat, numDirectBits: nat, ghost x: Ctx, ghost len: nat) returns (distance: nat)
      requires Can(x, DirectBit(len, distance0, numDirectBits))
      modifies this
      ensures NodeOk(RevBit(len, 16 * distance, 1, 1, 4, true))
      ensures Can(x, RevBit(len, 16 * distance, 1, 1, 4, true))
      ensures Rest(x, RevBit(len, 16 * distance, 1, 1, 4, true)) == old(Rest(x, DirectBit(len, distance0, numDirectBits)))
      ensures buf >= old(buf)
    {
      hide Run, NodeOk, Steps;
      distance := distance0;
      var left := numDirectBits;
      ghost var n := DirectBit(len, distance, left);
      DirectBelow(n);
      while left > 0
        invariant n == if left > 0 then DirectBit(len, distance, left) else RevBit(len, 16 * distance, 1, 1, 4, true)
        invariant buf >= old(buf)
        invariant Can(x, n) && Rest(x, n) == old(Rest(x, DirectBit(len, distance0, numDirectBits)))
      {
        DirectBelow(n);
        var d := DecodeDirectBit(distance, x, n);
        n := Next(x, n, d == 2 * distance + 1);
        distance := d;
        left := left - 1;
      }
    }

    /** The low bits of a short distance, least significant first (REV_BIT_VAR). */
    method DecodeSpecBits(base: nat, numDirectBits: nat, ghost x: Ctx, ghost len: nat) returns (distance: nat)
      requires Can(x, RevBit(len, base, 1, 1, numDirectBits, false))
      modifies this, probs
      ensures Can(x, Done(Copy(NewMatch, len, distance)))
      ensures Rest(x, Done(Copy(NewMatch, len, distance))) == old(Rest(x, RevBit(len, base, 1, 1, numDirectBits, false)))
      ensures buf >= old(buf)
    {
      hide Run, NodeOk, Steps;
      var m := 1;
      var left := numDirectBits;
      distance := base + 1;
      ghost var n := RevBit(len, base, 1, 1, left, false);
      RevLeft(n);
      while left > 0
        invariant m >= 1 && distance >= base + m && buf >= old(buf)
        invariant n == if left > 0 then RevBit(len, base, distance - base, m, left, false)
                       else Done(Copy(NewMatch, len, distance - m))
        invariant Can(x, n) && Rest(x, n) == old(Rest(x, RevBit(len, base, 1, 1, numDirectBits, false)))
      {
        var bit;
        bit, n := RevTreeBit(SPEC_POS + distance, x, n);
        if !bit {
          distance := distance + m;
          m := m + m;
        } else {
          m := m + m;
          distance := distance + m;
        }
        left := left - 1;
      }
      distance := distance - m;
    }

    /** One bit of a reverse tree; `n'` is the decision after it. */
    method RevTreeBit(slot: nat, ghost x: Ctx, ghost n: Node) returns (bit: bool, ghost n': Node)
      requires n.RevBit? && slot == (if n.align then ALIGN else SPEC_POS + n.dist) + n.i
      requires Can(x, n)
      modifies this, probs
      ensures var j := n.i + n.m + Bit(bit) * n.m;
              n' == if n.left > 1 then RevBit(n.len, n.dist, j, 2 * n.m, n.left - 1, n.align)
                    else AfterRev(n.len, n.dist + j - 2 * n.m, n.align)
      ensures Can(x, n') && Rest(x, n') == old(Rest(x, n))
      ensures buf >= old(buf)
    {
      hide Run, NodeOk, Steps, AfterRev;
      assert NodeOk(n);
      bit := DecodeBit(slot, x, n);
      n' := Next(x, n, bit);
    }

    /** The four lowest bits of a long distance (REV_BIT_CONST and REV_BIT_LAST). */
    method DecodeAlignBits(ghost d: nat, ghost x: Ctx, ghost len: nat) returns (i: nat)
      requires Can(x, RevBit(len, d, 1, 1, 4, true))
      modifies this, probs
      ensures i < 16
      ensures Can(x, AfterRev(len, d + i, true))
      ensures Rest(x, AfterRev(len, d + i, true)) == old(Rest(x, RevBit(len, d, 1, 1, 4, true)))
      ensures buf >= old(buf)
    {
      hide Can, Rest, AfterRev;
      ghost var n := RevBit(len, d, 1, 1, 4, true);
      var bit;
      i := 1;
      bit, n := RevTreeBit(ALIGN + i, x, n);
      i := if bit then i + 1 * 2 else i + 1;
      bit, n := RevTreeBit(ALIGN + i, x, n);
      i := if bit then i + 2 * 2 else i + 2;
      bit, n := RevTreeBit(ALIGN + i, x, n);
      i := if bit then i + 4 * 2 else i + 4;
      bit, n := RevTreeBit(ALIGN + i, x, n);
      i := if bit then i else i - 8;
    }

    /** The distance slot (TREE_6_DECODE). */
    method DecodeSlot(len: nat, ghost x: Ctx) returns (distance: nat)
      requires Can(x, SlotBit(len + 2, 1))
      modifies this, probs
      ensures distance < 64
      ensures Can(x, AfterSlot(len + 2, distance))
      ensures Rest(x, AfterSlot(len + 2, distance)) == old(Rest(x, SlotBit(len + 2, 1)))
      ensures buf >= old(buf)
    {
      hide Run, AfterSlot, NodeOk, Steps;
      var prob := POS_SLOT + 64 * (if len < 4 then len else 4 - 1);
      distance := 1;
      ghost var n := SlotBit(len + 2, 1);
      while distance < 64
        invariant 1 <= distance < 128 && buf >= old(buf)
        invariant n == if distance < 64 then SlotBit(len + 2, distance) else AfterSlot(len + 2, distance % 64)
        invariant Can(x, n) && Rest(x, n) == old(Rest(x, SlotBit(len + 2, 1)))
        decreases 128 - distance
      {
        distance, n := TreeBit(prob, distance, x, n);
      }
      distance := distance - 0x40;
    }

    /** The distance of a new match, less one; `end` when it is the end mark. */
    method DecodeDistance(len: nat, ghost x: Ctx) returns (distance: nat, end: bool, ghost sym: Symbol)
      requires Can(x, SlotBit(len + 2, 1))
      modifies this, probs
      ensures sym == if end then EndMark else Copy(NewMatch, len + 2, distance)
      ensures Can(x, Done(sym)) && Rest(x, Done(sym)) == old(Rest(x, SlotBit(len + 2, 1)))
      ensures buf >= old(buf)
    {
      hide Run, NodeOk, Steps;
      end := false;
      distance := DecodeSlot(len, x);
      if distance >= 4 {
        var posSlot := distance;
        var numDirectBits := distance / 2 - 1;
        distance := 2 + distance % 2;
        if posSlot < 14 {
          distance := DecodeSpecBits(distance * Pow2(numDirectBits), numDirectBits, x, len + 2);
        } else {
          numDirectBits := numDirectBits - 4;
          distance := DecodeDirectBits(distance, numDirectBits, x, len + 2);
          distance := distance * 16;
          var i := DecodeAlignBits(distance, x, len + 2);
          distance := distance + i;
          end := distance == 0xFFFF_FFFF;
        }
      }
      sym := if end then EndMark else Copy(NewMatch, len + 2, distance);
    }
  }

  /** The loop state of a matched literal stands for decision `n`. */
  ghost predicate Following(n: Node, symbol: nat, matchByte: nat, offs: nat) {
    if symbol < 0x100 then
      n.LitBit? && n.sym == symbol && n.mb == matchByte % 256 && offs == (if n.same then 0x100 else 0)
    else n == Done(Lit(symbol % 256))
  }

  lemma MatchedSlot(x: Ctx, n: Node, symbol: nat, matchByte: nat, offs: nat)
    requires NodeOk(n) && symbol < 0x100 && Following(n, symbol, matchByte, offs)
    ensures Reads(n) && x.lit + (And(offs, matchByte + matchByte) + offs) + symbol == Slot(x, n)
  {
    hide And;
    MatchBit(offs, matchByte);
  }

  lemma MatchedNext(x: Ctx, n: Node, symbol: nat, matchByte: nat, offs: nat, b: bool)
    requires NodeOk(n) && symbol < 0x100 && Following(n, symbol, matchByte, offs)
    ensures var o := And(offs, matchByte + matchByte);
            Following(Next(x, n, b), 2 * symbol + Bit(b), matchByte + matchByte, if b then o else Xor(o, offs))
  {
    hide And, Xor;
    MatchBit(offs, matchByte);
    FlipBit(And(offs, matchByte + matchByte), offs);
  }

  lemma DirectBelow(n: Node)
    requires NodeOk(n) && n.DirectBit?
    ensures n.dist < 0x800_0000 && n.left > 0
  {
    hide Pow2;
    Pow2Mono(28 - n.left, 27);
    Pow2Word();
    Pow2Sum(27, 5);
    Pow2Five();
  }

  lemma RevLeft(n: Node)
    requires NodeOk(n) && n.RevBit?
    ensures n.left > 0
  {
  }

  /** The borrow of `code - range`, spread into a mask, selects bit and remainder without a branch. */
  lemma BranchFree(code: nat, range: nat, distance: nat)
    requires code < U32 && range < U32 && distance < 0x800_0000
    ensures var c := (code - range) % U32;
            var t := (0 - c / 0x8000_0000) % U32;
            if c < 0x8000_0000 then
              (c + And(range, t)) % U32 == c && (distance * 2 + (t + 1)) % U32 == 2 * distance + 1
            else
              (c + And(range, t)) % U32 == code && (distance * 2 + (t + 1)) % U32 == 2 * distance
  {
    hide And;
    var c := (code - range) % U32;
    BorrowBack(code, range);
    if c < 0x8000_0000 {
      assert c / 0x8000_0000 == 0 && (0 - 0) % U32 == 0;
      AndZero(range);
      assert (c + 0) % U32 == c;
      assert (distance * 2 + 1) % U32 == distance * 2 + 1;
    } else {
      assert c / 0x8000_0000 == 1 && (0 - 1) % U32 == U32 - 1;
      AndOnes(range);
      assert (distance * 2 + U32) % U32 == distance * 2;
    }
  }

  lemma BranchFreeCheck(code: nat, range: nat)
    requires code < U32 && range < U32
    ensures var t := ((code - range) % U32 / 0x8000_0000 - 1) % U32;
            (code - And(range, t)) % U32 == if (code - range) % U32 < 0x8000_0000 then (code - range) % U32 else code
  {
    hide And;
    var c := (code - range) % U32;
    if c < 0x8000_0000 {
      assert c / 0x8000_0000 == 0 && (0 - 1) % U32 == U32 - 1;
      AndOnes(range);
    } else {
      assert c / 0x8000_0000 == 1;
      AndZero(range);
    }
  }

  lemma FollowingStart(mb: Byte)
    ensures Following(LitBit(1, mb, true), 1, mb, 0x100)
  {
  }

  lemma FollowingEnd(n: Node, symbol: nat, matchByte: nat, offs: nat)
    requires symbol >= 0x100 && Following(n, symbol, matchByte, offs)
    ensures n == Done(Lit(symbol % 256))
  {
  }

  lemma BorrowBack(code: nat, range: nat)
    requires code < U32 && range < U32
    ensures ((code - range) % U32 + range) % U32 == code
  {
  }

  /** `offs & matchByte`, after doubling, is the next bit of `matchByte` while the literal still follows it. */
  lemma MatchBit(offs: nat, mb: nat)
    requires offs == 0x100 || offs == 0
    ensures And(offs, mb + mb) == if offs == 0x100 && mb % 256 >= 128 then 0x100 else 0
    ensures (mb + mb) % 256 == mb % 256 * 2 % 256
  {
    hide And, Pow2;
    TopBit(mb);
    if offs == 0 { AndZeroLeft(mb + mb); } else { Pow2Word(); AndBit(8, mb + mb); }
  }

  lemma TopBit(mb: nat)
    ensures (mb + mb) / 256 % 2 == 1 <==> mb % 256 >= 128
    ensures (mb + mb) % 256 == mb % 256 * 2 % 256
  {
    var q, r := mb / 256, mb % 256;
    var m := mb + mb;
    if r >= 128 {
      DivUnique(m, 256, 2 * q + 1, 2 * r - 256);
    } else {
      DivUnique(m, 256, 2 * q, 2 * r);
    }
  }

  lemma AndZeroLeft(b: nat)
    ensures And(0, b) == 0
  {
  }

  lemma FlipBit(a: nat, b: nat)
    requires (a == 0 || a == 0x100) && (b == 0 || b == 0x100)
    ensures Xor(a, b) == if a == b then 0 else 0x100
  {
    if a == b == 0x100 {
      assert Xor(0x10, 0x10) == 0;
      assert Xor(0x80, 0x80) == 0;
    }
  }
}
